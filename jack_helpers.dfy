/** JACK port-name helpers.  Names are byte strings, the bytes of their encoding without
    the terminating NUL, so that lengths count bytes as `std::string_view::size()` does.
    The limit JACK reports through `jack_port_name_size()` is a parameter, and a
    `const char**` port list is a sequence of optional byte strings: `None` is a null entry. */
module JackHelpers {
  import opened Diagnostics

  const NameTooLong := Error(InvalidUseError, "JACK: port name length limit exceeded")
  const NoPortsAvailable := Warning("midi_jack::get_port_name: no ports available!")

  /** A C string's bytes, without the terminating NUL. */
  type Bytes = seq<bv8>

  const Colon: bv8 := 0x3A

  function InvalidPortNumber(portNumber: nat): Diagnostic {
    Error(InvalidParameterError,
      "midi_jack::get_port_name: invalid 'portNumber' argument: " + DecimalString(portNumber))
  }

  /** The full JACK name of a port: "client_name:port_name". */
  function FullPortName(clientName: Bytes, portName: Bytes): Bytes {
    clientName + [Colon] + portName
  }

  /** `check_port_name_length`: accept the pair only when the full name and its
      terminating NUL stay strictly below the limit; otherwise raise `invalid_use_error`. */
  function CheckPortNameLength(clientName: Bytes, portName: Bytes, nameSizeLimit: nat)
    : (r: Reported<bool>)
    ensures r.value <==> |FullPortName(clientName, portName)| + 1 < nameSizeLimit
    ensures r.value ==> r.events == []
    ensures !r.value ==> r.events == [NameTooLong]
  {
    if |clientName| + |portName| + 1 + 1 >= nameSizeLimit then Reported(false, [NameTooLong])
    else Reported(true, [])
  }

  /** A port list as JACK returns it: terminated by a null entry. */
  predicate NullTerminated(ports: seq<Option<Bytes>>) {
    |ports| > 0 && ports[|ports| - 1] == None
  }

  /** Some entry at or before `portNumber` is null. */
  predicate NullUpTo(ports: seq<Option<Bytes>>, portNumber: nat) {
    exists j :: 0 <= j < |ports| && j <= portNumber && ports[j] == None
  }

  /** `get_port_name`: the name at index `portNumber` of a null-terminated port list.
      A missing list gives the empty name and a warning; a list whose entries stop (a null
      entry) at or before `portNumber` gives the empty name and `invalid_parameter_error`.
      `scanned` lists the entries read: never one past `portNumber`, never one past the
      first null entry. */
  method GetPortName(ports: Option<seq<Option<Bytes>>>, portNumber: nat)
    returns (name: Bytes, events: seq<Diagnostic>, ghost scanned: seq<nat>)
    requires ports.Some? ==> NullTerminated(ports.value)
    ensures ports.None? ==> name == [] && events == [NoPortsAvailable] && scanned == []
    ensures ports.Some? && NullUpTo(ports.value, portNumber) ==>
              name == [] && events == [InvalidPortNumber(portNumber)]
    ensures ports.Some? && !NullUpTo(ports.value, portNumber) ==>
              portNumber < |ports.value| && ports.value[portNumber] == Some(name) && events == []
    ensures forall k :: 0 <= k < |scanned| ==> scanned[k] == k
    ensures ports.Some? ==> forall k :: 0 <= k < |scanned| ==>
              scanned[k] <= portNumber && scanned[k] < |ports.value| &&
              forall j :: 0 <= j < scanned[k] ==> ports.value[j].Some?
  {
    scanned := [];
    if ports.None? {
      return [], [NoPortsAvailable], scanned;
    }
    var list := ports.value;
    // The source loops over i <= portNumber and returns at i == portNumber at the latest;
    // the entries before `portNumber` are checked here, the one at `portNumber` below.
    var i := 0;
    while i < portNumber
      invariant 0 <= i <= portNumber && i < |list|
      invariant forall j :: 0 <= j < i ==> list[j].Some?
      invariant |scanned| == i && forall k :: 0 <= k < i ==> scanned[k] == k
    {
      scanned := scanned + [i];
      if list[i] == None {
        return [], [InvalidPortNumber(portNumber)], scanned;
      }
      i := i + 1;
    }
    scanned := scanned + [i];
    if list[i] == None {
      return [], [InvalidPortNumber(portNumber)], scanned;
    }
    return list[portNumber].value, [], scanned;
  }
}
