/** Per-connection input state and the input API's callback management.
    `InData` is the state a backend's delivery thread works on; `MidiInApi` owns one and
    keeps its callback slot from ever being empty. */
module MidiInput {

  /** A MIDI 1.0 message: its bytes and its timestamp. */
  datatype Message = Message(bytes: seq<bv8>, timestamp: int)

  const EmptyMessage := Message([], 0)

  /** A `message_callback` value.  `Empty` is a default-constructed callback (invoking it
      throws `std::bad_function_call`), `NoOp` is the inert callback the input API installs,
      `User(id)` is a callback supplied by the application. */
  datatype Callback = Empty | NoOp | User(id: nat)

  /** One call into the installed callback. */
  datatype Invocation = Invocation(callback: Callback, message: Message)

  /** The opaque backend pointer stored alongside the input state. */
  datatype Pointer = Null | Address(addr: nat)

  /** Bit positions of the ignore-flag set. */
  const SysexBit: bv8 := 0x01
  const TimeBit: bv8 := 0x02
  const SenseBit: bv8 := 0x04

  predicate IgnoresSysex(flags: bv8) { flags & SysexBit != 0 }
  predicate IgnoresTime(flags: bv8) { flags & TimeBit != 0 }
  predicate IgnoresSense(flags: bv8) { flags & SenseBit != 0 }

  /** The flag set that ignores exactly the chosen message categories. */
  function IgnoreFlags(sysex: bool, time: bool, sense: bool): (flags: bv8)
    ensures IgnoresSysex(flags) == sysex
    ensures IgnoresTime(flags) == time
    ensures IgnoresSense(flags) == sense
    ensures flags < 8
  {
    (if sysex then SysexBit else 0) | (if time then TimeBit else 0) | (if sense then SenseBit else 0)
  }

  /** The three categories are independent bits: every flag set below 8 is the encoding of
      the categories it ignores. */
  lemma IgnoreFlagsDecode(flags: bv8)
    requires flags < 8
    ensures IgnoreFlags(IgnoresSysex(flags), IgnoresTime(flags), IgnoresSense(flags)) == flags
  {
  }

  /** The `in_data` record. */
  class InData {
    var message: Message
    var ignoreFlags: bv8
    var firstMessage: bool
    var apiData: Pointer
    var userCallback: Callback
    var continueSysex: bool
    /** Every call made into the installed callback so far. */
    var invocations: seq<Invocation>

    /** A value-initialised `in_data`: empty message, every category ignored, first message
        pending, no sysex in progress, and a default-constructed (empty) callback. */
    constructor ()
      ensures message == EmptyMessage
      ensures ignoreFlags == 7
      ensures IgnoresSysex(ignoreFlags) && IgnoresTime(ignoreFlags) && IgnoresSense(ignoreFlags)
      ensures firstMessage && !continueSysex
      ensures apiData == Null && userCallback == Empty && invocations == []
    {
      message := EmptyMessage;
      ignoreFlags := 7;
      firstMessage := true;
      apiData := Null;
      userCallback := Empty;
      continueSysex := false;
      invocations := [];
    }

    /** `on_message_received`, called by a backend on its own assembly buffer: hand the
        buffered message to the installed callback exactly once, then clear the buffer's
        bytes, keeping its timestamp.  An empty callback would throw before the clear, so
        the slot must hold one. */
    method OnMessageReceived()
      requires userCallback != Empty
      modifies this`invocations, this`message
      ensures invocations == old(invocations) + [Invocation(userCallback, old(message))]
      ensures message.bytes == [] && message.timestamp == old(message).timestamp
    {
      invocations := invocations + [Invocation(userCallback, message)];
      message := message.(bytes := []);
    }
  }

  /** The input API base class: owns the `in_data` record of its connection. */
  class MidiInApi {
    const inputData: InData

    /** The callback slot is never empty, so dispatch never throws. */
    ghost predicate Valid()
      reads this, inputData
    {
      inputData.userCallback != Empty
    }

    /** `midi_in_api(data)`: install the no-op callback and remember the backend pointer. */
    constructor (data: Pointer)
      ensures Valid() && fresh(inputData)
      ensures inputData.userCallback == NoOp && inputData.apiData == data
      ensures inputData.message == EmptyMessage && inputData.ignoreFlags == 7
      ensures inputData.firstMessage && !inputData.continueSysex && inputData.invocations == []
    {
      inputData := new InData();
      new;
      CancelCallback();
      inputData.apiData := data;
    }

    /** `ignore_types`: replace the flag set by the encoding of the three choices,
        whatever it was before. */
    method IgnoreTypes(midiSysex: bool, midiTime: bool, midiSense: bool)
      modifies inputData
      ensures inputData.ignoreFlags == IgnoreFlags(midiSysex, midiTime, midiSense)
      ensures Valid() == old(Valid())
      ensures inputData.userCallback == old(inputData.userCallback)
      ensures inputData.message == old(inputData.message)
      ensures inputData.firstMessage == old(inputData.firstMessage)
      ensures inputData.continueSysex == old(inputData.continueSysex)
      ensures inputData.apiData == old(inputData.apiData)
      ensures inputData.invocations == old(inputData.invocations)
    {
      inputData.ignoreFlags := 0;
      if midiSysex {
        inputData.ignoreFlags := SysexBit;
      }
      if midiTime {
        inputData.ignoreFlags := inputData.ignoreFlags | TimeBit;
      }
      if midiSense {
        inputData.ignoreFlags := inputData.ignoreFlags | SenseBit;
      }
    }

    /** `set_callback`: an empty callback is replaced by the no-op one. */
    method SetCallback(callback: Callback)
      modifies inputData
      ensures Valid()
      ensures inputData.userCallback == if callback == Empty then NoOp else callback
      ensures inputData.ignoreFlags == old(inputData.ignoreFlags)
      ensures inputData.message == old(inputData.message)
      ensures inputData.firstMessage == old(inputData.firstMessage)
      ensures inputData.continueSysex == old(inputData.continueSysex)
      ensures inputData.apiData == old(inputData.apiData)
      ensures inputData.invocations == old(inputData.invocations)
    {
      if callback == Empty {
        CancelCallback();
      } else {
        inputData.userCallback := callback;
      }
    }

    /** `cancel_callback`: install the no-op callback. */
    method CancelCallback()
      modifies inputData
      ensures Valid()
      ensures inputData.userCallback == NoOp
      ensures inputData.ignoreFlags == old(inputData.ignoreFlags)
      ensures inputData.message == old(inputData.message)
      ensures inputData.firstMessage == old(inputData.firstMessage)
      ensures inputData.continueSysex == old(inputData.continueSysex)
      ensures inputData.apiData == old(inputData.apiData)
      ensures inputData.invocations == old(inputData.invocations)
    {
      inputData.userCallback := NoOp;
    }
  }

  /** A backend delivering through an input API whose callback slot is non-empty: it
      assembles `m` in the buffer and dispatches it.  The message reaches the installed
      callback exactly once, that callback is not the empty one, so the dispatch does not
      throw, and the buffer is left without bytes for the next message. */
  method Dispatch(api: MidiInApi, m: Message)
    requires api.Valid()
    modifies api.inputData
    ensures api.Valid() && api.inputData.userCallback == old(api.inputData.userCallback)
    ensures api.inputData.invocations ==
              old(api.inputData.invocations) + [Invocation(api.inputData.userCallback, m)]
    ensures api.inputData.invocations[|api.inputData.invocations| - 1].callback != Empty
    ensures api.inputData.message == m.(bytes := [])
  {
    api.inputData.message := m;
    api.inputData.OnMessageReceived();
  }

  /** A client of the input API: whatever callback is installed, the message a backend then
      delivers reaches it exactly once, and never reaches an empty callback. */
  method DeliverAfterSetCallback(api: MidiInApi, callback: Callback, m: Message)
    modifies api.inputData
    ensures api.Valid()
    ensures api.inputData.invocations ==
              old(api.inputData.invocations) + [Invocation(if callback == Empty then NoOp else callback, m)]
    ensures api.inputData.message == m.(bytes := [])
  {
    api.SetCallback(callback);
    Dispatch(api, m);
  }
}
