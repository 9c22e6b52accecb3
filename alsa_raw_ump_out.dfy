/** The ALSA raw UMP output port.  The driver calls (`snd_ump_open`, `snd_ump_write`,
    `snd_ump_close`, the buffer-size and status queries) are answers the caller supplies;
    the object keeps the open handle, the diagnostics it raised and the handles it closed. */
module AlsaRawUmpOut {
  import opened Diagnostics
  import opened ChunkedSend

  /** An `snd_ump_t*` that is not null. */
  type PortHandle = nat

  /** What `snd_ump_open` answers: its status and the handle it stores (`None` is null). */
  datatype OpenAnswer = OpenAnswer(status: int, handle: Option<PortHandle>)

  const VirtualPortUnsupported := Warning("midi_out_alsa_raw: open_virtual_port unsupported")
  const ClientNameUnsupported := Warning("midi_out_alsa_raw: set_client_name unsupported")
  const PortNameUnsupported := Warning("midi_out_alsa_raw: set_port_name unsupported")
  const CannotOpen := Error(DriverError, "midi_out_alsa_raw::open_port: cannot open device.")
  const NoOpenPort := Error(InvalidUseError,
    "midi_out_alsa_raw::send_message: trying to send a message without an open port.")
  const CannotWrite := Error(DriverError, "midi_out_alsa_raw::send_message: cannot write message.")

  class MidiOut {
    /** The chunking policy of the output configuration, if any. */
    const chunking: Option<Chunking>
    /** `midiport_`: the open handle, `None` when null. */
    var port: Option<PortHandle>
    /** Diagnostics raised through the error handler, in order. */
    var log: seq<Diagnostic>
    /** Handles passed to `snd_ump_close`, in order. */
    var closed: seq<PortHandle>

    constructor (chunking: Option<Chunking>)
      ensures this.chunking == chunking && port == None && log == [] && closed == []
    {
      this.chunking := chunking;
      port := None;
      log := [];
      closed := [];
    }

    /** Virtual ports are not supported: warn and report failure. */
    method OpenVirtualPort(name: string) returns (ok: bool)
      modifies this`log
      ensures !ok && log == old(log) + [VirtualPortUnsupported]
    {
      log := log + [VirtualPortUnsupported];
      ok := false;
    }

    method SetClientName(name: string)
      modifies this`log
      ensures log == old(log) + [ClientNameUnsupported]
    {
      log := log + [ClientNameUnsupported];
    }

    method SetPortName(name: string)
      modifies this`log
      ensures log == old(log) + [PortNameUnsupported]
    {
      log := log + [PortNameUnsupported];
    }

    /** `connect_port`: store the handle `snd_ump_open` gives, raise a driver error when its
        status is negative, and return the status. */
    method ConnectPort(answer: OpenAnswer) returns (status: int)
      modifies this`port, this`log
      ensures status == answer.status && port == answer.handle
      ensures log == old(log) + (if answer.status < 0 then [CannotOpen] else [])
    {
      port := answer.handle;
      status := answer.status;
      if status < 0 {
        log := log + [CannotOpen];
      }
    }

    /** `open_port`: succeeds exactly when the driver's status is zero; a positive status is
        neither reported as an error nor as success. */
    method OpenPort(answer: OpenAnswer) returns (ok: bool)
      modifies this`port, this`log
      ensures ok <==> answer.status == 0
      ensures port == answer.handle
      ensures log == old(log) + (if answer.status < 0 then [CannotOpen] else [])
    {
      var status := ConnectPort(answer);
      ok := status == 0;
    }

    /** `close_port`: close the handle if there is one, then forget it. */
    method ClosePort()
      modifies this`port, this`closed
      ensures port == None
      ensures closed == old(closed) + (if old(port).Some? then [old(port).value] else [])
    {
      if port.Some? {
        closed := closed + [port.value];
      }
      port := None;
    }

    /** `write`: one `snd_ump_write`; a failure raises a driver error. */
    method Write(nativeOk: bool) returns (ok: bool)
      modifies this`log
      ensures ok == nativeOk
      ensures log == old(log) + (if ok then [] else [CannotWrite])
    {
      ok := nativeOk;
      if !ok {
        log := log + [CannotWrite];
      }
    }

    /** The wait before each further chunk: poll until the buffer has room for a whole
        chunk, backing off through `wait` for 320 microseconds per missing word, then pace
        through `wait` for the chunking interval.  Either the send may write next, or it
        has stopped: `wait` returned false or the status answers ran out. */
    method WaitForSpace(size: nat, o: Oracle, start: seq<Step>, polls0: nat, waits0: nat)
      returns (trace: seq<Step>, polls: nat, waits: nat, stop: Option<Outcome>)
      requires chunking.Some?
      requires Legal(chunking.value, o, size, start) && AwaitsPoll(size, start) && Last(start).Write?
      requires polls0 == Calls(start, StatusQuery) <= |o.avail| && waits0 == Calls(start, WaitCall)
      ensures Legal(chunking.value, o, size, trace) && trace != []
      ensures Written(trace) == Written(start) && Calls(trace, WriteCall) == Calls(start, WriteCall)
      ensures polls == Calls(trace, StatusQuery) && waits == Calls(trace, WaitCall)
      ensures stop.Some? ==> stop.value != Completed && Final(o, size, trace, stop.value)
      ensures stop.None? ==>
        && Last(trace).Wait? && Last(trace).kind == Pacing && Last(trace).ok
        && polls0 < polls <= |o.avail|
    {
      var c := chunking.value;
      var chunk := ChunkWords(o.bufferSize, c.size, size);
      var writtenBytes := Written(start) * WordBytes;
      trace, polls, waits := start, polls0, waits0;
      if polls == |o.avail| {
        return trace, polls, waits, Some(Unfinished);
      }
      var step := Poll(o.avail[polls]);
      Extend(c, o, size, trace, step);
      trace := trace + [step];
      polls := polls + 1;
      var available := step.availableBytes / WordBytes;

      while available < chunk
        invariant Legal(c, o, size, trace) && trace != []
        invariant Last(trace).Poll? && available == Last(trace).availableBytes / WordBytes
        invariant Written(trace) == Written(start) && Calls(trace, WriteCall) == Calls(start, WriteCall)
        invariant polls0 < polls == Calls(trace, StatusQuery) <= |o.avail|
        invariant waits == Calls(trace, WaitCall)
        decreases |o.avail| - polls
      {
        var answer := o.waitAnswer(waits);
        step := Wait(Backoff, (chunk - available) * BackoffMicrosPerWord, writtenBytes, answer);
        Extend(c, o, size, trace, step);
        trace := trace + [step];
        waits := waits + 1;
        if !answer {
          return trace, polls, waits, Some(Cancelled);
        }
        if polls == |o.avail| {
          return trace, polls, waits, Some(Unfinished);
        }
        step := Poll(o.avail[polls]);
        Extend(c, o, size, trace, step);
        trace := trace + [step];
        polls := polls + 1;
        available := step.availableBytes / WordBytes;
      }

      var answer := o.waitAnswer(waits);
      step := Wait(Pacing, c.interval, writtenBytes, answer);
      Extend(c, o, size, trace, step);
      trace := trace + [step];
      waits := waits + 1;
      stop := if answer then None else Some(Cancelled);
    }

    /** `write_chunked`: the first chunk at once, then for each further chunk wait for space
        and write `min(size - offset, chunk)` words.  Its trace is legal and final, and only
        a failed write is reported. */
    method WriteChunked(size: nat, o: Oracle) returns (trace: seq<Step>, outcome: Outcome)
      requires chunking.Some?
      modifies this`log
      ensures Legal(chunking.value, o, size, trace) && Final(o, size, trace, outcome)
      ensures log == old(log) + (if outcome == WriteFailed then [CannotWrite] else [])
    {
      var c := chunking.value;
      var chunk := ChunkWords(o.bufferSize, c.size, size);
      var polls, waits, writes := 0, 0, 0;

      var ok := Write(o.writeOk(writes));
      var step := Step.Write(0, chunk, ok);
      Extend(c, o, size, [], step);
      trace := [] + [step];
      writes := writes + 1;
      if !ok {
        outcome := WriteFailed;
        return;
      }
      var data := chunk;

      while data < size
        invariant Legal(c, o, size, trace) && trace != []
        invariant Last(trace).Write? && Last(trace).ok
        invariant data == Written(trace) <= size
        invariant polls == Calls(trace, StatusQuery) <= |o.avail|
        invariant waits == Calls(trace, WaitCall) && writes == Calls(trace, WriteCall)
        invariant log == old(log)
        decreases |o.avail| - polls
      {
        var stop;
        trace, polls, waits, stop := WaitForSpace(size, o, trace, polls, waits);
        if stop.Some? {
          outcome := stop.value;
          return;
        }

        var len := size - data;
        if len > chunk {
          len := chunk;
        }
        ok := Write(o.writeOk(writes));
        step := Step.Write(data, len, ok);
        Extend(c, o, size, trace, step);
        trace := trace + [step];
        writes := writes + 1;
        if !ok {
          outcome := WriteFailed;
          return;
        }
        data := data + len;
      }
      outcome := Completed;
    }

    /** `send_ump`: without an open port an invalid-use error is raised and the send goes
        ahead regardless; a message of at most 16 words, or any message when chunking is
        off, is written at once; longer ones go through `write_chunked`. */
    method SendUmp(size: nat, o: Oracle) returns (trace: seq<Step>, outcome: Outcome)
      modifies this`log
      ensures var reported := if port.None? then [NoOpenPort] else [];
        if chunking.None? || size <= DirectWriteLimit then
          && trace == [Step.Write(0, size, o.writeOk(0))]
          && outcome == (if o.writeOk(0) then Completed else WriteFailed)
          && log == old(log) + reported + (if o.writeOk(0) then [] else [CannotWrite])
        else
          && Legal(chunking.value, o, size, trace) && Final(o, size, trace, outcome)
          && log == old(log) + reported + (if outcome == WriteFailed then [CannotWrite] else [])
    {
      if port.None? {
        log := log + [NoOpenPort];
      }
      if chunking.None? || size <= DirectWriteLimit {
        var ok := Write(o.writeOk(0));
        trace := [Step.Write(0, size, ok)];
        outcome := if ok then Completed else WriteFailed;
      } else {
        trace, outcome := WriteChunked(size, o);
      }
    }
  }

  /** A client of the output port: closing twice closes the native handle at most once,
      and leaves no handle behind. */
  method CloseTwice(out: MidiOut)
    modifies out
    ensures out.port == None
    ensures out.closed == old(out.closed) + (if old(out.port).Some? then [old(out.port).value] else [])
  {
    out.ClosePort();
    out.ClosePort();
  }
}
