/** Chunked UMP output with backpressure, as a specification over traces.

    A chunked send talks to three parties whose answers the model takes as given: the ALSA
    driver (the buffer size it reports, the free bytes it reports at each status query,
    and whether each write succeeds) and the caller's `wait(duration, written_bytes)`
    callback (whether each call lets the send go on).  A trace records, in order, every
    status query with its answer, every `wait` call with its arguments and answer, and
    every write with the words it covers and its result.

    `Legal` says which traces the algorithm can produce step by step, `Final` says where
    a send stops and with what outcome; together they determine the trace. */
module ChunkedSend {

  /** Chunking policy of an output configuration: the chunk size limit in bytes and the
      pacing interval in microseconds. */
  datatype Chunking = Chunking(size: nat, interval: nat)

  /** The answers a send receives.  `bufferSize`: the device buffer size in bytes.
      `avail`: the free bytes reported by successive status queries; a send that needs more
      answers than given is still polling when they run out.  `waitAnswer(k)`: what the
      k-th call of `wait` returns.  `writeOk(k)`: whether the k-th write succeeds. */
  datatype Oracle = Oracle(bufferSize: nat, avail: seq<nat>, waitAnswer: nat -> bool, writeOk: nat -> bool)

  /** A back-off wait while the buffer lacks space, or the pacing wait before a write. */
  datatype WaitKind = Backoff | Pacing

  datatype Step =
    | Poll(availableBytes: nat)
    | Wait(kind: WaitKind, micros: nat, writtenBytes: nat, ok: bool)
    | Write(offset: nat, len: nat, ok: bool)

  /** The party a step calls. */
  datatype Call = StatusQuery | WaitCall | WriteCall

  function CallOf(s: Step): Call {
    match s
    case Poll(_) => StatusQuery
    case Wait(_, _, _, _) => WaitCall
    case Write(_, _, _) => WriteCall
  }

  /** How a send ends: every word written, `wait` returned false, a write failed, or the
      send is still polling for buffer space when the status answers run out. */
  datatype Outcome = Completed | Cancelled | WriteFailed | Unfinished

  /** Bytes per UMP word. */
  const WordBytes: nat := 4
  /** Back-off time per missing word of buffer space, in microseconds. */
  const BackoffMicrosPerWord: nat := 320
  /** Messages of at most this many words are written at once even when chunking is on. */
  const DirectWriteLimit: nat := 16

  function MinNat(a: nat, b: nat): nat {
    if a <= b then a else b
  }

  /** The chunk size in words: `min(get_chunk_size(), size)`, where `get_chunk_size()` is
      `min(buffer_size, chunking.size) / 4`.  It is the largest number of whole words that
      fits both byte limits, capped by the message size. */
  function ChunkWords(bufferSize: nat, chunkingSize: nat, size: nat): (w: nat)
    ensures w <= size
    ensures WordBytes * w <= bufferSize && WordBytes * w <= chunkingSize
    ensures w == size || WordBytes * (w + 1) > MinNat(bufferSize, chunkingSize)
  {
    MinNat(MinNat(bufferSize, chunkingSize) / WordBytes, size)
  }

  function Last(t: seq<Step>): Step
    requires t != []
  {
    t[|t| - 1]
  }

  function Init(t: seq<Step>): seq<Step>
    requires t != []
  {
    t[..|t| - 1]
  }

  /** Words a step adds to the device. */
  function WordsOf(s: Step): nat {
    if s.Write? && s.ok then s.len else 0
  }

  /** Words written so far: the lengths of the successful writes of `t`. */
  function Written(t: seq<Step>): nat
    decreases |t|
  {
    if t == [] then 0 else Written(Init(t)) + WordsOf(Last(t))
  }

  /** How many times `t` calls party `c`; the index of the next such call. */
  function Calls(t: seq<Step>, c: Call): nat
    decreases |t|
  {
    if t == [] then 0 else Calls(Init(t), c) + (if CallOf(Last(t)) == c then 1 else 0)
  }

  predicate Succeeded(s: Step) {
    match s
    case Poll(_) => true
    case Wait(_, _, _, ok) => ok
    case Write(_, _, ok) => ok
  }

  /** After `h` the send is at the head of its polling loop: a write has just succeeded and
      data remains, or a back-off wait has just let the send go on. */
  predicate AwaitsPoll(size: nat, h: seq<Step>) {
    h != [] && Succeeded(Last(h)) && Written(h) < size
    && (Last(h).Write? || (Last(h).Wait? && Last(h).kind == Backoff))
  }

  /** Step `s` may follow the history `h`. */
  predicate Allowed(c: Chunking, o: Oracle, size: nat, h: seq<Step>, s: Step) {
    var chunk := ChunkWords(o.bufferSize, c.size, size);
    match s
    case Write(offset, len, ok) =>
      ok == o.writeOk(Calls(h, WriteCall))
      && if h == [] then offset == 0 && len == chunk
         else Last(h).Wait? && Last(h).kind == Pacing && Last(h).ok
              && offset == Written(h) && offset <= size && len == MinNat(size - offset, chunk)
    case Poll(bytes) =>
      AwaitsPoll(size, h)
      && Calls(h, StatusQuery) < |o.avail| && bytes == o.avail[Calls(h, StatusQuery)]
    case Wait(kind, micros, writtenBytes, ok) =>
      h != [] && Last(h).Poll?
      && writtenBytes == WordBytes * Written(h)
      && ok == o.waitAnswer(Calls(h, WaitCall))
      && var words := Last(h).availableBytes / WordBytes;
         if words < chunk then kind == Backoff && micros == (chunk - words) * BackoffMicrosPerWord
         else kind == Pacing && micros == c.interval
  }

  /** Every step of `t` is allowed after the steps before it. */
  ghost predicate Legal(c: Chunking, o: Oracle, size: nat, t: seq<Step>)
    decreases |t|
  {
    t == [] || (Legal(c, o, size, Init(t)) && Allowed(c, o, size, Init(t), Last(t)))
  }

  /** The send stops after `t` with `outcome`. */
  predicate Final(o: Oracle, size: nat, t: seq<Step>, outcome: Outcome) {
    t != [] &&
    match outcome
    case Completed => Last(t).Write? && Last(t).ok && Written(t) == size
    case Cancelled => Last(t).Wait? && !Last(t).ok
    case WriteFailed => Last(t).Write? && !Last(t).ok
    case Unfinished => AwaitsPoll(size, t) && Calls(t, StatusQuery) == |o.avail|
  }

  /** Appending a step: what the trace functions give for `t + [s]`. */
  lemma AppendStep(t: seq<Step>, s: Step)
    ensures Init(t + [s]) == t && Last(t + [s]) == s
    ensures Written(t + [s]) == Written(t) + WordsOf(s)
    ensures forall c :: Calls(t + [s], c) == Calls(t, c) + (if CallOf(s) == c then 1 else 0)
  {
    assert (t + [s])[..|t|] == t;
  }

  /** A legal trace extended by an allowed step is legal. */
  lemma Extend(c: Chunking, o: Oracle, size: nat, t: seq<Step>, s: Step)
    requires Legal(c, o, size, t) && Allowed(c, o, size, t, s)
    ensures Legal(c, o, size, t + [s])
    ensures Init(t + [s]) == t && Last(t + [s]) == s
    ensures Written(t + [s]) == Written(t) + WordsOf(s)
    ensures Calls(t + [s], StatusQuery) == Calls(t, StatusQuery) + (if s.Poll? then 1 else 0)
    ensures Calls(t + [s], WaitCall) == Calls(t, WaitCall) + (if s.Wait? then 1 else 0)
    ensures Calls(t + [s], WriteCall) == Calls(t, WriteCall) + (if s.Write? then 1 else 0)
  {
    AppendStep(t, s);
  }

  /** Every prefix of a legal trace is legal. */
  lemma {:induction false} LegalPrefix(c: Chunking, o: Oracle, size: nat, t: seq<Step>, n: nat)
    requires Legal(c, o, size, t) && n <= |t|
    ensures Legal(c, o, size, t[..n])
    decreases |t|
  {
    if n < |t| {
      assert t[..|t| - 1][..n] == t[..n];
      LegalPrefix(c, o, size, Init(t), n);
    } else {
      assert t[..n] == t;
    }
  }

  /** The algorithm is deterministic: after a given history at most one step is allowed. */
  lemma AllowedUnique(c: Chunking, o: Oracle, size: nat, h: seq<Step>, s1: Step, s2: Step)
    requires Allowed(c, o, size, h, s1) && Allowed(c, o, size, h, s2)
    ensures s1 == s2
  {
  }

  /** Nothing is allowed after a trace at which the send stops. */
  lemma FinalIsMaximal(c: Chunking, o: Oracle, size: nat, t: seq<Step>, outcome: Outcome, s: Step)
    requires Final(o, size, t, outcome)
    ensures !Allowed(c, o, size, t, s)
  {
  }

  /** Of two legal traces, the shorter is a prefix of the longer. */
  lemma {:induction false} LegalAgree(c: Chunking, o: Oracle, size: nat, t1: seq<Step>, t2: seq<Step>)
    requires Legal(c, o, size, t1) && Legal(c, o, size, t2) && |t1| <= |t2|
    ensures t1 == t2[..|t1|]
    decreases |t1|
  {
    if t1 != [] {
      var h1 := Init(t1);
      LegalAgree(c, o, size, h1, t2);
      LegalAt(c, o, size, t2, |h1|);
      AllowedUnique(c, o, size, h1, Last(t1), t2[|h1|]);
      assert t1 == h1 + [Last(t1)];
      assert t2[..|t1|] == t2[..|h1|] + [t2[|h1|]];
    }
  }

  /** A send has one run: two legal traces at which it stops are the same trace, with the
      same outcome. */
  lemma RunIsUnique(c: Chunking, o: Oracle, size: nat, t1: seq<Step>, out1: Outcome, t2: seq<Step>, out2: Outcome)
    requires Legal(c, o, size, t1) && Final(o, size, t1, out1)
    requires Legal(c, o, size, t2) && Final(o, size, t2, out2)
    ensures t1 == t2 && out1 == out2
  {
    if |t1| <= |t2| {
      LegalAgree(c, o, size, t1, t2);
      if |t1| < |t2| {
        LegalAt(c, o, size, t2, |t1|);
        FinalIsMaximal(c, o, size, t1, out1, t2[|t1|]);
      }
    } else {
      LegalAgree(c, o, size, t2, t1);
      LegalAt(c, o, size, t1, |t2|);
      FinalIsMaximal(c, o, size, t2, out2, t1[|t2|]);
    }
  }

  /** Every step of a legal trace is allowed after the steps before it. */
  lemma LegalAt(c: Chunking, o: Oracle, size: nat, t: seq<Step>, i: nat)
    requires Legal(c, o, size, t) && i < |t|
    ensures Allowed(c, o, size, t[..i], t[i])
  {
    LegalPrefix(c, o, size, t, i + 1);
    assert Init(t[..i + 1]) == t[..i] && Last(t[..i + 1]) == t[i];
  }

  /** A legal trace never writes past the end of the message. */
  lemma {:induction false} WrittenAtMostSize(c: Chunking, o: Oracle, size: nat, t: seq<Step>)
    requires Legal(c, o, size, t)
    ensures Written(t) <= size
    decreases |t|
  {
    if t != [] {
      WrittenAtMostSize(c, o, size, Init(t));
    }
  }

  /** Nothing follows a failed step: a `wait` that returned false or a failed write is the
      last step of the trace. */
  lemma StopsAtFirstFailure(c: Chunking, o: Oracle, size: nat, t: seq<Step>)
    requires Legal(c, o, size, t)
    ensures forall i :: 0 <= i < |t| - 1 ==> Succeeded(t[i])
  {
    forall i | 0 <= i < |t| - 1 ensures Succeeded(t[i]) {
      LegalAt(c, o, size, t, i + 1);
      assert Last(t[..i + 1]) == t[i];
    }
  }

  /** A cancelled wait ends the send, and the words on the device are exactly those the
      wait was told had been written; a failed write ends the send, and the words on the
      device are exactly those before its offset. */
  lemma FailureIsFinal(c: Chunking, o: Oracle, size: nat, t: seq<Step>, i: nat)
    requires Legal(c, o, size, t) && i < |t| && !Succeeded(t[i])
    ensures i == |t| - 1
    ensures t[i].Wait? ==> WordBytes * Written(t) == t[i].writtenBytes
    ensures t[i].Write? ==> Written(t) == t[i].offset || (i == 0 && Written(t) == 0)
  {
    StopsAtFirstFailure(c, o, size, t);
    LegalAt(c, o, size, t, i);
    assert Init(t) == t[..i];
  }

  /** The write steps of a trace, in order. */
  function WriteSteps(t: seq<Step>): (w: seq<Step>)
    ensures forall k :: 0 <= k < |w| ==> w[k].Write?
    decreases |t|
  {
    if t == [] then []
    else WriteSteps(Init(t)) + (if Last(t).Write? then [Last(t)] else [])
  }

  /** The total length of a sequence of writes. */
  function SumLens(w: seq<Step>): nat
    requires forall k :: 0 <= k < |w| ==> w[k].Write?
    decreases |w|
  {
    if w == [] then 0 else SumLens(w[..|w| - 1]) + w[|w| - 1].len
  }

  /** Writes `w` tile the message from its start in chunks: the first covers the first
      chunk, each later one starts where the previous one ended, every one but the last
      succeeded, and each covers `min(size - offset, chunk)` words. */
  ghost predicate Tiles(w: seq<Step>, size: nat, chunk: nat)
    requires forall k :: 0 <= k < |w| ==> w[k].Write?
  {
    && |w| >= 1 && w[0].offset == 0 && w[0].len == chunk
    && (forall k :: 0 <= k < |w| - 1 ==> w[k].ok && w[k + 1].offset == w[k].offset + w[k].len)
    && (forall k :: 0 <= k < |w| ==>
          w[k].offset + w[k].len <= size && w[k].len == MinNat(size - w[k].offset, chunk))
    && SumLens(w) == w[|w| - 1].offset + w[|w| - 1].len
  }

  lemma TilesFirst(s: Step, size: nat, chunk: nat)
    requires s.Write? && s.offset == 0 && s.len == chunk && chunk <= size
    ensures Tiles([s], size, chunk)
  {
    assert SumLens([s]) == SumLens([]) + s.len;
  }

  lemma TilesNext(w: seq<Step>, s: Step, size: nat, chunk: nat)
    requires forall k :: 0 <= k < |w| ==> w[k].Write?
    requires Tiles(w, size, chunk) && w[|w| - 1].ok
    requires s.Write? && s.offset == SumLens(w) && s.offset <= size
    requires s.len == MinNat(size - s.offset, chunk)
    ensures Tiles(w + [s], size, chunk)
  {
    var v := w + [s];
    assert v[..|v| - 1] == w;
    assert SumLens(v) == SumLens(w) + s.len;
    assert forall k :: 0 <= k < |w| ==> v[k] == w[k];
  }

  /** The writes of a legal trace tile the message, and the words on the device are the
      lengths of its successful writes; after a step other than a write the last write
      succeeded. */
  lemma {:induction false} WritesTile(c: Chunking, o: Oracle, size: nat, t: seq<Step>)
    requires Legal(c, o, size, t) && t != []
    ensures var w := WriteSteps(t);
      && Tiles(w, size, ChunkWords(o.bufferSize, c.size, size))
      && Written(t) == (if w[|w| - 1].ok then SumLens(w) else w[|w| - 1].offset)
      && (!Last(t).Write? ==> w[|w| - 1].ok)
    decreases |t|
  {
    var h, s := Init(t), Last(t);
    var chunk := ChunkWords(o.bufferSize, c.size, size);
    assert t == h + [s];
    AppendStep(h, s);
    if h == [] {
      assert WriteSteps(t) == [s];
      TilesFirst(s, size, chunk);
    } else {
      WritesTile(c, o, size, h);
      WrittenAtMostSize(c, o, size, h);
      var wh := WriteSteps(h);
      if s.Write? {
        assert WriteSteps(t) == wh + [s];
        TilesNext(wh, s, size, chunk);
      } else {
        assert WriteSteps(t) == wh;
        if Last(h).Write? {
          assert wh[|wh| - 1] == Last(h);
        }
      }
    }
  }

  /** A send that completes has written the whole message: its writes all succeeded, the
      first starts at word 0, each starts where the previous one ended, and their lengths
      add up to the message size. */
  lemma CompletedSendCoversMessage(c: Chunking, o: Oracle, size: nat, t: seq<Step>)
    requires Legal(c, o, size, t) && Final(o, size, t, Completed)
    ensures var w := WriteSteps(t);
      && |w| >= 1 && w[0].offset == 0
      && (forall k :: 0 <= k < |w| ==> w[k].ok)
      && (forall k :: 0 <= k < |w| - 1 ==> w[k + 1].offset == w[k].offset + w[k].len)
      && SumLens(w) == size
  {
    WritesTile(c, o, size, t);
    assert Last(WriteSteps(t)) == Last(t);
  }

  /** The waits of a legal trace: each follows a status query and reports four times the
      words written so far; a back-off wait happens only while fewer than `chunk` words are
      free, for `(chunk - free) * 320` microseconds; a pacing wait happens only once `chunk`
      words are free, for the pacing interval; every write after the first comes right
      after a pacing wait that let the send go on, and a pacing wait is followed by nothing
      but a write, so each further chunk is paced exactly once. */
  lemma WaitDiscipline(c: Chunking, o: Oracle, size: nat, t: seq<Step>, i: nat)
    requires Legal(c, o, size, t) && i < |t|
    ensures var chunk := ChunkWords(o.bufferSize, c.size, size);
      && (i == 0 ==> t[i] == Write(0, chunk, o.writeOk(0)))
      && (t[i].Wait? ==>
            && i > 0 && t[i - 1].Poll?
            && t[i].writtenBytes == WordBytes * Written(t[..i])
            && var words := t[i - 1].availableBytes / WordBytes;
               (t[i].kind == Backoff <==> words < chunk)
               && (t[i].kind == Backoff ==> t[i].micros == (chunk - words) * BackoffMicrosPerWord)
               && (t[i].kind == Pacing ==> t[i].micros == c.interval))
      && (t[i].Write? && i > 0 ==>
            t[i - 1].Wait? && t[i - 1].kind == Pacing && t[i - 1].ok && t[i - 1].micros == c.interval)
      && (t[i].Wait? && t[i].kind == Pacing && i + 1 < |t| ==> t[i + 1].Write?)
  {
    LegalAt(c, o, size, t, i);
    if i > 0 {
      assert Last(t[..i]) == t[i - 1];
    }
    if i + 1 < |t| {
      LegalAt(c, o, size, t, i + 1);
      assert Last(t[..i + 1]) == t[i];
    }
  }

  /** A message that fits in one chunk is sent by the first write alone: the run is that
      write and nothing else. */
  lemma SingleChunkSend(c: Chunking, o: Oracle, size: nat, t: seq<Step>, outcome: Outcome)
    requires ChunkWords(o.bufferSize, c.size, size) == size
    requires Legal(c, o, size, t) && Final(o, size, t, outcome)
    ensures t == [Write(0, size, o.writeOk(0))]
    ensures outcome == (if o.writeOk(0) then Completed else WriteFailed)
  {
    WaitDiscipline(c, o, size, t, 0);
    if |t| > 1 {
      LegalAt(c, o, size, t, 1);
    }
  }

  /** With a chunk of zero words (a buffer or chunk limit below four bytes) the send never
      advances: no word is ever written, so a non-empty message never completes and the send
      ends only when `wait` returns false, a write fails, or the status answers run out. */
  lemma {:induction false} ZeroChunkNeverAdvances(c: Chunking, o: Oracle, size: nat, t: seq<Step>)
    requires ChunkWords(o.bufferSize, c.size, size) == 0
    requires Legal(c, o, size, t)
    ensures Written(t) == 0
    ensures size > 0 ==> !Final(o, size, t, Completed)
    decreases |t|
  {
    if t != [] {
      ZeroChunkNeverAdvances(c, o, size, Init(t));
    }
  }

  /** Answers under which the send is never held back: every wait lets it go on, every
      write succeeds, and every status query reports room for a whole chunk. */
  ghost predicate Unobstructed(c: Chunking, o: Oracle, size: nat) {
    && (forall k :: o.waitAnswer(k))
    && (forall k :: o.writeOk(k))
    && (forall k :: 0 <= k < |o.avail| ==> o.avail[k] >= WordBytes * ChunkWords(o.bufferSize, c.size, size))
  }

  /** Without obstruction every status query is followed by the pacing wait and a write of a
      whole chunk (or of the rest of the message). */
  lemma {:induction false} UnobstructedProgress(c: Chunking, o: Oracle, size: nat, t: seq<Step>)
    requires Unobstructed(c, o, size) && Legal(c, o, size, t) && t != []
    ensures var chunk := ChunkWords(o.bufferSize, c.size, size);
      && Succeeded(Last(t))
      && !(Last(t).Wait? && Last(t).kind == Backoff)
      && (Last(t).Write? ==> Written(t) >= MinNat(size, chunk * (Calls(t, StatusQuery) + 1)))
      && (!Last(t).Write? ==> Written(t) >= MinNat(size, chunk * Calls(t, StatusQuery)))
    decreases |t|
  {
    var chunk := ChunkWords(o.bufferSize, c.size, size);
    var h, s := Init(t), Last(t);
    assert t == h + [s];
    AppendStep(h, s);
    if h != [] {
      UnobstructedProgress(c, o, size, h);
      WrittenAtMostSize(c, o, size, h);
      var p := Calls(h, StatusQuery);
      assert chunk * (p + 1) == chunk * p + chunk;
      if s.Poll? {
        assert o.avail[p] >= WordBytes * chunk;
      }
    }
  }

  /** Without obstruction, and with enough status answers for the whole message, a send
      with a chunk of at least one word completes. */
  lemma UnobstructedSendCompletes(c: Chunking, o: Oracle, size: nat, t: seq<Step>, outcome: Outcome)
    requires Unobstructed(c, o, size)
    requires ChunkWords(o.bufferSize, c.size, size) >= 1
    requires ChunkWords(o.bufferSize, c.size, size) * (|o.avail| + 1) >= size
    requires Legal(c, o, size, t) && Final(o, size, t, outcome)
    ensures outcome == Completed
  {
    UnobstructedProgress(c, o, size, t);
  }
}
