/** One client stream: tunnel DATA frames fed by the relay loop on one side, a reader that
    blocks on the other, and a close that may come from anywhere at any moment. */
module FrameConn {
  import opened ByteStrings
  import opened Wrappers

  const MAX_STREAM_BUFFER := 0x80_0000
  const CHUNK_SIZE := 0x8000

  // ---------- the atomic sections, as functions of the connection's fields ----------

  /** The fields of a connection. `token` is the one-place notify channel and `done` whether
      its close channel is closed; `current` belongs to the reader alone. */
  datatype Buffer = Buffer(chunks: seq<Bytes>, buffered: int, failure: bool, done: bool, token: bool, current: Bytes)

  const EMPTY: Buffer := Buffer([], 0, false, false, false, [])

  datatype Verdict = Drop | Overflow | Accept

  datatype Sight = Failure | Chunk | Nothing

  function Judged(b: Buffer, data: Bytes): (Buffer, Verdict) {
    if b.failure || b.done then (b, Drop)
    else if b.buffered + |data| > MAX_STREAM_BUFFER then (b.(failure := true, chunks := [], buffered := 0), Overflow)
    else (b, Accept)
  }

  function Appended(b: Buffer, data: Bytes): Buffer {
    b.(chunks := b.chunks + [data], buffered := b.buffered + |data|)
  }

  function Seen(b: Buffer): (Buffer, Sight) {
    if b.failure then (b, Failure)
    else if b.chunks == [] then (b, Nothing)
    else (b.(current := b.chunks[0], chunks := b.chunks[1..], buffered := b.buffered - |b.chunks[0]|), Chunk)
  }

  function Min(a: nat, b: nat): nat { if a < b then a else b }

  function Copied(b: Buffer, room: nat): (Buffer, Bytes) {
    var n := Min(room, |b.current|);
    (b.(current := b.current[n..]), b.current[..n])
  }

  class FrameConnection {
    var chunks: seq<Bytes>
    var buffered: int
    var failure: bool
    var done: bool
    var token: bool
    var current: Bytes

    function View(): Buffer
      reads this
    {
      Buffer(chunks, buffered, failure, done, token, current)
    }

    constructor ()
      ensures View() == EMPTY
    {
      chunks, buffered, failure, done, token, current := [], 0, false, false, false, [];
    }

    /** feed, up to the decision; on Accept the mutex stays held for FeedAppend. */
    method FeedCheck(data: Bytes) returns (verdict: Verdict)
      modifies this
      ensures (View(), verdict) == Judged(old(View()), data)
    {
      if failure || done {
        return Drop;
      }
      if buffered + |data| > MAX_STREAM_BUFFER {
        failure := true;
        chunks, buffered := [], 0;
        return Overflow;
      }
      return Accept;
    }

    method FeedAppend(data: Bytes)
      modifies this
      ensures View() == Appended(old(View()), data)
    {
      chunks := chunks + [data];
      buffered := buffered + |data|;
    }

    /** The non-blocking send on the notify channel. */
    method Notify()
      modifies this
      ensures View() == old(View()).(token := true)
    {
      token := true;
    }

    method CloseIncoming()
      modifies this`done
      ensures View() == old(View()).(done := true)
    {
      done := true;
    }

    /** First locked section of Read. */
    method Look() returns (sight: Sight)
      modifies this
      ensures (View(), sight) == Seen(old(View()))
    {
      if failure {
        return Failure;
      }
      if |chunks| > 0 {
        current := chunks[0];
        chunks := chunks[1..];
        buffered := buffered - |current|;
        return Chunk;
      }
      return Nothing;
    }

    /** Second locked section of Read, after the close was observed. */
    method Pending() returns (pending: bool)
      ensures pending == (chunks != [] || failure)
    {
      pending := |chunks| > 0 || failure;
    }

    method Copy(room: nat) returns (p: Bytes)
      modifies this
      ensures (View(), p) == Copied(old(View()), room)
    {
      var n := if room < |current| then room else |current|;
      p := current[..n];
      current := current[n..];
    }
  }

  // ---------- one feeder, one reader, and closes from anywhere ----------

  /** The relay loop; Holding keeps the mutex between the decision and the append. */
  datatype Feeder = Idle | Holding(data: Bytes) | Notifying | Overflowed

  /** The reader, with the size of its buffer; Parked is the blocking select. */
  datatype Reader = Resting | Looking(room: nat) | SawNothing(room: nat) | SawClosed(room: nat) | Parked(room: nat)

  /** A connection with its two goroutines and, for the record: everything offered to feed,
      what was accepted, what Read returned, whether some frame was dropped because the
      stream was closed, and whether Read reported the end of the stream. */
  datatype Conn = Conn(b: Buffer, feeder: Feeder, reader: Reader,
                       offered: Bytes, accepted: Bytes, delivered: Bytes, dropped: bool, eof: bool)

  const START: Conn := Conn(EMPTY, Idle, Resting, [], [], [], false, false)

  datatype Event =
    | Feed(data: Bytes)
    | Append
    | PostNotify
    | CloseOverflowed
    | Close
    | Read(room: nat)
    | Look
    | CheckDone
    | Recheck
    | WakeByToken
    | WakeByClose
    | Expire

  predicate Enabled(c: Conn, e: Event) {
    match e
    case Feed(_) => c.feeder.Idle?
    case Append => c.feeder.Holding?
    case PostNotify => c.feeder.Notifying?
    case CloseOverflowed => c.feeder.Overflowed?
    case Close => true
    case Read(_) => c.reader.Resting?
    case Look => c.reader.Looking? && !c.feeder.Holding?
    case CheckDone => c.reader.SawNothing?
    case Recheck => c.reader.SawClosed? && !c.feeder.Holding?
    case WakeByToken => c.reader.Parked? && c.b.token
    case WakeByClose => c.reader.Parked? && c.b.done
    case Expire => c.reader.Parked?
  }

  function Returned(c: Conn, b: Buffer, room: nat): Conn {
    var (after, p) := Copied(b, room);
    c.(b := after, reader := Resting, delivered := c.delivered + p)
  }

  function Apply(c: Conn, e: Event): Conn
    requires Enabled(c, e)
  {
    match e
    case Feed(data) =>
      var (b, verdict) := Judged(c.b, data);
      c.(b := b, offered := c.offered + data, dropped := c.dropped || verdict.Drop?,
         feeder := if verdict.Drop? then Idle else if verdict.Overflow? then Overflowed else Holding(data))
    case Append =>
      c.(b := Appended(c.b, c.feeder.data), feeder := Notifying, accepted := c.accepted + c.feeder.data)
    case PostNotify => c.(b := c.b.(token := true), feeder := Idle)
    case CloseOverflowed => c.(b := c.b.(done := true), feeder := Idle)
    case Close => c.(b := c.b.(done := true))
    case Read(room) => if c.b.current != [] then Returned(c, c.b, room) else c.(reader := Looking(room))
    case Look =>
      var (b, sight) := Seen(c.b);
      if sight.Chunk? then Returned(c, b, c.reader.room)
      else c.(reader := if sight.Failure? then Resting else SawNothing(c.reader.room))
    case CheckDone => c.(reader := if c.b.done then SawClosed(c.reader.room) else Parked(c.reader.room))
    case Recheck =>
      if c.b.chunks != [] || c.b.failure then c.(reader := Looking(c.reader.room))
      else c.(reader := Resting, eof := true)
    case WakeByToken => c.(b := c.b.(token := false), reader := Looking(c.reader.room))
    case WakeByClose => c.(reader := Looking(c.reader.room))
    case Expire => c.(reader := Resting)
  }

  /** The state a schedule leads to from `c`, or None when some step is not possible. */
  function Exec(c: Conn, es: seq<Event>): Option<Conn> {
    if es == [] then Some(c)
    else
      var last := |es| - 1;
      match Exec(c, es[..last])
      case None => None
      case Some(d) => if Enabled(d, es[last]) then Some(Apply(d, es[last])) else None
  }

  // ---------- invariants ----------

  predicate Bounded(c: Conn) {
    && c.b.buffered == |Concat(c.b.chunks)| <= MAX_STREAM_BUFFER
    && (c.feeder.Holding? ==> !c.b.failure && c.b.buffered + |c.feeder.data| <= MAX_STREAM_BUFFER)
  }

  /** Bytes come out in the order they were accepted; before an overflow none is missing. */
  predicate InOrder(c: Conn) {
    if c.b.failure then c.b.chunks == [] && c.delivered + c.b.current <= c.accepted
    else c.delivered + c.b.current + Concat(c.b.chunks) == c.accepted
  }

  predicate ReaderPlace(c: Conn) {
    && (!c.reader.Resting? ==> c.b.current == [])
    && (c.reader.SawClosed? ==> c.b.done)
  }

  /** The end of the stream was only ever reported with everything delivered, for good. */
  predicate EndIsFinal(c: Conn) {
    c.eof ==> c.b.done && !c.b.failure && !c.feeder.Holding?
              && c.b.chunks == [] && c.b.current == [] && c.delivered == c.accepted
  }

  /** No lost wake-up: a reader that is parked (or about to park) while there is something to
      see has a token waiting, a closed stream, or a feeder that is about to wake it. */
  predicate WillWake(c: Conn) {
    (c.reader.Parked? || c.reader.SawNothing?) ==>
      && (c.b.chunks != [] ==> c.b.token || c.b.done || c.feeder.Notifying?)
      && (c.b.failure ==> c.b.done || c.feeder.Overflowed?)
  }

  function Held(c: Conn): Bytes { if c.feeder.Holding? then c.feeder.data else [] }

  /** What was accepted is a prefix of what was offered: all of it until a frame is dropped or
      overflows, after which nothing more is accepted. */
  predicate OfferedIsAccepted(c: Conn) {
    && c.accepted + Held(c) <= c.offered
    && (!c.dropped && !c.b.failure ==> c.offered == c.accepted + Held(c))
    && (c.dropped ==> c.b.done || c.b.failure)
    && (c.b.failure ==> |c.offered| > MAX_STREAM_BUFFER)
  }

  predicate Invariant(c: Conn) {
    Bounded(c) && InOrder(c) && ReaderPlace(c) && EndIsFinal(c) && WillWake(c) && OfferedIsAccepted(c)
  }

  lemma FeederStep(c: Conn, e: Event)
    requires Invariant(c) && Enabled(c, e)
    requires e.Feed? || e.PostNotify? || e.CloseOverflowed? || e.Close?
    ensures Invariant(Apply(c, e))
  {
  }

  lemma AppendStep(c: Conn)
    requires Invariant(c) && Enabled(c, Append)
    ensures Invariant(Apply(c, Append))
  {
    ConcatAppend(c.b.chunks, [c.feeder.data]);
    ConcatOne(c.feeder.data);
    assert c.delivered + c.b.current + (Concat(c.b.chunks) + c.feeder.data)
        == (c.delivered + c.b.current + Concat(c.b.chunks)) + c.feeder.data;
  }

  lemma ReaderStep(c: Conn, e: Event)
    requires Invariant(c) && Enabled(c, e)
    requires e.CheckDone? || e.Recheck? || e.WakeByToken? || e.WakeByClose? || e.Expire?
    ensures Invariant(Apply(c, e))
  {
  }

  lemma ReadStep(c: Conn, e: Event)
    requires Invariant(c) && Enabled(c, e) && e.Read?
    ensures Invariant(Apply(c, e))
  {
    assert Apply(c, e).delivered + Apply(c, e).b.current == c.delivered + c.b.current;
  }

  lemma LookStep(c: Conn)
    requires Invariant(c) && Enabled(c, Look)
    ensures Invariant(Apply(c, Look))
  {
    var d := Apply(c, Look);
    if Seen(c.b).1.Chunk? {
      var chunk := c.b.chunks[0];
      assert d.delivered + d.b.current == c.delivered + chunk;
      assert c.delivered + [] + (chunk + Concat(c.b.chunks[1..])) == (c.delivered + chunk) + Concat(c.b.chunks[1..]);
    }
  }

  lemma InvariantStep(c: Conn, e: Event)
    requires Invariant(c) && Enabled(c, e)
    ensures Invariant(Apply(c, e))
  {
    if e.Append? {
      AppendStep(c);
    } else if e.Read? {
      ReadStep(c, e);
    } else if e.Look? {
      LookStep(c);
    } else if e.Feed? || e.PostNotify? || e.CloseOverflowed? || e.Close? {
      FeederStep(c, e);
    } else {
      ReaderStep(c, e);
    }
  }

  lemma {:induction false} RunKeepsInvariant(c: Conn, es: seq<Event>, d: Conn)
    requires Invariant(c) && Exec(c, es) == Some(d)
    ensures Invariant(d)
  {
    if es != [] {
      var last := |es| - 1;
      var before := Exec(c, es[..last]).value;
      RunKeepsInvariant(c, es[..last], before);
      InvariantStep(before, es[last]);
    }
  }

  ghost predicate Reachable(c: Conn) {
    exists es :: Exec(START, es) == Some(c)
  }

  lemma ReachableIsInvariant(c: Conn)
    requires Reachable(c)
    ensures Invariant(c)
  {
    var es :| Exec(START, es) == Some(c);
    RunKeepsInvariant(START, es, c);
  }

  // ---------- what holds in every run ----------

  /** The stream refines a bounded queue: what Read returned is a prefix of what was accepted,
      the buffer counter is exact and bounded, and before an overflow every accepted byte is
      delivered, in the reader's hands or buffered, in order. */
  lemma DeliveryIsExact(c: Conn)
    requires Reachable(c)
    ensures c.delivered <= c.accepted <= c.offered
    ensures c.b.buffered == |Concat(c.b.chunks)| <= MAX_STREAM_BUFFER
    ensures !c.b.failure ==> c.delivered + c.b.current + Concat(c.b.chunks) == c.accepted
  {
    ReachableIsInvariant(c);
    PrefixOfSum(c.accepted, Held(c), c.offered);
    if c.b.failure {
      PrefixOfSum(c.delivered, c.b.current, c.accepted);
    } else {
      PrefixOfSum(c.delivered, c.b.current + Concat(c.b.chunks), c.accepted);
    }
  }

  lemma PrefixOfSum(a: Bytes, b: Bytes, whole: Bytes)
    requires a + b <= whole
    ensures a <= whole
  {
    assert a + b == whole[..|a + b|];
    assert a == (a + b)[..|a|];
  }

  lemma {:induction false} NothingAfterTheEnd(c: Conn, es: seq<Event>, d: Conn)
    requires Invariant(c) && c.eof && Exec(c, es) == Some(d)
    ensures Invariant(d) && d.eof && d.accepted == c.accepted
  {
    if es != [] {
      var last := |es| - 1;
      var before := Exec(c, es[..last]).value;
      NothingAfterTheEnd(c, es[..last], before);
      InvariantStep(before, es[last]);
    }
  }

  /** When Read reports the end, every byte ever accepted, before or after that moment, has
      been delivered, however feeds and closes raced with it. */
  lemma EndMeansEverything(c: Conn, es: seq<Event>, d: Conn)
    requires Reachable(c) && c.eof && Exec(c, es) == Some(d)
    ensures c.delivered == c.accepted == d.accepted == d.delivered
  {
    ReachableIsInvariant(c);
    NothingAfterTheEnd(c, es, d);
  }

  /** A step that wakes the reader, or that leads to one without the reader's help. */
  predicate Rouses(e: Event) { e.WakeByToken? || e.WakeByClose? || e.PostNotify? || e.CloseOverflowed? }

  /** No lost wake-up: a parked reader with a buffered chunk or a failure to report always has
      a rousing step available, and the feeder's rousing steps leave a waking one enabled. */
  lemma NoLostWakeUp(c: Conn) returns (e: Event)
    requires Reachable(c) && c.reader.Parked? && (c.b.chunks != [] || c.b.failure)
    ensures Rouses(e) && Enabled(c, e)
    ensures e.PostNotify? ==> Enabled(Apply(c, e), WakeByToken)
    ensures e.CloseOverflowed? ==> Enabled(Apply(c, e), WakeByClose)
  {
    ReachableIsInvariant(c);
    e := if c.b.token then WakeByToken else if c.b.done then WakeByClose
         else if c.feeder.Notifying? then PostNotify else CloseOverflowed;
  }

  function Notices(es: seq<Event>): nat {
    if es == [] then 0 else Notices(es[..|es| - 1]) + if es[|es| - 1].PostNotify? then 1 else 0
  }

  function TokenWakes(es: seq<Event>): nat {
    if es == [] then 0 else TokenWakes(es[..|es| - 1]) + if es[|es| - 1].WakeByToken? then 1 else 0
  }

  /** No busy waiting: a token wakes the reader at most once, so it is woken in this way no more often
      than frames were accepted. */
  lemma {:induction false} OneWakePerNotice(es: seq<Event>, c: Conn)
    requires Exec(START, es) == Some(c)
    ensures TokenWakes(es) + (if c.b.token then 1 else 0) <= Notices(es)
  {
    if es != [] {
      OneWakePerNotice(es[..|es| - 1], Exec(START, es[..|es| - 1]).value);
    }
  }

  // ---------- what feed and Read achieve ----------

  /** The bytes that wait in the buffer: accepted, and not yet in the reader's hands. */
  function Waiting(c: Conn): int { |c.accepted| - |c.delivered| - |c.b.current| }

  /** A frame is accepted exactly when the stream has neither failed nor been closed and its bytes
      fit beside those that wait; it fails the stream exactly when they do not fit. */
  lemma FeedAcceptsWhatFits(c: Conn, data: Bytes)
    requires Reachable(c) && Enabled(c, Feed(data))
    ensures var d := Apply(c, Feed(data));
            var open, fits := !c.b.failure && !c.b.done, Waiting(c) + |data| <= MAX_STREAM_BUFFER;
            && (d.dropped <==> c.dropped || !open)
            && (d.b.failure <==> c.b.failure || (open && !fits))
            && (d.feeder.Holding? <==> open && fits)
            && (open && fits ==> d.b == c.b && Apply(d, Append).accepted == c.accepted + data
                                 && Apply(d, Append).b.chunks == c.b.chunks + [data])
            && (open && !fits ==> Apply(d, CloseOverflowed).b.done)
  {
    ReachableIsInvariant(c);
  }

  /** What the next read has to hand out, when it has something. */
  function NextPiece(c: Conn): Bytes {
    if c.b.current != [] then c.b.current else if c.b.chunks != [] then c.b.chunks[0] else []
  }

  /** A read that returns data fills its room or leaves nothing of the piece it found. */
  lemma ReadHandsOut(c: Conn, e: Event)
    requires Reachable(c) && Enabled(c, e)
    requires (e.Read? && c.b.current != []) || (e.Look? && !c.b.failure && c.b.chunks != [])
    ensures var d, room := Apply(c, e), if e.Read? then e.room else c.reader.room;
            && d.reader.Resting? && d.accepted == c.accepted
            && |d.delivered| - |c.delivered| == Min(room, |NextPiece(c)|)
            && d.b.current == NextPiece(c)[Min(room, |NextPiece(c)|)..]
  {
    ReachableIsInvariant(c);
  }

  /** How many reads may still hand something out: one for each byte and one for each frame held. */
  function Load(b: Buffer): nat { |b.current| + |Concat(b.chunks)| + |b.chunks| }

  function Reads(es: seq<Event>): nat {
    if es == [] then 0 else Reads(es[..|es| - 1]) + if es[|es| - 1].Read? then 1 else 0
  }

  predicate OfReader(e: Event) { !e.Feed? && !e.Append? && !e.PostNotify? && !e.CloseOverflowed? && !e.Close? }

  /** The reader's own steps. */
  function Steps(es: seq<Event>): nat {
    if es == [] then 0 else Steps(es[..|es| - 1]) + if OfReader(es[|es| - 1]) then 1 else 0
  }

  /** Every read brings room for at least one byte. */
  predicate Roomy(es: seq<Event>) { forall i :: 0 <= i < |es| && es[i].Read? ==> es[i].room > 0 }

  /** Closed, with nothing of the feeder's under way. */
  predicate Shut(c: Conn) { c.b.done && c.feeder.Idle? }

  /** The steps a read in progress can still take. */
  function StepsLeft(r: Reader): nat {
    match r
    case Resting => 0
    case SawClosed(_) => 1
    case SawNothing(_) => 2
    case Looking(_) => 3
    case Parked(_) => 4
  }

  /** A read that found nothing on a closed stream will find nothing when it looks again. */
  predicate SawTheEnd(c: Conn) {
    c.reader.SawNothing? || c.reader.SawClosed? ==> c.b.chunks == [] && !c.b.failure
  }

  lemma ShutStep(c: Conn, e: Event)
    requires Invariant(c) && Shut(c) && SawTheEnd(c) && !c.reader.Parked? && Enabled(c, e)
    requires e.Read? ==> e.room > 0
    ensures var d := Apply(c, e);
            && Shut(d) && SawTheEnd(d) && !d.reader.Parked?
            && d.accepted == c.accepted && d.b.failure == c.b.failure && (c.eof ==> d.eof)
            && StepsLeft(d.reader) + (if OfReader(e) then 1 else 0)
               <= StepsLeft(c.reader) + (if e.Read? then 4 else 0)
  {
  }

  function InProgress(c: Conn): nat { if c.reader.Resting? then 0 else 1 }

  /** On a closed stream that has not failed every read takes something from what is held, or
      reports the end. */
  lemma ShutProgress(c: Conn, e: Event)
    requires Invariant(c) && Shut(c) && SawTheEnd(c) && !c.reader.Parked? && !c.b.failure && Enabled(c, e)
    requires e.Read? ==> e.room > 0
    ensures var d := Apply(c, e);
            d.eof || Load(d.b) + (if e.Read? then 1 else 0) <= Load(c.b) + InProgress(d) - InProgress(c)
  {
  }

  lemma {:induction false} ShutRun(c: Conn, es: seq<Event>, d: Conn)
    requires Invariant(c) && Shut(c) && c.reader.Resting? && Exec(c, es) == Some(d) && Roomy(es)
    ensures Invariant(d) && Shut(d) && SawTheEnd(d) && !d.reader.Parked?
    ensures d.accepted == c.accepted && d.b.failure == c.b.failure
    ensures Steps(es) + StepsLeft(d.reader) <= 4 * Reads(es)
    ensures c.b.failure || d.eof || Reads(es) + Load(d.b) <= Load(c.b) + InProgress(d)
  {
    if es != [] {
      var last := |es| - 1;
      var before := Exec(c, es[..last]).value;
      assert forall i :: 0 <= i < last ==> es[..last][i] == es[i];
      ShutRun(c, es[..last], before);
      assert es[last].Read? ==> es[last].room > 0;
      InvariantStep(before, es[last]);
      ShutStep(before, es[last]);
      if !c.b.failure { ShutProgress(before, es[last]); }
    }
  }

  /** A closed stream is read to its end: whatever else is offered, closed or interrupted meanwhile, a
      read on it takes at most four steps, and a reader that keeps reading with room has reported
      the end, with everything accepted delivered, after one read more than the bytes and frames
      the stream held when it was closed, unless it had failed. */
  lemma ClosedStreamIsReadToItsEnd(c: Conn, es: seq<Event>, d: Conn)
    requires Reachable(c) && Shut(c) && c.reader.Resting? && Exec(c, es) == Some(d) && Roomy(es)
    ensures Steps(es) <= 4 * Reads(es)
    ensures !c.b.failure && d.reader.Resting? && Reads(es) > Load(c.b) ==> d.eof && d.delivered == c.accepted
    ensures c.b.failure ==> !d.eof
  {
    ReachableIsInvariant(c);
    ShutRun(c, es, d);
  }

  // ---------- chunking on the way out, and the round trip ----------

  /** The frames the send loop cuts a write into. */
  function Frames(data: Bytes): seq<Bytes>
    decreases |data|
  {
    if data == [] then []
    else [data[..Min(|data|, CHUNK_SIZE)]] + Frames(data[Min(|data|, CHUNK_SIZE)..])
  }

  lemma {:induction false} FramesAreTheData(data: Bytes)
    ensures Concat(Frames(data)) == data
    decreases |data|
  {
    if data != [] {
      var n := Min(|data|, CHUNK_SIZE);
      FramesAreTheData(data[n..]);
      assert Frames(data)[1..] == Frames(data[n..]);
      assert data[..n] + data[n..] == data;
    }
  }

  /** No frame is empty or longer than 32 KiB, and only the last may be shorter. */
  lemma {:induction false} FramesAreFull(data: Bytes)
    ensures forall i :: 0 <= i < |Frames(data)| ==> 1 <= |Frames(data)[i]| <= CHUNK_SIZE
    ensures forall i :: 0 <= i < |Frames(data)| - 1 ==> |Frames(data)[i]| == CHUNK_SIZE
    decreases |data|
  {
    if data != [] {
      var n := Min(|data|, CHUNK_SIZE);
      FramesAreFull(data[n..]);
      assert Frames(data)[1..] == Frames(data[n..]);
      assert n < CHUNK_SIZE ==> data[n..] == [];
    }
  }

  /** The send loop of startRaw; `writable` is how many frames the tunnel takes before a
      write fails. */
  method SendFrames(data: Bytes, writable: nat) returns (sent: seq<Bytes>, ok: bool)
    ensures sent == Frames(data)[..Min(writable, |Frames(data)|)]
    ensures ok <==> |Frames(data)| <= writable
  {
    sent := [];
    var rest := data;
    while |rest| > 0
      invariant sent + Frames(rest) == Frames(data)
      invariant |sent| <= writable
      decreases |rest|
    {
      var n := |rest|;
      if n > CHUNK_SIZE {
        n := CHUNK_SIZE;
      }
      if |sent| == writable {
        return sent, false;
      }
      sent := sent + [rest[..n]];
      rest := rest[n..];
    }
    return sent, true;
  }

  /** Bytes cut by the send loop, fed to a connection in any interleaving with any reads of
      any sizes, come back unchanged: the reader only ever holds a prefix of `data`, the stream
      fails only on more than 8 MiB, and once the reader has seen the end it holds exactly
      `data`, if no frame came after the close. */
  lemma ChunkedRoundTrip(c: Conn, data: Bytes)
    requires Reachable(c) && c.offered == Concat(Frames(data))
    ensures c.delivered <= data
    ensures c.b.failure ==> |data| > MAX_STREAM_BUFFER
    ensures c.eof && !c.dropped ==> c.delivered == data
  {
    DeliveryIsExact(c);
    EndIsAll(c);
    FramesAreTheData(data);
  }

  lemma EndIsAll(c: Conn)
    requires Reachable(c)
    ensures c.b.failure ==> |c.offered| > MAX_STREAM_BUFFER
    ensures c.eof && !c.dropped ==> c.delivered == c.offered
  {
    ReachableIsInvariant(c);
  }
}
