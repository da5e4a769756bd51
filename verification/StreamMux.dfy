/** The tunnel session: one frame loop that demultiplexes DATA, END and CANCEL frames onto
    per-client connections, each served and finally removed by a goroutine of its own. */
module StreamMux {
  import opened ByteStrings
  import opened FrameConn
  import opened Wrappers

  /** A whole feed, as the frame loop runs it for one DATA frame. */
  function Fed(b: Buffer, data: Bytes): Buffer {
    var (judged, verdict) := Judged(b, data);
    match verdict
    case Drop => judged
    case Overflow => judged.(done := true)
    case Accept => Appended(judged, data).(token := true)
  }

  /** The session object and the connections its map points to. */
  class Session {
    var raw: map<string, FrameConnection>

    /** Two ids never share a connection. */
    ghost predicate Valid()
      reads this
    {
      forall i, j :: i in raw && j in raw && i != j ==> raw[i] != raw[j]
    }

    constructor ()
      ensures Valid() && raw == map[]
    {
      raw := map[];
    }

    /** startRaw: nothing for a foreign host or an id in use, else a fresh connection. */
    method StartRaw(id: string, ours: bool) returns (conn: Option<FrameConnection>)
      requires Valid()
      modifies this
      ensures Valid()
      ensures conn.Some? <==> ours && id !in old(raw)
      ensures conn.Some? ==> fresh(conn.value) && conn.value.View() == EMPTY && raw == old(raw)[id := conn.value]
      ensures conn.None? ==> raw == old(raw)
    {
      if !ours || id in raw {
        return None;
      }
      var created := new FrameConnection();
      raw := raw[id := created];
      return Some(created);
    }

    /** writeRaw: the frame reaches the connection of its own id and no other object. */
    method WriteRaw(id: string, data: Bytes) returns (known: bool)
      requires Valid()
      modifies if id in raw then {raw[id]} else {}
      ensures known <==> id in raw
      ensures known ==> raw[id].View() == Fed(old(raw[id].View()), data)
      ensures forall j :: j in raw && j != id ==> raw[j].View() == old(raw[j].View())
    {
      if id !in raw {
        return false;
      }
      var conn := raw[id];
      var verdict := conn.FeedCheck(data);
      match verdict {
        case Drop =>
        case Overflow => conn.CloseIncoming();
        case Accept =>
          conn.FeedAppend(data);
          conn.Notify();
      }
      return true;
    }

    /** endRaw: END and CANCEL close the connection; its entry stays for the cleanup. */
    method EndRaw(id: string) returns (known: bool)
      requires Valid()
      modifies if id in raw then {raw[id]} else {}
      ensures known <==> id in raw
      ensures known ==> raw[id].View() == old(raw[id].View()).(done := true)
      ensures forall j :: j in raw && j != id ==> raw[j].View() == old(raw[j].View())
    {
      if id !in raw {
        return false;
      }
      raw[id].CloseIncoming();
      return true;
    }

    /** The deferred cleanup of serveRaw. */
    method Cleanup(id: string, conn: FrameConnection)
      requires Valid()
      modifies this, conn
      ensures Valid()
      ensures conn.View() == old(conn.View()).(done := true)
      ensures raw == old(raw) - {id}
    {
      conn.CloseIncoming();
      raw := raw - {id};
    }

    /** cancelAll: every registered connection is closed and forgotten. */
    method CancelAll()
      requires Valid()
      modifies this, raw.Values`done
      ensures Valid() && raw == map[]
      ensures forall i :: i in old(raw) ==> old(raw)[i].View() == old(raw[i].View()).(done := true)
    {
      ghost var all := raw;
      while |raw| > 0
        invariant forall i :: i in raw ==> i in all && raw[i] == all[i]
        invariant forall i :: i in all && i !in raw ==> all[i].done
        decreases |raw|
      {
        var id :| id in raw;
        raw[id].CloseIncoming();
        raw := raw - {id};
      }
    }
  }

  // ---------- any frames, any readers, any cleanups, in any order ----------

  /** Where the goroutine serving a connection is. */
  datatype Server = Serving | Closing | Ended

  /** A connection that was opened at some point, with the position in the log right after its
      REQUEST_HEAD, the bytes its feed accepted and the bytes its reader was handed. */
  datatype Stream = Stream(id: string, born: nat, b: Buffer, server: Server, accepted: Bytes, delivered: Bytes)

  /** Frames from the relay; steps of the connections' own goroutines; the end of the session. */
  datatype Event =
    | Head(id: string, ours: bool)
    | Data(id: string, data: Bytes)
    | EndOrCancel(id: string)
    | Ping
    | Reads(c: nat, room: nat)
    | Closes(c: nat)
    | CleanupCloses(c: nat)
    | CleanupDeletes(c: nat)
    | SessionEnds

  /** Connections are numbered in the order they were opened; `log` is the past. */
  datatype Mux = Mux(raw: map<string, nat>, streams: seq<Stream>, ended: bool, log: seq<Event>)

  const START: Mux := Mux(map[], [], false, [])

  predicate FromRelay(e: Event) { e.Head? || e.Data? || e.EndOrCancel? || e.Ping? || e.SessionEnds? }

  predicate Enabled(m: Mux, e: Event) {
    if FromRelay(e) then !m.ended
    else
      && e.c < |m.streams|
      && if e.CleanupDeletes? then m.streams[e.c].server.Closing? else m.streams[e.c].server.Serving?
  }

  function Closed(s: Stream): Stream { s.(b := s.b.(done := true)) }

  /** The stream after a DATA frame was fed to it. */
  function Received(s: Stream, data: Bytes): Stream {
    s.(b := Fed(s.b, data), accepted := if Judged(s.b, data).1.Accept? then s.accepted + data else s.accepted)
  }

  /** The stream after its reader took what fits into its buffer, if there was anything. */
  function ReadBy(s: Stream, room: nat): Stream {
    var looked := if s.b.current != [] then s.b else Seen(s.b).0;
    var (b, p) := Copied(looked, room);
    s.(b := b, delivered := s.delivered + p)
  }

  function Replace(m: Mux, c: nat, s: Stream): Mux
    requires c < |m.streams|
  {
    m.(streams := m.streams[c := s])
  }

  function CloseRegistered(m: Mux): seq<Stream> {
    seq(|m.streams|, c requires 0 <= c < |m.streams| =>
      if m.streams[c].id in m.raw && m.raw[m.streams[c].id] == c then Closed(m.streams[c]) else m.streams[c])
  }

  /** The step itself, before it is written to the log. */
  function Effect(m: Mux, e: Event): Mux
    requires Enabled(m, e) && RawPointsBack(m)
  {
    match e
    case Head(id, ours) =>
      if !ours || id in m.raw then m
      else m.(raw := m.raw[id := |m.streams|],
              streams := m.streams + [Stream(id, |m.log| + 1, EMPTY, Serving, [], [])])
    case Data(id, data) => if id in m.raw then Replace(m, m.raw[id], Received(m.streams[m.raw[id]], data)) else m
    case EndOrCancel(id) => if id in m.raw then Replace(m, m.raw[id], Closed(m.streams[m.raw[id]])) else m
    case Ping => m
    case Reads(c, room) => Replace(m, c, ReadBy(m.streams[c], room))
    case Closes(c) => Replace(m, c, Closed(m.streams[c]))
    case CleanupCloses(c) => Replace(m, c, Closed(m.streams[c]).(server := Closing))
    case CleanupDeletes(c) =>
      Replace(m, c, m.streams[c].(server := Ended)).(raw := m.raw - {m.streams[c].id})
    case SessionEnds => Mux(map[], CloseRegistered(m), true, m.log)
  }

  function Apply(m: Mux, e: Event): Mux
    requires Enabled(m, e) && RawPointsBack(m)
  {
    Effect(m, e).(log := m.log + [e])
  }

  /** Every entry points at a connection opened under that id. */
  predicate RawPointsBack(m: Mux) {
    forall id :: id in m.raw ==> m.raw[id] < |m.streams| && m.streams[m.raw[id]].id == id
  }

  function Exec(m: Mux, es: seq<Event>): Option<Mux> {
    if es == [] then Some(m)
    else
      var last := |es| - 1;
      match Exec(m, es[..last])
      case None => None
      case Some(n) => if RawPointsBack(n) && Enabled(n, es[last]) then Some(Apply(n, es[last])) else None
  }

  // ---------- what each stream should have received ----------

  predicate Shuts(e: Event, id: string, c: nat) {
    e == EndOrCancel(id) || e == Closes(c) || e == CleanupCloses(c) || e.SessionEnds?
  }

  /** Nothing after the connection was opened has closed it. */
  predicate StillOpen(log: seq<Event>, born: nat, id: string, c: nat) {
    forall i :: born <= i < |log| ==> !Shuts(log[i], id, c)
  }

  /** The DATA frames of one id between a connection's REQUEST_HEAD and the first END, CANCEL
      or close, concatenated. */
  function Meant(log: seq<Event>, born: nat, id: string, c: nat): Bytes {
    if |log| <= born then []
    else
      var last := |log| - 1;
      var before := Meant(log[..last], born, id, c);
      if log[last].Data? && log[last].id == id && StillOpen(log[..last], born, id, c)
      then before + log[last].data else before
  }

  predicate IsRegistered(m: Mux, c: nat)
    requires c < |m.streams|
  {
    m.streams[c].id in m.raw && m.raw[m.streams[c].id] == c
  }

  /** What an event does to one connection, told from that connection alone: frames reach it
      by its own id and only while it is registered; everything else is its own doing. */
  function StreamAfter(m: Mux, e: Event, c: nat): Stream
    requires c < |m.streams|
  {
    var s := m.streams[c];
    match e
    case Head(_, _) => s
    case Data(id, data) => if id == s.id && IsRegistered(m, c) then Received(s, data) else s
    case EndOrCancel(id) => if id == s.id && IsRegistered(m, c) then Closed(s) else s
    case Ping => s
    case Reads(d, room) => if d == c then ReadBy(s, room) else s
    case Closes(d) => if d == c then Closed(s) else s
    case CleanupCloses(d) => if d == c then Closed(s).(server := Closing) else s
    case CleanupDeletes(d) => if d == c then s.(server := Ended) else s
    case SessionEnds => if IsRegistered(m, c) then Closed(s) else s
  }

  /** Demultiplexing is independent per connection: an event changes every connection exactly
      as that connection's own view of it says, so a frame of one id, an overflow included,
      leaves all other connections as they were, and a frame of an unknown id leaves all. */
  lemma EffectIsPerStream(m: Mux, e: Event, c: nat)
    requires RawPointsBack(m) && Enabled(m, e) && c < |m.streams|
    ensures c < |Apply(m, e).streams| && Apply(m, e).streams[c] == StreamAfter(m, e, c)
    ensures (e.Data? || e.EndOrCancel?) && e.id !in m.raw ==> Apply(m, e) == m.(log := m.log + [e])
  {
  }

  /** A connection is registered until its own cleanup removes it or the session ends. */
  predicate Registered(m: Mux) {
    && RawPointsBack(m)
    && (!m.ended ==> forall c :: 0 <= c < |m.streams| && !m.streams[c].server.Ended? ==> IsRegistered(m, c))
    && (forall id :: id in m.raw ==> !m.streams[m.raw[id]].server.Ended?)
    && (m.ended ==> m.raw == map[])
  }

  predicate StreamSound(log: seq<Event>, ended: bool, s: Stream, c: nat) {
    && s.born <= |log|
    && (!s.server.Serving? || ended ==> s.b.done)
    && (s.b.done <==> s.b.failure || !StillOpen(log, s.born, s.id, c))
    && (if s.b.failure then s.accepted <= Meant(log, s.born, s.id, c)
        else s.accepted == Meant(log, s.born, s.id, c))
  }

  predicate Invariant(m: Mux) {
    Registered(m) && forall c :: 0 <= c < |m.streams| ==> StreamSound(m.log, m.ended, m.streams[c], c)
  }

  lemma RegisteredStep(m: Mux, e: Event)
    requires Registered(m) && Enabled(m, e) && !e.CleanupDeletes? && !e.Head?
    ensures Registered(Apply(m, e))
  {
    forall c: nat | c < |m.streams| ensures Apply(m, e).streams[c] == StreamAfter(m, e, c) {
      EffectIsPerStream(m, e, c);
    }
  }

  lemma RegisteredOpenOrRemove(m: Mux, e: Event)
    requires Registered(m) && Enabled(m, e) && (e.CleanupDeletes? || e.Head?)
    ensures Registered(Apply(m, e))
  {
  }

  lemma LogStep(log: seq<Event>, e: Event, born: nat, id: string, c: nat)
    requires born <= |log|
    ensures StillOpen(log + [e], born, id, c) <==> StillOpen(log, born, id, c) && !Shuts(e, id, c)
    ensures Meant(log + [e], born, id, c)
         == if e.Data? && e.id == id && StillOpen(log, born, id, c)
            then Meant(log, born, id, c) + e.data else Meant(log, born, id, c)
  {
    var longer := log + [e];
    assert longer[..|log|] == log;
    if StillOpen(longer, born, id, c) {
      forall i | born <= i < |log| ensures !Shuts(log[i], id, c) {
        assert longer[i] == log[i];
      }
      assert !Shuts(longer[|log|], id, c);
    }
  }

  lemma OldStreamStep(m: Mux, e: Event, c: nat)
    requires Invariant(m) && Enabled(m, e) && c < |m.streams|
    ensures StreamSound(m.log + [e], m.ended || e.SessionEnds?, StreamAfter(m, e, c), c)
  {
    var s := m.streams[c];
    assert StreamSound(m.log, m.ended, s, c);
    LogStep(m.log, e, s.born, s.id, c);
  }

  lemma InvariantStep(m: Mux, e: Event)
    requires Invariant(m) && Enabled(m, e)
    ensures Invariant(Apply(m, e))
  {
    var n := Apply(m, e);
    if e.CleanupDeletes? || e.Head? { RegisteredOpenOrRemove(m, e); } else { RegisteredStep(m, e); }
    forall c | 0 <= c < |n.streams| ensures StreamSound(n.log, n.ended, n.streams[c], c) {
      if c < |m.streams| {
        OldStreamStep(m, e, c);
        EffectIsPerStream(m, e, c);
      }
    }
  }

  lemma {:induction false} RunKeepsInvariant(m: Mux, es: seq<Event>, n: Mux)
    requires Invariant(m) && Exec(m, es) == Some(n)
    ensures Invariant(n)
  {
    if es != [] {
      var last := |es| - 1;
      var before := Exec(m, es[..last]).value;
      RunKeepsInvariant(m, es[..last], before);
      InvariantStep(before, es[last]);
    }
  }

  ghost predicate Reachable(m: Mux) {
    exists es :: Exec(START, es) == Some(m)
  }

  lemma ReachableIsInvariant(m: Mux)
    requires Reachable(m)
    ensures Invariant(m)
  {
    var es :| Exec(START, es) == Some(m);
    RunKeepsInvariant(START, es, m);
  }

  // ---------- what holds in every run ----------

  /** For every frame sequence and every behaviour of the readers and cleanups: a connection
      was fed exactly the DATA frames of its own id between its REQUEST_HEAD and its first
      END, CANCEL or close, or a prefix of them once it overflowed. */
  lemma StreamGetsItsFrames(m: Mux, c: nat)
    requires Reachable(m) && c < |m.streams|
    ensures var s := m.streams[c];
            var meant := Meant(m.log, s.born, s.id, c);
            s.accepted <= meant && (!s.b.failure ==> s.accepted == meant)
    ensures var s := m.streams[c];
            s.b.done <==> s.b.failure || !StillOpen(m.log, s.born, s.id, c)
  {
    ReachableIsInvariant(m);
    assert StreamSound(m.log, m.ended, m.streams[c], c);
  }

  /** A map entry stays, pointing at the same connection, until that connection's own cleanup
      deletes it or the session ends; in particular END, CANCEL, an overflow, or a second
      REQUEST_HEAD for the id do not touch it. */
  lemma EntryLeavesByOwnCleanup(m: Mux, e: Event, id: string)
    requires Reachable(m) && Enabled(m, e) && id in m.raw
    ensures RawPointsBack(m)
    ensures (id in Apply(m, e).raw && Apply(m, e).raw[id] == m.raw[id])
         <==> !(e == CleanupDeletes(m.raw[id]) || e.SessionEnds?)
  {
    ReachableIsInvariant(m);
    if e.CleanupDeletes? {
      assert IsRegistered(m, e.c);
    }
  }

  // ---------- what the readers hold ----------

  /** Bytes leave a connection in the order they were accepted, and those in its buffer are counted. */
  predicate InOrder(s: Stream) {
    && s.b.buffered == |Concat(s.b.chunks)|
    && if s.b.failure then s.b.chunks == [] && s.delivered + s.b.current <= s.accepted
    else s.delivered + s.b.current + Concat(s.b.chunks) == s.accepted
  }

  lemma ReceivedKeepsOrder(s: Stream, data: Bytes)
    requires InOrder(s)
    ensures InOrder(Received(s, data))
  {
    ConcatLast(s.b.chunks, data);
    var ahead, held := s.delivered + s.b.current, Concat(s.b.chunks);
    assert ahead + (held + data) == ahead + held + data;
  }

  lemma LookKeepsOrder(s: Stream)
    requires InOrder(s) && s.b.current == []
    ensures InOrder(s.(b := Seen(s.b).0))
  {
    if !s.b.failure && s.b.chunks != [] {
      var chunk, rest := s.b.chunks[0], Concat(s.b.chunks[1..]);
      assert s.delivered + [] + (chunk + rest) == s.delivered + chunk + rest;
    }
  }

  lemma CopyKeepsOrder(s: Stream, room: nat)
    requires InOrder(s)
    ensures var (b, p) := Copied(s.b, room); InOrder(s.(b := b, delivered := s.delivered + p))
  {
    var (b, p) := Copied(s.b, room);
    assert s.delivered + p + b.current == s.delivered + s.b.current;
  }

  lemma ReadKeepsOrder(s: Stream, room: nat)
    requires InOrder(s)
    ensures InOrder(ReadBy(s, room))
  {
    if s.b.current != [] {
      CopyKeepsOrder(s, room);
    } else {
      LookKeepsOrder(s);
      CopyKeepsOrder(s.(b := Seen(s.b).0), room);
    }
  }

  predicate AllInOrder(m: Mux) { forall c :: 0 <= c < |m.streams| ==> InOrder(m.streams[c]) }

  lemma OrderStep(m: Mux, e: Event)
    requires AllInOrder(m) && RawPointsBack(m) && Enabled(m, e)
    ensures AllInOrder(Apply(m, e))
  {
    var n := Apply(m, e);
    forall c | 0 <= c < |n.streams| ensures InOrder(n.streams[c]) {
      if c < |m.streams| {
        EffectIsPerStream(m, e, c);
        if e.Data? { ReceivedKeepsOrder(m.streams[c], e.data); }
        if e.Reads? { ReadKeepsOrder(m.streams[c], e.room); }
      }
    }
  }

  lemma {:induction false} RunKeepsOrder(m: Mux, es: seq<Event>, n: Mux)
    requires AllInOrder(m) && Exec(m, es) == Some(n)
    ensures AllInOrder(n)
  {
    if es != [] {
      var last := |es| - 1;
      var before := Exec(m, es[..last]).value;
      RunKeepsOrder(m, es[..last], before);
      OrderStep(before, es[last]);
    }
  }

  lemma ReachableIsOrdered(m: Mux)
    requires Reachable(m)
    ensures AllInOrder(m)
  {
    var es :| Exec(START, es) == Some(m);
    RunKeepsOrder(START, es, m);
  }

  /** End to end, for every frame sequence and every behaviour of the readers and cleanups: what
      the reader of a connection was handed is a prefix of the DATA frames of its own id between
      its REQUEST_HEAD and the first END, CANCEL or close, and before an overflow everything
      missing from it is still in the connection. */
  lemma ReadersGetTheirOwnFrames(m: Mux, c: nat)
    requires Reachable(m) && c < |m.streams|
    ensures var s := m.streams[c];
            var meant := Meant(m.log, s.born, s.id, c);
            s.delivered <= meant && (!s.b.failure ==> s.delivered + s.b.current + Concat(s.b.chunks) == meant)
  {
    StreamGetsItsFrames(m, c);
    ReachableIsOrdered(m);
    HandedIsAccepted(m.streams[c]);
  }

  lemma HandedIsAccepted(s: Stream)
    requires InOrder(s)
    ensures s.delivered <= s.accepted
  {
    if s.b.failure {
      PrefixOfSum(s.delivered, s.b.current, s.accepted);
    } else {
      PrefixOfSum(s.delivered, s.b.current + Concat(s.b.chunks), s.accepted);
      assert s.delivered + (s.b.current + Concat(s.b.chunks)) == s.accepted;
    }
  }

  // ---------- what each event achieves ----------

  /** A REQUEST_HEAD opens a connection exactly if it is for this host and its id is not in use: a
      new one, registered under that id, empty and open. Otherwise it changes nothing. */
  lemma HeadOpensIffFree(m: Mux, id: string, ours: bool)
    requires Reachable(m) && Enabled(m, Head(id, ours))
    ensures RawPointsBack(m)
    ensures var n, c := Apply(m, Head(id, ours)), |m.streams|;
            if ours && id !in m.raw then
              && n.raw == m.raw[id := c] && |n.streams| == c + 1 && n.streams[..c] == m.streams
              && n.streams[c].id == id && n.streams[c].server.Serving? && n.streams[c].b == EMPTY
              && n.streams[c].accepted == n.streams[c].delivered == [] && n.streams[c].born == |n.log|
            else n.raw == m.raw && n.streams == m.streams
  {
    ReachableIsInvariant(m);
  }

  /** The bytes of a connection that wait in its buffer. */
  function Waiting(s: Stream): int { |s.accepted| - |s.delivered| - |s.b.current| }

  /** A DATA frame reaches the connection its id is registered for: an open one takes it if its bytes
      fit beside those that wait, and leaves a token for the reader; if they do not fit it fails
      and is closed; a closed one ignores it. */
  lemma DataIsTakenIffItFits(m: Mux, id: string, data: Bytes)
    requires Reachable(m) && Enabled(m, Data(id, data)) && id in m.raw
    ensures RawPointsBack(m)
    ensures var s, t := m.streams[m.raw[id]], Apply(m, Data(id, data)).streams[m.raw[id]];
            var fits := Waiting(s) + |data| <= MAX_STREAM_BUFFER;
            && t.delivered == s.delivered && t.b.current == s.b.current
            && (s.b.done ==> t == s)
            && (!s.b.done ==>
                  && t.accepted == (if fits then s.accepted + data else s.accepted)
                  && (t.b.failure <==> !fits) && (t.b.done <==> !fits)
                  && (fits ==> t.b.token))
  {
    ReachableIsInvariant(m);
    ReachableIsOrdered(m);
    var s := m.streams[m.raw[id]];
    assert InOrder(s) && StreamSound(m.log, m.ended, s, m.raw[id]);
  }

  /** What the next read has to hand out, when it has something. */
  function NextPiece(b: Buffer): Bytes {
    if b.current != [] then b.current else if !b.failure && b.chunks != [] then b.chunks[0] else []
  }

  /** How many reads may still hand something out: one for each byte and one for each frame held. */
  function Load(b: Buffer): nat { |b.current| + |Concat(b.chunks)| + |b.chunks| }

  /** A read fills its room or leaves nothing of the piece it found. */
  lemma ReadHandsOut(s: Stream, room: nat)
    requires InOrder(s)
    ensures var t := ReadBy(s, room);
            && t.accepted == s.accepted && t.b.done == s.b.done && t.b.failure == s.b.failure
            && |t.delivered| - |s.delivered| == Min(room, |NextPiece(s.b)|)
            && t.b.current == NextPiece(s.b)[Min(room, |NextPiece(s.b)|)..]
            && (room > 0 && Load(s.b) > 0 ==> Load(t.b) < Load(s.b))
  {
  }

  function ReadsOf(es: seq<Event>, c: nat): nat {
    if es == [] then 0 else ReadsOf(es[..|es| - 1], c) + if es[|es| - 1].Reads? && es[|es| - 1].c == c then 1 else 0
  }

  predicate Roomy(es: seq<Event>) { forall i :: 0 <= i < |es| && es[i].Reads? ==> es[i].room > 0 }

  lemma ClosedStep(m: Mux, c: nat, e: Event)
    requires Invariant(m) && c < |m.streams| && InOrder(m.streams[c]) && m.streams[c].b.done && Enabled(m, e)
    requires e.Reads? ==> e.room > 0
    ensures c < |Apply(m, e).streams|
    ensures var s, t := m.streams[c], Apply(m, e).streams[c];
            && t.b.done && t.accepted == s.accepted && t.b.failure == s.b.failure
            && (Load(t.b) == 0 || Load(t.b) + (if e.Reads? && e.c == c then 1 else 0) <= Load(s.b))
  {
    EffectIsPerStream(m, e, c);
    if e.Reads? { ReadHandsOut(m.streams[c], e.room); }
  }

  lemma {:induction false} ClosedRun(m: Mux, c: nat, es: seq<Event>, n: Mux)
    requires Invariant(m) && AllInOrder(m) && c < |m.streams| && m.streams[c].b.done
    requires Exec(m, es) == Some(n) && Roomy(es)
    ensures Invariant(n) && AllInOrder(n) && c < |n.streams|
    ensures n.streams[c].b.done && n.streams[c].accepted == m.streams[c].accepted
    ensures n.streams[c].b.failure == m.streams[c].b.failure
    ensures Load(n.streams[c].b) == 0 || ReadsOf(es, c) + Load(n.streams[c].b) <= Load(m.streams[c].b)
  {
    if es != [] {
      var last := |es| - 1;
      var before := Exec(m, es[..last]).value;
      assert forall i :: 0 <= i < last ==> es[..last][i] == es[i];
      ClosedRun(m, c, es[..last], before);
      InvariantStep(before, es[last]);
      OrderStep(before, es[last]);
      ClosedStep(before, c, es[last]);
    }
  }

  /** No connection keeps bytes back: once it is closed, and had not failed, a reader that reads with
      room as often as there are bytes and frames held has all the frames that were meant for it,
      whatever the relay, the other connections and the cleanups do meanwhile. */
  lemma ClosedConnectionIsReadToItsEnd(m: Mux, c: nat, es: seq<Event>, n: Mux)
    requires Reachable(m) && c < |m.streams| && m.streams[c].b.done && !m.streams[c].b.failure
    requires Exec(m, es) == Some(n) && Roomy(es) && ReadsOf(es, c) >= Load(m.streams[c].b)
    ensures c < |n.streams|
    ensures var s := m.streams[c]; n.streams[c].delivered == s.accepted == Meant(m.log, s.born, s.id, c)
  {
    StreamGetsItsFrames(m, c);
    ReachableIsInvariant(m);
    ReachableIsOrdered(m);
    ClosedRun(m, c, es, n);
    assert InOrder(n.streams[c]);
  }
}
