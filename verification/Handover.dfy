/** The update handover: old and new session processes, the bus name only one of them can
    own, and the client that asks the old one to leave. */
module Handover {
  import opened Counting
  import opened FlatpakSession
  import opened SessionMachine
  import opened Wrappers

  /** The client of prepareUpdate. It remembers the owner it saw first; calls go to whoever
      owns the name when they are made. Polling carries whether FinishUpdate reported an error. */
  datatype Client =
    | Unasked
    | Asked(previous: nat)
    | Agreed(previous: nat)
    | Polling(previous: nat, failed: bool)
    | Succeeded(left: Option<nat>)
    | GaveUp

  datatype World = World(sessions: map<nat, Session>, owner: Option<nat>, startable: set<string>, client: Client)

  const START: World := World(map[], None, {}, Unasked)

  datatype WorldEvent =
    | Launch(pid: nat)
    | Acquire(pid: nat)
    | OfSession(pid: nat, e: Event)
    | Save(startable: set<string>)
    | ClientLooks
    | ClientPrepares(sameBuild: bool)
    | ClientFinishes(sameBuild: bool, lost: bool)
    | ClientPolls
    | ClientTimesOut

  /** The owner's bus methods can be called: it exists, runs, and its mutex is free. */
  predicate OwnerAnswers(w: World) {
    match w.owner
    case None => true
    case Some(pid) => pid in w.sessions && Running(w.sessions[pid]) && w.sessions[pid].lock.Free?
  }

  predicate Possible(w: World, e: WorldEvent) {
    match e
    case Launch(pid) => pid !in w.sessions
    case Acquire(pid) => pid in w.sessions && w.sessions[pid].main.Waiting? && w.owner.None?
    case OfSession(pid, v) => pid in w.sessions && Enabled(w.sessions[pid], v, w.startable)
    case Save(_) => true
    case ClientLooks => w.client.Unasked?
    case ClientPrepares(_) => w.client.Asked? && OwnerAnswers(w)
    case ClientFinishes(_, _) => w.client.Agreed? && OwnerAnswers(w)
    case ClientPolls => w.client.Polling?
    case ClientTimesOut => w.client.Asked? || w.client.Agreed? || w.client.Polling?
  }

  function SetSession(w: World, pid: nat, s: Session): World { w.(sessions := w.sessions[pid := s]) }

  function OnOwner(w: World, b: BusEvent): World
    requires OwnerAnswers(w)
  {
    if w.owner.None? then w else SetSession(w, w.owner.value, BusStep(w.sessions[w.owner.value], b))
  }

  function Next(w: World, e: WorldEvent): World
    requires Possible(w, e)
  {
    match e
    case Launch(pid) => SetSession(w, pid, FRESH)
    case Acquire(pid) => SetSession(w, pid, w.sessions[pid].(main := Exported)).(owner := Some(pid))
    case OfSession(pid, v) =>
      var after := SetSession(w, pid, Apply(w.sessions[pid], v, w.startable));
      if v == OfMain(Release) && w.owner == Some(pid) then after.(owner := None) else after
    case Save(startable) => w.(startable := startable)
    case ClientLooks => w.(client := if w.owner.None? then Succeeded(None) else Asked(w.owner.value))
    case ClientPrepares(sameBuild) =>
      var accepted := w.owner.Some? && Prepared(w.sessions[w.owner.value].core, sameBuild).1;
      OnOwner(w, Prepare(sameBuild)).(client :=
        if w.owner.None? then Succeeded(Some(w.client.previous))
        else if accepted then Agreed(w.client.previous) else GaveUp)
    case ClientFinishes(sameBuild, lost) =>
      var accepted := w.owner.Some? && FinishRequested(w.sessions[w.owner.value].core, sameBuild).1;
      OnOwner(w, Finish(sameBuild)).(client := Polling(w.client.previous, lost || !accepted))
    case ClientPolls =>
      w.(client := if w.owner != Some(w.client.previous) then Succeeded(Some(w.client.previous))
                   else if w.client.failed then GaveUp else w.client)
    case ClientTimesOut => w.(client := GaveUp)
  }

  /** A session leaves its main loop other than after agreeing to close: by a signal, by
      going idle, or by failing before the loop. */
  predicate Disorderly(w: World, e: WorldEvent)
    requires Possible(w, e)
  {
    && e.OfSession? && e.e.OfMain? && !w.sessions[e.pid].core.closing
    && match e.e.m
       case SeeSignal => true
       case Fail => true
       case Tick => Swept(w.sessions[e.pid].core, DoneWorkers(w.sessions[e.pid])).1
       case _ => false
  }

  /** The step is no disorderly exit of one of these sessions. */
  predicate Permitted(w: World, e: WorldEvent, orderly: set<nat>)
    requires Possible(w, e)
  {
    e.OfSession? && e.pid in orderly ==> !Disorderly(w, e)
  }

  /** Runs of the world in which the `orderly` sessions leave only after agreeing to close, as
      every exit through FinishUpdate does. All other sessions may leave in any way. */
  function Play(w: World, es: seq<WorldEvent>, orderly: set<nat>): Option<World> {
    if es == [] then Some(w)
    else
      var last := |es| - 1;
      match Play(w, es[..last], orderly)
      case None => None
      case Some(v) =>
        if Possible(v, es[last]) && Permitted(v, es[last], orderly) then Some(Next(v, es[last])) else None
  }

  // ---------- one session on its way out ----------

  predicate Left(m: Main) { m.Leaving? || m.Closing? || m.Closed? || m.Released? || m.Gone? }

  predicate Over(m: Main) { m.Closed? || m.Released? || m.Gone? }

  predicate Owns(m: Main) { m.Exported? || m.Looping? || m.Leaving? || m.Closing? || m.Closed? }

  predicate NoWorker(s: Session) { forall i :: 0 <= i < |s.workers| ==> s.workers[i].pc.Finished? }

  /** It left after agreeing to close, and once close has run, every worker is finished. */
  predicate LeavesOrderly(s: Session) {
    (Left(s.main) ==> s.core.closing) && (Over(s.main) ==> NoWorker(s))
  }

  lemma OrderlyCall(s: Session, id: nat, c: CallEvent, startable: set<string>)
    requires Invariant(s) && LeavesOrderly(s) && CallEnabled(s, id, c, startable)
    ensures LeavesOrderly(CallStep(s, id, c, startable))
  {
  }

  lemma OrderlyMain(s: Session, m: MainEvent)
    requires Invariant(s) && LeavesOrderly(s) && MainEnabled(s, m)
    requires m.SeeSignal? || m.Fail? || (m.Tick? && Swept(s.core, DoneWorkers(s)).1) ==> s.core.closing
    ensures LeavesOrderly(MainStep(s, m))
  {
  }

  lemma OrderlyStep(s: Session, e: Event, startable: set<string>)
    requires Invariant(s) && LeavesOrderly(s) && Enabled(s, e, startable)
    requires e.OfMain? && (e.m.SeeSignal? || e.m.Fail? || (e.m.Tick? && Swept(s.core, DoneWorkers(s)).1)) ==>
               s.core.closing
    ensures LeavesOrderly(Apply(s, e, startable))
  {
    match e
    case OfCall(id, c) => OrderlyCall(s, id, c, startable);
    case OfWorker(_, _) =>
    case OfBus(_) =>
    case OfMain(m) => OrderlyMain(s, m);
    case ProcessExits(_) =>
  }

  // ---------- the world's invariants ----------

  predicate OwnerAgrees(w: World) {
    forall pid :: pid in w.sessions ==> (w.owner == Some(pid) <==> Owns(w.sessions[pid].main))
  }

  predicate OwnerExists(w: World) { w.owner.Some? ==> w.owner.value in w.sessions }

  /** The session the client first saw was an owner once, and is not waiting any more. */
  predicate ClientAgrees(w: World) {
    match w.client
    case Unasked => true
    case Asked(p) => p in w.sessions && !w.sessions[p].main.Waiting?
    case Agreed(p) => p in w.sessions && !w.sessions[p].main.Waiting?
    case Polling(p, _) => p in w.sessions && !w.sessions[p].main.Waiting?
    case Succeeded(Some(p)) => p in w.sessions && (w.sessions[p].main.Released? || w.sessions[p].main.Gone?)
    case Succeeded(None) => true
    case GaveUp => true
  }

  ghost predicate WorldInvariant(w: World) {
    && OwnerAgrees(w) && OwnerExists(w) && ClientAgrees(w)
    && forall pid :: pid in w.sessions ==> Invariant(w.sessions[pid])
  }

  predicate TheseOrderly(w: World, orderly: set<nat>) {
    forall pid :: pid in w.sessions && pid in orderly ==> LeavesOrderly(w.sessions[pid])
  }

  lemma FreshSession()
    ensures Invariant(FRESH) && LeavesOrderly(FRESH)
  {
    CountZero(FRESH.calls, InPending);
  }

  /** A session's own steps never make it an owner, and only Release ends its ownership. */
  lemma MainMoves(s: Session, e: Event, startable: set<string>)
    requires Enabled(s, e, startable)
    ensures var t := Apply(s, e, startable);
            && (Owns(t.main) <==> Owns(s.main) && e != OfMain(Release))
            && (t.main.Waiting? <==> s.main.Waiting?)
            && (s.main.Released? || s.main.Gone? ==> t.main.Released? || t.main.Gone?)
  {
    match e
    case OfCall(_, _) =>
    case OfWorker(_, _) =>
    case OfBus(_) =>
    case OfMain(_) =>
    case ProcessExits(_) =>
  }

  lemma BusMoves(s: Session, b: BusEvent)
    requires Invariant(s) && Running(s) && s.lock.Free?
    ensures Invariant(BusStep(s, b)) && BusStep(s, b).main == s.main
    ensures LeavesOrderly(s) ==> LeavesOrderly(BusStep(s, b))
  {
    BusKeepsInvariant(s, b);
  }

  /** Moving one session on, with the name going to or from nobody but that session. */
  lemma OneSessionMoves(w: World, v: World, pid: nat, t: Session)
    requires WorldInvariant(w) && Invariant(t)
    requires v.sessions == w.sessions[pid := t] && v.client == w.client
    requires v.owner == Some(pid) <==> Owns(t.main)
    requires v.owner == w.owner || (w.owner in {None, Some(pid)} && v.owner in {None, Some(pid)})
    requires pid in w.sessions ==>
               && (!w.sessions[pid].main.Waiting? ==> !t.main.Waiting?)
               && (w.sessions[pid].main.Released? || w.sessions[pid].main.Gone? ==> t.main.Released? || t.main.Gone?)
    ensures WorldInvariant(v)
  {
  }

  lemma SessionStep(w: World, e: WorldEvent)
    requires WorldInvariant(w) && Possible(w, e) && e.OfSession?
    ensures WorldInvariant(Next(w, e))
  {
    var t := Apply(w.sessions[e.pid], e.e, w.startable);
    MainMoves(w.sessions[e.pid], e.e, w.startable);
    InvariantStep(w.sessions[e.pid], e.e, w.startable);
    OneSessionMoves(w, Next(w, e), e.pid, t);
  }

  lemma BirthStep(w: World, e: WorldEvent)
    requires WorldInvariant(w) && Possible(w, e) && (e.Launch? || e.Acquire?)
    ensures WorldInvariant(Next(w, e))
  {
    FreshSession();
    OneSessionMoves(w, Next(w, e), e.pid, Next(w, e).sessions[e.pid]);
  }

  lemma ClientCallStep(w: World, e: WorldEvent)
    requires WorldInvariant(w) && Possible(w, e) && (e.ClientPrepares? || e.ClientFinishes?)
    ensures WorldInvariant(Next(w, e))
  {
    if w.owner.Some? {
      var pid, b := w.owner.value, if e.ClientPrepares? then Prepare(e.sameBuild) else Finish(e.sameBuild);
      BusMoves(w.sessions[pid], b);
      OneSessionMoves(w, OnOwner(w, b), pid, BusStep(w.sessions[pid], b));
    }
  }

  lemma WorldStep(w: World, e: WorldEvent)
    requires WorldInvariant(w) && Possible(w, e)
    ensures WorldInvariant(Next(w, e))
  {
    match e
    case Launch(_) => BirthStep(w, e);
    case Acquire(_) => BirthStep(w, e);
    case OfSession(_, _) => SessionStep(w, e);
    case ClientPrepares(_) => ClientCallStep(w, e);
    case ClientFinishes(_, _) => ClientCallStep(w, e);
    case _ =>
  }

  lemma OrderlyWorldStep(w: World, e: WorldEvent, orderly: set<nat>)
    requires WorldInvariant(w) && TheseOrderly(w, orderly) && Possible(w, e) && Permitted(w, e, orderly)
    ensures TheseOrderly(Next(w, e), orderly)
  {
    match e
    case Launch(_) => FreshSession();
    case OfSession(pid, v) => if pid in orderly { OrderlyStep(w.sessions[pid], v, w.startable); }
    case ClientPrepares(same) => if w.owner.Some? { BusMoves(w.sessions[w.owner.value], Prepare(same)); }
    case ClientFinishes(same, _) => if w.owner.Some? { BusMoves(w.sessions[w.owner.value], Finish(same)); }
    case _ =>
  }

  lemma {:induction false} PlayKeepsWorld(w: World, es: seq<WorldEvent>, orderly: set<nat>, v: World)
    requires WorldInvariant(w) && TheseOrderly(w, orderly) && Play(w, es, orderly) == Some(v)
    ensures WorldInvariant(v) && TheseOrderly(v, orderly)
  {
    if es != [] {
      var last := |es| - 1;
      var before := Play(w, es[..last], orderly).value;
      PlayKeepsWorld(w, es[..last], orderly, before);
      WorldStep(before, es[last]);
      OrderlyWorldStep(before, es[last], orderly);
    }
  }

  ghost predicate WorldReachable(w: World, orderly: set<nat>) {
    exists es :: Play(START, es, orderly) == Some(w)
  }

  lemma WorldReachableIsInvariant(w: World, orderly: set<nat>)
    requires WorldReachable(w, orderly)
    ensures WorldInvariant(w) && TheseOrderly(w, orderly)
  {
    var es :| Play(START, es, orderly) == Some(w);
    PlayKeepsWorld(START, es, orderly, w);
  }

  // ---------- the handover ----------

  lemma NoWorkerNoProcess(s: Session)
    requires ProcessesAgree(s) && NoWorker(s)
    ensures s.procs == map[]
  {
    assert s.procs.Keys == {};
  }

  /** Update handover exclusion, for one session whatever all others do: if it leaves only after
      agreeing to close, it has unfinished workers only while it owns the bus name. So the name
      is released only after its last worker is done, and whoever owns the name after it, or
      before it, it has no worker and no process then. */
  lemma WorkersBelongToTheOwner(w: World, p: nat)
    requires WorldReachable(w, {p}) && p in w.sessions
    ensures w.owner == Some(p) || (NoWorker(w.sessions[p]) && w.sessions[p].procs == map[])
  {
    WorldReachableIsInvariant(w, {p});
    assert Invariant(w.sessions[p]) && LeavesOrderly(w.sessions[p]);
    if w.owner != Some(p) {
      NoWorkerNoProcess(w.sessions[p]);
    }
  }

  /** The slug a live process serves. */
  function SlugOf(s: Session, p: nat): string
    requires p in s.procs && s.procs[p] < |s.workers|
  {
    s.workers[s.procs[p]].slug
  }

  lemma ProcessMeansStarted(s: Session)
    requires Invariant(s)
    ensures s.main.Waiting? ==> s.procs == map[]
  {
    if s.main.Waiting? {
      assert NoWorker(s);
      NoWorkerNoProcess(s);
    }
  }

  /** Hence no slug is ever served by two live processes of one session that leaves in this way and
      any other, unless that other one had the name before it and left it behind disorderly. */
  lemma NoSlugServedTwice(w: World, p: nat, a: nat, q: nat, b: nat)
    requires WorldReachable(w, {p})
    requires p in w.sessions && a in w.sessions[p].procs && q in w.sessions && b in w.sessions[q].procs
    ensures w.sessions[p].procs[a] < |w.sessions[p].workers| && w.sessions[q].procs[b] < |w.sessions[q].workers|
    ensures p == q && SlugOf(w.sessions[p], a) == SlugOf(w.sessions[q], b) ==> a == b
    ensures p != q ==> w.owner == Some(p) && (w.sessions[q].main.Released? || w.sessions[q].main.Gone?)
    ensures WorldReachable(w, {q}) ==> p == q
  {
    WorldReachableIsInvariant(w, {p});
    assert Invariant(w.sessions[p]) && Invariant(w.sessions[q]);
    WorkersBelongToTheOwner(w, p);
    ProcessMeansStarted(w.sessions[q]);
    if WorldReachable(w, {q}) {
      WorkersBelongToTheOwner(w, q);
    }
  }

  /** The name passes on: once the successor is past waiting, the old session has left it. */
  predicate PassedOn(w: World, p: nat, q: nat) {
    && p in w.sessions && !w.sessions[p].main.Waiting?
    && (q in w.sessions && !w.sessions[q].main.Waiting? ==>
          w.sessions[p].main.Released? || w.sessions[p].main.Gone?)
  }

  /** A session that neither starts nor takes the name back does not disturb that. */
  lemma OneMoveKeepsPassedOn(w: World, v: World, p: nat, q: nat, pid: nat, t: Session)
    requires PassedOn(w, p, q) && pid in w.sessions && v.sessions == w.sessions[pid := t]
    requires t.main.Waiting? <==> w.sessions[pid].main.Waiting?
    requires w.sessions[pid].main.Released? || w.sessions[pid].main.Gone? ==> t.main.Released? || t.main.Gone?
    ensures PassedOn(v, p, q)
  {
  }

  lemma PassedOnStep(w: World, e: WorldEvent, p: nat, q: nat)
    requires WorldInvariant(w) && p != q && PassedOn(w, p, q) && Possible(w, e)
    ensures PassedOn(Next(w, e), p, q)
  {
    match e
    case OfSession(pid, v) =>
      MainMoves(w.sessions[pid], v, w.startable);
      OneMoveKeepsPassedOn(w, Next(w, e), p, q, pid, Apply(w.sessions[pid], v, w.startable));
    case ClientPrepares(same) => CallKeepsPassedOn(w, Prepare(same), p, q);
    case ClientFinishes(same, _) => CallKeepsPassedOn(w, Finish(same), p, q);
    case _ =>
  }

  lemma CallKeepsPassedOn(w: World, b: BusEvent, p: nat, q: nat)
    requires WorldInvariant(w) && PassedOn(w, p, q) && OwnerAnswers(w)
    ensures PassedOn(OnOwner(w, b), p, q)
  {
    if w.owner.Some? {
      BusMoves(w.sessions[w.owner.value], b);
      OneMoveKeepsPassedOn(w, OnOwner(w, b), p, q, w.owner.value, BusStep(w.sessions[w.owner.value], b));
    }
  }

  lemma {:induction false} PassedOnRun(w: World, es: seq<WorldEvent>, orderly: set<nat>, v: World, p: nat, q: nat)
    requires WorldInvariant(w) && p != q && PassedOn(w, p, q) && Play(w, es, orderly) == Some(v)
    ensures WorldInvariant(v) && PassedOn(v, p, q)
  {
    if es != [] {
      var last := |es| - 1;
      var before := Play(w, es[..last], orderly).value;
      PassedOnRun(w, es[..last], orderly, before, p, q);
      WorldStep(before, es[last]);
      PassedOnStep(before, es[last], p, q);
    }
  }

  /** The handover as the update needs it: from any point at which the old session has had the name
      and the new one has not, in any continuation that binds the old one alone, whatever the new
      one does later and however it leaves, at most one of them has live processes. */
  lemma NeverBothServe(w: World, p: nat, q: nat, es: seq<WorldEvent>, v: World)
    requires WorldReachable(w, {p}) && p != q && p in w.sessions && !w.sessions[p].main.Waiting?
    requires q in w.sessions ==> w.sessions[q].main.Waiting?
    requires Play(w, es, {p}) == Some(v) && q in v.sessions
    ensures p in v.sessions && (v.sessions[p].procs == map[] || v.sessions[q].procs == map[])
  {
    WorldReachableIsInvariant(w, {p});
    PassedOnRun(w, es, {p}, v, p, q);
    PlayKeepsWorld(w, es, {p}, v);
    assert Invariant(v.sessions[p]) && Invariant(v.sessions[q]) && LeavesOrderly(v.sessions[p]);
    if v.sessions[q].main.Waiting? {
      ProcessMeansStarted(v.sessions[q]);
    } else {
      NoWorkerNoProcess(v.sessions[p]);
    }
  }

  /** Fewer sessions bound to leave orderly allow more runs. */
  lemma {:induction false} PlayFewer(es: seq<WorldEvent>, fewer: set<nat>, more: set<nat>)
    requires fewer <= more && Play(START, es, more).Some?
    ensures Play(START, es, fewer) == Play(START, es, more)
  {
    if es != [] {
      PlayFewer(es[..|es| - 1], fewer, more);
    }
  }

  lemma FewerReachesMore(w: World, fewer: set<nat>, more: set<nat>)
    requires fewer <= more && WorldReachable(w, more)
    ensures WorldReachable(w, fewer)
  {
    var es :| Play(START, es, more) == Some(w);
    PlayFewer(es, fewer, more);
  }

  /** When prepareUpdate reports success, the session it set out to replace has released the
      name for good, in any run at all. */
  lemma SuccessMeansTheOldSessionIsGone(w: World, p: nat)
    requires WorldReachable(w, {}) && w.client == Succeeded(Some(p))
    ensures p in w.sessions && w.owner != Some(p)
    ensures w.sessions[p].main.Released? || w.sessions[p].main.Gone?
  {
    WorldReachableIsInvariant(w, {});
    assert Invariant(w.sessions[p]);
  }

  /** If that session left after agreeing to close, it has no worker and no process left either,
      however every other session behaved. */
  lemma SuccessMeansNothingIsLeft(w: World, p: nat)
    requires WorldReachable(w, {p}) && w.client == Succeeded(Some(p))
    ensures p in w.sessions && w.owner != Some(p)
    ensures NoWorker(w.sessions[p]) && w.sessions[p].procs == map[]
  {
    FewerReachesMore(w, {}, {p});
    SuccessMeansTheOldSessionIsGone(w, p);
    WorkersBelongToTheOwner(w, p);
  }

  // ---------- when the client succeeds ----------

  /** The first look finds nothing to replace exactly if nobody owns the name. */
  lemma LookFindsTheOwner(w: World)
    requires Possible(w, ClientLooks)
    ensures Next(w, ClientLooks).client == match w.owner case None => Succeeded(None) case Some(p) => Asked(p)
  {
  }

  /** The answer to PrepareUpdate: success if the name has been given up meanwhile, agreement if the
      owner is of another build, has no window open and no counted call under way, and otherwise the
      client gives up and has changed nothing. */
  lemma PrepareDecides(w: World, same: bool)
    requires WorldReachable(w, {}) && Possible(w, ClientPrepares(same))
    ensures w.owner.Some? ==> w.owner.value in w.sessions
    ensures var v, p := Next(w, ClientPrepares(same)), w.client.previous;
            var quiet := w.owner.Some? && !same && !w.sessions[w.owner.value].core.gui
                         && NothingInPending(w.sessions[w.owner.value]);
            && (v.client == Succeeded(Some(p)) <==> w.owner.None?)
            && (v.client == Agreed(p) <==> quiet)
            && (v.client == GaveUp <==> w.owner.Some? && !quiet)
            && (quiet ==> v.sessions[w.owner.value].core.closing)
            && (!quiet ==> v.sessions == w.sessions)
  {
    WorldReachableIsInvariant(w, {});
    if w.owner.Some? {
      assert Invariant(w.sessions[w.owner.value]);
      AgreesIffQuiet(w.sessions[w.owner.value], same);
      assert w.sessions[w.owner.value := w.sessions[w.owner.value]] == w.sessions;
    }
  }

  /** FinishUpdate counts as failed exactly if its reply was lost or no owner accepted it, which one
      does that has agreed to close and is of another build; that one then has to shut down. */
  lemma FinishDecides(w: World, same: bool, lost: bool)
    requires WorldReachable(w, {}) && Possible(w, ClientFinishes(same, lost))
    ensures w.owner.Some? ==> w.owner.value in w.sessions
    ensures var v := Next(w, ClientFinishes(same, lost));
            var accepted := w.owner.Some? && !same && w.sessions[w.owner.value].core.closing;
            && v.client == Polling(w.client.previous, lost || !accepted) && v.owner == w.owner
            && (accepted ==> w.owner.value in v.sessions && v.sessions[w.owner.value].core.shut
                             && v.sessions[w.owner.value].lock.Free?)
  {
    WorldReachableIsInvariant(w, {});
    if w.owner.Some? {
      assert Invariant(w.sessions[w.owner.value]);
      ShutsIffAgreed(w.sessions[w.owner.value], same);
    }
  }

  /** A poll succeeds exactly if the session the client first saw has released the name, whatever
      FinishUpdate reported, and gives up exactly if it has not and FinishUpdate had failed; else the
      client goes on polling. */
  lemma PollDecides(w: World)
    requires WorldReachable(w, {}) && Possible(w, ClientPolls)
    ensures var p, c := w.client.previous, Next(w, ClientPolls).client;
            && p in w.sessions
            && var released := w.sessions[p].main.Released? || w.sessions[p].main.Gone?;
               && (released <==> w.owner != Some(p))
               && (c == Succeeded(Some(p)) <==> released)
               && (c == GaveUp <==> !released && w.client.failed)
               && (c == w.client <==> !released && !w.client.failed)
  {
    WorldReachableIsInvariant(w, {});
    assert Invariant(w.sessions[w.client.previous]);
  }

  predicate HasReleased(w: World, p: nat) {
    p in w.sessions && (w.sessions[p].main.Released? || w.sessions[p].main.Gone?)
  }

  lemma ReleasedStep(w: World, e: WorldEvent, p: nat)
    requires WorldInvariant(w) && HasReleased(w, p) && Possible(w, e)
    ensures HasReleased(Next(w, e), p)
  {
    match e
    case OfSession(pid, v) => MainMoves(w.sessions[pid], v, w.startable);
    case ClientPrepares(same) => if w.owner.Some? { BusMoves(w.sessions[w.owner.value], Prepare(same)); }
    case ClientFinishes(same, _) => if w.owner.Some? { BusMoves(w.sessions[w.owner.value], Finish(same)); }
    case _ =>
  }

  lemma {:induction false} ReleasedRun(w: World, es: seq<WorldEvent>, v: World, p: nat)
    requires WorldInvariant(w) && HasReleased(w, p) && Play(w, es, {}) == Some(v)
    ensures WorldInvariant(v) && HasReleased(v, p)
  {
    if es != [] {
      var last := |es| - 1;
      var before := Play(w, es[..last], {}).value;
      ReleasedRun(w, es[..last], before, p);
      ReleasedStep(before, es[last], p);
      WorldStep(before, es[last]);
    }
  }

  /** Once the old session has released the name, whatever happens afterwards and whether or not the
      reply to FinishUpdate was lost, the next poll of the client succeeds. */
  lemma NextPollSucceeds(w: World, p: nat, es: seq<WorldEvent>, v: World)
    requires WorldReachable(w, {}) && HasReleased(w, p) && Play(w, es, {}) == Some(v)
    requires v.client.Polling? && v.client.previous == p
    ensures Possible(v, ClientPolls) && Next(v, ClientPolls).client == Succeeded(Some(p))
  {
    WorldReachableIsInvariant(w, {});
    ReleasedRun(w, es, v, p);
    assert !Owns(v.sessions[p].main);
  }

  /** A session that has to shut down can do so with its own steps, whatever its agents are doing. */
  lemma ShutdownCanFinish(s: Session) returns (es: seq<Timed>, t: Session)
    requires Invariant(s) && Owns(s.main) && s.core.shut && s.lock.Free?
    ensures Exec(s, es) == Some(t) && KeepsName(es) && t.main.Closed?
  {
    es, t := [], s;
    if !s.main.Closed? {
      es, t := LoopCanEnd(s);
      es, t := ExecOne(s, es, t, OfMain(CloseLock), {});
      RunKeepsInvariant(s, es, t);
      var more, u := CloseCanFinish(t);
      ExecJoin(s, es, t, more, u);
      es, t := es + more, u;
    }
  }

  lemma LoopCanEnd(s: Session) returns (es: seq<Timed>, t: Session)
    requires (s.main.Exported? || s.main.Looping? || s.main.Leaving?) && s.core.shut && s.lock.Free?
    ensures Exec(s, es) == Some(t) && KeepsName(es) && t.main.Leaving? && t.lock.Free?
  {
    es, t := [], s;
    if s.main.Exported? {
      var id := UnusedCall(s.calls.Keys);
      es, t := ExecOne(s, es, t, OfMain(BootBegin(id)), {});
    }
    if !s.main.Leaving? {
      es, t := ExecOne(s, es, t, OfMain(SeeShutdown), {});
    }
  }

  /** The owner is told to shut down, the reply lost or not. */
  lemma AgreedIsTold(w: World, p: nat, lost: bool) returns (es: seq<WorldEvent>, v: World)
    requires WorldReachable(w, {}) && w.client == Agreed(p) && w.owner == Some(p) && OwnerAnswers(w)
    requires w.sessions[p].core.closing
    ensures Play(w, es, {}) == Some(v) && WorldInvariant(v) && v.client == Polling(p, lost) && v.owner == Some(p)
    ensures p in v.sessions && v.sessions[p].core.shut && v.sessions[p].lock.Free?
  {
    WorldReachableIsInvariant(w, {});
    FinishDecides(w, false, lost);
    var e := ClientFinishes(false, lost);
    assert Possible(w, e) && Play(w, [], {}) == Some(w);
    es, v := PlayOne(w, [], w, e);
    WorldStep(w, e);
  }

  lemma ClosedCanRelease(base: World, es: seq<WorldEvent>, w: World, p: nat) returns (longer: seq<WorldEvent>, v: World)
    requires Play(base, es, {}) == Some(w) && w.client.Polling? && w.client.previous == p && w.owner == Some(p)
    requires p in w.sessions && w.sessions[p].main.Closed?
    ensures Play(base, longer, {}) == Some(v) && v.client == Succeeded(Some(p))
    ensures p in v.sessions && v.sessions[p].main.Released? && v.owner == None
  {
    longer, v := PlayOne(base, es, w, OfSession(p, OfMain(Release)));
    longer, v := PlayOne(base, longer, v, ClientPolls);
  }

  /** The update can always go through: from any reachable point at which the client holds the
      agreement of the session it set out to replace, there is a continuation in which that session
      finishes its agents, releases the name and prepareUpdate succeeds, also if the reply to
      FinishUpdate is lost on the way. */
  lemma AgreedHandoverCanSucceed(w: World, p: nat, lost: bool) returns (es: seq<WorldEvent>, v: World)
    requires WorldReachable(w, {}) && w.client == Agreed(p) && w.owner == Some(p) && OwnerAnswers(w)
    requires w.sessions[p].core.closing
    ensures Play(w, es, {}) == Some(v) && v.client == Succeeded(Some(p))
    ensures p in v.sessions && v.sessions[p].main.Released? && v.owner == None
  {
    es, v := AgreedIsTold(w, p, lost);
    assert Invariant(v.sessions[p]);
    var steps, closed := ShutdownCanFinish(v.sessions[p]);
    es, v := Lift(w, es, v, p, steps, closed);
    es, v := ClosedCanRelease(w, es, v, p);
  }

  // ---------- why leaving orderly matters ----------

  /** A call that waits under the mutex can finish, since there is no worker to wait for. */
  lemma FreeTheLock(s: Session) returns (es: seq<Timed>, t: Session)
    requires Invariant(s) && s.main.Closed? && NoWorker(s)
    ensures Exec(s, es) == Some(t) && t.lock.Free? && t.main == s.main && t.core.closing == s.core.closing
    ensures WorkersAgree(t) && NoWorker(t) && KeepsName(es)
  {
    es, t := [], s;
    if s.lock.ByCall? {
      var e := OfCall(s.lock.id, if s.calls[s.lock.id].StopWaiting? then FinishStop else FinishStart(false));
      InvariantStep(s, e, {});
      es, t := ExecOne(s, es, t, e, {});
    }
  }

  /** The newest worker of a session looks after a live process for this slug. */
  predicate NewestServes(s: Session, slug: string) {
    && s.workers != []
    && var last := |s.workers| - 1;
       && s.workers[last].slug == slug && s.workers[last].pc.Live?
       && s.workers[last].pc.p in s.procs && s.procs[s.workers[last].pc.p] == last
  }

  /** A start gets past its checks. */
  lemma PassChecks(s: Session, slug: string) returns (es: seq<Timed>, t: Session, id: nat)
    requires Running(s) && s.lock.Free? && !s.core.closing
    ensures Exec(s, es) == Some(t) && KeepsName(es)
    ensures t.main == s.main && t.lock.Free? && !t.core.closing && InCalls(t, id, StartChecked(slug))
    ensures t.core.agents == s.core.agents && t.workers == s.workers
  {
    es, t := [], s;
    id := UnusedCall(s.calls.Keys);
    es, t := ExecOne(s, es, t, OfCall(id, BeginStart(slug)), {});
    es, t := ExecOne(s, es, t, OfCall(id, PassCheck), {slug});
  }

  /** Any running session that is not closing can be made to serve a slug whose old worker,
      if any, is done. */
  lemma StartNow(s: Session, slug: string) returns (es: seq<Timed>, t: Session)
    requires Running(s) && s.lock.Free? && !s.core.closing && AgentDone(s, slug)
    ensures Exec(s, es) == Some(t) && KeepsName(es) && t.main == s.main && NewestServes(t, slug)
  {
    var id;
    es, t, id := PassChecks(s, slug);
    LockAwaits(t, id, slug);
    es, t := ExecOne(s, es, t, OfCall(id, LockStart), {});
    LaunchServes(t, id, slug);
    es, t := ExecOne(s, es, t, OfCall(id, FinishStart(true)), {});
  }

  lemma LockAwaits(s: Session, id: nat, slug: string)
    requires Running(s) && InCalls(s, id, StartChecked(slug)) && s.lock.Free? && !s.core.closing && AgentDone(s, slug)
    ensures var e := OfCall(id, LockStart);
            && Enabled(s, e, {})
            && var t := Apply(s, e, {});
               InCalls(t, id, StartWaiting(slug)) && t.lock == ByCall(id) && AgentDone(t, slug) && t.main == s.main
  {
  }

  lemma LaunchServes(s: Session, id: nat, slug: string)
    requires Running(s) && InCalls(s, id, StartWaiting(slug)) && s.lock == ByCall(id) && AgentDone(s, slug)
    ensures var e := OfCall(id, FinishStart(true));
            Enabled(s, e, {}) && NewestServes(Apply(s, e, {}), slug) && Apply(s, e, {}).main == s.main
  {
  }

  /** A session without calls enters its main loop. */
  lemma Boots(s: Session) returns (es: seq<Timed>, t: Session)
    requires s.main.Exported? && s.lock.Free? && s.calls == map[]
    ensures Exec(s, es) == Some(t) && KeepsName(es)
    ensures t.main.Looping? && t.lock.Free? && t.core.closing == s.core.closing && t.core.agents == s.core.agents
  {
    es, t := ExecOne(s, [], s, OfMain(BootBegin(0)), {});
  }

  /** A signal ends the main loop of a session without agents. */
  lemma LeaveBySignal(s: Session) returns (es: seq<Timed>, t: Session)
    requires s.main.Exported? && s.lock.Free? && s.core.agents == map[] && s.calls == map[]
    ensures Exec(s, es) == Some(t) && KeepsName(es)
    ensures t.main.Leaving? && t.lock.Free? && t.core.closing == s.core.closing && t.core.agents == map[]
  {
    es, t := Boots(s);
    es, t := ExecOne(s, es, t, OfMain(SeeSignal), {});
  }

  /** It closes at once, and has agreed to nothing. */
  lemma CloseBySignal(s: Session) returns (es: seq<Timed>, t: Session)
    requires s.main.Exported? && s.lock.Free? && s.core.agents == map[] && s.calls == map[]
    ensures Exec(s, es) == Some(t) && KeepsName(es)
    ensures t.main.Closed? && t.lock.Free? && t.core.closing == s.core.closing && t.core.agents == map[]
  {
    es, t := LeaveBySignal(s);
    es, t := ExecOne(s, es, t, OfMain(CloseLock), {});
    es, t := ExecOne(s, es, t, OfMain(CloseDone), {});
  }

  /** A session that has closed without agreeing to can still be made to start a worker. */
  lemma LateStart(s: Session, slug: string) returns (es: seq<Timed>, t: Session)
    requires Invariant(s) && s.main.Closed? && NoWorker(s) && !s.core.closing
    ensures Exec(s, es) == Some(t) && KeepsName(es) && t.main == s.main && NewestServes(t, slug)
  {
    var first, m := FreeTheLock(s);
    var second, u := StartNow(m, slug);
    ExecJoin(s, first, m, second, u);
    es, t := first + second, u;
  }

  lemma {:induction false} ClosedStaysEmpty(s: Session, es: seq<Timed>, t: Session)
    requires Invariant(s) && s.main.Closed? && NoWorker(s) && s.core.closing && Exec(s, es) == Some(t)
    ensures Invariant(t) && LeavesOrderly(t) && Over(t.main) && t.core.closing && NoWorker(t)
  {
    if es != [] {
      var last := |es| - 1;
      var before := Exec(s, es[..last]).value;
      ClosedStaysEmpty(s, es[..last], before);
      var e, startable := es[last].e, es[last].startable;
      InvariantStep(before, e, startable);
      ClosingStep(before, e, startable);
      OrderlyStep(before, e, startable);
      StaysOver(before, e, startable);
    }
  }

  lemma StaysOver(s: Session, e: Event, startable: set<string>)
    requires Enabled(s, e, startable) && Over(s.main)
    ensures Over(Apply(s, e, startable).main)
  {
    match e
    case OfCall(_, _) =>
    case OfWorker(_, _) =>
    case OfBus(_) =>
    case OfMain(_) =>
    case ProcessExits(_) =>
  }

  lemma ServesWithWorker(s: Session, slug: string)
    requires NewestServes(s, slug)
    ensures !NoWorker(s)
  {
  }

  /** The exact condition: once close has run and found every worker done, the session can
      come to have a worker again if and only if it had not agreed to close. */
  lemma LateStartIffNotClosing(s: Session)
    requires Invariant(s) && s.main.Closed? && NoWorker(s)
    ensures (exists es, t :: Exec(s, es) == Some(t) && !NoWorker(t)) <==> !s.core.closing
  {
    if s.core.closing {
      forall es, t | Exec(s, es) == Some(t) ensures NoWorker(t) {
        ClosedStaysEmpty(s, es, t);
      }
    } else {
      var es, t := LateStart(s, "");
      ServesWithWorker(t, "");
    }
  }

  lemma PlayOne(base: World, es: seq<WorldEvent>, w: World, e: WorldEvent)
    returns (longer: seq<WorldEvent>, v: World)
    requires Play(base, es, {}) == Some(w) && Possible(w, e)
    ensures Play(base, longer, {}) == Some(v) && v == Next(w, e)
  {
    longer, v := es + [e], Next(w, e);
    assert longer[..|longer| - 1] == es;
  }

  /** A run of one session is a run of the world, the saved settings changing as needed. */
  lemma {:induction false} Lift(base: World, ws: seq<WorldEvent>, w: World, pid: nat, es: seq<Timed>, t: Session)
    returns (longer: seq<WorldEvent>, v: World)
    requires Play(base, ws, {}) == Some(w) && pid in w.sessions
    requires Exec(w.sessions[pid], es) == Some(t) && KeepsName(es)
    ensures Play(base, longer, {}) == Some(v)
    ensures v.sessions == w.sessions[pid := t] && v.owner == w.owner && v.client == w.client
  {
    if es == [] {
      longer, v := ws, w;
      assert w.sessions == w.sessions[pid := t];
    } else {
      var last := |es| - 1;
      var before := Exec(w.sessions[pid], es[..last]).value;
      longer, v := Lift(base, ws, w, pid, es[..last], before);
      longer, v := PlayOne(base, longer, v, Save(es[last].startable));
      longer, v := PlayOne(base, longer, v, OfSession(pid, es[last].e));
    }
  }

  function Newest(s: Session, slug: string): (p: nat)
    requires NewestServes(s, slug)
    ensures p in s.procs && s.procs[p] < |s.workers| && SlugOf(s, p) == slug
  {
    s.workers[|s.workers| - 1].pc.p
  }

  /** The process is live and serves this slug. */
  predicate ServesSlug(s: Session, slug: string, p: nat) {
    p in s.procs && s.procs[p] < |s.workers| && SlugOf(s, p) == slug
  }

  ghost predicate ServedTwice(w: World, p: nat, q: nat, slug: string) {
    && p != q && p in w.sessions && q in w.sessions
    && (exists a :: ServesSlug(w.sessions[p], slug, a)) && (exists b :: ServesSlug(w.sessions[q], slug, b))
  }

  /** A Start reaches a closed session nevertheless, and only then does it release the name. */
  lemma ServesAfterClose(w: World, p: nat, slug: string) returns (es: seq<WorldEvent>, v: World)
    requires WorldInvariant(w) && p in w.sessions && w.sessions[p].main.Closed?
    requires NoWorker(w.sessions[p]) && !w.sessions[p].core.closing
    ensures Play(w, es, {}) == Some(v)
    ensures v.sessions.Keys == w.sessions.Keys && v.owner == None && NewestServes(v.sessions[p], slug)
  {
    assert Invariant(w.sessions[p]) && w.owner == Some(p);
    var late, old_ := LateStart(w.sessions[p], slug);
    es, v := Lift(w, [], w, p, late, old_);
    ReleaseGivesUpName(v, p, slug);
    es, v := PlayOne(w, es, v, OfSession(p, OfMain(Release)));
  }

  lemma ReleaseGivesUpName(w: World, p: nat, slug: string)
    requires p in w.sessions && w.sessions[p].main.Closed? && w.owner == Some(p) && NewestServes(w.sessions[p], slug)
    ensures var e := OfSession(p, OfMain(Release));
            Possible(w, e) && Next(w, e) == World(w.sessions[p := Next(w, e).sessions[p]], None, w.startable, w.client)
            && NewestServes(Next(w, e).sessions[p], slug)
  {
  }

  /** A new session gets the name meanwhile. */
  lemma NextOwner(w: World, p: nat, slug: string) returns (es: seq<WorldEvent>, v: World, q: nat)
    requires WorldInvariant(w) && p in w.sessions && w.sessions[p].main.Closed?
    requires NoWorker(w.sessions[p]) && !w.sessions[p].core.closing
    ensures Play(w, es, {}) == Some(v)
    ensures p in v.sessions && q in v.sessions && p != q
    ensures NewestServes(v.sessions[p], slug) && v.sessions[q] == FRESH.(main := Exported)
  {
    es, v := ServesAfterClose(w, p, slug);
    q := UnusedCall(v.sessions.Keys);
    es, v := PlayOne(w, es, v, Launch(q));
    es, v := PlayOne(w, es, v, Acquire(q));
  }

  /** A session that closed without agreeing to, and its successor, both come to serve a slug. */
  lemma ClosedServesTwice(w: World, p: nat, slug: string) returns (es: seq<WorldEvent>, v: World, q: nat)
    requires WorldInvariant(w) && p in w.sessions && w.sessions[p].main.Closed?
    requires NoWorker(w.sessions[p]) && !w.sessions[p].core.closing
    ensures Play(w, es, {}) == Some(v) && ServedTwice(v, p, q, slug)
  {
    var u;
    es, u, q := NextOwner(w, p, slug);
    var next, new_ := StartNow(u.sessions[q], slug);
    es, v := Lift(w, es, u, q, next, new_);
    assert v.sessions[p] == u.sessions[p] && v.sessions[q] == new_;
    var a, b := Newest(v.sessions[p], slug), Newest(v.sessions[q], slug);
    assert ServesSlug(v.sessions[p], slug, a) && ServesSlug(v.sessions[q], slug, b);
  }

  /** It has agreed to close and is past its close. */
  predicate ClosedForGood(w: World, p: nat) {
    p in w.sessions && w.sessions[p].core.closing && Over(w.sessions[p].main)
  }

  lemma ClosedForGoodStep(w: World, e: WorldEvent, p: nat)
    requires WorldInvariant(w) && ClosedForGood(w, p) && Possible(w, e)
    ensures ClosedForGood(Next(w, e), p)
  {
    match e
    case OfSession(pid, v) =>
      if pid == p {
        assert Invariant(w.sessions[p]);
        OwnStepKeepsClosed(w.sessions[p], v, w.startable);
      }
    case ClientPrepares(same) => if w.owner == Some(p) { BusKeepsClosing(w.sessions[p], Prepare(same)); }
    case ClientFinishes(same, _) => if w.owner == Some(p) { BusKeepsClosing(w.sessions[p], Finish(same)); }
    case _ =>
  }

  lemma OwnStepKeepsClosed(s: Session, e: Event, startable: set<string>)
    requires Invariant(s) && s.core.closing && Over(s.main) && Enabled(s, e, startable)
    ensures Apply(s, e, startable).core.closing && Over(Apply(s, e, startable).main)
  {
    ClosingStep(s, e, startable);
    StaysOver(s, e, startable);
  }

  lemma BusKeepsClosing(s: Session, b: BusEvent)
    requires s.core.closing
    ensures BusStep(s, b).core.closing && BusStep(s, b).main == s.main
  {
  }

  lemma {:induction false} ClosedStaysIdle(w: World, es: seq<WorldEvent>, v: World, p: nat)
    requires WorldInvariant(w) && ClosedForGood(w, p) && TheseOrderly(w, {p}) && Play(w, es, {}) == Some(v)
    ensures WorldInvariant(v) && ClosedForGood(v, p) && TheseOrderly(v, {p})
  {
    if es != [] {
      var last := |es| - 1;
      var before := Play(w, es[..last], {}).value;
      ClosedStaysIdle(w, es[..last], before, p);
      ClosedForGoodStep(before, es[last], p);
      WorldStep(before, es[last]);
      OrderlyWorldStep(before, es[last], {p});
    }
  }

  /** The exact condition for the handover: in any reachable world, a session that has closed
      with every worker done, and still has the name, can come to serve a slug together with
      another session if and only if it had not agreed to close. */
  lemma ServedTwiceIffNotClosing(w: World, p: nat, slug: string)
    requires WorldReachable(w, {}) && p in w.sessions && w.sessions[p].main.Closed? && NoWorker(w.sessions[p])
    ensures (exists es, v, q :: Play(w, es, {}) == Some(v) && ServedTwice(v, p, q, slug))
            <==> !w.sessions[p].core.closing
  {
    WorldReachableIsInvariant(w, {});
    if w.sessions[p].core.closing {
      forall es, v, q | Play(w, es, {}) == Some(v) ensures !ServedTwice(v, p, q, slug) {
        ClosedStaysIdle(w, es, v, p);
        assert Invariant(v.sessions[p]) && LeavesOrderly(v.sessions[p]);
        NoWorkerNoProcess(v.sessions[p]);
      }
    } else {
      var es, v, q := ClosedServesTwice(w, p, slug);
    }
  }

  /** The old session stops on a signal before it has agreed to anything, has closed, and
      still has the name. */
  lemma ClosedBySignal() returns (es: seq<WorldEvent>, w: World)
    ensures Play(START, es, {}) == Some(w)
    ensures w.sessions.Keys == {0} && w.owner == Some(0)
    ensures w.sessions[0].main.Closed? && !w.sessions[0].core.closing && w.sessions[0].core.agents == map[]
  {
    es, w := [], START;
    es, w := PlayOne(START, es, w, Launch(0));
    es, w := PlayOne(START, es, w, Acquire(0));
    var close, closed := CloseBySignal(w.sessions[0]);
    es, w := Lift(START, es, w, 0, close, closed);
  }

  lemma NoAgentNoWorker(s: Session)
    requires Invariant(s) && s.core.agents == map[]
    ensures NoWorker(s)
  {
  }

  lemma {:induction false} PlayJoin(base: World, first: seq<WorldEvent>, m: World, second: seq<WorldEvent>, v: World)
    requires Play(base, first, {}) == Some(m) && Play(m, second, {}) == Some(v)
    ensures Play(base, first + second, {}) == Some(v)
  {
    if second == [] {
      assert first + second == first;
    } else {
      var last := |second| - 1;
      PlayJoin(base, first, m, second[..last], Play(m, second[..last], {}).value);
      assert (first + second)[..|first + second| - 1] == first + second[..last];
    }
  }

  /** Without the hypothesis the exclusion fails: a Start that reaches a session stopped by a
      signal after its close, and the next session, both have a live process of the same slug. */
  lemma SignalExitServesTwice(slug: string) returns (es: seq<WorldEvent>, w: World, q: nat)
    ensures Play(START, es, {}) == Some(w) && ServedTwice(w, 0, q, slug)
  {
    var first, m := ClosedBySignal();
    assert WorldReachable(m, {});
    WorldReachableIsInvariant(m, {});
    NoAgentNoWorker(m.sessions[0]);
    var second;
    second, w, q := ClosedServesTwice(m, 0, slug);
    PlayJoin(START, first, m, second, w);
    es := first + second;
  }
}
