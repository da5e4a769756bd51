/** Every interleaving of one session: the calls, the workers and their processes, the boot
    goroutine and the main loop up to the release of the bus name. */
module SessionMachine {
  import opened Counting
  import opened FlatpakSession
  import opened Wrappers

  /** A worker goroutine. Live and Terminating have a process; Asleep waits before a restart
      and Checked has just found the endpoint startable. */
  datatype WorkerPc = Live(p: nat) | Terminating(p: nat) | Asleep | Checked | Finished

  datatype WorkerState = WorkerState(slug: string, cancelled: bool, pc: WorkerPc)

  /** A D-Bus call, or the boot goroutine. Start and Stop wait for the old worker while they
      hold the mutex; Returning has yet to lower `pending`. */
  datatype Call =
    | StartBody(slug: string)
    | StartChecked(slug: string)
    | StartWaiting(slug: string)
    | StartupBody
    | Boot
    | StopWaiting(slug: string)
    | Returning
    | Returned

  datatype Lock = Free | ByCall(id: nat) | ByClose

  /** The main goroutine, from asking for the bus name to the end of the process. */
  datatype Main = Waiting | Exported | Looping | Leaving | Closing | Closed | Released | Gone

  /** `procs` maps the live agent processes to their workers. `closes` counts how often the
      shutdown channel was closed and `windows` how many window processes were started. */
  datatype Session = Session(core: Core<nat>, workers: seq<WorkerState>, procs: map<nat, nat>, nextProc: nat,
                             lock: Lock, calls: map<nat, Call>, main: Main, closes: nat, windows: nat)

  const FRESH: Session := Session(NewCore(), [], map[], 0, Free, map[], Waiting, 0, 0)

  datatype CallEvent =
    | BeginStart(slug: string) | PassCheck | FailCheck | LockStart | FinishStart(launches: bool)
    | BeginStartup | EndStartup
    | BeginStop(slug: string) | FinishStop
    | Return

  datatype WorkerEvent = SeeCancel | Notice | Recheck(ok: bool) | Restart(launches: bool)

  datatype BusEvent =
    | Retire(slug: string)
    | Open(launches: bool) | WindowExits
    | Prepare(sameBuild: bool) | Finish(sameBuild: bool)

  datatype MainEvent =
    | BootBegin(id: nat) | BootEnd(id: nat) | Tick | SeeShutdown | SeeSignal | Fail
    | CloseLock | CloseDone | Release | Exit

  datatype Event =
    | OfCall(id: nat, c: CallEvent)
    | OfWorker(w: nat, e: WorkerEvent)
    | OfBus(b: BusEvent)
    | OfMain(m: MainEvent)
    | ProcessExits(p: nat)

  predicate Running(s: Session) { !s.main.Waiting? && !s.main.Gone? }

  predicate IsDone(s: Session, w: nat) { w < |s.workers| && s.workers[w].pc.Finished? }

  predicate AgentDone(s: Session, slug: string) { slug in s.core.agents ==> IsDone(s, s.core.agents[slug]) }

  predicate AllAgentsDone(s: Session) { forall slug :: slug in s.core.agents ==> IsDone(s, s.core.agents[slug]) }

  function DoneWorkers(s: Session): set<nat> { set w: nat | w < |s.workers| && s.workers[w].pc.Finished? }

  predicate InCalls(s: Session, id: nat, c: Call) { id in s.calls && s.calls[id] == c }

  predicate CallEnabled(s: Session, id: nat, c: CallEvent, startable: set<string>) {
    if c.BeginStart? || c.BeginStartup? || c.BeginStop? then id !in s.calls && s.lock.Free?
    else
      && id in s.calls
      && var pc := s.calls[id];
         match c
         case BeginStart(_) => false
         case BeginStartup => false
         case BeginStop(_) => false
         case PassCheck => pc.StartBody? && pc.slug in startable
         case FailCheck => pc.StartBody?
         case LockStart => pc.StartChecked? && s.lock.Free?
         case FinishStart(_) => pc.StartWaiting? && s.lock == ByCall(id) && AgentDone(s, pc.slug)
         case EndStartup => pc.StartupBody?
         case FinishStop => pc.StopWaiting? && s.lock == ByCall(id) && AgentDone(s, pc.slug)
         case Return => pc.Returning? && s.lock.Free?
  }

  predicate WorkerEnabled(s: Session, w: nat, e: WorkerEvent, startable: set<string>) {
    && w < |s.workers|
    && var pc := s.workers[w].pc;
       match e
       case SeeCancel => s.workers[w].cancelled && (pc.Live? || pc.Asleep?)
       case Notice => (pc.Live? || pc.Terminating?) && pc.p !in s.procs
       case Recheck(ok) => pc.Asleep? && (ok <==> s.workers[w].slug in startable)
       case Restart(_) => pc.Checked?
  }

  predicate MainEnabled(s: Session, m: MainEvent) {
    match m
    case BootBegin(id) => s.main.Exported? && id !in s.calls && s.lock.Free?
    case BootEnd(id) => InCalls(s, id, Boot) && s.lock.Free?
    case Tick => s.main.Looping? && s.lock.Free?
    case SeeShutdown => s.main.Looping? && s.core.shut
    case SeeSignal => s.main.Looping?
    case Fail => s.main.Exported?
    case CloseLock => s.main.Leaving? && s.lock.Free?
    case CloseDone => s.main.Closing? && AllAgentsDone(s)
    case Release => s.main.Closed?
    case Exit => s.main.Released?
  }

  /** Processes may outlive the session; everything else happens while it runs. */
  predicate Enabled(s: Session, e: Event, startable: set<string>) {
    match e
    case OfCall(id, c) => Running(s) && CallEnabled(s, id, c, startable)
    case OfWorker(w, v) => Running(s) && WorkerEnabled(s, w, v, startable)
    case OfBus(_) => Running(s) && s.lock.Free?
    case OfMain(m) => Running(s) && MainEnabled(s, m)
    case ProcessExits(p) => p in s.procs
  }

  function SetCall(s: Session, id: nat, c: Call): Session { s.(calls := s.calls[id := c]) }

  function SetPc(s: Session, w: nat, pc: WorkerPc): Session
    requires w < |s.workers|
  {
    s.(workers := s.workers[w := s.workers[w].(pc := pc)])
  }

  function CancelOne(s: Session, slug: string): Session {
    if slug in s.core.agents && s.core.agents[slug] < |s.workers|
    then s.(workers := s.workers[s.core.agents[slug] := s.workers[s.core.agents[slug]].(cancelled := true)])
    else s
  }

  function CancelListed(s: Session): seq<WorkerState> {
    seq(|s.workers|, w requires 0 <= w < |s.workers| =>
      if s.workers[w].slug in s.core.agents && s.core.agents[s.workers[w].slug] == w
      then s.workers[w].(cancelled := true) else s.workers[w])
  }

  function Unlisted(s: Session, slug: string): Session { s.(core := Dropped(s.core, slug)) }

  function Launched(s: Session, slug: string): Session {
    s.(core := Listed(s.core, slug, |s.workers|),
       workers := s.workers + [WorkerState(slug, false, Live(s.nextProc))],
       procs := s.procs[s.nextProc := |s.workers|],
       nextProc := s.nextProc + 1)
  }

  function CallStep(s: Session, id: nat, c: CallEvent, startable: set<string>): Session
    requires CallEnabled(s, id, c, startable)
  {
    match c
    case BeginStart(slug) =>
      var (core, ok) := Begun(s.core);
      SetCall(s.(core := core), id, if ok then StartBody(slug) else Returned)
    case PassCheck => SetCall(s, id, StartChecked(s.calls[id].slug))
    case FailCheck => SetCall(s, id, Returning)
    case LockStart =>
      if s.core.closing then SetCall(s, id, Returning)
      else SetCall(CancelOne(s, s.calls[id].slug), id, StartWaiting(s.calls[id].slug)).(lock := ByCall(id))
    case FinishStart(launches) =>
      var t := Unlisted(s, s.calls[id].slug);
      SetCall(if launches then Launched(t, s.calls[id].slug) else t, id, Returning).(lock := Free)
    case BeginStartup =>
      var (core, ok) := Begun(s.core);
      SetCall(s.(core := core), id, if ok then StartupBody else Returned)
    case EndStartup => SetCall(s, id, Returning)
    case BeginStop(slug) =>
      if slug in s.core.agents then SetCall(CancelOne(s, slug), id, StopWaiting(slug)).(lock := ByCall(id))
      else SetCall(s, id, Returned)
    case FinishStop => SetCall(Unlisted(s, s.calls[id].slug), id, Returned).(lock := Free)
    case Return => SetCall(s.(core := Ended(s.core)), id, Returned)
  }

  function WorkerStep(s: Session, w: nat, e: WorkerEvent, startable: set<string>): Session
    requires WorkerEnabled(s, w, e, startable)
  {
    var pc := s.workers[w].pc;
    match e
    case SeeCancel => SetPc(s, w, if pc.Live? then Terminating(pc.p) else Finished)
    case Notice => SetPc(s, w, if pc.Live? then Asleep else Finished)
    case Recheck(ok) => SetPc(s, w, if ok then Checked else Finished)
    case Restart(launches) =>
      if launches then SetPc(s, w, Live(s.nextProc)).(procs := s.procs[s.nextProc := w], nextProc := s.nextProc + 1)
      else SetPc(s, w, Finished)
  }

  function BusStep(s: Session, b: BusEvent): Session {
    match b
    case Retire(slug) => CancelOne(s, slug)
    case Open(launches) =>
      var core := Opened(s.core, launches);
      s.(core := core, windows := if core.gui && !s.core.gui then s.windows + 1 else s.windows)
    case WindowExits => s.(core := WindowGone(s.core))
    case Prepare(sameBuild) => s.(core := Prepared(s.core, sameBuild).0)
    case Finish(sameBuild) =>
      var core := FinishRequested(s.core, sameBuild).0;
      s.(core := core, closes := if core.shut && !s.core.shut then s.closes + 1 else s.closes)
  }

  function MainStep(s: Session, m: MainEvent): Session
    requires MainEnabled(s, m)
  {
    match m
    case BootBegin(id) => SetCall(s.(core := s.core.(pending := s.core.pending + 1), main := Looping), id, Boot)
    case BootEnd(id) => SetCall(s.(core := Ended(s.core)), id, Returned)
    case Tick =>
      var (core, idle) := Swept(s.core, DoneWorkers(s));
      s.(core := core, main := if idle then Leaving else Looping)
    case SeeShutdown => s.(main := Leaving)
    case SeeSignal => s.(main := Leaving)
    case Fail => s.(main := Leaving)
    case CloseLock => s.(workers := CancelListed(s), lock := ByClose, main := Closing)
    case CloseDone => s.(lock := Free, main := Closed)
    case Release => s.(main := Released)
    case Exit => s.(main := Gone)
  }

  function Apply(s: Session, e: Event, startable: set<string>): Session
    requires Enabled(s, e, startable)
  {
    match e
    case OfCall(id, c) => CallStep(s, id, c, startable)
    case OfWorker(w, v) => WorkerStep(s, w, v, startable)
    case OfBus(b) => BusStep(s, b)
    case OfMain(m) => MainStep(s, m)
    case ProcessExits(p) => s.(procs := s.procs - {p})
  }

  // ---------- invariants of one session, whatever the interleaving ----------

  /** Calls that wait for a worker with the mutex held. */
  predicate IsWaiting(c: Call) { c.StartWaiting? || c.StopWaiting? }

  /** Calls that are counted in `pending`. */
  predicate InPending(c: Call) { !c.StopWaiting? && !c.Returned? }

  /** Calls inside the body of Start or Startup. */
  predicate InBody(c: Call) { InPending(c) && !c.Boot? }

  /** Every worker that is not finished is the listed one of its slug. */
  predicate AgentsAgree(s: Session) {
    && (forall slug :: slug in s.core.agents ==>
          s.core.agents[slug] < |s.workers| && s.workers[s.core.agents[slug]].slug == slug)
    && (forall w :: 0 <= w < |s.workers| && !s.workers[w].pc.Finished? ==>
          s.workers[w].slug in s.core.agents && s.core.agents[s.workers[w].slug] == w)
  }

  predicate HasProcess(s: WorkerState, p: nat) { s.pc == Live(p) || s.pc == Terminating(p) }

  /** Every live process is the one its worker is looking after. */
  predicate ProcessesAgree(s: Session) {
    && (forall p :: p in s.procs ==> p < s.nextProc && s.procs[p] < |s.workers| && HasProcess(s.workers[s.procs[p]], p))
    && (forall w :: 0 <= w < |s.workers| && (s.workers[w].pc.Live? || s.workers[w].pc.Terminating?) ==>
          s.workers[w].pc.p < s.nextProc)
  }

  predicate WorkersAgree(s: Session) { AgentsAgree(s) && ProcessesAgree(s) }

  predicate LockAgrees(s: Session) {
    && (forall id :: id in s.calls && IsWaiting(s.calls[id]) ==> s.lock == ByCall(id))
    && (s.lock.ByCall? ==> s.lock.id in s.calls && IsWaiting(s.calls[s.lock.id]))
    && (s.lock.ByClose? <==> s.main.Closing?)
  }

  ghost predicate PendingAgrees(s: Session) { s.core.pending == Count(s.calls, InPending) }

  /** Once closing, no Start or Startup body is in progress and no window is open. */
  predicate Quiescent(s: Session) {
    s.core.closing ==> !s.core.gui && forall id :: id in s.calls ==> !InBody(s.calls[id])
  }

  predicate ShutdownAgrees(s: Session) {
    s.closes == (if s.core.shut then 1 else 0) && (s.core.shut ==> s.core.closing)
  }

  predicate UntouchedWhileWaiting(s: Session) {
    s.main.Waiting? ==> s.workers == [] && !s.core.closing && s.calls == map[]
  }

  ghost predicate Invariant(s: Session) {
    && WorkersAgree(s) && LockAgrees(s) && PendingAgrees(s)
    && Quiescent(s) && ShutdownAgrees(s) && UntouchedWhileWaiting(s)
  }

  lemma NothingPending(s: Session)
    requires PendingAgrees(s) && s.core.pending == 0
    ensures forall id :: id in s.calls ==> !InPending(s.calls[id])
  {
    forall id | id in s.calls ensures !InPending(s.calls[id]) {
      if InPending(s.calls[id]) { CountPositive(s.calls, id, InPending); }
    }
  }

  lemma CancelKeepsWorkers(s: Session, slug: string)
    requires WorkersAgree(s)
    ensures WorkersAgree(CancelOne(s, slug))
  {
  }

  lemma UnlistKeepsWorkers(s: Session, slug: string)
    requires WorkersAgree(s) && AgentDone(s, slug)
    ensures WorkersAgree(Unlisted(s, slug))
  {
  }

  lemma LaunchKeepsWorkers(s: Session, slug: string)
    requires WorkersAgree(s) && slug !in s.core.agents
    ensures WorkersAgree(Launched(s, slug))
  {
  }

  lemma CallKeepsWorkers(s: Session, id: nat, c: CallEvent, startable: set<string>)
    requires WorkersAgree(s) && CallEnabled(s, id, c, startable)
    ensures WorkersAgree(CallStep(s, id, c, startable))
  {
    match c
    case LockStart => CancelKeepsWorkers(s, s.calls[id].slug);
    case BeginStop(slug) => CancelKeepsWorkers(s, slug);
    case FinishStop => UnlistKeepsWorkers(s, s.calls[id].slug);
    case FinishStart(launches) =>
      UnlistKeepsWorkers(s, s.calls[id].slug);
      LaunchKeepsWorkers(Unlisted(s, s.calls[id].slug), s.calls[id].slug);
    case _ =>
  }

  lemma CallKeepsLock(s: Session, id: nat, c: CallEvent, startable: set<string>)
    requires LockAgrees(s) && CallEnabled(s, id, c, startable)
    ensures LockAgrees(CallStep(s, id, c, startable))
  {
  }

  lemma CallKeepsInvariant(s: Session, id: nat, c: CallEvent, startable: set<string>)
    requires Invariant(s) && Running(s) && CallEnabled(s, id, c, startable)
    ensures Invariant(CallStep(s, id, c, startable))
  {
    CallKeepsWorkers(s, id, c, startable);
    CallKeepsLock(s, id, c, startable);
    CountUpdate(s.calls, id, CallStep(s, id, c, startable).calls[id], InPending);
  }

  lemma WorkerKeepsProcesses(s: Session, w: nat, e: WorkerEvent, startable: set<string>)
    requires ProcessesAgree(s) && WorkerEnabled(s, w, e, startable)
    ensures ProcessesAgree(WorkerStep(s, w, e, startable))
  {
  }

  lemma WorkerKeepsAgents(s: Session, w: nat, e: WorkerEvent, startable: set<string>)
    requires AgentsAgree(s) && WorkerEnabled(s, w, e, startable)
    ensures AgentsAgree(WorkerStep(s, w, e, startable))
  {
  }

  /** A worker's step leaves the session's own fields alone. */
  lemma WorkerKeepsRest(s: Session, w: nat, e: WorkerEvent, startable: set<string>)
    requires WorkerEnabled(s, w, e, startable)
    ensures var t := WorkerStep(s, w, e, startable);
            && t.core == s.core && t.lock == s.lock && t.calls == s.calls && t.main == s.main
            && t.closes == s.closes && t.windows == s.windows && |t.workers| == |s.workers|
  {
  }

  lemma WorkerKeepsInvariant(s: Session, w: nat, e: WorkerEvent, startable: set<string>)
    requires Invariant(s) && Running(s) && WorkerEnabled(s, w, e, startable)
    ensures Invariant(WorkerStep(s, w, e, startable))
  {
    WorkerKeepsProcesses(s, w, e, startable);
    WorkerKeepsAgents(s, w, e, startable);
    WorkerKeepsRest(s, w, e, startable);
  }

  lemma BusKeepsInvariant(s: Session, b: BusEvent)
    requires Invariant(s) && Running(s) && s.lock.Free?
    ensures Invariant(BusStep(s, b))
  {
    if s.core.pending == 0 { NothingPending(s); }
  }

  lemma CancelListedKeepsWorkers(s: Session)
    requires WorkersAgree(s)
    ensures WorkersAgree(s.(workers := CancelListed(s)))
  {
  }

  lemma MainKeepsInvariant(s: Session, m: MainEvent)
    requires Invariant(s) && Running(s) && MainEnabled(s, m)
    ensures Invariant(MainStep(s, m))
  {
    if m.BootBegin? || m.BootEnd? {
      CountUpdate(s.calls, m.id, MainStep(s, m).calls[m.id], InPending);
    } else if m.CloseLock? {
      CancelListedKeepsWorkers(s);
    }
  }

  lemma InvariantStep(s: Session, e: Event, startable: set<string>)
    requires Invariant(s) && Enabled(s, e, startable)
    ensures Invariant(Apply(s, e, startable))
  {
    match e
    case OfCall(id, c) => CallKeepsInvariant(s, id, c, startable);
    case OfWorker(w, v) => WorkerKeepsInvariant(s, w, v, startable);
    case OfBus(b) => BusKeepsInvariant(s, b);
    case OfMain(m) => MainKeepsInvariant(s, m);
    case ProcessExits(_) =>
  }

  // ---------- runs of one session ----------

  /** A step together with the endpoints that may be started at that moment: saved, neither
      stopped nor revoked. They change freely between steps. */
  datatype Timed = Timed(e: Event, startable: set<string>)

  function Exec(s: Session, es: seq<Timed>): Option<Session> {
    if es == [] then Some(s)
    else
      var last := |es| - 1;
      match Exec(s, es[..last])
      case None => None
      case Some(t) =>
        var (e, startable) := (es[last].e, es[last].startable);
        if Enabled(t, e, startable) then Some(Apply(t, e, startable)) else None
  }

  lemma {:induction false} RunKeepsInvariant(s: Session, es: seq<Timed>, t: Session)
    requires Invariant(s) && Exec(s, es) == Some(t)
    ensures Invariant(t)
  {
    if es != [] {
      var last := |es| - 1;
      var before := Exec(s, es[..last]).value;
      RunKeepsInvariant(s, es[..last], before);
      InvariantStep(before, es[last].e, es[last].startable);
    }
  }

  /** A session that has just become the owner of the bus name. */
  const EXPORTED: Session := FRESH.(main := Exported)

  ghost predicate Reachable(s: Session) {
    exists es :: Exec(EXPORTED, es) == Some(s)
  }

  lemma ReachableIsInvariant(s: Session)
    requires Reachable(s)
    ensures Invariant(s)
  {
    var es :| Exec(EXPORTED, es) == Some(s);
    CountZero(EXPORTED.calls, InPending);
    RunKeepsInvariant(EXPORTED, es, s);
  }

  /** One live agent per slug: a worker stays listed until its process is gone and it is done,
      and looks after one process at a time, so two live processes never share a slug. */
  lemma OneLiveProcessPerSlug(s: Session, p: nat, q: nat)
    requires Reachable(s) && p in s.procs && q in s.procs
    ensures s.procs[p] < |s.workers| && s.procs[q] < |s.workers|
    ensures s.workers[s.procs[p]].slug == s.workers[s.procs[q]].slug ==> p == q
  {
    ReachableIsInvariant(s);
  }

  /** What a session that has agreed to close can still do: nothing new. */
  predicate NothingNew(s: Session, t: Session) {
    && t.core.closing && !t.core.gui
    && |t.workers| == |s.workers| && t.windows == s.windows
    && (forall id :: id in t.calls ==> !InBody(t.calls[id]))
  }

  lemma ClosingCall(s: Session, id: nat, c: CallEvent, startable: set<string>)
    requires Invariant(s) && s.core.closing && CallEnabled(s, id, c, startable)
    ensures NothingNew(s, CallStep(s, id, c, startable))
  {
  }

  lemma ClosingWorker(s: Session, w: nat, e: WorkerEvent, startable: set<string>)
    requires Invariant(s) && s.core.closing && WorkerEnabled(s, w, e, startable)
    ensures NothingNew(s, WorkerStep(s, w, e, startable))
  {
  }

  lemma ClosingBus(s: Session, b: BusEvent)
    requires Invariant(s) && s.core.closing
    ensures NothingNew(s, BusStep(s, b))
  {
  }

  lemma ClosingMain(s: Session, m: MainEvent)
    requires Invariant(s) && s.core.closing && MainEnabled(s, m)
    ensures NothingNew(s, MainStep(s, m))
  {
  }

  lemma ClosingStep(s: Session, e: Event, startable: set<string>)
    requires Invariant(s) && s.core.closing && Enabled(s, e, startable)
    ensures NothingNew(s, Apply(s, e, startable))
  {
    match e
    case OfCall(id, c) => ClosingCall(s, id, c, startable);
    case OfWorker(w, v) => ClosingWorker(s, w, v, startable);
    case OfBus(b) => ClosingBus(s, b);
    case OfMain(m) => ClosingMain(s, m);
    case ProcessExits(_) =>
  }

  lemma {:induction false} QuietFrom(s: Session, es: seq<Timed>, t: Session)
    requires Invariant(s) && s.core.closing && Exec(s, es) == Some(t)
    ensures Invariant(t) && NothingNew(s, t) && t.closes <= 1
  {
    if es != [] {
      var last := |es| - 1;
      var before := Exec(s, es[..last]).value;
      QuietFrom(s, es[..last], before);
      ClosingStep(before, es[last].e, es[last].startable);
      InvariantStep(before, es[last].e, es[last].startable);
    }
  }

  /** Update quiescence: in any run, from the moment PrepareUpdate has succeeded, for the rest
      of the run, no Start or Startup body is in progress, no worker and no window is created,
      and the shutdown channel has been closed at most once. */
  lemma PreparedStaysQuiet(s: Session, es: seq<Timed>, t: Session)
    requires Reachable(s) && s.core.closing && Exec(s, es) == Some(t)
    ensures NothingNew(s, t) && t.closes <= 1
  {
    ReachableIsInvariant(s);
    QuietFrom(s, es, t);
  }

  /** Nobody has already passed the check for this slug: no worker is about to restart and no
      start is about to launch. */
  predicate NoneCommitted(s: Session, slug: string) {
    && (forall w :: 0 <= w < |s.workers| && s.workers[w].slug == slug ==> !s.workers[w].pc.Checked?)
    && (forall id :: id in s.calls ==> s.calls[id] != StartChecked(slug) && s.calls[id] != StartWaiting(slug))
  }

  /** The live processes of one slug. */
  ghost function ProcessesOf(s: Session, slug: string): set<nat> {
    set p | p in s.procs && s.procs[p] < |s.workers| && s.workers[s.procs[p]].slug == slug
  }

  lemma CancelCommitsNobody(s: Session, other: string, slug: string)
    requires NoneCommitted(s, slug)
    ensures NoneCommitted(CancelOne(s, other), slug)
    ensures ProcessesOf(CancelOne(s, other), slug) == ProcessesOf(s, slug)
  {
  }

  lemma LaunchIsOfItsSlug(s: Session, other: string, slug: string)
    requires ProcessesAgree(s) && NoneCommitted(s, slug) && other != slug
    ensures NoneCommitted(Launched(Unlisted(s, other), other), slug)
    ensures ProcessesOf(Launched(Unlisted(s, other), other), slug) <= ProcessesOf(s, slug)
  {
  }

  lemma StoppedCall(s: Session, slug: string, id: nat, c: CallEvent, startable: set<string>)
    requires ProcessesAgree(s) && CallEnabled(s, id, c, startable) && slug !in startable && NoneCommitted(s, slug)
    ensures var t := CallStep(s, id, c, startable);
            NoneCommitted(t, slug) && ProcessesOf(t, slug) <= ProcessesOf(s, slug)
  {
    match c
    case LockStart => CancelCommitsNobody(s, s.calls[id].slug, slug);
    case BeginStop(other) => CancelCommitsNobody(s, other, slug);
    case FinishStart(_) => LaunchIsOfItsSlug(s, s.calls[id].slug, slug);
    case _ =>
  }

  lemma StoppedWorker(s: Session, slug: string, w: nat, e: WorkerEvent, startable: set<string>)
    requires ProcessesAgree(s) && WorkerEnabled(s, w, e, startable) && slug !in startable && NoneCommitted(s, slug)
    ensures var t := WorkerStep(s, w, e, startable);
            NoneCommitted(t, slug) && ProcessesOf(t, slug) <= ProcessesOf(s, slug)
  {
  }

  /** The bus and the main loop start no process and commit nobody. */
  lemma StoppedBus(s: Session, slug: string, b: BusEvent)
    requires NoneCommitted(s, slug)
    ensures NoneCommitted(BusStep(s, b), slug) && ProcessesOf(BusStep(s, b), slug) == ProcessesOf(s, slug)
  {
  }

  lemma StoppedMain(s: Session, slug: string, m: MainEvent)
    requires NoneCommitted(s, slug) && MainEnabled(s, m)
    ensures NoneCommitted(MainStep(s, m), slug) && ProcessesOf(MainStep(s, m), slug) == ProcessesOf(s, slug)
  {
  }

  lemma StoppedStep(s: Session, slug: string, e: Event, startable: set<string>)
    requires Invariant(s) && Enabled(s, e, startable) && slug !in startable && NoneCommitted(s, slug)
    ensures NoneCommitted(Apply(s, e, startable), slug)
    ensures ProcessesOf(Apply(s, e, startable), slug) <= ProcessesOf(s, slug)
  {
    match e
    case OfCall(id, c) => StoppedCall(s, slug, id, c, startable);
    case OfWorker(w, v) => StoppedWorker(s, slug, w, v, startable);
    case OfBus(b) => StoppedBus(s, slug, b);
    case OfMain(m) => StoppedMain(s, slug, m);
    case ProcessExits(_) =>
  }

  lemma {:induction false} StoppedFrom(s: Session, slug: string, es: seq<Timed>, t: Session)
    requires Invariant(s) && NoneCommitted(s, slug) && Exec(s, es) == Some(t)
    requires forall i :: 0 <= i < |es| ==> slug !in es[i].startable
    ensures Invariant(t) && NoneCommitted(t, slug) && ProcessesOf(t, slug) <= ProcessesOf(s, slug)
  {
    if es != [] {
      var last := |es| - 1;
      var before := Exec(s, es[..last]).value;
      StoppedFrom(s, slug, es[..last], before);
      StoppedStep(before, slug, es[last].e, es[last].startable);
      InvariantStep(before, es[last].e, es[last].startable);
    }
  }

  /** Stop and revocation are authoritative across every restart: while an endpoint stays
      stopped or revoked, and nobody had already passed the check, no process of its slug is
      ever started again, whatever starts, restarts and replacements are attempted. */
  lemma StoppedStaysStopped(s: Session, slug: string, es: seq<Timed>, t: Session)
    requires Reachable(s) && NoneCommitted(s, slug) && Exec(s, es) == Some(t)
    requires forall i :: 0 <= i < |es| ==> slug !in es[i].startable
    ensures NoneCommitted(t, slug) && ProcessesOf(t, slug) <= ProcessesOf(s, slug)
  {
    ReachableIsInvariant(s);
    StoppedFrom(s, slug, es, t);
  }

  // ---------- waiting for a worker ----------

  predicate Cancelled(s: Session, slug: string) {
    slug in s.core.agents && s.core.agents[slug] < |s.workers| ==> s.workers[s.core.agents[slug]].cancelled
  }

  predicate CallsCancelled(s: Session) {
    forall id :: id in s.calls && IsWaiting(s.calls[id]) ==> Cancelled(s, s.calls[id].slug)
  }

  predicate CloseCancelled(s: Session) {
    s.main.Closing? ==> forall w :: 0 <= w < |s.workers| && !s.workers[w].pc.Finished? ==> s.workers[w].cancelled
  }

  /** Whoever waits for a worker has cancelled it: a start and a stop the one of their slug,
      close every one that is not finished. */
  predicate AwaitedIsCancelled(s: Session) {
    CallsCancelled(s) && CloseCancelled(s)
  }

  lemma CallsAwaited(s: Session, id: nat, c: CallEvent, startable: set<string>)
    requires LockAgrees(s) && CallsCancelled(s) && CallEnabled(s, id, c, startable)
    ensures CallsCancelled(CallStep(s, id, c, startable))
  {
    var t := CallStep(s, id, c, startable);
    if c.LockStart? || c.BeginStop? || c.FinishStart? || c.FinishStop? {
      OnlyOneWaits(s, id);
      assert forall i :: i in t.calls && i != id ==> t.calls[i] == s.calls[i];
      if c.LockStart? { CancelOneCancels(s, s.calls[id].slug); }
      if c.BeginStop? { CancelOneCancels(s, c.slug); }
    }
  }

  lemma OnlyOneWaits(s: Session, id: nat)
    requires LockAgrees(s) && (s.lock.Free? || s.lock == ByCall(id))
    ensures forall i :: i in s.calls && i != id ==> !IsWaiting(s.calls[i])
  {
  }

  lemma CancelOneCancels(s: Session, slug: string)
    ensures Cancelled(CancelOne(s, slug), slug) && CancelOne(s, slug).calls == s.calls
  {
  }

  lemma CloseAwaited(s: Session, id: nat, c: CallEvent, startable: set<string>)
    requires LockAgrees(s) && CloseCancelled(s) && CallEnabled(s, id, c, startable)
    ensures CloseCancelled(CallStep(s, id, c, startable))
  {
  }

  lemma AwaitedWorker(s: Session, w: nat, e: WorkerEvent, startable: set<string>)
    requires AwaitedIsCancelled(s) && WorkerEnabled(s, w, e, startable)
    ensures AwaitedIsCancelled(WorkerStep(s, w, e, startable))
  {
  }

  lemma AwaitedBus(s: Session, b: BusEvent)
    requires AwaitedIsCancelled(s)
    ensures AwaitedIsCancelled(BusStep(s, b))
  {
  }

  lemma AwaitedMain(s: Session, m: MainEvent)
    requires Invariant(s) && AwaitedIsCancelled(s) && MainEnabled(s, m)
    ensures AwaitedIsCancelled(MainStep(s, m))
  {
  }

  lemma AwaitedStep(s: Session, e: Event, startable: set<string>)
    requires Invariant(s) && AwaitedIsCancelled(s) && Enabled(s, e, startable)
    ensures AwaitedIsCancelled(Apply(s, e, startable))
  {
    match e
    case OfCall(id, c) =>
      CallsAwaited(s, id, c, startable);
      CloseAwaited(s, id, c, startable);
    case OfWorker(w, v) => AwaitedWorker(s, w, v, startable);
    case OfBus(b) => AwaitedBus(s, b);
    case OfMain(m) => AwaitedMain(s, m);
    case ProcessExits(_) =>
  }

  lemma {:induction false} RunKeepsAwaited(s: Session, es: seq<Timed>, t: Session)
    requires Invariant(s) && AwaitedIsCancelled(s) && Exec(s, es) == Some(t)
    ensures AwaitedIsCancelled(t)
  {
    if es != [] {
      var last := |es| - 1;
      var before := Exec(s, es[..last]).value;
      RunKeepsAwaited(s, es[..last], before);
      RunKeepsInvariant(s, es[..last], before);
      AwaitedStep(before, es[last].e, es[last].startable);
    }
  }

  /** The session waits for this worker with its mutex held. */
  predicate Awaits(s: Session, w: nat) {
    && w < |s.workers| && !s.workers[w].pc.Finished?
    && (s.main.Closing?
        || exists id :: id in s.calls && IsWaiting(s.calls[id]) && s.calls[id].slug == s.workers[w].slug)
  }

  /** No wait is in vain: a worker that Start, Stop or close waits for has been cancelled, and
      it, or its process, always has a step to take. */
  lemma NoWaitIsStuck(s: Session, w: nat) returns (e: Event)
    requires Reachable(s) && Awaits(s, w) && Running(s)
    ensures s.workers[w].cancelled
    ensures Enabled(s, e, {})
    ensures e in {OfWorker(w, SeeCancel), OfWorker(w, Notice), OfWorker(w, Restart(false))}
         || (e.ProcessExits? && s.workers[w].pc == Terminating(e.p))
  {
    var es :| Exec(EXPORTED, es) == Some(s);
    ReachableIsInvariant(s);
    CountZero(EXPORTED.calls, InPending);
    RunKeepsAwaited(EXPORTED, es, s);
    e := match s.workers[w].pc
      case Terminating(p) => if p in s.procs then ProcessExits(p) else OfWorker(w, Notice)
      case Checked => OfWorker(w, Restart(false))
      case _ => OfWorker(w, SeeCancel);
  }

  /** The worker has acted on its cancellation. */
  predicate GivenUp(s: Session,
                    w: nat) { w < |s.workers| && (s.workers[w].pc.Terminating? || s.workers[w].pc.Finished?) }

  /** From s to t the worker stays given up and gains no process. */
  predicate NoNewProcess(s: Session, t: Session, w: nat) {
    GivenUp(t, w) && forall p :: p in t.procs && t.procs[p] == w ==> p in s.procs && s.procs[p] == w
  }

  lemma GivenUpCall(s: Session, w: nat, id: nat, c: CallEvent, startable: set<string>)
    requires GivenUp(s, w) && CallEnabled(s, id, c, startable)
    ensures NoNewProcess(s, CallStep(s, id, c, startable), w)
  {
  }

  lemma GivenUpWorker(s: Session, w: nat, v: nat, e: WorkerEvent, startable: set<string>)
    requires GivenUp(s, w) && WorkerEnabled(s, v, e, startable)
    ensures NoNewProcess(s, WorkerStep(s, v, e, startable), w)
  {
  }

  lemma GivenUpStep(s: Session, w: nat, e: Event, startable: set<string>)
    requires GivenUp(s, w) && Enabled(s, e, startable)
    ensures NoNewProcess(s, Apply(s, e, startable), w)
  {
    match e
    case OfCall(id, c) => GivenUpCall(s, w, id, c, startable);
    case OfWorker(v, d) => GivenUpWorker(s, w, v, d, startable);
    case OfBus(_) =>
    case OfMain(_) =>
    case ProcessExits(_) =>
  }

  /** A worker that has acted on its cancellation never starts another process. */
  lemma {:induction false} CancelledIsFinal(s: Session, w: nat, es: seq<Timed>, t: Session)
    requires GivenUp(s, w) && Exec(s, es) == Some(t)
    ensures NoNewProcess(s, t, w)
  {
    if es != [] {
      var last := |es| - 1;
      var before := Exec(s, es[..last]).value;
      CancelledIsFinal(s, w, es[..last], before);
      GivenUpStep(before, w, es[last].e, es[last].startable);
    }
  }

  // ---------- what each operation achieves ----------

  predicate Unfinished(s: Session, w: nat) { w < |s.workers| && !s.workers[w].pc.Finished? }

  predicate NothingInPending(s: Session) { forall id :: id in s.calls ==> !InPending(s.calls[id]) }

  lemma PendingIsZeroIff(s: Session)
    requires PendingAgrees(s)
    ensures s.core.pending == 0 <==> NothingInPending(s)
  {
    if s.core.pending == 0 {
      NothingPending(s);
    } else if NothingInPending(s) {
      CountZero(s.calls, InPending);
    }
  }

  lemma EmptyIffFinished(s: Session)
    requires AgentsAgree(s) && !s.core.closing
    ensures Swept(s.core, DoneWorkers(s)).0.agents == map[] <==> forall w :: 0 <= w < |s.workers| ==> !Unfinished(s, w)
  {
    var kept := Swept(s.core, DoneWorkers(s)).0.agents;
    forall w | 0 <= w < |s.workers| && Unfinished(s, w) ensures kept != map[] {
      assert s.workers[w].slug in kept;
    }
    if kept != map[] {
      var slug :| slug in kept;
      assert Unfinished(s, s.core.agents[slug]);
    }
  }

  /** The idle test: the main loop leaves exactly when the session has not agreed to close, no window
      is open, every worker has finished and no counted call is under way. Unless closing, it forgets
      exactly the agents whose worker has finished. */
  lemma LeavesIffIdle(s: Session)
    requires Reachable(s) && Enabled(s, OfMain(Tick), {})
    ensures var t := Apply(s, OfMain(Tick), {});
            && (t.main.Leaving? <==>
                  && !s.core.closing && !s.core.gui && NothingInPending(s)
                  && forall w :: 0 <= w < |s.workers| ==> !Unfinished(s, w))
            && (!t.main.Leaving? ==> t.main == s.main)
            && (forall slug :: slug in t.core.agents <==>
                  slug in s.core.agents && (s.core.closing || Unfinished(s, s.core.agents[slug])))
            && (forall slug :: slug in t.core.agents ==> t.core.agents[slug] == s.core.agents[slug])
            && t.workers == s.workers && t.calls == s.calls && t.procs == s.procs && t.lock == s.lock
  {
    ReachableIsInvariant(s);
    PendingIsZeroIff(s);
    if !s.core.closing {
      EmptyIffFinished(s);
    }
  }

  /** Start and Startup get in exactly while the session has not agreed to close, and are counted. */
  lemma BodyIffNotClosing(s: Session, id: nat, c: CallEvent)
    requires Reachable(s) && (c.BeginStart? || c.BeginStartup?) && Enabled(s, OfCall(id, c), {})
    ensures var t := Apply(s, OfCall(id, c), {});
            && id in t.calls && (InBody(t.calls[id]) <==> !s.core.closing)
            && (s.core.closing ==> t == s.(calls := s.calls[id := Returned]))
            && t.workers == s.workers && t.procs == s.procs
  {
    ReachableIsInvariant(s);
  }

  /** PrepareUpdate: the session agrees exactly for another build while no window is open and no
      counted call is under way, and then it is closing; it refuses without any other change. */
  lemma AgreesIffQuiet(s: Session, sameBuild: bool)
    requires Invariant(s)
    ensures Prepared(s.core, sameBuild).1 <==> !sameBuild && !s.core.gui && NothingInPending(s)
    ensures BusStep(s, Prepare(sameBuild))
         == if !sameBuild && !s.core.gui && NothingInPending(s) then s.(core := s.core.(closing := true)) else s
  {
    PendingIsZeroIff(s);
  }

  /** FinishUpdate is accepted exactly from another build once the session has agreed, and then its
      shutdown channel is closed, after which the main loop can leave. */
  lemma ShutsIffAgreed(s: Session, sameBuild: bool)
    requires Invariant(s)
    ensures FinishRequested(s.core, sameBuild).1 <==> s.core.closing && !sameBuild
    ensures var t := BusStep(s, Finish(sameBuild));
            if s.core.closing && !sameBuild
            then t.core.shut && t.closes == 1 && (s.main.Looping? ==> MainEnabled(t, SeeShutdown))
            else t == s
  {
  }

  /** A window is opened exactly if none is, the session has not agreed to close and the launch works;
      once it has exited, another one can be. */
  lemma WindowIffFree(s: Session, launches: bool)
    ensures var t := BusStep(s, Open(launches));
            if launches && !s.core.gui && !s.core.closing
            then t.core.gui && t.windows == s.windows + 1 else t == s
    ensures var t := BusStep(BusStep(s, WindowExits), Open(true));
            t.core.gui <==> !s.core.closing
  {
  }

  /** A Start that launches leaves exactly one live process for its slug, looked after by a new worker
      that is listed and not cancelled; a failed launch leaves none. Other slugs keep theirs. */
  lemma StartMeansServed(s: Session, id: nat, launches: bool)
    requires Reachable(s) && Enabled(s, OfCall(id, FinishStart(launches)), {})
    ensures var t, slug := Apply(s, OfCall(id, FinishStart(launches)), {}), s.calls[id].slug;
            && ProcessesOf(t, slug) == (if launches then {s.nextProc} else {})
            && (slug in t.core.agents <==> launches)
            && (launches ==> var w := t.core.agents[slug];
                  w < |t.workers| && t.workers[w] == WorkerState(slug, false, Live(s.nextProc)))
            && t.lock.Free?
            && forall other :: other != slug ==> ProcessesOf(t, other) == ProcessesOf(s, other)
  {
    ReachableIsInvariant(s);
    var t, slug := Apply(s, OfCall(id, FinishStart(launches)), {}), s.calls[id].slug;
    assert ProcessesOf(s, slug) == {};
    forall other | other != slug ensures ProcessesOf(t, other) == ProcessesOf(s, other) {}
  }

  /** When Stop returns, the agent is gone: not listed, no worker that is not finished, no process. A Stop
      of a slug that is not listed returns at once, with just as little left of it. */
  lemma StopMeansGone(s: Session, id: nat, c: CallEvent)
    requires Reachable(s) && Enabled(s, OfCall(id, c), {})
    requires c.FinishStop? || (c.BeginStop? && c.slug !in s.core.agents)
    ensures var t, slug := Apply(s, OfCall(id, c), {}), if c.FinishStop? then s.calls[id].slug else c.slug;
            && t.calls[id] == Returned && t.lock.Free?
            && slug !in t.core.agents && ProcessesOf(t, slug) == {}
            && (forall w :: 0 <= w < |t.workers| && t.workers[w].slug == slug ==> !Unfinished(t, w))
            && (forall other :: other != slug ==> (other in t.core.agents <==> other in s.core.agents))
  {
    ReachableIsInvariant(s);
  }

  /** Retire, and a Stop or a Start that has to wait, cancel the listed worker of their slug and no
      other one. */
  lemma CancelsItsOwn(s: Session, slug: string, w: nat)
    requires Invariant(s) && w < |s.workers|
    ensures var t := BusStep(s, Retire(slug));
            && |t.workers| == |s.workers|
            && t.workers[w] == s.workers[w].(cancelled := t.workers[w].cancelled)
            && (t.workers[w].cancelled <==>
                  s.workers[w].cancelled || (slug in s.core.agents && s.core.agents[slug] == w))
  {
  }

  lemma ExecOne(s: Session, es: seq<Timed>, t: Session, e: Event, startable: set<string>)
    returns (longer: seq<Timed>, u: Session)
    requires Exec(s, es) == Some(t) && Enabled(t, e, startable)
    ensures Exec(s, longer) == Some(u) && u == Apply(t, e, startable) && longer == es + [Timed(e, startable)]
  {
    longer, u := es + [Timed(e, startable)], Apply(t, e, startable);
    assert longer[..|longer| - 1] == es;
  }

  /** An agent that crashes comes back: its worker, if nobody has cancelled it, can notice, find the
      endpoint still startable and launch a new process, whatever the rest of the session is doing. */
  lemma CrashedAgentComesBack(s: Session, w: nat) returns (es: seq<Timed>, t: Session)
    requires Reachable(s) && Running(s) && w < |s.workers| && s.workers[w].pc.Live? && !s.workers[w].cancelled
    ensures Exec(s, es) == Some(t) && |t.workers| == |s.workers|
    ensures t.workers[w].pc == Live(s.nextProc) && s.nextProc in t.procs && t.procs[s.nextProc] == w
    ensures s.workers[w].pc.p !in t.procs && t.core == s.core && t.lock == s.lock && t.calls == s.calls
  {
    ReachableIsInvariant(s);
    var p, slug := s.workers[w].pc.p, s.workers[w].slug;
    es, t := [], s;
    if p in s.procs { es, t := ExecOne(s, es, t, ProcessExits(p), {}); }
    es, t := ExecOne(s, es, t, OfWorker(w, Notice), {});
    es, t := ExecOne(s, es, t, OfWorker(w, Recheck(true)), {slug});
    es, t := ExecOne(s, es, t, OfWorker(w, Restart(true)), {});
  }

  // ---------- close comes to its end ----------

  /** Steps other than the release of the name. */
  predicate KeepsName(es: seq<Timed>) { forall i :: 0 <= i < |es| ==> es[i].e != OfMain(Release) }

  lemma {:induction false} UnusedCall(ids: set<nat>) returns (id: nat)
    ensures forall i :: i in ids ==> i < id
  {
    if ids == {} {
      id := 0;
    } else {
      var i :| i in ids;
      var above := UnusedCall(ids - {i});
      id := if above > i then above else i + 1;
      assert ids == (ids - {i}) + {i};
    }
  }

  /** Only workers' own steps and the exits of processes. */
  predicate Underneath(s: Session, t: Session) {
    && t.core == s.core && t.lock == s.lock && t.calls == s.calls && t.main == s.main
    && t.closes == s.closes && t.windows == s.windows && |t.workers| == |s.workers|
  }

  lemma {:induction false} ExecJoin(s: Session, first: seq<Timed>, m: Session, second: seq<Timed>, t: Session)
    requires Exec(s, first) == Some(m) && Exec(m, second) == Some(t)
    ensures Exec(s, first + second) == Some(t)
  {
    if second == [] {
      assert first + second == first;
    } else {
      var last := |second| - 1;
      ExecJoin(s, first, m, second[..last], Exec(m, second[..last]).value);
      assert (first + second)[..|first + second| - 1] == first + second[..last];
    }
  }

  /** It has finished, and the others are as they were. */
  predicate OnlyFinished(s: Session, t: Session, w: nat)
    requires w < |s.workers|
  {
    Underneath(s, t) && t.workers == s.workers[w := t.workers[w]] && t.workers[w].pc.Finished?
  }

  lemma TerminatingCanFinish(s: Session, w: nat) returns (es: seq<Timed>, t: Session)
    requires Running(s) && w < |s.workers| && s.workers[w].pc.Terminating?
    ensures Exec(s, es) == Some(t) && KeepsName(es) && OnlyFinished(s, t, w)
  {
    var p := s.workers[w].pc.p;
    es, t := [], s;
    if p in s.procs { es, t := ExecOne(s, es, t, ProcessExits(p), {}); }
    es, t := ExecOne(s, es, t, OfWorker(w, Notice), {});
  }

  lemma LiveCanFinish(s: Session, w: nat) returns (es: seq<Timed>, t: Session)
    requires Running(s) && w < |s.workers| && s.workers[w].cancelled && s.workers[w].pc.Live?
    ensures Exec(s, es) == Some(t) && KeepsName(es) && OnlyFinished(s, t, w)
  {
    var m, more;
    es, m := ExecOne(s, [], s, OfWorker(w, SeeCancel), {});
    more, t := TerminatingCanFinish(m, w);
    ExecJoin(s, es, m, more, t);
    es := es + more;
  }

  /** A cancelled worker can finish by itself, the other workers staying as they are. */
  lemma WorkerCanFinish(s: Session, w: nat) returns (es: seq<Timed>, t: Session)
    requires Running(s) && w < |s.workers| && s.workers[w].cancelled && !s.workers[w].pc.Finished?
    ensures Exec(s, es) == Some(t) && KeepsName(es) && OnlyFinished(s, t, w)
  {
    match s.workers[w].pc
    case Checked => es, t := ExecOne(s, [], s, OfWorker(w, Restart(false)), {});
    case Asleep => es, t := ExecOne(s, [], s, OfWorker(w, SeeCancel), {});
    case Live(_) => es, t := LiveCanFinish(s, w);
    case Terminating(_) => es, t := TerminatingCanFinish(s, w);
  }

  predicate AllCancelled(s: Session) {
    forall w :: 0 <= w < |s.workers| && !s.workers[w].pc.Finished? ==> s.workers[w].cancelled
  }

  lemma {:induction false} WorkersCanFinish(s: Session, n: nat) returns (es: seq<Timed>, t: Session)
    requires Running(s) && AllCancelled(s) && n <= |s.workers|
    ensures Exec(s, es) == Some(t) && Underneath(s, t) && AllCancelled(t) && KeepsName(es)
    ensures forall w :: 0 <= w < n ==> t.workers[w].pc.Finished?
  {
    if n == 0 {
      es, t := [], s;
    } else {
      var m;
      es, m := WorkersCanFinish(s, n - 1);
      if m.workers[n - 1].pc.Finished? {
        t := m;
      } else {
        var more;
        more, t := WorkerCanFinish(m, n - 1);
        ExecJoin(s, es, m, more, t);
        es := es + more;
      }
    }
  }

  /** Close never hangs: from any point of it, whatever the workers were doing, they can all finish by
      themselves, after which close ends with no process left. */
  lemma CloseCanFinish(s: Session) returns (es: seq<Timed>, t: Session)
    requires Invariant(s) && s.main.Closing? && AllCancelled(s)
    ensures Exec(s, es) == Some(t) && t.main.Closed? && t.lock.Free? && t.core == s.core && KeepsName(es)
    ensures forall w :: 0 <= w < |t.workers| ==> t.workers[w].pc.Finished?
  {
    var m;
    es, m := WorkersCanFinish(s, |s.workers|);
    es, t := ExecOne(s, es, m, OfMain(CloseDone), {});
  }

  // ---------- every call comes to its end ----------

  /** This call has returned, and the others are where they were. */
  predicate OnlyReturned(s: Session, t: Session, id: nat) {
    t.calls == s.calls[id := Returned] && t.lock.Free? && t.main == s.main && t.core.closing == s.core.closing
  }

  lemma ReturningCanEnd(s: Session, id: nat) returns (es: seq<Timed>, t: Session)
    requires Running(s) && InCalls(s, id, Returning) && s.lock.Free?
    ensures Exec(s, es) == Some(t) && OnlyReturned(s, t, id)
    ensures t.core.pending == s.core.pending - 1 && t.core.agents == s.core.agents
  {
    es, t := ExecOne(s, [], s, OfCall(id, Return), {});
  }

  lemma BootCanEnd(s: Session, id: nat) returns (es: seq<Timed>, t: Session)
    requires Running(s) && InCalls(s, id, Boot) && s.lock.Free?
    ensures Exec(s, es) == Some(t) && OnlyReturned(s, t, id)
    ensures t.core.pending == s.core.pending - 1 && t.core.agents == s.core.agents
  {
    es, t := ExecOne(s, [], s, OfMain(BootEnd(id)), {});
  }

  /** A Start that waits gets its worker to finish, and comes back. */
  lemma WaitingStartCanEnd(s: Session, id: nat, slug: string) returns (es: seq<Timed>, t: Session)
    requires Invariant(s) && Running(s) && InCalls(s, id, StartWaiting(slug)) && s.lock == ByCall(id)
    requires Cancelled(s, slug)
    ensures Exec(s, es) == Some(t) && t.calls == s.calls[id := Returning] && t.lock.Free? && t.main == s.main
    ensures t.core.closing == s.core.closing && t.core.pending == s.core.pending
  {
    es, t := [], s;
    if !AgentDone(s, slug) {
      es, t := WorkerCanFinish(s, s.core.agents[slug]);
    }
    es, t := ExecOne(s, es, t, OfCall(id, FinishStart(false)), {});
  }

  /** A Start that is past its check takes the mutex, and comes back. */
  lemma CheckedStartCanEnd(s: Session, id: nat, slug: string) returns (es: seq<Timed>, t: Session)
    requires Invariant(s) && Running(s) && InCalls(s, id, StartChecked(slug)) && s.lock.Free?
    ensures Exec(s, es) == Some(t) && t.calls == s.calls[id := Returning] && t.lock.Free? && t.main == s.main
    ensures t.core.closing == s.core.closing && t.core.pending == s.core.pending
  {
    es, t := ExecOne(s, [], s, OfCall(id, LockStart), {});
    if !s.core.closing {
      InvariantStep(s, OfCall(id, LockStart), {});
      CancelOneCancels(s, slug);
      var more, u := WaitingStartCanEnd(t, id, slug);
      ExecJoin(s, es, t, more, u);
      es, t := es + more, u;
      assert s.calls[id := StartWaiting(slug)][id := Returning] == s.calls[id := Returning];
    }
  }

  lemma BodyCanEnd(s: Session, id: nat) returns (es: seq<Timed>, t: Session)
    requires Invariant(s) && Running(s) && id in s.calls && InBody(s.calls[id]) && s.lock.Free?
    ensures Exec(s, es) == Some(t) && t.calls == s.calls[id := Returning] && t.lock.Free? && t.main == s.main
    ensures t.core.closing == s.core.closing && t.core.pending == s.core.pending
  {
    es, t := [], s;
    match s.calls[id]
    case StartBody(_) => es, t := ExecOne(s, es, t, OfCall(id, FailCheck), {});
    case StartChecked(slug) => es, t := CheckedStartCanEnd(s, id, slug);
    case StartupBody => es, t := ExecOne(s, es, t, OfCall(id, EndStartup), {});
    case Returning => assert s.calls[id := Returning] == s.calls;
  }

  /** No counted call is stuck: while the mutex is free, any one of them can return without the others
      moving, also if it first has to wait for a worker, and then one fewer is counted. */
  lemma CountedCallCanReturn(s: Session, id: nat) returns (es: seq<Timed>, t: Session)
    requires Invariant(s) && Running(s) && s.lock.Free? && id in s.calls && InPending(s.calls[id])
    ensures Exec(s, es) == Some(t) && OnlyReturned(s, t, id) && t.core.pending == s.core.pending - 1
  {
    if s.calls[id].Boot? {
      es, t := BootCanEnd(s, id);
    } else {
      var m, more;
      es, m := BodyCanEnd(s, id);
      more, t := ReturningCanEnd(m, id);
      ExecJoin(s, es, m, more, t);
      es := es + more;
      assert s.calls[id := Returning][id := Returned] == s.calls[id := Returned];
    }
  }

  /** So the session can always become quiet: from any point at which its mutex is free there is a
      continuation after which no counted call is under way, and with its window gone it agrees to
      make room for another build. */
  lemma {:induction false} QuietCanCome(s: Session) returns (es: seq<Timed>, t: Session)
    requires Invariant(s) && Running(s) && s.lock.Free?
    ensures Exec(s, es) == Some(t) && Invariant(t) && NothingInPending(t)
    ensures t.main == s.main && t.lock.Free? && t.core.closing == s.core.closing
    ensures Prepared(BusStep(t, WindowExits).core, false).1
    decreases s.core.pending
  {
    PendingIsZeroIff(s);
    if NothingInPending(s) {
      es, t := [], s;
    } else {
      var id :| id in s.calls && InPending(s.calls[id]);
      CountPositive(s.calls, id, InPending);
      var m, more;
      es, m := CountedCallCanReturn(s, id);
      RunKeepsInvariant(s, es, m);
      more, t := QuietCanCome(m);
      ExecJoin(s, es, m, more, t);
      es := es + more;
    }
    PendingIsZeroIff(t);
  }
}
