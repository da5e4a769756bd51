/** Runs of the Windows lifecycle: stop, resume, prepare-update and finish-update in any order, each
    with any pattern of failing reads, writes and commands, and with revoked agents writing their
    files between and during all of them. */
module Lifecycle {
  import opened Maintenance
  import opened Wrappers

  datatype Op =
    | Stop(slug: string, readable: bool, stopIO: StopIO)
    | Resume(slug: string, resumeIO: ResumeIO)
    | Revoke(slug: string, managed: bool, revokeIO: RevokeIO)
    | Prepare(first: seq<string>, second: seq<string>, prepareIO: PrepareIO)
    | Finish(finishIO: FinishIO)

  /** `stoppedByUser` are the endpoints whose latest stop or resume that took effect was a
      successful explicit Stop. */
  datatype World = World(d: Disk, stoppedByUser: set<string>)

  predicate Possible(w: World, op: Op) {
    match op
    case Stop(slug, _, _) => slug in w.d.cfg.endpoints
    case Resume(_, _) => true
    case Revoke(_, _, _) => true
    case Prepare(first, second, _) => Covers(first, w.d.cfg.endpoints) && Covers(second, w.d.cfg.endpoints)
    case Finish(_) => true
  }

  function StopOf(w: World, op: Op): (Disk, map<string, Endpoint>, StopReply)
    requires Possible(w, op) && op.Stop?
  {
    Stopped(w.d, w.d.cfg, op.slug, Loaded(w.d, w.d.cfg.endpoints, op.slug, op.readable), false, true, op.stopIO)
  }

  function Next(w: World, op: Op): World
    requires Possible(w, op)
  {
    match op
    case Stop(slug, _, _) =>
      var (d, _, reply) := StopOf(w, op);
      w.(d := d, stoppedByUser := if reply.StopDone? then w.stoppedByUser + {slug} else w.stoppedByUser)
    case Resume(slug, io) =>
      var (d, reply) := ResumedBy(w.d, slug, io);
      var same := reply.Untouched? || reply.Restored?;
      w.(d := d, stoppedByUser := if same then w.stoppedByUser else w.stoppedByUser - {slug})
    case Revoke(slug, managed, io) => w.(d := RevokedBy(w.d, slug, managed, io))
    case Prepare(first, second, io) => w.(d := PreparedBy(w.d, first, second, io).d)
    case Finish(io) => w.(d := FinishedBy(w.d, io).d)
  }

  function Exec(w: World, ops: seq<Op>): Option<World> {
    if ops == [] then Some(w)
    else
      var last := |ops| - 1;
      match Exec(w, ops[..last])
      case None => None
      case Some(v) => if Possible(v, ops[last]) then Some(Next(v, ops[last])) else None
  }

  // ---------- what a stop does to the settings and the files ----------

  /** At most one entry was written, with a stop that keeps the endpoint's other flags. */
  predicate OneStopped(before: map<string, Endpoint>, after: map<string, Endpoint>, slug: string, local: Endpoint) {
    after == before
    || (slug in after && after == before[slug := after[slug]]
        && after[slug].stopped && after[slug].managed == local.managed && after[slug].revoked == local.revoked)
  }

  /** Entries are kept or replaced by stopped ones, and none is lost. */
  predicate OnlyStops(before: map<string, Endpoint>, after: map<string, Endpoint>) {
    && before.Keys <= after.Keys
    && forall s :: s in after ==> after[s].stopped || (s in before && after[s] == before[s])
  }

  /** What a stop, with the agents acting meanwhile, may leave on the disk and on the shared endpoint
      map: files only move towards stopped, and the settings carry the resume list it was given. */
  predicate StopWrites(d: Disk, loaded: Config, slug: string, local: Endpoint, resume: seq<string>, d1: Disk,
                       eps: map<string, Endpoint>)
  {
    && OnlyStops(d.files, d1.files)
    && OneStopped(loaded.endpoints, eps, slug, local)
    && (d1.cfg == d.cfg || (d1.cfg.resume == resume && OneStopped(loaded.endpoints, d1.cfg.endpoints, slug, local)))
  }

  lemma SavedEffect(d0: Disk, loaded: Config, resume: seq<string>, d: Disk, wrote: Revocations, cfg: Config,
                    slug: string, e: Endpoint, local: Endpoint, file: bool, config: bool)
    requires StopWrites(d0, loaded, slug, local, resume, d, cfg.endpoints) && cfg.resume == resume
    requires e.stopped && e.managed == local.managed && e.revoked == local.revoked
    ensures var (d1, eps, ok) := Saved(After(d, wrote), cfg, slug, e, file, config);
            && StopWrites(d0, loaded, slug, local, resume, d1, eps)
            && (ok ==> slug in d1.files && d1.files[slug] == e && slug !in d1.late
                       && d1.cfg == Config(loaded.endpoints[slug := e], resume) && eps == d1.cfg.endpoints)
  {
    WriteAgain(loaded.endpoints, cfg.endpoints, slug, e, local);
    MoreStops(d0.files, d.files, wrote, slug, e);
  }

  lemma MoreStops(before: map<string, Endpoint>, after: map<string, Endpoint>, wrote: Revocations, slug: string,
                  e: Endpoint)
    requires OnlyStops(before, after) && e.stopped
    ensures OnlyStops(before, after + wrote) && OnlyStops(before, (after + wrote)[slug := e])
  {
  }

  lemma WriteAgain(before: map<string, Endpoint>, after: map<string, Endpoint>, slug: string, e: Endpoint,
                   local: Endpoint)
    requires OneStopped(before, after, slug, local)
    ensures after[slug := e] == before[slug := e]
  {
  }

  /** Every write of a stop, whatever fails and whatever agents write meanwhile: files only move
      towards stopped, and the settings change in this endpoint and, with the list the stop was
      given, in the resume list. On success file and settings hold the same stopped endpoint, which
      has memory pending exactly for a managed runtime, not released before, whose unload was not
      confirmed. */
  lemma StopEffect(d: Disk, loaded: Config, slug: string, local: Endpoint, preserve: bool, windows: bool, io: StopIO)
    ensures var (d1, eps, reply) := Stopped(d, loaded, slug, local, preserve, windows, io);
            && StopWrites(d, loaded, slug, local, AfterStop(loaded, slug, preserve).resume, d1, eps)
            && (reply.StopDone? ==>
                  && slug in d1.files && slug !in d1.late
                  && d1.files[slug] == local.(stopped := true, memoryPending := reply.memoryPending)
                  && d1.cfg.endpoints == loaded.endpoints[slug := d1.files[slug]]
                  && d1.cfg.resume == AfterStop(loaded, slug, preserve).resume && eps == d1.cfg.endpoints
                  && (reply.memoryPending <==> local.managed && (!local.stopped || local.memoryPending) && !io.unload))
  {
    var cfg, e := AfterStop(loaded, slug, preserve), Halted(local);
    var (d1, eps, marked) := if windows then Marked(d, cfg, slug, e, io) else (d, cfg.endpoints, true);
    if windows {
      MarkedEffect(d, loaded, cfg, slug, e, local, io);
    }
    if marked && io.service {
      SettledEffect(d, loaded, d1, cfg.(endpoints := eps), slug, e, local, io);
    }
  }

  lemma MarkedEffect(d: Disk, loaded: Config, cfg: Config, slug: string, e: Endpoint, local: Endpoint, io: StopIO)
    requires cfg.endpoints == loaded.endpoints && e == Halted(local)
    ensures var (d1, eps, _) := Marked(d, cfg, slug, e, io); StopWrites(d, loaded, slug, local, cfg.resume, d1, eps)
  {
    if io.markFile {
      SavedEffect(d, loaded, cfg.resume, d, io.beforeMark, cfg, slug, e, local, true, io.markConfig);
    }
  }

  lemma SettledEffect(d0: Disk, loaded: Config, d: Disk, cfg: Config, slug: string, e: Endpoint, local: Endpoint,
                      io: StopIO)
    requires StopWrites(d0, loaded, slug, local, cfg.resume, d, cfg.endpoints) && e == Halted(local)
    ensures var (d1, eps, reply) := Settled(d, cfg, slug, e, io);
            && StopWrites(d0, loaded, slug, local, cfg.resume, d1, eps)
            && (reply.StopDone? ==>
                  && slug in d1.files && slug !in d1.late
                  && d1.files[slug] == local.(stopped := true, memoryPending := reply.memoryPending)
                  && d1.cfg == Config(loaded.endpoints[slug := d1.files[slug]], cfg.resume) && eps == d1.cfg.endpoints
                  && reply.memoryPending == (e.memoryPending && !io.unload))
  {
    SavedEffect(d0, loaded, cfg.resume, d, io.beforeSave, cfg, slug, e, local, io.saveFile, io.saveConfig);
    var (d1, eps, saved) := Saved(After(d, io.beforeSave), cfg, slug, e, io.saveFile, io.saveConfig);
    if saved && e.memoryPending && io.unload {
      SavedEffect(d0, loaded, cfg.resume, d1, io.beforeRelease, cfg.(endpoints := eps), slug,
                  e.(memoryPending := false), local, io.releaseFile, io.releaseConfig);
    }
  }

  /** The stop has model memory to release: a managed runtime's, unless it was released before. */
  predicate HeldMemory(local: Endpoint) { local.managed && !AlreadyReleased(local) }

  /** Every step that a stop comes to succeeds; whether the unload is confirmed is left open. */
  predicate StopPath(local: Endpoint, windows: bool, io: StopIO) {
    && (windows ==> io.markFile && io.markConfig)
    && io.service && io.saveFile && io.saveConfig
    && (HeldMemory(local) && io.unload ==> io.releaseFile && io.releaseConfig)
  }

  /** Exactly when a stop succeeds, on Windows or not, explicit or for an update: when every step it
      comes to does. Agents cannot make it fail, nor can what it finds. */
  lemma StopSucceedsIff(d: Disk, loaded: Config, slug: string, local: Endpoint, preserve: bool, windows: bool,
                        io: StopIO)
    ensures Stopped(d, loaded, slug, local, preserve, windows, io).2.StopDone? <==> StopPath(local, windows, io)
  {
  }

  /** The mark is durable: on Windows, once it is written, the endpoint is stopped in its file, and in
      the settings if those were written too, however the stop ends. Without the mark and without a
      stopped service nothing at all is written, agents apart. */
  lemma MarkIsDurable(d: Disk, loaded: Config, slug: string, local: Endpoint, preserve: bool, io: StopIO)
    ensures var d1 := Stopped(d, loaded, slug, local, preserve, true, io).0;
            && (io.markFile ==> slug in d1.files && d1.files[slug].stopped)
            && (io.markFile && io.markConfig ==>
                  slug in d1.cfg.endpoints && d1.cfg.endpoints[slug].stopped
                  && d1.cfg.resume == AfterStop(loaded, slug, preserve).resume)
            && (!io.markFile ==> d1 == After(d, io.beforeMark))
    ensures !io.service ==> Stopped(d, loaded, slug, local, preserve, false, io).0 == d
  {
    var cfg, e := AfterStop(loaded, slug, preserve), Halted(local);
    var (d1, eps, marked) := Marked(d, cfg, slug, e, io);
    if marked && io.service {
      SettledStaysStopped(d1, cfg.(endpoints := eps), slug, e, io);
    }
  }

  lemma SettledStaysStopped(d: Disk, cfg: Config, slug: string, e: Endpoint, io: StopIO)
    requires slug in d.files && d.files[slug].stopped && e.stopped && d.cfg == cfg
    requires slug in cfg.endpoints && cfg.endpoints[slug].stopped
    ensures var d1 := Settled(d, cfg, slug, e, io).0;
            && slug in d1.files && d1.files[slug].stopped
            && slug in d1.cfg.endpoints && d1.cfg.endpoints[slug].stopped && d1.cfg.resume == cfg.resume
  {
    SavedStaysStopped(d, io.beforeSave, cfg, slug, e, io.saveFile, io.saveConfig);
    var (d1, eps, saved) := Saved(After(d, io.beforeSave), cfg, slug, e, io.saveFile, io.saveConfig);
    if saved && e.memoryPending && io.unload {
      SavedStaysStopped(d1, io.beforeRelease, cfg.(endpoints := eps), slug, e.(memoryPending := false), io.releaseFile,
                        io.releaseConfig);
    }
  }

  lemma SavedStaysStopped(d: Disk, wrote: Revocations, cfg: Config, slug: string, e: Endpoint, file: bool, config: bool)
    requires slug in d.files && d.files[slug].stopped && e.stopped && d.cfg.resume == cfg.resume
    requires slug in d.cfg.endpoints && d.cfg.endpoints[slug].stopped
    ensures var d1 := Saved(After(d, wrote), cfg, slug, e, file, config).0;
            && slug in d1.files && d1.files[slug].stopped
            && slug in d1.cfg.endpoints && d1.cfg.endpoints[slug].stopped && d1.cfg.resume == cfg.resume
  {
  }

  /** An explicit Stop takes effect if and only if every step it comes to succeeds: then the user's
      wish is recorded, the endpoint is stopped in its file and in the settings and off the resume
      list, and otherwise no new wish is. */
  lemma ExplicitStopTakesEffectIff(w: World, op: Op)
    requires Possible(w, op) && op.Stop?
    ensures var v, local := Next(w, op), Loaded(w.d, w.d.cfg.endpoints, op.slug, op.readable);
            if StopPath(local, true, op.stopIO)
            then
              && v.stoppedByUser == w.stoppedByUser + {op.slug}
              && op.slug in v.d.files && v.d.files[op.slug].stopped
              && op.slug in v.d.cfg.endpoints && v.d.cfg.endpoints[op.slug].stopped
              && op.slug !in v.d.cfg.resume
            else v.stoppedByUser == w.stoppedByUser
  {
    var local := Loaded(w.d, w.d.cfg.endpoints, op.slug, op.readable);
    StopSucceedsIff(w.d, w.d.cfg, op.slug, local, false, true, op.stopIO);
    StopEffect(w.d, w.d.cfg, op.slug, local, false, true, op.stopIO);
    WithoutIsRemoval(w.d.cfg.resume, op.slug);
  }

  predicate StoppedIn(m: map<string, Endpoint>, s: string) { s in m ==> m[s].stopped }

  lemma StopSpares(d: Disk, cfg: Config, slug: string, local: Endpoint, io: StopIO, s: string)
    requires d.cfg.resume == cfg.resume
    requires StoppedIn(d.files, s) && StoppedIn(d.cfg.endpoints, s) && StoppedIn(cfg.endpoints, s)
    ensures var (d1, eps, _) := Stopped(d, cfg, slug, local, true, true, io);
            && d1.cfg.resume == cfg.resume
            && StoppedIn(d1.files, s) && StoppedIn(d1.cfg.endpoints, s) && StoppedIn(eps, s)
  {
    var (d1, eps, _) := Stopped(d, cfg, slug, local, true, true, io);
    StopEffect(d, cfg, slug, local, true, true, io);
    StopWritesSpare(d, cfg, slug, local, d1, eps, s);
  }

  lemma StopWritesSpare(d: Disk, cfg: Config, slug: string, local: Endpoint, d1: Disk, eps: map<string, Endpoint>,
                        s: string)
    requires StopWrites(d, cfg, slug, local, cfg.resume, d1, eps) && d.cfg.resume == cfg.resume
    requires StoppedIn(d.files, s) && StoppedIn(d.cfg.endpoints, s) && StoppedIn(cfg.endpoints, s)
    ensures d1.cfg.resume == cfg.resume
    ensures StoppedIn(d1.files, s) && StoppedIn(d1.cfg.endpoints, s) && StoppedIn(eps, s)
  {
  }

  // ---------- what the loops of an update do ----------

  /** The stopping loop of prepare-update keeps the resume list it was given, and an endpoint that is
      stopped wherever it is saved stays so. */
  lemma {:induction false} AllStoppedSpares(d: Disk, cfg: Config, order: seq<string>, io: PrepareIO, s: string)
    requires forall x :: x in order ==> x in cfg.endpoints
    requires d.cfg.resume == cfg.resume
    requires StoppedIn(d.files, s) && StoppedIn(d.cfg.endpoints, s) && StoppedIn(cfg.endpoints, s)
    ensures var d1 := AllStopped(d, cfg, order, io).0;
            d1.cfg.resume == cfg.resume && StoppedIn(d1.files, s) && StoppedIn(d1.cfg.endpoints, s)
    decreases |order|
  {
    if order != [] {
      var slug, d0 := order[0], After(d, io.beforeStop(order[0]));
      var local := Loaded(d0, cfg.endpoints, slug, slug in io.readableAgain);
      var (d1, eps, reply) := Stopped(d0, cfg, slug, local, true, true, io.stops(slug));
      StopSpares(d0, cfg, slug, local, io.stops(slug), s);
      if reply.StopDone? && !reply.memoryPending {
        AllStoppedSpares(d1, cfg.(endpoints := eps), order[1..], io, s);
      }
    }
  }

  /** The first loop: it writes nothing itself, loads every endpoint once, and notes those that were
      sharing when it loaded them. */
  lemma {:induction false} CollectedNotes(d: Disk, cfg: Config, order: seq<string>, io: PrepareIO, s: string)
    requires forall x :: x in order ==> x in cfg.endpoints
    requires forall i, j :: 0 <= i < j < |order| ==> order[i] != order[j]
    ensures var (d1, resume, noted) := Collected(d, cfg, order, io);
            && d1.cfg == d.cfg && OnlyStops(d.files, d1.files)
            && (s in order <==> s in noted)
            && (s in resume <==> s in cfg.resume
                                 || (s in order && Sharing(Loaded(noted[s], cfg.endpoints, s, s in io.readable))))
    decreases |order|
  {
    if order != [] {
      var last := |order| - 1;
      CollectedNotes(d, cfg, order[..last], io, s);
      assert order == order[..last] + [order[last]];
      assert order[last] !in order[..last];
    }
  }

  predicate Sharing(e: Endpoint) { !e.stopped && !e.revoked }

  /** The finish loop leaves endpoints alone that are not on its list. */
  lemma TurnSpares(d: Disk, cfg: Config, i: nat, io: FinishIO, s: string)
    requires i < |cfg.resume| && s !in cfg.resume && StoppedIn(d.files, s) && StoppedIn(cfg.endpoints, s)
    ensures var t := ResumeOne(d, cfg, i, io);
            t.d.cfg == d.cfg && StoppedIn(t.d.files, s) && StoppedIn(t.cfg.endpoints, s)
  {
  }

  lemma {:induction false} FinishSpares(d: Disk, cfg: Config, i: nat, io: FinishIO, installs: seq<string>,
                                        loads: map<string, Disk>, s: string)
    requires s !in cfg.resume && s !in installs && StoppedIn(d.files, s) && StoppedIn(cfg.endpoints, s)
    ensures var f := ResumedFrom(d, cfg, i, io, installs, loads);
            && f.d.cfg == d.cfg && f.cfg.resume == cfg.resume && s !in f.installs
            && StoppedIn(f.d.files, s) && StoppedIn(f.cfg.endpoints, s)
    decreases |cfg.resume| - i
  {
    if i < |cfg.resume| {
      var slug, t := cfg.resume[i], ResumeOne(d, cfg, i, io);
      TurnSpares(d, cfg, i, io, s);
      assert slug in cfg.resume;
      if t.ok {
        FinishSpares(t.d, t.cfg, i + 1, io, if t.installed then installs + [slug] else installs,
                     Seen(loads, slug, t.load), s);
      }
    }
  }

  // ---------- explicit Stop wins ----------

  /** An endpoint the user stopped is in no resume list and is stopped wherever it is saved. */
  predicate UserStopsHold(w: World) {
    forall s :: s in w.stoppedByUser ==> UserStopHolds(w, s)
  }

  predicate UserStopHolds(w: World, s: string) {
    s !in w.d.cfg.resume && StoppedIn(w.d.files, s) && StoppedIn(w.d.cfg.endpoints, s)
  }

  /** An endpoint that is stopped wherever it is saved is stopped when the first loop loads it. */
  lemma {:induction false} NotedStaysStopped(d: Disk, cfg: Config, order: seq<string>, io: PrepareIO, s: string)
    requires forall x :: x in order ==> x in cfg.endpoints
    requires StoppedIn(d.files, s) && StoppedIn(cfg.endpoints, s)
    ensures var (d1, resume, _) := Collected(d, cfg, order, io);
            d1.cfg == d.cfg && StoppedIn(d1.files, s) && (s in resume <==> s in cfg.resume)
    decreases |order|
  {
    if order != [] {
      NotedStaysStopped(d, cfg, order[..|order| - 1], io, s);
    }
  }

  lemma PrepareKeepsUserStops(w: World, op: Op)
    requires UserStopsHold(w) && Possible(w, op) && op.Prepare?
    ensures UserStopsHold(Next(w, op))
  {
    var d, io, v := w.d, op.prepareIO, Next(w, op);
    var (d0, resume, _) := Collected(d, d.cfg, op.first, io);
    var cfg := d.cfg.(resume := resume);
    forall s | s in w.stoppedByUser ensures UserStopHolds(v, s) {
      NotedStaysStopped(d, d.cfg, op.first, io, s);
      AllStoppedSpares(d0.(cfg := cfg), cfg, op.second, io, s);
    }
  }

  lemma StopWritesKeepUserStops(w: World, slug: string, local: Endpoint, d1: Disk, eps: map<string, Endpoint>)
    requires UserStopsHold(w) && StopWrites(w.d, w.d.cfg, slug, local, Without(w.d.cfg.resume, slug), d1, eps)
    ensures UserStopsHold(w.(d := d1))
  {
    WithoutIsRemoval(w.d.cfg.resume, slug);
  }

  lemma StopKeepsUserStops(w: World, op: Op)
    requires UserStopsHold(w) && Possible(w, op) && op.Stop?
    ensures UserStopsHold(Next(w, op))
  {
    var local := Loaded(w.d, w.d.cfg.endpoints, op.slug, op.readable);
    var (d1, eps, reply) := StopOf(w, op);
    StopEffect(w.d, w.d.cfg, op.slug, local, false, true, op.stopIO);
    StopWritesKeepUserStops(w, op.slug, local, d1, eps);
    WithoutIsRemoval(w.d.cfg.resume, op.slug);
  }

  /** A resume writes the settings only when it reports success, with an endpoint that shares. One
      that changed nothing, or undid its change, leaves an endpoint stopped that was stopped. */
  lemma ResumeOutcome(d: Disk, slug: string, io: ResumeIO)
    ensures var (d1, reply) := ResumedBy(d, slug, io);
            && (!reply.Resumed? ==> d1.cfg == d.cfg)
            && (reply.Resumed? ==>
                  && slug in d1.files && d1.cfg == d.cfg.(endpoints := d.cfg.endpoints[slug := d1.files[slug]])
                  && Sharing(d1.files[slug]) && !d1.files[slug].memoryPending)
            && d.files.Keys <= d1.files.Keys
            && (forall s :: s in d1.files && s != slug ==>
                  d1.files[s].stopped || (s in d.files && d1.files[s] == d.files[s]))
            && ((reply.Untouched? || reply.Restored?) && slug in d1.files ==>
                  d1.files[slug].stopped || (slug in d.files && d1.files[slug] == d.files[slug])
                  || (slug in d.cfg.endpoints && d1.files[slug] == d.cfg.endpoints[slug]))
  {
  }

  /** Exactly how a resume ends. It succeeds if and only if the endpoint is known, is not found revoked,
      and its file, the service and the settings all follow; one that cannot be tried changes nothing;
      and one whose service does not start puts the file back, if that works. */
  lemma ResumeDecides(d: Disk, slug: string, io: ResumeIO)
    ensures var (d1, reply) := ResumedBy(d, slug, io);
            var tried := slug in d.cfg.endpoints && !Loaded(d, d.cfg.endpoints, slug, io.readable).revoked
                         && io.saveFile;
            && (reply.Resumed? <==> tried && io.install && io.saveConfig)
            && (reply.Untouched? <==> !tried) && (reply.Untouched? ==> d1 == d)
            && (reply.Restored? <==> tried && !io.install && io.restore)
            && (reply.Restored? ==>
                  && slug in d1.files && d1.files[slug] == Loaded(d, d.cfg.endpoints, slug, io.readable)
                  && d1.cfg == d.cfg)
            && (reply.Resumed? ==> slug in d1.files && d1.files[slug].managed
                                     == Loaded(d, d.cfg.endpoints, slug, io.readable).managed)
  {
  }

  /** What a revoked agent leaves when its file can be saved: the endpoint stopped and revoked, with
      memory pending exactly for a managed runtime whose unload was not confirmed and saved; the
      settings and other files are not its own to write. */
  lemma RevocationIsWritten(d: Disk, slug: string, managed: bool, io: RevokeIO)
    requires io.save
    ensures var d1 := RevokedBy(d, slug, managed, io);
            && slug in d1.files && slug in d1.revoked && slug in d1.late
            && d1.files[slug] == Endpoint(managed, true, managed && !(io.unload && io.saveReleased), true)
            && d1.cfg == d.cfg && forall s :: s != slug ==> (s in d1.files <==> s in d.files)
    ensures forall s :: s in d.files && s != slug ==> RevokedBy(d, slug, managed, io).files[s] == d.files[s]
  {
  }

  lemma UserStopsStep(w: World, op: Op)
    requires UserStopsHold(w) && Possible(w, op)
    ensures UserStopsHold(Next(w, op))
  {
    match op
    case Stop(_, _, _) => StopKeepsUserStops(w, op);
    case Resume(slug, io) => ResumeOutcome(w.d, slug, io);
    case Revoke(_, _, _) =>
    case Prepare(_, _, _) => PrepareKeepsUserStops(w, op);
    case Finish(io) =>
      forall s | s in w.stoppedByUser ensures UserStopHolds(Next(w, op), s) {
        FinishSpares(w.d, w.d.cfg, 0, io, [], map[], s);
      }
  }

  lemma {:induction false} RunKeepsUserStops(w: World, ops: seq<Op>, v: World)
    requires UserStopsHold(w) && Exec(w, ops) == Some(v)
    ensures UserStopsHold(v)
  {
    if ops != [] {
      var last := |ops| - 1;
      var before := Exec(w, ops[..last]).value;
      RunKeepsUserStops(w, ops[..last], before);
      UserStopsStep(before, ops[last]);
    }
  }

  /** Explicit Stop wins: over any sequence of operations from any saved state, with any failures and
      with agents writing at any moment, no endpoint whose latest effective stop or resume was a
      successful explicit Stop waits for an update, and finish-update restarts none of them. */
  lemma ExplicitStopWins(d: Disk, ops: seq<Op>, w: World, io: FinishIO)
    requires Exec(World(d, {}), ops) == Some(w)
    ensures forall s :: s in w.stoppedByUser ==> s !in w.d.cfg.resume
    ensures forall s :: s in FinishedBy(w.d, io).installs ==> s !in w.stoppedByUser
  {
    RunKeepsUserStops(World(d, {}), ops, w);
    forall s | s in w.stoppedByUser ensures s !in FinishedBy(w.d, io).installs {
      assert UserStopHolds(w, s);
      FinishSpares(w.d, w.d.cfg, 0, io, [], map[], s);
    }
  }

  /** The resume list a stop saves is the one it was called with, less its own endpoint if it is an
      explicit one, whatever the disk held when it saved. */
  lemma StopSavesItsOwnList(d: Disk, loaded: Config, slug: string, local: Endpoint, preserve: bool, io: StopIO,
                            s: string)
    requires Stopped(d, loaded, slug, local, preserve, true, io).2.StopDone?
    ensures s in Stopped(d, loaded, slug, local, preserve, true, io).0.cfg.resume
       <==> s in loaded.resume && (preserve || s != slug)
  {
    StopEffect(d, loaded, slug, local, preserve, true, io);
    WithoutIsRemoval(loaded.resume, slug);
  }

  /** So explicit stops must each reload the settings, as stop_all does. Two successful stops
      that share one loaded value, as in the loop of _uninstall, put the first endpoint back
      into the saved resume list if (and only if) it was waiting for an update. */
  lemma SharedSettingsReviveAResume(d: Disk, a: string, b: string, x: Endpoint, y: Endpoint, io: StopIO, io': StopIO)
    requires a != b
    requires var (d1, eps, reply) := Stopped(d, d.cfg, a, x, false, true, io);
             && reply.StopDone?
             && Stopped(d1, d.cfg.(endpoints := eps), b, y, false, true, io').2.StopDone?
    ensures var (d1, eps, _) := Stopped(d, d.cfg, a, x, false, true, io);
            var d2 := Stopped(d1, d.cfg.(endpoints := eps), b, y, false, true, io').0;
            a !in d1.cfg.resume && (a in d2.cfg.resume <==> a in d.cfg.resume)
  {
    var (d1, eps, _) := Stopped(d, d.cfg, a, x, false, true, io);
    StopSavesItsOwnList(d, d.cfg, a, x, false, io, a);
    StopSavesItsOwnList(d1, d.cfg.(endpoints := eps), b, y, false, io', a);
  }

  /** And they must not overlap an update: an explicit stop by another process that succeeds inside a
      prepare-update is undone by the next stop of its loop if and only if prepare-update has the
      endpoint on its own list. */
  lemma OverlappingStopIsUndone(d: Disk, prepare: Config, a: string, b: string, x: Endpoint, y: Endpoint,
                                io: StopIO, io': StopIO)
    requires Stopped(d, d.cfg, a, x, false, true, io).2.StopDone?
    requires Stopped(Stopped(d, d.cfg, a, x, false, true, io).0, prepare, b, y, true, true, io').2.StopDone?
    ensures var d1 := Stopped(d, d.cfg, a, x, false, true, io).0;
            var d2 := Stopped(d1, prepare, b, y, true, true, io').0;
            a !in d1.cfg.resume && (a in d2.cfg.resume <==> a in prepare.resume)
  {
    StopSavesItsOwnList(d, d.cfg, a, x, false, io, a);
    StopSavesItsOwnList(Stopped(d, d.cfg, a, x, false, true, io).0, prepare, b, y, true, io', a);
  }

  // ---------- revocation: operations that write over none ----------

  /** A revocation that was written is on its file. */
  predicate Safe(d: Disk, s: string) { s in d.revoked ==> s in d.files && d.files[s].revoked }

  /** A stop cannot write over a revocation: it knows of it, or there is none until its last save. */
  predicate CarefulStop(d: Disk, slug: string, local: Endpoint, io: StopIO) {
    local.revoked
    || (slug !in d.revoked && slug !in io.beforeMark && slug !in io.beforeSave && slug !in io.beforeRelease)
  }

  lemma SavedKeepsSafe(d: Disk, wrote: Revocations, cfg: Config, slug: string, e: Endpoint, file: bool, config: bool,
                       s: string)
    requires Safe(d, s) && (s == slug && !e.revoked ==> s !in d.revoked && s !in wrote)
    ensures var d1 := Saved(After(d, wrote), cfg, slug, e, file, config).0;
            Safe(d1, s) && d1.revoked == d.revoked + wrote.Keys
  {
  }

  lemma StopKeepsSafe(d: Disk, loaded: Config, slug: string, local: Endpoint, preserve: bool, io: StopIO, s: string)
    requires Safe(d, s) && (s == slug ==> CarefulStop(d, slug, local, io))
    ensures Safe(Stopped(d, loaded, slug, local, preserve, true, io).0, s)
  {
    var cfg, e := AfterStop(loaded, slug, preserve), Halted(local);
    SavedKeepsSafe(d, io.beforeMark, cfg, slug, e, io.markFile, io.markConfig, s);
    var (d1, eps, marked) := Marked(d, cfg, slug, e, io);
    assert d1 == Saved(After(d, io.beforeMark), cfg, slug, e, io.markFile, io.markConfig).0;
    if marked && io.service {
      SettledKeepsSafe(d1, cfg.(endpoints := eps), slug, e, io, s);
    }
  }

  lemma SettledKeepsSafe(d: Disk, cfg: Config, slug: string, e: Endpoint, io: StopIO, s: string)
    requires Safe(d, s)
    requires s == slug && !e.revoked ==> s !in d.revoked && s !in io.beforeSave && s !in io.beforeRelease
    ensures Safe(Settled(d, cfg, slug, e, io).0, s)
  {
    SavedKeepsSafe(d, io.beforeSave, cfg, slug, e, io.saveFile, io.saveConfig, s);
    var (d1, eps, saved) := Saved(After(d, io.beforeSave), cfg, slug, e, io.saveFile, io.saveConfig);
    if saved && e.memoryPending && io.unload {
      SavedKeepsSafe(d1, io.beforeRelease, cfg.(endpoints := eps), slug, e.(memoryPending := false), io.releaseFile,
                     io.releaseConfig, s);
    }
  }

  /** No operation writes over a revocation it has not seen. */
  predicate Careful(d: Disk, op: Op)
    requires Possible(World(d, {}), op)
  {
    match op
    case Stop(slug, readable, io) => CarefulStop(d, slug, Loaded(d, d.cfg.endpoints, slug, readable), io)
    case Resume(slug, io) =>
      slug in d.cfg.endpoints && !Loaded(d, d.cfg.endpoints, slug, io.readable).revoked ==>
        slug !in d.revoked && slug !in io.beforeSave && slug !in io.beforeUndo
    case Revoke(_, _, _) => true
    case Prepare(first, second, io) =>
      var stops := PreparedBy(d, first, second, io).stops;
      forall s :: s in second && s in stops ==>
        CarefulStop(stops[s], s, Loaded(stops[s], d.cfg.endpoints, s, s in io.readableAgain), io.stops(s))
    case Finish(io) => forall i :: 0 <= i < |d.cfg.resume| ==>
        d.cfg.resume[i] !in io.beforeSave(i) && d.cfg.resume[i] !in io.beforeUndo(i)
  }

  /** Other endpoints' entries of the shared map stay as they are. */
  lemma StopKeepsOthers(d: Disk, cfg: Config, slug: string, local: Endpoint, io: StopIO, s: string)
    requires s != slug
    ensures var eps := Stopped(d, cfg, slug, local, true, true, io).1;
            s in eps <==> s in cfg.endpoints
    ensures var eps := Stopped(d, cfg, slug, local, true, true, io).1;
            s in cfg.endpoints ==> eps[s] == cfg.endpoints[s]
  {
    StopEffect(d, cfg, slug, local, true, true, io);
  }

  lemma {:induction false} AllStoppedKeepsSafe(d: Disk, cfg: Config, order: seq<string>, io: PrepareIO, s: string)
    requires forall x :: x in order ==> x in cfg.endpoints
    requires forall i, j :: 0 <= i < j < |order| ==> order[i] != order[j]
    requires Safe(d, s)
    requires var stops := AllStopped(d, cfg, order, io).2;
             s in order && s in stops ==>
               CarefulStop(stops[s], s, Loaded(stops[s], cfg.endpoints, s, s in io.readableAgain), io.stops(s))
    ensures Safe(AllStopped(d, cfg, order, io).0, s)
    decreases |order|
  {
    if order != [] {
      var slug, d0 := order[0], After(d, io.beforeStop(order[0]));
      var local := Loaded(d0, cfg.endpoints, slug, slug in io.readableAgain);
      var (d1, eps, reply) := Stopped(d0, cfg, slug, local, true, true, io.stops(slug));
      RestIsOthers(order);
      StopKeepsSafe(d0, cfg, slug, local, true, io.stops(slug), s);
      if s != slug { StopKeepsOthers(d0, cfg, slug, local, io.stops(slug), s); }
      if reply.StopDone? && !reply.memoryPending {
        AllStoppedKeepsSafe(d1, cfg.(endpoints := eps), order[1..], io, s);
      }
    }
  }

  lemma RestIsOthers(order: seq<string>)
    requires order != [] && forall i, j :: 0 <= i < j < |order| ==> order[i] != order[j]
    ensures forall x :: x in order <==> x == order[0] || x in order[1..]
    ensures order[0] !in order[1..]
  {
    assert order == [order[0]] + order[1..];
  }

  lemma {:induction false} CollectedKeepsSafe(d: Disk, cfg: Config, order: seq<string>, io: PrepareIO, s: string)
    requires forall x :: x in order ==> x in cfg.endpoints
    requires Safe(d, s)
    ensures Safe(Collected(d, cfg, order, io).0, s)
    decreases |order|
  {
    if order != [] {
      CollectedKeepsSafe(d, cfg, order[..|order| - 1], io, s);
    }
  }

  lemma OtherTurnKeepsSafe(d: Disk, cfg: Config, i: nat, io: FinishIO, s: string)
    requires i < |cfg.resume| && cfg.resume[i] != s && Safe(d, s)
    ensures Safe(ResumeOne(d, cfg, i, io).d, s)
  {
  }

  lemma OwnTurnKeepsSafe(d: Disk, cfg: Config, i: nat, io: FinishIO, s: string)
    requires i < |cfg.resume| && cfg.resume[i] == s && Safe(d, s)
    requires s !in io.beforeSave(i) && s !in io.beforeUndo(i)
    ensures Safe(ResumeOne(d, cfg, i, io).d, s)
  {
  }

  lemma {:induction false} ResumedKeepsSafe(d: Disk, cfg: Config, i: nat, io: FinishIO, installs: seq<string>,
                                            loads: map<string, Disk>, s: string)
    requires Safe(d, s)
    requires forall j :: i <= j < |cfg.resume| && cfg.resume[j] == s ==>
                           s !in io.beforeSave(j) && s !in io.beforeUndo(j)
    ensures Safe(ResumedFrom(d, cfg, i, io, installs, loads).d, s)
    decreases |cfg.resume| - i
  {
    if i < |cfg.resume| {
      var slug, t := cfg.resume[i], ResumeOne(d, cfg, i, io);
      if slug != s { OtherTurnKeepsSafe(d, cfg, i, io, s); } else { OwnTurnKeepsSafe(d, cfg, i, io, s); }
      if t.ok {
        ResumedKeepsSafe(t.d, t.cfg, i + 1, io, if t.installed then installs + [slug] else installs,
                         Seen(loads, slug, t.load), s);
      }
    }
  }

  predicate FileRevoked(d: Disk, s: string) { s in d.files && d.files[s].revoked }

  /** One turn of the finish loop leaves a file that says revoked, and installs no such endpoint. */
  lemma OtherTurnSparesRevoked(d: Disk, cfg: Config, i: nat, io: FinishIO, s: string)
    requires i < |cfg.resume| && cfg.resume[i] != s && FileRevoked(d, s)
    ensures FileRevoked(ResumeOne(d, cfg, i, io).d, s)
  {
    var slug, d0 := cfg.resume[i], After(d, io.beforeLoad(i));
    if slug in cfg.endpoints && slug in d0.files && !d0.files[slug].revoked {
      var d1 := After(d0, io.beforeSave(i));
      var e := d0.files[slug].(stopped := false);
      assert FileRevoked(d1, s);
      var d2 := WithFile(d1, slug, e);
      assert FileRevoked(d2, s);
      assert FileRevoked(After(d2, io.beforeUndo(i)), s);
    }
  }

  lemma OwnTurnSparesRevoked(d: Disk, cfg: Config, i: nat, io: FinishIO, s: string)
    requires i < |cfg.resume| && cfg.resume[i] == s
    ensures var t := ResumeOne(d, cfg, i, io);
            && (FileRevoked(d, s) ==> FileRevoked(t.d, s) && !t.installed)
            && (t.load.Some? && t.ok && !t.installed ==> FileRevoked(t.d, s))
  {
  }

  /** Until it has loaded an endpoint the finish loop writes over no revocation of it. */
  lemma TurnKeepsUnloadedSafe(d: Disk, cfg: Config, i: nat, io: FinishIO, s: string)
    requires i < |cfg.resume| && cfg.resume[i] == s && Safe(d, s)
    ensures var t := ResumeOne(d, cfg, i, io);
            if t.load.Some? then Safe(t.load.value, s) else Safe(t.d, s) && !t.installed
  {
  }

  /** The services the finish loop installs are of endpoints on its list that it has loaded. */
  lemma {:induction false} InstalledIsListed(d: Disk, cfg: Config, i: nat, io: FinishIO, installs: seq<string>,
                                             loads: map<string, Disk>, s: string)
    requires s in installs ==> s in cfg.resume && s in loads
    ensures var f := ResumedFrom(d, cfg, i, io, installs, loads);
            s in f.installs ==> s in cfg.resume && s in f.loads
    decreases |cfg.resume| - i
  {
    if i < |cfg.resume| {
      var slug, t := cfg.resume[i], ResumeOne(d, cfg, i, io);
      if t.ok {
        InstalledIsListed(t.d, t.cfg, i + 1, io, if t.installed then installs + [slug] else installs,
                          Seen(loads, slug, t.load), s);
      }
    }
  }

  /** If revocations are on their files when it starts, they are of none that had been revoked when it
      loaded it. */
  lemma {:induction false} InstalledWasNotRevoked(d: Disk, cfg: Config, i: nat, io: FinishIO, installs: seq<string>,
                                                  loads: map<string, Disk>, s: string)
    requires s in installs ==> s in loads && s !in loads[s].revoked
    requires s in loads && s !in installs ==> FileRevoked(d, s)
    requires s !in loads ==> Safe(d, s)
    ensures var f := ResumedFrom(d, cfg, i, io, installs, loads);
            s in f.installs ==> s in f.loads && s !in f.loads[s].revoked
    decreases |cfg.resume| - i
  {
    if i < |cfg.resume| {
      var slug, t := cfg.resume[i], ResumeOne(d, cfg, i, io);
      if slug == s { OwnTurnSparesRevoked(d, cfg, i, io, s); }
      if slug != s && FileRevoked(d, s) { OtherTurnSparesRevoked(d, cfg, i, io, s); }
      if slug != s && s !in loads { OtherTurnKeepsSafe(d, cfg, i, io, s); }
      if slug == s && s !in loads { TurnKeepsUnloadedSafe(d, cfg, i, io, s); }
      if t.ok {
        InstalledWasNotRevoked(t.d, t.cfg, i + 1, io, if t.installed then installs + [slug] else installs,
                               Seen(loads, slug, t.load), s);
      }
    }
  }

  lemma PreparedKeepsSafe(d: Disk, first: seq<string>, second: seq<string>, io: PrepareIO, s: string)
    requires Covers(first, d.cfg.endpoints) && Covers(second, d.cfg.endpoints) && Safe(d, s)
    requires var stops := PreparedBy(d, first, second, io).stops;
             s in second && s in stops ==>
               CarefulStop(stops[s], s, Loaded(stops[s], d.cfg.endpoints, s, s in io.readableAgain), io.stops(s))
    ensures Safe(PreparedBy(d, first, second, io).d, s)
  {
    var (d0, resume, _) := Collected(d, d.cfg, first, io);
    var cfg := d.cfg.(resume := resume);
    CollectedKeepsSafe(d, d.cfg, first, io, s);
    if io.saveConfig {
      AllStoppedKeepsSafe(d0.(cfg := cfg), cfg, second, io, s);
    }
  }

  lemma SafeStep(w: World, op: Op, s: string)
    requires Possible(w, op) && Careful(w.d, op) && Safe(w.d, s)
    ensures Safe(Next(w, op).d, s)
  {
    match op
    case Stop(slug, readable, io) =>
      StopKeepsSafe(w.d, w.d.cfg, slug, Loaded(w.d, w.d.cfg.endpoints, slug, readable), false, io, s);
    case Resume(_, _) =>
    case Revoke(_, _, _) =>
    case Prepare(first, second, io) => PreparedKeepsSafe(w.d, first, second, io, s);
    case Finish(io) => ResumedKeepsSafe(w.d, w.d.cfg, 0, io, [], map[], s);
  }

  /** Runs in which no operation writes over a revocation it has not seen. */
  function ExecCareful(w: World, ops: seq<Op>): Option<World> {
    if ops == [] then Some(w)
    else
      var last := |ops| - 1;
      match ExecCareful(w, ops[..last])
      case None => None
      case Some(v) => if Possible(v, ops[last]) && Careful(v.d, ops[last]) then Some(Next(v, ops[last])) else None
  }

  lemma {:induction false} CarefulRunKeepsSafe(w: World, ops: seq<Op>, v: World, s: string)
    requires Safe(w.d, s) && ExecCareful(w, ops) == Some(v)
    ensures Safe(v.d, s)
  {
    if ops != [] {
      var last := |ops| - 1;
      var before := ExecCareful(w, ops[..last]).value;
      CarefulRunKeepsSafe(w, ops[..last], before, s);
      SafeStep(before, ops[last], s);
    }
  }

  /** A revoked endpoint is never restarted by finish-update: after any run in which no operation writes
      over a revocation it has not seen, and whatever fails in finish-update itself, each service that is
      installed belongs to an endpoint that had not been revoked when the loop loaded it. */
  lemma RevokedIsNeverRestarted(d: Disk, ops: seq<Op>, w: World, io: FinishIO)
    requires d.revoked == {} && ExecCareful(World(d, {}), ops) == Some(w)
    ensures var f := FinishedBy(w.d, io);
            forall s :: s in f.installs ==> s in f.loads && s !in f.loads[s].revoked
  {
    var f := FinishedBy(w.d, io);
    forall s | s in f.installs ensures s in f.loads && s !in f.loads[s].revoked {
      CarefulRunKeepsSafe(World(d, {}), ops, w, s);
      InstalledWasNotRevoked(w.d, w.d.cfg, 0, io, [], map[], s);
    }
  }

  lemma {:induction false} AllStoppedKeepsList(d: Disk, cfg: Config, order: seq<string>, io: PrepareIO)
    requires d.cfg.resume == cfg.resume && forall x :: x in order ==> x in cfg.endpoints
    ensures AllStopped(d, cfg, order, io).0.cfg.resume == cfg.resume
    decreases |order|
  {
    if order != [] {
      var slug, d0 := order[0], After(d, io.beforeStop(order[0]));
      var local := Loaded(d0, cfg.endpoints, slug, slug in io.readableAgain);
      var (d1, eps, reply) := Stopped(d0, cfg, slug, local, true, true, io.stops(slug));
      StopEffect(d0, cfg, slug, local, true, true, io.stops(slug));
      if reply.StopDone? && !reply.memoryPending {
        AllStoppedKeepsList(d1, cfg.(endpoints := eps), order[1..], io);
      }
    }
  }

  lemma PreparedIsListed(d: Disk, first: seq<string>, second: seq<string>, io: PrepareIO, s: string)
    requires Covers(first, d.cfg.endpoints) && Covers(second, d.cfg.endpoints) && s in d.cfg.endpoints
    ensures var p := PreparedBy(d, first, second, io);
            && s in p.noted
            && (s in p.d.cfg.resume ==>
                  s in d.cfg.resume || Sharing(Loaded(p.noted[s], d.cfg.endpoints, s, s in io.readable)))
  {
    var (d0, resume, _) := Collected(d, d.cfg, first, io);
    var cfg := d.cfg.(resume := resume);
    CollectedNotes(d, d.cfg, first, io, s);
    if io.saveConfig {
      AllStoppedKeepsList(d0.(cfg := cfg), cfg, second, io);
    }
  }

  /** Whatever fails and whenever agents are revoked, an endpoint that an update restarts was waiting
      already or was sharing when the first loop loaded it; and if it had been revoked by the time
      finish-update loaded it, then the second loop had loaded it as not revoked. */
  lemma RevokedIsRestartedOnlyIf(d: Disk, first: seq<string>, second: seq<string>, prepare: PrepareIO,
                                 between: Revocations, finish: FinishIO, s: string)
    requires Covers(first, d.cfg.endpoints) && Covers(second, d.cfg.endpoints)
    requires s in d.cfg.endpoints && Safe(d, s)
    requires s in FinishedBy(After(PreparedBy(d, first, second, prepare).d, between), finish).installs
    ensures var p := PreparedBy(d, first, second, prepare);
            var f := FinishedBy(After(p.d, between), finish);
            && s in p.noted && s in f.loads
            && (s in d.cfg.resume || Sharing(Loaded(p.noted[s], d.cfg.endpoints, s, s in prepare.readable)))
            && (s in f.loads[s].revoked ==>
                  s in p.stops && !Loaded(p.stops[s], d.cfg.endpoints, s, s in prepare.readableAgain).revoked)
  {
    var p := PreparedBy(d, first, second, prepare);
    var d1 := After(p.d, between);
    PreparedIsListed(d, first, second, prepare, s);
    InstalledIsListed(d1, d1.cfg, 0, finish, [], map[], s);
    if s !in p.stops || Loaded(p.stops[s], d.cfg.endpoints, s, s in prepare.readableAgain).revoked {
      PreparedKeepsSafe(d, first, second, prepare, s);
      InstalledWasNotRevoked(d1, d1.cfg, 0, finish, [], map[], s);
    }
  }

  // ---------- updates in which every write and command succeeds ----------

  /** Every write and command of a stop succeeds. */
  predicate StopSucceeds(io: StopIO) {
    && io.markFile && io.markConfig && io.service && io.saveFile && io.saveConfig
    && io.unload && io.releaseFile && io.releaseConfig
  }

  /** Every write and command of a prepare-update succeeds; which files it can read is open. */
  ghost predicate PrepareWrites(io: PrepareIO) {
    io.saveConfig && io.runtime && io.interface && forall s :: StopSucceeds(io.stops(s))
  }

  ghost predicate FinishSucceeds(io: FinishIO) {
    io.saveConfig && forall i: nat :: io.readable(i) && io.save(i) && io.install(i)
  }

  /** The file of `s` holds `e`, unless its agent has been revoked since an operation wrote it. */
  predicate FileIs(d: Disk, s: string, e: Endpoint) {
    s in d.files && if s in d.late then d.files[s].revoked && s in d.revoked else d.files[s] == e
  }

  lemma SavedKeepsFile(d: Disk, wrote: Revocations, cfg: Config, slug: string, e: Endpoint, file: bool, config: bool,
                       s: string, x: Endpoint)
    requires FileIs(d, s, x) && s != slug
    ensures FileIs(Saved(After(d, wrote), cfg, slug, e, file, config).0, s, x)
  {
  }

  /** A stop of another endpoint leaves the file of `s` to its agent. */
  lemma StopKeepsFile(d: Disk, loaded: Config, slug: string, local: Endpoint, io: StopIO, s: string, x: Endpoint)
    requires FileIs(d, s, x) && s != slug
    ensures FileIs(Stopped(d, loaded, slug, local, true, true, io).0, s, x)
  {
    var e := Halted(local);
    SavedKeepsFile(d, io.beforeMark, loaded, slug, e, io.markFile, io.markConfig, s, x);
    var (d1, eps, marked) := Marked(d, loaded, slug, e, io);
    assert d1 == Saved(After(d, io.beforeMark), loaded, slug, e, io.markFile, io.markConfig).0;
    if marked && io.service {
      var cfg := loaded.(endpoints := eps);
      SavedKeepsFile(d1, io.beforeSave, cfg, slug, e, io.saveFile, io.saveConfig, s, x);
      var (d2, eps2, saved) := Saved(After(d1, io.beforeSave), cfg, slug, e, io.saveFile, io.saveConfig);
      if saved && e.memoryPending && io.unload {
        SavedKeepsFile(d2, io.beforeRelease, cfg.(endpoints := eps2), slug, e.(memoryPending := false), io.releaseFile,
                       io.releaseConfig, s, x);
      }
    }
  }

  lemma StopKeepsRecord(d: Disk, loaded: Config, slug: string, local: Endpoint, io: StopIO)
    ensures d.revoked <= Stopped(d, loaded, slug, local, true, true, io).0.revoked
  {
  }

  lemma StopWorks(d: Disk, cfg: Config, slug: string, local: Endpoint, io: StopIO)
    requires StopSucceeds(io)
    ensures Stopped(d, cfg, slug, local, true, true, io).2 == StopDone(false)
  {
    StopSucceedsIff(d, cfg, slug, local, true, true, io);
    StopEffect(d, cfg, slug, local, true, true, io);
  }

  /** The endpoint as the second loop of prepare-update leaves it. */
  function StoppedCopy(e: Endpoint): Endpoint { e.(stopped := true, memoryPending := false) }

  /** One turn of the stopping loop without failing writes or commands. */
  lemma FirstIsStopped(d: Disk, cfg: Config, order: seq<string>, io: PrepareIO)
    requires order != [] && order[0] in cfg.endpoints && StopSucceeds(io.stops(order[0]))
    ensures var slug, d0 := order[0], After(d, io.beforeStop(order[0]));
            var local := Loaded(d0, cfg.endpoints, slug, slug in io.readableAgain);
            var (d1, eps, reply) := Stopped(d0, cfg, slug, local, true, true, io.stops(slug));
            && reply == StopDone(false) && d1.cfg == cfg.(endpoints := eps)
            && eps.Keys == cfg.endpoints.Keys && d.files.Keys + {slug} <= d1.files.Keys
            && FileIs(d1, slug, StoppedCopy(local)) && d0.revoked <= d1.revoked
  {
    var slug, d0 := order[0], After(d, io.beforeStop(order[0]));
    var local := Loaded(d0, cfg.endpoints, slug, slug in io.readableAgain);
    StopWorks(d0, cfg, slug, local, io.stops(slug));
    StopEffect(d0, cfg, slug, local, true, true, io.stops(slug));
    StopKeepsRecord(d0, cfg, slug, local, io.stops(slug));
  }

  /** The stopping loop without failing writes or commands reaches its end with every endpoint saved. */
  lemma {:induction false} AllStoppedSucceeds(d: Disk, cfg: Config, order: seq<string>, io: PrepareIO)
    requires forall x :: x in order ==> x in cfg.endpoints
    requires d.cfg == cfg && forall x :: StopSucceeds(io.stops(x))
    ensures var (d1, ok, _) := AllStopped(d, cfg, order, io);
            && ok && d1.cfg.resume == cfg.resume && d1.cfg.endpoints.Keys == cfg.endpoints.Keys
            && d.files.Keys <= d1.files.Keys && forall x :: x in order ==> x in d1.files
    decreases |order|
  {
    if order != [] {
      var slug, d0 := order[0], After(d, io.beforeStop(order[0]));
      var local := Loaded(d0, cfg.endpoints, slug, slug in io.readableAgain);
      var (d1, eps, _) := Stopped(d0, cfg, slug, local, true, true, io.stops(slug));
      FirstIsStopped(d, cfg, order, io);
      AllStoppedSucceeds(d1, cfg.(endpoints := eps), order[1..], io);
    }
  }

  /** Whichever files it can read and whatever agents write, the file of `s` ends as a stopped copy of
      what that loop loaded, unless its agent is revoked after the loop's last write. */
  lemma {:induction false} AllStoppedWorks(d: Disk, cfg: Config, order: seq<string>, io: PrepareIO, s: string)
    requires forall x :: x in order ==> x in cfg.endpoints
    requires forall i, j :: 0 <= i < j < |order| ==> order[i] != order[j]
    requires d.cfg == cfg && s in order && forall x :: StopSucceeds(io.stops(x))
    ensures var (d1, _, stops) := AllStopped(d, cfg, order, io);
            && s in stops && stops[s].revoked <= d1.revoked
            && FileIs(d1, s, StoppedCopy(Loaded(stops[s], cfg.endpoints, s, s in io.readableAgain)))
    decreases |order|
  {
    var slug, d0 := order[0], After(d, io.beforeStop(order[0]));
    var local := Loaded(d0, cfg.endpoints, slug, slug in io.readableAgain);
    var (d1, eps, _) := Stopped(d0, cfg, slug, local, true, true, io.stops(slug));
    FirstIsStopped(d, cfg, order, io);
    RestIsOthers(order);
    if s == slug {
      OthersKeepFile(d1, cfg.(endpoints := eps), order[1..], io, s, StoppedCopy(local));
    } else {
      AllStoppedWorks(d1, cfg.(endpoints := eps), order[1..], io, s);
      StopKeepsOthers(d0, cfg, slug, local, io.stops(slug), s);
    }
  }

  lemma {:induction false} OthersKeepFile(d: Disk, cfg: Config, order: seq<string>, io: PrepareIO, s: string,
                                          x: Endpoint)
    requires s !in order && forall y :: y in order ==> y in cfg.endpoints
    requires FileIs(d, s, x)
    ensures var d1 := AllStopped(d, cfg, order, io).0; FileIs(d1, s, x) && d.revoked <= d1.revoked
    decreases |order|
  {
    if order != [] {
      var slug, d0 := order[0], After(d, io.beforeStop(order[0]));
      var local := Loaded(d0, cfg.endpoints, slug, slug in io.readableAgain);
      var (d1, eps, reply) := Stopped(d0, cfg, slug, local, true, true, io.stops(slug));
      StopKeepsFile(d0, cfg, slug, local, io.stops(slug), s, x);
      StopKeepsRecord(d0, cfg, slug, local, io.stops(slug));
      if reply.StopDone? && !reply.memoryPending {
        OthersKeepFile(d1, cfg.(endpoints := eps), order[1..], io, s, x);
      }
    }
  }

  /** The settings have `s` stopped with its memory released, and so has its file, unless its agent was
      revoked and wrote it since. */
  predicate Quiet(d: Disk, s: string) {
    && s in d.cfg.endpoints && AlreadyReleased(d.cfg.endpoints[s])
    && s in d.files && if s in d.late then d.files[s].revoked && s in d.revoked else AlreadyReleased(d.files[s])
  }

  lemma FirstIsQuiet(d: Disk, cfg: Config, slug: string, local: Endpoint, io: StopIO)
    requires Stopped(d, cfg, slug, local, true, true, io).2 == StopDone(false)
    ensures var (d1, eps, _) := Stopped(d, cfg, slug, local, true, true, io);
            Quiet(d1, slug) && d1.cfg == cfg.(endpoints := eps)
  {
    StopEffect(d, cfg, slug, local, true, true, io);
  }

  lemma OtherKeepsQuiet(d: Disk, cfg: Config, slug: string, local: Endpoint, io: StopIO, wrote: Revocations, s: string)
    requires Quiet(d, s) && d.cfg == cfg && s != slug
    requires Stopped(After(d, wrote), cfg, slug, local, true, true, io).2 == StopDone(false)
    ensures Quiet(Stopped(After(d, wrote), cfg, slug, local, true, true, io).0, s)
  {
    var d0 := After(d, wrote);
    assert FileIs(d0, s, d.files[s]);
    StopKeepsFile(d0, cfg, slug, local, io, s, d.files[s]);
    StopEffect(d0, cfg, slug, local, true, true, io);
  }

  lemma {:induction false} OkMeansQuiet(d: Disk, cfg: Config, order: seq<string>, io: PrepareIO, s: string)
    requires forall x :: x in order ==> x in cfg.endpoints
    requires forall i, j :: 0 <= i < j < |order| ==> order[i] != order[j]
    requires d.cfg == cfg && (s in order || Quiet(d, s))
    ensures var (d1, ok, _) := AllStopped(d, cfg, order, io); ok ==> Quiet(d1, s)
    decreases |order|
  {
    if order != [] {
      var slug, d0 := order[0], After(d, io.beforeStop(order[0]));
      var local := Loaded(d0, cfg.endpoints, slug, slug in io.readableAgain);
      var (d1, eps, reply) := Stopped(d0, cfg, slug, local, true, true, io.stops(slug));
      RestIsOthers(order);
      if reply == StopDone(false) {
        FirstIsQuiet(d0, cfg, slug, local, io.stops(slug));
        if s != slug && s !in order {
          OtherKeepsQuiet(d, cfg, slug, local, io.stops(slug), io.beforeStop(slug), s);
        }
        OkMeansQuiet(d1, cfg.(endpoints := eps), order[1..], io, s);
      }
    }
  }

  /** An update is told to go ahead only when nothing shares any more: whatever failed on the way,
      if prepare-update succeeds, every endpoint is stopped with its model memory released. */
  lemma SuccessMeansQuiet(d: Disk, first: seq<string>, second: seq<string>, io: PrepareIO, s: string)
    requires Covers(first, d.cfg.endpoints) && Covers(second, d.cfg.endpoints)
    requires PreparedBy(d, first, second, io).ok && s in d.cfg.endpoints
    ensures Quiet(PreparedBy(d, first, second, io).d, s)
  {
    var (d0, resume, _) := Collected(d, d.cfg, first, io);
    var cfg := d.cfg.(resume := resume);
    OkMeansQuiet(d0.(cfg := cfg), cfg, second, io, s);
  }

  /** The second loop got through with this endpoint. */
  predicate StoppedForUpdate(endpoints: map<string, Endpoint>, stops: map<string, Disk>, io: PrepareIO, s: string)
    requires s in endpoints
  {
    && s in stops
    && var local := Loaded(stops[s], endpoints, s, s in io.readableAgain);
       StopPath(local, true, io.stops(s)) && (HeldMemory(local) ==> io.stops(s).unload)
  }

  lemma FirstIsDone(d: Disk, cfg: Config, slug: string, local: Endpoint, io: StopIO)
    ensures Stopped(d, cfg, slug, local, true, true, io).2 == StopDone(false)
       <==> StopPath(local, true, io) && (HeldMemory(local) ==> io.unload)
  {
    StopSucceedsIff(d, cfg, slug, local, true, true, io);
    StopEffect(d, cfg, slug, local, true, true, io);
  }

  lemma {:induction false} OkMeansStopped(d: Disk, cfg: Config, order: seq<string>, io: PrepareIO, s: string)
    requires forall x :: x in order ==> x in cfg.endpoints
    requires forall i, j :: 0 <= i < j < |order| ==> order[i] != order[j]
    requires AllStopped(d, cfg, order, io).1 && s in order
    ensures StoppedForUpdate(cfg.endpoints, AllStopped(d, cfg, order, io).2, io, s)
    decreases |order|
  {
    var slug, d0 := order[0], After(d, io.beforeStop(order[0]));
    var local := Loaded(d0, cfg.endpoints, slug, slug in io.readableAgain);
    var (d1, eps, reply) := Stopped(d0, cfg, slug, local, true, true, io.stops(slug));
    RestIsOthers(order);
    FirstIsDone(d0, cfg, slug, local, io.stops(slug));
    if s != slug {
      OkMeansStopped(d1, cfg.(endpoints := eps), order[1..], io, s);
      StopKeepsOthers(d0, cfg, slug, local, io.stops(slug), s);
    }
  }

  lemma {:induction false} SomeoneIsNotStopped(d: Disk, cfg: Config, order: seq<string>, io: PrepareIO)
    returns (s: string)
    requires forall x :: x in order ==> x in cfg.endpoints
    requires forall i, j :: 0 <= i < j < |order| ==> order[i] != order[j]
    requires !AllStopped(d, cfg, order, io).1
    ensures s in order && !StoppedForUpdate(cfg.endpoints, AllStopped(d, cfg, order, io).2, io, s)
    decreases |order|
  {
    var slug, d0 := order[0], After(d, io.beforeStop(order[0]));
    var local := Loaded(d0, cfg.endpoints, slug, slug in io.readableAgain);
    var (d1, eps, reply) := Stopped(d0, cfg, slug, local, true, true, io.stops(slug));
    RestIsOthers(order);
    FirstIsDone(d0, cfg, slug, local, io.stops(slug));
    if reply == StopDone(false) {
      s := SomeoneIsNotStopped(d1, cfg.(endpoints := eps), order[1..], io);
      StopKeepsOthers(d0, cfg, slug, local, io.stops(slug), s);
    } else {
      s := slug;
    }
  }

  /** Exactly when prepare-update succeeds: the list is saved, every endpoint is loaded and stopped by the
      second loop with its memory released, and the runtime and the interface can be stopped. */
  lemma PrepareSucceedsIff(d: Disk, first: seq<string>, second: seq<string>, io: PrepareIO)
    requires Covers(first, d.cfg.endpoints) && Covers(second, d.cfg.endpoints)
    ensures var p := PreparedBy(d, first, second, io);
            p.ok <==> io.saveConfig && io.runtime && io.interface
                      && forall s :: s in d.cfg.endpoints ==> StoppedForUpdate(d.cfg.endpoints, p.stops, io, s)
  {
    var (d0, resume, _) := Collected(d, d.cfg, first, io);
    var cfg := d.cfg.(resume := resume);
    var (_, ok, stops) := AllStopped(d0.(cfg := cfg), cfg, second, io);
    if ok {
      forall s | s in second ensures StoppedForUpdate(cfg.endpoints, stops, io, s) {
        OkMeansStopped(d0.(cfg := cfg), cfg, second, io, s);
      }
    } else {
      var s := SomeoneIsNotStopped(d0.(cfg := cfg), cfg, second, io);
    }
  }

  /** What a prepare-update without failing writes leaves: the resume list and every file. */
  lemma PreparedWorks(d: Disk, first: seq<string>, second: seq<string>, io: PrepareIO, s: string)
    requires Covers(first, d.cfg.endpoints) && Covers(second, d.cfg.endpoints) && PrepareWrites(io)
    requires s in d.cfg.endpoints
    ensures var p := PreparedBy(d, first, second, io);
            && p.ok && p.d.cfg.endpoints.Keys == d.cfg.endpoints.Keys <= p.d.files.Keys
            && s in p.noted && s in p.stops && p.stops[s].revoked <= p.d.revoked
            && FileIs(p.d, s, StoppedCopy(Loaded(p.stops[s], d.cfg.endpoints, s, s in io.readableAgain)))
            && (s in p.d.cfg.resume
                <==> s in d.cfg.resume || Sharing(Loaded(p.noted[s], d.cfg.endpoints, s, s in io.readable)))
  {
    var (d0, resume, noted) := Collected(d, d.cfg, first, io);
    var cfg := d.cfg.(resume := resume);
    CollectedNotes(d, d.cfg, first, io, s);
    AllStoppedSucceeds(d0.(cfg := cfg), cfg, second, io);
    AllStoppedWorks(d0.(cfg := cfg), cfg, second, io, s);
  }

  /** One turn of the finish loop without failures, seen from `s`: agents apart, it writes the file of the
      endpoint it works on, and only if that was not revoked when loaded. */
  lemma TurnWorks(d: Disk, cfg: Config, i: nat, io: FinishIO, s: string, x: Endpoint)
    requires i < |cfg.resume| && io.readable(i) && io.save(i) && io.install(i)
    requires cfg.endpoints.Keys <= d.files.Keys && s in cfg.endpoints && FileIs(d, s, x)
    ensures var t := ResumeOne(d, cfg, i, io);
            && t.ok && t.cfg.endpoints.Keys == cfg.endpoints.Keys && d.files.Keys <= t.d.files.Keys
            && d.revoked <= t.d.revoked
            && (cfg.resume[i] != s || !t.installed ==> FileIs(t.d, s, x) && (s in d.late ==> s in t.d.late))
            && (cfg.resume[i] == s ==>
                  && t.load.Some? && (t.installed <==> !(x.revoked || s in t.load.value.late))
                  && (t.installed ==> FileIs(t.d, s, x.(stopped := false)))
                  && (!t.installed && s in t.load.value.late ==> s in t.d.late)
                  && (s in d.late ==> s in t.load.value.late))
  {
  }

  /** The finish loop without failures: it installs exactly the endpoints left on the list that are
      still known, whose file an operation last wrote as not revoked (`x`) and whose agent has not been
      revoked since, when it loads them. */
  lemma {:induction false} ResumedWorks(d: Disk, cfg: Config, i: nat, io: FinishIO, installs: seq<string>,
                                        loads: map<string, Disk>, s: string, x: Endpoint)
    requires FinishSucceeds(io) && cfg.endpoints.Keys <= d.files.Keys && i <= |cfg.resume| && s in cfg.endpoints
    requires s in installs <==> s in loads && !(x.revoked || s in loads[s].late)
    requires FileIs(d, s, if s in installs then x.(stopped := false) else x)
    requires s in loads && s in loads[s].late ==> s in d.late
    ensures var f := ResumedFrom(d, cfg, i, io, installs, loads);
            && f.ok && (s in f.loads <==> s in loads || s in cfg.resume[i..]) && d.revoked <= f.d.revoked
            && (s in f.installs <==> s in f.loads && !(x.revoked || s in f.loads[s].late))
            && FileIs(f.d, s, if s in f.installs then x.(stopped := false) else x)
            && (s in f.loads && s in f.loads[s].late ==> s in f.d.late)
    decreases |cfg.resume| - i
  {
    if i < |cfg.resume| {
      var slug, t := cfg.resume[i], ResumeOne(d, cfg, i, io);
      assert io.readable(i) && io.save(i) && io.install(i);
      assert cfg.resume[i..] == [slug] + cfg.resume[i + 1..];
      TurnWorks(d, cfg, i, io, s, if s in installs then x.(stopped := false) else x);
      ResumedWorks(t.d, t.cfg, i + 1, io, if t.installed then installs + [slug] else installs,
                   Seen(loads, slug, t.load), s, x);
    }
  }

  /** Exactly which endpoints an update restarts, with every write and command succeeding, any files
      unreadable at any time and agents revoked at any time, also while prepare-update runs, between
      the two and during finish-update: those that were already waiting or that the first loop found
      sharing, unless the second loop found them revoked, or they were revoked after the last write
      of an operation to their file and before finish-update loaded it. */
  lemma RestartedIff(d: Disk, first: seq<string>, second: seq<string>, prepare: PrepareIO, between: Revocations,
                     finish: FinishIO, s: string)
    requires Covers(first, d.cfg.endpoints) && Covers(second, d.cfg.endpoints)
    requires PrepareWrites(prepare) && FinishSucceeds(finish) && s in d.cfg.endpoints
    ensures var p := PreparedBy(d, first, second, prepare);
            var f := FinishedBy(After(p.d, between), finish);
            && p.ok && f.ok && s in p.noted && s in p.stops
            && (s in f.installs
                <==> (s in d.cfg.resume || Sharing(Loaded(p.noted[s], d.cfg.endpoints, s, s in prepare.readable)))
                     && !Loaded(p.stops[s], d.cfg.endpoints, s, s in prepare.readableAgain).revoked
                     && !(s in f.loads && s in f.loads[s].late))
  {
    PreparedWorks(d, first, second, prepare, s);
    var p := PreparedBy(d, first, second, prepare);
    var d1 := After(p.d, between);
    ResumedWorks(d1, d1.cfg, 0, finish, [], map[], s,
                 StoppedCopy(Loaded(p.stops[s], d.cfg.endpoints, s, s in prepare.readableAgain)));
    assert d1.cfg.resume[0..] == d1.cfg.resume;
  }

  // ---------- an endpoint that was revoked before the update ----------

  /** The record of revocations starts with the update. */
  predicate Unrecorded(d: Disk) { d.revoked == {} && d.late == {} }

  /** The first loop finds each file as it was, unless the agent is revoked meanwhile. */
  lemma {:induction false} NotedKeepsFile(d: Disk, cfg: Config, order: seq<string>, io: PrepareIO, s: string,
                                          x: Endpoint)
    requires forall y :: y in order ==> y in cfg.endpoints
    requires FileIs(d, s, x)
    ensures var (d1, _, noted) := Collected(d, cfg, order, io);
            && FileIs(d1, s, x) && d.revoked <= d1.revoked
            && (s in noted ==> FileIs(noted[s], s, x) && noted[s].revoked <= d1.revoked)
    decreases |order|
  {
    if order != [] {
      NotedKeepsFile(d, cfg, order[..|order| - 1], io, s, x);
    }
  }

  /** So does the second loop, up to its stop of that endpoint. */
  lemma {:induction false} FoundKeepsFile(d: Disk, cfg: Config, order: seq<string>, io: PrepareIO, s: string,
                                          x: Endpoint)
    requires forall y :: y in order ==> y in cfg.endpoints
    requires FileIs(d, s, x)
    ensures var stops := AllStopped(d, cfg, order, io).2;
            s in stops ==> FileIs(stops[s], s, x) && d.revoked <= stops[s].revoked
    decreases |order|
  {
    if order != [] {
      var slug, d0 := order[0], After(d, io.beforeStop(order[0]));
      var local := Loaded(d0, cfg.endpoints, slug, slug in io.readableAgain);
      var (d1, eps, reply) := Stopped(d0, cfg, slug, local, true, true, io.stops(slug));
      if reply.StopDone? && !reply.memoryPending && s != slug {
        StopKeepsFile(d0, cfg, slug, local, io.stops(slug), s, x);
        StopKeepsRecord(d0, cfg, slug, local, io.stops(slug));
        FoundKeepsFile(d1, cfg.(endpoints := eps), order[1..], io, s, x);
      }
    }
  }

  /** What both loops of a prepare-update find in the file of `s`. */
  lemma PreparedFinds(d: Disk, first: seq<string>, second: seq<string>, io: PrepareIO, s: string)
    requires Covers(first, d.cfg.endpoints) && Covers(second, d.cfg.endpoints) && Unrecorded(d)
    requires s in d.cfg.endpoints && s in d.files
    ensures var p := PreparedBy(d, first, second, io);
            && (s in p.noted ==> FileIs(p.noted[s], s, d.files[s]))
            && (s in p.stops ==> FileIs(p.stops[s], s, d.files[s]))
            && (s in p.noted && s in p.stops ==> p.noted[s].revoked <= p.stops[s].revoked)
  {
    var (d0, resume, _) := Collected(d, d.cfg, first, io);
    var cfg := d.cfg.(resume := resume);
    NotedKeepsFile(d, d.cfg, first, io, s, d.files[s]);
    if io.saveConfig {
      FoundKeepsFile(d0.(cfg := cfg), cfg, second, io, s, d.files[s]);
    }
  }

  /** The revocation of this endpoint is lost on an update: its file cannot be read in the second
      loop, the settings do not know of the revocation, and it was waiting already or cannot be
      read in the first loop either while the settings still say that it is not stopped. */
  predicate RevocationIsLost(cfg: Config, prepare: PrepareIO, s: string)
    requires s in cfg.endpoints
  {
    && s !in prepare.readableAgain && !cfg.endpoints[s].revoked
    && (s in cfg.resume || (s !in prepare.readable && !cfg.endpoints[s].stopped))
  }

  /** The exact condition for an endpoint whose file says revoked when the update starts: when every
      write and command succeeds, it is restarted if and only if its revocation is lost and its agent
      has not written it again after the second loop. */
  lemma RevokedIsRestartedIff(d: Disk, first: seq<string>, second: seq<string>, prepare: PrepareIO,
                              between: Revocations, finish: FinishIO, s: string)
    requires Covers(first, d.cfg.endpoints) && Covers(second, d.cfg.endpoints) && Unrecorded(d)
    requires PrepareWrites(prepare) && FinishSucceeds(finish)
    requires s in d.cfg.endpoints && s in d.files && d.files[s].revoked
    ensures var f := FinishedBy(After(PreparedBy(d, first, second, prepare).d, between), finish);
            s in f.installs <==> RevocationIsLost(d.cfg, prepare, s) && !(s in f.loads && s in f.loads[s].late)
  {
    RestartedIff(d, first, second, prepare, between, finish, s);
    PreparedFinds(d, first, second, prepare, s);
  }

  // ---------- both ways to lose a revocation ----------

  lemma OnlyEntryIsRestarted(d: Disk, finish: FinishIO)
    requires d.cfg.resume == ["a"] && "a" in d.cfg.endpoints && "a" in d.files && !d.files["a"].revoked
    requires "a" !in finish.beforeLoad(0) && finish.readable(0) && finish.save(0)
    ensures var f := FinishedBy(d, finish);
            f.installs == ["a"] && "a" in f.loads && f.loads["a"] == After(d, finish.beforeLoad(0))
  {
    var f, t := FinishedBy(d, finish), ResumeOne(d, d.cfg, 0, finish);
    assert [] + ["a"] == ["a"];
    assert t.ok ==> ResumedFrom(t.d, t.cfg, 1, finish, ["a"], Seen(map[], "a", t.load)).installs == ["a"];
  }

  lemma OnlyEntryIsPrepared(d: Disk, prepare: PrepareIO, local: Endpoint)
    requires d.cfg == Config(map["a" := Endpoint(false, false, false, false)], []) && "a" in d.files
    requires prepare.beforeNote("a") == map[] == prepare.beforeStop("a")
    requires prepare.saveConfig && StopSucceeds(prepare.stops("a"))
    requires var file := d.files["a"];
             && (if "a" in prepare.readable then Sharing(file) else true)
             && local == if "a" in prepare.readableAgain then file else Endpoint(false, false, false, false)
    requires !local.revoked && !local.managed
    ensures var io := prepare.stops("a");
            var d1 := PreparedBy(d, ["a"], ["a"], prepare).d;
            && d1.cfg.resume == ["a"] && "a" in d1.cfg.endpoints
            && "a" in d1.files && !d1.files["a"].revoked
            && d1.revoked == d.revoked + io.beforeMark.Keys + io.beforeSave.Keys
  {
    var cfg := d.cfg.(resume := ["a"]);
    assert ["a"][..0] == [] && ["a"][1..] == [] && [] + ["a"] == ["a"];
    assert After(d, map[]) == d;
    assert Collected(d, d.cfg, [], prepare) == (d, [], map[]);
    assert Collected(d, d.cfg, ["a"], prepare).0 == d && Collected(d, d.cfg, ["a"], prepare).1 == ["a"];
    assert After(d.(cfg := cfg), map[]) == d.(cfg := cfg);
    StopWorks(d.(cfg := cfg), cfg, "a", local, prepare.stops("a"));
    StopEffect(d.(cfg := cfg), cfg, "a", local, true, true, prepare.stops("a"));
  }

  /** The condition cannot be dropped: a revoked endpoint whose file is unreadable during
      prepare-update, while the settings' copy still says sharing, is restarted afterwards. */
  lemma UnreadableRevocationIsRestarted(d: Disk, prepare: PrepareIO, finish: FinishIO)
    requires d.cfg == Config(map["a" := Endpoint(false, false, false, false)], [])
    requires d.files == map["a" := Endpoint(false, true, false, true)]
    requires prepare.beforeNote("a") == map[] == prepare.beforeStop("a")
    requires prepare.readable == {} && prepare.readableAgain == {} && prepare.saveConfig
    requires StopSucceeds(prepare.stops("a"))
    requires "a" !in finish.beforeLoad(0) && finish.readable(0) && finish.save(0)
    ensures d.files["a"].revoked && FinishedBy(PreparedBy(d, ["a"], ["a"], prepare).d, finish).installs == ["a"]
  {
    OnlyEntryIsPrepared(d, prepare, Endpoint(false, false, false, false));
    OnlyEntryIsRestarted(PreparedBy(d, ["a"], ["a"], prepare).d, finish);
  }

  /** Nor can the other one: with every file readable and every write and command succeeding, an agent
      that is revoked while prepare-update stops its service, after the endpoint was loaded and before
      it is saved, is restarted too, although its revocation was written. */
  lemma RevocationDuringStopIsRestarted(d: Disk, prepare: PrepareIO, finish: FinishIO)
    requires d.cfg == Config(map["a" := Endpoint(false, false, false, false)], []) && d.files == d.cfg.endpoints
    requires prepare.beforeNote("a") == map[] == prepare.beforeStop("a")
    requires PrepareSucceeds(d.cfg.endpoints, prepare) && FinishSucceeds(finish)
    requires "a" in prepare.stops("a").beforeSave && "a" !in finish.beforeLoad(0)
    ensures var f := FinishedBy(PreparedBy(d, ["a"], ["a"], prepare).d, finish);
            f.installs == ["a"] && "a" in f.loads && "a" in f.loads["a"].revoked
  {
    OnlyEntryIsPrepared(d, prepare, d.files["a"]);
    OnlyEntryIsRestarted(PreparedBy(d, ["a"], ["a"], prepare).d, finish);
  }

  // ---------- prepare, then finish ----------

  ghost predicate PrepareSucceeds(endpoints: map<string, Endpoint>, io: PrepareIO) {
    PrepareWrites(io) && endpoints.Keys <= io.readable && endpoints.Keys <= io.readableAgain
  }

  /** Prepare then finish without failure restores exactly the set that was sharing (together with what
      an earlier update still had to resume): an endpoint whose agent is not revoked meanwhile shares
      afterwards iff it shared before or was already waiting and is not revoked. */
  lemma PrepareThenFinishRestores(d: Disk, first: seq<string>, second: seq<string>, prepare: PrepareIO,
                                  between: Revocations, finish: FinishIO, s: string)
    requires Covers(first, d.cfg.endpoints) && Covers(second, d.cfg.endpoints) && Unrecorded(d)
    requires PrepareSucceeds(d.cfg.endpoints, prepare) && FinishSucceeds(finish)
    requires s in d.cfg.endpoints && s in d.files
    ensures var p := PreparedBy(d, first, second, prepare);
            var f := FinishedBy(After(p.d, between), finish);
            && p.ok && f.ok && f.d.cfg.resume == []
            && s in p.d.files && !Sharing(p.d.files[s])
            && (s !in f.d.revoked ==>
                  && s in f.d.files
                  && (Sharing(f.d.files[s]) <==> Sharing(d.files[s]) || (s in d.cfg.resume && !d.files[s].revoked)))
  {
    RestartedIff(d, first, second, prepare, between, finish, s);
    PreparedFinds(d, first, second, prepare, s);
    PreparedWorks(d, first, second, prepare, s);
    var p := PreparedBy(d, first, second, prepare);
    var d1 := After(p.d, between);
    var x := StoppedCopy(Loaded(p.stops[s], d.cfg.endpoints, s, s in prepare.readableAgain));
    ResumedWorks(d1, d1.cfg, 0, finish, [], map[], s, x);
  }

  // ---------- how finish-update ends ----------

  /** One of the steps finish-update comes to failed, or a listed endpoint has no file. */
  predicate SomethingFails(d: Disk, io: FinishIO) {
    !io.saveConfig
    || exists i :: 0 <= i < |d.cfg.resume| && FailsAt(d.cfg, d.files, i, io)
  }

  predicate FailsAt(cfg: Config, files: map<string, Endpoint>, i: nat, io: FinishIO)
    requires i < |cfg.resume|
  {
    cfg.resume[i] in cfg.endpoints
    && (!io.readable(i) || !io.save(i) || !io.install(i) || cfg.resume[i] !in files)
  }

  /** What one turn does to the list, the settings and the files, and what it means for `s`. */
  lemma TurnOutcome(d: Disk, cfg: Config, i: nat, io: FinishIO, s: string)
    requires i < |cfg.resume|
    ensures var t := ResumeOne(d, cfg, i, io);
            && t.d.cfg == d.cfg && t.cfg.endpoints.Keys == cfg.endpoints.Keys && d.files.Keys <= t.d.files.Keys
            && (!t.ok ==> FailsAt(cfg, d.files, i, io))
            && (s in cfg.endpoints && cfg.resume[i] != s ==> t.cfg.endpoints[s] == cfg.endpoints[s])
            && (s in cfg.endpoints && !t.installed ==> t.cfg.endpoints[s] == cfg.endpoints[s])
            && (cfg.resume[i] == s && s in cfg.endpoints && t.ok ==>
                  && t.load.Some? && s in t.load.value.files
                  && (t.installed <==> !t.load.value.files[s].revoked)
                  && (t.installed ==> Sharing(t.cfg.endpoints[s])))
            && (t.installed && !t.ok && io.restore(i) ==>
                  cfg.resume[i] in t.d.files && t.d.files[cfg.resume[i]].stopped)
  {
  }

  lemma {:induction false} ResumedOutcome(d: Disk, cfg: Config, i: nat, io: FinishIO, installs: seq<string>,
                                          loads: map<string, Disk>, s: string)
    requires s in cfg.endpoints && i <= |cfg.resume|
    requires s in loads ==> s in loads[s].files && (s in installs || loads[s].files[s].revoked)
    requires s in installs ==> Sharing(cfg.endpoints[s])
    ensures var f := ResumedFrom(d, cfg, i, io, installs, loads);
            && f.d.cfg == d.cfg && (s in installs ==> s in f.installs)
            && (f.ok ==>
                  && (s in cfg.resume[i..] || s in loads ==>
                        s in f.loads && s in f.loads[s].files && (s in f.installs || f.loads[s].files[s].revoked))
                  && s in f.cfg.endpoints
                  && (if s in f.installs then Sharing(f.cfg.endpoints[s]) else f.cfg.endpoints[s] == cfg.endpoints[s]))
    decreases |cfg.resume| - i
  {
    if i < |cfg.resume| {
      var slug, t := cfg.resume[i], ResumeOne(d, cfg, i, io);
      assert cfg.resume[i..] == [slug] + cfg.resume[i + 1..];
      TurnOutcome(d, cfg, i, io, s);
      if t.ok {
        ResumedOutcome(t.d, t.cfg, i + 1, io, if t.installed then installs + [slug] else installs,
                       Seen(loads, slug, t.load), s);
      }
    }
  }

  lemma {:induction false} ResumedFails(d: Disk, cfg: Config, i: nat, io: FinishIO, installs: seq<string>,
                                        loads: map<string, Disk>) returns (j: nat)
    requires i <= |cfg.resume| && !ResumedFrom(d, cfg, i, io, installs, loads).ok
    ensures i <= j < |cfg.resume| && FailsAt(cfg, d.files, j, io)
    decreases |cfg.resume| - i
  {
    var slug, t := cfg.resume[i], ResumeOne(d, cfg, i, io);
    TurnOutcome(d, cfg, i, io, "");
    if t.ok {
      j := ResumedFails(t.d, t.cfg, i + 1, io, if t.installed then installs + [slug] else installs,
                        Seen(loads, slug, t.load));
    } else {
      j := i;
    }
  }

  /** How a finish-update ends. If it succeeds, every listed endpoint that is still known was loaded, and
      either restarted, with the settings saying that it shares, or found revoked, with the settings
      as they were; and the list is cleared. If it does not, some step of it failed or a file was
      missing, and settings and list are as before, for the next attempt. */
  lemma FinishOutcome(d: Disk, io: FinishIO, s: string)
    requires s in d.cfg.endpoints
    ensures var f := FinishedBy(d, io);
            && (f.ok ==>
                  && io.saveConfig && f.d.cfg.resume == [] && s in f.d.cfg.endpoints
                  && (s in d.cfg.resume ==>
                        s in f.loads && s in f.loads[s].files && (s in f.installs || f.loads[s].files[s].revoked))
                  && (if s in f.installs then Sharing(f.d.cfg.endpoints[s])
                      else f.d.cfg.endpoints[s] == d.cfg.endpoints[s]))
            && (!f.ok ==> SomethingFails(d, io) && f.d.cfg == d.cfg)
  {
    ResumedOutcome(d, d.cfg, 0, io, [], map[], s);
    assert d.cfg.resume[0..] == d.cfg.resume;
    if !ResumedFrom(d, d.cfg, 0, io, [], map[]).ok {
      var j := ResumedFails(d, d.cfg, 0, io, [], map[]);
    }
  }

  /** A start that fails is undone: if the service of an endpoint cannot be installed, finish-update ends
      there, and its file says stopped again, if that save works; the list still has it. */
  lemma FailedStartIsUndone(d: Disk, cfg: Config, i: nat, io: FinishIO)
    requires i < |cfg.resume| && ResumeOne(d, cfg, i, io).installed && !io.install(i)
    ensures var t := ResumeOne(d, cfg, i, io);
            && !t.ok && t.cfg == cfg && t.d.cfg == d.cfg
            && (io.restore(i) ==> cfg.resume[i] in t.d.files && t.d.files[cfg.resume[i]].stopped)
  {
  }
}
