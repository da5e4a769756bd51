/** Stopping, resuming and updating on Windows: the saved settings, one file per endpoint, the
    list of endpoints an update has to resume, and operations that may fail at any write. The
    agents are other processes: one that is revoked writes its own file at any moment, also between
    two steps of an operation. Operations themselves run one after another. */
module Maintenance {
  import opened Wrappers

  /** The parts of a saved endpoint the lifecycle reads. `managed` endpoints own their runtime
      and hold model memory until it is confirmed released. */
  datatype Endpoint = Endpoint(managed: bool, stopped: bool, memoryPending: bool, revoked: bool)

  datatype Config = Config(endpoints: map<string, Endpoint>, resume: seq<string>)

  /** The settings file and the endpoint files; a save replaces a file whole or not at all. For the
      record: `revoked` are the endpoints whose agent has written its revocation, and `late` those
      of them whose file no operation has written since. */
  datatype Disk = Disk(cfg: Config, files: map<string, Endpoint>, revoked: set<string>, late: set<string>)

  /** An operation saves an endpoint. */
  function WithFile(d: Disk, slug: string, e: Endpoint): Disk {
    d.(files := d.files[slug := e], late := d.late - {slug})
  }

  /** What revoked agents write, each to its own file, between two steps of an operation. */
  type Revocations = m: map<string, Endpoint> | forall s :: s in m ==> m[s].revoked && m[s].stopped witness map[]

  function After(d: Disk, wrote: Revocations): Disk {
    Disk(d.cfg, d.files + wrote, d.revoked + wrote.Keys, d.late + wrote.Keys)
  }

  function Without(resume: seq<string>, slug: string): seq<string> {
    if resume == [] then []
    else if resume[0] == slug then Without(resume[1..], slug)
    else [resume[0]] + Without(resume[1..], slug)
  }

  lemma {:induction false} WithoutIsRemoval(resume: seq<string>, slug: string)
    ensures forall s :: s in Without(resume, slug) <==> s in resume && s != slug
  {
    if resume != [] {
      WithoutIsRemoval(resume[1..], slug);
      assert resume == [resume[0]] + resume[1..];
    }
  }

  /** What each write and command of one stop answers, and what agents write meanwhile: between the
      load and the mark, then until the service is stopped and the first save, then until the
      second one. */
  datatype StopIO = StopIO(
    beforeMark: Revocations, markFile: bool, markConfig: bool, service: bool,
    beforeSave: Revocations, saveFile: bool, saveConfig: bool,
    unload: bool, beforeRelease: Revocations, releaseFile: bool, releaseConfig: bool)

  datatype StopReply = StopFailed | StopDone(memoryPending: bool)

  function AlreadyReleased(e: Endpoint): bool { e.stopped && !e.memoryPending }

  function Halted(local: Endpoint): Endpoint {
    local.(stopped := true, memoryPending := local.managed && !AlreadyReleased(local))
  }

  function AfterStop(cfg: Config, slug: string, preserve: bool): Config {
    if preserve then cfg else cfg.(resume := Without(cfg.resume, slug))
  }

  /** Marking the stop before the service is touched (Windows only). */
  function Marked(d: Disk, cfg: Config, slug: string, e: Endpoint, io: StopIO): (Disk, map<string, Endpoint>, bool) {
    var d0 := After(d, io.beforeMark);
    if !io.markFile then (d0, cfg.endpoints, false)
    else
      var eps := cfg.endpoints[slug := e];
      if !io.markConfig then (WithFile(d0, slug, e), eps, false)
      else (WithFile(d0, slug, e).(cfg := cfg.(endpoints := eps)), eps, true)
  }

  /** One save of the endpoint followed by one of the settings. */
  function Saved(d: Disk, cfg: Config, slug: string, e: Endpoint, file: bool, config: bool)
    : (Disk, map<string, Endpoint>, bool)
  {
    var eps := cfg.endpoints[slug := e];
    if !file then (d, eps, false)
    else if !config then (WithFile(d, slug, e), eps, false)
    else (WithFile(d, slug, e).(cfg := cfg.(endpoints := eps)), eps, true)
  }

  /** Once the service is stopped: save, then release the model memory it held. */
  function Settled(d: Disk, cfg: Config, slug: string, e: Endpoint, io: StopIO)
    : (r: (Disk, map<string, Endpoint>, StopReply))
    ensures cfg.endpoints.Keys <= r.1.Keys <= cfg.endpoints.Keys + {slug}
  {
    var (d1, eps1, saved) := Saved(After(d, io.beforeSave), cfg, slug, e, io.saveFile, io.saveConfig);
    if !saved then (d1, eps1, StopFailed)
    else if !e.memoryPending then (d1, eps1, StopDone(false))
    else if !io.unload then (d1, eps1, StopDone(true))
    else
      var (d2, eps2, released) :=
        Saved(After(d1, io.beforeRelease), cfg.(endpoints := eps1), slug, e.(memoryPending := false),
              io.releaseFile, io.releaseConfig);
      (d2, eps2, if released then StopDone(false) else StopFailed)
  }

  /** stopSharingForMaintenance on settings that were loaded before the call. The caller's
      endpoint map is shared with the callee, its resume list is not. */
  function Stopped(d: Disk, loaded: Config, slug: string, local: Endpoint, preserve: bool, windows: bool, io: StopIO)
    : (r: (Disk, map<string, Endpoint>, StopReply))
    ensures loaded.endpoints.Keys <= r.1.Keys <= loaded.endpoints.Keys + {slug}
  {
    var cfg := AfterStop(loaded, slug, preserve);
    var e := Halted(local);
    var (d1, eps, marked) := if windows then Marked(d, cfg, slug, e, io) else (d, cfg.endpoints, true);
    if !marked || !io.service then (d1, eps, StopFailed)
    else Settled(d1, cfg.(endpoints := eps), slug, e, io)
  }

  /** The endpoint an operation works on: its file, or the settings' copy if that is unreadable. */
  function Loaded(d: Disk, endpoints: map<string, Endpoint>, slug: string, readable: bool): Endpoint
    requires slug in endpoints
  {
    if readable && slug in d.files then d.files[slug] else endpoints[slug]
  }

  datatype ResumeIO = ResumeIO(readable: bool, beforeSave: Revocations, saveFile: bool, install: bool,
                               beforeUndo: Revocations, restore: bool, saveConfig: bool)

  /** Untouched left everything as it was; Restored undid its own change after a failed start. */
  datatype ResumeReply = Untouched | Restored | HalfDone | Resumed

  /** The resume action of the desktop app. */
  function ResumedBy(d: Disk, slug: string, io: ResumeIO): (Disk, ResumeReply) {
    if slug !in d.cfg.endpoints then (d, Untouched)
    else
      var previous := Loaded(d, d.cfg.endpoints, slug, io.readable);
      var e := previous.(stopped := false, memoryPending := false);
      if previous.revoked || !io.saveFile then (d, Untouched)
      else
        var d1 := WithFile(After(d, io.beforeSave), slug, e);
        if !io.install then
          var d2 := After(d1, io.beforeUndo);
          if io.restore then (WithFile(d2, slug, previous), Restored) else (d2, HalfDone)
        else if !io.saveConfig then (d1, HalfDone)
        else (d1.(cfg := d.cfg.(endpoints := d.cfg.endpoints[slug := e])), Resumed)
  }

  datatype RevokeIO = RevokeIO(save: bool, unload: bool, saveReleased: bool)

  /** A revoked agent writes its own file only. */
  function RevokedBy(d: Disk, slug: string, managed: bool, io: RevokeIO): Disk {
    var e := Endpoint(managed, true, managed, true);
    var d1 := if io.save then After(d, map[slug := e]) else d;
    if managed && io.unload && io.saveReleased then After(d1, map[slug := e.(memoryPending := false)]) else d1
  }

  /** The answers during a whole _prepare-update: which endpoint files each loop can read, the
      answers to each stop, and what agents write before each load. */
  datatype PrepareIO = PrepareIO(beforeNote: string -> Revocations, readable: set<string>, saveConfig: bool,
                                 beforeStop: string -> Revocations, readableAgain: set<string>,
                                 stops: string -> StopIO, runtime: bool, interface: bool)

  /** The first loop: note every endpoint that is sharing. Kept for the record: the disk as each
      endpoint was loaded. */
  function Collected(d: Disk, cfg: Config, order: seq<string>, io: PrepareIO): (Disk, seq<string>, map<string, Disk>)
    requires forall s :: s in order ==> s in cfg.endpoints
    decreases |order|
  {
    if order == [] then (d, cfg.resume, map[])
    else
      var slug := order[|order| - 1];
      var (d0, before, noted) := Collected(d, cfg, order[..|order| - 1], io);
      var d1 := After(d0, io.beforeNote(slug));
      var e := Loaded(d1, cfg.endpoints, slug, slug in io.readable);
      (d1, if !e.stopped && !e.revoked && slug !in before then before + [slug] else before, noted[slug := d1])
  }

  /** The second loop: stop every endpoint, keeping the list; give up at the first that fails
      or still holds model memory. The record is the disk as each endpoint was loaded. */
  function AllStopped(d: Disk, cfg: Config, order: seq<string>, io: PrepareIO): (Disk, bool, map<string, Disk>)
    requires forall s :: s in order ==> s in cfg.endpoints
    decreases |order|
  {
    if order == [] then (d, true, map[])
    else
      var slug, d0 := order[0], After(d, io.beforeStop(order[0]));
      var local := Loaded(d0, cfg.endpoints, slug, slug in io.readableAgain);
      var (d1, eps, reply) := Stopped(d0, cfg, slug, local, true, true, io.stops(slug));
      if reply.StopFailed? || reply.memoryPending then (d1, false, map[slug := d0])
      else
        var (d2, ok, loads) := AllStopped(d1, cfg.(endpoints := eps), order[1..], io);
        (d2, ok, loads[slug := d0])
  }

  /** The loops run over the settings' endpoints in an order of their own each. */
  predicate Covers(order: seq<string>, endpoints: map<string, Endpoint>) {
    && (forall s :: s in order ==> s in endpoints) && (forall s :: s in endpoints ==> s in order)
    && (forall i, j :: 0 <= i < j < |order| ==> order[i] != order[j])
  }

  /** The outcome of a _prepare-update, with the disk as each loop loaded each endpoint. */
  datatype Prepared = Prepared(d: Disk, ok: bool, noted: map<string, Disk>, stops: map<string, Disk>)

  function PreparedBy(d: Disk, first: seq<string>, second: seq<string>, io: PrepareIO): Prepared
    requires Covers(first, d.cfg.endpoints) && Covers(second, d.cfg.endpoints)
  {
    var (d0, resume, noted) := Collected(d, d.cfg, first, io);
    var cfg := d.cfg.(resume := resume);
    if !io.saveConfig then Prepared(d0, false, noted, map[])
    else
      var (d1, ok, stops) := AllStopped(d0.(cfg := cfg), cfg, second, io);
      Prepared(d1, ok && io.runtime && io.interface, noted, stops)
  }

  /** The answers during a _finish-update, by position in the list it resumes, and what agents write
      before each load, each save and each undoing save. */
  datatype FinishIO = FinishIO(beforeLoad: nat -> Revocations, readable: nat -> bool,
                               beforeSave: nat -> Revocations, save: nat -> bool, install: nat -> bool,
                               beforeUndo: nat -> Revocations, restore: nat -> bool, saveConfig: bool)

  /** One turn of the finish loop: whether it asked for the service to be installed, whether the loop
      goes on, and the disk as the endpoint was loaded, if it was. */
  datatype Turn = Turn(d: Disk, cfg: Config, installed: bool, ok: bool, load: Option<Disk>)

  function ResumeOne(d: Disk, cfg: Config, i: nat, io: FinishIO): (t: Turn)
    requires i < |cfg.resume|
    ensures t.cfg.resume == cfg.resume
  {
    var slug := cfg.resume[i];
    if slug !in cfg.endpoints then Turn(d, cfg, false, true, None)
    else
      var d0 := After(d, io.beforeLoad(i));
      if !io.readable(i) || slug !in d0.files then Turn(d0, cfg, false, false, None)
      else if d0.files[slug].revoked then Turn(d0, cfg, false, true, Some(d0))
      else
        var e, d1 := d0.files[slug].(stopped := false), After(d0, io.beforeSave(i));
        if !io.save(i) then Turn(d1, cfg, false, false, Some(d0))
        else
          var d2 := WithFile(d1, slug, e);
          if io.install(i) then Turn(d2, cfg.(endpoints := cfg.endpoints[slug := e]), true, true, Some(d0))
          else
            var d3 := After(d2, io.beforeUndo(i));
            Turn(if io.restore(i) then WithFile(d3, slug, e.(stopped := true)) else d3, cfg, true, false, Some(d0))
  }

  /** The outcome of a _finish-update, or of its loop so far. `installs` are the slugs whose service
      it has asked to be installed, that is, restarted; `loads` is the disk as each endpoint was
      first loaded. */
  datatype Finished = Finished(d: Disk, cfg: Config, installs: seq<string>, ok: bool, loads: map<string, Disk>)

  function Seen(loads: map<string, Disk>, slug: string, load: Option<Disk>): map<string, Disk> {
    if load.None? || slug in loads then loads else loads[slug := load.value]
  }

  /** The loop over the pending list from position `i`. */
  function ResumedFrom(d: Disk, cfg: Config, i: nat, io: FinishIO, installs: seq<string>, loads: map<string, Disk>)
    : Finished
    decreases |cfg.resume| - i
  {
    if i >= |cfg.resume| then Finished(d, cfg, installs, true, loads)
    else
      var slug, t := cfg.resume[i], ResumeOne(d, cfg, i, io);
      var all, seen := if t.installed then installs + [slug] else installs, Seen(loads, slug, t.load);
      if t.ok then ResumedFrom(t.d, t.cfg, i + 1, io, all, seen) else Finished(t.d, t.cfg, all, false, seen)
  }

  function FinishedBy(d: Disk, io: FinishIO): Finished {
    var f := ResumedFrom(d, d.cfg, 0, io, [], map[]);
    if !f.ok || !io.saveConfig then f.(ok := false)
    else f.(d := f.d.(cfg := f.cfg.(resume := [])))
  }

  /** The saved settings and endpoint files, changed by the operations. */
  class Profile {
    var saved: Config
    var files: map<string, Endpoint>
    ghost var revoked: set<string>
    ghost var late: set<string>

    ghost function View(): Disk
      reads this
    {
      Disk(saved, files, revoked, late)
    }

    constructor (d: Disk)
      ensures View() == d
    {
      saved, files, revoked, late := d.cfg, d.files, d.revoked, d.late;
    }

    /** Other processes: revoked agents write their own files. */
    method Agents(wrote: Revocations)
      modifies this
      ensures View() == After(old(View()), wrote)
    {
      files := files + wrote;
      revoked, late := revoked + wrote.Keys, late + wrote.Keys;
    }

    /** SaveEndpoint, when it succeeds. */
    method SaveEndpoint(slug: string, e: Endpoint)
      modifies this
      ensures View() == WithFile(old(View()), slug, e)
    {
      files := files[slug := e];
      late := late - {slug};
    }

    /** The durable stop marker Windows writes before the service is touched. */
    method Mark(cfg: Config, slug: string, e: Endpoint, io: StopIO) returns (endpoints: map<string, Endpoint>, ok: bool)
      modifies this
      ensures (View(), endpoints, ok) == Marked(old(View()), cfg, slug, e, io)
    {
      Agents(io.beforeMark);
      if !io.markFile {
        return cfg.endpoints, false;
      }
      SaveEndpoint(slug, e);
      endpoints := cfg.endpoints[slug := e];
      if !io.markConfig {
        return endpoints, false;
      }
      saved := cfg.(endpoints := endpoints);
      return endpoints, true;
    }

    /** The save closure of a stop: the endpoint file, then the settings. */
    method Save(cfg: Config, slug: string, e: Endpoint, file: bool, config: bool)
      returns (endpoints: map<string, Endpoint>, ok: bool)
      modifies this
      ensures (View(), endpoints, ok) == Saved(old(View()), cfg, slug, e, file, config)
    {
      endpoints := cfg.endpoints[slug := e];
      if !file {
        return endpoints, false;
      }
      SaveEndpoint(slug, e);
      if !config {
        return endpoints, false;
      }
      saved := cfg.(endpoints := endpoints);
      return endpoints, true;
    }

    method Settle(cfg: Config, slug: string, halted: Endpoint, io: StopIO)
      returns (endpoints: map<string, Endpoint>, reply: StopReply)
      modifies this
      ensures (View(), endpoints, reply) == Settled(old(View()), cfg, slug, halted, io)
    {
      var e, ok := halted, true;
      Agents(io.beforeSave);
      endpoints, ok := Save(cfg, slug, e, io.saveFile, io.saveConfig);
      if !ok {
        return endpoints, StopFailed;
      }
      if e.memoryPending && io.unload {
        e := e.(memoryPending := false);
        Agents(io.beforeRelease);
        endpoints, ok := Save(cfg.(endpoints := endpoints), slug, e, io.releaseFile, io.releaseConfig);
        if !ok {
          return endpoints, StopFailed;
        }
      }
      reply := StopDone(e.memoryPending);
    }

    /** stopSharingForMaintenance. */
    method StopSharing(loaded: Config, slug: string, local: Endpoint, preserve: bool, windows: bool, io: StopIO)
      returns (endpoints: map<string, Endpoint>, reply: StopReply)
      modifies this
      ensures (View(), endpoints, reply) == Stopped(old(View()), loaded, slug, local, preserve, windows, io)
    {
      var cfg := loaded;
      if !preserve {
        cfg := cfg.(resume := Without(cfg.resume, slug));
      }
      var alreadyReleased := local.stopped && !local.memoryPending;
      var e := local.(stopped := true, memoryPending := local.managed && !alreadyReleased);
      endpoints := cfg.endpoints;
      var ok := true;
      if windows {
        endpoints, ok := Mark(cfg, slug, e, io);
        if !ok {
          return endpoints, StopFailed;
        }
      }
      if !io.service {
        return endpoints, StopFailed;
      }
      endpoints, reply := Settle(cfg.(endpoints := endpoints), slug, e, io);
    }

    /** The resume action of the desktop app. */
    method Resume(slug: string, io: ResumeIO) returns (reply: ResumeReply)
      modifies this
      ensures (View(), reply) == ResumedBy(old(View()), slug, io)
    {
      var cfg := saved;
      if slug !in cfg.endpoints {
        return Untouched;
      }
      var previous := if io.readable && slug in files then files[slug] else cfg.endpoints[slug];
      if previous.revoked || !io.saveFile {
        return Untouched;
      }
      var e := previous.(stopped := false, memoryPending := false);
      Agents(io.beforeSave);
      SaveEndpoint(slug, e);
      if !io.install {
        Agents(io.beforeUndo);
        if io.restore {
          SaveEndpoint(slug, previous);
          return Restored;
        }
        return HalfDone;
      }
      if !io.saveConfig {
        return HalfDone;
      }
      saved := cfg.(endpoints := cfg.endpoints[slug := e]);
      return Resumed;
    }

    /** _prepare-update. */
    method PrepareUpdate(first: seq<string>, second: seq<string>, io: PrepareIO) returns (ok: bool)
      requires Covers(first, saved.endpoints) && Covers(second, saved.endpoints)
      modifies this
      ensures var p := PreparedBy(old(View()), first, second, io); View() == p.d && ok == p.ok
    {
      var cfg := saved;
      for i := 0 to |first|
        invariant saved == old(saved) && cfg.endpoints == saved.endpoints
        invariant View() == Collected(old(View()), saved, first[..i], io).0
        invariant cfg.resume == Collected(old(View()), saved, first[..i], io).1
      {
        var slug := first[i];
        assert first[..i + 1][..i] == first[..i];
        Agents(io.beforeNote(slug));
        var e := if slug in io.readable && slug in files then files[slug] else cfg.endpoints[slug];
        if !e.stopped && !e.revoked && slug !in cfg.resume {
          cfg := cfg.(resume := cfg.resume + [slug]);
        }
      }
      assert first[..|first|] == first;
      if !io.saveConfig {
        return false;
      }
      saved := cfg;
      ghost var goal := AllStopped(View(), cfg, second, io);
      for i := 0 to |second|
        invariant forall s :: s in second ==> s in cfg.endpoints
        invariant AllStopped(View(), cfg, second[i..], io).0 == goal.0
        invariant AllStopped(View(), cfg, second[i..], io).1 == goal.1
      {
        var slug := second[i];
        assert second[i..][1..] == second[i + 1..];
        Agents(io.beforeStop(slug));
        var e := if slug in io.readableAgain && slug in files then files[slug] else cfg.endpoints[slug];
        var endpoints, reply := StopSharing(cfg, slug, e, true, true, io.stops(slug));
        if reply.StopFailed? || reply.memoryPending {
          return false;
        }
        cfg := cfg.(endpoints := endpoints);
      }
      return io.runtime && io.interface;
    }

    /** _finish-update. */
    method FinishUpdate(io: FinishIO) returns (installs: seq<string>, ok: bool)
      modifies this
      ensures var f := FinishedBy(old(View()), io); View() == f.d && installs == f.installs && ok == f.ok
    {
      var cfg := saved;
      var pending := cfg.resume;
      installs := [];
      ghost var loads: map<string, Disk> := map[];
      ghost var goal := ResumedFrom(View(), cfg, 0, io, [], map[]);
      for i := 0 to |pending|
        invariant cfg.resume == pending && saved == old(saved)
        invariant ResumedFrom(View(), cfg, i, io, installs, loads) == goal
      {
        var slug := pending[i];
        ghost var turn := ResumeOne(View(), cfg, i, io);
        loads := Seen(loads, slug, turn.load);
        if slug in cfg.endpoints {
          Agents(io.beforeLoad(i));
          if !io.readable(i) || slug !in files {
            return installs, false;
          }
          var e := files[slug];
          if !e.revoked {
            e := e.(stopped := false);
            Agents(io.beforeSave(i));
            if !io.save(i) {
              return installs, false;
            }
            SaveEndpoint(slug, e);
            installs := installs + [slug];
            if !io.install(i) {
              Agents(io.beforeUndo(i));
              if io.restore(i) {
                SaveEndpoint(slug, e.(stopped := true));
              }
              return installs, false;
            }
            cfg := cfg.(endpoints := cfg.endpoints[slug := e]);
          }
        }
        assert View() == turn.d && cfg == turn.cfg && turn.ok;
      }
      if !io.saveConfig {
        return installs, false;
      }
      saved := cfg.(resume := []);
      return installs, true;
    }
  }
}
