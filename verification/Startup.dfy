/** Switching automatic startup: the list of background services to change, and the commands
    that change them with a rollback when one fails. */
module Startup {
  import opened Wrappers

  datatype Target = Target(name: string, stopped: bool)

  // ---------- the list of targets ----------

  /** What was found for one service: no file, something that cannot be used, or a regular file. */
  datatype Found = Absent | Unusable | Regular

  /** The endpoint's own file; Broken also stands for one that names another endpoint. */
  datatype Saved = Missing | Broken | Read(stopped: bool, revoked: bool)

  /** A service that may be listed, with what the settings and the endpoint's file say. The
      runtime's service is one too, with nothing saved and nothing stopped. */
  datatype Candidate = Candidate(name: string, stopped: bool, revoked: bool, saved: Saved, found: Found)

  /** The endpoint's file decides, and a revoked endpoint counts as stopped. */
  predicate Off(c: Candidate) {
    if c.saved.Read? then c.saved.stopped || c.saved.revoked else c.stopped || c.revoked
  }

  predicate Fails(c: Candidate) { c.saved.Broken? || c.found.Unusable? }

  predicate DistinctNames(ts: seq<Target>) {
    forall i, j :: 0 <= i < j < |ts| ==> ts[i].name != ts[j].name
  }

  /** Add one target; a name that is already listed is stopped if either says so. */
  function Added(ts: seq<Target>, name: string, stopped: bool): seq<Target> {
    if ts == [] then [Target(name, stopped)]
    else if ts[0].name == name then [Target(name, ts[0].stopped || stopped)] + ts[1..]
    else [ts[0]] + Added(ts[1..], name, stopped)
  }

  function Listed(cs: seq<Candidate>): Option<seq<Target>> {
    if cs == [] then Some([])
    else
      var last := cs[|cs| - 1];
      match Listed(cs[..|cs| - 1])
      case None => None
      case Some(ts) =>
        if Fails(last) then None
        else if last.found.Absent? then Some(ts)
        else Some(Added(ts, last.name, Off(last)))
  }

  /** Where the name is first listed is where it is merged; otherwise it is appended. */
  lemma {:induction false} AddedAt(ts: seq<Target>, i: nat, name: string, stopped: bool)
    requires i <= |ts| && (i < |ts| ==> ts[i].name == name)
    requires forall j :: 0 <= j < i ==> ts[j].name != name
    ensures Added(ts, name, stopped)
         == if i < |ts| then ts[i := Target(name, ts[i].stopped || stopped)] else ts + [Target(name, stopped)]
  {
    if i > 0 {
      AddedAt(ts[1..], i - 1, name, stopped);
      assert ts == [ts[0]] + ts[1..];
    }
  }

  /** The closure `add` of startupTargets, over targets that are merged in place. */
  method Add(targets: seq<Target>, name: string, stopped: bool) returns (merged: seq<Target>)
    ensures merged == Added(targets, name, stopped)
  {
    for i := 0 to |targets|
      invariant forall j :: 0 <= j < i ==> targets[j].name != name
    {
      if targets[i].name == name {
        AddedAt(targets, i, name, stopped);
        return targets[i := targets[i].(stopped := targets[i].stopped || stopped)];
      }
    }
    AddedAt(targets, |targets|, name, stopped);
    return targets + [Target(name, stopped)];
  }

  method StartupTargets(candidates: seq<Candidate>) returns (targets: Option<seq<Target>>)
    ensures targets == Listed(candidates)
  {
    var ts := [];
    for i := 0 to |candidates|
      invariant Listed(candidates[..i]) == Some(ts)
    {
      assert candidates[..i + 1][..i] == candidates[..i];
      var c := candidates[i];
      if c.saved.Broken? || c.found.Unusable? {
        FailureStops(candidates, i);
        return None;
      }
      var stopped := if c.saved.Read? then c.saved.stopped || c.saved.revoked else c.stopped || c.revoked;
      if c.found.Regular? {
        ts := Add(ts, c.name, stopped);
      }
    }
    assert candidates[..|candidates|] == candidates;
    return Some(ts);
  }

  lemma {:induction false} FailureStops(cs: seq<Candidate>, i: nat)
    requires i < |cs| && Fails(cs[i])
    ensures Listed(cs).None?
    decreases |cs|
  {
    if i < |cs| - 1 {
      FailureStops(cs[..|cs| - 1], i);
    }
  }

  /** The list fails exactly when some candidate cannot be used. */
  lemma {:induction false} ListedIffUsable(cs: seq<Candidate>)
    ensures Listed(cs).Some? <==> forall i :: 0 <= i < |cs| ==> !Fails(cs[i])
  {
    if cs != [] {
      var last := |cs| - 1;
      ListedIffUsable(cs[..last]);
      if Fails(cs[last]) {
        FailureStops(cs, last);
      } else if i :| 0 <= i < last && Fails(cs[i]) {
        FailureStops(cs, i);
      }
    }
  }

  lemma TailIsDistinct(ts: seq<Target>)
    requires ts != [] && DistinctNames(ts)
    ensures DistinctNames(ts[1..]) && forall t :: t in ts[1..] ==> t.name != ts[0].name
  {
  }

  /** Merging: the named target is stopped if it was or is now, every other one is kept. */
  lemma {:induction false} AddedIsMerge(ts: seq<Target>, name: string, stopped: bool, t: Target)
    requires DistinctNames(ts)
    ensures t in Added(ts, name, stopped) <==>
              (if t.name == name then t.stopped == (stopped || Target(name, true) in ts) else t in ts)
  {
    if ts != [] {
      TailIsDistinct(ts);
      assert ts == [ts[0]] + ts[1..];
      if ts[0].name != name {
        AddedIsMerge(ts[1..], name, stopped, t);
      }
    }
  }

  lemma {:induction false} AddedIsDistinct(ts: seq<Target>, name: string, stopped: bool)
    requires DistinctNames(ts)
    ensures DistinctNames(Added(ts, name, stopped))
    ensures forall t :: t in Added(ts, name, stopped) ==> t.name == name || t in ts
  {
    if ts != [] {
      TailIsDistinct(ts);
      assert ts == [ts[0]] + ts[1..];
      if ts[0].name != name {
        AddedIsDistinct(ts[1..], name, stopped);
      }
    }
  }

  /** Target names are distinct, exactly the services with a regular file are listed, and a
      target is stopped iff one of the candidates merged into it is stopped or revoked. */
  lemma {:induction false} TargetsAreMerged(cs: seq<Candidate>, ts: seq<Target>)
    requires Listed(cs) == Some(ts)
    ensures DistinctNames(ts)
    ensures forall t :: t in ts <==>
              (exists c :: c in cs && c.found.Regular? && c.name == t.name)
              && (t.stopped <==> exists c :: c in cs && c.found.Regular? && c.name == t.name && Off(c))
  {
    if cs != [] {
      var last, before := cs[|cs| - 1], cs[..|cs| - 1];
      assert cs == before + [last];
      TargetsAreMerged(before, Listed(before).value);
      if last.found.Regular? {
        var merged := Listed(before).value;
        AddedIsDistinct(merged, last.name, Off(last));
        var was := Target(last.name, true) in merged;
        forall t ensures t in ts <==> (if t.name == last.name then t.stopped == (Off(last) || was) else t in merged) {
          AddedIsMerge(merged, last.name, Off(last), t);
        }
      }
    }
  }

  // ---------- the commands ----------

  datatype Command = Command(name: string, on: bool)

  /** The service manager's own state and every command it was sent. */
  datatype Services = Services(enabled: map<string, bool>, log: seq<Command>)

  /** By the number of the command: does it succeed, and if not, did it change the state anyway. */
  datatype CommandIO = CommandIO(ok: nat -> bool, tookEffect: nat -> bool)

  function Sent(s: Services, name: string, on: bool, io: CommandIO): Services {
    var n := |s.log|;
    Services(if io.ok(n) || io.tookEffect(n) then s.enabled[name := on] else s.enabled, s.log + [Command(name, on)])
  }

  /** Undo for the first n targets; counts the commands that failed. */
  function RolledBack(s: Services, targets: seq<Target>, n: nat, previous: bool, io: CommandIO): (Services, nat)
    requires n <= |targets|
  {
    if n == 0 then (s, 0)
    else
      var (before, failures) := RolledBack(s, targets, n - 1, previous, io);
      var t := targets[n - 1];
      (Sent(before, t.name, previous && !t.stopped, io), if io.ok(|before.log|) then failures else failures + 1)
  }

  /** None is success; Some(n) a failure with n errors joined. */
  function Updated(s: Services, targets: seq<Target>, i: nat, enabled: bool, previous: bool,
                   io: CommandIO): (Services, Option<nat>)
    requires i <= |targets|
    decreases |targets| - i
  {
    if i == |targets| then (s, None)
    else
      var sent := Sent(s, targets[i].name, enabled && !targets[i].stopped, io);
      if io.ok(|s.log|) then Updated(sent, targets, i + 1, enabled, previous, io)
      else
        var (undone, failures) := RolledBack(sent, targets, i + 1, previous, io);
        (undone, Some(1 + failures))
  }

  class ServiceManager {
    var enabled: map<string, bool>
    var log: seq<Command>

    function View(): Services
      reads this
    {
      Services(enabled, log)
    }

    constructor (s: Services)
      ensures View() == s
    {
      enabled, log := s.enabled, s.log;
    }

    method SetServiceStartup(name: string, on: bool, io: CommandIO) returns (ok: bool)
      modifies this
      ensures View() == Sent(old(View()), name, on, io) && ok == io.ok(|old(log)|)
    {
      ok := io.ok(|log|);
      if ok || io.tookEffect(|log|) {
        enabled := enabled[name := on];
      }
      log := log + [Command(name, on)];
    }

    method UpdateStartup(targets: seq<Target>, on: bool, previous: bool, io: CommandIO) returns (failures: nat)
      modifies this
      ensures var (s, r) := Updated(old(View()), targets, 0, on, previous, io);
              View() == s && failures == match r case None => 0 case Some(n) => n
    {
      for i := 0 to |targets|
        invariant Updated(View(), targets, i, on, previous, io) == Updated(old(View()), targets, 0, on, previous, io)
      {
        var ok := SetServiceStartup(targets[i].name, on && !targets[i].stopped, io);
        if !ok {
          failures := 1;
          ghost var sent := View();
          for k := 0 to i + 1
            invariant View() == RolledBack(sent, targets, k, previous, io).0
            invariant failures == 1 + RolledBack(sent, targets, k, previous, io).1
          {
            var undone := SetServiceStartup(targets[k].name, previous && !targets[k].stopped, io);
            if !undone {
              failures := failures + 1;
            }
          }
          return;
        }
      }
      return 0;
    }
  }

  // ---------- the transaction ----------

  /** Every command from position `from` on names a target and turns on only unstopped ones. */
  predicate OnlyUnstopped(log: seq<Command>, from: nat, targets: seq<Target>) {
    forall k :: from <= k < |log| ==>
      exists t :: t in targets && log[k].name == t.name && (log[k].on ==> !t.stopped)
  }

  lemma SentIsUnstopped(s: Services, from: nat, targets: seq<Target>, t: Target, on: bool, io: CommandIO)
    requires OnlyUnstopped(s.log, from, targets) && t in targets
    ensures OnlyUnstopped(Sent(s, t.name, on && !t.stopped, io).log, from, targets)
  {
  }

  lemma {:induction false} RollbackIsUnstopped(s: Services, targets: seq<Target>, n: nat, previous: bool,
                                               io: CommandIO, from: nat)
    requires n <= |targets| && OnlyUnstopped(s.log, from, targets)
    ensures OnlyUnstopped(RolledBack(s, targets, n, previous, io).0.log, from, targets)
  {
    if n > 0 {
      RollbackIsUnstopped(s, targets, n - 1, previous, io, from);
      SentIsUnstopped(RolledBack(s, targets, n - 1, previous, io).0, from, targets, targets[n - 1], previous, io);
    }
  }

  lemma {:induction false} UpdateIsUnstopped(s: Services, targets: seq<Target>, i: nat, on: bool, previous: bool,
                                             io: CommandIO, from: nat)
    requires i <= |targets| && OnlyUnstopped(s.log, from, targets)
    ensures OnlyUnstopped(Updated(s, targets, i, on, previous, io).0.log, from, targets)
    decreases |targets| - i
  {
    if i < |targets| {
      var sent := Sent(s, targets[i].name, on && !targets[i].stopped, io);
      SentIsUnstopped(s, from, targets, targets[i], on, io);
      if io.ok(|s.log|) {
        UpdateIsUnstopped(sent, targets, i + 1, on, previous, io, from);
      } else {
        RollbackIsUnstopped(sent, targets, i + 1, previous, io, from);
      }
    }
  }

  /** No stopped target is ever sent an enable, rollback included, whatever fails. */
  lemma StoppedIsNeverEnabled(s: Services, targets: seq<Target>, on: bool, previous: bool, io: CommandIO, t: Target,
                              k: nat)
    requires DistinctNames(targets) && t in targets && t.stopped
    requires |s.log| <= k < |Updated(s, targets, 0, on, previous, io).0.log|
    ensures Updated(s, targets, 0, on, previous, io).0.log[k] != Command(t.name, true)
  {
    UpdateIsUnstopped(s, targets, 0, on, previous, io, |s.log|);
  }

  predicate SetTo(s: Services, t: Target, on: bool) {
    t.name in s.enabled && s.enabled[t.name] == (on && !t.stopped)
  }

  /** Nothing was ever sent for this name, and its state is as before. */
  predicate Untouched(before: Services, after: Services, name: string) {
    && before.log <= after.log
    && (forall k :: |before.log| <= k < |after.log| ==> after.log[k].name != name)
    && (name in before.enabled <==> name in after.enabled)
    && (name in before.enabled ==> after.enabled[name] == before.enabled[name])
  }

  lemma UntouchedChain(a: Services, b: Services, c: Services, name: string)
    requires Untouched(a, b, name) && Untouched(b, c, name)
    ensures Untouched(a, c, name)
  {
    forall k | |a.log| <= k < |c.log| ensures c.log[k].name != name {
      if k < |b.log| { assert c.log[k] == b.log[k]; }
    }
  }

  lemma {:induction false} RollbackRestores(s: Services, targets: seq<Target>, n: nat, previous: bool, io: CommandIO)
    requires n <= |targets| && DistinctNames(targets)
    ensures var (after, failures) := RolledBack(s, targets, n, previous, io);
            && (failures == 0 ==> forall j :: 0 <= j < n ==> SetTo(after, targets[j], previous))
            && (forall j :: n <= j < |targets| ==> Untouched(s, after, targets[j].name))
            && s.log <= after.log
  {
    if n > 0 {
      RollbackRestores(s, targets, n - 1, previous, io);
    }
  }

  /** What the update from position i on achieves, given that earlier targets are already set. */
  lemma {:induction false} UpdateOutcome(s: Services, targets: seq<Target>, i: nat, on: bool, previous: bool,
                                         io: CommandIO) returns (failed: nat)
    requires i <= |targets| && DistinctNames(targets)
    requires forall j :: 0 <= j < i ==> SetTo(s, targets[j], on)
    ensures var (after, r) := Updated(s, targets, i, on, previous, io);
            match r
            case None => failed == |targets| && forall j :: 0 <= j < |targets| ==> SetTo(after, targets[j], on)
            case Some(n) =>
              && i <= failed < |targets| && n >= 1
              && (n == 1 ==> forall j :: 0 <= j <= failed ==> SetTo(after, targets[j], previous))
              && (forall j :: failed < j < |targets| ==> Untouched(s, after, targets[j].name))
    decreases |targets| - i
  {
    failed := i;
    if i < |targets| {
      var sent := Sent(s, targets[i].name, on && !targets[i].stopped, io);
      if io.ok(|s.log|) {
        failed := UpdateOutcome(sent, targets, i + 1, on, previous, io);
        var (after, r) := Updated(sent, targets, i + 1, on, previous, io);
        forall j | failed < j < |targets| && r.Some? ensures Untouched(s, after, targets[j].name) {
          UntouchedChain(s, sent, after, targets[j].name);
        }
      } else {
        RollbackRestores(sent, targets, i + 1, previous, io);
        var after := RolledBack(sent, targets, i + 1, previous, io).0;
        forall j | i < j < |targets| ensures Untouched(s, after, targets[j].name) {
          UntouchedChain(s, sent, after, targets[j].name);
        }
      }
    }
  }

  /** The startup transaction, for any targets and any pattern of failing commands: success
      leaves every target at `on && !stopped`; a failure at some target leaves every later one
      untouched, never sent a command, and, if all rollbacks succeed, every target up to the
      failed one at `previous && !stopped`, even if the failed command had taken effect. */
  lemma StartupIsATransaction(s: Services, targets: seq<Target>, on: bool, previous: bool, io: CommandIO)
    returns (failed: nat)
    requires DistinctNames(targets)
    ensures var (after, r) := Updated(s, targets, 0, on, previous, io);
            match r
            case None => forall t :: t in targets ==> SetTo(after, t, on)
            case Some(errors) =>
              && failed < |targets|
              && (forall j :: failed < j < |targets| ==> Untouched(s, after, targets[j].name))
              && (errors == 1 ==> forall j :: 0 <= j <= failed ==> SetTo(after, targets[j], previous))
  {
    failed := UpdateOutcome(s, targets, 0, on, previous, io);
  }

  // ---------- exactly which commands are sent ----------

  /** The commands that set these targets, in order. */
  function Commands(targets: seq<Target>, on: bool): seq<Command> {
    if targets == [] then []
    else Commands(targets[..|targets| - 1], on)
         + [Command(targets[|targets| - 1].name, on && !targets[|targets| - 1].stopped)]
  }

  /** How many of the `n` commands numbered `from` on fail. */
  function Failures(io: CommandIO, from: nat, n: nat): nat {
    if n == 0 then 0 else Failures(io, from, n - 1) + if io.ok(from + n - 1) then 0 else 1
  }

  lemma {:induction false} RollbackSends(s: Services, targets: seq<Target>, n: nat, previous: bool, io: CommandIO)
    requires n <= |targets|
    ensures var (after, failures) := RolledBack(s, targets, n, previous, io);
            && after.log == s.log + Commands(targets[..n], previous) && |after.log| == |s.log| + n
            && failures == Failures(io, |s.log|, n)
  {
    if n > 0 {
      RollbackSends(s, targets, n - 1, previous, io);
      assert targets[..n][..n - 1] == targets[..n - 1];
    }
  }

  predicate AllOk(io: CommandIO, from: nat, to: nat) { forall k :: from <= k < to ==> io.ok(k) }

  /** The command for this target was the first to fail, after `was` had been sent before; the commands
      up to it were sent, then those that undo them, and `n` errors were seen. */
  predicate GaveUpAt(was: seq<Command>, log: seq<Command>, targets: seq<Target>, failed: nat, on: bool, previous: bool,
                     io: CommandIO, n: nat)
    requires failed < |targets|
  {
    && log == was + Commands(targets[..failed + 1], on) + Commands(targets[..failed + 1], previous)
    && !io.ok(|was| + failed) && AllOk(io, |was|, |was| + failed)
    && n == 1 + Failures(io, |was| + failed + 1, failed + 1)
  }

  lemma {:induction false} CommandCount(targets: seq<Target>, on: bool)
    ensures |Commands(targets, on)| == |targets|
  {
    if targets != [] { CommandCount(targets[..|targets| - 1], on); }
  }

  lemma OneCommandMore(was: seq<Command>, s: Services, targets: seq<Target>, i: nat, on: bool, io: CommandIO)
    requires i < |targets| && s.log == was + Commands(targets[..i], on)
    ensures |s.log| == |was| + i
    ensures Sent(s, targets[i].name, on && !targets[i].stopped, io).log == was + Commands(targets[..i + 1], on)
  {
    assert targets[..i + 1][..i] == targets[..i];
    CommandCount(targets[..i], on);
  }

  lemma FailureSends(was: seq<Command>, sent: Services, targets: seq<Target>, i: nat, on: bool, previous: bool,
                     io: CommandIO)
    requires i < |targets| && sent.log == was + Commands(targets[..i + 1], on)
    requires !io.ok(|was| + i) && AllOk(io, |was|, |was| + i)
    ensures var (after, failures) := RolledBack(sent, targets, i + 1, previous, io);
            GaveUpAt(was, after.log, targets, i, on, previous, io, 1 + failures)
  {
    CommandCount(targets[..i + 1], on);
    RollbackSends(sent, targets, i + 1, previous, io);
  }

  lemma {:induction false} UpdateSends(was: seq<Command>, s: Services, targets: seq<Target>, i: nat, on: bool,
                                       previous: bool, io: CommandIO)
    requires i <= |targets| && s.log == was + Commands(targets[..i], on)
    requires AllOk(io, |was|, |was| + i)
    ensures var (after, r) := Updated(s, targets, i, on, previous, io);
            match r
            case None => after.log == was + Commands(targets, on) && AllOk(io, |was|, |was| + |targets|)
            case Some(n) =>
              exists failed :: 0 <= failed < |targets| && GaveUpAt(was, after.log, targets, failed, on, previous, io, n)
    decreases |targets| - i
  {
    if i == |targets| {
      assert targets[..i] == targets;
    } else {
      var sent := Sent(s, targets[i].name, on && !targets[i].stopped, io);
      OneCommandMore(was, s, targets, i, on, io);
      if io.ok(|s.log|) {
        UpdateSends(was, sent, targets, i + 1, on, previous, io);
      } else {
        FailureSends(was, sent, targets, i, on, previous, io);
      }
    }
  }

  /** The whole conversation with the service manager. The update succeeds if and only if every one of
      its commands does, and then it has sent one for each target, in order. Otherwise it has stopped
      at the first that failed and sent the undoing ones for all up to that, in order, whichever of
      those fail too, and reports exactly as many errors as commands failed. */
  lemma UpdateConversation(s: Services, targets: seq<Target>, on: bool, previous: bool, io: CommandIO)
    ensures var (after, r) := Updated(s, targets, 0, on, previous, io);
            && (r.None? <==> AllOk(io, |s.log|, |s.log| + |targets|))
            && (r.None? ==> after.log == s.log + Commands(targets, on))
            && (r.Some? ==> exists failed :: 0 <= failed < |targets|
                                             && GaveUpAt(s.log, after.log, targets, failed, on, previous, io, r.value))
  {
    assert s.log + [] == s.log && targets[..0] == [];
    UpdateSends(s.log, s, targets, 0, on, previous, io);
  }

  /** The two halves together: a service whose endpoint is stopped or revoked, and that has a
      regular file, is never sent an enable, whatever else is listed and whatever fails. */
  lemma OffIsNeverEnabled(s: Services, cs: seq<Candidate>, ts: seq<Target>, on: bool, previous: bool, io: CommandIO,
                          c: Candidate, k: nat)
    requires Listed(cs) == Some(ts) && c in cs && c.found.Regular? && Off(c)
    requires |s.log| <= k < |Updated(s, ts, 0, on, previous, io).0.log|
    ensures Updated(s, ts, 0, on, previous, io).0.log[k] != Command(c.name, true)
  {
    TargetsAreMerged(cs, ts);
    assert Target(c.name, true) in ts;
    StoppedIsNeverEnabled(s, ts, on, previous, io, Target(c.name, true), k);
  }
}
