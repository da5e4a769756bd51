/** One trial endpoint over many tunnel sessions. Every reconnect makes a fresh ledger against the
    same control plane; usage that is still queued when a session has drained goes with its ledger. */
module TrialChain {
  import opened Counting
  import opened TrialAllowance
  import opened UsageLedger
  import opened Wrappers

  /** A session that began with this much allowance and ran without late admissions. */
  ghost predicate Ran(remaining: nat, transfer: int, t: Trial) {
    exists es :: Play(Begin(remaining, transfer), es, Counts) == Some(t)
  }

  /** The ends of consecutive sessions. Each begins with what the plane has left, and all but the
      last have drained on the settled path. */
  ghost predicate Chain(remaining: int, transfer: int, ts: seq<Trial>)
    decreases |ts|
  {
    ts != [] ==>
      && remaining >= 0 && Ran(remaining, transfer, ts[0])
      && (|ts| > 1 ==> Settled(ts[0].w))
      && Chain(ts[0].plane.remaining, ts[0].plane.transfer, ts[1..])
  }

  function TotalRecorded(ts: seq<Trial>): int {
    if ts == [] then 0 else ts[0].w.totals.recorded + TotalRecorded(ts[1..])
  }

  /** The completions that were still queued at the end of these sessions. */
  function TotalQueued(ts: seq<Trial>): int {
    if ts == [] then 0 else ts[0].w.l.usageQueued + TotalQueued(ts[1..])
  }

  lemma {:induction false} PlayIsExec(t: Trial, es: seq<Event>, care: Care, u: Trial)
    requires Play(t, es, care) == Some(u)
    ensures Exec(t.w, es) == Some(u.w)
  {
    if es != [] {
      PlayIsExec(t, es[..|es| - 1], care, Play(t, es[..|es| - 1], care).value);
    }
  }

  /** The end of one session: within its allowance, and the plane is left with what it began with
      less what was acknowledged. */
  lemma OneSession(remaining: nat, transfer: int, t: Trial)
    requires Ran(remaining, transfer, t)
    ensures 0 <= t.w.totals.recorded <= remaining && t.plane.remaining == remaining - t.w.totals.acked >= 0
    ensures t.w.l.usageQueued >= 0 && Reachable(t.w) && OnTrial(t, remaining, transfer)
    ensures Settled(t.w) ==> t.w.totals.recorded == t.w.totals.acked + t.w.l.usageQueued
  {
    var es :| Play(Begin(remaining, transfer), es, Counts) == Some(t);
    NoTrialOvershoot(remaining, transfer, es, Counts, t);
    CarefulRun(remaining, transfer, es, Counts, t);
    PlayIsExec(Begin(remaining, transfer), es, Counts, t);
    assert Reachable(t.w);
    UsageIsConserved(t.w);
    RecordedGrows(Begin(remaining, transfer), es, t);
    if Settled(t.w) {
      SettledIsFinal(t.w, [], t.w);
    }
  }

  lemma {:induction false} RecordedGrows(t: Trial, es: seq<Event>, u: Trial)
    requires Play(t, es, Counts) == Some(u)
    ensures u.w.totals.recorded >= t.w.totals.recorded
  {
    if es != [] {
      RecordedGrows(t, es[..|es| - 1], Play(t, es[..|es| - 1], Counts).value);
    }
  }

  /** No overshoot over a chain of sessions, up to what their ends left behind: all completions
      together are at most the grant and what the earlier sessions still had queued. */
  lemma {:induction false} ChainOvershootsByWhatIsLost(grant: int, transfer: int, ts: seq<Trial>)
    requires ts != [] && Chain(grant, transfer, ts)
    ensures TotalRecorded(ts) <= grant + TotalQueued(ts[..|ts| - 1])
    decreases |ts|
  {
    OneSession(grant, transfer, ts[0]);
    if |ts| > 1 {
      ChainOvershootsByWhatIsLost(ts[0].plane.remaining, ts[0].plane.transfer, ts[1..]);
      assert ts[1..][..|ts[1..]| - 1] == ts[..|ts| - 1][1..];
    } else {
      assert ts[1..] == [];
    }
  }

  // ---------- exactly when the next session can overshoot ----------

  /** All sessions have drained on the settled path. */
  predicate AllSettled(ts: seq<Trial>) { forall i :: 0 <= i < |ts| ==> Settled(ts[i].w) }

  /** What a chain of settled sessions has used up. */
  lemma {:induction false} SettledChain(grant: int, transfer: int, ts: seq<Trial>)
    requires ts != [] && Chain(grant, transfer, ts) && AllSettled(ts)
    ensures var last := ts[|ts| - 1];
            TotalRecorded(ts) == grant - last.plane.remaining + TotalQueued(ts) && last.plane.remaining >= 0
    decreases |ts|
  {
    OneSession(grant, transfer, ts[0]);
    if |ts| > 1 {
      SettledChain(ts[0].plane.remaining, ts[0].plane.transfer, ts[1..]);
      assert ts[1..][|ts[1..]| - 1] == ts[|ts| - 1];
    } else {
      assert ts[1..] == [];
    }
  }

  lemma {:induction false} ChainGrows(grant: int, transfer: int, ts: seq<Trial>, t: Trial)
    requires ts != [] && Chain(grant, transfer, ts) && AllSettled(ts)
    requires ts[|ts| - 1].plane.remaining >= 0
    ensures var last := ts[|ts| - 1].plane;
            Chain(grant, transfer, ts + [t]) <==> Ran(last.remaining, last.transfer, t)
    ensures TotalRecorded(ts + [t]) == TotalRecorded(ts) + t.w.totals.recorded
    decreases |ts|
  {
    var more, rest := ts + [t], ts[1..];
    assert more[0] == ts[0] && more[1..] == rest + [t];
    if rest == [] {
      assert more[1..] == [t] && [t][1..] == [];
      assert Chain(ts[0].plane.remaining, ts[0].plane.transfer, [t])
        <==> Ran(ts[0].plane.remaining, ts[0].plane.transfer, t);
    } else {
      assert rest[|rest| - 1] == ts[|ts| - 1];
      ChainGrows(ts[0].plane.remaining, ts[0].plane.transfer, rest, t);
    }
  }

  /** Without a transfer allowance a session serves nobody. */
  ghost predicate Barred(t: Trial, transfer: int) {
    && t.plane.transfer == transfer <= 0
    && t.w.reporters == [] && t.w.totals == Totals(0, 0, 0, 0)
    && t.w.l.pendingUsage == 0 && t.w.l.pendingTransfer == 0
    && (forall id :: id in t.w.handlers ==> !HoldsSlot(t.w.handlers[id]))
    && (forall id :: id in t.w.handlers && t.w.handlers[id].Authorized? ==> t.w.handlers[id].auth in t.plane.issued)
    && (forall auth :: auth in t.plane.issued ==> auth.trial && auth.transferRemaining == transfer)
    && (t.w.l.trialRemaining >= 0 ==> t.w.l.transferRemaining <= 0)
  }

  lemma BarredStep(t: Trial, e: Event, transfer: int)
    requires Barred(t, transfer) && Enabled(t.w, e) && Answers(t, e)
    ensures Barred(Step(t, e), transfer)
  {
  }

  lemma {:induction false} BarredRun(t: Trial, es: seq<Event>, transfer: int, u: Trial)
    requires Barred(t, transfer) && Play(t, es, Counts) == Some(u)
    ensures Barred(u, transfer)
  {
    if es != [] {
      var before := Play(t, es[..|es| - 1], Counts).value;
      BarredRun(t, es[..|es| - 1], transfer, before);
      BarredStep(before, es[|es| - 1], transfer);
    }
  }

  /** With one, it can use up all the plane has left. */
  lemma UseAll(remaining: nat, transfer: int) returns (t: Trial)
    requires transfer > 0
    ensures Ran(remaining, transfer, t) && t.w.totals.recorded == remaining
  {
    var begin := Begin(remaining, transfer);
    var es: seq<Event>;
    es, t := [], begin;
    assert Play(begin, es, Counts) == Some(t);
    assert Ran(remaining, transfer, t);
    if remaining > 0 {
      var auth := Authorization(true, 1, remaining, transfer, "");
      es, t := FirstAdmitted(remaining, transfer, auth);
      StartIsInvariant();
      PlayKeepsReplies(begin, es, Counts, t);
      es, t := ServeAll(begin, es, t, auth, remaining);
      assert Ran(remaining, transfer, t);
    }
  }

  lemma FirstAdmitted(remaining: nat, transfer: int, auth: Authorization) returns (es: seq<Event>, t: Trial)
    requires remaining > 0 && transfer > 0 && auth == Authorization(true, 1, remaining, transfer, "")
    ensures Play(Begin(remaining, transfer), es, Counts) == Some(t) && auth in t.plane.issued
    ensures t.w.l.trialRemaining == remaining && t.w.l.transferRemaining == transfer
    ensures t.w.l.inFlight == 1 && !t.w.l.closing && t.w.totals.recorded == 0 && t.w.l.requests == 1
    ensures t.w.handlers == map[0 := Holding] && t.w.reporters == [] && !t.w.l.usageRunning && t.w.l.eventsQueued == 0
    ensures t.w.l.usageQueued == 0 && t.w.l.transferQueued == 0
    ensures t.plane.remaining == remaining && t.plane.transfer == transfer
  {
    var begin := Begin(remaining, transfer);
    es, t := PlayOne(begin, [], begin, OfHandler(0, Enter), Counts);
    es, t := PlayOne(begin, es, t, OfHandler(0, Authorize(auth, true)), Counts);
    es, t := PlayOne(begin, es, t, OfHandler(0, Admit(false)), Counts);
  }

  /** Exactly when one more session can bring all completions over the grant: if and only if what
      was lost so far exceeds what the plane has left, or something was lost and there is a
      transfer allowance left to spend. */
  lemma NextSessionOvershootsIff(grant: int, transfer: int, ts: seq<Trial>)
    requires ts != [] && Chain(grant, transfer, ts) && AllSettled(ts)
    ensures var plane := ts[|ts| - 1].plane;
            (exists t :: Chain(grant, transfer, ts + [t]) && TotalRecorded(ts + [t]) > grant)
            <==> TotalQueued(ts) > plane.remaining || (TotalQueued(ts) > 0 && plane.transfer > 0)
  {
    var plane, lost := ts[|ts| - 1].plane, TotalQueued(ts);
    SettledChain(grant, transfer, ts);
    if plane.transfer > 0 {
      var t := UseAll(plane.remaining, plane.transfer);
      ChainGrows(grant, transfer, ts, t);
      assert lost > 0 ==> Chain(grant, transfer, ts + [t]) && TotalRecorded(ts + [t]) > grant;
      OneSession(plane.remaining, plane.transfer, t);
    } else {
      var t := Begin(plane.remaining, plane.transfer);
      assert Play(t, [], Counts) == Some(t);
      ChainGrows(grant, transfer, ts, t);
      assert lost > plane.remaining ==> Chain(grant, transfer, ts + [t]) && TotalRecorded(ts + [t]) > grant;
    }
    forall t | Chain(grant, transfer, ts + [t]) && TotalRecorded(ts + [t]) > grant
      ensures lost > plane.remaining || (lost > 0 && plane.transfer > 0)
    {
      ChainGrows(grant, transfer, ts, t);
      OneSession(plane.remaining, plane.transfer, t);
      if plane.transfer <= 0 {
        var es :| Play(Begin(plane.remaining, plane.transfer), es, Counts) == Some(t);
        BarredRun(Begin(plane.remaining, plane.transfer), es, plane.transfer, t);
      }
    }
  }

  // ---------- a report that is lost ----------

  /** One request is served. */
  lemma ServedOnce() returns (es: seq<Event>, t: Trial)
    ensures Play(Begin(1, 100), es, Counts) == Some(t)
    ensures t.w.reporters == [Ready] && t.w.handlers == map[0 := Metered] && t.w.l.requests == 1
    ensures t.w.l.usageDone == Some(0) && t.w.totals.recorded == 1 && t.w.l.usageQueued == 1 && t.w.l.eventsQueued == 1
    ensures t.plane.remaining == 1 && t.plane.transfer == 100
  {
    es, t := FirstAdmitted(1, 100, Authorization(true, 1, 1, 100, ""));
    es, t := PlayOne(Begin(1, 100), es, t, OfHandler(0, Meter(1, 10)), Counts);
  }

  /** Its only report fails. */
  lemma ServedAndFailed() returns (es: seq<Event>, t: Trial)
    ensures Play(Begin(1, 100), es, Counts) == Some(t)
    ensures t.w.reporters == [Stopped] && t.w.handlers == map[0 := Metered] && t.w.l.requests == 1
    ensures t.w.l.usageDone == Some(0) && t.w.totals.recorded == 1 && t.w.l.usageQueued == 1
    ensures t.plane.remaining == 1 && t.plane.transfer == 100
  {
    es, t := ServedOnce();
    es, t := PlayOne(Begin(1, 100), es, t, OfReporter(0, Take), Counts);
    es, t := PlayOne(Begin(1, 100), es, t, OfReporter(0, Fail), Counts);
  }

  /** Then the session drains, on the settled path. */
  lemma DrainedWithUsage() returns (t: Trial)
    ensures Ran(1, 100, t) && Settled(t.w) && t.w.totals.recorded == 1 && t.w.l.usageQueued == 1
    ensures t.plane.remaining == 1 && t.plane.transfer == 100
  {
    var es;
    es, t := ServedAndFailed();
    es, t := PlayOne(Begin(1, 100), es, t, OfReporter(0, CloseDone), Counts);
    es, t := PlayOne(Begin(1, 100), es, t, OfHandler(0, Release), Counts);
    es, t := PlayOne(Begin(1, 100), es, t, OfHandler(0, Depart), Counts);
    es, t := PlayOne(Begin(1, 100), es, t, StartDrain, Counts);
    assert Ran(1, 100, t);
  }

  /** So two requests can complete on a grant of one over two sessions, with no late admission. */
  lemma LostReportOvershoots() returns (first: Trial, second: Trial)
    ensures Chain(1, 100, [first, second]) && TotalRecorded([first, second]) == 2
  {
    first := DrainedWithUsage();
    assert [first][1..] == [];
    assert Chain(1, 100, [first]) && AllSettled([first]);
    second := UseAll(1, 100);
    ChainGrows(1, 100, [first], second);
    assert [first] + [second] == [first, second];
    assert TotalRecorded([first]) == 1;
  }
}
