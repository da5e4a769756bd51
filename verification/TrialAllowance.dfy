/** The trial allowance: what the ledger's local view is worth against a control plane that
    applies a usage report exactly when it acknowledges it. */
module TrialAllowance {
  import opened Counting
  import opened UsageLedger
  import opened Wrappers

  /** The control plane's side of one trial endpoint. `issued` holds every authorization it
      answered, since a cached one can come back later. */
  datatype Plane = Plane(remaining: int, transfer: int, issued: set<Authorization>)

  /** `late` are the handlers whose reply was overtaken by an acknowledgement of completions: it
      arrived after the reply and before the admission. `lateBytes` likewise for an
      acknowledgement of transferred bytes. The agent sees both for itself. */
  datatype Trial = Trial(w: World, plane: Plane, late: set<nat>, lateBytes: set<nat>)

  function Begin(grant: nat, transferGrant: int): Trial {
    Trial(START, Plane(grant, transferGrant, {}), {}, {})
  }

  predicate Current(auth: Authorization, p: Plane) {
    auth.remaining == p.remaining && auth.transferRemaining == p.transfer
  }

  predicate ForTrial(auth: Authorization) { auth.trial && auth.maxConcurrency == 1 }

  /** The answers of a trial control plane with a concurrency limit of one. */
  predicate Answers(t: Trial, e: Event)
    requires Enabled(t.w, e)
  {
    match e
    case OfHandler(_, Authorize(auth, isFresh)) =>
      ForTrial(auth) && if isFresh then Current(auth, t.plane) else auth in t.plane.issued
    case OfReporter(r, Acknowledge(reply)) =>
      var b := t.w.reporters[r].batch;
      reply.trial && reply.remaining == t.plane.remaining - b.count
      && reply.transferRemaining == t.plane.transfer - b.bytes
    case _ => true
  }

  /** Which late admissions a run excludes: none, those on a fresh reply overtaken by an
      acknowledgement of completions, or those on any overtaken fresh reply. */
  datatype Care = Nothing | Counts | Everything

  predicate Prompt(t: Trial, e: Event, care: Care)
    requires Enabled(t.w, e)
  {
    match e
    case OfHandler(id, Admit(_)) =>
      t.w.handlers[id].isFresh ==>
        (!care.Nothing? ==> id !in t.late) && (care.Everything? ==> id !in t.lateBytes)
    case _ => true
  }

  function PlaneAfter(t: Trial, e: Event): Plane
    requires Enabled(t.w, e)
  {
    match e
    case OfHandler(_, Authorize(auth, _)) => t.plane.(issued := t.plane.issued + {auth})
    case OfReporter(r, Acknowledge(_)) =>
      var b := t.w.reporters[r].batch;
      t.plane.(remaining := t.plane.remaining - b.count, transfer := t.plane.transfer - b.bytes)
    case _ => t.plane
  }

  function WithReply(w: World): set<nat> { set id | id in w.handlers && w.handlers[id].Authorized? }

  /** The overtaken handlers after a step, given what the step acknowledges. */
  function Overtaken(late: set<nat>, w: World, e: Event, acknowledged: int): set<nat>
    requires Enabled(w, e)
  {
    match e
    case OfHandler(id, Authorize(_, _)) => late - {id}
    case OfReporter(_, Acknowledge(_)) => if acknowledged != 0 then late + WithReply(w) else late
    case _ => late
  }

  function Reported(w: World, e: Event): Batch
    requires Enabled(w, e)
  {
    match e
    case OfReporter(r, Acknowledge(_)) => w.reporters[r].batch
    case _ => Batch(0, 0)
  }

  function Step(t: Trial, e: Event): Trial
    requires Enabled(t.w, e)
  {
    var b := Reported(t.w, e);
    Trial(Apply(t.w, e), PlaneAfter(t, e), Overtaken(t.late, t.w, e, b.count), Overtaken(t.lateBytes, t.w, e, b.bytes))
  }

  /** Runs against the trial control plane. */
  function Play(t: Trial, es: seq<Event>, care: Care): Option<Trial> {
    if es == [] then Some(t)
    else
      var last := |es| - 1;
      match Play(t, es[..last], care)
      case None => None
      case Some(u) =>
        if Enabled(u.w, es[last]) && Answers(u, es[last]) && Prompt(u, es[last], care)
        then Some(Step(u, es[last])) else None
  }

  // ---------- the invariant ----------

  /** What replies are worth: a fresh one is exact as long as it is not overtaken, and promises
      too much as soon as it is. */
  ghost predicate RepliesAgree(t: Trial) {
    && (forall auth :: auth in t.plane.issued ==> ForTrial(auth))
    && (forall id :: id in t.w.handlers && t.w.handlers[id].Authorized? ==>
          var h := t.w.handlers[id];
          && h.auth in t.plane.issued
          && (h.isFresh ==>
                && (id in t.late ==> h.auth.remaining > t.plane.remaining)
                && (id !in t.late ==> h.auth.remaining == t.plane.remaining)
                && (id !in t.lateBytes ==> h.auth.transferRemaining == t.plane.transfer)))
  }

  ghost predicate PlaneAgrees(t: Trial, grant: int, transferGrant: int) {
    && t.plane.remaining == grant - t.w.totals.acked
    && t.plane.transfer == transferGrant - t.w.totals.ackedBytes
  }

  /** Nothing has been admitted yet, so every answer still carries the whole grant. */
  ghost predicate Unsynced(t: Trial) {
    && t.w.l.trialRemaining < 0
    && t.w.totals == Totals(0, 0, 0, 0)
    && t.w.reporters == []
    && t.w.l.pendingUsage == 0 && t.w.l.pendingTransfer == 0
    && (forall id :: id in t.w.handlers ==> !HoldsSlot(t.w.handlers[id]))
    && (forall auth :: auth in t.plane.issued ==> Current(auth, t.plane))
  }

  /** The local view is the plane's allowance less what it has not acknowledged yet. */
  ghost predicate CountExact(t: Trial) {
    t.w.l.trialRemaining == t.plane.remaining - t.w.l.pendingUsage
  }

  ghost predicate BytesExact(t: Trial) {
    t.w.l.transferRemaining == t.plane.transfer - t.w.l.pendingTransfer
  }

  /** The allowance is known: everything unacknowledged is pending, the grant is not overshot, and
      a request being served still has an allowance to consume. The view of the count is exact,
      unless the view of the bytes turns every request away anyway. */
  ghost predicate InSync(t: Trial, grant: int) {
    && t.w.l.trialRemaining >= 0
    && t.w.l.pendingUsage == t.w.totals.recorded - t.w.totals.acked
    && t.w.l.pendingTransfer == t.w.totals.recordedBytes - t.w.totals.ackedBytes
    && t.w.totals.recorded <= grant
    && (CountExact(t) || t.w.l.transferRemaining <= 0)
    && (forall id :: id in t.w.handlers && t.w.handlers[id].Holding? ==>
          t.w.l.trialRemaining >= 1 && t.w.totals.recorded < grant)
  }

  ghost predicate OnTrial(t: Trial, grant: int, transferGrant: int) {
    && Invariant(t.w)
    && t.w.l.inFlight <= 1
    && PlaneAgrees(t, grant, transferGrant) && RepliesAgree(t)
    && (Unsynced(t) || InSync(t, grant))
  }

  /** Once known, the view is exact in what the run takes care of. */
  ghost predicate ViewExact(t: Trial, care: Care) {
    t.w.l.trialRemaining >= 0 ==> CountExact(t) && (care.Everything? ==> BytesExact(t))
  }

  /** What a step of a careful run keeps: the invariant, a known allowance, an exact view. */
  ghost predicate Kept(t: Trial, u: Trial, grant: int, transferGrant: int, care: Care) {
    && OnTrial(u, grant, transferGrant)
    && (t.w.l.trialRemaining >= 0 ==> u.w.l.trialRemaining >= 0)
    && (ViewExact(t, care) ==> ViewExact(u, care))
  }

  lemma NoOneHolds(w: World)
    requires SlotsCounted(w) && w.l.inFlight < 1
    ensures forall id :: id in w.handlers ==> !HoldsSlot(w.handlers[id])
  {
    forall id | id in w.handlers ensures !HoldsSlot(w.handlers[id]) {
      if HoldsSlot(w.handlers[id]) { CountPositive(w.handlers, id, HoldsSlot); }
    }
  }

  lemma OnlyHolder(w: World, i: nat, j: nat)
    requires SlotsCounted(w) && w.l.inFlight <= 1
    requires i in w.handlers && j in w.handlers && HoldsSlot(w.handlers[i]) && HoldsSlot(w.handlers[j])
    ensures i == j
  {
    if i != j { CountTwo(w.handlers, i, j, HoldsSlot); }
  }

  /** Replies are affected by authorizations and acknowledgements only. */
  lemma RepliesStep(t: Trial, e: Event)
    requires Invariant(t.w) && RepliesAgree(t) && Enabled(t.w, e) && Answers(t, e)
    ensures RepliesAgree(Step(t, e))
  {
    if e.OfReporter? && e.e.Acknowledge? {
      assert t.w.reporters[e.r].batch.count >= 0;
    }
  }

  lemma PlaneStep(t: Trial, e: Event, grant: int, transferGrant: int)
    requires PlaneAgrees(t, grant, transferGrant) && Enabled(t.w, e)
    ensures PlaneAgrees(Step(t, e), grant, transferGrant)
  {
  }

  lemma {:induction false} PlayKeepsReplies(t: Trial, es: seq<Event>, care: Care, u: Trial)
    requires Invariant(t.w) && RepliesAgree(t) && Play(t, es, care) == Some(u)
    ensures Invariant(u.w) && RepliesAgree(u)
  {
    if es != [] {
      var last := |es| - 1;
      var before := Play(t, es[..last], care).value;
      PlayKeepsReplies(t, es[..last], care, before);
      InvariantStep(before.w, es[last]);
      RepliesStep(before, es[last]);
    }
  }

  lemma AdmitKeepsTrial(t: Trial, e: Event, grant: int, transferGrant: int, care: Care)
    requires OnTrial(t, grant, transferGrant) && grant >= 0 && !care.Nothing?
    requires Enabled(t.w, e) && Prompt(t, e, care) && e.OfHandler? && e.h.Admit?
    ensures Kept(t, Step(t, e), grant, transferGrant, care)
  {
    InvariantStep(t.w, e);
    RepliesStep(t, e);
    PlaneStep(t, e, grant, transferGrant);
    if t.w.l.inFlight < 1 { NoOneHolds(t.w); }
  }

  lemma MeterKeepsTrial(t: Trial, e: Event, grant: int, transferGrant: int, care: Care)
    requires OnTrial(t, grant, transferGrant)
    requires Enabled(t.w, e) && e.OfHandler? && e.h.Meter?
    ensures Kept(t, Step(t, e), grant, transferGrant, care)
  {
    InvariantStep(t.w, e);
    RepliesStep(t, e);
    PlaneStep(t, e, grant, transferGrant);
    forall j | j in t.w.handlers && t.w.handlers[j].Holding? ensures j == e.id {
      OnlyHolder(t.w, e.id, j);
    }
  }

  lemma OtherHandlerKeepsTrial(t: Trial, e: Event, grant: int, transferGrant: int, care: Care)
    requires OnTrial(t, grant, transferGrant)
    requires Enabled(t.w, e) && Answers(t, e) && e.OfHandler? && !e.h.Admit? && !e.h.Meter?
    ensures Kept(t, Step(t, e), grant, transferGrant, care)
  {
    InvariantStep(t.w, e);
    RepliesStep(t, e);
    PlaneStep(t, e, grant, transferGrant);
    OnlyMeterTouchesUsage(t.w, e.id, e.h);
  }

  lemma ReporterKeepsTrial(t: Trial, e: Event, grant: int, transferGrant: int, care: Care)
    requires OnTrial(t, grant, transferGrant)
    requires Enabled(t.w, e) && Answers(t, e) && !e.OfHandler?
    ensures Kept(t, Step(t, e), grant, transferGrant, care)
  {
    InvariantStep(t.w, e);
    RepliesStep(t, e);
    PlaneStep(t, e, grant, transferGrant);
    if e.OfReporter? && !e.e.CloseDone? {
      LiveIsNewest(t.w, e.r);
    }
  }

  lemma TrialStep(t: Trial, e: Event, grant: int, transferGrant: int, care: Care)
    requires OnTrial(t, grant, transferGrant) && grant >= 0 && !care.Nothing?
    requires Enabled(t.w, e) && Answers(t, e) && Prompt(t, e, care)
    ensures Kept(t, Step(t, e), grant, transferGrant, care)
  {
    if !e.OfHandler? {
      ReporterKeepsTrial(t, e, grant, transferGrant, care);
    } else if e.h.Admit? {
      AdmitKeepsTrial(t, e, grant, transferGrant, care);
    } else if e.h.Meter? {
      MeterKeepsTrial(t, e, grant, transferGrant, care);
    } else {
      OtherHandlerKeepsTrial(t, e, grant, transferGrant, care);
    }
  }

  lemma {:induction false} PlayKeepsTrial(t: Trial, es: seq<Event>, grant: int, transferGrant: int, care: Care,
                                          u: Trial)
    requires OnTrial(t, grant, transferGrant) && grant >= 0 && !care.Nothing?
    requires Play(t, es, care) == Some(u)
    ensures Kept(t, u, grant, transferGrant, care)
  {
    if es != [] {
      var last := |es| - 1;
      var v := Play(t, es[..last], care).value;
      PlayKeepsTrial(t, es[..last], grant, transferGrant, care, v);
      TrialStep(v, es[last], grant, transferGrant, care);
    }
  }

  lemma BeginIsOnTrial(grant: nat, transferGrant: int)
    ensures OnTrial(Begin(grant, transferGrant), grant, transferGrant)
  {
    StartIsInvariant();
  }

  lemma CarefulRun(grant: nat, transferGrant: int, es: seq<Event>, care: Care, t: Trial)
    requires Play(Begin(grant, transferGrant), es, care) == Some(t) && !care.Nothing?
    ensures OnTrial(t, grant, transferGrant) && ViewExact(t, care)
  {
    BeginIsOnTrial(grant, transferGrant);
    PlayKeepsTrial(Begin(grant, transferGrant), es, grant, transferGrant, care, t);
  }

  /** No trial overshoot: in every run without an admission on a fresh reply that completions have
      overtaken, completed requests never exceed the grant, and a known local view is exactly the
      grant less the completions, that is, the plane's allowance less the pending ones. Without
      any overtaken reply the view of the transfer allowance is exact too. */
  lemma NoTrialOvershoot(grant: nat, transferGrant: int, es: seq<Event>, care: Care, t: Trial)
    requires Play(Begin(grant, transferGrant), es, care) == Some(t) && !care.Nothing?
    ensures t.w.totals.recorded <= grant
    ensures t.w.l.trialRemaining < 0 ==> t.w.totals.recorded == 0
    ensures t.w.l.trialRemaining >= 0 ==>
              && CountExact(t) && t.w.l.trialRemaining == grant - t.w.totals.recorded
              && (care.Everything? ==> BytesExact(t))
  {
    CarefulRun(grant, transferGrant, es, care, t);
  }

  /** From the first sync on the local view is never negative again, in any continuation. */
  lemma OnceSyncedNeverNegative(grant: nat, transferGrant: int, es: seq<Event>, t: Trial, more: seq<Event>,
                                care: Care, u: Trial)
    requires Play(Begin(grant, transferGrant), es, care) == Some(t) && !care.Nothing?
    requires t.w.l.trialRemaining >= 0 && Play(t, more, care) == Some(u)
    ensures u.w.l.trialRemaining >= 0 && CountExact(u)
  {
    CarefulRun(grant, transferGrant, es, care, t);
    PlayKeepsTrial(t, more, grant, transferGrant, care, u);
  }

  // ---------- exactly which admission can lead to an overshoot ----------

  /** A handler that can still complete without bringing a fresh reply along: it is being served,
      has a cached reply, or can ask for one. */
  predicate MayServe(h: Handler) { h.Serving? || h.Holding? || (h.Authorized? && !(h.again && h.isFresh)) }

  /** The handlers left to complete in this way once this one has been judged. */
  ghost function LeftToServe(t: Trial, id: nat): nat {
    Count(t.w.handlers[id := if t.w.l.inFlight < 1 then Holding else Finished], MayServe)
  }

  /** The admission to watch for: a fresh reply that an acknowledgement of completions has
      overtaken, which leaves a transfer allowance, with requests enough to come. While the door
      is open there always are; when drain has closed it, those already inside have to be more
      than the allowance known before. The agent sees all of this before it admits. */
  ghost predicate Dangerous(t: Trial, id: nat)
    requires id in t.w.handlers && t.w.handlers[id].Authorized?
  {
    var h := t.w.handlers[id];
    && h.isFresh && id in t.late
    && h.auth.transferRemaining > t.w.l.pendingTransfer
    && (t.w.l.closing ==> LeftToServe(t, id) > t.w.l.trialRemaining)
  }

  /** The door is closed and the handlers inside cannot overshoot the grant any more, whatever the
      view says. */
  ghost predicate TooFewLeft(t: Trial, grant: int, transferGrant: int) {
    && Invariant(t.w) && t.w.l.inFlight <= 1 && PlaneAgrees(t, grant, transferGrant) && RepliesAgree(t)
    && t.w.l.closing && t.w.l.trialRemaining >= 0
    && t.w.l.pendingUsage == t.w.totals.recorded - t.w.totals.acked
    && t.w.l.pendingTransfer == t.w.totals.recordedBytes - t.w.totals.ackedBytes
    && t.w.totals.recorded + Count(t.w.handlers, MayServe) <= grant
    && (forall id :: id in t.w.handlers && t.w.handlers[id].Holding? ==> t.w.l.trialRemaining >= 1)
  }

  /** What a late admission does: the view promises more than the grant has left. */
  lemma LateAdmission(t: Trial, e: Event, grant: int, transferGrant: int)
    requires OnTrial(t, grant, transferGrant) && ViewExact(t, Counts)
    requires Enabled(t.w, e) && e.OfHandler? && e.h.Admit?
    requires t.w.handlers[e.id].isFresh && e.id in t.late
    ensures var u := Step(t, e);
            && u.w.l.trialRemaining > grant - u.w.totals.recorded >= 0
            && u.w.totals == t.w.totals && u.w.l.closing == t.w.l.closing
            && u.w.l.transferRemaining == t.w.handlers[e.id].auth.transferRemaining - t.w.l.pendingTransfer
            && (u.w.l.transferRemaining > 0 ==> Count(u.w.handlers, MayServe) == LeftToServe(t, e.id))
            && (u.w.l.transferRemaining <= 0 ==> OnTrial(u, grant, transferGrant))
            && (u.w.l.closing && Count(u.w.handlers, MayServe) <= grant - u.w.totals.recorded ==>
                  TooFewLeft(u, grant, transferGrant))
  {
    InvariantStep(t.w, e);
    RepliesStep(t, e);
    PlaneStep(t, e, grant, transferGrant);
  }

  /** One admission keeps the view of the count exact if and only if it does not use a fresh reply
      that completions have overtaken. */
  lemma AdmissionIsExactIffInTime(grant: nat, transferGrant: int, past: seq<Event>, t: Trial, e: Event)
    requires Play(Begin(grant, transferGrant), past, Counts) == Some(t)
    requires Enabled(t.w, e) && e.OfHandler? && e.h.Admit?
    ensures CountExact(Step(t, e)) <==> !(t.w.handlers[e.id].isFresh && e.id in t.late)
  {
    CarefulRun(grant, transferGrant, past, Counts, t);
    if t.w.handlers[e.id].isFresh && e.id in t.late {
      LateAdmission(t, e, grant, transferGrant);
      RepliesStep(t, e);
      PlaneStep(t, e, grant, transferGrant);
    } else {
      TrialStep(t, e, grant, transferGrant, Counts);
    }
  }

  lemma HoldersServe(w: World, id: nat)
    requires id in w.handlers && w.handlers[id].Holding?
    ensures Count(w.handlers, MayServe) >= 1
  {
    CountPositive(w.handlers, id, MayServe);
  }

  /** A handler's step while too few are left: a completion uses one of them up, and a fresh reply
      brings the view back in line. */
  lemma TooFewHandler(t: Trial, e: Event, grant: int, transferGrant: int)
    requires TooFewLeft(t, grant, transferGrant) && Enabled(t.w, e) && Answers(t, e) && Prompt(t, e, Counts)
    requires e.OfHandler?
    ensures TooFewLeft(Step(t, e), grant, transferGrant) || OnTrial(Step(t, e), grant, transferGrant)
  {
    var u := Step(t, e);
    InvariantStep(t.w, e);
    RepliesStep(t, e);
    PlaneStep(t, e, grant, transferGrant);
    CountersFollow(t.w, e.id, e.h);
    CountUpdate(t.w.handlers, e.id, u.w.handlers[e.id], MayServe);
    forall id | id in t.w.handlers && t.w.handlers[id].Holding? ensures t.w.totals.recorded < grant {
      HoldersServe(t.w, id);
    }
    if e.h.Meter? {
      forall id | id in t.w.handlers && t.w.handlers[id].Holding? ensures id == e.id {
        OnlyHolder(t.w, id, e.id);
      }
    }
  }

  /** A reporter's step: an acknowledgement brings the view back in line, nothing else moves it. */
  lemma TooFewReporter(t: Trial, e: Event, grant: int, transferGrant: int)
    requires TooFewLeft(t, grant, transferGrant) && Enabled(t.w, e) && Answers(t, e) && !e.OfHandler?
    ensures TooFewLeft(Step(t, e), grant, transferGrant) || OnTrial(Step(t, e), grant, transferGrant)
  {
    InvariantStep(t.w, e);
    RepliesStep(t, e);
    PlaneStep(t, e, grant, transferGrant);
    forall id | id in t.w.handlers && t.w.handlers[id].Holding? ensures t.w.totals.recorded < grant {
      HoldersServe(t.w, id);
    }
    if e.OfReporter? && !e.e.CloseDone? {
      LiveIsNewest(t.w, e.r);
    }
  }

  lemma {:induction false} TooFewRun(t: Trial, es: seq<Event>, grant: int, transferGrant: int, u: Trial)
    requires TooFewLeft(t, grant, transferGrant) && grant >= 0 && Play(t, es, Counts) == Some(u)
    ensures TooFewLeft(u, grant, transferGrant) || OnTrial(u, grant, transferGrant)
    ensures u.w.totals.recorded <= grant
  {
    if es != [] {
      var last := |es| - 1;
      var v := Play(t, es[..last], Counts).value;
      TooFewRun(t, es[..last], grant, transferGrant, v);
      if OnTrial(v, grant, transferGrant) {
        TrialStep(v, es[last], grant, transferGrant, Counts);
      } else if es[last].OfHandler? {
        TooFewHandler(v, es[last], grant, transferGrant);
      } else {
        TooFewReporter(v, es[last], grant, transferGrant);
      }
    }
  }

  lemma PlayOne(base: Trial, es: seq<Event>, t: Trial, e: Event, care: Care) returns (longer: seq<Event>, u: Trial)
    requires Play(base, es, care) == Some(t)
    requires Enabled(t.w, e) && Answers(t, e) && Prompt(t, e, care)
    ensures Play(base, longer, care) == Some(u) && u == Step(t, e)
  {
    longer, u := es + [e], Step(t, e);
    assert longer[..|longer| - 1] == es;
  }

  /** A view that lets `n` more requests through on a cached reply, and handlers to make them. */
  ghost predicate Roomy(t: Trial, auth: Authorization, n: nat) {
    && Invariant(t.w) && t.w.l.inFlight <= 1 && RepliesAgree(t)
    && auth in t.plane.issued && ForTrial(auth)
    && t.w.l.trialRemaining >= n && t.w.l.transferRemaining > 0
    && (t.w.l.closing ==> Count(t.w.handlers, MayServe) >= n)
  }

  /** One completion more, everything else that counts as before. */
  ghost predicate OneMore(t: Trial, u: Trial, id: nat) {
    && u.w.totals.recorded == t.w.totals.recorded + 1
    && u.w.l.trialRemaining == t.w.l.trialRemaining - 1 && u.w.l.transferRemaining == t.w.l.transferRemaining
    && u.w.l.inFlight == 0 && u.w.l.closing == t.w.l.closing && u.plane.issued == t.plane.issued
    && u.w.handlers == t.w.handlers[id := Finished]
  }

  lemma FinishHolder(base: Trial, es: seq<Event>, t: Trial, id: nat) returns (longer: seq<Event>, u: Trial)
    requires Play(base, es, Counts) == Some(t)
    requires id in t.w.handlers && t.w.handlers[id].Holding? && t.w.l.inFlight == 1 && t.w.l.trialRemaining >= 0
    ensures Play(base, longer, Counts) == Some(u) && OneMore(t, u, id)
  {
    longer, u := PlayOne(base, es, t, OfHandler(id, Meter(1, 0)), Counts);
    longer, u := PlayOne(base, longer, u, OfHandler(id, Release), Counts);
    assert t.w.handlers[id := Metered][id := Finished] == t.w.handlers[id := Finished];
  }

  /** A handler that has not asked twice gets a cached reply. */
  lemma GetCached(base: Trial, es: seq<Event>, t: Trial, id: nat, auth: Authorization)
    returns (longer: seq<Event>, u: Trial, cached: Authorization)
    requires Play(base, es, Counts) == Some(t) && RepliesAgree(t)
    requires id in t.w.handlers && MayServe(t.w.handlers[id]) && !t.w.handlers[id].Holding?
    requires auth in t.plane.issued && ForTrial(auth)
    ensures Play(base, longer, Counts) == Some(u) && ForTrial(cached)
    ensures exists again :: u.w == t.w.(handlers := t.w.handlers[id := Authorized(cached, false, again)])
    ensures u.plane.issued == t.plane.issued
  {
    var h := t.w.handlers[id];
    if h.Authorized? && h.again {
      longer, u, cached := es, t, h.auth;
      assert t.w.handlers[id := h] == t.w.handlers;
      assert u.w == t.w.(handlers := t.w.handlers[id := Authorized(cached, false, true)]);
    } else {
      longer, u := PlayOne(base, es, t, OfHandler(id, Authorize(auth, false)), Counts);
      cached := auth;
      assert t.plane.issued + {auth} == t.plane.issued;
      assert u.w == t.w.(handlers := t.w.handlers[id := Authorized(cached, false, h.Authorized?)]);
    }
  }

  /** It takes the slot with that reply. */
  lemma TakeSlot(base: Trial, es: seq<Event>, t: Trial, id: nat, auth: Authorization)
    returns (longer: seq<Event>, u: Trial)
    requires Play(base, es, Counts) == Some(t) && RepliesAgree(t)
    requires id in t.w.handlers && MayServe(t.w.handlers[id]) && t.w.l.inFlight == 0 && !t.w.handlers[id].Holding?
    requires auth in t.plane.issued && ForTrial(auth) && t.w.l.trialRemaining >= 1 && t.w.l.transferRemaining > 0
    ensures Play(base, longer, Counts) == Some(u)
    ensures u.w.handlers == t.w.handlers[id := Holding] && u.w.totals == t.w.totals && u.plane.issued == t.plane.issued
    ensures u.w.l.inFlight == 1 && u.w.l.closing == t.w.l.closing
    ensures u.w.l.trialRemaining == t.w.l.trialRemaining && u.w.l.transferRemaining == t.w.l.transferRemaining
  {
    var cached;
    longer, u, cached := GetCached(base, es, t, id, auth);
    longer, u := PlayOne(base, longer, u, OfHandler(id, Admit(false)), Counts);
  }

  lemma ServeOne(base: Trial, es: seq<Event>, t: Trial, id: nat, auth: Authorization)
    returns (longer: seq<Event>, u: Trial)
    requires Play(base, es, Counts) == Some(t) && RepliesAgree(t)
    requires id in t.w.handlers && MayServe(t.w.handlers[id]) && t.w.l.inFlight == 0 && !t.w.handlers[id].Holding?
    requires auth in t.plane.issued && ForTrial(auth) && t.w.l.trialRemaining >= 1 && t.w.l.transferRemaining > 0
    ensures Play(base, longer, Counts) == Some(u) && OneMore(t, u, id)
  {
    var held;
    longer, held := TakeSlot(base, es, t, id, auth);
    longer, u := FinishHolder(base, longer, held, id);
    assert t.w.handlers[id := Holding][id := Finished] == t.w.handlers[id := Finished];
  }

  lemma {:induction false} Above(ids: set<nat>) returns (id: nat)
    ensures forall i :: i in ids ==> i < id
  {
    if ids == {} {
      id := 0;
    } else {
      var i :| i in ids;
      var above := Above(ids - {i});
      id := if above > i then above else i + 1;
      assert ids == (ids - {i}) + {i};
    }
  }

  lemma SomeoneMatches(handlers: map<nat, Handler>, p: Handler -> bool) returns (id: nat)
    requires Count(handlers, p) >= 1
    ensures id in handlers && p(handlers[id])
  {
    id :| id in Matching(handlers, p);
  }

  /** With the slot free, some handler can be served next: one inside, or a new one. */
  lemma NextHandler(base: Trial, es: seq<Event>, t: Trial, auth: Authorization, n: nat)
    returns (longer: seq<Event>, u: Trial, id: nat)
    requires Play(base, es, Counts) == Some(t) && Roomy(t, auth, n) && n >= 1 && t.w.l.inFlight == 0
    ensures Play(base, longer, Counts) == Some(u) && Roomy(u, auth, n) && u.w.l.inFlight == 0
    ensures u.w.totals == t.w.totals && id in u.w.handlers
    ensures MayServe(u.w.handlers[id]) && !u.w.handlers[id].Holding?
  {
    if t.w.l.closing {
      NoOneHolds(t.w);
      id := SomeoneMatches(t.w.handlers, MayServe);
      longer, u := es, t;
    } else {
      id := Above(t.w.handlers.Keys);
      longer, u := PlayOne(base, es, t, OfHandler(id, Enter), Counts);
      InvariantStep(t.w, OfHandler(id, Enter));
      RepliesStep(t, OfHandler(id, Enter));
    }
  }

  lemma AfterOne(t: Trial, u: Trial, id: nat, auth: Authorization, n: nat)
    requires Roomy(t, auth, n) && n >= 1 && id in t.w.handlers && OneMore(t, u, id) && Invariant(u.w) && RepliesAgree(u)
    ensures Roomy(u, auth, n - 1)
  {
    CountUpdate(t.w.handlers, id, Finished, MayServe);
  }

  /** As many requests as the view lets through can complete, one after the other, without any
      late admission. */
  lemma {:induction false} ServeAll(base: Trial, es: seq<Event>, t: Trial, auth: Authorization, n: nat)
    returns (longer: seq<Event>, u: Trial)
    requires Invariant(base.w) && RepliesAgree(base) && Play(base, es, Counts) == Some(t) && Roomy(t, auth, n)
    ensures Play(base, longer, Counts) == Some(u) && u.w.totals.recorded == t.w.totals.recorded + n
    decreases n
  {
    longer, u := es, t;
    if n > 0 {
      var before, id := t, 0;
      if t.w.l.inFlight == 1 {
        longer, u, before, id := ServeHolder(base, es, t, auth, n);
      } else {
        longer, before, id := NextHandler(base, es, t, auth, n);
        longer, u := ServeOne(base, longer, before, id, auth);
      }
      PlayKeepsReplies(base, longer, Counts, u);
      AfterOne(before, u, id, auth, n);
      longer, u := ServeAll(base, longer, u, auth, n - 1);
    }
  }

  /** With the slot taken, its holder completes, or gives it back to the next one that does. */
  lemma ServeHolder(base: Trial, es: seq<Event>, t: Trial, auth: Authorization, n: nat)
    returns (longer: seq<Event>, u: Trial, before: Trial, id: nat)
    requires Invariant(base.w) && RepliesAgree(base) && Play(base, es, Counts) == Some(t) && Roomy(t, auth, n)
    requires n >= 1 && t.w.l.inFlight == 1
    ensures Play(base, longer, Counts) == Some(u) && Roomy(before, auth, n) && before.w.totals == t.w.totals
    ensures id in before.w.handlers && OneMore(before, u, id)
  {
    id := SomeoneMatches(t.w.handlers, HoldsSlot);
    if t.w.handlers[id].Holding? {
      before := t;
      longer, u := FinishHolder(base, es, t, id);
    } else {
      longer, before := PlayOne(base, es, t, OfHandler(id, Release), Counts);
      InvariantStep(t.w, OfHandler(id, Release));
      RepliesStep(t, OfHandler(id, Release));
      CountUpdate(t.w.handlers, id, Finished, MayServe);
      longer, before, id := NextHandler(base, longer, before, auth, n);
      longer, u := ServeOne(base, longer, before, id, auth);
    }
  }

  /** Exactly which admission can lead to an overshoot. At any point of a run without late
      admissions, whatever admission comes next, some continuation without further late ones
      completes more requests than the grant if and only if that admission is dangerous. */
  lemma OvershootIffDangerous(grant: nat, transferGrant: int, past: seq<Event>, t: Trial, e: Event)
    requires Play(Begin(grant, transferGrant), past, Counts) == Some(t)
    requires Enabled(t.w, e) && e.OfHandler? && e.h.Admit?
    ensures (exists es, v :: Play(Step(t, e), es, Counts) == Some(v) && v.w.totals.recorded > grant)
            <==> Dangerous(t, e.id)
  {
    CarefulRun(grant, transferGrant, past, Counts, t);
    var u := Step(t, e);
    if Dangerous(t, e.id) {
      LateAdmission(t, e, grant, transferGrant);
      InvariantStep(t.w, e);
      RepliesStep(t, e);
      var n := grant - t.w.totals.recorded + 1;
      var es, v := ServeAll(u, [], u, t.w.handlers[e.id].auth, n);
    } else {
      forall es, v | Play(u, es, Counts) == Some(v) ensures v.w.totals.recorded <= grant {
        HarmlessAdmission(t, e, grant, transferGrant, es, v);
      }
    }
  }

  lemma HarmlessAdmission(t: Trial, e: Event, grant: nat, transferGrant: int, es: seq<Event>, v: Trial)
    requires OnTrial(t, grant, transferGrant) && ViewExact(t, Counts)
    requires Enabled(t.w, e) && e.OfHandler? && e.h.Admit? && !Dangerous(t, e.id)
    requires Play(Step(t, e), es, Counts) == Some(v)
    ensures v.w.totals.recorded <= grant
  {
    var u := Step(t, e);
    if !t.w.handlers[e.id].isFresh || e.id !in t.late {
      TrialStep(t, e, grant, transferGrant, Counts);
      PlayKeepsTrial(u, es, grant, transferGrant, Counts, v);
    } else {
      LateAdmission(t, e, grant, transferGrant);
      if u.w.l.transferRemaining <= 0 {
        PlayKeepsTrial(u, es, grant, transferGrant, Counts, v);
      } else {
        TooFewRun(u, es, grant, transferGrant, v);
      }
    }
  }

  // ---------- the shortest overshoot ----------

  /** Both handlers have their authorization, and the first one is being served. */
  lemma FirstIsServed(auth: Authorization) returns (es: seq<Event>, t: Trial)
    requires auth == Authorization(true, 1, 1, 100, "")
    ensures Play(Begin(1, 100), es, Nothing) == Some(t)
    ensures t.w.handlers == map[0 := Holding, 1 := Authorized(auth, true, false)]
    ensures t.w.reporters == [] && t.plane.remaining == 1 && t.plane.transfer == 100
    ensures t.w.l.inFlight == 1 && t.w.l.trialRemaining == 1 && !t.w.l.usageRunning
    ensures t.w.l.pendingUsage == 0 && t.w.l.pendingTransfer == 0
    ensures t.w.l.usageQueued == 0 && t.w.l.transferQueued == 0 && t.w.l.eventsQueued == 0
    ensures t.w.totals.recorded == 0
  {
    es, t := [], Begin(1, 100);
    es, t := PlayOne(Begin(1, 100), es, t, OfHandler(0, Enter), Nothing);
    es, t := PlayOne(Begin(1, 100), es, t, OfHandler(1, Enter), Nothing);
    es, t := PlayOne(Begin(1, 100), es, t, OfHandler(0, Authorize(auth, true)), Nothing);
    es, t := PlayOne(Begin(1, 100), es, t, OfHandler(1, Authorize(auth, true)), Nothing);
    es, t := PlayOne(Begin(1, 100), es, t, OfHandler(0, Admit(false)), Nothing);
  }

  /** The first request has completed. */
  lemma FirstIsMetered(auth: Authorization) returns (es: seq<Event>, t: Trial)
    requires auth == Authorization(true, 1, 1, 100, "")
    ensures Play(Begin(1, 100), es, Nothing) == Some(t)
    ensures t.w.handlers == map[0 := Metered, 1 := Authorized(auth, true, false)]
    ensures t.w.reporters == [Ready] && t.plane.remaining == 1 && t.plane.transfer == 100
    ensures t.w.l.inFlight == 1 && t.w.l.pendingUsage == 1 && t.w.l.pendingTransfer == 10
    ensures t.w.l.usageQueued == 1 && t.w.l.transferQueued == 10 && t.w.l.eventsQueued == 1
    ensures t.w.totals.recorded == 1
  {
    es, t := FirstIsServed(auth);
    es, t := PlayOne(Begin(1, 100), es, t, OfHandler(0, Meter(1, 10)), Nothing);
  }

  /** The first request has given its slot back and its report is on the way. */
  lemma FirstIsReported(auth: Authorization) returns (es: seq<Event>, t: Trial)
    requires auth == Authorization(true, 1, 1, 100, "")
    ensures Play(Begin(1, 100), es, Nothing) == Some(t)
    ensures t.w.handlers == map[0 := Finished, 1 := Authorized(auth, true, false)]
    ensures t.w.reporters == [Sending(Batch(1, 10))] && t.plane.remaining == 1 && t.plane.transfer == 100
    ensures t.w.l.inFlight == 0 && t.w.l.pendingUsage == 1 && t.w.l.pendingTransfer == 10
    ensures t.w.totals.recorded == 1
  {
    es, t := FirstIsMetered(auth);
    es, t := PlayOne(Begin(1, 100), es, t, OfHandler(0, Release), Nothing);
    es, t := PlayOne(Begin(1, 100), es, t, OfReporter(0, Take), Nothing);
  }

  /** With one request granted, two handlers authorized before the first completion both complete:
      only the second admission uses a reply that an acknowledgement has overtaken. */
  lemma StaleAdmissionOvershoots() returns (es: seq<Event>, t: Trial)
    ensures Play(Begin(1, 100), es, Nothing) == Some(t)
    ensures t.w.totals.recorded == 2
  {
    es, t := FirstIsReported(Authorization(true, 1, 1, 100, ""));
    es, t := PlayOne(Begin(1, 100), es, t, OfReporter(0, Acknowledge(UsageReply(true, 0, 90, "active"))), Nothing);
    es, t := PlayOne(Begin(1, 100), es, t, OfHandler(1, Admit(false)), Nothing);
    es, t := PlayOne(Begin(1, 100), es, t, OfHandler(1, Meter(1, 10)), Nothing);
  }
}
