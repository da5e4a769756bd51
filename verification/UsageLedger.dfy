/** Admission and usage accounting of the local inference handler: many request handlers, one
    background reporter, authorization replies and acknowledgements from the control plane,
    and shutdown, all sharing one set of counters under one mutex. */
module UsageLedger {
  import opened Counting
  import opened Wrappers

  const PAID_CONCURRENCY := 4

  // ---------- the lock-delimited sections, as functions of the guarded fields ----------

  /** The guarded fields. A remaining allowance of -1 stands for "paid or unknown".
      `usageDone` names the completion channel of the newest reporter. */
  datatype Ledger = Ledger(
    closing: bool, requests: int, inFlight: int, maxConcurrency: int,
    trialRemaining: int, transferRemaining: int,
    pendingUsage: int, pendingTransfer: int,
    trialCode: string, upgradeURL: string,
    usageQueued: int, transferQueued: int, eventsQueued: int,
    usageRunning: bool, usageDone: Option<nat>)

  const FRESH: Ledger :=
    Ledger(false, 0, 0, PAID_CONCURRENCY, -1, -1, 0, 0, "", "", 0, 0, 0, false, None)

  /** The control plane's answers, as far as the ledger reads them. */
  datatype Authorization = Authorization(
    trial: bool, maxConcurrency: int, remaining: int, transferRemaining: int, upgradeURL: string)

  datatype UsageReply = UsageReply(trial: bool, remaining: int, transferRemaining: int, status: string)

  datatype Admission = Admission(trial: bool, code: string, upgradeURL: string, admitted: bool)

  datatype Batch = Batch(count: int, bytes: int)

  predicate IsTrialCode(code: string) { code == "trial_exhausted" || code == "trial_expired" }

  function Max(a: int, b: int): int { if a < b then b else a }

  function Opened(l: Ledger): (Ledger, bool) {
    if l.closing then (l, false) else (l.(requests := l.requests + 1), true)
  }

  function Departed(l: Ledger): Ledger { l.(requests := l.requests - 1) }

  function Rejected(l: Ledger, code: string, url: string): Ledger { l.(trialCode := code, upgradeURL := url) }

  function SlotReturned(l: Ledger): Ledger { l.(inFlight := l.inFlight - 1) }

  function DoorClosed(l: Ledger): Ledger { l.(closing := true) }

  function Synced(l: Ledger, auth: Authorization, isFresh: bool): Ledger {
    if auth.trial then
      var url := if auth.upgradeURL != "" then auth.upgradeURL else l.upgradeURL;
      if isFresh || l.trialRemaining < 0 then
        l.(maxConcurrency := auth.maxConcurrency, upgradeURL := url,
           trialRemaining := auth.remaining - l.pendingUsage,
           transferRemaining := auth.transferRemaining - l.pendingTransfer,
           trialCode := "")
      else l.(maxConcurrency := auth.maxConcurrency, upgradeURL := url)
    else if isFresh then
      l.(maxConcurrency := auth.maxConcurrency, trialRemaining := -1, transferRemaining := -1, trialCode := "")
    else l.(maxConcurrency := auth.maxConcurrency)
  }

  function Decided(l: Ledger, auth: Authorization, isFresh: bool, expired: bool): (Ledger, Admission) {
    var s := Synced(l, auth, isFresh);
    if auth.trial && (s.trialRemaining <= 0 || s.transferRemaining <= 0) then
      var code := if s.trialCode != "" then s.trialCode
                  else if expired then "trial_expired" else "trial_exhausted";
      (s, Admission(true, code, s.upgradeURL, false))
    else if s.inFlight >= s.maxConcurrency then (s, Admission(auth.trial, "", "", false))
    else (s.(inFlight := s.inFlight + 1), Admission(auth.trial, "", "", true))
  }

  function Recorded(l: Ledger, completed: int, bytes: int, channel: nat): (Ledger, bool) {
    var queued := l.(usageQueued := l.usageQueued + completed,
                     transferQueued := l.transferQueued + bytes,
                     eventsQueued := l.eventsQueued + 1,
                     usageRunning := true,
                     usageDone := if l.usageRunning then l.usageDone else Some(channel));
    (if l.trialRemaining >= 0
     then queued.(trialRemaining := l.trialRemaining - completed,
                  transferRemaining := l.transferRemaining - bytes,
                  pendingUsage := l.pendingUsage + completed,
                  pendingTransfer := l.pendingTransfer + bytes)
     else queued,
     !l.usageRunning)
  }

  function Taken(l: Ledger): (Ledger, Option<Batch>) {
    if l.eventsQueued == 0 then (l.(usageRunning := false), None)
    else (l.(usageQueued := 0, transferQueued := 0, eventsQueued := 0),
          Some(Batch(l.usageQueued, l.transferQueued)))
  }

  function Failed(l: Ledger, b: Batch): Ledger {
    l.(usageQueued := l.usageQueued + b.count,
       transferQueued := l.transferQueued + b.bytes,
       eventsQueued := l.eventsQueued + 1,
       usageRunning := false)
  }

  function Acknowledged(l: Ledger, b: Batch, reply: UsageReply): Ledger {
    var l1 := l.(pendingUsage := Max(0, l.pendingUsage - b.count),
                 pendingTransfer := Max(0, l.pendingTransfer - b.bytes));
    if reply.trial then
      l1.(trialRemaining := reply.remaining - l1.pendingUsage,
          transferRemaining := reply.transferRemaining - l1.pendingTransfer,
          trialCode := if IsTrialCode("trial_" + reply.status) then "trial_" + reply.status else l1.trialCode)
    else l1.(trialRemaining := -1, transferRemaining := -1, trialCode := "")
  }

  /** The handler object. Each method is one section the program runs under its mutex. */
  class LocalInference {
    var closing: bool
    var requests: int
    var inFlight: int
    var maxConcurrency: int
    var trialRemaining: int
    var transferRemaining: int
    var pendingUsage: int
    var pendingTransfer: int
    var trialCode: string
    var upgradeURL: string
    var usageQueued: int
    var transferQueued: int
    var eventsQueued: int
    var usageRunning: bool
    var usageDone: Option<nat>

    function View(): Ledger
      reads this
    {
      Ledger(closing, requests, inFlight, maxConcurrency, trialRemaining, transferRemaining,
             pendingUsage, pendingTransfer, trialCode, upgradeURL,
             usageQueued, transferQueued, eventsQueued, usageRunning, usageDone)
    }

    constructor ()
      ensures View() == FRESH
    {
      closing, requests, inFlight, maxConcurrency := false, 0, 0, PAID_CONCURRENCY;
      trialRemaining, transferRemaining := -1, -1;
      pendingUsage, pendingTransfer := 0, 0;
      trialCode, upgradeURL := "", "";
      usageQueued, transferQueued, eventsQueued := 0, 0, 0;
      usageRunning, usageDone := false, None;
    }

    /** Head of ServeHTTP: refuse when closing, else join the request group. */
    method Open() returns (ok: bool)
      modifies this
      ensures (View(), ok) == Opened(old(View()))
    {
      if closing {
        return false;
      }
      requests := requests + 1;
      return true;
    }

    method Leave()
      modifies this
      ensures View() == Departed(old(View()))
    {
      requests := requests - 1;
    }

    /** The control plane answered 402 with a trial code. */
    method NoteTrialRejection(code: string, url: string)
      modifies this
      ensures View() == Rejected(old(View()), code, url)
    {
      trialCode, upgradeURL := code, url;
    }

    /** First half of admit: adopt the limit and, when due, the allowance of the reply. */
    method Sync(auth: Authorization, isFresh: bool)
      modifies this
      ensures View() == Synced(old(View()), auth, isFresh)
    {
      maxConcurrency := auth.maxConcurrency;
      if auth.trial {
        if auth.upgradeURL != "" {
          upgradeURL := auth.upgradeURL;
        }
        if isFresh || trialRemaining < 0 {
          trialRemaining := auth.remaining - pendingUsage;
          transferRemaining := auth.transferRemaining - pendingTransfer;
          trialCode := "";
        }
      } else if isFresh {
        trialRemaining, transferRemaining, trialCode := -1, -1, "";
      }
    }

    /** admit, one critical section: sync, then refuse or take a concurrency slot. */
    method Admit(auth: Authorization, isFresh: bool, expired: bool) returns (a: Admission)
      modifies this
      ensures (View(), a) == Decided(old(View()), auth, isFresh, expired)
    {
      Sync(auth, isFresh);
      if auth.trial && (trialRemaining <= 0 || transferRemaining <= 0) {
        var code := trialCode;
        if code == "" {
          code := if expired then "trial_expired" else "trial_exhausted";
        }
        return Admission(true, code, upgradeURL, false);
      }
      if inFlight >= maxConcurrency {
        return Admission(auth.trial, "", "", false);
      }
      inFlight := inFlight + 1;
      return Admission(auth.trial, "", "", true);
    }

    method Release()
      modifies this
      ensures View() == SlotReturned(old(View()))
    {
      inFlight := inFlight - 1;
    }

    /** recordUsage; `spawn` tells whether a reporter goroutine is started on `channel`. */
    method RecordUsage(completed: int, bytes: int, channel: nat) returns (spawn: bool)
      modifies this
      ensures (View(), spawn) == Recorded(old(View()), completed, bytes, channel)
    {
      if trialRemaining >= 0 {
        trialRemaining := trialRemaining - completed;
        transferRemaining := transferRemaining - bytes;
        pendingUsage := pendingUsage + completed;
        pendingTransfer := pendingTransfer + bytes;
      }
      usageQueued := usageQueued + completed;
      transferQueued := transferQueued + bytes;
      eventsQueued := eventsQueued + 1;
      spawn := !usageRunning;
      if spawn {
        usageRunning := true;
        usageDone := Some(channel);
      }
    }

    /** Top of the reporter's loop: stop when nothing is queued, else take everything. */
    method TakeReport() returns (batch: Option<Batch>)
      modifies this
      ensures (View(), batch) == Taken(old(View()))
    {
      if eventsQueued == 0 {
        usageRunning := false;
        return None;
      }
      batch := Some(Batch(usageQueued, transferQueued));
      usageQueued, transferQueued, eventsQueued := 0, 0, 0;
    }

    method ReportFailed(b: Batch)
      modifies this
      ensures View() == Failed(old(View()), b)
    {
      usageQueued := usageQueued + b.count;
      transferQueued := transferQueued + b.bytes;
      eventsQueued := eventsQueued + 1;
      usageRunning := false;
    }

    method ReportAcknowledged(b: Batch, reply: UsageReply)
      modifies this
      ensures View() == Acknowledged(old(View()), b, reply)
    {
      pendingUsage := Max(0, pendingUsage - b.count);
      pendingTransfer := Max(0, pendingTransfer - b.bytes);
      if reply.trial {
        trialRemaining := reply.remaining - pendingUsage;
        transferRemaining := reply.transferRemaining - pendingTransfer;
        if IsTrialCode("trial_" + reply.status) {
          trialCode := "trial_" + reply.status;
        }
      } else {
        trialRemaining, transferRemaining, trialCode := -1, -1, "";
      }
    }

    /** First section of drain. */
    method StopAdmitting()
      modifies this
      ensures View() == DoorClosed(old(View()))
    {
      closing := true;
    }
  }

  // ---------- handlers, reporters and their interleavings ----------

  /** A request handler. It is authorized once, or again after waiting for the model. Holding and
      Metered own a concurrency slot; usage is recorded on the way from Holding to Metered, before
      the deferred release. */
  datatype Handler =
    | Serving
    | Authorized(auth: Authorization, isFresh: bool, again: bool)
    | Holding
    | Metered
    | Finished
    | Gone

  /** A reporter goroutine; Stopped has cleared usageRunning but not yet closed its channel. */
  datatype Reporter = Ready | Sending(batch: Batch) | Stopped | Closed

  datatype Totals = Totals(recorded: int, recordedBytes: int, acked: int, ackedBytes: int)

  datatype World = World(l: Ledger, handlers: map<nat, Handler>, reporters: seq<Reporter>, totals: Totals)

  const START: World := World(FRESH, map[], [], Totals(0, 0, 0, 0))

  datatype HandlerEvent =
    | Enter
    | Authorize(auth: Authorization, isFresh: bool)
    | PaymentRequired(code: string, url: string)
    | Admit(expired: bool)
    | Meter(completed: nat, bytes: nat)
    | Skip
    | Release
    | Depart

  datatype ReporterEvent = Take | Fail | Acknowledge(reply: UsageReply) | CloseDone

  datatype Event = OfHandler(id: nat, h: HandlerEvent) | OfReporter(r: nat, e: ReporterEvent) | StartDrain

  predicate Deciding(h: Handler) { h.Serving? || h.Authorized? }
  predicate HoldsSlot(h: Handler) { h.Holding? || h.Metered? }
  predicate IsPresent(h: Handler) { !h.Gone? }
  predicate IsLive(r: Reporter) { r.Ready? || r.Sending? }

  predicate HandlerEnabled(w: World, id: nat, h: HandlerEvent) {
    if h.Enter? then id !in w.handlers
    else
      && id in w.handlers
      && var pc := w.handlers[id];
         match h
         case Enter => false
         case Authorize(_, _) => pc.Serving? || (pc.Authorized? && !pc.again)
         case PaymentRequired(code, _) => pc.Serving? && IsTrialCode(code)
         case Admit(_) => pc.Authorized?
         case Meter(completed, _) => pc.Holding? && completed <= 1
         case Skip => pc.Holding?
         case Release => pc.Metered?
         case Depart => Deciding(pc) || pc.Finished?
  }

  predicate ReporterEnabled(w: World, r: nat, e: ReporterEvent) {
    && r < |w.reporters|
    && match e
       case Take => w.reporters[r].Ready?
       case Fail => w.reporters[r].Sending?
       case Acknowledge(_) => w.reporters[r].Sending?
       case CloseDone => w.reporters[r].Stopped?
  }

  predicate Enabled(w: World, e: Event) {
    match e
    case OfHandler(id, h) => HandlerEnabled(w, id, h)
    case OfReporter(r, e) => ReporterEnabled(w, r, e)
    case StartDrain => true
  }

  function HandlerStep(w: World, id: nat, h: HandlerEvent): World
    requires HandlerEnabled(w, id, h)
  {
    match h
    case Enter =>
      var (l, ok) := Opened(w.l);
      w.(l := l, handlers := w.handlers[id := if ok then Serving else Gone])
    case Authorize(auth, isFresh) =>
      w.(handlers := w.handlers[id := Authorized(auth, isFresh, w.handlers[id].Authorized?)])
    case PaymentRequired(code, url) =>
      w.(l := Rejected(w.l, code, url), handlers := w.handlers[id := Finished])
    case Admit(expired) =>
      var (l, a) := Decided(w.l, w.handlers[id].auth, w.handlers[id].isFresh, expired);
      w.(l := l, handlers := w.handlers[id := if a.admitted then Holding else Finished])
    case Meter(completed, bytes) =>
      var (l, spawn) := Recorded(w.l, completed, bytes, |w.reporters|);
      World(l, w.handlers[id := Metered],
            if spawn then w.reporters + [Ready] else w.reporters,
            w.totals.(recorded := w.totals.recorded + completed,
                      recordedBytes := w.totals.recordedBytes + bytes))
    case Skip => w.(handlers := w.handlers[id := Metered])
    case Release => w.(l := SlotReturned(w.l), handlers := w.handlers[id := Finished])
    case Depart => w.(l := Departed(w.l), handlers := w.handlers[id := Gone])
  }

  function ReporterStep(w: World, r: nat, e: ReporterEvent): World
    requires ReporterEnabled(w, r, e)
  {
    match e
    case Take =>
      var (l, batch) := Taken(w.l);
      w.(l := l, reporters := w.reporters[r := if batch.Some? then Sending(batch.value) else Stopped])
    case Fail =>
      w.(l := Failed(w.l, w.reporters[r].batch), reporters := w.reporters[r := Stopped])
    case Acknowledge(reply) =>
      var b := w.reporters[r].batch;
      w.(l := Acknowledged(w.l, b, reply), reporters := w.reporters[r := Ready],
         totals := w.totals.(acked := w.totals.acked + b.count, ackedBytes := w.totals.ackedBytes + b.bytes))
    case CloseDone => w.(reporters := w.reporters[r := Closed])
  }

  function Apply(w: World, e: Event): World
    requires Enabled(w, e)
  {
    match e
    case OfHandler(id, h) => HandlerStep(w, id, h)
    case OfReporter(r, e) => ReporterStep(w, r, e)
    case StartDrain => w.(l := DoorClosed(w.l))
  }

  /** The state a schedule leads to from `w`, or None when some step is not possible. */
  function Exec(w: World, es: seq<Event>): Option<World> {
    if es == [] then Some(w)
    else
      var last := |es| - 1;
      match Exec(w, es[..last])
      case None => None
      case Some(v) => if Enabled(v, es[last]) then Some(Apply(v, es[last])) else None
  }

  // ---------- conservation ----------

  /** Usage inside reports that are on their way to the control plane. */
  function InReport(rs: seq<Reporter>): Batch {
    if rs == [] then Batch(0, 0)
    else
      var last := |rs| - 1;
      var rest := InReport(rs[..last]);
      if rs[last].Sending?
      then Batch(rest.count + rs[last].batch.count, rest.bytes + rs[last].batch.bytes)
      else rest
  }

  /** Only the newest reporter can be live, it is live exactly while usageRunning says so,
      and usageDone is its channel. */
  predicate ReportersOrdered(w: World) {
    var n := |w.reporters|;
    && (forall i :: 0 <= i < n - 1 ==> !IsLive(w.reporters[i]))
    && (w.l.usageRunning <==> n > 0 && IsLive(w.reporters[n - 1]))
    && w.l.usageDone == (if n == 0 then None else Some((n - 1) as nat))
  }

  predicate NonNegative(w: World) {
    && w.l.usageQueued >= 0 && w.l.transferQueued >= 0 && w.l.eventsQueued >= 0
    && (forall i :: 0 <= i < |w.reporters| && w.reporters[i].Sending?
          ==> w.reporters[i].batch.count >= 0 && w.reporters[i].batch.bytes >= 0)
  }

  /** The books, given how much is in report. */
  predicate BalancedWith(l: Ledger, t: Totals, sent: Batch) {
    && t.recorded - t.acked == sent.count + l.usageQueued
    && t.recordedBytes - t.ackedBytes == sent.bytes + l.transferQueued
    && (l.eventsQueued == 0 ==> l.usageQueued == 0 && l.transferQueued == 0)
    && 0 <= l.pendingUsage <= l.usageQueued + sent.count
    && 0 <= l.pendingTransfer <= l.transferQueued + sent.bytes
  }

  predicate Balanced(w: World) {
    BalancedWith(w.l, w.totals, InReport(w.reporters))
  }

  function Newest(rs: seq<Reporter>): Batch {
    if rs != [] && rs[|rs| - 1].Sending? then rs[|rs| - 1].batch else Batch(0, 0)
  }

  ghost predicate Books(w: World) {
    ReportersOrdered(w) && NonNegative(w) && BalancedWith(w.l, w.totals, Newest(w.reporters))
  }

  ghost predicate SlotsCounted(w: World) {
    && w.l.inFlight == Count(w.handlers, HoldsSlot)
    && w.l.requests == Count(w.handlers, IsPresent)
  }

  ghost predicate Invariant(w: World) {
    Books(w) && SlotsCounted(w)
  }

  lemma {:induction false} InReportOfIdle(rs: seq<Reporter>)
    requires forall i :: 0 <= i < |rs| ==> !IsLive(rs[i])
    ensures InReport(rs) == Batch(0, 0)
  {
    if rs != [] {
      InReportOfIdle(rs[..|rs| - 1]);
    }
  }

  /** With the older reporters idle, what is in report is what the newest one carries. */
  lemma InReportIsNewest(w: World)
    requires ReportersOrdered(w)
    ensures InReport(w.reporters) == Newest(w.reporters)
  {
    if w.reporters != [] {
      InReportOfIdle(w.reporters[..|w.reporters| - 1]);
    }
  }

  /** The only live reporter is the newest one. */
  lemma LiveIsNewest(w: World, r: nat)
    requires ReportersOrdered(w) && r < |w.reporters| && IsLive(w.reporters[r])
    ensures r == |w.reporters| - 1 && w.l.usageRunning
  {
  }

  /** Only recording touches the queue, the books or the reporters on a handler's side. */
  lemma OnlyMeterTouchesUsage(w: World, id: nat, h: HandlerEvent)
    requires HandlerEnabled(w, id, h) && !h.Meter?
    ensures var v := HandlerStep(w, id, h);
            && v.reporters == w.reporters && v.totals == w.totals
            && v.l.usageQueued == w.l.usageQueued && v.l.transferQueued == w.l.transferQueued
            && v.l.eventsQueued == w.l.eventsQueued && v.l.usageRunning == w.l.usageRunning
            && v.l.usageDone == w.l.usageDone
            && v.l.pendingUsage == w.l.pendingUsage && v.l.pendingTransfer == w.l.pendingTransfer
  {
  }

  lemma MeterStep(w: World, id: nat, h: HandlerEvent)
    requires HandlerEnabled(w, id, h) && h.Meter? && Books(w)
    ensures Books(HandlerStep(w, id, h))
  {
  }

  lemma ReporterBooks(w: World, r: nat, e: ReporterEvent)
    requires ReporterEnabled(w, r, e) && Books(w)
    ensures Books(ReporterStep(w, r, e))
  {
    if !e.CloseDone? {
      LiveIsNewest(w, r);
    }
  }

  lemma BooksStep(w: World, e: Event)
    requires Enabled(w, e) && Books(w)
    ensures Books(Apply(w, e))
  {
    match e
    case OfHandler(id, h) =>
      if h.Meter? { MeterStep(w, id, h); } else { OnlyMeterTouchesUsage(w, id, h); }
    case OfReporter(r, e) => ReporterBooks(w, r, e);
    case StartDrain =>
  }

  function SlotOf(w: World, id: nat): nat { if id in w.handlers && HoldsSlot(w.handlers[id]) then 1 else 0 }

  function PresenceOf(w: World, id: nat): nat { if id in w.handlers && IsPresent(w.handlers[id]) then 1 else 0 }

  /** A handler's step touches that handler only, and moves the counters with it. */
  lemma CountersFollow(w: World, id: nat, h: HandlerEvent)
    requires HandlerEnabled(w, id, h)
    ensures var v := HandlerStep(w, id, h);
            && id in v.handlers && v.handlers == w.handlers[id := v.handlers[id]]
            && v.l.inFlight - w.l.inFlight == SlotOf(v, id) - SlotOf(w, id)
            && v.l.requests - w.l.requests == PresenceOf(v, id) - PresenceOf(w, id)
  {
  }

  lemma SlotsStep(w: World, e: Event)
    requires Enabled(w, e) && SlotsCounted(w)
    ensures SlotsCounted(Apply(w, e))
  {
    match e
    case OfHandler(id, h) =>
      var v := HandlerStep(w, id, h);
      CountersFollow(w, id, h);
      CountUpdate(w.handlers, id, v.handlers[id], HoldsSlot);
      CountUpdate(w.handlers, id, v.handlers[id], IsPresent);
    case OfReporter(_, _) =>
    case StartDrain =>
  }

  lemma InvariantStep(w: World, e: Event)
    requires Enabled(w, e) && Invariant(w)
    ensures Invariant(Apply(w, e))
  {
    BooksStep(w, e);
    SlotsStep(w, e);
  }

  lemma {:induction false} RunKeepsInvariant(w: World, es: seq<Event>, v: World)
    requires Invariant(w) && Exec(w, es) == Some(v)
    ensures Invariant(v)
  {
    if es != [] {
      var last := |es| - 1;
      var u := Exec(w, es[..last]).value;
      RunKeepsInvariant(w, es[..last], u);
      InvariantStep(u, es[last]);
    }
  }

  lemma StartIsInvariant()
    ensures Invariant(START)
  {
    CountZero(START.handlers, HoldsSlot);
    CountZero(START.handlers, IsPresent);
  }

  /** The states some schedule leads to from the start. */
  ghost predicate Reachable(w: World) {
    exists es :: Exec(START, es) == Some(w)
  }

  lemma ReachableIsInvariant(w: World)
    requires Reachable(w)
    ensures Invariant(w)
  {
    var es :| Exec(START, es) == Some(w);
    StartIsInvariant();
    RunKeepsInvariant(START, es, w);
  }

  /** At most one reporter goroutine is running its loop. */
  predicate OneReporter(rs: seq<Reporter>) {
    forall i, j :: 0 <= i < |rs| && 0 <= j < |rs| && IsLive(rs[i]) && IsLive(rs[j]) ==> i == j
  }

  /** Usage is never lost or invented, whatever the control plane answers: recorded usage is
      acknowledged, in a report or queued; at most one reporter is live; no queued events
      means no queued usage; and pending usage stays within what is unacknowledged. */
  lemma UsageIsConserved(w: World)
    requires Reachable(w)
    ensures Balanced(w) && OneReporter(w.reporters) && w.l.inFlight == Count(w.handlers, HoldsSlot)
  {
    ReachableIsInvariant(w);
    InReportIsNewest(w);
  }

  // ---------- usage reaches the control plane ----------

  /** A reporter that finds something queued takes all of it: everything recorded and not yet
      acknowledged is then in its report, and nothing else has changed. One that finds nothing
      queued has nothing left to report, and stops. */
  lemma TakeLeavesNothingQueued(w: World, r: nat)
    requires Reachable(w) && Enabled(w, OfReporter(r, Take))
    ensures var v := Apply(w, OfReporter(r, Take));
            && v.l.usageQueued == v.l.transferQueued == v.l.eventsQueued == 0
            && v.totals == w.totals && v.handlers == w.handlers
            && InReport(v.reporters)
               == Batch(w.totals.recorded - w.totals.acked, w.totals.recordedBytes - w.totals.ackedBytes)
            && (v.reporters[r].Sending? <==> w.l.eventsQueued != 0)
            && (w.l.eventsQueued == 0 ==> v.reporters[r].Stopped? && w.totals.recorded == w.totals.acked)
            && v.l == w.l.(usageQueued := 0, transferQueued := 0, eventsQueued := 0,
                           usageRunning := w.l.eventsQueued != 0)
  {
    ReachableIsInvariant(w);
    LiveIsNewest(w, r);
    InvariantStep(w, OfReporter(r, Take));
    InReportIsNewest(w);
    InReportIsNewest(Apply(w, OfReporter(r, Take)));
  }

  /** Whoever records usage leaves a reporter running, so that what is queued is looked at. */
  lemma RecordingHasAReporter(w: World, id: nat, completed: nat, bytes: nat)
    requires Reachable(w) && Enabled(w, OfHandler(id, Meter(completed, bytes)))
    ensures var v := Apply(w, OfHandler(id, Meter(completed, bytes)));
            && v.l.eventsQueued == w.l.eventsQueued + 1
            && v.reporters != [] && IsLive(v.reporters[|v.reporters| - 1])
            && (w.reporters != [] && IsLive(w.reporters[|w.reporters| - 1]) ==> v.reporters == w.reporters)
  {
    ReachableIsInvariant(w);
  }

  /** Nothing is recorded meanwhile, and this reporter is left to itself. */
  predicate Awaits(e: Event, r: nat) {
    && !(e.OfHandler? && e.h.Meter?)
    && !(e.OfReporter? && e.r == r)
  }

  lemma {:induction false} ReportIsUnderWay(w: World, r: nat, es: seq<Event>, v: World)
    requires Invariant(w) && r < |w.reporters| && w.reporters[r].Sending? && w.l.eventsQueued == 0
    requires Exec(w, es) == Some(v) && forall i :: 0 <= i < |es| ==> Awaits(es[i], r)
    ensures Invariant(v) && r < |v.reporters| && v.reporters[r] == w.reporters[r]
    ensures v.l.eventsQueued == 0 && v.totals == w.totals
  {
    if es != [] {
      var last := |es| - 1;
      var u := Exec(w, es[..last]).value;
      ReportIsUnderWay(w, r, es[..last], u);
      InvariantStep(u, es[last]);
      LiveIsNewest(u, r);
    }
  }

  /** One acknowledged report settles the books: when a reporter has taken the queue and its report
      is acknowledged with nothing recorded in between, whatever else happens meanwhile and whatever
      the reply says, everything recorded is acknowledged and nothing is pending. */
  lemma OneReportSettlesTheBooks(w: World, r: nat, es: seq<Event>, u: World, reply: UsageReply)
    requires Reachable(w) && Enabled(w, OfReporter(r, Take)) && w.l.eventsQueued != 0
    requires Exec(Apply(w, OfReporter(r, Take)), es) == Some(u)
    requires forall i :: 0 <= i < |es| ==> Awaits(es[i], r)
    ensures Enabled(u, OfReporter(r, Acknowledge(reply)))
    ensures var v := Apply(u, OfReporter(r, Acknowledge(reply)));
            && v.totals.acked == v.totals.recorded == w.totals.recorded
            && v.totals.ackedBytes == v.totals.recordedBytes == w.totals.recordedBytes
            && v.l.pendingUsage == v.l.pendingTransfer == 0
            && v.l.trialRemaining == (if reply.trial then reply.remaining else -1)
            && v.l.transferRemaining == (if reply.trial then reply.transferRemaining else -1)
  {
    var sent := Apply(w, OfReporter(r, Take));
    ReachableIsInvariant(w);
    LiveIsNewest(w, r);
    InvariantStep(w, OfReporter(r, Take));
    ReportIsUnderWay(sent, r, es, u);
    LiveIsNewest(u, r);
    InReportIsNewest(u);
    InvariantStep(u, OfReporter(r, Acknowledge(reply)));
    InReportIsNewest(Apply(u, OfReporter(r, Acknowledge(reply))));
  }

  /** What an acknowledgement leaves: pending falls by the batch and not below zero, so what was recorded
      after the batch was taken stays pending, and a trial's view is the plane's answer less that. */
  lemma AcknowledgedLeavesTheRest(w: World, r: nat, reply: UsageReply)
    requires Reachable(w) && Enabled(w, OfReporter(r, Acknowledge(reply)))
    ensures var v, b := Apply(w, OfReporter(r, Acknowledge(reply))), w.reporters[r].batch;
            && v.l.pendingUsage + b.count == Max(w.l.pendingUsage, b.count)
            && v.l.pendingTransfer + b.bytes == Max(w.l.pendingTransfer, b.bytes)
            && (reply.trial ==>
                  && v.l.trialRemaining + v.l.pendingUsage == reply.remaining
                  && v.l.transferRemaining + v.l.pendingTransfer == reply.transferRemaining)
            && (reply.trial && !IsTrialCode("trial_" + reply.status) ==> v.l.trialCode == w.l.trialCode)
            && (!reply.trial ==> v.l.trialRemaining < 0 && v.l.trialCode == "")
            && v.l.usageQueued == w.l.usageQueued && v.l.transferQueued == w.l.transferQueued
            && v.l.eventsQueued == w.l.eventsQueued && v.reporters == w.reporters[r := Ready]
  {
    ReachableIsInvariant(w);
  }

  /** What is queued when no reporter runs is not forgotten: the next recording starts one, which
      takes it along. */
  lemma FailedReportGoesAlong(w: World, r: nat, id: nat, completed: nat, bytes: nat)
    requires Reachable(w) && Enabled(w, OfReporter(r, Fail))
    ensures var v := Apply(w, OfReporter(r, Fail));
            && v.totals == w.totals && v.l.eventsQueued > 0
            && v.l.usageQueued == w.totals.recorded - w.totals.acked
            && v.l.transferQueued == w.totals.recordedBytes - w.totals.ackedBytes
            && v.l.pendingUsage == w.l.pendingUsage && v.l.pendingTransfer == w.l.pendingTransfer
            && v.l.trialRemaining == w.l.trialRemaining && v.l.transferRemaining == w.l.transferRemaining
            && (Enabled(v, OfHandler(id, Meter(completed, bytes))) ==>
                  Enabled(Apply(v, OfHandler(id, Meter(completed, bytes))), OfReporter(|v.reporters|, Take)))
  {
    ReachableIsInvariant(w);
    LiveIsNewest(w, r);
    InReportIsNewest(w);
    InvariantStep(w, OfReporter(r, Fail));
    InReportIsNewest(Apply(w, OfReporter(r, Fail)));
  }

  // ---------- who is let in ----------

  lemma ClosingStep(w: World, e: Event)
    requires Enabled(w, e)
    ensures Apply(w, e).l.closing <==> w.l.closing || e.StartDrain?
  {
    match e
    case OfHandler(_, _) =>
    case OfReporter(_, _) =>
    case StartDrain =>
  }

  lemma {:induction false} ClosingIffDrained(w: World, es: seq<Event>, v: World)
    requires Exec(w, es) == Some(v)
    ensures v.l.closing <==> w.l.closing || StartDrain in es
  {
    if es != [] {
      var last := |es| - 1;
      ClosingIffDrained(w, es[..last], Exec(w, es[..last]).value);
      ClosingStep(Exec(w, es[..last]).value, es[last]);
      assert es == es[..last] + [es[last]];
    }
  }

  /** A request gets in if and only if drain has not begun. */
  lemma EntersIffNotDraining(es: seq<Event>, w: World, id: nat)
    requires Exec(START, es) == Some(w) && Enabled(w, OfHandler(id, Enter))
    ensures Apply(w, OfHandler(id, Enter)).handlers[id] == if StartDrain in es then Gone else Serving
  {
    ClosingIffDrained(START, es, w);
  }

  // ---------- what admit tells its caller ----------

  predicate CodeIsKnown(w: World) { w.l.trialCode == "" || IsTrialCode(w.l.trialCode) }

  lemma CodeStep(w: World, e: Event)
    requires Enabled(w, e) && CodeIsKnown(w)
    ensures CodeIsKnown(Apply(w, e))
  {
    match e
    case OfHandler(_, _) =>
    case OfReporter(_, _) =>
    case StartDrain =>
  }

  lemma {:induction false} RunKeepsCode(w: World, es: seq<Event>, v: World)
    requires CodeIsKnown(w) && Exec(w, es) == Some(v)
    ensures CodeIsKnown(v)
  {
    if es != [] {
      var last := |es| - 1;
      var u := Exec(w, es[..last]).value;
      RunKeepsCode(w, es[..last], u);
      CodeStep(u, es[last]);
    }
  }

  /** In any reachable state: a request is turned away with a trial code exactly when the
      authorization is for a trial whose local allowance is used up, the code is one of the two
      trial codes, and right after a fresh reply it tells expiry from exhaustion; otherwise it
      is admitted exactly when fewer requests than the limit are in flight, and counted. An unknown
      allowance is learned from the reply, cached or not, and a known one is changed by none that
      is cached. */
  lemma AdmitTellsWhy(w: World, auth: Authorization, isFresh: bool, expired: bool)
    requires Reachable(w)
    ensures var (l, a) := Decided(w.l, auth, isFresh, expired);
            && (a.code != "" <==> auth.trial && (l.trialRemaining <= 0 || l.transferRemaining <= 0))
            && (a.code != "" ==> a.trial && !a.admitted && IsTrialCode(a.code) && l.inFlight == w.l.inFlight)
            && (a.code != "" && isFresh ==> (a.code == "trial_expired" <==> expired))
            && (a.code == "" ==> (a.admitted <==> w.l.inFlight < auth.maxConcurrency))
            && (a.admitted ==> l.inFlight == w.l.inFlight + 1 <= auth.maxConcurrency)
            && (auth.trial && (isFresh || w.l.trialRemaining < 0) ==>
                  (a.code == "" <==> auth.remaining > w.l.pendingUsage && auth.transferRemaining > w.l.pendingTransfer))
            && (auth.trial && !isFresh && w.l.trialRemaining >= 0 ==>
                  (a.code == "" <==> w.l.trialRemaining > 0 && w.l.transferRemaining > 0))
            && (!isFresh && (auth.trial ==> w.l.trialRemaining >= 0) ==>
                  l.trialRemaining == w.l.trialRemaining && l.transferRemaining == w.l.transferRemaining)
  {
    var es :| Exec(START, es) == Some(w);
    RunKeepsCode(START, es, w);
  }

  /** The trial code an answer of the control plane carries. */
  function CodeIn(e: Event): Option<string> {
    match e
    case OfHandler(_, PaymentRequired(code, _)) => Some(code)
    case OfReporter(_, Acknowledge(reply)) =>
      if reply.trial && IsTrialCode("trial_" + reply.status) then Some("trial_" + reply.status) else None
    case _ => None
  }

  /** The step brings no newer word on the trial: no answer of that kind, and no admission that
      adopts the allowance of its reply. */
  predicate NoNews(w: World, e: Event) {
    match e
    case OfHandler(_, PaymentRequired(_, _)) => false
    case OfHandler(id, Admit(_)) =>
      id in w.handlers && w.handlers[id].Authorized? ==>
        !w.handlers[id].isFresh && (w.handlers[id].auth.trial ==> w.l.trialRemaining >= 0)
    case OfReporter(_, Acknowledge(reply)) => reply.trial && !IsTrialCode("trial_" + reply.status)
    case _ => true
  }

  predicate AllNoNews(w: World, es: seq<Event>) {
    forall i :: 0 <= i < |es| && Exec(w, es[..i]).Some? ==> NoNews(Exec(w, es[..i]).value, es[i])
  }

  lemma {:induction false} NoNewsKeepsCode(w: World, es: seq<Event>, v: World)
    requires Exec(w, es) == Some(v) && AllNoNews(w, es)
    ensures v.l.trialCode == w.l.trialCode
  {
    if es != [] {
      var last := |es| - 1;
      var u := Exec(w, es[..last]).value;
      forall i | 0 <= i < last ensures es[..last][..i] == es[..i] && es[..last][i] == es[i] {}
      NoNewsKeepsCode(w, es[..last], u);
      assert NoNews(u, es[last]);
    }
  }

  /** The reason is remembered: once the control plane has said why the trial is over, a request that
      is turned away on a cached reply is told that same reason, until there is newer word. The
      address to upgrade at is the one in its own reply, or else the one known. */
  lemma ReasonIsRemembered(w: World, e: Event, es: seq<Event>, v: World, auth: Authorization, expired: bool)
    requires Reachable(w) && Enabled(w, e) && CodeIn(e).Some?
    requires Exec(Apply(w, e), es) == Some(v) && AllNoNews(Apply(w, e), es)
    requires auth.trial && v.l.trialRemaining >= 0
    ensures var a := Decided(v.l, auth, false, expired).1;
            a.code == if v.l.trialRemaining > 0 && v.l.transferRemaining > 0 then "" else CodeIn(e).value
  {
    NoNewsKeepsCode(Apply(w, e), es, v);
    assert IsTrialCode(Apply(w, e).l.trialCode);
  }

  /** Where a request that is turned away is sent: to the address in its reply, or else to the last
      one an answer gave, and a 402 answer's own address is such a one. */
  lemma UpgradeAddressIsTheLatest(w: World, id: nat, code: string, url: string, auth: Authorization, isFresh: bool,
                                  expired: bool)
    requires Enabled(w, OfHandler(id, PaymentRequired(code, url)))
    ensures var a := Decided(Apply(w, OfHandler(id, PaymentRequired(code, url))).l, auth, isFresh, expired).1;
            a.code != "" ==> a.upgradeURL == if auth.upgradeURL != "" then auth.upgradeURL else url
    ensures var (l, a) := Decided(w.l, auth, isFresh, expired);
            a.code != "" ==> l.upgradeURL == a.upgradeURL
  {
  }

  // ---------- a paid endpoint ----------

  /** The answers a paid endpoint gets. */
  predicate PaidAnswer(e: Event) {
    match e
    case OfHandler(_, Authorize(auth, _)) => !auth.trial
    case OfHandler(_, PaymentRequired(_, _)) => false
    case OfReporter(_, Acknowledge(reply)) => !reply.trial
    case _ => true
  }

  /** The allowance is unknown, no trial code is remembered, and no trial reply is on its way in. */
  predicate Unmetered(w: World) {
    && w.l.trialRemaining < 0 && w.l.trialCode == ""
    && forall id :: id in w.handlers && w.handlers[id].Authorized? ==> !w.handlers[id].auth.trial
  }

  /** What a paid report's acknowledgement, or a fresh paid authorization, makes of any ledger. */
  lemma PaidReplyUnmeters(l: Ledger, b: Batch, reply: UsageReply, auth: Authorization)
    ensures !reply.trial ==> Acknowledged(l, b, reply).trialRemaining < 0 && Acknowledged(l, b, reply).trialCode == ""
    ensures !auth.trial ==> Synced(l, auth, true).trialRemaining < 0 && Synced(l, auth, true).trialCode == ""
  {
  }

  /** Nothing is reserved between two states. */
  predicate NothingReserved(w: World, v: World) {
    v.l.pendingUsage <= Max(0, w.l.pendingUsage) && v.l.pendingTransfer <= Max(0, w.l.pendingTransfer)
  }

  lemma PaidStep(w: World, e: Event)
    requires Unmetered(w) && Enabled(w, e) && PaidAnswer(e) && NonNegative(w)
    ensures Unmetered(Apply(w, e)) && NothingReserved(w, Apply(w, e))
  {
    match e
    case OfHandler(_, _) =>
    case OfReporter(r, a) =>
      if a.Acknowledge? { PaidReplyUnmeters(w.l, w.reporters[r].batch, a.reply, Authorization(false, 0, 0, 0, "")); }
    case StartDrain =>
  }

  lemma {:induction false} PaidRun(w: World, es: seq<Event>, v: World)
    requires Invariant(w) && Unmetered(w) && Exec(w, es) == Some(v) && forall i :: 0 <= i < |es| ==> PaidAnswer(es[i])
    ensures Invariant(v) && Unmetered(v) && NothingReserved(w, v)
  {
    if es != [] {
      var last := |es| - 1;
      var u := Exec(w, es[..last]).value;
      PaidRun(w, es[..last], u);
      PaidStep(u, es[last]);
      InvariantStep(u, es[last]);
    }
  }

  /** A paid endpoint is unmetered: from any reachable state without a known allowance, as long as
      only paid answers come, usage reserves nothing and no request is turned away with a trial
      code. */
  lemma PaidRunsAreUnmetered(w: World, es: seq<Event>, v: World)
    requires Reachable(w) && Unmetered(w) && Exec(w, es) == Some(v)
    requires forall i :: 0 <= i < |es| ==> PaidAnswer(es[i])
    ensures Unmetered(v) && NothingReserved(w, v)
    ensures forall id, expired :: id in v.handlers && v.handlers[id].Authorized? ==>
              Decided(v.l, v.handlers[id].auth, v.handlers[id].isFresh, expired).1.code == ""
  {
    ReachableIsInvariant(w);
    PaidRun(w, es, v);
  }

  // ---------- drain ----------

  /** What drain has seen when it returns on its settled path: closing is set, the request
      group is empty, and the channel of the newest reporter (if any) is closed. */
  predicate Settled(w: World) {
    && w.l.closing && w.l.requests == 0
    && match w.l.usageDone
       case None => true
       case Some(channel) => channel < |w.reporters| && w.reporters[channel].Closed?
  }

  predicate Drained(w: World) {
    && w.l.closing
    && (forall id :: id in w.handlers ==> w.handlers[id].Gone?)
    && (forall i :: 0 <= i < |w.reporters| ==> !IsLive(w.reporters[i]))
  }

  lemma SettledIsDrained(w: World)
    requires Invariant(w) && Settled(w)
    ensures Drained(w)
  {
    forall id | id in w.handlers ensures w.handlers[id].Gone? {
      if IsPresent(w.handlers[id]) { CountPositive(w.handlers, id, IsPresent); }
    }
  }

  lemma {:induction false} DrainedStays(w: World, es: seq<Event>, v: World)
    requires Drained(w) && Exec(w, es) == Some(v)
    ensures Drained(v) && v.l == w.l && v.totals == w.totals
  {
    if es != [] {
      var last := |es| - 1;
      var u := Exec(w, es[..last]).value;
      DrainedStays(w, es[..last], u);
      assert v == Apply(u, es[last]);
    }
  }

  /** Once drain has settled, nothing moves again in any continuation: no handler, no
      reporter, and what was recorded is acknowledged or still queued, nothing in between. */
  lemma SettledIsFinal(w: World, es: seq<Event>, v: World)
    requires Reachable(w) && Settled(w) && Exec(w, es) == Some(v)
    ensures Drained(v) && v.l == w.l && v.totals == w.totals
    ensures v.totals.recorded == v.totals.acked + v.l.usageQueued
    ensures v.totals.recordedBytes == v.totals.ackedBytes + v.l.transferQueued
  {
    ReachableIsInvariant(w);
    InReportIsNewest(w);
    SettledIsDrained(w);
    DrainedStays(w, es, v);
  }
}
