/** The single-slot model scheduler: one inference slot, a bounded queue behind it, a
    cap on the outstanding requests of each key, and cancellation at every point. */
module Scheduler {
  import opened Counting
  import opened Wrappers

  const MAX_WAITING := 4
  const PER_KEY_OUTSTANDING := 3

  // ---------- the lock-delimited sections, as functions of the scheduler's fields ----------

  /** The fields the scheduler guards. `slot` is the one-place channel. */
  datatype Sched = Sched(keys: map<string, int>, slot: bool, model: string, running: int, waiting: int)

  const EMPTY: Sched := Sched(map[], false, "", 0, 0)

  datatype Outcome = Acquired | MustWait | QueueFull

  function Outstanding(s: Sched, key: string): int {
    if key in s.keys then s.keys[key] else 0
  }

  function Counted(s: Sched, key: string): (Sched, bool) {
    if Outstanding(s, key) >= PER_KEY_OUTSTANDING then (s, false)
    else (s.(keys := s.keys[key := Outstanding(s, key) + 1]), true)
  }

  function Entered(s: Sched, model: string): (Sched, Outcome) {
    if !s.slot then (s.(slot := true, model := model, running := 1), Acquired)
    else if s.waiting >= MAX_WAITING then (s, QueueFull)
    else (s.(waiting := s.waiting + 1), MustWait)
  }

  function SlotTaken(s: Sched): Sched { s.(slot := true) }

  function Promoted(s: Sched, model: string): Sched {
    s.(waiting := s.waiting - 1, model := model, running := 1)
  }

  function Abandoned(s: Sched): Sched {
    s.(waiting := s.waiting - 1)
  }

  function Released(s: Sched): Sched {
    s.(running := 0, model := "", slot := false)
  }

  function Forgotten(s: Sched, key: string): Sched {
    var n := Outstanding(s, key) - 1;
    s.(keys := if n <= 0 then s.keys - {key} else s.keys[key := n])
  }

  /** The scheduler object. Each method is one section the program runs under its mutex
      (or, for TakeSlot, the channel send it runs without it). */
  class ModelScheduler {
    var keys: map<string, int>
    var slot: bool
    var model: string
    var running: int
    var waiting: int

    function View(): Sched
      reads this
    {
      Sched(keys, slot, model, running, waiting)
    }

    constructor ()
      ensures View() == EMPTY
    {
      keys, slot, model, running, waiting := map[], false, "", 0, 0;
    }

    /** First section of acquireForKey: the per-key cap. */
    method CountKey(key: string) returns (ok: bool)
      modifies this
      ensures (View(), ok) == Counted(old(View()), key)
    {
      var n := if key in keys then keys[key] else 0;
      if n >= PER_KEY_OUTSTANDING {
        return false;
      }
      keys := keys[key := n + 1];
      return true;
    }

    /** First section of acquire: try the slot, else join the queue if it has room. */
    method Enter(wanted: string) returns (outcome: Outcome)
      modifies this
      ensures (View(), outcome) == Entered(old(View()), wanted)
    {
      if !slot {
        slot := true;
        model := wanted;
        running := 1;
        return Acquired;
      }
      if waiting >= MAX_WAITING {
        return QueueFull;
      }
      waiting := waiting + 1;
      return MustWait;
    }

    /** The blocked channel send of a queued request; no mutex is held here. */
    method TakeSlot()
      requires !slot
      modifies this
      ensures View() == SlotTaken(old(View()))
    {
      slot := true;
    }

    /** The section a queued request runs once its send went through. */
    method Promote(wanted: string)
      modifies this
      ensures View() == Promoted(old(View()), wanted)
    {
      waiting := waiting - 1;
      model := wanted;
      running := 1;
    }

    /** The section a queued request runs after its wait ended without the slot. */
    method Abandon()
      modifies this
      ensures View() == Abandoned(old(View()))
    {
      waiting := waiting - 1;
    }

    /** release: the slot is given back while the mutex is still held. */
    method Release()
      requires slot
      modifies this
      ensures View() == Released(old(View()))
    {
      running := 0;
      model := "";
      slot := false;
    }

    /** forget: one outstanding request less; a key at zero leaves the map. */
    method Forget(key: string)
      modifies this
      ensures View() == Forgotten(old(View()), key)
    {
      var n := (if key in keys then keys[key] else 0) - 1;
      if n <= 0 {
        keys := keys - {key};
      } else {
        keys := keys[key := n];
      }
    }
  }

  // ---------- the requests and their interleavings ----------

  /** Where a request is. Granted is the gap in which the slot is taken but the request is
      still counted as waiting; Leaving has given up its place and only its key count remains. */
  datatype Pc = Arrived | Queued | Granted | Running | TimedOut | Leaving | Done

  datatype Request = Request(key: string, model: string, pc: Pc)

  datatype World = World(sched: Sched, reqs: map<nat, Request>)

  const START: World := World(EMPTY, map[])

  datatype Event =
    | Arrive(id: nat, key: string, model: string)
    | TryAcquire(id: nat)
    | TakeSlot(id: nat)
    | Promote(id: nat)
    | TimeOut(id: nat)
    | LeaveQueue(id: nat)
    | Release(id: nat)
    | Forget(id: nat)

  predicate At(w: World, id: nat, pc: Pc) {
    id in w.reqs && w.reqs[id].pc == pc
  }

  predicate Enabled(w: World, e: Event) {
    match e
    case Arrive(id, _, _) => id !in w.reqs
    case TryAcquire(id) => At(w, id, Arrived)
    case TakeSlot(id) => At(w, id, Queued) && !w.sched.slot
    case Promote(id) => At(w, id, Granted)
    case TimeOut(id) => At(w, id, Queued)
    case LeaveQueue(id) => At(w, id, TimedOut)
    case Release(id) => At(w, id, Running)
    case Forget(id) => At(w, id, Leaving)
  }

  function Moved(w: World, s: Sched, id: nat, pc: Pc): World
    requires id in w.reqs
  {
    World(s, w.reqs[id := w.reqs[id].(pc := pc)])
  }

  function AfterEntry(outcome: Outcome): Pc {
    match outcome
    case Acquired => Running
    case MustWait => Queued
    case QueueFull => Leaving
  }

  function Apply(w: World, e: Event): World
    requires Enabled(w, e)
  {
    match e
    case Arrive(id, key, model) =>
      var (s, ok) := Counted(w.sched, key);
      World(s, w.reqs[id := Request(key, model, if ok then Arrived else Done)])
    case TryAcquire(id) =>
      var (s, outcome) := Entered(w.sched, w.reqs[id].model);
      Moved(w, s, id, AfterEntry(outcome))
    case TakeSlot(id) => Moved(w, SlotTaken(w.sched), id, Granted)
    case Promote(id) => Moved(w, Promoted(w.sched, w.reqs[id].model), id, Running)
    case TimeOut(id) => Moved(w, w.sched, id, TimedOut)
    case LeaveQueue(id) => Moved(w, Abandoned(w.sched), id, Leaving)
    case Release(id) => Moved(w, Released(w.sched), id, Leaving)
    case Forget(id) => Moved(w, Forgotten(w.sched, w.reqs[id].key), id, Done)
  }

  /** The state a schedule leads to, or None when it asks for a step that is not possible.
      Schedules are chosen by an adversary. */
  function Run(es: seq<Event>): Option<World> {
    if es == [] then Some(START)
    else
      var last := |es| - 1;
      match Run(es[..last])
      case None => None
      case Some(w) => if Enabled(w, es[last]) then Some(Apply(w, es[last])) else None
  }

  // ---------- the invariant ----------

  predicate IsQueued(r: Request) { r.pc.Queued? }
  predicate IsGranted(r: Request) { r.pc.Granted? }
  predicate IsRunning(r: Request) { r.pc.Running? }
  predicate IsTimedOut(r: Request) { r.pc.TimedOut? }
  predicate IsOutstanding(r: Request) { !r.pc.Done? }
  predicate AwaitsSlot(r: Request) { r.pc.Queued? || r.pc.Granted? }
  predicate CountedWaiting(r: Request) { AwaitsSlot(r) || r.pc.TimedOut? }
  predicate HoldsPlace(r: Request) { CountedWaiting(r) || r.pc.Running? }

  function OfKey(key: string): Request -> bool {
    (r: Request) => IsOutstanding(r) && r.key == key
  }

  function PlacesOfKey(key: string): Request -> bool {
    (r: Request) => HoldsPlace(r) && r.key == key
  }

  ghost predicate SlotAgrees(w: World) {
    && Bit(w.sched.slot) == Count(w.reqs, IsGranted) + Count(w.reqs, IsRunning)
    && w.sched.running == Count(w.reqs, IsRunning)
    && w.sched.waiting == Count(w.reqs, IsQueued) + Count(w.reqs, IsGranted) + Count(w.reqs, IsTimedOut)
    && w.sched.waiting <= MAX_WAITING
  }

  ghost predicate ModelAgrees(w: World) {
    && (forall id :: id in w.reqs && IsRunning(w.reqs[id]) ==> w.sched.model == w.reqs[id].model)
    && (w.sched.running == 0 ==> w.sched.model == "")
  }

  ghost predicate KeyAgrees(w: World, key: string) {
    && Outstanding(w.sched, key) == Count(w.reqs, OfKey(key)) <= PER_KEY_OUTSTANDING
    && (key in w.sched.keys ==> w.sched.keys[key] >= 1)
  }

  ghost predicate KeysAgree(w: World) { forall key :: KeyAgrees(w, key) }

  ghost predicate Invariant(w: World) {
    SlotAgrees(w) && ModelAgrees(w) && KeysAgree(w)
  }

  lemma CountsMove(w: World, id: nat, r: Request)
    ensures var o, n := w.reqs, w.reqs[id := r];
            && Count(n, IsQueued) == Count(o, IsQueued) + Bit(IsQueued(r)) - Bit(id in o && IsQueued(o[id]))
            && Count(n, IsGranted) == Count(o, IsGranted) + Bit(IsGranted(r)) - Bit(id in o && IsGranted(o[id]))
            && Count(n, IsRunning) == Count(o, IsRunning) + Bit(IsRunning(r)) - Bit(id in o && IsRunning(o[id]))
            && Count(n, IsTimedOut) == Count(o, IsTimedOut) + Bit(IsTimedOut(r)) - Bit(id in o && IsTimedOut(o[id]))
  {
    CountUpdate(w.reqs, id, r, IsQueued);
    CountUpdate(w.reqs, id, r, IsGranted);
    CountUpdate(w.reqs, id, r, IsRunning);
    CountUpdate(w.reqs, id, r, IsTimedOut);
  }

  lemma SlotStep(w: World, e: Event)
    requires Enabled(w, e) && SlotAgrees(w)
    ensures SlotAgrees(Apply(w, e))
  {
    CountsMove(w, e.id, Apply(w, e).reqs[e.id]);
  }

  lemma ModelStep(w: World, e: Event)
    requires Enabled(w, e) && SlotAgrees(w) && ModelAgrees(w)
    ensures ModelAgrees(Apply(w, e))
  {
    var v := Apply(w, e);
    SlotStep(w, e);
    forall id | id in v.reqs && IsRunning(v.reqs[id])
      ensures v.sched.model == v.reqs[id].model
    {
      if id != e.id {
        CountPositive(w.reqs, id, IsRunning);
        if IsRunning(v.reqs[e.id]) {
          CountTwo(v.reqs, id, e.id, IsRunning);
        } else if e.Release? {
          CountTwo(w.reqs, id, e.id, IsRunning);
        }
      }
    }
  }

  lemma KeyStep(w: World, e: Event, key: string)
    requires Enabled(w, e) && KeyAgrees(w, key)
    ensures KeyAgrees(Apply(w, e), key)
  {
    CountUpdate(w.reqs, e.id, Apply(w, e).reqs[e.id], OfKey(key));
  }

  lemma KeysStep(w: World, e: Event)
    requires Enabled(w, e) && KeysAgree(w)
    ensures KeysAgree(Apply(w, e))
  {
    forall key ensures KeyAgrees(Apply(w, e), key) {
      assert KeyAgrees(w, key);
      KeyStep(w, e, key);
    }
  }

  /** Every reachable state, under every interleaving, satisfies the invariant. */
  lemma {:induction false} EveryRunKeepsInvariant(es: seq<Event>)
    requires Run(es).Some?
    ensures Invariant(Run(es).value)
  {
    if es == [] {
      forall key ensures KeyAgrees(START, key) {
        CountZero(START.reqs, OfKey(key));
      }
      CountZero(START.reqs, IsQueued);
      CountZero(START.reqs, IsGranted);
      CountZero(START.reqs, IsRunning);
      CountZero(START.reqs, IsTimedOut);
    } else {
      var w := Run(es[..|es| - 1]).value;
      EveryRunKeepsInvariant(es[..|es| - 1]);
      SlotStep(w, es[|es| - 1]);
      ModelStep(w, es[|es| - 1]);
      KeysStep(w, es[|es| - 1]);
    }
  }

  // ---------- what the invariant says about any run ----------

  /** One inference at a time: two requests never hold the slot together, the published
      counters are exact, and the published model is the running request's. */
  lemma OneAtATime(es: seq<Event>, i: nat, j: nat)
    requires Run(es).Some?
    requires var w := Run(es).value;
             && i in w.reqs && j in w.reqs
             && (At(w, i, Granted) || At(w, i, Running)) && (At(w, j, Granted) || At(w, j, Running))
    ensures i == j
    ensures var w := Run(es).value;
            w.sched.slot && (At(w, i, Running) <==> w.sched.running == 1)
            && (At(w, i, Running) ==> w.sched.model == w.reqs[i].model)
  {
    var w := Run(es).value;
    EveryRunKeepsInvariant(es);
    if At(w, i, Granted) { CountPositive(w.reqs, i, IsGranted); } else { CountPositive(w.reqs, i, IsRunning); }
    if At(w, j, Granted) { CountPositive(w.reqs, j, IsGranted); } else { CountPositive(w.reqs, j, IsRunning); }
    if i != j {
      if At(w, i, Granted) && At(w, j, Granted) { CountTwo(w.reqs, i, j, IsGranted); }
      if At(w, i, Running) && At(w, j, Running) { CountTwo(w.reqs, i, j, IsRunning); }
    }
  }

  /** When every request has finished, nothing is left behind: no slot, no queue, no key. */
  lemma NothingLeaks(es: seq<Event>)
    requires Run(es).Some?
    requires forall id :: id in Run(es).value.reqs ==> !IsOutstanding(Run(es).value.reqs[id])
    ensures Run(es).value.sched == EMPTY
  {
    var w := Run(es).value;
    EveryRunKeepsInvariant(es);
    CountZero(w.reqs, IsQueued);
    CountZero(w.reqs, IsGranted);
    CountZero(w.reqs, IsRunning);
    CountZero(w.reqs, IsTimedOut);
    forall key ensures key !in w.sched.keys {
      CountZero(w.reqs, OfKey(key));
      assert KeyAgrees(w, key);
    }
    assert w.sched.keys == map[];
  }

  /** At most three of the five places (the slot and the queue) belong to one key. */
  lemma PlacesOfOneKey(es: seq<Event>, key: string)
    requires Run(es).Some?
    ensures Count(Run(es).value.reqs, PlacesOfKey(key)) <= PER_KEY_OUTSTANDING
    ensures Count(Run(es).value.reqs, HoldsPlace) <= MAX_WAITING + 1
  {
    var w := Run(es).value;
    EveryRunKeepsInvariant(es);
    assert KeyAgrees(w, key);
    SubsetSize(Matching(w.reqs, PlacesOfKey(key)), Matching(w.reqs, OfKey(key)));
    PlacesSplit(w.reqs);
  }

  lemma PlacesSplit(reqs: map<nat, Request>)
    ensures Count(reqs, HoldsPlace)
         == Count(reqs, IsQueued) + Count(reqs, IsGranted) + Count(reqs, IsTimedOut) + Count(reqs, IsRunning)
  {
    CountSplit(reqs, IsQueued, IsGranted, AwaitsSlot);
    CountSplit(reqs, AwaitsSlot, IsTimedOut, CountedWaiting);
    CountSplit(reqs, CountedWaiting, IsRunning, HoldsPlace);
  }

  /** One key can never shut another out: if every other outstanding request carries the
      same key, a request that passed its own cap gets the slot or a place in the queue. */
  lemma OneKeyNeverFillsTheQueue(es: seq<Event>, id: nat, key: string)
    requires Run(es).Some? && At(Run(es).value, id, Arrived)
    requires forall j :: j in Run(es).value.reqs && j != id && IsOutstanding(Run(es).value.reqs[j])
                     ==> Run(es).value.reqs[j].key == key
    ensures !Entered(Run(es).value.sched, Run(es).value.reqs[id].model).1.QueueFull?
  {
    var w := Run(es).value;
    EveryRunKeepsInvariant(es);
    PlacesSplit(w.reqs);
    assert KeyAgrees(w, key);
    assert Matching(w.reqs, HoldsPlace) <= Matching(w.reqs, OfKey(key));
    SubsetSize(Matching(w.reqs, HoldsPlace), Matching(w.reqs, OfKey(key)));
  }

  /** The cap refuses a request exactly when three of its key are outstanding, so a key
      with nothing outstanding is always let in, whatever the others do. */
  lemma CapIsExact(es: seq<Event>, key: string)
    requires Run(es).Some?
    ensures Counted(Run(es).value.sched, key).1 <==> Count(Run(es).value.reqs, OfKey(key)) < PER_KEY_OUTSTANDING
  {
    EveryRunKeepsInvariant(es);
    assert KeyAgrees(Run(es).value, key);
  }

  predicate HoldsSlot(r: Request) { r.pc.Granted? || r.pc.Running? }

  /** The slot is taken exactly while some request holds it. */
  lemma SlotIffHeld(w: World)
    requires SlotAgrees(w)
    ensures w.sched.slot <==> exists j :: j in w.reqs && HoldsSlot(w.reqs[j])
  {
    if w.sched.slot {
      var p := if Count(w.reqs, IsGranted) > 0 then IsGranted else IsRunning;
      var j :| j in Matching(w.reqs, p);
      assert HoldsSlot(w.reqs[j]);
    }
    forall j | j in w.reqs && HoldsSlot(w.reqs[j]) ensures w.sched.slot {
      CountPositive(w.reqs, j, if IsGranted(w.reqs[j]) then IsGranted else IsRunning);
    }
  }

  /** What a request that passed its cap finds, in any reachable state: it runs at once exactly if
      nobody holds the slot, is turned away exactly if somebody does and four wait, and waits
      otherwise. The scheduler never idles and never wastes a place. */
  lemma EntryIsExact(es: seq<Event>, id: nat)
    requires Run(es).Some? && At(Run(es).value, id, Arrived)
    ensures var w := Run(es).value;
            var pc, held := Apply(w, TryAcquire(id)).reqs[id].pc, exists j :: j in w.reqs && HoldsSlot(w.reqs[j]);
            && (pc == Running <==> !held)
            && (pc == Leaving <==> held && Count(w.reqs, CountedWaiting) == MAX_WAITING)
            && (pc == Queued <==> held && Count(w.reqs, CountedWaiting) < MAX_WAITING)
  {
    var w := Run(es).value;
    EveryRunKeepsInvariant(es);
    SlotIffHeld(w);
    CountSplit(w.reqs, IsQueued, IsGranted, AwaitsSlot);
    CountSplit(w.reqs, AwaitsSlot, IsTimedOut, CountedWaiting);
  }

  /** Once nobody holds the slot, any queued request can take it, and is then the one that runs, with
      its own model published and one fewer waiting. */
  lemma FreeSlotIsTaken(es: seq<Event>, id: nat)
    requires Run(es).Some? && At(Run(es).value, id, Queued)
    ensures var w := Run(es).value;
            Enabled(w, TakeSlot(id)) <==> forall j :: j in w.reqs ==> !HoldsSlot(w.reqs[j])
    ensures var w := Run(es).value;
            Enabled(w, TakeSlot(id)) ==>
              var v := Apply(w, TakeSlot(id));
              && Enabled(v, Promote(id))
              && var u := Apply(v, Promote(id));
                 At(u, id, Running) && u.sched.running == 1 && u.sched.model == w.reqs[id].model
                 && u.sched.waiting == w.sched.waiting - 1
  {
    EveryRunKeepsInvariant(es);
    SlotIffHeld(Run(es).value);
  }
}
