/** A connection deadline: a timer, a channel that is closed once the deadline has passed, and
    the race between setting a new deadline and the callback of the old one. */
module Deadline {
  import opened Wrappers

  /** The deadline being set, relative to now. */
  datatype Kind = Clear | Future | Past

  /** The timer and the channel its callback captured; an expired one can no longer be stopped. */
  datatype Timer = Unset | Armed(captured: nat) | Expired(captured: nat)

  /** Channels are numbered in the order of their creation; `closed` is their state. */
  datatype Fields = Fields(timer: Timer, cancel: nat, created: nat, closed: set<nat>)

  const NEW: Fields := Fields(Unset, 0, 1, {})

  /** After a failed Stop, set receives from the current channel before it goes on. */
  predicate MustWait(f: Fields) {
    f.timer.Expired? && f.cancel !in f.closed
  }

  function Renewed(f: Fields): Fields {
    if f.cancel in f.closed then f.(timer := Unset, cancel := f.created, created := f.created + 1)
    else f.(timer := Unset)
  }

  function SetTo(f: Fields, kind: Kind): Fields {
    match kind
    case Clear => Renewed(f)
    case Future => Renewed(f).(timer := Armed(Renewed(f).cancel))
    case Past => f.(timer := Unset, closed := f.closed + {f.cancel})
  }

  class ConnDeadline {
    var timer: Timer
    var cancel: nat
    var created: nat
    var closed: set<nat>

    function View(): Fields
      reads this
    {
      Fields(timer, cancel, created, closed)
    }

    constructor ()
      ensures View() == NEW
    {
      timer, cancel, created, closed := Unset, 0, 1, {};
    }

    /** set, from the moment it no longer has to wait for the old callback. `closing` is the
        channel it closes itself, if it does. */
    method Set(kind: Kind) returns (closing: Option<nat>)
      requires !MustWait(View())
      modifies this
      ensures View() == SetTo(old(View()), kind)
      ensures closing == if kind.Past? && old(cancel) !in old(closed) then Some(old(cancel)) else None
    {
      closing := None;
      timer := Unset;
      var wasClosed := cancel in closed;
      if kind.Clear? {
        if wasClosed {
          cancel, created := created, created + 1;
        }
        return;
      }
      if kind.Future? {
        if wasClosed {
          cancel, created := created, created + 1;
        }
        timer := Armed(cancel);
        return;
      }
      if !wasClosed {
        closed := closed + {cancel};
        closing := Some(cancel);
      }
    }

    method Wait() returns (channel: nat)
      ensures channel == cancel
    {
      channel := cancel;
    }
  }

  // ---------- set, wait and the timer in any order ----------

  /** `callbacks` are the channels of callbacks that have started and not yet closed theirs;
      `blocked` is a set that holds the mutex and waits for one of them; `handed` are the
      channels wait returned, and `closes` every close that was performed, in order. */
  datatype Machine = Machine(f: Fields, callbacks: multiset<nat>, blocked: Option<Kind>, handed: set<nat>,
                             closes: seq<nat>)

  const START: Machine := Machine(NEW, multiset{}, None, {}, [])

  datatype Event = SetBegin(kind: Kind) | SetEnd | Wait | Fire | CallbackCloses(channel: nat)

  predicate Enabled(m: Machine, e: Event) {
    match e
    case SetBegin(_) => m.blocked.None?
    case SetEnd => m.blocked.Some? && !MustWait(m.f)
    case Wait => m.blocked.None?
    case Fire => m.f.timer.Armed?
    case CallbackCloses(channel) => channel in m.callbacks
  }

  function Finished(m: Machine, kind: Kind): Machine {
    Machine(SetTo(m.f, kind), m.callbacks, None, m.handed,
            if kind.Past? && m.f.cancel !in m.f.closed then m.closes + [m.f.cancel] else m.closes)
  }

  function Apply(m: Machine, e: Event): Machine
    requires Enabled(m, e)
  {
    match e
    case SetBegin(kind) => if MustWait(m.f) then m.(blocked := Some(kind)) else Finished(m, kind)
    case SetEnd => Finished(m, m.blocked.value)
    case Wait => m.(handed := m.handed + {m.f.cancel})
    case Fire =>
      m.(f := m.f.(timer := Expired(m.f.timer.captured)), callbacks := m.callbacks + multiset{m.f.timer.captured})
    case CallbackCloses(channel) =>
      m.(f := m.f.(closed := m.f.closed + {channel}), callbacks := m.callbacks - multiset{channel},
         closes := m.closes + [channel])
  }

  function Exec(m: Machine, es: seq<Event>): Option<Machine> {
    if es == [] then Some(m)
    else
      var last := |es| - 1;
      match Exec(m, es[..last])
      case None => None
      case Some(n) => if Enabled(n, es[last]) then Some(Apply(n, es[last])) else None
  }

  predicate TimerOwnsCurrent(m: Machine) {
    match m.f.timer
    case Unset => m.blocked.None? && m.callbacks == multiset{}
    case Armed(channel) =>
      channel == m.f.cancel && channel !in m.f.closed && m.blocked.None? && m.callbacks == multiset{}
    case Expired(channel) =>
      channel == m.f.cancel && m.callbacks == if channel in m.f.closed then multiset{} else multiset{channel}
  }

  /** Every channel made so far is current or closed, and none other was handed out. */
  ghost predicate ChannelsKept(m: Machine) {
    && m.f.cancel < m.f.created
    && (forall c :: c in m.f.closed ==> c < m.f.created)
    && (forall c: nat :: c < m.f.created ==> c == m.f.cancel || c in m.f.closed)
    && (forall c :: c in m.handed ==> c < m.f.created)
  }

  ghost predicate ClosedOnce(m: Machine) {
    && (forall c :: c in m.closes <==> c in m.f.closed)
    && (forall i, j :: 0 <= i < j < |m.closes| ==> m.closes[i] != m.closes[j])
  }

  ghost predicate Invariant(m: Machine) {
    TimerOwnsCurrent(m) && ChannelsKept(m) && ClosedOnce(m)
  }

  lemma TimerStep(m: Machine, e: Event)
    requires TimerOwnsCurrent(m) && m.f.cancel < m.f.created && Enabled(m, e)
    requires forall c :: c in m.f.closed ==> c < m.f.created
    ensures TimerOwnsCurrent(Apply(m, e))
  {
  }

  lemma ChannelsStep(m: Machine, e: Event)
    requires TimerOwnsCurrent(m) && ChannelsKept(m) && Enabled(m, e)
    ensures ChannelsKept(Apply(m, e))
  {
  }

  /** A step closes no channel, or one that was open. */
  lemma ClosesAtMostOne(m: Machine, e: Event)
    requires TimerOwnsCurrent(m) && Enabled(m, e)
    ensures var n := Apply(m, e);
            (n.closes == m.closes && n.f.closed == m.f.closed)
            || (exists c :: c !in m.f.closed && n.closes == m.closes + [c] && n.f.closed == m.f.closed + {c})
  {
    var n := Apply(m, e);
    if n.closes == m.closes {
      assert n.f.closed == m.f.closed;
    } else {
      assert n.closes == m.closes + [m.f.cancel] && n.f.closed == m.f.closed + {m.f.cancel};
    }
  }

  lemma CloseStep(m: Machine, e: Event)
    requires TimerOwnsCurrent(m) && ClosedOnce(m) && Enabled(m, e)
    ensures ClosedOnce(Apply(m, e))
  {
    ClosesAtMostOne(m, e);
  }

  lemma InvariantStep(m: Machine, e: Event)
    requires Invariant(m) && Enabled(m, e)
    ensures Invariant(Apply(m, e))
  {
    TimerStep(m, e);
    ChannelsStep(m, e);
    CloseStep(m, e);
  }

  lemma {:induction false} RunKeepsInvariant(m: Machine, es: seq<Event>, n: Machine)
    requires Invariant(m) && Exec(m, es) == Some(n)
    ensures Invariant(n)
  {
    if es != [] {
      var last := |es| - 1;
      var before := Exec(m, es[..last]).value;
      RunKeepsInvariant(m, es[..last], before);
      InvariantStep(before, es[last]);
    }
  }

  ghost predicate Reachable(m: Machine) {
    exists es :: Exec(START, es) == Some(m)
  }

  lemma ReachableIsInvariant(m: Machine)
    requires Reachable(m)
    ensures Invariant(m)
  {
    var es :| Exec(START, es) == Some(m);
    RunKeepsInvariant(START, es, m);
  }

  /** In every run: no channel is closed twice, a live timer or a running callback holds the
      current channel, which is open, and every channel ever handed out is current or closed,
      so nobody waits on a channel the deadline has forgotten. */
  lemma ChannelsAreSafe(m: Machine)
    requires Reachable(m)
    ensures forall i, j :: 0 <= i < j < |m.closes| ==> m.closes[i] != m.closes[j]
    ensures m.f.timer.Armed? ==> m.f.timer.captured == m.f.cancel && m.f.cancel !in m.f.closed
    ensures forall c :: c in m.callbacks ==> c == m.f.cancel && c !in m.closes
    ensures forall c :: c in m.handed ==> c == m.f.cancel || c in m.closes
  {
    ReachableIsInvariant(m);
  }

  /** Right after a set took effect, waiters are released if and only if the deadline has
      passed, whatever the old timer was doing. */
  lemma SetTakesEffect(m: Machine, e: Event, kind: Kind)
    requires Reachable(m) && Enabled(m, e)
    requires (e == SetBegin(kind) && !MustWait(m.f)) || (e.SetEnd? && m.blocked == Some(kind))
    ensures var n := Apply(m, e);
            && n.blocked.None?
            && (n.f.cancel in n.f.closed <==> kind.Past?)
            && (n.f.timer == if kind.Future? then Armed(n.f.cancel) else Unset)
  {
    ReachableIsInvariant(m);
  }

  /** A set that waits never waits in vain: the callback it waits for is running and closes
      the very channel it waits on, after which the set can finish. */
  lemma WaitingSetIsReleased(m: Machine)
    requires Reachable(m) && m.blocked.Some?
    ensures Enabled(m, SetEnd)
         || (Enabled(m, CallbackCloses(m.f.cancel)) && Enabled(Apply(m, CallbackCloses(m.f.cancel)), SetEnd))
  {
    ReachableIsInvariant(m);
  }
}
