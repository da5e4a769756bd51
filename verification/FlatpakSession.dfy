/** One session process of the sandboxed desktop: D-Bus calls, agent workers with their
    processes, the boot goroutine and the main loop, all sharing the session's fields. */
module FlatpakSession {
  import opened Wrappers

  // ---------- the session's guarded fields and its critical sections ----------

  /** The fields under the session's mutex. W is the type of a worker reference, `gui` says
      whether a window process is known, `shut` whether the shutdown channel is closed. */
  datatype Core<W> = Core(agents: map<string, W>, pending: int, closing: bool, shut: bool, gui: bool)

  function NewCore<W>(): Core<W> { Core(map[], 0, false, false, false) }

  /** Head of Start and Startup. */
  function Begun<W>(c: Core<W>): (Core<W>, bool) {
    if c.closing then (c, false) else (c.(pending := c.pending + 1), true)
  }

  function Ended<W>(c: Core<W>): Core<W> { c.(pending := c.pending - 1) }

  function Dropped<W>(c: Core<W>, slug: string): Core<W> { c.(agents := c.agents - {slug}) }

  function Listed<W>(c: Core<W>, slug: string, w: W): Core<W> { c.(agents := c.agents[slug := w]) }

  function WindowGone<W>(c: Core<W>): Core<W> { c.(gui := false) }

  /** Open by a caller of the same build; `launches` is whether the window process starts. */
  function Opened<W>(c: Core<W>, launches: bool): Core<W> {
    if c.closing || c.gui || !launches then c else c.(gui := true)
  }

  function Prepared<W>(c: Core<W>, sameBuild: bool): (Core<W>, bool) {
    if sameBuild || c.pending != 0 || c.gui then (c, false) else (c.(closing := true), true)
  }

  function FinishRequested<W>(c: Core<W>, sameBuild: bool): (Core<W>, bool) {
    if !c.closing || sameBuild then (c, false) else (c.(shut := true), true)
  }

  /** The idle test: forget agents whose worker is done, then see whether anything is left. */
  function Swept<W>(c: Core<W>, done: set<W>): (Core<W>, bool) {
    if c.closing then (c, false)
    else
      var kept := map slug | slug in c.agents && c.agents[slug] !in done :: c.agents[slug];
      (c.(agents := kept), !c.gui && kept == map[] && c.pending == 0)
  }

  class Worker {
    var cancelled: bool
    var done: bool

    constructor ()
      ensures !cancelled && !done
    {
      cancelled, done := false, false;
    }
  }

  /** The session object; one method per critical section of the program. */
  class SessionObject {
    var agents: map<string, Worker>
    var pending: int
    var closing: bool
    var shut: bool
    var gui: bool

    function View(): Core<Worker>
      reads this
    {
      Core(agents, pending, closing, shut, gui)
    }

    constructor ()
      ensures View() == NewCore()
    {
      agents, pending, closing, shut, gui := map[], 0, false, false, false;
    }

    method Begin() returns (ok: bool)
      modifies this
      ensures (View(), ok) == Begun(old(View()))
    {
      if closing {
        return false;
      }
      pending := pending + 1;
      return true;
    }

    method End()
      modifies this
      ensures View() == Ended(old(View()))
    {
      pending := pending - 1;
    }

    /** First half of Stop, of start's replacement, and all of Retire: cancel, do not wait. */
    method CancelAgent(slug: string) returns (old_: Option<Worker>)
      modifies if slug in agents then {agents[slug]} else {}
      ensures old_ == if slug in agents then Some(agents[slug]) else None
      ensures slug in agents ==> agents[slug].cancelled && agents[slug].done == old(agents[slug].done)
    {
      if slug !in agents {
        return None;
      }
      agents[slug].cancelled := true;
      return Some(agents[slug]);
    }

    /** Second half of Stop, once the worker is done. */
    method DropAgent(slug: string)
      requires slug in agents ==> agents[slug].done
      modifies this
      ensures View() == Dropped(old(View()), slug)
    {
      agents := agents - {slug};
    }

    /** Second half of start: replace a finished worker by a fresh one, unless the launch fails. */
    method Replace(slug: string, launches: bool) returns (w: Option<Worker>)
      requires slug in agents ==> agents[slug].done
      modifies this
      ensures w.Some? <==> launches
      ensures w.Some? ==> fresh(w.value) && !w.value.cancelled && !w.value.done
      ensures var dropped := Dropped(old(View()), slug);
              View() == if launches then Listed(dropped, slug, w.value) else dropped
    {
      agents := agents - {slug};
      if !launches {
        return None;
      }
      var created := new Worker();
      agents := agents[slug := created];
      return Some(created);
    }

    method Open(launches: bool)
      modifies this
      ensures View() == Opened(old(View()), launches)
    {
      if !closing && !gui && launches {
        gui := true;
      }
    }

    method WindowExited()
      modifies this
      ensures View() == WindowGone(old(View()))
    {
      gui := false;
    }

    method PrepareUpdate(sameBuild: bool) returns (ok: bool)
      modifies this
      ensures (View(), ok) == Prepared(old(View()), sameBuild)
    {
      if sameBuild || pending != 0 || gui {
        return false;
      }
      if !closing {
        closing := true;
      }
      return true;
    }

    /** `closes` tells whether this call closed the shutdown channel. */
    method FinishUpdate(sameBuild: bool) returns (ok: bool, closes: bool)
      modifies this
      ensures (View(), ok) == FinishRequested(old(View()), sameBuild)
      ensures closes == (ok && !old(shut))
    {
      if !closing || sameBuild {
        return false, false;
      }
      closes := !shut;
      shut := true;
      return true, closes;
    }

    /** The listed workers whose done channel is closed. */
    ghost function DoneWorkers(): set<Worker>
      reads this, agents.Values
    {
      set slug | slug in agents && agents[slug].done :: agents[slug]
    }

    /** The idle test, with its sweep over the agents. */
    method Idle() returns (idle: bool)
      modifies this
      ensures (View(), idle) == Swept(old(View()), old(DoneWorkers()))
    {
      if closing {
        return false;
      }
      ghost var all, done := agents, DoneWorkers();
      assert forall slug :: slug in all ==> (all[slug] in done <==> all[slug].done);
      var left := agents.Keys;
      while left != {}
        invariant View() == old(View()).(agents := agents) && left <= agents.Keys
        invariant forall slug :: slug in agents <==> slug in all && (slug in left || all[slug] !in done)
        invariant forall slug :: slug in agents ==> agents[slug] == all[slug]
        decreases left
      {
        var slug :| slug in left;
        if agents[slug].done {
          agents := agents - {slug};
        }
        left := left - {slug};
      }
      assert agents == Swept(old(View()), done).0.agents;
      return !gui && agents == map[] && pending == 0;
    }

    /** First half of close: every agent is cancelled before any is waited for. */
    method CancelAll()
      modifies agents.Values
      ensures forall slug :: slug in agents ==> agents[slug].cancelled && agents[slug].done == old(agents[slug].done)
    {
      var left := agents.Values;
      while left != {}
        invariant left <= agents.Values
        invariant forall slug :: slug in agents ==> agents[slug].done == old(agents[slug].done)
        invariant forall w :: w in agents.Values && w !in left ==> w.cancelled
        decreases left
      {
        var w :| w in left;
        w.cancelled := true;
        left := left - {w};
      }
    }
  }
}
