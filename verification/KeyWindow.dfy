/** The per-key rate limit: a list of recent admissions that is pruned on every call, and the
    full admission history it stands for. Times are nanoseconds. */
module KeyWindow {
  import opened Counting
  import opened Wrappers

  const MINUTE := 60_000_000_000
  const PER_MINUTE := 60

  function Starts(keyStarts: map<string, seq<int>>, id: string): seq<int> {
    if id in keyStarts then keyStarts[id] else []
  }

  function Pruned(starts: seq<int>, cutoff: int): seq<int> {
    if starts != [] && starts[0] < cutoff then Pruned(starts[1..], cutoff) else starts
  }

  function Decided(starts: seq<int>, now: int): (seq<int>, bool) {
    var kept := Pruned(starts, now - MINUTE);
    if |kept| >= PER_MINUTE then (kept, false) else (kept + [now], true)
  }

  class KeyLimiter {
    var keyStarts: map<string, seq<int>>

    constructor ()
      ensures keyStarts == map[]
    {
      keyStarts := map[];
    }

    method AllowKey(id: string, now: int) returns (ok: bool)
      modifies this
      ensures keyStarts == old(keyStarts)[id := Decided(Starts(old(keyStarts), id), now).0]
      ensures ok == Decided(Starts(old(keyStarts), id), now).1
    {
      var cutoff := now - MINUTE;
      var starts := if id in keyStarts then keyStarts[id] else [];
      var first := 0;
      while first < |starts| && starts[first] < cutoff
        invariant 0 <= first <= |starts|
        invariant Pruned(starts[first..], cutoff) == Pruned(starts, cutoff)
      {
        first := first + 1;
      }
      starts := starts[first..];
      if |starts| >= PER_MINUTE {
        keyStarts := keyStarts[id := starts];
        return false;
      }
      keyStarts := keyStarts[id := starts + [now]];
      return true;
    }
  }

  // ---------- sequences of calls and the history they leave ----------

  datatype Call = Call(id: string, at: int)

  /** The limiter's map after a sequence of calls. */
  function Replay(calls: seq<Call>): map<string, seq<int>> {
    if calls == [] then map[]
    else
      var last, before := calls[|calls| - 1], Replay(calls[..|calls| - 1]);
      before[last.id := Decided(Starts(before, last.id), last.at).0]
  }

  /** Every admission of one key, pruned or not. */
  function Admitted(calls: seq<Call>, id: string): seq<int> {
    if calls == [] then []
    else
      var last, before := calls[|calls| - 1], calls[..|calls| - 1];
      if last.id == id && Decided(Starts(Replay(before), id), last.at).1
      then Admitted(before, id) + [last.at] else Admitted(before, id)
  }

  /** The times of one key's calls do not go backwards; other keys are free. */
  predicate Ordered(calls: seq<Call>, id: string) {
    forall i, j :: 0 <= i < j < |calls| && calls[i].id == id && calls[j].id == id ==> calls[i].at <= calls[j].at
  }

  predicate Sorted(h: seq<int>) { forall i, j :: 0 <= i < j < |h| ==> h[i] <= h[j] }

  function Recent(h: seq<int>, from: int): seq<int> {
    if h == [] then []
    else
      var last := |h| - 1;
      if h[last] >= from then Recent(h[..last], from) + [h[last]] else Recent(h[..last], from)
  }

  /** On a sorted history, recency is a suffix. */
  lemma {:induction false} RecentIsSuffix(h: seq<int>, from: int) returns (k: nat)
    requires Sorted(h)
    ensures k <= |h| && Recent(h, from) == h[k..]
    ensures forall i :: 0 <= i < k ==> h[i] < from
    ensures forall i :: k <= i < |h| ==> h[i] >= from
  {
    if h == [] {
      k := 0;
    } else {
      var last := |h| - 1;
      k := RecentIsSuffix(h[..last], from);
      if h[last] >= from {
        assert h[..last][k..] + [h[last]] == h[k..];
      } else {
        assert forall i :: 0 <= i < last ==> h[i] <= h[last];
        k := |h|;
      }
    }
  }

  lemma {:induction false} PrunedIsSuffix(s: seq<int>, cutoff: int) returns (k: nat)
    requires Sorted(s)
    ensures k <= |s| && Pruned(s, cutoff) == s[k..]
    ensures forall i :: 0 <= i < k ==> s[i] < cutoff
    ensures forall i :: k <= i < |s| ==> s[i] >= cutoff
  {
    if s != [] && s[0] < cutoff {
      var rest := PrunedIsSuffix(s[1..], cutoff);
      k := rest + 1;
      forall i | 0 <= i < k ensures s[i] < cutoff {
        if i > 0 { assert s[i] == s[1..][i - 1]; }
      }
      forall i | k <= i < |s| ensures s[i] >= cutoff {
        assert s[i] == s[1..][i - 1];
      }
    } else {
      k := 0;
    }
  }

  /** Pruning what was already pruned at an earlier cutoff is pruning the whole history. */
  lemma PruneComposes(h: seq<int>, earlier: int, cutoff: int)
    requires Sorted(h) && earlier <= cutoff
    ensures Pruned(Recent(h, earlier), cutoff) == Recent(h, cutoff)
  {
    var a := RecentIsSuffix(h, earlier);
    var b := RecentIsSuffix(h, cutoff);
    var k := PrunedIsSuffix(h[a..], cutoff);
    assert h[a..][k..] == h[a + k..];
    assert forall i :: 0 <= i < |h| - a ==> h[a..][i] == h[a + i];
    assert a <= b by {
      assert b < |h| ==> h[b] >= cutoff;
    }
    assert k == b - a by {
      assert k < |h| - a ==> h[a..][k] == h[a + k];
      assert b < |h| ==> h[a..][b - a] == h[b];
    }
  }

  /** Sixty admissions on, the clock has moved by more than a minute. */
  predicate Spaced(h: seq<int>) {
    forall i :: 0 <= i && i + PER_MINUTE < |h| ==> h[i + PER_MINUTE] - h[i] > MINUTE
  }

  function LastCall(calls: seq<Call>, id: string): Option<int> {
    if calls == [] then None
    else
      var last := calls[|calls| - 1];
      if last.id == id then Some(last.at) else LastCall(calls[..|calls| - 1], id)
  }

  lemma {:induction false} LastCallIsACall(calls: seq<Call>, id: string) returns (i: nat)
    requires LastCall(calls, id).Some?
    ensures i < |calls| && calls[i] == Call(id, LastCall(calls, id).value)
  {
    i := |calls| - 1;
    if calls[i].id != id {
      i := LastCallIsACall(calls[..i], id);
    }
  }

  /** A history the limiter may have produced, up to the call at `seen`. */
  predicate Sound(h: seq<int>, seen: int) {
    Sorted(h) && Spaced(h) && forall i :: 0 <= i < |h| ==> h[i] <= seen
  }

  /** The key's list is its sound history since a minute before its latest call. */
  predicate Faithful(calls: seq<Call>, id: string) {
    match LastCall(calls, id)
    case None => Admitted(calls, id) == [] && Starts(Replay(calls), id) == []
    case Some(seen) =>
      && Sound(Admitted(calls, id), seen)
      && Starts(Replay(calls), id) == Recent(Admitted(calls, id), seen - MINUTE)
  }

  lemma AdmitKeepsSound(h: seq<int>, seen: int, now: int)
    requires Sound(h, seen) && seen <= now && |Recent(h, now - MINUTE)| < PER_MINUTE
    ensures Sound(h + [now], now)
  {
    var k := RecentIsSuffix(h, now - MINUTE);
    var n := h + [now];
    forall i | 0 <= i && i + PER_MINUTE < |n| ensures n[i + PER_MINUTE] - n[i] > MINUTE {
      if i + PER_MINUTE < |h| {
        assert h[i + PER_MINUTE] - h[i] > MINUTE;
      } else {
        assert i < k && h[i] < now - MINUTE;
      }
    }
  }

  /** One more call of the key, not earlier than its latest one, on a faithful list. */
  lemma CallIsExact(calls: seq<Call>, id: string, now: int)
    requires Faithful(calls, id)
    requires LastCall(calls, id).Some? ==> LastCall(calls, id).value <= now
    ensures Pruned(Starts(Replay(calls), id), now - MINUTE) == Recent(Admitted(calls, id), now - MINUTE)
  {
    match LastCall(calls, id)
    case None =>
    case Some(seen) => PruneComposes(Admitted(calls, id), seen - MINUTE, now - MINUTE);
  }

  /** What one more call does to the key's list and history. */
  lemma OneMoreCall(before: seq<Call>, id: string, now: int)
    ensures var calls := before + [Call(id, now)];
            var (kept, ok) := Decided(Starts(Replay(before), id), now);
            && LastCall(calls, id) == Some(now)
            && Starts(Replay(calls), id) == kept
            && Admitted(calls, id) == if ok then Admitted(before, id) + [now] else Admitted(before, id)
  {
    var calls := before + [Call(id, now)];
    assert calls[..|calls| - 1] == before;
  }

  lemma FaithfulStep(before: seq<Call>, id: string, now: int)
    requires Faithful(before, id)
    requires LastCall(before, id).Some? ==> LastCall(before, id).value <= now
    ensures Faithful(before + [Call(id, now)], id)
  {
    var h := Admitted(before, id);
    OneMoreCall(before, id, now);
    CallIsExact(before, id, now);
    SoundLater(before, id, now);
    if |Recent(h, now - MINUTE)| < PER_MINUTE {
      AdmitKeepsSound(h, now, now);
      RecentGrows(h, now);
    }
  }

  lemma SoundLater(calls: seq<Call>, id: string, now: int)
    requires Faithful(calls, id)
    requires LastCall(calls, id).Some? ==> LastCall(calls, id).value <= now
    ensures Sound(Admitted(calls, id), now)
  {
  }

  lemma RecentGrows(h: seq<int>, now: int)
    ensures Recent(h + [now], now - MINUTE) == Recent(h, now - MINUTE) + [now]
  {
    assert (h + [now])[..|h|] == h;
  }

  lemma {:induction false} RunIsFaithful(calls: seq<Call>, id: string)
    requires Ordered(calls, id)
    ensures Faithful(calls, id)
  {
    if calls != [] {
      var last, before := calls[|calls| - 1], calls[..|calls| - 1];
      RunIsFaithful(before, id);
      if last.id == id {
        if LastCall(before, id).Some? {
          var i := LastCallIsACall(before, id);
          assert calls[i] == before[i];
        }
        FaithfulStep(before, id, last.at);
        assert before + [Call(id, last.at)] == calls;
      }
    }
  }

  lemma SpacedAt(h: seq<int>, i: nat)
    requires Spaced(h) && i + PER_MINUTE < |h|
    ensures h[i + PER_MINUTE] - h[i] > MINUTE
  {
  }

  lemma RecentIsBounded(h: seq<int>, seen: int, now: int)
    requires Sound(h, seen) && seen <= now
    ensures |Recent(h, now - MINUTE)| <= PER_MINUTE
  {
    var k := RecentIsSuffix(h, now - MINUTE);
    if k + PER_MINUTE < |h| {
      SpacedAt(h, k);
    }
  }

  /** Any ordered run of calls, looked at just before one more call of the key. */
  lemma BeforeNextCall(calls: seq<Call>, id: string, now: int)
    requires Ordered(calls + [Call(id, now)], id)
    ensures Faithful(calls, id)
    ensures LastCall(calls, id).Some? ==> LastCall(calls, id).value <= now
  {
    var longer := calls + [Call(id, now)];
    assert forall i :: 0 <= i < |calls| ==> longer[i] == calls[i];
    assert longer[|calls|] == Call(id, now);
    RunIsFaithful(calls, id);
    if LastCall(calls, id).Some? {
      var i := LastCallIsACall(calls, id);
      assert longer[i] == calls[i];
    }
  }

  /** Exact sliding window: when a key's call times do not go backwards, the pruned list is
      the full history filtered to the last minute, whatever other keys did in between; a
      call is refused exactly when sixty were admitted in that minute. */
  lemma WindowIsExact(calls: seq<Call>, id: string, now: int)
    requires Ordered(calls + [Call(id, now)], id)
    ensures var recent := Recent(Admitted(calls, id), now - MINUTE);
            && Pruned(Starts(Replay(calls), id), now - MINUTE) == recent
            && |recent| <= PER_MINUTE
            && (Decided(Starts(Replay(calls), id), now).1 <==> |recent| < PER_MINUTE)
  {
    BeforeNextCall(calls, id, now);
    CallIsExact(calls, id, now);
    if LastCall(calls, id).Some? {
      RecentIsBounded(Admitted(calls, id), LastCall(calls, id).value, now);
    }
  }

  // ---------- any window, not only the latest ----------

  ghost function AdmittedWithin(h: seq<int>, from: int, to: int): set<int> {
    set i | 0 <= i < |h| && from <= h[i] <= to
  }

  ghost function Range(lo: int, n: nat): (s: set<int>)
    ensures |s| == n && forall i :: i in s <==> lo <= i < lo + n
  {
    if n == 0 then {} else Range(lo, n - 1) + {lo + n - 1}
  }

  /** Any closed window of one minute, wherever it starts, holds at most sixty admissions. */
  lemma AnyMinuteHoldsSixty(calls: seq<Call>, id: string, from: int)
    requires Ordered(calls, id)
    ensures |AdmittedWithin(Admitted(calls, id), from, from + MINUTE)| <= PER_MINUTE
  {
    var h := Admitted(calls, id);
    RunIsFaithful(calls, id);
    assert Sorted(h) && Spaced(h);
    var k := RecentIsSuffix(h, from);
    var inside, range := AdmittedWithin(h, from, from + MINUTE), Range(k, PER_MINUTE);
    forall i | i in inside ensures i in range {
      assert k <= i;
      if k + PER_MINUTE < |h| {
        SpacedAt(h, k);
      }
    }
    assert range == inside + (range - inside);
  }

  // ---------- why the order of the calls matters ----------

  function Times(at: int, n: nat): seq<int> { seq(n, _ => at) }

  /** Some calls left this list, out of this history. */
  ghost predicate Leads(calls: seq<Call>, id: string, list: seq<int>, history: seq<int>) {
    Starts(Replay(calls), id) == list && Admitted(calls, id) == history
  }

  lemma OneIsAdmitted(calls: seq<Call>, id: string, list: seq<int>, h: seq<int>, now: int, kept: seq<int>)
    returns (longer: seq<Call>)
    requires Leads(calls, id, list, h) && Pruned(list, now - MINUTE) == kept && |kept| < PER_MINUTE
    ensures Leads(longer, id, kept + [now], h + [now])
  {
    OneMoreCall(calls, id, now);
    longer := calls + [Call(id, now)];
  }

  /** Calls at one instant, on a list that is not due for pruning and has room for them. */
  lemma {:induction false} BurstIsAdmitted(calls: seq<Call>, id: string, list: seq<int>, h: seq<int>, at: int, n: nat)
    returns (longer: seq<Call>)
    requires Leads(calls, id, list, h) && |list| + n <= PER_MINUTE
    requires list != [] ==> list[0] >= at - MINUTE
    ensures Leads(longer, id, list + Times(at, n), h + Times(at, n))
  {
    if n == 0 {
      longer := calls;
      assert list + Times(at, 0) == list && h + Times(at, 0) == h;
    } else {
      longer := BurstIsAdmitted(calls, id, list, h, at, n - 1);
      longer := OneIsAdmitted(longer, id, list + Times(at, n - 1), h + Times(at, n - 1), at, list + Times(at, n - 1));
      assert Times(at, n) == Times(at, n - 1) + [at];
      assert list + Times(at, n) == list + Times(at, n - 1) + [at];
      assert h + Times(at, n) == h + Times(at, n - 1) + [at];
    }
  }

  const HALF := 30_000_000_000

  lemma OneIsPruned(x: int, rest: seq<int>, cutoff: int)
    requires x < cutoff
    ensures Pruned([x] + rest, cutoff) == Pruned(rest, cutoff)
  {
    assert ([x] + rest)[1..] == rest;
  }

  lemma TwoArePruned(rest: seq<int>, cutoff: int)
    requires cutoff > 0 && (rest != [] ==> rest[0] >= cutoff)
    ensures Pruned([0, 0] + rest, cutoff) == rest
  {
    OneIsPruned(0, rest, cutoff);
    OneIsPruned(0, [0] + rest, cutoff);
    assert [0] + ([0] + rest) == [0, 0] + rest;
  }

  lemma SixtyOneInside(h: seq<int>)
    requires |h| == 62 && h[60] == MINUTE + 1 && forall i :: 0 <= i < 62 && i != 60 ==> 0 <= h[i] <= MINUTE
    ensures |AdmittedWithin(h, 0, MINUTE)| == PER_MINUTE + 1
  {
    var inside, all := AdmittedWithin(h, 0, MINUTE), Range(0, 62);
    forall i ensures i in inside <==> i in all && i != 60 {
    }
    assert all == inside + {60};
  }

  /** Two calls at once, and half a minute later fifty-eight more: all are admitted. */
  lemma FullList(id: string) returns (calls: seq<Call>)
    ensures var h := [0, 0] + Times(HALF, 58); Leads(calls, id, h, h)
  {
    calls := OneIsAdmitted([], id, [], [], 0, []);
    calls := OneIsAdmitted(calls, id, [0], [0], 0, [0]);
    calls := BurstIsAdmitted(calls, id, [0, 0], [0, 0], HALF, 58);
  }

  /** The hypothesis of ordered times cannot be dropped: a call that read the clock a moment
      earlier than one the limiter served before it finds the two oldest entries gone, so
      that sixty-one calls are admitted in one closed minute. */
  lemma LateCallIsOneTooMany(id: string) returns (calls: seq<Call>)
    ensures |AdmittedWithin(Admitted(calls, id), 0, MINUTE)| == PER_MINUTE + 1
  {
    var kept := Times(HALF, 58);
    var h := [0, 0] + kept;
    calls := FullList(id);
    TwoArePruned(kept, 1);
    calls := OneIsAdmitted(calls, id, h, h, MINUTE + 1, kept);
    calls := OneIsAdmitted(calls, id, kept + [MINUTE + 1], h + [MINUTE + 1], MINUTE, kept + [MINUTE + 1]);
    SixtyOneInside(h + [MINUTE + 1] + [MINUTE]);
  }

  // ---------- the exact condition, for a call at any time ----------

  function Later(a: int, b: int): int { if a < b then b else a }

  lemma PruneFromLast(h: seq<int>, list: seq<int>, seen: int, now: int)
    requires Sorted(h) && list == Recent(h, seen - MINUTE)
    ensures Pruned(list, now - MINUTE) == Recent(h, Later(seen, now) - MINUTE)
  {
    if seen <= now {
      PruneComposes(h, seen - MINUTE, now - MINUTE);
    } else {
      var k := RecentIsSuffix(h, seen - MINUTE);
      assert k < |h| ==> h[k..][0] == h[k];
    }
  }

  /** The list a call finds, whenever its clock was read: the history of the last minute before
      that reading or before the latest earlier one, whichever is later. */
  lemma ListAtAnyTime(calls: seq<Call>, id: string, seen: int, now: int)
    requires Ordered(calls, id) && LastCall(calls, id) == Some(seen)
    ensures Pruned(Starts(Replay(calls), id), now - MINUTE)
         == Recent(Admitted(calls, id), Later(seen, now) - MINUTE)
  {
    ListAtLastCall(calls, id, seen);
    PruneFromLast(Admitted(calls, id), Starts(Replay(calls), id), seen, now);
  }

  lemma ListAtLastCall(calls: seq<Call>, id: string, seen: int)
    requires Ordered(calls, id) && LastCall(calls, id) == Some(seen)
    ensures Sorted(Admitted(calls, id))
    ensures Starts(Replay(calls), id) == Recent(Admitted(calls, id), seen - MINUTE)
  {
    RunIsFaithful(calls, id);
  }

  lemma HistoryIsSorted(calls: seq<Call>, id: string)
    requires Ordered(calls, id)
    ensures Sorted(Admitted(calls, id))
  {
    RunIsFaithful(calls, id);
  }

  lemma SameSuffixIff(h: seq<int>, from: int, later: int)
    requires Sorted(h) && from <= later
    ensures Recent(h, later) == Recent(h, from) <==> forall i :: 0 <= i < |h| && h[i] >= from ==> h[i] >= later
    ensures |Recent(h, later)| <= |Recent(h, from)|
  {
    var a := RecentIsSuffix(h, from);
    var b := RecentIsSuffix(h, later);
    assert a <= b by {
      assert b < |h| ==> h[b] >= from;
    }
    if a < b {
      assert h[a] >= from && h[a] < later;
    }
  }

  /** Exactly when the window is exact, for a call at any time after an ordered run: if and only if
      every admission at or after a minute before this call is also at or after a minute before
      the key's latest call. It always holds when the call is not late. */
  lemma WindowIsExactIff(calls: seq<Call>, id: string, seen: int, now: int)
    requires Ordered(calls, id) && LastCall(calls, id) == Some(seen)
    ensures var h := Admitted(calls, id);
            && (Pruned(Starts(Replay(calls), id), now - MINUTE) == Recent(h, now - MINUTE)
                <==> forall i :: 0 <= i < |h| && h[i] >= now - MINUTE ==> h[i] >= seen - MINUTE)
            && (seen <= now ==> Pruned(Starts(Replay(calls), id), now - MINUTE) == Recent(h, now - MINUTE))
  {
    HistoryIsSorted(calls, id);
    ListAtAnyTime(calls, id, seen, now);
    if now < seen {
      SameSuffixIff(Admitted(calls, id), now - MINUTE, seen - MINUTE);
    }
  }

  /** The corollary for the refusal: it is right, that is, the call is refused exactly if sixty
      were admitted since a minute before it, if and only if it is not so that sixty were admitted
      since then but fewer since a minute before the key's latest call. */
  lemma RefusalIsRightIff(calls: seq<Call>, id: string, seen: int, now: int)
    requires Ordered(calls, id) && LastCall(calls, id) == Some(seen)
    ensures var h := Admitted(calls, id);
            (Decided(Starts(Replay(calls), id), now).1 <==> |Recent(h, now - MINUTE)| < PER_MINUTE)
            <==> !(|Recent(h, seen - MINUTE)| < PER_MINUTE <= |Recent(h, now - MINUTE)|)
  {
    HistoryIsSorted(calls, id);
    ListAtAnyTime(calls, id, seen, now);
    var h := Admitted(calls, id);
    if now < seen {
      SameSuffixIff(h, now - MINUTE, seen - MINUTE);
    } else {
      SameSuffixIff(h, seen - MINUTE, now - MINUTE);
    }
  }

  /** Sixty admissions in a row that lie within one minute, this call included. */
  predicate Crowded(h: seq<int>, i: nat, now: int) {
    && i + PER_MINUTE <= |h|
    && h[i + PER_MINUTE - 1] - MINUTE <= h[i]
    && h[i + PER_MINUTE - 1] - MINUTE <= now <= h[i] + MINUTE
  }

  /** The closed minute from this time on holds more than sixty admissions. */
  ghost predicate Overfull(h: seq<int>, from: int) { |AdmittedWithin(h, from, from + MINUTE)| > PER_MINUTE }

  lemma CrowdedIsOverfull(h: seq<int>, i: nat, now: int)
    requires Sorted(h) && Crowded(h, i, now)
    ensures Overfull(h + [now], if now < h[i] then now else h[i])
  {
    var from := if now < h[i] then now else h[i];
    var inside, range := AdmittedWithin(h + [now], from, from + MINUTE), Range(i, PER_MINUTE);
    forall j: nat | j in range ensures j in inside {
      RowIsWithin(h, i, now, j);
    }
    assert (h + [now])[|h|] == now;
    assert |h| in inside && |h| !in range;
    SubsetSize(range + {|h|}, inside);
  }

  lemma RowIsWithin(h: seq<int>, i: nat, now: int, j: nat)
    requires Sorted(h) && Crowded(h, i, now) && i <= j < i + PER_MINUTE
    ensures var from := if now < h[i] then now else h[i]; from <= (h + [now])[j] <= from + MINUTE
  {
    assert (h + [now])[j] == h[j];
  }

  /** A minute of a sorted history that holds sixty admissions holds them in a row. */
  lemma FullIsInARow(h: seq<int>, from: int) returns (i: nat)
    requires Sorted(h) && |AdmittedWithin(h, from, from + MINUTE)| >= PER_MINUTE
    ensures i + PER_MINUTE <= |h| && from <= h[i] && h[i + PER_MINUTE - 1] <= from + MINUTE
  {
    i := RecentIsSuffix(h, from);
    var inside := AdmittedWithin(h, from, from + MINUTE);
    if i + PER_MINUTE > |h| {
      SubsetSize(inside, Range(i, |h| - i));
    } else if h[i + PER_MINUTE - 1] > from + MINUTE {
      assert forall j :: i + PER_MINUTE - 1 <= j < |h| ==> h[j] >= h[i + PER_MINUTE - 1];
      SubsetSize(inside, Range(i, PER_MINUTE - 1));
    }
  }

  lemma WithinLonger(h: seq<int>, now: int, from: int)
    ensures var more := AdmittedWithin(h + [now], from, from + MINUTE);
            && |more| <= |AdmittedWithin(h, from, from + MINUTE)| + 1
            && (!(from <= now <= from + MINUTE) ==> |more| <= |AdmittedWithin(h, from, from + MINUTE)|)
  {
    var fewer, more := AdmittedWithin(h, from, from + MINUTE), AdmittedWithin(h + [now], from, from + MINUTE);
    if from <= now <= from + MINUTE {
      assert more == fewer + {|h|};
    } else {
      assert more == fewer;
    }
  }

  /** The admissions a call at this time still has to count. */
  function StillCounted(calls: seq<Call>, id: string, now: int): seq<int> {
    match LastCall(calls, id)
    case None => []
    case Some(seen) => Recent(Admitted(calls, id), Later(seen, now) - MINUTE)
  }

  lemma VerdictAtAnyTime(calls: seq<Call>, id: string, now: int)
    requires Ordered(calls, id)
    ensures Decided(Starts(Replay(calls), id), now).1 <==> |StillCounted(calls, id, now)| < PER_MINUTE
  {
    match LastCall(calls, id)
    case None => RunIsFaithful(calls, id);
    case Some(seen) => ListAtAnyTime(calls, id, seen, now);
  }

  /** Exactly when one more call, at any time after an ordered run, puts more than sixty admissions
      into some closed minute: if and only if fewer than sixty were admitted since a minute before
      the later of its reading and the latest one, and some sixty admissions in a row lie within
      one minute together with it. */
  lemma OverfullIff(calls: seq<Call>, id: string, now: int)
    requires Ordered(calls, id)
    ensures (exists from :: Overfull(Admitted(calls + [Call(id, now)], id), from))
            <==> |StillCounted(calls, id, now)| < PER_MINUTE && exists i: nat :: Crowded(Admitted(calls, id), i, now)
  {
    var h, n := Admitted(calls, id), Admitted(calls + [Call(id, now)], id);
    HistoryIsSorted(calls, id);
    OneMoreCall(calls, id, now);
    VerdictAtAnyTime(calls, id, now);
    if from :| Overfull(n, from) {
      AnyMinuteHoldsSixty(calls, id, from);
      WithinLonger(h, now, from);
      var i := FullIsInARow(h, from);
      assert Crowded(h, i, now);
    }
    if i: nat :| |StillCounted(calls, id, now)| < PER_MINUTE && Crowded(h, i, now) {
      CrowdedIsOverfull(h, i, now);
    }
  }

  // ---------- any number of late calls ----------

  /** No call of the key is served later than this after its clock was overtaken. */
  predicate LateBy(calls: seq<Call>, id: string, delay: nat) {
    forall i, j :: 0 <= i < j < |calls| && calls[i].id == id && calls[j].id == id ==> calls[i].at - calls[j].at <= delay
  }

  /** Some call of the key had its clock read more than a minute after this admission. */
  ghost predicate Outlived(calls: seq<Call>, id: string, admitted: int) {
    exists c :: 0 <= c < |calls| && calls[c].id == id && admitted < calls[c].at - MINUTE
  }

  lemma PrunedIsRest(s: seq<int>, cutoff: int) returns (k: nat)
    ensures k <= |s| && Pruned(s, cutoff) == s[k..] && forall i :: 0 <= i < k ==> s[i] < cutoff
  {
    k := 0;
    if s != [] && s[0] < cutoff {
      var rest := PrunedIsRest(s[1..], cutoff);
      k := rest + 1;
      forall i | 0 <= i < k ensures s[i] < cutoff {
        if i > 0 { assert s[i] == s[1..][i - 1]; }
      }
    }
  }

  lemma OutlivedLater(before: seq<Call>, last: Call, id: string, admitted: int)
    requires Outlived(before, id, admitted)
    ensures Outlived(before + [last], id, admitted)
  {
    var c :| 0 <= c < |before| && before[c].id == id && admitted < before[c].at - MINUTE;
    assert (before + [last])[c] == before[c];
  }

  /** In any run at all, the list is the end of the history, and what is missing was outlived. */
  lemma {:induction false} ListIsRest(calls: seq<Call>, id: string) returns (k: nat)
    ensures var h := Admitted(calls, id);
            k <= |h| && Starts(Replay(calls), id) == h[k..] && forall i :: 0 <= i < k ==> Outlived(calls, id, h[i])
  {
    if calls == [] {
      k := 0;
    } else {
      var last, before := calls[|calls| - 1], calls[..|calls| - 1];
      assert calls == before + [last];
      k := ListIsRest(before, id);
      var h := Admitted(before, id);
      if last.id == id {
        k := PruneOnce(before, id, last.at, k);
      }
      forall i | 0 <= i < k ensures Outlived(calls, id, Admitted(calls, id)[i]) {
        if last.id != id { OutlivedLater(before, last, id, h[i]); }
      }
    }
  }

  lemma PruneMore(h: seq<int>, k: nat, cutoff: int) returns (n: nat)
    requires k <= |h|
    ensures k <= n <= |h| && Pruned(h[k..], cutoff) == h[n..] && forall i :: k <= i < n ==> h[i] < cutoff
  {
    var m := PrunedIsRest(h[k..], cutoff);
    n := k + m;
    assert h[k..][m..] == h[n..];
    forall i | k <= i < n ensures h[i] < cutoff {
      assert h[i] == h[k..][i - k];
    }
  }

  lemma OutlivedNow(before: seq<Call>, id: string, now: int, admitted: int)
    requires admitted < now - MINUTE || Outlived(before, id, admitted)
    ensures Outlived(before + [Call(id, now)], id, admitted)
  {
    if admitted < now - MINUTE {
      assert (before + [Call(id, now)])[|before|] == Call(id, now);
    } else {
      OutlivedLater(before, Call(id, now), id, admitted);
    }
  }

  /** The history after one more call, and the list as an end of it. */
  lemma RestGrows(before: seq<Call>, id: string, now: int, n: nat)
    requires n <= |Admitted(before, id)|
    requires Pruned(Starts(Replay(before), id), now - MINUTE) == Admitted(before, id)[n..]
    ensures var h := Admitted(before + [Call(id, now)], id);
            Admitted(before, id) <= h && n <= |h| && Starts(Replay(before + [Call(id, now)]), id) == h[n..]
  {
    OneMoreCall(before, id, now);
  }

  lemma PruneOnce(before: seq<Call>, id: string, now: int, k: nat) returns (n: nat)
    requires k <= |Admitted(before, id)| && Starts(Replay(before), id) == Admitted(before, id)[k..]
    requires forall i :: 0 <= i < k ==> Outlived(before, id, Admitted(before, id)[i])
    ensures var calls, h := before + [Call(id, now)], Admitted(before, id);
            && n <= |h| && Pruned(Starts(Replay(before), id), now - MINUTE) == h[n..]
            && (forall i :: 0 <= i < n ==> Outlived(calls, id, h[i]))
            && n <= |Admitted(calls, id)| && Starts(Replay(calls), id) == Admitted(calls, id)[n..]
            && h <= Admitted(calls, id)
  {
    var h := Admitted(before, id);
    n := PruneMore(h, k, now - MINUTE);
    RestGrows(before, id, now, n);
    forall i | 0 <= i < n ensures Outlived(before + [Call(id, now)], id, h[i]) {
      OutlivedNow(before, id, now, h[i]);
    }
  }

  /** The law for any run at all: if no call is served later than `delay` after its clock was
      overtaken, any closed window shorter than a minute by that delay holds at most sixty
      admissions. Without late calls this is the whole minute. */
  lemma {:induction false} ShorterWindowHoldsSixty(calls: seq<Call>, id: string, delay: nat, from: int)
    requires LateBy(calls, id, delay)
    ensures |AdmittedWithin(Admitted(calls, id), from, from + MINUTE - delay)| <= PER_MINUTE
  {
    if calls != [] {
      var last, before := calls[|calls| - 1], calls[..|calls| - 1];
      assert calls == before + [last];
      ShorterWindowHoldsSixty(before, id, delay, from);
      var h, n := Admitted(before, id), Admitted(calls, id);
      if n != h && from <= last.at <= from + MINUTE - delay {
        NewestInside(before, last, id, delay, from);
      } else if n != h {
        assert AdmittedWithin(n, from, from + MINUTE - delay) == AdmittedWithin(h, from, from + MINUTE - delay);
      }
    }
  }

  lemma NewestInside(before: seq<Call>, last: Call, id: string, delay: nat, from: int)
    requires LateBy(before + [last], id, delay) && from <= last.at <= from + MINUTE - delay
    requires Admitted(before + [last], id) != Admitted(before, id)
    ensures |AdmittedWithin(Admitted(before + [last], id), from, from + MINUTE - delay)| <= PER_MINUTE
  {
    var calls := before + [last];
    assert calls[..|before|] == before && last.id == id;
    var k := ListIsRest(before, id);
    var m := PruneOnce(before, id, last.at, k);
    OneMoreCall(before, id, last.at);
    var n := Admitted(calls, id);
    var inside, range := AdmittedWithin(n, from, from + MINUTE - delay), Range(m, |n| - m);
    forall i | i in inside ensures i in range {
      if i < m { OutlivedIsOutside(calls, id, delay, from, n[i]); }
    }
    SubsetSize(inside, range);
  }

  lemma OutlivedIsOutside(calls: seq<Call>, id: string, delay: nat, from: int, admitted: int)
    requires calls != [] && calls[|calls| - 1].id == id && LateBy(calls, id, delay)
    requires calls[|calls| - 1].at <= from + MINUTE - delay && Outlived(calls, id, admitted)
    ensures admitted < from
  {
    var c :| 0 <= c < |calls| && calls[c].id == id && admitted < calls[c].at - MINUTE;
    assert calls[c].at - calls[|calls| - 1].at <= delay;
  }
}
