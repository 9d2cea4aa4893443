/** Timed reservations on one actor and the search for the earliest start, as used by both the
    runtime scheduler and the exact optimizer backend. */
module Reservations {
  import opened Basics

  datatype Window = Window(start: int, end: int)
  datatype Interval = Interval(start: int, end: int, demand: int)

  function DemandOf(r: Interval, t: int): int {
    if r.start <= t < r.end then r.demand else 0
  }

  /** Total demand reserved at one instant. */
  function DemandAt(rs: seq<Interval>, t: int): int {
    if rs == [] then 0 else DemandAt(rs[..|rs| - 1], t) + DemandOf(rs[|rs| - 1], t)
  }

  lemma DemandAtAppend(rs: seq<Interval>, r: Interval, t: int)
    ensures DemandAt(rs + [r], t) == DemandAt(rs, t) + DemandOf(r, t)
  {
    assert (rs + [r])[..|rs|] == rs;
  }

  /** The actor can take `demand` more at every instant of [start, end). */
  predicate CapacityOver(rs: seq<Interval>, capacity: int, start: int, end: int, demand: int) {
    forall t :: start <= t < end ==> DemandAt(rs, t) + demand <= capacity
  }

  predicate InWindow(w: Window, start: int, duration: int) {
    w.start <= start && start + duration <= w.end
  }

  /** What a start time has to satisfy: one window holds the whole run and there is capacity at
      every instant of it. Work without a duration occupies nothing and fits anywhere. */
  ghost predicate Fits(windows: seq<Window>, capacity: int, rs: seq<Interval>, start: int, duration: int, demand: int) {
    duration <= 0 ||
    ((exists w :: w in windows && InWindow(w, start, duration)) &&
     Room(capacity, rs, start, duration, demand))
  }

  ghost predicate IsEarliest(windows: seq<Window>, capacity: int, rs: seq<Interval>,
                             release: int, duration: int, demand: int, start: int) {
    && release <= start
    && Fits(windows, capacity, rs, start, duration, demand)
    && forall s :: release <= s && Fits(windows, capacity, rs, s, duration, demand) ==> start <= s
  }

  ghost predicate NoFit(windows: seq<Window>, capacity: int, rs: seq<Interval>,
                        release: int, duration: int, demand: int) {
    forall s :: release <= s ==> !Fits(windows, capacity, rs, s, duration, demand)
  }

  /** Room for a run of `duration` starting at `start`. */
  predicate Room(capacity: int, rs: seq<Interval>, start: int, duration: int, demand: int) {
    CapacityOver(rs, capacity, start, start + duration, demand)
  }

  /** The smallest admissible start in [lo, hi]. */
  function FirstInRange(capacity: int, rs: seq<Interval>, lo: int, hi: int, duration: int, demand: int): (r: Option<int>)
    ensures r.Some? ==> lo <= r.value <= hi && Room(capacity, rs, r.value, duration, demand)
    ensures forall s :: lo <= s <= hi && (r.Some? ==> s < r.value) ==> !Room(capacity, rs, s, duration, demand)
    decreases hi - lo
  {
    if lo > hi then None
    else if Room(capacity, rs, lo, duration, demand) then Some(lo)
    else FirstInRange(capacity, rs, lo + 1, hi, duration, demand)
  }

  /** The earliest start of the first window, in list order, that has one. */
  function FirstFit(windows: seq<Window>, capacity: int, rs: seq<Interval>,
                    release: int, duration: int, demand: int): Option<int>
  {
    if duration <= 0 then Some(release)
    else if windows == [] then None
    else
      var here := FirstInRange(capacity, rs, Max(windows[0].start, release), windows[0].end - duration, duration, demand);
      if here.Some? then here else FirstFit(windows[1..], capacity, rs, release, duration, demand)
  }

  ghost predicate OrderedByStart(windows: seq<Window>) {
    forall i, j :: 0 <= i < j < |windows| ==> windows[i].start <= windows[j].start
  }

  /** Whatever the window order, the result is an admissible start, and there is a result exactly
      when some start is admissible. */
  lemma {:induction false} FirstFitSoundComplete(windows: seq<Window>, capacity: int, rs: seq<Interval>,
                                                 release: int, duration: int, demand: int)
    ensures var r := FirstFit(windows, capacity, rs, release, duration, demand);
            && (r.Some? ==> release <= r.value && Fits(windows, capacity, rs, r.value, duration, demand))
            && (r.None? ==> NoFit(windows, capacity, rs, release, duration, demand))
  {
    if duration > 0 && windows != [] {
      FirstFitSoundComplete(windows[1..], capacity, rs, release, duration, demand);
      var r := FirstFit(windows, capacity, rs, release, duration, demand);
      var here := FirstInRange(capacity, rs, Max(windows[0].start, release), windows[0].end - duration, duration, demand);
      if here.Some? {
        assert InWindow(windows[0], here.value, duration);
      } else if r.None? {
        forall s | release <= s ensures !Fits(windows, capacity, rs, s, duration, demand) {
          assert !Fits(windows[1..], capacity, rs, s, duration, demand);
        }
      }
    }
  }

  /** With the windows in start order the result is the least admissible start. */
  lemma {:induction false} FirstFitLeast(windows: seq<Window>, capacity: int, rs: seq<Interval>,
                                         release: int, duration: int, demand: int)
    requires OrderedByStart(windows)
    ensures var r := FirstFit(windows, capacity, rs, release, duration, demand);
            r.Some? ==> IsEarliest(windows, capacity, rs, release, duration, demand, r.value)
  {
    FirstFitSoundComplete(windows, capacity, rs, release, duration, demand);
    var r := FirstFit(windows, capacity, rs, release, duration, demand);
    if duration > 0 && windows != [] && r.Some? {
      FirstFitLeast(windows[1..], capacity, rs, release, duration, demand);
      var rest := FirstFit(windows[1..], capacity, rs, release, duration, demand);
      FirstFitSoundComplete(windows[1..], capacity, rs, release, duration, demand);
      var lo := Max(windows[0].start, release);
      var here := FirstInRange(capacity, rs, lo, windows[0].end - duration, duration, demand);
      forall s | release <= s && Fits(windows, capacity, rs, s, duration, demand) ensures r.value <= s {
        var w :| w in windows && InWindow(w, s, duration);
        // every window starts no earlier than the first one, so the first scan began at or before s
        assert lo <= s;
        if here.None? {
          assert w in windows[1..];
          assert Fits(windows[1..], capacity, rs, s, duration, demand);
        }
      }
    }
  }

  // ----- window orders under which the first fit is the earliest one -----

  /** Whatever is reserved and asked for, a start that is found is the least one. */
  ghost predicate AlwaysLeast(windows: seq<Window>) {
    forall capacity, rs, release, duration, demand ::
      LeastFor(windows, capacity, rs, release, duration, demand)
  }

  ghost predicate LeastFor(windows: seq<Window>, capacity: int, rs: seq<Interval>, release: int, duration: int, demand: int) {
    var r := FirstFit(windows, capacity, rs, release, duration, demand);
    r.Some? ==> IsEarliest(windows, capacity, rs, release, duration, demand, r.value)
  }

  /** Some earlier-listed window holds a run of this duration, but only later than `s`; a window listed
      after it holds one at `s`. */
  ghost predicate Overtakes(windows: seq<Window>, i: nat, j: nat, duration: int, s: int, late: int) {
    && i < j < |windows| && duration > 0 && s < late
    && InWindow(windows[j], s, duration) && InWindow(windows[i], late, duration)
    && forall k :: 0 <= k <= i ==> !InWindow(windows[k], s, duration)
  }

  ghost predicate InUsefulOrder(windows: seq<Window>) {
    forall i: nat, j: nat, duration, s, late :: !Overtakes(windows, i, j, duration, s, late)
  }

  /** The start found lies in the first window that admits one, and is the least one there. */
  lemma {:induction false} FirstFitWhere(windows: seq<Window>, capacity: int, rs: seq<Interval>,
                                         release: int, duration: int, demand: int) returns (i: nat)
    requires duration > 0 && FirstFit(windows, capacity, rs, release, duration, demand).Some?
    ensures i < |windows|
    ensures var r := FirstFit(windows, capacity, rs, release, duration, demand).value;
            && release <= r && InWindow(windows[i], r, duration) && Room(capacity, rs, r, duration, demand)
            && forall k, s :: (0 <= k <= i && release <= s && InWindow(windows[k], s, duration)
                               && Room(capacity, rs, s, duration, demand)) ==> k == i && r <= s
  {
    var here := FirstInRange(capacity, rs, Max(windows[0].start, release), windows[0].end - duration, duration, demand);
    if here.Some? {
      i := 0;
    } else {
      var rest := FirstFitWhere(windows[1..], capacity, rs, release, duration, demand);
      i := rest + 1;
      var r := FirstFit(windows, capacity, rs, release, duration, demand).value;
      forall k, s | 0 <= k <= i && release <= s && InWindow(windows[k], s, duration) && Room(capacity, rs, s, duration, demand)
        ensures k == i && r <= s {
        assert k != 0;
        assert windows[1..][k - 1] == windows[k];
      }
    }
  }

  lemma UsefulOrderIsLeast(windows: seq<Window>, capacity: int, rs: seq<Interval>, release: int, duration: int, demand: int)
    requires InUsefulOrder(windows)
    ensures LeastFor(windows, capacity, rs, release, duration, demand)
  {
    var r := FirstFit(windows, capacity, rs, release, duration, demand);
    if duration > 0 && r.Some? {
      FirstFitSoundComplete(windows, capacity, rs, release, duration, demand);
      var i := FirstFitWhere(windows, capacity, rs, release, duration, demand);
      forall s | release <= s && Fits(windows, capacity, rs, s, duration, demand) ensures r.value <= s {
        var w :| w in windows && InWindow(w, s, duration);
        var j :| 0 <= j < |windows| && windows[j] == w;
        assert !Overtakes(windows, i, j, duration, s, r.value);
      }
    }
  }

  /** Asked for a run at `s` with nothing reserved, the search ends in the earlier-listed window. */
  lemma OvertakenIsNotLeast(windows: seq<Window>, i: nat, j: nat, duration: int, s: int, late: int)
    requires Overtakes(windows, i, j, duration, s, late)
    ensures !LeastFor(windows, 1, [], s, duration, 1)
  {
    assert Room(1, [], s, duration, 1) && Room(1, [], late, duration, 1);
    assert windows[j] in windows && windows[i] in windows;
    FirstFitSoundComplete(windows, 1, [], s, duration, 1);
    assert Fits(windows, 1, [], late, duration, 1) && Fits(windows, 1, [], s, duration, 1);
    var q := FirstFitWhere(windows, 1, [], s, duration, 1);
    assert q <= i;
  }

  /** Exactly for which window lists the first fit is always the earliest one; start order is one way
      to meet it. */
  lemma FirstFitLeastIff(windows: seq<Window>)
    ensures AlwaysLeast(windows) <==> InUsefulOrder(windows)
    ensures OrderedByStart(windows) ==> InUsefulOrder(windows)
  {
    if InUsefulOrder(windows) {
      forall capacity, rs, release, duration, demand
        ensures LeastFor(windows, capacity, rs, release, duration, demand) {
        UsefulOrderIsLeast(windows, capacity, rs, release, duration, demand);
      }
    } else {
      var i: nat, j: nat, duration, s, late :| Overtakes(windows, i, j, duration, s, late);
      OvertakenIsNotLeast(windows, i, j, duration, s, late);
      assert !AlwaysLeast(windows);
    }
  }

  /** Out of start order the first fit need not be the earliest one. */
  lemma FirstFitOutOfOrder()
    ensures var windows := [Window(10, 12), Window(0, 2)];
            && FirstFit(windows, 1, [], 0, 2, 1) == Some(10)
            && Fits(windows, 1, [], 0, 2, 1)
  {
    var windows := [Window(10, 12), Window(0, 2)];
    assert CapacityOver([], 1, 10, 12, 1);
    assert CapacityOver([], 1, 0, 2, 1);
    assert windows[1] in windows && InWindow(windows[1], 0, 2);
  }

  lemma FitsOfPermutation(a: seq<Window>, b: seq<Window>, capacity: int, rs: seq<Interval>,
                          start: int, duration: int, demand: int)
    requires multiset(a) == multiset(b)
    ensures Fits(a, capacity, rs, start, duration, demand) <==> Fits(b, capacity, rs, start, duration, demand)
  {
    forall w ensures w in a <==> w in b {
      MemberOfMultiset(a, w);
      MemberOfMultiset(b, w);
    }
  }

  /** Any two start orders of the same windows give the same answer. */
  lemma FirstFitOfOrderings(a: seq<Window>, b: seq<Window>, capacity: int, rs: seq<Interval>,
                            release: int, duration: int, demand: int)
    requires OrderedByStart(a) && OrderedByStart(b) && multiset(a) == multiset(b)
    ensures FirstFit(a, capacity, rs, release, duration, demand) == FirstFit(b, capacity, rs, release, duration, demand)
  {
    FirstFitSoundComplete(a, capacity, rs, release, duration, demand);
    FirstFitSoundComplete(b, capacity, rs, release, duration, demand);
    FirstFitLeast(a, capacity, rs, release, duration, demand);
    FirstFitLeast(b, capacity, rs, release, duration, demand);
    forall s ensures Fits(a, capacity, rs, s, duration, demand) <==> Fits(b, capacity, rs, s, duration, demand) {
      FitsOfPermutation(a, b, capacity, rs, s, duration, demand);
    }
    var ra, rb := FirstFit(a, capacity, rs, release, duration, demand), FirstFit(b, capacity, rs, release, duration, demand);
    if ra.Some? && rb.Some? {
      assert ra.value <= rb.value && rb.value <= ra.value;
    }
  }

  function StartKey(w: Window): Key {
    [Num(w.start)]
  }

  lemma SortedByStartKey(windows: seq<Window>)
    requires SortedBy(StartKey, windows)
    ensures OrderedByStart(windows)
  {
    forall i, j | 0 <= i < j < |windows| ensures windows[i].start <= windows[j].start {
      assert KeyLeq(StartKey(windows[i]), StartKey(windows[j]));
    }
  }

  /** The scheduler's answer: the first fit over the windows in start order. */
  function EarliestFit(windows: seq<Window>, capacity: int, rs: seq<Interval>,
                       release: int, duration: int, demand: int): Option<int> {
    FirstFit(Sort(StartKey, windows), capacity, rs, release, duration, demand)
  }

  /** Least and complete, for windows in any order and with any overlaps. */
  lemma EarliestFitLeastAndComplete(windows: seq<Window>, capacity: int, rs: seq<Interval>,
                                    release: int, duration: int, demand: int)
    ensures var r := EarliestFit(windows, capacity, rs, release, duration, demand);
            && (r.Some? ==> IsEarliest(windows, capacity, rs, release, duration, demand, r.value))
            && (r.None? <==> NoFit(windows, capacity, rs, release, duration, demand))
  {
    var sorted := Sort(StartKey, windows);
    SortSorted(StartKey, windows);
    SortedByStartKey(sorted);
    FirstFitSoundComplete(sorted, capacity, rs, release, duration, demand);
    FirstFitLeast(sorted, capacity, rs, release, duration, demand);
    forall s ensures Fits(sorted, capacity, rs, s, duration, demand) <==> Fits(windows, capacity, rs, s, duration, demand) {
      FitsOfPermutation(sorted, windows, capacity, rs, s, duration, demand);
    }
  }

  lemma EarliestUnique(windows: seq<Window>, capacity: int, rs: seq<Interval>,
                       release: int, duration: int, demand: int, a: int, b: int)
    requires IsEarliest(windows, capacity, rs, release, duration, demand, a)
    requires IsEarliest(windows, capacity, rs, release, duration, demand, b)
    ensures a == b
  {
  }

  /** On one query the two planners agree exactly when the first fit is the earliest. */
  lemma AgreesIffLeast(windows: seq<Window>, capacity: int, rs: seq<Interval>, release: int, duration: int, demand: int)
    ensures FirstFit(windows, capacity, rs, release, duration, demand)
            == EarliestFit(windows, capacity, rs, release, duration, demand)
            <==> LeastFor(windows, capacity, rs, release, duration, demand)
  {
    var first := FirstFit(windows, capacity, rs, release, duration, demand);
    var earliest := EarliestFit(windows, capacity, rs, release, duration, demand);
    FirstFitSoundComplete(windows, capacity, rs, release, duration, demand);
    EarliestFitLeastAndComplete(windows, capacity, rs, release, duration, demand);
    if first.Some? && earliest.Some? && IsEarliest(windows, capacity, rs, release, duration, demand, first.value) {
      EarliestUnique(windows, capacity, rs, release, duration, demand, first.value, earliest.value);
    }
  }

  ghost predicate AlwaysAgrees(windows: seq<Window>) {
    forall capacity, rs, release, duration, demand ::
      FirstFit(windows, capacity, rs, release, duration, demand)
      == EarliestFit(windows, capacity, rs, release, duration, demand)
  }

  /** Exactly for which window lists the two planners always agree. */
  lemma ExactAgreesWithScheduler(windows: seq<Window>)
    ensures AlwaysAgrees(windows) <==> InUsefulOrder(windows)
    ensures OrderedByStart(windows) ==> AlwaysAgrees(windows)
  {
    FirstFitLeastIff(windows);
    forall capacity, rs, release, duration, demand
      ensures FirstFit(windows, capacity, rs, release, duration, demand)
              == EarliestFit(windows, capacity, rs, release, duration, demand)
              <==> LeastFor(windows, capacity, rs, release, duration, demand) {
      AgreesIffLeast(windows, capacity, rs, release, duration, demand);
    }
  }

  /** Adding a reservation of non-negative demand never opens a slot. */
  lemma FitsShrinks(windows: seq<Window>, capacity: int, rs: seq<Interval>, r: Interval,
                    start: int, duration: int, demand: int)
    requires r.demand >= 0
    requires Fits(windows, capacity, rs + [r], start, duration, demand)
    ensures Fits(windows, capacity, rs, start, duration, demand)
  {
    if duration > 0 {
      forall t | start <= t < start + duration ensures DemandAt(rs, t) + demand <= capacity {
        DemandAtAppend(rs, r, t);
        assert DemandAt(rs + [r], t) + demand <= capacity;
      }
    }
  }

  method HasCapacityForInterval(rs: seq<Interval>, capacity: int, start: int, end: int, demand: int) returns (ok: bool)
    ensures ok == CapacityOver(rs, capacity, start, end, demand)
  {
    var t := start;
    while t < end
      invariant start <= t && (start <= end ==> t <= end)
      invariant CapacityOver(rs, capacity, start, t, demand)
    {
      if DemandAt(rs, t) + demand > capacity {
        return false;
      }
      t := t + 1;
    }
    return true;
  }

  /** The scan over windows and instants shared by both planners. */
  method EarliestStart(windows: seq<Window>, capacity: int, rs: seq<Interval>,
                       release: int, duration: int, demand: int) returns (r: Option<int>)
    ensures r == FirstFit(windows, capacity, rs, release, duration, demand)
  {
    if duration <= 0 {
      return Some(release);
    }
    var i := 0;
    while i < |windows|
      invariant 0 <= i <= |windows|
      invariant FirstFit(windows, capacity, rs, release, duration, demand)
             == FirstFit(windows[i..], capacity, rs, release, duration, demand)
    {
      var first := Max(windows[i].start, release);
      var last := windows[i].end - duration;
      assert windows[i..][0] == windows[i] && windows[i..][1..] == windows[i + 1..];
      var candidate := first;
      while candidate <= last
        invariant first <= candidate
        invariant FirstInRange(capacity, rs, first, last, duration, demand)
               == FirstInRange(capacity, rs, candidate, last, duration, demand)
        decreases last - candidate
      {
        var ok := HasCapacityForInterval(rs, capacity, candidate, candidate + duration, demand);
        if ok {
          return Some(candidate);
        }
        candidate := candidate + 1;
      }
      i := i + 1;
    }
    return None;
  }

  method SortWindows(windows: seq<Window>) returns (sorted: seq<Window>)
    ensures OrderedByStart(sorted) && multiset(sorted) == multiset(windows)
  {
    sorted := Sort(StartKey, windows);
    SortSorted(StartKey, windows);
    SortedByStartKey(sorted);
  }

  /** The scheduler's form: whatever order the sort leaves among windows of equal start. */
  method EarliestStartSorted(windows: seq<Window>, capacity: int, rs: seq<Interval>,
                             release: int, duration: int, demand: int) returns (r: Option<int>)
    ensures r.Some? ==> IsEarliest(windows, capacity, rs, release, duration, demand, r.value)
    ensures r.None? <==> NoFit(windows, capacity, rs, release, duration, demand)
    ensures r == EarliestFit(windows, capacity, rs, release, duration, demand)
  {
    var sorted := SortWindows(windows);
    r := EarliestStart(sorted, capacity, rs, release, duration, demand);
    SortSorted(StartKey, windows);
    SortedByStartKey(Sort(StartKey, windows));
    FirstFitOfOrderings(sorted, Sort(StartKey, windows), capacity, rs, release, duration, demand);
    EarliestFitLeastAndComplete(windows, capacity, rs, release, duration, demand);
  }
}
