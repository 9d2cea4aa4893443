/** What the linear rows mean: a choice of options satisfies them exactly when it is a feasible
    choice, and where the CP-SAT and the MIP rows differ. */
module RowsMeaning {
  import opened OptimizerModel
  import opened Formulation
  import opened LinearRows

  // ---- sums over chosen options --------------------------------------------------------------------------

  predicate Picked(x: Choice, list: seq<nat>, k: nat) {
    k < |x| && x[k] && k in list
  }

  /** Sum of `c` over the chosen options of a list, among the first `n` options. */
  function PickSum(x: Choice, list: seq<nat>, c: nat -> int, n: nat): int {
    if n == 0 then 0 else PickSum(x, list, c, n - 1) + (if Picked(x, list, n - 1) then c(n - 1) else 0)
  }

  ghost predicate AtMostOne(x: Choice, list: seq<nat>) {
    forall k, l :: Picked(x, list, k) && Picked(x, list, l) ==> k == l
  }

  ghost predicate SomePicked(x: Choice, list: seq<nat>) {
    exists k :: Picked(x, list, k)
  }

  lemma {:induction false} PickSumExtensional(x: Choice, a: seq<nat>, b: seq<nat>, c: nat -> int, n: nat)
    requires forall k :: 0 <= k < n ==> (k in a <==> k in b)
    ensures PickSum(x, a, c, n) == PickSum(x, b, c, n)
  {
    if n > 0 { PickSumExtensional(x, a, b, c, n - 1); }
  }

  /** The largest element of an increasing list comes last. */
  lemma LargestIsLast(list: seq<nat>, n: nat)
    requires Increasing(list) && n in list && forall k :: k in list ==> k <= n
    ensures list == list[..|list| - 1] + [n]
    ensures forall k :: k in list[..|list| - 1] <==> k in list && k < n
  {
    var last := |list| - 1;
    var i :| 0 <= i < |list| && list[i] == n;
    assert list[last] in list;
    assert i == last;
    forall k | k in list && k < n ensures k in list[..last] {
      var j :| 0 <= j < |list| && list[j] == k;
      assert list[..last][j] == k;
    }
    forall k | k in list[..last] ensures k in list && k < n {
      var j :| 0 <= j < last && list[..last][j] == k;
      assert list[j] < list[last];
    }
  }

  /** An expression over an increasing list sums over the chosen options of that list. */
  lemma {:induction false} EvalTerms(x: Choice, list: seq<nat>, c: nat -> int, n: nat)
    requires Increasing(list) && forall k :: k in list ==> k < n
    ensures Eval(Terms(list, c), x) == PickSum(x, list, c, n)
    decreases n
  {
    if list == [] {
      SumOfNone(x, list, c, n);
    } else if (n - 1) in list {
      var rest := list[..|list| - 1];
      LargestIsLast(list, n - 1);
      EvalTerms(x, rest, c, n - 1);
      PickSumExtensional(x, rest, list, c, n - 1);
      assert Terms(list, c)[..|list| - 1] == Terms(rest, c);
    } else {
      assert list[0] in list;
      EvalTerms(x, list, c, n - 1);
    }
  }

  lemma {:induction false} EvalConcat(a: LinExpr, b: LinExpr, x: Choice)
    ensures Eval(a + b, x) == Eval(a, x) + Eval(b, x)
    decreases |b|
  {
    if b == [] {
      assert a + b == a;
    } else {
      assert (a + b)[..|a + b| - 1] == a + b[..|b| - 1];
      EvalConcat(a, b[..|b| - 1], x);
    }
  }

  lemma {:induction false} EvalScale(factor: int, e: LinExpr, x: Choice)
    ensures Eval(Scale(factor, e), x) == factor * Eval(e, x)
    decreases |e|
  {
    if e != [] {
      var n := |e| - 1;
      assert Scale(factor, e)[..n] == Scale(factor, e[..n]);
      EvalScale(factor, e[..n], x);
      var bit := Bit(x, e[n].option);
      assert factor * (Eval(e[..n], x) + e[n].coef * bit) == factor * Eval(e[..n], x) + (factor * e[n].coef) * bit;
    }
  }

  /** Counting: the sum of ones is 0 with nothing picked and 1 with exactly one option picked. */
  lemma {:induction false} CountPicked(x: Choice, list: seq<nat>, n: nat)
    ensures PickSum(x, list, One(), n) >= 0
    ensures PickSum(x, list, One(), n) == 0 <==> forall k: nat :: Picked(x, list, k) ==> k >= n
    ensures PickSum(x, list, One(), n) <= 1 <==>
              forall k: nat, l: nat :: Picked(x, list, k) && Picked(x, list, l) && k < n && l < n ==> k == l
  {
    if n > 0 {
      CountPicked(x, list, n - 1);
      if Picked(x, list, n - 1) && PickSum(x, list, One(), n - 1) > 0 {
        var k: nat :| Picked(x, list, k) && k < n - 1;
        assert k != n - 1;
      }
    }
  }

  lemma CountMeaning(x: Choice, list: seq<nat>)
    ensures var count := PickSum(x, list, One(), |x|);
            && count >= 0
            && (count <= 1 <==> AtMostOne(x, list))
            && (count >= 1 <==> SomePicked(x, list))
  {
    CountPicked(x, list, |x|);
  }

  lemma {:induction false} SumOfNone(x: Choice, list: seq<nat>, c: nat -> int, n: nat)
    requires forall k: nat :: Picked(x, list, k) ==> k >= n
    ensures PickSum(x, list, c, n) == 0
  {
    if n > 0 { SumOfNone(x, list, c, n - 1); }
  }

  lemma {:induction false} SumOfOne(x: Choice, list: seq<nat>, c: nat -> int, k: nat, n: nat)
    requires AtMostOne(x, list) && Picked(x, list, k) && k < n
    ensures PickSum(x, list, c, n) == c(k)
  {
    if n - 1 == k {
      SumOfNone(x, list, c, n - 1);
    } else {
      SumOfOne(x, list, c, k, n - 1);
    }
  }

  // ---- MIP sums -------------------------------------------------------------------------------------------

  lemma {:induction false} EvalMipOne(x: Choice, list: seq<nat>, c: nat -> int, n: nat)
    requires n <= |x|
    ensures EvalMip(SetCoefs(map[], list, c), x, n) == PickSum(x, list, c, n)
  {
    if n > 0 { EvalMipOne(x, list, c, n - 1); }
  }

  /** Setting two disjoint lists gives the sum of both. */
  lemma {:induction false} EvalMipTwo(x: Choice, a: seq<nat>, c: nat -> int, b: seq<nat>, d: nat -> int, n: nat)
    requires n <= |x| && forall k :: k in a ==> k !in b
    ensures EvalMip(SetCoefs(SetCoefs(map[], a, c), b, d), x, n) == PickSum(x, a, c, n) + PickSum(x, b, d, n)
  {
    if n > 0 { EvalMipTwo(x, a, c, b, d, n - 1); }
  }

  /** Setting the same list twice keeps only the second setting. */
  lemma {:induction false} EvalMipOverwritten(x: Choice, a: seq<nat>, c: nat -> int, d: nat -> int, n: nat)
    requires n <= |x|
    ensures EvalMip(SetCoefs(SetCoefs(map[], a, c), a, d), x, n) == PickSum(x, a, d, n)
  {
    if n > 0 { EvalMipOverwritten(x, a, c, d, n - 1); }
  }

  lemma {:induction false} PickSumMinusOne(x: Choice, list: seq<nat>, n: nat)
    ensures PickSum(x, list, MinusOne(), n) == -PickSum(x, list, One(), n)
  {
    if n > 0 { PickSumMinusOne(x, list, n - 1); }
  }

  lemma {:induction false} PickSumMinusEnd(f: Formulation, x: Choice, list: seq<nat>, n: nat)
    ensures PickSum(x, list, MinusEnd(f), n) == -PickSum(x, list, EndOf(f), n)
  {
    if n > 0 { PickSumMinusEnd(f, x, list, n - 1); }
  }

  lemma {:induction false} PickSumStartMinusM(f: Formulation, x: Choice, list: seq<nat>, n: nat)
    ensures PickSum(x, list, StartMinusM(f), n)
         == PickSum(x, list, StartOf(f), n) - f.horizon * PickSum(x, list, One(), n)
  {
    if n > 0 {
      PickSumStartMinusM(f, x, list, n - 1);
      var ones := PickSum(x, list, One(), n - 1);
      assert f.horizon * (ones + 1) == f.horizon * ones + f.horizon;
    }
  }

  // ---- feasible choices ------------------------------------------------------------------------------------

  /** The shape that compiling a model guarantees. */
  ghost predicate Shaped(f: Formulation) {
    && IndexesInRange(f)
    && (forall i :: 0 <= i < |f.decisions| ==> Lists(f.options, f.decisions[i].options, OfTask(i)))
    && (forall s :: s in f.slots ==> Lists(f.options, s.options, At(s.actorIndex, s.time)))
    && (forall p :: p in f.mutexes ==> p.first != p.second)
    && f.horizon >= 0
    && (forall k :: 0 <= k < |f.options| ==> f.options[k].end <= f.horizon)
  }

  lemma ExactIsShaped(m: Model, opts: Options, f: Formulation)
    requires Exact(m, opts, f)
    ensures Shaped(f)
  {
    forall s | s in f.slots ensures Lists(f.options, s.options, At(s.actorIndex, s.time)) {
      var r :| 0 <= r < |f.slots| && f.slots[r] == s;
      assert SlotExact(m, f.options, f.slots[r]);
    }
  }

  /** Each task at most once, required tasks exactly once. */
  ghost predicate SelectionOk(d: Decision, x: Choice) {
    AtMostOne(x, d.options) && (d.required ==> SomePicked(x, d.options))
  }

  ghost predicate CapacityOk(f: Formulation, s: SlotRow, x: Choice) {
    PickSum(x, s.options, DemandIn(f), |x|) <= s.capacity
  }

  /** A chosen successor has a chosen predecessor that ends no later than it starts. */
  ghost predicate PrecedenceOk(f: Formulation, d: Dependency, x: Choice)
    requires InRange(f, d)
  {
    forall k :: Picked(x, f.decisions[d.succ].options, k) ==>
      exists l :: Picked(x, f.decisions[d.pred].options, l) && EndOf(f)(l) <= StartOf(f)(k)
  }

  ghost predicate MutexOk(f: Formulation, p: MutexPair, x: Choice)
    requires PairInRange(f, p)
  {
    !(SomePicked(x, f.decisions[p.first].options) && SomePicked(x, f.decisions[p.second].options))
  }

  ghost predicate SelectionsOk(f: Formulation, x: Choice) {
    forall d :: d in f.decisions ==> SelectionOk(d, x)
  }

  ghost predicate CapacitiesOk(f: Formulation, x: Choice) {
    forall s :: s in f.slots ==> CapacityOk(f, s, x)
  }

  ghost predicate MutexesOk(f: Formulation, x: Choice)
    requires IndexesInRange(f)
  {
    forall p :: p in f.mutexes ==> MutexOk(f, p, x)
  }

  ghost predicate PrecedencesOk(f: Formulation, x: Choice)
    requires IndexesInRange(f)
  {
    forall d :: d in f.dependencies ==> PrecedenceOk(f, d, x)
  }

  ghost predicate ChoiceOk(f: Formulation, x: Choice)
    requires IndexesInRange(f)
  {
    SelectionsOk(f, x) && CapacitiesOk(f, x) && PrecedencesOk(f, x) && MutexesOk(f, x)
  }

  // ---- one row at a time --------------------------------------------------------------------------------------

  lemma DecisionTerms(f: Formulation, x: Choice, i: nat, c: nat -> int)
    requires Shaped(f) && |x| == |f.options| && i < |f.decisions|
    ensures Eval(Terms(f.decisions[i].options, c), x) == PickSum(x, f.decisions[i].options, c, |x|)
  {
    EvalTerms(x, f.decisions[i].options, c, |x|);
  }

  lemma SelectionRowMeaning(f: Formulation, x: Choice, i: nat)
    requires Shaped(f) && |x| == |f.options| && i < |f.decisions|
    ensures Holds(SelectionRow(f.decisions[i]), x) <==> SelectionOk(f.decisions[i], x)
    ensures HoldsMip(MipSelection(f.decisions[i]), x) <==> SelectionOk(f.decisions[i], x)
  {
    var list := f.decisions[i].options;
    DecisionTerms(f, x, i, One());
    EvalMipOne(x, list, One(), |x|);
    CountMeaning(x, list);
  }

  lemma CapacityRowMeaning(f: Formulation, x: Choice, s: SlotRow)
    requires Shaped(f) && |x| == |f.options| && s in f.slots
    ensures Holds(CapacityRow(f, s), x) <==> CapacityOk(f, s, x)
    ensures HoldsMip(MipCapacity(f, s), x) <==> CapacityOk(f, s, x)
  {
    EvalTerms(x, s.options, DemandIn(f), |x|);
    EvalMipOne(x, s.options, DemandIn(f), |x|);
  }

  /** Options of different tasks are different. */
  lemma DecisionsDisjoint(f: Formulation, i: nat, j: nat)
    requires Shaped(f) && i < |f.decisions| && j < |f.decisions| && i != j
    ensures forall k :: k in f.decisions[i].options ==> k !in f.decisions[j].options
  {
    assert Lists(f.options, f.decisions[i].options, OfTask(i)) && Lists(f.options, f.decisions[j].options, OfTask(j));
    forall k | k in f.decisions[i].options ensures k !in f.decisions[j].options {
      assert OfTask(i)(f.options[k]);
    }
  }

  lemma MutexRowMeaning(f: Formulation, x: Choice, p: MutexPair)
    requires Shaped(f) && |x| == |f.options| && p in f.mutexes
    requires SelectionOk(f.decisions[p.first], x) && SelectionOk(f.decisions[p.second], x)
    ensures Holds(MutexRow(f, p), x) <==> MutexOk(f, p, x)
    ensures HoldsMip(MipMutex(f, p), x) <==> MutexOk(f, p, x)
  {
    var a, b := f.decisions[p.first].options, f.decisions[p.second].options;
    DecisionTerms(f, x, p.first, One());
    DecisionTerms(f, x, p.second, One());
    EvalConcat(Terms(a, One()), Terms(b, One()), x);
    DecisionsDisjoint(f, p.first, p.second);
    EvalMipTwo(x, a, One(), b, One(), |x|);
    CountMeaning(x, a);
    CountMeaning(x, b);
  }

  lemma PresenceValue(f: Formulation, x: Choice, d: Dependency)
    requires Shaped(f) && |x| == |f.options| && InRange(f, d)
    ensures Eval(PresenceRow(f, d).expr, x)
         == PickSum(x, f.decisions[d.succ].options, One(), |x|) - PickSum(x, f.decisions[d.pred].options, One(), |x|)
  {
    var s, p := Terms(f.decisions[d.succ].options, One()), Terms(f.decisions[d.pred].options, One());
    DecisionTerms(f, x, d.succ, One());
    DecisionTerms(f, x, d.pred, One());
    EvalScale(-1, p, x);
    EvalConcat(s, Scale(-1, p), x);
  }

  lemma EvalBigM(a: LinExpr, b: LinExpr, c: LinExpr, bigM: int, x: Choice)
    ensures Eval(a + Scale(-1, b) + Scale(-bigM, c), x) == Eval(a, x) - Eval(b, x) - bigM * Eval(c, x)
  {
    EvalScale(-1, b, x);
    EvalScale(-bigM, c, x);
    EvalConcat(a, Scale(-1, b), x);
    EvalConcat(a + Scale(-1, b), Scale(-bigM, c), x);
    NegatedProduct(bigM, Eval(c, x));
  }

  lemma NegatedProduct(a: int, b: int)
    ensures (-a) * b == -(a * b)
  {
  }

  lemma TimingValue(f: Formulation, x: Choice, d: Dependency)
    requires Shaped(f) && |x| == |f.options| && InRange(f, d)
    ensures Eval(TimingRow(f, d).expr, x)
         == PickSum(x, f.decisions[d.succ].options, StartOf(f), |x|)
          - PickSum(x, f.decisions[d.pred].options, EndOf(f), |x|)
          - f.horizon * PickSum(x, f.decisions[d.succ].options, One(), |x|)
  {
    DecisionTerms(f, x, d.succ, StartOf(f));
    DecisionTerms(f, x, d.succ, One());
    DecisionTerms(f, x, d.pred, EndOf(f));
    EvalBigM(Terms(f.decisions[d.succ].options, StartOf(f)), Terms(f.decisions[d.pred].options, EndOf(f)),
             Terms(f.decisions[d.succ].options, One()), f.horizon, x);
  }

  /** The two rows of a dependency, on the values they compare. */
  ghost predicate DependencyValues(f: Formulation, x: Choice, d: Dependency)
    requires InRange(f, d)
  {
    var succ, pred := f.decisions[d.succ].options, f.decisions[d.pred].options;
    var chosen := PickSum(x, succ, One(), |x|);
    && chosen <= PickSum(x, pred, One(), |x|)
    && PickSum(x, succ, StartOf(f), |x|) - PickSum(x, pred, EndOf(f), |x|) - f.horizon * chosen >= -f.horizon
  }

  lemma EndWithinHorizon(f: Formulation, x: Choice, list: seq<nat>)
    requires Shaped(f) && |x| == |f.options| && AtMostOne(x, list)
    ensures PickSum(x, list, EndOf(f), |x|) <= f.horizon
  {
    if SomePicked(x, list) {
      var k :| Picked(x, list, k);
      SumOfOne(x, list, EndOf(f), k, |x|);
    } else {
      SumOfNone(x, list, EndOf(f), |x|);
    }
  }

  /** With each task chosen at most once, the big-M pair says precedence. */
  lemma BigMMeaning(f: Formulation, x: Choice, d: Dependency)
    requires Shaped(f) && |x| == |f.options| && InRange(f, d)
    requires AtMostOne(x, f.decisions[d.succ].options) && AtMostOne(x, f.decisions[d.pred].options)
    ensures DependencyValues(f, x, d) <==> PrecedenceOk(f, d, x)
  {
    var succ, pred := f.decisions[d.succ].options, f.decisions[d.pred].options;
    CountMeaning(x, succ);
    CountMeaning(x, pred);
    EndWithinHorizon(f, x, pred);
    if SomePicked(x, succ) {
      var k :| Picked(x, succ, k);
      SumOfOne(x, succ, StartOf(f), k, |x|);
      SumOfOne(x, succ, One(), k, |x|);
      if SomePicked(x, pred) {
        var l :| Picked(x, pred, l);
        SumOfOne(x, pred, EndOf(f), l, |x|);
        SumOfOne(x, pred, One(), l, |x|);
      }
    } else {
      SumOfNone(x, succ, StartOf(f), |x|);
      SumOfNone(x, succ, One(), |x|);
    }
  }

  lemma CpDependencyMeaning(f: Formulation, x: Choice, d: Dependency)
    requires Shaped(f) && |x| == |f.options| && InRange(f, d)
    requires AtMostOne(x, f.decisions[d.succ].options) && AtMostOne(x, f.decisions[d.pred].options)
    ensures Holds(PresenceRow(f, d), x) && Holds(TimingRow(f, d), x) <==> PrecedenceOk(f, d, x)
  {
    PresenceValue(f, x, d);
    TimingValue(f, x, d);
    BigMMeaning(f, x, d);
  }

  lemma MipDependencyMeaning(f: Formulation, x: Choice, d: Dependency)
    requires Shaped(f) && |x| == |f.options| && InRange(f, d) && d.pred != d.succ
    requires AtMostOne(x, f.decisions[d.succ].options) && AtMostOne(x, f.decisions[d.pred].options)
    ensures HoldsMip(MipPresence(f, d), x) && HoldsMip(MipTiming(f, d), x) <==> PrecedenceOk(f, d, x)
  {
    var succ, pred := f.decisions[d.succ].options, f.decisions[d.pred].options;
    DecisionsDisjoint(f, d.succ, d.pred);
    EvalMipTwo(x, succ, One(), pred, MinusOne(), |x|);
    EvalMipTwo(x, succ, StartMinusM(f), pred, MinusEnd(f), |x|);
    PickSumMinusOne(x, pred, |x|);
    PickSumMinusEnd(f, x, pred, |x|);
    PickSumStartMinusM(f, x, succ, |x|);
    BigMMeaning(f, x, d);
  }

  /** For a task that depends on itself the second setting overwrites the first, and the MIP rows
      constrain nothing. */
  lemma MipSelfDependencyIsVoid(f: Formulation, x: Choice, d: Dependency)
    requires Shaped(f) && |x| == |f.options| && InRange(f, d) && d.pred == d.succ
    requires AtMostOne(x, f.decisions[d.pred].options)
    ensures HoldsMip(MipPresence(f, d), x) && HoldsMip(MipTiming(f, d), x)
  {
    var list := f.decisions[d.pred].options;
    EvalMipOverwritten(x, list, One(), MinusOne(), |x|);
    EvalMipOverwritten(x, list, StartMinusM(f), MinusEnd(f), |x|);
    PickSumMinusOne(x, list, |x|);
    PickSumMinusEnd(f, x, list, |x|);
    CountMeaning(x, list);
    EndWithinHorizon(f, x, list);
  }
}
