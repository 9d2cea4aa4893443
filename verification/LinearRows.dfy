/** The linear rows that the CP-SAT and MIP backends build from a formulation. */
module LinearRows {
  import opened Basics
  import opened Formulation

  /** A 0/1 value for every option. */
  type Choice = seq<bool>

  // ---- CP-SAT: expressions accumulate terms ------------------------------------------------------------

  datatype Term = Term(option: nat, coef: int)
  type LinExpr = seq<Term>

  datatype Row = Row(expr: LinExpr, lo: Option<int>, hi: Option<int>)

  function Bit(x: Choice, k: nat): int {
    if k < |x| && x[k] then 1 else 0
  }

  function Eval(e: LinExpr, x: Choice): int {
    if e == [] then 0 else Eval(e[..|e| - 1], x) + e[|e| - 1].coef * Bit(x, e[|e| - 1].option)
  }

  predicate InBounds(value: int, lo: Option<int>, hi: Option<int>) {
    (lo.Some? ==> lo.value <= value) && (hi.Some? ==> value <= hi.value)
  }

  predicate Holds(row: Row, x: Choice) {
    InBounds(Eval(row.expr, x), row.lo, row.hi)
  }

  ghost predicate AllHold(rows: seq<Row>, x: Choice) {
    forall r :: r in rows ==> Holds(r, x)
  }

  function Scale(factor: int, e: LinExpr): (r: LinExpr)
    ensures |r| == |e|
  {
    seq(|e|, k requires 0 <= k < |e| => Term(e[k].option, factor * e[k].coef))
  }

  /** The expression that sums `c` over a list of options. */
  function Terms(list: seq<nat>, c: nat -> int): (r: LinExpr)
    ensures |r| == |list|
  {
    seq(|list|, k requires 0 <= k < |list| => Term(list[k], c(list[k])))
  }

  function One(): nat -> int {
    (k: nat) => 1
  }

  function StartOf(f: Formulation): nat -> int {
    (k: nat) => if k < |f.options| then f.options[k].start else 0
  }

  function EndOf(f: Formulation): nat -> int {
    (k: nat) => if k < |f.options| then f.options[k].end else 0
  }

  function DemandIn(f: Formulation): nat -> int {
    (k: nat) => if k < |f.options| then f.options[k].demand else 0
  }

  function SelectionRow(d: Decision): Row {
    Row(Terms(d.options, One()), if d.required then Some(1) else None, Some(1))
  }

  function CapacityRow(f: Formulation, s: SlotRow): Row {
    Row(Terms(s.options, DemandIn(f)), None, Some(s.capacity))
  }

  predicate InRange(f: Formulation, d: Dependency) {
    d.pred < |f.decisions| && d.succ < |f.decisions|
  }

  /** The successor may be selected only if the predecessor is. */
  function PresenceRow(f: Formulation, d: Dependency): Row
    requires InRange(f, d)
  {
    Row(Terms(f.decisions[d.succ].options, One()) + Scale(-1, Terms(f.decisions[d.pred].options, One())), None, Some(0))
  }

  /** start(succ) - end(pred) - M * selected(succ) >= -M, with the horizon as M. */
  function TimingRow(f: Formulation, d: Dependency): Row
    requires InRange(f, d)
  {
    Row(Terms(f.decisions[d.succ].options, StartOf(f)) + Scale(-1, Terms(f.decisions[d.pred].options, EndOf(f))) +
        Scale(-f.horizon, Terms(f.decisions[d.succ].options, One())), Some(-f.horizon), None)
  }

  predicate PairInRange(f: Formulation, p: MutexPair) {
    p.first < |f.decisions| && p.second < |f.decisions|
  }

  function MutexRow(f: Formulation, p: MutexPair): Row
    requires PairInRange(f, p)
  {
    Row(Terms(f.decisions[p.first].options, One()) + Terms(f.decisions[p.second].options, One()), None, Some(1))
  }

  ghost predicate IndexesInRange(f: Formulation) {
    && (forall i :: 0 <= i < |f.decisions| ==> f.decisions[i].taskIndex == i)
    && (forall d :: d in f.dependencies ==> InRange(f, d))
    && (forall p :: p in f.mutexes ==> PairInRange(f, p))
  }

  /** The rows of the model, each with the constraint it was built for. */
  ghost predicate IsCpRow(f: Formulation, row: Row) {
    || (exists d :: d in f.decisions && row == SelectionRow(d))
    || (exists s :: s in f.slots && row == CapacityRow(f, s))
    || (exists d :: d in f.dependencies && InRange(f, d) && (row == PresenceRow(f, d) || row == TimingRow(f, d)))
    || (exists p :: p in f.mutexes && PairInRange(f, p) && row == MutexRow(f, p))
  }

  ghost predicate CpRowsComplete(f: Formulation, rows: seq<Row>) {
    && (forall d :: d in f.decisions ==> SelectionRow(d) in rows)
    && (forall s :: s in f.slots ==> CapacityRow(f, s) in rows)
    && (forall d :: d in f.dependencies && InRange(f, d) ==> PresenceRow(f, d) in rows && TimingRow(f, d) in rows)
    && (forall p :: p in f.mutexes && PairInRange(f, p) ==> MutexRow(f, p) in rows)
  }

  method SumTerms(list: seq<nat>, c: nat -> int) returns (e: LinExpr)
    ensures e == Terms(list, c)
  {
    e := [];
    var k := 0;
    while k < |list|
      invariant 0 <= k <= |list|
      invariant e == Terms(list, c)[..k]
    {
      e := e + [Term(list[k], c(list[k]))];
      k := k + 1;
    }
  }

  /** Exactly the rows above, and all of them. */
  method BuildCpSatRows(f: Formulation) returns (rows: seq<Row>)
    requires IndexesInRange(f)
    ensures forall r :: r in rows ==> IsCpRow(f, r)
    ensures CpRowsComplete(f, rows)
  {
    rows := [];
    var selected: seq<LinExpr> := [];
    var starts: seq<LinExpr> := [];
    var ends: seq<LinExpr> := [];
    var i := 0;
    while i < |f.decisions|
      invariant 0 <= i <= |f.decisions| && |selected| == |starts| == |ends| == i
      invariant forall k :: 0 <= k < i ==>
        && selected[k] == Terms(f.decisions[k].options, One())
        && starts[k] == Terms(f.decisions[k].options, StartOf(f))
        && ends[k] == Terms(f.decisions[k].options, EndOf(f))
      invariant forall r :: r in rows ==> IsCpRow(f, r)
      invariant forall k :: 0 <= k < i ==> SelectionRow(f.decisions[k]) in rows
    {
      var d := f.decisions[i];
      var select := SumTerms(d.options, One());
      var start := SumTerms(d.options, StartOf(f));
      var end := SumTerms(d.options, EndOf(f));
      assert IsCpRow(f, SelectionRow(d));
      rows := rows + [if d.required then Row(select, Some(1), Some(1)) else Row(select, None, Some(1))];
      selected, starts, ends := selected + [select], starts + [start], ends + [end];
      i := i + 1;
    }
    var more := CapacityRows(f);
    rows := rows + more;
    more := DependencyRows(f, selected, starts, ends);
    rows := rows + more;
    more := MutexRows(f, selected);
    rows := rows + more;
  }

  method CapacityRows(f: Formulation) returns (rows: seq<Row>)
    ensures forall r :: r in rows ==> IsCpRow(f, r)
    ensures forall s :: s in f.slots ==> CapacityRow(f, s) in rows
  {
    rows := [];
    var i := 0;
    while i < |f.slots|
      invariant 0 <= i <= |f.slots|
      invariant forall r :: r in rows ==> IsCpRow(f, r)
      invariant forall k :: 0 <= k < i ==> CapacityRow(f, f.slots[k]) in rows
    {
      var load := SumTerms(f.slots[i].options, DemandIn(f));
      assert IsCpRow(f, CapacityRow(f, f.slots[i]));
      rows := rows + [Row(load, None, Some(f.slots[i].capacity))];
      i := i + 1;
    }
  }

  lemma DependencyRowsAreRows(f: Formulation, d: Dependency)
    requires d in f.dependencies && InRange(f, d)
    ensures IsCpRow(f, PresenceRow(f, d)) && IsCpRow(f, TimingRow(f, d))
  {
  }

  method DependencyPair(f: Formulation, d: Dependency, succ: LinExpr, pred: LinExpr, start: LinExpr, end: LinExpr, bigM: int)
    returns (presence: Row, timing: Row)
    requires InRange(f, d) && bigM == f.horizon
    requires succ == Terms(f.decisions[d.succ].options, One()) && pred == Terms(f.decisions[d.pred].options, One())
    requires start == Terms(f.decisions[d.succ].options, StartOf(f)) && end == Terms(f.decisions[d.pred].options, EndOf(f))
    ensures presence == PresenceRow(f, d) && timing == TimingRow(f, d)
  {
    presence := Row(succ + Scale(-1, pred), None, Some(0));
    timing := Row(start + Scale(-1, end) + Scale(-bigM, succ), Some(-bigM), None);
  }

  ghost predicate HasCpPair(f: Formulation, d: Dependency, rows: seq<Row>) {
    InRange(f, d) && PresenceRow(f, d) in rows && TimingRow(f, d) in rows
  }

  lemma HasCpPairGrows(f: Formulation, d: Dependency, rows: seq<Row>, presence: Row, timing: Row)
    requires HasCpPair(f, d, rows) || (InRange(f, d) && presence == PresenceRow(f, d) && timing == TimingRow(f, d))
    ensures HasCpPair(f, d, rows + [presence, timing])
  {
    var more := [presence, timing];
    assert more[0] == presence && more[1] == timing;
  }

  method DependencyRows(f: Formulation, selected: seq<LinExpr>, starts: seq<LinExpr>, ends: seq<LinExpr>) returns (rows: seq<Row>)
    requires IndexesInRange(f) && |selected| == |starts| == |ends| == |f.decisions|
    requires forall k :: 0 <= k < |f.decisions| ==>
      && selected[k] == Terms(f.decisions[k].options, One())
      && starts[k] == Terms(f.decisions[k].options, StartOf(f))
      && ends[k] == Terms(f.decisions[k].options, EndOf(f))
    ensures forall r :: r in rows ==> IsCpRow(f, r)
    ensures forall d :: d in f.dependencies ==> HasCpPair(f, d, rows)
  {
    rows := [];
    var bigM := f.horizon;
    var i := 0;
    while i < |f.dependencies|
      invariant 0 <= i <= |f.dependencies|
      invariant forall r :: r in rows ==> IsCpRow(f, r)
      invariant forall k :: 0 <= k < i ==> HasCpPair(f, f.dependencies[k], rows)
    {
      var d := f.dependencies[i];
      assert d in f.dependencies;
      var presence, timing := DependencyPair(f, d, selected[d.succ], selected[d.pred], starts[d.succ], ends[d.pred], bigM);
      DependencyRowsAreRows(f, d);
      forall k | 0 <= k <= i ensures HasCpPair(f, f.dependencies[k], rows + [presence, timing]) {
        HasCpPairGrows(f, f.dependencies[k], rows, presence, timing);
      }
      rows := rows + [presence, timing];
      i := i + 1;
    }
  }

  method MutexRows(f: Formulation, selected: seq<LinExpr>) returns (rows: seq<Row>)
    requires IndexesInRange(f) && |selected| == |f.decisions|
    requires forall k :: 0 <= k < |f.decisions| ==> selected[k] == Terms(f.decisions[k].options, One())
    ensures forall r :: r in rows ==> IsCpRow(f, r)
    ensures forall p :: p in f.mutexes ==> PairInRange(f, p) && MutexRow(f, p) in rows
  {
    rows := [];
    var i := 0;
    while i < |f.mutexes|
      invariant 0 <= i <= |f.mutexes|
      invariant forall r :: r in rows ==> IsCpRow(f, r)
      invariant forall k :: 0 <= k < i ==> PairInRange(f, f.mutexes[k]) && MutexRow(f, f.mutexes[k]) in rows
    {
      var p := f.mutexes[i];
      assert p in f.mutexes;
      assert IsCpRow(f, MutexRow(f, p));
      rows := rows + [Row(selected[p.first] + selected[p.second], None, Some(1))];
      i := i + 1;
    }
  }

  // ---- MIP: coefficients are set, so setting one again overwrites it -------------------------------------

  datatype MipRow = MipRow(coefs: map<nat, int>, lo: Option<int>, hi: Option<int>)

  function CoefOf(coefs: map<nat, int>, k: nat): int {
    if k in coefs then coefs[k] else 0
  }

  /** Value over the first `n` options. */
  function EvalMip(coefs: map<nat, int>, x: Choice, n: nat): int {
    if n == 0 then 0 else EvalMip(coefs, x, n - 1) + CoefOf(coefs, n - 1) * Bit(x, n - 1)
  }

  predicate HoldsMip(row: MipRow, x: Choice) {
    InBounds(EvalMip(row.coefs, x, |x|), row.lo, row.hi)
  }

  ghost predicate AllHoldMip(rows: seq<MipRow>, x: Choice) {
    forall r :: r in rows ==> HoldsMip(r, x)
  }

  function SetCoefs(coefs: map<nat, int>, list: seq<nat>, c: nat -> int): (r: map<nat, int>)
    ensures r.Keys == coefs.Keys + set k | k in list
    ensures forall k :: k in r ==> r[k] == if k in list then c(k) else coefs[k]
  {
    if list == [] then coefs
    else
      var n := |list| - 1;
      assert list == list[..n] + [list[n]];
      SetCoefs(coefs, list[..n], c)[list[n] := c(list[n])]
  }

  function MinusOne(): nat -> int {
    (k: nat) => -1
  }

  function MinusEnd(f: Formulation): nat -> int {
    (k: nat) => -EndOf(f)(k)
  }

  function StartMinusM(f: Formulation): nat -> int {
    (k: nat) => StartOf(f)(k) - f.horizon
  }

  function MipSelection(d: Decision): MipRow {
    MipRow(SetCoefs(map[], d.options, One()), Some(if d.required then 1 else 0), Some(1))
  }

  function MipCapacity(f: Formulation, s: SlotRow): MipRow {
    MipRow(SetCoefs(map[], s.options, DemandIn(f)), None, Some(s.capacity))
  }

  function MipPresence(f: Formulation, d: Dependency): MipRow
    requires InRange(f, d)
  {
    MipRow(SetCoefs(SetCoefs(map[], f.decisions[d.succ].options, One()), f.decisions[d.pred].options, MinusOne()),
           None, Some(0))
  }

  function MipTiming(f: Formulation, d: Dependency): MipRow
    requires InRange(f, d)
  {
    MipRow(SetCoefs(SetCoefs(map[], f.decisions[d.succ].options, StartMinusM(f)), f.decisions[d.pred].options, MinusEnd(f)),
           Some(-f.horizon), None)
  }

  function MipMutex(f: Formulation, p: MutexPair): MipRow
    requires PairInRange(f, p)
  {
    MipRow(SetCoefs(SetCoefs(map[], f.decisions[p.first].options, One()), f.decisions[p.second].options, One()),
           None, Some(1))
  }

  ghost predicate IsMipRow(f: Formulation, row: MipRow) {
    || (exists d :: d in f.decisions && row == MipSelection(d))
    || (exists s :: s in f.slots && row == MipCapacity(f, s))
    || (exists d :: d in f.dependencies && InRange(f, d) && (row == MipPresence(f, d) || row == MipTiming(f, d)))
    || (exists p :: p in f.mutexes && PairInRange(f, p) && row == MipMutex(f, p))
  }

  ghost predicate MipRowsComplete(f: Formulation, rows: seq<MipRow>) {
    && (forall d :: d in f.decisions ==> MipSelection(d) in rows)
    && (forall s :: s in f.slots ==> MipCapacity(f, s) in rows)
    && (forall d :: d in f.dependencies && InRange(f, d) ==> MipPresence(f, d) in rows && MipTiming(f, d) in rows)
    && (forall p :: p in f.mutexes && PairInRange(f, p) ==> MipMutex(f, p) in rows)
  }

  lemma SetCoefsOneMore(coefs: map<nat, int>, list: seq<nat>, c: nat -> int, k: nat)
    requires k < |list|
    ensures SetCoefs(coefs, list[..k + 1], c) == SetCoefs(coefs, list[..k], c)[list[k] := c(list[k])]
  {
    assert list[..k + 1][..k] == list[..k];
  }

  method SetCoefficients(coefs: map<nat, int>, list: seq<nat>, c: nat -> int) returns (r: map<nat, int>)
    ensures r == SetCoefs(coefs, list, c)
  {
    r := coefs;
    var k := 0;
    while k < |list|
      invariant 0 <= k <= |list|
      invariant r == SetCoefs(coefs, list[..k], c)
    {
      SetCoefsOneMore(coefs, list, c, k);
      r := r[list[k] := c(list[k])];
      k := k + 1;
    }
    assert list[..k] == list;
  }

  method BuildMipRows(f: Formulation) returns (rows: seq<MipRow>)
    requires IndexesInRange(f)
    ensures forall r :: r in rows ==> IsMipRow(f, r)
    ensures MipRowsComplete(f, rows)
  {
    rows := MipSelectionRows(f);
    var more := MipCapacityRows(f);
    rows := rows + more;
    more := MipDependencyRows(f);
    rows := rows + more;
    more := MipMutexRows(f);
    rows := rows + more;
  }

  method MipSelectionRows(f: Formulation) returns (rows: seq<MipRow>)
    ensures forall r :: r in rows ==> IsMipRow(f, r)
    ensures forall d :: d in f.decisions ==> MipSelection(d) in rows
  {
    rows := [];
    var i := 0;
    while i < |f.decisions|
      invariant 0 <= i <= |f.decisions|
      invariant forall r :: r in rows ==> IsMipRow(f, r)
      invariant forall k :: 0 <= k < i ==> MipSelection(f.decisions[k]) in rows
    {
      var d := f.decisions[i];
      var coefs := SetCoefficients(map[], d.options, One());
      assert IsMipRow(f, MipSelection(d));
      rows := rows + [if d.required then MipRow(coefs, Some(1), Some(1)) else MipRow(coefs, Some(0), Some(1))];
      i := i + 1;
    }
  }

  method MipCapacityRows(f: Formulation) returns (rows: seq<MipRow>)
    ensures forall r :: r in rows ==> IsMipRow(f, r)
    ensures forall s :: s in f.slots ==> MipCapacity(f, s) in rows
  {
    rows := [];
    var i := 0;
    while i < |f.slots|
      invariant 0 <= i <= |f.slots|
      invariant forall r :: r in rows ==> IsMipRow(f, r)
      invariant forall k :: 0 <= k < i ==> MipCapacity(f, f.slots[k]) in rows
    {
      var coefs := SetCoefficients(map[], f.slots[i].options, DemandIn(f));
      assert IsMipRow(f, MipCapacity(f, f.slots[i]));
      rows := rows + [MipRow(coefs, None, Some(f.slots[i].capacity))];
      i := i + 1;
    }
  }

  method MipDependencyPair(f: Formulation, d: Dependency) returns (presence: MipRow, timing: MipRow)
    requires InRange(f, d)
    ensures presence == MipPresence(f, d) && timing == MipTiming(f, d)
  {
    var coefs := SetCoefficients(map[], f.decisions[d.succ].options, One());
    coefs := SetCoefficients(coefs, f.decisions[d.pred].options, MinusOne());
    presence := MipRow(coefs, None, Some(0));
    coefs := SetCoefficients(map[], f.decisions[d.succ].options, StartMinusM(f));
    coefs := SetCoefficients(coefs, f.decisions[d.pred].options, MinusEnd(f));
    timing := MipRow(coefs, Some(-f.horizon), None);
  }

  ghost predicate HasPair(f: Formulation, d: Dependency, rows: seq<MipRow>) {
    InRange(f, d) && MipPresence(f, d) in rows && MipTiming(f, d) in rows
  }

  lemma HasPairGrows(f: Formulation, d: Dependency, rows: seq<MipRow>, more: seq<MipRow>)
    requires HasPair(f, d, rows) || HasPair(f, d, more)
    ensures HasPair(f, d, rows + more)
  {
  }

  ghost predicate HasPairs(f: Formulation, n: nat, rows: seq<MipRow>)
    requires n <= |f.dependencies|
  {
    forall k :: 0 <= k < n ==> HasPair(f, f.dependencies[k], rows)
  }

  lemma HasPairsGrows(f: Formulation, n: nat, rows: seq<MipRow>, more: seq<MipRow>)
    requires n < |f.dependencies| && HasPairs(f, n, rows) && HasPair(f, f.dependencies[n], more)
    ensures HasPairs(f, n + 1, rows + more)
  {
    forall k | 0 <= k < n + 1 ensures HasPair(f, f.dependencies[k], rows + more) {
      HasPairGrows(f, f.dependencies[k], rows, more);
    }
  }

  ghost predicate OnlyMipRows(f: Formulation, rows: seq<MipRow>) {
    forall r :: r in rows ==> IsMipRow(f, r)
  }

  lemma PairIsMipRows(f: Formulation, d: Dependency, presence: MipRow, timing: MipRow)
    requires d in f.dependencies && InRange(f, d) && presence == MipPresence(f, d) && timing == MipTiming(f, d)
    ensures OnlyMipRows(f, [presence, timing]) && HasPair(f, d, [presence, timing])
  {
    var pair := [presence, timing];
    assert pair[0] == presence && pair[1] == timing;
  }

  lemma OnlyMipRowsGrows(f: Formulation, rows: seq<MipRow>, more: seq<MipRow>)
    requires OnlyMipRows(f, rows) && OnlyMipRows(f, more)
    ensures OnlyMipRows(f, rows + more)
  {
  }

  method MipDependencyRows(f: Formulation) returns (rows: seq<MipRow>)
    requires IndexesInRange(f)
    ensures OnlyMipRows(f, rows)
    ensures forall d :: d in f.dependencies ==> HasPair(f, d, rows)
  {
    rows := [];
    var i := 0;
    while i < |f.dependencies|
      invariant 0 <= i <= |f.dependencies|
      invariant OnlyMipRows(f, rows)
      invariant HasPairs(f, i, rows)
    {
      var d := f.dependencies[i];
      assert d in f.dependencies;
      var presence, timing := MipDependencyPair(f, d);
      PairIsMipRows(f, d, presence, timing);
      OnlyMipRowsGrows(f, rows, [presence, timing]);
      HasPairsGrows(f, i, rows, [presence, timing]);
      rows := rows + [presence, timing];
      i := i + 1;
    }
  }

  method MipMutexPair(f: Formulation, p: MutexPair) returns (row: MipRow)
    requires PairInRange(f, p)
    ensures row == MipMutex(f, p)
  {
    var coefs := SetCoefficients(map[], f.decisions[p.first].options, One());
    coefs := SetCoefficients(coefs, f.decisions[p.second].options, One());
    return MipRow(coefs, None, Some(1));
  }

  lemma MutexIsMipRow(f: Formulation, p: MutexPair)
    requires p in f.mutexes && PairInRange(f, p)
    ensures OnlyMipRows(f, [MipMutex(f, p)])
  {
  }

  ghost predicate HasMutex(f: Formulation, p: MutexPair, rows: seq<MipRow>) {
    PairInRange(f, p) && MipMutex(f, p) in rows
  }

  lemma HasMutexGrows(f: Formulation, p: MutexPair, rows: seq<MipRow>, row: MipRow)
    requires HasMutex(f, p, rows) || (PairInRange(f, p) && row == MipMutex(f, p))
    ensures HasMutex(f, p, rows + [row])
  {
  }

  method MipMutexRows(f: Formulation) returns (rows: seq<MipRow>)
    requires IndexesInRange(f)
    ensures OnlyMipRows(f, rows)
    ensures forall p :: p in f.mutexes ==> HasMutex(f, p, rows)
  {
    rows := [];
    var i := 0;
    while i < |f.mutexes|
      invariant 0 <= i <= |f.mutexes|
      invariant OnlyMipRows(f, rows)
      invariant forall k :: 0 <= k < i ==> HasMutex(f, f.mutexes[k], rows)
    {
      var p := f.mutexes[i];
      assert p in f.mutexes;
      var row := MipMutexPair(f, p);
      MutexIsMipRow(f, p);
      OnlyMipRowsGrows(f, rows, [row]);
      forall k | 0 <= k <= i ensures HasMutex(f, f.mutexes[k], rows + [row]) {
        HasMutexGrows(f, f.mutexes[k], rows, row);
      }
      rows := rows + [row];
      i := i + 1;
    }
  }
}
