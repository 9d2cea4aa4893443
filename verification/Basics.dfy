/** Shared vocabulary: optional values, identifiers, and the order that `std::tuple` and
    `std::string` comparisons give to sort keys. */
module Basics {
  datatype Option<+T> = None | Some(value: T)

  type TaskId = string
  type ActorId = string

  function Max(a: int, b: int): int {
    if a >= b then a else b
  }

  ghost predicate Distinct<T>(s: seq<T>) {
    forall i, j :: 0 <= i < j < |s| ==> s[i] != s[j]
  }

  lemma DistinctAppend<T>(s: seq<T>, x: T)
    requires Distinct(s) && x !in s
    ensures Distinct(s + [x])
  {
  }

  /** Lexicographic comparison of identifiers. */
  predicate TextLess(a: string, b: string)
    decreases |a|
  {
    b != [] && (a == [] || a[0] < b[0] || (a[0] == b[0] && TextLess(a[1..], b[1..])))
  }

  lemma {:induction false} TextTotal(a: string, b: string)
    ensures !TextLess(a, a)
    ensures TextLess(a, b) ==> !TextLess(b, a)
    ensures a != b ==> TextLess(a, b) || TextLess(b, a)
    decreases |a|
  {
    if a != [] {
      TextTotal(a[1..], a[1..]);
      if b != [] && a[0] == b[0] {
        TextTotal(a[1..], b[1..]);
        assert a == [a[0]] + a[1..] && b == [b[0]] + b[1..];
      }
    }
  }

  lemma {:induction false} TextTransitive(a: string, b: string, c: string)
    requires TextLess(a, b) && TextLess(b, c)
    ensures TextLess(a, c)
    decreases |a|
  {
    if a != [] && a[0] == b[0] == c[0] {
      TextTransitive(a[1..], b[1..], c[1..]);
    }
  }

  /** `a` stops, or has the smaller character, where the two first differ. */
  ghost predicate DiffersAt(a: string, b: string, k: nat) {
    k < |b| && k <= |a| && a[..k] == b[..k] && (k == |a| || a[k] < b[k])
  }

  lemma NoDifference(a: string, b: string, k: nat)
    requires b == [] || (a != [] && b[0] < a[0])
    ensures !DiffersAt(a, b, k)
  {
    if 0 < k <= |a| && k < |b| {
      assert a[..k][0] == a[0] && b[..k][0] == b[0];
    }
  }

  lemma {:induction false} TextLessMeaning(a: string, b: string)
    ensures TextLess(a, b) <==> exists k: nat :: DiffersAt(a, b, k)
    decreases |a|
  {
    if b != [] && (a == [] || a[0] < b[0]) {
      assert DiffersAt(a, b, 0);
    } else if b != [] && a[0] == b[0] {
      TextLessMeaning(a[1..], b[1..]);
      if k: nat :| DiffersAt(a[1..], b[1..], k) {
        assert a[..k + 1] == [a[0]] + a[1..][..k] && b[..k + 1] == [b[0]] + b[1..][..k];
        assert DiffersAt(a, b, k + 1);
      }
      if k: nat :| DiffersAt(a, b, k) {
        assert k > 0 && a[1..][..k - 1] == a[..k][1..] && b[1..][..k - 1] == b[..k][1..];
        assert DiffersAt(a[1..], b[1..], k - 1);
      }
    } else {
      forall k: nat ensures !DiffersAt(a, b, k) {
        NoDifference(a, b, k);
      }
    }
  }

  /** One component of a sort key. */
  datatype Part = Num(n: int) | Text(s: string)
  type Key = seq<Part>

  predicate PartLess(a: Part, b: Part) {
    match (a, b)
    case (Num(x), Num(y)) => x < y
    case (Text(x), Text(y)) => TextLess(x, y)
    case (Num(_), Text(_)) => true
    case (Text(_), Num(_)) => false
  }

  lemma PartTotal(a: Part, b: Part)
    ensures !PartLess(a, a)
    ensures PartLess(a, b) ==> !PartLess(b, a)
    ensures a != b ==> PartLess(a, b) || PartLess(b, a)
  {
    if a.Text? { TextTotal(a.s, a.s); }
    if a.Text? && b.Text? { TextTotal(a.s, b.s); }
  }

  lemma PartTransitive(a: Part, b: Part, c: Part)
    requires PartLess(a, b) && PartLess(b, c)
    ensures PartLess(a, c)
  {
    if a.Text? && b.Text? && c.Text? { TextTransitive(a.s, b.s, c.s); }
  }

  /** Lexicographic comparison of keys, component by component. */
  predicate KeyLess(a: Key, b: Key)
    decreases |a|
  {
    b != [] && (a == [] || PartLess(a[0], b[0]) || (a[0] == b[0] && KeyLess(a[1..], b[1..])))
  }

  lemma {:induction false} KeyTotal(a: Key, b: Key)
    ensures !KeyLess(a, a)
    ensures KeyLess(a, b) ==> !KeyLess(b, a)
    ensures a != b ==> KeyLess(a, b) || KeyLess(b, a)
    decreases |a|
  {
    if a != [] {
      KeyTotal(a[1..], a[1..]);
      PartTotal(a[0], a[0]);
      if b != [] {
        PartTotal(a[0], b[0]);
        if a[0] == b[0] {
          KeyTotal(a[1..], b[1..]);
          assert a == [a[0]] + a[1..] && b == [b[0]] + b[1..];
        }
      }
    }
  }

  lemma {:induction false} KeyTransitive(a: Key, b: Key, c: Key)
    requires KeyLess(a, b) && KeyLess(b, c)
    ensures KeyLess(a, c)
    decreases |a|
  {
    if a != [] {
      PartTotal(a[0], b[0]);
      PartTotal(b[0], c[0]);
      if a[0] == b[0] && b[0] == c[0] {
        KeyTransitive(a[1..], b[1..], c[1..]);
      } else if PartLess(a[0], b[0]) && PartLess(b[0], c[0]) {
        PartTransitive(a[0], b[0], c[0]);
      }
    }
  }

  /** "Not after": the order in which `std::ranges::sort` leaves two elements. */
  predicate KeyLeq(a: Key, b: Key) {
    !KeyLess(b, a)
  }

  /** Where two keys in order first differ, the earlier one has the smaller component. */
  lemma {:induction false} KeyLeqMeaning(a: Key, b: Key)
    requires KeyLeq(a, b) && |a| == |b|
    ensures forall k :: 0 <= k < |a| && a[..k] == b[..k] ==> a[k] == b[k] || PartLess(a[k], b[k])
    decreases |a|
  {
    if a != [] {
      PartTotal(a[0], b[0]);
      if a[0] == b[0] {
        KeyLeqMeaning(a[1..], b[1..]);
      }
      forall k | 0 <= k < |a| && a[..k] == b[..k] ensures a[k] == b[k] || PartLess(a[k], b[k]) {
        if k > 0 {
          assert a[..k][0] == b[..k][0] && a[1..][..k - 1] == a[..k][1..] && b[1..][..k - 1] == b[..k][1..];
          assert a[1..][k - 1] == a[k] && b[1..][k - 1] == b[k];
        }
      }
    }
  }

  lemma KeyLeqTransitive(a: Key, b: Key, c: Key)
    requires KeyLeq(a, b) && KeyLeq(b, c)
    ensures KeyLeq(a, c)
  {
    KeyTotal(a, b);
    KeyTotal(b, c);
    KeyTotal(a, c);
    if KeyLess(c, a) {
      if a == b || b == c {
      } else {
        KeyTransitive(a, b, c);
        assert false;
      }
    }
  }

  ghost predicate SortedBy<T>(key: T -> Key, s: seq<T>) {
    forall i, j :: 0 <= i < j < |s| ==> KeyLeq(key(s[i]), key(s[j]))
  }

  function Insert<T>(key: T -> Key, x: T, s: seq<T>): (r: seq<T>)
    ensures multiset(r) == multiset{x} + multiset(s)
    ensures |r| == |s| + 1
  {
    if s == [] || KeyLess(key(x), key(s[0])) then
      [x] + s
    else
      assert s == [s[0]] + s[1..];
      [s[0]] + Insert(key, x, s[1..])
  }

  /** A sorted rearrangement of `s`. */
  function Sort<T>(key: T -> Key, s: seq<T>): (r: seq<T>)
    ensures multiset(r) == multiset(s)
    ensures |r| == |s|
  {
    if s == [] then [] else
      assert s == [s[0]] + s[1..];
      Insert(key, s[0], Sort(key, s[1..]))
  }

  lemma {:induction false} InsertSorted<T>(key: T -> Key, x: T, s: seq<T>)
    requires SortedBy(key, s)
    ensures SortedBy(key, Insert(key, x, s))
  {
    if s == [] {
    } else if KeyLess(key(x), key(s[0])) {
      var r := [x] + s;
      KeyTotal(key(x), key(s[0]));
      forall j | 0 < j < |r| ensures KeyLeq(key(x), key(r[j])) {
        if j > 1 { KeyLeqTransitive(key(x), key(s[0]), key(s[j - 1])); }
      }
    } else {
      InsertSorted(key, x, s[1..]);
      var t := Insert(key, x, s[1..]);
      var r := [s[0]] + t;
      forall j | 0 < j < |r| ensures KeyLeq(key(r[0]), key(r[j])) {
        MemberOfMultiset(t, t[j - 1]);
        assert t[j - 1] in multiset{x} + multiset(s[1..]);
        if t[j - 1] != x {
          assert t[j - 1] in s[1..];
        }
      }
    }
  }

  lemma MemberOfMultiset<T>(s: seq<T>, x: T)
    ensures x in s <==> x in multiset(s)
  {
  }

  lemma {:induction false} SortSorted<T>(key: T -> Key, s: seq<T>)
    ensures SortedBy(key, Sort(key, s))
  {
    if s != [] {
      SortSorted(key, s[1..]);
      InsertSorted(key, s[0], Sort(key, s[1..]));
    }
  }

  lemma SortedHead<T>(key: T -> Key, a: seq<T>, b: seq<T>)
    requires SortedBy(key, a) && SortedBy(key, b)
    requires a != [] && b != [] && a[0] in b && b[0] in a
    ensures key(a[0]) == key(b[0])
  {
    var i :| 0 <= i < |a| && a[i] == b[0];
    var j :| 0 <= j < |b| && b[j] == a[0];
    KeyTotal(key(a[0]), key(b[0]));
  }

  lemma SameLength<T>(a: seq<T>, b: seq<T>)
    requires multiset(a) == multiset(b)
    ensures |a| == |b|
  {
    assert |multiset(a)| == |multiset(b)|;
  }

  lemma SameHead<T>(key: T -> Key, a: seq<T>, b: seq<T>)
    requires SortedBy(key, a) && SortedBy(key, b) && multiset(a) == multiset(b) && a != [] && b != []
    requires forall x, y :: x in a && y in a && key(x) == key(y) ==> x == y
    ensures a[0] == b[0]
  {
    assert a[0] in multiset(a) && b[0] in multiset(b);
    SortedHead(key, a, b);
  }

  lemma SameTail<T>(a: seq<T>, b: seq<T>)
    requires a != [] && b != [] && a[0] == b[0] && multiset(a) == multiset(b)
    ensures multiset(a[1..]) == multiset(b[1..])
  {
    assert a == [a[0]] + a[1..] && b == [b[0]] + b[1..];
    assert multiset(a[1..]) == multiset(a) - multiset{a[0]};
    assert multiset(b[1..]) == multiset(b) - multiset{b[0]};
  }

  /** A list whose elements have pairwise different keys has one sorted rearrangement only, so
      the order an unstable library sort returns is determined. */
  lemma {:induction false} SortedUnique<T>(key: T -> Key, a: seq<T>, b: seq<T>)
    requires SortedBy(key, a) && SortedBy(key, b)
    requires multiset(a) == multiset(b)
    requires forall x, y :: x in a && y in a && key(x) == key(y) ==> x == y
    ensures a == b
  {
    SameLength(a, b);
    if a != [] {
      SameHead(key, a, b);
      SameTail(a, b);
      SortedUnique(key, a[1..], b[1..]);
    }
  }

  /** Sum of a value over a list. */
  function SumBy<T>(s: seq<T>, v: T -> int): int {
    if s == [] then 0 else SumBy(s[..|s| - 1], v) + v(s[|s| - 1])
  }

  lemma SumByAppend<T>(s: seq<T>, x: T, v: T -> int)
    ensures SumBy(s + [x], v) == SumBy(s, v) + v(x)
  {
    assert (s + [x])[..|s|] == s;
  }

  lemma {:induction false} SumByWithout<T>(s: seq<T>, k: nat, v: T -> int)
    requires k < |s|
    ensures SumBy(s, v) == SumBy(s[..k] + s[k + 1..], v) + v(s[k])
    decreases |s|
  {
    var n := |s| - 1;
    if k == n {
      assert s[..k] + s[k + 1..] == s[..n];
    } else {
      SumByWithout(s[..n], k, v);
      var shorter := s[..n][..k] + s[..n][k + 1..];
      assert s[..k] + s[k + 1..] == shorter + [s[n]];
      SumByAppend(shorter, s[n], v);
    }
  }

  lemma RemoveFromMultiset<T>(s: seq<T>, k: nat)
    requires k < |s|
    ensures multiset(s[..k] + s[k + 1..]) == multiset(s) - multiset{s[k]}
  {
    assert s == s[..k] + [s[k]] + s[k + 1..];
    assert multiset(s) == multiset(s[..k]) + multiset{s[k]} + multiset(s[k + 1..]);
    assert multiset(s[..k] + s[k + 1..]) == multiset(s[..k]) + multiset(s[k + 1..]);
  }

  /** A sum does not depend on the order of the list. */
  lemma {:induction false} SumByPermutation<T>(a: seq<T>, b: seq<T>, v: T -> int)
    requires multiset(a) == multiset(b)
    ensures SumBy(a, v) == SumBy(b, v)
    decreases |a|
  {
    if a == [] {
      assert |multiset(b)| == 0;
    } else {
      var n := |a| - 1;
      assert a[n] in multiset(b);
      var k :| 0 <= k < |b| && b[k] == a[n];
      RemoveFromMultiset(a, n);
      assert a[..n] + a[n + 1..] == a[..n];
      RemoveFromMultiset(b, k);
      SumByPermutation(a[..n], b[..k] + b[k + 1..], v);
      SumByWithout(b, k, v);
    }
  }

  /** No two entries have the same key. */
  ghost predicate DistinctBy<T, K>(key: T -> K, s: seq<T>) {
    forall i, j :: 0 <= i < j < |s| ==> key(s[i]) != key(s[j])
  }

  lemma {:induction false} DistinctByCount<T, K>(key: T -> K, s: seq<T>, x: T)
    requires DistinctBy(key, s)
    ensures multiset(s)[x] <= 1
    decreases |s|
  {
    if s != [] {
      var n := |s| - 1;
      DistinctByCount(key, s[..n], x);
      assert s == s[..n] + [s[n]];
      MemberOfMultiset(s[..n], x);
    }
  }

  lemma DistinctByPermutation<T, K>(key: T -> K, a: seq<T>, b: seq<T>)
    requires multiset(a) == multiset(b) && DistinctBy(key, a)
    ensures DistinctBy(key, b)
  {
    forall j, k | 0 <= j < k < |b| ensures key(b[j]) != key(b[k]) {
      if key(b[j]) == key(b[k]) {
        MemberOfMultiset(a, b[j]);
        MemberOfMultiset(a, b[k]);
        assert b[j] in multiset(b) && b[k] in multiset(b);
        assert b[j] == b[k];
        RemoveFromMultiset(b, k);
        var rest := b[..k] + b[k + 1..];
        assert rest[j] == b[j];
        MemberOfMultiset(rest, b[j]);
        DistinctByCount(key, a, b[j]);
      }
    }
  }
}
