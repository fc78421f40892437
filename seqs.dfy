/** Sequence helpers shared by the formatter, the grouper and the renderer:
    Python's optional values, reversal, joining strings with a separator,
    list filtering, and the sorted distinct elements of a list under a
    strict total order. */
module Seqs {

  datatype Option<T> = None | Some(value: T)

  /** Python's `str(x)` of an optional string: `None` prints as "None". */
  function Show(o: Option<string>): string {
    match o
    case None => "None"
    case Some(s) => s
  }

  /** The elements of `s` in reverse order. */
  function Reverse<T>(s: seq<T>): (r: seq<T>)
    ensures |r| == |s|
  {
    if s == [] then [] else [s[|s| - 1]] + Reverse(s[..|s| - 1])
  }

  lemma {:induction false} ReverseAt<T>(s: seq<T>, i: nat)
    requires i < |s|
    ensures Reverse(s)[i] == s[|s| - 1 - i]
  {
    if i > 0 {
      ReverseAt(s[..|s| - 1], i - 1);
    }
  }

  /** The strings of `xs` with `sep` between neighbours. */
  function Join(xs: seq<string>, sep: string): string {
    if xs == [] then ""
    else if |xs| == 1 then xs[0]
    else Join(xs[..|xs| - 1], sep) + sep + xs[|xs| - 1]
  }

  /** The joined string ends with the last item, behind a separator when
      there is more than one item. */
  lemma JoinEndsWithLast(xs: seq<string>, sep: string)
    requires |xs| > 0
    ensures var j := Join(xs, sep); var x := xs[|xs| - 1];
      |j| >= |x| && j[|j| - |x|..] == x &&
      (|xs| > 1 ==> |j| >= |sep| + |x| && j[|j| - |x| - |sep|..] == sep + x)
  {
  }

  /** Every element followed by `sep`. */
  function Terminated(xs: seq<string>, sep: string): string {
    if xs == [] then ""
    else Terminated(xs[..|xs| - 1], sep) + xs[|xs| - 1] + sep
  }

  /** A non-empty join with one more separator at the end is the same as
      each element followed by the separator. */
  lemma {:induction false} JoinThenSep(xs: seq<string>, sep: string)
    requires xs != []
    ensures Join(xs, sep) + sep == Terminated(xs, sep)
  {
    if |xs| > 1 {
      JoinThenSep(xs[..|xs| - 1], sep);
    }
  }

  /** The elements of `s` that satisfy `p`, in order. */
  function Filter<T>(s: seq<T>, p: T -> bool): (r: seq<T>)
    ensures |r| <= |s|
  {
    if s == [] then []
    else Filter(s[..|s| - 1], p) + (if p(s[|s| - 1]) then [s[|s| - 1]] else [])
  }

  /** The filter keeps exactly the elements satisfying the predicate. */
  lemma {:induction false} FilterMembers<T>(s: seq<T>, p: T -> bool)
    ensures forall x :: x in Filter(s, p) <==> x in s && p(x)
  {
    if s != [] {
      FilterMembers(s[..|s| - 1], p);
      assert s == s[..|s| - 1] + [s[|s| - 1]];
    }
  }

  /** Filtering distributes over concatenation. */
  lemma {:induction false} FilterAppend<T>(a: seq<T>, b: seq<T>, p: T -> bool)
    ensures Filter(a + b, p) == Filter(a, p) + Filter(b, p)
  {
    if b == [] {
      assert a + b == a;
    } else {
      FilterAppend(a, b[..|b| - 1], p);
      assert (a + b)[..|a + b| - 1] == a + b[..|b| - 1];
    }
  }

  /** Filtering twice by the same predicate is filtering once. */
  lemma {:induction false} FilterIdempotent<T>(s: seq<T>, p: T -> bool)
    ensures Filter(Filter(s, p), p) == Filter(s, p)
  {
    if s != [] {
      var init, x := s[..|s| - 1], s[|s| - 1];
      FilterIdempotent(init, p);
      FilterAppend(Filter(init, p), if p(x) then [x] else [], p);
      assert Filter([x], p) == (if p(x) then [x] else []) by {
        assert [x][..0] == [];
      }
    }
  }

  /** Every element of the filtered sequence stands at some position of `s`. */
  lemma {:induction false} FilterSource<T>(s: seq<T>, p: T -> bool, i: nat) returns (k: nat)
    requires i < |Filter(s, p)|
    ensures k < |s| && s[k] == Filter(s, p)[i]
  {
    var init := s[..|s| - 1];
    if i < |Filter(init, p)| {
      k := FilterSource(init, p, i);
    } else {
      k := |s| - 1;
    }
  }

  /** Filtering keeps the relative order of what it keeps: a relation that
      holds between every earlier and later element of `s` still holds in
      the filtered sequence. */
  lemma {:induction false} FilterOrdered<T>(s: seq<T>, p: T -> bool, rel: (T, T) -> bool)
    requires forall i, j :: 0 <= i < j < |s| ==> rel(s[i], s[j])
    ensures forall i, j :: 0 <= i < j < |Filter(s, p)| ==> rel(Filter(s, p)[i], Filter(s, p)[j])
  {
    if s != [] {
      var init := s[..|s| - 1];
      FilterOrdered(init, p, rel);
      var r, f := Filter(s, p), Filter(init, p);
      forall i, j | 0 <= i < j < |r| ensures rel(r[i], r[j]) {
        if j == |f| {
          var k := FilterSource(init, p, i);
          assert s[k] == r[i] && s[|s| - 1] == r[j];
        } else {
          assert r[i] == f[i] && r[j] == f[j];
        }
      }
    }
  }

  // ---- strict total orders and sorted, duplicate-free sequences ----

  ghost predicate StrictTotalOrder<T(!new)>(lt: (T, T) -> bool) {
    (forall a :: !lt(a, a)) &&
    (forall a, b, c :: lt(a, b) && lt(b, c) ==> lt(a, c)) &&
    (forall a, b :: a != b ==> lt(a, b) || lt(b, a))
  }

  ghost predicate StrictlySorted<T>(s: seq<T>, lt: (T, T) -> bool) {
    forall i, j :: 0 <= i < j < |s| ==> lt(s[i], s[j])
  }

  /** Inserts `x` into a sorted duplicate-free sequence, unless present. */
  function Insert<T(==)>(x: T, s: seq<T>, lt: (T, T) -> bool): seq<T> {
    if s == [] then [x]
    else if x == s[0] then s
    else if lt(x, s[0]) then [x] + s
    else [s[0]] + Insert(x, s[1..], lt)
  }

  /** The distinct elements of `xs` in ascending order. */
  function SortedSet<T(==)>(xs: seq<T>, lt: (T, T) -> bool): seq<T> {
    if xs == [] then [] else Insert(xs[0], SortedSet(xs[1..], lt), lt)
  }

  lemma {:induction false} InsertSorted<T(!new)>(x: T, s: seq<T>, lt: (T, T) -> bool)
    requires StrictTotalOrder(lt) && StrictlySorted(s, lt)
    ensures StrictlySorted(Insert(x, s, lt), lt)
    ensures forall y :: y in Insert(x, s, lt) <==> y == x || y in s
  {
    if s != [] && x != s[0] && !lt(x, s[0]) {
      InsertSorted(x, s[1..], lt);
      var r := Insert(x, s, lt);
      assert r == [s[0]] + Insert(x, s[1..], lt);
      forall j | 0 < j < |r| ensures lt(r[0], r[j]) {
        assert r[j] in Insert(x, s[1..], lt);
        if r[j] != x {
          var k :| 0 <= k < |s[1..]| && s[1..][k] == r[j];
          assert s[k + 1] == r[j];
        }
      }
    }
  }

  lemma {:induction false} SortedSetCorrect<T(!new)>(xs: seq<T>, lt: (T, T) -> bool)
    requires StrictTotalOrder(lt)
    ensures StrictlySorted(SortedSet(xs, lt), lt)
    ensures forall y :: y in SortedSet(xs, lt) <==> y in xs
  {
    if xs != [] {
      SortedSetCorrect(xs[1..], lt);
      InsertSorted(xs[0], SortedSet(xs[1..], lt), lt);
      assert xs == [xs[0]] + xs[1..];
    }
  }

  /** Under a strict total order, a sorted duplicate-free sequence is
      determined by its set of elements. */
  lemma {:induction false} SortedUnique<T(!new)>(a: seq<T>, b: seq<T>, lt: (T, T) -> bool)
    requires StrictTotalOrder(lt)
    requires StrictlySorted(a, lt) && StrictlySorted(b, lt)
    requires forall y :: y in a <==> y in b
    ensures a == b
  {
    if a != [] && b != [] {
      assert a[0] in b && b[0] in a;
      assert a[0] == b[0];
      forall y ensures y in a[1..] <==> y in b[1..] {
        if y in a[1..] {
          var k :| 1 <= k < |a| && a[k] == y;
          assert lt(a[0], a[k]);
          assert y in b;
          var m :| 0 <= m < |b| && b[m] == y;
          assert m > 0 && b[1..][m - 1] == y;
        }
        if y in b[1..] {
          var k :| 1 <= k < |b| && b[k] == y;
          assert lt(b[0], b[k]);
          assert y in a;
          var m :| 0 <= m < |a| && a[m] == y;
          assert m > 0 && a[1..][m - 1] == y;
        }
      }
      SortedUnique(a[1..], b[1..], lt);
      assert a == [a[0]] + a[1..] && b == [b[0]] + b[1..];
    } else if a != [] {
      HeadIn(a);
      assert false;
    } else if b != [] {
      HeadIn(b);
      assert false;
    }
  }

  lemma HeadIn<T>(s: seq<T>)
    requires s != []
    ensures s[0] in s
  {
  }

  /** Python's `<` on `str`: code-point-wise lexicographic order, where a
      proper prefix sorts first. */
  function StrLess(a: string, b: string): bool {
    if b == [] then false
    else if a == [] then true
    else a[0] < b[0] || (a[0] == b[0] && StrLess(a[1..], b[1..]))
  }

  lemma {:induction false} StrLessIrreflexive(a: string)
    ensures !StrLess(a, a)
  {
    if a != [] {
      StrLessIrreflexive(a[1..]);
    }
  }

  lemma {:induction false} StrLessTransitive(a: string, b: string, c: string)
    requires StrLess(a, b) && StrLess(b, c)
    ensures StrLess(a, c)
  {
    if a != [] && a[0] == b[0] && b[0] == c[0] {
      StrLessTransitive(a[1..], b[1..], c[1..]);
    }
  }

  lemma {:induction false} StrLessTotal(a: string, b: string)
    requires a != b
    ensures StrLess(a, b) || StrLess(b, a)
  {
    if a != [] && b != [] && a[0] == b[0] {
      StrLessTotal(a[1..], b[1..]);
      assert a == [a[0]] + a[1..] && b == [b[0]] + b[1..];
    }
  }

  lemma StrLessIsStrictTotalOrder()
    ensures StrictTotalOrder(StrLess)
  {
    forall a { StrLessIrreflexive(a); }
    forall a, b, c | StrLess(a, b) && StrLess(b, c) ensures StrLess(a, c) {
      StrLessTransitive(a, b, c);
    }
    forall a, b | a != b ensures StrLess(a, b) || StrLess(b, a) {
      StrLessTotal(a, b);
    }
  }

  /** Python's `<` on `int`. */
  function IntLess(a: int, b: int): bool {
    a < b
  }

  lemma IntLessIsStrictTotalOrder()
    ensures StrictTotalOrder(IntLess)
  {
  }
}
