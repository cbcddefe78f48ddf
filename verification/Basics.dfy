/** Small definitions shared by every module. */
module Basics {
  datatype Option<+T> = None | Some(value: T)

  /** The least element of a nonempty set of naturals (SQL: ORDER BY id LIMIT 1). */
  ghost function Least(s: set<nat>): (m: nat)
    requires s != {}
    ensures m in s && forall x | x in s :: m <= x
    decreases |s|
  {
    var x :| x in s;
    if s == {x} then x
    else
      assert s == (s - {x}) + {x};
      var y := Least(s - {x});
      if x <= y then x else y
  }

  ghost predicate Distinct<T>(s: seq<T>) { forall i, j | 0 <= i < j < |s| :: s[i] != s[j] }

  lemma {:induction false} OnceEach<T>(a: seq<T>, x: T)
    requires Distinct(a) && x in a
    ensures multiset(a)[x] == 1
  {
    var n := |a| - 1;
    assert a == a[..n] + [a[n]];
    if x in a[..n] {
      OnceEach(a[..n], x);
    } else {
      assert multiset(a[..n])[x] == 0;
    }
  }

  /** Byte-wise lexical order, as sort.Strings uses it. */
  predicate LexLe(a: string, b: string) {
    a == "" || (b != "" && (a[0] < b[0] || (a[0] == b[0] && LexLe(a[1..], b[1..]))))
  }

  /** a comes no later than b: it starts b, or at the first place where they differ it has the smaller character. */
  lemma {:induction false} LexLeIff(a: string, b: string)
    ensures LexLe(a, b) <==> a <= b || exists k :: DiffersFirst(a, b, k) && a[k] < b[k]
  {
    if a != "" && b != "" && a[0] == b[0] {
      LexLeIff(a[1..], b[1..]);
      if k :| DiffersFirst(a[1..], b[1..], k) && a[1..][k] < b[1..][k] {
        assert a[..k + 1] == [a[0]] + a[1..][..k] && b[..k + 1] == [b[0]] + b[1..][..k];
        assert DiffersFirst(a, b, k + 1);
      }
      if k :| DiffersFirst(a, b, k) && a[k] < b[k] {
        assert a[1..][..k - 1] == a[..k][1..] && b[1..][..k - 1] == b[..k][1..];
        assert DiffersFirst(a[1..], b[1..], k - 1);
      }
      assert a == [a[0]] + a[1..] && b == [b[0]] + b[1..];
    } else if a != "" && b != "" {
      assert DiffersFirst(a, b, 0);
      if k :| DiffersFirst(a, b, k) && a[k] < b[k] { assert k > 0 ==> a[..k][0] == b[..k][0]; }
    }
  }

  ghost predicate DiffersFirst(a: string, b: string, k: int) {
    0 <= k < |a| && k < |b| && a[k] != b[k] && a[..k] == b[..k]
  }

  lemma LexTotal(a: string, b: string)
    ensures LexLe(a, b) || LexLe(b, a)
    ensures LexLe(a, b) && LexLe(b, a) ==> a == b
  {
    if a != "" && b != "" && a[0] == b[0] {
      LexTotal(a[1..], b[1..]);
      assert a == [a[0]] + a[1..] && b == [b[0]] + b[1..];
    }
  }

  lemma {:induction false} LexTransitive(a: string, b: string, c: string)
    requires LexLe(a, b) && LexLe(b, c)
    ensures LexLe(a, c)
  {
    if a != "" && a[0] == b[0] && b[0] == c[0] {
      LexTransitive(a[1..], b[1..], c[1..]);
    }
  }

  ghost predicate Sorted(s: seq<string>) {
    forall i, j | 0 <= i < j < |s| :: LexLe(s[i], s[j])
  }

  /** sort.Strings: the sorted rearrangement. */
  method SortStrings(input: seq<string>) returns (out: seq<string>)
    ensures Sorted(out) && multiset(out) == multiset(input)
  {
    out := [];
    for n := 0 to |input|
      invariant Sorted(out) && multiset(out) == multiset(input[..n])
    {
      assert input[..n + 1] == input[..n] + [input[n]];
      out := Insert(out, input[n]);
    }
    assert input[..|input|] == input;
  }

  method Insert(sorted: seq<string>, x: string) returns (out: seq<string>)
    requires Sorted(sorted)
    ensures Sorted(out) && multiset(out) == multiset(sorted) + multiset{x}
  {
    var i := 0;
    while i < |sorted| && LexLe(sorted[i], x)
      invariant i <= |sorted|
      invariant forall j | 0 <= j < i :: LexLe(sorted[j], x)
    {
      i := i + 1;
    }
    out := sorted[..i] + [x] + sorted[i..];
    assert sorted == sorted[..i] + sorted[i..];
    forall j | i <= j < |sorted| ensures LexLe(x, sorted[j]) {
      LexTotal(x, sorted[i]);
      if i < j { LexTransitive(x, sorted[i], sorted[j]); }
    }
  }

  /** strings.Join with a comma. */
  function Join(xs: seq<string>): string {
    if xs == [] then "" else if |xs| == 1 then xs[0] else xs[0] + "," + Join(xs[1..])
  }
}
