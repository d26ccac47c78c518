/**
 * Sorted name lists, as the serialiser emits them: the order is the
 * lexicographic order of strings by character code, shorter prefix first.
 */
module NameOrder {

  /** Strict lexicographic order on strings by character code. */
  predicate Below(a: string, b: string)
    decreases |a|
  {
    if |a| == 0 then |b| > 0
    else if |b| == 0 then false
    else if a[0] != b[0] then a[0] < b[0]
    else Below(a[1..], b[1..])
  }

  lemma {:induction false} BelowTotal(a: string, b: string)
    requires a != b
    ensures Below(a, b) || Below(b, a)
    decreases |a|
  {
    if |a| > 0 && |b| > 0 && a[0] == b[0] {
      BelowTotal(a[1..], b[1..]);
    }
  }

  /** Every element is strictly below every later one. */
  predicate StrictlySorted(s: seq<string>) {
    forall i, j | 0 <= i < j < |s| :: Below(s[i], s[j])
  }

  /** Inserts `x` into a sorted list at its place. */
  function InsertSorted(s: seq<string>, x: string): seq<string> {
    if s == [] || Below(x, s[0]) then [x] + s
    else [s[0]] + InsertSorted(s[1..], x)
  }

  lemma {:induction false} InsertSortedCorrect(s: seq<string>, x: string)
    requires StrictlySorted(s) && x !in s
    ensures StrictlySorted(InsertSorted(s, x))
    ensures |InsertSorted(s, x)| == |s| + 1
    ensures forall y :: y in InsertSorted(s, x) <==> y in s || y == x
  {
    if s == [] || Below(x, s[0]) {
      var r := [x] + s;
      forall i, j | 0 <= i < j < |r| ensures Below(r[i], r[j]) {
        if i == 0 && j > 1 {
          BelowTransitive(x, s[0], s[j - 1]);
        }
      }
    } else {
      BelowTotal(x, s[0]);
      var t := InsertSorted(s[1..], x);
      InsertSortedCorrect(s[1..], x);
      var r := [s[0]] + t;
      forall i, j | 0 <= i < j < |r| ensures Below(r[i], r[j]) {
        if i == 0 {
          assert r[j] in t;
        }
      }
    }
  }

  lemma {:induction false} BelowTransitive(a: string, b: string, c: string)
    requires Below(a, b) && Below(b, c)
    ensures Below(a, c)
    decreases |a|
  {
    if |a| > 0 && a[0] == b[0] && b[0] == c[0] {
      BelowTransitive(a[1..], b[1..], c[1..]);
    }
  }

  /** Python's `list(sorted(names))` on a set of strings: the names in
      increasing order, each exactly once. */
  method SortNames(names: set<string>) returns (r: seq<string>)
    ensures StrictlySorted(r)
    ensures forall y :: y in r <==> y in names
    ensures |r| == |names|
  {
    r := [];
    var todo := names;
    while todo != {}
      invariant todo <= names
      invariant StrictlySorted(r)
      invariant forall y :: y in r <==> y in names && y !in todo
      invariant |r| + |todo| == |names|
      decreases todo
    {
      var x :| x in todo;
      InsertSortedCorrect(r, x);
      r := InsertSorted(r, x);
      todo := todo - {x};
    }
  }
}
