/** The order Python gives strings, by which rows and spaces are ranked. */
module TextOrder {
  /** Python's order on strings. */
  predicate Before(a: string, b: string) {
    if b == [] then false
    else if a == [] then true
    else a[0] < b[0] || (a[0] == b[0] && Before(a[1..], b[1..]))
  }

  lemma {:induction false} BeforeTotal(a: string, b: string)
    ensures Before(a, b) || a == b || Before(b, a)
    ensures !(Before(a, b) && Before(b, a)) && !Before(a, a)
  {
    if a != [] && b != [] {
      BeforeTotal(a[1..], b[1..]);
      if a[0] == b[0] && a[1..] == b[1..] { assert a == [a[0]] + a[1..] == b; }
      BeforeTotal(a[1..], a[1..]);
    } else if a != [] {
      BeforeTotal(a[1..], a[1..]);
    }
  }

  /** The two first differ at `n`: there the lesser has the lesser character, or ends. */
  predicate FirstDiffer(a: string, b: string, n: nat) {
    && n <= |a| && n < |b| && a[..n] == b[..n]
    && (n == |a| || a[n] < b[n])
  }

  /** It is the order of dictionaries: a text comes before those it begins, and else the first difference decides. */
  lemma {:induction false} BeforeIs(a: string, b: string)
    ensures Before(a, b) <==> exists n: nat :: FirstDiffer(a, b, n)
  {
    if b != [] {
      if a == [] || a[0] < b[0] {
        assert FirstDiffer(a, b, 0);
      } else {
        BeforeIs(a[1..], b[1..]);
        assert a == [a[0]] + a[1..] && b == [b[0]] + b[1..];
        if n: nat :| a[0] == b[0] && FirstDiffer(a[1..], b[1..], n) {
          assert a[..n + 1] == [a[0]] + a[1..][..n] && b[..n + 1] == [b[0]] + b[1..][..n];
          assert FirstDiffer(a, b, n + 1);
        }
        if n: nat :| FirstDiffer(a, b, n) {
          assert n > 0 && a[..n][0] == b[..n][0];
          assert a[1..][..n - 1] == a[..n][1..] && b[1..][..n - 1] == b[..n][1..];
          assert FirstDiffer(a[1..], b[1..], n - 1);
        }
      }
    }
  }

  lemma {:induction false} BeforeTransitive(a: string, b: string, c: string)
    requires Before(a, b) && Before(b, c)
    ensures Before(a, c)
  {
    if a != [] && b != [] && c != [] && a[0] == b[0] == c[0] {
      BeforeTransitive(a[1..], b[1..], c[1..]);
    }
  }
}
