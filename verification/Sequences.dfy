/** Facts about sequences that the solver does not find alone. */
module Sequences {

  lemma Concat<T>(a: seq<T>, b: seq<T>, c: seq<T>)
    ensures (a + b) + c == a + (b + c)
  {
  }

  /** Cutting a concatenation inside its first part. */
  lemma CutFirst<T>(a: seq<T>, b: seq<T>, k: nat)
    requires k <= |a|
    ensures (a + b)[..k] == a[..k] && (a + b)[k..] == a[k..] + b
  {
  }

  /** Dropping the first element, with the last one set apart. */
  lemma DropFirst<T>(q: seq<T>)
    requires |q| > 1
    ensures q[1..] == q[..|q| - 1][1..] + [q[|q| - 1]]
  {
    assert q[..|q| - 1][1..] == q[1..|q| - 1];
  }
}
