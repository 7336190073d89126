/** Canonical paths as lists of components, compared without regard to case. */
module Paths {
  type Path = seq<string>

  function Key(fold: string -> string, p: Path): (k: seq<string>)
    ensures |k| == |p| && forall i :: 0 <= i < |p| ==> k[i] == fold(p[i])
  {
    seq(|p|, i requires 0 <= i < |p| => fold(p[i]))
  }

  /** Component-wise prefix test. */
  predicate StartsWithCi(fold: string -> string, p: Path, prefix: Path) {
    Key(fold, prefix) <= Key(fold, p)
  }
}
