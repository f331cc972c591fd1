/**
 * The path handling repeated in `get`, `set`, `create` and `delete`: a
 * resource path that does not start with '/' gets one prepended.
 */
module Paths {

  predicate StartsWithSlash(p: string)
  {
    |p| > 0 && p[0] == '/'
  }

  /** `s` ends with `p`. */
  predicate EndsWith(s: string, p: string)
  {
    |p| <= |s| && s[|s| - |p|..] == p
  }

  /**
   * The normalised resource path. `substr("", 0, 1)` is not '/', so the empty
   * path becomes "/".
   */
  function Normalise(p: string): (r: string)
    ensures StartsWithSlash(r)
    ensures EndsWith(r, p)
    ensures |r| <= |p| + 1
  {
    if StartsWithSlash(p) then p else "/" + p
  }

  /** A path that already starts with '/' is left alone. */
  lemma NormaliseKeepsRooted(p: string)
    requires StartsWithSlash(p)
    ensures Normalise(p) == p
  {
  }

  /**
   * The normalised path is the shortest string that starts with '/' and ends
   * with the given path.
   */
  lemma NormaliseShortest(p: string, q: string)
    requires StartsWithSlash(q) && EndsWith(q, p)
    ensures |Normalise(p)| <= |q|
  {
  }

  /** Normalising twice is normalising once. */
  lemma NormaliseIdempotent(p: string)
    ensures Normalise(Normalise(p)) == Normalise(p)
  {
  }

  /** "nodes" and "/nodes" address the same resource; so do "" and "/". */
  lemma NormaliseAbsorbsSlash(p: string)
    requires !StartsWithSlash(p)
    ensures Normalise(p) == Normalise("/" + p)
  {
  }

  /**
   * Two paths are normalised to the same string exactly when they are equal or
   * differ only by the one leading '/' that normalisation adds.
   */
  lemma NormaliseSameIff(p: string, q: string)
    ensures Normalise(p) == Normalise(q) <==>
              p == q
              || (!StartsWithSlash(q) && p == "/" + q)
              || (!StartsWithSlash(p) && q == "/" + p)
  {
  }
}
