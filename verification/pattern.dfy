/**
 * The fragment of JavaScript regular expressions the validators use with
 * `matches`: a pattern anchored with `^…$` that is a sequence of character
 * classes, each repeated between a lower and an upper bound (`[+]?`,
 * `[1-9]`, `[\d]{0,15}`, `[…]+`). Matching backtracks over every repetition
 * count, as the regex engine does.
 */
module Pattern {
  import opened Text

  datatype Bound = Finite(n: nat) | Unbounded

  /** A character class `cls` repeated between `min` and `max` times. */
  datatype Piece = Piece(cls: char -> bool, min: nat, max: Bound)

  predicate WithinMax(k: nat, b: Bound) {
    match b
    case Finite(n) => k <= n
    case Unbounded => true
  }

  /** True iff the whole of `s` matches the pieces `ps` in order. */
  function Match(ps: seq<Piece>, s: string): bool
    decreases |ps|, 1, 0
  {
    if |ps| == 0 then |s| == 0
    else MatchFrom(ps, s, ps[0].min)
  }

  /** Tries every repetition count `k >= n` of the first piece, shortest first. */
  function MatchFrom(ps: seq<Piece>, s: string, n: nat): bool
    requires |ps| > 0
    decreases |ps|, 0, |s| - n
  {
    if n > |s| || !WithinMax(n, ps[0].max) then false
    else (All(s[..n], ps[0].cls) && Match(ps[1..], s[n..])) || (n < |s| && MatchFrom(ps, s, n + 1))
  }

  /** Some count `k` of the first piece, at least `n`, lets the rest of the pattern match the rest of `s`. */
  ghost predicate SplitsFrom(ps: seq<Piece>, s: string, n: nat)
    requires |ps| > 0
  {
    exists k :: n <= k <= |s| && WithinMax(k, ps[0].max) && All(s[..k], ps[0].cls) && Match(ps[1..], s[k..])
  }

  lemma {:induction false} MatchFromIff(ps: seq<Piece>, s: string, n: nat)
    requires |ps| > 0
    ensures MatchFrom(ps, s, n) <==> SplitsFrom(ps, s, n)
    decreases |s| - n
  {
    if n > |s| || !WithinMax(n, ps[0].max) {
    } else if n < |s| {
      MatchFromIff(ps, s, n + 1);
      if SplitsFrom(ps, s, n) {
        var k :| n <= k <= |s| && WithinMax(k, ps[0].max) && All(s[..k], ps[0].cls) && Match(ps[1..], s[k..]);
        if k > n {
          assert SplitsFrom(ps, s, n + 1);
        }
      }
    } else {
      if SplitsFrom(ps, s, n) {
        var k :| n <= k <= |s| && WithinMax(k, ps[0].max) && All(s[..k], ps[0].cls) && Match(ps[1..], s[k..]);
        assert k == n;
      }
    }
  }

  /** The meaning of `Match`: the first piece takes some admissible prefix and the rest match the rest. */
  lemma MatchIff(ps: seq<Piece>, s: string)
    requires |ps| > 0
    ensures Match(ps, s) <==> SplitsFrom(ps, s, ps[0].min)
  {
    MatchFromIff(ps, s, ps[0].min);
  }

  /** The empty pattern matches only the empty string. */
  lemma MatchEmpty(s: string)
    ensures Match([], s) <==> s == []
  {
  }
}
