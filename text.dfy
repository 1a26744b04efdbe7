/**
 * The Rust `str` operations the parsers rely on, over strings of characters:
 * `trim_end_matches` and `trim_start_matches` with a character predicate.
 * Beside them, two helpers for reading built text back in the lemmas: a
 * suffix test and a split at the first occurrence of a character.
 */
module Text {
  import opened Wrappers

  /** `u` is a suffix of `s`; used to state what the parsers accept. */
  predicate EndsWith(s: string, u: string) {
    |u| <= |s| && s[|s| - |u|..] == u
  }

  /** `s.trim_end_matches(p)`: `s` without its longest suffix of characters satisfying `p`. */
  function TrimEndMatches(s: string, p: char -> bool): (r: string)
    ensures r <= s
    ensures forall i :: |r| <= i < |s| ==> p(s[i])
    ensures r == [] || !p(r[|r| - 1])
  {
    if s != [] && p(s[|s| - 1]) then TrimEndMatches(s[..|s| - 1], p) else s
  }

  /** `s.trim_start_matches(p)`: `s` without its longest prefix of characters satisfying `p`. */
  function TrimStartMatches(s: string, p: char -> bool): (r: string)
    ensures |r| <= |s| && r == s[|s| - |r|..]
    ensures forall i :: 0 <= i < |s| - |r| ==> p(s[i])
    ensures r == [] || !p(r[0])
  {
    if s != [] && p(s[0]) then TrimStartMatches(s[1..], p) else s
  }

  /** Trimming a suffix of matching characters gives back the part before it, when that part ends in a non-matching character. */
  lemma {:induction false} TrimEndMatchesConcat(a: string, b: string, p: char -> bool)
    requires forall i :: 0 <= i < |b| ==> p(b[i])
    requires a == [] || !p(a[|a| - 1])
    ensures TrimEndMatches(a + b, p) == a
  {
    if b == [] {
      assert a + b == a;
    } else {
      assert (a + b)[..|a + b| - 1] == a + b[..|b| - 1];
      TrimEndMatchesConcat(a, b[..|b| - 1], p);
    }
  }

  /** Trimming a prefix of matching characters gives back the part after it, when that part starts with a non-matching character. */
  lemma {:induction false} TrimStartMatchesConcat(a: string, b: string, p: char -> bool)
    requires forall i :: 0 <= i < |a| ==> p(a[i])
    requires b == [] || !p(b[0])
    ensures TrimStartMatches(a + b, p) == b
  {
    if a == [] {
      assert a + b == b;
    } else {
      assert (a + b)[1..] == a[1..] + b;
      TrimStartMatchesConcat(a[1..], b, p);
    }
  }

  /** The text before and after the first `c`, or None when there is none; used to read built text back. */
  function SplitOnce(s: string, c: char): (r: Option<(string, string)>)
    ensures r.Some? ==> s == r.value.0 + [c] + r.value.1 && c !in r.value.0
    ensures r.None? <==> c !in s
  {
    if s == [] then None
    else if s[0] == c then Some(([], s[1..]))
    else match SplitOnce(s[1..], c)
      case None => None
      case Some((before, after)) => Some(([s[0]] + before, after))
  }

  /** Splitting at the first `c` recovers the two sides when the left one holds no `c`. */
  lemma {:induction false} SplitOnceConcat(a: string, c: char, b: string)
    requires c !in a
    ensures SplitOnce(a + [c] + b, c) == Some((a, b))
  {
    if a != [] {
      assert (a + [c] + b)[1..] == a[1..] + [c] + b;
      SplitOnceConcat(a[1..], c, b);
      assert [a[0]] + a[1..] == a;
    }
  }
}
