/** String primitives with JavaScript and Rust semantics: substring search,
    `endsWith`, and the first-occurrence `String.prototype.replace` together
    with its `$`-pattern expansion. Strings are sequences of characters. */
module Text {
  import opened Base

  /** `p` occurs in `s` starting at index `i`. */
  predicate IsAt(s: string, p: string, i: nat) {
    i + |p| <= |s| && s[i..i + |p|] == p
  }

  /** `p` occurs somewhere in `s` (JavaScript `includes`, Rust `contains`). */
  predicate Contains(s: string, p: string) {
    exists i: nat | i + |p| <= |s| :: IsAt(s, p, i)
  }

  /** An occurrence of `p + q` is an occurrence of `p` followed by one of `q`. */
  lemma IsAtConcat(s: string, p: string, q: string, i: nat)
    ensures IsAt(s, p + q, i) <==> IsAt(s, p, i) && IsAt(s, q, i + |p|)
  {
    if IsAt(s, p, i) && IsAt(s, q, i + |p|) {
      assert s[i..i + |p + q|] == s[i..i + |p|] + s[i + |p|..i + |p| + |q|];
    }
    if IsAt(s, p + q, i) {
      assert s[i..i + |p|] == (p + q)[..|p|];
      assert s[i + |p|..i + |p| + |q|] == (p + q)[|p|..];
    }
  }

  /** JavaScript `endsWith`. */
  predicate EndsWith(s: string, suffix: string) {
    |suffix| <= |s| && s[|s| - |suffix|..] == suffix
  }

  /** The first index at or after `from` where `p` occurs (JavaScript `indexOf(p, from)`). */
  function IndexOf(s: string, p: string, from: nat): (r: Option<nat>)
    ensures r.Some? ==> from <= r.value && IsAt(s, p, r.value)
    ensures forall k: nat {:trigger IsAt(s, p, k)} :: from <= k && (r.None? || k < r.value) ==> !IsAt(s, p, k)
    decreases |s| - from
  {
    if from + |p| > |s| then None
    else if IsAt(s, p, from) then Some(from)
    else IndexOf(s, p, from + 1)
  }

  /** Searching from the start finds an occurrence exactly when there is one. */
  lemma IndexOfFindsContained(s: string, p: string)
    ensures IndexOf(s, p, 0).Some? <==> Contains(s, p)
  {
    if Contains(s, p) {
      var i: nat :| i + |p| <= |s| && IsAt(s, p, i);
      assert IsAt(s, p, i);
    }
  }

  /** The text that JavaScript's `replace` inserts for the replacement string `rep`
      when the pattern is a plain string (so there are no capture groups):
      `$$` stands for `$`, `$&` for the matched text, `` $` `` for the text before
      the match and `$'` for the text after it; any other `$` is kept literally. */
  function Substitution(rep: string, matched: string, before: string, after: string): string
    decreases |rep|
  {
    if |rep| == 0 then ""
    else if |rep| >= 2 && rep[0] == '$' && rep[1] == '$' then "$" + Substitution(rep[2..], matched, before, after)
    else if |rep| >= 2 && rep[0] == '$' && rep[1] == '&' then matched + Substitution(rep[2..], matched, before, after)
    else if |rep| >= 2 && rep[0] == '$' && rep[1] == '`' then before + Substitution(rep[2..], matched, before, after)
    else if |rep| >= 2 && rep[0] == '$' && rep[1] == '\'' then after + Substitution(rep[2..], matched, before, after)
    else [rep[0]] + Substitution(rep[1..], matched, before, after)
  }

  /** A replacement string without `$` is inserted literally. */
  lemma {:induction false} SubstitutionOfPlainText(rep: string, matched: string, before: string, after: string)
    requires '$' !in rep
    ensures Substitution(rep, matched, before, after) == rep
  {
    if |rep| > 0 {
      assert rep == [rep[0]] + rep[1..];
      SubstitutionOfPlainText(rep[1..], matched, before, after);
    }
  }

  /** JavaScript `s.replace(pat, rep)` with a string pattern: only the first
      occurrence of `pat` is replaced; without an occurrence `s` is returned. */
  function ReplaceFirst(s: string, pat: string, rep: string): string {
    match IndexOf(s, pat, 0)
    case None => s
    case Some(i) => s[..i] + Substitution(rep, pat, s[..i], s[i + |pat|..]) + s[i + |pat|..]
  }

  /** Without an occurrence of the pattern, replacing leaves the string unchanged. */
  lemma ReplaceFirstAbsent(s: string, pat: string, rep: string)
    requires !Contains(s, pat)
    ensures ReplaceFirst(s, pat, rep) == s
  {
    IndexOfFindsContained(s, pat);
  }

  /** A `$`-free replacement takes the place of the first occurrence and of nothing else. */
  lemma ReplaceFirstAt(s: string, pat: string, rep: string, i: nat)
    requires IsAt(s, pat, i)
    requires forall k: nat {:trigger IsAt(s, pat, k)} :: k < i ==> !IsAt(s, pat, k)
    requires '$' !in rep
    ensures ReplaceFirst(s, pat, rep) == s[..i] + rep + s[i + |pat|..]
  {
    var r := IndexOf(s, pat, 0);
    assert r == Some(i);
    SubstitutionOfPlainText(rep, pat, s[..i], s[i + |pat|..]);
  }

  /** A pattern containing a character that `s` lacks does not occur in `s`. */
  lemma AbsentCharExcludes(s: string, p: string, c: char)
    requires c in p && c !in s
    ensures !Contains(s, p)
  {
    forall i: nat | i + |p| <= |s|
      ensures !IsAt(s, p, i)
    {
      var k :| 0 <= k < |p| && p[k] == c;
      assert s[i..i + |p|][k] == s[i + k];
    }
  }

  /** An occurrence of `p` that starts inside `x` in `x + [c] + y`, where `c` is not
      part of `p`, lies within `x`. */
  lemma NoOccurrenceBefore(x: string, c: char, y: string, p: string)
    requires c !in p && !Contains(x, p)
    ensures forall k: nat {:trigger IsAt(x + [c] + y, p, k)} :: k <= |x| ==> !IsAt(x + [c] + y, p, k)
  {
    var s := x + [c] + y;
    forall k: nat | k <= |x|
      ensures !IsAt(s, p, k)
    {
      if k + |p| <= |x| {
        assert !IsAt(x, p, k);
        assert s[k..k + |p|] == x[k..k + |p|];
      } else if k + |p| <= |s| {
        assert s[k..k + |p|][|x| - k] == c;
      }
    }
  }

  /** A character that is not part of `p` separates: `p` occurs in `x + [c] + y`
      only if it occurs in `x` or in `y`. */
  lemma NoOccurrenceAcross(x: string, c: char, y: string, p: string)
    requires c !in p && !Contains(x, p) && !Contains(y, p)
    ensures !Contains(x + [c] + y, p)
  {
    var s := x + [c] + y;
    NoOccurrenceBefore(x, c, y, p);
    forall k: nat | k + |p| <= |s|
      ensures !IsAt(s, p, k)
    {
      if k > |x| {
        var j: nat := k - |x| - 1;
        assert !IsAt(y, p, j);
        assert s[k..k + |p|] == y[j..j + |p|];
      } else {
        assert !IsAt(s, p, k);
      }
    }
  }

  /** In `x + [c] + p + rest`, with `c` not part of `p` and `p` absent from `x`, a
      `$`-free replacement of `p` replaces exactly the copy that follows `c`. */
  lemma ReplaceAfterSeparator(x: string, c: char, p: string, rest: string, rep: string)
    requires c !in p && !Contains(x, p) && '$' !in rep
    ensures ReplaceFirst(x + [c] + p + rest, p, rep) == x + [c] + rep + rest
  {
    var s := x + [c] + p + rest;
    var i := |x| + 1;
    assert s == x + [c] + (p + rest);
    NoOccurrenceBefore(x, c, p + rest, p);
    assert s[i..i + |p|] == p;
    ReplaceFirstAt(s, p, rep, i);
    assert s[..i] == x + [c];
    assert s[i + |p|..] == rest;
  }
}
