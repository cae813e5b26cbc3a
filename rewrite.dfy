/** The global replace of JavaScript (`String.prototype.replace` with the
    `g` flag) for patterns without anchors: scan from the left, take the
    match that starts at the current position if there is one, emit its
    replacement and resume after it, otherwise keep one character and move
    on. Every match the rules here can make is non-empty. */
module Rewrite {
  import opened Text

  /** A match at the start of the remaining text: how many characters it
      spans and what replaces them. */
  datatype Hit = Hit(consumed: nat, replacement: string)

  /** The match of `at` at the start of `s`, when it is one the driver uses. */
  predicate Fits(s: string, h: Option<Hit>)
  {
    h.Some? && 0 < h.value.consumed <= |s|
  }

  /** Rewrites every non-overlapping leftmost match of `at` in `s`. */
  function ReplaceAll(s: string, at: string -> Option<Hit>): string
    decreases |s|
  {
    if s == [] then ""
    else
      var h := at(s);
      if Fits(s, h) then h.value.replacement + ReplaceAll(s[h.value.consumed..], at)
      else [s[0]] + ReplaceAll(s[1..], at)
  }

  /** Every match of `at` starts with the text `p`. */
  ghost predicate OpensWith(at: string -> Option<Hit>, p: string)
  {
    forall t :: at(t).Some? ==> p <= t
  }

  /** Text that holds no match start is copied verbatim before the rest is rewritten. */
  lemma {:induction false} ReplaceAllSkip(a: string, b: string, at: string -> Option<Hit>)
    requires forall i :: 0 <= i < |a| ==> at((a + b)[i..]).None?
    ensures ReplaceAll(a + b, at) == a + ReplaceAll(b, at)
    decreases |a|
  {
    if a != [] {
      assert at((a + b)[0..]).None?;
      assert (a + b)[0..] == a + b;
      assert (a + b)[1..] == a[1..] + b;
      forall i | 0 <= i < |a[1..]| ensures at((a[1..] + b)[i..]).None? {
        assert (a[1..] + b)[i..] == (a + b)[i + 1..];
      }
      ReplaceAllSkip(a[1..], b, at);
      assert a == [a[0]] + a[1..];
    } else {
      assert a + b == b;
    }
  }

  /** Text without an occurrence of the opening of every match is copied verbatim. */
  lemma ReplaceAllSkipOpen(a: string, b: string, at: string -> Option<Hit>, p: string)
    requires OpensWith(at, p)
    requires forall i :: 0 <= i < |a| ==> !OccursAt(p, a + b, i)
    ensures ReplaceAll(a + b, at) == a + ReplaceAll(b, at)
  {
    forall i | 0 <= i < |a| ensures at((a + b)[i..]).None? {
      assert !OccursAt(p, a + b, i);
    }
    ReplaceAllSkip(a, b, at);
  }

  /** A text without an occurrence of the opening of every match is left unchanged. */
  lemma ReplaceAllNoOpen(s: string, at: string -> Option<Hit>, p: string)
    requires OpensWith(at, p)
    requires forall i :: 0 <= i < |s| ==> !OccursAt(p, s, i)
    ensures ReplaceAll(s, at) == s
  {
    assert s + "" == s;
    ReplaceAllSkipOpen(s, "", at, p);
  }

  /** Text free of the first character of every match is copied verbatim. */
  lemma ReplaceAllSkipLed(a: string, b: string, at: string -> Option<Hit>, p: string)
    requires OpensWith(at, p) && p != [] && p[0] !in a
    ensures ReplaceAll(a + b, at) == a + ReplaceAll(b, at)
  {
    forall i | 0 <= i < |a| ensures !OccursAt(p, a + b, i) {
      assert (a + b)[i..][0] == a[i];
    }
    ReplaceAllSkipOpen(a, b, at, p);
  }

  /** A text free of the first character of every match is left unchanged. */
  lemma ReplaceAllLed(s: string, at: string -> Option<Hit>, p: string)
    requires OpensWith(at, p) && p != [] && p[0] !in s
    ensures ReplaceAll(s, at) == s
  {
    assert s + "" == s;
    ReplaceAllSkipLed(s, "", at, p);
  }

  /** A match at the start is replaced and the scan resumes after it. */
  lemma ReplaceAllHit(s: string, at: string -> Option<Hit>, n: nat, out: string)
    requires at(s) == Some(Hit(n, out)) && 0 < n <= |s|
    ensures ReplaceAll(s, at) == out + ReplaceAll(s[n..], at)
  {
  }

  /** A match that spans the whole text is all that comes out. */
  lemma ReplaceAllWhole(s: string, at: string -> Option<Hit>, out: string)
    requires s != [] && at(s) == Some(Hit(|s|, out))
    ensures ReplaceAll(s, at) == out
  {
    ReplaceAllHit(s, at, |s|, out);
    assert s[|s|..] == [];
    assert out + "" == out;
  }

  /** No match at the start: the first character is kept. */
  lemma ReplaceAllMiss(s: string, at: string -> Option<Hit>)
    requires s != [] && at(s).None?
    ensures ReplaceAll(s, at) == [s[0]] + ReplaceAll(s[1..], at)
  {
  }
}
