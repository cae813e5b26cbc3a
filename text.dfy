/** Text scanning helpers shared by the Markdown rules: searching for a
    pattern, splitting text into lines on '\n' and joining it back. */
module Text {

  datatype Option<T> = None | Some(value: T)

  /** `pat` occurs in `s` starting at index `i`. */
  predicate OccursAt(pat: string, s: string, i: nat)
  {
    i <= |s| && pat <= s[i..]
  }

  /** Occurrences in the tail of `s` are the occurrences in `s` shifted by one. */
  lemma OccursInTail(pat: string, s: string)
    requires s != []
    ensures forall i :: 1 <= i <= |s| ==> (OccursAt(pat, s, i) <==> OccursAt(pat, s[1..], i - 1))
  {
    forall i | 1 <= i <= |s| ensures OccursAt(pat, s, i) <==> OccursAt(pat, s[1..], i - 1) {
      assert s[1..][i - 1..] == s[i..];
    }
  }

  /** Index of the leftmost occurrence of `pat` in `s`. */
  function FindFirst(s: string, pat: string): (r: Option<nat>)
    ensures r.Some? ==> r.value + |pat| <= |s| && OccursAt(pat, s, r.value)
    ensures r.Some? ==> forall i :: 0 <= i < r.value ==> !OccursAt(pat, s, i)
    ensures r.None? ==> forall i :: 0 <= i <= |s| ==> !OccursAt(pat, s, i)
    decreases |s|
  {
    if pat <= s then Some(0)
    else if s == [] then None
    else
      OccursInTail(pat, s);
      match FindFirst(s[1..], pat)
      case None => None
      case Some(k) => Some(k + 1)
  }

  /** Index of the rightmost occurrence of `pat` in `s`. */
  function FindLast(s: string, pat: string): (r: Option<nat>)
    ensures r.Some? ==> r.value + |pat| <= |s| && OccursAt(pat, s, r.value)
    ensures r.Some? ==> forall i :: r.value < i <= |s| ==> !OccursAt(pat, s, i)
    ensures r.None? ==> forall i :: 0 <= i <= |s| ==> !OccursAt(pat, s, i)
    decreases |s|
  {
    if s == [] then (if pat <= s then Some(0) else None)
    else
      OccursInTail(pat, s);
      match FindLast(s[1..], pat)
      case Some(k) => Some(k + 1)
      case None => if pat <= s then Some(0) else None
  }

  /** Index of the first `c` in `s`. */
  function IndexOf(s: string, c: char): (r: Option<nat>)
    ensures r.Some? ==> r.value < |s| && s[r.value] == c && c !in s[..r.value]
    ensures r.None? <==> c !in s
  {
    var r := FindFirst(s, [c]);
    assert r.Some? ==> forall i :: 0 <= i < r.value ==> s[i] != c by {
      if r.Some? {
        forall i | 0 <= i < r.value ensures s[i] != c {
          assert !OccursAt([c], s, i);
        }
      }
    }
    assert r.None? ==> c !in s by {
      if r.None? && c in s {
        var i :| 0 <= i < |s| && s[i] == c;
        assert OccursAt([c], s, i);
      }
    }
    r
  }

  /** The leftmost `c` of `a + [c] + b` is the one after `a` when `a` holds none. */
  lemma IndexOfAfter(a: string, c: char, b: string)
    requires c !in a
    ensures IndexOf(a + [c] + b, c) == Some(|a|)
  {
    var s := a + [c] + b;
    var r := IndexOf(s, c);
    assert s[|a|] == c;
    assert forall i :: 0 <= i < |a| ==> s[i] == a[i];
  }

  /** The lines of `s`: the pieces between '\n' characters. */
  function SplitLines(s: string): (ls: seq<string>)
    ensures |ls| >= 1
    ensures forall i :: 0 <= i < |ls| ==> '\n' !in ls[i]
    decreases |s|
  {
    match IndexOf(s, '\n')
    case None => [s]
    case Some(k) => [s[..k]] + SplitLines(s[k + 1..])
  }

  /** The lines `ls` joined with '\n' between neighbours. */
  function JoinLines(ls: seq<string>): string
  {
    if ls == [] then ""
    else if |ls| == 1 then ls[0]
    else ls[0] + "\n" + JoinLines(ls[1..])
  }

  /** Splitting into lines and joining them again gives the text back. */
  lemma {:induction false} JoinSplit(s: string)
    ensures JoinLines(SplitLines(s)) == s
    decreases |s|
  {
    match IndexOf(s, '\n')
    case None =>
    case Some(k) =>
      var rest := SplitLines(s[k + 1..]);
      calc {
        JoinLines(SplitLines(s));
        == { assert SplitLines(s) == [s[..k]] + rest; assert ([s[..k]] + rest)[1..] == rest; }
        s[..k] + "\n" + JoinLines(rest);
        == { JoinSplit(s[k + 1..]); }
        s[..k] + "\n" + s[k + 1..];
        == { Rejoin(s, k); }
        s;
      }
  }

  /** A text is the part before a line break, the break and the part after. */
  lemma Rejoin(s: string, k: nat)
    requires k < |s| && s[k] == '\n'
    ensures s[..k] + "\n" + s[k + 1..] == s
  {
  }

  /** Joining lines free of '\n' and splitting again gives the lines back. */
  lemma {:induction false} SplitJoin(ls: seq<string>)
    requires |ls| >= 1
    requires forall i :: 0 <= i < |ls| ==> '\n' !in ls[i]
    ensures SplitLines(JoinLines(ls)) == ls
    decreases |ls|
  {
    if |ls| == 1 {
      assert IndexOf(ls[0], '\n').None?;
    } else {
      var rest := JoinLines(ls[1..]);
      calc {
        SplitLines(JoinLines(ls));
        == SplitLines(ls[0] + "\n" + rest);
        == { FirstLine(ls[0], rest); }
        [ls[0]] + SplitLines(rest);
        == { assert forall i :: 0 <= i < |ls[1..]| ==> ls[1..][i] == ls[i + 1];
             SplitJoin(ls[1..]); }
        [ls[0]] + ls[1..];
        == ls;
      }
    }
  }

  /** A text without '\n' is one line. */
  lemma OneLine(s: string)
    requires '\n' !in s
    ensures SplitLines(s) == [s]
  {
  }

  /** A line followed by '\n' and more text splits off as the first line. */
  lemma FirstLine(a: string, b: string)
    requires '\n' !in a
    ensures SplitLines(a + "\n" + b) == [a] + SplitLines(b)
  {
    var s := a + "\n" + b;
    IndexOfAfter(a, '\n', b);
    assert s[..|a|] == a;
    assert s[|a| + 1..] == b;
  }

  /** Every character of a line is a character of the text. */
  lemma {:induction false} LineChars(s: string, i: nat, c: char)
    requires i < |SplitLines(s)| && c in SplitLines(s)[i]
    ensures c in s
    decreases |s|
  {
    match IndexOf(s, '\n')
    case None =>
    case Some(k) =>
      if i == 0 {
        assert forall x :: x in s[..k] ==> x in s;
      } else {
        LineChars(s[k + 1..], i - 1, c);
        assert forall x :: x in s[k + 1..] ==> x in s;
      }
  }

  /** Applies `f` to every line of `s`, keeping the line breaks: the effect of
      a JavaScript replace with a pattern anchored `^…$` under the `m` flag. */
  function MapLines(s: string, f: string -> string): string
  {
    var ls := SplitLines(s);
    JoinLines(seq(|ls|, i requires 0 <= i < |ls| => f(ls[i])))
  }

  /** Each line of the result is `f` of the matching line of the input. */
  lemma MapLinesPerLine(s: string, f: string -> string)
    requires forall i :: 0 <= i < |SplitLines(s)| ==> '\n' !in f(SplitLines(s)[i])
    ensures |SplitLines(MapLines(s, f))| == |SplitLines(s)|
    ensures forall i :: 0 <= i < |SplitLines(s)| ==> SplitLines(MapLines(s, f))[i] == f(SplitLines(s)[i])
  {
    var ls := SplitLines(s);
    SplitJoin(seq(|ls|, i requires 0 <= i < |ls| => f(ls[i])));
  }

  /** A line rule that changes no line of `s` leaves `s` as it is. */
  lemma MapLinesUnchanged(s: string, f: string -> string)
    requires forall i :: 0 <= i < |SplitLines(s)| ==> f(SplitLines(s)[i]) == SplitLines(s)[i]
    ensures MapLines(s, f) == s
  {
    var ls := SplitLines(s);
    assert seq(|ls|, i requires 0 <= i < |ls| => f(ls[i])) == ls;
    JoinSplit(s);
  }

  /** On one line, a line rule is its line function. */
  lemma MapLinesOne(s: string, f: string -> string)
    requires '\n' !in s
    ensures MapLines(s, f) == f(s)
  {
    OneLine(s);
  }

  /** A line rule rewrites the first line and then the rest. */
  lemma MapLinesFirst(a: string, b: string, f: string -> string)
    requires '\n' !in a
    ensures MapLines(a + "\n" + b, f) == f(a) + "\n" + MapLines(b, f)
  {
    FirstLine(a, b);
    var ls := SplitLines(b);
    MapCons(a, ls, f);
    JoinCons(f(a), seq(|ls|, i requires 0 <= i < |ls| => f(ls[i])));
  }

  lemma MapCons(a: string, ls: seq<string>, f: string -> string)
    ensures seq(|[a] + ls|, i requires 0 <= i < |[a] + ls| => f(([a] + ls)[i]))
         == [f(a)] + seq(|ls|, i requires 0 <= i < |ls| => f(ls[i]))
  {
    var all := [a] + ls;
    var m := seq(|all|, i requires 0 <= i < |all| => f(all[i]));
    var r := [f(a)] + seq(|ls|, i requires 0 <= i < |ls| => f(ls[i]));
    forall i | 0 <= i < |m| ensures m[i] == r[i] {
      if i > 0 {
        assert all[i] == ls[i - 1];
      }
    }
  }

  lemma JoinCons(x: string, rest: seq<string>)
    requires |rest| >= 1
    ensures JoinLines([x] + rest) == x + "\n" + JoinLines(rest)
  {
    assert ([x] + rest)[1..] == rest;
  }
}
