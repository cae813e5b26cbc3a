/** What each rewrite rule of the converter does, stated rule by rule:
    where its matches begin, which text it matches, and what the stages
    built from it do to the lines or spans of a document. */
module RuleLaws {
  import opened Text
  import opened Rewrite
  import opened Markdown

  /** The text every match of each span rule begins with. */
  lemma Openers()
    ensures OpensWith(StrongStarAt, "**") && OpensWith(StrongUnderAt, "__")
    ensures OpensWith(EmStarAt, "*") && OpensWith(EmUnderAt, "_")
    ensures OpensWith(FenceAt, "```") && OpensWith(InlineCodeAt, "`")
    ensures OpensWith(LinkAt, "[") && OpensWith(ImageAt, "!")
    ensures OpensWith(ParagraphAt, "\n\n")
  {
    forall t | InlineCodeAt(t).Some? ensures "`" <= t {
      assert t[0] == '`';
    }
    forall t | LinkAt(t).Some? ensures "[" <= t {
      assert t[0] == '[';
    }
    forall t | ImageAt(t).Some? ensures "!" <= t {
      assert t[0] == '!';
    }
  }

  // ---------------------------------------------------------------------
  // Delimited spans: `**…**`, `__…__`, `*…*`, `_…_` and fences

  /** A span whose body holds no first character of the closing delimiter
      (and no line break, without the `s` flag) is matched up to the first
      closing delimiter, whatever follows. */
  lemma DelimitedAtSpan(open: string, body: string, close: string, rest: string,
                        dotAll: bool, tagOpen: string, tagClose: string)
    requires open != [] && close != []
    requires close[0] !in body
    requires dotAll || '\n' !in body
    ensures DelimitedAt(open + body + close + rest, open, close, dotAll, tagOpen, tagClose)
         == Some(Hit(|open| + |body| + |close|, tagOpen + body + tagClose))
  {
    AfterOpen(open, body, close, rest);
    FirstClose(body, close, rest);
    DelimitedAtBy(open + body + close + rest, open, close, dotAll, tagOpen, tagClose, |body|, body);
  }

  lemma AfterOpen(open: string, body: string, close: string, rest: string)
    ensures open <= open + body + close + rest
    ensures (open + body + close + rest)[|open|..] == body + close + rest
  {
    assert open + body + close + rest == open + (body + close + rest);
  }

  /** The first closing delimiter after a body free of its first character
      is the one right after the body. */
  lemma FirstClose(body: string, close: string, rest: string)
    requires close != [] && close[0] !in body
    ensures FindFirst(body + close + rest, close) == Some(|body|)
    ensures (body + close + rest)[..|body|] == body
  {
    var after := body + close + rest;
    assert after[|body|..] == close + rest;
    assert OccursAt(close, after, |body|);
    forall j | 0 <= j < |body| ensures !OccursAt(close, after, j) {
      assert after[j..][0] == body[j];
    }
  }

  /** The delimited scanner at work: the first closing delimiter after the
      opening ends the span, unless a line break comes first without `dotAll`;
      `b` is the text between the delimiters. */
  lemma DelimitedAtBy(t: string, open: string, close: string, dotAll: bool,
                      tagOpen: string, tagClose: string, k: nat, b: string)
    requires open != [] && open <= t && FindFirst(t[|open|..], close) == Some(k)
    requires t[|open|..][..k] == b && (dotAll || '\n' !in b)
    ensures DelimitedAt(t, open, close, dotAll, tagOpen, tagClose)
         == Some(Hit(|open| + k + |close|, tagOpen + b + tagClose))
  {
    var r := DelimitedAt(t, open, close, dotAll, tagOpen, tagClose);
    assert r.Some?;
    assert r.value.consumed == |open| + k + |close|;
    assert r.value.replacement == tagOpen + b + tagClose;
    var h := Hit(|open| + k + |close|, tagOpen + b + tagClose);
    assert r.value == h;
    assert r == Some(h);
  }

  /** Without the `s` flag a span never reaches past a line break: when the
      first closing character after the opening comes after a '\n', there
      is no match. */
  lemma DelimitedAtStopsAtLineBreak(open: string, pre: string, rest: string, close: string,
                                    tagOpen: string, tagClose: string)
    requires open != [] && close != []
    requires close[0] !in pre && '\n' in pre
    ensures DelimitedAt(open + pre + rest, open, close, false, tagOpen, tagClose).None?
  {
    var t := open + pre + rest;
    assert open <= t;
    var after := t[|open|..];
    assert after == pre + rest;
    forall j | 0 <= j < |pre| ensures !OccursAt(close, after, j) {
      assert after[j..][0] == pre[j];
    }
    var n :| 0 <= n < |pre| && pre[n] == '\n';
    forall k | |pre| <= k <= |after| ensures '\n' in after[..k] {
      assert after[..k][n] == '\n';
    }
  }

  /** A span that is never closed is not matched. */
  lemma DelimitedAtUnclosed(open: string, rest: string, close: string, dotAll: bool,
                            tagOpen: string, tagClose: string)
    requires open != [] && close != [] && close[0] !in rest
    ensures DelimitedAt(open + rest, open, close, dotAll, tagOpen, tagClose).None?
  {
    var t := open + rest;
    assert open <= t;
    assert t[|open|..] == rest;
    forall j | 0 <= j <= |rest| ensures !OccursAt(close, rest, j) {
      if j < |rest| {
        assert rest[j..][0] == rest[j];
      }
    }
  }

  // ---------------------------------------------------------------------
  // Inline code, links and images

  /** `` `x` `` with a non-empty `x` free of backticks is one code span. */
  lemma InlineCodeSpan(x: string)
    requires x != [] && '`' !in x
    ensures InlineCode("`" + x + "`") == "<code>" + x + "</code>"
  {
    var t := "`" + x + "`";
    InlineCodeAtWhole(x);
    InlineCodeWhole(t, "<code>" + x + "</code>");
  }

  lemma InlineCodeWhole(t: string, out: string)
    requires t != [] && InlineCodeAt(t) == Some(Hit(|t|, out))
    ensures InlineCode(t) == out
  {
    ReplaceAllWhole(t, InlineCodeAt, out);
  }

  /** A code span is the whole of `` `x` `` when `x` holds no backtick. */
  lemma InlineCodeAtWhole(x: string)
    requires x != [] && '`' !in x
    ensures InlineCodeAt("`" + x + "`") == Some(Hit(|"`" + x + "`"|, "<code>" + x + "</code>"))
  {
    var t := "`" + x + "`";
    TickedParts(x);
    var r := InlineCodeAt(t);
    assert r.Some?;
    var n := r.value.consumed;
    assert n == |t|;
    assert r.value.replacement == "<code>" + x + "</code>";
    var h := Hit(|t|, "<code>" + x + "</code>");
    assert r.value == h;
    assert r == Some(h);
  }

  lemma TickedParts(x: string)
    requires x != []
    ensures var t := "`" + x + "`";
      && |t| == |x| + 2 && t[0] == '`' && t[1] == x[0] && t[|t| - 1] == '`'
      && t[1..|t| - 1] == x && '`' in t[2..]
  {
    var t := "`" + x + "`";
    assert t[2..][|t| - 3] == '`';
  }

  /** The bracket scanner at work: the first `]` ends the text, and the URL
      part is scanned right after it. */
  lemma BracketedAtBy(t: string, k: nat, minText: nat)
    requires t != [] && t[0] == '[' && IndexOf(t[1..], ']') == Some(k) && k >= minText
    ensures BracketedAt(t, minText) == UrlAt(t[1..][..k], t[1..][k + 1..])
  {
  }

  /** The URL scanner at work: the first `)` ends a non-empty URL. */
  lemma UrlAtBy(text: string, t: string, m: nat)
    requires t != [] && t[0] == '(' && IndexOf(t[1..], ')') == Some(m) && m > 0
    ensures UrlAt(text, t) == Some(Bracketed(text, t[1..][..m]))
  {
    var r := UrlAt(text, t);
    assert r.Some?;
    assert r.value == Bracketed(text, t[1..][..m]);
  }

  /** `(u)` with a non-empty `u` free of `)` is a URL part, whatever follows. */
  lemma UrlAtMatch(text: string, u: string, rest: string)
    requires u != [] && ')' !in u
    ensures UrlAt(text, "(" + u + ")" + rest) == Some(Bracketed(text, u))
  {
    var t := "(" + u + ")" + rest;
    assert t[1..] == u + [')'] + rest;
    assert t[1..][..|u|] == u;
    calc {
      UrlAt(text, t);
      == { IndexOfAfter(u, ')', rest); UrlAtBy(text, t, |u|); }
      Some(Bracketed(text, t[1..][..|u|]));
    }
  }

  /** The URL part the scanner takes is `(url)` at the start of the text. */
  lemma UrlAtForm(text: string, t: string)
    ensures UrlAt(text, t).Some? ==> "(" + UrlAt(text, t).value.url + ")" <= t
  {
    var r := UrlAt(text, t);
    if r.Some? {
      var m := IndexOf(t[1..], ')').value;
      var u := t[1..][..m];
      assert r.value.url == u by {
        UrlAtBy(text, t, m);
      }
      var f := "(" + u + ")";
      assert |f| == m + 2 && |f| <= |t|;
      forall i | 0 <= i < |f| ensures f[i] == t[i] {
        if 0 < i <= m {
          assert f[i] == u[i - 1] == t[1..][i - 1];
        } else if i == m + 1 {
          assert t[1..][m] == ')';
        }
      }
    }
  }

  /** A bracket match has its text up to the first `]` and its URL part right after. */
  lemma BracketedAtSome(t: string, minText: nat)
    requires BracketedAt(t, minText).Some?
    ensures t != [] && IndexOf(t[1..], ']').Some? && IndexOf(t[1..], ']').value >= minText
    ensures var k := IndexOf(t[1..], ']').value;
      BracketedAt(t, minText) == UrlAt(t[1..][..k], t[1..][k + 1..])
  {
  }

  /** What the bracket scanner captures is the source form at the start of the text. */
  lemma BracketedAtForm(t: string, minText: nat)
    ensures BracketedAt(t, minText).Some? ==> Form(BracketedAt(t, minText).value) <= t
  {
    if BracketedAt(t, minText).Some? {
      MatchedForm(t, minText);
    }
  }

  lemma MatchedForm(t: string, minText: nat)
    requires BracketedAt(t, minText).Some?
    ensures Form(BracketedAt(t, minText).value) <= t
  {
    var r := BracketedAt(t, minText);
    BracketedAtSome(t, minText);
    var k := IndexOf(t[1..], ']').value;
    var x := t[1..][..k];
    var tail := t[1..][k + 1..];
    var p := "(" + r.value.url + ")";
    assert p <= tail by {
      UrlAtForm(x, tail);
    }
    assert t == "[" + x + "]" + tail by {
      Around(t, k);
    }
    assert r.value.text == x;
    FormSplit(r.value);
    PrefixAfter("[" + x + "]", p, tail);
  }

  /** The source form is the bracketed text followed by the URL part. */
  lemma FormSplit(b: Bracketed)
    ensures Form(b) == "[" + b.text + "]" + ("(" + b.url + ")")
  {
  }

  /** A text is its first character, then its tail cut around position `k`. */
  lemma Around(t: string, k: nat)
    requires k + 1 < |t|
    ensures t == [t[0]] + t[1..][..k] + [t[1..][k]] + t[1..][k + 1..]
  {
    assert t[1..] == t[1..][..k] + [t[1..][k]] + t[1..][k + 1..];
  }

  /** A prefix stays a prefix behind a common front. */
  lemma PrefixAfter(a: string, p: string, s: string)
    requires p <= s
    ensures a + p <= a + s
  {
    assert (a + s)[..|a + p|] == a + s[..|p|];
  }

  /** `[x](u)`: a text without `]` of at least `minText` characters and a
      non-empty URL without `)` are exactly what the bracket scanner takes. */
  lemma BracketedAtMatch(x: string, u: string, rest: string, minText: nat)
    requires ']' !in x && |x| >= minText && u != [] && ')' !in u
    ensures BracketedAt(Form(Bracketed(x, u)) + rest, minText) == Some(Bracketed(x, u))
  {
    var t := Form(Bracketed(x, u)) + rest;
    var tail := "(" + u + ")" + rest;
    assert t[1..] == x + [']'] + tail;
    assert t[1..][..|x|] == x;
    assert t[1..][|x| + 1..] == tail;
    calc {
      BracketedAt(t, minText);
      == { IndexOfAfter(x, ']', tail); BracketedAtBy(t, |x|, minText); }
      UrlAt(x, tail);
      == { UrlAtMatch(x, u, rest); }
      Some(Bracketed(x, u));
    }
  }

  /** `[t](u)` becomes an anchor opening in a new tab. */
  lemma LinkAtMatch(x: string, u: string, rest: string)
    requires x != [] && ']' !in x && u != [] && ')' !in u
    ensures LinkAt(Form(Bracketed(x, u)) + rest)
         == Some(Hit(|Form(Bracketed(x, u))|, Anchor(Bracketed(x, u))))
  {
    BracketedAtMatch(x, u, rest, 1);
  }

  /** The link rule never takes an empty text: `[](u)` is not a link. */
  lemma LinkAtEmptyText(rest: string)
    ensures LinkAt("[]" + rest).None?
  {
    var t := "[]" + rest;
    assert t[1..] == "]" + rest;
    assert IndexOf(t[1..], ']') == Some(0);
  }

  /** `![x](u)` with a text without `]`, possibly empty, becomes an image. */
  lemma ImageAtMatch(x: string, u: string, rest: string)
    requires ']' !in x && u != [] && ')' !in u
    ensures ImageAt("!" + Form(Bracketed(x, u)) + rest)
         == Some(Hit(1 + |Form(Bracketed(x, u))|, ImageTag(Bracketed(x, u))))
  {
    var b := Bracketed(x, u);
    var t := "!" + Form(b) + rest;
    assert t[1..] == Form(b) + rest;
    assert t[0] == '!';
    assert BracketedAt(t[1..], 0) == Some(b) by {
      BracketedAtMatch(x, u, rest, 0);
    }
    ImageAtBy(t, b);
  }

  /** The image scanner at work: a `!` and then a bracket match. */
  lemma ImageAtBy(t: string, b: Bracketed)
    requires t != [] && t[0] == '!' && BracketedAt(t[1..], 0) == Some(b)
    ensures ImageAt(t) == Some(Hit(1 + |Form(b)|, ImageTag(b)))
  {
  }

  // ---------------------------------------------------------------------
  // The `<ul>` wrap

  /** With a first `<li>` at `i` and a last `</li>` at `j` after it, the
      wrap puts one `<ul>` before the first and one `</ul>` after the last,
      enclosing everything in between. */
  lemma WrapListSpan(s: string, i: nat, j: nat)
    requires OccursAt("<li>", s, i) && forall k :: 0 <= k < i ==> !OccursAt("<li>", s, k)
    requires OccursAt("</li>", s, j) && forall k :: j < k <= |s| ==> !OccursAt("</li>", s, k)
    requires j >= i + 4
    ensures j + 5 <= |s|
    ensures WrapList(s) == s[..i] + "<ul>" + s[i..j + 5] + "</ul>" + s[j + 5..]
  {
    var f := FindFirst(s, "<li>");
    var l := FindLast(s, "</li>");
    assert f == Some(i) by {
      assert f.Some?;
      assert !(f.value < i) && !(f.value > i);
    }
    assert l == Some(j) by {
      assert l.Some?;
      assert !(l.value < j) && !(l.value > j);
    }
  }

  /** When no `</li>` follows a `<li>`, the wrap changes nothing. */
  lemma WrapListNone(s: string)
    requires forall i, j :: 0 <= i <= |s| && 0 <= j <= |s| && OccursAt("<li>", s, i) && OccursAt("</li>", s, j) ==> j < i + 4
    ensures WrapList(s) == s
  {
  }

  // ---------------------------------------------------------------------
  // Line rules

  /** Each line rule maps a line without '\n' to a line without '\n'. */
  lemma PrefixLineOneLine(line: string, marker: string, open: string, close: string)
    requires '\n' !in line && '\n' !in open && '\n' !in close
    ensures '\n' !in PrefixLine(line, marker, open, close)
  {
    if marker <= line {
      assert forall c :: c in line[|marker|..] ==> c in line;
    }
  }

  /** Longest marker first: `### t` is a level-3 heading and stays one,
      `## t` is level 2, `# t` level 1, and `####t` is left literal, since
      every heading starts with `<`. */
  lemma HeadingLevels(t: string)
    ensures HeadingLine("### " + t) == "<h3>" + t + "</h3>"
    ensures HeadingLine("## " + t) == "<h2>" + t + "</h2>"
    ensures HeadingLine("# " + t) == "<h1>" + t + "</h1>"
    ensures HeadingLine("####" + t) == "####" + t
  {
    assert ("### " + t)[4..] == t;
    assert ("## " + t)[3..] == t;
    assert ("# " + t)[2..] == t;
    assert !("### " <= "####" + t) by { assert ("####" + t)[3] == '#'; }
    assert !("## " <= "####" + t) by { assert ("####" + t)[2] == '#'; }
    assert !("# " <= "####" + t) by { assert ("####" + t)[1] == '#'; }
  }

  /** The heading rules act on every line on its own. */
  lemma HeadingsPerLine(s: string)
    ensures |SplitLines(Headings(s))| == |SplitLines(s)|
    ensures forall i :: 0 <= i < |SplitLines(s)| ==>
      SplitLines(Headings(s))[i] == HeadingLine(SplitLines(s)[i])
  {
    forall l | '\n' !in l ensures '\n' !in H3Line(l) && '\n' !in H2Line(l) && '\n' !in H1Line(l) {
      PrefixLineOneLine(l, "### ", "<h3>", "</h3>");
      PrefixLineOneLine(l, "## ", "<h2>", "</h2>");
      PrefixLineOneLine(l, "# ", "<h1>", "</h1>");
    }
    var s3 := MapLines(s, H3Line);
    MapLinesPerLine(s, H3Line);
    var s2 := MapLines(s3, H2Line);
    MapLinesPerLine(s3, H2Line);
    MapLinesPerLine(s2, H1Line);
  }

  /** The two item rules act on every line on its own. */
  lemma ItemsPerLine(s: string)
    ensures |SplitLines(MapLines(MapLines(s, StarItemLine), DashItemLine))| == |SplitLines(s)|
    ensures forall i :: 0 <= i < |SplitLines(s)| ==>
      SplitLines(MapLines(MapLines(s, StarItemLine), DashItemLine))[i] == DashItemLine(StarItemLine(SplitLines(s)[i]))
  {
    forall l | '\n' !in l ensures '\n' !in StarItemLine(l) && '\n' !in DashItemLine(l) {
      PrefixLineOneLine(l, "* ", "<li>", "</li>");
      PrefixLineOneLine(l, "- ", "<li>", "</li>");
    }
    var s1 := MapLines(s, StarItemLine);
    MapLinesPerLine(s, StarItemLine);
    MapLinesPerLine(s1, DashItemLine);
  }

  /** `* r` and `- r` both become `<li>r</li>`: the star rule leaves a dash
      item alone, and the dash rule leaves the item it made alone. */
  lemma ItemLineOf(r: string)
    ensures DashItemLine(StarItemLine("* " + r)) == "<li>" + r + "</li>"
    ensures DashItemLine(StarItemLine("- " + r)) == "<li>" + r + "</li>"
  {
    assert ("* " + r)[2..] == r;
    assert ("- " + r)[2..] == r;
    assert !("* " <= "- " + r) by { assert ("- " + r)[0] == '-'; }
    assert !("- " <= "<li>" + r + "</li>") by { assert ("<li>" + r + "</li>")[0] == '<'; }
  }

  /** Every `> q` line becomes its own blockquote; others stay. */
  lemma BlockquotesPerLine(s: string)
    ensures |SplitLines(Blockquotes(s))| == |SplitLines(s)|
    ensures forall i :: 0 <= i < |SplitLines(s)| ==>
      SplitLines(Blockquotes(s))[i] == QuoteLine(SplitLines(s)[i])
  {
    forall l | '\n' !in l ensures '\n' !in QuoteLine(l) {
      PrefixLineOneLine(l, "> ", "<blockquote>", "</blockquote>");
    }
    MapLinesPerLine(s, QuoteLine);
  }

  /** `> q` becomes `<blockquote>q</blockquote>`. */
  lemma QuoteLineOf(q: string)
    ensures QuoteLine("> " + q) == "<blockquote>" + q + "</blockquote>"
  {
    assert ("> " + q)[2..] == q;
  }

  /** A run of digits followed by something other than a digit is what `^\d+` takes. */
  lemma {:induction false} LeadingDigitsOf(n: string, tail: string)
    requires forall i :: 0 <= i < |n| ==> IsDigit(n[i])
    requires tail == [] || !IsDigit(tail[0])
    ensures LeadingDigits(n + tail) == |n|
    decreases |n|
  {
    if n != [] {
      assert (n + tail)[1..] == n[1..] + tail;
      LeadingDigitsOf(n[1..], tail);
    } else {
      assert n + tail == tail;
    }
  }

  /** `N. r` with one or more digits `N` becomes `<li>r</li>`, with no
      ordered-list container. */
  lemma OrderedLineOf(n: string, r: string)
    requires n != [] && forall i :: 0 <= i < |n| ==> IsDigit(n[i])
    ensures OrderedItem(n + ". " + r)
    ensures OrderedLine(n + ". " + r) == "<li>" + r + "</li>"
  {
    LeadingDigitsOf(n, ". " + r);
    assert n + ". " + r == n + (". " + r);
    assert (n + ". " + r)[|n|..] == ". " + r;
    assert (n + ". " + r)[|n| + 2..] == r;
  }

  /** The ordered-list rule acts on every line on its own. */
  lemma OrderedListsPerLine(s: string)
    ensures |SplitLines(OrderedLists(s))| == |SplitLines(s)|
    ensures forall i :: 0 <= i < |SplitLines(s)| ==>
      SplitLines(OrderedLists(s))[i] == OrderedLine(SplitLines(s)[i])
  {
    forall l | '\n' !in l ensures '\n' !in OrderedLine(l) {
      if OrderedItem(l) {
        var n := LeadingDigits(l);
        assert forall c :: c in l[n + 2..] ==> c in l;
      }
    }
    MapLinesPerLine(s, OrderedLine);
  }

  /** A line exactly `---` or `***` becomes a rule; every other line stays. */
  lemma HorizontalRulesPerLine(s: string)
    ensures |SplitLines(HorizontalRules(s))| == |SplitLines(s)|
    ensures forall i :: 0 <= i < |SplitLines(s)| ==>
      SplitLines(HorizontalRules(s))[i] ==
        (if SplitLines(s)[i] == "---" || SplitLines(s)[i] == "***" then "<hr />" else SplitLines(s)[i])
  {
    var s1 := MapLines(s, DashRuleLine);
    MapLinesPerLine(s, DashRuleLine);
    MapLinesPerLine(s1, StarRuleLine);
  }
}
