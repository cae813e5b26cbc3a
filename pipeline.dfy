/** What the whole converter makes of whole documents: plain text passes
    through inside one paragraph, and each construct comes out as the
    ordered chain of rewrites dictates, including the interactions between
    rules (links before images, emphasis before horizontal rules, a single
    list wrap, no ordered-list container). */
module Pipeline {
  import opened Text
  import opened Rewrite
  import opened Markdown
  import opened RuleLaws

  // ---------------------------------------------------------------------
  // Kinds of text

  /** One line of text free of the characters that open a span or close a tag. */
  predicate Literal(t: string)
  {
    '\n' !in t && '*' !in t && '_' !in t && '`' !in t && '[' !in t && '!' !in t && '>' !in t
  }

  /** No line of `s` starts with `c`. */
  ghost predicate LinesAvoid(s: string, c: char)
  {
    forall i :: 0 <= i < |SplitLines(s)| ==> SplitLines(s)[i] == [] || SplitLines(s)[i][0] != c
  }

  /** Every line of `s` starts with `<`, as every tag the rules emit does. */
  ghost predicate TagLines(s: string)
  {
    forall i :: 0 <= i < |SplitLines(s)| ==> SplitLines(s)[i] != [] && SplitLines(s)[i][0] == '<'
  }

  /** `s` holds no `<li>`. */
  predicate ListFree(s: string)
  {
    forall i :: 0 <= i <= |s| ==> !OccursAt("<li>", s, i)
  }

  /** Text the converter leaves alone apart from blank-line pairs: none of
      the characters # * _ ` [ > - and no line that is an ordered item. */
  ghost predicate Inert(s: string)
  {
    && '#' !in s && '*' !in s && '_' !in s && '`' !in s && '[' !in s && '>' !in s && '-' !in s
    && forall i :: 0 <= i < |SplitLines(s)| ==> !OrderedItem(SplitLines(s)[i])
  }

  /** Inert text without a blank-line pair. */
  ghost predicate Plain(s: string)
  {
    Inert(s) && forall i :: 0 <= i <= |s| ==> !OccursAt("\n\n", s, i)
  }

  // ---------------------------------------------------------------------
  // Stages that change nothing

  lemma LinesAvoidAbsent(s: string, c: char)
    requires c !in s
    ensures LinesAvoid(s, c)
  {
    forall i | 0 <= i < |SplitLines(s)| && SplitLines(s)[i] != [] ensures SplitLines(s)[i][0] != c {
      LineChars(s, i, SplitLines(s)[i][0]);
    }
  }

  lemma LinesAvoidTwo(a: string, b: string, c: char)
    requires '\n' !in a && '\n' !in b && (a == [] || a[0] != c) && (b == [] || b[0] != c)
    ensures LinesAvoid(a + "\n" + b, c)
  {
    FirstLine(a, b);
    OneLine(b);
  }

  lemma TagLinesTwo(a: string, b: string)
    requires '\n' !in a && '\n' !in b && a != [] && a[0] == '<' && b != [] && b[0] == '<'
    ensures TagLines(a + "\n" + b)
  {
    FirstLine(a, b);
    OneLine(b);
  }

  lemma LineRuleKeep(s: string, f: string -> string, c: char)
    requires forall l :: (l == [] || l[0] != c) ==> f(l) == l
    requires LinesAvoid(s, c)
    ensures MapLines(s, f) == s
  {
    MapLinesUnchanged(s, f);
  }

  lemma LineRuleKeepTagged(s: string, f: string -> string)
    requires forall l :: (l != [] && l[0] == '<') ==> f(l) == l
    requires TagLines(s)
    ensures MapLines(s, f) == s
  {
    MapLinesUnchanged(s, f);
  }

  /** An opening and a closing tag that open no span, start with `<` and
      whose `>` cannot end a `<li>` around any text without `>`. */
  predicate TagPair(a: string, b: string)
  {
    && a != [] && a[0] == '<' && SpanFree(a) && SpanFree(b)
    && ClosesClear(a) && ClosesClear(b) && forall i :: 0 <= i < |b| && i < 2 ==> b[i] != '>'
  }

  /** One line holding no character that opens a span. */
  predicate SpanFree(x: string)
  {
    '\n' !in x && '*' !in x && '_' !in x && '`' !in x && '[' !in x && '!' !in x
  }

  /** No `>` of `x` has an `l` two places before it. */
  predicate ClosesClear(x: string)
  {
    forall i :: 2 <= i < |x| && x[i] == '>' ==> x[i - 2] != 'l'
  }

  /** A `<li>` needs an `l` two places before its `>`. */
  lemma ListFreeByCloses(x: string)
    requires ClosesClear(x)
    ensures ListFree(x)
  {
    forall i | 0 <= i <= |x| ensures !OccursAt("<li>", x, i) {
      if i + 4 <= |x| {
        assert x[i..][1] == x[i + 1] && x[i..][3] == x[i + 3];
      }
    }
  }

  lemma ClosesClearJoin(a: string, b: string)
    requires ClosesClear(a) && ClosesClear(b)
    requires forall i :: 0 <= i < |b| && i < 2 ==> b[i] != '>'
    ensures ClosesClear(a + b)
  {
    forall i | 2 <= i < |a + b| && (a + b)[i] == '>' ensures (a + b)[i - 2] != 'l' {
      if i < |a| {
        assert (a + b)[i] == a[i] && (a + b)[i - 2] == a[i - 2];
      } else {
        assert (a + b)[i] == b[i - |a|];
        if i - |a| >= 2 {
          assert (a + b)[i - 2] == b[i - |a| - 2];
        }
      }
    }
  }

  /** Text without `>` between two tags whose `>` are clear keeps them clear. */
  lemma ClosesClearAround(a: string, t: string, b: string)
    requires ClosesClear(a) && '>' !in t && ClosesClear(b)
    requires forall i :: 0 <= i < |b| && i < 2 ==> b[i] != '>'
    ensures ClosesClear(a + t + b)
  {
    ClosesClearJoin(a, t);
    ClosesClearJoin(a + t, b);
  }

  lemma HeadingsKeep(s: string)
    requires LinesAvoid(s, '#')
    ensures Headings(s) == s
  {
    LineRuleKeep(s, H3Line, '#');
    LineRuleKeep(s, H2Line, '#');
    LineRuleKeep(s, H1Line, '#');
  }

  /** The span stages after emphasis change nothing without ` [ and !. */
  lemma CodeAndLinksKeep(x: string)
    requires '`' !in x && '[' !in x && '!' !in x
    ensures Images(Links(InlineCode(CodeBlocks(x)))) == x
  {
    Openers();
    ReplaceAllLed(x, FenceAt, "```");
    ReplaceAllLed(x, InlineCodeAt, "`");
    ReplaceAllLed(x, LinkAt, "[");
    ReplaceAllLed(x, ImageAt, "!");
  }

  lemma InlineKeep(x: string)
    requires '*' !in x && '_' !in x && '`' !in x && '[' !in x && '!' !in x
    ensures Inline(x) == x
  {
    Openers();
    ReplaceAllLed(x, StrongStarAt, "**");
    ReplaceAllLed(x, StrongUnderAt, "__");
    ReplaceAllLed(x, EmStarAt, "*");
    ReplaceAllLed(x, EmUnderAt, "_");
    CodeAndLinksKeep(x);
  }

  /** The ordered-item, quote and rule stages leave lines that start with a tag. */
  lemma LateBlocksKeep(s: string)
    requires TagLines(s)
    ensures HorizontalRules(Blockquotes(OrderedLists(s))) == s
  {
    LineRuleKeepTagged(s, OrderedLine);
    LineRuleKeepTagged(s, QuoteLine);
    LineRuleKeepTagged(s, DashRuleLine);
    LineRuleKeepTagged(s, StarRuleLine);
  }

  /** One line that opens no span and starts with none of * - > or a digit,
      and holds no `<li>`, passes every stage after the headings unchanged. */
  lemma Settled(x: string)
    requires '\n' !in x && '*' !in x && '_' !in x && '`' !in x && '[' !in x && '!' !in x
    requires x != [] && x[0] != '-' && x[0] != '>' && !IsDigit(x[0])
    requires ClosesClear(x)
    ensures Paragraphs(Blocks(Inline(x))) == x
  {
    InlineKeep(x);
    ListFreeByCloses(x);
    SettledLine(x);
  }

  /** A tag pair around literal text passes every stage after the headings unchanged. */
  lemma SettledAround(a: string, t: string, b: string)
    requires Literal(t) && TagPair(a, b)
    ensures Paragraphs(Blocks(Inline(a + t + b))) == a + t + b
  {
    ClosesClearAround(a, t, b);
    Settled(a + t + b);
  }

  /** One line that starts with none of * - > or a digit and holds no `<li>`
      passes the block stages and the paragraph split unchanged. */
  lemma SettledLine(x: string)
    requires '\n' !in x && x != [] && x[0] != '*' && x[0] != '-' && x[0] != '>' && !IsDigit(x[0])
    requires ListFree(x)
    ensures Paragraphs(Blocks(x)) == x
  {
    MapLinesOne(x, StarItemLine);
    MapLinesOne(x, DashItemLine);
    WrapListNone(x);
    MapLinesOne(x, OrderedLine);
    MapLinesOne(x, QuoteLine);
    MapLinesOne(x, DashRuleLine);
    MapLinesOne(x, StarRuleLine);
    Openers();
    ReplaceAllLed(x, ParagraphAt, "\n\n");
  }

  /** A single line break between two lines is not a paragraph break. */
  lemma ParagraphsOneBreak(a: string, b: string)
    requires '\n' !in a && '\n' !in b
    ensures Paragraphs(a + "\n" + b) == a + "\n" + b
  {
    Openers();
    ReplaceAllSkipLed(a, "\n" + b, ParagraphAt, "\n\n");
    assert a + "\n" + b == a + ("\n" + b);
    assert !("\n\n" <= "\n" + b) by {
      if b != [] {
        assert ("\n" + b)[1] == b[0];
      }
    }
    ReplaceAllMiss("\n" + b, ParagraphAt);
    assert ("\n" + b)[1..] == b;
    ReplaceAllLed(b, ParagraphAt, "\n\n");
  }

  /** The body of inert text is the text itself. */
  lemma InertBody(s: string)
    requires Inert(s)
    ensures Blocks(Inline(Headings(s))) == s
  {
    assert Headings(s) == s by {
      LinesAvoidAbsent(s, '#');
      HeadingsKeep(s);
    }
    InertInline(s);
    InertBlocks(s);
  }

  lemma InertInline(s: string)
    requires Inert(s)
    ensures Inline(s) == s
  {
    Openers();
    ReplaceAllLed(s, StrongStarAt, "**");
    ReplaceAllLed(s, StrongUnderAt, "__");
    ReplaceAllLed(s, EmStarAt, "*");
    ReplaceAllLed(s, EmUnderAt, "_");
    ReplaceAllLed(s, FenceAt, "```");
    ReplaceAllLed(s, InlineCodeAt, "`");
    ReplaceAllLed(s, LinkAt, "[");
    forall i | 0 <= i < |s| ensures !OccursAt("![", s, i) {
      if i + 2 <= |s| {
        assert s[i..][1] == s[i + 1];
      }
    }
    ImageOpensWithBracket();
    ReplaceAllNoOpen(s, ImageAt, "![");
  }

  lemma InertBlocks(s: string)
    requires Inert(s)
    ensures Blocks(s) == s
  {
    assert UnorderedLists(s) == s by {
      InertLists(s);
    }
    assert OrderedLists(s) == s by {
      MapLinesUnchanged(s, OrderedLine);
    }
    assert Blockquotes(s) == s by {
      LinesAvoidAbsent(s, '>');
      LineRuleKeep(s, QuoteLine, '>');
    }
    assert HorizontalRules(s) == s by {
      LinesAvoidAbsent(s, '-');
      LinesAvoidAbsent(s, '*');
      LineRuleKeep(s, DashRuleLine, '-');
      LineRuleKeep(s, StarRuleLine, '*');
    }
  }

  lemma InertLists(s: string)
    requires '*' !in s && '-' !in s && '>' !in s
    ensures UnorderedLists(s) == s
  {
    assert MapLines(s, StarItemLine) == s by {
      LinesAvoidAbsent(s, '*');
      LineRuleKeep(s, StarItemLine, '*');
    }
    assert MapLines(s, DashItemLine) == s by {
      LinesAvoidAbsent(s, '-');
      LineRuleKeep(s, DashItemLine, '-');
    }
    ListFreeByCloses(s);
    WrapListNone(s);
  }

  /** Every image begins with `![`. */
  lemma ImageOpensWithBracket()
    ensures OpensWith(ImageAt, "![")
  {
    forall t | ImageAt(t).Some? ensures "![" <= t {
      ImageAtOpens(t);
    }
  }

  lemma ImageAtOpens(t: string)
    requires ImageAt(t).Some?
    ensures "![" <= t
  {
    assert BracketedAt(t[1..], 0).Some?;
    assert t[1] == t[1..][0];
    BangBracket(t);
  }

  lemma BangBracket(t: string)
    requires |t| >= 2 && t[0] == '!' && t[1] == '['
    ensures "![" <= t
  {
  }

  // ---------------------------------------------------------------------
  // Whole documents

  /** The converter is its stages in turn inside one outer paragraph. */
  lemma Stages(m: string)
    ensures ParseMarkdown(m) == "<p>" + Paragraphs(Blocks(Inline(Headings(m)))) + "</p>"
  {
  }

  /** Whatever the document, the output is one paragraph: it opens with `<p>` and closes with `</p>`. */
  lemma OuterParagraph(m: string)
    ensures var html := ParseMarkdown(m);
      |html| >= 7 && html[..3] == "<p>" && html[|html| - 4..] == "</p>"
  {
    Stages(m);
    Wrapped(Paragraphs(Blocks(Inline(Headings(m)))));
  }

  lemma Wrapped(x: string)
    ensures var html := "<p>" + x + "</p>";
      |html| >= 7 && html[..3] == "<p>" && html[|html| - 4..] == "</p>"
  {
    var html := "<p>" + x + "</p>";
    assert html[..3] == "<p>";
    assert html[|html| - 4..] == "</p>";
  }

  lemma Regroup(p: string, a: string, t: string, b: string, q: string)
    ensures p + (a + t + b) + q == (p + a) + t + (b + q)
    ensures p + (a + t + b) + q == p + a + t + b + q
  {
  }

  /** A document whose headings give `x`, which the later stages keep, is `x` in one paragraph. */
  lemma Settles(m: string, x: string)
    requires Headings(m) == x && Paragraphs(Blocks(Inline(x))) == x
    ensures ParseMarkdown(m) == "<p>" + x + "</p>"
  {
  }

  /** Plain text comes back unchanged inside one paragraph. */
  lemma PlainUnchanged(s: string)
    requires Plain(s)
    ensures ParseMarkdown(s) == "<p>" + s + "</p>"
  {
    InertBody(s);
    Openers();
    ReplaceAllNoOpen(s, ParagraphAt, "\n\n");
  }

  /** The empty document is one empty paragraph. */
  lemma EmptyDocument()
    ensures ParseMarkdown("") == "<p></p>"
  {
    var e := "";
    assert Plain(e) by {
      OneLine(e);
      assert LeadingDigits(e) == 0;
    }
    PlainUnchanged(e);
    EmptyJoin();
  }

  lemma EmptyJoin()
    ensures "<p>" + "" + "</p>" == "<p></p>"
  {
  }

  /** A blank line between two plain lines closes one paragraph and opens the next. */
  lemma ParagraphBreak(a: string, b: string)
    requires Plain(a) && Plain(b) && '\n' !in a && '\n' !in b
    ensures ParseMarkdown(a + "\n\n" + b) == "<p>" + a + "</p><p>" + b + "</p>"
  {
    var s := a + "\n\n" + b;
    InertBlankJoin(a, b);
    InertBody(s);
    ParagraphsBlankLine(a, b);
    Regroup("<p>", a, "</p><p>", b, "</p>");
  }

  /** Two inert lines with a blank line between them make inert text. */
  lemma InertBlankJoin(a: string, b: string)
    requires Inert(a) && Inert(b) && '\n' !in a && '\n' !in b
    ensures Inert(a + "\n\n" + b)
  {
    var s := a + "\n\n" + b;
    assert forall i :: 0 <= i < |SplitLines(s)| ==> !OrderedItem(SplitLines(s)[i]) by {
      BlankLineSplit(a, b);
      OneLine(a);
      OneLine(b);
      assert !OrderedItem(SplitLines(a)[0]) && !OrderedItem(SplitLines(b)[0]);
      assert LeadingDigits("") == 0;
    }
    BlankJoinChars(a, b);
  }

  lemma BlankJoinChars(a: string, b: string)
    ensures forall c :: c in a + "\n\n" + b ==> c in a || c == '\n' || c in b
  {
  }

  lemma BlankLineSplit(a: string, b: string)
    requires '\n' !in a && '\n' !in b
    ensures SplitLines(a + "\n\n" + b) == [a, "", b]
  {
    var c := "\n" + b;
    assert a + "\n\n" + b == a + "\n" + c;
    assert SplitLines(c) == ["", b] by {
      assert c == "" + "\n" + b;
      FirstLine("", b);
      OneLine(b);
    }
    FirstLine(a, c);
  }

  /** A blank line between two lines becomes a paragraph boundary. */
  lemma ParagraphsBlankLine(a: string, b: string)
    requires '\n' !in a && '\n' !in b
    ensures Paragraphs(a + "\n\n" + b) == a + "</p><p>" + b
  {
    Openers();
    assert a + "\n\n" + b == a + ("\n\n" + b);
    ReplaceAllSkipLed(a, "\n\n" + b, ParagraphAt, "\n\n");
    assert ("\n\n" + b)[2..] == b;
    ReplaceAllHit("\n\n" + b, ParagraphAt, 2, "</p><p>");
    ReplaceAllLed(b, ParagraphAt, "\n\n");
  }

  /** `### t`, `## t` and `# t` become headings of levels 3, 2 and 1. */
  lemma HeadingDocument(t: string)
    requires Literal(t)
    ensures ParseMarkdown("### " + t) == "<p><h3>" + t + "</h3></p>"
    ensures ParseMarkdown("## " + t) == "<p><h2>" + t + "</h2></p>"
    ensures ParseMarkdown("# " + t) == "<p><h1>" + t + "</h1></p>"
  {
    HeadingLevels(t);
    HeadingTags();
    HeadingJoins();
    HeadingFrom("### ", t, "<h3>", "</h3>");
    HeadingFrom("## ", t, "<h2>", "</h2>");
    HeadingFrom("# ", t, "<h1>", "</h1>");
  }

  lemma HeadingJoins()
    ensures '\n' !in "### " && '\n' !in "## " && '\n' !in "# "
    ensures "<p>" + "<h3>" == "<p><h3>" && "</h3>" + "</p>" == "</h3></p>"
    ensures "<p>" + "<h2>" == "<p><h2>" && "</h2>" + "</p>" == "</h2></p>"
    ensures "<p>" + "<h1>" == "<p><h1>" && "</h1>" + "</p>" == "</h1></p>"
  {
  }

  /** The heading tags make tag pairs. */
  lemma HeadingTags()
    ensures TagPair("<h3>", "</h3>") && TagPair("<h2>", "</h2>") && TagPair("<h1>", "</h1>")
  {
    assert SpanFree("<h3>") && SpanFree("</h3>");
    assert SpanFree("<h2>") && SpanFree("</h2>");
    assert SpanFree("<h1>") && SpanFree("</h1>");
  }

  lemma HeadingFrom(p: string, t: string, a: string, b: string)
    requires Literal(t) && '\n' !in p && HeadingLine(p + t) == a + t + b
    requires TagPair(a, b)
    ensures ParseMarkdown(p + t) == ("<p>" + a) + t + (b + "</p>")
  {
    var m := p + t;
    assert '\n' !in m;
    HeadingsOneLine(m);
    SettledAround(a, t, b);
    Settles(m, a + t + b);
    Regroup("<p>", a, t, b, "</p>");
  }

  lemma HeadingsOneLine(m: string)
    requires '\n' !in m
    ensures Headings(m) == HeadingLine(m)
  {
    PrefixLineOneLine(m, "### ", "<h3>", "</h3>");
    MapLinesOne(m, H3Line);
    PrefixLineOneLine(H3Line(m), "## ", "<h2>", "</h2>");
    MapLinesOne(H3Line(m), H2Line);
    MapLinesOne(H2Line(H3Line(m)), H1Line);
  }
}
