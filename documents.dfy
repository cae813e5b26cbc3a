/** Whole documents built from one construct each, and what the converter
    makes of them. The ordered chain shows through: emphasis runs before
    rules, links before images, one list wrap for all items, and ordered
    items without a list container. Facts about literal text are kept in
    lemmas of their own, so that each proof sees only the strings it needs. */
module Documents {
  import opened Text
  import opened Rewrite
  import opened Markdown
  import opened RuleLaws
  import opened Pipeline

  // ---------------------------------------------------------------------
  // Helper lemmas. These state no property of the converter. The regroupings
  // here, the `Opens*` instances of `Openers` and, in each section below,
  // the `*Literals`, `*Join`, `*Chars`, `*Split` and `*Free` lemmas each hold
  // one fact about the characters of literal text and fixed tags, or about
  // concatenation. The larger proofs call them instead of carrying those
  // strings in their own context, which keeps the solver's work small.

  // Regrouping concatenations

  lemma Regroup3(p: string, s1: string, a: string, s2: string, q: string)
    ensures p + (s1 + a + s2) + q == (p + s1) + a + (s2 + q)
  {
  }

  lemma Regroup5(p: string, s1: string, a: string, s2: string, b: string, s3: string, q: string)
    ensures p + (s1 + a + s2 + b + s3) + q == (p + s1) + a + s2 + b + (s3 + q)
  {
  }

  lemma Regroup7(p: string, s1: string, a: string, s2: string, b: string, s3: string, c: string, s4: string, q: string)
    ensures p + ((s1 + a + s2) + b + (s3 + c + s4)) + q == (p + s1) + a + s2 + b + s3 + c + (s4 + q)
  {
  }

  // The emphasis scanners each open with their delimiter.
  lemma OpensStrongStar() ensures OpensWith(StrongStarAt, "**") { Openers(); }
  lemma OpensStrongUnder() ensures OpensWith(StrongUnderAt, "__") { Openers(); }
  lemma OpensEmStar() ensures OpensWith(EmStarAt, "*") { Openers(); }
  lemma OpensEmUnder() ensures OpensWith(EmUnderAt, "_") { Openers(); }

  /** A document whose headings stage keeps it, whose span stages give `x`
      and whose block stages and paragraph split turn that into `y`, is `y`
      in one paragraph. */
  lemma Through(m: string, x: string, y: string)
    requires Headings(m) == m && Inline(m) == x && Paragraphs(Blocks(x)) == y
    ensures ParseMarkdown(m) == "<p>" + y + "</p>"
  {
  }

  /** A line that no heading marker starts is kept by the headings stage. */
  lemma NoHeading(m: string)
    requires '\n' !in m && m != [] && m[0] != '#'
    ensures Headings(m) == m
  {
    HeadingsOneLine(m);
  }

  /** The quote and rule stages keep lines that start with a tag. */
  lemma QuotesAndRulesKeep(s: string)
    requires TagLines(s)
    ensures HorizontalRules(Blockquotes(s)) == s
  {
    LineRuleKeepTagged(s, QuoteLine);
    LineRuleKeepTagged(s, DashRuleLine);
    LineRuleKeepTagged(s, StarRuleLine);
  }

  /** The span stages after bold keep text without * _ ` [ and !. */
  lemma AfterBoldKeep(x: string)
    requires '*' !in x && '_' !in x && '`' !in x && '[' !in x && '!' !in x
    ensures Images(Links(InlineCode(CodeBlocks(Italic(x))))) == x
  {
    OpensEmStar();
    OpensEmUnder();
    ReplaceAllLed(x, EmStarAt, "*");
    ReplaceAllLed(x, EmUnderAt, "_");
    CodeAndLinksKeep(x);
  }

  /** A tag pair around literal text passes the block stages and the paragraph split unchanged. */
  lemma BlocksKeepAround(a: string, t: string, b: string)
    requires TagPair(a, b) && Literal(t)
    ensures Paragraphs(Blocks(a + t + b)) == a + t + b
  {
    ClosesClearAround(a, t, b);
    ListFreeByCloses(a + t + b);
    SettledLine(a + t + b);
  }

  /** Literal text between two pieces free of span openers is free of them too. */
  lemma SpanFreeAround(a: string, t: string, b: string)
    requires SpanFree(a) && Literal(t) && SpanFree(b)
    ensures SpanFree(a + t + b)
  {
  }

  // ---------------------------------------------------------------------
  // Blockquotes

  lemma QuoteChars(q: string)
    requires Literal(q)
    ensures '\n' !in "> " + q && ("> " + q)[0] == '>'
    ensures '*' !in "> " + q && '_' !in "> " + q && '`' !in "> " + q && '[' !in "> " + q && '!' !in "> " + q
    ensures forall i :: 2 <= i < |"> " + q| ==> ("> " + q)[i] != '>'
  {
  }

  /** `> q` becomes a blockquote. */
  lemma QuoteDocument(q: string)
    requires Literal(q)
    ensures ParseMarkdown("> " + q) == "<p><blockquote>" + q + "</blockquote></p>"
  {
    var m := "> " + q;
    var x := "<blockquote>" + q + "</blockquote>";
    QuoteChars(q);
    NoHeading(m);
    InlineKeep(m);
    QuoteBlocks(q);
    Through(m, m, x);
    QuoteJoin(q);
  }

  lemma QuoteJoin(q: string)
    ensures "<p>" + ("<blockquote>" + q + "</blockquote>") + "</p>" == "<p><blockquote>" + q + "</blockquote></p>"
  {
    Regroup3("<p>", "<blockquote>", q, "</blockquote>", "</p>");
    QuoteLiterals();
  }

  lemma QuoteLiterals()
    ensures "<p>" + "<blockquote>" == "<p><blockquote>" && "</blockquote>" + "</p>" == "</blockquote></p>"
  {
  }

  lemma QuoteBlocks(q: string)
    requires Literal(q)
    ensures Paragraphs(Blocks("> " + q)) == "<blockquote>" + q + "</blockquote>"
  {
    QuoteLists(q);
    QuoteLate(q);
    QuoteSettled(q);
  }

  /** The list stage keeps a quote line: it is no item and holds no `<li>`. */
  lemma QuoteLists(q: string)
    requires Literal(q)
    ensures UnorderedLists("> " + q) == "> " + q
  {
    var m := "> " + q;
    QuoteChars(q);
    MapLinesOne(m, StarItemLine);
    MapLinesOne(m, DashItemLine);
    ListFreeByCloses(m);
    WrapListNone(m);
  }

  lemma QuoteLate(q: string)
    requires Literal(q)
    ensures Blockquotes(OrderedLists("> " + q)) == "<blockquote>" + q + "</blockquote>"
  {
    var m := "> " + q;
    QuoteChars(q);
    MapLinesOne(m, OrderedLine);
    QuoteLineOf(q);
    MapLinesOne(m, QuoteLine);
  }

  lemma QuoteSettled(q: string)
    requires Literal(q)
    ensures HorizontalRules("<blockquote>" + q + "</blockquote>") == "<blockquote>" + q + "</blockquote>"
    ensures Paragraphs("<blockquote>" + q + "</blockquote>") == "<blockquote>" + q + "</blockquote>"
  {
    var x := "<blockquote>" + q + "</blockquote>";
    assert '\n' !in x && x[0] == '<';
    MapLinesOne(x, DashRuleLine);
    MapLinesOne(x, StarRuleLine);
    Openers();
    ReplaceAllLed(x, ParagraphAt, "\n\n");
  }

  // ---------------------------------------------------------------------
  // Horizontal rules

  lemma DashLine()
    ensures '\n' !in "---" && "---"[0] == '-' && "---"[1] == '-'
    ensures '*' !in "---" && '_' !in "---" && '`' !in "---" && '[' !in "---" && '!' !in "---"
  {
  }

  lemma HrLine()
    ensures '\n' !in "<hr />" && "<hr />"[0] == '<'
  {
  }

  /** A line `---` becomes a horizontal rule. */
  lemma DashRuleDocument()
    ensures ParseMarkdown("---") == "<p><hr /></p>"
  {
    DashLine();
    NoHeading("---");
    InlineKeep("---");
    DashLists();
    DashItems();
    DashRules();
    HrParagraph();
    Through("---", "---", "<hr />");
    DashJoin();
  }

  lemma DashLists()
    ensures UnorderedLists("---") == "---"
  {
    DashLine();
    MapLinesOne("---", StarItemLine);
    MapLinesOne("---", DashItemLine);
    assert StarItemLine("---") == "---";
    assert DashItemLine("---") == "---";
    WrapListNone("---");
  }

  lemma DashItems()
    ensures Blockquotes(OrderedLists("---")) == "---"
  {
    DashLine();
    MapLinesOne("---", OrderedLine);
    MapLinesOne("---", QuoteLine);
    assert QuoteLine("---") == "---";
  }

  lemma DashRules()
    ensures HorizontalRules("---") == "<hr />"
  {
    DashLine();
    HrLine();
    MapLinesOne("---", DashRuleLine);
    MapLinesOne("<hr />", StarRuleLine);
  }

  lemma HrParagraph()
    ensures Paragraphs("<hr />") == "<hr />"
  {
    HrLine();
    Openers();
    ReplaceAllLed("<hr />", ParagraphAt, "\n\n");
  }

  lemma DashJoin()
    ensures "<p>" + "<hr />" + "</p>" == "<p><hr /></p>"
  {
  }

  /** A line `***` never reaches the rule stage: the emphasis rule has
      already turned its first two stars into an empty emphasis. */
  lemma StarRuleDocument()
    ensures ParseMarkdown("***") == "<p><em></em>*</p>"
  {
    var x := "<em></em>*";
    StarLine();
    NoHeading("***");
    StarRuleItalic();
    EmptyEmChars();
    CodeAndLinksKeep(x);
    StarBlocks();
    Through("***", x, x);
    StarJoin();
  }

  lemma StarLine()
    ensures '\n' !in "***" && "***"[0] == '*'
  {
  }

  lemma EmptyEmChars()
    ensures '`' !in "<em></em>*" && '[' !in "<em></em>*" && '!' !in "<em></em>*" && '_' !in "<em></em>*"
    ensures '\n' !in "<em></em>*" && "<em></em>*"[0] == '<'
  {
  }

  lemma StarJoin()
    ensures "<p>" + "<em></em>*" + "</p>" == "<p><em></em>*</p>"
  {
  }

  lemma StarBlocks()
    ensures Paragraphs(Blocks("<em></em>*")) == "<em></em>*"
  {
    StarClear();
    ListFreeByCloses("<em></em>*");
    EmptyEmChars();
    SettledLine("<em></em>*");
  }

  lemma StarClear()
    ensures ClosesClear("<em></em>*")
  {
    EmTag();
    assert "<em>" + "" + "</em>" == "<em></em>";
    ClosesClearAround("<em>", "", "</em>");
    ClosesClearJoin("<em></em>", "*");
  }

  /** `***` is too short for a strong span at any of its positions. */
  lemma StarRuleBold()
    ensures Bold("***") == "***"
  {
    var m := "***";
    assert ReplaceAll(m, StrongStarAt) == m by {
      forall i | 0 <= i < |m| ensures StrongStarAt((m + "")[i..]).None? {
        assert |(m + "")[i..]| < 4;
      }
      ReplaceAllSkip(m, "", StrongStarAt);
      assert m + "" == m;
    }
    OpensStrongUnder();
    ReplaceAllLed(m, StrongUnderAt, "__");
  }

  /** The first two stars of `***` close an empty emphasis; the third has no partner. */
  lemma StarRuleItalic()
    ensures Italic(Bold("***")) == "<em></em>*"
  {
    StarRuleBold();
    StarEmphasis();
    EmptyEmChars();
    OpensEmUnder();
    ReplaceAllLed("<em></em>*", EmUnderAt, "_");
  }

  lemma StarEmphasis()
    ensures ReplaceAll("***", EmStarAt) == "<em></em>*"
  {
    calc {
      ReplaceAll("***", EmStarAt);
      == { StarEmFirst(); }
      "<em></em>" + ReplaceAll("*", EmStarAt);
      == { LoneStar(); }
      "<em></em>" + "*";
      == { EmStarJoin(); }
      "<em></em>*";
    }
  }

  lemma EmStarJoin()
    ensures "<em></em>" + "*" == "<em></em>*"
  {
  }

  lemma StarEmFirst()
    ensures ReplaceAll("***", EmStarAt) == "<em></em>" + ReplaceAll("*", EmStarAt)
  {
    StarEmAt();
    ReplaceAllHit("***", EmStarAt, 2, "<em></em>");
    StarTail();
  }

  lemma StarEmAt()
    ensures EmStarAt("***") == Some(Hit(2, "<em></em>"))
  {
    calc {
      EmStarAt("***");
      == { StarSplit(); }
      DelimitedAt("*" + "" + "*" + "*", "*", "*", false, "<em>", "</em>");
      == { DelimitedAtSpan("*", "", "*", "*", false, "<em>", "</em>"); }
      Some(Hit(|"*"| + |""| + |"*"|, "<em>" + "" + "</em>"));
      == { EmptyEm(); }
      Some(Hit(2, "<em></em>"));
    }
  }

  lemma StarSplit()
    ensures "*" + "" + "*" + "*" == "***"
  {
  }

  lemma EmptyEm()
    ensures |"*"| + |""| + |"*"| == 2 && "<em>" + "" + "</em>" == "<em></em>"
  {
  }

  lemma StarTail()
    ensures "***"[2..] == "*"
  {
  }

  /** A single star is kept. */
  lemma LoneStar()
    ensures ReplaceAll("*", EmStarAt) == "*"
  {
    var s := "*";
    assert EmStarAt(s).None? by {
      assert s == "*" + "";
      DelimitedAtUnclosed("*", "", "*", false, "<em>", "</em>");
    }
    ReplaceAllMiss(s, EmStarAt);
    assert s[1..] == "";
    assert [s[0]] + "" == s;
  }

  // ---------------------------------------------------------------------
  // Strong and emphasis

  lemma StrongTag()
    ensures TagPair("<strong>", "</strong>")
  {
    assert SpanFree("<strong>") && SpanFree("</strong>");
  }

  lemma EmTag()
    ensures TagPair("<em>", "</em>")
  {
    assert SpanFree("<em>") && SpanFree("</em>");
  }

  lemma StrongChars(a: string)
    requires Literal(a)
    ensures '\n' !in "**" + a + "**" && ("**" + a + "**")[0] == '*'
    ensures SpanFree("<strong>" + a + "</strong>")
  {
    StrongTag();
    SpanFreeAround("<strong>", a, "</strong>");
  }

  /** `**a**` becomes strong text. */
  lemma StrongDocument(a: string)
    requires Literal(a)
    ensures ParseMarkdown("**" + a + "**") == "<p><strong>" + a + "</strong></p>"
  {
    var m := "**" + a + "**";
    var x := "<strong>" + a + "</strong>";
    StrongChars(a);
    NoHeading(m);
    StrongBold(a);
    AfterBoldKeep(x);
    StrongTag();
    BlocksKeepAround("<strong>", a, "</strong>");
    Through(m, x, x);
    StrongJoin(a);
  }

  lemma StrongBold(a: string)
    requires Literal(a)
    ensures Bold("**" + a + "**") == "<strong>" + a + "</strong>"
  {
    var m := "**" + a + "**";
    var x := "<strong>" + a + "</strong>";
    StrongChars(a);
    StrongSpan(a, "");
    assert m + "" == m && x + "" == x;
    OpensStrongUnder();
    ReplaceAllLed(x, StrongUnderAt, "__");
  }

  lemma StrongJoin(a: string)
    ensures "<p>" + ("<strong>" + a + "</strong>") + "</p>" == "<p><strong>" + a + "</strong></p>"
  {
    Regroup3("<p>", "<strong>", a, "</strong>", "</p>");
    StrongLiterals();
  }

  lemma StrongLiterals()
    ensures "<p>" + "<strong>" == "<p><strong>" && "</strong>" + "</p>" == "</strong></p>"
  {
  }

  /** The strong rule turns a leading `**a**` into strong text and goes on after it. */
  lemma StrongSpan(a: string, rest: string)
    requires Literal(a)
    ensures ReplaceAll("**" + a + "**" + rest, StrongStarAt)
         == "<strong>" + a + "</strong>" + ReplaceAll(rest, StrongStarAt)
  {
    var m := "**" + a + "**" + rest;
    DelimitedAtSpan("**", a, "**", rest, false, "<strong>", "</strong>");
    ReplaceAllHit(m, StrongStarAt, 4 + |a|, "<strong>" + a + "</strong>");
    assert m[4 + |a|..] == rest;
  }

  /** `*c*` followed by text without stars holds no `**`. */
  lemma SingleStars(c: string, r: string)
    requires c != [] && '*' !in c && '*' !in r
    ensures ReplaceAll("*" + c + "*" + r, StrongStarAt) == "*" + c + "*" + r
  {
    var y := "*" + c + "*" + r;
    forall i | 0 <= i < |y| ensures !OccursAt("**", y, i) {
      if i + 2 <= |y| {
        assert y[i..][0] == y[i] && y[i..][1] == y[i + 1];
        if i == 0 {
          assert y[1] == c[0];
        } else if i <= |c| {
          assert y[i] == c[i - 1];
        } else if i == |c| + 1 {
          assert y[i + 1] == r[0];
        } else {
          assert y[i] == r[i - |c| - 2];
        }
      }
    }
    OpensStrongStar();
    ReplaceAllNoOpen(y, StrongStarAt, "**");
  }

  /** `**a**b*c*` becomes strong text, the text between and emphasis. */
  lemma StrongAndEmphasis(a: string, b: string, c: string)
    requires Literal(a) && Literal(b) && Literal(c) && c != []
    ensures ParseMarkdown("**" + a + "**" + b + "*" + c + "*")
         == "<p><strong>" + a + "</strong>" + b + "<em>" + c + "</em></p>"
  {
    var m := "**" + a + "**" + b + "*" + c + "*";
    var x := ("<strong>" + a + "</strong>") + b + ("<em>" + c + "</em>");
    StrongEmChars(a, b, c);
    NoHeading(m);
    StrongEmInline(a, b, c);
    StrongEmBlocks(a, b, c);
    Through(m, x, x);
    StrongEmJoin(a, b, c);
  }

  lemma StrongEmChars(a: string, b: string, c: string)
    requires Literal(a) && Literal(b) && Literal(c)
    ensures '\n' !in "**" + a + "**" + b + "*" + c + "*" && ("**" + a + "**" + b + "*" + c + "*")[0] == '*'
    ensures SpanFree("<strong>" + a + "</strong>") && SpanFree("<em>" + c + "</em>")
    ensures SpanFree(("<strong>" + a + "</strong>") + b + ("<em>" + c + "</em>"))
  {
    StrongTag();
    EmTag();
    SpanFreeAround("<strong>", a, "</strong>");
    SpanFreeAround("<em>", c, "</em>");
    SpanFreeAround("<strong>" + a + "</strong>", b, "<em>" + c + "</em>");
  }

  lemma StrongEmInline(a: string, b: string, c: string)
    requires Literal(a) && Literal(b) && Literal(c) && c != []
    ensures Inline("**" + a + "**" + b + "*" + c + "*") == ("<strong>" + a + "</strong>") + b + ("<em>" + c + "</em>")
  {
    var s := "<strong>" + a + "</strong>";
    StrongEmChars(a, b, c);
    StrongEmBold(a, b, c);
    StrongEmItalic(s, b, c);
    CodeAndLinksKeep(s + b + ("<em>" + c + "</em>"));
  }

  lemma StrongEmBlocks(a: string, b: string, c: string)
    requires Literal(a) && Literal(b) && Literal(c)
    ensures Paragraphs(Blocks(("<strong>" + a + "</strong>") + b + ("<em>" + c + "</em>")))
         == ("<strong>" + a + "</strong>") + b + ("<em>" + c + "</em>")
  {
    var s := "<strong>" + a + "</strong>";
    var e := "<em>" + c + "</em>";
    StrongTag();
    EmTag();
    ClosesClearAround("<strong>", a, "</strong>");
    ClosesClearAround("<em>", c, "</em>");
    StrongEmChars(a, b, c);
    ClosesClearAround(s, b, e);
    ListFreeByCloses(s + b + e);
    assert (s + b + e)[0] == '<';
    SettledLine(s + b + e);
  }

  lemma StrongEmJoin(a: string, b: string, c: string)
    ensures "<p>" + (("<strong>" + a + "</strong>") + b + ("<em>" + c + "</em>")) + "</p>"
         == "<p><strong>" + a + "</strong>" + b + "<em>" + c + "</em></p>"
  {
    Regroup7("<p>", "<strong>", a, "</strong>", b, "<em>", c, "</em>", "</p>");
    StrongLiterals();
    EmLiterals();
  }

  lemma EmLiterals()
    ensures "</em>" + "</p>" == "</em></p>"
  {
  }

  lemma StrongEmBold(a: string, b: string, c: string)
    requires Literal(a) && Literal(b) && Literal(c) && c != []
    ensures Bold("**" + a + "**" + b + "*" + c + "*") == "<strong>" + a + "</strong>" + b + "*" + c + "*"
  {
    var s := "<strong>" + a + "</strong>";
    var y := "*" + c + "*";
    StrongEmSplit(a, b, c);
    StarsAfter(b, c);
    StrongSpan(a, b + y);
    StrongEmUnderFree(a, b, c);
    OpensStrongUnder();
    ReplaceAllLed(s + b + "*" + c + "*", StrongUnderAt, "__");
  }

  lemma StrongEmSplit(a: string, b: string, c: string)
    ensures "**" + a + "**" + b + "*" + c + "*" == "**" + a + "**" + (b + ("*" + c + "*"))
    ensures "<strong>" + a + "</strong>" + b + "*" + c + "*" == ("<strong>" + a + "</strong>") + (b + ("*" + c + "*"))
  {
  }

  /** Text without stars followed by `*c*` holds no `**`. */
  lemma StarsAfter(b: string, c: string)
    requires Literal(b) && Literal(c) && c != []
    ensures ReplaceAll(b + ("*" + c + "*"), StrongStarAt) == b + ("*" + c + "*")
  {
    var y := "*" + c + "*";
    OpensStrongStar();
    ReplaceAllSkipLed(b, y, StrongStarAt, "**");
    SingleStars(c, "");
    assert y + "" == y;
  }

  lemma StrongEmUnderFree(a: string, b: string, c: string)
    requires Literal(a) && Literal(b) && Literal(c)
    ensures '_' !in "<strong>" + a + "</strong>" + b + "*" + c + "*"
  {
    StrongChars(a);
  }

  lemma StrongEmItalic(s: string, b: string, c: string)
    requires '*' !in s && '_' !in s && Literal(b) && Literal(c)
    ensures Italic(s + b + "*" + c + "*") == s + b + ("<em>" + c + "</em>")
  {
    var y := "*" + c + "*";
    var e := "<em>" + c + "</em>";
    assert ReplaceAll(y, EmStarAt) == e by {
      DelimitedAtSpan("*", c, "*", "", false, "<em>", "</em>");
      assert y + "" == y;
      ReplaceAllHit(y, EmStarAt, |c| + 2, e);
      assert y[|c| + 2..] == "";
      assert e + "" == e;
    }
    assert ReplaceAll(s + b + "*" + c + "*", EmStarAt) == s + b + e by {
      assert s + b + "*" + c + "*" == (s + b) + y;
      OpensEmStar();
      ReplaceAllSkipLed(s + b, y, EmStarAt, "*");
    }
    OpensEmUnder();
    ReplaceAllLed(s + b + e, EmUnderAt, "_");
  }

  // ---------------------------------------------------------------------
  // Lists

  /** Two `* ` items become two list items inside one `<ul>`. */
  lemma ListDocument(a: string, b: string)
    requires Literal(a) && Literal(b)
    ensures ParseMarkdown("* " + a + "\n* " + b) == "<p><ul><li>" + a + "</li>\n<li>" + b + "</li></ul>" + "</p>"
  {
    var m := ("* " + a) + "\n" + ("* " + b);
    var y := "<ul><li>" + a + "</li>" + "\n" + "<li>" + b + "</li></ul>";
    ListSplit(a, b);
    ListHeadings(a, b);
    ListInline(a, b);
    ListBlocks(a, b);
    Through(m, m, y);
    ListJoin(a, b);
  }

  lemma ListSplit(a: string, b: string)
    ensures "* " + a + "\n* " + b == ("* " + a) + "\n" + ("* " + b)
  {
  }

  lemma ListHeadings(a: string, b: string)
    requires Literal(a) && Literal(b)
    ensures Headings(("* " + a) + "\n" + ("* " + b)) == ("* " + a) + "\n" + ("* " + b)
  {
    var l1 := "* " + a;
    var l2 := "* " + b;
    assert '\n' !in l1 && '\n' !in l2 && l1[0] == '*' && l2[0] == '*';
    LinesAvoidTwo(l1, l2, '#');
    HeadingsKeep(l1 + "\n" + l2);
  }

  lemma ListJoin(a: string, b: string)
    ensures "<p>" + ("<ul><li>" + a + "</li>" + "\n" + "<li>" + b + "</li></ul>") + "</p>"
         == "<p><ul><li>" + a + "</li>\n<li>" + b + "</li></ul>" + "</p>"
  {
    Regroup5("<p>", "<ul><li>", a, "</li>" + "\n" + "<li>", b, "</li></ul>", "</p>");
    ListLiterals();
  }

  lemma ListLiterals()
    ensures "<p>" + "<ul><li>" == "<p><ul><li>" && "</li></ul>" + "</p>" == "</li></ul></p>"
    ensures "</li>" + "\n" + "<li>" == "</li>\n<li>"
  {
  }

  lemma ListChars(a: string, b: string)
    requires Literal(a) && Literal(b)
    ensures '`' !in ("* " + a) + "\n" + ("* " + b) && '[' !in ("* " + a) + "\n" + ("* " + b)
    ensures '!' !in ("* " + a) + "\n" + ("* " + b) && '_' !in ("* " + a) + "\n" + ("* " + b)
  {
  }

  /** No span rule fires on two `* ` items. */
  lemma ListInline(a: string, b: string)
    requires Literal(a) && Literal(b)
    ensures Inline(("* " + a) + "\n" + ("* " + b)) == ("* " + a) + "\n" + ("* " + b)
  {
    var m := ("* " + a) + "\n" + ("* " + b);
    ListBold(a, b);
    EmAcrossBreak(a, b);
    ListChars(a, b);
    OpensEmUnder();
    ReplaceAllLed(m, EmUnderAt, "_");
    CodeAndLinksKeep(m);
  }

  /** Every star of two `* ` items is followed by a space, so there is no `**`. */
  lemma ListBold(a: string, b: string)
    requires Literal(a) && Literal(b)
    ensures Bold(("* " + a) + "\n" + ("* " + b)) == ("* " + a) + "\n" + ("* " + b)
  {
    var l2 := "* " + b;
    var p := " " + a + "\n";
    var m := ("* " + a) + "\n" + l2;
    assert m == "*" + p + l2;
    forall i | 0 <= i < |m| ensures !OccursAt("**", m, i) {
      if i + 2 <= |m| {
        assert m[i..][0] == m[i] && m[i..][1] == m[i + 1];
        if i == 0 {
        } else if i <= |a| + 2 {
          assert m[i] == p[i - 1];
        } else {
          assert m[i] == l2[i - |a| - 3];
          assert m[i + 1] == l2[i - |a| - 2];
        }
      }
    }
    OpensStrongStar();
    ReplaceAllNoOpen(m, StrongStarAt, "**");
    ListChars(a, b);
    OpensStrongUnder();
    ReplaceAllLed(m, StrongUnderAt, "__");
  }

  /** A star finds its partner only on its own line: the stars of two `* `
      items make no emphasis. */
  lemma EmAcrossBreak(a: string, b: string)
    requires Literal(a) && Literal(b)
    ensures ReplaceAll(("* " + a) + "\n" + ("* " + b), EmStarAt) == ("* " + a) + "\n" + ("* " + b)
  {
    var m := ("* " + a) + "\n" + ("* " + b);
    var p := " " + a + "\n";
    var l2 := "* " + b;
    calc {
      ReplaceAll(m, EmStarAt);
      == { ItemPairSplit(a, b); }
      ReplaceAll("*" + p + l2, EmStarAt);
      == { MissAtStar(p, l2); }
      "*" + ReplaceAll(p + l2, EmStarAt);
      == { SpaceLineKept(a, b); }
      "*" + (p + l2);
      == { ItemPairSplit(a, b); }
      m;
    }
  }

  lemma ItemPairSplit(a: string, b: string)
    ensures ("* " + a) + "\n" + ("* " + b) == "*" + (" " + a + "\n") + ("* " + b)
    ensures ("* " + a) + "\n" + ("* " + b) == "*" + ((" " + a + "\n") + ("* " + b))
  {
  }

  /** A star whose line ends before any other star opens no emphasis. */
  lemma MissAtStar(p: string, rest: string)
    requires '*' !in p && '\n' in p
    ensures ReplaceAll("*" + p + rest, EmStarAt) == "*" + ReplaceAll(p + rest, EmStarAt)
  {
    var t := "*" + p + rest;
    DelimitedAtStopsAtLineBreak("*", p, rest, "*", "<em>", "</em>");
    ReplaceAllMiss(t, EmStarAt);
    assert t[1..] == p + rest;
    assert [t[0]] == "*";
  }

  /** The rest of the first item, its line break and the second item hold no emphasis. */
  lemma SpaceLineKept(a: string, b: string)
    requires Literal(a) && Literal(b)
    ensures ReplaceAll((" " + a + "\n") + ("* " + b), EmStarAt) == (" " + a + "\n") + ("* " + b)
  {
    var p := " " + a + "\n";
    assert '*' !in p;
    OpensEmStar();
    ReplaceAllSkipLed(p, "* " + b, EmStarAt, "*");
    SecondItemKept(b);
  }

  /** A lone `* ` item holds no emphasis. */
  lemma SecondItemKept(b: string)
    requires Literal(b)
    ensures ReplaceAll("* " + b, EmStarAt) == "* " + b
  {
    var l2 := "* " + b;
    assert l2 == "*" + (" " + b);
    DelimitedAtUnclosed("*", " " + b, "*", false, "<em>", "</em>");
    ReplaceAllMiss(l2, EmStarAt);
    assert l2[1..] == " " + b;
    assert '*' !in " " + b;
    OpensEmStar();
    ReplaceAllLed(" " + b, EmStarAt, "*");
    assert [l2[0]] + (" " + b) == l2;
  }

  /** Two `* ` items become list items, wrapped once in `<ul>`, and the later
      block stages keep them. */
  lemma ListBlocks(a: string, b: string)
    requires Literal(a) && Literal(b)
    ensures Paragraphs(Blocks(("* " + a) + "\n" + ("* " + b)))
         == "<ul><li>" + a + "</li>" + "\n" + "<li>" + b + "</li></ul>"
  {
    ListItems(a, b);
    WrapItems(a, b);
    ListWrapSplit(a, b);
    ListLate(a, b);
  }

  /** Both `* ` lines become list items. */
  lemma ListItems(a: string, b: string)
    requires Literal(a) && Literal(b)
    ensures MapLines(MapLines(("* " + a) + "\n" + ("* " + b), StarItemLine), DashItemLine)
         == ("<li>" + a + "</li>") + "\n" + ("<li>" + b + "</li>")
  {
    var l1 := "* " + a;
    var l2 := "* " + b;
    var i1 := "<li>" + a + "</li>";
    var i2 := "<li>" + b + "</li>";
    assert l1[2..] == a && l2[2..] == b;
    assert '\n' !in l1 && '\n' !in l2 && '\n' !in i1 && '\n' !in i2;
    MapLinesFirst(l1, l2, StarItemLine);
    MapLinesOne(l2, StarItemLine);
    MapLinesFirst(i1, i2, DashItemLine);
    MapLinesOne(i2, DashItemLine);
  }

  lemma ListWrapSplit(a: string, b: string)
    ensures "<ul>" + (("<li>" + a + "</li>") + "\n" + ("<li>" + b + "</li>")) + "</ul>"
         == ("<ul><li>" + a + "</li>") + "\n" + ("<li>" + b + "</li></ul>")
  {
    ListWrapLiterals();
  }

  lemma ListWrapLiterals()
    ensures "<ul>" + "<li>" == "<ul><li>" && "</li>" + "</ul>" == "</li></ul>"
  {
  }

  lemma ListLate(a: string, b: string)
    requires Literal(a) && Literal(b)
    ensures Paragraphs(HorizontalRules(Blockquotes(OrderedLists(("<ul><li>" + a + "</li>") + "\n" + ("<li>" + b + "</li></ul>")))))
         == ("<ul><li>" + a + "</li>") + "\n" + ("<li>" + b + "</li></ul>")
  {
    var first := "<ul><li>" + a + "</li>";
    var last := "<li>" + b + "</li></ul>";
    assert '\n' !in first && '\n' !in last && first[0] == '<' && last[0] == '<';
    TagLinesTwo(first, last);
    LateBlocksKeep(first + "\n" + last);
    ParagraphsOneBreak(first, last);
  }

  /** The list wrap spans from the first item to the end of the last. */
  lemma WrapItems(a: string, b: string)
    requires Literal(a) && Literal(b)
    ensures WrapList(("<li>" + a + "</li>") + "\n" + ("<li>" + b + "</li>"))
         == "<ul>" + (("<li>" + a + "</li>") + "\n" + ("<li>" + b + "</li>")) + "</ul>"
  {
    var w := ("<li>" + a + "</li>") + "\n" + ("<li>" + b + "</li>");
    var j := |w| - 5;
    assert w[j..] == "</li>";
    assert w[..4] == "<li>";
    WrapListSpan(w, 0, j);
    assert w[..0] == "" && w[0..j + 5] == w && w[j + 5..] == "";
  }

  /** Two numbered items become two list items and no list container. */
  lemma OrderedDocument(n1: string, a: string, n2: string, b: string)
    requires n1 != [] && forall i :: 0 <= i < |n1| ==> IsDigit(n1[i])
    requires n2 != [] && forall i :: 0 <= i < |n2| ==> IsDigit(n2[i])
    requires Literal(a) && Literal(b)
    ensures ParseMarkdown(n1 + ". " + a + "\n" + n2 + ". " + b) == "<p><li>" + a + "</li>\n<li>" + b + "</li></p>"
  {
    var m := (n1 + ". " + a) + "\n" + (n2 + ". " + b);
    var y := ("<li>" + a + "</li>") + "\n" + ("<li>" + b + "</li>");
    OrderedSplit(n1, a, n2, b);
    OrderedKeepsUntilItems(n1, a, n2, b);
    OrderedItems(n1, a, n2, b);
    OrderedLate(a, b);
    Through(m, m, y);
    OrderedJoin(a, b);
  }

  lemma OrderedSplit(n1: string, a: string, n2: string, b: string)
    ensures n1 + ". " + a + "\n" + n2 + ". " + b == (n1 + ". " + a) + "\n" + (n2 + ". " + b)
  {
  }

  lemma OrderedJoin(a: string, b: string)
    ensures "<p>" + (("<li>" + a + "</li>") + "\n" + ("<li>" + b + "</li>")) + "</p>"
         == "<p><li>" + a + "</li>\n<li>" + b + "</li></p>"
  {
    Regroup5("<p>", "<li>", a, "</li>" + "\n" + "<li>", b, "</li>", "</p>");
    OrderedLiterals();
  }

  lemma OrderedLiterals()
    ensures "<p>" + "<li>" == "<p><li>" && "</li>" + "</p>" == "</li></p>"
    ensures "</li>" + "\n" + "<li>" == "</li>\n<li>"
  {
  }

  /** A numbered line holds no line break, and it starts with a digit. */
  lemma NumberedLine(n: string, r: string)
    requires n != [] && forall i :: 0 <= i < |n| ==> IsDigit(n[i])
    requires Literal(r)
    ensures '\n' !in n + ". " + r && IsDigit((n + ". " + r)[0])
    ensures '*' !in n + ". " + r && '_' !in n + ". " + r && '`' !in n + ". " + r
    ensures '[' !in n + ". " + r && '!' !in n + ". " + r && '>' !in n + ". " + r
  {
    assert forall c :: c in n ==> IsDigit(c);
    assert (n + ". " + r)[0] == n[0];
  }

  lemma OrderedItems(n1: string, a: string, n2: string, b: string)
    requires n1 != [] && forall i :: 0 <= i < |n1| ==> IsDigit(n1[i])
    requires n2 != [] && forall i :: 0 <= i < |n2| ==> IsDigit(n2[i])
    requires Literal(a) && Literal(b)
    ensures OrderedLists((n1 + ". " + a) + "\n" + (n2 + ". " + b)) == ("<li>" + a + "</li>") + "\n" + ("<li>" + b + "</li>")
  {
    var l1 := n1 + ". " + a;
    var l2 := n2 + ". " + b;
    NumberedLine(n1, a);
    NumberedLine(n2, b);
    MapLinesFirst(l1, l2, OrderedLine);
    MapLinesOne(l2, OrderedLine);
    OrderedLineOf(n1, a);
    OrderedLineOf(n2, b);
  }

  lemma OrderedLate(a: string, b: string)
    requires Literal(a) && Literal(b)
    ensures Paragraphs(HorizontalRules(Blockquotes(("<li>" + a + "</li>") + "\n" + ("<li>" + b + "</li>"))))
         == ("<li>" + a + "</li>") + "\n" + ("<li>" + b + "</li>")
  {
    var i1 := "<li>" + a + "</li>";
    var i2 := "<li>" + b + "</li>";
    assert '\n' !in i1 && '\n' !in i2 && i1[0] == '<' && i2[0] == '<';
    TagLinesTwo(i1, i2);
    QuotesAndRulesKeep(i1 + "\n" + i2);
    ParagraphsOneBreak(i1, i2);
  }

  /** Numbered lines pass the headings, span and unordered-list stages unchanged. */
  lemma OrderedKeepsUntilItems(n1: string, a: string, n2: string, b: string)
    requires n1 != [] && forall i :: 0 <= i < |n1| ==> IsDigit(n1[i])
    requires n2 != [] && forall i :: 0 <= i < |n2| ==> IsDigit(n2[i])
    requires Literal(a) && Literal(b)
    ensures Headings((n1 + ". " + a) + "\n" + (n2 + ". " + b)) == (n1 + ". " + a) + "\n" + (n2 + ". " + b)
    ensures Inline((n1 + ". " + a) + "\n" + (n2 + ". " + b)) == (n1 + ". " + a) + "\n" + (n2 + ". " + b)
    ensures UnorderedLists((n1 + ". " + a) + "\n" + (n2 + ". " + b)) == (n1 + ". " + a) + "\n" + (n2 + ". " + b)
  {
    var l1 := n1 + ". " + a;
    var l2 := n2 + ". " + b;
    var m := l1 + "\n" + l2;
    NumberedLine(n1, a);
    NumberedLine(n2, b);
    NumberedPair(l1, l2);
    LinesAvoidTwo(l1, l2, '#');
    HeadingsKeep(m);
    InlineKeep(m);
    NumberedLists(l1, l2);
  }

  /** Two lines joined by a line break hold only what the lines hold. */
  lemma NumberedPair(l1: string, l2: string)
    requires '*' !in l1 && '_' !in l1 && '`' !in l1 && '[' !in l1 && '!' !in l1 && '>' !in l1
    requires '*' !in l2 && '_' !in l2 && '`' !in l2 && '[' !in l2 && '!' !in l2 && '>' !in l2
    ensures '*' !in l1 + "\n" + l2 && '_' !in l1 + "\n" + l2 && '`' !in l1 + "\n" + l2
    ensures '[' !in l1 + "\n" + l2 && '!' !in l1 + "\n" + l2 && '>' !in l1 + "\n" + l2
  {
  }

  lemma NumberedLists(l1: string, l2: string)
    requires '\n' !in l1 && '\n' !in l2 && l1 != [] && l2 != [] && IsDigit(l1[0]) && IsDigit(l2[0])
    requires '>' !in l1 + "\n" + l2
    ensures UnorderedLists(l1 + "\n" + l2) == l1 + "\n" + l2
  {
    var m := l1 + "\n" + l2;
    LinesAvoidTwo(l1, l2, '*');
    LinesAvoidTwo(l1, l2, '-');
    LineRuleKeep(m, StarItemLine, '*');
    LineRuleKeep(m, DashItemLine, '-');
    ListFreeByCloses(m);
    WrapListNone(m);
  }

  // ---------------------------------------------------------------------
  // Links and images

  /** The span stages before links keep text without * _ and `. */
  lemma BeforeLinksKeep(m: string)
    requires '*' !in m && '_' !in m && '`' !in m
    ensures InlineCode(CodeBlocks(Italic(Bold(m)))) == m
  {
    Openers();
    ReplaceAllLed(m, StrongStarAt, "**");
    ReplaceAllLed(m, StrongUnderAt, "__");
    ReplaceAllLed(m, EmStarAt, "*");
    ReplaceAllLed(m, EmUnderAt, "_");
    ReplaceAllLed(m, FenceAt, "```");
    ReplaceAllLed(m, InlineCodeAt, "`");
  }

  /** The source form of a link over literal text and URL: one line that
      starts with `[` and holds no emphasis or code marker. */
  lemma FormChars(t: string, u: string)
    requires Literal(t) && Literal(u)
    ensures '\n' !in Form(Bracketed(t, u)) && Form(Bracketed(t, u))[0] == '['
    ensures '*' !in Form(Bracketed(t, u)) && '_' !in Form(Bracketed(t, u)) && '`' !in Form(Bracketed(t, u))
    ensures '\n' !in "!" + Form(Bracketed(t, u)) && ("!" + Form(Bracketed(t, u)))[0] == '!'
    ensures '*' !in "!" + Form(Bracketed(t, u)) && '_' !in "!" + Form(Bracketed(t, u)) && '`' !in "!" + Form(Bracketed(t, u))
  {
  }

  /** `[t](u)` becomes an anchor that opens in a new tab. */
  lemma LinkDocument(t: string, u: string)
    requires Literal(t) && Literal(u) && t != [] && ']' !in t && u != [] && ')' !in u
    ensures ParseMarkdown(Form(Bracketed(t, u))) == "<p>" + Anchor(Bracketed(t, u)) + "</p>"
  {
    var m := Form(Bracketed(t, u));
    var x := Anchor(Bracketed(t, u));
    FormChars(t, u);
    NoHeading(m);
    LinkInline(t, u);
    AnchorSettled(t, u);
    Through(m, x, x);
  }

  lemma LinkInline(t: string, u: string)
    requires Literal(t) && Literal(u) && t != [] && ']' !in t && u != [] && ')' !in u
    ensures Inline(Form(Bracketed(t, u))) == Anchor(Bracketed(t, u))
  {
    var m := Form(Bracketed(t, u));
    var x := Anchor(Bracketed(t, u));
    FormChars(t, u);
    BeforeLinksKeep(m);
    LinkReplace(t, u);
    AnchorChars(t, u);
    Openers();
    ReplaceAllLed(x, ImageAt, "!");
  }

  /** The link rule takes the whole source form at once. */
  lemma LinkReplace(t: string, u: string)
    requires t != [] && ']' !in t && u != [] && ')' !in u
    ensures ReplaceAll(Form(Bracketed(t, u)), LinkAt) == Anchor(Bracketed(t, u))
  {
    var m := Form(Bracketed(t, u));
    var x := Anchor(Bracketed(t, u));
    LinkAtMatch(t, u, "");
    assert m + "" == m;
    ReplaceAllHit(m, LinkAt, |m|, x);
    assert m[|m|..] == "";
    assert x + "" == x;
  }

  lemma AnchorChars(t: string, u: string)
    requires Literal(t) && Literal(u)
    ensures '!' !in Anchor(Bracketed(t, u)) && '\n' !in Anchor(Bracketed(t, u)) && Anchor(Bracketed(t, u))[0] == '<'
  {
  }

  /** An anchor around literal text and URL passes the block stages unchanged. */
  lemma AnchorSettled(t: string, u: string)
    requires Literal(t) && Literal(u)
    ensures ClosesClear(Anchor(Bracketed(t, u)))
    ensures Paragraphs(Blocks(Anchor(Bracketed(t, u)))) == Anchor(Bracketed(t, u))
  {
    var x := Anchor(Bracketed(t, u));
    AnchorTags();
    ClosesClearAround("<a href=\"", u, "\" target=\"_blank\">");
    ClosesClearAround("<a href=\"" + u + "\" target=\"_blank\">", t, "</a>");
    ListFreeByCloses(x);
    AnchorChars(t, u);
    SettledLine(x);
  }

  lemma AnchorTags()
    ensures ClosesClear("<a href=\"") && ClosesClear("\" target=\"_blank\">") && ClosesClear("</a>")
    ensures ClosesClear("<img src=\"") && ClosesClear("\" alt=\"\" style=\"max-width: 100%;\" />")
  {
  }

  /** `![t](u)` with a non-empty `t` is first taken by the link rule: the
      output is a `!` and an anchor, never an image. */
  lemma ImageWithTextDocument(t: string, u: string)
    requires Literal(t) && Literal(u) && t != [] && ']' !in t && u != [] && ')' !in u
    ensures ParseMarkdown("!" + Form(Bracketed(t, u))) == "<p>!" + Anchor(Bracketed(t, u)) + "</p>"
  {
    var m := "!" + Form(Bracketed(t, u));
    var x := Anchor(Bracketed(t, u));
    FormChars(t, u);
    NoHeading(m);
    BangLinkInline(t, u);
    BangAnchorSettled(t, u);
    Through(m, "!" + x, "!" + x);
    BangJoin(x);
  }

  lemma BangLinkInline(t: string, u: string)
    requires Literal(t) && Literal(u) && t != [] && ']' !in t && u != [] && ')' !in u
    ensures Inline("!" + Form(Bracketed(t, u))) == "!" + Anchor(Bracketed(t, u))
  {
    var f := Form(Bracketed(t, u));
    var x := Anchor(Bracketed(t, u));
    FormChars(t, u);
    BeforeLinksKeep("!" + f);
    assert ReplaceAll("!" + f, LinkAt) == "!" + x by {
      Openers();
      BangFree();
      ReplaceAllSkipLed("!", f, LinkAt, "[");
      LinkReplace(t, u);
    }
    BangImages(t, u);
  }

  lemma BangFree()
    ensures '[' !in "!" && "["[0] == '['
  {
  }

  /** The image rule finds no image in `!` and an anchor. */
  lemma BangImages(t: string, u: string)
    requires Literal(t) && Literal(u)
    ensures ReplaceAll("!" + Anchor(Bracketed(t, u)), ImageAt) == "!" + Anchor(Bracketed(t, u))
  {
    var x := Anchor(Bracketed(t, u));
    AnchorChars(t, u);
    assert ("!" + x)[1..] == x && ("!" + x)[0] == '!';
    assert ImageAt("!" + x).None? by {
      assert x[0] == '<';
    }
    ReplaceAllMiss("!" + x, ImageAt);
    Openers();
    ReplaceAllLed(x, ImageAt, "!");
  }

  lemma BangAnchorSettled(t: string, u: string)
    requires Literal(t) && Literal(u)
    ensures Paragraphs(Blocks("!" + Anchor(Bracketed(t, u)))) == "!" + Anchor(Bracketed(t, u))
  {
    var x := Anchor(Bracketed(t, u));
    AnchorSettled(t, u);
    AnchorChars(t, u);
    BangClear();
    ClosesClearJoin("!", x);
    ListFreeByCloses("!" + x);
    assert ("!" + x)[0] == '!' && '\n' !in "!" + x;
    SettledLine("!" + x);
  }

  lemma BangClear()
    ensures ClosesClear("!")
  {
  }

  lemma BangJoin(x: string)
    ensures "<p>" + ("!" + x) + "</p>" == "<p>!" + x + "</p>"
  {
    assert "<p>" + ("!" + x) + "</p>" == ("<p>" + "!") + x + "</p>";
    BangLiterals();
  }

  lemma BangLiterals()
    ensures "<p>" + "!" == "<p>!"
  {
  }

  /** `![](u)` becomes an image. */
  lemma ImageDocument(u: string)
    requires Literal(u) && u != [] && ')' !in u
    ensures ParseMarkdown("!" + Form(Bracketed("", u))) == "<p>" + ImageTag(Bracketed("", u)) + "</p>"
  {
    var m := "!" + Form(Bracketed("", u));
    var x := ImageTag(Bracketed("", u));
    LiteralEmpty();
    FormChars("", u);
    NoHeading(m);
    ImageInline(u);
    ImageSettled(u);
    Through(m, x, x);
  }

  lemma LiteralEmpty()
    ensures Literal("")
  {
  }

  lemma ImageInline(u: string)
    requires Literal(u) && u != [] && ')' !in u
    ensures Inline("!" + Form(Bracketed("", u))) == ImageTag(Bracketed("", u))
  {
    var m := "!" + Form(Bracketed("", u));
    var x := ImageTag(Bracketed("", u));
    LiteralEmpty();
    FormChars("", u);
    BeforeLinksKeep(m);
    EmptyTextNoLink(u);
    ImageReplace(u);
  }

  /** The image rule takes the whole `![](u)` at once. */
  lemma ImageReplace(u: string)
    requires u != [] && ')' !in u
    ensures ReplaceAll("!" + Form(Bracketed("", u)), ImageAt) == ImageTag(Bracketed("", u))
  {
    var m := "!" + Form(Bracketed("", u));
    var x := ImageTag(Bracketed("", u));
    calc {
      ReplaceAll(m, ImageAt);
      == { ImageAtWhole(u); ReplaceAllHit(m, ImageAt, |m|, x); }
      x + ReplaceAll(m[|m|..], ImageAt);
      == { assert m[|m|..] == ""; }
      x + "";
      == x;
    }
  }

  lemma ImageAtWhole(u: string)
    requires u != [] && ')' !in u
    ensures ImageAt("!" + Form(Bracketed("", u))) == Some(Hit(|"!" + Form(Bracketed("", u))|, ImageTag(Bracketed("", u))))
  {
    var f := Form(Bracketed("", u));
    var m := "!" + f;
    calc {
      ImageAt(m);
      == { assert m + "" == m; }
      ImageAt(m + "");
      == { ImageAtMatch("", u, ""); }
      Some(Hit(1 + |f|, ImageTag(Bracketed("", u))));
      == { assert |m| == 1 + |f|; }
      Some(Hit(|m|, ImageTag(Bracketed("", u))));
    }
  }

  lemma ImageSettled(u: string)
    requires Literal(u)
    ensures Paragraphs(Blocks(ImageTag(Bracketed("", u)))) == ImageTag(Bracketed("", u))
  {
    var x := ImageTag(Bracketed("", u));
    var tail := "\" alt=\"\" style=\"max-width: 100%;\" />";
    ImageSplit(u);
    AnchorTags();
    ClosesClearAround("<img src=\"", u, tail);
    ListFreeByCloses(x);
    SettledLine(x);
  }

  lemma ImageSplit(u: string)
    requires Literal(u)
    ensures ImageTag(Bracketed("", u)) == "<img src=\"" + u + "\" alt=\"\" style=\"max-width: 100%;\" />"
    ensures '\n' !in ImageTag(Bracketed("", u)) && ImageTag(Bracketed("", u))[0] == '<'
  {
    var tail := "\" alt=\"\" style=\"max-width: 100%;\" />";
    ImageTailJoin();
    ImageTailFree();
    ImageHeadFree();
    assert ImageTag(Bracketed("", u)) == "<img src=\"" + u + tail;
  }

  lemma ImageTailJoin()
    ensures "\" alt=\"" + "" + "\" style=\"max-width: 100%;\" />" == "\" alt=\"\" style=\"max-width: 100%;\" />"
  {
  }

  lemma ImageTailFree()
    ensures '\n' !in "\" alt=\"\" style=\"max-width: 100%;\" />"
  {
  }

  lemma ImageHeadFree()
    ensures '\n' !in "<img src=\"" && "<img src=\""[0] == '<'
  {
  }

  /** The link rule does not fire on `![](u)`: a link needs text. */
  lemma EmptyTextNoLink(u: string)
    requires Literal(u) && ')' !in u
    ensures Links("!" + Form(Bracketed("", u))) == "!" + Form(Bracketed("", u))
  {
    var r := "(" + u + ")";
    var f := Form(Bracketed("", u));
    assert f == "[]" + r;
    Openers();
    BangFree();
    ReplaceAllSkipLed("!", f, LinkAt, "[");
    LinkAtEmptyText(r);
    ReplaceAllMiss(f, LinkAt);
    assert f[1..] == "]" + r;
    assert '[' !in "]" + r;
    ReplaceAllLed("]" + r, LinkAt, "[");
    assert [f[0]] + ("]" + r) == f;
  }

  // ---------------------------------------------------------------------
  // Code

  /** A fenced block becomes preformatted code, line breaks included, and the
      inline-code rule finds nothing left to rewrite. */
  lemma FenceStage(b: string)
    requires '`' !in b
    ensures InlineCode(CodeBlocks("```" + b + "```")) == "<pre><code>" + b + "</code></pre>"
  {
    var m := "```" + b + "```";
    var x := "<pre><code>" + b + "</code></pre>";
    assert CodeBlocks(m) == x by {
      DelimitedAtSpan("```", b, "```", "", true, "<pre><code>", "</code></pre>");
      assert m + "" == m;
      ReplaceAllHit(m, FenceAt, |m|, x);
      assert m[|m|..] == "";
      assert x + "" == x;
    }
    Openers();
    ReplaceAllLed(x, InlineCodeAt, "`");
  }

  /** Emphasis inside backticks is rewritten before the code rule runs, so
      the code element holds an emphasis element. */
  lemma CodeAroundEmphasis(x: string)
    requires x != [] && '*' !in x && '_' !in x && '`' !in x && '\n' !in x
    ensures InlineCode(Italic(Bold("`*" + x + "*`"))) == "<code><em>" + x + "</em></code>"
  {
    var e := "<em>" + x + "</em>";
    CodeBold(x);
    CodeItalic(x);
    assert e != [] && '`' !in e;
    InlineCodeSpan(e);
    CodeJoin(x);
  }

  lemma CodeJoin(x: string)
    ensures "<code>" + ("<em>" + x + "</em>") + "</code>" == "<code><em>" + x + "</em></code>"
  {
    Regroup3("<code>", "<em>", x, "</em>", "</code>");
    CodeLiterals();
  }

  lemma CodeLiterals()
    ensures "<code>" + "<em>" == "<code><em>" && "</em>" + "</code>" == "</em></code>"
  {
  }

  /** A backtick, then `*x*` and a backtick. */
  lemma CodeSplit(x: string)
    ensures "`*" + x + "*`" == "`" + ("*" + x + "*" + "`")
  {
  }

  lemma CodeBold(x: string)
    requires x != [] && '*' !in x && '_' !in x && '`' !in x && '\n' !in x
    ensures Bold("`*" + x + "*`") == "`*" + x + "*`"
  {
    var m := "`*" + x + "*`";
    CodeSplit(x);
    BacktickFree();
    OpensStrongStar();
    OpensStrongUnder();
    ReplaceAllSkipLed("`", "*" + x + "*" + "`", StrongStarAt, "**");
    SingleStars(x, "`");
    assert '_' !in m;
    ReplaceAllLed(m, StrongUnderAt, "__");
  }

  lemma BacktickFree()
    ensures '*' !in "`" && "**"[0] == '*' && "*"[0] == '*'
  {
  }

  lemma CodeItalic(x: string)
    requires x != [] && '*' !in x && '_' !in x && '`' !in x && '\n' !in x
    ensures Italic("`*" + x + "*`") == "`" + ("<em>" + x + "</em>") + "`"
  {
    var e := "<em>" + x + "</em>";
    var y := "`" + e + "`";
    CodeSplit(x);
    CodeEmphasis(x);
    BacktickFree();
    OpensEmStar();
    ReplaceAllSkipLed("`", "*" + x + "*" + "`", EmStarAt, "*");
    assert "`" + (e + "`") == y;
    assert '_' !in y;
    OpensEmUnder();
    ReplaceAllLed(y, EmUnderAt, "_");
  }

  lemma CodeEmphasis(x: string)
    requires x != [] && '*' !in x && '\n' !in x
    ensures ReplaceAll("*" + x + "*" + "`", EmStarAt) == ("<em>" + x + "</em>") + "`"
  {
    var e := "<em>" + x + "</em>";
    DelimitedAtSpan("*", x, "*", "`", false, "<em>", "</em>");
    ReplaceAllHit("*" + x + "*" + "`", EmStarAt, |x| + 2, e);
    assert ("*" + x + "*" + "`")[|x| + 2..] == "`";
    LoneBacktick();
  }

  /** A single backtick is kept by the emphasis rule. */
  lemma LoneBacktick()
    ensures ReplaceAll("`", EmStarAt) == "`"
  {
    var s := "`";
    assert EmStarAt(s).None?;
    ReplaceAllMiss(s, EmStarAt);
    assert s[1..] == "";
    assert [s[0]] + "" == s;
  }
}
