/** The Markdown converter of the editor: an ordered chain of nineteen
    pattern rewrites over one text, each modelled by a dedicated scanner,
    and one outer paragraph around the result.
    Line rules (`^…` under the `m` flag) act on every line separately;
    span rules are global, leftmost-first and non-overlapping. */
module Markdown {
  import opened Text
  import opened Rewrite

  // ---------------------------------------------------------------------
  // Line rules

  /** A line that starts with `marker` becomes `open`, the rest of the line
      and `close`; any other line stays as it is (`^marker(.*$)`). */
  function PrefixLine(line: string, marker: string, open: string, close: string): string
  {
    if marker <= line then open + line[|marker|..] + close else line
  }

  function H3Line(line: string): string { PrefixLine(line, "### ", "<h3>", "</h3>") }
  function H2Line(line: string): string { PrefixLine(line, "## ", "<h2>", "</h2>") }
  function H1Line(line: string): string { PrefixLine(line, "# ", "<h1>", "</h1>") }
  function StarItemLine(line: string): string { PrefixLine(line, "* ", "<li>", "</li>") }
  function DashItemLine(line: string): string { PrefixLine(line, "- ", "<li>", "</li>") }
  function QuoteLine(line: string): string { PrefixLine(line, "> ", "<blockquote>", "</blockquote>") }

  /** What the three heading rules together do to one line. */
  function HeadingLine(line: string): string { H1Line(H2Line(H3Line(line))) }

  predicate IsDigit(c: char) { '0' <= c <= '9' }

  /** The number of decimal digits at the start of `line` (what `^\d+` takes). */
  function LeadingDigits(line: string): (n: nat)
    ensures n <= |line|
    ensures forall i :: 0 <= i < n ==> IsDigit(line[i])
    ensures n < |line| ==> !IsDigit(line[n])
  {
    if line != [] && IsDigit(line[0]) then 1 + LeadingDigits(line[1..]) else 0
  }

  /** The line is an ordered item: one or more digits, a dot and a space. */
  predicate OrderedItem(line: string)
  {
    var n := LeadingDigits(line);
    n >= 1 && ". " <= line[n..]
  }

  /** `^\d+\. (.*$)`: an ordered item becomes a list item of the rest of the line. */
  function OrderedLine(line: string): string
  {
    var n := LeadingDigits(line);
    if OrderedItem(line) then "<li>" + line[n + 2..] + "</li>" else line
  }

  /** `^---$` */
  function DashRuleLine(line: string): string { if line == "---" then "<hr />" else line }
  /** `^\*\*\*$` */
  function StarRuleLine(line: string): string { if line == "***" then "<hr />" else line }

  // ---------------------------------------------------------------------
  // Span rules

  /** The lazy span `open(.*?)close` at the start of `t`, rewritten to
      `tagOpen + body + tagClose`. Without `dotAll` (the `s` flag) the body
      may not hold a line break. */
  function DelimitedAt(t: string, open: string, close: string, dotAll: bool,
                       tagOpen: string, tagClose: string): (r: Option<Hit>)
    requires open != []
    ensures r.Some? ==> open <= t && 0 < r.value.consumed <= |t|
    ensures r.Some? ==>
      var body := t[|open|..];
      var k := r.value.consumed - |open| - |close|;
      && 0 <= k <= |body|
      && OccursAt(close, body, k)
      && (forall j :: 0 <= j < k ==> !OccursAt(close, body, j))
      && (dotAll || '\n' !in body[..k])
      && r.value.replacement == tagOpen + body[..k] + tagClose
    ensures r.None? && open <= t ==>
      forall k :: 0 <= k <= |t| - |open| && OccursAt(close, t[|open|..], k) ==>
        !dotAll && '\n' in t[|open|..][..k]
  {
    if open <= t then
      var body := t[|open|..];
      match FindFirst(body, close)
      case None => None
      case Some(k) =>
        if dotAll || '\n' !in body[..k] then
          Some(Hit(|open| + k + |close|, tagOpen + body[..k] + tagClose))
        else
          assert forall j :: k <= j <= |body| ==> body[..j][..k] == body[..k];
          None
    else None
  }

  /** `\*\*(.*?)\*\*` */
  function StrongStarAt(t: string): Option<Hit> { DelimitedAt(t, "**", "**", false, "<strong>", "</strong>") }
  /** `__(.*?)__` */
  function StrongUnderAt(t: string): Option<Hit> { DelimitedAt(t, "__", "__", false, "<strong>", "</strong>") }
  /** `\*(.*?)\*` */
  function EmStarAt(t: string): Option<Hit> { DelimitedAt(t, "*", "*", false, "<em>", "</em>") }
  /** `_(.*?)_` */
  function EmUnderAt(t: string): Option<Hit> { DelimitedAt(t, "_", "_", false, "<em>", "</em>") }
  /** ```` ```(.*?)``` ```` with the `s` flag: the body may span lines. */
  function FenceAt(t: string): Option<Hit> { DelimitedAt(t, "```", "```", true, "<pre><code>", "</code></pre>") }

  /** `` `([^`]+)` ``: a backtick, one or more characters other than a
      backtick (line breaks included), and a backtick. */
  function InlineCodeAt(t: string): (r: Option<Hit>)
    ensures r.Some? <==> |t| >= 2 && t[0] == '`' && t[1] != '`' && '`' in t[2..]
    ensures r.Some? ==>
      var n := r.value.consumed;
      && 3 <= n <= |t| && t[0] == '`' && t[n - 1] == '`' && '`' !in t[1..n - 1]
      && r.value.replacement == "<code>" + t[1..n - 1] + "</code>"
  {
    if t != [] && t[0] == '`' then
      match IndexOf(t[1..], '`')
      case None => None
      case Some(k) =>
        assert t[1..][k] == t[k + 1];
        assert t[1..][..k] == t[1..k + 1];
        if k >= 1 then
          assert t[2..] == t[1..][1..];
          Some(Hit(k + 2, "<code>" + t[1..k + 1] + "</code>"))
        else None
    else None
  }

  /** The captures of `[text](url)`. */
  datatype Bracketed = Bracketed(text: string, url: string)

  /** The source form `[text](url)` of a capture. */
  function Form(b: Bracketed): string
  {
    "[" + b.text + "](" + b.url + ")"
  }

  /** `\[([^\]]+)\]\(([^)]+)\)` at the start of `t` (`minText` = 1), or its
      part after the `!` of `!\[([^\]]*)\]\(([^)]+)\)` (`minText` = 0). The
      text holds no `]` and the URL no `)`; both may span lines.
      `RuleLaws.BracketedAtForm` shows that the source form of the capture
      is where the match starts. */
  function BracketedAt(t: string, minText: nat): (r: Option<Bracketed>)
    ensures r.Some? ==>
      && t != [] && t[0] == '[' && |Form(r.value)| <= |t|
      && |r.value.text| >= minText && ']' !in r.value.text
      && r.value.url != [] && ')' !in r.value.url
  {
    if t == [] || t[0] != '[' then None
    else
      match IndexOf(t[1..], ']')
      case None => None
      case Some(k) => if k < minText then None else UrlAt(t[1..][..k], t[1..][k + 1..])
  }

  /** `\(([^)]+)\)` at the start of `t`: the URL part of a link or image,
      completing the capture whose text is `text`. */
  function UrlAt(text: string, t: string): (r: Option<Bracketed>)
    ensures r.Some? ==>
      && r.value.text == text && r.value.url != [] && ')' !in r.value.url
      && |r.value.url| + 2 <= |t|
  {
    if t == [] || t[0] != '(' then None
    else
      match IndexOf(t[1..], ')')
      case None => None
      case Some(m) => if m == 0 then None else Some(Bracketed(text, t[1..][..m]))
  }

  /** `<a href="$2" target="_blank">$1</a>` */
  function Anchor(b: Bracketed): string
  {
    "<a href=\"" + b.url + "\" target=\"_blank\">" + b.text + "</a>"
  }

  /** `<img src="$2" alt="$1" style="max-width: 100%;" />` */
  function ImageTag(b: Bracketed): string
  {
    "<img src=\"" + b.url + "\" alt=\"" + b.text + "\" style=\"max-width: 100%;\" />"
  }

  function LinkAt(t: string): (r: Option<Hit>)
    ensures r.Some? ==> t != [] && t[0] == '[' && 0 < r.value.consumed <= |t|
  {
    match BracketedAt(t, 1)
    case None => None
    case Some(b) => Some(Hit(|Form(b)|, Anchor(b)))
  }

  function ImageAt(t: string): (r: Option<Hit>)
    ensures r.Some? ==> t != [] && t[0] == '!' && 0 < r.value.consumed <= |t|
  {
    if t != [] && t[0] == '!' then
      match BracketedAt(t[1..], 0)
      case None => None
      case Some(b) => Some(Hit(1 + |Form(b)|, ImageTag(b)))
    else None
  }

  /** `\n\n` */
  function ParagraphAt(t: string): (r: Option<Hit>)
  {
    if "\n\n" <= t then Some(Hit(2, "</p><p>")) else None
  }

  // ---------------------------------------------------------------------
  // `(<li>.*<\/li>)` with the `s` flag and without `g`: one greedy match
  // from the first `<li>` to the last `</li>` after it.

  function WrapList(s: string): string
  {
    match FindFirst(s, "<li>")
    case None => s
    case Some(i) =>
      match FindLast(s, "</li>")
      case None => s
      case Some(j) =>
        if j >= i + 4 then s[..i] + "<ul>" + s[i..j + 5] + "</ul>" + s[j + 5..] else s
  }

  // ---------------------------------------------------------------------
  // The stages, in the order the converter applies them

  function Headings(s: string): string { MapLines(MapLines(MapLines(s, H3Line), H2Line), H1Line) }
  function Bold(s: string): string { ReplaceAll(ReplaceAll(s, StrongStarAt), StrongUnderAt) }
  function Italic(s: string): string { ReplaceAll(ReplaceAll(s, EmStarAt), EmUnderAt) }
  function CodeBlocks(s: string): string { ReplaceAll(s, FenceAt) }
  function InlineCode(s: string): string { ReplaceAll(s, InlineCodeAt) }
  function Links(s: string): string { ReplaceAll(s, LinkAt) }
  function Images(s: string): string { ReplaceAll(s, ImageAt) }
  function UnorderedLists(s: string): string { WrapList(MapLines(MapLines(s, StarItemLine), DashItemLine)) }
  function OrderedLists(s: string): string { MapLines(s, OrderedLine) }
  function Blockquotes(s: string): string { MapLines(s, QuoteLine) }
  function HorizontalRules(s: string): string { MapLines(MapLines(s, DashRuleLine), StarRuleLine) }
  function Paragraphs(s: string): string { ReplaceAll(s, ParagraphAt) }

  /** The span stages, bold to images. */
  function Inline(s: string): string { Images(Links(InlineCode(CodeBlocks(Italic(Bold(s)))))) }
  /** The block stages, lists to horizontal rules. */
  function Blocks(s: string): string { HorizontalRules(Blockquotes(OrderedLists(UnorderedLists(s)))) }

  /** The converter: every stage in turn, then one outer paragraph. */
  function ParseMarkdown(markdown: string): string
  {
    var html := Headings(markdown);
    var html := Inline(html);
    var html := Blocks(html);
    var html := Paragraphs(html);
    "<p>" + html + "</p>"
  }
}
