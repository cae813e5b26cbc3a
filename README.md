# Markdown editor: converter and file store

This project models the core of a single-page Markdown editor written as a
React component (`src/markdown-editor.jsx`). The model has two parts.

- **The Markdown converter** (`parseMarkdown`). It turns the editor's text
  into HTML through a fixed chain of nineteen regular-expression
  replacements, then wraps the result in one outer paragraph:
  - headings;
  - strong and emphasis;
  - fenced and inline code;
  - links and images;
  - unordered items and one `<ul>` wrap;
  - numbered items;
  - blockquotes;
  - horizontal rules;
  - paragraph breaks;
  - and, last, the outer `<p>…</p>` (a concatenation, not a replacement).

  Each rule is modelled by a scanner written out by hand:
  - Line rules anchored with `^…$` under the `m` flag map every line on its
    own (`Text.MapLines`).
  - Span rules are global, leftmost-first and non-overlapping
    (`Rewrite.ReplaceAll`), with the lazy `.*?` of JavaScript's regular
    expressions.
  - The single list wrap without `g` is greedy.

  The chain is kept exactly as written, so the rule interactions the order
  causes are part of the model and are proved:
  - links run before images, so `![t](u)` with text becomes `!` plus an anchor;
  - emphasis runs before horizontal rules, so `***` becomes `<em></em>*`;
  - there is one `<ul>` around all items;
  - numbered items get no `<ol>`;
  - emphasis inside backticks is rewritten before the code rule.
- **The file store.** This is the component's state: the list of files, the
  selected id, the next id and the id waiting for delete confirmation. It
  includes the handlers that change the state (create, import, select,
  delete with confirm or cancel, rename, edit). The store is a class
  `Editor.FileStore`. Its invariant `Valid` (non-empty list, distinct ids
  below the counter, a selected id that is listed, a pending delete that
  leaves a file) holds after every handler.

Modules:
- `Text`: search, line split and join, per-line maps.
- `Rewrite`: the global-replace driver.
- `Markdown`: the rules and stages.
- `RuleLaws`: what each rule does.
- `Pipeline`: whole-document laws.
- `Documents`: the listed constructs end to end.
- `Editor`: the files and the store.

## Model

| member | source | states |
|---|---|---|
| Text.FindFirst | src/markdown-editor.jsx:24-32 | The index found is an occurrence and no earlier index is one; with no index found, no occurrence exists (the leftmost match a lazy span rule takes). |
| Text.FindLast | src/markdown-editor.jsx:52 | The index found is an occurrence and no later index is one; with no index found, no occurrence exists (the greedy end of the list wrap). |
| Text.IndexOf | src/markdown-editor.jsx:35-47 | The index found holds the character and no earlier index does; there is no index exactly when the character is absent (where a negated character class such as `[^)]+` stops). |
| Text.SplitLines | src/markdown-editor.jsx:19-21 | The lines of a text, split at every `\n`: there is at least one, and none holds a line break. `Text.JoinSplit` and `Text.SplitJoin` show the split loses nothing. |
| Text.JoinSplit | src/markdown-editor.jsx:19-21 | Joining the lines of a text with line breaks gives the text back, so the line rules lose no text. |
| Text.SplitJoin | src/markdown-editor.jsx:19-21 | Lines free of line breaks, joined and split again, are the same lines. |
| Text.MapLinesPerLine | src/markdown-editor.jsx:19-21 | A line rule keeps the number of lines, and each output line is the line function of the matching input line. |
| Text.MapLinesUnchanged | src/markdown-editor.jsx:50-62 | A line rule that changes no line leaves the text as it is. |
| Text.MapLinesFirst | src/markdown-editor.jsx:50-62 | A line rule rewrites the first line and then the rest, with the line break between them kept. |
| Text.MapLines | src/markdown-editor.jsx:19-21 | A line rule under the `m` flag: the line function applied to every line, with the line breaks kept. Its behaviour is stated by `Text.MapLinesPerLine`, `Text.MapLinesUnchanged` and `Text.MapLinesFirst`. |
| Rewrite.ReplaceAll | src/markdown-editor.jsx:24-65 | `replace` with the `g` flag: scanning from the left, a match at the current position is replaced and the scan resumes after it; otherwise one character is kept. Its behaviour is stated by `Rewrite.ReplaceAllSkip`, `Rewrite.ReplaceAllNoOpen` and the span lemmas of `RuleLaws`. |
| Rewrite.ReplaceAllSkip | src/markdown-editor.jsx:24-47 | Text in which no match starts is copied verbatim ahead of the rewritten rest. |
| Rewrite.ReplaceAllNoOpen | src/markdown-editor.jsx:24-65 | A text holding no occurrence of what every match opens with is left unchanged. |
| Markdown.PrefixLine | src/markdown-editor.jsx:19-21 | A line that starts with the marker becomes the open tag, the rest of the line and the close tag; every other line stays. `RuleLaws.PrefixLineOneLine` shows it never adds a line break. |
| Markdown.H3Line | src/markdown-editor.jsx:19 | The `### ` rule on one line; see `RuleLaws.HeadingLevels`. |
| Markdown.H2Line | src/markdown-editor.jsx:20 | The `## ` rule on one line; see `RuleLaws.HeadingLevels`. |
| Markdown.H1Line | src/markdown-editor.jsx:21 | The `# ` rule on one line; see `RuleLaws.HeadingLevels`. |
| Markdown.HeadingLine | src/markdown-editor.jsx:19-21 | The three heading rules in their order on one line; `RuleLaws.HeadingLevels` gives the level each marker yields. |
| Markdown.StarItemLine | src/markdown-editor.jsx:50 | The `* ` item rule on one line; see `RuleLaws.ItemLineOf`. |
| Markdown.DashItemLine | src/markdown-editor.jsx:51 | The `- ` item rule on one line; see `RuleLaws.ItemLineOf`. |
| Markdown.QuoteLine | src/markdown-editor.jsx:58 | The `> ` rule on one line; see `RuleLaws.QuoteLineOf`. |
| Markdown.OrderedItem | src/markdown-editor.jsx:55 | A line is a numbered item when one or more digits, a dot and a space start it; see `RuleLaws.OrderedLineOf`. |
| Markdown.OrderedLine | src/markdown-editor.jsx:55 | A numbered item becomes `<li>` around the rest of the line; any other line stays; see `RuleLaws.OrderedLineOf`. |
| Markdown.DashRuleLine | src/markdown-editor.jsx:61 | Exactly the line `---` becomes `<hr />`; see `RuleLaws.HorizontalRulesPerLine`. |
| Markdown.StarRuleLine | src/markdown-editor.jsx:62 | Exactly the line `***` becomes `<hr />`; see `RuleLaws.HorizontalRulesPerLine`. |
| Markdown.LeadingDigits | src/markdown-editor.jsx:55 | `^\d+` takes a count of leading characters that are all digits and stops at the first non-digit. |
| Markdown.DelimitedAt | src/markdown-editor.jsx:24-32 | A lazy span match opens with its delimiter and closes at the first closing delimiter after it, with no line break in the body unless the `s` flag is set; with no match, every closing delimiter comes after a line break. |
| Markdown.StrongStarAt | src/markdown-editor.jsx:24 | The lazy `**…**` span on one line, emitting `<strong>`; its contract is that of `Markdown.DelimitedAt`. |
| Markdown.StrongUnderAt | src/markdown-editor.jsx:25 | The lazy `__…__` span on one line, emitting `<strong>`. |
| Markdown.EmStarAt | src/markdown-editor.jsx:28 | The lazy `*…*` span on one line, emitting `<em>`. |
| Markdown.EmUnderAt | src/markdown-editor.jsx:29 | The lazy `_…_` span on one line, emitting `<em>`. |
| Markdown.FenceAt | src/markdown-editor.jsx:32 | The lazy fenced span, which may cross lines (the `s` flag), emitting `<pre><code>`. |
| Markdown.InlineCodeAt | src/markdown-editor.jsx:35 | An inline code span matches exactly when a backtick, a non-backtick and a later backtick start the text, and it rewrites the backtick-free text between them. |
| Markdown.BracketedAt | src/markdown-editor.jsx:38-47 | A capture starts at `[`, has text free of `]` at least as long as required, and has a non-empty URL free of `)`. |
| Markdown.UrlAt | src/markdown-editor.jsx:38-47 | The URL part captures a non-empty URL free of `)` that lies within the text scanned. |
| Markdown.LinkAt | src/markdown-editor.jsx:38-41 | A link match starts at `[` and consumes a non-empty part of the text. |
| Markdown.ImageAt | src/markdown-editor.jsx:44-47 | An image match starts at `!` and consumes a non-empty part of the text. |
| Markdown.Form | src/markdown-editor.jsx:39 | The source text `[text](url)` of a capture; `RuleLaws.BracketedAtForm` shows every match is its capture's form. |
| Markdown.Anchor | src/markdown-editor.jsx:40 | The link template, with the URL as `href`, `target="_blank"` and the text as content. |
| Markdown.ImageTag | src/markdown-editor.jsx:46 | The image template, with the URL as `src`, the text as `alt` and the fixed style. |
| Markdown.ParagraphAt | src/markdown-editor.jsx:65 | Two line breaks at the current position become `</p><p>`; see `Pipeline.ParagraphBreak`. |
| Markdown.WrapList | src/markdown-editor.jsx:52 | The wrap without `g`: one greedy match from the first `<li>` to the last `</li>`. Its behaviour is stated both ways by `RuleLaws.WrapListSpan` and `RuleLaws.WrapListNone`. |
| Markdown.Headings | src/markdown-editor.jsx:19-21 | The heading stage; see `RuleLaws.HeadingsPerLine`. |
| Markdown.Bold | src/markdown-editor.jsx:24-25 | The two strong rules in turn. |
| Markdown.Italic | src/markdown-editor.jsx:28-29 | The two emphasis rules in turn. |
| Markdown.CodeBlocks | src/markdown-editor.jsx:32 | The fence rule; see `Documents.FenceStage`. |
| Markdown.InlineCode | src/markdown-editor.jsx:35 | The inline-code rule; see `RuleLaws.InlineCodeSpan`. |
| Markdown.Links | src/markdown-editor.jsx:38-41 | The link rule; see `RuleLaws.LinkAtMatch`. |
| Markdown.Images | src/markdown-editor.jsx:44-47 | The image rule; see `RuleLaws.ImageAtMatch`. |
| Markdown.UnorderedLists | src/markdown-editor.jsx:50-52 | The two item rules and the single wrap; see `RuleLaws.ItemsPerLine` and `RuleLaws.WrapListSpan`. |
| Markdown.OrderedLists | src/markdown-editor.jsx:55 | The numbered-item rule; see `RuleLaws.OrderedListsPerLine`. |
| Markdown.Blockquotes | src/markdown-editor.jsx:58 | The quote rule; see `RuleLaws.BlockquotesPerLine`. |
| Markdown.HorizontalRules | src/markdown-editor.jsx:61-62 | The two rule rules; see `RuleLaws.HorizontalRulesPerLine`. |
| Markdown.Paragraphs | src/markdown-editor.jsx:65 | The paragraph-break rule; see `Pipeline.ParagraphBreak`. |
| Markdown.Inline | src/markdown-editor.jsx:24-47 | The span stages, bold to images, in their order. |
| Markdown.Blocks | src/markdown-editor.jsx:50-62 | The block stages, lists to horizontal rules, in their order. |
| Markdown.ParseMarkdown | src/markdown-editor.jsx:15-69 | The converter: every stage in its order, then one outer paragraph. Its behaviour is stated by `Pipeline.OuterParagraph`, `Pipeline.PlainUnchanged`, `Pipeline.ParagraphBreak`, `Pipeline.HeadingDocument` and the `Documents` lemmas. |
| RuleLaws.Openers | src/markdown-editor.jsx:24-65 | Every match of each span rule begins with its opening text (`**`, `__`, `*`, `_`, three backticks, a backtick, `[`, `!`, two line breaks). |
| RuleLaws.DelimitedAtSpan | src/markdown-editor.jsx:24-32 | A span whose body holds neither the first character of the closing delimiter nor, without `s`, a line break is matched up to the first closing delimiter, whatever follows. |
| RuleLaws.DelimitedAtStopsAtLineBreak | src/markdown-editor.jsx:24-29 | Without the `s` flag, a line break before the first closing delimiter prevents the match. |
| RuleLaws.DelimitedAtUnclosed | src/markdown-editor.jsx:24-32 | A span that is never closed does not match. |
| RuleLaws.InlineCodeSpan | src/markdown-editor.jsx:35 | `` `x` `` with a non-empty, backtick-free `x` becomes `<code>x</code>`. |
| RuleLaws.UrlAtMatch | src/markdown-editor.jsx:38-47 | `(u)` with a non-empty `u` free of `)` captures `u`. |
| RuleLaws.BracketedAtForm | src/markdown-editor.jsx:38-47 | The source form `[text](url)` of every capture is exactly where the match starts. |
| RuleLaws.BracketedAtMatch | src/markdown-editor.jsx:38-47 | `[x](u)` followed by anything captures `x` and `u` when `x` is free of `]` and long enough, and `u` is non-empty and free of `)`. |
| RuleLaws.LinkAtMatch | src/markdown-editor.jsx:38-41 | `[x](u)` with a non-empty text is replaced by the anchor to `u` with text `x`, opening in a new tab. |
| RuleLaws.LinkAtEmptyText | src/markdown-editor.jsx:38-41 | A link needs text: `[]` followed by anything is no link. |
| RuleLaws.ImageAtMatch | src/markdown-editor.jsx:44-47 | `![x](u)`, with text that may be empty, is replaced by the image tag with source `u` and alt text `x`. |
| RuleLaws.WrapListSpan | src/markdown-editor.jsx:52 | The list wrap puts `<ul>` before the first `<li>` and `</ul>` after the last `</li>`, keeping everything in between. |
| RuleLaws.WrapListNone | src/markdown-editor.jsx:52 | Without an `<li>` followed by a `</li>`, the list wrap changes nothing. |
| RuleLaws.ItemsPerLine | src/markdown-editor.jsx:50-51 | The two item rules keep the lines and rewrite each line on its own, star rule first. |
| RuleLaws.ItemLineOf | src/markdown-editor.jsx:50-51 | Both `* r` and `- r` become `<li>r</li>` after the two item rules. |
| RuleLaws.HeadingLevels | src/markdown-editor.jsx:19-21 | `### t`, `## t` and `# t` become headings of levels 3, 2 and 1, and `####t` stays literal. |
| RuleLaws.HeadingsPerLine | src/markdown-editor.jsx:19-21 | The heading rules keep the lines and rewrite each line on its own. |
| RuleLaws.BlockquotesPerLine | src/markdown-editor.jsx:58 | The quote rule keeps the lines and rewrites each line on its own. |
| RuleLaws.QuoteLineOf | src/markdown-editor.jsx:58 | `> q` becomes `<blockquote>q</blockquote>`. |
| RuleLaws.LeadingDigitsOf | src/markdown-editor.jsx:55 | A run of digits followed by a non-digit is exactly what `^\d+` takes. |
| RuleLaws.OrderedLineOf | src/markdown-editor.jsx:55 | `N. r` with one or more digits is an ordered item and becomes `<li>r</li>`. |
| RuleLaws.OrderedListsPerLine | src/markdown-editor.jsx:55 | The numbered-item rule keeps the lines and rewrites each line on its own. |
| RuleLaws.HorizontalRulesPerLine | src/markdown-editor.jsx:61-62 | A line that is exactly `---` or `***` becomes `<hr />`, and every other line stays. |
| Pipeline.OuterParagraph | src/markdown-editor.jsx:66 | Whatever the document, the output opens with `<p>` and closes with `</p>`. |
| Pipeline.PlainUnchanged | src/markdown-editor.jsx:15-69 | Text without Markdown syntax and without a blank line comes back unchanged inside one paragraph. |
| Pipeline.EmptyDocument | src/markdown-editor.jsx:15-69 | The empty document is `<p></p>`. |
| Pipeline.ParagraphBreak | src/markdown-editor.jsx:65-66 | A blank line between two plain lines closes one paragraph and opens the next. |
| Pipeline.HeadingDocument | src/markdown-editor.jsx:19-21 | A document `### t`, `## t` or `# t` is the heading of that level in one paragraph. |
| Pipeline.ImageOpensWithBracket | src/markdown-editor.jsx:44-47 | Every image match begins with `![`. |
| Documents.QuoteDocument | src/markdown-editor.jsx:58 | A document `> q` is a blockquote in one paragraph. |
| Documents.DashRuleDocument | src/markdown-editor.jsx:61 | A document `---` is `<p><hr /></p>`. |
| Documents.StarRuleDocument | src/markdown-editor.jsx:28-62 | A document `***` is `<p><em></em>*</p>`: emphasis takes its first two stars before the rule stage runs. |
| Documents.StarRuleBold | src/markdown-editor.jsx:24-25 | `***` holds no strong span. |
| Documents.StarRuleItalic | src/markdown-editor.jsx:28-29 | After the strong rules, `***` becomes an empty emphasis and a lone star. |
| Documents.StrongDocument | src/markdown-editor.jsx:24 | A document `**a**` is strong text in one paragraph. |
| Documents.StrongSpan | src/markdown-editor.jsx:24 | The strong rule turns a leading `**a**` into strong text and goes on after it. |
| Documents.SingleStars | src/markdown-editor.jsx:24 | `*c*` followed by text without stars is left to the emphasis rule. |
| Documents.StrongAndEmphasis | src/markdown-editor.jsx:24-28 | A document `**a**b*c*` is strong text, the text between and emphasis, in one paragraph. |
| Documents.ListDocument | src/markdown-editor.jsx:50-52 | A document of two `* ` items is two list items inside one `<ul>` in one paragraph. |
| Documents.ListInline | src/markdown-editor.jsx:24-47 | No span rule fires on two `* ` items. |
| Documents.EmAcrossBreak | src/markdown-editor.jsx:28 | The stars of two `* ` items on separate lines make no emphasis. |
| Documents.ListBlocks | src/markdown-editor.jsx:50-65 | Two `* ` items become list items wrapped once in `<ul>`, and the later block stages keep them. |
| Documents.WrapItems | src/markdown-editor.jsx:52 | The list wrap spans from the first item to the end of the last. |
| Documents.OrderedDocument | src/markdown-editor.jsx:55 | A document of two numbered items is two list items with no list container. |
| Documents.OrderedKeepsUntilItems | src/markdown-editor.jsx:19-52 | Numbered lines pass the heading, span and unordered-list stages unchanged. |
| Documents.LinkDocument | src/markdown-editor.jsx:38-41 | A document `[t](u)` is an anchor to `u` that opens in a new tab, in one paragraph. |
| Documents.LinkInline | src/markdown-editor.jsx:38-47 | The span stages turn `[t](u)` into the anchor. |
| Documents.ImageWithTextDocument | src/markdown-editor.jsx:38-47 | A document `![t](u)` with non-empty `t` is `!` followed by an anchor: the link rule runs first, and no image results. |
| Documents.ImageDocument | src/markdown-editor.jsx:44-47 | A document `![](u)` is an image with source `u` and empty alt text. |
| Documents.EmptyTextNoLink | src/markdown-editor.jsx:38-41 | The link rule leaves `![](u)` alone. |
| Documents.FenceStage | src/markdown-editor.jsx:32-35 | A fenced block becomes preformatted code with its line breaks, and the inline-code rule finds nothing left to rewrite. |
| Documents.CodeAroundEmphasis | src/markdown-editor.jsx:28-35 | `` `*x*` `` becomes a code element holding an emphasis element, since emphasis runs first. |
| Editor.Ids | src/markdown-editor.jsx:131 | The ids of a list, in order and one per file. |
| Editor.Find | src/markdown-editor.jsx:131 | Finding an id fails exactly when no file has it; otherwise it gives a listed file with that id. |
| Editor.WithoutId | src/markdown-editor.jsx:153 | The filter keeps exactly the files whose id differs, and it never grows the list. |
| Editor.WithoutIdAppend | src/markdown-editor.jsx:153 | The filter keeps order: filtering a concatenation is filtering each part in turn. |
| Editor.WithoutIdFirst | src/markdown-editor.jsx:153-156 | The first file left is the first file of the list whose id differs, which is the file `confirmDelete` selects when the selected one went. |
| Editor.WithName | src/markdown-editor.jsx:166 | Renaming keeps the length; a file with the id gets the new name and keeps its id and content; every other file is unchanged. |
| Editor.WithContent | src/markdown-editor.jsx:170-172 | Editing keeps the length; a file with the id gets the new content and keeps its id and name; every other file is unchanged. |
| Editor.Decimal | src/markdown-editor.jsx:136 | The numeral of a number is non-empty and all decimal digits, and it starts with `0` only for zero. |
| Editor.ValueOfDecimal | src/markdown-editor.jsx:136 | Reading the numeral of a number back gives the number. |
| Editor.NewFileNameInjective | src/markdown-editor.jsx:136 | Different ids always give different new-file names. |
| Editor.NewFileName | src/markdown-editor.jsx:136 | The generated name: `新檔案`, the decimal numeral of the id, and `.md`; see `Editor.NewFileNameInjective`. |
| Editor.AppendFresh | src/markdown-editor.jsx:134-141 | Appending a file with the next id keeps ids distinct and below the advanced counter, and adds exactly that id at the end. |
| Editor.MapsKeepIds | src/markdown-editor.jsx:165-173 | Renaming and editing keep every id in its place. |
| Editor.WithoutIdCount | src/markdown-editor.jsx:153 | With distinct ids, the filter removes one file when the id is listed and returns the list itself when it is not. |
| Editor.WithoutIdDistinct | src/markdown-editor.jsx:153 | Filtering keeps ids distinct. |
| Editor.WithoutIdKeeps | src/markdown-editor.jsx:153 | Filtering keeps ids distinct and below the counter, and keeps exactly the listed ids other than the removed one. |
| Editor.WithoutIdNonEmpty | src/markdown-editor.jsx:144-159 | Removing one id from two or more files with distinct ids leaves at least one file, so `newFiles[0]` exists. |
| Editor.FileStore.constructor | src/markdown-editor.jsx:95-107 | A first start holds only the welcome file, selected, with id 2 next and no pending delete; the invariant holds. |
| Editor.FileStore.Valid | src/markdown-editor.jsx:111-117 | What every handler keeps: a non-empty list, distinct ids below the counter, a listed selected id, and a pending delete only with two or more files. |
| Editor.FileStore.Add | src/markdown-editor.jsx:139-141 | Appends a file with the next id, selects it and advances the counter, keeping the invariant. |
| Editor.FileStore.CurrentFile | src/markdown-editor.jsx:131 | Under the invariant, the current file exists, is listed, and is the only file with the selected id. |
| Editor.FileStore.CreateNewFile | src/markdown-editor.jsx:133-142 | Appends an empty file with the next id and its generated name, selects it, advances the counter, and keeps the invariant. |
| Editor.FileStore.ImportFile | src/markdown-editor.jsx:190-198 | Sets the list to the list captured when the file was chosen plus the imported file with the captured counter as id, selects it, sets the counter one past it, and keeps the invariant. |
| Editor.FileStore.SelectFile | src/markdown-editor.jsx:254 | Selects a listed file; nothing else changes and the invariant holds. |
| Editor.FileStore.DeleteFile | src/markdown-editor.jsx:144-150 | Refuses exactly when only one file is left; otherwise it marks the id as pending; no file is removed yet. |
| Editor.FileStore.ConfirmDelete | src/markdown-editor.jsx:152-159 | Removes the files with the pending id (one fewer when it is listed) and selects the first file left only when the selected one went; the dialog closes and the invariant holds. |
| Editor.FileStore.CancelDelete | src/markdown-editor.jsx:161-163 | Closes the dialog and keeps every file, the selection and the counter. |
| Editor.FileStore.UpdateFileName | src/markdown-editor.jsx:165-167 | Renames the files with the id and no other, and keeps the invariant. |
| Editor.FileStore.UpdateFileContent | src/markdown-editor.jsx:169-173 | Replaces the text of the selected file and no other, and keeps the invariant. |

## Left out

- The rendered user interface (JSX, styles, icons, the collapsible sidebar, the copied indicator) in `src/markdown-editor.jsx:204-464` is not modelled. `sidebarCollapsed` is not a field of the store.
- Persistence to `localStorage` and JSON parsing (`src/markdown-editor.jsx:72-129`) are not modelled, because they are I/O. The store starts from the default first-start state; a saved state may break `Valid` (for example a saved selected id that is no longer listed), and that case is not modelled.
- Export (`Blob`, object URLs, a synthetic link click) and copying to the clipboard with its timer are not modelled, because they are I/O.
- Editor.FileStore.ImportFile: reading the file with `FileReader` is not modelled, because it is I/O. The method takes the file's name and text once they are read, and it does not model the chosen-file check of line 188. As in the source, it builds on the list and counter captured when the file was chosen (parameters `seenFiles` and `seenNextId`). So a create, rename, edit or confirmed delete made while the file was being read is overwritten.
- Editor.FileStore.DeleteFile: the `alert` of line 146 is modelled by the returned `refused` flag.
- React's batching of state updates is not modelled. Each handler other than the import is one atomic step on the fields, reading the state when it runs. The import's deferred closure is the exception and is modelled with its captured values, as the line above says.
- Ids and the counter are unbounded `nat`, while the source's are JavaScript numbers. From 2^53 on, `nextId + 1` (lines 141 and 198) no longer grows, and the next create would repeat an id and break distinct ids. No session can hand out that many ids, so the model leaves this out.
- Line terminators other than `\n` (`\r`, U+2028, U+2029) are not modelled. JavaScript's `.`, `^` and `$` also treat them as line ends; here only `\n` ends a line. The `i` flag is irrelevant: no pattern that carries it contains a literal letter.
- Pipeline.ImageOpensWithBracket: the model proves only that every image match begins with `![`. It does not prove a general "images only fire for empty alt text" law, because nested input such as `[t](![x](y))` shows the image rule can still fire after links. The direct forms are proved in `Documents.ImageWithTextDocument` and `Documents.ImageDocument`.
- Editor.Find: the contract states that a file with the id is returned, not that it is the first such file (with distinct ids they coincide).
- The converter's output is not escaped, and raw HTML in the input passes through. The model makes no claim about HTML safety or well-formedness beyond the constructs proved.
- Documents lemmas cover the listed constructs on literal text (no Markdown characters inside). They do not cover arbitrary nesting of constructs.
