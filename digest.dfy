/**
 * The three digest formatters of fetch_articles.py: the console listing
 * (`format_articles_for_output`), the HTML e-mail body
 * (`format_articles_for_email`) and the plain-text e-mail body
 * (`format_articles_for_text`). Each emits a header, one block per article
 * numbered from 1 in input order, and (for the e-mail bodies) a footer. The
 * current date is a parameter, already formatted.
 */
module Digest {
  import opened PyText
  import opened Sequences
  import opened FetchArticles

  /** Summary limit of the console listing. */
  const OutputSummaryLimit: nat := 200
  /** Summary limit of both e-mail bodies. */
  const EmailSummaryLimit: nat := 300

  /** `s[:limit]` followed by "..." exactly when `s` is longer than `limit`. */
  function Truncated(s: string, limit: nat): (r: string)
    ensures |s| <= limit ==> r == s
    ensures |s| > limit ==> |r| == limit + 3 && r[..limit] == s[..limit] && r[limit..] == "..."
  {
    if |s| > limit then s[..limit] + "..." else s
  }

  /** `c * n` for a one-character string `c`. */
  function Repeat(c: char, n: nat): (r: string)
    ensures |r| == n && forall k :: 0 <= k < n ==> r[k] == c
  {
    seq(n, _ => c)
  }

  // ---------------------------------------------------------------------------
  // format_articles_for_output
  // ---------------------------------------------------------------------------

  // The fixed text of the listing.
  const OutputTitle := "AEROSPACE & DEFENSE NEWS - LATEST ARTICLES"
  const GeneratedOnLabel := "Generated on: "
  const TotalLabel := "Total articles: "
  const LinkLabel := "   Link: "
  const PublishedLabel := "   Published: "
  const SummaryLabel := "   Summary: "

  /** The six header lines; `generatedOn` is the formatted current time. */
  function OutputHeader(generatedOn: string, n: nat): seq<string>
  {
    [Repeat('=', 80),
     OutputTitle,
     Repeat('=', 80),
     GeneratedOnLabel + generatedOn,
     TotalLabel + NatToString(n),
     ""]
  }

  /** The five lines for article number `i`. */
  function OutputBlock(i: nat, a: Article): seq<string>
  {
    [NatToString(i) + ". " + a.title,
     LinkLabel + a.link,
     PublishedLabel + a.published,
     SummaryLabel + Truncated(a.summary, OutputSummaryLimit),
     ""]
  }

  /** One block per article, numbered from 1. */
  function OutputBlocks(articles: seq<Article>): (r: seq<seq<string>>)
    ensures |r| == |articles|
  {
    seq(|articles|, k requires 0 <= k < |articles| => OutputBlock(k + 1, articles[k]))
  }

  /** The list `output_lines` once every article is appended. */
  function OutputLines(articles: seq<Article>, generatedOn: string): seq<string>
  {
    OutputHeader(generatedOn, |articles|) + Concat(OutputBlocks(articles))
  }

  /** `"\n".join(lines)`. */
  function JoinLines(lines: seq<string>): string
  {
    if lines == [] then ""
    else if |lines| == 1 then lines[0]
    else JoinLines(lines[..|lines| - 1]) + "\n" + lines[|lines| - 1]
  }

  /** Joining two non-empty runs of lines is joining each and putting one newline
      between them. */
  lemma {:induction false} JoinLinesAppend(a: seq<string>, b: seq<string>)
    requires a != [] && b != []
    ensures JoinLines(a + b) == JoinLines(a) + "\n" + JoinLines(b)
    decreases |b|
  {
    var ab := a + b;
    var b', last := b[..|b| - 1], b[|b| - 1];
    assert ab[|ab| - 1] == last;
    assert ab[..|ab| - 1] == a + b';
    assert JoinLines(ab) == JoinLines(a + b') + "\n" + last;
    if b' == [] {
      assert a + b' == a;
      assert JoinLines(b) == last;
    } else {
      JoinLinesAppend(a, b');
      var x, y := JoinLines(a), JoinLines(b');
      assert JoinLines(b) == y + "\n" + last;
      assert JoinLines(ab) == (x + "\n" + y) + "\n" + last;
      assert (x + "\n" + y) + "\n" + last == x + "\n" + (y + "\n" + last);
    }
  }

  /** Numbering the first `i + 1` articles adds block `i + 1` to the first `i`. */
  lemma OutputBlocksSnoc(articles: seq<Article>, i: nat)
    requires i < |articles|
    ensures OutputBlocks(articles[..i + 1]) == OutputBlocks(articles[..i]) + [OutputBlock(i + 1, articles[i])]
  {
    assert forall k :: 0 <= k < i ==> articles[..i + 1][k] == articles[..i][k];
  }

  /** `format_articles_for_output(articles)`. */
  method FormatArticlesForOutput(articles: seq<Article>, generatedOn: string) returns (text: string)
    ensures text == JoinLines(OutputLines(articles, generatedOn))
  {
    var outputLines := OutputHeader(generatedOn, |articles|);
    var i := 0;
    while i < |articles|
      invariant 0 <= i <= |articles|
      invariant outputLines == OutputHeader(generatedOn, |articles|) + Concat(OutputBlocks(articles[..i]))
    {
      var article := articles[i];
      OutputBlocksSnoc(articles, i);
      ConcatSnoc(OutputBlocks(articles[..i]), OutputBlock(i + 1, article));
      ghost var before := outputLines;
      outputLines := outputLines + [NatToString(i + 1) + ". " + article.title];
      outputLines := outputLines + [LinkLabel + article.link];
      outputLines := outputLines + [PublishedLabel + article.published];
      outputLines := outputLines + [SummaryLabel + Truncated(article.summary, OutputSummaryLimit)];
      outputLines := outputLines + [""];
      assert outputLines == before + OutputBlock(i + 1, article);
      i := i + 1;
    }
    assert articles[..i] == articles;
    text := JoinLines(outputLines);
  }

  /** The listing has the 6 header lines (the fifth reports the number of
      articles), then 5 lines per article: article `k` (from 0) is block `k + 1`
      at line `6 + 5 * k`, with its number and title, link, date and summary cut
      at 200. */
  lemma OutputLayout(articles: seq<Article>, generatedOn: string, k: nat)
    requires k < |articles|
    ensures var lines := OutputLines(articles, generatedOn);
      && |lines| == 6 + 5 * |articles|
      && lines[..6] == OutputHeader(generatedOn, |articles|)
      && lines[6 + 5 * k..6 + 5 * k + 5] == OutputBlock(k + 1, articles[k])
  {
    var lines := OutputLines(articles, generatedOn);
    OutputLinesSplit(articles, generatedOn);
    OutputBodyBlock(articles, k);
    SliceOfSlice(lines, 6, |lines|, 5 * k, 5 * k + 5);
  }

  /** The listing is the six header lines followed by the article lines. */
  lemma OutputLinesSplit(articles: seq<Article>, generatedOn: string)
    ensures var lines := OutputLines(articles, generatedOn);
      && |lines| == 6 + |Concat(OutputBlocks(articles))|
      && lines[..6] == OutputHeader(generatedOn, |articles|)
      && lines[6..] == Concat(OutputBlocks(articles))
  {
  }

  /** The article lines are five per article, and article `k`'s block starts at `5 * k`. */
  lemma OutputBodyBlock(articles: seq<Article>, k: nat)
    requires k < |articles|
    ensures |Concat(OutputBlocks(articles))| == 5 * |articles|
    ensures Concat(OutputBlocks(articles))[5 * k..5 * k + 5] == OutputBlock(k + 1, articles[k])
  {
    var blocks := OutputBlocks(articles);
    ConcatUniform(blocks, 5);
    assert forall x :: 0 <= x < k ==> blocks[..k][x] == blocks[x];
    ConcatUniform(blocks[..k], 5);
    PieceAt(blocks, k);
  }

  // ---------------------------------------------------------------------------
  // format_articles_for_email
  // ---------------------------------------------------------------------------

  /** The fixed text of the HTML body, around the date and around each block's fields. */
  datatype HtmlText = HtmlText(
    headerStart: string, headerEnd: string, footer: string,
    open: string, beforePublished: string, beforeSummary: string, beforeLink: string, close: string)

  /** The template of `format_articles_for_email`; the rules inside its style
      element are not part of this model. */
  const Html := HtmlText(
    "\n    <html>\n    <head>\n        <style>\n        </style>\n    </head>\n    <body>\n"
    + "        <div class=\"header\">\n"
    + "            <h1>\U{1F6F0}\U{FE0F} Aerospace & Defense News</h1>\n"
    + "            <p>Latest Articles - ",
    "</p>\n        </div>\n    ",
    "\n        <div class=\"footer\">\n"
    + "            <p>Generated automatically from aerospace and defense RSS feeds</p>\n"
    + "        </div>\n    </body>\n    </html>\n    ",
    "\n        <div class=\"article\">\n            <div class=\"title\">",
    "</div>\n            <div class=\"published\">\U{1F4C5} Published: ",
    "</div>\n            <div class=\"summary\">\U{1F4DD} ",
    "</div>\n            <div style=\"margin-top: 10px;\">\n                <a href=\"",
    "\" class=\"link\">\U{1F517} Read full article</a>\n            </div>\n        </div>\n        ")

  /** The opening of the HTML body, with the formatted date. */
  function HtmlHeader(f: HtmlText, date: string): string
  {
    f.headerStart + date + f.headerEnd
  }

  /** The pieces of the block for article number `i`: the number is piece 1, the
      title 3, the date 5, the cut summary 7 and the link 9. */
  function HtmlPieces(f: HtmlText, i: nat, a: Article): seq<string>
  {
    [f.open, NatToString(i), ". ", a.title,
     f.beforePublished, a.published,
     f.beforeSummary, Truncated(a.summary, EmailSummaryLimit),
     f.beforeLink, a.link,
     f.close]
  }

  function HtmlBlock(f: HtmlText, i: nat, a: Article): string
  {
    Concat(HtmlPieces(f, i, a))
  }

  /** One block per article, numbered from 1. */
  function HtmlBlocks(f: HtmlText, articles: seq<Article>): (r: seq<string>)
    ensures |r| == |articles|
  {
    seq(|articles|, k requires 0 <= k < |articles| => HtmlBlock(f, k + 1, articles[k]))
  }

  /** Header, the blocks, footer. */
  function HtmlParts(f: HtmlText, articles: seq<Article>, date: string): (r: seq<string>)
    ensures |r| == |articles| + 2
  {
    [HtmlHeader(f, date)] + HtmlBlocks(f, articles) + [f.footer]
  }

  /** The HTML body for `articles`. */
  function HtmlDigest(f: HtmlText, articles: seq<Article>, date: string): string
  {
    Concat(HtmlParts(f, articles, date))
  }

  /** `format_articles_for_email(articles)`. */
  method FormatArticlesForEmail(articles: seq<Article>, date: string) returns (html: string)
    ensures html == HtmlDigest(Html, articles, date)
  {
    html := HtmlHeader(Html, date);
    ghost var parts: seq<string> := [html];
    ConcatSnoc([], html);
    var i := 0;
    while i < |articles|
      invariant 0 <= i <= |articles|
      invariant parts == [HtmlHeader(Html, date)] + HtmlBlocks(Html, articles[..i])
      invariant html == Concat(parts)
    {
      var block := HtmlBlock(Html, i + 1, articles[i]);
      ConcatSnoc(parts, block);
      html := html + block;
      parts := parts + [block];
      assert HtmlBlocks(Html, articles[..i + 1]) == HtmlBlocks(Html, articles[..i]) + [block];
      i := i + 1;
    }
    ConcatSnoc(parts, Html.footer);
    html := html + Html.footer;
    assert articles[..i] == articles;
  }

  /** Article `k` (from 0) has its block in the HTML body right after the header
      and the blocks of the `k` articles before it. */
  lemma HtmlBlockAt(f: HtmlText, articles: seq<Article>, date: string, k: nat)
    requires k < |articles|
    ensures var parts := HtmlParts(f, articles, date);
      && Offset(parts, k + 1) == |HtmlHeader(f, date)| + |Concat(HtmlBlocks(f, articles[..k]))|
      && OccursAt(HtmlDigest(f, articles, date), Offset(parts, k + 1), HtmlBlock(f, k + 1, articles[k]))
  {
    var parts := HtmlParts(f, articles, date);
    PieceAt(parts, k + 1);
    assert parts[..k + 1] == [HtmlHeader(f, date)] + HtmlBlocks(f, articles[..k]);
    ConcatAppend([HtmlHeader(f, date)], HtmlBlocks(f, articles[..k]));
    ConcatSnoc([], HtmlHeader(f, date));
  }

  /** The block for article number `i` shows, at the offsets of their pieces, the
      number, the title, the date, the summary cut at 300 and the link. */
  lemma HtmlBlockFields(f: HtmlText, i: nat, a: Article)
    ensures var b := HtmlBlock(f, i, a); var ps := HtmlPieces(f, i, a);
      && OccursAt(b, Offset(ps, 1), NatToString(i))
      && OccursAt(b, Offset(ps, 3), a.title)
      && OccursAt(b, Offset(ps, 5), a.published)
      && OccursAt(b, Offset(ps, 7), Truncated(a.summary, EmailSummaryLimit))
      && OccursAt(b, Offset(ps, 9), a.link)
  {
    var ps := HtmlPieces(f, i, a);
    PieceAt(ps, 1);
    PieceAt(ps, 3);
    PieceAt(ps, 5);
    PieceAt(ps, 7);
    PieceAt(ps, 9);
  }

  // ---------------------------------------------------------------------------
  // format_articles_for_text
  // ---------------------------------------------------------------------------

  /** The fixed text of the plain-text body, around the date and around each
      block's fields. */
  datatype PlainText = PlainText(
    headerStart: string, footer: string,
    open: string, beforePublished: string, beforeLink: string, beforeSummary: string, close: string)

  /** The template of `format_articles_for_text`. */
  const Plain := PlainText(
    "\n\U{1F6F0}\U{FE0F} AEROSPACE & DEFENSE NEWS\nLatest Articles - ",
    "\nGenerated automatically from aerospace and defense RSS feeds\n",
    "\n",
    "\n   \U{1F4C5} Published: ",
    "\n   \U{1F517} Link: ",
    "\n   \U{1F4DD} Summary: ",
    "\n   \n")

  /** The opening of the plain-text body: the date, then a rule of 50 '='. */
  function TextHeader(f: PlainText, date: string): string
  {
    f.headerStart + date + "\n" + Repeat('=', 50) + "\n\n"
  }

  /** The pieces of the block for article number `i`: the number is piece 1, the
      title 3, the date 5, the link 7 and the cut summary 9. */
  function TextPieces(f: PlainText, i: nat, a: Article): seq<string>
  {
    [f.open, NatToString(i), ". ", a.title,
     f.beforePublished, a.published,
     f.beforeLink, a.link,
     f.beforeSummary, Truncated(a.summary, EmailSummaryLimit),
     f.close]
  }

  function TextBlock(f: PlainText, i: nat, a: Article): string
  {
    Concat(TextPieces(f, i, a))
  }

  /** One block per article, numbered from 1. */
  function TextBlocks(f: PlainText, articles: seq<Article>): (r: seq<string>)
    ensures |r| == |articles|
  {
    seq(|articles|, k requires 0 <= k < |articles| => TextBlock(f, k + 1, articles[k]))
  }

  /** Header, the blocks, footer. */
  function TextParts(f: PlainText, articles: seq<Article>, date: string): (r: seq<string>)
    ensures |r| == |articles| + 2
  {
    [TextHeader(f, date)] + TextBlocks(f, articles) + [f.footer]
  }

  /** The plain-text body for `articles`. */
  function TextDigest(f: PlainText, articles: seq<Article>, date: string): string
  {
    Concat(TextParts(f, articles, date))
  }

  /** `format_articles_for_text(articles)`. */
  method FormatArticlesForText(articles: seq<Article>, date: string) returns (text: string)
    ensures text == TextDigest(Plain, articles, date)
  {
    text := TextHeader(Plain, date);
    ghost var parts: seq<string> := [text];
    ConcatSnoc([], text);
    var i := 0;
    while i < |articles|
      invariant 0 <= i <= |articles|
      invariant parts == [TextHeader(Plain, date)] + TextBlocks(Plain, articles[..i])
      invariant text == Concat(parts)
    {
      var block := TextBlock(Plain, i + 1, articles[i]);
      ConcatSnoc(parts, block);
      text := text + block;
      parts := parts + [block];
      assert TextBlocks(Plain, articles[..i + 1]) == TextBlocks(Plain, articles[..i]) + [block];
      i := i + 1;
    }
    ConcatSnoc(parts, Plain.footer);
    text := text + Plain.footer;
    assert articles[..i] == articles;
  }

  /** Article `k` (from 0) has its block in the plain-text body right after the
      header and the blocks of the `k` articles before it. */
  lemma TextBlockAt(f: PlainText, articles: seq<Article>, date: string, k: nat)
    requires k < |articles|
    ensures var parts := TextParts(f, articles, date);
      && Offset(parts, k + 1) == |TextHeader(f, date)| + |Concat(TextBlocks(f, articles[..k]))|
      && OccursAt(TextDigest(f, articles, date), Offset(parts, k + 1), TextBlock(f, k + 1, articles[k]))
  {
    var parts := TextParts(f, articles, date);
    PieceAt(parts, k + 1);
    assert parts[..k + 1] == [TextHeader(f, date)] + TextBlocks(f, articles[..k]);
    ConcatAppend([TextHeader(f, date)], TextBlocks(f, articles[..k]));
    ConcatSnoc([], TextHeader(f, date));
  }

  /** The block for article number `i` shows, at the offsets of their pieces, the
      number, the title, the date, the link and the summary cut at 300. */
  lemma TextBlockFields(f: PlainText, i: nat, a: Article)
    ensures var b := TextBlock(f, i, a); var ps := TextPieces(f, i, a);
      && OccursAt(b, Offset(ps, 1), NatToString(i))
      && OccursAt(b, Offset(ps, 3), a.title)
      && OccursAt(b, Offset(ps, 5), a.published)
      && OccursAt(b, Offset(ps, 7), a.link)
      && OccursAt(b, Offset(ps, 9), Truncated(a.summary, EmailSummaryLimit))
  {
    var ps := TextPieces(f, i, a);
    PieceAt(ps, 1);
    PieceAt(ps, 3);
    PieceAt(ps, 5);
    PieceAt(ps, 7);
    PieceAt(ps, 9);
  }
}
