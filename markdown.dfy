/**
  `render_markdown`: the fixed page layout shared by every file the program writes. YAML
  front matter with the title, tags and (optionally) dates, the H1 title, the table of
  contents, a horizontal rule and then the extra block.
*/
module Markdown {
  /** The default `extra` block of `render_markdown`. */
  const DefaultExtra: string := "## Misc."

  /** Everything in front of the title in the YAML front matter. */
  const Opening: string := "---\ntitle: \""

  /** The text from the horizontal rule after the TOC to the start of `extra`. */
  const Closing: string := "\n---\n"

  /** The optional `dates` property line (its newline follows separately). */
  function DatesLine(dates: bool): string {
    if dates then "dates: []" else ""
  }

  /** The front-matter lines after the title: the closing quote, the tags and the dates. */
  function AfterTitle(dates: bool): (r: string)
    ensures |r| == if dates then 21 else 12
    ensures r[0] == '"'
  {
    "\"\ntags: []\n" + DatesLine(dates) + "\n"
  }

  /** From the end of the front matter to the start of the title in the H1 header. */
  const BeforeHeading: string := "---\n# "

  /** From the end of the H1 header to the start of the table of contents. */
  const BeforeToc: string := "\n## TOC\n"

  /** The page text for `title`, `table_of_contents`, `dates` and `extra`. */
  function RenderMarkdown(title: string, toc: string, dates: bool, extra: string): string {
    Opening + title + AfterTitle(dates) + BeforeHeading + title + BeforeToc + toc + Closing + extra
  }

  /**
    Where each piece of a page laid out as `o t a h t b toc c e` sits: the opening, the title
    after it, the closing text and the extra block at the end, the TOC right before them.
  */
  lemma Layout(o: string, t: string, a: string, h: string, b: string, toc: string, c: string, e: string)
    ensures var r := o + t + a + h + t + b + toc + c + e;
      |r| == |o| + 2 * |t| + |a| + |h| + |b| + |toc| + |c| + |e| &&
      r[..|o|] == o && r[|o|..|o| + |t|] == t && r[|o| + |t|..|o| + |t| + |a|] == a &&
      r[|r| - |e|..] == e && r[|r| - |e| - |c|..|r| - |e|] == c &&
      r[|r| - |e| - |c| - |toc|..|r| - |e| - |c|] == toc
  {
    var r := o + t + a + h + t + b + toc + c + e;
    Front(o, t, a, h + t + b + toc + c + e);
    Back(o + t + a + h + t + b, toc, c, e);
  }

  /** The first three pieces of `x + y + z + w`, by position. */
  lemma Front(x: string, y: string, z: string, w: string)
    ensures var r := x + y + z + w;
      r[..|x|] == x && r[|x|..|x| + |y|] == y && r[|x| + |y|..|x| + |y| + |z|] == z
  {
  }

  /** The last three pieces of `w + x + y + z`, by position from the end. */
  lemma Back(w: string, x: string, y: string, z: string)
    ensures var r := w + x + y + z;
      r[|r| - |z|..] == z && r[|r| - |z| - |y|..|r| - |z|] == y &&
      r[|r| - |z| - |y| - |x|..|r| - |z| - |y|] == x
  {
  }

  /**
    The page starts with `---`, a line break and `title: "`, followed by the title and its
    closing quote; it ends with the TOC, a horizontal rule on its own line and then `extra`;
    its length is twice the title's plus the TOC's and `extra`'s plus 52 characters of fixed
    layout (43 without the dates line).
  */
  lemma RenderLayout(title: string, toc: string, dates: bool, extra: string)
    ensures var r := RenderMarkdown(title, toc, dates, extra);
      |r| == 2 * |title| + |toc| + |extra| + (if dates then 52 else 43) &&
      r[..|Opening|] == Opening &&
      r[|Opening|..|Opening| + |title|] == title && r[|Opening| + |title|] == '"' &&
      r[|r| - |extra|..] == extra &&
      r[|r| - |extra| - |Closing|..|r| - |extra|] == Closing &&
      r[|r| - |extra| - |Closing| - |toc|..|r| - |extra| - |Closing|] == toc
  {
    var a := AfterTitle(dates);
    Layout(Opening, title, a, BeforeHeading, BeforeToc, toc, Closing, extra);
    assert |Opening| == 12 && |BeforeHeading| == 6 && |BeforeToc| == 8 && |Closing| == 5;
    var r := RenderMarkdown(title, toc, dates, extra);
    assert r[|Opening| + |title|] == r[|Opening| + |title|..|Opening| + |title| + |a|][0];
  }

  /**
    The title as it can be read back from the front matter: everything after `Opening` up to
    the first double quote.
  */
  function TitleField(r: string): (t: string)
    ensures '"' !in t
  {
    if |r| < |Opening| || r[..|Opening|] != Opening then [] else UpToQuote(r[|Opening|..])
  }

  /** The longest prefix of `s` without a double quote. */
  function UpToQuote(s: string): (t: string)
    ensures |t| <= |s| && t == s[..|t|] && '"' !in t
    ensures |t| < |s| ==> s[|t|] == '"'
  {
    if s == [] || s[0] == '"' then [] else [s[0]] + UpToQuote(s[1..])
  }

  lemma {:induction false} UpToQuoteOf(t: string, s: string)
    requires '"' !in t && |t| < |s| && s[..|t|] == t && s[|t|] == '"'
    ensures UpToQuote(s) == t
  {
    if t != [] {
      assert s[1..][..|t| - 1] == t[1..];
      UpToQuoteOf(t[1..], s[1..]);
    }
  }

  /**
    A title without double quotes is read back unchanged from the page's front matter, and
    the page ends with its `extra` block.
  */
  lemma RenderTitleRoundTrip(title: string, toc: string, dates: bool, extra: string)
    requires '"' !in title
    ensures TitleField(RenderMarkdown(title, toc, dates, extra)) == title
  {
    var r := RenderMarkdown(title, toc, dates, extra);
    RenderLayout(title, toc, dates, extra);
    var s := r[|Opening|..];
    assert s[..|title|] == title && s[|title|] == '"';
    UpToQuoteOf(title, s);
  }

  /** Where the `dates` line goes: right after the tags line. */
  function DatesAt(title: string): nat {
    |Opening| + |title| + 11
  }

  /** The page announces `dates: []` exactly when `dates` is set. */
  lemma RenderDatesIff(title: string, toc: string, dates: bool, extra: string)
    ensures var r := RenderMarkdown(title, toc, dates, extra);
      DatesAt(title) + 9 <= |r| &&
      (r[DatesAt(title)..DatesAt(title) + 9] == "dates: []" <==> dates)
  {
    var r := RenderMarkdown(title, toc, dates, extra);
    var a := AfterTitle(dates);
    Front(Opening, title, a, BeforeHeading + title + BeforeToc + toc + Closing + extra);
    var p := |Opening| + |title|;
    var k := DatesAt(title);
    assert k == p + 11 && |a| >= 12;
    assert r[p..p + |a|] == a;
    if dates {
      assert a[11..20] == "dates: []";
      assert r[k..k + 9] == r[p..p + |a|][11..20];
    } else {
      assert a[11] == '\n';
      assert r[k] == r[p..p + |a|][11];
    }
  }
}
