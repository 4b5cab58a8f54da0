/**
  The tables of contents: one Obsidian wikilink per line, `[[target|caption]]`, numbered from 1
  and zero-padded to two digits. The section TOC of `Section.generate_section_toc` and the
  course TOC of `Course.generate_course_template` are described here as lists of lines, by
  the position of each section in the course; the classes in `Pages` build them with loops.
*/
module Toc {
  import opened Chars
  import opened Numbers
  import opened Slug
  import opened Title

  /** The page number of index pages, `00-`. */
  const IndexPage: nat := 0

  /** The page number of flashcard pages, `99-`. */
  const FlashcardsPage: nat := 99

  /**
    One TOC line, by what it links to: the course index, a section index (directory mode), a
    subsection, a section's flashcard page, or a section page (flat mode). Numbers are the
    1-based positions of the section (`num`) and subsection (`sub`).
  */
  datatype Line =
    | CourseLine(slug: string, short: string, title: string)
    | SectionLine(num: int, short: string, title: string)
    | SubsectionLine(num: int, sub: int, short: string, title: string)
    | FlashcardsLine(num: int, short: string, title: string)
    | FlatLine(num: int, short: string, title: string)

  /** Subsection and flashcard lines are indented by a tab under their section. */
  predicate Indented(l: Line) {
    l.SubsectionLine? || l.FlashcardsLine?
  }

  /** The page a line links to. */
  function Target(l: Line): string {
    match l
    case CourseLine(slug, _, _) => Format02(IndexPage) + "-" + slug
    case SectionLine(_, _, title) => Format02(IndexPage) + "-" + GenerateSlug(title)
    case SubsectionLine(_, sub, _, title) => Format02(sub) + "-" + GenerateSlug(title)
    case FlashcardsLine(_, _, title) => Decimal(FlashcardsPage) + "-flashcards_" + GenerateSlug(title)
    case FlatLine(num, _, title) => Format02(num) + "-" + GenerateSlug(title)
  }

  /** The text a line shows for its link. */
  function Caption(l: Line): string {
    match l
    case CourseLine(_, short, title) => short + " - " + HandleTitle(title)
    case SectionLine(num, short, title) =>
      short + " - " + Format02(num) + "." + Format02(IndexPage) + " - " + HandleTitle(title)
    case SubsectionLine(num, sub, short, title) =>
      short + " - " + Format02(num) + "." + Format02(sub) + " - " + HandleTitle(title)
    case FlashcardsLine(num, short, title) =>
      short + " - " + Format02(num) + "." + Decimal(FlashcardsPage) + " - " + HandleTitle(title) + " Flashcards"
    case FlatLine(num, short, title) => short + " - " + Format02(num) + " - " + HandleTitle(title)
  }

  /** The text of a TOC line: an (indented) list item holding `[[target|caption]]`. */
  function LineText(l: Line): string {
    (if Indented(l) then "\t" else "") + "- [[" + Target(l) + "|" + Caption(l) + "]]\n"
  }

  /** The text of a whole TOC: its lines one after the other (`"".join(lines)`). */
  function TocText(lines: seq<Line>): string {
    if lines == [] then [] else TocText(lines[..|lines| - 1]) + LineText(lines[|lines| - 1])
  }

  /** The subsection lines of section `num`, numbered from 1. */
  function SubsectionLines(num: int, short: string, subs: seq<string>): seq<Line> {
    seq(|subs|, k requires 0 <= k < |subs| => SubsectionLine(num, k + 1, short, subs[k]))
  }

  lemma SubsectionLinesSnoc(num: int, short: string, subs: seq<string>, k: nat)
    requires k < |subs|
    ensures SubsectionLines(num, short, subs[..k + 1]) ==
      SubsectionLines(num, short, subs[..k]) + [SubsectionLine(num, k + 1, short, subs[k])]
  {
  }

  /** Titles, subsections and "is this the current section" flags of the same length. */
  predicate Shaped(titles: seq<string>, subs: seq<seq<string>>, self: seq<bool>) {
    |titles| == |subs| == |self|
  }

  // ---------------------------------------------------------------------------------------
  // The section TOC
  // ---------------------------------------------------------------------------------------

  /**
    The lines the section TOC holds for the section at position `num - 1`. In directory mode:
    its link, and, for the current section only, its subsections and its flashcard page.
    In flat mode: its flat link, or nothing when `no_toc` is set.
  */
  function SectionEntry(num: int, short: string, title: string, isSelf: bool, subs: seq<string>,
                        writeDirs: bool, noToc: bool): seq<Line>
  {
    if writeDirs then
      [SectionLine(num, short, title)] +
      (if isSelf then SubsectionLines(num, short, subs) + [FlashcardsLine(num, short, title)] else [])
    else if !noToc then [FlatLine(num, short, title)]
    else []
  }

  /** The section TOC's lines for the first `n` sections. */
  function SectionEntries(short: string, titles: seq<string>, subs: seq<seq<string>>, self: seq<bool>,
                          writeDirs: bool, noToc: bool, n: nat): seq<Line>
    requires Shaped(titles, subs, self) && n <= |titles|
  {
    if n == 0 then []
    else
      SectionEntries(short, titles, subs, self, writeDirs, noToc, n - 1) +
      SectionEntry(n, short, titles[n - 1], self[n - 1], subs[n - 1], writeDirs, noToc)
  }

  /** All lines of the section TOC: the course link, then every section's entry in order. */
  function SectionTocLines(slug: string, short: string, courseTitle: string, titles: seq<string>,
                           subs: seq<seq<string>>, self: seq<bool>, writeDirs: bool, noToc: bool): seq<Line>
    requires Shaped(titles, subs, self)
  {
    [CourseLine(slug, short, courseTitle)] + SectionEntries(short, titles, subs, self, writeDirs, noToc, |titles|)
  }

  /** The number of extra lines the current section(s) add in directory mode. */
  function SelfLines(subs: seq<seq<string>>, self: seq<bool>, n: nat): nat
    requires |subs| == |self| && n <= |subs|
  {
    if n == 0 then 0
    else SelfLines(subs, self, n - 1) + (if self[n - 1] then |subs[n - 1]| + 1 else 0)
  }

  lemma {:induction false} SectionEntriesCount(short: string, titles: seq<string>, subs: seq<seq<string>>,
                                               self: seq<bool>, writeDirs: bool, noToc: bool, n: nat)
    requires Shaped(titles, subs, self) && n <= |titles|
    ensures |SectionEntries(short, titles, subs, self, writeDirs, noToc, n)| ==
      if writeDirs then n + SelfLines(subs, self, n) else if noToc then 0 else n
  {
    if n > 0 {
      SectionEntriesCount(short, titles, subs, self, writeDirs, noToc, n - 1);
    }
  }

  /** With exactly one current section, at `me`, only it adds lines. */
  lemma {:induction false} SelfLinesOne(subs: seq<seq<string>>, self: seq<bool>, me: nat, n: nat)
    requires |subs| == |self| && n <= |subs| && me < |self|
    requires forall j :: 0 <= j < |self| ==> (self[j] <==> j == me)
    ensures SelfLines(subs, self, n) == if me < n then |subs[me]| + 1 else 0
  {
    if n > 0 {
      SelfLinesOne(subs, self, me, n - 1);
    }
  }

  /**
    Line counts of the section TOC: in directory mode 1 + n + k + 1 when the current section,
    with k subsections, appears once among the n sections; in flat mode 1 + n, or 1 when
    `no_toc` is set.
  */
  lemma SectionTocCount(slug: string, short: string, courseTitle: string, titles: seq<string>,
                        subs: seq<seq<string>>, self: seq<bool>, writeDirs: bool, noToc: bool, me: nat)
    requires Shaped(titles, subs, self) && me < |self|
    requires forall j :: 0 <= j < |self| ==> (self[j] <==> j == me)
    ensures var lines := SectionTocLines(slug, short, courseTitle, titles, subs, self, writeDirs, noToc);
      |lines| == if writeDirs then 1 + |titles| + |subs[me]| + 1
                 else if noToc then 1 else 1 + |titles|
  {
    SectionEntriesCount(short, titles, subs, self, writeDirs, noToc, |titles|);
    SelfLinesOne(subs, self, me, |titles|);
  }

  lemma {:induction false} SectionEntriesPrefix(short: string, titles: seq<string>, subs: seq<seq<string>>,
                                                self: seq<bool>, writeDirs: bool, noToc: bool, m: nat, n: nat)
    requires Shaped(titles, subs, self) && m <= n <= |titles|
    ensures var e := SectionEntries(short, titles, subs, self, writeDirs, noToc, n);
      var p := SectionEntries(short, titles, subs, self, writeDirs, noToc, m);
      |p| <= |e| && e[..|p|] == p
  {
    if m < n {
      SectionEntriesPrefix(short, titles, subs, self, writeDirs, noToc, m, n - 1);
      var e := SectionEntries(short, titles, subs, self, writeDirs, noToc, n - 1);
      var x := SectionEntry(n, short, titles[n - 1], self[n - 1], subs[n - 1], writeDirs, noToc);
      assert (e + x)[..|e|] == e;
    }
  }

  /**
    Sections appear in insertion order: the lines of section `j + 1` are exactly its entry,
    placed right after the lines of the sections before it.
  */
  lemma SectionEntriesOrder(short: string, titles: seq<string>, subs: seq<seq<string>>,
                            self: seq<bool>, writeDirs: bool, noToc: bool, j: nat)
    requires Shaped(titles, subs, self) && j < |titles|
    ensures var e := SectionEntries(short, titles, subs, self, writeDirs, noToc, |titles|);
      var lo := |SectionEntries(short, titles, subs, self, writeDirs, noToc, j)|;
      var hi := |SectionEntries(short, titles, subs, self, writeDirs, noToc, j + 1)|;
      lo <= hi <= |e| &&
      e[lo..hi] == SectionEntry(j + 1, short, titles[j], self[j], subs[j], writeDirs, noToc)
  {
    var e := SectionEntries(short, titles, subs, self, writeDirs, noToc, |titles|);
    var p := SectionEntries(short, titles, subs, self, writeDirs, noToc, j);
    var q := SectionEntries(short, titles, subs, self, writeDirs, noToc, j + 1);
    SectionEntriesPrefix(short, titles, subs, self, writeDirs, noToc, j + 1, |titles|);
    assert q == p + SectionEntry(j + 1, short, titles[j], self[j], subs[j], writeDirs, noToc);
    assert e[|p|..|q|] == q[|p|..];
  }

  /** In directory mode each section's entry starts with its link. */
  lemma SectionEntryHead(num: int, short: string, title: string, isSelf: bool, subs: seq<string>, noToc: bool)
    ensures var x := SectionEntry(num, short, title, isSelf, subs, true, noToc);
      |x| == (if isSelf then |subs| + 2 else 1) && x[0] == SectionLine(num, short, title)
  {
  }

  /** In flat mode line `j` of the entries is the flat link of section `j + 1`. */
  lemma {:induction false} FlatEntries(short: string, titles: seq<string>, subs: seq<seq<string>>,
                                       self: seq<bool>, n: nat)
    requires Shaped(titles, subs, self) && n <= |titles|
    ensures var e := SectionEntries(short, titles, subs, self, false, false, n);
      |e| == n && forall j :: 0 <= j < n ==> e[j] == FlatLine(j + 1, short, titles[j])
  {
    if n > 0 {
      FlatEntries(short, titles, subs, self, n - 1);
    }
  }

  // ---------------------------------------------------------------------------------------
  // The course TOC
  // ---------------------------------------------------------------------------------------

  /**
    The lines the course TOC holds for the section at position `num - 1`: in directory mode
    its link, all its subsections and its flashcard page; in flat mode its flat link.
  */
  function CourseEntry(num: int, short: string, title: string, subs: seq<string>, writeDirs: bool): seq<Line> {
    if writeDirs then
      [SectionLine(num, short, title)] + SubsectionLines(num, short, subs) + [FlashcardsLine(num, short, title)]
    else [FlatLine(num, short, title)]
  }

  /** The course TOC's lines for the first `n` sections. */
  function CourseEntries(short: string, titles: seq<string>, subs: seq<seq<string>>, writeDirs: bool, n: nat): seq<Line>
    requires |titles| == |subs| && n <= |titles|
  {
    if n == 0 then []
    else CourseEntries(short, titles, subs, writeDirs, n - 1) + CourseEntry(n, short, titles[n - 1], subs[n - 1], writeDirs)
  }

  /** All lines of the course TOC. */
  function CourseTocLines(slug: string, short: string, courseTitle: string, titles: seq<string>,
                          subs: seq<seq<string>>, writeDirs: bool): seq<Line>
    requires |titles| == |subs|
  {
    [CourseLine(slug, short, courseTitle)] + CourseEntries(short, titles, subs, writeDirs, |titles|)
  }

  /** Lines sections `0..n-1` take in the course TOC in directory mode. */
  function AllLines(subs: seq<seq<string>>, n: nat): nat
    requires n <= |subs|
  {
    if n == 0 then 0 else AllLines(subs, n - 1) + |subs[n - 1]| + 2
  }

  /**
    Line counts of the course TOC: one course line plus, per section, its link, its
    subsections and its flashcard line in directory mode; one line per section in flat mode.
  */
  lemma {:induction false} CourseEntriesCount(short: string, titles: seq<string>, subs: seq<seq<string>>,
                                              writeDirs: bool, n: nat)
    requires |titles| == |subs| && n <= |titles|
    ensures |CourseEntries(short, titles, subs, writeDirs, n)| == if writeDirs then AllLines(subs, n) else n
  {
    if n > 0 {
      CourseEntriesCount(short, titles, subs, writeDirs, n - 1);
    }
  }

  /**
    The course TOC is the section TOC seen from every section at once: with every section
    marked current (and `no_toc` off) the two agree line for line.
  */
  lemma {:induction false} CourseIsEverySection(short: string, titles: seq<string>, subs: seq<seq<string>>,
                                                self: seq<bool>, writeDirs: bool, n: nat)
    requires Shaped(titles, subs, self) && n <= |titles|
    requires forall j :: 0 <= j < |self| ==> self[j]
    ensures CourseEntries(short, titles, subs, writeDirs, n) == SectionEntries(short, titles, subs, self, writeDirs, false, n)
  {
    if n > 0 {
      CourseIsEverySection(short, titles, subs, self, writeDirs, n - 1);
      assert self[n - 1];
    }
  }

  /**
    In flat mode (without `no_toc`) the section TOC does not depend on which section is
    current and equals the course TOC.
  */
  lemma {:induction false} FlatSectionIsCourse(short: string, titles: seq<string>, subs: seq<seq<string>>,
                                               self: seq<bool>, n: nat)
    requires Shaped(titles, subs, self) && n <= |titles|
    ensures CourseEntries(short, titles, subs, false, n) == SectionEntries(short, titles, subs, self, false, false, n)
  {
    if n > 0 {
      FlatSectionIsCourse(short, titles, subs, self, n - 1);
    }
  }

  /**
    Only the current section shows its subsections: a section TOC in directory mode is the
    course TOC of a course in which every other section has neither subsections nor
    flashcard line, which is to say its entry is the single section link.
  */
  lemma OtherSectionsCollapsed(num: int, short: string, title: string, subs: seq<string>, noToc: bool)
    ensures SectionEntry(num, short, title, false, subs, true, noToc) == [SectionLine(num, short, title)]
    ensures SectionEntry(num, short, title, true, subs, true, noToc) == CourseEntry(num, short, title, subs, true)
  {
  }
}
