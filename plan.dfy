/**
  What the program writes, as values: the page records (`MarkdownPage`), the page templates
  and titles, the course output directory, and the list of file-system actions one section
  performs in `generate_dir_and_markdown_files`. Nothing here touches a disk: a write is an
  action holding the path and the page to render, and the working directory is a parameter.
*/
module Plan {
  import opened Wrappers
  import opened Chars
  import opened Numbers
  import opened Slug
  import opened Title
  import opened Markdown
  import opened Toc

  // ---------------------------------------------------------------------------------------
  // Page templates
  // ---------------------------------------------------------------------------------------

  /**
    A page template, named by the call that renders it; `Text` renders it. Every kind but
    the course index goes through `render_markdown`; the course index is rendered once by
    the course and kept as text.
  */
  datatype Doc =
    | SectionIndexDoc(short: string, index: int, title: string, toc: string)
    | FlashcardDoc(short: string, index: int, title: string, subs: seq<string>, toc: string)
    | SubsectionDoc(short: string, index: int, sub: int, title: string, toc: string, outline: string)
    | FlatDoc(short: string, index: int, title: string, toc: string, outline: string)
    | CourseDoc(text: string)

  /** The title handed to `render_markdown`. */
  function DocTitle(d: Doc): string
    requires !d.CourseDoc?
  {
    match d
    case SectionIndexDoc(short, index, title, _) =>
      short + " - " + Format02(index) + "." + Format02(IndexPage) + " - " + HandleTitle(title)
    case FlashcardDoc(short, index, title, _, _) =>
      short + " - " + Format02(index) + "." + Decimal(FlashcardsPage) + " - " + HandleTitle(title) + " Flashcards"
    case SubsectionDoc(short, index, sub, title, _, _) =>
      short + " - " + Format02(index) + "." + Format02(sub) + " - " + HandleTitle(title)
    case FlatDoc(short, index, title, _, _) =>
      short + " - " + Format02(index) + " - " + HandleTitle(title)
  }

  /** Only the flashcard page is rendered without the `dates` property. */
  function DocDates(d: Doc): bool {
    !d.FlashcardDoc?
  }

  /** The H2 header of one subsection on the flashcard page, followed by two blank lines. */
  function FlashcardHeader(sub: string): string {
    "## " + HandleTitle(sub) + "\n\n\n"
  }

  /** One header per subsection, in order. */
  function FlashcardHeaders(subs: seq<string>): (r: seq<string>)
    ensures |r| == |subs|
  {
    if subs == [] then [] else FlashcardHeaders(subs[..|subs| - 1]) + [FlashcardHeader(subs[|subs| - 1])]
  }

  lemma FlashcardHeadersSnoc(subs: seq<string>, k: nat)
    requires k < |subs|
    ensures FlashcardHeaders(subs[..k + 1]) == FlashcardHeaders(subs[..k]) + [FlashcardHeader(subs[k])]
  {
    assert subs[..k + 1][..k] == subs[..k];
  }

  /** Header `k` of the flashcard page is the H2 header of subsection `k`. */
  lemma {:induction false} FlashcardHeadersAt(subs: seq<string>, k: nat)
    requires k < |subs|
    ensures FlashcardHeaders(subs)[k] == FlashcardHeader(subs[k])
    decreases |subs|
  {
    var init := subs[..|subs| - 1];
    var front := FlashcardHeaders(init);
    var last := FlashcardHeader(subs[|subs| - 1]);
    assert FlashcardHeaders(subs) == front + [last];
    if k < |init| {
      FlashcardHeadersAt(init, k);
      assert (front + [last])[k] == front[k];
      assert init[k] == subs[k];
    } else {
      assert k == |front|;
      assert (front + [last])[k] == last;
    }
  }

  /** The `extra` block handed to `render_markdown`. */
  function DocExtra(d: Doc): string
    requires !d.CourseDoc?
  {
    match d
    case SectionIndexDoc(_, _, _, _) => DefaultExtra
    case FlashcardDoc(_, _, _, subs, _) => Concat(FlashcardHeaders(subs))
    case SubsectionDoc(_, _, _, _, _, outline) => outline
    case FlatDoc(_, _, _, _, outline) => outline
  }

  /** The text of a page. */
  function Text(d: Doc): string {
    if d.CourseDoc? then d.text else RenderMarkdown(DocTitle(d), d.toc, DocDates(d), DocExtra(d))
  }

  /** The extra block subsection pages (and flat section pages) get when none is given. */
  const DefaultOutline: string := "## Key Points/Concepts\n\n## Lecture\n\n## Misc."

  /** `extra_section` if it is given and not empty, else `DefaultOutline`. */
  function Outline(extraSection: Option<string>): (r: string)
    ensures extraSection.Some? && extraSection.value != [] ==> r == extraSection.value
    ensures extraSection.None? || extraSection.value == [] ==> r == DefaultOutline
  {
    if extraSection.Some? && extraSection.value != [] then extraSection.value else DefaultOutline
  }

  /** `handle_title` only changes letter case, so it never introduces a double quote. */
  lemma HandleTitleQuoteFree(t: string)
    requires '"' !in t
    ensures '"' !in HandleTitle(t)
  {
    HandleTitleOnlyCase(t);
    var h := HandleTitle(t);
    forall i | 0 <= i < |h| ensures h[i] != '"' {
      assert Lower(h)[i] == Lower(t)[i];
    }
  }

  lemma Format02QuoteFree(n: int)
    ensures '"' !in Format02(n)
  {
    var f := Format02(n);
    forall i | 0 <= i < |f| ensures f[i] != '"' {
      if n < 0 && i > 0 {
        assert f[i] == f[1..][i - 1];
      }
    }
  }

  /** A page title built from quote-free pieces is quote-free. */
  lemma DocTitleQuoteFree(d: Doc)
    requires !d.CourseDoc? && '"' !in d.short && '"' !in d.title
    ensures '"' !in DocTitle(d)
  {
    HandleTitleQuoteFree(d.title);
    Format02QuoteFree(d.index);
    match d
    case SectionIndexDoc(short, index, title, toc) => SectionTitleQuoteFree(short, index, title, toc);
    case FlashcardDoc(short, index, title, subs, toc) => FlashcardTitleQuoteFree(short, index, title, subs, toc);
    case SubsectionDoc(short, index, sub, title, toc, outline) => SubsectionTitleQuoteFree(short, index, sub, title, toc, outline);
    case FlatDoc(short, index, title, toc, outline) => FlatTitleQuoteFree(short, index, title, toc, outline);
  }

  lemma SectionTitleQuoteFree(short: string, index: int, title: string, toc: string)
    requires '"' !in short && '"' !in HandleTitle(title) && '"' !in Format02(index)
    ensures '"' !in DocTitle(SectionIndexDoc(short, index, title, toc))
  {
    Format02QuoteFree(IndexPage);
    QuoteFree7(short, " - ", Format02(index), ".", Format02(IndexPage), " - ", HandleTitle(title));
  }

  lemma FlashcardTitleQuoteFree(short: string, index: int, title: string, subs: seq<string>, toc: string)
    requires '"' !in short && '"' !in HandleTitle(title) && '"' !in Format02(index)
    ensures '"' !in DocTitle(FlashcardDoc(short, index, title, subs, toc))
  {
    DecimalQuoteFree(FlashcardsPage);
    QuoteFree8(short, " - ", Format02(index), ".", Decimal(FlashcardsPage), " - ", HandleTitle(title), " Flashcards");
  }

  lemma DecimalQuoteFree(n: nat)
    ensures '"' !in Decimal(n)
  {
    var d := Decimal(n);
    forall i | 0 <= i < |d| ensures d[i] != '"' { assert IsDigit(d[i]); }
  }

  lemma SubsectionTitleQuoteFree(short: string, index: int, sub: int, title: string, toc: string, outline: string)
    requires '"' !in short && '"' !in HandleTitle(title) && '"' !in Format02(index)
    ensures '"' !in DocTitle(SubsectionDoc(short, index, sub, title, toc, outline))
  {
    Format02QuoteFree(sub);
    QuoteFree7(short, " - ", Format02(index), ".", Format02(sub), " - ", HandleTitle(title));
  }

  lemma FlatTitleQuoteFree(short: string, index: int, title: string, toc: string, outline: string)
    requires '"' !in short && '"' !in HandleTitle(title) && '"' !in Format02(index)
    ensures '"' !in DocTitle(FlatDoc(short, index, title, toc, outline))
  {
    var h := HandleTitle(title);
    QuoteFree7(short, " - ", Format02(index), " - ", h, "", "");
    assert short + " - " + Format02(index) + " - " + h + "" + "" == short + " - " + Format02(index) + " - " + h;
  }

  lemma QuoteFree8(a: string, b: string, c: string, d: string, e: string, f: string, g: string, h: string)
    requires '"' !in a && '"' !in b && '"' !in c && '"' !in d && '"' !in e && '"' !in f && '"' !in g && '"' !in h
    ensures '"' !in a + b + c + d + e + f + g + h
  {
    QuoteFree7(a, b, c, d, e, f, g);
  }

  lemma QuoteFree7(a: string, b: string, c: string, d: string, e: string, f: string, g: string)
    requires '"' !in a && '"' !in b && '"' !in c && '"' !in d && '"' !in e && '"' !in f && '"' !in g
    ensures '"' !in a + b + c + d + e + f + g
  {
  }

  /**
    Reading a rendered page back: when the short title and the page's own title are free of
    double quotes, the front-matter title is the title handed to `render_markdown`; the page
    carries `dates: []` exactly when it is not the flashcard page; and it ends with the page's
    extra block.
  */
  lemma DocReadBack(d: Doc)
    requires !d.CourseDoc? && '"' !in d.short && '"' !in d.title
    ensures TitleField(Text(d)) == DocTitle(d)
    ensures var r := Text(d); var k := DatesAt(DocTitle(d));
      k + 9 <= |r| && (r[k..k + 9] == "dates: []" <==> !d.FlashcardDoc?)
    ensures var r := Text(d); |DocExtra(d)| <= |r| && r[|r| - |DocExtra(d)|..] == DocExtra(d)
  {
    DocTitleReadBack(d);
    DocDatesReadBack(d);
    DocExtraReadBack(d);
  }

  lemma DocTitleReadBack(d: Doc)
    requires !d.CourseDoc? && '"' !in d.short && '"' !in d.title
    ensures TitleField(Text(d)) == DocTitle(d)
  {
    DocTitleQuoteFree(d);
    RenderTitleRoundTrip(DocTitle(d), d.toc, DocDates(d), DocExtra(d));
  }

  lemma DocDatesReadBack(d: Doc)
    requires !d.CourseDoc?
    ensures var r := Text(d); var k := DatesAt(DocTitle(d));
      k + 9 <= |r| && (r[k..k + 9] == "dates: []" <==> !d.FlashcardDoc?)
  {
    RenderDatesIff(DocTitle(d), d.toc, DocDates(d), DocExtra(d));
  }

  lemma DocExtraReadBack(d: Doc)
    requires !d.CourseDoc?
    ensures var r := Text(d); |DocExtra(d)| <= |r| && r[|r| - |DocExtra(d)|..] == DocExtra(d)
  {
    RenderLayout(DocTitle(d), d.toc, DocDates(d), DocExtra(d));
  }

  /** `Course.generate_course_template`: the course index page, without dates. */
  function CourseTemplate(slug: string, short: string, courseTitle: string, titles: seq<string>,
                          subs: seq<seq<string>>, writeDirs: bool): string
    requires |titles| == |subs|
  {
    RenderMarkdown(short + " - " + HandleTitle(courseTitle),
                   TocText(CourseTocLines(slug, short, courseTitle, titles, subs, writeDirs)), false, DefaultExtra)
  }

  // ---------------------------------------------------------------------------------------
  // Pages and actions
  // ---------------------------------------------------------------------------------------

  /** The `MarkdownPage` record: title, slug, template and file name. */
  datatype Page = Page(title: string, slug: string, template: Doc, filename: string)

  /** A planned file-system effect. */
  datatype Action =
    | MakeDirs(path: string)              // `os.makedirs(path, exist_ok=True)`
    | WriteFile(path: string, page: Doc)  // create the parent directory, then write `Text(page)`

  /** `FileGenerator.create_markdown_file(page, out_dir)`: write the template to `out_dir/filename`. */
  function CreateMarkdownFile(page: Page, outDir: string): Action {
    WriteFile(outDir + "/" + page.filename, page.template)
  }

  /** The page's template is written to the file named `filename` inside `out_dir`. */
  lemma CreateMarkdownFilePath(page: Page, outDir: string)
    ensures var a := CreateMarkdownFile(page, outDir);
      a.WriteFile? && a.page == page.template &&
      |a.path| == |outDir| + 1 + |page.filename| &&
      a.path[..|outDir|] == outDir && a.path[|outDir|..] == "/" + page.filename
  {
    var a := CreateMarkdownFile(page, outDir);
    assert a.path == outDir + ("/" + page.filename);
  }

  // ---------------------------------------------------------------------------------------
  // Paths
  // ---------------------------------------------------------------------------------------

  /**
    `os.path.join(a, b)` on POSIX paths: `b` itself when it is absolute, else `a` and `b`
    with one `/` between them unless `a` is empty or already ends with `/`.
  */
  function PathJoin(a: string, b: string): string {
    if |b| > 0 && b[0] == '/' then b
    else if a == [] || a[|a| - 1] == '/' then a + b
    else a + "/" + b
  }

  /** The directory name of a course: `NN-slug` when the course number is truthy, else `slug`. */
  function CourseDirName(slug: string, courseNumber: Option<int>): string {
    if courseNumber.Some? && courseNumber.value != 0 then Format02(courseNumber.value) + "-" + slug else slug
  }

  /** `Course.output_dir`, with the working directory as a parameter. */
  function OutputDir(cwd: string, slug: string, courseNumber: Option<int>): string {
    PathJoin(cwd, CourseDirName(slug, courseNumber))
  }

  /**
    The course directory is the working directory followed by `NN-<slug>` when the course
    number is truthy and by the bare slug when it is missing or 0, with a `/` between them
    unless the working directory is empty or ends with one. A slug never starts with `/`,
    so the directory name never replaces the working directory.
  */
  lemma OutputDirShape(cwd: string, title: string, courseNumber: Option<int>)
    ensures var slug := GenerateSlug(title);
      var name := if courseNumber.Some? && courseNumber.value != 0
                  then Format02(courseNumber.value) + "-" + slug else slug;
      OutputDir(cwd, slug, courseNumber) ==
        (if cwd == [] || cwd[|cwd| - 1] == '/' then cwd + name else cwd + "/" + name)
  {
    var slug := GenerateSlug(title);
    var name := CourseDirName(slug, courseNumber);
    if courseNumber.Some? && courseNumber.value != 0 {
      var f := Format02(courseNumber.value);
      assert name[0] == f[0];
      if courseNumber.value >= 0 {
        assert IsDigit(f[0]);
      }
    } else if slug != [] {
      SlugIsClean(title);
      assert !Forbidden(slug[0]);
    }
  }

  // ---------------------------------------------------------------------------------------
  // The write plan of one section
  // ---------------------------------------------------------------------------------------

  /** What a section's plan needs to know about the course. */
  datatype CourseView = CourseView(outputDir: string, title: string, slug: string, template: string)

  /** The file name of page `n` of a directory: `NN-<slug>.md`. */
  function PageFileName(n: int, slug: string): string {
    Format02(n) + "-" + slug + ".md"
  }

  /** The file name of a section's flashcard page: `99-flashcards_<slug>.md`. */
  function FlashcardsFileName(slug: string): string {
    Decimal(FlashcardsPage) + "-flashcards_" + slug + ".md"
  }

  /** The course index page every section rewrites. */
  function CourseIndexPage(c: CourseView): Page {
    Page(c.title, c.slug, CourseDoc(c.template), PageFileName(IndexPage, c.slug))
  }

  /** The directory of section `index` in directory mode. */
  function SectionDir(c: CourseView, index: int, slug: string): string {
    c.outputDir + "/" + Format02(index) + "-" + slug
  }

  /** The page of subsection `sub` in directory mode; its record keeps the raw title. */
  function SubsectionPage(short: string, index: int, sub: int, title: string, toc: string, extra: Option<string>): Page {
    Page(title, GenerateSlug(title), SubsectionDoc(short, index, sub, title, toc, Outline(extra)),
         PageFileName(sub, GenerateSlug(title)))
  }

  /** The page file written for each subsection, in order. */
  function SubsectionWrites(outdir: string, short: string, index: int, subs: seq<string>,
                            toc: string, extra: Option<string>): (r: seq<Action>)
    ensures |r| == |subs|
  {
    seq(|subs|, k requires 0 <= k < |subs| =>
      CreateMarkdownFile(SubsectionPage(short, index, k + 1, subs[k], toc, extra), outdir))
  }

  /** The review directory made for each subsection, in order. */
  function SubsectionReviews(outdir: string, subs: seq<string>): (r: seq<Action>)
    ensures |r| == |subs|
  {
    seq(|subs|, k requires 0 <= k < |subs| =>
      MakeDirs(outdir + "/100-review_files/" + Format02(k + 1) + "-" + GenerateSlug(subs[k]) + "/"))
  }

  /** `xs[0], ys[0], xs[1], ys[1], ...`: one step of each list per round of a loop. */
  function Interleave<T>(xs: seq<T>, ys: seq<T>): (r: seq<T>)
    requires |xs| == |ys|
    ensures |r| == |xs| + |ys|
  {
    if xs == [] then [] else Interleave(xs[..|xs| - 1], ys[..|ys| - 1]) + [xs[|xs| - 1], ys[|ys| - 1]]
  }

  lemma {:induction false} InterleaveIndex<T>(xs: seq<T>, ys: seq<T>)
    requires |xs| == |ys|
    ensures forall k :: 0 <= k < |xs| ==> Interleave(xs, ys)[2 * k] == xs[k] && Interleave(xs, ys)[2 * k + 1] == ys[k]
  {
    if xs != [] {
      var n := |xs| - 1;
      InterleaveIndex(xs[..n], ys[..n]);
    }
  }

  /** One more round of the loop adds its two steps at the end. */
  lemma InterleaveSnoc<T>(xs: seq<T>, ys: seq<T>, k: nat)
    requires |xs| == |ys| && k < |xs|
    ensures Interleave(xs[..k + 1], ys[..k + 1]) == Interleave(xs[..k], ys[..k]) + [xs[k], ys[k]]
  {
    assert xs[..k + 1][..k] == xs[..k] && ys[..k + 1][..k] == ys[..k];
  }

  /** The same after a fixed head: round `k` sits at `|head| + 2 * k` and the next position. */
  lemma InterleaveAfter<T>(head: seq<T>, xs: seq<T>, ys: seq<T>)
    requires |xs| == |ys|
    ensures forall k :: 0 <= k < |xs| ==>
      (head + Interleave(xs, ys))[|head| + 2 * k] == xs[k] && (head + Interleave(xs, ys))[|head| + 2 * k + 1] == ys[k]
  {
    InterleaveIndex(xs, ys);
  }

  /** The actions of the subsection loop: per subsection, its page and then its review directory. */
  function SubsectionsPlan(outdir: string, short: string, index: int, subs: seq<string>,
                           toc: string, extra: Option<string>): seq<Action>
  {
    Interleave(SubsectionWrites(outdir, short, index, subs, toc, extra), SubsectionReviews(outdir, subs))
  }

  /** A section as its plan sees it: title, slug, subsections, and its course's short title. */
  datatype SectionView = SectionView(title: string, slug: string, subs: seq<string>, short: string)

  /**
    The actions of `generate_dir_and_markdown_files` for the section numbered `index`, whose
    TOC is `toc`. Directory mode: make its review directory; write its index page and its
    flashcard page into its directory and the course index into the course directory; then,
    per subsection, write its page and make its review directory. Flat mode: write the course
    index, then the section's single page, both into the course directory.
  */
  function SectionPlan(c: CourseView, s: SectionView, index: int, toc: string, writeDirs: bool,
                       extra: Option<string>): seq<Action>
  {
    if writeDirs then
      DirHead(c, s, index, toc) + SubsectionsPlan(SectionDir(c, index, s.slug), s.short, index, s.subs, toc, extra)
    else
      var doc := FlatDoc(s.short, index, s.title, toc, Outline(extra));
      [CreateMarkdownFile(CourseIndexPage(c), c.outputDir),
       CreateMarkdownFile(Page(DocTitle(doc), s.slug, doc, PageFileName(index, s.slug)), c.outputDir)]
  }

  /** The four actions directory mode performs before the subsection loop. */
  function DirHead(c: CourseView, s: SectionView, index: int, toc: string): (r: seq<Action>)
    ensures |r| == 4
  {
    var outdir := SectionDir(c, index, s.slug);
    [MakeDirs(outdir + "/100-review_files/"),
     CreateMarkdownFile(Page(s.title, s.slug, SectionIndexDoc(s.short, index, s.title, toc),
                             PageFileName(IndexPage, s.slug)), outdir),
     CreateMarkdownFile(Page(s.title + " Flashcards", s.slug, FlashcardDoc(s.short, index, s.title, s.subs, toc),
                             FlashcardsFileName(s.slug)), outdir),
     CreateMarkdownFile(CourseIndexPage(c), c.outputDir)]
  }

  /**
    Directory mode writes, per section, four actions and then two per subsection. The four
    come first: the review directory, then `00-<slug>.md` and `99-flashcards_<slug>.md` into
    the section directory, then the course index into the course directory.
  */
  lemma DirPlanHead(c: CourseView, s: SectionView, index: int, toc: string, extra: Option<string>)
    ensures var p := SectionPlan(c, s, index, toc, true, extra);
      var outdir := SectionDir(c, index, s.slug);
      |p| == 4 + 2 * |s.subs| &&
      p[0] == MakeDirs(outdir + "/100-review_files/") &&
      p[1] == WriteFile(outdir + "/" + PageFileName(IndexPage, s.slug), SectionIndexDoc(s.short, index, s.title, toc)) &&
      p[2] == WriteFile(outdir + "/" + FlashcardsFileName(s.slug), FlashcardDoc(s.short, index, s.title, s.subs, toc)) &&
      p[3] == CreateMarkdownFile(CourseIndexPage(c), c.outputDir)
  {
  }

  /**
    After the four fixed actions, subsection `k` (numbered `k + 1`) writes its page
    `KK-<subslug>.md` into the section directory and then makes `100-review_files/KK-<subslug>/`.
  */
  lemma DirPlanSubsections(c: CourseView, s: SectionView, index: int, toc: string, extra: Option<string>)
    ensures var p := SectionPlan(c, s, index, toc, true, extra);
      var outdir := SectionDir(c, index, s.slug);
      |p| == 4 + 2 * |s.subs| &&
      forall k :: 0 <= k < |s.subs| ==>
        p[4 + 2 * k] == CreateMarkdownFile(SubsectionPage(s.short, index, k + 1, s.subs[k], toc, extra), outdir) &&
        p[5 + 2 * k] == MakeDirs(outdir + "/100-review_files/" + Format02(k + 1) + "-" + GenerateSlug(s.subs[k]) + "/")
  {
    var outdir := SectionDir(c, index, s.slug);
    var p := SectionPlan(c, s, index, toc, true, extra);
    var w := SubsectionWrites(outdir, s.short, index, s.subs, toc, extra);
    var v := SubsectionReviews(outdir, s.subs);
    InterleaveAfter(DirHead(c, s, index, toc), w, v);
    forall k | 0 <= k < |s.subs|
      ensures p[4 + 2 * k] == CreateMarkdownFile(SubsectionPage(s.short, index, k + 1, s.subs[k], toc, extra), outdir)
      ensures p[5 + 2 * k] == MakeDirs(outdir + "/100-review_files/" + Format02(k + 1) + "-" + GenerateSlug(s.subs[k]) + "/")
    {
      assert p[4 + 2 * k] == w[k];
      assert p[5 + 2 * k] == v[k];
    }
  }

  /** A subsection's page is `KK-<subslug>.md` in the section directory, holding the subsection template. */
  lemma SubsectionFile(short: string, index: int, sub: int, title: string, toc: string, extra: Option<string>, outdir: string)
    ensures CreateMarkdownFile(SubsectionPage(short, index, sub, title, toc, extra), outdir) ==
      WriteFile(outdir + "/" + PageFileName(sub, GenerateSlug(title)), SubsectionDoc(short, index, sub, title, toc, Outline(extra)))
  {
  }

  /** Flat mode writes exactly the course index and then `NN-<slug>.md`, both into the course directory. */
  lemma FlatPlanShape(c: CourseView, s: SectionView, index: int, toc: string, extra: Option<string>)
    ensures var p := SectionPlan(c, s, index, toc, false, extra);
      |p| == 2 &&
      p[0] == CreateMarkdownFile(CourseIndexPage(c), c.outputDir) &&
      p[1] == WriteFile(c.outputDir + "/" + PageFileName(index, s.slug),
                        FlatDoc(s.short, index, s.title, toc, Outline(extra)))
  {
  }

  /** The identical course index page is among every section's writes, in both modes. */
  lemma CourseIndexRewritten(c: CourseView, s: SectionView, index: int, toc: string, writeDirs: bool,
                             extra: Option<string>)
    ensures WriteFile(c.outputDir + "/" + PageFileName(IndexPage, c.slug), CourseDoc(c.template)) in
      SectionPlan(c, s, index, toc, writeDirs, extra)
  {
    var p := SectionPlan(c, s, index, toc, writeDirs, extra);
    if writeDirs {
      assert p[3] == CreateMarkdownFile(CourseIndexPage(c), c.outputDir);
    } else {
      assert p[0] == CreateMarkdownFile(CourseIndexPage(c), c.outputDir);
    }
  }
}
