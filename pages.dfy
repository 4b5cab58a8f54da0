/**
  The `Section` and `Course` objects and the methods that fill their fields and produce the
  files of a course. File-system effects are returned as `Plan.Action` lists in the order the
  program performs them; the working directory is a parameter.
*/
module Pages {
  import opened Wrappers
  import opened Chars
  import opened Numbers
  import opened Slug
  import opened Title
  import opened Markdown
  import opened Toc
  import opened Plan

  /** The section titles of `ss`, in order. */
  function Titles(ss: seq<Section>): (r: seq<string>)
    ensures |r| == |ss| && forall i :: 0 <= i < |ss| ==> r[i] == ss[i].sectionTitle
  {
    if ss == [] then [] else Titles(ss[..|ss| - 1]) + [ss[|ss| - 1].sectionTitle]
  }

  /** The subsection lists of `ss`, in order. */
  function Subs(ss: seq<Section>): (r: seq<seq<string>>)
    reads (set s | s in ss)`subsections
    ensures |r| == |ss| && forall i :: 0 <= i < |ss| ==> r[i] == ss[i].subsections
  {
    if ss == [] then [] else Subs(ss[..|ss| - 1]) + [ss[|ss| - 1].subsections]
  }

  /** Which entries of `ss` are the object `me` itself (`section is self`). */
  function Flags(ss: seq<Section>, me: Section): (r: seq<bool>)
    ensures |r| == |ss| && forall i :: 0 <= i < |ss| ==> (r[i] <==> ss[i] == me)
  {
    if ss == [] then [] else Flags(ss[..|ss| - 1], me) + [ss[|ss| - 1] == me]
  }

  /** The section TOC's lines for the first `n` sections of `ss`, as seen from section `me`. */
  function EntriesOf(short: string, ss: seq<Section>, me: Section, writeDirs: bool, noToc: bool, n: nat): seq<Line>
    reads (set s | s in ss)`subsections
    requires n <= |ss|
  {
    SectionEntries(short, Titles(ss), Subs(ss), Flags(ss, me), writeDirs, noToc, n)
  }

  /** One more section adds its own entry at the end. */
  lemma EntriesOfSnoc(short: string, ss: seq<Section>, me: Section, writeDirs: bool, noToc: bool, n: nat)
    requires n < |ss|
    ensures EntriesOf(short, ss, me, writeDirs, noToc, n + 1) ==
      EntriesOf(short, ss, me, writeDirs, noToc, n) +
      SectionEntry(n + 1, short, ss[n].sectionTitle, ss[n] == me, ss[n].subsections, writeDirs, noToc)
  {
  }

  /** The lines of the TOC of section `me`, listing the sections `ss` of `course`. */
  function SectionTocOf(course: Course, ss: seq<Section>, me: Section, writeDirs: bool, noToc: bool): seq<Line>
    reads course`slug, (set s | s in ss)`subsections
  {
    SectionTocLines(course.slug, course.shortTitle, course.courseTitle, Titles(ss), Subs(ss), Flags(ss, me),
                    writeDirs, noToc)
  }

  /** No section after position `i` and before `n` is the same object as `ss[i]`. */
  predicate LastAt(ss: seq<Section>, i: nat, n: nat)
    requires i < n <= |ss|
  {
    forall k :: i < k < n ==> ss[k] != ss[i]
  }

  /** The section TOC is the course line followed by the entries of all sections. */
  lemma SectionTocOfEntries(course: Course, ss: seq<Section>, me: Section, writeDirs: bool, noToc: bool)
    ensures SectionTocOf(course, ss, me, writeDirs, noToc) ==
      [CourseLine(course.slug, course.shortTitle, course.courseTitle)] +
      EntriesOf(course.shortTitle, ss, me, writeDirs, noToc, |ss|)
  {
  }

  /** The section titles are read off the fields of the sections, so they are what the fields hold. */
  lemma TitlesOfFields(ss: seq<Section>, titles: seq<string>)
    requires |ss| == |titles| && forall i :: 0 <= i < |ss| ==> ss[i].sectionTitle == titles[i]
    ensures Titles(ss) == titles
  {
  }

  /** The same for the subsection lists. */
  lemma SubsOfFields(ss: seq<Section>, subs: seq<seq<string>>)
    requires |ss| == |subs| && forall i :: 0 <= i < |ss| ==> ss[i].subsections == subs[i]
    ensures Subs(ss) == subs
  {
  }

  /** How the plan of each section of `ss` sees it, when their subsection lists are `subs`. */
  function Views(ss: seq<Section>, subs: seq<seq<string>>): (r: seq<SectionView>)
    requires |ss| == |subs|
    ensures |r| == |ss|
  {
    seq(|ss|, i requires 0 <= i < |ss| =>
      SectionView(ss[i].sectionTitle, ss[i].slug, subs[i], ss[i].course.shortTitle))
  }

  /**
    The TOC text of each section of `ss`, listing the sections `all` (with subsection lists
    `subs`) of the course with slug `slug`, short title `short` and title `courseTitle`.
  */
  function TocTexts(slug: string, short: string, courseTitle: string, all: seq<Section>, subs: seq<seq<string>>,
                    ss: seq<Section>, writeDirs: bool, noToc: bool): (r: seq<string>)
    requires |all| == |subs|
    ensures |r| == |ss|
  {
    if ss == [] then []
    else TocTexts(slug, short, courseTitle, all, subs, ss[..|ss| - 1], writeDirs, noToc) +
         [TocText(SectionTocLines(slug, short, courseTitle, Titles(all), subs, Flags(all, ss[|ss| - 1]), writeDirs, noToc))]
  }

  /** Entry `i` is the TOC of section `ss[i]`. */
  lemma {:induction false} TocTextsAt(slug: string, short: string, courseTitle: string, all: seq<Section>,
                                      subs: seq<seq<string>>, ss: seq<Section>, writeDirs: bool, noToc: bool, i: nat)
    requires |all| == |subs| && i < |ss|
    ensures TocTexts(slug, short, courseTitle, all, subs, ss, writeDirs, noToc)[i] ==
      TocText(SectionTocLines(slug, short, courseTitle, Titles(all), subs, Flags(all, ss[i]), writeDirs, noToc))
  {
    if i < |ss| - 1 {
      TocTextsAt(slug, short, courseTitle, all, subs, ss[..|ss| - 1], writeDirs, noToc, i);
    }
  }

  /** The course TOC's lines for the first `n` sections of `ss`. */
  function CourseEntriesOf(short: string, ss: seq<Section>, writeDirs: bool, n: nat): seq<Line>
    reads (set s | s in ss)`subsections
    requires n <= |ss|
  {
    CourseEntries(short, Titles(ss), Subs(ss), writeDirs, n)
  }

  lemma CourseEntriesOfSnoc(short: string, ss: seq<Section>, writeDirs: bool, n: nat)
    requires n < |ss|
    ensures CourseEntriesOf(short, ss, writeDirs, n + 1) ==
      CourseEntriesOf(short, ss, writeDirs, n) + CourseEntry(n + 1, short, ss[n].sectionTitle, ss[n].subsections, writeDirs)
  {
  }

  /** The first `n` runs of `xs` one after the other. */
  function Flatten<T>(xs: seq<seq<T>>, n: nat): seq<T>
    requires n <= |xs|
  {
    if n == 0 then [] else Flatten(xs, n - 1) + xs[n - 1]
  }

  /** The plan of each section, numbered from 1: section `i` sees itself as `views[i]` and has the TOC `tocs[i]`. */
  function SectionPlans(c: CourseView, views: seq<SectionView>, tocs: seq<string>, writeDirs: bool,
                        extra: Option<string>): (r: seq<seq<Action>>)
    requires |views| == |tocs|
    ensures |r| == |views|
  {
    Collect(|views|, PlanOf(c, views, tocs, writeDirs, extra))
  }

  /** The plan of the section at position `i`, numbered `i + 1`. */
  function PlanOf(c: CourseView, views: seq<SectionView>, tocs: seq<string>, writeDirs: bool,
                  extra: Option<string>): nat -> seq<Action>
  {
    (i: nat) => if i < |views| && i < |tocs| then SectionPlan(c, views[i], i + 1, tocs[i], writeDirs, extra) else []
  }

  /** Entry `i` is the plan of the `i + 1`-th section. */
  lemma SectionPlansAt(c: CourseView, views: seq<SectionView>, tocs: seq<string>, writeDirs: bool,
                       extra: Option<string>, i: nat)
    requires |views| == |tocs| && i < |views|
    ensures SectionPlans(c, views, tocs, writeDirs, extra)[i] == SectionPlan(c, views[i], i + 1, tocs[i], writeDirs, extra)
  {
    CollectAt(|views|, PlanOf(c, views, tocs, writeDirs, extra), i);
  }

  /** `[f(0), ..., f(n - 1)]`, one element after the other. */
  function Collect<T>(n: nat, f: nat -> T): (r: seq<T>)
    ensures |r| == n
  {
    if n == 0 then [] else Collect(n - 1, f) + [f(n - 1)]
  }

  lemma {:induction false} CollectAt<T>(n: nat, f: nat -> T, i: nat)
    requires i < n
    ensures Collect(n, f)[i] == f(i)
  {
    if i < n - 1 {
      CollectAt(n - 1, f, i);
    }
  }

  /** The actions of all sections, one section plan after the other. */
  function SectionsPlan(c: CourseView, views: seq<SectionView>, tocs: seq<string>, writeDirs: bool,
                        extra: Option<string>): seq<Action>
    requires |views| == |tocs|
  {
    Flatten(SectionPlans(c, views, tocs, writeDirs, extra), |views|)
  }

  /** Each earlier stretch of runs is a prefix of every later one. */
  lemma {:induction false} FlattenPrefix<T>(xs: seq<seq<T>>, m: nat, n: nat)
    requires m <= n <= |xs|
    ensures |Flatten(xs, m)| <= |Flatten(xs, n)| && Flatten(xs, n)[..|Flatten(xs, m)|] == Flatten(xs, m)
    decreases n
  {
    if m < n {
      FlattenPrefix(xs, m, n - 1);
      var f := Flatten(xs, n - 1);
      assert Flatten(xs, n) == f + xs[n - 1];
      assert (f + xs[n - 1])[..|f|] == f;
    }
  }

  /** Run `i` sits in the flattened sequence where the runs before it end. */
  lemma FlattenSlice<T>(xs: seq<seq<T>>, i: nat, n: nat)
    requires i < n <= |xs|
    ensures var lo, hi := |Flatten(xs, i)|, |Flatten(xs, i + 1)|;
      lo <= hi <= |Flatten(xs, n)| && Flatten(xs, n)[lo..hi] == xs[i]
  {
    FlattenPrefix(xs, i + 1, n);
    var f := Flatten(xs, i);
    assert Flatten(xs, i + 1) == f + xs[i];
    assert Flatten(xs, n)[|f|..|f| + |xs[i]|] == (f + xs[i])[|f|..];
  }

  /**
    How many actions the first `n` sections take: in directory mode four for the section
    and two per subsection, in flat mode two.
  */
  function PlanSize(views: seq<SectionView>, writeDirs: bool, n: nat): nat
    requires n <= |views|
  {
    if n == 0 then 0 else PlanSize(views, writeDirs, n - 1) + (if writeDirs then 4 + 2 * |views[n - 1].subs| else 2)
  }

  /** The section plans before section `n` take `PlanSize(views, writeDirs, n)` actions. */
  lemma {:induction false} SectionPlansSize(c: CourseView, views: seq<SectionView>, tocs: seq<string>,
                                            writeDirs: bool, extra: Option<string>, n: nat)
    requires |views| == |tocs| && n <= |views|
    ensures |Flatten(SectionPlans(c, views, tocs, writeDirs, extra), n)| == PlanSize(views, writeDirs, n)
  {
    if n > 0 {
      SectionPlansSize(c, views, tocs, writeDirs, extra, n - 1);
      SectionPlansAt(c, views, tocs, writeDirs, extra, n - 1);
      if writeDirs {
        DirPlanHead(c, views[n - 1], n, tocs[n - 1], extra);
      } else {
        FlatPlanShape(c, views[n - 1], n, tocs[n - 1], extra);
      }
    }
  }

  /**
    The sections are generated one after the other, in list order: the actions of section `i`
    (numbered `i + 1`) are exactly its plan, starting after the `PlanSize(views, writeDirs, i)`
    actions of the sections before it. In particular there are no actions without sections.
  */
  lemma SectionsPlanOrder(c: CourseView, views: seq<SectionView>, tocs: seq<string>, writeDirs: bool,
                          extra: Option<string>, i: nat)
    requires |views| == |tocs| && i < |views|
    ensures var p := SectionsPlan(c, views, tocs, writeDirs, extra);
      var lo, hi := PlanSize(views, writeDirs, i), PlanSize(views, writeDirs, i + 1);
      |p| == PlanSize(views, writeDirs, |views|) && lo <= hi <= |p| &&
      p[lo..hi] == SectionPlan(c, views[i], i + 1, tocs[i], writeDirs, extra)
  {
    var xs := SectionPlans(c, views, tocs, writeDirs, extra);
    SectionPlansSize(c, views, tocs, writeDirs, extra, i);
    SectionPlansSize(c, views, tocs, writeDirs, extra, i + 1);
    SectionPlansSize(c, views, tocs, writeDirs, extra, |views|);
    FlattenSlice(xs, i, |views|);
    SectionPlansAt(c, views, tocs, writeDirs, extra, i);
  }

  /**
    Every section rewrites the same course index: the write of `00-<slug>.md` with the course
    template into the course directory lies within each section's stretch of the plan.
  */
  lemma CourseIndexPerSection(c: CourseView, views: seq<SectionView>, tocs: seq<string>, writeDirs: bool,
                              extra: Option<string>, i: nat)
    requires |views| == |tocs| && i < |views|
    ensures var p := SectionsPlan(c, views, tocs, writeDirs, extra);
      var lo, hi := PlanSize(views, writeDirs, i), PlanSize(views, writeDirs, i + 1);
      lo <= hi <= |p| &&
      WriteFile(c.outputDir + "/" + PageFileName(IndexPage, c.slug), CourseDoc(c.template)) in p[lo..hi]
  {
    SectionsPlanOrder(c, views, tocs, writeDirs, extra, i);
    CourseIndexRewritten(c, views[i], i + 1, tocs[i], writeDirs, extra);
  }

  lemma AppendAssoc<T>(a: seq<T>, b: seq<T>, c: seq<T>)
    ensures (a + b) + c == a + (b + c)
  {
  }

  class Section {
    const slug: string
    const sectionTitle: string
    var subsections: seq<string>
    const course: Course
    var index: int
    var sectionToc: string

    /** A new section of `course`: its slug is computed once, from the title. */
    constructor (sectionTitle: string, course: Course)
      ensures this.slug == GenerateSlug(sectionTitle) && this.sectionTitle == sectionTitle
      ensures this.subsections == [] && this.course == course && this.index == 0 && this.sectionToc == ""
    {
      this.slug := GenerateSlug(sectionTitle);
      this.sectionTitle := sectionTitle;
      this.subsections := [];
      this.course := course;
      this.index := 0;
      this.sectionToc := "";
    }

    /** `section_template`: the section index page, with dates and the default extra block. */
    function SectionTemplate(): (r: string)
      reads this, course
      ensures r == Text(SectionIndexDoc(course.shortTitle, index, sectionTitle, sectionToc))
    {
      RenderMarkdown(course.shortTitle + " - " + Format02(index) + "." + Format02(IndexPage) + " - " +
                     HandleTitle(sectionTitle), sectionToc, true, DefaultExtra)
    }

    /** `add_subsections`: append one subsection title. */
    method AddSubsections(subsectionTitle: string)
      modifies this`subsections
      ensures subsections == old(subsections) + [subsectionTitle]
    {
      subsections := subsections + [subsectionTitle];
    }

    /**
      `flashcard_template`: the flashcard page, built by collecting one H2 header per
      subsection and rendering without dates.
    */
    method FlashcardTemplate() returns (r: string)
      ensures r == Text(FlashcardDoc(course.shortTitle, index, sectionTitle, subsections, sectionToc))
    {
      var headers: seq<string> := [];
      var k := 0;
      while k < |subsections|
        invariant 0 <= k <= |subsections|
        invariant headers == FlashcardHeaders(subsections[..k])
      {
        FlashcardHeadersSnoc(subsections, k);
        headers := headers + [FlashcardHeader(subsections[k])];
        k := k + 1;
      }
      assert subsections[..k] == subsections;
      var doc := FlashcardDoc(course.shortTitle, index, sectionTitle, subsections, sectionToc);
      r := RenderMarkdown(DocTitle(doc), sectionToc, false, Concat(headers));
    }

    /**
      `generate_section_toc`: one line for the course, then per section of `allSections` its
      line(s), with the subsections and the flashcard page of this section only. The lines are
      collected as `Line` values and rendered when they are joined.
    */
    method GenerateSectionToc(allSections: seq<Section>, course: Course, writeDirs: bool, noToc: bool)
      returns (toc: string)
      ensures toc == TocText(SectionTocOf(course, allSections, this, writeDirs, noToc))
    {
      var short := course.shortTitle;
      var head := CourseLine(course.slug, short, course.courseTitle);
      var lines := [head];
      var j := 0;
      while j < |allSections|
        invariant j <= |allSections|
        invariant lines == [head] + EntriesOf(short, allSections, this, writeDirs, noToc, j)
      {
        lines := AppendSectionLines(lines, j + 1, allSections[j], short, writeDirs, noToc);
        EntriesOfSnoc(short, allSections, this, writeDirs, noToc, j);
        AppendAssoc([head], EntriesOf(short, allSections, this, writeDirs, noToc, j),
                    SectionEntry(j + 1, short, allSections[j].sectionTitle, allSections[j] == this,
                                 allSections[j].subsections, writeDirs, noToc));
        j := j + 1;
      }
      SectionTocOfEntries(course, allSections, this, writeDirs, noToc);
      toc := TocText(lines);
    }

    /**
      `generate_dir_and_markdown_files`: store the section's number and TOC, then plan its files.
      The course directory comes from the `course` argument; page titles use the short title of
      the section's own course.
    */
    method GenerateDirAndMarkdownFiles(index: int, course: Course, cwd: string, writeDirs: bool,
                                       extraSection: Option<string>, noToc: bool) returns (actions: seq<Action>)
      modifies this`index, this`sectionToc
      ensures this.index == index
      ensures sectionToc == old(TocText(SectionTocOf(course, course.sections, this, writeDirs, noToc)))
      ensures actions == SectionPlan(CourseView(OutputDir(cwd, course.slug, course.courseNumber), course.courseTitle,
                                                course.slug, course.courseTemplate),
                                     SectionView(sectionTitle, slug, subsections, this.course.shortTitle),
                                     index, sectionToc, writeDirs, extraSection)
      ensures writeDirs ==> |actions| >= 3 && actions[1].WriteFile? && Text(actions[1].page) == SectionTemplate()
      ensures writeDirs ==>
        actions[2].WriteFile? &&
        actions[2].page == FlashcardDoc(this.course.shortTitle, index, sectionTitle, subsections, sectionToc)
    {
      var toc := GenerateSectionToc(course.sections, course, writeDirs, noToc);
      this.index := index;
      sectionToc := toc;
      var c := CourseView(OutputDir(cwd, course.slug, course.courseNumber), course.courseTitle,
                          course.slug, course.courseTemplate);
      var s := SectionView(sectionTitle, slug, subsections, this.course.shortTitle);
      if writeDirs {
        actions := DirectoryFiles(c, s, index, toc, extraSection);
        DirPlanHead(c, s, index, toc, extraSection);
      } else {
        actions := FlatFiles(c, s, index, toc, extraSection);
      }
    }

    /**
      Directory mode of `generate_dir_and_markdown_files`: the review directory, the section
      index, the flashcard page and the course index, then per subsection its page and its
      review directory.
    */
    static method DirectoryFiles(c: CourseView, s: SectionView, index: int, toc: string, extraSection: Option<string>)
      returns (actions: seq<Action>)
      ensures actions == SectionPlan(c, s, index, toc, true, extraSection)
    {
      var outdir := SectionDir(c, index, s.slug);
      var sectionIndexFile := Page(s.title, s.slug, SectionIndexDoc(s.short, index, s.title, toc),
                                   PageFileName(IndexPage, s.slug));
      var sectionFlashcardFile := Page(s.title + " Flashcards", s.slug,
                                       FlashcardDoc(s.short, index, s.title, s.subs, toc),
                                       FlashcardsFileName(s.slug));
      actions := [MakeDirs(outdir + "/100-review_files/"),
                  CreateMarkdownFile(sectionIndexFile, outdir),
                  CreateMarkdownFile(sectionFlashcardFile, outdir),
                  CreateMarkdownFile(CourseIndexPage(c), c.outputDir)];
      var rest := SubsectionFiles(outdir, s.short, index, s.subs, toc, extraSection);
      actions := actions + rest;
    }

    /** The subsection loop of directory mode: per subsection, write its page and make its review directory. */
    static method SubsectionFiles(outdir: string, short: string, index: int, subs: seq<string>, toc: string,
                                  extraSection: Option<string>) returns (actions: seq<Action>)
      ensures actions == SubsectionsPlan(outdir, short, index, subs, toc, extraSection)
    {
      ghost var w := SubsectionWrites(outdir, short, index, subs, toc, extraSection);
      ghost var v := SubsectionReviews(outdir, subs);
      actions := [];
      var k := 0;
      while k < |subs|
        invariant k <= |subs|
        invariant actions == Plan.Interleave(w[..k], v[..k])
      {
        var subSection := subs[k];
        var subSlug := GenerateSlug(subSection);
        var subPage := Page(subSection, subSlug, SubsectionDoc(short, index, k + 1, subSection, toc, Outline(extraSection)),
                            PageFileName(k + 1, subSlug));
        var write := CreateMarkdownFile(subPage, outdir);
        var review := MakeDirs(outdir + "/100-review_files/" + Format02(k + 1) + "-" + subSlug + "/");
        assert write == w[k] && review == v[k];
        InterleaveSnoc(w, v, k);
        actions := actions + [write, review];
        k := k + 1;
      }
      assert w[..k] == w && v[..k] == v;
    }

    /** Flat mode of `generate_dir_and_markdown_files`: the course index, then the section's page. */
    static method FlatFiles(c: CourseView, s: SectionView, index: int, toc: string, extraSection: Option<string>)
      returns (actions: seq<Action>)
      ensures actions == SectionPlan(c, s, index, toc, false, extraSection)
    {
      var doc := FlatDoc(s.short, index, s.title, toc, Outline(extraSection));
      var sectionMarkdownFile := Page(DocTitle(doc), s.slug, doc, PageFileName(index, s.slug));
      actions := [CreateMarkdownFile(CourseIndexPage(c), c.outputDir),
                  CreateMarkdownFile(sectionMarkdownFile, c.outputDir)];
    }

    /**
      One round of the section loop of `generate_section_toc`: append the line(s) of `section`,
      numbered `num`, to `lines`.
    */
    method AppendSectionLines(lines: seq<Line>, num: int, section: Section, short: string,
                              writeDirs: bool, noToc: bool) returns (r: seq<Line>)
      ensures r == lines + SectionEntry(num, short, section.sectionTitle, section == this, section.subsections,
                                        writeDirs, noToc)
    {
      r := lines;
      if writeDirs {
        var link := SectionLine(num, short, section.sectionTitle);
        r := r + [link];
        if section == this {
          var k := 0;
          while k < |subsections|
            invariant 0 <= k <= |subsections|
            invariant r == lines + [link] + SubsectionLines(num, short, subsections[..k])
          {
            SubsectionLinesSnoc(num, short, subsections, k);
            r := r + [SubsectionLine(num, k + 1, short, subsections[k])];
            k := k + 1;
          }
          assert subsections[..k] == subsections;
          var card := FlashcardsLine(num, short, sectionTitle);
          r := r + [card];
          AppendAssoc(lines, [link], SubsectionLines(num, short, subsections));
          AppendAssoc(lines, [link] + SubsectionLines(num, short, subsections), [card]);
        }
      } else if !noToc {
        r := r + [FlatLine(num, short, section.sectionTitle)];
      }
    }
  }

  class Course {
    const courseTitle: string
    const shortTitle: string
    const courseNumber: Option<int>
    var sections: seq<Section>
    var courseTemplate: string
    var slug: string

    /** A new course without sections; slug and template are filled in by `GenerateCourse`. */
    constructor (courseTitle: string, shortTitle: string, courseNumber: Option<int>)
      ensures this.courseTitle == courseTitle && this.shortTitle == shortTitle && this.courseNumber == courseNumber
      ensures this.sections == [] && this.courseTemplate == "" && this.slug == ""
    {
      this.courseTitle := courseTitle;
      this.shortTitle := shortTitle;
      this.courseNumber := courseNumber;
      this.sections := [];
      this.courseTemplate := "";
      this.slug := "";
    }

    /** `output_dir`, with the working directory `cwd`. */
    function OutputDir(cwd: string): string
      reads this
    {
      Plan.OutputDir(cwd, slug, courseNumber)
    }

    /** What the plan of a section knows about this course. */
    function View(cwd: string): CourseView
      reads this
    {
      CourseView(OutputDir(cwd), courseTitle, slug, courseTemplate)
    }

    /**
      `generate_course_template`: the course index page, without dates, whose TOC lists every
      section with all its subsections and its flashcard page (directory mode) or every
      section page (flat mode).
    */
    method GenerateCourseTemplate(writeDirs: bool, ghost subs: seq<seq<string>>) returns (r: string)
      requires |subs| == |sections| && forall k :: 0 <= k < |sections| ==> sections[k].subsections == subs[k]
      ensures r == CourseTemplate(slug, shortTitle, courseTitle, Titles(sections), subs, writeDirs)
    {
      SubsOfFields(sections, subs);
      var lines := CourseTocLinesOf(writeDirs);
      var title := shortTitle + " - " + HandleTitle(courseTitle);
      r := RenderMarkdown(title, TocText(lines), false, DefaultExtra);
    }

    /** The TOC lines `generate_course_template` collects: the course line, then every section's lines in order. */
    method CourseTocLinesOf(writeDirs: bool) returns (lines: seq<Line>)
      ensures lines == CourseTocLines(slug, shortTitle, courseTitle, Titles(sections), Subs(sections), writeDirs)
    {
      var head := CourseLine(slug, shortTitle, courseTitle);
      lines := [head];
      var j := 0;
      while j < |sections|
        invariant j <= |sections|
        invariant lines == [head] + CourseEntriesOf(shortTitle, sections, writeDirs, j)
      {
        lines := AppendCourseSection(lines, j + 1, sections[j], writeDirs);
        CourseEntriesOfSnoc(shortTitle, sections, writeDirs, j);
        AppendAssoc([head], CourseEntriesOf(shortTitle, sections, writeDirs, j),
                    CourseEntry(j + 1, shortTitle, sections[j].sectionTitle, sections[j].subsections, writeDirs));
        j := j + 1;
      }
    }

    /** One round of the section loop of `generate_course_template`. */
    method AppendCourseSection(lines: seq<Line>, num: int, section: Section, writeDirs: bool) returns (r: seq<Line>)
      ensures r == lines + CourseEntry(num, shortTitle, section.sectionTitle, section.subsections, writeDirs)
    {
      if writeDirs {
        var link := SectionLine(num, shortTitle, section.sectionTitle);
        r := lines + [link];
        var k := 0;
        while k < |section.subsections|
          invariant k <= |section.subsections|
          invariant r == lines + [link] + SubsectionLines(num, shortTitle, section.subsections[..k])
        {
          SubsectionLinesSnoc(num, shortTitle, section.subsections, k);
          r := r + [SubsectionLine(num, k + 1, shortTitle, section.subsections[k])];
          k := k + 1;
        }
        assert section.subsections[..k] == section.subsections;
        var card := FlashcardsLine(num, shortTitle, section.sectionTitle);
        r := r + [card];
      } else {
        r := lines + [FlatLine(num, shortTitle, section.sectionTitle)];
      }
    }

    /**
      `generate_course`: set the slug from the course title, then the course template, then
      generate every section. All three results are stated over the final state, where the
      section fields that the TOC and the plans read still hold their values from the start.
    */
    method GenerateCourse(cwd: string, writeDirs: bool, extraSection: Option<string>, noToc: bool)
      returns (actions: seq<Action>)
      modifies this`slug, this`courseTemplate, (set s | s in sections)`index, (set s | s in sections)`sectionToc
      ensures slug == GenerateSlug(courseTitle) && sections == old(sections)
      ensures forall i :: 0 <= i < |sections| ==> sections[i].subsections == old(sections[i].subsections)
      ensures forall i :: 0 <= i < |sections| && LastAt(sections, i, |sections|) ==> sections[i].index == i + 1
      ensures var subs := old(Subs(sections));
        var tocs := TocTexts(slug, shortTitle, courseTitle, sections, subs, sections, writeDirs, noToc);
        actions == SectionsPlan(View(cwd), Views(sections, subs), tocs, writeDirs, extraSection) &&
        forall i :: 0 <= i < |sections| ==> sections[i].sectionToc == tocs[i]
      ensures courseTemplate == CourseTemplate(slug, shortTitle, courseTitle, Titles(sections), old(Subs(sections)), writeDirs)
    {
      ghost var subs := Subs(sections);
      slug := GenerateSlug(courseTitle);
      courseTemplate := GenerateCourseTemplate(writeDirs, subs);
      actions := GenerateSections(sections, cwd, writeDirs, extraSection, noToc, subs, subs);
    }

    /**
      `generate_sections`: section `i` of `sections` gets number `i + 1`, its TOC and its files,
      one section after the other. A section listed twice keeps the number of its last place.
      Only the numbers and TOCs of the sections change.
    */
    method GenerateSections(sections: seq<Section>, cwd: string, writeDirs: bool, extraSection: Option<string>,
                            noToc: bool, ghost subs: seq<seq<string>>, ghost own: seq<seq<string>>)
      returns (actions: seq<Action>)
      requires |subs| == |this.sections| && forall k :: 0 <= k < |this.sections| ==> this.sections[k].subsections == subs[k]
      requires |own| == |sections| && forall i :: 0 <= i < |sections| ==> sections[i].subsections == own[i]
      modifies (set s | s in sections)`index, (set s | s in sections)`sectionToc
      ensures forall i :: 0 <= i < |sections| ==> sections[i].subsections == own[i]
      ensures forall k :: 0 <= k < |this.sections| ==> this.sections[k].subsections == subs[k]
      ensures var tocs := TocTexts(slug, shortTitle, courseTitle, this.sections, subs, sections, writeDirs, noToc);
        actions == SectionsPlan(View(cwd), Views(sections, own), tocs, writeDirs, extraSection) &&
        forall i :: 0 <= i < |sections| ==> sections[i].sectionToc == tocs[i]
      ensures forall i :: 0 <= i < |sections| && LastAt(sections, i, |sections|) ==> sections[i].index == i + 1
    {
      ghost var c := View(cwd);
      ghost var views := Views(sections, own);
      ghost var tocs := TocTexts(slug, shortTitle, courseTitle, this.sections, subs, sections, writeDirs, noToc);
      ghost var plans := SectionPlans(c, views, tocs, writeDirs, extraSection);
      PrepareRounds(c, slug, this.sections, subs, sections, own, views, tocs, plans, writeDirs, noToc, extraSection);
      actions := RunSections(sections, cwd, writeDirs, extraSection, noToc, c, slug, this.sections, subs, views, tocs, plans);
    }

    /**
      What round `i` of `generate_sections` produces, as the course stands before the first round
      (slug `slug`, sections `all` with subsection lists `subs`): section `sections[i]` is seen as
      `views[i]`, gets the TOC text `tocs[i]` and the plan `plans[i]`.
    */
    ghost predicate RoundFact(c: CourseView, slug: string, all: seq<Section>, subs: seq<seq<string>>,
                              sections: seq<Section>, views: seq<SectionView>, tocs: seq<string>,
                              plans: seq<seq<Action>>, writeDirs: bool, noToc: bool, extra: Option<string>, i: nat)
      requires i < |sections| == |views| == |tocs| == |plans| && |all| == |subs|
    {
      views[i] == SectionView(sections[i].sectionTitle, sections[i].slug, views[i].subs, sections[i].course.shortTitle) &&
      tocs[i] == TocText(SectionTocLines(slug, shortTitle, courseTitle, Titles(all), subs, Flags(all, sections[i]),
                                         writeDirs, noToc)) &&
      plans[i] == SectionPlan(c, views[i], i + 1, tocs[i], writeDirs, extra)
    }

    /** `RoundFact` for every round. */
    ghost predicate Rounds(c: CourseView, slug: string, all: seq<Section>, subs: seq<seq<string>>,
                           sections: seq<Section>, views: seq<SectionView>, tocs: seq<string>,
                           plans: seq<seq<Action>>, writeDirs: bool, noToc: bool, extra: Option<string>)
      requires |sections| == |views| == |tocs| == |plans| && |all| == |subs|
    {
      forall i :: 0 <= i < |sections| ==> RoundFact(c, slug, all, subs, sections, views, tocs, plans, writeDirs, noToc, extra, i)
    }

    /**
      The rounds of `generate_sections` produce, for each section, its own TOC text and plan;
      a section listed twice gets the same TOC both times.
    */
    lemma PrepareRounds(c: CourseView, slug: string, all: seq<Section>, subs: seq<seq<string>>,
                        sections: seq<Section>, own: seq<seq<string>>, views: seq<SectionView>, tocs: seq<string>,
                        plans: seq<seq<Action>>, writeDirs: bool, noToc: bool, extra: Option<string>)
      requires |all| == |subs| && |own| == |sections| && views == Views(sections, own)
      requires tocs == TocTexts(slug, shortTitle, courseTitle, all, subs, sections, writeDirs, noToc)
      requires plans == SectionPlans(c, views, tocs, writeDirs, extra)
      ensures |sections| == |views| == |tocs| == |plans|
      ensures Rounds(c, slug, all, subs, sections, views, tocs, plans, writeDirs, noToc, extra)
      ensures forall i, k :: 0 <= i < |sections| && 0 <= k < |sections| && sections[i] == sections[k] ==> tocs[i] == tocs[k]
    {
      forall i | 0 <= i < |sections|
        ensures RoundFact(c, slug, all, subs, sections, views, tocs, plans, writeDirs, noToc, extra, i)
      {
        TocTextsAt(slug, shortTitle, courseTitle, all, subs, sections, writeDirs, noToc, i);
        SectionPlansAt(c, views, tocs, writeDirs, extra, i);
      }
      forall i, k | 0 <= i < |sections| && 0 <= k < |sections| && sections[i] == sections[k]
        ensures tocs[i] == tocs[k]
      {
        TocTextsAt(slug, shortTitle, courseTitle, all, subs, sections, writeDirs, noToc, i);
        TocTextsAt(slug, shortTitle, courseTitle, all, subs, sections, writeDirs, noToc, k);
      }
    }

    /** The loop of `generate_sections`, described by the rounds it performs. */
    method RunSections(sections: seq<Section>, cwd: string, writeDirs: bool, extraSection: Option<string>, noToc: bool,
                       ghost c: CourseView, ghost sl: string, ghost all: seq<Section>, ghost subs: seq<seq<string>>,
                       ghost views: seq<SectionView>, ghost tocs: seq<string>, ghost plans: seq<seq<Action>>)
      returns (actions: seq<Action>)
      requires |sections| == |views| == |tocs| == |plans| && |all| == |subs|
      requires c == View(cwd) && slug == sl && this.sections == all
      requires forall k :: 0 <= k < |all| ==> all[k].subsections == subs[k]
      requires forall i :: 0 <= i < |sections| ==> sections[i].subsections == views[i].subs
      requires Rounds(c, sl, all, subs, sections, views, tocs, plans, writeDirs, noToc, extraSection)
      requires forall i, k :: 0 <= i < |sections| && 0 <= k < |sections| && sections[i] == sections[k] ==> tocs[i] == tocs[k]
      modifies (set s | s in sections)`index, (set s | s in sections)`sectionToc
      ensures forall k :: 0 <= k < |all| ==> all[k].subsections == subs[k]
      ensures forall i :: 0 <= i < |sections| ==> sections[i].subsections == views[i].subs
      ensures actions == Flatten(plans, |plans|)
      ensures forall i :: 0 <= i < |sections| ==> sections[i].sectionToc == tocs[i]
      ensures forall i :: 0 <= i < |sections| && LastAt(sections, i, |sections|) ==> sections[i].index == i + 1
    {
      actions := [];
      var j := 0;
      while j < |sections|
        invariant j <= |sections|
        invariant c == View(cwd) && slug == sl && this.sections == all
        invariant forall k :: 0 <= k < |all| ==> all[k].subsections == subs[k]
        invariant forall i :: 0 <= i < |sections| ==> sections[i].subsections == views[i].subs
        invariant actions == Flatten(plans, j)
        invariant forall i :: 0 <= i < j ==> sections[i].sectionToc == tocs[i]
        invariant forall i :: 0 <= i < j && LastAt(sections, i, j) ==> sections[i].index == i + 1
      {
        var a := SectionRound(sections[j], sections, j, cwd, writeDirs, extraSection, noToc, c, sl, all, subs, views, tocs, plans);
        actions := actions + a;
        j := j + 1;
      }
    }

    /**
      Round `j` of the loop of `generate_sections`: section `j` gets its number, its TOC and
      its plan; the earlier sections keep theirs unless they are the same object.
    */
    method SectionRound(section: Section, sections: seq<Section>, j: nat, cwd: string, writeDirs: bool, extraSection: Option<string>,
                        noToc: bool, ghost c: CourseView, ghost sl: string, ghost all: seq<Section>,
                        ghost subs: seq<seq<string>>, ghost views: seq<SectionView>, ghost tocs: seq<string>,
                        ghost plans: seq<seq<Action>>) returns (a: seq<Action>)
      requires j < |sections| == |views| == |tocs| == |plans| && |all| == |subs| && section == sections[j]
      requires c == View(cwd) && slug == sl && this.sections == all
      requires forall k :: 0 <= k < |all| ==> all[k].subsections == subs[k]
      requires section.subsections == views[j].subs
      requires Rounds(c, sl, all, subs, sections, views, tocs, plans, writeDirs, noToc, extraSection)
      requires forall i :: 0 <= i < j && sections[i] == sections[j] ==> tocs[i] == tocs[j]
      requires forall i :: 0 <= i < j ==> sections[i].sectionToc == tocs[i]
      requires forall i :: 0 <= i < j && LastAt(sections, i, j) ==> sections[i].index == i + 1
      modifies section`index, section`sectionToc
      ensures a == plans[j]
      ensures forall i :: 0 <= i <= j ==> sections[i].sectionToc == tocs[i]
      ensures forall i :: 0 <= i <= j && LastAt(sections, i, j + 1) ==> sections[i].index == i + 1
    {
      a := GenerateSection(section, j + 1, cwd, writeDirs, extraSection, noToc,
                           c, sl, all, subs, sections, views, tocs, plans);
      forall i | 0 <= i < j ensures sections[i].sectionToc == tocs[i] {
        if sections[i] == sections[j] {
          assert tocs[i] == tocs[j];
        }
      }
      forall i | 0 <= i < j && LastAt(sections, i, j + 1) ensures sections[i].index == i + 1 {
        assert sections[j] != sections[i] && LastAt(sections, i, j);
      }
    }

    /** One round of `generate_sections`: `section.generate_dir_and_markdown_files(num, self, ...)`. */
    method GenerateSection(section: Section, num: nat, cwd: string, writeDirs: bool, extraSection: Option<string>,
                           noToc: bool, ghost c: CourseView, ghost sl: string, ghost all: seq<Section>,
                           ghost subs: seq<seq<string>>, ghost sections: seq<Section>, ghost views: seq<SectionView>,
                           ghost tocs: seq<string>, ghost plans: seq<seq<Action>>) returns (a: seq<Action>)
      requires 0 < num <= |sections| == |views| == |tocs| == |plans| && |all| == |subs| && section == sections[num - 1]
      requires c == View(cwd) && slug == sl && this.sections == all
      requires forall k :: 0 <= k < |all| ==> all[k].subsections == subs[k]
      requires section.subsections == views[num - 1].subs
      requires Rounds(c, sl, all, subs, sections, views, tocs, plans, writeDirs, noToc, extraSection)
      modifies section`index, section`sectionToc
      ensures section.index == num && section.sectionToc == tocs[num - 1]
      ensures a == plans[num - 1]
    {
      assert RoundFact(c, sl, all, subs, sections, views, tocs, plans, writeDirs, noToc, extraSection, num - 1);
      SubsOfFields(all, subs);
      a := section.GenerateDirAndMarkdownFiles(num, this, cwd, writeDirs, extraSection, noToc);
    }
  }
}
