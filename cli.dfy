/**
  `main`: check the flags, collect the course from the dialogue, then plan the course's files.
  The flags arrive already parsed; the `--extra` text is taken as already decoded.
*/
module Cli {
  import opened Wrappers
  import opened Slug
  import opened Toc
  import opened Plan
  import opened Input
  import Pages

  /** The parsed command line: `--no-dirs`, `--no-toc` and `--extra`. */
  datatype Args = Args(noDirs: bool, noToc: bool, extra: Option<string>)

  /** The message `parse_args` stops with when the flags do not go together. */
  const NoTocError := "The --no-toc flag can only be used with --no-dirs."

  /** The one rule `parse_args` checks: `--no-toc` needs `--no-dirs`. */
  function ValidateArgs(a: Args): (r: Result<Args, string>)
    ensures r.Err? <==> a.noToc && !a.noDirs
    ensures r.Ok? ==> r.value == a
    ensures r.Err? ==> r.error == NoTocError
  {
    if a.noToc && !a.noDirs then Err(NoTocError) else Ok(a)
  }

  /** The section titles of the collected input, in order. */
  function InputTitles(ss: seq<SectionInput>): (r: seq<string>)
    ensures |r| == |ss| && forall i :: 0 <= i < |ss| ==> r[i] == ss[i].title
  {
    seq(|ss|, i requires 0 <= i < |ss| => ss[i].title)
  }

  /** The subsection lists of the collected input, in order. */
  function InputSubs(ss: seq<SectionInput>): (r: seq<seq<string>>)
    ensures |r| == |ss| && forall i :: 0 <= i < |ss| ==> r[i] == ss[i].subs
  {
    seq(|ss|, i requires 0 <= i < |ss| => ss[i].subs)
  }

  /** The "is this the current section" flags of section `i` among `n` separate sections. */
  function OneHot(n: nat, i: nat): (r: seq<bool>)
    ensures |r| == n && forall k :: 0 <= k < n ==> (r[k] <==> k == i)
  {
    seq(n, k requires 0 <= k < n => k == i)
  }

  /** How section `i` of the typed input sees itself in its plan. */
  function InputViews(titles: seq<string>, subs: seq<seq<string>>, short: string): (r: seq<SectionView>)
    requires |titles| == |subs|
    ensures |r| == |titles|
    ensures forall i :: 0 <= i < |titles| ==> r[i] == SectionView(titles[i], GenerateSlug(titles[i]), subs[i], short)
  {
    seq(|titles|, i requires 0 <= i < |titles| => SectionView(titles[i], GenerateSlug(titles[i]), subs[i], short))
  }

  /** The TOC of each section: all sections listed, with section `i` as the current one. */
  function InputTocs(slug: string, short: string, courseTitle: string, titles: seq<string>, subs: seq<seq<string>>,
                     writeDirs: bool, noToc: bool): (r: seq<string>)
    requires |titles| == |subs|
    ensures |r| == |titles|
    ensures forall i :: 0 <= i < |titles| ==>
      r[i] == TocText(SectionTocLines(slug, short, courseTitle, titles, subs, OneHot(|titles|, i), writeDirs, noToc))
  {
    seq(|titles|, i requires 0 <= i < |titles| =>
      TocText(SectionTocLines(slug, short, courseTitle, titles, subs, OneHot(|titles|, i), writeDirs, noToc)))
  }

  /**
    What `generate_course` plans for a course collected as `c`, in the working directory
    `cwd`: the slug comes from the title, the course index lists every section, and every
    section is numbered by its position and gets the TOC that marks it as the current one.
  */
  function CoursePlan(cwd: string, c: Collected, writeDirs: bool, extra: Option<string>, noToc: bool): seq<Action> {
    var slug := GenerateSlug(c.title);
    var titles := InputTitles(c.sections);
    var subs := InputSubs(c.sections);
    var course := CourseView(OutputDir(cwd, slug, c.number), c.title, slug,
                             CourseTemplate(slug, c.short, c.title, titles, subs, writeDirs));
    Pages.SectionsPlan(course, InputViews(titles, subs, c.short),
                       InputTocs(slug, c.short, c.title, titles, subs, writeDirs, noToc), writeDirs, extra)
  }

  /**
    The whole program on the flags `a`, the typed answers `script` and the working directory
    `cwd`: the flag error, the error the dialogue stops with, or the planned file actions.
  */
  function Outcome(a: Args, script: Script, cwd: string): Result<seq<Action>, string> {
    match ValidateArgs(a)
    case Err(e) => Err(e)
    case Ok(_) =>
      var writeDirs := !a.noDirs;
      match Collect(script, writeDirs)
      case Err(e) => Err(e)
      case Ok(c) => Ok(CoursePlan(cwd, c, writeDirs, a.extra, a.noToc))
  }

  /** Bad flags stop the program before the first prompt, whatever would have been typed. */
  lemma FlagErrorFirst(a: Args, script: Script, cwd: string)
    requires a.noToc && !a.noDirs
    ensures Outcome(a, script, cwd) == Err(NoTocError)
  {
  }

  /** With valid flags the program fails exactly when the dialogue does, with its error. */
  lemma DialogueErrors(a: Args, script: Script, cwd: string)
    requires !(a.noToc && !a.noDirs)
    ensures Outcome(a, script, cwd).Err? <==> Collect(script, !a.noDirs).Err?
    ensures Collect(script, !a.noDirs).Err? ==> Outcome(a, script, cwd).error == Collect(script, !a.noDirs).error
  {
  }

  /** The sections the dialogue built hold the typed titles and subsection lists. */
  lemma FieldsOfTyped(ss: seq<Pages.Section>, typed: seq<SectionInput>)
    requires Typed(ss) == typed
    ensures Pages.Titles(ss) == InputTitles(typed) && Pages.Subs(ss) == InputSubs(typed)
  {
    forall i | 0 <= i < |ss|
      ensures ss[i].sectionTitle == typed[i].title && ss[i].subsections == typed[i].subs
    {
      TypedAt(ss, i);
    }
  }

  /** Among separate objects, section `i` is the current one at position `i` only. */
  lemma FlagsOneHot(ss: seq<Pages.Section>, i: nat)
    requires Distinct(ss) && i < |ss|
    ensures Pages.Flags(ss, ss[i]) == OneHot(|ss|, i)
  {
    forall k | 0 <= k < |ss|
      ensures ss[k] == ss[i] <==> k == i
    {
      if k < i {
        DistinctAt(ss, k, i);
      } else if i < k {
        DistinctAt(ss, i, k);
      }
    }
  }

  /** The TOCs `generate_sections` stores are the typed input's TOCs. */
  lemma TocsOfSections(slug: string, short: string, courseTitle: string, ss: seq<Pages.Section>,
                       subs: seq<seq<string>>, writeDirs: bool, noToc: bool)
    requires Distinct(ss) && |subs| == |ss|
    ensures Pages.TocTexts(slug, short, courseTitle, ss, subs, ss, writeDirs, noToc) ==
            InputTocs(slug, short, courseTitle, Pages.Titles(ss), subs, writeDirs, noToc)
  {
    var tocs := InputTocs(slug, short, courseTitle, Pages.Titles(ss), subs, writeDirs, noToc);
    forall i | 0 <= i < |ss|
      ensures Pages.TocTexts(slug, short, courseTitle, ss, subs, ss, writeDirs, noToc)[i] == tocs[i]
    {
      Pages.TocTextsAt(slug, short, courseTitle, ss, subs, ss, writeDirs, noToc, i);
      FlagsOneHot(ss, i);
    }
  }

  /** The section views of the plan are the typed input's views. */
  lemma ViewsOfSections(course: Pages.Course, ss: seq<Pages.Section>, subs: seq<seq<string>>)
    requires AllBuilt(ss, course) && |subs| == |ss|
    ensures Pages.Views(ss, subs) == InputViews(Pages.Titles(ss), subs, course.shortTitle)
  {
    forall i | 0 <= i < |ss|
      ensures Pages.Views(ss, subs)[i] == InputViews(Pages.Titles(ss), subs, course.shortTitle)[i]
    {
      AllBuiltAt(ss, course, i);
    }
  }

  /**
    `main`: validate the flags, run the dialogue on `script`, and generate the course in
    `cwd`. The result is what `Outcome` says; only new objects are changed.
  */
  method Run(a: Args, script: Script, cwd: string) returns (r: Result<seq<Action>, string>)
    ensures r == Outcome(a, script, cwd)
  {
    if a.noToc && !a.noDirs {
      return Err(NoTocError);
    }
    var writeDirs := !a.noDirs;
    var input := GetUserInput(script, writeDirs);
    if input.Err? {
      return Err(input.error);
    }
    var course := input.value;
    ghost var c := Collect(script, writeDirs).value;
    var actions := Generate(course, c, cwd, writeDirs, a.extra, a.noToc);
    r := Ok(actions);
  }

  /** `generate_course` on the course the dialogue built from the typed input `c`. */
  method Generate(course: Pages.Course, ghost c: Collected, cwd: string, writeDirs: bool, extra: Option<string>,
                  noToc: bool) returns (actions: seq<Action>)
    requires Typed(course.sections) == c.sections && Distinct(course.sections)
    requires AllBuilt(course.sections, course)
    requires course.courseTitle == c.title && course.shortTitle == c.short && course.courseNumber == c.number
    modifies course`slug, course`courseTemplate, (set s | s in course.sections)`index,
             (set s | s in course.sections)`sectionToc
    ensures actions == CoursePlan(cwd, c, writeDirs, extra, noToc)
  {
    ghost var ss := course.sections;
    ghost var slug := GenerateSlug(c.title);
    ghost var subs := Pages.Subs(ss);
    FieldsOfTyped(ss, c.sections);
    TocsOfSections(slug, c.short, c.title, ss, subs, writeDirs, noToc);
    ViewsOfSections(course, ss, subs);
    actions := course.GenerateCourse(cwd, writeDirs, extra, noToc);
    assert course.View(cwd) == CourseView(OutputDir(cwd, slug, c.number), c.title, slug,
      CourseTemplate(slug, c.short, c.title, InputTitles(c.sections), InputSubs(c.sections), writeDirs));
  }
}
