/**
  `get_user_input` over a scripted list of answers. Each entry is either a line typed at a
  prompt or `None`, which stands for end of input (Ctrl-D, Python's `EOFError`); asking for an
  answer after the last entry is end of input as well. End of input is consumed like any other
  answer, so the next prompt reads the entry after it.
*/
module Input {
  import opened Wrappers
  import opened Chars
  import opened Numbers
  import opened Slug
  import opened Pages

  type Script = seq<Option<string>>

  /** The uncaught error when input ends at the course number, title or short-title prompt. */
  const EofError := "EOFError"

  /** One section as typed: its stripped title and its stripped subsection titles. */
  datatype SectionInput = SectionInput(title: string, subs: seq<string>)

  /** Everything `get_user_input` collects before it builds the course. */
  datatype Collected = Collected(number: Option<int>, title: string, short: string, sections: seq<SectionInput>)

  /** The answer at position `pos`; `None` is end of input. */
  function Answer(script: Script, pos: nat): Option<string> {
    if pos < |script| then script[pos] else None
  }

  /** The position after reading one answer at `pos` (past the end, input stays at its end). */
  function Next(script: Script, pos: nat): nat {
    if pos < |script| then pos + 1 else pos
  }

  /** A stripped course-number answer the prompt accepts: blank, or an integer. */
  predicate NumberAccepted(s: string) {
    s == [] || ParseInt(s).Some?
  }

  /** The course number an accepted answer stands for. */
  function NumberOf(s: string): Option<int>
    requires NumberAccepted(s)
  {
    if s == [] then None else ParseInt(s)
  }

  /**
    The course-number prompt from position `pos`: it asks again until the stripped answer is
    blank or parses as an integer. The result is the number and the position after its answer.
  */
  function ReadNumber(script: Script, pos: nat): (r: Result<(Option<int>, nat), string>)
    decreases |script| - pos
  {
    match Answer(script, pos)
    case None => Err(EofError)
    case Some(line) =>
      var s := Strip(line);
      if NumberAccepted(s) then Ok((NumberOf(s), pos + 1)) else ReadNumber(script, pos + 1)
  }

  /** The course-title prompt from position `pos`: it asks again until the stripped answer is not empty. */
  function ReadTitle(script: Script, pos: nat): (r: Result<(string, nat), string>)
    decreases |script| - pos
  {
    match Answer(script, pos)
    case None => Err(EofError)
    case Some(line) =>
      var s := Strip(line);
      if s != [] then Ok((s, pos + 1)) else ReadTitle(script, pos + 1)
  }

  /** The subsection prompt from position `pos`: stripped answers up to end of input, and the position after it. */
  function ReadSubs(script: Script, pos: nat): (r: (seq<string>, nat))
    requires pos <= |script|
    ensures pos <= r.1 <= |script|
    decreases |script| - pos
  {
    match Answer(script, pos)
    case None => ([], Next(script, pos))
    case Some(line) =>
      var rest := ReadSubs(script, pos + 1);
      ([Strip(line)] + rest.0, rest.1)
  }

  /**
    The section prompt from position `pos`, up to end of input. After each section title the
    subsection prompt runs until its own end of input, in directory mode only.
  */
  function ReadSections(script: Script, pos: nat, writeDirs: bool): seq<SectionInput>
    requires pos <= |script|
    decreases |script| - pos
  {
    match Answer(script, pos)
    case None => []
    case Some(line) =>
      var subs := if writeDirs then ReadSubs(script, pos + 1) else ([], pos + 1);
      [SectionInput(Strip(line), subs.0)] + ReadSections(script, subs.1, writeDirs)
  }

  /** What the whole dialogue collects from `script`, or the error it stops with. */
  function Collect(script: Script, writeDirs: bool): Result<Collected, string> {
    match ReadNumber(script, 0)
    case Err(e) => Err(e)
    case Ok((number, p)) =>
      match ReadTitle(script, p)
      case Err(e) => Err(e)
      case Ok((title, q)) =>
        match Answer(script, q)
        case None => Err(EofError)
        case Some(line) => Ok(Collected(number, title, Strip(line), ReadSections(script, q + 1, writeDirs)))
  }

  // ---------------------------------------------------------------------------------------
  // Properties of the dialogue
  // ---------------------------------------------------------------------------------------

  /**
    The course number is the first accepted answer: every answer before it was a line that the
    prompt rejected. Input that ends before any accepted answer is an error.
  */
  lemma {:induction false} ReadNumberFirstAccepted(script: Script, pos: nat)
    ensures match ReadNumber(script, pos)
      case Ok((n, p)) =>
        pos < p <= |script| && script[p - 1].Some? && NumberAccepted(Strip(script[p - 1].value)) &&
        n == NumberOf(Strip(script[p - 1].value)) &&
        forall q :: pos <= q < p - 1 ==> script[q].Some? && !NumberAccepted(Strip(script[q].value))
      case Err(e) =>
        e == EofError &&
        exists q :: pos <= q && Answer(script, q).None? &&
          forall m :: pos <= m < q ==> Answer(script, m).Some? && !NumberAccepted(Strip(Answer(script, m).value))
    decreases |script| - pos
  {
    match Answer(script, pos)
    case None =>
      assert Answer(script, pos).None?;
    case Some(line) =>
      if !NumberAccepted(Strip(line)) {
        ReadNumberFirstAccepted(script, pos + 1);
        match ReadNumber(script, pos + 1)
        case Ok(_) =>
        case Err(_) =>
          var q :| pos + 1 <= q && Answer(script, q).None? &&
            forall m :: pos + 1 <= m < q ==> Answer(script, m).Some? && !NumberAccepted(Strip(Answer(script, m).value));
          assert forall m :: pos <= m < q ==> Answer(script, m).Some? && !NumberAccepted(Strip(Answer(script, m).value));
      }
  }

  /**
    The course title is the first answer that is not blank once stripped, and is itself
    stripped and not empty; input that ends before one is an error.
  */
  lemma {:induction false} ReadTitleFirstNonBlank(script: Script, pos: nat)
    ensures match ReadTitle(script, pos)
      case Ok((t, p)) =>
        pos < p <= |script| && script[p - 1].Some? && t == Strip(script[p - 1].value) && t != [] &&
        forall q :: pos <= q < p - 1 ==> script[q].Some? && Strip(script[q].value) == []
      case Err(e) =>
        e == EofError &&
        exists q :: pos <= q && Answer(script, q).None? &&
          forall m :: pos <= m < q ==> Answer(script, m).Some? && Strip(Answer(script, m).value) == []
    decreases |script| - pos
  {
    match Answer(script, pos)
    case None =>
      assert Answer(script, pos).None?;
    case Some(line) =>
      if Strip(line) == [] {
        ReadTitleFirstNonBlank(script, pos + 1);
        match ReadTitle(script, pos + 1)
        case Ok(_) =>
        case Err(_) =>
          var q :| pos + 1 <= q && Answer(script, q).None? &&
            forall m :: pos + 1 <= m < q ==> Answer(script, m).Some? && Strip(Answer(script, m).value) == [];
          assert forall m :: pos <= m < q ==> Answer(script, m).Some? && Strip(Answer(script, m).value) == [];
      }
  }

  /** Without directories no subsection prompt is shown: every section has no subsections. */
  lemma {:induction false} FlatSectionsHaveNoSubsections(script: Script, pos: nat)
    requires pos <= |script|
    ensures forall i :: 0 <= i < |ReadSections(script, pos, false)| ==> ReadSections(script, pos, false)[i].subs == []
    decreases |script| - pos
  {
    match Answer(script, pos)
    case None =>
    case Some(line) =>
      FlatSectionsHaveNoSubsections(script, pos + 1);
      var rest := ReadSections(script, pos + 1, false);
      assert ReadSections(script, pos, false) == [SectionInput(Strip(line), [])] + rest;
  }

  /**
    Without directories the sections are exactly the answers up to the first end of input,
    stripped, in the order they were typed.
  */
  lemma {:induction false} FlatSectionsInOrder(script: Script, pos: nat, q: nat)
    requires pos <= q <= |script| && Answer(script, q).None?
    requires forall m :: pos <= m < q ==> script[m].Some?
    ensures |ReadSections(script, pos, false)| == q - pos
    ensures forall i :: 0 <= i < q - pos ==> ReadSections(script, pos, false)[i].title == Strip(script[pos + i].value)
    decreases q - pos
  {
    if pos < q {
      FlatSectionsInOrder(script, pos + 1, q);
      var rest := ReadSections(script, pos + 1, false);
      var line := script[pos].value;
      assert ReadSections(script, pos, false) == [SectionInput(Strip(line), [])] + rest;
      TitlesShift(script, pos, q, SectionInput(Strip(line), []), rest);
    }
  }

  /** One section in front of the sections read from `pos + 1` on lines up with the answers from `pos`. */
  lemma TitlesShift(script: Script, pos: nat, q: nat, first: SectionInput, rest: seq<SectionInput>)
    requires pos < q <= |script| && forall m :: pos <= m < q ==> script[m].Some?
    requires first.title == Strip(script[pos].value) && |rest| == q - pos - 1
    requires forall i :: 0 <= i < q - pos - 1 ==> rest[i].title == Strip(script[pos + 1 + i].value)
    ensures forall i :: 0 <= i < q - pos ==> ([first] + rest)[i].title == Strip(script[pos + i].value)
  {
    forall i | 0 < i < q - pos ensures ([first] + rest)[i].title == Strip(script[pos + i].value) {
      assert ([first] + rest)[i] == rest[i - 1] && pos + i == pos + 1 + (i - 1);
    }
  }

  /** The subsection prompt collects the stripped answers up to the first end of input, in order. */
  lemma {:induction false} SubsInOrder(script: Script, pos: nat, q: nat)
    requires pos <= q <= |script| && Answer(script, q).None?
    requires forall m :: pos <= m < q ==> script[m].Some?
    ensures ReadSubs(script, pos).1 == Next(script, q)
    ensures |ReadSubs(script, pos).0| == q - pos
    ensures forall i :: 0 <= i < q - pos ==> ReadSubs(script, pos).0[i] == Strip(script[pos + i].value)
    decreases q - pos
  {
    if pos < q {
      SubsInOrder(script, pos + 1, q);
      var r := ReadSubs(script, pos + 1);
      assert ReadSubs(script, pos).0 == [Strip(script[pos].value)] + r.0;
      forall i | 0 <= i < q - pos ensures ReadSubs(script, pos).0[i] == Strip(script[pos + i].value) {
        if i > 0 {
          assert ReadSubs(script, pos).0[i] == r.0[i - 1];
        }
      }
    }
  }

  // ---------------------------------------------------------------------------------------
  // The dialogue itself
  // ---------------------------------------------------------------------------------------

  /** The course-number prompt, asked until the answer is blank or an integer. */
  method AskNumber(script: Script, pos0: nat) returns (r: Result<(Option<int>, nat), string>)
    ensures r == ReadNumber(script, pos0)
  {
    var pos := pos0;
    while true
      invariant ReadNumber(script, pos) == ReadNumber(script, pos0)
      decreases |script| - pos
    {
      if pos >= |script| || script[pos].None? {
        return Err(EofError);
      }
      var answer := Strip(script[pos].value);
      pos := pos + 1;
      if answer == [] {
        return Ok((None, pos));
      }
      var n := ParseInt(answer);
      if n.Some? {
        return Ok((n, pos));
      }
    }
  }

  /** The course-title prompt, asked until the stripped answer is not empty. */
  method AskTitle(script: Script, pos0: nat) returns (r: Result<(string, nat), string>)
    ensures r == ReadTitle(script, pos0)
  {
    var pos := pos0;
    while true
      invariant ReadTitle(script, pos) == ReadTitle(script, pos0)
      decreases |script| - pos
    {
      if pos >= |script| || script[pos].None? {
        return Err(EofError);
      }
      var title := Strip(script[pos].value);
      pos := pos + 1;
      if title != [] {
        return Ok((title, pos));
      }
    }
  }

  /** The subsection prompt: each stripped answer is added to `section` until end of input. */
  method AskSubsections(section: Section, script: Script, pos0: nat) returns (pos: nat)
    requires pos0 <= |script|
    modifies section`subsections
    ensures section.subsections == old(section.subsections) + ReadSubs(script, pos0).0
    ensures pos == ReadSubs(script, pos0).1
  {
    pos := pos0;
    while pos < |script| && script[pos].Some?
      invariant pos0 <= pos <= |script|
      invariant section.subsections + ReadSubs(script, pos).0 == old(section.subsections) + ReadSubs(script, pos0).0
      invariant ReadSubs(script, pos).1 == ReadSubs(script, pos0).1
      decreases |script| - pos
    {
      ghost var line := script[pos].value;
      assert ReadSubs(script, pos).0 == [Strip(line)] + ReadSubs(script, pos + 1).0;
      section.AddSubsections(Strip(script[pos].value));
      pos := pos + 1;
    }
    pos := Next(script, pos);
  }

  /**
    One round of the section prompt at `pos`: a new section of `course` titled by the
    stripped answer, with its subsections read in directory mode; `next` is where the next
    section prompt reads.
  */
  method AskSection(course: Course, script: Script, pos: nat, writeDirs: bool) returns (section: Section, next: nat)
    requires pos < |script| && script[pos].Some?
    ensures fresh(section) && Built(section, course) && pos < next <= |script|
    ensures ReadSections(script, pos, writeDirs) ==
      [SectionInput(section.sectionTitle, section.subsections)] + ReadSections(script, next, writeDirs)
  {
    var sectionTitle := Strip(script[pos].value);
    section := new Section(sectionTitle, course);
    ghost var subs := if writeDirs then ReadSubs(script, pos + 1) else ([], pos + 1);
    next := pos + 1;
    if writeDirs {
      next := AskSubsections(section, script, next);
      assert section.subsections == [] + subs.0 == subs.0;
    }
    assert section.subsections == subs.0 && next == subs.1;
  }

  /** A section the dialogue made for `course`: it belongs to `course` and its slug is its title's. */
  predicate Built(s: Section, course: Course) {
    s.course == course && s.slug == GenerateSlug(s.sectionTitle)
  }

  /** Every section of `ss` was made by the dialogue for `course`. */
  predicate AllBuilt(ss: seq<Section>, course: Course) {
    ss == [] || (AllBuilt(ss[..|ss| - 1], course) && Built(ss[|ss| - 1], course))
  }

  /** `AllBuilt` position by position. */
  lemma {:induction false} AllBuiltAt(ss: seq<Section>, course: Course, i: nat)
    requires AllBuilt(ss, course) && i < |ss|
    ensures Built(ss[i], course)
  {
    if i < |ss| - 1 {
      AllBuiltAt(ss[..|ss| - 1], course, i);
    }
  }

  /** The sections `ss` read back as typed input: their titles and subsection lists. */
  ghost function Typed(ss: seq<Section>): (r: seq<SectionInput>)
    reads (set s | s in ss)`subsections
    ensures |r| == |ss|
  {
    if ss == [] then []
    else Typed(ss[..|ss| - 1]) + [SectionInput(ss[|ss| - 1].sectionTitle, ss[|ss| - 1].subsections)]
  }

  /** No section occurs twice in `ss`: each one is a separate object. */
  ghost predicate Distinct(ss: seq<Section>) {
    ss == [] || (Distinct(ss[..|ss| - 1]) && ss[|ss| - 1] !in ss[..|ss| - 1])
  }

  /** `Distinct` means that different positions hold different objects. */
  lemma {:induction false} DistinctAt(ss: seq<Section>, i: nat, k: nat)
    requires Distinct(ss) && i < k < |ss|
    ensures ss[i] != ss[k]
  {
    var front := ss[..|ss| - 1];
    if k < |ss| - 1 {
      DistinctAt(front, i, k);
    } else {
      assert ss[i] == front[i];
    }
  }

  lemma SnocFront<T>(xs: seq<T>, x: T)
    ensures (xs + [x])[..|xs|] == xs
  {
  }

  /** `Typed` position by position. */
  lemma {:induction false} TypedAt(ss: seq<Section>, i: nat)
    requires i < |ss|
    ensures Typed(ss)[i] == SectionInput(ss[i].sectionTitle, ss[i].subsections)
  {
    if i < |ss| - 1 {
      TypedAt(ss[..|ss| - 1], i);
    }
  }

  /**
    One round of the section prompt, with the section appended to `course.sections`; `made`
    are the sections of the earlier rounds.
  */
  method AddSection(course: Course, script: Script, pos: nat, writeDirs: bool, ghost made: seq<Section>)
    returns (next: nat, ghost section: Section)
    requires pos < |script| && script[pos].Some?
    requires Distinct(made) && AllBuilt(made, course)
    modifies course`sections
    ensures fresh(section) && pos < next <= |script|
    ensures course.sections == old(course.sections) + [section]
    ensures Distinct(made + [section]) && AllBuilt(made + [section], course)
    ensures Typed(made + [section]) + ReadSections(script, next, writeDirs) ==
      Typed(made) + ReadSections(script, pos, writeDirs)
  {
    ghost var done := Typed(made);
    var s;
    s, next := AskSection(course, script, pos, writeDirs);
    assert Typed(made) == done;
    ghost var entry := SectionInput(s.sectionTitle, s.subsections);
    assert s !in made;
    SnocFront(made, s);
    assert Typed(made + [s]) == done + [entry];
    AppendAssoc(done, [entry], ReadSections(script, next, writeDirs));
    course.sections := course.sections + [s];
    section := s;
  }

  /**
    The section prompt: each answer becomes a new section of `course` (with its subsections in
    directory mode), appended to `course.sections`, until end of input.
  */
  method AskSections(course: Course, script: Script, pos0: nat, writeDirs: bool) returns (ghost made: seq<Section>)
    requires pos0 <= |script|
    modifies course`sections
    ensures course.sections == old(course.sections) + made
    ensures Typed(made) == ReadSections(script, pos0, writeDirs)
    ensures Distinct(made) && AllBuilt(made, course) && forall s :: s in made ==> fresh(s)
  {
    made := [];
    var pos := pos0;
    while pos < |script| && script[pos].Some?
      invariant pos0 <= pos <= |script|
      invariant course.sections == old(course.sections) + made
      invariant Typed(made) + ReadSections(script, pos, writeDirs) == ReadSections(script, pos0, writeDirs)
      invariant forall s :: s in made ==> fresh(s)
      invariant Distinct(made) && AllBuilt(made, course)
      decreases |script| - pos
    {
      ghost var section;
      pos, section := AddSection(course, script, pos, writeDirs, made);
      AppendAssoc(old(course.sections), made, [section]);
      made := made + [section];
    }
    assert ReadSections(script, pos, writeDirs) == [];
  }

  /**
    `get_user_input`: ask for the course number, the title and the short title, then for
    sections (and, in directory mode, their subsections) until end of input, and build the
    course and its sections from the answers.
  */
  method GetUserInput(script: Script, writeDirs: bool) returns (r: Result<Course, string>)
    ensures r.Err? <==> Collect(script, writeDirs).Err?
    ensures r.Err? ==> r.error == Collect(script, writeDirs).error
    ensures r.Ok? ==>
      var c := Collect(script, writeDirs).value;
      var course := r.value;
      fresh(course) && course.courseNumber == c.number && course.courseTitle == c.title &&
      course.shortTitle == c.short && course.slug == "" && course.courseTemplate == "" &&
      Typed(course.sections) == c.sections &&
      (forall s :: s in course.sections ==> fresh(s)) &&
      Distinct(course.sections) && AllBuilt(course.sections, course)
  {
    var number := AskNumber(script, 0);
    if number.Err? {
      return Err(number.error);
    }
    var title := AskTitle(script, number.value.1);
    if title.Err? {
      return Err(title.error);
    }
    var pos := title.value.1;
    if pos >= |script| || script[pos].None? {
      return Err(EofError);
    }
    var short := Strip(script[pos].value);
    assert Collect(script, writeDirs) ==
      Ok(Collected(number.value.0, title.value.0, short, ReadSections(script, pos + 1, writeDirs)));
    var course := NewCourse(title.value.0, short, number.value.0, script, pos + 1, writeDirs);
    r := Ok(course);
  }

  /** The course of the answers so far, with the sections asked for from position `pos`. */
  method NewCourse(title: string, short: string, number: Option<int>, script: Script, pos: nat, writeDirs: bool)
    returns (course: Course)
    requires pos <= |script|
    ensures fresh(course) && course.courseNumber == number && course.courseTitle == title &&
      course.shortTitle == short && course.slug == "" && course.courseTemplate == ""
    ensures Typed(course.sections) == ReadSections(script, pos, writeDirs)
    ensures (forall s :: s in course.sections ==> fresh(s)) &&
      Distinct(course.sections) && AllBuilt(course.sections, course)
  {
    course := new Course(title, short, number);
    ghost var made := AskSections(course, script, pos, writeDirs);
    assert course.sections == [] + made == made;
  }
}
