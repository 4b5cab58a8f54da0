/** The scripted dialogues of the input collector's own tests, evaluated on the model. */
module InputExamples {
  import opened Wrappers
  import opened Chars
  import opened Numbers
  import opened Input

  lemma ParseOne()
    ensures ParseInt("1") == Some(1)
  {
    assert DigitsValue("1") == DigitsValue([]) * 10 + 1;
  }

  /** A rejected course number is asked again; the next answer "1" is taken. */
  lemma ExampleInvalidNumberRetried()
    ensures Collect([Some("a"), Some("1"), Some("example course"), Some("ec 1"), None], true) ==
      Ok(Collected(Some(1), "example course", "ec 1", []))
  {
    var script: Script := [Some("a"), Some("1"), Some("example course"), Some("ec 1"), None];
    StripKeeps("a");
    StripKeeps("1");
    ParseOne();
    assert ParseInt("a") == None;
    assert ReadNumber(script, 0) == Ok((Some(1), 2));
    StripKeeps("example course");
    assert ReadTitle(script, 2) == Ok(("example course", 3));
    StripKeeps("ec 1");
  }

  /** A blank course number gives no number, and without directories no subsection is asked for. */
  lemma ExampleFlatSections()
    ensures Collect([Some(""), Some("example course"), Some("EC 1"), Some("Section 1"), Some("Section 2"), None], false) ==
      Ok(Collected(None, "example course", "EC 1", [SectionInput("Section 1", []), SectionInput("Section 2", [])]))
  {
    var script: Script := [Some(""), Some("example course"), Some("EC 1"), Some("Section 1"), Some("Section 2"), None];
    BlankNumber(script);
    StripKeeps("EC 1");
    TwoFlatSections(script);
  }

  lemma BlankNumber(script: Script)
    requires script == [Some(""), Some("example course"), Some("EC 1"), Some("Section 1"), Some("Section 2"), None]
    ensures ReadNumber(script, 0) == Ok((None, 1))
    ensures ReadTitle(script, 1) == Ok(("example course", 2))
  {
    StripKeeps("");
    StripKeeps("example course");
  }

  lemma TwoFlatSections(script: Script)
    requires script == [Some(""), Some("example course"), Some("EC 1"), Some("Section 1"), Some("Section 2"), None]
    ensures ReadSections(script, 3, false) == [SectionInput("Section 1", []), SectionInput("Section 2", [])]
  {
    StripKeeps("Section 1");
    StripKeeps("Section 2");
    assert ReadSections(script, 5, false) == [];
    assert ReadSections(script, 4, false) == [SectionInput("Section 2", [])];
  }

  /** In directory mode the subsections of a section are read up to their end of input. */
  lemma ExampleSubsections()
    ensures Collect([Some("1"), Some("example course"), Some("EC 1"), Some("Section 1"), Some("Sub 1"), None], true) ==
      Ok(Collected(Some(1), "example course", "EC 1", [SectionInput("Section 1", ["Sub 1"])]))
  {
    var script: Script := [Some("1"), Some("example course"), Some("EC 1"), Some("Section 1"), Some("Sub 1"), None];
    NumberOne(script);
    StripKeeps("EC 1");
    SectionWithSubsection(script);
  }

  lemma NumberOne(script: Script)
    requires script == [Some("1"), Some("example course"), Some("EC 1"), Some("Section 1"), Some("Sub 1"), None]
    ensures ReadNumber(script, 0) == Ok((Some(1), 1))
    ensures ReadTitle(script, 1) == Ok(("example course", 2))
  {
    StripKeeps("1");
    ParseOne();
    StripKeeps("example course");
  }

  lemma SectionWithSubsection(script: Script)
    requires script == [Some("1"), Some("example course"), Some("EC 1"), Some("Section 1"), Some("Sub 1"), None]
    ensures ReadSections(script, 3, true) == [SectionInput("Section 1", ["Sub 1"])]
  {
    StripKeeps("Section 1");
    StripKeeps("Sub 1");
    assert ReadSubs(script, 5) == ([], 6);
    assert Answer(script, 4) == Some("Sub 1");
    var tail := ReadSubs(script, 5);
    assert ReadSubs(script, 4) == ([Strip("Sub 1")] + tail.0, tail.1);
    assert [Strip("Sub 1")] + tail.0 == [Strip("Sub 1")] == ["Sub 1"];
    assert ReadSections(script, 6, true) == [];
  }

  /** End of input at the title prompt is Python's uncaught `EOFError`. */
  lemma ExampleEofAtTitle()
    ensures Collect([Some("1")], true) == Err(EofError)
  {
    StripKeeps("1");
    ParseOne();
    assert ReadNumber([Some("1")], 0) == Ok((Some(1), 1));
  }
}
