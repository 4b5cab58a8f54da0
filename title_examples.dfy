/**
  The titles the repository's unit tests pin down for `handle_title`, worked out through the
  general lemmas of `Title`: one lemma per word fixes how that word is re-cased, and
  `HandleTitleTwo` to `HandleTitleFour` put the words together.
*/
module TitleExamples {
  import opened Chars
  import opened Roman
  import opened Title

  lemma CourseWord(first: string)
    ensures TitlePart("course", first) == "Course"
  {
    OrdinaryWord("course", first, 1);
  }

  lemma TitleWord(first: string)
    ensures TitlePart("title", first) == "Title"
  {
    OrdinaryWord("title", first, 0);
  }

  lemma IsWord(first: string)
    ensures TitlePart("is", first) == "Is"
  {
    OrdinaryWord("is", first, 1);
  }

  lemma ImportantWord(first: string)
    ensures TitlePart("important", first) == "Important"
  {
    OrdinaryWord("important", first, 2);
  }

  lemma NumeralII(first: string)
    ensures TitlePart("ii", first) == "II"
  {
    var u := Upper("ii");
    assert u == ['I', 'I'];
    OnesNumeral(u);
  }

  lemma NumeralIX(first: string)
    ensures TitlePart("ix", first) == "IX"
  {
    var u := Upper("ix");
    assert u == ['I', 'X'];
    OnesNumeral(u);
  }

  lemma OfWord(first: string)
    requires first != "of"
    ensures TitlePart("of", first) == "of"
  {
    MinorPartLower("of", first);
  }

  lemma AndWord(first: string)
    requires first != "and"
    ensures TitlePart("and", first) == "and"
  {
    MinorPartLower("and", first);
  }

  /** "on" is capitalized exactly where the title's first part is "on" as well. */
  lemma OnWord(first: string)
    ensures first != "on" ==> TitlePart("on", first) == "on"
    ensures first == "on" ==> TitlePart("on", first) == "On"
  {
    MinorPartLower("on", first);
  }

  /** "the" stays lower-case, except where the title's first part is "the" as well. */
  lemma TheWord(first: string)
    ensures first != "the" ==> TitlePart("the", first) == "the"
    ensures first == "the" ==> TitlePart("the", first) == "The"
  {
    MinorPartLower("the", first);
  }

  lemma ExampleCourseTitle(t: string)
    requires t == "course title"
    ensures HandleTitle(t) == "Course Title"
  {
    assert "Course" + " " + "Title" == "Course Title";
    assert HandleTitle(t) == "Course" + " " + "Title" by {
      assert PlainWords(["course", "title"]) && t == "course" + " " + "title";
      CourseWord("course");
      TitleWord("course");
      HandleTitleTwo("course", "title", "Course", "Title", t);
    }
  }

  lemma ExampleCourseTitleII(t: string)
    requires t == "course title ii"
    ensures HandleTitle(t) == "Course Title II"
  {
    assert "Course" + " " + "Title" + " " + "II" == "Course Title II";
    assert HandleTitle(t) == "Course" + " " + "Title" + " " + "II" by {
      assert PlainWords(["course", "title", "ii"]) && t == "course" + " " + "title" + " " + "ii";
      CourseWord("course");
      TitleWord("course");
      NumeralII("course");
      HandleTitleThree("course", "title", "ii", "Course", "Title", "II", t);
    }
  }

  lemma ExampleCourseTitleIX(t: string)
    requires t == "course title ix"
    ensures HandleTitle(t) == "Course Title IX"
  {
    assert "Course" + " " + "Title" + " " + "IX" == "Course Title IX";
    assert HandleTitle(t) == "Course" + " " + "Title" + " " + "IX" by {
      assert PlainWords(["course", "title", "ix"]) && t == "course" + " " + "title" + " " + "ix";
      CourseWord("course");
      TitleWord("course");
      NumeralIX("course");
      HandleTitleThree("course", "title", "ix", "Course", "Title", "IX", t);
    }
  }

  /** Minor words after the first word stay lower-case. */
  lemma ExampleMinorWords(t: string)
    requires t == "title of the course"
    ensures HandleTitle(t) == "Title of the Course"
  {
    assert t == "title" + " " + "of" + " " + "the" + " " + "course";
    MinorWordsOfTitle("title", "of", "the", "course");
  }

  lemma MinorWordsOfTitle(w1: string, w2: string, w3: string, w4: string)
    requires w1 == "title" && w2 == "of" && w3 == "the" && w4 == "course"
    ensures HandleTitle(w1 + " " + w2 + " " + w3 + " " + w4) == "Title of the Course"
  {
    assert PlainWords([w1, w2, w3, w4]);
    assert TitlePart(w1, w1) == "Title" by { TitleWord(w1); }
    assert TitlePart(w2, w1) == "of" by { OfWord(w1); }
    assert TitlePart(w3, w1) == "the" by { TheWord(w1); }
    assert TitlePart(w4, w1) == "Course" by { CourseWord(w1); }
    HandleTitleFour(w1, w2, w3, w4, "Title", "of", "the", "Course", w1 + " " + w2 + " " + w3 + " " + w4);
    MinorWordsJoined();
  }

  lemma MinorWordsJoined()
    ensures "Title" + " " + "of" + " " + "the" + " " + "Course" == "Title of the Course"
  {
    assert "Title" + " " + "of" == "Title of";
    assert "Title of" + " " + "the" == "Title of the";
  }

  /** A minor word that is the first word is capitalized, and so is every ordinary word after it. */
  lemma ExampleCourseIsImportant(t: string)
    requires t == "the course is important"
    ensures HandleTitle(t) == "The Course Is Important"
  {
    assert t == "the" + " " + "course" + " " + "is" + " " + "important";
    CourseIsImportantWords("the", "course", "is", "important");
  }

  lemma CourseIsImportantWords(w1: string, w2: string, w3: string, w4: string)
    requires w1 == "the" && w2 == "course" && w3 == "is" && w4 == "important"
    ensures HandleTitle(w1 + " " + w2 + " " + w3 + " " + w4) == "The Course Is Important"
  {
    assert PlainWords([w1, w2, w3, w4]);
    assert TitlePart(w1, w1) == "The" by { TheWord(w1); }
    assert TitlePart(w2, w1) == "Course" by { CourseWord(w1); }
    assert TitlePart(w3, w1) == "Is" by { IsWord(w1); }
    assert TitlePart(w4, w1) == "Important" by { ImportantWord(w1); }
    HandleTitleFour(w1, w2, w3, w4, "The", "Course", "Is", "Important", w1 + " " + w2 + " " + w3 + " " + w4);
    CourseIsImportantJoined();
  }

  lemma CourseIsImportantJoined()
    ensures "The" + " " + "Course" + " " + "Is" + " " + "Important" == "The Course Is Important"
  {
    assert "The" + " " + "Course" == "The Course";
    assert "The Course" + " " + "Is" == "The Course Is";
  }

  /**
    A minor word is compared with the first part, not with the position it stands at: the
    second "on" is capitalized like the first, while "and" stays lower-case.
  */
  lemma ExampleRepeatedFirstWord(t: string)
    requires t == "on and on"
    ensures HandleTitle(t) == "On and On"
  {
    assert "On" + " " + "and" + " " + "On" == "On and On";
    assert HandleTitle(t) == "On" + " " + "and" + " " + "On" by {
      assert PlainWords(["on", "and", "on"]) && t == "on" + " " + "and" + " " + "on";
      OnWord("on");
      AndWord("on");
      HandleTitleThree("on", "and", "on", "On", "and", "On", t);
    }
  }
}
