/** Worked call numbers: the extracutter and year example, a year glued to the cutter,
    leading whitespace, two books sorted by subject and two sorted by cutter. */
module Examples {
  import opened Text
  import opened CallNumbers
  import opened CallNumberLaws
  import opened CallNumberBuild
  import opened Books

  /** A call number written out piece by piece parses into the parts it was written
      from. */
  lemma ParsesAs(p: Parts, s: string, r: CallNumber)
    requires ValidParts(p)
    requires s == p.cls + p.number + FractionText(p.fraction) + "." + p.cutter + SpacedText(p.extra) + SpacedText(p.year)
    requires r == Expected(p)
    ensures Parse(s) == Some(r)
  {
    BuildSpelledOut(p);
    RoundTrip(p);
  }

  /** The cutter and extracutter are joined by one space and the year is kept. */
  lemma ExtracutterAndYear(s: string)
    requires s == "QA76.73.C15 B73 2019"
    ensures Parse(s) == Some(CallNumber("QA", "76.73.", "C15 B73", Some("2019")))
  {
    var p := Parts("QA", "76", Some("73"), "C15", Some("B73"), Some("2019"));
    assert All("QA", 0, 2, Upper) && All("76", 0, 2, Digit) && All("73", 0, 2, Digit);
    assert All("C15", 1, 3, Digit) && All("B73", 1, 3, Digit) && All("2019", 0, 4, Digit);
    ParsesAs(p, s, CallNumber("QA", "76.73.", "C15 B73", Some("2019")));
  }

  /** Year digits written against the cutter's digits belong to the cutter. */
  lemma GluedYearIsCutter(s: string)
    requires s == "QA76.73.C152019"
    ensures Parse(s) == Some(CallNumber("QA", "76.73.", "C152019", None))
  {
    var p := Parts("QA", "76", Some("73"), "C152019", None, None);
    assert All("QA", 0, 2, Upper) && All("76", 0, 2, Digit) && All("73", 0, 2, Digit);
    assert All("C152019", 1, 7, Digit);
    ParsesAs(p, s, CallNumber("QA", "76.73.", "C152019", None));
  }

  lemma LeadingSpaceRejected(s: string)
    requires s == " QA76.73.C15"
    ensures Parse(s).None?
  {
    LeadingNonLetterRejected(s);
  }

  /** Subjects compare as strings: a book at "QA10.C15" sorts before one at "QA2.C15". */
  lemma SubjectsCompareAsStrings(a: Book, b: Book)
    requires a.callnum == "QA10.C15" && b.callnum == "QA2.C15"
    ensures Parses(a) && Parses(b) && Less(a, b) && !Less(b, a)
  {
    SubjectTenParses(a.callnum);
    SubjectTwoParses(b.callnum);
    SubjectDecides(Parsed(a), Parsed(b));
  }

  lemma SubjectTenParses(s: string)
    requires s == "QA10.C15"
    ensures Parse(s) == Some(CallNumber("QA", "10.", "C15", None))
  {
    assert All("QA", 0, 2, Upper) && All("10", 0, 2, Digit) && All("C15", 1, 3, Digit);
    ParsesAs(Parts("QA", "10", None, "C15", None, None), s, CallNumber("QA", "10.", "C15", None));
  }

  lemma SubjectTwoParses(s: string)
    requires s == "QA2.C15"
    ensures Parse(s) == Some(CallNumber("QA", "2.", "C15", None))
  {
    assert All("QA", 0, 2, Upper) && All("2", 0, 1, Digit) && All("C15", 1, 3, Digit);
    ParsesAs(Parts("QA", "2", None, "C15", None, None), s, CallNumber("QA", "2.", "C15", None));
  }

  lemma SubjectDecides(x: CallNumber, y: CallNumber)
    requires x == CallNumber("QA", "10.", "C15", None)
    requires y == CallNumber("QA", "2.", "C15", None)
    ensures PartsLess(x, y) && !PartsLess(y, x)
  {
    RemoveSpacesNoSpace("QA");
    RemoveSpacesNoSpace("10.");
    RemoveSpacesNoSpace("2.");
  }

  /** "Learning Python" sorts before "Python Crash Course": the cutters "P98 L87" and
      "P98 M37" differ, so the years are never looked at. */
  lemma LearningPythonFirst(a: Book, b: Book)
    requires a == Book("QA76.73.P98 L87 2013", "Learning Python", "Lutz, Mark")
    requires b == Book("QA76.73.P98 M37 2019", "Python Crash Course", "Matthes, Eric")
    ensures Parses(a) && Parses(b) && Less(a, b) && !Less(b, a)
  {
    LutzParses(a.callnum);
    MatthesParses(b.callnum);
    CutterDecides(Parsed(a), Parsed(b));
  }

  lemma CutterDecides(x: CallNumber, y: CallNumber)
    requires x == CallNumber("QA", "76.73.", "P98 L87", Some("2013"))
    requires y == CallNumber("QA", "76.73.", "P98 M37", Some("2019"))
    ensures IsYearText(x.year) && IsYearText(y.year)
    ensures PartsLess(x, y) && !PartsLess(y, x)
  {
    assert All("2013", 0, 4, Digit) && All("2019", 0, 4, Digit);
    RemoveSpacesNoSpace("QA");
    RemoveSpacesNoSpace("76.73.");
    assert StrLess("P98 L87", "P98 M37");
    StrLessTrichotomy("P98 L87", "P98 M37");
  }

  lemma LutzParses(s: string)
    requires s == "QA76.73.P98 L87 2013"
    ensures Parse(s) == Some(CallNumber("QA", "76.73.", "P98 L87", Some("2013")))
  {
    var p := Parts("QA", "76", Some("73"), "P98", Some("L87"), Some("2013"));
    assert All("QA", 0, 2, Upper) && All("76", 0, 2, Digit) && All("73", 0, 2, Digit);
    assert All("P98", 1, 3, Digit) && All("L87", 1, 3, Digit) && All("2013", 0, 4, Digit);
    ParsesAs(p, s, CallNumber("QA", "76.73.", "P98 L87", Some("2013")));
  }

  lemma MatthesParses(s: string)
    requires s == "QA76.73.P98 M37 2019"
    ensures Parse(s) == Some(CallNumber("QA", "76.73.", "P98 M37", Some("2019")))
  {
    var p := Parts("QA", "76", Some("73"), "P98", Some("M37"), Some("2019"));
    assert All("QA", 0, 2, Upper) && All("76", 0, 2, Digit) && All("73", 0, 2, Digit);
    assert All("P98", 1, 3, Digit) && All("M37", 1, 3, Digit) && All("2019", 0, 4, Digit);
    ParsesAs(p, s, CallNumber("QA", "76.73.", "P98 M37", Some("2019")));
  }
}
