/** What `Book.call_num_parse` promises about its result: the shape of each field,
    where a year can come from, and that a call number built from valid parts
    parses back into those parts. */
module CallNumberLaws {
  import opened Text
  import opened CallNumbers

  /** One or more upper-case letters. */
  predicate IsUpperWord(t: string) {
    |t| > 0 && All(t, 0, |t|, Upper)
  }

  /** 1 to 4 digits. */
  predicate IsNumber(t: string) {
    1 <= |t| <= 4 && All(t, 0, |t|, Digit)
  }

  /** A stripped subject: it starts with its integer part of 1 to 4 digits (so with no
      whitespace, and never five digits in a row) and ends with the terminating point. */
  predicate IsSubjectText(t: string) {
    |t| >= 2 && IsDigit(t[0]) && !All(t, 0, 5, Digit) && t[|t| - 1] == '.'
  }

  /** `[A-Z]\d+` */
  predicate IsCutterToken(t: string) {
    |t| >= 2 && IsUpper(t[0]) && All(t, 1, |t|, Digit)
  }

  /** A cutter, or a cutter and an extracutter joined by one space. */
  predicate IsCutterText(t: string) {
    || IsCutterToken(t)
    || exists k :: 0 < k < |t| && t[k] == ' ' && IsCutterToken(t[..k]) && IsCutterToken(t[k + 1..])
  }

  /** No year, or exactly four digits. */
  predicate IsYearText(y: Option<string>) {
    y.None? || (|y.value| == 4 && All(y.value, 0, 4, Digit))
  }

  /** The groups of a match as they stand in the string: the cutter and the
      extracutter joined by one space, an empty year group as nothing. */
  function MatchFields(s: string, m: Match): CallNumber
    requires GroupBounds(s, m) && m.head.numStart <= m.head.dotPos
  {
    var h, t := m.head, m.tail;
    var cutter := s[h.cutterStart..t.cutterEnd];
    CallNumber(
      s[..h.classEnd],
      s[h.numStart..h.dotPos + 1],
      if t.extraEnd > t.extraStart then cutter + " " + s[t.extraStart..t.extraEnd] else cutter,
      if t.yearEnd > t.yearStart then Some(s[t.yearStart..t.yearEnd]) else None)
  }

  /** Stripping the groups of a match removes only the whitespace before the subject's
      digits: every other group already starts and ends with a letter or a digit. */
  lemma GroupsOfMatch(s: string, m: Match)
    requires ValidMatch(s, m)
    ensures Groups(s, m) == MatchFields(s, m)
  {
    SubjectUnstripped(s, m);
    CutterUnstripped(s, m);
  }

  lemma SubjectUnstripped(s: string, m: Match)
    requires ValidMatch(s, m)
    ensures GroupBounds(s, m) && m.head.numStart <= m.head.dotPos
    ensures Groups(s, m).subject == MatchFields(s, m).subject
  {
    var h := m.head;
    SubjectGroup(s, h);
    assert Groups(s, m).subject == Strip(s[h.classEnd..h.dotPos + 1]);
  }

  lemma CutterUnstripped(s: string, m: Match)
    requires ValidMatch(s, m)
    ensures GroupBounds(s, m) && m.head.numStart <= m.head.dotPos
    ensures Groups(s, m).cutter == MatchFields(s, m).cutter
  {
    var h, t := m.head, m.tail;
    var cutter := s[h.cutterStart..t.cutterEnd];
    TokenUnstripped(s, h.cutterStart, t.cutterEnd);
    if t.extraEnd > t.extraStart {
      var extra := s[t.extraStart..t.extraEnd];
      TokenUnstripped(s, t.extraStart, t.extraEnd);
      assert Groups(s, m).cutter == cutter + " " + extra;
    }
  }

  /** A letter followed by digits has nothing to strip. */
  lemma TokenUnstripped(s: string, lo: nat, hi: nat)
    requires lo < hi && All(s, lo + 1, hi, Digit) && IsUpper(s[lo])
    ensures Strip(s[lo..hi]) == s[lo..hi]
  {
    var u := s[lo..hi];
    if lo + 1 < hi {
      AllAt(s, lo + 1, hi, Digit, hi - 1);
    }
    assert u[0] == s[lo] && u[|u| - 1] == s[hi - 1];
    StripUnchanged(u);
  }

  lemma SubjectGroup(s: string, h: Head)
    requires ValidHead(s, h)
    ensures Strip(s[h.classEnd..h.dotPos + 1]) == s[h.numStart..h.dotPos + 1]
  {
    var subject := s[h.classEnd..h.dotPos + 1];
    var i := h.numStart - h.classEnd;
    assert subject[i..] == s[h.numStart..h.dotPos + 1];
    AllSlice(s, h.classEnd, h.numStart, Space, h.classEnd, h.dotPos + 1);
    assert subject[i] == s[h.numStart];
    StripLeading(subject, i);
  }

  /** The shape of every field of a parse result. */
  predicate WellFormed(r: CallNumber) {
    IsUpperWord(r.cls) && IsSubjectText(r.subject) && IsCutterText(r.cutter) && IsYearText(r.year)
  }

  /** On success every field has the shape the pattern gives it, and the class is the
      string's leading run of upper-case letters. */
  lemma ParseShape(s: string, r: CallNumber)
    requires Parse(s) == Some(r)
    ensures WellFormed(r)
    ensures r.cls == s[..|r.cls|] && Stops(s, |r.cls|, Upper)
  {
    var m := ScanMatch(s).value;
    GroupsOfMatch(s, m);
    MatchShape(s, m);
  }

  lemma MatchShape(s: string, m: Match)
    requires ValidMatch(s, m)
    ensures WellFormed(MatchFields(s, m))
  {
    var r := MatchFields(s, m);
    SubjectShape(s, m.head);
    assert IsUpperWord(r.cls) && IsSubjectText(r.subject);
    CutterShape(s, m.head.cutterStart, m.tail);
    assert IsCutterText(r.cutter);
    YearShape(s, m.tail.yearStart, m.tail.yearEnd);
    assert IsYearText(r.year);
  }

  lemma YearShape(s: string, i: nat, j: nat)
    requires YearAt(s, i, j)
    ensures IsYearText(if j > i then Some(s[i..j]) else None)
  {
    if j > i {
      AllSlice(s, i, j, Digit, i, j);
    }
  }

  lemma SubjectShape(s: string, h: Head)
    requires ValidHead(s, h)
    ensures IsUpperWord(s[..h.classEnd])
    ensures IsSubjectText(s[h.numStart..h.dotPos + 1])
  {
    AllSlice(s, 0, h.classEnd, Upper, 0, h.classEnd);
    var subject := s[h.numStart..h.dotPos + 1];
    assert subject[h.intEnd - h.numStart] == s[h.intEnd];
    if All(subject, 0, 5, Digit) {
      AllAt(subject, 0, 5, Digit, h.intEnd - h.numStart);
    }
  }

  lemma CutterShape(s: string, cs: nat, t: Tail)
    requires cs < |s| && IsUpper(s[cs]) && ValidTail(s, cs, t)
    ensures IsCutterText(
      if t.extraEnd > t.extraStart then s[cs..t.cutterEnd] + " " + s[t.extraStart..t.extraEnd]
      else s[cs..t.cutterEnd])
  {
    var cutter := s[cs..t.cutterEnd];
    TokenAt(s, cs, t.cutterEnd);
    if t.extraEnd > t.extraStart {
      var extra := s[t.extraStart..t.extraEnd];
      TokenAt(s, t.extraStart, t.extraEnd);
      var joined := cutter + " " + extra;
      assert joined[..|cutter|] == cutter && joined[|cutter| + 1..] == extra;
      assert joined[|cutter|] == ' ';
    }
  }

  lemma TokenAt(s: string, lo: nat, hi: nat)
    requires lo + 2 <= hi && All(s, lo + 1, hi, Digit) && IsUpper(s[lo])
    ensures IsCutterToken(s[lo..hi])
  {
    AllSlice(s, lo + 1, hi, Digit, lo, hi);
  }

  /** A call number whose first character is not an upper-case letter (leading
      whitespace, say) is rejected. */
  lemma LeadingNonLetterRejected(s: string)
    requires |s| == 0 || !IsUpper(s[0])
    ensures Parse(s).None?
  {
    if Parse(s).Some? {
      ParseShape(s, Parse(s).value);
      assert false;
    }
  }

  /** A year is the call number's last four characters (before an optional final line
      feed) and has whitespace right before it: digits glued to the cutter's belong to
      the cutter. */
  lemma YearNeedsSpace(s: string, r: CallNumber)
    requires Parse(s) == Some(r) && r.year.Some?
    ensures exists i :: 0 <= i && i + 5 <= |s| && IsSpace(s[i]) && s[i + 1..i + 5] == r.year.value && AtEnd(s, i + 5)
  {
    var m := ScanMatch(s).value;
    GroupsOfMatch(s, m);
    MatchYear(s, m);
  }

  lemma MatchYear(s: string, m: Match)
    requires PythonMatch(s, m) && m.tail.yearEnd > m.tail.yearStart
    ensures var y := s[m.tail.yearStart..m.tail.yearEnd];
      exists i :: 0 <= i && i + 5 <= |s| && IsSpace(s[i]) && s[i + 1..i + 5] == y && AtEnd(s, i + 5)
  {
    var t := m.tail;
    var i := t.yearStart - 1;
    if t.yearStart > t.extraEnd {
      AllAt(s, t.extraEnd, t.yearStart, Space, i);
    } else if t.extraEnd > t.extraStart {
      // Without whitespace the year would continue the digits before it.
      assert false;
    } else if t.extraStart == t.cutterEnd {
      assert false;
    } else {
      AllAt(s, t.cutterEnd, t.extraStart, Space, i);
    }
    assert 0 <= i && i + 5 <= |s| && IsSpace(s[i]) && s[i + 1..i + 5] == s[t.yearStart..t.yearEnd] && AtEnd(s, i + 5);
  }
}
