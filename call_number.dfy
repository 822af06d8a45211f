/** The call-number parser of `Book.call_num_parse`.

    The source matches the call number against the anchored pattern

      class        [A-Z]+
      subject      \s* \d{1,4} (\.\d{1,4})? \s* \.
                   \s*
      cutter       [A-Z]\d+
                   \s*
      extracutter  ([A-Z]\d+)?
                   \s*
      year         (\d{4})?  followed by the end of the string, or by a final "\n"
                             (Python's `$`)

    and, on a match, returns the class, the stripped subject, the cutter (joined
    with the extracutter by one space) and the year or nothing.

    Here the pattern is a hand-written scanner (`ScanMatch`) that records the
    boundaries of every part. Two predicates say what a match is: `ValidMatch`
    is the pattern read as a language (any way of cutting the string into the
    parts), `PythonMatch` adds the choices Python's backtracking matcher makes
    (each greedy `\d+` and `\s*` that could take more characters does). The
    scanner returns exactly the Python match, and accepts exactly the strings of
    the language. */
module CallNumbers {
  import opened Text

  datatype Option<T> = None | Some(value: T)

  /** The 4-tuple the source returns: class, subject, cutter, year. */
  datatype CallNumber = CallNumber(cls: string, subject: string, cutter: string, year: Option<string>)

  /** Boundaries of class and subject, and where the cutter's letter is:
      class `s[..classEnd]`, subject `s[classEnd..dotPos + 1]` whose digits start
      at `numStart`, integer part `s[numStart..intEnd]`, fraction `s[intEnd..fracEnd]`
      (with its point; empty when absent), cutter letter `s[cutterStart]`. */
  datatype Head = Head(classEnd: nat, numStart: nat, intEnd: nat, fracEnd: nat, dotPos: nat, cutterStart: nat)

  /** Boundaries after the cutter letter: cutter `s[cutterStart..cutterEnd]`,
      extracutter `s[extraStart..extraEnd]` (empty when absent), year
      `s[yearStart..yearEnd]` (empty when absent). */
  datatype Tail = Tail(cutterEnd: nat, extraStart: nat, extraEnd: nat, yearStart: nat, yearEnd: nat)

  datatype Match = Match(head: Head, tail: Tail)

  /** Python's `$`: the end of the string, or just before a final line feed. */
  predicate AtEnd(s: string, i: nat) {
    i == |s| || (i + 1 == |s| && s[i] == '\n')
  }

  /** `(\d{4})?$` matched from `i` to `j`. */
  predicate YearAt(s: string, i: nat, j: nat) {
    (j == i || (j == i + 4 && All(s, i, j, Digit))) && j <= |s| && AtEnd(s, j)
  }

  /** `^[A-Z]+ (\s*\d{1,4}(\.\d{1,4})?\s*\.) \s*` followed by an upper-case letter. */
  predicate ValidHead(s: string, h: Head) {
    && 0 < h.classEnd && All(s, 0, h.classEnd, Upper)
    && All(s, h.classEnd, h.numStart, Space)
    && h.numStart < h.intEnd <= h.numStart + 4 && All(s, h.numStart, h.intEnd, Digit)
    && (|| h.fracEnd == h.intEnd
        || (h.intEnd + 2 <= h.fracEnd <= h.intEnd + 5 && All(s, h.intEnd + 1, h.fracEnd, Digit)
            && s[h.intEnd] == '.'))
    && All(s, h.fracEnd, h.dotPos, Space) && h.dotPos < |s| && s[h.dotPos] == '.'
    && All(s, h.dotPos + 1, h.cutterStart, Space) && h.cutterStart < |s| && IsUpper(s[h.cutterStart])
  }

  /** `\d+ \s* ([A-Z]\d+)? \s* (\d{4})? $` after the cutter letter at `cs`. */
  predicate ValidTail(s: string, cs: nat, t: Tail) {
    && cs + 2 <= t.cutterEnd && All(s, cs + 1, t.cutterEnd, Digit)
    && All(s, t.cutterEnd, t.extraStart, Space)
    && (|| t.extraEnd == t.extraStart
        || (t.extraStart + 2 <= t.extraEnd && All(s, t.extraStart + 1, t.extraEnd, Digit)
            && IsUpper(s[t.extraStart])))
    && All(s, t.extraEnd, t.yearStart, Space)
    && YearAt(s, t.yearStart, t.yearEnd)
  }

  /** The choices Python's matcher makes where the pattern leaves any: the cutter's
      and the extracutter's `\d+` and the `\s*` after each take all they can. */
  predicate PythonTail(s: string, cs: nat, t: Tail) {
    && ValidTail(s, cs, t)
    && Stops(s, t.cutterEnd, Digit)
    && Stops(s, t.extraStart, Space)
    && (t.extraEnd == t.extraStart || Stops(s, t.extraEnd, Digit))
    && Stops(s, t.yearStart, Space)
  }

  /** `m` is a way the whole pattern matches `s`. */
  predicate ValidMatch(s: string, m: Match) {
    ValidHead(s, m.head) && ValidTail(s, m.head.cutterStart, m.tail)
  }

  /** `m` is the match `re.match` finds. */
  predicate PythonMatch(s: string, m: Match) {
    ValidHead(s, m.head) && PythonTail(s, m.head.cutterStart, m.tail)
  }

  /** Class and subject, up to the cutter's letter. */
  function ScanHead(s: string): (r: Option<Head>)
    ensures r.Some? ==> ValidHead(s, r.value)
  {
    var classEnd := SpanEnd(s, 0, Upper);
    var numStart := SpanEnd(s, classEnd, Space);
    var intEnd := SpanEnd(s, numStart, Digit);
    var fracEnd :=
      if intEnd + 1 < |s| && s[intEnd] == '.' && IsDigit(s[intEnd + 1])
      then SpanEnd(s, intEnd + 1, Digit) else intEnd;
    var dotPos := SpanEnd(s, fracEnd, Space);
    var cutterStart := if dotPos < |s| then SpanEnd(s, dotPos + 1, Space) else dotPos;
    if || classEnd == 0
       || intEnd == numStart || intEnd > numStart + 4
       || fracEnd > intEnd + 5
       || dotPos == |s| || s[dotPos] != '.'
       || cutterStart == |s| || !IsUpper(s[cutterStart])
    then None
    else Some(Head(classEnd, numStart, intEnd, fracEnd, dotPos, cutterStart))
  }

  /** The optional year and the end of the string, from `i` on. */
  function ScanYear(s: string, i: nat): (r: Option<nat>)
    requires i <= |s|
    ensures forall j: nat :: YearAt(s, i, j) <==> r == Some(j)
  {
    if AtEnd(s, i) then Some(i)
    else if i + 4 <= |s| && All(s, i, i + 4, Digit) && AtEnd(s, i + 4) then Some(i + 4)
    else None
  }

  /** Cutter digits, extracutter, year and end, after the cutter letter at `cs`. */
  function ScanTail(s: string, cs: nat): (r: Option<Tail>)
    requires cs < |s|
    ensures r.Some? ==> PythonTail(s, cs, r.value)
  {
    var cutterEnd := SpanEnd(s, cs + 1, Digit);
    var extraStart := SpanEnd(s, cutterEnd, Space);
    var extraEnd :=
      if extraStart < |s| && IsUpper(s[extraStart])
      then SpanEnd(s, extraStart + 1, Digit) else extraStart;
    var yearStart := SpanEnd(s, extraEnd, Space);
    if cutterEnd == cs + 1 || extraEnd == extraStart + 1 then None
    else match ScanYear(s, yearStart)
      case None => None
      case Some(yearEnd) => Some(Tail(cutterEnd, extraStart, extraEnd, yearStart, yearEnd))
  }

  function ScanMatch(s: string): (r: Option<Match>)
    ensures r.Some? ==> PythonMatch(s, r.value)
  {
    match ScanHead(s)
    case None => None
    case Some(h) =>
      match ScanTail(s, h.cutterStart)
      case None => None
      case Some(t) => Some(Match(h, t))
  }

  /** The spans `Groups` reads are inside the string. */
  predicate GroupBounds(s: string, m: Match) {
    && m.head.classEnd <= m.head.dotPos < |s|
    && m.head.cutterStart <= m.tail.cutterEnd <= |s|
    && m.tail.extraStart <= m.tail.extraEnd <= |s|
    && m.tail.yearStart <= m.tail.yearEnd <= |s|
  }

  /** The groups of a match, post-processed as the source does: the subject and the
      cutters stripped, the extracutter (when there is one) joined to the cutter by
      one space, an empty year group turned into nothing. */
  function Groups(s: string, m: Match): CallNumber
    requires GroupBounds(s, m)
  {
    var h, t := m.head, m.tail;
    var subject := Strip(s[h.classEnd..h.dotPos + 1]);
    var cutter := Strip(s[h.cutterStart..t.cutterEnd]);
    var extra := if t.extraEnd > t.extraStart then Some(Strip(s[t.extraStart..t.extraEnd])) else None;
    var joined := if extra.Some? && extra.value != "" then cutter + " " + extra.value else cutter;
    var year := if t.yearEnd > t.yearStart then Some(s[t.yearStart..t.yearEnd]) else None;
    CallNumber(s[..h.classEnd], subject, joined, year)
  }

  /** `Book.call_num_parse`; `None` where the source prints "invalid call number". */
  function Parse(s: string): Option<CallNumber> {
    match ScanMatch(s)
    case None => None
    case Some(m) => Some(Groups(s, m))
  }

  // ---------------------------------------------------------------------------
  // The scanner finds exactly the Python match

  /** The class and subject are forced: any head that fits is the scanned one. */
  lemma HeadUnique(s: string, h: Head)
    requires ValidHead(s, h)
    ensures ScanHead(s) == Some(h)
  {
    SpanEndUnique(s, 0, h.classEnd, Upper);
    SpanEndUnique(s, h.classEnd, h.numStart, Space);
    SpanEndUnique(s, h.numStart, h.intEnd, Digit);
    if h.fracEnd > h.intEnd {
      SpanEndUnique(s, h.intEnd + 1, h.fracEnd, Digit);
    } else if s[h.intEnd] == '.' {
      assert h.dotPos == h.intEnd;
    }
    SpanEndUnique(s, h.fracEnd, h.dotPos, Space);
    SpanEndUnique(s, h.dotPos + 1, h.cutterStart, Space);
  }

  lemma TailUnique(s: string, cs: nat, t: Tail)
    requires cs < |s| && PythonTail(s, cs, t)
    ensures ScanTail(s, cs) == Some(t)
  {
    SpanEndUnique(s, cs + 1, t.cutterEnd, Digit);
    SpanEndUnique(s, t.cutterEnd, t.extraStart, Space);
    if t.extraEnd > t.extraStart {
      SpanEndUnique(s, t.extraStart + 1, t.extraEnd, Digit);
    } else {
      assert t.yearStart == t.extraStart;
    }
    SpanEndUnique(s, t.extraEnd, t.yearStart, Space);
  }

  /** The scanner's answer is the Python match, and there is no other. */
  lemma {:induction false} ScanMatchIsPythonMatch(s: string, m: Match)
    ensures ScanMatch(s) == Some(m) <==> PythonMatch(s, m)
  {
    if PythonMatch(s, m) {
      HeadUnique(s, m.head);
      TailUnique(s, m.head.cutterStart, m.tail);
    }
  }

  /** Whitespace, then a year or the end, scanned from `x`. */
  lemma YearTailScans(s: string, x: nat, y: nat, z: nat)
    requires All(s, x, y, Space) && YearAt(s, y, z)
    ensures var y' := SpanEnd(s, x, Space);
      ScanYear(s, y').Some? && (y' == |s| || IsDigit(s[y']))
  {
    SpanEndSkip(s, x, y, Space);
    if z == y && y < |s| {
      SpanEndUnique(s, y, |s|, Space);
    } else {
      SpanEndUnique(s, y, y, Space);
    }
  }

  /** A year glued to a digit run ends the string (up to a final line feed). */
  lemma GluedYear(s: string, lo: nat, t: Tail)
    requires All(s, lo, t.yearStart, Digit) && YearAt(s, t.yearStart, t.yearEnd) && t.yearEnd > t.yearStart
    ensures SpanEnd(s, lo, Digit) == t.yearEnd
    ensures All(s, t.yearEnd, |s|, Space)
  {
    AllJoin(s, lo, t.yearStart, t.yearEnd, Digit);
    SpanEndUnique(s, lo, t.yearEnd, Digit);
  }

  /** Whenever some cut of the string fits the tail of the pattern, the scanner succeeds. */
  lemma TailAccepts(s: string, cs: nat, t: Tail)
    requires cs < |s| && ValidTail(s, cs, t)
    ensures ScanTail(s, cs).Some?
  {
    var ce := SpanEnd(s, cs + 1, Digit);
    if !Stops(s, t.cutterEnd, Digit) {
      // The year follows the cutter digits without a space: `\d+` takes it.
      assert t.extraStart == t.cutterEnd && t.extraEnd == t.extraStart && t.yearStart == t.extraEnd;
      GluedYear(s, cs + 1, t);
      YearTailScans(s, t.yearEnd, |s|, |s|);
      var es := SpanEnd(s, ce, Space);
      SpanEndUnique(s, es, es, Space);
    } else {
      SpanEndUnique(s, cs + 1, t.cutterEnd, Digit);
      if t.extraEnd > t.extraStart {
        SpanEndUnique(s, ce, t.extraStart, Space);
        if Stops(s, t.extraEnd, Digit) {
          SpanEndUnique(s, t.extraStart + 1, t.extraEnd, Digit);
          YearTailScans(s, t.extraEnd, t.yearStart, t.yearEnd);
        } else {
          assert t.yearStart == t.extraEnd;
          GluedYear(s, t.extraStart + 1, t);
          YearTailScans(s, t.yearEnd, |s|, |s|);
        }
      } else {
        AllJoin(s, ce, t.extraStart, t.yearStart, Space);
        YearTailScans(s, ce, t.yearStart, t.yearEnd);
        var es := SpanEnd(s, ce, Space);
        SpanEndUnique(s, es, es, Space);
      }
    }
  }

  /** The scanner accepts exactly the strings the pattern matches. */
  lemma {:induction false} ScanAcceptsLanguage(s: string)
    ensures ScanMatch(s).Some? <==> exists m :: ValidMatch(s, m)
  {
    if m :| ValidMatch(s, m) {
      HeadUnique(s, m.head);
      TailAccepts(s, m.head.cutterStart, m.tail);
    }
    if ScanMatch(s).Some? {
      assert ValidMatch(s, ScanMatch(s).value);
    }
  }
}
