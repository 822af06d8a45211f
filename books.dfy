/** `Book` and its ordering `Book.__lt__`, which `sorted` uses to put books in
    call-number order. */
module Books {
  import opened Text
  import opened CallNumbers
  import opened CallNumberLaws

  /** A book as the source keeps it; its fields are set once and never changed. */
  datatype Book = Book(callnum: string, title: string, author: string)

  /** The book's call number is accepted by `call_num_parse`. The comparator indexes
      the parse results, so on any other book the source raises `TypeError`. */
  predicate Parses(b: Book) {
    Parse(b.callnum).Some?
  }

  /** `b.call_num_parse()` for a book whose call number parses. */
  function Parsed(b: Book): (r: CallNumber)
    requires Parses(b)
    ensures WellFormed(r)
  {
    ParseShape(b.callnum, Parse(b.callnum).value);
    Parse(b.callnum).value
  }

  /** `int(year) if year else None`. */
  function YearValue(y: Option<string>): (v: Option<nat>)
    requires IsYearText(y)
    ensures v.None? <==> y.None?
    ensures v.Some? ==> v.value < 10000
  {
    if y.None? || y.value == "" then None else Some(DigitsValue(y.value))
  }

  /** The body of `Book.__lt__`, on the two parse results. */
  predicate PartsLess(x: CallNumber, y: CallNumber)
    requires IsYearText(x.year) && IsYearText(y.year)
  {
    var xc, yc := RemoveSpaces(x.cls), RemoveSpaces(y.cls);
    var xs, ys := RemoveSpaces(x.subject), RemoveSpaces(y.subject);
    if xc != yc then StrLess(xc, yc)
    else if xs != ys then StrLess(xs, ys)
    else if x.cutter != y.cutter then StrLess(x.cutter, y.cutter)
    else
      var xy, yy := YearValue(x.year), YearValue(y.year);
      if xy.Some? && yy.Some? then xy.value < yy.value
      else if xy.Some? && yy.None? then false
      else if xy.None? && yy.Some? then true
      else false
  }

  /** `a < b` for two books. */
  predicate Less(a: Book, b: Book)
    requires Parses(a) && Parses(b)
  {
    PartsLess(Parsed(a), Parsed(b))
  }

  // ---------------------------------------------------------------------------
  // A reference definition: comparing sort keys lexicographically

  /** What `__lt__` looks at: class and subject without spaces, the cutter as it is,
      and the year, a missing year counting as less than any year. */
  datatype SortKey = SortKey(cls: string, subject: string, cutter: string, yearRank: int)

  function YearRank(y: Option<string>): (n: int)
    requires IsYearText(y)
    ensures -1 <= n < 10000
  {
    match YearValue(y)
    case None => -1
    case Some(v) => v
  }

  function Key(x: CallNumber): SortKey
    requires IsYearText(x.year)
  {
    SortKey(RemoveSpaces(x.cls), RemoveSpaces(x.subject), x.cutter, YearRank(x.year))
  }

  /** Lexicographic order on keys, each string by Python's `str` order. */
  predicate KeyLess(k: SortKey, l: SortKey) {
    || StrLess(k.cls, l.cls)
    || (k.cls == l.cls && StrLess(k.subject, l.subject))
    || (k.cls == l.cls && k.subject == l.subject && StrLess(k.cutter, l.cutter))
    || (k.cls == l.cls && k.subject == l.subject && k.cutter == l.cutter && k.yearRank < l.yearRank)
  }

  /** The nested tests of `__lt__` compare the sort keys lexicographically. */
  lemma PartsLessIsKeyLess(x: CallNumber, y: CallNumber)
    requires IsYearText(x.year) && IsYearText(y.year)
    ensures PartsLess(x, y) <==> KeyLess(Key(x), Key(y))
  {
    var k, l := Key(x), Key(y);
    StrLessTrichotomy(k.cls, l.cls);
    StrLessTrichotomy(k.subject, l.subject);
    StrLessTrichotomy(k.cutter, l.cutter);
  }

  lemma KeyLessIrreflexive(k: SortKey)
    ensures !KeyLess(k, k)
  {
    StrLessIrreflexive(k.cls);
    StrLessIrreflexive(k.subject);
    StrLessIrreflexive(k.cutter);
  }

  lemma KeyLessTransitive(k: SortKey, l: SortKey, n: SortKey)
    requires KeyLess(k, l) && KeyLess(l, n)
    ensures KeyLess(k, n)
  {
    if StrLess(k.cls, l.cls) && StrLess(l.cls, n.cls) {
      StrLessTransitive(k.cls, l.cls, n.cls);
    } else if k.cls == l.cls == n.cls {
      if StrLess(k.subject, l.subject) && StrLess(l.subject, n.subject) {
        StrLessTransitive(k.subject, l.subject, n.subject);
      } else if k.subject == l.subject == n.subject {
        if StrLess(k.cutter, l.cutter) && StrLess(l.cutter, n.cutter) {
          StrLessTransitive(k.cutter, l.cutter, n.cutter);
        }
      }
    }
  }

  /** Neither key is less than the other exactly when they are equal. */
  lemma KeyLessIncomparable(k: SortKey, l: SortKey)
    ensures !KeyLess(k, l) && !KeyLess(l, k) <==> k == l
  {
    StrLessTrichotomy(k.cls, l.cls);
    StrLessTrichotomy(k.subject, l.subject);
    StrLessTrichotomy(k.cutter, l.cutter);
    if k == l {
      KeyLessIrreflexive(k);
    }
  }

  // ---------------------------------------------------------------------------
  // Laws of `__lt__`: a strict weak order, so `sorted` is well defined

  lemma LessIrreflexive(a: Book)
    requires Parses(a)
    ensures !Less(a, a)
  {
    PartsLessIsKeyLess(Parsed(a), Parsed(a));
    KeyLessIrreflexive(Key(Parsed(a)));
  }

  lemma LessAsymmetric(a: Book, b: Book)
    requires Parses(a) && Parses(b)
    ensures Less(a, b) ==> !Less(b, a)
  {
    var x, y := Parsed(a), Parsed(b);
    PartsLessIsKeyLess(x, y);
    PartsLessIsKeyLess(y, x);
    if KeyLess(Key(x), Key(y)) && KeyLess(Key(y), Key(x)) {
      KeyLessTransitive(Key(x), Key(y), Key(x));
      KeyLessIrreflexive(Key(x));
    }
  }

  lemma LessTransitive(a: Book, b: Book, c: Book)
    requires Parses(a) && Parses(b) && Parses(c)
    requires Less(a, b) && Less(b, c)
    ensures Less(a, c)
  {
    var x, y, z := Parsed(a), Parsed(b), Parsed(c);
    PartsLessIsKeyLess(x, y);
    PartsLessIsKeyLess(y, z);
    PartsLessIsKeyLess(x, z);
    KeyLessTransitive(Key(x), Key(y), Key(z));
  }

  /** Two books are unordered exactly when their sort keys are equal. */
  lemma LessIncomparable(a: Book, b: Book)
    requires Parses(a) && Parses(b)
    ensures !Less(a, b) && !Less(b, a) <==> Key(Parsed(a)) == Key(Parsed(b))
  {
    var x, y := Parsed(a), Parsed(b);
    PartsLessIsKeyLess(x, y);
    PartsLessIsKeyLess(y, x);
    KeyLessIncomparable(Key(x), Key(y));
  }

  /** Being unordered is transitive, which makes `__lt__` a strict weak order. */
  lemma IncomparableTransitive(a: Book, b: Book, c: Book)
    requires Parses(a) && Parses(b) && Parses(c)
    requires !Less(a, b) && !Less(b, a) && !Less(b, c) && !Less(c, b)
    ensures !Less(a, c) && !Less(c, a)
  {
    LessIncomparable(a, b);
    LessIncomparable(b, c);
    LessIncomparable(a, c);
  }

  // ---------------------------------------------------------------------------
  // Which key decides

  /** Class, then subject, then cutter: the first that differs decides, class and
      subject after removing spaces and by string order. */
  lemma FirstDifferenceDecides(x: CallNumber, y: CallNumber)
    requires IsYearText(x.year) && IsYearText(y.year)
    ensures RemoveSpaces(x.cls) != RemoveSpaces(y.cls) ==>
      (PartsLess(x, y) <==> StrLess(RemoveSpaces(x.cls), RemoveSpaces(y.cls)))
    ensures RemoveSpaces(x.cls) == RemoveSpaces(y.cls) && RemoveSpaces(x.subject) != RemoveSpaces(y.subject) ==>
      (PartsLess(x, y) <==> StrLess(RemoveSpaces(x.subject), RemoveSpaces(y.subject)))
    ensures (RemoveSpaces(x.cls) == RemoveSpaces(y.cls) && RemoveSpaces(x.subject) == RemoveSpaces(y.subject)
             && x.cutter != y.cutter) ==> (PartsLess(x, y) <==> StrLess(x.cutter, y.cutter))
  {
  }

  /** With class, subject and cutter equal, the year decides: two years by numeric
      value, a book without a year before one with a year, and otherwise neither is
      less. */
  lemma YearTieBreak(x: CallNumber, y: CallNumber)
    requires IsYearText(x.year) && IsYearText(y.year)
    requires RemoveSpaces(x.cls) == RemoveSpaces(y.cls) && RemoveSpaces(x.subject) == RemoveSpaces(y.subject)
    requires x.cutter == y.cutter
    ensures x.year.Some? && y.year.Some? ==>
      (PartsLess(x, y) <==> DigitsValue(x.year.value) < DigitsValue(y.year.value))
    ensures x.year.None? && y.year.Some? ==> PartsLess(x, y)
    ensures x.year.Some? && y.year.None? ==> !PartsLess(x, y)
    ensures x.year.None? && y.year.None? ==> !PartsLess(x, y)
  {
  }
}
