/** Character classes and string helpers shared by the call-number parser and
    the comparator: the ASCII part of Python's `\d`, `\s` and `[A-Z]`, maximal
    runs of one class, `str.strip()`, `str.replace(' ', '')` and Python's
    ordering of `str` values. */
module Text {

  /** `[A-Z]` */
  predicate IsUpper(c: char) {
    'A' <= c <= 'Z'
  }

  /** `\d`, restricted to ASCII */
  predicate IsDigit(c: char) {
    '0' <= c <= '9'
  }

  /** `\s` and `str.isspace()`, restricted to ASCII: tab, line feed, vertical tab,
      form feed, carriage return, the four information separators and space. */
  predicate IsSpace(c: char) {
    var n := c as int;
    n == 32 || 9 <= n <= 13 || 28 <= n <= 31
  }

  /** The character classes the pattern uses. */
  datatype CharClass = Upper | Digit | Space

  predicate In(c: char, p: CharClass) {
    match p
    case Upper => IsUpper(c)
    case Digit => IsDigit(c)
    case Space => IsSpace(c)
  }

  /** Every character of `s[lo..hi]` is in class `p` (stated element by element, so
      that the verifier unfolds it only as far as a proof needs; `AllEvery` gives
      the quantified reading). */
  predicate All(s: string, lo: int, hi: int, p: CharClass)
    decreases hi - lo
  {
    0 <= lo <= hi <= |s| && (lo == hi || (In(s[lo], p) && All(s, lo + 1, hi, p)))
  }

  lemma {:induction false} AllEvery(s: string, lo: int, hi: int, p: CharClass)
    ensures All(s, lo, hi, p) <==> 0 <= lo <= hi <= |s| && forall k :: lo <= k < hi ==> In(s[k], p)
    decreases hi - lo
  {
    if 0 <= lo < hi <= |s| {
      AllEvery(s, lo + 1, hi, p);
    }
  }

  /** Two adjacent runs of one class form one run. */
  lemma {:induction false} AllJoin(s: string, a: int, b: int, c: int, p: CharClass)
    requires All(s, a, b, p) && All(s, b, c, p)
    ensures All(s, a, c, p)
    decreases b - a
  {
    if a < b {
      AllJoin(s, a + 1, b, c, p);
    }
  }

  /** Each character of a run is in its class. */
  lemma AllAt(s: string, lo: int, hi: int, p: CharClass, k: int)
    requires All(s, lo, hi, p) && lo <= k < hi
    ensures In(s[k], p)
  {
    AllEvery(s, lo, hi, p);
  }

  /** Part of a run is a run. */
  lemma AllWithin(s: string, lo: int, hi: int, p: CharClass, lo2: int, hi2: int)
    requires All(s, lo, hi, p) && lo <= lo2 <= hi2 <= hi
    ensures All(s, lo2, hi2, p)
  {
    AllEvery(s, lo, hi, p);
    AllEvery(s, lo2, hi2, p);
  }

  /** A run seen through a slice `s[a..b]` that contains it. */
  lemma AllSlice(s: string, lo: int, hi: int, p: CharClass, a: int, b: int)
    requires All(s, lo, hi, p) && 0 <= a <= lo && hi <= b <= |s|
    ensures All(s[a..b], lo - a, hi - a, p)
  {
    AllEvery(s, lo, hi, p);
    AllEvery(s[a..b], lo - a, hi - a, p);
  }

  /** A run of `y` seen inside `x + y`, and a run of `x` seen inside `x + y`. */
  lemma AllConcat(x: string, y: string, lo: int, hi: int, p: CharClass)
    ensures All(y, lo, hi, p) ==> All(x + y, |x| + lo, |x| + hi, p)
    ensures All(x, lo, hi, p) ==> All(x + y, lo, hi, p)
  {
    AllEvery(y, lo, hi, p);
    AllEvery(x, lo, hi, p);
    AllEvery(x + y, |x| + lo, |x| + hi, p);
    AllEvery(x + y, lo, hi, p);
  }

  /** The character at `hi` (if any) is not in class `p`: a run ending at `hi` cannot grow. */
  predicate Stops(s: string, hi: int, p: CharClass)
    requires 0 <= hi <= |s|
  {
    hi == |s| || !In(s[hi], p)
  }

  /** End of the longest run of characters of class `p` starting at `i`. */
  function SpanEnd(s: string, i: nat, p: CharClass): (j: nat)
    requires i <= |s|
    ensures i <= j <= |s|
    ensures All(s, i, j, p) && Stops(s, j, p)
    decreases |s| - i
  {
    if i < |s| && In(s[i], p) then SpanEnd(s, i + 1, p) else i
  }

  /** A run that cannot grow is the one `SpanEnd` finds. */
  lemma {:induction false} SpanEndUnique(s: string, i: nat, j: nat, p: CharClass)
    requires All(s, i, j, p) && Stops(s, j, p)
    ensures SpanEnd(s, i, p) == j
    decreases j - i
  {
    if i < j {
      SpanEndUnique(s, i + 1, j, p);
    }
  }

  /** Skipping a prefix of the run does not move its end. */
  lemma {:induction false} SpanEndSkip(s: string, i: nat, j: nat, p: CharClass)
    requires All(s, i, j, p)
    ensures SpanEnd(s, i, p) == SpanEnd(s, j, p)
    decreases j - i
  {
    if i < j {
      SpanEndSkip(s, i + 1, j, p);
    }
  }

  /** Start of the longest run of characters of class `p` ending at `j`. */
  function SpanStart(s: string, j: nat, p: CharClass): (i: nat)
    requires j <= |s|
    ensures i <= j
  {
    if j > 0 && In(s[j - 1], p) then SpanStart(s, j - 1, p) else j
  }

  /** `SpanStart` finds a run that cannot grow to the left. */
  lemma {:induction false} SpanStartRun(s: string, j: nat, p: CharClass)
    requires j <= |s|
    ensures var i := SpanStart(s, j, p); All(s, i, j, p) && (i == 0 || !In(s[i - 1], p))
  {
    if j > 0 && In(s[j - 1], p) {
      SpanStartRun(s, j - 1, p);
      AllJoin(s, SpanStart(s, j, p), j - 1, j, p);
    }
  }

  /** Python's `str.strip()` with no argument, for ASCII whitespace. */
  function Strip(t: string): string {
    var i := SpanEnd(t, 0, Space);
    var j := SpanStart(t, |t|, Space);
    if j <= i then "" else t[i..j]
  }

  /** `str.strip()` keeps a slice `t[i..j]`: everything before `i` and from `j` on is
      whitespace, and the kept part neither starts nor ends with whitespace. */
  lemma StripTrims(t: string) returns (i: nat, j: nat)
    ensures i <= j <= |t| && Strip(t) == t[i..j]
    ensures All(t, 0, i, Space) && All(t, j, |t|, Space)
    ensures i < j ==> !IsSpace(t[i]) && !IsSpace(t[j - 1])
  {
    i := SpanEnd(t, 0, Space);
    j := SpanStart(t, |t|, Space);
    SpanStartRun(t, |t|, Space);
    if j <= i {
      // The whole string is whitespace: a non-space at `i` would lie in the trailing run.
      if i < |t| {
        AllAt(t, j, |t|, Space, i);
        assert false;
      }
      i, j := |t|, |t|;
    }
  }

  /** Stripping a string that neither starts nor ends with whitespace changes nothing. */
  lemma StripUnchanged(t: string)
    requires |t| > 0 ==> !IsSpace(t[0]) && !IsSpace(t[|t| - 1])
    ensures Strip(t) == t
  {
  }

  /** Stripping removes exactly the leading run of whitespace when the string ends with
      a non-space character. */
  lemma StripLeading(t: string, i: nat)
    requires All(t, 0, i, Space) && i < |t| && !IsSpace(t[i]) && !IsSpace(t[|t| - 1])
    ensures Strip(t) == t[i..]
  {
    SpanEndUnique(t, 0, i, Space);
  }

  /** The strings of `ps` written one after another. */
  function Concat(ps: seq<string>): string
    decreases |ps|
  {
    if |ps| == 0 then "" else Concat(ps[..|ps| - 1]) + ps[|ps| - 1]
  }

  /** Where `ps[k]` starts in `Concat(ps)`. */
  function Offset(ps: seq<string>, k: nat): nat
    requires k <= |ps|
  {
    |Concat(ps[..k])|
  }

  lemma {:induction false} ConcatPrefix(ps: seq<string>, j: nat)
    requires j <= |ps|
    ensures Concat(ps[..j]) <= Concat(ps)
    decreases |ps| - j
  {
    if j < |ps| {
      var front := ps[..|ps| - 1];
      assert front[..j] == ps[..j];
      ConcatPrefix(front, j);
    } else {
      assert ps[..j] == ps;
    }
  }

  /** `ps[k]` is the slice of `Concat(ps)` between its offset and the next. */
  lemma PieceAt(ps: seq<string>, k: nat)
    requires k < |ps|
    ensures Offset(ps, k + 1) == Offset(ps, k) + |ps[k]| <= |Concat(ps)|
    ensures Concat(ps)[Offset(ps, k)..Offset(ps, k + 1)] == ps[k]
  {
    var q := ps[..k + 1];
    assert q[..|q| - 1] == ps[..k];
    ConcatPrefix(ps, k + 1);
  }

  lemma OffsetEnd(ps: seq<string>)
    ensures Offset(ps, |ps|) == |Concat(ps)|
  {
    assert ps[..|ps|] == ps;
  }

  /** A run inside `ps[k]` is a run of `Concat(ps)`, shifted by the offset of `ps[k]`. */
  lemma AllInPiece(ps: seq<string>, k: nat, lo: int, hi: int, p: CharClass)
    requires k < |ps| && All(ps[k], lo, hi, p)
    ensures All(Concat(ps), Offset(ps, k) + lo, Offset(ps, k) + hi, p)
  {
    PieceAt(ps, k);
    var s, o := Concat(ps), Offset(ps, k);
    AllEvery(ps[k], lo, hi, p);
    AllEvery(s, o + lo, o + hi, p);
    forall i | lo <= i < hi ensures s[o + i] == ps[k][i] {
      assert s[o..o + |ps[k]|][i] == s[o + i];
    }
  }

  /** Two adjacent slices join into one. */
  lemma SliceJoin(s: string, a: nat, b: nat, c: nat)
    requires a <= b <= c <= |s|
    ensures s[a..c] == s[a..b] + s[b..c]
  {
  }

  /** A character of `ps[k]` in `Concat(ps)`. */
  lemma CharInPiece(ps: seq<string>, k: nat, i: nat)
    requires k < |ps| && i < |ps[k]|
    ensures Offset(ps, k) + i < |Concat(ps)| && Concat(ps)[Offset(ps, k) + i] == ps[k][i]
  {
    PieceAt(ps, k);
    var s, o := Concat(ps), Offset(ps, k);
    assert s[o..o + |ps[k]|][i] == s[o + i];
  }

  /** Python's `s.replace(' ', '')`: every space character U+0020 removed, nothing else. */
  function RemoveSpaces(t: string): (r: string)
    ensures |r| <= |t|
    ensures ' ' !in r
    ensures forall c :: c in r <==> c in t && c != ' '
  {
    if |t| == 0 then ""
    else if t[0] == ' ' then RemoveSpaces(t[1..])
    else [t[0]] + RemoveSpaces(t[1..])
  }

  /** A string without a space is its own `replace(' ', '')`. */
  lemma {:induction false} RemoveSpacesNoSpace(t: string)
    requires ' ' !in t
    ensures RemoveSpaces(t) == t
  {
    if |t| > 0 {
      assert t == [t[0]] + t[1..];
      RemoveSpacesNoSpace(t[1..]);
    }
  }

  /** `replace(' ', '')` works character by character: it keeps a character other than a
      space, drops a space, and maps a concatenation to the concatenation of the results,
      so the kept characters stay in their order. */
  lemma {:induction false} RemoveSpacesConcat(a: string, b: string)
    ensures RemoveSpaces(a + b) == RemoveSpaces(a) + RemoveSpaces(b)
    ensures |a| == 1 ==> RemoveSpaces(a) == if a[0] == ' ' then "" else a
  {
    if |a| > 0 {
      assert (a + b)[0] == a[0] && (a + b)[1..] == a[1..] + b;
      RemoveSpacesConcat(a[1..], b);
    } else {
      assert a + b == b;
    }
  }

  /** Python's `a < b` on `str`: lexicographic by code point, a proper prefix first. */
  predicate StrLess(a: string, b: string) {
    if |a| == 0 then |b| > 0
    else if |b| == 0 then false
    else if a[0] != b[0] then a[0] < b[0]
    else StrLess(a[1..], b[1..])
  }

  /** Reference definition of the same order: the two strings agree on a common prefix of
      length `k`, after which either `a` ends while `b` goes on, or `a`'s character is
      the smaller one. */
  predicate FirstDifferenceLess(a: string, b: string, k: nat) {
    k <= |a| && k <= |b| && a[..k] == b[..k] &&
    ((k == |a| && k < |b|) || (k < |a| && k < |b| && a[k] < b[k]))
  }

  lemma {:induction false} StrLessIsFirstDifference(a: string, b: string)
    ensures StrLess(a, b) <==> exists k: nat :: FirstDifferenceLess(a, b, k)
  {
    if StrLess(a, b) {
      var k := StrLessWitness(a, b);
      assert FirstDifferenceLess(a, b, k);
    }
    if k: nat :| FirstDifferenceLess(a, b, k) {
      FirstDifferenceGivesStrLess(a, b, k);
    }
  }

  lemma {:induction false} StrLessWitness(a: string, b: string) returns (k: nat)
    requires StrLess(a, b)
    ensures FirstDifferenceLess(a, b, k)
  {
    if |a| == 0 || a[0] != b[0] {
      k := 0;
    } else {
      var k' := StrLessWitness(a[1..], b[1..]);
      k := k' + 1;
      assert a[..k] == [a[0]] + a[1..][..k'];
      assert b[..k] == [b[0]] + b[1..][..k'];
    }
  }

  lemma {:induction false} FirstDifferenceGivesStrLess(a: string, b: string, k: nat)
    requires FirstDifferenceLess(a, b, k)
    ensures StrLess(a, b)
  {
    if k > 0 {
      assert a[0] == a[..k][0] == b[..k][0] == b[0];
      assert a[1..][..k - 1] == a[1..k] == a[..k][1..];
      assert b[1..][..k - 1] == b[1..k] == b[..k][1..];
      FirstDifferenceGivesStrLess(a[1..], b[1..], k - 1);
    }
  }

  lemma {:induction false} StrLessIrreflexive(a: string)
    ensures !StrLess(a, a)
  {
    if |a| > 0 {
      StrLessIrreflexive(a[1..]);
    }
  }

  /** Two different strings are always ordered one way, and never both ways. */
  lemma {:induction false} StrLessTrichotomy(a: string, b: string)
    ensures a != b <==> StrLess(a, b) || StrLess(b, a)
    ensures !(StrLess(a, b) && StrLess(b, a))
  {
    if |a| > 0 && |b| > 0 && a[0] == b[0] {
      StrLessTrichotomy(a[1..], b[1..]);
      if a[1..] == b[1..] {
        assert a == [a[0]] + a[1..] && b == [b[0]] + b[1..];
      }
    } else if a == b {
      StrLessIrreflexive(a);
    }
  }

  lemma {:induction false} StrLessTransitive(a: string, b: string, c: string)
    requires StrLess(a, b) && StrLess(b, c)
    ensures StrLess(a, c)
  {
    if |a| > 0 && a[0] == b[0] && b[0] == c[0] {
      StrLessTransitive(a[1..], b[1..], c[1..]);
    }
  }

  /** Python's `int(t)` for a string of ASCII digits. */
  function DigitsValue(t: string): (n: nat)
    requires All(t, 0, |t|, Digit)
    ensures n < Pow10(|t|)
  {
    if |t| == 0 then 0
    else
      AllWithin(t, 0, |t|, Digit, 0, |t| - 1);
      AllSlice(t, 0, |t| - 1, Digit, 0, |t| - 1);
      AllAt(t, 0, |t|, Digit, |t| - 1);
      DigitsValue(t[..|t| - 1]) * 10 + (t[|t| - 1] as int - '0' as int)
  }

  function Pow10(e: nat): (p: nat)
    ensures p > 0
  {
    if e == 0 then 1 else 10 * Pow10(e - 1)
  }
}
