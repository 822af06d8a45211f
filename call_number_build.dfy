/** Building a call number from its parts and parsing it back: every string of the
    form "CLASS NUMBER[.FRACTION].CUTTER[ EXTRA][ YEAR]" (written without the
    optional whitespace) is accepted, and `Book.call_num_parse` returns its parts. */
module CallNumberBuild {
  import opened Text
  import opened CallNumbers
  import opened CallNumberLaws

  /** The parts a call number is written from. `cutter` and `extra` are whole
      cutter tokens, a letter and its digits. */
  datatype Parts = Parts(
    cls: string, number: string, fraction: Option<string>,
    cutter: string, extra: Option<string>, year: Option<string>)

  predicate ValidParts(p: Parts) {
    && IsUpperWord(p.cls)
    && IsNumber(p.number)
    && (p.fraction.Some? ==> IsNumber(p.fraction.value))
    && IsCutterToken(p.cutter)
    && (p.extra.Some? ==> IsCutterToken(p.extra.value))
    && IsYearText(p.year)
  }

  function FractionText(f: Option<string>): string {
    if f.Some? then "." + f.value else ""
  }

  function SpacedText(e: Option<string>): string {
    if e.Some? then " " + e.value else ""
  }

  /** The pieces of the written call number, in order. */
  function Pieces(p: Parts): seq<string> {
    [p.cls, p.number, FractionText(p.fraction), ".", p.cutter, SpacedText(p.extra), SpacedText(p.year)]
  }

  /** The call number written from its parts, with one space before the extracutter and
      before the year and no other whitespace. */
  function Build(p: Parts): string {
    Concat(Pieces(p))
  }

  /** `Build(p)` spelled out. */
  lemma BuildSpelledOut(p: Parts)
    ensures Build(p) == p.cls + p.number + FractionText(p.fraction) + "." + p.cutter + SpacedText(p.extra) + SpacedText(p.year)
  {
    var ps := Pieces(p);
    forall k | 0 < k <= 7 ensures Concat(ps[..k]) == Concat(ps[..k - 1]) + ps[k - 1] {
      assert ps[..k][..k - 1] == ps[..k - 1];
    }
    assert ps[..0] == [] && ps[..7] == ps;
    assert Concat(ps[..1]) == p.cls;
    assert Concat(ps[..2]) == p.cls + p.number;
    assert Concat(ps[..3]) == p.cls + p.number + FractionText(p.fraction);
    assert Concat(ps[..4]) == p.cls + p.number + FractionText(p.fraction) + ".";
    assert Concat(ps[..5]) == p.cls + p.number + FractionText(p.fraction) + "." + p.cutter;
    assert Concat(ps[..6]) == p.cls + p.number + FractionText(p.fraction) + "." + p.cutter + SpacedText(p.extra);
  }

  /** What the source returns for `Build(p)`. */
  function Expected(p: Parts): CallNumber {
    CallNumber(p.cls, p.number + FractionText(p.fraction) + ".", p.cutter + SpacedText(p.extra), p.year)
  }

  /** Where piece `k` of `Build(p)` starts. */
  function At(p: Parts, k: nat): nat
    requires k <= 7
  {
    Offset(Pieces(p), k)
  }

  /** Where the parts of `Build(p)` are. */
  function BuildMatch(p: Parts): Match {
    var yearStart := if p.year.Some? then At(p, 6) + 1 else At(p, 6);
    var extraStart := if p.extra.Some? then At(p, 5) + 1 else yearStart;
    var extraEnd := if p.extra.Some? then At(p, 6) else yearStart;
    Match(Head(At(p, 1), At(p, 1), At(p, 2), At(p, 3), At(p, 3), At(p, 4)),
          Tail(At(p, 5), extraStart, extraEnd, yearStart, At(p, 7)))
  }

  lemma BuildOffsets(p: Parts)
    ensures At(p, 0) == 0
    ensures At(p, 1) == |p.cls|
    ensures At(p, 2) == At(p, 1) + |p.number|
    ensures At(p, 3) == At(p, 2) + |FractionText(p.fraction)|
    ensures At(p, 4) == At(p, 3) + 1
    ensures At(p, 5) == At(p, 4) + |p.cutter|
    ensures At(p, 6) == At(p, 5) + |SpacedText(p.extra)|
    ensures At(p, 7) == At(p, 6) + |SpacedText(p.year)| == |Build(p)|
  {
    var ps := Pieces(p);
    assert ps[..0] == [];
    PieceAt(ps, 0);
    PieceAt(ps, 1);
    PieceAt(ps, 2);
    PieceAt(ps, 3);
    PieceAt(ps, 4);
    PieceAt(ps, 5);
    PieceAt(ps, 6);
    OffsetEnd(ps);
  }

  // ---------------------------------------------------------------------------
  // `BuildMatch(p)` is the Python match of `Build(p)`

  lemma BuildIsPythonMatch(p: Parts)
    requires ValidParts(p)
    ensures PythonMatch(Build(p), BuildMatch(p))
  {
    BuildHead(p);
    BuildTail(p);
  }

  /** The class, the subject and the cutter's letter are where `BuildMatch` says. */
  lemma BuildHead(p: Parts)
    requires ValidParts(p)
    ensures ValidHead(Build(p), BuildMatch(p).head)
  {
    BuildOffsets(p);
    var ps := Pieces(p);
    AllInPiece(ps, 0, 0, |p.cls|, Upper);
    AllInPiece(ps, 1, 0, |p.number|, Digit);
    if p.fraction.Some? {
      var f := p.fraction.value;
      AllConcat(".", f, 0, |f|, Digit);
      AllInPiece(ps, 2, 1, |f| + 1, Digit);
      CharInPiece(ps, 2, 0);
    }
    CharInPiece(ps, 3, 0);
    CharInPiece(ps, 4, 0);
  }

  /** The cutter, the extracutter and the year are where `BuildMatch` says, and each
      greedy run stops where `BuildMatch` says. */
  lemma BuildTail(p: Parts)
    requires ValidParts(p)
    ensures PythonTail(Build(p), BuildMatch(p).head.cutterStart, BuildMatch(p).tail)
  {
    BuildOffsets(p);
    var ps := Pieces(p);
    AllInPiece(ps, 4, 1, |p.cutter|, Digit);
    if p.extra.Some? {
      ExtraPiece(p);
    }
    if p.year.Some? {
      YearPiece(p);
    }
  }

  lemma ExtraPiece(p: Parts)
    requires ValidParts(p) && p.extra.Some?
    ensures var s := Build(p);
      && At(p, 5) + 2 <= At(p, 6) <= |s|
      && s[At(p, 5)] == ' ' && IsUpper(s[At(p, 5) + 1]) && All(s, At(p, 5) + 2, At(p, 6), Digit)
  {
    var ps, x := Pieces(p), p.extra.value;
    BuildOffsets(p);
    AllConcat(" ", x, 1, |x|, Digit);
    AllInPiece(ps, 5, 2, |x| + 1, Digit);
    CharInPiece(ps, 5, 0);
    CharInPiece(ps, 5, 1);
  }

  lemma YearPiece(p: Parts)
    requires ValidParts(p) && p.year.Some?
    ensures var s := Build(p);
      |s| == At(p, 6) + 5 && s[At(p, 6)] == ' ' && All(s, At(p, 6) + 1, |s|, Digit)
  {
    var ps, y := Pieces(p), p.year.value;
    BuildOffsets(p);
    AllConcat(" ", y, 0, 4, Digit);
    AllInPiece(ps, 6, 1, 5, Digit);
    CharInPiece(ps, 6, 0);
  }

  // ---------------------------------------------------------------------------
  // Its groups are the parts

  /** Reading the groups of `BuildMatch(p)` gives back the parts. */
  lemma BuildFields(p: Parts)
    requires ValidParts(p)
    ensures GroupBounds(Build(p), BuildMatch(p))
    ensures MatchFields(Build(p), BuildMatch(p)) == Expected(p)
  {
    BuildOffsets(p);
    HeadFields(p);
    CutterField(p);
    YearField(p);
  }

  lemma HeadFields(p: Parts)
    requires ValidParts(p)
    ensures GroupBounds(Build(p), BuildMatch(p))
    ensures var r := MatchFields(Build(p), BuildMatch(p));
      r.cls == p.cls && r.subject == p.number + FractionText(p.fraction) + "."
  {
    BuildOffsets(p);
    HeadSlices(p);
  }

  lemma HeadSlices(p: Parts)
    ensures At(p, 1) <= At(p, 4) <= |Build(p)|
    ensures Build(p)[..At(p, 1)] == p.cls
    ensures Build(p)[At(p, 1)..At(p, 4)] == p.number + FractionText(p.fraction) + "."
  {
    var s, ps := Build(p), Pieces(p);
    assert ps[..0] == [];
    PieceAt(ps, 0);
    PieceAt(ps, 1);
    PieceAt(ps, 2);
    PieceAt(ps, 3);
    SliceJoin(s, At(p, 1), At(p, 2), At(p, 3));
    SliceJoin(s, At(p, 1), At(p, 3), At(p, 4));
  }

  lemma CutterField(p: Parts)
    requires ValidParts(p)
    ensures GroupBounds(Build(p), BuildMatch(p))
    ensures MatchFields(Build(p), BuildMatch(p)).cutter == p.cutter + SpacedText(p.extra)
  {
    BuildOffsets(p);
    TailSlices(p);
    if p.extra.Some? {
      assert p.cutter + SpacedText(p.extra) == p.cutter + " " + p.extra.value;
    }
  }

  lemma YearField(p: Parts)
    requires ValidParts(p)
    ensures GroupBounds(Build(p), BuildMatch(p))
    ensures MatchFields(Build(p), BuildMatch(p)).year == p.year
  {
    BuildOffsets(p);
    TailSlices(p);
  }

  lemma TailSlices(p: Parts)
    ensures At(p, 4) <= At(p, 5) <= At(p, 6) <= At(p, 7) == |Build(p)|
    ensures Build(p)[At(p, 4)..At(p, 5)] == p.cutter
    ensures p.extra.Some? ==> At(p, 5) < At(p, 6) && Build(p)[At(p, 5) + 1..At(p, 6)] == p.extra.value
    ensures p.year.Some? ==> At(p, 6) < At(p, 7) && Build(p)[At(p, 6) + 1..At(p, 7)] == p.year.value
  {
    var s, ps := Build(p), Pieces(p);
    PieceAt(ps, 4);
    PieceAt(ps, 5);
    PieceAt(ps, 6);
    OffsetEnd(ps);
    if p.extra.Some? {
      assert s[At(p, 5) + 1..At(p, 6)] == s[At(p, 5)..At(p, 6)][1..];
    }
    if p.year.Some? {
      assert s[At(p, 6) + 1..At(p, 7)] == s[At(p, 6)..At(p, 7)][1..];
    }
  }

  /** A call number written from valid parts parses back into them. */
  lemma RoundTrip(p: Parts)
    requires ValidParts(p)
    ensures Parse(Build(p)) == Some(Expected(p))
  {
    var s, m := Build(p), BuildMatch(p);
    BuildIsPythonMatch(p);
    ScanMatchIsPythonMatch(s, m);
    GroupsOfMatch(s, m);
    BuildFields(p);
  }
}
