/**
 Documents in which the generated blocks keep apart: every TOC and analytics block is closed, holds
 no mark of the other and no preformatted text.
 */
module GeneratedBlocks {
  import opened MungeLines
  import opened MacroBlocks
  import T = TableOfContents
  import A = Analytics
  import P = Preformatted
  import H = HeaderLines
  import W = Whitespace
  import L = MungePipeline

  datatype Zone = Outside | InToc | InAnalytics | Clash

  // The zone behind a line. In strict documents no header stands in a TOC block.
  function After(l: Line, z: Zone, strict: bool): Zone {
    if z == Clash then Clash
    else if l.preformatted then (if z == Outside then Outside else Clash)
    else if IsBegin(l, T.TOC_TAG) then (if z == Outside then InToc else Clash)
    else if IsEnd(l, T.TOC_TAG) then (if z == InToc then Outside else Clash)
    else if IsBegin(l, A.ANALYTICS_TAG) then (if z == Outside then InAnalytics else Clash)
    else if IsEnd(l, A.ANALYTICS_TAG) then (if z == InAnalytics then Outside else Clash)
    else if strict && z == InToc && T.Listed(l) then Clash
    else z
  }

  function Zones(doc: Doc, z: Zone, strict: bool): Zone {
    if doc == [] then z else Zones(doc[1..], After(doc[0], z, strict), strict)
  }

  predicate Orderly(doc: Doc, strict: bool) {
    Zones(doc, Outside, strict) == Outside
  }

  lemma {:induction false} ZonesConcat(a: Doc, b: Doc, z: Zone, strict: bool)
    ensures Zones(a + b, z, strict) == Zones(b, Zones(a, z, strict), strict)
  {
    hide After;
    if a == [] {
      assert a + b == b;
    } else {
      ZonesConcat(a[1..], b, After(a[0], z, strict), strict);
      assert (a + b)[1..] == a[1..] + b;
    }
  }

  lemma ZonesSnoc(doc: Doc, l: Line, z: Zone, strict: bool)
    ensures Zones(doc + [l], z, strict) == After(l, Zones(doc, z, strict), strict)
  {
    hide After;
    ZonesConcat(doc, [l], z, strict);
    assert [l][1..] == [];
  }

  lemma {:induction false} ClashStays(doc: Doc, strict: bool)
    ensures Zones(doc, Clash, strict) == Clash
  {
    if doc != [] { ClashStays(doc[1..], strict); }
  }

  // No line of the document clashes.
  lemma HeadZone(doc: Doc, z: Zone, strict: bool)
    requires doc != [] && Zones(doc, z, strict) != Clash
    ensures z != Clash && After(doc[0], z, strict) != Clash && Zones(doc[1..], After(doc[0], z, strict), strict) != Clash
  {
    hide IsBegin, IsEnd, T.Listed;
    ClashStays(doc[1..], strict);
  }

  lemma {:induction false} StrictIsOrderly(doc: Doc, z: Zone)
    requires Zones(doc, z, true) != Clash
    ensures Zones(doc, z, false) == Zones(doc, z, true)
  {
    hide IsBegin, IsEnd, T.Listed;
    if doc != [] {
      HeadZone(doc, z, true);
      StrictIsOrderly(doc[1..], After(doc[0], z, true));
    }
  }

  lemma TokensApart(l: Line)
    ensures !(IsMark(l, T.TOC_TAG) && IsMark(l, A.ANALYTICS_TAG))
    ensures !(IsBegin(l, T.TOC_TAG) && IsEnd(l, T.TOC_TAG)) && !(IsBegin(l, A.ANALYTICS_TAG) && IsEnd(l, A.ANALYTICS_TAG))
  {
    hide Contains;
    TagLengths();
    hide T.TOC_TAG, A.ANALYTICS_TAG;
    MarksDiffer(T.TOC_TAG, A.ANALYTICS_TAG);
    MarksDiffer(T.TOC_TAG, T.TOC_TAG);
    MarksDiffer(A.ANALYTICS_TAG, A.ANALYTICS_TAG);
  }

  lemma TagLengths()
    ensures |T.TOC_TAG| != |A.ANALYTICS_TAG|
  {
  }

  lemma MarksDiffer(a: string, b: string)
    ensures BeginMark(a) != EndMark(b) && BeginMark(b) != EndMark(a)
    ensures |a| != |b| ==> BeginMark(a) != BeginMark(b) && EndMark(a) != EndMark(b)
  {
    assert BeginMark(a)[5] == BEGIN_PREFIX[5] == 'B' && BeginMark(b)[5] == BEGIN_PREFIX[5];
    assert EndMark(a)[5] == END_PREFIX[5] == 'E' && EndMark(b)[5] == END_PREFIX[5];
  }

  // ---------- the TOC munge ----------

  // Lines that change no zone: unflagged, no headers, no marks
  ghost predicate Inert(ins: Doc) {
    forall i :: 0 <= i < |ins| ==> InertLine(ins[i])
  }

  predicate InertLine(l: Line) {
    !l.preformatted && !T.Listed(l) && !IsMark(l, T.TOC_TAG) && !IsMark(l, A.ANALYTICS_TAG)
  }

  lemma {:induction false} InertZones(ins: Doc, z: Zone, strict: bool)
    requires Inert(ins)
    ensures Zones(ins, z, strict) == z
  {
    hide IsBegin, IsEnd, T.Listed;
    if ins != [] {
      assert InertLine(ins[0]) && Inert(ins[1..]);
      InertZones(ins[1..], z, strict);
    }
  }

  lemma {:induction false} UnmarkedZones(a: Doc, strict: bool)
    requires NoActiveMarks(a, T.TOC_TAG) && NoActiveMarks(a, A.ANALYTICS_TAG)
    ensures Orderly(a, strict)
  {
    hide IsBegin, IsEnd, T.Listed;
    if a != [] {
      assert a[0].preformatted || (!IsMark(a[0], T.TOC_TAG) && !IsMark(a[0], A.ANALYTICS_TAG));
      assert NoActiveMarks(a[1..], T.TOC_TAG) && NoActiveMarks(a[1..], A.ANALYTICS_TAG);
      UnmarkedZones(a[1..], strict);
    }
  }

  /** Text without active marks is orderly, and so is what follows a block of plain lines if and only
      if the rest is. */
  lemma OrderlyByBlocks(a: Doc, b: Line, inner: Doc, e: Line, rest: Doc, token: string, strict: bool)
    requires token == T.TOC_TAG || token == A.ANALYTICS_TAG
    requires NoActiveMarks(a, T.TOC_TAG) && NoActiveMarks(a, A.ANALYTICS_TAG)
    requires IsBegin(b, token) && !b.preformatted && Inert(inner) && IsEnd(e, token) && !e.preformatted
    ensures Orderly(a, strict)
    ensures Orderly(a + [b] + inner + [e] + rest, strict) <==> Orderly(rest, strict)
  {
    TokensApart(b);
    TokensApart(e);
    hide IsBegin, IsEnd, T.Listed, Zones, T.TOC_TAG, A.ANALYTICS_TAG;
    UnmarkedZones(a, strict);
    ZonesSnoc(a, b, Outside, strict);
    ZonesConcat(a + [b], inner, Outside, strict);
    InertZones(inner, Zones(a + [b], Outside, strict), strict);
    ZonesSnoc(a + [b] + inner, e, Outside, strict);
    ZonesConcat(a + [b] + inner + [e], rest, Outside, strict);
  }

  lemma NoOtherMark(l: Line)
    ensures IsMark(l, T.TOC_TAG) ==> !IsBegin(l, A.ANALYTICS_TAG) && !IsEnd(l, A.ANALYTICS_TAG)
    ensures IsMark(l, A.ANALYTICS_TAG) ==> !IsBegin(l, T.TOC_TAG) && !IsEnd(l, T.TOC_TAG)
    ensures IsBegin(l, T.TOC_TAG) ==> !IsEnd(l, T.TOC_TAG)
    ensures IsBegin(l, A.ANALYTICS_TAG) ==> !IsEnd(l, A.ANALYTICS_TAG)
  {
    hide IsBegin, IsEnd;
    TokensApart(l);
  }

  lemma TocLine(l: Line, z: Zone, ins: Doc)
    requires After(l, z, false) != Clash && Inert(ins)
    ensures var step, next := UpdateLine(l, T.TOC_TAG, ins, z == InToc), After(l, z, false);
            step.At? && step.between == (next == InToc) && Zones(step.out, z, true) == next
  {
    hide IsBegin, IsEnd, T.Listed, Inert;
    assert [l][1..] == [];
    if z == InToc {
      InertZones(ins, z, true);
      ZonesSnoc(ins, l, z, true);
    }
  }

  /** The TOC munge succeeds on an orderly document and makes it a strict one; zones stay. */
  lemma {:induction false} TocZones(doc: Doc, z: Zone, ins: Doc)
    requires Zones(doc, z, false) != Clash && Inert(ins)
    ensures var r := UpdateScan(doc, T.TOC_TAG, ins, z == InToc);
            && r.At? && r.between == (Zones(doc, z, false) == InToc)
            && Zones(r.out, z, true) == Zones(doc, z, false)
  {
    hide After, UpdateLine, Inert;
    if doc != [] {
      var l, rest := doc[0], doc[1..];
      HeadZone(doc, z, false);
      var next := After(l, z, false);
      TocLine(l, z, ins);
      TocZones(rest, next, ins);
      var later := UpdateScan(rest, T.TOC_TAG, ins, next == InToc).out;
      ZonesConcat(UpdateLine(l, T.TOC_TAG, ins, z == InToc).out, later, z, true);
    }
  }

  lemma {:induction false} NoEndInFence(doc: Doc, z: Zone)
    requires Zones(doc, z, false) != Clash
    ensures !T.EndInFence(doc, z == InToc)
  {
    hide IsBegin, IsEnd, T.Listed;
    if doc != [] {
      HeadZone(doc, z, false);
      NoEndInFence(doc[1..], After(doc[0], z, false));
    }
  }

  lemma {:induction false} NoHeaderInBlock(doc: Doc, z: Zone)
    requires Zones(doc, z, true) != Clash
    ensures !T.HeaderInBlock(doc, z == InToc)
  {
    hide IsBegin, IsEnd, T.Listed;
    if doc != [] {
      HeadZone(doc, z, true);
      NoHeaderInBlock(doc[1..], After(doc[0], z, true));
    }
  }

  // ---------- the analytics munge ----------

  function Skip(z: Zone): Zone {
    if z == InAnalytics then Outside else z
  }

  lemma KeptLine(l: Line, z: Zone, strict: bool)
    requires After(l, z, strict) != Clash
    ensures var step, next := RemoveLine(l, A.ANALYTICS_TAG, z == InAnalytics), After(l, z, strict);
            && step.At? && step.between == (next == InAnalytics)
            && Zones(A.StripLinks(step.out), Skip(z), strict) == Skip(next)
            && !(z == InAnalytics && l.preformatted)
  {
    NoOtherMark(l);
    hide BeginMark, EndMark, T.Listed, A.LINK_PREFIX;
    assert [l][1..] == [];
  }

  /** Removing the analytics blocks and the floating links of an orderly document succeeds and
      leaves the other zones as they are. */
  lemma {:induction false} KeptZones(doc: Doc, z: Zone, strict: bool)
    requires Zones(doc, z, strict) != Clash
    ensures var r := RemoveScan(doc, A.ANALYTICS_TAG, z == InAnalytics);
            && r.At? && r.between == (Zones(doc, z, strict) == InAnalytics)
            && Zones(A.StripLinks(r.out), Skip(z), strict) == Skip(Zones(doc, z, strict))
    ensures !A.FenceInBlock(doc, z == InAnalytics)
  {
    hide After, RemoveLine, Skip, A.StripLinks;
    if doc != [] {
      var l, rest := doc[0], doc[1..];
      HeadZone(doc, z, strict);
      var next := After(l, z, strict);
      KeptLine(l, z, strict);
      KeptZones(rest, next, strict);
      var later := RemoveScan(rest, A.ANALYTICS_TAG, next == InAnalytics).out;
      var out := RemoveLine(l, A.ANALYTICS_TAG, z == InAnalytics).out;
      A.StripLinksConcat(out, later);
      ZonesConcat(A.StripLinks(out), A.StripLinks(later), Skip(z), strict);
    } else {
      assert A.StripLinks([]) == [] by { StripNothing(); }
    }
  }

  lemma StripNothing()
    ensures A.StripLinks([]) == []
  {
  }

  // ---------- the munges that change single lines ----------

  lemma BlankZone(z: Zone, strict: bool)
    ensures After(BLANK, z, strict) == z && InertLine(BLANK)
  {
    A.BlankIsPlain(A.ANALYTICS_TAG);
    A.BlankIsPlain(T.TOC_TAG);
    T.BlankIsInert();
    hide BLANK, IsBegin, IsEnd, T.Listed;
  }

  lemma {:induction false} SpacedZones(doc: Doc, k: nat, strict: bool)
    requires k <= |doc|
    ensures Zones(P.Spaced(doc, k), Outside, strict) == Zones(doc[..k], Outside, strict)
  {
    hide BLANK, After, Zones;
    if k > 0 {
      SpacedZones(doc, k - 1, strict);
      var out, l := P.Spaced(doc, k - 1), doc[k - 1];
      var z := Zones(out, Outside, strict);
      BlankZone(z, strict);
      BlankZone(After(l, z, strict), strict);
      ZonesSnoc(out, BLANK, Outside, strict);
      var o := P.Opened(doc, k - 1, out);
      ZonesSnoc(o, l, Outside, strict);
      ZonesSnoc(o + [l], BLANK, Outside, strict);
      assert doc[..k] == doc[..k - 1] + [l];
      ZonesSnoc(doc[..k - 1], l, Outside, strict);
    } else {
      assert P.Spaced(doc, 0) == doc[..0];
    }
  }

  lemma FixedZone(l: Line, z: Zone, strict: bool)
    requires H.Fixable(l)
    ensures After(H.Fixed(l), z, strict) == After(l, z, strict)
  {
    hide HasLink, Contains, H.FixedText;
    H.FixedTextIsStable(l.data);
    NoSharpMark(l);
    NoSharpMark(H.Fixed(l));
    hide IsBegin, IsEnd;
  }

  lemma NoSharpMark(l: Line)
    requires l.data != [] && l.data[0] == '#'
    ensures !IsBegin(l, T.TOC_TAG) && !IsEnd(l, T.TOC_TAG) && !IsBegin(l, A.ANALYTICS_TAG) && !IsEnd(l, A.ANALYTICS_TAG)
  {
    hide IsBegin, IsEnd;
    if IsMark(l, T.TOC_TAG) { MarkText(l, T.TOC_TAG); }
    if IsMark(l, A.ANALYTICS_TAG) { MarkText(l, A.ANALYTICS_TAG); }
  }

  lemma {:induction false} FixZones(doc: Doc, k: nat, strict: bool)
    requires k <= |doc|
    ensures Zones(H.Fix(doc, k), Outside, strict) == Zones(doc[..k], Outside, strict)
  {
    hide BLANK, After, Zones, H.Fixable, H.Fixed;
    if k > 0 {
      FixZones(doc, k - 1, strict);
      var out, l := H.Fix(doc, k - 1), doc[k - 1];
      var z := Zones(out, Outside, strict);
      BlankZone(z, strict);
      BlankZone(After(l, z, strict), strict);
      ZonesSnoc(out, l, Outside, strict);
      ZonesSnoc(out, BLANK, Outside, strict);
      if H.Fixable(l) {
        FixedZone(l, z, strict);
        var o := H.Spaced(k - 1, out);
        ZonesSnoc(o, H.Fixed(l), Outside, strict);
        ZonesSnoc(o + [H.Fixed(l)], BLANK, Outside, strict);
      }
      assert doc[..k] == doc[..k - 1] + [l];
      ZonesSnoc(doc[..k - 1], l, Outside, strict);
    } else {
      assert H.Fix(doc, 0) == doc[..0];
    }
  }

  // Every line is trimmed, apart from headers of bare sharps.
  ghost predicate AlmostTrimmed(doc: Doc) {
    forall l :: l in doc ==> W.Trimmed(l) == l || W.Bare(l)
  }

  lemma BareZone(l: Line, z: Zone)
    requires W.Bare(l)
    ensures After(W.Trimmed(l), z, false) == After(l, z, false)
  {
    hide HasLink, Contains;
    var t := W.Trimmed(l);
    W.TrimHeader(l.data);
    assert l.data[0] == '#' && t.data[0] == '#';
    NoSharpMark(l);
    NoSharpMark(t);
    hide IsBegin, IsEnd;
  }

  lemma {:induction false} TrimmedZones(doc: Doc, z: Zone)
    requires AlmostTrimmed(doc)
    ensures Zones(W.UpdateWhitespace(doc), z, false) == Zones(doc, z, false)
  {
    hide After, W.Trimmed, W.Bare;
    if doc != [] {
      var w := W.UpdateWhitespace(doc);
      assert doc[0] in doc;
      if W.Bare(doc[0]) { BareZone(doc[0], z); }
      assert w[1..] == W.UpdateWhitespace(doc[1..]);
      TrimmedZones(doc[1..], After(doc[0], z, false));
    }
  }

  // ---------- bare headers outside the blocks ----------

  // A header of bare sharps stands outside the generated blocks.
  predicate BareOutside(doc: Doc, z: Zone) {
    doc != [] && ((z == Outside && W.Bare(doc[0])) || BareOutside(doc[1..], After(doc[0], z, false)))
  }

  lemma {:induction false} BareConcat(a: Doc, b: Doc, z: Zone)
    ensures BareOutside(a + b, z) <==> BareOutside(a, z) || BareOutside(b, Zones(a, z, false))
  {
    hide After, W.Bare;
    if a == [] {
      assert a + b == b;
    } else {
      BareConcat(a[1..], b, After(a[0], z, false));
      assert (a + b)[1..] == a[1..] + b;
    }
  }

  lemma BareSnoc(doc: Doc, l: Line, z: Zone)
    ensures BareOutside(doc + [l], z) <==> BareOutside(doc, z) || (Zones(doc, z, false) == Outside && W.Bare(l))
  {
    hide After, W.Bare;
    BareConcat(doc, [l], z);
    assert [l][1..] == [];
  }

  lemma {:induction false} InsertHasNoBare(ins: Doc)
    requires Inert(ins)
    ensures !BareOutside(ins, InToc)
  {
    hide IsBegin, IsEnd, T.Listed, W.Bare;
    if ins != [] {
      assert InertLine(ins[0]) && Inert(ins[1..]);
      InsertHasNoBare(ins[1..]);
    }
  }

  lemma TocLineBare(l: Line, z: Zone, ins: Doc)
    requires After(l, z, false) != Clash && Inert(ins)
    ensures var out := UpdateLine(l, T.TOC_TAG, ins, z == InToc).out;
            && UpdateLine(l, T.TOC_TAG, ins, z == InToc).At?
            && (BareOutside(out, z) <==> z == Outside && W.Bare(l)) && Zones(out, z, false) == After(l, z, false)
  {
    hide IsBegin, IsEnd, T.Listed, Inert, W.Bare;
    TocLine(l, z, ins);
    StrictIsOrderly(UpdateLine(l, T.TOC_TAG, ins, z == InToc).out, z);
    assert [l][1..] == [];
    if z == InToc {
      InsertHasNoBare(ins);
      InertZones(ins, z, false);
      BareSnoc(ins, l, z);
    }
  }

  lemma {:induction false} TocBare(doc: Doc, z: Zone, ins: Doc)
    requires Zones(doc, z, false) != Clash && Inert(ins)
    ensures UpdateScan(doc, T.TOC_TAG, ins, z == InToc).At?
    ensures BareOutside(UpdateScan(doc, T.TOC_TAG, ins, z == InToc).out, z) <==> BareOutside(doc, z)
  {
    hide After, UpdateLine, Inert, W.Bare;
    TocZones(doc, z, ins);
    if doc != [] {
      var l, rest := doc[0], doc[1..];
      HeadZone(doc, z, false);
      var next := After(l, z, false);
      TocLine(l, z, ins);
      TocLineBare(l, z, ins);
      TocBare(rest, next, ins);
      var later := UpdateScan(rest, T.TOC_TAG, ins, next == InToc).out;
      BareConcat(UpdateLine(l, T.TOC_TAG, ins, z == InToc).out, later, z);
    }
  }

  lemma BareIsKept(l: Line)
    requires W.Bare(l)
    ensures !A.Floating(l) && !IsMark(l, A.ANALYTICS_TAG)
  {
    assert l.data[0] == '#';
    NoSharpMark(l);
    A.LinkText();
  }

  lemma KeptLineBare(l: Line, z: Zone)
    requires After(l, z, false) != Clash
    ensures var out := A.StripLinks(RemoveLine(l, A.ANALYTICS_TAG, z == InAnalytics).out);
            && RemoveLine(l, A.ANALYTICS_TAG, z == InAnalytics).At?
            && (BareOutside(out, Skip(z)) <==> z == Outside && W.Bare(l)) && Zones(out, Skip(z), false) == Skip(After(l, z, false))
  {
    KeptLine(l, z, false);
    if W.Bare(l) { BareIsKept(l); }
    hide BeginMark, EndMark, T.Listed, A.LINK_PREFIX, W.BareText;
    assert [l][1..] == [];
  }

  lemma {:induction false} KeptBare(doc: Doc, z: Zone)
    requires Zones(doc, z, false) != Clash
    ensures RemoveScan(doc, A.ANALYTICS_TAG, z == InAnalytics).At?
    ensures BareOutside(A.StripLinks(RemoveScan(doc, A.ANALYTICS_TAG, z == InAnalytics).out), Skip(z)) <==> BareOutside(doc, z)
  {
    hide After, RemoveLine, Skip, A.StripLinks, W.Bare;
    KeptZones(doc, z, false);
    if doc != [] {
      var l, rest := doc[0], doc[1..];
      HeadZone(doc, z, false);
      var next := After(l, z, false);
      KeptLine(l, z, false);
      KeptLineBare(l, z);
      KeptBare(rest, next);
      var later := RemoveScan(rest, A.ANALYTICS_TAG, next == InAnalytics).out;
      var out := RemoveLine(l, A.ANALYTICS_TAG, z == InAnalytics).out;
      A.StripLinksConcat(out, later);
      BareConcat(A.StripLinks(out), A.StripLinks(later), Skip(z));
    } else {
      StripNothing();
    }
  }

  lemma {:induction false} SpacedBare(doc: Doc, k: nat)
    requires k <= |doc|
    ensures BareOutside(P.Spaced(doc, k), Outside) <==> BareOutside(doc[..k], Outside)
  {
    hide BLANK, After, Zones, W.Bare, BareOutside;
    if k > 0 {
      SpacedBare(doc, k - 1);
      SpacedZones(doc, k - 1, false);
      L.BlankIsNotBare();
      var out, l := P.Spaced(doc, k - 1), doc[k - 1];
      var z := Zones(out, Outside, false);
      BlankZone(z, false);
      ZonesSnoc(out, BLANK, Outside, false);
      BareSnoc(out, BLANK, Outside);
      var o := P.Opened(doc, k - 1, out);
      BareSnoc(o, l, Outside);
      BareSnoc(o + [l], BLANK, Outside);
      assert doc[..k] == doc[..k - 1] + [l];
      BareSnoc(doc[..k - 1], l, Outside);
    } else {
      assert P.Spaced(doc, 0) == doc[..0];
    }
  }

  lemma {:induction false} FixBare(doc: Doc, k: nat)
    requires k <= |doc|
    ensures BareOutside(H.Fix(doc, k), Outside) <==> BareOutside(doc[..k], Outside)
  {
    hide BLANK, After, Zones, W.Bare, BareOutside, H.Fixable, H.Fixed;
    if k > 0 {
      FixBare(doc, k - 1);
      FixZones(doc, k - 1, false);
      L.BlankIsNotBare();
      var out, l := H.Fix(doc, k - 1), doc[k - 1];
      var z := Zones(out, Outside, false);
      BlankZone(z, false);
      ZonesSnoc(out, BLANK, Outside, false);
      BareSnoc(out, BLANK, Outside);
      BareSnoc(out, l, Outside);
      if H.Fixable(l) {
        L.NormalizeKeepsBare(l);
        var o := H.Spaced(k - 1, out);
        BareSnoc(o, H.Fixed(l), Outside);
        BareSnoc(o + [H.Fixed(l)], BLANK, Outside);
      }
      assert doc[..k] == doc[..k - 1] + [l];
      BareSnoc(doc[..k - 1], l, Outside);
    } else {
      assert H.Fix(doc, 0) == doc[..0];
    }
  }

  lemma {:induction false} TrimmedBare(doc: Doc, z: Zone)
    requires AlmostTrimmed(doc)
    ensures BareOutside(W.UpdateWhitespace(doc), z) <==> BareOutside(doc, z)
  {
    hide After, W.Trimmed, W.Bare;
    if doc != [] {
      var w := W.UpdateWhitespace(doc);
      assert doc[0] in doc;
      if W.Bare(doc[0]) { BareZone(doc[0], z); }
      L.TrimmedKeepsBare(doc[0]);
      assert w[1..] == W.UpdateWhitespace(doc[1..]);
      TrimmedBare(doc[1..], After(doc[0], z, false));
    }
  }

  // In a strict document without analytics marks every bare header is outside.
  lemma {:induction false} NoBareAtAll(doc: Doc, z: Zone)
    requires Zones(doc, z, true) != Clash && z != InAnalytics && NoActiveMarks(doc, A.ANALYTICS_TAG)
    requires !BareOutside(doc, z) && forall l :: l in doc && W.Bare(l) ==> T.Listed(l)
    ensures W.NoBare(doc)
  {
    hide BeginMark, EndMark, W.BareText;
    if doc != [] {
      var l, rest := doc[0], doc[1..];
      HeadZone(doc, z, true);
      assert l in doc && (l.preformatted || !IsMark(l, A.ANALYTICS_TAG));
      BareInToc(l, z);
      NoBareAtAll(rest, After(l, z, true));
      assert doc == [l] + rest;
    }
  }

  lemma BareInToc(l: Line, z: Zone)
    requires After(l, z, true) != Clash && (W.Bare(l) ==> T.Listed(l))
    ensures z == InToc ==> !W.Bare(l)
    ensures After(l, z, false) == After(l, z, true)
  {
    if W.Bare(l) {
      assert l.data[0] == '#';
      NoSharpMark(l);
    }
    hide IsBegin, IsEnd, T.Listed;
  }
}
