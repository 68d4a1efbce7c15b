/**
 Blank lines around headers and preformatted blocks, checked line by line from what stands before,
 and kept by the munges that write or remove generated blocks.
 */
module Neatness {
  import opened Options
  import opened MungeLines
  import opened MacroBlocks
  import opened GeneratedBlocks
  import T = TableOfContents
  import A = Analytics
  import P = Preformatted
  import H = HeaderLines

  // The line before, and whether it closes a preformatted block
  datatype Context = Context(prev: Option<Line>, closes: bool)

  const START := Context(None, false)

  predicate Flag(c: Context) {
    c.prev.Some? && c.prev.value.preformatted
  }

  predicate BlankBefore(c: Context) {
    c.prev.Some? && c.prev.value.data == ""
  }

  // The next line, if there is one, has to be blank.
  predicate Wants(c: Context) {
    c.closes || (c.prev.Some? && H.Fixable(c.prev.value))
  }

  function Next(c: Context, l: Line): Context {
    Context(Some(l), !l.preformatted && Flag(c))
  }

  predicate NeatLine(c: Context, l: Line) {
    && (H.Fixable(l) ==> H.Fixed(l) == l && (c.prev.None? || BlankBefore(c)))
    && (l.preformatted && !Flag(c) ==> BlankBefore(c))
    && (Wants(c) ==> l.data == "")
  }

  predicate Neat(doc: Doc, c: Context) {
    doc == [] || (NeatLine(c, doc[0]) && Neat(doc[1..], Next(c, doc[0])))
  }

  function ContextAfter(doc: Doc, c: Context): Context {
    if doc == [] then c else ContextAfter(doc[1..], Next(c, doc[0]))
  }

  lemma {:induction false} NeatConcat(a: Doc, b: Doc, c: Context)
    ensures Neat(a + b, c) <==> Neat(a, c) && Neat(b, ContextAfter(a, c))
    ensures ContextAfter(a + b, c) == ContextAfter(b, ContextAfter(a, c))
  {
    hide NeatLine, Next;
    if a == [] {
      assert a + b == b;
    } else {
      NeatConcat(a[1..], b, Next(c, a[0]));
      assert (a + b)[1..] == a[1..] + b;
    }
  }

  // ---------- neat documents are those that the blank-line munges leave alone ----------

  function ContextAt(doc: Doc, i: nat): Context
    requires i <= |doc|
  {
    Context(if i == 0 then None else Some(doc[i - 1]), i > 0 && P.Closing(doc, i - 1))
  }

  lemma {:induction false} NeatFrom(doc: Doc, i: nat)
    requires i <= |doc|
    ensures Neat(doc[i..], ContextAt(doc, i)) <==> forall j :: i <= j < |doc| ==> NeatLine(ContextAt(doc, j), doc[j])
    decreases |doc| - i
  {
    hide NeatLine;
    if i < |doc| {
      assert doc[i..][1..] == doc[i + 1..];
      assert Next(ContextAt(doc, i), doc[i]) == ContextAt(doc, i + 1);
      NeatFrom(doc, i + 1);
    }
  }

  /** A document is neat if and only if its headers are tidy and its preformatted blocks spaced. */
  lemma NeatIff(doc: Doc)
    ensures Neat(doc, START) <==> H.Tidy(doc) && P.OpeningsSpaced(doc) && P.ClosingsSpaced(doc)
  {
    hide H.Fixable, H.Fixed, Neat;
    NeatFrom(doc, 0);
    assert doc[0..] == doc && ContextAt(doc, 0) == START;
    if H.Tidy(doc) && P.OpeningsSpaced(doc) && P.ClosingsSpaced(doc) {
      forall j | 0 <= j < |doc|
        ensures NeatLine(ContextAt(doc, j), doc[j])
      {
        if doc[j].preformatted && !Flag(ContextAt(doc, j)) { assert P.Opening(doc, j); }
        if j > 0 { assert H.Fixable(doc[j - 1]) ==> doc[j].data == ""; }
      }
    }
    if forall j :: 0 <= j < |doc| ==> NeatLine(ContextAt(doc, j), doc[j]) {
      NeatIsTidy(doc);
    }
  }

  lemma NeatIsTidy(doc: Doc)
    requires forall j :: 0 <= j < |doc| ==> NeatLine(ContextAt(doc, j), doc[j])
    ensures H.Tidy(doc) && P.OpeningsSpaced(doc) && P.ClosingsSpaced(doc)
  {
    hide H.Fixable, H.Fixed;
    forall j | 0 <= j < |doc| && H.Fixable(doc[j])
      ensures H.Fixed(doc[j]) == doc[j]
      ensures j > 0 ==> doc[j - 1].data == ""
      ensures j + 1 < |doc| ==> doc[j + 1].data == ""
    {
      assert NeatLine(ContextAt(doc, j), doc[j]);
      if j + 1 < |doc| { assert NeatLine(ContextAt(doc, j + 1), doc[j + 1]); }
    }
    forall j | 0 <= j < |doc| && P.Opening(doc, j)
      ensures j > 0 && doc[j - 1].data == ""
    {
      assert NeatLine(ContextAt(doc, j), doc[j]);
    }
    forall j | 0 <= j < |doc| - 1 && P.Closing(doc, j)
      ensures doc[j + 1].data == ""
    {
      assert NeatLine(ContextAt(doc, j + 1), doc[j + 1]);
    }
  }

  // ---------- writing TOC blocks ----------

  // A line that asks for nothing stands before.
  predicate Calm(c: Context) {
    c.prev.Some? && !Wants(c) && !Flag(c)
  }

  lemma InertIsNeat(l: Line, c: Context)
    requires Calm(c) && !l.preformatted && !H.Fixable(l)
    ensures NeatLine(c, l) && Calm(Next(c, l))
  {
  }

  lemma {:induction false} PlainIsNeat(ins: Doc, c: Context)
    requires Calm(c) && forall i :: 0 <= i < |ins| ==> !ins[i].preformatted && !H.Fixable(ins[i])
    ensures Neat(ins, c) && Calm(ContextAfter(ins, c))
  {
    hide H.Fixable, Calm, NeatLine, Next;
    if ins != [] {
      InertIsNeat(ins[0], c);
      PlainIsNeat(ins[1..], Next(c, ins[0]));
    }
  }

  lemma MarkIsPlain(l: Line, token: string)
    requires IsMark(l, token)
    ensures !H.Fixable(l) && l.data != ""
  {
    hide IsMark, H.Title;
    MarkText(l, token);
  }

  // A mark is never a closing fence.
  lemma MarkContext(l: Line, c: Context, token: string)
    requires IsMark(l, token) && !l.preformatted && Flagged([l], Flag(c))
    ensures Calm(Next(c, l)) && Next(c, l) == Context(Some(l), false)
  {
    hide NewLine, H.Fixable, IsMark, InlineFence;
    MarkIsPlain(l, token);
    MarkText(l, token);
    assert FlaggedAt([l], 0, Flag(c));
    assert NewLine(l.data).(preformatted := NextFlag(Flag(c), l.data)).preformatted == NextFlag(Flag(c), l.data);
  }

  lemma HeadFlags(doc: Doc, c: Context)
    requires doc != [] && Flagged(doc, Flag(c))
    ensures Flagged([doc[0]], Flag(c)) && Flagged(doc[1..], Flag(Next(c, doc[0])))
  {
    HeadSplit(doc, Flag(c));
  }

  lemma InertIsPlain(ins: Doc)
    requires Inert(ins)
    ensures forall i :: 0 <= i < |ins| ==> !ins[i].preformatted && !H.Fixable(ins[i])
  {
    hide IsMark, H.HeaderSyntax;
    forall i | 0 <= i < |ins|
      ensures !ins[i].preformatted && !H.Fixable(ins[i])
    {
      assert InertLine(ins[i]);
    }
  }

  // The end of a block: the inserted lines and the end mark
  lemma BlockEndIsNeat(ins: Doc, l: Line, later: Doc, d: Context)
    requires Inert(ins) && Calm(d) && IsEnd(l, T.TOC_TAG) && !l.preformatted
    requires Neat(later, Context(Some(l), false))
    ensures Neat(ins + [l] + later, d)
  {
    hide Inert, IsEnd, H.Fixable;
    InertIsPlain(ins);
    PlainIsNeat(ins, d);
    MarkIsPlain(l, T.TOC_TAG);
    var mid := ContextAfter(ins, d);
    NeatConcat(ins, [l], d);
    NeatConcat(ins + [l], later, d);
    assert [l][1..] == [];
    InertIsNeat(l, mid);
    assert Next(mid, l) == Context(Some(l), false);
    assert ContextAfter([l], mid) == Next(mid, l);
  }

  /** Writing the TOC blocks of an orderly document keeps it neat. */
  lemma {:induction false} TocIsNeat(doc: Doc, z: Zone, ins: Doc, c: Context, d: Context)
    requires Zones(doc, z, false) != Clash && Inert(ins) && Flagged(doc, Flag(c)) && Neat(doc, c)
    requires if z == InToc then !Flag(c) && Calm(d) else d == c
    ensures UpdateScan(doc, T.TOC_TAG, ins, z == InToc).At? && Neat(UpdateScan(doc, T.TOC_TAG, ins, z == InToc).out, d)
  {
    hide Inert, Flagged, NeatLine, Calm, BeginMark, EndMark, T.Listed, Next;
    TocZones(doc, z, ins);
    if doc != [] {
      var l, rest := doc[0], doc[1..];
      HeadZone(doc, z, false);
      HeadFlags(doc, c);
      TocLine(l, z, ins);
      NoOtherMark(l);
      NextFlagIs(c, l);
      var next, c' := After(l, z, false), Next(c, l);
      var step := UpdateLine(l, T.TOC_TAG, ins, z == InToc);
      var later := UpdateScan(rest, T.TOC_TAG, ins, next == InToc).out;
      if z != InToc {
        if next == InToc { MarkContext(l, c, T.TOC_TAG); }
        TocIsNeat(rest, next, ins, c', c');
        assert ([l] + later)[1..] == later;
      } else if next == InToc {
        TocIsNeat(rest, next, ins, c', d);
        assert [] + later == later;
      } else {
        MarkContext(l, c, T.TOC_TAG);
        TocIsNeat(rest, next, ins, c', c');
        BlockEndIsNeat(ins, l, later, d);
      }
    }
  }

  lemma NextFlagIs(c: Context, l: Line)
    ensures Flag(Next(c, l)) == l.preformatted
  {
  }

  // ---------- removing analytics blocks ----------

  // How the context d in the kept lines follows the context c in the document
  predicate Linked(c: Context, d: Context, z: Zone) {
    && Flag(c) == Flag(d)
    && (c.prev.None? ==> d == c)
    && (z != InAnalytics && BlankBefore(c) ==> d.prev == c.prev)
    && (Wants(d) ==> d == c && z != InAnalytics)
    && (z == InAnalytics ==> !Flag(c))
  }

  lemma KeptStep(l: Line, z: Zone, strict: bool, c: Context, d: Context)
    requires After(l, z, strict) != Clash && Flagged([l], Flag(c)) && NeatLine(c, l) && Linked(c, d, z)
    requires A.StripLinks(RemoveLine(l, A.ANALYTICS_TAG, z == InAnalytics).out) == [l]
    ensures NeatLine(d, l) && Linked(Next(c, l), Next(d, l), After(l, z, strict))
  {
    NoOtherMark(l);
    hide BeginMark, EndMark, T.Listed, A.LINK_PREFIX, H.Fixable, H.Fixed;
    assert [l][1..] == [];
    assert z != InAnalytics && After(l, z, strict) != InAnalytics;
  }

  lemma DroppedStep(l: Line, z: Zone, strict: bool, c: Context, d: Context)
    requires After(l, z, strict) != Clash && Flagged([l], Flag(c)) && NeatLine(c, l) && Linked(c, d, z)
    requires A.StripLinks(RemoveLine(l, A.ANALYTICS_TAG, z == InAnalytics).out) == []
    ensures Linked(Next(c, l), d, After(l, z, strict))
  {
    NoOtherMark(l);
    A.HeadFlag(l, Flag(c));
    DroppedIsText(l, z);
    hide BeginMark, EndMark, T.Listed, A.LINK_PREFIX, H.Fixable, H.Fixed, Flagged, NextFlag;
    assert [l][1..] == [];
    assert !l.preformatted;
    assert z == InAnalytics || IsMark(l, A.ANALYTICS_TAG) || A.Floating(l);
  }

  // Outside an analytics block only marks and links are dropped, and those are not blank.
  lemma DroppedIsText(l: Line, z: Zone)
    ensures IsMark(l, A.ANALYTICS_TAG) || A.Floating(l) ==> l.data != ""
  {
    hide IsMark, A.LINK_PREFIX;
    A.LinkText();
    if IsMark(l, A.ANALYTICS_TAG) { MarkText(l, A.ANALYTICS_TAG); }
  }

  /** Removing the analytics blocks and floating links of an orderly document keeps it neat. */
  lemma {:induction false} KeptIsNeat(doc: Doc, z: Zone, strict: bool, c: Context, d: Context)
    requires Zones(doc, z, strict) != Clash && Flagged(doc, Flag(c)) && Neat(doc, c) && Linked(c, d, z)
    ensures RemoveScan(doc, A.ANALYTICS_TAG, z == InAnalytics).At?
    ensures Neat(A.StripLinks(RemoveScan(doc, A.ANALYTICS_TAG, z == InAnalytics).out), d)
  {
    hide After, RemoveLine, Flagged, NeatLine, Linked, Next, A.StripLinks;
    KeptZones(doc, z, strict);
    if doc != [] {
      var l, rest := doc[0], doc[1..];
      HeadZone(doc, z, strict);
      HeadFlags(doc, c);
      KeptLine(l, z, strict);
      KeptIsOne(l, z);
      var next := After(l, z, strict);
      var line := RemoveLine(l, A.ANALYTICS_TAG, z == InAnalytics).out;
      var lines := RemoveScan(rest, A.ANALYTICS_TAG, next == InAnalytics).out;
      var out, later := A.StripLinks(line), A.StripLinks(lines);
      A.StripLinksConcat(line, lines);
      if out == [l] {
        KeptStep(l, z, strict, c, d);
        KeptIsNeat(rest, next, strict, Next(c, l), Next(d, l));
        assert ([l] + later)[1..] == later;
      } else {
        DroppedStep(l, z, strict, c, d);
        KeptIsNeat(rest, next, strict, Next(c, l), d);
        assert [] + later == later;
      }
    } else {
      StripNothing();
    }
  }

  lemma KeptIsOne(l: Line, z: Zone)
    requires RemoveLine(l, A.ANALYTICS_TAG, z == InAnalytics).At?
    ensures var out := A.StripLinks(RemoveLine(l, A.ANALYTICS_TAG, z == InAnalytics).out); out == [] || out == [l]
  {
    hide IsBegin, IsEnd, A.LINK_PREFIX;
    assert [l][1..] == [];
  }
}
