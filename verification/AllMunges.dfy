/**
 The six modelled munges in the tool's order: preformat-balance, remove-whitespace,
 table-of-contents, blank-lines-surround-preformatted, header-lines, analytics.
 */
module AllMunges {
  import opened MungeLines
  import opened GeneratedBlocks
  import opened Neatness
  import B = MacroBlocks
  import T = TableOfContents
  import A = Analytics
  import D = AnalyticsOnDisk
  import P = Preformatted
  import H = HeaderLines
  import W = Whitespace
  import L = MungePipeline
  import V = Visit

  // A document as the parser makes it, whose generated blocks keep apart once it is trimmed
  ghost predicate Ready(doc: Doc) {
    V.WellFormed(doc) && Orderly(W.UpdateWhitespace(doc), false)
  }

  // ---------- generated lines ----------

  lemma NotAMark(l: Line, token: string)
    requires l.data == "" || l.data[0] != '<'
    ensures !B.IsMark(l, token)
  {
    hide B.IsMark;
    if B.IsMark(l, token) { B.MarkText(l, token); }
  }

  lemma EndsInText(s: string)
    requires s != [] && !W.IsUnicodeSpace(s[|s| - 1])
    ensures W.Trimmed(NewLine(s)) == NewLine(s)
  {
    hide HasLink, Contains;
    W.TrimIs(s, s);
  }

  lemma EntryEnds(header: string, used: nat, lower: char -> char)
    requires T.HasEntry(header)
    ensures var s := T.EntryText(header, used, lower);
            s != [] && (s[0] == ' ' || s[0] == '-') && s[|s| - 1] == ')'
  {
    hide T.Trim, T.Base, T.Decimal;
    var s, n := T.EntryText(header, used, lower), |header| - |T.TrimSharps(header)| - 1;
    assert s[0] == (if n == 0 then "- ["[0] else ' ');
  }

  // A line that is inert and trimmed
  predicate Generated(l: Line) {
    InertLine(l) && W.Trimmed(l) == l
  }

  lemma GeneratedText(s: string)
    requires s != [] && s[0] != '<' && s[0] != '#' && !W.IsUnicodeSpace(s[|s| - 1])
    ensures Generated(NewLine(s))
  {
    EndsInText(s);
    NotAMark(NewLine(s), T.TOC_TAG);
    NotAMark(NewLine(s), A.ANALYTICS_TAG);
    hide HasLink, Contains, B.IsMark, W.Trimmed;
  }

  lemma {:induction false} EntriesAreGenerated(headers: seq<string>, lower: char -> char)
    ensures forall l :: l in T.Entries(headers, lower) ==> Generated(l)
  {
    hide NewLine, Generated, T.EntryText, T.HasEntry;
    if headers != [] {
      var init, h := headers[..|headers| - 1], headers[|headers| - 1];
      EntriesAreGenerated(init, lower);
      if T.HasEntry(h) {
        var used := T.Count(init, T.Base(h, lower), lower);
        EntryEnds(h, used, lower);
        GeneratedText(T.EntryText(h, used, lower));
      }
    }
  }

  lemma BlankIsGenerated()
    ensures Generated(BLANK)
  {
    hide BLANK, InertLine, W.Trimmed;
    BlankZone(Outside, false);
    L.BlankIsTrimmed();
  }

  lemma TocIsGenerated(headers: seq<string>, lower: char -> char)
    ensures forall l :: l in T.Toc(headers, lower) ==> Generated(l)
    ensures Inert(T.Toc(headers, lower))
  {
    hide Generated, BLANK, T.Entries, InertLine;
    EntriesAreGenerated(headers, lower);
    BlankIsGenerated();
    var toc := T.Toc(headers, lower);
    forall i | 0 <= i < |toc|
      ensures InertLine(toc[i])
    {
      assert toc[i] in toc && Generated(toc[i]);
      GeneratedIsInert(toc[i]);
    }
  }

  lemma GeneratedIsInert(l: Line)
    requires Generated(l)
    ensures InertLine(l) && W.Trimmed(l) == l
  {
  }

  lemma LinkIsGenerated(file: string)
    requires '\n' !in file
    ensures forall l :: l in A.LinkLines(file) ==> Generated(l)
  {
    hide Generated, NewLine, A.LINK_PREFIX, A.LINK_SUFFIX;
    A.OneLineFile(file);
    A.LinkText();
    SuffixEnds();
    var s := A.LINK_PREFIX + file + A.LINK_SUFFIX;
    assert s[|s| - 1] == A.LINK_SUFFIX[|A.LINK_SUFFIX| - 1];
    GeneratedText(s);
  }

  lemma SuffixEnds()
    ensures A.LINK_SUFFIX != [] && A.LINK_SUFFIX[|A.LINK_SUFFIX| - 1] == ')'
  {
  }

  // ---------- up to the header munge ----------

  function TocOf(doc: Doc, lower: char -> char): Doc {
    T.Toc(T.Headers(doc), lower)
  }

  // What the munges before analytics make of a document
  function Prepared(doc: Doc, lower: char -> char): Doc
    requires T.UpdateToc(W.UpdateWhitespace(doc), lower).Ok?
  {
    L.RunOnce(T.UpdateToc(W.UpdateWhitespace(doc), lower).doc)
  }

  lemma {:induction false} TocKeepsLast(doc: Doc, z: Zone, ins: Doc)
    requires doc != [] && Zones(doc, z, false) != Clash && Zones(doc, z, false) != InToc && Inert(ins)
    ensures var r := B.UpdateScan(doc, T.TOC_TAG, ins, z == InToc);
            r.At? && r.out != [] && r.out[|r.out| - 1] == doc[|doc| - 1]
  {
    hide After, B.UpdateLine, Inert;
    var l, rest := doc[0], doc[1..];
    HeadZone(doc, z, false);
    TocLine(l, z, ins);
    TocZones(doc, z, ins);
    if rest == [] {
      LastStep(l, z, ins);
      assert B.UpdateScan(rest, T.TOC_TAG, ins, After(l, z, false) == InToc).out == [];
    } else {
      TocKeepsLast(rest, After(l, z, false), ins);
    }
  }

  lemma LastStep(l: Line, z: Zone, ins: Doc)
    requires After(l, z, false) != Clash && After(l, z, false) != InToc
    ensures var step := B.UpdateLine(l, T.TOC_TAG, ins, z == InToc);
            step.At? && step.out != [] && step.out[|step.out| - 1] == l
  {
    hide B.IsBegin, B.IsEnd, T.Listed;
  }

  // The TOC munge on an orderly document
  lemma TocStep(w: Doc, lower: char -> char)
    requires V.WellFormed(w) && Orderly(w, false)
    ensures var r := T.UpdateToc(w, lower);
            && r.Ok? && V.WellFormed(r.doc) && Orderly(r.doc, true)
            && (Unbalanced(r.doc) <==> Unbalanced(w)) && (r.doc == [] <==> w == [])
            && (BareOutside(r.doc, Outside) <==> BareOutside(w, Outside))
            && forall l :: l in r.doc ==> l in w || Generated(l)
  {
    hide Flagged, OneLineEach, Plain, Zones, B.UpdateScan, T.Toc, T.Headers, Generated, Inert, T.EndInFence;
    hide BareOutside;
    var toc := TocOf(w, lower);
    TocIsGenerated(T.Headers(w), lower);
    T.TocIsPlain(w, lower);
    TocZones(w, Outside, toc);
    TocBare(w, Outside, toc);
    NoEndInFence(w, Outside);
    T.UpdateIsFlagged(w, toc, false, false);
    T.UpdatedLines(w, toc, false);
    if w != [] {
      T.UpdatedIsOneLineEach(w, toc);
      TocKeepsLast(w, Outside, toc);
    } else {
      NothingUpdated(toc);
    }
  }

  lemma NothingUpdated(ins: Doc)
    ensures B.Update([], T.TOC_TAG, ins) == Ok([]) && OneLineEach([])
  {
  }

  lemma TrimStep(doc: Doc)
    requires V.WellFormed(doc)
    ensures var w := W.UpdateWhitespace(doc);
            && V.WellFormed(w) && (Unbalanced(w) <==> Unbalanced(doc)) && (w == [] <==> doc == [])
            && forall l :: l in w ==> W.Trimmed(l) == l
  {
    hide Flagged, OneLineEach, W.Trimmed;
    var w := W.UpdateWhitespace(doc);
    W.TrimmedIsFlagged(doc);
    forall l | l in w
      ensures W.Trimmed(l) == l
    {
      var i :| 0 <= i < |w| && w[i] == l;
      W.TrimmedTwice(doc[i]);
    }
  }

  // The blank-line munges on an orderly document
  lemma BlankLinesStep(t: Doc)
    requires V.WellFormed(t) && Orderly(t, true)
    ensures var h := L.RunOnce(t);
            && V.WellFormed(h) && Orderly(h, true) && Neat(h, START)
            && (Unbalanced(h) <==> Unbalanced(t)) && (h == [] <==> t == [])
            && (BareOutside(h, Outside) <==> BareOutside(t, Outside))
  {
    hide Flagged, OneLineEach, P.Spaced, H.Fix, Zones, BareOutside, Neat, H.Tidy, P.OpeningsSpaced;
    var p := P.UpdatePreformatted(t);
    var h := H.UpdateHeaders(p);
    L.RunKeepsForm(t);
    SpacedZones(t, |t|, true);
    FixZones(p, |p|, true);
    SpacedBare(t, |t|);
    FixBare(p, |p|);
    assert t[..|t|] == t && p[..|p|] == p;
    P.SpacedIsFlagged(t, |t|);
    P.BlocksAreSurrounded(t);
    L.HeadersKeepSurrounded(p);
    H.HeadersAreTidy(p);
    SurroundedIsSpaced(h);
    NeatIff(h);
  }

  lemma SurroundedIsSpaced(doc: Doc)
    requires P.Surrounded(doc)
    ensures P.OpeningsSpaced(doc) && P.ClosingsSpaced(doc)
  {
  }

  lemma BlankLinesTrimmed(t: Doc)
    requires forall l :: l in t ==> W.Trimmed(l) == l
    ensures AlmostTrimmed(L.RunOnce(t))
  {
    hide W.Trimmed, W.Bare, H.Normalize, H.Fix, P.Spaced, BLANK;
    var p := P.UpdatePreformatted(t);
    var h := H.UpdateHeaders(p);
    P.SpacedLines(t, |t|);
    H.FixLines(p, |p|);
    assert t[..|t|] == t && p[..|p|] == p;
    L.BlankIsTrimmed();
    forall l | l in h
      ensures W.Trimmed(l) == l || W.Bare(l)
    {
      if l != BLANK {
        var m :| m in p && l == H.Normalize(m);
        L.NormalizeKeepsBare(m);
        if !W.Bare(m) { L.NormalizeKeepsTrimmed(m); }
      }
    }
  }

  /** The munges before analytics succeed on an orderly document; what they make is orderly, without
      headers in TOC blocks, neat and trimmed up to bare headers. */
  lemma PreparedIs(doc: Doc, lower: char -> char)
    requires Ready(doc)
    ensures var w := W.UpdateWhitespace(doc);
            && T.UpdateToc(w, lower).Ok?
            && var h := Prepared(doc, lower);
               && V.WellFormed(h) && Orderly(h, true) && Neat(h, START) && AlmostTrimmed(h)
               && (Unbalanced(h) <==> Unbalanced(doc))
               && (BareOutside(h, Outside) <==> BareOutside(w, Outside))
  {
    hide V.WellFormed, Zones, BareOutside, Neat, W.UpdateWhitespace, T.UpdateToc, L.RunOnce, AlmostTrimmed;
    hide W.Trimmed, Generated;
    var w := W.UpdateWhitespace(doc);
    TrimStep(doc);
    TocStep(w, lower);
    var t := T.UpdateToc(w, lower).doc;
    BlankLinesStep(t);
    forall l | l in t
      ensures W.Trimmed(l) == l
    {
      if Generated(l) { GeneratedIsInert(l); }
    }
    BlankLinesTrimmed(t);
  }

  // ---------- the analytics munge ----------

  lemma GeneratedAreInert(ins: Doc)
    requires forall l :: l in ins ==> Generated(l)
    ensures Inert(ins)
  {
    hide Generated, InertLine;
    forall i | 0 <= i < |ins|
      ensures InertLine(ins[i])
    {
      assert ins[i] in ins;
      GeneratedIsInert(ins[i]);
    }
  }

  lemma MarkZones(z: Zone, strict: bool)
    ensures var b, e := NewLine(BeginMark(A.ANALYTICS_TAG)), NewLine(EndMark(A.ANALYTICS_TAG));
            && After(b, z, strict) == (if z == Outside then InAnalytics else Clash)
            && After(e, z, strict) == (if z == InAnalytics then Outside else Clash)
  {
    var b, e := NewLine(BeginMark(A.ANALYTICS_TAG)), NewLine(EndMark(A.ANALYTICS_TAG));
    B.TokenMarks(A.ANALYTICS_TAG);
    NewIsPlain(BeginMark(A.ANALYTICS_TAG));
    NewIsPlain(EndMark(A.ANALYTICS_TAG));
    NoOtherMark(b);
    NoOtherMark(e);
    hide NewLine, B.IsBegin, B.IsEnd, BeginMark, EndMark, T.Listed;
  }

  lemma BlockZones(ins: Doc, z: Zone, strict: bool)
    requires Inert(ins)
    ensures Zones(A.Block(ins), z, strict) == if z == Outside then Outside else Clash
  {
    hide After, Inert, NewLine;
    var b, e := NewLine(BeginMark(A.ANALYTICS_TAG)), NewLine(EndMark(A.ANALYTICS_TAG));
    ZonesSnoc([b] + ins, e, z, strict);
    ZonesConcat([b], ins, z, strict);
    assert [b][1..] == [];
    InertZones(ins, After(b, z, strict), strict);
    MarkZones(z, strict);
    MarkZones(After(b, z, strict), strict);
  }

  lemma GapZones(kept: Doc, strict: bool)
    ensures Zones(A.Spaced(kept), Outside, strict) == Zones(kept, Outside, strict)
    ensures BareOutside(A.Spaced(kept), Outside) <==> BareOutside(kept, Outside)
  {
    hide After, Zones, BareOutside, BLANK, W.Bare;
    ZonesSnoc(kept, BLANK, Outside, strict);
    BareSnoc(kept, BLANK, Outside);
    BlankZone(Zones(kept, Outside, strict), strict);
    L.BlankIsNotBare();
  }

  lemma BracketIsNotBare(l: Line)
    requires l.data != [] && l.data[0] != '#'
    ensures !W.Bare(l)
  {
  }

  lemma BlockIsNotBare(ins: Doc, z: Zone)
    requires forall l :: l in ins ==> Generated(l) && l.data != "" && l.data[0] != '#'
    ensures !BareOutside(A.Block(ins), z) && W.NoBare(A.Block(ins))
  {
    hide W.Bare, Generated, After, NewLine;
    var b, e := NewLine(BeginMark(A.ANALYTICS_TAG)), NewLine(EndMark(A.ANALYTICS_TAG));
    MarkStarts();
    BracketIsNotBare(b);
    BracketIsNotBare(e);
    forall l | l in ins
      ensures !W.Bare(l)
    {
      BracketIsNotBare(l);
    }
    NotBareOutside(A.Block(ins), z);
  }

  lemma MarkStarts()
    ensures var b, e := NewLine(BeginMark(A.ANALYTICS_TAG)), NewLine(EndMark(A.ANALYTICS_TAG));
            b.data != "" && e.data != "" && b.data[0] == '<' && e.data[0] == '<' && W.Trimmed(b) == b && W.Trimmed(e) == e
            && !b.preformatted && !e.preformatted && !H.Fixable(b) && !H.Fixable(e)
  {
    var b, e := BeginMark(A.ANALYTICS_TAG), EndMark(A.ANALYTICS_TAG);
    assert b[|b| - 1] == " -->"[3] == '>' && e[|e| - 1] == " -->"[3];
    EndsInText(b);
    EndsInText(e);
    B.TokenMarks(A.ANALYTICS_TAG);
    NewIsPlain(b);
    NewIsPlain(e);
    hide NewLine, BeginMark, EndMark, B.IsBegin, B.IsEnd, W.Trimmed, H.Fixable;
    B.MarkText(NewLine(b), A.ANALYTICS_TAG);
    B.MarkText(NewLine(e), A.ANALYTICS_TAG);
    MarkIsPlain(NewLine(b), A.ANALYTICS_TAG);
    MarkIsPlain(NewLine(e), A.ANALYTICS_TAG);
  }

  lemma {:induction false} NotBareOutside(doc: Doc, z: Zone)
    requires W.NoBare(doc)
    ensures !BareOutside(doc, z)
  {
    hide W.Bare, After;
    if doc != [] {
      assert doc[0] in doc;
      NotBareOutside(doc[1..], After(doc[0], z, false));
    }
  }

  lemma {:induction false} ContextAfterIs(doc: Doc, i: nat)
    requires i <= |doc|
    ensures ContextAfter(doc[i..], ContextAt(doc, i)) == ContextAt(doc, |doc|)
    decreases |doc| - i
  {
    if i < |doc| {
      assert doc[i..][1..] == doc[i + 1..];
      assert Next(ContextAt(doc, i), doc[i]) == ContextAt(doc, i + 1);
      ContextAfterIs(doc, i + 1);
    }
  }

  // A blank line never closes a block.
  lemma BlankDoesNotClose(doc: Doc)
    requires doc != [] && Flagged(doc, false) && doc[|doc| - 1].data == ""
    ensures !P.Closing(doc, |doc| - 1)
  {
    hide NewLine, InlineFence;
    var n := |doc| - 1;
    assert FlaggedAt(doc, n, false);
    assert NewLine("").(preformatted := NextFlag(true, "")).preformatted == NextFlag(true, "");
    assert SkipSpace("") == "";
  }

  lemma SpacedIsNeat(kept: Doc)
    requires Flagged(kept, false) && !Unbalanced(kept) && Neat(kept, START)
    ensures var body := A.Spaced(kept);
            Neat(body, START) && (body == [] || Calm(ContextAfter(body, START)))
  {
    Blank();
    H.BlankIsNotFixable();
    hide H.Fixable, H.Fixed, BLANK, Neat, Flagged;
    var c := ContextAfter(kept, START);
    ContextAfterIs(kept, 0);
    assert kept[0..] == kept && ContextAt(kept, 0) == START;
    NeatConcat(kept, [BLANK], START);
    NeatOne(BLANK, c);
    if kept != [] && kept[|kept| - 1].data == "" { BlankDoesNotClose(kept); }
  }

  lemma NeatOne(l: Line, c: Context)
    ensures Neat([l], c) <==> NeatLine(c, l)
    ensures ContextAfter([l], c) == Next(c, l)
  {
    assert [l][1..] == [];
  }

  lemma BlockIsPlain(ins: Doc)
    requires forall l :: l in ins ==> Generated(l)
    ensures var block := A.Block(ins); forall i :: 0 <= i < |block| ==> !block[i].preformatted && !H.Fixable(block[i])
  {
    hide H.Fixable, Generated, NewLine, Inert;
    MarkStarts();
    GeneratedAreInert(ins);
    InertIsPlain(ins);
  }

  lemma BlockIsNeat(body: Doc, ins: Doc)
    requires Neat(body, START) && (body == [] || Calm(ContextAfter(body, START)))
    requires forall l :: l in ins ==> Generated(l)
    ensures Neat(body + A.Block(ins), START)
  {
    hide H.Fixable, Generated, Neat, Calm, NewLine, ContextAfter;
    BlockIsPlain(ins);
    var block := A.Block(ins);
    NeatConcat(body, block, START);
    if body == [] {
      assert body + block == block && ContextAfter(body, START) == START by { NoContext(); }
      FirstPlainLine(block[0]);
      NeatHead(block, START);
      PlainIsNeat(block[1..], Next(START, block[0]));
    } else {
      PlainIsNeat(block, ContextAfter(body, START));
    }
  }

  lemma NoContext()
    ensures ContextAfter([], START) == START
  {
  }

  lemma FirstPlainLine(l: Line)
    requires !l.preformatted && !H.Fixable(l)
    ensures NeatLine(START, l) && Calm(Next(START, l))
  {
  }

  lemma NeatHead(doc: Doc, c: Context)
    requires doc != []
    ensures Neat(doc, c) <==> NeatLine(c, doc[0]) && Neat(doc[1..], Next(c, doc[0]))
  {
  }

  // ---------- what a run on a balanced document makes ----------

  // Generated lines of an ordinary file
  ghost predicate Ordinary(ins: Doc) {
    && Plain(ins) && OneLineEach(ins) && B.NoMarks(ins, A.ANALYTICS_TAG) && A.NonePreformatted(ins)
    && forall l :: l in ins ==> Generated(l) && l.data != "" && l.data[0] != '#'
  }

  lemma LinkIsOrdinary(file: string)
    requires '\n' !in file
    ensures Ordinary(A.LinkLines(file))
  {
    hide Generated, Plain, OneLineEach, B.NoMarks, A.NonePreformatted, A.LINK_PREFIX, NewLine;
    A.LinkFile(file);
    LinkIsGenerated(file);
    A.OneLineFile(file);
    A.LinkText();
    NewIsPlain(A.LINK_PREFIX + file + A.LINK_SUFFIX);
  }

  // Lines without analytics, followed by one analytics block
  ghost predicate Good(body: Doc, ins: Doc) {
    var y := body + A.Block(ins);
    && V.WellFormed(y) && !Unbalanced(y) && Orderly(y, true) && Neat(y, START) && AlmostTrimmed(y)
    && D.Untouched(body) && A.Spaced(body) == body
  }

  lemma SpacedTwice(kept: Doc)
    requires D.Untouched(kept)
    ensures A.Spaced(A.Spaced(kept)) == A.Spaced(kept) && D.Untouched(A.Spaced(kept))
  {
    hide BLANK, B.IsMark, A.StripLinks;
    A.SpacedIsUnmarked(kept, A.ANALYTICS_TAG);
    A.StripSpaced(kept);
    Blank();
  }

  lemma OutputLines(kept: Doc, ins: Doc, h: Doc)
    requires AlmostTrimmed(h) && (forall l :: l in kept ==> l in h) && forall l :: l in ins ==> Generated(l)
    ensures AlmostTrimmed(A.Spaced(kept) + A.Block(ins))
  {
    hide W.Trimmed, W.Bare, Generated, NewLine, BLANK;
    MarkStarts();
    L.BlankIsTrimmed();
    forall l | l in ins
      ensures W.Trimmed(l) == l
    {
      GeneratedIsInert(l);
    }
  }

  // The analytics munge on what the other munges prepared
  lemma AnalyticsStep(h: Doc, ins: Doc)
    requires V.WellFormed(h) && Orderly(h, true) && Neat(h, START) && AlmostTrimmed(h) && Ordinary(ins)
    ensures B.Remove(h, A.ANALYTICS_TAG).Ok? && !A.FenceInBlock(h, false)
    ensures var kept := A.Kept(h);
            && A.UpdateWith(ins, h) == Ok(A.Spaced(kept) + A.Block(ins))
            && V.WellFormed(kept) && Orderly(kept, true) && Neat(kept, START)
            && (Unbalanced(kept) <==> Unbalanced(h)) && D.Untouched(kept)
            && (BareOutside(kept, Outside) <==> BareOutside(h, Outside))
            && forall l :: l in kept ==> l in h
  {
    hide Flagged, OneLineEach, Zones, Neat, B.RemoveScan, A.StripLinks, BareOutside, AlmostTrimmed;
    hide A.FenceInBlock, B.NoActiveMarks;
    KeptZones(h, Outside, true);
    StrictIsOrderly(h, Outside);
    KeptBare(h, Outside);
    A.KeptBalance(h);
    A.KeptFacts(h);
    A.KeptLines(h, false);
    KeptIsNeat(h, Outside, true, START, START);
    A.AnalyticsOutput(ins, h);
    var kept := A.Kept(h);
    assert OneLineEach(kept) by { SubsetIsOneLine(kept, h); }
  }

  lemma SubsetIsOneLine(a: Doc, b: Doc)
    requires OneLineEach(b) && forall l :: l in a ==> l in b
    ensures OneLineEach(a)
  {
    forall i | 0 <= i < |a|
      ensures '\n' !in a[i].data
    {
      assert a[i] in b;
    }
  }

  lemma GoodOutput(kept: Doc, ins: Doc, h: Doc)
    requires V.WellFormed(kept) && Orderly(kept, true) && Neat(kept, START) && !Unbalanced(kept) && D.Untouched(kept)
    requires AlmostTrimmed(h) && (forall l :: l in kept ==> l in h) && Ordinary(ins)
    ensures Good(A.Spaced(kept), ins)
    ensures BareOutside(A.Spaced(kept) + A.Block(ins), Outside) <==> BareOutside(kept, Outside)
  {
    hide Flagged, OneLineEach, Zones, Neat, AlmostTrimmed, BareOutside, D.Untouched, Plain, Generated;
    hide A.Spaced, A.Block, Inert, Calm;
    hide B.NoMarks, A.NonePreformatted, ContextAfter;
    var body := A.Spaced(kept);
    var y := body + A.Block(ins);
    SpacedTwice(kept);
    GapZones(kept, true);
    GapZones(kept, false);
    StrictIsOrderly(kept, Outside);
    GeneratedAreInert(ins);
    ZonesConcat(body, A.Block(ins), Outside, true);
    BlockZones(ins, Outside, true);
    BareConcat(body, A.Block(ins), Outside);
    BlockIsNotBare(ins, Outside);
    SpacedIsNeat(kept);
    BlockIsNeat(body, ins);
    OutputLines(kept, ins, h);
    PlainIsFlagged(ins, false);
    A.OutputIsFlagged(kept, ins);
    assert !Unbalanced(ins) by { PlainIsBalanced(ins); }
    D.TailFacts(kept, ins);
    assert OneLineEach(y) by { A.OneLineConcat(kept, D.Tail(kept, ins)); }
    assert !Unbalanced(y) by { EndsOutside(body, ins); }
  }

  lemma PlainIsBalanced(ins: Doc)
    requires Plain(ins)
    ensures !Unbalanced(ins)
  {
    hide Fence;
    if ins != [] { NewIsPlain(ins[|ins| - 1].data); }
  }

  lemma EndsOutside(body: Doc, ins: Doc)
    ensures !Unbalanced(body + A.Block(ins))
  {
    hide NewLine;
    MarkStarts();
  }

  function Output(doc: Doc, lower: char -> char, ins: Doc): Doc
    requires T.UpdateToc(W.UpdateWhitespace(doc), lower).Ok? && B.Remove(Prepared(doc, lower), A.ANALYTICS_TAG).Ok?
  {
    A.Spaced(A.Kept(Prepared(doc, lower))) + A.Block(ins)
  }

  /** A run on an orderly document succeeds; on a balanced one its output is orderly, neat, trimmed
      up to bare headers, and ends with the one analytics block. */
  lemma RunOnReady(doc: Doc, lower: char -> char, ins: Doc)
    requires Ready(doc) && Ordinary(ins)
    ensures T.UpdateToc(W.UpdateWhitespace(doc), lower).Ok? && B.Remove(Prepared(doc, lower), A.ANALYTICS_TAG).Ok?
    ensures var h := Prepared(doc, lower); var kept := A.Kept(h);
            && V.WellFormed(h) && !A.FenceInBlock(h, false)
            && A.UpdateWith(ins, h) == Ok(Output(doc, lower, ins))
            && (Unbalanced(h) <==> Unbalanced(doc))
            && (!Unbalanced(doc) ==>
                  && Good(A.Spaced(kept), ins)
                  && (BareOutside(Output(doc, lower, ins), Outside) <==> BareOutside(W.UpdateWhitespace(doc), Outside)))
            && V.WellFormed(kept) && Orderly(kept, true) && AlmostTrimmed(kept) && (Unbalanced(kept) <==> Unbalanced(doc))
  {
    hide V.WellFormed, Zones, Neat, AlmostTrimmed, BareOutside, D.Untouched, Ordinary, Good, Prepared, A.Kept;
    hide A.Spaced, A.Block, Ready;
    hide W.UpdateWhitespace, A.FenceInBlock, T.UpdateToc, B.Remove, A.UpdateWith;
    PreparedIs(doc, lower);
    var h := Prepared(doc, lower);
    AnalyticsStep(h, ins);
    var kept := A.Kept(h);
    assert AlmostTrimmed(kept) by { SubsetIsTrimmed(kept, h); }
    if !Unbalanced(doc) { GoodOutput(kept, ins, h); }
  }

  lemma SubsetIsTrimmed(a: Doc, b: Doc)
    requires AlmostTrimmed(b) && forall l :: l in a ==> l in b
    ensures AlmostTrimmed(a)
  {
    hide W.Trimmed, W.Bare;
  }

  lemma GoodIsReady(body: Doc, ins: Doc)
    requires Good(body, ins)
    ensures var y := body + A.Block(ins);
            Ready(y) && (BareOutside(W.UpdateWhitespace(y), Outside) <==> BareOutside(y, Outside))
  {
    hide V.WellFormed, Zones, Neat, AlmostTrimmed, BareOutside, D.Untouched, W.UpdateWhitespace, A.Spaced, A.Block;
    var y := body + A.Block(ins);
    TrimmedZones(y, Outside);
    TrimmedBare(y, Outside);
    StrictIsOrderly(y, Outside);
  }

  // ---------- the second run ----------

  // All munges leave the document alone.
  ghost predicate Settled(y: Doc, lower: char -> char, ins: Doc) {
    && W.UpdateWhitespace(y) == y && T.UpdateToc(y, lower) == Ok(y)
    && P.UpdatePreformatted(y) == y && H.UpdateHeaders(y) == y && A.UpdateWith(ins, y) == Ok(y)
  }

  lemma BareIsListed(y: Doc)
    requires V.WellFormed(y)
    ensures forall l :: l in y && W.Bare(l) ==> T.Listed(l)
  {
    hide HasLink, Contains, NextFlag;
    forall l | l in y && W.Bare(l)
      ensures T.Listed(l)
    {
      var i :| 0 <= i < |y| && y[i] == l;
      assert FlaggedAt(y, i, false);
      assert l.data[0] == '#';
    }
  }

  lemma BodyIsOutside(body: Doc, ins: Doc)
    requires Orderly(body + A.Block(ins), true) && Inert(ins)
    ensures Zones(body, Outside, true) == Outside && Zones(body, Outside, false) == Outside
  {
    hide Zones, A.Block, Inert;
    ZonesConcat(body, A.Block(ins), Outside, true);
    BlockZones(ins, Zones(body, Outside, true), true);
    StrictIsOrderly(body, Outside);
  }

  lemma GoodIsTrimmed(body: Doc, ins: Doc)
    requires Good(body, ins) && Ordinary(ins) && !BareOutside(body + A.Block(ins), Outside)
    ensures forall l :: l in body + A.Block(ins) ==> W.Trimmed(l) == l
  {
    hide V.WellFormed, Zones, Neat, BareOutside, W.Trimmed, W.Bare, Generated, A.Block, A.Spaced, Inert;
    hide Plain, OneLineEach;
    hide B.NoMarks, A.NonePreformatted, B.NoActiveMarks, T.Listed, A.StripLinks;
    var y := body + A.Block(ins);
    GeneratedAreInert(ins);
    BodyIsOutside(body, ins);
    BareConcat(body, A.Block(ins), Outside);
    BareIsListed(y);
    NoBareAtAll(body, Outside);
    BlockIsNotBare(ins, Outside);
    assert W.NoBare(y);
  }

  lemma TrimmedIsUnchanged(y: Doc)
    requires forall l :: l in y ==> W.Trimmed(l) == l
    ensures W.UpdateWhitespace(y) == y
  {
    hide W.Trimmed;
    forall i | 0 <= i < |y|
      ensures W.UpdateWhitespace(y)[i] == y[i]
    {
      assert y[i] in y;
    }
  }

  // A neat document that ends with an analytics block is left alone by the blank-line munges.
  lemma NeatIsUnchanged(body: Doc, ins: Doc)
    requires Neat(body + A.Block(ins), START) && ins != [] && forall l :: l in ins ==> Generated(l)
    ensures var y := body + A.Block(ins); P.UpdatePreformatted(y) == y && H.UpdateHeaders(y) == y
  {
    hide Neat, H.Tidy, P.Spaced, H.Fix, Generated, NewLine, H.Fixable;
    var y, block := body + A.Block(ins), A.Block(ins);
    NeatIff(y);
    BlockIsPlain(ins);
    assert forall i :: 0 <= i < |block| ==> y[|body| + i] == block[i];
    var n := |y|;
    assert y[n - 1] == block[|block| - 1] && y[n - 2] == block[|block| - 2] && y[n - 3] == block[|block| - 3];
    assert !y[n - 1].preformatted && !y[n - 2].preformatted && !y[n - 3].preformatted;
    SpacedIsSurrounded(y);
    P.PassOverSurrounded(y);
    L.TidyIsUnchanged(y);
  }

  lemma SpacedIsSurrounded(y: Doc)
    requires |y| >= 2 && !y[|y| - 2].preformatted && P.OpeningsSpaced(y) && P.ClosingsSpaced(y)
    ensures P.Surrounded(y)
  {
  }

  lemma NoTocMarks(ins: Doc)
    requires Inert(ins)
    ensures B.NoActiveMarks(A.Block(ins), T.TOC_TAG)
  {
    var b, e := NewLine(BeginMark(A.ANALYTICS_TAG)), NewLine(EndMark(A.ANALYTICS_TAG));
    B.TokenMarks(A.ANALYTICS_TAG);
    NoOtherMark(b);
    NoOtherMark(e);
    hide NewLine, B.IsBegin, B.IsEnd, BeginMark, EndMark, T.Listed;
    var block := A.Block(ins);
    forall i | 0 <= i < |block|
      ensures !B.IsMark(block[i], T.TOC_TAG)
    {
      if 0 < i < |block| - 1 { assert block[i] == ins[i - 1] && InertLine(ins[i - 1]); }
    }
  }

  // The TOC munge works on the lines before the analytics block.
  lemma TocOnBody(body: Doc, ins: Doc, toc: Doc)
    requires Orderly(body + A.Block(ins), true) && Inert(ins) && Inert(toc)
    ensures B.Update(body, T.TOC_TAG, toc).Ok?
    ensures B.Update(body + A.Block(ins), T.TOC_TAG, toc) == Ok(B.Update(body, T.TOC_TAG, toc).doc + A.Block(ins))
  {
    hide Zones, B.UpdateScan, A.Block, Inert;
    BodyIsOutside(body, ins);
    TocZones(body, Outside, toc);
    NoTocMarks(ins);
    B.UpdateCopiesUnmarked(A.Block(ins), T.TOC_TAG, toc);
    B.UpdateScanConcat(body, A.Block(ins), T.TOC_TAG, toc, false);
  }

  lemma {:induction false} NothingFloats(doc: Doc)
    ensures A.StripLinks(doc) == doc <==> forall l :: l in doc ==> !A.Floating(l)
  {
    hide A.Floating;
    if doc != [] {
      NothingFloats(doc[1..]);
      D.StrippingShrinks(doc[1..]);
      assert doc == [doc[0]] + doc[1..];
      assert doc[0] in doc;
    }
  }

  lemma EntryDoesNotFloat(l: Line)
    requires l.data == "" || l.data[0] != '['
    ensures !A.Floating(l)
  {
    hide A.LINK_PREFIX;
    A.LinkText();
  }

  // The texts of generated TOC lines
  lemma {:induction false} EntriesDoNotFloat(headers: seq<string>, lower: char -> char)
    ensures forall l :: l in T.Entries(headers, lower) ==> !A.Floating(l)
  {
    hide NewLine, A.Floating, T.EntryText, T.HasEntry;
    if headers != [] {
      var init, h := headers[..|headers| - 1], headers[|headers| - 1];
      EntriesDoNotFloat(init, lower);
      if T.HasEntry(h) {
        var used := T.Count(init, T.Base(h, lower), lower);
        EntryEnds(h, used, lower);
        NewIsPlain(T.EntryText(h, used, lower));
        EntryDoesNotFloat(NewLine(T.EntryText(h, used, lower)));
      }
    }
  }

  lemma TocDoesNotFloat(headers: seq<string>, lower: char -> char)
    ensures forall l :: l in T.Toc(headers, lower) ==> !A.Floating(l)
  {
    hide BLANK, A.Floating, T.Entries;
    EntriesDoNotFloat(headers, lower);
    A.BlankIsPlain(A.ANALYTICS_TAG);
  }

  // The TOC munge leaves nothing for the analytics munge to remove.
  lemma BodyStaysUntouched(body: Doc, toc: Doc)
    requires D.Untouched(body) && A.Spaced(body) == body && Zones(body, Outside, false) == Outside && Inert(toc)
    requires forall l :: l in toc ==> !A.Floating(l)
    ensures B.Update(body, T.TOC_TAG, toc).Ok?
    ensures var r := B.Update(body, T.TOC_TAG, toc).doc; D.Untouched(r) && A.Spaced(r) == r
  {
    hide Zones, B.UpdateScan, A.StripLinks, A.Floating, BLANK, Inert, B.IsMark;
    TocZones(body, Outside, toc);
    T.UpdatedLines(body, toc, false);
    var r := B.Update(body, T.TOC_TAG, toc).doc;
    NothingFloats(body);
    NothingFloats(r);
    forall i | 0 <= i < |r|
      ensures r[i].preformatted || !B.IsMark(r[i], A.ANALYTICS_TAG)
    {
      assert r[i] in r;
      if r[i] in body {
        var j :| 0 <= j < |body| && body[j] == r[i];
      } else {
        InertHasNoMark(toc, r[i]);
      }
    }
    if body != [] {
      TocKeepsLast(body, Outside, toc);
    } else {
      NothingUpdated(toc);
    }
  }

  lemma InertHasNoMark(ins: Doc, l: Line)
    requires Inert(ins) && l in ins
    ensures !B.IsMark(l, A.ANALYTICS_TAG)
  {
    hide B.IsMark, T.Listed;
    var i :| 0 <= i < |ins| && ins[i] == l;
    assert InertLine(ins[i]);
  }

  lemma AnalyticsOnUntouched(body: Doc, ins: Doc)
    requires D.Untouched(body) && A.Spaced(body) == body && Ordinary(ins)
    ensures A.UpdateWith(ins, body + A.Block(ins)) == Ok(body + A.Block(ins))
  {
    hide B.RemoveScan, A.StripLinks, A.Block, A.UpdateWith, Plain, OneLineEach, Generated, B.NoMarks;
    hide A.NonePreformatted, A.Absorbed;
    B.RemoveCopiesUnmarked(body, A.ANALYTICS_TAG);
    A.AnalyticsOutput(ins, body);
    A.AnalyticsIdempotentIff(ins, body);
  }

  /** From the output of one run without bare headers outside the blocks, the next run makes a
      document that all munges leave alone. */
  lemma SecondRunSettles(body: Doc, ins: Doc, lower: char -> char)
    requires Good(body, ins) && Ordinary(ins) && ins != [] && !BareOutside(body + A.Block(ins), Outside)
    ensures var y := body + A.Block(ins);
            && W.UpdateWhitespace(y) == y && T.UpdateToc(y, lower).Ok?
            && var t := T.UpdateToc(y, lower).doc;
               P.UpdatePreformatted(t) == t && H.UpdateHeaders(t) == t && Settled(t, lower, ins)
  {
    hide Zones, Neat, BareOutside, Generated, A.Block, A.Spaced, Inert, Plain, B.NoMarks, A.NonePreformatted;
    hide D.Untouched;
    hide T.Toc, T.Headers, W.UpdateWhitespace, P.UpdatePreformatted, H.UpdateHeaders, A.UpdateWith, B.Update;
    hide Flagged, OneLineEach;
    hide AlmostTrimmed;
    var y, toc := body + A.Block(ins), TocOf(body + A.Block(ins), lower);
    GoodIsTrimmed(body, ins);
    TrimmedIsUnchanged(y);
    GeneratedAreInert(ins);
    TocIsGenerated(T.Headers(y), lower);
    TocDoesNotFloat(T.Headers(y), lower);
    TocOnBody(body, ins, toc);
    BodyIsOutside(body, ins);
    BodyStaysUntouched(body, toc);
    var next := B.Update(body, T.TOC_TAG, toc).doc;
    var t := next + A.Block(ins);
    assert T.UpdateToc(y, lower) == Ok(t) by { UpdateTocIs(y, lower); }
    StrictIsOrderly(y, Outside);
    TocKeepsNeat(y, toc);
    NeatIsUnchanged(next, ins);
    AnalyticsOnUntouched(next, ins);
    TocIsStable(y, lower);
    TocLinesAreTrimmed(y, lower);
    TrimmedIsUnchanged(t);
  }

  lemma UpdateTocIs(y: Doc, lower: char -> char)
    ensures T.UpdateToc(y, lower) == B.Update(y, T.TOC_TAG, TocOf(y, lower))
  {
  }

  lemma TocKeepsNeat(y: Doc, toc: Doc)
    requires Orderly(y, false) && Inert(toc) && Flagged(y, false) && Neat(y, START)
    ensures B.Update(y, T.TOC_TAG, toc).Ok? && Neat(B.Update(y, T.TOC_TAG, toc).doc, START)
  {
    hide Zones, Neat, Inert, Flagged, B.UpdateScan;
    TocZones(y, Outside, toc);
    TocIsNeat(y, Outside, toc, START, START);
  }

  lemma TocIsStable(y: Doc, lower: char -> char)
    requires V.WellFormed(y) && Orderly(y, true) && T.UpdateToc(y, lower).Ok?
    ensures T.UpdateToc(T.UpdateToc(y, lower).doc, lower) == T.UpdateToc(y, lower)
  {
    hide Zones, T.UpdateToc, T.HeaderInBlock;
    NoHeaderInBlock(y, Outside);
    assert T.SharpHeaders(y) by { FlaggedIsSharp(y); }
    T.TocIdempotentIff(y, lower);
  }

  lemma FlaggedIsSharp(y: Doc)
    requires V.WellFormed(y)
    ensures T.SharpHeaders(y)
  {
    hide HasLink, Contains, NextFlag;
    forall i | 0 <= i < |y| && y[i].header
      ensures "#" <= y[i].data
    {
      assert FlaggedAt(y, i, false);
    }
  }

  lemma TocLinesAreTrimmed(y: Doc, lower: char -> char)
    requires T.UpdateToc(y, lower).Ok? && forall l :: l in y ==> W.Trimmed(l) == l
    ensures forall l :: l in T.UpdateToc(y, lower).doc ==> W.Trimmed(l) == l
  {
    hide W.Trimmed, B.UpdateScan, T.Toc, Generated;
    TocIsGenerated(T.Headers(y), lower);
    T.UpdatedLines(y, TocOf(y, lower), false);
    forall l | l in T.UpdateToc(y, lower).doc
      ensures W.Trimmed(l) == l
    {
      if Generated(l) { GeneratedIsInert(l); }
    }
  }

  // ---------- runs ----------

  function All(lower: char -> char, file: string): seq<V.Munge> {
    [V.BALANCE, V.WHITESPACE, V.TocMunge(lower), V.PREFORMATTED, V.HEADERS, V.AnalyticsMunge(file)]
  }

  // No munge changes a text.
  ghost predicate Unchanged(doc: Doc, lower: char -> char, ins: Doc)
    requires T.UpdateToc(W.UpdateWhitespace(doc), lower).Ok? && B.Remove(Prepared(doc, lower), A.ANALYTICS_TAG).Ok?
  {
    var w := W.UpdateWhitespace(doc);
    var t := T.UpdateToc(w, lower).doc;
    var p := P.UpdatePreformatted(t);
    && Datas(w) == Datas(doc) && Datas(t) == Datas(w) && Datas(p) == Datas(t)
    && Datas(Prepared(doc, lower)) == Datas(p) && Datas(Output(doc, lower, ins)) == Datas(Prepared(doc, lower))
  }

  lemma StepsBefore(doc: Doc, lower: char -> char)
    requires T.UpdateToc(W.UpdateWhitespace(doc), lower).Ok?
    ensures var w := W.UpdateWhitespace(doc);
            V.Run([V.BALANCE, V.WHITESPACE, V.TocMunge(lower)], doc) ==
            var t := T.UpdateToc(w, lower).doc;
            V.Report(t, Datas(w) != Datas(doc) || Datas(t) != Datas(w), Unbalanced(doc))
  {
    hide V.Run, W.UpdateWhitespace, T.UpdateToc, Datas;
    V.RunNone(doc);
    V.RunSnoc([], V.BALANCE, doc);
    V.RunSnoc([V.BALANCE], V.WHITESPACE, doc);
    V.RunSnoc([V.BALANCE, V.WHITESPACE], V.TocMunge(lower), doc);
    assert [] + [V.BALANCE] == [V.BALANCE] && [V.BALANCE] + [V.WHITESPACE] == [V.BALANCE, V.WHITESPACE];
    assert [V.BALANCE, V.WHITESPACE] + [V.TocMunge(lower)] == [V.BALANCE, V.WHITESPACE, V.TocMunge(lower)];
  }

  lemma StepsAfter(doc: Doc, lower: char -> char, file: string)
    requires T.UpdateToc(W.UpdateWhitespace(doc), lower).Ok? && B.Remove(Prepared(doc, lower), A.ANALYTICS_TAG).Ok?
    requires A.UpdateWith(A.LinkLines(file), Prepared(doc, lower)) == Ok(Output(doc, lower, A.LinkLines(file)))
    ensures V.Run(All(lower, file), doc) ==
            V.Report(Output(doc, lower, A.LinkLines(file)), !Unchanged(doc, lower, A.LinkLines(file)), Unbalanced(doc))
  {
    hide V.Run, W.UpdateWhitespace, T.UpdateToc, P.UpdatePreformatted, H.UpdateHeaders, A.UpdateWith;
    hide A.LinkLines, Datas, Output;
    StepsBefore(doc, lower);
    var a := [V.BALANCE, V.WHITESPACE, V.TocMunge(lower)];
    var b := a + [V.PREFORMATTED];
    var c := b + [V.HEADERS];
    V.RunSnoc(a, V.PREFORMATTED, doc);
    V.RunSnoc(b, V.HEADERS, doc);
    V.RunSnoc(c, V.AnalyticsMunge(file), doc);
    assert c + [V.AnalyticsMunge(file)] == All(lower, file);
  }

  /** What a run of all munges on an orderly document reports. */
  lemma AllRun(doc: Doc, lower: char -> char, file: string)
    requires Ready(doc) && '\n' !in file
    ensures T.UpdateToc(W.UpdateWhitespace(doc), lower).Ok? && B.Remove(Prepared(doc, lower), A.ANALYTICS_TAG).Ok?
    ensures V.Run(All(lower, file), doc) ==
            V.Report(Output(doc, lower, A.LinkLines(file)), !Unchanged(doc, lower, A.LinkLines(file)), Unbalanced(doc))
  {
    hide Ready, V.Run, Unchanged, Output, A.LinkLines, A.UpdateWith, Ordinary, Good, AlmostTrimmed;
    hide BareOutside, All, Orderly, V.WellFormed;
    LinkIsOrdinary(file);
    RunOnReady(doc, lower, A.LinkLines(file));
    StepsAfter(doc, lower, file);
  }

  lemma BareIsChangedByAll(doc: Doc, lower: char -> char, ins: Doc)
    requires Ready(doc) && BareOutside(W.UpdateWhitespace(doc), Outside)
    requires T.UpdateToc(W.UpdateWhitespace(doc), lower).Ok? && B.Remove(Prepared(doc, lower), A.ANALYTICS_TAG).Ok?
    ensures !Unchanged(doc, lower, ins)
  {
    hide BareOutside, W.UpdateWhitespace, T.UpdateToc, P.UpdatePreformatted, H.UpdateHeaders, Output, Flagged;
    hide OneLineEach, W.NoBare;
    hide Zones;
    var w := W.UpdateWhitespace(doc);
    TrimStep(doc);
    TocStep(w, lower);
    if W.NoBare(w) { NotBareOutside(w, Outside); }
    if Unchanged(doc, lower, ins) {
      V.SameLines(w, doc);
      V.SameLines(T.UpdateToc(w, lower).doc, w);
      L.BareIsChanged(doc);
    }
  }

  lemma SettledIsUnchanged(y: Doc, lower: char -> char, ins: Doc)
    requires Settled(y, lower, ins) && Ready(y) && Ordinary(ins)
    ensures T.UpdateToc(W.UpdateWhitespace(y), lower).Ok? && B.Remove(Prepared(y, lower), A.ANALYTICS_TAG).Ok?
    ensures Output(y, lower, ins) == y && Unchanged(y, lower, ins)
  {
    hide W.UpdateWhitespace, T.UpdateToc, P.UpdatePreformatted, H.UpdateHeaders, A.UpdateWith, Output, Ready;
    hide Ordinary, Good;
    hide B.Remove, Orderly, AlmostTrimmed, BareOutside;
    RunOnReady(y, lower, ins);
    assert Prepared(y, lower) == y;
  }

  // ---------- visits of balanced files ----------

  lemma GoodHasForm(body: Doc, ins: Doc)
    requires Good(body, ins)
    ensures var y := body + A.Block(ins); V.WellFormed(y) && !Unbalanced(y) && y != []
  {
    hide Zones, Neat, AlmostTrimmed, D.Untouched;
  }

  lemma VisitReads(munges: seq<V.Munge>, s: string)
    requires var r := V.Run(munges, Parse(s));
             V.WellFormed(r.final) && r.final != [] && (!r.modified ==> Datas(r.final) == Datas(Parse(s)))
    ensures Parse(V.VisitText(munges, s, false).text) == V.Run(munges, Parse(s)).final
  {
    hide Parse, Print, V.Run, Flagged, OneLineEach;
    var r := V.Run(munges, Parse(s));
    ParsedIsFlagged(s);
    if r.modified {
      Reread(r.final);
    } else {
      V.SameLines(r.final, Parse(s));
    }
  }

  lemma BalancedVisit(lower: char -> char, file: string, s: string)
    requires '\n' !in file && Ready(Parse(s)) && !Unbalanced(Parse(s))
    ensures T.UpdateToc(W.UpdateWhitespace(Parse(s)), lower).Ok? && B.Remove(Prepared(Parse(s), lower), A.ANALYTICS_TAG).Ok?
    ensures var ins, doc := A.LinkLines(file), Parse(s); var body := A.Spaced(A.Kept(Prepared(doc, lower)));
            && Parse(V.VisitText(All(lower, file), s, false).text) == body + A.Block(ins)
            && Output(doc, lower, ins) == body + A.Block(ins) && Good(body, ins)
            && (BareOutside(body + A.Block(ins), Outside) <==> BareOutside(W.UpdateWhitespace(doc), Outside))
  {
    hide Ready, V.Run, V.VisitText, Parse, Good, BareOutside, Ordinary, Prepared, A.LinkLines;
    hide W.UpdateWhitespace, All, A.Kept, A.Spaced;
    hide A.Block, B.Remove, T.UpdateToc, Orderly, AlmostTrimmed, V.WellFormed;
    var ins, doc := A.LinkLines(file), Parse(s);
    LinkIsOrdinary(file);
    RunOnReady(doc, lower, ins);
    AllRun(doc, lower, file);
    GoodHasForm(A.Spaced(A.Kept(Prepared(doc, lower))), ins);
    assert Unchanged(doc, lower, ins) ==> Datas(Output(doc, lower, ins)) == Datas(doc);
    VisitReads(All(lower, file), s);
  }

  /** A balanced orderly file stays one, and keeps or lacks bare headers outside its blocks, over any
      number of visits. */
  lemma {:induction false} BalancedVisits(lower: char -> char, file: string, s: string, n: nat)
    requires '\n' !in file && Ready(Parse(s)) && !Unbalanced(Parse(s))
    ensures var doc := Parse(V.Visits(All(lower, file), s, n));
            && Ready(doc) && !Unbalanced(doc)
            && (BareOutside(W.UpdateWhitespace(doc), Outside) <==> BareOutside(W.UpdateWhitespace(Parse(s)), Outside))
  {
    hide Ready, V.VisitText, Parse, Good, BareOutside, W.UpdateWhitespace, All, Prepared, A.LinkLines;
    hide A.Block, A.Spaced, A.Kept;
    if n > 0 {
      BalancedVisits(lower, file, s, n - 1);
      var t := V.Visits(All(lower, file), s, n - 1);
      BalancedVisit(lower, file, t);
      var body := A.Spaced(A.Kept(Prepared(Parse(t), lower)));
      GoodIsReady(body, A.LinkLines(file));
      GoodHasForm(body, A.LinkLines(file));
    }
  }

  lemma SettledIsReady(body: Doc, ins: Doc, lower: char -> char)
    requires Good(body, ins) && T.UpdateToc(body + A.Block(ins), lower).Ok?
    requires Settled(T.UpdateToc(body + A.Block(ins), lower).doc, lower, ins)
    ensures var t := T.UpdateToc(body + A.Block(ins), lower).doc; Ready(t) && !Unbalanced(t)
  {
    hide Zones, Neat, AlmostTrimmed, D.Untouched, A.Block, A.Spaced, T.UpdateToc, W.UpdateWhitespace;
    hide P.UpdatePreformatted, H.UpdateHeaders;
    hide A.UpdateWith, BareOutside, Generated, Flagged, OneLineEach;
    var y := body + A.Block(ins);
    StrictIsOrderly(y, Outside);
    TocStep(y, lower);
    StrictIsOrderly(T.UpdateToc(y, lower).doc, Outside);
  }

  // The second visit: from the output of the first to a settled document
  lemma SecondVisit(lower: char -> char, file: string, s: string, body: Doc)
    requires '\n' !in file && Parse(s) == body + A.Block(A.LinkLines(file)) && Good(body, A.LinkLines(file))
    requires !BareOutside(body + A.Block(A.LinkLines(file)), Outside)
    ensures var t := Parse(V.VisitText(All(lower, file), s, false).text); Settled(t, lower, A.LinkLines(file)) && Ready(t)
  {
    hide Ready, V.VisitText, Parse, Good, BareOutside, W.UpdateWhitespace, All, A.LinkLines, A.Block;
    hide A.Spaced, A.Kept, Ordinary;
    hide T.UpdateToc, P.UpdatePreformatted, H.UpdateHeaders, A.UpdateWith, B.Remove;
    var ins := A.LinkLines(file);
    var y := body + A.Block(ins);
    LinkIsOrdinary(file);
    assert ins != [] by { LinkIsThere(file); }
    GoodIsReady(body, ins);
    GoodHasForm(body, ins);
    BalancedVisit(lower, file, s);
    SecondRunSettles(body, ins, lower);
    SettledIsReady(body, ins, lower);
    var t := T.UpdateToc(y, lower).doc;
    assert Prepared(y, lower) == t;
    RunOnReady(y, lower, ins);
  }

  lemma LinkIsThere(file: string)
    requires '\n' !in file
    ensures A.LinkLines(file) != []
  {
    hide A.LINK_PREFIX, NewLine;
    A.OneLineFile(file);
  }

  lemma FirstTwoVisits(lower: char -> char, file: string, s: string)
    requires '\n' !in file && Ready(Parse(s)) && !Unbalanced(Parse(s))
    requires !BareOutside(W.UpdateWhitespace(Parse(s)), Outside)
    ensures var t := V.VisitText(All(lower, file), s, false).text;
            var doc := Parse(V.VisitText(All(lower, file), t, false).text); Settled(doc, lower, A.LinkLines(file)) && Ready(doc)
  {
    hide Ready, V.VisitText, Parse, Good, BareOutside, W.UpdateWhitespace, All, A.LinkLines, A.Block;
    hide A.Spaced, A.Kept, Settled, Prepared;
    hide Output, B.Remove, T.UpdateToc, Unbalanced;
    BalancedVisit(lower, file, s);
    SecondVisit(lower, file, V.VisitText(All(lower, file), s, false).text, A.Spaced(A.Kept(Prepared(Parse(s), lower))));
  }

  lemma SettledVisit(lower: char -> char, file: string, s: string)
    requires '\n' !in file && Ready(Parse(s)) && !Unbalanced(Parse(s)) && Settled(Parse(s), lower, A.LinkLines(file))
    ensures Parse(V.VisitText(All(lower, file), s, false).text) == Parse(s)
  {
    hide Ready, V.VisitText, Parse, Good, BareOutside, W.UpdateWhitespace, All, A.LinkLines, A.Block;
    hide A.Spaced, A.Kept, Settled, Prepared;
    hide Ordinary, Output, B.Remove, T.UpdateToc, Unchanged;
    LinkIsOrdinary(file);
    SettledIsUnchanged(Parse(s), lower, A.LinkLines(file));
    BalancedVisit(lower, file, s);
  }

  lemma {:induction false} SettledVisits(lower: char -> char, file: string, s: string, n: nat)
    requires '\n' !in file && Ready(Parse(s)) && !Unbalanced(Parse(s)) && n >= 2
    requires !BareOutside(W.UpdateWhitespace(Parse(s)), Outside)
    ensures var doc := Parse(V.Visits(All(lower, file), s, n)); Settled(doc, lower, A.LinkLines(file)) && Ready(doc)
  {
    hide Ready, V.VisitText, Parse, BareOutside, W.UpdateWhitespace, All, A.LinkLines, Settled, Unbalanced;
    var all := All(lower, file);
    if n == 2 {
      assert V.Visits(all, s, 0) == s && V.Visits(all, s, 1) == V.VisitText(all, s, false).text;
      FirstTwoVisits(lower, file, s);
    } else {
      SettledVisits(lower, file, s, n - 1);
      BalancedVisits(lower, file, s, n - 1);
      SettledVisit(lower, file, V.Visits(all, s, n - 1));
    }
  }

  // ---------- visits of unbalanced files ----------

  lemma {:induction false} PreformattedZones(tail: Doc)
    requires forall i :: 0 <= i < |tail| ==> tail[i].preformatted
    ensures Zones(tail, Outside, false) == Outside
  {
    if tail != [] { PreformattedZones(tail[1..]); }
  }

  lemma TrimConcat(a: Doc, b: Doc)
    ensures W.UpdateWhitespace(a + b) == W.UpdateWhitespace(a) + W.UpdateWhitespace(b)
  {
    hide W.Trimmed;
  }

  lemma UnbalancedIsReady(kept: Doc, tail: Doc)
    requires V.WellFormed(kept) && Orderly(kept, true) && AlmostTrimmed(kept) && Unbalanced(kept)
    requires Plain(tail) && OneLineEach(tail)
    ensures var next := kept + Reflag(tail, true); Ready(next) && Unbalanced(next)
  {
    hide Flagged, OneLineEach, Plain, Zones, AlmostTrimmed, W.Trimmed;
    var more := Reflag(tail, true);
    A.ReadBehindFence(kept, tail);
    assert OneLineEach(more) by { ReflaggedIsOneLine(tail); }
    A.OneLineConcat(kept, more);
    StrictIsOrderly(kept, Outside);
    TrimmedZones(kept, Outside);
    TrimConcat(kept, more);
    assert W.UpdateWhitespace(more) == more by { PreformattedIsTrimmed(more); }
    ZonesConcat(W.UpdateWhitespace(kept), more, Outside, false);
    PreformattedZones(more);
  }

  lemma ReflaggedIsOneLine(tail: Doc)
    requires OneLineEach(tail)
    ensures OneLineEach(Reflag(tail, true))
  {
    forall i | 0 <= i < |tail|
      ensures '\n' !in Reflag(tail, true)[i].data
    {
      assert '\n' !in tail[i].data;
    }
  }

  lemma PreformattedIsTrimmed(tail: Doc)
    requires forall i :: 0 <= i < |tail| ==> tail[i].preformatted
    ensures W.UpdateWhitespace(tail) == tail
  {
    hide NewLine;
  }

  lemma UnbalancedOutput(h: Doc, ins: Doc)
    requires V.WellFormed(h) && B.Remove(h, A.ANALYTICS_TAG).Ok? && !A.FenceInBlock(h, false)
    requires Plain(ins) && OneLineEach(ins)
    requires var kept := A.Kept(h); V.WellFormed(kept) && Orderly(kept, true) && AlmostTrimmed(kept) && Unbalanced(kept)
    ensures var next := Parse(Print(A.Spaced(A.Kept(h)) + A.Block(ins))); Ready(next) && Unbalanced(next)
  {
    hide Ready, Parse, Print, A.Kept, A.Spaced, A.Block, B.Remove, Orderly, AlmostTrimmed, A.FenceInBlock;
    hide D.ReadBack, D.Tail;
    hide Plain, Flagged, OneLineEach, D.Untouched;
    D.FencelessReadsBack(h);
    D.RereadOutput(ins, h);
    D.TailFacts(A.Kept(h), ins);
    UnbalancedIsReady(A.Kept(h), D.Tail(A.Kept(h), ins));
  }

  lemma UnbalancedVisit(lower: char -> char, file: string, s: string)
    requires '\n' !in file && Ready(Parse(s)) && Unbalanced(Parse(s))
    ensures var doc := Parse(V.VisitText(All(lower, file), s, false).text); Ready(doc) && Unbalanced(doc)
  {
    hide Ready, V.Run, Parse, Print, Good, BareOutside, Ordinary, Prepared, A.LinkLines, W.UpdateWhitespace;
    hide All, A.Kept, A.Spaced;
    hide A.Block, B.Remove, T.UpdateToc, Orderly, AlmostTrimmed, A.FenceInBlock, Unbalanced, A.UpdateWith;
    hide Unchanged, V.WellFormed;
    hide Plain, OneLineEach, B.NoMarks, A.NonePreformatted;
    var ins, doc := A.LinkLines(file), Parse(s);
    A.LinkFile(file);
    LinkIsOrdinary(file);
    RunOnReady(doc, lower, ins);
    AllRun(doc, lower, file);
    UnbalancedOutput(Prepared(doc, lower), ins);
  }

  lemma {:induction false} UnbalancedVisits(lower: char -> char, file: string, s: string, n: nat)
    requires '\n' !in file && Ready(Parse(s)) && Unbalanced(Parse(s))
    ensures var doc := Parse(V.Visits(All(lower, file), s, n)); Ready(doc) && Unbalanced(doc)
  {
    hide Ready, V.VisitText, Parse, All, Unbalanced;
    if n > 0 {
      UnbalancedVisits(lower, file, s, n - 1);
      UnbalancedVisit(lower, file, V.Visits(All(lower, file), s, n - 1));
    }
  }

  // ---------- verification ----------

  /** A file whose generated blocks keep apart once it is trimmed: after two or more visits by all
      munges it verifies if and only if it is balanced and no header of bare sharps stands outside
      its generated blocks. Otherwise it never verifies, however often it is visited. */
  lemma AllVerifyIff(lower: char -> char, file: string, s: string, n: nat)
    requires '\n' !in file && Orderly(W.UpdateWhitespace(Parse(s)), false)
    ensures var ok := V.VisitText(All(lower, file), V.Visits(All(lower, file), s, n), true).ok;
            var good := !Unbalanced(Parse(s)) && !BareOutside(W.UpdateWhitespace(Parse(s)), Outside);
            && (n >= 2 ==> (ok <==> good))
            && (!good ==> !ok)
  {
    hide V.Run, Parse, Print, BareOutside, Ordinary, Prepared, A.LinkLines, W.UpdateWhitespace, All, Orderly;
    hide Settled, Unchanged, Output;
    hide V.Visits, Flagged, OneLineEach, B.Remove, T.UpdateToc, Unbalanced;
    ParsedIsFlagged(s);
    var t, ins := V.Visits(All(lower, file), s, n), A.LinkLines(file);
    if Unbalanced(Parse(s)) {
      UnbalancedVisits(lower, file, s, n);
      AllRun(Parse(t), lower, file);
    } else {
      BalancedVisits(lower, file, s, n);
      AllRun(Parse(t), lower, file);
      if BareOutside(W.UpdateWhitespace(Parse(s)), Outside) {
        BareIsChangedByAll(Parse(t), lower, ins);
      } else if n >= 2 {
        SettledVisits(lower, file, s, n);
        LinkIsOrdinary(file);
        SettledIsUnchanged(Parse(t), lower, ins);
      }
    }
  }
}
