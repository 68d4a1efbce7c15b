/** The analytics munge on written files: when a second run leaves the file as it is. */
module AnalyticsOnDisk {
  import opened MungeLines
  import opened MacroBlocks
  import opened Analytics
  import P = Preformatted

  // The lines that a run keeps, as they are read back
  function ReadBack(doc: Doc): Doc
    requires Remove(doc, ANALYTICS_TAG).Ok?
  {
    FlagLines(Datas(Kept(doc)), false)
  }

  // A run removes no line.
  ghost predicate Untouched(doc: Doc) {
    NoActiveMarks(doc, ANALYTICS_TAG) && StripLinks(doc) == doc
  }

  // The blank line that a run adds behind these lines, or none
  function Gap(doc: Doc): Doc {
    Spaced(doc)[|doc|..]
  }

  lemma GapIs(doc: Doc)
    ensures Spaced(doc) == doc + Gap(doc) && (Gap(doc) == [] || Gap(doc) == [BLANK])
    ensures Gap(doc) == [] && doc != [] ==> doc[|doc| - 1].data == ""
  {
    hide BLANK;
  }

  // ---------- how much a run drops ----------

  // From a block that is open a removal drops at least one more mark, otherwise at least two.
  lemma {:induction false} RemovalShrinks(doc: Doc, between: bool)
    requires RemoveScan(doc, ANALYTICS_TAG, between).At?
    ensures var r := RemoveScan(doc, ANALYTICS_TAG, between);
            && |r.out| <= |doc|
            && (NoActiveMarks(doc, ANALYTICS_TAG) ==> r.between == between)
            && (!NoActiveMarks(doc, ANALYTICS_TAG) && !r.between ==> |r.out| + (if between then 1 else 2) <= |doc|)
  {
    hide IsBegin, IsEnd;
    if doc != [] {
      var l, rest := doc[0], doc[1..];
      var step := RemoveLine(l, ANALYTICS_TAG, between);
      RemovalShrinks(rest, step.between);
      if NoActiveMarks(rest, ANALYTICS_TAG) && (l.preformatted || !IsMark(l, ANALYTICS_TAG)) {
        assert doc == [l] + rest;
        assert NoActiveMarks(doc, ANALYTICS_TAG);
      }
      if NoActiveMarks(doc, ANALYTICS_TAG) {
        assert l.preformatted || !IsMark(l, ANALYTICS_TAG);
      }
    }
  }

  lemma {:induction false} StrippingShrinks(doc: Doc)
    ensures |StripLinks(doc)| <= |doc| && (|StripLinks(doc)| == |doc| ==> StripLinks(doc) == doc)
  {
    hide Floating;
    if doc != [] {
      StrippingShrinks(doc[1..]);
      assert doc == [doc[0]] + doc[1..];
    }
  }

  // A blank last line is never stripped.
  lemma {:induction false} StrippingKeepsLast(doc: Doc)
    requires doc != [] && doc[|doc| - 1].data == ""
    ensures var r := StripLinks(doc); r != [] && r[|r| - 1].data == ""
  {
    var n := |doc| - 1;
    StripLinksConcat(doc[..n], [doc[n]]);
    assert doc == doc[..n] + [doc[n]];
    assert [doc[n]][1..] == [];
    LinkText();
  }

  // ---------- a balanced file ----------

  lemma BlockIsRemoved(ins: Doc)
    requires NoMarks(ins, ANALYTICS_TAG) && NonePreformatted(ins)
    ensures RemoveScan(Block(ins), ANALYTICS_TAG, false).At? && !RemoveScan(Block(ins), ANALYTICS_TAG, false).between
    ensures StripLinks(RemoveScan(Block(ins), ANALYTICS_TAG, false).out) == []
  {
    hide Block, RemoveScan, NoMarks, NonePreformatted, Absorbed;
    UnmarkedInsert(ins);
    AbsorbedScan(ins, true);
    BlockRemoval(ins);
  }

  lemma OpenBlockClashes(gap: Doc, ins: Doc)
    requires gap == [] || gap == [BLANK]
    ensures RemoveScan(gap + Block(ins), ANALYTICS_TAG, true).Broken?
  {
    TokenMarks(ANALYTICS_TAG);
    BlankIsPlain(ANALYTICS_TAG);
    hide IsBegin, IsEnd, BeginMark, EndMark, HasLink, Contains, BLANK;
    var b := NewLine(BeginMark(ANALYTICS_TAG));
    RemoveScanConcat(gap, Block(ins), ANALYTICS_TAG, true);
    assert [BLANK][1..] == [];
    assert Block(ins)[0] == b;
  }

  lemma RemovalOf(k: Doc, gap: Doc, ins: Doc)
    requires NoMarks(ins, ANALYTICS_TAG) && NonePreformatted(ins) && (gap == [] || gap == [BLANK])
    ensures var r, all := RemoveScan(k, ANALYTICS_TAG, false), RemoveScan(k + (gap + Block(ins)), ANALYTICS_TAG, false);
            if r.At? && !r.between then all.At? && !all.between && StripLinks(all.out) == StripLinks(r.out) + gap
            else all.Broken?
  {
    hide Block, RemoveScan, StripLinks, NoMarks, NonePreformatted, BLANK;
    RemoveScanConcat(k, gap + Block(ins), ANALYTICS_TAG, false);
    var r := RemoveScan(k, ANALYTICS_TAG, false);
    if r.At? {
      if r.between {
        OpenBlockClashes(gap, ins);
      } else {
        BlockIsRemoved(ins);
        GapIsKept(gap);
        RemoveScanConcat(gap, Block(ins), ANALYTICS_TAG, false);
        var left := RemoveScan(Block(ins), ANALYTICS_TAG, false).out;
        StripLinksConcat(r.out, gap + left);
        StripLinksConcat(gap, left);
        assert StripLinks(r.out) + (gap + []) == StripLinks(r.out) + gap;
      }
    }
  }

  // What a run makes of lines followed by a block
  lemma RerunOf(k: Doc, ins: Doc)
    requires NoMarks(ins, ANALYTICS_TAG) && NonePreformatted(ins)
    ensures var next, r := Spaced(k) + Block(ins), RemoveScan(k, ANALYTICS_TAG, false);
            UpdateWith(ins, next) ==
            if r.At? && !r.between then Ok(Spaced(StripLinks(r.out) + Gap(k)) + Block(ins)) else Fail
  {
    hide Block, RemoveScan, UpdateWith, StripLinks, NoMarks, NonePreformatted, BLANK, Gap, Spaced;
    var next := Spaced(k) + Block(ins);
    GapIs(k);
    assert next == k + (Gap(k) + Block(ins));
    AnalyticsOutput(ins, next);
    RemovalOf(k, Gap(k), ins);
  }

  lemma GapIsKept(gap: Doc)
    requires gap == [] || gap == [BLANK]
    ensures RemoveScan(gap, ANALYTICS_TAG, false) == At(gap, false) && StripLinks(gap) == gap
  {
    BlankIsPlain(ANALYTICS_TAG);
    hide BLANK, IsBegin, IsEnd, LINK_PREFIX;
    assert [BLANK][1..] == [];
  }

  lemma BalancedRerun(k: Doc, ins: Doc)
    requires NoMarks(ins, ANALYTICS_TAG) && NonePreformatted(ins)
    ensures var next := Spaced(k) + Block(ins); var r := UpdateWith(ins, next);
            r.Ok? && Datas(r.doc) == Datas(next) <==> Untouched(k)
  {
    hide Block, RemoveScan, UpdateWith, StripLinks, NoMarks, NonePreformatted, NoActiveMarks, Gap;
    var r, gap := RemoveScan(k, ANALYTICS_TAG, false), Gap(k);
    GapIs(k);
    RerunOf(k, ins);
    if NoActiveMarks(k, ANALYTICS_TAG) {
      RemoveCopiesUnmarked(k, ANALYTICS_TAG);
    }
    if r.At? && !r.between {
      RemovalShrinks(k, false);
      StrippingShrinks(r.out);
      if Untouched(k) {
        assert k + gap == Spaced(k) && Spaced(Spaced(k)) == Spaced(k);
      } else {
        if gap == [] && k != [] && r.out == k { StrippingKeepsLast(k); }
        assert |Spaced(StripLinks(r.out) + gap)| < |k| + |gap|;
      }
    }
  }

  // ---------- a file that is read back unbalanced ----------

  // A text that a run drops wherever it is not preformatted
  predicate DroppedText(text: string) {
    var l := NewLine(text);
    IsMark(l, ANALYTICS_TAG) || Floating(l)
  }

  lemma DroppedIsNoFence(text: string)
    requires DroppedText(text)
    ensures !Fence(text)
  {
    hide LINK_PREFIX, BeginMark, EndMark, Fence;
    NewIsPlain(text);
    if IsMark(NewLine(text), ANALYTICS_TAG) {
      MarkText(NewLine(text), ANALYTICS_TAG);
    } else {
      FloatingIsNoFence(NewLine(text));
    }
  }

  lemma HeadLine(l: Line, flag: bool)
    requires Flagged([l], flag)
    ensures l == NewLine(l.data).(preformatted := l.preformatted) && l.preformatted == NextFlag(flag, l.data)
  {
    hide NewLine, NextFlag;
    assert FlaggedAt([l], 0, flag);
    assert NewLine(l.data).(preformatted := NextFlag(flag, l.data)).preformatted == NextFlag(flag, l.data);
  }

  // After a dropped line the next kept line has another text: a preformatted line would need a
  // kept preformatted line before it, and any other line with that text is dropped.
  lemma {:induction false} NextKept(doc: Doc, between: bool, text: string)
    requires Flagged(doc, false) && Unbalanced(doc) && DroppedText(text)
    requires RemoveScan(doc, ANALYTICS_TAG, between).At?
    ensures var x := StripLinks(RemoveScan(doc, ANALYTICS_TAG, between).out); x != [] && x[0].data != text
  {
    hide NewLine, Flagged, LINK_PREFIX, BeginMark, EndMark, Fence, InlineFence;
    var l, rest := doc[0], doc[1..];
    HeadSplit(doc, false);
    HeadLine(l, false);
    DroppedIsNoFence(text);
    NewIsPlain(l.data);
    var step := RemoveLine(l, ANALYTICS_TAG, between);
    var later := RemoveScan(rest, ANALYTICS_TAG, step.between).out;
    StripLinksConcat(step.out, later);
    assert [l][1..] == [];
    if StripLinks(step.out) == [] {
      NextKept(rest, step.between, text);
      assert [] + StripLinks(later) == StripLinks(later);
    }
  }

  // Either nothing is dropped, or the kept texts differ from the originals at some line.
  lemma {:induction false} FirstDrop(doc: Doc, flag: bool) returns (d: nat)
    requires Flagged(doc, flag) && Unbalanced(doc) && RemoveScan(doc, ANALYTICS_TAG, false).At?
    ensures var x := StripLinks(RemoveScan(doc, ANALYTICS_TAG, false).out);
            x == doc || (d < |x| && d < |doc| && x[d].data != doc[d].data)
  {
    hide NewLine, NextFlag, Flagged, LINK_PREFIX, BeginMark, EndMark;
    var l, rest := doc[0], doc[1..];
    d := 0;
    HeadSplit(doc, flag);
    HeadLine(l, flag);
    NewIsPlain(l.data);
    var step := RemoveLine(l, ANALYTICS_TAG, false);
    var later := RemoveScan(rest, ANALYTICS_TAG, step.between).out;
    StripLinksConcat(step.out, later);
    assert [l][1..] == [];
    if StripLinks(step.out) == [] {
      assert DroppedText(l.data);
      NextKept(rest, step.between, l.data);
      assert [] + StripLinks(later) == StripLinks(later);
    } else if rest != [] {
      var e := FirstDrop(rest, l.preformatted);
      d := e + 1;
      assert [l] + rest == doc;
    }
  }

  lemma AllPreformatted(tail: Doc)
    requires forall i :: 0 <= i < |tail| ==> tail[i].preformatted
    ensures forall between :: RemoveScan(tail, ANALYTICS_TAG, between) == At(tail, between)
    ensures StripLinks(tail) == tail
  {
    PreformattedIsKept(tail);
    forall between
      ensures RemoveScan(tail, ANALYTICS_TAG, between) == At(tail, between)
    {
      PreformattedIsCopied(tail, between);
    }
  }

  lemma {:induction false} PreformattedIsCopied(tail: Doc, between: bool)
    requires forall i :: 0 <= i < |tail| ==> tail[i].preformatted
    ensures RemoveScan(tail, ANALYTICS_TAG, between) == At(tail, between)
  {
    if tail != [] {
      PreformattedIsCopied(tail[1..], between);
      assert tail == [tail[0]] + tail[1..];
    }
  }

  lemma UnbalancedRerun(k: Doc, tail: Doc, ins: Doc)
    requires Flagged(k, false) && Unbalanced(k) && tail != []
    ensures var next := k + Reflag(tail, true); var r := UpdateWith(ins, next);
            !(r.Ok? && Datas(r.doc) == Datas(next))
  {
    hide Flagged, Block, RemoveScan, UpdateWith, StripLinks, BLANK;
    var more := Reflag(tail, true);
    var next := k + more;
    AllPreformatted(more);
    AnalyticsOutput(ins, next);
    RemoveScanConcat(k, more, ANALYTICS_TAG, false);
    var r := RemoveScan(k, ANALYTICS_TAG, false);
    if r.At? && !r.between {
      StripLinksConcat(r.out, more);
      var x := StripLinks(r.out);
      var d := FirstDrop(k, false);
      var again := Spaced(x + more) + Block(ins);
      assert UpdateWith(ins, next) == Ok(again);
      if x == k {
        assert |again| > |next| by { BlockIsNotEmpty(ins); }
      } else {
        assert Datas(again)[d] == x[d].data && Datas(next)[d] == k[d].data;
      }
    }
  }

  lemma BlockIsNotEmpty(ins: Doc)
    ensures |Block(ins)| > 0
  {
  }

  // ---------- every file ----------

  lemma SameDatas(a: Doc, b: Doc)
    requires Datas(a) == Datas(b)
    ensures Gap(a) == Gap(b) && |a| == |b|
  {
    hide BLANK;
    if a != [] {
      assert a[|a| - 1].data == Datas(a)[|a| - 1] == b[|b| - 1].data;
    }
  }

  // The lines that a run writes behind the kept ones
  function Tail(kept: Doc, ins: Doc): Doc {
    Gap(kept) + Block(ins)
  }

  lemma TailFacts(kept: Doc, ins: Doc)
    requires Plain(ins) && OneLineEach(ins)
    ensures Plain(Tail(kept, ins)) && OneLineEach(Tail(kept, ins)) && Tail(kept, ins) != []
    ensures Spaced(kept) + Block(ins) == kept + Tail(kept, ins)
  {
    hide Plain, OneLineEach, Opening, Closing, Spaced, Block, BLANK;
    OutputParts(kept, ins);
    TailIsPlain(kept, ins);
    GapIs(kept);
    BlockIsNotEmpty(ins);
    var out := Spaced(kept) + Block(ins);
    assert out == kept + Tail(kept, ins) && out == kept + (Opening(kept) + ins + Closing());
    assert out[|kept|..] == Tail(kept, ins) == Opening(kept) + ins + Closing();
  }

  lemma ReadBackFacts(doc: Doc)
    requires OneLineEach(doc) && Remove(doc, ANALYTICS_TAG).Ok?
    ensures var k := ReadBack(doc); Flagged(k, false) && OneLineEach(k) && Datas(k) == Datas(Kept(doc)) && Gap(k) == Gap(Kept(doc))
  {
    hide Flagged, FlagLines, Kept, Spaced, Block, RemoveScan, Gap;
    var kept, k := Kept(doc), ReadBack(doc);
    OutputIsOneLineEach([], doc);
    KeptIsPrefixOf(kept, []);
    FlagLinesIsFlagged(Datas(kept), false);
    SameDatas(k, kept);
    assert forall i :: 0 <= i < |k| ==> k[i].data == Datas(k)[i] == kept[i].data;
  }

  // How the output of a run is read back
  lemma RereadOutput(ins: Doc, doc: Doc)
    requires Flagged(doc, false) && OneLineEach(doc) && Plain(ins) && OneLineEach(ins)
    requires Remove(doc, ANALYTICS_TAG).Ok?
    ensures var k, out := ReadBack(doc), Spaced(Kept(doc)) + Block(ins);
            && Parse(Print(out)) == k + Reflag(Tail(k, ins), Unbalanced(k))
            && Datas(Parse(Print(out))) == Datas(out)
  {
    hide Flagged, OneLineEach, Plain, Parse, Print, FlagLines, Kept, Spaced, Block, RemoveScan, Gap, ReadBack;
    var kept, k := Kept(doc), ReadBack(doc);
    var out, tail := Spaced(kept) + Block(ins), Tail(kept, ins);
    OutputIsOneLineEach(ins, doc);
    ReadBackFacts(doc);
    TailFacts(kept, ins);
    Reread(out);
    assert Datas(out) == Datas(k) + Datas(tail);
    FlagLinesConcat(k, Datas(tail), false);
    PlainFlagLines(tail, Unbalanced(k));
  }

  lemma KeptIsPrefixOf(kept: Doc, ins: Doc)
    requires OneLineEach(Spaced(kept) + Block(ins))
    ensures OneLineEach(kept)
  {
    var out := Spaced(kept) + Block(ins);
    assert forall i :: 0 <= i < |kept| ==> kept[i] == out[i];
  }

  /** Running the munge again on what it wrote changes nothing if and only if the lines it kept are
      read back balanced and with nothing to remove. */
  lemma StableOnDiskIff(file: string, s: string)
    requires '\n' !in file && UpdateWith(LinkLines(file), Parse(s)).Ok?
    ensures Remove(Parse(s), ANALYTICS_TAG).Ok?
    ensures var ins := LinkLines(file); var out := UpdateWith(ins, Parse(s)).doc;
            var again := UpdateWith(ins, Parse(Print(out))); var k := ReadBack(Parse(s));
            again.Ok? && Datas(again.doc) == Datas(out) <==> !Unbalanced(k) && Untouched(k)
  {
    hide Flagged, OneLineEach, Plain, Parse, Print, UpdateWith, Kept, Block, BLANK, LinkLines, Untouched, ReadBack;
    hide NoMarks, NonePreformatted, Spaced, Tail, RemoveScan, Datas;
    var ins, doc := LinkLines(file), Parse(s);
    ParsedIsFlagged(s);
    LinkFile(file);
    SecondRun(ins, doc);
    RereadOutput(ins, doc);
    ReadBackFacts(doc);
    var k := ReadBack(doc);
    TailFacts(k, ins);
    if Unbalanced(k) {
      UnbalancedRerun(k, Tail(k, ins), ins);
    } else {
      PlainReflag(Tail(k, ins));
      BalancedRerun(k, ins);
    }
  }

  lemma PlainReflag(doc: Doc)
    requires Plain(doc)
    ensures Reflag(doc, false) == doc
  {
    hide NewLine, Fence;
    forall i | 0 <= i < |doc|
      ensures Reflag(doc, false)[i] == doc[i]
    {
      NewIsPlain(doc[i].data);
    }
  }

  // ---------- fences inside analytics blocks ----------

  /** Without a fence inside an analytics block the kept lines are read back as they were, with
      nothing to remove, and balanced exactly when the file is. */
  lemma FencelessReadsBack(doc: Doc)
    requires Flagged(doc, false) && Remove(doc, ANALYTICS_TAG).Ok? && !FenceInBlock(doc, false)
    ensures ReadBack(doc) == Kept(doc) && Untouched(ReadBack(doc)) && (Unbalanced(ReadBack(doc)) <==> Unbalanced(doc))
  {
    hide Flagged, Kept, FenceInBlock, RemoveScan, FlagLines;
    KeptBalance(doc);
    KeptFacts(doc);
    FlaggedIsUnique(Kept(doc), false);
  }

  /** On a file without fences in its analytics blocks, running the munge again on what it wrote
      changes nothing if and only if the file does not end inside a fence. Otherwise the second run
      appends a second block. */
  lemma AnalyticsStableOnDiskIff(file: string, s: string)
    requires '\n' !in file && UpdateWith(LinkLines(file), Parse(s)).Ok? && !FenceInBlock(Parse(s), false)
    ensures var ins := LinkLines(file); var out := UpdateWith(ins, Parse(s)).doc;
            var again := UpdateWith(ins, Parse(Print(out)));
            && again.Ok?
            && (Datas(again.doc) == Datas(out) <==> !Unbalanced(Parse(s)))
            && (Unbalanced(Parse(s)) ==> Datas(again.doc) == Datas(out) + Datas(Appended(ins)))
  {
    hide Flagged, OneLineEach, Parse, Print, UpdateWith, Kept, FenceInBlock, LinkLines, Untouched, ReadBack;
    hide RemoveScan;
    var ins, doc := LinkLines(file), Parse(s);
    ParsedIsFlagged(s);
    StableOnDiskIff(file, s);
    FencelessReadsBack(doc);
    if Unbalanced(doc) {
      UnbalancedAppends(file, s);
    }
  }

  lemma ReadBackIsStuck(doc: Doc)
    requires OneLineEach(doc) && Remove(doc, ANALYTICS_TAG).Ok?
    requires Unbalanced(ReadBack(doc)) && Untouched(ReadBack(doc))
    ensures Stuck(ReadBack(doc))
  {
    hide Flagged, OneLineEach, ReadBack, RemoveScan, NoActiveMarks, StripLinks;
    ReadBackFacts(doc);
  }

  // What is read back when the kept lines end inside a fence and hold nothing to remove
  lemma StuckReadBack(ins: Doc, doc: Doc)
    requires Flagged(doc, false) && OneLineEach(doc) && Plain(ins) && OneLineEach(ins)
    requires Remove(doc, ANALYTICS_TAG).Ok? && Unbalanced(ReadBack(doc)) && Untouched(ReadBack(doc))
    ensures var out := Spaced(Kept(doc)) + Block(ins); var next := Parse(Print(out));
            Stuck(next) && Datas(next) == Datas(out) && Spaced(next) == next + [BLANK]
  {
    hide Flagged, OneLineEach, Plain, Parse, Print, FlagLines, Kept, Block, RemoveScan, ReadBack, Untouched;
    hide Stuck, BLANK, Spaced;
    var k, kept := ReadBack(doc), Kept(doc);
    ReadBackIsStuck(doc);
    StuckRun(ins, k);
    RereadOutput(ins, doc);
    OutputIsOneLineEach(ins, doc);
    ReadBackFacts(doc);
    TailFacts(k, ins);
    TailFacts(kept, ins);
    assert Datas(Spaced(k) + Block(ins)) == Datas(Spaced(kept) + Block(ins)) by {
      assert Datas(k + Tail(k, ins)) == Datas(k) + Datas(Tail(k, ins));
      assert Datas(kept + Tail(k, ins)) == Datas(kept) + Datas(Tail(k, ins));
    }
    assert OneLineEach(Spaced(k) + Block(ins)) by { OneLineConcat(k, Tail(k, ins)); }
    Reread(Spaced(k) + Block(ins));
    Reread(Spaced(kept) + Block(ins));
  }

  /** Then the second run appends a second block. */
  lemma UnbalancedAppends(file: string, s: string)
    requires '\n' !in file && UpdateWith(LinkLines(file), Parse(s)).Ok? && Remove(Parse(s), ANALYTICS_TAG).Ok?
    requires Unbalanced(ReadBack(Parse(s))) && Untouched(ReadBack(Parse(s)))
    ensures var ins := LinkLines(file); var out := UpdateWith(ins, Parse(s)).doc;
            var again := UpdateWith(ins, Parse(Print(out)));
            again.Ok? && Datas(again.doc) == Datas(out) + Datas(Appended(ins))
  {
    hide Flagged, OneLineEach, Plain, Parse, Print, UpdateWith, Kept, Block, BLANK, LinkLines, Untouched;
    hide ReadBack, Stuck;
    hide Spaced, RemoveScan;
    var ins, doc := LinkLines(file), Parse(s);
    ParsedIsFlagged(s);
    LinkFile(file);
    SecondRun(ins, doc);
    StuckReadBack(ins, doc);
    var next := Parse(Print(UpdateWith(ins, doc).doc));
    StuckRun(ins, next);
    assert Spaced(next) + Block(ins) == next + Appended(ins);
    assert Datas(next + Appended(ins)) == Datas(next) + Datas(Appended(ins));
  }

  // An analytics block around a preformatted block
  function FencedBlock(): Doc {
    [NewLine(BeginMark(ANALYTICS_TAG))] + P.OneBlock() + [NewLine(EndMark(ANALYTICS_TAG))]
  }

  lemma FencedBlockParses()
    ensures Parse(Print(FencedBlock())) == FencedBlock() && !Unbalanced(FencedBlock())
  {
    hide NewLine, Flagged, OneLineEach, Plain, Parse, Print, BeginMark, EndMark, ANALYTICS_TAG, P.OneBlock;
    TagIsOneLine();
    MarkLines(ANALYTICS_TAG);
    P.OneBlockIsFlagged();
    P.OneBlockFlags();
    var b, c, e := [NewLine(BeginMark(ANALYTICS_TAG))], P.OneBlock(), [NewLine(EndMark(ANALYTICS_TAG))];
    PlainIsFlagged(b, false);
    PlainIsFlagged(e, false);
    FlaggedConcat(b, c, false);
    FlaggedConcat(b + c, e, false);
    OneLineConcat(b, c);
    OneLineConcat(b + c, e);
    Reread(FencedBlock());
  }

  lemma FenceIsNoMark(l: Line)
    requires l.data == "```" || l.data == "x"
    ensures !IsBegin(l, ANALYTICS_TAG) && !IsEnd(l, ANALYTICS_TAG)
  {
    hide Contains;
    if IsMark(l, ANALYTICS_TAG) { MarkText(l, ANALYTICS_TAG); }
  }

  lemma BlockOfThree(b: Line, c: Doc, e: Line)
    requires |c| == 3 && !b.preformatted && c[0].preformatted && c[1].preformatted && !c[2].preformatted && !e.preformatted
    requires IsBegin(b, ANALYTICS_TAG) && !IsMark(c[2], ANALYTICS_TAG) && IsEnd(e, ANALYTICS_TAG) && !IsBegin(e, ANALYTICS_TAG)
    ensures RemoveScan([b] + c + [e], ANALYTICS_TAG, false) == At(c[..2], false)
  {
    hide IsBegin, IsEnd, ANALYTICS_TAG;
    var d := [b] + c + [e];
    assert [e][1..] == [];
    assert RemoveScan([e], ANALYTICS_TAG, true) == At([], false);
    assert d[4..] == [e] && d[3..][1..] == d[4..] && d[3..][0] == c[2];
    assert RemoveScan(d[3..], ANALYTICS_TAG, true) == At([], false);
    assert d[2..][1..] == d[3..] && d[2..][0] == c[1];
    assert RemoveScan(d[2..], ANALYTICS_TAG, true) == At([c[1]], false);
    assert d[1..][1..] == d[2..] && d[1..][0] == c[0];
    assert RemoveScan(d[1..], ANALYTICS_TAG, true) == At([c[0], c[1]], false);
    assert c[..2] == [c[0], c[1]];
  }

  // Removal keeps the preformatted lines and drops the closing fence.
  lemma FencedBlockKept()
    ensures Remove(FencedBlock(), ANALYTICS_TAG).Ok? && Kept(FencedBlock()) == P.OneBlock()[..2]
  {
    hide NewLine, IsBegin, IsEnd, BeginMark, EndMark, ANALYTICS_TAG, P.OneBlock, RemoveScan, StripLinks;
    TokenMarks(ANALYTICS_TAG);
    NewIsPlain(BeginMark(ANALYTICS_TAG));
    NewIsPlain(EndMark(ANALYTICS_TAG));
    P.OneBlockFlags();
    var c := P.OneBlock();
    FenceIsNoMark(c[2]);
    BlockOfThree(NewLine(BeginMark(ANALYTICS_TAG)), c, NewLine(EndMark(ANALYTICS_TAG)));
    PreformattedIsKept(c[..2]);
  }

  /** A balanced file with an ordinary name that a second run changes. */
  lemma FencedBlockIsUnstable(file: string)
    requires '\n' !in file
    ensures var s, ins := Print(FencedBlock()), LinkLines(file); var out := UpdateWith(ins, Parse(s));
            && !Unbalanced(Parse(s)) && out.Ok?
            && var again := UpdateWith(ins, Parse(Print(out.doc))); !(again.Ok? && Datas(again.doc) == Datas(out.doc))
  {
    hide Parse, Print, UpdateWith, LinkLines, FencedBlock, P.OneBlock, Kept, Untouched, RemoveScan, FlagLines;
    hide Flagged;
    var doc, c := FencedBlock(), P.OneBlock();
    FencedBlockParses();
    FencedBlockKept();
    AnalyticsOutput(LinkLines(file), doc);
    P.OneBlockIsFlagged();
    P.OneBlockFlags();
    FlaggedConcat(c[..2], c[2..], false);
    assert c[..2] + c[2..] == c;
    FlaggedIsUnique(c[..2], false);
    assert Unbalanced(ReadBack(doc));
    StableOnDiskIff(file, Print(doc));
  }
}
