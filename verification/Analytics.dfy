/** The analytics munge: strip every analytics link, then append one freshly generated block. */
module Analytics {
  import opened Options
  import opened Text
  import opened MungeLines
  import opened MacroBlocks

  const ANALYTICS_TAG := "GENERATED_ANALYTICS"
  const LINK_OPEN := "[![Analytics]("
  const LINK_SITE := "https://kubernetes-site.appspot.com"
  const LINK_PATH := "/UA-36037335-10/GitHub/"
  const LINK_PREFIX := LINK_OPEN + LINK_SITE + LINK_PATH
  const LINK_SUFFIX := "?pixel)]()"

  // A link outside any munge block, left by an earlier version or by hand
  predicate Floating(l: Line) {
    !l.preformatted && !l.header && !l.beginTag && !l.endTag && LINK_PREFIX <= l.data
  }

  function StripLinks(doc: Doc): Doc {
    if doc == [] then []
    else if Floating(doc[0]) then StripLinks(doc[1..])
    else [doc[0]] + StripLinks(doc[1..])
  }

  // The generated lines for a file, given its path relative to the repository
  function LinkLines(file: string): Doc {
    Parse(LINK_PREFIX + file + LINK_SUFFIX)
  }

  function UpdateWith(ins: Doc, doc: Doc): Result {
    match Remove(doc, ANALYTICS_TAG)
    case Fail => Fail
    case Ok(removed) => Update(AppendMacroBlock(StripLinks(removed), ANALYTICS_TAG), ANALYTICS_TAG, ins)
  }

  // ---------- the loop ----------

  method StripLoop(mlines: Doc) returns (out: Doc)
    ensures out == StripLinks(mlines)
  {
    out := [];
    for i := 0 to |mlines|
      invariant out == StripLinks(mlines[..i])
    {
      var mline := mlines[i];
      StripLinksConcat(mlines[..i], [mline]);
      assert mlines[..i + 1] == mlines[..i] + [mline];
      assert [mline][1..] == [];
      if mline.preformatted || mline.header || mline.beginTag || mline.endTag {
        out := out + [mline];
        continue;
      }
      if LINK_PREFIX <= mline.data {
        continue;
      }
      out := out + [mline];
    }
    assert mlines[..|mlines|] == mlines;
  }

  lemma {:induction false} StripLinksConcat(a: Doc, b: Doc)
    ensures StripLinks(a + b) == StripLinks(a) + StripLinks(b)
  {
    hide Floating;
    if a == [] {
      assert a + b == b;
    } else {
      var l, rest := a[0], a[1..];
      StripLinksConcat(rest, b);
      assert (a + b)[0] == l && (a + b)[1..] == rest + b;
      var x, y := StripLinks(rest), StripLinks(b);
      if Floating(l) {
        assert StripLinks(a + b) == StripLinks(rest + b);
      } else {
        assert StripLinks(a + b) == [l] + StripLinks(rest + b);
        assert [l] + (x + y) == [l] + x + y;
      }
    }
  }

  lemma {:induction false} StripLinksFacts(doc: Doc, token: string)
    requires NoActiveMarks(doc, token)
    ensures NoActiveMarks(StripLinks(doc), token)
    ensures StripLinks(StripLinks(doc)) == StripLinks(doc)
  {
    hide Floating, IsMark;
    if doc != [] {
      assert NoActiveMarks(doc[1..], token);
      StripLinksFacts(doc[1..], token);
      if !Floating(doc[0]) {
        var rest := StripLinks(doc[1..]);
        assert StripLinks(doc) == [doc[0]] + rest;
        assert ([doc[0]] + rest)[1..] == rest;
      }
    }
  }

  // ---------- the form of the output ----------

  function Block(ins: Doc): Doc {
    [NewLine(BeginMark(ANALYTICS_TAG))] + ins + [NewLine(EndMark(ANALYTICS_TAG))]
  }

  function Spaced(doc: Doc): Doc {
    if |doc| > 0 && doc[|doc| - 1].data != "" then doc + [BLANK] else doc
  }

  lemma BlankIsPlain(token: string)
    ensures BLANK.data == "" && !BLANK.preformatted && !IsMark(BLANK, token) && !Floating(BLANK)
  {
    hide HasLink, Contains;
    assert |BeginMark(token)| > 0 && |EndMark(token)| > 0;
  }

  lemma SpacedIsUnmarked(doc: Doc, token: string)
    requires NoActiveMarks(doc, token)
    ensures NoActiveMarks(Spaced(doc), token)
  {
    hide IsMark;
    BlankIsPlain(token);
  }

  lemma UpdateFreshBlock(ins: Doc)
    ensures UpdateScan([NewLine(BeginMark(ANALYTICS_TAG)), NewLine(EndMark(ANALYTICS_TAG))], ANALYTICS_TAG, ins, false)
            == At(Block(ins), false)
  {
    TokenMarks(ANALYTICS_TAG);
    hide IsBegin, IsEnd, BeginMark, EndMark, HasLink, Contains;
    var b, e := NewLine(BeginMark(ANALYTICS_TAG)), NewLine(EndMark(ANALYTICS_TAG));
    assert [b, e][1..] == [e] && [e][1..] == [];
    assert UpdateScan([e], ANALYTICS_TAG, ins, true) == Then(ins + [e], At([], false)) == At(ins + [e], false);
    assert [b] + (ins + [e]) == Block(ins);
  }

  /** A successful run keeps the document without its analytics blocks and floating links, in
      order, followed by exactly one analytics block. It fails exactly when removal does. */
  lemma AnalyticsOutput(ins: Doc, doc: Doc)
    ensures UpdateWith(ins, doc) ==
            match Remove(doc, ANALYTICS_TAG)
            case Fail => Fail
            case Ok(removed) => Ok(Spaced(StripLinks(removed)) + Block(ins))
  {
    hide IsBegin, IsEnd, BeginMark, EndMark, HasLink, Contains;
    if Remove(doc, ANALYTICS_TAG).Ok? {
      RemovedIsUnmarked(doc, ANALYTICS_TAG, false);
      var kept := StripLinks(Remove(doc, ANALYTICS_TAG).doc);
      StripLinksFacts(Remove(doc, ANALYTICS_TAG).doc, ANALYTICS_TAG);
      SpacedIsUnmarked(kept, ANALYTICS_TAG);
      UpdateCopiesUnmarked(Spaced(kept), ANALYTICS_TAG, ins);
      var emptyBlock := [NewLine(BeginMark(ANALYTICS_TAG)), NewLine(EndMark(ANALYTICS_TAG))];
      UpdateScanConcat(Spaced(kept), emptyBlock, ANALYTICS_TAG, ins, false);
      UpdateFreshBlock(ins);
      assert AppendMacroBlock(kept, ANALYTICS_TAG) == Spaced(kept) + emptyBlock;
    }
  }

  /** A line is dropped when it is unflagged and starts with the link, whatever follows. */
  lemma StripsLinks(doc: Doc, l: Line)
    ensures StripLinks([]) == []
    ensures StripLinks(doc + [l]) ==
            if !l.preformatted && !l.header && !l.beginTag && !l.endTag
               && "[![Analytics](" + "https://kubernetes-site.appspot.com" + "/UA-36037335-10/GitHub/" <= l.data
            then StripLinks(doc) else StripLinks(doc) + [l]
  {
    StripLinksConcat(doc, [l]);
    assert [l][1..] == [];
  }

  /** The output, line by line: what is kept, a blank line unless there is one, and the block. */
  lemma OutputReads(ins: Doc, doc: Doc)
    requires Remove(doc, ANALYTICS_TAG).Ok?
    ensures var kept := StripLinks(Remove(doc, ANALYTICS_TAG).doc);
            UpdateWith(ins, doc) ==
            Ok(kept + (if kept == [] || kept[|kept| - 1].data == "" then [] else [NewLine("")]) +
               [NewLine("<!-- BEGIN MUNGE: " + "GENERATED_ANALYTICS" + " -->")] + ins +
               [NewLine("<!-- END MUNGE: " + "GENERATED_ANALYTICS" + " -->")])
  {
    hide NewLine, Remove, StripLinks, UpdateWith;
    AnalyticsOutput(ins, doc);
    MarksAre(ANALYTICS_TAG);
    hide BeginMark, EndMark;
  }

  /** The munge, given the path relative to the repository or nothing when it cannot be computed. A
      failing removal returns the nil document that took the place of the input. */
  method UpdateAnalytics(relative: Option<string>, mlines: Doc) returns (after: Doc, failed: bool)
    ensures relative.None? ==> after == mlines && failed
    ensures relative.Some? ==>
              match UpdateWith(LinkLines(relative.value), mlines)
              case Ok(out) => after == out && !failed
              case Fail => after == [] && failed
  {
    hide LinkLines;
    if relative.None? {
      return mlines, true;
    }
    var insertLines := GetMungeLines(LINK_PREFIX + relative.value + LINK_SUFFIX);
    assert insertLines == LinkLines(relative.value) by { LinkLinesParse(relative.value); }
    AnalyticsOutput(insertLines, mlines);
    var removed := RemoveMacroBlock(ANALYTICS_TAG, mlines);
    if removed.Fail? {
      return [], true;
    }
    var out := StripLoop(removed.doc);
    out := AppendMacroBlock(out, ANALYTICS_TAG);
    var updated := UpdateMacroBlock(out, ANALYTICS_TAG, insertLines);
    return updated.doc, false;
  }

  lemma LinkLinesParse(file: string)
    ensures LinkLines(file) == Parse(LINK_PREFIX + file + LINK_SUFFIX)
  {
  }

  // ---------- running it again ----------

  // Removal leaves nothing of generated lines: none is preformatted, their marks alternate, and
  // what stands outside a block is a floating link.
  predicate Absorbed(ins: Doc, between: bool) {
    if ins == [] then between else
    var l := ins[0];
    && !l.preformatted
    && if IsBegin(l, ANALYTICS_TAG) then !between && Absorbed(ins[1..], true)
       else if IsEnd(l, ANALYTICS_TAG) then between && Absorbed(ins[1..], false)
       else (between || Floating(l)) && Absorbed(ins[1..], between)
  }

  ghost predicate NonePreformatted(ins: Doc) {
    forall i :: 0 <= i < |ins| ==> !ins[i].preformatted
  }

  lemma {:induction false} AbsorbedScan(ins: Doc, between: bool)
    ensures var r := RemoveScan(ins, ANALYTICS_TAG, between);
            r.At? && r.between && StripLinks(r.out) == [] <==> Absorbed(ins, between)
  {
    hide IsBegin, IsEnd, LINK_PREFIX;
    if ins != [] {
      var first := RemoveLine(ins[0], ANALYTICS_TAG, between);
      if first.At? {
        AbsorbedScan(ins[1..], first.between);
        assert [ins[0]][1..] == [];
        var rest := RemoveScan(ins[1..], ANALYTICS_TAG, first.between);
        if rest.At? {
          StripLinksConcat(first.out, rest.out);
        }
      }
    }
  }

  lemma {:induction false} UnmarkedInsert(ins: Doc)
    requires NoMarks(ins, ANALYTICS_TAG)
    ensures RemoveScan(ins, ANALYTICS_TAG, true).At? && RemoveScan(ins, ANALYTICS_TAG, true).between
    ensures Absorbed(ins, true) <==> NonePreformatted(ins)
  {
    hide IsMark, LINK_PREFIX;
    if ins != [] {
      assert !IsMark(ins[0], ANALYTICS_TAG) && NoMarks(ins[1..], ANALYTICS_TAG);
      NotAMark(ins[0]);
      UnmarkedInsert(ins[1..]);
      hide IsBegin, IsEnd, NoMarks;
      if NonePreformatted(ins[1..]) && !ins[0].preformatted {
        assert ins == [ins[0]] + ins[1..];
      }
    }
  }

  lemma NotAMark(l: Line)
    requires !IsMark(l, ANALYTICS_TAG)
    ensures !IsBegin(l, ANALYTICS_TAG) && !IsEnd(l, ANALYTICS_TAG)
  {
  }

  lemma BlockRemoval(ins: Doc)
    ensures RemoveScan(Block(ins), ANALYTICS_TAG, false) ==
            match RemoveScan(ins, ANALYTICS_TAG, true)
            case Broken => Broken
            case At(left, between) => if between then At(left, false) else Broken
  {
    TokenMarks(ANALYTICS_TAG);
    hide IsBegin, IsEnd, BeginMark, EndMark, HasLink, Contains;
    var b, e := NewLine(BeginMark(ANALYTICS_TAG)), NewLine(EndMark(ANALYTICS_TAG));
    assert [b][1..] == [] && [e][1..] == [];
    RemoveScanConcat(ins, [e], ANALYTICS_TAG, true);
    RemoveScanConcat([b], ins + [e], ANALYTICS_TAG, false);
    assert [b] + (ins + [e]) == Block(ins);
  }

  // The lines that a run keeps
  function Kept(doc: Doc): Doc
    requires Remove(doc, ANALYTICS_TAG).Ok?
  {
    StripLinks(Remove(doc, ANALYTICS_TAG).doc)
  }

  lemma KeptIs(doc: Doc)
    requires Remove(doc, ANALYTICS_TAG).Ok?
    ensures Kept(doc) == StripLinks(Remove(doc, ANALYTICS_TAG).doc)
  {
  }

  lemma KeptFacts(doc: Doc)
    requires Remove(doc, ANALYTICS_TAG).Ok?
    ensures NoActiveMarks(Kept(doc), ANALYTICS_TAG) && NoActiveMarks(Spaced(Kept(doc)), ANALYTICS_TAG)
    ensures StripLinks(Kept(doc)) == Kept(doc) && StripLinks(Spaced(Kept(doc))) == Spaced(Kept(doc))
  {
    hide IsMark, Floating;
    var removed := Remove(doc, ANALYTICS_TAG).doc;
    RemovedIsUnmarked(doc, ANALYTICS_TAG, false);
    StripLinksFacts(removed, ANALYTICS_TAG);
    SpacedIsUnmarked(Kept(doc), ANALYTICS_TAG);
    StripSpaced(Kept(doc));
  }

  lemma StripSpaced(kept: Doc)
    requires StripLinks(kept) == kept
    ensures StripLinks(Spaced(kept)) == Spaced(kept)
  {
    BlankIsPlain(ANALYTICS_TAG);
    StripLinksConcat(kept, [BLANK]);
    assert [BLANK][1..] == [];
    assert StripLinks([BLANK]) == [BLANK];
  }

  lemma SecondRun(ins: Doc, doc: Doc)
    requires UpdateWith(ins, doc).Ok?
    ensures Remove(doc, ANALYTICS_TAG).Ok? && UpdateWith(ins, doc).doc == Spaced(Kept(doc)) + Block(ins)
    ensures UpdateWith(ins, UpdateWith(ins, doc).doc) ==
            match RemoveScan(ins, ANALYTICS_TAG, true)
            case Broken => Fail
            case At(left, between) =>
              if between then Ok(Spaced(Spaced(Kept(doc)) + StripLinks(left)) + Block(ins)) else Fail
  {
    hide Block, IsMark, Floating, RemoveScan, UpdateWith;
    AnalyticsOutput(ins, doc);
    KeptFacts(doc);
    var body := Spaced(Kept(doc));
    AnalyticsOutput(ins, body + Block(ins));
    RemoveCopiesUnmarked(body, ANALYTICS_TAG);
    RemoveScanConcat(body, Block(ins), ANALYTICS_TAG, false);
    BlockRemoval(ins);
    var r := RemoveScan(ins, ANALYTICS_TAG, true);
    if r.At? && r.between {
      StripLinksConcat(body, r.out);
    }
  }

  /** Running the munge on its own output changes nothing if and only if the generated lines are
      absorbed; for lines without analytics marks, if and only if none of them is preformatted. */
  lemma AnalyticsIdempotentIff(ins: Doc, doc: Doc)
    requires UpdateWith(ins, doc).Ok?
    ensures UpdateWith(ins, UpdateWith(ins, doc).doc) == UpdateWith(ins, doc) <==> Absorbed(ins, true)
    ensures NoMarks(ins, ANALYTICS_TAG) ==> (Absorbed(ins, true) <==> NonePreformatted(ins))
  {
    hide Block, RemoveScan, UpdateWith, Absorbed, NoMarks, NonePreformatted;
    SecondRun(ins, doc);
    AbsorbedScan(ins, true);
    var r, body := RemoveScan(ins, ANALYTICS_TAG, true), Spaced(Kept(doc));
    if r.At? && r.between {
      if StripLinks(r.out) == [] {
        assert body + StripLinks(r.out) == body && Spaced(body) == body;
      } else {
        assert |Spaced(body + StripLinks(r.out))| > |body|;
      }
    }
    if NoMarks(ins, ANALYTICS_TAG) { UnmarkedInsert(ins); }
  }

  /** When a generated line is preformatted, every run in memory succeeds and adds lines. */
  lemma PreformattedInsertGrows(ins: Doc, doc: Doc)
    requires UpdateWith(ins, doc).Ok? && NoMarks(ins, ANALYTICS_TAG) && !NonePreformatted(ins)
    ensures UpdateWith(ins, UpdateWith(ins, doc).doc).Ok?
    ensures |UpdateWith(ins, UpdateWith(ins, doc).doc).doc| > |UpdateWith(ins, doc).doc|
  {
    hide Block, RemoveScan, UpdateWith, Absorbed, NoMarks, NonePreformatted;
    SecondRun(ins, doc);
    AbsorbedScan(ins, true);
    UnmarkedInsert(ins);
  }

  // ---------- the generated line of a file ----------

  lemma SiteText()
    ensures '\n' !in LINK_SITE
  {
  }

  lemma PathText()
    ensures '\n' !in LINK_PATH
  {
  }

  lemma LinkText()
    ensures LINK_PREFIX != [] && LINK_PREFIX[0] == '['
    ensures '\n' !in LINK_PREFIX && '\n' !in LINK_SUFFIX
  {
    hide LINK_SITE, LINK_PATH;
    SiteText();
    PathText();
    assert '\n' !in LINK_OPEN && LINK_OPEN[0] == '[';
  }

  lemma NotAFence(s: string)
    requires s != [] && s[0] == '['
    ensures !Fence(s) && !InlineFence(s)
  {
    assert SkipSpace(s) == s;
  }

  lemma OneLineFile(file: string)
    requires '\n' !in file
    ensures LinkLines(file) == [NewLine(LINK_PREFIX + file + LINK_SUFFIX)]
  {
    LinkText();
    var s := LINK_PREFIX + file + LINK_SUFFIX;
    SplitOne(s, '\n');
    NotAFence(s);
    hide Fence, InlineFence, NewLine;
    assert [s][1..] == [];
    assert SplitLines(s) == [s];
    assert FlagLines([s], false) == [NewLine(s).(preformatted := false)] + FlagLines([], false);
    assert NewLine(s).(preformatted := false) == NewLine(s) by { NewIsPlain(s); }
  }

  /** The generated line of a file whose name has no line break. */
  lemma LinkLineReads(file: string)
    requires '\n' !in file
    ensures LinkLines(file) ==
            [NewLine("[![Analytics](" + "https://kubernetes-site.appspot.com" + "/UA-36037335-10/GitHub/" + file + "?pixel)]()")]
  {
    hide NewLine, LinkLines;
    OneLineFile(file);
  }

  lemma LinkFile(file: string)
    requires '\n' !in file
    ensures Plain(LinkLines(file)) && OneLineEach(LinkLines(file))
    ensures NoMarks(LinkLines(file), ANALYTICS_TAG) && NonePreformatted(LinkLines(file))
  {
    OneLineFile(file);
    LinkText();
    var s := LINK_PREFIX + file + LINK_SUFFIX;
    NotAFence(s);
    NewIsPlain(s);
    if IsMark(NewLine(s), ANALYTICS_TAG) { MarkText(NewLine(s), ANALYTICS_TAG); }
  }

  /** For every file name without a line break, the munge is idempotent in memory. */
  lemma AnalyticsIdempotent(file: string, doc: Doc)
    requires '\n' !in file && UpdateWith(LinkLines(file), doc).Ok?
    ensures UpdateWith(LinkLines(file), UpdateWith(LinkLines(file), doc).doc) == UpdateWith(LinkLines(file), doc)
  {
    hide LinkLines, UpdateWith, Absorbed, NoMarks, NonePreformatted;
    LinkFile(file);
    AnalyticsIdempotentIff(LinkLines(file), doc);
  }

  const BROKEN_NAME := "a\n```.md"

  lemma BrokenNameText()
    ensures '\n' !in LINK_PREFIX + "a" && '\n' !in "```.md" + LINK_SUFFIX
    ensures LINK_PREFIX + BROKEN_NAME + LINK_SUFFIX == (LINK_PREFIX + "a") + ['\n'] + ("```.md" + LINK_SUFFIX)
  {
    LinkText();
    assert BROKEN_NAME == "a" + ['\n'] + "```.md";
  }

  lemma BrokenNameLines()
    ensures var ins := LinkLines(BROKEN_NAME);
            |ins| == 2 && ins[1].preformatted && NoMarks(ins, ANALYTICS_TAG)
  {
    hide LINK_PREFIX, LINK_SUFFIX, BROKEN_NAME, Fence, InlineFence, HasLink, Contains, SplitLines;
    var first, second := LINK_PREFIX + "a", "```.md" + LINK_SUFFIX;
    BrokenNameText();
    LinkText();
    TwoLines(first, second);
    NotAFence(first);
    OpensFence();
    var ins := LinkLines(BROKEN_NAME);
    assert [first, second][1..] == [second] && [second][1..] == [];
    assert FlagLines([second], false)[0].preformatted;
    assert ins[0].data == first && ins[1].data == second;
    forall i | 0 <= i < |ins| && IsMark(ins[i], ANALYTICS_TAG)
      ensures false
    {
      MarkText(ins[i], ANALYTICS_TAG);
    }
  }

  lemma SuffixHasNoTicks()
    ensures '`' !in LINK_SUFFIX
  {
  }

  lemma OpensFence()
    ensures Fence("```.md" + LINK_SUFFIX) && !InlineFence("```.md" + LINK_SUFFIX)
  {
    hide LINK_SUFFIX, Fence, InlineFence;
    SuffixHasNoTicks();
    assert '`' !in ".md";
    assert "```.md" + LINK_SUFFIX == "```" + (".md" + LINK_SUFFIX);
    OneFence(".md" + LINK_SUFFIX);
  }

  /** The name of a markdown file with a line break and a fence: on every document, each run in
      memory adds lines. */
  lemma LineBreakNameGrows(doc: Doc)
    requires UpdateWith(LinkLines(BROKEN_NAME), doc).Ok?
    ensures var ins := LinkLines(BROKEN_NAME); var again := UpdateWith(ins, UpdateWith(ins, doc).doc);
            again.Ok? && |again.doc| > |UpdateWith(ins, doc).doc|
  {
    hide LinkLines, UpdateWith, NoMarks;
    BrokenNameLines();
    PreformattedInsertGrows(LinkLines(BROKEN_NAME), doc);
  }

  // ---------- on disk ----------

  // A preformatted line stands inside an analytics block.
  predicate FenceInBlock(doc: Doc, between: bool) {
    doc != [] &&
    var step := RemoveLine(doc[0], ANALYTICS_TAG, between);
    step.At? && ((between && doc[0].preformatted) || FenceInBlock(doc[1..], step.between))
  }

  lemma {:induction false} FenceConcat(a: Doc, b: Doc, between: bool)
    ensures FenceInBlock(a + b, between) <==>
            var r := RemoveScan(a, ANALYTICS_TAG, between); FenceInBlock(a, between) || (r.At? && FenceInBlock(b, r.between))
  {
    hide IsBegin, IsEnd;
    if a == [] {
      assert a + b == b;
    } else {
      assert (a + b)[1..] == a[1..] + b;
      var step := RemoveLine(a[0], ANALYTICS_TAG, between);
      if step.At? { FenceConcat(a[1..], b, step.between); }
    }
  }

  lemma {:induction false} FenceOutside(a: Doc)
    requires NoActiveMarks(a, ANALYTICS_TAG)
    ensures !FenceInBlock(a, false) && (FenceInBlock(a, true) <==> Verbatim(a) != [])
  {
    if a != [] {
      assert a[0].preformatted || !IsMark(a[0], ANALYTICS_TAG);
      assert NoActiveMarks(a[1..], ANALYTICS_TAG);
      FenceOutside(a[1..]);
    }
  }

  /** A fence is in a block if and only if the first block has a preformatted line or the rest of the
      document has a fence in a block. */
  lemma FenceByBlocks(a: Doc, b: Line, inner: Doc, e: Line, rest: Doc)
    requires NoActiveMarks(a, ANALYTICS_TAG) && !b.preformatted && IsBegin(b, ANALYTICS_TAG)
    requires NoActiveMarks(inner, ANALYTICS_TAG) && !e.preformatted && IsEnd(e, ANALYTICS_TAG)
    ensures !FenceInBlock(a, false)
    ensures FenceInBlock(a + [b] + inner + [e] + rest, false) <==> Verbatim(inner) != [] || FenceInBlock(rest, false)
  {
    NotBoth(b, ANALYTICS_TAG);
    NotBoth(e, ANALYTICS_TAG);
    hide IsBegin, IsEnd, RemoveScan, Verbatim, ANALYTICS_TAG;
    FenceOutside(a);
    FenceOutside(inner);
    RemoveCopiesUnmarked(a, ANALYTICS_TAG);
    RemoveOpens(a, b, [], ANALYTICS_TAG);
    RemoveOpens(a, b, inner, ANALYTICS_TAG);
    OneRemove(e, ANALYTICS_TAG, true);
    RemoveScanConcat(a + [b] + inner, [e], ANALYTICS_TAG, false);
    assert a + [b] + [] == a + [b];
    FenceConcat(a, [b], false);
    FenceConcat(a + [b], inner, false);
    FenceConcat(a + [b] + inner, [e], false);
    FenceConcat(a + [b] + inner + [e], rest, false);
    assert !FenceInBlock([b], false) && !FenceInBlock([e], true);
  }

  lemma FloatingIsNoFence(l: Line)
    requires Floating(l)
    ensures !Fence(l.data)
  {
    LinkText();
    NotAFence(l.data);
  }

  // The lines that removal and stripping keep of a document, scanned from a given state
  lemma {:induction false} KeptIsFlagged(doc: Doc, between: bool, flag: bool)
    requires Flagged(doc, flag) && RemoveScan(doc, ANALYTICS_TAG, between).At?
    requires !FenceInBlock(doc, between) && (between ==> !flag)
    ensures var kept := StripLinks(RemoveScan(doc, ANALYTICS_TAG, between).out);
            Flagged(kept, flag) && FlagBefore(kept, |kept|, flag) == FlagBefore(doc, |doc|, flag)
  {
    hide NewLine, NextFlag, Flagged, LINK_PREFIX, IsBegin, IsEnd;
    if doc == [] {
      NothingIsFlagged(flag);
    } else {
      var l, rest := doc[0], doc[1..];
      FlaggedConcat([l], rest, flag);
      assert [l] + rest == doc;
      HeadFlag(l, flag);
      var step := RemoveLine(l, ANALYTICS_TAG, between);
      KeptIsFlagged(rest, step.between, l.preformatted);
      var later := RemoveScan(rest, ANALYTICS_TAG, step.between).out;
      StripLinksConcat(step.out, later);
      assert [l][1..] == [];
      if StripLinks(step.out) == [l] {
        FlaggedConcat([l], StripLinks(later), flag);
      } else {
        assert StripLinks(step.out) == [] && [] + StripLinks(later) == StripLinks(later);
      }
    }
  }

  // A line that is dropped from outside preformatted text does not change the flag.
  lemma HeadFlag(l: Line, flag: bool)
    requires Flagged([l], flag)
    ensures l.preformatted == NextFlag(flag, l.data)
    ensures IsMark(l, ANALYTICS_TAG) || Floating(l) ==> l.preformatted == flag
  {
    hide NewLine, LINK_PREFIX, BeginMark, EndMark, InlineFence;
    assert FlaggedAt([l], 0, flag);
    assert NewLine(l.data).(preformatted := NextFlag(flag, l.data)).preformatted == NextFlag(flag, l.data);
    if IsMark(l, ANALYTICS_TAG) { MarkText(l, ANALYTICS_TAG); }
    if Floating(l) { FloatingIsNoFence(l); }
  }

  lemma {:induction false} KeptLines(doc: Doc, between: bool)
    requires RemoveScan(doc, ANALYTICS_TAG, between).At?
    ensures forall l :: l in StripLinks(RemoveScan(doc, ANALYTICS_TAG, between).out) ==> l in doc
  {
    hide IsBegin, IsEnd, LINK_PREFIX;
    if doc != [] {
      var step := RemoveLine(doc[0], ANALYTICS_TAG, between);
      KeptLines(doc[1..], step.between);
      StripLinksConcat(step.out, RemoveScan(doc[1..], ANALYTICS_TAG, step.between).out);
      assert [doc[0]][1..] == [];
    }
  }

  // The lines before the generated ones
  function Opening(kept: Doc): Doc {
    Spaced(kept)[|kept|..] + [NewLine(BeginMark(ANALYTICS_TAG))]
  }

  function Closing(): Doc {
    [NewLine(EndMark(ANALYTICS_TAG))]
  }

  lemma TagIsOneLine()
    ensures '\n' !in ANALYTICS_TAG
  {
  }

  lemma OutputParts(kept: Doc, ins: Doc)
    ensures Spaced(kept) + Block(ins) == kept + Opening(kept) + ins + Closing()
    ensures Plain(Opening(kept)) && Plain(Closing()) && OneLineEach(Opening(kept)) && OneLineEach(Closing())
    ensures Opening(kept) != [] && !Unbalanced(Opening(kept))
  {
    hide BLANK, NewLine, Fence, BeginMark, EndMark, ANALYTICS_TAG;
    TagIsOneLine();
    MarkLines(ANALYTICS_TAG);
    BlankIsNewLine();
    var b := NewLine(BeginMark(ANALYTICS_TAG));
    assert Spaced(kept) == kept + Spaced(kept)[|kept|..];
    assert [b][0] == b && Closing()[0] == NewLine(EndMark(ANALYTICS_TAG));
  }

  lemma OutputIsFlagged(kept: Doc, ins: Doc)
    requires Flagged(ins, false)
    ensures Flagged(Spaced(kept) + Block(ins), false) <==>
            Flagged(kept, false) && !Unbalanced(kept) && !Unbalanced(ins)
  {
    hide Flagged, Plain, Opening, Closing, Spaced, Block;
    OutputParts(kept, ins);
    var o, c := Opening(kept), Closing();
    FlaggedConcat(kept + o + ins, c, false);
    FlaggedConcat(kept + o, ins, false);
    FlaggedConcat(kept, o, false);
    PlainIsFlagged(o, Unbalanced(kept));
    assert (kept + o)[|kept + o| - 1] == o[|o| - 1];
    assert ins != [] ==> (kept + o + ins)[|kept + o + ins| - 1] == ins[|ins| - 1];
    PlainIsFlagged(c, Unbalanced(ins));
    assert c != [] by { ClosingIsOneLine(); }
  }

  lemma ClosingIsOneLine()
    ensures Closing() != []
  {
  }

  lemma OutputIsOneLineEach(ins: Doc, doc: Doc)
    requires OneLineEach(doc) && OneLineEach(ins) && Remove(doc, ANALYTICS_TAG).Ok?
    ensures OneLineEach(Spaced(Kept(doc)) + Block(ins)) && Spaced(Kept(doc)) + Block(ins) != []
  {
    hide StripLinks, RemoveScan, Opening, Closing, Plain, Spaced, Block;
    KeptLines(doc, false);
    OutputParts(Kept(doc), ins);
    var kept := Kept(doc);
    forall i | 0 <= i < |kept|
      ensures '\n' !in kept[i].data
    {
      assert kept[i] in doc;
    }
  }

  lemma KeptBalance(doc: Doc)
    requires Flagged(doc, false) && Remove(doc, ANALYTICS_TAG).Ok? && !FenceInBlock(doc, false)
    ensures Flagged(Kept(doc), false) && (Unbalanced(Kept(doc)) <==> Unbalanced(doc))
  {
    hide Flagged, StripLinks, RemoveScan, FenceInBlock;
    KeptIsFlagged(doc, false, false);
  }

  /** What a run writes is read back as the same lines if and only if neither the kept lines nor
      the generated ones end inside a fence and the kept lines still carry their flags; where no
      fence stands inside an analytics block, if and only if the document and the generated lines
      are balanced. */
  lemma AnalyticsReadsBack(ins: Doc, doc: Doc)
    requires Flagged(doc, false) && OneLineEach(doc) && Flagged(ins, false) && OneLineEach(ins)
    requires UpdateWith(ins, doc).Ok?
    ensures Remove(doc, ANALYTICS_TAG).Ok?
    ensures var out := UpdateWith(ins, doc).doc;
            Parse(Print(out)) == out <==> Flagged(Kept(doc), false) && !Unbalanced(Kept(doc)) && !Unbalanced(ins)
    ensures !FenceInBlock(doc, false) ==>
              Flagged(Kept(doc), false) && (Unbalanced(Kept(doc)) <==> Unbalanced(doc))
  {
    hide Flagged, OneLineEach, Parse, Print, UpdateWith, Kept, Block, Spaced, FenceInBlock;
    SecondRun(ins, doc);
    OutputIsOneLineEach(ins, doc);
    OutputIsFlagged(Kept(doc), ins);
    Reread(Spaced(Kept(doc)) + Block(ins));
    if !FenceInBlock(doc, false) { KeptBalance(doc); }
  }

  // ---------- a document that ends inside a fence ----------

  // The document ends inside a fence and holds nothing that a run removes.
  ghost predicate Stuck(doc: Doc) {
    && Flagged(doc, false) && OneLineEach(doc) && Unbalanced(doc)
    && NoActiveMarks(doc, ANALYTICS_TAG) && StripLinks(doc) == doc
  }

  lemma ReadBehindFence(doc: Doc, tail: Doc)
    requires Flagged(doc, false) && Unbalanced(doc) && Plain(tail)
    ensures FlagLines(Datas(doc + tail), false) == doc + Reflag(tail, true)
    ensures Flagged(doc + Reflag(tail, true), false)
  {
    hide Flagged, Plain, FlagLines;
    FlagLinesConcat(doc, Datas(tail), false);
    PlainFlagLines(tail, true);
    assert Datas(doc + tail) == Datas(doc) + Datas(tail);
    FlagLinesIsFlagged(Datas(doc + tail), false);
  }

  lemma ReadInsideFence(front: Doc, tail: Doc)
    requires Flagged(front, false) && Unbalanced(front) && Plain(tail) && OneLineEach(front + tail)
    ensures Parse(Print(front + tail)) == front + Reflag(tail, true)
  {
    hide Flagged, OneLineEach, Plain, Parse, Print, FlagLines;
    ReadBehindFence(front, tail);
    Reread(front + tail);
  }

  lemma PreformattedIsStuck(doc: Doc, tail: Doc)
    requires Stuck(doc) && Plain(tail) && OneLineEach(tail)
    ensures Stuck(doc + Reflag(tail, true))
    ensures FlagLines(Datas(doc + tail), false) == doc + Reflag(tail, true)
  {
    hide Flagged, Plain, FlagLines, IsMark, StripLinks;
    var more := Reflag(tail, true);
    ReadBehindFence(doc, tail);
    PreformattedIsKept(more);
    StripLinksConcat(doc, more);
  }

  lemma {:induction false} PreformattedIsKept(doc: Doc)
    requires forall i :: 0 <= i < |doc| ==> doc[i].preformatted
    ensures StripLinks(doc) == doc
  {
    if doc != [] {
      PreformattedIsKept(doc[1..]);
    }
  }

  /** On such a document a run appends a block, and what it writes is read back as such a document
      again, with the block inside the fence. */
  lemma StuckRun(ins: Doc, doc: Doc)
    requires Stuck(doc) && Plain(ins) && OneLineEach(ins)
    ensures UpdateWith(ins, doc) == Ok(Spaced(doc) + Block(ins))
    ensures var next := Parse(Print(Spaced(doc) + Block(ins)));
            Stuck(next) && Datas(next) == Datas(Spaced(doc) + Block(ins)) && Spaced(next) == next + [BLANK]
  {
    hide Flagged, NoActiveMarks, Plain, UpdateWith, RemoveScan, StripLinks, Opening, Closing, Parse, Print, FlagLines;
    hide BLANK, Block, EndMark, OneLineEach;
    AnalyticsOutput(ins, doc);
    RemoveCopiesUnmarked(doc, ANALYTICS_TAG);
    OutputParts(doc, ins);
    var tail := Opening(doc) + ins + Closing();
    TailIsPlain(doc, ins);
    assert Spaced(doc) + Block(ins) == doc + tail;
    PreformattedIsStuck(doc, tail);
    assert OneLineEach(doc + tail) by { OneLineConcat(doc, tail); }
    ReadInsideFence(doc, tail);
    EndsWithMark(tail, ins, doc);
  }

  lemma OneLineConcat(a: Doc, b: Doc)
    requires OneLineEach(a) && OneLineEach(b)
    ensures OneLineEach(a + b)
  {
  }

  lemma TailIsPlain(doc: Doc, ins: Doc)
    requires Plain(ins) && OneLineEach(ins)
    ensures var tail := Opening(doc) + ins + Closing(); Plain(tail) && OneLineEach(tail)
  {
    hide NewLine, Fence, Opening, Closing;
    OutputParts(doc, ins);
  }

  lemma EndsWithMark(tail: Doc, ins: Doc, doc: Doc)
    requires tail == Opening(doc) + ins + Closing()
    ensures tail != [] && tail[|tail| - 1].data != ""
  {
    assert |EndMark(ANALYTICS_TAG)| > 0;
  }

  // The lines that a run on a stuck document appends
  function Appended(ins: Doc): Doc {
    [BLANK] + Block(ins)
  }

  /** Generated lines that end inside a fence take the end mark into it when the file is read back,
      so a second run on a balanced file fails. */
  lemma UnbalancedInsertFailsOnDisk(ins: Doc, doc: Doc)
    requires Flagged(doc, false) && OneLineEach(doc) && !Unbalanced(doc) && !FenceInBlock(doc, false)
    requires Flagged(ins, false) && OneLineEach(ins) && NoMarks(ins, ANALYTICS_TAG) && Unbalanced(ins)
    requires UpdateWith(ins, doc).Ok?
    ensures UpdateWith(ins, Parse(Print(UpdateWith(ins, doc).doc))).Fail?
  {
    hide Flagged, OneLineEach, Plain, Parse, Print, UpdateWith, Kept, Block, Spaced, FenceInBlock;
    hide Opening, Closing, NoMarks, RemoveScan, NoActiveMarks, Unbalanced;
    SecondRun(ins, doc);
    var kept := Kept(doc);
    KeptFacts(doc);
    KeptBalance(doc);
    OutputIsOneLineEach(ins, doc);
    OutputParts(kept, ins);
    var front := kept + Opening(kept) + ins;
    FrontIsFlagged(kept, ins);
    ReadInsideFence(front, Closing());
    ReopenedFails(kept, ins);
    AnalyticsOutput(ins, front + Reflag(Closing(), true));
  }

  lemma FrontIsFlagged(kept: Doc, ins: Doc)
    requires Flagged(kept, false) && !Unbalanced(kept) && Flagged(ins, false) && Unbalanced(ins)
    ensures var front := kept + Opening(kept) + ins; Flagged(front, false) && Unbalanced(front)
  {
    hide Flagged, Opening, Closing, Plain, Spaced, Block;
    OutputParts(kept, ins);
    var o := Opening(kept);
    PlainIsFlagged(o, false);
    FlaggedConcat(kept, o, false);
    FlaggedConcat(kept + o, ins, false);
  }

  lemma ReopenedFails(kept: Doc, ins: Doc)
    requires NoActiveMarks(Spaced(kept), ANALYTICS_TAG) && NoMarks(ins, ANALYTICS_TAG)
    ensures Remove(kept + Opening(kept) + ins + Reflag(Closing(), true), ANALYTICS_TAG).Fail?
  {
    TokenMarks(ANALYTICS_TAG);
    hide IsBegin, IsEnd, BeginMark, EndMark, HasLink, Contains, BLANK, NoMarks;
    var b, c := [NewLine(BeginMark(ANALYTICS_TAG))], Reflag(Closing(), true);
    assert kept + Opening(kept) + ins + c == Spaced(kept) + b + ins + c;
    RemoveCopiesUnmarked(Spaced(kept), ANALYTICS_TAG);
    UnmarkedInsert(ins);
    assert b[1..] == [] && c[1..] == [];
    RemoveScanConcat(Spaced(kept) + b + ins, c, ANALYTICS_TAG, false);
    RemoveScanConcat(Spaced(kept) + b, ins, ANALYTICS_TAG, false);
    RemoveScanConcat(Spaced(kept), b, ANALYTICS_TAG, false);
  }

  /** So it is for the file name with a line break and a fence. */
  lemma LineBreakNameFailsOnDisk(s: string)
    requires UpdateWith(LinkLines(BROKEN_NAME), Parse(s)).Ok?
    requires !Unbalanced(Parse(s)) && !FenceInBlock(Parse(s), false)
    ensures var ins := LinkLines(BROKEN_NAME); UpdateWith(ins, Parse(Print(UpdateWith(ins, Parse(s)).doc))).Fail?
  {
    hide UpdateWith, FenceInBlock, NoMarks, Flagged, OneLineEach;
    ParsedIsFlagged(s);
    ParsedIsFlagged(LINK_PREFIX + BROKEN_NAME + LINK_SUFFIX);
    BrokenNameLines();
    UnbalancedInsertFailsOnDisk(LinkLines(BROKEN_NAME), Parse(s));
  }
}
