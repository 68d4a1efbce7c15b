/** The munge that surrounds every preformatted block with blank lines. */
module Preformatted {
  import opened MungeLines

  // Line i starts a preformatted block.
  predicate Opening(doc: Doc, i: int)
    requires 0 <= i < |doc|
  {
    doc[i].preformatted && (i == 0 || !doc[i - 1].preformatted)
  }

  // Line i is the fence after the last flagged line of a block.
  predicate Closing(doc: Doc, i: int)
    requires 0 <= i < |doc|
  {
    !doc[i].preformatted && i > 0 && doc[i - 1].preformatted
  }

  predicate BlankAfter(doc: Doc, i: int)
    requires 0 <= i < |doc|
  {
    Closing(doc, i) && (i >= |doc| - 2 || doc[i + 1].data != "")
  }

  // The output so far, made ready for line i
  function Opened(doc: Doc, i: nat, out: Doc): Doc
    requires i < |doc|
  {
    if Opening(doc, i) && (i == 0 || out == [] || out[|out| - 1].data != "") then out + [BLANK] else out
  }

  // The output so far, extended by line i and the blank line it may need
  function Extend(doc: Doc, i: nat, out: Doc): Doc
    requires i < |doc|
  {
    var next := Opened(doc, i, out) + [doc[i]];
    if BlankAfter(doc, i) then next + [BLANK] else next
  }

  // The output for the first k lines
  function Spaced(doc: Doc, k: nat): Doc
    requires k <= |doc|
  {
    if k == 0 then [] else Extend(doc, k - 1, Spaced(doc, k - 1))
  }

  function UpdatePreformatted(doc: Doc): Doc {
    Spaced(doc, |doc|)
  }

  method UpdatePreformattedLoop(mlines: Doc) returns (out: Doc)
    ensures out == UpdatePreformatted(mlines)
  {
    out := [];
    var inpreformat := false;
    for i := 0 to |mlines|
      invariant out == Spaced(mlines, i)
      invariant i > 0 ==> out != []
      invariant inpreformat == (i > 0 && mlines[i - 1].preformatted)
    {
      var mline := mlines[i];
      if !inpreformat && mline.preformatted {
        if i == 0 || out[|out| - 1].data != "" {
          out := out + [BLANK];
        }
        inpreformat := true;
      }
      out := out + [mline];
      if inpreformat && !mline.preformatted {
        if i >= |mlines| - 2 || mlines[i + 1].data != "" {
          out := out + [BLANK];
        }
        inpreformat := false;
      }
    }
  }

  // ---------- every block is surrounded ----------

  ghost predicate OpeningsSpaced(doc: Doc) {
    forall j :: 0 <= j < |doc| && Opening(doc, j) ==> j > 0 && doc[j - 1].data == ""
  }

  ghost predicate ClosingsSpaced(doc: Doc) {
    forall j :: 0 <= j < |doc| - 1 && Closing(doc, j) ==> doc[j + 1].data == ""
  }

  // What the output for the first k lines satisfies. A closing fence that ends it is followed by
  // a blank line of the input.
  ghost predicate GoodPrefix(doc: Doc, k: nat, out: Doc)
    requires k <= |doc|
  {
    && (k == 0 ==> out == [])
    && (k > 0 ==> out != [] && out[|out| - 1].preformatted == doc[k - 1].preformatted)
    && OpeningsSpaced(out) && ClosingsSpaced(out)
    && (out != [] && Closing(out, |out| - 1) ==> k < |doc| - 1 && doc[k].data == "" && out[|out| - 1] == doc[k - 1])
    && (k > 0 && Closing(doc, k - 1) ==>
          if BlankAfter(doc, k - 1) then |out| >= 2 && Closing(out, |out| - 2) else Closing(out, |out| - 1))
  }

  lemma {:induction false} SpacedIsGood(doc: Doc, k: nat)
    requires k <= |doc|
    ensures GoodPrefix(doc, k, Spaced(doc, k))
  {
    if k > 0 {
      SpacedIsGood(doc, k - 1);
      GoodStep(doc, k, Spaced(doc, k - 1));
    }
  }

  lemma SpacedSnoc(out: Doc, l: Line)
    requires OpeningsSpaced(out) && ClosingsSpaced(out)
    requires l.preformatted && !FlagBefore(out, |out|, false) ==> out != [] && out[|out| - 1].data == ""
    requires out != [] && Closing(out, |out| - 1) ==> l.data == ""
    ensures OpeningsSpaced(out + [l]) && ClosingsSpaced(out + [l])
  {
    var r := out + [l];
    forall j | 0 <= j < |r| && Opening(r, j)
      ensures j > 0 && r[j - 1].data == ""
    {
      if j < |out| { assert Opening(out, j); }
    }
    forall j | 0 <= j < |r| - 1 && Closing(r, j)
      ensures r[j + 1].data == ""
    {
      assert Closing(out, j);
    }
  }

  lemma GoodStep(doc: Doc, k: nat, out: Doc)
    requires 0 < k <= |doc| && GoodPrefix(doc, k - 1, out)
    ensures GoodPrefix(doc, k, Extend(doc, k - 1, out))
  {
    hide BLANK, OpeningsSpaced, ClosingsSpaced;
    Blank();
    var o := Opened(doc, k - 1, out);
    if o != out { SpacedSnoc(out, BLANK); }
    SpacedSnoc(o, doc[k - 1]);
    var next := o + [doc[k - 1]];
    if BlankAfter(doc, k - 1) { SpacedSnoc(next, BLANK); }
  }

  // Every opening is preceded and every closing fence followed by a blank line.
  ghost predicate Surrounded(doc: Doc) {
    && OpeningsSpaced(doc)
    && forall j :: 0 <= j < |doc| && Closing(doc, j) ==> j + 1 < |doc| && doc[j + 1].data == ""
  }

  /** In the output every block has a blank line on both sides. */
  lemma BlocksAreSurrounded(doc: Doc)
    ensures Surrounded(UpdatePreformatted(doc))
  {
    hide Spaced, BLANK;
    SpacedIsGood(doc, |doc|);
    var y := UpdatePreformatted(doc);
    forall j | 0 <= j < |y| && Closing(y, j)
      ensures j + 1 < |y| && y[j + 1].data == ""
    {
      if j == |y| - 1 { assert false; }
    }
  }

  // ---------- convergence ----------

  lemma {:induction false} NothingToAdd(doc: Doc, k: nat)
    requires k <= |doc| && OpeningsSpaced(doc)
    requires forall j :: 0 <= j < k ==> !BlankAfter(doc, j)
    ensures Spaced(doc, k) == doc[..k]
  {
    hide BLANK;
    if k > 0 {
      NothingToAdd(doc, k - 1);
      assert !BlankAfter(doc, k - 1);
      assert doc[..k] == doc[..k - 1] + [doc[k - 1]];
    }
  }

  predicate LastCloses(doc: Doc) {
    |doc| > 0 && Closing(doc, |doc| - 1)
  }

  predicate LastButOneCloses(doc: Doc) {
    |doc| > 1 && Closing(doc, |doc| - 2)
  }

  // A pass over a surrounded document adds at most one line, before the last.
  lemma PassOverSurrounded(doc: Doc)
    requires Surrounded(doc)
    ensures UpdatePreformatted(doc) ==
            if LastButOneCloses(doc) then doc[..|doc| - 1] + [BLANK] + doc[|doc| - 1..] else doc
  {
    hide BLANK;
    var n := |doc|;
    if LastButOneCloses(doc) {
      NothingToAdd(doc, n - 2);
      assert Spaced(doc, n - 1) == doc[..n - 2] + [doc[n - 2]] + [BLANK];
      assert doc[..n - 2] + [doc[n - 2]] == doc[..n - 1];
      assert !Closing(doc, n - 1);
      Blank();
      assert Spaced(doc, n) == Spaced(doc, n - 1) + [doc[n - 1]];
      assert doc[n - 1..] == [doc[n - 1]];
    } else {
      NothingToAdd(doc, n);
      assert doc[..n] == doc;
    }
  }

  lemma ClosesAtTheEnd(doc: Doc)
    ensures LastButOneCloses(UpdatePreformatted(doc)) <==> LastCloses(doc)
  {
    hide BLANK;
    Blank();
    var n := |doc|;
    SpacedIsGood(doc, n);
    if n > 0 {
      SpacedIsGood(doc, n - 1);
      var out, y := Spaced(doc, n - 1), Spaced(doc, n);
      if !LastCloses(doc) {
        var o := Opened(doc, n - 1, out);
        assert y == o + [doc[n - 1]];
        if o != out {
          assert y[|y| - 2] == BLANK && (out != [] ==> y[|y| - 3] == out[|out| - 1]);
        } else if out != [] {
          assert !Closing(out, |out| - 1) && y[|y| - 2] == out[|out| - 1];
        }
      }
    }
  }

  /** A second pass changes nothing if and only if the last line does not close a block, and a
      third pass never changes anything. */
  lemma PreformattedConverges(doc: Doc)
    ensures var once := UpdatePreformatted(doc); var twice := UpdatePreformatted(once);
            && (twice == once <==> !LastCloses(doc))
            && UpdatePreformatted(twice) == twice
  {
    hide Spaced, BLANK;
    var once := UpdatePreformatted(doc);
    BlocksAreSurrounded(doc);
    PassOverSurrounded(once);
    ClosesAtTheEnd(doc);
    var twice := UpdatePreformatted(once);
    BlocksAreSurrounded(once);
    PassOverSurrounded(twice);
    if LastButOneCloses(once) {
      assert |twice| == |once| + 1;
      assert twice[|twice| - 2] == BLANK && twice[|twice| - 3] == once[|once| - 2];
      assert !LastButOneCloses(twice);
    }
  }

  // ---------- nothing is lost ----------

  lemma KeepsStep(doc: Doc, i: nat, out: Doc)
    requires i < |doc|
    ensures NonBlank(Extend(doc, i, out)) == if doc[i].data == "" then NonBlank(out) else NonBlank(out) + [doc[i]]
  {
    Blank();
    hide BLANK, NonBlank;
    NonBlankSnoc(out, BLANK);
    NonBlankSnoc(Opened(doc, i, out), doc[i]);
    NonBlankSnoc(Opened(doc, i, out) + [doc[i]], BLANK);
  }

  lemma {:induction false} SpacedKeepsLines(doc: Doc, k: nat)
    requires k <= |doc|
    ensures NonBlank(Spaced(doc, k)) == NonBlank(doc[..k])
  {
    hide Extend, NonBlank;
    if k > 0 {
      SpacedKeepsLines(doc, k - 1);
      KeepsStep(doc, k - 1, Spaced(doc, k - 1));
      NonBlankSnoc(doc[..k - 1], doc[k - 1]);
      assert doc[..k] == doc[..k - 1] + [doc[k - 1]];
    }
  }

  /** Only blank lines are added: the non-blank lines, flags included, are the input's. */
  lemma PreformattedKeepsLines(doc: Doc)
    ensures NonBlank(UpdatePreformatted(doc)) == NonBlank(doc)
  {
    SpacedKeepsLines(doc, |doc|);
    assert doc[..|doc|] == doc;
  }

  lemma {:induction false} SpacedLines(doc: Doc, k: nat)
    requires k <= |doc|
    ensures forall l :: l in Spaced(doc, k) ==> l == BLANK || l in doc[..k]
    ensures forall l :: l in doc[..k] ==> l in Spaced(doc, k)
  {
    hide BLANK;
    if k > 0 {
      SpacedLines(doc, k - 1);
      assert doc[..k] == doc[..k - 1] + [doc[k - 1]];
    }
  }

  // ---------- on disk ----------

  lemma {:induction false} SpacedIsFlagged(doc: Doc, k: nat)
    requires k <= |doc| && Flagged(doc, false) && OneLineEach(doc)
    ensures Flagged(Spaced(doc, k), false) && OneLineEach(Spaced(doc, k))
  {
    if k > 0 {
      SpacedIsFlagged(doc, k - 1);
      SpacedIsGood(doc, k - 1);
      FlaggedStep(doc, k, Spaced(doc, k - 1));
    }
  }

  lemma FlaggedStep(doc: Doc, k: nat, out: Doc)
    requires 0 < k <= |doc| && Flagged(doc, false) && OneLineEach(doc)
    requires Flagged(out, false) && OneLineEach(out) && GoodPrefix(doc, k - 1, out)
    ensures Flagged(Extend(doc, k - 1, out), false) && OneLineEach(Extend(doc, k - 1, out))
  {
    hide NextFlag, NewLine, BLANK;
    Blank();
    BlankKeepsFlag();
    assert FlaggedAt(doc, k - 1, false);
    assert FlagBefore(out, |out|, false) == FlagBefore(doc, k - 1, false);
    var o := Opened(doc, k - 1, out);
    if o != out { SnocIsFlagged(out, BLANK); }
    assert FlagBefore(o, |o|, false) == FlagBefore(doc, k - 1, false);
    SnocIsFlagged(o, doc[k - 1]);
    if BlankAfter(doc, k - 1) { SnocIsFlagged(o + [doc[k - 1]], BLANK); }
  }

  /** Writing the result to the file and reading it back yields the same flagged lines. */
  lemma PreformattedOnDisk(s: string)
    requires Parse(s) != []
    ensures Parse(Print(UpdatePreformatted(Parse(s)))) == UpdatePreformatted(Parse(s))
  {
    hide FlagLines, SplitLines, Print;
    var doc := Parse(s);
    ParsedIsFlagged(s);
    SpacedIsFlagged(doc, |doc|);
    SpacedIsGood(doc, |doc|);
    ParsePrint(UpdatePreformatted(doc));
  }

  // ---------- a fence on the last line ----------

  const ONE_BLOCK := "```\nx\n```\n"

  function OneBlock(): Doc {
    [NewLine("```").(preformatted := true), NewLine("x").(preformatted := true), NewLine("```")]
  }

  lemma OneBlockLines()
    ensures Fence("```") && !InlineFence("```") && !Fence("x")
    ensures ONE_BLOCK == "```" + "\n" + ("x" + "\n" + "```") + "\n"
  {
    assert SkipSpace("```") == "```" && SkipSpace("x") == "x";
  }

  lemma OneBlockPrints()
    ensures Print(OneBlock()) == ONE_BLOCK
  {
    hide HasLink, Contains, ONE_BLOCK, Fence, InlineFence;
    OneBlockLines();
    var texts := ["```", "x", "```"];
    assert Datas(OneBlock()) == texts;
    assert texts[1..] == ["x", "```"] && texts[1..][1..] == ["```"];
  }

  lemma OneBlockFlags()
    ensures var doc := OneBlock(); |doc| == 3 && doc[0].preformatted && doc[1].preformatted && !doc[2].preformatted
    ensures var doc := OneBlock(); doc[0].data == doc[2].data == "```" && doc[1].data == "x"
  {
    hide HasLink, Contains;
  }

  lemma OneBlockIsFlagged()
    ensures Flagged(OneBlock(), false) && OneLineEach(OneBlock())
  {
    hide Fence, InlineFence, HasLink, Contains, ONE_BLOCK;
    OneBlockLines();
    var doc := OneBlock();
    assert FlaggedAt(doc, 0, false) && FlaggedAt(doc, 1, false) && FlaggedAt(doc, 2, false);
    assert '\n' !in "```" && '\n' !in "x";
  }

  lemma OneBlockParses()
    ensures Parse(ONE_BLOCK) == OneBlock()
  {
    hide Flagged, OneLineEach, ONE_BLOCK, Parse, Print, NewLine;
    OneBlockIsFlagged();
    OneBlockPrints();
    Reread(OneBlock());
  }

  /** A file that ends with a closing fence needs two passes. */
  lemma LastFenceNeedsTwoPasses()
    ensures var once := UpdatePreformatted(Parse(ONE_BLOCK)); UpdatePreformatted(once) != once
  {
    hide Spaced, Parse;
    OneBlockParses();
    assert LastCloses(OneBlock());
    PreformattedConverges(OneBlock());
  }
}
