/**
 The munges that trim lines and insert blank ones, run one after the other: remove-whitespace,
 blank-lines-surround-preformatted, header-lines.
 */
module MungePipeline {
  import opened MungeLines
  import P = Preformatted
  import H = HeaderLines
  import W = Whitespace

  function RunOnce(doc: Doc): Doc {
    H.UpdateHeaders(P.UpdatePreformatted(doc))
  }

  // A closing fence is not a header.
  ghost predicate FencesClose(doc: Doc) {
    forall j :: 0 <= j < |doc| && P.Closing(doc, j) ==> !H.Fixable(doc[j])
  }

  lemma FlaggedFencesClose(doc: Doc)
    requires Flagged(doc, false)
    ensures FencesClose(doc)
  {
    hide NewLine, InlineFence, H.FixedText, H.Title;
    forall j | 0 <= j < |doc| && P.Closing(doc, j)
      ensures !H.Fixable(doc[j])
    {
      assert FlaggedAt(doc, j, false);
      assert NewLine(doc[j].data).(preformatted := NextFlag(true, doc[j].data)).preformatted == !Fence(doc[j].data);
      if H.SharpCount(doc[j].data) > 0 {
        H.SharpIsNoFence(doc[j].data, true);
      }
    }
  }

  // ---------- headers keep blocks surrounded ----------

  // Blocks in the output for the first k lines; a closing fence at its end has its blank line next
  // in the input.
  ghost predicate GoodPrefix(doc: Doc, k: nat, out: Doc)
    requires k <= |doc|
  {
    && (k > 0 <==> out != [])
    && FlagBefore(out, |out|, false) == FlagBefore(doc, k, false)
    && P.OpeningsSpaced(out) && P.ClosingsSpaced(out)
    && (out != [] && P.Closing(out, |out| - 1) ==> k < |doc| && doc[k].data == "")
    && (k > 0 && doc[k - 1].data == "" ==> out[|out| - 1].data == "")
  }

  lemma GoodStep(doc: Doc, i: nat, out: Doc)
    requires i < |doc| && P.Surrounded(doc) && FencesClose(doc) && GoodPrefix(doc, i, out)
    requires H.Fixable(doc[i]) ==> !FlagBefore(doc, i, false) && !doc[i].preformatted && !H.Fixed(doc[i]).preformatted
    ensures GoodPrefix(doc, i + 1, H.Extend(doc, i, out))
  {
    hide H.Fixable, H.Fixed, BLANK, P.OpeningsSpaced, P.ClosingsSpaced;
    Blank();
    SurroundedAt(doc, i);
    if !H.Fixable(doc[i]) {
      P.SpacedSnoc(out, doc[i]);
      assert P.Closing(out + [doc[i]], |out|) ==> P.Closing(doc, i);
    } else {
      assert !P.Closing(doc, i) && doc[i].data != "" by { H.BlankIsNotFixable(); }
      var o := H.Spaced(i, out);
      P.SpacedSnoc(out, BLANK);
      P.SpacedSnoc(o, H.Fixed(doc[i]));
      P.SpacedSnoc(o + [H.Fixed(doc[i])], BLANK);
    }
  }

  lemma SurroundedAt(doc: Doc, i: nat)
    requires i < |doc| && P.Surrounded(doc)
    ensures P.Opening(doc, i) ==> i > 0 && doc[i - 1].data == ""
    ensures P.Closing(doc, i) ==> i + 1 < |doc| && doc[i + 1].data == ""
  {
  }

  lemma FixableIsOutside(doc: Doc, i: nat)
    requires i < |doc| && Flagged(doc, false) && OneLineEach(doc) && H.Fixable(doc[i])
    ensures !FlagBefore(doc, i, false) && !doc[i].preformatted && !H.Fixed(doc[i]).preformatted
  {
    hide NewLine, NextFlag, H.HeaderSyntax, H.FixedText;
    assert FlaggedAt(doc, i, false);
    H.FixedIsPlain(doc[i]);
    assert NewLine(doc[i].data).(preformatted := doc[i].preformatted).preformatted == doc[i].preformatted;
  }

  lemma {:induction false} FixKeepsGood(doc: Doc, k: nat)
    requires k <= |doc| && P.Surrounded(doc) && FencesClose(doc) && Flagged(doc, false) && OneLineEach(doc)
    ensures GoodPrefix(doc, k, H.Fix(doc, k))
  {
    hide H.Extend, H.Fixable, H.Fixed, FlaggedAt;
    if k > 0 {
      FixKeepsGood(doc, k - 1);
      if H.Fixable(doc[k - 1]) { FixableIsOutside(doc, k - 1); }
      GoodStep(doc, k - 1, H.Fix(doc, k - 1));
    }
  }

  lemma HeadersKeepSurrounded(doc: Doc)
    requires P.Surrounded(doc) && Flagged(doc, false) && OneLineEach(doc)
    ensures P.Surrounded(H.UpdateHeaders(doc))
  {
    hide H.Fix, FlaggedAt, H.Fixable;
    FlaggedFencesClose(doc);
    FixKeepsGood(doc, |doc|);
  }

  // ---------- convergence ----------

  // The blank line that a pass adds behind a last block leaves headers tidy.
  lemma PassKeepsTidy(doc: Doc)
    requires P.Surrounded(doc) && H.Tidy(doc) && FencesClose(doc)
    ensures H.Tidy(P.UpdatePreformatted(doc))
  {
    hide H.Fixable, H.Fixed, BLANK, P.Spaced;
    P.PassOverSurrounded(doc);
    H.BlankIsNotFixable();
    if P.LastButOneCloses(doc) {
      var n := |doc|;
      var r := P.UpdatePreformatted(doc);
      assert r[n - 1] == BLANK && r[n] == doc[n - 1];
      assert doc[n - 1].data == "";
      assert forall j :: 0 <= j < n - 1 ==> r[j] == doc[j];
      assert !H.Fixable(doc[n - 2]);
    }
  }

  lemma TidyIsUnchanged(doc: Doc)
    requires H.Tidy(doc)
    ensures H.UpdateHeaders(doc) == doc
  {
    H.TidyIsFixed(doc, |doc|);
    assert doc[..|doc|] == doc;
  }

  lemma StableTail(doc: Doc)
    requires P.Surrounded(doc)
    ensures P.UpdatePreformatted(P.UpdatePreformatted(doc)) == P.UpdatePreformatted(doc)
  {
    hide P.Spaced, BLANK;
    P.PassOverSurrounded(doc);
    if P.LastButOneCloses(doc) {
      P.PreformattedConverges(doc);
      var r := P.UpdatePreformatted(doc);
      assert r[|r| - 2] == BLANK;
      assert !P.LastCloses(doc);
    }
  }

  lemma RunKeepsForm(doc: Doc)
    requires Flagged(doc, false) && OneLineEach(doc)
    ensures var y := RunOnce(doc);
            && Flagged(y, false) && OneLineEach(y)
            && (y == [] <==> doc == []) && (Unbalanced(y) <==> Unbalanced(doc))
  {
    hide P.Spaced, H.Fix, FlaggedAt, H.Tidy, P.OpeningsSpaced, P.ClosingsSpaced;
    var p := P.UpdatePreformatted(doc);
    P.SpacedIsFlagged(doc, |doc|);
    P.SpacedIsGood(doc, |doc|);
    H.FixIsFlagged(p, |p|);
    H.FixIsGood(p, |p|);
  }

  /** After two runs neither blank-line munge changes anything. */
  lemma SecondRunIsStable(start: Doc)
    requires Flagged(start, false) && OneLineEach(start)
    ensures var doc := RunOnce(RunOnce(start));
            P.UpdatePreformatted(doc) == doc && H.UpdateHeaders(doc) == doc
  {
    hide P.Spaced, H.Fix, P.Surrounded, H.Tidy, FlaggedAt;
    var p := P.UpdatePreformatted(start);
    P.SpacedIsFlagged(start, |start|);
    P.BlocksAreSurrounded(start);
    var y := H.UpdateHeaders(p);
    H.FixIsFlagged(p, |p|);
    HeadersKeepSurrounded(p);
    H.HeadersAreTidy(p);
    FlaggedFencesClose(y);
    PassKeepsTidy(y);
    TidyIsUnchanged(P.UpdatePreformatted(y));
    StableTail(y);
  }

  /** Two runs of both blank-line munges reach a document that further runs leave alone. */
  lemma TwoRunsSuffice(doc: Doc)
    requires Flagged(doc, false) && OneLineEach(doc)
    ensures RunOnce(RunOnce(RunOnce(doc))) == RunOnce(RunOnce(doc))
  {
    hide P.Spaced, H.Fix, Flagged, OneLineEach;
    SecondRunIsStable(doc);
  }

  // ---------- with trimming ----------

  function RunLines(doc: Doc): Doc {
    RunOnce(W.UpdateWhitespace(doc))
  }

  lemma LinesKeepForm(doc: Doc)
    requires Flagged(doc, false) && OneLineEach(doc)
    ensures var y := RunLines(doc);
            && Flagged(y, false) && OneLineEach(y)
            && (y == [] <==> doc == []) && (Unbalanced(y) <==> Unbalanced(doc))
  {
    hide Flagged, OneLineEach, RunOnce, W.Trimmed;
    W.TrimmedIsFlagged(doc);
    RunKeepsForm(W.UpdateWhitespace(doc));
  }

  lemma NormalizeKeepsBare(l: Line)
    ensures W.Bare(H.Normalize(l)) <==> W.Bare(l)
  {
    hide HasLink, Contains, H.HeaderSyntax, H.FixedText, W.BareText;
    if H.Fixable(l) {
      W.FixKeepsBare(l.data);
    }
  }

  lemma TrimmedKeepsBare(l: Line)
    ensures W.Bare(W.Trimmed(l)) <==> W.Bare(l)
  {
    hide HasLink, Contains, W.BareText;
    W.TrimKeepsBare(l.data);
  }

  lemma BlankIsNotBare()
    ensures !W.Bare(BLANK)
  {
    Blank();
    hide BLANK;
  }

  lemma TrimmingKeepsBare(doc: Doc)
    ensures W.NoBare(W.UpdateWhitespace(doc)) <==> W.NoBare(doc)
  {
    hide W.Bare, W.Trimmed;
    var w := W.UpdateWhitespace(doc);
    forall i | 0 <= i < |doc|
      ensures W.Bare(w[i]) <==> W.Bare(doc[i])
    {
      TrimmedKeepsBare(doc[i]);
    }
    if W.NoBare(w) {
      forall l | l in doc
        ensures !W.Bare(l)
      {
        var i :| 0 <= i < |doc| && doc[i] == l;
        assert w[i] in w;
      }
    }
  }

  lemma SpacingKeepsBare(doc: Doc)
    ensures W.NoBare(P.UpdatePreformatted(doc)) <==> W.NoBare(doc)
  {
    hide W.Bare, P.Spaced, BLANK;
    BlankIsNotBare();
    P.SpacedLines(doc, |doc|);
    assert doc[..|doc|] == doc;
  }

  lemma HeadersKeepBare(doc: Doc)
    ensures W.NoBare(H.UpdateHeaders(doc)) <==> W.NoBare(doc)
  {
    hide W.Bare, H.Fix, H.Normalize, BLANK;
    BlankIsNotBare();
    H.FixLines(doc, |doc|);
    assert doc[..|doc|] == doc;
    forall l
      ensures W.Bare(H.Normalize(l)) <==> W.Bare(l)
    {
      NormalizeKeepsBare(l);
    }
    if W.NoBare(H.UpdateHeaders(doc)) {
      forall m | m in doc
        ensures !W.Bare(m)
      {
        assert H.Normalize(m) in H.UpdateHeaders(doc);
      }
    }
  }

  /** No run makes a bare header, and none removes one. */
  lemma RunKeepsBare(doc: Doc)
    ensures W.NoBare(RunLines(doc)) <==> W.NoBare(doc)
  {
    hide W.NoBare, W.Trimmed, P.UpdatePreformatted, H.UpdateHeaders;
    var w := W.UpdateWhitespace(doc);
    TrimmingKeepsBare(doc);
    SpacingKeepsBare(w);
    HeadersKeepBare(P.UpdatePreformatted(w));
  }

  lemma NormalizeKeepsTrimmed(l: Line)
    requires W.Trimmed(l) == l && !W.Bare(l)
    ensures W.Trimmed(H.Normalize(l)) == H.Normalize(l)
  {
    hide HasLink, Contains, H.HeaderSyntax, H.FixedText, W.BareText, W.TrimRight;
    if H.Fixable(l) {
      W.FixedIsTrimmedIff(l.data);
    }
  }

  lemma BlankIsTrimmed()
    ensures W.Trimmed(BLANK) == BLANK
  {
    Blank();
    BlankIsNewLine();
    hide NewLine, BLANK;
    W.TrimIs("", "");
  }

  /** Without bare headers, what a run writes is trimmed. */
  lemma RunIsTrimmed(doc: Doc)
    requires W.NoBare(doc)
    ensures W.UpdateWhitespace(RunLines(doc)) == RunLines(doc)
  {
    hide W.Trimmed, W.Bare, H.Normalize, H.Fix, P.Spaced, BLANK;
    var w := W.UpdateWhitespace(doc);
    var p := P.UpdatePreformatted(w);
    var y := H.UpdateHeaders(p);
    TrimmingKeepsBare(doc);
    P.SpacedLines(w, |w|);
    assert w[..|w|] == w && p[..|p|] == p;
    H.FixLines(p, |p|);
    BlankIsTrimmed();
    BlankIsNotBare();
    forall m | m in p
      ensures W.Trimmed(m) == m && !W.Bare(m)
    {
      if m in w {
        var i :| 0 <= i < |w| && w[i] == m;
        W.TrimmedTwice(doc[i]);
      }
    }
    forall i | 0 <= i < |y|
      ensures W.Trimmed(y[i]) == y[i]
    {
      assert y[i] in y;
      if y[i] != BLANK {
        var m :| m in p && y[i] == H.Normalize(m);
        NormalizeKeepsTrimmed(m);
      }
    }
  }

  /** Without bare headers, after two runs none of the three munges changes anything. */
  lemma TwoRunsAreStable(doc: Doc)
    requires Flagged(doc, false) && OneLineEach(doc) && W.NoBare(doc)
    ensures var y := RunLines(RunLines(doc));
            W.UpdateWhitespace(y) == y && P.UpdatePreformatted(y) == y && H.UpdateHeaders(y) == y
  {
    hide W.NoBare, W.Trimmed, P.UpdatePreformatted, H.UpdateHeaders, Flagged, OneLineEach;
    RunIsTrimmed(doc);
    RunKeepsBare(doc);
    RunIsTrimmed(RunLines(doc));
    W.TrimmedIsFlagged(doc);
    SecondRunIsStable(W.UpdateWhitespace(doc));
  }

  // The texts that the three munges leave as they are
  ghost predicate Unchanged(doc: Doc) {
    var w := W.UpdateWhitespace(doc);
    var p := P.UpdatePreformatted(w);
    Datas(w) == Datas(doc) && Datas(p) == Datas(w) && Datas(H.UpdateHeaders(p)) == Datas(p)
  }

  lemma SameTexts(a: Doc, b: Doc)
    requires Flagged(a, false) && Flagged(b, false) && Datas(a) == Datas(b)
    ensures a == b
  {
    hide Flagged, FlagLines;
    FlaggedIsUnique(a, false);
    FlaggedIsUnique(b, false);
  }

  /** On a document with a bare header every run changes some text. */
  lemma BareIsChanged(doc: Doc)
    requires Flagged(doc, false) && OneLineEach(doc) && !W.NoBare(doc)
    ensures !Unchanged(doc)
  {
    hide W.Bare, W.Trimmed, H.Fix, P.Spaced, H.Tidy, Flagged;
    if Unchanged(doc) {
      W.TrimmedIsFlagged(doc);
      SameTexts(W.UpdateWhitespace(doc), doc);
      P.SpacedIsFlagged(doc, |doc|);
      SameTexts(P.UpdatePreformatted(doc), doc);
      H.FixIsFlagged(doc, |doc|);
      SameTexts(H.UpdateHeaders(doc), doc);
      H.HeadersAreTidy(doc);
      var l :| l in doc && W.Bare(l);
      var i :| 0 <= i < |doc| && doc[i] == l;
      assert W.UpdateWhitespace(doc)[i] == l;
      BareIsFixed(doc, i);
    }
  }

  lemma BareIsFixed(doc: Doc, i: nat)
    requires i < |doc| && Flagged(doc, false) && OneLineEach(doc) && W.Bare(doc[i]) && W.Trimmed(doc[i]) == doc[i]
    ensures !H.Tidy(doc)
  {
    hide HasLink, Contains, NextFlag, H.FixedText, W.TrimRight;
    var l := doc[i];
    assert FlaggedAt(doc, i, false);
    BareIsHeader(l.data);
    W.FixedIsTrimmedIff(l.data);
    assert H.Fixable(l) && H.Fixed(l).data != l.data;
  }

  lemma BareIsHeader(s: string)
    requires W.BareText(s) && '\n' !in s
    ensures H.HeaderSyntax(s) && "#" <= s
  {
    assert s[0] == '#';
    var gap := H.OnlySpacingChanges(s);
  }
}
