/** Running the munges over one file: what is reported and what is written back. */
module Visit {
  import opened MungeLines
  import Text
  import P = Preformatted
  import H = HeaderLines
  import W = Whitespace
  import T = TableOfContents
  import A = Analytics
  import D = AnalyticsOnDisk
  import B = MacroBlocks
  import L = MungePipeline
  import N = Neatness

  // What a munge returns: a document, and whether it comes with an error
  datatype Munged = Munged(after: Doc, failed: bool)

  datatype Report = Report(final: Doc, modified: bool, failed: bool)

  type Munge = Doc -> Munged

  // A document that ends inside a preformatted block is reported and left as it is.
  const BALANCE: Munge := doc => Munged(doc, Unbalanced(doc))

  const WHITESPACE: Munge := doc => Munged(W.UpdateWhitespace(doc), false)

  const PREFORMATTED: Munge := doc => Munged(P.UpdatePreformatted(doc), false)

  const HEADERS: Munge := doc => Munged(H.UpdateHeaders(doc), false)

  // A failing update returns the document it was given.
  function TocMunge(lower: char -> char): Munge {
    doc => match T.UpdateToc(doc, lower)
           case Ok(after) => Munged(after, false)
           case Fail => Munged(doc, true)
  }

  // A failing removal overwrites the document variable with nil before it is returned.
  function AnalyticsMunge(file: string): Munge {
    doc => match A.UpdateWith(A.LinkLines(file), doc)
           case Ok(after) => Munged(after, false)
           case Fail => Munged([], true)
  }

  function Step(r: Report, munge: Munge): Report {
    var m := munge(r.final);
    if m.failed then Report(m.after, r.modified, true)
    else Report(m.after, r.modified || Datas(m.after) != Datas(r.final), r.failed)
  }

  function Run(munges: seq<Munge>, doc: Doc): Report {
    if munges == [] then Report(doc, false, false)
    else Step(Run(munges[..|munges| - 1], doc), munges[|munges| - 1])
  }

  datatype Result = Result(written: bool, text: string, ok: bool)

  function VisitText(munges: seq<Munge>, s: string, verifyOnly: bool): Result {
    var r := Run(munges, Parse(s));
    if r.modified && verifyOnly then Result(false, s, false)
    else if r.modified then Result(true, Print(r.final), !r.failed)
    else Result(false, s, !r.failed)
  }

  datatype Read = Contents(text: string) | ReadError

  predicate IsMarkdown(path: string) {
    |path| >= 3 && path[|path| - 3..] == ".md"
  }

  // Files with another name are passed over; an unreadable file is an error.
  method VisitLoop(path: string, read: Read, munges: seq<Munge>, verifyOnly: bool) returns (res: Result)
    ensures !IsMarkdown(path) ==> !res.written && res.ok
    ensures IsMarkdown(path) && read.ReadError? ==> !res.written && !res.ok
    ensures IsMarkdown(path) && read.Contents? ==> res == VisitText(munges, read.text, verifyOnly)
  {
    hide Print;
    if !IsMarkdown(path) { return Result(false, "", true); }
    if read.ReadError? { return Result(false, "", false); }
    var s := read.text;
    var mlines := GetMungeLines(s);
    var modificationsMade, errFound := false, false;
    for i := 0 to |munges|
      invariant Report(mlines, modificationsMade, errFound) == Run(munges[..i], Parse(s))
    {
      assert munges[..i + 1][..i] == munges[..i];
      var m := munges[i](mlines);
      if m.failed || Datas(m.after) != Datas(mlines) {
        if m.failed {
          errFound := true;
        } else {
          modificationsMade := true;
        }
      }
      mlines := m.after;
    }
    assert munges[..|munges|] == munges;
    if modificationsMade {
      if verifyOnly {
        return Result(false, s, false);
      }
      return Result(true, Print(mlines), !errFound);
    }
    return Result(false, s, !errFound);
  }

  lemma IsMarkdownIff(path: string)
    ensures IsMarkdown(path) <==> exists stem :: path == stem + ".md"
  {
    if IsMarkdown(path) { assert path == path[..|path| - 3] + ".md"; }
    if stem :| path == stem + ".md" { assert path[|stem|..] == ".md"; }
  }

  /** A failing table of contents leaves the document, a failing analytics munge empties it, and a
      munge that does not fail reports no error. */
  lemma MungesReport(doc: Doc, lower: char -> char, file: string)
    ensures BALANCE(doc) == Munged(doc, doc != [] && doc[|doc| - 1].preformatted)
    ensures TocMunge(lower)(doc).failed <==> T.UpdateToc(doc, lower).Fail?
    ensures TocMunge(lower)(doc).after == if T.UpdateToc(doc, lower).Ok? then T.UpdateToc(doc, lower).doc else doc
    ensures AnalyticsMunge(file)(doc).failed <==> A.UpdateWith(A.LinkLines(file), doc).Fail?
    ensures AnalyticsMunge(file)(doc).after ==
            if A.UpdateWith(A.LinkLines(file), doc).Ok? then A.UpdateWith(A.LinkLines(file), doc).doc else []
  {
    hide T.UpdateToc, A.UpdateWith, A.LinkLines;
  }

  /** A visit writes exactly when a munge that did not fail changed a line, and is in order exactly
      when no munge failed and, when verifying, nothing is to be written. */
  lemma VisitReports(munges: seq<Munge>, s: string)
    ensures var r := Run(munges, Parse(s));
            && VisitText(munges, s, false) == Result(r.modified, if r.modified then Print(r.final) else s, !r.failed)
            && VisitText(munges, s, true) == Result(false, s, !r.modified && !r.failed)
            && (r.failed <==> exists i :: FailsAt(munges, Parse(s), i))
            && (r.modified <==> exists i :: ChangesAt(munges, Parse(s), i))
  {
    hide Parse, Print, Run;
    RunReports(munges, Parse(s));
  }

  // The i-th munge fails on what the ones before it leave.
  ghost predicate FailsAt(munges: seq<Munge>, doc: Doc, i: int) {
    0 <= i < |munges| && munges[i](Run(munges[..i], doc).final).failed
  }

  // It does not fail, and changes a line.
  ghost predicate ChangesAt(munges: seq<Munge>, doc: Doc, i: int) {
    && 0 <= i < |munges| && !munges[i](Run(munges[..i], doc).final).failed
    && Datas(munges[i](Run(munges[..i], doc).final).after) != Datas(Run(munges[..i], doc).final)
  }

  lemma {:induction false} RunReports(munges: seq<Munge>, doc: Doc)
    ensures Run(munges, doc).failed <==> exists i :: FailsAt(munges, doc, i)
    ensures Run(munges, doc).modified <==> exists i :: ChangesAt(munges, doc, i)
  {
    if munges != [] {
      var n := |munges| - 1;
      RunReports(munges[..n], doc);
      LastReport(munges, doc);
      hide FailsAt, ChangesAt;
      if i :| FailsAt(munges, doc, i) { assert i == n || FailsAt(munges[..n], doc, i); }
      if i :| ChangesAt(munges, doc, i) { assert i == n || ChangesAt(munges[..n], doc, i); }
    }
  }

  lemma LastReport(munges: seq<Munge>, doc: Doc)
    requires munges != []
    ensures var n := |munges| - 1; var before := Run(munges[..n], doc);
            && (Run(munges, doc).failed <==> before.failed || FailsAt(munges, doc, n))
            && (Run(munges, doc).modified <==> before.modified || ChangesAt(munges, doc, n))
            && forall i :: i != n ==>
                 (FailsAt(munges, doc, i) <==> FailsAt(munges[..n], doc, i)) && (ChangesAt(munges, doc, i) <==> ChangesAt(munges[..n], doc, i))
  {
    hide Datas;
    var n := |munges| - 1;
    forall i | i != n
      ensures (FailsAt(munges, doc, i) <==> FailsAt(munges[..n], doc, i)) && (ChangesAt(munges, doc, i) <==> ChangesAt(munges[..n], doc, i))
    {
      hide Run;
      if 0 <= i < n { assert munges[..n][..i] == munges[..i]; }
    }
  }

  // ---------- what a clean report means ----------

  lemma {:induction false} CleanRunIsUnchanged(munges: seq<Munge>, doc: Doc)
    requires !Run(munges, doc).modified && !Run(munges, doc).failed
    ensures Datas(Run(munges, doc).final) == Datas(doc)
  {
    if munges != [] {
      CleanRunIsUnchanged(munges[..|munges| - 1], doc);
    }
  }

  /** A verifying visit never writes, and succeeds exactly when an ordinary visit would neither
      write nor fail; the munges then leave every line of the file as it is. */
  lemma VerifyAgreesWithVisit(munges: seq<Munge>, s: string)
    ensures var v, w := VisitText(munges, s, true), VisitText(munges, s, false);
            && !v.written && v.text == s
            && (v.ok <==> !w.written && w.ok)
            && (v.ok ==> Datas(Run(munges, Parse(s)).final) == Datas(Parse(s)))
  {
    hide Print, Parse;
    var r := Run(munges, Parse(s));
    if !r.modified && !r.failed {
      CleanRunIsUnchanged(munges, Parse(s));
    }
  }

  lemma RunSnoc(munges: seq<Munge>, munge: Munge, doc: Doc)
    ensures Run(munges + [munge], doc) == Step(Run(munges, doc), munge)
  {
    assert (munges + [munge])[..|munges|] == munges;
  }

  // Going on from a report
  function Continue(r: Report, munges: seq<Munge>): Report {
    if munges == [] then r else Step(Continue(r, munges[..|munges| - 1]), munges[|munges| - 1])
  }

  lemma {:induction false} RunConcat(a: seq<Munge>, b: seq<Munge>, doc: Doc)
    ensures Run(a + b, doc) == Continue(Run(a, doc), b)
  {
    hide Step;
    if b == [] {
      assert a + b == a;
    } else {
      var n := |b| - 1;
      RunConcat(a, b[..n], doc);
      assert (a + b)[..|a + b| - 1] == a + b[..n];
    }
  }

  // ---------- visiting again and again ----------

  // The text of the file after n visits
  function Visits(munges: seq<Munge>, s: string, n: nat): string {
    if n == 0 then s else VisitText(munges, Visits(munges, s, n - 1), false).text
  }

  /** A file that verifies is left alone by every number of visits. */
  lemma {:induction false} VerifiedStays(munges: seq<Munge>, s: string, n: nat)
    requires VisitText(munges, s, true).ok
    ensures Visits(munges, s, n) == s && VisitText(munges, Visits(munges, s, n), false) == Result(false, s, true)
  {
    hide Run, Parse, Print;
    if n > 0 { VerifiedStays(munges, s, n - 1); }
  }

  ghost predicate WellFormed(doc: Doc) {
    Flagged(doc, false) && OneLineEach(doc)
  }

  // A munge whose result is read back as it was written, and that changes nothing when it fails
  ghost predicate Careful(munge: Munge) {
    forall doc :: WellFormed(doc) ==>
      var m := munge(doc);
      WellFormed(m.after) && (m.after == [] <==> doc == []) && (m.failed ==> m.after == doc)
  }

  lemma {:induction false} CarefulRun(munges: seq<Munge>, doc: Doc)
    requires WellFormed(doc) && forall i :: 0 <= i < |munges| ==> Careful(munges[i])
    ensures var r := Run(munges, doc);
            WellFormed(r.final) && (r.final == [] <==> doc == []) && (!r.modified ==> r.final == doc)
  {
    hide WellFormed;
    if munges != [] {
      var n := |munges| - 1;
      CarefulRun(munges[..n], doc);
      var before, m := Run(munges[..n], doc), munges[n](Run(munges[..n], doc).final);
      assert Careful(munges[n]);
      if !m.failed && Datas(m.after) == Datas(before.final) {
        SameLines(m.after, before.final);
      }
    }
  }

  lemma SameLines(a: Doc, b: Doc)
    requires WellFormed(a) && WellFormed(b) && Datas(a) == Datas(b)
    ensures a == b
  {
    L.SameTexts(a, b);
  }

  /** After a visit by careful munges the file reads as the document they made. */
  lemma VisitReadsBack(munges: seq<Munge>, s: string)
    requires forall i :: 0 <= i < |munges| ==> Careful(munges[i])
    ensures Parse(VisitText(munges, s, false).text) == Run(munges, Parse(s)).final
  {
    hide Parse, Print, Careful, Run, Flagged, OneLineEach;
    ParsedIsFlagged(s);
    CarefulRun(munges, Parse(s));
    var r := Run(munges, Parse(s));
    if r.modified && Parse(s) != [] {
      Reread(r.final);
    }
    if Parse(s) == [] {
      NothingIsModified(munges, []);
    }
  }

  lemma {:induction false} NothingIsModified(munges: seq<Munge>, doc: Doc)
    requires doc == [] && forall i :: 0 <= i < |munges| ==> Careful(munges[i])
    ensures Run(munges, doc).final == [] && !Run(munges, doc).modified
  {
    if munges != [] {
      var n := |munges| - 1;
      NothingIsModified(munges[..n], doc);
      assert Careful(munges[n]) && WellFormed(doc);
    }
  }

  lemma LineMungesAreCareful()
    ensures Careful(BALANCE) && Careful(WHITESPACE) && Careful(PREFORMATTED) && Careful(HEADERS)
  {
    hide Flagged, OneLineEach, W.Trimmed, P.Spaced, H.Fix, H.Tidy, P.OpeningsSpaced, P.ClosingsSpaced;
    forall doc | WellFormed(doc)
      ensures var w := W.UpdateWhitespace(doc); WellFormed(w) && (w == [] <==> doc == [])
      ensures var p := P.UpdatePreformatted(doc); WellFormed(p) && (p == [] <==> doc == [])
      ensures var h := H.UpdateHeaders(doc); WellFormed(h) && (h == [] <==> doc == [])
    {
      W.TrimmedIsFlagged(doc);
      P.SpacedIsFlagged(doc, |doc|);
      P.SpacedIsGood(doc, |doc|);
      H.FixIsFlagged(doc, |doc|);
      H.FixIsGood(doc, |doc|);
    }
  }

  // The document after n runs
  function Rounds(munges: seq<Munge>, doc: Doc, n: nat): Doc {
    if n == 0 then doc else Run(munges, Rounds(munges, doc, n - 1)).final
  }

  lemma {:induction false} VisitsReadBack(munges: seq<Munge>, s: string, n: nat)
    requires forall i :: 0 <= i < |munges| ==> Careful(munges[i])
    ensures Parse(Visits(munges, s, n)) == Rounds(munges, Parse(s), n)
  {
    hide Parse, Careful, Run, VisitText;
    if n > 0 {
      VisitsReadBack(munges, s, n - 1);
      VisitReadsBack(munges, Visits(munges, s, n - 1));
    }
  }

  // ---------- the blank-line munges alone ----------

  const BLANK_LINES: seq<Munge> := [PREFORMATTED, HEADERS]

  lemma BlankLinesRun(doc: Doc)
    ensures var r, p := Run(BLANK_LINES, doc), P.UpdatePreformatted(doc);
            && r.final == L.RunOnce(doc) && !r.failed
            && (!r.modified <==> Datas(p) == Datas(doc) && Datas(H.UpdateHeaders(p)) == Datas(p))
  {
    hide P.UpdatePreformatted, H.UpdateHeaders, Datas;
    RunSnoc([], PREFORMATTED, doc);
    RunSnoc([PREFORMATTED], HEADERS, doc);
    assert [] + [PREFORMATTED] == [PREFORMATTED] && [PREFORMATTED] + [HEADERS] == BLANK_LINES;
  }

  lemma {:induction false} BlankLinesSettle(doc: Doc, n: nat)
    requires WellFormed(doc) && n >= 2
    ensures var y := Rounds(BLANK_LINES, doc, n); P.UpdatePreformatted(y) == y && H.UpdateHeaders(y) == y
  {
    hide P.UpdatePreformatted, H.UpdateHeaders, Run, Flagged, OneLineEach;
    var before := Rounds(BLANK_LINES, doc, n - 1);
    BlankLinesRun(before);
    if n > 2 {
      BlankLinesSettle(doc, n - 1);
    } else {
      BlankLinesRun(doc);
      assert Rounds(BLANK_LINES, doc, 0) == doc && before == L.RunOnce(doc);
      L.SecondRunIsStable(doc);
    }
  }

  /** When only the two blank-line munges run, every file verifies after two visits and after any
      number beyond. */
  lemma TwoVisitsVerify(s: string, n: nat)
    requires n >= 2
    ensures VisitText(BLANK_LINES, Visits(BLANK_LINES, s, n), true).ok
  {
    hide P.UpdatePreformatted, H.UpdateHeaders, Parse, Print, Run, Careful, Rounds, Visits, Flagged, OneLineEach;
    LineMungesAreCareful();
    VisitsReadBack(BLANK_LINES, s, n);
    ParsedIsFlagged(s);
    BlankLinesSettle(Parse(s), n);
    BlankLinesRun(Rounds(BLANK_LINES, Parse(s), n));
  }

  // ---------- with the balance check and trimming, in the tool's order ----------

  const LINE_MUNGES: seq<Munge> := [BALANCE, WHITESPACE, PREFORMATTED, HEADERS]

  lemma LineRun(doc: Doc)
    ensures var r := Run(LINE_MUNGES, doc);
            r.final == L.RunLines(doc) && (r.failed <==> Unbalanced(doc)) && (!r.modified <==> L.Unchanged(doc))
  {
    hide W.UpdateWhitespace, P.UpdatePreformatted, H.UpdateHeaders, Datas, Run;
    assert Run([], doc) == Report(doc, false, false) by { RunNone(doc); }
    RunSnoc([], BALANCE, doc);
    RunSnoc([BALANCE], WHITESPACE, doc);
    RunSnoc([BALANCE, WHITESPACE], PREFORMATTED, doc);
    RunSnoc([BALANCE, WHITESPACE, PREFORMATTED], HEADERS, doc);
    assert [] + [BALANCE] == [BALANCE] && [BALANCE] + [WHITESPACE] == [BALANCE, WHITESPACE];
    assert [BALANCE, WHITESPACE] + [PREFORMATTED] == [BALANCE, WHITESPACE, PREFORMATTED];
    assert [BALANCE, WHITESPACE, PREFORMATTED] + [HEADERS] == LINE_MUNGES;
  }

  lemma RunNone(doc: Doc)
    ensures Run([], doc) == Report(doc, false, false)
  {
  }

  lemma {:induction false} LineRounds(doc: Doc, n: nat)
    requires WellFormed(doc)
    ensures var y := Rounds(LINE_MUNGES, doc, n);
            WellFormed(y) && (W.NoBare(y) <==> W.NoBare(doc)) && (Unbalanced(y) <==> Unbalanced(doc))
    ensures W.NoBare(doc) && n >= 2 ==> L.Unchanged(Rounds(LINE_MUNGES, doc, n))
  {
    hide Run, Flagged, OneLineEach, W.NoBare, L.RunLines, L.Unchanged;
    if n > 0 {
      LineRounds(doc, n - 1);
      var before := Rounds(LINE_MUNGES, doc, n - 1);
      LineRun(before);
      L.LinesKeepForm(before);
      L.RunKeepsBare(before);
      if W.NoBare(doc) && n >= 2 {
        LineRounds(doc, n - 2);
        var start := Rounds(LINE_MUNGES, doc, n - 2);
        LineRun(start);
        SettledIsUnchanged(start);
      }
    }
  }

  lemma SettledIsUnchanged(doc: Doc)
    requires WellFormed(doc) && W.NoBare(doc)
    ensures L.Unchanged(L.RunLines(L.RunLines(doc)))
  {
    hide W.NoBare, W.UpdateWhitespace, P.UpdatePreformatted, H.UpdateHeaders, L.RunLines, Flagged, OneLineEach;
    L.TwoRunsAreStable(doc);
  }

  /** After two or more visits a file verifies if and only if it was balanced and had no header of
      bare sharps. A file with such a header never verifies, however often it is visited. */
  lemma VerifiesIff(s: string, n: nat)
    ensures var ok := VisitText(LINE_MUNGES, Visits(LINE_MUNGES, s, n), true).ok;
            && (n >= 2 ==> (ok <==> W.NoBare(Parse(s)) && !Unbalanced(Parse(s))))
            && (!W.NoBare(Parse(s)) ==> !ok)
  {
    hide Parse, Print, Run, Careful, Rounds, Visits, Flagged, OneLineEach, W.NoBare, L.Unchanged;
    LineMungesAreCareful();
    VisitsReadBack(LINE_MUNGES, s, n);
    ParsedIsFlagged(s);
    LineRounds(Parse(s), n);
    var y := Rounds(LINE_MUNGES, Parse(s), n);
    LineRun(y);
    if !W.NoBare(y) {
      L.BareIsChanged(y);
    }
  }

  const BARE_HEADER := "#\n"

  lemma BareHeaderParses()
    ensures Parse(BARE_HEADER) == [NewLine("#")]
  {
    var doc := [NewLine("#")];
    assert SkipSpace("#") == "#";
    assert Plain(doc);
    PlainIsFlagged(doc, false);
    hide Parse, Fence, NewLine;
    NewIsPlain("#");
    assert Datas(doc) == ["#"];
    assert Print(doc) == BARE_HEADER;
    Reread(doc);
  }

  /** Such a file: the header munge appends a space, which the next visit trims away again. */
  lemma BareHeaderNeverVerifies(n: nat)
    ensures !VisitText(LINE_MUNGES, Visits(LINE_MUNGES, BARE_HEADER, n), true).ok
  {
    hide VisitText, Visits, Parse, NewLine;
    BareHeaderParses();
    NewIsPlain("#");
    assert H.SharpCount("#") == 1;
    W.TrimIs("", "");
    assert W.Bare(NewLine("#"));
    assert NewLine("#") in Parse(BARE_HEADER);
    VerifiesIff(BARE_HEADER, n);
  }

  // ---------- a failing analytics munge loses the document ----------

  lemma JoinIsLonger(lines: seq<string>)
    requires |lines| >= 2
    ensures Text.Join(lines, '\n') != ""
  {
  }

  // A munge that leaves an empty document empty and does not fail on it
  ghost predicate KeepsEmpty(munge: Munge) {
    munge([]) == Munged([], false)
  }

  // A munge that leaves two or more lines where there were two or more
  ghost predicate KeepsLines(munge: Munge) {
    forall doc :: |doc| >= 2 ==> |munge(doc).after| >= 2
  }

  lemma {:induction false} StaysEmpty(r: Report, munges: seq<Munge>)
    requires r.final == [] && forall i :: 0 <= i < |munges| ==> KeepsEmpty(munges[i])
    ensures Continue(r, munges) == r
  {
    if munges != [] {
      StaysEmpty(r, munges[..|munges| - 1]);
      assert KeepsEmpty(munges[|munges| - 1]);
    }
  }

  lemma {:induction false} StaysLong(r: Report, munges: seq<Munge>)
    requires |r.final| >= 2 && forall i :: 0 <= i < |munges| ==> KeepsLines(munges[i])
    ensures |Continue(r, munges).final| >= 2
  {
    if munges != [] {
      StaysLong(r, munges[..|munges| - 1]);
      assert KeepsLines(munges[|munges| - 1]);
    }
  }

  lemma LongPrints(doc: Doc)
    requires |doc| >= 2
    ensures Print(doc) != "\n"
  {
    JoinIsLonger(Datas(doc));
  }

  /** Whatever munges run before it, and whatever munges that leave an empty document empty run after
      it: when one before changed the document and the analytics marks do not balance in what they
      made of it, the visit overwrites the whole file with one line break and reports an error. If
      the munges after it also leave two or more lines where there were, the file is overwritten so
      in no other case. */
  lemma ErasedIff(before: seq<Munge>, file: string, after: seq<Munge>, s: string)
    requires forall i :: 0 <= i < |after| ==> KeepsEmpty(after[i])
    ensures var r := Run(before, Parse(s)); var v := VisitText(before + [AnalyticsMunge(file)] + after, s, false);
            && (r.modified && B.Remove(r.final, A.ANALYTICS_TAG).Fail? ==> v == Result(true, "\n", false))
            && ((forall i :: 0 <= i < |after| ==> KeepsLines(after[i])) && v == Result(true, "\n", false) ==>
                  r.modified && B.Remove(r.final, A.ANALYTICS_TAG).Fail?)
  {
    hide Run, Parse, B.Remove, A.Spaced, A.StripLinks, Print, A.LinkLines, A.UpdateWith, KeepsEmpty;
    hide KeepsLines, Continue;
    var r := Run(before, Parse(s));
    RunSnoc(before, AnalyticsMunge(file), Parse(s));
    RunConcat(before + [AnalyticsMunge(file)], after, Parse(s));
    A.AnalyticsOutput(A.LinkLines(file), r.final);
    var mid := Step(r, AnalyticsMunge(file));
    if B.Remove(r.final, A.ANALYTICS_TAG).Fail? {
      EmptyPrints();
      StaysEmpty(mid, after);
    } else if forall i :: 0 <= i < |after| ==> KeepsLines(after[i]) {
      assert |mid.final| >= 2;
      StaysLong(mid, after);
      LongPrints(Continue(mid, after).final);
    }
  }

  lemma {:induction false} NothingIsLost(doc: Doc, k: nat)
    requires k <= |doc|
    ensures |P.Spaced(doc, k)| >= k && |H.Fix(doc, k)| >= k
  {
    hide P.Extend, H.Extend;
    if k > 0 {
      NothingIsLost(doc, k - 1);
      SpacedGrows(doc, k - 1, P.Spaced(doc, k - 1));
      FixGrows(doc, k - 1, H.Fix(doc, k - 1));
    }
  }

  lemma SpacedGrows(doc: Doc, i: nat, out: Doc)
    requires i < |doc|
    ensures |P.Extend(doc, i, out)| > |out|
  {
    hide BLANK;
  }

  lemma FixGrows(doc: Doc, i: nat, out: Doc)
    requires i < |doc|
    ensures |H.Extend(doc, i, out)| > |out|
  {
    hide BLANK, H.Fixable, H.Fixed;
  }

  /** The line munges are such munges. */
  lemma LineMungesAreMild()
    ensures forall i :: 0 <= i < |LINE_MUNGES| ==> KeepsEmpty(LINE_MUNGES[i]) && KeepsLines(LINE_MUNGES[i])
  {
    hide W.Trimmed;
    assert P.UpdatePreformatted([]) == [] && H.UpdateHeaders([]) == [] && W.UpdateWhitespace([]) == [];
    forall doc: Doc
      ensures |P.UpdatePreformatted(doc)| >= |doc| && |H.UpdateHeaders(doc)| >= |doc|
    {
      NothingIsLost(doc, |doc|);
    }
  }

  lemma EmptyPrints()
    ensures Print([]) == "\n"
  {
    assert Datas([]) == [];
  }

  lemma {:induction false} FailureIsKept(r: Report, munges: seq<Munge>)
    ensures Continue(r.(failed := true), munges) == Continue(r, munges).(failed := true)
  {
    if munges != [] {
      FailureIsKept(r, munges[..|munges| - 1]);
    }
  }

  /** A failing TOC munge, in contrast, is as if it had not run: whatever munges run before and after
      it, the visit differs from one without it only in reporting an error. */
  lemma FailingTocKeepsText(before: seq<Munge>, lower: char -> char, after: seq<Munge>, s: string)
    requires T.UpdateToc(Run(before, Parse(s)).final, lower).Fail?
    ensures VisitText(before + [TocMunge(lower)] + after, s, false) == VisitText(before + after, s, false).(ok := false)
  {
    hide Run, Parse, Print, T.UpdateToc, Continue;
    RunSnoc(before, TocMunge(lower), Parse(s));
    RunConcat(before + [TocMunge(lower)], after, Parse(s));
    RunConcat(before, after, Parse(s));
    FailureIsKept(Run(before, Parse(s)), after);
  }

  // A header without its space, and a stray end mark
  function UnbalancedDoc(): Doc {
    [NewLine("#a"), NewLine(EndMark(A.ANALYTICS_TAG))]
  }

  lemma SharpA()
    ensures var l := NewLine("#a"); H.Fixable(l) && H.Fixed(l).data == "# a" && l.data == "#a" && !Fence(l.data) && '\n' !in l.data
  {
    hide HasLink, Contains, InlineFence;
    assert "#a"[1..] == "a" && SkipSpace("a") == "a";
    assert H.SharpCount("#a") == 1 && H.Title("#a") == "a";
    assert "#a"[..1] + " " + "a" == "# a";
    assert SkipSpace("#a") == "#a";
  }

  lemma UnbalancedLines()
    ensures var doc := UnbalancedDoc();
            && H.Fixable(doc[0]) && H.Fixed(doc[0]).data == "# a" && !H.Fixable(doc[1]) && doc[1].data != ""
            && Flagged(doc, false) && OneLineEach(doc)
  {
    hide NewLine, H.Fixable, H.Fixed, Fence, EndMark, BeginMark, A.ANALYTICS_TAG, B.IsBegin, B.IsEnd, Flagged;
    SharpA();
    A.TagIsOneLine();
    B.MarkLines(A.ANALYTICS_TAG);
    var e := NewLine(EndMark(A.ANALYTICS_TAG));
    N.MarkIsPlain(e, A.ANALYTICS_TAG);
    assert [e][0] == e;
    PlainIsFlagged(UnbalancedDoc(), false);
  }

  lemma UnbalancedHeaders()
    ensures H.UpdateHeaders(UnbalancedDoc()) == [H.Fixed(UnbalancedDoc()[0]), BLANK, UnbalancedDoc()[1]]
  {
    hide H.Fixable, H.Fixed, NewLine, BLANK;
    UnbalancedLines();
    var doc := UnbalancedDoc();
    assert H.Fix(doc, 1) == [H.Fixed(doc[0]), BLANK];
  }

  lemma {:induction false} StrayEndFails(a: Doc, e: Line, token: string)
    requires B.NoActiveMarks(a, token) && B.IsEnd(e, token) && !B.IsBegin(e, token) && !e.preformatted
    ensures B.Remove(a + [e], token).Fail?
  {
    B.RemoveCopiesUnmarked(a, token);
    B.RemoveScanConcat(a, [e], token, false);
  }

  lemma UnbalancedRemoval()
    ensures B.Remove(H.UpdateHeaders(UnbalancedDoc()), A.ANALYTICS_TAG).Fail?
  {
    UnbalancedLines();
    UnbalancedHeaders();
    B.TokenMarks(A.ANALYTICS_TAG);
    A.BlankIsPlain(A.ANALYTICS_TAG);
    hide NewLine, H.Fixable, H.Fixed, H.Fix, B.IsBegin, B.IsEnd, B.Remove, BLANK, EndMark;
    var first, last := H.Fixed(UnbalancedDoc()[0]), UnbalancedDoc()[1];
    if B.IsMark(first, A.ANALYTICS_TAG) { B.MarkText(first, A.ANALYTICS_TAG); }
    assert !last.preformatted by { NewIsPlain(EndMark(A.ANALYTICS_TAG)); }
    StrayEndFails([first, BLANK], last, A.ANALYTICS_TAG);
    assert [first, BLANK] + [last] == H.UpdateHeaders(UnbalancedDoc());
  }

  lemma UnbalancedRun()
    ensures var r := Run([HEADERS], UnbalancedDoc()); r.modified && r.final == H.UpdateHeaders(UnbalancedDoc())
  {
    UnbalancedHeaders();
    hide H.UpdateHeaders, NewLine, BLANK, H.Fixed, Run;
    var doc := UnbalancedDoc();
    assert |Datas(H.UpdateHeaders(doc))| == 3 && |Datas(doc)| == 2;
    RunNone(doc);
    RunSnoc([], HEADERS, doc);
    assert [] + [HEADERS] == [HEADERS];
  }

  /** There is such a file. */
  lemma UnbalancedFileIsErased(file: string)
    ensures var s := Print(UnbalancedDoc());
            Parse(s) == UnbalancedDoc() && VisitText([HEADERS, AnalyticsMunge(file)], s, false) == Result(true, "\n", false)
  {
    hide Parse, Print, Run, B.Remove, H.UpdateHeaders, VisitText, Flagged, OneLineEach;
    UnbalancedLines();
    ParsePrint(UnbalancedDoc());
    UnbalancedRun();
    UnbalancedRemoval();
    ErasedIff([HEADERS], file, [], Print(UnbalancedDoc()));
    assert [HEADERS] + [AnalyticsMunge(file)] + [] == [HEADERS, AnalyticsMunge(file)];
  }

  // ---------- a file that ends inside a fence ----------

  function BalanceAndAnalytics(file: string): seq<Munge> {
    [BALANCE, AnalyticsMunge(file)]
  }

  lemma BalanceAndAnalyticsRun(file: string, doc: Doc)
    requires A.UpdateWith(A.LinkLines(file), doc).Ok?
    ensures var out := A.UpdateWith(A.LinkLines(file), doc).doc;
            Run(BalanceAndAnalytics(file), doc) == Report(out, Datas(out) != Datas(doc), Unbalanced(doc))
  {
    hide A.UpdateWith, A.LinkLines, Datas, Run;
    RunNone(doc);
    RunSnoc([], BALANCE, doc);
    RunSnoc([BALANCE], AnalyticsMunge(file), doc);
    assert [] + [BALANCE] == [BALANCE] && [BALANCE] + [AnalyticsMunge(file)] == BalanceAndAnalytics(file);
  }

  lemma StuckVisit(file: string, s: string)
    requires '\n' !in file && A.Stuck(Parse(s))
    ensures var t := VisitText(BalanceAndAnalytics(file), s, false); var ins := A.LinkLines(file);
            && !t.ok && A.Stuck(Parse(t.text))
            && Datas(Parse(t.text)) == Datas(A.Spaced(Parse(s)) + A.Block(ins))
            && A.Spaced(Parse(t.text)) == Parse(t.text) + [BLANK]
  {
    hide Run, Parse, Print, A.LinkLines, A.Block, A.Spaced, A.Stuck, BLANK, A.UpdateWith, Plain, OneLineEach;
    hide BalanceAndAnalytics;
    var ins, doc := A.LinkLines(file), Parse(s);
    A.LinkFile(file);
    A.StuckRun(ins, doc);
    assert Unbalanced(doc) by { StuckIsUnbalanced(doc); }
    BalanceAndAnalyticsRun(file, doc);
    assert |A.Spaced(doc) + A.Block(ins)| > |doc| by { BlockIsLonger(doc, ins); }
  }

  lemma StuckIsUnbalanced(doc: Doc)
    requires A.Stuck(doc)
    ensures Unbalanced(doc)
  {
  }

  lemma BlockIsLonger(doc: Doc, ins: Doc)
    ensures |A.Spaced(doc) + A.Block(ins)| > |doc|
  {
  }

  lemma {:induction false} StuckForEver(file: string, s: string, n: nat)
    requires '\n' !in file && A.Stuck(Parse(s)) && A.Spaced(Parse(s)) == Parse(s) + [BLANK]
    ensures var munges := BalanceAndAnalytics(file); var t := Visits(munges, s, n);
            && A.Stuck(Parse(t)) && A.Spaced(Parse(t)) == Parse(t) + [BLANK]
            && !VisitText(munges, t, false).ok
            && Datas(Parse(Visits(munges, s, n + 1))) == Datas(Parse(t)) + Datas(A.Appended(A.LinkLines(file)))
  {
    hide VisitText, Parse, A.LinkLines, A.Block, A.Spaced, A.Stuck, BLANK, BalanceAndAnalytics;
    var munges := BalanceAndAnalytics(file);
    if n > 0 {
      StuckForEver(file, s, n - 1);
      StuckVisit(file, Visits(munges, s, n - 1));
    }
    var t := Visits(munges, s, n);
    StuckVisit(file, t);
    assert Visits(munges, s, n + 1) == VisitText(munges, t, false).text;
    assert A.Spaced(Parse(t)) + A.Block(A.LinkLines(file)) == Parse(t) + A.Appended(A.LinkLines(file));
    DatasConcat(Parse(t), A.Appended(A.LinkLines(file)));
  }

  lemma DatasConcat(a: Doc, b: Doc)
    ensures Datas(a + b) == Datas(a) + Datas(b)
  {
  }

  /** A file whose kept lines are read back ending inside a fence and with nothing to remove: from
      the first visit on, every visit by the balance check and the analytics munge reports an error
      and yet appends one more block. */
  lemma FenceGrowsForEver(file: string, s: string, n: nat)
    requires '\n' !in file && n >= 1 && B.Remove(Parse(s), A.ANALYTICS_TAG).Ok?
    requires Unbalanced(D.ReadBack(Parse(s))) && D.Untouched(D.ReadBack(Parse(s)))
    ensures var munges := BalanceAndAnalytics(file); var t := Visits(munges, s, n);
            && !VisitText(munges, t, false).ok
            && Datas(Parse(Visits(munges, s, n + 1))) == Datas(Parse(t)) + Datas(A.Appended(A.LinkLines(file)))
  {
    hide VisitText, Visits, Parse, A.LinkLines, A.Spaced, A.Stuck, BLANK, BalanceAndAnalytics, A.Appended;
    hide B.Remove, D.ReadBack;
    var munges := BalanceAndAnalytics(file);
    FirstVisit(file, s);
    var t := VisitText(munges, s, false).text;
    StuckForEver(file, t, n - 1);
    LaterVisits(munges, s, n - 1);
    LaterVisits(munges, s, n);
  }

  /** So it is for a file that ends inside a fence and has none inside its analytics blocks. */
  lemma UnclosedFenceGrowsForEver(file: string, s: string, n: nat)
    requires '\n' !in file && Unbalanced(Parse(s)) && !A.FenceInBlock(Parse(s), false)
    requires B.Remove(Parse(s), A.ANALYTICS_TAG).Ok? && n >= 1
    ensures var munges := BalanceAndAnalytics(file); var t := Visits(munges, s, n);
            && !VisitText(munges, t, false).ok
            && Datas(Parse(Visits(munges, s, n + 1))) == Datas(Parse(t)) + Datas(A.Appended(A.LinkLines(file)))
  {
    hide VisitText, Visits, Parse, BalanceAndAnalytics, A.Appended, B.Remove, D.ReadBack, A.FenceInBlock;
    hide D.Untouched, Flagged;
    ParsedIsFlagged(s);
    D.FencelessReadsBack(Parse(s));
    FenceGrowsForEver(file, s, n);
  }

  lemma {:induction false} LaterVisits(munges: seq<Munge>, s: string, n: nat)
    ensures Visits(munges, VisitText(munges, s, false).text, n) == Visits(munges, s, n + 1)
  {
    hide VisitText;
    if n > 0 {
      LaterVisits(munges, s, n - 1);
    } else {
      assert Visits(munges, s, 0) == s;
    }
  }

  lemma FirstVisit(file: string, s: string)
    requires '\n' !in file && B.Remove(Parse(s), A.ANALYTICS_TAG).Ok?
    requires Unbalanced(D.ReadBack(Parse(s))) && D.Untouched(D.ReadBack(Parse(s)))
    ensures var t := VisitText(BalanceAndAnalytics(file), s, false).text;
            A.Stuck(Parse(t)) && A.Spaced(Parse(t)) == Parse(t) + [BLANK]
  {
    hide Run, Parse, Print, A.LinkLines, A.Block, A.Spaced, A.Stuck, BLANK, A.UpdateWith, Plain, Flagged, OneLineEach;
    hide BalanceAndAnalytics, B.Remove, D.ReadBack, D.Untouched, A.Kept;
    var ins, doc := A.LinkLines(file), Parse(s);
    ParsedIsFlagged(s);
    A.LinkFile(file);
    A.AnalyticsOutput(ins, doc);
    BalanceAndAnalyticsRun(file, doc);
    D.StuckReadBack(ins, doc);
    var out := A.Spaced(A.Kept(doc)) + A.Block(ins);
    assert A.UpdateWith(ins, doc) == Ok(out) by { A.KeptIs(doc); }
    A.OutputIsOneLineEach(ins, doc);
    if Datas(out) == Datas(doc) {
      RereadDatas(s, out);
    }
  }

  // An unchanged file reads as the output does.
  lemma RereadDatas(s: string, out: Doc)
    requires out != [] && OneLineEach(out) && Datas(out) == Datas(Parse(s))
    ensures Parse(Print(out)) == Parse(s)
  {
    hide Print, Flagged, FlagLines;
    Reread(out);
    ParsedIsFlagged(s);
    FlaggedIsUnique(Parse(s), false);
  }

  const UNCLOSED := "```\n"

  lemma UnclosedParses()
    ensures Parse(UNCLOSED) == [NewLine("```").(preformatted := true)]
  {
    P.OneBlockLines();
    hide Fence, InlineFence, HasLink, Contains, Parse;
    var doc := [NewLine("```").(preformatted := true)];
    assert FlaggedAt(doc, 0, false);
    assert Datas(doc) == ["```"];
    assert Print(doc) == UNCLOSED;
    assert '\n' !in "```";
    Reread(doc);
  }

  /** Such a file: one opening fence. */
  lemma UnclosedFileGrows(file: string, n: nat)
    requires '\n' !in file && n >= 1
    ensures var munges := BalanceAndAnalytics(file); var t := Visits(munges, UNCLOSED, n);
            && !VisitText(munges, t, false).ok
            && Datas(Parse(Visits(munges, UNCLOSED, n + 1))) == Datas(Parse(t)) + Datas(A.Appended(A.LinkLines(file)))
  {
    hide Parse, NewLine, VisitText, Visits, BalanceAndAnalytics, A.Appended, A.LinkLines;
    UnclosedParses();
    assert Parse(UNCLOSED)[1..] == [];
    assert !A.FenceInBlock([], false);
    UnclosedFenceGrowsForEver(file, UNCLOSED, n);
  }
}
