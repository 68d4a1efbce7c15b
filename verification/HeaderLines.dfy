/** The munge that puts a space after the sharps of a header and blank lines around it. */
module HeaderLines {
  import opened MungeLines

  function SharpCount(s: string): (n: nat)
    ensures n <= |s| && (forall i :: 0 <= i < n ==> s[i] == '#') && (n < |s| ==> s[n] != '#')
  {
    if s == [] || s[0] != '#' then 0 else 1 + SharpCount(s[1..])
  }

  // The text of a header, without sharps and the space after them
  function Title(s: string): string {
    SkipSpace(s[SharpCount(s)..])
  }

  // ^(#+)\s*(.*)$, where . stops at a line break
  predicate HeaderSyntax(s: string) {
    SharpCount(s) > 0 && '\n' !in Title(s)
  }

  predicate Fixable(l: Line) {
    !l.preformatted && l.header && HeaderSyntax(l.data)
  }

  function FixedText(s: string): string {
    s[..SharpCount(s)] + " " + Title(s)
  }

  function Fixed(l: Line): Line {
    NewLine(FixedText(l.data))
  }

  // The output so far, made ready for the header at line i
  function Spaced(i: nat, out: Doc): Doc {
    if i != 0 && out != [] && out[|out| - 1].data != "" then out + [BLANK] else out
  }

  // The output so far, extended by the rewritten header at line i
  function Rewritten(doc: Doc, i: nat, out: Doc): Doc
    requires i < |doc|
  {
    var next := Spaced(i, out) + [Fixed(doc[i])];
    if i + 1 < |doc| && doc[i + 1].data != "" then next + [BLANK] else next
  }

  function Extend(doc: Doc, i: nat, out: Doc): Doc
    requires i < |doc|
  {
    if Fixable(doc[i]) then Rewritten(doc, i, out) else out + [doc[i]]
  }

  // The output for the first k lines
  function Fix(doc: Doc, k: nat): Doc
    requires k <= |doc|
  {
    if k == 0 then [] else Extend(doc, k - 1, Fix(doc, k - 1))
  }

  function UpdateHeaders(doc: Doc): Doc {
    Fix(doc, |doc|)
  }

  // ---------- the loop ----------

  method FixHeaderLine(mlines: Doc, newlines: Doc, linenum: nat) returns (out: Doc)
    requires linenum < |mlines| && (linenum > 0 ==> newlines != [])
    ensures newlines + out ==
            if HeaderSyntax(mlines[linenum].data) then Rewritten(mlines, linenum, newlines) else newlines + [mlines[linenum]]
    ensures out != []
  {
    hide NewLine, HeaderSyntax, FixedText;
    out := [];
    var mline := mlines[linenum];
    if !HeaderSyntax(mline.data) {
      out := out + [mline];
      return;
    }
    if linenum != 0 {
      if newlines[|newlines| - 1].data != "" {
        out := out + [BLANK];
      }
    }
    out := out + [NewLine(FixedText(mline.data))];
    if |mlines| > linenum + 1 && mlines[linenum + 1].data != "" {
      out := out + [BLANK];
    }
  }

  method UpdateHeaderLines(mlines: Doc) returns (out: Doc)
    ensures out == UpdateHeaders(mlines)
  {
    hide NewLine, HeaderSyntax, FixedText, BLANK;
    out := [];
    for i := 0 to |mlines|
      invariant out == Fix(mlines, i) && (i > 0 ==> out != [])
    {
      var mline := mlines[i];
      if mline.preformatted {
        out := out + [mline];
        continue;
      }
      if !mline.header {
        out := out + [mline];
        continue;
      }
      var newLines := FixHeaderLine(mlines, out, i);
      out := out + newLines;
    }
  }

  // ---------- a fixed header ----------

  lemma {:induction false} SharpCountIs(n: nat, s: string)
    requires n <= |s| && (forall i :: 0 <= i < n ==> s[i] == '#') && (n < |s| ==> s[n] != '#')
    ensures SharpCount(s) == n
  {
    if n > 0 {
      SharpCountIs(n - 1, s[1..]);
    }
  }

  lemma FixedTextIsStable(s: string)
    requires HeaderSyntax(s)
    ensures var f := FixedText(s);
            f != [] && f[0] == '#' && HeaderSyntax(f) && FixedText(f) == f && SharpCount(f) < |f| && f[SharpCount(f)] == ' '
  {
    var f, n := FixedText(s), SharpCount(s);
    SharpCountIs(n, f);
    assert f[n..] == " " + Title(s);
    assert (" " + Title(s))[1..] == Title(s);
    assert SkipSpace(" " + Title(s)) == Title(s);
    assert f[..n] == s[..n];
  }

  /** The fixed text has the sharps and the title of the original; only the white space between
      them differs. */
  lemma OnlySpacingChanges(s: string) returns (gap: string)
    ensures s == s[..SharpCount(s)] + gap + Title(s) && forall c :: c in gap ==> IsSpace(c)
  {
    gap := Margin(s[SharpCount(s)..]);
  }

  /** A header is sharps, blanks and a title on the same line, and is rewritten with one space. */
  lemma FixedReads(n: nat, gap: string, title: string)
    requires Blanks(gap) && (title != [] ==> !Blanks([title[0]])) && (gap == [] && title != [] ==> title[0] != '#')
    ensures var sharps := seq(n + 1, i => '#');
            && (HeaderSyntax(sharps + (gap + title)) <==> '\n' !in title)
            && FixedText(sharps + (gap + title)) == sharps + " " + title
  {
    hide SkipSpace;
    var sharps := seq(n + 1, i => '#');
    var s := sharps + (gap + title);
    if gap != [] { assert gap[0] != '#'; }
    SharpCountIs(n + 1, s);
    assert s[..n + 1] == sharps && s[n + 1..] == gap + title;
    SkipTo(gap, title);
  }

  lemma SkipTo(gap: string, title: string)
    requires Blanks(gap) && (title != [] ==> !Blanks([title[0]]))
    ensures SkipSpace(gap + title) == title
  {
    if title == [] {
      SkipAll(gap);
      assert gap + title == gap;
    } else {
      SkipMargin(gap, title);
    }
  }

  lemma {:induction false} SkipAll(gap: string)
    requires Blanks(gap)
    ensures SkipSpace(gap) == []
  {
    if gap != [] { SkipAll(gap[1..]); }
  }

  /** Only headers outside preformatted text are rewritten. */
  lemma NormalizedLine(l: Line)
    ensures Normalize(l) == if l.header && !l.preformatted && HeaderSyntax(l.data) then NewLine(FixedText(l.data)) else l
  {
    hide NewLine, HeaderSyntax, FixedText;
  }

  lemma FixedIsStable(l: Line)
    requires Fixable(l)
    ensures Fixable(Fixed(l)) && Fixed(Fixed(l)) == Fixed(l) && Fixed(l).data != ""
  {
    hide HasLink, Contains, HeaderSyntax, FixedText;
    FixedTextIsStable(l.data);
  }

  lemma BlankIsNotFixable()
    ensures BLANK.data == "" && !Fixable(BLANK)
    ensures forall l: Line :: l.data == "" ==> !Fixable(l)
  {
    Blank();
  }

  // ---------- the output ----------

  ghost predicate Tidy(doc: Doc) {
    forall j :: 0 <= j < |doc| && Fixable(doc[j]) ==>
      && Fixed(doc[j]) == doc[j]
      && (j > 0 ==> doc[j - 1].data == "")
      && (j + 1 < |doc| ==> doc[j + 1].data == "")
  }

  ghost predicate GoodPrefix(doc: Doc, k: nat, out: Doc)
    requires k <= |doc|
  {
    && (k > 0 <==> out != [])
    && Tidy(out)
    && (out != [] && Fixable(out[|out| - 1]) && k < |doc| ==> doc[k].data == "")
  }

  lemma TidySnoc(out: Doc, l: Line)
    requires Tidy(out)
    requires Fixable(l) ==> Fixed(l) == l && (out != [] ==> out[|out| - 1].data == "")
    requires out != [] && Fixable(out[|out| - 1]) ==> l.data == ""
    ensures Tidy(out + [l])
  {
    hide Fixable, Fixed;
    var r := out + [l];
    assert forall j :: 0 <= j < |out| ==> r[j] == out[j];
  }

  lemma GoodStep(doc: Doc, i: nat, out: Doc)
    requires i < |doc| && GoodPrefix(doc, i, out)
    ensures GoodPrefix(doc, i + 1, Extend(doc, i, out))
  {
    hide Fixable, Fixed, BLANK, Tidy;
    BlankIsNotFixable();
    if Fixable(doc[i]) {
      FixedIsStable(doc[i]);
      TidySnoc(out, BLANK);
      TidySnoc(Spaced(i, out), Fixed(doc[i]));
      TidySnoc(Spaced(i, out) + [Fixed(doc[i])], BLANK);
    } else {
      TidySnoc(out, doc[i]);
    }
  }

  lemma {:induction false} FixIsGood(doc: Doc, k: nat)
    requires k <= |doc|
    ensures GoodPrefix(doc, k, Fix(doc, k))
  {
    hide Tidy, Extend;
    if k > 0 {
      FixIsGood(doc, k - 1);
      GoodStep(doc, k - 1, Fix(doc, k - 1));
    } else {
      assert Tidy([]) by { EmptyIsTidy(); }
    }
  }

  lemma EmptyIsTidy()
    ensures Tidy([])
  {
  }

  /** In the output every header outside preformatted text has one space after its sharps and a
      blank line on each side, except at the ends of the document. */
  lemma HeadersAreTidy(doc: Doc)
    ensures Tidy(UpdateHeaders(doc))
  {
    FixIsGood(doc, |doc|);
  }

  lemma {:induction false} TidyIsFixed(doc: Doc, k: nat)
    requires k <= |doc| && Tidy(doc)
    ensures Fix(doc, k) == doc[..k]
  {
    hide Fixable, Fixed, BLANK;
    if k > 0 {
      TidyIsFixed(doc, k - 1);
      assert doc[..k] == doc[..k - 1] + [doc[k - 1]];
      if k > 1 { assert doc[..k - 1][k - 2] == doc[k - 2]; }
    }
  }

  /** A second pass never changes anything. */
  lemma HeadersIdempotent(doc: Doc)
    ensures UpdateHeaders(UpdateHeaders(doc)) == UpdateHeaders(doc)
  {
    hide Tidy, Fix;
    var once := UpdateHeaders(doc);
    HeadersAreTidy(doc);
    TidyIsFixed(once, |once|);
    assert once[..|once|] == once;
  }

  // ---------- nothing is lost ----------

  function Normalize(l: Line): Line {
    if Fixable(l) then Fixed(l) else l
  }

  function NormalizeAll(doc: Doc): (r: Doc)
    ensures |r| == |doc|
  {
    seq(|doc|, i requires 0 <= i < |doc| => Normalize(doc[i]))
  }

  lemma {:induction false} FixKeepsLines(doc: Doc, k: nat)
    requires k <= |doc|
    ensures NonBlank(Fix(doc, k)) == NormalizeAll(NonBlank(doc[..k]))
  {
    hide Extend, Normalize, NonBlank, NormalizeAll;
    if k == 0 {
      NoLines();
    }
    if k > 0 {
      FixKeepsLines(doc, k - 1);
      KeepsStep(doc, k - 1, Fix(doc, k - 1));
      NonBlankSnoc(doc[..k - 1], doc[k - 1]);
      assert doc[..k] == doc[..k - 1] + [doc[k - 1]];
      NormalizeSnoc(NonBlank(doc[..k - 1]), doc[k - 1]);
    }
  }

  lemma NoLines()
    ensures NonBlank([]) == [] && NormalizeAll([]) == []
  {
  }

  lemma NormalizeSnoc(doc: Doc, l: Line)
    ensures NormalizeAll(doc + [l]) == NormalizeAll(doc) + [Normalize(l)]
  {
    hide Normalize;
  }

  lemma KeepsStep(doc: Doc, i: nat, out: Doc)
    requires i < |doc|
    ensures NonBlank(Extend(doc, i, out)) ==
            if doc[i].data == "" then NonBlank(out) else NonBlank(out) + [Normalize(doc[i])]
  {
    hide Fixable, Fixed, BLANK, NonBlank;
    BlankIsNotFixable();
    if Fixable(doc[i]) { FixedIsStable(doc[i]); }
    NonBlankSnoc(out, BLANK);
    NonBlankSnoc(out, doc[i]);
    NonBlankSnoc(Spaced(i, out), Fixed(doc[i]));
    NonBlankSnoc(Spaced(i, out) + [Fixed(doc[i])], BLANK);
  }

  /** The non-blank lines are the input's, except that headers are normalized. */
  lemma HeadersKeepLines(doc: Doc)
    ensures NonBlank(UpdateHeaders(doc)) == NormalizeAll(NonBlank(doc))
  {
    FixKeepsLines(doc, |doc|);
    assert doc[..|doc|] == doc;
  }

  lemma {:induction false} FixLines(doc: Doc, k: nat)
    requires k <= |doc|
    ensures forall l :: l in Fix(doc, k) ==> l == BLANK || exists m :: m in doc[..k] && l == Normalize(m)
    ensures forall m :: m in doc[..k] ==> Normalize(m) in Fix(doc, k)
  {
    hide BLANK, Fixable, Fixed;
    if k > 0 {
      FixLines(doc, k - 1);
      assert doc[..k] == doc[..k - 1] + [doc[k - 1]];
      ExtendLines(doc, k - 1, Fix(doc, k - 1));
    }
  }

  lemma ExtendLines(doc: Doc, i: nat, out: Doc)
    requires i < |doc|
    ensures forall l :: l in Extend(doc, i, out) <==> l in out || l == Normalize(doc[i]) || (l == BLANK && l in Extend(doc, i, out))
  {
    hide BLANK, Fixable, Fixed;
  }

  // ---------- on disk ----------

  lemma SharpIsNoFence(s: string, flag: bool)
    requires s != [] && s[0] == '#'
    ensures NextFlag(flag, s) == flag
  {
    assert SkipSpace(s) == s;
  }

  lemma FixedIsPlain(l: Line)
    requires Fixable(l) && '\n' !in l.data
    ensures Fixed(l) == NewLine(Fixed(l).data).(preformatted := NextFlag(false, Fixed(l).data))
    ensures forall flag :: NextFlag(flag, l.data) == flag
    ensures '\n' !in Fixed(l).data && !Fixed(l).preformatted
  {
    hide HasLink, Contains, NextFlag;
    FixedTextIsStable(l.data);
    SharpIsNoFence(FixedText(l.data), false);
    forall flag
      ensures NextFlag(flag, l.data) == flag
    {
      SharpIsNoFence(l.data, flag);
    }
  }

  lemma FlaggedStep(doc: Doc, i: nat, out: Doc)
    requires i < |doc| && Flagged(doc, false) && OneLineEach(doc)
    requires Flagged(out, false) && OneLineEach(out) && FlagBefore(out, |out|, false) == FlagBefore(doc, i, false)
    ensures var r := Extend(doc, i, out);
            Flagged(r, false) && OneLineEach(r) && FlagBefore(r, |r|, false) == doc[i].preformatted
  {
    hide NextFlag, NewLine, BLANK, HeaderSyntax, FixedText;
    assert FlaggedAt(doc, i, false);
    if !Fixable(doc[i]) {
      SnocIsFlagged(out, doc[i]);
    } else {
      Blank();
      BlankKeepsFlag();
      FixedIsPlain(doc[i]);
      assert NewLine(doc[i].data).(preformatted := doc[i].preformatted).preformatted == doc[i].preformatted;
      assert !FlagBefore(doc, i, false);
      var o := Spaced(i, out);
      if o != out { SnocIsFlagged(out, BLANK); }
      SnocIsFlagged(o, Fixed(doc[i]));
      SnocIsFlagged(o + [Fixed(doc[i])], BLANK);
    }
  }

  lemma {:induction false} FixIsFlagged(doc: Doc, k: nat)
    requires k <= |doc| && Flagged(doc, false) && OneLineEach(doc)
    ensures Flagged(Fix(doc, k), false) && OneLineEach(Fix(doc, k))
    ensures FlagBefore(Fix(doc, k), |Fix(doc, k)|, false) == FlagBefore(doc, k, false)
  {
    hide Extend, FlaggedAt;
    if k > 0 {
      FixIsFlagged(doc, k - 1);
      FlaggedStep(doc, k - 1, Fix(doc, k - 1));
    }
  }

  /** Writing the result to the file and reading it back yields the same flagged lines. */
  lemma HeadersOnDisk(s: string)
    requires Parse(s) != []
    ensures Parse(Print(UpdateHeaders(Parse(s)))) == UpdateHeaders(Parse(s))
  {
    hide FlagLines, SplitLines, Print;
    var doc := Parse(s);
    ParsedIsFlagged(s);
    FixIsFlagged(doc, |doc|);
    FixIsGood(doc, |doc|);
    ParsePrint(UpdateHeaders(doc));
  }
}
