/** Macro blocks: the text between a begin mark and an end mark of one token is generated. */
module MacroBlocks {
  import opened MungeLines

  predicate IsBegin(l: Line, token: string) {
    l.beginTag && l.data == BeginMark(token)
  }

  predicate IsEnd(l: Line, token: string) {
    l.endTag && l.data == EndMark(token)
  }

  predicate IsMark(l: Line, token: string) {
    IsBegin(l, token) || IsEnd(l, token)
  }

  ghost predicate NoMarks(doc: Doc, token: string) {
    forall i :: 0 <= i < |doc| ==> !IsMark(doc[i], token)
  }

  // Marks inside preformatted text do not open a block.
  ghost predicate NoActiveMarks(doc: Doc, token: string) {
    forall i :: 0 <= i < |doc| ==> doc[i].preformatted || !IsMark(doc[i], token)
  }

  // ---------- the two automata ----------

  datatype Scan = Broken | At(out: Doc, between: bool)

  function Then(out: Doc, s: Scan): Scan {
    match s
    case Broken => Broken
    case At(rest, between) => At(out + rest, between)
  }

  function Finish(s: Scan): Result {
    if s.At? && !s.between then Ok(s.out) else Fail
  }

  function UpdateLine(l: Line, token: string, ins: Doc, between: bool): Scan {
    if l.preformatted && !between then At([l], between)
    else if IsBegin(l, token) then (if between then Broken else At([l], true))
    else if IsEnd(l, token) then (if between then At(ins + [l], false) else Broken)
    else At(if between then [] else [l], between)
  }

  function UpdateScan(doc: Doc, token: string, ins: Doc, between: bool): Scan {
    if doc == [] then At([], between) else
    match UpdateLine(doc[0], token, ins, between)
    case Broken => Broken
    case At(out, b) => Then(out, UpdateScan(doc[1..], token, ins, b))
  }

  function Update(doc: Doc, token: string, ins: Doc): Result {
    Finish(UpdateScan(doc, token, ins, false))
  }

  function RemoveLine(l: Line, token: string, between: bool): Scan {
    if l.preformatted then At([l], between)
    else if IsBegin(l, token) then (if between then Broken else At([], true))
    else if IsEnd(l, token) then (if between then At([], false) else Broken)
    else At(if between then [] else [l], between)
  }

  function RemoveScan(doc: Doc, token: string, between: bool): Scan {
    if doc == [] then At([], between) else
    match RemoveLine(doc[0], token, between)
    case Broken => Broken
    case At(out, b) => Then(out, RemoveScan(doc[1..], token, b))
  }

  function Remove(doc: Doc, token: string): Result {
    Finish(RemoveScan(doc, token, false))
  }

  // ---------- the loops ----------

  method UpdateMacroBlock(mlines: Doc, token: string, insertThis: Doc) returns (r: Result)
    ensures r == Update(mlines, token, insertThis)
  {
    hide UpdateScan, Then, BeginMark, EndMark;
    UpdateScanEnds(mlines, token, insertThis, false);
    var beginMark, endMark := BeginMark(token), EndMark(token);
    var out: Doc := [];
    var between := false;
    for i := 0 to |mlines|
      invariant UpdateScan(mlines, token, insertThis, false) == Then(out, UpdateScan(mlines[i..], token, insertThis, between))
    {
      UpdateScanStep(out, mlines, i, token, insertThis, between);
      assert out + [] == out;
      var mline := mlines[i];
      if mline.preformatted && !between {
        out := out + [mline];
        continue;
      }
      if mline.beginTag && mline.data == beginMark {
        if between { return Fail; }
        between := true;
        out := out + [mline];
      } else if mline.endTag && mline.data == endMark {
        if !between { return Fail; }
        between := false;
        out := out + (insertThis + [mline]);
      } else {
        if !between { out := out + [mline]; }
      }
    }
    UpdateScanEnds(mlines, token, insertThis, between);
    ThenNothing(out, between);
    if between { return Fail; }
    return Ok(out);
  }

  lemma UpdateScanEnds(doc: Doc, token: string, ins: Doc, between: bool)
    ensures UpdateScan(doc[0..], token, ins, between) == UpdateScan(doc, token, ins, between)
            == Then([], UpdateScan(doc, token, ins, between))
    ensures UpdateScan(doc[|doc|..], token, ins, between) == At([], between)
  {
    assert doc[0..] == doc;
    assert Then([], UpdateScan(doc, token, ins, between)) == UpdateScan(doc, token, ins, between);
  }

  lemma UpdateScanStep(out: Doc, doc: Doc, i: nat, token: string, ins: Doc, between: bool)
    requires i < |doc|
    ensures Then(out, UpdateScan(doc[i..], token, ins, between)) ==
            match UpdateLine(doc[i], token, ins, between)
            case Broken => Broken
            case At(o, b) => Then(out + o, UpdateScan(doc[i + 1..], token, ins, b))
  {
    assert doc[i..][1..] == doc[i + 1..];
    var step := UpdateLine(doc[i], token, ins, between);
    if step.At? {
      ThenAssoc(out, step.out, UpdateScan(doc[i + 1..], token, ins, step.between));
    }
  }

  method RemoveMacroBlock(token: string, mlines: Doc) returns (r: Result)
    ensures r == Remove(mlines, token)
  {
    hide RemoveScan, Then, BeginMark, EndMark;
    RemoveScanEnds(mlines, token, false);
    var beginMark, endMark := BeginMark(token), EndMark(token);
    var out: Doc := [];
    var between := false;
    for i := 0 to |mlines|
      invariant RemoveScan(mlines, token, false) == Then(out, RemoveScan(mlines[i..], token, between))
    {
      RemoveScanStep(out, mlines, i, token, between);
      assert out + [] == out;
      var mline := mlines[i];
      if mline.preformatted {
        out := out + [mline];
        continue;
      }
      if mline.beginTag && mline.data == beginMark {
        if between { return Fail; }
        between := true;
      } else if mline.endTag && mline.data == endMark {
        if !between { return Fail; }
        between := false;
      } else {
        if !between { out := out + [mline]; }
      }
    }
    RemoveScanEnds(mlines, token, between);
    ThenNothing(out, between);
    if between { return Fail; }
    return Ok(out);
  }

  lemma RemoveScanEnds(doc: Doc, token: string, between: bool)
    ensures RemoveScan(doc[0..], token, between) == RemoveScan(doc, token, between)
            == Then([], RemoveScan(doc, token, between))
    ensures RemoveScan(doc[|doc|..], token, between) == At([], between)
  {
    assert doc[0..] == doc;
    assert Then([], RemoveScan(doc, token, between)) == RemoveScan(doc, token, between);
  }

  lemma RemoveScanStep(out: Doc, doc: Doc, i: nat, token: string, between: bool)
    requires i < |doc|
    ensures Then(out, RemoveScan(doc[i..], token, between)) ==
            match RemoveLine(doc[i], token, between)
            case Broken => Broken
            case At(o, b) => Then(out + o, RemoveScan(doc[i + 1..], token, b))
  {
    assert doc[i..][1..] == doc[i + 1..];
    var step := RemoveLine(doc[i], token, between);
    if step.At? {
      ThenAssoc(out, step.out, RemoveScan(doc[i + 1..], token, step.between));
    }
  }

  function AppendMacroBlock(doc: Doc, token: string): Doc {
    var spaced := if |doc| > 0 && doc[|doc| - 1].data != "" then doc + [BLANK] else doc;
    spaced + [NewLine(BeginMark(token)), NewLine(EndMark(token))]
  }

  // ---------- scanning in pieces ----------

  lemma ThenNothing(a: Doc, between: bool)
    ensures Then(a, At([], between)) == At(a, between)
  {
    assert a + [] == a;
  }

  lemma ThenAssoc(a: Doc, b: Doc, s: Scan)
    ensures Then(a, Then(b, s)) == Then(a + b, s)
  {
    if s.At? {
      assert a + (b + s.out) == a + b + s.out;
    }
  }

  lemma {:induction false} UpdateScanConcat(a: Doc, b: Doc, token: string, ins: Doc, between: bool)
    ensures UpdateScan(a + b, token, ins, between) ==
            match UpdateScan(a, token, ins, between)
            case Broken => Broken
            case At(out, mid) => Then(out, UpdateScan(b, token, ins, mid))
  {
    if a == [] {
      assert a + b == b;
      var rest := UpdateScan(b, token, ins, between);
      assert Then([], rest) == rest;
    } else {
      assert (a + b)[1..] == a[1..] + b;
      var first := UpdateLine(a[0], token, ins, between);
      if first.At? {
        UpdateScanConcat(a[1..], b, token, ins, first.between);
        var second := UpdateScan(a[1..], token, ins, first.between);
        if second.At? {
          ThenAssoc(first.out, second.out, UpdateScan(b, token, ins, second.between));
        }
      }
    }
  }

  lemma {:induction false} RemoveScanConcat(a: Doc, b: Doc, token: string, between: bool)
    ensures RemoveScan(a + b, token, between) ==
            match RemoveScan(a, token, between)
            case Broken => Broken
            case At(out, mid) => Then(out, RemoveScan(b, token, mid))
  {
    if a == [] {
      assert a + b == b;
      var rest := RemoveScan(b, token, between);
      assert Then([], rest) == rest;
    } else {
      assert (a + b)[1..] == a[1..] + b;
      var first := RemoveLine(a[0], token, between);
      if first.At? {
        RemoveScanConcat(a[1..], b, token, first.between);
        var second := RemoveScan(a[1..], token, first.between);
        if second.At? {
          ThenAssoc(first.out, second.out, RemoveScan(b, token, second.between));
        }
      }
    }
  }

  lemma {:induction false} UpdateSkipsInsert(a: Doc, token: string, ins: Doc)
    requires NoMarks(a, token)
    ensures UpdateScan(a, token, ins, true) == At([], true)
  {
    if a != [] {
      assert !IsMark(a[0], token);
      assert NoMarks(a[1..], token);
      UpdateSkipsInsert(a[1..], token, ins);
    }
  }

  lemma {:induction false} UpdateCopiesUnmarked(a: Doc, token: string, ins: Doc)
    requires NoActiveMarks(a, token)
    ensures UpdateScan(a, token, ins, false) == At(a, false)
  {
    if a != [] {
      assert a[0].preformatted || !IsMark(a[0], token);
      assert NoActiveMarks(a[1..], token);
      UpdateCopiesUnmarked(a[1..], token, ins);
      assert [a[0]] + a[1..] == a;
    }
  }

  lemma {:induction false} RemoveCopiesUnmarked(a: Doc, token: string)
    requires NoActiveMarks(a, token)
    ensures RemoveScan(a, token, false) == At(a, false)
  {
    if a != [] {
      assert a[0].preformatted || !IsMark(a[0], token);
      assert NoActiveMarks(a[1..], token);
      RemoveCopiesUnmarked(a[1..], token);
      assert [a[0]] + a[1..] == a;
    }
  }

  lemma {:induction false} RemovedIsUnmarked(doc: Doc, token: string, between: bool)
    requires RemoveScan(doc, token, between).At?
    ensures NoActiveMarks(RemoveScan(doc, token, between).out, token)
  {
    if doc != [] {
      var first := RemoveLine(doc[0], token, between);
      RemovedIsUnmarked(doc[1..], token, first.between);
    }
  }

  lemma TokenMarks(token: string)
    ensures IsBegin(NewLine(BeginMark(token)), token) && !IsEnd(NewLine(BeginMark(token)), token)
    ensures IsEnd(NewLine(EndMark(token)), token) && !IsBegin(NewLine(EndMark(token)), token)
  {
    hide HasLink;
    var b, e := BeginMark(token), EndMark(token);
    assert b[5] == BEGIN_PREFIX[5] == 'B' && e[5] == END_PREFIX[5] == 'E';
    assert b[0..] == b && BEGIN_PREFIX <= b;
    assert e[0..] == e && END_PREFIX <= e;
  }

  lemma MarkText(l: Line, token: string)
    requires IsMark(l, token)
    ensures l.data != [] && l.data[0] == '<' && !Fence(l.data)
  {
    hide Contains;
    assert BeginMark(token)[0] == BEGIN_PREFIX[0] == '<' && EndMark(token)[0] == END_PREFIX[0] == '<';
    assert SkipSpace(l.data) == l.data;
  }

  lemma MarksAreOneLine(token: string)
    requires '\n' !in token
    ensures '\n' !in BeginMark(token) && '\n' !in EndMark(token)
  {
    assert '\n' !in BEGIN_PREFIX && '\n' !in END_PREFIX && '\n' !in " -->" && '\n' !in " ";
  }

  lemma OneMark(s: string, token: string)
    requires IsMark(NewLine(s), token) && '\n' !in s
    ensures Plain([NewLine(s)]) && OneLineEach([NewLine(s)]) && !NewLine(s).preformatted
  {
    hide HasLink, Contains, Fence, IsMark;
    MarkText(NewLine(s), token);
  }

  lemma MarkLines(token: string)
    requires '\n' !in token
    ensures var b, e := NewLine(BeginMark(token)), NewLine(EndMark(token));
            && Plain([b]) && Plain([e]) && OneLineEach([b]) && OneLineEach([e])
            && IsBegin(b, token) && !IsEnd(b, token) && IsEnd(e, token) && !IsBegin(e, token)
            && !b.preformatted && !e.preformatted
  {
    hide IsBegin, IsEnd, BeginMark, EndMark, Plain, OneLineEach, NewLine;
    TokenMarks(token);
    MarksAreOneLine(token);
    OneMark(BeginMark(token), token);
    OneMark(EndMark(token), token);
  }

  // ---------- block by block ----------

  lemma NotBoth(l: Line, token: string)
    ensures !(IsBegin(l, token) && IsEnd(l, token))
  {
    assert BeginMark(token)[5] == BEGIN_PREFIX[5] == 'B' && EndMark(token)[5] == END_PREFIX[5] == 'E';
  }

  /** A line is a mark by its text alone. */
  lemma MarksByText(s: string, token: string)
    ensures IsBegin(NewLine(s), token) <==> s == "<!-- BEGIN MUNGE: " + token + " -->"
    ensures IsEnd(NewLine(s), token) <==> s == "<!-- END MUNGE: " + token + " -->"
  {
    hide HasLink, Contains;
    MarksAre(token);
    TokenMarks(token);
  }

  lemma OneUpdate(l: Line, token: string, ins: Doc, between: bool)
    ensures UpdateScan([l], token, ins, between) == UpdateLine(l, token, ins, between)
  {
    hide UpdateLine;
    assert [l][1..] == [];
    if UpdateLine(l, token, ins, between).At? { ThenNothing(UpdateLine(l, token, ins, between).out, UpdateLine(l, token, ins, between).between); }
  }

  lemma OneRemove(l: Line, token: string, between: bool)
    ensures RemoveScan([l], token, between) == RemoveLine(l, token, between)
  {
    hide RemoveLine;
    assert [l][1..] == [];
    if RemoveLine(l, token, between).At? { ThenNothing(RemoveLine(l, token, between).out, RemoveLine(l, token, between).between); }
  }

  // Text without active marks, a begin mark, and lines inside the block
  lemma UpdateOpens(a: Doc, b: Line, inner: Doc, token: string, ins: Doc)
    requires NoActiveMarks(a, token) && !b.preformatted && IsBegin(b, token) && NoMarks(inner, token)
    ensures UpdateScan(a + [b] + inner, token, ins, false) == At(a + [b], true)
  {
    hide IsBegin, IsEnd, UpdateScan;
    UpdateCopiesUnmarked(a, token, ins);
    OneUpdate(b, token, ins, false);
    UpdateSkipsInsert(inner, token, ins);
    UpdateScanConcat(a, [b], token, ins, false);
    UpdateScanConcat(a + [b], inner, token, ins, false);
    ThenNothing(a + [b], true);
  }

  /** Text without marks stays. In the first block, what stood between the marks is replaced, and
      the rest of the document is updated in the same way. */
  lemma UpdateByBlocks(a: Doc, b: Line, inner: Doc, e: Line, rest: Doc, token: string, ins: Doc)
    requires NoActiveMarks(a, token) && !b.preformatted && IsBegin(b, token) && NoMarks(inner, token) && IsEnd(e, token)
    ensures Update(a, token, ins) == Ok(a)
    ensures Update(a + [b] + inner + [e] + rest, token, ins) ==
            match Update(rest, token, ins)
            case Fail => Fail
            case Ok(more) => Ok(a + [b] + ins + [e] + more)
  {
    hide UpdateScan;
    NotBoth(e, token);
    hide IsBegin, IsEnd;
    UpdateCopiesUnmarked(a, token, ins);
    UpdateOpens(a, b, inner, token, ins);
    OneUpdate(e, token, ins, true);
    UpdateScanConcat(a + [b] + inner, [e], token, ins, false);
    UpdateScanConcat(a + [b] + inner + [e], rest, token, ins, false);
    assert a + [b] + (ins + [e]) == a + [b] + ins + [e];
  }

  /** An end mark outside a block, a begin mark inside one, and a block that is not closed fail. */
  lemma UpdateFails(a: Doc, b: Line, inner: Doc, l: Line, rest: Doc, token: string, ins: Doc)
    requires NoActiveMarks(a, token) && !b.preformatted && IsBegin(b, token) && NoMarks(inner, token)
    ensures IsEnd(l, token) && !l.preformatted ==> Update(a + [l] + rest, token, ins) == Fail
    ensures IsBegin(l, token) ==> Update(a + [b] + inner + [l] + rest, token, ins) == Fail
    ensures Update(a + [b] + inner, token, ins) == Fail
  {
    hide UpdateScan;
    NotBoth(l, token);
    hide IsBegin, IsEnd;
    UpdateCopiesUnmarked(a, token, ins);
    UpdateOpens(a, b, inner, token, ins);
    OneUpdate(l, token, ins, false);
    OneUpdate(l, token, ins, true);
    UpdateScanConcat(a, [l], token, ins, false);
    UpdateScanConcat(a + [l], rest, token, ins, false);
    UpdateScanConcat(a + [b] + inner, [l], token, ins, false);
    UpdateScanConcat(a + [b] + inner + [l], rest, token, ins, false);
  }

  // The preformatted lines
  function Verbatim(doc: Doc): Doc {
    if doc == [] then [] else (if doc[0].preformatted then [doc[0]] else []) + Verbatim(doc[1..])
  }

  lemma {:induction false} RemoveKeepsVerbatim(inner: Doc, token: string)
    requires NoActiveMarks(inner, token)
    ensures RemoveScan(inner, token, true) == At(Verbatim(inner), true)
  {
    if inner != [] {
      assert inner[0].preformatted || !IsMark(inner[0], token);
      assert NoActiveMarks(inner[1..], token);
      RemoveKeepsVerbatim(inner[1..], token);
    }
  }

  lemma RemoveOpens(a: Doc, b: Line, inner: Doc, token: string)
    requires NoActiveMarks(a, token) && !b.preformatted && IsBegin(b, token) && NoActiveMarks(inner, token)
    ensures RemoveScan(a + [b] + inner, token, false) == At(a + Verbatim(inner), true)
  {
    hide IsBegin, IsEnd, RemoveScan, Verbatim;
    RemoveCopiesUnmarked(a, token);
    OneRemove(b, token, false);
    RemoveKeepsVerbatim(inner, token);
    RemoveScanConcat(a, [b], token, false);
    RemoveScanConcat(a + [b], inner, token, false);
    ThenNothing(a, true);
  }

  /** Text without marks stays. Of the first block only the preformatted lines stay, and the rest of
      the document is treated in the same way. */
  lemma RemoveByBlocks(a: Doc, b: Line, inner: Doc, e: Line, rest: Doc, token: string)
    requires NoActiveMarks(a, token) && !b.preformatted && IsBegin(b, token)
    requires NoActiveMarks(inner, token) && !e.preformatted && IsEnd(e, token)
    ensures Remove(a, token) == Ok(a)
    ensures Remove(a + [b] + inner + [e] + rest, token) ==
            match Remove(rest, token)
            case Fail => Fail
            case Ok(more) => Ok(a + Verbatim(inner) + more)
  {
    hide RemoveScan, Verbatim;
    NotBoth(e, token);
    hide IsBegin, IsEnd;
    RemoveCopiesUnmarked(a, token);
    RemoveOpens(a, b, inner, token);
    OneRemove(e, token, true);
    RemoveScanConcat(a + [b] + inner, [e], token, false);
    RemoveScanConcat(a + [b] + inner + [e], rest, token, false);
    ThenNothing(a + Verbatim(inner), false);
  }

  /** Removal fails on the same three faults. */
  lemma RemoveFails(a: Doc, b: Line, inner: Doc, l: Line, rest: Doc, token: string)
    requires NoActiveMarks(a, token) && !b.preformatted && IsBegin(b, token) && NoActiveMarks(inner, token)
    ensures !l.preformatted && IsEnd(l, token) ==> Remove(a + [l] + rest, token) == Fail
    ensures !l.preformatted && IsBegin(l, token) ==> Remove(a + [b] + inner + [l] + rest, token) == Fail
    ensures Remove(a + [b] + inner, token) == Fail
  {
    hide RemoveScan, Verbatim;
    NotBoth(l, token);
    hide IsBegin, IsEnd;
    RemoveCopiesUnmarked(a, token);
    RemoveOpens(a, b, inner, token);
    OneRemove(l, token, false);
    OneRemove(l, token, true);
    RemoveScanConcat(a, [l], token, false);
    RemoveScanConcat(a + [l], rest, token, false);
    RemoveScanConcat(a + [b] + inner, [l], token, false);
    RemoveScanConcat(a + [b] + inner + [l], rest, token, false);
  }

  // ---------- last write wins ----------

  lemma {:induction false} RescanUnmarked(doc: Doc, token: string, a: Doc, b: Doc, between: bool)
    requires NoMarks(a, token)
    ensures var ra := UpdateScan(doc, token, a, between); var rb := UpdateScan(doc, token, b, between);
            && (ra.Broken? <==> rb.Broken?)
            && (ra.At? ==> ra.between == rb.between && UpdateScan(ra.out, token, b, between) == rb)
  {
    if doc != [] {
      var la := UpdateLine(doc[0], token, a, between);
      var lb := UpdateLine(doc[0], token, b, between);
      if la.At? {
        RescanUnmarked(doc[1..], token, a, b, la.between);
        var ra := UpdateScan(doc[1..], token, a, la.between);
        if ra.At? {
          RescanLine(doc[0], token, a, b, between);
          UpdateScanConcat(la.out, ra.out, token, b, between);
        }
      }
    }
  }

  lemma RescanLine(l: Line, token: string, a: Doc, b: Doc, between: bool)
    requires NoMarks(a, token) && UpdateLine(l, token, a, between).At?
    ensures UpdateScan(UpdateLine(l, token, a, between).out, token, b, between) == UpdateLine(l, token, b, between)
  {
    var la := UpdateLine(l, token, a, between);
    assert [l][1..] == [];
    if IsEnd(l, token) && between && !IsBegin(l, token) {
      UpdateSkipsInsert(a, token, b);
      UpdateScanConcat(a, [l], token, b, true);
      assert UpdateScan([l], token, b, true) == Then(b + [l], At([], false)) == At(b + [l], false);
    }
  }

  /** Updating with `a` and then with `b` is the same as updating with `b` alone, success included,
      when `a` carries no marks of the token. */
  lemma LastWriteWins(doc: Doc, token: string, a: Doc, b: Doc)
    requires NoMarks(a, token)
    ensures Update(doc, token, a).Ok? <==> Update(doc, token, b).Ok?
    ensures Update(doc, token, a).Ok? ==> Update(Update(doc, token, a).doc, token, b) == Update(doc, token, b)
  {
    RescanUnmarked(doc, token, a, b, false);
  }

  // ---------- inserted marks ----------

  // A rescan of a marked insert leaves the block early, so it fails or adds lines.
  lemma {:induction false} MarkedInsertGrows(a: Doc, token: string, b: Doc, e: Line)
    requires !NoMarks(a, token) && IsEnd(e, token) && !IsBegin(e, token)
    ensures var r := UpdateScan(a + [e], token, b, true); r.At? ==> !r.between && |r.out| > |b| + 1
  {
    var l, rest := a[0], a[1..];
    assert (a + [e])[1..] == rest + [e];
    if IsBegin(l, token) {
    } else if IsEnd(l, token) {
      OutsideEmits(rest, token, b, e);
    } else {
      assert !NoMarks(rest, token) by {
        var i :| 0 <= i < |a| && IsMark(a[i], token);
        assert rest[i - 1] == a[i];
      }
      MarkedInsertGrows(rest, token, b, e);
    }
  }

  lemma {:induction false} OutsideEmits(a: Doc, token: string, b: Doc, e: Line)
    requires IsEnd(e, token) && !IsBegin(e, token)
    ensures var r := UpdateScan(a + [e], token, b, false); r.At? ==> !r.between && |r.out| >= 1
  {
    EndsOutside(a, token, b, e, false);
    var first := UpdateLine((a + [e])[0], token, b, false);
    assert first.At? ==> |first.out| >= 1;
  }

  lemma {:induction false} EndsOutside(a: Doc, token: string, b: Doc, e: Line, between: bool)
    requires IsEnd(e, token) && !IsBegin(e, token)
    ensures var r := UpdateScan(a + [e], token, b, between); r.At? ==> !r.between
  {
    UpdateScanConcat(a, [e], token, b, between);
    assert [e][1..] == [];
  }

  // Every block of the first scan is reopened by the second, with at least as many lines.
  lemma {:induction false} RescanGrows(doc: Doc, token: string, a: Doc, b: Doc, between: bool)
    requires !NoMarks(a, token)
    ensures var ra := UpdateScan(doc, token, a, between); var rb := UpdateScan(doc, token, b, between);
            && (ra.Broken? <==> rb.Broken?)
            && (ra.At? ==>
                  var rr := UpdateScan(ra.out, token, b, between);
                  && ra.between == rb.between
                  && (rr.At? ==> rr.between == rb.between && |rr.out| >= |rb.out|
                                 && (Closes(doc, token, between) ==> |rr.out| > |rb.out|)))
  {
    if doc != [] {
      var la, lb := UpdateLine(doc[0], token, a, between), UpdateLine(doc[0], token, b, between);
      if la.At? {
        RescanGrows(doc[1..], token, a, b, la.between);
        var ra := UpdateScan(doc[1..], token, a, la.between);
        if ra.At? {
          RegrowLine(doc[0], token, a, b, between);
          UpdateScanConcat(la.out, ra.out, token, b, between);
        }
      }
    }
  }

  lemma RegrowLine(l: Line, token: string, a: Doc, b: Doc, between: bool)
    requires !NoMarks(a, token) && UpdateLine(l, token, a, between).At?
    ensures var lb := UpdateLine(l, token, b, between);
            var rr := UpdateScan(UpdateLine(l, token, a, between).out, token, b, between);
            && lb.At?
            && (rr.At? ==> rr.between == lb.between && |rr.out| >= |lb.out|
                           && (between && !lb.between ==> |rr.out| > |lb.out|))
  {
    assert [l][1..] == [];
    if between && IsEnd(l, token) && !IsBegin(l, token) {
      MarkedInsertGrows(a, token, b, l);
    }
  }

  // Some block is closed while scanning.
  predicate Closes(doc: Doc, token: string, between: bool) {
    doc != [] &&
    var step := UpdateLine(doc[0], token, [], between);
    step.At? && ((between && !step.between) || Closes(doc[1..], token, step.between))
  }

  lemma {:induction false} ClosesConcat(a: Doc, b: Doc, token: string, between: bool)
    ensures Closes(a + b, token, between) <==>
            var r := UpdateScan(a, token, [], between); Closes(a, token, between) || (r.At? && Closes(b, token, r.between))
  {
    hide IsBegin, IsEnd;
    if a == [] {
      assert a + b == b;
    } else {
      assert (a + b)[1..] == a[1..] + b;
      var step := UpdateLine(a[0], token, [], between);
      if step.At? { ClosesConcat(a[1..], b, token, step.between); }
    }
  }

  lemma {:induction false} UnmarkedDoesNotClose(a: Doc, token: string)
    requires NoActiveMarks(a, token)
    ensures !Closes(a, token, false)
  {
    if a != [] {
      assert a[0].preformatted || !IsMark(a[0], token);
      assert NoActiveMarks(a[1..], token);
      UnmarkedDoesNotClose(a[1..], token);
    }
  }

  /** A document without active marks closes no block, and one with a whole block closes one. */
  lemma ClosesByBlocks(a: Doc, b: Line, inner: Doc, e: Line, rest: Doc, token: string)
    requires NoActiveMarks(a, token) && !b.preformatted && IsBegin(b, token) && NoMarks(inner, token) && IsEnd(e, token)
    ensures !Closes(a, token, false) && Closes(a + [b] + inner + [e] + rest, token, false)
  {
    NotBoth(e, token);
    UnmarkedDoesNotClose(a, token);
    UpdateOpens(a, b, inner, token, []);
    ClosesConcat(a + [b] + inner, [e], token, false);
    ClosesConcat(a + [b] + inner + [e], rest, token, false);
    assert Closes([e], token, true);
  }

  /** The exact condition for last-write-wins on a document with a block: the first insert carries
      no marks of the token. */
  lemma LastWriteWinsIff(doc: Doc, token: string, a: Doc, b: Doc)
    requires Update(doc, token, a).Ok? && Closes(doc, token, false)
    ensures NoMarks(a, token) <==> Update(Update(doc, token, a).doc, token, b) == Update(doc, token, b)
  {
    if NoMarks(a, token) {
      LastWriteWins(doc, token, a, b);
    } else {
      RescanGrows(doc, token, a, b, false);
    }
  }
}
