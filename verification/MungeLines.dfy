/**
 A markdown document as mungedocs sees it: lines with flags, where `preformatted` is set by a
 one-bit automaton over the fences. A closing fence is itself not flagged.
 */
module MungeLines {
  import opened Text

  datatype Line = Line(
    data: string,
    preformatted: bool,
    header: bool,
    link: bool,
    beginTag: bool,
    endTag: bool)

  type Doc = seq<Line>

  datatype Result = Ok(doc: Doc) | Fail

  // ---------- the regular expressions ----------

  predicate Contains(s: string, needle: string) {
    exists i :: 0 <= i <= |s| && needle <= s[i..]
  }

  // \s
  predicate IsSpace(c: char) {
    c == ' ' || c == '\t' || c == '\n' || c == '\r' || c == '\U{000C}'
  }

  function SkipSpace(s: string): (r: string)
    ensures |r| <= |s| && (r == [] || !IsSpace(r[0]))
  {
    if s != [] && IsSpace(s[0]) then SkipSpace(s[1..]) else s
  }

  // ^\s*```
  predicate Fence(s: string) {
    "```" <= SkipSpace(s)
  }

  // ^\s*```.*```
  predicate InlineFence(s: string) {
    Fence(s) && exists i :: 3 <= i <= |SkipSpace(s)| && "```" <= SkipSpace(s)[i..] && '\n' !in SkipSpace(s)[3..i]
  }

  // \[[^]]*\]\([^)]*\)
  predicate HasLink(s: string) {
    exists i, j, k :: 0 <= i < j < k < |s| && LinkAt(s, i, j, k)
  }

  // The brackets stand at i and j, the parentheses behind j and at k.
  predicate LinkAt(s: string, i: int, j: int, k: int)
    requires 0 <= i < j < k < |s|
  {
    && j + 1 < k && s[i] == '[' && s[j] == ']' && s[j + 1] == '(' && s[k] == ')'
    && ']' !in s[i + 1..j] && ')' !in s[j + 2..k]
  }

  const BEGIN_PREFIX := "<!-- BEGIN MUNGE:"
  const END_PREFIX := "<!-- END MUNGE:"

  function BeginMark(token: string): string { BEGIN_PREFIX + " " + token + " -->" }

  function EndMark(token: string): string { END_PREFIX + " " + token + " -->" }

  function NewLine(s: string): Line {
    Line(s, false, "#" <= s, HasLink(s), Contains(s, BEGIN_PREFIX), Contains(s, END_PREFIX))
  }

  const BLANK: Line := NewLine("")

  // Ticks at the start of a line and nowhere else open a block.
  lemma OneFence(rest: string)
    requires '`' !in rest
    ensures Fence("```" + rest) && !InlineFence("```" + rest)
  {
    var s := "```" + rest;
    assert !IsSpace(s[0]) && SkipSpace(s) == s;
    forall i | 3 <= i <= |s|
      ensures !("```" <= s[i..])
    {
      if i < |s| { assert s[i..][0] == s[i] == rest[i - 3]; }
    }
  }

  // ---------- what the expressions accept ----------

  lemma ContainsIff(s: string, needle: string)
    ensures Contains(s, needle) <==> exists a, b :: s == a + needle + b
  {
    if i :| 0 <= i <= |s| && needle <= s[i..] {
      assert s == s[..i] + needle + s[i + |needle|..];
    }
    if a, b :| s == a + needle + b {
      assert s[|a|..] == needle + b;
    }
  }

  ghost predicate Blanks(s: string) {
    forall i :: 0 <= i < |s| ==> s[i] == ' ' || s[i] == '\t' || s[i] == '\n' || s[i] == '\r' || s[i] == '\U{000C}'
  }

  lemma {:induction false} Margin(s: string) returns (a: string)
    ensures s == a + SkipSpace(s) && Blanks(a)
  {
    if s != [] && IsSpace(s[0]) {
      var rest := Margin(s[1..]);
      a := [s[0]] + rest;
      assert s == [s[0]] + (rest + SkipSpace(s)) == a + SkipSpace(s);
      assert forall i :: 0 < i < |a| ==> a[i] == rest[i - 1];
    } else {
      a := "";
    }
  }

  lemma {:induction false} SkipMargin(a: string, s: string)
    requires Blanks(a) && s != [] && !Blanks([s[0]])
    ensures SkipSpace(a + s) == s
  {
    assert !IsSpace(s[0]) by { assert [s[0]][0] == s[0]; }
    if a == [] {
      assert a + s == s;
    } else {
      SkipMargin(a[1..], s);
      assert (a + s)[1..] == a[1..] + s;
    }
  }

  lemma TicksAreNoBlanks(s: string)
    requires "```" <= s
    ensures s != [] && !Blanks([s[0]])
  {
    assert [s[0]][0] == '`';
  }

  /** A fence is three ticks behind blanks. */
  lemma FenceIff(s: string)
    ensures Fence(s) <==> exists a, b :: Blanks(a) && s == a + ("```" + b)
  {
    hide SkipSpace, Blanks;
    if Fence(s) {
      var a := Margin(s);
      assert SkipSpace(s) == "```" + SkipSpace(s)[3..];
    }
    if a, b :| Blanks(a) && s == a + ("```" + b) {
      TicksAreNoBlanks("```" + b);
      SkipMargin(a, "```" + b);
    }
  }

  /** An inline fence is three ticks behind blanks and three more behind them on the same line. */
  lemma InlineFenceIff(s: string)
    ensures InlineFence(s) <==> exists a, m, b :: Blanks(a) && '\n' !in m && s == a + ("```" + m + "```" + b)
  {
    hide InlineFence, Blanks;
    if InlineFence(s) { InlineParts(s); }
    if a, m, b :| Blanks(a) && '\n' !in m && s == a + ("```" + m + "```" + b) { InlineFrom(a, m, b); }
  }

  lemma InlineParts(s: string)
    requires InlineFence(s)
    ensures exists a, m, b :: Blanks(a) && '\n' !in m && s == a + ("```" + m + "```" + b)
  {
    hide SkipSpace, Blanks;
    var a := Margin(s);
    var u := SkipSpace(s);
    var i :| 3 <= i <= |u| && "```" <= u[i..] && '\n' !in u[3..i];
    assert u == "```" + u[3..i] + "```" + u[i + 3..];
  }

  lemma InlineFrom(a: string, m: string, b: string)
    requires Blanks(a) && '\n' !in m
    ensures InlineFence(a + ("```" + m + "```" + b))
  {
    hide SkipSpace, Blanks;
    var t := "```" + m + "```" + b;
    TicksAreNoBlanks(t);
    SkipMargin(a, t);
    assert t[3 + |m|..] == "```" + b && t[3..3 + |m|] == m;
  }

  /** A link is a text in brackets with a target in parentheses directly behind it. */
  lemma HasLinkIff(s: string)
    ensures HasLink(s) <==> exists a, text, target, b :: ']' !in text && ')' !in target && s == a + ("[" + text + "]") + ("(" + target + ")") + b
  {
    hide LinkAt;
    if i, j, k :| 0 <= i < j < k < |s| && LinkAt(s, i, j, k) { LinkParts(s, i, j, k); }
    if a, text, target, b :| ']' !in text && ')' !in target && s == a + ("[" + text + "]") + ("(" + target + ")") + b {
      LinkFrom(a, text, target, b);
    }
  }

  lemma LinkParts(s: string, i: int, j: int, k: int)
    requires 0 <= i < j < k < |s| && LinkAt(s, i, j, k)
    ensures var a, text, target, b := s[..i], s[i + 1..j], s[j + 2..k], s[k + 1..];
            ']' !in text && ')' !in target && s == a + ("[" + text + "]") + ("(" + target + ")") + b
  {
    assert s[i..j + 1] == "[" + s[i + 1..j] + "]" && s[j + 1..k + 1] == "(" + s[j + 2..k] + ")";
    assert s == s[..i] + s[i..j + 1] + s[j + 1..k + 1] + s[k + 1..];
  }

  lemma LinkFrom(a: string, text: string, target: string, b: string)
    requires ']' !in text && ')' !in target
    ensures HasLink(a + ("[" + text + "]") + ("(" + target + ")") + b)
  {
    var s := a + ("[" + text + "]") + ("(" + target + ")") + b;
    var i, j := |a|, |a| + 1 + |text|;
    var k := j + 2 + |target|;
    assert s[i + 1..j] == text && s[j + 2..k] == target;
    assert LinkAt(s, i, j, k);
  }

  lemma MarksAre(token: string)
    ensures BeginMark(token) == "<!-- BEGIN MUNGE: " + token + " -->"
    ensures EndMark(token) == "<!-- END MUNGE: " + token + " -->"
  {
    assert BEGIN_PREFIX + " " == "<!-- BEGIN MUNGE: " && END_PREFIX + " " == "<!-- END MUNGE: ";
  }

  /** The flags of a new line: a sharp at its start, a link, and the openings of the two marks. */
  lemma NewLineIs(s: string)
    ensures NewLine(s).data == s && !NewLine(s).preformatted
    ensures NewLine(s).header <==> s != [] && s[0] == '#'
    ensures NewLine(s).link <==> HasLink(s)
    ensures NewLine(s).beginTag <==> Contains(s, "<!-- BEGIN MUNGE:")
    ensures NewLine(s).endTag <==> Contains(s, "<!-- END MUNGE:")
  {
    hide HasLink, Contains;
  }

  // ---------- text to lines and back ----------

  function SplitLines(s: string): seq<string> {
    var lines := Split(s, '\n');
    if lines[|lines| - 1] == "" then lines[..|lines| - 1] else lines
  }

  // Whether a line is flagged preformatted, given the flag of the line before
  predicate NextFlag(flag: bool, s: string) {
    if flag then !Fence(s) else Fence(s) && !InlineFence(s)
  }

  function FlagLines(lines: seq<string>, flag: bool): (doc: Doc)
    ensures |doc| == |lines|
  {
    if lines == [] then [] else
    var f := NextFlag(flag, lines[0]);
    [NewLine(lines[0]).(preformatted := f)] + FlagLines(lines[1..], f)
  }

  function Parse(s: string): Doc {
    FlagLines(SplitLines(s), false)
  }

  function Datas(doc: Doc): (ds: seq<string>)
    ensures |ds| == |doc| && forall i :: 0 <= i < |doc| ==> ds[i] == doc[i].data
  {
    seq(|doc|, i requires 0 <= i < |doc| => doc[i].data)
  }

  function Print(doc: Doc): string {
    Join(Datas(doc), '\n') + "\n"
  }

  lemma FlagLinesStep(lines: seq<string>, i: nat, flag: bool)
    requires i < |lines|
    ensures var f := NextFlag(flag, lines[i]);
            FlagLines(lines[i..], flag) == [NewLine(lines[i]).(preformatted := f)] + FlagLines(lines[i + 1..], f)
  {
    hide HasLink, Contains, NextFlag;
    assert lines[i..][1..] == lines[i + 1..];
  }

  lemma FlagLinesEnd(lines: seq<string>, flag: bool)
    ensures FlagLines(lines[0..], flag) == FlagLines(lines, flag)
    ensures FlagLines(lines[|lines|..], flag) == []
  {
    assert lines[0..] == lines;
  }

  method GetMungeLines(s: string) returns (out: Doc)
    ensures out == Parse(s)
  {
    hide NewLine, Fence, InlineFence, SplitLines, FlagLines;
    out := [];
    var preformatted := false;
    var lines := SplitLines(s);
    FlagLinesEnd(lines, false);
    for i := 0 to |lines|
      invariant out + FlagLines(lines[i..], preformatted) == FlagLines(lines, false)
    {
      FlagLinesStep(lines, i, preformatted);
      if !preformatted {
        if Fence(lines[i]) && !InlineFence(lines[i]) {
          preformatted := true;
        }
      } else {
        if Fence(lines[i]) {
          preformatted := false;
        }
      }
      out := out + [NewLine(lines[i]).(preformatted := preformatted)];
    }
    FlagLinesEnd(lines, preformatted);
  }

  // ---------- documents as the parser makes them ----------

  // The flag of the line before line i, in a document that follows a line flagged `flag`
  predicate FlagBefore(doc: Doc, i: nat, flag: bool)
    requires i <= |doc|
  {
    if i == 0 then flag else doc[i - 1].preformatted
  }

  predicate FlaggedAt(doc: Doc, i: nat, flag: bool)
    requires i < |doc|
  {
    doc[i] == NewLine(doc[i].data).(preformatted := NextFlag(FlagBefore(doc, i, flag), doc[i].data))
  }

  // Every line carries the flags that the parser would give it.
  ghost predicate Flagged(doc: Doc, flag: bool) {
    forall i :: 0 <= i < |doc| ==> FlaggedAt(doc, i, flag)
  }

  ghost predicate OneLineEach(doc: Doc) {
    forall i :: 0 <= i < |doc| ==> '\n' !in doc[i].data
  }

  lemma {:induction false} FlagLinesIsFlagged(lines: seq<string>, flag: bool)
    ensures Flagged(FlagLines(lines, flag), flag)
    ensures Datas(FlagLines(lines, flag)) == lines
  {
    hide HasLink, Contains, NextFlag;
    if lines != [] {
      var f := NextFlag(flag, lines[0]);
      FlagLinesIsFlagged(lines[1..], f);
      var doc, rest := FlagLines(lines, flag), FlagLines(lines[1..], f);
      forall i | 0 <= i < |doc|
        ensures FlaggedAt(doc, i, flag) && doc[i].data == lines[i]
      {
        if i > 0 {
          assert doc[i] == rest[i - 1] && FlaggedAt(rest, i - 1, f);
          assert rest[i - 1].data == Datas(rest)[i - 1] == lines[1..][i - 1];
          assert FlagBefore(doc, i, flag) == FlagBefore(rest, i - 1, f);
        }
      }
    }
  }

  lemma {:induction false} FlaggedIsUnique(doc: Doc, flag: bool)
    requires Flagged(doc, flag)
    ensures doc == FlagLines(Datas(doc), flag)
  {
    hide HasLink, Contains, NextFlag;
    if doc != [] {
      var rest, f := doc[1..], doc[0].preformatted;
      assert FlaggedAt(doc, 0, flag);
      forall i | 0 <= i < |rest|
        ensures FlaggedAt(rest, i, f)
      {
        assert FlaggedAt(doc, i + 1, flag) && FlagBefore(doc, i + 1, flag) == FlagBefore(rest, i, f);
      }
      FlaggedIsUnique(rest, f);
      assert Datas(doc)[1..] == Datas(rest);
    }
  }

  lemma ParsedIsFlagged(s: string)
    ensures Flagged(Parse(s), false) && OneLineEach(Parse(s))
  {
    FlagLinesIsFlagged(SplitLines(s), false);
    SplitPartsAreClean(s, '\n');
    forall i | 0 <= i < |Parse(s)|
      ensures '\n' !in Parse(s)[i].data
    {
      assert Parse(s)[i].data == Datas(Parse(s))[i] == SplitLines(s)[i];
      assert SplitLines(s)[i] in Split(s, '\n');
    }
  }

  lemma {:induction false} JoinSnoc(parts: seq<string>, last: string, sep: char)
    requires parts != []
    ensures Join(parts + [last], sep) == Join(parts, sep) + [sep] + last
  {
    if |parts| == 1 {
      assert (parts + [last])[1..] == [last];
    } else {
      JoinSnoc(parts[1..], last, sep);
      assert (parts + [last])[1..] == parts[1..] + [last];
    }
  }

  lemma TwoLines(first: string, second: string)
    requires '\n' !in first && '\n' !in second && second != ""
    ensures SplitLines(first + ['\n'] + second) == [first, second]
  {
    SplitAtSeparator(first, '\n', second);
    SplitOne(second, '\n');
  }

  lemma SplitPrinted(doc: Doc)
    requires doc != [] && OneLineEach(doc)
    ensures SplitLines(Print(doc)) == Datas(doc)
  {
    var ds := Datas(doc);
    var parts := ds + [""];
    JoinSnoc(ds, "", '\n');
    assert Join(ds, '\n') + ['\n'] + "" == Print(doc);
    forall part | part in parts
      ensures '\n' !in part
    {
      if part in ds {
        var i :| 0 <= i < |ds| && ds[i] == part;
        assert doc[i].data == part;
      }
    }
    SplitJoin(parts, '\n');
    assert parts[..|parts| - 1] == ds;
  }

  /** Writing a document out and reading it back gives the same lines and flags, exactly when it
      is not empty: an empty document is written as one newline, which reads as one blank line. */
  lemma ParsePrint(doc: Doc)
    requires Flagged(doc, false) && OneLineEach(doc)
    ensures Parse(Print(doc)) == doc <==> doc != []
  {
    hide HasLink, Contains, NextFlag;
    if doc == [] {
      assert Datas(doc) == [] && Print(doc) == "\n";
      assert Split("\n"[1..], '\n') == [""];
      assert SplitLines("\n") == [""];
    } else {
      SplitPrinted(doc);
      FlaggedIsUnique(doc, false);
    }
  }

  /** A line is flagged when the one before is and it is no fence, or when the one before is not and
      it is a fence that does not close on the same line. */
  lemma ParsedLine(s: string, i: nat)
    requires i < |Parse(s)|
    ensures var doc := Parse(s);
            var inside := i > 0 && doc[i - 1].preformatted;
            && doc[i] == NewLine(doc[i].data).(preformatted := doc[i].preformatted)
            && (doc[i].preformatted <==> if inside then !Fence(doc[i].data) else Fence(doc[i].data) && !InlineFence(doc[i].data))
  {
    hide HasLink, Contains, Fence, InlineFence, Parse;
    ParsedIsFlagged(s);
    assert FlaggedAt(Parse(s), i, false);
  }

  lemma JoinedLines(s: string)
    ensures Join(SplitLines(s), '\n') + "\n" == if s != "" && s[|s| - 1] == '\n' then s else s + "\n"
  {
    hide Split;
    var parts := Split(s, '\n');
    var n := |parts| - 1;
    JoinSplit(s, '\n');
    SplitPartsAreClean(s, '\n');
    assert parts == parts[..n] + [parts[n]] && parts[n] in parts;
    if n == 0 {
      assert Join(parts, '\n') == parts[0] == s;
      if s != "" { assert s[|s| - 1] in parts[0]; }
    } else {
      JoinSnoc(parts[..n], parts[n], '\n');
      if parts[n] != "" { assert s[|s| - 1] == parts[n][|parts[n]| - 1]; }
    }
  }

  /** Writing what was read gives the text back, with a line break at its end if there was none. */
  lemma PrintParse(s: string)
    ensures Print(Parse(s)) == if s != "" && s[|s| - 1] == '\n' then s else s + "\n"
  {
    hide NewLine, NextFlag, SplitLines, Join;
    FlagLinesIsFlagged(SplitLines(s), false);
    JoinedLines(s);
  }

  // ---------- reading back in pieces ----------

  // The document ends inside a preformatted block.
  predicate Unbalanced(doc: Doc) {
    doc != [] && doc[|doc| - 1].preformatted
  }

  // Lines as the munges generate them: not flagged, and no fences
  ghost predicate Plain(doc: Doc) {
    forall i :: 0 <= i < |doc| ==> doc[i] == NewLine(doc[i].data) && !Fence(doc[i].data)
  }

  function Reflag(doc: Doc, flag: bool): (r: Doc)
    ensures |r| == |doc| && forall i :: 0 <= i < |doc| ==> r[i] == doc[i].(preformatted := flag)
  {
    seq(|doc|, i requires 0 <= i < |doc| => doc[i].(preformatted := flag))
  }

  lemma NothingIsFlagged(flag: bool)
    ensures Flagged([], flag)
  {
  }

  lemma BlankIsNewLine()
    ensures BLANK == NewLine(BLANK.data) && BLANK.data == "" && !Fence(BLANK.data)
  {
    assert SkipSpace("") == "";
  }

  lemma FlaggedConcat(a: Doc, b: Doc, flag: bool)
    ensures Flagged(a + b, flag) <==> Flagged(a, flag) && Flagged(b, FlagBefore(a, |a|, flag))
  {
    hide NewLine, NextFlag;
    var r, mid := a + b, FlagBefore(a, |a|, flag);
    if Flagged(r, flag) {
      forall i | 0 <= i < |a|
        ensures FlaggedAt(a, i, flag)
      {
        assert FlaggedAt(r, i, flag);
      }
      forall i | 0 <= i < |b|
        ensures FlaggedAt(b, i, mid)
      {
        assert FlaggedAt(r, |a| + i, flag);
      }
    }
    if Flagged(a, flag) && Flagged(b, mid) {
      forall i | 0 <= i < |r|
        ensures FlaggedAt(r, i, flag)
      {
        if i < |a| {
          assert FlaggedAt(a, i, flag);
        } else {
          assert FlaggedAt(b, i - |a|, mid);
        }
      }
    }
  }

  lemma HeadSplit(doc: Doc, flag: bool)
    requires doc != [] && Flagged(doc, flag)
    ensures Flagged([doc[0]], flag) && Flagged(doc[1..], doc[0].preformatted)
  {
    FlaggedConcat([doc[0]], doc[1..], flag);
    assert [doc[0]] + doc[1..] == doc;
  }

  lemma FlagLinesConcat(a: Doc, lines: seq<string>, flag: bool)
    requires Flagged(a, flag)
    ensures FlagLines(Datas(a) + lines, flag) == a + FlagLines(lines, FlagBefore(a, |a|, flag))
  {
    hide NewLine, NextFlag, Flagged, FlagLines;
    var mid := FlagBefore(a, |a|, flag);
    var tail := FlagLines(lines, mid);
    FlagLinesIsFlagged(lines, mid);
    FlaggedConcat(a, tail, flag);
    assert Datas(a + tail) == Datas(a) + lines;
    FlaggedIsUnique(a + tail, flag);
  }

  lemma {:induction false} PlainFlagLines(doc: Doc, flag: bool)
    requires Plain(doc)
    ensures FlagLines(Datas(doc), flag) == Reflag(doc, flag)
  {
    hide NewLine, Fence;
    if doc != [] {
      PlainFlagLines(doc[1..], flag);
      assert Datas(doc)[1..] == Datas(doc[1..]);
      PlainText(doc[0].data, flag);
    }
  }

  lemma PlainText(s: string, flag: bool)
    requires !Fence(s)
    ensures NextFlag(flag, s) == flag
  {
  }

  lemma PlainIsFlagged(doc: Doc, flag: bool)
    requires Plain(doc)
    ensures Flagged(doc, flag) <==> doc == [] || !flag
  {
    hide NewLine, Fence, NextFlag, FlagLines;
    PlainFlagLines(doc, flag);
    FlagLinesIsFlagged(Datas(doc), flag);
    if doc != [] {
      assert NewLine(doc[0].data) == doc[0] && !doc[0].preformatted by { NewIsPlain(doc[0].data); }
      if flag && Flagged(doc, flag) {
        FlaggedIsUnique(doc, flag);
      }
      if !flag {
        forall i | 0 <= i < |doc|
          ensures Reflag(doc, flag)[i] == doc[i]
        {
          NewIsPlain(doc[i].data);
        }
        assert Reflag(doc, flag) == doc;
      }
    }
  }

  lemma NewIsPlain(s: string)
    ensures !NewLine(s).preformatted && NewLine(s).data == s && NewLine(s).(preformatted := false) == NewLine(s)
  {
  }

  /** What is written is read back as the same texts, and as the same lines if and only if they
      carry the flags that the parser gives them. */
  lemma Reread(doc: Doc)
    requires doc != [] && OneLineEach(doc)
    ensures Parse(Print(doc)) == FlagLines(Datas(doc), false) && Datas(Parse(Print(doc))) == Datas(doc)
    ensures Parse(Print(doc)) == doc <==> Flagged(doc, false)
  {
    hide NewLine, NextFlag, Print, FlaggedAt;
    SplitPrinted(doc);
    FlagLinesIsFlagged(Datas(doc), false);
    if Flagged(doc, false) {
      FlaggedIsUnique(doc, false);
    }
  }

  // ---------- adding lines ----------

  lemma Blank()
    ensures BLANK.data == "" && !BLANK.preformatted
  {
    hide HasLink, Contains;
  }

  lemma BlankKeepsFlag()
    ensures !NextFlag(false, "") && BLANK == NewLine("").(preformatted := false)
  {
    hide HasLink, Contains, InlineFence;
    assert SkipSpace("") == "";
  }

  lemma SnocIsFlagged(doc: Doc, l: Line)
    requires Flagged(doc, false) && OneLineEach(doc) && '\n' !in l.data
    requires l == NewLine(l.data).(preformatted := NextFlag(FlagBefore(doc, |doc|, false), l.data))
    ensures Flagged(doc + [l], false) && OneLineEach(doc + [l])
  {
    hide NextFlag, NewLine;
    var r := doc + [l];
    forall i | 0 <= i < |r|
      ensures FlaggedAt(r, i, false)
    {
      if i < |doc| { assert FlaggedAt(doc, i, false); }
    }
  }

  function NonBlank(doc: Doc): Doc {
    if doc == [] then []
    else if doc[|doc| - 1].data == "" then NonBlank(doc[..|doc| - 1])
    else NonBlank(doc[..|doc| - 1]) + [doc[|doc| - 1]]
  }

  lemma NonBlankSnoc(doc: Doc, l: Line)
    ensures NonBlank(doc + [l]) == if l.data == "" then NonBlank(doc) else NonBlank(doc) + [l]
  {
    assert (doc + [l])[..|doc|] == doc;
  }
}
