/**
 The table-of-contents munge: list the headers, then write the list into every TOC block.

 `lower` is the rune mapping of strings.ToLower; nothing about it is assumed.
 */
module TableOfContents {
  import opened MungeLines
  import opened MacroBlocks

  const TOC_TAG := "GENERATED_TOC"

  predicate Listed(l: Line) {
    !l.preformatted && l.header
  }

  function Headers(doc: Doc): seq<string> {
    if doc == [] then []
    else if Listed(doc[0]) then [doc[0].data] + Headers(doc[1..])
    else Headers(doc[1..])
  }

  // ---------- one entry ----------

  function TrimSharps(s: string): (r: string)
    ensures |r| <= |s| && (s != [] && s[0] == '#' ==> |r| < |s|) && (s == [] || s[0] != '#' ==> r == s)
  {
    if s != [] && s[0] == '#' then TrimSharps(s[1..]) else s
  }

  // strings.Trim(s, " \n")
  function Trim(s: string): string {
    if s != [] && (s[0] == ' ' || s[0] == '\n') then Trim(s[1..])
    else if s != [] && (s[|s| - 1] == ' ' || s[|s| - 1] == '\n') then Trim(s[..|s| - 1])
    else s
  }

  predicate InBookmark(c: char) {
    'A' <= c <= 'Z' || 'a' <= c <= 'z' || '0' <= c <= '9' || c == '-'
  }

  function Bookmark(heading: string, lower: char -> char): string {
    if heading == [] then [] else
    var c := lower(heading[0]);
    var d := if c == ' ' then '-' else c;
    (if InBookmark(d) then [d] else []) + Bookmark(heading[1..], lower)
  }

  function Decimal(n: nat): string {
    if n < 10 then ['0' + n as char] else Decimal(n / 10) + ['0' + (n % 10) as char]
  }

  function Indent(n: nat): string {
    seq(2 * n, i => ' ')
  }

  predicate HasEntry(header: string) {
    |TrimSharps(header)| < |header|
  }

  function Base(header: string, lower: char -> char): string {
    Bookmark(Trim(TrimSharps(header)), lower)
  }

  // How often the bookmark was used by earlier headers
  function Count(headers: seq<string>, bookmark: string, lower: char -> char): nat {
    if headers == [] then 0 else
    var h := headers[|headers| - 1];
    Count(headers[..|headers| - 1], bookmark, lower) + (if HasEntry(h) && Base(h, lower) == bookmark then 1 else 0)
  }

  function EntryText(header: string, used: nat, lower: char -> char): string
    requires HasEntry(header)
  {
    var base := Base(header, lower);
    var anchor := if used > 0 then base + "-" + Decimal(used) else base;
    Indent(|header| - |TrimSharps(header)| - 1) + "- [" + Trim(TrimSharps(header)) + "](#" + anchor + ")"
  }

  function Entries(headers: seq<string>, lower: char -> char): Doc {
    if headers == [] then [] else
    var init, h := headers[..|headers| - 1], headers[|headers| - 1];
    if HasEntry(h) then Entries(init, lower) + [NewLine(EntryText(h, Count(init, Base(h, lower), lower), lower))]
    else Entries(init, lower)
  }

  function Toc(headers: seq<string>, lower: char -> char): Doc {
    if headers == [] then [] else [BLANK] + Entries(headers, lower) + [BLANK]
  }

  function UpdateToc(doc: Doc, lower: char -> char): Result {
    Update(doc, TOC_TAG, Toc(Headers(doc), lower))
  }

  // ---------- the loops ----------

  method BuildTOC(mlines: Doc, lower: char -> char) returns (out: Doc)
    ensures out == Toc(Headers(mlines), lower)
  {
    hide NewLine, Entries, Count, Base, HasEntry, EntryText;
    EntriesNone(lower);
    out := [];
    var bookmarks: map<string, nat> := map[];
    for i := 0 to |mlines|
      invariant var done := Headers(mlines[..i]);
                out == if done == [] then [] else [BLANK] + Entries(done, lower)
      invariant forall b :: (if b in bookmarks then bookmarks[b] else 0) == Count(Headers(mlines[..i]), b, lower)
    {
      HeadersStep(mlines, i);
      var mline := mlines[i];
      if mline.preformatted || !mline.header {
        continue;
      }
      EntriesSnoc(Headers(mlines[..i]), mline.data, lower);
      if |out| == 0 {
        out := [BLANK];
      }
      if HasEntry(mline.data) {
        var base := Base(mline.data, lower);
        var next := if base in bookmarks then bookmarks[base] else 0;
        bookmarks := bookmarks[base := next + 1];
        out := out + [NewLine(EntryText(mline.data, next, lower))];
      }
    }
    assert mlines[..|mlines|] == mlines;
    if |out| != 0 {
      out := out + [BLANK];
    }
  }

  lemma EntriesNone(lower: char -> char)
    ensures Entries([], lower) == [] && forall b :: Count([], b, lower) == 0
  {
  }

  lemma EntriesSnoc(done: seq<string>, h: string, lower: char -> char)
    ensures Entries(done + [h], lower) ==
            if HasEntry(h) then Entries(done, lower) + [NewLine(EntryText(h, Count(done, Base(h, lower), lower), lower))]
            else Entries(done, lower)
    ensures forall b :: Count(done + [h], b, lower) ==
                        Count(done, b, lower) + if HasEntry(h) && Base(h, lower) == b then 1 else 0
  {
    hide NewLine, Base, HasEntry, EntryText;
    var more := done + [h];
    assert more[..|more| - 1] == done && more[|more| - 1] == h;
  }

  method UpdateTOC(mlines: Doc, lower: char -> char) returns (r: Result)
    ensures r == UpdateToc(mlines, lower)
  {
    var toc := BuildTOC(mlines, lower);
    r := UpdateMacroBlock(mlines, TOC_TAG, toc);
  }

  lemma {:induction false} HeadersConcat(a: Doc, b: Doc)
    ensures Headers(a + b) == Headers(a) + Headers(b)
  {
    if a == [] {
      assert a + b == b;
    } else {
      HeadersConcat(a[1..], b);
      assert (a + b)[1..] == a[1..] + b;
    }
  }

  lemma HeadersStep(doc: Doc, i: nat)
    requires i < |doc|
    ensures Headers(doc[..i + 1]) == if Listed(doc[i]) then Headers(doc[..i]) + [doc[i].data] else Headers(doc[..i])
  {
    HeadersConcat(doc[..i], [doc[i]]);
    assert doc[..i + 1] == doc[..i] + [doc[i]];
    assert [doc[i]][1..] == [];
  }

  // ---------- generated entries are neither headers nor marks ----------

  lemma EntryIsInert(header: string, used: nat, lower: char -> char)
    requires HasEntry(header)
    ensures var l := NewLine(EntryText(header, used, lower)); !Listed(l) && !IsMark(l, TOC_TAG)
  {
    hide HasLink, Contains, Trim, Base, Decimal;
    var n := |header| - |TrimSharps(header)| - 1;
    var s := EntryText(header, used, lower);
    assert s[0] == (if n == 0 then "- ["[0] else ' ');
    assert BeginMark(TOC_TAG)[0] == BEGIN_PREFIX[0] == '<' && EndMark(TOC_TAG)[0] == END_PREFIX[0] == '<';
  }

  lemma BlankIsInert()
    ensures !Listed(BLANK) && !IsMark(BLANK, TOC_TAG)
  {
    hide HasLink, Contains;
    assert |BeginMark(TOC_TAG)| > 0 && |EndMark(TOC_TAG)| > 0;
  }

  lemma {:induction false} EntriesAreInert(headers: seq<string>, lower: char -> char)
    ensures Headers(Entries(headers, lower)) == [] && NoMarks(Entries(headers, lower), TOC_TAG)
  {
    hide NewLine, IsMark;
    if headers != [] {
      var init, h := headers[..|headers| - 1], headers[|headers| - 1];
      EntriesAreInert(init, lower);
      if HasEntry(h) {
        var l := NewLine(EntryText(h, Count(init, Base(h, lower), lower), lower));
        EntryIsInert(h, Count(init, Base(h, lower), lower), lower);
        HeadersConcat(Entries(init, lower), [l]);
        assert [l][1..] == [];
      }
    }
  }

  lemma TocIsInert(headers: seq<string>, lower: char -> char)
    ensures Headers(Toc(headers, lower)) == [] && NoMarks(Toc(headers, lower), TOC_TAG)
  {
    hide NewLine, IsMark, Entries;
    EntriesAreInert(headers, lower);
    BlankIsInert();
    var es := Entries(headers, lower);
    HeadersConcat([BLANK], es);
    HeadersConcat([BLANK] + es, [BLANK]);
    assert [BLANK][1..] == [];
  }

  // ---------- headers that survive an update ----------

  // The document with every TOC block emptied
  function Emptied(doc: Doc): Result {
    Update(doc, TOC_TAG, [])
  }

  lemma {:induction false} UpdateKeepsOutsideHeaders(doc: Doc, ins: Doc, between: bool)
    requires Headers(ins) == [] && UpdateScan(doc, TOC_TAG, ins, between).At?
    ensures UpdateScan(doc, TOC_TAG, [], between).At?
    ensures Headers(UpdateScan(doc, TOC_TAG, ins, between).out) == Headers(UpdateScan(doc, TOC_TAG, [], between).out)
  {
    hide BeginMark, EndMark;
    if doc != [] {
      var a, b := UpdateLine(doc[0], TOC_TAG, ins, between), UpdateLine(doc[0], TOC_TAG, [], between);
      UpdateKeepsOutsideHeaders(doc[1..], ins, a.between);
      HeadersConcat(a.out, UpdateScan(doc[1..], TOC_TAG, ins, a.between).out);
      HeadersConcat(b.out, UpdateScan(doc[1..], TOC_TAG, [], b.between).out);
      HeadersConcat(ins, [doc[0]]);
      assert [] + [doc[0]] == [doc[0]];
    }
  }

  // A header line stands inside a TOC block.
  predicate HeaderInBlock(doc: Doc, between: bool) {
    doc != [] &&
    var step := UpdateLine(doc[0], TOC_TAG, [], between);
    step.At? && ((step.out == [] && Listed(doc[0])) || HeaderInBlock(doc[1..], step.between))
  }

  lemma {:induction false} EmptyingDropsHeaders(doc: Doc, between: bool)
    requires UpdateScan(doc, TOC_TAG, [], between).At?
    ensures var kept := Headers(UpdateScan(doc, TOC_TAG, [], between).out);
            if HeaderInBlock(doc, between) then |kept| < |Headers(doc)| else kept == Headers(doc)
  {
    hide BeginMark, EndMark;
    if doc != [] {
      var step := UpdateLine(doc[0], TOC_TAG, [], between);
      EmptyingDropsHeaders(doc[1..], step.between);
      HeadersConcat(step.out, UpdateScan(doc[1..], TOC_TAG, [], step.between).out);
      assert [] + [doc[0]] == [doc[0]];
      assert [doc[0]][1..] == [];
      EmptyingShrinks(doc[1..], step.between);
    }
  }

  lemma {:induction false} EmptyingShrinks(doc: Doc, between: bool)
    requires UpdateScan(doc, TOC_TAG, [], between).At?
    ensures |Headers(UpdateScan(doc, TOC_TAG, [], between).out)| <= |Headers(doc)|
  {
    hide BeginMark, EndMark;
    if doc != [] {
      var step := UpdateLine(doc[0], TOC_TAG, [], between);
      EmptyingShrinks(doc[1..], step.between);
      HeadersConcat(step.out, UpdateScan(doc[1..], TOC_TAG, [], step.between).out);
      assert [] + [doc[0]] == [doc[0]];
      assert [doc[0]][1..] == [];
    }
  }

  // ---------- convergence ----------

  lemma SecondPass(doc: Doc, lower: char -> char)
    requires UpdateToc(doc, lower).Ok?
    ensures Emptied(doc).Ok?
    ensures UpdateToc(UpdateToc(doc, lower).doc, lower) == Update(doc, TOC_TAG, Toc(Headers(Emptied(doc).doc), lower))
    ensures UpdateToc(UpdateToc(doc, lower).doc, lower).Ok?
    ensures Headers(UpdateToc(doc, lower).doc) == Headers(Emptied(doc).doc)
  {
    hide Toc;
    var toc := Toc(Headers(doc), lower);
    TocIsInert(Headers(doc), lower);
    UpdateKeepsOutsideHeaders(doc, toc, false);
    LastWriteWins(doc, TOC_TAG, toc, []);
    LastWriteWins(doc, TOC_TAG, toc, Toc(Headers(Emptied(doc).doc), lower));
  }

  /** From the second application on, the munge changes nothing, on every document where it
      succeeds. */
  lemma TocConverges(doc: Doc, lower: char -> char)
    requires UpdateToc(doc, lower).Ok?
    ensures var once := UpdateToc(doc, lower).doc;
            var twice := UpdateToc(once, lower);
            twice.Ok? && UpdateToc(twice.doc, lower) == twice
  {
    hide Toc;
    var once := UpdateToc(doc, lower).doc;
    SecondPass(doc, lower);
    SecondPass(once, lower);
    TocIsInert(Headers(doc), lower);
    LastWriteWins(doc, TOC_TAG, Toc(Headers(doc), lower), []);
  }

  // Every header flag stands for a leading sharp, as the parser sets it.
  ghost predicate SharpHeaders(doc: Doc) {
    forall i :: 0 <= i < |doc| && doc[i].header ==> "#" <= doc[i].data
  }

  lemma {:induction false} EntryCount(headers: seq<string>, lower: char -> char)
    requires forall i :: 0 <= i < |headers| ==> "#" <= headers[i]
    ensures |Entries(headers, lower)| == |headers|
  {
    if headers != [] {
      assert headers[|headers| - 1][0] == '#';
      EntryCount(headers[..|headers| - 1], lower);
    }
  }

  lemma {:induction false} HeadersAreSharp(doc: Doc)
    requires SharpHeaders(doc)
    ensures forall i :: 0 <= i < |Headers(doc)| ==> "#" <= Headers(doc)[i]
  {
    if doc != [] {
      assert SharpHeaders(doc[1..]);
      HeadersAreSharp(doc[1..]);
    }
  }

  /** A second application changes nothing if and only if no header line stands inside a TOC
      block. */
  lemma TocIdempotentIff(doc: Doc, lower: char -> char)
    requires UpdateToc(doc, lower).Ok? && SharpHeaders(doc)
    ensures UpdateToc(UpdateToc(doc, lower).doc, lower) == UpdateToc(doc, lower) <==> !HeaderInBlock(doc, false)
  {
    hide Toc;
    SecondPass(doc, lower);
    EmptyingDropsHeaders(doc, false);
    if HeaderInBlock(doc, false) {
      var all, kept := Headers(doc), Headers(Emptied(doc).doc);
      HeaderInBlockCloses(doc, false);
      SurvivorsAreSharp(doc);
      TocShorter(all, kept, lower);
      ShorterInsert(doc, TOC_TAG, Toc(all, lower), Toc(kept, lower), false);
    }
  }

  lemma SurvivorsAreSharp(doc: Doc)
    requires SharpHeaders(doc) && Emptied(doc).Ok?
    ensures forall i :: 0 <= i < |Headers(doc)| ==> "#" <= Headers(doc)[i]
    ensures forall i :: 0 <= i < |Headers(Emptied(doc).doc)| ==> "#" <= Headers(Emptied(doc).doc)[i]
  {
    HeadersAreSharp(doc);
    EmptiedLines(doc, false);
    HeadersAreSharp(Emptied(doc).doc);
  }

  lemma {:induction false} EmptiedLines(doc: Doc, between: bool)
    requires UpdateScan(doc, TOC_TAG, [], between).At?
    ensures var out := UpdateScan(doc, TOC_TAG, [], between).out; forall i :: 0 <= i < |out| ==> out[i] in doc
  {
    hide BeginMark, EndMark;
    if doc != [] {
      var step := UpdateLine(doc[0], TOC_TAG, [], between);
      EmptiedLines(doc[1..], step.between);
      assert step.out == [] || step.out == [doc[0]];
    }
  }

  lemma TocShorter(all: seq<string>, kept: seq<string>, lower: char -> char)
    requires |kept| < |all|
    requires forall i :: 0 <= i < |all| ==> "#" <= all[i]
    requires forall i :: 0 <= i < |kept| ==> "#" <= kept[i]
    ensures |Toc(kept, lower)| < |Toc(all, lower)|
  {
    EntryCount(all, lower);
    EntryCount(kept, lower);
  }

  // A header inside a block means that a block is closed later, or the scan fails.
  lemma {:induction false} HeaderInBlockCloses(doc: Doc, between: bool)
    requires HeaderInBlock(doc, between)
    requires UpdateScan(doc, TOC_TAG, [], between).At? && !UpdateScan(doc, TOC_TAG, [], between).between
    ensures Closes(doc, TOC_TAG, between)
  {
    hide BeginMark, EndMark;
    var step := UpdateLine(doc[0], TOC_TAG, [], between);
    if step.out == [] && Listed(doc[0]) {
      LeavingCloses(doc, TOC_TAG);
    } else {
      HeaderInBlockCloses(doc[1..], step.between);
    }
  }

  lemma {:induction false} LeavingCloses(doc: Doc, token: string)
    requires UpdateScan(doc, token, [], true).At? && !UpdateScan(doc, token, [], true).between
    ensures Closes(doc, token, true)
  {
    hide BeginMark, EndMark;
    var step := UpdateLine(doc[0], token, [], true);
    if step.between {
      LeavingCloses(doc[1..], token);
    }
  }

  // A shorter insert gives a shorter document as soon as one block is closed.
  lemma {:induction false} ShorterInsert(doc: Doc, token: string, a: Doc, b: Doc, between: bool)
    requires |b| < |a| && UpdateScan(doc, token, a, between).At?
    ensures var ra, rb := UpdateScan(doc, token, a, between), UpdateScan(doc, token, b, between);
            rb.At? && |rb.out| <= |ra.out| && (Closes(doc, token, between) ==> |rb.out| < |ra.out|)
  {
    hide BeginMark, EndMark;
    if doc != [] {
      var step := UpdateLine(doc[0], token, a, between);
      ShorterInsert(doc[1..], token, a, b, step.between);
    }
  }

  // ---------- what the entries say ----------

  // The headers before position i with the given bookmark
  ghost function EarlierUses(headers: seq<string>, i: nat, bookmark: string, lower: char -> char): set<nat>
    requires i <= |headers|
  {
    set j: nat | j < i && Base(headers[j], lower) == bookmark
  }

  lemma {:induction false} CountIsCardinality(headers: seq<string>, i: nat, bookmark: string, lower: char -> char)
    requires i <= |headers| && forall k :: 0 <= k < |headers| ==> "#" <= headers[k]
    ensures Count(headers[..i], bookmark, lower) == |EarlierUses(headers, i, bookmark, lower)|
  {
    hide Base;
    if i == 0 {
      assert EarlierUses(headers, i, bookmark, lower) == {};
    } else {
      CountIsCardinality(headers, i - 1, bookmark, lower);
      assert headers[..i][..i - 1] == headers[..i - 1] && headers[i - 1][0] == '#';
      UsesStep(headers, i, bookmark, lower);
    }
  }

  lemma UsesStep(headers: seq<string>, i: nat, bookmark: string, lower: char -> char)
    requires 0 < i <= |headers|
    ensures |EarlierUses(headers, i, bookmark, lower)| ==
            |EarlierUses(headers, i - 1, bookmark, lower)| + if Base(headers[i - 1], lower) == bookmark then 1 else 0
  {
    hide Base;
    var now, before := EarlierUses(headers, i, bookmark, lower), EarlierUses(headers, i - 1, bookmark, lower);
    if Base(headers[i - 1], lower) == bookmark {
      assert now == before + {i - 1};
    } else {
      assert now == before;
    }
  }

  /** The i-th header gets the i-th entry, and its anchor is numbered by how many earlier headers
      have the same bookmark. */
  lemma {:induction false} EntryAt(headers: seq<string>, i: nat, lower: char -> char)
    requires i < |headers| && forall k :: 0 <= k < |headers| ==> "#" <= headers[k]
    ensures HasEntry(headers[i]) && |Entries(headers, lower)| == |headers|
    ensures Entries(headers, lower)[i] ==
            NewLine(EntryText(headers[i], |EarlierUses(headers, i, Base(headers[i], lower), lower)|, lower))
  {
    hide Base, NewLine, EntryText;
    EntryCount(headers, lower);
    var n := |headers| - 1;
    var init := headers[..n];
    EntryCount(init, lower);
    assert headers[i][0] == '#' && headers[n][0] == '#';
    if i == n {
      CountIsCardinality(headers, n, Base(headers[n], lower), lower);
    } else {
      EntryAt(init, i, lower);
      var b := Base(headers[i], lower);
      assert EarlierUses(init, i, b, lower) == EarlierUses(headers, i, b, lower);
    }
  }

  /** Anchors hold only letters, digits and dashes. */
  lemma {:induction false} BookmarksAreClean(heading: string, lower: char -> char)
    ensures forall c :: c in Bookmark(heading, lower) ==> InBookmark(c)
  {
    if heading != [] {
      BookmarksAreClean(heading[1..], lower);
    }
  }

  /** The anchor, character by character: lower case, spaces become dashes, letters, digits and
      dashes stay, and everything else is dropped. */
  lemma {:induction false} BookmarkStep(heading: string, c: char, lower: char -> char)
    ensures Bookmark([], lower) == []
    ensures Bookmark(heading + [c], lower) ==
            Bookmark(heading, lower) +
            if lower(c) == ' ' then "-"
            else if 'a' <= lower(c) <= 'z' || 'A' <= lower(c) <= 'Z' || '0' <= lower(c) <= '9' || lower(c) == '-' then [lower(c)]
            else ""
  {
    if heading == [] {
      assert [] + [c] == [c] && [c][1..] == [];
    } else {
      BookmarkStep(heading[1..], c, lower);
      assert (heading + [c])[1..] == heading[1..] + [c];
    }
  }

  /** The numbers of repeated anchors are written in decimal, without leading zeros. */
  lemma DecimalIs(n: nat, digit: nat)
    requires digit < 10
    ensures Decimal(digit) == ["0123456789"[digit]]
    ensures n > 0 ==> Decimal(10 * n + digit) == Decimal(n) + ["0123456789"[digit]]
  {
    assert (10 * n + digit) / 10 == n && (10 * n + digit) % 10 == digit;
  }

  ghost predicate Padding(s: string) {
    forall i :: 0 <= i < |s| ==> s[i] == ' ' || s[i] == '\n'
  }

  // Trimming leaves it as it is.
  ghost predicate Trimmed(s: string) {
    s != [] ==> s[0] != ' ' && s[0] != '\n' && s[|s| - 1] != ' ' && s[|s| - 1] != '\n'
  }

  lemma {:induction false} TrimIs(a: string, s: string, b: string)
    requires Padding(a) && Trimmed(s) && Padding(b)
    ensures Trim(a + s + b) == s
    decreases |a| + |b|
  {
    var t := a + s + b;
    if a != [] {
      TrimIs(a[1..], s, b);
      assert t[1..] == a[1..] + s + b;
    } else if b == [] {
      assert t == s;
    } else if s == [] {
      TrimIs([], s, b[1..]);
      assert t[1..] == [] + s + b[1..];
    } else {
      TrimIs([], s, b[..|b| - 1]);
      assert t[0] == s[0] && t[..|t| - 1] == [] + s + b[..|b| - 1];
    }
  }

  lemma {:induction false} TrimSharpsIs(n: nat, s: string)
    requires s != [] ==> s[0] != '#'
    ensures TrimSharps(seq(n, i => '#') + s) == s
  {
    var sharps := seq(n, i => '#');
    if n == 0 {
      assert sharps + s == s;
    } else {
      TrimSharpsIs(n - 1, s);
      assert (sharps + s)[1..] == seq(n - 1, i => '#') + s;
    }
  }

  /** The entry of a header: indented by its depth, the title without the sharps and the padding, and
      a link to the title's anchor, numbered from the second use on. */
  lemma EntryReads(depth: nat, a: string, title: string, b: string, used: nat, lower: char -> char)
    requires Padding(a) && Trimmed(title) && Padding(b) && (a == [] && title != [] ==> title[0] != '#')
    ensures var header := seq(depth + 1, i => '#') + a + title + b;
            && HasEntry(header) && Base(header, lower) == Bookmark(title, lower)
            && EntryText(header, used, lower) ==
               seq(2 * depth, i => ' ') + "- [" + title + "](#" +
               (if used == 0 then Bookmark(title, lower) else Bookmark(title, lower) + "-" + Decimal(used)) + ")"
  {
    hide Bookmark, Decimal, Trim, TrimSharps;
    var sharps, text := seq(depth + 1, i => '#'), a + title + b;
    assert sharps + a + title + b == sharps + text;
    TrimSharpsIs(depth + 1, text);
    TrimIs(a, title, b);
  }

  /** The list is framed by blank lines, and has the texts of the lines that are headers and not
      preformatted, in order. */
  lemma TocReads(doc: Doc, l: Line, lower: char -> char)
    ensures Headers([]) == [] && Toc([], lower) == []
    ensures Headers(doc + [l]) == if l.header && !l.preformatted then Headers(doc) + [l.data] else Headers(doc)
    ensures Headers(doc) != [] ==> Toc(Headers(doc), lower) == [NewLine("")] + Entries(Headers(doc), lower) + [NewLine("")]
    ensures UpdateToc(doc, lower) == Update(doc, "GENERATED_TOC", Toc(Headers(doc), lower))
  {
    hide NewLine, Entries, Update;
    HeadersConcat(doc, [l]);
    assert [l][1..] == [];
  }

  // ---------- on disk ----------

  // A TOC block ends inside a fence that was opened in it.
  predicate EndInFence(doc: Doc, between: bool) {
    doc != [] &&
    var step := UpdateLine(doc[0], TOC_TAG, [], between);
    step.At? && ((between && !step.between && doc[0].preformatted) || EndInFence(doc[1..], step.between))
  }

  lemma MarkFlag(l: Line, flag: bool)
    requires Flagged([l], flag)
    ensures IsMark(l, TOC_TAG) ==> l.preformatted == flag && (Flagged([l], false) <==> !flag)
  {
    hide NewLine, InlineFence, Contains;
    assert FlaggedAt([l], 0, flag);
    assert NewLine(l.data).(preformatted := NextFlag(flag, l.data)).preformatted == NextFlag(flag, l.data);
    assert NewLine(l.data).(preformatted := NextFlag(false, l.data)).preformatted == NextFlag(false, l.data);
    if IsMark(l, TOC_TAG) {
      MarkText(l, TOC_TAG);
      if Flagged([l], false) { assert FlaggedAt([l], 0, false); }
    }
  }

  // The output of a scan that starts behind a line flagged `flag`; inside a block the line before
  // in the output is the begin mark.
  lemma {:induction false} UpdateIsFlagged(doc: Doc, ins: Doc, between: bool, flag: bool)
    requires Flagged(doc, flag) && Plain(ins) && UpdateScan(doc, TOC_TAG, ins, between).At?
    ensures Flagged(UpdateScan(doc, TOC_TAG, ins, between).out, if between then false else flag)
            <==> !EndInFence(doc, between)
  {
    hide NewLine, Flagged, Plain, IsBegin, IsEnd;
    if doc == [] {
      NothingIsFlagged(if between then false else flag);
    } else {
      var l, rest := doc[0], doc[1..];
      HeadSplit(doc, flag);
      MarkFlag(l, flag);
      var step, none := UpdateLine(l, TOC_TAG, ins, between), UpdateLine(l, TOC_TAG, [], between);
      assert none.At? && none.between == step.between;
      UpdateIsFlagged(rest, ins, step.between, l.preformatted);
      var later := UpdateScan(rest, TOC_TAG, ins, step.between).out;
      if step.out == [] {
        assert [] + later == later;
      } else if between {
        BlockEnd(ins, l, later);
      } else {
        FlaggedConcat([l], later, flag);
      }
    }
  }

  lemma BlockEnd(ins: Doc, l: Line, later: Doc)
    requires Plain(ins)
    ensures Flagged(ins + [l] + later, false) <==> Flagged([l], false) && Flagged(later, l.preformatted)
  {
    hide NewLine, Flagged;
    PlainIsFlagged(ins, false);
    FlaggedConcat(ins + [l], later, false);
    FlaggedConcat(ins, [l], false);
    assert FlagBefore(ins, |ins|, false) == false by {
      if ins != [] { NewIsPlain(ins[|ins| - 1].data); }
    }
  }

  // ---------- generated lines are plain ----------

  lemma {:induction false} SkipIndent(n: nat, s: string)
    requires s != [] && !IsSpace(s[0])
    ensures SkipSpace(seq(n, i => ' ') + s) == s
  {
    var pad := seq(n, i => ' ');
    if n == 0 {
      assert pad + s == s;
    } else {
      SkipIndent(n - 1, s);
      assert (pad + s)[1..] == seq(n - 1, i => ' ') + s;
    }
  }

  lemma {:induction false} TrimKeeps(s: string)
    ensures forall c :: c in Trim(s) ==> c in s
  {
    if s != [] && (s[0] == ' ' || s[0] == '\n') {
      TrimKeeps(s[1..]);
    } else if s != [] && (s[|s| - 1] == ' ' || s[|s| - 1] == '\n') {
      TrimKeeps(s[..|s| - 1]);
    }
  }

  lemma {:induction false} TrimSharpsKeeps(s: string)
    ensures forall c :: c in TrimSharps(s) ==> c in s
  {
    if s != [] && s[0] == '#' { TrimSharpsKeeps(s[1..]); }
  }

  lemma {:induction false} DecimalIsOneLine(n: nat)
    ensures '\n' !in Decimal(n)
  {
    if n >= 10 { DecimalIsOneLine(n / 10); }
  }

  lemma EntryIsPlain(header: string, used: nat, lower: char -> char)
    requires HasEntry(header) && '\n' !in header
    ensures var s := EntryText(header, used, lower); !Fence(s) && '\n' !in s
  {
    hide Trim, TrimSharps, Base, Decimal, Fence;
    var title, base := Trim(TrimSharps(header)), Base(header, lower);
    var anchor := if used > 0 then base + "-" + Decimal(used) else base;
    var rest := "- [" + title + "](#" + anchor + ")";
    var pad := Indent(|header| - |TrimSharps(header)| - 1);
    assert EntryText(header, used, lower) == pad + rest;
    assert '\n' !in title by { TrimSharpsKeeps(header); TrimKeeps(TrimSharps(header)); }
    assert '\n' !in base by { BaseIsClean(header, lower); }
    DecimalIsOneLine(used);
    assert '\n' !in anchor;
    assert '\n' !in "- [" && '\n' !in "](#" && '\n' !in ")" && '\n' !in pad;
    assert '\n' !in rest;
    DashIsNoFence(|pad|, rest);
  }

  lemma BaseIsClean(header: string, lower: char -> char)
    ensures '\n' !in Base(header, lower)
  {
    hide Trim, TrimSharps;
    BookmarksAreClean(Trim(TrimSharps(header)), lower);
  }

  lemma DashIsNoFence(n: nat, s: string)
    requires s != [] && s[0] == '-'
    ensures !Fence(seq(n, i => ' ') + s)
  {
    SkipIndent(n, s);
  }

  lemma {:induction false} EntriesArePlain(headers: seq<string>, lower: char -> char)
    requires forall i :: 0 <= i < |headers| ==> '\n' !in headers[i]
    ensures Plain(Entries(headers, lower)) && OneLineEach(Entries(headers, lower))
  {
    hide NewLine, Fence, EntryText, HasEntry;
    if headers != [] {
      var init, h := headers[..|headers| - 1], headers[|headers| - 1];
      EntriesArePlain(init, lower);
      if HasEntry(h) {
        var used := Count(init, Base(h, lower), lower);
        EntryIsPlain(h, used, lower);
        NewIsPlain(EntryText(h, used, lower));
      }
    }
  }

  lemma {:induction false} HeadersAreOneLine(doc: Doc)
    requires OneLineEach(doc)
    ensures forall i :: 0 <= i < |Headers(doc)| ==> '\n' !in Headers(doc)[i]
  {
    if doc != [] {
      assert OneLineEach(doc[1..]);
      HeadersAreOneLine(doc[1..]);
    }
  }

  lemma TocIsPlain(doc: Doc, lower: char -> char)
    requires OneLineEach(doc)
    ensures Plain(Toc(Headers(doc), lower)) && OneLineEach(Toc(Headers(doc), lower))
  {
    hide NewLine, Fence, Entries, BLANK;
    HeadersAreOneLine(doc);
    EntriesArePlain(Headers(doc), lower);
    BlankIsNewLine();
  }

  lemma {:induction false} UpdatedLines(doc: Doc, ins: Doc, between: bool)
    requires UpdateScan(doc, TOC_TAG, ins, between).At?
    ensures forall l :: l in UpdateScan(doc, TOC_TAG, ins, between).out ==> l in doc || l in ins
    ensures !between && doc != [] ==> UpdateScan(doc, TOC_TAG, ins, between).out != []
  {
    hide IsBegin, IsEnd;
    if doc != [] {
      var step := UpdateLine(doc[0], TOC_TAG, ins, between);
      UpdatedLines(doc[1..], ins, step.between);
    }
  }

  lemma UpdatedIsOneLineEach(doc: Doc, ins: Doc)
    requires OneLineEach(doc) && OneLineEach(ins) && doc != [] && Update(doc, TOC_TAG, ins).Ok?
    ensures OneLineEach(Update(doc, TOC_TAG, ins).doc) && Update(doc, TOC_TAG, ins).doc != []
  {
    hide UpdateScan;
    UpdatedLines(doc, ins, false);
    var out := Update(doc, TOC_TAG, ins).doc;
    forall i | 0 <= i < |out|
      ensures '\n' !in out[i].data
    {
      assert out[i] in doc || out[i] in ins;
    }
  }

  lemma UpdateReadsBack(doc: Doc, ins: Doc)
    requires Flagged(doc, false) && OneLineEach(doc) && doc != []
    requires Plain(ins) && OneLineEach(ins) && Update(doc, TOC_TAG, ins).Ok?
    ensures var out := Update(doc, TOC_TAG, ins).doc; Parse(Print(out)) == out <==> !EndInFence(doc, false)
  {
    hide Flagged, OneLineEach, Plain, UpdateScan, Parse, Print, EndInFence;
    UpdatedIsOneLineEach(doc, ins);
    Reread(Update(doc, TOC_TAG, ins).doc);
    UpdateIsFlagged(doc, ins, false, false);
  }

  /** What the munge writes is read back as the same lines if and only if no TOC block ends inside
      a fence that was opened in it. */
  lemma TocOnDisk(s: string, lower: char -> char)
    requires Parse(s) != [] && UpdateToc(Parse(s), lower).Ok?
    ensures var out := UpdateToc(Parse(s), lower).doc; Parse(Print(out)) == out <==> !EndInFence(Parse(s), false)
  {
    hide Flagged, OneLineEach, Plain, Toc, Headers, UpdateScan, Parse, Print, EndInFence;
    ParsedIsFlagged(s);
    TocIsPlain(Parse(s), lower);
    UpdateReadsBack(Parse(s), Toc(Headers(Parse(s)), lower));
  }

  /** On such files convergence is that of the written files: the second run writes what further
      runs leave alone, and the first run does if and only if no header stands inside a TOC block. */
  lemma TocConvergesOnDisk(s: string, lower: char -> char)
    requires Parse(s) != [] && UpdateToc(Parse(s), lower).Ok? && !EndInFence(Parse(s), false)
    ensures var once := UpdateToc(Parse(s), lower);
            var twice := UpdateToc(Parse(Print(once.doc)), lower);
            && twice.Ok?
            && (twice == once <==> !HeaderInBlock(Parse(s), false))
            && UpdateToc(Parse(Print(twice.doc)), lower) == twice
  {
    hide Flagged, OneLineEach, Plain, Toc, Headers, UpdateScan, Parse, Print, EndInFence, HeaderInBlock;
    var doc := Parse(s);
    ParsedIsFlagged(s);
    TocOnDisk(s, lower);
    ParsedIsSharp(s);
    TocIdempotentIff(doc, lower);
    TocConverges(doc, lower);
    SecondPass(doc, lower);
    EmptiedIsOneLineEach(doc);
    TocIsPlain(Emptied(doc).doc, lower);
    UpdateReadsBack(doc, Toc(Headers(Emptied(doc).doc), lower));
  }

  lemma EmptiedIsOneLineEach(doc: Doc)
    requires OneLineEach(doc) && doc != [] && Emptied(doc).Ok?
    ensures OneLineEach(Emptied(doc).doc)
  {
    UpdatedIsOneLineEach(doc, []);
  }

  lemma ParsedIsSharp(s: string)
    ensures SharpHeaders(Parse(s))
  {
    hide HasLink, Contains, NextFlag, Parse;
    ParsedIsFlagged(s);
    var doc := Parse(s);
    forall i | 0 <= i < |doc| && doc[i].header
      ensures "#" <= doc[i].data
    {
      assert FlaggedAt(doc, i, false);
    }
  }

  // ---------- a header inside a block ----------

  function HeaderBlock(): Doc {
    [NewLine(BeginMark(TOC_TAG)), NewLine("#"), NewLine(EndMark(TOC_TAG))]
  }

  lemma TagIsOneLine()
    ensures '\n' !in TOC_TAG
  {
  }

  lemma SharpLine()
    ensures var h := NewLine("#"); Listed(h) && h.data == "#" && !Fence(h.data) && !h.preformatted
  {
    assert SkipSpace("#") == "#";
  }

  lemma HeaderBlockLines()
    ensures Plain(HeaderBlock()) && OneLineEach(HeaderBlock())
    ensures var doc := HeaderBlock(); IsBegin(doc[0], TOC_TAG) && IsEnd(doc[2], TOC_TAG) && !IsBegin(doc[2], TOC_TAG)
    ensures Listed(HeaderBlock()[1]) && !IsMark(HeaderBlock()[1], TOC_TAG)
    ensures forall i :: 0 <= i < 3 ==> !HeaderBlock()[i].preformatted
  {
    hide NewLine, Fence, IsBegin, IsEnd, BeginMark, EndMark, TOC_TAG, Listed;
    TagIsOneLine();
    MarkLines(TOC_TAG);
    SharpLine();
    var b, h, e := NewLine(BeginMark(TOC_TAG)), NewLine("#"), NewLine(EndMark(TOC_TAG));
    assert [b][0] == b && [e][0] == e;
    if IsMark(h, TOC_TAG) { MarkText(h, TOC_TAG); }
  }

  lemma HeaderBlockScan(ins: Doc)
    ensures Update(HeaderBlock(), TOC_TAG, ins).Ok? && HeaderInBlock(HeaderBlock(), false)
  {
    HeaderBlockLines();
    hide NewLine, IsBegin, IsEnd, Plain, OneLineEach, Listed;
    var doc := HeaderBlock();
    assert doc[1..] == [doc[1], doc[2]] && [doc[1], doc[2]][1..] == [doc[2]] && [doc[2]][1..] == [];
    assert UpdateScan([doc[2]], TOC_TAG, ins, true).At? && !UpdateScan([doc[2]], TOC_TAG, ins, true).between;
    assert UpdateScan([doc[1], doc[2]], TOC_TAG, ins, true).At?;
    assert HeaderInBlock([doc[1], doc[2]], true);
  }

  /** A TOC block that holds a header line: the second run writes another text than the first. */
  lemma HeaderInBlockNeedsTwoRuns(lower: char -> char)
    ensures var s := Print(HeaderBlock()); var once := UpdateToc(Parse(s), lower);
            Parse(s) == HeaderBlock() && once.Ok? && UpdateToc(once.doc, lower) != once
  {
    hide NewLine, Plain, OneLineEach, Toc, Headers, UpdateScan, Flagged, HeaderInBlock, HeaderBlock, Parse, Print, SharpHeaders;
    var doc := HeaderBlock();
    HeaderBlockLines();
    PlainIsFlagged(doc, false);
    HeaderBlockScan(Toc(Headers(doc), lower));
    assert doc != [] by { HeaderBlockIsThree(); }
    Reread(doc);
    ParsedIsSharp(Print(doc));
    TocIdempotentIff(doc, lower);
  }

  lemma HeaderBlockIsThree()
    ensures |HeaderBlock()| == 3
  {
  }
}
