/** The munge that trims white space from the ends of lines outside preformatted text. */
module Whitespace {
  import opened MungeLines
  import opened HeaderLines

  // unicode.IsSpace
  predicate IsUnicodeSpace(c: char) {
    || '\t' <= c <= '\r' || c == ' ' || c == '\U{0085}' || c == '\U{00A0}' || c == '\U{1680}'
    || '\U{2000}' <= c <= '\U{200A}' || c == '\U{2028}' || c == '\U{2029}' || c == '\U{202F}' || c == '\U{205F}'
    || c == '\U{3000}'
  }

  /** The white space of Unicode. */
  lemma UnicodeSpaces(c: char)
    ensures IsUnicodeSpace(c) <==>
            c in ['\U{0009}', '\U{000A}', '\U{000B}', '\U{000C}', '\U{000D}', '\U{0020}', '\U{0085}', '\U{00A0}', '\U{1680}',
                  '\U{2000}', '\U{2001}', '\U{2002}', '\U{2003}', '\U{2004}', '\U{2005}', '\U{2006}', '\U{2007}', '\U{2008}',
                  '\U{2009}', '\U{200A}', '\U{2028}', '\U{2029}', '\U{202F}', '\U{205F}', '\U{3000}']
  {
  }

  // strings.TrimRightFunc(s, unicode.IsSpace)
  function TrimRight(s: string): (r: string)
    ensures r <= s && (r != [] ==> !IsUnicodeSpace(r[|r| - 1]))
    ensures forall i :: |r| <= i < |s| ==> IsUnicodeSpace(s[i])
  {
    if s != [] && IsUnicodeSpace(s[|s| - 1]) then TrimRight(s[..|s| - 1]) else s
  }

  function Trimmed(l: Line): Line {
    if l.preformatted then l else NewLine(TrimRight(l.data))
  }

  function UpdateWhitespace(doc: Doc): (r: Doc)
    ensures |r| == |doc| && forall i :: 0 <= i < |doc| ==> r[i] == Trimmed(doc[i])
  {
    seq(|doc|, i requires 0 <= i < |doc| => Trimmed(doc[i]))
  }

  method UpdateWhitespaceLoop(mlines: Doc) returns (out: Doc)
    ensures out == UpdateWhitespace(mlines)
  {
    hide NewLine;
    out := [];
    for i := 0 to |mlines|
      invariant out == UpdateWhitespace(mlines[..i])
    {
      var mline := mlines[i];
      assert mlines[..i + 1] == mlines[..i] + [mline];
      if mline.preformatted {
        out := out + [mline];
        continue;
      }
      var newline := TrimRight(mline.data);
      out := out + [NewLine(newline)];
    }
    assert mlines[..|mlines|] == mlines;
  }

  // ---------- trimming ----------

  // The trimmed text is the one prefix that ends in no space and leaves only spaces.
  lemma TrimIs(s: string, r: string)
    requires r <= s && (r != [] ==> !IsUnicodeSpace(r[|r| - 1]))
    requires forall i :: |r| <= i < |s| ==> IsUnicodeSpace(s[i])
    ensures TrimRight(s) == r
  {
    hide IsUnicodeSpace;
    var t := TrimRight(s);
    if r != [] { assert r[|r| - 1] == s[|r| - 1]; }
    if t != [] { assert t[|t| - 1] == s[|t| - 1]; }
  }

  lemma TrimTwice(s: string)
    ensures TrimRight(TrimRight(s)) == TrimRight(s)
  {
    hide IsUnicodeSpace;
    TrimIs(TrimRight(s), TrimRight(s));
  }

  lemma TrimBehind(a: string, s: string)
    ensures TrimRight(s) != [] ==> TrimRight(a + s) == a + TrimRight(s)
    ensures TrimRight(s) == [] ==> TrimRight(a + s) == TrimRight(a)
  {
    hide IsUnicodeSpace;
    var t := TrimRight(s);
    if t != [] {
      TrimIs(a + s, a + t);
    } else {
      TrimIs(a + s, TrimRight(a));
    }
  }

  lemma {:induction false} SkipThenTrim(s: string)
    ensures SkipSpace(TrimRight(s)) == TrimRight(SkipSpace(s))
  {
    if s != [] && IsSpace(s[0]) {
      SkipThenTrim(s[1..]);
      TrimBehind([s[0]], s[1..]);
      assert [s[0]] + s[1..] == s;
      TrimIs([s[0]], []);
      assert TrimRight(s) != [] ==> TrimRight(s)[1..] == TrimRight(s[1..]);
    } else {
      var t := TrimRight(s);
      assert t != [] ==> t[0] == s[0];
    }
  }

  lemma FenceIsKept(s: string)
    ensures Fence(TrimRight(s)) <==> Fence(s)
  {
    hide IsUnicodeSpace, TrimRight, SkipSpace;
    SkipThenTrim(s);
    var u := SkipSpace(s);
    TicksAreKept(u, 0);
    assert u[0..] == u && TrimRight(u)[0..] == TrimRight(u);
  }

  predicate InlineAt(u: string, i: int) {
    3 <= i <= |u| && "```" <= u[i..] && '\n' !in u[3..i]
  }

  lemma InlineAtIsKept(u: string, i: int)
    ensures InlineAt(TrimRight(u), i) <==> InlineAt(u, i)
  {
    hide IsUnicodeSpace, TrimRight;
    var v := TrimRight(u);
    if 3 <= i <= |u| {
      TicksAreKept(u, i);
      if i <= |v| { assert v[3..i] == u[3..i]; }
    }
  }

  lemma InlineFenceIs(s: string)
    ensures InlineFence(s) <==> Fence(s) && exists i :: InlineAt(SkipSpace(s), i)
  {
    hide SkipSpace;
    if InlineFence(s) {
      var i :| 3 <= i <= |SkipSpace(s)| && "```" <= SkipSpace(s)[i..] && '\n' !in SkipSpace(s)[3..i];
      assert InlineAt(SkipSpace(s), i);
    }
  }

  /** Trimming neither makes nor breaks a fence. */
  lemma TrimKeepsFences(s: string, flag: bool)
    ensures NextFlag(flag, TrimRight(s)) == NextFlag(flag, s)
  {
    hide Fence, InlineFence, InlineAt, TrimRight, SkipSpace;
    FenceIsKept(s);
    SkipThenTrim(s);
    InlineFenceIs(s);
    InlineFenceIs(TrimRight(s));
    forall i
      ensures InlineAt(TrimRight(SkipSpace(s)), i) <==> InlineAt(SkipSpace(s), i)
    {
      InlineAtIsKept(SkipSpace(s), i);
    }
  }

  lemma TicksAreKept(u: string, i: nat)
    requires i <= |u|
    ensures var v := TrimRight(u); "```" <= u[i..] <==> i <= |v| && "```" <= v[i..]
  {
    var v := TrimRight(u);
    if "```" <= u[i..] {
      assert u[i..][2] == u[i + 2] == '`' && u[i..][0] == u[i] && u[i..][1] == u[i + 1];
      assert !IsUnicodeSpace(u[i + 2]);
      assert v[i..][..3] == u[i..][..3];
    }
    if i <= |v| && "```" <= v[i..] {
      assert v[i..][..3] == u[i..][..3];
    }
  }

  // ---------- documents ----------

  lemma TrimmedTwice(l: Line)
    ensures Trimmed(Trimmed(l)) == Trimmed(l)
  {
    hide HasLink, Contains;
    TrimTwice(l.data);
  }

  /** A second pass changes nothing. */
  lemma WhitespaceIdempotent(doc: Doc)
    ensures UpdateWhitespace(UpdateWhitespace(doc)) == UpdateWhitespace(doc)
  {
    forall i | 0 <= i < |doc|
      ensures UpdateWhitespace(UpdateWhitespace(doc))[i] == UpdateWhitespace(doc)[i]
    {
      TrimmedTwice(doc[i]);
    }
  }

  /** Trimming keeps every flag and every number of lines, also when the file is read back. */
  lemma TrimmedIsFlagged(doc: Doc)
    requires Flagged(doc, false) && OneLineEach(doc)
    ensures var r := UpdateWhitespace(doc); Flagged(r, false) && OneLineEach(r)
    ensures forall i :: 0 <= i < |doc| ==> UpdateWhitespace(doc)[i].preformatted == doc[i].preformatted
  {
    hide NextFlag, HasLink, Contains;
    var r := UpdateWhitespace(doc);
    forall i | 0 <= i < |doc|
      ensures FlaggedAt(r, i, false) && '\n' !in r[i].data && r[i].preformatted == doc[i].preformatted
    {
      assert FlaggedAt(doc, i, false);
      TrimKeepsFences(doc[i].data, FlagBefore(doc, i, false));
    }
  }

  // ---------- bare headers ----------

  // Nothing but sharps and white space behind them
  predicate BareText(s: string) {
    SharpCount(s) > 0 && TrimRight(s[SharpCount(s)..]) == []
  }

  /** A bare header is at least one sharp with nothing but white space behind. */
  lemma BareTextIff(s: string, k: nat)
    requires k <= |s| && (forall i :: 0 <= i < k ==> s[i] == '#') && (k < |s| ==> s[k] != '#')
    ensures BareText(s) <==> k > 0 && forall i :: k <= i < |s| ==> IsUnicodeSpace(s[i])
  {
    hide IsUnicodeSpace;
    SharpCountIs(k, s);
    var tail := s[k..];
    assert forall i :: 0 <= i < |tail| ==> tail[i] == s[k + i];
    if forall i :: k <= i < |s| ==> IsUnicodeSpace(s[i]) { TrimIs(tail, []); }
  }

  predicate Bare(l: Line) {
    !l.preformatted && BareText(l.data)
  }

  ghost predicate NoBare(doc: Doc) {
    forall l :: l in doc ==> !Bare(l)
  }

  lemma SharpsAreNoSpace(s: string)
    ensures TrimRight(s[..SharpCount(s)]) == s[..SharpCount(s)]
  {
    var sharps := s[..SharpCount(s)];
    if sharps != [] { assert sharps[|sharps| - 1] == '#'; }
    TrimIs(sharps, sharps);
  }

  // A bare header is trimmed to its sharps; any other header keeps what follows them.
  lemma TrimHeader(s: string)
    requires SharpCount(s) > 0
    ensures var n := SharpCount(s); TrimRight(s) == s[..n] + TrimRight(s[n..])
    ensures SharpCount(TrimRight(s)) == SharpCount(s)
  {
    hide IsUnicodeSpace, TrimRight;
    var n := SharpCount(s);
    assert s == s[..n] + s[n..];
    SharpsAreNoSpace(s);
    TrimBehind(s[..n], s[n..]);
    var t := TrimRight(s[n..]);
    assert s[..n] + t == if t == [] then s[..n] else s[..n] + t;
    SharpCountIs(n, s[..n] + t);
  }

  lemma TrimKeepsBare(s: string)
    ensures BareText(TrimRight(s)) <==> BareText(s)
  {
    hide IsUnicodeSpace;
    var t, n := TrimRight(s), SharpCount(s);
    if n > 0 {
      TrimHeader(s);
      assert t[n..] == TrimRight(s[n..]);
      TrimTwice(s[n..]);
    } else {
      assert t != [] ==> t[0] == s[0];
    }
  }

  lemma TitleIsBlank(s: string)
    ensures TrimRight(Title(s)) == [] <==> TrimRight(s[SharpCount(s)..]) == []
  {
    hide IsUnicodeSpace, SharpCount;
    var rest := s[SharpCount(s)..];
    var gap := Margin(rest);
    TrimBehind(gap, Title(s));
    SpaceIsUnicode(gap);
  }

  lemma SpaceIsUnicode(gap: string)
    requires forall c :: c in gap ==> IsSpace(c)
    ensures TrimRight(gap) == []
  {
    forall i | 0 <= i < |gap|
      ensures IsUnicodeSpace(gap[i])
    {
      assert gap[i] in gap;
    }
    TrimIs(gap, []);
  }

  lemma FixedParts(s: string)
    requires HeaderSyntax(s)
    ensures var f, n := FixedText(s), SharpCount(s); SharpCount(f) == n && f[n..] == " " + Title(s) && f == s[..n] + f[n..]
  {
    var f, n := FixedText(s), SharpCount(s);
    SharpCountIs(n, f);
  }

  lemma FixKeepsBare(s: string)
    requires HeaderSyntax(s)
    ensures BareText(FixedText(s)) <==> BareText(s)
  {
    hide IsUnicodeSpace, TrimRight, SharpCount;
    FixedParts(s);
    TitleIsBlank(s);
    TrimBehind(" ", Title(s));
    SpaceIsUnicode(" ");
  }

  /** The header munge leaves a trimmed header trimmed, unless it is bare: then it adds a space
      that trimming takes away again. */
  lemma FixedIsTrimmedIff(s: string)
    requires HeaderSyntax(s) && TrimRight(s) == s
    ensures TrimRight(FixedText(s)) == FixedText(s) <==> !BareText(s)
    ensures BareText(s) ==> FixedText(s) != s
  {
    hide IsUnicodeSpace, TrimRight, SharpCount;
    var n, title := SharpCount(s), Title(s);
    FixedParts(s);
    TitleIsBlank(s);
    TrimHeader(s);
    TrimHeader(FixedText(s));
    TrimBehind(" ", title);
    SpaceIsUnicode(" ");
    if !BareText(s) {
      TitleIsTrimmed(s);
    } else {
      assert s == s[..n];
    }
  }

  lemma TitleIsTrimmed(s: string)
    requires SharpCount(s) > 0 && TrimRight(s) == s && !BareText(s)
    ensures TrimRight(Title(s)) == Title(s)
  {
    hide IsUnicodeSpace, TrimRight, SharpCount;
    var n := SharpCount(s);
    TrimHeader(s);
    assert s[n..] == TrimRight(s[n..]) by {
      assert (s[..n] + TrimRight(s[n..]))[n..] == TrimRight(s[n..]);
    }
    SkipThenTrim(s[n..]);
  }
}
