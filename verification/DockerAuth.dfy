/**
 The "auth" field of a Docker configuration: base64 of username:password, with the alphabet and
 padding of section 4 of RFC 4648. Go strings are byte sequences, and so are user names here. The
 decoder skips line breaks, as Go's does.
 */
module DockerAuth {
  import opened Options
  import opened Text

  type Byte = x: int | 0 <= x < 256

  type Bytes = seq<Byte>

  // ---------- base64 ----------

  function SextetChar(v: int): char
    requires 0 <= v < 64
  {
    if v < 26 then 'A' + v as char
    else if v < 52 then 'a' + (v - 26) as char
    else if v < 62 then '0' + (v - 52) as char
    else if v == 62 then '+' else '/'
  }

  function CharSextet(c: char): (v: int)
    ensures -1 <= v < 64
  {
    if 'A' <= c <= 'Z' then c as int - 'A' as int
    else if 'a' <= c <= 'z' then c as int - 'a' as int + 26
    else if '0' <= c <= '9' then c as int - '0' as int + 52
    else if c == '+' then 62 else if c == '/' then 63 else -1
  }

  function Encode(b: Bytes): string {
    if |b| == 0 then ""
    else if |b| == 1 then
      [SextetChar(b[0] / 4), SextetChar(b[0] % 4 * 16), '=', '=']
    else if |b| == 2 then
      [SextetChar(b[0] / 4), SextetChar(b[0] % 4 * 16 + b[1] / 16), SextetChar(b[1] % 16 * 4), '=']
    else
      [SextetChar(b[0] / 4), SextetChar(b[0] % 4 * 16 + b[1] / 16),
       SextetChar(b[1] % 16 * 4 + b[2] / 64), SextetChar(b[2] % 64)] + Encode(b[3..])
  }

  function StripBreaks(s: string): string {
    if s == [] then []
    else if s[0] == '\n' || s[0] == '\r' then StripBreaks(s[1..])
    else [s[0]] + StripBreaks(s[1..])
  }

  // One group of four characters at a time; padding only in the last.
  function DecodeGroups(s: string): Option<Bytes> {
    if s == [] then Some([])
    else if |s| < 4 then None
    else
      var v0, v1, v2, v3 := CharSextet(s[0]), CharSextet(s[1]), CharSextet(s[2]), CharSextet(s[3]);
      if v0 < 0 || v1 < 0 then None
      else if s[2] == '=' then
        if s[3] == '=' && |s| == 4 then Some([v0 * 4 + v1 / 16]) else None
      else if v2 < 0 then None
      else if s[3] == '=' then
        if |s| == 4 then Some([v0 * 4 + v1 / 16, v1 % 16 * 16 + v2 / 4]) else None
      else if v3 < 0 then None
      else
        match DecodeGroups(s[4..])
        case None => None
        case Some(rest) => Some([v0 * 4 + v1 / 16, v1 % 16 * 16 + v2 / 4, v2 % 4 * 64 + v3] + rest)
  }

  function Decode(s: string): Option<Bytes> {
    DecodeGroups(StripBreaks(s))
  }

  lemma SextetRoundTrip(v: int)
    requires 0 <= v < 64
    ensures CharSextet(SextetChar(v)) == v && SextetChar(v) != '=' && SextetChar(v) != '\n' && SextetChar(v) != '\r'
  {
  }

  lemma SextetsRestoreBytes(x: Byte, y: Byte, z: Byte)
    ensures var v0, v1, v2, v3 := x / 4, x % 4 * 16 + y / 16, y % 16 * 4 + z / 64, z % 64;
            && 0 <= v0 < 64 && 0 <= v1 < 64 && 0 <= v2 < 64 && 0 <= v3 < 64
            && v0 * 4 + v1 / 16 == x && v1 % 16 * 16 + v2 / 4 == y && v2 % 4 * 64 + v3 == z
  {
  }

  lemma GroupOfThree(x: Byte, y: Byte, z: Byte, rest: string)
    ensures var s := [SextetChar(x / 4), SextetChar(x % 4 * 16 + y / 16), SextetChar(y % 16 * 4 + z / 64), SextetChar(z % 64)] + rest;
            DecodeGroups(s) == match DecodeGroups(rest) case None => None case Some(more) => Some([x, y, z] + more)
  {
    hide SextetChar, CharSextet;
    SextetsRestoreBytes(x, y, z);
    FourSextets(x / 4, x % 4 * 16 + y / 16, y % 16 * 4 + z / 64, z % 64, rest);
  }

  lemma FourSextets(v0: int, v1: int, v2: int, v3: int, rest: string)
    requires 0 <= v0 < 64 && 0 <= v1 < 64 && 0 <= v2 < 64 && 0 <= v3 < 64
    ensures DecodeGroups([SextetChar(v0), SextetChar(v1), SextetChar(v2), SextetChar(v3)] + rest) ==
            match DecodeGroups(rest)
            case None => None
            case Some(more) => Some([v0 * 4 + v1 / 16, v1 % 16 * 16 + v2 / 4, v2 % 4 * 64 + v3] + more)
  {
    hide SextetChar, CharSextet;
    SextetRoundTrip(v0);
    SextetRoundTrip(v1);
    SextetRoundTrip(v2);
    SextetRoundTrip(v3);
    var s := [SextetChar(v0), SextetChar(v1), SextetChar(v2), SextetChar(v3)] + rest;
    assert s[4..] == rest;
  }

  lemma LastGroup(x: Byte, y: Byte)
    ensures DecodeGroups([SextetChar(x / 4), SextetChar(x % 4 * 16), '=', '=']) == Some([x])
    ensures DecodeGroups([SextetChar(x / 4), SextetChar(x % 4 * 16 + y / 16), SextetChar(y % 16 * 4), '=']) == Some([x, y])
  {
    hide SextetChar, CharSextet;
    SextetRoundTrip(x / 4);
    SextetRoundTrip(x % 4 * 16);
    SextetRoundTrip(x % 4 * 16 + y / 16);
    SextetRoundTrip(y % 16 * 4);
  }

  lemma {:induction false} DecodeGroupsEncode(b: Bytes)
    ensures DecodeGroups(Encode(b)) == Some(b)
  {
    hide SextetChar, DecodeGroups;
    if |b| == 0 {
      assert DecodeGroups("") == Some([]) by { DecodeNothing(); }
    } else if |b| == 1 {
      LastGroup(b[0], 0);
      assert b == [b[0]];
    } else if |b| == 2 {
      LastGroup(b[0], b[1]);
      assert b == [b[0], b[1]];
    } else {
      DecodeGroupsEncode(b[3..]);
      GroupOfThree(b[0], b[1], b[2], Encode(b[3..]));
      assert b == [b[0], b[1], b[2]] + b[3..];
    }
  }

  lemma DecodeNothing()
    ensures DecodeGroups("") == Some([])
  {
  }

  lemma {:induction false} StripsNothing(s: string)
    requires '\n' !in s && '\r' !in s
    ensures StripBreaks(s) == s
  {
    if s != [] {
      StripsNothing(s[1..]);
      assert s == [s[0]] + s[1..];
    }
  }

  lemma {:induction false} EncodedHasNoBreaks(b: Bytes)
    ensures '\n' !in Encode(b) && '\r' !in Encode(b)
  {
    hide SextetChar;
    forall v | 0 <= v < 64
      ensures SextetChar(v) != '\n' && SextetChar(v) != '\r'
    {
      SextetRoundTrip(v);
    }
    if |b| >= 3 {
      EncodedHasNoBreaks(b[3..]);
    }
  }

  /** Decoding inverts encoding on every byte string. */
  lemma Base64RoundTrip(b: Bytes)
    ensures Decode(Encode(b)) == Some(b)
  {
    EncodedHasNoBreaks(b);
    StripsNothing(Encode(b));
    DecodeGroupsEncode(b);
  }

  lemma {:induction false} StripConcat(a: string, b: string)
    ensures StripBreaks(a + b) == StripBreaks(a) + StripBreaks(b)
  {
    if a == [] {
      assert a + b == b;
    } else {
      StripConcat(a[1..], b);
      assert (a + b)[1..] == a[1..] + b;
    }
  }

  /** Line breaks are skipped wherever they stand. */
  lemma BreaksAreSkipped(a: string, b: string)
    ensures Decode(a + "\n" + b) == Decode(a + b) && Decode(a + "\r" + b) == Decode(a + b)
  {
    hide DecodeGroups;
    StripConcat(a, b);
    StripConcat(a + "\n", b);
    StripConcat(a, "\n");
    StripConcat(a + "\r", b);
    StripConcat(a, "\r");
    assert StripBreaks("\n") == [] && StripBreaks("\r") == [];
    assert StripBreaks(a) + [] == StripBreaks(a);
  }

  // All characters are digits but the last `pad`, which are equals signs.
  ghost predicate Shaped(s: string, pad: int) {
    && 0 <= pad <= |s|
    && (forall k :: 0 <= k < |s| - pad ==> CharSextet(s[k]) >= 0)
    && (forall k :: |s| - pad <= k < |s| ==> s[k] == '=')
  }

  lemma ShapedRest(s: string, pad: int)
    requires |s| >= 8 && 0 <= pad <= 2
    ensures Shaped(s, pad) <==> (forall k :: 0 <= k < 4 ==> CharSextet(s[k]) >= 0) && Shaped(s[4..], pad)
  {
    hide CharSextet;
    assert forall k :: 0 <= k < |s| - 4 ==> s[4..][k] == s[4 + k];
    if (forall k :: 0 <= k < 4 ==> CharSextet(s[k]) >= 0) && Shaped(s[4..], pad) {
      forall k | 0 <= k < |s|
        ensures if k < |s| - pad then CharSextet(s[k]) >= 0 else s[k] == '='
      {
        if k >= 4 { assert s[k] == s[4..][k - 4]; }
      }
    }
  }

  lemma EqualsIsNoDigit()
    ensures CharSextet('=') < 0
  {
  }

  /** A text without line breaks is decoded if and only if its length is a multiple of four and it
      consists of digits, with at most two equals signs at the end. */
  lemma {:induction false} DecodesIff(s: string)
    ensures DecodeGroups(s).Some? <==> |s| % 4 == 0 && (Shaped(s, 0) || Shaped(s, 1) || Shaped(s, 2))
  {
    hide CharSextet;
    EqualsIsNoDigit();
    if |s| > 4 {
      DecodesIff(s[4..]);
      if |s| >= 8 {
        ShapedRest(s, 0);
        ShapedRest(s, 1);
        ShapedRest(s, 2);
      }
    } else if |s| == 4 {
      assert s[4..] == [];
    }
  }

  // ---------- the encoding as digits ----------

  const UPPER := "ABCDEFGHIJKLMNOPQRSTUVWXYZ"
  const LOWER := "abcdefghijklmnopqrstuvwxyz"
  const OTHERS := "0123456789+/"

  lemma UpperDigits(v: int)
    requires 0 <= v < 26
    ensures SextetChar(v) == UPPER[v]
  {
  }

  lemma LowerDigits(v: int)
    requires 0 <= v < 26
    ensures SextetChar(v + 26) == LOWER[v]
  {
  }

  lemma OtherDigits(v: int)
    requires 0 <= v < 12
    ensures SextetChar(v + 52) == OTHERS[v]
  {
  }

  /** Table 1 of RFC 4648: the digits in order, and what is not a digit. */
  lemma Alphabet(v: int, c: char)
    requires 0 <= v < 64
    ensures SextetChar(v) == (UPPER + LOWER + OTHERS)[v]
    ensures CharSextet(c) == v <==> c == (UPPER + LOWER + OTHERS)[v]
  {
    hide UPPER, LOWER, OTHERS;
    if v < 26 { UpperDigits(v); } else if v < 52 { LowerDigits(v - 26); } else { OtherDigits(v - 52); }
    AlphabetSizes();
  }

  lemma AlphabetSizes()
    ensures |UPPER| == |LOWER| == 26 && |OTHERS| == 12
  {
  }

  // The 24-bit number of three bytes
  function Number(x: int, y: int, z: int): int {
    x * 65536 + y * 256 + z
  }

  lemma SextetDigits(x: Byte, y: Byte, z: Byte)
    ensures var v0, v1, v2, v3 := x / 4, x % 4 * 16 + y / 16, y % 16 * 4 + z / 64, z % 64;
            && 0 <= v0 < 64 && 0 <= v1 < 64 && 0 <= v2 < 64 && 0 <= v3 < 64
            && v0 * 262144 + v1 * 4096 + v2 * 64 + v3 == Number(x, y, z)
  {
  }

  // The number whose base-64 digits are the n characters of s from position i on
  function Digits(s: string, i: nat, n: nat): int
    requires i + n <= |s|
  {
    if n == 0 then 0 else Digits(s, i, n - 1) * 64 + CharSextet(s[i + n - 1])
  }

  ghost predicate InAlphabet(s: string, i: nat, n: nat) {
    i + n <= |s| && forall k :: i <= k < i + n ==> CharSextet(s[k]) >= 0
  }

  lemma FourDigits(s: string, i: nat)
    requires i + 4 <= |s|
    ensures Digits(s, i, 4) ==
            CharSextet(s[i]) * 262144 + CharSextet(s[i + 1]) * 4096 + CharSextet(s[i + 2]) * 64 + CharSextet(s[i + 3])
    ensures Digits(s, i, 3) == CharSextet(s[i]) * 4096 + CharSextet(s[i + 1]) * 64 + CharSextet(s[i + 2])
    ensures Digits(s, i, 2) == CharSextet(s[i]) * 64 + CharSextet(s[i + 1])
  {
    hide CharSextet;
    assert Digits(s, i, 1) == CharSextet(s[i]);
    assert Digits(s, i, 2) == Digits(s, i, 1) * 64 + CharSextet(s[i + 1]);
    assert Digits(s, i, 3) == Digits(s, i, 2) * 64 + CharSextet(s[i + 2]);
  }

  lemma {:induction false} EncodedLength(b: Bytes)
    ensures |Encode(b)| == (|b| + 2) / 3 * 4
  {
    hide SextetChar;
    if |b| >= 3 { EncodedLength(b[3..]); }
  }

  lemma {:induction false} DigitsShift(s: string, t: string, i: nat, n: nat)
    requires i + n <= |t| && |s| >= 4 && s[4..] == t
    ensures Digits(s, i + 4, n) == Digits(t, i, n)
  {
    hide CharSextet;
    if n > 0 {
      DigitsShift(s, t, i, n - 1);
      assert s[4..][i + n - 1] == s[i + 4 + n - 1];
    }
  }

  /** Section 4 of RFC 4648: the k-th full group of three bytes is written as the four base-64
      digits of its 24-bit number, most significant first. */
  lemma {:induction false} FullGroup(b: Bytes, k: nat)
    requires 3 * k + 3 <= |b|
    ensures InAlphabet(Encode(b), 4 * k, 4)
    ensures Digits(Encode(b), 4 * k, 4) == Number(b[3 * k], b[3 * k + 1], b[3 * k + 2])
  {
    hide SextetChar, CharSextet;
    var s, rest := Encode(b), Encode(b[3..]);
    assert s[4..] == rest;
    if k == 0 {
      GroupDigits(b[0], b[1], b[2]);
      FourDigits(s, 0);
    } else {
      FullGroup(b[3..], k - 1);
      DigitsShift(s, rest, 4 * (k - 1), 4);
      assert forall j :: 4 * k <= j < 4 * k + 4 ==> s[j] == rest[j - 4];
    }
  }

  lemma GroupDigits(x: Byte, y: Byte, z: Byte)
    ensures var v0, v1, v2, v3 := x / 4, x % 4 * 16 + y / 16, y % 16 * 4 + z / 64, z % 64;
            && 0 <= v0 < 64 && 0 <= v1 < 64 && 0 <= v2 < 64 && 0 <= v3 < 64
            && CharSextet(SextetChar(v0)) == v0 && CharSextet(SextetChar(v1)) == v1
            && CharSextet(SextetChar(v2)) == v2 && CharSextet(SextetChar(v3)) == v3
            && v0 * 262144 + v1 * 4096 + v2 * 64 + v3 == Number(x, y, z)
  {
    hide SextetChar, CharSextet;
    SextetDigits(x, y, z);
    SextetRoundTrip(x / 4);
    SextetRoundTrip(x % 4 * 16 + y / 16);
    SextetRoundTrip(y % 16 * 4 + z / 64);
    SextetRoundTrip(z % 64);
  }

  // The last four characters when the last group is short: the digits of its bits, padded with
  // zero bits, and equals signs
  ghost predicate Padded(s: string, b: Bytes)
    requires |b| % 3 != 0
  {
    var n, m := |s|, |b|;
    && n >= 4
    && if m % 3 == 1 then
         InAlphabet(s, n - 4, 2) && Digits(s, n - 4, 2) * 4096 == Number(b[m - 1], 0, 0) && s[n - 2] == s[n - 1] == '='
       else
         InAlphabet(s, n - 4, 3) && Digits(s, n - 4, 3) * 64 == Number(b[m - 2], b[m - 1], 0) && s[n - 1] == '='
  }

  lemma ShortGroup(b: Bytes)
    requires 1 <= |b| <= 2
    ensures Padded(Encode(b), b)
  {
    hide SextetChar, CharSextet;
    GroupDigits(b[0], if |b| == 2 then b[1] else 0, 0);
    FourDigits(Encode(b), 0);
  }

  lemma PaddedShift(s: string, rest: string, b: Bytes)
    requires |b| >= 3 && |b| % 3 != 0 && |s| >= 4 && s[4..] == rest && Padded(rest, b[3..])
    ensures Padded(s, b)
  {
    hide CharSextet, Number, Digits;
    DigitsShift(s, rest, |rest| - 4, 2);
    DigitsShift(s, rest, |rest| - 4, 3);
    assert forall j :: 4 <= j < |s| ==> s[j] == rest[j - 4];
    assert forall j :: 3 <= j < |b| ==> b[j] == b[3..][j - 3];
  }

  /** A last group of one or two bytes is padded with zero bits to whole digits, and with equals
      signs to four characters. */
  lemma {:induction false} PaddedGroup(b: Bytes)
    requires |b| % 3 != 0
    ensures Padded(Encode(b), b)
  {
    hide SextetChar, CharSextet, Padded;
    if |b| >= 3 {
      PaddedGroup(b[3..]);
      assert Encode(b)[4..] == Encode(b[3..]);
      PaddedShift(Encode(b), Encode(b[3..]), b);
    } else {
      ShortGroup(b);
    }
  }

  // ---------- the auth field ----------

  const COLON: Byte := 58

  datatype Credentials = Credentials(username: Bytes, password: Bytes)

  function EncodeAuth(username: Bytes, password: Bytes): string {
    Encode(username + [COLON] + password)
  }

  function DecodeAuth(field: string): Option<Credentials> {
    match Decode(field)
    case None => None
    case Some(decoded) =>
      var i := FirstIndex(decoded, COLON);
      if i == |decoded| then None else Some(Credentials(decoded[..i], decoded[i + 1..]))
  }

  /** Decoding gives back what was encoded if and only if the user name has no colon; the password
      is arbitrary. */
  lemma AuthRoundTrip(username: Bytes, password: Bytes)
    ensures COLON == ':' as int
    ensures DecodeAuth(EncodeAuth(username, password)) == Some(Credentials(username, password)) <==> COLON !in username
  {
    hide Decode, Encode;
    var text := username + [COLON] + password;
    Base64RoundTrip(text);
    if COLON !in username {
      FirstIndexAt(username, COLON, password);
      assert text[..|username|] == username && text[|username| + 1..] == password;
    }
  }

  /** Whatever a field decodes to, encoding it again decodes to the same. */
  lemma DecodedIsNormal(field: string)
    requires DecodeAuth(field).Some?
    ensures var c := DecodeAuth(field).value; DecodeAuth(EncodeAuth(c.username, c.password)) == DecodeAuth(field)
  {
    hide Decode, Encode;
    var c := DecodeAuth(field).value;
    AuthRoundTrip(c.username, c.password);
  }

  // ---------- configuration entries ----------

  datatype Entry = Entry(username: Bytes, password: Bytes, email: Bytes)

  // The JSON object of an entry
  datatype EntryWithAuth = EntryWithAuth(username: Bytes, password: Bytes, email: Bytes, auth: string)

  function Marshal(e: Entry): EntryWithAuth {
    EntryWithAuth(e.username, e.password, e.email, EncodeAuth(e.username, e.password))
  }

  // A non-empty auth field replaces the user name and password.
  function Unmarshal(w: EntryWithAuth): Option<Entry> {
    if w.auth == "" then Some(Entry(w.username, w.password, w.email)) else
    match DecodeAuth(w.auth)
    case None => None
    case Some(c) => Some(Entry(c.username, c.password, w.email))
  }

  /** Without an auth field the written user name, password and address are read; with one, those
      in it, or nothing if it does not decode. */
  lemma EntryReads(w: EntryWithAuth, username: Bytes, password: Bytes)
    ensures Unmarshal(w.(auth := "")) == Some(Entry(w.username, w.password, w.email))
    ensures w.auth != "" && DecodeAuth(w.auth) == Some(Credentials(username, password)) ==>
              Unmarshal(w) == Some(Entry(username, password, w.email))
    ensures w.auth != "" && DecodeAuth(w.auth) == None ==> Unmarshal(w) == None
  {
    hide DecodeAuth;
  }

  /** An entry survives being written and read if and only if its user name has no colon. Its own
      fields are written beside the auth field. */
  lemma EntryRoundTrip(e: Entry)
    ensures Unmarshal(Marshal(e)) == Some(e) <==> COLON !in e.username
    ensures Marshal(e).username == e.username && Marshal(e).password == e.password && Marshal(e).email == e.email
  {
    hide DecodeAuth;
    AuthRoundTrip(e.username, e.password);
    assert |e.username + [COLON] + e.password| > 0;
    assert EncodeAuth(e.username, e.password) != "";
  }
}
