/** The sysctl annotation: name=value pairs separated by commas. */
module Sysctls {
  import opened Text

  datatype Sysctl = Sysctl(name: string, value: string)

  datatype Result = Parsed(sysctls: seq<Sysctl>) | Malformed

  // ---------- one pair ----------

  predicate PairSyntax(kv: string) {
    var cs := Split(kv, '=');
    |cs| == 2 && cs[0] != ""
  }

  function PairOf(kv: string): Sysctl
    requires PairSyntax(kv)
  {
    Sysctl(Split(kv, '=')[0], Split(kv, '=')[1])
  }

  function PairText(s: Sysctl): string {
    s.name + "=" + s.value
  }

  // What the syntax can express
  predicate Clean(s: Sysctl) {
    s.name != "" && '=' !in s.name && ',' !in s.name && '=' !in s.value && ',' !in s.value
  }

  lemma PairTextOfPair(kv: string)
    requires PairSyntax(kv) && ',' !in kv
    ensures PairText(PairOf(kv)) == kv && Clean(PairOf(kv))
  {
    var cs := Split(kv, '=');
    JoinSplit(kv, '=');
    assert cs[1..] == [cs[1]];
    assert kv == cs[0] + ['='] + cs[1];
    SplitPartsAreClean(kv, '=');
    assert cs[0] in cs && cs[1] in cs;
    assert forall c :: c in cs[0] || c in cs[1] ==> c in kv;
  }

  lemma PairOfPairText(s: Sysctl)
    requires Clean(s)
    ensures PairSyntax(PairText(s)) && PairOf(PairText(s)) == s && ',' !in PairText(s)
  {
    SplitAtSeparator(s.name, '=', s.value);
    SplitOne(s.value, '=');
    assert PairText(s) == s.name + ['='] + s.value;
  }

  // ---------- the annotation ----------

  function ParsePairs(kvs: seq<string>): Result {
    if kvs == [] then Parsed([])
    else if !PairSyntax(kvs[0]) then Malformed
    else
      match ParsePairs(kvs[1..])
      case Malformed => Malformed
      case Parsed(rest) => Parsed([PairOf(kvs[0])] + rest)
  }

  function Parse(annotation: string): Result {
    if annotation == "" then Parsed([]) else ParsePairs(Split(annotation, ','))
  }

  function Texts(sysctls: seq<Sysctl>): (kvs: seq<string>)
    ensures |kvs| == |sysctls|
  {
    seq(|sysctls|, i requires 0 <= i < |sysctls| => PairText(sysctls[i]))
  }

  function Print(sysctls: seq<Sysctl>): string {
    Join(Texts(sysctls), ',')
  }

  // ---------- the loops ----------

  lemma {:induction false} ParsePairsPointwise(kvs: seq<string>)
    ensures ParsePairs(kvs).Malformed? <==> exists i :: 0 <= i < |kvs| && !PairSyntax(kvs[i])
    ensures ParsePairs(kvs).Parsed? ==>
              && |ParsePairs(kvs).sysctls| == |kvs|
              && forall i :: 0 <= i < |kvs| ==> PairSyntax(kvs[i]) && ParsePairs(kvs).sysctls[i] == PairOf(kvs[i])
  {
    hide PairSyntax, PairOf;
    if kvs != [] {
      ParsePairsPointwise(kvs[1..]);
      assert kvs == [kvs[0]] + kvs[1..];
    }
  }

  method SysctlsFromPodAnnotation(annotation: string) returns (r: Result)
    ensures r == Parse(annotation)
  {
    hide PairSyntax, PairOf;
    if |annotation| == 0 {
      return Parsed([]);
    }
    var kvs := Split(annotation, ',');
    ParsePairsPointwise(kvs);
    var sysctls: seq<Sysctl> := [];
    for i := 0 to |kvs|
      invariant |sysctls| == i && forall j :: 0 <= j < i ==> PairSyntax(kvs[j]) && sysctls[j] == PairOf(kvs[j])
    {
      if !PairSyntax(kvs[i]) {
        return Malformed;
      }
      sysctls := sysctls + [PairOf(kvs[i])];
    }
    return Parsed(sysctls);
  }

  method PodAnnotationsFromSysctls(sysctls: seq<Sysctl>) returns (s: string)
    ensures s == Print(sysctls)
  {
    if |sysctls| == 0 {
      return "";
    }
    var kvs: seq<string> := [];
    for i := 0 to |sysctls|
      invariant kvs == Texts(sysctls)[..i]
    {
      kvs := kvs + [PairText(sysctls[i])];
    }
    assert kvs == Texts(sysctls);
    return Join(kvs, ',');
  }

  // ---------- round trips ----------

  lemma SplitTexts(annotation: string)
    requires annotation != "" && Parse(annotation).Parsed?
    ensures Texts(Parse(annotation).sysctls) == Split(annotation, ',')
    ensures forall s :: s in Parse(annotation).sysctls ==> Clean(s)
  {
    hide PairSyntax, PairOf, PairText, Clean;
    var kvs, sysctls := Split(annotation, ','), Parse(annotation).sysctls;
    ParsePairsPointwise(kvs);
    SplitPartsAreClean(annotation, ',');
    forall i | 0 <= i < |kvs|
      ensures PairText(sysctls[i]) == kvs[i] && Clean(sysctls[i])
    {
      assert kvs[i] in kvs;
      PairTextOfPair(kvs[i]);
    }
  }

  /** Printing what an annotation parses to gives the annotation back. */
  lemma PrintParse(annotation: string)
    requires Parse(annotation).Parsed?
    ensures Print(Parse(annotation).sysctls) == annotation
  {
    if annotation != "" {
      SplitTexts(annotation);
      JoinSplit(annotation, ',');
    }
  }

  /** Parsing a printed list gives the list back if and only if every name is non-empty and no name
      or value contains a comma or an equals sign. */
  lemma ParsePrint(sysctls: seq<Sysctl>)
    ensures Parse(Print(sysctls)) == Parsed(sysctls) <==> forall s :: s in sysctls ==> Clean(s)
  {
    hide PairSyntax, PairOf;
    if sysctls != [] {
      if Parse(Print(sysctls)) == Parsed(sysctls) {
        PrintedIsNonEmpty(sysctls);
        SplitTexts(Print(sysctls));
      }
      if forall s :: s in sysctls ==> Clean(s) {
        CleanRoundTrip(sysctls);
      }
    }
  }

  lemma PrintedIsNonEmpty(sysctls: seq<Sysctl>)
    requires sysctls != []
    ensures Print(sysctls) != ""
  {
    assert Texts(sysctls)[0] == PairText(sysctls[0]);
    assert |PairText(sysctls[0])| > 0;
  }

  lemma CleanRoundTrip(sysctls: seq<Sysctl>)
    requires sysctls != [] && forall s :: s in sysctls ==> Clean(s)
    ensures Parse(Print(sysctls)) == Parsed(sysctls)
  {
    hide PairSyntax, PairOf, PairText, Clean;
    var kvs := Texts(sysctls);
    forall i | 0 <= i < |kvs|
      ensures PairSyntax(kvs[i]) && PairOf(kvs[i]) == sysctls[i] && ',' !in kvs[i]
    {
      assert sysctls[i] in sysctls;
      PairOfPairText(sysctls[i]);
    }
    SplitJoin(kvs, ',');
    PrintedIsNonEmpty(sysctls);
    ParsePairsPointwise(kvs);
    assert ParsePairs(kvs).sysctls == sysctls;
  }

  // ---------- what a pair says ----------

  /** An annotation parses exactly when it is empty or each of its comma-separated parts is a pair.
      The i-th sysctl then has as its name what stands before the equals sign of the i-th part and as
      its value what stands behind it. */
  lemma ParsedPairs(annotation: string)
    ensures var kvs, r := Split(annotation, ','), Parse(annotation);
            && (annotation == "" ==> r == Parsed([]))
            && (annotation != "" ==>
                  && (r.Parsed? <==> forall i :: 0 <= i < |kvs| ==> PairSyntax(kvs[i]))
                  && (r.Parsed? ==>
                        && |r.sysctls| == |kvs|
                        && forall i :: 0 <= i < |kvs| ==>
                             && kvs[i] == r.sysctls[i].name + "=" + r.sysctls[i].value
                             && '=' !in r.sysctls[i].name && '=' !in r.sysctls[i].value && r.sysctls[i].name != ""))
  {
    hide PairSyntax, PairOf;
    var kvs := Split(annotation, ',');
    ParsePairsPointwise(kvs);
    assert ParsePairs(kvs).Parsed? || ParsePairs(kvs).Malformed?;
    forall i | 0 <= i < |kvs| && PairSyntax(kvs[i])
      ensures var p := PairOf(kvs[i]);
              kvs[i] == p.name + "=" + p.value && '=' !in p.name && '=' !in p.value && p.name != ""
    {
      PairSyntaxIff(kvs[i]);
    }
  }

  /** A part is a pair exactly when it has one equals sign, not at its start. */
  lemma PairSyntaxIff(kv: string)
    ensures PairSyntax(kv) <==> exists k :: 0 < k < |kv| && kv[k] == '=' && '=' !in kv[..k] && '=' !in kv[k + 1..]
    ensures PairSyntax(kv) ==>
            var p := PairOf(kv); kv == p.name + "=" + p.value && '=' !in p.name && '=' !in p.value && p.name != ""
  {
    if PairSyntax(kv) {
      var cs := Split(kv, '=');
      JoinSplit(kv, '=');
      assert cs[1..] == [cs[1]];
      SplitPartsAreClean(kv, '=');
      assert cs[0] in cs && cs[1] in cs;
      assert kv == cs[0] + ['='] + cs[1];
      var k := |cs[0]|;
      assert kv[k] == '=' && kv[..k] == cs[0] && kv[k + 1..] == cs[1];
    }
    if k :| 0 < k < |kv| && kv[k] == '=' && '=' !in kv[..k] && '=' !in kv[k + 1..] {
      assert kv == kv[..k] + ['='] + kv[k + 1..];
      SplitAtSeparator(kv[..k], '=', kv[k + 1..]);
      SplitOne(kv[k + 1..], '=');
    }
  }

  /** A list prints as its pairs, each name before its value, separated by commas. */
  lemma {:induction false} PrintedPairs(sysctls: seq<Sysctl>)
    ensures sysctls == [] ==> Print(sysctls) == ""
    ensures |sysctls| == 1 ==> Print(sysctls) == sysctls[0].name + "=" + sysctls[0].value
    ensures |sysctls| > 1 ==> Print(sysctls) == sysctls[0].name + "=" + sysctls[0].value + "," + Print(sysctls[1..])
  {
    if sysctls != [] {
      assert Texts(sysctls)[1..] == Texts(sysctls[1..]);
    }
  }
}
