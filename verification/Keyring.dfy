/**
 The Docker keyring: credentials indexed by registry location.

 url.Parse, net.SplitHostPort and filepath.Match are parameters; nothing about them is assumed.
 */
module Keyring {
  import opened Options
  import opened Text
  import Collections

  datatype Url = Url(host: string, path: string)

  datatype Library = Library(
    parse: string -> Option<Url>,
    splitHostPort: string -> Option<(string, string)>,
    glob: (string, string) -> Option<bool>)        // None is a malformed pattern

  datatype Entry = Entry(username: string, password: string, email: string, provider: Option<int>)

  datatype Auth =
    | Lazy(provider: int)
    | Direct(username: string, password: string, email: string)

  type Config = map<string, Entry>

  type Creds = map<string, seq<Auth>>

  function AuthOf(e: Entry): Auth {
    if e.provider.Some? then Lazy(e.provider.value) else Direct(e.username, e.password, e.email)
  }

  // The index key for a location, or None when its URL does not parse
  function KeyFor(lib: Library, loc: string): Option<string> {
    var value := if "https://" <= loc || "http://" <= loc then loc else "https://" + loc;
    match lib.parse(value)
    case None => None
    case Some(url) =>
      var path := if "/v2/" <= url.path || "/v1/" <= url.path then url.path[3..] else url.path;
      Some(if |path| > 0 && path != "/" then url.host + path else url.host)
  }

  /** A location means the same with and without the https scheme. */
  lemma SchemeIsOptional(lib: Library, loc: string)
    requires !("https://" <= loc) && !("http://" <= loc)
    ensures KeyFor(lib, "https://" + loc) == KeyFor(lib, loc)
  {
    assert "https://" <= "https://" + loc;
  }

  /** The paths /, /v1/ and /v2/ mean the host, and a path under /v1/ or /v2/ loses that part. */
  lemma VersionPathIsDropped(lib: Library, loc: string, host: string, rest: string, version: string)
    requires version == "/v1" || version == "/v2"
    requires "https://" <= loc && lib.parse(loc) == Some(Url(host, version + "/" + rest))
    ensures KeyFor(lib, loc) == Some(if rest == "" then host else host + "/" + rest)
  {
    var path := version + "/" + rest;
    assert path[..4] == version + "/";
    assert "/v1" + "/" == "/v1/" && "/v2" + "/" == "/v2/";
    var tail := path[3..];
    assert tail == "/" + rest;
    assert tail == "/" <==> rest == "" by { assert |tail| == 1 + |rest|; }
    assert host + tail == host + "/" + rest;
  }

  /** The key, case by case: a missing scheme is https, and a location whose URL does not parse has
      none. */
  lemma KeyIs(lib: Library, loc: string, host: string, path: string)
    ensures "https://" <= loc || "http://" <= loc ==>
              && (lib.parse(loc) == None ==> KeyFor(lib, loc) == None)
              && (lib.parse(loc) == Some(Url(host, path)) && (path == "" || path == "/") ==> KeyFor(lib, loc) == Some(host))
              && (lib.parse(loc) == Some(Url(host, path)) && |path| > 1 && !("/v1/" <= path) && !("/v2/" <= path) ==>
                    KeyFor(lib, loc) == Some(host + path))
    ensures !("https://" <= loc) && !("http://" <= loc) && lib.parse("https://" + loc) == None ==> KeyFor(lib, loc) == None
  {
  }

  // ---------- byte-wise string order ----------

  predicate Less(a: string, b: string) {
    b != [] && (a == [] || a[0] < b[0] || (a[0] == b[0] && Less(a[1..], b[1..])))
  }

  lemma {:induction false} LessIrreflexive(a: string)
    ensures !Less(a, a)
  {
    if a != [] { LessIrreflexive(a[1..]); }
  }

  lemma {:induction false} LessTransitive(a: string, b: string, c: string)
    requires Less(a, b) && Less(b, c)
    ensures Less(a, c)
  {
    if a != [] && a[0] == b[0] == c[0] { LessTransitive(a[1..], b[1..], c[1..]); }
  }

  lemma {:induction false} LessTotal(a: string, b: string)
    ensures a == b || Less(a, b) || Less(b, a)
  {
    if a != [] && b != [] && a[0] == b[0] {
      LessTotal(a[1..], b[1..]);
      assert a == [a[0]] + a[1..] && b == [b[0]] + b[1..];
    }
  }

  lemma {:induction false} PrefixIsLess(a: string, b: string)
    requires a < b
    ensures Less(a, b)
  {
    if a != [] { PrefixIsLess(a[1..], b[1..]); }
  }

  /** One string is less than another if and only if it is a proper prefix of it or has the smaller
      character at the first difference. */
  lemma {:induction false} LessIff(a: string, b: string)
    ensures Less(a, b) <==> a < b || exists i :: SmallerAt(a, b, i)
  {
    if a != [] && b != [] {
      SmallerStep(a, b);
      if a[0] == b[0] {
        LessIff(a[1..], b[1..]);
        assert a == [a[0]] + a[1..] && b == [b[0]] + b[1..];
      }
    }
  }

  // The first difference is at i, and a has the smaller character there.
  ghost predicate SmallerAt(a: string, b: string, i: int) {
    0 <= i < |a| && i < |b| && a[i] < b[i] && forall j :: 0 <= j < i ==> a[j] == b[j]
  }

  lemma SmallerStep(a: string, b: string)
    requires a != [] && b != []
    ensures (exists i :: SmallerAt(a, b, i)) <==> a[0] < b[0] || (a[0] == b[0] && exists i :: SmallerAt(a[1..], b[1..], i))
  {
    if i :| SmallerAt(a, b, i) && i > 0 { assert SmallerAt(a[1..], b[1..], i - 1); }
    if a[0] < b[0] { assert SmallerAt(a, b, 0); }
    if a[0] == b[0] {
      if i :| SmallerAt(a[1..], b[1..], i) { assert SmallerAt(a, b, i + 1); }
    }
  }

  ghost predicate Descending(index: seq<string>) {
    forall i, j :: 0 <= i < j < |index| ==> Less(index[j], index[i])
  }

  function Elements<T>(s: seq<T>): set<T> {
    set x | x in s
  }

  lemma ElementsSnoc<T>(s: seq<T>, x: T)
    ensures Elements(s + [x]) == Elements(s) + {x}
  {
  }

  lemma NonEmptyHasElements<T>(s: seq<T>)
    ensures s == [] <==> Elements(s) == {}
  {
    if s != [] { assert s[0] in Elements(s); }
  }

  // The largest string of a non-empty set
  method Largest(s: set<string>) returns (m: string)
    requires s != {}
    ensures m in s && forall x :: x in s && x != m ==> Less(x, m)
  {
    m := Collections.Any(s);
    var rest := s - {m};
    while rest != {}
      invariant rest <= s && m in s
      invariant forall x :: x in s && x !in rest && x != m ==> Less(x, m)
      decreases rest
    {
      var c := Collections.Any(rest);
      LessTotal(c, m);
      if Less(m, c) {
        forall x | x in s && x !in rest && x != m
          ensures Less(x, c)
        {
          LessTransitive(x, m, c);
        }
        m := c;
      }
      rest := rest - {c};
    }
  }

  // sort.Reverse over the de-duplicated list
  method SortDescending(s: set<string>) returns (index: seq<string>)
    ensures Descending(index) && Elements(index) == s
  {
    index := [];
    var rest := s;
    while rest != {}
      invariant rest <= s && Elements(index) == s - rest
      invariant Descending(index)
      invariant forall x, y :: x in rest && y in index ==> Less(x, y)
      decreases rest
    {
      var m := Largest(rest);
      ElementsSnoc(index, m);
      index := index + [m];
      rest := rest - {m};
    }
  }

  /** A strictly descending list is determined by its elements. */
  lemma {:induction false} DescendingIsUnique(a: seq<string>, b: seq<string>)
    requires Descending(a) && Descending(b) && Elements(a) == Elements(b)
    ensures a == b
  {
    NonEmptyHasElements(a);
    NonEmptyHasElements(b);
    if a != [] {
      HeadsAgree(a, b);
      TailElements(a);
      TailElements(b);
      DescendingIsUnique(a[1..], b[1..]);
    }
  }

  lemma HeadsAgree(a: seq<string>, b: seq<string>)
    requires a != [] && b != [] && Descending(a) && Descending(b) && Elements(a) == Elements(b)
    ensures a[0] == b[0]
  {
    assert a[0] in Elements(a) && b[0] in Elements(b);
    if a[0] != b[0] {
      var i :| 0 <= i < |b| && b[i] == a[0];
      var j :| 0 <= j < |a| && a[j] == b[0];
      LessTransitive(a[0], b[0], a[0]);
      LessIrreflexive(a[0]);
    }
  }

  lemma TailElements(a: seq<string>)
    requires a != [] && Descending(a)
    ensures Elements(a[1..]) == Elements(a) - {a[0]} && Descending(a[1..])
  {
    forall i | 0 < i < |a|
      ensures a[i] != a[0]
    {
      LessIrreflexive(a[0]);
    }
    assert forall i :: 0 <= i < |a[1..]| ==> a[1..][i] == a[i + 1];
    assert a == [a[0]] + a[1..];
  }

  // ---------- adding a configuration ----------

  function CredsAt(creds: Creds, key: string): seq<Auth> {
    if key in creds then creds[key] else []
  }

  function AddEntry(lib: Library, creds: Creds, loc: string, e: Entry): Creds {
    match KeyFor(lib, loc)
    case None => creds
    case Some(key) => creds[key := CredsAt(creds, key) + [AuthOf(e)]]
  }

  // The credentials after the entries of cfg have been visited in the given order
  function AddAll(lib: Library, creds: Creds, cfg: Config, order: seq<string>): Creds
    requires forall i :: 0 <= i < |order| ==> order[i] in cfg
  {
    if order == [] then creds else
    var loc := order[|order| - 1];
    AddEntry(lib, AddAll(lib, creds, cfg, order[..|order| - 1]), loc, cfg[loc])
  }

  // A Go map iteration visits every key once, in any order.
  ghost predicate Visits(order: seq<string>, cfg: Config) {
    && (forall i :: 0 <= i < |order| ==> order[i] in cfg)
    && (forall i, j :: 0 <= i < j < |order| ==> order[i] != order[j])
    && Elements(order) == cfg.Keys
  }

  // Locations among `locs` that put credential a under the key
  ghost function Sources(lib: Library, cfg: Config, locs: set<string>, key: string, a: Auth): set<string> {
    set loc | loc in locs && loc in cfg && KeyFor(lib, loc) == Some(key) && AuthOf(cfg[loc]) == a
  }

  lemma SourcesStep(lib: Library, cfg: Config, locs: set<string>, loc: string, key: string, a: Auth)
    requires loc in cfg && loc !in locs
    ensures |Sources(lib, cfg, locs + {loc}, key, a)| ==
            |Sources(lib, cfg, locs, key, a)| + if KeyFor(lib, loc) == Some(key) && AuthOf(cfg[loc]) == a then 1 else 0
  {
    hide KeyFor, AuthOf;
    if KeyFor(lib, loc) == Some(key) && AuthOf(cfg[loc]) == a {
      assert Sources(lib, cfg, locs + {loc}, key, a) == Sources(lib, cfg, locs, key, a) + {loc};
    } else {
      assert Sources(lib, cfg, locs + {loc}, key, a) == Sources(lib, cfg, locs, key, a);
    }
  }

  /** How often a credential ends up under a key depends only on the configuration, not on the
      order in which its entries are visited. */
  lemma {:induction false} CredentialCount(lib: Library, creds: Creds, cfg: Config, order: seq<string>, key: string, a: Auth)
    requires forall i :: 0 <= i < |order| ==> order[i] in cfg
    requires forall i, j :: 0 <= i < j < |order| ==> order[i] != order[j]
    ensures multiset(CredsAt(AddAll(lib, creds, cfg, order), key))[a] ==
            multiset(CredsAt(creds, key))[a] + |Sources(lib, cfg, Elements(order), key, a)|
  {
    hide KeyFor, AuthOf, AddEntry, CredsAt, Sources;
    if order == [] {
      NoSources(lib, cfg, key, a);
    } else {
      var init, loc := order[..|order| - 1], order[|order| - 1];
      CredentialCount(lib, creds, cfg, init, key, a);
      assert order == init + [loc];
      ElementsSnoc(init, loc);
      SourcesStep(lib, cfg, Elements(init), loc, key, a);
      AddEntryCount(lib, AddAll(lib, creds, cfg, init), loc, cfg[loc], key, a);
    }
  }

  lemma NoSources(lib: Library, cfg: Config, key: string, a: Auth)
    ensures Sources(lib, cfg, Elements([]), key, a) == {}
  {
  }

  lemma AddEntryCount(lib: Library, creds: Creds, loc: string, e: Entry, key: string, a: Auth)
    ensures multiset(CredsAt(AddEntry(lib, creds, loc, e), key))[a] ==
            multiset(CredsAt(creds, key))[a] + if KeyFor(lib, loc) == Some(key) && AuthOf(e) == a then 1 else 0
  {
    hide KeyFor, AuthOf;
  }

  ghost function KeysOf(lib: Library, locs: set<string>): set<string> {
    set loc | loc in locs && KeyFor(lib, loc).Some? :: KeyFor(lib, loc).value
  }

  lemma {:induction false} AddAllKeys(lib: Library, creds: Creds, cfg: Config, order: seq<string>)
    requires forall i :: 0 <= i < |order| ==> order[i] in cfg
    ensures AddAll(lib, creds, cfg, order).Keys == creds.Keys + KeysOf(lib, Elements(order))
  {
    hide KeyFor, AuthOf;
    if order != [] {
      var init, loc := order[..|order| - 1], order[|order| - 1];
      AddAllKeys(lib, creds, cfg, init);
      assert order == init + [loc];
      ElementsSnoc(init, loc);
      KeysOfStep(lib, Elements(init), loc);
    }
  }

  lemma KeysOfStep(lib: Library, locs: set<string>, loc: string)
    ensures KeysOf(lib, locs + {loc}) ==
            KeysOf(lib, locs) + if KeyFor(lib, loc).Some? then {KeyFor(lib, loc).value} else {}
  {
    hide KeyFor;
    var more := KeysOf(lib, locs + {loc});
    forall k | k in KeysOf(lib, locs)
      ensures k in more
    {
      var l :| l in locs && KeyFor(lib, l).Some? && KeyFor(lib, l).value == k;
      assert l in locs + {loc};
    }
    if KeyFor(lib, loc).Some? {
      assert loc in locs + {loc};
    }
  }

  ghost predicate NonEmptyLists(creds: Creds) {
    forall key :: key in creds ==> creds[key] != []
  }

  lemma {:induction false} AddAllNonEmpty(lib: Library, creds: Creds, cfg: Config, order: seq<string>)
    requires NonEmptyLists(creds) && forall i :: 0 <= i < |order| ==> order[i] in cfg
    ensures NonEmptyLists(AddAll(lib, creds, cfg, order))
  {
    hide KeyFor, AuthOf;
    if order != [] {
      AddAllNonEmpty(lib, creds, cfg, order[..|order| - 1]);
    }
  }

  ghost predicate IndexOf(index: seq<string>, creds: Creds) {
    Descending(index) && Elements(index) == creds.Keys
  }

  // Same keys, and under each key the same credentials up to order
  ghost predicate Same(a: Creds, b: Creds) {
    a.Keys == b.Keys && forall key :: multiset(CredsAt(a, key)) == multiset(CredsAt(b, key))
  }

  lemma AddKeepsSame(lib: Library, a: Creds, b: Creds, cfg: Config, o: seq<string>, p: seq<string>)
    requires Same(a, b) && Visits(o, cfg) && Visits(p, cfg)
    ensures Same(AddAll(lib, a, cfg, o), AddAll(lib, b, cfg, p))
  {
    hide AddAll, CredsAt, Sources, KeysOf;
    AddAllKeys(lib, a, cfg, o);
    AddAllKeys(lib, b, cfg, p);
    forall key
      ensures multiset(CredsAt(AddAll(lib, a, cfg, o), key)) == multiset(CredsAt(AddAll(lib, b, cfg, p), key))
    {
      var ma, mb := multiset(CredsAt(AddAll(lib, a, cfg, o), key)), multiset(CredsAt(AddAll(lib, b, cfg, p), key));
      forall x
        ensures ma[x] == mb[x]
      {
        CredentialCount(lib, a, cfg, o, key, x);
        CredentialCount(lib, b, cfg, p, key, x);
      }
    }
  }

  // The credentials after a sequence of Add calls
  ghost function AddEach(lib: Library, cfgs: seq<Config>, orders: seq<seq<string>>): Creds
    requires |orders| == |cfgs| && forall i :: 0 <= i < |cfgs| ==> Visits(orders[i], cfgs[i])
  {
    if cfgs == [] then map[] else
    var n := |cfgs| - 1;
    assert Visits(orders[n], cfgs[n]);
    AddAll(lib, AddEach(lib, cfgs[..n], orders[..n]), cfgs[n], orders[n])
  }

  /** Whatever the iteration orders of the configuration maps, a sequence of Add calls gives the
      same index and, under each key, the same credentials up to order. */
  lemma {:induction false} IterationOrderDoesNotMatter(lib: Library, cfgs: seq<Config>, o: seq<seq<string>>, p: seq<seq<string>>)
    requires |o| == |p| == |cfgs|
    requires forall i :: 0 <= i < |cfgs| ==> Visits(o[i], cfgs[i]) && Visits(p[i], cfgs[i])
    ensures Same(AddEach(lib, cfgs, o), AddEach(lib, cfgs, p))
    ensures forall a, b :: IndexOf(a, AddEach(lib, cfgs, o)) && IndexOf(b, AddEach(lib, cfgs, p)) ==> a == b
  {
    hide AddAll;
    if cfgs != [] {
      var n := |cfgs| - 1;
      IterationOrderDoesNotMatter(lib, cfgs[..n], o[..n], p[..n]);
      AddKeepsSame(lib, AddEach(lib, cfgs[..n], o[..n]), AddEach(lib, cfgs[..n], p[..n]), cfgs[n], o[n], p[n]);
    }
    forall a, b | IndexOf(a, AddEach(lib, cfgs, o)) && IndexOf(b, AddEach(lib, cfgs, p))
      ensures a == b
    {
      DescendingIsUnique(a, b);
    }
  }

  /** Credentials are appended: those that stood under a key stay in front, and those of the later
      visits come after those of the earlier ones. */
  lemma {:induction false} CredentialsAreAppended(lib: Library, creds: Creds, cfg: Config, order: seq<string>, key: string)
    requires forall i :: 0 <= i < |order| ==> order[i] in cfg
    ensures CredsAt(creds, key) <= CredsAt(AddAll(lib, creds, cfg, order), key)
    ensures forall n :: 0 <= n <= |order| ==> CredsAt(AddAll(lib, creds, cfg, order[..n]), key) <= CredsAt(AddAll(lib, creds, cfg, order), key)
  {
    hide KeyFor, AuthOf;
    assert order[..|order|] == order;
    if order != [] {
      var init := order[..|order| - 1];
      CredentialsAreAppended(lib, creds, cfg, init, key);
      forall n | 0 <= n < |order|
        ensures CredsAt(AddAll(lib, creds, cfg, order[..n]), key) <= CredsAt(AddAll(lib, creds, cfg, order), key)
      {
        assert order[..n] == init[..n];
      }
    }
  }

  // ---------- matching ----------

  function HostParts(lib: Library, host: string): (seq<string>, string) {
    match lib.splitHostPort(host)
    case None => (Split(host, '.'), "")
    case Some((name, port)) => (Split(name, '.'), port)
  }

  // The parts are compared in order; the first that errs or differs decides.
  function PartsMatch(lib: Library, globs: seq<string>, targets: seq<string>): Option<bool>
    requires |globs| == |targets|
  {
    if globs == [] then Some(true)
    else if lib.glob(globs[0], targets[0]) == Some(true) then PartsMatch(lib, globs[1..], targets[1..])
    else lib.glob(globs[0], targets[0])
  }

  function UrlsMatch(lib: Library, globUrl: Url, targetUrl: Url): Option<bool> {
    var (globParts, globPort) := HostParts(lib, globUrl.host);
    var (targetParts, targetPort) := HostParts(lib, targetUrl.host);
    if globPort != targetPort || |globParts| != |targetParts| || !(globUrl.path <= targetUrl.path) then Some(false)
    else PartsMatch(lib, globParts, targetParts)
  }

  method UrlsMatchLoop(lib: Library, globUrl: Url, targetUrl: Url) returns (r: Option<bool>)
    ensures r == UrlsMatch(lib, globUrl, targetUrl)
  {
    var (globParts, globPort) := HostParts(lib, globUrl.host);
    var (targetParts, targetPort) := HostParts(lib, targetUrl.host);
    if globPort != targetPort {
      return Some(false);
    }
    if |globParts| != |targetParts| {
      return Some(false);
    }
    if !(globUrl.path <= targetUrl.path) {
      return Some(false);
    }
    for k := 0 to |globParts|
      invariant PartsMatch(lib, globParts, targetParts) == PartsMatch(lib, globParts[k..], targetParts[k..])
    {
      assert globParts[k..][1..] == globParts[k + 1..] && targetParts[k..][1..] == targetParts[k + 1..];
      var matched := lib.glob(globParts[k], targetParts[k]);
      if matched.None? {
        return None;
      }
      if !matched.value {
        return Some(false);
      }
    }
    return Some(true);
  }

  // The name and port of a host, cut at the dots of the name; a host without a port is all name.
  ghost predicate Cut(lib: Library, host: string, parts: seq<string>, port: string) {
    match lib.splitHostPort(host)
    case None => port == "" && parts == Split(host, '.')
    case Some(both) => port == both.1 && parts == Split(both.0, '.')
  }

  /** The parts match if and only if every pattern matches the part at its position. */
  lemma {:induction false} PartsMatchIff(lib: Library, globs: seq<string>, targets: seq<string>)
    requires |globs| == |targets|
    ensures PartsMatch(lib, globs, targets) == Some(true) <==>
            forall k :: 0 <= k < |globs| ==> lib.glob(globs[k], targets[k]) == Some(true)
    ensures PartsMatch(lib, globs, targets) == None <==> exists k :: ErrsAt(lib, globs, targets, k)
  {
    if globs != [] {
      PartsMatchIff(lib, globs[1..], targets[1..]);
      if k :| ErrsAt(lib, globs, targets, k) && k > 0 { assert ErrsAt(lib, globs[1..], targets[1..], k - 1); }
      if lib.glob(globs[0], targets[0]) == Some(true) {
        if k :| ErrsAt(lib, globs[1..], targets[1..], k) { assert ErrsAt(lib, globs, targets, k + 1); }
      } else if lib.glob(globs[0], targets[0]) == None {
        assert ErrsAt(lib, globs, targets, 0);
      }
    }
  }

  // The pattern at k is malformed and every one before it matches.
  ghost predicate ErrsAt(lib: Library, globs: seq<string>, targets: seq<string>, k: int)
    requires |globs| == |targets|
  {
    && 0 <= k < |globs| && lib.glob(globs[k], targets[k]) == None
    && forall j :: 0 <= j < k ==> lib.glob(globs[j], targets[j]) == Some(true)
  }

  /** A pattern URL matches a target URL if and only if the ports are equal, the names have equally
      many parts, every part matches at its position and the path of the pattern is a prefix of the
      target's. It errs if and only if, with the rest in order, a malformed part is met before one
      that differs. */
  lemma UrlsMatchIff(lib: Library, globUrl: Url, targetUrl: Url, globs: seq<string>, globPort: string, targets: seq<string>, targetPort: string)
    requires Cut(lib, globUrl.host, globs, globPort) && Cut(lib, targetUrl.host, targets, targetPort)
    ensures UrlsMatch(lib, globUrl, targetUrl) == Some(true) <==>
            && globPort == targetPort && |globs| == |targets| && globUrl.path <= targetUrl.path
            && forall k :: 0 <= k < |globs| ==> lib.glob(globs[k], targets[k]) == Some(true)
    ensures UrlsMatch(lib, globUrl, targetUrl) == None <==>
            && globPort == targetPort && |globs| == |targets| && globUrl.path <= targetUrl.path
            && exists k :: ErrsAt(lib, globs, targets, k)
  {
    hide PartsMatch;
    if |globs| == |targets| { PartsMatchIff(lib, globs, targets); }
  }

  // Lookup treats an error as no match.
  predicate Matches(lib: Library, key: string, image: string) {
    && lib.parse("https://" + key).Some? && lib.parse("https://" + image).Some?
    && UrlsMatch(lib, lib.parse("https://" + key).value, lib.parse("https://" + image).value) == Some(true)
  }

  /** A key matches an image if and only if both parse as https URLs and those match; a malformed
      pattern matches nothing. */
  lemma MatchesIff(lib: Library, key: string, image: string, k: Url, i: Url)
    ensures lib.parse("https://" + key) == None || lib.parse("https://" + image) == None ==> !Matches(lib, key, image)
    ensures lib.parse("https://" + key) == Some(k) && lib.parse("https://" + image) == Some(i) ==>
              (Matches(lib, key, image) <==> UrlsMatch(lib, k, i) == Some(true))
  {
  }

  /** A pattern that matches a URL matches every URL of the same host whose path extends it. */
  lemma MatchExtends(lib: Library, glob: Url, target: Url, longer: Url)
    requires UrlsMatch(lib, glob, target) == Some(true)
    requires longer.host == target.host && target.path <= longer.path
    ensures UrlsMatch(lib, glob, longer) == Some(true)
  {
    assert glob.path <= longer.path;
  }

  const DEFAULT_HOST := "index.docker.io"

  function IsDefaultRegistryMatch(image: string): bool {
    var i := FirstIndex(image, '/');
    var first := image[..i];
    if first == "" then false
    else if i == |image| then true
    else if first == "docker.io" || first == DEFAULT_HOST then true
    else '.' !in first && ':' !in first
  }

  /** An image without a slash is in the default registry unless it is empty. With one, the part
      before the first slash decides: it is a name of the default registry, or has neither dot nor
      colon. */
  lemma DefaultRegistryIff(image: string, first: string, rest: string)
    requires '/' !in first
    ensures IsDefaultRegistryMatch(first) <==> first != ""
    ensures image == first + "/" + rest ==>
              (IsDefaultRegistryMatch(image) <==>
               first == "docker.io" || first == "index.docker.io" ||
               (first != "" && forall i :: 0 <= i < |first| ==> first[i] != '.' && first[i] != ':'))
  {
    var i := FirstIndex(first, '/');
    assert first[..|first|] == first;
    if image == first + "/" + rest {
      FirstIndexAt(first, '/', rest);
      assert image[..|first|] == first;
    }
  }

  // ---------- lookup ----------

  function Collect(lib: Library, index: seq<string>, creds: Creds, image: string): seq<Auth> {
    if index == [] then [] else
    var n := |index| - 1;
    var rest := Collect(lib, index[..n], creds, image);
    if Matches(lib, index[n], image) then rest + CredsAt(creds, index[n]) else rest
  }

  function Lookup(lib: Library, index: seq<string>, creds: Creds, image: string): (seq<Auth>, bool) {
    var found := Collect(lib, index, creds, image);
    if found != [] then (found, true)
    else if IsDefaultRegistryMatch(image) && DEFAULT_HOST in creds then (creds[DEFAULT_HOST], true)
    else ([], false)
  }

  ghost predicate AnyMatch(lib: Library, creds: Creds, image: string) {
    exists key :: key in creds && Matches(lib, key, image)
  }

  lemma {:induction false} CollectedIsMatched(lib: Library, index: seq<string>, creds: Creds, image: string, a: Auth)
    ensures a in Collect(lib, index, creds, image) <==>
            exists key :: key in index && Matches(lib, key, image) && a in CredsAt(creds, key)
  {
    hide Matches, CredsAt;
    if index != [] {
      var n := |index| - 1;
      CollectedIsMatched(lib, index[..n], creds, image, a);
      assert index == index[..n] + [index[n]];
    }
  }

  /** The default registry is consulted exactly when no key matches, and otherwise the result holds
      exactly the credentials of the matching keys. */
  lemma LookupResult(lib: Library, index: seq<string>, creds: Creds, image: string)
    requires Elements(index) == creds.Keys && NonEmptyLists(creds)
    ensures var (found, ok) := Lookup(lib, index, creds, image);
            if AnyMatch(lib, creds, image) then
              ok && forall a :: a in found <==> exists key :: key in creds && Matches(lib, key, image) && a in creds[key]
            else if IsDefaultRegistryMatch(image) && DEFAULT_HOST in creds then ok && found == creds[DEFAULT_HOST]
            else !ok && found == []
  {
    hide Matches, IsDefaultRegistryMatch;
    var found := Collect(lib, index, creds, image);
    forall a
      ensures a in found <==> exists key :: key in creds && Matches(lib, key, image) && a in creds[key]
    {
      CollectedIsMatched(lib, index, creds, image, a);
      assert forall key :: key in index <==> key in Elements(index);
    }
    if AnyMatch(lib, creds, image) {
      var key :| key in creds && Matches(lib, key, image);
      assert creds[key][0] in found;
    }
    assert found != [] ==> AnyMatch(lib, creds, image) by { NonEmptyHasElements(found); }
  }

  lemma OneEntry(lib: Library, loc: string, e: Entry, key: string)
    requires KeyFor(lib, loc) == Some(key)
    ensures AddAll(lib, map[], map[loc := e], [loc]) == map[key := [AuthOf(e)]]
  {
    hide KeyFor, AuthOf;
    assert [loc][..0] == [];
    assert AddAll(lib, map[], map[loc := e], []) == map[];
    assert CredsAt(map[], key) + [AuthOf(e)] == [AuthOf(e)];
  }

  /** A keyring filled from one entry gives that entry's credentials to the images its key matches:
      its user, password and address, or its provider when it has one. */
  lemma OneEntryLookup(lib: Library, loc: string, e: Entry, key: string, image: string, p: int)
    requires KeyFor(lib, loc) == Some(key)
    ensures var creds := AddAll(lib, map[], map[loc := e], [loc]);
            var (found, ok) := Lookup(lib, [key], creds, image);
            && creds.Keys == {key}
            && (Matches(lib, key, image) && e.provider == None ==> ok && found == [Direct(e.username, e.password, e.email)])
            && (Matches(lib, key, image) && e.provider == Some(p) ==> ok && found == [Lazy(p)])
            && (!Matches(lib, key, image) && !(key == "index.docker.io" && IsDefaultRegistryMatch(image)) ==> !ok && found == [])
  {
    hide KeyFor, Matches, IsDefaultRegistryMatch, AddAll;
    OneEntry(lib, loc, e, key);
    var creds := AddAll(lib, map[], map[loc := e], [loc]);
    assert [key][..0] == [];
    assert Collect(lib, [], creds, image) == [];
    assert [] + creds[key] == [AuthOf(e)];
  }

  /** A key stands before each of its proper prefixes, so the more specific path is tried first. */
  lemma MoreSpecificFirst(index: seq<string>, i: nat, j: nat)
    requires Descending(index) && i < |index| && j < |index| && index[j] < index[i]
    ensures i < j
  {
    PrefixIsLess(index[j], index[i]);
    if j < i {
      LessTransitive(index[j], index[i], index[j]);
    }
    LessIrreflexive(index[i]);
    LessIrreflexive(index[j]);
  }

  lemma {:induction false} CollectConcat(lib: Library, a: seq<string>, b: seq<string>, creds: Creds, image: string)
    ensures Collect(lib, a + b, creds, image) == Collect(lib, a, creds, image) + Collect(lib, b, creds, image)
  {
    hide Matches, CredsAt;
    if b == [] {
      assert a + b == a;
    } else {
      var n := |b| - 1;
      CollectConcat(lib, a, b[..n], creds, image);
      assert (a + b)[..|a| + n] == a + b[..n];
    }
  }

  /** The credentials of a matching key come before those of each of its matching proper prefixes. */
  lemma SpecificCredentialsFirst(lib: Library, index: seq<string>, creds: Creds, image: string, key: string, prefix: string)
    returns (a: seq<Auth>, b: seq<Auth>, c: seq<Auth>)
    requires IndexOf(index, creds) && key in creds && prefix in creds && prefix < key
    requires Matches(lib, key, image) && Matches(lib, prefix, image)
    ensures Collect(lib, index, creds, image) == a + creds[key] + b + creds[prefix] + c
  {
    hide Matches, Collect, Descending;
    assert key in Elements(index) && prefix in Elements(index);
    var i :| 0 <= i < |index| && index[i] == key;
    var j :| 0 <= j < |index| && index[j] == prefix;
    MoreSpecificFirst(index, i, j);
    var before, between, after := index[..i], index[i + 1..j], index[j + 1..];
    a, b, c := Collect(lib, before, creds, image), Collect(lib, between, creds, image), Collect(lib, after, creds, image);
    assert index == before + [key] + between + [prefix] + after;
    CollectConcat(lib, before + [key] + between + [prefix], after, creds, image);
    CollectConcat(lib, before + [key] + between, [prefix], creds, image);
    CollectConcat(lib, before + [key], between, creds, image);
    CollectConcat(lib, before, [key], creds, image);
    CollectOne(lib, key, creds, image);
    CollectOne(lib, prefix, creds, image);
  }

  lemma CollectOne(lib: Library, key: string, creds: Creds, image: string)
    requires Matches(lib, key, image)
    ensures Collect(lib, [key], creds, image) == CredsAt(creds, key)
  {
    hide Matches;
    assert [key][..0] == [];
  }

  lemma {:induction false} CollectKeepsSame(lib: Library, index: seq<string>, a: Creds, b: Creds, image: string)
    requires Same(a, b)
    ensures multiset(Collect(lib, index, a, image)) == multiset(Collect(lib, index, b, image))
  {
    hide Matches, CredsAt;
    if index != [] {
      CollectKeepsSame(lib, index[..|index| - 1], a, b, image);
    }
  }

  lemma SameLookup(lib: Library, index: seq<string>, a: Creds, b: Creds, image: string)
    requires Same(a, b)
    ensures multiset(Lookup(lib, index, a, image).0) == multiset(Lookup(lib, index, b, image).0)
    ensures Lookup(lib, index, a, image).1 == Lookup(lib, index, b, image).1
  {
    CollectKeepsSame(lib, index, a, b, image);
    EmptyAlike(Collect(lib, index, a, image), Collect(lib, index, b, image));
    assert multiset(CredsAt(a, DEFAULT_HOST)) == multiset(CredsAt(b, DEFAULT_HOST));
  }

  /** Lookups are predictable: two keyrings filled by the same Add calls, whatever the iteration
      orders were, find the same credentials, except for the order of those under one key. */
  lemma LookupIsPredictable(lib: Library, cfgs: seq<Config>, o: seq<seq<string>>, p: seq<seq<string>>,
                            i: seq<string>, j: seq<string>, image: string)
    requires |o| == |p| == |cfgs|
    requires forall k :: 0 <= k < |cfgs| ==> Visits(o[k], cfgs[k]) && Visits(p[k], cfgs[k])
    requires IndexOf(i, AddEach(lib, cfgs, o)) && IndexOf(j, AddEach(lib, cfgs, p))
    ensures var (x, okX), (y, okY) := Lookup(lib, i, AddEach(lib, cfgs, o), image), Lookup(lib, j, AddEach(lib, cfgs, p), image);
            multiset(x) == multiset(y) && okX == okY
  {
    hide Lookup, AddEach, Same, IndexOf;
    IterationOrderDoesNotMatter(lib, cfgs, o, p);
    SameLookup(lib, i, AddEach(lib, cfgs, o), AddEach(lib, cfgs, p), image);
  }

  lemma EmptyAlike<T>(s: seq<T>, t: seq<T>)
    requires multiset(s) == multiset(t)
    ensures s == [] <==> t == []
  {
    assert |multiset(s)| == |s| && |multiset(t)| == |t|;
  }

  // ---------- the object ----------

  class BasicDockerKeyring {
    const lib: Library
    var index: seq<string>
    var creds: Creds

    ghost predicate Valid()
      reads this
    {
      IndexOf(index, creds) && NonEmptyLists(creds)
    }

    constructor (lib: Library)
      ensures Valid() && this.lib == lib && creds == map[]
    {
      this.lib := lib;
      index := [];
      creds := map[];
    }

    method AddLocation(loc: string, e: Entry)
      requires Elements(index) == creds.Keys
      modifies this
      ensures Elements(index) == creds.Keys && creds == AddEntry(lib, old(creds), loc, e)
    {
      hide KeyFor, AuthOf;
      var key := KeyFor(lib, loc);
      if key.Some? {
        creds := creds[key.value := CredsAt(creds, key.value) + [AuthOf(e)]];
        ElementsSnoc(index, key.value);
        index := index + [key.value];
      }
    }

    method Add(cfg: Config) returns (ghost order: seq<string>)
      requires Valid()
      modifies this
      ensures Valid()
      ensures Visits(order, cfg) && creds == AddAll(lib, old(creds), cfg, order)
    {
      hide AddEntry;
      order := [];
      var todo := cfg.Keys;
      while todo != {}
        invariant todo <= cfg.Keys && Elements(order) == cfg.Keys - todo
        invariant forall i :: 0 <= i < |order| ==> order[i] in cfg
        invariant forall i, j :: 0 <= i < j < |order| ==> order[i] != order[j]
        invariant creds == AddAll(lib, old(creds), cfg, order)
        invariant Elements(index) == creds.Keys
        decreases todo
      {
        var loc := Collections.Any(todo);
        assert (order + [loc])[..|order|] == order;
        ElementsSnoc(order, loc);
        assert loc !in Elements(order);
        AddLocation(loc, cfg[loc]);
        order := order + [loc];
        todo := todo - {loc};
      }
      AddAllNonEmpty(lib, old(creds), cfg, order);
      index := SortDescending(Elements(index));
    }

    method LookupLoop(image: string) returns (found: seq<Auth>, ok: bool)
      requires Valid()
      ensures (found, ok) == Lookup(lib, index, creds, image)
    {
      hide UrlsMatch, IsDefaultRegistryMatch;
      found := [];
      for i := 0 to |index|
        invariant found == Collect(lib, index[..i], creds, image)
      {
        var k := index[i];
        assert index[..i + 1][..i] == index[..i];
        assert k in Elements(index);
        var matched := false;
        var globUrl := lib.parse("https://" + k);
        var targetUrl := lib.parse("https://" + image);
        if globUrl.Some? && targetUrl.Some? {
          var r := UrlsMatchLoop(lib, globUrl.value, targetUrl.value);
          matched := r == Some(true);
        }
        if !matched {
          continue;
        }
        found := found + creds[k];
      }
      assert index[..|index|] == index;
      if |found| > 0 {
        return found, true;
      }
      if IsDefaultRegistryMatch(image) {
        if DEFAULT_HOST in creds {
          return creds[DEFAULT_HOST], true;
        }
      }
      return [], false;
    }
  }

  // lazyDockerKeyring: a fresh keyring is filled from what the providers give, then asked.
  method LazyLookup(lib: Library, provided: seq<Config>, image: string)
    returns (found: seq<Auth>, ok: bool, ghost orders: seq<seq<string>>)
    ensures |orders| == |provided| && forall i :: 0 <= i < |provided| ==> Visits(orders[i], provided[i])
    ensures forall index :: IndexOf(index, AddEach(lib, provided, orders)) ==>
              (found, ok) == Lookup(lib, index, AddEach(lib, provided, orders), image)
  {
    hide AddAll, Lookup;
    var keyring := new BasicDockerKeyring(lib);
    orders := [];
    for i := 0 to |provided|
      invariant keyring.Valid() && keyring.lib == lib
      invariant |orders| == i && forall j :: 0 <= j < i ==> Visits(orders[j], provided[j])
      invariant keyring.creds == AddEach(lib, provided[..i], orders)
    {
      assert provided[..i + 1][..i] == provided[..i];
      ghost var order := keyring.Add(provided[i]);
      assert (orders + [order])[..i] == orders;
      orders := orders + [order];
    }
    assert provided[..|provided|] == provided;
    found, ok := keyring.LookupLoop(image);
    forall index | IndexOf(index, keyring.creds)
      ensures index == keyring.index
    {
      DescendingIsUnique(index, keyring.index);
    }
  }
}
