/** `extractDomainsFromNginx` and `parseNginxConfigForDomains` of
    libs/nginx-parser.ts: one fact (name, port, TLS flag, upstream, root)
    per usable server name. The two regular expressions it uses are written
    out as scanning functions. */
module NginxExtract {
  import opened Wrappers
  import opened Text
  import opened Seqs
  import opened NginxModel
  import opened NginxGrammar
  import NginxParser

  /** One extracted domain. */
  datatype Fact = Fact(name: string, port: nat, ssl: bool, upstream: Option<string>, root: Option<Value>)

  /** `listen.includes(sub)`: a substring test on a string, an element test
      on an array. */
  predicate Includes(v: Value, sub: string) {
    match v
    case Scalar(s) => Contains(s, sub)
    case List(xs) => sub in xs
  }

  /** A `listen` that marks TLS. */
  predicate IsTls(l: Value) {
    Includes(l, "443") || Includes(l, "ssl")
  }

  // ---- The regular expression /:(\d+)/ ----

  predicate ColonDigitAt(s: string, j: nat) {
    j + 1 < |s| && s[j] == ':' && IsDigit(s[j + 1])
  }

  /** The longest prefix of decimal digits. */
  function DigitRun(s: string): (d: string)
    ensures d <= s && AllDigits(d)
    ensures |d| == |s| || !IsDigit(s[|d|])
  {
    if s != [] && IsDigit(s[0]) then [s[0]] + DigitRun(s[1..]) else ""
  }

  /** The leftmost index at or after `i` where `:` is followed by a digit,
      or -1. */
  function FirstColonDigit(s: string, i: nat): (k: int)
    requires i <= |s|
    ensures k == -1 || (i <= k && ColonDigitAt(s, k))
    ensures forall j :: i <= j < |s| && (k == -1 || j < k) ==> !ColonDigitAt(s, j)
    decreases |s| - i
  {
    if i == |s| then -1 else if ColonDigitAt(s, i) then i else FirstColonDigit(s, i + 1)
  }

  /** `s.match(/:(\d+)/)?.[1]`: the digits after the leftmost `:` that is
      followed by a digit. */
  function ColonDigits(s: string): (r: Option<string>)
    ensures r.None? <==> forall j :: 0 <= j < |s| ==> !ColonDigitAt(s, j)
    ensures r.Some? ==> r.value != "" && AllDigits(r.value)
  {
    var k := FirstColonDigit(s, 0);
    if k < 0 then None else Some(DigitRun(s[k + 1..]))
  }

  // ---- The regular expression /http:\/\/([^\/]+)/ ----

  predicate HttpAt(s: string, j: nat) {
    j + 7 < |s| && s[j..j + 7] == "http://" && s[j + 7] != '/'
  }

  /** The longest prefix free of `/`. */
  function HostRun(s: string): (h: string)
    ensures h <= s && '/' !in h
    ensures |h| == |s| || s[|h|] == '/'
  {
    if s != [] && s[0] != '/' then [s[0]] + HostRun(s[1..]) else ""
  }

  function FirstHttp(s: string, i: nat): (k: int)
    requires i <= |s|
    ensures k == -1 || (i <= k && HttpAt(s, k))
    ensures forall j :: i <= j < |s| && (k == -1 || j < k) ==> !HttpAt(s, j)
    decreases |s| - i
  {
    if i == |s| then -1 else if HttpAt(s, i) then i else FirstHttp(s, i + 1)
  }

  /** `s.match(/http:\/\/([^\/]+)/)?.[1]`: what follows the leftmost
      `http://` that is not directly followed by `/`, up to the next `/`. */
  function HttpHost(s: string): (r: Option<string>)
    ensures r.None? <==> forall j :: 0 <= j < |s| ==> !HttpAt(s, j)
    ensures r.Some? ==> r.value != "" && '/' !in r.value && Contains(s, "http://" + r.value)
  {
    var k := FirstHttp(s, 0);
    if k < 0 then None
    else
      var h := HostRun(s[k + 7..]);
      assert OccursAt(s, "http://" + h, k) by {
        assert s[k..k + 7 + |h|] == s[k..k + 7] + s[k + 7..][..|h|];
      }
      ContainsIff(s, "http://" + h);
      Some(h)
  }

  // ---- Port and TLS from the `listen` values ----

  /** Where the `listen` loop stands: the port and flag so far, or the
      TypeError thrown by `match` on an array. */
  datatype ListenScan = Scanned(port: nat, ssl: bool) | Throws

  /** One turn of the `listen` loop. */
  function ListenStep(st: ListenScan, l: Value): ListenScan {
    match st
    case Throws => Throws
    case Scanned(port, ssl) =>
      if IsTls(l) then Scanned(443, true)
      else if Includes(l, ":") then
        match l
        case List(_) => Throws
        case Scalar(x) =>
          match ColonDigits(x)
          case Some(d) => Scanned(DigitsValue(d), ssl)
          case None => st
      else st
  }

  function ListenFold(ls: seq<Value>): ListenScan {
    if ls == [] then Scanned(80, false) else ListenStep(ListenFold(ls[..|ls| - 1]), ls[|ls| - 1])
  }

  /** The port one `listen` sets, if any. */
  function ListenPort(l: Value): Option<nat> {
    if IsTls(l) then Some(443)
    else if l.Scalar? && Contains(l.s, ":") && ColonDigits(l.s).Some? then Some(DigitsValue(ColonDigits(l.s).value))
    else None
  }

  /** A `listen` on which `match` is called although it is an array. */
  predicate ListenThrows(l: Value) {
    !IsTls(l) && l.List? && ":" in l.items
  }

  /** The `listen` loop throws exactly when some value does. */
  lemma {:induction false} ListenThrowsSpec(ls: seq<Value>)
    ensures ListenFold(ls).Throws? <==> exists k :: 0 <= k < |ls| && ListenThrows(ls[k])
  {
    if ls != [] {
      var init := ls[..|ls| - 1];
      ListenThrowsSpec(init);
      assert forall k :: 0 <= k < |init| ==> ls[k] == init[k];
      SplitLast(ls);
    }
  }

  /** When it does not throw, TLS is on exactly when some value marks it. */
  lemma {:induction false} ListenSslSpec(ls: seq<Value>)
    ensures ListenFold(ls).Scanned? ==> (ListenFold(ls).ssl <==> exists k :: 0 <= k < |ls| && IsTls(ls[k]))
  {
    if ls != [] {
      var init := ls[..|ls| - 1];
      ListenSslSpec(init);
      assert forall k :: 0 <= k < |init| ==> ls[k] == init[k];
      SplitLast(ls);
    }
  }

  /** When it does not throw, the port is the one set by the last value
      that sets one, or 80 when none does. */
  lemma ListenPortSpec(ls: seq<Value>)
    ensures ListenFold(ls).Scanned? && (forall k :: 0 <= k < |ls| ==> ListenPort(ls[k]).None?) ==>
      ListenFold(ls).port == 80
    ensures ListenFold(ls).Scanned? ==>
      forall k ::
        (0 <= k < |ls| && ListenPort(ls[k]).Some? && forall j :: k < j < |ls| ==> ListenPort(ls[j]).None?) ==>
          ListenFold(ls).port == ListenPort(ls[k]).value
  {
    ListenPortDefault(ls);
    ListenPortLast(ls);
  }

  lemma {:induction false} ListenPortDefault(ls: seq<Value>)
    ensures ListenFold(ls).Scanned? && (forall k :: 0 <= k < |ls| ==> ListenPort(ls[k]).None?) ==>
      ListenFold(ls).port == 80
  {
    if ls != [] && ListenFold(ls).Scanned? && (forall k :: 0 <= k < |ls| ==> ListenPort(ls[k]).None?) {
      var init := ls[..|ls| - 1];
      ListenPortDefault(init);
      assert forall k :: 0 <= k < |init| ==> ls[k] == init[k];
      assert ListenFold(ls).port == ListenFold(init).port;
    }
  }

  lemma {:induction false} ListenPortLast(ls: seq<Value>)
    ensures ListenFold(ls).Scanned? ==>
      forall k ::
        (0 <= k < |ls| && ListenPort(ls[k]).Some? && forall j :: k < j < |ls| ==> ListenPort(ls[j]).None?) ==>
          ListenFold(ls).port == ListenPort(ls[k]).value
  {
    if ls != [] && ListenFold(ls).Scanned? {
      var init := ls[..|ls| - 1];
      var l := ls[|ls| - 1];
      ListenPortLast(init);
      assert forall k :: 0 <= k < |init| ==> ls[k] == init[k];
      var st := ListenFold(init);
      assert st.Scanned?;
      if ListenPort(l).Some? {
        assert ListenFold(ls).port == ListenPort(l).value;
      } else {
        assert ListenFold(ls).port == st.port;
      }
    }
  }

  // ---- The upstream from `proxy_pass` ----

  /** Index of the first directive called `name`, or -1 (`find`). */
  function FirstNamed(ds: seq<Directive>, name: string): (k: int)
    ensures -1 <= k < |ds|
    ensures k >= 0 ==> ds[k].name == name
    ensures forall j :: 0 <= j < |ds| && (k == -1 || j < k) ==> ds[j].name != name
  {
    if ds == [] then -1
    else if ds[0].name == name then 0
    else
      var k := FirstNamed(ds[1..], name);
      if k < 0 then -1 else k + 1
  }

  /** What one location contributes: the host of its first `proxy_pass`,
      when that value is a string that matches. */
  function LocationUpstream(loc: Location): Option<string> {
    var k := FirstNamed(loc.directives, "proxy_pass");
    if k >= 0 && loc.directives[k].value.Scalar? then HttpHost(loc.directives[k].value.s) else None
  }

  /** The last value `f` gives on an element of `xs`, or None when it gives
      none: a loop that overwrites a variable whenever the element at hand
      gives a value. */
  function LastGiven<T, U>(xs: seq<T>, f: T -> Option<U>): Option<U> {
    if xs == [] then None
    else
      var u := f(xs[|xs| - 1]);
      if u.Some? then u else LastGiven(xs[..|xs| - 1], f)
  }

  /** `f` gives a value on `xs[k]` and on no later element. */
  predicate LastGiving<T, U>(xs: seq<T>, f: T -> Option<U>, k: int) {
    0 <= k < |xs| && f(xs[k]).Some? && forall j :: k < j < |xs| ==> f(xs[j]).None?
  }

  lemma {:induction false} LastGivenSpec<T, U>(xs: seq<T>, f: T -> Option<U>)
    ensures LastGiven(xs, f).None? <==> forall k :: 0 <= k < |xs| ==> f(xs[k]).None?
    ensures forall k :: LastGiving(xs, f, k) ==> LastGiven(xs, f) == f(xs[k])
  {
    if xs != [] {
      var init := xs[..|xs| - 1];
      LastGivenSpec(init, f);
      assert forall k :: 0 <= k < |init| ==> xs[k] == init[k];
      forall k | LastGiving(xs, f, k)
        ensures LastGiven(xs, f) == f(xs[k])
      {
        if k < |init| {
          assert LastGiving(init, f, k);
        }
      }
    }
  }

  function UpstreamOf(): Location -> Option<string> {
    loc => LocationUpstream(loc)
  }

  /** The `upstream` after the location loop has seen `locs`. */
  function ProxyUpstream(locs: seq<Location>): Option<string> {
    LastGiven(locs, UpstreamOf())
  }

  /** `locs[k]` contributes an upstream and no later location does. */
  predicate LastContributing(locs: seq<Location>, k: int) {
    0 <= k < |locs| && LocationUpstream(locs[k]).Some? && forall j :: k < j < |locs| ==> LocationUpstream(locs[j]).None?
  }

  /** No location contributing gives no upstream; otherwise the last
      location that contributes wins. */
  lemma ProxyUpstreamSpec(locs: seq<Location>)
    ensures ProxyUpstream(locs).None? <==> forall k :: 0 <= k < |locs| ==> LocationUpstream(locs[k]).None?
    ensures forall k :: LastContributing(locs, k) ==> ProxyUpstream(locs) == LocationUpstream(locs[k])
  {
    LastGivenSpec(locs, UpstreamOf());
    forall k | LastContributing(locs, k)
      ensures ProxyUpstream(locs) == LocationUpstream(locs[k])
    {
      assert LastGiving(locs, UpstreamOf(), k);
    }
  }

  // ---- The facts ----

  /** Server names the extractor keeps: not `_` and without `*`. */
  predicate IsKeptName(n: string) {
    n != "_" && !Contains(n, "*")
  }

  /** The fact for one kept name of a server, or nothing when the `listen`
      loop throws. */
  function FactFor(s: ServerBlock, name: string): Option<Fact> {
    match ListenFold(s.listen)
    case Throws => None
    case Scanned(port, ssl) => Some(Fact(name, port, ssl, ProxyUpstream(s.locations), s.root))
  }

  /** The facts the inner loop has produced after seeing `names`. */
  function NamesFacts(s: ServerBlock, names: seq<string>): Option<seq<Fact>> {
    if names == [] then Some([])
    else
      match NamesFacts(s, names[..|names| - 1])
      case None => None
      case Some(fs) =>
        var n := names[|names| - 1];
        if !IsKeptName(n) then Some(fs)
        else
          match FactFor(s, n)
          case None => None
          case Some(f) => Some(fs + [f])
  }

  function ServerFacts(s: ServerBlock): Option<seq<Fact>> {
    NamesFacts(s, s.serverName)
  }

  /** The facts after the outer loop has seen `servers`; nothing when it
      throws. */
  function ExtractFold(servers: seq<ServerBlock>): Option<seq<Fact>> {
    if servers == [] then Some([])
    else
      match ExtractFold(servers[..|servers| - 1])
      case None => None
      case Some(fs) =>
        match ServerFacts(servers[|servers| - 1])
        case None => None
        case Some(gs) => Some(fs + gs)
  }

  /** `extractDomainsFromNginx(config)`. */
  function Extract(cfg: Config): Option<seq<Fact>> {
    ExtractFold(cfg.servers)
  }

  /** A server gives one fact per kept name, in order, each with the
      server's port, TLS flag, upstream and root; it throws exactly when it
      has a kept name and its `listen` loop throws. */
  lemma NamesFactsSpec(s: ServerBlock, names: seq<string>)
    ensures var kept := Filter(names, IsKeptName);
      NamesFacts(s, names).None? <==> kept != [] && ListenFold(s.listen).Throws?
    ensures var kept := Filter(names, IsKeptName);
      var st := ListenFold(s.listen);
      NamesFacts(s, names).Some? ==>
        var fs := NamesFacts(s, names).value;
        && |fs| == |kept|
        && forall k :: 0 <= k < |fs| ==>
             fs[k] == Fact(kept[k], st.port, st.ssl, ProxyUpstream(s.locations), s.root)
  {
    NamesFactsFail(s, names);
    NamesFactsValues(s, names);
  }

  lemma {:induction false} NamesFactsFail(s: ServerBlock, names: seq<string>)
    ensures NamesFacts(s, names).None? <==> Filter(names, IsKeptName) != [] && ListenFold(s.listen).Throws?
  {
    if names != [] {
      SplitLast(names);
      var init := names[..|names| - 1];
      var n := names[|names| - 1];
      NamesFactsFail(s, init);
      FilterSnoc(init, n, IsKeptName);
    }
  }

  /** `fs` holds one fact per name of `kept`, each with the server's port,
      ssl flag, upstream and root. */
  predicate FactsMatch(s: ServerBlock, fs: seq<Fact>, kept: seq<string>) {
    var st := ListenFold(s.listen);
    && |fs| == |kept|
    && forall k :: 0 <= k < |fs| ==>
         st.Scanned? && fs[k] == Fact(kept[k], st.port, st.ssl, ProxyUpstream(s.locations), s.root)
  }

  lemma FactsMatchSnoc(s: ServerBlock, fs: seq<Fact>, kept: seq<string>, n: string)
    requires FactsMatch(s, fs, kept)
    requires FactFor(s, n).Some?
    ensures FactsMatch(s, fs + [FactFor(s, n).value], kept + [n])
  {
    var fs' := fs + [FactFor(s, n).value];
    assert forall k :: 0 <= k < |fs| ==> fs'[k] == fs[k];
  }

  lemma {:induction false} NamesFactsValues(s: ServerBlock, names: seq<string>)
    ensures NamesFacts(s, names).Some? ==>
      FactsMatch(s, NamesFacts(s, names).value, Filter(names, IsKeptName))
  {
    if names != [] && NamesFacts(s, names).Some? {
      SplitLast(names);
      var init := names[..|names| - 1];
      var n := names[|names| - 1];
      NamesFactsValues(s, init);
      FilterSnoc(init, n, IsKeptName);
      var fs0 := NamesFacts(s, init).value;
      var fs := NamesFacts(s, names).value;
      if IsKeptName(n) {
        assert fs == fs0 + [FactFor(s, n).value];
        assert Filter(names, IsKeptName) == Filter(init, IsKeptName) + [n];
        FactsMatchSnoc(s, fs0, Filter(init, IsKeptName), n);
      } else {
        assert fs == fs0;
        assert Filter(names, IsKeptName) == Filter(init, IsKeptName);
      }
    }
  }

  /** All kept names of the servers, server by server. */
  function KeptNames(servers: seq<ServerBlock>): seq<string> {
    if servers == [] then []
    else KeptNames(servers[..|servers| - 1]) + Filter(servers[|servers| - 1].serverName, IsKeptName)
  }

  function FactNames(fs: seq<Fact>): (ns: seq<string>)
    ensures |ns| == |fs| && forall k :: 0 <= k < |fs| ==> ns[k] == fs[k].name
  {
    if fs == [] then [] else [fs[0].name] + FactNames(fs[1..])
  }

  lemma {:induction false} FactNamesAppend(a: seq<Fact>, b: seq<Fact>)
    ensures FactNames(a + b) == FactNames(a) + FactNames(b)
  {
    assert FactNames(a + b) == FactNames(a) + FactNames(b);
  }

  /** Extraction emits one fact per kept name, in server-then-name order,
      and fails exactly when some server has a kept name and a `listen` on
      which `match` throws. */
  lemma ExtractSpec(servers: seq<ServerBlock>)
    ensures ExtractFold(servers).None? <==>
      exists i :: 0 <= i < |servers| && ServerFacts(servers[i]).None?
    ensures ExtractFold(servers).Some? ==> FactNames(ExtractFold(servers).value) == KeptNames(servers)
  {
    ExtractFails(servers);
    ExtractNames(servers);
  }

  lemma {:induction false} ExtractFails(servers: seq<ServerBlock>)
    ensures ExtractFold(servers).None? <==>
      exists i :: 0 <= i < |servers| && ServerFacts(servers[i]).None?
  {
    if servers != [] {
      var init := servers[..|servers| - 1];
      var s := servers[|servers| - 1];
      ExtractFails(init);
      if ExtractFold(servers).None? {
        if ExtractFold(init).None? {
          var i :| 0 <= i < |init| && ServerFacts(init[i]).None?;
          assert servers[i] == init[i];
        } else {
          assert ServerFacts(servers[|servers| - 1]).None?;
        }
      } else {
        forall i | 0 <= i < |servers|
          ensures ServerFacts(servers[i]).Some?
        {
          if i < |init| {
            assert servers[i] == init[i];
          }
        }
      }
    }
  }

  lemma {:induction false} ExtractNames(servers: seq<ServerBlock>)
    ensures ExtractFold(servers).Some? ==> FactNames(ExtractFold(servers).value) == KeptNames(servers)
  {
    if servers != [] && ExtractFold(servers).Some? {
      var init := servers[..|servers| - 1];
      var s := servers[|servers| - 1];
      ExtractNames(init);
      var fs := ExtractFold(init).value;
      var gs := ServerFacts(s).value;
      assert ExtractFold(servers).value == fs + gs;
      FactNamesAppend(fs, gs);
      ServerFactNames(s);
    }
  }

  /** The names of a server's facts are its kept names. */
  lemma ServerFactNames(s: ServerBlock)
    requires ServerFacts(s).Some?
    ensures FactNames(ServerFacts(s).value) == Filter(s.serverName, IsKeptName)
  {
    NamesFactsSpec(s, s.serverName);
  }

  /** The `listen` loop for one name. */
  method ScanListen(listens: seq<Value>) returns (port: nat, ssl: bool, throws: bool)
    ensures if throws then ListenFold(listens).Throws? else ListenFold(listens) == Scanned(port, ssl)
  {
    port, ssl, throws := 80, false, false;
    for i := 0 to |listens|
      invariant ListenFold(listens[..i]) == Scanned(port, ssl)
    {
      var listen := listens[i];
      assert listens[..i + 1][..i] == listens[..i];
      if Includes(listen, "443") || Includes(listen, "ssl") {
        port := 443;
        ssl := true;
      } else if Includes(listen, ":") {
        if listen.List? {
          throws := true;
          ThrowsStays(listens, i + 1);
          return;
        }
        var m := ColonDigits(listen.s);
        if m.Some? {
          port := DigitsValue(m.value);
        }
      }
    }
    assert listens[..|listens|] == listens;
  }

  /** Once the `listen` loop has thrown, later values change nothing. */
  lemma {:induction false} ThrowsStays(ls: seq<Value>, i: nat)
    requires i <= |ls| && ListenFold(ls[..i]).Throws?
    ensures ListenFold(ls).Throws?
    decreases |ls| - i
  {
    if i < |ls| {
      assert ls[..i + 1][..i] == ls[..i];
      ThrowsStays(ls, i + 1);
    } else {
      assert ls[..i] == ls;
    }
  }

  /** The location loop for one name. */
  method FindUpstream(locations: seq<Location>) returns (upstream: Option<string>)
    ensures upstream == ProxyUpstream(locations)
  {
    upstream := None;
    for i := 0 to |locations|
      invariant upstream == ProxyUpstream(locations[..i])
    {
      var location := locations[i];
      assert locations[..i + 1][..i] == locations[..i];
      var k := FirstNamed(location.directives, "proxy_pass");
      if k >= 0 && location.directives[k].value.Scalar? {
        var m := HttpHost(location.directives[k].value.s);
        if m.Some? {
          upstream := m;
        }
      }
    }
    assert locations[..|locations|] == locations;
  }

  /** `extractDomainsFromNginx`; `None` when it throws. */
  method ExtractDomainsFromNginx(config: Config) returns (r: Option<seq<Fact>>)
    ensures r == Extract(config)
  {
    var domains: seq<Fact> := [];
    var servers := config.servers;
    for i := 0 to |servers|
      invariant ExtractFold(servers[..i]) == Some(domains)
    {
      var server := servers[i];
      assert servers[..i + 1][..i] == servers[..i];
      var facts, throws := ServerDomains(server);
      if throws {
        ServerThrowMakesExtractThrow(servers, i);
        return None;
      }
      domains := domains + facts;
    }
    assert servers[..|servers|] == servers;
    r := Some(domains);
  }

  /** The inner loop of `extractDomainsFromNginx`, over the names of one
      server; `throws` when the `listen` loop throws for a kept name. */
  method ServerDomains(server: ServerBlock) returns (facts: seq<Fact>, throws: bool)
    ensures throws <==> ServerFacts(server).None?
    ensures !throws ==> ServerFacts(server) == Some(facts)
  {
    facts := [];
    var names := server.serverName;
    for j := 0 to |names|
      invariant NamesFacts(server, names[..j]) == Some(facts)
    {
      var serverName := names[j];
      assert names[..j + 1][..j] == names[..j];
      if serverName == "_" || Contains(serverName, "*") {
        continue;
      }
      var port, ssl, t := ScanListen(server.listen);
      if t {
        NamesThrow(server, j);
        return facts, true;
      }
      var upstream := FindUpstream(server.locations);
      facts := facts + [Fact(serverName, port, ssl, upstream, server.root)];
    }
    assert names[..|names|] == names;
    throws := false;
  }

  /** A kept name on a server whose `listen` loop throws makes the server
      throw. */
  lemma NamesThrow(s: ServerBlock, j: nat)
    requires j < |s.serverName|
    requires IsKeptName(s.serverName[j]) && ListenFold(s.listen).Throws?
    ensures ServerFacts(s).None?
  {
    assert s.serverName[j] in Filter(s.serverName, IsKeptName);
    NamesFactsSpec(s, s.serverName);
  }

  /** A server that throws makes the whole extraction throw. */
  lemma ServerThrowMakesExtractThrow(servers: seq<ServerBlock>, i: nat)
    requires i < |servers| && ServerFacts(servers[i]).None?
    ensures ExtractFold(servers).None?
  {
    ExtractSpec(servers);
  }

  /** What `parseNginxConfigForDomains` ends in: the facts, a parse that
      never returns, or the TypeError of the extractor. */
  datatype DomainsOutcome = Domains(facts: seq<Fact>) | ParseDiverges(at: nat) | ExtractThrows

  function ForDomains(content: string): DomainsOutcome {
    match ParseConfig(content)
    case Diverges(a) => ParseDiverges(a)
    case Parsed(cfg) =>
      match Extract(cfg)
      case None => ExtractThrows
      case Some(fs) => Domains(fs)
  }

  /** `parseNginxConfigForDomains`. */
  method ParseNginxConfigForDomains(content: string) returns (r: DomainsOutcome)
    ensures r == ForDomains(content)
  {
    var out := NginxParser.ParseNginxConfig(content);
    match out
    case Diverges(a) =>
      r := ParseDiverges(a);
    case Parsed(cfg) =>
      var facts := ExtractDomainsFromNginx(cfg);
      r := if facts.None? then ExtractThrows else Domains(facts.value);
  }
}
