/** `importFromNginx` and `syncCheck` (libs/nginx-integration-example.ts):
    turning the facts read from an nginx configuration into managed-domain
    records, and reconciling a list of managed domains with those facts.
    Both take the configuration text and run the extractor first; the clock
    the import reads is a parameter. */
module NginxSync {
  import opened Wrappers
  import opened Seqs
  import opened Domains
  import opened NginxExtract

  // ---- importFromNginx ----

  /** The `description` of an imported domain. */
  function ImportDescription(upstream: Option<string>): string {
    "Imported from nginx" + (if IsSetText(upstream) then " (proxy to " + upstream.value + ")" else "")
  }

  /** `JSON.stringify` of the three import tags. */
  function ImportTags(ssl: bool, proxied: bool): string {
    "[\"nginx-import\",\"" + (if ssl then "ssl" else "http") + "\",\"" + (if proxied then "proxy" else "static") + "\"]"
  }

  /** One element of the `map`: the record an extracted server becomes. */
  function ImportedDomain(f: Fact, now: string): (d: Domain)
    ensures d.name == f.name && d.port == Some(f.port as int)
    ensures d.id == 0 && d.ipAddress == "127.0.0.1" && d.isActive && d.parentId == None
    ensures d.category == Some(if f.ssl then "HTTPS" else "HTTP")
    ensures d.createdAt == now && d.updatedAt == now
  {
    Domain(
      0, f.name, "127.0.0.1", Some(f.port as int), true,
      Some(ImportDescription(f.upstream)),
      Some(if f.ssl then "HTTPS" else "HTTP"),
      Some(ImportTags(f.ssl, IsSetText(f.upstream))),
      None, now, now)
  }

  /** `nginxDomains.map(...)`: one record per fact, in order. */
  function ImportFacts(facts: seq<Fact>, now: string): (ds: seq<Domain>)
    ensures |ds| == |facts|
    ensures forall i :: 0 <= i < |facts| ==> ds[i] == ImportedDomain(facts[i], now)
  {
    if facts == [] then []
    else ImportFacts(facts[..|facts| - 1], now) + [ImportedDomain(facts[|facts| - 1], now)]
  }

  /** What `importFromNginx` ends in. */
  datatype ImportOutcome = Imported(domains: seq<Domain>) | ImportDiverges(at: nat) | ImportThrows

  /** `importFromNginx(content)` at the instant `now`. */
  function ImportFromNginx(content: string, now: string): (r: ImportOutcome)
    ensures r.Imported? <==> ForDomains(content).Domains?
    ensures r.Imported? ==> |r.domains| == |ForDomains(content).facts|
    ensures r.ImportDiverges? <==> ForDomains(content).ParseDiverges?
  {
    match ForDomains(content)
    case Domains(facts) => Imported(ImportFacts(facts, now))
    case ParseDiverges(a) => ImportDiverges(a)
    case ExtractThrows => ImportThrows
  }

  /** The tags and the description record whether the server was a proxy:
      a truthy upstream gives the `proxy` tag and names it in the
      description; no upstream gives `static` and the bare description. */
  lemma ImportedProxy(f: Fact, now: string)
    ensures var d := ImportedDomain(f, now);
      && (IsSetText(f.upstream) ==>
            d.tags == Some(ImportTags(f.ssl, true))
            && d.description == Some("Imported from nginx (proxy to " + f.upstream.value + ")"))
      && (!IsSetText(f.upstream) ==>
            d.tags == Some(ImportTags(f.ssl, false)) && d.description == Some("Imported from nginx"))
  {
    var d := ImportedDomain(f, now);
    assert d.description == Some(ImportDescription(f.upstream));
    if IsSetText(f.upstream) {
      var u := f.upstream.value;
      assert "Imported from nginx" + " (proxy to " == "Imported from nginx (proxy to ";
      assert ImportDescription(f.upstream) == "Imported from nginx" + (" (proxy to " + u + ")");
      AppendAssoc("Imported from nginx", " (proxy to " + u, ")");
      AppendAssoc("Imported from nginx", " (proxy to ", u);
    } else {
      assert ImportDescription(f.upstream) == "Imported from nginx" + "";
      assert "Imported from nginx" + "" == "Imported from nginx";
    }
  }

  /** The two booleans can be read back from the tag text: the second tag
      decides TLS and the third decides proxying. */
  lemma {:induction false} ImportTagsDecode(ssl: bool, proxied: bool)
    ensures var t := ImportTags(ssl, proxied);
      && t[..16] == "[\"nginx-import\","
      && (ssl <==> t[17] == 's')
      && (proxied <==> t[17 + (if ssl then 3 else 4) + 3] == 'p')
  {
    var t := ImportTags(ssl, proxied);
    var second := if ssl then "ssl" else "http";
    var third := if proxied then "proxy" else "static";
    assert t == "[\"nginx-import\",\"" + second + "\",\"" + third + "\"]";
    assert t[17] == second[0];
    assert t[17 + |second| + 3] == third[0];
  }

  // ---- syncCheck ----

  datatype Mismatch = Mismatch(name: string, managedPort: int, nginxPort: int)

  datatype SyncReport = SyncReport(
    managed: seq<string>,
    nginx: seq<string>,
    missingInNginx: seq<string>,
    missingInManager: seq<string>,
    portMismatches: seq<Mismatch>)

  /** `managedDomains.map(d => d.name)`. */
  function DomainNames(ds: seq<Domain>): (r: seq<string>)
    ensures |r| == |ds| && forall i :: 0 <= i < |ds| ==> r[i] == ds[i].name
  {
    if ds == [] then [] else DomainNames(ds[..|ds| - 1]) + [ds[|ds| - 1].name]
  }

  /** `nginxConfig.find(n => n.name === name)`, as an index or -1. */
  function FactIndex(fs: seq<Fact>, name: string): (k: int)
    ensures -1 <= k < |fs|
    ensures k >= 0 ==> fs[k].name == name
    ensures forall j :: 0 <= j < |fs| && (k < 0 || j < k) ==> fs[j].name != name
  {
    if fs == [] then -1
    else if fs[0].name == name then 0
    else
      var k := FactIndex(fs[1..], name);
      if k < 0 then -1 else k + 1
  }

  /** `managedDomains.find(d => d.name === name)`, as an index or -1. */
  function ManagedIndex(ds: seq<Domain>, name: string): (k: int)
    ensures -1 <= k < |ds|
    ensures k >= 0 ==> ds[k].name == name
    ensures forall j :: 0 <= j < |ds| && (k < 0 || j < k) ==> ds[j].name != name
  {
    if ds == [] then -1
    else if ds[0].name == name then 0
    else
      var k := ManagedIndex(ds[1..], name);
      if k < 0 then -1 else k + 1
  }

  /** `managed.port || 80`. */
  function ManagedPort(d: Domain): int {
    NumberOr(d.port, 80)
  }

  /** `missing_in_nginx` after the first `n` managed domains. */
  function MissingInNginx(managed: seq<Domain>, facts: seq<Fact>, n: nat): seq<string>
    requires n <= |managed|
  {
    if n == 0 then []
    else
      var d := managed[n - 1];
      MissingInNginx(managed, facts, n - 1) + (if FactIndex(facts, d.name) < 0 then [d.name] else [])
  }

  /** `missing_in_manager` after the first `n` facts. */
  function MissingInManager(managed: seq<Domain>, facts: seq<Fact>, n: nat): seq<string>
    requires n <= |facts|
  {
    if n == 0 then []
    else
      var f := facts[n - 1];
      MissingInManager(managed, facts, n - 1) + (if ManagedIndex(managed, f.name) < 0 then [f.name] else [])
  }

  /** What the second loop adds for one fact to `port_mismatches`. */
  function MismatchOf(managed: seq<Domain>, f: Fact): seq<Mismatch> {
    var j := ManagedIndex(managed, f.name);
    if j >= 0 && ManagedPort(managed[j]) != f.port then [Mismatch(f.name, ManagedPort(managed[j]), f.port)] else []
  }

  /** `port_mismatches` after the first `n` facts. */
  function PortMismatches(managed: seq<Domain>, facts: seq<Fact>, n: nat): seq<Mismatch>
    requires n <= |facts|
  {
    if n == 0 then [] else PortMismatches(managed, facts, n - 1) + MismatchOf(managed, facts[n - 1])
  }

  function SyncOf(managed: seq<Domain>, facts: seq<Fact>): SyncReport {
    SyncReport(
      DomainNames(managed), FactNames(facts),
      MissingInNginx(managed, facts, |managed|),
      MissingInManager(managed, facts, |facts|),
      PortMismatches(managed, facts, |facts|))
  }

  /** The comparison `syncCheck` builds once the configuration has been read
      into `facts`: the first loop over the managed domains, then the second
      over the facts. */
  method SyncFacts(managed: seq<Domain>, facts: seq<Fact>) returns (r: SyncReport)
    ensures r == SyncOf(managed, facts)
  {
    var missingInNginx := CheckManaged(managed, facts);
    var missingInManager: seq<string> := [];
    var portMismatches: seq<Mismatch> := [];
    for i := 0 to |facts|
      invariant missingInManager == MissingInManager(managed, facts, i)
      invariant portMismatches == PortMismatches(managed, facts, i)
    {
      var nginx := facts[i];
      var j := ManagedIndex(managed, nginx.name);
      if j < 0 {
        missingInManager := missingInManager + [nginx.name];
      } else if ManagedPort(managed[j]) != nginx.port {
        portMismatches := portMismatches + [Mismatch(nginx.name, ManagedPort(managed[j]), nginx.port)];
      }
    }
    r := SyncReport(DomainNames(managed), FactNames(facts), missingInNginx, missingInManager, portMismatches);
  }

  /** The first loop: the managed domains no fact names. */
  method CheckManaged(managed: seq<Domain>, facts: seq<Fact>) returns (missingInNginx: seq<string>)
    ensures missingInNginx == MissingInNginx(managed, facts, |managed|)
  {
    missingInNginx := [];
    for i := 0 to |managed|
      invariant missingInNginx == MissingInNginx(managed, facts, i)
    {
      var domain := managed[i];
      if FactIndex(facts, domain.name) < 0 {
        missingInNginx := missingInNginx + [domain.name];
      }
    }
  }

  /** What `syncCheck` ends in. */
  datatype SyncOutcome = Synced(report: SyncReport) | SyncDiverges(at: nat) | SyncThrows

  /** `syncCheck(managedDomains, content)`. */
  method SyncCheck(managed: seq<Domain>, content: string) returns (r: SyncOutcome)
    ensures ForDomains(content).Domains? <==> r.Synced?
    ensures r.Synced? ==> r.report == SyncOf(managed, ForDomains(content).facts)
  {
    var parsed := ParseNginxConfigForDomains(content);
    match parsed
    case Domains(facts) =>
      var report := SyncFacts(managed, facts);
      r := Synced(report);
    case ParseDiverges(a) =>
      r := SyncDiverges(a);
    case ExtractThrows =>
      r := SyncThrows;
  }

  /** `missing_in_nginx` is the managed names, in the order of the managed
      list and repeated as often as they occur there, that no fact carries;
      `missing_in_manager` likewise keeps the order and the repetitions of
      the facts. */
  lemma SyncMissingLists(managed: seq<Domain>, facts: seq<Fact>)
    ensures SyncOf(managed, facts).missingInNginx == Filter(DomainNames(managed), AbsentFromFacts(facts))
    ensures SyncOf(managed, facts).missingInManager == Filter(FactNames(facts), AbsentFromManaged(managed))
  {
    MissingInNginxSpec(managed, facts, |managed|);
    MissingInManagerSpec(managed, facts, |facts|);
    assert managed[..|managed|] == managed;
    assert facts[..|facts|] == facts;
  }

  /** The names no fact carries: `!nginxConfig.find(n => n.name === name)`. */
  function AbsentFromFacts(facts: seq<Fact>): string -> bool {
    x => FactIndex(facts, x) < 0
  }

  /** The names no managed domain carries. */
  function AbsentFromManaged(managed: seq<Domain>): string -> bool {
    x => ManagedIndex(managed, x) < 0
  }

  lemma FactNamesPrefix(fs: seq<Fact>, n: nat)
    requires 0 < n <= |fs|
    ensures FactNames(fs[..n]) == FactNames(fs[..n - 1]) + [fs[n - 1].name]
  {
    assert fs[..n] == fs[..n - 1] + [fs[n - 1]];
    FactNamesAppend(fs[..n - 1], [fs[n - 1]]);
    assert FactNames([fs[n - 1]]) == [fs[n - 1].name];
  }

  /** After the first `n` managed domains, `missing_in_nginx` holds exactly
      the names no fact carries, in the order of the managed list, and the
      list is the managed names filtered by that test. */
  lemma MissingInNginxSpec(managed: seq<Domain>, facts: seq<Fact>, n: nat)
    requires n <= |managed|
    ensures forall x :: x in MissingInNginx(managed, facts, n) <==>
      (exists i :: 0 <= i < n && managed[i].name == x) && forall k :: 0 <= k < |facts| ==> facts[k].name != x
    ensures MissingInNginx(managed, facts, n) == Filter(DomainNames(managed[..n]), AbsentFromFacts(facts))
  {
    MissingInNginxMembers(managed, facts, n);
    MissingInNginxOrder(managed, facts, n);
  }

  /** A managed domain's name is reported missing in nginx exactly when no
      fact carries it. */
  lemma {:induction false} MissingInNginxMembers(managed: seq<Domain>, facts: seq<Fact>, n: nat)
    requires n <= |managed|
    ensures forall x :: x in MissingInNginx(managed, facts, n) <==>
      (exists i :: 0 <= i < n && managed[i].name == x) && forall k :: 0 <= k < |facts| ==> facts[k].name != x
  {
    if n > 0 {
      MissingInNginxMembers(managed, facts, n - 1);
      var d := managed[n - 1];
      forall x | (exists i :: 0 <= i < n && managed[i].name == x) && (forall k :: 0 <= k < |facts| ==> facts[k].name != x)
        ensures x in MissingInNginx(managed, facts, n)
      {
        var i :| 0 <= i < n && managed[i].name == x;
        if i == n - 1 {
          assert FactIndex(facts, d.name) < 0;
        }
      }
    }
  }

  /** `missing_in_nginx` is the first `n` managed names, in order and with
      their repetitions, filtered by the absence of a fact with that name. */
  lemma {:induction false} MissingInNginxOrder(managed: seq<Domain>, facts: seq<Fact>, n: nat)
    requires n <= |managed|
    ensures MissingInNginx(managed, facts, n) == Filter(DomainNames(managed[..n]), AbsentFromFacts(facts))
  {
    if n > 0 {
      MissingInNginxOrder(managed, facts, n - 1);
      DomainNamesPrefix(managed, n);
      FilterSnoc(DomainNames(managed[..n - 1]), managed[n - 1].name, AbsentFromFacts(facts));
    }
  }

  lemma DomainNamesPrefix(ds: seq<Domain>, n: nat)
    requires 0 < n <= |ds|
    ensures DomainNames(ds[..n]) == DomainNames(ds[..n - 1]) + [ds[n - 1].name]
  {
    assert ds[..n][..n - 1] == ds[..n - 1];
  }

  /** After the first `n` facts, `missing_in_manager` holds exactly the names
      no managed domain carries, and the list is the fact names filtered by
      that test, in the order of the facts. */
  lemma MissingInManagerSpec(managed: seq<Domain>, facts: seq<Fact>, n: nat)
    requires n <= |facts|
    ensures forall x :: x in MissingInManager(managed, facts, n) <==>
      (exists k :: 0 <= k < n && facts[k].name == x) && forall i :: 0 <= i < |managed| ==> managed[i].name != x
    ensures MissingInManager(managed, facts, n) == Filter(FactNames(facts[..n]), AbsentFromManaged(managed))
  {
    MissingInManagerMembers(managed, facts, n);
    MissingInManagerOrder(managed, facts, n);
  }

  /** A fact's name is reported missing in the manager exactly when no
      managed domain carries it. */
  lemma {:induction false} MissingInManagerMembers(managed: seq<Domain>, facts: seq<Fact>, n: nat)
    requires n <= |facts|
    ensures forall x :: x in MissingInManager(managed, facts, n) <==>
      (exists k :: 0 <= k < n && facts[k].name == x) && forall i :: 0 <= i < |managed| ==> managed[i].name != x
  {
    if n > 0 {
      MissingInManagerMembers(managed, facts, n - 1);
      var f := facts[n - 1];
      forall x | (exists k :: 0 <= k < n && facts[k].name == x) && (forall i :: 0 <= i < |managed| ==> managed[i].name != x)
        ensures x in MissingInManager(managed, facts, n)
      {
        var k :| 0 <= k < n && facts[k].name == x;
        if k == n - 1 {
          assert ManagedIndex(managed, f.name) < 0;
        }
      }
    }
  }

  /** `missing_in_manager` is the first `n` fact names, in order and with
      their repetitions, filtered by the absence of a managed domain with
      that name. */
  lemma {:induction false} MissingInManagerOrder(managed: seq<Domain>, facts: seq<Fact>, n: nat)
    requires n <= |facts|
    ensures MissingInManager(managed, facts, n) == Filter(FactNames(facts[..n]), AbsentFromManaged(managed))
  {
    if n > 0 {
      MissingInManagerOrder(managed, facts, n - 1);
      FactNamesPrefix(facts, n);
      FilterSnoc(FactNames(facts[..n - 1]), facts[n - 1].name, AbsentFromManaged(managed));
    }
  }

  /** A port mismatch is reported for every fact whose first managed domain
      with its name has a port (80 when unset or 0) other than the port nginx
      listens on. */
  lemma {:induction false} PortMismatchesComplete(managed: seq<Domain>, facts: seq<Fact>, n: nat)
    requires n <= |facts|
    ensures forall k :: 0 <= k < n && ManagedIndex(managed, facts[k].name) >= 0 ==>
      var p := ManagedPort(managed[ManagedIndex(managed, facts[k].name)]);
      p != facts[k].port ==> Mismatch(facts[k].name, p, facts[k].port) in PortMismatches(managed, facts, n)
  {
    if n > 0 {
      PortMismatchesComplete(managed, facts, n - 1);
      assert PortMismatches(managed, facts, n)
        == PortMismatches(managed, facts, n - 1) + MismatchOf(managed, facts[n - 1]);
    }
  }

  /** Every reported mismatch comes from a fact and carries the port nginx
      listens on and the differing port of the first managed domain with
      that name. */
  lemma {:induction false} PortMismatchesSound(managed: seq<Domain>, facts: seq<Fact>, n: nat)
    requires n <= |facts|
    ensures forall m :: m in PortMismatches(managed, facts, n) ==>
      && m.managedPort != m.nginxPort
      && (exists k :: 0 <= k < n && facts[k].name == m.name && facts[k].port == m.nginxPort)
      && ManagedIndex(managed, m.name) >= 0
      && ManagedPort(managed[ManagedIndex(managed, m.name)]) == m.managedPort
  {
    if n > 0 {
      PortMismatchesSound(managed, facts, n - 1);
      var add := MismatchOf(managed, facts[n - 1]);
      assert PortMismatches(managed, facts, n) == PortMismatches(managed, facts, n - 1) + add;
      forall m | m in add
        ensures exists k :: 0 <= k < n && facts[k].name == m.name && facts[k].port == m.nginxPort
      {
        assert facts[n - 1].name == m.name;
      }
    }
  }

  /** No name is reported both missing in the manager and with a port
      mismatch. */
  lemma SyncDisjoint(managed: seq<Domain>, facts: seq<Fact>)
    ensures var r := SyncOf(managed, facts);
      forall m :: m in r.portMismatches ==> m.name !in r.missingInManager
  {
    PortMismatchesSound(managed, facts, |facts|);
    MissingInManagerSpec(managed, facts, |facts|);
  }

  /** Importing the facts and checking the imported records against the
      same facts reports nothing, provided facts with equal names agree on
      the port and no port is 0 (which `|| 80` would turn into 80). */
  lemma ImportThenSync(facts: seq<Fact>, now: string)
    requires forall i, j :: 0 <= i < |facts| && 0 <= j < |facts| && facts[i].name == facts[j].name ==> facts[i].port == facts[j].port
    requires forall i :: 0 <= i < |facts| ==> facts[i].port != 0
    ensures var r := SyncOf(ImportFacts(facts, now), facts);
      && r.missingInNginx == [] && r.missingInManager == [] && r.portMismatches == []
      && r.managed == r.nginx
  {
    var managed := ImportFacts(facts, now);
    NoneMissingInNginx(managed, facts, |managed|);
    NoneMissingInManager(managed, facts, |facts|);
    NoMismatches(managed, facts, |facts|);
  }

  lemma {:induction false} NoneMissingInNginx(managed: seq<Domain>, facts: seq<Fact>, n: nat)
    requires n <= |managed| == |facts|
    requires forall i :: 0 <= i < |facts| ==> managed[i].name == facts[i].name
    ensures MissingInNginx(managed, facts, n) == []
  {
    if n > 0 {
      NoneMissingInNginx(managed, facts, n - 1);
      assert facts[n - 1].name == managed[n - 1].name;
    }
  }

  lemma {:induction false} NoneMissingInManager(managed: seq<Domain>, facts: seq<Fact>, n: nat)
    requires n <= |managed| == |facts|
    requires forall i :: 0 <= i < |facts| ==> managed[i].name == facts[i].name
    ensures MissingInManager(managed, facts, n) == []
  {
    if n > 0 {
      NoneMissingInManager(managed, facts, n - 1);
      assert managed[n - 1].name == facts[n - 1].name;
    }
  }

  lemma {:induction false} NoMismatches(managed: seq<Domain>, facts: seq<Fact>, n: nat)
    requires n <= |managed| == |facts|
    requires forall i :: 0 <= i < |facts| ==> managed[i].name == facts[i].name && managed[i].port == Some(facts[i].port as int)
    requires forall i, j :: 0 <= i < |facts| && 0 <= j < |facts| && facts[i].name == facts[j].name ==> facts[i].port == facts[j].port
    requires forall i :: 0 <= i < |facts| ==> facts[i].port != 0
    ensures PortMismatches(managed, facts, n) == []
  {
    if n > 0 {
      NoMismatches(managed, facts, n - 1);
      var f := facts[n - 1];
      assert managed[n - 1].name == f.name;
      var j := ManagedIndex(managed, f.name);
      assert facts[j].name == f.name;
      assert ManagedPort(managed[j]) == f.port;
    }
  }
}
