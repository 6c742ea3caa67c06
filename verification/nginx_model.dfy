/** The records of libs/nginx-parser.ts (`NginxDirective`, `NginxLocation`,
    `NginxServerBlock`, `NginxUpstream`, `NginxConfig`) and, as functions,
    what `parseServerBlock`, `parseUpstreamBlock`, `parseHttpBlock` and the
    body of the `parse` loop make of a directive list. */
module NginxModel {
  import opened Wrappers
  import opened Text
  import opened Seqs

  /** A directive's value at run time (`string | string[]`): a string when
      exactly one token was read, otherwise an array. Where the source casts
      it `as string` the cast checks nothing, so the record keeps a Value. */
  datatype Value = Scalar(s: string) | List(items: seq<string>)

  /** `block` is present for brace-delimited directives, even when empty. */
  datatype Directive = Directive(name: string, value: Value, block: Option<seq<Directive>>)

  datatype Location = Location(path: Value, directives: seq<Directive>)

  datatype ServerBlock = ServerBlock(
    serverName: seq<string>,
    listen: seq<Value>,
    root: Option<Value>,
    locations: seq<Location>,
    sslCertificate: Option<Value>,
    sslCertificateKey: Option<Value>,
    directives: seq<Directive>)

  datatype Upstream = Upstream(name: Value, servers: seq<Value>, directives: seq<Directive>)

  datatype Config = Config(
    servers: seq<ServerBlock>,
    upstreams: seq<Upstream>,
    http: seq<Directive>,
    events: seq<Directive>,
    main: seq<Directive>)

  const EmptyServer := ServerBlock([], [], None, [], None, None, [])
  const EmptyConfig := Config([], [], [], [], [])

  /** The server names a `server_name` value stands for: an array as it is,
      a string split on runs of white space. */
  function ServerNamesOf(v: Value): seq<string> {
    match v
    case List(xs) => xs
    case Scalar(x) => SplitWs(x)
  }

  predicate IsListen(d: Directive) { d.name == "listen" }
  predicate IsBlockLocation(d: Directive) { d.name == "location" && d.block.Some? }
  predicate IsUpstreamServer(d: Directive) { d.name == "server" }
  predicate IsNotUpstreamServer(d: Directive) { d.name != "server" }

  /** The names the server-block `switch` handles itself. */
  predicate IsServerKeyword(name: string) {
    name == "server_name" || name == "listen" || name == "root" || name == "ssl_certificate"
    || name == "ssl_certificate_key" || name == "location"
  }

  predicate IsOtherServerDirective(d: Directive) { !IsServerKeyword(d.name) }

  /** One turn of the `switch` in `parseServerBlock`. */
  function ServerStep(s: ServerBlock, d: Directive): ServerBlock {
    if d.name == "server_name" then s.(serverName := ServerNamesOf(d.value))
    else if d.name == "listen" then s.(listen := s.listen + [d.value])
    else if d.name == "root" then s.(root := Some(d.value))
    else if d.name == "ssl_certificate" then s.(sslCertificate := Some(d.value))
    else if d.name == "ssl_certificate_key" then s.(sslCertificateKey := Some(d.value))
    else if d.name == "location" then
      if d.block.Some? then s.(locations := s.locations + [Location(d.value, d.block.value)]) else s
    else s.(directives := s.directives + [d])
  }

  /** The server record after the `for` loop has seen all of `ds`. */
  function ServerFold(ds: seq<Directive>): ServerBlock {
    if ds == [] then EmptyServer else ServerStep(ServerFold(ds[..|ds| - 1]), ds[|ds| - 1])
  }

  /** `parseServerBlock`: the record, or nothing when it has no server name. */
  function ServerOf(ds: seq<Directive>): Option<ServerBlock> {
    var s := ServerFold(ds);
    if |s.serverName| > 0 then Some(s) else None
  }

  /** Index of the last directive called `name`, or -1. */
  function LastNamed(ds: seq<Directive>, name: string): (k: int)
    ensures -1 <= k < |ds|
    ensures k >= 0 ==> ds[k].name == name
    ensures forall j :: k < j < |ds| ==> ds[j].name != name
  {
    if ds == [] then -1
    else if ds[|ds| - 1].name == name then |ds| - 1
    else LastNamed(ds[..|ds| - 1], name)
  }

  /** The value of the last directive called `name`, if any. */
  function LastValue(ds: seq<Directive>, name: string): Option<Value> {
    var k := LastNamed(ds, name);
    if k < 0 then None else Some(ds[k].value)
  }

  /** How one turn of the `switch` changes each field. */
  lemma ServerStepFields(s: ServerBlock, d: Directive)
    ensures var t := ServerStep(s, d);
      && t.serverName == (if d.name == "server_name" then ServerNamesOf(d.value) else s.serverName)
      && t.root == (if d.name == "root" then Some(d.value) else s.root)
      && t.sslCertificate == (if d.name == "ssl_certificate" then Some(d.value) else s.sslCertificate)
      && t.sslCertificateKey == (if d.name == "ssl_certificate_key" then Some(d.value) else s.sslCertificateKey)
      && t.listen == s.listen + (if IsListen(d) then [d.value] else [])
      && t.locations == s.locations + (if IsBlockLocation(d) then [Location(d.value, d.block.value)] else [])
      && t.directives == s.directives + (if IsOtherServerDirective(d) then [d] else [])
  {
  }

  lemma LastValueStep(ds: seq<Directive>, name: string)
    requires ds != []
    ensures LastValue(ds, name) ==
      if ds[|ds| - 1].name == name then Some(ds[|ds| - 1].value) else LastValue(ds[..|ds| - 1], name)
  {
  }

  /** For `server_name`, `root`, `ssl_certificate` and `ssl_certificate_key` a
      later directive replaces an earlier one. */
  lemma {:induction false} ServerLastWins(ds: seq<Directive>)
    ensures var s := ServerFold(ds);
      && s.serverName == (match LastValue(ds, "server_name") case None => [] case Some(v) => ServerNamesOf(v))
      && s.root == LastValue(ds, "root")
      && s.sslCertificate == LastValue(ds, "ssl_certificate")
      && s.sslCertificateKey == LastValue(ds, "ssl_certificate_key")
  {
    if ds != [] {
      var init := ds[..|ds| - 1];
      ServerLastWins(init);
      ServerStepFields(ServerFold(init), ds[|ds| - 1]);
      LastValueStep(ds, "server_name");
      LastValueStep(ds, "root");
      LastValueStep(ds, "ssl_certificate");
      LastValueStep(ds, "ssl_certificate_key");
    }
  }

  /** The values of a directive list, in order. */
  function ValuesOf(ds: seq<Directive>): (vs: seq<Value>)
    ensures |vs| == |ds|
    ensures forall i :: 0 <= i < |ds| ==> vs[i] == ds[i].value
  {
    if ds == [] then [] else ValuesOf(ds[..|ds| - 1]) + [ds[|ds| - 1].value]
  }

  lemma ValuesOfSnoc(ds: seq<Directive>, d: Directive)
    ensures ValuesOf(ds + [d]) == ValuesOf(ds) + [d.value]
  {
    assert (ds + [d])[..|ds|] == ds;
  }

  /** The location a `location` directive with a block stands for. */
  function LocationOf(d: Directive): Location {
    Location(d.value, d.block.GetOr([]))
  }

  /** The locations of a list of `location` directives, in order. */
  function LocationsOf(ds: seq<Directive>): (ls: seq<Location>)
    ensures |ls| == |ds|
    ensures forall i :: 0 <= i < |ds| ==> ls[i] == LocationOf(ds[i])
  {
    if ds == [] then [] else LocationsOf(ds[..|ds| - 1]) + [LocationOf(ds[|ds| - 1])]
  }

  lemma LocationsOfSnoc(ds: seq<Directive>, d: Directive)
    ensures LocationsOf(ds + [d]) == LocationsOf(ds) + [LocationOf(d)]
  {
    assert (ds + [d])[..|ds|] == ds;
  }

  /** `listen` values are appended in order. */
  lemma {:induction false} ServerListenInOrder(ds: seq<Directive>)
    ensures ServerFold(ds).listen == ValuesOf(Filter(ds, IsListen))
  {
    if ds != [] {
      SplitLast(ds);
      var init := ds[..|ds| - 1];
      var d := ds[|ds| - 1];
      ServerListenInOrder(init);
      ServerStepFields(ServerFold(init), d);
      FilterSnoc(init, d, IsListen);
      ValuesOfSnoc(Filter(init, IsListen), d);
    }
  }

  /** Each `location` with a block becomes a location, in order; one without
      a block is dropped. */
  lemma {:induction false} ServerLocationsInOrder(ds: seq<Directive>)
    ensures ServerFold(ds).locations == LocationsOf(Filter(ds, IsBlockLocation))
  {
    if ds != [] {
      SplitLast(ds);
      var init := ds[..|ds| - 1];
      var d := ds[|ds| - 1];
      ServerLocationsInOrder(init);
      ServerStepFields(ServerFold(init), d);
      FilterSnoc(init, d, IsBlockLocation);
      LocationsOfSnoc(Filter(init, IsBlockLocation), d);
    }
  }

  /** Every directive the `switch` does not know is kept, in order. */
  lemma {:induction false} ServerOthersInOrder(ds: seq<Directive>)
    ensures ServerFold(ds).directives == Filter(ds, IsOtherServerDirective)
  {
    if ds != [] {
      SplitLast(ds);
      var init := ds[..|ds| - 1];
      var d := ds[|ds| - 1];
      ServerOthersInOrder(init);
      ServerStepFields(ServerFold(init), d);
      FilterSnoc(init, d, IsOtherServerDirective);
    }
  }

  /** `parseServerBlock` gives null exactly when no `server_name` was seen or
      the last one names nothing. */
  lemma ServerOfNull(ds: seq<Directive>)
    ensures ServerOf(ds).None? <==>
      (LastNamed(ds, "server_name") < 0 || ServerNamesOf(ds[LastNamed(ds, "server_name")].value) == [])
  {
    ServerLastWins(ds);
  }

  /** One turn of the loop in `parseUpstreamBlock`. */
  function UpstreamStep(u: Upstream, d: Directive): Upstream {
    if d.name == "server" then u.(servers := u.servers + [d.value])
    else u.(directives := u.directives + [d])
  }

  function UpstreamFold(name: Value, ds: seq<Directive>): Upstream {
    if ds == [] then Upstream(name, [], []) else UpstreamStep(UpstreamFold(name, ds[..|ds| - 1]), ds[|ds| - 1])
  }

  /** `parseUpstreamBlock`: the pool, or nothing when it has no server. */
  function UpstreamOf(name: Value, ds: seq<Directive>): Option<Upstream> {
    var u := UpstreamFold(name, ds);
    if |u.servers| > 0 then Some(u) else None
  }

  /** The pool keeps its name, lists the `server` values in order and every
      other directive in order. */
  lemma {:induction false} UpstreamShape(name: Value, ds: seq<Directive>)
    ensures UpstreamFold(name, ds).name == name
    ensures UpstreamFold(name, ds).servers == ValuesOf(Filter(ds, IsUpstreamServer))
    ensures UpstreamFold(name, ds).directives == Filter(ds, IsNotUpstreamServer)
  {
    if ds != [] {
      SplitLast(ds);
      var init := ds[..|ds| - 1];
      var d := ds[|ds| - 1];
      UpstreamShape(name, init);
      FilterSnoc(init, d, IsUpstreamServer);
      FilterSnoc(init, d, IsNotUpstreamServer);
      ValuesOfSnoc(Filter(init, IsUpstreamServer), d);
    }
  }

  /** `parseUpstreamBlock` gives null exactly when there is no `server`. */
  lemma {:induction false} UpstreamOfNull(name: Value, ds: seq<Directive>)
    ensures UpstreamOf(name, ds).None? <==> forall i :: 0 <= i < |ds| ==> ds[i].name != "server"
  {
    if ds != [] {
      var init := ds[..|ds| - 1];
      UpstreamOfNull(name, init);
      if ds[|ds| - 1].name != "server" {
        assert (forall i :: 0 <= i < |ds| ==> ds[i].name != "server")
          <==> (forall i :: 0 <= i < |init| ==> init[i].name != "server");
      }
    }
  }

  /** One turn of `parseHttpBlock`: servers and upstreams nested in `http`. */
  function HttpStep(cfg: Config, d: Directive): Config {
    if d.name == "server" && d.block.Some? then
      match ServerOf(d.block.value)
      case Some(s) => cfg.(servers := cfg.servers + [s])
      case None => cfg
    else if d.name == "upstream" && d.block.Some? then
      match UpstreamOf(d.value, d.block.value)
      case Some(u) => cfg.(upstreams := cfg.upstreams + [u])
      case None => cfg
    else cfg
  }

  function HttpFold(cfg: Config, ds: seq<Directive>): Config {
    if ds == [] then cfg else HttpStep(HttpFold(cfg, ds[..|ds| - 1]), ds[|ds| - 1])
  }

  /** What the `parse` loop does with one top-level directive. */
  function TopStep(cfg: Config, d: Directive): Config {
    if d.name == "http" && d.block.Some? then HttpFold(cfg.(http := d.block.value), d.block.value)
    else if d.name == "events" && d.block.Some? then cfg.(events := d.block.value)
    else if d.name == "server" && d.block.Some? then
      match ServerOf(d.block.value)
      case Some(s) => cfg.(servers := cfg.servers + [s])
      case None => cfg
    else if d.name == "upstream" && d.block.Some? then
      match UpstreamOf(d.value, d.block.value)
      case Some(u) => cfg.(upstreams := cfg.upstreams + [u])
      case None => cfg
    else cfg.(main := cfg.main + [d])
  }

  /** What every configuration the parser builds satisfies: each server has a
      name and each upstream has a server. */
  predicate WellFormed(cfg: Config) {
    && (forall i :: 0 <= i < |cfg.servers| ==> |cfg.servers[i].serverName| > 0)
    && (forall i :: 0 <= i < |cfg.upstreams| ==> |cfg.upstreams[i].servers| > 0)
  }

  lemma {:induction false} HttpFoldWellFormed(cfg: Config, ds: seq<Directive>)
    requires WellFormed(cfg)
    ensures WellFormed(HttpFold(cfg, ds))
  {
    if ds != [] {
      HttpFoldWellFormed(cfg, ds[..|ds| - 1]);
    }
  }

  /** Handling a top-level directive keeps a configuration well formed. */
  lemma TopStepWellFormed(cfg: Config, d: Directive)
    requires WellFormed(cfg)
    ensures WellFormed(TopStep(cfg, d))
  {
    if d.name == "http" && d.block.Some? {
      HttpFoldWellFormed(cfg.(http := d.block.value), d.block.value);
    }
  }
}
