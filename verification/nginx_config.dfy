/** `generateNginxConfig` (libs/nginx-utils.ts): the `http` block for all
    active domains, with optional upstream groups of subdomains by parent. */
module NginxConfigGen {
  import opened Wrappers
  import opened Text
  import opened Seqs
  import opened Domains
  import opened NginxGenerate

  /** The optional second argument; an absent object is `NoConfigOptions`. */
  datatype ConfigOptions = ConfigOptions(includeUpstreams: bool, defaultProxyPort: Option<int>)

  const NoConfigOptions := ConfigOptions(false, None)

  /** The fixed lines that open the `http` block. */
  const HttpHeader: seq<string> := [
    "http {",
    "    # Basic Settings",
    "    sendfile on;",
    "    tcp_nopush on;",
    "    tcp_nodelay on;",
    "    keepalive_timeout 65;",
    "    types_hash_max_size 2048;",
    "",
    "    include /etc/nginx/mime.types;",
    "    default_type application/octet-stream;",
    "",
    "    # Logging Settings",
    "    access_log /var/log/nginx/access.log;",
    "    error_log /var/log/nginx/error.log;",
    "",
    "    # Gzip Settings",
    "    gzip on;",
    "    gzip_vary on;",
    "    gzip_proxied any;",
    "    gzip_comp_level 6;",
    "    gzip_types text/plain text/css text/xml text/javascript application/json application/javascript application/xml+rss application/rss+xml application/atom+xml image/svg+xml;",
    ""]

  // ---------------------------------------------------------------------
  // Upstream groups: an insertion-ordered map from parent name to children

  /** One entry of the `upstreamGroups` map. */
  datatype Group = Group(parent: string, members: seq<Domain>)

  /** `rootDomains.find(d => d.id === id)`. */
  function ParentOf(roots: seq<Domain>, id: int): (r: Option<Domain>)
    ensures r.Some? ==> r.value in roots && r.value.id == id
    ensures r.None? ==> forall i :: 0 <= i < |roots| ==> roots[i].id != id
  {
    if roots == [] then None
    else if roots[0].id == id then Some(roots[0])
    else ParentOf(roots[1..], id)
  }

  /** The name of the parent a subdomain is grouped under, if it has one
      among the roots. */
  function ParentName(roots: seq<Domain>, sub: Domain): Option<string> {
    if sub.parentId.None? then None
    else match ParentOf(roots, sub.parentId.value)
      case None => None
      case Some(p) => Some(p.name)
  }

  /** `upstreamGroups.has(name)`, as the position of the entry. */
  function GroupIndex(gs: seq<Group>, name: string): (k: int)
    ensures -1 <= k < |gs|
    ensures k >= 0 ==> gs[k].parent == name
    ensures k < 0 ==> forall i :: 0 <= i < |gs| ==> gs[i].parent != name
  {
    if gs == [] then -1
    else if gs[|gs| - 1].parent == name then |gs| - 1
    else GroupIndex(gs[..|gs| - 1], name)
  }

  /** `set(name, [])` when absent, then `get(name).push(sub)`. */
  function AddMember(gs: seq<Group>, name: string, sub: Domain): seq<Group> {
    var k := GroupIndex(gs, name);
    if k < 0 then gs + [Group(name, [sub])]
    else gs[k := Group(name, gs[k].members + [sub])]
  }

  /** The map after the `forEach` over the subdomains. */
  function GroupsOf(roots: seq<Domain>, subs: seq<Domain>): seq<Group> {
    if subs == [] then []
    else
      var gs := GroupsOf(roots, subs[..|subs| - 1]);
      var last := subs[|subs| - 1];
      match ParentName(roots, last)
      case None => gs
      case Some(n) => AddMember(gs, n, last)
  }

  /** The subdomains grouped under `name`, in their order. */
  function MembersOf(roots: seq<Domain>, subs: seq<Domain>, name: string): seq<Domain> {
    if subs == [] then []
    else
      MembersOf(roots, subs[..|subs| - 1], name)
      + (if ParentName(roots, subs[|subs| - 1]) == Some(name) then [subs[|subs| - 1]] else [])
  }

  function GroupNames(gs: seq<Group>): (ns: seq<string>)
    ensures |ns| == |gs| && forall i :: 0 <= i < |gs| ==> ns[i] == gs[i].parent
  {
    if gs == [] then [] else GroupNames(gs[..|gs| - 1]) + [gs[|gs| - 1].parent]
  }

  /** The subdomains grouped under each name, as a function of the name. */
  function Grouped(roots: seq<Domain>, subs: seq<Domain>): string -> seq<Domain> {
    n => MembersOf(roots, subs, n)
  }

  /** The groups have distinct parents; each holds exactly `m` of its parent;
      and a name has a group exactly when `m` of it is not empty. */
  ghost predicate FaithfulTo(gs: seq<Group>, m: string -> seq<Domain>) {
    && (forall i, j :: 0 <= i < j < |gs| ==> gs[i].parent != gs[j].parent)
    && (forall i :: 0 <= i < |gs| ==> gs[i].members == m(gs[i].parent))
    && (forall n :: n in GroupNames(gs) <==> m(n) != [])
  }

  /** The groups have distinct parents; each holds, in order, exactly the
      subdomains whose parent has that name; and a parent has a group exactly
      when some subdomain is grouped under it. */
  ghost predicate GroupsFaithful(roots: seq<Domain>, subs: seq<Domain>, gs: seq<Group>) {
    FaithfulTo(gs, Grouped(roots, subs))
  }

  /** The map the grouping builds is faithful to the subdomains. */
  lemma {:induction false} GroupsSpec(roots: seq<Domain>, subs: seq<Domain>)
    ensures GroupsFaithful(roots, subs, GroupsOf(roots, subs))
  {
    if subs != [] {
      var init := subs[..|subs| - 1];
      var last := subs[|subs| - 1];
      GroupsSpec(roots, init);
      var g0 := GroupsOf(roots, init);
      var m0 := Grouped(roots, init);
      var m1 := Grouped(roots, subs);
      match ParentName(roots, last)
      case None =>
        assert GroupsOf(roots, subs) == g0;
        assert forall n :: m1(n) == m0(n);
      case Some(n0) =>
        assert forall n :: n != n0 ==> m1(n) == m0(n);
        assert m1(n0) == m0(n0) + [last];
        var k := GroupIndex(g0, n0);
        if k < 0 {
          assert n0 !in GroupNames(g0);
          FaithfulAppend(g0, n0, last, m0, m1);
        } else {
          FaithfulUpdate(g0, k, n0, last, m0, m1);
        }
    }
  }

  /** A member whose name has no group yet opens a group at the end. */
  lemma FaithfulAppend(g0: seq<Group>, n0: string, last: Domain,
                       m0: string -> seq<Domain>, m1: string -> seq<Domain>)
    requires FaithfulTo(g0, m0)
    requires n0 !in GroupNames(g0)
    requires m1(n0) == m0(n0) + [last]
    requires forall n :: n != n0 ==> m1(n) == m0(n)
    ensures FaithfulTo(g0 + [Group(n0, [last])], m1)
  {
    var gs := g0 + [Group(n0, [last])];
    assert m0(n0) == [];
    assert GroupNames(gs) == GroupNames(g0) + [n0];
    forall i, j | 0 <= i < j < |gs|
      ensures gs[i].parent != gs[j].parent
    {
      if j == |g0| {
        assert gs[i].parent == GroupNames(g0)[i];
      }
    }
    forall i | 0 <= i < |gs|
      ensures gs[i].members == m1(gs[i].parent)
    {
      if i < |g0| {
        assert gs[i] == g0[i] && g0[i].parent == GroupNames(g0)[i];
      }
    }
  }

  /** A member whose name has a group joins that group at its end. */
  lemma FaithfulUpdate(g0: seq<Group>, k: nat, n0: string, last: Domain,
                       m0: string -> seq<Domain>, m1: string -> seq<Domain>)
    requires FaithfulTo(g0, m0)
    requires k < |g0| && g0[k].parent == n0
    requires m1(n0) == m0(n0) + [last]
    requires forall n :: n != n0 ==> m1(n) == m0(n)
    ensures FaithfulTo(g0[k := Group(n0, g0[k].members + [last])], m1)
  {
    GroupNamesUpdate(g0, k, Group(n0, g0[k].members + [last]));
  }

  lemma {:induction false} GroupNamesUpdate(gs: seq<Group>, k: nat, g: Group)
    requires k < |gs| && g.parent == gs[k].parent
    ensures GroupNames(gs[k := g]) == GroupNames(gs)
  {
    var a := GroupNames(gs[k := g]);
    var b := GroupNames(gs);
    assert |a| == |b|;
    assert forall i :: 0 <= i < |a| ==> a[i] == b[i];
  }

  // ---------------------------------------------------------------------
  // Rendering

  /** `sub.port || options.defaultProxyPort || 3000`. */
  function MemberPort(sub: Domain, dflt: Option<int>): int {
    NumberOr(sub.port, NumberOr(dflt, 3000))
  }

  function MemberLine(sub: Domain, dflt: Option<int>): string {
    "        server 127.0.0.1:" + IntToString(MemberPort(sub, dflt)) + ";"
  }

  function MemberLines(ms: seq<Domain>, dflt: Option<int>): (lines: seq<string>)
    ensures |lines| == |ms|
  {
    if ms == [] then [] else MemberLines(ms[..|ms| - 1], dflt) + [MemberLine(ms[|ms| - 1], dflt)]
  }

  /** The upstream name: the parent with every `.` turned into `_`. */
  function UpstreamOpen(parent: string): string {
    "    upstream " + ReplaceChar(parent, '.', '_') + "_backend {"
  }

  function GroupLines(g: Group, dflt: Option<int>): seq<string> {
    [UpstreamOpen(g.parent)] + MemberLines(g.members, dflt) + ["    }", ""]
  }

  function UpstreamLines(gs: seq<Group>, dflt: Option<int>): seq<string> {
    if gs == [] then [] else UpstreamLines(gs[..|gs| - 1], dflt) + GroupLines(gs[|gs| - 1], dflt)
  }

  /** `'    ' + block.split('\n').join('\n    ')`. */
  function Indent(block: string): string {
    "    " + Join(Split(block, '\n'), "\n    ")
  }

  /** The options each server block is generated with. */
  function ServerOptions(d: Domain, dflt: Option<int>): BlockOptions {
    BlockOptions(EitherNumber(d.port, dflt), false, None, None, None)
  }

  /** One domain's block, indented into the `http` block. */
  function ServerText(d: Domain, dflt: Option<int>): string {
    Indent(GenerateNginxServerBlock(d, ServerOptions(d, dflt)))
  }

  /** One domain's indented block, as a function of the domain. */
  function ServerTextOf(dflt: Option<int>): Domain -> string {
    d => ServerText(d, dflt)
  }

  /** The indented blocks of the domains, in order. */
  function ServerTexts(ds: seq<Domain>, dflt: Option<int>): seq<string> {
    Map(ds, ServerTextOf(dflt))
  }

  /** Each text followed by an empty line. */
  function ServerSection(ts: seq<string>): seq<string> {
    if ts == [] then [] else ServerSection(ts[..|ts| - 1]) + [ts[|ts| - 1], ""]
  }

  /** The lines `generateNginxConfig` pushes, in order. */
  function ConfigLines(domains: seq<Domain>, o: ConfigOptions): seq<string> {
    var active := Filter(domains, IsActive);
    var roots := Filter(active, IsRoot);
    var subs := Filter(active, IsSub);
    HttpHeader
    + (if o.includeUpstreams then UpstreamLines(GroupsOf(roots, subs), o.defaultProxyPort) else [])
    + ServerSection(ServerTexts(active, o.defaultProxyPort))
    + ["}"]
  }

  /** The grouping `forEach`. */
  method GroupSubdomains(roots: seq<Domain>, subs: seq<Domain>) returns (groups: seq<Group>)
    ensures groups == GroupsOf(roots, subs)
  {
    groups := [];
    for i := 0 to |subs|
      invariant groups == GroupsOf(roots, subs[..i])
    {
      assert subs[..i + 1][..i] == subs[..i];
      match ParentName(roots, subs[i]) {
        case Some(n) => groups := AddMember(groups, n, subs[i]);
        case None =>
      }
    }
    assert subs[..|subs|] == subs;
  }

  /** The upstream `forEach`, appending to `lines`. */
  method PushUpstreams(lines: seq<string>, groups: seq<Group>, dflt: Option<int>) returns (out: seq<string>)
    ensures out == lines + UpstreamLines(groups, dflt)
  {
    out := lines;
    for i := 0 to |groups|
      invariant out == lines + UpstreamLines(groups[..i], dflt)
    {
      var g := groups[i];
      var members := PushMembers([UpstreamOpen(g.parent)], g.members, dflt);
      UpstreamStep(groups, i, dflt);
      AppendAssoc(lines, UpstreamLines(groups[..i], dflt), GroupLines(g, dflt));
      out := out + (members + ["    }", ""]);
    }
    assert groups[..|groups|] == groups;
  }

  /** The inner `forEach` over one group's subdomains. */
  method PushMembers(lines: seq<string>, members: seq<Domain>, dflt: Option<int>) returns (out: seq<string>)
    ensures out == lines + MemberLines(members, dflt)
  {
    out := lines;
    for j := 0 to |members|
      invariant out == lines + MemberLines(members[..j], dflt)
    {
      assert members[..j + 1][..j] == members[..j];
      AppendAssoc(lines, MemberLines(members[..j], dflt), [MemberLine(members[j], dflt)]);
      out := out + [MemberLine(members[j], dflt)];
    }
    assert members[..|members|] == members;
  }

  lemma UpstreamStep(gs: seq<Group>, i: nat, dflt: Option<int>)
    requires i < |gs|
    ensures UpstreamLines(gs[..i + 1], dflt) == UpstreamLines(gs[..i], dflt) + GroupLines(gs[i], dflt)
  {
    assert gs[..i + 1][..i] == gs[..i];
  }

  /** The server-block `forEach`, appending each generated block, indented,
      and an empty line to `lines`. */
  method PushServers(lines: seq<string>, blocks: seq<string>) returns (out: seq<string>)
    ensures out == lines + ServerSection(blocks)
  {
    out := lines;
    for i := 0 to |blocks|
      invariant out == lines + ServerSection(blocks[..i])
    {
      SectionStep(blocks, i);
      AppendAssoc(lines, ServerSection(blocks[..i]), [blocks[i], ""]);
      out := out + [blocks[i], ""];
    }
    assert blocks[..|blocks|] == blocks;
  }

  lemma SectionStep(ts: seq<string>, i: nat)
    requires i < |ts|
    ensures ServerSection(ts[..i + 1]) == ServerSection(ts[..i]) + [ts[i], ""]
  {
    assert ts[..i + 1][..i] == ts[..i];
  }

  /** `generateNginxConfig(domains, options)`. */
  method GenerateNginxConfig(domains: seq<Domain>, o: ConfigOptions) returns (text: string)
    ensures text == Join(ConfigLines(domains, o), "\n")
  {
    var lines := HttpHeader;
    var active := Filter(domains, IsActive);
    var roots := Filter(active, IsRoot);
    var subs := Filter(active, IsSub);
    var ups := if o.includeUpstreams then UpstreamLines(GroupsOf(roots, subs), o.defaultProxyPort) else [];
    if o.includeUpstreams {
      var groups := GroupSubdomains(roots, subs);
      lines := PushUpstreams(lines, groups, o.defaultProxyPort);
    } else {
      assert lines == HttpHeader + ups;
    }
    var blocks := ServerTexts(active, o.defaultProxyPort);
    lines := PushServers(lines, blocks);
    lines := lines + ["}"];
    assert lines == HttpHeader + ups + ServerSection(ServerTexts(active, o.defaultProxyPort)) + ["}"];
    text := Join(lines, "\n");
  }

  /** Inactive domains make no difference: the output is that for the
      active ones alone. */
  lemma ConfigIgnoresInactive(domains: seq<Domain>, o: ConfigOptions)
    ensures ConfigLines(domains, o) == ConfigLines(Filter(domains, IsActive), o)
  {
    FilterIdempotent(domains, IsActive);
  }

  /** The output is wrapped in `http {` and `}`. */
  lemma ConfigFrame(domains: seq<Domain>, o: ConfigOptions)
    ensures var lines := ConfigLines(domains, o);
      |lines| >= 2 && lines[0] == "http {" && lines[|lines| - 1] == "}"
  {
  }

  /** One indented server block per domain, in order, each followed by an
      empty line. */
  lemma {:induction false} ServerSectionSpec(ts: seq<string>)
    ensures |ServerSection(ts)| == 2 * |ts|
    ensures forall i :: 0 <= i < |ts| ==> ServerSection(ts)[2 * i] == ts[i] && ServerSection(ts)[2 * i + 1] == ""
  {
    if ts != [] {
      ServerSectionSpec(ts[..|ts| - 1]);
    }
  }

  /** Each generated server block proxies to the domain's port, else to the
      default proxy port, else to 3000. */
  lemma ServerProxyPort(d: Domain, dflt: Option<int>)
    ensures ProxyPassLine(IntToString(NumberOr(d.port, NumberOr(dflt, 3000))))
      in ServerBlockLines(d, ServerOptions(d, dflt))
  {
    var o := ServerOptions(d, dflt);
    LocationPriority(d, o);
    if !IsSetNumber(d.port) && !IsSetNumber(dflt) {
      DecimalThreeThousand();
    }
  }

  lemma DecimalThreeThousand()
    ensures IntToString(3000) == "3000"
  {
    assert DigitChar(3) == '3' && DigitChar(0) == '0';
    assert NatToString(3) == "3";
    assert NatToString(30) == NatToString(3) + [DigitChar(0)];
    assert NatToString(300) == NatToString(30) + [DigitChar(0)];
    assert NatToString(3000) == NatToString(300) + [DigitChar(0)];
  }

  /** Prefixing every piece with four spaces. */
  function IndentEach(parts: seq<string>): (r: seq<string>)
    ensures |r| == |parts| && forall i :: 0 <= i < |parts| ==> r[i] == "    " + parts[i]
  {
    if parts == [] then [] else ["    " + parts[0]] + IndentEach(parts[1..])
  }

  lemma {:induction false} IndentJoin(parts: seq<string>)
    requires |parts| >= 1
    ensures "    " + Join(parts, "\n    ") == Join(IndentEach(parts), "\n")
  {
    if |parts| > 1 {
      IndentJoin(parts[1..]);
      assert "    " + Join(parts, "\n    ")
        == ("    " + parts[0]) + "\n" + ("    " + Join(parts[1..], "\n    "));
      assert IndentEach(parts)[1..] == IndentEach(parts[1..]);
    }
  }

  /** Every line of an indented block is the block's line with four spaces
      in front. */
  lemma IndentLines(block: string)
    ensures Split(Indent(block), '\n') == IndentEach(Split(block, '\n'))
  {
    var parts := Split(block, '\n');
    IndentJoin(parts);
    SplitJoin(IndentEach(parts), '\n');
  }
}
