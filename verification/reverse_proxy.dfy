/** The pure parts of `ReverseProxyService`
    (src/db/services/reverse-proxy.service.ts): the defaults `saveReverseProxy`
    fills in before storing a configuration, and the nginx `location` block
    `generateLocationBlock` renders from a stored configuration. The
    `proxyHeaders` JSON text is taken as already parsed: `None` when it is
    absent or not valid JSON, otherwise its entries in order. */
module ReverseProxy {
  import opened Wrappers
  import opened Text
  import opened Seqs
  import opened Domains

  /** What a caller passes to `saveReverseProxy`; the optional fields may be
      missing. */
  datatype ProxyForm = ProxyForm(
    domainId: int,
    proxyPass: string,
    proxyHost: Option<string>,
    proxyHeaders: Option<seq<(string, string)>>,
    websocketSupport: Option<bool>,
    cacheEnabled: Option<bool>,
    customConfig: Option<string>,
    isActive: Option<bool>)

  /** A stored reverse-proxy configuration. */
  datatype ProxyConfig = ProxyConfig(
    domainId: int,
    proxyPass: string,
    proxyHost: Option<string>,
    proxyHeaders: Option<seq<(string, string)>>,
    websocketSupport: bool,
    cacheEnabled: bool,
    customConfig: Option<string>,
    isActive: bool)

  // ---- saveReverseProxy's defaults ----

  /** The `configData` object `saveReverseProxy` stores. */
  function SaveDefaults(f: ProxyForm): (c: ProxyConfig)
    ensures c.domainId == f.domainId && c.proxyPass == f.proxyPass && c.proxyHeaders == f.proxyHeaders
    ensures c.proxyHost.Some? && c.proxyHost.value != ""
    ensures IsSetText(f.proxyHost) ==> c.proxyHost == f.proxyHost
    ensures !IsSetText(f.proxyHost) ==> c.proxyHost == Some("$host")
    ensures c.websocketSupport <==> f.websocketSupport == Some(true)
    ensures c.cacheEnabled <==> f.cacheEnabled == Some(true)
    ensures c.isActive <==> f.isActive != Some(false)
    ensures c.customConfig == None || c.customConfig.value != ""
    ensures IsSetText(f.customConfig) ==> c.customConfig == f.customConfig
  {
    ProxyConfig(
      f.domainId,
      f.proxyPass,
      Some(if IsSetText(f.proxyHost) then f.proxyHost.value else "$host"),
      f.proxyHeaders,
      f.websocketSupport.GetOr(false),
      f.cacheEnabled.GetOr(false),
      if IsSetText(f.customConfig) then f.customConfig else None,
      f.isActive.GetOr(true))
  }

  /** A stored configuration read back as a form. */
  function AsForm(c: ProxyConfig): ProxyForm {
    ProxyForm(c.domainId, c.proxyPass, c.proxyHost, c.proxyHeaders,
      Some(c.websocketSupport), Some(c.cacheEnabled), c.customConfig, Some(c.isActive))
  }

  /** Saving a configuration that was already saved changes nothing. */
  lemma SaveIdempotent(f: ProxyForm)
    ensures SaveDefaults(AsForm(SaveDefaults(f))) == SaveDefaults(f)
  {
  }

  // ---- generateLocationBlock ----

  const LocationOpen := "    location / {"
  const LocationClose := "    }"
  const RealIpLine := "        proxy_set_header X-Real-IP $remote_addr;"
  const ForwardedForLine := "        proxy_set_header X-Forwarded-For $proxy_add_x_forwarded_for;"
  const ForwardedProtoLine := "        proxy_set_header X-Forwarded-Proto $scheme;"
  const WebsocketComment := "        # Websocket support"
  const WebsocketLines := ["", WebsocketComment, "        proxy_http_version 1.1;",
    "        proxy_set_header Upgrade $http_upgrade;", "        proxy_set_header Connection \"upgrade\";"]
  const NoCacheComment := "        # Disable caching"
  const NoCacheLines := ["", NoCacheComment, "        proxy_cache_bypass $http_upgrade;",
    "        proxy_no_cache 1;", "        proxy_cache_bypass 1;"]
  const TimeoutComment := "        # Timeouts"
  const TimeoutLines := ["", TimeoutComment, "        proxy_connect_timeout 60s;",
    "        proxy_send_timeout 60s;", "        proxy_read_timeout 60s;"]
  const CustomComment := "        # Custom configuration"

  /** `proxy_pass <proxyPass>;`, verbatim. */
  function ProxyPassLine(proxyPass: string): string {
    "        proxy_pass " + proxyPass + ";"
  }

  /** The Host header: `proxyHost`, or `$host` when it is empty or absent. */
  function HostLine(proxyHost: Option<string>): (l: string)
    ensures IsSetText(proxyHost) ==> l == "        proxy_set_header Host " + proxyHost.value + ";"
    ensures !IsSetText(proxyHost) ==> l == "        proxy_set_header Host $host;"
  {
    "        proxy_set_header Host " + (if IsSetText(proxyHost) then proxyHost.value else "$host") + ";"
  }

  function HeaderLine(h: (string, string)): string {
    "        proxy_set_header " + h.0 + " " + h.1 + ";"
  }

  /** One `proxy_set_header` line per entry, in entry order. */
  function HeaderLines(hs: seq<(string, string)>): (ls: seq<string>)
    ensures |ls| == |hs|
    ensures forall i :: 0 <= i < |hs| ==> ls[i] == HeaderLine(hs[i])
  {
    if hs == [] then [] else HeaderLines(hs[..|hs| - 1]) + [HeaderLine(hs[|hs| - 1])]
  }

  /** A line of `customConfig` the block keeps: one with something besides
      white space. */
  predicate IsNonBlank(line: string) {
    Trim(line) != ""
  }

  /** `IsNonBlank` as a filter argument. */
  function NonBlank(): string -> bool {
    line => IsNonBlank(line)
  }

  /** The kept lines of `customConfig`, trimmed and indented by 8 spaces. */
  function CustomLines(ls: seq<string>): (out: seq<string>)
    ensures |out| <= |ls|
  {
    if ls == [] then []
    else
      var l := ls[|ls| - 1];
      CustomLines(ls[..|ls| - 1]) + (if IsNonBlank(l) then ["        " + Trim(l)] else [])
  }

  /** The lines before the custom section: the opening, the proxy and
      header lines, the websocket group when enabled, the cache group when
      caching is off, and the timeouts. */
  function BaseLines(c: ProxyConfig): seq<string> {
    FixedLines(c) + HeaderPart(c) + WebsocketPart(c) + CachePart(c) + TimeoutLines
  }

  /** The six lines every block opens with. */
  function FixedLines(c: ProxyConfig): seq<string> {
    [LocationOpen, ProxyPassLine(c.proxyPass), HostLine(c.proxyHost), RealIpLine, ForwardedForLine, ForwardedProtoLine]
  }

  function HeaderPart(c: ProxyConfig): seq<string> {
    if c.proxyHeaders.Some? then HeaderLines(c.proxyHeaders.value) else []
  }

  function WebsocketPart(c: ProxyConfig): seq<string> {
    if c.websocketSupport then WebsocketLines else []
  }

  function CachePart(c: ProxyConfig): seq<string> {
    if !c.cacheEnabled then NoCacheLines else []
  }

  /** The custom section: present only for a non-empty `customConfig`. */
  function CustomSection(c: ProxyConfig): seq<string> {
    if IsSetText(c.customConfig) then ["", CustomComment] + CustomLines(Split(c.customConfig.value, '\n')) else []
  }

  /** All lines of the block. */
  function LocationLines(c: ProxyConfig): seq<string> {
    BaseLines(c) + CustomSection(c) + [LocationClose]
  }

  /** `generateLocationBlock(config)`. */
  method GenerateLocationBlock(c: ProxyConfig) returns (text: string)
    ensures text == Join(LocationLines(c), "\n")
  {
    var lines := PushBase(c);
    if IsSetText(c.customConfig) {
      lines := lines + ["", CustomComment];
      var custom := PushCustom([], Split(c.customConfig.value, '\n'));
      assert custom == CustomLines(Split(c.customConfig.value, '\n'));
      assert CustomSection(c) == ["", CustomComment] + custom;
      AppendAssoc(BaseLines(c), ["", CustomComment], custom);
      lines := lines + custom;
    } else {
      assert CustomSection(c) == [];
      assert lines == BaseLines(c) + CustomSection(c);
    }
    assert lines + [LocationClose] == LocationLines(c);
    lines := lines + [LocationClose];
    text := Join(lines, "\n");
  }

  /** The pushes before the custom section. */
  method PushBase(c: ProxyConfig) returns (lines: seq<string>)
    ensures lines == BaseLines(c)
  {
    lines := [LocationOpen];
    lines := lines + [ProxyPassLine(c.proxyPass)];
    lines := lines + [HostLine(c.proxyHost)];
    lines := lines + [RealIpLine];
    lines := lines + [ForwardedForLine];
    lines := lines + [ForwardedProtoLine];
    assert lines == FixedLines(c);
    if c.proxyHeaders.Some? {
      lines := PushHeaders(lines, c.proxyHeaders.value);
    } else {
      assert lines == lines + [];
    }
    assert lines == FixedLines(c) + HeaderPart(c);
    var before := lines;
    if c.websocketSupport {
      lines := lines + WebsocketLines;
    } else {
      assert lines == lines + [];
    }
    assert lines == before + WebsocketPart(c);
    before := lines;
    if !c.cacheEnabled {
      lines := lines + NoCacheLines;
    } else {
      assert lines == lines + [];
    }
    assert lines == before + CachePart(c);
    lines := lines + TimeoutLines;
  }

  /** The loop over the header entries. */
  method PushHeaders(lines: seq<string>, hs: seq<(string, string)>) returns (out: seq<string>)
    ensures out == lines + HeaderLines(hs)
  {
    out := lines;
    for i := 0 to |hs|
      invariant out == lines + HeaderLines(hs[..i])
    {
      assert hs[..i + 1][..i] == hs[..i];
      out := out + [HeaderLine(hs[i])];
    }
    assert hs[..|hs|] == hs;
  }

  /** The loop over the lines of `customConfig`. */
  method PushCustom(lines: seq<string>, ls: seq<string>) returns (out: seq<string>)
    ensures out == lines + CustomLines(ls)
  {
    out := lines;
    for i := 0 to |ls|
      invariant out == lines + CustomLines(ls[..i])
    {
      CustomStep(ls, i);
      var trimmed := Trim(ls[i]);
      if trimmed != "" {
        AppendAssoc(lines, CustomLines(ls[..i]), ["        " + trimmed]);
        out := out + ["        " + trimmed];
      }
    }
    assert ls[..|ls|] == ls;
  }

  lemma CustomStep(ls: seq<string>, i: nat)
    requires i < |ls|
    ensures CustomLines(ls[..i + 1])
      == CustomLines(ls[..i]) + (if IsNonBlank(ls[i]) then ["        " + Trim(ls[i])] else [])
  {
    assert ls[..i + 1][..i] == ls[..i];
  }

  // ---- properties of the block ----

  /** The block text opens with `    location / {` followed by the proxy_pass
      line, and closes with `    }` on its own line. */
  lemma LocationFrame(c: ProxyConfig)
    ensures var text := Join(LocationLines(c), "\n");
      && text == LocationOpen + "\n" + Join(LocationLines(c)[1..], "\n")
      && text == Join(LocationLines(c)[..|LocationLines(c)| - 1], "\n") + "\n" + LocationClose
    ensures LocationLines(c)[1] == ProxyPassLine(c.proxyPass)
    ensures LocationLines(c)[2] == HostLine(c.proxyHost)
  {
    LocationEnds(c);
    JoinEnds(LocationLines(c), "\n");
  }

  lemma LocationEnds(c: ProxyConfig)
    ensures var lines := LocationLines(c);
      && |lines| >= 12
      && lines[0] == LocationOpen
      && lines[1] == ProxyPassLine(c.proxyPass)
      && lines[2] == HostLine(c.proxyHost)
      && lines[|lines| - 1] == LocationClose
  {
    FrameParts(FixedLines(c), HeaderPart(c), WebsocketPart(c), CachePart(c), TimeoutLines, CustomSection(c), LocationClose);
  }

  /** Where the first three and the last line of the concatenated parts
      come from. */
  lemma FrameParts(f: seq<string>, h: seq<string>, w: seq<string>, ca: seq<string>, t: seq<string>,
                   cs: seq<string>, close: string)
    requires |f| == 6 && |t| == 5
    ensures var all := f + h + w + ca + t + cs + [close];
      && |all| >= 12
      && all[0] == f[0] && all[1] == f[1] && all[2] == f[2]
      && all[|all| - 1] == close
  {
  }

  /** The header lines follow the six fixed lines, one per parsed entry, in
      entry order; with no parsed headers the next group starts right away. */
  lemma HeaderSection(c: ProxyConfig)
    ensures c.proxyHeaders.Some? ==>
      BaseLines(c)[6..6 + |c.proxyHeaders.value|] == HeaderLines(c.proxyHeaders.value)
    ensures c.proxyHeaders.None? ==> BaseLines(c)[6] == ""
  {
    PartsSlices(FixedLines(c), HeaderPart(c), WebsocketPart(c), CachePart(c), TimeoutLines);
    if c.proxyHeaders.None? {
      assert WebsocketPart(c) == [] || WebsocketPart(c)[0] == "";
      assert CachePart(c) == [] || CachePart(c)[0] == "";
      BlankAfterFixed(FixedLines(c), WebsocketPart(c), CachePart(c), TimeoutLines);
    }
  }

  /** The timeout group always closes the lines before the custom section. */
  lemma TimeoutsAlways(c: ProxyConfig)
    ensures |BaseLines(c)| >= 11
    ensures BaseLines(c)[|BaseLines(c)| - 5..] == TimeoutLines
  {
    PartsSlices(FixedLines(c), HeaderPart(c), WebsocketPart(c), CachePart(c), TimeoutLines);
  }

  /** Where the second and the last part of five sit in their
      concatenation. */
  lemma PartsSlices(f: seq<string>, h: seq<string>, w: seq<string>, ca: seq<string>, t: seq<string>)
    requires |f| == 6
    ensures var all := f + h + w + ca + t;
      && all[6..6 + |h|] == h
      && |all| >= 6 + |t|
      && all[|all| - |t|..] == t
  {
    var all := f + h + w + ca + t;
    assert all == (f + h) + (w + ca + t);
    assert (f + h)[6..] == h;
  }

  /** With no second part, the seventh line is the first of the later
      parts, each of which opens with an empty line. */
  lemma BlankAfterFixed(f: seq<string>, w: seq<string>, ca: seq<string>, t: seq<string>)
    requires |f| == 6
    requires w == [] || w[0] == ""
    requires ca == [] || ca[0] == ""
    requires |t| > 0 && t[0] == ""
    ensures (f + [] + w + ca + t)[6] == ""
  {
    assert f + [] + w + ca + t == f + (w + ca + t);
  }

  /** The ninth character of a line: `#` for the comment lines, a letter for
      the directive lines. */
  function Marker(l: string): char {
    if |l| > 10 then l[8] else ' '
  }

  /** The eleventh character: tells the comment lines apart. */
  function Tag(l: string): char {
    if |l| > 10 then l[10] else ' '
  }

  lemma FixedMarkers(c: ProxyConfig)
    ensures Marker(LocationOpen) == 't'
    ensures Marker(ProxyPassLine(c.proxyPass)) == 'p' && Marker(HostLine(c.proxyHost)) == 'p'
    ensures Marker(RealIpLine) == 'p' && Marker(ForwardedForLine) == 'p' && Marker(ForwardedProtoLine) == 'p'
  {
  }

  lemma HeaderMarkers(hs: seq<(string, string)>)
    ensures forall i :: 0 <= i < |hs| ==> Marker(HeaderLines(hs)[i]) == 'p'
  {
  }

  lemma GroupTags()
    ensures forall l :: l in WebsocketLines ==> Marker(l) != '#' || Tag(l) == 'W'
    ensures forall l :: l in NoCacheLines ==> Marker(l) != '#' || Tag(l) == 'D'
    ensures forall l :: l in TimeoutLines ==> Marker(l) != '#' || Tag(l) == 'T'
  {
    WebsocketTags();
    NoCacheTags();
    TimeoutTags();
  }

  lemma WebsocketTags()
    ensures forall l :: l in WebsocketLines ==> Marker(l) != '#' || Tag(l) == 'W'
  {
  }

  lemma NoCacheTags()
    ensures forall l :: l in NoCacheLines ==> Marker(l) != '#' || Tag(l) == 'D'
  {
  }

  lemma TimeoutTags()
    ensures forall l :: l in TimeoutLines ==> Marker(l) != '#' || Tag(l) == 'T'
  {
  }

  /** The three group comments carry `#` and their group's tag. */
  lemma CommentTags()
    ensures Marker(WebsocketComment) == '#' && Tag(WebsocketComment) == 'W'
    ensures Marker(NoCacheComment) == '#' && Tag(NoCacheComment) == 'D'
  {
  }

  /** Every comment line before the custom section belongs to one of the
      three optional or fixed groups, named by its tag. */
  lemma {:induction false} CommentOrigin(c: ProxyConfig, l: string)
    requires l in BaseLines(c) && Marker(l) == '#'
    ensures (Tag(l) == 'W' && c.websocketSupport) || (Tag(l) == 'D' && !c.cacheEnabled) || Tag(l) == 'T'
  {
    FixedNotComment(c);
    HeaderNotComment(c);
    GroupTags();
    assert l in FixedLines(c) || l in HeaderPart(c) || l in WebsocketPart(c) || l in CachePart(c) || l in TimeoutLines;
  }

  lemma FixedNotComment(c: ProxyConfig)
    ensures forall l :: l in FixedLines(c) ==> Marker(l) != '#'
  {
    FixedMarkers(c);
  }

  lemma HeaderNotComment(c: ProxyConfig)
    ensures forall l :: l in HeaderPart(c) ==> Marker(l) != '#'
  {
    if c.proxyHeaders.Some? {
      var hs := c.proxyHeaders.value;
      HeaderMarkers(hs);
      forall l | l in HeaderLines(hs)
        ensures Marker(l) != '#'
      {
        var i :| 0 <= i < |HeaderLines(hs)| && HeaderLines(hs)[i] == l;
      }
    }
  }

  /** The websocket group appears exactly when websocket support is on. */
  lemma {:induction false} WebsocketIff(c: ProxyConfig)
    ensures c.websocketSupport <==> WebsocketComment in BaseLines(c)
  {
    if WebsocketComment in BaseLines(c) {
      CommentTags();
      CommentOrigin(c, WebsocketComment);
    }
    if c.websocketSupport {
      assert WebsocketComment in WebsocketLines;
    }
  }

  /** The cache-disabling group appears exactly when caching is off. */
  lemma {:induction false} NoCacheIff(c: ProxyConfig)
    ensures !c.cacheEnabled <==> NoCacheComment in BaseLines(c)
  {
    if NoCacheComment in BaseLines(c) {
      CommentTags();
      CommentOrigin(c, NoCacheComment);
    }
    if !c.cacheEnabled {
      assert NoCacheComment in NoCacheLines;
    }
  }

  /** Reference reading of the custom section: the non-blank lines, in order,
      each trimmed and indented by 8 spaces. */
  function Indented(ts: seq<string>): (out: seq<string>)
    ensures |out| == |ts|
    ensures forall i :: 0 <= i < |ts| ==> out[i] == "        " + Trim(ts[i])
  {
    if ts == [] then [] else ["        " + Trim(ts[0])] + Indented(ts[1..])
  }

  lemma IndentedAppend(a: seq<string>, b: seq<string>)
    ensures Indented(a + b) == Indented(a) + Indented(b)
  {
  }

  lemma FilterOne(l: string)
    ensures Filter([l], NonBlank()) == if IsNonBlank(l) then [l] else []
  {
    assert [l][1..] == [];
  }

  lemma {:induction false} CustomLinesSpec(ls: seq<string>)
    ensures CustomLines(ls) == Indented(Filter(ls, NonBlank()))
  {
    if ls != [] {
      var init := ls[..|ls| - 1];
      var l := ls[|ls| - 1];
      SplitLast(ls);
      var fi := Filter(init, NonBlank());
      var fl := Filter([l], NonBlank());
      CustomLinesSpec(init);
      FilterAppend(init, [l], NonBlank());
      assert Filter(ls, NonBlank()) == fi + fl;
      FilterOne(l);
      IndentedAppend(fi, fl);
      assert Indented(fl) == if IsNonBlank(l) then ["        " + Trim(l)] else [];
    }
  }

  /** The custom section: the comment and then exactly the non-blank lines of
      `customConfig`, in order, trimmed and indented; no section at all when
      `customConfig` is empty or absent. */
  lemma CustomSectionSpec(c: ProxyConfig)
    ensures IsSetText(c.customConfig) ==>
      CustomSection(c) == ["", CustomComment] + Indented(Filter(Split(c.customConfig.value, '\n'), NonBlank()))
    ensures !IsSetText(c.customConfig) ==> CustomSection(c) == []
  {
    if IsSetText(c.customConfig) {
      CustomLinesSpec(Split(c.customConfig.value, '\n'));
    }
  }

  // ---- saving and rendering agree ----

  /** A form as `generateLocationBlock` would read it without the saved
      defaults: a missing flag is falsy, a missing host or custom text is
      taken as absent. */
  function AsGiven(f: ProxyForm): ProxyConfig {
    ProxyConfig(f.domainId, f.proxyPass, f.proxyHost, f.proxyHeaders,
      f.websocketSupport == Some(true), f.cacheEnabled == Some(true), f.customConfig, f.isActive != Some(false))
  }

  /** The defaults `saveReverseProxy` fills in are the ones
      `generateLocationBlock` assumes: the stored configuration renders the
      same block as the form itself. */
  lemma {:induction false} SaveKeepsBlock(f: ProxyForm)
    ensures LocationLines(SaveDefaults(f)) == LocationLines(AsGiven(f))
  {
    var c := SaveDefaults(f);
    var g := AsGiven(f);
    assert HostLine(c.proxyHost) == HostLine(g.proxyHost);
    assert BaseLines(c) == BaseLines(g);
    assert CustomSection(c) == CustomSection(g);
  }

  /** A saved configuration without a host sends `Host $host`. */
  lemma SavedHostDefault(f: ProxyForm)
    requires !IsSetText(f.proxyHost)
    ensures LocationLines(SaveDefaults(f))[2] == "        proxy_set_header Host $host;"
  {
    LocationEnds(SaveDefaults(f));
  }
}
