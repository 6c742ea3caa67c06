/** `generateNginxServerBlock` (libs/nginx-utils.ts): the server block for one
    domain, as the sequence of lines the source pushes and the text it joins
    them into. */
module NginxGenerate {
  import opened Wrappers
  import opened Text
  import opened Domains
  import opened Seqs

  /** The optional second argument; an absent object is `NoOptions`. */
  datatype BlockOptions = BlockOptions(
    proxyPort: Option<int>,
    enableSsl: bool,
    sslCertPath: Option<string>,
    sslKeyPath: Option<string>,
    documentRoot: Option<string>)

  const NoOptions := BlockOptions(None, false, None, None, None)

  const ServerOpen := "server {"
  const ServerClose := "}"
  const LocationOpen := "    location / {"
  const LocationClose := "    }"

  /** A directive line of the server block: four spaces, the directive, `;`. */
  function Outer(directive: string): string {
    "    " + directive + ";"
  }

  /** A directive line inside `location /`: eight spaces, the directive, `;`. */
  function Inner(directive: string): string {
    "        " + directive + ";"
  }

  const SslProtocols := Outer("ssl_protocols TLSv1.2 TLSv1.3")
  const SslCiphers := Outer("ssl_ciphers HIGH:!aNULL:!MD5")
  const TryFiles := Inner("try_files $uri $uri/ =404")
  const IndexLine := Outer("index index.html index.htm")

  function ServerNameLine(name: string): string {
    Outer("server_name " + name)
  }

  /** The proxy line for a port, given as its decimal text. */
  function ProxyPassLine(port: string): string {
    Inner("proxy_pass http://127.0.0.1:" + port)
  }

  const DefaultProxyPass := ProxyPassLine("3000")

  function ProxyHeader(name: string, value: string): string {
    Inner("proxy_set_header " + name + " " + value)
  }

  function RootLine(root: string): string {
    Outer("root " + root)
  }

  /** The two `listen` lines. */
  function ListenLines(d: Domain, o: BlockOptions): seq<string> {
    if o.enableSsl then [Outer("listen 443 ssl"), Outer("listen [::]:443 ssl")]
    else
      var p := IntToString(NumberOr(d.port, 80));
      [Outer("listen " + p), Outer("listen [::]:" + p)]
  }

  /** The certificate group, present only with SSL enabled and both paths set. */
  function SslLines(o: BlockOptions): seq<string> {
    if o.enableSsl && IsSetText(o.sslCertPath) && IsSetText(o.sslKeyPath) then
      ["",
       Outer("ssl_certificate " + o.sslCertPath.value),
       Outer("ssl_certificate_key " + o.sslKeyPath.value),
       SslProtocols,
       SslCiphers]
    else []
  }

  /** The proxy section after its `proxy_pass` line. */
  const ProxyTail: seq<string> :=
    [Inner("proxy_http_version 1.1"),
     ProxyHeader("Upgrade", "$http_upgrade"),
     ProxyHeader("Connection", "'upgrade'"),
     ProxyHeader("Host", "$host"),
     Inner("proxy_cache_bypass $http_upgrade"),
     LocationClose]

  /** The section that proxies to a local port. */
  function ProxyLocation(port: string): seq<string> {
    [LocationOpen, ProxyPassLine(port)] + ProxyTail
  }

  /** The section that serves files from a document root. */
  function RootLocation(root: string): seq<string> {
    [RootLine(root),
     IndexLine,
     "",
     LocationOpen,
     TryFiles,
     LocationClose]
  }

  /** The fallback section, proxying to port 3000. */
  const DefaultLocation: seq<string> :=
    [LocationOpen,
     DefaultProxyPass,
     ProxyHeader("Host", "$host"),
     ProxyHeader("X-Real-IP", "$remote_addr"),
     LocationClose]

  /** The `location /` section, by priority: proxy port, document root,
      default proxy. */
  function LocationLines(o: BlockOptions): seq<string> {
    if IsSetNumber(o.proxyPort) then ProxyLocation(IntToString(o.proxyPort.value))
    else if IsSetText(o.documentRoot) then RootLocation(o.documentRoot.value)
    else DefaultLocation
  }

  /** The lines pushed up to the `server_name` line. */
  function ServerHead(d: Domain, o: BlockOptions): seq<string> {
    [ServerOpen] + ListenLines(d, o) + [ServerNameLine(d.name)]
  }

  /** The lines pushed after the `server_name` line. */
  function ServerTail(o: BlockOptions): seq<string> {
    SslLines(o) + [""] + LocationLines(o) + [ServerClose]
  }

  /** The lines `generateNginxServerBlock` pushes, in order. */
  function ServerBlockLines(d: Domain, o: BlockOptions): seq<string> {
    ServerHead(d, o) + ServerTail(o)
  }

  /** `generateNginxServerBlock(domain, options)`. */
  function GenerateNginxServerBlock(d: Domain, o: BlockOptions): string {
    Join(ServerBlockLines(d, o), "\n")
  }

  /** The block opens with `server {`, then the two listen lines, then the
      server_name line, and closes with `}`. */
  lemma ServerBlockFrame(d: Domain, o: BlockOptions)
    ensures var lines := ServerBlockLines(d, o);
      && |lines| >= 10
      && lines[0] == ServerOpen
      && lines[1..3] == ListenLines(d, o)
      && lines[3] == ServerNameLine(d.name)
      && lines[|lines| - 1] == ServerClose
  {
    var head := ServerHead(d, o);
    var tail := ServerTail(o);
    assert |head| == 4 && head[0] == ServerOpen && head[1..3] == ListenLines(d, o) && head[3] == ServerNameLine(d.name);
    assert |tail| >= 6 && tail[|tail| - 1] == ServerClose;
    PrefixAndLast(head, tail);
  }

  lemma PrefixAndLast(head: seq<string>, tail: seq<string>)
    requires |head| == 4 && tail != []
    ensures (head + tail)[0] == head[0] && (head + tail)[1..3] == head[1..3] && (head + tail)[3] == head[3]
    ensures (head + tail)[|head + tail| - 1] == tail[|tail| - 1]
  {
  }

  /** With SSL enabled both listen lines name port 443 with `ssl`; otherwise
      they name the domain's port, or 80 when it has none (or 0). */
  lemma ListenLinesSpec(d: Domain, o: BlockOptions)
    ensures o.enableSsl ==>
      ListenLines(d, o) == [Outer("listen 443 ssl"), Outer("listen [::]:443 ssl")]
    ensures !o.enableSsl && IsSetNumber(d.port) ==>
      ListenLines(d, o) == [Outer("listen " + IntToString(d.port.value)),
                            Outer("listen [::]:" + IntToString(d.port.value))]
    ensures !o.enableSsl && !IsSetNumber(d.port) ==>
      ListenLines(d, o) == [Outer("listen 80"), Outer("listen [::]:80")]
  {
    if !o.enableSsl && !IsSetNumber(d.port) {
      assert NumberOr(d.port, 80) == 80;
      assert IntToString(80) == "80" by {
        assert DigitChar(8) == '8' && DigitChar(0) == '0';
        assert NatToString(8) == "8";
        assert NatToString(80) == NatToString(8) + [DigitChar(0)];
      }
      assert "listen " + "80" == "listen 80";
      assert "listen [::]:" + "80" == "listen [::]:80";
    }
  }

  // ---- Which line can be which ----

  /** The fifth and sixth characters of a server-level line are the first
      two of its directive. */
  lemma OuterChars(directive: string)
    requires |directive| >= 2
    ensures |Outer(directive)| > 5 && Outer(directive)[4] == directive[0] && Outer(directive)[5] == directive[1]
  {
  }

  /** A location-level line has spaces in fifth and sixth place and its
      directive's first character in ninth. */
  lemma InnerChars(directive: string)
    requires |directive| >= 1
    ensures |Inner(directive)| > 8 && Inner(directive)[4] == ' ' && Inner(directive)[5] == ' '
    ensures Inner(directive)[8] == directive[0]
  {
  }

  /** Every line has the character `c` in place `k`. */
  predicate AllAt(lines: seq<string>, k: nat, c: char) {
    forall i :: 0 <= i < |lines| ==> k < |lines[i]| && lines[i][k] == c
  }

  /** A line with another character in place `k` is none of them. */
  lemma NotAllAt(lines: seq<string>, k: nat, c: char, x: string)
    requires AllAt(lines, k, c) && k < |x| && x[k] != c
    ensures multiset(lines)[x] == 0
  {
    assert forall i :: 0 <= i < |lines| ==> lines[i] != x;
  }

  /** Both listen lines have `i` in sixth place. */
  lemma ListenAt(d: Domain, o: BlockOptions)
    ensures AllAt(ListenLines(d, o), 5, 'i')
  {
    var p := IntToString(NumberOr(d.port, 80));
    OuterChars("listen 443 ssl");
    OuterChars("listen [::]:443 ssl");
    OuterChars("listen " + p);
    OuterChars("listen [::]:" + p);
  }

  /** A line whose sixth character is not `i` is not a listen line. */
  lemma ListenCount(d: Domain, o: BlockOptions, x: string)
    requires |x| > 5 && x[5] != 'i'
    ensures multiset(ListenLines(d, o))[x] == 0
  {
    ListenAt(d, o);
    NotAllAt(ListenLines(d, o), 5, 'i', x);
  }

  /** After its empty first line, every certificate-group line has `s` in
      sixth place. */
  lemma SslAt(o: BlockOptions)
    requires SslLines(o) != []
    ensures SslLines(o)[0] == "" && AllAt(SslLines(o)[1..], 5, 's')
  {
    OuterChars("ssl_certificate " + o.sslCertPath.value);
    OuterChars("ssl_certificate_key " + o.sslKeyPath.value);
    OuterChars("ssl_protocols TLSv1.2 TLSv1.3");
    OuterChars("ssl_ciphers HIGH:!aNULL:!MD5");
  }

  /** Every certificate-group line is empty or has `s` in sixth place. */
  lemma SslCount(o: BlockOptions, x: string)
    requires |x| > 5 && x[5] != 's'
    ensures multiset(SslLines(o))[x] == 0
  {
    if SslLines(o) != [] {
      SslAt(o);
      var rest := SslLines(o)[1..];
      NotAllAt(rest, 5, 's', x);
      assert SslLines(o) == [""] + rest;
    }
  }

  /** The certificate group holds the protocol line exactly when present. */
  lemma SslProtocolsCount(o: BlockOptions)
    ensures multiset(SslLines(o))[SslProtocols] > 0
      <==> o.enableSsl && IsSetText(o.sslCertPath) && IsSetText(o.sslKeyPath)
  {
    if SslLines(o) != [] {
      assert SslLines(o)[3] == SslProtocols;
    }
  }

  /** The proxy lines after `location / {`: location-level lines with `p`
      in ninth place, then `    }`. */
  lemma ProxyTailAt()
    ensures AllAt(ProxyTail[..5], 4, ' ') && AllAt(ProxyTail[..5], 8, 'p')
    ensures ProxyTail == ProxyTail[..5] + [LocationClose]
  {
    InnerChars("proxy_http_version 1.1");
    InnerChars("proxy_set_header Upgrade $http_upgrade");
    InnerChars("proxy_set_header Connection 'upgrade'");
    InnerChars("proxy_set_header Host $host");
    InnerChars("proxy_cache_bypass $http_upgrade");
  }

  /** The proxy section as its opening line and its location-level lines
      with `p` in ninth place, then `    }`. */
  lemma ProxyLocationParts(port: string)
    ensures var body := [ProxyPassLine(port)] + ProxyTail[..5];
      ProxyLocation(port) == [LocationOpen] + body + [LocationClose]
      && AllAt(body, 4, ' ') && AllAt(body, 8, 'p')
  {
    ProxyTailAt();
    InnerChars("proxy_pass http://127.0.0.1:" + port);
    var body := [ProxyPassLine(port)] + ProxyTail[..5];
    assert body[0] == ProxyPassLine(port);
    assert forall i :: 1 <= i < |body| ==> body[i] == ProxyTail[..5][i - 1];
  }

  /** The default section the same way. */
  lemma DefaultLocationParts()
    ensures var body := DefaultLocation[1..4];
      DefaultLocation == [LocationOpen] + body + [LocationClose]
      && AllAt(body, 4, ' ') && AllAt(body, 8, 'p')
  {
    InnerChars("proxy_pass http://127.0.0.1:3000");
    InnerChars("proxy_set_header Host $host");
    InnerChars("proxy_set_header X-Real-IP $remote_addr");
  }

  /** The root section: two server-level lines, an empty line, the opening
      line, the `try_files` line and the closing line. */
  lemma RootLocationAt(root: string)
    ensures RootLine(root)[4] == 'r' && IndexLine[4] == 'i' && TryFiles[4] == ' '
  {
    OuterChars("root " + root);
    OuterChars("index index.html index.htm");
    InnerChars("try_files $uri $uri/ =404");
  }

  lemma LocationLineChars()
    ensures |LocationOpen| > 8 && LocationOpen[4] == 'l' && LocationClose[4] == '}' && |LocationClose| == 5
    ensures |TryFiles| > 8 && TryFiles[4] == ' ' && TryFiles[8] == 't'
  {
    InnerChars("try_files $uri $uri/ =404");
  }

  /** No line of a proxy-style section (opening, body, closing) has `s` in
      fifth place. */
  lemma SectionCount(body: seq<string>, x: string)
    requires AllAt(body, 4, ' ')
    requires |x| > 4 && x[4] != ' ' && x != LocationOpen && x != LocationClose
    ensures multiset([LocationOpen] + body + [LocationClose])[x] == 0
  {
    NotAllAt(body, 4, ' ', x);
  }

  /** No location-section line has `s` in its fifth place. */
  lemma LocationCount(o: BlockOptions, x: string)
    requires |x| > 4 && x[4] == 's'
    ensures multiset(LocationLines(o))[x] == 0
  {
    LocationLineChars();
    if IsSetNumber(o.proxyPort) {
      ProxyLocationCount(IntToString(o.proxyPort.value), x);
    } else if IsSetText(o.documentRoot) {
      RootLocationCount(o.documentRoot.value, x);
    } else {
      DefaultLocationCount(x);
    }
  }

  lemma ProxyLocationCount(port: string, x: string)
    requires |x| > 4 && x[4] == 's'
    ensures multiset(ProxyLocation(port))[x] == 0
  {
    LocationLineChars();
    ProxyLocationParts(port);
    SectionCount([ProxyPassLine(port)] + ProxyTail[..5], x);
  }

  lemma RootLocationCount(root: string, x: string)
    requires |x| > 4 && x[4] == 's'
    ensures multiset(RootLocation(root))[x] == 0
  {
    LocationLineChars();
    RootLocationAt(root);
    assert x !in RootLocation(root);
  }

  lemma DefaultLocationCount(x: string)
    requires |x| > 4 && x[4] == 's'
    ensures multiset(DefaultLocation)[x] == 0
  {
    LocationLineChars();
    DefaultLocationParts();
    SectionCount(DefaultLocation[1..4], x);
  }

  /** `location / {` opens a proxy-style section once, and `try_files`
      appears in none. */
  lemma SectionFacts(body: seq<string>)
    requires AllAt(body, 4, ' ') && AllAt(body, 8, 'p')
    ensures multiset([LocationOpen] + body + [LocationClose])[LocationOpen] == 1
    ensures multiset([LocationOpen] + body + [LocationClose])[TryFiles] == 0
  {
    LocationLineChars();
    NotAllAt(body, 4, ' ', LocationOpen);
    NotAllAt(body, 8, 'p', TryFiles);
  }

  lemma DefaultLocationFacts()
    ensures multiset(DefaultLocation)[LocationOpen] == 1
    ensures multiset(DefaultLocation)[DefaultProxyPass] > 0
    ensures multiset(DefaultLocation)[TryFiles] == 0
  {
    DefaultLocationParts();
    SectionFacts(DefaultLocation[1..4]);
    assert DefaultLocation[1] == DefaultProxyPass;
  }

  lemma ProxyLocationOnce(port: string)
    ensures multiset(ProxyLocation(port))[LocationOpen] == 1
  {
    ProxyLocationParts(port);
    SectionFacts([ProxyPassLine(port)] + ProxyTail[..5]);
  }

  lemma RootLocationOnce(root: string)
    ensures multiset(RootLocation(root))[LocationOpen] == 1
  {
    LocationLineChars();
    RootLocationAt(root);
    var r := RootLocation(root);
    assert r == [RootLine(root), IndexLine, ""] + [LocationOpen] + [TryFiles, LocationClose];
    assert LocationOpen !in [RootLine(root), IndexLine, ""];
    assert LocationOpen !in [TryFiles, LocationClose];
  }

  lemma ProxyLocationNoTryFiles(port: string)
    ensures multiset(ProxyLocation(port))[TryFiles] == 0
  {
    ProxyLocationParts(port);
    SectionFacts([ProxyPassLine(port)] + ProxyTail[..5]);
  }

  lemma RootLocationTryFiles(root: string)
    ensures multiset(RootLocation(root))[TryFiles] > 0
    ensures multiset(RootLocation(root))[RootLine(root)] > 0
  {
    assert RootLocation(root)[0] == RootLine(root) && RootLocation(root)[4] == TryFiles;
  }

  lemma ProxyLocationPass(port: string)
    ensures multiset(ProxyLocation(port))[ProxyPassLine(port)] > 0
  {
    assert ProxyLocation(port)[1] == ProxyPassLine(port);
  }

  /** The line list as its seven parts. */
  lemma ServerBlockParts(d: Domain, o: BlockOptions)
    ensures ServerBlockLines(d, o)
      == [ServerOpen] + ListenLines(d, o) + [ServerNameLine(d.name)] + SslLines(o)
         + [""] + LocationLines(o) + [ServerClose]
  {
    var a := [ServerOpen] + ListenLines(d, o) + [ServerNameLine(d.name)];
    AppendAssoc(a, SslLines(o), [""]);
    AppendAssoc(a, SslLines(o) + [""], LocationLines(o));
    AppendAssoc(a, SslLines(o) + [""] + LocationLines(o), [ServerClose]);
  }

  /** How often a line longer than `server {` occurs in the block, part by
      part. */
  lemma CountParts(d: Domain, o: BlockOptions, x: string)
    requires |x| > |ServerOpen|
    ensures multiset(ServerBlockLines(d, o))[x]
      == multiset(ListenLines(d, o))[x] + (if x == ServerNameLine(d.name) then 1 else 0)
         + multiset(SslLines(o))[x] + multiset(LocationLines(o))[x]
  {
    ServerBlockParts(d, o);
    assert x != ServerOpen && x != "" && x != ServerClose;
    CountSevenParts(ServerBlockLines(d, o), ListenLines(d, o), SslLines(o), LocationLines(o),
      ServerOpen, ServerNameLine(d.name), "", ServerClose, x);
  }

  /** Occurrences in seven concatenated parts, four of them single lines of
      which three are not the line counted. */
  lemma CountSevenParts(all: seq<string>, l1: seq<string>, l2: seq<string>, l3: seq<string>,
                        s0: string, s1: string, s2: string, s3: string, x: string)
    requires all == [s0] + l1 + [s1] + l2 + [s2] + l3 + [s3]
    requires x != s0 && x != s2 && x != s3
    ensures multiset(all)[x] == multiset(l1)[x] + (if x == s1 then 1 else 0) + multiset(l2)[x] + multiset(l3)[x]
  {
  }

  /** The server_name line has `s` and `e` in fifth and sixth place. */
  lemma ServerNameChars(name: string)
    ensures |ServerNameLine(name)| > 8 && ServerNameLine(name)[4] == 's' && ServerNameLine(name)[5] == 'e'
  {
    OuterChars("server_name " + name);
  }

  /** The server_name line occurs exactly once. */
  lemma ServerNameOnce(d: Domain, o: BlockOptions)
    ensures multiset(ServerBlockLines(d, o))[ServerNameLine(d.name)] == 1
  {
    var sn := ServerNameLine(d.name);
    ServerNameChars(d.name);
    ListenCount(d, o, sn);
    SslCount(o, sn);
    LocationCount(o, sn);
    CountParts(d, o, sn);
  }

  /** The certificate group is emitted exactly when SSL is enabled and both
      the certificate and the key path are set. */
  lemma SslGroupIff(d: Domain, o: BlockOptions)
    ensures SslProtocols in ServerBlockLines(d, o)
      <==> o.enableSsl && IsSetText(o.sslCertPath) && IsSetText(o.sslKeyPath)
  {
    SslProtocolsOnlyInGroup(d, o);
    SslProtocolsCount(o);
  }

  lemma SslProtocolsOnlyInGroup(d: Domain, o: BlockOptions)
    ensures multiset(ServerBlockLines(d, o))[SslProtocols] == multiset(SslLines(o))[SslProtocols]
  {
    SslProtocolsChars();
    ServerNameChars(d.name);
    DifferAt(SslProtocols, ServerNameLine(d.name), 5);
    ListenCount(d, o, SslProtocols);
    LocationCount(o, SslProtocols);
    CountParts(d, o, SslProtocols);
  }

  lemma SslProtocolsChars()
    ensures |SslProtocols| > 5 && SslProtocols[4] == 's' && SslProtocols[5] == 's'
  {
    OuterChars("ssl_protocols TLSv1.2 TLSv1.3");
  }

  lemma DifferAt(a: string, b: string, k: nat)
    requires k < |a| && k < |b| && a[k] != b[k]
    ensures a != b
  {
  }

  /** Exactly one `location /` section opens. */
  lemma OneLocation(d: Domain, o: BlockOptions)
    ensures multiset(ServerBlockLines(d, o))[LocationOpen] == 1
  {
    ServerNameChars(d.name);
    LocationLineChars();
    ListenCount(d, o, LocationOpen);
    SslCount(o, LocationOpen);
    LocationOpenOnce(o);
    CountParts(d, o, LocationOpen);
  }

  lemma LocationOpenOnce(o: BlockOptions)
    ensures multiset(LocationLines(o))[LocationOpen] == 1
  {
    if IsSetNumber(o.proxyPort) {
      ProxyLocationOnce(IntToString(o.proxyPort.value));
    } else if IsSetText(o.documentRoot) {
      RootLocationOnce(o.documentRoot.value);
    } else {
      DefaultLocationFacts();
    }
  }

  /** The location section follows the priority: a set proxy port proxies
      to that port; otherwise a set document root serves files from it;
      otherwise the block proxies to port 3000. */
  lemma LocationPriority(d: Domain, o: BlockOptions)
    ensures IsSetNumber(o.proxyPort) ==>
      ProxyPassLine(IntToString(o.proxyPort.value)) in ServerBlockLines(d, o)
    ensures TryFiles in ServerBlockLines(d, o)
      <==> !IsSetNumber(o.proxyPort) && IsSetText(o.documentRoot)
    ensures TryFiles in ServerBlockLines(d, o) ==>
      RootLine(o.documentRoot.value) in ServerBlockLines(d, o)
    ensures !IsSetNumber(o.proxyPort) && !IsSetText(o.documentRoot) ==>
      DefaultProxyPass in ServerBlockLines(d, o)
  {
    TryFilesIff(d, o);
    if IsSetNumber(o.proxyPort) {
      var pp := ProxyPassLine(IntToString(o.proxyPort.value));
      ProxyLocationPass(IntToString(o.proxyPort.value));
      InnerChars("proxy_pass http://127.0.0.1:" + IntToString(o.proxyPort.value));
      CountParts(d, o, pp);
    } else if IsSetText(o.documentRoot) {
      RootLocationTryFiles(o.documentRoot.value);
      OuterChars("root " + o.documentRoot.value);
      CountParts(d, o, RootLine(o.documentRoot.value));
    } else {
      DefaultLocationFacts();
      InnerChars("proxy_pass http://127.0.0.1:3000");
      CountParts(d, o, DefaultProxyPass);
    }
  }

  lemma TryFilesIff(d: Domain, o: BlockOptions)
    ensures TryFiles in ServerBlockLines(d, o)
      <==> !IsSetNumber(o.proxyPort) && IsSetText(o.documentRoot)
  {
    TryFilesOnlyInLocation(d, o);
    LocationTryFiles(o);
  }

  lemma TryFilesOnlyInLocation(d: Domain, o: BlockOptions)
    ensures multiset(ServerBlockLines(d, o))[TryFiles] == multiset(LocationLines(o))[TryFiles]
  {
    ServerNameChars(d.name);
    InnerChars("try_files $uri $uri/ =404");
    ListenCount(d, o, TryFiles);
    SslCount(o, TryFiles);
    CountParts(d, o, TryFiles);
  }

  lemma LocationTryFiles(o: BlockOptions)
    ensures multiset(LocationLines(o))[TryFiles] > 0
      <==> !IsSetNumber(o.proxyPort) && IsSetText(o.documentRoot)
  {
    if IsSetNumber(o.proxyPort) {
      ProxyLocationNoTryFiles(IntToString(o.proxyPort.value));
    } else if IsSetText(o.documentRoot) {
      RootLocationTryFiles(o.documentRoot.value);
    } else {
      DefaultLocationFacts();
    }
  }

  // ---- Line feeds ----

  /** No line holds a line feed. */
  predicate NoLineFeeds(lines: seq<string>) {
    forall i :: 0 <= i < |lines| ==> '\n' !in lines[i]
  }

  lemma NoLineFeedsAppend(a: seq<string>, b: seq<string>)
    requires NoLineFeeds(a) && NoLineFeeds(b)
    ensures NoLineFeeds(a + b)
  {
    assert forall i :: 0 <= i < |a + b| ==> (a + b)[i] == if i < |a| then a[i] else b[i - |a|];
  }

  lemma OuterNoLineFeed(directive: string)
    requires '\n' !in directive
    ensures '\n' !in Outer(directive)
  {
  }

  lemma InnerNoLineFeed(directive: string)
    requires '\n' !in directive
    ensures '\n' !in Inner(directive)
  {
  }

  lemma ListenNoLineFeeds(d: Domain, o: BlockOptions)
    ensures NoLineFeeds(ListenLines(d, o))
  {
    var p := IntToString(NumberOr(d.port, 80));
    NoLineFeedInNumber(NumberOr(d.port, 80));
    OuterNoLineFeed("listen 443 ssl");
    OuterNoLineFeed("listen [::]:443 ssl");
    OuterNoLineFeed("listen " + p);
    OuterNoLineFeed("listen [::]:" + p);
  }

  lemma SslNoLineFeeds(o: BlockOptions)
    requires o.sslCertPath.Some? ==> '\n' !in o.sslCertPath.value
    requires o.sslKeyPath.Some? ==> '\n' !in o.sslKeyPath.value
    ensures NoLineFeeds(SslLines(o))
  {
    if SslLines(o) != [] {
      OuterNoLineFeed("ssl_certificate " + o.sslCertPath.value);
      OuterNoLineFeed("ssl_certificate_key " + o.sslKeyPath.value);
      OuterNoLineFeed("ssl_protocols TLSv1.2 TLSv1.3");
      OuterNoLineFeed("ssl_ciphers HIGH:!aNULL:!MD5");
    }
  }

  lemma LocationNoLineFeeds(o: BlockOptions)
    requires o.documentRoot.Some? ==> '\n' !in o.documentRoot.value
    ensures NoLineFeeds(LocationLines(o))
  {
    if IsSetNumber(o.proxyPort) {
      NoLineFeedInNumber(o.proxyPort.value);
      ProxyNoLineFeeds(IntToString(o.proxyPort.value));
    } else if IsSetText(o.documentRoot) {
      RootNoLineFeeds(o.documentRoot.value);
    } else {
      DefaultNoLineFeeds();
    }
  }

  lemma ProxyNoLineFeeds(port: string)
    requires '\n' !in port
    ensures NoLineFeeds(ProxyLocation(port))
  {
    ProxyPassNoLineFeed(port);
    ProxyTailNoLineFeeds();
    NoLineFeedsAppend([LocationOpen, ProxyPassLine(port)], ProxyTail);
  }

  lemma ProxyPassNoLineFeed(port: string)
    requires '\n' !in port
    ensures '\n' !in ProxyPassLine(port)
  {
    InnerNoLineFeed("proxy_pass http://127.0.0.1:" + port);
  }

  lemma ProxyHeaderNoLineFeed(name: string, value: string)
    requires '\n' !in name && '\n' !in value
    ensures '\n' !in ProxyHeader(name, value)
  {
    InnerNoLineFeed("proxy_set_header " + name + " " + value);
  }

  lemma ProxyTailNoLineFeeds()
    ensures NoLineFeeds(ProxyTail)
  {
    InnerNoLineFeed("proxy_http_version 1.1");
    ProxyHeaderNoLineFeed("Upgrade", "$http_upgrade");
    ProxyHeaderNoLineFeed("Connection", "'upgrade'");
    ProxyHeaderNoLineFeed("Host", "$host");
    InnerNoLineFeed("proxy_cache_bypass $http_upgrade");
  }

  lemma DefaultNoLineFeeds()
    ensures NoLineFeeds(DefaultLocation)
  {
    ProxyPassNoLineFeed("3000");
    ProxyHeaderNoLineFeed("Host", "$host");
    ProxyHeaderNoLineFeed("X-Real-IP", "$remote_addr");
  }

  lemma RootNoLineFeeds(root: string)
    requires '\n' !in root
    ensures NoLineFeeds(RootLocation(root))
  {
    OuterNoLineFeed("root " + root);
    OuterNoLineFeed("index index.html index.htm");
    InnerNoLineFeed("try_files $uri $uri/ =404");
  }

  /** Joined with line feeds, the block splits back into its lines when
      neither the name nor any path holds a line feed. */
  lemma ServerBlockText(d: Domain, o: BlockOptions)
    requires '\n' !in d.name
    requires o.sslCertPath.Some? ==> '\n' !in o.sslCertPath.value
    requires o.sslKeyPath.Some? ==> '\n' !in o.sslKeyPath.value
    requires o.documentRoot.Some? ==> '\n' !in o.documentRoot.value
    ensures Split(GenerateNginxServerBlock(d, o), '\n') == ServerBlockLines(d, o)
  {
    ListenNoLineFeeds(d, o);
    SslNoLineFeeds(o);
    LocationNoLineFeeds(o);
    OuterNoLineFeed("server_name " + d.name);
    NoLineFeedsAppend([ServerOpen], ListenLines(d, o));
    NoLineFeedsAppend([ServerOpen] + ListenLines(d, o), [ServerNameLine(d.name)]);
    NoLineFeedsAppend(SslLines(o), [""]);
    NoLineFeedsAppend(SslLines(o) + [""], LocationLines(o));
    NoLineFeedsAppend(SslLines(o) + [""] + LocationLines(o), [ServerClose]);
    NoLineFeedsAppend(ServerHead(d, o), ServerTail(o));
    SplitJoin(ServerBlockLines(d, o), '\n');
  }

  lemma NoLineFeedInNumber(n: int)
    ensures '\n' !in IntToString(n)
  {
    var s := if n < 0 then NatToString(-n) else NatToString(n);
    assert forall i :: 0 <= i < |s| ==> IsDigit(s[i]);
  }
}
