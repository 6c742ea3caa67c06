# Local Domain Manager: nginx and hosts-file core in Dafny

Local Domain Manager keeps a list of local development domains and connects them to the
machine in two ways. First, it adds and removes lines in the system hosts file. Second,
it reads and writes nginx configuration. This project models the logic behind both:

- **The nginx configuration parser.** `NginxParser` is a class that holds a text, a cursor
  position, a line and a column. Its methods are modelled as methods of a Dafny class of
  the same shape. Each method is proved against a function that says what it reads
  (`NginxScan`, `NginxGrammar`).
- **The server-block, upstream-block and http-block interpretation** (`NginxModel`).
- **The domain extractor** `extractDomainsFromNginx` (`NginxExtract`).
- **The generators** for one server block, a whole `http { … }` configuration and an
  include file (`NginxGenerate`, `NginxConfigGen`, `NginxInclude`).
- **`compareDomains`** between managed domains and nginx servers (`NginxCompare`).
- **The server-name validator** (`NginxNames`).
- **The import and sync-check reconcilers** (`NginxSync`).
- **The hosts-file logic** (`HostFile`): parsing the file into entries, adding an entry
  and removing the lines of a host.
- **The reverse-proxy location-block generator**, with the defaults that saving a proxy
  configuration applies (`ReverseProxy`).

Supporting modules:

- `Text` holds the JavaScript string operations the source relies on: `trim`, `split` on
  a character, `split(/\s+/)`, `join`, `includes` and decimal rendering.
- `Seqs` holds sequence filtering and subsequences.
- `Wrappers` holds `Option` and `Result`.
- `Domains` holds the managed domain record and the JavaScript truthiness tests the
  generators apply to its optional fields.

### How the source's behaviours are represented

- **Non-termination.** On some inputs the parser's loops repeat forever without moving
  the cursor:
  - a `#` where a value is expected;
  - a `;` or `{` where a directive name is expected;
  - a `}` at the top level;
  - a name, a value and then `{`.

  The grammar functions detect the exact state that repeats and return `Stuck(at)`, or
  `Diverges(at)` at the top level. The parser methods stop in that state and report it.
  Lemmas show that the state is a fixed point of the loop body.
- **Exceptions.** `extractDomainsFromNginx` throws a `TypeError` when a `listen` directive
  with several values contains the single value `:`: it calls `match` on an array. That
  case is modelled as a failed extraction.
- **Truthiness.** `x || d` on a number treats 0 as unset. `x || d` on a string treats `""`
  as unset. Both are modelled explicitly.

## Model

| member | source | states |
|---|---|---|
| NginxParser.Parser.constructor | libs/nginx-parser.ts:41-49 | a new parser holds the text with the cursor at 0, line 1, column 1, and the cursor invariant holds |
| NginxParser.Parser.Advance | libs/nginx-parser.ts:337-345 | the cursor moves one place; the line grows by one and the column resets to 1 exactly when the character passed is a line feed; line and column stay equal to the line count and column of the new position |
| NginxParser.Parser.SkipWhitespace | libs/nginx-parser.ts:312-316 | the cursor ends at the first non-space character at or after it (or the end) |
| NginxParser.Parser.SkipComment | libs/nginx-parser.ts:321-325 | the cursor ends at the next line feed (or the end) |
| NginxParser.Parser.SkipWhitespaceAndComments | libs/nginx-parser.ts:297-307 | the cursor ends at the first character that is neither space nor inside a comment |
| NginxParser.Parser.ParseWord | libs/nginx-parser.ts:238-249 | returns exactly the text between the old cursor and the first space, `;`, `{`, `}` or `#`, and leaves the cursor there |
| NginxParser.Parser.ParseQuotedString | libs/nginx-parser.ts:268-292 | the returned value and the characters consumed agree with the unquoting function (a backslash keeps the next character, the matching quote ends the value, an unterminated string runs to the end) |
| NginxParser.Parser.ParseValue | libs/nginx-parser.ts:254-263 | value and new cursor equal what `ValueAt` reads: a quoted string when the next non-space character is a quote, a word otherwise |
| NginxParser.Parser.ParseDirective | libs/nginx-parser.ts:175-210 | the result equals `DirectiveAt` of the old cursor: null when no name starts there, a block directive with value `""` after `{`, otherwise the collected values (one value as a scalar), or the stall point where the source would loop forever |
| NginxParser.Parser.ParseAfterName | libs/nginx-parser.ts:181-209 | after the name, dispatches on `{`: a block directive or a leaf directive, as the grammar says |
| NginxParser.Parser.ParseBlockAfter | libs/nginx-parser.ts:184-188 | consumes `{` and the block body, returning the block directive the grammar describes |
| NginxParser.Parser.ParseLeaf | libs/nginx-parser.ts:190-209 | collects values up to `;`, `{`, `}` or the end and consumes a following `;`, as `LeafAfter` says |
| NginxParser.Parser.ParseValues | libs/nginx-parser.ts:191-199 | the value loop's result and final cursor equal `ValuesFrom`; empty values are dropped; stalls exactly where a `#` stops the loop from advancing |
| NginxParser.Parser.ParseBlock | libs/nginx-parser.ts:215-233 | the directives of a block up to its `}` (or the end), equal to `BlockFrom` |
| NginxParser.Parser.ParseHttpBlock | libs/nginx-parser.ts:93-103 | the configuration after the loop over an `http` body equals `HttpFold`: each `server` and `upstream` block that yields a record is appended, other directives are ignored |
| NginxParser.Parser.ParseServerBlock | libs/nginx-parser.ts:108-149 | the record built by the switch loop equals `ServerOf`: `ServerFold` of the directives, or none without a server name |
| NginxParser.Parser.ParseUpstreamBlock | libs/nginx-parser.ts:154-170 | the pool built by the loop equals `UpstreamOf`: `server` values and other directives collected in order, or none without a `server` |
| NginxParser.Parser.Parse | libs/nginx-parser.ts:54-88 | the configuration equals `ParseFrom` of the old cursor |
| NginxParser.ParseNginxConfig | libs/nginx-parser.ts:411-414 | returns `ParseConfig(content)`, and a parsed configuration is well formed (every server has a name, every upstream a server) |
| NginxScan.WsEnd | libs/nginx-parser.ts:312-316 | the position reached lies after a run of spaces only and stops at a non-space or the end |
| NginxScan.WordEnd | libs/nginx-parser.ts:238-249 | the position reached lies after a run of non-stop characters and stops at a stop character or the end |
| NginxScan.LineEnd | libs/nginx-parser.ts:321-325 | the position reached lies after a run without line feeds and stops at a line feed or the end |
| NginxScan.SkipTrivia | libs/nginx-parser.ts:297-307 | the position reached is the end or a character that is neither a space nor `#` |
| NginxScan.SkipTriviaIdempotent | libs/nginx-parser.ts:297-307 | skipping trivia twice is the same as once |
| NginxScan.WordShape | libs/nginx-parser.ts:238-249 | a word has no stop character, and it is empty exactly when the cursor is at the end or on a stop character |
| NginxScan.Unquote | libs/nginx-parser.ts:268-292 | the unquoted value is no longer than the characters consumed, which are no more than the input |
| NginxScan.UnquoteEscape | libs/nginx-parser.ts:268-292 | round trip: any value, escaped (backslash before quote and backslash) and closed by the quote, unquotes back to itself, consuming exactly the escaped text and the quote |
| NginxScan.UnquoteUnterminated | libs/nginx-parser.ts:273-289 | with no quote and no backslash, the whole rest of the text is the value |
| NginxScan.ValueAt | libs/nginx-parser.ts:254-263 | reading a value never moves the cursor backwards or past the end |
| NginxScan.ValueStalls | libs/nginx-parser.ts:192-199 | at a character that keeps the value loop running, the loop makes no progress exactly when that character is `#` |
| NginxScan.LineStart | libs/nginx-parser.ts:337-345 | the start of the current line is at or before the position, follows a line feed (or is 0), and no line feed lies between |
| NginxScan.LineAtCountsLineFeeds | libs/nginx-parser.ts:337-345 | the line number is one plus the number of line feeds before the position |
| NginxScan.ColumnAtSinceLineStart | libs/nginx-parser.ts:337-345 | the column is one plus the distance from the start of the line |
| NginxGrammar.ValuesFrom | libs/nginx-parser.ts:191-199 | the loop ends at `;`, `{`, `}` or the end and only appends to what it had; a stall happens at a `#` where the value read is empty and no space is skipped |
| NginxGrammar.ValuesNonEmpty | libs/nginx-parser.ts:196-197 | no collected value is the empty string |
| NginxGrammar.ValueOf | libs/nginx-parser.ts:206-209 | exactly one value becomes a scalar holding it; any other count becomes the list of values |
| NginxGrammar.DirectiveAt | libs/nginx-parser.ts:175-210 | a directive always consumes something past the trivia; a stall is at a state where a loop of the source repeats |
| NginxGrammar.BlockDirective | libs/nginx-parser.ts:184-188 | a block directive is always present and ends after its `{` |
| NginxGrammar.LeafAfter | libs/nginx-parser.ts:190-209 | a leaf directive is always present; it stalls only where the value loop stalls |
| NginxGrammar.BlockFrom | libs/nginx-parser.ts:215-233 | a block only appends directives and stalls only at a repeating state |
| NginxGrammar.ParseFrom | libs/nginx-parser.ts:63-88 | the top-level loop diverges only at a stalled value loop, at `;`/`{` where a name is expected, or at a `}` |
| NginxGrammar.DirectiveLoopFixedPoint | libs/nginx-parser.ts:176-179 | at `;`, `{` or `}` no trivia is skipped and the directive is null with the cursor unchanged, so the calling loop repeats forever |
| NginxGrammar.DirectiveNull | libs/nginx-parser.ts:176-179 | the directive is null exactly when, after trivia, the text ends or is at `;`, `{` or `}` |
| NginxGrammar.DirectiveName | libs/nginx-parser.ts:178-179 | a directive's name is the non-empty word after the trivia |
| NginxGrammar.DirectiveBlock | libs/nginx-parser.ts:181-188 | a directive has a block exactly when `{` follows its name after spaces, and then its value is `""` |
| NginxGrammar.DirectiveLeaf | libs/nginx-parser.ts:190-209 | a leaf directive has only non-empty values and ends after `;` or just before `{`, `}` or the end |
| NginxGrammar.LeafShape | libs/nginx-parser.ts:190-209 | a leaf directive keeps its name and has the shape above |
| NginxGrammar.ParseFromWellFormed | libs/nginx-parser.ts:76-81 | the configuration built keeps every server with a name and every upstream with a server |
| NginxGrammar.ParseConfigWellFormed | libs/nginx-parser.ts:411-414 | a parsed configuration is well formed |
| NginxGrammar.ParseConfig | libs/nginx-parser.ts:411-414 | the outcome of parsing a whole text from position 0 with the empty configuration (definition; `ParseFrom`, `ParseFromWellFormed` and `ParseConfigWellFormed` state its properties) |
| NginxGrammar.DirectiveAtAfterTrivia | libs/nginx-parser.ts:175-176 | reading a directive after the trivia equals reading it before |
| NginxGrammar.LeafBeforeBrace | libs/nginx-parser.ts:192-195 | a leaf directive stopped by `{` makes both the block loop and the top-level loop stall there (for example `x y {`) |
| NginxGrammar.QuotedDirective | libs/nginx-parser.ts:175-210 | `name "v";` with any escaped `v` parses to that name and value (an empty quoted value gives an empty list) and ends after the `;` |
| NginxGrammar.NameThenValue | libs/nginx-parser.ts:178-199 | a name, a space and a non-brace character is read as a leaf directive with that name |
| NginxGrammar.QuotedLeaf | libs/nginx-parser.ts:190-209 | a quoted value and `;` make a leaf directive with that value |
| NginxGrammar.QuotedValues | libs/nginx-parser.ts:191-199 | the value loop over a quoted value stops before the `;` with just that value |
| NginxGrammar.ValueAtQuoted | libs/nginx-parser.ts:254-263 | a quoted value is read back whole and the cursor lands just after its closing quote |
| NginxModel.LastNamed | libs/nginx-parser.ts:116-146 | the index of the last directive with a given name, or -1 when none has it |
| NginxModel.ServerStepFields | libs/nginx-parser.ts:116-145 | one directive sets the name list, root or ssl paths it names, or appends to listens, locations (only with a block) or the other directives; every other field is unchanged |
| NginxModel.ServerLastWins | libs/nginx-parser.ts:118-134 | server names, root and both ssl paths come from the last directive of that name |
| NginxModel.ServerListenInOrder | libs/nginx-parser.ts:123-125 | listens are the values of all `listen` directives, in order |
| NginxModel.ServerLocationsInOrder | libs/nginx-parser.ts:135-142 | locations are the `location` directives that have a block, in order |
| NginxModel.ServerOthersInOrder | libs/nginx-parser.ts:143-145 | the other directives are those with none of the six handled names, in order |
| NginxModel.ServerOfNull | libs/nginx-parser.ts:148 | a server block is dropped exactly when it has no `server_name` or the last one yields no names |
| NginxModel.UpstreamShape | libs/nginx-parser.ts:154-167 | an upstream keeps its name, its `server` values in order and all other directives in order |
| NginxModel.UpstreamOfNull | libs/nginx-parser.ts:169 | an upstream is dropped exactly when it has no `server` directive |
| NginxModel.HttpFoldWellFormed | libs/nginx-parser.ts:93-103 | the http-block pass keeps the configuration well formed |
| NginxModel.TopStepWellFormed | libs/nginx-parser.ts:70-84 | one top-level directive keeps the configuration well formed |
| NginxModel.ServerFold | libs/nginx-parser.ts:116-146 | the server record after the switch has seen the directives in order (definition; `ServerLastWins`, `ServerListenInOrder`, `ServerLocationsInOrder` and `ServerOthersInOrder` characterise it) |
| NginxModel.ServerOf | libs/nginx-parser.ts:108-149 | the record, or none when it has no server name (definition; `ServerOfNull` characterises when it is none) |
| NginxModel.UpstreamOf | libs/nginx-parser.ts:154-170 | the pool, or none when it has no `server` (definition; `UpstreamShape` and `UpstreamOfNull` characterise it) |
| NginxModel.HttpFold | libs/nginx-parser.ts:93-103 | the configuration after the `http` body's servers and upstreams are appended in order (definition; `HttpFoldWellFormed` states what it preserves) |
| NginxModel.TopStep | libs/nginx-parser.ts:70-84 | what one top-level directive does to the configuration: `http` body recorded and folded, `events` recorded, server or upstream appended, anything else kept in `main` (definition; `TopStepWellFormed` states what it preserves) |
| NginxExtract.DigitRun | libs/nginx-parser.ts:380 | the longest digit prefix |
| NginxExtract.FirstColonDigit | libs/nginx-parser.ts:380 | the first `:` followed by a digit at or after a position, or -1 |
| NginxExtract.ColonDigits | libs/nginx-parser.ts:380-381 | `/:(\d+)/` matches exactly when some `:` is followed by a digit, and the capture is a non-empty digit run |
| NginxExtract.HostRun | libs/nginx-parser.ts:390 | the longest prefix without `/` |
| NginxExtract.FirstHttp | libs/nginx-parser.ts:390 | the first `http://` followed by a non-slash, or -1 |
| NginxExtract.HttpHost | libs/nginx-parser.ts:390-391 | `/http:\/\/([^\/]+)/` matches exactly when some `http://` is followed by a non-slash; the host is non-empty, slash-free and occurs after `http://` |
| NginxExtract.ListenThrowsSpec | libs/nginx-parser.ts:375-383 | the listen loop throws exactly when some listen is a value list, not TLS, holding the element `:` |
| NginxExtract.ListenSslSpec | libs/nginx-parser.ts:375-378 | ssl is set exactly when some listen mentions `443` or `ssl` |
| NginxExtract.ListenPortSpec | libs/nginx-parser.ts:372-383 | the port is 80 when no listen gives one, otherwise the port given by the last listen that gives one |
| NginxExtract.ListenPortDefault | libs/nginx-parser.ts:372 | no listen gives a port: the port is 80 |
| NginxExtract.ListenPortLast | libs/nginx-parser.ts:375-383 | the last listen that gives a port decides it |
| NginxExtract.FirstNamed | libs/nginx-parser.ts:388 | the index of the first directive with a name, or -1 |
| NginxExtract.LastGivenSpec | libs/nginx-parser.ts:386-393 | a later value overrides an earlier one; nothing is found exactly when no element gives a value |
| NginxExtract.ProxyUpstreamSpec | libs/nginx-parser.ts:386-393 | the upstream is that of the last location whose first `proxy_pass` is a string matching `http://host`; none when no location gives one |
| NginxExtract.NamesFactsSpec | libs/nginx-parser.ts:367-402 | a server throws exactly when it has a kept name (not `_`, no `*`) and its listens throw; otherwise one fact per kept name, in order, with the server's port, ssl, upstream and root |
| NginxExtract.NamesFactsFail | libs/nginx-parser.ts:367-383 | the failing half of the above |
| NginxExtract.NamesFactsValues | libs/nginx-parser.ts:367-402 | the fact-per-kept-name half of the above |
| NginxExtract.ExtractSpec | libs/nginx-parser.ts:351-406 | extraction fails exactly when some server fails; otherwise the names are the kept names of all servers, in order |
| NginxExtract.ExtractFails | libs/nginx-parser.ts:366-405 | the failing half of the above |
| NginxExtract.ExtractNames | libs/nginx-parser.ts:366-405 | the names half of the above |
| NginxExtract.ServerFactNames | libs/nginx-parser.ts:367-369 | one server's fact names are its kept names |
| NginxExtract.ScanListen | libs/nginx-parser.ts:372-383 | the listen loop returns the fold's port and ssl, or reports the throw |
| NginxExtract.ThrowsStays | libs/nginx-parser.ts:375-383 | once the listen loop has thrown, later listens do not matter |
| NginxExtract.FindUpstream | libs/nginx-parser.ts:386-393 | the location loop returns `ProxyUpstream` |
| NginxExtract.ExtractDomainsFromNginx | libs/nginx-parser.ts:351-406 | the nested loops return `Extract(config)` |
| NginxExtract.ServerDomains | libs/nginx-parser.ts:367-402 | the inner loop for one server throws exactly when `ServerFacts` fails, else returns its facts |
| NginxExtract.NamesThrow | libs/nginx-parser.ts:376-381 | a kept name on a server whose listens throw makes the server throw |
| NginxExtract.ServerThrowMakesExtractThrow | libs/nginx-parser.ts:366-405 | one throwing server makes the whole extraction throw |
| NginxExtract.ParseNginxConfigForDomains | libs/nginx-parser.ts:419-422 | parse then extract: divergence, a throw or the facts |
| NginxExtract.ProxyUpstream | libs/nginx-parser.ts:386-393 | the upstream host of a server's locations (definition; `ProxyUpstreamSpec` characterises it) |
| NginxExtract.ServerFacts | libs/nginx-parser.ts:367-402 | the facts of one server's kept names, or failure (definition; `NamesFactsSpec` and `ServerFactNames` characterise it) |
| NginxExtract.Extract | libs/nginx-parser.ts:351-406 | the facts of all servers in order, or failure (definition; `ExtractSpec` characterises it) |
| NginxExtract.FactNames | libs/nginx-integration-example.ts:53 | the names of the extracted facts, in order |
| NginxGenerate.ServerBlockFrame | libs/nginx-utils.ts:18-30 | a server block has at least ten lines: `server {`, two listen lines, the `server_name` line, …, `}` |
| NginxGenerate.ListenLinesSpec | libs/nginx-utils.ts:21-27 | with SSL, listens on 443 ssl (IPv4 and IPv6); otherwise on the domain's port, or 80 when the port is unset or 0 |
| NginxGenerate.SslProtocolsCount | libs/nginx-utils.ts:33-39 | the SSL lines hold `ssl_protocols` exactly when SSL is on and both paths are non-empty |
| NginxGenerate.SslGroupIff | libs/nginx-utils.ts:33-39 | the block holds `ssl_protocols` exactly when SSL is on and both certificate paths are non-empty |
| NginxGenerate.SslProtocolsOnlyInGroup | libs/nginx-utils.ts:33-39 | `ssl_protocols` occurs in the block only inside the SSL group |
| NginxGenerate.ServerNameOnce | libs/nginx-utils.ts:30 | the `server_name` line occurs exactly once |
| NginxGenerate.OneLocation | libs/nginx-utils.ts:41-66 | the block opens exactly one `location /` |
| NginxGenerate.LocationOpenOnce | libs/nginx-utils.ts:41-66 | each of the three location variants opens `location /` exactly once |
| NginxGenerate.LocationPriority | libs/nginx-utils.ts:43-66 | a proxy port wins (its `proxy_pass` is present); `try_files` is present exactly when there is no proxy port but a document root, and then the `root` line is too; with neither, the port-3000 default proxy is used |
| NginxGenerate.TryFilesIff | libs/nginx-utils.ts:52-58 | `try_files` is in the block exactly when the root variant is chosen |
| NginxGenerate.TryFilesOnlyInLocation | libs/nginx-utils.ts:56-58 | `try_files` occurs only in the location section |
| NginxGenerate.LocationTryFiles | libs/nginx-utils.ts:43-66 | the location lines hold `try_files` exactly when the root variant is chosen |
| NginxGenerate.ServerBlockParts | libs/nginx-utils.ts:18-68 | the block is open, listens, name, SSL group, blank, location section, close, in that order |
| NginxGenerate.CountParts | libs/nginx-utils.ts:18-68 | a line's occurrences in the block are the sum of its occurrences in the parts |
| NginxGenerate.ProxyLocationPass | libs/nginx-utils.ts:44-51 | the proxy variant passes to `127.0.0.1` on the given port |
| NginxGenerate.RootLocationTryFiles | libs/nginx-utils.ts:52-58 | the root variant serves the root with `try_files` |
| NginxGenerate.DefaultLocationFacts | libs/nginx-utils.ts:59-66 | the default variant opens one location, passes to port 3000 and has no `try_files` |
| NginxGenerate.ServerBlockText | libs/nginx-utils.ts:68-70 | when the name and paths have no line feed, splitting the joined text on line feeds gives back exactly the block's lines |
| NginxGenerate.NoLineFeedInNumber | libs/nginx-utils.ts:25 | a rendered port never contains a line feed |
| NginxGenerate.LocationLines | libs/nginx-utils.ts:42-66 | the location section of a server block (definition; `LocationPriority`, `ProxyLocationPass`, `RootLocationTryFiles` and `DefaultLocationFacts` characterise it) |
| NginxGenerate.ServerBlockLines | libs/nginx-utils.ts:18-68 | the lines a server block pushes (definition; `ServerBlockFrame`, `ServerBlockParts`, `ListenLinesSpec` and `SslGroupIff` characterise it) |
| NginxGenerate.GenerateNginxServerBlock | libs/nginx-utils.ts:11-71 | the server block text: its lines joined by line feeds (definition; `ServerBlockText` shows the lines are recovered from it) |
| NginxConfigGen.ParentOf | libs/nginx-utils.ts:125 | the first root domain with the id, or none when no root has it |
| NginxConfigGen.GroupIndex | libs/nginx-utils.ts:127 | the group of a parent name, or -1 when the map has no such key |
| NginxConfigGen.GroupsSpec | libs/nginx-utils.ts:121-132 | the upstream map has one group per parent name with at least one active subdomain, no name twice, and each group holds exactly that parent's subdomains in list order |
| NginxConfigGen.FaithfulAppend | libs/nginx-utils.ts:127-130 | a subdomain of a new parent adds a new group at the end and keeps the map faithful |
| NginxConfigGen.FaithfulUpdate | libs/nginx-utils.ts:130 | a subdomain of a known parent is appended to that group and keeps the map faithful |
| NginxConfigGen.GroupSubdomains | libs/nginx-utils.ts:124-132 | the grouping loop returns `GroupsOf` |
| NginxConfigGen.MemberLines | libs/nginx-utils.ts:137-139 | one `server` line per member |
| NginxConfigGen.PushUpstreams | libs/nginx-utils.ts:135-142 | appends one upstream block per group, in map order |
| NginxConfigGen.PushMembers | libs/nginx-utils.ts:137-139 | appends one `server 127.0.0.1:port` line per member |
| NginxConfigGen.PushServers | libs/nginx-utils.ts:146-151 | appends each server text followed by a blank line |
| NginxConfigGen.GenerateNginxConfig | libs/nginx-utils.ts:76-156 | the text is the configuration lines joined by line feeds |
| NginxConfigGen.ConfigIgnoresInactive | libs/nginx-utils.ts:113 | inactive domains have no effect on the configuration |
| NginxConfigGen.ConfigFrame | libs/nginx-utils.ts:83-153 | the configuration opens with `http {` and closes with `}` |
| NginxConfigGen.ServerSectionSpec | libs/nginx-utils.ts:146-151 | the server section alternates each server text with a blank line |
| NginxConfigGen.ServerProxyPort | libs/nginx-utils.ts:147-149 | each server proxies to the domain's port, else the default proxy port, else 3000 |
| NginxConfigGen.IndentEach | libs/nginx-utils.ts:149 | each line gets four leading spaces |
| NginxConfigGen.IndentJoin | libs/nginx-utils.ts:149 | prefixing and joining with a line feed and four spaces indents every line |
| NginxConfigGen.IndentLines | libs/nginx-utils.ts:149 | the lines of the indented block are the block's lines, each indented |
| NginxConfigGen.ConfigLines | libs/nginx-utils.ts:76-155 | the lines of the whole configuration (definition; `ConfigFrame`, `GroupsSpec`, `ServerSectionSpec` and `ConfigIgnoresInactive` characterise it) |
| NginxInclude.GenerateNginxInclude | libs/nginx-utils.ts:227-249 | the text is the header and one chunk per active domain, joined by line feeds |
| NginxInclude.DomainChunk | libs/nginx-utils.ts:240-245 | a domain's chunk is its name comment, its description comment when set, its server block and a blank line |
| NginxInclude.IncludeHeaderSpec | libs/nginx-utils.ts:229-237 | the header gives the date and the number of active domains |
| NginxInclude.IncludeIgnoresInactive | libs/nginx-utils.ts:228 | inactive domains have no effect |
| NginxInclude.IncludeChunkSpec | libs/nginx-utils.ts:240-245 | a chunk has three lines, or four with a description; name comment first, server block with no options, then a blank line |
| NginxInclude.IncludeBodyAppend | libs/nginx-utils.ts:239-246 | the body of two lists is the body of each, in order |
| NginxInclude.IncludeLines | libs/nginx-utils.ts:227-248 | the header and the chunks of the active domains (definition; `IncludeHeaderSpec`, `IncludeChunkSpec` and `IncludeIgnoresInactive` characterise it) |
| NginxCompare.MatchIndex | libs/nginx-utils.ts:177-179 | the first server whose names include the domain name, or -1 when none does |
| NginxCompare.WithoutId | libs/nginx-utils.ts:188 | no domain left has the removed id |
| NginxCompare.PairedIndices | libs/nginx-utils.ts:177-181 | exactly the server indices some visited domain matched |
| NginxCompare.CompareDomains | libs/nginx-utils.ts:161-194 | the loop returns the as-written comparison (`CompareFrom`) |
| NginxCompare.InBothSpec | libs/nginx-utils.ts:181-185 | the pairs are the domains with a matching server, in order, each with the first server naming it |
| NginxCompare.OnlyInManagerSpec | libs/nginx-utils.ts:171-188 | the managed-only list is the managed list without every id carried by a matched domain |
| NginxCompare.WithoutIdStep | libs/nginx-utils.ts:188 | removing ids one at a time is removing the set |
| NginxCompare.WithoutIdsSpec | libs/nginx-utils.ts:188 | removing ids keeps the order and keeps exactly the domains whose id is not removed |
| NginxCompare.MatchedIdsSpec | libs/nginx-utils.ts:176-190 | an id is removed exactly when a visited domain with that id has a server |
| NginxCompare.OnlyInNginxSubseq | libs/nginx-utils.ts:172-189 | as written, the nginx-only list is still a subsequence of the servers |
| NginxCompare.KeptIndices | libs/nginx-utils.ts:189 | the ascending indices below n that are not paired |
| NginxCompare.ServersAt | libs/nginx-utils.ts:189 | the servers at the given indices |
| NginxCompare.CompareDomainsFixed | libs/nginx-utils.ts:161-194 | the corrected loop returns `CompareFixed` |
| NginxCompare.Unpaired | libs/nginx-utils.ts:189 | the unpaired servers, in order |
| NginxCompare.FixedPartition | libs/nginx-utils.ts:172-189 | corrected: the nginx-only list is exactly the servers no managed domain matched, in their original order |
| NginxCompare.CompareFrom | libs/nginx-utils.ts:169-191 | the comparison as written after the first `n` managed domains, splice included (definition; `InBothSpec`, `OnlyInManagerSpec` and `OnlyInNginxSubseq` characterise it) |
| NginxCompare.CompareFixed | libs/nginx-utils.ts:169-191 | the corrected comparison: the nginx-only list is the unpaired servers (definition; `FixedPartition` characterises it) |
| NginxCompare.ExampleMatches | libs/nginx-utils.ts:177-179 | in the finding's example, A matches server 0 and B matches server 1 |
| NginxCompare.SpliceShiftCounterexample | libs/nginx-utils.ts:189 | as written, matching servers 0 then 1 leaves `[ServerB]` as nginx-only, a matched server, and drops the unmatched `ServerC` |
| NginxCompare.SpliceShiftFixed | libs/nginx-utils.ts:189 | corrected, the same input leaves `[ServerC]` |
| NginxNames.IsValidNginxServerName | libs/nginx-utils.ts:199-222 | the method returns exactly the three tests in order: the character class, at least two dot-separated parts, and each part 1 to 63 characters not starting or ending with `-` |
| NginxNames.ValidIffDotted | libs/nginx-utils.ts:199-222 | a name is valid exactly when it is two or more host-name labels joined by dots |
| NginxNames.ValidNameIsDotted | libs/nginx-utils.ts:199-222 | a valid name's parts are labels of letters, digits and hyphens |
| NginxNames.DottedNameIsValid | libs/nginx-utils.ts:199-222 | labels joined by dots pass all three tests |
| NginxNames.ValidNameEdges | libs/nginx-utils.ts:206-218 | a valid name neither starts nor ends with a dot or hyphen and has no two dots in a row |
| NginxSync.ImportedDomain | libs/nginx-integration-example.ts:17-33 | an imported domain has id 0, ip `127.0.0.1`, the nginx name and port, is active, has no parent, has category HTTPS exactly for ssl, and is stamped with the given time |
| NginxSync.ImportFacts | libs/nginx-integration-example.ts:17-33 | one imported domain per fact, in order |
| NginxSync.ImportFromNginx | libs/nginx-integration-example.ts:12-36 | import succeeds exactly when parsing and extraction do, with one domain per extracted fact, and diverges exactly when the parser would |
| NginxSync.ImportedProxy | libs/nginx-integration-example.ts:23-29 | a proxied fact yields the `proxy` tag and a `(proxy to …)` description, and a static one the `static` tag and the plain description |
| NginxSync.ImportTagsDecode | libs/nginx-integration-example.ts:25-29 | the tags JSON starts with `nginx-import` and its second and third entries tell back ssl and proxied |
| NginxSync.DomainNames | libs/nginx-integration-example.ts:52 | the managed names, in order |
| NginxSync.MissingInNginxMembers | libs/nginx-integration-example.ts:60-64 | a name is missing in nginx exactly when a managed domain has it and no nginx entry does |
| NginxSync.FactIndex | libs/nginx-integration-example.ts:61 | the first nginx entry with the name, or -1 |
| NginxSync.ManagedIndex | libs/nginx-integration-example.ts:68 | the first managed domain with the name, or -1 |
| NginxSync.SyncFacts | libs/nginx-integration-example.ts:51-80 | the report built by the two loops equals `SyncOf` |
| NginxSync.CheckManaged | libs/nginx-integration-example.ts:60-64 | the first loop returns the managed names missing in nginx |
| NginxSync.SyncCheck | libs/nginx-integration-example.ts:48-81 | a report exists exactly when parsing and extraction succeed, and it is `SyncOf` the extracted facts |
| NginxSync.SyncOf | libs/nginx-integration-example.ts:51-78 | the report: both name lists, the two missing lists and the port mismatches (definition; the lemmas below characterise each field) |
| NginxSync.MissingInNginxSpec | libs/nginx-integration-example.ts:60-64 | a name is missing in nginx exactly when a managed domain has it and no nginx entry does, and the list is the managed names in managed order, repetitions included, that no nginx entry carries |
| NginxSync.MissingInManagerSpec | libs/nginx-integration-example.ts:67-71 | a name is missing in the manager exactly when an nginx entry has it and no managed domain does, and the list is the nginx names in extracted order, repetitions included, that no managed domain carries |
| NginxSync.MissingInNginxOrder | libs/nginx-integration-example.ts:60-64 | `missing_in_nginx` is the managed names filtered by the absence of an nginx entry, in managed order with repetitions |
| NginxSync.MissingInManagerMembers | libs/nginx-integration-example.ts:67-71 | a name is missing in the manager exactly when an nginx entry has it and no managed domain does |
| NginxSync.MissingInManagerOrder | libs/nginx-integration-example.ts:67-71 | `missing_in_manager` is the nginx names filtered by the absence of a managed domain, in extracted order with repetitions |
| NginxSync.SyncMissingLists | libs/nginx-integration-example.ts:59-71 | in the report, both missing lists are the respective name lists filtered, order and repetitions kept |
| NginxSync.PortMismatchesComplete | libs/nginx-integration-example.ts:71-77 | every nginx entry whose first managed namesake has a different port (unset or 0 read as 80) is reported |
| NginxSync.PortMismatchesSound | libs/nginx-integration-example.ts:71-77 | every reported mismatch has different ports, comes from an nginx entry with that name and port, and carries the first managed namesake's port |
| NginxSync.SyncDisjoint | libs/nginx-integration-example.ts:67-78 | no name is both missing in the manager and port-mismatched |
| NginxSync.ImportThenSync | libs/nginx-integration-example.ts:12-81 | importing facts and sync-checking them against the same facts reports nothing missing and no mismatch, and both name lists agree |
| NginxSync.NoneMissingInNginx | libs/nginx-integration-example.ts:60-64 | lists with the same names pointwise have nothing missing in nginx |
| NginxSync.NoneMissingInManager | libs/nginx-integration-example.ts:67-71 | lists with the same names pointwise have nothing missing in the manager |
| NginxSync.NoMismatches | libs/nginx-integration-example.ts:71-77 | same names and same non-zero ports pointwise give no mismatch |
| ReverseProxy.SaveDefaults | src/db/services/reverse-proxy.service.ts:51-60 | the record keeps domain, target and headers; host defaults to `$host` when empty; websocket and cache are on only when given true; active unless given false; an empty custom configuration is stored as none |
| ReverseProxy.SaveIdempotent | src/db/services/reverse-proxy.service.ts:51-60 | saving a saved record again changes nothing |
| ReverseProxy.SaveKeepsBlock | src/db/services/reverse-proxy.service.ts:51-60 | the defaults applied on save do not change the location block the form would produce |
| ReverseProxy.SavedHostDefault | src/db/services/reverse-proxy.service.ts:54 | a form without a host produces `proxy_set_header Host $host;` |
| ReverseProxy.HostLine | src/db/services/reverse-proxy.service.ts:124 | the host header uses the configured host, or `$host` when it is empty |
| ReverseProxy.HeaderLines | src/db/services/reverse-proxy.service.ts:130-139 | one `proxy_set_header` line per extra header, in order |
| ReverseProxy.CustomLines | src/db/services/reverse-proxy.service.ts:170-174 | never more custom lines than input lines |
| ReverseProxy.GenerateLocationBlock | src/db/services/reverse-proxy.service.ts:117-180 | the text is the location lines joined by line feeds |
| ReverseProxy.PushBase | src/db/services/reverse-proxy.service.ts:118-164 | the pushes before the custom section build the fixed lines, headers, websocket, cache and timeout parts |
| ReverseProxy.PushHeaders | src/db/services/reverse-proxy.service.ts:133-135 | appends one header line per pair |
| ReverseProxy.PushCustom | src/db/services/reverse-proxy.service.ts:170-174 | appends each non-blank custom line, trimmed and indented |
| ReverseProxy.LocationFrame | src/db/services/reverse-proxy.service.ts:118-179 | the text starts with `location / {` and ends with the closing brace; the second and third lines are `proxy_pass` and the host header |
| ReverseProxy.LocationEnds | src/db/services/reverse-proxy.service.ts:118-177 | at least twelve lines: open, `proxy_pass`, host header, …, close |
| ReverseProxy.HeaderSection | src/db/services/reverse-proxy.service.ts:129-139 | the extra headers come right after the four fixed headers; without them, a blank line does |
| ReverseProxy.TimeoutsAlways | src/db/services/reverse-proxy.service.ts:159-164 | the timeout group always ends the base lines |
| ReverseProxy.WebsocketIff | src/db/services/reverse-proxy.service.ts:141-148 | the websocket comment is present exactly when websocket support is on |
| ReverseProxy.NoCacheIff | src/db/services/reverse-proxy.service.ts:150-157 | the disable-caching comment is present exactly when caching is off |
| ReverseProxy.CommentOrigin | src/db/services/reverse-proxy.service.ts:141-164 | every comment line in the base lines is the websocket comment (websocket on), the cache comment (cache off) or the timeouts comment |
| ReverseProxy.Indented | src/db/services/reverse-proxy.service.ts:172 | each line trimmed and indented by eight spaces |
| ReverseProxy.CustomLinesSpec | src/db/services/reverse-proxy.service.ts:170-174 | the custom lines are the non-blank lines, in order, trimmed and indented |
| ReverseProxy.CustomSectionSpec | src/db/services/reverse-proxy.service.ts:167-175 | a non-empty custom configuration adds a blank line, its comment and its non-blank lines; otherwise nothing |
| ReverseProxy.LocationLines | src/db/services/reverse-proxy.service.ts:118-178 | the lines of the location block (definition; `LocationFrame`, `HeaderSection`, `WebsocketIff`, `NoCacheIff` and `CustomSectionSpec` characterise it) |
| HostFile.CommentIndex | electron/main/host-file.service.ts:51 | the first host word containing `#`, or -1 |
| HostFile.EntriesFor | electron/main/host-file.service.ts:57-63 | one entry per host name, with the line's ip and comment |
| HostFile.PushEntries | electron/main/host-file.service.ts:57-63 | appends one entry per host name |
| HostFile.ParseHostFile | electron/main/host-file.service.ts:33-69 | the entries of the file, line by line |
| HostFile.ParseLines | electron/main/host-file.service.ts:38-66 | the line loop returns the entries of all lines, in order |
| HostFile.LineEntries | electron/main/host-file.service.ts:39-65 | the entries of one line (definition; `EntriesFor`, `CommentIndex`, `LineEntryHost` and `LineHostNoHash` characterise it) |
| HostFile.HostEntries | electron/main/host-file.service.ts:33-69 | the entries of every line of the text, in order (definition; `ParseHostFile` computes it) |
| HostFile.LineHostNoHash | electron/main/host-file.service.ts:51-63 | no host name read from a line contains `#` |
| HostFile.HostsNoHash | electron/main/host-file.service.ts:33-69 | no entry of a parsed file has a host name containing `#` |
| HostFile.PushLine | electron/main/host-file.service.ts:39-65 | appends the entries of one line |
| HostFile.CommentText | electron/main/host-file.service.ts:92 | the given comment, or the dated default when it is empty |
| HostFile.HostExists | electron/main/host-file.service.ts:71-79 | some parsed entry has the host name, and an unreadable file gives false (definition; `AddThenExists` and `RemoveThenAbsent` use it) |
| HostFile.AddHostEntry | electron/main/host-file.service.ts:71-106 | fails with `Host entry for … already exists` exactly when the readable file has an entry for the host; otherwise appends `\nip\thost\t# comment` |
| HostFile.AddThenExists | electron/main/host-file.service.ts:81-93 | after a successful add, the host is found in the file |
| HostFile.NewEntryLast | electron/main/host-file.service.ts:93 | the appended line gives the file's last entry, for the added host |
| HostFile.AppendedLine | electron/main/host-file.service.ts:93 | appending a line feed and a line adds that line's entries after the old ones |
| HostFile.AddedLineEntries | electron/main/host-file.service.ts:47-59 | the appended line parses to exactly one entry, for the given ip and host |
| HostFile.LineEntriesOneHost | electron/main/host-file.service.ts:47-59 | a line whose third word starts the comment gives one entry |
| HostFile.RemoveHostEntry | electron/main/host-file.service.ts:108-129 | the new content keeps the lines the filter keeps, joined by line feeds |
| HostFile.KeptLines | electron/main/host-file.service.ts:114-127 | the filter loop keeps exactly the lines `KeepLine` accepts, in order |
| HostFile.KeepsLine | electron/main/host-file.service.ts:114-127 | the filter as written (definition; `LineKept` computes it and `KeptLineHasNoHost` relates it to the entries) |
| HostFile.RemoveHostText | electron/main/host-file.service.ts:111-129 | the text after removal: the kept lines joined by line feeds (definition; `RemoveThenAbsent`, `RemoveIdempotent` and `RemoveKeepsOrder` characterise it) |
| HostFile.LineKept | electron/main/host-file.service.ts:115-126 | a line is kept when blank, a comment, a single word, or when the host is not among its words after the first |
| HostFile.SplitFilterJoin | electron/main/host-file.service.ts:129 | splitting the written content gives back the kept lines (or one empty line when none is kept) |
| HostFile.FilterTextTwice | electron/main/host-file.service.ts:114-129 | filtering twice is filtering once when empty lines are kept |
| HostFile.EntryFromLine | electron/main/host-file.service.ts:38-66 | every entry comes from one line of the file |
| HostFile.LineEntryHost | electron/main/host-file.service.ts:42-63 | an entry's host is a word after the first of a non-comment line |
| HostFile.KeptLineHasNoHost | electron/main/host-file.service.ts:114-127 | a kept line has no entry for the host |
| HostFile.NoHostInLines | electron/main/host-file.service.ts:38-66 | lines without an entry for the host give none |
| HostFile.EmptyLineKept | electron/main/host-file.service.ts:116-117 | empty lines are kept and give no entries |
| HostFile.RemoveThenAbsent | electron/main/host-file.service.ts:108-129 | after removal the host is not found |
| HostFile.RemoveIdempotent | electron/main/host-file.service.ts:108-129 | removing twice is removing once |
| HostFile.RemoveKeepsOrder | electron/main/host-file.service.ts:114 | the kept lines are a subsequence of the file's lines |
| HostFile.RemoveFixedSpec | electron/main/host-file.service.ts:108-129 | corrected: after removal the host is not found, and every entry of every kept line survives |
| HostFile.RemoveFixedAbsent | electron/main/host-file.service.ts:108-129 | corrected: the host is absent after removal |
| HostFile.RemoveFixedKeeps | electron/main/host-file.service.ts:108-129 | corrected: entries of kept lines survive |
| HostFile.CommentedLineEntries | electron/main/host-file.service.ts:51-59 | `ip host # word` gives one entry for `host` with comment `# word` |
| HostFile.RemoveOneLine | electron/main/host-file.service.ts:114-129 | a one-line file is kept or emptied according to the filter |
| HostFile.RemoveCommentCounterexample | electron/main/host-file.service.ts:120-123 | as written, removing `word` from `ip host # word` empties the file although no entry is for `word` |
| HostFile.RemoveCommentFixed | electron/main/host-file.service.ts:120-123 | corrected, the same removal keeps the line |
| HostFile.CommentedDropped | electron/main/host-file.service.ts:120-123 | as written, a word of the inline comment is treated as a host name |
| Text.Trim | electron/main/host-file.service.ts:39 | the trimmed string neither starts nor ends with a space |
| Text.SplitWs | electron/main/host-file.service.ts:47 | every part of `split(/\s+/)` is free of spaces |
| Text.SplitWsJoin | electron/main/host-file.service.ts:55 | splitting space-joined words gives them back |
| Text.Split | electron/main/host-file.service.ts:35 | a split has at least one part and no part contains the separator |
| Text.JoinSplit | electron/main/host-file.service.ts:111-129 | joining the parts of a split with the separator gives back the text |
| Text.SplitJoin | libs/nginx-utils.ts:149 | splitting a join of separator-free parts gives back the parts |
| Text.ContainsIff | libs/nginx-parser.ts:369 | `includes` holds exactly when the substring occurs at some index |
| Text.DigitsValueOfNatToString | libs/nginx-parser.ts:381 | reading back a rendered number gives the number |
| Text.ReplaceChar | libs/nginx-utils.ts:136 | `replace(/\./g, '_')` changes exactly the dots |

## Left out

- Reading and writing files, `appendFile`/`writeFile`, privilege elevation and platform paths are not modelled. The hosts-file text is a parameter. `Option<string>` stands for a read that may fail; `checkHostExists` swallows that failure and answers false.
- `new Date().toISOString()` is a `now`/`date` parameter.
- Database reads and writes in `saveReverseProxy` are not modelled: no lookup of an existing record, no insert or update. Only the record it builds is modelled.
- The `JSON.stringify`/`JSON.parse` round trip of proxy headers is not modelled. The headers are an already-parsed ordered list of pairs. The parse itself is not modelled: headers that are absent or not valid JSON arrive as `None`, which renders no header lines, as the `catch` does. The rendering of non-string header values is not modelled.
- `ReverseProxy.SaveDefaults`: a stored boolean read back as a database null is modelled as false.
- JavaScript strings are UTF-16 code units; the model uses sequences of characters (code points). `\s` and `trim` use one fixed list of white-space characters.
- `parseInt` is exact here. JavaScript loses precision on digit runs above 2^53, which is floating point and is not modelled.
- Domain ports are integers; `NaN`, fractions and other non-integral numbers are not modelled.
- The parser's non-terminating loops end in an explicit `Stuck`/`Diverges` outcome instead of running forever.
- `async`/`Promise`, `console.error` and the `example()` demonstration function are left out. `exportToNginx` is only a call of `generateNginxInclude`.
- `NginxConfigGen.PushServers`: takes each server block already rendered (`ServerTexts`) rather than rendering inside the loop.
- `NginxCompare.CompareDomains`: pairs and lists hold values, so object identity between the result and the input arrays is not modelled.
- `NginxSync.ImportThenSync`: holds only for facts with non-zero ports and one port per name. The source reads port 0 as 80, and reports a mismatch when two nginx entries share a name with different ports.

## Findings

| source | as written | input that shows it | evidently intended | confidence | as-written member | corrected member |
|---|---|---|---|---|---|---|
| libs/nginx-utils.ts:189 | `onlyInNginx.splice(serverIndex, 1)` removes by an index into the original server list from an array that has already shrunk | managed `a.test`, `b.test`; servers `[a.test, b.test, c.test]`: removing 0 then 1 leaves `[b.test]` | the servers no managed domain matched, `[c.test]` | high, not executed | NginxCompare.SpliceShiftCounterexample | NginxCompare.SpliceShiftFixed |
| electron/main/host-file.service.ts:120-123 | a line is removed when the host appears among any of its words after the first, including words of an inline comment | file `127.0.0.1 foo # bar`, remove host `bar`: the line goes although the file has no entry for `bar` | remove only lines with an entry for the host | medium, not executed | HostFile.RemoveCommentCounterexample | HostFile.RemoveCommentFixed |
