/** `NginxParser` of libs/nginx-parser.ts: a cursor (`position`, `line`,
    `column`) over the text, moved one character at a time by `advance`.
    Every scanning method is proved to leave the cursor where the matching
    function of NginxScan or NginxGrammar says, and to return what it says.
    Where the source's loop would spin forever, the method stops at the
    state that would repeat and reports it. */
module NginxParser {
  import opened Wrappers
  import opened Text
  import opened NginxScan
  import opened NginxModel
  import opened NginxGrammar

  class Parser {
    const content: string
    var position: nat
    var line: nat
    var column: nat

    /** The cursor is inside the text and `line`/`column` describe it. */
    ghost predicate Valid()
      reads this
    {
      && position <= |content|
      && line == LineAt(content, position)
      && column == ColumnAt(content, position)
    }

    constructor(content: string)
      ensures Valid()
      ensures this.content == content && position == 0 && line == 1 && column == 1
    {
      this.content := content;
      position := 0;
      line := 1;
      column := 1;
    }

    /** `advance`: one character forward; a line feed starts a new line. */
    method Advance()
      requires Valid() && position < |content|
      modifies this
      ensures Valid() && position == old(position) + 1
      ensures line == old(line) + (if content[old(position)] == '\n' then 1 else 0)
      ensures column == (if content[old(position)] == '\n' then 1 else old(column) + 1)
    {
      if content[position] == '\n' {
        line := line + 1;
        column := 1;
      } else {
        column := column + 1;
      }
      position := position + 1;
    }

    /** `skipWhitespace`. */
    method SkipWhitespace()
      requires Valid()
      modifies this
      ensures Valid() && position == WsEnd(content, old(position))
    {
      while position < |content| && IsSpace(content[position])
        invariant Valid() && old(position) <= position
        invariant WsEnd(content, position) == WsEnd(content, old(position))
        decreases |content| - position
      {
        Advance();
      }
    }

    /** `skipComment`: up to, not past, the next line feed. */
    method SkipComment()
      requires Valid()
      modifies this
      ensures Valid() && position == LineEnd(content, old(position))
    {
      while position < |content| && content[position] != '\n'
        invariant Valid() && old(position) <= position
        invariant LineEnd(content, position) == LineEnd(content, old(position))
        decreases |content| - position
      {
        Advance();
      }
    }

    /** `skipWhitespaceAndComments`. */
    method SkipWhitespaceAndComments()
      requires Valid()
      modifies this
      ensures Valid() && position == SkipTrivia(content, old(position))
    {
      while position < |content|
        invariant Valid() && old(position) <= position
        invariant SkipTrivia(content, position) == SkipTrivia(content, old(position))
        decreases |content| - position
      {
        SkipWhitespace();
        if PeekIs(content, position, '#') {
          SkipComment();
        } else {
          break;
        }
      }
    }

    /** `parseWord`: the characters up to the next word stop. */
    method ParseWord() returns (word: string)
      requires Valid()
      modifies this
      ensures Valid() && position == WordEnd(content, old(position))
      ensures word == content[old(position)..position]
    {
      ghost var p0 := position;
      word := "";
      while position < |content|
        invariant Valid() && p0 <= position
        invariant WordEnd(content, position) == WordEnd(content, p0)
        invariant word == content[p0..position]
        decreases |content| - position
      {
        var ch := content[position];
        if IsWordStop(ch) {
          break;
        }
        assert WordEnd(content, position) == WordEnd(content, position + 1);
        assert content[p0..position + 1] == content[p0..position] + [ch];
        word := word + [ch];
        Advance();
      }
    }

    /** `parseQuotedString`, entered at the opening quote. */
    method ParseQuotedString(quote: char) returns (value: string)
      requires Valid() && position < |content| && content[position] == quote
      modifies this
      ensures Valid() && old(position) < position
      ensures (value, position - old(position) - 1) == Unquote(content[old(position) + 1..], quote, false)
    {
      ghost var start := position + 1;
      Advance();
      value := "";
      var escaped := false;
      ghost var total := Unquote(content[start..], quote, false);
      while position < |content|
        invariant Valid() && start <= position
        invariant value + Unquote(content[position..], quote, escaped).0 == total.0
        invariant position - start + Unquote(content[position..], quote, escaped).1 == total.1
        decreases |content| - position
      {
        var ch := content[position];
        assert content[position..][1..] == content[position + 1..];
        if !escaped && ch != '\\' && ch == quote {
          assert Unquote(content[position..], quote, escaped) == ("", 1);
          assert value == total.0 && position + 1 - start == total.1;
          Advance();
          return;
        }
        ghost var u := Unquote(content[position..], quote, escaped);
        if escaped {
          ghost var t := Unquote(content[position + 1..], quote, false);
          assert u == ([ch] + t.0, t.1 + 1);
          assert value + u.0 == (value + [ch]) + t.0;
          value := value + [ch];
          escaped := false;
        } else if ch == '\\' {
          ghost var t := Unquote(content[position + 1..], quote, true);
          assert u == (t.0, t.1 + 1);
          escaped := true;
        } else {
          ghost var t := Unquote(content[position + 1..], quote, false);
          assert u == ([ch] + t.0, t.1 + 1);
          assert value + u.0 == (value + [ch]) + t.0;
          value := value + [ch];
        }
        Advance();
      }
      assert content[position..] == [];
      assert value == total.0 && position - start == total.1;
    }

    /** `parseValue`: a quoted string or a word, after white space. */
    method ParseValue() returns (value: string)
      requires Valid()
      modifies this
      ensures Valid() && (value, position) == ValueAt(content, old(position))
    {
      SkipWhitespace();
      if position < |content| && (content[position] == '"' || content[position] == '\'') {
        ghost var w := position;
        value := ParseQuotedString(content[position]);
        assert (value, position - w - 1) == Unquote(content[w + 1..], content[w], false);
      } else {
        value := ParseWord();
      }
    }

    /** `parseDirective`. `stuck` reports that the source would spin in a
        loop at `position`; otherwise `d` is the directive (`None` for
        `null`). */
    method ParseDirective() returns (d: Option<Directive>, stuck: bool)
      requires Valid()
      modifies this
      ensures Valid()
      ensures DirectiveAt(content, old(position)) == if stuck then Stuck(position) else Ok(d, position)
      decreases |content| - position, 0
    {
      ghost var p0 := position;
      SkipWhitespaceAndComments();
      ghost var s := position;
      var name := ParseWord();
      if name == "" {
        return None, false;
      }
      ghost var e := position;
      SkipWhitespace();
      assert name == content[s..e] && position == WsEnd(content, e);
      d, stuck := ParseAfterName(name);
    }

    /** The rest of `parseDirective` once the name and the white space after
        it are read: a block when `{` follows, the values otherwise. */
    method ParseAfterName(name: string) returns (d: Option<Directive>, stuck: bool)
      requires Valid() && (position == |content| || !IsSpace(content[position]))
      modifies this
      ensures Valid()
      ensures (if PeekIs(content, old(position), '{') then BlockDirective(content, name, old(position))
        else LeafAfter(content, name, old(position))) == if stuck then Stuck(position) else Ok(d, position)
      decreases |content| - position, 1
    {
      if PeekIs(content, position, '{') {
        d, stuck := ParseBlockAfter(name);
      } else {
        d, stuck := ParseLeaf(name);
      }
    }

    /** The block branch of `parseDirective`: `{`, then the directives up
        to the matching `}`. */
    method ParseBlockAfter(name: string) returns (d: Option<Directive>, stuck: bool)
      requires Valid() && PeekIs(content, position, '{')
      modifies this
      ensures Valid()
      ensures BlockDirective(content, name, old(position)) == if stuck then Stuck(position) else Ok(d, position)
      decreases |content| - position, 0
    {
      Advance();
      var block, st := ParseBlock();
      if st {
        return None, true;
      }
      return Some(Directive(name, Scalar(""), Some(block))), false;
    }

    /** The rest of `parseDirective` when no `{` follows the name: the
        values, then an optional `;`. */
    method ParseLeaf(name: string) returns (d: Option<Directive>, stuck: bool)
      requires Valid() && (position == |content| || !IsSpace(content[position]))
      modifies this
      ensures Valid()
      ensures LeafAfter(content, name, old(position)) == if stuck then Stuck(position) else Ok(d, position)
    {
      var values, st := ParseValues();
      if st {
        return None, true;
      }
      var v := if |values| == 1 then Scalar(values[0]) else List(values);
      if PeekIs(content, position, ';') {
        Advance();
      }
      return Some(Directive(name, v, None)), false;
    }

    /** The value loop of `parseDirective`, entered after white space. */
    method ParseValues() returns (values: seq<string>, stuck: bool)
      requires Valid() && (position == |content| || !IsSpace(content[position]))
      modifies this
      ensures Valid()
      ensures ValuesFrom(content, old(position), []) == if stuck then Stuck(position) else Ok(values, position)
    {
      values := [];
      while position < |content| && content[position] != ';' && content[position] != '{' && content[position] != '}'
        invariant Valid() && old(position) <= position
        invariant position == |content| || !IsSpace(content[position])
        invariant ValuesFrom(content, position, values) == ValuesFrom(content, old(position), [])
        decreases |content| - position
      {
        var before := position;
        var value := ParseValue();
        if value != "" {
          values := values + [value];
        }
        SkipWhitespace();
        if position == before {
          return values, true;
        }
      }
      return values, false;
    }

    /** `parseBlock`, entered just after `{`. */
    method ParseBlock() returns (ds: seq<Directive>, stuck: bool)
      requires Valid()
      modifies this
      ensures Valid()
      ensures BlockFrom(content, old(position), []) == if stuck then Stuck(position) else Ok(ds, position)
      decreases |content| - position, 2
    {
      ds := [];
      while position < |content|
        invariant Valid() && old(position) <= position
        invariant BlockFrom(content, position, ds) == BlockFrom(content, old(position), [])
        decreases |content| - position
      {
        SkipWhitespaceAndComments();
        if PeekIs(content, position, '}') {
          Advance();
          return ds, false;
        }
        var d, st := ParseDirective();
        if st {
          return ds, true;
        }
        match d
        case Some(x) =>
          ds := ds + [x];
        case None =>
          if position < |content| {
            return ds, true;
          }
      }
      return ds, false;
    }

    /** `parse`: the configuration, or the position at which its loop
        spins. */
    method Parse() returns (out: ParseOutcome)
      requires Valid()
      modifies this
      ensures Valid()
      ensures out == ParseFrom(content, old(position), EmptyConfig)
    {
      var config := EmptyConfig;
      while position < |content|
        invariant Valid() && old(position) <= position
        invariant ParseFrom(content, position, config) == ParseFrom(content, old(position), EmptyConfig)
        decreases |content| - position
      {
        SkipWhitespaceAndComments();
        if position >= |content| {
          break;
        }
        var d, st := ParseDirective();
        if st || d.None? {
          return Diverges(position);
        }
        var x := d.value;
        if x.name == "http" && x.block.Some? {
          config := config.(http := x.block.value);
          config := ParseHttpBlock(x.block.value, config);
        } else if x.name == "events" && x.block.Some? {
          config := config.(events := x.block.value);
        } else if x.name == "server" && x.block.Some? {
          var server := ParseServerBlock(x.block.value);
          if server.Some? {
            config := config.(servers := config.servers + [server.value]);
          }
        } else if x.name == "upstream" && x.block.Some? {
          var upstream := ParseUpstreamBlock(x.value, x.block.value);
          if upstream.Some? {
            config := config.(upstreams := config.upstreams + [upstream.value]);
          }
        } else {
          config := config.(main := config.main + [x]);
        }
      }
      return Parsed(config);
    }

    /** `parseHttpBlock`: the servers and upstreams of an `http` block are
        added to the configuration. */
    static method ParseHttpBlock(directives: seq<Directive>, config: Config) returns (r: Config)
      ensures r == HttpFold(config, directives)
    {
      r := config;
      for i := 0 to |directives|
        invariant r == HttpFold(config, directives[..i])
      {
        var d := directives[i];
        assert directives[..i + 1][..i] == directives[..i];
        if d.name == "server" && d.block.Some? {
          var server := ParseServerBlock(d.block.value);
          if server.Some? {
            r := r.(servers := r.servers + [server.value]);
          }
        } else if d.name == "upstream" && d.block.Some? {
          var upstream := ParseUpstreamBlock(d.value, d.block.value);
          if upstream.Some? {
            r := r.(upstreams := r.upstreams + [upstream.value]);
          }
        }
      }
      assert directives[..|directives|] == directives;
    }

    /** `parseServerBlock`. */
    static method ParseServerBlock(directives: seq<Directive>) returns (r: Option<ServerBlock>)
      ensures r == ServerOf(directives)
    {
      var server := EmptyServer;
      for i := 0 to |directives|
        invariant server == ServerFold(directives[..i])
      {
        var d := directives[i];
        assert directives[..i + 1][..i] == directives[..i];
        if d.name == "server_name" {
          server := server.(serverName := if d.value.List? then d.value.items else SplitWs(d.value.s));
        } else if d.name == "listen" {
          server := server.(listen := server.listen + [d.value]);
        } else if d.name == "root" {
          server := server.(root := Some(d.value));
        } else if d.name == "ssl_certificate" {
          server := server.(sslCertificate := Some(d.value));
        } else if d.name == "ssl_certificate_key" {
          server := server.(sslCertificateKey := Some(d.value));
        } else if d.name == "location" {
          if d.block.Some? {
            server := server.(locations := server.locations + [Location(d.value, d.block.value)]);
          }
        } else {
          server := server.(directives := server.directives + [d]);
        }
      }
      assert directives[..|directives|] == directives;
      r := if |server.serverName| > 0 then Some(server) else None;
    }

    /** `parseUpstreamBlock`. */
    static method ParseUpstreamBlock(name: Value, directives: seq<Directive>) returns (r: Option<Upstream>)
      ensures r == UpstreamOf(name, directives)
    {
      var upstream := Upstream(name, [], []);
      for i := 0 to |directives|
        invariant upstream == UpstreamFold(name, directives[..i])
      {
        var d := directives[i];
        assert directives[..i + 1][..i] == directives[..i];
        if d.name == "server" {
          upstream := upstream.(servers := upstream.servers + [d.value]);
        } else {
          upstream := upstream.(directives := upstream.directives + [d]);
        }
      }
      assert directives[..|directives|] == directives;
      r := if |upstream.servers| > 0 then Some(upstream) else None;
    }
  }

  /** `parseNginxConfig`. */
  method ParseNginxConfig(content: string) returns (out: ParseOutcome)
    ensures out == ParseConfig(content)
    ensures out.Parsed? ==> WellFormed(out.config)
  {
    var parser := new Parser(content);
    out := parser.Parse();
    ParseConfigWellFormed(content);
  }
}
