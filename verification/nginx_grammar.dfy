/** What the recursive descent of `NginxParser` (libs/nginx-parser.ts) reads
    from a text, as functions of the text and a start position. Where the
    source's loops would repeat forever with no change of state, the
    functions stop and report the position at which that happens. */
module NginxGrammar {
  import opened Wrappers
  import opened Text
  import opened Seqs
  import opened NginxScan
  import opened NginxModel

  /** The outcome of a scan: a value and the position after it, or the
      position at which the source's loop spins. */
  datatype Step<T> = Ok(value: T, next: nat) | Stuck(at: nat)

  /** `parse()` either returns, or never returns because its loop spins at
      `at`. */
  datatype ParseOutcome = Parsed(config: Config) | Diverges(at: nat)

  /** The value loop of `parseDirective` repeats forever at `a`: its guard
      holds and one turn (`parseValue`, then `skipWhitespace`) reads an empty
      value and ends where it started. */
  predicate ValueLoopSpins(c: string, a: nat) {
    && a < |c| && !IsSpace(c[a]) && c[a] != ';' && c[a] != '{' && c[a] != '}'
    && ValueAt(c, a).0 == "" && WsEnd(c, ValueAt(c, a).1) == a
  }

  /** The loops of `parseBlock` and `parse` repeat forever at `a`: the
      character there is `;` or `{`, which no directive can start with. */
  predicate DirectiveLoopSpins(c: string, a: nat) {
    a < |c| && (c[a] == ';' || c[a] == '{')
  }

  /** The value loop of `parseDirective` from `p` (which is just after white
      space), with `acc` the values read so far. Empty values are not kept. */
  function ValuesFrom(c: string, p: nat, acc: seq<string>): (r: Step<seq<string>>)
    requires p <= |c|
    requires p == |c| || !IsSpace(c[p])
    ensures r.Ok? ==> p <= r.next <= |c| && acc <= r.value
    ensures r.Ok? ==> r.next == |c| || c[r.next] == ';' || c[r.next] == '{' || c[r.next] == '}'
    ensures r.Stuck? ==> p <= r.at && ValueLoopSpins(c, r.at) && c[r.at] == '#'
    decreases |c| - p
  {
    if p == |c| || c[p] == ';' || c[p] == '{' || c[p] == '}' then Ok(acc, p)
    else
      var (v, q) := ValueAt(c, p);
      var w := WsEnd(c, q);
      if w == p then
        ValueStalls(c, p);
        Stuck(p)
      else
        var acc' := if v != "" then acc + [v] else acc;
        assert acc <= acc';
        ValuesFrom(c, w, acc')
  }

  /** The value loop keeps only non-empty tokens. */
  lemma {:induction false} ValuesNonEmpty(c: string, p: nat, acc: seq<string>)
    requires p <= |c|
    requires p == |c| || !IsSpace(c[p])
    requires forall i :: 0 <= i < |acc| ==> acc[i] != ""
    ensures ValuesFrom(c, p, acc).Ok? ==>
      forall i :: 0 <= i < |ValuesFrom(c, p, acc).value| ==> ValuesFrom(c, p, acc).value[i] != ""
    decreases |c| - p
  {
    if !(p == |c| || c[p] == ';' || c[p] == '{' || c[p] == '}') {
      var (v, q) := ValueAt(c, p);
      var w := WsEnd(c, q);
      if w != p {
        var acc' := if v != "" then acc + [v] else acc;
        ValuesNonEmpty(c, w, acc');
      }
    }
  }

  /** The directive `value` made of the tokens read: the token itself when
      there is exactly one, otherwise the (possibly empty) array. */
  function ValueOf(vs: seq<string>): (v: Value)
    ensures v.Scalar? <==> |vs| == 1
    ensures v.Scalar? ==> v.s == vs[0]
    ensures v.List? ==> v.items == vs
  {
    if |vs| == 1 then Scalar(vs[0]) else List(vs)
  }

  /** `parseDirective` from `p`: nothing (`null`) when no name can be read,
      a block directive when `{` follows the name, otherwise the values up
      to `;`, `{` or `}`, consuming a `;`. */
  function DirectiveAt(c: string, p: nat): (r: Step<Option<Directive>>)
    requires p <= |c|
    ensures r.Ok? ==> SkipTrivia(c, p) <= r.next <= |c|
    ensures r.Ok? && r.value.Some? ==> r.next > SkipTrivia(c, p)
    ensures r.Stuck? ==> SkipTrivia(c, p) < r.at && (ValueLoopSpins(c, r.at) || DirectiveLoopSpins(c, r.at))
    decreases |c| - p, 0
  {
    var s := SkipTrivia(c, p);
    var e := WordEnd(c, s);
    if e == s then Ok(None, s)
    else
      var w := WsEnd(c, e);
      if PeekIs(c, w, '{') then BlockDirective(c, c[s..e], w)
      else LeafAfter(c, c[s..e], w)
  }

  /** The rest of `parseDirective` once the name is read and `{` follows it:
      the block, with the empty string as value. */
  function BlockDirective(c: string, name: string, w: nat): (r: Step<Option<Directive>>)
    requires w < |c| && c[w] == '{'
    ensures r.Ok? ==> r.value.Some? && w < r.next <= |c|
    ensures r.Stuck? ==> w < r.at && (ValueLoopSpins(c, r.at) || DirectiveLoopSpins(c, r.at))
    decreases |c| - w, 2
  {
    match BlockFrom(c, w + 1, [])
    case Stuck(a) => Stuck(a)
    case Ok(ds, q) => Ok(Some(Directive(name, Scalar(""), Some(ds))), q)
  }

  /** The rest of `parseDirective` once the name is read and `{` does not
      follow it: the value loop from `w`, then an optional `;`. */
  function LeafAfter(c: string, name: string, w: nat): (r: Step<Option<Directive>>)
    requires w <= |c| && (w == |c| || !IsSpace(c[w]))
    ensures r.Ok? ==> r.value.Some? && w <= r.next <= |c|
    ensures r.Stuck? ==> w <= r.at && ValueLoopSpins(c, r.at)
  {
    match ValuesFrom(c, w, [])
    case Stuck(a) => Stuck(a)
    case Ok(vs, q) => Ok(Some(Directive(name, ValueOf(vs), None)), if PeekIs(c, q, ';') then q + 1 else q)
  }

  /** `parseBlock` from `p` (just after `{`), with `acc` the directives read
      so far: up to and past the closing `}`, or to the end of the text. */
  function BlockFrom(c: string, p: nat, acc: seq<Directive>): (r: Step<seq<Directive>>)
    requires p <= |c|
    ensures r.Ok? ==> p <= r.next <= |c| && acc <= r.value
    ensures r.Stuck? ==> p <= r.at && (ValueLoopSpins(c, r.at) || DirectiveLoopSpins(c, r.at))
    decreases |c| - p, 1
  {
    if p >= |c| then Ok(acc, p)
    else
      var s := SkipTrivia(c, p);
      if PeekIs(c, s, '}') then Ok(acc, s + 1)
      else
        match DirectiveAt(c, s)
        case Stuck(a) => Stuck(a)
        case Ok(None, q) => if q < |c| then Stuck(q) else Ok(acc, q)
        case Ok(Some(d), q) => BlockFrom(c, q, acc + [d])
  }

  /** The `parse` loop from `p`, with `cfg` the configuration built so far. */
  function ParseFrom(c: string, p: nat, cfg: Config): (r: ParseOutcome)
    requires p <= |c|
    ensures r.Diverges? ==> p <= r.at < |c|
    ensures r.Diverges? ==> ValueLoopSpins(c, r.at) || DirectiveLoopSpins(c, r.at) || c[r.at] == '}'
    decreases |c| - p
  {
    if p >= |c| then Parsed(cfg)
    else
      var s := SkipTrivia(c, p);
      if s >= |c| then Parsed(cfg)
      else
        match DirectiveAt(c, s)
        case Stuck(a) => Diverges(a)
        case Ok(None, q) => Diverges(q)
        case Ok(Some(d), q) => ParseFrom(c, q, TopStep(cfg, d))
  }

  /** `parseNginxConfig(content)`. */
  function ParseConfig(c: string): ParseOutcome {
    ParseFrom(c, 0, EmptyConfig)
  }

  /** The positions reported as stuck are fixed points of the loop bodies:
      at `;` or `{` (in a block or at top level, `}` too at top level) a
      directive reads nothing and consumes nothing, so the loop's next turn
      starts in the same state. */
  lemma DirectiveLoopFixedPoint(c: string, a: nat)
    requires a < |c| && (c[a] == ';' || c[a] == '{' || c[a] == '}')
    ensures SkipTrivia(c, a) == a && DirectiveAt(c, a) == Ok(None, a)
  {
  }

  /** `parseDirective` returns `null` exactly when, after white space and
      comments, the text ends or faces `;`, `{` or `}`; it then consumes
      nothing more. */
  lemma DirectiveNull(c: string, p: nat)
    requires p <= |c|
    ensures var s := SkipTrivia(c, p);
      (s == |c| || c[s] == ';' || c[s] == '{' || c[s] == '}') <==> DirectiveAt(c, p) == Ok(None, s)
  {
  }

  /** The name of a directive read from `p` is the word after the trivia. */
  lemma DirectiveName(c: string, p: nat)
    requires p <= |c|
    requires DirectiveAt(c, p).Ok? && DirectiveAt(c, p).value.Some?
    ensures var s := SkipTrivia(c, p);
      var e := WordEnd(c, s);
      DirectiveAt(c, p).value.value.name == c[s..e] != ""
  {
    var s := SkipTrivia(c, p);
    var e := WordEnd(c, s);
    var w := WsEnd(c, e);
    if PeekIs(c, w, '{') {
      assert DirectiveAt(c, p) == BlockDirective(c, c[s..e], w);
    } else {
      assert DirectiveAt(c, p) == LeafAfter(c, c[s..e], w);
    }
  }

  /** A directive has a block exactly when `{` follows its name, and then
      its value is the empty string. */
  lemma DirectiveBlock(c: string, p: nat)
    requires p <= |c|
    requires DirectiveAt(c, p).Ok? && DirectiveAt(c, p).value.Some?
    ensures var d := DirectiveAt(c, p).value.value;
      var e := WordEnd(c, SkipTrivia(c, p));
      && (d.block.Some? <==> PeekIs(c, WsEnd(c, e), '{'))
      && (d.block.Some? ==> d.value == Scalar(""))
  {
    var s := SkipTrivia(c, p);
    var e := WordEnd(c, s);
    var w := WsEnd(c, e);
    if PeekIs(c, w, '{') {
      assert DirectiveAt(c, p) == BlockDirective(c, c[s..e], w);
    } else {
      assert DirectiveAt(c, p) == LeafAfter(c, c[s..e], w);
    }
  }

  /** A directive without a block, read by a scan ending at `next`: its
      tokens are non-empty, and the scan stopped at `;` (consumed), `{`, `}`
      or the end. */
  predicate LeafShaped(c: string, r: Step<Option<Directive>>) {
    && r.Ok? && r.value.Some? && r.value.value.block.None?
    && (r.value.value.value.List? ==> forall i :: 0 <= i < |r.value.value.value.items| ==> r.value.value.value.items[i] != "")
    && (r.value.value.value.Scalar? ==> r.value.value.value.s != "")
    && 0 < r.next <= |c|
    && (PeekIs(c, r.next - 1, ';') || r.next == |c| || c[r.next] == '{' || c[r.next] == '}')
  }

  /** Every directive without a block that `parseDirective` reads is shaped
      so. */
  lemma DirectiveLeaf(c: string, p: nat)
    requires p <= |c|
    requires DirectiveAt(c, p).Ok? && DirectiveAt(c, p).value.Some?
    requires DirectiveAt(c, p).value.value.block.None?
    ensures LeafShaped(c, DirectiveAt(c, p))
  {
    var s := SkipTrivia(c, p);
    var e := WordEnd(c, s);
    var w := WsEnd(c, e);
    DirectiveBlock(c, p);
    assert !PeekIs(c, w, '{');
    assert DirectiveAt(c, p) == LeafAfter(c, c[s..e], w);
    LeafShape(c, c[s..e], w);
  }

  /** The value loop's result, read as a directive without a block. */
  lemma LeafShape(c: string, name: string, w: nat)
    requires 0 < w <= |c| && (w == |c| || !IsSpace(c[w]))
    requires LeafAfter(c, name, w).Ok?
    ensures LeafAfter(c, name, w).value.value.name == name
    ensures LeafShaped(c, LeafAfter(c, name, w))
  {
    var vs := ValuesFrom(c, w, []);
    assert vs.Ok?;
    ValuesNonEmpty(c, w, []);
    var q := vs.next;
    if PeekIs(c, q, ';') {
      assert LeafAfter(c, name, w).next == q + 1;
    }
  }

  /** Every configuration `parse` returns is well formed. */
  lemma {:induction false} ParseFromWellFormed(c: string, p: nat, cfg: Config)
    requires p <= |c| && WellFormed(cfg)
    ensures ParseFrom(c, p, cfg).Parsed? ==> WellFormed(ParseFrom(c, p, cfg).config)
    decreases |c| - p
  {
    if p < |c| {
      var s := SkipTrivia(c, p);
      if s < |c| {
        match DirectiveAt(c, s)
        case Stuck(_) =>
        case Ok(None, _) =>
        case Ok(Some(d), q) =>
          TopStepWellFormed(cfg, d);
          ParseFromWellFormed(c, q, TopStep(cfg, d));
      }
    }
  }

  lemma ParseConfigWellFormed(c: string)
    ensures ParseConfig(c).Parsed? ==> WellFormed(ParseConfig(c).config)
  {
    ParseFromWellFormed(c, 0, EmptyConfig);
  }

  /** Reading a directive from where trivia has already been skipped is the
      same as reading it from before the trivia. */
  lemma DirectiveAtAfterTrivia(c: string, p: nat)
    requires p <= |c|
    ensures DirectiveAt(c, SkipTrivia(c, p)) == DirectiveAt(c, p)
  {
    SkipTriviaIdempotent(c, p);
  }

  /** A directive followed directly by `{` that it did not consume (as with
      `location / {` or `upstream pool {`, whose value scan stops at the
      brace) makes the enclosing block, and the top-level loop, spin at that
      brace. */
  lemma LeafBeforeBrace(c: string, p: nat, acc: seq<Directive>, cfg: Config)
    requires p <= |c|
    requires DirectiveAt(c, p).Ok? && DirectiveAt(c, p).value.Some?
    requires PeekIs(c, DirectiveAt(c, p).next, '{')
    ensures BlockFrom(c, p, acc) == Stuck(DirectiveAt(c, p).next)
    ensures ParseFrom(c, p, cfg) == Diverges(DirectiveAt(c, p).next)
  {
    var s := SkipTrivia(c, p);
    var q := DirectiveAt(c, p).next;
    var d := DirectiveAt(c, p).value.value;
    DirectiveAtAfterTrivia(c, p);
    DirectiveNull(c, p);
    assert s < |c| && c[s] != '}';
    DirectiveLoopFixedPoint(c, q);
    assert BlockFrom(c, q, acc + [d]) == Stuck(q);
    assert BlockFrom(c, p, acc) == BlockFrom(c, q, acc + [d]);
    assert ParseFrom(c, p, cfg) == ParseFrom(c, q, TopStep(cfg, d));
  }

  /** The escaping convention round-trips through a directive: a name, white
      space, then a quoted escaped value and `;` reads back as that value. An
      empty quoted string is a falsy value and is dropped, leaving an empty
      array. */
  lemma QuotedDirective(name: string, v: string, quote: char, rest: string)
    requires name != [] && forall i :: 0 <= i < |name| ==> !IsWordStop(name[i])
    requires quote == '"' || quote == '\''
    ensures var c := name + " " + [quote] + Escape(v, quote) + [quote] + ";" + rest;
      DirectiveAt(c, 0) ==
        Ok(Some(Directive(name, if v == "" then List([]) else Scalar(v), None)),
           |name| + 1 + |Escape(v, quote)| + 3)
  {
    var e := Escape(v, quote);
    var c := name + " " + [quote] + e + [quote] + ";" + rest;
    var n := |name|;
    var x := name + " " + [quote];
    assert c[..n] == name && c[n] == ' ' && c[n + 1] == quote;
    NameThenValue(c, name);
    DropFront(x, e, [quote], ";", rest);
    QuotedLeaf(c, name, n + 1, v, quote, rest);
  }

  /** A name followed by one space and a character that is neither white
      space nor `{` leaves the rest of the directive to the value loop. */
  lemma NameThenValue(c: string, name: string)
    requires name != [] && forall i :: 0 <= i < |name| ==> !IsWordStop(name[i])
    requires |name| + 1 < |c| && c[..|name|] == name && c[|name|] == ' '
    requires !IsSpace(c[|name| + 1]) && c[|name| + 1] != '{'
    ensures DirectiveAt(c, 0) == LeafAfter(c, name, |name| + 1)
  {
    var n := |name|;
    assert c[0] == name[0];
    assert SkipTrivia(c, 0) == 0 by {
      assert WsEnd(c, 0) == 0;
    }
    assert WordEnd(c, 0) == n by {
      assert forall i :: 0 <= i < n ==> c[i] == name[i];
      WordEndAt(c, 0, n);
    }
    assert c[0..n] == name;
    assert WsEnd(c, n) == n + 1 by {
      assert WsEnd(c, n + 1) == n + 1;
    }
  }

  /** `parseDirective` after the name, over one quoted, escaped value
      followed by `;`. */
  lemma QuotedLeaf(c: string, name: string, w: nat, v: string, quote: char, rest: string)
    requires quote == '"' || quote == '\''
    requires w < |c| && c[w] == quote && c[w + 1..] == Escape(v, quote) + [quote] + ";" + rest
    ensures LeafAfter(c, name, w) ==
      Ok(Some(Directive(name, if v == "" then List([]) else Scalar(v), None)), w + |Escape(v, quote)| + 3)
  {
    var q := w + |Escape(v, quote)| + 2;
    var vs := if v != "" then [v] else [];
    QuotedValues(c, w, v, quote, rest);
    assert ValueOf(vs) == if v == "" then List([]) else Scalar(v);
  }

  /** The value loop over one quoted, escaped value followed by `;`: the
      value is kept unless it is empty, and the loop stops at the `;`. */
  lemma QuotedValues(c: string, w: nat, v: string, quote: char, rest: string)
    requires quote == '"' || quote == '\''
    requires w < |c| && c[w] == quote && c[w + 1..] == Escape(v, quote) + [quote] + ";" + rest
    ensures ValuesFrom(c, w, []) == Ok(if v != "" then [v] else [], w + |Escape(v, quote)| + 2)
    ensures PeekIs(c, w + |Escape(v, quote)| + 2, ';')
  {
    var close := w + 1 + |Escape(v, quote)|;
    QuotedThenSemicolon(c, w, v, quote, rest);
    OneValueThenStop(c, w, v, close + 1);
  }

  lemma QuotedThenSemicolon(c: string, w: nat, v: string, quote: char, rest: string)
    requires quote == '"' || quote == '\''
    requires w < |c| && c[w] == quote && c[w + 1..] == Escape(v, quote) + [quote] + ";" + rest
    ensures w + 2 + |Escape(v, quote)| < |c| && c[w + 2 + |Escape(v, quote)|] == ';'
    ensures ValueAt(c, w) == (v, w + 2 + |Escape(v, quote)|)
  {
    assert Escape(v, quote) + [quote] + ";" + rest == Escape(v, quote) + [quote] + (";" + rest);
    ValueAtQuoted(c, w, v, quote, ";" + rest);
  }

  /** The value loop over one value that ends right before a `;`. */
  lemma OneValueThenStop(c: string, w: nat, v: string, q: nat)
    requires w < q < |c| && c[q] == ';'
    requires !IsSpace(c[w]) && c[w] != ';' && c[w] != '{' && c[w] != '}'
    requires ValueAt(c, w) == (v, q)
    ensures ValuesFrom(c, w, []) == Ok(if v != "" then [v] else [], q)
  {
    var vs := if v != "" then [v] else [];
    assert ValuesFrom(c, q, vs) == Ok(vs, q);
    assert WsEnd(c, q) == q;
    assert (if v != "" then [] + [v] else []) == vs;
  }

  /** Dropping the first part of a four-part concatenation. */
  lemma DropFront(x: string, a: string, b: string, d: string, e: string)
    ensures (x + a + b + d + e)[|x|..] == a + b + d + e
  {
  }

  /** A value starting with a quote is read up to and past its closing quote. */
  lemma ValueAtQuoted(c: string, w: nat, v: string, quote: char, rest: string)
    requires quote == '"' || quote == '\''
    requires w < |c| && c[w] == quote && c[w + 1..] == Escape(v, quote) + [quote] + rest
    ensures ValueAt(c, w) == (v, w + 2 + |Escape(v, quote)|)
    ensures c[w + 2 + |Escape(v, quote)|..] == rest
  {
    UnquoteEscape(v, quote, rest);
    assert c[w + 2 + |Escape(v, quote)|..] == c[w + 1..][|Escape(v, quote)| + 1..];
  }

  /** `WordEnd` stops at the first word stop when everything before it is a
      word character. */
  lemma {:induction false} WordEndAt(c: string, p: nat, e: nat)
    requires p <= e < |c| && IsWordStop(c[e])
    requires forall i :: p <= i < e ==> !IsWordStop(c[i])
    ensures WordEnd(c, p) == e
    decreases e - p
  {
    if p < e {
      WordEndAt(c, p + 1, e);
    }
  }
}
