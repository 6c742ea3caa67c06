/** The cursor scans of `NginxParser` (libs/nginx-parser.ts) as functions of
    the text and a start position: each returns where the scan stops and,
    where it produces text, what it produces. The class in NginxParser is
    proved to move its cursor exactly as these say. */
module NginxScan {
  import opened Text

  /** Characters that end a word: white space, `;`, `{`, `}` and `#`. */
  predicate IsWordStop(ch: char) {
    IsSpace(ch) || ch == ';' || ch == '{' || ch == '}' || ch == '#'
  }

  /** `peek() === ch`; `peek()` gives the empty string at the end, which
      equals no character. */
  predicate PeekIs(c: string, p: nat, ch: char) {
    p < |c| && c[p] == ch
  }

  /** Where `skipWhitespace` stops: the end of the white-space run at `p`. */
  function WsEnd(c: string, p: nat): (q: nat)
    requires p <= |c|
    ensures p <= q <= |c|
    ensures forall i :: p <= i < q ==> IsSpace(c[i])
    ensures q == |c| || !IsSpace(c[q])
    decreases |c| - p
  {
    if p < |c| && IsSpace(c[p]) then WsEnd(c, p + 1) else p
  }

  /** Where `parseWord` stops: the first word stop at or after `p`. */
  function WordEnd(c: string, p: nat): (q: nat)
    requires p <= |c|
    ensures p <= q <= |c|
    ensures forall i :: p <= i < q ==> !IsWordStop(c[i])
    ensures q == |c| || IsWordStop(c[q])
    decreases |c| - p
  {
    if p < |c| && !IsWordStop(c[p]) then WordEnd(c, p + 1) else p
  }

  /** Where `skipComment` stops: the next line feed, or the end. */
  function LineEnd(c: string, p: nat): (q: nat)
    requires p <= |c|
    ensures p <= q <= |c|
    ensures forall i :: p <= i < q ==> c[i] != '\n'
    ensures q == |c| || c[q] == '\n'
    decreases |c| - p
  {
    if p < |c| && c[p] != '\n' then LineEnd(c, p + 1) else p
  }

  /** Where `skipWhitespaceAndComments` stops: at the end, or at a character
      that is neither white space nor `#`. */
  function SkipTrivia(c: string, p: nat): (q: nat)
    requires p <= |c|
    ensures p <= q <= |c|
    ensures q == |c| || (!IsSpace(c[q]) && c[q] != '#')
    decreases |c| - p
  {
    if p >= |c| then p
    else
      var w := WsEnd(c, p);
      if PeekIs(c, w, '#') then SkipTrivia(c, LineEnd(c, w)) else w
  }

  /** Skipping white space and comments again from where it stopped does
      nothing. */
  lemma SkipTriviaIdempotent(c: string, p: nat)
    requires p <= |c|
    ensures SkipTrivia(c, SkipTrivia(c, p)) == SkipTrivia(c, p)
  {
  }

  /** What `parseWord` returns from `p`, and that it is the longest prefix
      free of word stops: empty exactly at the end or at a word stop. */
  lemma WordShape(c: string, p: nat)
    requires p <= |c|
    ensures var w := c[p..WordEnd(c, p)];
      && (forall i :: 0 <= i < |w| ==> !IsWordStop(w[i]))
      && (w == [] <==> p == |c| || IsWordStop(c[p]))
  {
  }

  /** The body of a quoted string after its opening quote: the characters
      read and how many were consumed (`parseQuotedString`'s loop, with
      `escaped` its flag). A backslash takes the next character literally;
      the scan stops just past the first unescaped `quote`, or at the end
      with what it has read so far. */
  function Unquote(s: string, quote: char, escaped: bool): (r: (string, nat))
    ensures r.1 <= |s| && |r.0| <= r.1
  {
    if s == [] then ("", 0)
    else if escaped then
      var t := Unquote(s[1..], quote, false); ([s[0]] + t.0, t.1 + 1)
    else if s[0] == '\\' then
      var t := Unquote(s[1..], quote, true); (t.0, t.1 + 1)
    else if s[0] == quote then ("", 1)
    else
      var t := Unquote(s[1..], quote, false); ([s[0]] + t.0, t.1 + 1)
  }

  /** The writer's side of the quoting convention: a backslash before every
      backslash and every quote character. */
  function Escape(v: string, quote: char): (e: string)
    ensures |e| >= |v|
  {
    if v == [] then []
    else (if v[0] == '\\' || v[0] == quote then ['\\', v[0]] else [v[0]]) + Escape(v[1..], quote)
  }

  /** Reading an escaped value followed by its closing quote gives the value
      back and stops just past the quote, whatever follows. */
  lemma {:induction false} UnquoteEscape(v: string, quote: char, rest: string)
    requires quote == '"' || quote == '\''
    ensures Unquote(Escape(v, quote) + [quote] + rest, quote, false) == (v, |Escape(v, quote)| + 1)
  {
    var s := Escape(v, quote) + [quote] + rest;
    if v == [] {
      assert s == [quote] + rest;
    } else {
      UnquoteEscape(v[1..], quote, rest);
      var tail := Escape(v[1..], quote) + [quote] + rest;
      if v[0] == '\\' || v[0] == quote {
        assert s == ['\\', v[0]] + tail;
        assert s[1..][1..] == tail;
      } else {
        assert s == [v[0]] + tail;
        assert s[1..] == tail;
        assert s[0] != '\\' && s[0] != quote;
        assert Escape(v, quote) == [v[0]] + Escape(v[1..], quote);
      }
      assert [v[0]] + v[1..] == v;
    }
  }

  /** With no backslash and no quote, an unterminated quoted string gives
      everything up to the end, without error. */
  lemma {:induction false} UnquoteUnterminated(s: string, quote: char)
    requires quote !in s && '\\' !in s
    ensures Unquote(s, quote, false) == (s, |s|)
  {
    if s != [] {
      assert s == [s[0]] + s[1..];
      UnquoteUnterminated(s[1..], quote);
    }
  }

  /** What `parseValue` reads from `p` and where it stops: after skipping
      white space, a quoted string when the next character is `"` or `'`,
      otherwise a word. */
  function ValueAt(c: string, p: nat): (r: (string, nat))
    requires p <= |c|
    ensures p <= r.1 <= |c|
  {
    var w := WsEnd(c, p);
    if w < |c| && (c[w] == '"' || c[w] == '\'') then
      var u := Unquote(c[w + 1..], c[w], false);
      (u.0, w + 1 + u.1)
    else
      (c[w..WordEnd(c, w)], WordEnd(c, w))
  }

  /** `parseValue` makes no progress exactly when, after white space, it
      faces `#` (a word stop that the value loop does not stop at). */
  lemma ValueStalls(c: string, p: nat)
    requires p < |c| && !IsSpace(c[p]) && c[p] != ';' && c[p] != '{' && c[p] != '}'
    ensures WsEnd(c, ValueAt(c, p).1) == p <==> c[p] == '#'
  {
  }

  /** Index just after the last line feed before `p`, or 0. */
  function LineStart(c: string, p: nat): (s: nat)
    requires p <= |c|
    ensures s <= p
    ensures s == 0 || c[s - 1] == '\n'
    ensures forall i :: s <= i < p ==> c[i] != '\n'
  {
    if p == 0 then 0 else if c[p - 1] == '\n' then p else LineStart(c, p - 1)
  }

  /** The line `advance` has counted up to `p`. */
  function LineAt(c: string, p: nat): (n: nat)
    requires p <= |c|
    ensures n >= 1
  {
    if p == 0 then 1 else LineAt(c, p - 1) + (if c[p - 1] == '\n' then 1 else 0)
  }

  /** The column `advance` has counted up to `p`. */
  function ColumnAt(c: string, p: nat): (n: nat)
    requires p <= |c|
    ensures n >= 1
  {
    if p == 0 || c[p - 1] == '\n' then 1 else ColumnAt(c, p - 1) + 1
  }

  /** The line is one more than the number of line feeds before `p`. */
  lemma {:induction false} LineAtCountsLineFeeds(c: string, p: nat)
    requires p <= |c|
    ensures LineAt(c, p) == 1 + multiset(c[..p])['\n']
  {
    if p > 0 {
      LineAtCountsLineFeeds(c, p - 1);
      assert c[..p] == c[..p - 1] + [c[p - 1]];
    }
  }

  /** The column is one more than the number of characters since the last
      line feed before `p`. */
  lemma {:induction false} ColumnAtSinceLineStart(c: string, p: nat)
    requires p <= |c|
    ensures ColumnAt(c, p) == 1 + p - LineStart(c, p)
  {
    if p > 0 && c[p - 1] != '\n' {
      ColumnAtSinceLineStart(c, p - 1);
    }
  }
}
