/** The line logic of `HostFileService` (electron/main/host-file.service.ts):
    reading entries out of a hosts file, the existence test, the line
    `addHostEntry` appends and the filter `removeHostEntry` applies. The
    file's text is a parameter (None when it cannot be read); writing it
    back is not modelled.

    As written, `removeHostEntry` compares the host against every word of a
    line after the address, comment words included, so it also drops lines
    that merely mention the host in a comment. `RemoveHostText` models the
    code as written and `RemoveCommentCounterexample` exhibits the
    discrepancy; `RemoveHostTextFixed` compares against the line's entries
    only, and `RemoveFixedSpec` proves what it keeps. */
module HostFile {
  import opened Wrappers
  import opened Text
  import opened Seqs
  import opened Domains

  datatype HostEntry = HostEntry(ip: string, hostname: string, comment: Option<string>)

  /** A trimmed line the reader skips: empty, or a comment. */
  predicate IsSkipped(t: string) {
    t == [] || t[0] == '#'
  }

  /** `hostnames.findIndex(h => h.includes('#'))`. */
  function CommentIndex(hs: seq<string>): (k: int)
    ensures -1 <= k < |hs|
    ensures k >= 0 ==> Contains(hs[k], "#")
    ensures forall j :: 0 <= j < |hs| && (k < 0 || j < k) ==> !Contains(hs[j], "#")
  {
    if hs == [] then -1
    else if Contains(hs[0], "#") then 0
    else
      var k := CommentIndex(hs[1..]);
      if k < 0 then -1 else k + 1
  }

  /** One entry per host name, all with the same address and comment. */
  function EntriesFor(ip: string, hosts: seq<string>, comment: Option<string>): (es: seq<HostEntry>)
    ensures |es| == |hosts|
    ensures forall i :: 0 <= i < |hosts| ==> es[i] == HostEntry(ip, hosts[i], comment)
  {
    if hosts == [] then []
    else EntriesFor(ip, hosts[..|hosts| - 1], comment) + [HostEntry(ip, hosts[|hosts| - 1], comment)]
  }

  /** The entries one line of the file holds: none for a blank line, a
      comment line or a line of one word; otherwise one per word after the
      address, up to the first word containing `#`, and those carry the rest
      of the line, words joined by single spaces, as their comment. */
  function LineEntries(line: string): seq<HostEntry> {
    var t := Trim(line);
    if IsSkipped(t) then []
    else
      var parts := SplitWs(t);
      if |parts| < 2 then []
      else
        var hostnames := parts[1..];
        var ci := CommentIndex(hostnames);
        if ci >= 0 then EntriesFor(parts[0], hostnames[..ci], Some(Join(hostnames[ci..], " ")))
        else EntriesFor(parts[0], hostnames, None)
  }

  /** The entries of a sequence of lines, in order. */
  function EntriesOfLines(lines: seq<string>): seq<HostEntry> {
    if lines == [] then []
    else EntriesOfLines(lines[..|lines| - 1]) + LineEntries(lines[|lines| - 1])
  }

  /** What `parseHostFile` returns for the text of the file. */
  function HostEntries(content: string): seq<HostEntry> {
    EntriesOfLines(Split(content, '\n'))
  }

  /** `entries.push(...)` for each host name of one line. */
  method PushEntries(entries: seq<HostEntry>, ip: string, hosts: seq<string>, comment: Option<string>)
    returns (out: seq<HostEntry>)
    ensures out == entries + EntriesFor(ip, hosts, comment)
  {
    out := entries;
    for j := 0 to |hosts|
      invariant out == entries + EntriesFor(ip, hosts[..j], comment)
    {
      assert hosts[..j + 1][..j] == hosts[..j];
      out := out + [HostEntry(ip, hosts[j], comment)];
    }
    assert hosts[..|hosts|] == hosts;
  }

  /** `parseHostFile`, on the text the file was read as. */
  method ParseHostFile(content: string) returns (entries: seq<HostEntry>)
    ensures entries == HostEntries(content)
  {
    var lines := Split(content, '\n');
    entries := ParseLines(lines);
  }

  /** The `parseHostFile` loop over the lines of the file. */
  method ParseLines(lines: seq<string>) returns (entries: seq<HostEntry>)
    ensures entries == EntriesOfLines(lines)
  {
    entries := [];
    for i := 0 to |lines|
      invariant entries == EntriesOfLines(lines[..i])
    {
      EntriesStep(lines, i);
      entries := PushLine(entries, lines[i]);
    }
    assert lines[..|lines|] == lines;
  }

  lemma EntriesStep(lines: seq<string>, i: nat)
    requires i < |lines|
    ensures EntriesOfLines(lines[..i + 1]) == EntriesOfLines(lines[..i]) + LineEntries(lines[i])
  {
    assert lines[..i + 1] == lines[..i] + [lines[i]];
    EntriesOfLinesAppend(lines[..i], lines[i]);
  }

  /** The body of the `parseHostFile` loop: the entries of one line. */
  method PushLine(entries: seq<HostEntry>, line: string) returns (out: seq<HostEntry>)
    ensures out == entries + LineEntries(line)
  {
    out := entries;
    var trimmedLine := Trim(line);
    if IsSkipped(trimmedLine) {
      assert entries + [] == entries;
      return;
    }
    var parts := SplitWs(trimmedLine);
    if |parts| >= 2 {
      var ip := parts[0];
      var hostnames := parts[1..];
      var commentIndex := CommentIndex(hostnames);
      if commentIndex >= 0 {
        var comment := Join(hostnames[commentIndex..], " ");
        out := PushEntries(entries, ip, hostnames[..commentIndex], Some(comment));
      } else {
        out := PushEntries(entries, ip, hostnames, None);
      }
    } else {
      assert entries + [] == entries;
    }
  }

  /** `checkHostExists(hostname)`: some entry has that host name; a file
      that cannot be read gives false. */
  predicate HostExists(content: Option<string>, hostname: string) {
    content.Some? && exists i :: 0 <= i < |HostEntries(content.value)| && HostEntries(content.value)[i].hostname == hostname
  }

  // ---- addHostEntry ----

  /** `comment || 'Added by Local Domain Manager on ' + timestamp`. */
  function CommentText(comment: Option<string>, now: string): (c: string)
    ensures IsSetText(comment) ==> c == comment.value
    ensures !IsSetText(comment) ==> c == "Added by Local Domain Manager on " + now
  {
    if IsSetText(comment) then comment.value else "Added by Local Domain Manager on " + now
  }

  /** The text `addHostEntry` appends: a line feed, then the address, the
      host and the comment separated by tabs. */
  function NewEntry(ip: string, hostname: string, commentText: string): string {
    "\n" + ip + "\t" + hostname + "\t# " + commentText
  }

  /** `addHostEntry(ip, hostname, comment)` at the instant `now`: the error
      when the host already has an entry, otherwise the text to append. */
  function AddHostEntry(content: Option<string>, ip: string, hostname: string, comment: Option<string>, now: string)
    : (r: Result<string, string>)
    ensures r.Failure? <==> HostExists(content, hostname)
    ensures r.Failure? ==> r.error == "Host entry for " + hostname + " already exists"
    ensures r.Success? ==> r.value == NewEntry(ip, hostname, CommentText(comment, now))
  {
    if HostExists(content, hostname) then Failure("Host entry for " + hostname + " already exists")
    else Success(NewEntry(ip, hostname, CommentText(comment, now)))
  }

  lemma {:induction false} EntriesOfLinesAppend(a: seq<string>, line: string)
    ensures EntriesOfLines(a + [line]) == EntriesOfLines(a) + LineEntries(line)
  {
    assert (a + [line])[..|a|] == a;
  }

  /** Trailing white space after a non-space character is trimmed from the
      tail only. */
  lemma {:induction false} TrimEndAfter(a: string, b: string)
    requires a != [] && !IsSpace(a[|a| - 1])
    ensures TrimEnd(a + b) == a + TrimEnd(b)
    decreases |b|
  {
    if b != [] && IsSpace(b[|b| - 1]) {
      TrimEndAfter(a, b[..|b| - 1]);
      assert (a + b)[..|a + b| - 1] == a + b[..|b| - 1];
    } else if b == [] {
      assert a + b == a;
    }
  }

  lemma TrimAfterWord(head: string, tail: string)
    requires head != [] && !IsSpace(head[0]) && !IsSpace(head[|head| - 1])
    ensures Trim(head + tail) == head + TrimEnd(tail)
  {
    assert TrimStart(head + tail) == head + tail;
    TrimEndAfter(head, tail);
  }

  /** The line `addHostEntry` writes, trimmed: only white space at the end
      of the comment goes. */
  lemma AddedLineTrim(ip: string, hostname: string, c: string)
    requires ip != [] && NoSpace(ip)
    ensures Trim(NewEntry(ip, hostname, c)[1..]) == ip + ("\t" + hostname + "\t#" + TrimEnd(" " + c))
  {
    var head := ip + "\t" + hostname + "\t#";
    NewEntryRegroup(ip, hostname, c);
    assert head[0] == ip[0] && head[|head| - 1] == '#';
    TrimAfterWord(head, " " + c);
    HeadRegroup(ip, hostname, TrimEnd(" " + c));
  }

  lemma NewEntryRegroup(ip: string, hostname: string, c: string)
    ensures NewEntry(ip, hostname, c)[1..] == (ip + "\t" + hostname + "\t#") + (" " + c)
  {
    assert "\t# " + c == "\t#" + (" " + c);
  }

  lemma HeadRegroup(ip: string, hostname: string, x: string)
    ensures (ip + "\t" + hostname + "\t#") + x == ip + ("\t" + hostname + "\t#" + x)
  {
  }

  /** Its words: the address, the host, then a word starting with `#`. */
  lemma AddedLineWords(ip: string, hostname: string, r: string)
    requires ip != [] && NoSpace(ip) && hostname != [] && NoSpace(hostname)
    ensures var parts := SplitWs(ip + ("\t" + hostname + "\t#" + r));
      |parts| >= 3 && parts[0] == ip && parts[1] == hostname && parts[2] != [] && parts[2][0] == '#'
  {
    var y := "#" + r;
    var x := hostname + ("\t" + y);
    TabHashRegroup(ip, hostname, r);
    HashWord(r);
    WordThenTab(hostname, y);
    assert TrimStart(y) == y;
    WordThenTab(ip, x);
    assert TrimStart(x) == x;
  }

  lemma TabHashRegroup(ip: string, hostname: string, r: string)
    ensures ip + ("\t" + hostname + "\t#" + r) == ip + ("\t" + (hostname + ("\t" + ("#" + r))))
  {
    assert "\t#" + r == "\t" + ("#" + r);
  }

  /** A word starting with `#` stays first. */
  lemma HashWord(r: string)
    ensures SplitWs("#" + r)[0] != [] && SplitWs("#" + r)[0][0] == '#'
  {
    SplitWsAfterWord("#", r);
  }

  /** A word followed by a tab is a piece of its own. */
  lemma WordThenTab(w: string, y: string)
    requires w != [] && NoSpace(w)
    ensures SplitWs(w + ("\t" + y)) == [w] + SplitWs(TrimStart(y))
  {
    SplitWsWord(w, "\t" + y);
    assert ("\t" + y)[1..] == y;
  }

  /** A line whose second word has no `#` and whose third word has one holds
      exactly one entry, for the second word. */
  lemma LineEntriesOneHost(line: string)
    requires var t := Trim(line); t != [] && t[0] != '#'
    requires var parts := SplitWs(Trim(line)); |parts| >= 3 && !Contains(parts[1], "#") && Contains(parts[2], "#")
    ensures var parts := SplitWs(Trim(line));
      |LineEntries(line)| == 1 && LineEntries(line)[0].ip == parts[0] && LineEntries(line)[0].hostname == parts[1]
  {
    var hostnames := SplitWs(Trim(line))[1..];
    assert CommentIndex(hostnames) == 1;
  }

  /** The line `addHostEntry` writes holds exactly one entry, for the host,
      when the address and the host are single words without `#`. */
  lemma AddedLineEntries(ip: string, hostname: string, c: string)
    requires ip != [] && NoSpace(ip) && ip[0] != '#'
    requires hostname != [] && NoSpace(hostname) && '#' !in hostname
    ensures var es := LineEntries(NewEntry(ip, hostname, c)[1..]);
      |es| == 1 && es[0].ip == ip && es[0].hostname == hostname
  {
    var line := NewEntry(ip, hostname, c)[1..];
    var r := TrimEnd(" " + c);
    AddedLineTrim(ip, hostname, c);
    AddedLineWords(ip, hostname, r);
    var parts := SplitWs(Trim(line));
    ContainsChar(parts[1], '#');
    ContainsChar(parts[2], '#');
    LineEntriesOneHost(line);
  }

  /** After the append succeeds, the host exists in the file, whatever the
      file held before. */
  lemma AddThenExists(content: string, ip: string, hostname: string, comment: Option<string>, now: string)
    requires ip != [] && NoSpace(ip) && ip[0] != '#'
    requires hostname != [] && NoSpace(hostname) && '#' !in hostname
    requires '\n' !in CommentText(comment, now)
    requires AddHostEntry(Some(content), ip, hostname, comment, now).Success?
    ensures HostExists(Some(content + AddHostEntry(Some(content), ip, hostname, comment, now).value), hostname)
  {
    var c := CommentText(comment, now);
    var e := NewEntry(ip, hostname, c);
    assert AddHostEntry(Some(content), ip, hostname, comment, now).value == e;
    var es := HostEntries(content + e);
    NewEntryLast(content, ip, hostname, c);
    assert es[|es| - 1].hostname == hostname;
  }

  /** The appended line's only entry ends the entries of the new text. */
  lemma NewEntryLast(content: string, ip: string, hostname: string, c: string)
    requires ip != [] && NoSpace(ip) && ip[0] != '#'
    requires hostname != [] && NoSpace(hostname) && '#' !in hostname
    requires '\n' !in c
    ensures var es := HostEntries(content + NewEntry(ip, hostname, c));
      |es| > 0 && es[|es| - 1].hostname == hostname
  {
    var e := NewEntry(ip, hostname, c);
    var line := e[1..];
    assert e == "\n" + line;
    assert '\n' !in line by {
      assert line == ip + "\t" + hostname + "\t# " + c;
    }
    AppendAssoc(content, "\n", line);
    AppendedLine(content, line);
    AddedLineEntries(ip, hostname, c);
  }

  /** Appending a line feed and a line without one adds that line's
      entries at the end. */
  lemma AppendedLine(content: string, line: string)
    requires '\n' !in line
    ensures HostEntries(content + "\n" + line) == HostEntries(content) + LineEntries(line)
  {
    assert content + "\n" + line == content + ['\n'] + line;
    SplitConcat(content, line, '\n');
    SplitNoSep(line, '\n');
    EntriesOfLinesAppend(Split(content, '\n'), line);
  }

  // ---- removeHostEntry ----

  /** The test `removeHostEntry` keeps a line by, as written: blank and
      comment lines stay, and a line with an address and more words stays
      unless one of those words is the host. */
  predicate KeepsLine(hostname: string, line: string) {
    var t := Trim(line);
    IsSkipped(t) || |SplitWs(t)| < 2 || hostname !in SplitWs(t)[1..]
  }

  function KeepLine(hostname: string): string -> bool {
    (line: string) => KeepsLine(hostname, line)
  }

  /** The text a line filter writes back: the lines of the file that pass,
      joined by line feeds. */
  function FilterText(content: string, p: string -> bool): string {
    Join(Filter(Split(content, '\n'), p), "\n")
  }

  /** `removeHostEntry(hostname)`: the file text it writes back. */
  function RemoveHostText(content: string, hostname: string): string {
    FilterText(content, KeepLine(hostname))
  }

  /** `removeHostEntry`, on the text the file was read as. */
  method RemoveHostEntry(content: string, hostname: string) returns (newContent: string)
    ensures newContent == RemoveHostText(content, hostname)
  {
    var lines := Split(content, '\n');
    var newLines := KeptLines(lines, hostname);
    newContent := Join(newLines, "\n");
  }

  /** The loop form of the filter the service applies, line by line. */
  method KeptLines(lines: seq<string>, hostname: string) returns (newLines: seq<string>)
    ensures newLines == Filter(lines, KeepLine(hostname))
  {
    newLines := [];
    for i := 0 to |lines|
      invariant newLines == Filter(lines[..i], KeepLine(hostname))
    {
      FilterStep(lines, i, KeepLine(hostname));
      newLines := KeepStep(newLines, hostname, lines[i]);
    }
    assert lines[..|lines|] == lines;
  }

  lemma FilterStep(lines: seq<string>, i: nat, p: string -> bool)
    requires i < |lines|
    ensures Filter(lines[..i + 1], p) == Filter(lines[..i], p) + (if p(lines[i]) then [lines[i]] else [])
  {
    assert lines[..i + 1] == lines[..i] + [lines[i]];
    FilterSnoc(lines[..i], lines[i], p);
  }

  /** One step of the filter: the line is appended when the callback keeps it. */
  method KeepStep(kept: seq<string>, hostname: string, line: string) returns (out: seq<string>)
    ensures out == kept + (if KeepLine(hostname)(line) then [line] else [])
  {
    var keep := LineKept(hostname, line);
    out := if keep then kept + [line] else kept + [];
  }

  /** The `filter` callback of `removeHostEntry`. */
  method LineKept(hostname: string, line: string) returns (keep: bool)
    ensures keep == KeepLine(hostname)(line)
  {
    var trimmedLine := Trim(line);
    if IsSkipped(trimmedLine) {
      return true;
    }
    var parts := SplitWs(trimmedLine);
    if |parts| >= 2 {
      return hostname !in parts[1..];
    }
    return true;
  }

  /** The pieces of a split joined back with line feeds split into the same
      pieces. */
  lemma SplitFilterJoin(content: string, p: string -> bool)
    ensures Split(FilterText(content, p), '\n')
      == (if Filter(Split(content, '\n'), p) == [] then [""] else Filter(Split(content, '\n'), p))
  {
    var kept := Filter(Split(content, '\n'), p);
    if kept != [] {
      SplitJoin(kept, '\n');
    }
  }

  /** Each line passes the filter or is empty. */
  predicate PassOrEmpty(ls: seq<string>, p: string -> bool) {
    forall i :: 0 <= i < |ls| ==> ls[i] == "" || p(ls[i])
  }

  /** Every line of a filtered text passed the filter, or is the one empty
      line left when no line did. */
  lemma FilterTextLines(content: string, p: string -> bool)
    ensures PassOrEmpty(Split(FilterText(content, p), '\n'), p)
  {
    SplitFilterJoin(content, p);
  }

  /** A line that passes the filter is a line of the filtered text. */
  lemma FilterTextKeeps(content: string, p: string -> bool, line: string)
    requires line in Split(content, '\n') && p(line)
    ensures line in Split(FilterText(content, p), '\n')
  {
    SplitFilterJoin(content, p);
  }

  /** Filtering a filtered text again changes nothing, when the filter keeps
      the empty line. */
  lemma FilterTextTwice(content: string, p: string -> bool)
    requires p("")
    ensures FilterText(FilterText(content, p), p) == FilterText(content, p)
  {
    var kept := Filter(Split(content, '\n'), p);
    SplitFilterJoin(content, p);
    if kept == [] {
      assert Filter([""], p) == [""] + Filter([], p);
      assert Join([""], "\n") == "";
    } else {
      FilterIdempotent(Split(content, '\n'), p);
    }
  }

  /** Every entry of a set of lines comes from one of the lines. */
  lemma {:induction false} EntryFromLine(lines: seq<string>, e: HostEntry)
    requires e in EntriesOfLines(lines)
    ensures exists i :: 0 <= i < |lines| && e in LineEntries(lines[i])
  {
    var init := lines[..|lines| - 1];
    if e in EntriesOfLines(init) {
      EntryFromLine(init, e);
      var i :| 0 <= i < |init| && e in LineEntries(init[i]);
      assert lines[i] == init[i];
    } else {
      assert e in LineEntries(lines[|lines| - 1]);
    }
  }

  /** Every entry of a line comes from a word after its address. */
  lemma LineEntryHost(line: string, e: HostEntry)
    requires e in LineEntries(line)
    ensures var t := Trim(line);
      !IsSkipped(t) && |SplitWs(t)| >= 2 && e.hostname in SplitWs(t)[1..]
  {
    var t := Trim(line);
    var parts := SplitWs(t);
    var hostnames := parts[1..];
    var ci := CommentIndex(hostnames);
    if ci >= 0 {
      EntriesForHost(parts[0], hostnames[..ci], Some(Join(hostnames[ci..], " ")), e);
    } else {
      EntriesForHost(parts[0], hostnames, None, e);
    }
  }

  lemma EntriesForHost(ip: string, hosts: seq<string>, comment: Option<string>, e: HostEntry)
    requires e in EntriesFor(ip, hosts, comment)
    ensures e.hostname in hosts
  {
    var es := EntriesFor(ip, hosts, comment);
    var k :| 0 <= k < |es| && es[k] == e;
    assert e.hostname == hosts[k];
  }

  /** No host name read from a line contains `#`: the words from the first
      one holding `#` onwards become the comment. */
  lemma LineHostNoHash(line: string, e: HostEntry)
    requires e in LineEntries(line)
    ensures !Contains(e.hostname, "#")
  {
    var parts := SplitWs(Trim(line));
    var hostnames := parts[1..];
    var ci := CommentIndex(hostnames);
    var hosts := if ci >= 0 then hostnames[..ci] else hostnames;
    var comment := if ci >= 0 then Some(Join(hostnames[ci..], " ")) else None;
    assert e in EntriesFor(parts[0], hosts, comment);
    EntriesForNoHash(parts[0], hosts, comment, e);
  }

  lemma EntriesForNoHash(ip: string, hosts: seq<string>, comment: Option<string>, e: HostEntry)
    requires e in EntriesFor(ip, hosts, comment)
    requires forall j :: 0 <= j < |hosts| ==> !Contains(hosts[j], "#")
    ensures !Contains(e.hostname, "#")
  {
    var es := EntriesFor(ip, hosts, comment);
    var k :| 0 <= k < |es| && es[k] == e;
    assert e.hostname == hosts[k];
  }

  /** `parseHostFile` never returns a host name containing `#`. */
  lemma HostsNoHash(content: string)
    ensures forall e :: e in HostEntries(content) ==> !Contains(e.hostname, "#")
  {
    var lines := Split(content, '\n');
    forall e | e in HostEntries(content)
      ensures !Contains(e.hostname, "#")
    {
      EntryFromLine(lines, e);
      var i :| 0 <= i < |lines| && e in LineEntries(lines[i]);
      LineHostNoHash(lines[i], e);
    }
  }

  /** A line the as-written filter keeps names the host in none of its
      entries: the as-written test removes at least the lines the corrected
      one does. */
  lemma KeptLineHasNoHost(hostname: string, line: string)
    requires KeepsLine(hostname, line)
    ensures KeepsLineFixed(hostname, line)
  {
    forall k | 0 <= k < |LineEntries(line)|
      ensures LineEntries(line)[k].hostname != hostname
    {
      LineEntryHost(line, LineEntries(line)[k]);
    }
  }

  /** No entry has the host name. */
  predicate NoEntryNamed(es: seq<HostEntry>, hostname: string) {
    forall k :: 0 <= k < |es| ==> es[k].hostname != hostname
  }

  lemma NoEntryNamedAppend(a: seq<HostEntry>, b: seq<HostEntry>, hostname: string)
    requires NoEntryNamed(a, hostname) && NoEntryNamed(b, hostname)
    ensures NoEntryNamed(a + b, hostname)
  {
    assert forall k :: |a| <= k < |a + b| ==> (a + b)[k] == b[k - |a|];
  }

  /** Lines none of whose entries is the host hold no entry for it. */
  lemma {:induction false} NoHostInLines(ls: seq<string>, hostname: string)
    requires forall i :: 0 <= i < |ls| ==> KeepsLineFixed(hostname, ls[i])
    ensures NoEntryNamed(EntriesOfLines(ls), hostname)
  {
    if ls != [] {
      var init := ls[..|ls| - 1];
      NoHostInLines(init, hostname);
      NoEntryNamedAppend(EntriesOfLines(init), LineEntries(ls[|ls| - 1]), hostname);
    }
  }

  lemma EmptyLineNoEntries()
    ensures LineEntries("") == []
  {
    assert TrimStart("") == "";
  }

  /** The empty line names no host, and the as-written filter keeps it. */
  lemma EmptyLineKept(hostname: string)
    ensures KeepsLine(hostname, "") && KeepsLineFixed(hostname, "")
  {
    EmptyLineNoEntries();
  }

  /** After removal the host no longer exists. */
  lemma RemoveThenAbsent(content: string, hostname: string)
    ensures !HostExists(Some(RemoveHostText(content, hostname)), hostname)
  {
    var p := KeepLine(hostname);
    var ls := Split(FilterText(content, p), '\n');
    FilterTextLines(content, p);
    forall i | 0 <= i < |ls|
      ensures KeepsLineFixed(hostname, ls[i])
    {
      EmptyLineKept(hostname);
      if ls[i] != "" {
        assert p(ls[i]);
        KeptLineHasNoHost(hostname, ls[i]);
      }
    }
    NoHostInLines(ls, hostname);
  }

  /** Removing twice removes nothing more. */
  lemma RemoveIdempotent(content: string, hostname: string)
    ensures RemoveHostText(RemoveHostText(content, hostname), hostname) == RemoveHostText(content, hostname)
  {
    EmptyLineKept(hostname);
    FilterTextTwice(content, KeepLine(hostname));
  }

  /** Every line the removal keeps was a line of the file, in order. */
  lemma RemoveKeepsOrder(content: string, hostname: string)
    ensures IsSubseq(Filter(Split(content, '\n'), KeepLine(hostname)), Split(content, '\n'))
  {
    FilterIsSubseq(Split(content, '\n'), KeepLine(hostname));
  }

  // ---- The correction ----

  /** The test the removal evidently intends: a line stays unless one of its
      entries is the host. */
  predicate KeepsLineFixed(hostname: string, line: string) {
    NoEntryNamed(LineEntries(line), hostname)
  }

  function KeepLineFixed(hostname: string): string -> bool {
    (line: string) => KeepsLineFixed(hostname, line)
  }

  function RemoveHostTextFixed(content: string, hostname: string): string {
    FilterText(content, KeepLineFixed(hostname))
  }

  /** With the correction the host is gone, and every entry of a line that
      did not name the host is still there. */
  lemma RemoveFixedSpec(content: string, hostname: string)
    ensures !HostExists(Some(RemoveHostTextFixed(content, hostname)), hostname)
    ensures forall line, e :: line in Split(content, '\n') && KeepLineFixed(hostname)(line) && e in LineEntries(line) ==>
      e in HostEntries(RemoveHostTextFixed(content, hostname))
  {
    RemoveFixedAbsent(content, hostname);
    forall line, e | line in Split(content, '\n') && KeepLineFixed(hostname)(line) && e in LineEntries(line)
      ensures e in HostEntries(RemoveHostTextFixed(content, hostname))
    {
      RemoveFixedKeeps(content, hostname, line, e);
    }
  }

  lemma RemoveFixedAbsent(content: string, hostname: string)
    ensures !HostExists(Some(RemoveHostTextFixed(content, hostname)), hostname)
  {
    var p := KeepLineFixed(hostname);
    var ls := Split(FilterText(content, p), '\n');
    FilterTextLines(content, p);
    forall i | 0 <= i < |ls|
      ensures KeepsLineFixed(hostname, ls[i])
    {
      EmptyLineKept(hostname);
      if ls[i] != "" {
        assert p(ls[i]);
      }
    }
    NoHostInLines(ls, hostname);
  }

  lemma RemoveFixedKeeps(content: string, hostname: string, line: string, e: HostEntry)
    requires line in Split(content, '\n') && KeepLineFixed(hostname)(line) && e in LineEntries(line)
    ensures e in HostEntries(RemoveHostTextFixed(content, hostname))
  {
    var p := KeepLineFixed(hostname);
    FilterTextKeeps(content, p, line);
    LineInEntries(Split(FilterText(content, p), '\n'), line, e);
  }

  /** An entry of one of the lines is an entry of the lines. */
  lemma {:induction false} LineInEntries(lines: seq<string>, line: string, e: HostEntry)
    requires line in lines && e in LineEntries(line)
    ensures e in EntriesOfLines(lines)
  {
    var init := lines[..|lines| - 1];
    SplitLast(lines);
    if line != lines[|lines| - 1] {
      LineInEntries(init, line, e);
    }
  }

  /** A word of a hosts line: non-empty, without white space. */
  predicate IsWord(w: string) {
    w != [] && NoSpace(w)
  }

  /** The line `ip host # word`: one host with a one-word comment. */
  function CommentedLine(ip: string, host: string, word: string): string {
    ip + " " + host + " # " + word
  }

  lemma CommentedLineWords(ip: string, host: string, word: string)
    requires IsWord(ip) && IsWord(host) && IsWord(word)
    ensures Trim(CommentedLine(ip, host, word)) == CommentedLine(ip, host, word)
    ensures SplitWs(CommentedLine(ip, host, word)) == [ip, host, "#", word]
  {
    var line := CommentedLine(ip, host, word);
    var words := [ip, host, "#", word];
    assert Join(words[3..], " ") == word;
    assert Join(words[2..], " ") == "#" + " " + word;
    assert Join(words[1..], " ") == host + " " + ("#" + " " + word);
    assert Join(words, " ") == line;
    assert NoSpace("#");
    SplitWsJoin(words);
    TrimEdges(line);
  }

  /** The entries of a line, read off its words. */
  lemma LineEntriesOfWords(line: string, words: seq<string>)
    requires Trim(line) == line && line != [] && line[0] != '#'
    requires SplitWs(line) == words && |words| >= 2
    ensures var hs := words[1..];
      var ci := CommentIndex(hs);
      LineEntries(line) == if ci >= 0 then EntriesFor(words[0], hs[..ci], Some(Join(hs[ci..], " ")))
        else EntriesFor(words[0], hs, None)
  {
  }

  lemma CommentedLineEntries(ip: string, host: string, word: string)
    requires IsWord(ip) && ip[0] != '#' && IsWord(host) && '#' !in host && IsWord(word)
    ensures LineEntries(CommentedLine(ip, host, word)) == [HostEntry(ip, host, Some("# " + word))]
  {
    var line := CommentedLine(ip, host, word);
    CommentedLineWords(ip, host, word);
    LineEntriesOfWords(line, [ip, host, "#", word]);
    var hostnames := [host, "#", word];
    assert [ip, host, "#", word][1..] == hostnames;
    ContainsChar(host, '#');
    ContainsChar("#", '#');
    assert CommentIndex(hostnames) == 1;
    assert hostnames[1..] == ["#", word];
    assert Join(["#", word], " ") == "#" + " " + word;
    assert "#" + " " + word == "# " + word;
    assert EntriesFor(ip, hostnames[..1], Some("# " + word)) == [HostEntry(ip, host, Some("# " + word))];
  }

  /** On a one-line file each removal keeps the line or empties the file. */
  lemma RemoveOneLine(line: string, hostname: string)
    requires '\n' !in line
    ensures RemoveHostText(line, hostname) == if KeepsLine(hostname, line) then line else ""
    ensures RemoveHostTextFixed(line, hostname) == if KeepsLineFixed(hostname, line) then line else ""
  {
    SplitNoSep(line, '\n');
    assert Filter([line], KeepLine(hostname)) == (if KeepsLine(hostname, line) then [line] else []) + Filter([], KeepLine(hostname));
    assert Filter([line], KeepLineFixed(hostname)) == (if KeepsLineFixed(hostname, line) then [line] else []) + Filter([], KeepLineFixed(hostname));
  }

  lemma CommentedLineOneLine(ip: string, host: string, word: string)
    requires NoSpace(ip) && NoSpace(host) && NoSpace(word)
    ensures '\n' !in CommentedLine(ip, host, word)
  {
    assert IsSpace('\n');
    assert '\n' !in ip && '\n' !in host && '\n' !in word;
  }

  /** `ip host # word` holds the single entry for `host`; yet the
      as-written filter drops the whole line when asked to remove `word`,
      which is no host of the file. (For instance `127.0.0.1 foo # bar` and
      `bar`.) */
  lemma RemoveCommentCounterexample(ip: string, host: string, word: string)
    requires IsWord(ip) && ip[0] != '#' && IsWord(host) && '#' !in host && IsWord(word)
    requires word != host
    ensures HostEntries(CommentedLine(ip, host, word)) == [HostEntry(ip, host, Some("# " + word))]
    ensures !HostExists(Some(CommentedLine(ip, host, word)), word)
    ensures RemoveHostText(CommentedLine(ip, host, word), word) == ""
  {
    CommentedLineOneLine(ip, host, word);
    CommentedFile(ip, host, word);
    CommentedDropped(ip, host, word);
    RemoveOneLine(CommentedLine(ip, host, word), word);
  }

  /** The corrected filter leaves the same file unchanged. */
  lemma RemoveCommentFixed(ip: string, host: string, word: string)
    requires IsWord(ip) && ip[0] != '#' && IsWord(host) && '#' !in host && IsWord(word)
    requires word != host
    ensures RemoveHostTextFixed(CommentedLine(ip, host, word), word) == CommentedLine(ip, host, word)
  {
    var line := CommentedLine(ip, host, word);
    CommentedLineOneLine(ip, host, word);
    CommentedLineEntries(ip, host, word);
    assert KeepsLineFixed(word, line);
    RemoveOneLine(line, word);
  }

  lemma CommentedFile(ip: string, host: string, word: string)
    requires IsWord(ip) && ip[0] != '#' && IsWord(host) && '#' !in host && IsWord(word)
    ensures HostEntries(CommentedLine(ip, host, word)) == [HostEntry(ip, host, Some("# " + word))]
  {
    var line := CommentedLine(ip, host, word);
    CommentedLineOneLine(ip, host, word);
    SplitNoSep(line, '\n');
    CommentedLineEntries(ip, host, word);
    assert HostEntries(line) == EntriesOfLines([]) + LineEntries(line);
  }

  lemma CommentedDropped(ip: string, host: string, word: string)
    requires IsWord(ip) && ip[0] != '#' && IsWord(host) && IsWord(word)
    ensures !KeepsLine(word, CommentedLine(ip, host, word))
  {
    CommentedLineWords(ip, host, word);
    assert [ip, host, "#", word][1..][2] == word;
  }
}
