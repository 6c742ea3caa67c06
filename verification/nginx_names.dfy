/** `isValidNginxServerName` (libs/nginx-utils.ts): a server name is valid
    when it is made of letters, digits, dots and hyphens, has at least one
    dot, and every dot-separated part has 1 to 63 characters and neither
    starts nor ends with a hyphen. */
module NginxNames {
  import opened Text

  /** The character class `[a-zA-Z0-9.-]`. */
  predicate IsNameChar(c: char) {
    ('a' <= c <= 'z') || ('A' <= c <= 'Z') || ('0' <= c <= '9') || c == '.' || c == '-'
  }

  /** A letter, digit or hyphen: a name character other than the dot. */
  predicate IsLabelChar(c: char) {
    IsNameChar(c) && c != '.'
  }

  /** `/^[a-zA-Z0-9.-]+$/.test(name)`. */
  predicate MatchesNamePattern(name: string) {
    |name| > 0 && forall i :: 0 <= i < |name| ==> IsNameChar(name[i])
  }

  /** The test the loop applies to each part. */
  predicate PartOk(part: string) {
    0 < |part| <= 63 && part[0] != '-' && part[|part| - 1] != '-'
  }

  /** The three tests in the order the source applies them. */
  predicate ValidServerName(name: string) {
    && MatchesNamePattern(name)
    && |Split(name, '.')| >= 2
    && forall i :: 0 <= i < |Split(name, '.')| ==> PartOk(Split(name, '.')[i])
  }

  /** A host-name label: 1 to 63 letters, digits or hyphens, not starting or
      ending with a hyphen. */
  predicate IsLabel(l: string) {
    PartOk(l) && forall i :: 0 <= i < |l| ==> IsLabelChar(l[i])
  }

  /** `name` is two or more labels joined by dots. */
  predicate IsDottedName(labels: seq<string>, name: string) {
    && |labels| >= 2
    && (forall i :: 0 <= i < |labels| ==> IsLabel(labels[i]))
    && name == Join(labels, ".")
  }

  /** `isValidNginxServerName(name)`: the character test, then the part
      count, then each part in turn, returning on the first failure. */
  method IsValidNginxServerName(name: string) returns (ok: bool)
    ensures ok == ValidServerName(name)
  {
    if |name| == 0 {
      return false;
    }
    for i := 0 to |name|
      invariant forall k :: 0 <= k < i ==> IsNameChar(name[k])
    {
      if !IsNameChar(name[i]) {
        return false;
      }
    }
    var parts := Split(name, '.');
    if |parts| < 2 {
      return false;
    }
    for i := 0 to |parts|
      invariant forall k :: 0 <= k < i ==> PartOk(parts[k])
    {
      var part := parts[i];
      if |part| == 0 || |part| > 63 {
        return false;
      }
      if part[0] == '-' || part[|part| - 1] == '-' {
        return false;
      }
    }
    return true;
  }

  /** Every character of a part of a split comes from the split string. */
  lemma {:induction false} SplitChars(s: string, sep: char, c: char)
    requires c !in s
    ensures forall i :: 0 <= i < |Split(s, sep)| ==> c !in Split(s, sep)[i]
  {
    if s != [] {
      SplitChars(s[1..], sep, c);
      var rest := Split(s[1..], sep);
      if s[0] != sep {
        assert forall i :: 1 <= i < |rest| ==> Split(s, sep)[i] == rest[i];
      } else {
        assert forall i :: 1 <= i < |Split(s, sep)| ==> Split(s, sep)[i] == rest[i - 1];
      }
    }
  }

  /** Every character of a joined string is a separator character or a
      character of one of the parts. */
  lemma {:induction false} JoinChars(parts: seq<string>, c: char)
    requires c != '.'
    requires forall i :: 0 <= i < |parts| ==> c !in parts[i]
    ensures c !in Join(parts, ".")
  {
    if |parts| > 1 {
      JoinChars(parts[1..], c);
    }
  }

  /** A valid server name is two or more labels joined by dots: the parts of
      its split. */
  lemma ValidNameIsDotted(name: string)
    requires ValidServerName(name)
    ensures IsDottedName(Split(name, '.'), name)
  {
    var parts := Split(name, '.');
    JoinSplit(name, '.');
    forall i, k | 0 <= i < |parts| && 0 <= k < |parts[i]|
      ensures IsLabelChar(parts[i][k])
    {
      var c := parts[i][k];
      if !IsNameChar(c) {
        assert c !in name;
        SplitChars(name, '.', c);
        assert false;
      }
    }
  }

  /** Two or more labels joined by dots make a valid server name. */
  lemma DottedNameIsValid(labels: seq<string>, name: string)
    requires IsDottedName(labels, name)
    ensures ValidServerName(name)
  {
    SplitJoin(labels, '.');
    forall k | 0 <= k < |name|
      ensures IsNameChar(name[k])
    {
      var c := name[k];
      if !IsNameChar(c) {
        JoinChars(labels, c);
        assert false;
      }
    }
    assert |name| > 0 by {
      assert name == labels[0] + "." + Join(labels[1..], ".");
    }
  }

  /** The source's three tests accept exactly the dotted host names. */
  lemma ValidIffDotted(name: string)
    ensures ValidServerName(name) <==> IsDottedName(Split(name, '.'), name)
  {
    if ValidServerName(name) {
      ValidNameIsDotted(name);
    }
    if IsDottedName(Split(name, '.'), name) {
      DottedNameIsValid(Split(name, '.'), name);
    }
  }

  /** A valid name neither starts nor ends with a dot or a hyphen, and has
      no two dots in a row. */
  lemma {:induction false} ValidNameEdges(name: string)
    requires ValidServerName(name)
    ensures name[0] != '.' && name[0] != '-'
    ensures name[|name| - 1] != '.' && name[|name| - 1] != '-'
    ensures forall i :: 0 <= i < |name| - 1 && name[i] == '.' ==> name[i + 1] != '.'
  {
    ValidNameIsDotted(name);
    var parts := Split(name, '.');
    DottedEdges(parts);
  }

  lemma {:induction false} DottedEdges(labels: seq<string>)
    requires |labels| >= 1
    requires forall i :: 0 <= i < |labels| ==> IsLabel(labels[i])
    ensures |labels[0]| > 0 && |labels[|labels| - 1]| > 0
    ensures var n := Join(labels, ".");
      && |n| > 0
      && n[0] == labels[0][0]
      && n[|n| - 1] == labels[|labels| - 1][|labels[|labels| - 1]| - 1]
      && forall i :: 0 <= i < |n| - 1 && n[i] == '.' ==> n[i + 1] != '.' && n[i + 1] != '-' && i > 0
  {
    if |labels| > 1 {
      DottedEdges(labels[1..]);
      var l := labels[0];
      var t := Join(labels[1..], ".");
      var n := Join(labels, ".");
      assert n == l + "." + t;
      forall i | 0 <= i < |n| - 1 && n[i] == '.'
        ensures n[i + 1] != '.' && n[i + 1] != '-' && i > 0
      {
        if i < |l| {
          assert false;
        } else if i == |l| {
          assert n[i + 1] == t[0];
        } else {
          assert n[i] == t[i - |l| - 1];
          assert n[i + 1] == t[i - |l|];
        }
      }
    } else {
      var l := labels[0];
      assert Join(labels, ".") == l;
    }
  }
}
