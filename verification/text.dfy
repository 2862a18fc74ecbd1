/** String helpers shared by the request validators, the category forms and
    the CSV export: JavaScript's whitespace class, `trim`, `Array.join`, and
    splitting a joined string back into its parts. */
module Text {

  /** JavaScript's `\s` class (WhiteSpace and LineTerminator code points).
      Both `String.prototype.trim` and the validator library's `trim`
      strip exactly these characters. */
  predicate IsSpace(c: char) {
    || c == '\t' || c == '\n' || c == '\U{000B}' || c == '\U{000C}' || c == '\r' || c == ' '
    || c == '\U{00A0}' || c == '\U{1680}' || ('\U{2000}' <= c <= '\U{200A}')
    || c == '\U{2028}' || c == '\U{2029}' || c == '\U{202F}' || c == '\U{205F}'
    || c == '\U{3000}' || c == '\U{FEFF}'
  }

  predicate AllSpace(s: string) {
    forall k :: 0 <= k < |s| ==> IsSpace(s[k])
  }

  /** Drops trailing whitespace: the result is a prefix of `s`, everything cut
      off is whitespace, and the result does not end with whitespace. */
  function TrimEnd(s: string): (r: string)
    ensures |r| <= |s| && r == s[..|r|]
    ensures AllSpace(s[|r|..])
    ensures |r| > 0 ==> !IsSpace(r[|r| - 1])
  {
    if |s| > 0 && IsSpace(s[|s| - 1]) then TrimEnd(s[..|s| - 1]) else s
  }

  /** The number of whitespace characters `s` starts with. */
  function Lead(s: string): (n: nat)
    ensures n <= |s| && AllSpace(s[..n])
    ensures n < |s| ==> !IsSpace(s[n])
    decreases |s|
  {
    if |s| > 0 && IsSpace(s[0]) then
      var n := 1 + Lead(s[1..]);
      assert s[..n] == [s[0]] + s[1..][..n - 1];
      n
    else 0
  }

  /** `s.trim()`: the maximal slice of `s` that neither starts nor ends with
      whitespace; it starts after the leading whitespace, and everything
      after it is whitespace too. */
  function Trim(s: string): (r: string)
    ensures Lead(s) + |r| <= |s| && r == s[Lead(s)..Lead(s) + |r|]
    ensures AllSpace(s[Lead(s) + |r|..])
    ensures |r| > 0 ==> !IsSpace(r[0]) && !IsSpace(r[|r| - 1])
  {
    var i := Lead(s);
    var r := TrimEnd(s[i..]);
    assert s[i + |r|..] == s[i..][|r|..];
    r
  }

  lemma AllSpaceAppend(a: string, b: string)
    requires AllSpace(a) && AllSpace(b)
    ensures AllSpace(a + b)
  {
    forall k | 0 <= k < |a + b| ensures IsSpace((a + b)[k]) {
      if k < |a| { assert (a + b)[k] == a[k]; } else { assert (a + b)[k] == b[k - |a|]; }
    }
  }

  /** A string trims to the empty string exactly when it is all whitespace. */
  lemma TrimEmptyIffBlank(s: string)
    ensures Trim(s) == "" <==> AllSpace(s)
  {
    var r, i := Trim(s), Lead(s);
    if r == "" {
      AllSpaceAppend(s[..i], s[i..]);
      assert s[..i] + s[i..] == s;
    } else {
      assert s[i] == r[0];
    }
  }

  /** Trimming twice is trimming once. */
  lemma TrimIdempotent(s: string)
    ensures Trim(Trim(s)) == Trim(s)
  {
    var r := Trim(s);
    if |r| > 0 {
      assert Lead(r) == 0;
      assert r[0..] == r;
      assert TrimEnd(r) == r;
    }
  }

  /** `parts.join(sep)`. */
  function Join(parts: seq<string>, sep: string): string
    decreases |parts|
  {
    if |parts| == 0 then ""
    else if |parts| == 1 then parts[0]
    else parts[0] + sep + Join(parts[1..], sep)
  }

  /** Index of the first occurrence of `sep` in `s`, or `|s|` when there is none. */
  function FindFrom(s: string, sep: string, i: nat): (r: nat)
    requires |sep| > 0 && i <= |s|
    ensures i <= r <= |s|
    ensures r < |s| ==> r + |sep| <= |s| && s[r..r + |sep|] == sep
    decreases |s| - i
  {
    if i + |sep| > |s| then |s|
    else if s[i..i + |sep|] == sep then i
    else FindFrom(s, sep, i + 1)
  }

  /** Cuts `s` at every occurrence of `sep`, scanning left to right. */
  function Split(s: string, sep: string): seq<string>
    requires |sep| > 0
    decreases |s|
  {
    var i := FindFrom(s, sep, 0);
    if i == |s| then [s] else [s[..i]] + Split(s[i + |sep|..], sep)
  }

  /** No character of `sep` occurs in `s`. */
  predicate AvoidsChars(s: string, sep: string) {
    forall k :: 0 <= k < |s| ==> s[k] !in sep
  }

  lemma {:induction false} FindFromSkips(p: string, sep: string, t: string, i: nat)
    requires |sep| > 0 && AvoidsChars(p, sep) && i <= |p|
    ensures FindFrom(p + sep + t, sep, i) == |p|
    decreases |p| - i
  {
    var s := p + sep + t;
    if i < |p| {
      assert s[i] == p[i] && s[i] !in sep;
      assert s[i..i + |sep|][0] == s[i];
      FindFromSkips(p, sep, t, i + 1);
    } else {
      assert s[i..i + |sep|] == sep;
    }
  }

  lemma {:induction false} FindFromAbsent(p: string, sep: string, i: nat)
    requires |sep| > 0 && AvoidsChars(p, sep) && i <= |p|
    ensures FindFrom(p, sep, i) == |p|
    decreases |p| - i
  {
    if i + |sep| <= |p| {
      assert p[i..i + |sep|][0] == p[i] && p[i] !in sep;
      FindFromAbsent(p, sep, i + 1);
    }
  }

  /** Splitting a join gives the parts back when no part contains any
      character of the separator. */
  lemma {:induction false} SplitJoin(parts: seq<string>, sep: string)
    requires |sep| > 0 && |parts| > 0
    requires forall j :: 0 <= j < |parts| ==> AvoidsChars(parts[j], sep)
    ensures Split(Join(parts, sep), sep) == parts
    decreases |parts|
  {
    if |parts| == 1 {
      FindFromAbsent(parts[0], sep, 0);
    } else {
      var rest := Join(parts[1..], sep);
      var s := parts[0] + sep + rest;
      assert Join(parts, sep) == s;
      FindFromSkips(parts[0], sep, rest, 0);
      assert s[..|parts[0]|] == parts[0];
      assert s[|parts[0]| + |sep|..] == rest;
      assert Split(s, sep) == [parts[0]] + Split(rest, sep);
      SplitJoin(parts[1..], sep);
      assert [parts[0]] + parts[1..] == parts;
    }
  }
}
