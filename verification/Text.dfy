/** The string operations the parsers rely on, on text as a sequence of characters. */
module Text {
  import opened Wrappers

  /** White space as strings.TrimSpace sees it. */
  predicate IsSpace(c: char) {
    || c in "\t\n\r \U{0B}\U{0C}\U{85}\U{A0}\U{1680}\U{2028}\U{2029}\U{202F}\U{205F}\U{3000}"
    || '\U{2000}' <= c <= '\U{200A}'
  }

  function TrimLeft(s: string): string {
    if s != "" && IsSpace(s[0]) then TrimLeft(s[1..]) else s
  }

  function TrimRight(s: string): string {
    if s != "" && IsSpace(s[|s| - 1]) then TrimRight(s[..|s| - 1]) else s
  }

  function TrimSpace(s: string): string {
    TrimRight(TrimLeft(s))
  }

  predicate Trimmed(s: string) {
    s == "" || (!IsSpace(s[0]) && !IsSpace(s[|s| - 1]))
  }

  predicate HasPrefix(s: string, prefix: string) {
    prefix <= s
  }

  predicate HasSuffix(s: string, suffix: string) {
    |suffix| <= |s| && s[|s| - |suffix|..] == suffix
  }

  function TrimSuffix(s: string, suffix: string): string {
    if HasSuffix(s, suffix) then s[..|s| - |suffix|] else s
  }

  predicate OccursAt(s: string, sub: string, i: int) {
    0 <= i <= |s| - |sub| && s[i..i + |sub|] == sub
  }

  predicate Contains(s: string, sub: string) {
    exists i :: 0 <= i <= |s| && OccursAt(s, sub, i)
  }

  /** First position of a character, or the length of the text. */
  function IndexOf(s: string, c: char): (n: nat)
    ensures n <= |s| && c !in s[..n]
    ensures n < |s| ==> s[n] == c
  {
    if s == "" || s[0] == c then 0
    else
      var n := 1 + IndexOf(s[1..], c);
      assert s[..n] == [s[0]] + s[1..][..n - 1];
      n
  }

  function Cut(s: string, c: char): Option<(string, string)> {
    var n := IndexOf(s, c);
    if n == |s| then None else Some((s[..n], s[n + 1..]))
  }

  /** Lower case, for every character whose lower case is an ASCII letter: A to Z, the
      dotted capital I and the Kelvin sign. */
  function LowerChar(c: char): char {
    if 'A' <= c <= 'Z' then (c as int + 32) as char
    else if c == '\U{130}' then 'i'
    else if c == '\U{212A}' then 'k'
    else c
  }

  function Lower(s: string): string {
    seq(|s|, i requires 0 <= i < |s| => LowerChar(s[i]))
  }

  function Split(s: string, sep: char): (parts: seq<string>)
    ensures |parts| > 0
    decreases |s|
  {
    var n := IndexOf(s, sep);
    if n == |s| then [s] else [s[..n]] + Split(s[n + 1..], sep)
  }

  /** Number of bytes of the UTF-8 form, which is what Go's len counts. */
  function ByteLen(s: string): (n: nat)
    ensures |s| <= n
  {
    if s == "" then 0
    else (if s[0] < '\U{80}' then 1 else if s[0] < '\U{800}' then 2 else if s[0] < '\U{10000}' then 3 else 4)
         + ByteLen(s[1..])
  }

  // ----------------------------------------------------------------- lemmas

  /** One byte for ASCII, two up to U+07FF, three up to U+FFFF, four beyond. */
  lemma {:induction false} ByteLenGrows(s: string, c: char)
    ensures ByteLen(s + [c]) == ByteLen(s) + if c as int <= 127 then 1 else if c as int <= 2047 then 2
                                             else if c as int <= 65535 then 3 else 4
  {
    if s == "" {
      assert [c][1..] == "" && "" + [c] == [c];
    } else {
      ByteLenGrows(s[1..], c);
      assert (s + [c])[1..] == s[1..] + [c];
    }
  }

  lemma TrimOfTrimmed(s: string)
    requires Trimmed(s)
    ensures TrimSpace(s) == s
  {
  }

  lemma {:induction false} TrimLeftShape(s: string)
    ensures exists k :: 0 <= k <= |s| && TrimLeft(s) == s[k..]
    ensures TrimLeft(s) == "" || !IsSpace(TrimLeft(s)[0])
  {
    hide IsSpace;
    if s != "" && IsSpace(s[0]) {
      TrimLeftShape(s[1..]);
      var k :| 0 <= k <= |s[1..]| && TrimLeft(s[1..]) == s[1..][k..];
      assert s[1..][k..] == s[k + 1..];
    } else {
      assert s == s[0..];
    }
  }

  lemma {:induction false} TrimRightShape(s: string)
    ensures exists k :: 0 <= k <= |s| && TrimRight(s) == s[..k]
    ensures TrimRight(s) == "" || !IsSpace(TrimRight(s)[|TrimRight(s)| - 1])
  {
    hide IsSpace;
    if s != "" && IsSpace(s[|s| - 1]) {
      var t := s[..|s| - 1];
      TrimRightShape(t);
      var k :| 0 <= k <= |t| && TrimRight(t) == t[..k];
      assert t[..k] == s[..k];
    } else {
      assert s == s[..|s|];
    }
  }

  /** Trimming leaves a trimmed piece of the text. */
  lemma TrimIsTrimmed(s: string)
    ensures Trimmed(TrimSpace(s))
    ensures forall c :: c in TrimSpace(s) ==> c in s
  {
    TrimLeftShape(s);
    TrimRightShape(TrimLeft(s));
  }

  predicate Spaces(s: string) {
    forall c :: c in s ==> IsSpace(c)
  }

  /** Blanks and tabs. */
  predicate Blanks(s: string) {
    forall c :: c in s ==> c == ' ' || c == '\t'
  }

  lemma BlanksAreSpaces(s: string)
    requires Blanks(s)
    ensures Spaces(s)
  {
    assert IsSpace(' ') && IsSpace('\t');
    hide IsSpace;
  }

  lemma {:induction false} TrimLeftSpaces(l: string, s: string)
    requires Spaces(l)
    ensures TrimLeft(l + s) == TrimLeft(s)
    decreases |l|
  {
    hide IsSpace;
    if l == "" {
      assert l + s == s;
    } else {
      assert l[0] in l && (l + s)[1..] == l[1..] + s && forall c :: c in l[1..] ==> c in l;
      TrimLeftSpaces(l[1..], s);
    }
  }

  lemma {:induction false} TrimRightSpaces(s: string, r: string)
    requires Spaces(r)
    ensures TrimRight(s + r) == TrimRight(s)
    decreases |r|
  {
    hide IsSpace;
    if r == "" {
      assert s + r == s;
    } else {
      var n := |r| - 1;
      assert r[n] in r && (s + r)[..|s| + n] == s + r[..n] && forall c :: c in r[..n] ==> c in r;
      TrimRightSpaces(s, r[..n]);
    }
  }

  /** Trimming takes off exactly the space around a trimmed text. */
  lemma TrimAround(l: string, m: string, r: string)
    requires Spaces(l) && Spaces(r) && Trimmed(m)
    ensures TrimSpace(l + m + r) == m
  {
    hide IsSpace;
    assert l + m + r == l + (m + r);
    TrimLeftSpaces(l, m + r);
    if m == "" {
      assert m + r == r && r + "" == r && "" + "" == "";
      TrimLeftSpaces(r, "");
    } else {
      assert (m + r)[0] == m[0];
      TrimRightSpaces(m, r);
    }
  }

  /** What trimming takes off. */
  lemma TrimParts(s: string) returns (l: string, r: string)
    ensures s == l + TrimSpace(s) + r && Spaces(l) && Spaces(r)
  {
    hide IsSpace;
    l := TrimLeftPart(s);
    r := TrimRightPart(TrimLeft(s));
  }

  lemma {:induction false} TrimLeftPart(s: string) returns (l: string)
    ensures s == l + TrimLeft(s) && Spaces(l)
  {
    hide IsSpace;
    if s != "" && IsSpace(s[0]) {
      var rest := TrimLeftPart(s[1..]);
      l := [s[0]] + rest;
    } else {
      l := "";
    }
  }

  lemma {:induction false} TrimRightPart(s: string) returns (r: string)
    ensures s == TrimRight(s) + r && Spaces(r)
  {
    hide IsSpace;
    if s != "" && IsSpace(s[|s| - 1]) {
      var rest := TrimRightPart(s[..|s| - 1]);
      r := rest + [s[|s| - 1]];
    } else {
      r := "";
    }
  }

  /** The same letters, but for the case of those from A to Z. */
  predicate SameButCase(a: string, b: string) {
    |a| == |b| && forall i :: 0 <= i < |a| ==>
      a[i] == b[i] || ('A' <= a[i] <= 'Z' && b[i] == (a[i] as int + 32) as char)
                   || ('A' <= b[i] <= 'Z' && a[i] == (b[i] as int + 32) as char)
  }

  lemma LowerIgnoresCase(a: string, b: string)
    requires SameButCase(a, b)
    ensures Lower(a) == Lower(b)
  {
  }

  /** A character missing from a text is missing from its pieces. */
  lemma PiecesLack(s: string, c: char)
    requires c !in s
    ensures c !in TrimSpace(s) && c !in TrimSuffix(s, "\r")
    ensures Cut(s, ':').Some? ==> c !in Cut(s, ':').value.1
  {
    TrimIsTrimmed(s);
  }

  /** Leading blanks before a trimmed text disappear. */
  lemma TrimBlankPrefix(v: string)
    requires Trimmed(v)
    ensures TrimSpace(" " + v) == v
  {
    assert (" " + v)[1..] == v;
    assert TrimLeft(" " + v) == TrimLeft(v);
  }

  lemma IndexOfAfter(a: string, c: char, b: string)
    requires c !in a
    ensures IndexOf(a + [c] + b, c) == |a|
  {
    var s := a + [c] + b;
    var before := s[..IndexOf(s, c)];
    assert s[|a|] == c && forall k :: 0 <= k < |a| ==> s[k] == a[k];
    assert c !in before && forall k :: 0 <= k < |before| ==> before[k] == s[k];
  }

  lemma CutAfter(a: string, c: char, b: string)
    requires c !in a
    ensures Cut(a + [c] + b, c) == Some((a, b))
  {
    IndexOfAfter(a, c, b);
    var s := a + [c] + b;
    assert s[..|a|] == a && s[|a| + 1..] == b;
  }

  lemma SplitAfter(a: string, sep: char, b: string)
    requires sep !in a
    ensures Split(a + [sep] + b, sep) == [a] + Split(b, sep)
  {
    IndexOfAfter(a, sep, b);
    var s := a + [sep] + b;
    assert s[..|a|] == a && s[|a| + 1..] == b;
  }

  /** No piece of a split contains the separator. */
  lemma {:induction false} SplitPieces(s: string, sep: char)
    ensures forall k :: 0 <= k < |Split(s, sep)| ==> sep !in Split(s, sep)[k]
    decreases |s|
  {
    var n := IndexOf(s, sep);
    if n == |s| {
      assert s == s[..n];
    } else {
      SplitPieces(s[n + 1..], sep);
    }
  }
}
