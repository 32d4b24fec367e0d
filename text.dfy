/**
 * Character classes and string operations of the two runtimes the system runs on
 * (JavaScript for the backend and the pages, Python for the generation service),
 * written out over Dafny strings (sequences of Unicode scalar values).
 */
module Text {

  import opened Wrappers

  /** Which runtime's notion of whitespace a trim or a `\s` follows. */
  datatype Runtime = JavaScript | Python

  /** A JavaScript LineTerminator: the characters a regex `.` does not match. */
  predicate IsLineTerminator(c: char) {
    c == '\n' || c == '\r' || c == '\U{2028}' || c == '\U{2029}'
  }

  /** A character that a regex `.` matches. */
  predicate IsLineChar(c: char) { !IsLineTerminator(c) }

  /** What a regex `\w` matches. */
  predicate IsWordChar(c: char) {
    ('a' <= c <= 'z') || ('A' <= c <= 'Z') || ('0' <= c <= '9') || c == '_'
  }

  /** JavaScript WhiteSpace or LineTerminator: what `\s` matches and `trim()` removes. */
  predicate IsJsSpace(c: char) {
    || c == '\t' || c == '\n' || c == '\U{B}' || c == '\U{C}' || c == '\r' || c == ' '
    || c == '\U{A0}' || c == '\U{1680}' || ('\U{2000}' <= c <= '\U{200A}')
    || c == '\U{2028}' || c == '\U{2029}' || c == '\U{202F}' || c == '\U{205F}'
    || c == '\U{3000}' || c == '\U{FEFF}'
  }

  /** Python's `str.isspace()`: what `str.strip()` removes. */
  predicate IsPySpace(c: char) {
    || ('\t' <= c <= '\r') || ('\U{1C}' <= c <= '\U{1F}') || c == ' ' || c == '\U{85}'
    || c == '\U{A0}' || c == '\U{1680}' || ('\U{2000}' <= c <= '\U{200A}')
    || c == '\U{2028}' || c == '\U{2029}' || c == '\U{202F}' || c == '\U{205F}' || c == '\U{3000}'
  }

  predicate IsSpace(rt: Runtime, c: char) {
    if rt == JavaScript then IsJsSpace(c) else IsPySpace(c)
  }

  predicate AllSpace(rt: Runtime, s: string) {
    forall i :: 0 <= i < |s| ==> IsSpace(rt, s[i])
  }

  /** Drops the leading whitespace. */
  function TrimStart(rt: Runtime, s: string): (r: string)
    ensures |r| <= |s|
  {
    if s != [] && IsSpace(rt, s[0]) then TrimStart(rt, s[1..]) else s
  }

  /** What `TrimStart` leaves: a suffix of `s` after only whitespace, not starting with whitespace. */
  lemma {:induction false} TrimStartSpec(rt: Runtime, s: string)
    ensures var r := TrimStart(rt, s);
      && r == s[|s| - |r|..] && AllSpace(rt, s[..|s| - |r|])
      && (r == [] || !IsSpace(rt, r[0]))
  {
    if s != [] && IsSpace(rt, s[0]) {
      TrimStartSpec(rt, s[1..]);
      var r := TrimStart(rt, s);
      assert s[..|s| - |r|] == [s[0]] + s[1..][..|s| - 1 - |r|];
    }
  }

  /** Drops the trailing whitespace. */
  function TrimEnd(rt: Runtime, s: string): (r: string)
    ensures |r| <= |s|
  {
    if s != [] && IsSpace(rt, s[|s| - 1]) then TrimEnd(rt, s[..|s| - 1]) else s
  }

  /** What `TrimEnd` leaves: a prefix of `s` before only whitespace, not ending with whitespace. */
  lemma {:induction false} TrimEndSpec(rt: Runtime, s: string)
    ensures var r := TrimEnd(rt, s);
      && r == s[..|r|] && AllSpace(rt, s[|r|..])
      && (r == [] || !IsSpace(rt, r[|r| - 1]))
  {
    if s != [] && IsSpace(rt, s[|s| - 1]) {
      TrimEndSpec(rt, s[..|s| - 1]);
      var r := TrimEnd(rt, s);
      assert s[|r|..] == s[..|s| - 1][|r|..] + [s[|s| - 1]];
    }
  }

  /** `s.trim()` in JavaScript, `s.strip()` in Python. */
  function Trim(rt: Runtime, s: string): (r: string)
    ensures |r| <= |s|
  {
    TrimEnd(rt, TrimStart(rt, s))
  }

  /** Trimming keeps the middle of `s`: only whitespace is dropped on either side, and the
      result neither starts nor ends with whitespace. */
  lemma TrimSpec(rt: Runtime, s: string)
    ensures var r := Trim(rt, s);
      && (exists i ::
            && 0 <= i <= |s| - |r| && r == s[i..i + |r|]
            && AllSpace(rt, s[..i]) && AllSpace(rt, s[i + |r|..]))
      && (r == [] || (!IsSpace(rt, r[0]) && !IsSpace(rt, r[|r| - 1])))
  {
    var a := TrimStart(rt, s);
    var r := TrimEnd(rt, a);
    TrimStartSpec(rt, s);
    TrimEndSpec(rt, a);
    var i := |s| - |a|;
    assert r == s[i..i + |r|];
    assert s[i + |r|..] == a[|r|..];
    if r != [] {
      assert r[0] == a[0];
    }
  }

  /** A string that neither starts nor ends with whitespace is its own trim. */
  lemma TrimUntouched(rt: Runtime, s: string)
    requires s != [] && !IsSpace(rt, s[0]) && !IsSpace(rt, s[|s| - 1])
    ensures Trim(rt, s) == s
  {
  }

  /** `TrimStart` keeps a suffix. */
  lemma {:induction false} TrimStartSuffix(rt: Runtime, s: string)
    ensures var r := TrimStart(rt, s); r == s[|s| - |r|..]
  {
    if s != [] && IsSpace(rt, s[0]) {
      TrimStartSuffix(rt, s[1..]);
    }
  }

  /** `TrimEnd` keeps a prefix. */
  lemma {:induction false} TrimEndPrefix(rt: Runtime, s: string)
    ensures var r := TrimEnd(rt, s); r == s[..|r|]
  {
    if s != [] && IsSpace(rt, s[|s| - 1]) {
      TrimEndPrefix(rt, s[..|s| - 1]);
    }
  }

  /** The trimmed string is the slice of `s` after its leading whitespace. */
  lemma TrimSlice(rt: Runtime, s: string)
    ensures var r, i := Trim(rt, s), |s| - |TrimStart(rt, s)|;
      0 <= i && i + |r| <= |s| && r == s[i..i + |r|]
  {
    var a := TrimStart(rt, s);
    TrimStartSuffix(rt, s);
    TrimEndPrefix(rt, a);
  }

  /** A trimmed string neither starts nor ends with whitespace. */
  lemma TrimEnds(rt: Runtime, s: string)
    ensures var r := Trim(rt, s); r == [] || (!IsSpace(rt, r[0]) && !IsSpace(rt, r[|r| - 1]))
  {
    var a := TrimStart(rt, s);
    var r := TrimEnd(rt, a);
    TrimStartSpec(rt, s);
    TrimEndSpec(rt, a);
    if r != [] {
      assert r[0] == a[0];
    }
  }

  /** Every character of a trimmed string is a character of the string. */
  lemma TrimKeepsChars(rt: Runtime, s: string, p: char -> bool)
    requires forall u :: 0 <= u < |s| ==> p(s[u])
    ensures var r := Trim(rt, s); forall u :: 0 <= u < |r| ==> p(r[u])
  {
    var r, a := Trim(rt, s), |s| - |TrimStart(rt, s)|;
    TrimSlice(rt, s);
    forall u | 0 <= u < |r| ensures p(r[u]) {
      assert r[u] == s[a + u];
    }
  }

  /** A pattern absent from a string is absent from its trimmed form. */
  lemma TrimKeepsAbsent(rt: Runtime, s: string, pat: string)
    requires !Contains(s, pat)
    ensures !Contains(Trim(rt, s), pat)
  {
    var r, a := Trim(rt, s), |s| - |TrimStart(rt, s)|;
    TrimSlice(rt, s);
    AbsentFromPart(s, a, a + |r|, pat);
  }

  lemma TrimIdempotent(rt: Runtime, s: string)
    ensures Trim(rt, Trim(rt, s)) == Trim(rt, s)
  {
    var r := Trim(rt, s);
    TrimEnds(rt, s);
    assert TrimStart(rt, r) == r;
    assert TrimEnd(rt, r) == r;
  }

  /** Leading whitespace in front of a text that starts with a non-space is exactly what
      `TrimStart` drops. */
  lemma {:induction false} TrimStartAfterSpace(rt: Runtime, pre: string, s: string)
    requires AllSpace(rt, pre) && (s == [] || !IsSpace(rt, s[0]))
    ensures TrimStart(rt, pre + s) == s
  {
    if pre == [] {
      assert pre + s == s;
    } else {
      assert (pre + s)[0] == pre[0];
      assert (pre + s)[1..] == pre[1..] + s;
      TrimStartAfterSpace(rt, pre[1..], s);
    }
  }

  /** A string of whitespace trims to nothing at its end. */
  lemma {:induction false} TrimEndAllSpace(rt: Runtime, s: string)
    requires AllSpace(rt, s)
    ensures TrimEnd(rt, s) == []
  {
    if s != [] {
      TrimEndAllSpace(rt, s[..|s| - 1]);
    }
  }

  /** `TrimEnd` never reaches into a head that ends with a non-space. */
  lemma {:induction false} TrimEndKeepsHead(rt: Runtime, h: string, rest: string)
    requires h != [] && !IsSpace(rt, h[|h| - 1])
    ensures TrimEnd(rt, h + rest) == h + TrimEnd(rt, rest)
    decreases |rest|
  {
    if rest == [] {
      assert h + rest == h;
    } else {
      var init := rest[..|rest| - 1];
      assert (h + rest)[|h + rest| - 1] == rest[|rest| - 1];
      assert (h + rest)[..|h + rest| - 1] == h + init;
      if IsSpace(rt, rest[|rest| - 1]) {
        TrimEndKeepsHead(rt, h, init);
      }
    }
  }

  /** A pattern is not made by gluing two strings without it, when the first one ends or the
      second one starts with a character the pattern does not have. */
  lemma NotContainsConcat(a: string, b: string, pat: string)
    requires pat != [] && !Contains(a, pat) && !Contains(b, pat)
    requires (a != [] && a[|a| - 1] !in pat) || b == [] || b[0] !in pat
    ensures !Contains(a + b, pat)
  {
    var s := a + b;
    forall i | 0 <= i <= |s| ensures !HasAt(s, i, pat) {
      if i + |pat| <= |s| {
        var w := s[i..i + |pat|];
        if i + |pat| <= |a| {
          assert w == a[i..i + |pat|];
          assert !HasAt(a, i, pat);
        } else if i >= |a| {
          assert w == b[i - |a|..i - |a| + |pat|];
          assert !HasAt(b, i - |a|, pat);
        } else {
          assert w[|a| - i] == b[0];
          assert w[|a| - 1 - i] == a[|a| - 1];
          assert b[0] in w && a[|a| - 1] in w;
        }
      }
    }
  }

  /** A string without the first character of a pattern does not contain it. */
  lemma NoFirstChar(s: string, pat: string)
    requires pat != [] && pat[0] !in s
    ensures !Contains(s, pat)
  {
    forall i | 0 <= i < |s| ensures !HasAt(s, i, pat) {
      assert s[i] in s;
      if i + |pat| <= |s| {
        assert s[i..i + |pat|][0] == s[i];
      }
    }
  }

  /** ASCII upper case letters become lower case; every other character is kept. */
  function LowerChar(c: char): char {
    if 'A' <= c <= 'Z' then (c as int + 32) as char else c
  }

  /** `toLowerCase()` restricted to ASCII letters. */
  function Lower(s: string): (r: string)
    ensures |r| == |s| && forall i :: 0 <= i < |s| ==> r[i] == LowerChar(s[i])
  {
    seq(|s|, i requires 0 <= i < |s| => LowerChar(s[i]))
  }

  /** `p` occurs in `s` starting at index `i`. */
  predicate HasAt(s: string, i: int, p: string) {
    0 <= i && i + |p| <= |s| && s[i..i + |p|] == p
  }

  /** A slice of text found at `st` is a slice of the text. */
  lemma SubSlice(s: string, st: nat, t: string, i: nat, j: nat)
    requires HasAt(s, st, t) && i <= j <= |t|
    ensures s[st + i..st + j] == t[i..j]
  {
    forall k | 0 <= k < j - i
      ensures s[st + i..st + j][k] == t[i..j][k]
    {
      assert s[st..st + |t|][i + k] == s[st + i + k];
    }
  }

  /** A character of text found at `st` is a character of the text. */
  lemma CharOf(s: string, st: nat, t: string, i: nat)
    requires HasAt(s, st, t) && i < |t|
    ensures s[st + i] == t[i]
  {
    assert s[st..st + |t|][i] == s[st + i];
  }

  /** Text made of two parts, found at `i`, has its second part at `j`. */
  lemma HasAtSplit(s: string, i: nat, j: nat, x: string, y: string)
    requires HasAt(s, i, x + y) && j == i + |x|
    ensures HasAt(s, i, x) && HasAt(s, j, y)
  {
    SubSlice(s, i, x + y, 0, |x|);
    SubSlice(s, i, x + y, |x|, |x| + |y|);
    assert (x + y)[..|x|] == x;
    assert (x + y)[|x|..|x| + |y|] == y;
  }

  /** A run from `i` over text whose characters all satisfy `p` ends where that text ends,
      if the character there fails `p`. */
  lemma RunsOver(s: string, i: nat, k: nat, t: string, p: char -> bool)
    requires HasAt(s, i, t) && k == i + |t| && (forall u :: 0 <= u < |t| ==> p(t[u]))
    requires k == |s| || !p(s[k])
    ensures RunsTo(s, i, p, k)
  {
    forall u | i <= u < k ensures p(s[u]) {
      CharOf(s, i, t, u - i);
    }
    RunEndAt(s, i, k, p);
  }

  /** `s.includes(p)` / Python's `p in s`. */
  predicate Contains(s: string, p: string) {
    exists i :: 0 <= i <= |s| && HasAt(s, i, p)
  }

  predicate StartsWith(s: string, p: string) {
    |p| <= |s| && s[..|p|] == p
  }

  predicate EndsWith(s: string, p: string) {
    |p| <= |s| && s[|s| - |p|..] == p
  }

  /** Index of the first `c` in `s`, or `|s|` when there is none. */
  function FirstIndexOf(s: string, c: char): (k: nat)
    ensures k <= |s|
    ensures k < |s| ==> s[k] == c
    ensures forall i :: 0 <= i < k ==> s[i] != c
  {
    if s == [] then 0 else if s[0] == c then 0 else 1 + FirstIndexOf(s[1..], c)
  }

  /** `s.split(sep)` for a one-character separator: always at least one part, empty parts kept. */
  function Split(s: string, sep: char): (parts: seq<string>)
    ensures |parts| >= 1
    ensures forall i :: 0 <= i < |parts| ==> sep !in parts[i]
    decreases |s|
  {
    var k := FirstIndexOf(s, sep);
    if k == |s| then [s] else [s[..k]] + Split(s[k + 1..], sep)
  }

  /** A string without the separator splits into itself alone. */
  lemma SplitWithout(s: string, sep: char)
    requires sep !in s
    ensures Split(s, sep) == [s]
  {
    assert FirstIndexOf(s, sep) == |s|;
  }

  /** `parts.join(sep)`. */
  function Join(parts: seq<string>, sep: string): string {
    if |parts| == 0 then "" else if |parts| == 1 then parts[0] else parts[0] + sep + Join(parts[1..], sep)
  }

  /** Joining one more part adds the separator and the part, unless nothing came before. */
  lemma {:induction false} JoinSnoc(parts: seq<string>, p: string, sep: string)
    ensures Join(parts + [p], sep) == if parts == [] then p else Join(parts, sep) + sep + p
    decreases |parts|
  {
    if |parts| >= 2 {
      JoinSnoc(parts[1..], p, sep);
      assert (parts + [p])[1..] == parts[1..] + [p];
    } else if |parts| == 1 {
      assert (parts + [p])[1..] == [p];
    }
  }

  /** Joining non-empty parts gives the empty string only for no parts. */
  lemma {:induction false} JoinNonEmpty(parts: seq<string>, sep: string)
    requires forall i :: 0 <= i < |parts| ==> parts[i] != []
    ensures Join(parts, sep) == [] <==> parts == []
  {
    if |parts| >= 1 {
      assert |Join(parts, sep)| >= |parts[0]|;
    }
  }

  /** Joining the parts of a split with the same separator gives back the string. */
  lemma {:induction false} JoinSplit(s: string, sep: char)
    ensures Join(Split(s, sep), [sep]) == s
    decreases |s|
  {
    var k := FirstIndexOf(s, sep);
    if k < |s| {
      var rest := s[k + 1..];
      JoinSplit(rest, sep);
      assert s == s[..k] + [sep] + rest;
    }
  }

  /** `s.split(sep).pop()`: the text after the last separator, or all of `s` when there is none. */
  function LastSegment(s: string, sep: char): (r: string)
    ensures sep !in r && EndsWith(s, r)
    ensures |r| == |s| || s[|s| - |r| - 1] == sep
    decreases |s|
  {
    if s == [] || s[|s| - 1] == sep then []
    else
      var p := s[..|s| - 1];
      var r := LastSegment(p, sep);
      EndsWithSnoc(s, r);
      assert |r| == |p| || s[|p| - |r| - 1] == p[|p| - |r| - 1];
      r + [s[|s| - 1]]
  }

  /** A suffix of all but the last character, with that character added, is a suffix. */
  lemma EndsWithSnoc(s: string, r: string)
    requires s != [] && EndsWith(s[..|s| - 1], r)
    ensures EndsWith(s, r + [s[|s| - 1]])
  {
    var p := s[..|s| - 1];
    assert forall i :: 0 <= i < |r| ==> r[i] == p[|p| - |r| + i] == s[|s| - |r| - 1 + i];
  }

  /** The text after a final separator is the last segment, whatever comes before it. */
  lemma {:induction false} LastSegmentAfter(p: string, sep: char, t: string)
    requires sep !in t
    ensures LastSegment(p + [sep] + t, sep) == t
    decreases |t|
  {
    var s := p + [sep] + t;
    if t != [] {
      var t' := t[..|t| - 1];
      assert s[..|s| - 1] == p + [sep] + t';
      LastSegmentAfter(p, sep, t');
      assert t == t' + [t[|t| - 1]];
    }
  }

  /** `s.substring(0, s.lastIndexOf(sep))`: the text before the last separator (`s` has one). */
  function BeforeLast(s: string, sep: char): (r: string)
    requires sep in s
    ensures s == r + [sep] + LastSegment(s, sep)
  {
    var t := LastSegment(s, sep);
    assert |t| < |s|;
    var n := |s| - |t| - 1;
    assert s == s[..n] + [s[n]] + s[n + 1..];
    s[..n]
  }

  /** Python's `str.replace(pat, rep)` and JavaScript's `replace(/pat/g, rep)` for a literal
      pattern: every occurrence, scanned left to right without overlap, is replaced. */
  function ReplaceAll(s: string, pat: string, rep: string): string
    requires pat != []
    decreases |s|
  {
    if |s| < |pat| then s
    else if s[..|pat|] == pat then rep + ReplaceAll(s[|pat|..], pat, rep)
    else [s[0]] + ReplaceAll(s[1..], pat, rep)
  }

  /** A string without the pattern is left as it is. */
  lemma {:induction false} ReplaceAllAbsent(s: string, pat: string, rep: string)
    requires pat != [] && !Contains(s, pat)
    ensures ReplaceAll(s, pat, rep) == s
    decreases |s|
  {
    if |s| >= |pat| {
      assert !HasAt(s, 0, pat);
      assert !Contains(s[1..], pat) by {
        forall i | 0 <= i <= |s[1..]| ensures !HasAt(s[1..], i, pat) {
          assert !HasAt(s, i + 1, pat);
        }
      }
      ReplaceAllAbsent(s[1..], pat, rep);
    }
  }

  function DigitChar(d: nat): char
    requires d < 10
  {
    ('0' as int + d) as char
  }

  /** `n.toString()` for a non-negative integer: decimal digits without leading zeros. */
  function NatToString(n: nat): (r: string)
    ensures |r| >= 1 && forall i :: 0 <= i < |r| ==> '0' <= r[i] <= '9'
    ensures r[0] == '0' ==> n == 0
    decreases n
  {
    if n < 10 then [DigitChar(n)] else NatToString(n / 10) + [DigitChar(n % 10)]
  }

  /** The value of a string of decimal digits. */
  function DecimalValue(s: string): nat
    requires forall i :: 0 <= i < |s| ==> '0' <= s[i] <= '9'
  {
    if s == [] then 0 else DecimalValue(s[..|s| - 1]) * 10 + (s[|s| - 1] as int - '0' as int)
  }

  /** The decimal rendering of a number reads back as that number. */
  lemma {:induction false} NatToStringRoundTrip(n: nat)
    ensures DecimalValue(NatToString(n)) == n
    decreases n
  {
    if n >= 10 {
      NatToStringRoundTrip(n / 10);
      var r := NatToString(n);
      assert r[..|r| - 1] == NatToString(n / 10);
    }
  }

  /** Two numbers with the same decimal rendering are equal. */
  lemma NatToStringInjective(m: nat, n: nat)
    requires NatToString(m) == NatToString(n)
    ensures m == n
  {
    NatToStringRoundTrip(m);
    NatToStringRoundTrip(n);
  }

  /** Number of UTF-16 code units of `s`: JavaScript's `s.length`. */
  function Utf16Length(s: string): (n: nat)
    ensures |s| <= n <= 2 * |s|
  {
    if s == [] then 0 else (if s[0] as int > 0xFFFF then 2 else 1) + Utf16Length(s[1..])
  }

  /** The UTF-16 code units of one character: itself below U+10000, else its surrogate pair. */
  function CodeUnits(c: char): (r: seq<int>)
    ensures |r| == (if c as int > 0xFFFF then 2 else 1)
    ensures forall i :: 0 <= i < |r| ==> 0 <= r[i] <= 0xFFFF
  {
    var v := c as int;
    if v <= 0xFFFF then [v] else [0xD800 + (v - 0x10000) / 0x400, 0xDC00 + (v - 0x10000) % 0x400]
  }

  /** The UTF-16 code units of `s`, as JavaScript stores the string. */
  function Utf16(s: string): (r: seq<int>)
    ensures |r| == Utf16Length(s)
  {
    if s == [] then [] else CodeUnits(s[0]) + Utf16(s[1..])
  }

  /** Lexicographic order on code-unit sequences: `a` sorts no later than `b`. */
  predicate UnitsLe(a: seq<int>, b: seq<int>) {
    a == [] || (b != [] && (a[0] < b[0] || (a[0] == b[0] && UnitsLe(a[1..], b[1..]))))
  }

  /** JavaScript's default string comparison (as in `Array.prototype.sort` without a
      comparator): lexicographic on UTF-16 code units. */
  predicate Utf16Le(a: string, b: string) {
    UnitsLe(Utf16(a), Utf16(b))
  }

  lemma {:induction false} UnitsLeTotal(a: seq<int>, b: seq<int>)
    ensures UnitsLe(a, b) || UnitsLe(b, a)
  {
    if a != [] && b != [] && a[0] == b[0] {
      UnitsLeTotal(a[1..], b[1..]);
    }
  }

  lemma {:induction false} UnitsLeTransitive(a: seq<int>, b: seq<int>, c: seq<int>)
    requires UnitsLe(a, b) && UnitsLe(b, c)
    ensures UnitsLe(a, c)
  {
    if a != [] && b != [] && c != [] && a[0] == b[0] == c[0] {
      UnitsLeTransitive(a[1..], b[1..], c[1..]);
    }
  }

  /** Up to U+FFFF every character is one code unit of its own value, so without characters
      above it the code-unit order and the code-point order agree. */
  lemma {:induction false} Utf16LeWithinBmp(a: string, b: string)
    requires forall i :: 0 <= i < |a| ==> a[i] as int <= 0xFFFF
    requires forall i :: 0 <= i < |b| ==> b[i] as int <= 0xFFFF
    ensures Utf16Le(a, b) <==> LexLe(a, b)
  {
    if a != [] && b != [] {
      assert Utf16(a) == [a[0] as int] + Utf16(a[1..]);
      assert Utf16(b) == [b[0] as int] + Utf16(b[1..]);
      assert Utf16(a)[1..] == Utf16(a[1..]);
      assert Utf16(b)[1..] == Utf16(b[1..]);
      Utf16LeWithinBmp(a[1..], b[1..]);
    }
  }

  /** A character above U+FFFF sorts before U+FF01 by code units, after it by code points. */
  lemma Utf16OrderDiffersFromCodePoints()
    ensures Utf16Le("\U{1F600}", "\U{FF01}") && !LexLe("\U{1F600}", "\U{FF01}")
  {
    assert Utf16("\U{1F600}")[0] == 0xD83D;
    assert Utf16("\U{FF01}") == [0xFF01];
  }

  /** End of the longest run of characters satisfying `p` that starts at `i`: a greedy `[...]*`. */
  function RunEnd(s: string, i: nat, p: char -> bool): (k: nat)
    requires i <= |s|
    ensures i <= k <= |s|
    decreases |s| - i
  {
    if i < |s| && p(s[i]) then RunEnd(s, i + 1, p) else i
  }

  /** The run is the longest one: every character in it satisfies `p`, the next one does not. */
  lemma {:induction false} RunEndSpec(s: string, i: nat, p: char -> bool)
    requires i <= |s|
    ensures var k := RunEnd(s, i, p);
      (forall u :: i <= u < k ==> p(s[u])) && (k == |s| || !p(s[k]))
    decreases |s| - i
  {
    if i < |s| && p(s[i]) {
      RunEndSpec(s, i + 1, p);
    }
  }

  /** The first position at or after `i` where `pat` occurs: a lazy `[\s\S]*?` followed by `pat`. */
  function FindFrom(s: string, i: nat, pat: string): (r: Option<nat>)
    requires i <= |s|
    ensures r.Some? ==> i <= r.value && HasAt(s, r.value, pat)
    decreases |s| - i
  {
    if HasAt(s, i, pat) then Some(i) else if i == |s| then None else FindFrom(s, i + 1, pat)
  }

  /** The occurrence found is the first one: `pat` starts nowhere before it (nowhere at all on `None`). */
  lemma {:induction false} FindFromFirst(s: string, i: nat, pat: string)
    requires i <= |s|
    ensures var r := FindFrom(s, i, pat);
      forall u :: i <= u <= |s| && (r.None? || u < r.value) ==> !HasAt(s, u, pat)
    decreases |s| - i
  {
    if !HasAt(s, i, pat) && i < |s| {
      FindFromFirst(s, i + 1, pat);
    }
  }

  /** A run that holds `p` throughout and stops where `p` fails (or at the end) is the one
      `RunEnd` finds. */
  lemma {:induction false} RunEndAt(s: string, i: nat, k: nat, p: char -> bool)
    requires i <= k <= |s|
    requires forall u :: i <= u < k ==> p(s[u])
    requires k == |s| || !p(s[k])
    ensures RunEnd(s, i, p) == k
    decreases k - i
  {
    if i < k {
      RunEndAt(s, i + 1, k, p);
    }
  }

  /** A run cannot pass a character that fails `p`. */
  lemma {:induction false} RunEndBefore(s: string, i: nat, m: nat, p: char -> bool)
    requires i <= m < |s| && !p(s[m])
    ensures RunEnd(s, i, p) <= m
    decreases m - i
  {
    if i < m && p(s[i]) {
      RunEndBefore(s, i + 1, m, p);
    }
  }

  /** `RunEnd(s, i, p) == k`, stated without unfolding the recursion. */
  predicate RunsTo(s: string, i: nat, p: char -> bool, k: nat)
    requires i <= |s|
  {
    RunEnd(s, i, p) == k
  }

  /** `FindFrom(s, i, pat) == Some(k)`, stated without unfolding the recursion. */
  predicate FoundAt(s: string, i: nat, pat: string, k: nat)
    requires i <= |s|
  {
    FindFrom(s, i, pat) == Some(k)
  }

  /** An occurrence with none before it (from `i`) is the one `FindFrom` finds. */
  lemma {:induction false} FindFromAt(s: string, i: nat, k: nat, pat: string)
    requires i <= k && HasAt(s, k, pat)
    requires forall u :: i <= u < k ==> !HasAt(s, u, pat)
    ensures FindFrom(s, i, pat) == Some(k)
    decreases k - i
  {
    if i < k {
      FindFromAt(s, i + 1, k, pat);
    }
  }

  /** `body` followed by `pat` has its first occurrence of `pat` right after `body`: `pat`
      is not in `body` and `body` does not end with a character of `pat`. */
  predicate ClosedBy(body: string, pat: string) {
    !Contains(body, pat) && (body == [] || body[|body| - 1] !in pat)
  }

  /** A lazy `[\s\S]*?` followed by `pat` stops at the end of a body closed by `pat`. */
  lemma FindClosing(s: string, i: nat, body: string, pat: string)
    requires pat != [] && ClosedBy(body, pat)
    requires i + |body| + |pat| <= |s| && s[i..i + |body| + |pat|] == body + pat
    ensures FindFrom(s, i, pat) == Some(i + |body|)
  {
    var n := |body|;
    assert s[i..i + n] == (body + pat)[..n];
    assert s[i + n..i + n + |pat|] == (body + pat)[n..];
    forall u | i <= u < i + n ensures !HasAt(s, u, pat) {
      if u + |pat| <= i + n {
        NotInsideBody(s, i, body, pat, u);
      } else {
        NotAcrossEnd(s, i, body, pat, u);
      }
    }
    FindFromAt(s, i, i + n, pat);
  }

  /** An occurrence lying within the body would be one in `body`. */
  lemma NotInsideBody(s: string, i: nat, body: string, pat: string, u: nat)
    requires !Contains(body, pat) && i <= u && u + |pat| <= i + |body| <= |s|
    requires s[i..i + |body|] == body
    ensures !HasAt(s, u, pat)
  {
    assert !HasAt(body, u - i, pat);
    var inBody, inText := body[u - i..u - i + |pat|], s[u..u + |pat|];
    forall k | 0 <= k < |pat| ensures inBody[k] == inText[k] {
      assert s[i..i + |body|][u - i + k] == s[u + k];
    }
    assert inBody == inText;
  }

  /** An occurrence starting in the body and ending past it would hold the body's last
      character, which is not a character of `pat`. */
  lemma NotAcrossEnd(s: string, i: nat, body: string, pat: string, u: nat)
    requires body != [] && body[|body| - 1] !in pat
    requires i <= u < i + |body| < u + |pat| && i + |body| <= |s|
    requires s[i..i + |body|] == body
    ensures !HasAt(s, u, pat)
  {
    var n := |body|;
    assert s[i + n - 1] == body[n - 1];
    if u + |pat| <= |s| {
      var k := i + n - 1 - u;
      assert s[u..u + |pat|][k] == s[u + k];
    }
  }

  /** The text skipped before an occurrence found holds no occurrence of the pattern. */
  lemma FoundAbsent(s: string, i: nat, pat: string)
    requires i <= |s| && pat != [] && FindFrom(s, i, pat).Some?
    ensures !Contains(s[i..FindFrom(s, i, pat).value], pat)
  {
    FindFromFirst(s, i, pat);
    AbsentFromSlice(s, i, FindFrom(s, i, pat).value, pat);
  }

  /** A pattern that starts nowhere in `[b, e)` of `s` does not occur in `s[b..e]`. */
  lemma AbsentFromSlice(s: string, b: nat, e: nat, pat: string)
    requires b <= e <= |s| && pat != []
    requires forall u :: b <= u < e ==> !HasAt(s, u, pat)
    ensures !Contains(s[b..e], pat)
  {
    var t := s[b..e];
    forall i | 0 <= i <= |t| ensures !HasAt(t, i, pat) {
      if i + |pat| <= |t| {
        assert !HasAt(s, b + i, pat);
        var x, y := t[i..i + |pat|], s[b + i..b + i + |pat|];
        assert x == y by {
          forall k | 0 <= k < |pat| ensures x[k] == y[k] {
            assert x[k] == t[i + k] == s[b + i + k];
          }
        }
      }
    }
  }

  /** A pattern absent from a string is absent from every slice of it. */
  lemma AbsentFromPart(s: string, b: nat, e: nat, pat: string)
    requires b <= e <= |s| && !Contains(s, pat)
    ensures !Contains(s[b..e], pat)
  {
    var t := s[b..e];
    forall i | 0 <= i <= |t| ensures !HasAt(t, i, pat) {
      if HasAt(t, i, pat) {
        var x, y := t[i..i + |pat|], s[b + i..b + i + |pat|];
        assert x == y by {
          forall k | 0 <= k < |pat| ensures x[k] == y[k] {
            assert x[k] == t[i + k] == s[b + i + k];
          }
        }
        assert HasAt(s, b + i, pat);
      }
    }
  }

  /** Lexicographic order on code points: `a` sorts no later than `b`. */
  predicate LexLe(a: string, b: string) {
    a == [] || (b != [] && (a[0] < b[0] || (a[0] == b[0] && LexLe(a[1..], b[1..]))))
  }

  lemma {:induction false} LexLeTotal(a: string, b: string)
    ensures LexLe(a, b) || LexLe(b, a)
  {
    if a != [] && b != [] && a[0] == b[0] {
      LexLeTotal(a[1..], b[1..]);
    }
  }

  lemma {:induction false} LexLeTransitive(a: string, b: string, c: string)
    requires LexLe(a, b) && LexLe(b, c)
    ensures LexLe(a, c)
  {
    if a != [] && b != [] && c != [] && a[0] == b[0] == c[0] {
      LexLeTransitive(a[1..], b[1..], c[1..]);
    }
  }
}
