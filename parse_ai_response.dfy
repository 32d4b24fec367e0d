/**
 * The frontend's reading of a model reply (frontend/src/utils/parseAIResponse.ts): every
 * fenced block whose first line is a `// path: <path>` comment becomes a file, with no
 * deduplication, and a default `/src/styles.css` is added when `/src/index.js` imports
 * one that is missing.
 */
module ResponseParser {

  import opened Wrappers
  import opened Text
  import Dedup

  datatype GeneratedFile = GeneratedFile(path: string, content: string, name: string)

  // ----- the block pattern  ```[a-zA-Z]*(?:\s*)\/\/\s+path:\s+(.+?)\n([\s\S]*?)```  -----
  //
  // Each of `[a-zA-Z]*`, `\s*` and the first `\s+` is followed by a literal its own
  // characters cannot start ("//", "//", "path:"), so only its longest run can succeed
  // and the engine's retries of shorter runs never change the outcome. The `\s+` after
  // "path:" is followed by `(.+?)`, which can start with a space, so its shorter runs
  // are tried in turn below.

  predicate IsAsciiLetter(c: char) {
    ('a' <= c <= 'z') || ('A' <= c <= 'Z')
  }

  /** One match: its bounds, the path text (group 1) and the body (group 2). */
  datatype PathMatch = PathMatch(start: nat, end: nat, path: string, body: string)

  /** The path text starts at `d0 + w`: gaps of `w`, `w - 1`, ... 1 whitespace characters
      after "path:" are tried. Gives the path's bounds and the body's start. */
  function TryPathGap(s: string, d0: nat, w: nat): (r: Option<(nat, nat, nat)>)
    requires 1 <= w && d0 + w <= |s|
    ensures r.Some? ==> d0 < r.value.0 < r.value.1 < r.value.2 == r.value.1 + 1 <= |s|
    ensures r.Some? ==> s[r.value.1] == '\n' && FindFrom(s, r.value.2, "```").Some?
    ensures r.Some? ==> forall u :: r.value.0 <= u < r.value.1 ==> IsLineChar(s[u])
    decreases w
  {
    var p := d0 + w;
    var q := RunEnd(s, p, IsLineChar);
    RunEndSpec(s, p, IsLineChar);
    if p < q < |s| && s[q] == '\n' && FindFrom(s, q + 1, "```").Some? then Some((p, q, q + 1))
    else if w == 1 then None
    else TryPathGap(s, d0, w - 1)
  }

  /** Where the path text may start: after "```", a run of letters, whitespace, "//",
      whitespace, "path:" and at least one whitespace character. */
  function PathGapAt(s: string, st: nat): (r: Option<(nat, nat)>)
    requires st <= |s|
    ensures r.Some? ==> st + 3 < r.value.0 && 1 <= r.value.1 && r.value.0 + r.value.1 <= |s|
  {
    if !HasAt(s, st, "```") then None
    else
      var a := RunEnd(s, st + 3, IsAsciiLetter);
      var b := RunEnd(s, a, IsJsSpace);
      if !HasAt(s, b, "//") then None
      else
        var c := RunEnd(s, b + 2, IsJsSpace);
        if c == b + 2 || !HasAt(s, c, "path:") then None
        else
          var d := RunEnd(s, c + 5, IsJsSpace);
          if d == c + 5 then None else Some((c + 5, d - (c + 5)))
  }

  /** The pattern tried at start position `st`. */
  function MatchAt(s: string, st: nat): (r: Option<PathMatch>)
    requires st <= |s|
    ensures r.Some? ==> r.value.start == st && st + 3 < r.value.end <= |s|
  {
    match PathGapAt(s, st)
    case None => None
    case Some(gap) =>
      match TryPathGap(s, gap.0, gap.1)
      case None => None
      case Some(g) =>
        var t := FindFrom(s, g.2, "```").value;
        Some(PathMatch(st, t + 3, s[g.0..g.1], s[g.2..t]))
  }

  /** A match opens and closes with a fence; its path text is a non-empty run of characters
      other than line terminators; its body holds no fence. */
  lemma MatchAtGroups(s: string, st: nat)
    requires st <= |s| && MatchAt(s, st).Some?
    ensures var m := MatchAt(s, st).value;
      && HasAt(s, st, "```") && HasAt(s, m.end - 3, "```")
      && m.path != [] && (forall u :: 0 <= u < |m.path| ==> IsLineChar(m.path[u]))
      && !Contains(m.body, "```")
  {
    MatchOpens(s, st);
    MatchCloses(s, st);
    MatchPathLine(s, st);
    MatchBodyOpen(s, st);
  }

  lemma MatchOpens(s: string, st: nat)
    requires st <= |s| && MatchAt(s, st).Some?
    ensures HasAt(s, st, "```")
  {
  }

  lemma MatchCloses(s: string, st: nat)
    requires st <= |s| && MatchAt(s, st).Some?
    ensures HasAt(s, MatchAt(s, st).value.end - 3, "```")
  {
  }

  lemma MatchPathLine(s: string, st: nat)
    requires st <= |s| && MatchAt(s, st).Some?
    ensures var m := MatchAt(s, st).value;
      m.path != [] && (forall u :: 0 <= u < |m.path| ==> IsLineChar(m.path[u]))
  {
  }

  lemma MatchBodyOpen(s: string, st: nat)
    requires st <= |s| && MatchAt(s, st).Some?
    ensures !Contains(MatchAt(s, st).value.body, "```")
  {
    var gap := PathGapAt(s, st).value;
    var g := TryPathGap(s, gap.0, gap.1).value;
    FoundAbsent(s, g.2, "```");
  }

  /** `fileRegex.exec(response)` with `lastIndex == from`. */
  function Exec(s: string, from: nat): (r: Option<PathMatch>)
    requires from <= |s|
    ensures r.Some? ==> from <= r.value.start < r.value.end <= |s|
    decreases |s| - from
  {
    var m := MatchAt(s, from);
    if m.Some? then m else if from == |s| then None else Exec(s, from + 1)
  }

  /** `exec` finds the leftmost start position from which the pattern matches. */
  lemma {:induction false} ExecIsLeftmost(s: string, from: nat)
    requires from <= |s|
    ensures Leftmost(s, from, Exec(s, from))
    decreases |s| - from
  {
    if MatchAt(s, from).None? && from < |s| {
      ExecIsLeftmost(s, from + 1);
      LeftmostStep(s, from, Exec(s, from + 1));
    }
  }

  /** `r` is the match at the leftmost start position from `from` on where the pattern
      matches, or `None` when it matches nowhere from there. */
  predicate Leftmost(s: string, from: nat, r: Option<PathMatch>)
    requires from <= |s|
  {
    && (r.Some? ==> r.value.start <= |s| && MatchAt(s, r.value.start) == r)
    && (forall st :: from <= st <= |s| && (r.None? || st < r.value.start) ==> MatchAt(s, st).None?)
  }

  /** Skipping a start position where the pattern does not match keeps the search leftmost. */
  lemma LeftmostStep(s: string, from: nat, r: Option<PathMatch>)
    requires from < |s| && MatchAt(s, from).None? && Leftmost(s, from + 1, r)
    requires r.Some? ==> from + 1 <= r.value.start
    ensures Leftmost(s, from, r)
  {
  }

  // ----- what the pattern accepts -----

  /** A block as a model is asked to write it: a fence with a language tag, a `// path:` line,
      the body and the closing fence. */
  function PathBlock(lang: string, path: string, body: string): (r: string)
    ensures |r| == |lang| + |path| + |body| + 17
  {
    "```" + lang + "\n// path: " + path + "\n" + body + "```"
  }

  /** A language tag of letters, and a path line that does not start with whitespace. */
  predicate PlainTag(lang: string, path: string) {
    && (forall u :: 0 <= u < |lang| ==> IsAsciiLetter(lang[u]))
    && path != [] && (forall u :: 0 <= u < |path| ==> IsLineChar(path[u])) && !IsJsSpace(path[0])
  }

  /** The pattern matches such a block where it starts, with the path line as group 1 and the
      body as group 2. */
  lemma MatchAtPathBlock(s: string, st: nat, lang: string, path: string, body: string)
    requires PlainTag(lang, path) && ClosedBy(body, "```") && HasAt(s, st, PathBlock(lang, path, body))
    ensures MatchAt(s, st) == Some(PathMatch(st, st + |PathBlock(lang, path, body)|, path, body))
  {
    var d0 := st + 12 + |lang|;
    var p := d0 + 1;
    var q := p + |path|;
    var b := q + 1;
    var t := b + |body|;
    var e := st + |PathBlock(lang, path, body)|;
    PathBlockLayout(s, st, lang, path, body);
    MatchAtLaid(s, st, lang, path, body, d0, p, q, b, t, e);
    MatchEndsBlock(s, st, lang, path, body, e);
  }

  /** The match found ends where the block ends. */
  lemma MatchEndsBlock(s: string, st: nat, lang: string, path: string, body: string, e: nat)
    requires st <= |s| && MatchAt(s, st) == Some(PathMatch(st, e, path, body))
    requires e == st + |PathBlock(lang, path, body)|
    ensures MatchAt(s, st) == Some(PathMatch(st, st + |PathBlock(lang, path, body)|, path, body))
  {
  }

  /** `exec` from the start of such a block returns the block's match. */
  lemma ExecPathBlock(s: string, st: nat, lang: string, path: string, body: string)
    requires PlainTag(lang, path) && ClosedBy(body, "```") && HasAt(s, st, PathBlock(lang, path, body))
    ensures Exec(s, st) == Some(PathMatch(st, st + |PathBlock(lang, path, body)|, path, body))
  {
    MatchAtPathBlock(s, st, lang, path, body);
    ExecAt(s, st);
  }

  /** The parts of a block, as they lie in `s` when the block starts at `st`; `d0` is the
      position of the space before the path text. */
  predicate Laid(s: string, st: nat, lang: string, path: string, body: string) {
    var d0 := st + 12 + |lang|;
    && d0 + 2 + |path| + |body| + 3 <= |s|
    && HasAt(s, st, "```") && s[st + 3..st + 3 + |lang|] == lang && s[st + 3 + |lang|] == '\n'
    && HasAt(s, st + 4 + |lang|, "//") && s[st + 6 + |lang|] == ' ' && HasAt(s, st + 7 + |lang|, "path:")
    && s[d0] == ' ' && s[d0 + 1..d0 + 1 + |path|] == path && s[d0 + 1 + |path|] == '\n'
    && s[d0 + 2 + |path|..d0 + 2 + |path| + |body| + 3] == body + "```"
  }

  /** The parts of a block. */
  lemma PathBlockParts(lang: string, path: string, body: string)
    ensures var blk, l, n := PathBlock(lang, path, body), |lang|, |path|;
      && blk[..3] == "```" && blk[3..3 + l] == lang && blk[3 + l] == '\n'
      && blk[4 + l..6 + l] == "//" && blk[6 + l] == ' ' && blk[7 + l..12 + l] == "path:"
      && blk[12 + l] == ' ' && blk[13 + l..13 + l + n] == path && blk[13 + l + n] == '\n'
      && blk[14 + l + n..] == body + "```"
  {
    var blk, l, n := PathBlock(lang, path, body), |lang|, |path|;
    var pre := "```" + lang + "\n// path: " + path + "\n";
    assert blk == pre + body + "```";
    assert blk[3..3 + l] == lang;
    assert blk[13 + l..13 + l + n] == path;
    assert blk[14 + l + n..] == body + "```";
  }

  lemma PathBlockLayout(s: string, st: nat, lang: string, path: string, body: string)
    requires HasAt(s, st, PathBlock(lang, path, body))
    ensures Laid(s, st, lang, path, body)
  {
    PathBlockParts(lang, path, body);
    LayoutMarks(s, st, lang, path, body);
    LayoutChars(s, st, lang, path, body);
    LayoutTexts(s, st, lang, path, body);
  }

  lemma LayoutMarks(s: string, st: nat, lang: string, path: string, body: string)
    requires HasAt(s, st, PathBlock(lang, path, body))
    requires var blk, l := PathBlock(lang, path, body), |lang|;
      blk[..3] == "```" && blk[4 + l..6 + l] == "//" && blk[7 + l..12 + l] == "path:"
    ensures HasAt(s, st, "```") && HasAt(s, st + 4 + |lang|, "//") && HasAt(s, st + 7 + |lang|, "path:")
  {
    var blk, l := PathBlock(lang, path, body), |lang|;
    SubSlice(s, st, blk, 0, 3);
    SubSlice(s, st, blk, 4 + l, 6 + l);
    SubSlice(s, st, blk, 7 + l, 12 + l);
  }

  lemma LayoutChars(s: string, st: nat, lang: string, path: string, body: string)
    requires HasAt(s, st, PathBlock(lang, path, body))
    requires var blk, l, n := PathBlock(lang, path, body), |lang|, |path|;
      blk[3 + l] == '\n' && blk[6 + l] == ' ' && blk[12 + l] == ' ' && blk[13 + l + n] == '\n'
    ensures s[st + 3 + |lang|] == '\n' && s[st + 6 + |lang|] == ' '
    ensures s[st + 12 + |lang|] == ' ' && s[st + 12 + |lang| + 1 + |path|] == '\n'
  {
    var blk, l, n := PathBlock(lang, path, body), |lang|, |path|;
    CharOf(s, st, blk, 3 + l);
    CharOf(s, st, blk, 6 + l);
    CharOf(s, st, blk, 12 + l);
    CharOf(s, st, blk, 13 + l + n);
  }

  lemma LayoutTexts(s: string, st: nat, lang: string, path: string, body: string)
    requires HasAt(s, st, PathBlock(lang, path, body))
    requires var blk, l, n := PathBlock(lang, path, body), |lang|, |path|;
      blk[3..3 + l] == lang && blk[13 + l..13 + l + n] == path && blk[14 + l + n..] == body + "```"
    ensures st + 12 + |lang| + 2 + |path| + |body| + 3 <= |s| && s[st + 3..st + 3 + |lang|] == lang
    ensures s[st + 12 + |lang| + 1..st + 12 + |lang| + 1 + |path|] == path
    ensures s[st + 12 + |lang| + 2 + |path|..st + 12 + |lang| + 2 + |path| + |body| + 3] == body + "```"
  {
    var blk, l, n := PathBlock(lang, path, body), |lang|, |path|;
    SubSlice(s, st, blk, 3, 3 + l);
    SubSlice(s, st, blk, 13 + l, 13 + l + n);
    SubSlice(s, st, blk, 14 + l + n, |blk|);
  }

  /** The match of a laid-out block: `d0` is the space before the path text, `p` and `q` its
      bounds, `b` and `t` the bounds of the body and `e` the end of the block. */
  lemma MatchAtLaid(s: string, st: nat, lang: string, path: string, body: string,
                     d0: nat, p: nat, q: nat, b: nat, t: nat, e: nat)
    requires PlainTag(lang, path) && ClosedBy(body, "```") && Laid(s, st, lang, path, body)
    requires d0 == st + 12 + |lang| && p == d0 + 1 && q == p + |path| && b == q + 1 && t == b + |body| && e == t + 3
    ensures MatchAt(s, st) == Some(PathMatch(st, e, path, body))
  {
    LaidFound(s, st, lang, path, body, d0, p, q, b, t);
    MatchAtFound(s, st, d0, p, q, b, t, e, path, body);
  }

  /** `exec` from a position where the pattern matches returns that match. */
  lemma ExecAt(s: string, st: nat)
    requires st <= |s| && MatchAt(s, st).Some?
    ensures Exec(s, st) == MatchAt(s, st)
  {
  }

  /** The three scanners of the pattern succeed on a laid-out block, and the path text and
      the body lie where the groups are taken from. */
  lemma LaidFound(s: string, st: nat, lang: string, path: string, body: string, d0: nat, p: nat, q: nat, b: nat, t: nat)
    requires PlainTag(lang, path) && ClosedBy(body, "```") && Laid(s, st, lang, path, body)
    requires d0 == st + 12 + |lang| && p == d0 + 1 && q == p + |path| && b == q + 1 && t == b + |body|
    ensures st <= |s| && b <= |s| && PathGapAt(s, st) == Some((d0, 1))
    ensures TryPathGap(s, d0, 1) == Some((p, q, b)) && FoundAt(s, b, "```", t)
    ensures p <= q <= b <= t <= |s| && s[p..q] == path && s[b..t] == body
  {
    GapAtBlock(s, st, lang, path, body, d0);
    LaidLine(s, st, lang, path, body, d0, p, q, b, t);
    LineFound(s, d0, p, q, b, t, path, body);
  }

  /** Where the path line and the body lie. */
  lemma LaidLine(s: string, st: nat, lang: string, path: string, body: string, d0: nat, p: nat, q: nat, b: nat, t: nat)
    requires Laid(s, st, lang, path, body)
    requires d0 == st + 12 + |lang| && p == d0 + 1 && q == p + |path| && b == q + 1 && t == b + |body|
    ensures p <= q < b <= t && t + 3 <= |s| && s[p..q] == path && s[q] == '\n'
    ensures s[b..t + 3] == body + "```" && s[b..t] == body
  {
    assert s[b..t] == s[b..t + 3][..|body|];
  }

  /** The fence, the letters of the tag, the line end, "//", one space, "path:" and one space
      before a non-space: the path text may start right after that space. */
  lemma GapAtBlock(s: string, st: nat, lang: string, path: string, body: string, d0: nat)
    requires PlainTag(lang, path) && Laid(s, st, lang, path, body) && d0 == st + 12 + |lang|
    ensures PathGapAt(s, st) == Some((d0, 1))
  {
    var a := st + 3 + |lang|;
    var b := a + 1;
    var c := b + 3;
    LaidHead(s, st, lang, path, body, a, b, c, d0);
    TagRun(s, st, a, lang);
    GapRuns(s, a, b, c, d0);
    GapAtRuns(s, st, a, b, c, d0);
  }

  /** The head of a block, up to the first character of the path text: the tag ends at `a`,
      "//" starts at `b`, "path:" at `c`, and `d0` is the space after it. */
  lemma LaidHead(s: string, st: nat, lang: string, path: string, body: string, a: nat, b: nat, c: nat, d0: nat)
    requires PlainTag(lang, path) && Laid(s, st, lang, path, body)
    requires a == st + 3 + |lang| && b == a + 1 && c == b + 3 && d0 == c + 5
    ensures st + 3 <= a && d0 + 1 < |s| && s[st + 3..a] == lang && s[a] == '\n'
    ensures HasAt(s, st, "```") && HasAt(s, b, "//") && s[b] == '/' && s[b + 2] == ' '
    ensures HasAt(s, c, "path:") && s[c] == 'p' && s[d0] == ' ' && !IsJsSpace(s[d0 + 1])
  {
    CharOf(s, b, "//", 0);
    CharOf(s, c, "path:", 0);
    assert s[d0 + 1] == path[0];
  }

  /** The letters of the tag run up to the line end after it. */
  lemma TagRun(s: string, st: nat, a: nat, lang: string)
    requires a == st + 3 + |lang| && a < |s| && (forall u :: 0 <= u < |lang| ==> IsAsciiLetter(lang[u]))
    requires s[st + 3..a] == lang && s[a] == '\n'
    ensures RunsTo(s, st + 3, IsAsciiLetter, a)
  {
    assert forall u :: st + 3 <= u < a ==> s[u] == lang[u - (st + 3)];
    RunEndAt(s, st + 3, a, IsAsciiLetter);
  }

  /** The whitespace runs of the head: one line end, one space, one space. */
  lemma GapRuns(s: string, a: nat, b: nat, c: nat, d0: nat)
    requires b == a + 1 && c == b + 3 && d0 == c + 5 && d0 + 1 < |s|
    requires s[a] == '\n' && s[b] == '/' && s[b + 2] == ' ' && s[c] == 'p' && s[d0] == ' ' && !IsJsSpace(s[d0 + 1])
    ensures RunsTo(s, a, IsJsSpace, b) && RunsTo(s, b + 2, IsJsSpace, c) && RunsTo(s, d0, IsJsSpace, d0 + 1)
  {
    RunEndAt(s, a, b, IsJsSpace);
    RunEndAt(s, b + 2, c, IsJsSpace);
    RunEndAt(s, d0, d0 + 1, IsJsSpace);
  }

  /** `PathGapAt` from the runs it scans: the tag ends at `a`, the whitespace before "//"
      at `b`, the whitespace before "path:" at `c`, and one whitespace character follows. */
  lemma GapAtRuns(s: string, st: nat, a: nat, b: nat, c: nat, d0: nat)
    requires st + 3 <= |s| && HasAt(s, st, "```") && RunsTo(s, st + 3, IsAsciiLetter, a)
    requires a <= |s| && RunsTo(s, a, IsJsSpace, b)
    requires b + 2 <= |s| && HasAt(s, b, "//") && RunsTo(s, b + 2, IsJsSpace, c) && c != b + 2
    requires c + 5 <= |s| && HasAt(s, c, "path:") && d0 == c + 5 && d0 < |s| && RunsTo(s, d0, IsJsSpace, d0 + 1)
    ensures PathGapAt(s, st) == Some((d0, 1))
  {
  }

  /** The path line, its line end and the closing fence: a one-character gap finds the path
      text, and the first fence after the line is the closing one. */
  lemma LineFound(s: string, d0: nat, p: nat, q: nat, b: nat, t: nat, path: string, body: string)
    requires path != [] && (forall u :: 0 <= u < |path| ==> IsLineChar(path[u])) && ClosedBy(body, "```")
    requires p == d0 + 1 && q == p + |path| && b == q + 1 && t == b + |body| && t + 3 <= |s|
    requires s[p..q] == path && s[q] == '\n' && s[b..t + 3] == body + "```"
    ensures TryPathGap(s, d0, 1) == Some((p, q, b)) && FoundAt(s, b, "```", t)
  {
    ClosingFound(s, b, t, body);
    PathRun(s, p, q, path);
    OneGap(s, d0, p, q, b, t);
  }

  lemma ClosingFound(s: string, b: nat, t: nat, body: string)
    requires ClosedBy(body, "```") && t == b + |body| && t + 3 <= |s| && s[b..t + 3] == body + "```"
    ensures FoundAt(s, b, "```", t)
  {
    FindClosing(s, b, body, "```");
  }

  /** The line characters from `p` run exactly over a path line that ends at a line end. */
  lemma PathRun(s: string, p: nat, q: nat, path: string)
    requires (forall u :: 0 <= u < |path| ==> IsLineChar(path[u]))
    requires q == p + |path| && q < |s| && s[p..q] == path && s[q] == '\n'
    ensures RunsTo(s, p, IsLineChar, q)
  {
    assert forall u :: p <= u < q ==> s[u] == path[u - p];
    RunEndAt(s, p, q, IsLineChar);
  }

  lemma OneGap(s: string, d0: nat, p: nat, q: nat, b: nat, t: nat)
    requires p == d0 + 1 && p < q && b == q + 1 && b <= |s| && RunsTo(s, p, IsLineChar, q)
    requires s[q] == '\n' && FoundAt(s, b, "```", t)
    ensures TryPathGap(s, d0, 1) == Some((p, q, b))
  {
  }

  /** The gap, the path line and the closing fence found give the match, with the text
      between them as groups. */
  lemma MatchAtFound(s: string, st: nat, d0: nat, p: nat, q: nat, b: nat, t: nat, e: nat, path: string, body: string)
    requires st <= |s| && PathGapAt(s, st) == Some((d0, 1))
    requires b <= |s| && TryPathGap(s, d0, 1) == Some((p, q, b))
    requires FoundAt(s, b, "```", t) && e == t + 3
    requires p <= q <= b <= t <= |s| && s[p..q] == path && s[b..t] == body
    ensures MatchAt(s, st) == Some(PathMatch(st, e, path, body))
  {
  }

  /** Successive `exec` results, each search resuming where the previous match ended. */
  function AllMatches(s: string, from: nat): seq<PathMatch>
    requires from <= |s|
    decreases |s| - from
  {
    match Exec(s, from)
    case None => []
    case Some(m) => [m] + AllMatches(s, m.end)
  }

  /** Matches lying between `from` and `n`, in order and without overlapping. */
  predicate Ordered(ms: seq<PathMatch>, from: nat, n: nat) {
    && (forall i :: 0 <= i < |ms| ==> from <= ms[i].start < ms[i].end <= n)
    && (forall i :: 0 <= i < |ms| - 1 ==> ms[i].end <= ms[i + 1].start)
  }

  /** The matches lie inside the text after `from`, in order and without overlapping. */
  lemma {:induction false} AllMatchesOrdered(s: string, from: nat)
    requires from <= |s|
    ensures Ordered(AllMatches(s, from), from, |s|)
    decreases |s| - from
  {
    var r := Exec(s, from);
    if r.Some? {
      var m := r.value;
      var rest := AllMatches(s, m.end);
      assert AllMatches(s, from) == [m] + rest;
      AllMatchesOrdered(s, m.end);
      MatchesCons(m, rest, from, |s|);
    }
  }

  /** A match followed by ordered matches that start after it gives ordered matches. */
  lemma MatchesCons(m: PathMatch, rest: seq<PathMatch>, from: nat, n: nat)
    requires from <= m.start < m.end <= n && Ordered(rest, m.end, n)
    ensures Ordered([m] + rest, from, n)
  {
    var ms := [m] + rest;
    assert forall i :: 1 <= i < |ms| ==> ms[i] == rest[i - 1];
  }

  // ----- parseAIResponse -----

  /** `filePath.split('/').pop() || filePath`. */
  function FileName(path: string): (name: string)
    ensures '/' !in path ==> name == path
    ensures EndsWith(path, name) && (name == [] ==> path == [])
    ensures name != path ==> '/' !in name && path[|path| - |name| - 1] == '/'
  {
    var seg := LastSegment(path, '/');
    if seg == [] then path else seg
  }

  lemma FileNameOfPlainName(path: string)
    requires path != [] && '/' !in path
    ensures FileName(path) == path
  {
    var k := FirstIndexOf(path, '/');
    assert k == |path|;
  }

  /** The file one matched block gives. */
  function FileOf(m: PathMatch): GeneratedFile {
    var path := Trim(JavaScript, m.path);
    GeneratedFile(path, Trim(JavaScript, m.body), FileName(path))
  }

  /** The files the exec loop pushes, one per match in document order. */
  function Extracted(ms: seq<PathMatch>): (fs: seq<GeneratedFile>)
    ensures |fs| == |ms| && forall i :: 0 <= i < |ms| ==> fs[i] == FileOf(ms[i])
  {
    if ms == [] then [] else [FileOf(ms[0])] + Extracted(ms[1..])
  }

  /** `files.find(f => f.path === path)`. */
  function FindByPath(files: seq<GeneratedFile>, path: string): (r: Option<GeneratedFile>)
    ensures r.Some? ==> r.value in files && r.value.path == path
    ensures r.None? ==> forall f :: f in files ==> f.path != path
  {
    if files == [] then None
    else if files[0].path == path then Some(files[0])
    else FindByPath(files[1..], path)
  }

  const DefaultStyles := GeneratedFile("/src/styles.css", "/* default styles */", "styles.css")

  /** The condition under which the default stylesheet is added. */
  predicate NeedsDefaultStyles(files: seq<GeneratedFile>) {
    match FindByPath(files, "/src/index.js")
    case None => false
    case Some(index) => Contains(index.content, "import './styles.css'") && FindByPath(files, "/src/styles.css").None?
  }

  /** What `parseAIResponse` returns. */
  function ParsedResponse(response: string): seq<GeneratedFile> {
    var files := Extracted(AllMatches(response, 0));
    if NeedsDefaultStyles(files) then files + [DefaultStyles] else files
  }

  /** One turn of the exec loop: the next match's file, then the files of the matches after it. */
  lemma ExtractedStep(s: string, from: nat)
    requires from <= |s| && Exec(s, from).Some?
    ensures var m := Exec(s, from).value;
      Extracted(AllMatches(s, from)) == [FileOf(m)] + Extracted(AllMatches(s, m.end))
  {
    var m := Exec(s, from).value;
    var rest := AllMatches(s, m.end);
    assert AllMatches(s, from) == [m] + rest;
    assert ([m] + rest)[1..] == rest;
  }

  /** `parseAIResponse`: the exec loop, then the conditional push of the default stylesheet. */
  method ParseAIResponse(response: string) returns (files: seq<GeneratedFile>)
    ensures files == ParsedResponse(response)
  {
    files := [];
    var lastIndex: nat := 0;
    while true
      invariant lastIndex <= |response|
      invariant files + Extracted(AllMatches(response, lastIndex)) == Extracted(AllMatches(response, 0))
      decreases |response| - lastIndex
    {
      var match_ := Exec(response, lastIndex);
      if match_.None? {
        assert AllMatches(response, lastIndex) == [];
        assert files == Extracted(AllMatches(response, 0));
        break;
      }
      var m := match_.value;
      ExtractedStep(response, lastIndex);
      lastIndex := m.end;
      var filePath := Trim(JavaScript, m.path);
      var code := Trim(JavaScript, m.body);
      var name := FileName(filePath);
      Dedup.AppendAssoc(files, [GeneratedFile(filePath, code, name)], Extracted(AllMatches(response, m.end)));
      files := files + [GeneratedFile(filePath, code, name)];
    }
    var indexFile := FindByPath(files, "/src/index.js");
    var inject := indexFile.Some? && Contains(indexFile.value.content, "import './styles.css'")
      && FindByPath(files, "/src/styles.css").None?;
    assert inject == NeedsDefaultStyles(files);
    if inject {
      files := files + [DefaultStyles];
    }
  }

  // ----- properties -----

  /** One file per matched block, in document order, plus at most the default stylesheet at the end. */
  lemma ParsedResponseShape(response: string)
    ensures var ms := AllMatches(response, 0);
      var fs := ParsedResponse(response);
      && (|fs| == |ms| || |fs| == |ms| + 1)
      && (forall i :: 0 <= i < |ms| ==> fs[i] == FileOf(ms[i]))
      && (|fs| == |ms| + 1 ==> fs[|ms|] == DefaultStyles)
      && (ms == [] ==> fs == [])
  {
    var ms := AllMatches(response, 0);
    if ms == [] {
      assert FindByPath([], "/src/index.js").None?;
    }
  }

  /** Each block's file has the trimmed path text, the trimmed body and the path's last
      segment as name, or the whole path when that segment is empty. */
  lemma FileOfFields(m: PathMatch)
    ensures FileOf(m).path == Trim(JavaScript, m.path)
    ensures FileOf(m).content == Trim(JavaScript, m.body)
    ensures LastSegment(FileOf(m).path, '/') != [] ==> FileOf(m).name == LastSegment(FileOf(m).path, '/')
    ensures LastSegment(FileOf(m).path, '/') == [] ==> FileOf(m).name == FileOf(m).path
  {
  }

  /** The stylesheet is added at most once: after the step, the condition no longer holds. */
  lemma DefaultStylesAddedOnce(response: string)
    ensures !NeedsDefaultStyles(ParsedResponse(response))
  {
    var files := Extracted(AllMatches(response, 0));
    if NeedsDefaultStyles(files) {
      var out := files + [DefaultStyles];
      FindByPathAppend(files, DefaultStyles, "/src/index.js");
      FindByPathAppend(files, DefaultStyles, "/src/styles.css");
      assert FindByPath(out, "/src/styles.css").Some?;
    }
  }

  lemma {:induction false} FindByPathAppend(files: seq<GeneratedFile>, f: GeneratedFile, path: string)
    ensures FindByPath(files + [f], path)
         == if FindByPath(files, path).Some? then FindByPath(files, path)
            else if f.path == path then Some(f) else None
  {
    if files != [] {
      assert (files + [f])[1..] == files[1..] + [f];
      FindByPathAppend(files[1..], f, path);
    } else {
      assert [] + [f] == [f];
    }
  }

  /** The stylesheet is added exactly when a file has path `/src/index.js`, the first such file
      imports `./styles.css`, and no extracted file has path `/src/styles.css`. */
  lemma DefaultStylesCondition(response: string)
    ensures var files := Extracted(AllMatches(response, 0));
      var i := FirstPathIndex(files, "/src/index.js");
      (ParsedResponse(response) == files + [DefaultStyles])
      <==> (&& i < |files|
            && Contains(files[i].content, "import './styles.css'")
            && forall f :: f in files ==> f.path != "/src/styles.css")
  {
    var files := Extracted(AllMatches(response, 0));
    FindByPathFirst(files, "/src/index.js");
    FindByPathFirst(files, "/src/styles.css");
    assert |files + [DefaultStyles]| != |files|;
  }

  /** Index of the first file with `path`, or `|files|`. */
  function FirstPathIndex(files: seq<GeneratedFile>, path: string): (i: nat)
    ensures i <= |files|
    ensures i < |files| ==> files[i].path == path
    ensures forall j :: 0 <= j < i ==> files[j].path != path
  {
    if files == [] then 0 else if files[0].path == path then 0 else 1 + FirstPathIndex(files[1..], path)
  }

  /** `find` returns the first file with the path. */
  lemma {:induction false} FindByPathFirst(files: seq<GeneratedFile>, path: string)
    ensures var i := FirstPathIndex(files, path);
      FindByPath(files, path) == if i < |files| then Some(files[i]) else None
  {
    if files != [] && files[0].path != path {
      FindByPathFirst(files[1..], path);
    }
  }
}
