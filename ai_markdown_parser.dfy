/**
 * The backend's reading of a model reply (backend/utils/aiMarkdownParser.ts): every
 * `#### <path>` heading directly followed by a fenced code block becomes a file,
 * paths of root-level config files are moved under `frontend/` or `backend/`, the
 * first block for a path wins, and a reply without usable blocks is kept whole as
 * `response.md`.
 */
module MarkdownParser {

  import opened Wrappers
  import opened Text
  import Dedup

  datatype ParsedFile = ParsedFile(path: string, content: string, sha256: string)

  function PathOf(f: ParsedFile): string { f.path }

  // ----- fixPath -----

  /** Root-level names that belong to the frontend project, in lower case. */
  const FrontendRootNames: set<string> := {
    "vite.config.ts", "vite.config.js",
    "tsconfig.json", "tsconfig.app.json", "tsconfig.node.json",
    "tailwind.config.js", "tailwind.config.cjs", "tailwind.config.ts",
    "postcss.config.js", "postcss.config.cjs",
    "package.json", "index.html"
  }

  /** Root-level names that belong to the backend project, in lower case. */
  const BackendRootNames: set<string> := {
    "requirements.txt", "pyproject.toml", "main.py", "server.ts", "server.js"
  }

  /** Removes one leading and one trailing single quote (`replace(/^'|'$/g, '')`). */
  function StripQuotes(p: string): (r: string)
    ensures |p| - 2 <= |r| <= |p|
    ensures |r| < |p| ==> p[0] == '\'' || p[|p| - 1] == '\''
  {
    var a := if |p| > 0 && p[0] == '\'' then p[1..] else p;
    if |a| > 0 && a[|a| - 1] == '\'' then a[..|a| - 1] else a
  }

  /** The path text after trimming and quote stripping: what `fixPath` classifies. */
  function Unquoted(path: string): string {
    StripQuotes(Trim(JavaScript, path))
  }

  /** `fixPath`: the unquoted path, under `frontend/` or `backend/` when it is a bare
      root-level config name (compared without regard to ASCII case). */
  function FixPath(path: string): (r: string)
    ensures EndsWith(r, Unquoted(path))
  {
    var p := Unquoted(path);
    if Lower(p) in FrontendRootNames then "frontend/" + p
    else if Lower(p) in BackendRootNames then "backend/" + p
    else p
  }

  lemma LowerKeepsSlash(p: string)
    requires '/' in p
    ensures '/' in Lower(p)
  {
    var i :| 0 <= i < |p| && p[i] == '/';
    assert Lower(p)[i] == '/';
  }

  lemma RootNamesHaveNoSlash(n: string)
    requires n in FrontendRootNames + BackendRootNames
    ensures '/' !in n
  {
  }

  /** A path that already names a directory is never moved: every root name is slash-free. */
  lemma FixPathKeepsNestedPaths(path: string)
    requires '/' in Unquoted(path)
    ensures FixPath(path) == Unquoted(path)
  {
    var p := Unquoted(path);
    LowerKeepsSlash(p);
    if Lower(p) in FrontendRootNames + BackendRootNames {
      RootNamesHaveNoSlash(Lower(p));
    }
  }

  /** Exactly the bare root config names gain a prefix; the frontend names are checked first. */
  lemma FixPathPrefixes(path: string)
    ensures var p := Unquoted(path);
      && (FixPath(path) == "frontend/" + p <==> Lower(p) in FrontendRootNames)
      && (FixPath(path) == "backend/" + p <==> Lower(p) !in FrontendRootNames && Lower(p) in BackendRootNames)
      && (FixPath(path) == p <==> Lower(p) !in FrontendRootNames && Lower(p) !in BackendRootNames)
  {
    var p := Unquoted(path);
    var r := FixPath(path);
    var f, b := "frontend/" + p, "backend/" + p;
    assert f[0] == 'f' && b[0] == 'b';
    assert |f| == |p| + 9 && |b| == |p| + 8;
  }

  // ----- the block pattern  ####\s*(.*?)\s*\n```([\w+-]+)?\n([\s\S]*?)```  -----

  /** A character of a fence's language tag, `[\w+-]`. */
  predicate IsTagChar(c: char) {
    ('a' <= c <= 'z') || ('A' <= c <= 'Z') || ('0' <= c <= '9') || c == '_' || c == '+' || c == '-'
  }

  /** One match: its bounds, the heading text (group 1) and the fenced body (group 3). */
  datatype BlockMatch = BlockMatch(start: nat, end: nat, heading: string, body: string)

  /** Positions of the groups of a match: heading text `[hs, he)` and body `[bs, be)`. */
  datatype Groups = Groups(hs: nat, he: nat, bs: nat, be: nat)

  /** The part after the heading's newline at `q - 1`: "```", an optional language tag and a
      newline, then the body up to the first "```". Gives the body's bounds. */
  function FenceAt(s: string, q: nat): (r: Option<(nat, nat)>)
    requires q <= |s|
    ensures r.Some? ==> q + 4 <= r.value.0 <= r.value.1 && r.value.1 + 3 <= |s|
  {
    if !HasAt(s, q, "```") then None
    else
      var m := RunEnd(s, q + 3, IsTagChar);
      if m < |s| && s[m] == '\n' then
        match FindFrom(s, m + 1, "```")
        case None => None
        case Some(t) => Some((m + 1, t))
      else None
  }

  /** The body `[bs, be)` runs up to the first closing fence. */
  predicate FencedBody(s: string, bs: nat, be: nat) {
    && be + 3 <= |s| && HasAt(s, be, "```")
    && forall u :: bs <= u < be ==> !HasAt(s, u, "```")
  }

  /** The body `FenceAt` finds ends at the first closing fence. */
  lemma FenceShape(s: string, q: nat)
    requires q <= |s|
    ensures var r := FenceAt(s, q); r.Some? ==> FencedBody(s, r.value.0, r.value.1)
  {
    if HasAt(s, q, "```") && RunEnd(s, q + 3, IsTagChar) < |s| {
      FindFromFirst(s, RunEnd(s, q + 3, IsTagChar) + 1, "```");
    }
  }

  /** `\s*\n` after the heading text ending at `a`: whitespace runs of length `j`, `j - 1`, ... 0 are tried. */
  function TrySuffix(s: string, a: nat, j: nat): (r: Option<Groups>)
    requires a + j <= |s|
    ensures r.Some? ==> r.value.hs == a == r.value.he
    ensures r.Some? ==> a < r.value.bs <= r.value.be && r.value.be + 3 <= |s|
    decreases j
  {
    var p := a + j;
    var f := if p < |s| && s[p] == '\n' then FenceAt(s, p + 1) else None;
    if f.Some? then Some(Groups(a, a, f.value.0, f.value.1))
    else if j == 0 then None
    else TrySuffix(s, a, j - 1)
  }

  lemma {:induction false} SuffixShape(s: string, a: nat, j: nat)
    requires a + j <= |s|
    ensures var r := TrySuffix(s, a, j); r.Some? ==> FencedBody(s, r.value.bs, r.value.be)
    decreases j
  {
    if a + j < |s| && s[a + j] == '\n' {
      FenceShape(s, a + j + 1);
    }
    if j > 0 {
      SuffixShape(s, a, j - 1);
    }
  }

  /** The lazy heading text `(.*?)` from `c0`: lengths `e`, `e + 1`, ... `emax` are tried. */
  function TryHeading(s: string, c0: nat, e: nat, emax: nat): (r: Option<Groups>)
    requires e <= emax && c0 + emax <= |s|
    ensures r.Some? ==> r.value.hs == c0 <= r.value.he <= c0 + emax
    ensures r.Some? ==> r.value.he < r.value.bs <= r.value.be && r.value.be + 3 <= |s|
    decreases emax - e
  {
    var a := c0 + e;
    var g := TrySuffix(s, a, RunEnd(s, a, IsJsSpace) - a);
    if g.Some? then Some(Groups(c0, a, g.value.bs, g.value.be))
    else if e == emax then None
    else TryHeading(s, c0, e + 1, emax)
  }

  lemma {:induction false} HeadingShape(s: string, c0: nat, e: nat, emax: nat)
    requires e <= emax && c0 + emax <= |s|
    ensures var r := TryHeading(s, c0, e, emax); r.Some? ==> FencedBody(s, r.value.bs, r.value.be)
    decreases emax - e
  {
    if e < emax {
      HeadingShape(s, c0, e + 1, emax);
    }
    HeadingShapeStep(s, c0, e, emax);
  }

  lemma HeadingShapeStep(s: string, c0: nat, e: nat, emax: nat)
    requires e <= emax && c0 + emax <= |s|
    requires e < emax ==> var r := TryHeading(s, c0, e + 1, emax); r.Some? ==> FencedBody(s, r.value.bs, r.value.be)
    ensures var r := TryHeading(s, c0, e, emax); r.Some? ==> FencedBody(s, r.value.bs, r.value.be)
  {
    if SuffixAt(s, c0 + e).Some? {
      HeadingShapeHere(s, c0, e, emax);
    } else if e < emax {
      HeadingShapeLater(s, c0, e, emax);
    }
  }

  lemma HeadingShapeHere(s: string, c0: nat, e: nat, emax: nat)
    requires e <= emax && c0 + emax <= |s| && SuffixAt(s, c0 + e).Some?
    ensures var r := TryHeading(s, c0, e, emax); r.Some? ==> FencedBody(s, r.value.bs, r.value.be)
  {
    SuffixAtShape(s, c0 + e);
    TryHeadingTakes(s, c0, e, emax, SuffixAt(s, c0 + e).value);
  }

  lemma HeadingShapeLater(s: string, c0: nat, e: nat, emax: nat)
    requires e < emax && c0 + emax <= |s| && SuffixAt(s, c0 + e).None?
    requires var r := TryHeading(s, c0, e + 1, emax); r.Some? ==> FencedBody(s, r.value.bs, r.value.be)
    ensures var r := TryHeading(s, c0, e, emax); r.Some? ==> FencedBody(s, r.value.bs, r.value.be)
  {
    TryHeadingSkip(s, c0, e, emax);
  }

  lemma SuffixAtShape(s: string, a: nat)
    requires a <= |s|
    ensures SuffixAt(s, a).Some? ==> FencedBody(s, SuffixAt(s, a).value.bs, SuffixAt(s, a).value.be)
  {
    SuffixShape(s, a, RunEnd(s, a, IsJsSpace) - a);
  }

  /** `\s*` after "####" at `st`: whitespace runs of length `k`, `k - 1`, ... 0 are tried. */
  function TryPrefix(s: string, st: nat, k: nat): (r: Option<Groups>)
    requires st + 4 + k <= |s|
    ensures r.Some? ==> st + 4 <= r.value.hs <= r.value.he < r.value.bs <= r.value.be
    ensures r.Some? ==> r.value.be + 3 <= |s|
    decreases k
  {
    var c0 := st + 4 + k;
    var g := TryHeading(s, c0, 0, RunEnd(s, c0, IsLineChar) - c0);
    if g.Some? then g
    else if k == 0 then None
    else TryPrefix(s, st, k - 1)
  }

  /** The heading text consists of line characters. */
  lemma {:induction false} PrefixLine(s: string, st: nat, k: nat)
    requires st + 4 + k <= |s|
    ensures var r := TryPrefix(s, st, k);
      r.Some? ==> forall u :: r.value.hs <= u < r.value.he ==> IsLineChar(s[u])
    decreases k
  {
    var emax := RunEnd(s, st + 4 + k, IsLineChar) - (st + 4 + k);
    if TryHeading(s, st + 4 + k, 0, emax).Some? {
      PrefixLineHere(s, st, k, emax);
    } else if k > 0 {
      PrefixLine(s, st, k - 1);
      PrefixLineLater(s, st, k, emax);
    }
  }

  lemma PrefixLineHere(s: string, st: nat, k: nat, emax: nat)
    requires st + 4 + k + emax <= |s| && RunEnd(s, st + 4 + k, IsLineChar) == st + 4 + k + emax
    requires TryHeading(s, st + 4 + k, 0, emax).Some?
    ensures var r := TryPrefix(s, st, k);
      r.Some? ==> forall u :: r.value.hs <= u < r.value.he ==> IsLineChar(s[u])
  {
    PrefixFirst(s, st, k, emax);
    RunEndSpec(s, st + 4 + k, IsLineChar);
  }

  lemma PrefixLineLater(s: string, st: nat, k: nat, emax: nat)
    requires st + 4 + k + emax <= |s| && RunEnd(s, st + 4 + k, IsLineChar) == st + 4 + k + emax && k > 0
    requires TryHeading(s, st + 4 + k, 0, emax).None?
    requires var r := TryPrefix(s, st, k - 1);
      r.Some? ==> forall u :: r.value.hs <= u < r.value.he ==> IsLineChar(s[u])
    ensures var r := TryPrefix(s, st, k);
      r.Some? ==> forall u :: r.value.hs <= u < r.value.he ==> IsLineChar(s[u])
  {
    PrefixNext(s, st, k, emax);
  }

  /** The body runs up to the first closing fence. */
  lemma {:induction false} PrefixFenced(s: string, st: nat, k: nat)
    requires st + 4 + k <= |s|
    ensures var r := TryPrefix(s, st, k); r.Some? ==> FencedBody(s, r.value.bs, r.value.be)
    decreases k
  {
    var emax := RunEnd(s, st + 4 + k, IsLineChar) - (st + 4 + k);
    if TryHeading(s, st + 4 + k, 0, emax).Some? {
      PrefixFencedHere(s, st, k, emax);
    } else if k > 0 {
      PrefixFenced(s, st, k - 1);
      PrefixFencedLater(s, st, k, emax);
    }
  }

  lemma PrefixFencedHere(s: string, st: nat, k: nat, emax: nat)
    requires st + 4 + k + emax <= |s| && RunEnd(s, st + 4 + k, IsLineChar) == st + 4 + k + emax
    requires TryHeading(s, st + 4 + k, 0, emax).Some?
    ensures var r := TryPrefix(s, st, k); r.Some? ==> FencedBody(s, r.value.bs, r.value.be)
  {
    PrefixFirst(s, st, k, emax);
    HeadingShape(s, st + 4 + k, 0, emax);
  }

  lemma PrefixFencedLater(s: string, st: nat, k: nat, emax: nat)
    requires st + 4 + k + emax <= |s| && RunEnd(s, st + 4 + k, IsLineChar) == st + 4 + k + emax && k > 0
    requires TryHeading(s, st + 4 + k, 0, emax).None?
    requires var r := TryPrefix(s, st, k - 1); r.Some? ==> FencedBody(s, r.value.bs, r.value.be)
    ensures var r := TryPrefix(s, st, k); r.Some? ==> FencedBody(s, r.value.bs, r.value.be)
  {
    PrefixNext(s, st, k, emax);
  }

  /** A heading that leads to a match at the longest prefix is the one taken. */
  lemma PrefixFirst(s: string, st: nat, k: nat, emax: nat)
    requires st + 4 + k + emax <= |s| && RunEnd(s, st + 4 + k, IsLineChar) == st + 4 + k + emax
    requires TryHeading(s, st + 4 + k, 0, emax).Some?
    ensures TryPrefix(s, st, k) == TryHeading(s, st + 4 + k, 0, emax)
  {
  }

  /** Otherwise the prefix gives back one whitespace character. */
  lemma PrefixNext(s: string, st: nat, k: nat, emax: nat)
    requires st + 4 + k + emax <= |s| && RunEnd(s, st + 4 + k, IsLineChar) == st + 4 + k + emax && k > 0
    requires TryHeading(s, st + 4 + k, 0, emax).None?
    ensures TryPrefix(s, st, k) == TryPrefix(s, st, k - 1)
  {
  }

  /** The pattern tried at start position `st`, with the regex engine's backtracking order:
      where its heading text and its body lie when it matches there. */
  function MatchAt(s: string, st: nat): (r: Option<Groups>)
    requires st <= |s|
    ensures r.Some? ==> st + 4 <= r.value.hs <= r.value.he < r.value.bs <= r.value.be
    ensures r.Some? ==> r.value.be + 3 <= |s|
  {
    if !HasAt(s, st, "####") then None
    else TryPrefix(s, st, RunEnd(s, st + 4, IsJsSpace) - (st + 4))
  }

  /** The match `exec` reports for groups `g` found at `st`: it ends after the closing fence. */
  function Matched(s: string, st: nat, g: Groups): BlockMatch
    requires g.hs <= g.he <= g.bs <= g.be <= |s|
  {
    BlockMatch(st, g.be + 3, s[g.hs..g.he], s[g.bs..g.be])
  }

  /** After "####" and the whitespace run, the prefix loop decides the match. */
  lemma MatchAtPrefix(s: string, st: nat, k: nat)
    requires st + 4 + k <= |s| && HasAt(s, st, "####") && RunEnd(s, st + 4, IsJsSpace) == st + 4 + k
    ensures MatchAt(s, st) == TryPrefix(s, st, k)
  {
  }

  /** A match starts with "####", ends just after a closing fence, has a one-line heading and
      a body holding no fence. */
  lemma MatchAtShape(s: string, st: nat)
    requires st <= |s|
    ensures var r := MatchAt(s, st);
      r.Some? ==>
        && HasAt(s, st, "####") && HasAt(s, r.value.be, "```")
        && (forall u :: r.value.hs <= u < r.value.he ==> IsLineChar(s[u]))
        && !Contains(s[r.value.bs..r.value.be], "```")
  {
    if HasAt(s, st, "####") {
      var k := RunEnd(s, st + 4, IsJsSpace) - (st + 4);
      MatchAtPrefix(s, st, k);
      PrefixLine(s, st, k);
      PrefixFenced(s, st, k);
      if TryPrefix(s, st, k).Some? {
        GroupsFenced(s, TryPrefix(s, st, k).value);
      }
    }
  }

  lemma GroupsFenced(s: string, g: Groups)
    requires g.bs <= g.be && FencedBody(s, g.bs, g.be)
    ensures HasAt(s, g.be, "```") && !Contains(s[g.bs..g.be], "```")
  {
    AbsentFromSlice(s, g.bs, g.be, "```");
  }

  /** `regex.exec(s)` with `lastIndex == from`: the match at the first start position that has one. */
  function Exec(s: string, from: nat): (r: Option<BlockMatch>)
    requires from <= |s|
    ensures r.Some? ==> from <= r.value.start < r.value.end <= |s| && |r.value.body| < |s|
    decreases |s| - from
  {
    var g := MatchAt(s, from);
    if g.Some? then Some(Matched(s, from, g.value))
    else if from == |s| then None
    else Exec(s, from + 1)
  }

  /** `exec` reports the match at the leftmost start position from which the pattern matches. */
  lemma {:induction false} ExecIsLeftmost(s: string, from: nat)
    requires from <= |s|
    ensures var r := Exec(s, from);
      && (r.Some? ==> var g := MatchAt(s, r.value.start); g.Some? && r.value == Matched(s, r.value.start, g.value))
      && (forall st :: from <= st <= |s| && (r.None? || st < r.value.start) ==> MatchAt(s, st).None?)
    decreases |s| - from
  {
    var r := Exec(s, from);
    if MatchAt(s, from).Some? {
      assert r == Some(Matched(s, from, MatchAt(s, from).value));
    } else if from == |s| {
      assert r.None?;
    } else {
      assert r == Exec(s, from + 1);
      ExecIsLeftmost(s, from + 1);
      forall st | from <= st <= |s| && (r.None? || st < r.value.start)
        ensures MatchAt(s, st).None?
      {
        if st == from {
          assert MatchAt(s, from).None?;
        }
      }
    }
  }

  // ----- what the pattern accepts -----

  /** A well-formed block: a `#### ` heading line, then a fence without a language tag, the
      body and the closing fence. */
  function Block(heading: string, body: string): (r: string)
    ensures |r| == |heading| + |body| + 13
  {
    "#### " + heading + "\n```\n" + body + "```"
  }

  /** A heading the pattern takes whole: one non-empty line that neither starts nor ends
      with whitespace. */
  predicate PlainHeading(h: string) {
    && h != [] && (forall u :: 0 <= u < |h| ==> IsLineChar(h[u]))
    && !IsJsSpace(h[0]) && !IsJsSpace(h[|h| - 1])
  }

  /** `\s*\n` and the fenced block after the heading text ending at `a`, as `TryHeading` tries them. */
  function SuffixAt(s: string, a: nat): Option<Groups>
    requires a <= |s|
  {
    TrySuffix(s, a, RunEnd(s, a, IsJsSpace) - a)
  }

  /** No `\n` among the positions tried: no suffix. */
  lemma {:induction false} TrySuffixNone(s: string, a: nat, j: nat)
    requires a + j < |s| && forall u :: a <= u <= a + j ==> s[u] != '\n'
    ensures TrySuffix(s, a, j).None?
    decreases j
  {
    if j > 0 {
      TrySuffixNone(s, a, j - 1);
    }
  }

  /** The lazy heading grows until the first length after which the suffix matches. */
  lemma {:induction false} TryHeadingReaches(s: string, c0: nat, e: nat, emax: nat, g: Groups)
    requires e <= emax && c0 + emax <= |s|
    requires forall u :: c0 + e <= u < c0 + emax ==> SuffixAt(s, u).None?
    requires SuffixAt(s, c0 + emax) == Some(g)
    ensures TryHeading(s, c0, e, emax) == Some(Groups(c0, c0 + emax, g.bs, g.be))
    decreases emax - e
  {
    if e < emax {
      TryHeadingReaches(s, c0, e + 1, emax, g);
      TryHeadingSkip(s, c0, e, emax);
    } else {
      TryHeadingTakes(s, c0, emax, emax, g);
    }
  }

  /** The first heading length after which the suffix matches is taken. */
  lemma TryHeadingTakes(s: string, c0: nat, e: nat, emax: nat, g: Groups)
    requires e <= emax && c0 + emax <= |s| && SuffixAt(s, c0 + e) == Some(g)
    ensures TryHeading(s, c0, e, emax) == Some(Groups(c0, c0 + e, g.bs, g.be))
  {
  }

  /** A heading length after which no suffix matches is passed over. */
  lemma TryHeadingSkip(s: string, c0: nat, e: nat, emax: nat)
    requires e < emax && c0 + emax <= |s| && SuffixAt(s, c0 + e).None?
    ensures TryHeading(s, c0, e, emax) == TryHeading(s, c0, e + 1, emax)
  {
  }

  /** A well-formed block is matched where it starts, with its heading and its body as the groups. */
  lemma MatchAtBlock(s: string, st: nat, h: string, b: string)
    requires PlainHeading(h) && ClosedBy(b, "```") && HasAt(s, st, Block(h, b))
    ensures MatchAt(s, st) == Some(BlockGroups(st, h, b))
  {
    BlockLayout(s, st, h, b);
    MatchAtLaid(s, st, h, b);
  }

  /** Where a well-formed block starting at `st` has its heading text and its body. */
  function BlockGroups(st: nat, h: string, b: string): (g: Groups)
    ensures g.he - g.hs == |h| && g.be - g.bs == |b| && g.be + 3 == st + |Block(h, b)|
  {
    Groups(st + 5, st + 5 + |h|, st + 5 + |h| + 5, st + 5 + |h| + 5 + |b|)
  }

  /** `exec` resumed at the start of a well-formed block reports that block: the whole block,
      with its heading as group 1 and its body as group 3. */
  lemma ExecBlock(s: string, st: nat, h: string, b: string)
    requires PlainHeading(h) && ClosedBy(b, "```") && HasAt(s, st, Block(h, b))
    ensures Exec(s, st) == Some(BlockMatch(st, st + |Block(h, b)|, h, b))
  {
    MatchAtBlock(s, st, h, b);
    BlockText(s, st, h, b);
    ExecAt(s, st, BlockGroups(st, h, b), h, b);
  }

  /** The groups of a well-formed block hold its heading and its body. */
  lemma BlockText(s: string, st: nat, h: string, b: string)
    requires HasAt(s, st, Block(h, b))
    ensures var g := BlockGroups(st, h, b);
      g.be <= |s| && s[g.hs..g.he] == h && s[g.bs..g.be] == b
  {
    BlockLayout(s, st, h, b);
    BodySlice(s, st + 5 + |h| + 5, b);
  }

  /** `exec` at a position where the pattern matches reports the text of the groups there. */
  lemma ExecAt(s: string, st: nat, g: Groups, h: string, b: string)
    requires st <= |s| && MatchAt(s, st) == Some(g)
    requires s[g.hs..g.he] == h && s[g.bs..g.be] == b
    ensures Exec(s, st) == Some(BlockMatch(st, g.be + 3, h, b))
  {
  }

  /** The match of a block whose parts lie as `BlockLayout` describes. */
  lemma MatchAtLaid(s: string, st: nat, h: string, b: string)
    requires PlainHeading(h) && ClosedBy(b, "```")
    requires var a := st + 5 + |h|;
      && a + 5 + |b| + 3 <= |s|
      && HasAt(s, st, "####") && s[st + 4] == ' ' && s[st + 5..a] == h
      && s[a] == '\n' && HasAt(s, a + 1, "```") && s[a + 4] == '\n'
      && s[a + 5..a + 5 + |b| + 3] == b + "```"
    ensures MatchAt(s, st) == Some(BlockGroups(st, h, b))
  {
    HeadingSuffix(s, st + 5 + |h|, b);
    MatchAtHeaded(s, st, h, st + 5 + |h| + 5, st + 5 + |h| + 5 + |b|);
  }

  /** "#### ", a plain heading and its line end, followed by a suffix that matches: the match
      has the heading's place as group 1 and the suffix's body as group 3. */
  lemma MatchAtHeaded(s: string, st: nat, h: string, bs: nat, be: nat)
    requires PlainHeading(h) && st + 5 + |h| < |s|
    requires HasAt(s, st, "####") && s[st + 4] == ' ' && s[st + 5..st + 5 + |h|] == h
    requires s[st + 5 + |h|] == '\n'
    requires SuffixAt(s, st + 5 + |h|) == Some(Groups(st + 5 + |h|, st + 5 + |h|, bs, be))
    ensures MatchAt(s, st) == Some(Groups(st + 5, st + 5 + |h|, bs, be))
  {
    HeadingTaken(s, st, h, bs, be);
    MatchAtFrom(s, st, |h|, bs, be);
  }

  /** The runs and the lazy heading over "#### " and a plain heading. */
  lemma HeadingTaken(s: string, st: nat, h: string, bs: nat, be: nat)
    requires PlainHeading(h) && st + 5 + |h| < |s|
    requires s[st + 4] == ' ' && s[st + 5..st + 5 + |h|] == h && s[st + 5 + |h|] == '\n'
    requires SuffixAt(s, st + 5 + |h|) == Some(Groups(st + 5 + |h|, st + 5 + |h|, bs, be))
    ensures RunEnd(s, st + 4, IsJsSpace) == st + 5 && RunEnd(s, st + 5, IsLineChar) == st + 5 + |h|
    ensures TryHeading(s, st + 5, 0, |h|) == Some(Groups(st + 5, st + 5 + |h|, bs, be))
  {
    SpaceRun(s, st, h);
    LineRun(s, st + 5, h);
    PlainHeadingReaches(s, st + 5, h, bs, be);
  }

  /** The body is the part of `body + "```"` before the closing fence. */
  lemma BodySlice(s: string, i: nat, b: string)
    requires i + |b| + 3 <= |s| && s[i..i + |b| + 3] == b + "```"
    ensures s[i..i + |b|] == b
  {
    assert s[i..i + |b|] == s[i..i + |b| + 3][..|b|];
  }

  /** "####", one space, and a heading of `n` line characters after which the lazy heading
      stops: the pattern matches with those groups. */
  lemma MatchAtFrom(s: string, st: nat, n: nat, bs: nat, be: nat)
    requires st + 5 + n <= |s| && HasAt(s, st, "####") && RunEnd(s, st + 4, IsJsSpace) == st + 5
    requires RunEnd(s, st + 5, IsLineChar) == st + 5 + n
    requires TryHeading(s, st + 5, 0, n) == Some(Groups(st + 5, st + 5 + n, bs, be))
    ensures MatchAt(s, st) == Some(Groups(st + 5, st + 5 + n, bs, be))
  {
    TryPrefixTakes(s, st, 1, n, Groups(st + 5, st + 5 + n, bs, be));
    MatchAtPrefix(s, st, 1);
  }

  /** The single space after "####" ends where a plain heading starts. */
  lemma SpaceRun(s: string, st: nat, h: string)
    requires PlainHeading(h) && st + 5 + |h| <= |s| && s[st + 4] == ' ' && s[st + 5..st + 5 + |h|] == h
    ensures RunEnd(s, st + 4, IsJsSpace) == st + 5
  {
    assert s[st + 5] == h[0];
    RunEndAt(s, st + 4, st + 5, IsJsSpace);
  }

  /** The line characters from `c0` run exactly over a heading that ends at a line end. */
  lemma LineRun(s: string, c0: nat, h: string)
    requires PlainHeading(h) && c0 + |h| < |s| && s[c0..c0 + |h|] == h && s[c0 + |h|] == '\n'
    ensures RunEnd(s, c0, IsLineChar) == c0 + |h|
  {
    assert forall u :: c0 <= u < c0 + |h| ==> s[u] == h[u - c0];
    RunEndAt(s, c0, c0 + |h|, IsLineChar);
  }

  /** The lazy heading takes a plain heading whole when the suffix follows it. */
  lemma PlainHeadingReaches(s: string, c0: nat, h: string, bs: nat, be: nat)
    requires PlainHeading(h) && c0 + |h| <= |s| && s[c0..c0 + |h|] == h
    requires SuffixAt(s, c0 + |h|) == Some(Groups(c0 + |h|, c0 + |h|, bs, be))
    ensures TryHeading(s, c0, 0, |h|) == Some(Groups(c0, c0 + |h|, bs, be))
  {
    ShorterHeadingsFail(s, c0, h);
    TryHeadingReaches(s, c0, 0, |h|, Groups(c0 + |h|, c0 + |h|, bs, be));
  }

  /** Where the parts of a well-formed block lie in the text. */
  lemma BlockLayout(s: string, st: nat, h: string, b: string)
    requires HasAt(s, st, Block(h, b))
    ensures var a := st + 5 + |h|;
      && HasAt(s, st, "####") && s[st + 4] == ' ' && s[st + 5..a] == h
      && s[a] == '\n' && HasAt(s, a + 1, "```") && s[a + 4] == '\n'
      && s[a + 5..a + 5 + |b| + 3] == b + "```"
  {
    var n, blk := |h|, Block(h, b);
    BlockParts(h, b);
    SubSlice(s, st, blk, 0, 4);
    SubSlice(s, st, blk, 5, 5 + n);
    SubSlice(s, st, blk, 6 + n, 9 + n);
    SubSlice(s, st, blk, 10 + n, |blk|);
    CharOf(s, st, blk, 4);
    CharOf(s, st, blk, 5 + n);
    CharOf(s, st, blk, 9 + n);
  }

  /** The parts of a well-formed block. */
  lemma BlockParts(h: string, b: string)
    ensures var blk, n := Block(h, b), |h|;
      && blk[..4] == "####" && blk[4] == ' ' && blk[5..5 + n] == h
      && blk[5 + n] == '\n' && blk[6 + n..9 + n] == "```" && blk[9 + n] == '\n'
      && blk[10 + n..] == b + "```"
  {
    var blk, n := Block(h, b), |h|;
    var p := "#### " + h + "\n```\n";
    assert blk == p + b + "```";
    assert blk[5..5 + n] == h;
    assert blk[10 + n..] == b + "```";
  }

  /** After a plain heading's line characters, no shorter heading is followed by a line end. */
  lemma ShorterHeadingsFail(s: string, c0: nat, h: string)
    requires PlainHeading(h) && c0 + |h| <= |s| && s[c0..c0 + |h|] == h
    ensures forall u :: c0 <= u < c0 + |h| ==> SuffixAt(s, u).None?
  {
    var last := c0 + |h| - 1;
    assert forall u :: c0 <= u <= last ==> s[u] == h[u - c0];
    forall u | c0 <= u < c0 + |h| ensures SuffixAt(s, u).None? {
      RunEndBefore(s, u, last, IsJsSpace);
      TrySuffixNone(s, u, RunEnd(s, u, IsJsSpace) - u);
    }
  }

  /** After the heading's `\n`: a bare fence line and the body up to the closing fence. */
  lemma HeadingSuffix(s: string, a: nat, b: string)
    requires a + 5 + |b| + 3 <= |s| && ClosedBy(b, "```")
    requires s[a] == '\n' && HasAt(s, a + 1, "```") && s[a + 4] == '\n'
    requires s[a + 5..a + 5 + |b| + 3] == b + "```"
    ensures SuffixAt(s, a) == Some(Groups(a, a, a + 5, a + 5 + |b|))
  {
    assert s[a + 1] == '`';
    RunEndAt(s, a, a + 1, IsJsSpace);
    RunEndAt(s, a + 4, a + 4, IsTagChar);
    FindClosing(s, a + 5, b, "```");
    assert FenceAt(s, a + 1) == Some((a + 5, a + 5 + |b|));
    assert TrySuffix(s, a, 0) == Some(Groups(a, a, a + 5, a + 5 + |b|));
    assert TrySuffix(s, a, 1) == TrySuffix(s, a, 0);
  }

  /** `TryPrefix` takes the first heading that leads to a match. */
  lemma TryPrefixTakes(s: string, st: nat, k: nat, emax: nat, g: Groups)
    requires st + 4 + k + emax <= |s| && RunEnd(s, st + 4 + k, IsLineChar) == st + 4 + k + emax
    requires TryHeading(s, st + 4 + k, 0, emax) == Some(g)
    ensures TryPrefix(s, st, k) == Some(g)
  {
  }

  /** Successive `exec` results from `from`, each search resuming where the previous match ended. */
  function AllMatches(s: string, from: nat): seq<BlockMatch>
    requires from <= |s|
    decreases |s| - from
  {
    match Exec(s, from)
    case None => []
    case Some(m) => [m] + AllMatches(s, m.end)
  }

  /** Matches lying between `from` and `n`, in order and without overlapping. */
  predicate Ordered(ms: seq<BlockMatch>, from: nat, n: nat) {
    && (forall i :: 0 <= i < |ms| ==> from <= ms[i].start < ms[i].end <= n)
    && (forall i :: 0 <= i < |ms| - 1 ==> ms[i].end <= ms[i + 1].start)
  }

  /** The matches lie inside the text after `from`, in order and without overlapping. */
  lemma {:induction false} AllMatchesOrdered(s: string, from: nat)
    requires from <= |s|
    ensures Ordered(AllMatches(s, from), from, |s|)
    decreases |s| - from
  {
    var r := Exec(s, from);
    if r.Some? {
      var m := r.value;
      var rest := AllMatches(s, m.end);
      assert AllMatches(s, from) == [m] + rest;
      AllMatchesOrdered(s, m.end);
      MatchesCons(m, rest, from, |s|);
    }
  }

  /** A matched body is shorter than the text. */
  lemma {:induction false} AllMatchesBodies(s: string, from: nat, m: BlockMatch)
    requires from <= |s| && m in AllMatches(s, from)
    ensures |m.body| < |s|
    decreases |s| - from
  {
    var first := Exec(s, from).value;
    var rest := AllMatches(s, first.end);
    assert AllMatches(s, from) == [first] + rest;
    if m != first {
      AllMatchesBodies(s, first.end, m);
    }
  }

  /** A match followed by ordered matches that start after it gives ordered matches. */
  lemma MatchesCons(m: BlockMatch, rest: seq<BlockMatch>, from: nat, n: nat)
    requires from <= m.start < m.end <= n && Ordered(rest, m.end, n)
    ensures Ordered([m] + rest, from, n)
  {
    var ms := [m] + rest;
    assert forall i :: 1 <= i < |ms| ==> ms[i] == rest[i - 1];
  }

  // ----- parseAiMarkdown -----

  /** What one matched block contributes before duplicates are dropped: nothing when its
      trimmed heading or trimmed body is empty. */
  function Candidate(m: BlockMatch, hash: string -> string): (r: seq<ParsedFile>)
    ensures |r| <= 1
    ensures r != [] <==> Trim(JavaScript, m.heading) != [] && Trim(JavaScript, m.body) != []
    ensures r != [] ==> r[0].path == FixPath(Trim(JavaScript, m.heading))
    ensures r != [] ==> r[0].content == Trim(JavaScript, m.body) && r[0].sha256 == hash(r[0].content)
  {
    var rawPath := Trim(JavaScript, m.heading);
    var content := Trim(JavaScript, m.body);
    if rawPath == [] || content == [] then [] else [ParsedFile(FixPath(rawPath), content, hash(content))]
  }

  function Candidates(ms: seq<BlockMatch>, hash: string -> string): (r: seq<ParsedFile>)
    ensures |r| <= |ms|
    ensures forall f :: f in r ==> exists m :: m in ms && Candidate(m, hash) == [f]
  {
    if ms == [] then [] else Candidate(ms[0], hash) + Candidates(ms[1..], hash)
  }

  lemma CandidatesCons(m: BlockMatch, ms: seq<BlockMatch>, hash: string -> string)
    ensures Candidates([m] + ms, hash) == Candidate(m, hash) + Candidates(ms, hash)
  {
    assert ([m] + ms)[0] == m;
    assert ([m] + ms)[1..] == ms;
  }

  /** The single file returned when no block yields a file. */
  function Fallback(markdown: string, hash: string -> string): ParsedFile {
    ParsedFile("response.md", markdown, hash(markdown))
  }

  /** The files `parseAiMarkdown` returns. */
  function ParsedFiles(markdown: string, hash: string -> string): (r: seq<ParsedFile>)
    ensures |r| >= 1
    ensures forall i, j :: 0 <= i < j < |r| ==> r[i].path != r[j].path
  {
    var kept := Dedup.DedupFrom(Candidates(AllMatches(markdown, 0), hash), PathOf, {});
    if kept == [] then [Fallback(markdown, hash)] else kept
  }

  /** `parseAiMarkdown`: the exec loop with its `seen` set, then the fallback. */
  method ParseAiMarkdown(markdown: string, hash: string -> string) returns (files: seq<ParsedFile>)
    ensures files == ParsedFiles(markdown, hash)
  {
    files := [];
    var seen: set<string> := {};
    var lastIndex: nat := 0;
    ghost var kept := Dedup.DedupFrom(Candidates(AllMatches(markdown, 0), hash), PathOf, {});
    while true
      invariant lastIndex <= |markdown|
      invariant files + Dedup.DedupFrom(Candidates(AllMatches(markdown, lastIndex), hash), PathOf, seen) == kept
      decreases |markdown| - lastIndex
    {
      var match_ := Exec(markdown, lastIndex);
      if match_.None? {
        assert AllMatches(markdown, lastIndex) == [];
        assert files == kept;
        break;
      }
      var m := match_.value;
      ghost var rest := Candidates(AllMatches(markdown, m.end), hash);
      assert AllMatches(markdown, lastIndex) == [m] + AllMatches(markdown, m.end);
      CandidatesCons(m, AllMatches(markdown, m.end), hash);
      assert Candidates(AllMatches(markdown, lastIndex), hash) == Candidate(m, hash) + rest;
      lastIndex := m.end;
      var rawPath := Trim(JavaScript, m.heading);
      var content := Trim(JavaScript, m.body);
      if rawPath == [] || content == [] {
        assert Candidate(m, hash) + rest == rest;
        continue;
      }
      var normalized := FixPath(rawPath);
      var file := ParsedFile(normalized, content, hash(content));
      assert Candidate(m, hash) + rest == [file] + rest;
      Dedup.DedupCons(file, rest, PathOf, seen);
      if normalized in seen {
        continue;
      }
      ghost var tail := Dedup.DedupFrom(rest, PathOf, seen + {normalized});
      assert Dedup.DedupFrom([file] + rest, PathOf, seen) == [file] + tail;
      Dedup.AppendAssoc(files, [file], tail);
      seen := seen + {normalized};
      files := files + [file];
    }
    if |files| == 0 {
      files := [Fallback(markdown, hash)];
    }
  }

  // ----- properties of the result -----

  /** The result is never empty, and it is the fallback exactly when no block yields a file. */
  lemma ParsedFilesFallback(markdown: string, hash: string -> string)
    ensures |ParsedFiles(markdown, hash)| >= 1
    ensures Candidates(AllMatches(markdown, 0), hash) == [] <==> ParsedFiles(markdown, hash) == [Fallback(markdown, hash)]
  {
    var c := Candidates(AllMatches(markdown, 0), hash);
    if c != [] {
      Dedup.DedupKeepsEveryKey(c, PathOf, {}, c[0]);
      var kept := Dedup.DedupFrom(c, PathOf, {});
      var f := kept[0];
      var ms := AllMatches(markdown, 0);
      var m :| m in ms && Candidate(m, hash) == [f];
      AllMatchesBodies(markdown, 0, m);
      assert |f.content| <= |m.body| < |markdown|;
      assert f != Fallback(markdown, hash);
    }
  }

  /** No path is lost: a matched block with a non-empty trimmed heading and body has a returned
      file with its fixed path (the first such block's file). */
  lemma ParsedEveryPath(markdown: string, hash: string -> string, m: BlockMatch)
    requires m in AllMatches(markdown, 0)
    requires Trim(JavaScript, m.heading) != [] && Trim(JavaScript, m.body) != []
    ensures exists f :: f in ParsedFiles(markdown, hash) && f.path == FixPath(Trim(JavaScript, m.heading))
  {
    var ms := AllMatches(markdown, 0);
    var x := Candidate(m, hash)[0];
    CandidatesHave(ms, hash, m);
    Dedup.DedupKeepsEveryKey(Candidates(ms, hash), PathOf, {}, x);
  }

  /** A block's candidate file is among the candidates of any list of blocks holding it. */
  lemma {:induction false} CandidatesHave(ms: seq<BlockMatch>, hash: string -> string, m: BlockMatch)
    requires m in ms && Candidate(m, hash) != []
    ensures Candidate(m, hash)[0] in Candidates(ms, hash)
  {
    if ms[0] != m {
      assert m in ms[1..];
      CandidatesHave(ms[1..], hash, m);
    }
  }

  /** A document that is one well-formed block with a non-blank body yields exactly that
      block's file: the fixed heading as path, the trimmed body as content. */
  lemma ParsedFilesOfBlock(h: string, b: string, hash: string -> string)
    requires PlainHeading(h) && ClosedBy(b, "```") && Trim(JavaScript, b) != []
    ensures var c := Trim(JavaScript, b);
      ParsedFiles(Block(h, b), hash) == [ParsedFile(FixPath(h), c, hash(c))]
  {
    var s := Block(h, b);
    assert s[0..|s|] == s;
    ExecBlock(s, 0, h, b);
    assert Exec(s, |s|) == None;
    var m := BlockMatch(0, |s|, h, b);
    assert AllMatches(s, 0) == [m];
    TrimUntouched(JavaScript, h);
    var f := ParsedFile(FixPath(h), Trim(JavaScript, b), hash(Trim(JavaScript, b)));
    assert Candidates([m], hash) == [f];
    assert Dedup.DedupFrom([f], PathOf, {}) == [f];
  }

  /** Every stored file hashes exactly its stored content. */
  lemma ParsedHashesContent(markdown: string, hash: string -> string)
    ensures forall f :: f in ParsedFiles(markdown, hash) ==> f.sha256 == hash(f.content)
  {
    var c := Candidates(AllMatches(markdown, 0), hash);
    forall f | f in Dedup.DedupFrom(c, PathOf, {}) ensures f.sha256 == hash(f.content) {
      var m :| m in AllMatches(markdown, 0) && Candidate(m, hash) == [f];
    }
  }

  /** A file other than the fallback comes from a matched block with a non-empty trimmed heading
      and body: its path is the fixed heading, its content the trimmed body. */
  lemma ParsedFileFromBlock(markdown: string, hash: string -> string, f: ParsedFile)
    requires f in ParsedFiles(markdown, hash) && Candidates(AllMatches(markdown, 0), hash) != []
    ensures exists m ::
              && m in AllMatches(markdown, 0)
              && Trim(JavaScript, m.heading) != [] && f.path == FixPath(Trim(JavaScript, m.heading))
              && f.content == Trim(JavaScript, m.body) != []
  {
    var c := Candidates(AllMatches(markdown, 0), hash);
    Dedup.DedupKeepsEveryKey(c, PathOf, {}, c[0]);
    var m :| m in AllMatches(markdown, 0) && Candidate(m, hash) == [f];
  }

  /** The first block for a path wins: a returned file is the first candidate with its path. */
  lemma ParsedFirstWins(markdown: string, hash: string -> string, f: ParsedFile)
    requires f in ParsedFiles(markdown, hash) && Candidates(AllMatches(markdown, 0), hash) != []
    ensures var c := Candidates(AllMatches(markdown, 0), hash);
      var i := Dedup.FirstIndexWithKey(c, PathOf, f.path);
      i < |c| && c[i] == f
  {
    var c := Candidates(AllMatches(markdown, 0), hash);
    Dedup.DedupKeepsEveryKey(c, PathOf, {}, c[0]);
    Dedup.DedupKeepsFirst(c, PathOf, {}, f);
  }

  /** Returned files follow the document order of the first block for each path. */
  lemma ParsedInDocumentOrder(markdown: string, hash: string -> string, i: nat, j: nat)
    requires Candidates(AllMatches(markdown, 0), hash) != []
    requires i < j < |ParsedFiles(markdown, hash)|
    ensures var c := Candidates(AllMatches(markdown, 0), hash);
      var fs := ParsedFiles(markdown, hash);
      Dedup.FirstIndexWithKey(c, PathOf, fs[i].path) < Dedup.FirstIndexWithKey(c, PathOf, fs[j].path)
  {
    var c := Candidates(AllMatches(markdown, 0), hash);
    Dedup.DedupKeepsEveryKey(c, PathOf, {}, c[0]);
    Dedup.DedupKeepsOrder(c, PathOf, {}, i, j);
  }
}
