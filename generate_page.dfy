/**
 * The generate page (frontend/src/app/generate/page.tsx): its own reading of a model
 * reply (a fenced block whose first line is `// path: ` or `# path: `), the file tree
 * built from the file paths, the order in which a folder's children are shown, and
 * the state changes of sending a prompt.
 */
module GeneratePage {

  import opened Wrappers
  import opened Text
  import Sorting
  import Dedup

  datatype GeneratedFile = GeneratedFile(path: string, content: string)

  // ----- the block pattern  ```(?:\w*\n)?(?:\/\/|#) path: (.*?)\n([\s\S]*?)```  -----
  //
  // Inside the optional group, `\w*` cannot be followed by a newline unless it is the
  // longest run, so the group has one way to match; the engine tries it first and, if
  // the rest fails, the pattern without it. The `//` and `#` alternatives start with
  // different characters, and `(.*?)` must stop at the first line terminator, which has
  // to be a `\n`; so the rest is determined by where the comment starts.

  /** One match: its bounds, the path text (group 1) and the body (group 2). */
  datatype PathMatch = PathMatch(start: nat, end: nat, path: string, body: string)

  /** The rest of the pattern from the comment marker at `p`: gives the path text's bounds
      and the body's bounds. */
  function CommentAt(s: string, p: nat): (r: Option<(nat, nat, nat, nat)>)
    requires p <= |s|
    ensures r.Some? ==> p < r.value.0 <= r.value.1 < r.value.2 <= r.value.3 && r.value.3 + 3 <= |s|
  {
    var c := MarkerEnd(s, p);
    if c == p || !HasAt(s, c, " path: ") then None
    else
      var q := RunEnd(s, c + 7, IsLineChar);
      if q == |s| || s[q] != '\n' then None
      else
        match FindFrom(s, q + 1, "```")
        case None => None
        case Some(t) => Some((c + 7, q, q + 1, t))
  }

  /** The end of the `//` or `#` comment marker at `p`, or `p` when there is none. */
  function MarkerEnd(s: string, p: nat): (c: nat)
    requires p <= |s|
    ensures p <= c <= |s|
  {
    if HasAt(s, p, "//") then p + 2 else if HasAt(s, p, "#") then p + 1 else p
  }

  /** Where the comment marker is looked for: after the language line when the rest of the
      pattern matches from there, otherwise right after the opening fence. */
  function CommentStart(s: string, st: nat): (p: nat)
    requires st + 3 <= |s|
    ensures st + 3 <= p <= |s|
  {
    var w := RunEnd(s, st + 3, IsWordChar);
    if w < |s| && s[w] == '\n' && CommentAt(s, w + 1).Some? then w + 1 else st + 3
  }

  /** The pattern tried at start position `st`: first with the language line, then without it. */
  function MatchAt(s: string, st: nat): (r: Option<PathMatch>)
    requires st <= |s|
    ensures r.Some? ==> r.value.start == st && st + 3 < r.value.end <= |s|
  {
    if !HasAt(s, st, "```") then None
    else
      match CommentAt(s, CommentStart(s, st))
      case None => None
      case Some(b) => Some(PathMatch(st, b.3 + 3, s[b.0..b.1], s[b.2..b.3]))
  }

  /** `regex.exec(response)` with `lastIndex == from`. */
  function Exec(s: string, from: nat): (r: Option<PathMatch>)
    requires from <= |s|
    ensures r.Some? ==> from <= r.value.start < r.value.end <= |s|
    decreases |s| - from
  {
    var m := MatchAt(s, from);
    if m.Some? then m else if from == |s| then None else Exec(s, from + 1)
  }

  /** Successive `exec` results, each search resuming where the previous match ended. */
  function AllMatches(s: string, from: nat): (ms: seq<PathMatch>)
    requires from <= |s|
    ensures forall i :: 0 <= i < |ms| ==> from <= ms[i].start < ms[i].end <= |s|
    ensures forall i :: 0 <= i < |ms| - 1 ==> ms[i].end <= ms[i + 1].start
    decreases |s| - from
  {
    match Exec(s, from)
    case None => []
    case Some(m) =>
      var rest := AllMatches(s, m.end);
      var ms := [m] + rest;
      assert forall i :: 1 <= i < |ms| ==> ms[i] == rest[i - 1];
      ms
  }

  /** What the comment-line part guarantees: the ` path: ` text runs to the first line end,
      which is a `\n`, and the body runs to the first fence after it. */
  lemma CommentAtShape(s: string, p: nat)
    requires p <= |s| && CommentAt(s, p).Some?
    ensures var b := CommentAt(s, p).value;
      && (forall u :: b.0 <= u < b.1 ==> IsLineChar(s[u]))
      && s[b.1] == '\n' && b.2 == b.1 + 1
      && HasAt(s, b.3, "```")
      && !Contains(s[b.2..b.3], "```")
  {
    var b := CommentAt(s, p).value;
    CommentAtParts(s, p, b.0, b.1, b.2, b.3);
    RunEndSpec(s, b.0, IsLineChar);
    FoundAbsent(s, b.2, "```");
  }

  /** The scans `CommentAt` made, stated on the bounds it returned. */
  lemma CommentAtParts(s: string, p: nat, k: nat, q: nat, b: nat, t: nat)
    requires p <= |s| && CommentAt(s, p) == Some((k, q, b, t))
    ensures k <= q < |s| && RunsTo(s, k, IsLineChar, q) && s[q] == '\n' && b == q + 1
    ensures FoundAt(s, b, "```", t)
  {
  }

  /** What every match looks like: it starts and ends with a fence, its path text has no
      line terminator and its body holds no fence. */
  predicate Shaped(s: string, m: PathMatch) {
    && 3 <= m.end <= |s|
    && HasAt(s, m.start, "```") && HasAt(s, m.end - 3, "```")
    && (forall u :: 0 <= u < |m.path| ==> IsLineChar(m.path[u]))
    && !Contains(m.body, "```")
  }

  /** A match starts at a fence followed, on its own line or directly, by a `//` or `#`
      comment reading ` path: `; the path text stops at the first line end. */
  lemma MatchAtShape(s: string, st: nat)
    requires st <= |s| && MatchAt(s, st).Some?
    ensures Shaped(s, MatchAt(s, st).value)
  {
    var p := CommentStart(s, st);
    var b := CommentAt(s, p).value;
    var m := MatchAt(s, st).value;
    assert m == PathMatch(st, b.3 + 3, s[b.0..b.1], s[b.2..b.3]);
    CommentAtShape(s, p);
    forall u | 0 <= u < |m.path| ensures IsLineChar(m.path[u]) {
      assert m.path[u] == s[b.0 + u];
    }
  }

  lemma {:induction false} ExecShape(s: string, from: nat)
    requires from <= |s| && Exec(s, from).Some?
    ensures Shaped(s, Exec(s, from).value)
    decreases |s| - from
  {
    if MatchAt(s, from).Some? {
      MatchAtShape(s, from);
    } else {
      ExecShape(s, from + 1);
    }
  }

  lemma {:induction false} AllMatchesShape(s: string, from: nat, i: nat)
    requires from <= |s| && i < |AllMatches(s, from)|
    ensures Shaped(s, AllMatches(s, from)[i])
    decreases |s| - from
  {
    var m := Exec(s, from).value;
    var rest := AllMatches(s, m.end);
    assert AllMatches(s, from) == [m] + rest;
    if i == 0 {
      ExecShape(s, from);
    } else {
      AllMatchesShape(s, m.end, i - 1);
      assert AllMatches(s, from)[i] == rest[i - 1];
    }
  }

  /** `exec` finds the leftmost start position from which the pattern matches. */
  lemma {:induction false} ExecIsLeftmost(s: string, from: nat)
    requires from <= |s|
    ensures Leftmost(s, from, Exec(s, from))
    decreases |s| - from
  {
    if MatchAt(s, from).None? && from < |s| {
      ExecIsLeftmost(s, from + 1);
      LeftmostStep(s, from, Exec(s, from + 1));
    }
  }

  /** `r` is the match at the leftmost start position from `from` on where the pattern
      matches, or `None` when it matches nowhere from there. */
  predicate Leftmost(s: string, from: nat, r: Option<PathMatch>)
    requires from <= |s|
  {
    && (r.Some? ==> r.value.start <= |s| && MatchAt(s, r.value.start) == r)
    && (forall st :: from <= st <= |s| && (r.None? || st < r.value.start) ==> MatchAt(s, st).None?)
  }

  /** Skipping a start position where the pattern does not match keeps the search leftmost. */
  lemma LeftmostStep(s: string, from: nat, r: Option<PathMatch>)
    requires from < |s| && MatchAt(s, from).None? && Leftmost(s, from + 1, r)
    requires r.Some? ==> from + 1 <= r.value.start
    ensures Leftmost(s, from, r)
  {
  }

  // ----- what the pattern accepts -----

  /** The comment line of a block, `// path: ` or `# path: ` and the path text, then the
      body and the closing fence. */
  function CommentLine(marker: string, path: string, body: string): string {
    marker + " path: " + path + "\n" + (body + "```")
  }

  /** A block as a model is asked to write it: a fence, an optional language line, and the
      comment line. */
  function PageBlock(langLine: string, marker: string, path: string, body: string): string {
    "```" + langLine + CommentLine(marker, path, body)
  }

  predicate IsMarker(marker: string) {
    marker == "//" || marker == "#"
  }

  /** What `(?:\w*\n)?` can take: nothing, or word characters and a line end. */
  predicate IsLangLine(line: string) {
    line == [] || (line[|line| - 1] == '\n' && forall u :: 0 <= u < |line| - 1 ==> IsWordChar(line[u]))
  }

  /** A path text `(.*?)` can take whole: it holds no line terminator. */
  predicate IsLinePath(path: string) {
    forall u :: 0 <= u < |path| ==> IsLineChar(path[u])
  }

  /** The pattern matches such a block where it starts, and its groups are the block's path
      text and body. */
  lemma MatchAtPageBlock(s: string, st: nat, langLine: string, marker: string, path: string, body: string)
    requires IsLangLine(langLine) && IsMarker(marker) && IsLinePath(path) && ClosedBy(body, "```")
    requires HasAt(s, st, PageBlock(langLine, marker, path, body))
    ensures MatchAt(s, st) == Some(PathMatch(st, st + |PageBlock(langLine, marker, path, body)|, path, body))
  {
    var p := st + 3 + |langLine|;
    var c := p + |marker|;
    var k := c + 7;
    var q := k + |path|;
    var b := q + 1;
    var t := b + |body|;
    var e := t + 3;
    PageBlockParts(s, st, p, langLine, marker, path, body);
    CommentAtLine(s, p, c, k, q, b, t, marker, path, body);
    StartAfterLangLine(s, st, p, langLine);
    MatchAtComment(s, st, p, k, q, b, t, e, path, body);
    MatchEndsBlock(s, st, langLine, marker, path, body, e);
  }

  /** `exec` from the start of such a block returns the block's match. */
  lemma ExecPageBlock(s: string, st: nat, langLine: string, marker: string, path: string, body: string)
    requires IsLangLine(langLine) && IsMarker(marker) && IsLinePath(path) && ClosedBy(body, "```")
    requires HasAt(s, st, PageBlock(langLine, marker, path, body))
    ensures Exec(s, st) == Some(PathMatch(st, st + |PageBlock(langLine, marker, path, body)|, path, body))
  {
    MatchAtPageBlock(s, st, langLine, marker, path, body);
    ExecAt(s, st);
  }

  /** `exec` from a position where the pattern matches returns that match. */
  lemma ExecAt(s: string, st: nat)
    requires st <= |s| && MatchAt(s, st).Some?
    ensures Exec(s, st) == MatchAt(s, st)
  {
  }

  /** The match found ends where the block ends. */
  lemma MatchEndsBlock(s: string, st: nat, langLine: string, marker: string, path: string, body: string, e: nat)
    requires st <= |s| && MatchAt(s, st) == Some(PathMatch(st, e, path, body))
    requires e == st + |PageBlock(langLine, marker, path, body)|
    ensures MatchAt(s, st) == Some(PathMatch(st, st + |PageBlock(langLine, marker, path, body)|, path, body))
  {
  }

  /** A block at `st` has its fence there, its language line after it and its comment line
      at `p`, which starts with `/` or `#`. */
  lemma PageBlockParts(s: string, st: nat, p: nat, langLine: string, marker: string, path: string, body: string)
    requires IsMarker(marker) && HasAt(s, st, PageBlock(langLine, marker, path, body))
    requires p == st + 3 + |langLine|
    ensures HasAt(s, st, "```") && HasAt(s, st + 3, langLine) && HasAt(s, p, CommentLine(marker, path, body))
    ensures p < |s| && (s[p] == '/' || s[p] == '#')
  {
    var a := st + 3;
    HasAtSplit(s, st, p, "```" + langLine, CommentLine(marker, path, body));
    HasAtSplit(s, st, a, "```", langLine);
    CharOf(s, p, CommentLine(marker, path, body), 0);
  }

  /** The comment line found at `p` is read by `CommentAt`, with the path text from `k` to
      `q` and the body from `b` to `t`. */
  lemma CommentAtLine(s: string, p: nat, c: nat, k: nat, q: nat, b: nat, t: nat, marker: string, path: string, body: string)
    requires IsMarker(marker) && IsLinePath(path) && ClosedBy(body, "```")
    requires HasAt(s, p, CommentLine(marker, path, body))
    requires c == p + |marker| && k == c + 7 && q == k + |path| && b == q + 1 && t == b + |body|
    ensures CommentAt(s, p) == Some((k, q, b, t)) && s[k..q] == path && s[b..t] == body
  {
    CommentLineParts(s, p, c, k, q, b, marker, path, body);
    MarkerEndOf(s, p, c, marker);
    LineAndBody(s, k, q, b, t, path, body);
    CommentAtFound(s, p, c, k, q, b, t);
  }

  /** The parts of a comment line, where they lie when it starts at `p`. */
  lemma CommentLineParts(s: string, p: nat, c: nat, k: nat, q: nat, b: nat, marker: string, path: string, body: string)
    requires HasAt(s, p, CommentLine(marker, path, body))
    requires c == p + |marker| && k == c + 7 && q == k + |path| && b == q + 1
    ensures HasAt(s, p, marker) && HasAt(s, c, " path: ") && HasAt(s, k, path)
    ensures HasAt(s, q, "\n") && HasAt(s, b, body + "```")
  {
    HasAtSplit(s, p, b, marker + " path: " + path + "\n", body + "```");
    HasAtSplit(s, p, q, marker + " path: " + path, "\n");
    HasAtSplit(s, p, k, marker + " path: ", path);
    HasAtSplit(s, p, c, marker, " path: ");
  }

  /** A `#` marker is not taken for `//`. */
  lemma MarkerEndOf(s: string, p: nat, c: nat, marker: string)
    requires IsMarker(marker) && HasAt(s, p, marker) && c == p + |marker|
    ensures MarkerEnd(s, p) == c
  {
    if marker == "#" {
      CharOf(s, p, "#", 0);
      assert p + 2 > |s| || s[p..p + 2][0] == '#';
    }
  }

  /** The path text runs to the line end at `q`, and the body to the first fence after it. */
  lemma LineAndBody(s: string, k: nat, q: nat, b: nat, t: nat, path: string, body: string)
    requires IsLinePath(path) && ClosedBy(body, "```")
    requires HasAt(s, k, path) && HasAt(s, q, "\n") && HasAt(s, b, body + "```")
    requires q == k + |path| && b == q + 1 && t == b + |body|
    ensures k <= q < |s| && s[q] == '\n' && RunsTo(s, k, IsLineChar, q) && s[k..q] == path
    ensures b <= t <= |s| && FoundAt(s, b, "```", t) && s[b..t] == body
  {
    CharOf(s, q, "\n", 0);
    RunsOver(s, k, q, path, IsLineChar);
    FindClosing(s, b, body, "```");
    HasAtSplit(s, b, t, body, "```");
  }

  lemma CommentAtFound(s: string, p: nat, c: nat, k: nat, q: nat, b: nat, t: nat)
    requires p <= |s| && MarkerEnd(s, p) == c && c != p && HasAt(s, c, " path: ") && k == c + 7
    requires k <= |s| && RunsTo(s, k, IsLineChar, q) && q < |s| && s[q] == '\n' && b == q + 1
    requires FoundAt(s, b, "```", t)
    ensures CommentAt(s, p) == Some((k, q, b, t))
  {
  }

  /** The comment is looked for after the language line: right after the fence when there is
      none, and after the line end when there is one, since the comment matches there. */
  lemma StartAfterLangLine(s: string, st: nat, p: nat, langLine: string)
    requires IsLangLine(langLine) && HasAt(s, st + 3, langLine) && p == st + 3 + |langLine|
    requires p < |s| && (s[p] == '/' || s[p] == '#') && CommentAt(s, p).Some?
    ensures CommentStart(s, st) == p
  {
    var a := st + 3;
    if langLine == [] {
      RunEndAt(s, a, a, IsWordChar);
    } else {
      var w := p - 1;
      var word := langLine[..|langLine| - 1];
      assert langLine == word + "\n";
      HasAtSplit(s, a, w, word, "\n");
      CharOf(s, w, "\n", 0);
      RunsOver(s, a, w, word, IsWordChar);
    }
  }

  lemma MatchAtComment(s: string, st: nat, p: nat, k: nat, q: nat, b: nat, t: nat, e: nat, path: string, body: string)
    requires st + 3 <= |s| && HasAt(s, st, "```") && CommentStart(s, st) == p
    requires CommentAt(s, p) == Some((k, q, b, t)) && e == t + 3
    requires k <= q <= b <= t <= |s| && s[k..q] == path && s[b..t] == body
    ensures MatchAt(s, st) == Some(PathMatch(st, e, path, body))
  {
  }

  function FileOf(m: PathMatch): GeneratedFile {
    GeneratedFile(Trim(JavaScript, m.path), Trim(JavaScript, m.body))
  }

  /** The files read from `s` by the `exec` loop started at `from`. */
  function ParsedFrom(s: string, from: nat): seq<GeneratedFile>
    requires from <= |s|
    decreases |s| - from
  {
    match Exec(s, from)
    case None => []
    case Some(m) => [FileOf(m)] + ParsedFrom(s, m.end)
  }

  /** One file per match, in match order, each with the match's path and body trimmed. */
  lemma {:induction false} ParsedFromMatches(s: string, from: nat)
    requires from <= |s|
    ensures var fs, ms := ParsedFrom(s, from), AllMatches(s, from);
      |fs| == |ms| && forall i :: 0 <= i < |fs| ==> fs[i] == FileOf(ms[i])
    decreases |s| - from
  {
    match Exec(s, from)
    case None =>
    case Some(m) =>
      ParsedFromMatches(s, m.end);
      var fs, ms := ParsedFrom(s, from), AllMatches(s, from);
      assert fs == [FileOf(m)] + ParsedFrom(s, m.end);
      assert ms == [m] + AllMatches(s, m.end);
      forall i | 0 <= i < |fs| ensures fs[i] == FileOf(ms[i]) {
        if i > 0 {
          assert fs[i] == ParsedFrom(s, m.end)[i - 1];
          assert ms[i] == AllMatches(s, m.end)[i - 1];
        }
      }
  }

  /** Every file read has a one-line path and a content holding no fence. */
  lemma ParsedFileShape(s: string, i: nat)
    requires i < |ParsedFrom(s, 0)|
    ensures var f := ParsedFrom(s, 0)[i];
      && (forall u :: 0 <= u < |f.path| ==> IsLineChar(f.path[u]))
      && !Contains(f.content, "```")
  {
    ParsedFromMatches(s, 0);
    var m := AllMatches(s, 0)[i];
    AllMatchesShape(s, 0, i);
    TrimKeepsChars(JavaScript, m.path, IsLineChar);
    TrimKeepsAbsent(JavaScript, m.body, "```");
  }

  /** The page's `parseAIResponse`: one file per match, path and content trimmed. */
  method ParseAIResponse(response: string) returns (files: seq<GeneratedFile>)
    ensures files == ParsedFrom(response, 0)
  {
    files := [];
    var lastIndex: nat := 0;
    while true
      invariant lastIndex <= |response|
      invariant files + ParsedFrom(response, lastIndex) == ParsedFrom(response, 0)
      decreases |response| - lastIndex
    {
      var match_ := Exec(response, lastIndex);
      if match_.None? {
        break;
      }
      var m := match_.value;
      lastIndex := m.end;
      var file := GeneratedFile(Trim(JavaScript, m.path), Trim(JavaScript, m.body));
      Dedup.AppendAssoc(files, [file], ParsedFrom(response, m.end));
      files := files + [file];
    }
  }

  // ----- buildFileTree -----

  datatype Node = File(name: string, path: string) | Folder(name: string, path: string, children: seq<Node>)

  /** `level.find(c => c.name === name)`: the index of the first child with that name, or `|level|`. */
  function ChildIndex(level: seq<Node>, name: string): (i: nat)
    ensures i <= |level|
    ensures i < |level| ==> level[i].name == name
    ensures forall j :: 0 <= j < i ==> level[j].name != name
  {
    if level == [] then 0 else if level[0].name == name then 0 else 1 + ChildIndex(level[1..], name)
  }

  /** The walk for one file: segments `parts[k..]` are placed below `level`, reusing a child with
      the segment's name, creating a folder (or a file for the last segment) otherwise, and
      stopping at an existing file. */
  function InsertPath(level: seq<Node>, parts: seq<string>, k: nat): (r: seq<Node>)
    requires k <= |parts|
    ensures |level| <= |r| <= |level| + 1
    ensures forall i :: 0 <= i < |level| ==> r[i].name == level[i].name && r[i].path == level[i].path
    ensures forall i :: 0 <= i < |level| ==> r[i].File? == level[i].File?
    ensures |r| == |level| + 1 ==> k < |parts| && r[|level|].name == parts[k]
    ensures |r| == |level| + 1 ==> r[|level|].path == Join(parts[..k + 1], "/")
    decreases |parts| - k
  {
    if k == |parts| then level
    else
      var i := ChildIndex(level, parts[k]);
      if i < |level| then
        match level[i]
        case File(_, _) => level
        case Folder(n, p, ch) => level[i := Folder(n, p, InsertPath(ch, parts, k + 1))]
      else if k == |parts| - 1 then level + [File(parts[k], Join(parts[..k + 1], "/"))]
      else level + [Folder(parts[k], Join(parts[..k + 1], "/"), InsertPath([], parts, k + 1))]
  }

  /** The tree after inserting each file path in turn (`path.split('/')`). */
  function FileTree(files: seq<GeneratedFile>): seq<Node> {
    if files == [] then []
    else InsertPath(FileTree(files[..|files| - 1]), Split(files[|files| - 1].path, '/'), 0)
  }

  /** `buildFileTree`: the root's children after the loop over the files. */
  method BuildFileTree(files: seq<GeneratedFile>) returns (tree: seq<Node>)
    ensures tree == FileTree(files)
  {
    tree := [];
    var i := 0;
    while i < |files|
      invariant i <= |files|
      invariant tree == FileTree(files[..i])
    {
      assert files[..i + 1][..i] == files[..i];
      tree := InsertPath(tree, Split(files[i].path, '/'), 0);
      i := i + 1;
    }
    assert files[..i] == files;
  }

  /** No folder holds two children with the same name. */
  predicate WellNamed(level: seq<Node>) {
    && (forall i, j :: 0 <= i < j < |level| ==> level[i].name != level[j].name)
    && (forall i :: 0 <= i < |level| ==> level[i].Folder? ==> WellNamed(level[i].children))
  }

  lemma {:induction false} InsertPathWellNamed(level: seq<Node>, parts: seq<string>, k: nat)
    requires k <= |parts| && WellNamed(level)
    ensures WellNamed(InsertPath(level, parts, k))
    decreases |parts| - k
  {
    var r := InsertPath(level, parts, k);
    if k < |parts| {
      var i := ChildIndex(level, parts[k]);
      if i < |level| {
        if level[i].Folder? {
          InsertPathWellNamed(level[i].children, parts, k + 1);
        }
      } else if k < |parts| - 1 {
        InsertPathWellNamed([], parts, k + 1);
      }
    }
  }

  /** Sibling names are distinct throughout the tree: an existing child is always reused. */
  lemma {:induction false} FileTreeWellNamed(files: seq<GeneratedFile>)
    ensures WellNamed(FileTree(files))
  {
    if files != [] {
      FileTreeWellNamed(files[..|files| - 1]);
      InsertPathWellNamed(FileTree(files[..|files| - 1]), Split(files[|files| - 1].path, '/'), 0);
    }
  }

  /** Each node's path is the names from the root down to it joined with `/`. */
  predicate PathsFollowNames(level: seq<Node>, prefix: seq<string>) {
    forall i :: 0 <= i < |level| ==>
      && level[i].path == Join(prefix + [level[i].name], "/")
      && (level[i].Folder? ==> PathsFollowNames(level[i].children, prefix + [level[i].name]))
  }

  lemma {:induction false} InsertPathPaths(level: seq<Node>, parts: seq<string>, k: nat)
    requires k <= |parts| && PathsFollowNames(level, parts[..k])
    ensures PathsFollowNames(InsertPath(level, parts, k), parts[..k])
    decreases |parts| - k
  {
    if k < |parts| {
      assert parts[..k + 1] == parts[..k] + [parts[k]];
      var i := ChildIndex(level, parts[k]);
      if i < |level| {
        if level[i].Folder? {
          InsertPathPaths(level[i].children, parts, k + 1);
        }
      } else if k < |parts| - 1 {
        InsertPathPaths([], parts, k + 1);
      }
    }
  }

  /** Every node's `path` is its ancestors' names and its own joined with `/`. */
  lemma {:induction false} FileTreePaths(files: seq<GeneratedFile>)
    ensures PathsFollowNames(FileTree(files), [])
  {
    if files != [] {
      FileTreePaths(files[..|files| - 1]);
      var parts := Split(files[|files| - 1].path, '/');
      assert parts[..0] == [];
      InsertPathPaths(FileTree(files[..|files| - 1]), parts, 0);
    }
  }

  /** The paths of the file (leaf) nodes of a tree. */
  function FilePaths(level: seq<Node>): set<string> {
    if level == [] then {}
    else
      (match level[0]
       case File(_, p) => {p}
       case Folder(_, _, ch) => FilePaths(ch))
      + FilePaths(level[1..])
  }

  lemma {:induction false} FilePathsUpdate(level: seq<Node>, i: nat, n: Node)
    requires i < |level|
    ensures FilePaths(level[i := n]) == FilePaths(level[..i]) + FilePaths([n]) + FilePaths(level[i + 1..])
    ensures FilePaths(level) == FilePaths(level[..i]) + FilePaths([level[i]]) + FilePaths(level[i + 1..])
  {
    FilePathsAppend(level[..i], [n] + level[i + 1..]);
    FilePathsAppend([n], level[i + 1..]);
    assert level[i := n] == level[..i] + ([n] + level[i + 1..]);
    FilePathsAppend(level[..i], [level[i]] + level[i + 1..]);
    FilePathsAppend([level[i]], level[i + 1..]);
    assert level == level[..i] + ([level[i]] + level[i + 1..]);
  }

  lemma {:induction false} FilePathsAppend(a: seq<Node>, b: seq<Node>)
    ensures FilePaths(a + b) == FilePaths(a) + FilePaths(b)
  {
    if a == [] {
      assert a + b == b;
    } else {
      assert (a + b)[0] == a[0];
      assert (a + b)[1..] == a[1..] + b;
      FilePathsAppend(a[1..], b);
    }
  }

  lemma {:induction false} InsertPathFilePaths(level: seq<Node>, parts: seq<string>, k: nat)
    requires k <= |parts|
    ensures FilePaths(InsertPath(level, parts, k)) <= FilePaths(level) + {Join(parts, "/")}
    decreases |parts| - k
  {
    if k < |parts| {
      var i := ChildIndex(level, parts[k]);
      if i < |level| {
        if level[i].Folder? {
          var n := level[i];
          InsertPathFilePaths(n.children, parts, k + 1);
          var n' := Folder(n.name, n.path, InsertPath(n.children, parts, k + 1));
          FilePathsUpdate(level, i, n');
          assert FilePaths([n']) == FilePaths(n'.children) by { assert [n'][1..] == []; }
          assert FilePaths([n]) == FilePaths(n.children) by { assert [n][1..] == []; }
        }
      } else {
        var n := if k == |parts| - 1 then File(parts[k], Join(parts[..k + 1], "/"))
                 else Folder(parts[k], Join(parts[..k + 1], "/"), InsertPath([], parts, k + 1));
        FilePathsAppend(level, [n]);
        assert [n][1..] == [];
        if k == |parts| - 1 {
          assert parts[..k + 1] == parts;
        } else {
          InsertPathFilePaths([], parts, k + 1);
        }
      }
    }
  }

  /** Only whole paths become file nodes: every file node's path is the path of an input file. */
  lemma {:induction false} FileTreeFilePaths(files: seq<GeneratedFile>)
    ensures forall p :: p in FilePaths(FileTree(files)) ==> exists f :: f in files && f.path == p
  {
    if files != [] {
      var init, last := files[..|files| - 1], files[|files| - 1];
      FileTreeFilePaths(init);
      InsertPathFilePaths(FileTree(init), Split(last.path, '/'), 0);
      JoinSplit(last.path, '/');
      forall p | p in FilePaths(FileTree(files)) ensures exists f :: f in files && f.path == p {
        if p != last.path {
          var f :| f in init && f.path == p;
          assert f in files;
        }
      }
    }
  }

  /** A path that runs into an existing file node is dropped: the tree is left as it was. */
  lemma InsertThroughFile(level: seq<Node>, parts: seq<string>, k: nat)
    requires k < |parts| && ChildIndex(level, parts[k]) < |level| && level[ChildIndex(level, parts[k])].File?
    ensures InsertPath(level, parts, k) == level
  {
  }

  // ----- display order of a folder's children -----

  function KindName(n: Node): string {
    if n.File? then "file" else "folder"
  }

  /** `a.type.localeCompare(b.type) || a.name.localeCompare(b.name)` is not positive. */
  predicate ShownNoLater(a: Node, b: Node) {
    if KindName(a) != KindName(b) then LexLe(KindName(a), KindName(b)) else LexLe(a.name, b.name)
  }

  lemma ShownNoLaterPreorder()
    ensures Sorting.Preorder(ShownNoLater)
  {
    forall a: Node, b: Node ensures ShownNoLater(a, b) || ShownNoLater(b, a) {
      LexLeTotal(KindName(a), KindName(b));
      LexLeTotal(a.name, b.name);
    }
    forall a: Node, b: Node, c: Node | ShownNoLater(a, b) && ShownNoLater(b, c)
      ensures ShownNoLater(a, c)
    {
      assert LexLe("file", "folder");
      assert !LexLe("folder", "file");
      if KindName(a) == KindName(b) == KindName(c) {
        LexLeTransitive(a.name, b.name, c.name);
      }
    }
  }

  /** The order in which a folder's children are listed. */
  function ShownChildren(children: seq<Node>): seq<Node> {
    Sorting.Sort(children, ShownNoLater)
  }

  /** Children are shown files first, then folders, each group by name; no child is lost or added. */
  lemma ShownChildrenOrdered(children: seq<Node>)
    ensures var r := ShownChildren(children);
      && multiset(r) == multiset(children)
      && (forall i, j :: 0 <= i < j < |r| && r[j].File? ==> r[i].File?)
      && (forall i, j :: 0 <= i < j < |r| && r[i].File? == r[j].File? ==> LexLe(r[i].name, r[j].name))
  {
    ShownNoLaterPreorder();
    Sorting.SortSorted(children, ShownNoLater);
    var r := ShownChildren(children);
    assert !LexLe("folder", "file");
  }

  // ----- sending a prompt -----

  datatype MessageKind = UserMessage | AssistantMessage | ErrorMessage

  datatype Message = Message(id: string, kind: MessageKind, content: string)

  /** What the request to the backend gave: a response with its status and `generatedCode`
      (empty when absent), or a thrown error with the server's `error` field and the error's
      message (each empty when absent). */
  datatype Reply = Response(status: int, generatedCode: string) | Failure(serverError: string, message: string)

  /** `err.response?.data?.error || err.message || "An unknown error occurred."` */
  function ErrorText(serverError: string, message: string): (t: string)
    ensures t != []
    ensures serverError != [] ==> t == serverError
    ensures serverError == [] && message != [] ==> t == message
  {
    if serverError != [] then serverError else if message != [] then message else "An unknown error occurred."
  }

  /** The message of the error caught when the request gives no generated code. */
  function ReplyError(reply: Reply): string {
    if reply.Response? then "Invalid response from server" else ErrorText(reply.serverError, reply.message)
  }

  /** The paths of the top-level folders: the folders expanded after a successful parse. */
  function RootFolderPaths(tree: seq<Node>): (r: set<string>)
    ensures forall p :: p in r <==> exists i :: 0 <= i < |tree| && tree[i].Folder? && tree[i].path == p
  {
    set i | 0 <= i < |tree| && tree[i].Folder? :: tree[i].path
  }

  const MinPromptLength := 10

  /** A prompt is sent only when it has at least ten UTF-16 code units once trimmed. */
  predicate LongEnough(content: string) {
    Utf16Length(Trim(JavaScript, content)) >= MinPromptLength
  }

  /** The page's state that sending a prompt reads and changes. */
  datatype View = View(
    messages: seq<Message>,
    input: string,
    isGenerating: bool,
    generatedFiles: seq<GeneratedFile>,
    fileTree: seq<Node>,
    selectedFile: Option<GeneratedFile>,
    expandedFolders: set<string>)

  function RawFile(code: string): GeneratedFile {
    GeneratedFile("raw_output.md", code)
  }

  /** The state after the request came back with code `code` (status 200) from which `files`
      were read. */
  function ShowCode(v: View, code: string, files: seq<GeneratedFile>, repliedAt: nat): View {
    if files == [] then
      v.(generatedFiles := [RawFile(code)],
         fileTree := [File("raw_output.md", "raw_output.md")],
         selectedFile := Some(RawFile(code)),
         messages := v.messages + [Message(NatToString(repliedAt), AssistantMessage, "Generated a response, but couldn't parse it.")])
    else
      var tree := FileTree(files);
      v.(generatedFiles := files,
         fileTree := tree,
         selectedFile := Some(files[0]),
         expandedFolders := RootFolderPaths(tree),
         messages := v.messages + [Message(NatToString(repliedAt), AssistantMessage, "I've built the project for you.")])
  }

  /** The files the page reads from a reply's generated code. */
  function ParsedReply(reply: Reply): seq<GeneratedFile> {
    if reply.Response? then ParsedFrom(reply.generatedCode, 0) else []
  }

  /** `handleSend(prompt)` from state `v`, where `parsed` are the files read from the reply's code:
      the reference the page's method is proved against, with `parsed == ParsedReply(reply)`. */
  function Sent(v: View, prompt: string, reply: Reply, parsed: seq<GeneratedFile>, sentAt: nat, repliedAt: nat): View {
    var content := if prompt != [] then prompt else v.input;
    if !LongEnough(content) then v
    else
      var cleared := v.(messages := v.messages + [Message(NatToString(sentAt), UserMessage, content)],
                        input := [], generatedFiles := [], fileTree := [], selectedFile := None);
      var done :=
        if reply.Response? && reply.status == 200 && reply.generatedCode != [] then ShowCode(cleared, reply.generatedCode, parsed, repliedAt)
        else cleared.(messages := cleared.messages + [Message(NatToString(repliedAt), ErrorMessage, "Error: " + ReplyError(reply))]);
      done.(isGenerating := false)
  }

  /** The paths of a list of files. */
  function PathsOf(files: seq<GeneratedFile>): set<string> {
    set i | 0 <= i < |files| :: files[i].path
  }

  /** What the page keeps consistent: the selected file is one of the generated files, and the
      tree has distinct sibling names, paths that follow the names, and a file node only for a
      generated file's path. */
  predicate Consistent(v: View) {
    && (v.selectedFile.Some? ==> v.selectedFile.value in v.generatedFiles)
    && WellNamed(v.fileTree)
    && PathsFollowNames(v.fileTree, [])
    && FilePaths(v.fileTree) <= PathsOf(v.generatedFiles)
  }

  /** A prompt that is too short once trimmed changes nothing. */
  lemma ShortPromptIgnored(v: View, prompt: string, reply: Reply, parsed: seq<GeneratedFile>, sentAt: nat, repliedAt: nat)
    requires !LongEnough(if prompt != [] then prompt else v.input)
    ensures Sent(v, prompt, reply, parsed, sentAt, repliedAt) == v
  {
  }

  /** A prompt that is sent adds exactly two messages, the prompt first, then the answer or the
      error; the input is cleared and generation is over. */
  lemma SentMessages(v: View, prompt: string, reply: Reply, parsed: seq<GeneratedFile>, sentAt: nat, repliedAt: nat)
    requires LongEnough(if prompt != [] then prompt else v.input)
    ensures var w := Sent(v, prompt, reply, parsed, sentAt, repliedAt);
      && |w.messages| == |v.messages| + 2
      && w.messages[..|v.messages|] == v.messages
      && w.messages[|v.messages|] == Message(NatToString(sentAt), UserMessage, if prompt != [] then prompt else v.input)
      && w.messages[|v.messages| + 1].id == NatToString(repliedAt)
      && w.input == [] && !w.isGenerating
  {
    var content := if prompt != [] then prompt else v.input;
    var m := v.messages + [Message(NatToString(sentAt), UserMessage, content)];
    var cleared := v.(messages := m, input := [], generatedFiles := [], fileTree := [], selectedFile := None);
    var w := Sent(v, prompt, reply, parsed, sentAt, repliedAt);
    var last: Message;
    if reply.Response? && reply.status == 200 && reply.generatedCode != [] {
      ShowCodeMessages(cleared, reply.generatedCode, parsed, repliedAt);
      var d := ShowCode(cleared, reply.generatedCode, parsed, repliedAt);
      assert w == d.(isGenerating := false);
      last := d.messages[|m|];
    } else {
      last := Message(NatToString(repliedAt), ErrorMessage, "Error: " + ReplyError(reply));
    }
    assert w.messages == v.messages + [m[|v.messages|]] + [last];
    TwoAppended(v.messages, m[|v.messages|], last);
  }

  /** Two elements appended after `a`: `a` is the prefix, then the two in order. */
  lemma TwoAppended<T>(a: seq<T>, x: T, y: T)
    ensures var s := a + [x] + [y]; |s| == |a| + 2 && s[..|a|] == a && s[|a|] == x && s[|a| + 1] == y
  {
  }

  /** Showing the code adds one message, with the reply's time as its id, and keeps the input. */
  lemma ShowCodeMessages(c: View, code: string, files: seq<GeneratedFile>, repliedAt: nat)
    ensures var d := ShowCode(c, code, files, repliedAt);
      && d.messages == c.messages + [d.messages[|c.messages|]]
      && d.messages[|c.messages|].id == NatToString(repliedAt) && d.input == c.input
  {
  }

  /** Generated code always leaves at least one file, the first one selected, and an answer
      from the assistant last. */
  lemma SentShowsCode(v: View, prompt: string, code: string, parsed: seq<GeneratedFile>, sentAt: nat, repliedAt: nat)
    requires LongEnough(if prompt != [] then prompt else v.input) && code != []
    ensures var w := Sent(v, prompt, Response(200, code), parsed, sentAt, repliedAt);
      && w.generatedFiles != []
      && w.selectedFile == Some(w.generatedFiles[0])
      && w.messages[|w.messages| - 1].kind == AssistantMessage
  {
    var content := if prompt != [] then prompt else v.input;
    var cleared := v.(messages := v.messages + [Message(NatToString(sentAt), UserMessage, content)],
                      input := [], generatedFiles := [], fileTree := [], selectedFile := None);
    var d := ShowCode(cleared, code, parsed, repliedAt);
    assert Sent(v, prompt, Response(200, code), parsed, sentAt, repliedAt) == d.(isGenerating := false);
    ShowCodeShape(cleared, code, parsed, repliedAt);
  }

  lemma ShowCodeShape(c: View, code: string, files: seq<GeneratedFile>, repliedAt: nat)
    ensures var d := ShowCode(c, code, files, repliedAt);
      && d.generatedFiles != []
      && d.selectedFile == Some(d.generatedFiles[0])
      && d.messages[|d.messages| - 1].kind == AssistantMessage
  {
  }

  /** A failed request, an error status or an empty answer leaves no files and reports
      `Error: ` and the reason; the expanded folders stay as they were. */
  lemma SentShowsError(v: View, prompt: string, reply: Reply, parsed: seq<GeneratedFile>, sentAt: nat, repliedAt: nat)
    requires LongEnough(if prompt != [] then prompt else v.input)
    requires !(reply.Response? && reply.status == 200 && reply.generatedCode != [])
    ensures var w := Sent(v, prompt, reply, parsed, sentAt, repliedAt);
      && w.generatedFiles == [] && w.fileTree == [] && w.selectedFile == None
      && w.expandedFolders == v.expandedFolders
      && w.messages[|w.messages| - 1] == Message(NatToString(repliedAt), ErrorMessage, "Error: " + ReplyError(reply))
  {
    var content := if prompt != [] then prompt else v.input;
    var cleared := v.(messages := v.messages + [Message(NatToString(sentAt), UserMessage, content)],
                      input := [], generatedFiles := [], fileTree := [], selectedFile := None);
    var m := Message(NatToString(repliedAt), ErrorMessage, "Error: " + ReplyError(reply));
    assert Sent(v, prompt, reply, parsed, sentAt, repliedAt) == cleared.(messages := cleared.messages + [m], isGenerating := false);
  }

  /** Parsed files replace the raw reply only when there is at least one; then the top-level
      folders of their tree are expanded. */
  lemma SentParsed(v: View, prompt: string, code: string, parsed: seq<GeneratedFile>, sentAt: nat, repliedAt: nat)
    requires LongEnough(if prompt != [] then prompt else v.input) && code != []
    ensures var w := Sent(v, prompt, Response(200, code), parsed, sentAt, repliedAt);
      if parsed == [] then
        && w.generatedFiles == [GeneratedFile("raw_output.md", code)]
        && w.expandedFolders == v.expandedFolders
      else
        && w.generatedFiles == parsed
        && w.fileTree == FileTree(w.generatedFiles)
        && w.expandedFolders == RootFolderPaths(w.fileTree)
  {
  }

  lemma FileTreeConsistent(files: seq<GeneratedFile>)
    ensures WellNamed(FileTree(files)) && PathsFollowNames(FileTree(files), [])
    ensures FilePaths(FileTree(files)) <= PathsOf(files)
  {
    FileTreeWellNamed(files);
    FileTreePaths(files);
    FileTreeFilePaths(files);
    forall p | p in FilePaths(FileTree(files)) ensures p in PathsOf(files) {
      var f :| f in files && f.path == p;
      var i :| 0 <= i < |files| && files[i] == f;
    }
  }

  /** The single raw file shown when no file could be read is a consistent page. */
  lemma RawShownConsistent(w: View, code: string)
    requires w.generatedFiles == [RawFile(code)] && w.selectedFile == Some(RawFile(code))
    requires w.fileTree == [File("raw_output.md", "raw_output.md")]
    ensures Consistent(w)
  {
    var n := File("raw_output.md", "raw_output.md");
    assert FilePaths([n]) == {"raw_output.md"} by { assert [n][1..] == []; }
    assert [RawFile(code)][0].path == "raw_output.md";
    assert PathsFollowNames([n], []) by { assert [] + ["raw_output.md"] == ["raw_output.md"]; }
  }

  /** Parsed files shown with their tree and the first one selected are a consistent page. */
  lemma ParsedShownConsistent(w: View)
    requires w.generatedFiles != [] && w.selectedFile == Some(w.generatedFiles[0])
    requires w.fileTree == FileTree(w.generatedFiles)
    ensures Consistent(w)
  {
    FileTreeConsistent(w.generatedFiles);
  }

  /** Sending a prompt keeps the page consistent, whatever the reply. */
  lemma SentConsistent(v: View, prompt: string, reply: Reply, parsed: seq<GeneratedFile>, sentAt: nat, repliedAt: nat)
    requires Consistent(v)
    ensures Consistent(Sent(v, prompt, reply, parsed, sentAt, repliedAt))
  {
    var content := if prompt != [] then prompt else v.input;
    var w := Sent(v, prompt, reply, parsed, sentAt, repliedAt);
    if !LongEnough(content) {
      assert w == v;
    } else if reply.Response? && reply.status == 200 && reply.generatedCode != [] {
      if parsed == [] {
        RawShownConsistent(w, reply.generatedCode);
      } else {
        ParsedShownConsistent(w);
      }
    } else {
      assert w.generatedFiles == [] && w.fileTree == [] && w.selectedFile == None;
      assert FilePaths([]) == {};
    }
  }

  /** `toggleFolder`: an expanded folder is collapsed, a collapsed one expanded. */
  function Toggled(expanded: set<string>, path: string): (r: set<string>)
    ensures path in r <==> path !in expanded
    ensures forall q :: q != path ==> (q in r <==> q in expanded)
  {
    if path in expanded then expanded - {path} else expanded + {path}
  }

  /** Toggling a folder twice leaves the expanded set as it was. */
  lemma ToggledTwice(expanded: set<string>, path: string)
    ensures Toggled(Toggled(expanded, path), path) == expanded
  {
  }

  /** The generate page's state and the handlers that change it. */
  class Page {
    var messages: seq<Message>
    var input: string
    var isGenerating: bool
    var generatedFiles: seq<GeneratedFile>
    var fileTree: seq<Node>
    var selectedFile: Option<GeneratedFile>
    var expandedFolders: set<string>

    function State(): View
      reads this
    {
      View(messages, input, isGenerating, generatedFiles, fileTree, selectedFile, expandedFolders)
    }

    constructor ()
      ensures State() == View([], [], false, [], [], None, {})
      ensures Consistent(State())
    {
      messages := [];
      input := [];
      isGenerating := false;
      generatedFiles := [];
      fileTree := [];
      selectedFile := None;
      expandedFolders := {};
    }

    /** The part of `handleSend` after a 200 response with code. */
    method ShowGenerated(code: string, repliedAt: nat)
      modifies this
      ensures State() == ShowCode(old(State()), code, ParsedFrom(code, 0), repliedAt)
    {
      var files := ParseAIResponse(code);
      if |files| == 0 {
        var rawFile := GeneratedFile("raw_output.md", code);
        generatedFiles := [rawFile];
        fileTree := [File("raw_output.md", "raw_output.md")];
        selectedFile := Some(rawFile);
        messages := messages + [Message(NatToString(repliedAt), AssistantMessage, "Generated a response, but couldn't parse it.")];
      } else {
        generatedFiles := files;
        var tree := BuildFileTree(files);
        fileTree := tree;
        selectedFile := Some(files[0]);
        expandedFolders := RootFolderPaths(tree);
        messages := messages + [Message(NatToString(repliedAt), AssistantMessage, "I've built the project for you.")];
      }
    }

    /** `handleSend`: `prompt` is the quick-action text ("" when absent), `reply` what the
        request gave, `sentAt` and `repliedAt` the clock readings that name the two messages. */
    method HandleSend(prompt: string, reply: Reply, sentAt: nat, repliedAt: nat)
      modifies this
      ensures State() == Sent(old(State()), prompt, reply, ParsedReply(reply), sentAt, repliedAt)
    {
      var messageContent := if prompt != [] then prompt else input;
      if Utf16Length(Trim(JavaScript, messageContent)) < MinPromptLength {
        return;
      }
      messages := messages + [Message(NatToString(sentAt), UserMessage, messageContent)];
      input := [];
      isGenerating := true;
      generatedFiles := [];
      fileTree := [];
      selectedFile := None;
      if reply.Response? && reply.status == 200 && reply.generatedCode != [] {
        ShowGenerated(reply.generatedCode, repliedAt);
      } else {
        var errorMessage := ReplyError(reply);
        messages := messages + [Message(NatToString(repliedAt), ErrorMessage, "Error: " + errorMessage)];
      }
      isGenerating := false;
    }

    /** `handleQuickAction`: sends "Create a " followed by the action. */
    method HandleQuickAction(action: string, reply: Reply, sentAt: nat, repliedAt: nat)
      modifies this
      ensures State() == Sent(old(State()), "Create a " + action, reply, ParsedReply(reply), sentAt, repliedAt)
    {
      HandleSend("Create a " + action, reply, sentAt, repliedAt);
    }

    /** `toggleFolder`. */
    method ToggleFolder(path: string)
      modifies this
      ensures State() == old(State()).(expandedFolders := Toggled(old(expandedFolders), path))
    {
      if path in expandedFolders {
        expandedFolders := expandedFolders - {path};
      } else {
        expandedFolders := expandedFolders + {path};
      }
    }
  }
}
