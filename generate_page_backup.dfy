/**
 * The earlier generate page (frontend/src/app/generate/page_backup.tsx): its reading of a
 * model reply (a fenced block with an optional language, an optional `//` comment and an
 * optional path line), the clean-up of the path, the file tree built through a map of
 * folders, the language shown for a file, the files handed to the in-browser bundler, and
 * the editor's update of one file.
 */
module GeneratePageBackup {

  import opened Wrappers
  import opened Text
  import GeneratePage
  import Dedup

  type GeneratedFile = GeneratePage.GeneratedFile

  // ----- the block pattern  ```(\w+)?\s*(?:\/\/\s*)?(.+?)?\n([\s\S]*?)```  -----
  //
  // Every quantifier before the newline can give back characters, so the scanner tries
  // them in the engine's order: the language word longest first and then not at all, the
  // whitespace run longest first, the `//` comment first taken (its whitespace longest
  // first) and then skipped. Once the start of the path text is fixed, the rest has one
  // outcome: `(.+?)?\n` must end at the first line terminator, which has to be a `\n`
  // (the path text is empty exactly when that terminator comes at once), and the body
  // ends at the first fence after it.

  /** One match: its bounds, the path text (group 2, empty when it did not take part) and the
      body (group 3). */
  datatype BlockMatch = BlockMatch(start: nat, end: nat, pathText: string, body: string)

  /** From the start `f` of the path text: the end of the path text and the closing fence. */
  function PathLineAt(s: string, f: nat): (r: Option<(nat, nat)>)
    requires f <= |s|
    ensures r.Some? ==> f <= r.value.0 < r.value.1 && r.value.1 + 3 <= |s|
  {
    var l := RunEnd(s, f, IsLineChar);
    if l == |s| || s[l] != '\n' then None
    else
      match FindFrom(s, l + 1, "```")
      case None => None
      case Some(t) => Some((l, t))
  }

  /** `\s*` after `//` at `e`, tried with its run ending at `f`, then shorter. */
  function AfterSlashes(s: string, e: nat, f: nat): (r: Option<(nat, nat, nat)>)
    requires e + 2 <= f <= |s|
    ensures r.Some? ==> e + 2 <= r.value.0 <= r.value.1 < r.value.2 && r.value.2 + 3 <= |s|
    decreases f
  {
    match PathLineAt(s, f)
    case Some(lt) => Some((f, lt.0, lt.1))
    case None => if f == e + 2 then None else AfterSlashes(s, e, f - 1)
  }

  /** `(?:\/\/\s*)?` at `e`: with the comment when it is there, then without it. */
  function CommentAt(s: string, e: nat): (r: Option<(nat, nat, nat)>)
    requires e <= |s|
    ensures r.Some? ==> e <= r.value.0 <= r.value.1 < r.value.2 && r.value.2 + 3 <= |s|
  {
    var withComment := if HasAt(s, e, "//") then AfterSlashes(s, e, RunEnd(s, e + 2, IsJsSpace)) else None;
    if withComment.Some? then withComment
    else
      match PathLineAt(s, e)
      case Some(lt) => Some((e, lt.0, lt.1))
      case None => None
  }

  /** `\s*` from `w`, tried with its run ending at `e`, then shorter. */
  function SpaceFrom(s: string, w: nat, e: nat): (r: Option<(nat, nat, nat)>)
    requires w <= e <= |s|
    ensures r.Some? ==> w <= r.value.0 <= r.value.1 < r.value.2 && r.value.2 + 3 <= |s|
    decreases e
  {
    var c := CommentAt(s, e);
    if c.Some? then c else if e == w then None else SpaceFrom(s, w, e - 1)
  }

  /** `(\w+)?` from `a`: the word ending at `w`, then shorter ones, then no word at all. */
  function LanguageFrom(s: string, a: nat, w: nat): (r: Option<(nat, nat, nat)>)
    requires a <= w <= |s|
    ensures r.Some? ==> a <= r.value.0 <= r.value.1 < r.value.2 && r.value.2 + 3 <= |s|
    decreases w
  {
    var g := SpaceFrom(s, w, RunEnd(s, w, IsJsSpace));
    if w == a || g.Some? then g else LanguageFrom(s, a, if w == a + 1 then a else w - 1)
  }

  /** The pattern tried at start position `st`. */
  function MatchAt(s: string, st: nat): (r: Option<BlockMatch>)
    requires st <= |s|
    ensures r.Some? ==> r.value.start == st && st + 3 < r.value.end <= |s|
  {
    if !HasAt(s, st, "```") then None
    else
      match LanguageFrom(s, st + 3, RunEnd(s, st + 3, IsWordChar))
      case None => None
      case Some(g) => Some(BlockMatch(st, g.2 + 3, s[g.0..g.1], s[g.1 + 1..g.2]))
  }

  /** `regex.exec(response)` with `lastIndex == from`. */
  function Exec(s: string, from: nat): (r: Option<BlockMatch>)
    requires from <= |s|
    ensures r.Some? ==> from <= r.value.start < r.value.end <= |s|
    decreases |s| - from
  {
    var m := MatchAt(s, from);
    if m.Some? then m else if from == |s| then None else Exec(s, from + 1)
  }

  /** A match's path text stops before the first line terminator after its start. */
  lemma PathLineShape(s: string, f: nat)
    requires f <= |s| && PathLineAt(s, f).Some?
    ensures var lt := PathLineAt(s, f).value;
      && (forall u :: f <= u < lt.0 ==> IsLineChar(s[u]))
      && s[lt.0] == '\n' && HasAt(s, lt.1, "```")
      && (forall u :: lt.0 + 1 <= u < lt.1 ==> !HasAt(s, u, "```"))
  {
    var l := RunEnd(s, f, IsLineChar);
    RunEndSpec(s, f, IsLineChar);
    FindFromFirst(s, l + 1, "```");
  }

  /** `exec` finds the leftmost start position from which the pattern matches. */
  lemma {:induction false} ExecIsLeftmost(s: string, from: nat)
    requires from <= |s|
    ensures Leftmost(s, from, Exec(s, from))
    decreases |s| - from
  {
    if MatchAt(s, from).None? && from < |s| {
      ExecIsLeftmost(s, from + 1);
      LeftmostStep(s, from, Exec(s, from + 1));
    }
  }

  /** `r` is the match at the leftmost start position from `from` on where the pattern
      matches, or `None` when it matches nowhere from there. */
  predicate Leftmost(s: string, from: nat, r: Option<BlockMatch>)
    requires from <= |s|
  {
    && (r.Some? ==> r.value.start <= |s| && MatchAt(s, r.value.start) == r)
    && (forall st :: from <= st <= |s| && (r.None? || st < r.value.start) ==> MatchAt(s, st).None?)
  }

  /** Skipping a start position where the pattern does not match keeps the search leftmost. */
  lemma LeftmostStep(s: string, from: nat, r: Option<BlockMatch>)
    requires from < |s| && MatchAt(s, from).None? && Leftmost(s, from + 1, r)
    requires r.Some? ==> from + 1 <= r.value.start
    ensures Leftmost(s, from, r)
  {
  }

  // ----- what the pattern accepts -----

  /** The path line of a block, then the body and the closing fence. */
  function PathTail(line: string, body: string): string {
    line + "\n" + (body + "```")
  }

  /** A block with a language word (possibly empty) on the fence line and, on the next line,
      `// ` or nothing before the path line. */
  function BackupBlock(lang: string, comment: string, line: string, body: string): string {
    "```" + lang + "\n" + comment + PathTail(line, body)
  }

  predicate IsWord(lang: string) {
    forall u :: 0 <= u < |lang| ==> IsWordChar(lang[u])
  }

  /** A path line the pattern takes whole: not empty, starting with no whitespace, holding no
      line terminator, and not itself starting a `//` comment when there is none before it. */
  predicate IsPathLine(comment: string, line: string) {
    && (comment == "// " || comment == [])
    && line != [] && !IsJsSpace(line[0]) && (comment == [] ==> line[0] != '/')
    && (forall u :: 0 <= u < |line| ==> IsLineChar(line[u]))
  }

  /** The pattern matches such a block where it starts; its path text is the path line and
      its body the block's body. With no comment, this is the first line of the code. */
  lemma MatchAtBackupBlock(s: string, st: nat, lang: string, comment: string, line: string, body: string)
    requires IsWord(lang) && IsPathLine(comment, line) && ClosedBy(body, "```")
    requires HasAt(s, st, BackupBlock(lang, comment, line, body))
    ensures MatchAt(s, st) == Some(BlockMatch(st, st + |BackupBlock(lang, comment, line, body)|, line, body))
  {
    var a := st + 3;
    var w := a + |lang|;
    var e := w + 1;
    var f := e + |comment|;
    var l := f + |line|;
    var b := l + 1;
    var t := b + |body|;
    var n := t + 3;
    BackupBlockParts(s, st, a, w, e, f, lang, comment, line, body);
    PathLineFound(s, f, l, b, t, line, body);
    CommentFound(s, e, f, l, t, comment);
    MatchAtFound(s, st, a, w, e, f, l, b, t, n, line, body);
    MatchEndsBlock(s, st, lang, comment, line, body, n);
  }

  /** `exec` from the start of such a block returns the block's match. */
  lemma ExecBackupBlock(s: string, st: nat, lang: string, comment: string, line: string, body: string)
    requires IsWord(lang) && IsPathLine(comment, line) && ClosedBy(body, "```")
    requires HasAt(s, st, BackupBlock(lang, comment, line, body))
    ensures Exec(s, st) == Some(BlockMatch(st, st + |BackupBlock(lang, comment, line, body)|, line, body))
  {
    MatchAtBackupBlock(s, st, lang, comment, line, body);
    ExecAt(s, st);
  }

  /** A plain code block gives its first line of code as the path text and the rest as the
      body: "```tsx\ncode\n```" reads as path "code" with an empty body. */
  lemma FirstCodeLineIsPath()
    ensures MatchAt("```tsx\ncode\n```", 0) == Some(BlockMatch(0, 15, "code", ""))
  {
    assert "```tsx\ncode\n```" == BackupBlock("tsx", "", "code", "");
    MatchAtBackupBlock("```tsx\ncode\n```", 0, "tsx", "", "code", "");
  }

  /** `exec` from a position where the pattern matches returns that match. */
  lemma ExecAt(s: string, st: nat)
    requires st <= |s| && MatchAt(s, st).Some?
    ensures Exec(s, st) == MatchAt(s, st)
  {
  }

  /** The match found ends where the block ends. */
  lemma MatchEndsBlock(s: string, st: nat, lang: string, comment: string, line: string, body: string, n: nat)
    requires st <= |s| && MatchAt(s, st) == Some(BlockMatch(st, n, line, body))
    requires n == st + |BackupBlock(lang, comment, line, body)|
    ensures MatchAt(s, st) == Some(BlockMatch(st, st + |BackupBlock(lang, comment, line, body)|, line, body))
  {
  }

  /** The fence line of a block at `st`: the language word runs from `a` to the line end at
      `w`, the whitespace from there to the comment or path line at `e`, and the path line
      starts at `f`. */
  lemma BackupBlockParts(s: string, st: nat, a: nat, w: nat, e: nat, f: nat, lang: string, comment: string, line: string, body: string)
    requires IsWord(lang) && IsPathLine(comment, line)
    requires HasAt(s, st, BackupBlock(lang, comment, line, body))
    requires a == st + 3 && w == a + |lang| && e == w + 1 && f == e + |comment|
    ensures HasAt(s, st, "```") && w < e < |s| && RunsTo(s, a, IsWordChar, w) && RunsTo(s, w, IsJsSpace, e)
    ensures HasAt(s, e, comment) && HasAt(s, f, PathTail(line, body))
    ensures f < |s| && !IsJsSpace(s[f]) && (comment == [] ==> s[f] != '/')
  {
    HasAtSplit(s, st, f, "```" + lang + "\n" + comment, PathTail(line, body));
    HasAtSplit(s, st, e, "```" + lang + "\n", comment);
    HasAtSplit(s, st, w, "```" + lang, "\n");
    HasAtSplit(s, st, a, "```", lang);
    CharOf(s, w, "\n", 0);
    CharOf(s, f, PathTail(line, body), 0);
    RunsOver(s, a, w, lang, IsWordChar);
    if comment != [] {
      CharOf(s, e, comment, 0);
    }
    RunEndAt(s, w, e, IsJsSpace);
  }

  /** The path line found at `f` is read by `PathLineAt`: it ends at `l`, and the body runs
      from `b` to the fence at `t`. */
  lemma PathLineFound(s: string, f: nat, l: nat, b: nat, t: nat, line: string, body: string)
    requires (forall u :: 0 <= u < |line| ==> IsLineChar(line[u])) && ClosedBy(body, "```")
    requires HasAt(s, f, PathTail(line, body))
    requires l == f + |line| && b == l + 1 && t == b + |body|
    ensures PathLineAt(s, f) == Some((l, t)) && s[f..l] == line && s[b..t] == body
  {
    HasAtSplit(s, f, b, line + "\n", body + "```");
    HasAtSplit(s, f, l, line, "\n");
    CharOf(s, l, "\n", 0);
    RunsOver(s, f, l, line, IsLineChar);
    FindClosing(s, b, body, "```");
    HasAtSplit(s, b, t, body, "```");
    PathLineRuns(s, f, l, b, t);
  }

  lemma PathLineRuns(s: string, f: nat, l: nat, b: nat, t: nat)
    requires f <= l < |s| && RunsTo(s, f, IsLineChar, l) && s[l] == '\n' && b == l + 1 && FoundAt(s, b, "```", t)
    ensures PathLineAt(s, f) == Some((l, t))
  {
  }

  /** `(?:\/\/\s*)?` takes the `// ` when it is there, and is skipped when the path line
      comes at once. */
  lemma CommentFound(s: string, e: nat, f: nat, l: nat, t: nat, comment: string)
    requires (comment == "// " || comment == []) && HasAt(s, e, comment) && f == e + |comment|
    requires f < |s| && !IsJsSpace(s[f]) && (comment == [] ==> s[f] != '/')
    requires PathLineAt(s, f) == Some((l, t))
    ensures CommentAt(s, e) == Some((f, l, t))
  {
    if comment == [] {
      assert e + 2 > |s| || s[e..e + 2][0] == s[f];
    } else {
      var g := e + 2;
      HasAtSplit(s, e, g, "//", " ");
      CharOf(s, g, " ", 0);
      RunEndAt(s, g, f, IsJsSpace);
      assert AfterSlashes(s, e, f) == Some((f, l, t));
    }
  }

  lemma MatchAtFound(s: string, st: nat, a: nat, w: nat, e: nat, f: nat, l: nat, b: nat, t: nat, n: nat, line: string, body: string)
    requires a == st + 3 && HasAt(s, st, "```") && w <= e <= |s|
    requires RunsTo(s, a, IsWordChar, w) && RunsTo(s, w, IsJsSpace, e) && CommentAt(s, e) == Some((f, l, t))
    requires b == l + 1 && s[f..l] == line && s[b..t] == body && n == t + 3
    ensures MatchAt(s, st) == Some(BlockMatch(st, n, line, body))
  {
    SpaceFound(s, w, e, (f, l, t));
    LanguageFound(s, a, w, (f, l, t));
    MatchAtLanguage(s, st, a, w, f, l, b, t, n, line, body);
  }

  /** `\s*` tried with its longest run first takes that run when the rest matches there. */
  lemma SpaceFound(s: string, w: nat, e: nat, g: (nat, nat, nat))
    requires w <= e <= |s| && RunsTo(s, w, IsJsSpace, e) && CommentAt(s, e) == Some(g)
    ensures SpaceFrom(s, w, RunEnd(s, w, IsJsSpace)) == Some(g)
  {
  }

  /** `(\w+)?` tried with its longest word first takes that word when the rest matches. */
  lemma LanguageFound(s: string, a: nat, w: nat, g: (nat, nat, nat))
    requires a <= w <= |s| && SpaceFrom(s, w, RunEnd(s, w, IsJsSpace)) == Some(g)
    ensures LanguageFrom(s, a, w) == Some(g)
  {
  }

  lemma MatchAtLanguage(s: string, st: nat, a: nat, w: nat, f: nat, l: nat, b: nat, t: nat, n: nat, line: string, body: string)
    requires a == st + 3 && HasAt(s, st, "```") && w <= |s|
    requires RunsTo(s, a, IsWordChar, w) && LanguageFrom(s, a, w) == Some((f, l, t))
    requires b == l + 1 && s[f..l] == line && s[b..t] == body && n == t + 3
    ensures MatchAt(s, st) == Some(BlockMatch(st, n, line, body))
  {
  }

  // ----- cleaning the path -----

  /** The text at the head of `x` reads `token`, ignoring the case of ASCII letters. */
  predicate StartsWithIgnoringCase(x: string, token: string) {
    |token| <= |x| && Lower(x[..|token|]) == token
  }

  /** A token of `^(File:|Path:|\s)+` begins `x`. */
  predicate StartsWithToken(x: string) {
    StartsWithIgnoringCase(x, "file:") || StartsWithIgnoringCase(x, "path:") || (x != [] && IsJsSpace(x[0]))
  }

  /** `x.replace(/^(File:|Path:|\s)+/i, '')`: the run of leading tokens removed. */
  function StripLeadingTokens(x: string): (r: string)
    ensures |r| <= |x| && r == x[|x| - |r|..]
    ensures !StartsWithToken(r)
    decreases |x|
  {
    if StartsWithIgnoringCase(x, "file:") || StartsWithIgnoringCase(x, "path:") then StripLeadingTokens(x[5..])
    else if x != [] && IsJsSpace(x[0]) then StripLeadingTokens(x[1..])
    else x
  }

  /** The file path given to a block: its path text or `App.tsx`, with the leading tokens
      removed, trimmed, and `.tsx` added when it holds no dot. */
  function CleanPath(pathText: string): (r: string)
    ensures '.' in r
  {
    var p := if pathText == [] then "App.tsx" else pathText;
    WithExtension(Trim(JavaScript, StripLeadingTokens(p)))
  }

  /** The cleaned text as it is when it holds a dot, else with `.tsx` added. */
  function WithExtension(q: string): (r: string)
    ensures '.' in r
  {
    if '.' in q then q else q + ".tsx"
  }

  /** Trimming a string that starts with no whitespace only shortens it at the end. */
  lemma TrimKeepsStart(x: string)
    requires x == [] || !IsJsSpace(x[0])
    ensures var q := Trim(JavaScript, x); q == x[..|q|]
  {
    assert TrimStart(JavaScript, x) == x;
    TrimEndPrefix(JavaScript, x);
  }

  /** A prefix of a string that starts with no token, with `.tsx` added when it holds no dot,
      starts with no token. */
  lemma NoTokenAfterCut(x: string, q: string, tail: string)
    requires !StartsWithToken(x) && |q| <= |x| && q == x[..|q|] && (q == [] || !IsJsSpace(q[0]))
    requires tail == (if '.' in q then [] else ".tsx")
    ensures !StartsWithToken(q + tail)
  {
    var y := q + tail;
    if |q| >= 5 {
      assert y[..5] == x[..5];
    } else if tail != [] {
      assert |y| < 5 || Lower(y[..5])[|q|] == '.';
    }
  }

  /** A path with a dot, starting with no token and ending with no whitespace, is clean. */
  lemma CleanPathFixed(r: string)
    requires '.' in r && !StartsWithToken(r) && !IsJsSpace(r[|r| - 1])
    ensures CleanPath(r) == r
  {
    assert StripLeadingTokens(r) == r;
    assert TrimStart(JavaScript, r) == r;
    assert TrimEnd(JavaScript, r) == r;
  }

  /** A trimmed string neither starts nor ends with whitespace. */
  lemma TrimmedEnds(x: string)
    ensures var q := Trim(JavaScript, x); q == [] || (!IsJsSpace(q[0]) && !IsJsSpace(q[|q| - 1]))
  {
    TrimEnds(JavaScript, x);
  }

  /** A cleaned path holds a dot, starts with no token and ends with no whitespace. */
  lemma CleanedShape(pathText: string)
    ensures var r := CleanPath(pathText); '.' in r && !StartsWithToken(r) && !IsJsSpace(r[|r| - 1])
  {
    var p := if pathText == [] then "App.tsx" else pathText;
    var x := StripLeadingTokens(p);
    assert CleanPath(pathText) == WithExtension(Trim(JavaScript, x));
    ShapeAfterStrip(x);
  }

  /** Trimming the stripped text and adding the extension keeps the shape of a cleaned path. */
  lemma ShapeAfterStrip(x: string)
    requires !StartsWithToken(x)
    ensures var r := WithExtension(Trim(JavaScript, x));
      !StartsWithToken(r) && !IsJsSpace(r[|r| - 1])
  {
    var q := Trim(JavaScript, x);
    var tail: string := if '.' in q then [] else ".tsx";
    assert WithExtension(q) == q + tail;
    TrimKeepsStart(x);
    TrimmedEnds(x);
    NoTokenAfterCut(x, q, tail);
    ExtensionEnd(q, tail);
  }

  lemma ExtensionEnd(q: string, tail: string)
    requires q == [] || !IsJsSpace(q[|q| - 1])
    requires tail == (if '.' in q then [] else ".tsx")
    ensures q + tail != [] && !IsJsSpace((q + tail)[|q + tail| - 1])
  {
    if tail != [] {
      assert (q + tail)[|q| + 3] == 'x';
    }
  }

  /** Cleaning a cleaned path changes nothing. */
  lemma CleanPathIdempotent(pathText: string)
    ensures CleanPath(CleanPath(pathText)) == CleanPath(pathText)
  {
    CleanedShape(pathText);
    CleanPathFixed(CleanPath(pathText));
  }

  // ----- parseAIResponse -----

  function FileOf(m: BlockMatch): GeneratedFile {
    GeneratePage.GeneratedFile(CleanPath(m.pathText), Trim(JavaScript, m.body))
  }

  /** The files read from `s` by the `exec` loop started at `from`. */
  function ParsedFrom(s: string, from: nat): seq<GeneratedFile>
    requires from <= |s|
    decreases |s| - from
  {
    match Exec(s, from)
    case None => []
    case Some(m) => [FileOf(m)] + ParsedFrom(s, m.end)
  }

  /** Every file read has a path holding a dot. */
  lemma {:induction false} ParsedPathsHaveDot(s: string, from: nat)
    requires from <= |s|
    ensures forall i :: 0 <= i < |ParsedFrom(s, from)| ==> '.' in ParsedFrom(s, from)[i].path
    decreases |s| - from
  {
    match Exec(s, from)
    case None =>
    case Some(m) =>
      ParsedPathsHaveDot(s, m.end);
      var fs := ParsedFrom(s, from);
      assert fs == [FileOf(m)] + ParsedFrom(s, m.end);
      forall i | 0 <= i < |fs| ensures '.' in fs[i].path {
        if i > 0 {
          assert fs[i] == ParsedFrom(s, m.end)[i - 1];
        }
      }
  }

  /** The page's `parseAIResponse`: one file per block, in order. */
  method ParseAIResponse(response: string) returns (files: seq<GeneratedFile>)
    ensures files == ParsedFrom(response, 0)
  {
    files := [];
    var lastIndex: nat := 0;
    while true
      invariant lastIndex <= |response|
      invariant files + ParsedFrom(response, lastIndex) == ParsedFrom(response, 0)
      decreases |response| - lastIndex
    {
      var match_ := Exec(response, lastIndex);
      if match_.None? {
        break;
      }
      var m := match_.value;
      lastIndex := m.end;
      var filePath := if m.pathText != [] then m.pathText else "App.tsx";
      filePath := Trim(JavaScript, StripLeadingTokens(filePath));
      if !('.' in filePath) {
        filePath := filePath + ".tsx";
      }
      var file := GeneratePage.GeneratedFile(filePath, Trim(JavaScript, m.body));
      Dedup.AppendAssoc(files, [file], ParsedFrom(response, m.end));
      files := files + [file];
    }
  }

  // ----- buildFileTree -----
  //
  // The page keeps a Map from folder path to folder node and pushes nodes into the root list
  // or into a folder's `children`. A JavaScript Map is a list of (key, value) pairs kept in
  // insertion order, and that is how it is written here. Because every folder node lives in
  // the Map under its own path, a folder entry in a list stands for the node stored under
  // its path, so the Map and the root list together are the whole object graph.

  /** A node pushed into a list: a file node, or a reference to the folder node under `path`. */
  datatype Entry = FileEntry(name: string, path: string) | FolderEntry(name: string, path: string)

  datatype Folder = Folder(name: string, children: seq<Entry>)

  /** The root list and the `folders` Map. */
  datatype Tree = Tree(roots: seq<Entry>, folders: seq<(string, Folder)>)

  /** `parts.filter(Boolean)`: the non-empty parts, in order. */
  function NonEmptyParts(parts: seq<string>): (r: seq<string>)
    ensures forall i :: 0 <= i < |r| ==> r[i] != [] && r[i] in parts
  {
    if parts == [] then []
    else if parts[0] == [] then NonEmptyParts(parts[1..])
    else [parts[0]] + NonEmptyParts(parts[1..])
  }

  /** `path.split('/').filter(Boolean)`. */
  function PathParts(path: string): (r: seq<string>)
    ensures forall i :: 0 <= i < |r| ==> r[i] != [] && '/' !in r[i]
  {
    NonEmptyParts(Split(path, '/'))
  }

  /** Where `folders.get(k)` looks: the position of the first pair with key `k`. */
  function FindKey(fs: seq<(string, Folder)>, k: string): (r: Option<nat>)
    ensures r.Some? ==> r.value < |fs| && fs[r.value].0 == k
  {
    if fs == [] then None
    else if fs[0].0 == k then Some(0)
    else match FindKey(fs[1..], k) case None => None case Some(j) => Some(j + 1)
  }

  lemma {:induction false} FindKeyAbsent(fs: seq<(string, Folder)>, k: string)
    requires FindKey(fs, k).None?
    ensures forall j :: 0 <= j < |fs| ==> fs[j].0 != k
  {
    if fs != [] {
      FindKeyAbsent(fs[1..], k);
      assert forall j :: 1 <= j < |fs| ==> fs[j] == fs[1..][j - 1];
    }
  }

  /** `children.push(e)` on the folder at position `i`. */
  function PushAt(fs: seq<(string, Folder)>, i: nat, e: Entry): (r: seq<(string, Folder)>)
    requires i < |fs|
    ensures |r| == |fs|
  {
    fs[i := (fs[i].0, fs[i].1.(children := fs[i].1.children + [e]))]
  }

  /** Push `e` into the children of the folder under `parentPath`, or into the roots when that
      path is empty or names no folder. */
  function Place(t: Tree, parentPath: string, e: Entry): Tree {
    var at := if parentPath == [] then None else FindKey(t.folders, parentPath);
    if at.Some? then t.(folders := PushAt(t.folders, at.value, e)) else t.(roots := t.roots + [e])
  }

  /** A new folder node: pushed under its parent, then stored in the Map under its path. */
  function AddFolder(t: Tree, parentPath: string, name: string, path: string): Tree {
    var t1 := Place(t, parentPath, FolderEntry(name, path));
    t1.(folders := t1.folders + [(path, Folder(name, []))])
  }

  /** The work done for part `i` of a file's parts. */
  function Step(t: Tree, path: string, parts: seq<string>, i: nat): Tree
    requires i < |parts|
  {
    var current := Join(parts[..i + 1], "/");
    if i == |parts| - 1 then Place(t, Join(parts[..i], "/"), FileEntry(parts[i], path))
    else if FindKey(t.folders, current).Some? then t
    else AddFolder(t, Join(parts[..i], "/"), parts[i], current)
  }

  /** The first `j` parts of a file handled. */
  function AddParts(t: Tree, path: string, parts: seq<string>, j: nat): Tree
    requires j <= |parts|
  {
    if j == 0 then t else Step(AddParts(t, path, parts, j - 1), path, parts, j - 1)
  }

  function AddFile(t: Tree, f: GeneratedFile): Tree {
    var parts := PathParts(f.path);
    AddParts(t, f.path, parts, |parts|)
  }

  /** What `buildFileTree(files)` builds. */
  function BackupTree(files: seq<GeneratedFile>): Tree {
    if files == [] then Tree([], [])
    else AddFile(BackupTree(files[..|files| - 1]), files[|files| - 1])
  }

  /** The page's `buildFileTree`, with its `folders` Map. */
  method BuildFileTree(files: seq<GeneratedFile>) returns (t: Tree)
    ensures t == BackupTree(files)
  {
    var tree: seq<Entry> := [];
    var folders: seq<(string, Folder)> := [];
    for i := 0 to |files|
      invariant Tree(tree, folders) == BackupTree(files[..i])
    {
      assert files[..i + 1][..i] == files[..i];
      var file := files[i];
      var parts := PathParts(file.path);
      ghost var before := Tree(tree, folders);
      var currentPath := "";
      for index := 0 to |parts|
        invariant currentPath == Join(parts[..index], "/")
        invariant Tree(tree, folders) == AddParts(before, file.path, parts, index)
      {
        var part := parts[index];
        PathSoFar(parts, index, currentPath);
        currentPath := if currentPath != "" then currentPath + "/" + part else part;
        tree, folders := PlacePart(tree, folders, file.path, parts, index, currentPath);
      }
      assert Tree(tree, folders) == AddFile(before, file);
    }
    assert files[..|files|] == files;
    t := Tree(tree, folders);
  }

  /** The path of the parts up to `index` extends the path of the parts before it. */
  lemma PathSoFar(parts: seq<string>, index: nat, currentPath: string)
    requires index < |parts| && currentPath == Join(parts[..index], "/")
    requires forall i :: 0 <= i < |parts| ==> parts[i] != []
    ensures Join(parts[..index + 1], "/") == if currentPath != "" then currentPath + "/" + parts[index] else parts[index]
  {
    assert parts[..index + 1] == parts[..index] + [parts[index]];
    JoinSnoc(parts[..index], parts[index], "/");
    JoinNonEmpty(parts[..index], "/");
  }

  /** The inner loop's body for the part at `index`, whose path so far is `currentPath`. */
  method PlacePart(tree: seq<Entry>, folders: seq<(string, Folder)>, path: string, parts: seq<string>, index: nat,
                   currentPath: string)
    returns (newTree: seq<Entry>, newFolders: seq<(string, Folder)>)
    requires index < |parts| && currentPath == Join(parts[..index + 1], "/")
    ensures Tree(newTree, newFolders) == Step(Tree(tree, folders), path, parts, index)
  {
    newTree, newFolders := tree, folders;
    var part := parts[index];
    if index == |parts| - 1 {
      var folderPath := Join(parts[..|parts| - 1], "/");
      var parent := if folderPath != "" then FindKey(folders, folderPath) else None;
      if parent.Some? {
        newFolders := PushAt(folders, parent.value, FileEntry(part, path));
      } else {
        newTree := tree + [FileEntry(part, path)];
      }
    } else if FindKey(folders, currentPath).None? {
      var folderNode := FolderEntry(part, currentPath);
      var parentPath := Join(parts[..index], "/");
      var parent := if parentPath != "" then FindKey(folders, parentPath) else None;
      if parent.Some? {
        newFolders := PushAt(folders, parent.value, folderNode);
      } else {
        newTree := tree + [folderNode];
      }
      newFolders := newFolders + [(currentPath, Folder(part, []))];
    }
  }

  // ----- what the tree holds -----

  /** Each key of the Map is stored once, and none is empty. */
  predicate Indexed(t: Tree) {
    && (forall i, j :: 0 <= i < j < |t.folders| ==> t.folders[i].0 != t.folders[j].0)
    && (forall i :: 0 <= i < |t.folders| ==> t.folders[i].0 != [])
  }

  /** The children lists of the folders, one after another. */
  function Children(fs: seq<(string, Folder)>): seq<Entry> {
    if fs == [] then [] else Children(fs[..|fs| - 1]) + fs[|fs| - 1].1.children
  }

  /** One reference per folder of the Map, as its parent would hold it. */
  function Refs(fs: seq<(string, Folder)>): seq<Entry> {
    if fs == [] then [] else Refs(fs[..|fs| - 1]) + [FolderEntry(fs[|fs| - 1].1.name, fs[|fs| - 1].0)]
  }

  /** Every node pushed anywhere: the roots and every folder's children. */
  function Entries(t: Tree): seq<Entry> {
    t.roots + Children(t.folders)
  }

  /** The file node each input file gives, for files with at least one non-empty part. */
  function PlacedFiles(files: seq<GeneratedFile>): seq<Entry> {
    if files == [] then []
    else
      var f := files[|files| - 1];
      var parts := PathParts(f.path);
      PlacedFiles(files[..|files| - 1]) + (if parts == [] then [] else [FileEntry(parts[|parts| - 1], f.path)])
  }

  /** Pushing into one folder's children adds exactly that node to the children lists. */
  lemma {:induction false} ChildrenPush(fs: seq<(string, Folder)>, i: nat, e: Entry)
    requires i < |fs|
    ensures multiset(Children(PushAt(fs, i, e))) == multiset(Children(fs)) + multiset{e}
  {
    var n := |fs|;
    var fs' := PushAt(fs, i, e);
    var pre, pre' := fs[..n - 1], fs'[..n - 1];
    assert Children(fs) == Children(pre) + fs[n - 1].1.children;
    assert Children(fs') == Children(pre') + fs'[n - 1].1.children;
    if i == n - 1 {
      assert pre' == pre;
      assert fs'[n - 1].1.children == fs[n - 1].1.children + [e];
    } else {
      assert pre' == PushAt(pre, i, e);
      ChildrenPush(pre, i, e);
      assert fs'[n - 1] == fs[n - 1];
    }
  }

  /** Pushing into a folder's children keeps the folder references. */
  lemma {:induction false} RefsPush(fs: seq<(string, Folder)>, i: nat, e: Entry)
    requires i < |fs|
    ensures Refs(PushAt(fs, i, e)) == Refs(fs)
  {
    var n := |fs|;
    var fs' := PushAt(fs, i, e);
    if i == n - 1 {
      assert fs'[..n - 1] == fs[..n - 1];
    } else {
      assert fs'[..n - 1] == PushAt(fs[..n - 1], i, e);
      RefsPush(fs[..n - 1], i, e);
    }
  }

  /** `Place` pushes one node, at the end of the children of the folder stored under
      `parentPath` or, when there is none, at the end of the roots, and leaves the Map's keys
      and names alone. */
  lemma PlaceAdds(t: Tree, parentPath: string, e: Entry)
    requires Indexed(t)
    ensures var t' := Place(t, parentPath, e);
      var at := if parentPath == [] then None else FindKey(t.folders, parentPath);
      && (at.Some? ==> t'.roots == t.roots && t'.folders[at.value].1.children == t.folders[at.value].1.children + [e])
      && (at.None? ==> t'.roots == t.roots + [e] && t'.folders == t.folders)
      && Indexed(t') && |t'.folders| == |t.folders|
      && (forall j :: 0 <= j < |t.folders| ==> t'.folders[j].0 == t.folders[j].0)
      && multiset(Entries(t')) == multiset(Entries(t)) + multiset{e}
      && Refs(t'.folders) == Refs(t.folders)
  {
    PlaceWhere(t, parentPath, e);
    PlaceKeeps(t, parentPath, e);
  }

  /** Where `Place` pushes the node. */
  lemma PlaceWhere(t: Tree, parentPath: string, e: Entry)
    ensures var t' := Place(t, parentPath, e);
      var at := if parentPath == [] then None else FindKey(t.folders, parentPath);
      && (at.Some? ==> t'.roots == t.roots && t'.folders[at.value].1.children == t.folders[at.value].1.children + [e])
      && (at.None? ==> t'.roots == t.roots + [e] && t'.folders == t.folders)
  {
  }

  /** What `Place` keeps: the Map's keys, the folder references, and every node but one. */
  lemma PlaceKeeps(t: Tree, parentPath: string, e: Entry)
    requires Indexed(t)
    ensures var t' := Place(t, parentPath, e);
      && Indexed(t') && |t'.folders| == |t.folders|
      && (forall j :: 0 <= j < |t.folders| ==> t'.folders[j].0 == t.folders[j].0)
      && multiset(Entries(t')) == multiset(Entries(t)) + multiset{e}
      && Refs(t'.folders) == Refs(t.folders)
  {
    var at := if parentPath == [] then None else FindKey(t.folders, parentPath);
    if at.Some? {
      ChildrenPush(t.folders, at.value, e);
      RefsPush(t.folders, at.value, e);
      PushAtKeys(t.folders, at.value, e);
    }
  }

  /** Pushing into a folder's children keeps every key of the Map. */
  lemma PushAtKeys(fs: seq<(string, Folder)>, i: nat, e: Entry)
    requires i < |fs|
    ensures forall j :: 0 <= j < |fs| ==> PushAt(fs, i, e)[j].0 == fs[j].0
  {
  }

  /** Two Maps with the same keys in the same order find a key at the same position. */
  lemma {:induction false} FindKeySameKeys(fs: seq<(string, Folder)>, gs: seq<(string, Folder)>, k: string)
    requires |fs| == |gs| && forall j :: 0 <= j < |fs| ==> fs[j].0 == gs[j].0
    ensures FindKey(fs, k) == FindKey(gs, k)
  {
    if fs != [] && fs[0].0 != k {
      FindKeySameKeys(fs[1..], gs[1..], k);
    }
  }

  /** A key stored at the end of the Map is found. */
  lemma {:induction false} FindKeyAppended(fs: seq<(string, Folder)>, k: string, folder: Folder)
    ensures FindKey(fs + [(k, folder)], k).Some?
  {
    if fs != [] && fs[0].0 != k {
      assert (fs + [(k, folder)])[1..] == fs[1..] + [(k, folder)];
      FindKeyAppended(fs[1..], k, folder);
    }
  }

  /** After a part before the last one is handled, the Map holds a folder under the path of
      the parts so far. */
  lemma FolderAfterStep(t: Tree, path: string, parts: seq<string>, i: nat)
    requires i < |parts| - 1 && Indexed(t)
    ensures FindKey(Step(t, path, parts, i).folders, Join(parts[..i + 1], "/")).Some?
  {
    var parentPath, current := Join(parts[..i], "/"), Join(parts[..i + 1], "/");
    if FindKey(t.folders, current).None? {
      var t1 := Place(t, parentPath, FolderEntry(parts[i], current));
      assert Step(t, path, parts, i).folders == t1.folders + [(current, Folder(parts[i], []))];
      FindKeyAppended(t1.folders, current, Folder(parts[i], []));
    }
  }

  /** Handling a part before the last one keeps every stored path distinct and non-empty. */
  lemma FolderStepIndexed(t: Tree, path: string, parts: seq<string>, i: nat)
    requires i < |parts| - 1 && parts[i] != [] && Indexed(t)
    ensures Indexed(Step(t, path, parts, i))
  {
    var parentPath, current := Join(parts[..i], "/"), Join(parts[..i + 1], "/");
    if FindKey(t.folders, current).None? {
      var t1 := Place(t, parentPath, FolderEntry(parts[i], current));
      assert Step(t, path, parts, i) == t1.(folders := t1.folders + [(current, Folder(parts[i], []))]);
      CurrentPathNonEmpty(parts, i);
      PlaceKeeps(t, parentPath, FolderEntry(parts[i], current));
      FindKeyAbsent(t.folders, current);
      AppendFolderIndexed(t1, current, parts[i]);
    }
  }

  lemma {:induction false} FolderPartsIndexed(t: Tree, path: string, parts: seq<string>, j: nat)
    requires j < |parts| && Indexed(t)
    requires forall i :: 0 <= i < |parts| ==> parts[i] != []
    ensures Indexed(AddParts(t, path, parts, j))
  {
    if j > 0 {
      FolderPartsIndexed(t, path, parts, j - 1);
      FolderStepIndexed(AddParts(t, path, parts, j - 1), path, parts, j - 1);
    }
  }

  /** After the parts before `j` are handled, the Map holds a folder under their path. */
  lemma FolderAfterParts(t: Tree, path: string, parts: seq<string>, j: nat)
    requires 0 < j < |parts| && Indexed(t)
    requires forall i :: 0 <= i < |parts| ==> parts[i] != []
    ensures Indexed(AddParts(t, path, parts, j)) && FindKey(AddParts(t, path, parts, j).folders, Join(parts[..j], "/")).Some?
  {
    var i := j - 1;
    FolderPartsIndexed(t, path, parts, i);
    FolderAfterStep(AddParts(t, path, parts, i), path, parts, i);
    FolderPartsIndexed(t, path, parts, j);
  }

  /** Every node pushed is a file node of an input file or the one reference to a Map folder. */
  predicate Balanced(t: Tree, placed: seq<Entry>) {
    multiset(Entries(t)) == multiset(placed) + multiset(Refs(t.folders))
  }

  lemma BalanceStep(e0: seq<Entry>, e1: seq<Entry>, r0: seq<Entry>, r1: seq<Entry>, placed: seq<Entry>, e: Entry)
    requires multiset(e1) == multiset(e0) + multiset{e} && multiset(e0) == multiset(placed) + multiset(r0)
    requires r1 == r0 + [e]
    ensures multiset(e1) == multiset(placed) + multiset(r1)
  {
  }

  lemma AddFolderBalanced(t: Tree, placed: seq<Entry>, parentPath: string, name: string, path: string)
    requires Indexed(t) && Balanced(t, placed) && path != [] && FindKey(t.folders, path).None?
    ensures var t' := AddFolder(t, parentPath, name, path); Indexed(t') && Balanced(t', placed)
  {
    var e := FolderEntry(name, path);
    var t1 := Place(t, parentPath, e);
    var t2 := AddFolder(t, parentPath, name, path);
    assert t2 == t1.(folders := t1.folders + [(path, Folder(name, []))]);
    assert Entries(t2) == Entries(t1);
    assert Refs(t2.folders) == Refs(t1.folders) + [e];
    PlaceAdds(t, parentPath, e);
    FindKeyAbsent(t.folders, path);
    AppendFolderIndexed(t1, path, name);
    BalanceStep(Entries(t), Entries(t2), Refs(t.folders), Refs(t2.folders), placed, e);
  }

  /** Storing a folder under a new, non-empty path keeps every stored path distinct. */
  lemma AppendFolderIndexed(t: Tree, path: string, name: string)
    requires Indexed(t) && path != [] && forall j :: 0 <= j < |t.folders| ==> t.folders[j].0 != path
    ensures Indexed(t.(folders := t.folders + [(path, Folder(name, []))]))
  {
  }

  lemma PlaceBalanced(t: Tree, placed: seq<Entry>, parentPath: string, e: Entry)
    requires Indexed(t) && Balanced(t, placed)
    ensures var t' := Place(t, parentPath, e); Indexed(t') && Balanced(t', placed + [e])
  {
    PlaceAdds(t, parentPath, e);
  }

  /** The path of the folder made for part `i` is not empty. */
  lemma CurrentPathNonEmpty(parts: seq<string>, i: nat)
    requires i < |parts| && parts[i] != []
    ensures Join(parts[..i + 1], "/") != []
  {
    var pre := parts[..i];
    assert parts[..i + 1] == pre + [parts[i]];
    JoinSnoc(pre, parts[i], "/");
    assert |Join(pre + [parts[i]], "/")| >= |parts[i]|;
  }

  /** Handling a part before the last one adds at most its folder, keeping the tree balanced. */
  lemma FolderStepBalanced(t: Tree, placed: seq<Entry>, path: string, parts: seq<string>, i: nat)
    requires i < |parts| - 1 && parts[i] != [] && Indexed(t) && Balanced(t, placed)
    ensures var t' := Step(t, path, parts, i); Indexed(t') && Balanced(t', placed)
  {
    var parentPath, current := Join(parts[..i], "/"), Join(parts[..i + 1], "/");
    if FindKey(t.folders, current).None? {
      assert Step(t, path, parts, i) == AddFolder(t, parentPath, parts[i], current);
      CurrentPathNonEmpty(parts, i);
      AddFolderBalanced(t, placed, parentPath, parts[i], current);
    } else {
      assert Step(t, path, parts, i) == t;
    }
  }

  /** The folders made for the first `j` parts, all before the last one, keep the tree balanced. */
  lemma {:induction false} FolderPartsBalanced(t: Tree, placed: seq<Entry>, path: string, parts: seq<string>, j: nat)
    requires j < |parts| && Indexed(t) && Balanced(t, placed)
    requires forall i :: 0 <= i < |parts| ==> parts[i] != []
    ensures var t' := AddParts(t, path, parts, j); Indexed(t') && Balanced(t', placed)
  {
    if j > 0 {
      FolderPartsBalanced(t, placed, path, parts, j - 1);
      FolderStepBalanced(AddParts(t, path, parts, j - 1), placed, path, parts, j - 1);
    }
  }

  /** The last part of a file places its file node under the folder of the parts before it. */
  lemma LastPartPlaced(t: Tree, path: string, parts: seq<string>)
    requires parts != []
    ensures var n := |parts|;
      AddParts(t, path, parts, n) == Place(AddParts(t, path, parts, n - 1), Join(parts[..n - 1], "/"), FileEntry(parts[n - 1], path))
  {
  }

  /** Adding a file pushes its folders once each and then one file node, named by the last part. */
  lemma AddPartsBalanced(t: Tree, placed: seq<Entry>, path: string, parts: seq<string>)
    requires Indexed(t) && Balanced(t, placed) && parts != []
    requires forall i :: 0 <= i < |parts| ==> parts[i] != []
    ensures var t' := AddParts(t, path, parts, |parts|);
      Indexed(t') && Balanced(t', placed + [FileEntry(parts[|parts| - 1], path)])
  {
    var n := |parts|;
    LastPartPlaced(t, path, parts);
    FolderPartsBalanced(t, placed, path, parts, n - 1);
    PlaceBalanced(AddParts(t, path, parts, n - 1), placed, Join(parts[..n - 1], "/"), FileEntry(parts[n - 1], path));
  }

  /** Every input file with a non-empty part gives exactly one file node, named by its last
      part and keeping its full path; every folder of the Map is pushed exactly once; nothing
      else is pushed; and no folder path is stored twice. Where a file node is pushed is
      `LastFilePlaced`'s concern. */
  lemma {:induction false} BackupTreeBalanced(files: seq<GeneratedFile>)
    ensures var t := BackupTree(files); Indexed(t) && Balanced(t, PlacedFiles(files))
  {
    if files != [] {
      var pre := files[..|files| - 1];
      var f := files[|files| - 1];
      BackupTreeBalanced(pre);
      var parts := PathParts(f.path);
      if parts == [] {
        assert PlacedFiles(files) == PlacedFiles(pre) + [];
      } else {
        AddPartsBalanced(BackupTree(pre), PlacedFiles(pre), f.path, parts);
      }
    }
  }

  /** A file's node is pushed last: into the children of the folder stored under the path of
      its parts before the last one, or into the roots when it has a single part. */
  lemma FilePlaced(t: Tree, f: GeneratedFile)
    requires Indexed(t) && PathParts(f.path) != []
    ensures var parts := PathParts(f.path);
      var n := |parts|;
      var t' := AddFile(t, f);
      var e := FileEntry(parts[n - 1], f.path);
      && (n == 1 ==> t'.roots == t.roots + [e] && t'.folders == t.folders)
      && (n > 1 ==> LastChildOf(t', Join(parts[..n - 1], "/"), e))
  {
    var parts := PathParts(f.path);
    if |parts| == 1 {
      SinglePartPlaced(t, f.path, parts);
    } else {
      FolderPartPlaced(t, f.path, parts);
    }
  }

  lemma SinglePartPlaced(t: Tree, path: string, parts: seq<string>)
    requires |parts| == 1
    ensures var t' := AddParts(t, path, parts, 1);
      t'.roots == t.roots + [FileEntry(parts[0], path)] && t'.folders == t.folders
  {
    assert parts[..0] == [];
    assert AddParts(t, path, parts, 0) == t;
  }

  lemma FolderPartPlaced(t: Tree, path: string, parts: seq<string>)
    requires |parts| > 1 && Indexed(t)
    requires forall i :: 0 <= i < |parts| ==> parts[i] != []
    ensures LastChildOf(AddParts(t, path, parts, |parts|), Join(parts[..|parts| - 1], "/"), FileEntry(parts[|parts| - 1], path))
  {
    var j := |parts| - 1;
    FolderAfterParts(t, path, parts, j);
    LastPartPlaced(t, path, parts);
    PushedLast(AddParts(t, path, parts, j), Join(parts[..j], "/"), FileEntry(parts[j], path));
  }

  /** `e` is the last child of the folder stored under `key`. */
  predicate LastChildOf(t: Tree, key: string, e: Entry) {
    var at := FindKey(t.folders, key);
    && at.Some?
    && var children := t.folders[at.value].1.children;
      children != [] && children[|children| - 1] == e
  }

  /** Placing under a stored, non-empty path makes the node that folder's last child. */
  lemma PushedLast(t: Tree, parentPath: string, e: Entry)
    requires Indexed(t) && FindKey(t.folders, parentPath).Some?
    ensures LastChildOf(Place(t, parentPath, e), parentPath, e)
  {
    var t' := Place(t, parentPath, e);
    PlaceWhere(t, parentPath, e);
    PushAtKeys(t.folders, FindKey(t.folders, parentPath).value, e);
    FindKeySameKeys(t'.folders, t.folders, parentPath);
  }

  /** The last file of a list, when its path has a non-empty part, gives the last node pushed
      in the tree built: under the folder of its directory path, or at the root. */
  lemma LastFilePlaced(files: seq<GeneratedFile>)
    requires files != [] && PathParts(files[|files| - 1].path) != []
    ensures var f := files[|files| - 1];
      var parts := PathParts(f.path);
      var n := |parts|;
      var t := BackupTree(files);
      var e := FileEntry(parts[n - 1], f.path);
      && (n == 1 ==> t.roots != [] && t.roots[|t.roots| - 1] == e)
      && (n > 1 ==> LastChildOf(t, Join(parts[..n - 1], "/"), e))
  {
    var pre := files[..|files| - 1];
    BackupTreeIndexed(pre);
    FilePlaced(BackupTree(pre), files[|files| - 1]);
  }

  lemma BackupTreeIndexed(files: seq<GeneratedFile>)
    ensures Indexed(BackupTree(files))
  {
    BackupTreeBalanced(files);
  }

  /** The tree depends on the paths of the files only, not on their contents. */
  lemma {:induction false} BackupTreeUsesPaths(files: seq<GeneratedFile>, files': seq<GeneratedFile>)
    requires |files| == |files'| && forall i :: 0 <= i < |files| ==> files[i].path == files'[i].path
    ensures BackupTree(files) == BackupTree(files')
  {
    if files != [] {
      var n := |files|;
      BackupTreeUsesPaths(files[..n - 1], files'[..n - 1]);
    }
  }

  // ----- getLanguage -----

  /** `filePath.split('.').pop().toLowerCase()`. */
  function Extension(filePath: string): string {
    Lower(LastSegment(filePath, '.'))
  }

  /** The editor language shown for a file. */
  function GetLanguage(filePath: string): (r: string)
    ensures r in {"typescript", "javascript", "css", "html", "json", "markdown"}
  {
    LanguageOf(Extension(filePath))
  }

  /** The `switch` on the extension. */
  function LanguageOf(ext: string): (r: string)
    ensures r in {"typescript", "javascript", "css", "html", "json", "markdown"}
  {
    match ext
    case "tsx" => "typescript"
    case "ts" => "typescript"
    case "jsx" => "javascript"
    case "js" => "javascript"
    case "css" => "css"
    case "html" => "html"
    case "json" => "json"
    case "md" => "markdown"
    case _ => "javascript"
  }

  /** Each language comes from its own extensions, and JavaScript from everything else. */
  lemma LanguageOfCases(ext: string)
    ensures var r := LanguageOf(ext);
      && (r == "typescript" <==> ext == "ts" || ext == "tsx")
      && (r == "css" <==> ext == "css")
      && (r == "html" <==> ext == "html")
      && (r == "json" <==> ext == "json")
      && (r == "markdown" <==> ext == "md")
      && (r == "javascript" <==> !(ext in {"ts", "tsx", "css", "html", "json", "md"}))
  {
  }

  /** A path given `.tsx` by the clean-up is shown as TypeScript. */
  lemma SuffixedPathIsTypeScript(q: string)
    requires '.' !in q
    ensures GetLanguage(q + ".tsx") == "typescript"
  {
    assert Lower("tsx") == "tsx";
    assert q + ".tsx" == q + ['.'] + "tsx";
    LastSegmentAfter(q, '.', "tsx");
  }

  // ----- sandpackConfig -----

  /** The code of a bundler file: a generated text, or one of the page's fixed texts (whose
      characters `CodeText` spells out). */
  datatype Code = Source(text: string) | IndexPage | EntryModule(importPath: string) | Stylesheet | Manifest

  /** A file of the bundler's `files` object. */
  datatype BundleFile = BundleFile(code: Code, hidden: bool)

  /** A JavaScript object used as a dictionary: its keys in insertion order. */
  type BundleFiles = seq<(string, BundleFile)>

  datatype SandpackConfig = SandpackConfig(files: BundleFiles, template: string, theme: string)

  function Lookup(fs: BundleFiles, key: string): Option<BundleFile> {
    if fs == [] then None else if fs[0].0 == key then Some(fs[0].1) else Lookup(fs[1..], key)
  }

  function Keys(fs: BundleFiles): (ks: seq<string>)
    ensures |ks| == |fs|
  {
    seq(|fs|, i requires 0 <= i < |fs| => fs[i].0)
  }

  predicate Distinct(ks: seq<string>) {
    forall i, j :: 0 <= i < j < |ks| ==> ks[i] != ks[j]
  }

  /** `files[key] = v`: a key already present keeps its place, a new key goes last. */
  function SetKey(fs: BundleFiles, key: string, v: BundleFile): BundleFiles {
    if fs == [] then [(key, v)]
    else if fs[0].0 == key then [(key, v)] + fs[1..]
    else [fs[0]] + SetKey(fs[1..], key, v)
  }

  lemma {:induction false} SetKeyLookup(fs: BundleFiles, key: string, v: BundleFile, k: string)
    ensures Lookup(SetKey(fs, key, v), k) == if k == key then Some(v) else Lookup(fs, k)
  {
    if fs != [] && fs[0].0 != key {
      SetKeyLookup(fs[1..], key, v, k);
    }
  }

  lemma KeysCons(x: (string, BundleFile), rest: BundleFiles)
    ensures Keys([x] + rest) == [x.0] + Keys(rest)
  {
    var a, b := Keys([x] + rest), [x.0] + Keys(rest);
    forall i | 0 <= i < |a| ensures a[i] == b[i] {
      if i > 0 {
        assert ([x] + rest)[i] == rest[i - 1];
      }
    }
    assert a == b;
  }

  lemma {:induction false} SetKeyKeys(fs: BundleFiles, key: string, v: BundleFile)
    ensures Keys(SetKey(fs, key, v)) == if key in Keys(fs) then Keys(fs) else Keys(fs) + [key]
  {
    if fs == [] {
      assert Keys([(key, v)]) == [key];
    } else {
      assert fs == [fs[0]] + fs[1..];
      KeysCons(fs[0], fs[1..]);
      if fs[0].0 == key {
        KeysCons((key, v), fs[1..]);
      } else {
        var rest := SetKey(fs[1..], key, v);
        SetKeyKeys(fs[1..], key, v);
        KeysCons(fs[0], rest);
        assert key in Keys(fs) <==> key in Keys(fs[1..]);
      }
    }
  }

  predicate IsSlash(c: char) { c == '/' }

  /** `path.replace(/^\/+/, '')`. */
  function StripLeadingSlashes(path: string): (r: string)
    ensures r == [] || r[0] != '/'
  {
    RunEndSpec(path, 0, IsSlash);
    path[RunEnd(path, 0, IsSlash)..]
  }

  /** The bundler key of a generated file. */
  function SourceKey(path: string): string {
    "/src/" + StripLeadingSlashes(path)
  }

  /** Vite's environment access rewritten to the bundler's. */
  function RewriteEnv(code: string): string {
    ReplaceAll(code, "import.meta.env.VITE_", "process.env.REACT_APP_")
  }

  predicate IsMainPath(path: string) {
    var l := Lower(path);
    Contains(l, "app.tsx") || Contains(l, "app.jsx") || Contains(l, "index.tsx") || Contains(l, "index.jsx")
  }

  /** `generatedFiles.find(...)` for the main component. */
  function FindMain(files: seq<GeneratedFile>): Option<nat> {
    if files == [] then None
    else if IsMainPath(files[0].path) then Some(0)
    else match FindMain(files[1..]) case None => None case Some(j) => Some(j + 1)
  }

  /** The main component file: the first one that looks like an app or index component, else
      the first file. */
  function MainFile(files: seq<GeneratedFile>): GeneratedFile
    requires files != []
  {
    match FindMain(files)
    case Some(j) => if j < |files| then files[j] else files[0]
    case None => files[0]
  }

  lemma {:induction false} FindMainFirst(files: seq<GeneratedFile>)
    ensures match FindMain(files)
      case Some(j) => j < |files| && IsMainPath(files[j].path) && forall i :: 0 <= i < j ==> !IsMainPath(files[i].path)
      case None => forall i :: 0 <= i < |files| ==> !IsMainPath(files[i].path)
  {
    if files != [] {
      FindMainFirst(files[1..]);
      assert forall i :: 1 <= i < |files| ==> files[i] == files[1..][i - 1];
    }
  }

  /** The main file is one of the files; it is the first with an app or index name, or the
      first file when none has one. */
  lemma MainFileChoice(files: seq<GeneratedFile>)
    requires files != []
    ensures MainFile(files) in files
    ensures IsMainPath(MainFile(files).path)
      || (MainFile(files) == files[0] && forall i :: 0 <= i < |files| ==> !IsMainPath(files[i].path))
    ensures forall i :: 0 <= i < |files| && IsMainPath(files[i].path) ==>
      exists j :: 0 <= j <= i && files[j] == MainFile(files)
  {
    FindMainFirst(files);
    forall i | 0 <= i < |files| && IsMainPath(files[i].path)
      ensures exists j :: 0 <= j <= i && files[j] == MainFile(files)
    {
      var j := FindMain(files).value;
      assert files[j] == MainFile(files);
    }
  }

  /** The text of a bundler file. The manifest is what `JSON.stringify(..., null, 2)` writes. */
  function CodeText(c: Code): string {
    match c
    case Source(text) => text
    case IndexPage => "<!DOCTYPE html>\n<html lang=\"en\">\n<head>\n  <meta charset=\"UTF-8\" />\n  <meta name=\"viewport\" content=\"width=device-width, initial-scale=1.0\" />\n  <title>Generated App</title>\n</head>\n<body>\n  <div id=\"root\"></div>\n</body>\n</html>"
    case EntryModule(importPath) =>
      "import React from 'react';\nimport { createRoot } from 'react-dom/client';\nimport App from '" + importPath
        + "';\nimport './styles.css';\n\nconst container = document.getElementById('root');\nconst root = createRoot(container);\nroot.render(<App />);"
    case Stylesheet => "/* Basic styles */\nbody {\n  margin: 0;\n  font-family: -apple-system, BlinkMacSystemFont, 'Segoe UI', 'Roboto', 'Oxygen',\n    'Ubuntu', 'Cantarell', 'Fira Sans', 'Droid Sans', 'Helvetica Neue',\n    sans-serif;\n  -webkit-font-smoothing: antialiased;\n  -moz-osx-font-smoothing: grayscale;\n}\n\n* {\n  box-sizing: border-box;\n}\n\n.container {\n  max-width: 1200px;\n  margin: 0 auto;\n  padding: 20px;\n}"
    case Manifest => "{\n  \"name\": \"generated-app\",\n  \"version\": \"1.0.0\",\n  \"private\": true,\n  \"dependencies\": {\n    \"react\": \"^18.2.0\",\n    \"react-dom\": \"^18.2.0\",\n    \"react-scripts\": \"5.0.1\"\n  },\n  \"scripts\": {\n    \"start\": \"react-scripts start\",\n    \"build\": \"react-scripts build\",\n    \"test\": \"react-scripts test\",\n    \"eject\": \"react-scripts eject\"\n  },\n  \"main\": \"/src/index.tsx\"\n}"
  }

  /** The four hidden files every preview starts with. */
  function FixedFiles(importPath: string): BundleFiles {
    [ ("/public/index.html", BundleFile(IndexPage, true)),
      ("/src/index.tsx", BundleFile(EntryModule(importPath), true)),
      ("/src/styles.css", BundleFile(Stylesheet, true)),
      ("/package.json", BundleFile(Manifest, true)) ]
  }

  /** The generated files added one after another, each under its source key. */
  function AddGenerated(fs: BundleFiles, files: seq<GeneratedFile>): BundleFiles {
    if files == [] then fs
    else
      var f := files[|files| - 1];
      SetKey(AddGenerated(fs, files[..|files| - 1]), SourceKey(f.path), BundleFile(Source(RewriteEnv(f.content)), false))
  }

  /** What `sandpackConfig` holds for the files and the colour theme. */
  function Sandpack(files: seq<GeneratedFile>, theme: string): (r: Option<SandpackConfig>)
    ensures r.None? <==> files == []
  {
    if files == [] then None
    else
      var importPath := "./" + StripLeadingSlashes(MainFile(files).path);
      Some(SandpackConfig(AddGenerated(FixedFiles(importPath), files), "react-ts", if theme == "dark" then "dark" else "light"))
  }

  /** The page's `useMemo` computing the bundler configuration. */
  method SandpackConfigOf(generatedFiles: seq<GeneratedFile>, theme: string) returns (config: Option<SandpackConfig>)
    ensures config == Sandpack(generatedFiles, theme)
  {
    if |generatedFiles| == 0 {
      return None;
    }
    var mainFile := MainFile(generatedFiles);
    var importPath := "./" + StripLeadingSlashes(mainFile.path);
    var files := FixedFiles(importPath);
    for i := 0 to |generatedFiles|
      invariant files == AddGenerated(FixedFiles(importPath), generatedFiles[..i])
    {
      var file := generatedFiles[i];
      var cleanPath := "/src/" + StripLeadingSlashes(file.path);
      assert generatedFiles[..i + 1][..i] == generatedFiles[..i];
      files := SetKey(files, cleanPath, BundleFile(Source(RewriteEnv(file.content)), false));
    }
    assert generatedFiles[..|generatedFiles|] == generatedFiles;
    config := Some(SandpackConfig(files, "react-ts", if theme == "dark" then "dark" else "light"));
  }

  /** The last of the files whose source key is `k`. */
  function LastWithKey(files: seq<GeneratedFile>, k: string): Option<GeneratedFile> {
    if files == [] then None
    else if SourceKey(files[|files| - 1].path) == k then Some(files[|files| - 1])
    else LastWithKey(files[..|files| - 1], k)
  }

  /** Under each key the last generated file with that key wins, its environment accesses
      rewritten and not hidden; keys no generated file has keep what they held. */
  lemma {:induction false} AddGeneratedLookup(fs: BundleFiles, files: seq<GeneratedFile>, k: string)
    ensures Lookup(AddGenerated(fs, files), k)
      == match LastWithKey(files, k)
         case Some(f) => Some(BundleFile(Source(RewriteEnv(f.content)), false))
         case None => Lookup(fs, k)
  {
    if files != [] {
      var f := files[|files| - 1];
      AddGeneratedLookup(fs, files[..|files| - 1], k);
      SetKeyLookup(AddGenerated(fs, files[..|files| - 1]), SourceKey(f.path), BundleFile(Source(RewriteEnv(f.content)), false), k);
    }
  }

  /** Adding files keeps the keys distinct, keeps the keys already there in their places and
      puts every generated file's key somewhere. */
  lemma {:induction false} AddGeneratedKeys(fs: BundleFiles, files: seq<GeneratedFile>)
    requires Distinct(Keys(fs))
    ensures var ks := Keys(AddGenerated(fs, files));
      && Distinct(ks) && |Keys(fs)| <= |ks| && ks[..|Keys(fs)|] == Keys(fs)
      && forall f :: f in files ==> SourceKey(f.path) in ks
  {
    if files != [] {
      var pre := files[..|files| - 1];
      var f := files[|files| - 1];
      AddGeneratedKeys(fs, pre);
      var before := AddGenerated(fs, pre);
      SetKeyKeys(before, SourceKey(f.path), BundleFile(Source(RewriteEnv(f.content)), false));
      forall g | g in files ensures SourceKey(g.path) in Keys(AddGenerated(fs, files)) {
        if g != f {
          assert g in pre;
        }
      }
    }
  }

  /** No generated file can take the key of the page or of the manifest. */
  lemma {:induction false} NoSourceKey(files: seq<GeneratedFile>, k: string)
    requires k == "/public/index.html" || k == "/package.json"
    ensures LastWithKey(files, k).None?
  {
    if files != [] {
      assert SourceKey(files[|files| - 1].path)[1] == 's' != k[1];
      NoSourceKey(files[..|files| - 1], k);
    }
  }

  /** The fixed files' keys, in the order the page writes them, are distinct. */
  lemma FixedKeys(importPath: string)
    ensures Keys(FixedFiles(importPath)) == ["/public/index.html", "/src/index.tsx", "/src/styles.css", "/package.json"]
    ensures Distinct(Keys(FixedFiles(importPath)))
  {
    var ks := Keys(FixedFiles(importPath));
    assert ks[0][1] == 'p' && ks[1][1] == 's' && ks[2][1] == 's' && ks[3][1] == 'p';
    assert ks[0][2] == 'u' && ks[3][2] == 'a';
    assert ks[1][5] == 'i' && ks[2][5] == 's';
  }

  /** The configuration's keys are distinct, start with the four fixed files in the page's
      order, and include every generated file's key. */
  lemma SandpackKeys(files: seq<GeneratedFile>, theme: string)
    requires files != []
    ensures var c := Sandpack(files, theme).value;
      && Distinct(Keys(c.files))
      && |Keys(c.files)| >= 4 && Keys(c.files)[..4] == ["/public/index.html", "/src/index.tsx", "/src/styles.css", "/package.json"]
      && (forall f :: f in files ==> SourceKey(f.path) in Keys(c.files))
  {
    var fixed := FixedFiles("./" + StripLeadingSlashes(MainFile(files).path));
    FixedKeys("./" + StripLeadingSlashes(MainFile(files).path));
    AddGeneratedKeys(fixed, files);
  }

  /** A key holds the last generated file with that key, or else the fixed file under it; so
      the page and the manifest are always the fixed hidden ones. */
  lemma SandpackLookup(files: seq<GeneratedFile>, theme: string, k: string)
    requires files != []
    ensures var c := Sandpack(files, theme).value;
      && Lookup(c.files, "/public/index.html") == Some(BundleFile(IndexPage, true))
      && Lookup(c.files, "/package.json") == Some(BundleFile(Manifest, true))
      && Lookup(c.files, k) == match LastWithKey(files, k)
           case Some(f) => Some(BundleFile(Source(RewriteEnv(f.content)), false))
           case None => Lookup(FixedFiles("./" + StripLeadingSlashes(MainFile(files).path)), k)
  {
    var fixed := FixedFiles("./" + StripLeadingSlashes(MainFile(files).path));
    assert Lookup(fixed, "/public/index.html") == Some(BundleFile(IndexPage, true));
    assert Lookup(fixed, "/package.json") == Some(BundleFile(Manifest, true)) by {
      var f1 := fixed[1..];
      var f2 := f1[1..];
      var f3 := f2[1..];
      assert Lookup(f3, "/package.json") == Some(BundleFile(Manifest, true));
      assert f2[0].0[1] == 's' && f1[0].0[1] == 's' && fixed[0].0[2] == 'u';
      assert Lookup(f2, "/package.json") == Lookup(f3, "/package.json");
      assert Lookup(f1, "/package.json") == Lookup(f2, "/package.json");
    }
    NoSourceKey(files, "/public/index.html");
    NoSourceKey(files, "/package.json");
    AddGeneratedLookup(fixed, files, k);
    AddGeneratedLookup(fixed, files, "/public/index.html");
    AddGeneratedLookup(fixed, files, "/package.json");
  }

  // ----- the editor -----

  /** The editor's view: the files and the file open in it. */
  datatype EditorState = EditorState(files: seq<GeneratedFile>, selected: GeneratedFile)

  /** `prev.map(...)`: the content of every file at the selected path replaced. */
  function EditedFiles(files: seq<GeneratedFile>, selectedPath: string, value: string): (r: seq<GeneratedFile>)
    ensures |r| == |files|
  {
    seq(|files|, i requires 0 <= i < |files| => if files[i].path == selectedPath then files[i].(content := value) else files[i])
  }

  /** The editor's `onChange`: an undefined value changes nothing. */
  function EditorChanged(st: EditorState, value: Option<string>): EditorState {
    match value
    case None => st
    case Some(v) => EditorState(EditedFiles(st.files, st.selected.path, v), st.selected.(content := v))
  }

  /** Only the files at the selected path change, and only in content; the open file stays one
      of the files and shows the new text; and the file tree is unchanged. */
  lemma EditorChangeKeeps(st: EditorState, value: string)
    requires st.selected in st.files
    ensures var st' := EditorChanged(st, Some(value));
      && |st'.files| == |st.files|
      && (forall i :: 0 <= i < |st.files| ==> st'.files[i].path == st.files[i].path)
      && (forall i :: 0 <= i < |st.files| && st.files[i].path != st.selected.path ==> st'.files[i] == st.files[i])
      && st'.selected in st'.files && st'.selected.content == value && st'.selected.path == st.selected.path
      && BackupTree(st'.files) == BackupTree(st.files)
  {
    var st' := EditorChanged(st, Some(value));
    var i :| 0 <= i < |st.files| && st.files[i] == st.selected;
    assert st'.files[i] == st'.selected;
    BackupTreeUsesPaths(st.files, st'.files);
  }

  /** A second change to the same file overrides the first. */
  lemma EditorChangeTwice(st: EditorState, v1: string, v2: string)
    ensures EditorChanged(EditorChanged(st, Some(v1)), Some(v2)) == EditorChanged(st, Some(v2))
  {
  }
}
