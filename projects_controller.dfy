/**
 * The projects API (backend/controllers/projectsController.ts): the checks each handler
 * makes before it uses what the database returned, version numbering, the latest version
 * of each listed project, the address of the generation service, the choice of files sent
 * to that service for an edit, and the merge of the edited files over the current ones.
 *
 * Database answers, the configuration and the service's reply are parameters. An unset
 * environment variable or an absent request field is the empty string, which JavaScript's
 * `||` and `!` treat like `undefined`.
 */
module ProjectsController {

  import opened Wrappers
  import opened Text
  import Dedup
  import Sorting
  import MarkdownParser

  // ----- configuration -----

  /** `(process.env.REQUIRE_AUTH_PROJECTS || 'true').toLowerCase() !== 'false'`. */
  function RequireAuth(env: string): (r: bool)
    ensures !r <==> Lower(env) == "false"
  {
    Lower(if env == [] then "true" else env) != "false"
  }

  const NilUserId := "00000000-0000-0000-0000-000000000000"

  /** The owner a new project is saved under: the caller, or, when authentication is not
      required, the caller or else `DEV_FALLBACK_USER_ID` or the all-zero id. */
  function OwnerUserId(requireAuth: bool, userId: string, fallbackEnv: string): (r: string)
    ensures userId != [] ==> r == userId
    ensures !requireAuth ==> r != []
  {
    if requireAuth then userId
    else if userId != [] then userId
    else if fallbackEnv != [] then fallbackEnv
    else NilUserId
  }

  // ----- request checks -----

  /** A response that ends a handler: its status and `error` text. */
  datatype Rejection = Rejection(status: nat, error: string)

  /** What the database gave for the project named in a request: its owner, no row, or an
      error with its message. */
  datatype Lookup = Found(owner: string) | NotFound | Failed(message: string)

  /** A request whose project id is absent or `new` creates a project. */
  predicate IsNew(projectId: string) {
    projectId == [] || projectId == "new"
  }

  /** `saveGeneratedOutput` up to the version query: who may save, what must be sent, and
      whether the named project may be written. */
  function SaveChecks(requireAuth: bool, userId: string, projectId: string, markdown: string, title: string, existing: Lookup): (r: Option<Rejection>)
    ensures requireAuth && userId == [] ==> r == Some(Rejection(401, "Unauthorized"))
    ensures r.None? <==>
      && (!requireAuth || userId != []) && markdown != []
      && (IsNew(projectId) ==> title != [])
      && (!IsNew(projectId) ==> existing.Found? && (!requireAuth || existing.owner == userId))
    ensures r.Some? ==> r.value.status in {400, 401, 403, 404}
  {
    if requireAuth && userId == [] then Some(Rejection(401, "Unauthorized"))
    else if markdown == [] then Some(Rejection(400, "markdown is required"))
    else if IsNew(projectId) then
      if title == [] then Some(Rejection(400, "title is required to create a new project")) else None
    else if !existing.Found? then Some(Rejection(404, "Project not found"))
    else if requireAuth && existing.owner != userId then Some(Rejection(403, "Forbidden"))
    else None
  }

  /** `listProjects`: only the caller's identity is checked, and only when it is required. */
  function ListChecks(requireAuth: bool, userId: string): (r: Option<Rejection>)
    ensures r.None? <==> !requireAuth || userId != []
  {
    if requireAuth && userId == [] then Some(Rejection(401, "Unauthorized")) else None
  }

  /** The checks shared by `getProjectDetail` and `editProject` once the project was looked
      up: a failed query is thrown (500 with its message or `fallback`), a missing project is
      404, another user's project 403. */
  function OwnershipChecks(requireAuth: bool, userId: string, project: Lookup, fallback: string): (r: Option<Rejection>)
    ensures r.None? <==> project.Found? && (!requireAuth || project.owner == userId)
  {
    match project
    case Failed(message) => Some(Rejection(500, if message != [] then message else fallback))
    case NotFound => Some(Rejection(404, "Project not found"))
    case Found(owner) => if requireAuth && owner != userId then Some(Rejection(403, "Forbidden")) else None
  }

  /** `getProjectDetail` up to the version query. */
  function DetailChecks(requireAuth: bool, userId: string, projectId: string, project: Lookup): (r: Option<Rejection>)
    ensures requireAuth && userId == [] ==> r == Some(Rejection(401, "Unauthorized"))
    ensures r.None? <==> (!requireAuth || userId != []) && projectId != [] && project.Found? && (!requireAuth || project.owner == userId)
  {
    if requireAuth && userId == [] then Some(Rejection(401, "Unauthorized"))
    else if projectId == [] then Some(Rejection(400, "project id is required"))
    else OwnershipChecks(requireAuth, userId, project, "Failed to get project detail")
  }

  /** `editProject` up to the version query: the request must name a project and carry
      instructions or an error text, both checked before the project is looked at. */
  function EditChecks(requireAuth: bool, userId: string, projectId: string, instructions: string, error: string, project: Lookup): (r: Option<Rejection>)
    ensures requireAuth && userId == [] ==> r == Some(Rejection(401, "Unauthorized"))
    ensures r.Some? && r.value.status == 400 ==> (!requireAuth || userId != []) && (projectId == [] || (instructions == [] && error == []))
    ensures r.None? <==>
      && (!requireAuth || userId != []) && projectId != [] && (instructions != [] || error != [])
      && project.Found? && (!requireAuth || project.owner == userId)
  {
    if requireAuth && userId == [] then Some(Rejection(401, "Unauthorized"))
    else if projectId == [] then Some(Rejection(400, "project id is required"))
    else if instructions == [] && error == [] then Some(Rejection(400, "instructions or error is required"))
    else OwnershipChecks(requireAuth, userId, project, "Failed to apply edit")
  }

  // ----- version numbers -----

  predicate Descending(numbers: seq<int>) {
    forall i, j :: 0 <= i < j < |numbers| ==> numbers[i] >= numbers[j]
  }

  /** The number of the version a save creates, from the project's version numbers in the
      order the query returns them (descending; only the first is read). */
  function NextNumber(numbers: seq<int>): int {
    if |numbers| > 0 then numbers[0] + 1 else 1
  }

  /** The number given to a new version exceeds every existing one, and is 1 for the first. */
  lemma NextNumberFresh(numbers: seq<int>)
    requires Descending(numbers)
    ensures forall i :: 0 <= i < |numbers| ==> numbers[i] < NextNumber(numbers)
    ensures numbers == [] ==> NextNumber(numbers) == 1
  {
  }

  /** A version row as `listProjects` reads it. */
  datatype VersionRow = VersionRow(projectId: string, number: int)

  /** The number of the first row for `id`, or nothing when no row is for `id`. */
  function FirstNumber(versions: seq<VersionRow>, id: string): (r: Option<int>)
    ensures r.None? <==> forall i :: 0 <= i < |versions| ==> versions[i].projectId != id
  {
    if versions == [] then None
    else if versions[0].projectId == id then Some(versions[0].number)
    else FirstNumber(versions[1..], id)
  }

  lemma {:induction false} FirstNumberSnoc(versions: seq<VersionRow>, v: VersionRow, id: string)
    ensures FirstNumber(versions + [v], id)
         == if FirstNumber(versions, id).Some? then FirstNumber(versions, id)
            else if v.projectId == id then Some(v.number) else None
  {
    if versions != [] {
      assert (versions + [v])[1..] == versions[1..] + [v];
      FirstNumberSnoc(versions[1..], v, id);
    }
  }

  /** The `latestByProject` loop: the first number seen for each project is kept. */
  method LatestByProject(versions: seq<VersionRow>) returns (latest: map<string, int>)
    ensures forall id :: FirstNumber(versions, id) == if id in latest then Some(latest[id]) else None
  {
    latest := map[];
    var i := 0;
    while i < |versions|
      invariant i <= |versions|
      invariant forall id :: FirstNumber(versions[..i], id) == if id in latest then Some(latest[id]) else None
    {
      var v := versions[i];
      forall id ensures FirstNumber(versions[..i + 1], id)
                     == if id in latest || id != v.projectId then FirstNumber(versions[..i], id) else Some(v.number) {
        assert versions[..i + 1] == versions[..i] + [v];
        FirstNumberSnoc(versions[..i], v, id);
      }
      if v.projectId !in latest {
        latest := latest[v.projectId := v.number];
      }
      i := i + 1;
    }
    assert versions[..i] == versions;
  }

  /** `latestByProject[p.id] || 0`. */
  function LatestVersion(latest: map<string, int>, id: string): int {
    if id in latest then latest[id] else 0
  }

  /** With the rows in descending number order, a listed project reports its highest version
      number, and 0 when it has none. */
  lemma {:induction false} FirstNumberIsLatest(versions: seq<VersionRow>, id: string)
    requires forall i, j :: 0 <= i < j < |versions| ==> versions[i].number >= versions[j].number
    ensures match FirstNumber(versions, id)
      case None => true
      case Some(n) =>
        && (exists i :: 0 <= i < |versions| && versions[i].projectId == id && versions[i].number == n)
        && forall i :: 0 <= i < |versions| && versions[i].projectId == id ==> versions[i].number <= n
  {
    if versions != [] && versions[0].projectId != id {
      FirstNumberIsLatest(versions[1..], id);
      if FirstNumber(versions, id).Some? {
        var n := FirstNumber(versions, id).value;
        var k :| 0 <= k < |versions[1..]| && versions[1..][k].projectId == id && versions[1..][k].number == n;
        assert versions[k + 1].projectId == id && versions[k + 1].number == n;
      }
    }
  }

  // ----- getFastApiBase -----

  /** `s.replace(/\/$/, '')`: one trailing slash removed. */
  function DropTrailingSlash(s: string): (r: string)
    ensures EndsWith(s, "/") ==> r + "/" == s
    ensures !EndsWith(s, "/") ==> r == s
  {
    if s != [] && s[|s| - 1] == '/' then s[..|s| - 1] else s
  }

  /** `/^https?:\/\//i.test(host)`. */
  predicate HasHttpScheme(host: string) {
    StartsWith(Lower(host), "http://") || StartsWith(Lower(host), "https://")
  }

  /** The base address of the generation service from `FASTAPI_URL`, `FASTAPI_HOST` and
      `FASTAPI_PORT`. */
  function FastApiBase(rawUrl: string, hostEnv: string, portEnv: string): string {
    var host := if hostEnv == [] then "localhost" else hostEnv;
    var port := if portEnv == [] then "8000" else portEnv;
    if rawUrl != [] then DropTrailingSlash(rawUrl)
    else if HasHttpScheme(host) then DropTrailingSlash(host)
    else "http://" + Split(host, ':')[0] + ":" + port
  }

  /** The three sources in their order: the URL without one trailing slash; else a host given
      with its scheme, without one trailing slash; else `http://`, the host up to its first
      colon, a colon and the port. */
  lemma FastApiBaseCases(rawUrl: string, hostEnv: string, portEnv: string)
    ensures var r := FastApiBase(rawUrl, hostEnv, portEnv);
      var host := if hostEnv == [] then "localhost" else hostEnv;
      var port := if portEnv == [] then "8000" else portEnv;
      if rawUrl != [] then r == rawUrl || r + "/" == rawUrl
      else if HasHttpScheme(host) then r == host || r + "/" == host
      else exists h ::
        && r == "http://" + h + ":" + port
        && ':' !in h && StartsWith(host, h) && (|h| == |host| || host[|h|] == ':')
  {
    var host := if hostEnv == [] then "localhost" else hostEnv;
    if rawUrl == [] && !HasHttpScheme(host) {
      HostBeforeColon(host);
    }
  }

  /** `host.split(':')[0]` is the host up to its first colon. */
  lemma HostBeforeColon(host: string)
    ensures var h := Split(host, ':')[0];
      ':' !in h && StartsWith(host, h) && (|h| == |host| || host[|h|] == ':')
  {
    var h := Split(host, ':')[0];
    var k := FirstIndexOf(host, ':');
    assert h == host[..k];
  }

  /** Without any configuration the service is at `http://localhost:8000`. */
  lemma FastApiBaseDefault()
    ensures FastApiBase("", "", "") == "http://localhost:8000"
  {
    var host := "localhost";
    assert "http://" + host + ":" + "8000" == "http://localhost:8000";
    assert Lower(host)[0] == 'l';
    assert !HasHttpScheme(host) by {
      assert Lower(host)[..7][0] == 'l';
      assert Lower(host)[..8][0] == 'l';
    }
    assert ':' !in host;
    SplitWithout(host, ':');
  }

  // ----- pickRelevantFiles: the two path patterns -----

  /** A character of `[\w-]`. */
  predicate IsNameChar(c: char) { IsWordChar(c) || c == '-' }

  /** A character of `[\w.-]`. */
  predicate IsSegmentChar(c: char) { IsWordChar(c) || c == '.' || c == '-' }

  /** A character of `[\w\/-]`. */
  predicate IsSourcePathChar(c: char) { IsWordChar(c) || c == '/' || c == '-' }

  /** The alternatives after the dot of a mentioned path, in the pattern's order. */
  const MentionExtensions: seq<string> := ["ts", "tsx", "js", "jsx", "css", "json", "py"]

  /** The alternatives after the dot of a source path in a stack trace, in the pattern's order. */
  const StackExtensions: seq<string> := ["tsx", "ts", "jsx", "js", "css", "json"]

  /** The end of the first alternative of `exts` that occurs at `i`. */
  function FirstAlternative(s: string, i: nat, exts: seq<string>): (r: Option<nat>)
    ensures r.Some? ==> i <= r.value <= |s|
  {
    if exts == [] then None
    else if HasAt(s, i, exts[0]) then Some(i + |exts[0]|)
    else FirstAlternative(s, i, exts[1..])
  }

  // The path pattern `[\w-]+\/(?:[\w.-]+\/)*[\w.-]+\.(?:ts|tsx|js|jsx|css|json|py)`. Each run
  // that must be followed by `/` can only succeed at its longest, since a shorter run is
  // followed by a character of the run; so the engine's choices are how many directories
  // the starred group takes (most first) and where the last run ends (latest first).

  /** `[\w.-]+\.(ext)` from `p`, the run ending at `j` or earlier, latest first. */
  function LastPart(s: string, p: nat, j: nat): (r: Option<nat>)
    requires p <= j <= |s|
    ensures r.Some? ==> p < r.value <= |s|
    decreases j
  {
    if j == p then None
    else if j < |s| && s[j] == '.' && FirstAlternative(s, j + 1, MentionExtensions).Some? then
      FirstAlternative(s, j + 1, MentionExtensions)
    else LastPart(s, p, j - 1)
  }

  /** `(?:[\w.-]+\/)*` from `p` and then the last part: one more directory first. */
  function Directories(s: string, p: nat): (r: Option<nat>)
    requires p <= |s|
    ensures r.Some? ==> p < r.value <= |s|
    decreases |s| - p
  {
    var e := RunEnd(s, p, IsSegmentChar);
    var deeper := if e > p && e < |s| && s[e] == '/' then Directories(s, e + 1) else None;
    if deeper.Some? then deeper else LastPart(s, p, e)
  }

  /** The end of a path mention starting at `st`. */
  function MentionAt(s: string, st: nat): (r: Option<nat>)
    requires st <= |s|
    ensures r.Some? ==> st < r.value <= |s|
  {
    var e := RunEnd(s, st, IsNameChar);
    if e > st && e < |s| && s[e] == '/' then Directories(s, e + 1) else None
  }

  // The stack-trace pattern `(frontend|backend)?\/?src\/[\w\/-]+\.(tsx|ts|jsx|js|css|json)`.
  // Its run holds no dot, so only the longest run can be followed by `.`; the engine's
  // choices are the optional group (`frontend`, then `backend`, then none) and the optional
  // slash (taken first).

  /** `src\/[\w\/-]+\.(ext)` from `p`. */
  function SourceFileAt(s: string, p: nat): (r: Option<nat>)
    requires p <= |s|
    ensures r.Some? ==> p < r.value <= |s|
  {
    if !HasAt(s, p, "src/") then None
    else
      var e := RunEnd(s, p + 4, IsSourcePathChar);
      if e > p + 4 && e < |s| && s[e] == '.' then FirstAlternative(s, e + 1, StackExtensions) else None
  }

  /** `\/?` and the rest from `p`: with the slash first. */
  function AfterGroup(s: string, p: nat): (r: Option<nat>)
    requires p <= |s|
    ensures r.Some? ==> p < r.value <= |s|
  {
    var slashed := if p < |s| && s[p] == '/' then SourceFileAt(s, p + 1) else None;
    if slashed.Some? then slashed else SourceFileAt(s, p)
  }

  /** The end of a stack-trace path starting at `st`. */
  function StackPathAt(s: string, st: nat): (r: Option<nat>)
    requires st <= |s|
    ensures r.Some? ==> st < r.value <= |s|
  {
    var fe := if HasAt(s, st, "frontend") then AfterGroup(s, st + 8) else None;
    var be := if HasAt(s, st, "backend") then AfterGroup(s, st + 7) else None;
    if fe.Some? then fe else if be.Some? then be else AfterGroup(s, st)
  }

  // ----- pickRelevantFiles: matching -----

  datatype Pattern = PathMention | StackPath

  function PatternAt(pat: Pattern, s: string, st: nat): (r: Option<nat>)
    requires st <= |s|
    ensures r.Some? ==> st < r.value <= |s|
  {
    match pat
    case PathMention => MentionAt(s, st)
    case StackPath => StackPathAt(s, st)
  }

  /** `exec` from `from`: the leftmost start at which the pattern matches, and the end. */
  function NextMatch(pat: Pattern, s: string, from: nat): (r: Option<(nat, nat)>)
    requires from <= |s|
    ensures r.Some? ==> from <= r.value.0 < r.value.1 <= |s| && PatternAt(pat, s, r.value.0) == Some(r.value.1)
    decreases |s| - from
  {
    match PatternAt(pat, s, from)
    case Some(e) => Some((from, e))
    case None => if from == |s| then None else NextMatch(pat, s, from + 1)
  }

  /** `text.match(re) || []` for the global pattern: the texts of the successive matches. */
  function MatchAll(pat: Pattern, s: string, from: nat): seq<string>
    requires from <= |s|
    decreases |s| - from
  {
    match NextMatch(pat, s, from)
    case None => []
    case Some(m) => [s[m.0..m.1]] + MatchAll(pat, s, m.1)
  }

  /** Every match text is a slice of `s` at which the pattern matches, ending there. */
  lemma {:induction false} MatchAllSlices(pat: Pattern, s: string, from: nat, k: nat)
    requires from <= |s| && k < |MatchAll(pat, s, from)|
    ensures exists a, b :: from <= a < b <= |s| && MatchAll(pat, s, from)[k] == s[a..b] && PatternAt(pat, s, a) == Some(b)
    decreases |s| - from
  {
    var m := NextMatch(pat, s, from).value;
    if k > 0 {
      MatchAllSlices(pat, s, m.1, k - 1);
      var a, b :| m.1 <= a < b <= |s| && MatchAll(pat, s, m.1)[k - 1] == s[a..b] && PatternAt(pat, s, a) == Some(b);
      assert MatchAll(pat, s, from)[k] == MatchAll(pat, s, m.1)[k - 1];
    } else {
      assert MatchAll(pat, s, from)[0] == s[m.0..m.1];
    }
  }

  /** `exec` from `from` finds the leftmost start at which the pattern matches. */
  lemma {:induction false} NextMatchIsLeftmost(pat: Pattern, s: string, from: nat)
    requires from <= |s|
    ensures LeftmostMatch(pat, s, from, NextMatch(pat, s, from))
    decreases |s| - from
  {
    if PatternAt(pat, s, from).None? && from < |s| {
      NextMatchIsLeftmost(pat, s, from + 1);
      LeftmostMatchStep(pat, s, from, NextMatch(pat, s, from + 1));
    }
  }

  /** `r` gives the leftmost start from `from` on where the pattern matches, and the end of
      that match; `None` when it matches nowhere from there. */
  predicate LeftmostMatch(pat: Pattern, s: string, from: nat, r: Option<(nat, nat)>)
    requires from <= |s|
  {
    && (r.Some? ==> r.value.0 <= |s| && PatternAt(pat, s, r.value.0) == Some(r.value.1))
    && (forall st :: from <= st <= |s| && (r.None? || st < r.value.0) ==> PatternAt(pat, s, st).None?)
  }

  /** Skipping a start where the pattern does not match keeps the search leftmost. */
  lemma LeftmostMatchStep(pat: Pattern, s: string, from: nat, r: Option<(nat, nat)>)
    requires from < |s| && PatternAt(pat, s, from).None? && LeftmostMatch(pat, s, from + 1, r)
    requires r.Some? ==> from + 1 <= r.value.0
    ensures LeftmostMatch(pat, s, from, r)
  {
  }

  // ----- what the path patterns accept -----

  /** A mention of a file in a directory, `dir/name.ext`. */
  function MentionText(dir: string, name: string, ext: string): string {
    dir + "/" + name + "." + ext
  }

  /** Text of `[\w-]+`. */
  predicate IsNameText(x: string) {
    x != [] && forall u :: 0 <= u < |x| ==> IsNameChar(x[u])
  }

  /** The alternative the mention pattern takes for a written extension: the first of
      `ts|tsx|js|jsx|css|json|py` the extension starts with. */
  function MentionedExtension(ext: string): string {
    if ext == "tsx" then "ts" else if ext == "jsx" || ext == "json" then "js" else ext
  }

  /** No word character follows at `k`. */
  predicate EndsWord(s: string, k: nat) {
    k >= |s| || !IsWordChar(s[k])
  }

  /** The text at `k` cannot carry the path further: no `[\w.-]` and no `/`. */
  predicate EndsPath(s: string, k: nat) {
    k >= |s| || (!IsSegmentChar(s[k]) && s[k] != '/')
  }

  /** A `dir/name.ext` mention matches where it starts, up to the extension the pattern
      takes: `src/App.tsx` gives `src/App.ts` and `data/x.json` gives `data/x.js`. */
  lemma MentionAtText(s: string, st: nat, dir: string, name: string, ext: string)
    requires IsNameText(dir) && IsNameText(name) && ext in MentionExtensions
    requires HasAt(s, st, MentionText(dir, name, ext)) && EndsPath(s, st + |MentionText(dir, name, ext)|)
    ensures MentionAt(s, st) == Some(st + |MentionText(dir, name, MentionedExtension(ext))|)
  {
    var e := st + |dir|;
    var p := e + 1;
    var d := p + |name|;
    var i := d + 1;
    var k := i + |ext|;
    var r := i + |MentionedExtension(ext)|;
    MentionLaid(s, st, e, p, d, i, k, dir, name, ext);
    FirstMentionAlternative(s, i, r, ext);
    LastPartAtDot(s, p, d, i, k);
    MentionFound(s, st, e, p, k, r);
    MentionEnds(s, st, dir, name, ext, r);
  }

  /** The runs the mention pattern makes over a mention at `st`. */
  lemma MentionLaid(s: string, st: nat, e: nat, p: nat, d: nat, i: nat, k: nat, dir: string, name: string, ext: string)
    requires IsNameText(dir) && IsNameText(name) && ext in MentionExtensions
    requires HasAt(s, st, MentionText(dir, name, ext)) && EndsPath(s, st + |MentionText(dir, name, ext)|)
    requires e == st + |dir| && p == e + 1 && d == p + |name| && i == d + 1 && k == i + |ext|
    ensures st < e < |s| && RunsTo(s, st, IsNameChar, e) && s[e] == '/' && HasAt(s, i, ext)
    ensures p < d < k <= |s| && RunsTo(s, p, IsSegmentChar, k) && (k == |s| || s[k] != '/')
    ensures s[d] == '.' && (forall u :: d < u < k ==> s[u] != '.') && (k == |s| || s[k] != '.')
  {
    MentionParts(s, st, e, p, d, i, dir, name, ext);
    RunsOver(s, st, e, dir, IsNameChar);
    SegmentRun(s, p, d, i, k, name, ext);
  }

  lemma MentionEnds(s: string, st: nat, dir: string, name: string, ext: string, r: nat)
    requires st <= |s| && MentionAt(s, st) == Some(r)
    requires r == st + |dir| + |name| + 2 + |MentionedExtension(ext)|
    ensures MentionAt(s, st) == Some(st + |MentionText(dir, name, MentionedExtension(ext))|)
  {
  }

  /** The parts of a mention at `st`: the slash at `e`, the name from `p`, the dot at `d` and
      the extension from `i`. */
  lemma MentionParts(s: string, st: nat, e: nat, p: nat, d: nat, i: nat, dir: string, name: string, ext: string)
    requires HasAt(s, st, MentionText(dir, name, ext))
    requires e == st + |dir| && p == e + 1 && d == p + |name| && i == d + 1
    ensures HasAt(s, st, dir) && e < |s| && s[e] == '/' && HasAt(s, p, name)
    ensures d < |s| && s[d] == '.' && HasAt(s, i, ext)
  {
    HasAtSplit(s, st, i, dir + "/" + name + ".", ext);
    HasAtSplit(s, st, d, dir + "/" + name, ".");
    HasAtSplit(s, st, p, dir + "/", name);
    HasAtSplit(s, st, e, dir, "/");
    CharOf(s, e, "/", 0);
    CharOf(s, d, ".", 0);
  }

  /** `[\w.-]+` from the name runs over `name.ext` and no further; the only dot in it is the
      one at `d`. */
  lemma SegmentRun(s: string, p: nat, d: nat, i: nat, k: nat, name: string, ext: string)
    requires IsNameText(name) && ext in MentionExtensions && HasAt(s, p, name) && HasAt(s, i, ext)
    requires d == p + |name| && i == d + 1 && k == i + |ext| && d < |s| && s[d] == '.' && EndsPath(s, k)
    ensures d < k <= |s| && RunsTo(s, p, IsSegmentChar, k) && (k == |s| || s[k] != '/')
    ensures forall u :: d < u < k ==> s[u] != '.'
    ensures k == |s| || s[k] != '.'
  {
    forall u | p <= u < k ensures IsSegmentChar(s[u]) && (d < u ==> s[u] != '.') {
      if u < d {
        CharOf(s, p, name, u - p);
      } else if d < u {
        CharOf(s, i, ext, u - i);
      }
    }
    RunEndAt(s, p, k, IsSegmentChar);
  }

  /** The extensions' first alternative: `tsx` is taken as `ts`, `jsx` and `json` as `js`. */
  lemma FirstMentionAlternative(s: string, i: nat, r: nat, ext: string)
    requires ext in MentionExtensions && HasAt(s, i, ext) && r == i + |MentionedExtension(ext)|
    ensures FirstAlternative(s, i, MentionExtensions) == Some(r)
  {
    if ext == "ts" || ext == "tsx" {
      MentionTsFamily(s, i, r, ext);
    } else if ext == "js" || ext == "jsx" || ext == "json" {
      MentionJsFamily(s, i, r, ext);
    } else {
      MentionCssOrPy(s, i, r, ext);
    }
  }

  lemma MentionTsFamily(s: string, i: nat, r: nat, ext: string)
    requires (ext == "ts" || ext == "tsx") && HasAt(s, i, ext) && r == i + |MentionedExtension(ext)|
    ensures FirstAlternative(s, i, MentionExtensions) == Some(r)
  {
    HeadAt(s, i, ext, "ts");
    FirstAlternativeAt(s, i, MentionExtensions, 0);
  }

  lemma MentionJsFamily(s: string, i: nat, r: nat, ext: string)
    requires (ext == "js" || ext == "jsx" || ext == "json") && HasAt(s, i, ext) && r == i + |MentionedExtension(ext)|
    ensures FirstAlternative(s, i, MentionExtensions) == Some(r)
  {
    HeadAt(s, i, ext, "js");
    MentionJs(s, i);
  }

  lemma MentionCssOrPy(s: string, i: nat, r: nat, ext: string)
    requires (ext == "css" || ext == "py") && HasAt(s, i, ext) && r == i + |MentionedExtension(ext)|
    ensures FirstAlternative(s, i, MentionExtensions) == Some(r)
  {
    if ext == "css" {
      MentionCss(s, i);
    } else {
      MentionPy(s, i);
    }
  }

  /** Text found at `i` has its first characters there too. */
  lemma HeadAt(s: string, i: nat, ext: string, head: string)
    requires HasAt(s, i, ext) && |head| <= |ext| && ext[..|head|] == head
    ensures HasAt(s, i, head)
  {
    SubSlice(s, i, ext, 0, |head|);
    assert ext[0..|head|] == ext[..|head|];
  }

  lemma MentionJs(s: string, i: nat)
    requires HasAt(s, i, "js")
    ensures FirstAlternative(s, i, MentionExtensions) == Some(i + 2)
  {
    CharOf(s, i, "js", 0);
    NotAtChar(s, i, "ts", 0);
    NotAtChar(s, i, "tsx", 0);
    FirstAlternativeAt(s, i, MentionExtensions, 2);
  }

  lemma MentionCss(s: string, i: nat)
    requires HasAt(s, i, "css")
    ensures FirstAlternative(s, i, MentionExtensions) == Some(i + 3)
  {
    CharOf(s, i, "css", 0);
    NotAtChar(s, i, "ts", 0);
    NotAtChar(s, i, "tsx", 0);
    NotAtChar(s, i, "js", 0);
    NotAtChar(s, i, "jsx", 0);
    FirstAlternativeAt(s, i, MentionExtensions, 4);
  }

  lemma MentionPy(s: string, i: nat)
    requires HasAt(s, i, "py")
    ensures FirstAlternative(s, i, MentionExtensions) == Some(i + 2)
  {
    CharOf(s, i, "py", 0);
    NotAtChar(s, i, "ts", 0);
    NotAtChar(s, i, "tsx", 0);
    NotAtChar(s, i, "js", 0);
    NotAtChar(s, i, "jsx", 0);
    NotAtChar(s, i, "css", 0);
    NotAtChar(s, i, "json", 0);
    FirstAlternativeAt(s, i, MentionExtensions, 6);
  }

  /** The first alternative that occurs is the one at index `n` when none before it does. */
  lemma {:induction false} FirstAlternativeAt(s: string, i: nat, exts: seq<string>, n: nat)
    requires n < |exts| && HasAt(s, i, exts[n])
    requires forall j :: 0 <= j < n ==> !HasAt(s, i, exts[j])
    ensures FirstAlternative(s, i, exts) == Some(i + |exts[n]|)
    decreases n
  {
    if n > 0 {
      FirstAlternativeAt(s, i, exts[1..], n - 1);
    }
  }

  /** Text whose `c`-th character differs from the one in `s` does not occur there. */
  lemma NotAtChar(s: string, i: nat, alt: string, c: nat)
    requires c < |alt| && (i + c >= |s| || s[i + c] != alt[c])
    ensures !HasAt(s, i, alt)
  {
    assert i + |alt| > |s| || s[i..i + |alt|][c] == s[i + c];
  }

  /** `[\w.-]+\.(ext)` with the run given back, latest end first, down to the dot at `d`. */
  lemma {:induction false} LastPartAtDot(s: string, p: nat, d: nat, i: nat, j: nat)
    requires p < d < j <= |s| && s[d] == '.' && i == d + 1 && FirstAlternative(s, i, MentionExtensions).Some?
    requires forall u :: d < u < j ==> s[u] != '.'
    requires j == |s| || s[j] != '.'
    ensures LastPart(s, p, j) == FirstAlternative(s, i, MentionExtensions)
    decreases j
  {
    if d < j - 1 {
      LastPartAtDot(s, p, d, i, j - 1);
    } else {
      assert LastPart(s, p, d) == FirstAlternative(s, i, MentionExtensions);
    }
  }

  lemma MentionFound(s: string, st: nat, e: nat, p: nat, k: nat, r: nat)
    requires st < e < |s| && RunsTo(s, st, IsNameChar, e) && s[e] == '/' && p == e + 1
    requires p < k <= |s| && RunsTo(s, p, IsSegmentChar, k) && (k == |s| || s[k] != '/')
    requires LastPart(s, p, k) == Some(r)
    ensures MentionAt(s, st) == Some(r)
  {
    assert Directories(s, p) == Some(r);
  }

  /** `src/` and a path of `[\w\/-]` with an extension, as a stack trace prints it. */
  function SourceText(path: string, ext: string): string {
    "src/" + path + "." + ext
  }

  /** Text of `[\w\/-]+`. */
  predicate IsSourcePath(path: string) {
    path != [] && forall u :: 0 <= u < |path| ==> IsSourcePathChar(path[u])
  }

  /** The alternative the stack pattern takes for a written extension: the first of
      `tsx|ts|jsx|js|css|json` the extension starts with. */
  function StackedExtension(ext: string): string {
    if ext == "json" then "js" else ext
  }

  /** A source path in a stack trace, bare or after `frontend/` or `backend/` and followed by
      no word character, matches where it starts, up to the extension the pattern takes. */
  lemma StackPathAtText(s: string, st: nat, group: string, path: string, ext: string)
    requires (group == "" || group == "frontend/" || group == "backend/")
    requires IsSourcePath(path) && ext in StackExtensions
    requires HasAt(s, st, group + SourceText(path, ext)) && EndsWord(s, st + |group| + |SourceText(path, ext)|)
    ensures StackPathAt(s, st) == Some(st + |group| + |SourceText(path, StackedExtension(ext))|)
  {
    var p := st + |group|;
    var r := p + |SourceText(path, StackedExtension(ext))|;
    GroupParts(s, st, p, group, path, ext);
    SourceFileAtText(s, p, r, path, ext);
    StackFromSource(s, st, p, r, group);
    StackEnds(s, st, group, path, ext, r);
  }

  lemma StackEnds(s: string, st: nat, group: string, path: string, ext: string, r: nat)
    requires st <= |s| && StackPathAt(s, st) == Some(r)
    requires r == st + |group| + |SourceText(path, StackedExtension(ext))|
    ensures StackPathAt(s, st) == Some(st + |group| + |SourceText(path, StackedExtension(ext))|)
  {
  }

  /** The group at `st`, and the source path after it at `p`. */
  lemma GroupParts(s: string, st: nat, p: nat, group: string, path: string, ext: string)
    requires HasAt(s, st, group + SourceText(path, ext)) && EndsWord(s, st + |group| + |SourceText(path, ext)|)
    requires p == st + |group|
    ensures HasAt(s, st, group) && HasAt(s, p, SourceText(path, ext)) && EndsWord(s, p + |SourceText(path, ext)|)
    ensures p < |s| && s[p] == 's'
  {
    HasAtSplit(s, st, p, group, SourceText(path, ext));
    CharOf(s, p, SourceText(path, ext), 0);
  }

  /** `(frontend|backend)?\/?` in front of the source path at `p`. */
  lemma StackFromSource(s: string, st: nat, p: nat, r: nat, group: string)
    requires (group == "" || group == "frontend/" || group == "backend/")
    requires HasAt(s, st, group) && p == st + |group| && p < |s| && s[p] == 's' && SourceFileAt(s, p) == Some(r)
    ensures StackPathAt(s, st) == Some(r)
  {
    if group == "" {
      AfterNoGroup(s, st);
    } else {
      var g := p - 1;
      CharOf(s, st, group, |group| - 1);
      AfterGroupSlash(s, g);
      GroupTaken(s, st, g, group);
    }
  }

  /** The group is taken as written: `frontend` is tried first, and `backend` does not start
      with its first letter. */
  lemma GroupTaken(s: string, st: nat, g: nat, group: string)
    requires (group == "frontend/" || group == "backend/") && HasAt(s, st, group) && g == st + |group| - 1
    requires AfterGroup(s, g).Some?
    ensures StackPathAt(s, st) == AfterGroup(s, g)
  {
    if group == "frontend/" {
      HeadAt(s, st, group, "frontend");
    } else {
      HeadAt(s, st, group, "backend");
      BackendTaken(s, st, g);
    }
  }

  lemma BackendTaken(s: string, st: nat, g: nat)
    requires HasAt(s, st, "backend") && g == st + 7 && AfterGroup(s, g).Some?
    ensures StackPathAt(s, st) == AfterGroup(s, g)
  {
    CharOf(s, st, "backend", 0);
    NotAtChar(s, st, "frontend", 0);
  }

  /** With no group and no slash, only the plain alternative is left. */
  lemma AfterNoGroup(s: string, st: nat)
    requires st < |s| && s[st] == 's' && SourceFileAt(s, st).Some?
    ensures StackPathAt(s, st) == SourceFileAt(s, st)
  {
    assert !HasAt(s, st, "frontend") by { if st + 8 <= |s| { assert s[st..st + 8][0] == s[st]; } }
    assert !HasAt(s, st, "backend") by { if st + 7 <= |s| { assert s[st..st + 7][0] == s[st]; } }
  }

  /** After the group, `\/?` takes the slash. */
  lemma AfterGroupSlash(s: string, g: nat)
    requires g < |s| && s[g] == '/' && SourceFileAt(s, g + 1).Some?
    ensures AfterGroup(s, g) == SourceFileAt(s, g + 1)
  {
  }

  /** `src\/[\w\/-]+\.(ext)` reads `src/path.ext` at `p`, up to the extension it takes. */
  lemma SourceFileAtText(s: string, p: nat, r: nat, path: string, ext: string)
    requires IsSourcePath(path) && ext in StackExtensions && HasAt(s, p, SourceText(path, ext))
    requires EndsWord(s, p + |SourceText(path, ext)|) && r == p + |SourceText(path, StackedExtension(ext))|
    ensures SourceFileAt(s, p) == Some(r)
  {
    var a := p + 4;
    var d := a + |path|;
    var i := d + 1;
    var k := i + |ext|;
    SourceParts(s, p, a, d, i, k, path, ext);
    FirstStackAlternative(s, i, k, r, ext);
    SourceFound(s, p, a, d, i, r);
  }

  /** The run `[\w\/-]+` over the path stops at the dot at `d`; the extension is at `i`. */
  lemma SourceParts(s: string, p: nat, a: nat, d: nat, i: nat, k: nat, path: string, ext: string)
    requires IsSourcePath(path) && HasAt(s, p, SourceText(path, ext)) && EndsWord(s, p + |SourceText(path, ext)|)
    requires a == p + 4 && d == a + |path| && i == d + 1 && k == i + |ext|
    ensures HasAt(s, p, "src/") && a < d < |s| && RunsTo(s, a, IsSourcePathChar, d) && s[d] == '.'
    ensures HasAt(s, i, ext) && EndsWord(s, k)
  {
    HasAtSplit(s, p, i, "src/" + path + ".", ext);
    HasAtSplit(s, p, d, "src/" + path, ".");
    HasAtSplit(s, p, a, "src/", path);
    CharOf(s, d, ".", 0);
    RunsOver(s, a, d, path, IsSourcePathChar);
  }

  lemma SourceFound(s: string, p: nat, a: nat, d: nat, i: nat, r: nat)
    requires HasAt(s, p, "src/") && a == p + 4 && a < d < |s| && RunsTo(s, a, IsSourcePathChar, d)
    requires s[d] == '.' && i == d + 1 && FirstAlternative(s, i, StackExtensions) == Some(r)
    ensures SourceFileAt(s, p) == Some(r)
  {
  }

  /** The stack extensions' first alternative: `json` is taken as `js`; `ts` and `js` are
      taken as written when no `x` follows. */
  lemma FirstStackAlternative(s: string, i: nat, k: nat, r: nat, ext: string)
    requires ext in StackExtensions && HasAt(s, i, ext) && k == i + |ext| && EndsWord(s, k)
    requires r == i + |StackedExtension(ext)|
    ensures FirstAlternative(s, i, StackExtensions) == Some(r)
  {
    if ext == "tsx" {
      FirstAlternativeAt(s, i, StackExtensions, 0);
    } else if ext == "ts" {
      StackTs(s, i, k);
    } else if ext == "jsx" {
      StackJsx(s, i);
    } else if ext == "js" {
      StackJs(s, i, k);
    } else if ext == "css" {
      StackCss(s, i);
    } else {
      StackJson(s, i);
    }
  }

  lemma StackTs(s: string, i: nat, k: nat)
    requires HasAt(s, i, "ts") && k == i + 2 && EndsWord(s, k)
    ensures FirstAlternative(s, i, StackExtensions) == Some(i + 2)
  {
    NotAtChar(s, i, "tsx", 2);
    FirstAlternativeAt(s, i, StackExtensions, 1);
  }

  lemma StackJsx(s: string, i: nat)
    requires HasAt(s, i, "jsx")
    ensures FirstAlternative(s, i, StackExtensions) == Some(i + 3)
  {
    CharOf(s, i, "jsx", 0);
    NotAtChar(s, i, "tsx", 0);
    NotAtChar(s, i, "ts", 0);
    FirstAlternativeAt(s, i, StackExtensions, 2);
  }

  lemma StackJs(s: string, i: nat, k: nat)
    requires HasAt(s, i, "js") && k == i + 2 && EndsWord(s, k)
    ensures FirstAlternative(s, i, StackExtensions) == Some(i + 2)
  {
    CharOf(s, i, "js", 0);
    NotAtChar(s, i, "tsx", 0);
    NotAtChar(s, i, "ts", 0);
    NotAtChar(s, i, "jsx", 2);
    FirstAlternativeAt(s, i, StackExtensions, 3);
  }

  lemma StackCss(s: string, i: nat)
    requires HasAt(s, i, "css")
    ensures FirstAlternative(s, i, StackExtensions) == Some(i + 3)
  {
    CharOf(s, i, "css", 0);
    NotAtChar(s, i, "tsx", 0);
    NotAtChar(s, i, "ts", 0);
    NotAtChar(s, i, "jsx", 0);
    NotAtChar(s, i, "js", 0);
    FirstAlternativeAt(s, i, StackExtensions, 4);
  }

  lemma StackJson(s: string, i: nat)
    requires HasAt(s, i, "json")
    ensures FirstAlternative(s, i, StackExtensions) == Some(i + 2)
  {
    CharOf(s, i, "json", 0);
    CharOf(s, i, "json", 2);
    HeadAt(s, i, "json", "js");
    NotAtChar(s, i, "tsx", 0);
    NotAtChar(s, i, "ts", 0);
    NotAtChar(s, i, "jsx", 2);
    FirstAlternativeAt(s, i, StackExtensions, 3);
  }

  /** `m.replace(/^\.\//, '').replace(/^\/(frontend|backend)\//, '')`. */
  function Normalize(m: string): string {
    var a := if StartsWith(m, "./") then m[2..] else m;
    if StartsWith(a, "/frontend/") then a[10..] else if StartsWith(a, "/backend/") then a[9..] else a
  }

  /** Text starting with a name character is left alone by both replacements. */
  lemma NormalizeKeepsNames(m: string)
    requires m != [] && IsNameChar(m[0])
    ensures Normalize(m) == m
  {
    assert !StartsWith(m, "./") by {
      if |m| >= 2 { assert m[..2][0] == m[0]; }
    }
    assert !StartsWith(m, "/frontend/") by {
      if |m| >= 10 { assert m[..10][0] == m[0]; }
    }
    assert !StartsWith(m, "/backend/") by {
      if |m| >= 9 { assert m[..9][0] == m[0]; }
    }
  }

  /** A path mention starts with a character of `[\w-]`. */
  lemma MentionStartsWithName(s: string, k: nat)
    requires k < |MatchAll(PathMention, s, 0)|
    ensures var m := MatchAll(PathMention, s, 0)[k]; m != [] && IsNameChar(m[0])
  {
    MatchAllSlices(PathMention, s, 0, k);
    var a, b :| 0 <= a < b <= |s| && MatchAll(PathMention, s, 0)[k] == s[a..b] && PatternAt(PathMention, s, a) == Some(b);
    RunEndSpec(s, a, IsNameChar);
  }

  /** So neither replacement applies to a mention: normalising one never changes it. */
  lemma NormalizeKeepsMentions(s: string, k: nat)
    requires k < |MatchAll(PathMention, s, 0)|
    ensures Normalize(MatchAll(PathMention, s, 0)[k]) == MatchAll(PathMention, s, 0)[k]
  {
    MentionStartsWithName(s, k);
    NormalizeKeepsNames(MatchAll(PathMention, s, 0)[k]);
  }

  // ----- pickRelevantFiles: scores -----

  datatype ProjectFile = ProjectFile(path: string, content: string)

  function PathOf(f: ProjectFile): string { f.path }

  /** `${instructions || ''}\n\n${error || ''}`.toLowerCase() */
  function RequestText(instructions: string, error: string): string {
    Lower(instructions + "\n\n" + error)
  }

  predicate ContainsAny(s: string, words: seq<string>) {
    exists i :: 0 <= i < |words| && Contains(s, words[i])
  }

  predicate EndsWithAny(s: string, ends: seq<string>) {
    exists i :: 0 <= i < |ends| && EndsWith(s, ends[i])
  }

  const CssWords: seq<string> := ["color", "background", "shadow", "border", "font", "spacing", "theme", "dark", "light", "tailwind", "css"]
  const FrontendWords: seq<string> := ["component", "react", "tsx", "jsx", "ui", "button", "page", "layout", "frontend"]
  const BackendWords: seq<string> := ["backend", "api", "server", "express", "python", "fastapi", "main.py"]

  /** Which kinds of change the request text hints at. */
  datatype Cues = Cues(css: bool, frontend: bool, backend: bool)

  // A case-insensitive test of a lower-case ASCII word matches exactly where the text with
  // its ASCII letters lowered contains the word: without the `u` flag, no character outside
  // ASCII is folded onto an ASCII one.

  function CuesOf(text: string): Cues {
    Cues(ContainsAny(Lower(text), CssWords), ContainsAny(Lower(text), FrontendWords), ContainsAny(Lower(text), BackendWords))
  }

  /** What the request text gives for scoring: its cues, the normalised path mentions and the
      stack-trace paths. */
  datatype Signals = Signals(cues: Cues, mentions: seq<string>, stackPaths: seq<string>)

  function SignalsOf(text: string): Signals {
    var mentions := MatchAll(PathMention, text, 0);
    Signals(CuesOf(text), seq(|mentions|, i requires 0 <= i < |mentions| => Normalize(mentions[i])), MatchAll(StackPath, text, 0))
  }

  /** A style sheet: `/\.(css)$/` or `/globals?\.css|index\.css|app\.css/i`. */
  predicate IsStyleFile(path: string) {
    EndsWith(path, ".css") || ContainsAny(Lower(path), ["global.css", "globals.css", "index.css", "app.css"])
  }

  /** `/frontend\//i` or `/\.(tsx|jsx|ts|js|css)$/`. */
  predicate IsFrontendFile(path: string) {
    Contains(Lower(path), "frontend/") || EndsWithAny(path, [".tsx", ".jsx", ".ts", ".js", ".css"])
  }

  /** `/backend\//i` or `/main\.py$/i`. */
  predicate IsBackendFile(path: string) {
    Contains(Lower(path), "backend/") || EndsWith(Lower(path), "main.py")
  }

  const EntryNames: seq<string> := ["App.tsx", "App.jsx", "index.tsx", "index.jsx", "main.tsx", "index.css"]

  /** How many of `needles`, lowercased, occur in the lowercased path. */
  function Hits(path: string, needles: seq<string>): nat {
    if needles == [] then 0
    else (if Contains(Lower(path), Lower(needles[0])) then 1 else 0) + Hits(path, needles[1..])
  }

  /** What one file with this path adds to its path's score: 10 per mention it contains, 5 for
      a style sheet under a styling cue, 2 for a frontend or a backend file under the matching
      cue, 8 per stack-trace path it contains, 1 for an entry point. */
  function FileScore(path: string, sig: Signals): nat {
    10 * Hits(path, sig.mentions)
    + (if sig.cues.css && IsStyleFile(path) then 5 else 0)
    + (if sig.cues.frontend && IsFrontendFile(path) then 2 else 0)
    + (if sig.cues.backend && IsBackendFile(path) then 2 else 0)
    + 8 * Hits(path, sig.stackPaths)
    + (if EndsWithAny(path, EntryNames) then 1 else 0)
  }

  /** `score.get(p) || 0`: every file with path `p` adds its bumps. */
  function Score(files: seq<ProjectFile>, sig: Signals, p: string): nat {
    if files == [] then 0
    else Score(files[..|files| - 1], sig, p) + (if files[|files| - 1].path == p then FileScore(p, sig) else 0)
  }

  /** A path scores only when some file has it. */
  lemma {:induction false} ScoreOfAbsentPath(files: seq<ProjectFile>, sig: Signals, p: string)
    requires forall i :: 0 <= i < |files| ==> files[i].path != p
    ensures Score(files, sig, p) == 0
  {
    if files != [] {
      ScoreOfAbsentPath(files[..|files| - 1], sig, p);
    }
  }

  // ----- pickRelevantFiles: ranking -----

  function Min(a: nat, b: nat): nat { if a <= b then a else b }

  /** `score.get(p) || 0` on the map the bumps build. */
  function Get(score: map<string, nat>, p: string): nat { if p in score then score[p] else 0 }

  /** `[...files].map(f => ({ f, s: score.get(f.path) || 0 }))` */
  function Ranked(files: seq<ProjectFile>, sig: Signals): (r: seq<(ProjectFile, nat)>)
    ensures |r| == |files|
  {
    seq(|files|, i requires 0 <= i < |files| => (files[i], Score(files, sig, files[i].path)))
  }

  /** `(a, b) => b.s - a.s`: `a` may stay before `b` when its score is not lower. */
  const HigherFirst: ((ProjectFile, nat), (ProjectFile, nat)) -> bool :=
    (a: (ProjectFile, nat), b: (ProjectFile, nat)) => a.1 >= b.1

  /** `.map(x => x.f)` */
  function Firsts(r: seq<(ProjectFile, nat)>): (fs: seq<ProjectFile>)
    ensures |fs| == |r|
    ensures forall i :: 0 <= i < |r| ==> fs[i] == r[i].0
  {
    seq(|r|, i requires 0 <= i < |r| => r[i].0)
  }

  /** The files with their scores, highest first, ties in input order. */
  function ByScore(files: seq<ProjectFile>, sig: Signals): (r: seq<(ProjectFile, nat)>)
    ensures |r| == |files|
  {
    Sorting.Sort(Ranked(files, sig), HigherFirst)
  }

  /** Every ranked pair is a file of the input with its own score. */
  lemma ByScorePairs(files: seq<ProjectFile>, sig: Signals, k: nat)
    requires k < |files|
    ensures ByScore(files, sig)[k].0 in files
    ensures ByScore(files, sig)[k].1 == Score(files, sig, ByScore(files, sig)[k].0.path)
  {
    var r := Ranked(files, sig);
    var x := ByScore(files, sig)[k];
    assert x in multiset(ByScore(files, sig));
    assert x in multiset(r);
    var i :| 0 <= i < |r| && r[i] == x;
  }

  /** Every input file is ranked. */
  lemma FileRanked(files: seq<ProjectFile>, sig: Signals, i: nat)
    requires i < |files|
    ensures exists k :: 0 <= k < |files| && ByScore(files, sig)[k] == Ranked(files, sig)[i]
  {
    var x := Ranked(files, sig)[i];
    assert x in multiset(Ranked(files, sig));
    assert x in multiset(ByScore(files, sig));
  }

  const FallbackNames: seq<string> := ["App.tsx", "App.jsx", "index.tsx", "index.jsx", "index.css"]

  /** `/App\.(tsx|jsx)$/` or `/index\.(tsx|jsx|css)$/`. */
  predicate IsFallbackFile(f: ProjectFile) {
    EndsWithAny(f.path, FallbackNames)
  }

  /** `sorted` after the fallback: the ranked files, or, when nothing scored, the entry
      points, or failing those the first `maxFiles` files. */
  function Candidates(files: seq<ProjectFile>, sig: Signals, maxFiles: nat): (r: seq<ProjectFile>)
    ensures forall i :: 0 <= i < |r| ==> r[i] in files
  {
    var sorted := ByScore(files, sig);
    if sorted == [] || Score(files, sig, sorted[0].0.path) == 0 then
      var fallback := Sorting.Filter(files, IsFallbackFile);
      if fallback != [] then fallback else files[..Min(|files|, maxFiles)]
    else
      var r := Firsts(sorted);
      assert forall i :: 0 <= i < |r| ==> r[i] in files by {
        forall i | 0 <= i < |r| ensures r[i] in files {
          ByScorePairs(files, sig, i);
        }
      }
      r
  }

  /** When no file scores, the entry points are the candidates, or else the first files. */
  lemma CandidatesWhenNothingScores(files: seq<ProjectFile>, sig: Signals, maxFiles: nat)
    requires forall i :: 0 <= i < |files| ==> Score(files, sig, files[i].path) == 0
    ensures var fallback := Sorting.Filter(files, IsFallbackFile);
      Candidates(files, sig, maxFiles) == if fallback != [] then fallback else files[..Min(|files|, maxFiles)]
  {
    var sorted := ByScore(files, sig);
    if sorted != [] {
      ByScorePairs(files, sig, 0);
    }
  }

  /** When some file scores, every file is a candidate exactly once per occurrence, ordered
      by descending score. */
  lemma CandidatesWhenSomethingScores(files: seq<ProjectFile>, sig: Signals, maxFiles: nat, i: nat)
    requires i < |files| && Score(files, sig, files[i].path) > 0
    ensures var c := Candidates(files, sig, maxFiles);
      |c| == |files|
      && (forall j :: 0 <= j < |files| ==> files[j] in c)
      && (forall a, b :: 0 <= a < b < |c| ==> Score(files, sig, c[a].path) >= Score(files, sig, c[b].path))
  {
    var sorted := ByScore(files, sig);
    assert Sorting.Preorder(HigherFirst);
    Sorting.SortSorted(Ranked(files, sig), HigherFirst);
    FileRanked(files, sig, i);
    var k :| 0 <= k < |files| && sorted[k] == Ranked(files, sig)[i];
    ByScorePairs(files, sig, 0);
    assert sorted[0].1 >= sorted[k].1;
    var c := Candidates(files, sig, maxFiles);
    assert c == Firsts(sorted);
    forall j | 0 <= j < |files| ensures files[j] in c {
      FileRanked(files, sig, j);
      var kj :| 0 <= kj < |files| && sorted[kj] == Ranked(files, sig)[j];
      assert c[kj] == files[j];
    }
    forall a, b | 0 <= a < b < |c| ensures Score(files, sig, c[a].path) >= Score(files, sig, c[b].path) {
      ByScorePairs(files, sig, a);
      ByScorePairs(files, sig, b);
    }
  }

  /** The sort is stable: files with the same score keep their input order. */
  lemma RankingStable(files: seq<ProjectFile>, sig: Signals, c: (ProjectFile, nat))
    ensures Sorting.Filter(ByScore(files, sig), y => Sorting.Tied(HigherFirst, y, c))
         == Sorting.Filter(Ranked(files, sig), y => Sorting.Tied(HigherFirst, y, c))
  {
    assert Sorting.Preorder(HigherFirst);
    Sorting.SortStable(Ranked(files, sig), HigherFirst, c);
  }

  // ----- pickRelevantFiles: picking -----

  /** `f.path.includes('/') ? f.path.substring(0, f.path.lastIndexOf('/')) : ''` */
  function Dir(path: string): string {
    if '/' in path then path[..LastSlash(path)] else []
  }

  /** `path.lastIndexOf('/')`, or -1 when there is no slash. */
  function LastSlash(path: string): (r: int)
    ensures -1 <= r < |path|
    ensures r >= 0 <==> '/' in path
    ensures r >= 0 ==> path[r] == '/' && '/' !in path[r + 1..]
  {
    if path == [] then -1
    else if path[|path| - 1] == '/' then |path| - 1
    else
      var init := path[..|path| - 1];
      assert path == init + [path[|path| - 1]];
      var r := LastSlash(init);
      assert r >= 0 ==> path[r + 1..] == init[r + 1..] + [path[|path| - 1]];
      r
  }

  /** `path.split('.').pop()`: the text after the last dot, or the whole path. */
  function Extension(path: string): string {
    LastSegment(path, '.')
  }

  /** `byDir.get(dir) || []` after the first `n` files are indexed: the files of folder
      `dir` among them, in input order. */
  function InDir(files: seq<ProjectFile>, n: nat, dir: string): seq<ProjectFile>
    requires n <= |files|
  {
    if n == 0 then []
    else InDir(files, n - 1, dir) + (if Dir(files[n - 1].path) == dir then [files[n - 1]] else [])
  }

  /** The folder's list holds just the files of that folder. */
  lemma {:induction false} InDirFiles(files: seq<ProjectFile>, n: nat, dir: string)
    requires n <= |files|
    ensures forall k :: 0 <= k < |InDir(files, n, dir)| ==> InDir(files, n, dir)[k] in files && Dir(InDir(files, n, dir)[k].path) == dir
  {
    if n > 0 {
      var r := InDir(files, n - 1, dir);
      var last := if Dir(files[n - 1].path) == dir then [files[n - 1]] else [];
      assert InDir(files, n, dir) == r + last;
      InDirFiles(files, n - 1, dir);
      forall k | 0 <= k < |r + last| ensures (r + last)[k] in files && Dir((r + last)[k].path) == dir {
        if k < |r| {
          assert (r + last)[k] == r[k];
        } else {
          assert (r + last)[k] == files[n - 1];
        }
      }
    }
  }

  /** `byDir.get(dir) || []` */
  function Listed(byDir: map<string, seq<ProjectFile>>, dir: string): seq<ProjectFile> {
    if dir in byDir then byDir[dir] else []
  }

  /** `s => s.path !== path` */
  function OtherThan(path: string): ProjectFile -> bool {
    (g: ProjectFile) => g.path != path
  }

  /** The other files in `f`'s folder. */
  function Siblings(files: seq<ProjectFile>, f: ProjectFile): (r: seq<ProjectFile>)
    ensures forall k :: 0 <= k < |r| ==> r[k] in files && r[k].path != f.path && Dir(r[k].path) == Dir(f.path)
  {
    var r := Sorting.Filter(InDir(files, |files|, Dir(f.path)), OtherThan(f.path));
    InDirFiles(files, |files|, Dir(f.path));
    assert forall k :: 0 <= k < |r| ==> OtherThan(f.path)(r[k]);
    r
  }

  /** The inner loop from sibling `j` on: a sibling is added when there is a styling cue or
      it has `ext`, until `maxFiles` files are picked. */
  function AddSiblings(sibs: seq<ProjectFile>, j: nat, ext: string, css: bool, maxFiles: nat, picked: seq<ProjectFile>): (r: seq<ProjectFile>)
    requires j <= |sibs|
    ensures |picked| <= |r| && r[..|picked|] == picked
    ensures |picked| <= maxFiles ==> |r| <= maxFiles
    ensures forall k :: |picked| <= k < |r| ==> r[k] in sibs && (css || Extension(r[k].path) == ext)
    decreases |sibs| - j
  {
    if j == |sibs| || |picked| >= maxFiles then picked
    else
      var next := if css || Extension(sibs[j].path) == ext then picked + [sibs[j]] else picked;
      var r := AddSiblings(sibs, j + 1, ext, css, maxFiles, next);
      SiblingStep(sibs, j, ext, css, picked, next, r);
      r
  }

  /** One sibling's step of `AddSiblings`, for its contract. */
  lemma SiblingStep(sibs: seq<ProjectFile>, j: nat, ext: string, css: bool, picked: seq<ProjectFile>,
                    next: seq<ProjectFile>, r: seq<ProjectFile>)
    requires j < |sibs|
    requires next == if css || Extension(sibs[j].path) == ext then picked + [sibs[j]] else picked
    requires |next| <= |r| && r[..|next|] == next
    requires forall k :: |next| <= k < |r| ==> r[k] in sibs && (css || Extension(r[k].path) == ext)
    ensures |picked| <= |r| && r[..|picked|] == picked
    ensures forall k :: |picked| <= k < |r| ==> r[k] in sibs && (css || Extension(r[k].path) == ext)
  {
    assert next[..|picked|] == picked;
    Extends(picked, next, r);
  }

  /** Extending an extension of `a` keeps `a` in front and the middle part in place. */
  lemma Extends(a: seq<ProjectFile>, b: seq<ProjectFile>, c: seq<ProjectFile>)
    requires |a| <= |b| <= |c| && b[..|a|] == a && c[..|b|] == b
    ensures c[..|a|] == a
    ensures forall i :: |a| <= i < |b| ==> c[i] == b[i]
  {
    assert c[..|a|] == c[..|b|][..|a|];
    forall i | |a| <= i < |b| ensures c[i] == b[i] {
      assert c[..|b|][i] == c[i];
    }
  }

  /** The outer loop from candidate `k` on: each candidate, while fewer than `maxFiles` are
      picked, is added with its allowed siblings. */
  function Pick(sorted: seq<ProjectFile>, k: nat, files: seq<ProjectFile>, css: bool, maxFiles: nat, picked: seq<ProjectFile>): (r: seq<ProjectFile>)
    requires k <= |sorted|
    ensures |picked| <= |r| && r[..|picked|] == picked
    ensures |picked| <= maxFiles ==> |r| <= maxFiles
    ensures forall i :: |picked| <= i < |r| ==> r[i] in sorted || r[i] in files
    ensures k < |sorted| && |picked| < maxFiles ==> |picked| < |r| && r[|picked|] == sorted[k]
    decreases |sorted| - k
  {
    if k == |sorted| || |picked| >= maxFiles then picked
    else
      var f := sorted[k];
      var head := picked + [f];
      var next := AddSiblings(Siblings(files, f), 0, Extension(f.path), css, maxFiles, head);
      var r := Pick(sorted, k + 1, files, css, maxFiles, next);
      PickStep(sorted, k, files, picked, head, next, r);
      r
  }

  /** One candidate's step of `Pick`, for its contract. */
  lemma PickStep(sorted: seq<ProjectFile>, k: nat, files: seq<ProjectFile>, picked: seq<ProjectFile>,
                 head: seq<ProjectFile>, next: seq<ProjectFile>, r: seq<ProjectFile>)
    requires k < |sorted| && head == picked + [sorted[k]]
    requires |head| <= |next| && next[..|head|] == head
    requires forall i :: |head| <= i < |next| ==> next[i] in files
    requires |next| <= |r| && r[..|next|] == next
    requires forall i :: |next| <= i < |r| ==> r[i] in sorted || r[i] in files
    ensures |picked| <= |r| && r[..|picked|] == picked
    ensures forall i :: |picked| <= i < |r| ==> r[i] in sorted || r[i] in files
    ensures |picked| < |r| && r[|picked|] == sorted[k]
  {
    assert head[..|picked|] == picked;
    Extends(picked, head, next);
    Extends(picked, next, r);
    Extends(head, next, r);
    assert r[|picked|] == next[|picked|] == head[|picked|];
  }

  /** `g` may ride along with candidate `sorted[j]`: another file of its folder, with its
      extension unless there is a styling cue. */
  predicate AllowedSibling(g: ProjectFile, sorted: seq<ProjectFile>, css: bool) {
    exists j :: 0 <= j < |sorted| && g.path != sorted[j].path && Dir(g.path) == Dir(sorted[j].path)
      && (css || Extension(g.path) == Extension(sorted[j].path))
  }

  /** `g` is a candidate or one of the files allowed along with one. */
  predicate PickedFrom(g: ProjectFile, sorted: seq<ProjectFile>, files: seq<ProjectFile>, css: bool) {
    g in sorted || (g in files && AllowedSibling(g, sorted, css))
  }

  /** Every pick after `picked` is a candidate or an allowed sibling of one. */
  lemma {:induction false} PickAllowed(sorted: seq<ProjectFile>, k: nat, files: seq<ProjectFile>, css: bool, maxFiles: nat,
                                       picked: seq<ProjectFile>, r: seq<ProjectFile>)
    requires k <= |sorted| && r == Pick(sorted, k, files, css, maxFiles, picked)
    ensures forall i :: |picked| <= i < |r| ==> PickedFrom(r[i], sorted, files, css)
    decreases |sorted| - k, 1
  {
    if k < |sorted| && |picked| < maxFiles {
      PickAllowedFrom(sorted, k, files, css, maxFiles, picked, r);
    } else {
      PickStops(sorted, k, files, css, maxFiles, picked);
    }
  }

  /** `PickAllowed` when candidate `sorted[k]` is taken. */
  lemma {:induction false} PickAllowedFrom(sorted: seq<ProjectFile>, k: nat, files: seq<ProjectFile>, css: bool, maxFiles: nat,
                                           picked: seq<ProjectFile>, r: seq<ProjectFile>)
    requires k < |sorted| && |picked| < maxFiles && r == Pick(sorted, k, files, css, maxFiles, picked)
    ensures forall i :: |picked| <= i < |r| ==> PickedFrom(r[i], sorted, files, css)
    decreases |sorted| - k, 0
  {
    var head := picked + [sorted[k]];
    var next := AddSiblings(Siblings(files, sorted[k]), 0, Extension(sorted[k].path), css, maxFiles, head);
    PickUnfold(sorted, k, files, css, maxFiles, picked);
    PickAllowed(sorted, k + 1, files, css, maxFiles, next, r);
    AllowedStep(sorted, k, files, css, maxFiles, picked, head, next, r);
  }

  /** One candidate's step of `PickAllowed`. */
  lemma AllowedStep(sorted: seq<ProjectFile>, k: nat, files: seq<ProjectFile>, css: bool, maxFiles: nat,
                    picked: seq<ProjectFile>, head: seq<ProjectFile>, next: seq<ProjectFile>, r: seq<ProjectFile>)
    requires k < |sorted| && head == picked + [sorted[k]]
    requires next == AddSiblings(Siblings(files, sorted[k]), 0, Extension(sorted[k].path), css, maxFiles, head)
    requires r == Pick(sorted, k + 1, files, css, maxFiles, next)
    requires forall i :: |next| <= i < |r| ==> PickedFrom(r[i], sorted, files, css)
    ensures forall i :: |picked| <= i < |r| ==> PickedFrom(r[i], sorted, files, css)
  {
    SiblingsAllowed(sorted, k, files, css, maxFiles, head, next);
    AllowedSplice(sorted, k, files, css, picked, head, next, r);
  }

  /** The candidate, then its siblings, then the later picks. */
  lemma AllowedSplice(sorted: seq<ProjectFile>, k: nat, files: seq<ProjectFile>, css: bool, picked: seq<ProjectFile>,
                    head: seq<ProjectFile>, next: seq<ProjectFile>, r: seq<ProjectFile>)
    requires k < |sorted| && head == picked + [sorted[k]]
    requires |head| <= |next| && next[..|head|] == head
    requires forall i :: |head| <= i < |next| ==> PickedFrom(next[i], sorted, files, css)
    requires |next| <= |r| && r[..|next|] == next
    requires forall i :: |next| <= i < |r| ==> PickedFrom(r[i], sorted, files, css)
    ensures forall i :: |picked| <= i < |r| ==> PickedFrom(r[i], sorted, files, css)
  {
    forall i | |picked| <= i < |r| ensures PickedFrom(r[i], sorted, files, css) {
      if i < |next| {
        assert r[..|next|][i] == r[i];
        if i == |picked| {
          assert next[..|head|][i] == next[i];
        }
      }
    }
  }

  /** The siblings added after candidate `sorted[k]` are allowed siblings of it. */
  lemma SiblingsAllowed(sorted: seq<ProjectFile>, k: nat, files: seq<ProjectFile>, css: bool, maxFiles: nat,
                        head: seq<ProjectFile>, next: seq<ProjectFile>)
    requires k < |sorted|
    requires next == AddSiblings(Siblings(files, sorted[k]), 0, Extension(sorted[k].path), css, maxFiles, head)
    ensures forall i :: |head| <= i < |next| ==> PickedFrom(next[i], sorted, files, css)
  {
    var sibs := Siblings(files, sorted[k]);
    forall i | |head| <= i < |next| ensures next[i] in files && AllowedSibling(next[i], sorted, css) {
      var m :| 0 <= m < |sibs| && sibs[m] == next[i];
      assert sorted[k] == sorted[k];
    }
  }

  /** `pickRelevantFiles(files, instructions, error, maxFiles)`: the picked files without
      repeated paths, at most `maxFiles` of them. */
  function RelevantFiles(files: seq<ProjectFile>, instructions: string, error: string, maxFiles: nat): (r: seq<ProjectFile>)
    ensures |r| <= maxFiles
    ensures forall i :: 0 <= i < |r| ==> r[i] in files
    ensures forall i, j :: 0 <= i < j < |r| ==> r[i].path != r[j].path
  {
    var picked := Picked(files, instructions, error, maxFiles);
    var r := FirstDistinct(picked, maxFiles);
    InFiles(r, picked, files);
    r
  }

  /** The first `n` picks once repeated paths are dropped. */
  function FirstDistinct(picked: seq<ProjectFile>, n: nat): (r: seq<ProjectFile>)
    ensures |r| <= n
    ensures forall i :: 0 <= i < |r| ==> r[i] in picked
    ensures forall i, j :: 0 <= i < j < |r| ==> r[i].path != r[j].path
  {
    var unique := Dedup.DedupFrom(picked, PathOf, {});
    var r := unique[..Min(|unique|, n)];
    assert forall i, j :: 0 <= i < j < |r| ==> PathOf(r[i]) != PathOf(r[j]);
    r
  }

  lemma InFiles(r: seq<ProjectFile>, picked: seq<ProjectFile>, files: seq<ProjectFile>)
    requires forall i :: 0 <= i < |r| ==> r[i] in picked
    requires forall i :: 0 <= i < |picked| ==> picked[i] in files
    ensures forall i :: 0 <= i < |r| ==> r[i] in files
  {
  }

  /** The `picked` list before its final dedupe: the candidates in order, each followed by its siblings. */
  function Picked(files: seq<ProjectFile>, instructions: string, error: string, maxFiles: nat): (picked: seq<ProjectFile>)
    ensures forall i :: 0 <= i < |picked| ==> picked[i] in files
  {
    var sig := SignalsOf(RequestText(instructions, error));
    var sorted := Candidates(files, sig, maxFiles);
    var picked := Pick(sorted, 0, files, sig.cues.css, maxFiles, []);
    assert forall i :: 0 <= i < |picked| ==> picked[i] in files by {
      forall i | 0 <= i < |picked| ensures picked[i] in files {
        assert picked[i] in sorted || picked[i] in files;
      }
    }
    picked
  }

  /** Every file returned is a candidate or an allowed sibling of one. */
  lemma RelevantFilesAllowed(files: seq<ProjectFile>, instructions: string, error: string, maxFiles: nat)
    ensures var sig := SignalsOf(RequestText(instructions, error));
      var sorted := Candidates(files, sig, maxFiles);
      var r := RelevantFiles(files, instructions, error, maxFiles);
      forall i :: 0 <= i < |r| ==> r[i] in sorted || AllowedSibling(r[i], sorted, sig.cues.css)
  {
    var sig := SignalsOf(RequestText(instructions, error));
    var sorted := Candidates(files, sig, maxFiles);
    var picked := Picked(files, instructions, error, maxFiles);
    assert picked == Pick(sorted, 0, files, sig.cues.css, maxFiles, []);
    PickAllowed(sorted, 0, files, sig.cues.css, maxFiles, [], picked);
    var r := RelevantFiles(files, instructions, error, maxFiles);
    assert r == FirstDistinct(picked, maxFiles);
    forall i | 0 <= i < |r| ensures r[i] in sorted || AllowedSibling(r[i], sorted, sig.cues.css) {
      var m :| 0 <= m < |picked| && picked[m] == r[i];
    }
  }

  /** The best candidate comes first whenever anything is returned. */
  lemma RelevantFilesLeadWithTop(files: seq<ProjectFile>, instructions: string, error: string, maxFiles: nat)
    requires maxFiles > 0
    requires Candidates(files, SignalsOf(RequestText(instructions, error)), maxFiles) != []
    ensures var r := RelevantFiles(files, instructions, error, maxFiles);
      r != [] && r[0] == Candidates(files, SignalsOf(RequestText(instructions, error)), maxFiles)[0]
  {
    var sig := SignalsOf(RequestText(instructions, error));
    PickLeads(Candidates(files, sig, maxFiles), files, sig.cues.css, maxFiles);
  }

  lemma PickLeads(sorted: seq<ProjectFile>, files: seq<ProjectFile>, css: bool, maxFiles: nat)
    requires maxFiles > 0 && sorted != []
    ensures var unique := Dedup.DedupFrom(Pick(sorted, 0, files, css, maxFiles, []), PathOf, {});
      unique != [] && unique[0] == sorted[0]
  {
    var f := sorted[0];
    var picked := Pick(sorted, 0, files, css, maxFiles, []);
    assert picked == [f] + picked[1..];
    Dedup.DedupCons(f, picked[1..], PathOf, {});
  }

  /** The bump loops: every file adds its bumps to its path's score. */
  method ScoreFiles(files: seq<ProjectFile>, sig: Signals) returns (score: map<string, nat>)
    ensures forall p :: Get(score, p) == Score(files, sig, p)
  {
    score := map[];
    var i := 0;
    while i < |files|
      invariant i <= |files|
      invariant forall p :: Get(score, p) == Score(files[..i], sig, p)
    {
      var f := files[i];
      score := score[f.path := Get(score, f.path) + FileScore(f.path, sig)];
      assert files[..i + 1][..i] == files[..i];
      i := i + 1;
    }
    assert files[..|files|] == files;
  }

  /** The `byDir` map once the first `n` files are indexed. */
  function IndexOf(files: seq<ProjectFile>, n: nat): map<string, seq<ProjectFile>>
    requires n <= |files|
  {
    if n == 0 then map[]
    else
      var m := IndexOf(files, n - 1);
      var dir := Dir(files[n - 1].path);
      m[dir := Listed(m, dir) + [files[n - 1]]]
  }

  /** Each folder's list in the index holds that folder's files in input order. */
  lemma {:induction false} IndexOfLists(files: seq<ProjectFile>, n: nat, d: string)
    requires n <= |files|
    ensures Listed(IndexOf(files, n), d) == InDir(files, n, d)
  {
    if n > 0 {
      IndexOfLists(files, n - 1, d);
    }
  }

  /** The `byDir` index loop. */
  method IndexByDir(files: seq<ProjectFile>) returns (byDir: map<string, seq<ProjectFile>>)
    ensures byDir == IndexOf(files, |files|)
  {
    byDir := map[];
    var i := 0;
    while i < |files|
      invariant i <= |files|
      invariant byDir == IndexOf(files, i)
    {
      var dir := Dir(files[i].path);
      IndexOfStep(files, i);
      byDir := byDir[dir := Listed(byDir, dir) + [files[i]]];
      i := i + 1;
    }
  }

  /** Indexing one more file appends it to its folder's list. */
  lemma IndexOfStep(files: seq<ProjectFile>, n: nat)
    requires n < |files|
    ensures IndexOf(files, n + 1)
         == IndexOf(files, n)[Dir(files[n].path) := Listed(IndexOf(files, n), Dir(files[n].path)) + [files[n]]]
  {
  }

  /** The inner picking loop over one candidate's siblings, with its early exit. */
  method PickSiblings(siblings: seq<ProjectFile>, ext: string, css: bool, maxFiles: nat, head: seq<ProjectFile>)
    returns (picked: seq<ProjectFile>)
    ensures picked == AddSiblings(siblings, 0, ext, css, maxFiles, head)
  {
    picked := head;
    var j := 0;
    while j < |siblings|
      invariant j <= |siblings|
      invariant AddSiblings(siblings, j, ext, css, maxFiles, picked) == AddSiblings(siblings, 0, ext, css, maxFiles, head)
    {
      if |picked| >= maxFiles {
        break;
      }
      if css || Extension(siblings[j].path) == ext {
        picked := picked + [siblings[j]];
      }
      j := j + 1;
    }
  }

  /** The outer picking loop over the candidates, with its early exit. */
  method PickWithSiblings(sorted: seq<ProjectFile>, files: seq<ProjectFile>, byDir: map<string, seq<ProjectFile>>, css: bool, maxFiles: nat)
    returns (picked: seq<ProjectFile>)
    requires byDir == IndexOf(files, |files|)
    ensures picked == Pick(sorted, 0, files, css, maxFiles, [])
  {
    picked := [];
    var k := 0;
    while k < |sorted|
      invariant k <= |sorted|
      invariant Pick(sorted, k, files, css, maxFiles, picked) == Pick(sorted, 0, files, css, maxFiles, [])
    {
      if |picked| >= maxFiles {
        break;
      }
      var f := sorted[k];
      var siblings := Sorting.Filter(Listed(byDir, Dir(f.path)), OtherThan(f.path));
      var next := PickSiblings(siblings, Extension(f.path), css, maxFiles, picked + [f]);
      PickAdvance(sorted, k, files, byDir, css, maxFiles, picked, next);
      picked, k := next, k + 1;
    }
    PickStops(sorted, k, files, css, maxFiles, picked);
  }

  /** One candidate taken by `Pick`: itself, then its siblings, then the rest of the candidates. */
  lemma PickUnfold(sorted: seq<ProjectFile>, k: nat, files: seq<ProjectFile>, css: bool, maxFiles: nat, picked: seq<ProjectFile>)
    requires k < |sorted| && |picked| < maxFiles
    ensures Pick(sorted, k, files, css, maxFiles, picked)
         == Pick(sorted, k + 1, files, css, maxFiles,
                 AddSiblings(Siblings(files, sorted[k]), 0, Extension(sorted[k].path), css, maxFiles, picked + [sorted[k]]))
  {
  }

  /** The outer loop's step: the candidate and its siblings from the index, then the rest. */
  lemma PickAdvance(sorted: seq<ProjectFile>, k: nat, files: seq<ProjectFile>, byDir: map<string, seq<ProjectFile>>,
                    css: bool, maxFiles: nat, picked: seq<ProjectFile>, next: seq<ProjectFile>)
    requires k < |sorted| && |picked| < maxFiles && byDir == IndexOf(files, |files|)
    requires next == AddSiblings(Sorting.Filter(Listed(byDir, Dir(sorted[k].path)), OtherThan(sorted[k].path)), 0,
                                 Extension(sorted[k].path), css, maxFiles, picked + [sorted[k]])
    ensures Pick(sorted, k + 1, files, css, maxFiles, next) == Pick(sorted, k, files, css, maxFiles, picked)
  {
    PickUnfold(sorted, k, files, css, maxFiles, picked);
    SiblingsFromIndex(files, byDir, sorted[k]);
  }

  /** `Pick` stops when the candidates run out or the list is full. */
  lemma PickStops(sorted: seq<ProjectFile>, k: nat, files: seq<ProjectFile>, css: bool, maxFiles: nat, picked: seq<ProjectFile>)
    requires k <= |sorted| && (k == |sorted| || |picked| >= maxFiles)
    ensures Pick(sorted, k, files, css, maxFiles, picked) == picked
  {
  }

  /** Looking a folder up in the index and dropping the file itself gives its siblings. */
  lemma SiblingsFromIndex(files: seq<ProjectFile>, byDir: map<string, seq<ProjectFile>>, f: ProjectFile)
    requires byDir == IndexOf(files, |files|)
    ensures Sorting.Filter(Listed(byDir, Dir(f.path)), OtherThan(f.path)) == Siblings(files, f)
  {
    IndexOfLists(files, |files|, Dir(f.path));
  }

  /** The `seen`-set filter: the first file for each path. */
  method UniqueByPath(picked: seq<ProjectFile>) returns (unique: seq<ProjectFile>)
    ensures unique == Dedup.DedupFrom(picked, PathOf, {})
  {
    var seen: set<string> := {};
    unique := [];
    var m := 0;
    while m < |picked|
      invariant m <= |picked|
      invariant unique + Dedup.DedupFrom(picked[m..], PathOf, seen) == Dedup.DedupFrom(picked, PathOf, {})
    {
      var p := picked[m];
      assert picked[m..] == [p] + picked[m + 1..];
      Dedup.DedupCons(p, picked[m + 1..], PathOf, seen);
      if p.path !in seen {
        ghost var tail := Dedup.DedupFrom(picked[m + 1..], PathOf, seen + {p.path});
        Dedup.AppendAssoc(unique, [p], tail);
        unique := unique + [p];
        seen := seen + {p.path};
      }
      m := m + 1;
    }
  }

  /** The sort by score and the fallback when nothing scored. */
  method RankFiles(files: seq<ProjectFile>, sig: Signals, score: map<string, nat>, maxFiles: nat)
    returns (sorted: seq<ProjectFile>)
    requires forall p :: Get(score, p) == Score(files, sig, p)
    ensures sorted == Candidates(files, sig, maxFiles)
  {
    var ranked := seq(|files|, k requires 0 <= k < |files| => (files[k], Get(score, files[k].path)));
    assert ranked == Ranked(files, sig);
    var pairs := Sorting.Sort(ranked, HigherFirst);
    if |pairs| == 0 || Get(score, pairs[0].0.path) == 0 {
      var fallback := Sorting.Filter(files, IsFallbackFile);
      sorted := if |fallback| > 0 then fallback else files[..Min(|files|, maxFiles)];
    } else {
      sorted := Firsts(pairs);
    }
  }

  /** `pickRelevantFiles`: the bumps, the sort and fallback, the folder index, the picking
      and the de-duplication. */
  method PickRelevantFiles(files: seq<ProjectFile>, instructions: string, error: string, maxFiles: nat)
    returns (relevant: seq<ProjectFile>)
    ensures relevant == RelevantFiles(files, instructions, error, maxFiles)
  {
    var sig := SignalsOf(RequestText(instructions, error));
    var score := ScoreFiles(files, sig);
    var sorted := RankFiles(files, sig, score, maxFiles);
    var byDir := IndexByDir(files);
    var picked := PickWithSiblings(sorted, files, byDir, sig.cues.css, maxFiles);
    var unique := UniqueByPath(picked);
    relevant := unique[..Min(|unique|, maxFiles)];
  }

  // ----- editProject: merging -----

  /** The files a `Map` keyed by path holds, in its insertion order. */
  predicate DistinctPaths(entries: seq<ProjectFile>) {
    forall i, j :: 0 <= i < j < |entries| ==> entries[i].path != entries[j].path
  }

  function Paths(entries: seq<ProjectFile>): set<string> {
    set f | f in entries :: f.path
  }

  /** `fileMap.get(p)` */
  function Find(entries: seq<ProjectFile>, p: string): Option<ProjectFile> {
    var i := Dedup.FirstIndexWithKey(entries, PathOf, p);
    if i < |entries| then Some(entries[i]) else None
  }

  /** `fileMap.set(f.path, f)`: a present path keeps its place and takes the new file; a new
      path goes last. */
  function Put(entries: seq<ProjectFile>, f: ProjectFile): seq<ProjectFile> {
    var i := Dedup.FirstIndexWithKey(entries, PathOf, f.path);
    if i < |entries| then entries[i := f] else entries + [f]
  }

  /** Setting a path keeps the paths distinct, adds the path, and answers the new file for
      it and the old answer for every other path. */
  lemma PutSpec(entries: seq<ProjectFile>, f: ProjectFile)
    requires DistinctPaths(entries)
    ensures DistinctPaths(Put(entries, f))
    ensures Paths(Put(entries, f)) == Paths(entries) + {f.path}
    ensures forall p :: Find(Put(entries, f), p) == if p == f.path then Some(f) else Find(entries, p)
  {
    var i := Dedup.FirstIndexWithKey(entries, PathOf, f.path);
    var r := Put(entries, f);
    Dedup.FirstIndexWithKeyFirst(entries, PathOf, f.path);
    forall p ensures Find(r, p) == if p == f.path then Some(f) else Find(entries, p) {
      Dedup.FirstIndexWithKeyFirst(entries, PathOf, p);
      Dedup.FirstIndexWithKeyFirst(r, PathOf, p);
      var j := Dedup.FirstIndexWithKey(entries, PathOf, p);
      var k := Dedup.FirstIndexWithKey(r, PathOf, p);
      if p == f.path {
        assert r[i] == f;
      } else if j < |entries| {
        assert r[j] == entries[j];
      } else {
        assert forall m :: 0 <= m < |r| ==> r[m].path != p;
      }
    }
    if i < |entries| {
      assert Paths(r) == Paths(entries) + {f.path} by {
        forall q | q in Paths(entries) ensures q in Paths(r) {
          var g :| g in entries && g.path == q;
          var m :| 0 <= m < |entries| && entries[m] == g;
          if m == i {
            assert r[i].path == q;
          } else {
            assert r[m] == g;
          }
        }
        assert r[i] in r;
      }
    } else {
      assert f in r;
    }
  }

  /** `for (const f of fs) fileMap.set(f.path, f)` */
  function PutAll(entries: seq<ProjectFile>, fs: seq<ProjectFile>): seq<ProjectFile> {
    if fs == [] then entries else Put(PutAll(entries, fs[..|fs| - 1]), fs[|fs| - 1])
  }

  /** The last of `fs` with path `p`. */
  function LastWithPath(fs: seq<ProjectFile>, p: string): Option<ProjectFile> {
    if fs == [] then None
    else if fs[|fs| - 1].path == p then Some(fs[|fs| - 1])
    else LastWithPath(fs[..|fs| - 1], p)
  }

  /** Setting a run of files: the paths stay distinct, the path set is the union, and a path
      answers the last file set for it, else what it answered before. */
  lemma {:induction false} PutAllSpec(entries: seq<ProjectFile>, fs: seq<ProjectFile>)
    requires DistinctPaths(entries)
    ensures DistinctPaths(PutAll(entries, fs))
    ensures Paths(PutAll(entries, fs)) == Paths(entries) + Paths(fs)
    ensures forall p :: Find(PutAll(entries, fs), p) == if LastWithPath(fs, p).Some? then LastWithPath(fs, p) else Find(entries, p)
  {
    if fs != [] {
      var init, last := fs[..|fs| - 1], fs[|fs| - 1];
      assert fs == init + [last];
      PathsSnoc(init, last);
      PutAllSpec(entries, init);
      PutSpec(PutAll(entries, init), last);
    }
  }

  lemma PathsSnoc(init: seq<ProjectFile>, last: ProjectFile)
    ensures Paths(init + [last]) == Paths(init) + {last.path}
  {
    assert forall f :: f in init + [last] <==> f in init || f == last;
  }

  /** The edited files without their hashes. */
  function Changed(parsed: seq<MarkdownParser.ParsedFile>): (r: seq<ProjectFile>)
    ensures |r| == |parsed|
    ensures forall i :: 0 <= i < |r| ==> r[i].path == parsed[i].path && r[i].content == parsed[i].content
  {
    seq(|parsed|, i requires 0 <= i < |parsed| => ProjectFile(parsed[i].path, parsed[i].content))
  }

  /** `Array.from(fileMap.values())` after the current files and then the changed ones. */
  function Merged(current: seq<ProjectFile>, changed: seq<ProjectFile>): seq<ProjectFile> {
    PutAll(PutAll([], current), changed)
  }

  /** The merge has one file per path, the paths of both, and for each path the last changed
      file with it, else the last current file with it. */
  lemma MergedSpec(current: seq<ProjectFile>, changed: seq<ProjectFile>)
    ensures DistinctPaths(Merged(current, changed))
    ensures Paths(Merged(current, changed)) == Paths(current) + Paths(changed)
    ensures forall p ::
      Find(Merged(current, changed), p) == if LastWithPath(changed, p).Some? then LastWithPath(changed, p) else LastWithPath(current, p)
  {
    var none: seq<ProjectFile> := [];
    assert Paths(none) == {};
    PutAllSpec(none, current);
    PutAllSpec(PutAll(none, current), changed);
  }

  /** The two merge loops. */
  method MergeFiles(current: seq<ProjectFile>, changed: seq<ProjectFile>) returns (merged: seq<ProjectFile>)
    ensures merged == Merged(current, changed)
  {
    merged := [];
    var i := 0;
    while i < |current|
      invariant i <= |current|
      invariant merged == PutAll([], current[..i])
    {
      assert current[..i + 1][..i] == current[..i];
      merged := Put(merged, current[i]);
      i := i + 1;
    }
    assert current[..|current|] == current;
    ghost var base := merged;
    i := 0;
    while i < |changed|
      invariant i <= |changed|
      invariant merged == PutAll(base, changed[..i])
    {
      assert changed[..i + 1][..i] == changed[..i];
      merged := Put(merged, changed[i]);
      i := i + 1;
    }
    assert changed[..|changed|] == changed;
  }

  // ----- editProject -----

  /** `Array.prototype.sort()` on paths: ascending by UTF-16 code units, the default
      comparison of JavaScript strings. */
  const PathOrder: (string, string) -> bool := (a: string, b: string) => Utf16Le(a, b)

  lemma PathOrderPreorder()
    ensures Sorting.Preorder(PathOrder)
  {
    forall a: string, b: string ensures PathOrder(a, b) || PathOrder(b, a) {
      UnitsLeTotal(Utf16(a), Utf16(b));
    }
    forall a: string, b: string, c: string | PathOrder(a, b) && PathOrder(b, c) ensures PathOrder(a, c) {
      UnitsLeTransitive(Utf16(a), Utf16(b), Utf16(c));
    }
  }

  /** The body posted to the edit service. */
  datatype EditRequest = EditRequest(instructions: string, error: string, files: seq<ProjectFile>, filePaths: seq<string>)

  function EditServiceRequest(current: seq<ProjectFile>, instructions: string, error: string): (r: EditRequest)
    ensures |r.files| <= 12 && DistinctPaths(r.files)
    ensures forall i :: 0 <= i < |r.files| ==> r.files[i] in current
    ensures |r.filePaths| == |current|
    ensures multiset(r.filePaths) == multiset(seq(|current|, i requires 0 <= i < |current| => current[i].path))
  {
    var paths := seq(|current|, i requires 0 <= i < |current| => current[i].path);
    EditRequest(instructions, error, RelevantFiles(current, instructions, error, 12), Sorting.Sort(paths, PathOrder))
  }

  /** The index of paths sent along is in ascending order. */
  lemma EditRequestPathsSorted(current: seq<ProjectFile>, instructions: string, error: string)
    ensures Sorting.Sorted(EditServiceRequest(current, instructions, error).filePaths, PathOrder)
  {
    PathOrderPreorder();
    var paths := seq(|current|, i requires 0 <= i < |current| => current[i].path);
    Sorting.SortSorted(paths, PathOrder);
  }

  /** What the edit service answered: the markdown (empty when the reply had none), or a
      failed call with its error response's status and message (0 and empty when absent). */
  datatype ServiceReply = Markdown(text: string) | CallFailed(status: nat, message: string)

  const NoUpdatedFiles := Rejection(502, "AI did not return any updated files")

  /** The 200 answer of `editProject`. */
  datatype Edit = Edit(version: int, changedCount: nat, fileCount: nat, artifacts: seq<ProjectFile>)

  /** `editProject`, given the project lookup, the project's version numbers as the query
      orders them (descending), the latest version's files and the service's reply. */
  function EditProject(requireAuth: bool, userId: string, projectId: string, instructions: string, error: string,
                       project: Lookup, numbers: seq<int>, current: seq<ProjectFile>, reply: ServiceReply,
                       hash: string -> string): (r: Result<Edit, Rejection>)
    ensures r.Ok? <==>
      EditChecks(requireAuth, userId, projectId, instructions, error, project).None?
      && numbers != [] && reply.Markdown? && reply.text != []
    ensures r.Ok? ==>
      && r.value.version == NextNumber(numbers) && r.value.changedCount >= 1
      && r.value.fileCount == |r.value.artifacts| && DistinctPaths(r.value.artifacts)
    // the parser always yields a file, so this refusal is never reached
    ensures reply.Markdown? ==> r != Err(NoUpdatedFiles)
  {
    var checks := EditChecks(requireAuth, userId, projectId, instructions, error, project);
    if checks.Some? then Err(checks.value)
    else if numbers == [] then Err(Rejection(400, "No versions found. Please save an initial version before editing."))
    else match reply
      case CallFailed(status, message) =>
        Err(Rejection(if status != 0 then status else 500, if message != [] then message else "Failed to apply edit"))
      case Markdown(text) =>
        if text == [] then Err(Rejection(502, "AI edit service returned empty response"))
        else
          var changed := Changed(MarkdownParser.ParsedFiles(text, hash));
          if changed == [] then Err(NoUpdatedFiles)
          else
            var merged := Merged(current, changed);
            MergedSpec(current, changed);
            Ok(Edit(numbers[0] + 1, |changed|, |merged|, merged))
  }

  /** The merged files of an edit: every current and every changed path once, each with the
      last changed content for it, else its current content. */
  lemma EditArtifacts(requireAuth: bool, userId: string, projectId: string, instructions: string, error: string,
                      project: Lookup, numbers: seq<int>, current: seq<ProjectFile>, text: string,
                      hash: string -> string, p: string)
    requires EditProject(requireAuth, userId, projectId, instructions, error, project, numbers, current, Markdown(text), hash).Ok?
    ensures var edit := EditProject(requireAuth, userId, projectId, instructions, error, project, numbers, current, Markdown(text), hash).value;
      var changed := Changed(MarkdownParser.ParsedFiles(text, hash));
      && Paths(edit.artifacts) == Paths(current) + Paths(changed)
      && Find(edit.artifacts, p) == if LastWithPath(changed, p).Some? then LastWithPath(changed, p) else LastWithPath(current, p)
  {
    MergedSpec(current, Changed(MarkdownParser.ParsedFiles(text, hash)));
  }
}
