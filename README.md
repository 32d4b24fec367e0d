# StudAI-Works core logic in Dafny

StudAI-Works turns a description of an application into generated source code. A Python
service asks a language model for the application section by section. An Express backend
stores projects, their versions and a user's history. A Next.js frontend shows the
generated files as a tree, runs them in an in-browser bundler and offers a dashboard, a
help centre and a chat bubble.

This project models the sequential logic of those parts and proves what it promises:

- **Reading a model reply into files** (`MarkdownParser`, `ResponseParser`, and the parsers
  inside `GeneratePage` and `GeneratePageBackup`). Each regular expression of the source is
  written out as a scanner that takes the same choices as the JavaScript engine: leftmost
  match, greedy or lazy as written, and `exec` resuming at `lastIndex`. Proved: document
  order, first-wins deduplication, trimming, the `response.md` fallback, path clean-up and
  the `styles.css` injection.
- **The projects API** (`ProjectsController`). Covered: the order of the request checks,
  version numbering, the latest version per project, the generation service address, the
  choice of files sent for an edit (scores, ranking, siblings, bound, deduplication), and
  the merge of edited files.
- **The generation service** (`AiService`). Covered: the per-minute token budget as a class
  over its two globals, the `[CONTINUE]` loop that collects one section, and the ordered
  assembly of the six sections under headings. The language model is an oracle: its
  answers, call by call, are a parameter.
- **The generate pages** (`GeneratePage`, `GeneratePageBackup`). Covered: both file-tree
  builders, the order of a folder's children, the page state after a send, the language
  shown for a file, the files handed to the bundler, and the editor's update of one file.
- **Small page rules.** These are the dashboard's relative time, search and status badge
  (`Dashboard`), and the help centre's search, categories, popular guides and status
  colours (`HelpPage`). They also cover the keyword bot and message list of the chat bubble
  (`ChatWidget`, with the bubble as a class), and the history endpoints' file-name
  sanitisation, storage path and validation order (`HistoryController`).

Shared modules hold what several of these use: `Text` (the whitespace sets of JavaScript
and Python, trim, ASCII lower case, substring search, split and join, decimal printing,
UTF-16 length and code-unit order), `Dedup` (keep the first element per key), `Sorting` (a stable sort by a
comparator, and filter), `Badges` (Tailwind colour names) and `Wrappers` (`Option`,
`Result`).

Clocks, database and storage answers, environment variables and the model's replies are
parameters. `sha256` is a function parameter with no properties assumed.

## Model

| member | source | states |
|---|---|---|
| MarkdownParser.StripQuotes | backend/utils/aiMarkdownParser.ts:11 | at most one character goes from each end, and a character goes only when it is a `'` |
| MarkdownParser.FixPath | backend/utils/aiMarkdownParser.ts:10-19 | the result always ends with the trimmed, unquoted path; only a prefix can be added |
| MarkdownParser.FixPathPrefixes | backend/utils/aiMarkdownParser.ts:12-18 | `frontend/` is added exactly for the frontend root config names (ASCII case ignored), `backend/` exactly for the backend names that are not frontend names, and the path is unchanged exactly otherwise |
| MarkdownParser.FixPathKeepsNestedPaths | backend/utils/aiMarkdownParser.ts:12-15 | a path containing `/` never gains a prefix, because both anchored patterns are slash-free |
| MarkdownParser.FenceShape | backend/utils/aiMarkdownParser.ts:24 | the fence part of the pattern: the body runs from after the tag line up to the first closing fence, with no fence before it |
| MarkdownParser.TrySuffix | backend/utils/aiMarkdownParser.ts:24 | the greedy `\s*\n` after the heading text, backtracking from the longest run; a success yields a fence-free body |
| MarkdownParser.TryHeading | backend/utils/aiMarkdownParser.ts:24 | the lazy `(.*?)` heading text, shortest first; it never leaves the line |
| MarkdownParser.PrefixLine | backend/utils/aiMarkdownParser.ts:24 | the greedy `\s*` after `####`, backtracking from the longest run: the heading text it yields is made of non-line-terminator characters |
| MarkdownParser.PrefixFenced | backend/utils/aiMarkdownParser.ts:24 | the greedy `\s*` after `####`, backtracking from the longest run: the body it yields ends at the first closing fence after it |
| MarkdownParser.MatchAtShape | backend/utils/aiMarkdownParser.ts:24 | a match at a position starts with `####`, ends just after a closing fence, has a one-line heading and a body with no fence |
| MarkdownParser.Exec | backend/utils/aiMarkdownParser.ts:24-27 | `exec` from `lastIndex` returns a match lying after `lastIndex` |
| MarkdownParser.ExecIsLeftmost | backend/utils/aiMarkdownParser.ts:24-27 | `exec` returns the pattern's match at the start position it reports, and the pattern matches at no earlier position from `lastIndex`; no result means it matches nowhere from there |
| MarkdownParser.MatchAtBlock | backend/utils/aiMarkdownParser.ts:24 | a block written as `####`, a space, a one-line heading with no whitespace at its ends, a newline, a fence line, a body with no fence and a closing fence is matched where it starts, with that heading and that body as the groups |
| MarkdownParser.ExecBlock | backend/utils/aiMarkdownParser.ts:24-27 | `exec` resumed at the start of such a block returns the whole block with its heading and body |
| MarkdownParser.AllMatchesOrdered | backend/utils/aiMarkdownParser.ts:27 | the successive `exec` matches lie in document order and never overlap |
| MarkdownParser.Candidate | backend/utils/aiMarkdownParser.ts:28-35 | a block yields a file exactly when its trimmed heading and trimmed body are both non-empty; the path is `fixPath` of the trimmed heading, the content the trimmed body, the hash that of the content |
| MarkdownParser.Candidates | backend/utils/aiMarkdownParser.ts:27-36 | every candidate file comes from one matched block |
| MarkdownParser.ParsedFiles | backend/utils/aiMarkdownParser.ts:21-44 | the result has at least one file and its paths are pairwise distinct |
| MarkdownParser.ParseAiMarkdown | backend/utils/aiMarkdownParser.ts:21-44 | the `exec` loop with its `seen` set, then the fallback, returns exactly `ParsedFiles` |
| MarkdownParser.ParsedFilesFallback | backend/utils/aiMarkdownParser.ts:38-42 | the result is never empty, and it is the single `response.md` holding the whole untrimmed reply exactly when no block yields a file |
| MarkdownParser.ParsedHashesContent | backend/utils/aiMarkdownParser.ts:34-41 | every returned file's hash is the hash of exactly its stored content |
| MarkdownParser.ParsedFileFromBlock | backend/utils/aiMarkdownParser.ts:28-35 | a non-fallback file comes from a matched block with a non-empty trimmed heading and body: its path is the fixed heading, its content the trimmed body |
| MarkdownParser.ParsedFirstWins | backend/utils/aiMarkdownParser.ts:31-33 | a returned file is the first candidate with its path; later blocks with that path are dropped |
| MarkdownParser.ParsedInDocumentOrder | backend/utils/aiMarkdownParser.ts:27-36 | returned files follow the document order of the first block for each path |
| MarkdownParser.ParsedEveryPath | backend/utils/aiMarkdownParser.ts:27-36 | no path is lost: every matched block whose trimmed heading and trimmed body are non-empty has a returned file with its fixed path |
| MarkdownParser.ParsedFilesOfBlock | backend/utils/aiMarkdownParser.ts:21-44 | a reply that is one such block with a non-blank body gives exactly one file: the fixed heading as path, the trimmed body as content, and its hash |
| ResponseParser.TryPathGap | frontend/src/utils/parseAIResponse.ts:14 | the `\s+(.+?)\n` part, shorter whitespace gaps tried in turn: the path text is non-empty, stays on one line and is followed by a newline and a later closing fence |
| ResponseParser.PathGapAt | frontend/src/utils/parseAIResponse.ts:14 | the opening fence, letters, whitespace, `//`, whitespace and `path:` come before the path text, with at least one whitespace character after `path:` |
| ResponseParser.MatchAt | frontend/src/utils/parseAIResponse.ts:14 | a match at a position starts there and ends inside the text |
| ResponseParser.MatchAtGroups | frontend/src/utils/parseAIResponse.ts:14 | a match opens and closes with a fence, its path text is a non-empty one-line run, and its body holds no fence |
| ResponseParser.MatchAtPathBlock | frontend/src/utils/parseAIResponse.ts:14 | a block written as a fence, a letter tag, a newline, `// path: `, a one-line path starting with no whitespace, a newline, a body with no fence and a closing fence is matched where it starts, with that path and that body as the groups |
| ResponseParser.ExecPathBlock | frontend/src/utils/parseAIResponse.ts:14-17 | `exec` resumed at the start of such a block returns the whole block with its path and body |
| ResponseParser.Exec | frontend/src/utils/parseAIResponse.ts:14-17 | `exec` from `lastIndex` returns a match lying after `lastIndex` |
| ResponseParser.ExecIsLeftmost | frontend/src/utils/parseAIResponse.ts:14-17 | `exec` returns the pattern's match at the start position it reports, and the pattern matches at no earlier position from `lastIndex`; no result means it matches nowhere from there |
| ResponseParser.AllMatchesOrdered | frontend/src/utils/parseAIResponse.ts:17 | the successive matches lie in document order and never overlap |
| ResponseParser.FileName | frontend/src/utils/parseAIResponse.ts:20 | the name is a suffix of the path after its last `/`, the whole path when it has no `/`, and empty only for an empty path |
| ResponseParser.FileNameOfPlainName | frontend/src/utils/parseAIResponse.ts:20 | a non-empty path without `/` is its own name |
| ResponseParser.Extracted | frontend/src/utils/parseAIResponse.ts:17-22 | the loop pushes exactly one file per match, in match order |
| ResponseParser.FindByPath | frontend/src/utils/parseAIResponse.ts:24-25 | `find` returns a file with the path when one exists, and nothing only when none has it |
| ResponseParser.FindByPathFirst | frontend/src/utils/parseAIResponse.ts:24-25 | `find` returns the first file with the path |
| ResponseParser.FirstPathIndex | frontend/src/utils/parseAIResponse.ts:24 | the index of the first file with the path, or the length when there is none |
| ResponseParser.ExtractedStep | frontend/src/utils/parseAIResponse.ts:17-21 | one turn of the loop pushes the next match's file, then the loop goes on from that match's end |
| ResponseParser.ParseAIResponse | frontend/src/utils/parseAIResponse.ts:8-33 | the `exec` loop followed by the conditional push returns exactly `ParsedResponse` |
| ResponseParser.ParsedResponseShape | frontend/src/utils/parseAIResponse.ts:15-32 | one file per matched block in document order, duplicates kept, then at most the default stylesheet; no match gives an empty result with no fallback |
| ResponseParser.FileOfFields | frontend/src/utils/parseAIResponse.ts:18-20 | each block's file has the trimmed path text, the trimmed body, and the last path segment as name, or the whole path when that segment is empty |
| ResponseParser.DefaultStylesCondition | frontend/src/utils/parseAIResponse.ts:24-31 | the stylesheet is added exactly when a file has path `/src/index.js`, the first such file imports `./styles.css`, and no file has path `/src/styles.css` |
| ResponseParser.DefaultStylesAddedOnce | frontend/src/utils/parseAIResponse.ts:24-31 | after the step the condition for adding the stylesheet no longer holds |
| GeneratePage.CommentAt | frontend/src/app/generate/page.tsx:106 | the ` path: (.*?)\n([\s\S]*?)` part after a `//` or `#` marker: the path text ends before a newline and the body before a closing fence |
| GeneratePage.CommentAtShape | frontend/src/app/generate/page.tsx:106 | the path text runs to the first line end, which is a `\n`, and the body runs to the first fence after it |
| GeneratePage.MarkerEnd | frontend/src/app/generate/page.tsx:106 | the `(?:\/\/\|#)` alternative ends inside the text |
| GeneratePage.CommentStart | frontend/src/app/generate/page.tsx:106 | the comment is looked for after the optional `\w*\n` language line, which is tried first, or else right after the fence |
| GeneratePage.MatchAt | frontend/src/app/generate/page.tsx:106 | a match at a position starts there and ends inside the text |
| GeneratePage.MatchAtShape | frontend/src/app/generate/page.tsx:106 | a match starts and ends with a fence, its path text has no line terminator and its body holds no fence |
| GeneratePage.Exec | frontend/src/app/generate/page.tsx:106-108 | `exec` from `lastIndex` returns a match lying after `lastIndex` |
| GeneratePage.ExecShape | frontend/src/app/generate/page.tsx:106-108 | every match `exec` returns has that shape |
| GeneratePage.ExecIsLeftmost | frontend/src/app/generate/page.tsx:106-108 | `exec` returns the pattern's match at the start position it reports, and the pattern matches at no earlier position from `lastIndex`; no result means it matches nowhere from there |
| GeneratePage.MatchAtPageBlock | frontend/src/app/generate/page.tsx:106 | a block written as a fence, an optional word-character language line, `//` or `#`, ` path: `, a one-line path, a newline, a body with no fence and a closing fence is matched where it starts, with that path and that body as the groups |
| GeneratePage.ExecPageBlock | frontend/src/app/generate/page.tsx:106-108 | `exec` resumed at the start of such a block returns the whole block with its path and body |
| GeneratePage.AllMatches | frontend/src/app/generate/page.tsx:108 | successive matches lie in document order and never overlap |
| GeneratePage.AllMatchesShape | frontend/src/app/generate/page.tsx:108 | every successive match has that shape |
| GeneratePage.ParsedFromMatches | frontend/src/app/generate/page.tsx:104-112 | one file per match, in match order, with the match's path and body trimmed |
| GeneratePage.ParsedFileShape | frontend/src/app/generate/page.tsx:104-112 | every file read has a one-line path and content holding no fence |
| GeneratePage.ParseAIResponse | frontend/src/app/generate/page.tsx:104-112 | the `exec` loop returns exactly `ParsedFrom` |
| GeneratePage.ChildIndex | frontend/src/app/generate/page.tsx:121 | `find` by name gives the first child with that name, or nothing when no child has it |
| GeneratePage.InsertPath | frontend/src/app/generate/page.tsx:118-129 | one path walk keeps every existing child's name, path and kind, and adds at most one new child at the end, named after the next segment, with the segments so far joined by `/` as its path |
| GeneratePage.BuildFileTree | frontend/src/app/generate/page.tsx:114-132 | the loop over the files returns exactly `FileTree` |
| GeneratePage.InsertPathWellNamed | frontend/src/app/generate/page.tsx:121-128 | a walk never gives a folder two children with the same name |
| GeneratePage.FileTreeWellNamed | frontend/src/app/generate/page.tsx:114-132 | sibling names are distinct throughout the tree, because an existing child is always reused |
| GeneratePage.InsertPathPaths | frontend/src/app/generate/page.tsx:125 | a walk keeps every node's path equal to the names from the root down to it |
| GeneratePage.FileTreePaths | frontend/src/app/generate/page.tsx:125 | every node's `path` is its ancestors' names and its own joined with `/` |
| GeneratePage.InsertPathFilePaths | frontend/src/app/generate/page.tsx:120-125 | a walk adds at most one file node, whose path is the whole path walked |
| GeneratePage.FileTreeFilePaths | frontend/src/app/generate/page.tsx:120-125 | only the last segment becomes a file node: every file node's path is the path of an input file |
| GeneratePage.InsertThroughFile | frontend/src/app/generate/page.tsx:119-123 | a path that runs into an existing file node is dropped and the tree is left as it was |
| GeneratePage.ShownNoLaterPreorder | frontend/src/app/generate/page.tsx:191 | the comparator (type string, then name) is a total preorder |
| GeneratePage.ShownChildrenOrdered | frontend/src/app/generate/page.tsx:191 | a folder's children are shown files before folders, each group by name, with no child lost or added |
| GeneratePage.ErrorText | frontend/src/app/generate/page.tsx:168 | the server's error when present, else the error's message, else the fixed text; never empty |
| GeneratePage.RootFolderPaths | frontend/src/app/generate/page.tsx:161 | exactly the paths of the top-level folder nodes |
| GeneratePage.ShortPromptIgnored | frontend/src/app/generate/page.tsx:135-136 | a prompt (or else the input) shorter than ten code units once trimmed changes nothing |
| GeneratePage.SentMessages | frontend/src/app/generate/page.tsx:137-172 | a sent prompt adds exactly two messages, the prompt with the send time as id, then the answer with the reply time as id; the input is cleared and generation is over |
| GeneratePage.SentShowsCode | frontend/src/app/generate/page.tsx:146-163 | a 200 response with code leaves at least one file, the first one selected, and an assistant message last |
| GeneratePage.SentShowsError | frontend/src/app/generate/page.tsx:140-169 | a failed request, an error status or an empty answer leaves no files, no tree, no selection, the expanded folders as they were, and `Error: ` with the reason last |
| GeneratePage.SentParsed | frontend/src/app/generate/page.tsx:148-162 | no parsed file gives the single `raw_output.md` holding the raw code and keeps the expanded folders; otherwise the parsed files, their tree, and exactly the root-level folders expanded |
| GeneratePage.FileTreeConsistent | frontend/src/app/generate/page.tsx:114-132 | a built tree has distinct sibling names, paths that follow the names, and file nodes only at the input files' paths |
| GeneratePage.SentConsistent | frontend/src/app/generate/page.tsx:134-174 | sending a prompt keeps the page consistent (selection among the files, a well-formed tree over them), whatever the reply |
| GeneratePage.Toggled | frontend/src/app/generate/page.tsx:179 | `toggleFolder` flips exactly the membership of the given path |
| GeneratePage.ToggledTwice | frontend/src/app/generate/page.tsx:179 | toggling a folder twice leaves the expanded set as it was |
| GeneratePage.Page.constructor | frontend/src/app/generate/page.tsx:82-89 | the page starts with no messages, no input, no files, no tree, no selection and nothing expanded |
| GeneratePage.Page.ShowGenerated | frontend/src/app/generate/page.tsx:147-164 | the state after a 200 response with code is `ShowCode` of the files read from it |
| GeneratePage.Page.HandleSend | frontend/src/app/generate/page.tsx:134-174 | the new page state is `Sent` of the old state, the prompt, the reply and the files read from the reply |
| GeneratePage.Page.HandleQuickAction | frontend/src/app/generate/page.tsx:176 | a quick action sends `Create a ` followed by the action |
| GeneratePage.Page.ToggleFolder | frontend/src/app/generate/page.tsx:179 | only the expanded set changes, to `Toggled` |
| GeneratePageBackup.PathLineAt | frontend/src/app/generate/page_backup.tsx:183 | the `(.+?)?\n([\s\S]*?)` part from a given start: the path text ends at a newline and the body before a closing fence |
| GeneratePageBackup.PathLineShape | frontend/src/app/generate/page_backup.tsx:183 | the path text stops at the first line terminator, which is a `\n`, and the body contains no fence |
| GeneratePageBackup.AfterSlashes | frontend/src/app/generate/page_backup.tsx:183 | the greedy `\s*` after `//`, longest run first, leaves the path text after the slashes |
| GeneratePageBackup.CommentAt | frontend/src/app/generate/page_backup.tsx:183 | the optional `//` comment, tried taken and then skipped |
| GeneratePageBackup.SpaceFrom | frontend/src/app/generate/page_backup.tsx:183 | the greedy `\s*` after the language word, longest run first |
| GeneratePageBackup.LanguageFrom | frontend/src/app/generate/page_backup.tsx:183 | the optional `(\w+)?` language word, longest first and then absent |
| GeneratePageBackup.MatchAt | frontend/src/app/generate/page_backup.tsx:183 | a match at a position starts there and ends inside the text |
| GeneratePageBackup.Exec | frontend/src/app/generate/page_backup.tsx:183-186 | `exec` from `lastIndex` returns a match lying after `lastIndex` |
| GeneratePageBackup.ExecIsLeftmost | frontend/src/app/generate/page_backup.tsx:183-186 | `exec` returns the pattern's match at the start position it reports, and the pattern matches at no earlier position from `lastIndex`; no result means it matches nowhere from there |
| GeneratePageBackup.MatchAtBackupBlock | frontend/src/app/generate/page_backup.tsx:183 | a block written as a fence, a word-character language, a newline, an optional `// `, a one-line path text starting with no whitespace, a newline, a body with no fence and a closing fence is matched where it starts, with that path text and that body as the groups |
| GeneratePageBackup.ExecBackupBlock | frontend/src/app/generate/page_backup.tsx:183-186 | `exec` resumed at the start of such a block returns the whole block with its path text and body |
| GeneratePageBackup.FirstCodeLineIsPath | frontend/src/app/generate/page_backup.tsx:183-188 | because `\s*` also takes the newline after the language word, a block with no `//` comment takes its first code line as the path text: "```tsx\ncode\n```" gives path text `code` and an empty body |
| GeneratePageBackup.StripLeadingTokens | frontend/src/app/generate/page_backup.tsx:191 | removing the `^(File:\|Path:\|\s)+` run, ASCII case ignored, leaves a suffix that starts with no such token |
| GeneratePageBackup.CleanPath | frontend/src/app/generate/page_backup.tsx:188-194 | the cleaned path, from the path text or `App.tsx`, always holds a `.` |
| GeneratePageBackup.WithExtension | frontend/src/app/generate/page_backup.tsx:192-194 | after the `.tsx` rule the path always holds a dot |
| GeneratePageBackup.CleanedShape | frontend/src/app/generate/page_backup.tsx:188-194 | a cleaned path holds a dot, starts with no `File:`/`Path:`/whitespace token and ends with no whitespace |
| GeneratePageBackup.CleanPathFixed | frontend/src/app/generate/page_backup.tsx:188-194 | a path already in that shape is left as it is |
| GeneratePageBackup.CleanPathIdempotent | frontend/src/app/generate/page_backup.tsx:188-194 | cleaning a cleaned path changes nothing |
| GeneratePageBackup.ParsedPathsHaveDot | frontend/src/app/generate/page_backup.tsx:186-199 | every file read has a path holding a dot |
| GeneratePageBackup.ParseAIResponse | frontend/src/app/generate/page_backup.tsx:181-203 | the `exec` loop returns exactly `ParsedFrom`, one trimmed-content file per block in order |
| GeneratePageBackup.NonEmptyParts | frontend/src/app/generate/page_backup.tsx:210 | `filter(Boolean)` keeps only non-empty parts, all from the input |
| GeneratePageBackup.PathParts | frontend/src/app/generate/page_backup.tsx:210 | the parts of a path are non-empty and slash-free |
| GeneratePageBackup.FindKey | frontend/src/app/generate/page_backup.tsx:219-242 | `folders.get` finds a pair with the key |
| GeneratePageBackup.FindKeyAbsent | frontend/src/app/generate/page_backup.tsx:233 | a key `get` does not find is held by no pair |
| GeneratePageBackup.BuildFileTree | frontend/src/app/generate/page_backup.tsx:205-258 | the nested loops with the `folders` Map and `currentPath` build exactly `BackupTree` |
| GeneratePageBackup.PlacePart | frontend/src/app/generate/page_backup.tsx:213-252 | one pass of the inner `forEach` is one step of the tree specification: the last part is pushed as a file node under its folder's entry, or at the root when the folder is not in the Map; an earlier part not yet in the Map becomes a folder node under its parent (or at the root) and is added to the Map; a folder already in the Map changes nothing |
| GeneratePageBackup.PlaceAdds | frontend/src/app/generate/page_backup.tsx:226-249 | a push adds exactly one node: at the end of the children of the folder the Map holds under a non-empty parent path, and otherwise at the end of the roots; the Map's keys stay as they were |
| GeneratePageBackup.AddFolderBalanced | frontend/src/app/generate/page_backup.tsx:233-252 | a folder is created only for a path not yet in the Map, pushed once and stored once |
| GeneratePageBackup.FolderStepBalanced | frontend/src/app/generate/page_backup.tsx:213-253 | a part before the last adds at most its folder and keeps the tree balanced |
| GeneratePageBackup.AddPartsBalanced | frontend/src/app/generate/page_backup.tsx:209-255 | adding a file pushes its new folders once each and then one file node named by its last part |
| GeneratePageBackup.BackupTreeBalanced | frontend/src/app/generate/page_backup.tsx:205-258 | every file with a non-empty part gives exactly one file node with its original full path; every Map folder is pushed exactly once; nothing else is pushed; no folder path is stored twice or empty |
| GeneratePageBackup.BackupTreeUsesPaths | frontend/src/app/generate/page_backup.tsx:205-258 | the tree depends on the file paths only, not their contents |
| GeneratePageBackup.FilePlaced | frontend/src/app/generate/page_backup.tsx:209-231 | adding a file pushes its file node last: at the end of the roots when its path has one part, otherwise at the end of the children of the folder stored under its parts before the last, joined by `/` |
| GeneratePageBackup.LastFilePlaced | frontend/src/app/generate/page_backup.tsx:205-258 | in the built tree, the last file's node is the last root when its path has one part, and otherwise the last child of the folder stored under its directory path |
| GeneratePageBackup.GetLanguage | frontend/src/app/generate/page_backup.tsx:595-615 | the language is one of the six editor languages |
| GeneratePageBackup.LanguageOf | frontend/src/app/generate/page_backup.tsx:597-614 | the `switch` result is one of the six editor languages |
| GeneratePageBackup.LanguageOfCases | frontend/src/app/generate/page_backup.tsx:597-614 | typescript exactly for ts/tsx, css, html, json and markdown exactly for their extensions, javascript exactly for everything else |
| GeneratePageBackup.SuffixedPathIsTypeScript | frontend/src/app/generate/page_backup.tsx:595-600 | a path given `.tsx` by the clean-up is shown as TypeScript (the suffix comes from the clean-up at lines 192-194) |
| GeneratePageBackup.StripLeadingSlashes | frontend/src/app/generate/page_backup.tsx:147 | removing `^\/+` leaves a text that does not start with `/` (the same pattern serves line 73) |
| GeneratePageBackup.SetKeyLookup | frontend/src/app/generate/page_backup.tsx:148 | after `files[key] = v` the key holds `v` and every other key what it held |
| GeneratePageBackup.SetKeyKeys | frontend/src/app/generate/page_backup.tsx:148 | an existing key keeps its place, a new key goes last |
| GeneratePageBackup.FindMainFirst | frontend/src/app/generate/page_backup.tsx:66-70 | `find` returns the first file whose lower-cased path contains an app or index component name |
| GeneratePageBackup.MainFileChoice | frontend/src/app/generate/page_backup.tsx:66-71 | the main file is one of the files: the first with an app or index name, or the first file when none has one |
| GeneratePageBackup.Sandpack | frontend/src/app/generate/page_backup.tsx:60-63 | the configuration is null exactly when there are no generated files |
| GeneratePageBackup.SandpackConfigOf | frontend/src/app/generate/page_backup.tsx:60-171 | the `forEach` over the files builds exactly `Sandpack` |
| GeneratePageBackup.AddGeneratedLookup | frontend/src/app/generate/page_backup.tsx:146-151 | under each key the last generated file with that key wins, with `import.meta.env.VITE_` rewritten, not hidden; other keys keep what they held |
| GeneratePageBackup.AddGeneratedKeys | frontend/src/app/generate/page_backup.tsx:146-151 | adding files keeps the keys distinct and in place, and gives every generated file its key |
| GeneratePageBackup.NoSourceKey | frontend/src/app/generate/page_backup.tsx:147 | a generated file's key starts with `/src/`, so it is never the page's or the manifest's key |
| GeneratePageBackup.FixedKeys | frontend/src/app/generate/page_backup.tsx:75-143 | the four fixed files' keys, in the page's order, are distinct |
| GeneratePageBackup.SandpackKeys | frontend/src/app/generate/page_backup.tsx:75-151 | the keys are distinct, start with the four fixed files in order, and include every generated file's `/src/` key |
| GeneratePageBackup.SandpackLookup | frontend/src/app/generate/page_backup.tsx:73-151 | a key holds the last generated file with that key, or else the fixed file under it; the page and the manifest are always the fixed hidden ones |
| GeneratePageBackup.EditedFiles | frontend/src/app/generate/page_backup.tsx:458-463 | the `map` keeps the number of files |
| GeneratePageBackup.EditorChangeKeeps | frontend/src/app/generate/page_backup.tsx:456-466 | only files at the selected path change, and only in content; the open file stays one of the files and shows the new text; the tree is unchanged |
| GeneratePageBackup.EditorChangeTwice | frontend/src/app/generate/page_backup.tsx:456-466 | a second change to the same file overrides the first |
| ProjectsController.RequireAuth | backend/controllers/projectsController.ts:9 | authentication is required unless the variable reads `false` in any ASCII case; unset means required |
| ProjectsController.OwnerUserId | backend/controllers/projectsController.ts:12-13 | the caller's id when there is one; without required authentication the owner is never empty |
| ProjectsController.SaveChecks | backend/controllers/projectsController.ts:13-50 | 401 first for a missing caller; the save proceeds exactly when the caller is allowed, the markdown is present, a new project has a title, and a named project exists and (with authentication) is the caller's; every refusal is 400, 401, 403 or 404 |
| ProjectsController.ListChecks | backend/controllers/projectsController.ts:99-105 | the listing proceeds exactly when authentication is off or there is a caller |
| ProjectsController.OwnershipChecks | backend/controllers/projectsController.ts:169-177 | the handler proceeds exactly when the project was found and (with authentication) belongs to the caller (the edit handler repeats the check at lines 347-355) |
| ProjectsController.DetailChecks | backend/controllers/projectsController.ts:155-177 | 401 first for a missing caller; the detail proceeds exactly when there is a caller, a project id and an owned, existing project |
| ProjectsController.EditChecks | backend/controllers/projectsController.ts:328-355 | 401 first; a 400 only after the caller check, for a missing id or for missing instructions and error; the edit proceeds exactly when all checks pass |
| ProjectsController.NextNumberFresh | backend/controllers/projectsController.ts:53-60 | with the numbers in descending order, the new number exceeds every existing one, and is 1 for the first version |
| ProjectsController.FirstNumber | backend/controllers/projectsController.ts:126-129 | there is no number for a project exactly when no row is for it |
| ProjectsController.FirstNumberSnoc | backend/controllers/projectsController.ts:126-129 | a later row never replaces the number already recorded for its project |
| ProjectsController.LatestByProject | backend/controllers/projectsController.ts:125-130 | the loop records, for each project, the number of its first row and nothing for projects without rows |
| ProjectsController.FirstNumberIsLatest | backend/controllers/projectsController.ts:121-138 | with the rows in descending order, the recorded number is one of the project's numbers and the highest of them |
| ProjectsController.DropTrailingSlash | backend/controllers/projectsController.ts:213-215 | exactly one trailing `/` is removed, and a text without one is unchanged |
| ProjectsController.FastApiBaseCases | backend/controllers/projectsController.ts:209-219 | the URL without one trailing slash; else a host with an http(s) scheme without one trailing slash; else `http://`, the host up to its first `:`, a `:` and the port |
| ProjectsController.FastApiBaseDefault | backend/controllers/projectsController.ts:211-218 | with nothing configured the service is at `http://localhost:8000` |
| ProjectsController.FirstAlternative | backend/controllers/projectsController.ts:234-267 | the extension alternatives are tried in the pattern's order and end inside the text |
| ProjectsController.LastPart | backend/controllers/projectsController.ts:234 | the last `[\w.-]+\.(ext)` part, latest end first, ends after its start |
| ProjectsController.Directories | backend/controllers/projectsController.ts:234 | the starred directory group, one more directory first, ends after its start |
| ProjectsController.MentionAt | backend/controllers/projectsController.ts:234 | a path mention at a position is non-empty |
| ProjectsController.MentionAtText | backend/controllers/projectsController.ts:234 | a `dir/name.ext` mention of name characters, with an extension the pattern lists and no path character after it, matches where it starts; it ends after the first listed alternative the extension starts with, so `tsx` is cut to `ts` and `jsx` and `json` to `js` |
| ProjectsController.SourceFileAt | backend/controllers/projectsController.ts:267 | the `src/` part of a stack-trace path is non-empty |
| ProjectsController.AfterGroup | backend/controllers/projectsController.ts:267 | the optional slash is tried taken first |
| ProjectsController.StackPathAt | backend/controllers/projectsController.ts:267 | the optional `frontend`/`backend` group is tried in that order, then left out |
| ProjectsController.StackPathAtText | backend/controllers/projectsController.ts:267 | `src/` and a source path with a listed extension, bare or after `frontend/` or `backend/` and followed by no word character, matches where it starts; it ends after the first listed alternative the extension starts with, so `json` is cut to `js` |
| ProjectsController.PatternAt | backend/controllers/projectsController.ts:234-267 | either pattern's match at a position is non-empty |
| ProjectsController.NextMatch | backend/controllers/projectsController.ts:234-267 | the next match starts at or after the search position and the pattern matches there |
| ProjectsController.NextMatchIsLeftmost | backend/controllers/projectsController.ts:234-267 | the next match is the pattern's match at the position reported, and the pattern matches at no earlier position from the search position; no result means it matches nowhere from there |
| ProjectsController.MatchAllSlices | backend/controllers/projectsController.ts:234-267 | every text `match` returns is a slice of the request text at which the pattern matches |
| ProjectsController.NormalizeKeepsNames | backend/controllers/projectsController.ts:236 | text starting with a `[\w-]` character is left alone by both replacements |
| ProjectsController.MentionStartsWithName | backend/controllers/projectsController.ts:234 | every path mention starts with a `[\w-]` character |
| ProjectsController.NormalizeKeepsMentions | backend/controllers/projectsController.ts:234-236 | so normalising a path mention never changes it |
| ProjectsController.ScoreOfAbsentPath | backend/controllers/projectsController.ts:231-278 | only a path some file has can score |
| ProjectsController.ScoreFiles | backend/controllers/projectsController.ts:228-278 | the bump loops leave each path with the sum of its files' bumps: 10 per mention, 5 for a style sheet under a styling cue, 2 for a frontend or backend file under its cue, 8 per stack path, 1 for an entry point |
| ProjectsController.Ranked | backend/controllers/projectsController.ts:281-282 | one scored pair per file |
| ProjectsController.Firsts | backend/controllers/projectsController.ts:284 | the files of the pairs, in order |
| ProjectsController.ByScore | backend/controllers/projectsController.ts:281-284 | the sort keeps one pair per file |
| ProjectsController.ByScorePairs | backend/controllers/projectsController.ts:281-284 | every ranked pair is an input file with its own score |
| ProjectsController.FileRanked | backend/controllers/projectsController.ts:281-284 | every input file is ranked |
| ProjectsController.RankingStable | backend/controllers/projectsController.ts:283 | the sort is stable: files with the same score keep their input order |
| ProjectsController.Candidates | backend/controllers/projectsController.ts:281-291 | every candidate is an input file |
| ProjectsController.CandidatesWhenNothingScores | backend/controllers/projectsController.ts:286-291 | when no file scores, the candidates are the App and index entry files, or when there are none the first `min(n, maxFiles)` files |
| ProjectsController.CandidatesWhenSomethingScores | backend/controllers/projectsController.ts:281-286 | when some file scores, every file is a candidate, in descending score order |
| ProjectsController.LastSlash | backend/controllers/projectsController.ts:297-305 | `lastIndexOf('/')` gives the last slash, or -1 exactly when there is none |
| ProjectsController.InDirFiles | backend/controllers/projectsController.ts:296-301 | a folder's list holds input files of that folder only |
| ProjectsController.Siblings | backend/controllers/projectsController.ts:305-306 | siblings are input files of the same folder with another path |
| ProjectsController.AddSiblings | backend/controllers/projectsController.ts:307-311 | the inner loop only appends, stops at `maxFiles`, and appends only siblings that are allowed by the styling cue or share the extension |
| ProjectsController.Pick | backend/controllers/projectsController.ts:302-312 | the outer loop only appends, stops at `maxFiles`, appends only candidates and files, and pushes each candidate reached while there is room |
| ProjectsController.PickAllowed | backend/controllers/projectsController.ts:302-312 | every file the outer loop appends is a candidate, or an input file in a candidate's folder other than it, with its extension unless there is a styling cue |
| ProjectsController.RelevantFiles | backend/controllers/projectsController.ts:314-317 | at most `maxFiles` files, all input files, with pairwise distinct paths |
| ProjectsController.RelevantFilesAllowed | backend/controllers/projectsController.ts:294-317 | every file returned is a candidate or an allowed sibling of one: another file of its folder, with its extension unless there is a styling cue |
| ProjectsController.FirstDistinct | backend/controllers/projectsController.ts:315-317 | the first `n` picks after dropping repeated paths: at most `n`, all picked, distinct paths |
| ProjectsController.Picked | backend/controllers/projectsController.ts:294-312 | every picked file is an input file |
| ProjectsController.RelevantFilesLeadWithTop | backend/controllers/projectsController.ts:302-317 | whenever there is a candidate and room, the first relevant file is the top candidate |
| ProjectsController.IndexOfLists | backend/controllers/projectsController.ts:296-301 | each folder's list in the index holds that folder's files in input order |
| ProjectsController.IndexByDir | backend/controllers/projectsController.ts:295-301 | the loop builds exactly `IndexOf` |
| ProjectsController.PickSiblings | backend/controllers/projectsController.ts:306-311 | the inner loop with its early exit computes `AddSiblings` |
| ProjectsController.PickWithSiblings | backend/controllers/projectsController.ts:294-312 | the outer loop with its early exit computes `Pick` |
| ProjectsController.UniqueByPath | backend/controllers/projectsController.ts:315-316 | the `seen` filter keeps the first file for each path |
| ProjectsController.RankFiles | backend/controllers/projectsController.ts:281-291 | the sort and fallback give exactly `Candidates` |
| ProjectsController.PickRelevantFiles | backend/controllers/projectsController.ts:222-318 | the whole function returns `RelevantFiles` |
| ProjectsController.PutSpec | backend/controllers/projectsController.ts:408-409 | `fileMap.set` keeps paths distinct, adds the path, answers the new file for it and the old answer elsewhere |
| ProjectsController.PutAllSpec | backend/controllers/projectsController.ts:408-409 | setting a run of files: paths distinct, the union of paths, and the last file set for a path wins |
| ProjectsController.Changed | backend/controllers/projectsController.ts:409 | the changed files keep the parsed paths and contents, in order |
| ProjectsController.MergedSpec | backend/controllers/projectsController.ts:406-410 | one file per path; the union of current and changed paths; the last changed file for a path, else the last current one |
| ProjectsController.MergeFiles | backend/controllers/projectsController.ts:407-410 | the two loops over the `fileMap` give exactly `Merged` |
| ProjectsController.PathOrderPreorder | backend/controllers/projectsController.ts:380 | `sort()` without a comparator, ascending by UTF-16 code units, is a total preorder on paths |
| ProjectsController.EditServiceRequest | backend/controllers/projectsController.ts:380-390 | at most 12 files, distinct paths, all current files; the path index is a permutation of the current paths |
| ProjectsController.EditRequestPathsSorted | backend/controllers/projectsController.ts:380 | the path index is in ascending UTF-16 code-unit order |
| ProjectsController.EditProject | backend/controllers/projectsController.ts:321-457 | 200 exactly when the checks pass, a version exists and the service returned markdown; the new version is latest + 1, at least one file changed, the file count is that of the merged files, whose paths are distinct; the "no updated files" refusal is never reached |
| ProjectsController.EditArtifacts | backend/controllers/projectsController.ts:400-449 | the edit's files are every current and changed path once, each with the last changed content, else its current content |
| AiService.Throttle | Ai/main.py:61-73 | after a call `tokens_used` is at most `max(MAX_TOKENS_PER_MIN, estimate)`; it sleeps exactly when the estimate alone is over the limit or, inside the window, the sum is; after a sleep the budget is the estimate alone from the wake-up time; otherwise it grows by the estimate inside the window, or restarts at the estimate after more than 60 s; a sleep lies in [0, 60] |
| AiService.TokenBudget.constructor | Ai/main.py:57-59 | at start-up nothing is spent and the window opens at the clock reading |
| AiService.TokenBudget.ThrottleTokens | Ai/main.py:61-73 | the globals are updated in place to what `Throttle` gives, and the sleep asked for is returned |
| AiService.WindowNotAhead | Ai/main.py:63-73 | with a clock that never runs backwards, the window never starts after the last clock reading |
| AiService.SleepsWithinWindow | Ai/main.py:68-71 | however many calls come and whenever they come, every sleep lasts between no time and one window |
| AiService.Calls | Ai/main.py:224-229 | the number of completion calls a section takes: the first count whose text holds no marker, every earlier one still holding one |
| AiService.SectionText | Ai/main.py:224-229 | the text a section ends up with holds no `[CONTINUE]` |
| AiService.SectionPrompts | Ai/main.py:224-228 | one user message per call: the section prompt first, then the text so far followed by a `[CONTINUE]` line (the message layout is that of lines 76-79) |
| AiService.GenerateSection | Ai/main.py:223-229 | the continuation loop ends with `SectionText` after one call per prompt of `SectionPrompts`, each call removing every marker from the text and then adding the new reply |
| AiService.Capitalize | Ai/main.py:232 | `capitalize` keeps the length |
| AiService.CapitalizeKeepsBracketFree | Ai/main.py:232 | capitalising text without `[` gives text without `[` |
| AiService.BlocksSnoc | Ai/main.py:221-232 | one more section appends exactly its block after the earlier ones |
| AiService.SectionTexts | Ai/main.py:221-229 | one finished text per section, none holding a marker |
| AiService.Estimates | Ai/main.py:231 | one charge per section |
| AiService.SentPrompts | Ai/main.py:218-228 | each section's messages open with the base prompt, a blank line and its task |
| AiService.GenerateSections | Ai/main.py:219-232 | the `for` loop appends each section's block in order, charges the budget once per section with a quarter of its text's length after continuation, and sends the section's prompts |
| AiService.GenerateCode | Ai/main.py:211-241 | a request shorter than ten characters once stripped gets the 500 carrying the 400's text, without any call or charge; otherwise the stripped base prompt and the stripped blocks of the six sections in the declared order, with the budget charged per section |
| AiService.BlocksHaveNoMarker | Ai/main.py:232 | blocks built from bracket-free names and marker-free texts hold no marker |
| AiService.HeadingHasNoMarker | Ai/main.py:232 | a heading for a bracket-free name holds no marker and ends with a line break |
| AiService.GeneratedCodeHasNoMarker | Ai/main.py:226-236 | the generated code never holds `[CONTINUE]`: every marker was removed on the way |
| AiService.SectionNamesBracketFree | Ai/main.py:184-191 | no section name holds a `[` |
| AiService.BlocksOpenWithHeading | Ai/main.py:232-236 | stripped, the blocks open with the first section's separator and heading |
| AiService.BlocksSplit | Ai/main.py:232 | the blocks are the first section's block followed by the rest |
| AiService.CapitalizeOverview | Ai/main.py:232 | the first section is titled `Overview` (the section list is lines 184-185) |
| AiService.GeneratedCodeOpensWithOverview | Ai/main.py:221-236 | the generated code opens with `---` and the overview heading (the section list is lines 184-185) |
| HistoryController.SanitizeChar | backend/controllers/historyController.ts:28 | one character becomes as many safe characters as it has UTF-16 code units: itself when it is in `[a-zA-Z0-9.-]`, `_` otherwise |
| HistoryController.Sanitize | backend/controllers/historyController.ts:28 | the sanitised name holds only `[a-zA-Z0-9.-]` and `_`, and has the UTF-16 length of the original |
| HistoryController.SanitizeKeepsSafe | backend/controllers/historyController.ts:28 | a name already made of allowed characters and `_` is left unchanged |
| HistoryController.SanitizeIdempotent | backend/controllers/historyController.ts:28 | sanitising twice is the same as sanitising once |
| HistoryController.SanitizeAppend | backend/controllers/historyController.ts:28 | the global replace works character by character: it distributes over concatenation |
| HistoryController.SanitizePositions | backend/controllers/historyController.ts:28 | at the code-unit position of each original character, an allowed character survives and any other is `_`; lengths agree in UTF-16 |
| HistoryController.SafeUtf16 | backend/controllers/historyController.ts:28 | a sanitised name is one code unit per character |
| HistoryController.StoragePathSegments | backend/controllers/historyController.ts:28-29 | the storage path's directory is exactly the user id and its last segment is `<timestamp>_<sanitised name>`: the file name cannot add or escape a directory |
| HistoryController.StoreGeneratedFile | backend/controllers/historyController.ts:10-101 | the status is 200, 400, 401 or 500, and 200 exactly when the user id, content, name and type are all non-empty, the upload succeeded, a public URL came back and the metadata insert succeeded; at most an upload and an insert are written |
| HistoryController.FileUnauthorizedFirst | backend/controllers/historyController.ts:11-18 | a missing user id gives the 401 response with nothing written, whatever else the request holds |
| HistoryController.FileMissingFieldIs400 | backend/controllers/historyController.ts:20-25 | with a user id, a missing content, name or type gives 400 with nothing written |
| HistoryController.FileWrites | backend/controllers/historyController.ts:51-101 | a valid request first uploads the content to `user-files` under the storage path with its type; the `user_files` row (user, original name, type, path, URL) is written exactly when the upload succeeded and a URL came back; a 200 returns that URL |
| HistoryController.StoreChatMessage | backend/controllers/historyController.ts:112-150 | the status is 200, 400, 401 or 500, and 200 exactly when user id, message and role are non-empty and the insert succeeded; at most one row is written |
| HistoryController.ChatValidationOrder | backend/controllers/historyController.ts:113-145 | 401 is decided before 400, nothing is written on either, and a row `(user, message, role)` is written exactly when all three fields are present |
| HelpPage.FilterKnowledge | frontend/src/app/help/page.tsx:248-257 | the articles shown are a sub-list of the knowledge base |
| HelpPage.FilterKnowledgeExactly | frontend/src/app/help/page.tsx:248-257 | an article is shown exactly when the search occurs, ignoring case, in its title, content or one of its tags, and the category is `all` or its own |
| HelpPage.IncludesEmpty | frontend/src/app/help/page.tsx:250 | every text includes the empty search |
| HelpPage.EmptySearchShowsAll | frontend/src/app/help/page.tsx:248-257 | an empty search in category `all` shows the whole knowledge base, in order |
| HelpPage.FilterFaqs | frontend/src/app/help/page.tsx:260-264 | the FAQs shown are a sub-list of the FAQs |
| HelpPage.FilterFaqsExactly | frontend/src/app/help/page.tsx:260-264 | a FAQ is shown exactly when its question or answer contains the search, ignoring case |
| HelpPage.CategoryColumn | frontend/src/app/help/page.tsx:266 | the mapped column has one entry per article, its category |
| HelpPage.Categories | frontend/src/app/help/page.tsx:266 | the category list starts with `all` and lists no category twice after it |
| HelpPage.CategoriesComplete | frontend/src/app/help/page.tsx:266 | every article's category is offered after `all` |
| HelpPage.CategoriesSound | frontend/src/app/help/page.tsx:266 | every category offered after `all` is some article's category |
| HelpPage.CategoriesInFirstAppearanceOrder | frontend/src/app/help/page.tsx:266 | the categories after `all` come in the order of their first article, as a `Set` iterates |
| HelpPage.StatusClassesInjective | frontend/src/app/help/page.tsx:281-292 | two hues give the same class string exactly when they are the same hue |
| HelpPage.StatusColor | frontend/src/app/help/page.tsx:281-292 | operational is green, degraded yellow, outage red, and a status gets the gray classes exactly when it is none of the three |
| HelpPage.ByPopularityPreorder | frontend/src/app/help/page.tsx:552 | the comparator `b.popularity - a.popularity`, read as "may stay before", is total and transitive |
| HelpPage.InsertAt | frontend/src/app/help/page.tsx:552 | inserting into a list sorted by popularity places the element after those at least as popular and before the less popular |
| HelpPage.SortStep | frontend/src/app/help/page.tsx:552 | sorting one more element of the input is inserting it into the sorted prefix |
| HelpPage.InsertInto | frontend/src/app/help/page.tsx:552 | one in-place step moves `a[i]` into the sorted prefix and leaves the rest of the array as it was |
| HelpPage.SortByPopularity | frontend/src/app/help/page.tsx:551-552 | the array is sorted in place into the stable order by decreasing popularity |
| HelpPage.SortAdvance | frontend/src/app/help/page.tsx:552 | after each in-place step the array is the sort of one more input element followed by the untouched rest |
| HelpPage.PopularGuides | frontend/src/app/help/page.tsx:551-553 | the shared array is left sorted by popularity and the guides shown are its first five (or all, when fewer) |
| HelpPage.TopGuidesSpec | frontend/src/app/help/page.tsx:551-553 | at most five guides are shown, exactly five when there are that many; the sort is a permutation; the shown guides are in decreasing popularity and none left out is more popular than any shown |
| HelpPage.PopularityTiesKeepOrder | frontend/src/app/help/page.tsx:552 | guides of equal popularity keep their knowledge-base order (the sort is stable) |
| HelpPage.ResortChangesNothing | frontend/src/app/help/page.tsx:551-552 | sorting the already sorted array again, as each render does, changes nothing |
| HelpPage.SortedByPopularity | frontend/src/app/help/page.tsx:552 | the sort leaves every adjacent pair in the comparator's order |
| Dashboard.UnitSeconds | frontend/src/app/dashboard/page.tsx:30-33 | every unit the label counts in is at least one second long |
| Dashboard.ElapsedSeconds | frontend/src/app/dashboard/page.tsx:27-29 | the elapsed whole seconds bracket the millisecond difference (`s*1000 <= now-then < (s+1)*1000`), and a time less than a second ago or in the future counts as 0 |
| Dashboard.UnitFor | frontend/src/app/dashboard/page.tsx:30-33 | the unit chosen is the largest of seconds, minutes, hours and days that fits in the elapsed time |
| Dashboard.FormatRelativeTime | frontend/src/app/dashboard/page.tsx:26-35 | a date string that does not parse gives `NaN days ago` |
| Dashboard.DigitRun | frontend/src/app/dashboard/page.tsx:30-34 | in a label the digit run is exactly the printed number |
| Dashboard.LabelRoundTrip | frontend/src/app/dashboard/page.tsx:30-34 | every label reads back as the count and unit it was made from |
| Dashboard.LabelIsFloor | frontend/src/app/dashboard/page.tsx:26-35 | the label names the largest fitting unit and a count `c` with `c*unit <= elapsed < (c+1)*unit`: it never overstates and understates by less than one unit |
| Dashboard.FutureIsZeroSeconds | frontend/src/app/dashboard/page.tsx:29-30 | a time in the future reads `0s ago` |
| Dashboard.Buckets | frontend/src/app/dashboard/page.tsx:30-32 | under a minute the label is `<s>s ago`, under an hour `<s/60>m ago`, under a day `<s/3600>h ago` |
| Dashboard.DayLabels | frontend/src/app/dashboard/page.tsx:33-34 | from one day on it is `1 day ago` for exactly one day and `<days> days ago` otherwise |
| Dashboard.FilterProjects | frontend/src/app/dashboard/page.tsx:81-83 | the projects listed are at most those there are |
| Dashboard.FilterProjectsExactly | frontend/src/app/dashboard/page.tsx:81-83 | a project is listed exactly when its title contains the search, ignoring case |
| Dashboard.FilterProjectsAppend | frontend/src/app/dashboard/page.tsx:81-83 | the filter keeps list order: filtering a concatenation filters each part |
| Dashboard.EmptyQueryKeepsAll | frontend/src/app/dashboard/page.tsx:81-83 | an empty search lists every project, in order |
| Dashboard.BadgeClassesInjective | frontend/src/app/dashboard/page.tsx:86-90 | two hues give the same badge classes exactly when they are the same hue |
| Dashboard.StatusColor | frontend/src/app/dashboard/page.tsx:85-92 | active is green, deployed blue, draft yellow, and a status gets the gray badge exactly when it is none of the three |
| Dashboard.KnownStatusesDiffer | frontend/src/app/dashboard/page.tsx:86-89 | the three known statuses get three different badges |
| ChatWidget.Rank | frontend/src/components/chat-widget.tsx:72-94 | each topic has its own place in the order the rules are tried |
| ChatWidget.RankInjective | frontend/src/components/chat-widget.tsx:72-94 | two topics at the same place are the same topic |
| ChatWidget.TopicOf | frontend/src/components/chat-widget.tsx:70-94 | the topic found is mentioned in the lower-cased input and no earlier rule's keyword is; there is no topic exactly when no rule's keyword occurs |
| ChatWidget.GenerateBotResponse | frontend/src/components/chat-widget.tsx:69-98 | the answer is the canned answer of the first matching rule, or the default answer when none matches |
| ChatWidget.ReplyIgnoresCase | frontend/src/components/chat-widget.tsx:70 | an input and its lower-cased form get the same answer |
| ChatWidget.FirstRuleWins | frontend/src/components/chat-widget.tsx:72-94 | an input that mentions a topic and none before it gets that topic's answer |
| ChatWidget.Widget.constructor | frontend/src/components/chat-widget.tsx:21-30 | the widget starts with only the greeting (id "1", from the bot), an empty box, no typing indicator and nothing pending; the invariant holds |
| ChatWidget.Widget.SetInput | frontend/src/components/chat-widget.tsx:199 | typing replaces the box's text and changes nothing else |
| ChatWidget.Widget.HandleSend | frontend/src/components/chat-widget.tsx:41-56 | blank input (after trimming) changes nothing; otherwise the input is appended as a user message stamped with the clock, the box is cleared, the indicator shows and the input waits for its reply; the invariant (one pending reply per unanswered user message) is kept |
| ChatWidget.Widget.ReplyDue | frontend/src/components/chat-widget.tsx:56-66 | when the oldest timer fires, the answer to the input it captured is appended as a bot message with id `now+1`, the indicator is hidden and the box is untouched; the invariant is kept |
| ChatWidget.CountSnoc | frontend/src/components/chat-widget.tsx:51-64 | appending a message adds one to its sender's count and leaves the other count alone |
| Text.Trim | frontend/src/components/chat-widget.tsx:42 | `trim()`/`strip()` never lengthens a string |
| Text.TrimSpec | backend/utils/aiMarkdownParser.ts:28-29 | the trimmed text is a slice of the original with only whitespace (the runtime's own set) dropped on either side, and it neither starts nor ends with whitespace |
| Text.TrimIdempotent | frontend/src/utils/parseAIResponse.ts:18-19 | trimming twice is trimming once |
| Text.Lower | frontend/src/app/dashboard/page.tsx:82 | `toLowerCase()` keeps the length and maps each character on its own, ASCII capitals to small letters |
| Text.Split | frontend/src/app/generate/page.tsx:118 | `split` with a one-character separator gives at least one part and no part holds the separator |
| Text.JoinSplit | frontend/src/app/generate/page.tsx:118-125 | joining the parts of a split with the same separator gives the string back |
| Text.LastSegment | frontend/src/utils/parseAIResponse.ts:20 | `split(sep).pop()` is the suffix after the last separator, or the whole string when there is none |
| Text.NatToString | frontend/src/app/dashboard/page.tsx:30 | a number prints as a non-empty run of decimal digits with no leading zero |
| Text.NatToStringRoundTrip | frontend/src/app/dashboard/page.tsx:30 | a printed number reads back as itself |
| Text.NatToStringInjective | frontend/src/components/chat-widget.tsx:45-59 | different numbers print differently, so clock-based ids differ when the clock readings do |
| Text.Utf16Length | backend/controllers/historyController.ts:28 | JavaScript's `length` counts between one and two code units per character |
| Text.Utf16 | backend/controllers/projectsController.ts:380 | the UTF-16 code units of a string, as many as its `length` |
| Text.Utf16LeWithinBmp | backend/controllers/projectsController.ts:380 | without characters above U+FFFF the code-unit order and the code-point order agree |
| Text.Utf16OrderDiffersFromCodePoints | backend/controllers/projectsController.ts:380 | above U+FFFF they differ: U+1F600 sorts before U+FF01 by code units, after it by code points |
| Dedup.DedupFrom | backend/controllers/projectsController.ts:314-316 | the `seen`-set loop keeps a sub-list of the input with no two elements sharing a key and none whose key was already seen |
| Dedup.DedupKeepsEveryKey | frontend/src/app/help/page.tsx:266 | every key of the input not already seen is kept |
| Dedup.DedupKeepsFirst | backend/utils/aiMarkdownParser.ts:32-34 | the element kept for a key is the first one with that key |
| Dedup.DedupKeepsOrder | frontend/src/app/help/page.tsx:266 | kept elements come in the order of their keys' first occurrences |
| Sorting.Sort | frontend/src/app/help/page.tsx:552 | the sort is a permutation of its input |
| Sorting.SortSorted | frontend/src/app/help/page.tsx:552 | with a consistent comparator the result is in comparator order |
| Sorting.SortOfSorted | frontend/src/app/help/page.tsx:551-552 | sorting an already ordered list leaves it as it is |
| Sorting.SortStable | frontend/src/app/help/page.tsx:552 | the sort is stable: elements the comparator ties keep their relative order |
| Sorting.FilterIn | frontend/src/app/dashboard/page.tsx:81-83 | `filter` keeps exactly the elements that satisfy the test |
| Sorting.FilterAppend | frontend/src/app/dashboard/page.tsx:81-83 | filtering a concatenation is the concatenation of the filtered parts |
| Badges.HueNameInjective | frontend/src/app/dashboard/page.tsx:86-90 | the colour names of different hues differ |

## Left out

- All network and database I/O is out of scope: Supabase storage, tables and auth, the HTTP calls between frontend, backend and service, and route wiring. Their answers are parameters of the handlers that use them. The `catch` branches that turn a thrown exception into a 500 are not modelled.
- `sha256` (`crypto.createHash`) is a parameter. Nothing is assumed of it except that it is a function.
- Regular expressions are modelled only as dedicated scanners for the patterns the source uses, over Unicode scalar values. `toLowerCase` is modelled on ASCII letters only, and the `i` flag only where its pattern is ASCII.
- `Date.now()`, `new Date()`, `time.time()` and `time.sleep()` are parameters. Date strings are given already parsed, with `None` for a string that does not parse. `created_at` columns are not modelled.
- AiService.GenerateSection: requires that the model's replies eventually contain no `[CONTINUE]` (`FinishesFrom`). The source would keep calling forever on a model that always asks for more.
- AiService.GenerateCode: requires every section's replies to finish, for the same reason. LLM exceptions and the tenacity `@retry` decorators (a library not part of this model) are not modelled.
- AiService.Throttle: times are reals in seconds, as `time.time()` gives. The budget globals are updated by one request at a time; concurrent requests sharing them are not modelled.
- AiService: the wording of `create_base_prompt` and of the section prompts is kept as text. No property is proved about it beyond where it goes in the messages sent. The `/`, `/health` and `/generate-simple` endpoints and the request model's validation are not modelled.
- ProjectsController.EditProject: the model is the 200 answer (version, counts, merged files) and its refusals. The rows the source writes on the way are not modelled: the version summary text, the artifact rows with an empty `sha256`, the `updated_at` update and the best-effort `edits` row. A database error while writing them is a thrown exception and falls under the `catch` branches above.
- ProjectsController: `getProjectDetail` is modelled up to its checks (`DetailChecks`). The listing of the artifacts it returns is a database read.
- GeneratePage.BuildFileTree: the source walks down the tree with a `currentLevel` variable and pushes into shared `children` arrays. The model rebuilds a tree value per path, so aliasing between nodes is not captured.
- GeneratePage.ShownChildrenOrdered: `localeCompare` is modelled as code-point order (`Text.LexLe`), not the locale's collation. The in-place `children.sort` is modelled on values.
- GeneratePage: toasts, scrolling, copying, downloading the zip and the rest of the UI are not modelled.
- GeneratePageBackup: `downloadZip`, `copyCode` and the rendering of the bundler are not modelled.
- HistoryController.StoreGeneratedFile: only string request fields are modelled, with `None` or `""` as falsy. A non-string `fileContent` (already a buffer) is not distinguished. `getFileHistory`, `getChatHistory` and `deleteGeneratedFile` are database reads and deletes with no logic of their own, and are not modelled.
- ChatWidget.Widget: `isOpen`, `isMinimized` and scrolling are UI state and are not modelled. The 1.5 s timer is the separate step `ReplyDue`, taken once per pending reply in the order they were scheduled.
- HelpPage: the knowledge base and FAQs are the page's constant data and are parameters here. The ticket form and `getStatusIcon` (icons only) are not modelled.
- HelpPage.SortByPopularity: `Array.prototype.sort`'s algorithm is not specified beyond stability. The model sorts by insertion and proves the result equal to the stable sort, which is the only result a stable sort can give.
