/**
 * The generation service of Ai/main.py: the per-minute token budget, the continuation loop
 * that collects one section of an answer over several completion calls, and `/generate`,
 * which asks for the six sections in turn and assembles them under headings.
 *
 * The completion service is an oracle: what it answers, call by call, is a parameter, and
 * so are the clock readings. Times are seconds, as reals.
 */
module AiService {
  import opened Wrappers
  import opened Text

  // ------------------------------------------------------------------ the token budget

  /** Tokens allowed in one window. */
  const MaxTokensPerMin: int := 1_000_000

  /** Seconds a window lasts. */
  const WindowSeconds: real := 60.0

  /** The module globals `tokens_used` and `token_window_start`. */
  datatype Budget = Budget(tokensUsed: nat, windowStart: real)

  function Max(a: int, b: int): int {
    if a >= b then a else b
  }

  /**
   * One `throttle_tokens(estimated)` call that reads the clock as `now` and, when it sleeps,
   * as `woke` after the sleep: the new budget, and the sleep it asked for, if any.
   */
  function Throttle(b: Budget, estimated: nat, now: real, woke: real): (r: (Budget, Option<real>))
    ensures r.0.tokensUsed <= Max(MaxTokensPerMin, estimated)
    ensures r.1.Some? <==>
      || estimated > MaxTokensPerMin
      || (now - b.windowStart <= WindowSeconds && b.tokensUsed + estimated > MaxTokensPerMin)
    ensures r.1.Some? ==> r.0 == Budget(estimated, woke)
    ensures r.1.None? && now - b.windowStart <= WindowSeconds ==>
      r.0 == Budget(b.tokensUsed + estimated, b.windowStart)
    ensures r.1.None? && now - b.windowStart > WindowSeconds ==> r.0 == Budget(estimated, now)
    ensures b.windowStart <= now && r.1.Some? ==> 0.0 <= r.1.value <= WindowSeconds
  {
    var expired := now - b.windowStart > WindowSeconds;
    var used := (if expired then 0 else b.tokensUsed) + estimated;
    var start := if expired then now else b.windowStart;
    if used > MaxTokensPerMin then (Budget(estimated, woke), Some(WindowSeconds - (now - start)))
    else (Budget(used, start), None)
  }

  /** The budget globals, which `throttle_tokens` updates in place. */
  class TokenBudget {
    var tokensUsed: nat
    var windowStart: real

    function State(): Budget
      reads this
    {
      Budget(tokensUsed, windowStart)
    }

    /** At start-up nothing is spent and the window opens at the clock reading `now`. */
    constructor (now: real)
      ensures State() == Budget(0, now)
    {
      tokensUsed := 0;
      windowStart := now;
    }

    /** `throttle_tokens`: `now` is the clock before, `woke` the clock after a sleep. */
    method ThrottleTokens(estimated: nat, now: real, woke: real) returns (slept: Option<real>)
      modifies this
      ensures (State(), slept) == Throttle(old(State()), estimated, now, woke)
    {
      if now - windowStart > WindowSeconds {
        tokensUsed := 0;
        windowStart := now;
      }
      tokensUsed := tokensUsed + estimated;
      slept := None;
      if tokensUsed > MaxTokensPerMin {
        slept := Some(WindowSeconds - (now - windowStart));
        tokensUsed := estimated;
        windowStart := woke;
      }
    }
  }

  /** Clock readings `(now, woke)` of consecutive calls: time never runs backwards. */
  predicate Monotone(clock: seq<(real, real)>) {
    && (forall i :: 0 <= i < |clock| ==> clock[i].0 <= clock[i].1)
    && (forall i :: 0 < i < |clock| ==> clock[i - 1].1 <= clock[i].0)
  }

  /** The budget after one call per estimate, in order. */
  function ThrottleAll(b: Budget, estimates: seq<nat>, clock: seq<(real, real)>): Budget
    requires |estimates| == |clock|
  {
    if estimates == [] then b
    else
      var n := |estimates| - 1;
      Throttle(ThrottleAll(b, estimates[..n], clock[..n]), estimates[n], clock[n].0, clock[n].1).0
  }

  lemma ThrottleAllPrefix(b: Budget, estimates: seq<nat>, clock: seq<(real, real)>, i: nat)
    requires |estimates| == |clock| && i < |clock|
    ensures ThrottleAll(b, estimates[..i + 1], clock[..i + 1])
         == Throttle(ThrottleAll(b, estimates[..i], clock[..i]), estimates[i], clock[i].0, clock[i].1).0
  {
    assert estimates[..i + 1][..i] == estimates[..i];
    assert clock[..i + 1][..i] == clock[..i];
  }

  /** The sleep the `i`-th of those calls asks for. */
  function SleepAt(b: Budget, estimates: seq<nat>, clock: seq<(real, real)>, i: nat): Option<real>
    requires |estimates| == |clock| && i < |clock|
  {
    Throttle(ThrottleAll(b, estimates[..i], clock[..i]), estimates[i], clock[i].0, clock[i].1).1
  }

  /** The window never opens later than the last clock reading. */
  lemma {:induction false} WindowNotAhead(b: Budget, estimates: seq<nat>, clock: seq<(real, real)>)
    requires |estimates| == |clock| && clock != [] && Monotone(clock)
    requires b.windowStart <= clock[0].0
    ensures ThrottleAll(b, estimates, clock).windowStart <= clock[|clock| - 1].1
  {
    var n := |clock| - 1;
    var prev := ThrottleAll(b, estimates[..n], clock[..n]);
    if n == 0 {
      assert prev == b;
    } else {
      assert Monotone(clock[..n]);
      WindowNotAhead(b, estimates[..n], clock[..n]);
      assert clock[..n][n - 1] == clock[n - 1];
    }
    assert prev.windowStart <= clock[n].0;
  }

  /** However many calls come, and whenever they come, every sleep lasts between no time and
      one window. */
  lemma SleepsWithinWindow(b: Budget, estimates: seq<nat>, clock: seq<(real, real)>)
    requires |estimates| == |clock| && Monotone(clock)
    requires clock != [] ==> b.windowStart <= clock[0].0
    ensures forall i :: 0 <= i < |clock| && SleepAt(b, estimates, clock, i).Some? ==>
      0.0 <= SleepAt(b, estimates, clock, i).value <= WindowSeconds
  {
    forall i | 0 <= i < |clock|
      ensures ThrottleAll(b, estimates[..i], clock[..i]).windowStart <= clock[i].0
    {
      if i == 0 {
        assert ThrottleAll(b, estimates[..i], clock[..i]) == b;
      } else {
        assert Monotone(clock[..i]);
        WindowNotAhead(b, estimates[..i], clock[..i]);
        assert clock[..i][i - 1] == clock[i - 1];
      }
    }
  }

  // ------------------------------------------------------------------ continuation

  /** The text a reply ends with when the service wants to be asked for more. */
  const Marker: string := "[CONTINUE]"

  /**
   * The section text after the first `k` replies: the first reply, and then, for each
   * further reply, the text so far with every marker removed, followed by that reply.
   */
  function Accumulated(replies: seq<string>, k: nat): string
    requires 1 <= k <= |replies|
  {
    if k == 1 then replies[0] else ReplaceAll(Accumulated(replies, k - 1), Marker, "") + replies[k - 1]
  }

  /** After the first `k` replies the text still holds a marker: the loop asks for more. */
  predicate Continues(replies: seq<string>, k: nat)
    requires 1 <= k <= |replies|
  {
    Contains(Accumulated(replies, k), Marker)
  }

  /** From the `k`-th reply on, some text the loop reaches holds no marker. */
  ghost predicate FinishesFrom(replies: seq<string>, k: nat) {
    exists j :: 1 <= j && k <= j <= |replies| && !Continues(replies, j)
  }

  /** How many completion calls a section takes, counting from the `k`-th: the first count
      after which the text holds no marker. */
  function Calls(replies: seq<string>, k: nat): (n: nat)
    requires 1 <= k <= |replies| && FinishesFrom(replies, k)
    ensures k <= n <= |replies| && !Continues(replies, n)
    ensures forall j :: k <= j < n ==> Continues(replies, j)
    decreases |replies| - k
  {
    if !Continues(replies, k) then k else Calls(replies, k + 1)
  }

  /** The text a section ends up with. */
  function SectionText(replies: seq<string>): (r: string)
    requires replies != [] && FinishesFrom(replies, 1)
    ensures !Contains(r, Marker)
  {
    Accumulated(replies, Calls(replies, 1))
  }

  /** The user message that asks for more: the text so far, then a line with the marker. */
  function ContinuePrompt(previous: string): string {
    previous + "\n" + Marker
  }

  /** The user messages of a section whose loop stops after `m` calls: the section prompt,
      then, once per further call, the text so far with a marker line. */
  function SectionPrompts(sectionPrompt: string, replies: seq<string>, m: nat): (r: seq<string>)
    requires 1 <= m <= |replies|
    ensures |r| == m && r[0] == sectionPrompt
    ensures forall k :: 1 <= k < m ==> r[k] == ContinuePrompt(Accumulated(replies, k))
  {
    if m == 1 then [sectionPrompt]
    else SectionPrompts(sectionPrompt, replies, m - 1) + [ContinuePrompt(Accumulated(replies, m - 1))]
  }

  /**
   * One pass of the `/generate` loop body up to the throttle: the section prompt is sent, and
   * while the text holds a marker the text is sent back with a marker line and the next reply
   * is added to it. `replies` are the service's answers in call order; `prompts` are the user
   * messages sent, one per call.
   */
  method GenerateSection(sectionPrompt: string, replies: seq<string>) returns (text: string, prompts: seq<string>)
    requires replies != [] && FinishesFrom(replies, 1)
    ensures text == SectionText(replies)
    ensures prompts == SectionPrompts(sectionPrompt, replies, Calls(replies, 1))
  {
    text := replies[0];
    prompts := [sectionPrompt];
    ghost var n := Calls(replies, 1);
    while Contains(text, Marker)
      invariant 1 <= |prompts| <= n
      invariant text == Accumulated(replies, |prompts|)
      invariant prompts == SectionPrompts(sectionPrompt, replies, |prompts|)
      decreases n - |prompts|
    {
      var k := |prompts|;
      assert Continues(replies, k);
      assert k < n;
      prompts := prompts + [ContinuePrompt(text)];
      AccumulatedNext(replies, k);
      text := ReplaceAll(text, Marker, "") + replies[k];
    }
    assert !Continues(replies, |prompts|);
  }

  lemma AccumulatedNext(replies: seq<string>, k: nat)
    requires 1 <= k < |replies|
    ensures Accumulated(replies, k + 1) == ReplaceAll(Accumulated(replies, k), Marker, "") + replies[k]
  {
  }

  // ------------------------------------------------------------------ the sections

  /** The keys of `SECTION_PROMPTS`, in order. */
  const SectionNames: seq<string> := ["overview", "structure", "frontend", "backend", "setup", "notes"]

  /** The values of `SECTION_PROMPTS`, in the same order. */
  const SectionTasks: seq<string> :=
  [
    "Start with Part 1 - \U{2705} Project Overview. Describe the purpose, features, and architecture of the app based on the user's request.",
    "Generate Part 2 - \U{1F4C1} Folder Structure in markdown tree format showing both frontend/ and backend/ directories.",
    "Generate Part 3 - \U{1F522} Frontend Code: All React TypeScript components, hooks, Zustand stores, Tailwind CSS, and Vite configuration files.",
    "Generate Part 4 - \U{1F522} Backend Code: Express.js TypeScript server, API routes, middleware, Supabase integration, and authentication.",
    "Generate Part 5 - \U{1F680} Setup Instructions for installing dependencies, configuring environment variables, setting up Supabase, and running both frontend and backend.",
    "Generate Part 6 - \U{1F4DD} Notes about environment variables, Supabase configuration, assumptions, limitations, and optional improvements."
  ]

  /** ASCII lower case letters become upper case; every other character is kept. */
  function UpperChar(c: char): char {
    if 'a' <= c <= 'z' then (c as int - 32) as char else c
  }

  /** `str.capitalize()` on ASCII text: the first letter upper case, the rest lower case. */
  function Capitalize(s: string): (r: string)
    ensures |r| == |s|
  {
    if s == [] then [] else [UpperChar(s[0])] + Lower(s[1..])
  }

  /** What the headings are built from has no bracket, and neither do the headings. */
  lemma CapitalizeKeepsBracketFree(s: string)
    requires '[' !in s
    ensures '[' !in Capitalize(s)
  {
    var r := Capitalize(s);
    forall i | 0 <= i < |r| ensures r[i] != '[' {
      assert s[i] in s;
      if i > 0 {
        assert r[i] == LowerChar(s[1..][i - 1]);
      }
    }
  }

  /** The heading a section is introduced by. */
  function Heading(name: string): string {
    "\n\n" + HeadingLine(name) + "\n\n"
  }

  /** The heading's own line: a separator line, then the capitalised name. */
  function HeadingLine(name: string): string {
    "---\n### \U{1F539} " + Capitalize(name)
  }

  /** What one section adds to `full_response`. */
  function Block(name: string, text: string): string {
    Heading(name) + Trim(Python, text)
  }

  /** The sections' blocks, one after the other. */
  function Blocks(names: seq<string>, texts: seq<string>): string
    requires |names| == |texts|
  {
    if names == [] then [] else Block(names[0], texts[0]) + Blocks(names[1..], texts[1..])
  }

  lemma {:induction false} BlocksSnoc(names: seq<string>, texts: seq<string>, n: string, t: string)
    requires |names| == |texts|
    ensures Blocks(names + [n], texts + [t]) == Blocks(names, texts) + Block(n, t)
  {
    if names == [] {
      assert names + [n] == [n] && texts + [t] == [t];
    } else {
      assert (names + [n])[1..] == names[1..] + [n];
      assert (texts + [t])[1..] == texts[1..] + [t];
      BlocksSnoc(names[1..], texts[1..], n, t);
    }
  }

  lemma BlocksPrefix(names: seq<string>, texts: seq<string>, i: nat)
    requires |names| == |texts| && i < |names|
    ensures Blocks(names[..i + 1], texts[..i + 1]) == Blocks(names[..i], texts[..i]) + Block(names[i], texts[i])
  {
    assert names[..i + 1] == names[..i] + [names[i]];
    assert texts[..i + 1] == texts[..i] + [texts[i]];
    BlocksSnoc(names[..i], texts[..i], names[i], texts[i]);
  }

  /** `create_base_prompt(user_input)`. */
  function BasePrompt(userInput: string): string {
    PromptLead + userInput + PromptMiddle + userInput + PromptTail
  }

  datatype Generated = Generated(generatedPrompt: string, generatedCode: string)

  /** An `HTTPException` as `generate_code` raises it. */
  datatype HttpError = HttpError(status: nat, detail: string)

  /** The input check's `HTTPException(400)`, caught by the handler's blanket `except` and
      reported with its text inside a 500. */
  const InputTooShort := HttpError(500, "AI generation failed: 400: Input too short")

  /** The request is long enough once surrounding whitespace is stripped. */
  predicate LongEnough(userInput: string) {
    |Trim(Python, userInput)| >= 10
  }

  /** Every section is answered, and each one eventually stops asking for more. */
  ghost predicate AllFinish(replies: seq<seq<string>>) {
    forall i :: 0 <= i < |replies| ==> replies[i] != [] && FinishesFrom(replies[i], 1)
  }

  /** The finished text of each section. */
  function SectionTexts(replies: seq<seq<string>>): (texts: seq<string>)
    requires AllFinish(replies)
    ensures |texts| == |replies|
    ensures forall i :: 0 <= i < |texts| ==> !Contains(texts[i], Marker)
  {
    seq(|replies|, i requires 0 <= i < |replies| => SectionText(replies[i]))
  }

  /** The tokens charged for each section: a quarter of its length, rounded down. */
  function Estimates(texts: seq<string>): (e: seq<nat>)
    ensures |e| == |texts|
  {
    seq(|texts|, i requires 0 <= i < |texts| => |texts[i]| / 4)
  }

  /** The user messages sent for each section: the section opens with the base prompt and its
      task. */
  function SentPrompts(basePrompt: string, tasks: seq<string>, replies: seq<seq<string>>): (r: seq<seq<string>>)
    requires |tasks| == |replies| && AllFinish(replies)
    ensures |r| == |tasks|
    ensures forall i :: 0 <= i < |r| ==>
      r[i] == SectionPrompts(basePrompt + "\n\n" + tasks[i], replies[i], Calls(replies[i], 1))
  {
    seq(|tasks|, i requires 0 <= i < |tasks| =>
      SectionPrompts(basePrompt + "\n\n" + tasks[i], replies[i], Calls(replies[i], 1)))
  }

  /**
   * The `for` loop of `/generate` over sections named `names` with tasks `tasks`: each section
   * is collected, the budget charged for it, and its block added to `full`.
   */
  method GenerateSections(budget: TokenBudget, basePrompt: string, names: seq<string>, tasks: seq<string>,
                          replies: seq<seq<string>>, clock: seq<(real, real)>)
    returns (full: string, sent: seq<seq<string>>)
    requires |names| == |tasks| == |replies| == |clock| && AllFinish(replies)
    modifies budget
    ensures full == Blocks(names, SectionTexts(replies))
    ensures budget.State() == ThrottleAll(old(budget.State()), Estimates(SectionTexts(replies)), clock)
    ensures sent == SentPrompts(basePrompt, tasks, replies)
  {
    full := "";
    sent := [];
    ghost var all := SectionTexts(replies);
    ghost var allSent := SentPrompts(basePrompt, tasks, replies);
    ghost var start := budget.State();
    for i := 0 to |names|
      invariant full == Blocks(names[..i], all[..i])
      invariant budget.State() == ThrottleAll(start, Estimates(all)[..i], clock[..i])
      invariant sent == allSent[..i]
    {
      var text, prompts := GenerateSection(basePrompt + "\n\n" + tasks[i], replies[i]);
      assert text == all[i] && prompts == allSent[i];
      PrefixSnoc(allSent, i);
      var _ := budget.ThrottleTokens(|text| / 4, clock[i].0, clock[i].1);
      ThrottleAllPrefix(start, Estimates(all), clock, i);
      BlocksPrefix(names, all, i);
      full := full + Block(names[i], text);
      sent := sent + [prompts];
    }
    assert names[..|names|] == names && all[..|names|] == all && allSent[..|names|] == allSent;
    assert clock[..|names|] == clock && Estimates(all)[..|names|] == Estimates(all);
  }

  lemma PrefixSnoc<T>(s: seq<T>, i: nat)
    requires i < |s|
    ensures s[..i + 1] == s[..i] + [s[i]]
  {
  }

  /**
   * `POST /generate` with `{userInput}`: `replies[i]` are the service's answers for the `i`-th
   * section in call order and `clock[i]` the clock readings of that section's throttle call.
   * `sent[i]` are the user messages sent for the `i`-th section.
   */
  method GenerateCode(budget: TokenBudget, userInput: string, replies: seq<seq<string>>, clock: seq<(real, real)>)
    returns (r: Result<Generated, HttpError>, sent: seq<seq<string>>)
    requires |replies| == |clock| == |SectionNames| && AllFinish(replies)
    modifies budget
    ensures !LongEnough(userInput) ==> r == Err(InputTooShort) && sent == [] && budget.State() == old(budget.State())
    ensures LongEnough(userInput) ==>
      && r == Ok(Generated(Trim(Python, BasePrompt(userInput)),
                           Trim(Python, Blocks(SectionNames, SectionTexts(replies)))))
      && budget.State() == ThrottleAll(old(budget.State()), Estimates(SectionTexts(replies)), clock)
      && sent == SentPrompts(BasePrompt(userInput), SectionTasks, replies)
  {
    if !LongEnough(userInput) {
      return Err(InputTooShort), [];
    }
    var basePrompt := BasePrompt(userInput);
    var full;
    full, sent := GenerateSections(budget, basePrompt, SectionNames, SectionTasks, replies, clock);
    r := Ok(Generated(Trim(Python, basePrompt), Trim(Python, full)));
  }

  // ------------------------------------------------------------------ what /generate returns

  /** No heading holds a marker, nor does the text under it. */
  lemma {:induction false} BlocksHaveNoMarker(names: seq<string>, texts: seq<string>)
    requires |names| == |texts|
    requires forall i :: 0 <= i < |names| ==> '[' !in names[i] && !Contains(texts[i], Marker)
    ensures !Contains(Blocks(names, texts), Marker)
  {
    if names != [] {
      var h, t, rest := Heading(names[0]), Trim(Python, texts[0]), Blocks(names[1..], texts[1..]);
      HeadingHasNoMarker(names[0]);
      TrimKeepsAbsent(Python, texts[0], Marker);
      NotContainsConcat(h, t, Marker);
      BlocksHaveNoMarker(names[1..], texts[1..]);
      if rest != [] {
        assert rest[0] == '\n';
      }
      NotContainsConcat(h + t, rest, Marker);
    }
  }

  /** A heading for a name without brackets holds no marker, and it ends with a line break. */
  lemma HeadingHasNoMarker(name: string)
    requires '[' !in name
    ensures !Contains(Heading(name), Marker)
    ensures Heading(name)[|Heading(name)| - 1] == '\n'
  {
    CapitalizeKeepsBracketFree(name);
    var h := Heading(name);
    assert '[' !in h;
    NoFirstChar(h, Marker);
  }

  /** The generated code never asks to be continued: every marker was removed on the way. */
  lemma GeneratedCodeHasNoMarker(replies: seq<seq<string>>)
    requires |replies| == |SectionNames| && AllFinish(replies)
    ensures !Contains(Trim(Python, Blocks(SectionNames, SectionTexts(replies))), Marker)
  {
    SectionNamesBracketFree();
    BlocksHaveNoMarker(SectionNames, SectionTexts(replies));
    TrimKeepsAbsent(Python, Blocks(SectionNames, SectionTexts(replies)), Marker);
  }

  lemma SectionNamesBracketFree()
    ensures forall i :: 0 <= i < |SectionNames| ==> '[' !in SectionNames[i]
  {
  }

  /** Trimmed, the blocks open with the first section's heading, without the line breaks in
      front of its separator. */
  lemma BlocksOpenWithHeading(names: seq<string>, texts: seq<string>)
    requires |names| == |texts| && names != [] && names[0] != []
    requires !IsSpace(Python, Capitalize(names[0])[|names[0]| - 1])
    ensures StartsWith(Trim(Python, Blocks(names, texts)), HeadingLine(names[0]))
  {
    var h := HeadingLine(names[0]);
    var rest := "\n\n" + Trim(Python, texts[0]) + Blocks(names[1..], texts[1..]);
    BlocksSplit(names, texts);
    assert h[0] == '-';
    assert AllSpace(Python, "\n\n");
    TrimStartAfterSpace(Python, "\n\n", h + rest);
    assert h[|h| - 1] == Capitalize(names[0])[|names[0]| - 1];
    TrimEndKeepsHead(Python, h, rest);
  }

  lemma BlocksSplit(names: seq<string>, texts: seq<string>)
    requires |names| == |texts| && names != []
    ensures Blocks(names, texts) == "\n\n" + (HeadingLine(names[0]) + ("\n\n" + Trim(Python, texts[0]) + Blocks(names[1..], texts[1..])))
  {
    var a, c, d := HeadingLine(names[0]), Trim(Python, texts[0]), Blocks(names[1..], texts[1..]);
    assert Blocks(names, texts) == Heading(names[0]) + c + d;
    assert Heading(names[0]) == "\n\n" + a + "\n\n";
    Regroup(a, c, d);
  }

  lemma Regroup(a: string, c: string, d: string)
    ensures "\n\n" + a + "\n\n" + c + d == "\n\n" + (a + ("\n\n" + c + d))
  {
  }

  lemma CapitalizeOverview()
    ensures Capitalize("overview") == "Overview"
  {
    var s := "overview";
    assert s[1..] == "verview";
    LowerKeepsSmall("verview");
    assert UpperChar(s[0]) == 'O';
    assert ['O'] + "verview" == "Overview";
  }

  /** Text without ASCII capitals is its own lower case. */
  lemma LowerKeepsSmall(s: string)
    requires forall i :: 0 <= i < |s| ==> !('A' <= s[i] <= 'Z')
    ensures Lower(s) == s
  {
  }

  /** The generated code opens with the overview's heading. */
  lemma GeneratedCodeOpensWithOverview(replies: seq<seq<string>>)
    requires |replies| == |SectionNames| && AllFinish(replies)
    ensures StartsWith(Trim(Python, Blocks(SectionNames, SectionTexts(replies))), "---\n### \U{1F539} Overview")
  {
    CapitalizeOverview();
    assert HeadingLine("overview") == "---\n### \U{1F539} Overview";
    BlocksOpenWithHeading(SectionNames, SectionTexts(replies));
  }

  // ------------------------------------------------------------------ the prompt template

  /** The template of `create_base_prompt` up to the first copy of the request. */
  const PromptLead: string :=
    "\n"
    + "You are an expert Full-Stack Developer and Prompt Engineer with 25+ years of experience.\n"
    + "\n"
    + "Your task is to generate **production-grade, modular, scalable, and well-documented** code for a full-stack web application described below.\n"
    + "\n"
    + "---\n"
    + "\n"
    + "\U{1F9FE} **User Request**: \""

  /** The template between the two copies of the request. */
  const PromptMiddle: string :=
    "\"\n"
    + "\n"
    + "---\n"
    + "\n"
    + "### \U{1F527} Tech Stack\n"
    + "- **Frontend**: React (TypeScript) + Tailwind CSS + Vite + React Router + Zustand\n"
    + "- **Backend**: Express.js (TypeScript) + Node.js + Supabase\n"
    + "- **Database**: Supabase (PostgreSQL)\n"
    + "- **State Management**: Zustand\n"
    + "- **Authentication**: Supabase Auth + JWT\n"
    + "- **Styling**: Tailwind CSS\n"
    + "- **Build Tool**: Vite\n"
    + "\n"
    + "---\n"
    + "\n"
    + "### \U{1F4CB} Project Requirements\n"
    + "- Write clean, modular, DRY code using best practices (e.g., SOLID principles)\n"
    + "- Include detailed inline comments and proper TypeScript types\n"
    + "- Provide a complete and runnable folder/file structure\n"
    + "- Ensure ALL imports work correctly (no missing files or broken paths)\n"
    + "- Include complete configuration files:\n"
    + "  - Frontend: `package.json`, `vite.config.ts`, `index.html`, `tailwind.config.js`, `tsconfig.json`, `.env.example`\n"
    + "  - Backend: `package.json`, `tsconfig.json`, `.env.example`\n"
    + "- Make sure all environment variables are properly handled using:\n"
    + "  - Frontend: `import.meta.env.VITE_VARIABLE_NAME`\n"
    + "  - Backend: `process.env.VARIABLE_NAME`\n"
    + "- Include comprehensive `README.md` with step-by-step setup instructions\n"
    + "- All React Router paths should work correctly\n"
    + "- Proper error handling and loading states\n"
    + "- Responsive design with Tailwind CSS\n"
    + "\n"
    + "---\n"
    + "\n"
    + "### \U{1F4C2} Output Format (Strict Markdown Format)\n"
    + "Follow this exact format so the code can be parsed correctly:\n"
    + "\n"
    + "1. \U{2705} **Project Overview**: Describe app purpose, features, architecture, and data flow\n"
    + "2. \U{1F4C1} **Folder Structure**: Complete markdown tree format showing frontend/ and backend/ folders\n"
    + "3. \U{1F522} **Frontend Code**: All React TypeScript components, hooks, stores, and config files\n"
    + "4. \U{1F522} **Backend Code**: Express.js TypeScript API, middleware, routes, and Supabase integration\n"
    + "5. \U{1F680} **Setup Instructions**: Complete step-by-step guide for both frontend and backend\n"
    + "6. \U{1F4DD} **Notes**: Environment variables, assumptions, and optional improvements\n"
    + "\n"
    + "Use markdown headers like:\n"
    + "```\n"
    + "#### frontend/src/App.tsx\n"
    + "```typescript\n"
    + "// code here\n"
    + "```\n"
    + "\n"
    + "#### backend/src/server.ts\n"
    + "```typescript\n"
    + "// code here\n"
    + "```\n"
    + "\n"
    + "---\n"
    + "\n"
    + "### \U{1F6D1} Critical Requirements for Environment Variables\n"
    + "- Use `import.meta.env.VITE_SUPABASE_URL` and `import.meta.env.VITE_SUPABASE_ANON_KEY` for frontend\n"
    + "- Create proper `.env.example` files with all required variables\n"
    + "- Include environment variable setup in README\n"
    + "- Handle missing environment variables gracefully with fallbacks or clear error messages\n"
    + "\n"
    + "---\n"
    + "\n"
    + "### \U{1F6D1} Large Output Instructions\n"
    + "If output exceeds token limit:\n"
    + "- End with `[CONTINUE]`\n"
    + "- In the next response, **resume exactly where you stopped** \U{2014} don't repeat completed sections\n"
    + "\n"
    + "---\n"
    + "\n"
    + "Generate the complete full-stack application for: **\""

  /** The template after the second copy of the request. */
  const PromptTail: string :=
    "\"**\n"
    + "\n"
    + "Make sure to create a fully functional project that can be immediately run after following the setup instructions.\n"
    + "    "
}
