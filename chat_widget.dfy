/**
 * The support chat bubble (frontend/src/components/chat-widget.tsx): a canned-answer bot
 * that picks its reply by looking for keywords in the user's message, and the message
 * list it keeps.
 *
 * The 1.5 second `setTimeout` that delivers the bot's reply becomes a separate step,
 * `ReplyDue`, taken when the timer fires; the messages waiting for a reply are the queue
 * `pending`. `Date.now()` is the parameter `nowMs`.
 */
module ChatWidget {

  import opened Wrappers
  import opened Text

  // --- generateBotResponse

  /** The topics the bot recognises, each with a canned answer. */
  datatype Topic = Help | Deploy | Code | Pricing | Database | Team

  /** The order in which the topics are tried: the first that matches wins. */
  const TopicOrder: seq<Topic> := [Help, Deploy, Code, Pricing, Database, Team]

  /** The position of a topic in `TopicOrder`. */
  function Rank(t: Topic): (k: nat)
    ensures k < |TopicOrder| && TopicOrder[k] == t
  {
    match t
    case Help => 0
    case Deploy => 1
    case Code => 2
    case Pricing => 3
    case Database => 4
    case Team => 5
  }

  /** The words that select a topic. */
  function Keywords(t: Topic): seq<string> {
    match t
    case Help => ["help", "support"]
    case Deploy => ["deploy", "deployment"]
    case Code => ["code", "generate"]
    case Pricing => ["pricing", "cost", "billing"]
    case Database => ["database", "supabase", "firebase"]
    case Team => ["team", "collaboration"]
  }

  /** The lower-cased text contains one of the topic's keywords. */
  predicate Mentions(lower: string, t: Topic) {
    exists i :: 0 <= i < |Keywords(t)| && Contains(lower, Keywords(t)[i])
  }

  /** The topic of the first rule whose keyword occurs in the lower-cased input, if any. */
  function TopicOf(input: string): (t: Option<Topic>)
    ensures t.Some? ==> Mentions(Lower(input), t.value)
    ensures t.Some? ==> forall j :: 0 <= j < Rank(t.value) ==> !Mentions(Lower(input), TopicOrder[j])
    ensures t.None? <==> forall u :: !Mentions(Lower(input), u)
  {
    var lower := Lower(input);
    if Mentions(lower, Help) then Some(Help)
    else if Mentions(lower, Deploy) then Some(Deploy)
    else if Mentions(lower, Code) then Some(Code)
    else if Mentions(lower, Pricing) then Some(Pricing)
    else if Mentions(lower, Database) then Some(Database)
    else if Mentions(lower, Team) then Some(Team)
    else None
  }

  const HelpReply := "I'm here to help! You can ask me about:\n\U{2022} Getting started with Nexus\n\U{2022} Code generation features\n\U{2022} Deployment options\n\U{2022} Billing and account questions\n\U{2022} Technical issues\n\nWhat specific topic would you like help with?"
  const DeployReply := "Great question about deployment! Nexus supports one-click deployment to:\n\U{2022} Vercel\n\U{2022} Netlify\n\U{2022} Railway\n\nJust click the Deploy button in the navbar and choose your preferred platform. Need help with a specific deployment?"
  const CodeReply := "Our AI code generation is powerful! Here's how it works:\n\U{2022} Describe what you want to build in natural language\n\U{2022} AI creates a blueprint with features and tech stack\n\U{2022} Code is generated with live preview\n\U{2022} You can iterate and refine through conversation\n\nTry the Generate page to get started!"
  const PricingReply := "We offer flexible pricing:\n\U{2022} Free tier with basic features\n\U{2022} Pro plan at $29/month\n\U{2022} Enterprise solutions available\n\nYou can view detailed pricing in your account settings. Need help with billing?"
  const DatabaseReply := "We integrate with popular databases:\n\U{2022} Supabase (PostgreSQL)\n\U{2022} Firebase (NoSQL)\n\U{2022} Neon (Serverless PostgreSQL)\n\U{2022} Upstash (Redis)\n\nUse the Connect button in the navbar to set up your database. Which one are you interested in?"
  const TeamReply := "Team collaboration features include:\n\U{2022} Organization management\n\U{2022} Role-based access control\n\U{2022} Real-time project sharing\n\U{2022} Team chat and discussions\n\nCheck out the Organization page to set up your team!"
  const DefaultReply := "Thanks for your question! I'm here to help with Nexus Cloud Platform. You can also:\n\U{2022} Check our Help & Support page for detailed guides\n\U{2022} Browse our documentation\n\U{2022} Contact our support team directly\n\nIs there something specific I can help you with?"

  function Reply(t: Topic): string {
    match t
    case Help => HelpReply
    case Deploy => DeployReply
    case Code => CodeReply
    case Pricing => PricingReply
    case Database => DatabaseReply
    case Team => TeamReply
  }

  /** `generateBotResponse`: the answer for the input's topic, or the default answer. */
  function GenerateBotResponse(input: string): (r: string)
    ensures TopicOf(input).None? ==> r == DefaultReply
    ensures TopicOf(input).Some? ==> r == Reply(TopicOf(input).value)
  {
    match TopicOf(input)
    case None => DefaultReply
    case Some(t) => Reply(t)
  }

  lemma LowerLower(s: string)
    ensures Lower(Lower(s)) == Lower(s)
  {
  }

  /** Matching ignores case: an input and its lower-cased form get the same answer. */
  lemma ReplyIgnoresCase(input: string)
    ensures GenerateBotResponse(Lower(input)) == GenerateBotResponse(input)
  {
    LowerLower(input);
  }

  /** A message that mentions a topic gets that topic's answer unless an earlier topic also matches. */
  lemma FirstRuleWins(input: string, t: Topic)
    requires Mentions(Lower(input), t)
    requires forall j :: 0 <= j < Rank(t) ==> !Mentions(Lower(input), TopicOrder[j])
    ensures GenerateBotResponse(input) == Reply(t)
  {
    var u := TopicOf(input);
    assert Rank(u.value) == Rank(t);
    RankInjective(u.value, t);
  }

  lemma RankInjective(a: Topic, b: Topic)
    requires Rank(a) == Rank(b)
    ensures a == b
  {
  }

  // --- the message list

  datatype Sender = User | Bot

  datatype ChatMessage = ChatMessage(id: string, sender: Sender, content: string, timestamp: int)

  const Greeting := "Hi! I'm here to help you with Nexus Cloud Platform. How can I assist you today?"

  /** Blank input: `!input.trim()`. */
  predicate IsBlank(input: string) {
    Trim(JavaScript, input) == []
  }

  function CountFrom(messages: seq<ChatMessage>, s: Sender): nat {
    if messages == [] then 0
    else (if messages[|messages| - 1].sender == s then 1 else 0) + CountFrom(messages[..|messages| - 1], s)
  }

  class Widget {
    var messages: seq<ChatMessage>
    var input: string
    var isTyping: bool
    /** The inputs whose replies are still on their timers, oldest first. */
    var pending: seq<string>

    /**
     * The list starts with the greeting; every user message is eventually answered by one
     * bot message, so user messages outnumber bot messages after the greeting by exactly the
     * number of replies still on their timers.
     */
    ghost predicate Valid()
      reads this
    {
      && messages != []
      && messages[0].sender == Bot && messages[0].content == Greeting
      && CountFrom(messages, User) + 1 == CountFrom(messages, Bot) + |pending|
      && forall i :: 0 <= i < |pending| ==> !IsBlank(pending[i])
    }

    /** The widget as first rendered: only the greeting, with id "1". */
    constructor(nowMs: int)
      ensures messages == [ChatMessage("1", Bot, Greeting, nowMs)]
      ensures input == [] && !isTyping && pending == []
      ensures Valid()
    {
      messages := [ChatMessage("1", Bot, Greeting, nowMs)];
      input := [];
      isTyping := false;
      pending := [];
    }

    /** The text box's `onChange`. */
    method SetInput(text: string)
      modifies this
      ensures input == text
      ensures messages == old(messages) && isTyping == old(isTyping) && pending == old(pending)
    {
      input := text;
    }

    /**
     * `handleSend`: blank input changes nothing; otherwise the input is appended as a user
     * message, the box is cleared, the typing indicator shows and a reply is scheduled.
     */
    method HandleSend(nowMs: nat)
      requires Valid()
      modifies this
      ensures Valid()
      ensures IsBlank(old(input)) ==>
        messages == old(messages) && input == old(input) && isTyping == old(isTyping) && pending == old(pending)
      ensures !IsBlank(old(input)) ==>
        && messages == old(messages) + [ChatMessage(NatToString(nowMs), User, old(input), nowMs)]
        && input == [] && isTyping && pending == old(pending) + [old(input)]
    {
      if IsBlank(input) {
        return;
      }
      var userMessage := ChatMessage(NatToString(nowMs), User, input, nowMs);
      CountSnoc(messages, userMessage, User);
      CountSnoc(messages, userMessage, Bot);
      messages := messages + [userMessage];
      pending := pending + [input];
      input := [];
      isTyping := true;
    }

    /**
     * The reply timer of the oldest pending message fires: the bot's answer to that message
     * is appended and the typing indicator is hidden, even when other replies are still due.
     */
    method ReplyDue(nowMs: nat)
      requires Valid() && pending != []
      modifies this
      ensures Valid()
      ensures messages == old(messages) + [ChatMessage(NatToString(nowMs + 1), Bot, GenerateBotResponse(old(pending)[0]), nowMs)]
      ensures pending == old(pending)[1..] && !isTyping && input == old(input)
    {
      var botMessage := ChatMessage(NatToString(nowMs + 1), Bot, GenerateBotResponse(pending[0]), nowMs);
      CountSnoc(messages, botMessage, User);
      CountSnoc(messages, botMessage, Bot);
      messages := messages + [botMessage];
      pending := pending[1..];
      isTyping := false;
    }
  }

  /** Appending a message adds one to its sender's count and leaves the other count alone. */
  lemma CountSnoc(before: seq<ChatMessage>, m: ChatMessage, s: Sender)
    ensures CountFrom(before + [m], s) == CountFrom(before, s) + (if m.sender == s then 1 else 0)
  {
    assert (before + [m])[..|before|] == before;
  }
}
