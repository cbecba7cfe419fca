/** The chatbot: a keyword-first-match responder shared by the three chat surfaces, and the
    send handler that guards against blank input. */
module Chatbot {
  import opened Wrappers
  import opened Text

  /** A reply given when `keyword` occurs in the lower-cased question. */
  datatype Rule = Rule(keyword: string, reply: string)

  const SkillReply: string := "Focus on emerging tech such as Docker & Kubernetes."
  const InterviewReply: string := "Practice DSA problems and review your projects."
  const DefaultReply: string := "Thanks for reaching out! Our AI module will be enhanced soon."

  /** The rules of `generateBotReply`, in the order they are tried. */
  const Rules: seq<Rule> := [Rule("skill", SkillReply), Rule("interview", InterviewReply)]

  /** The index of the first rule, at `k` or later, whose keyword occurs in `text`. */
  function FirstMatch(rules: seq<Rule>, text: string, k: nat): (r: Option<nat>)
    ensures r.None? <==> forall i :: k <= i < |rules| ==> !Contains(text, rules[i].keyword)
    ensures r.Some? ==> k <= r.value < |rules| && Contains(text, rules[r.value].keyword)
    ensures r.Some? ==> forall i :: k <= i < r.value ==> !Contains(text, rules[i].keyword)
    decreases |rules| - k
  {
    if k >= |rules| then None
    else if Contains(text, rules[k].keyword) then Some(k)
    else FirstMatch(rules, text, k + 1)
  }

  /** `generateBotReply`: "skill" wins over "interview", and anything else gets the default. */
  function BotReply(q: string): (r: string)
    ensures Contains(ToLower(q), "skill") ==> r == SkillReply
    ensures !Contains(ToLower(q), "skill") && Contains(ToLower(q), "interview") ==> r == InterviewReply
    ensures !Contains(ToLower(q), "skill") && !Contains(ToLower(q), "interview") ==> r == DefaultReply
  {
    assert Rules[0].keyword == "skill" && Rules[1].keyword == "interview";
    match FirstMatch(Rules, ToLower(q), 0)
    case Some(i) => Rules[i].reply
    case None => DefaultReply
  }

  /** The reply does not depend on the case the question was typed in. */
  lemma BotReplyIgnoresCase(q: string)
    ensures BotReply(ToUpper(q)) == BotReply(q)
    ensures BotReply(ToLower(q)) == BotReply(q)
  {
    ToLowerForgetsCase(q);
  }

  /** Both keywords are made of lower-case letters only. */
  lemma KeywordsAreLowerLetters()
    ensures forall k :: 0 <= k < |"skill"| ==> IsLower("skill"[k])
    ensures forall k :: 0 <= k < |"interview"| ==> IsLower("interview"[k])
  {
  }

  /** Trimming the question, as the send handler does, never changes the reply. */
  lemma BotReplyIgnoresTrim(q: string)
    ensures BotReply(Trim(q)) == BotReply(q)
  {
    KeywordsAreLowerLetters();
    ContainsIgnoresTrim(q, "skill");
    ContainsIgnoresTrim(q, "interview");
  }

  /** A message in a chat surface's transcript. */
  datatype ChatMessage = FromUser(text: string) | FromBot(text: string)

  /** `sendChat` with the reply timer collapsed: blank input is ignored; otherwise the trimmed
      question and the bot's reply to it are appended. */
  function SendChat(transcript: seq<ChatMessage>, input: string): (r: seq<ChatMessage>)
    ensures AllSpace(input) ==> r == transcript
    ensures !AllSpace(input) ==> |r| == |transcript| + 2 && r[..|transcript|] == transcript
    ensures !AllSpace(input) ==>
      r[|transcript|] == FromUser(Trim(input)) && r[|transcript| + 1] == FromBot(BotReply(Trim(input)))
  {
    var q := Trim(input);
    if q == [] then transcript else transcript + [FromUser(q), FromBot(BotReply(q))]
  }

  /** The surface a question is sent from does not matter: whatever is already in a transcript,
      sending the same text appends the same two messages. */
  lemma SendChatIgnoresSurface(t1: seq<ChatMessage>, t2: seq<ChatMessage>, input: string)
    ensures SendChat(t1, input)[|t1|..] == SendChat(t2, input)[|t2|..]
  {
  }
}
