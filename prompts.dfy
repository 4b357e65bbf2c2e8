/**
 * The worker's system prompts (services/worker/src/prompts.py): two base
 * prompts, one per kind of request, and per-level rule tables that are
 * appended to them. The level a caller asks for is normalised first;
 * anything that is not one of the five known CEFR levels falls back to B1.
 */
module Prompts {
  import opened Common
  import opened Text

  const DefaultLevel: string := "B1"

  const ReplyBasePrompt: string :=
    "You are an AI English Conversation Tutor.\n"
    + "Have a natural, friendly conversation         in English and help the user practice.\n"
    + "Stay within everyday topics         (hobbies, study/work, travel, relationships,         lifestyle, feelings, culture, plans).\n"
    + "\n"
    + "Rules:\n"
    + "- Reply in English.\n"
    + "- Be warm and supportive.\n"
    + "- Infer the user\'s meaning even if their English is broken.\n"
    + "- Ask at least one follow-up question.\n"
    + "- If the user asks about programming,         math, ML, or other unrelated topics:         briefly refuse and redirect to English practice.\n"

  const FeedbackBasePrompt: string :=
    "You are an English language checker.\n"
    + "Analyse ONLY the user\'s last message in English.         Find up to 5 important mistakes.\n"
    + "\n"
    + "Return EXACTLY ONE valid JSON object and NOTHING else.\n"
    + "No markdown, no backticks, no extra text.\n"
    + "\n"
    + "Output JSON schema (example):\n"
    + "{\n"
    + "  \"language_feedback\": {\n"
    + "    \"items\": [\n"
    + "      {\n"
    + "        \"user_text\": \"\U{2026}\",\n"
    + "        \"error_type\": \"grammar\",\n"
    + "        \"explanation\": \"\U{2026}\",\n"
    + "        \"text_corrected\": \"\U{2026}\"\n"
    + "      }\n"
    + "    ],\n"
    + "    \"overall_comment\": \"\U{2026}\"\n"
    + "  }\n"
    + "}\n"
    + "\n"
    + "Rules:\n"
    + "- error_type must be one of:         grammar, vocabulary, word_order,         spelling, punctuation, style, other\n"
    + "- user_text must be an exact fragment copied from the user\'s message\n"
    + "- If there are no mistakes:         items must be [] and overall_comment must be         \"No mistakes \U{2014} great job!\"\n"

  /** The header line every reply rule starts with, followed by the level's name. */
  const ReplyRulesHeader: string := "LANGUAGE LEVEL: "

  /** The header line every feedback rule starts with, followed by the level's name. */
  const FeedbackRulesHeader: string := "EXPLANATION STYLE: "

  const LevelRulesReply: map<string, string> := map[
    "A1" := ReplyRulesHeader + "A1" + "\n"
      + "- Use very short, simple sentences.\n"
      + "- Use very common words.\n"
      + "- Use mostly Present Simple.\n"
      + "- Ask only 1 short follow-up question.\n",
    "A2" := ReplyRulesHeader + "A2" + "\n"
      + "- Use simple sentences and common vocabulary.\n"
      + "- Use Present Simple, Present Continuous,         and Past Simple when needed.\n"
      + "- Avoid idioms.\n"
      + "- Ask 1\U{2013}2 follow-up questions.\n",
    "B1" := ReplyRulesHeader + "B1" + "\n"
      + "- Use clear, natural conversational English.\n"
      + "- Prefer common vocabulary.\n"
      + "- Avoid complex grammar.\n"
      + "- Ask 1\U{2013}2 follow-up questions.\n",
    "B2" := ReplyRulesHeader + "B2" + "\n"
      + "- Use fluent, natural English with             richer vocabulary.\n"
      + "- You may use common idioms and             phrasal verbs, but keep it friendly.\n"
      + "- Ask 2\U{2013}3 follow-up questions.\n",
    "C1" := ReplyRulesHeader + "C1" + "\n"
      + "- Use near-native, natural English.\n"
      + "- Use nuanced vocabulary, but keep it conversational, not academic.\n"
      + "- Ask 2\U{2013}3 follow-up questions.\n"
  ]

  const LevelRulesFeedback: map<string, string> := map[
    "A1" := FeedbackRulesHeader + "A1" + "\n"
      + "        - Explain very simply. You may use Russian.\n",
    "A2" := FeedbackRulesHeader + "A2" + "\n"
      + "        - Explain simply and briefly. You may use Russian.\n",
    "B1" := FeedbackRulesHeader + "B1" + "\n"
      + "        - Keep explanations short and clear. You may use Russian.\n",
    "B2" := FeedbackRulesHeader + "B2" + "\n"
      + "- Explanations can be a bit more         detailed, but still concise. You may use Russian.\n",
    "C1" := FeedbackRulesHeader + "C1" + "\n"
      + "- Keep explanations         minimal and precise. You may use Russian.\n"
  ]

  /** The levels both rule tables know. */
  predicate IsLevel(k: string)
  {
    k == "A1" || k == "A2" || k == "B1" || k == "B2" || k == "C1"
  }

  /**
   * `normalize_level`: a missing or empty level gives the default; otherwise
   * the stripped, upper-cased text if it names a known level, else the default.
   */
  function NormalizeLevel(level: Option<string>): (r: string)
    ensures IsLevel(r) && r in LevelRulesReply && r in LevelRulesFeedback
    ensures r != DefaultLevel ==> level.Some? && r == Upper(Strip(level.value))
  {
    RuleTableKeys(DefaultLevel);
    if level.None? || level.value == "" then DefaultLevel
    else
      var up := Upper(Strip(level.value));
      RuleTableKeys(up);
      RuleTableKeys(DefaultLevel);
      if up in LevelRulesReply then up else DefaultLevel
  }

  /** The rule tables have exactly the five levels as keys. */
  lemma RuleTableKeys(k: string)
    ensures k in LevelRulesReply <==> IsLevel(k)
    ensures k in LevelRulesFeedback <==> IsLevel(k)
  {
  }

  /** A level name is unchanged by `upper()`. */
  lemma UpperOfLevel(k: string)
    requires IsLevel(k)
    ensures Upper(k) == k
  {
    assert |Upper(k)| == 2 && Upper(k)[0] == k[0] && Upper(k)[1] == k[1];
  }

  /** Normalising a normalised level changes nothing. */
  lemma NormalizeLevelIdempotent(level: Option<string>)
    ensures NormalizeLevel(Some(NormalizeLevel(level))) == NormalizeLevel(level)
  {
    var k := NormalizeLevel(level);
    StripUnchanged(k);
    UpperOfLevel(k);
  }

  /** A character that upper-cases to a non-space character is not a space. */
  lemma UpperCharKeepsSpace(c: char)
    requires IsSpace(c)
    ensures UpperChar(c) == c
  {
  }

  /**
   * Surrounding whitespace and letter case do not matter: any spelling that
   * upper-cases to a known level, padded with whitespace, selects that level.
   */
  lemma NormalizeLevelPadded(pre: string, v: string, post: string)
    requires IsLevel(Upper(v))
    requires forall i :: 0 <= i < |pre| ==> IsSpace(pre[i])
    requires forall i :: 0 <= i < |post| ==> IsSpace(post[i])
    ensures NormalizeLevel(Some(pre + v + post)) == Upper(v)
  {
    var k := Upper(v);
    assert |v| == 2;
    if IsSpace(v[0]) {
      UpperCharKeepsSpace(v[0]);
      assert false;
    }
    if IsSpace(v[1]) {
      UpperCharKeepsSpace(v[1]);
      assert false;
    }
    StripPadded(pre, v, post);
  }

  /** Anything that is not one of the five levels selects B1. */
  lemma UnknownLevelIsDefault(s: string)
    requires !IsLevel(Upper(Strip(s)))
    ensures NormalizeLevel(Some(s)) == DefaultLevel
  {
  }

  /**
   * C2, which the web settings accept, has no prompt rules of its own: any
   * spelling of it selects B1.
   */
  lemma C2IsDefault(s: string)
    requires Upper(Strip(s)) == "C2"
    ensures NormalizeLevel(Some(s)) == DefaultLevel
  {
    UnknownLevelIsDefault(s);
  }

  /** `get_prompt`: the base prompt of the kind, a blank line, then the level's rules. */
  function GetPrompt(level: Option<string>, kind: string): (r: Result<string, string>)
    ensures r.Ok? <==> kind == "reply" || kind == "feedback"
    ensures r.Err? ==> r.error == "Unknown kind: " + kind
  {
    var lvl := NormalizeLevel(level);
    if kind == "reply" then Ok(ReplyBasePrompt + "\n" + LevelRulesReply[lvl])
    else if kind == "feedback" then Ok(FeedbackBasePrompt + "\n" + LevelRulesFeedback[lvl])
    else Err("Unknown kind: " + kind)
  }

  /** The two characters after a reply rule's header name its level. */
  lemma ReplyRuleNamesLevel(k: string)
    requires IsLevel(k)
    ensures |LevelRulesReply[k]| >= |ReplyRulesHeader| + 2
    ensures LevelRulesReply[k][|ReplyRulesHeader|..|ReplyRulesHeader| + 2] == k
  {
  }

  /** The two characters after a feedback rule's header name its level. */
  lemma FeedbackRuleNamesLevel(k: string)
    requires IsLevel(k)
    ensures |LevelRulesFeedback[k]| >= |FeedbackRulesHeader| + 2
    ensures LevelRulesFeedback[k][|FeedbackRulesHeader|..|FeedbackRulesHeader| + 2] == k
  {
  }

  /** The two characters after a rule's header name its level. */
  lemma RulesNameTheirLevel(k: string)
    requires IsLevel(k)
    ensures |LevelRulesReply[k]| >= |ReplyRulesHeader| + 2
    ensures LevelRulesReply[k][|ReplyRulesHeader|..|ReplyRulesHeader| + 2] == k
    ensures |LevelRulesFeedback[k]| >= |FeedbackRulesHeader| + 2
    ensures LevelRulesFeedback[k][|FeedbackRulesHeader|..|FeedbackRulesHeader| + 2] == k
  {
    ReplyRuleNamesLevel(k);
    FeedbackRuleNamesLevel(k);
  }

  /** Cancelling a common prefix. */
  lemma PrefixCancel(p: string, x: string, y: string)
    requires p + x == p + y
    ensures x == y
  {
    assert x == (p + x)[|p|..];
    assert y == (p + y)[|p|..];
  }

  /**
   * Two requests get the same prompt of a kind exactly when their levels
   * normalise to the same level: every level has its own prompt.
   */
  lemma {:induction false} PromptSelectsLevel(l1: Option<string>, l2: Option<string>, kind: string)
    requires kind == "reply" || kind == "feedback"
    ensures GetPrompt(l1, kind) == GetPrompt(l2, kind) <==> NormalizeLevel(l1) == NormalizeLevel(l2)
  {
    var k1 := NormalizeLevel(l1);
    var k2 := NormalizeLevel(l2);
    if GetPrompt(l1, kind) == GetPrompt(l2, kind) {
      RulesNameTheirLevel(k1);
      RulesNameTheirLevel(k2);
      if kind == "reply" {
        PrefixCancel(ReplyBasePrompt + "\n", LevelRulesReply[k1], LevelRulesReply[k2]);
      } else {
        PrefixCancel(FeedbackBasePrompt + "\n", LevelRulesFeedback[k1], LevelRulesFeedback[k2]);
      }
    }
  }
}
