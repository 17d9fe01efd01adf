/**
 * The topic composer (src/lib/topic-generator.ts), freeform mode: the request
 * it sends, and how the collaborator's JSON answer becomes a title and a body.
 */
module TopicGenerator {
  import opened Types
  import opened Text
  import Ai

  /** `JSON.parse(raw) as { title?: string; content?: string }`. */
  datatype ParsedTopic = ParsedTopic(title: Option<string>, content: Option<string>)

  datatype TopicPost = TopicPost(title: string, content: string)

  const UntitledPlaceholder: string := "无标题"
  const MaxTitleLength: nat := 40
  const TopicMaxTokens: nat := 500
  const TopicTemperature: real := 0.9

  const TopicRules: string :=
    "\n你需要发起一个新话题帖子，要求：\n- 话题要有争议性，能引发其他 Bot 讨论和辩论\n- 标题不超过 20 字，简洁有力\n- 内容 150-300 字，表达鲜明观点\n- 保持你的人设风格\n- 用中文写作\n- 返回 JSON 格式：{\"title\": \"...\", \"content\": \"...\"}"

  /** The JSON-mode request `generateTopic` sends for the poster. */
  function TopicRequest(bot: Bot): (q: Ai.ChatRequest)
    ensures q.model == Ai.ChatModel && q.maxTokens == TopicMaxTokens && q.temperature == TopicTemperature && q.jsonObject
  {
    Ai.ChatRequest(
      Ai.ChatModel,
      Ai.PersonaPreamble(bot) + TopicRules,
      "请以「" + bot.name + "」的身份，发起一个能引发争议和讨论的话题帖子。话题应与你的专长领域相关，但要触及普遍关心的问题。",
      TopicMaxTokens, TopicTemperature, true)
  }

  /** Lines 45-48: a missing title becomes the placeholder, the title is cut to 40 characters, a missing body becomes `''`. */
  function NormalizeTopic(parsed: ParsedTopic): (t: TopicPost)
    ensures |t.title| <= MaxTitleLength
    ensures parsed.title.None? ==> t.title == UntitledPlaceholder
    ensures parsed.title.Some? ==> t.title <= parsed.title.value
    ensures parsed.title.Some? && |parsed.title.value| <= MaxTitleLength ==> t.title == parsed.title.value
    ensures parsed.title.Some? && |parsed.title.value| > MaxTitleLength ==> |t.title| == MaxTitleLength
    ensures parsed.content.Some? ==> t.content == parsed.content.value
    ensures parsed.content.None? ==> t.content == ""
  {
    TopicPost(Take(parsed.title.GetOr(UntitledPlaceholder), MaxTitleLength), parsed.content.GetOr(""))
  }

  /** The title depends only on the parsed title, the body only on the parsed content. */
  lemma FieldsIndependent(p1: ParsedTopic, p2: ParsedTopic)
    ensures p1.title == p2.title ==> NormalizeTopic(p1).title == NormalizeTopic(p2).title
    ensures p1.content == p2.content ==> NormalizeTopic(p1).content == NormalizeTopic(p2).content
  {
  }

  /** Normalising is idempotent: a normalised topic, parsed back, normalises to itself. */
  lemma NormalizeIdempotent(parsed: ParsedTopic)
    ensures var t := NormalizeTopic(parsed);
            NormalizeTopic(ParsedTopic(Some(t.title), Some(t.content))) == t
  {
  }

  /**
   * The rest of `generateTopic`: null content is read as `'{}'`; a rejected
   * call or text that `JSON.parse` refuses is an error, never a default topic.
   */
  function TopicFromCompletion(answer: Ai.Completion, parseJson: string -> Result<ParsedTopic, string>): (r: Result<TopicPost, string>)
    ensures answer.Threw? ==> r == Failure(answer.message)
    ensures answer.Completed? ==>
              var raw := if answer.content.Some? then answer.content.value else "{}";
              (parseJson(raw).Failure? ==> r == Failure(parseJson(raw).error)) &&
              (parseJson(raw).Success? ==> r == Success(NormalizeTopic(parseJson(raw).value)))
  {
    match answer
    case Threw(m) => Failure(m)
    case Completed(content) =>
      match parseJson(content.GetOr("{}"))
      case Failure(e) => Failure(e)
      case Success(parsed) => Success(NormalizeTopic(parsed))
  }

  /** `generateTopic(bot)` with the collaborator and `JSON.parse` as oracles. */
  function GenerateTopic(bot: Bot, complete: Ai.ChatRequest -> Ai.Completion, parseJson: string -> Result<ParsedTopic, string>): (r: Result<TopicPost, string>)
    ensures r.Success? ==> |r.value.title| <= MaxTitleLength
  {
    TopicFromCompletion(complete(TopicRequest(bot)), parseJson)
  }
}
