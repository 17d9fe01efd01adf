/**
 * The reply composer (src/lib/ai.ts): derives the persona's allies and rivals
 * from its outgoing relation edges, renders the last five comments, assembles
 * the system and user prompts and hands them to the completion collaborator,
 * which is an oracle here.
 */
module Ai {
  import opened Types
  import opened Text
  import opened Registry

  /** A chat-completion request as `generateBotReply` issues it. */
  datatype ChatRequest = ChatRequest(
    model: string,
    systemPrompt: string,
    userPrompt: string,
    maxTokens: nat,
    temperature: real,
    jsonObject: bool)

  /** What the collaborator does: answer with (possibly null) content, or reject. */
  datatype Completion = Completed(content: Option<string>) | Threw(message: string)

  const ChatModel: string := "gpt-4o-mini"
  const ReplyMaxTokens: nat := 300
  const ReplyTemperature: real := 0.85
  /** How many of the newest comments the prompt shows (`slice(-5)`). */
  const WindowSize: nat := 5

  // ---------------------------------------------------------------------------
  // Allies and rivals

  /**
   * `relations.filter(r => r.bot_id === botId && r.relation_type === kind)
   *  .map(r => botMap[r.target_bot_id]?.name).filter(Boolean)`.
   */
  function RelatedNames(botId: string, kind: RelationKind, relations: seq<Relation>, botMap: map<string, Bot>): (r: seq<string>)
    ensures |r| <= |relations|
    decreases |relations|
  {
    if relations == [] then [] else EdgeName(botId, kind, relations[0], botMap) + RelatedNames(botId, kind, relations[1..], botMap)
  }

  /** What one edge contributes: its target's name when it leaves `botId` with the wanted kind and that name is known and non-empty. */
  function EdgeName(botId: string, kind: RelationKind, e: Relation, botMap: map<string, Bot>): (r: seq<string>)
    ensures |r| <= 1 && (r != [] ==> r[0] != "")
  {
    var name := NameOf(botMap, e.targetBotId);
    if e.botId == botId && e.kind == kind && name.Some? && name.value != "" then [name.value] else []
  }

  function Allies(bot: Bot, relations: seq<Relation>, botMap: map<string, Bot>): seq<string> {
    RelatedNames(bot.id, Ally, relations, botMap)
  }

  function Rivals(bot: Bot, relations: seq<Relation>, botMap: map<string, Bot>): seq<string> {
    RelatedNames(bot.id, Rival, relations, botMap)
  }

  /** Missing and empty names are dropped (`.filter(Boolean)`). */
  lemma {:induction false} RelatedNamesNonEmpty(botId: string, kind: RelationKind, relations: seq<Relation>, botMap: map<string, Bot>)
    ensures forall i :: 0 <= i < |RelatedNames(botId, kind, relations, botMap)| ==> RelatedNames(botId, kind, relations, botMap)[i] != ""
    decreases |relations|
  {
    if relations != [] {
      RelatedNamesNonEmpty(botId, kind, relations[1..], botMap);
      var h := EdgeName(botId, kind, relations[0], botMap);
      var t := RelatedNames(botId, kind, relations[1..], botMap);
      forall i | 0 <= i < |h + t| ensures (h + t)[i] != "" {
        if i >= |h| {
          assert (h + t)[i] == t[i - |h|];
          assert t[i - |h|] != "";
        } else {
          assert (h + t)[i] == h[0];
          assert h[0] != "";
        }
      }
    }
  }

  /** An edge contributes a name exactly when it leaves `botId`, has the wanted kind and its target has a non-empty name. */
  predicate Contributes(e: Relation, botId: string, kind: RelationKind, botMap: map<string, Bot>, name: string) {
    e.botId == botId && e.kind == kind && NameOf(botMap, e.targetBotId) == Some(name) && name != ""
  }

  /** A name is listed exactly when some edge contributes it. */
  lemma {:induction false} RelatedNamesMembership(botId: string, kind: RelationKind, relations: seq<Relation>, botMap: map<string, Bot>, name: string)
    ensures name in RelatedNames(botId, kind, relations, botMap)
        <==> exists i :: 0 <= i < |relations| && Contributes(relations[i], botId, kind, botMap, name)
    decreases |relations|
  {
    if relations != [] {
      RelatedNamesMembership(botId, kind, relations[1..], botMap, name);
      if exists i :: 0 <= i < |relations| && Contributes(relations[i], botId, kind, botMap, name) {
        var i :| 0 <= i < |relations| && Contributes(relations[i], botId, kind, botMap, name);
        if i > 0 {
          assert relations[1..][i - 1] == relations[i];
        }
      }
      if exists i :: 0 <= i < |relations[1..]| && Contributes(relations[1..][i], botId, kind, botMap, name) {
        var i :| 0 <= i < |relations[1..]| && Contributes(relations[1..][i], botId, kind, botMap, name);
        assert relations[i + 1] == relations[1..][i];
      }
    }
  }

  /** Names come out in relation order: the lists of two runs of edges concatenate. */
  lemma {:induction false} RelatedNamesAppend(botId: string, kind: RelationKind, a: seq<Relation>, b: seq<Relation>, botMap: map<string, Bot>)
    ensures RelatedNames(botId, kind, a + b, botMap) == RelatedNames(botId, kind, a, botMap) + RelatedNames(botId, kind, b, botMap)
    decreases |a|
  {
    if a != [] {
      var t := a[1..];
      assert a == [a[0]] + t;
      assert a + b == [a[0]] + (t + b);
      RelatedNamesCons(botId, kind, a[0], t + b, botMap);
      RelatedNamesCons(botId, kind, a[0], t, botMap);
      RelatedNamesAppend(botId, kind, t, b, botMap);
      var e := EdgeName(botId, kind, a[0], botMap);
      var x := RelatedNames(botId, kind, t, botMap);
      var y := RelatedNames(botId, kind, b, botMap);
      assert e + (x + y) == (e + x) + y;
    } else {
      assert a + b == b;
    }
  }

  /** The names of a list with a leading edge: that edge's contribution, then the rest. */
  lemma RelatedNamesCons(botId: string, kind: RelationKind, e: Relation, rest: seq<Relation>, botMap: map<string, Bot>)
    ensures RelatedNames(botId, kind, [e] + rest, botMap) == EdgeName(botId, kind, e, botMap) + RelatedNames(botId, kind, rest, botMap)
  {
    assert ([e] + rest)[0] == e;
    assert ([e] + rest)[1..] == rest;
  }

  /** An edge of another kind, or leaving another persona, changes neither list. */
  lemma OtherEdgesIgnored(botId: string, kind: RelationKind, a: seq<Relation>, e: Relation, b: seq<Relation>, botMap: map<string, Bot>)
    requires e.botId != botId || e.kind != kind
    ensures RelatedNames(botId, kind, a + [e] + b, botMap) == RelatedNames(botId, kind, a + b, botMap)
  {
    RelatedNamesAppend(botId, kind, a + [e], b, botMap);
    RelatedNamesAppend(botId, kind, a, [e], botMap);
    RelatedNamesAppend(botId, kind, a, b, botMap);
    RelatedNamesCons(botId, kind, e, [], botMap);
    assert [e] + [] == [e];
    assert EdgeName(botId, kind, e, botMap) == [];
    var ra := RelatedNames(botId, kind, a, botMap);
    assert ra + [] == ra;
  }

  const AllyLabel: string := "你的盟友（观点要附和）："
  const RivalLabel: string := "你的对立者（观点要反驳）："

  /**
   * The relation block of the system prompt: the ally line, then the rival
   * line, each present only when its list is non-empty.
   */
  function RelationInfo(allies: seq<string>, rivals: seq<string>): (r: string)
    ensures allies != [] ==> AllyLabel + Join(allies, "、") <= r
    ensures rivals != [] ==> EndsWith(r, RivalLabel + Join(rivals, "、"))
  {
    var a := if |allies| > 0 then AllyLabel + Join(allies, "、") else "";
    var b := if |rivals| > 0 then RivalLabel + Join(rivals, "、") else "";
    NonEmptyPair(a, b);
    Join(NonEmpty([a, b]), "\n")
  }

  /** The relation block is empty exactly when the persona has neither allies nor rivals. */
  lemma RelationInfoEmptyIff(allies: seq<string>, rivals: seq<string>)
    ensures RelationInfo(allies, rivals) == "" <==> allies == [] && rivals == []
  {
    var a := if |allies| > 0 then AllyLabel + Join(allies, "、") else "";
    var r := if |rivals| > 0 then RivalLabel + Join(rivals, "、") else "";
    assert |allies| > 0 ==> a != "" by {
      if |allies| > 0 { assert |a| >= |AllyLabel| > 0; }
    }
    assert |rivals| > 0 ==> r != "" by {
      if |rivals| > 0 { assert |r| >= |RivalLabel| > 0; }
    }
    var parts := NonEmpty([a, r]);
    NonEmptyPair(a, r);
    JoinEmptyIff(parts, "\n");
  }

  // ---------------------------------------------------------------------------
  // The comment window

  /** `comments.slice(-5)`. */
  function Window(comments: seq<Comment>): (w: seq<Comment>)
    ensures |w| == if |comments| < WindowSize then |comments| else WindowSize
    ensures w == comments[|comments| - |w|..]
  {
    if |comments| <= WindowSize then comments else comments[|comments| - WindowSize..]
  }

  /** The window slides: appending a comment adds it last and drops the oldest once five are shown. */
  lemma WindowSlides(comments: seq<Comment>, c: Comment)
    ensures Window(comments + [c]) == (if |comments| >= WindowSize then Window(comments)[1..] else Window(comments)) + [c]
  {
    var s := comments + [c];
    if |comments| >= WindowSize {
      assert s[|s| - WindowSize..] == comments[|comments| - WindowSize + 1..] + [c];
    }
  }

  /** Comments older than the newest five never reach the prompt. */
  lemma WindowIgnoresOlder(comments: seq<Comment>, k: nat)
    requires k <= |comments| && |comments| - k >= WindowSize
    ensures Window(comments[k..]) == Window(comments)
  {
    assert comments[k..][|comments| - k - WindowSize..] == comments[|comments| - WindowSize..];
  }

  /** `botMap[c.bot_id]?.name ?? c.bot_id`: an unknown author is shown by id; a known one by name, even an empty one. */
  function CommenterName(c: Comment, botMap: map<string, Bot>): (n: string)
    ensures c.botId in botMap ==> n == botMap[c.botId].name
    ensures c.botId !in botMap ==> n == c.botId
  {
    NameOf(botMap, c.botId).GetOr(c.botId)
  }

  function CommentLine(c: Comment, botMap: map<string, Bot>): string {
    CommenterName(c, botMap) + ": " + c.content
  }

  /** One line `name: content` per windowed comment, oldest first. */
  function CommentLines(window: seq<Comment>, botMap: map<string, Bot>): (lines: seq<string>)
    ensures |lines| == |window|
    ensures forall i :: 0 <= i < |window| ==> lines[i] == CommentLine(window[i], botMap) && lines[i] != ""
  {
    seq(|window|, i requires 0 <= i < |window| =>
      assert |CommentLine(window[i], botMap)| >= 2;
      CommentLine(window[i], botMap))
  }

  /** The rendered window: the oldest shown comment's line opens it and the newest comment's line closes it. */
  function RecentComments(comments: seq<Comment>, botMap: map<string, Bot>): (r: string)
    ensures comments != [] ==> CommentLine(Window(comments)[0], botMap) <= r
    ensures comments != [] ==> EndsWith(r, CommentLine(comments[|comments| - 1], botMap))
  {
    Join(CommentLines(Window(comments), botMap), "\n")
  }

  /** The rendered block is empty exactly when there are no comments. */
  lemma RecentCommentsEmptyIff(comments: seq<Comment>, botMap: map<string, Bot>)
    ensures RecentComments(comments, botMap) == "" <==> comments == []
  {
    JoinEmptyIff(CommentLines(Window(comments), botMap), "\n");
  }

  // ---------------------------------------------------------------------------
  // The prompts

  function RelationSection(relationInfo: string): string {
    if relationInfo != "" then "\n关系信息：\n" + relationInfo else ""
  }

  const ReplyRules: string :=
    "\n\n规则：\n- 回复长度控制在 100-200 字\n- 保持人设一致，用中文回复\n- 如果看到盟友的发言，表示认同或补充\n- 如果看到对立者的发言，提出质疑或反驳\n- 不要自我介绍，直接发表观点"

  function PersonaPreamble(bot: Bot): string {
    "你是论坛 Bot「" + bot.name + "」。\n人设：" + bot.personality + "\n说话风格：" + bot.speakingStyle
      + "\n专长领域：" + Join(bot.expertise, "、") + "\n"
  }

  /** The system prompt opens with the persona's description and closes with the reply rules. */
  function SystemPrompt(bot: Bot, relationInfo: string): (r: string)
    ensures PersonaPreamble(bot) <= r && EndsWith(r, ReplyRules)
  {
    PersonaPreamble(bot) + RelationSection(relationInfo) + ReplyRules
  }

  function RecentSection(recentComments: string): string {
    if recentComments != "" then "\n最近的评论：\n" + recentComments else ""
  }

  /** The user prompt opens with the post's title and closes by asking for a comment in the persona's name. */
  function UserPrompt(bot: Bot, post: Post, recentComments: string): (r: string)
    ensures "帖子标题：" + post.title <= r
    ensures EndsWith(r, "\n\n请以「" + bot.name + "」的身份发表一条评论。")
  {
    "帖子标题：" + post.title + "\n帖子内容：" + post.content + "\n" + RecentSection(recentComments)
      + "\n\n请以「" + bot.name + "」的身份发表一条评论。"
  }

  /** The request `generateBotReply` sends for `bot` replying under `post`. */
  function BuildReplyRequest(bot: Bot, post: Post, comments: seq<Comment>, relations: seq<Relation>, botMap: map<string, Bot>): (q: ChatRequest)
    ensures q.model == ChatModel && q.maxTokens == ReplyMaxTokens && q.temperature == ReplyTemperature && !q.jsonObject
  {
    var info := RelationInfo(Allies(bot, relations, botMap), Rivals(bot, relations, botMap));
    ChatRequest(ChatModel, SystemPrompt(bot, info), UserPrompt(bot, post, RecentComments(comments, botMap)),
                ReplyMaxTokens, ReplyTemperature, false)
  }

  /** Line 62: the collaborator's content, `''` for null content; a rejection propagates. */
  function ReplyFromCompletion(answer: Completion): (r: Result<string, string>)
    ensures answer.Threw? ==> r == Failure(answer.message)
    ensures answer.Completed? && answer.content.Some? ==> r == Success(answer.content.value)
    ensures answer.Completed? && answer.content.None? ==> r == Success("")
  {
    match answer
    case Threw(m) => Failure(m)
    case Completed(content) => Success(content.GetOr(""))
  }

  /**
   * `generateBotReply` with the collaborator as an oracle: the collaborator is
   * asked exactly the composed request; its rejection propagates, and
   * otherwise its content, or `''`, is the reply.
   */
  function GenerateBotReply(bot: Bot, post: Post, comments: seq<Comment>, relations: seq<Relation>,
                            botMap: map<string, Bot>, complete: ChatRequest -> Completion): (r: Result<string, string>)
    ensures var answer := complete(BuildReplyRequest(bot, post, comments, relations, botMap));
            (r.Failure? <==> answer.Threw?) &&
            (answer.Threw? ==> r.error == answer.message) &&
            (answer.Completed? ==> r == Success(answer.content.GetOr("")))
  {
    ReplyFromCompletion(complete(BuildReplyRequest(bot, post, comments, relations, botMap)))
  }

  // ---------------------------------------------------------------------------
  // What the prompts contain

  /** The relation block appears in the system prompt exactly when there is an ally or a rival... */
  lemma RelationBlockPresentIff(bot: Bot, post: Post, comments: seq<Comment>, relations: seq<Relation>, botMap: map<string, Bot>)
    ensures var q := BuildReplyRequest(bot, post, comments, relations, botMap);
            var allies := Allies(bot, relations, botMap);
            var rivals := Rivals(bot, relations, botMap);
            (q.systemPrompt == PersonaPreamble(bot) + ReplyRules <==> allies == [] && rivals == []) &&
            (allies != [] || rivals != [] ==>
               q.systemPrompt == PersonaPreamble(bot) + "\n关系信息：\n" + RelationInfo(allies, rivals) + ReplyRules)
  {
    var allies := Allies(bot, relations, botMap);
    var rivals := Rivals(bot, relations, botMap);
    var info := RelationInfo(allies, rivals);
    RelationInfoEmptyIff(allies, rivals);
    assert BuildReplyRequest(bot, post, comments, relations, botMap).systemPrompt == SystemPrompt(bot, info);
    SystemPromptShape(bot, info);
  }

  /** The system prompt carries the relation section exactly when the relation block is non-empty. */
  lemma SystemPromptShape(bot: Bot, info: string)
    ensures SystemPrompt(bot, info) == PersonaPreamble(bot) + ReplyRules <==> info == ""
    ensures info != "" ==> SystemPrompt(bot, info) == PersonaPreamble(bot) + "\n关系信息：\n" + info + ReplyRules
  {
    var p := PersonaPreamble(bot);
    if info != "" {
      assert |SystemPrompt(bot, info)| == |p| + |RelationSection(info)| + |ReplyRules|;
    } else {
      assert p + "" + ReplyRules == p + ReplyRules;
    }
  }

  /** ... and, when present, it names every ally and every rival. */
  lemma SystemPromptNamesRelations(bot: Bot, post: Post, comments: seq<Comment>, relations: seq<Relation>, botMap: map<string, Bot>, k: nat)
    ensures var q := BuildReplyRequest(bot, post, comments, relations, botMap);
            (k < |Allies(bot, relations, botMap)| ==> Includes(q.systemPrompt, Allies(bot, relations, botMap)[k])) &&
            (k < |Rivals(bot, relations, botMap)| ==> Includes(q.systemPrompt, Rivals(bot, relations, botMap)[k]))
  {
    var allies := Allies(bot, relations, botMap);
    var rivals := Rivals(bot, relations, botMap);
    var info := RelationInfo(allies, rivals);
    RelationInfoEmptyIff(allies, rivals);
    if k < |allies| {
      InfoIncludesName(allies, rivals, allies[k]) by {
        JoinIncludesPart(allies, "、", k);
      }
      InfoInSystemPrompt(bot, info, allies[k]);
    }
    if k < |rivals| {
      InfoIncludesName(allies, rivals, rivals[k]) by {
        JoinIncludesPart(rivals, "、", k);
      }
      InfoInSystemPrompt(bot, info, rivals[k]);
    }
  }

  /** A name occurring in the joined ally list or the joined rival list occurs in the relation block. */
  lemma InfoIncludesName(allies: seq<string>, rivals: seq<string>, name: string)
    requires (|allies| > 0 && Includes(Join(allies, "、"), name)) || (|rivals| > 0 && Includes(Join(rivals, "、"), name))
    ensures Includes(RelationInfo(allies, rivals), name)
  {
    var a := if |allies| > 0 then AllyLabel + Join(allies, "、") else "";
    var r := if |rivals| > 0 then RivalLabel + Join(rivals, "、") else "";
    var parts := NonEmpty([a, r]);
    NonEmptyPair(a, r);
    if |allies| > 0 && Includes(Join(allies, "、"), name) {
      IncludesExtendLeft(AllyLabel, Join(allies, "、"), name);
      assert a != "" && parts[0] == a;
      JoinIncludesPart(parts, "\n", 0);
      IncludesTransitive(name, a, Join(parts, "\n"));
    } else {
      IncludesExtendLeft(RivalLabel, Join(rivals, "、"), name);
      assert r != "" && parts[|parts| - 1] == r;
      JoinIncludesPart(parts, "\n", |parts| - 1);
      IncludesTransitive(name, r, Join(parts, "\n"));
    }
  }

  lemma InfoInSystemPrompt(bot: Bot, info: string, x: string)
    requires Includes(info, x) && info != ""
    ensures Includes(SystemPrompt(bot, info), x)
  {
    IncludesExtendLeft("\n关系信息：\n", info, x);
    IncludesExtendLeft(PersonaPreamble(bot), RelationSection(info), x);
    IncludesExtendRight(PersonaPreamble(bot) + RelationSection(info), x, ReplyRules);
  }

  /** The recent-comments section appears in the user prompt exactly when there are comments. */
  lemma RecentSectionPresentIff(bot: Bot, post: Post, comments: seq<Comment>, relations: seq<Relation>, botMap: map<string, Bot>)
    ensures var q := BuildReplyRequest(bot, post, comments, relations, botMap);
            (q.userPrompt == UserPrompt(bot, post, "") <==> comments == []) &&
            (comments != [] ==> q.userPrompt == UserPrompt(bot, post, RecentComments(comments, botMap)) &&
                                RecentSection(RecentComments(comments, botMap)) != "")
  {
    RecentCommentsEmptyIff(comments, botMap);
    var rc := RecentComments(comments, botMap);
    if rc != "" {
      assert |UserPrompt(bot, post, rc)| > |UserPrompt(bot, post, "")|;
    }
  }

  /** Every windowed comment appears in the user prompt as `name: content`. */
  lemma UserPromptShowsWindow(bot: Bot, post: Post, comments: seq<Comment>, relations: seq<Relation>, botMap: map<string, Bot>, k: nat)
    requires k < |Window(comments)|
    ensures Includes(BuildReplyRequest(bot, post, comments, relations, botMap).userPrompt,
                     CommenterName(Window(comments)[k], botMap) + ": " + Window(comments)[k].content)
  {
    var lines := CommentLines(Window(comments), botMap);
    var rc := RecentComments(comments, botMap);
    var x := lines[k];
    JoinIncludesPart(lines, "\n", k);
    RecentCommentsEmptyIff(comments, botMap);
    var head := "帖子标题：" + post.title + "\n帖子内容：" + post.content + "\n";
    IncludesExtendLeft("\n最近的评论：\n", rc, x);
    IncludesExtendLeft(head, RecentSection(rc), x);
    var s1 := head + RecentSection(rc);
    IncludesExtendRight(s1, x, "\n\n请以「");
    IncludesExtendRight(s1 + "\n\n请以「", x, bot.name);
    IncludesExtendRight(s1 + "\n\n请以「" + bot.name, x, "」的身份发表一条评论。");
  }

  /** Only the newest five comments matter: dropping older ones leaves the request unchanged. */
  lemma RequestIgnoresOlderComments(bot: Bot, post: Post, comments: seq<Comment>, relations: seq<Relation>, botMap: map<string, Bot>, k: nat)
    requires k <= |comments| && |comments| - k >= WindowSize
    ensures BuildReplyRequest(bot, post, comments[k..], relations, botMap) == BuildReplyRequest(bot, post, comments, relations, botMap)
  {
    WindowIgnoresOlder(comments, k);
  }
}
