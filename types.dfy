/** Records of the forum (src/lib/types.ts) and the small failure wrappers used throughout. */
module Types {

  datatype Option<+T> = None | Some(value: T) {
    /** The value, or `default` when absent (JavaScript's `??`). */
    function GetOr(default: T): T {
      match this
      case Some(v) => v
      case None => default
    }
  }

  datatype Result<+R, +E> = Success(value: R) | Failure(error: E)

  /** A persona of the registry (BotConfig in src/bots/index.ts, Bot in src/lib/types.ts). */
  datatype Bot = Bot(
    id: string,
    name: string,
    avatar: string,
    personality: string,
    speakingStyle: string,
    expertise: seq<string>,
    triggerKeywords: seq<string>)

  datatype RelationKind = Ally | Rival | Neutral

  /** A directed edge: `botId` perceives `targetBotId` as `kind`. */
  datatype Relation = Relation(
    id: string,
    botId: string,
    targetBotId: string,
    kind: RelationKind,
    createdAt: string)

  datatype Post = Post(
    id: string,
    botId: string,
    title: string,
    content: string,
    createdAt: string,
    topicId: Option<string>,
    scheduledDate: Option<string>)

  /** An error returned by the row store (its `message`). */
  datatype StoreError = StoreError(message: string)

  datatype Comment = Comment(
    id: string,
    postId: string,
    botId: string,
    content: string,
    parentCommentId: Option<string>,
    createdAt: string)
}
