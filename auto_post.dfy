/**
 * The auto-post cron route (src/app/api/cron/auto-post/route.ts, `GET`):
 * secret check, poster pick, topic, post insert, then one reply per responder
 * in sequence, each reply seeing the comments stored so far in this run.
 * The store, the completion collaborator, `JSON.parse` and `Math.random` are
 * oracles gathered in `Oracles`.
 */
module AutoPost {
  import opened Types
  import opened Registry
  import opened FanOut
  import Ai
  import opened TopicGenerator

  /** The two places a caller may present the secret: `?secret=` and the `x-cron-secret` header. */
  datatype CronRequest = CronRequest(querySecret: Option<string>, headerSecret: Option<string>)

  datatype Body = ErrorBody(error: string) | PostedBody(postId: string, botName: string, replyCount: nat)

  datatype Response = Response(status: nat, body: Body)

  /** The row given to `insert` on `posts` (no `topic_id` or `scheduled_date` is sent). */
  datatype NewPost = NewPost(botId: string, title: string, content: string)

  /** The row given to `insert` on `comments`. */
  datatype NewComment = NewComment(postId: string, botId: string, content: string, parentCommentId: Option<string>)

  /** `{ data, error }` of an `insert(...).select().single()` chain. */
  datatype Inserted<T> = Inserted(data: Option<T>, error: Option<StoreError>)

  /** The store calls a run makes, in order. */
  datatype StoreCall = InsertPost(post: NewPost) | SelectRelations(botId: string) | InsertComment(comment: NewComment)

  datatype Oracles = Oracles(
    posterDraw: real,                                   // Math.random() for the poster
    swaps: seq<(nat, nat)>,                             // the exchanges the random-comparator sort makes
    replyCountDraw: real,                               // Math.random() for the reply count
    topicAnswer: Ai.ChatRequest -> Ai.Completion,       // the collaborator, for the topic
    parseJson: string -> Result<ParsedTopic, string>,   // JSON.parse, which may throw
    postInsert: NewPost -> Inserted<Post>,
    relationsFor: string -> Option<seq<Relation>>,      // data of the bot_relations select
    replyAnswer: (nat, Ai.ChatRequest) -> Ai.Completion, // the collaborator, for responder i
    commentInsert: (nat, NewComment) -> Inserted<Comment>)

  predicate ValidDraws(o: Oracles) {
    0.0 <= o.posterDraw < 1.0 && 0.0 <= o.replyCountDraw < 1.0
  }

  const UnauthorizedMessage: string := "Unauthorized"
  const PostFailedMessage: string := "Failed to create post"
  /** What the route reports when the registry is empty and `posterBot` is undefined. */
  const UndefinedBotMessage: string := "Cannot read properties of undefined (reading 'name')"

  /**
   * Line 23, negated: an absent or empty configured secret leaves the route
   * open, the configured secret opens it through either channel, and nothing
   * else does.
   */
  predicate Authorized(cronSecret: Option<string>, request: CronRequest)
    ensures cronSecret.None? || cronSecret == Some("") ==> Authorized(cronSecret, request)
    ensures request.querySecret == cronSecret || request.headerSecret == cronSecret ==> Authorized(cronSecret, request)
    ensures Authorized(cronSecret, request) ==>
              cronSecret.None? || cronSecret == Some("") || request.querySecret == cronSecret || request.headerSecret == cronSecret
  {
    !(cronSecret.Some? && cronSecret.value != "" &&
      request.querySecret != cronSecret && request.headerSecret != cronSecret)
  }

  /** A store write succeeded: no error and a row came back. */
  predicate Succeeded<T>(ins: Inserted<T>) {
    ins.error.None? && ins.data.Some?
  }

  /** `postError?.message ?? 'Failed to create post'`. */
  function PostErrorMessage(ins: Inserted<Post>): string {
    if ins.error.Some? then ins.error.value.message else PostFailedMessage
  }

  // ---------------------------------------------------------------------------
  // The reply loop, as a function

  /** The loop's state: the accumulated comments, the store calls so far, and the message of a rejection that ended it. */
  datatype LoopState = LoopState(acc: seq<Comment>, calls: seq<StoreCall>, aborted: Option<string>)

  /** Lines 59-67 up to the completion call: responder `bot`'s request, given the comments accumulated so far. */
  function RequestBuilder(post: Post, botMap: map<string, Bot>, relationsFor: string -> Option<seq<Relation>>): (Bot, seq<Comment>) -> Ai.ChatRequest {
    (bot: Bot, acc: seq<Comment>) => Ai.BuildReplyRequest(bot, post, acc, relationsFor(bot.id).GetOr([]), botMap)
  }

  /** One iteration of lines 57-84 for responder number `i`, with `build` making its request. */
  function ReplyStep(post: Post, bot: Bot, i: nat, st: LoopState, build: (Bot, seq<Comment>) -> Ai.ChatRequest, o: Oracles): (r: LoopState)
    ensures var reply := Ai.ReplyFromCompletion(o.replyAnswer(i, build(bot, st.acc)));
            (reply.Failure? ==> r == LoopState(st.acc, st.calls + [SelectRelations(bot.id)], Some(reply.error))) &&
            (reply.Success? ==>
               var row := NewComment(post.id, bot.id, reply.value, None);
               r.aborted == None &&
               r.calls == st.calls + [SelectRelations(bot.id), InsertComment(row)] &&
               (Succeeded(o.commentInsert(i, row)) ==> r.acc == st.acc + [o.commentInsert(i, row).data.value]) &&
               (!Succeeded(o.commentInsert(i, row)) ==> r.acc == st.acc))
  {
    var calls := st.calls + [SelectRelations(bot.id)];
    match Ai.ReplyFromCompletion(o.replyAnswer(i, build(bot, st.acc)))
    case Failure(m) => LoopState(st.acc, calls, Some(m))
    case Success(text) =>
      var row := NewComment(post.id, bot.id, text, None);
      var ins := o.commentInsert(i, row);
      LoopState(if Succeeded(ins) then st.acc + [ins.data.value] else st.acc, calls + [InsertComment(row)], None)
  }

  /**
   * The state after the responders `rs`, in order; a rejection ends the loop.
   * Each responder adds at most one comment and two store calls.
   */
  function Replies(post: Post, rs: seq<Bot>, build: (Bot, seq<Comment>) -> Ai.ChatRequest, o: Oracles): (r: LoopState)
    ensures |r.acc| <= |rs| && |r.calls| <= 2 * |rs|
    decreases |rs|
  {
    if rs == [] then LoopState([], [], None)
    else
      var st := Replies(post, rs[..|rs| - 1], build, o);
      if st.aborted.Some? then st else ReplyStep(post, rs[|rs| - 1], |rs| - 1, st, build, o)
  }

  /** Once a responder's reply is rejected, nothing more happens. */
  lemma {:induction false} AbortIsFinal(post: Post, rs: seq<Bot>, build: (Bot, seq<Comment>) -> Ai.ChatRequest, o: Oracles, j: nat)
    requires j <= |rs| && Replies(post, rs[..j], build, o).aborted.Some?
    ensures Replies(post, rs, build, o) == Replies(post, rs[..j], build, o)
    decreases |rs|
  {
    if j < |rs| {
      var n := |rs| - 1;
      assert rs[..n][..j] == rs[..j];
      AbortIsFinal(post, rs[..n], build, o, j);
    } else {
      assert rs[..j] == rs;
    }
  }

  /** The ids of a list of personas. */
  function BotIds(rs: seq<Bot>): set<string> {
    set i | 0 <= i < |rs| :: rs[i].id
  }

  /** A loop call under `post`: a relation select or a top-level comment insert on `post`, for one of `ids`. */
  predicate WellFormedCall(c: StoreCall, post: Post, ids: set<string>) {
    match c
    case InsertComment(row) => row.postId == post.id && row.parentCommentId == None && row.botId in ids
    case SelectRelations(id) => id in ids
    case InsertPost(_) => false
  }

  /** One iteration appends at most one comment and at most two calls, both for its own responder. */
  lemma StepAppends(post: Post, bot: Bot, i: nat, st: LoopState, build: (Bot, seq<Comment>) -> Ai.ChatRequest, o: Oracles)
    ensures var r := ReplyStep(post, bot, i, st, build, o);
            |st.acc| <= |r.acc| <= |st.acc| + 1 &&
            |st.calls| < |r.calls| <= |st.calls| + 2 && r.calls[..|st.calls|] == st.calls &&
            forall k :: |st.calls| <= k < |r.calls| ==> WellFormedCall(r.calls[k], post, {bot.id})
  {
  }

  /**
   * The accumulator holds at most one comment per responder, and every
   * comment the loop inserts is a top-level comment on the new post by one
   * of the responders.
   */
  lemma {:induction false} RepliesWellFormed(post: Post, rs: seq<Bot>, build: (Bot, seq<Comment>) -> Ai.ChatRequest, o: Oracles)
    ensures var st := Replies(post, rs, build, o);
            |st.acc| <= |rs| && |st.calls| <= 2 * |rs| &&
            forall k :: 0 <= k < |st.calls| ==> WellFormedCall(st.calls[k], post, BotIds(rs))
    decreases |rs|
  {
    if rs != [] {
      var n := |rs| - 1;
      var init := rs[..n];
      RepliesWellFormed(post, init, build, o);
      var st := Replies(post, init, build, o);
      assert BotIds(init) <= BotIds(rs) by {
        forall id | id in BotIds(init) ensures id in BotIds(rs) {
          var i :| 0 <= i < |init| && init[i].id == id;
          assert rs[i] == init[i];
        }
      }
      assert rs[n].id in BotIds(rs);
      if st.aborted.None? {
        StepAppends(post, rs[n], n, st, build, o);
        var r := ReplyStep(post, rs[n], n, st, build, o);
        forall k | 0 <= k < |r.calls| ensures WellFormedCall(r.calls[k], post, BotIds(rs)) {
          if k < |st.calls| {
            assert r.calls[k] == st.calls[k];
          }
        }
      }
    }
  }

  /** The rows of the comment inserts among `calls`, in call order. */
  function InsertRows(calls: seq<StoreCall>): seq<NewComment>
    decreases |calls|
  {
    if calls == [] then []
    else
      var n := |calls| - 1;
      InsertRows(calls[..n]) + (if calls[n].InsertComment? then [calls[n].comment] else [])
  }

  /** What the store returned for the inserts `rows` (row `j` inserted by responder `j`), keeping only the successful ones, in order. */
  function Stored(rows: seq<NewComment>, o: Oracles): seq<Comment>
    decreases |rows|
  {
    if rows == [] then []
    else
      var n := |rows| - 1;
      var ins := o.commentInsert(n, rows[n]);
      Stored(rows[..n], o) + (if Succeeded(ins) then [ins.data.value] else [])
  }

  lemma {:induction false} InsertRowsAppend(a: seq<StoreCall>, b: seq<StoreCall>)
    ensures InsertRows(a + b) == InsertRows(a) + InsertRows(b)
    decreases |b|
  {
    if b == [] {
      assert a + b == a;
    } else {
      var n := |b| - 1;
      assert (a + b)[..|a + b| - 1] == a + b[..n];
      assert (a + b)[|a + b| - 1] == b[n];
      InsertRowsAppend(a, b[..n]);
    }
  }

  /** An iteration that does not abort records exactly one comment insert, on `post` under its responder's id, and stores that row when the store accepts it. */
  lemma StepRecordsInsert(post: Post, bot: Bot, i: nat, st0: LoopState, build: (Bot, seq<Comment>) -> Ai.ChatRequest, o: Oracles)
    requires ReplyStep(post, bot, i, st0, build, o).aborted.None?
    ensures var st := ReplyStep(post, bot, i, st0, build, o);
            var rows := InsertRows(st.calls);
            var row := rows[|rows| - 1];
            |rows| == |InsertRows(st0.calls)| + 1 && rows == InsertRows(st0.calls) + [row] &&
            row.botId == bot.id && row.postId == post.id &&
            st.acc == st0.acc + (if Succeeded(o.commentInsert(i, row)) then [o.commentInsert(i, row).data.value] else [])
  {
    var reply := Ai.ReplyFromCompletion(o.replyAnswer(i, build(bot, st0.acc)));
    var row := NewComment(post.id, bot.id, reply.value, None);
    assert ReplyStep(post, bot, i, st0, build, o).calls == st0.calls + [SelectRelations(bot.id), InsertComment(row)];
    InsertRowsStep(st0.calls, bot.id, row);
  }

  /** A relation select followed by a comment insert adds that one row. */
  lemma InsertRowsStep(calls: seq<StoreCall>, id: string, row: NewComment)
    ensures InsertRows(calls + [SelectRelations(id), InsertComment(row)]) == InsertRows(calls) + [row]
  {
    var tail := [SelectRelations(id), InsertComment(row)];
    InsertRowsAppend(calls, tail);
    assert tail[..1] == [SelectRelations(id)];
    assert [SelectRelations(id)][..0] == [];
    assert InsertRows([SelectRelations(id)]) == [];
    assert InsertRows(tail) == [row];
  }

  lemma StoredSnoc(rows: seq<NewComment>, row: NewComment, o: Oracles)
    ensures var ins := o.commentInsert(|rows|, row);
            Stored(rows + [row], o) == Stored(rows, o) + (if Succeeded(ins) then [ins.data.value] else [])
  {
    assert (rows + [row])[..|rows|] == rows;
  }

  /**
   * Without a rejection, every responder inserts exactly one comment, in
   * responder order, on the new post under its own id; and the accumulator
   * holds exactly the rows the store accepted, in that order.
   */
  lemma {:induction false} RepliesStoreExactly(post: Post, rs: seq<Bot>, build: (Bot, seq<Comment>) -> Ai.ChatRequest, o: Oracles)
    ensures var st := Replies(post, rs, build, o);
            st.aborted.None? ==>
              var rows := InsertRows(st.calls);
              |rows| == |rs| &&
              (forall j :: 0 <= j < |rs| ==> rows[j].botId == rs[j].id && rows[j].postId == post.id) &&
              st.acc == Stored(rows, o)
    decreases |rs|
  {
    if rs != [] {
      var n := |rs| - 1;
      var st0 := Replies(post, rs[..n], build, o);
      var st := Replies(post, rs, build, o);
      if st.aborted.None? {
        assert st0.aborted.None?;
        assert st == ReplyStep(post, rs[n], n, st0, build, o);
        RepliesStoreExactly(post, rs[..n], build, o);
        StepRecordsInsert(post, rs[n], n, st0, build, o);
        var rows0 := InsertRows(st0.calls);
        var rows := InsertRows(st.calls);
        var row := rows[n];
        assert rows == rows0 + [row];
        StoredSnoc(rows0, row, o);
        RowsOfResponders(rows0, row, rs, post);
      }
    }
  }

  /** Extending the rows of the first responders by the last responder's row keeps every row on `post` under its responder's id. */
  lemma RowsOfResponders(rows0: seq<NewComment>, row: NewComment, rs: seq<Bot>, post: Post)
    requires |rs| > 0 && |rows0| == |rs| - 1
    requires forall j :: 0 <= j < |rs| - 1 ==> rows0[j].botId == rs[..|rs| - 1][j].id && rows0[j].postId == post.id
    requires row.botId == rs[|rs| - 1].id && row.postId == post.id
    ensures var rows := rows0 + [row];
            forall j :: 0 <= j < |rs| ==> rows[j].botId == rs[j].id && rows[j].postId == post.id
  {
    var rows := rows0 + [row];
    forall j | 0 <= j < |rs| ensures rows[j].botId == rs[j].id && rows[j].postId == post.id {
      if j < |rs| - 1 {
        assert rows[j] == rows0[j];
        assert rs[..|rs| - 1][j] == rs[j];
      }
    }
  }

  /**
   * The loop invariant, stated for the whole run: for every responder `i`, the
   * comments it was given (the state after responders 0..i-1) are the leading
   * part of the final accumulator, which only grows by appending.
   */
  lemma {:induction false} ContextIsPrefixOfResult(post: Post, rs: seq<Bot>, build: (Bot, seq<Comment>) -> Ai.ChatRequest, o: Oracles, i: nat)
    requires i <= |rs|
    requires Replies(post, rs, build, o).aborted.None?
    ensures Replies(post, rs[..i], build, o).aborted.None?
    ensures Replies(post, rs[..i], build, o).acc <= Replies(post, rs, build, o).acc
    ensures Replies(post, rs[..i], build, o).calls <= Replies(post, rs, build, o).calls
    decreases |rs|
  {
    if i < |rs| {
      var n := |rs| - 1;
      assert rs[..n][..i] == rs[..i];
      if Replies(post, rs[..n], build, o).aborted.Some? {
        assert false;
      }
      ContextIsPrefixOfResult(post, rs[..n], build, o, i);
    } else {
      assert rs[..i] == rs;
    }
  }

  /**
   * A failed comment insert is skipped: the next responder is given exactly
   * the comments it had before. With three responders whose second insert
   * fails, the second and third see only the first responder's comment, and
   * the run keeps the first and third comments.
   */
  lemma SkippedInsertIsInvisible(post: Post, rs: seq<Bot>, build: (Bot, seq<Comment>) -> Ai.ChatRequest, o: Oracles,
                                 c0: Comment, e: StoreError, c2: Comment)
    requires |rs| == 3
    requires forall i, q :: o.replyAnswer(i, q).Completed?
    requires forall row :: o.commentInsert(0, row) == Inserted(Some(c0), None)
    requires forall row :: o.commentInsert(1, row) == Inserted(None, Some(e))
    requires forall row :: o.commentInsert(2, row) == Inserted(Some(c2), None)
    ensures Replies(post, rs[..1], build, o).acc == [c0]
    ensures Replies(post, rs[..2], build, o).acc == [c0]
    ensures var st := Replies(post, rs, build, o);
            st.aborted.None? && st.acc == [c0, c2] && |st.acc| == 2
  {
    assert rs[..1][..0] == [];
    assert rs[..2][..1] == rs[..1];
    assert rs[..3] == rs;
  }

  // ---------------------------------------------------------------------------
  // The whole run, as a function

  datatype Run = Run(response: Response, calls: seq<StoreCall>)

  /**
   * What `GET` answers and which store calls it makes: 401 exactly for an
   * unauthorised request, otherwise 200 or 500; a 200 reports at most three
   * replies; any store call comes after the secret check, and the first is
   * the post insert.
   */
  function AutoPostRun(cronSecret: Option<string>, request: CronRequest, bots: seq<Bot>, o: Oracles): (r: Run)
    requires ValidDraws(o)
    ensures r.response.status == 401 <==> !Authorized(cronSecret, request)
    ensures r.response.status == 200 || r.response.status == 401 || r.response.status == 500
    ensures r.response.status == 200 ==> r.response.body.PostedBody? && r.response.body.replyCount <= 3
    ensures r.calls != [] ==> Authorized(cronSecret, request) && |bots| > 0 && r.calls[0].InsertPost?
  {
    if !Authorized(cronSecret, request) then Run(Response(401, ErrorBody(UnauthorizedMessage)), [])
    else if |bots| == 0 then Run(Response(500, ErrorBody(UndefinedBotMessage)), [])
    else
      var poster := bots[PosterIndex(o.posterDraw, |bots|)];
      match GenerateTopic(poster, o.topicAnswer, o.parseJson)
      case Failure(m) => Run(Response(500, ErrorBody(m)), [])
      case Success(topic) =>
        var row := NewPost(poster.id, topic.title, topic.content);
        var inserted := o.postInsert(row);
        if !Succeeded(inserted) then Run(Response(500, ErrorBody(PostErrorMessage(inserted))), [InsertPost(row)])
        else
          var post := inserted.data.value;
          var rs := Responders(bots, poster.id, o.swaps, o.replyCountDraw);
          var st := Replies(post, rs, RequestBuilder(post, BotMap(bots), o.relationsFor), o);
          Run(if st.aborted.Some? then Response(500, ErrorBody(st.aborted.value))
              else Response(200, PostedBody(post.id, poster.name, |st.acc|)),
              [InsertPost(row)] + st.calls)
  }

  /** A request without a matching secret is refused with 401 before any store call. */
  lemma UnauthorizedTouchesNothing(cronSecret: Option<string>, request: CronRequest, bots: seq<Bot>, o: Oracles)
    requires ValidDraws(o)
    requires cronSecret.Some? && cronSecret.value != ""
    requires request.querySecret != cronSecret && request.headerSecret != cronSecret
    ensures AutoPostRun(cronSecret, request, bots, o) == Run(Response(401, ErrorBody(UnauthorizedMessage)), [])
  {
  }

  /** Without a configured secret, or with either secret matching, the request is never refused with 401. */
  lemma AuthorizedNeverGets401(cronSecret: Option<string>, request: CronRequest, bots: seq<Bot>, o: Oracles)
    requires ValidDraws(o)
    requires cronSecret.None? || cronSecret == Some("") ||
             request.querySecret == cronSecret || request.headerSecret == cronSecret
    ensures AutoPostRun(cronSecret, request, bots, o).response.status != 401
  {
  }

  /** A failed or empty post insert ends the run with 500 and no further store call. */
  lemma PostFailureStopsRun(cronSecret: Option<string>, request: CronRequest, bots: seq<Bot>, o: Oracles)
    requires ValidDraws(o) && Authorized(cronSecret, request) && |bots| > 0
    requires var poster := bots[PosterIndex(o.posterDraw, |bots|)];
             var topic := GenerateTopic(poster, o.topicAnswer, o.parseJson);
             topic.Success? && !Succeeded(o.postInsert(NewPost(poster.id, topic.value.title, topic.value.content)))
    ensures var poster := bots[PosterIndex(o.posterDraw, |bots|)];
            var topic := GenerateTopic(poster, o.topicAnswer, o.parseJson).value;
            var row := NewPost(poster.id, topic.title, topic.content);
            AutoPostRun(cronSecret, request, bots, o) == Run(Response(500, ErrorBody(PostErrorMessage(o.postInsert(row)))), [InsertPost(row)])
  {
  }

  /**
   * Every run calls the store only after the secret check; its first call is
   * the post insert, the only post insert; every later call belongs to a
   * responder, and comment inserts happen only after a successful post insert.
   */
  lemma RunCallsWellFormed(cronSecret: Option<string>, request: CronRequest, bots: seq<Bot>, o: Oracles)
    requires ValidDraws(o)
    ensures var run := AutoPostRun(cronSecret, request, bots, o);
            (run.calls != [] ==> Authorized(cronSecret, request) && |bots| > 0 && run.calls[0].InsertPost?) &&
            (|run.calls| > 1 ==>
               Succeeded(o.postInsert(run.calls[0].post)) &&
               var post := o.postInsert(run.calls[0].post).data.value;
               var rs := Responders(bots, run.calls[0].post.botId, o.swaps, o.replyCountDraw);
               forall k :: 1 <= k < |run.calls| ==> WellFormedCall(run.calls[k], post, BotIds(rs)))
  {
    if Authorized(cronSecret, request) && |bots| > 0 {
      var poster := bots[PosterIndex(o.posterDraw, |bots|)];
      var topic := GenerateTopic(poster, o.topicAnswer, o.parseJson);
      if topic.Success? {
        var row := NewPost(poster.id, topic.value.title, topic.value.content);
        if Succeeded(o.postInsert(row)) {
          var post := o.postInsert(row).data.value;
          var rs := Responders(bots, poster.id, o.swaps, o.replyCountDraw);
          var st := Replies(post, rs, RequestBuilder(post, BotMap(bots), o.relationsFor), o);
          assert AutoPostRun(cronSecret, request, bots, o).calls == [InsertPost(row)] + st.calls;
          RepliesWellFormed(post, rs, RequestBuilder(post, BotMap(bots), o.relationsFor), o);
          AfterPostInsert(row, st.calls, post, BotIds(rs));
        }
      }
    }
  }

  /** The calls after the post insert keep their shape once the insert is put in front. */
  lemma AfterPostInsert(row: NewPost, calls: seq<StoreCall>, post: Post, ids: set<string>)
    requires forall k :: 0 <= k < |calls| ==> WellFormedCall(calls[k], post, ids)
    ensures var all := [InsertPost(row)] + calls;
            all[0].InsertPost? && all[0].post == row &&
            forall k :: 1 <= k < |all| ==> WellFormedCall(all[k], post, ids)
  {
    var all := [InsertPost(row)] + calls;
    forall k | 1 <= k < |all| ensures WellFormedCall(all[k], post, ids) {
      assert all[k] == calls[k - 1];
    }
  }

  /**
   * The same situation for a whole run: with three responders whose second
   * comment insert fails, the run answers 200 and reports two replies.
   */
  lemma SkippedInsertReported(cronSecret: Option<string>, request: CronRequest, bots: seq<Bot>, o: Oracles,
                              c0: Comment, e: StoreError, c2: Comment)
    requires ValidDraws(o) && Authorized(cronSecret, request) && |bots| > 0
    requires var poster := bots[PosterIndex(o.posterDraw, |bots|)];
             var topic := GenerateTopic(poster, o.topicAnswer, o.parseJson);
             topic.Success? && Succeeded(o.postInsert(NewPost(poster.id, topic.value.title, topic.value.content))) &&
             |Responders(bots, poster.id, o.swaps, o.replyCountDraw)| == 3
    requires forall i, q :: o.replyAnswer(i, q).Completed?
    requires forall row :: o.commentInsert(0, row) == Inserted(Some(c0), None)
    requires forall row :: o.commentInsert(1, row) == Inserted(None, Some(e))
    requires forall row :: o.commentInsert(2, row) == Inserted(Some(c2), None)
    ensures AutoPostRun(cronSecret, request, bots, o).response.status == 200
    ensures AutoPostRun(cronSecret, request, bots, o).response.body.replyCount == 2
  {
    var poster := bots[PosterIndex(o.posterDraw, |bots|)];
    var topic := GenerateTopic(poster, o.topicAnswer, o.parseJson);
    var row := NewPost(poster.id, topic.value.title, topic.value.content);
    var post := o.postInsert(row).data.value;
    var rs := Responders(bots, poster.id, o.swaps, o.replyCountDraw);
    SkippedInsertIsInvisible(post, rs, RequestBuilder(post, BotMap(bots), o.relationsFor), o, c0, e, c2);
  }

  /**
   * A successful run reports the new post's id, the poster's name and a
   * reply count equal to the number of comment inserts the store accepted,
   * at most one per responder and so at most three.
   */
  lemma SuccessReport(cronSecret: Option<string>, request: CronRequest, bots: seq<Bot>, o: Oracles)
    requires ValidDraws(o)
    requires AutoPostRun(cronSecret, request, bots, o).response.status == 200
    ensures var run := AutoPostRun(cronSecret, request, bots, o);
            var poster := bots[PosterIndex(o.posterDraw, |bots|)];
            var row := run.calls[0].post;
            var post := o.postInsert(row).data.value;
            var rs := Responders(bots, poster.id, o.swaps, o.replyCountDraw);
            run.response.body == PostedBody(post.id, poster.name, |Replies(post, rs, RequestBuilder(post, BotMap(bots), o.relationsFor), o).acc|) &&
            run.response.body.replyCount == |Stored(InsertRows(run.calls[1..]), o)| &&
            |InsertRows(run.calls[1..])| == |rs| &&
            run.response.body.replyCount <= |rs| <= 3
  {
    var poster := bots[PosterIndex(o.posterDraw, |bots|)];
    var topic := GenerateTopic(poster, o.topicAnswer, o.parseJson);
    var row := NewPost(poster.id, topic.value.title, topic.value.content);
    var post := o.postInsert(row).data.value;
    var rs := Responders(bots, poster.id, o.swaps, o.replyCountDraw);
    var build := RequestBuilder(post, BotMap(bots), o.relationsFor);
    var st := Replies(post, rs, build, o);
    RepliesWellFormed(post, rs, build, o);
    RepliesStoreExactly(post, rs, build, o);
    assert AutoPostRun(cronSecret, request, bots, o).calls[1..] == st.calls;
  }

  // ---------------------------------------------------------------------------
  // The route itself

  /**
   * `otherBots.sort(() => Math.random() - 0.5)` (line 51): the pool is
   * rearranged in place by the exchanges the sort makes.
   */
  method Shuffle(a: array<Bot>, swaps: seq<(nat, nat)>)
    modifies a
    ensures a[..] == ApplySwaps(old(a[..]), swaps)
  {
    ghost var s0 := a[..];
    for k := 0 to |swaps|
      invariant a[..] == ApplySwaps(s0, swaps[..k])
    {
      assert swaps[..k + 1][..k] == swaps[..k];
      var p := swaps[k];
      if p.0 < a.Length && p.1 < a.Length {
        a[p.0], a[p.1] := a[p.1], a[p.0];
      }
    }
    assert swaps[..|swaps|] == swaps;
  }

  /**
   * Lines 55-84: each responder in turn fetches its relations and has its
   * request composed (`build`, which is `RequestBuilder` in `Get`), asks for a
   * reply given the comments stored so far, and inserts it; a stored comment
   * is appended to `existing`. A rejected reply ends the loop (the error
   * propagates to the handler's `catch`), reported in `aborted`.
   */
  method ReplyLoop(post: Post, replyBots: seq<Bot>, build: (Bot, seq<Comment>) -> Ai.ChatRequest, o: Oracles)
    returns (existing: seq<Comment>, ghost loopCalls: seq<StoreCall>, aborted: Option<string>)
    ensures Replies(post, replyBots, build, o) == LoopState(existing, loopCalls, aborted)
    ensures |existing| <= |replyBots|
  {
    existing := [];
    loopCalls := [];
    aborted := None;
    for i := 0 to |replyBots|
      invariant Replies(post, replyBots[..i], build, o) == LoopState(existing, loopCalls, None)
      invariant |existing| <= i
    {
      assert replyBots[..i + 1][..i] == replyBots[..i];
      var bot := replyBots[i];
      loopCalls := loopCalls + [SelectRelations(bot.id)];
      var reply := Ai.ReplyFromCompletion(o.replyAnswer(i, build(bot, existing)));
      if reply.Failure? {
        AbortIsFinal(post, replyBots, build, o, i + 1);
        aborted := Some(reply.error);
        return;
      }
      var comment := NewComment(post.id, bot.id, reply.value, None);
      var ins := o.commentInsert(i, comment);
      loopCalls := loopCalls + [InsertComment(comment)];
      if Succeeded(ins) {
        existing := existing + [ins.data.value];
      }
    }
    assert replyBots[..|replyBots|] == replyBots;
  }

  /**
   * `GET` (lines 16-96): the handler answers what `AutoPostRun` says and its
   * store calls, recorded in `calls`, are the ones `AutoPostRun` lists.
   */
  method Get(cronSecret: Option<string>, request: CronRequest, bots: seq<Bot>, o: Oracles) returns (response: Response, ghost calls: seq<StoreCall>)
    requires ValidDraws(o)
    ensures Run(response, calls) == AutoPostRun(cronSecret, request, bots, o)
    ensures response.status == 401 <==> !Authorized(cronSecret, request)
    ensures response.status == 200 || response.status == 401 || response.status == 500
    ensures response.status == 200 ==> response.body.PostedBody? && response.body.replyCount <= 3
  {
    calls := [];
    if !Authorized(cronSecret, request) {
      response := Response(401, ErrorBody(UnauthorizedMessage));
      return;
    }
    if |bots| == 0 {
      response := Response(500, ErrorBody(UndefinedBotMessage));
      return;
    }
    var poster := bots[PosterIndex(o.posterDraw, |bots|)];
    var topic := GenerateTopic(poster, o.topicAnswer, o.parseJson);
    if topic.Failure? {
      response := Response(500, ErrorBody(topic.error));
      return;
    }
    var row := NewPost(poster.id, topic.value.title, topic.value.content);
    var inserted := o.postInsert(row);
    calls := [InsertPost(row)];
    if !Succeeded(inserted) {
      response := Response(500, ErrorBody(PostErrorMessage(inserted)));
      return;
    }
    var post := inserted.data.value;

    var others := Others(bots, poster.id);
    var shuffled := new Bot[|others|](j requires 0 <= j < |others| => others[j]);
    assert shuffled[..] == others;
    Shuffle(shuffled, o.swaps);
    var replyCount := ReplyCount(o.replyCountDraw);
    var replyBots := shuffled[..if replyCount < shuffled.Length then replyCount else shuffled.Length];
    assert replyBots == Responders(bots, poster.id, o.swaps, o.replyCountDraw);

    var existing, loopCalls, aborted := ReplyLoop(post, replyBots, RequestBuilder(post, BotMap(bots), o.relationsFor), o);
    calls := calls + loopCalls;
    if aborted.Some? {
      response := Response(500, ErrorBody(aborted.value));
    } else {
      response := Response(200, PostedBody(post.id, poster.name, |existing|));
    }
  }
}
