# Bot forum orchestration core, modelled in Dafny

This project models the orchestration core of a forum where AI personas
("bots") post topics and reply to each other. The model covers five parts.

- The responder selector (`selectRespondingBot`). The last speaker is
  excluded. Every other persona scores 2 per trigger keyword found in the
  lowercased text, plus a jitter draw in [0, 1). The first persona with the
  highest score wins.
- The reply composer (`generateBotReply`). It derives allies and rivals from
  directed relation edges, keeps a window of the last five comments, and
  builds the system and user prompts.
- How the topic composer (`generateTopic`) normalises its result.
- The daily gate: `getTodayDateString` and `hasTodayPost`.
- The auto-post cron route (`GET`). It checks the secret, picks a poster,
  produces a topic and inserts the post. It then fans out to two or three
  other personas, which reply one after another. Each reply is given the
  comments stored so far in the run.

Modules, one per source file or concern:

- `Types`: records of src/lib/types.ts, plus `Option` and `Result`.
- `Text`: substring test, `join`, lowercasing via a character map,
  `slice(0, n)`, and `filter(Boolean)`.
- `Registry`: the persona index `botMap` of src/bots/index.ts.
- `Scheduler`: src/lib/scheduler.ts.
- `Ai`: src/lib/ai.ts.
- `TopicGenerator`: src/lib/topic-generator.ts.
- `DailyCheck`: src/lib/daily-check.ts.
- `FanOut`: the poster pick and responder choice of the route.
- `AutoPost`: the route. The reply loop is a function (`Replies`) with its
  invariants. `Get`, `ReplyLoop` and `Shuffle` are imperative methods proved
  against it. `Shuffle` rearranges a fresh array in place.
- `Seed`: the relation data of src/bots/relations.ts, with the ally and
  rival lists it yields for each persona.

These outside parts become function-valued parameters ("oracles"):

- the chat-completion collaborator (a completion, or a thrown error);
- `JSON.parse` (a parsed record, or an error);
- every store call (`insert`, `select`);
- `Math.random`: draws in [0, 1), and the exchanges the random-comparator
  sort performs;
- the clock: a UTC date-time record;
- `toLowerCase`: a character map.

## Model

| member | source | states |
|---|---|---|
| Text.ToLower | src/lib/scheduler.ts:20 | lowercasing maps each character through `lower` and keeps the length |
| Text.Take | src/lib/topic-generator.ts:46 | `slice(0, n)` yields the first min(n, length) characters, a prefix of the input |
| Text.Join | src/lib/ai.ts:31 | `join(sep)` opens with the first part and closes with the last |
| Text.NonEmpty | src/lib/ai.ts:28-31 | `filter(Boolean)` keeps exactly the non-empty strings: a string is in the result exactly when it is a non-empty member of the input; the result is never longer |
| Text.NonEmptyAppend | src/lib/ai.ts:28-31 | the filter keeps the input order: filtering a concatenation concatenates the filtered runs |
| Text.NonEmptyKeepsAll | src/lib/ai.ts:28-31 | a list of non-empty strings passes the filter unchanged |
| Text.NonEmptyPair | src/lib/ai.ts:28-31 | the two-line relation list keeps the ally line before the rival line, dropping whichever is empty |
| Text.JoinEmptyIff | src/lib/ai.ts:31 | a join of non-empty parts is empty exactly when there are no parts |
| Text.JoinIncludesPart | src/lib/ai.ts:29-31 | every part occurs as a substring of the joined string |
| Registry.BotMap | src/bots/index.ts:25-27 | the index has a key exactly for each persona id, and each entry carries its own id |
| Registry.BotMapLastWins | src/bots/index.ts:25-27 | for a repeated id, the index holds the last persona in registry order with that id |
| Registry.BotMapFindsEveryBot | src/bots/index.ts:25-27 | with distinct ids, every persona is found under its own id |
| Registry.NameOf | src/lib/ai.ts:15 | `botMap[id]?.name` gives a name exactly when the index holds the id, and it is that entry's name |
| Registry.NameOfRegistered | src/bots/index.ts:25-27 | with distinct ids, a registered persona's id yields its name, and only registered ids yield a name |
| Scheduler.LastSpeaker | src/lib/scheduler.ts:16-18 | the last speaker is the newest comment's author, or none for an empty history |
| Scheduler.KeywordScore | src/lib/scheduler.ts:27-29 | the keyword score is even and at most 2 per trigger keyword |
| Scheduler.KeywordScoreCountsMatches | src/lib/scheduler.ts:27-29 | the keyword score is 2 times the number of matching keyword positions, so at most 2 per keyword |
| Scheduler.PositionsSnoc | src/lib/scheduler.ts:27-29 | one more keyword adds one matching position exactly when it matches |
| Scheduler.MatchingPositionsSnoc | src/lib/scheduler.ts:27-29 | the same step for the keyword list of a persona |
| Scheduler.KeywordScoreDependsOnPresenceOnly | src/lib/scheduler.ts:28 | texts containing the same keywords give the same score; repeats add nothing |
| Scheduler.BotScore | src/lib/scheduler.ts:24-34 | with a draw in [0, 1), a persona's score is negative exactly when it is the last speaker |
| Scheduler.Scores | src/lib/scheduler.ts:22-35 | the scored list has one score per persona, in registry order |
| Scheduler.FirstMax | src/lib/scheduler.ts:37-38 | the stable descending sort puts first a position whose score is maximal and strictly above all earlier ones |
| Scheduler.Winner | src/lib/scheduler.ts:37-38 | the chosen position is inside the registry |
| Scheduler.SelectRespondingBot | src/lib/scheduler.ts:12-39 | an id is returned exactly when the registry is non-empty, and it is a registry persona's id |
| Scheduler.WinnerIsFirstMaximum | src/lib/scheduler.ts:22-38 | the result is the first persona with a maximal score over the whole registry |
| Scheduler.ScoreBand | src/lib/scheduler.ts:24-34 | the last speaker scores -1; every other persona's score is in [keywordScore, keywordScore + 1) |
| Scheduler.MoreMatchesWin | src/lib/scheduler.ts:27-34 | a non-excluded persona with strictly more matching keywords always outscores another, whatever the jitter |
| Scheduler.NeverRepeatsLastSpeaker | src/lib/scheduler.ts:16-24 | if any persona other than the last speaker exists, the last speaker is never chosen |
| Scheduler.TwoDistinctBotsNeverRepeat | src/lib/scheduler.ts:16-24 | whenever any two personas of the registry have distinct ids, the last speaker is never chosen again |
| Scheduler.EmptyHistoryExcludesNobody | src/lib/scheduler.ts:16-18 | with an empty history, every score is keyword score plus jitter and none is -1 |
| Scheduler.WinnerHasMostMatches | src/lib/scheduler.ts:27-38 | the chosen persona is not the last speaker and has at least as many matches as any persona other than the last speaker |
| Scheduler.ZeroJitterKeywordBeatsNoMatch | src/lib/scheduler.ts:27-34 | with zero jitter, a persona with a matching keyword outscores one with none |
| Scheduler.SoleKeywordMatchIsChosen | src/lib/scheduler.ts:22-38 | with an empty history, the only persona with a match is chosen whatever the draws |
| Scheduler.SelectionIgnoresCase | src/lib/scheduler.ts:20-28 | for an idempotent lowercasing map, lowercasing the text beforehand changes nothing |
| Ai.RelatedNames | src/lib/ai.ts:13-21 | an ally or rival list is never longer than the relation list |
| Ai.EdgeName | src/lib/ai.ts:13-21 | one edge gives at most one name, never an empty one |
| Ai.RelatedNamesNonEmpty | src/lib/ai.ts:13-21 | missing and empty names are dropped |
| Ai.RelatedNamesMembership | src/lib/ai.ts:13-21 | a name is listed exactly when some edge leaves the persona with that kind and targets a persona with that non-empty name |
| Ai.RelatedNamesAppend | src/lib/ai.ts:13-21 | names come out in relation order: the lists of two runs of edges concatenate |
| Ai.RelatedNamesCons | src/lib/ai.ts:13-21 | a leading edge contributes its name ahead of the rest |
| Ai.OtherEdgesIgnored | src/lib/ai.ts:13-21 | inserting a neutral edge, or an edge from another persona, changes neither list |
| Ai.RelationInfo | src/lib/ai.ts:28-31 | the relation block opens with the ally line when there are allies and closes with the rival line when there are rivals |
| Ai.RelationInfoEmptyIff | src/lib/ai.ts:28-31 | the relation block is empty exactly when there are no allies and no rivals |
| Ai.Window | src/lib/ai.ts:23 | the window is the last min(5, n) comments, in original order |
| Ai.WindowSlides | src/lib/ai.ts:23 | a new comment enters last, and the oldest leaves once five are shown |
| Ai.WindowIgnoresOlder | src/lib/ai.ts:23 | dropping comments older than the newest five leaves the window unchanged |
| Ai.CommenterName | src/lib/ai.ts:24 | a known author appears by name, even an empty one; an unknown author appears by id |
| Ai.CommentLines | src/lib/ai.ts:23-26 | one non-empty `name: content` line per windowed comment, oldest first |
| Ai.RecentComments | src/lib/ai.ts:23-26 | the rendered comments open with the oldest shown comment's line and close with the newest comment's line |
| Ai.RecentCommentsEmptyIff | src/lib/ai.ts:23-26 | the rendered comment block is empty exactly when there are no comments |
| Ai.BuildReplyRequest | src/lib/ai.ts:52-60 | the request uses model gpt-4o-mini, 300 tokens, temperature 0.85, and no JSON mode |
| Ai.ReplyFromCompletion | src/lib/ai.ts:62 | the reply is the collaborator's content, `''` for null content; a thrown error propagates |
| Ai.SystemPrompt | src/lib/ai.ts:33-44 | the system prompt opens with the persona's name, personality, style and expertise, and closes with the reply rules |
| Ai.UserPrompt | src/lib/ai.ts:46-50 | the user prompt opens with the post's title and closes by asking for a comment in the persona's name |
| Ai.GenerateBotReply | src/lib/ai.ts:7-63 | the collaborator is asked exactly the composed request; its rejection propagates as a failure with its message, and otherwise the reply is its content or `''` |
| Ai.RelationBlockPresentIff | src/lib/ai.ts:28-44 | the system prompt has the relation section exactly when an ally or rival exists, and then the section holds the block |
| Ai.SystemPromptShape | src/lib/ai.ts:33-44 | the system prompt holds the `关系信息` section exactly when the relation block is non-empty, and then the section holds the block |
| Ai.SystemPromptNamesRelations | src/lib/ai.ts:28-37 | every ally and every rival name occurs in the system prompt |
| Ai.InfoIncludesName | src/lib/ai.ts:28-31 | a name in the joined ally or rival list occurs in the relation block |
| Ai.InfoInSystemPrompt | src/lib/ai.ts:33-44 | a non-empty relation block is embedded in the system prompt |
| Ai.RecentSectionPresentIff | src/lib/ai.ts:46-50 | the user prompt has the recent-comments section exactly when there are comments |
| Ai.UserPromptShowsWindow | src/lib/ai.ts:23-50 | every windowed comment's line occurs in the user prompt |
| Ai.RequestIgnoresOlderComments | src/lib/ai.ts:23-50 | only the newest five comments affect the request |
| TopicGenerator.TopicRequest | src/lib/topic-generator.ts:31-39 | the topic request uses gpt-4o-mini, 500 tokens, temperature 0.9, with JSON mode on |
| TopicGenerator.NormalizeTopic | src/lib/topic-generator.ts:45-48 | the title has at most 40 characters; a missing title becomes `无标题`; a present title is cut to a prefix of itself, unchanged when at most 40 long and exactly 40 long otherwise; the content passes unchanged and is `''` when missing |
| TopicGenerator.FieldsIndependent | src/lib/topic-generator.ts:45-48 | the title depends only on the parsed title; the body only on the parsed content |
| TopicGenerator.NormalizeIdempotent | src/lib/topic-generator.ts:45-48 | re-normalising a normalised topic changes nothing |
| TopicGenerator.TopicFromCompletion | src/lib/topic-generator.ts:42-48 | a thrown call error propagates; null content is parsed as `{}`; a parse error propagates and never yields a default topic; otherwise the topic is the normalised parse |
| TopicGenerator.GenerateTopic | src/lib/topic-generator.ts:12-52 | a produced topic's title is at most 40 characters |
| DailyCheck.Digit | src/lib/daily-check.ts:7 | a digit value renders as a decimal digit character |
| DailyCheck.IsoTimestamp | src/lib/daily-check.ts:7 | `toISOString` of a four-digit-year instant has 24 characters |
| DailyCheck.GetTodayDateString | src/lib/daily-check.ts:6-8 | the first ten characters of the timestamp have shape `DDDD-DD-DD`; they are the calendar date, zero-padded |
| DailyCheck.DigitRoundTrip | src/lib/daily-check.ts:7 | a rendered digit reads back as its value |
| DailyCheck.Pad2RoundTrip | src/lib/daily-check.ts:7 | a two-digit field reads back as its number |
| DailyCheck.Pad4RoundTrip | src/lib/daily-check.ts:7 | a four-digit year reads back as its number |
| DailyCheck.TodayRoundTrip | src/lib/daily-check.ts:6-8 | the date string parses back to the instant's (year, month, day) |
| DailyCheck.SameStringIffSameDay | src/lib/daily-check.ts:6-8 | two instants give the same date string exactly when they fall on the same UTC day |
| DailyCheck.TodayPostQuery | src/lib/daily-check.ts:14-19 | the query selects `id` from `posts` where `scheduled_date` equals today, with limit 1 |
| DailyCheck.DecidePresence | src/lib/daily-check.ts:21-22 | the result is an error exactly when the query failed, and it is that error; it is true exactly when the data is an array with at least one row; null data with no error gives false |
| DailyCheck.HasTodayPost | src/lib/daily-check.ts:13-23 | the store is asked for posts scheduled on the instant's UTC date; its error is raised; otherwise the answer is true exactly when a row came back |
| DailyCheck.ErrorIsNeverFalse | src/lib/daily-check.ts:21 | a query error is raised as that error, never read as `false` |
| DailyCheck.GateDependsOnDayOnly | src/lib/daily-check.ts:13-22 | two instants on one UTC day send the same query and get the same answer |
| FanOut.PosterIndex | src/app/api/cron/auto-post/route.ts:31 | `floor(r * n)` with 0 <= r < 1 is a registry position |
| FanOut.ReplyCount | src/app/api/cron/auto-post/route.ts:52 | the reply count is 2 or 3, and it is 3 exactly when the draw is at least 0.5 |
| FanOut.Others | src/app/api/cron/auto-post/route.ts:50 | a persona is in the pool exactly when it is in the registry and is not the poster |
| FanOut.OthersAllKept | src/app/api/cron/auto-post/route.ts:50 | when no persona carries the poster's id, the pool is the whole registry, in order |
| FanOut.OthersOfDistinct | src/app/api/cron/auto-post/route.ts:50 | with distinct ids, the pool has n - 1 personas, with distinct ids |
| FanOut.ConsDistinct | src/app/api/cron/auto-post/route.ts:50 | a persona whose id is new can be put in front without repeating an id |
| FanOut.ApplySwaps | src/app/api/cron/auto-post/route.ts:51 | the shuffle keeps the pool's length |
| FanOut.ApplySwapsPermutes | src/app/api/cron/auto-post/route.ts:51 | the shuffle is a permutation of the pool |
| FanOut.ApplySwapsKeepsDistinct | src/app/api/cron/auto-post/route.ts:51 | the shuffle keeps ids distinct |
| FanOut.Prefix | src/app/api/cron/auto-post/route.ts:53 | `slice(0, c)` gives the first min(c, length) elements |
| FanOut.Responders | src/app/api/cron/auto-post/route.ts:50-53 | there are min(count, pool size) responders, drawn from the pool without using any persona more often than the pool holds it |
| FanOut.PrefixSubMultiset | src/app/api/cron/auto-post/route.ts:53 | a leading slice takes nothing the list does not hold |
| FanOut.RespondersWellFormed | src/app/api/cron/auto-post/route.ts:50-53 | responders are min(c, n - 1) registry personas with c in {2, 3}; their ids are distinct and differ from the poster's |
| AutoPost.Authorized | src/app/api/cron/auto-post/route.ts:20-25 | an absent or empty configured secret leaves the route open; the configured secret opens it through the query or the header; nothing else does |
| AutoPost.ReplyStep | src/app/api/cron/auto-post/route.ts:57-84 | a responder records its relation select; a rejected reply ends the loop with its message; otherwise a top-level comment insert on the post with the reply text is recorded, and the stored row is appended only when the insert succeeded |
| AutoPost.Replies | src/app/api/cron/auto-post/route.ts:55-84 | the loop over the responders in order stores at most one comment and makes at most two store calls per responder |
| AutoPost.AbortIsFinal | src/app/api/cron/auto-post/route.ts:57-95 | once a reply is rejected, later responders add no comment and no store call |
| AutoPost.StepAppends | src/app/api/cron/auto-post/route.ts:57-84 | an iteration adds at most one comment and one or two store calls, all for its own responder, and keeps the earlier calls |
| AutoPost.RepliesWellFormed | src/app/api/cron/auto-post/route.ts:55-84 | at most one comment and two store calls per responder; every call is a relation select or a comment insert with `post_id` the new post's id and `parent_comment_id` null, made for a responder |
| AutoPost.RepliesStoreExactly | src/app/api/cron/auto-post/route.ts:55-84 | without a rejection, every responder makes exactly one comment insert, in responder order, on the new post under its own id, and the accumulator holds exactly the rows the store accepted, in that order |
| AutoPost.StepRecordsInsert | src/app/api/cron/auto-post/route.ts:69-83 | an iteration that does not abort records one comment insert on the post under its responder's id, and appends the stored row exactly when the store accepted it |
| AutoPost.InsertRowsAppend | src/app/api/cron/auto-post/route.ts:70-79 | the comment inserts of two runs of calls are those of each run, in order |
| AutoPost.InsertRowsStep | src/app/api/cron/auto-post/route.ts:59-79 | a relation select followed by a comment insert adds exactly that insert's row |
| AutoPost.StoredSnoc | src/app/api/cron/auto-post/route.ts:81-83 | one more insert adds its stored row exactly when the store accepted it |
| AutoPost.RowsOfResponders | src/app/api/cron/auto-post/route.ts:70-77 | appending the last responder's row keeps every row on the post under its responder's id |
| AutoPost.ContextIsPrefixOfResult | src/app/api/cron/auto-post/route.ts:55-84 | loop invariant: the comments given to responder i, those stored by responders 0..i-1 in order, are the leading part of the final accumulator, and the store calls only grow by appending |
| AutoPost.SkippedInsertIsInvisible | src/app/api/cron/auto-post/route.ts:67-83 | with three responders whose first and third inserts are stored and whose second fails, the second and third responders are given exactly the first comment, and the loop ends with the first and third comments |
| AutoPost.SkippedInsertReported | src/app/api/cron/auto-post/route.ts:55-91 | in that situation the whole run answers 200 and reports 2 replies |
| AutoPost.AutoPostRun | src/app/api/cron/auto-post/route.ts:16-96 | the status is 401 exactly when unauthorised, and always 200, 401 or 500; a 200 reports at most 3 replies; any store call comes after the secret check with a non-empty registry, and the first is the post insert |
| AutoPost.UnauthorizedTouchesNothing | src/app/api/cron/auto-post/route.ts:23-25 | with a non-empty secret configured and neither presented secret equal to it, the answer is 401 `Unauthorized` and no store call is made |
| AutoPost.AuthorizedNeverGets401 | src/app/api/cron/auto-post/route.ts:21-25 | with no secret configured, an empty one, or a matching query or header secret, the status is never 401 |
| AutoPost.PostFailureStopsRun | src/app/api/cron/auto-post/route.ts:37-45 | a post insert that fails or returns no row gives 500 with the store's message or `Failed to create post`, and the insert is the only store call |
| AutoPost.RunCallsWellFormed | src/app/api/cron/auto-post/route.ts:23-84 | store calls happen only after the secret check with a non-empty registry; the first is the post insert; later calls happen only after a successful insert and each belongs to a responder of that post |
| AutoPost.AfterPostInsert | src/app/api/cron/auto-post/route.ts:37-84 | putting the post insert in front of the loop's calls keeps every later call well formed |
| AutoPost.SuccessReport | src/app/api/cron/auto-post/route.ts:86-91 | a 200 answer reports the new post's id, the poster's name and a `replyCount` equal to the number of comment inserts the store accepted; every responder made one insert, so the count is at most the number of responders and so at most 3 |
| AutoPost.Shuffle | src/app/api/cron/auto-post/route.ts:51 | the array is rearranged in place, exactly the way the exchange sequence prescribes |
| AutoPost.ReplyLoop | src/app/api/cron/auto-post/route.ts:55-84 | the loop's comments, store calls and abort message are those of the reply-loop function `Replies`; at most one comment per responder |
| AutoPost.Get | src/app/api/cron/auto-post/route.ts:16-96 | the answer and the recorded store calls are those of `AutoPostRun`; the status is 401 exactly when unauthorised, and always 200, 401 or 500; a 200 answer reports at most 3 replies |
| Seed.SingleEdge | src/bots/relations.ts:3-60 | a list holding one edge yields what that edge contributes |
| Seed.SeedNames | src/bots/relations.ts:3-60 | the list over the seed concatenates each edge's contribution, in seed order |
| Seed.TechGuruRelations | src/bots/relations.ts:4-52 | tech-guru's allies are [optimist] and its rivals [philosopher]; its neutral edge counts for neither |
| Seed.PhilosopherRelations | src/bots/relations.ts:18-59 | philosopher's allies are [skeptic], and it has no rival |
| Seed.OptimistRelations | src/bots/relations.ts:25-31 | optimist has no ally, and its rivals are [skeptic] |
| Seed.StorytellerRelations | src/bots/relations.ts:32-45 | storyteller's allies are [optimist], and it has no rival |
| Seed.SkepticHasNoRelationBlock | src/bots/relations.ts:3-60 | skeptic has no outgoing edge, so its system prompt has no relation section |

## Left out

- The chat-completion calls (src/lib/ai.ts:52-60, src/lib/topic-generator.ts:31-40) are foreign calls. They are parameters returning a completion or a thrown error. The prompts they receive are modelled exactly.
- `JSON.parse` is a parameter that may fail. The model's parsed record holds `Option<string>` fields only, and the `as` cast at src/lib/topic-generator.ts:43 is not checked at run time. A number, boolean or plain-object `title` makes `.slice` at line 46 throw, so the route answers 500; the model can express that only as a `parseJson` failure. An array `title` is sliced as an array and yields a non-string title, which the model cannot express. A non-string `content` passes through unchecked, which the model cannot express either.
- The tracing wrapper `traceAICall` (src/lib/langsmith.ts) is assumed to pass the wrapped call's result or error through unchanged. src/lib/langsmith.ts is not part of this model.
- Supabase client construction (src/app/api/cron/auto-post/route.ts:9-14, line 27) is left out. Its error for missing environment variables is thrown outside the `try`, so that failure is not modelled.
- The store is given as per-call answers. Concurrency, network failures of the `bot_relations` select, and races between runs are not modelled. A failed select reads as `[]`, as at line 64.
- src/__tests__/auto-post-route.test.ts:92-171 expects behaviour that the route does not have. The route never calls `hasTodayPost`, never sends `topic_id` or `scheduled_date`, and never returns `topicId`. The model follows the route. The daily gate is modelled on its own, in `DailyCheck`.
- The preset-topic mode of `generateTopic`, expected by src/__tests__/topic-generator.test.ts:65-129, is not in the function, which takes only the persona. It is not modelled.
- The only errors modelled inside the `try` are thrown call errors, parse errors and `posterBot` being undefined (empty registry). In the last case the model reports the message that reading `.name` of `undefined` produces. Any value thrown that is not an `Error` would be reported as `Unknown error`; the model does not produce such values.
- Scheduler.SelectRespondingBot: `toLowerCase` is a per-character map. Multi-character case expansions and locale rules are not modelled.
- Scheduler.SelectRespondingBot: scores are summed as exact reals, while the source adds IEEE doubles at src/lib/scheduler.ts:34. Two draws that differ by less than one unit in the last place can round to the same double. The source then has a tie, and its stable sort picks the earlier persona. The model picks the persona whose exact sum is larger.
- Scheduler.ScoreBand: the strict upper bound score < keywordScore + 1 holds for exact sums only. In doubles, keywordScore plus a draw just below 1 can round up to keywordScore + 1 (2 + (1 - 2^-52) evaluates to 3). The properties MoreMatchesWin and NeverRepeatsLastSpeaker do not depend on this bound.
- Scheduler.BotScore: the sum is exact; the double rounding just described is not modelled.
- TopicGenerator.NormalizeTopic: `slice(0, 40)` counts UTF-16 code units. The model counts characters, so it differs for characters outside the Basic Multilingual Plane.
- DailyCheck.GetTodayDateString: instants are limited to years 0-9999 in UTC. `toISOString`'s six-digit extended years and its RangeError for invalid dates are left out.
- FanOut.Responders: the random-comparator `sort` is a sequence of exchanges chosen by a parameter. Every permutation arises this way. The model does not capture which permutations V8's sort favours.
- Registry.NameOf: the index is a map of own keys. In the source, `botMap` is a plain object built by `Object.fromEntries` (src/bots/index.ts:25-27), so `botMap[id]?.name` also finds keys inherited from `Object.prototype`, such as `constructor` or `toString`. The model does not capture inherited keys.
- Ai.CommenterName: a comment whose `bot_id` is an inherited key such as `constructor` is shown in the source as the name of that inherited value (`Object`), not by id. The model shows it by id.
- Ai.RelatedNamesMembership: an edge whose target is an inherited key such as `toString` contributes that function's `name` (`toString`) in the source. The model contributes nothing, because such keys are not in the index.
- Ai.EdgeName: the same inherited-key case is left out.
- The completion and comment-insert answers are indexed by the responder's position, so every responder's reply can be chosen freely.
- The static persona files (src/bots/*.json) are not part of this model. The `Seed` lemmas therefore hold for any index that knows the five seeded ids under non-empty names.
- The UI pages, the OG image route, the eval routes and src/app/api/posts/[id]/comments/route.ts are outside the core and not modelled.
