/**
 * The responder selector (src/lib/scheduler.ts): every persona except the last
 * speaker scores 2 per trigger keyword found in the lowercased text plus a
 * jitter draw in [0, 1); the first persona (in registry order) with the
 * highest score is chosen.
 */
module Scheduler {
  import opened Types
  import opened Text

  /** The `Math.random()` draws, one per persona in registry order, each in [0, 1). */
  predicate ValidJitter(jitter: seq<real>, n: nat) {
    |jitter| == n && forall i :: 0 <= i < n ==> 0.0 <= jitter[i] < 1.0
  }

  /** The author of the newest comment, or None for an empty history. */
  function LastSpeaker(comments: seq<Comment>): (r: Option<string>)
    ensures r.Some? <==> |comments| > 0
    ensures r.Some? ==> r.value == comments[|comments| - 1].botId
  {
    if |comments| > 0 then Some(comments[|comments| - 1].botId) else None
  }

  /** Does the lowercased keyword occur in the (already lowercased) text? */
  predicate Matches(text: string, keyword: string, lower: char -> char) {
    Includes(text, ToLower(keyword, lower))
  }

  /** The `reduce` over the trigger keywords: 2 for each one that occurs, 0 otherwise; an even score of at most 2 per keyword. */
  function KeywordScore(text: string, keywords: seq<string>, lower: char -> char): (r: nat)
    ensures r % 2 == 0 && r <= 2 * |keywords|
    decreases |keywords|
  {
    if keywords == [] then 0
    else
      var n := |keywords| - 1;
      KeywordScore(text, keywords[..n], lower) + (if Matches(text, keywords[n], lower) then 2 else 0)
  }

  /** The positions of `s` whose element satisfies `p`. */
  function Positions<T>(s: seq<T>, p: T -> bool): set<nat> {
    set i: nat | i < |s| && p(s[i])
  }

  /** Positions of the keyword list whose keyword occurs in the text. */
  function MatchingPositions(text: string, keywords: seq<string>, lower: char -> char): set<nat> {
    Positions(keywords, kw => Matches(text, kw, lower))
  }

  /**
   * The keyword score is twice the number of matching keywords: each keyword
   * contributes once, however often it occurs in the text.
   */
  lemma {:induction false} KeywordScoreCountsMatches(text: string, keywords: seq<string>, lower: char -> char)
    ensures KeywordScore(text, keywords, lower) == 2 * |MatchingPositions(text, keywords, lower)|
    ensures KeywordScore(text, keywords, lower) <= 2 * |keywords|
    decreases |keywords|
  {
    if keywords != [] {
      var n := |keywords| - 1;
      KeywordScoreCountsMatches(text, keywords[..n], lower);
      MatchingPositionsSnoc(text, keywords, lower);
    }
  }

  /** Extending a list by one element adds its position exactly when it satisfies `p`. */
  lemma PositionsSnoc<T>(s: seq<T>, p: T -> bool)
    requires |s| > 0
    ensures var n := |s| - 1;
            |Positions(s, p)| == |Positions(s[..n], p)| + (if p(s[n]) then 1 else 0)
  {
    var n := |s| - 1;
    var init := s[..n];
    var before := Positions(init, p);
    var after := Positions(s, p);
    forall i: nat | i < n
      ensures init[i] == s[i]
    {
    }
    assert n !in before;
    if p(s[n]) {
      assert after == before + {n};
      assert |before + {n}| == |before| + 1;
    } else {
      assert after == before;
    }
  }

  /** Extending the keyword list by one adds its position exactly when it matches. */
  lemma MatchingPositionsSnoc(text: string, keywords: seq<string>, lower: char -> char)
    requires |keywords| > 0
    ensures var n := |keywords| - 1;
            |MatchingPositions(text, keywords, lower)|
              == |MatchingPositions(text, keywords[..n], lower)| + (if Matches(text, keywords[n], lower) then 1 else 0)
  {
    PositionsSnoc(keywords, kw => Matches(text, kw, lower));
  }

  /**
   * Only the presence of each keyword matters: two texts that contain the same
   * keywords give the same score.
   */
  lemma {:induction false} KeywordScoreDependsOnPresenceOnly(t1: string, t2: string, keywords: seq<string>, lower: char -> char)
    requires forall i :: 0 <= i < |keywords| ==> (Matches(t1, keywords[i], lower) <==> Matches(t2, keywords[i], lower))
    ensures KeywordScore(t1, keywords, lower) == KeywordScore(t2, keywords, lower)
    decreases |keywords|
  {
    if keywords != [] {
      var n := |keywords| - 1;
      assert forall i :: 0 <= i < n ==> keywords[..n][i] == keywords[i];
      KeywordScoreDependsOnPresenceOnly(t1, t2, keywords[..n], lower);
    }
  }

  /**
   * The score of one persona: -1 for the last speaker, keyword score plus
   * jitter otherwise. With a non-negative draw, a negative score marks
   * exactly the last speaker.
   */
  function BotScore(text: string, lastBotId: Option<string>, bot: Bot, jitter: real, lower: char -> char): (r: real)
    ensures 0.0 <= jitter ==> (r < 0.0 <==> Some(bot.id) == lastBotId)
  {
    if Some(bot.id) == lastBotId then -1.0
    else (KeywordScore(text, bot.triggerKeywords, lower) as real) + jitter
  }

  /** The `scored` array, in registry order. */
  function Scores(text: string, lastBotId: Option<string>, bots: seq<Bot>, jitter: seq<real>, lower: char -> char): (s: seq<real>)
    requires |jitter| == |bots|
    ensures |s| == |bots|
    ensures forall i :: 0 <= i < |bots| ==> s[i] == BotScore(text, lastBotId, bots[i], jitter[i], lower)
  {
    seq(|bots|, i requires 0 <= i < |bots| => BotScore(text, lastBotId, bots[i], jitter[i], lower))
  }

  /**
   * Position 0 after the stable descending sort: the first position holding a
   * maximal score.
   */
  function FirstMax(s: seq<real>): (k: nat)
    requires |s| > 0
    ensures k < |s|
    ensures forall j :: 0 <= j < |s| ==> s[j] <= s[k]
    ensures forall j :: 0 <= j < k ==> s[j] < s[k]
    decreases |s|
  {
    if |s| == 1 then 0
    else
      var k := FirstMax(s[..|s| - 1]);
      assert forall j :: 0 <= j < |s| - 1 ==> s[..|s| - 1][j] == s[j];
      if s[|s| - 1] > s[k] then |s| - 1 else k
  }

  /** The registry position of the chosen responder. */
  function Winner(postContent: string, comments: seq<Comment>, bots: seq<Bot>, jitter: seq<real>, lower: char -> char): (k: nat)
    requires |bots| > 0 && |jitter| == |bots|
    ensures k < |bots|
  {
    FirstMax(Scores(ToLower(postContent, lower), LastSpeaker(comments), bots, jitter, lower))
  }

  /** `selectRespondingBot`; None where the source reads `scored[0]` of an empty registry and throws. */
  function SelectRespondingBot(postContent: string, comments: seq<Comment>, bots: seq<Bot>, jitter: seq<real>, lower: char -> char): (r: Option<string>)
    requires ValidJitter(jitter, |bots|)
    ensures r.None? <==> bots == []
    ensures r.Some? ==> exists k :: 0 <= k < |bots| && bots[k].id == r.value
  {
    if bots == [] then None else Some(bots[Winner(postContent, comments, bots, jitter, lower)].id)
  }

  // ---------------------------------------------------------------------------
  // Properties of the selector

  /** The chosen persona's score is maximal over the registry, and strictly above every earlier persona's. */
  lemma WinnerIsFirstMaximum(postContent: string, comments: seq<Comment>, bots: seq<Bot>, jitter: seq<real>, lower: char -> char)
    requires |bots| > 0 && ValidJitter(jitter, |bots|)
    ensures var s := Scores(ToLower(postContent, lower), LastSpeaker(comments), bots, jitter, lower);
            var k := Winner(postContent, comments, bots, jitter, lower);
            SelectRespondingBot(postContent, comments, bots, jitter, lower) == Some(bots[k].id) &&
            (forall j :: 0 <= j < |bots| ==> s[j] <= s[k]) &&
            (forall j :: 0 <= j < k ==> s[j] < s[k])
  {
  }

  /** The last speaker scores -1; every other persona scores in [keywordScore, keywordScore + 1). */
  lemma ScoreBand(text: string, lastBotId: Option<string>, bot: Bot, jitter: real, lower: char -> char)
    requires 0.0 <= jitter < 1.0
    ensures Some(bot.id) == lastBotId ==> BotScore(text, lastBotId, bot, jitter, lower) == -1.0
    ensures Some(bot.id) != lastBotId ==>
              var ks := KeywordScore(text, bot.triggerKeywords, lower) as real;
              ks <= BotScore(text, lastBotId, bot, jitter, lower) < ks + 1.0
  {
  }

  /** Jitter only breaks ties: strictly more matching keywords always gives a strictly higher score. */
  lemma MoreMatchesWin(text: string, lastBotId: Option<string>, a: Bot, ra: real, b: Bot, rb: real, lower: char -> char)
    requires 0.0 <= ra < 1.0 && 0.0 <= rb < 1.0
    requires Some(a.id) != lastBotId
    requires |MatchingPositions(text, a.triggerKeywords, lower)| > |MatchingPositions(text, b.triggerKeywords, lower)|
    ensures BotScore(text, lastBotId, a, ra, lower) > BotScore(text, lastBotId, b, rb, lower)
  {
    KeywordScoreCountsMatches(text, a.triggerKeywords, lower);
    KeywordScoreCountsMatches(text, b.triggerKeywords, lower);
  }

  /**
   * No self-consecutive reply: when some persona other than the last speaker
   * exists (in particular with two or more distinct ids), the selector never
   * returns the author of the newest comment.
   */
  lemma NeverRepeatsLastSpeaker(postContent: string, comments: seq<Comment>, bots: seq<Bot>, jitter: seq<real>, lower: char -> char)
    requires ValidJitter(jitter, |bots|)
    requires |comments| > 0
    requires exists j :: 0 <= j < |bots| && bots[j].id != comments[|comments| - 1].botId
    ensures SelectRespondingBot(postContent, comments, bots, jitter, lower) != Some(comments[|comments| - 1].botId)
  {
    var text := ToLower(postContent, lower);
    var last := LastSpeaker(comments);
    var s := Scores(text, last, bots, jitter, lower);
    var j :| 0 <= j < |bots| && bots[j].id != comments[|comments| - 1].botId;
    assert s[j] >= 0.0;
    var k := Winner(postContent, comments, bots, jitter, lower);
    assert s[k] >= s[j];
  }

  /** Any two personas with distinct ids always leave a candidate besides the last speaker. */
  lemma TwoDistinctBotsNeverRepeat(postContent: string, comments: seq<Comment>, bots: seq<Bot>, jitter: seq<real>, lower: char -> char, a: nat, b: nat)
    requires ValidJitter(jitter, |bots|)
    requires |comments| > 0
    requires a < |bots| && b < |bots| && bots[a].id != bots[b].id
    ensures SelectRespondingBot(postContent, comments, bots, jitter, lower) != Some(comments[|comments| - 1].botId)
  {
    if bots[a].id == comments[|comments| - 1].botId {
      assert bots[b].id != comments[|comments| - 1].botId;
    } else {
      assert bots[a].id != comments[|comments| - 1].botId;
    }
    NeverRepeatsLastSpeaker(postContent, comments, bots, jitter, lower);
  }

  /** With an empty history nobody is excluded: every score is keyword score plus jitter. */
  lemma EmptyHistoryExcludesNobody(postContent: string, bots: seq<Bot>, jitter: seq<real>, lower: char -> char)
    requires ValidJitter(jitter, |bots|)
    ensures var s := Scores(ToLower(postContent, lower), LastSpeaker([]), bots, jitter, lower);
            forall i :: 0 <= i < |bots| ==>
              s[i] == (KeywordScore(ToLower(postContent, lower), bots[i].triggerKeywords, lower) as real) + jitter[i] &&
              s[i] >= 0.0
  {
  }

  /**
   * The chosen persona has the most matching keywords among all personas
   * that are not the last speaker.
   */
  lemma WinnerHasMostMatches(postContent: string, comments: seq<Comment>, bots: seq<Bot>, jitter: seq<real>, lower: char -> char, j: nat)
    requires ValidJitter(jitter, |bots|)
    requires j < |bots| && Some(bots[j].id) != LastSpeaker(comments)
    ensures var text := ToLower(postContent, lower);
            var k := Winner(postContent, comments, bots, jitter, lower);
            Some(bots[k].id) != LastSpeaker(comments) &&
            |MatchingPositions(text, bots[k].triggerKeywords, lower)| >= |MatchingPositions(text, bots[j].triggerKeywords, lower)|
  {
    var text := ToLower(postContent, lower);
    var last := LastSpeaker(comments);
    var s := Scores(text, last, bots, jitter, lower);
    var k := Winner(postContent, comments, bots, jitter, lower);
    assert s[j] >= 0.0;
    assert s[k] >= s[j];
    if |MatchingPositions(text, bots[k].triggerKeywords, lower)| < |MatchingPositions(text, bots[j].triggerKeywords, lower)| {
      MoreMatchesWin(text, last, bots[j], jitter[j], bots[k], jitter[k], lower);
      assert false;
    }
  }

  /**
   * With every jitter draw fixed at 0, a persona one of whose keywords occurs
   * in the text outscores every persona without a match.
   */
  lemma ZeroJitterKeywordBeatsNoMatch(text: string, lastBotId: Option<string>, a: Bot, b: Bot, lower: char -> char, kw: nat)
    requires Some(a.id) != lastBotId
    requires kw < |a.triggerKeywords| && Matches(text, a.triggerKeywords[kw], lower)
    requires forall i :: 0 <= i < |b.triggerKeywords| ==> !Matches(text, b.triggerKeywords[i], lower)
    ensures BotScore(text, lastBotId, a, 0.0, lower) > BotScore(text, lastBotId, b, 0.0, lower)
  {
    KeywordScoreCountsMatches(text, a.triggerKeywords, lower);
    KeywordScoreCountsMatches(text, b.triggerKeywords, lower);
    assert kw in MatchingPositions(text, a.triggerKeywords, lower);
    assert MatchingPositions(text, b.triggerKeywords, lower) == {};
  }

  /**
   * With an empty history, the only persona having a matching keyword is
   * chosen whatever the jitter draws are.
   */
  lemma SoleKeywordMatchIsChosen(postContent: string, bots: seq<Bot>, jitter: seq<real>, lower: char -> char, x: nat, kw: nat)
    requires ValidJitter(jitter, |bots|)
    requires x < |bots|
    requires kw < |bots[x].triggerKeywords| && Matches(ToLower(postContent, lower), bots[x].triggerKeywords[kw], lower)
    requires forall j, i :: 0 <= j < |bots| && j != x && 0 <= i < |bots[j].triggerKeywords| ==>
               !Matches(ToLower(postContent, lower), bots[j].triggerKeywords[i], lower)
    ensures SelectRespondingBot(postContent, [], bots, jitter, lower) == Some(bots[x].id)
  {
    var text := ToLower(postContent, lower);
    var s := Scores(text, None, bots, jitter, lower);
    KeywordScoreCountsMatches(text, bots[x].triggerKeywords, lower);
    assert kw in MatchingPositions(text, bots[x].triggerKeywords, lower);
    assert s[x] >= 2.0;
    forall j | 0 <= j < |bots| && j != x
      ensures s[j] < 1.0
    {
      KeywordScoreCountsMatches(text, bots[j].triggerKeywords, lower);
      assert MatchingPositions(text, bots[j].triggerKeywords, lower) == {};
    }
    var k := Winner(postContent, [], bots, jitter, lower);
    assert s[k] >= s[x];
  }

  /**
   * Case-insensitivity: when `lower` is idempotent (as lowercasing is),
   * lowercasing the text beforehand changes nothing.
   */
  lemma SelectionIgnoresCase(postContent: string, comments: seq<Comment>, bots: seq<Bot>, jitter: seq<real>, lower: char -> char)
    requires ValidJitter(jitter, |bots|)
    requires forall c :: lower(lower(c)) == lower(c)
    ensures SelectRespondingBot(ToLower(postContent, lower), comments, bots, jitter, lower)
         == SelectRespondingBot(postContent, comments, bots, jitter, lower)
  {
    assert ToLower(ToLower(postContent, lower), lower) == ToLower(postContent, lower);
  }
}
