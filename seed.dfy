/**
 * The seeded relation graph (src/bots/relations.ts) and what the reply
 * composer derives from it. The personas' display names live in JSON files
 * that are not part of this model, so the facts below hold for any
 * registry index that knows the five seeded ids under non-empty names.
 */
module Seed {
  import opened Types
  import Ai

  const SeededAt: string := "2024-01-01T00:00:00Z"

  /** `botRelations`: eight directed edges between the five personas. */
  const BotRelations: seq<Relation> := [
    Relation("rel-1", "tech-guru", "philosopher", Rival, SeededAt),
    Relation("rel-2", "tech-guru", "optimist", Ally, SeededAt),
    Relation("rel-3", "philosopher", "skeptic", Ally, SeededAt),
    Relation("rel-4", "optimist", "skeptic", Rival, SeededAt),
    Relation("rel-5", "storyteller", "optimist", Ally, SeededAt),
    Relation("rel-6", "storyteller", "skeptic", Neutral, SeededAt),
    Relation("rel-7", "tech-guru", "storyteller", Neutral, SeededAt),
    Relation("rel-8", "philosopher", "optimist", Neutral, SeededAt)
  ]

  /** The index knows every seeded persona, each under a non-empty name. */
  predicate KnowsSeededPersonas(botMap: map<string, Bot>) {
    forall id :: id in {"tech-guru", "philosopher", "optimist", "skeptic", "storyteller"} ==>
      id in botMap && botMap[id].name != ""
  }

  /** A one-edge list yields what that edge contributes. */
  lemma SingleEdge(id: string, kind: RelationKind, e: Relation, botMap: map<string, Bot>)
    ensures Ai.RelatedNames(id, kind, [e], botMap) == Ai.EdgeName(id, kind, e, botMap)
  {
    assert [e][1..] == [];
  }

  /** Each list over the seed is the concatenation, in seed order, of what each edge contributes. */
  lemma SeedNames(id: string, kind: RelationKind, botMap: map<string, Bot>)
    ensures var b := BotRelations;
            Ai.RelatedNames(id, kind, b, botMap) ==
              Ai.EdgeName(id, kind, b[0], botMap) + Ai.EdgeName(id, kind, b[1], botMap) +
              Ai.EdgeName(id, kind, b[2], botMap) + Ai.EdgeName(id, kind, b[3], botMap) +
              Ai.EdgeName(id, kind, b[4], botMap) + Ai.EdgeName(id, kind, b[5], botMap) +
              Ai.EdgeName(id, kind, b[6], botMap) + Ai.EdgeName(id, kind, b[7], botMap)
  {
    var b := BotRelations;
    assert b[..1] == [b[0]];
    SingleEdge(id, kind, b[0], botMap);
    assert b[..2] == b[..1] + [b[1]];
    SingleEdge(id, kind, b[1], botMap);
    Ai.RelatedNamesAppend(id, kind, b[..1], [b[1]], botMap);
    assert b[..3] == b[..2] + [b[2]];
    SingleEdge(id, kind, b[2], botMap);
    Ai.RelatedNamesAppend(id, kind, b[..2], [b[2]], botMap);
    assert b[..4] == b[..3] + [b[3]];
    SingleEdge(id, kind, b[3], botMap);
    Ai.RelatedNamesAppend(id, kind, b[..3], [b[3]], botMap);
    assert b[..5] == b[..4] + [b[4]];
    SingleEdge(id, kind, b[4], botMap);
    Ai.RelatedNamesAppend(id, kind, b[..4], [b[4]], botMap);
    assert b[..6] == b[..5] + [b[5]];
    SingleEdge(id, kind, b[5], botMap);
    Ai.RelatedNamesAppend(id, kind, b[..5], [b[5]], botMap);
    assert b[..7] == b[..6] + [b[6]];
    SingleEdge(id, kind, b[6], botMap);
    Ai.RelatedNamesAppend(id, kind, b[..6], [b[6]], botMap);
    assert b[..8] == b[..7] + [b[7]];
    SingleEdge(id, kind, b[7], botMap);
    Ai.RelatedNamesAppend(id, kind, b[..7], [b[7]], botMap);
    assert b[..8] == b;
  }

  /** tech-guru sides with optimist and argues with philosopher; its neutral edge to storyteller counts for neither. */
  lemma TechGuruRelations(botMap: map<string, Bot>)
    requires KnowsSeededPersonas(botMap)
    ensures Ai.RelatedNames("tech-guru", Ally, BotRelations, botMap) == [botMap["optimist"].name]
    ensures Ai.RelatedNames("tech-guru", Rival, BotRelations, botMap) == [botMap["philosopher"].name]
  {
    SeedNames("tech-guru", Ally, botMap);
    SeedNames("tech-guru", Rival, botMap);
  }

  /** philosopher sides with skeptic and has no rival. */
  lemma PhilosopherRelations(botMap: map<string, Bot>)
    requires KnowsSeededPersonas(botMap)
    ensures Ai.RelatedNames("philosopher", Ally, BotRelations, botMap) == [botMap["skeptic"].name]
    ensures Ai.RelatedNames("philosopher", Rival, BotRelations, botMap) == []
  {
    SeedNames("philosopher", Ally, botMap);
    SeedNames("philosopher", Rival, botMap);
  }

  /** optimist has no ally and argues with skeptic. */
  lemma OptimistRelations(botMap: map<string, Bot>)
    requires KnowsSeededPersonas(botMap)
    ensures Ai.RelatedNames("optimist", Ally, BotRelations, botMap) == []
    ensures Ai.RelatedNames("optimist", Rival, BotRelations, botMap) == [botMap["skeptic"].name]
  {
    SeedNames("optimist", Ally, botMap);
    SeedNames("optimist", Rival, botMap);
  }

  /** storyteller sides with optimist; its neutral edge to skeptic counts for neither list. */
  lemma StorytellerRelations(botMap: map<string, Bot>)
    requires KnowsSeededPersonas(botMap)
    ensures Ai.RelatedNames("storyteller", Ally, BotRelations, botMap) == [botMap["optimist"].name]
    ensures Ai.RelatedNames("storyteller", Rival, BotRelations, botMap) == []
  {
    SeedNames("storyteller", Ally, botMap);
    SeedNames("storyteller", Rival, botMap);
  }

  /** skeptic has no outgoing edge, so its system prompt carries no relation block. */
  lemma SkepticHasNoRelationBlock(bot: Bot, post: Post, comments: seq<Comment>, botMap: map<string, Bot>)
    requires bot.id == "skeptic"
    ensures Ai.Allies(bot, BotRelations, botMap) == [] && Ai.Rivals(bot, BotRelations, botMap) == []
    ensures Ai.BuildReplyRequest(bot, post, comments, BotRelations, botMap).systemPrompt == Ai.PersonaPreamble(bot) + Ai.ReplyRules
  {
    SeedNames("skeptic", Ally, botMap);
    SeedNames("skeptic", Rival, botMap);
    Ai.RelationBlockPresentIff(bot, post, comments, BotRelations, botMap);
  }
}
