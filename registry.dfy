/** The persona registry and its id index (src/bots/index.ts). */
module Registry {
  import opened Types

  /** No two personas share an id. */
  predicate DistinctIds(bots: seq<Bot>) {
    forall i, j :: 0 <= i < j < |bots| ==> bots[i].id != bots[j].id
  }

  /**
   * `botMap`, built by `Object.fromEntries` over the registry: it has a key for
   * every persona id, and when two personas share an id the later one wins.
   */
  function BotMap(bots: seq<Bot>): (m: map<string, Bot>)
    ensures forall id :: id in m <==> exists i :: 0 <= i < |bots| && bots[i].id == id
    ensures forall id :: id in m ==> m[id].id == id
    decreases |bots|
  {
    if bots == [] then map[]
    else
      var rest := BotMap(bots[..|bots| - 1]);
      assert forall i :: 0 <= i < |bots| - 1 ==> bots[..|bots| - 1][i] == bots[i];
      rest[bots[|bots| - 1].id := bots[|bots| - 1]]
  }

  /** The entry for an id is the LAST persona in registry order carrying that id. */
  lemma {:induction false} BotMapLastWins(bots: seq<Bot>, k: nat)
    requires k < |bots|
    requires forall j :: k < j < |bots| ==> bots[j].id != bots[k].id
    ensures bots[k].id in BotMap(bots) && BotMap(bots)[bots[k].id] == bots[k]
  {
    if k < |bots| - 1 {
      var init := bots[..|bots| - 1];
      BotMapLastWins(init, k);
    }
  }

  /** With distinct ids every persona is found under its own id. */
  lemma BotMapFindsEveryBot(bots: seq<Bot>, k: nat)
    requires DistinctIds(bots) && k < |bots|
    ensures bots[k].id in BotMap(bots) && BotMap(bots)[bots[k].id] == bots[k]
  {
    BotMapLastWins(bots, k);
  }

  /** `botMap[id]?.name`: a name exactly for an id the index holds, namely that entry's name. */
  function NameOf(botMap: map<string, Bot>, id: string): (r: Option<string>)
    ensures r.Some? <==> id in botMap
    ensures r.Some? ==> r.value == botMap[id].name
  {
    if id in botMap then Some(botMap[id].name) else None
  }

  /** With distinct ids, looking up a registered persona's id yields that persona's name, and an unregistered id yields none. */
  lemma NameOfRegistered(bots: seq<Bot>, id: string)
    requires DistinctIds(bots)
    ensures NameOf(BotMap(bots), id).Some? <==> exists k :: 0 <= k < |bots| && bots[k].id == id
    ensures forall k :: 0 <= k < |bots| && bots[k].id == id ==> NameOf(BotMap(bots), id) == Some(bots[k].name)
  {
    forall k | 0 <= k < |bots| && bots[k].id == id
      ensures NameOf(BotMap(bots), id) == Some(bots[k].name)
    {
      BotMapFindsEveryBot(bots, k);
    }
  }
}
