/**
 * The responder fan-out of the auto-post route
 * (src/app/api/cron/auto-post/route.ts, lines 31 and 50-53): the random
 * poster pick, the non-poster pool, its shuffle and the 2-or-3 prefix.
 */
module FanOut {
  import opened Types
  import opened Registry

  /** `Math.floor(r * n)` for a draw `0 <= r < 1`: always a registry position. */
  function PosterIndex(r: real, n: nat): (k: nat)
    requires 0.0 <= r < 1.0 && n > 0
    ensures k < n
  {
    var x := r * (n as real);
    assert 0.0 <= x < n as real by {
      assert r * (n as real) < 1.0 * (n as real);
    }
    x.Floor
  }

  /** `2 + Math.floor(r * 2)` for a draw `0 <= r < 1`. */
  function ReplyCount(r: real): (c: nat)
    requires 0.0 <= r < 1.0
    ensures c == 2 || c == 3
    ensures c == 3 <==> r >= 0.5
  {
    2 + (r * 2.0).Floor
  }

  /** `bots.filter(b => b.id !== posterId)`. */
  function Others(bots: seq<Bot>, posterId: string): (r: seq<Bot>)
    ensures |r| <= |bots|
    ensures forall b :: b in r <==> b in bots && b.id != posterId
  {
    if bots == [] then []
    else (if bots[0].id != posterId then [bots[0]] else []) + Others(bots[1..], posterId)
  }

  lemma {:induction false} OthersAllKept(bots: seq<Bot>, posterId: string)
    requires forall i :: 0 <= i < |bots| ==> bots[i].id != posterId
    ensures Others(bots, posterId) == bots
  {
    if bots != [] {
      OthersAllKept(bots[1..], posterId);
    }
  }

  /** With distinct ids the pool is the registry minus exactly the poster, without repeated ids. */
  lemma {:induction false} OthersOfDistinct(bots: seq<Bot>, k: nat)
    requires DistinctIds(bots) && k < |bots|
    ensures |Others(bots, bots[k].id)| == |bots| - 1
    ensures DistinctIds(Others(bots, bots[k].id))
  {
    var id := bots[k].id;
    var tail := bots[1..];
    assert DistinctIds(tail) by {
      forall i, j | 0 <= i < j < |tail| ensures tail[i].id != tail[j].id {
        assert tail[i] == bots[i + 1] && tail[j] == bots[j + 1];
      }
    }
    if k == 0 {
      forall i | 0 <= i < |tail| ensures tail[i].id != id {
        assert tail[i] == bots[i + 1];
      }
      OthersAllKept(tail, id);
    } else {
      assert tail[k - 1] == bots[k];
      OthersOfDistinct(tail, k - 1);
      var rest := Others(tail, id);
      assert Others(bots, id) == [bots[0]] + rest;
      forall j | 0 <= j < |rest| ensures bots[0].id != rest[j].id {
        OthersComeFrom(tail, id, rest[j]);
        var t :| 0 <= t < |tail| && tail[t] == rest[j];
        assert tail[t] == bots[t + 1];
      }
      ConsDistinct(bots[0], rest);
    }
  }

  /** A kept persona is one of the registry's. */
  lemma OthersComeFrom(bots: seq<Bot>, posterId: string, b: Bot)
    requires b in Others(bots, posterId)
    ensures exists t :: 0 <= t < |bots| && bots[t] == b
  {
  }

  /** Putting a persona with a fresh id in front keeps ids distinct. */
  lemma ConsDistinct(b: Bot, rest: seq<Bot>)
    requires DistinctIds(rest)
    requires forall j :: 0 <= j < |rest| ==> b.id != rest[j].id
    ensures DistinctIds([b] + rest)
  {
    var s := [b] + rest;
    forall x, y | 0 <= x < y < |s| ensures s[x].id != s[y].id {
      assert s[y] == rest[y - 1];
      if x > 0 {
        assert s[x] == rest[x - 1];
      }
    }
  }

  /** One step of the shuffle: exchange two positions (positions outside the pool leave it as it is). */
  function SwapAt<T>(s: seq<T>, p: (nat, nat)): (r: seq<T>)
    ensures |r| == |s|
  {
    if p.0 < |s| && p.1 < |s| then s[p.0 := s[p.1]][p.1 := s[p.0]] else s
  }

  /** The random-comparator sort, as the sequence of exchanges it performs. */
  function ApplySwaps<T>(s: seq<T>, swaps: seq<(nat, nat)>): (r: seq<T>)
    ensures |r| == |s|
    decreases |swaps|
  {
    if swaps == [] then s else SwapAt(ApplySwaps(s, swaps[..|swaps| - 1]), swaps[|swaps| - 1])
  }

  /** The shuffle is a permutation of the pool. */
  lemma {:induction false} ApplySwapsPermutes<T>(s: seq<T>, swaps: seq<(nat, nat)>)
    ensures multiset(ApplySwaps(s, swaps)) == multiset(s)
    decreases |swaps|
  {
    if swaps != [] {
      var n := |swaps| - 1;
      ApplySwapsPermutes(s, swaps[..n]);
      var t := ApplySwaps(s, swaps[..n]);
      var p := swaps[n];
      if p.0 < |t| && p.1 < |t| {
        var u := t[p.0 := t[p.1]];
        assert multiset(u) == multiset(t) - multiset{t[p.0]} + multiset{t[p.1]};
        assert multiset(u[p.1 := t[p.0]]) == multiset(u) - multiset{u[p.1]} + multiset{t[p.0]};
      }
    }
  }

  /** Exchanges keep ids distinct. */
  lemma {:induction false} ApplySwapsKeepsDistinct(s: seq<Bot>, swaps: seq<(nat, nat)>)
    requires DistinctIds(s)
    ensures DistinctIds(ApplySwaps(s, swaps))
    decreases |swaps|
  {
    if swaps != [] {
      var n := |swaps| - 1;
      ApplySwapsKeepsDistinct(s, swaps[..n]);
      var t := ApplySwaps(s, swaps[..n]);
      var p := swaps[n];
      if p.0 < |t| && p.1 < |t| {
        var r := SwapAt(t, p);
        forall x, y | 0 <= x < y < |r| ensures r[x].id != r[y].id {
          var tx := if x == p.0 then p.1 else if x == p.1 then p.0 else x;
          var ty := if y == p.0 then p.1 else if y == p.1 then p.0 else y;
          assert r[x] == t[tx] && r[y] == t[ty];
          assert tx != ty;
          if tx < ty { assert t[tx].id != t[ty].id; } else { assert t[ty].id != t[tx].id; }
        }
      }
    }
  }

  /** `shuffled.slice(0, replyCount)`. */
  function Prefix<T>(s: seq<T>, n: nat): (r: seq<T>)
    ensures |r| == if |s| <= n then |s| else n
    ensures r == s[..|r|]
  {
    if |s| <= n then s else s[..n]
  }

  /**
   * The responders chosen for a poster: the first two or three of the
   * shuffled pool, so min(count, pool size) personas drawn from the pool,
   * none of them repeated more often than in the pool.
   */
  function Responders(bots: seq<Bot>, posterId: string, swaps: seq<(nat, nat)>, countDraw: real): (r: seq<Bot>)
    requires 0.0 <= countDraw < 1.0
    ensures var n := |Others(bots, posterId)|;
            |r| == if n <= ReplyCount(countDraw) then n else ReplyCount(countDraw)
    ensures multiset(r) <= multiset(Others(bots, posterId))
  {
    var sh := ApplySwaps(Others(bots, posterId), swaps);
    ApplySwapsPermutes(Others(bots, posterId), swaps);
    PrefixSubMultiset(sh, ReplyCount(countDraw));
    Prefix(sh, ReplyCount(countDraw))
  }

  lemma PrefixSubMultiset<T>(s: seq<T>, n: nat)
    ensures multiset(Prefix(s, n)) <= multiset(s)
  {
    var p := Prefix(s, n);
    assert s == p + s[|p|..];
  }

  /**
   * With distinct registry ids the responders are registry personas, pairwise
   * distinct, all different from the poster, and there are min(k, n - 1) of
   * them for k in {2, 3}.
   */
  lemma RespondersWellFormed(bots: seq<Bot>, k: nat, swaps: seq<(nat, nat)>, countDraw: real)
    requires DistinctIds(bots) && k < |bots| && 0.0 <= countDraw < 1.0
    ensures var rs := Responders(bots, bots[k].id, swaps, countDraw);
            var c := ReplyCount(countDraw);
            |rs| == (if |bots| - 1 <= c then |bots| - 1 else c) &&
            DistinctIds(rs) &&
            (forall i :: 0 <= i < |rs| ==> rs[i].id != bots[k].id && rs[i] in bots)
  {
    var pool := Others(bots, bots[k].id);
    OthersOfDistinct(bots, k);
    var sh := ApplySwaps(pool, swaps);
    ApplySwapsPermutes(pool, swaps);
    ApplySwapsKeepsDistinct(pool, swaps);
    var rs := Responders(bots, bots[k].id, swaps, countDraw);
    forall i | 0 <= i < |rs| ensures rs[i].id != bots[k].id && rs[i] in bots {
      assert rs[i] == sh[i];
      assert sh[i] in multiset(sh);
      assert sh[i] in pool;
    }
    assert DistinctIds(rs) by {
      forall x, y | 0 <= x < y < |rs| ensures rs[x].id != rs[y].id {
        assert rs[x] == sh[x] && rs[y] == sh[y];
      }
    }
  }
}
