/**
 * The episode store: lookup of a recorded episode by its id, and sampling a
 * number of distinct episodes for a benchmark run. The episodes are handed to
 * the store when it is created; reading them from disk is not modelled.
 */
module Environment {
  import opened Wrappers
  import opened Agent

  /** Python's `min` on the two integers. */
  function Min(a: int, b: int): int {
    if a <= b then a else b
  }

  /** No position occurs twice in `positions`. */
  predicate Distinct(positions: seq<nat>) {
    forall a, b :: 0 <= a < b < |positions| ==> positions[a] != positions[b]
  }

  /** `0, 1, ..., k - 1`. */
  function Range(k: nat): (r: seq<nat>)
    ensures |r| == k
    ensures forall i :: 0 <= i < k ==> r[i] == i
  {
    seq(k, i requires 0 <= i < k => i)
  }

  /** `sample` holds the episodes at `positions`, in that order. */
  predicate SampledAt(episodes: seq<Episode>, positions: seq<nat>, sample: seq<Episode>) {
    && |sample| == |positions|
    && (forall i :: 0 <= i < |positions| ==> positions[i] < |episodes|)
    && Distinct(positions)
    && (forall i :: 0 <= i < |positions| ==> sample[i] == episodes[positions[i]])
  }

  /** `AndroidWorldEnvironment`: the loaded episodes, never changed after loading. */
  class AndroidWorldEnvironment {
    const episodes: seq<Episode>

    constructor (episodes: seq<Episode>)
      ensures this.episodes == episodes
    {
      this.episodes := episodes;
    }

    /**
     * `get_episode`: the first episode in list order whose id is the query;
     * `ValueError` when there is none.
     */
    method GetEpisode(episodeId: string) returns (r: Result<Episode, string>)
      ensures r.Ok? ==>
        exists i :: 0 <= i < |episodes| && episodes[i] == r.value
          && (forall k :: 0 <= k < i ==> episodes[k].episodeId != episodeId)
      ensures r.Ok? ==> r.value.episodeId == episodeId
      ensures r.Err? <==> forall k :: 0 <= k < |episodes| ==> episodes[k].episodeId != episodeId
      ensures r.Err? ==> r.error == "Episode " + episodeId + " not found"
    {
      var i := 0;
      while i < |episodes|
        invariant i <= |episodes|
        invariant forall k :: 0 <= k < i ==> episodes[k].episodeId != episodeId
      {
        if episodes[i].episodeId == episodeId {
          return Ok(episodes[i]);
        }
        i := i + 1;
      }
      return Err("Episode " + episodeId + " not found");
    }

    /**
     * `get_random_episodes`: `random.sample(episodes, min(n, len(episodes)))`,
     * which refuses a negative sample size. Which episodes are drawn is left
     * open: any `min(n, len(episodes))` distinct positions, in any order.
     */
    method GetRandomEpisodes(n: int) returns (r: Result<seq<Episode>, string>)
      ensures r.Err? <==> n < 0
      ensures r.Ok? ==> |r.value| == Min(n, |episodes|)
      ensures r.Ok? ==> exists positions :: SampledAt(episodes, positions, r.value)
    {
      var k := Min(n, |episodes|);
      if k < 0 {
        return Err("Sample larger than population or is negative");
      }
      assert SampledAt(episodes, Range(k), seq(k, i requires 0 <= i < k => episodes[i]));
      var positions: seq<nat> :| |positions| == k
        && (forall i :: 0 <= i < |positions| ==> positions[i] < |episodes|)
        && Distinct(positions);
      var sample := seq(k, i requires 0 <= i < k => episodes[positions[i]]);
      assert SampledAt(episodes, positions, sample);
      return Ok(sample);
    }
  }

  /** A sample drawn without replacement never holds more episodes than the store. */
  lemma {:induction false} DistinctPositionsFit(positions: seq<nat>, size: nat)
    requires Distinct(positions)
    requires forall i :: 0 <= i < |positions| ==> positions[i] < size
    ensures |positions| <= size
    decreases size
  {
    if positions != [] {
      // drop the largest position and shrink the bound to it
      var top := MaxIndex(positions);
      var rest := positions[..top] + positions[top + 1..];
      forall i | 0 <= i < |rest|
        ensures rest[i] < positions[top]
      {
        if i < top {
          assert rest[i] == positions[i];
        } else {
          assert rest[i] == positions[i + 1];
        }
      }
      forall a, b | 0 <= a < b < |rest|
        ensures rest[a] != rest[b]
      {
        var a' := if a < top then a else a + 1;
        var b' := if b < top then b else b + 1;
        assert rest[a] == positions[a'] && rest[b] == positions[b'];
      }
      DistinctPositionsFit(rest, positions[top]);
    }
  }

  /** Every sampled episode is one of the store's, and a sample is never larger than the store. */
  lemma SampleFitsStore(episodes: seq<Episode>, positions: seq<nat>, sample: seq<Episode>)
    requires SampledAt(episodes, positions, sample)
    ensures |sample| <= |episodes|
    ensures forall i :: 0 <= i < |sample| ==> sample[i] in episodes
  {
    DistinctPositionsFit(positions, |episodes|);
  }

  /** The index of a largest element. */
  function MaxIndex(s: seq<nat>): (m: nat)
    requires s != []
    ensures m < |s|
    ensures forall i :: 0 <= i < |s| ==> s[i] <= s[m]
    decreases |s|
  {
    if |s| == 1 then 0
    else
      var m := MaxIndex(s[..|s| - 1]);
      if s[|s| - 1] > s[m] then |s| - 1 else m
  }
}
