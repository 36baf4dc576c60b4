/** `random.sample(population, k)`, modelled as an arbitrary choice of `k`
    distinct positions: any outcome the generator could produce is allowed,
    and nothing is claimed about how likely each one is. */
module Sampling {
  import opened Lists

  /** `positions` are `k` distinct indices into a population of size `n`. */
  predicate IsSample(positions: seq<nat>, k: nat, n: nat) {
    |positions| == k &&
    (forall i :: 0 <= i < |positions| ==> positions[i] < n) &&
    Distinct(positions)
  }

  /** The elements of `pool` at `positions`, in the order of `positions`. */
  function Select<T>(pool: seq<T>, positions: seq<nat>): (r: seq<T>)
    requires forall i :: 0 <= i < |positions| ==> positions[i] < |pool|
    ensures |r| == |positions|
    ensures forall i :: 0 <= i < |positions| ==> r[i] == pool[positions[i]]
  {
    if positions == [] then []
    else [pool[positions[0]]] + Select(pool, positions[1..])
  }

  /** The indices that survive deleting position `p`, renumbered for the
      shorter sequence. */
  function ShiftPast(ps: seq<nat>, p: nat): seq<nat>
  {
    seq(|ps|, i requires 0 <= i < |ps| => if ps[i] <= p then ps[i] else ps[i] - 1)
  }

  /** Names drawn from distinct positions are, counted with multiplicity,
      part of the pool: a name is drawn at most as often as it occurs. */
  lemma {:induction false} SampleWithinPool<T>(pool: seq<T>, positions: seq<nat>)
    requires IsSample(positions, |positions|, |pool|)
    ensures multiset(Select(pool, positions)) <= multiset(pool)
    decreases |positions|
  {
    if positions != [] {
      var p := positions[0];
      var tail := positions[1..];
      var rest := pool[..p] + pool[p + 1..];
      var shifted := ShiftPast(tail, p);
      forall i | 0 <= i < |tail|
        ensures tail[i] != p && shifted[i] < |rest| && rest[shifted[i]] == pool[tail[i]]
      {
        assert tail[i] == positions[i + 1];
      }
      forall i, j | 0 <= i < j < |shifted| ensures shifted[i] != shifted[j] {
        assert tail[i] == positions[i + 1] && tail[j] == positions[j + 1];
      }
      SampleWithinPool(rest, shifted);
      assert Select(rest, shifted) == Select(pool, tail);
      assert pool == pool[..p] + [pool[p]] + pool[p + 1..];
      assert Select(pool, positions) == [pool[p]] + Select(pool, tail);
    }
  }

  /** The indices of a population of size `n`: there are `n` of them. */
  function Indices(n: nat): (r: set<nat>)
    ensures forall j: nat :: j in r <==> j < n
    ensures |r| == n
  {
    if n == 0 then {} else Indices(n - 1) + {n - 1}
  }

  /** `random.sample(pool, k)`: draws `k` names from `k` distinct positions,
      one position at a time, each chosen freely among those not drawn yet.
      Python raises ValueError for `k` larger than the population; callers
      here never ask for that. */
  method Sample<T>(pool: seq<T>, k: nat) returns (selected: seq<T>, ghost positions: seq<nat>)
    requires k <= |pool|
    ensures IsSample(positions, k, |pool|)
    ensures selected == Select(pool, positions)
    ensures multiset(selected) <= multiset(pool)
  {
    var unused := Indices(|pool|);
    selected, positions := [], [];
    while |selected| < k
      invariant |selected| == |positions| <= k
      invariant forall i :: 0 <= i < |positions| ==> positions[i] < |pool|
      invariant Distinct(positions)
      invariant forall j: nat :: j in unused <==> j < |pool| && j !in positions
      invariant |unused| == |pool| - |positions|
      invariant selected == Select(pool, positions)
      decreases k - |selected|
    {
      var j :| j in unused;
      positions := positions + [j];
      selected := selected + [pool[j]];
      unused := unused - {j};
    }
    SampleWithinPool(pool, positions);
  }
}
