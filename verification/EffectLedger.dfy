/** store.go: the idempotent ledger of the load test. */
module EffectLedger {
  import opened Codec

  /** Applications per key; a key that was never applied has no entry. */
  type Tallies = map<Key, nat>

  function Tally(ts: Tallies, key: Key): Tallies {
    ts[key := if key in ts then ts[key] + 1 else 1]
  }

  ghost function Sum(ts: Tallies): nat
    decreases |ts|
  {
    if ts == map[] then 0 else
    var key :| key in ts;
    ts[key] + Sum(ts - {key})
  }

  lemma EmptySum()
    ensures Sum(map[]) == 0
  {
  }

  lemma {:induction false} SumWithout(ts: Tallies, key: Key)
    requires key in ts
    ensures Sum(ts) == ts[key] + Sum(ts - {key})
    decreases |ts|
  {
    var k :| k in ts && Sum(ts) == ts[k] + Sum(ts - {k});
    if k != key {
      SumWithout(ts - {k}, key);
      SumWithout(ts - {key}, k);
      assert ts - {k} - {key} == ts - {key} - {k};
    }
  }

  /** Whatever the key, one application adds one to the sum, and an effect only if the key is new. */
  lemma {:induction false} TallyAddsOne(ts: Tallies, key: Key)
    ensures Sum(Tally(ts, key)) == Sum(ts) + 1
    ensures |Tally(ts, key)| == |ts| + (if key in ts then 0 else 1)
    ensures Tally(ts, key).Keys == ts.Keys + {key}
    ensures (forall k :: k in ts ==> 1 <= ts[k]) ==> forall k :: k in Tally(ts, key) ==> 1 <= Tally(ts, key)[k]
  {
    hide Sum;
    var ts' := Tally(ts, key);
    SumWithout(ts', key);
    if key in ts {
      SumWithout(ts, key);
      assert ts' - {key} == ts - {key};
      assert ts'.Keys == ts.Keys;
    } else {
      assert ts' - {key} == ts;
      assert ts'.Keys == ts.Keys + {key};
    }
    assert |ts'| == |ts'.Keys| && |ts| == |ts.Keys|;
  }

  /** Every key on the ledger was applied at least once, so the sum is at least the number of effects. */
  lemma {:induction false} EffectsAtMostSum(ts: Tallies)
    requires forall key :: key in ts ==> 1 <= ts[key]
    ensures |ts| <= Sum(ts)
    decreases |ts|
  {
    if ts != map[] {
      var key :| key in ts;
      SumWithout(ts, key);
      EffectsAtMostSum(ts - {key});
      assert (ts - {key}).Keys == ts.Keys - {key};
    }
  }

  class EffectStore {
    var applied: Tallies
    var total: nat

    /** The two counters never part: total is the sum of the per-key tallies. */
    ghost predicate Valid()
      reads this
    {
      total == Sum(applied) && forall key :: key in applied ==> 1 <= applied[key]
    }

    constructor ()
      ensures Valid() && applied == map[] && total == 0
    {
      applied, total := map[], 0;
    }

    /** apply: one more delivery of key; the effect is new only the first time. */
    method Apply(key: Key)
      requires Valid()
      modifies this
      ensures Valid()
      ensures total == old(total) + 1 && applied.Keys == old(applied).Keys + {key}
      ensures applied[key] == (if key in old(applied) then old(applied)[key] else 0) + 1
      ensures forall k :: k in old(applied) && k != key ==> applied[k] == old(applied)[k]
    {
      hide Sum;
      TallyAddsOne(applied, key);
      applied := applied[key := (if key in applied then applied[key] else 0) + 1];
      total := total + 1;
    }

    method Distinct() returns (n: nat)
      requires Valid()
      ensures n == |applied.Keys| <= total
    {
      EffectsAtMostSum(applied);
      n := |applied|;
    }

    method Deliveries() returns (n: nat)
      requires Valid()
      ensures n == Sum(applied) && |applied| <= n
    {
      EffectsAtMostSum(applied);
      n := total;
    }
  }
}
