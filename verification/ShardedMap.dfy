/** internal/state/shardedmap.go: sixteen hash-selected shards standing for one map. */
module ShardedMaps {
  import opened Ticks

  const NUM_SHARDS := 16

  /** FNV-1a, 32 bit: for each byte, xor and then multiply modulo 2^32. */
  function Fnv32(s: Str): bv32 {
    if s == [] then 2166136261 else FnvStep(Fnv32(s[..|s| - 1]), s[|s| - 1])
  }

  function FnvStep(h: bv32, b: bv8): bv32 {
    (h ^ (b as bv32)) * 16777619
  }

  function ShardOf(key: Str): (i: nat)
    ensures i < NUM_SHARDS
  {
    (Fnv32(key) as nat) % NUM_SHARDS
  }

  /** Published test vectors: the empty string, "a" and "foobar". */
  lemma Fnv32Vectors()
    ensures Fnv32([]) == 0x811c9dc5 && Fnv32([97]) == 0xe40c292c
    ensures Fnv32([102, 111, 111, 98, 97, 114]) == 0xbf9cf968
  {
    var s: Str := [102, 111, 111, 98, 97, 114];
    assert s[..1] == [102] && s[..2] == [102, 111] && s[..3] == [102, 111, 111];
    assert s[..4][..3] == s[..3] && s[..5][..4] == s[..4] && s[..6][..5] == s[..5] && s[..6] == s;
    assert Fnv32(s[..1]) == FnvStep(2166136261, 102);
    assert Fnv32(s[..2]) == FnvStep(Fnv32(s[..1]), 111) by { FnvExtends(s, 1); }
    assert Fnv32(s[..3]) == FnvStep(Fnv32(s[..2]), 111) by { FnvExtends(s, 2); }
    assert Fnv32(s[..4]) == FnvStep(Fnv32(s[..3]), 98) by { FnvExtends(s, 3); }
    assert Fnv32(s[..5]) == FnvStep(Fnv32(s[..4]), 97) by { FnvExtends(s, 4); }
    assert Fnv32(s[..6]) == FnvStep(Fnv32(s[..5]), 114) by { FnvExtends(s, 5); }
  }

  method Hash(s: Str) returns (h: bv32)
    ensures h == Fnv32(s)
  {
    h := 2166136261;
    assert h == Fnv32(s[..0]);
    hide Fnv32, FnvStep;
    for i := 0 to |s|
      invariant h == Fnv32(s[..i])
    {
      FnvExtends(s, i);
      h := FnvStep(h, s[i]);
    }
    assert s[..|s|] == s;
  }

  lemma FnvExtends(s: Str, i: nat)
    requires i < |s|
    ensures Fnv32(s[..i + 1]) == FnvStep(Fnv32(s[..i]), s[i])
  {
    hide FnvStep;
    assert s[..i + 1][..i] == s[..i];
  }

  /** A shard's map is allocated on first use. */
  datatype Shard<V> = NoData | Data(data: map<Str, V>) {
    predicate Has(key: Str) {
      Data? && key in data
    }
  }

  class ShardedMap<V> {
    const shards: array<Shard<V>>
    /** The single map that the shards represent. */
    ghost var view: map<Str, V>

    /** Each key sits only in its own hash's shard. */
    ghost predicate Valid()
      reads this, shards
    {
      && shards.Length == NUM_SHARDS
      && (forall i, key :: 0 <= i < NUM_SHARDS && shards[i].Has(key) ==> ShardOf(key) == i)
      && (forall key :: key in view <==> shards[ShardOf(key)].Has(key))
      && (forall key :: key in view ==> view[key] == shards[ShardOf(key)].data[key])
    }

    constructor ()
      ensures Valid() && fresh(shards) && view == map[]
    {
      shards := new Shard<V>[NUM_SHARDS](_ => NoData);
      view := map[];
    }

    /**
     * The value stored under `key`, after storing `created` there if the key was absent.
     * The source then runs a callback on that value under the shard's lock; here the caller does.
     */
    method Use(key: Str, created: V) returns (v: V)
      requires Valid()
      modifies this, shards
      ensures Valid()
      ensures view == if key in old(view) then old(view) else old(view)[key := created]
      ensures v == view[key]
    {
      var h := Hash(key);
      var s := (h as nat) % NUM_SHARDS;
      if shards[s].NoData? {
        shards[s] := Data(map[]);
      }
      if key !in shards[s].data {
        shards[s] := Data(shards[s].data[key := created]);
        view := view[key := created];
      }
      v := shards[s].data[key];
    }
  }
}
