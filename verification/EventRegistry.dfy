/** The dispatcher's copy-on-write registry: an immutable pair of parallel arrays,
    sorted by event type, replaced as a whole by a subscriber of a new type. */
module EventRegistry {

  import opened Common

  newtype uint32 = x: int | 0 <= x < 0x1_0000_0000

  class Registry<G> {
    const keys: array<uint32>
    const grps: array<G>

    constructor (keys: array<uint32>, grps: array<G>)
      ensures this.keys == keys && this.grps == grps
    {
      this.keys, this.grps := keys, grps;
    }

    ghost predicate Valid()
      reads this, keys, grps
    {
      keys.Length == grps.Length && Sorted(keys[..])
    }

    ghost function Bindings(): map<uint32, G>
      requires Valid()
      reads this, keys, grps
    {
      Zip(keys[..], grps[..])
    }
  }

  ghost predicate Sorted(keys: seq<uint32>) {
    forall i, j :: 0 <= i < j < |keys| ==> keys[i] < keys[j]
  }

  ghost function Position(keys: seq<uint32>, key: uint32): (i: nat)
    requires key in keys
    ensures i < |keys| && keys[i] == key
  {
    var i :| 0 <= i < |keys| && keys[i] == key;
    i
  }

  /** The map that parallel sequences of keys and values stand for. */
  ghost function Zip<G>(keys: seq<uint32>, grps: seq<G>): map<uint32, G>
    requires |keys| == |grps|
  {
    map k | k in keys :: grps[Position(keys, k)]
  }

  lemma PositionIs(keys: seq<uint32>, i: nat)
    requires Sorted(keys) && i < |keys|
    ensures Position(keys, keys[i]) == i
  {
    var j := Position(keys, keys[i]);
    assert !(keys[j] < keys[i]) && !(keys[i] < keys[j]);
  }

  ghost predicate Inserted<T>(before: seq<T>, at: nat, x: T, after: seq<T>) {
    && |after| == |before| + 1 && at <= |before|
    && after[at] == x
    && (forall i :: 0 <= i < at ==> after[i] == before[i])
    && (forall i :: at <= i < |before| ==> after[i + 1] == before[i])
  }

  lemma SortedInsert(keys: seq<uint32>, at: nat, key: uint32, after: seq<uint32>)
    requires Sorted(keys) && Inserted(keys, at, key, after)
    requires forall i :: 0 <= i < at ==> keys[i] < key
    requires forall i :: at <= i < |keys| ==> key < keys[i]
    ensures Sorted(after)
  {
    forall i, j | 0 <= i < j < |after|
      ensures after[i] < after[j]
    {
      assert i > at ==> after[i] == keys[i - 1];
      assert j > at ==> after[j] == keys[j - 1];
    }
  }

  /** Inserting at the same place of both arrays adds exactly one binding. */
  lemma ZipInsert<G>(keys: seq<uint32>, grps: seq<G>, at: nat, key: uint32, grp: G,
                     keys': seq<uint32>, grps': seq<G>)
    requires |keys| == |grps| && Sorted(keys) && Sorted(keys') && key !in keys
    requires Inserted(keys, at, key, keys') && Inserted(grps, at, grp, grps')
    ensures Zip(keys', grps') == Zip(keys, grps)[key := grp]
  {
    var m, m' := Zip(keys, grps)[key := grp], Zip(keys', grps');
    forall k | k in m
      ensures k in m' && m'[k] == m[k]
    {
      var i := if k == key then 0 else Position(keys, k);
      var j := if k == key then at else if i < at then i else i + 1;
      assert keys'[j] == k;
      PositionIs(keys', j);
    }
    forall k | k in m'
      ensures k in m
    {
      var i := Position(keys', k);
      assert i > at ==> keys'[i] == keys[i - 1];
    }
    assert m'.Keys == m.Keys;
  }

  class Dispatcher<G> {
    var subs: Registry<G>

    ghost predicate Valid()
      reads this, subs, subs.keys, subs.grps
    {
      subs.Valid()
    }

    constructor ()
      ensures Valid() && subs.Bindings() == map[]
    {
      var keys, grps := new uint32[0], new G[0];
      subs := new Registry(keys, grps);
    }

    /** The binary search over the current snapshot finds the bound group, or nothing
        exactly when the type was never subscribed. */
    method FindGroup(eventType: uint32) returns (group: Option<G>)
      requires Valid()
      ensures group == if eventType in subs.Bindings() then Some(subs.Bindings()[eventType]) else None
    {
      var keys := subs.keys;
      var left, right := 0, keys.Length;
      while left < right
        invariant 0 <= left <= right <= keys.Length
        invariant forall i :: 0 <= i < left ==> keys[i] < eventType
        invariant forall i :: right <= i < keys.Length ==> keys[i] >= eventType
      {
        var mid := left + (right - left) / 2;
        if keys[mid] < eventType {
          left := mid + 1;
        } else {
          right := mid;
        }
      }
      if left < keys.Length && keys[left] == eventType {
        assert keys[..][left] == eventType;
        PositionIs(keys[..], left);
        return Some(subs.grps[left]);
      }
      assert eventType !in keys[..] by {
        assert forall i :: left < i < keys.Length ==> keys[..][left] < keys[..][i];
      }
      return None;
    }

    /** sort.Search with the predicate `keys[i] >= eventType`. */
    method InsertionPoint(eventType: uint32) returns (at: nat)
      requires Valid()
      ensures at <= subs.keys.Length
      ensures forall i :: 0 <= i < at ==> subs.keys[i] < eventType
      ensures forall i :: at <= i < subs.keys.Length ==> subs.keys[i] >= eventType
    {
      var lo, hi := 0, subs.keys.Length;
      while lo < hi
        invariant 0 <= lo <= hi <= subs.keys.Length
        invariant forall i :: 0 <= i < lo ==> subs.keys[i] < eventType
        invariant forall i :: hi <= i < subs.keys.Length ==> subs.keys[i] >= eventType
      {
        var mid := (lo + hi) / 2;
        if subs.keys[mid] >= eventType {
          hi := mid;
        } else {
          lo := mid + 1;
        }
      }
      at := lo;
    }

    /** SubscribeTo: use the group of a known type, or publish a NEW registry with one
        binding more.  Whoever still holds the previous registry sees it unchanged. */
    method SubscribeTo(eventType: uint32, newGroup: G) returns (group: G)
      requires Valid()
      modifies this
      ensures Valid()
      ensures subs.Bindings() == if eventType in old(subs.Bindings()) then old(subs.Bindings())
                                 else old(subs.Bindings())[eventType := newGroup]
      ensures eventType in subs.Bindings() && group == subs.Bindings()[eventType]
      ensures old(subs).Valid() && old(subs).Bindings() == old(subs.Bindings())
      ensures subs == old(subs) || fresh(subs)
    {
      var existing := FindGroup(eventType);
      if existing.Some? {
        return existing.value;
      }
      var current := subs;
      var idx := InsertionPoint(eventType);
      var n := current.keys.Length;
      assert forall i :: idx <= i < n ==> eventType < current.keys[i] by {
        assert forall i :: 0 <= i < n ==> current.keys[i] == current.keys[..][i] && current.keys[i] != eventType;
      }
      var newKeys := new uint32[n + 1](i requires 0 <= i <= n reads current.keys =>
        if i < idx then current.keys[i] else if i == idx then eventType else current.keys[i - 1]);
      var newGrps := new G[n + 1](i requires 0 <= i <= n reads current.grps =>
        if i < idx then current.grps[i] else if i == idx then newGroup else current.grps[i - 1]);
      SortedInsert(current.keys[..], idx, eventType, newKeys[..]);
      ZipInsert(current.keys[..], current.grps[..], idx, eventType, newGroup, newKeys[..], newGrps[..]);
      subs := new Registry(newKeys, newGrps);
      group := newGroup;
    }
  }
}
