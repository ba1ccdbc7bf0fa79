/** The protocol tables of protocol/registry.go: a per-version definition found by a downward
    search that remembers its answers, and the packet lookups built on it. */
module Registry {
  import opened Wire
  import opened Packets

  datatype Slot = Slot(state: State, direction: Direction)

  datatype Definition = Definition(
    protocol: int32,
    names: map<Slot, map<int32, Kind>>,
    ids: map<Slot, map<Kind, int32>>)

  type Defs = map<int, Definition>

  /** The definition of the greatest registered version in [0, v]. */
  function Nearest(defs: Defs, v: int): Option<Definition>
    decreases if v < 0 then 0 else v + 1
  {
    if v < 0 then None else if v in defs then Some(defs[v]) else Nearest(defs, v - 1)
  }

  lemma {:induction false} NearestIsGreatest(defs: Defs, v: int)
    ensures Nearest(defs, v).None? <==> forall k :: k in defs ==> !(0 <= k <= v)
    ensures Nearest(defs, v).Some? ==>
              exists k :: 0 <= k <= v && k in defs && Nearest(defs, v) == Some(defs[k]) && forall j :: j in defs && j <= v ==> j <= k
    decreases if v < 0 then 0 else v + 1
  {
    if v >= 0 && v !in defs {
      NearestIsGreatest(defs, v - 1);
    }
  }

  /** What one GetDefinition call leaves in the registry. */
  function Cached(defs: Defs, v: int): Defs
  {
    match Nearest(defs, v)
    case None => defs
    case Some(d) => defs[v := d]
  }

  /** Remembering an answer changes no later answer. */
  lemma {:induction false} CachedKeeps(defs: Defs, v: int, w: int)
    ensures Nearest(Cached(defs, v), w) == Nearest(defs, w)
    decreases if w < 0 then 0 else w + 1
  {
    if w >= 0 && w !in defs {
      CachedKeeps(defs, v, w - 1);
    }
  }

  /** The registry after a sequence of lookups. */
  function CachedAll(defs: Defs, calls: seq<int>): Defs
    decreases |calls|
  {
    if calls == [] then defs else CachedAll(Cached(defs, calls[0]), calls[1..])
  }

  /** Whatever was looked up before, a lookup answers from the definitions registered at first. */
  lemma {:induction false} MemoisedLookup(defs: Defs, calls: seq<int>, v: int)
    ensures Nearest(CachedAll(defs, calls), v) == Nearest(defs, v)
    decreases |calls|
  {
    if calls != [] {
      MemoisedLookup(Cached(defs, calls[0]), calls[1..], v);
      CachedKeeps(defs, calls[0], v);
    }
  }

  function NameIn(d: Definition, slot: Slot, id: int32): Option<Kind>
  {
    if slot in d.names && id in d.names[slot] then Some(d.names[slot][id]) else None
  }

  function IdIn(d: Definition, slot: Slot, k: Kind): Option<int32>
  {
    if slot in d.ids && k in d.ids[slot] then Some(d.ids[slot][k]) else None
  }

  /** The type NewPacket makes for an inbound ID; None stands for each of its three errors. */
  function KindFor(defs: Defs, v: int, slot: Slot, id: int32): (k: Option<Kind>)
    ensures k.Some? ==> HasConstructor(k.value)
  {
    match Nearest(defs, v)
    case None => None
    case Some(d) =>
      var k := NameIn(d, slot, id);
      if k.Some? && HasConstructor(k.value) then k else None
  }

  /** GetPacketID */
  function IdFor(defs: Defs, v: int, slot: Slot, k: Kind): Option<int32>
  {
    match Nearest(defs, v)
    case None => None
    case Some(d) => if HasConstructor(k) then IdIn(d, slot, k) else None
  }

  class Store {
    /** The definitions registered at start-up. */
    ghost const initial: Defs
    var defs: Defs

    ghost predicate Valid()
      reads this
    {
      forall v :: Nearest(defs, v) == Nearest(initial, v)
    }

    constructor (defs: Defs)
      ensures Valid() && initial == defs
    {
      this.initial := defs;
      this.defs := defs;
    }

    /** The downward scan, which writes its answer back under the requested version. */
    method GetDefinition(v: int) returns (r: Option<Definition>)
      requires Valid()
      modifies this
      ensures Valid()
      ensures r == Nearest(initial, v)
      ensures defs == Cached(old(defs), v)
    {
      var current := v;
      while current >= 0
        invariant current <= v
        invariant Nearest(defs, v) == Nearest(defs, current)
        invariant current < v ==> v !in defs
        decreases current
      {
        if current in defs {
          ghost var before := defs;
          r := Some(defs[current]);
          if current != v {
            defs := defs[v := defs[current]];
          }
          assert defs == Cached(before, v);
          forall w
            ensures Nearest(defs, w) == Nearest(before, w)
          {
            CachedKeeps(before, v, w);
          }
          return;
        }
        current := current - 1;
      }
      r := None;
    }

    method NewPacket(v: int, slot: Slot, id: int32) returns (k: Option<Kind>)
      requires Valid()
      modifies this
      ensures Valid()
      ensures k == KindFor(initial, v, slot, id)
    {
      var d := GetDefinition(v);
      if d.None? {
        return None;
      }
      k := NameIn(d.value, slot, id);
      if k.Some? && !HasConstructor(k.value) {
        k := None;
      }
    }

    method GetPacketID(v: int, slot: Slot, k: Kind) returns (id: Option<int32>)
      requires Valid()
      modifies this
      ensures Valid()
      ensures id == IdFor(initial, v, slot, k)
    {
      var d := GetDefinition(v);
      if d.None? || !HasConstructor(k) {
        return None;
      }
      id := IdIn(d.value, slot, k);
    }
  }
}
