/** The entity Manager of the last two versions: an owning list of entities
    in creation order plus, per kind, the list of its members. Pointers are
    modelled by ids handed out from a counter that never goes back. */
module Registry {
  import opened Entities
  import opened Sequences

  type Id = nat

  /** An owned entity together with the identity a pointer to it carries. */
  datatype Record = Record(id: Id, entity: Entity)

  function RecordId(r: Record): Id { r.id }

  function Ids(s: seq<Record>): (r: seq<Id>)
    ensures |r| == |s| && forall i :: 0 <= i < |s| ==> r[i] == s[i].id
  {
    Map(s, RecordId)
  }

  function HasKind(k: Kind): Record -> bool
  {
    (r: Record) => KindOf(r.entity) == k
  }

  function IsLive(r: Record): bool { !IsDestroyed(r.entity) }

  /** The members of kind `k`, in creation order. */
  function OfKind(s: seq<Record>, k: Kind): seq<Record> { Filter(s, HasKind(k)) }

  /** The records a refresh keeps. */
  function Live(s: seq<Record>): seq<Record> { Filter(s, IsLive) }

  /** The ids whose entity has been marked destroyed. */
  function DestroyedIds(s: seq<Record>): (d: set<Id>)
    ensures forall i :: 0 <= i < |s| && IsDestroyed(s[i].entity) ==> s[i].id in d
    ensures forall id :: id in d ==> id in Ids(s)
  {
    set r | r in s && IsDestroyed(r.entity) :: r.id
  }

  function NotIn(dead: set<Id>): Id -> bool
  {
    (id: Id) => id !in dead
  }

  /** A group after its own erase-remove. */
  function Without(g: seq<Id>, dead: set<Id>): seq<Id> { Filter(g, NotIn(dead)) }

  predicate UniqueIds(s: seq<Record>)
  {
    forall i, j :: 0 <= i < j < |s| ==> s[i].id != s[j].id
  }

  lemma IdsSnoc(s: seq<Record>, x: Record)
    ensures Ids(s + [x]) == Ids(s) + [x.id]
  {
  }

  /** Appending one record to a list extends the group of its kind and no
      other. */
  lemma OfKindSnoc(s: seq<Record>, x: Record, k: Kind)
    ensures OfKind(s + [x], k) == if KindOf(x.entity) == k then OfKind(s, k) + [x] else OfKind(s, k)
  {
    assert (s + [x])[..|s|] == s;
  }

  lemma LiveSnoc(s: seq<Record>, x: Record)
    ensures Live(s + [x]) == if IsLive(x) then Live(s) + [x] else Live(s)
  {
    assert (s + [x])[..|s|] == s;
  }

  /** Unique ids survive any filter. */
  lemma {:induction false} FilterUnique(s: seq<Record>, keep: Record -> bool)
    requires UniqueIds(s)
    ensures UniqueIds(Filter(s, keep))
  {
    if |s| > 0 {
      var n := |s| - 1;
      FilterUnique(s[..n], keep);
      var f := Filter(s[..n], keep);
      forall i | 0 <= i < |f|
        ensures f[i].id != s[n].id
      {
        assert f[i] in s[..n];
      }
    }
  }

  /** The ids of a list's destroyed members, when the last record is split
      off. */
  lemma DestroyedIdsSnoc(s: seq<Record>, x: Record)
    ensures DestroyedIds(s + [x]) == DestroyedIds(s) + (if IsDestroyed(x.entity) then {x.id} else {})
  {
    var t := s + [x];
    forall id | id in DestroyedIds(t)
      ensures id in DestroyedIds(s) + (if IsDestroyed(x.entity) then {x.id} else {})
    {
      var r :| r in t && IsDestroyed(r.entity) && r.id == id;
      if r != x {
        assert r in s;
      }
    }
  }

  /** Appending a record with a fresh id does not change which earlier
      members of a group count as destroyed. */
  lemma DeadOfPrefix(p: seq<Record>, x: Record, k: Kind)
    requires UniqueIds(p + [x])
    ensures Without(Ids(OfKind(p, k)), DestroyedIds(p + [x])) == Without(Ids(OfKind(p, k)), DestroyedIds(p))
    ensures x.id in DestroyedIds(p + [x]) <==> IsDestroyed(x.entity)
  {
    var g := Ids(OfKind(p, k));
    var dp, ds := DestroyedIds(p), DestroyedIds(p + [x]);
    DestroyedIdsSnoc(p, x);
    assert x.id !in Ids(p) by {
      forall i | 0 <= i < |p|
        ensures Ids(p)[i] != x.id
      {
        assert (p + [x])[i] == p[i] && (p + [x])[|p|] == x;
      }
    }
    assert x.id !in dp;
    forall i | 0 <= i < |g|
      ensures NotIn(ds)(g[i]) == NotIn(dp)(g[i])
    {
      assert OfKind(p, k)[i] in p;
    }
    FilterCongruent(g, NotIn(ds), NotIn(dp));
  }

  /** The core of refresh's consistency: filtering a group by "its entity
      is destroyed" gives the group of the filtered owning list. */
  lemma {:induction false} RefreshGroup(s: seq<Record>, k: Kind)
    requires UniqueIds(s)
    ensures Ids(OfKind(Live(s), k)) == Without(Ids(OfKind(s, k)), DestroyedIds(s))
  {
    if |s| == 0 {
      return;
    }
    var n := |s| - 1;
    var p, x := s[..n], s[n];
    assert s == p + [x];
    RefreshGroup(p, k);
    var g := Ids(OfKind(p, k));
    var ds := DestroyedIds(s);
    DeadOfPrefix(p, x, k);
    OfKindSnoc(p, x, k);
    LiveSnoc(p, x);
    if IsLive(x) {
      OfKindSnoc(Live(p), x, k);
    }
    if KindOf(x.entity) == k {
      IdsSnoc(OfKind(p, k), x);
      assert Without(g + [x.id], ds) == Without(g, ds) + (if x.id in ds then [] else [x.id]) by {
        assert (g + [x.id])[..|g|] == g;
      }
      if IsLive(x) {
        IdsSnoc(OfKind(Live(p), k), x);
      }
    }
  }

  /** Lists that agree record by record on ids and kinds have the same
      groups. */
  lemma {:induction false} SameShapeSameGroups(s: seq<Record>, t: seq<Record>, k: Kind)
    requires |s| == |t|
    requires forall i :: 0 <= i < |s| ==> s[i].id == t[i].id && KindOf(s[i].entity) == KindOf(t[i].entity)
    ensures Ids(OfKind(s, k)) == Ids(OfKind(t, k))
  {
    if |s| > 0 {
      var n := |s| - 1;
      SameShapeSameGroups(s[..n], t[..n], k);
      assert s == s[..n] + [s[n]] && t == t[..n] + [t[n]];
      OfKindSnoc(s[..n], s[n], k);
      OfKindSnoc(t[..n], t[n], k);
      if KindOf(s[n].entity) == k {
        IdsSnoc(OfKind(s[..n], k), s[n]);
        IdsSnoc(OfKind(t[..n], k), t[n]);
      }
    }
  }

  /** A second refresh with no new destructions changes neither the owning
      list nor any group. */
  lemma RefreshIdempotent(s: seq<Record>, g: seq<Id>)
    ensures Live(Live(s)) == Live(s)
    ensures DestroyedIds(Live(s)) == {}
    ensures Without(g, DestroyedIds(Live(s))) == g
  {
    FilterIdempotent(s, IsLive);
    var l := Live(s);
    assert forall r :: r in l ==> IsLive(r);
    assert DestroyedIds(l) == {};
    forall i | 0 <= i < |g|
      ensures NotIn({})(g[i])
    {
    }
    FilterKeepsAll(g, NotIn({}));
  }

  /** With unique ids, a record's id survives the refresh exactly when its
      entity is not destroyed. */
  lemma LiveIdsIff(s: seq<Record>, i: nat)
    requires UniqueIds(s) && i < |s|
    ensures s[i].id in Ids(Live(s)) <==> !IsDestroyed(s[i].entity)
  {
    var l := Live(s);
    if !IsDestroyed(s[i].entity) {
      FilterComplete(s, IsLive, s[i]);
      var j :| 0 <= j < |l| && l[j] == s[i];
      assert Ids(l)[j] == s[i].id;
    }
    if s[i].id in Ids(l) {
      var j :| 0 <= j < |l| && Ids(l)[j] == s[i].id;
      assert l[j] in s;
      var j' :| 0 <= j' < |s| && s[j'] == l[j];
      assert j' == i;
    }
  }

  /** With unique ids, an entity not marked destroyed is not in the dead set. */
  lemma LiveNotDead(s: seq<Record>, i: nat)
    requires UniqueIds(s) && i < |s| && !IsDestroyed(s[i].entity)
    ensures s[i].id !in DestroyedIds(s)
  {
    forall r | r in s && IsDestroyed(r.entity)
      ensures r.id != s[i].id
    {
      var j :| 0 <= j < |s| && s[j] == r;
    }
  }

  /** A group none of whose members is destroyed comes through the refresh
      whole. */
  lemma RefreshKeepsGroup(s: seq<Record>, k: Kind)
    requires UniqueIds(s)
    requires forall i :: 0 <= i < |s| && KindOf(s[i].entity) == k ==> !IsDestroyed(s[i].entity)
    ensures Ids(OfKind(Live(s), k)) == Ids(OfKind(s, k))
  {
    RefreshGroup(s, k);
    var f := OfKind(s, k);
    var g := Ids(f);
    var dead := DestroyedIds(s);
    forall n | 0 <= n < |g|
      ensures NotIn(dead)(g[n])
    {
      assert f[n] in s;
      var i :| 0 <= i < |s| && s[i] == f[n];
      LiveNotDead(s, i);
    }
    FilterKeepsAll(g, NotIn(dead));
  }

  /** The owning list after every entity's update. */
  function UpdateAll(s: seq<Record>, input: Input, policy: BoundsPolicy): (r: seq<Record>)
    ensures |r| == |s|
    ensures forall i :: 0 <= i < |s| ==> r[i] == Record(s[i].id, UpdateEntity(s[i].entity, input, policy))
  {
    if |s| == 0 then []
    else UpdateAll(s[..|s| - 1], input, policy) + [Record(s[|s| - 1].id, UpdateEntity(s[|s| - 1].entity, input, policy))]
  }

  /** The registry invariant: ids are unique and below the counter; every
      group present is the owning list filtered to its kind, in the same
      order; a kind without a group has no members. */
  ghost predicate Consistent(entities: seq<Record>, groups: map<Kind, seq<Id>>, nextId: Id)
  {
    UniqueIds(entities)
    && (forall i :: 0 <= i < |entities| ==> entities[i].id < nextId)
    && (forall k :: k in groups ==> groups[k] == Ids(OfKind(entities, k)))
    && (forall k :: k !in groups ==> OfKind(entities, k) == [])
  }

  /** create keeps the registry invariant. */
  lemma CreateConsistent(s: seq<Record>, groups: map<Kind, seq<Id>>, nextId: Id, e: Entity, group: seq<Id>)
    requires Consistent(s, groups, nextId)
    requires group == if KindOf(e) in groups then groups[KindOf(e)] else []
    ensures Consistent(s + [Record(nextId, e)], groups[KindOf(e) := group + [nextId]], nextId + 1)
  {
    var x := Record(nextId, e);
    var k := KindOf(e);
    var t := s + [x];
    var g := groups[k := group + [nextId]];
    forall j | j in g
      ensures g[j] == Ids(OfKind(t, j))
    {
      OfKindSnoc(s, x, j);
      if j == k {
        IdsSnoc(OfKind(s, j), x);
      }
    }
    forall j | j !in g
      ensures OfKind(t, j) == []
    {
      OfKindSnoc(s, x, j);
    }
    assert UniqueIds(t) by {
      forall i, j | 0 <= i < j < |t|
        ensures t[i].id != t[j].id
      {
        if j < |s| {
          assert t[i] == s[i] && t[j] == s[j];
        } else {
          assert t[i] == s[i];
        }
      }
    }
  }

  /** Every group after its erase-remove. */
  function RefreshedGroups(groups: map<Kind, seq<Id>>, dead: set<Id>): (r: map<Kind, seq<Id>>)
    ensures r.Keys == groups.Keys
  {
    map k | k in groups :: Without(groups[k], dead)
  }

  /** refresh keeps the registry invariant, and leaves nothing destroyed. */
  lemma RefreshConsistent(s: seq<Record>, groups: map<Kind, seq<Id>>, nextId: Id)
    requires Consistent(s, groups, nextId)
    ensures Consistent(Live(s), RefreshedGroups(groups, DestroyedIds(s)), nextId)
    ensures forall i :: 0 <= i < |Live(s)| ==> !IsDestroyed(Live(s)[i].entity)
  {
    var l := Live(s);
    var g := RefreshedGroups(groups, DestroyedIds(s));
    FilterUnique(s, IsLive);
    forall k | k in g
      ensures g[k] == Ids(OfKind(l, k))
    {
      RefreshGroup(s, k);
    }
    forall k | k !in g
      ensures OfKind(l, k) == []
    {
      RefreshGroup(s, k);
      assert |Ids(OfKind(l, k))| == 0;
    }
    forall i | 0 <= i < |l|
      ensures !IsDestroyed(l[i].entity) && l[i].id < nextId
    {
      assert l[i] in s;
    }
  }

  /** The loop of refresh over groupedEntities: each group is erase-removed
      on its own, so the visiting order of the keys does not matter. */
  method EraseRemoveGroups(groups: map<Kind, seq<Id>>, dead: set<Id>) returns (r: map<Kind, seq<Id>>)
    ensures r == RefreshedGroups(groups, dead)
  {
    r := groups;
    var keys := groups.Keys;
    while keys != {}
      invariant keys <= r.Keys == groups.Keys
      invariant forall k :: k in r ==> r[k] == if k in keys then groups[k] else Without(groups[k], dead)
      decreases keys
    {
      var k :| k in keys;
      var g := EraseRemove(r[k], NotIn(dead));
      r := r[k := g];
      keys := keys - {k};
    }
  }

  class Manager {
    /** The owning list, in creation order. */
    var entities: seq<Record>
    /** groupedEntities: per kind, the ids of its members. */
    var groups: map<Kind, seq<Id>>
    /** The id the next created entity receives. */
    var nextId: Id

    ghost predicate Valid()
      reads this
    {
      Consistent(entities, groups, nextId)
    }

    /** What getAll would return, without inserting a group. */
    function Group(k: Kind): seq<Id>
      reads this
    {
      if k in groups then groups[k] else []
    }

    lemma GroupIsFilter(k: Kind)
      requires Valid()
      ensures Group(k) == Ids(OfKind(entities, k))
    {
    }

    constructor ()
      ensures Valid() && entities == [] && groups == map[] && nextId == 0
    {
      entities := [];
      groups := map[];
      nextId := 0;
    }

    /** create<T>: append the entity to its group and to the owning list. */
    method Create(e: Entity) returns (id: Id)
      requires Valid()
      modifies this
      ensures Valid()
      ensures id == old(nextId) && nextId == id + 1
      ensures entities == old(entities) + [Record(id, e)]
      ensures groups == old(groups)[KindOf(e) := old(Group(KindOf(e))) + [id]]
      ensures Group(KindOf(e)) == old(Group(KindOf(e))) + [id]
    {
      id := nextId;
      var k := KindOf(e);
      var members := Group(k);
      CreateConsistent(entities, groups, nextId, e, members);
      groups := groups[k := members + [id]];
      entities := entities + [Record(id, e)];
      nextId := nextId + 1;
    }

    /** The newly created entity is the last of the owning list and of its
        group. */
    lemma CreatedIsLast(id: Id, e: Entity)
      requires Valid() && |entities| > 0 && entities[|entities| - 1] == Record(id, e)
      ensures Group(KindOf(e)) != [] && Group(KindOf(e))[|Group(KindOf(e))| - 1] == id
    {
      var n := |entities| - 1;
      assert entities == entities[..n] + [entities[n]];
      OfKindSnoc(entities[..n], entities[n], KindOf(e));
      IdsSnoc(OfKind(entities[..n], KindOf(e)), entities[n]);
    }

    /** refresh: erase-remove every group, then the owning list. */
    method Refresh()
      requires Valid()
      modifies this
      ensures Valid()
      ensures entities == Live(old(entities))
      ensures groups == RefreshedGroups(old(groups), DestroyedIds(old(entities)))
      ensures nextId == old(nextId)
      ensures forall i :: 0 <= i < |entities| ==> !IsDestroyed(entities[i].entity)
    {
      var dead := DestroyedIds(entities);
      groups := EraseRemoveGroups(groups, dead);
      entities := EraseRemove(entities, IsLive);
      RefreshConsistent(old(entities), old(groups), nextId);
    }

    /** clear: both structures become empty. */
    method Clear()
      requires Valid()
      modifies this
      ensures Valid()
      ensures entities == [] && groups == map[] && nextId == old(nextId)
    {
      groups := map[];
      entities := [];
    }

    /** getAll<T>: std::map::operator[] inserts an empty group for a kind
        never seen. */
    method GetAll(k: Kind) returns (g: seq<Id>)
      requires Valid()
      modifies this
      ensures Valid()
      ensures g == Ids(OfKind(entities, k))
      ensures entities == old(entities) && nextId == old(nextId)
      ensures groups == old(groups)[k := old(Group(k))]
    {
      if k !in groups {
        groups := groups[k := []];
      }
      g := groups[k];
    }

    /** The position of the entity an id points to. */
    method Lookup(id: Id) returns (i: nat)
      requires id in Ids(entities)
      ensures i < |entities| && entities[i].id == id
    {
      i := 0;
      while entities[i].id != id
        invariant i < |entities|
        invariant exists j :: i <= j < |entities| && entities[j].id == id
        decreases |entities| - i
      {
        i := i + 1;
      }
    }

    /** What a callback of forEach does through the reference it receives:
        the entity changes, its identity and kind do not, so no group
        changes and a destroyed entity is still visited until refresh. */
    method Put(i: nat, e: Entity)
      requires Valid() && i < |entities| && KindOf(e) == KindOf(entities[i].entity)
      modifies this
      ensures Valid()
      ensures entities == old(entities)[i := Record(old(entities)[i].id, e)]
      ensures groups == old(groups) && nextId == old(nextId)
    {
      ghost var before := entities;
      entities := entities[i := Record(entities[i].id, e)];
      forall k
        ensures Ids(OfKind(entities, k)) == Ids(OfKind(before, k))
      {
        SameShapeSameGroups(entities, before, k);
      }
      forall k | k !in groups
        ensures OfKind(entities, k) == []
      {
        assert |Ids(OfKind(entities, k))| == 0;
      }
    }

    /** update: each entity's update, once, in creation order. */
    method Update(input: Input, policy: BoundsPolicy)
      requires Valid()
      modifies this
      ensures Valid()
      ensures entities == UpdateAll(old(entities), input, policy)
      ensures groups == old(groups) && nextId == old(nextId)
    {
      for i := 0 to |entities|
        invariant Valid()
        invariant |entities| == |old(entities)| && groups == old(groups) && nextId == old(nextId)
        invariant forall j :: 0 <= j < i ==>
          entities[j] == Record(old(entities)[j].id, UpdateEntity(old(entities)[j].entity, input, policy))
        invariant forall j :: i <= j < |entities| ==> entities[j] == old(entities)[j]
      {
        Put(i, UpdateEntity(entities[i].entity, input, policy));
      }
    }
  }
}
