/** The index from owners to sub objects that the DNS controller keeps, as the library implements it. */
module SubObjectCache {
  import opened Api

  datatype ObjectName = ObjectName(namespace: string, name: string)

  /** An endpoint object reduced to its key and the load balancer it names. */
  datatype Ep = Ep(key: ObjectName, loadBalancer: string)

  /** The extractor: an endpoint belongs to the load balancer of that name in its own namespace. */
  function Owners(o: Ep): set<ObjectName> {
    if o.loadBalancer == "" then {} else {ObjectName(o.key.namespace, o.loadBalancer)}
  }

  datatype Entry = Entry(sub: Ep, count: nat)

  /** What the cache says about one key: the latest object, and the owners it is filed under. */
  datatype Filed = Filed(sub: Ep, homes: set<ObjectName>)

  type View = map<ObjectName, Filed>

  type Buckets = map<ObjectName, set<ObjectName>>

  function HomesIn(byOwner: Buckets, key: ObjectName): set<ObjectName> {
    set o | o in byOwner && key in byOwner[o]
  }

  function Bucket(byOwner: Buckets, owner: ObjectName): set<ObjectName> {
    if owner in byOwner then byOwner[owner] else {}
  }

  // ---- the effect of each operation ----

  function Keep(v: View, key: ObjectName, f: Filed): View {
    if f.homes == {} then v - {key} else v[key := f]
  }

  function Added(v: View, owner: ObjectName, sub: Ep): View {
    v[sub.key := Filed(sub, {owner} + if sub.key in v then v[sub.key].homes else {})]
  }

  function Removed(v: View, owner: ObjectName, key: ObjectName): View {
    if key in v && owner in v[key].homes then Keep(v, key, v[key].(homes := v[key].homes - {owner})) else v
  }

  /** Renewing an object that is already filed: the owners it had before and lost are added, the ones
      it newly has are removed. */
  function RenewedHomes(f: Filed, obj: Ep): set<ObjectName> {
    f.homes + (Owners(f.sub) - Owners(obj)) - (Owners(obj) - Owners(f.sub))
  }

  function Renewed(v: View, obj: Ep): View {
    if obj.key in v then Keep(v, obj.key, Filed(obj, RenewedHomes(v[obj.key], obj)))
    else Keep(v, obj.key, Filed(obj, Owners(obj)))
  }

  function SubDeleted(v: View, key: ObjectName): View {
    if key in v then Keep(v, key, v[key].(homes := v[key].homes - Owners(v[key].sub))) else v
  }

  function OwnerDeleted(v: View, owner: ObjectName): View {
    map k | k in v && v[k].homes != {owner} :: v[k].(homes := v[k].homes - {owner})
  }

  function HomesOf(v: View, key: ObjectName): set<ObjectName> {
    if key in v then v[key].homes else {}
  }

  /** `this.DiffFrom(other)` tells what to add to `this` and what to drop from it to get `other`. */
  function DiffFrom(self: set<ObjectName>, other: set<ObjectName>): (set<ObjectName>, set<ObjectName>) {
    (other - self, self - other)
  }

  lemma DiffEmptyIff(a: set<ObjectName>, b: set<ObjectName>)
    ensures |b - a| + |a - b| > 0 <==> a != b
  {
  }

  /** The index right after start-up: every object under its owners. */
  function FiledStore(objs: map<ObjectName, Ep>): View {
    map k | k in objs && Owners(objs[k]) != {} :: Filed(objs[k], Owners(objs[k]))
  }

  /** Exactly the latest objects filed under the owner, each once. */
  ghost predicate Lists(v: View, owner: ObjectName, subs: seq<Ep>) {
    && (forall i, j :: 0 <= i < j < |subs| ==> subs[i].key != subs[j].key)
    && (forall e :: e in subs <==> e.key in v && owner in v[e.key].homes && e == v[e.key].sub)
  }

  ghost predicate Sound(v: View) {
    forall k :: k in v ==> v[k].homes != {} && v[k].sub.key == k
  }

  // ---- bookkeeping of buckets ----

  lemma HomesAdd(b: Buckets, owner: ObjectName, key: ObjectName)
    ensures var b' := b[owner := Bucket(b, owner) + {key}];
            forall k :: HomesIn(b', k) == if k == key then HomesIn(b, k) + {owner} else HomesIn(b, k)
  {
  }

  function Without(b: Buckets, owner: ObjectName, key: ObjectName): Buckets {
    if Bucket(b, owner) - {key} == {} then b - {owner} else b[owner := Bucket(b, owner) - {key}]
  }

  lemma HomesRemove(b: Buckets, owner: ObjectName, key: ObjectName)
    requires owner in b && key in b[owner]
    ensures forall k :: HomesIn(Without(b, owner, key), k) ==
              if k == key then HomesIn(b, k) - {owner} else HomesIn(b, k)
  {
    forall k ensures HomesIn(Without(b, owner, key), k) == if k == key then HomesIn(b, k) - {owner} else HomesIn(b, k) {
      if Bucket(b, owner) - {key} == {} {
        assert b[owner] == {key};
      }
    }
  }

  /** The entry of a key counts the buckets it is in, and there is one iff there is such a bucket. */
  ghost predicate Counted(homes: set<ObjectName>, n: map<ObjectName, Entry>, k: ObjectName) {
    if k in n then n[k].count == |homes| && homes != {} && n[k].sub.key == k else homes == {}
  }

  /** No bucket is empty, and every key is counted. */
  ghost predicate Consistent(b: Buckets, n: map<ObjectName, Entry>) {
    && (forall o :: o in b ==> b[o] != {})
    && (forall k :: Counted(HomesIn(b, k), n, k))
  }

  function IndexOf(b: Buckets, n: map<ObjectName, Entry>): View {
    map k | k in n :: Filed(n[k].sub, HomesIn(b, k))
  }

  function Increased(n: map<ObjectName, Entry>, sub: Ep): map<ObjectName, Entry> {
    n[sub.key := Entry(sub, (if sub.key in n then n[sub.key].count else 0) + 1)]
  }

  lemma CountOneMore(homes: set<ObjectName>, n: map<ObjectName, Entry>, owner: ObjectName, sub: Ep)
    requires Counted(homes, n, sub.key) && owner !in homes
    ensures Counted(homes + {owner}, Increased(n, sub), sub.key)
  {
    assert |homes + {owner}| == |homes| + 1;
  }

  lemma AddKeeps(b: Buckets, n: map<ObjectName, Entry>, owner: ObjectName, sub: Ep)
    requires Consistent(b, n) && sub.key !in Bucket(b, owner)
    ensures Consistent(b[owner := Bucket(b, owner) + {sub.key}], Increased(n, sub))
    ensures IndexOf(b[owner := Bucket(b, owner) + {sub.key}], Increased(n, sub)) == Added(IndexOf(b, n), owner, sub)
  {
    var b', n' := b[owner := Bucket(b, owner) + {sub.key}], Increased(n, sub);
    HomesAdd(b, owner, sub.key);
    forall k ensures Counted(HomesIn(b', k), n', k) {
      assert Counted(HomesIn(b, k), n, k);
      if k == sub.key {
        CountOneMore(HomesIn(b, k), n, owner, sub);
      }
    }
    assert Counted(HomesIn(b, sub.key), n, sub.key);
    AddedIndex(b, n, b', owner, sub);
  }

  lemma AddedIndex(b: Buckets, n: map<ObjectName, Entry>, b': Buckets, owner: ObjectName, sub: Ep)
    requires forall k :: HomesIn(b', k) == if k == sub.key then HomesIn(b, k) + {owner} else HomesIn(b, k)
    requires Counted(HomesIn(b, sub.key), n, sub.key)
    ensures IndexOf(b', Increased(n, sub)) == Added(IndexOf(b, n), owner, sub)
  {
    var w, x := IndexOf(b', Increased(n, sub)), Added(IndexOf(b, n), owner, sub);
    assert w.Keys == x.Keys;
    assert w[sub.key] == x[sub.key] by {
      assert HomesIn(b, sub.key) + {owner} == {owner} + HomesIn(b, sub.key);
    }
    forall k | k in n && k != sub.key ensures w[k] == x[k] {
    }
  }

  lemma RefreshKeeps(b: Buckets, n: map<ObjectName, Entry>, owner: ObjectName, sub: Ep)
    requires Consistent(b, n) && sub.key in Bucket(b, owner)
    ensures sub.key in n
    ensures var n' := n[sub.key := n[sub.key].(sub := sub)];
            Consistent(b, n') && IndexOf(b, n') == Added(IndexOf(b, n), owner, sub)
  {
    assert owner in HomesIn(b, sub.key);
    assert Counted(HomesIn(b, sub.key), n, sub.key);
    var n' := n[sub.key := n[sub.key].(sub := sub)];
    forall k ensures Counted(HomesIn(b, k), n', k) {
      assert Counted(HomesIn(b, k), n, k);
    }
    assert {owner} + HomesIn(b, sub.key) == HomesIn(b, sub.key);
  }

  function Decreased(n: map<ObjectName, Entry>, key: ObjectName): map<ObjectName, Entry>
    requires key in n
  {
    if n[key].count <= 1 then n - {key} else n[key := n[key].(count := n[key].count - 1)]
  }

  lemma CountOneLess(homes: set<ObjectName>, n: map<ObjectName, Entry>, owner: ObjectName, key: ObjectName)
    requires Counted(homes, n, key) && owner in homes
    ensures Counted(homes - {owner}, Decreased(n, key), key)
  {
    assert |homes - {owner}| == |homes| - 1;
  }

  lemma RemoveKeeps(b: Buckets, n: map<ObjectName, Entry>, owner: ObjectName, key: ObjectName)
    requires Consistent(b, n) && key in Bucket(b, owner)
    ensures key in n
    ensures Consistent(Without(b, owner, key), Decreased(n, key))
    ensures IndexOf(Without(b, owner, key), Decreased(n, key)) == Removed(IndexOf(b, n), owner, key)
  {
    HomesRemove(b, owner, key);
    assert owner in HomesIn(b, key);
    assert Counted(HomesIn(b, key), n, key);
    var b', n' := Without(b, owner, key), Decreased(n, key);
    forall k ensures Counted(HomesIn(b', k), n', k) {
      assert Counted(HomesIn(b, k), n, k);
      if k == key {
        CountOneLess(HomesIn(b, k), n, owner, k);
      }
    }
    RemovedIndex(b, n, b', n', owner, key);
  }

  lemma RemovedIndex(b: Buckets, n: map<ObjectName, Entry>, b': Buckets, n': map<ObjectName, Entry>,
                     owner: ObjectName, key: ObjectName)
    requires key in n && owner in HomesIn(b, key)
    requires forall k :: HomesIn(b', k) == if k == key then HomesIn(b, k) - {owner} else HomesIn(b, k)
    requires Counted(HomesIn(b', key), n', key)
    requires n' == Decreased(n, key)
    ensures IndexOf(b', n') == Removed(IndexOf(b, n), owner, key)
  {
    var v, w := IndexOf(b, n), IndexOf(b', n');
    var x := Removed(v, owner, key);
    assert v[key].homes == HomesIn(b, key);
    assert key in n' <==> HomesIn(b, key) - {owner} != {};
    assert w.Keys == x.Keys;
    assert key in w ==> w[key] == x[key];
    forall k | k in w && k != key ensures w[k] == x[k] {
      assert w[k] == v[k];
    }
  }

  /** `renewSubObject` on a filed object: both loops, then the entry takes over the object. */
  lemma RenewPieces(v: View, obj: Ep, add: set<ObjectName>, del: set<ObjectName>)
    requires Sound(v) && obj.key in v
    requires (add, del) == DiffFrom(Owners(obj), Owners(v[obj.key].sub))
    ensures var w := RemovedAll(AddedAll(v, add, obj), del, obj.key, Some(obj));
            Renewed(v, obj) == if obj.key in w then w[obj.key := w[obj.key].(sub := obj)] else w
  {
    var h := v[obj.key].homes;
    assert RenewedHomes(v[obj.key], obj) == h + add - del;
    assert h + add !! del ==> h + add - del == h + add;
    assert add == {} ==> h + add == h;
  }

  /** On an object that is not filed: one loop. */
  lemma RenewUnfiled(v: View, obj: Ep)
    requires obj.key !in v
    ensures Renewed(v, obj) == AddedAll(v, Owners(obj), obj)
  {
    assert HomesOf(v, obj.key) + Owners(obj) == Owners(obj);
    if Owners(obj) == {} {
      assert v - {obj.key} == v;
    }
  }

  lemma IndexedAs(b: Buckets, n: map<ObjectName, Entry>, key: ObjectName)
    ensures key in n <==> key in IndexOf(b, n)
    ensures key in n ==> IndexOf(b, n)[key].sub == n[key].sub
  {
  }

  lemma RefreshEntry(b: Buckets, n: map<ObjectName, Entry>, obj: Ep)
    requires Consistent(b, n) && obj.key in n
    ensures var n' := n[obj.key := n[obj.key].(sub := obj)];
            && Consistent(b, n')
            && IndexOf(b, n') == IndexOf(b, n)[obj.key := IndexOf(b, n)[obj.key].(sub := obj)]
  {
    var n' := n[obj.key := n[obj.key].(sub := obj)];
    forall k ensures Counted(HomesIn(b, k), n', k) {
      assert Counted(HomesIn(b, k), n, k);
    }
  }

  // ---- the loops over owners ----

  function AddedAll(v: View, owners: set<ObjectName>, sub: Ep): View {
    if owners == {} then v else v[sub.key := Filed(sub, HomesOf(v, sub.key) + owners)]
  }

  lemma AddOneMore(v: View, owners: set<ObjectName>, e: ObjectName, sub: Ep)
    ensures Added(AddedAll(v, owners, sub), e, sub) == AddedAll(v, owners + {e}, sub)
  {
    assert {e} + (HomesOf(v, sub.key) + owners) == HomesOf(v, sub.key) + (owners + {e});
    assert owners == {} ==> {e} + HomesOf(v, sub.key) == HomesOf(v, sub.key) + (owners + {e});
    var w := AddedAll(v, owners, sub);
    assert Added(w, e, sub)[sub.key] == AddedAll(v, owners + {e}, sub)[sub.key];
    assert forall k :: k != sub.key ==> (k in w <==> k in v) && (k in v ==> w[k] == v[k]);
  }

  /** Removing an object from several owners; when it stays filed, `latest` decides its value. */
  function RemovedAll(v: View, owners: set<ObjectName>, key: ObjectName, latest: Option<Ep>): View {
    if key in v && !(v[key].homes !! owners) then
      Keep(v, key, Filed(if latest.Some? then latest.value else v[key].sub, v[key].homes - owners))
    else v
  }

  lemma RemoveOneMore(v: View, owners: set<ObjectName>, e: ObjectName, key: ObjectName, latest: Option<Ep>)
    requires Sound(v)
    ensures RemovedAll(RemovedAll(v, owners, key, latest), {e}, key, latest) == RemovedAll(v, owners + {e}, key, latest)
  {
    if key in v {
      var h := v[key].homes;
      assert h - owners - {e} == h - (owners + {e});
      assert h !! owners + {e} <==> h !! owners && h !! {e};
      assert h - owners !! {e} <==> e in owners || h !! {e};
      assert h !! owners ==> h - owners == h;
      assert h - owners !! {e} ==> h - (owners + {e}) == h - owners;
    }
  }

  lemma RemoveNone(v: View, key: ObjectName, latest: Option<Ep>)
    ensures RemovedAll(v, {}, key, latest) == v
  {
    if key in v {
      assert v[key].homes !! {};
    }
  }

  lemma RemovedIsRemovedAll(v: View, owner: ObjectName, key: ObjectName)
    ensures Removed(v, owner, key) == RemovedAll(v, {owner}, key, None)
  {
    if key in v {
      assert v[key].homes !! {owner} <==> owner !in v[key].homes;
    }
  }

  function OwnerDeletedFor(v: View, owner: ObjectName, keys: set<ObjectName>): View {
    map k | k in v && !(k in keys && v[k].homes == {owner}) ::
      if k in keys then v[k].(homes := v[k].homes - {owner}) else v[k]
  }

  lemma DeleteForOneMore(v: View, owner: ObjectName, keys: set<ObjectName>, s: ObjectName)
    requires Sound(v) && s in v && owner in v[s].homes && s !in keys
    ensures Removed(OwnerDeletedFor(v, owner, keys), owner, s) == OwnerDeletedFor(v, owner, keys + {s})
  {
    assert v[s].homes - {owner} == {} <==> v[s].homes == {owner};
  }

  lemma BucketMembers(b: Buckets, n: map<ObjectName, Entry>, owner: ObjectName)
    requires Consistent(b, n)
    ensures forall k :: k in Bucket(b, owner) <==> k in IndexOf(b, n) && owner in IndexOf(b, n)[k].homes
  {
    forall k ensures k in Bucket(b, owner) <==> k in n && owner in HomesIn(b, k) {
      assert Counted(HomesIn(b, k), n, k);
      assert k in Bucket(b, owner) <==> owner in HomesIn(b, k);
    }
  }

  lemma OwnerDeletedDone(v: View, owner: ObjectName, keys: set<ObjectName>)
    requires Sound(v)
    requires forall k :: k in keys <==> k in v && owner in v[k].homes
    ensures OwnerDeletedFor(v, owner, keys) == OwnerDeleted(v, owner)
  {
    assert forall k :: k in v && k !in keys ==> v[k].homes - {owner} == v[k].homes;
  }

  lemma OwnerDeletedNone(v: View, owner: ObjectName)
    ensures OwnerDeletedFor(v, owner, {}) == v
  {
  }

  function FiledPart(objs: map<ObjectName, Ep>, keys: set<ObjectName>): View {
    map k | k in objs && k in keys && Owners(objs[k]) != {} :: Filed(objs[k], Owners(objs[k]))
  }

  lemma FiledOneMore(objs: map<ObjectName, Ep>, keys: set<ObjectName>, k: ObjectName)
    requires k in objs && k !in keys && objs[k].key == k
    ensures AddedAll(FiledPart(objs, keys), Owners(objs[k]), objs[k]) == FiledPart(objs, keys + {k})
  {
    assert HomesOf(FiledPart(objs, keys), k) + Owners(objs[k]) == Owners(objs[k]);
  }

  class Cache {
    var byOwner: Buckets
    var nested: map<ObjectName, Entry>

    ghost predicate Valid()
      reads this
    {
      Consistent(byOwner, nested)
    }

    ghost function Index(): View
      reads this
    {
      IndexOf(byOwner, nested)
    }

    constructor ()
      ensures Valid() && Index() == map[]
    {
      byOwner, nested := map[], map[];
    }

    method Add(owner: ObjectName, sub: Ep)
      requires Valid()
      modifies this
      ensures Valid() && Index() == Added(old(Index()), owner, sub)
    {
      var key := sub.key;
      var bucket := if owner in byOwner then byOwner[owner] else {};
      if key !in bucket {
        AddKeeps(byOwner, nested, owner, sub);
        ghost var b, n := byOwner[owner := bucket + {key}], Increased(nested, sub);
        var count := if key in nested then nested[key].count else 0;
        byOwner := byOwner[owner := bucket + {key}];
        nested := nested[key := Entry(sub, count + 1)];
        assert byOwner == b && nested == n;
      } else {
        RefreshKeeps(byOwner, nested, owner, sub);
        nested := nested[key := nested[key].(sub := sub)];
      }
    }

    method RemoveByKey(owner: ObjectName, key: ObjectName)
      requires Valid()
      modifies this
      ensures Valid() && Index() == Removed(old(Index()), owner, key)
      ensures forall o :: o != owner ==> Bucket(byOwner, o) == Bucket(old(byOwner), o)
      ensures Bucket(byOwner, owner) == Bucket(old(byOwner), owner) - {key}
    {
      if owner in byOwner && key in byOwner[owner] {
        RemoveKeeps(byOwner, nested, owner, key);
        ghost var b, n := Without(byOwner, owner, key), Decreased(nested, key);
        var left := byOwner[owner] - {key};
        if left == {} {
          byOwner := byOwner - {owner};
        } else {
          byOwner := byOwner[owner := left];
        }
        if nested[key].count <= 1 {
          nested := nested - {key};
        } else {
          nested := nested[key := nested[key].(count := nested[key].count - 1)];
        }
        assert byOwner == b && nested == n;
      } else {
        assert owner !in HomesIn(byOwner, key);
      }
    }

    /** `remove`: as `RemoveByKey`, and a still filed entry takes over the given object. */
    method Remove(owner: ObjectName, sub: Ep)
      requires Valid()
      modifies this
      ensures Valid() && Index() == RemovedAll(old(Index()), {owner}, sub.key, Some(sub))
    {
      var found := owner in byOwner && sub.key in byOwner[owner];
      IndexSound();
      assert found <==> owner in HomesIn(byOwner, sub.key);
      assert Counted(HomesIn(byOwner, sub.key), nested, sub.key);
      assert HomesIn(byOwner, sub.key) !! {owner} <==> !found;
      RemoveByKey(owner, sub.key);
      if found && sub.key in nested {
        RefreshEntry(byOwner, nested, sub);
        nested := nested[sub.key := nested[sub.key].(sub := sub)];
      }
    }

    /** The loop over a set of owners that adds the object to each. */
    method AddToAll(owners: set<ObjectName>, sub: Ep)
      requires Valid()
      modifies this
      ensures Valid() && Index() == AddedAll(old(Index()), owners, sub)
    {
      var todo := owners;
      ghost var done := {};
      while todo != {}
        invariant Valid() && todo !! done && todo + done == owners
        invariant Index() == AddedAll(old(Index()), done, sub)
      {
        var e :| e in todo;
        AddOneMore(old(Index()), done, e, sub);
        Add(e, sub);
        todo, done := todo - {e}, done + {e};
      }
      assert done == owners;
    }

    /** The loop over a set of owners that removes the object from each. */
    method RemoveFromAll(owners: set<ObjectName>, sub: Ep)
      requires Valid()
      modifies this
      ensures Valid() && Index() == RemovedAll(old(Index()), owners, sub.key, Some(sub))
    {
      var todo := owners;
      ghost var done := {};
      IndexSound();
      RemoveNone(Index(), sub.key, Some(sub));
      while todo != {}
        invariant Valid() && todo !! done && todo + done == owners
        invariant Index() == RemovedAll(old(Index()), done, sub.key, Some(sub))
      {
        var e :| e in todo;
        RemoveOneMore(old(Index()), done, e, sub.key, Some(sub));
        Remove(e, sub);
        todo, done := todo - {e}, done + {e};
      }
      assert done == owners;
    }

    method DeleteSubObject(key: ObjectName)
      requires Valid()
      modifies this
      ensures Valid() && Index() == SubDeleted(old(Index()), key)
    {
      IndexSound();
      if key in nested {
        ghost var before := Index();
        var todo := Owners(nested[key].sub);
        ghost var all, done := todo, {};
        RemoveNone(before, key, None);
        while todo != {}
          invariant Valid() && todo !! done && todo + done == all
          invariant Index() == RemovedAll(before, done, key, None)
        {
          var o :| o in todo;
          RemoveOneMore(before, done, o, key, None);
          RemovedIsRemovedAll(Index(), o, key);
          RemoveByKey(o, key);
          todo, done := todo - {o}, done + {o};
        }
        assert done == all;
        assert before[key].homes !! all ==> before[key].homes - all == before[key].homes;
      }
    }

    method DeleteOwner(owner: ObjectName)
      requires Valid()
      modifies this
      ensures Valid() && Index() == OwnerDeleted(old(Index()), owner)
    {
      ghost var before := Index();
      ghost var all := Bucket(byOwner, owner);
      IndexSound();
      BucketMembers(byOwner, nested, owner);
      OwnerDeletedDone(before, owner, all);
      if owner in byOwner {
        RemoveFromOwner(owner, byOwner[owner]);
        assert byOwner - {owner} == byOwner;
        byOwner := byOwner - {owner};
      } else {
        OwnerDeletedNone(before, owner);
      }
    }

    /** The loop over the bucket of an owner. */
    method RemoveFromOwner(owner: ObjectName, subs: set<ObjectName>)
      requires Valid() && subs == Bucket(byOwner, owner)
      modifies this
      ensures Valid() && owner !in byOwner
      ensures Index() == OwnerDeletedFor(old(Index()), owner, subs)
    {
      ghost var before, done := Index(), {};
      IndexSound();
      BucketMembers(byOwner, nested, owner);
      OwnerDeletedNone(before, owner);
      var todo := subs;
      while todo != {}
        invariant Valid() && todo !! done && todo + done == subs
        invariant Index() == OwnerDeletedFor(before, owner, done)
        invariant Bucket(byOwner, owner) == todo
      {
        var s :| s in todo;
        DeleteForOneMore(before, owner, done, s);
        RemoveByKey(owner, s);
        todo, done := todo - {s}, done + {s};
      }
      assert done == subs;
    }

    lemma IndexSound()
      requires Valid()
      ensures Sound(Index())
    {
      assert forall k :: k in nested ==> Counted(HomesIn(byOwner, k), nested, k);
    }

    /** The result tells whether the owners named now differ from those named before, even where the index
        itself stays as it was. */
    method RenewSubObject(obj: Ep) returns (changed: bool)
      requires Valid()
      modifies this
      ensures Valid() && Index() == Renewed(old(Index()), obj)
      ensures var v := old(Index());
              changed <==> Owners(obj) != if obj.key in v then Owners(v[obj.key].sub) else {}
    {
      var key := obj.key;
      var newowners := Owners(obj);
      IndexedAs(byOwner, nested, key);
      if key !in nested {
        RenewUnfiled(Index(), obj);
      }
      if newowners == {} && key !in nested {
        return false;
      }
      if key in nested {
        changed := MoveSubObject(obj);
      } else {
        AddToAll(newowners, obj);
        changed := true;
      }
    }

    /** The branch for an object that is already filed. */
    method MoveSubObject(obj: Ep) returns (changed: bool)
      requires Valid() && obj.key in nested
      modifies this
      ensures Valid() && Index() == Renewed(old(Index()), obj)
      ensures changed <==> Owners(obj) != Owners(old(nested)[obj.key].sub)
    {
      var newowners, oldowners := Owners(obj), Owners(nested[obj.key].sub);
      ghost var before := Index();
      IndexSound();
      IndexedAs(byOwner, nested, obj.key);
      var (add, del) := DiffFrom(newowners, oldowners);
      AddToAll(add, obj);
      RemoveFromAll(del, obj);
      RenewPieces(before, obj, add, del);
      IndexedAs(byOwner, nested, obj.key);
      if obj.key in nested {
        RefreshEntry(byOwner, nested, obj);
        nested := nested[obj.key := nested[obj.key].(sub := obj)];
      }
      DiffEmptyIff(newowners, oldowners);
      changed := |add| + |del| > 0;
    }

    /** The objects filed under an owner, in whatever order the bucket yields them. */
    method GetByKey(owner: ObjectName) returns (subs: seq<Ep>)
      requires Valid()
      ensures Lists(Index(), owner, subs)
    {
      subs := [];
      IndexSound();
      BucketMembers(byOwner, nested, owner);
      var todo := if owner in byOwner then byOwner[owner] else {};
      ghost var done := {};
      while todo != {}
        invariant todo !! done && todo + done == Bucket(byOwner, owner)
        invariant forall i, j :: 0 <= i < j < |subs| ==> subs[i].key != subs[j].key
        invariant forall e :: e in subs <==> e.key in done && e == Index()[e.key].sub
      {
        var k :| k in todo;
        subs := subs + [nested[k].sub];
        todo, done := todo - {k}, done + {k};
      }
      assert done == Bucket(byOwner, owner);
    }

    method Setup(objs: map<ObjectName, Ep>)
      requires Valid() && Index() == map[]
      requires forall k :: k in objs ==> objs[k].key == k
      modifies this
      ensures Valid() && Index() == FiledStore(objs)
    {
      var todo := objs.Keys;
      ghost var done := {};
      while todo != {}
        invariant Valid() && todo !! done && todo + done == objs.Keys
        invariant Index() == FiledPart(objs, done)
      {
        var k :| k in todo;
        FiledOneMore(objs, done, k);
        AddToAll(Owners(objs[k]), objs[k]);
        todo, done := todo - {k}, done + {k};
      }
      assert done == objs.Keys;
    }
  }
}
