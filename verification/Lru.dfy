/** The cache as the source stores it: a map from key to a map from command to list element,
    beside the recency list. An element is named by its entry's id. Every method is proved
    against the operation of the same name in LruSpec. */
module Lru {
  import opened Common
  import opened Message
  import Spec = LruSpec
  import opened LruSpec

  type Store = map<Text, map<Text, nat>>

  function Lookup(store: Store, p: Pair): Option<nat> {
    if p.0 in store && p.1 in store[p.0] then Some(store[p.0][p.1]) else None
  }

  /** delete(kc.cache, cmd), and the key with it when that was its last command. */
  function Unlinked(store: Store, p: Pair): Store
    requires p.0 in store
  {
    if store[p.0].Keys <= {p.1} then store - {p.0} else store[p.0 := store[p.0] - {p.1}]
  }

  /** kc.cache[cmd] = element, with a fresh kc when the key has none. */
  function Linking(store: Store, p: Pair, id: nat): Store {
    store[p.0 := (if p.0 in store then store[p.0] else map[])[p.1 := id]]
  }

  function IndexOf(list: seq<Entry>, id: nat): (i: nat)
    ensures i <= |list| && (i < |list| ==> list[i].id == id)
    ensures i == |list| ==> forall e :: e in list ==> e.id != id
  {
    if list == [] || list[0].id == id then 0 else 1 + IndexOf(list[1..], id)
  }

  /** list.Remove of the element at index i. */
  function RemoveAt(list: seq<Entry>, i: nat): seq<Entry>
    requires i < |list|
  {
    list[..i] + list[i + 1..]
  }

  /** The element that the store names for p. */
  ghost predicate Names(list: seq<Entry>, id: nat, p: Pair) {
    exists e {:trigger e in list} :: e in list && e.id == id && e.Pair() == p
  }

  /** List elements and store entries are in bijection and no per-key map is empty. */
  ghost predicate Linked(store: Store, list: seq<Entry>) {
    && (forall e {:trigger e in list} :: e in list ==> Lookup(store, e.Pair()) == Some(e.id))
    && (forall p: Pair :: Lookup(store, p).Some? ==> Names(list, Lookup(store, p).value, p))
    && (forall k :: k in store ==> store[k] != map[])
  }

  lemma {:induction false} LookupIsFind(store: Store, list: seq<Entry>, p: Pair)
    requires Linked(store, list) && Unique(list)
    ensures match Lookup(store, p)
            case None => Find(list, p) == None
            case Some(id) => IndexOf(list, id) < |list| && Find(list, p) == Some(list[IndexOf(list, id)])
  {
    var l, f := Lookup(store, p), Find(list, p);
    FindMember(list, p);
    if l.Some? {
      assert Names(list, l.value, p);
      FindUnique(list, f.value);
    }
  }

  lemma LookupUnlinked(store: Store, q: Pair, p: Pair)
    requires q.0 in store
    ensures Lookup(Unlinked(store, q), p) == if p == q then None else Lookup(store, p)
  {
  }

  lemma {:induction false} UnlinkLinked(store: Store, list: seq<Entry>, e: Entry)
    requires Linked(store, list) && Unique(list) && e in list
    ensures e.key in store && Linked(Unlinked(store, e.Pair()), Drop(list, {e.Pair()}))
  {
    assert Lookup(store, e.Pair()) == Some(e.id);
    DropMembers(list, {e.Pair()});
    var store', list' := Unlinked(store, e.Pair()), Drop(list, {e.Pair()});
    forall x | x in list' ensures Lookup(store', x.Pair()) == Some(x.id) {
      LookupUnlinked(store, e.Pair(), x.Pair());
    }
    forall p: Pair | Lookup(store', p).Some? ensures Names(list', Lookup(store', p).value, p) {
      LookupUnlinked(store, e.Pair(), p);
      assert Names(list, Lookup(store, p).value, p);
    }
    forall k | k in store' ensures store'[k] != map[] {
      if k == e.key {
        var m :| m in store[k].Keys && m !in {e.cmd};
        assert m in store'[k];
      }
    }
  }

  lemma {:induction false} InsertLinked(store: Store, list: seq<Entry>, e: Entry)
    requires Linked(store, list) && Lookup(store, e.Pair()) == None
    ensures Linked(Linking(store, e.Pair(), e.id), list + [e])
  {
    var store' := Linking(store, e.Pair(), e.id);
    assert forall p: Pair :: Lookup(store', p) == if p == e.Pair() then Some(e.id) else Lookup(store, p);
    forall p: Pair | Lookup(store', p).Some? ensures Names(list + [e], Lookup(store', p).value, p) {
      assert e in list + [e];
      if p != e.Pair() {
        var x :| x in list && x.id == Lookup(store, p).value && x.Pair() == p;
        assert x in list + [e];
      }
    }
    assert e.cmd in store'[e.key];
  }

  /** Another list of the same elements, each with its id and pair, is linked alike. */
  lemma {:induction false} RelistLinked(store: Store, list: seq<Entry>, list': seq<Entry>)
    requires Linked(store, list)
    requires forall x {:trigger x in list'} :: x in list' ==> Names(list, x.id, x.Pair())
    requires forall x {:trigger x in list} :: x in list ==> Names(list', x.id, x.Pair())
    ensures Linked(store, list')
  {
    forall p: Pair | Lookup(store, p).Some? ensures Names(list', Lookup(store, p).value, p) {
      assert Names(list, Lookup(store, p).value, p);
    }
  }

  lemma {:induction false} DropAppend(a: seq<Entry>, b: seq<Entry>, gone: set<Pair>)
    ensures Drop(a + b, gone) == Drop(a, gone) + Drop(b, gone)
  {
    if a == [] {
      assert a + b == b;
    } else {
      assert (a + b)[1..] == a[1..] + b;
      DropAppend(a[1..], b, gone);
    }
  }

  lemma {:induction false} RemoveIsDrop(v: seq<Entry>, i: nat)
    requires Unique(v) && i < |v|
    ensures RemoveAt(v, i) == Drop(v, {v[i].Pair()})
  {
    if i == 0 {
      assert forall e :: e in v[1..] ==> e.Pair() != v[0].Pair();
      DropNothing(v[1..], {v[0].Pair()});
    } else {
      RemoveIsDrop(v[1..], i - 1);
      assert v[0].Pair() != v[i].Pair();
      assert RemoveAt(v, i) == [v[0]] + RemoveAt(v[1..], i - 1);
    }
  }

  /** The eviction loop from index i on. */
  ghost function EvictFrom(v: seq<Entry>, i: nat, size: int, max: int): (seq<Entry>, int)
    decreases |v| - i
  {
    if size <= max || i >= |v| then (v, size)
    else if v[i].Pending() then EvictFrom(v, i + 1, size, max)
    else EvictFrom(RemoveAt(v, i), i, size - v[i].size, max)
  }

  lemma EvictFromNext(v: seq<Entry>, i: nat, size: int, max: int, w: seq<Entry>, want: (seq<Entry>, int))
    requires i < |v| && size > max && EvictFrom(v, i, size, max) == want
    requires w == if v[i].Pending() then v else RemoveAt(v, i)
    ensures EvictFrom(w, if v[i].Pending() then i + 1 else i,
                      if v[i].Pending() then size else size - v[i].size, max) == want
  {
  }

  lemma {:induction false} EvictFromIsEvict(v: seq<Entry>, i: nat, size: int, max: int)
    requires i <= |v|
    ensures EvictFrom(v, i, size, max) == (v[..i] + Evict(v[i..], size, max).0, Evict(v[i..], size, max).1)
    decreases |v| - i
  {
    if size <= max || i == |v| {
      assert v[..i] + v[i..] == v;
    } else if v[i].Pending() {
      EvictFromIsEvict(v, i + 1, size, max);
      var r := Evict(v[i + 1..], size, max).0;
      assert v[i..][1..] == v[i + 1..];
      assert v[..i + 1] + r == v[..i] + ([v[i]] + r);
    } else {
      var w := RemoveAt(v, i);
      EvictFromIsEvict(w, i, size - v[i].size, max);
      assert w[..i] == v[..i] && w[i..] == v[i + 1..] == v[i..][1..];
    }
  }

  lemma {:induction false} ReplaceLinked(store: Store, list: seq<Entry>, e: Entry, done: Entry)
    requires Linked(store, list) && Unique(list) && e in list && done.id == e.id && done.Pair() == e.Pair()
    ensures Linked(store, Replace(list, done))
  {
    var list' := Replace(list, done);
    OthersDiffer(list, e);
    forall i | 0 <= i < |list|
      ensures Names(list', list[i].id, list[i].Pair()) && Names(list, list'[i].id, list'[i].Pair())
    {
      assert list'[i] in list' && list[i] in list;
    }
    RelistLinked(store, list, list');
  }

  class Lru {
    var open: bool
    var store: Store
    var list: seq<Entry>
    var size: int
    var next: nat
    /** The closed channels, with what their waiters read. */
    var settled: map<nat, Outcome>
    const max: nat

    ghost function Abs(): Cache
      reads this
    {
      Cache(open, list, size, max, next, settled)
    }

    ghost predicate Valid()
      reads this
    {
      Linked(store, list) && Inv(Abs())
    }

    constructor (max: nat)
      ensures Valid() && Abs() == NEW.(max := max)
    {
      this.max := max;
      open, store, list, size, next, settled := true, map[], [], 0, 0, map[];
    }

    /** The two-level lookup that starts every operation, down to the element. */
    method Get(p: Pair) returns (e: Option<Entry>)
      requires Linked(store, list) && Unique(list)
      ensures e == Find(list, p) && (e.None? <==> Lookup(store, p) == None)
      ensures (e.Some? ==> e.value in list && e.value.Pair() == p)
    {
      FindMember(list, p);
      LookupIsFind(store, list, p);
      e := if p.0 in store && p.1 in store[p.0] then Some(list[IndexOf(list, store[p.0][p.1])]) else None;
    }

    method MoveToBack(e: Entry)
      requires Linked(store, list) && Unique(list) && e in list
      modifies this`list
      ensures Linked(store, list) && list == ToBack(old(list), e)
    {
      var i := IndexOf(list, e.id);
      OthersDiffer(list, e);
      RemoveIsDrop(list, i);
      DropMembers(list, {e.Pair()});
      var list' := RemoveAt(list, i) + [e];
      forall x | x in list ensures Names(list', x.id, x.Pair()) {
        assert x in list';
      }
      RelistLinked(store, list, list');
      list := list';
    }

    /** list.Remove(ele) and delete(kc.cache, cmd), with the key when it was its last command. */
    method Remove(e: Entry)
      requires Linked(store, list) && Unique(list) && e in list
      modifies this`store, this`list
      ensures Linked(store, list) && list == Drop(old(list), {e.Pair()})
      ensures Unique(list) && Sum(list) == Sum(old(list)) - e.size && Lookup(store, e.Pair()) == None
    {
      var i := IndexOf(list, e.id);
      OthersDiffer(list, e);
      RemoveIsDrop(list, i);
      UnlinkLinked(store, list, e);
      DropUnique(list, {e.Pair()});
      DropSum(list, e);
      LookupUnlinked(store, e.Pair(), e.Pair());
      store, list := Unlinked(store, e.Pair()), RemoveAt(list, i);
    }

    /** The miss: an expired entry makes room, and a pending one is pushed to the back. */
    method Replenish(p: Pair, f: Option<Entry>, e: Entry)
      requires Linked(store, list) && Unique(list) && f == Find(list, p) && e.Pair() == p
      requires if f.Some? then f.value in list && f.value.Pair() == p else Lookup(store, p) == None
      modifies this`store, this`list, this`size
      ensures Linked(store, list) && list == Drop(old(list), {p}) + [e]
      ensures size == old(size) - (if f.Some? then f.value.size else 0)
    {
      if f.Some? {
        Remove(f.value);
        size := size - f.value.size;
      } else {
        FindMember(list, p);
        DropNothing(list, {p});
      }
      InsertLinked(store, list, e);
      store, list := Linking(store, p, e.id), list + [e];
    }

    method Acquire(p: Pair, ttl: int, now: int) returns (r: Flown)
      requires Valid()
      modifies this
      ensures Valid() && (Abs(), r) == Spec.Acquire(old(Abs()), p, ttl, now)
    {
      if !open { return Miss; }
      ghost var c := Abs();
      AcquireInv(c, p, ttl, now);
      var f := Get(p);
      if f.Some? && f.value.Live(now) {
        MoveToBack(f.value);
        r := Answer(f.value);
        LiveIs(c, p, ttl, now, f.value, Abs());
      } else {
        Replenish(p, f, Entry(next, p.0, p.1, ZERO.(ttl := Expiry(now + ttl)), 0));
        next := next + 1;
        r := Miss;
        MissIs(c, p, ttl, now, f, Abs());
      }
    }

    /** The move of the one hit in 1024, when it gets the write lock only after others did. */
    method Touch(id: nat)
      requires Valid()
      modifies this`list
      ensures Valid() && Abs() == Spec.Touch(old(Abs()), id)
    {
      var f := FindId(list, id);
      if f.Some? {
        FindIdMember(list, id);
        ToBackInv(Abs(), f.value);
        MoveToBack(f.value);
      }
    }

    /** `move`: this is the one hit in 1024 after which the source refreshes the recency. */
    method Flight(p: Pair, ttl: int, now: int, move: bool) returns (r: Flown)
      requires Valid()
      modifies this
      ensures Valid() && (Abs(), r) == Spec.Flight(old(Abs()), p, ttl, now, move)
    {
      var f := Get(p);
      if f.Some? && f.value.Live(now) {
        if move {
          ToBackInv(Abs(), f.value);
          MoveToBack(f.value);
        }
        return Answer(f.value);
      }
      r := Acquire(p, ttl, now);
    }

    method Cancel(p: Pair, err: Error)
      requires Valid()
      modifies this
      ensures Valid() && Abs() == Spec.Cancel(old(Abs()), p, err)
    {
      ghost var want := Spec.Cancel(Abs(), p, err);
      CancelInv(Abs(), p, err);
      var f := Get(p);
      if f.Some? && f.value.Pending() {
        Remove(f.value);
        settled := settled[f.value.id := Failed(err)];
      }
      assert Abs() == want;
    }

    /** e.val = value: the entry completes and its channel is closed. */
    method Complete(e: Entry, value: Msg)
      requires Linked(store, list) && Unique(list) && e in list
      modifies this`list, this`size, this`settled
      ensures Linked(store, list) && Abs() == Fill(old(Abs()), e, value)
    {
      var v := Clamp(value, e.val.ttl);
      var done := e.(val := v, size := EntrySize(e.key, e.cmd, v));
      ReplaceLinked(store, list, e, done);
      list := Replace(list, done);
      size := size + done.size;
      settled := settled[e.id := Value(v)];
    }

    /** A completed entry met by that walk goes. */
    method EvictAt(i: nat, ghost want: (seq<Entry>, int))
      requires Linked(store, list) && Unique(list) && i < |list| && !list[i].Pending() && size > max
      requires EvictFrom(list, i, size, max) == want
      modifies this`store, this`list, this`size
      ensures Linked(store, list) && Unique(list) && |list| == |old(list)| - 1
      ensures EvictFrom(list, i, size, max) == want
    {
      ghost var v := list;
      var e := list[i];
      RemoveIsDrop(v, i);
      Remove(e);
      size := size - e.size;
      EvictFromNext(v, i, size + e.size, max, list, want);
    }

    /** The walk from the front of the list in Update. */
    method EvictFromFront()
      requires Linked(store, list) && Unique(list)
      modifies this`store, this`list, this`size
      ensures Linked(store, list)
      ensures (list, size) == Evict(old(list), old(size), max)
    {
      ghost var want := Evict(list, size, max);
      var i := 0;
      EvictFromIsEvict(list, 0, size, max);
      assert list[0..] == list && list[..0] + want.0 == want.0;
      while size > max && i < |list|
        invariant i <= |list| && Linked(store, list) && Unique(list)
        invariant EvictFrom(list, i, size, max) == want
        decreases |list| - i
      {
        if list[i].Pending() {
          EvictFromNext(list, i, size, max, list, want);
          i := i + 1;
        } else {
          EvictAt(i, want);
        }
      }
    }

    /** A pending entry completes; the reply is given the entry's expiry, 0 if there was none. */
    method CompletePending(e: Entry, value: Msg) returns (pxat: nat)
      requires Valid() && open && e in list && value.typ != 0
      modifies this`list, this`size, this`settled
      ensures Linked(store, list) && Unique(list)
      ensures Abs() == (if e.Pending() then Fill(old(Abs()), e, value) else old(Abs()))
      ensures pxat == if e.Pending() then Clamp(value, e.val.ttl).ttl else 0
    {
      pxat := 0;
      if e.Pending() {
        FillUnique(Abs(), e, value);
        Complete(e, value);
        pxat := Clamp(value, e.val.ttl).ttl;
      }
    }

    method Update(p: Pair, value: Msg) returns (pxat: nat)
      requires Valid() && value.typ != 0
      modifies this
      ensures Valid() && (Abs(), pxat) == Spec.Update(old(Abs()), p, value)
    {
      ghost var c := Abs();
      UpdateInv(c, p, value);
      pxat := 0;
      var f := Get(p);
      if f.Some? {
        pxat := CompletePending(f.value, value);
        ghost var filled := Abs();
        EvictFromFront();
        UpdateIs(c, p, value, f.value, filled, Abs());
      }
    }

    /** One command of a key: its entry goes if it is completed. */
    method PurgeOne(key: Text, cmd: Text, ghost l0: seq<Entry>, ghost gone: set<Pair>) returns (ghost more: set<Pair>)
      requires Linked(store, list) && Unique(list) && list == Drop(l0, gone) && gone <= Purged(l0, Some({key}))
      modifies this`store, this`list, this`size
      ensures Linked(store, list) && Unique(list) && list == Drop(l0, more)
      ensures size - Sum(list) == old(size) - Sum(old(list))
      ensures gone <= more <= Purged(l0, Some({key})) && ((key, cmd) in Purged(l0, Some({key})) ==> (key, cmd) in more)
    {
      more := gone;
      var f := Get((key, cmd));
      DropMembers(l0, gone);
      if f.Some? && !f.value.Pending() {
        DropTwice(l0, gone, {(key, cmd)});
        Remove(f.value);
        size := size - f.value.size;
        more := gone + {(key, cmd)};
      } else {
        NotPurged(l0, gone, (key, cmd), list);
      }
    }

    /** purge: the completed entries of one key, in whatever order the map yields them. */
    method Purge(key: Text)
      requires Linked(store, list) && Unique(list)
      modifies this`store, this`list, this`size
      ensures Linked(store, list) && Unique(list)
      ensures list == Drop(old(list), Purged(old(list), Some({key})))
      ensures size - Sum(list) == old(size) - Sum(old(list))
    {
      ghost var l0, gone: set<Pair> := list, {};
      ghost var all := Purged(l0, Some({key}));
      DropNothing(l0, {});
      var todo := if key in store then store[key].Keys else {};
      PurgedAreLinked(store, l0, key);
      while todo != {}
        invariant Linked(store, list) && Unique(list) && list == Drop(l0, gone)
        invariant size - Sum(list) == old(size) - Sum(l0)
        invariant gone <= all
        invariant forall p :: p in all && p !in gone ==> p.0 == key && p.1 in todo
      {
        var cmd :| cmd in todo;
        todo := todo - {cmd};
        gone := PurgeOne(key, cmd, l0, gone);
      }
      assert gone == all;
    }

    /** Some keys, in whatever order the map yields them. */
    method PurgeSet(keys: set<Text>)
      requires Linked(store, list) && Unique(list)
      modifies this`store, this`list, this`size
      ensures Linked(store, list) && list == Drop(old(list), Purged(old(list), Some(keys)))
      ensures size - Sum(list) == old(size) - Sum(old(list))
    {
      ghost var l0, done: set<Text> := list, {};
      PurgedNone(l0);
      var todo := keys;
      while todo != {}
        invariant Linked(store, list) && Unique(list) && list == Drop(l0, Purged(l0, Some(done)))
        invariant size - Sum(list) == old(size) - Sum(l0) && done == keys - todo && todo <= keys
      {
        var key :| key in todo;
        Purge(key);
        PurgedMore(l0, done, key);
        todo, done := todo - {key}, done + {key};
      }
      assert done == keys;
    }

    /** Every key in the store. */
    method PurgeStore()
      requires Linked(store, list) && Unique(list)
      modifies this`store, this`list, this`size
      ensures Linked(store, list) && list == Drop(old(list), Purged(old(list), None))
      ensures size - Sum(list) == old(size) - Sum(old(list))
    {
      forall e | e in list ensures e.key in store { assert Lookup(store, e.Pair()).Some?; }
      PurgedAll(list, store.Keys);
      PurgeSet(store.Keys);
    }

    method PurgeKeys(keys: seq<Text>)
      requires Linked(store, list) && Unique(list)
      modifies this`store, this`list, this`size
      ensures Linked(store, list) && list == Drop(old(list), Purged(old(list), Some(set k | k in keys)))
      ensures size - Sum(list) == old(size) - Sum(old(list))
    {
      ghost var l0, done: set<Text> := list, {};
      PurgedNone(l0);
      for i := 0 to |keys|
        invariant Linked(store, list) && Unique(list) && list == Drop(l0, Purged(l0, Some(done)))
        invariant size - Sum(list) == old(size) - Sum(l0) && done == set k | k in keys[..i]
      {
        Purge(keys[i]);
        PurgedMore(l0, done, keys[i]);
        done := done + {keys[i]};
        assert keys[..i + 1] == keys[..i] + [keys[i]];
      }
      assert keys[..|keys|] == keys;
    }

    /** An invalidation: of the given keys, or of every key when the list is nil. */
    method Delete(keys: Option<seq<Text>>)
      requires Valid()
      modifies this
      ensures Valid() && Abs() == Spec.Delete(old(Abs()), if keys.None? then None else Some(set k | k in keys.value))
    {
      ghost var want := Spec.Delete(Abs(), if keys.None? then None else Some(set k | k in keys.value));
      DeleteInv(Abs(), if keys.None? then None else Some(set k | k in keys.value));
      if keys.None? {
        PurgeStore();
      } else {
        PurgeKeys(keys.value);
      }
      assert list == want.list && size == want.size;
    }

    /** Closes the channel of every pending entry; none of them is closed already. */
    method FailPending(err: Error)
      requires Valid()
      modifies this`settled
      ensures settled == old(settled) + Failures(list, err)
    {
      ghost var c := Abs();
      for i := 0 to |list|
        invariant settled == c.settled + Failures(list[..i], err)
      {
        var e := list[i];
        FailOneMore(c.settled, list, i, err);
        if e.Pending() {
          StillOpen(c, i, err);
          assert e.id !in settled;
          settled := settled[e.id := Failed(err)];
        }
      }
      assert list[..|list|] == list;
    }

    /** Every pending entry fails, then the store and the list are dropped for good. */
    method Close(err: Error)
      requires Valid()
      modifies this
      ensures Valid() && Abs() == Spec.Close(old(Abs()), err)
    {
      CloseInv(Abs(), err);
      FailPending(err);
      store, list, open := map[], [], false;
    }

    /** The first pass of Flights, under the read lock: what is there is answered or awaited. */
    method Scan(reqs: seq<Request>, now: int, moves: seq<bool>)
      returns (out: seq<Flown>, missed: seq<nat>, moved: seq<Entry>)
      requires Valid() && |moves| == |reqs|
      ensures Scanned(Abs(), reqs, now, |reqs|, out, missed)
      ensures forall e :: e in moved ==> e in list
    {
      out, missed, moved := [], [], [];
      for i := 0 to |reqs|
        invariant Scanned(Abs(), reqs, now, i, out, missed)
        invariant forall e :: e in moved ==> e in list
      {
        var f := Get(reqs[i].p);
        ScannedNext(Abs(), reqs, now, i, out, missed, f);
        if f.Some? && f.value.Live(now) {
          out := out + [Answer(f.value)];
          if moves[i] { moved := moved + [f.value]; }
        } else {
          out, missed := out + [Miss], missed + [i];
        }
      }
    }

    method MoveAll(moved: seq<Entry>)
      requires Valid() && forall e :: e in moved ==> e in list
      modifies this`list
      ensures Valid() && Same(old(Abs()), Abs())
    {
      for i := 0 to |moved|
        invariant Valid() && Same(old(Abs()), Abs())
      {
        assert moved[i] in moved;
        ToBackInv(Abs(), moved[i]);
        ToBackSame(Abs(), moved[i]);
        MoveToBack(moved[i]);
      }
    }

    /** One missed index is acquired; the indices up to the next missed one are settled already. */
    method AcquireNext(reqs: seq<Request>, now: int, first: seq<Flown>, known: seq<Flown>, todo: seq<nat>, j: nat,
                       ghost c0: Cache)
      returns (out: seq<Flown>)
      requires Valid() && Scanned(c0, reqs, now, |reqs|, first, todo) && j < |todo|
      requires FlownTo(c0, reqs, now, todo[j], Abs(), known, first)
      modifies this
      ensures Valid() && |out| == |known| && out == known[todo[j] := out[todo[j]]]
      ensures FlownTo(c0, reqs, now, Stop(todo, j + 1, |reqs|), Abs(), out, first)
    {
      var i := todo[j];
      ghost var d := Abs();
      var r := Acquire(reqs[i].p, reqs[i].ttl, now);
      FlownAcquire(c0, reqs, now, i, d, known, first, Abs(), r);
      out := known[i := r];
      BetweenStops(c0, reqs, now, first, todo, j);
      FlownOver(c0, reqs, now, i + 1, Abs(), out, first, Stop(todo, j + 1, |reqs|));
    }

    /** The second pass of Flights, under the write lock: the missed indices are acquired, and
        the returned ones are those that stay misses. */
    method AcquireMissed(reqs: seq<Request>, now: int, first: seq<Flown>, todo: seq<nat>)
      returns (out: seq<Flown>, missed: seq<nat>)
      requires Valid() && Scanned(Abs(), reqs, now, |reqs|, first, todo)
      modifies this
      ensures Valid() && (Abs(), out) == Spec.Flights(old(Abs()), old(Abs()), reqs, now)
      ensures forall i: nat :: i in missed <==> i in todo && i < |out| && out[i] == Miss
      ensures Increasing(missed)
    {
      ghost var c0 := Abs();
      out := first;
      FlownOver(c0, reqs, now, 0, c0, out, first, Stop(todo, 0, |reqs|));
      for j := 0 to |todo|
        invariant Valid() && FlownTo(c0, reqs, now, Stop(todo, j, |reqs|), Abs(), out, first)
      {
        out := AcquireNext(reqs, now, first, out, todo, j, c0);
      }
      assert reqs[..|reqs|] == reqs && out[..|reqs|] == out;
      missed := StillMissed(todo, out);
    }

    /** The missed indices that nobody else was fetching, in order. */
    static method StillMissed(todo: seq<nat>, out: seq<Flown>) returns (missed: seq<nat>)
      requires Increasing(todo) && forall j :: 0 <= j < |todo| ==> todo[j] < |out|
      ensures forall i: nat :: i in missed <==> i in todo && i < |out| && out[i] == Miss
      ensures Increasing(missed)
    {
      missed := [];
      for j := 0 to |todo|
        invariant forall i: nat :: i in missed <==> i in todo[..j] && out[i] == Miss
        invariant Increasing(missed) && forall a :: 0 <= a < |missed| ==> missed[a] in todo[..j]
      {
        assert forall a :: 0 <= a < |missed| ==> missed[a] < todo[j];
        assert todo[..j + 1] == todo[..j] + [todo[j]];
        if out[todo[j]] == Miss { missed := missed + [todo[j]]; }
      }
      assert todo[..|todo|] == todo;
    }

    /** Flights: one scan, then only the missed indices are acquired. out[i] stands for
        results[i] (a hit) or entries[i] (a wait); `missed` lists the misses. */
    method Flights(reqs: seq<Request>, now: int, moves: seq<bool>)
      returns (out: seq<Flown>, missed: seq<nat>, ghost c0: Cache)
      requires Valid() && |moves| == |reqs|
      modifies this
      ensures Valid() && Inv(c0) && Same(old(Abs()), c0)
      ensures (Abs(), out) == Spec.Flights(c0, c0, reqs, now)
      ensures forall i: nat :: i in missed <==> i < |reqs| && out[i] == Miss
      ensures Increasing(missed)
    {
      ghost var c := Abs();
      var first, todo, moved := Scan(reqs, now, moves);
      MoveAll(moved);
      c0 := Abs();
      SameScanned(c, c0, reqs, now, first, todo);
      out, missed := AcquireMissed(reqs, now, first, todo);
      OnlyTodoMisses(c0, reqs, now, Abs(), out, todo);
    }
  }

  predicate Increasing(s: seq<nat>) {
    forall j, k :: 0 <= j < k < |s| ==> s[j] < s[k]
  }

  /** What the first pass knows about the first n indices. */
  ghost predicate Scanned(c: Cache, reqs: seq<Request>, now: int, n: nat, out: seq<Flown>, missed: seq<nat>) {
    && n <= |reqs| && |out| == n
    && (forall j :: 0 <= j < |missed| ==> missed[j] < n && Found(c, reqs[missed[j]].p, now).None?)
    && (forall j, k :: 0 <= j < k < |missed| ==> missed[j] < missed[k])
    && (forall i :: 0 <= i < n && i !in missed ==> Found(c, reqs[i].p, now) == Some(out[i]))
  }

  lemma ScannedNext(c: Cache, reqs: seq<Request>, now: int, n: nat, out: seq<Flown>, missed: seq<nat>,
                    f: Option<Entry>)
    requires n < |reqs| && Scanned(c, reqs, now, n, out, missed) && f == Find(c.list, reqs[n].p)
    ensures if f.Some? && f.value.Live(now) then Scanned(c, reqs, now, n + 1, out + [Answer(f.value)], missed)
            else Scanned(c, reqs, now, n + 1, out + [Miss], missed + [n])
  {
  }

  lemma {:induction false} SameScanned(c: Cache, d: Cache, reqs: seq<Request>, now: int, out: seq<Flown>,
                                       missed: seq<nat>)
    requires Scanned(c, reqs, now, |reqs|, out, missed) && Inv(c) && Inv(d) && Same(c, d)
    ensures Scanned(d, reqs, now, |reqs|, out, missed)
  {
    forall i | 0 <= i < |reqs| ensures Found(d, reqs[i].p, now) == Found(c, reqs[i].p, now) {
      SameFound(c, d, reqs[i].p, now);
    }
  }

  /** Nothing between two missed indices is missed. */
  lemma BetweenStops(c: Cache, reqs: seq<Request>, now: int, first: seq<Flown>, todo: seq<nat>, j: nat)
    requires Scanned(c, reqs, now, |reqs|, first, todo) && j < |todo|
    ensures todo[j] < Stop(todo, j + 1, |reqs|) <= |reqs|
    ensures forall i :: todo[j] < i < Stop(todo, j + 1, |reqs|) ==> Found(c, reqs[i].p, now) == Some(first[i])
  {
  }

  lemma {:induction false} OnlyTodoMisses(c0: Cache, reqs: seq<Request>, now: int, c: Cache, out: seq<Flown>,
                                          todo: seq<nat>)
    requires (c, out) == Spec.Flights(c0, c0, reqs, now)
    requires forall i :: 0 <= i < |reqs| && i !in todo ==> Found(c0, reqs[i].p, now).Some?
    ensures forall i :: 0 <= i < |reqs| && out[i] == Miss ==> i in todo
    decreases |reqs|
  {
    if reqs != [] {
      var n := |reqs| - 1;
      var (d, o) := Spec.Flights(c0, c0, reqs[..n], now);
      OnlyTodoMisses(c0, reqs[..n], now, d, o, todo);
    }
  }

  /** The first index that is still to be acquired. */
  ghost function Stop(todo: seq<nat>, j: nat, end: nat): nat
    requires j <= |todo|
  {
    if j < |todo| then todo[j] else end
  }

  lemma {:induction false} FailOneMore(settled: map<nat, Outcome>, list: seq<Entry>, i: nat, err: Error)
    requires i < |list|
    ensures var was := settled + Failures(list[..i], err);
            settled + Failures(list[..i + 1], err) == if list[i].Pending() then was[list[i].id := Failed(err)] else was
  {
    assert list[..i + 1][..i] == list[..i];
  }

  /** No channel is closed twice by Close. */
  lemma {:induction false} StillOpen(c: Cache, i: nat, err: Error)
    requires Inv(c) && i < |c.list| && c.list[i].Pending()
    ensures c.list[i].id !in c.settled + Failures(c.list[..i], err)
  {
    assert EntryOk(c, c.list[i]);
    FailuresArePending(c.list[..i], err);
  }

  lemma {:induction false} PurgedAreLinked(store: Store, list: seq<Entry>, key: Text)
    requires Linked(store, list)
    ensures forall p :: p in Purged(list, Some({key})) ==> p.0 == key && key in store && p.1 in store[key]
  {
    forall p | p in Purged(list, Some({key})) ensures p.0 == key && key in store && p.1 in store[key] {
      var e :| e in list && !e.Pending() && e.key in {key} && e.Pair() == p;
      assert Lookup(store, e.Pair()).Some?;
    }
  }

  lemma {:induction false} NotPurged(l0: seq<Entry>, gone: set<Pair>, p: Pair, list: seq<Entry>)
    requires list == Drop(l0, gone) && Unique(list)
    requires Find(list, p).None? || Find(list, p).value.Pending()
    ensures p in Purged(l0, Some({p.0})) ==> p in gone
  {
    if p in Purged(l0, Some({p.0})) && p !in gone {
      var e :| e in l0 && !e.Pending() && e.Pair() == p;
      DropMembers(l0, gone);
      FindUnique(list, e);
    }
  }

  lemma {:induction false} PurgedNone(list: seq<Entry>)
    ensures Drop(list, Purged(list, Some({}))) == list
  {
    DropNothing(list, Purged(list, Some({})));
  }

  /** Purging one more key after others. */
  lemma {:induction false} PurgedMore(l0: seq<Entry>, done: set<Text>, key: Text)
    ensures var l := Drop(l0, Purged(l0, Some(done)));
            Drop(l, Purged(l, Some({key}))) == Drop(l0, Purged(l0, Some(done + {key})))
  {
    var a := Purged(l0, Some(done));
    var l := Drop(l0, a);
    var b, ab := Purged(l, Some({key})), Purged(l0, Some(done + {key}));
    DropMembers(l0, a);
    DropTwice(l0, a, b);
    forall p | p in ab ensures p in a + b {
      var e :| e in l0 && !e.Pending() && e.key in done + {key} && e.Pair() == p;
      assert p !in a ==> e in l;
    }
    assert a + b == ab;
  }

  lemma PurgedAll(l0: seq<Entry>, keys: set<Text>)
    requires forall e :: e in l0 ==> e.key in keys
    ensures Purged(l0, Some(keys)) == Purged(l0, None)
  {
  }

  /** An entry that is there and live: it goes to the back and answers. */
  lemma LiveIs(c: Cache, p: Pair, ttl: int, now: int, e: Entry, after: Cache)
    requires c.open && Find(c.list, p) == Some(e) && e.Live(now) && after == c.(list := ToBack(c.list, e))
    ensures Spec.Acquire(c, p, ttl, now) == (after, Answer(e))
  {
  }

  /** A miss: what is there goes, and a pending entry comes to the back. */
  lemma MissIs(c: Cache, p: Pair, ttl: int, now: int, f: Option<Entry>, after: Cache)
    requires c.open && f == Find(c.list, p) && !(f.Some? && f.value.Live(now))
    requires after.list == Drop(c.list, {p}) + [Entry(c.next, p.0, p.1, ZERO.(ttl := Expiry(now + ttl)), 0)]
    requires after.size == c.size - (if f.Some? then f.value.size else 0)
    requires after == c.(list := after.list, size := after.size, next := c.next + 1)
    ensures Spec.Acquire(c, p, ttl, now) == (after, Miss)
  {
  }

  /** An update of an entry that is there: complete it, then evict. */
  lemma UpdateIs(c: Cache, p: Pair, value: Msg, e: Entry, filled: Cache, after: Cache)
    requires c.open && Find(c.list, p) == Some(e)
    requires filled == if e.Pending() then Fill(c, e, value) else c
    requires after == filled.(list := after.list, size := after.size)
    requires (after.list, after.size) == Evict(filled.list, filled.size, filled.max)
    ensures Spec.Update(c, p, value) == (after, if e.Pending() then Clamp(value, e.val.ttl).ttl else 0)
  {
  }

  lemma {:induction false} FillUnique(c: Cache, e: Entry, value: Msg)
    requires Inv(c) && e in c.list
    ensures Unique(Fill(c, e, value).list)
  {
    OthersDiffer(c.list, e);
    ReplaceUnique(c.list, e.(val := Clamp(value, e.val.ttl), size := EntrySize(e.key, e.cmd, Clamp(value, e.val.ttl))));
  }
}
