/** The client-side cache as a value: a recency list of entries, oldest first, and what
    every operation does to it. Module Lru shows that the two-level map and linked list
    of the source do exactly this. */
module LruSpec {
  import opened Common
  import opened Message

  type Text = seq<byte>
  type Error = nat
  type Pair = (Text, Text)

  // Sizes in bytes on a 64-bit machine.
  const MESSAGE_SIZE := 40
  const KEY_CACHE_SIZE := 32 + 8
  const ENTRY_SIZE := 96 + 8
  const ELEMENT_SIZE := 40 + 8
  const STRING_SIZE := 16
  const ENTRY_BASE_SIZE := (KEY_CACHE_SIZE + ENTRY_SIZE + ELEMENT_SIZE + STRING_SIZE * 2) * 3 / 2

  function ApproximateSize(m: Msg): nat {
    MESSAGE_SIZE + |m.Text()| + (if m.body.Arr? then ApproximateSizes(m.body.vs) else 0)
  }

  function ApproximateSizes(vs: seq<Msg>): nat {
    if vs == [] then 0 else ApproximateSize(vs[0]) + ApproximateSizes(vs[1..])
  }

  function EntrySize(key: Text, cmd: Text, value: Msg): nat {
    ENTRY_BASE_SIZE + 2 * (|key| + |cmd|) + ApproximateSize(value)
  }

  /** The seven bytes that setExpireAt keeps. */
  function Expiry(ms: int): nat {
    ms % 0x100_0000_0000_0000
  }

  /** `id` names the entry's channel; an entry is pending until its value has a type. */
  datatype Entry = Entry(id: nat, key: Text, cmd: Text, val: Msg, size: nat) {
    predicate Pending() { val.typ == 0 }
    function Pair(): Pair { (key, cmd) }
    predicate Live(now: int) { Pending() || val.ttl > now }
  }

  /** What a caller waiting on an entry's channel reads once the channel is closed. */
  datatype Outcome = Value(v: Msg) | Failed(err: Error)

  datatype Flown = Hit(v: Msg) | Wait(id: nat) | Miss

  datatype Cache = Cache(open: bool, list: seq<Entry>, size: int, max: int, next: nat, settled: map<nat, Outcome>)

  // Lists.

  function Find(list: seq<Entry>, p: Pair): Option<Entry> {
    if list == [] then None
    else if list[0].Pair() == p then Some(list[0])
    else Find(list[1..], p)
  }

  /** The list without the entries named by `gone`. */
  function Drop(list: seq<Entry>, gone: set<Pair>): seq<Entry> {
    if list == [] then []
    else if list[0].Pair() in gone then Drop(list[1..], gone)
    else [list[0]] + Drop(list[1..], gone)
  }

  function Sum(list: seq<Entry>): nat {
    if list == [] then 0 else list[0].size + Sum(list[1..])
  }

  function Replace(list: seq<Entry>, e: Entry): (r: seq<Entry>)
    ensures |r| == |list|
    ensures forall i :: 0 <= i < |list| ==> r[i] == if list[i].id == e.id then e else list[i]
  {
    if list == [] then []
    else [if list[0].id == e.id then e else list[0]] + Replace(list[1..], e)
  }

  ghost predicate Unique(list: seq<Entry>) {
    && (forall i, j :: 0 <= i < j < |list| ==> list[i].Pair() != list[j].Pair())
    && (forall i, j :: 0 <= i < j < |list| ==> list[i].id != list[j].id)
  }

  // Operations.

  function ToBack(list: seq<Entry>, e: Entry): seq<Entry> {
    Drop(list, {e.Pair()}) + [e]
  }

  function Answer(e: Entry): Flown {
    if e.Pending() then Wait(e.id) else Hit(e.val)
  }

  function FindId(list: seq<Entry>, id: nat): Option<Entry> {
    if list == [] then None
    else if list[0].id == id then Some(list[0])
    else FindId(list[1..], id)
  }

  /** The move that follows a look under the write lock, any time later: an element that is no longer
      in the list stays out of it. */
  function Touch(c: Cache, id: nat): Cache {
    var f := FindId(c.list, id);
    if f.Some? then c.(list := ToBack(c.list, f.value)) else c
  }

  /** Flight, first part, under the read lock; `move` is the source's one hit in 1024. */
  function Peek(c: Cache, p: Pair, now: int, move: bool): (Cache, Option<Flown>) {
    var f := Find(c.list, p);
    if f.Some? && f.value.Live(now) then
      (if move then c.(list := ToBack(c.list, f.value)) else c, Some(Answer(f.value)))
    else (c, None)
  }

  /** Flight, second part, under the write lock. */
  function Acquire(c: Cache, p: Pair, ttl: int, now: int): (Cache, Flown) {
    if !c.open then (c, Miss)
    else
      var f := Find(c.list, p);
      if f.Some? && f.value.Live(now) then (c.(list := ToBack(c.list, f.value)), Answer(f.value))
      else
        var e := Entry(c.next, p.0, p.1, ZERO.(ttl := Expiry(now + ttl)), 0);
        (c.(list := Drop(c.list, {p}) + [e], next := c.next + 1,
            size := c.size - (if f.Some? then f.value.size else 0)), Miss)
  }

  function Flight(c: Cache, p: Pair, ttl: int, now: int, move: bool): (Cache, Flown) {
    var (c1, r) := Peek(c, p, now, move);
    if r.Some? then (c1, r.value) else Acquire(c, p, ttl, now)
  }

  /** The eviction loop: oldest first, pending entries stay. */
  function Evict(list: seq<Entry>, size: int, max: int): (seq<Entry>, int) {
    if size <= max || list == [] then (list, size)
    else if list[0].Pending() then
      var (rest, left) := Evict(list[1..], size, max);
      ([list[0]] + rest, left)
    else Evict(list[1..], size - list[0].size, max)
  }

  /** The server's expiry can only shorten the client's. */
  function Clamp(value: Msg, client: nat): Msg {
    if client < value.ttl || value.ttl == 0 then value.(ttl := client) else value
  }

  function Fill(c: Cache, e: Entry, value: Msg): Cache {
    var v := Clamp(value, e.val.ttl);
    var done := e.(val := v, size := EntrySize(e.key, e.cmd, v));
    c.(list := Replace(c.list, done), size := c.size + done.size, settled := c.settled[e.id := Value(v)])
  }

  /** Returns the expiry the reply is given, 0 when nothing was waiting for it. */
  function Update(c: Cache, p: Pair, value: Msg): (Cache, nat) {
    var f := Find(c.list, p);
    if !c.open || f.None? then (c, 0)
    else
      var c1 := if f.value.Pending() then Fill(c, f.value, value) else c;
      var (list, size) := Evict(c1.list, c1.size, c1.max);
      (c1.(list := list, size := size), if f.value.Pending() then Clamp(value, f.value.val.ttl).ttl else 0)
  }

  function Cancel(c: Cache, p: Pair, err: Error): Cache {
    var f := Find(c.list, p);
    if !c.open || f.None? || !f.value.Pending() then c
    else c.(list := Drop(c.list, {p}), settled := c.settled[f.value.id := Failed(err)])
  }

  /** The completed entries of the given keys, or of every key. */
  function Purged(list: seq<Entry>, keys: Option<set<Text>>): (ps: set<Pair>)
  {
    set e | e in list && !e.Pending() && (keys.None? || e.key in keys.value) :: e.Pair()
  }

  function Delete(c: Cache, keys: Option<set<Text>>): Cache {
    var list := Drop(c.list, Purged(c.list, keys));
    c.(list := list, size := c.size - (Sum(c.list) - Sum(list)))
  }

  /** The channels of the pending entries, each closed with the error. */
  function Failures(list: seq<Entry>, err: Error): map<nat, Outcome> {
    if list == [] then map[]
    else
      var n := |list| - 1;
      if list[n].Pending() then Failures(list[..n], err)[list[n].id := Failed(err)] else Failures(list[..n], err)
  }

  function Close(c: Cache, err: Error): Cache {
    c.(open := false, list := [], settled := c.settled + Failures(c.list, err))
  }

  // What holds at every release of the lock.

  ghost predicate EntryOk(c: Cache, e: Entry) {
    && e.id < c.next
    && (e.Pending() ==> e.size == 0 && e.id !in c.settled)
    && (!e.Pending() ==> e.size == EntrySize(e.key, e.cmd, e.val)
                         && c.settled.Keys >= {e.id} && c.settled[e.id] == Value(e.val))
  }

  ghost predicate EntriesOk(c: Cache) {
    forall e :: e in c.list ==> EntryOk(c, e)
  }

  /** No waiter is forgotten: a channel that is not closed belongs to a pending entry in the list. */
  ghost predicate Awaited(c: Cache) {
    && (forall id :: id in c.settled ==> id < c.next)
    && (forall id: nat :: id < c.next && id !in c.settled ==> IsPending(c.list, id))
  }

  ghost predicate IsPending(list: seq<Entry>, id: nat) {
    exists e :: e in list && e.id == id && e.Pending()
  }

  /** Accounting and single flight, at every release of the lock. */
  ghost predicate Inv(c: Cache) {
    && Unique(c.list) && EntriesOk(c) && Awaited(c)
    && (c.open ==> c.size == Sum(c.list) <= c.max)
    && (!c.open ==> c.list == [])
  }

  // Lists and Drop.

  lemma {:induction false} FindMember(list: seq<Entry>, p: Pair)
    ensures Find(list, p).Some? ==> Find(list, p).value in list && Find(list, p).value.Pair() == p
    ensures Find(list, p).None? ==> forall e :: e in list ==> e.Pair() != p
  {
    if list != [] { FindMember(list[1..], p); }
  }

  lemma {:induction false} DropMembers(list: seq<Entry>, gone: set<Pair>)
    ensures forall e :: e in Drop(list, gone) <==> e in list && e.Pair() !in gone
  {
    if list != [] { DropMembers(list[1..], gone); }
  }

  lemma PrependUnique(e: Entry, list: seq<Entry>)
    requires Unique(list) && forall x :: x in list ==> x.Pair() != e.Pair() && x.id != e.id
    ensures Unique([e] + list)
  {
  }

  lemma {:induction false} DropUnique(list: seq<Entry>, gone: set<Pair>)
    requires Unique(list)
    ensures Unique(Drop(list, gone))
  {
    if list != [] {
      DropUnique(list[1..], gone);
      DropMembers(list[1..], gone);
      PrependUnique(list[0], Drop(list[1..], gone));
    }
  }

  lemma {:induction false} DropNothing(list: seq<Entry>, gone: set<Pair>)
    requires forall e :: e in list ==> e.Pair() !in gone
    ensures Drop(list, gone) == list
  {
    if list != [] {
      assert list[0] in list;
      DropNothing(list[1..], gone);
    }
  }

  lemma {:induction false} DropTwice(list: seq<Entry>, a: set<Pair>, b: set<Pair>)
    ensures Drop(Drop(list, a), b) == Drop(list, a + b)
  {
    if list != [] { DropTwice(list[1..], a, b); }
  }

  /** Dropping one entry takes exactly its size off the sum. */
  lemma {:induction false} DropSum(list: seq<Entry>, e: Entry)
    requires Unique(list) && e in list
    ensures Sum(Drop(list, {e.Pair()})) == Sum(list) - e.size
  {
    if list[0] == e {
      assert forall x :: x in list[1..] ==> x.Pair() != e.Pair();
      DropNothing(list[1..], {e.Pair()});
    } else {
      assert e in list[1..];
      DropSum(list[1..], e);
    }
  }

  lemma {:induction false} SumAppend(a: seq<Entry>, b: seq<Entry>)
    ensures Sum(a + b) == Sum(a) + Sum(b)
  {
    if a == [] {
      assert a + b == b;
    } else {
      assert (a + b)[1..] == a[1..] + b;
      SumAppend(a[1..], b);
    }
  }

  lemma {:induction false} DropSumBelow(list: seq<Entry>, gone: set<Pair>)
    ensures Sum(Drop(list, gone)) <= Sum(list)
  {
    if list != [] { DropSumBelow(list[1..], gone); }
  }

  lemma {:induction false} ReplaceSum(list: seq<Entry>, old_: Entry, e: Entry)
    requires Unique(list) && old_ in list && old_.id == e.id
    ensures Sum(Replace(list, e)) == Sum(list) - old_.size + e.size
  {
    if list[0].id == e.id {
      assert old_ == list[0];
      assert Replace(list[1..], e) == list[1..];
    } else {
      assert old_ in list[1..];
      ReplaceSum(list[1..], old_, e);
    }
  }

  lemma {:induction false} FindUnique(list: seq<Entry>, e: Entry)
    requires Unique(list) && e in list
    ensures Find(list, e.Pair()) == Some(e)
  {
    FindMember(list, e.Pair());
  }

  // Eviction.

  /** The pairs that the eviction loop removes. */
  function Evicted(list: seq<Entry>, size: int, max: int): set<Pair> {
    if size <= max || list == [] then {}
    else if list[0].Pending() then Evicted(list[1..], size, max)
    else {list[0].Pair()} + Evicted(list[1..], size - list[0].size, max)
  }

  function Pendings(list: seq<Entry>): seq<Entry> {
    if list == [] then []
    else if list[0].Pending() then [list[0]] + Pendings(list[1..])
    else Pendings(list[1..])
  }

  /** `Update` evicts the completed entries of the shortest prefix, in list order, that brings
      the size down to max; the pending entries of that prefix and everything after it stay. */
  lemma {:induction false} EvictsShortestPrefix(list: seq<Entry>, size: int, max: int) returns (k: nat)
    requires forall e :: e in list && e.Pending() ==> e.size == 0
    ensures k <= |list| && Evict(list, size, max) == (Pendings(list[..k]) + list[k..], size - Sum(list[..k]))
    ensures k == |list| || size - Sum(list[..k]) <= max
    ensures forall j :: 0 <= j < k ==> size - Sum(list[..j]) > max
  {
    if size <= max || list == [] {
      k := 0;
      assert Pendings(list[..0]) + list[0..] == list;
    } else {
      var k' := EvictsShortestPrefix(list[1..], size - list[0].size, max);
      k := k' + 1;
      assert list[..k][1..] == list[1..][..k'] && list[k..] == list[1..][k'..];
      assert list[0] in list;
      assert list[0].Pending() ==>
          Pendings(list[..k]) + list[k..] == [list[0]] + (Pendings(list[1..][..k']) + list[k..]);
      forall j | 0 <= j < k ensures size - Sum(list[..j]) > max {
        if j > 0 {
          assert list[..j][1..] == list[1..][..j - 1];
        }
      }
    }
  }

  lemma {:induction false} EvictIsDrop(list: seq<Entry>, size: int, max: int)
    requires Unique(list)
    ensures Evict(list, size, max).0 == Drop(list, Evicted(list, size, max))
    ensures Evict(list, size, max).1 - Sum(Evict(list, size, max).0) == size - Sum(list)
  {
    if size <= max || list == [] {
      DropNothing(list, {});
    } else if list[0].Pending() {
      EvictIsDrop(list[1..], size, max);
      EvictedAreDone(list[1..], size, max);
      HeadStays(list, Evicted(list, size, max));
    } else {
      EvictIsDrop(list[1..], size - list[0].size, max);
      HeadGoes(list, Evicted(list[1..], size - list[0].size, max));
    }
  }

  lemma {:induction false} HeadStays(list: seq<Entry>, gone: set<Pair>)
    requires list != [] && Unique(list) && list[0].Pending()
    requires forall p :: p in gone ==> exists e :: e in list[1..] && !e.Pending() && e.Pair() == p
    ensures Drop(list, gone) == [list[0]] + Drop(list[1..], gone)
  {
    assert list[0].Pair() !in gone;
  }

  lemma {:induction false} HeadGoes(list: seq<Entry>, gone: set<Pair>)
    requires list != [] && Unique(list)
    ensures Drop(list, {list[0].Pair()} + gone) == Drop(list[1..], gone)
  {
    assert forall x :: x in list[1..] ==> x.Pair() != list[0].Pair();
    DropNothing(list[1..], {list[0].Pair()});
    DropTwice(list[1..], {list[0].Pair()}, gone);
  }

  /** Only completed entries of the list are evicted. */
  lemma {:induction false} EvictedAreDone(list: seq<Entry>, size: int, max: int)
    ensures forall p :: p in Evicted(list, size, max) ==> exists e :: e in list && !e.Pending() && e.Pair() == p
  {
    if size > max && list != [] {
      assert list[0] in list;
      EvictedAreDone(list[1..], if list[0].Pending() then size else size - list[0].size, max);
    }
  }

  /** Once only pending entries are left there is nothing to count. */
  lemma {:induction false} EvictReachesMax(list: seq<Entry>, size: int, max: int)
    requires size == Sum(list) && max >= 0
    requires forall e :: e in list && e.Pending() ==> e.size == 0
    ensures Evict(list, size, max).1 <= max
    decreases |list|
  {
    if size > max && list != [] {
      EvictReachesMax(list[1..], if list[0].Pending() then size else size - list[0].size, max);
    }
  }

  // Every operation keeps the invariant.

  lemma {:induction false} AwaitedStays(c: Cache, c': Cache)
    requires Awaited(c) && c'.next == c.next && c'.settled.Keys >= c.settled.Keys
    requires forall id :: id in c'.settled ==> id < c.next
    requires forall e :: e in c.list && e.Pending() && e.id !in c'.settled ==> e in c'.list
    ensures Awaited(c')
  {
    forall id: nat | id < c'.next && id !in c'.settled ensures IsPending(c'.list, id) {
      assert IsPending(c.list, id);
    }
  }

  /** Dropping completed entries keeps everything but the size. */
  lemma {:induction false} DropCompleted(c: Cache, gone: set<Pair>, c': Cache)
    requires Inv(c) && c.open
    requires forall e :: e in c.list && e.Pending() ==> e.Pair() !in gone
    requires c' == c.(list := Drop(c.list, gone), size := Sum(Drop(c.list, gone)))
    ensures Inv(c')
  {
    DropUnique(c.list, gone);
    DropMembers(c.list, gone);
    DropSumBelow(c.list, gone);
    AwaitedStays(c, c');
  }

  lemma AppendUnique(list: seq<Entry>, e: Entry)
    requires Unique(list) && forall x :: x in list ==> x.Pair() != e.Pair() && x.id != e.id
    ensures Unique(list + [e])
  {
  }

  lemma {:induction false} ToBackInv(c: Cache, e: Entry)
    requires Inv(c) && e in c.list
    ensures Inv(c.(list := ToBack(c.list, e)))
  {
    var rest := Drop(c.list, {e.Pair()});
    DropUnique(c.list, {e.Pair()});
    DropMembers(c.list, {e.Pair()});
    DropSum(c.list, e);
    SumAppend(rest, [e]);
    OthersDiffer(c.list, e);
    AppendUnique(rest, e);
    AwaitedStays(c, c.(list := ToBack(c.list, e)));
  }

  lemma OthersDiffer(list: seq<Entry>, e: Entry)
    requires Unique(list) && e in list
    ensures forall x :: x in list && x != e ==> x.Pair() != e.Pair() && x.id != e.id
  {
  }

  lemma {:induction false} AcquireInv(c: Cache, p: Pair, ttl: int, now: int)
    requires Inv(c)
    ensures Inv(Acquire(c, p, ttl, now).0)
  {
    var f := Find(c.list, p);
    FindMember(c.list, p);
    if c.open {
      if f.Some? && f.value.Live(now) {
        ToBackInv(c, f.value);
      } else {
        var rest := Drop(c.list, {p});
        DropMembers(c.list, {p});
        if f.Some? {
          OthersDiffer(c.list, f.value);
          DropSum(c.list, f.value);
        } else {
          DropNothing(c.list, {p});
        }
        var mid := c.(list := rest, size := Sum(rest));
        DropCompleted(c, {p}, mid);
        PushInv(mid, Entry(c.next, p.0, p.1, ZERO.(ttl := Expiry(now + ttl)), 0));
      }
    }
  }

  lemma {:induction false} PushInv(c: Cache, e: Entry)
    requires Inv(c) && c.open && e.Pending() && e.size == 0 && e.id == c.next
    requires forall x :: x in c.list ==> x.Pair() != e.Pair()
    ensures Inv(c.(list := c.list + [e], next := c.next + 1))
  {
    var c' := c.(list := c.list + [e], next := c.next + 1);
    assert forall x :: x in c.list ==> EntryOk(c, x);
    AppendUnique(c.list, e);
    SumAppend(c.list, [e]);
    forall id: nat | id < c'.next && id !in c'.settled ensures IsPending(c'.list, id) {
      if id == c.next {
        assert e in c'.list;
      } else {
        var x :| x in c.list && x.id == id && x.Pending();
        assert x in c'.list;
      }
    }
  }

  lemma {:induction false} FlightInv(c: Cache, p: Pair, ttl: int, now: int, move: bool)
    requires Inv(c)
    ensures Inv(Flight(c, p, ttl, now, move).0)
  {
    var f := Find(c.list, p);
    FindMember(c.list, p);
    if f.Some? && f.value.Live(now) { ToBackInv(c, f.value); }
    AcquireInv(c, p, ttl, now);
  }

  lemma {:induction false} FindIdMember(list: seq<Entry>, id: nat)
    ensures FindId(list, id).Some? ==> FindId(list, id).value in list && FindId(list, id).value.id == id
    ensures FindId(list, id).None? ==> forall e :: e in list ==> e.id != id
  {
    if list != [] { FindIdMember(list[1..], id); }
  }

  lemma {:induction false} TouchInv(c: Cache, id: nat)
    requires Inv(c)
    ensures Inv(Touch(c, id))
  {
    if FindId(c.list, id).Some? {
      FindIdMember(c.list, id);
      ToBackInv(c, FindId(c.list, id).value);
    }
  }

  /** A look that moves at once is a look and the move of what it found. */
  lemma {:induction false} PeekThenTouch(c: Cache, p: Pair, now: int)
    requires Inv(c) && Find(c.list, p).Some? && Find(c.list, p).value.Live(now)
    ensures Peek(c, p, now, true).0 == Touch(Peek(c, p, now, false).0, Find(c.list, p).value.id)
    ensures Peek(c, p, now, true).1 == Peek(c, p, now, false).1
  {
    FindMember(c.list, p);
    FindIdMember(c.list, Find(c.list, p).value.id);
    OthersDiffer(c.list, Find(c.list, p).value);
  }

  lemma {:induction false} ReplaceUnique(list: seq<Entry>, e: Entry)
    requires Unique(list) && forall x :: x in list && x.id == e.id ==> x.Pair() == e.Pair()
    ensures Unique(Replace(list, e))
  {
    var r := Replace(list, e);
    assert forall i :: 0 <= i < |list| ==> r[i].id == list[i].id && r[i].Pair() == list[i].Pair();
  }

  lemma {:induction false} FillEntries(c: Cache, e: Entry, value: Msg, c': Cache)
    requires Inv(c) && c.open && e in c.list && e.Pending() && value.typ != 0 && c' == Fill(c, e, value)
    ensures EntriesOk(c') && Awaited(c')
  {
    assert EntryOk(c, e);
    OthersDiffer(c.list, e);
    forall i | 0 <= i < |c.list| ensures EntryOk(c', c'.list[i]) {
      assert EntryOk(c, c.list[i]);
    }
    forall x | x in c.list && x.Pending() && x.id !in c'.settled ensures x in c'.list {
      var i :| 0 <= i < |c.list| && c.list[i] == x;
      assert c'.list[i] == x;
    }
    AwaitedStays(c, c');
  }

  lemma {:induction false} FillKeeps(c: Cache, e: Entry, value: Msg, c': Cache)
    requires Inv(c) && c.open && e in c.list && e.Pending() && value.typ != 0 && c' == Fill(c, e, value)
    ensures Unique(c'.list) && EntriesOk(c') && Awaited(c') && c'.size == Sum(c'.list)
  {
    var v := Clamp(value, e.val.ttl);
    var done := e.(val := v, size := EntrySize(e.key, e.cmd, v));
    assert EntryOk(c, e);
    FillEntries(c, e, value, c');
    ReplaceUnique(c.list, done);
    ReplaceSum(c.list, e, done);
  }

  lemma {:induction false} EvictInv(c: Cache, c': Cache)
    requires Unique(c.list) && EntriesOk(c) && Awaited(c) && c.size == Sum(c.list) && c.open && c.max >= 0
    requires c' == c.(list := Evict(c.list, c.size, c.max).0, size := Evict(c.list, c.size, c.max).1)
    ensures Inv(c')
  {
    var gone := Evicted(c.list, c.size, c.max);
    EvictIsDrop(c.list, c.size, c.max);
    EvictedAreDone(c.list, c.size, c.max);
    EvictReachesMax(c.list, c.size, c.max);
    DropUnique(c.list, gone);
    DropMembers(c.list, gone);
    forall e | e in c.list && e.Pending() ensures e in c'.list {
      OthersDiffer(c.list, e);
    }
    AwaitedStays(c, c');
  }

  lemma {:induction false} UpdateInv(c: Cache, p: Pair, value: Msg)
    requires Inv(c) && c.max >= 0 && value.typ != 0
    ensures Inv(Update(c, p, value).0)
  {
    var f := Find(c.list, p);
    FindMember(c.list, p);
    if c.open && f.Some? {
      var c1 := if f.value.Pending() then Fill(c, f.value, value) else c;
      if f.value.Pending() { FillKeeps(c, f.value, value, c1); }
      EvictInv(c1, Update(c, p, value).0);
    }
  }

  lemma {:induction false} CancelInv(c: Cache, p: Pair, err: Error)
    requires Inv(c)
    ensures Inv(Cancel(c, p, err))
  {
    var f := Find(c.list, p);
    FindMember(c.list, p);
    if c.open && f.Some? && f.value.Pending() {
      var c' := Cancel(c, p, err);
      assert EntryOk(c, f.value);
      OthersDiffer(c.list, f.value);
      DropUnique(c.list, {p});
      DropMembers(c.list, {p});
      DropSum(c.list, f.value);
      forall x | x in c'.list ensures EntryOk(c', x) { assert EntryOk(c, x); }
      AwaitedStays(c, c');
    }
  }

  lemma {:induction false} DeleteInv(c: Cache, keys: Option<set<Text>>)
    requires Inv(c)
    ensures Inv(Delete(c, keys))
  {
    if c.open {
      forall e | e in c.list && e.Pending() ensures e.Pair() !in Purged(c.list, keys) {
        OthersDiffer(c.list, e);
      }
      DropCompleted(c, Purged(c.list, keys), Delete(c, keys));
    }
  }

  lemma {:induction false} FailuresArePending(list: seq<Entry>, err: Error)
    ensures forall id :: id in Failures(list, err) <==> IsPending(list, id)
    decreases |list|
  {
    if list != [] {
      var n := |list| - 1;
      FailuresArePending(list[..n], err);
      assert list == list[..n] + [list[n]];
      forall id ensures IsPending(list, id) <==> IsPending(list[..n], id) || (list[n].Pending() && list[n].id == id) {
        if list[n].Pending() && list[n].id == id { assert list[n] in list; }
        if e :| e in list[..n] && e.id == id && e.Pending() { assert e in list; }
      }
    }
  }

  lemma {:induction false} CloseInv(c: Cache, err: Error)
    requires Inv(c)
    ensures Inv(Close(c, err))
  {
    var c' := Close(c, err);
    FailuresArePending(c.list, err);
    forall id: nat | id < c'.next ensures id in c'.settled {
      assert id !in c.settled ==> IsPending(c.list, id);
    }
  }

  // Runs of any operations.

  datatype Op =
    | DoPeek(p: Pair, now: int, move: bool)
    | DoMove(id: nat)
    | DoAcquire(p: Pair, ttl: int, now: int)
    | DoUpdate(p: Pair, value: Msg)
    | DoCancel(p: Pair, err: Error)
    | DoDelete(keys: Option<set<Text>>)
    | DoClose(err: Error)

  ghost predicate Allowed(op: Op) {
    op.DoUpdate? ==> op.value.typ != 0
  }

  function Apply(c: Cache, op: Op): Cache {
    match op
    case DoPeek(p, now, move) => Peek(c, p, now, move).0
    case DoMove(id) => Touch(c, id)
    case DoAcquire(p, ttl, now) => Acquire(c, p, ttl, now).0
    case DoUpdate(p, v) => Update(c, p, v).0
    case DoCancel(p, err) => Cancel(c, p, err)
    case DoDelete(keys) => Delete(c, keys)
    case DoClose(err) => Close(c, err)
  }

  /** Channels already closed are left alone; every newly closed one belonged to a pending entry. */
  ghost predicate ClosesOnce(c: Cache, c': Cache) {
    && (forall id :: id in c.settled ==> id in c'.settled && c'.settled[id] == c.settled[id])
    && (forall id :: id in c'.settled && id !in c.settled ==> IsPending(c.list, id))
  }

  lemma {:induction false} ApplyInv(c: Cache, op: Op)
    requires Inv(c) && c.max >= 0 && Allowed(op)
    ensures Inv(Apply(c, op)) && Apply(c, op).max == c.max
    ensures ClosesOnce(c, Apply(c, op))
  {
    forall e | e in c.list ensures EntryOk(c, e) && (e.Pending() ==> IsPending(c.list, e.id)) {}
    if op.DoClose? { FailuresArePending(c.list, op.err); }
    if op.DoUpdate? || op.DoCancel? { FindMember(c.list, op.p); }
    match op
    case DoPeek(p, now, move) => FlightInv(c, p, 0, now, move);
    case DoMove(id) => TouchInv(c, id);
    case DoAcquire(p, ttl, now) => AcquireInv(c, p, ttl, now);
    case DoUpdate(p, v) => UpdateInv(c, p, v);
    case DoCancel(p, err) => CancelInv(c, p, err);
    case DoDelete(keys) => DeleteInv(c, keys);
    case DoClose(err) => CloseInv(c, err);
  }

  function ApplyAll(c: Cache, ops: seq<Op>): Cache {
    if ops == [] then c else Apply(ApplyAll(c, ops[..|ops| - 1]), ops[|ops| - 1])
  }

  const NEW: Cache := Cache(true, [], 0, 0, 0, map[])

  /** Accounting and single flight over every run from an empty cache: the size is the sum over
      completed entries and at most max, no pair has two entries, pending entries survive until
      settled, and what a closed channel reported never changes afterwards. */
  lemma {:induction false} EveryRunKeepsInv(max: nat, ops: seq<Op>, k: nat)
    requires k <= |ops| && forall i :: 0 <= i < |ops| ==> Allowed(ops[i])
    ensures Inv(ApplyAll(NEW.(max := max), ops)) && ApplyAll(NEW.(max := max), ops).max == max
    ensures ApplyAll(NEW.(max := max), ops[..k]).settled.Items <= ApplyAll(NEW.(max := max), ops).settled.Items
    decreases |ops|
  {
    var n, c := |ops| - 1, NEW.(max := max);
    if ops != [] {
      if k <= n {
        assert ops[..n][..k] == ops[..k];
        EveryRunKeepsInv(max, ops[..n], k);
      } else {
        assert ops[..k] == ops;
        EveryRunKeepsInv(max, ops[..n], n);
      }
      ApplyInv(ApplyAll(c, ops[..n]), ops[n]);
      assert ClosesOnce(ApplyAll(c, ops[..n]), ApplyAll(c, ops));
    }
  }

  // Flights, the batched form of Flight.

  datatype Request = Request(p: Pair, ttl: int)

  /** Successive Flight calls; moves[i] says whether the i-th hit, if it is one, moves its entry. */
  function FlightEach(c: Cache, reqs: seq<Request>, now: int, moves: seq<bool>): (r: (Cache, seq<Flown>))
    requires |moves| == |reqs|
    ensures |r.1| == |reqs|
  {
    if reqs == [] then (c, [])
    else
      var n := |reqs| - 1;
      var (c1, out) := FlightEach(c, reqs[..n], now, moves[..n]);
      var (c2, f) := Flight(c1, reqs[n].p, reqs[n].ttl, now, moves[n]);
      (c2, out + [f])
  }

  function Found(c: Cache, p: Pair, now: int): Option<Flown> {
    Peek(c, p, now, false).1
  }

  /** Flights: answer what the first pass finds in c0, then acquire only the rest. */
  function Flights(c0: Cache, c: Cache, reqs: seq<Request>, now: int): (r: (Cache, seq<Flown>))
    ensures |r.1| == |reqs|
  {
    if reqs == [] then (c, [])
    else
      var n := |reqs| - 1;
      var (c1, out) := Flights(c0, c, reqs[..n], now);
      var f := Found(c0, reqs[n].p, now);
      if f.Some? then (c1, out + [f.value])
      else
        var (c2, g) := Acquire(c1, reqs[n].p, reqs[n].ttl, now);
        (c2, out + [g])
  }

  /** The same cache up to recency. */
  ghost predicate Same(c: Cache, d: Cache) {
    && d == c.(list := d.list)
    && forall e :: e in c.list <==> e in d.list
  }

  lemma {:induction false} SameFinds(c: Cache, d: Cache, p: Pair)
    requires Inv(c) && Inv(d) && Same(c, d)
    ensures Find(c.list, p) == Find(d.list, p)
  {
    var f := Find(c.list, p);
    FindMember(c.list, p);
    FindMember(d.list, p);
    if f.Some? { FindUnique(d.list, f.value); }
  }

  lemma {:induction false} ToBackSame(c: Cache, e: Entry)
    requires Inv(c) && e in c.list
    ensures Same(c, c.(list := ToBack(c.list, e)))
  {
    DropMembers(c.list, {e.Pair()});
    OthersDiffer(c.list, e);
  }

  /** Up to recency a Flight is an Acquire, and recency does not matter to it. */
  lemma {:induction false} FlightIsAcquire(c: Cache, d: Cache, p: Pair, ttl: int, now: int, move: bool)
    requires Inv(c) && Inv(d) && Same(c, d)
    ensures Flight(c, p, ttl, now, move).1 == Acquire(d, p, ttl, now).1
    ensures Same(Flight(c, p, ttl, now, move).0, Acquire(d, p, ttl, now).0)
  {
    SameFinds(c, d, p);
    var f := Find(c.list, p);
    FindMember(c.list, p);
    if f.Some? && f.value.Live(now) {
      ToBackSame(c, f.value);
      ToBackSame(d, f.value);
    } else {
      DropMembers(c.list, {p});
      DropMembers(d.list, {p});
    }
  }

  ghost predicate KeepsLive(c0: Cache, c: Cache, now: int) {
    forall e :: e in c0.list && e.Live(now) ==> e in c.list
  }

  /** An uninterrupted Flights classifies every index as hit, wait or miss exactly as successive
      Flight calls would, duplicates and expired entries included, and leaves the same entries. */
  lemma {:induction false} FlightsIsFlightEach(c: Cache, c0: Cache, reqs: seq<Request>, now: int, moves: seq<bool>)
    requires Inv(c) && Inv(c0) && Same(c, c0) && |moves| == |reqs|
    ensures FlightEach(c, reqs, now, moves).1 == Flights(c0, c0, reqs, now).1
    ensures Same(FlightEach(c, reqs, now, moves).0, Flights(c0, c0, reqs, now).0)
    ensures Inv(FlightEach(c, reqs, now, moves).0) && Inv(Flights(c0, c0, reqs, now).0)
    ensures KeepsLive(c0, FlightEach(c, reqs, now, moves).0, now)
    decreases |reqs|
  {
    if reqs != [] {
      var n := |reqs| - 1;
      FlightsIsFlightEach(c, c0, reqs[..n], now, moves[..n]);
      var c1, d1 := FlightEach(c, reqs[..n], now, moves[..n]).0, Flights(c0, c0, reqs[..n], now).0;
      var p, ttl := reqs[n].p, reqs[n].ttl;
      var f := Find(c0.list, p);
      FindMember(c0.list, p);
      FlightInv(c1, p, ttl, now, moves[n]);
      AcquireInv(d1, p, ttl, now);
      FlightKeepsLive(c1, p, ttl, now, moves[n]);
      if f.Some? && f.value.Live(now) {
        FindUnique(c1.list, f.value);
        ToBackSame(c1, f.value);
      } else {
        FlightIsAcquire(c1, d1, p, ttl, now, moves[n]);
      }
    }
  }

  lemma {:induction false} FlightKeepsLive(c: Cache, p: Pair, ttl: int, now: int, move: bool)
    requires Inv(c)
    ensures KeepsLive(c, Flight(c, p, ttl, now, move).0, now)
  {
    var f := Find(c.list, p);
    FindMember(c.list, p);
    DropMembers(c.list, {p});
    if f.Some? { OthersDiffer(c.list, f.value); }
  }

  /** Flights has dealt with the first n indices; the rest of `out` is from the first pass. */
  ghost predicate FlownTo(c0: Cache, reqs: seq<Request>, now: int, n: nat, c: Cache, out: seq<Flown>,
                          first: seq<Flown>) {
    && n <= |reqs| == |out| == |first|
    && (c, out[..n]) == Flights(c0, c0, reqs[..n], now)
    && out[n..] == first[n..]
  }

  /** Indices that the first pass answers leave the second pass where it is. */
  lemma {:induction false} FlownOver(c0: Cache, reqs: seq<Request>, now: int, n: nat, c: Cache, out: seq<Flown>,
                                     first: seq<Flown>, m: nat)
    requires FlownTo(c0, reqs, now, n, c, out, first) && n <= m <= |reqs|
    requires forall i :: n <= i < m ==> Found(c0, reqs[i].p, now) == Some(first[i])
    ensures FlownTo(c0, reqs, now, m, c, out, first)
    decreases m - n
  {
    if n < m {
      assert reqs[..n + 1][..n] == reqs[..n];
      assert out[n..][0] == first[n..][0] && out[..n + 1] == out[..n] + [first[n]];
      assert out[n + 1..] == out[n..][1..] && first[n + 1..] == first[n..][1..];
      FlownOver(c0, reqs, now, n + 1, c, out, first, m);
    }
  }

  lemma {:induction false} FlownAcquire(c0: Cache, reqs: seq<Request>, now: int, n: nat, c: Cache, out: seq<Flown>,
                                        first: seq<Flown>, c': Cache, r: Flown)
    requires FlownTo(c0, reqs, now, n, c, out, first) && n < |reqs| && Found(c0, reqs[n].p, now).None?
    requires (c', r) == Acquire(c, reqs[n].p, reqs[n].ttl, now)
    ensures FlownTo(c0, reqs, now, n + 1, c', out[n := r], first)
  {
    assert reqs[..n + 1][..n] == reqs[..n];
    assert out[n := r][..n + 1] == out[..n] + [r];
    assert out[n := r][n + 1..] == out[n..][1..] && first[n + 1..] == first[n..][1..];
  }

  lemma {:induction false} SameFound(c: Cache, d: Cache, p: Pair, now: int)
    requires Inv(c) && Inv(d) && Same(c, d)
    ensures Found(c, p, now) == Found(d, p, now)
  {
    SameFinds(c, d, p);
  }
}
