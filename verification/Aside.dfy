/** The cache-aside protocol over any number of client processes: a populating call locks a key
    with its client's placeholder id, computes the value from the source, and stores it with a
    compare-and-set script. Redis commands and scripts are atomic steps. */
module Aside {
  import opened Common

  type Key = string
  type Client = nat
  type Id = nat

  /** What Redis holds for a key: a placeholder, or a cached value, named by its source version. */
  datatype Stored = Lock(id: Id) | Cached(version: nat)

  /** `Computing` is the fn call: what it read from the source so far, and whether the key has
      held this call's placeholder ever since the call put it there. */
  datatype Phase = Starting | Computing(read: Option<nat>, held: bool) | Cleaning | Ended

  datatype Call = Call(client: Client, key: Key, id: Id, phase: Phase)

  datatype World = World(
    db: map<Key, Stored>,
    source: map<Key, nat>,            // the version of the source, 0 when absent
    floor: map<Key, nat>,             // the newest version whose Del has completed
    calls: seq<Call>,
    flights: map<(Client, Key), nat>, // per process: the call leading the flight of a key
    ids: map<Client, Id>,             // the id of a client, absent after a connection loss
    owner: map<Id, Client>)           // every id ever drawn; ids are distinct

  function Of(m: map<Key, nat>, key: Key): nat {
    if key in m then m[key] else 0
  }

  function Holds(db: map<Key, Stored>, c: Call): bool {
    c.key in db && db[c.key] == Lock(c.id)
  }

  /** After a change of db: which computing calls still hold their lock. */
  function Watch(db: map<Key, Stored>, c: Call): Call {
    if c.phase.Computing? then c.(phase := c.phase.(held := c.phase.held && Holds(db, c))) else c
  }

  function SetDb(w: World, db: map<Key, Stored>): World {
    w.(db := db, calls := seq(|w.calls|, i requires 0 <= i < |w.calls| => Watch(db, w.calls[i])))
  }

  function SetPhase(w: World, i: nat, phase: Phase): World
    requires i < |w.calls|
  {
    w.(calls := w.calls[i := w.calls[i].(phase := phase)])
  }

  /** setkey: compare the placeholder, then set. */
  function SetKey(db: map<Key, Stored>, key: Key, id: Id, version: nat): map<Key, Stored> {
    if key in db && db[key] == Lock(id) then db[key := Cached(version)] else db
  }

  /** delkey: compare the placeholder, then delete. */
  function DelKey(db: map<Key, Stored>, key: Key, id: Id): map<Key, Stored> {
    if key in db && db[key] == Lock(id) then db - {key} else db
  }

  datatype Step =
    | DrawId(client: Client, id: Id)
    | DropId(client: Client)
    | Begin(client: Client, key: Key)
    | Unsent(i: nat)
    | Acquire(i: nat, seen: bool)
    | ReadSource(i: nat)
    | Fail(i: nat)
    | Store(i: nat, seen: bool)
    | Cleanup(i: nat, lost: bool)
    | End(i: nat)
    | Release(key: Key, id: Id)
    | Expire(key: Key)
    | UpdateSource(key: Key)
    | Del(key: Key)

  ghost predicate At(w: World, i: nat) {
    i < |w.calls|
  }

  ghost predicate Next(w: World, s: Step, w': World) {
    match s
    // keepalive with a new random id, and onInvalidation(nil).
    case DrawId(c, id) => c !in w.ids && id !in w.owner && w' == w.(ids := w.ids[c := id], owner := w.owner[id := c])
    case DropId(c) => w' == w.(ids := w.ids - {c})
    // beginFlight makes one leader per process and key; populate then takes the current id.
    case Begin(c, key) =>
      && (c, key) !in w.flights && c in w.ids
      && w' == w.(calls := w.calls + [Call(c, key, w.ids[c], Starting)], flights := w.flights[(c, key) := |w.calls|])
    // SET NX GET that fails without reaching Redis: the caller cannot tell.
    case Unsent(i) => At(w, i) && w.calls[i].phase == Starting && w' == SetPhase(w, i, Cleaning)
    // SET NX GET that is executed: taken, or someone's value is there; an error hides the outcome from the caller.
    case Acquire(i, seen) =>
      && At(w, i) && w.calls[i].phase == Starting
      && var c := w.calls[i];
      if c.key in w.db then w' == SetPhase(w, i, if seen then Ended else Cleaning)
      else w' == SetPhase(SetDb(w, w.db[c.key := Lock(c.id)]), i, if seen then Computing(None, true) else Cleaning)
    case ReadSource(i) =>
      && At(w, i) && w.calls[i].phase.Computing?
      && w' == SetPhase(w, i, w.calls[i].phase.(read := Some(Of(w.source, w.calls[i].key))))
    case Fail(i) => At(w, i) && w.calls[i].phase.Computing? && w' == SetPhase(w, i, Cleaning)
    case Store(i, seen) =>
      && At(w, i) && w.calls[i].phase.Computing? && w.calls[i].phase.read.Some?
      && var c := w.calls[i];
      w' == SetPhase(SetDb(w, SetKey(w.db, c.key, c.id, c.phase.read.value)), i, if seen then Ended else Cleaning)
    case Cleanup(i, lost) =>
      && At(w, i) && w.calls[i].phase == Cleaning
      && var c := w.calls[i];
      w' == SetPhase(if lost then w else SetDb(w, DelKey(w.db, c.key, c.id)), i, Ended)
    // finishFlight.
    case End(i) =>
      && At(w, i) && w.calls[i].phase == Ended
      && var c := w.calls[i];
      && (c.client, c.key) in w.flights && w.flights[(c.client, c.key)] == i
      && w' == w.(flights := w.flights - {(c.client, c.key)})
    // Any client that takes the owner of a placeholder for dead.
    case Release(key, id) => w' == SetDb(w, DelKey(w.db, key, id))
    case Expire(key) => w' == SetDb(w, w.db - {key})
    // A writer first updates the source, then deletes the key.
    case UpdateSource(key) => w' == w.(source := w.source[key := Of(w.source, key) + 1])
    case Del(key) => w' == SetDb(w, w.db - {key}).(floor := w.floor[key := Of(w.source, key)])
  }

  /** A call that is not over leads the flight of its process and key, with an id of its client. */
  ghost predicate CallOk(w: World, i: nat)
    requires i < |w.calls|
  {
    var c := w.calls[i];
    && c.id in w.owner && w.owner[c.id] == c.client
    && (c.phase != Ended ==> (c.client, c.key) in w.flights && w.flights[(c.client, c.key)] == i)
    && (c.phase.Computing? && Holds(w.db, c) ==>
          c.phase.held && (c.phase.read.Some? ==> Of(w.floor, c.key) <= c.phase.read.value))
  }

  ghost predicate KeyOk(w: World, key: Key) {
    && Of(w.floor, key) <= Of(w.source, key)
    && (key in w.db && w.db[key].Cached? ==> Of(w.floor, key) <= w.db[key].version)
  }

  ghost predicate Inv(w: World) {
    && (forall i :: 0 <= i < |w.calls| ==> CallOk(w, i))
    && (forall key: Key :: KeyOk(w, key))
    && (forall c :: c in w.ids ==> w.ids[c] in w.owner && w.owner[w.ids[c]] == c)
  }

  /** No two live calls compute for the same key with the same id. */
  lemma {:induction false} LockIsOneCalls(w: World, i: nat, j: nat)
    requires Inv(w) && i < |w.calls| && j < |w.calls| && i != j
    requires w.calls[i].phase != Ended && w.calls[j].phase != Ended && w.calls[i].key == w.calls[j].key
    ensures w.calls[i].id != w.calls[j].id
  {
    assert CallOk(w, i) && CallOk(w, j);
  }

  /** Steps that take the value of a key away, or leave db alone. */
  lemma {:induction false} RemovesInv(w: World, db: map<Key, Stored>)
    requires Inv(w) && forall k :: k in db ==> k in w.db && db[k] == w.db[k]
    ensures Inv(SetDb(w, db))
  {
    var w' := SetDb(w, db);
    forall i | 0 <= i < |w'.calls| ensures CallOk(w', i) { assert CallOk(w, i); }
    forall key: Key ensures KeyOk(w', key) { assert KeyOk(w, key); }
  }

  lemma {:induction false} SetPhaseInv(w: World, i: nat, phase: Phase)
    requires Inv(w) && i < |w.calls| && w.calls[i].phase != Ended && !phase.Computing?
    ensures Inv(SetPhase(w, i, phase))
  {
    var w' := SetPhase(w, i, phase);
    forall j | 0 <= j < |w'.calls| ensures CallOk(w', j) { assert CallOk(w, j); }
    forall key: Key ensures KeyOk(w', key) { assert KeyOk(w, key); }
  }

  lemma {:induction false} AcquireInv(w: World, i: nat, seen: bool, w': World)
    requires Inv(w) && Next(w, Acquire(i, seen), w')
    ensures Inv(w')
  {
    var c := w.calls[i];
    if c.key in w.db {
      SetPhaseInv(w, i, if seen then Ended else Cleaning);
    } else {
      forall j | 0 <= j < |w'.calls| ensures CallOk(w', j) {
        assert CallOk(w, j);
        if j != i && w.calls[j].phase != Ended && w.calls[j].key == c.key { LockIsOneCalls(w, i, j); }
      }
      forall key: Key ensures KeyOk(w', key) { assert KeyOk(w, key); }
    }
  }

  lemma {:induction false} StoreInv(w: World, i: nat, seen: bool, w': World)
    requires Inv(w) && Next(w, Store(i, seen), w')
    ensures Inv(w')
  {
    forall j | 0 <= j < |w'.calls| ensures CallOk(w', j) { assert CallOk(w, j); }
    assert CallOk(w, i);
    forall key: Key ensures KeyOk(w', key) { assert KeyOk(w, key); }
  }

  lemma {:induction false} DelInv(w: World, key: Key, w': World)
    requires Inv(w) && Next(w, Del(key), w')
    ensures Inv(w')
  {
    RemovesInv(w, w.db - {key});
    var m := SetDb(w, w.db - {key});
    forall j | 0 <= j < |w'.calls| ensures CallOk(w', j) { assert CallOk(m, j); }
    forall k: Key ensures KeyOk(w', k) { assert KeyOk(m, k); }
  }

  lemma {:induction false} StepInv(w: World, s: Step, w': World)
    requires Inv(w) && Next(w, s, w')
    ensures Inv(w')
  {
    match s
    case Acquire(i, seen) => AcquireInv(w, i, seen, w');
    case Store(i, seen) => StoreInv(w, i, seen, w');
    case Del(key) => DelInv(w, key, w');
    case Release(key, id) => RemovesInv(w, DelKey(w.db, key, id));
    case Expire(key) => RemovesInv(w, w.db - {key});
    case Unsent(i) => SetPhaseInv(w, i, Cleaning);
    case Fail(i) => SetPhaseInv(w, i, Cleaning);
    case Cleanup(i, lost) =>
      var c := w.calls[i];
      if !lost { RemovesInv(w, DelKey(w.db, c.key, c.id)); }
      SetPhaseInv(if lost then w else SetDb(w, DelKey(w.db, c.key, c.id)), i, Ended);
    case _ => QuietInv(w, s, w');
  }

  /** The steps that leave Redis alone. */
  lemma {:induction false} QuietInv(w: World, s: Step, w': World)
    requires Inv(w) && Next(w, s, w')
    requires s.DrawId? || s.DropId? || s.Begin? || s.ReadSource? || s.End? || s.UpdateSource?
    ensures Inv(w')
  {
    forall j | 0 <= j < |w'.calls| ensures CallOk(w', j) {
      if j < |w.calls| { assert CallOk(w, j) && KeyOk(w, w.calls[j].key); }
    }
    forall key: Key ensures KeyOk(w', key) { assert KeyOk(w, key); }
  }

  ghost predicate Start(w: World) {
    w.db == map[] && w.floor == map[] && w.calls == [] && w.flights == map[] && w.ids == map[] && w.owner == map[]
  }

  ghost predicate Run(states: seq<World>, steps: seq<Step>) {
    && |states| == |steps| + 1 && Start(states[0])
    && forall i :: 0 <= i < |steps| ==> Next(states[i], steps[i], states[i + 1])
  }

  /** A cached value is never older than any update whose Del has completed. */
  ghost predicate NothingStale(w: World) {
    forall key: Key :: key in w.db && w.db[key].Cached? ==> Of(w.floor, key) <= w.db[key].version
  }

  /** Over every run of any number of clients, with deletes, expiries, steals, lost requests,
      lost replies and id changes at any moment, nothing stale is ever cached. */
  lemma {:induction false} NeverStale(states: seq<World>, steps: seq<Step>)
    requires Run(states, steps)
    ensures Inv(states[|steps|]) && NothingStale(states[|steps|])
    decreases |steps|
  {
    var n := |steps| - 1;
    if steps != [] {
      NeverStale(states[..n + 1], steps[..n]);
      StepInv(states[n], steps[n], states[n + 1]);
    } else {
      forall key: Key ensures KeyOk(states[0], key) {}
    }
    var w := states[|steps|];
    forall key: Key | key in w.db && w.db[key].Cached? ensures Of(w.floor, key) <= w.db[key].version {
      assert KeyOk(w, key);
    }
  }

  /** The key has held call i's placeholder in every state after step m, up to state n. */
  ghost predicate HeldSince(states: seq<World>, i: nat, m: nat, n: nat)
    requires n < |states|
  {
    forall k :: m < k <= n ==> i < |states[k].calls| && Holds(states[k].db, states[k].calls[i])
  }

  /** The call that a step is about, if any. */
  function Actor(s: Step): Option<nat> {
    match s
    case Unsent(i) => Some(i)
    case Acquire(i, _) => Some(i)
    case ReadSource(i) => Some(i)
    case Fail(i) => Some(i)
    case Store(i, _) => Some(i)
    case Cleanup(i, _) => Some(i)
    case _ => None
  }

  /** What a step may do to a call that is not its actor. */
  ghost predicate Watched(w: World, w': World, i: nat)
    requires i < |w'.calls|
  {
    || (i < |w.calls| && w'.calls[i] == Watch(w'.db, w.calls[i]))
    || (i < |w.calls| && w'.calls[i] == w.calls[i] && w'.db == w.db)
    || w'.calls[i].phase == Starting
  }

  lemma PhaseLeavesOthers(w: World, j: nat, phase: Phase, w': World, i: nat)
    requires j < |w.calls| && w' == SetPhase(w, j, phase) && i < |w'.calls| && i != j
    ensures Watched(w, w', i)
  {
  }

  lemma DbLeavesOthers(w: World, db: map<Key, Stored>, j: nat, phase: Phase, w': World, i: nat)
    requires j < |w.calls| && w' == SetPhase(SetDb(w, db), j, phase) && i < |w'.calls| && i != j
    ensures Watched(w, w', i)
  {
  }

  lemma {:induction false} AcquireLeavesOthers(w: World, j: nat, seen: bool, w': World, i: nat)
    requires Next(w, Acquire(j, seen), w') && i < |w'.calls| && i != j
    ensures Watched(w, w', i)
  {
    var c := w.calls[j];
    if c.key in w.db {
      PhaseLeavesOthers(w, j, if seen then Ended else Cleaning, w', i);
    } else {
      DbLeavesOthers(w, w.db[c.key := Lock(c.id)], j, if seen then Computing(None, true) else Cleaning, w', i);
    }
  }

  lemma {:induction false} StoreLeavesOthers(w: World, j: nat, seen: bool, w': World, i: nat)
    requires Next(w, Store(j, seen), w') && i < |w'.calls| && i != j
    ensures Watched(w, w', i)
  {
    var c := w.calls[j];
    DbLeavesOthers(w, SetKey(w.db, c.key, c.id, c.phase.read.value), j, if seen then Ended else Cleaning, w', i);
  }

  lemma {:induction false} CleanupLeavesOthers(w: World, j: nat, lost: bool, w': World, i: nat)
    requires Next(w, Cleanup(j, lost), w') && i < |w'.calls| && i != j
    ensures Watched(w, w', i)
  {
    if lost {
      PhaseLeavesOthers(w, j, Ended, w', i);
    } else {
      DbLeavesOthers(w, DelKey(w.db, w.calls[j].key, w.calls[j].id), j, Ended, w', i);
    }
  }

  lemma {:induction false} ActorLeavesOthers(w: World, s: Step, w': World, i: nat)
    requires Next(w, s, w') && i < |w'.calls| && Actor(s).Some? && Actor(s) != Some(i)
    ensures Watched(w, w', i)
  {
    match s
    case Unsent(j) => PhaseLeavesOthers(w, j, Cleaning, w', i);
    case Acquire(j, seen) => AcquireLeavesOthers(w, j, seen, w', i);
    case ReadSource(j) =>
      PhaseLeavesOthers(w, j, w.calls[j].phase.(read := Some(Of(w.source, w.calls[j].key))), w', i);
    case Fail(j) => PhaseLeavesOthers(w, j, Cleaning, w', i);
    case Store(j, seen) => StoreLeavesOthers(w, j, seen, w', i);
    case Cleanup(j, lost) => CleanupLeavesOthers(w, j, lost, w', i);
  }

  lemma {:induction false} OthersAreWatched(w: World, s: Step, w': World, i: nat)
    requires Next(w, s, w') && i < |w'.calls| && Actor(s) != Some(i)
    ensures Watched(w, w', i)
  {
    if Actor(s).Some? { ActorLeavesOthers(w, s, w', i); }
  }

  /** One step back from a call that still holds its lock. */
  lemma {:induction false} HeldBefore(w: World, s: Step, w': World, i: nat)
    requires Next(w, s, w') && i < |w'.calls| && w'.calls[i].phase.Computing? && w'.calls[i].phase.held
    ensures s == Acquire(i, true) ==> w'.calls[i].phase == Computing(None, true) && Holds(w'.db, w'.calls[i])
    ensures s != Acquire(i, true) ==>
              && i < |w.calls| && w.calls[i].phase.Computing? && w.calls[i].phase.held
              && (Holds(w.db, w.calls[i]) ==> Holds(w'.db, w'.calls[i]))
  {
    if Actor(s) != Some(i) {
      OthersAreWatched(w, s, w', i);
    } else {
      OwnStep(w, s, w', i);
    }
  }

  lemma OwnStep(w: World, s: Step, w': World, i: nat)
    requires Next(w, s, w') && Actor(s) == Some(i)
    ensures i < |w.calls| && i < |w'.calls|
    ensures w'.calls[i].phase.Computing? ==>
              || (s == Acquire(i, true) && w'.calls[i].phase == Computing(None, true) && Holds(w'.db, w'.calls[i]))
              || (s.ReadSource? && w'.db == w.db && w.calls[i].phase.Computing?
                  && w'.calls[i] == w.calls[i].(phase := w'.calls[i].phase)
                  && w'.calls[i].phase.held == w.calls[i].phase.held)
  {
  }

  lemma {:induction false} HeldMeansThroughout(states: seq<World>, steps: seq<Step>, n: nat, i: nat) returns (m: nat)
    requires Run(states, steps) && n <= |steps| && i < |states[n].calls|
    requires states[n].calls[i].phase.Computing? && states[n].calls[i].phase.held
    ensures m < n && steps[m] == Acquire(i, true) && HeldSince(states, i, m, n)
  {
    assert n > 0;
    assert Next(states[n - 1], steps[n - 1], states[n]);
    HeldBefore(states[n - 1], steps[n - 1], states[n], i);
    if steps[n - 1] == Acquire(i, true) {
      m := n - 1;
    } else {
      m := HeldMeansThroughout(states, steps, n - 1, i);
      assert HeldSince(states, i, m, n - 1);
    }
  }

  /** When setkey takes effect, the call put its placeholder there itself and the key held it at
      every moment since, so all of fn ran under the call's own lock. */
  lemma {:induction false} StoredUnderOwnLock(states: seq<World>, steps: seq<Step>, n: nat, i: nat, seen: bool)
    returns (m: nat)
    requires Run(states, steps) && n < |steps| && steps[n] == Store(i, seen)
    requires At(states[n], i) && Holds(states[n].db, states[n].calls[i])
    ensures m < n && steps[m] == Acquire(i, true) && HeldSince(states, i, m, n)
    ensures states[n + 1].db[states[n].calls[i].key] == Cached(states[n].calls[i].phase.read.value)
  {
    NeverStale(states[..n + 1], steps[..n]);
    assert Next(states[n], steps[n], states[n + 1]);
    assert states[..n + 1][n] == states[n] && CallOk(states[n], i);
    m := HeldMeansThroughout(states, steps, n, i);
  }

  // What one client process keeps under its mutex.

  ghost predicate OpenChannels(m: map<Key, nat>, closed: set<nat>, next: nat) {
    && (forall k :: k in m ==> m[k] < next && m[k] !in closed)
    && (forall j, k :: j in m && k in m && m[j] == m[k] ==> j == k)
  }

  function Except(waits: map<Key, nat>, keys: seq<Key>): map<Key, nat> {
    if keys == [] then waits else Except(waits, keys[..|keys| - 1]) - {keys[|keys| - 1]}
  }

  /** The channels of the waiters on the given keys. */
  function Woken(waits: map<Key, nat>, keys: seq<Key>): set<nat> {
    if keys == [] then {}
    else
      var k := keys[|keys| - 1];
      Woken(waits, keys[..|keys| - 1]) + (if k in waits then {waits[k]} else {})
  }

  lemma {:induction false} WokenHas(waits: map<Key, nat>, keys: seq<Key>, k: Key)
    requires k in waits && k !in Except(waits, keys)
    ensures waits[k] in Woken(waits, keys)
    decreases |keys|
  {
    if keys[|keys| - 1] != k { WokenHas(waits, keys[..|keys| - 1], k); }
  }

  /** Channels are numbered as they are made. Only a channel that is still open and still
      registered is ever closed, so none is closed twice. */
  class ClientState {
    var waits: map<Key, nat>
    var flights: map<Key, nat>
    var id: Option<Id>
    var closed: set<nat>
    var next: nat

    ghost predicate Valid()
      reads this
    {
      && OpenChannels(waits, closed, next) && OpenChannels(flights, closed, next)
      && (forall ch :: ch in closed ==> ch < next)
      && (forall j, k :: j in waits && k in flights ==> waits[j] != flights[k])
    }

    constructor ()
      ensures Valid() && waits == map[] && flights == map[] && id == None && closed == {}
    {
      waits, flights, id, closed, next := map[], map[], None, {}, 0;
    }

    method Register(key: Key) returns (ch: nat)
      requires Valid()
      modifies this`waits, this`next
      ensures Valid() && waits == old(waits)[key := ch] && ch !in closed
      ensures key in old(waits) ==> ch == old(waits)[key]
    {
      if key in waits { return waits[key]; }
      ch := next;
      waits, next := waits[key := ch], next + 1;
    }

    /** A nil list means that the connection is gone: every waiter wakes up and the id is dropped. */
    method OnInvalidation(keys: Option<seq<Key>>) returns (dropped: Option<Id>)
      requires Valid()
      modifies this`waits, this`id, this`closed
      ensures Valid()
      ensures keys.None? ==>
                dropped == old(id) && id == None && waits == map[] && closed == old(closed) + old(waits).Values
      ensures keys.Some? ==> dropped == None && id == old(id)
                             && waits == Except(old(waits), keys.value)
                             && closed == old(closed) + Woken(old(waits), keys.value)
    {
      if keys.None? {
        dropped, id := id, None;
        closed, waits := closed + waits.Values, map[];
      } else {
        dropped := None;
        Wake(keys.value);
      }
    }

    method Wake(keys: seq<Key>)
      requires Valid()
      modifies this`waits, this`closed
      ensures Valid() && waits == Except(old(waits), keys) && closed == old(closed) + Woken(old(waits), keys)
    {
      for i := 0 to |keys|
        invariant Valid() && waits == Except(old(waits), keys[..i])
        invariant forall k :: k in waits ==> k in old(waits) && waits[k] == old(waits)[k]
        invariant closed == old(closed) + Woken(old(waits), keys[..i])
      {
        var k := keys[i];
        assert keys[..i + 1][..i] == keys[..i];
        if k in old(waits) && k !in waits { WokenHas(old(waits), keys[..i], k); }
        WakeOne(k);
      }
      assert keys[..|keys|] == keys;
    }

    method WakeOne(k: Key)
      requires Valid()
      modifies this`waits, this`closed
      ensures Valid() && waits == old(waits) - {k}
      ensures closed == old(closed) + (if k in old(waits) then {old(waits)[k]} else {})
    {
      if k in waits {
        assert waits[k] !in closed;
        closed, waits := closed + {waits[k]}, waits - {k};
      }
    }

    /** At most one leader per key: nobody leads while a flight of the key is on. */
    method BeginFlight(key: Key) returns (f: nat, leader: bool)
      requires Valid()
      modifies this`flights, this`next
      ensures Valid() && flights == old(flights)[key := f] && f !in closed
      ensures leader == (key !in old(flights)) && (!leader ==> f == old(flights)[key])
      ensures leader ==> forall k :: k in old(flights) ==> old(flights)[k] != f
    {
      if key in flights { return flights[key], false; }
      f, leader := next, true;
      flights, next := flights[key := f], next + 1;
    }

    method FinishFlight(key: Key, f: nat)
      requires Valid()
      modifies this`flights, this`closed
      ensures Valid()
      ensures if key in old(flights) && old(flights)[key] == f
              then flights == old(flights) - {key} && closed == old(closed) + {f} && f !in old(closed)
              else flights == old(flights) && closed == old(closed)
    {
      if key in flights && flights[key] == f {
        flights, closed := flights - {key}, closed + {f};
      }
    }
  }
}
