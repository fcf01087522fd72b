/** The cache-aside protocol when commands are executed late. A call's commands travel over the
    connection its client has at the time, first in first out; a call may give up while its command
    is still on the way, and what a lost connection carried may be executed at any later moment or
    never. A client id is dropped some time after its connection was lost. */
module AsideLate {
  import opened Common
  import opened Aside

  /** A place on a connection; numbers grow with every step. */
  datatype Place = Place(conn: nat, n: nat)

  /** What populate is doing. `got`, `done` say that the reply is there; what it says, too. */
  datatype Stage =
    | Fresh
    | Locking(got: Option<bool>)
    | Reading(read: Option<nat>)
    | Storing(done: bool)
    | Leaving
    | Freeing(done: bool)
    | Over

  /** `lock`, `store` and `free` are the commands of the call that are still on the way. */
  datatype Order = Order(client: Client, key: Key, id: Id, stage: Stage,
                         lock: Option<Place>, store: Option<(Place, nat)>, free: Option<Place>)

  /** `broken` are the clients that lost a connection and have not dropped the id they had then. */
  datatype Net = Net(
    db: map<Key, Stored>,
    source: map<Key, nat>,
    floor: map<Key, nat>,
    calls: seq<Order>,
    flights: map<(Client, Key), nat>,
    ids: map<Client, Id>,
    owner: map<Id, Client>,
    live: map<Client, nat>,
    broken: set<Client>,
    next: nat)

  /** What a call does, and what Redis does with its commands; `ok` false is a refusal. */
  datatype Act =
    | SendLock
    | ExecLock(ok: bool)
    | Locked
    | Read
    | SendStore
    | ExecStore(ok: bool)
    | GiveUp
    | SendFree
    | ExecFree(ok: bool)
    | Finish
    | Abort
    | Lose

  datatype Action =
    | Connect(client: Client)
    | Break(client: Client)
    | NewId(client: Client, id: Id)
    | Forget(client: Client)
    | Enter(client: Client, key: Key)
    | Move(i: nat, act: Act)
    | Exit(i: nat)
    | Vanish(key: Key)
    | Steal(key: Key, id: Id)
    | Change(key: Key)
    | Delete(key: Key)

  ghost predicate OnTheWay(c: Order) {
    c.lock.Some? || c.store.Some? || c.free.Some?
  }

  /** A command that can put something there is on the way. */
  ghost predicate Writing(c: Order) {
    c.lock.Some? || c.store.Some?
  }

  /** Which kinds of commands a call may leave on the way when it ends between the loss of a
      connection and the dropping of the id. */
  datatype Left = Left(lock: bool, store: bool, free: bool)

  /** Cleanups only. */
  const CLEANUPS := Left(false, false, true)

  /** The call's id is the one its client uses. */
  ghost predicate Current(w: Net, c: Order) {
    c.client in w.ids && w.ids[c.client] == c.id
  }

  /** No command was sent on the same connection before and is still on the way. */
  ghost predicate First(w: Net, p: Place) {
    forall j :: 0 <= j < |w.calls| ==>
      var c := w.calls[j];
      && (c.lock.Some? && c.lock.value.conn == p.conn ==> p.n <= c.lock.value.n)
      && (c.store.Some? && c.store.value.0.conn == p.conn ==> p.n <= c.store.value.0.n)
      && (c.free.Some? && c.free.value.conn == p.conn ==> p.n <= c.free.value.n)
  }

  ghost predicate InOrder(w: Net, c: Order, left: Left) {
    c.client in w.broken && Current(w, c) ==>
      (c.lock.Some? ==> left.lock) && (c.store.Some? ==> left.store) && (c.free.Some? ==> left.free)
  }

  /** One step of a call: the call and the database afterwards. */
  ghost predicate Does(w: Net, c: Order, act: Act, c': Order, db': map<Key, Stored>, left: Left) {
    match act
    case SendLock =>
      && c.stage == Fresh && c.client in w.live && db' == w.db
      && c' == c.(stage := Locking(None), lock := Some(Place(w.live[c.client], w.next)))
    case ExecLock(ok) =>
      && c.lock.Some? && First(w, c.lock.value)
      && var taken := ok && c.key !in w.db;
      && c' == c.(lock := None, stage := if ok && c.stage == Locking(None) then Locking(Some(taken)) else c.stage)
      && db' == if taken then w.db[c.key := Lock(c.id)] else w.db
    case Locked => c.stage == Locking(Some(true)) && c' == c.(stage := Reading(None)) && db' == w.db
    case Read => c.stage.Reading? && c' == c.(stage := Reading(Some(Of(w.source, c.key)))) && db' == w.db
    case SendStore =>
      && c.stage.Reading? && c.stage.read.Some? && c.client in w.live && db' == w.db
      && c' == c.(stage := Storing(false), store := Some((Place(w.live[c.client], w.next), c.stage.read.value)))
    case ExecStore(ok) =>
      && c.store.Some? && First(w, c.store.value.0)
      && c' == c.(store := None, stage := if ok && c.stage == Storing(false) then Storing(true) else c.stage)
      && db' == if ok then SetKey(w.db, c.key, c.id, c.store.value.1) else w.db
    // A deadline, an error of fn, a refusal or a lost connection.
    case GiveUp =>
      && (c.stage.Fresh? || c.stage.Locking? || c.stage.Reading? || c.stage.Storing?)
      && c' == c.(stage := Leaving) && db' == w.db
    case SendFree =>
      && c.stage == Leaving && c.client in w.live && db' == w.db
      && c' == c.(stage := Freeing(false), free := Some(Place(w.live[c.client], w.next)))
    case ExecFree(ok) =>
      && c.free.Some? && First(w, c.free.value)
      && c' == c.(free := None, stage := if c.stage == Freeing(false) then Freeing(true) else c.stage)
      && db' == if ok then DelKey(w.db, c.key, c.id) else w.db
    // The reply that ends the call: someone else's value, the stored value, or the end of the cleanup.
    case Finish =>
      && (c.stage == Locking(Some(false)) || c.stage == Storing(true) || c.stage == Freeing(true))
      && InOrder(w, c, left) && c' == c.(stage := Over) && db' == w.db
    // The cleanup fails, which takes a lost connection or none at all.
    case Abort =>
      && (c.stage == Leaving || c.stage.Freeing?) && (c.client !in w.live || c.client in w.broken || !Current(w, c))
      && InOrder(w, c, left) && c' == c.(stage := Over) && db' == w.db
    // What a lost connection carried is gone.
    case Lose => !UsesLive(w, c) && c' == c.(lock := None, store := None, free := None) && db' == w.db
  }

  /** Some command of the call is on the connection its client has. */
  ghost predicate UsesLive(w: Net, c: Order) {
    c.client in w.live &&
    (|| (c.lock.Some? && c.lock.value.conn == w.live[c.client])
     || (c.store.Some? && c.store.value.0.conn == w.live[c.client])
     || (c.free.Some? && c.free.value.conn == w.live[c.client]))
  }

  ghost predicate Step(w: Net, a: Action, w': Net, left: Left) {
    match a
    case Connect(c) => c !in w.live && w' == w.(live := w.live[c := w.next], next := w.next + 1)
    case Break(c) =>
      && c in w.live
      && w' == w.(live := w.live - {c}, broken := if c in w.ids then w.broken + {c} else w.broken)
    case NewId(c, id) => c !in w.ids && id !in w.owner && w' == w.(ids := w.ids[c := id], owner := w.owner[id := c])
    case Forget(c) => w' == w.(ids := w.ids - {c}, broken := w.broken - {c})
    case Enter(c, key) =>
      && (c, key) !in w.flights && c in w.ids
      && w' == w.(calls := w.calls + [Order(c, key, w.ids[c], Fresh, None, None, None)],
                  flights := w.flights[(c, key) := |w.calls|])
    case Move(i, act) =>
      && i < |w.calls| && i < |w'.calls| && Does(w, w.calls[i], act, w'.calls[i], w'.db, left)
      && w' == w.(calls := w.calls[i := w'.calls[i]], db := w'.db, next := w.next + 1)
    case Exit(i) =>
      && i < |w.calls| && w.calls[i].stage == Over
      && var c := w.calls[i];
      && (c.client, c.key) in w.flights && w.flights[(c.client, c.key)] == i
      && w' == w.(flights := w.flights - {(c.client, c.key)})
    case Vanish(key) => w' == w.(db := w.db - {key})
    case Steal(key, id) => w' == w.(db := DelKey(w.db, key, id))
    case Change(key) => w' == w.(source := w.source[key := Of(w.source, key) + 1])
    case Delete(key) => w' == w.(db := w.db - {key}, floor := w.floor[key := Of(w.source, key)])
  }

  // What every step keeps.

  /** Which commands can be on the way at which stage. */
  ghost predicate StageOk(c: Order) {
    && (c.lock.None? || c.store.None?)
    && (match c.stage
        case Fresh => !OnTheWay(c)
        case Locking(got) => c.store.None? && c.free.None? && (got.Some? ==> c.lock.None?)
        case Reading(_) => !OnTheWay(c)
        case Storing(done) => c.lock.None? && c.free.None? && (done ==> c.store.None?)
        case Leaving => c.free.None?
        case Freeing(done) => done ==> c.free.None?
        case Over => true)
  }

  /** The cleanup goes last, and all places are of the past. */
  ghost predicate PlacesOk(c: Order, next: nat) {
    && (c.lock.Some? ==> c.lock.value.n < next) && (c.store.Some? ==> c.store.value.0.n < next)
    && (c.free.Some? ==> c.free.value.n < next
                         && (c.lock.Some? ==> c.lock.value.n < c.free.value.n)
                         && (c.store.Some? ==> c.store.value.0.n < c.free.value.n))
  }

  /** As long as the client kept its connection, the commands under its id are on that one. */
  ghost predicate OnLive(w: Net, c: Order) {
    Current(w, c) && c.client !in w.broken && OnTheWay(c) ==>
      && c.client in w.live
      && (c.lock.Some? ==> c.lock.value.conn == w.live[c.client])
      && (c.store.Some? ==> c.store.value.0.conn == w.live[c.client])
      && (c.free.Some? ==> c.free.value.conn == w.live[c.client])
  }

  /** While the key holds the call's placeholder, what the call read is not outdated. */
  ghost predicate ReadOk(w: Net, c: Order) {
    c.key in w.db && w.db[c.key] == Lock(c.id) ==>
      && (c.stage.Reading? && c.stage.read.Some? ==> Of(w.floor, c.key) <= c.stage.read.value)
      && (c.store.Some? ==> Of(w.floor, c.key) <= c.store.value.1)
  }

  ghost predicate OrderOk(w: Net, i: nat)
    requires i < |w.calls|
  {
    var c := w.calls[i];
    && c.id in w.owner && w.owner[c.id] == c.client
    && (c.stage != Over ==> (c.client, c.key) in w.flights && w.flights[(c.client, c.key)] == i)
    && StageOk(c) && PlacesOk(c, w.next) && OnLive(w, c) && ReadOk(w, c)
    && (c.stage == Freeing(true) && Current(w, c) && c.client !in w.broken ==> !Writing(c))
    && (c.stage == Over && Current(w, c) ==> !Writing(c))
  }

  /** Calls with one key and one id come one after the other, with at most a cleanup on the way. */
  ghost predicate Apart(w: Net, i: nat, j: nat)
    requires i < j < |w.calls|
  {
    w.calls[i].key == w.calls[j].key && w.calls[i].id == w.calls[j].id ==>
      w.calls[i].stage == Over && !Writing(w.calls[i])
  }

  ghost predicate NetKeyOk(w: Net, key: Key) {
    && Of(w.floor, key) <= Of(w.source, key)
    && (key in w.db && w.db[key].Cached? ==> Of(w.floor, key) <= w.db[key].version)
  }

  ghost predicate NetInv(w: Net) {
    && (forall i: nat :: i < |w.calls| ==> OrderOk(w, i))
    && (forall i: nat, j: nat :: i < j < |w.calls| ==> Apart(w, i, j))
    && (forall key: Key :: NetKeyOk(w, key))
    && (forall c :: c in w.ids ==> w.ids[c] in w.owner && w.owner[w.ids[c]] == c)
  }

  lemma {:induction false} StageKept(w: Net, c: Order, act: Act, c': Order, db': map<Key, Stored>)
    requires StageOk(c) && PlacesOk(c, w.next) && Does(w, c, act, c', db', CLEANUPS)
    ensures StageOk(c') && PlacesOk(c', w.next + 1)
  {
  }

  lemma {:induction false} LiveKept(w: Net, c: Order, act: Act, c': Order, db': map<Key, Stored>)
    requires StageOk(c) && PlacesOk(c, w.next) && OnLive(w, c) && Does(w, c, act, c', db', CLEANUPS)
    ensures OnLive(w, c')
  {
  }

  /** A cleanup that was executed leaves nothing behind on the client's own connection. */
  lemma {:induction false} FreedIsLast(w: Net, i: nat, ok: bool, c': Order, db': map<Key, Stored>)
    requires i < |w.calls| && OrderOk(w, i) && Does(w, w.calls[i], ExecFree(ok), c', db', CLEANUPS)
    requires Current(w, w.calls[i]) && w.calls[i].client !in w.broken
    ensures !OnTheWay(c')
  {
    var c := w.calls[i];
    assert First(w, c.free.value);
  }

  lemma {:induction false} EndsClean(w: Net, i: nat, act: Act, c': Order, db': map<Key, Stored>)
    requires i < |w.calls| && OrderOk(w, i) && Does(w, w.calls[i], act, c', db', CLEANUPS)
    ensures c'.stage == Freeing(true) && Current(w, c') && c'.client !in w.broken ==> !Writing(c')
    ensures c'.stage == Over && Current(w, c') ==> !Writing(c')
  {
    if act.ExecFree? && Current(w, c') && c'.client !in w.broken { FreedIsLast(w, i, act.ok, c', db'); }
  }

  /** Whoever puts a placeholder there is alone with its key and id. */
  lemma {:induction false} LockIsAlone(w: Net, i: nat, j: nat)
    requires NetInv(w) && i < |w.calls| && j < |w.calls| && i != j && Writing(w.calls[i])
    requires w.calls[i].key == w.calls[j].key && w.calls[i].id == w.calls[j].id
    ensures w.calls[j].stage == Over && !Writing(w.calls[j])
  {
    var first, second := if i < j then i else j, if i < j then j else i;
    assert Apart(w, first, second);
  }

  lemma {:induction false} ReadKept(w: Net, i: nat, act: Act, c': Order, db': map<Key, Stored>, w': Net)
    requires NetInv(w) && i < |w.calls| && Does(w, w.calls[i], act, c', db', CLEANUPS)
    requires w'.db == db' && w'.floor == w.floor
    ensures ReadOk(w', c')
  {
    assert OrderOk(w, i) && NetKeyOk(w, w.calls[i].key);
  }

  lemma {:induction false} OthersReadKept(w: Net, i: nat, act: Act, c': Order, db': map<Key, Stored>, w': Net, j: nat)
    requires NetInv(w) && i < |w.calls| && Does(w, w.calls[i], act, c', db', CLEANUPS)
    requires w'.db == db' && w'.floor == w.floor && j < |w.calls| && j != i
    ensures ReadOk(w', w.calls[j])
  {
    var c, d := w.calls[i], w.calls[j];
    assert OrderOk(w, j);
    if act.ExecLock? && d.key == c.key && d.id == c.id { LockIsAlone(w, i, j); }
  }

  lemma {:induction false} KeysKept(w: Net, i: nat, act: Act, c': Order, db': map<Key, Stored>, w': Net, key: Key)
    requires NetInv(w) && i < |w.calls| && Does(w, w.calls[i], act, c', db', CLEANUPS)
    requires w'.db == db' && w'.floor == w.floor && w'.source == w.source
    ensures NetKeyOk(w', key)
  {
    assert NetKeyOk(w, key) && OrderOk(w, i);
  }

  /** A call that is over, with at most a cleanup on the way, stays so. */
  lemma {:induction false} OverIsOver(w: Net, c: Order, act: Act, c': Order, db': map<Key, Stored>)
    requires Does(w, c, act, c', db', CLEANUPS) && c.stage == Over && !Writing(c)
    ensures c'.stage == Over && !Writing(c')
  {
  }

  lemma {:induction false} SameCall(w: Net, c: Order, act: Act, c': Order, db': map<Key, Stored>)
    requires Does(w, c, act, c', db', CLEANUPS)
    ensures c'.key == c.key && c'.id == c.id && c'.client == c.client && (c.stage == Over ==> c'.stage == Over)
  {
  }

  lemma {:induction false} OwnOrderKept(w: Net, i: nat, act: Act, w': Net)
    requires NetInv(w) && Step(w, Move(i, act), w', CLEANUPS)
    ensures OrderOk(w', i)
  {
    var c, c' := w.calls[i], w'.calls[i];
    assert OrderOk(w, i);
    SameCall(w, c, act, c', w'.db);
    StageKept(w, c, act, c', w'.db);
    LiveKept(w, c, act, c', w'.db);
    EndsClean(w, i, act, c', w'.db);
    ReadKept(w, i, act, c', w'.db, w');
  }

  lemma {:induction false} OtherOrderKept(w: Net, i: nat, act: Act, w': Net, j: nat)
    requires NetInv(w) && Step(w, Move(i, act), w', CLEANUPS) && j < |w'.calls| && j != i
    ensures OrderOk(w', j)
  {
    assert OrderOk(w, j);
    OthersReadKept(w, i, act, w'.calls[i], w'.db, w', j);
  }

  lemma {:induction false} CallKept(w: Net, i: nat, act: Act, w': Net)
    requires NetInv(w) && Step(w, Move(i, act), w', CLEANUPS)
    ensures NetInv(w')
  {
    var c, c' := w.calls[i], w'.calls[i];
    SameCall(w, c, act, c', w'.db);
    forall j: nat | j < |w'.calls| ensures OrderOk(w', j) {
      if j == i { OwnOrderKept(w, i, act, w'); } else { OtherOrderKept(w, i, act, w', j); }
    }
    forall j: nat, k: nat | j < k < |w'.calls| ensures Apart(w', j, k) {
      assert Apart(w, j, k);
      if j == i && c.stage == Over && !Writing(c) { OverIsOver(w, c, act, c', w'.db); }
    }
    forall key: Key ensures NetKeyOk(w', key) { KeysKept(w, i, act, c', w'.db, w', key); }
  }

  /** Connections and ids come and go. */
  lemma {:induction false} LinkKept(w: Net, a: Action, w': Net)
    requires NetInv(w) && Step(w, a, w', CLEANUPS) && (a.Connect? || a.Break? || a.NewId? || a.Forget?)
    ensures NetInv(w')
  {
    forall j: nat | j < |w'.calls| ensures OrderOk(w', j) { assert OrderOk(w, j); }
    forall j: nat, k: nat | j < k < |w'.calls| ensures Apart(w', j, k) { assert Apart(w, j, k); }
    forall key: Key ensures NetKeyOk(w', key) { assert NetKeyOk(w, key); }
  }

  lemma {:induction false} EnterKept(w: Net, c: Client, key: Key, w': Net)
    requires NetInv(w) && Step(w, Enter(c, key), w', CLEANUPS)
    ensures NetInv(w')
  {
    forall j: nat | j < |w'.calls| ensures OrderOk(w', j) { if j < |w.calls| { assert OrderOk(w, j); } }
    forall j: nat, k: nat | j < k < |w'.calls| ensures Apart(w', j, k) {
      if k < |w.calls| { assert Apart(w, j, k); } else { assert OrderOk(w, j); }
    }
    forall key: Key ensures NetKeyOk(w', key) { assert NetKeyOk(w, key); }
  }

  /** Placeholders and values go. */
  lemma {:induction false} RemovalKept(w: Net, a: Action, w': Net)
    requires NetInv(w) && Step(w, a, w', CLEANUPS) && (a.Vanish? || a.Steal?)
    ensures NetInv(w')
  {
    forall j: nat | j < |w'.calls| ensures OrderOk(w', j) { assert OrderOk(w, j); }
    forall j: nat, k: nat | j < k < |w'.calls| ensures Apart(w', j, k) { assert Apart(w, j, k); }
    forall key: Key ensures NetKeyOk(w', key) { assert NetKeyOk(w, key); }
  }

  /** The source changes, keys are deleted for it, flights end. */
  lemma {:induction false} DataKept(w: Net, a: Action, w': Net)
    requires NetInv(w) && Step(w, a, w', CLEANUPS) && (a.Exit? || a.Change? || a.Delete?)
    ensures NetInv(w')
  {
    forall j: nat | j < |w'.calls| ensures OrderOk(w', j) { assert OrderOk(w, j); }
    forall j: nat, k: nat | j < k < |w'.calls| ensures Apart(w', j, k) { assert Apart(w, j, k); }
    forall key: Key ensures NetKeyOk(w', key) { assert NetKeyOk(w, key); }
  }

  lemma {:induction false} StepKept(w: Net, a: Action, w': Net)
    requires NetInv(w) && Step(w, a, w', CLEANUPS)
    ensures NetInv(w')
  {
    match a
    case Move(i, act) => CallKept(w, i, act, w');
    case Enter(c, key) => EnterKept(w, c, key, w');
    case Connect(_) => LinkKept(w, a, w');
    case Break(_) => LinkKept(w, a, w');
    case NewId(_, _) => LinkKept(w, a, w');
    case Forget(_) => LinkKept(w, a, w');
    case Vanish(_) => RemovalKept(w, a, w');
    case Steal(_, _) => RemovalKept(w, a, w');
    case _ => DataKept(w, a, w');
  }

  // Whole runs.

  const IDLE := Net(map[], map[], map[], [], map[], map[], map[], map[], {}, 0)

  ghost predicate StepAt(ws: seq<Net>, actions: seq<Action>, i: nat, left: Left) {
    i < |actions| && i + 1 < |ws| && Step(ws[i], actions[i], ws[i + 1], left)
  }

  ghost predicate NetRun(ws: seq<Net>, actions: seq<Action>, left: Left) {
    && |ws| == |actions| + 1 && ws[0] == IDLE
    && forall i: nat :: i < |actions| ==> StepAt(ws, actions, i, left)
  }

  ghost predicate NoneStale(w: Net) {
    forall key: Key :: key in w.db && w.db[key].Cached? ==> Of(w.floor, key) <= w.db[key].version
  }

  lemma {:induction false} RunKept(ws: seq<Net>, actions: seq<Action>, n: nat)
    requires NetRun(ws, actions, CLEANUPS) && n < |ws|
    ensures NetInv(ws[n])
    decreases n
  {
    if n == 0 {
      forall key: Key ensures NetKeyOk(ws[0], key) {}
    } else {
      RunKept(ws, actions, n - 1);
      assert StepAt(ws, actions, n - 1, CLEANUPS);
      StepKept(ws[n - 1], actions[n - 1], ws[n]);
    }
  }

  /** What is allowed stays allowed when more is. */
  lemma {:induction false} LooserStep(w: Net, a: Action, w': Net, left: Left, looser: Left)
    requires Step(w, a, w', left)
    requires (left.lock ==> looser.lock) && (left.store ==> looser.store) && (left.free ==> looser.free)
    ensures Step(w, a, w', looser)
  {
  }

  /** When calls that end too early leave nothing but cleanups on the way, nothing stale is ever
      cached, however late commands are executed. */
  lemma {:induction false} NeverStaleInOrder(ws: seq<Net>, actions: seq<Action>, left: Left, n: nat)
    requires NetRun(ws, actions, left) && !left.lock && !left.store && n < |ws|
    ensures NoneStale(ws[n])
  {
    forall i: nat | i < |actions| ensures StepAt(ws, actions, i, CLEANUPS) {
      assert StepAt(ws, actions, i, left);
      LooserStep(ws[i], actions[i], ws[i + 1], left, CLEANUPS);
    }
    RunKept(ws, actions, n);
    forall key: Key | key in ws[n].db && ws[n].db[key].Cached? ensures Of(ws[n].floor, key) <= ws[n].db[key].version {
      assert NetKeyOk(ws[n], key);
    }
  }

  // Runs from the start, step by step.

  datatype Path = Path(ws: seq<Net>, actions: seq<Action>)

  ghost predicate Leads(path: Path, left: Left, w: Net) {
    NetRun(path.ws, path.actions, left) && path.ws[|path.actions|] == w
  }

  lemma {:induction false} Then(path: Path, left: Left, w: Net, a: Action, w': Net) returns (path': Path)
    requires Leads(path, left, w) && Step(w, a, w', left)
    ensures Leads(path', left, w')
  {
    path' := Path(path.ws + [w'], path.actions + [a]);
    forall i: nat | i < |path'.actions| ensures StepAt(path'.ws, path'.actions, i, left) {
      if i < |path.actions| { assert StepAt(path.ws, path.actions, i, left); }
    }
  }

  /** A call of client c, with its id, just begun. */
  function Begun(c: Client, key: Key, id: Id): Order {
    Order(c, key, id, Fresh, None, None, None)
  }

  /** One step of call i. */
  lemma {:induction false} ThenMove(path: Path, left: Left, w: Net, i: nat, act: Act, c: Order, db: map<Key, Stored>)
    returns (path': Path, w': Net)
    requires Leads(path, left, w) && i < |w.calls| && Does(w, w.calls[i], act, c, db, left)
    ensures w' == w.(calls := w.calls[i := c], db := db, next := w.next + 1) && Leads(path', left, w')
  {
    w' := w.(calls := w.calls[i := c], db := db, next := w.next + 1);
    path' := Then(path, left, w, Move(i, act), w');
  }

  /** A call that was told of its lock reads the source. */
  lemma {:induction false} ReadsSource(path: Path, left: Left, w: Net, i: nat) returns (path': Path, w': Net)
    requires Leads(path, left, w) && i < |w.calls| && w.calls[i].stage == Locking(Some(true))
    ensures var read := Reading(Some(Of(w.source, w.calls[i].key)));
      w' == w.(calls := w.calls[i := w.calls[i].(stage := read)], next := w.next + 2)
    ensures Leads(path', left, w')
  {
    var c := w.calls[i];
    path', w' := ThenMove(path, left, w, i, Locked, c.(stage := Reading(None)), w.db);
    path', w' := ThenMove(path', left, w', i, Read, c.(stage := Reading(Some(Of(w.source, c.key)))), w.db);
    assert w.calls[i := c.(stage := Reading(None))][i := w'.calls[i]] == w.calls[i := w'.calls[i]];
  }

  /** A connected client whose first call sends its lock. */
  ghost function LockOnTheWay(c: Client, key: Key, id: Id): Net {
    Net(map[], map[], map[], [Begun(c, key, id).(stage := Locking(None), lock := Some(Place(0, 1)))],
        map[(c, key) := 0], map[c := id], map[id := c], map[c := 0], {}, 2)
  }

  lemma {:induction false} GetsToLock(c: Client, key: Key, id: Id, left: Left) returns (path: Path)
    ensures Leads(path, left, LockOnTheWay(c, key, id))
  {
    path := Path([IDLE], []);
    var w1 := IDLE.(live := map[c := 0], next := 1);
    path := Then(path, left, IDLE, Connect(c), w1);
    var w2 := w1.(ids := map[c := id], owner := map[id := c]);
    path := Then(path, left, w1, NewId(c, id), w2);
    var w3 := w2.(calls := [Begun(c, key, id)], flights := map[(c, key) := 0]);
    path := Then(path, left, w2, Enter(c, key), w3);
    path := Then(path, left, w3, Move(0, SendLock), LockOnTheWay(c, key, id));
  }

  /** The call gives up, the connection is lost, the cleanup fails before the id is dropped, and the
      client connects again. */
  ghost function EndedEarly(w: Net, c: Client): Net
    requires |w.calls| == 1
  {
    w.(calls := [w.calls[0].(stage := Over)], flights := map[], live := map[c := w.next + 2], broken := {c},
       next := w.next + 3)
  }

  /** A call that the client's loss of its connection catches with its lock or store on the way. */
  ghost predicate Caught(w: Net, left: Left, c: Client, key: Key, id: Id) {
    && |w.calls| == 1 && w.calls[0].client == c && w.calls[0].key == key && w.calls[0].free.None?
    && ((w.calls[0].stage.Locking? && left.lock && w.calls[0].store.None?)
        || (w.calls[0].stage.Storing? && left.store && w.calls[0].lock.None?))
    && w.ids == map[c := id] && w.live == map[c := 0] && w.broken == {} && w.flights == map[(c, key) := 0]
  }

  lemma {:induction false} GivesUp(path: Path, left: Left, w: Net, c: Client, key: Key, id: Id)
    returns (path': Path, w': Net)
    requires Leads(path, left, w) && Caught(w, left, c, key, id)
    ensures Leads(path', left, w')
    ensures w' == w.(calls := [w.calls[0].(stage := Leaving)], live := map[], broken := {c}, next := w.next + 1)
  {
    var w1;
    path', w1 := ThenMove(path, left, w, 0, GiveUp, w.calls[0].(stage := Leaving), w.db);
    assert w1.calls == [w.calls[0].(stage := Leaving)];
    w' := w1.(live := map[], broken := {c});
    path' := Then(path', left, w1, Break(c), w');
  }

  lemma {:induction false} EndsTooEarly(path: Path, left: Left, w: Net, c: Client, key: Key, id: Id)
    returns (path': Path)
    requires Leads(path, left, w) && Caught(w, left, c, key, id)
    ensures Leads(path', left, EndedEarly(w, c))
  {
    var w1, w2;
    path', w1 := GivesUp(path, left, w, c, key, id);
    path', w2 := ThenMove(path', left, w1, 0, Abort, w.calls[0].(stage := Over), w.db);
    assert w2.calls == [w.calls[0].(stage := Over)];
    var w3 := w2.(flights := map[]);
    path' := Then(path', left, w2, Exit(0), w3);
    path' := Then(path', left, w3, Connect(c), EndedEarly(w, c));
  }

  /** A second call of the client takes the key with the same id. */
  ghost function LockedAgain(w: Net, c: Client, key: Key, id: Id): Net
    requires |w.calls| == 1
  {
    w.(calls := [w.calls[0], Begun(c, key, id).(stage := Locking(Some(true)))], flights := map[(c, key) := 1],
       db := map[key := Lock(id)], next := w.next + 2)
  }

  lemma {:induction false} TakesOldId(path: Path, left: Left, w: Net, c: Client, key: Key, id: Id)
    returns (path': Path)
    requires Leads(path, left, w) && |w.calls| == 1 && w.db == map[] && w.flights == map[] && w.ids == map[c := id]
    requires c in w.live && w.calls[0].free.None?
    requires w.calls[0].lock.Some? ==> w.calls[0].lock.value.conn != w.live[c]
    requires w.calls[0].store.Some? ==> w.calls[0].store.value.0.conn != w.live[c]
    ensures Leads(path', left, LockedAgain(w, c, key, id))
  {
    var first, o := w.calls[0], Begun(c, key, id);
    var w1 := w.(calls := [first, o], flights := map[(c, key) := 1]);
    path' := Then(path, left, w, Enter(c, key), w1);
    o := o.(stage := Locking(None), lock := Some(Place(w.live[c], w.next)));
    var w2 := w1.(calls := [first, o], next := w.next + 1);
    path' := Then(path', left, w1, Move(1, SendLock), w2);
    path' := Then(path', left, w2, Move(1, ExecLock(true)), LockedAgain(w, c, key, id));
  }

  /** The source changes, and its key is deleted. */
  lemma {:induction false} Outdates(path: Path, left: Left, w: Net, key: Key) returns (path': Path, w': Net)
    requires Leads(path, left, w) && w.source == map[] && w.floor == map[] && w.db.Keys == {key}
    ensures w' == w.(source := map[key := 1], floor := map[key := 1], db := map[]) && Leads(path', left, w')
  {
    var w1 := w.(source := map[key := 1]);
    path' := Then(path, left, w, Change(key), w1);
    w' := w1.(floor := map[key := 1], db := map[]);
    path' := Then(path', left, w1, Delete(key), w');
  }

  // A store that is left behind.

  ghost function StoreOnTheWay(c: Client, key: Key, id: Id): Net {
    LockOnTheWay(c, key, id).(db := map[key := Lock(id)], next := 6,
      calls := [Begun(c, key, id).(stage := Storing(false), store := Some((Place(0, 5), 0)))])
  }

  lemma {:induction false} GetsToStore(c: Client, key: Key, id: Id, left: Left) returns (path: Path)
    ensures Leads(path, left, StoreOnTheWay(c, key, id))
  {
    path := GetsToLock(c, key, id, left);
    var w, o := LockOnTheWay(c, key, id), Begun(c, key, id);
    var w1, w2, w3;
    path, w1 := ThenMove(path, left, w, 0, ExecLock(true), o.(stage := Locking(Some(true))), map[key := Lock(id)]);
    path, w2 := ReadsSource(path, left, w1, 0);
    var stored := o.(stage := Storing(false), store := Some((Place(0, 5), 0)));
    path, w3 := ThenMove(path, left, w2, 0, SendStore, stored, w2.db);
    assert w3 == StoreOnTheWay(c, key, id);
  }

  /** If a store may be left behind: for every client, key and id, it finds the placeholder of the
      client's next call and caches a stale value. */
  lemma {:induction false} LateStoreIsStale(c: Client, key: Key, id: Id, left: Left) returns (path: Path, w: Net)
    requires left.store
    ensures Leads(path, left, w) && !NoneStale(w)
  {
    path := GetsToStore(c, key, id, left);
    path := EndsTooEarly(path, left, StoreOnTheWay(c, key, id), c, key, id);
    path, w := Outdates(path, left, EndedEarly(StoreOnTheWay(c, key, id), c), key);
    path := TakesOldId(path, left, w, c, key, id);
    var w1 := LockedAgain(w, c, key, id);
    w := w1.(calls := [w1.calls[0].(store := None), w1.calls[1]], db := map[key := Cached(0)], next := w1.next + 1);
    path := Then(path, left, w1, Move(0, ExecStore(true)), w);
    assert key in w.db && Of(w.floor, key) == 1;
  }

  // A lock that is left behind.

  /** The second call has read the source when its placeholder is deleted; the first call's lock
      puts it there again, and the store of the second is sent. */
  lemma {:induction false} LockComesLate(path: Path, left: Left, w: Net, c: Client, key: Key, id: Id)
    returns (path': Path, w': Net)
    requires Leads(path, left, w) && w == LockedAgain(EndedEarly(LockOnTheWay(c, key, id), c), c, key, id)
    ensures Leads(path', left, w') && |w'.calls| == 2 && !OnTheWay(w'.calls[0]) && w'.db == map[key := Lock(id)]
    ensures w'.calls[1] == Begun(c, key, id).(stage := Reading(Some(0))) && w'.floor == map[key := 1]
    ensures c in w'.live
  {
    var first, o := w.calls[0], Begun(c, key, id);
    var w1, w2;
    path', w1 := ReadsSource(path, left, w, 1);
    path', w2 := Outdates(path', left, w1, key);
    path', w' := ThenMove(path', left, w2, 0, ExecLock(true), first.(lock := None), map[key := Lock(id)]);
  }

  /** If a lock may be left behind: for every client, key and id, it renews the placeholder that was
      deleted under the client's next call, whose store then caches a stale value. */
  lemma {:induction false} LateLockIsStale(c: Client, key: Key, id: Id, left: Left) returns (path: Path, w: Net)
    requires left.lock
    ensures Leads(path, left, w) && !NoneStale(w)
  {
    path := GetsToLock(c, key, id, left);
    path := EndsTooEarly(path, left, LockOnTheWay(c, key, id), c, key, id);
    path := TakesOldId(path, left, EndedEarly(LockOnTheWay(c, key, id), c), c, key, id);
    var w1;
    path, w1 := LockComesLate(path, left, LockedAgain(EndedEarly(LockOnTheWay(c, key, id), c), c, key, id), c, key, id);
    var o, place := w1.calls[1], Place(w1.live[c], w1.next);
    var w2 := w1.(calls := [w1.calls[0], o.(stage := Storing(false), store := Some((place, 0)))], next := w1.next + 1);
    path := Then(path, left, w1, Move(1, SendStore), w2);
    w := w2.(calls := [w1.calls[0], o.(stage := Storing(true))], db := map[key := Cached(0)], next := w2.next + 1);
    path := Then(path, left, w2, Move(1, ExecStore(true)), w);
    assert key in w.db && Of(w.floor, key) == 1;
  }

  ghost predicate AlwaysFresh(left: Left) {
    forall ws, actions :: NetRun(ws, actions, left) ==> NoneStale(ws[|actions|])
  }

  /** With commands executed late, nothing stale is ever cached if and only if calls that end between
      the loss of a connection and the dropping of the id leave neither a lock nor a store on the
      way; a cleanup may be left. */
  lemma {:induction false} NeverStaleIffInOrder(left: Left)
    ensures AlwaysFresh(left) <==> !left.lock && !left.store
  {
    if left.store {
      var path, w := LateStoreIsStale(0, "k", 0, left);
    } else if left.lock {
      var path, w := LateLockIsStale(0, "k", 0, left);
    } else {
      forall ws, actions | NetRun(ws, actions, left) ensures NoneStale(ws[|actions|]) {
        NeverStaleInOrder(ws, actions, left, |actions|);
      }
    }
  }
}
