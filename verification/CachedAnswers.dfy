/** Reads through the cache, run against the coherent system. Whatever way a position of a read was
    answered, the value is one the server gave to that very pair, and it was still current at some
    moment of the read, or until then an invalidation of its key was on its way to the cache. */
module CachedAnswers {
  import opened Common
  import opened Message
  import opened LruSpec
  import opened Coherence
  import CR = CachedReads

  /** Step g serves the pair with this reply. */
  ghost predicate Gave(states: seq<System>, steps: seq<Step>, g: nat, p: Pair, v: Msg) {
    && g < |steps| && g < |states| && steps[g].Serve? && SameReply(v, steps[g].v)
    && states[g].asked != [] && states[g].asked[0] == p
  }

  /** In every state after k, up to state n, an invalidation of the key is queued to the client. */
  ghost predicate DoomedSince(states: seq<System>, k: nat, n: nat, key: Text) {
    forall j :: k < j <= n && j < |states| ==> Doomed(states[j].link, 0, key)
  }

  /** Served by step g, current and tracked in state k, and doomed ever since, up to state n. */
  ghost predicate From(eval: Eval, states: seq<System>, steps: seq<Step>, g: nat, k: nat, n: nat, p: Pair, v: Msg) {
    && g < k < |states| && Gave(states, steps, g, p, v) && Fresh(eval, states[k], p, v)
    && DoomedSince(states, k, n, p.0)
  }

  /** The value was given to this pair by state hi, and is no older than the connection's delay at
      the moment `at`: it was current at `at` or later, or what outdated it was still on its way. */
  ghost predicate Given(eval: Eval, states: seq<System>, steps: seq<Step>, at: nat, hi: nat, p: Pair, v: Msg) {
    exists g: nat, k: nat :: k <= hi && From(eval, states, steps, g, k, at, p, v)
  }

  // Where replies and entries come from.

  ghost predicate RepliesGiven(eval: Eval, states: seq<System>, steps: seq<Step>, n: nat)
    requires n < |states|
  {
    forall i :: 0 <= i < |states[n].link| && states[n].link[i].Reply? ==>
      Given(eval, states, steps, n, n, states[n].link[i].p, states[n].link[i].v)
  }

  ghost predicate EntriesGiven(eval: Eval, states: seq<System>, steps: seq<Step>, n: nat)
    requires n < |states|
  {
    forall e :: e in states[n].cache.list && !e.Pending() ==> Given(eval, states, steps, n, n, e.Pair(), e.val)
  }

  /** What was given by one state still is in the next, if it is fresh or doomed there. */
  lemma {:induction false} GivenNext(eval: Eval, states: seq<System>, steps: seq<Step>, n: nat, p: Pair, v: Msg)
    requires n + 1 < |states| && Given(eval, states, steps, n, n, p, v)
    requires Fresh(eval, states[n + 1], p, v) || Doomed(states[n + 1].link, 0, p.0)
    ensures Given(eval, states, steps, n + 1, n + 1, p, v)
  {
    var g: nat, k: nat :| k <= n && From(eval, states, steps, g, k, n, p, v);
    if Fresh(eval, states[n + 1], p, v) {
      assert From(eval, states, steps, g, n + 1, n + 1, p, v);
    } else {
      assert From(eval, states, steps, g, k, n + 1, p, v);
    }
  }

  lemma {:induction false} GivenSame(eval: Eval, states: seq<System>, steps: seq<Step>, at: nat, hi: nat, p: Pair,
                                     v: Msg, v': Msg)
    requires Given(eval, states, steps, at, hi, p, v) && SameReply(v', v)
    ensures Given(eval, states, steps, at, hi, p, v')
  {
    var g: nat, k: nat :| k <= hi && From(eval, states, steps, g, k, at, p, v);
    assert From(eval, states, steps, g, k, at, p, v');
  }

  /** The link of the next state holds what it held, and at most one reply more. */
  lemma {:induction false} LinkGrows(eval: Eval, s: System, step: Step, s': System, i: nat)
    requires Next(eval, s, step, s') && i < |s'.link| && s'.link[i].Reply?
    ensures || (exists j :: 0 <= j < |s.link| && s.link[j] == s'.link[i])
            || (step.Serve? && s.asked != [] && s'.link[i] == Reply(s.asked[0], step.v))
  {
    if step.Receive? {
      assert s'.link[i] == s.link[i + 1];
    } else if i < |s.link| {
      assert s'.link[i] == s.link[i];
    }
  }

  lemma {:induction false} ServedIsGiven(eval: Eval, states: seq<System>, steps: seq<Step>, g: nat, p: Pair, v: Msg)
    requires Run(eval, states, steps) && Gave(states, steps, g, p, v)
    ensures Given(eval, states, steps, g + 1, g + 1, p, v)
    ensures From(eval, states, steps, g, g + 1, g + 1, p, v)
  {
    assert Next(eval, states[g], steps[g], states[g + 1]);
    assert From(eval, states, steps, g, g + 1, g + 1, p, v);
  }

  lemma {:induction false} ReplyGiven(eval: Eval, states: seq<System>, steps: seq<Step>, n: nat, i: nat)
    requires Run(eval, states, steps) && n < |steps| && RepliesGiven(eval, states, steps, n)
    requires Coherent(eval, states[n + 1]) && i < |states[n + 1].link| && states[n + 1].link[i].Reply?
    ensures Given(eval, states, steps, n + 1, n + 1, states[n + 1].link[i].p, states[n + 1].link[i].v)
  {
    var w := states[n + 1].link[i];
    assert Next(eval, states[n], steps[n], states[n + 1]);
    LinkGrows(eval, states[n], steps[n], states[n + 1], i);
    if j :| 0 <= j < |states[n].link| && states[n].link[j] == w {
      assert ReplyOk(eval, states[n + 1], i);
      GivenNext(eval, states, steps, n, w.p, w.v);
    } else {
      ServedIsGiven(eval, states, steps, n, w.p, w.v);
    }
  }

  /** A completed entry is an old one, or holds the reply just received for its own pair. */
  lemma {:induction false} EntryComesFrom(eval: Eval, s: System, step: Step, s': System, e: Entry)
    requires Coherent(eval, s) && Next(eval, s, step, s') && e in s'.cache.list && !e.Pending()
    ensures || e in s.cache.list
            || (s.link != [] && s.link[0].Reply? && s.link[0].p == e.Pair() && SameReply(e.val, s.link[0].v))
  {
    match step
    case Local(op) => LocalCompletesNothing(s.cache, op, e);
    case Receive =>
      assert ReplyOk(eval, s, 0);
      match s.link[0] {
        case Reply(p, v) => UpdateCompletesItsPair(s.cache, p, v, e);
        case Failure =>
        case Invalidate(keys) => DeletePurges(s.cache, keys, e);
      }
    case _ =>
  }

  lemma {:induction false} EntryGiven(eval: Eval, states: seq<System>, steps: seq<Step>, n: nat, e: Entry)
    requires Run(eval, states, steps) && n < |steps| && Coherent(eval, states[n]) && Coherent(eval, states[n + 1])
    requires RepliesGiven(eval, states, steps, n) && EntriesGiven(eval, states, steps, n)
    requires e in states[n + 1].cache.list && !e.Pending()
    ensures Given(eval, states, steps, n + 1, n + 1, e.Pair(), e.val)
  {
    var s := states[n];
    assert Next(eval, s, steps[n], states[n + 1]);
    EntryComesFrom(eval, s, steps[n], states[n + 1], e);
    if e !in s.cache.list {
      GivenSame(eval, states, steps, n, n, e.Pair(), s.link[0].v, e.val);
    }
    assert EntryCoherent(eval, states[n + 1], e);
    GivenNext(eval, states, steps, n, e.Pair(), e.val);
  }

  lemma {:induction false} CoherentAt(eval: Eval, states: seq<System>, steps: seq<Step>, max: nat, n: nat)
    requires Run(eval, states, steps) && Start(states[0], max) && n < |states|
    ensures Coherent(eval, states[n])
  {
    EveryRunIsCoherent(eval, states[..n + 1], steps[..n], max);
  }

  /** Provenance over every run: each reply on the connection and each completed entry is what the
      server gave to that very pair, and what outdated it, if anything, is still on its way. */
  lemma {:induction false} EverythingIsGiven(eval: Eval, states: seq<System>, steps: seq<Step>, max: nat, n: nat)
    requires Run(eval, states, steps) && Start(states[0], max) && n < |states|
    ensures RepliesGiven(eval, states, steps, n) && EntriesGiven(eval, states, steps, n)
    decreases n
  {
    if n > 0 {
      EverythingIsGiven(eval, states, steps, max, n - 1);
      CoherentAt(eval, states, steps, max, n - 1);
      CoherentAt(eval, states, steps, max, n);
      forall i | 0 <= i < |states[n].link| && states[n].link[i].Reply?
        ensures Given(eval, states, steps, n, n, states[n].link[i].p, states[n].link[i].v)
      {
        ReplyGiven(eval, states, steps, n - 1, i);
      }
      forall e | e in states[n].cache.list && !e.Pending()
        ensures Given(eval, states, steps, n, n, e.Pair(), e.val)
      {
        EntryGiven(eval, states, steps, n - 1, e);
      }
    }
  }

  // Hits.

  /** A hit is what the server gave to its own pair, no older than the connection's delay. */
  lemma {:induction false} HitIsAnswer(eval: Eval, states: seq<System>, steps: seq<Step>, max: nat, n: nat, p: Pair,
                                       ttl: int, now: int, move: bool, v: Msg)
    requires Run(eval, states, steps) && Start(states[0], max) && n < |states|
    requires Flight(states[n].cache, p, ttl, now, move).1 == Hit(v)
    ensures Given(eval, states, steps, n, n, p, v)
  {
    EverythingIsGiven(eval, states, steps, max, n);
    FindMember(states[n].cache.list, p);
    var e := Find(states[n].cache.list, p).value;
    assert e in states[n].cache.list && !e.Pending() && e.Pair() == p && e.val == v;
  }

  // Waits.

  /** The channel belongs to a pending entry of the pair. */
  ghost predicate Fetching(c: Cache, id: nat, p: Pair) {
    exists e :: e in c.list && e.id == id && e.Pair() == p && e.Pending()
  }

  lemma {:induction false} WaitIsFetched(c: Cache, p: Pair, ttl: int, now: int, move: bool, id: nat)
    requires Flight(c, p, ttl, now, move).1 == Wait(id)
    ensures Fetching(c, id, p)
  {
    FindMember(c.list, p);
  }

  lemma {:induction false} FetchingIsOpen(c: Cache, id: nat, p: Pair)
    requires Inv(c)
    ensures Fetching(c, id, p) ==> id !in c.settled
  {
    assert EntriesOk(c);
  }

  /** Pending entries are old ones, or the one just added. */
  lemma {:induction false} PendingIsOld(c: Cache, op: Op, e: Entry)
    requires Inv(c) && c.max >= 0 && Allowed(op) && e in Apply(c, op).list && e.Pending() && e.id < c.next
    ensures e in c.list
  {
    match op
    case DoPeek(p, now, move) =>
      FindMember(c.list, p);
      DropMembers(c.list, {p});
    case DoMove(id) =>
      if FindId(c.list, id).Some? {
        FindIdMember(c.list, id);
        DropMembers(c.list, {FindId(c.list, id).value.Pair()});
      }
    case DoAcquire(p, ttl, now) =>
      FindMember(c.list, p);
      DropMembers(c.list, {p});
    case DoUpdate(p, v) => UpdatePending(c, p, v, e);
    case DoCancel(p, err) => DropMembers(c.list, {p});
    case DoDelete(keys) => DropMembers(c.list, Purged(c.list, keys));
    case DoClose(err) =>
  }

  lemma {:induction false} UpdatePending(c: Cache, p: Pair, v: Msg, e: Entry)
    requires Inv(c) && c.max >= 0 && v.typ != 0 && e in Update(c, p, v).0.list && e.Pending()
    ensures e in c.list
  {
    var f := Find(c.list, p);
    FindMember(c.list, p);
    if c.open && f.Some? {
      var c1 := if f.value.Pending() then Fill(c, f.value, v) else c;
      if f.value.Pending() { FillKeeps(c, f.value, v, c1); }
      EvictIsDrop(c1.list, c1.size, c1.max);
      DropMembers(c1.list, Evicted(c1.list, c1.size, c1.max));
      var i :| 0 <= i < |c1.list| && c1.list[i] == e;
    }
  }

  lemma {:induction false} FailuresFail(list: seq<Entry>, err: Error, id: nat)
    requires id in Failures(list, err)
    ensures Failures(list, err)[id] == Failed(err)
    decreases |list|
  {
    var n := |list| - 1;
    if !(list[n].Pending() && list[n].id == id) { FailuresFail(list[..n], err, id); }
  }

  /** A channel is closed by the reply to its own pair, or with an error. */
  lemma {:induction false} ClosedByOwnReply(c: Cache, op: Op, id: nat, p: Pair)
    requires Inv(c) && c.max >= 0 && Allowed(op) && Fetching(c, id, p) && id in Apply(c, op).settled
    ensures Apply(c, op).settled[id].Failed?
         || (op.DoUpdate? && op.p == p && SameReply(Apply(c, op).settled[id].v, op.value))
  {
    var e :| e in c.list && e.id == id && e.Pair() == p && e.Pending();
    assert EntryOk(c, e);
    match op
    case DoUpdate(q, v) => FindMember(c.list, q);
    case DoClose(err) => FailuresFail(c.list, err, id);
    case _ =>
  }

  lemma {:induction false} StillFetching(c: Cache, op: Op, id: nat, p: Pair)
    requires Inv(c) && c.max >= 0 && Allowed(op) && Fetching(c, id, p) && id !in Apply(c, op).settled
    ensures Fetching(Apply(c, op), id, p)
  {
    var c' := Apply(c, op);
    var e :| e in c.list && e.id == id && e.Pair() == p && e.Pending();
    assert EntryOk(c, e);
    ApplyInv(c, op);
    NextGrows(c, op);
    assert IsPending(c'.list, id);
    var e' :| e' in c'.list && e'.id == id && e'.Pending();
    PendingIsOld(c, op, e');
  }

  lemma NextGrows(c: Cache, op: Op)
    ensures Apply(c, op).next >= c.next
  {
  }

  /** What a waiter on channel id of pair p has been told by state hi. */
  ghost predicate Told(eval: Eval, states: seq<System>, steps: seq<Step>, at: nat, hi: nat, id: nat, p: Pair)
    requires hi < |states|
  {
    var c := states[hi].cache;
    id in c.settled && (c.settled[id].Failed? || Given(eval, states, steps, at, hi, p, c.settled[id].v))
  }

  /** Given by an earlier state, given by a later one; seen from a moment before it, still so. */
  lemma {:induction false} GivenLater(eval: Eval, states: seq<System>, steps: seq<Step>, n: nat, at: nat, hi: nat,
                                      hi': nat, p: Pair, v: Msg)
    requires at <= n && hi <= hi' && Given(eval, states, steps, n, hi, p, v)
    ensures Given(eval, states, steps, at, hi', p, v)
  {
    var g: nat, k: nat :| k <= hi && From(eval, states, steps, g, k, n, p, v);
    assert From(eval, states, steps, g, k, at, p, v);
  }

  /** A step of the system is an operation on its cache, or leaves the cache alone. */
  lemma {:induction false} StepIsOp(eval: Eval, s: System, step: Step, s': System) returns (same: bool, op: Op)
    requires Coherent(eval, s) && Next(eval, s, step, s')
    ensures same ==> s'.cache == s.cache
    ensures !same ==> Allowed(op) && s'.cache == Apply(s.cache, op)
    ensures !same && op.DoUpdate? ==> s.link != [] && s.link[0] == Reply(op.p, op.value)
  {
    same, op := true, DoClose(0);
    match step
    case Local(o) => same, op := false, o;
    case Receive =>
      assert ReplyOk(eval, s, 0);
      match s.link[0] {
        case Reply(p, v) => same, op := false, DoUpdate(p, v);
        case Failure =>
        case Invalidate(keys) => same, op := false, DoDelete(keys);
      }
    case _ =>
  }

  /** The step that closes the channel. */
  lemma {:induction false} ClosedIsTold(eval: Eval, states: seq<System>, steps: seq<Step>, at: nat, n: nat, id: nat,
                                        p: Pair, op: Op)
    requires at <= n && n + 1 < |states| && Coherent(eval, states[n]) && RepliesGiven(eval, states, steps, n)
    requires Allowed(op) && states[n + 1].cache == Apply(states[n].cache, op)
    requires op.DoUpdate? ==> states[n].link != [] && states[n].link[0] == Reply(op.p, op.value)
    requires Fetching(states[n].cache, id, p) && id in states[n + 1].cache.settled
    ensures Told(eval, states, steps, at, n + 1, id, p)
  {
    ClosedByOwnReply(states[n].cache, op, id, p);
    var o := states[n + 1].cache.settled[id];
    if o.Value? {
      assert states[n].link[0].Reply?;
      GivenSame(eval, states, steps, n, n, p, op.value, o.v);
      GivenLater(eval, states, steps, n, at, n, n + 1, p, o.v);
    }
  }

  lemma {:induction false} WaitStep(eval: Eval, states: seq<System>, steps: seq<Step>, at: nat, n: nat, id: nat,
                                    p: Pair)
    requires Run(eval, states, steps) && at <= n < |steps| && Coherent(eval, states[n])
    requires RepliesGiven(eval, states, steps, n)
    requires Fetching(states[n].cache, id, p) || Told(eval, states, steps, at, n, id, p)
    ensures Fetching(states[n + 1].cache, id, p) || Told(eval, states, steps, at, n + 1, id, p)
  {
    var c, c' := states[n].cache, states[n + 1].cache;
    assert Next(eval, states[n], steps[n], states[n + 1]);
    var same, op := StepIsOp(eval, states[n], steps[n], states[n + 1]);
    if !same { ApplyInv(c, op); }
    if Told(eval, states, steps, at, n, id, p) {
      if c.settled[id].Value? { GivenLater(eval, states, steps, at, at, n, n + 1, p, c.settled[id].v); }
    } else if !same && id !in c'.settled {
      StillFetching(c, op, id, p);
    } else if !same {
      ClosedIsTold(eval, states, steps, at, n, id, p, op);
    }
  }

  /** A waiter is told an error, or what the server gave to its own pair, no older than the
      connection's delay when it began to wait. */
  lemma {:induction false} WaitIsAnswer(eval: Eval, states: seq<System>, steps: seq<Step>, max: nat, at: nat, hi: nat,
                                        id: nat, p: Pair)
    requires Run(eval, states, steps) && Start(states[0], max)
    requires at <= hi < |states| && Fetching(states[at].cache, id, p)
    ensures Fetching(states[hi].cache, id, p) || Told(eval, states, steps, at, hi, id, p)
    decreases hi
  {
    if at < hi {
      WaitIsAnswer(eval, states, steps, max, at, hi - 1, id, p);
      CoherentAt(eval, states, steps, max, hi - 1);
      EverythingIsGiven(eval, states, steps, max, hi - 1);
      WaitStep(eval, states, steps, at, hi - 1, id, p);
    }
  }

  // Whole reads.

  /** One position of a read: its pair, and the moment and arguments of its lookup. */
  datatype Lookup = Lookup(p: Pair, at: nat, ttl: int, now: int, move: bool)

  ghost predicate LooksUp(states: seq<System>, q: Lookup, f: Flown) {
    q.at < |states| && Flight(states[q.at].cache, q.p, q.ttl, q.now, q.move).1 == f
  }

  /** The server served the pair with this reply between two moments. */
  ghost predicate Served(states: seq<System>, steps: seq<Step>, lo: nat, hi: nat, p: Pair, v: Msg) {
    exists g: nat :: lo <= g < hi && Gave(states, steps, g, p, v)
  }

  /** An error, or an answer as good as one can be given over this connection. */
  ghost predicate Answered(eval: Eval, states: seq<System>, steps: seq<Step>, hi: nat, q: Lookup, c: CR.Cell) {
    c.err.Some? || Given(eval, states, steps, q.at, hi, q.p, c.val)
  }

  /** The server would answer so at some moment from `at` to hi. */
  ghost predicate CurrentWithin(eval: Eval, states: seq<System>, at: nat, hi: nat, p: Pair, v: Msg) {
    exists k :: at <= k <= hi && k < |states| && SameReply(v, eval(p.1, Current(states[k].db, p.0)))
  }

  /** Unless an invalidation of the key was already on its way at the lookup, an answer is current at
      some moment between lookup and return. */
  lemma {:induction false} CurrentUnlessDoomed(eval: Eval, states: seq<System>, steps: seq<Step>, hi: nat, q: Lookup,
                                               c: CR.Cell)
    requires q.at < |states| && Answered(eval, states, steps, hi, q, c)
    ensures c.err.Some? || CurrentWithin(eval, states, q.at, hi, q.p, c.val) || Doomed(states[q.at].link, 0, q.p.0)
  {
    if c.err.None? {
      var g: nat, k: nat :| k <= hi && From(eval, states, steps, g, k, q.at, q.p, c.val);
      if k >= q.at {
        assert SameReply(c.val, eval(q.p.1, Current(states[k].db, q.p.0)));
      }
    }
  }

  lemma {:induction false} LookupServed(eval: Eval, states: seq<System>, steps: seq<Step>, hi: nat, q: Lookup, v: Msg)
    requires Run(eval, states, steps) && Served(states, steps, q.at, hi, q.p, v)
    ensures Given(eval, states, steps, q.at, hi, q.p, v)
  {
    var g: nat :| q.at <= g < hi && Gave(states, steps, g, q.p, v);
    ServedIsGiven(eval, states, steps, g, q.p, v);
    GivenLater(eval, states, steps, g + 1, q.at, g + 1, hi, q.p, v);
  }

  lemma {:induction false} LookupHits(eval: Eval, states: seq<System>, steps: seq<Step>, max: nat, hi: nat, q: Lookup,
                                      v: Msg)
    requires Run(eval, states, steps) && Start(states[0], max) && q.at <= hi && LooksUp(states, q, Hit(v))
    ensures Given(eval, states, steps, q.at, hi, q.p, v)
  {
    HitIsAnswer(eval, states, steps, max, q.at, q.p, q.ttl, q.now, q.move, v);
    GivenLater(eval, states, steps, q.at, q.at, q.at, hi, q.p, v);
  }

  lemma {:induction false} LookupWaits(eval: Eval, states: seq<System>, steps: seq<Step>, max: nat, hi: nat, q: Lookup,
                                       id: nat)
    requires Run(eval, states, steps) && Start(states[0], max)
    requires q.at <= hi < |states| && LooksUp(states, q, Wait(id)) && id in states[hi].cache.settled
    ensures Answered(eval, states, steps, hi, q, CR.CellOf(states[hi].cache.settled[id]))
  {
    WaitIsFetched(states[q.at].cache, q.p, q.ttl, q.now, q.move, id);
    WaitIsAnswer(eval, states, steps, max, q.at, hi, id, q.p);
    CoherentAt(eval, states, steps, max, hi);
    FetchingIsOpen(states[hi].cache, id, q.p);
  }

  /** A read of several keys or commands during any run of client and server: every position,
      whether it was a hit, waited for another caller or was asked from the server, and however
      often its pair repeats, ends with an error or with what the server gave to its own pair; and
      that was current at the lookup or later, or what outdated it was on its way at the lookup. */
  lemma {:induction false} CachedReadAnswers(eval: Eval, states: seq<System>, steps: seq<Step>, max: nat, hi: nat,
                                             qs: seq<Lookup>, out: seq<Flown>, waited: seq<CR.Cell>,
                                             replies: seq<CR.Cell>, cells: seq<CR.Cell>)
    requires Run(eval, states, steps) && Start(states[0], max) && hi < |states|
    requires |qs| == |out| == |waited|
    requires forall i {:trigger qs[i]} {:trigger out[i]} :: 0 <= i < |qs| ==>
               qs[i].at <= hi && LooksUp(states, qs[i], out[i])
    requires forall i {:trigger out[i]} {:trigger waited[i]} :: 0 <= i < |out| && out[i].Wait? ==>
               out[i].id in states[hi].cache.settled && waited[i] == CR.CellOf(states[hi].cache.settled[out[i].id])
    requires CR.Merged(cells, out, waited, replies) && |replies| == CR.MissRank(out, |out|)
    requires forall n :: 0 <= n < |replies| ==>
               var q := qs[CR.Missed(out, |out|)[n]];
               replies[n].err.Some? || Served(states, steps, q.at, hi, q.p, replies[n].val)
    ensures forall i :: 0 <= i < |qs| ==> Answered(eval, states, steps, hi, qs[i], cells[i])
  {
    var answers := (i: nat, c: CR.Cell) => i < |qs| && Answered(eval, states, steps, hi, qs[i], c);
    forall i | 0 <= i < |out| && out[i].Hit? ensures answers(i, CR.Cell(out[i].v, None)) {
      LookupHits(eval, states, steps, max, hi, qs[i], out[i].v);
    }
    forall i | 0 <= i < |out| && out[i].Wait? ensures answers(i, waited[i]) {
      LookupWaits(eval, states, steps, max, hi, qs[i], out[i].id);
    }
    forall n | 0 <= n < |replies| ensures answers(CR.Missed(out, |out|)[n], replies[n]) {
      if replies[n].err.None? {
        LookupServed(eval, states, steps, hi, qs[CR.Missed(out, |out|)[n]], replies[n].val);
      }
    }
    CR.MergeAgreesWithPlainRead(cells, out, waited, replies, answers);
  }

  // What cannot be had: an answer that is current at some moment of the read, always.

  /** The states of a run in which a key is read, then written, before the reply arrives. */
  ghost function RacingStates(p: Pair, v: Msg, x: Value, max: nat): (states: seq<System>)
    ensures |states| == 6
  {
    var s0 := System(map[], {}, [], [], NEW.(max := max));
    var s1 := s0.(cache := Acquire(s0.cache, p, 1000, 0).0);
    var s2 := s1.(asked := [p]);
    var s3 := s2.(asked := [], tracked := {p.0}, link := [Reply(p, v)]);
    var s4 := s3.(db := map[p.0 := x], tracked := {}, link := [Reply(p, v), Invalidate(Some({p.0}))]);
    var s5 := s4.(link := [Invalidate(Some({p.0}))], cache := Update(s4.cache, p, v).0);
    [s0, s1, s2, s3, s4, s5]
  }

  ghost function RacingSteps(p: Pair, v: Msg, x: Value): (steps: seq<Step>)
    ensures |steps| == 5
  {
    [Local(DoAcquire(p, 1000, 0)), Ask(p), Serve(v), Write(p.0, Some(x)), Receive]
  }

  /** The cache before and after the reply arrives. */
  lemma {:induction false} RacingCache(p: Pair, v: Msg, c: Cache, c': Cache, e: Entry, max: nat)
    requires v.typ != 0 && e == Entry(0, p.0, p.1, ZERO.(ttl := 1000), 0)
    requires max == EntrySize(p.0, p.1, Clamp(v, 1000))
    requires c == NEW.(max := max, list := [e], next := 1) && c' == Update(c, p, v).0
    ensures Acquire(NEW.(max := max), p, 1000, 0).0 == c && Flight(c, p, 1000, 0, false).1 == Wait(0)
    ensures Flight(c', p, 1000, 0, false).1 == Hit(Clamp(v, 1000))
    ensures 0 in c'.settled && c'.settled[0] == Value(Clamp(v, 1000))
  {
    assert Drop([], {p}) + [e] == [e];
    var done := e.(val := Clamp(v, 1000), size := max);
    assert Replace([e], done) == [done];
    assert Evict([done], max, max) == ([done], max);
  }

  /** Whenever a write changes what a command answers, there is a run in which a waiter is told the
      old answer although the server would give it neither at the lookup nor at the wake-up, and a
      hit right after is just as old; the invalidation was on its way both times. */
  lemma {:induction false} AnswersCanBeOutdated(eval: Eval, p: Pair, x: Value)
    returns (states: seq<System>, steps: seq<Step>, max: nat, v: Msg)
    requires eval(p.1, None).typ != 0 && !SameReply(eval(p.1, None), eval(p.1, Some(x)))
    ensures Run(eval, states, steps) && Start(states[0], max) && |states| == 6 && SameReply(v, eval(p.1, None))
    ensures LooksUp(states, Lookup(p, 4, 1000, 0, false), Wait(0))
    ensures 0 in states[5].cache.settled && states[5].cache.settled[0] == Value(v)
    ensures LooksUp(states, Lookup(p, 5, 1000, 0, false), Hit(v))
    ensures !CurrentWithin(eval, states, 4, 5, p, v)
    ensures Doomed(states[4].link, 0, p.0) && Doomed(states[5].link, 0, p.0)
  {
    var given := eval(p.1, None);
    v := Clamp(given, 1000);
    max := EntrySize(p.0, p.1, v);
    states, steps := RacingStates(p, given, x, max), RacingSteps(p, given, x);
    var e := Entry(0, p.0, p.1, ZERO.(ttl := 1000), 0);
    RacingCache(p, given, NEW.(max := max, list := [e], next := 1), states[5].cache, e, max);
    RacingRun(eval, p, x, max, states, steps);
    assert Invalidates(states[4].link[1], p.0) && Invalidates(states[5].link[0], p.0);
  }

  lemma {:induction false} RacingRun(eval: Eval, p: Pair, x: Value, max: nat, states: seq<System>, steps: seq<Step>)
    requires eval(p.1, None).typ != 0
    requires states == RacingStates(p, eval(p.1, None), x, max) && steps == RacingSteps(p, eval(p.1, None), x)
    ensures Run(eval, states, steps)
  {
    var v := eval(p.1, None);
    assert Next(eval, states[0], steps[0], states[1]);
    assert Next(eval, states[1], steps[1], states[2]);
    assert Next(eval, states[2], Serve(v), states[3]);
    assert [Reply(p, v)] + [Invalidate(Some({p.0}))] == [Reply(p, v), Invalidate(Some({p.0}))];
    assert {p.0} - {p.0} == {} && map[][p.0 := x] == map[p.0 := x];
    assert Next(eval, states[3], Write(p.0, Some(x)), states[4]);
    assert Next(eval, states[4], Receive, states[5]);
  }
}
