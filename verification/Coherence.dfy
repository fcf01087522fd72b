/** Client-side caching as a protocol: the cache of LruSpec, a server that tracks the keys it
    has answered, and a first-in first-out connection carrying replies and invalidations. */
module Coherence {
  import opened Common
  import opened Message
  import opened LruSpec

  type Value = seq<byte>

  datatype Wire = Reply(p: Pair, v: Msg) | Failure | Invalidate(keys: Option<set<Text>>)

  /** `asked` and `link` are the two directions of one connection. */
  datatype System = System(db: map<Text, Value>, tracked: set<Text>, asked: seq<Pair>, link: seq<Wire>, cache: Cache)

  /** What a read command answers about the value of its key. */
  type Eval = (Text, Option<Value>) -> Msg

  function Current(db: map<Text, Value>, key: Text): Option<Value> {
    if key in db then Some(db[key]) else None
  }

  /** The same reply apart from its expiry and the cache marker. */
  predicate SameReply(a: Msg, b: Msg) {
    a.typ == b.typ && a.body == b.body
  }

  predicate Invalidates(w: Wire, key: Text) {
    w.Invalidate? && (w.keys.None? || key in w.keys.value)
  }

  datatype Step =
    | Local(op: Op)
    | Ask(p: Pair)
    | Serve(v: Msg)
    | Refuse
    | Write(key: Text, value: Option<Value>)
    | Untrack(key: Text)
    | Flush
    | Receive

  /** What the client does with the next message of the connection. */
  function OnWire(c: Cache, w: Wire): Cache {
    match w
    case Reply(p, v) => Update(c, p, v).0
    case Failure => c
    case Invalidate(keys) => Delete(c, keys)
  }

  /** The server notifies the client about a key once, and then forgets it. */
  function Notify(s: System, key: Text): System {
    if key in s.tracked then s.(tracked := s.tracked - {key}, link := s.link + [Invalidate(Some({key}))]) else s
  }

  ghost predicate Next(eval: Eval, s: System, step: Step, s': System) {
    match step
    // Flight, Cancel or Close by any caller; updates and deletes come from the connection only.
    case Local(op) => !op.DoUpdate? && !op.DoDelete? && s' == s.(cache := Apply(s.cache, op))
    case Ask(p) => s' == s.(asked := s.asked + [p])
    // The read runs inside its transaction: the key becomes tracked as it is read.
    case Serve(v) =>
      && s.asked != []
      && var p := s.asked[0];
      && v.typ != 0 && SameReply(v, eval(p.1, Current(s.db, p.0)))
      && s' == s.(asked := s.asked[1..], tracked := s.tracked + {p.0}, link := s.link + [Reply(p, v)])
    // The transaction was aborted.
    case Refuse => s.asked != [] && s' == s.(asked := s.asked[1..], link := s.link + [Failure])
    // Any client writes, deletes, or the key expires.
    case Write(key, None) => s' == Notify(s, key).(db := s.db - {key})
    case Write(key, Some(v)) => s' == Notify(s, key).(db := s.db[key := v])
    // The server drops the key from a full tracking table.
    case Untrack(key) => s' == Notify(s, key)
    case Flush => s' == s.(db := map[], tracked := {}, link := s.link + [Invalidate(None)])
    case Receive => s.link != [] && s' == s.(link := s.link[1..], cache := OnWire(s.cache, s.link[0]))
  }

  /** The reply is what the server would answer now, and the server still tracks the key. */
  ghost predicate Fresh(eval: Eval, s: System, p: Pair, v: Msg) {
    p.0 in s.tracked && SameReply(v, eval(p.1, Current(s.db, p.0)))
  }

  /** An invalidation for the key is queued to the client at or after position i. */
  ghost predicate Doomed(link: seq<Wire>, i: nat, key: Text) {
    exists j :: i <= j < |link| && Invalidates(link[j], key)
  }

  ghost predicate ReplyOk(eval: Eval, s: System, i: nat)
    requires i < |s.link|
  {
    s.link[i].Reply? ==>
      && s.link[i].v.typ != 0
      && (Fresh(eval, s, s.link[i].p, s.link[i].v) || Doomed(s.link, i + 1, s.link[i].p.0))
  }

  ghost predicate EntryCoherent(eval: Eval, s: System, e: Entry) {
    e.Pending() || Fresh(eval, s, e.Pair(), e.val) || Doomed(s.link, 0, e.key)
  }

  ghost predicate Coherent(eval: Eval, s: System) {
    && Inv(s.cache) && s.cache.max >= 0
    && (forall i :: 0 <= i < |s.link| ==> ReplyOk(eval, s, i))
    && (forall e :: e in s.cache.list ==> EntryCoherent(eval, s, e))
  }

  /** The operations of callers never complete an entry. */
  lemma {:induction false} LocalCompletesNothing(c: Cache, op: Op, e: Entry)
    requires Inv(c) && !op.DoUpdate? && e in Apply(c, op).list && !e.Pending()
    ensures e in c.list
  {
    match op
    case DoPeek(p, now, move) =>
      FindMember(c.list, p);
      DropMembers(c.list, {p});
    case DoMove(id) =>
      if FindId(c.list, id).Some? {
        FindIdMember(c.list, id);
        DropMembers(c.list, {FindId(c.list, id).value.Pair()});
      }
    case DoAcquire(p, ttl, now) =>
      FindMember(c.list, p);
      DropMembers(c.list, {p});
    case DoCancel(p, err) => DropMembers(c.list, {p});
    case DoDelete(keys) => DropMembers(c.list, Purged(c.list, keys));
    case DoClose(err) =>
    case DoUpdate(p, v) =>
  }

  /** An update completes at most the entry of its own pair, with its own reply. */
  lemma {:induction false} UpdateCompletesItsPair(c: Cache, p: Pair, v: Msg, e: Entry)
    requires Inv(c) && c.max >= 0 && v.typ != 0 && e in Update(c, p, v).0.list && !e.Pending()
    ensures e in c.list || (e.Pair() == p && SameReply(e.val, v))
  {
    var f := Find(c.list, p);
    FindMember(c.list, p);
    if c.open && f.Some? {
      var c1 := if f.value.Pending() then Fill(c, f.value, v) else c;
      if f.value.Pending() { FillKeeps(c, f.value, v, c1); }
      EvictIsDrop(c1.list, c1.size, c1.max);
      DropMembers(c1.list, Evicted(c1.list, c1.size, c1.max));
      var i :| 0 <= i < |c1.list| && c1.list[i] == e;
      assert e == c.list[i] || e.id == f.value.id;
    }
  }

  lemma {:induction false} DeletePurges(c: Cache, keys: Option<set<Text>>, e: Entry)
    requires e in Delete(c, keys).list && !e.Pending()
    ensures e in c.list && !Invalidates(Invalidate(keys), e.key)
  {
    DropMembers(c.list, Purged(c.list, keys));
  }

  lemma {:induction false} DoomedLater(link: seq<Wire>, more: seq<Wire>, i: nat, key: Text)
    requires Doomed(link, i, key)
    ensures Doomed(link + more, i, key)
  {
    var j :| i <= j < |link| && Invalidates(link[j], key);
    assert (link + more)[j] == link[j];
  }

  /** Steps of the server: the link only grows, and what stops being fresh is doomed. */
  lemma {:induction false} ServerStep(eval: Eval, s: System, s': System, more: seq<Wire>)
    requires Coherent(eval, s) && s'.cache == s.cache && s'.link == s.link + more
    requires forall p, v :: Fresh(eval, s, p, v) ==> Fresh(eval, s', p, v) || Doomed(s'.link, |s.link|, p.0)
    requires forall i :: |s.link| <= i < |s'.link| ==> ReplyOk(eval, s', i)
    ensures Coherent(eval, s')
  {
    forall i | 0 <= i < |s'.link| ensures ReplyOk(eval, s', i) {
      if i < |s.link| {
        assert s'.link[i] == s.link[i] && ReplyOk(eval, s, i);
        if s.link[i].Reply? && Doomed(s.link, i + 1, s.link[i].p.0) { DoomedLater(s.link, more, i + 1, s.link[i].p.0); }
      }
    }
    forall e | e in s'.cache.list ensures EntryCoherent(eval, s', e) {
      assert EntryCoherent(eval, s, e);
      if Doomed(s.link, 0, e.key) { DoomedLater(s.link, more, 0, e.key); }
    }
  }

  lemma {:induction false} NotifyDooms(eval: Eval, s: System, key: Text, p: Pair, v: Msg, s': System)
    requires s'.link == Notify(s, key).link && s'.tracked == Notify(s, key).tracked
    requires forall k :: k != key ==> Current(s'.db, k) == Current(s.db, k)
    requires Fresh(eval, s, p, v)
    ensures Fresh(eval, s', p, v) || Doomed(s'.link, |s.link|, p.0)
  {
    if p.0 == key {
      assert Invalidates(s'.link[|s.link|], key);
    }
  }

  lemma {:induction false} WriteCoherent(eval: Eval, s: System, key: Text, s': System)
    requires Coherent(eval, s) && s'.cache == s.cache
    requires s'.link == Notify(s, key).link && s'.tracked == Notify(s, key).tracked
    requires forall k :: k != key ==> Current(s'.db, k) == Current(s.db, k)
    ensures Coherent(eval, s')
  {
    forall p, v | Fresh(eval, s, p, v) ensures Fresh(eval, s', p, v) || Doomed(s'.link, |s.link|, p.0) {
      NotifyDooms(eval, s, key, p, v, s');
    }
    ServerStep(eval, s, s', if key in s.tracked then [Invalidate(Some({key}))] else []);
  }

  lemma {:induction false} ReceiveCoherent(eval: Eval, s: System, s': System)
    requires Coherent(eval, s) && Next(eval, s, Receive, s')
    ensures Coherent(eval, s')
  {
    var w := s.link[0];
    assert ReplyOk(eval, s, 0);
    match w {
      case Reply(p, v) => UpdateInv(s.cache, p, v);
      case Failure =>
      case Invalidate(keys) => DeleteInv(s.cache, keys);
    }
    forall i | 0 <= i < |s'.link| ensures ReplyOk(eval, s', i) {
      assert ReplyOk(eval, s, i + 1) && s'.link[i] == s.link[i + 1];
      if s'.link[i].Reply? { DoomedShift(s.link, i + 2, s'.link[i].p.0); }
    }
    forall e | e in s'.cache.list && !e.Pending() ensures EntryCoherent(eval, s', e) {
      if w.Reply? {
        UpdateCompletesItsPair(s.cache, w.p, w.v, e);
      } else if w.Invalidate? {
        DeletePurges(s.cache, w.keys, e);
      }
      if e in s.cache.list {
        assert EntryCoherent(eval, s, e);
        assert Doomed(s.link, 0, e.key) ==> Doomed(s.link, 1, e.key);
      }
      DoomedShift(s.link, 1, e.key);
    }
  }

  lemma {:induction false} DoomedShift(link: seq<Wire>, i: nat, key: Text)
    requires link != [] && i > 0
    ensures Doomed(link, i, key) ==> Doomed(link[1..], i - 1, key)
  {
    if j :| i <= j < |link| && Invalidates(link[j], key) {
      assert link[1..][j - 1] == link[j];
    }
  }

  lemma {:induction false} StepCoherent(eval: Eval, s: System, step: Step, s': System)
    requires Coherent(eval, s) && Next(eval, s, step, s')
    ensures Coherent(eval, s')
  {
    match step
    case Local(op) =>
      ApplyInv(s.cache, op);
      forall i | 0 <= i < |s'.link| ensures ReplyOk(eval, s', i) { assert ReplyOk(eval, s, i); }
      forall e | e in s'.cache.list && !e.Pending() ensures EntryCoherent(eval, s', e) {
        LocalCompletesNothing(s.cache, op, e);
        assert EntryCoherent(eval, s, e);
      }
    case Ask(p) => ServerStep(eval, s, s', []);
    case Serve(v) => ServerStep(eval, s, s', [Reply(s.asked[0], v)]);
    case Refuse => ServerStep(eval, s, s', [Failure]);
    case Write(key, value) => WriteCoherent(eval, s, key, s');
    case Untrack(key) => WriteCoherent(eval, s, key, s');
    case Flush =>
      assert Invalidates(s'.link[|s.link|], []);
      forall key ensures Doomed(s'.link, |s.link|, key) { assert Invalidates(s'.link[|s.link|], key); }
      ServerStep(eval, s, s', [Invalidate(None)]);
    case Receive => ReceiveCoherent(eval, s, s');
  }

  ghost predicate Start(s: System, max: nat) {
    s.tracked == {} && s.asked == [] && s.link == [] && s.cache == NEW.(max := max)
  }

  ghost predicate Run(eval: Eval, states: seq<System>, steps: seq<Step>) {
    && |states| == |steps| + 1
    && forall i :: 0 <= i < |steps| ==> Next(eval, states[i], steps[i], states[i + 1])
  }

  /** Cache coherence over every run: a completed entry is what the server would answer now with
      its key still tracked, or an invalidation for its key is on its way; so once the connection
      is drained, every completed entry is current. */
  lemma {:induction false} EveryRunIsCoherent(eval: Eval, states: seq<System>, steps: seq<Step>, max: nat)
    requires Run(eval, states, steps) && Start(states[0], max)
    ensures Coherent(eval, states[|steps|])
    ensures var s := states[|steps|]; s.link == [] ==>
              forall e :: e in s.cache.list && !e.Pending() ==>
                e.key in s.tracked && SameReply(e.val, eval(e.cmd, Current(s.db, e.key)))
    decreases |steps|
  {
    var n := |steps| - 1;
    if steps != [] {
      EveryRunIsCoherent(eval, states[..n + 1], steps[..n], max);
      StepCoherent(eval, states[n], steps[n], states[n + 1]);
    }
    var s := states[|steps|];
    forall e | s.link == [] && e in s.cache.list && !e.Pending() ensures Fresh(eval, s, e.Pair(), e.val) {
      assert EntryCoherent(eval, s, e);
    }
  }
}
