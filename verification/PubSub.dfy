/** The subscription registry of a connection: a two-way index between channels and
    subscribers, each of which owns a message channel named by its id. */
module PubSub {
  import opened Common

  type Channel = string
  type Id = nat
  type Index = map<Channel, set<Id>>

  /** `detached` holds the subscribers that Close took out of the index and still has to close. */
  datatype Registry = Registry(open: bool, chs: Index, sub: map<Id, seq<Channel>>, cnt: nat,
                               detached: set<Id>, closed: set<Id>)

  const EMPTY := Registry(true, map[], map[], 0, {}, {})

  predicate Listed(chs: Index, c: Channel, id: Id) {
    c in chs && id in chs[c]
  }

  // What each operation does.

  /** id is listed under every channel of cs. */
  function ListAll(chs: Index, cs: seq<Channel>, id: Id): Index {
    if cs == [] then chs
    else
      var m, c := ListAll(chs, cs[..|cs| - 1], id), cs[|cs| - 1];
      m[c := (if c in m then m[c] else {}) + {id}]
  }

  function AfterSubscribe(r: Registry, cs: seq<Channel>): Registry {
    var id := r.cnt + 1;
    if r.open then r.(cnt := id, sub := r.sub[id := cs], chs := ListAll(r.chs, cs, id)) else r.(cnt := id)
  }

  function Unlist(chs: Index, ids: set<Id>): Index {
    map c | c in chs :: chs[c] - ids
  }

  /** Subscribers leave the index everywhere and their channels are closed. */
  function AfterRemove(r: Registry, ids: set<Id>): Registry {
    r.(chs := Unlist(r.chs, ids), sub := r.sub - ids, closed := r.closed + ids)
  }

  function AfterCancel(r: Registry, id: Id): Registry {
    if r.open && id in r.sub then AfterRemove(r, {id}) else r
  }

  function AfterUnsubscribe(r: Registry, c: Channel): Registry {
    if c in r.chs then
      var r1 := AfterRemove(r, r.chs[c]);
      r1.(chs := r1.chs - {c})
    else r
  }

  /** Close, under the lock. The message channels are closed one by one afterwards. */
  function Detach(r: Registry): Registry {
    r.(open := false, chs := map[], sub := map[], detached := r.detached + r.sub.Keys)
  }

  function CloseOne(r: Registry, id: Id): Registry {
    if id in r.detached then r.(detached := r.detached - {id}, closed := r.closed + {id}) else r
  }

  // The discipline.

  /** A subscriber is listed under exactly the channels it asked for, and only while registered;
      its channel is closed exactly when it is no longer registered nor about to be closed. */
  ghost predicate Inv(r: Registry) {
    && (forall c, id :: Listed(r.chs, c, id) <==> id in r.sub && c in r.sub[id])
    && r.sub.Keys !! r.detached !! r.closed
    && (forall id :: id in r.sub || id in r.detached || id in r.closed ==> 0 < id <= r.cnt)
    && (!r.open ==> r.sub == map[] && r.chs == map[])
    && (r.cnt == 0 ==> r.chs == map[])
  }

  datatype Op =
    | DoSubscribe(cs: seq<Channel>)
    | DoCancel(id: Id)
    | DoUnsubscribe(c: Channel)
    | DoDetach
    | DoCloseOne(id: Id)

  function Apply(r: Registry, op: Op): Registry {
    match op
    case DoSubscribe(cs) => AfterSubscribe(r, cs)
    case DoCancel(id) => AfterCancel(r, id)
    case DoUnsubscribe(c) => AfterUnsubscribe(r, c)
    case DoDetach => Detach(r)
    case DoCloseOne(id) => CloseOne(r, id)
  }

  lemma {:induction false} ListAllLists(chs: Index, cs: seq<Channel>, id: Id, c: Channel, x: Id)
    ensures Listed(ListAll(chs, cs, id), c, x) <==> Listed(chs, c, x) || (x == id && c in cs)
    decreases |cs|
  {
    if cs != [] {
      var n := |cs| - 1;
      ListAllLists(chs, cs[..n], id, c, x);
      assert cs == cs[..n] + [cs[n]];
    }
  }

  lemma {:induction false} SubscribeInv(r: Registry, cs: seq<Channel>)
    requires Inv(r)
    ensures Inv(AfterSubscribe(r, cs))
  {
    var r', id := AfterSubscribe(r, cs), r.cnt + 1;
    if r.open {
      forall c, x ensures Listed(r'.chs, c, x) <==> x in r'.sub && c in r'.sub[x] {
        ListAllLists(r.chs, cs, id, c, x);
        assert Listed(r.chs, c, x) <==> x in r.sub && c in r.sub[x];
      }
    }
  }

  lemma {:induction false} RemoveInv(r: Registry, ids: set<Id>)
    requires Inv(r) && ids <= r.sub.Keys
    ensures Inv(AfterRemove(r, ids))
  {
    var r' := AfterRemove(r, ids);
    forall c, x ensures Listed(r'.chs, c, x) <==> x in r'.sub && c in r'.sub[x] {
      assert Listed(r.chs, c, x) <==> x in r.sub && c in r.sub[x];
      assert Listed(r'.chs, c, x) <==> Listed(r.chs, c, x) && x !in ids;
    }
  }

  lemma {:induction false} UnsubscribeInv(r: Registry, c: Channel)
    requires Inv(r)
    ensures Inv(AfterUnsubscribe(r, c))
  {
    if c in r.chs {
      forall id | id in r.chs[c] ensures id in r.sub { assert Listed(r.chs, c, id); }
      RemoveInv(r, r.chs[c]);
      var r1, r' := AfterRemove(r, r.chs[c]), AfterUnsubscribe(r, c);
      forall x, id ensures Listed(r'.chs, x, id) <==> id in r'.sub && x in r'.sub[id] {
        assert Listed(r1.chs, x, id) <==> id in r1.sub && x in r1.sub[id];
      }
    }
  }

  lemma {:induction false} ApplyInv(r: Registry, op: Op)
    requires Inv(r)
    ensures Inv(Apply(r, op))
    ensures r.closed <= Apply(r, op).closed && r.cnt <= Apply(r, op).cnt
    // Whoever was registered or detached is so still, or its channel is closed now.
    ensures r.sub.Keys + r.detached <= Apply(r, op).sub.Keys + Apply(r, op).detached + Apply(r, op).closed
  {
    match op
    case DoSubscribe(cs) => SubscribeInv(r, cs);
    case DoCancel(id) => if r.open && id in r.sub { RemoveInv(r, {id}); }
    case DoUnsubscribe(c) => UnsubscribeInv(r, c);
    case DoDetach =>
    case DoCloseOne(id) =>
  }

  function ApplyAll(r: Registry, ops: seq<Op>): Registry {
    if ops == [] then r else Apply(ApplyAll(r, ops[..|ops| - 1]), ops[|ops| - 1])
  }

  /** Over every run: the index is exact, no channel is closed twice, nothing is ever sent to a
      closed channel, and a subscriber that was once registered is still registered, waits for
      Close to reach it, or has had its channel closed. */
  lemma {:induction false} EveryRunIsDisciplined(ops: seq<Op>, k: nat)
    requires k <= |ops|
    ensures Inv(ApplyAll(EMPTY, ops))
    ensures ApplyAll(EMPTY, ops[..k]).closed <= ApplyAll(EMPTY, ops).closed
    ensures forall id :: id in ApplyAll(EMPTY, ops[..k]).sub ==>
              var r := ApplyAll(EMPTY, ops); id in r.sub || id in r.detached || id in r.closed
    ensures forall c, id :: Listed(ApplyAll(EMPTY, ops).chs, c, id) ==> id !in ApplyAll(EMPTY, ops).closed
    decreases |ops|
  {
    if ops != [] {
      var n := |ops| - 1;
      if k <= n {
        assert ops[..n][..k] == ops[..k];
        EveryRunIsDisciplined(ops[..n], k);
      } else {
        assert ops[..k] == ops;
        EveryRunIsDisciplined(ops[..n], n);
      }
      ApplyInv(ApplyAll(EMPTY, ops[..n]), ops[n]);
    } else {
      assert ops[..k] == ops;
    }
  }

  // The registry as the source keeps it.

  class Subs {
    var open: bool
    var chs: Index
    var sub: map<Id, seq<Channel>>
    var cnt: nat
    var detached: set<Id>
    var closed: set<Id>

    ghost function State(): Registry
      reads this
    {
      Registry(open, chs, sub, cnt, detached, closed)
    }

    constructor ()
      ensures State() == EMPTY && Inv(State())
    {
      open, chs, sub, cnt, detached, closed := true, map[], map[], 0, {}, {};
    }

    method Subscribe(channels: seq<Channel>) returns (id: Option<Id>)
      requires Inv(State())
      modifies this
      ensures State() == AfterSubscribe(old(State()), channels) && Inv(State())
      ensures id == if open then Some(cnt) else None
    {
      SubscribeInv(State(), channels);
      cnt := cnt + 1;
      if !open { return None; }
      id := Some(cnt);
      sub := sub[cnt := channels];
      ghost var before := chs;
      for i := 0 to |channels|
        invariant chs == ListAll(before, channels[..i], cnt)
        invariant open && cnt == old(cnt) + 1 && sub == old(sub)[cnt := channels]
        invariant detached == old(detached) && closed == old(closed)
      {
        assert channels[..i + 1][..i] == channels[..i];
        var c := channels[i];
        chs := chs[c := (if c in chs then chs[c] else {}) + {cnt}];
      }
      assert channels[..|channels|] == channels;
    }

    /** The recipients of a message: the source sends to each of them under the read lock. */
    method Publish(channel: Channel) returns (to: set<Id>)
      requires Inv(State())
      ensures to !! closed && to <= sub.Keys
      ensures forall id :: id in to <==> id in sub && channel in sub[id]
    {
      to := if cnt != 0 && channel in chs then chs[channel] else {};
      forall id ensures id in to <==> id in sub && channel in sub[id] {
        assert Listed(chs, channel, id) <==> id in to;
      }
    }

    /** remove: walks the subscriber's own channels, then closes its message channel. */
    method Remove(id: Id)
      requires Inv(State())
      modifies this
      ensures Inv(State()) && State() == if id in old(sub) then AfterRemove(old(State()), {id}) else old(State())
    {
      if id in sub {
        RemoveInv(State(), {id});
        ghost var r := State();
        var cs := sub[id];
        for i := 0 to |cs|
          invariant chs.Keys == r.chs.Keys && sub == r.sub && closed == r.closed
          invariant detached == r.detached && open == r.open && cnt == r.cnt
          invariant forall c :: c in chs ==> chs[c] == if c in cs[..i] then r.chs[c] - {id} else r.chs[c]
        {
          if cs[i] in chs { chs := chs[cs[i] := chs[cs[i]] - {id}]; }
        }
        forall c | c in chs ensures chs[c] == r.chs[c] - {id} {
          assert cs[..|cs|] == cs;
          assert Listed(r.chs, c, id) <==> c in cs;
        }
        assert chs == Unlist(r.chs, {id});
        assert id !in closed;
        closed, sub := closed + {id}, sub - {id};
      }
    }

    method Cancel(id: Id)
      requires Inv(State())
      modifies this
      ensures Inv(State()) && State() == AfterCancel(old(State()), id)
    {
      if open { Remove(id); }
    }

    /** Unsubscribe removes, in map order, everyone listed under the channel. */
    method Unsubscribe(channel: Channel)
      requires Inv(State())
      modifies this
      ensures Inv(State()) && State() == AfterUnsubscribe(old(State()), channel)
    {
      UnsubscribeInv(State(), channel);
      if cnt == 0 || channel !in chs { return; }
      ghost var r, all := State(), chs[channel];
      var todo := chs[channel];
      forall id | id in all ensures id in sub { assert Listed(chs, channel, id); }
      RemoveNone(r);
      assert all - todo == {};
      while todo != {}
        invariant todo <= all && Inv(State()) && State() == AfterRemove(r, all - todo)
      {
        var id :| id in todo;
        Remove(id);
        RemoveTwice(r, all - todo, {id});
        assert all - (todo - {id}) == (all - todo) + {id};
        todo := todo - {id};
      }
      assert all - todo == all;
      chs := chs - {channel};
    }

    /** Close: out of the index under the lock, then each message channel is closed. */
    method Close()
      requires Inv(State())
      modifies this
      ensures Inv(State()) && !open && detached == old(detached)
      ensures closed == old(closed) + old(sub).Keys && sub == map[] && chs == map[]
    {
      var todo := sub.Keys;
      ghost var sbs := todo;
      open, chs, sub, detached := false, map[], map[], detached + todo;
      while todo != {}
        invariant todo <= sbs && Inv(State()) && !open
        invariant detached == old(detached) + todo && closed == old(closed) + (sbs - todo)
      {
        var id :| id in todo;
        CloseChannel(id);
        todo := todo - {id};
      }
    }

    method CloseChannel(id: Id)
      requires Inv(State()) && id in detached
      modifies this`detached, this`closed
      ensures Inv(State()) && State() == CloseOne(old(State()), id) && id !in old(closed)
    {
      detached, closed := detached - {id}, closed + {id};
    }
  }

  lemma {:induction false} RemoveNone(r: Registry)
    ensures AfterRemove(r, {}) == r
  {
    forall c | c in r.chs ensures Unlist(r.chs, {})[c] == r.chs[c] {}
    assert Unlist(r.chs, {}) == r.chs;
    assert r.sub - {} == r.sub;
  }

  lemma {:induction false} RemoveTwice(r: Registry, a: set<Id>, b: set<Id>)
    ensures AfterRemove(AfterRemove(r, a), b) == AfterRemove(r, a + b)
  {
    assert Unlist(Unlist(r.chs, a), b) == Unlist(r.chs, a + b) by {
      forall c | c in r.chs ensures r.chs[c] - a - b == r.chs[c] - (a + b) {}
    }
    assert r.sub - a - b == r.sub - (a + b);
  }
}
