/** The first round of a cluster batch: every command gets a connection, and the batch is split
    into one bucket per connection. The caller's routing callbacks may answer differently on
    every call, so their answers are given per command. */
module PickMulti {
  import opened Common
  import opened Cluster
  import opened Bitmap

  /** The slot maps, and whether a node selector is configured. */
  datatype Topology = Topology(
    wslots: seq<Option<Conn>>,
    rslots: Option<seq<seq<Option<Conn>>>>,
    sendsToReplicas: bool,
    selects: bool)

  ghost predicate ValidTopology(t: Topology) {
    |t.wslots| == INIT_SLOT && (t.rslots.Some? ==> |t.rslots.value| == INIT_SLOT)
  }

  ghost predicate ValidSlots(multi: seq<Command>) {
    forall i {:trigger multi[i]} :: 0 <= i < |multi| ==> multi[i].slot <= INIT_SLOT
  }

  /** `NoConn` makes the caller refresh and try again; `Mixed` is the panic on keyless commands
      among several slots. */
  datatype Picked = NoConn | Mixed | Buckets(m: map<Conn, Bucket>, init: bool)

  // What a routing of the batch means.

  /** The places routed to cc, in order. */
  ghost function Positions(routes: seq<Conn>, cc: Conn): seq<nat> {
    if routes == [] then []
    else
      var n := |routes| - 1;
      if routes[n] == cc then Positions(routes[..n], cc) + [n] else Positions(routes[..n], cc)
  }

  ghost function CommandsAt(multi: seq<Command>, routes: seq<Conn>, cc: Conn): seq<Command>
    requires |routes| <= |multi|
  {
    if routes == [] then []
    else
      var n := |routes| - 1;
      if routes[n] == cc then CommandsAt(multi, routes[..n], cc) + [multi[n]] else CommandsAt(multi, routes[..n], cc)
  }

  ghost function BucketOf(multi: seq<Command>, routes: seq<Conn>, cc: Conn): Bucket
    requires |routes| <= |multi|
  {
    Bucket(Positions(routes, cc), CommandsAt(multi, routes, cc), [], [])
  }

  ghost predicate Grouped(m: map<Conn, Bucket>, multi: seq<Command>, routes: seq<Conn>) {
    |routes| == |multi| &&
    (forall i :: 0 <= i < |routes| ==> routes[i] in m) &&
    (forall cc :: cc in m ==> cc in routes && m[cc] == BucketOf(multi, routes, cc))
  }

  lemma {:induction false} PositionsAre(multi: seq<Command>, routes: seq<Conn>, cc: Conn)
    requires |routes| <= |multi|
    ensures Aligned(multi, Positions(routes, cc), CommandsAt(multi, routes, cc))
    ensures forall k :: 0 <= k < |Positions(routes, cc)| ==>
      Positions(routes, cc)[k] < |routes| && routes[Positions(routes, cc)[k]] == cc
    ensures forall j, k :: 0 <= j < k < |Positions(routes, cc)| ==> Positions(routes, cc)[j] < Positions(routes, cc)[k]
  {
    if routes != [] { PositionsAre(multi, routes[..|routes| - 1], cc); }
  }

  lemma {:induction false} PositionIn(routes: seq<Conn>, i: nat)
    requires i < |routes|
    ensures i in Positions(routes, routes[i])
  {
    if i < |routes| - 1 { PositionIn(routes[..|routes| - 1], i); }
  }

  /** The buckets of a routing partition the batch: each index is in exactly one bucket, exactly
      once, beside its own command, and nothing is queued for ASKING. */
  lemma {:induction false} BucketsPartition(m: map<Conn, Bucket>, multi: seq<Command>, routes: seq<Conn>, i: nat)
    requires Grouped(m, multi, routes) && i < |multi|
    ensures routes[i] in m && i in m[routes[i]].cIndexes
    ensures forall cc :: cc in m ==> AlignedBucket(multi, m[cc]) && m[cc].aIndexes == []
    ensures forall cc, k :: cc in m && 0 <= k < |m[cc].cIndexes| && m[cc].cIndexes[k] == i ==> cc == routes[i]
    ensures forall cc, j, k :: cc in m && 0 <= j < k < |m[cc].cIndexes| ==> m[cc].cIndexes[j] != m[cc].cIndexes[k]
  {
    PositionIn(routes, i);
    forall cc | cc in m ensures AlignedBucket(multi, m[cc]) { PositionsAre(multi, routes, cc); }
    forall cc, k | cc in m && 0 <= k < |m[cc].cIndexes| && m[cc].cIndexes[k] == i ensures cc == routes[i] {
      PositionsAre(multi, routes, cc);
    }
    forall cc, j, k | cc in m && 0 <= j < k < |m[cc].cIndexes| ensures m[cc].cIndexes[j] != m[cc].cIndexes[k] {
      PositionsAre(multi, routes, cc);
    }
  }

  // The replica path.

  function NodeIndex(t: Topology, answer: int, n: nat): (r: nat)
    requires n > 0
    ensures r < n
  {
    if t.selects && 0 <= answer < n then answer else 0
  }

  /** Where a command goes given the callbacks' answers about it. */
  ghost function ReplicaRoute(t: Topology, cmd: Command, replica: bool, answer: int): Option<Conn>
    requires ValidTopology(t) && t.rslots.Some? && cmd.slot < INIT_SLOT
  {
    if !replica then t.wslots[cmd.slot]
    else
      var nodes := t.rslots.value[cmd.slot];
      if nodes == [] then None else nodes[NodeIndex(t, answer, |nodes|)]
  }

  ghost predicate Keyed(multi: seq<Command>) {
    forall i {:trigger multi[i]} :: 0 <= i < |multi| ==> multi[i].slot < INIT_SLOT
  }

  /** The routes of the first k commands, if all of them have one. */
  ghost function ReplicaRoutes(t: Topology, multi: seq<Command>, replica: seq<bool>, answer: seq<int>,
                               k: nat): (r: Option<seq<Conn>>)
    requires ValidTopology(t) && t.rslots.Some? && k <= |replica| == |answer| == |multi| && Keyed(multi)
    ensures r.Some? ==> |r.value| == k
  {
    if k == 0 then Some([])
    else
      var front := ReplicaRoutes(t, multi, replica, answer, k - 1);
      var last := ReplicaRoute(t, multi[k - 1], replica[k - 1], answer[k - 1]);
      if front.None? || last.None? then None else Some(front.value + [last.value])
  }

  lemma {:induction false} ReplicaRouteAt(t: Topology, multi: seq<Command>, replica: seq<bool>, answer: seq<int>,
                                          k: nat, i: nat)
    requires ValidTopology(t) && t.rslots.Some? && k <= |replica| == |answer| == |multi| && Keyed(multi)
    requires ReplicaRoutes(t, multi, replica, answer, k).Some? && i < k
    ensures ReplicaRoute(t, multi[i], replica[i], answer[i])
         == Some(ReplicaRoutes(t, multi, replica, answer, k).value[i])
    decreases k
  {
    if i < k - 1 { ReplicaRouteAt(t, multi, replica, answer, k - 1, i); }
  }

  lemma {:induction false} NoRouteStays(t: Topology, multi: seq<Command>, replica: seq<bool>, answer: seq<int>, i: nat,
                                        k: nat)
    requires ValidTopology(t) && t.rslots.Some? && i <= k <= |replica| == |answer| == |multi| && Keyed(multi)
    requires ReplicaRoutes(t, multi, replica, answer, i).None?
    ensures ReplicaRoutes(t, multi, replica, answer, k).None?
    decreases k
  {
    if i < k { NoRouteStays(t, multi, replica, answer, i, k - 1); }
  }

  // The second pass of both paths.

  ghost predicate Prefixes(m: map<Conn, Bucket>, multi: seq<Command>, routes: seq<Conn>, i: nat)
    requires i <= |routes| == |multi|
  {
    forall cc :: cc in m ==> m[cc] == BucketOf(multi, routes[..i], cc)
  }

  /** One command joins its bucket. */
  function Join(m: map<Conn, Bucket>, cc: Conn, i: nat, cmd: Command): map<Conn, Bucket>
    requires cc in m
  {
    m[cc := m[cc].(cIndexes := m[cc].cIndexes + [i], commands := m[cc].commands + [cmd])]
  }

  lemma {:induction false} BucketGrows(m: map<Conn, Bucket>, multi: seq<Command>, routes: seq<Conn>, i: nat)
    requires i < |routes| == |multi| && routes[i] in m && Prefixes(m, multi, routes, i)
    ensures Prefixes(Join(m, routes[i], i, multi[i]), multi, routes, i + 1)
  {
    assert routes[..i + 1][..i] == routes[..i];
  }

  lemma {:induction false} PrefixesAreAll(m: map<Conn, Bucket>, multi: seq<Command>, routes: seq<Conn>)
    requires |routes| == |multi| && Prefixes(m, multi, routes, |multi|)
    requires (forall i :: 0 <= i < |routes| ==> routes[i] in m) && forall cc :: cc in m ==> cc in routes
    ensures Grouped(m, multi, routes)
  {
    assert routes[..|multi|] == routes;
  }

  /** The buckets to fill: one empty bucket for every counted connection. */
  method Allocate(count: map<Conn, nat>) returns (m: map<Conn, Bucket>)
    ensures m.Keys == count.Keys && forall cc :: cc in m ==> m[cc] == EMPTY
  {
    m := map[];
    var left := count.Keys;
    while left != {}
      invariant left <= count.Keys && m.Keys == count.Keys - left
      invariant forall cc :: cc in m ==> m[cc] == EMPTY
      decreases left
    {
      var cc :| cc in left;
      m, left := m[cc := EMPTY], left - {cc};
    }
  }

  function Bump(count: map<Conn, nat>, cc: Conn, k: nat): map<Conn, nat> {
    count[cc := (if cc in count then count[cc] else 0) + k]
  }

  /** What the bitmap and the index map remember of the first pass: which commands chose a
      replica, and which one. */
  ghost predicate Remembers(bm: Bitmap, itor: map<nat, nat>, t: Topology, multi: seq<Command>, replica: seq<bool>,
                            answer: seq<int>, k: nat)
    requires ValidTopology(t) && t.rslots.Some? && k <= |replica| == |answer| == |multi| && Keyed(multi)
    requires bm.Valid() && |multi| <= bm.Len()
    reads bm, bm.exts, bm.bits
  {
    (forall i :: 0 <= i < |multi| ==> (bm.Has(i) <==> i < k && replica[i])) &&
    (forall i :: i in itor ==> i < k) &&
    (forall i {:trigger replica[i]} :: 0 <= i < k && replica[i] ==>
      var nodes := t.rslots.value[multi[i].slot];
      nodes != [] && Lookup(itor, i) == NodeIndex(t, answer[i], |nodes|))
  }

  /** A Go map read: the zero value when the key is missing. */
  function Lookup(itor: map<nat, nat>, i: nat): nat {
    if i in itor then itor[i] else 0
  }

  /** One command of the first pass: the callbacks are asked and their answers remembered. */
  method ChooseOne(t: Topology, multi: seq<Command>, replica: seq<bool>, answer: seq<int>, bm: Bitmap,
                   known: map<nat, nat>, i: nat)
    returns (cc: Option<Conn>, itor: map<nat, nat>)
    requires ValidTopology(t) && t.rslots.Some? && i < |replica| == |answer| == |multi| && Keyed(multi)
    requires bm.Valid() && |multi| <= bm.Len() && Remembers(bm, known, t, multi, replica, answer, i)
    modifies bm.exts, bm.bits
    ensures bm.Valid() && |multi| <= bm.Len()
    ensures cc == ReplicaRoute(t, multi[i], replica[i], answer[i])
    ensures cc.Some? ==> Remembers(bm, itor, t, multi, replica, answer, i + 1)
  {
    cc, itor := None, known;
    var slot := multi[i].slot;
    if replica[i] {
      var nodes := t.rslots.value[slot];
      if |nodes| > 0 {
        bm.Set(i);
        var rIndex := NodeIndex(t, answer[i], |nodes|);
        if rIndex != 0 {
          itor := itor[i := rIndex];
        }
        cc := nodes[rIndex];
      }
    } else {
      cc := t.wslots[slot];
    }
  }

  /** The first pass, which asks the callbacks. */
  method CountReplicas(t: Topology, multi: seq<Command>, replica: seq<bool>, answer: seq<int>, bm: Bitmap)
    returns (ok: bool, itor: map<nat, nat>, count: map<Conn, nat>)
    requires ValidTopology(t) && t.rslots.Some? && |replica| == |answer| == |multi| && Keyed(multi)
    requires bm.Valid() && |multi| <= bm.Len() && forall i :: 0 <= i < |multi| ==> !bm.Has(i)
    modifies bm.exts, bm.bits
    ensures bm.Valid() && |multi| <= bm.Len()
    ensures ok == ReplicaRoutes(t, multi, replica, answer, |multi|).Some?
    ensures ok ==> Remembers(bm, itor, t, multi, replica, answer, |multi|)
    ensures ok ==> forall cc :: cc in count <==> cc in ReplicaRoutes(t, multi, replica, answer, |multi|).value
  {
    itor, count := map[], map[];
    for i := 0 to |multi|
      invariant bm.Valid() && |multi| <= bm.Len()
      invariant ReplicaRoutes(t, multi, replica, answer, i).Some?
      invariant Remembers(bm, itor, t, multi, replica, answer, i)
      invariant forall cc :: cc in count <==> cc in ReplicaRoutes(t, multi, replica, answer, i).value
    {
      var cc;
      cc, itor := ChooseOne(t, multi, replica, answer, bm, itor, i);
      if cc.None? {
        NoRouteStays(t, multi, replica, answer, i + 1, |multi|);
        ok := false;
        return;
      }
      count := Bump(count, cc.value, 1);
    }
    ok := true;
  }

  /** The second pass reads its routes back from the bitmap and the index map. */
  method FillReplicas(t: Topology, multi: seq<Command>, bm: Bitmap, itor: map<nat, nat>, count: map<Conn, nat>,
                      ghost replica: seq<bool>, ghost answer: seq<int>, ghost routes: seq<Conn>)
    returns (m: map<Conn, Bucket>)
    requires ValidTopology(t) && t.rslots.Some? && |replica| == |answer| == |multi| && Keyed(multi)
    requires ReplicaRoutes(t, multi, replica, answer, |multi|) == Some(routes)
    requires bm.Valid() && |multi| <= bm.Len() && Remembers(bm, itor, t, multi, replica, answer, |multi|)
    requires forall cc :: cc in count <==> cc in routes
    ensures Grouped(m, multi, routes)
  {
    m := Allocate(count);
    for i := 0 to |multi|
      invariant m.Keys == count.Keys && Prefixes(m, multi, routes, i)
    {
      var cc: Option<Conn>;
      ReplicaRouteAt(t, multi, replica, answer, |multi|, i);
      var replicated := bm.Get(i);
      if replicated {
        cc := t.rslots.value[multi[i].slot][Lookup(itor, i)];
      } else {
        cc := t.wslots[multi[i].slot];
      }
      assert cc == Some(routes[i]) && routes[i] in routes;
      BucketGrows(m, multi, routes, i);
      m := Join(m, cc.value, i, multi[i]);
    }
    PrefixesAreAll(m, multi, routes);
  }

  method PickReplicas(t: Topology, multi: seq<Command>, replica: seq<bool>, answer: seq<int>) returns (r: Picked)
    requires ValidTopology(t) && t.rslots.Some? && |replica| == |answer| == |multi| && Keyed(multi)
    ensures match ReplicaRoutes(t, multi, replica, answer, |multi|)
      case None => r == NoConn
      case Some(routes) => r.Buckets? && !r.init && Grouped(r.m, multi, routes)
  {
    var bm := new Bitmap(|multi|);
    var ok, itor, count := CountReplicas(t, multi, replica, answer, bm);
    if !ok {
      return NoConn;
    }
    ghost var all := ReplicaRoutes(t, multi, replica, answer, |multi|).value;
    var m := FillReplicas(t, multi, bm, itor, count, replica, answer, all);
    r := Buckets(m, false);
  }

  // The main path.

  predicate HasInit(multi: seq<Command>) {
    exists i :: 0 <= i < |multi| && multi[i].slot == INIT_SLOT
  }

  /** The scan of the first k commands: the slot of the first keyed command, or where it ended. */
  datatype Scanned = Going(last: nat) | Ended(with: Picked)

  ghost function Scan(t: Topology, multi: seq<Command>, init: bool, k: nat): (r: Scanned)
    requires ValidTopology(t) && ValidSlots(multi) && k <= |multi|
    ensures r.Going? ==> r.last <= INIT_SLOT
    ensures r.Ended? ==> !r.with.Buckets?
  {
    if k == 0 then Going(INIT_SLOT)
    else
      var before := Scan(t, multi, init, k - 1);
      var slot := multi[k - 1].slot;
      if before.Ended? || slot == INIT_SLOT then before
      else if init && before.last != INIT_SLOT && before.last != slot then Ended(Mixed)
      else if t.wslots[slot].None? then Ended(NoConn)
      else Going(if before.last == INIT_SLOT then slot else before.last)
  }

  lemma {:induction false} EndedStays(t: Topology, multi: seq<Command>, init: bool, i: nat, k: nat)
    requires ValidTopology(t) && ValidSlots(multi) && i <= k <= |multi|
    requires Scan(t, multi, init, i).Ended?
    ensures Scan(t, multi, init, k) == Scan(t, multi, init, i)
    decreases k
  {
    if i < k { EndedStays(t, multi, init, i, k - 1); }
  }

  /** A scan that gets through found a connection for every key, and one slot only when keyless
      commands are in the batch. */
  lemma {:induction false} ScanMeans(t: Topology, multi: seq<Command>, init: bool, k: nat, i: nat)
    requires ValidTopology(t) && ValidSlots(multi) && i < k <= |multi| && multi[i].slot != INIT_SLOT
    requires Scan(t, multi, init, k).Going?
    ensures var last := Scan(t, multi, init, k).last;
      t.wslots[multi[i].slot].Some? && last != INIT_SLOT && t.wslots[last].Some? && (init ==> multi[i].slot == last)
    decreases k
  {
    LastHasConn(t, multi, init, k);
    if i < k - 1 { ScanMeans(t, multi, init, k - 1, i); }
  }

  lemma {:induction false} LastHasConn(t: Topology, multi: seq<Command>, init: bool, k: nat)
    requires ValidTopology(t) && ValidSlots(multi) && k <= |multi| && Scan(t, multi, init, k).Going?
    ensures var last := Scan(t, multi, init, k).last; last != INIT_SLOT ==> t.wslots[last].Some?
  {
    if k > 0 { LastHasConn(t, multi, init, k - 1); }
  }

  /** The panic: keyless commands among keys of different slots. */
  lemma {:induction false} MixedMeans(t: Topology, multi: seq<Command>, init: bool, k: nat) returns (i: nat, j: nat)
    requires ValidTopology(t) && ValidSlots(multi) && k <= |multi| && Scan(t, multi, init, k) == Ended(Mixed)
    ensures init && i < j < k && multi[i].slot != multi[j].slot
    ensures multi[i].slot < INIT_SLOT && multi[j].slot < INIT_SLOT
  {
    if Scan(t, multi, init, k - 1).Ended? {
      i, j := MixedMeans(t, multi, init, k - 1);
    } else {
      i := LastIsAt(t, multi, init, k - 1);
      j := k - 1;
    }
  }

  lemma {:induction false} LastIsAt(t: Topology, multi: seq<Command>, init: bool, k: nat) returns (i: nat)
    requires ValidTopology(t) && ValidSlots(multi) && k <= |multi| && Scan(t, multi, init, k).Going?
    requires Scan(t, multi, init, k).last != INIT_SLOT
    ensures i < k && multi[i].slot == Scan(t, multi, init, k).last
  {
    if Scan(t, multi, init, k - 1).last == INIT_SLOT {
      i := k - 1;
    } else {
      i := LastIsAt(t, multi, init, k - 1);
    }
  }

  /** Keyed commands go to their slot's owner, keyless ones to the owner of the slot `home`. */
  ghost predicate MainRouted(t: Topology, multi: seq<Command>, home: nat, routes: seq<Conn>)
    requires ValidTopology(t) && ValidSlots(multi) && home < INIT_SLOT
  {
    |routes| == |multi| &&
    forall i {:trigger multi[i]} :: 0 <= i < |multi| ==>
      t.wslots[if multi[i].slot == INIT_SLOT then home else multi[i].slot] == Some(routes[i])
  }

  /** The first slot that has an owner, for batches without keys. */
  method FirstOwned(t: Topology) returns (slot: nat)
    requires ValidTopology(t)
    ensures slot <= INIT_SLOT && (slot < INIT_SLOT ==> t.wslots[slot].Some?)
    ensures forall i :: 0 <= i < slot ==> t.wslots[i].None?
  {
    slot := 0;
    while slot < INIT_SLOT && t.wslots[slot].None?
      invariant slot <= INIT_SLOT && forall i :: 0 <= i < slot ==> t.wslots[i].None?
    {
      slot := slot + 1;
    }
  }

  ghost predicate Owns(t: Topology, multi: seq<Command>, i: nat, cc: Conn)
    requires ValidTopology(t) && ValidSlots(multi) && i < |multi|
  {
    multi[i].slot != INIT_SLOT && t.wslots[multi[i].slot] == Some(cc)
  }

  /** The owners of the slots of the first k commands. */
  ghost predicate Counted(t: Topology, multi: seq<Command>, k: nat, owners: set<Conn>)
    requires ValidTopology(t) && ValidSlots(multi) && k <= |multi|
  {
    (forall i {:trigger multi[i]} :: 0 <= i < k && multi[i].slot != INIT_SLOT ==>
      t.wslots[multi[i].slot].Some? && t.wslots[multi[i].slot].value in owners) &&
    (forall cc :: cc in owners ==> exists i :: 0 <= i < k && Owns(t, multi, i, cc))
  }

  lemma {:induction false} CountedMore(t: Topology, multi: seq<Command>, k: nat, owners: set<Conn>, cc: Conn)
    requires ValidTopology(t) && ValidSlots(multi) && k < |multi|
    requires Counted(t, multi, k, owners) && Owns(t, multi, k, cc)
    ensures Counted(t, multi, k + 1, owners + {cc})
  {
    forall c | c in owners + {cc} ensures exists i :: 0 <= i < k + 1 && Owns(t, multi, i, c) {
      if c != cc {
        var i :| 0 <= i < k && Owns(t, multi, i, c);
      }
    }
  }

  lemma {:induction false} CountIsRoutes(t: Topology, multi: seq<Command>, home: nat, routes: seq<Conn>,
                                         owners: set<Conn>, all: set<Conn>)
    requires ValidTopology(t) && ValidSlots(multi) && home < INIT_SLOT && t.wslots[home].Some?
    requires MainRouted(t, multi, home, routes) && Counted(t, multi, |multi|, owners)
    requires all == owners + if HasInit(multi) then {t.wslots[home].value} else {}
    ensures forall cc :: cc in all <==> cc in routes
  {
    forall cc | cc in all ensures cc in routes {
      if cc in owners {
        var i :| 0 <= i < |multi| && Owns(t, multi, i, cc);
        assert routes[i] == cc;
      } else {
        var i :| 0 <= i < |multi| && multi[i].slot == INIT_SLOT;
        assert routes[i] == cc;
      }
    }
    forall i | 0 <= i < |routes| ensures routes[i] in all {
      assert multi[i].slot == INIT_SLOT ==> HasInit(multi);
    }
  }

  method CountMain(t: Topology, multi: seq<Command>, init: bool) returns (r: Scanned, count: map<Conn, nat>, inits: nat)
    requires ValidTopology(t) && ValidSlots(multi)
    ensures r == Scan(t, multi, init, |multi|)
    ensures r.Going? ==> Counted(t, multi, |multi|, count.Keys)
  {
    var last := INIT_SLOT;
    count, inits := map[], 0;
    for i := 0 to |multi|
      invariant Scan(t, multi, init, i) == Going(last)
      invariant Counted(t, multi, i, count.Keys)
    {
      var slot := multi[i].slot;
      ghost var owners := count.Keys;
      if slot == INIT_SLOT {
        inits := inits + 1;
      } else {
        if last == INIT_SLOT {
          last := slot;
        } else if init && last != slot {
          EndedStays(t, multi, init, i + 1, |multi|);
          return Ended(Mixed), count, inits;
        }
        var cc := t.wslots[slot];
        if cc.None? {
          EndedStays(t, multi, init, i + 1, |multi|);
          return Ended(NoConn), count, inits;
        }
        CountedMore(t, multi, i, count.Keys, cc.value);
        count := Bump(count, cc.value, 1);
        assert count.Keys == owners + {cc.value};
      }
    }
    r := Going(last);
  }

  /** The second pass. */
  method FillMain(t: Topology, multi: seq<Command>, home: nat, count: map<Conn, nat>, ghost routes: seq<Conn>)
    returns (m: map<Conn, Bucket>)
    requires ValidTopology(t) && ValidSlots(multi) && home < INIT_SLOT && MainRouted(t, multi, home, routes)
    requires forall cc :: cc in count <==> cc in routes
    ensures Grouped(m, multi, routes)
  {
    m := Allocate(count);
    for i := 0 to |multi|
      invariant m.Keys == count.Keys && Prefixes(m, multi, routes, i)
    {
      var cc := if multi[i].slot != INIT_SLOT then t.wslots[multi[i].slot] else t.wslots[home];
      assert routes[i] in routes;
      BucketGrows(m, multi, routes, i);
      m := Join(m, cc.value, i, multi[i]);
    }
    PrefixesAreAll(m, multi, routes);
  }

  ghost function MainRoutes(t: Topology, multi: seq<Command>, home: nat, k: nat): (r: seq<Conn>)
    requires ValidTopology(t) && ValidSlots(multi) && home < INIT_SLOT && t.wslots[home].Some? && k <= |multi|
    requires forall i {:trigger multi[i]} :: 0 <= i < |multi| && multi[i].slot != INIT_SLOT ==>
               t.wslots[multi[i].slot].Some?
    ensures |r| == k
    ensures forall i :: 0 <= i < k ==>
              t.wslots[if multi[i].slot == INIT_SLOT then home else multi[i].slot] == Some(r[i])
  {
    if k == 0 then []
    else
      var slot := multi[k - 1].slot;
      MainRoutes(t, multi, home, k - 1) + [t.wslots[if slot == INIT_SLOT then home else slot].value]
  }

  ghost predicate OwnsAny(t: Topology)
    requires ValidTopology(t)
  {
    exists i :: 0 <= i < INIT_SLOT && t.wslots[i].Some?
  }

  method PickMain(t: Topology, multi: seq<Command>, init: bool) returns (r: Picked, home: nat, ghost routes: seq<Conn>)
    requires ValidTopology(t) && ValidSlots(multi) && multi != [] && init == HasInit(multi)
    ensures home <= INIT_SLOT
    ensures r.Buckets? <==> Scan(t, multi, init, |multi|).Going? && home < INIT_SLOT
    ensures r.Buckets? ==> r.init == init && MainRouted(t, multi, home, routes) && Grouped(r.m, multi, routes)
    ensures !r.Buckets? ==> r == match Scan(t, multi, init, |multi|) case Ended(p) => p case Going(_) => NoConn
    ensures r.Buckets? <==> Scan(t, multi, init, |multi|).Going? && OwnsAny(t)
  {
    routes, home := [], INIT_SLOT;
    var scanned, count, inits := CountMain(t, multi, init);
    if scanned.Ended? {
      return scanned.with, home, routes;
    }
    home := scanned.last;
    ghost var owners := count.Keys;
    LastHasConn(t, multi, init, |multi|);
    if home == INIT_SLOT {
      if multi[0].slot != INIT_SLOT { ScanMeans(t, multi, init, |multi|, 0); }
      home := FirstOwned(t);
      if home == INIT_SLOT {
        return NoConn, home, routes;
      }
      count := count[t.wslots[home].value := inits];
    } else if init {
      count := Bump(count, t.wslots[home].value, inits);
    }
    routes := MainRoutes(t, multi, home, |multi|);
    CountIsRoutes(t, multi, home, routes, owners, count.Keys);
    var m := FillMain(t, multi, home, count, routes);
    r := Buckets(m, init);
  }

  /** Batches without keyless commands go where replicas may be asked. */
  ghost predicate ToReplicas(t: Topology, multi: seq<Command>) {
    !HasInit(multi) && t.rslots.Some? && t.sendsToReplicas
  }

  /** The whole pick. Whatever path it takes, the buckets are those of one routing of the batch. */
  method Pick(t: Topology, multi: seq<Command>, replica: seq<bool>, answer: seq<int>)
    returns (r: Picked, ghost routes: seq<Conn>)
    requires ValidTopology(t) && ValidSlots(multi) && multi != [] && |replica| == |answer| == |multi|
    ensures r.Buckets? ==> r.init == HasInit(multi) && Grouped(r.m, multi, routes)
    ensures ToReplicas(t, multi) ==>
              ReplicaRoutes(t, multi, replica, answer, |multi|) == if r.Buckets? then Some(routes) else None
    ensures !ToReplicas(t, multi) && r.Buckets? ==>
              exists home :: 0 <= home < INIT_SLOT && MainRouted(t, multi, home, routes)
    ensures !ToReplicas(t, multi) ==>
              var scanned := Scan(t, multi, HasInit(multi), |multi|);
              && (r.Buckets? <==> scanned.Going? && OwnsAny(t))
              && (!r.Buckets? ==> r == if scanned.Ended? then scanned.with else NoConn)
  {
    routes := [];
    var init := false;
    var i := 0;
    while i < |multi| && !init
      invariant i <= |multi| && (init <==> exists j :: 0 <= j < i && multi[j].slot == INIT_SLOT)
      decreases |multi| - i
    {
      init := multi[i].slot == INIT_SLOT;
      i := i + 1;
    }
    if !init && t.rslots.Some? && t.sendsToReplicas {
      r := PickReplicas(t, multi, replica, answer);
      if r.Buckets? {
        routes := ReplicaRoutes(t, multi, replica, answer, |multi|).value;
      }
    } else {
      var home;
      r, home, routes := PickMain(t, multi, init);
    }
  }
}
