/** The topology refresh of the cluster client: the slot tables are built from a snapshot of the
    connections without the lock, and repaired under the lock for connections that were replaced
    meanwhile. With a read-node selector a slot's replica list is the node list of its group
    itself, so repairing one slot changes the group. */
module Refresh {
  import opened Common

  type Addr = nat

  /** A connection is made for one address and never stored under another. */
  datatype Conn = Conn(addr: Addr, id: nat)

  datatype Group = Group(addrs: seq<Addr>, ranges: seq<(int, int)>)

  /** How slots are served: primaries only, replicas only, one chosen replica per slot, or the
      whole group for a selector to choose from. */
  datatype Serving = Primaries | ReplicaOnly | Chosen | Selected

  /** A slot's replica list: none, the nodes of group g themselves, or one node of its own. */
  datatype RSlot = NoNodes | Shared(g: nat) | Own(c: Conn)

  datatype Tables = Tables(w: seq<Option<Conn>>, r: seq<RSlot>, nodes: seq<seq<Conn>>)

  /** Whether a range reaches slot i; a range that starts below zero is skipped as a whole. */
  predicate InRange(lh: (int, int), i: int) { 0 <= lh.0 <= i <= lh.1 && i < SLOTS }

  predicate CoversFirst(g: Group, k: nat, i: int)
    requires k <= |g.ranges|
  {
    exists x :: 0 <= x < k && InRange(g.ranges[x], i)
  }

  predicate Covers(g: Group, i: int) { CoversFirst(g, |g.ranges|, i) }

  /** An order in which a Go map may be walked: every group once. */
  ghost predicate Order(o: seq<nat>, n: nat) {
    (forall k :: 0 <= k < |o| ==> o[k] < n) &&
    (forall g: nat :: g < n ==> g in o) &&
    (forall j, k :: 0 <= j < k < |o| ==> o[j] != o[k])
  }

  // Building.

  /** The node of a group that serves writes, given the random or selected choice for the slot. */
  function WriteNode(sv: Serving, n: nat, choice: nat): (x: nat)
    requires n > 0
    ensures x < n
  {
    if sv.ReplicaOnly? && n > 1 then 1 + choice % (n - 1) else 0
  }

  function ReadNode(n: nat, choice: int): (x: nat)
    requires n > 0
    ensures x < n
  {
    if n > 1 && 0 <= choice < n - 1 then 1 + choice else 0
  }

  function BuiltR(sv: Serving, g: nat, nodes: seq<Conn>, choice: int): RSlot
    requires nodes != []
  {
    match sv
    case Primaries => NoNodes
    case ReplicaOnly => NoNodes
    case Chosen => Own(nodes[ReadNode(|nodes|, choice)])
    case Selected => if |nodes| > 1 then Shared(g) else Own(nodes[0])
  }

  datatype Choices = Choices(random: (nat, int) -> nat, selector: (nat, int) -> int)

  /** The last of the first k groups of the order that covers slot i. */
  ghost function Owner(gs: seq<Group>, bo: seq<nat>, k: nat, i: int): (r: Option<nat>)
    requires Order(bo, |gs|) && k <= |bo|
    ensures r.Some? ==> r.value < |gs| && Covers(gs[r.value], i) && r.value in bo[..k]
  {
    if k == 0 then None
    else if Covers(gs[bo[k - 1]], i) then Some(bo[k - 1])
    else
      assert bo[..k - 1] <= bo[..k];
      Owner(gs, bo, k - 1, i)
  }

  /** The tables after the groups were walked in the order bo. */
  ghost predicate Built(t: Tables, gs: seq<Group>, nodes: seq<seq<Conn>>, sv: Serving, ch: Choices, bo: seq<nat>)
    requires Order(bo, |gs|) && |nodes| == |gs| && forall g :: 0 <= g < |gs| ==> nodes[g] != []
  {
    |t.w| == |t.r| == SLOTS && t.nodes == nodes &&
    forall i {:trigger t.w[i]} {:trigger t.r[i]} :: 0 <= i < SLOTS ==>
      match Owner(gs, bo, |bo|, i)
      case None => t.w[i].None? && t.r[i].NoNodes?
      case Some(g) =>
        t.w[i] == Some(nodes[g][WriteNode(sv, |nodes[g]|, ch.random(g, i))]) &&
        t.r[i] == BuiltR(sv, g, nodes[g], ch.selector(g, i))
  }

  // Repairing.

  function Fix(c: Conn, replaced: map<Conn, Conn>): Conn {
    if c in replaced then replaced[c] else c
  }

  function FixAll(cs: seq<Conn>, replaced: map<Conn, Conn>): (r: seq<Conn>)
    ensures |r| == |cs| && forall k :: 0 <= k < |cs| ==> r[k] == Fix(cs[k], replaced)
  {
    if cs == [] then [] else FixAll(cs[..|cs| - 1], replaced) + [Fix(cs[|cs| - 1], replaced)]
  }

  predicate Hit(cs: seq<Conn>, replaced: map<Conn, Conn>) {
    exists k :: 0 <= k < |cs| && cs[k] in replaced
  }

  ghost predicate Touches(t: Tables, g: Group, h: nat)
    requires |t.r| == SLOTS
  {
    exists i :: 0 <= i < SLOTS && Covers(g, i) && t.r[i] == Shared(h)
  }

  /** One group of the repair loop, from t to u. */
  ghost predicate Repaired(t: Tables, u: Tables, g: Group, replaced: map<Conn, Conn>)
    requires |t.w| == |t.r| == SLOTS
  {
    |u.w| == |u.r| == SLOTS && |u.nodes| == |t.nodes| &&
    (forall i {:trigger u.w[i]} :: 0 <= i < SLOTS ==>
      u.w[i] == if Covers(g, i) && t.w[i].Some? then Some(Fix(t.w[i].value, replaced)) else t.w[i]) &&
    (forall i {:trigger u.r[i]} :: 0 <= i < SLOTS ==>
      u.r[i] == if Covers(g, i) && t.r[i].Own? then Own(Fix(t.r[i].c, replaced)) else t.r[i]) &&
    (forall h {:trigger u.nodes[h]} :: 0 <= h < |t.nodes| ==>
      u.nodes[h] == if Touches(t, g, h) then FixAll(t.nodes[h], replaced) else t.nodes[h])
  }

  ghost predicate RepairStep(t: Tables, u: Tables, gs: seq<Group>, g: nat, replaced: map<Conn, Conn>)
    requires g < |gs| && |t.w| == |t.r| == SLOTS && |t.nodes| == |gs|
  {
    if Hit(t.nodes[g], replaced) then Repaired(t, u, gs[g], replaced) else u == t
  }

  /** The tables after each turn of the repair loop, which walks the groups in the order ro. */
  ghost predicate Repair(ts: seq<Tables>, gs: seq<Group>, ro: seq<nat>, replaced: map<Conn, Conn>) {
    Order(ro, |gs|) && |ts| == |ro| + 1 &&
    (forall k :: 0 <= k < |ts| ==> |ts[k].w| == |ts[k].r| == SLOTS && |ts[k].nodes| == |gs|) &&
    forall k :: 0 <= k < |ro| ==> RepairStep(ts[k], ts[k + 1], gs, ro[k], replaced)
  }

  /** No connection that was replaced is left in the tables. */
  ghost predicate CleanW(t: Tables, i: int, replaced: map<Conn, Conn>)
    requires |t.w| == |t.r| == SLOTS && 0 <= i < SLOTS
  {
    t.w[i].Some? ==> t.w[i].value !in replaced
  }

  ghost predicate CleanR(t: Tables, i: int, replaced: map<Conn, Conn>)
    requires |t.w| == |t.r| == SLOTS && 0 <= i < SLOTS
  {
    match t.r[i]
    case NoNodes => true
    case Own(c) => c !in replaced
    case Shared(g) => g < |t.nodes| && !Hit(t.nodes[g], replaced)
  }

  /** Replacements are not themselves replaced. */
  ghost predicate Settled(replaced: map<Conn, Conn>) {
    forall c :: c in replaced ==> replaced[c] !in replaced
  }

  // When the repair is complete.

  ghost predicate Overlap(a: Group, b: Group) {
    exists i :: Covers(a, i) && Covers(b, i)
  }

  ghost predicate Within(a: Group, b: Group) {
    forall i :: Covers(a, i) ==> Covers(b, i)
  }

  /** Group h, of several nodes, meets group g without lying within it. */
  ghost predicate Clash(gs: seq<Group>, g: nat, h: nat)
    requires g < |gs| && h < |gs|
  {
    g != h && |gs[h].addrs| > 1 && Overlap(gs[g], gs[h]) && !Within(gs[h], gs[g])
  }

  /** With shared node lists, a group of several nodes that meets another lies within it. */
  ghost predicate Harmless(gs: seq<Group>, sv: Serving) {
    sv.Selected? ==> forall g, h :: 0 <= g < |gs| && 0 <= h < |gs| ==> !Clash(gs, g, h)
  }

  ghost predicate NodesOf(nodes: seq<seq<Conn>>, gs: seq<Group>) {
    |nodes| == |gs| && forall g :: 0 <= g < |gs| ==> |nodes[g]| == |gs[g].addrs| > 0
  }

  lemma {:induction false} WAt(ts: seq<Tables>, gs: seq<Group>, ro: seq<nat>, replaced: map<Conn, Conn>, k: nat, i: int)
    requires Repair(ts, gs, ro, replaced) && Settled(replaced) && k < |ts| && 0 <= i < SLOTS
    ensures CleanW(ts[k], i, replaced) || ts[k].w[i] == ts[0].w[i]
  {
    if k > 0 {
      WAt(ts, gs, ro, replaced, k - 1, i);
      assert RepairStep(ts[k - 1], ts[k], gs, ro[k - 1], replaced);
    }
  }

  lemma {:induction false} CleanWStays(ts: seq<Tables>, gs: seq<Group>, ro: seq<nat>, replaced: map<Conn, Conn>, j: nat,
                                       k: nat, i: int)
    requires Repair(ts, gs, ro, replaced) && Settled(replaced)
    requires j <= k < |ts| && 0 <= i < SLOTS && CleanW(ts[j], i, replaced)
    ensures CleanW(ts[k], i, replaced)
    decreases k
  {
    if j < k {
      CleanWStays(ts, gs, ro, replaced, j, k - 1, i);
      assert RepairStep(ts[k - 1], ts[k], gs, ro[k - 1], replaced);
    }
  }

  /** A slot's replica list keeps its kind; a node of its own stays as built until it is repaired. */
  lemma {:induction false} RAt(ts: seq<Tables>, gs: seq<Group>, ro: seq<nat>, replaced: map<Conn, Conn>, k: nat, i: int)
    requires Repair(ts, gs, ro, replaced) && Settled(replaced) && k < |ts| && 0 <= i < SLOTS
    ensures ts[0].r[i].Own? <==> ts[k].r[i].Own?
    ensures ts[0].r[i].Own? ==> ts[k].r[i].c !in replaced || ts[k].r[i] == ts[0].r[i]
    ensures !ts[0].r[i].Own? ==> ts[k].r[i] == ts[0].r[i]
  {
    if k > 0 {
      RAt(ts, gs, ro, replaced, k - 1, i);
      assert RepairStep(ts[k - 1], ts[k], gs, ro[k - 1], replaced);
    }
  }

  lemma {:induction false} OwnStaysClean(ts: seq<Tables>, gs: seq<Group>, ro: seq<nat>, replaced: map<Conn, Conn>,
                                         j: nat, k: nat, i: int)
    requires Repair(ts, gs, ro, replaced) && Settled(replaced) && j <= k < |ts| && 0 <= i < SLOTS
    requires ts[j].r[i].Own? && ts[j].r[i].c !in replaced
    ensures ts[k].r[i].Own? && ts[k].r[i].c !in replaced
    decreases k
  {
    if j < k {
      OwnStaysClean(ts, gs, ro, replaced, j, k - 1, i);
      assert RepairStep(ts[k - 1], ts[k], gs, ro[k - 1], replaced);
    }
  }

  /** A node list is as built, or an earlier turn reached it through a slot that shares it. */
  lemma {:induction false} NodesAt(ts: seq<Tables>, gs: seq<Group>, ro: seq<nat>, replaced: map<Conn, Conn>, k: nat,
                                   h: nat)
    returns (same: bool, j: nat)
    requires Repair(ts, gs, ro, replaced) && k < |ts| && h < |gs|
    ensures same ==> ts[k].nodes[h] == ts[0].nodes[h]
    ensures !same ==> j < k && Hit(ts[j].nodes[ro[j]], replaced) && Touches(ts[j], gs[ro[j]], h)
  {
    same, j := true, 0;
    if k > 0 {
      assert RepairStep(ts[k - 1], ts[k], gs, ro[k - 1], replaced);
      if Hit(ts[k - 1].nodes[ro[k - 1]], replaced) && Touches(ts[k - 1], gs[ro[k - 1]], h) {
        same, j := false, k - 1;
      } else {
        same, j := NodesAt(ts, gs, ro, replaced, k - 1, h);
      }
    }
  }

  lemma {:induction false} NodesStayClean(ts: seq<Tables>, gs: seq<Group>, ro: seq<nat>, replaced: map<Conn, Conn>,
                                          j: nat, k: nat, h: nat)
    requires Repair(ts, gs, ro, replaced) && Settled(replaced)
    requires j <= k < |ts| && h < |gs| && !Hit(ts[j].nodes[h], replaced)
    ensures !Hit(ts[k].nodes[h], replaced)
    decreases k
  {
    if j < k {
      NodesStayClean(ts, gs, ro, replaced, j, k - 1, h);
      assert RepairStep(ts[k - 1], ts[k], gs, ro[k - 1], replaced);
    }
  }

  /** What a slot of the freshly built tables owes to its owner. */
  lemma {:induction false} BuiltSlot(t: Tables, gs: seq<Group>, nodes: seq<seq<Conn>>, sv: Serving, ch: Choices,
                                     bo: seq<nat>, i: int)
    returns (h: nat)
    requires Order(bo, |gs|) && NodesOf(nodes, gs) && Built(t, gs, nodes, sv, ch, bo) && 0 <= i < SLOTS
    requires t.w[i].Some? || !t.r[i].NoNodes?
    ensures h < |gs| && Covers(gs[h], i) && t.w[i].Some? && t.w[i].value in nodes[h]
    ensures t.r[i].Own? ==> t.r[i].c in nodes[h] && (sv.Selected? ==> |nodes[h]| == 1)
    ensures t.r[i].Shared? ==> t.r[i] == Shared(h) && sv.Selected? && |nodes[h]| > 1
  {
    var o := Owner(gs, bo, |bo|, i);
    h := o.value;
  }

  lemma {:induction false} CleanAtTurn(ts: seq<Tables>, gs: seq<Group>, ro: seq<nat>, replaced: map<Conn, Conn>, k: nat,
                                       i: int)
    requires Repair(ts, gs, ro, replaced) && Settled(replaced) && k < |ro| && 0 <= i < SLOTS
    requires Hit(ts[k].nodes[ro[k]], replaced) && Covers(gs[ro[k]], i)
    ensures CleanW(ts[k + 1], i, replaced)
    ensures ts[k + 1].r[i].Own? ==> ts[k + 1].r[i].c !in replaced
  {
    assert RepairStep(ts[k], ts[k + 1], gs, ro[k], replaced);
  }

  /** A turn that reached the node list of another group walks over all slots of that group. */
  lemma {:induction false} TouchedWithin(ts: seq<Tables>, gs: seq<Group>, nodes: seq<seq<Conn>>, sv: Serving,
                                         ch: Choices, bo: seq<nat>, ro: seq<nat>, replaced: map<Conn, Conn>, j: nat,
                                         h: nat)
    requires Order(bo, |gs|) && NodesOf(nodes, gs) && Repair(ts, gs, ro, replaced)
    requires Built(ts[0], gs, nodes, sv, ch, bo)
    requires Settled(replaced) && Harmless(gs, sv) && j < |ro| && h < |gs| && ro[j] != h && Touches(ts[j], gs[ro[j]], h)
    ensures Within(gs[h], gs[ro[j]])
  {
    var i :| 0 <= i < SLOTS && Covers(gs[ro[j]], i) && ts[j].r[i] == Shared(h);
    RAt(ts, gs, ro, replaced, j, i);
    var o := BuiltSlot(ts[0], gs, nodes, sv, ch, bo, i);
    assert Overlap(gs[ro[j]], gs[h]) && !Clash(gs, ro[j], h);
  }

  /** Writes: after the repair no slot is written to a replaced connection. */
  lemma {:induction false} RepairedW(ts: seq<Tables>, gs: seq<Group>, nodes: seq<seq<Conn>>, sv: Serving, ch: Choices,
                                     bo: seq<nat>, ro: seq<nat>, replaced: map<Conn, Conn>, i: int)
    requires Order(bo, |gs|) && NodesOf(nodes, gs) && Repair(ts, gs, ro, replaced)
    requires Built(ts[0], gs, nodes, sv, ch, bo)
    requires Settled(replaced) && Harmless(gs, sv) && 0 <= i < SLOTS
    ensures CleanW(ts[|ro|], i, replaced)
  {
    if ts[0].w[i].Some? && ts[0].w[i].value in replaced {
      var h := BuiltSlot(ts[0], gs, nodes, sv, ch, bo, i);
      assert h in ro;
      var k :| 0 <= k < |ro| && ro[k] == h;
      var same, j := NodesAt(ts, gs, ro, replaced, k, h);
      if same {
        WAt(ts, gs, ro, replaced, k, i);
        CleanAtTurn(ts, gs, ro, replaced, k, i);
        CleanWStays(ts, gs, ro, replaced, k + 1, |ro|, i);
      } else {
        TouchedWithin(ts, gs, nodes, sv, ch, bo, ro, replaced, j, h);
        WAt(ts, gs, ro, replaced, j, i);
        CleanAtTurn(ts, gs, ro, replaced, j, i);
        CleanWStays(ts, gs, ro, replaced, j + 1, |ro|, i);
      }
    } else {
      CleanWStays(ts, gs, ro, replaced, 0, |ro|, i);
    }
  }

  /** Reads: nor is one read from a replaced connection. */
  lemma {:induction false} RepairedR(ts: seq<Tables>, gs: seq<Group>, nodes: seq<seq<Conn>>, sv: Serving, ch: Choices,
                                     bo: seq<nat>, ro: seq<nat>, replaced: map<Conn, Conn>, i: int)
    requires Order(bo, |gs|) && NodesOf(nodes, gs) && Repair(ts, gs, ro, replaced)
    requires Built(ts[0], gs, nodes, sv, ch, bo)
    requires Settled(replaced) && 0 <= i < SLOTS
    ensures CleanR(ts[|ro|], i, replaced)
  {
    RAt(ts, gs, ro, replaced, |ro|, i);
    if !ts[0].r[i].NoNodes? {
      var h := BuiltSlot(ts[0], gs, nodes, sv, ch, bo, i);
      assert h in ro;
      var k :| 0 <= k < |ro| && ro[k] == h;
      if ts[0].r[i].Shared? {
        SharedClean(ts, gs, ro, replaced, k, h, i);
      } else {
        OwnClean(ts, gs, nodes, sv, ch, bo, ro, replaced, k, h, i);
      }
    }
  }

  lemma {:induction false} SharedClean(ts: seq<Tables>, gs: seq<Group>, ro: seq<nat>, replaced: map<Conn, Conn>, k: nat,
                                       h: nat, i: int)
    requires Repair(ts, gs, ro, replaced) && Settled(replaced) && k < |ro| && ro[k] == h && 0 <= i < SLOTS
    requires Covers(gs[h], i) && ts[0].r[i] == Shared(h)
    ensures !Hit(ts[|ro|].nodes[h], replaced)
  {
    RAt(ts, gs, ro, replaced, k, i);
    assert RepairStep(ts[k], ts[k + 1], gs, ro[k], replaced);
    if Hit(ts[k].nodes[h], replaced) {
      assert Touches(ts[k], gs[h], h);
    }
    NodesStayClean(ts, gs, ro, replaced, k + 1, |ro|, h);
  }

  /** A slot with a node of its own belongs to a group whose list nobody shares. */
  lemma {:induction false} OwnClean(ts: seq<Tables>, gs: seq<Group>, nodes: seq<seq<Conn>>, sv: Serving, ch: Choices,
                                    bo: seq<nat>, ro: seq<nat>, replaced: map<Conn, Conn>, k: nat, h: nat, i: int)
    requires Order(bo, |gs|) && NodesOf(nodes, gs) && Repair(ts, gs, ro, replaced)
    requires Built(ts[0], gs, nodes, sv, ch, bo)
    requires Settled(replaced) && k < |ro| && ro[k] == h && 0 <= i < SLOTS && Covers(gs[h], i)
    requires ts[0].r[i].Own? && ts[0].r[i].c in nodes[h] && (sv.Selected? ==> |nodes[h]| == 1)
    ensures ts[|ro|].r[i].Own? && ts[|ro|].r[i].c !in replaced
  {
    if ts[0].r[i].c in replaced {
      var same, j := NodesAt(ts, gs, ro, replaced, k, h);
      if !same {
        var x :| 0 <= x < SLOTS && Covers(gs[ro[j]], x) && ts[j].r[x] == Shared(h);
        RAt(ts, gs, ro, replaced, j, x);
        var o := BuiltSlot(ts[0], gs, nodes, sv, ch, bo, x);
      }
      CleanAtTurn(ts, gs, ro, replaced, k, i);
      RAt(ts, gs, ro, replaced, k + 1, i);
      OwnStaysClean(ts, gs, ro, replaced, k + 1, |ro|, i);
    } else {
      OwnStaysClean(ts, gs, ro, replaced, 0, |ro|, i);
    }
  }

  // When it is not.

  ghost function BuildW(gs: seq<Group>, nodes: seq<seq<Conn>>, sv: Serving, ch: Choices, bo: seq<nat>,
                        i: int): Option<Conn>
    requires Order(bo, |gs|) && NodesOf(nodes, gs)
  {
    match Owner(gs, bo, |bo|, i)
    case None => None
    case Some(g) => Some(nodes[g][WriteNode(sv, |nodes[g]|, ch.random(g, i))])
  }

  ghost function BuildR(gs: seq<Group>, nodes: seq<seq<Conn>>, sv: Serving, ch: Choices, bo: seq<nat>, i: int): RSlot
    requires Order(bo, |gs|) && NodesOf(nodes, gs)
  {
    match Owner(gs, bo, |bo|, i)
    case None => NoNodes
    case Some(g) => BuiltR(sv, g, nodes[g], ch.selector(g, i))
  }

  ghost function BuildTables(gs: seq<Group>, nodes: seq<seq<Conn>>, sv: Serving, ch: Choices, bo: seq<nat>): (t: Tables)
    requires Order(bo, |gs|) && NodesOf(nodes, gs)
    ensures Built(t, gs, nodes, sv, ch, bo)
  {
    Tables(seq(SLOTS, i => BuildW(gs, nodes, sv, ch, bo, i)), seq(SLOTS, i => BuildR(gs, nodes, sv, ch, bo, i)), nodes)
  }

  ghost function RepairTables(t: Tables, g: Group, replaced: map<Conn, Conn>): (u: Tables)
    requires |t.w| == |t.r| == SLOTS
    ensures Repaired(t, u, g, replaced)
  {
    Tables(
      seq(SLOTS, i requires 0 <= i < SLOTS =>
        if Covers(g, i) && t.w[i].Some? then Some(Fix(t.w[i].value, replaced)) else t.w[i]),
      seq(SLOTS, i requires 0 <= i < SLOTS =>
        if Covers(g, i) && t.r[i].Own? then Own(Fix(t.r[i].c, replaced)) else t.r[i]),
      seq(|t.nodes|, h requires 0 <= h < |t.nodes| =>
        if Touches(t, g, h) then FixAll(t.nodes[h], replaced) else t.nodes[h]))
  }

  /** The numbers below n outside `skip`, in order. */
  ghost function Without(n: nat, skip: set<nat>): (r: seq<nat>)
    ensures forall x: nat :: x in r <==> x < n && x !in skip
    ensures forall k :: 0 <= k < |r| ==> r[k] < n
    ensures forall j, k :: 0 <= j < k < |r| ==> r[j] < r[k]
  {
    if n == 0 then [] else if n - 1 in skip then Without(n - 1, skip) else Without(n - 1, skip) + [n - 1]
  }

  /** Slot z, which group h serves and group g does not: no third group that covers it has the
      primary of h or node y of g. Nodes are told apart by connection or by address. */
  ghost predicate Missable<T>(nodes: seq<seq<T>>, gs: seq<Group>, g: nat, h: nat, y: nat, z: int)
    requires g < |gs| && h < |gs| && |nodes| == |gs|
  {
    && Covers(gs[h], z) && !Covers(gs[g], z) && y < |nodes[g]| && nodes[h] != []
    && forall x :: 0 <= x < |gs| && x != g && x != h && Covers(gs[x], z) ==>
         nodes[h][0] !in nodes[x] && nodes[g][y] !in nodes[x]
  }

  /** Every clash of two groups has such a slot. */
  ghost predicate Separable<T>(nodes: seq<seq<T>>, gs: seq<Group>) {
    |nodes| == |gs| && forall g, h :: 0 <= g < |gs| && 0 <= h < |gs| && Clash(gs, g, h) ==>
      exists y: nat, z :: Missable(nodes, gs, g, h, y, z)
  }

  /** Both connections get a successor of the same number. */
  ghost function Successors(a: Conn, b: Conn): map<Conn, Conn> {
    map[a := Conn(a.addr, a.id + b.id + 1), b := Conn(b.addr, a.id + b.id + 1)]
  }

  lemma {:induction false} LastOrder(n: nat, h: nat) returns (bo: seq<nat>)
    requires h < n
    ensures Order(bo, n) && bo != [] && bo[|bo| - 1] == h
  {
    var rest := Without(n, {h});
    bo := rest + [h];
    forall k | 0 <= k < |bo| ensures bo[k] < n && (k < |rest| ==> bo[k] != h) {
      assert k < |rest| ==> rest[k] in rest;
    }
    forall x: nat | x < n ensures x in bo {
      assert x in rest || x == h;
    }
  }

  lemma {:induction false} FirstOrder(n: nat, g: nat, h: nat) returns (ro: seq<nat>)
    requires g < n && h < n && g != h
    ensures Order(ro, n) && |ro| >= 2 && ro[0] == g && ro[1] == h
  {
    var rest := Without(n, {g, h});
    ro := [g, h] + rest;
    forall k | 0 <= k < |ro| ensures ro[k] < n {
      assert k >= 2 ==> rest[k - 2] in rest;
    }
    forall x: nat | x < n ensures x in ro {
      assert x in rest || x == g || x == h;
    }
    forall j, k | 0 <= j < k < |ro| ensures ro[j] != ro[k] {
      if j >= 2 {
        assert ro[j] == rest[j - 2] && ro[k] == rest[k - 2];
      } else if k >= 2 {
        assert ro[k] == rest[k - 2] && rest[k - 2] in rest;
      }
    }
  }

  /** The tables after the first k turns of the repair loop. */
  ghost function RepairRun(t: Tables, gs: seq<Group>, ro: seq<nat>, replaced: map<Conn, Conn>, k: nat): (u: Tables)
    requires |t.w| == |t.r| == SLOTS && |t.nodes| == |gs| && Order(ro, |gs|) && k <= |ro|
    ensures |u.w| == |u.r| == SLOTS && |u.nodes| == |gs|
  {
    if k == 0 then t
    else
      var u := RepairRun(t, gs, ro, replaced, k - 1);
      if Hit(u.nodes[ro[k - 1]], replaced) then RepairTables(u, gs[ro[k - 1]], replaced) else u
  }

  lemma {:induction false} RunIsSteps(t: Tables, gs: seq<Group>, ro: seq<nat>, replaced: map<Conn, Conn>, k: nat,
                                      u: Tables, v: Tables)
    requires |t.w| == |t.r| == SLOTS && |t.nodes| == |gs| && Order(ro, |gs|) && k < |ro|
    requires u == RepairRun(t, gs, ro, replaced, k) && v == RepairRun(t, gs, ro, replaced, k + 1)
    ensures RepairStep(u, v, gs, ro[k], replaced)
  {
  }

  lemma {:induction false} RunIsRepair(t: Tables, gs: seq<Group>, ro: seq<nat>, replaced: map<Conn, Conn>)
    returns (ts: seq<Tables>)
    requires |t.w| == |t.r| == SLOTS && |t.nodes| == |gs| && Order(ro, |gs|)
    ensures Repair(ts, gs, ro, replaced) && ts[0] == t && ts[|ro|] == RepairRun(t, gs, ro, replaced, |ro|)
  {
    ts := seq(|ro| + 1, k requires 0 <= k <= |ro| => RepairRun(t, gs, ro, replaced, k));
    forall k | 0 <= k < |ro| ensures RepairStep(ts[k], ts[k + 1], gs, ro[k], replaced) {
      RunIsSteps(t, gs, ro, replaced, k, ts[k], ts[k + 1]);
    }
  }

  /** The group walked last serves its slots, with the whole group if it has several nodes. */
  lemma {:induction false} LastServes(t: Tables, gs: seq<Group>, nodes: seq<seq<Conn>>, ch: Choices, bo: seq<nat>,
                                      h: nat, s: int)
    requires Order(bo, |gs|) && NodesOf(nodes, gs) && Built(t, gs, nodes, Selected, ch, bo) && bo != []
    requires h < |gs| && bo[|bo| - 1] == h && |gs[h].addrs| > 1 && Covers(gs[h], s)
    ensures 0 <= s < SLOTS && t.r[s] == Shared(h) && t.w[s] == Some(nodes[h][0])
  {
    assert Owner(gs, bo, |bo|, s) == Some(h);
  }

  /** After the turn of g: slot z is as built, and no group that covers it has anything to repair. */
  ghost predicate Unnoticed(u: Tables, gs: seq<Group>, g: nat, z: int, c: Conn, replaced: map<Conn, Conn>)
    requires |u.w| == SLOTS && |u.nodes| == |gs| && 0 <= z < SLOTS
  {
    u.w[z] == Some(c) && forall x :: 0 <= x < |gs| && x != g && Covers(gs[x], z) ==> !Hit(u.nodes[x], replaced)
  }

  lemma {:induction false} RepairedLists(u: Tables, v: Tables, g: Group, replaced: map<Conn, Conn>, x: nat)
    requires |u.w| == |u.r| == SLOTS && Repaired(u, v, g, replaced) && Settled(replaced) && x < |u.nodes|
    ensures Touches(u, g, x) || !Hit(u.nodes[x], replaced) ==> !Hit(v.nodes[x], replaced)
  {
    if Touches(u, g, x) {
      forall k | 0 <= k < |v.nodes[x]| ensures v.nodes[x][k] !in replaced {
        assert v.nodes[x][k] == Fix(u.nodes[x][k], replaced);
      }
    }
  }

  /** The turn of g, which reaches the nodes of h but not slot z. */
  lemma {:induction false} FirstTurn(t: Tables, u: Tables, gs: seq<Group>, nodes: seq<seq<Conn>>, g: nat, h: nat,
                                     y: nat, z: int, replaced: map<Conn, Conn>)
    requires NodesOf(nodes, gs) && g < |gs| && h < |gs| && g != h && Missable(nodes, gs, g, h, y, z)
    requires |t.w| == |t.r| == SLOTS && t.nodes == nodes && Touches(t, gs[g], h) && 0 <= z < SLOTS
    requires Settled(replaced) && replaced.Keys == {nodes[h][0], nodes[g][y]} && t.w[z] == Some(nodes[h][0])
    requires RepairStep(t, u, gs, g, replaced)
    ensures |u.w| == |u.r| == SLOTS && |u.nodes| == |gs| && Unnoticed(u, gs, g, z, nodes[h][0], replaced)
  {
    assert nodes[g][y] in replaced && Hit(t.nodes[g], replaced);
    forall x | 0 <= x < |gs| && x != g && Covers(gs[x], z) ensures !Hit(u.nodes[x], replaced) {
      if x != h {
        assert forall k :: 0 <= k < |nodes[x]| ==> nodes[x][k] in nodes[x];
      }
      RepairedLists(t, u, gs[g], replaced, x);
    }
  }

  /** Every other turn leaves it so. */
  lemma {:induction false} LaterTurn(u: Tables, v: Tables, gs: seq<Group>, g: nat, x: nat, z: int, c: Conn,
                                     replaced: map<Conn, Conn>)
    requires |u.w| == |u.r| == SLOTS && |u.nodes| == |gs| && x < |gs| && x != g && 0 <= z < SLOTS && Settled(replaced)
    requires Unnoticed(u, gs, g, z, c, replaced) && RepairStep(u, v, gs, x, replaced)
    ensures |v.w| == SLOTS && |v.nodes| == |gs| && Unnoticed(v, gs, g, z, c, replaced)
  {
    if Hit(u.nodes[x], replaced) {
      forall w | 0 <= w < |gs| && w != g && Covers(gs[w], z) ensures !Hit(v.nodes[w], replaced) {
        RepairedLists(u, v, gs[x], replaced, w);
      }
    }
  }

  lemma {:induction false} StaysUnnoticed(t: Tables, gs: seq<Group>, ro: seq<nat>, replaced: map<Conn, Conn>, z: int,
                                          c: Conn, k: nat)
    requires |t.w| == |t.r| == SLOTS && |t.nodes| == |gs| && Order(ro, |gs|) && 0 < k <= |ro| && 0 <= z < SLOTS
    requires Settled(replaced) && Unnoticed(RepairRun(t, gs, ro, replaced, 1), gs, ro[0], z, c, replaced)
    ensures Unnoticed(RepairRun(t, gs, ro, replaced, k), gs, ro[0], z, c, replaced)
    decreases k
  {
    if k > 1 {
      StaysUnnoticed(t, gs, ro, replaced, z, c, k - 1);
      var u, v := RepairRun(t, gs, ro, replaced, k - 1), RepairRun(t, gs, ro, replaced, k);
      LaterTurn(u, v, gs, ro[0], ro[k - 1], z, c, replaced);
    }
  }

  /** Without the condition the repair can miss a slot: when group h shares slot s with group g but
      serves slot z alone, a walk that meets g first repairs the nodes of h through s, finds nothing
      to do for h, and leaves z on a replaced connection. */
  lemma {:induction false} RepairMisses(gs: seq<Group>, nodes: seq<seq<Conn>>, ch: Choices, g: nat, h: nat, s: int,
                                        y: nat, z: int)
    returns (bo: seq<nat>, ro: seq<nat>, replaced: map<Conn, Conn>, ts: seq<Tables>)
    requires NodesOf(nodes, gs) && g < |gs| && h < |gs| && g != h && |gs[h].addrs| > 1
    requires Covers(gs[g], s) && Covers(gs[h], s) && Missable(nodes, gs, g, h, y, z)
    ensures Order(bo, |gs|) && Repair(ts, gs, ro, replaced)
    ensures Settled(replaced) && Built(ts[0], gs, nodes, Selected, ch, bo)
    ensures replaced == Successors(nodes[h][0], nodes[g][y])
    ensures 0 <= z < SLOTS && !CleanW(ts[|ro|], z, replaced)
  {
    bo := LastOrder(|gs|, h);
    ro := FirstOrder(|gs|, g, h);
    var a := nodes[h][0];
    replaced := Successors(a, nodes[g][y]);
    var t := BuildTables(gs, nodes, Selected, ch, bo);
    LastServes(t, gs, nodes, ch, bo, h, s);
    LastServes(t, gs, nodes, ch, bo, h, z);
    assert Touches(t, gs[g], h);
    ts := RunIsRepair(t, gs, ro, replaced);
    var u := RepairRun(t, gs, ro, replaced, 1);
    RunIsSteps(t, gs, ro, replaced, 0, t, u);
    FirstTurn(t, u, gs, nodes, g, h, y, z, replaced);
    StaysUnnoticed(t, gs, ro, replaced, z, a, |ro|);
  }

  /** A build in some order followed by a repair in some order. */
  ghost predicate Execution(ts: seq<Tables>, gs: seq<Group>, nodes: seq<seq<Conn>>, sv: Serving, ch: Choices,
                            bo: seq<nat>, ro: seq<nat>, replaced: map<Conn, Conn>)
    requires NodesOf(nodes, gs)
  {
    Order(bo, |gs|) && Repair(ts, gs, ro, replaced) && Settled(replaced) && Built(ts[0], gs, nodes, sv, ch, bo)
  }

  ghost predicate AlwaysClean(gs: seq<Group>, nodes: seq<seq<Conn>>, sv: Serving, ch: Choices)
    requires NodesOf(nodes, gs)
  {
    forall ts, bo, ro, replaced, i :: 0 <= i < SLOTS && Execution(ts, gs, nodes, sv, ch, bo, ro, replaced) ==>
      CleanW(ts[|ro|], i, replaced)
  }

  /** The repair is complete in every execution exactly under the condition on the groups. */
  lemma {:induction false} RepairCompleteIffHarmless(gs: seq<Group>, nodes: seq<seq<Conn>>, sv: Serving, ch: Choices)
    requires NodesOf(nodes, gs) && Separable(nodes, gs)
    ensures AlwaysClean(gs, nodes, sv, ch) <==> Harmless(gs, sv)
  {
    if Harmless(gs, sv) {
      forall ts, bo, ro, replaced, i | 0 <= i < SLOTS && Execution(ts, gs, nodes, sv, ch, bo, ro, replaced)
        ensures CleanW(ts[|ro|], i, replaced)
      {
        RepairedW(ts, gs, nodes, sv, ch, bo, ro, replaced, i);
      }
    } else {
      var g, h :| 0 <= g < |gs| && 0 <= h < |gs| && Clash(gs, g, h);
      var s :| Covers(gs[g], s) && Covers(gs[h], s);
      var y: nat, z :| Missable(nodes, gs, g, h, y, z);
      var bo, ro, replaced, ts := RepairMisses(gs, nodes, ch, g, h, s, y, z);
      assert Execution(ts, gs, nodes, sv, ch, bo, ro, replaced);
    }
  }

  // Where the connections of the tables come from.

  ghost predicate Known(c: Conn, nodes: seq<seq<Conn>>, replaced: map<Conn, Conn>) {
    (exists g, x :: 0 <= g < |nodes| && 0 <= x < |nodes[g]| && nodes[g][x] == c) || c in replaced.Values
  }

  ghost predicate AllKnown(t: Tables, nodes: seq<seq<Conn>>, replaced: map<Conn, Conn>) {
    (forall i :: 0 <= i < |t.w| && t.w[i].Some? ==> Known(t.w[i].value, nodes, replaced)) &&
    (forall i :: 0 <= i < |t.r| && t.r[i].Own? ==> Known(t.r[i].c, nodes, replaced)) &&
    (forall g, x :: 0 <= g < |t.nodes| && 0 <= x < |t.nodes[g]| ==> Known(t.nodes[g][x], nodes, replaced))
  }

  lemma {:induction false} BuiltKnown(t: Tables, gs: seq<Group>, nodes: seq<seq<Conn>>, sv: Serving, ch: Choices,
                                      bo: seq<nat>, replaced: map<Conn, Conn>)
    requires Order(bo, |gs|) && NodesOf(nodes, gs) && Built(t, gs, nodes, sv, ch, bo)
    ensures AllKnown(t, nodes, replaced)
  {
    forall i | 0 <= i < SLOTS && t.w[i].Some? ensures Known(t.w[i].value, nodes, replaced) {
      var h := BuiltSlot(t, gs, nodes, sv, ch, bo, i);
    }
    forall i | 0 <= i < SLOTS && t.r[i].Own? ensures Known(t.r[i].c, nodes, replaced) {
      var h := BuiltSlot(t, gs, nodes, sv, ch, bo, i);
    }
  }

  lemma FixKnown(c: Conn, nodes: seq<seq<Conn>>, replaced: map<Conn, Conn>)
    requires Known(c, nodes, replaced)
    ensures Known(Fix(c, replaced), nodes, replaced)
  {
  }

  lemma {:induction false} StepKnown(t: Tables, u: Tables, gs: seq<Group>, g: nat, nodes: seq<seq<Conn>>,
                                     replaced: map<Conn, Conn>)
    requires g < |gs| && |t.w| == |t.r| == SLOTS && |t.nodes| == |gs|
    requires RepairStep(t, u, gs, g, replaced) && AllKnown(t, nodes, replaced)
    ensures AllKnown(u, nodes, replaced)
  {
    if Hit(t.nodes[g], replaced) {
      forall i | 0 <= i < SLOTS && u.w[i].Some? ensures Known(u.w[i].value, nodes, replaced) {
        assert t.w[i].Some?;
        FixKnown(t.w[i].value, nodes, replaced);
      }
      forall i | 0 <= i < SLOTS && u.r[i].Own? ensures Known(u.r[i].c, nodes, replaced) {
        assert t.r[i].Own?;
        FixKnown(t.r[i].c, nodes, replaced);
      }
      forall h, x | 0 <= h < |u.nodes| && 0 <= x < |u.nodes[h]| ensures Known(u.nodes[h][x], nodes, replaced) {
        assert Known(t.nodes[h][x], nodes, replaced);
        FixKnown(t.nodes[h][x], nodes, replaced);
      }
    }
  }

  lemma {:induction false} RepairKnown(ts: seq<Tables>, gs: seq<Group>, nodes: seq<seq<Conn>>, ro: seq<nat>,
                                       replaced: map<Conn, Conn>, k: nat)
    requires Repair(ts, gs, ro, replaced) && k < |ts| && AllKnown(ts[0], nodes, replaced)
    ensures AllKnown(ts[k], nodes, replaced)
  {
    if k > 0 {
      RepairKnown(ts, gs, nodes, ro, replaced, k - 1);
      StepKnown(ts[k - 1], ts[k], gs, ro[k - 1], nodes, replaced);
    }
  }
}
