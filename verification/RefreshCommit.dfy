/** The connection map of the cluster client over time: redirects and late dials change it at any
    moment, and one refresh at a time replaces it. */
module RefreshCommit {
  import opened Common
  import opened Refresh

  /** A refresh between its snapshot and its commit holds the map it is going to install. */
  datatype Phase = Idle | Prepared(mine: map<Addr, Conn>)

  /** `closing` holds what was scheduled for closing, `used` every connection ever made. */
  datatype Client = Client(conns: map<Addr, Conn>, closing: set<Conn>, used: set<Conn>, phase: Phase)

  ghost predicate Keyed(m: map<Addr, Conn>) {
    forall a :: a in m ==> m[a].addr == a
  }

  ghost predicate New(c: Client, addr: Addr, conn: Conn) {
    conn.addr == addr && conn !in c.used
  }

  // Interference.

  /** redirectOrNew for an address that has no connection. */
  ghost predicate Add(c: Client, c': Client, addr: Addr, conn: Conn) {
    addr !in c.conns && New(c, addr, conn) && c' == c.(conns := c.conns[addr := conn], used := c.used + {conn})
  }

  /** redirectOrNew when the redirect points back to the connection it came from. */
  ghost predicate Replace(c: Client, c': Client, addr: Addr, conn: Conn) {
    addr in c.conns && New(c, addr, conn) &&
    c' == c.(conns := c.conns[addr := conn], closing := c.closing + {c.conns[addr]}, used := c.used + {conn})
  }

  /** A dial of the start-up phase that comes too late: the connection made for it is closed. */
  ghost predicate Late(c: Client, c': Client, addr: Addr, conn: Conn) {
    addr in c.conns && New(c, addr, conn) && c' == c.(closing := c.closing + {conn}, used := c.used + {conn})
  }

  // The refresh.

  /** New connections for all addresses of the topology, except those the client has. */
  ghost predicate Prepare(c: Client, c': Client, mine: map<Addr, Conn>) {
    c.phase.Idle? && Keyed(mine) &&
    (forall a :: a in mine && a in c.conns ==> mine[a] == c.conns[a]) &&
    (forall a :: a in mine && a !in c.conns ==> mine[a] !in c.used) &&
    c' == c.(phase := Prepared(mine), used := c.used + mine.Values)
  }

  /** The connections to install: those the client has now win over the prepared ones. */
  function Merged(conns: map<Addr, Conn>, mine: map<Addr, Conn>): map<Addr, Conn> {
    map a | a in mine :: if a in conns then conns[a] else mine[a]
  }

  /** Prepared connections that lost, with their winners. */
  ghost function Replaced(conns: map<Addr, Conn>, mine: map<Addr, Conn>): map<Conn, Conn>
    requires Keyed(mine)
  {
    map c | c in mine.Values && c.addr in conns && conns[c.addr] != c :: conns[c.addr]
  }

  ghost function Removes(conns: map<Addr, Conn>, mine: map<Addr, Conn>): set<Conn> {
    (set a | a in conns && a !in mine :: conns[a]) + (set a | a in mine && a in conns && mine[a] != conns[a] :: mine[a])
  }

  ghost predicate Commit(c: Client, c': Client) {
    c.phase.Prepared? &&
    var mine := c.phase.mine;
    c' == c.(conns := Merged(c.conns, mine), closing := c.closing + Removes(c.conns, mine), phase := Idle)
  }

  datatype Step =
    | DoAdd(addr: Addr, conn: Conn)
    | DoReplace(addr: Addr, conn: Conn)
    | DoLate(addr: Addr, conn: Conn)
    | DoPrepare(mine: map<Addr, Conn>)
    | DoCommit

  ghost predicate Next(c: Client, c': Client, step: Step) {
    match step
    case DoAdd(a, n) => Add(c, c', a, n)
    case DoReplace(a, n) => Replace(c, c', a, n)
    case DoLate(a, n) => Late(c, c', a, n)
    case DoPrepare(mine) => Prepare(c, c', mine)
    case DoCommit => Commit(c, c')
  }

  // What every step keeps.

  ghost predicate Inv(c: Client) {
    Keyed(c.conns) && c.closing <= c.used &&
    (forall a :: a in c.conns ==> c.conns[a] in c.used && c.conns[a] !in c.closing) &&
    (c.phase.Prepared? ==>
      var mine := c.phase.mine;
      Keyed(mine) &&
      forall a :: a in mine ==> mine[a] in c.used && (mine[a] in c.closing ==> a in c.conns && c.conns[a] != mine[a]))
  }

  lemma {:induction false} CommitInv(c: Client, c': Client)
    requires Inv(c) && Commit(c, c')
    ensures Inv(c')
  {
    var mine := c.phase.mine;
    forall a | a in c'.conns ensures c'.conns[a].addr == a && c'.conns[a] in c.used && c'.conns[a] !in c'.closing {
      assert c'.conns[a] !in Removes(c.conns, mine);
    }
  }

  lemma {:induction false} StepInv(c: Client, c': Client, step: Step)
    requires Inv(c) && Next(c, c', step)
    ensures Inv(c')
  {
    match step
    case DoPrepare(mine) =>
      forall a | a in mine
        ensures mine[a] in c'.used && (mine[a] in c'.closing ==> a in c'.conns && c'.conns[a] != mine[a])
      {
        assert mine[a] in mine.Values;
      }
    case DoCommit => CommitInv(c, c');
    case _ =>
  }

  ghost predicate Run(cs: seq<Client>, steps: seq<Step>) {
    |cs| == |steps| + 1 && forall k :: 0 <= k < |steps| ==> Next(cs[k], cs[k + 1], steps[k])
  }

  lemma {:induction false} RunInv(cs: seq<Client>, steps: seq<Step>, k: nat)
    requires Run(cs, steps) && Inv(cs[0]) && k < |cs|
    ensures Inv(cs[k])
  {
    if k > 0 {
      RunInv(cs, steps, k - 1);
      StepInv(cs[k - 1], cs[k], steps[k - 1]);
    }
  }

  // The commit.

  /** The node lists of the topology, with the prepared connections. */
  ghost predicate NodesFrom(nodes: seq<seq<Conn>>, gs: seq<Group>, mine: map<Addr, Conn>) {
    NodesOf(nodes, gs) &&
    forall g, x :: 0 <= g < |gs| && 0 <= x < |nodes[g]| ==>
      gs[g].addrs[x] in mine && nodes[g][x] == mine[gs[g].addrs[x]]
  }

  ghost predicate Usable(c: Client, conn: Conn) {
    conn.addr in c.conns && c.conns[conn.addr] == conn && conn !in c.closing
  }

  lemma ReplacedSettled(c: Client)
    requires Inv(c) && c.phase.Prepared?
    ensures Settled(Replaced(c.conns, c.phase.mine))
  {
  }

  /** A connection of the tables that was not replaced is one of the installed map. */
  lemma {:induction false} KnownIsUsable(c: Client, c': Client, gs: seq<Group>, nodes: seq<seq<Conn>>, conn: Conn)
    requires Inv(c) && Commit(c, c') && NodesFrom(nodes, gs, c.phase.mine)
    requires Known(conn, nodes, Replaced(c.conns, c.phase.mine)) && conn !in Replaced(c.conns, c.phase.mine)
    ensures Usable(c', conn)
  {
    CommitInv(c, c');
    var mine := c.phase.mine;
    var replaced := Replaced(c.conns, mine);
    if conn in replaced.Values {
      var lost :| lost in replaced && replaced[lost] == conn;
      assert lost.addr in mine && conn == c.conns[lost.addr];
    } else {
      var g, x :| 0 <= g < |nodes| && 0 <= x < |nodes[g]| && nodes[g][x] == conn;
      assert conn == mine[conn.addr] && conn in mine.Values;
    }
  }

  ghost predicate UsableTables(c: Client, t: Tables)
    requires |t.w| == |t.r| == SLOTS
  {
    (forall i :: 0 <= i < SLOTS && t.w[i].Some? ==> Usable(c, t.w[i].value)) &&
    (forall i :: 0 <= i < SLOTS && t.r[i].Own? ==> Usable(c, t.r[i].c)) &&
    (forall i, x :: 0 <= i < SLOTS && t.r[i].Shared? && t.r[i].g < |t.nodes| && 0 <= x < |t.nodes[t.r[i].g]| ==>
      Usable(c, t.nodes[t.r[i].g][x]))
  }

  /** Every connection that was in the map is in the new one or scheduled for closing. */
  lemma {:induction false} OldConnsAccounted(c: Client, c': Client, a: Addr)
    requires Inv(c) && Commit(c, c') && a in c.conns
    ensures Usable(c', c.conns[a]) || c.conns[a] in c'.closing
    ensures Usable(c', c.conns[a]) <==> a in c.phase.mine
  {
    CommitInv(c, c');
  }

  /** Whatever happened to the map since the snapshot, a commit installs tables whose every
      connection is in the new map and not scheduled for closing, and forgets no old connection. */
  lemma {:induction false} CommitIsSafe(cs: seq<Client>, steps: seq<Step>, k: nat, gs: seq<Group>,
                                        nodes: seq<seq<Conn>>, sv: Serving, ch: Choices, bo: seq<nat>, ro: seq<nat>,
                                        ts: seq<Tables>)
    requires Run(cs, steps) && Inv(cs[0]) && k < |steps| && steps[k].DoCommit?
    requires cs[k].phase.Prepared? && Keyed(cs[k].phase.mine)
    requires NodesFrom(nodes, gs, cs[k].phase.mine) && Harmless(gs, sv)
    requires Execution(ts, gs, nodes, sv, ch, bo, ro, Replaced(cs[k].conns, cs[k].phase.mine))
    ensures UsableTables(cs[k + 1], ts[|ro|])
    ensures forall a :: a in cs[k].conns ==> Usable(cs[k + 1], cs[k].conns[a]) || cs[k].conns[a] in cs[k + 1].closing
  {
    var c, c', t := cs[k], cs[k + 1], ts[|ro|];
    var replaced := Replaced(c.conns, c.phase.mine);
    RunInv(cs, steps, k);
    assert Next(c, c', steps[k]);
    BuiltKnown(ts[0], gs, nodes, sv, ch, bo, replaced);
    RepairKnown(ts, gs, nodes, ro, replaced, |ro|);
    forall i | 0 <= i < SLOTS && t.w[i].Some? ensures Usable(c', t.w[i].value) {
      RepairedW(ts, gs, nodes, sv, ch, bo, ro, replaced, i);
      KnownIsUsable(c, c', gs, nodes, t.w[i].value);
    }
    forall i | 0 <= i < SLOTS && t.r[i].Own? ensures Usable(c', t.r[i].c) {
      RepairedR(ts, gs, nodes, sv, ch, bo, ro, replaced, i);
      KnownIsUsable(c, c', gs, nodes, t.r[i].c);
    }
    forall i, x | 0 <= i < SLOTS && t.r[i].Shared? && t.r[i].g < |t.nodes| && 0 <= x < |t.nodes[t.r[i].g]|
      ensures Usable(c', t.nodes[t.r[i].g][x])
    {
      RepairedR(ts, gs, nodes, sv, ch, bo, ro, replaced, i);
      KnownIsUsable(c, c', gs, nodes, t.nodes[t.r[i].g][x]);
    }
    forall a | a in c.conns ensures Usable(c', c.conns[a]) || c.conns[a] in c'.closing { OldConnsAccounted(c, c', a); }
  }

  // When the commit is safe.

  const EMPTY := Client(map[], {}, {}, Idle)

  /** A run of the client with a commit at step k, which installs what was built from the prepared
      connections and repaired for those replaced since. */
  ghost predicate Committed(cs: seq<Client>, steps: seq<Step>, k: nat, gs: seq<Group>, nodes: seq<seq<Conn>>,
                            sv: Serving, ch: Choices, bo: seq<nat>, ro: seq<nat>, ts: seq<Tables>) {
    Run(cs, steps) && cs[0] == EMPTY && k < |steps| && steps[k].DoCommit? &&
    cs[k].phase.Prepared? && Keyed(cs[k].phase.mine) && NodesFrom(nodes, gs, cs[k].phase.mine) &&
    Execution(ts, gs, nodes, sv, ch, bo, ro, Replaced(cs[k].conns, cs[k].phase.mine))
  }

  ghost predicate AlwaysUsable(gs: seq<Group>, sv: Serving, ch: Choices) {
    forall cs, steps, k, nodes, bo, ro, ts :: Committed(cs, steps, k, gs, nodes, sv, ch, bo, ro, ts) ==>
      UsableTables(cs[k + 1], ts[|ro|])
  }

  /** The addresses of the groups; the first of each is its primary. */
  ghost function Addresses(gs: seq<Group>): (ids: seq<seq<Addr>>)
    ensures |ids| == |gs| && forall g :: 0 <= g < |gs| ==> ids[g] == gs[g].addrs
  {
    seq(|gs|, g requires 0 <= g < |gs| => gs[g].addrs)
  }

  ghost predicate HavePrimaries(gs: seq<Group>) {
    forall g :: 0 <= g < |gs| ==> gs[g].addrs != []
  }

  /** First connections for all addresses of the topology. */
  ghost function FirstConns(gs: seq<Group>): (mine: map<Addr, Conn>)
    ensures Keyed(mine) && forall g, x :: 0 <= g < |gs| && 0 <= x < |gs[g].addrs| ==> gs[g].addrs[x] in mine
    ensures forall a :: a in mine ==> mine[a].id == 0
  {
    var addrs := set g, x | 0 <= g < |gs| && 0 <= x < |gs[g].addrs| :: gs[g].addrs[x];
    map a | a in addrs :: Conn(a, 0)
  }

  ghost function FirstNodes(gs: seq<Group>): (nodes: seq<seq<Conn>>)
    requires HavePrimaries(gs)
    ensures NodesFrom(nodes, gs, FirstConns(gs))
  {
    seq(|gs|, g requires 0 <= g < |gs| =>
      seq(|gs[g].addrs|, x requires 0 <= x < |gs[g].addrs| => Conn(gs[g].addrs[x], 0)))
  }

  /** What holds of addresses holds of their first connections. */
  lemma {:induction false} MissableFirst(gs: seq<Group>, nodes: seq<seq<Conn>>, g: nat, h: nat, y: nat, z: int)
    requires HavePrimaries(gs) && g < |gs| && h < |gs| && nodes == FirstNodes(gs)
    requires Missable(Addresses(gs), gs, g, h, y, z)
    ensures Missable(nodes, gs, g, h, y, z)
  {
    forall x | 0 <= x < |gs| && x != g && x != h && Covers(gs[x], z)
      ensures nodes[h][0] !in nodes[x] && nodes[g][y] !in nodes[x]
    {
      assert Addresses(gs)[h][0] !in Addresses(gs)[x] && Addresses(gs)[g][y] !in Addresses(gs)[x];
    }
  }

  lemma {:induction false} ReplacedByTwo(mine: map<Addr, Conn>, conns: map<Addr, Conn>, a: Addr, b: Addr)
    requires Keyed(mine) && a in mine && b in mine && mine[a].id == mine[b].id == 0
    requires conns == map[a := Conn(a, 1), b := Conn(b, 1)]
    ensures Replaced(conns, mine) == Successors(mine[a], mine[b])
    ensures forall c :: c in Successors(mine[a], mine[b]) ==> c in Removes(conns, mine)
  {
    assert mine[a] in mine.Values && mine[b] in mine.Values;
  }

  /** From the empty client: a refresh prepares its connections, redirects then bring up the
      addresses a and b on connections of their own, and the refresh commits. When b is a itself, a
      late dial takes the place of the second redirect. */
  lemma {:induction false} RaceWithRedirects(mine: map<Addr, Conn>, a: Addr, b: Addr)
    returns (cs: seq<Client>, steps: seq<Step>)
    requires Keyed(mine) && a in mine && b in mine && (forall c :: c in mine ==> mine[c].id == 0)
    ensures Run(cs, steps) && |steps| == 4 && cs[0] == EMPTY && steps[3].DoCommit?
    ensures cs[3].phase == Prepared(mine) && Replaced(cs[3].conns, mine) == Successors(mine[a], mine[b])
    ensures forall c :: c in Successors(mine[a], mine[b]) ==> c in cs[4].closing
  {
    var p, q := Conn(a, 1), Conn(b, if a == b then 2 else 1);
    var c1 := EMPTY.(phase := Prepared(mine), used := EMPTY.used + mine.Values);
    var c2 := c1.(conns := c1.conns[a := p], used := c1.used + {p});
    var c3 := if a == b then c2.(closing := c2.closing + {q}, used := c2.used + {q})
              else c2.(conns := c2.conns[b := q], used := c2.used + {q});
    var c4 := c3.(conns := Merged(c3.conns, mine), closing := c3.closing + Removes(c3.conns, mine), phase := Idle);
    cs := [EMPTY, c1, c2, c3, c4];
    steps := [DoPrepare(mine), DoAdd(a, p), if a == b then DoLate(b, q) else DoAdd(b, q), DoCommit];
    assert Next(c1, c2, steps[1]) && Next(c2, c3, steps[2]);
    ReplacedByTwo(mine, c3.conns, a, b);
  }

  /** Without the condition on the groups, some run installs a connection that is being closed. */
  lemma {:induction false} CommitInstallsClosing(gs: seq<Group>, ch: Choices, g: nat, h: nat, s: int, y: nat, z: int)
    returns (cs: seq<Client>, steps: seq<Step>, k: nat, nodes: seq<seq<Conn>>, bo: seq<nat>, ro: seq<nat>,
             ts: seq<Tables>)
    requires HavePrimaries(gs) && g < |gs| && h < |gs| && g != h && |gs[h].addrs| > 1
    requires Covers(gs[g], s) && Covers(gs[h], s) && Missable(Addresses(gs), gs, g, h, y, z)
    ensures Committed(cs, steps, k, gs, nodes, Selected, ch, bo, ro, ts)
    ensures 0 <= z < SLOTS && ts[|ro|].w[z].Some? && ts[|ro|].w[z].value in cs[k + 1].closing
    ensures !UsableTables(cs[k + 1], ts[|ro|])
  {
    var mine := FirstConns(gs);
    nodes := FirstNodes(gs);
    MissableFirst(gs, nodes, g, h, y, z);
    var a, b := gs[h].addrs[0], gs[g].addrs[y];
    assert nodes[h][0] == mine[a] && nodes[g][y] == mine[b];
    cs, steps := RaceWithRedirects(mine, a, b);
    k := 3;
    var replaced;
    bo, ro, replaced, ts := RepairMisses(gs, nodes, ch, g, h, s, y, z);
  }

  /** A commit never installs a connection that is being closed, in any run and any walk of the
      groups, if and only if the groups meet the condition. */
  lemma {:induction false} CommitSafeIffHarmless(gs: seq<Group>, sv: Serving, ch: Choices)
    requires HavePrimaries(gs) && Separable(Addresses(gs), gs)
    ensures AlwaysUsable(gs, sv, ch) <==> Harmless(gs, sv)
  {
    if Harmless(gs, sv) {
      forall cs, steps, k, nodes, bo, ro, ts | Committed(cs, steps, k, gs, nodes, sv, ch, bo, ro, ts)
        ensures UsableTables(cs[k + 1], ts[|ro|])
      {
        CommitIsSafe(cs, steps, k, gs, nodes, sv, ch, bo, ro, ts);
      }
    } else {
      var g, h :| 0 <= g < |gs| && 0 <= h < |gs| && Clash(gs, g, h);
      var s :| Covers(gs[g], s) && Covers(gs[h], s);
      var y: nat, z :| Missable(Addresses(gs), gs, g, h, y, z);
      var cs, steps, k, nodes, bo, ro, ts := CommitInstallsClosing(gs, ch, g, h, s, y, z);
    }
  }

  /** Slot 0 listed under two groups, slot 1 under the second only. */
  const OVERLAPPING := [Group([10, 11], [(0, 0)]), Group([20, 21], [(0, 1)])]

  lemma {:induction false} OverlapInstallsClosing(ch: Choices)
    returns (cs: seq<Client>, steps: seq<Step>, k: nat, nodes: seq<seq<Conn>>, bo: seq<nat>, ro: seq<nat>,
             ts: seq<Tables>)
    ensures Committed(cs, steps, k, OVERLAPPING, nodes, Selected, ch, bo, ro, ts)
    ensures ts[|ro|].w[1].Some? && ts[|ro|].w[1].value in cs[k + 1].closing
  {
    var first, second := OVERLAPPING[0].ranges[0], OVERLAPPING[1].ranges[0];
    assert InRange(first, 0) && InRange(second, 0) && InRange(second, 1);
    cs, steps, k, nodes, bo, ro, ts := CommitInstallsClosing(OVERLAPPING, ch, 0, 1, 0, 0, 1);
  }

  // The loops of the refresh.

  /** A prepared connection that lost to one the client has. */
  predicate Lost(conns: map<Addr, Conn>, prepared: map<Addr, Conn>, c: Conn) {
    c.addr in prepared && prepared[c.addr] == c && c.addr in conns && conns[c.addr] != c
  }

  /** The reconciliation under the lock, in any map order. */
  method Reconcile(conns: map<Addr, Conn>, prepared: map<Addr, Conn>)
    returns (mine: map<Addr, Conn>, removes: seq<Conn>, replaced: map<Conn, Conn>)
    requires Keyed(conns) && Keyed(prepared)
    ensures mine == Merged(conns, prepared) && replaced == Replaced(conns, prepared)
    ensures (set c | c in removes) == Removes(conns, prepared)
  {
    mine, removes, replaced := prepared, [], map[];
    var left := conns.Keys;
    while left != {}
      invariant left <= conns.Keys
      invariant mine.Keys == prepared.Keys
      invariant forall a :: a in mine ==> mine[a] == if a in conns && a !in left then conns[a] else prepared[a]
      invariant forall c :: c in replaced <==> Lost(conns, prepared, c) && c.addr !in left
      invariant forall c :: c in replaced ==> c.addr in conns && replaced[c] == conns[c.addr]
      invariant forall c :: c in removes <==> Removed(conns, prepared, left, c)
      decreases left
    {
      var addr :| addr in left;
      var cc := conns[addr];
      if addr !in mine {
        removes := removes + [cc];
      } else if mine[addr] != cc {
        replaced := replaced[mine[addr] := cc];
        removes := removes + [mine[addr]];
        mine := mine[addr := cc];
      }
      left := left - {addr};
    }
    assert mine == Merged(conns, prepared);
    ReplacedIs(conns, prepared, replaced);
    RemovesIs(conns, prepared, removes);
  }

  ghost predicate Removed(conns: map<Addr, Conn>, prepared: map<Addr, Conn>, left: set<Addr>, c: Conn) {
    c.addr in conns && c.addr !in left &&
    if c.addr in prepared then prepared[c.addr] == c && conns[c.addr] != c else conns[c.addr] == c
  }

  lemma {:induction false} ReplacedIs(conns: map<Addr, Conn>, prepared: map<Addr, Conn>, replaced: map<Conn, Conn>)
    requires Keyed(conns) && Keyed(prepared)
    requires forall c :: c in replaced <==> Lost(conns, prepared, c)
    requires forall c :: c in replaced ==> c.addr in conns && replaced[c] == conns[c.addr]
    ensures replaced == Replaced(conns, prepared)
  {
    forall c ensures c in replaced <==> c in Replaced(conns, prepared) {
      if c in replaced { assert prepared[c.addr] in prepared.Values; }
    }
  }

  lemma {:induction false} RemovesIs(conns: map<Addr, Conn>, prepared: map<Addr, Conn>, removes: seq<Conn>)
    requires Keyed(conns) && Keyed(prepared)
    requires forall c :: c in removes <==> Removed(conns, prepared, {}, c)
    ensures (set c | c in removes) == Removes(conns, prepared)
  {
    forall c ensures c in removes <==> c in Removes(conns, prepared) {}
  }

  /** The shared map, with what its methods have made and scheduled for closing. */
  class ConnMap {
    var conns: map<Addr, Conn>
    var nextId: nat
    var closing: set<Conn>
    /** The primaries of the slots, as redirects correct them between refreshes. */
    var wslots: map<nat, Conn>
    ghost var used: set<Conn>
    ghost var phase: Phase

    ghost function C(): Client
      reads this
    {
      Client(conns, closing, used, phase)
    }

    ghost predicate Valid()
      reads this
    {
      Inv(C()) && forall c :: c in used ==> c.id < nextId
    }

    constructor ()
      ensures Valid() && C() == EMPTY && wslots == map[]
    {
      conns, nextId, closing, wslots, used, phase := map[], 0, {}, map[], {}, Idle;
    }

    method Connect(addr: Addr) returns (p: Conn)
      requires Valid()
      modifies this`nextId
      ensures nextId == old(nextId) + 1 && p == Conn(addr, old(nextId)) && New(C(), addr, p)
    {
      p := Conn(addr, nextId);
      nextId := nextId + 1;
    }

    /** The part of redirectOrNew that runs under the lock. It never hands out a connection that is
        scheduled for closing, nor the one it came from; a connection made for MOVED also becomes
        the primary of the slot. */
    method RedirectOrNew(addr: Addr, prev: Option<Conn>, slot: nat, moved: bool) returns (p: Conn)
      requires Valid() && (prev.Some? ==> prev.value in used)
      modifies this
      ensures Valid() && addr in conns && p == conns[addr] && p !in closing && Some(p) != prev
      ensures if addr !in old(conns) then Add(old(C()), C(), addr, p)
              else if prev == Some(old(conns)[addr]) then Replace(old(C()), C(), addr, p)
              else C() == old(C())
      ensures wslots == if p !in old(used) && moved && slot != SLOTS then old(wslots)[slot := p] else old(wslots)
    {
      ghost var before := C();
      if addr !in conns {
        p := Connect(addr);
        conns := conns[addr := p];
        used := used + {p};
        CorrectSlot(slot, moved, p);
        StepInv(before, C(), DoAdd(addr, p));
      } else if prev == Some(conns[addr]) {
        p := Connect(addr);
        closing := closing + {conns[addr]};
        conns := conns[addr := p];
        used := used + {p};
        CorrectSlot(slot, moved, p);
        StepInv(before, C(), DoReplace(addr, p));
      } else {
        p := conns[addr];
      }
    }

    method CorrectSlot(slot: nat, moved: bool, p: Conn)
      modifies this`wslots
      ensures wslots == if moved && slot != SLOTS then old(wslots)[slot := p] else old(wslots)
    {
      if moved && slot != SLOTS {
        wslots := wslots[slot := p];
      }
    }
  }
}
