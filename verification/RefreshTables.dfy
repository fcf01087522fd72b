/** The slot tables as the refresh fills and repairs them, slot by slot, in place. */
module RefreshTables {
  import opened Common
  import opened Refresh

  ghost predicate RepairedOn(t: Tables, u: Tables, done: set<int>, replaced: map<Conn, Conn>)
    requires |t.w| == |t.r| == SLOTS
  {
    |u.w| == |u.r| == SLOTS && |u.nodes| == |t.nodes| &&
    (forall i {:trigger u.w[i]} :: 0 <= i < SLOTS ==>
      u.w[i] == if i in done && t.w[i].Some? then Some(Fix(t.w[i].value, replaced)) else t.w[i]) &&
    (forall i {:trigger u.r[i]} :: 0 <= i < SLOTS ==>
      u.r[i] == if i in done && t.r[i].Own? then Own(Fix(t.r[i].c, replaced)) else t.r[i]) &&
    (forall h {:trigger u.nodes[h]} :: 0 <= h < |t.nodes| ==>
      u.nodes[h] == if TouchedOn(t, done, h) then FixAll(t.nodes[h], replaced) else t.nodes[h])
  }

  ghost predicate TouchedOn(t: Tables, done: set<int>, h: nat)
    requires |t.r| == SLOTS
  {
    exists i :: i in done && 0 <= i < SLOTS && t.r[i] == Shared(h)
  }

  /** Repairing a list twice is repairing it once. */
  lemma FixTwice(cs: seq<Conn>, replaced: map<Conn, Conn>)
    requires Settled(replaced)
    ensures FixAll(FixAll(cs, replaced), replaced) == FixAll(cs, replaced)
  {
  }

  /** The slots the first k ranges of a group reach. */
  ghost function Reached(g: Group, k: nat): (s: set<int>)
    requires k <= |g.ranges|
    ensures forall i :: i in s <==> 0 <= i < SLOTS && CoversFirst(g, k, i)
  {
    set i | 0 <= i < SLOTS && CoversFirst(g, k, i)
  }

  lemma {:induction false} RepairedAll(t: Tables, u: Tables, g: Group, replaced: map<Conn, Conn>)
    requires |t.w| == |t.r| == SLOTS && RepairedOn(t, u, Reached(g, |g.ranges|), replaced)
    ensures Repaired(t, u, g, replaced)
  {
    forall h | 0 <= h < |t.nodes| ensures TouchedOn(t, Reached(g, |g.ranges|), h) <==> Touches(t, g, h) {
      if Touches(t, g, h) {
        var i :| 0 <= i < SLOTS && Covers(g, i) && t.r[i] == Shared(h);
        assert i in Reached(g, |g.ranges|);
      }
    }
  }

  class SlotTables {
    const w: array<Option<Conn>>
    const r: array<RSlot>
    const nodes: array<seq<Conn>>

    ghost predicate Valid()
      reads this
    {
      w.Length == r.Length == SLOTS
    }

    ghost function T(): Tables
      reads this, w, r, nodes
    {
      Tables(w[..], r[..], nodes[..])
    }

    constructor (lists: seq<seq<Conn>>)
      ensures Valid() && fresh(w) && fresh(r) && fresh(nodes)
      ensures nodes[..] == lists && (forall i :: 0 <= i < SLOTS ==> w[i].None? && r[i].NoNodes?)
    {
      w := new Option<Conn>[SLOTS](_ => None);
      r := new RSlot[SLOTS](_ => NoNodes);
      nodes := new seq<Conn>[|lists|](g requires 0 <= g < |lists| => lists[g]);
    }

    /** One range of a group: every slot gets the group's nodes. */
    method BuildRange(lh: (int, int), g: nat, sv: Serving, ch: Choices, ghost t: Tables, ghost done: set<int>)
      requires Valid() && g < nodes.Length && nodes[g] != [] && |t.w| == |t.r| == SLOTS && t.nodes == nodes[..]
      requires BuiltOn(t, T(), done, g, sv, ch)
      modifies w, r
      ensures BuiltOn(t, T(), done + Span(lh), g, sv, ch)
    {
      var i := lh.0;
      ghost var seen: set<int> := {};
      assert done + seen == done;
      while i <= lh.1 && i >= 0 && i < SLOTS
        invariant seen == set j | 0 <= j < SLOTS && InRange(lh, j) && j < i
        invariant lh.0 <= i && (lh.0 < 0 ==> i == lh.0)
        invariant nodes[..] == t.nodes && BuiltOn(t, T(), done + seen, g, sv, ch)
        decreases SLOTS - i
      {
        w[i] := Some(nodes[g][WriteNode(sv, |nodes[g]|, ch.random(g, i))]);
        r[i] := BuiltR(sv, g, nodes[g], ch.selector(g, i));
        seen := seen + {i};
        i := i + 1;
      }
      assert seen == Span(lh);
    }

    /** The build loop over all groups, in the order bo. */
    method BuildAll(gs: seq<Group>, sv: Serving, ch: Choices, bo: seq<nat>)
      requires Valid() && Order(bo, |gs|) && NodesOf(nodes[..], gs)
      requires forall i :: 0 <= i < SLOTS ==> w[i].None? && r[i].NoNodes?
      modifies w, r
      ensures Valid() && Built(T(), gs, old(nodes[..]), sv, ch, bo) && SharedValid(T())
    {
      for k := 0 to |bo|
        invariant nodes[..] == old(nodes[..]) && BuiltFirst(T(), gs, sv, ch, bo, k)
      {
        ghost var t := T();
        var g := bo[k];
        assert t.nodes[g] == nodes[g];
        for x := 0 to |gs[g].ranges|
          invariant nodes[..] == t.nodes && BuiltOn(t, T(), Reached(gs[g], x), g, sv, ch)
        {
          BuildRange(gs[g].ranges[x], g, sv, ch, t, Reached(gs[g], x));
          ReachedNext(gs[g], x);
        }
        BuiltNext(t, T(), gs, sv, ch, bo, k);
      }
    }

    method RepairWrite(i: nat, replaced: map<Conn, Conn>)
      requires Valid() && i < SLOTS
      modifies w
      ensures w[..] == old(w[..])[i := if old(w[i]).Some? then Some(Fix(old(w[i]).value, replaced)) else old(w[i])]
    {
      if w[i].Some? && w[i].value in replaced {
        w[i] := Some(replaced[w[i].value]);
      }
    }

    method RepairRead(i: nat, replaced: map<Conn, Conn>)
      requires Valid() && i < SLOTS && (r[i].Shared? ==> r[i].g < nodes.Length)
      modifies r, nodes
      ensures r[..] == old(r[..])[i := if old(r[i]).Own? then Own(Fix(old(r[i]).c, replaced)) else old(r[i])]
      ensures nodes[..] == if old(r[i]).Shared?
                           then old(nodes[..])[old(r[i]).g := FixAll(old(nodes[r[i].g]), replaced)] else old(nodes[..])
    {
      match r[i] {
        case NoNodes =>
        case Own(c) =>
          r[i] := Own(Fix(c, replaced));
        case Shared(h) =>
          nodes[h] := FixAll(nodes[h], replaced);
      }
    }

    /** One slot of the repair loop. */
    method RepairSlot(i: nat, replaced: map<Conn, Conn>, ghost t: Tables, ghost done: set<int>)
      requires Valid() && i < SLOTS && Settled(replaced) && |t.w| == |t.r| == SLOTS
      requires RepairedOn(t, T(), done, replaced) && (t.r[i].Shared? ==> t.r[i].g < |t.nodes|)
      modifies w, r, nodes
      ensures RepairedOn(t, T(), done + {i}, replaced)
    {
      ghost var u := T();
      assert u.w[i] == w[i] && u.r[i] == r[i];
      RepairWrite(i, replaced);
      RepairRead(i, replaced);
      if u.r[i].Shared? {
        FixTwice(t.nodes[u.r[i].g], replaced);
        assert u.nodes[u.r[i].g] in [t.nodes[u.r[i].g], FixAll(t.nodes[u.r[i].g], replaced)];
      }
      SlotRepaired(t, u, T(), done, i, replaced);
    }

    method RepairRange(lh: (int, int), replaced: map<Conn, Conn>, ghost t: Tables, ghost done: set<int>)
      requires Valid() && Settled(replaced) && SharedValid(t) && RepairedOn(t, T(), done, replaced)
      modifies w, r, nodes
      ensures RepairedOn(t, T(), done + Span(lh), replaced)
    {
      var i := lh.0;
      ghost var seen: set<int> := {};
      assert done + seen == done;
      while i <= lh.1 && i >= 0 && i < SLOTS
        invariant seen == set j | 0 <= j < SLOTS && InRange(lh, j) && j < i
        invariant lh.0 <= i && (lh.0 < 0 ==> i == lh.0)
        invariant RepairedOn(t, T(), done + seen, replaced)
        decreases SLOTS - i
      {
        RepairSlot(i, replaced, t, done + seen);
        assert done + seen + {i} == done + (seen + {i});
        seen := seen + {i};
        i := i + 1;
      }
      assert seen == Span(lh);
    }

    /** One group of the repair loop: skipped unless one of its nodes was replaced. */
    method RepairGroup(gs: seq<Group>, g: nat, replaced: map<Conn, Conn>)
      requires Valid() && Settled(replaced) && SharedValid(T()) && g < |gs| == nodes.Length
      modifies w, r, nodes
      ensures Valid() && RepairStep(old(T()), T(), gs, g, replaced) && SharedValid(T())
    {
      var hit := false;
      for k := 0 to |nodes[g]|
        invariant hit <==> exists j :: 0 <= j < k && nodes[g][j] in replaced
      {
        hit := hit || nodes[g][k] in replaced;
      }
      if !hit {
        return;
      }
      ghost var t := T();
      assert RepairedOn(t, T(), Reached(gs[g], 0), replaced);
      for x := 0 to |gs[g].ranges|
        invariant RepairedOn(t, T(), Reached(gs[g], x), replaced)
      {
        RepairRange(gs[g].ranges[x], replaced, t, Reached(gs[g], x));
        ReachedNext(gs[g], x);
      }
      RepairedAll(t, T(), gs[g], replaced);
    }

    /** The whole repair loop, over the groups in the order ro. */
    method RepairAll(gs: seq<Group>, ro: seq<nat>, replaced: map<Conn, Conn>) returns (ghost ts: seq<Tables>)
      requires Valid() && Settled(replaced) && SharedValid(T()) && |gs| == nodes.Length && Order(ro, |gs|)
      modifies w, r, nodes
      ensures Valid() && Repair(ts, gs, ro, replaced) && ts[0] == old(T()) && ts[|ro|] == T()
    {
      ts := [T()];
      for k := 0 to |ro|
        invariant |ts| == k + 1 && ts[0] == old(T()) && ts[k] == T() && SharedValid(T())
        invariant forall j :: 0 <= j <= k ==> |ts[j].w| == |ts[j].r| == SLOTS && |ts[j].nodes| == |gs|
        invariant forall j :: 0 <= j < k ==> RepairStep(ts[j], ts[j + 1], gs, ro[j], replaced)
      {
        RepairGroup(gs, ro[k], replaced);
        ts := ts + [T()];
      }
    }
  }

  ghost predicate BuiltOn(t: Tables, u: Tables, done: set<int>, g: nat, sv: Serving, ch: Choices)
    requires |t.w| == |t.r| == SLOTS && g < |t.nodes| && t.nodes[g] != []
  {
    |u.w| == |u.r| == SLOTS && u.nodes == t.nodes &&
    (forall i {:trigger u.w[i]} :: 0 <= i < SLOTS ==>
      u.w[i] == if i in done then Some(t.nodes[g][WriteNode(sv, |t.nodes[g]|, ch.random(g, i))]) else t.w[i]) &&
    (forall i {:trigger u.r[i]} :: 0 <= i < SLOTS ==>
      u.r[i] == if i in done then BuiltR(sv, g, t.nodes[g], ch.selector(g, i)) else t.r[i])
  }

  /** The tables after the first k groups of the order. */
  ghost predicate BuiltFirst(t: Tables, gs: seq<Group>, sv: Serving, ch: Choices, bo: seq<nat>, k: nat)
    requires Order(bo, |gs|) && NodesOf(t.nodes, gs) && k <= |bo|
  {
    |t.w| == |t.r| == SLOTS &&
    forall i {:trigger t.w[i]} {:trigger t.r[i]} :: 0 <= i < SLOTS ==>
      match Owner(gs, bo, k, i)
      case None => t.w[i].None? && t.r[i].NoNodes?
      case Some(g) =>
        t.w[i] == Some(t.nodes[g][WriteNode(sv, |t.nodes[g]|, ch.random(g, i))]) &&
        t.r[i] == BuiltR(sv, g, t.nodes[g], ch.selector(g, i))
  }

  lemma {:induction false} BuiltNext(t: Tables, u: Tables, gs: seq<Group>, sv: Serving, ch: Choices, bo: seq<nat>,
                                     k: nat)
    requires Order(bo, |gs|) && NodesOf(t.nodes, gs) && k < |bo| && BuiltFirst(t, gs, sv, ch, bo, k)
    requires BuiltOn(t, u, Reached(gs[bo[k]], |gs[bo[k]].ranges|), bo[k], sv, ch)
    ensures BuiltFirst(u, gs, sv, ch, bo, k + 1)
  {
    forall i | 0 <= i < SLOTS
      ensures Owner(gs, bo, k + 1, i)
           == if i in Reached(gs[bo[k]], |gs[bo[k]].ranges|) then Some(bo[k]) else Owner(gs, bo, k, i)
    {
    }
  }

  ghost predicate SharedValid(t: Tables) {
    |t.w| == |t.r| == SLOTS && forall i :: 0 <= i < SLOTS && t.r[i].Shared? ==> t.r[i].g < |t.nodes|
  }

  ghost function Span(lh: (int, int)): set<int> {
    set j | 0 <= j < SLOTS && InRange(lh, j)
  }

  lemma {:induction false} ReachedNext(g: Group, x: nat)
    requires x < |g.ranges|
    ensures Reached(g, x + 1) == Reached(g, x) + Span(g.ranges[x])
  {
    forall i | 0 <= i < SLOTS ensures CoversFirst(g, x + 1, i) <==> CoversFirst(g, x, i) || InRange(g.ranges[x], i) {}
  }

  lemma {:induction false} SlotRepaired(t: Tables, u: Tables, v: Tables, done: set<int>, i: nat,
                                        replaced: map<Conn, Conn>)
    requires |t.w| == |t.r| == SLOTS && RepairedOn(t, u, done, replaced) && Settled(replaced) && i < SLOTS
    requires t.r[i].Shared? ==> t.r[i].g < |t.nodes|
    requires |v.nodes| == |u.nodes|
    requires v.w == u.w[i := if u.w[i].Some? then Some(Fix(u.w[i].value, replaced)) else u.w[i]]
    requires v.r == u.r[i := if u.r[i].Own? then Own(Fix(u.r[i].c, replaced)) else u.r[i]]
    requires forall h :: 0 <= h < |v.nodes| ==>
      v.nodes[h] == if u.r[i] == Shared(h) then FixAll(t.nodes[h], replaced) else u.nodes[h]
    ensures RepairedOn(t, v, done + {i}, replaced)
  {
    assert u.r[i].Shared? <==> t.r[i].Shared?;
    forall h | 0 <= h < |t.nodes|
      ensures TouchedOn(t, done + {i}, h) <==> TouchedOn(t, done, h) || t.r[i] == Shared(h)
    {
      if TouchedOn(t, done, h) {
        var x :| x in done && 0 <= x < SLOTS && t.r[x] == Shared(h);
        assert x in done + {i};
      }
    }
  }
}
