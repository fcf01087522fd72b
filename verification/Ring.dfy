/** The pipelining ring as a step relation over any number of concurrent callers,
    one writer and one reader. A call first takes a ticket, then fills the slot its
    ticket names once that slot is free, then listens on the slot's channel. Several
    calls may wait for one slot and may fill it out of ticket order. */
module Ring {
  import opened Arith
  import opened Fifo

  /** mark 0 is free, 1 is filled, 2 is written; `cmd` is the call that filled the slot. */
  datatype Node = Node(mark: nat, cmd: Request)

  datatype Phase = Ticketed(ticket: nat) | Listening(slot: nat) | Done(reply: nat)

  /** What the reader holds between NextResultCh and FinishResult: the lock of one
      slot, and while `Sending` the reply it still has to pass on. */
  datatype Hand = Nothing | Locked(slot: nat) | Sending(slot: nat)

  /** The counters are unbounded here; RingStore shows that 32-bit counters name the same slots. */
  datatype Ring = Ring(nodes: seq<Node>, write: nat, read1: nat, read2: nat,
                       calls: map<Request, Phase>, hand: Hand)

  /** The slot named by a counter: its remainder by the ring's size (see SlotIsMod). */
  function SlotOf(counter: nat, size: nat): (p: nat)
    requires size > 0
    ensures p < size
  {
    if counter < size then counter else SlotOf(counter - size, size)
  }

  ghost predicate Unlocked(s: Ring, p: nat) {
    s.hand.Nothing? || s.hand.slot != p
  }

  ghost predicate Init(s: Ring) {
    && |s.nodes| > 0 && (forall p :: 0 <= p < |s.nodes| ==> s.nodes[p].mark == 0)
    && s.write == s.read1 == s.read2 == 0 && s.calls == map[] && s.hand == Nothing
  }

  // The atomic steps.

  ghost predicate Ticket(s: Ring, r: Request, s': Ring) {
    && r !in s.calls
    && s' == s.(write := s.write + 1, calls := s.calls[r := Ticketed(s.write + 1)])
  }

  ghost predicate Fill(s: Ring, r: Request, s': Ring)
    requires |s.nodes| > 0
  {
    && r in s.calls && s.calls[r].Ticketed?
    && var p := SlotOf(s.calls[r].ticket, |s.nodes|);
    && Unlocked(s, p) && s.nodes[p].mark == 0
    && s' == s.(nodes := s.nodes[p := Node(1, r)], calls := s.calls[r := Listening(p)])
  }

  ghost predicate WriteNext(s: Ring, r: Request, s': Ring)
    requires |s.nodes| > 0
  {
    var p := SlotOf(s.read1 + 1, |s.nodes|);
    && Unlocked(s, p) && s.nodes[p].mark == 1 && r == s.nodes[p].cmd
    && s' == s.(read1 := s.read1 + 1, nodes := s.nodes[p := s.nodes[p].(mark := 2)])
  }

  /** NextResultCh finds a written slot: the slot becomes free but stays locked. */
  ghost predicate TakeResult(s: Ring, r: Request, s': Ring)
    requires |s.nodes| > 0
  {
    var p := SlotOf(s.read2 + 1, |s.nodes|);
    && s.hand.Nothing? && s.nodes[p].mark == 2 && r == s.nodes[p].cmd
    && s' == s.(read2 := s.read2 + 1, nodes := s.nodes[p := s.nodes[p].(mark := 0)], hand := Sending(p))
  }

  /** NextResultCh finds nothing: it still holds the slot's lock. */
  ghost predicate TakeNothing(s: Ring, s': Ring)
    requires |s.nodes| > 0
  {
    var p := SlotOf(s.read2 + 1, |s.nodes|);
    s.hand.Nothing? && s.nodes[p].mark != 2 && s' == s.(hand := Locked(p))
  }

  /** The unbuffered send: the reader may meet any call that listens on the slot. */
  ghost predicate Rendezvous(s: Ring, r: Request, reply: nat, s': Ring) {
    && s.hand.Sending? && reply + 1 == s.read2
    && r in s.calls && s.calls[r] == Listening(s.hand.slot)
    && s' == s.(calls := s.calls[r := Done(reply)], hand := Locked(s.hand.slot))
  }

  ghost predicate Finish(s: Ring, s': Ring) {
    s.hand.Locked? && s' == s.(hand := Nothing)
  }

  ghost predicate Step(s: Ring, e: Event, s': Ring)
    requires |s.nodes| > 0
  {
    match e
    case Put(r) => Ticket(s, r, s')
    case Internal => (exists r :: Fill(s, r, s')) || TakeNothing(s, s') || Finish(s, s')
    case Wrote(r) => WriteNext(s, r, s')
    case Took(r) => TakeResult(s, r, s')
    case Received(r, k) => Rendezvous(s, r, k, s')
  }

  // The simulation of Fifo.

  ghost predicate Shape(s: Ring, a: State) {
    && |s.nodes| > 0
    && s.read2 <= s.read1 <= s.read2 + |s.nodes|
    && |a.written| == s.read1 && a.taken == s.read2
    && a.delivered == s.read2 - (if s.hand.Sending? then 1 else 0)
    && a.put == s.calls.Keys
    && Fifo.Inv(a)
    && (s.hand.Nothing? || s.hand.slot < |s.nodes|)
    && (s.hand.Sending? ==> s.read2 > 0 && s.nodes[s.hand.slot].mark == 0
                            && a.written[s.read2 - 1] in s.calls
                            && s.calls[a.written[s.read2 - 1]] == Listening(s.hand.slot))
  }

  /** The command written with counter j, not yet taken, sits in its slot with mark 2. */
  ghost predicate HoldsWritten(s: Ring, a: State, j: nat)
    requires Shape(s, a) && 0 < j <= s.read1
  {
    s.nodes[SlotOf(j, |s.nodes|)] == Node(2, a.written[j - 1])
  }

  /** Some counter after `lo` up to `hi` names slot p. */
  ghost predicate InWindow(lo: nat, hi: nat, size: nat, p: nat)
    requires size > 0
  {
    exists j: nat :: lo < j <= hi && SlotOf(j, size) == p
  }

  ghost predicate NodeOk(s: Ring, a: State, p: nat)
    requires Shape(s, a) && p < |s.nodes|
  {
    var n := s.nodes[p];
    && n.mark <= 2
    && (n.mark != 0 ==> n.cmd in s.calls && s.calls[n.cmd] == Listening(p))
    && (n.mark == 1 ==> n.cmd !in a.written)
    && (n.mark == 2 ==> InWindow(s.read2, s.read1, |s.nodes|, p))
  }

  ghost predicate CallOk(s: Ring, a: State, r: Request)
    requires Shape(s, a) && r in s.calls
  {
    match s.calls[r]
    case Ticketed(t) => r !in a.written
    case Listening(p) =>
      && p < |s.nodes|
      && ((s.nodes[p].mark != 0 && s.nodes[p].cmd == r)
          || (s.hand == Sending(p) && r == a.written[s.read2 - 1]))
    case Done(k) => k < a.delivered && a.written[k] == r
  }

  ghost predicate Sim(s: Ring, a: State) {
    && Shape(s, a)
    && (forall j: nat :: s.read2 < j <= s.read1 ==> HoldsWritten(s, a, j))
    && (forall p: nat :: p < |s.nodes| ==> NodeOk(s, a, p))
    && (forall r :: r in s.calls ==> CallOk(s, a, r))
  }

  lemma {:induction false} SlotsDiffer(i: nat, j: nat, size: nat)
    requires i < j < i + size
    ensures SlotOf(i, size) != SlotOf(j, size)
    decreases j
  {
    if size <= i {
      SlotsDiffer(i - size, j - size, size);
    }
  }

  lemma {:induction false} SlotIsMod(counter: nat, size: nat)
    requires size > 0
    ensures SlotOf(counter, size) == counter % size
    decreases counter
  {
    if counter < size {
      DivModUnique(counter, size, 0, counter);
    } else {
      SlotIsMod(counter - size, size);
      ModOfMultiple(counter - size, size, 1);
    }
  }

  lemma InitSim(s: Ring)
    requires Init(s)
    ensures Sim(s, EMPTY)
  {
  }

  /** The mark-2 slots stay as they are when a step leaves them and the counters alone. */
  lemma {:induction false} FillSim(s: Ring, a: State, r: Request, s': Ring)
    requires Sim(s, a) && Fill(s, r, s')
    ensures Sim(s', a)
  {
    var p := SlotOf(s.calls[r].ticket, |s.nodes|);
    assert CallOk(s, a, r) && NodeOk(s, a, p);
    forall j: nat | s'.read2 < j <= s'.read1 ensures HoldsWritten(s', a, j) {
      assert HoldsWritten(s, a, j);
    }
    forall q: nat | q < |s'.nodes| ensures NodeOk(s', a, q) { assert NodeOk(s, a, q); }
    forall c | c in s'.calls ensures CallOk(s', a, c) { assert CallOk(s, a, c); }
  }

  lemma {:induction false} WriteSim(s: Ring, a: State, r: Request, s': Ring)
    requires Sim(s, a) && WriteNext(s, r, s')
    ensures Enabled(a, Wrote(r)) && Sim(s', Apply(a, Wrote(r)))
  {
    var a', n := Apply(a, Wrote(r)), |s.nodes|;
    var p := SlotOf(s.read1 + 1, n);
    assert NodeOk(s, a, p);
    assert s.read2 < s.read1 ==> HoldsWritten(s, a, s.read2 + 1);
    forall j: nat | s'.read2 < j <= s'.read1 ensures HoldsWritten(s', a', j) {
      if j <= s.read1 {
        assert HoldsWritten(s, a, j);
        SlotsDiffer(j, s.read1 + 1, n);
      }
    }
    forall q: nat | q < n ensures NodeOk(s', a', q) { assert NodeOk(s, a, q); }
    forall c | c in s'.calls ensures CallOk(s', a', c) { assert CallOk(s, a, c); }
  }

  lemma {:induction false} TakeSim(s: Ring, a: State, r: Request, s': Ring)
    requires Sim(s, a) && TakeResult(s, r, s')
    ensures Enabled(a, Took(r)) && Sim(s', Apply(a, Took(r)))
  {
    var a', n := Apply(a, Took(r)), |s.nodes|;
    var p := SlotOf(s.read2 + 1, n);
    assert NodeOk(s, a, p);
    assert HoldsWritten(s, a, s.read2 + 1);
    forall j: nat | s'.read2 < j <= s'.read1 ensures HoldsWritten(s', a', j) {
      assert HoldsWritten(s, a, j);
      SlotsDiffer(s.read2 + 1, j, n);
    }
    forall q: nat | q < n ensures NodeOk(s', a', q) { assert NodeOk(s, a, q); }
    forall c | c in s'.calls ensures CallOk(s', a', c) { assert CallOk(s, a, c); }
  }

  /** Whoever meets the reader is the call whose command was written with this reply's number. */
  lemma {:induction false} RendezvousSim(s: Ring, a: State, r: Request, reply: nat, s': Ring)
    requires Sim(s, a) && Rendezvous(s, r, reply, s')
    ensures Enabled(a, Received(r, reply)) && Sim(s', Apply(a, Received(r, reply)))
  {
    var a' := Apply(a, Received(r, reply));
    assert CallOk(s, a, r);
    forall j: nat | s'.read2 < j <= s'.read1 ensures HoldsWritten(s', a', j) {
      assert HoldsWritten(s, a, j);
    }
    forall q: nat | q < |s.nodes| ensures NodeOk(s', a', q) { assert NodeOk(s, a, q); }
    forall c | c in s'.calls ensures CallOk(s', a', c) { assert CallOk(s, a, c); }
  }

  lemma {:induction false} StepSim(s: Ring, a: State, e: Event, s': Ring)
    requires Sim(s, a) && Step(s, e, s')
    ensures Enabled(a, e) && Sim(s', Apply(a, e))
  {
    match e
    case Wrote(r) => WriteSim(s, a, r, s');
    case Took(r) => TakeSim(s, a, r, s');
    case Received(r, k) => RendezvousSim(s, a, r, k, s');
    case Put(r) =>
      forall j: nat | s'.read2 < j <= s'.read1
        ensures HoldsWritten(s', Apply(a, e), j)
      {
        assert HoldsWritten(s, a, j);
      }
      forall q: nat | q < |s.nodes| ensures NodeOk(s', Apply(a, e), q) { assert NodeOk(s, a, q); }
      forall c | c in s'.calls ensures CallOk(s', Apply(a, e), c) { assert c != r ==> CallOk(s, a, c); }
    case Internal =>
      if r :| Fill(s, r, s') {
        FillSim(s, a, r, s');
      } else {
        forall j: nat | s'.read2 < j <= s'.read1 ensures HoldsWritten(s', a, j) { assert HoldsWritten(s, a, j); }
        forall q: nat | q < |s.nodes| ensures NodeOk(s', a, q) { assert NodeOk(s, a, q); }
        forall c | c in s'.calls ensures CallOk(s', a, c) { assert CallOk(s, a, c); }
      }
  }

  /** What every reachable state satisfies. */
  ghost predicate Reachable(s: Ring) {
    exists a :: Sim(s, a)
  }

  lemma {:induction false} StepReachable(s: Ring, e: Event, s': Ring)
    requires |s.nodes| > 0 && Reachable(s) && Step(s, e, s')
    ensures Reachable(s')
  {
    var a :| Sim(s, a);
    StepSim(s, a, e, s');
  }

  // Whole runs.

  ghost predicate Run(states: seq<Ring>, trace: seq<Event>) {
    && |states| == |trace| + 1
    && forall i :: 0 <= i < |trace| ==> |states[i].nodes| > 0 && Step(states[i], trace[i], states[i + 1])
  }

  ghost function After(a: State, trace: seq<Event>): State
    decreases |trace|
  {
    if trace == [] then a else After(Apply(a, trace[0]), trace[1..])
  }

  lemma {:induction false} RunSim(states: seq<Ring>, trace: seq<Event>, a: State)
    requires Run(states, trace) && Sim(states[0], a)
    ensures Accepts(a, trace) && Sim(states[|trace|], After(a, trace))
    decreases |trace|
  {
    if trace != [] {
      StepSim(states[0], a, trace[0], states[1]);
      RunSim(states[1..], trace[1..], Apply(a, trace[0]));
    }
  }

  /** Ring delivery: whatever the interleaving, a run of the ring shows only what the
      abstract pipeline allows, so reply k reaches the call whose command was written
      k-th, exactly that call, once. */
  lemma {:induction false} RingRefinesFifo(states: seq<Ring>, trace: seq<Event>)
    requires Run(states, trace) && Init(states[0])
    ensures Accepts(EMPTY, trace)
    ensures Distinct(Writes(trace))
    ensures forall i :: 0 <= i < |trace| ==> Answers(Writes(trace), trace[i], 0)
    ensures forall i, j :: 0 <= i < j < |trace| && trace[i].Received? && trace[j].Received? ==>
              trace[i].r != trace[j].r
  {
    InitSim(states[0]);
    RunSim(states, trace, EMPTY);
    RepliesReachTheirRequests(trace);
  }

  /** At the moment of the send exactly one call listens on the channel: the one whose reply it is. */
  lemma {:induction false} OnlyOneListener(s: Ring, a: State, r: Request)
    requires Sim(s, a) && s.hand.Sending? && r in s.calls
    ensures s.calls[r] == Listening(s.hand.slot) <==> r == a.written[s.read2 - 1]
  {
    assert CallOk(s, a, r);
  }

  /** The slots with mark 2 are exactly the counters after read2 up to read1, in
      the order the writer took them. */
  lemma {:induction false} WrittenWindow(s: Ring, a: State, p: nat)
    requires Sim(s, a) && p < |s.nodes|
    ensures s.nodes[p].mark == 2 <==> InWindow(s.read2, s.read1, |s.nodes|, p)
    ensures forall j: nat :: s.read2 < j <= s.read1 && SlotOf(j, |s.nodes|) == p ==> s.nodes[p].cmd == a.written[j - 1]
  {
    assert NodeOk(s, a, p);
    forall j: nat | s.read2 < j <= s.read1 && SlotOf(j, |s.nodes|) == p
      ensures s.nodes[p].mark == 2 && s.nodes[p].cmd == a.written[j - 1]
    {
      assert HoldsWritten(s, a, j);
    }
  }

  // Progress.

  /** How many of the counters 1..upto name slot p. */
  ghost function Naming(upto: nat, p: nat, size: nat): nat
    requires size > 0
  {
    if upto == 0 then 0 else Naming(upto - 1, p, size) + (if SlotOf(upto, size) == p then 1 else 0)
  }

  lemma {:induction false} NamingGrows(i: nat, j: nat, p: nat, size: nat)
    requires i <= j && size > 0
    ensures Naming(i, p, size) <= Naming(j, p, size)
  {
    if i < j { NamingGrows(i, j - 1, p, size); }
  }

  /** The calls that hold a ticket for slot p and have not filled it yet. */
  ghost function Bound(s: Ring, p: nat): set<Request>
    requires |s.nodes| > 0
  {
    set r | r in s.calls && s.calls[r].Ticketed? && SlotOf(s.calls[r].ticket, |s.nodes|) == p
  }

  /** Every ticket for a slot is still held, or filled the slot now, or was written. */
  ghost predicate BalancedAt(s: Ring, p: nat)
    requires p < |s.nodes|
  {
    |Bound(s, p)| + (if s.nodes[p].mark == 1 then 1 else 0) + Naming(s.read1, p, |s.nodes|)
      == Naming(s.write, p, |s.nodes|)
  }

  ghost predicate Balanced(s: Ring) {
    |s.nodes| > 0 && forall p: nat :: p < |s.nodes| ==> BalancedAt(s, p)
  }

  lemma {:induction false} TicketBalanced(s: Ring, r: Request, s': Ring)
    requires Balanced(s) && Ticket(s, r, s')
    ensures Balanced(s')
  {
    forall p: nat | p < |s'.nodes| ensures BalancedAt(s', p) {
      assert BalancedAt(s, p);
      assert Bound(s', p) == Bound(s, p) + (if SlotOf(s.write + 1, |s.nodes|) == p then {r} else {});
    }
  }

  lemma {:induction false} FillBalanced(s: Ring, r: Request, s': Ring)
    requires Balanced(s) && Fill(s, r, s')
    ensures Balanced(s')
  {
    forall p: nat | p < |s'.nodes| ensures BalancedAt(s', p) {
      assert BalancedAt(s, p);
      assert Bound(s', p) == Bound(s, p) - {r};
    }
  }

  lemma {:induction false} StepBalanced(s: Ring, e: Event, s': Ring)
    requires Balanced(s) && Step(s, e, s')
    ensures Balanced(s')
  {
    if e.Put? {
      TicketBalanced(s, e.r, s');
    } else if r :| e.Internal? && Fill(s, r, s') {
      FillBalanced(s, r, s');
    } else {
      forall p: nat | p < |s'.nodes| ensures BalancedAt(s', p) {
        assert BalancedAt(s, p);
        assert e.Received? ==> s.calls[e.r].Listening?;
        assert Bound(s', p) == Bound(s, p);
      }
    }
  }

  lemma {:induction false} RunBalanced(states: seq<Ring>, trace: seq<Event>)
    requires Run(states, trace) && Init(states[0])
    ensures Balanced(states[|trace|])
    decreases |trace|
  {
    if trace == [] {
      forall p: nat | p < |states[0].nodes| ensures BalancedAt(states[0], p) {
        assert Bound(states[0], p) == {};
      }
    } else {
      var m := |trace| - 1;
      RunBalanced(states[..m + 1], trace[..m]);
      StepBalanced(states[m], trace[m], states[m + 1]);
    }
  }

  /** Whenever more tickets were issued than commands written, the slot the writer waits
      on is filled, still in use, or has a ticketed call bound to fill it. */
  lemma {:induction false} WriterWillBeServed(s: Ring)
    requires Balanced(s) && s.read1 < s.write
    ensures var p := SlotOf(s.read1 + 1, |s.nodes|); s.nodes[p].mark != 0 || Bound(s, p) != {}
  {
    var p := SlotOf(s.read1 + 1, |s.nodes|);
    assert BalancedAt(s, p);
    NamingGrows(s.read1 + 1, s.write, p, |s.nodes|);
  }

  /** A step by which some call gets closer to its reply, or the reader lets go of a slot. */
  ghost predicate Advances(s: Ring, s': Ring)
    requires |s.nodes| > 0
  {
    || (exists r :: Fill(s, r, s')) || (exists r :: WriteNext(s, r, s')) || (exists r :: TakeResult(s, r, s'))
    || (exists r, k :: Rendezvous(s, r, k, s')) || Finish(s, s')
  }

  /** No deadlock: while any call is unanswered, some advancing step is enabled. */
  lemma {:induction false} NoDeadlock(s: Ring, a: State, r: Request) returns (s': Ring)
    requires Sim(s, a) && Balanced(s) && r in s.calls && !s.calls[r].Done?
    ensures Advances(s, s')
  {
    var n := |s.nodes|;
    s' := s;
    if s.hand.Sending? {
      var w := a.written[s.read2 - 1];
      s' := s.(calls := s.calls[w := Done(s.read2 - 1)], hand := Locked(s.hand.slot));
      assert Rendezvous(s, w, s.read2 - 1, s');
    } else if s.hand.Locked? {
      s' := s.(hand := Nothing);
      assert Finish(s, s');
    } else if s.read2 < s.read1 {
      var p := SlotOf(s.read2 + 1, n);
      assert HoldsWritten(s, a, s.read2 + 1);
      s' := s.(read2 := s.read2 + 1, nodes := s.nodes[p := s.nodes[p].(mark := 0)], hand := Sending(p));
      assert TakeResult(s, s.nodes[p].cmd, s');
    } else if s.read1 < s.write {
      WriterWillBeServed(s);
      var p := SlotOf(s.read1 + 1, n);
      assert NodeOk(s, a, p);
      if s.nodes[p].mark == 1 {
        s' := s.(read1 := s.read1 + 1, nodes := s.nodes[p := s.nodes[p].(mark := 2)]);
        assert WriteNext(s, s.nodes[p].cmd, s');
      } else {
        var c :| c in Bound(s, p);
        s' := s.(nodes := s.nodes[p := Node(1, c)], calls := s.calls[c := Listening(p)]);
        assert Fill(s, c, s');
      }
    } else {
      NothingPending(s, a, r);
    }
  }

  /** Once everything ticketed is written and taken, every call is done. */
  lemma {:induction false} NothingPending(s: Ring, a: State, r: Request)
    requires Sim(s, a) && Balanced(s) && s.hand.Nothing? && s.write <= s.read1 == s.read2 && r in s.calls
    ensures s.calls[r].Done?
  {
    assert CallOk(s, a, r);
    if !s.calls[r].Done? {
      var p := if s.calls[r].Ticketed? then SlotOf(s.calls[r].ticket, |s.nodes|) else s.calls[r].slot;
      assert s.calls[r].Ticketed? ==> r in Bound(s, p);
      assert NodeOk(s, a, p) && BalancedAt(s, p);
      NamingGrows(s.write, s.read1, p, |s.nodes|);
    }
  }
}
