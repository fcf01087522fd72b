/** The ring's own data: an array of slots and 32-bit counters that wrap around.
    Every method is one atomic section of the source (under the slot's mutex, or one
    atomic add) and is proved to be the step of the same name in module Ring. */
module RingStore {
  import opened Arith
  import opened Common
  import opened Fifo
  import opened Ring

  const UINT32 := 0x1_0000_0000

  datatype Slot<C, R> = Slot(mark: nat, one: Option<C>, multi: Option<seq<C>>, resps: Option<seq<R>>)

  function Content<C, R>(mark: nat, x: Payload<C, R>): Slot<C, R> {
    match x
    case One(c) => Slot(mark, Some(c), None, None)
    case Multi(m, rs) => Slot(mark, None, Some(m), Some(rs))
  }

  lemma {:induction false} Pow2Of32()
    ensures Pow2(32) == UINT32
  {
    Pow2Add(16, 16);
    Pow2Add(8, 8);
    assert Pow2(8) == 256;
  }

  function Inc32(x: nat): nat {
    if x == UINT32 - 1 then 0 else x + 1
  }

  function Dec32(x: nat): nat {
    if x == 0 then UINT32 - 1 else x - 1
  }

  /** A 32-bit counter after c increments. */
  function Wrap32(c: nat): (x: nat)
    ensures x < UINT32
  {
    if c == 0 then 0 else Inc32(Wrap32(c - 1))
  }

  lemma {:induction false} WrapIsMod(c: nat)
    ensures Wrap32(c) == c % UINT32
  {
    if c > 0 { WrapIsMod(c - 1); }
  }

  lemma MulAssoc(x: nat, y: nat, z: nat)
    ensures (x * y) * z == x * (y * z)
  {
  }

  /** What the wrap-around takes off a counter is a multiple of every power-of-two size. */
  lemma {:induction false} CounterSplits(counter: nat, scale: nat, size: nat) returns (m: nat)
    requires scale <= 32 && size == Pow2(scale)
    ensures counter == Wrap32(counter) + size * m
  {
    var k, q := Pow2(32 - scale), counter / UINT32;
    Pow2Add(scale, 32 - scale);
    Pow2Of32();
    WrapIsMod(counter);
    MulAssoc(size, k, q);
    m := k * q;
  }

  /** A wrapped 32-bit counter masked by a power-of-two size names the slot of the unbounded counter. */
  lemma {:induction false} WrappedCounterNamesSlot(counter: nat, scale: nat)
    requires scale <= 32
    ensures BitAnd(Wrap32(counter), Pow2(scale) - 1) == SlotOf(counter, Pow2(scale))
  {
    var size, low := Pow2(scale), Wrap32(counter);
    var m := CounterSplits(counter, scale, size);
    MaskIsMod(low, scale);
    ModOfMultiple(low, size, m);
    SlotIsMod(counter, size);
  }

  /** The ring after the writer took the filled slot p. */
  ghost function Written(s: Ring, p: nat): (s': Ring)
    requires |s.nodes| > 0 && Reachable(s) && Unlocked(s, p)
    requires p == SlotOf(s.read1 + 1, |s.nodes|) && s.nodes[p].mark == 1
    ensures WriteNext(s, s.nodes[p].cmd, s') && Reachable(s')
  {
    var s' := s.(read1 := s.read1 + 1, nodes := s.nodes[p := s.nodes[p].(mark := 2)]);
    StepReachable(s, Wrote(s.nodes[p].cmd), s');
    s'
  }

  /** The ring after the reader took the written slot p. */
  ghost function Taken(s: Ring, p: nat): (s': Ring)
    requires |s.nodes| > 0 && Reachable(s) && s.hand.Nothing?
    requires p == SlotOf(s.read2 + 1, |s.nodes|) && s.nodes[p].mark == 2
    ensures TakeResult(s, s.nodes[p].cmd, s') && Reachable(s')
  {
    var s' := s.(read2 := s.read2 + 1, nodes := s.nodes[p := s.nodes[p].(mark := 0)], hand := Sending(p));
    StepReachable(s, Took(s.nodes[p].cmd), s');
    s'
  }

  /** The ring after the reader found nothing in slot p. */
  ghost function Held(s: Ring, p: nat): (s': Ring)
    requires |s.nodes| > 0 && Reachable(s) && s.hand.Nothing?
    requires p == SlotOf(s.read2 + 1, |s.nodes|) && s.nodes[p].mark != 2
    ensures TakeNothing(s, s') && Reachable(s')
  {
    var s' := s.(hand := Locked(p));
    StepReachable(s, Internal, s');
    s'
  }

  class Store<C, R> {
    var store: array<Slot<C, R>>
    var write: nat
    var read1: nat
    var read2: nat
    var mask: nat
    /** The slot whose lock the reader holds. */
    var resc: Option<nat>

    /** The state of the step relation, and what each call put. */
    ghost var abs: Ring
    ghost var payloads: map<Request, Payload<C, R>>

    ghost predicate SlotOk(slot: Slot<C, R>, n: Node)
      reads this`payloads
    {
      && slot.mark == n.mark
      && if n.mark == 0 then slot == Slot(0, None, None, None)
         else n.cmd in payloads && slot == Content(n.mark, payloads[n.cmd])
    }

    ghost predicate Valid()
      reads this, store
    {
      && (exists scale: nat :: scale <= 32 && store.Length == Pow2(scale))
      && mask == store.Length - 1 && |abs.nodes| == store.Length
      && write == Wrap32(abs.write) && read1 == Wrap32(abs.read1) && read2 == Wrap32(abs.read2)
      && resc == (if abs.hand.Nothing? then None else Some(abs.hand.slot))
      && (forall i: nat :: i < store.Length ==> SlotOk(store[i], abs.nodes[i]))
      && Reachable(abs)
    }

    constructor (factor: int)
      requires factor <= 32
      ensures Valid() && fresh(store) && Init(abs)
      ensures store.Length == Pow2(if factor <= 0 then DEFAULT_RING_SCALE else factor)
    {
      var f: nat := if factor <= 0 then DEFAULT_RING_SCALE else factor;
      store := new Slot<C, R>[Pow2(f)](_ => Slot(0, None, None, None));
      mask := Pow2(f) - 1;
      write, read1, read2, resc := 0, 0, 0, None;
      abs := Ring(seq(Pow2(f), _ => Node(0, 0)), 0, 0, 0, map[], Nothing);
      payloads := map[];
      new;
      InitSim(abs);
    }

    /** The slot of the counter after x, as the source computes it. */
    function SlotAfter(x: nat, ghost counter: nat): (p: nat)
      reads this, store
      requires Valid() && x == Wrap32(counter)
      ensures p == SlotOf(counter + 1, store.Length)
    {
      ghost var scale: nat :| scale <= 32 && store.Length == Pow2(scale);
      WrappedCounterNamesSlot(counter + 1, scale);
      BitAnd(Inc32(x), mask)
    }

    /** PutOne and PutMulti, first half: one atomic increment. */
    method TakeTicket(ghost r: Request) returns (p: nat)
      requires Valid() && r !in abs.calls
      modifies this
      ensures Valid() && store == old(store)
      ensures Ticket(old(abs), r, abs) && p == SlotOf(abs.calls[r].ticket, store.Length)
    {
      ghost var next := abs.(write := abs.write + 1, calls := abs.calls[r := Ticketed(abs.write + 1)]);
      StepReachable(abs, Put(r), next);
      p := SlotAfter(write, abs.write);
      write := Inc32(write);
      abs := next;
    }

    /** PutOne and PutMulti, second half: false means the caller goes on waiting. */
    method TryFill(ghost r: Request, p: nat, x: Payload<C, R>) returns (ok: bool)
      requires Valid() && r in abs.calls && abs.calls[r].Ticketed? && p == SlotOf(abs.calls[r].ticket, store.Length)
      modifies this, store
      ensures Valid() && store == old(store)
      ensures ok == (old(store[p].mark) == 0 && old(resc) != Some(p))
      ensures ok ==> Fill(old(abs), r, abs) && payloads == old(payloads)[r := x]
      ensures !ok ==> abs == old(abs) && payloads == old(payloads)
    {
      ok := store[p].mark == 0 && resc != Some(p);
      if ok {
        assert SlotOk(store[p], abs.nodes[p]);
        OwnersHoldNoTicket(abs, r);
        ghost var next := abs.(nodes := abs.nodes[p := Node(1, r)], calls := abs.calls[r := Listening(p)]);
        assert Fill(abs, r, next);
        StepReachable(abs, Internal, next);
        match x {
          case One(c) => store[p] := store[p].(mark := 1, one := Some(c));
          case Multi(m, rs) => store[p] := store[p].(mark := 1, multi := Some(m), resps := Some(rs));
        }
        abs, payloads := next, payloads[r := x];
      }
    }

    /** A slot in use belongs to a call that already listens, never to one still holding a ticket. */
    static lemma OwnersHoldNoTicket(s: Ring, r: Request)
      requires Reachable(s) && r in s.calls && s.calls[r].Ticketed?
      ensures forall i: nat :: i < |s.nodes| && s.nodes[i].mark != 0 ==> s.nodes[i].cmd != r
    {
      var a :| Sim(s, a);
      forall i: nat | i < |s.nodes| && s.nodes[i].mark != 0 ensures s.nodes[i].cmd != r {
        assert NodeOk(s, a, i);
      }
    }

    /** Also the last section of WaitForWrite, which repeats it until it succeeds. */
    method NextWriteCmd() returns (x: Option<Slot<C, R>>, ghost r: Request)
      requires Valid() && resc != Some(SlotOf(abs.read1 + 1, store.Length))
      modifies this, store
      ensures Valid() && store == old(store) && payloads == old(payloads)
      ensures x.Some? ==> WriteNext(old(abs), r, abs) && r in payloads && x.value == Content(1, payloads[r])
      ensures x.None? ==> abs == old(abs) && abs.nodes[SlotOf(abs.read1 + 1, store.Length)].mark != 1
    {
      var p := SlotAfter(read1, abs.read1);
      read1 := Inc32(read1);
      var n := store[p];
      assert SlotOk(n, abs.nodes[p]);
      r, x := abs.nodes[p].cmd, None;
      if n.mark == 1 {
        x := Some(n);
        store[p] := n.(mark := 2);
        abs := Written(abs, p);
      } else {
        read1 := Dec32(read1);
      }
    }

    /** On success the slot is cleared, so that the next PutOne finds no stale batch in it. */
    method NextResultCh() returns (x: Option<Slot<C, R>>, ghost r: Request)
      requires Valid() && resc.None?
      modifies this, store
      ensures Valid() && store == old(store) && payloads == old(payloads)
      ensures x.Some? ==> TakeResult(old(abs), r, abs) && r in payloads && x.value == Content(2, payloads[r])
      ensures x.None? ==> TakeNothing(old(abs), abs)
    {
      var p := SlotAfter(read2, abs.read2);
      read2 := Inc32(read2);
      var n := store[p];
      assert SlotOk(n, abs.nodes[p]);
      r, x, resc := abs.nodes[p].cmd, None, Some(p);
      if n.mark == 2 {
        x := Some(n);
        store[p] := Slot(0, None, None, None);
        abs := Taken(abs, p);
      } else {
        read2 := Dec32(read2);
        abs := Held(abs, p);
      }
    }

    /** The reader passes the reply on the held slot's channel; r is whoever was listening. */
    ghost method Send(r: Request)
      requires Valid() && abs.hand.Sending? && r in abs.calls && abs.calls[r] == Listening(abs.hand.slot)
      modifies this`abs
      ensures Valid() && abs.read2 > 0 && Rendezvous(old(abs), r, abs.read2 - 1, abs)
    {
      var next := abs.(calls := abs.calls[r := Done(abs.read2 - 1)], hand := Locked(abs.hand.slot));
      StepReachable(abs, Received(r, abs.read2 - 1), next);
      abs := next;
    }

    method FinishResult()
      requires Valid() && !abs.hand.Sending?
      modifies this
      ensures Valid() && store == old(store) && payloads == old(payloads)
      ensures if old(resc).None? then abs == old(abs) else Finish(old(abs), abs)
    {
      if resc.Some? {
        StepReachable(abs, Internal, abs.(hand := Nothing));
        resc := None;
        abs := abs.(hand := Nothing);
      }
    }
  }
}
