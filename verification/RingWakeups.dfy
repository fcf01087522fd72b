/** The ring with its condition variables. A call sleeps on c1 of its slot, the writer on c2 of the
    slot it waits for; the lock is given back before the other side is woken, so a wake-up that is
    still owed is part of the state. */
module RingWakeups {
  import opened Common
  import opened Fifo
  import opened Ring

  /** `asleep` are the calls in c1.Wait, `idle` says that the writer is in c2.Wait, `slept` holds the
      slots whose flag is set, `broadcasts` the calls that still owe a c2.Broadcast with their slot,
      and `signal` is the slot whose c1.Signal the reader still owes. */
  datatype Waking = Waking(ring: Ring, asleep: set<Request>, idle: bool, slept: set<nat>,
                           broadcasts: map<Request, nat>, signal: Option<nat>)

  datatype Move =
    | Enter(r: Request)
    | Doze(r: Request)
    | FillSlot(r: Request)
    | Announce(r: Request)
    | Write(r: Request)
    | WriterDozes
    | Take(r: Request)
    | TakeNone
    | Meet(r: Request, reply: nat)
    | Release
    | Nudge(woken: Option<Request>)

  ghost predicate Starts(w: Waking) {
    Init(w.ring) && w.asleep == {} && !w.idle && w.slept == {} && w.broadcasts == map[] && w.signal == None
  }

  /** The slot the writer looks at next. */
  ghost function WriterSlot(s: Ring): (p: nat)
    requires |s.nodes| > 0
    ensures p < |s.nodes|
  {
    SlotOf(s.read1 + 1, |s.nodes|)
  }

  ghost predicate Waits(s: Ring, r: Request, p: nat)
    requires |s.nodes| > 0
  {
    r in s.calls && s.calls[r].Ticketed? && SlotOf(s.calls[r].ticket, |s.nodes|) == p
  }

  ghost predicate Next(w: Waking, m: Move, w': Waking)
    requires |w.ring.nodes| > 0
  {
    var s, s' := w.ring, w'.ring;
    match m
    case Enter(r) => Ticket(s, r, s') && w' == w.(ring := s')
    case Doze(r) =>
      && r in s.calls && s.calls[r].Ticketed? && r !in w.asleep
      && var p := SlotOf(s.calls[r].ticket, |s.nodes|);
      && Unlocked(s, p) && s.nodes[p].mark != 0 && w' == w.(asleep := w.asleep + {r})
    case FillSlot(r) =>
      && r !in w.asleep && Fill(s, r, s')
      && var p := SlotOf(s.calls[r].ticket, |s.nodes|);
      w' == w.(ring := s', broadcasts := if p in w.slept then w.broadcasts[r := p] else w.broadcasts)
    case Announce(r) =>
      && r in w.broadcasts
      && w' == w.(broadcasts := w.broadcasts - {r}, idle := w.idle && w.broadcasts[r] != WriterSlot(s))
    case Write(r) => !w.idle && WriteNext(s, r, s') && w' == w.(ring := s', slept := w.slept - {WriterSlot(s)})
    case WriterDozes =>
      && !w.idle && Unlocked(s, WriterSlot(s)) && s.nodes[WriterSlot(s)].mark != 1
      && w' == w.(idle := true, slept := w.slept + {WriterSlot(s)})
    case Take(r) => w.signal.None? && TakeResult(s, r, s') && w' == w.(ring := s')
    case TakeNone => w.signal.None? && TakeNothing(s, s') && w' == w.(ring := s')
    case Meet(r, k) => r !in w.broadcasts && Rendezvous(s, r, k, s') && w' == w.(ring := s')
    case Release => Finish(s, s') && w' == w.(ring := s', signal := Some(s.hand.slot))
    case Nudge(woken) =>
      && w.signal.Some?
      && (woken.Some? ==> woken.value in w.asleep && Waits(s, woken.value, w.signal.value))
      && (woken.None? ==> forall r :: r in w.asleep ==> !Waits(s, r, w.signal.value))
      && w' == w.(asleep := if woken.Some? then w.asleep - {woken.value} else w.asleep, signal := None)
  }

  /** Sleeping aside, every move is a step of the ring or leaves it alone. */
  lemma {:induction false} MoveIsStep(w: Waking, m: Move, w': Waking) returns (e: Event)
    requires |w.ring.nodes| > 0 && Next(w, m, w')
    ensures w'.ring == w.ring || Step(w.ring, e, w'.ring)
  {
    e := match m
      case Enter(r) => Put(r)
      case Write(r) => Wrote(r)
      case Take(r) => Took(r)
      case Meet(r, k) => Received(r, k)
      case _ => Internal;
  }

  // What every move keeps.

  /** An awake call that is going to fill slot p. */
  ghost predicate AwakeFor(w: Waking, p: nat)
    requires |w.ring.nodes| > 0
  {
    exists r :: Waits(w.ring, r, p) && r !in w.asleep
  }

  /** A call asleep on a free slot is about to be woken, or another call will use the slot. */
  ghost predicate SleeperOk(w: Waking, r: Request)
    requires |w.ring.nodes| > 0
  {
    && r in w.ring.calls && w.ring.calls[r].Ticketed?
    && var p := SlotOf(w.ring.calls[r].ticket, |w.ring.nodes|);
    w.ring.nodes[p].mark == 0 ==> !Unlocked(w.ring, p) || w.signal == Some(p) || AwakeFor(w, p)
  }

  ghost predicate AnnounceDue(w: Waking, p: nat) {
    exists r :: r in w.broadcasts && w.broadcasts[r] == p
  }

  /** A writer asleep has set its flag, and when its slot is filled the broadcast is on its way. */
  ghost predicate WriterOk(w: Waking)
    requires |w.ring.nodes| > 0
  {
    && (forall p :: p in w.slept ==> p == WriterSlot(w.ring))
    && (w.idle ==> WriterSlot(w.ring) in w.slept)
    && (w.idle && w.ring.nodes[WriterSlot(w.ring)].mark == 1 ==> AnnounceDue(w, WriterSlot(w.ring)))
  }

  /** No wake-up is lost. */
  ghost predicate Watchful(w: Waking) {
    && |w.ring.nodes| > 0
    && WriterOk(w)
    && (forall r :: r in w.asleep ==> SleeperOk(w, r))
    && (forall r :: r in w.broadcasts ==> r in w.ring.calls && w.ring.calls[r].Listening?)
    && (w.signal.Some? ==> w.ring.hand.Nothing?)
  }

  /** The moves of one call. */
  lemma {:induction false} CallKeeps(w: Waking, m: Move, w': Waking)
    requires Watchful(w) && (m.Enter? || m.Doze? || m.FillSlot?) && Next(w, m, w')
    ensures Watchful(w')
  {
    forall x | x in w'.asleep ensures SleeperOk(w', x) {
      assert x in w.asleep ==> SleeperOk(w, x);
      var p := SlotOf(w.ring.calls[x].ticket, |w.ring.nodes|);
      if w'.ring.nodes[p].mark == 0 && Unlocked(w'.ring, p) && w'.signal != Some(p) {
        var c :| Waits(w.ring, c, p) && c !in w.asleep;
        assert Waits(w'.ring, c, p) && c !in w'.asleep;
      }
    }
    if w'.idle && w'.ring.nodes[WriterSlot(w'.ring)].mark == 1 {
      if w.ring.nodes[WriterSlot(w.ring)].mark == 1 {
        var c :| c in w.broadcasts && w.broadcasts[c] == WriterSlot(w.ring);
        assert c in w'.broadcasts && w'.broadcasts[c] == WriterSlot(w'.ring);
      } else {
        assert m.FillSlot? && m.r in w'.broadcasts && w'.broadcasts[m.r] == WriterSlot(w'.ring);
      }
    }
  }

  /** The moves that wake the writer, and its own. */
  lemma {:induction false} WriterKeeps(w: Waking, m: Move, w': Waking)
    requires Watchful(w) && (m.Announce? || m.Write? || m.WriterDozes?) && Next(w, m, w')
    ensures Watchful(w')
  {
    forall x | x in w'.asleep ensures SleeperOk(w', x) {
      assert SleeperOk(w, x);
      var p := SlotOf(w.ring.calls[x].ticket, |w.ring.nodes|);
      if w'.ring.nodes[p].mark == 0 && Unlocked(w'.ring, p) && w'.signal != Some(p) {
        var c :| Waits(w.ring, c, p) && c !in w.asleep;
        assert Waits(w'.ring, c, p) && c !in w'.asleep;
      }
    }
    if w'.idle && w'.ring.nodes[WriterSlot(w'.ring)].mark == 1 {
      var c :| c in w.broadcasts && w.broadcasts[c] == WriterSlot(w.ring);
      assert c in w'.broadcasts && w'.broadcasts[c] == WriterSlot(w'.ring);
    }
  }

  lemma {:induction false} ReaderKeeps(w: Waking, m: Move, w': Waking)
    requires Watchful(w) && (m.Take? || m.TakeNone? || m.Meet? || m.Release?) && Next(w, m, w')
    ensures Watchful(w')
  {
    forall x | x in w'.asleep ensures SleeperOk(w', x) {
      assert SleeperOk(w, x);
      var p := SlotOf(w.ring.calls[x].ticket, |w.ring.nodes|);
      if w'.ring.nodes[p].mark == 0 && Unlocked(w'.ring, p) && w'.signal != Some(p) {
        var c :| Waits(w.ring, c, p) && c !in w.asleep;
        assert Waits(w'.ring, c, p) && c !in w'.asleep;
      }
    }
    if w'.idle && w'.ring.nodes[WriterSlot(w'.ring)].mark == 1 {
      var c :| c in w.broadcasts && w.broadcasts[c] == WriterSlot(w.ring);
      assert c in w'.broadcasts && w'.broadcasts[c] == WriterSlot(w'.ring);
    }
  }

  lemma {:induction false} NudgeKeeps(w: Waking, m: Move, w': Waking)
    requires Watchful(w) && m.Nudge? && Next(w, m, w')
    ensures Watchful(w')
  {
    forall x | x in w'.asleep ensures SleeperOk(w', x) {
      assert SleeperOk(w, x);
      var p := SlotOf(w.ring.calls[x].ticket, |w.ring.nodes|);
      if w'.ring.nodes[p].mark == 0 && Unlocked(w'.ring, p) {
        if w.signal == Some(p) {
          assert Waits(w.ring, x, p);
          assert Waits(w'.ring, m.woken.value, p) && m.woken.value !in w'.asleep;
        } else {
          var c :| Waits(w.ring, c, p) && c !in w.asleep;
          assert Waits(w'.ring, c, p) && c !in w'.asleep;
        }
      }
    }
    if w'.idle && w'.ring.nodes[WriterSlot(w'.ring)].mark == 1 {
      var c :| c in w.broadcasts && w.broadcasts[c] == WriterSlot(w.ring);
      assert c in w'.broadcasts && w'.broadcasts[c] == WriterSlot(w'.ring);
    }
  }

  lemma {:induction false} MoveKeeps(w: Waking, m: Move, w': Waking)
    requires Watchful(w) && Next(w, m, w')
    ensures Watchful(w')
  {
    match m
    case Announce(_) => WriterKeeps(w, m, w');
    case Write(_) => WriterKeeps(w, m, w');
    case WriterDozes => WriterKeeps(w, m, w');
    case Nudge(_) => NudgeKeeps(w, m, w');
    case Enter(_) => CallKeeps(w, m, w');
    case Doze(_) => CallKeeps(w, m, w');
    case FillSlot(_) => CallKeeps(w, m, w');
    case _ => ReaderKeeps(w, m, w');
  }

  // Progress.

  /** All that calls, writer and reader do on their own: everything but a new call and a look for a
      result that is not there. */
  ghost predicate Inner(m: Move) {
    !m.Enter? && !m.TakeNone?
  }

  ghost predicate Live(w: Waking, a: State) {
    Watchful(w) && Sim(w.ring, a) && Balanced(w.ring)
  }

  /** Whoever sleeps, while a call is unanswered some inner move is possible. */
  lemma {:induction false} NeverStuck(w: Waking, a: State, r: Request) returns (m: Move, w': Waking)
    requires Live(w, a) && r in w.ring.calls && !w.ring.calls[r].Done?
    ensures Inner(m) && Next(w, m, w')
  {
    var s, n := w.ring, |w.ring.nodes|;
    if s.hand.Sending? {
      var c := a.written[s.read2 - 1];
      if c in w.broadcasts {
        m, w' := Announces(w, c);
      } else {
        m := Meet(c, s.read2 - 1);
        w' := w.(ring := s.(calls := s.calls[c := Done(s.read2 - 1)], hand := Locked(s.hand.slot)));
      }
    } else if s.hand.Locked? {
      m, w' := Release, w.(ring := s.(hand := Nothing), signal := Some(s.hand.slot));
    } else if w.signal.Some? {
      m, w' := Nudges(w);
    } else if s.read2 < s.read1 {
      var p := SlotOf(s.read2 + 1, n);
      assert HoldsWritten(s, a, s.read2 + 1);
      m := Take(s.nodes[p].cmd);
      w' := w.(ring := s.(read2 := s.read2 + 1, nodes := s.nodes[p := s.nodes[p].(mark := 0)], hand := Sending(p)));
    } else if s.read1 < s.write {
      m, w' := WriterIsServed(w, a);
    } else {
      NothingPending(s, a, r);
    }
  }

  lemma {:induction false} Announces(w: Waking, c: Request) returns (m: Move, w': Waking)
    requires |w.ring.nodes| > 0 && c in w.broadcasts
    ensures Inner(m) && Next(w, m, w')
  {
    m := Announce(c);
    w' := w.(broadcasts := w.broadcasts - {c}, idle := w.idle && w.broadcasts[c] != WriterSlot(w.ring));
  }

  lemma {:induction false} Nudges(w: Waking) returns (m: Move, w': Waking)
    requires |w.ring.nodes| > 0 && w.signal.Some?
    ensures Inner(m) && Next(w, m, w')
  {
    if c :| c in w.asleep && Waits(w.ring, c, w.signal.value) {
      m, w' := Nudge(Some(c)), w.(asleep := w.asleep - {c}, signal := None);
    } else {
      m, w' := Nudge(None), w.(signal := None);
    }
  }

  /** A writer with tickets ahead of it finds its slot filled, or somebody awake to fill it. */
  lemma {:induction false} WriterIsServed(w: Waking, a: State) returns (m: Move, w': Waking)
    requires Live(w, a) && w.ring.hand.Nothing? && w.signal.None? && w.ring.read2 == w.ring.read1 < w.ring.write
    ensures Inner(m) && Next(w, m, w')
  {
    var s, p := w.ring, WriterSlot(w.ring);
    WriterWillBeServed(s);
    assert NodeOk(s, a, p);
    if s.nodes[p].mark == 1 && w.idle {
      var c :| c in w.broadcasts && w.broadcasts[c] == p;
      m, w' := Announces(w, c);
    } else if s.nodes[p].mark == 1 {
      m := Write(s.nodes[p].cmd);
      w' := w.(ring := s.(read1 := s.read1 + 1, nodes := s.nodes[p := s.nodes[p].(mark := 2)]), slept := w.slept - {p});
    } else {
      var c := SomebodyAwake(w, p);
      var s' := s.(nodes := s.nodes[p := Node(1, c)], calls := s.calls[c := Listening(p)]);
      m := FillSlot(c);
      w' := w.(ring := s', broadcasts := if p in w.slept then w.broadcasts[c := p] else w.broadcasts);
    }
  }

  lemma {:induction false} SomebodyAwake(w: Waking, p: nat) returns (c: Request)
    requires Watchful(w) && p < |w.ring.nodes| && w.ring.nodes[p].mark == 0 && w.ring.hand.Nothing? && w.signal.None?
    requires Bound(w.ring, p) != {}
    ensures Waits(w.ring, c, p) && c !in w.asleep
  {
    var b :| b in Bound(w.ring, p);
    c := b;
    if b in w.asleep {
      assert SleeperOk(w, b);
      c :| Waits(w.ring, c, p) && c !in w.asleep;
    }
  }

  // No run of inner moves goes on for ever.

  ghost function Tickets(s: Ring): set<Request> {
    set r | r in s.calls && s.calls[r].Ticketed?
  }

  /** The calls with a ticket that are awake. */
  ghost function Awake(w: Waking): set<Request> {
    set r | r in w.ring.calls && w.ring.calls[r].Ticketed? && r !in w.asleep
  }

  ghost function HandWork(h: Hand): nat {
    match h
    case Sending(_) => 4
    case Locked(_) => 3
    case Nothing => 0
  }

  /** What is left to do for calls that have not filled their slot, and for those who are woken. */
  ghost function CallWork(w: Waking): nat {
    3 * |Tickets(w.ring)| + |Awake(w)| + 2 * |w.broadcasts| + (if w.idle then 0 else 1)
  }

  /** What is left to do for commands on their way through the ring. */
  ghost function SlotWork(w: Waking): int {
    6 * (w.ring.write - w.ring.read1) + 5 * (w.ring.read1 - w.ring.read2)
      + HandWork(w.ring.hand) + (if w.signal.Some? then 2 else 0)
  }

  ghost function Work(w: Waking): int {
    CallWork(w) + SlotWork(w)
  }

  lemma {:induction false} DozeWorks(w: Waking, r: Request, w': Waking)
    requires |w.ring.nodes| > 0 && Next(w, Doze(r), w')
    ensures CallWork(w') < CallWork(w)
  {
    assert r in Awake(w);
    assert Awake(w') == Awake(w) - {r};
  }

  lemma {:induction false} FillWorks(w: Waking, r: Request, w': Waking)
    requires |w.ring.nodes| > 0 && Next(w, FillSlot(r), w')
    ensures CallWork(w') < CallWork(w)
  {
    assert r in Awake(w);
    assert Tickets(w'.ring) == Tickets(w.ring) - {r};
    assert Awake(w') == Awake(w) - {r};
  }

  lemma {:induction false} AnnounceWorks(w: Waking, r: Request, w': Waking)
    requires |w.ring.nodes| > 0 && Next(w, Announce(r), w')
    ensures CallWork(w') < CallWork(w)
  {
    assert w.broadcasts == w'.broadcasts[r := w.broadcasts[r]];
  }

  lemma {:induction false} NudgeWorks(w: Waking, woken: Option<Request>, w': Waking)
    requires |w.ring.nodes| > 0 && Next(w, Nudge(woken), w')
    ensures CallWork(w') <= CallWork(w) + 1
  {
    if woken.Some? {
      assert Awake(w') == Awake(w) + {woken.value};
    }
  }

  lemma {:induction false} SameTickets(w: Waking, w': Waking)
    requires w' == w.(ring := w'.ring, slept := w'.slept, signal := w'.signal)
    requires w'.ring.calls.Keys == w.ring.calls.Keys
    requires forall r :: r in w.ring.calls ==> w.ring.calls[r].Ticketed? == w'.ring.calls[r].Ticketed?
    ensures CallWork(w') == CallWork(w)
  {
    assert Tickets(w'.ring) == Tickets(w.ring) && Awake(w') == Awake(w);
  }

  lemma {:induction false} SlotMoveWorks(w: Waking, m: Move, w': Waking)
    requires |w.ring.nodes| > 0 && (m.Write? || m.Take? || m.Release?) && Next(w, m, w')
    ensures CallWork(w') == CallWork(w) && SlotWork(w') < SlotWork(w)
  {
    SameTickets(w, w');
  }

  lemma {:induction false} MeetWorks(w: Waking, r: Request, reply: nat, w': Waking)
    requires |w.ring.nodes| > 0 && Next(w, Meet(r, reply), w')
    ensures CallWork(w') == CallWork(w) && SlotWork(w') < SlotWork(w)
  {
    SameTickets(w, w');
  }

  /** Every inner move leaves less to do. */
  lemma {:induction false} MoveWorks(w: Waking, m: Move, w': Waking)
    requires Watchful(w) && Inner(m) && Next(w, m, w')
    ensures Work(w') < Work(w)
  {
    match m
    case Doze(r) => DozeWorks(w, r, w');
    case FillSlot(r) => FillWorks(w, r, w');
    case Announce(r) => AnnounceWorks(w, r, w');
    case Nudge(woken) => NudgeWorks(w, woken, w');
    case WriterDozes =>
    case Meet(r, k) => MeetWorks(w, r, k, w');
    case _ => SlotMoveWorks(w, m, w');
  }

  /** Nothing is written that has no ticket. */
  lemma {:induction false} NotAhead(s: Ring)
    requires Balanced(s)
    ensures s.read1 <= s.write
  {
    if s.write < s.read1 {
      var p := SlotOf(s.read1, |s.nodes|);
      assert BalancedAt(s, p);
      NamingGrows(s.write, s.read1 - 1, p, |s.nodes|);
    }
  }

  lemma {:induction false} WorkIsNat(w: Waking, a: State)
    requires Live(w, a)
    ensures Work(w) >= 0
  {
    NotAhead(w.ring);
  }

  // Whole runs.

  ghost predicate MoveAt(ws: seq<Waking>, ms: seq<Move>, i: nat) {
    i < |ms| && i + 1 < |ws| && |ws[i].ring.nodes| > 0 && Next(ws[i], ms[i], ws[i + 1])
  }

  ghost predicate Run(ws: seq<Waking>, ms: seq<Move>) {
    |ws| == |ms| + 1 && Starts(ws[0]) && forall i: nat :: i < |ms| ==> MoveAt(ws, ms, i)
  }

  lemma {:induction false} StartsLive(w: Waking)
    requires Starts(w)
    ensures Live(w, EMPTY)
  {
    InitSim(w.ring);
    RunBalanced([w.ring], []);
  }

  lemma {:induction false} MoveLive(w: Waking, a: State, m: Move, w': Waking) returns (a': State)
    requires Live(w, a) && Next(w, m, w')
    ensures Live(w', a')
  {
    MoveKeeps(w, m, w');
    a' := a;
    var e := MoveIsStep(w, m, w');
    if w'.ring != w.ring {
      StepSim(w.ring, a, e, w'.ring);
      StepBalanced(w.ring, e, w'.ring);
      a' := Apply(a, e);
    }
  }

  /** No wake-up is lost in any run. */
  lemma {:induction false} EveryRunIsLive(ws: seq<Waking>, ms: seq<Move>, k: nat) returns (a: State)
    requires Run(ws, ms) && k < |ws|
    ensures Live(ws[k], a)
    decreases k
  {
    if k == 0 {
      StartsLive(ws[0]);
      a := EMPTY;
    } else {
      var b := EveryRunIsLive(ws, ms, k - 1);
      assert MoveAt(ws, ms, k - 1);
      a := MoveLive(ws[k - 1], b, ms[k - 1], ws[k]);
    }
  }

  ghost predicate NoCallFrom(ms: seq<Move>, n: nat) {
    forall i :: n <= i < |ms| ==> !ms[i].Enter?
  }

  /** How many of the moves n..k are looks of the reader for a result that is not there. */
  ghost function Looks(ms: seq<Move>, n: nat, k: nat): nat
    requires n <= k <= |ms|
    decreases k
  {
    if n == k then 0 else Looks(ms, n, k - 1) + (if ms[k - 1].TakeNone? then 1 else 0)
  }

  /** Such a look costs three moves: it locks a slot, gives it back and signals. */
  lemma {:induction false} LookWorks(w: Waking, w': Waking)
    requires |w.ring.nodes| > 0 && Next(w, TakeNone, w')
    ensures Work(w') == Work(w) + 3
  {
    SameTickets(w, w');
  }

  lemma {:induction false} MoveInRunWorks(ws: seq<Waking>, ms: seq<Move>, n: nat, k: nat, before: int, after: int)
    requires Run(ws, ms) && NoCallFrom(ms, n) && n <= k < |ms|
    requires before == Work(ws[k]) && after == Work(ws[k + 1])
    ensures if ms[k].TakeNone? then after == before + 3 else after < before
  {
    var a := EveryRunIsLive(ws, ms, k);
    assert MoveAt(ws, ms, k);
    if ms[k].TakeNone? {
      LookWorks(ws[k], ws[k + 1]);
    } else {
      MoveWorks(ws[k], ms[k], ws[k + 1]);
    }
  }

  lemma {:induction false} WorkShrinks(ws: seq<Waking>, ms: seq<Move>, n: nat, k: nat, first: int, last: int)
    requires Run(ws, ms) && NoCallFrom(ms, n) && n <= k < |ws|
    requires first == Work(ws[n]) && last == Work(ws[k])
    ensures last + (k - n) <= first + 4 * Looks(ms, n, k)
    decreases k
  {
    if n < k {
      var before := Work(ws[k - 1]);
      WorkShrinks(ws, ms, n, k - 1, first, before);
      MoveInRunWorks(ws, ms, n, k - 1, before, last);
    }
  }

  ghost predicate AtRest(w: Waking)
    requires |w.ring.nodes| > 0
  {
    forall m, w' :: Inner(m) ==> !Next(w, m, w')
  }

  /** At rest every call has its reply. */
  lemma {:induction false} RestIsDone(w: Waking, a: State, r: Request)
    requires Live(w, a) && AtRest(w) && r in w.ring.calls
    ensures w.ring.calls[r].Done?
  {
    if !w.ring.calls[r].Done? {
      var m, w' := NeverStuck(w, a, r);
    }
  }

  /** After the last call came in, whatever the interleaving and whoever sleeps: apart from the
      reader's looks for results that are not there, the number of moves is bounded by the state
      then, and when no other move is left every call has its reply. */
  lemma {:induction false} EveryCallIsAnswered(ws: seq<Waking>, ms: seq<Move>, n: nat, r: Request)
    requires Run(ws, ms) && n <= |ms| && NoCallFrom(ms, n)
    ensures |ms| - n <= Work(ws[n]) + 4 * Looks(ms, n, |ms|)
    ensures |ws[|ms|].ring.nodes| > 0
    ensures AtRest(ws[|ms|]) && r in ws[|ms|].ring.calls ==> ws[|ms|].ring.calls[r].Done?
  {
    var w := ws[|ms|];
    WorkShrinks(ws, ms, n, |ms|, Work(ws[n]), Work(w));
    var a := EveryRunIsLive(ws, ms, |ms|);
    WorkIsNat(w, a);
    if AtRest(w) && r in w.ring.calls { RestIsDone(w, a, r); }
  }
}
