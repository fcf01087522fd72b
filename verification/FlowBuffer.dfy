/** The second queue of the client: a fixed set of tokens, each owning a result
    channel, that circulate over three bounded channels (free, write, read). */
module FlowBuffer {
  import opened Arith
  import opened Common
  import opened Fifo

  datatype Token = Token(ch: nat, r: Request)

  datatype Phase = Calling | Cancelled | Holding(ch: nat) | Listening(ch: nat) | Done(reply: nat)

  /** The reader's pointer `c`: the channel of the result in hand, sent or not. */
  datatype Hand = Nothing | Sending(ch: nat) | Sent(ch: nat)

  datatype Buffer = Buffer(size: nat, f: seq<nat>, w: seq<Token>, r: seq<Token>,
                           writer: Option<Token>, hand: Hand, taken: nat, calls: map<Request, Phase>)

  ghost predicate Init(s: Buffer) {
    s == Buffer(s.size, seq(s.size, i => i), [], [], None, Nothing, 0, map[])
  }

  // The atomic steps: each is one channel operation.

  ghost predicate Call(s: Buffer, q: Request, s': Buffer) {
    q !in s.calls && s' == s.(calls := s.calls[q := Calling])
  }

  ghost predicate TakeFree(s: Buffer, q: Request, s': Buffer) {
    && q in s.calls && s.calls[q].Calling? && s.f != []
    && s' == s.(f := s.f[1..], calls := s.calls[q := Holding(s.f[0])])
  }

  ghost predicate Cancel(s: Buffer, q: Request, s': Buffer) {
    q in s.calls && s.calls[q].Calling? && s' == s.(calls := s.calls[q := Cancelled])
  }

  ghost predicate Queue(s: Buffer, q: Request, s': Buffer) {
    && q in s.calls && s.calls[q].Holding? && |s.w| < s.size
    && var ch := s.calls[q].ch;
    s' == s.(w := s.w + [Token(ch, q)], calls := s.calls[q := Listening(ch)])
  }

  ghost predicate TakeWrite(s: Buffer, q: Request, s': Buffer) {
    && s.writer.None? && s.w != [] && q == s.w[0].r
    && s' == s.(w := s.w[1..], writer := Some(s.w[0]))
  }

  ghost predicate PassOn(s: Buffer, s': Buffer) {
    s.writer.Some? && |s.r| < s.size && s' == s.(r := s.r + [s.writer.value], writer := None)
  }

  ghost predicate TakeResult(s: Buffer, q: Request, s': Buffer) {
    && s.hand.Nothing? && s.r != [] && q == s.r[0].r
    && s' == s.(r := s.r[1..], hand := Sending(s.r[0].ch), taken := s.taken + 1)
  }

  ghost predicate Rendezvous(s: Buffer, q: Request, reply: nat, s': Buffer) {
    && s.hand.Sending? && reply + 1 == s.taken && q in s.calls && s.calls[q] == Listening(s.hand.ch)
    && s' == s.(hand := Sent(s.hand.ch), calls := s.calls[q := Done(reply)])
  }

  ghost predicate GiveBack(s: Buffer, s': Buffer) {
    s.hand.Sent? && |s.f| < s.size && s' == s.(f := s.f + [s.hand.ch], hand := Nothing)
  }

  ghost predicate Step(s: Buffer, e: Event, s': Buffer) {
    match e
    case Put(q) => Call(s, q, s')
    case Internal =>
      || (exists q :: TakeFree(s, q, s') || Cancel(s, q, s') || Queue(s, q, s'))
      || PassOn(s, s') || GiveBack(s, s')
    case Wrote(q) => TakeWrite(s, q, s')
    case Took(q) => TakeResult(s, q, s')
    case Received(q, k) => Rendezvous(s, q, k, s')
  }

  // Where every token is.

  datatype Place = Free | Out(r: Request) | Back

  ghost predicate Carried(s: Buffer, q: Request, ch: nat) {
    q in s.calls && (s.calls[q] == Holding(ch) || s.calls[q] == Listening(ch))
  }

  /** Every token is in exactly one place: free, out with one call, or on its way back. */
  ghost predicate Owned(s: Buffer, own: seq<Place>) {
    && |own| == s.size
    && (forall i :: 0 <= i < |s.f| ==> s.f[i] < s.size && own[s.f[i]] == Free)
    && (forall i, j :: 0 <= i < j < |s.f| ==> s.f[i] != s.f[j])
    && (forall ch :: 0 <= ch < s.size && own[ch] == Free ==> ch in s.f)
    && (forall q, ch: nat :: Carried(s, q, ch) ==> ch < s.size && own[ch] == Out(q))
    && (forall ch: nat :: ch < s.size && own[ch].Out? ==> Carried(s, own[ch].r, ch))
    && (forall ch: nat :: ch < s.size && own[ch] == Back ==> s.hand == Sent(ch))
    && (s.hand.Sent? ==> s.hand.ch < s.size && own[s.hand.ch] == Back)
  }

  ghost predicate Listens(s: Buffer, t: Token) {
    t.r in s.calls && s.calls[t.r] == Listening(t.ch)
  }

  /** The tokens written and not yet taken, oldest first. */
  ghost function InFlight(s: Buffer): seq<Token> {
    s.r + (if s.writer.Some? then [s.writer.value] else [])
  }

  ghost predicate Sim(s: Buffer, a: State) {
    && Fifo.Inv(a) && a.put == s.calls.Keys && a.taken == s.taken
    && a.delivered == a.taken - (if s.hand.Sending? then 1 else 0)
    && |a.written| == a.taken + |InFlight(s)|
    && (forall i :: 0 <= i < |InFlight(s)| ==> Listens(s, InFlight(s)[i]) && InFlight(s)[i].r == a.written[a.taken + i])
    && (forall i :: 0 <= i < |s.w| ==> Listens(s, s.w[i]) && s.w[i].r !in a.written)
    && (forall i, j :: 0 <= i < j < |s.w| ==> s.w[i].r != s.w[j].r)
    && (s.hand.Sending? ==> a.taken > 0 && Listens(s, Token(s.hand.ch, a.written[a.taken - 1])))
    && (forall q :: q in s.calls && !s.calls[q].Listening? && !s.calls[q].Done? ==> q !in a.written)
  }

  /** Both invariants, with the witness for where the tokens are. */
  ghost predicate Good(s: Buffer, a: State, own: seq<Place>) {
    Sim(s, a) && Owned(s, own)
  }

  lemma {:induction false} InitGood(s: Buffer)
    requires Init(s)
    ensures Good(s, EMPTY, seq(s.size, _ => Free))
  {
    var own := seq(s.size, _ => Free);
    forall ch | 0 <= ch < s.size && own[ch] == Free ensures ch in s.f { assert s.f[ch] == ch; }
  }

  lemma {:induction false} TakeFreeGood(s: Buffer, a: State, own: seq<Place>, q: Request, s': Buffer)
    requires Good(s, a, own) && TakeFree(s, q, s')
    ensures Good(s', a, own[s.f[0] := Out(q)])
  {
    var own' := own[s.f[0] := Out(q)];
    forall c, ch: nat | Carried(s', c, ch) ensures ch < s.size && own'[ch] == Out(c) {
      assert c != q ==> Carried(s, c, ch);
    }
    forall ch: nat | ch < s.size && own'[ch].Out? ensures Carried(s', own'[ch].r, ch) {
      assert ch != s.f[0] ==> Carried(s, own[ch].r, ch);
    }
    forall ch | 0 <= ch < s.size && own'[ch] == Free ensures ch in s'.f { assert ch in s.f; }
    assert InFlight(s') == InFlight(s);
  }

  /** A step that moves no token in or out of the free channel and out of no call's hands. */
  lemma {:induction false} OwnedStays(s: Buffer, own: seq<Place>, s': Buffer)
    requires Owned(s, own) && s'.size == s.size && s'.f == s.f
    requires s'.hand.Sent? || s.hand.Sent? ==> s'.hand == s.hand
    requires forall q, ch: nat :: Carried(s', q, ch) <==> Carried(s, q, ch)
    ensures Owned(s', own)
  {
    forall ch: nat | ch < s.size && own[ch].Out? ensures Carried(s', own[ch].r, ch) {
      assert Carried(s, own[ch].r, ch);
    }
  }

  lemma {:induction false} CallGood(s: Buffer, a: State, own: seq<Place>, q: Request, s': Buffer)
    requires Good(s, a, own) && Call(s, q, s')
    ensures Enabled(a, Put(q)) && Good(s', Apply(a, Put(q)), own)
  {
    OwnedStays(s, own, s');
    assert InFlight(s') == InFlight(s);
  }

  lemma {:induction false} CancelGood(s: Buffer, a: State, own: seq<Place>, q: Request, s': Buffer)
    requires Good(s, a, own) && Cancel(s, q, s')
    ensures Good(s', a, own)
  {
    OwnedStays(s, own, s');
    assert InFlight(s') == InFlight(s);
  }

  lemma {:induction false} QueueGood(s: Buffer, a: State, own: seq<Place>, q: Request, s': Buffer)
    requires Good(s, a, own) && Queue(s, q, s')
    ensures Good(s', a, own)
  {
    OwnedStays(s, own, s');
    assert InFlight(s') == InFlight(s);
  }

  lemma {:induction false} TakeWriteGood(s: Buffer, a: State, own: seq<Place>, q: Request, s': Buffer)
    requires Good(s, a, own) && TakeWrite(s, q, s')
    ensures Enabled(a, Wrote(q)) && Good(s', Apply(a, Wrote(q)), own)
  {
    OwnedStays(s, own, s');
    assert Listens(s, s.w[0]);
    assert InFlight(s') == InFlight(s) + [s.w[0]];
  }

  lemma {:induction false} PassOnGood(s: Buffer, a: State, own: seq<Place>, s': Buffer)
    requires Good(s, a, own) && PassOn(s, s')
    ensures Good(s', a, own)
  {
    OwnedStays(s, own, s');
    assert InFlight(s') == InFlight(s);
  }

  lemma {:induction false} TakeResultGood(s: Buffer, a: State, own: seq<Place>, q: Request, s': Buffer)
    requires Good(s, a, own) && TakeResult(s, q, s')
    ensures Enabled(a, Took(q)) && Good(s', Apply(a, Took(q)), own)
  {
    OwnedStays(s, own, s');
    assert InFlight(s)[0] == s.r[0];
    assert InFlight(s') == InFlight(s)[1..];
  }

  /** A result channel is never held by two calls: only the call whose reply is sent listens on it. */
  lemma {:induction false} OnlyOneListener(s: Buffer, a: State, own: seq<Place>, q: Request)
    requires Good(s, a, own) && s.hand.Sending?
    ensures Carried(s, q, s.hand.ch) <==> q == a.written[a.taken - 1]
  {
    assert Carried(s, a.written[a.taken - 1], s.hand.ch);
  }

  lemma {:induction false} RendezvousGood(s: Buffer, a: State, own: seq<Place>, q: Request, k: nat, s': Buffer)
    requires Good(s, a, own) && Rendezvous(s, q, k, s')
    ensures Enabled(a, Received(q, k)) && s.hand.ch < s.size
    ensures Good(s', Apply(a, Received(q, k)), own[s.hand.ch := Back])
  {
    assert Carried(s, q, s.hand.ch);
    var own' := own[s.hand.ch := Back];
    OnlyOneListener(s, a, own, q);
    forall c, ch: nat | Carried(s', c, ch) ensures ch < s.size && own'[ch] == Out(c) { assert Carried(s, c, ch); }
    forall ch: nat | ch < s.size && own'[ch].Out?
      ensures Carried(s', own'[ch].r, ch)
    {
      assert Carried(s, own[ch].r, ch);
    }
    assert InFlight(s') == InFlight(s);
    forall i | 0 <= i < |InFlight(s)| ensures Listens(s', InFlight(s')[i]) { assert Listens(s, InFlight(s)[i]); }
  }

  lemma {:induction false} GiveBackGood(s: Buffer, a: State, own: seq<Place>, s': Buffer)
    requires Good(s, a, own) && GiveBack(s, s')
    ensures Good(s', a, own[s.hand.ch := Free])
  {
    var own' := own[s.hand.ch := Free];
    forall c, ch: nat | Carried(s', c, ch) ensures ch < s.size && own'[ch] == Out(c) { assert Carried(s, c, ch); }
    forall ch: nat | ch < s.size && own'[ch].Out?
      ensures Carried(s', own'[ch].r, ch)
    {
      assert Carried(s, own[ch].r, ch);
    }
    forall ch | 0 <= ch < s.size && own'[ch] == Free ensures ch in s'.f {
      assert ch != s.hand.ch ==> ch in s.f;
      assert s'.f[|s.f|] == s.hand.ch;
    }
    assert InFlight(s') == InFlight(s);
  }

  lemma {:induction false} StepGood(s: Buffer, a: State, own: seq<Place>, e: Event, s': Buffer)
    returns (own': seq<Place>)
    requires Good(s, a, own) && Step(s, e, s')
    ensures Enabled(a, e) && Good(s', Apply(a, e), own')
  {
    own' := own;
    match e
    case Put(q) => CallGood(s, a, own, q, s');
    case Wrote(q) => TakeWriteGood(s, a, own, q, s');
    case Took(q) => TakeResultGood(s, a, own, q, s');
    case Received(q, k) =>
      RendezvousGood(s, a, own, q, k, s');
      own' := own[s.hand.ch := Back];
    case Internal =>
      if q :| TakeFree(s, q, s') || Cancel(s, q, s') || Queue(s, q, s') {
        if TakeFree(s, q, s') {
          TakeFreeGood(s, a, own, q, s');
          own' := own[s.f[0] := Out(q)];
        } else if Cancel(s, q, s') {
          CancelGood(s, a, own, q, s');
        } else {
          QueueGood(s, a, own, q, s');
        }
      } else if PassOn(s, s') {
        PassOnGood(s, a, own, s');
      } else {
        GiveBackGood(s, a, own, s');
        own' := own[s.hand.ch := Free];
      }
  }

  // Capacity: the three channels never overflow.

  ghost function Below(n: nat): (b: set<nat>)
    ensures |b| == n && forall i: nat :: i in b <==> i < n
  {
    if n == 0 then {} else Below(n - 1) + {n - 1}
  }

  lemma {:induction false} DistinctWithin(xs: seq<nat>, room: set<nat>)
    requires forall i :: 0 <= i < |xs| ==> xs[i] in room
    requires forall i, j :: 0 <= i < j < |xs| ==> xs[i] != xs[j]
    ensures |xs| <= |room|
    decreases |xs|
  {
    if xs != [] {
      DistinctWithin(xs[1..], room - {xs[0]});
    }
  }

  lemma {:induction false} RoomLeft(xs: seq<nat>, extra: nat, n: nat)
    requires forall i :: 0 <= i < |xs| ==> xs[i] < n && xs[i] != extra
    requires forall i, j :: 0 <= i < j < |xs| ==> xs[i] != xs[j]
    requires extra < n
    ensures |xs| < n
  {
    DistinctWithin(xs, Below(n) - {extra});
  }

  function Channels(ts: seq<Token>): seq<nat> {
    seq(|ts|, i requires 0 <= i < |ts| => ts[i].ch)
  }

  /** Internal sends never block: a call about to queue finds room in w, the writer in r, the reader in f. */
  lemma {:induction false} SendsNeverBlock(s: Buffer, a: State, own: seq<Place>)
    requires Good(s, a, own)
    ensures (exists q :: q in s.calls && s.calls[q].Holding?) ==> |s.w| < s.size
    ensures s.writer.Some? ==> |s.r| < s.size
    ensures s.hand.Sent? ==> |s.f| < s.size
  {
    if q :| q in s.calls && s.calls[q].Holding? {
      assert Carried(s, q, s.calls[q].ch);
      forall i | 0 <= i < |s.w| ensures s.w[i].ch < s.size && own[s.w[i].ch] == Out(s.w[i].r) {
        assert Carried(s, s.w[i].r, s.w[i].ch);
      }
      RoomLeft(Channels(s.w), s.calls[q].ch, s.size);
    }
    if s.writer.Some? {
      var fl := InFlight(s);
      forall i | 0 <= i < |fl| ensures fl[i].ch < s.size && own[fl[i].ch] == Out(fl[i].r) {
        assert Listens(s, fl[i]);
        assert Carried(s, fl[i].r, fl[i].ch);
      }
      assert forall i :: 0 <= i < |s.r| ==> s.r[i] == fl[i];
      assert fl[|s.r|] == s.writer.value;
      RoomLeft(Channels(s.r), s.writer.value.ch, s.size);
    }
    if s.hand.Sent? {
      RoomLeft(s.f, s.hand.ch, s.size);
    }
  }

  ghost predicate Run(states: seq<Buffer>, trace: seq<Event>) {
    && |states| == |trace| + 1
    && forall i :: 0 <= i < |trace| ==> Step(states[i], trace[i], states[i + 1])
  }

  lemma {:induction false} RunGood(states: seq<Buffer>, trace: seq<Event>, a: State, own: seq<Place>)
    requires Run(states, trace) && Good(states[0], a, own)
    ensures Accepts(a, trace)
    decreases |trace|
  {
    if trace != [] {
      var own' := StepGood(states[0], a, own, trace[0], states[1]);
      RunGood(states[1..], trace[1..], Apply(a, trace[0]), own');
    }
  }

  /** The flow buffer shows only what the abstract pipeline allows: the same FIFO as the ring. */
  lemma {:induction false} BufferRefinesFifo(states: seq<Buffer>, trace: seq<Event>)
    requires Run(states, trace) && Init(states[0])
    ensures Accepts(EMPTY, trace)
    ensures forall i :: 0 <= i < |trace| ==> Answers(Writes(trace), trace[i], 0)
    ensures forall i, j :: 0 <= i < j < |trace| && trace[i].Received? && trace[j].Received? ==>
              trace[i].r != trace[j].r
  {
    InitGood(states[0]);
    RunGood(states, trace, EMPTY, seq(states[0].size, _ => Free));
    RepliesReachTheirRequests(trace);
  }

  /** What every reachable state satisfies. */
  ghost predicate Reachable(s: Buffer) {
    exists a, own :: Good(s, a, own)
  }

  lemma {:induction false} StepReachable(s: Buffer, e: Event, s': Buffer)
    requires Reachable(s) && Step(s, e, s')
    ensures Reachable(s')
  {
    var a, own :| Good(s, a, own);
    var own' := StepGood(s, a, own, e, s');
  }

  /** A sender finds room in the channel it sends on, and queued tokens have a call listening. */
  lemma {:induction false} ReachableFacts(s: Buffer)
    requires Reachable(s)
    ensures (exists q :: q in s.calls && s.calls[q].Holding?) ==> |s.w| < s.size
    ensures s.writer.Some? ==> |s.r| < s.size
    ensures s.hand.Sent? ==> |s.f| < s.size
    ensures forall i :: 0 <= i < |s.w| ==> Listens(s, s.w[i])
    ensures forall i :: 0 <= i < |s.r| ==> Listens(s, s.r[i])
  {
    var a, own :| Good(s, a, own);
    SendsNeverBlock(s, a, own);
    assert forall i :: 0 <= i < |s.r| ==> s.r[i] == InFlight(s)[i];
  }

  // The three channels themselves.

  datatype Queued<C, R> = Queued(ch: nat, x: Payload<C, R>)

  class Channels3<C, R> {
    const size: nat
    var f: seq<nat>
    var w: seq<Queued<C, R>>
    var r: seq<Queued<C, R>>
    var c: Option<nat>

    ghost var abs: Buffer
    ghost var payloads: map<Request, Payload<C, R>>

    ghost predicate Holds(xs: seq<Queued<C, R>>, ts: seq<Token>)
      reads this`payloads
    {
      && |xs| == |ts|
      && forall i :: 0 <= i < |xs| ==> ts[i].r in payloads && xs[i] == Queued(ts[i].ch, payloads[ts[i].r])
    }

    ghost predicate Valid()
      reads this
    {
      && abs.size == size && abs.f == f && Holds(w, abs.w) && Holds(r, abs.r) && abs.writer.None?
      && c == (if abs.hand.Nothing? then None else Some(abs.hand.ch))
      && Reachable(abs)
    }

    constructor (factor: int)
      ensures Valid() && Init(abs) && payloads == map[]
      ensures size == Pow2(if factor <= 0 then DEFAULT_RING_SCALE else factor)
    {
      var n := Pow2(if factor <= 0 then DEFAULT_RING_SCALE else factor);
      size, f, w, r, c := n, seq(n, i => i), [], [], None;
      abs := Buffer(n, seq(n, i => i), [], [], None, Nothing, 0, map[]);
      payloads := map[];
      new;
      InitGood(abs);
    }

    /** PutOne and PutMulti, first half: None means no token is free yet. */
    method Receive(ghost q: Request) returns (ch: Option<nat>)
      requires Valid() && q in abs.calls && abs.calls[q].Calling?
      modifies this
      ensures Valid() && payloads == old(payloads)
      ensures if ch.None? then abs == old(abs) && f == []
              else TakeFree(old(abs), q, abs) && abs.calls[q] == Holding(ch.value)
    {
      if f == [] { return None; }
      ch := Some(f[0]);
      ghost var next := abs.(f := f[1..], calls := abs.calls[q := Holding(f[0])]);
      assert TakeFree(abs, q, next);
      StepReachable(abs, Internal, next);
      f, abs := f[1..], next;
    }

    /** PutOne and PutMulti, second half: the send on w finds room. */
    method Send(ghost q: Request, ch: nat, x: Payload<C, R>)
      requires Valid() && q in abs.calls && abs.calls[q] == Holding(ch)
      modifies this
      ensures Valid() && Queue(old(abs), q, abs) && payloads == old(payloads)[q := x]
    {
      ReachableFacts(abs);
      ghost var next := abs.(w := abs.w + [Token(ch, q)], calls := abs.calls[q := Listening(ch)]);
      assert Queue(abs, q, next);
      StepReachable(abs, Internal, next);
      w := w + [Queued(ch, x)];
      abs, payloads := next, payloads[q := x];
    }

    /** Takes the oldest queued command and passes its token on to r, where it finds room. */
    method NextWriteCmd() returns (x: Option<Queued<C, R>>, ghost q: Request, ghost mid: Buffer)
      requires Valid()
      modifies this
      ensures Valid() && payloads == old(payloads)
      ensures x.None? ==> abs == old(abs) && w == []
      ensures x.Some? ==> TakeWrite(old(abs), q, mid) && PassOn(mid, abs) && q in payloads && x.value.x == payloads[q]
    {
      q, mid := 0, abs;
      if w == [] { return None, q, mid; }
      x := Some(w[0]);
      ghost var t := abs.w[0];
      q, mid := t.r, abs.(w := abs.w[1..], writer := Some(t));
      StepReachable(abs, Wrote(q), mid);
      ReachableFacts(mid);
      ghost var next := mid.(r := mid.r + [t], writer := None);
      StepReachable(mid, Internal, next);
      w, r := w[1..], r + [x.value];
      abs := next;
    }

    method NextResultCh() returns (x: Option<Queued<C, R>>, ghost q: Request)
      requires Valid() && c.None?
      modifies this
      ensures Valid() && payloads == old(payloads)
      ensures x.None? ==> abs == old(abs) && r == []
      ensures x.Some? ==> TakeResult(old(abs), q, abs) && q in payloads && x.value.x == payloads[q]
    {
      q := 0;
      if r == [] { return None, q; }
      x := Some(r[0]);
      q := abs.r[0].r;
      r, c := r[1..], Some(r[0].ch);
      ghost var next := abs.(r := abs.r[1..], hand := Sending(abs.r[0].ch), taken := abs.taken + 1);
      StepReachable(abs, Took(q), next);
      abs := next;
    }

    method FinishResult()
      requires Valid() && !abs.hand.Sending?
      modifies this
      ensures Valid() && payloads == old(payloads)
      ensures if old(c).None? then abs == old(abs) else GiveBack(old(abs), abs)
    {
      if c.Some? {
        ReachableFacts(abs);
        ghost var next := abs.(f := abs.f + [abs.hand.ch], hand := Nothing);
        StepReachable(abs, Internal, next);
        f, c := f + [c.value], None;
        abs := next;
      }
    }
  }
}
