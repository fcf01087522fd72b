/** The read loop of a connection: it matches the server's stream of replies, pushes,
    subscription confirmations and extra PONGs to the commands that were written. */
module ReplyMatching {
  import opened Message

  datatype Kind = Normal | Subscribe | Unsubscribe

  datatype Command = Command(kind: Kind, words: seq<seq<byte>>) {
    predicate NoReply() { kind != Normal }
    predicate IsUnsub() { kind == Unsubscribe }
  }

  const PONG: seq<byte> := [80, 79, 78, 71]
  const LOWER_PONG: seq<byte> := [112, 111, 110, 103]
  const QUEUED: seq<byte> := [81, 85, 69, 85, 69, 68]
  const LOADING: seq<byte> := [76, 79, 65, 68, 73, 78, 71]
  const BUSY: seq<byte> := [66, 85, 83, 89]
  const QUOTED_PING: seq<byte> := [39, 112, 105, 110, 103, 39]

  // The leading words of the pushes handlePush tells apart.
  const UNSUBSCRIBE: seq<byte> := [117, 110, 115, 117, 98, 115, 99, 114, 105, 98, 101]
  const SUBSCRIBE: seq<byte> := [115, 117, 98, 115, 99, 114, 105, 98, 101]
  const P: byte := 112
  const S: byte := 115

  predicate HasPrefix(s: seq<byte>, p: seq<byte>) {
    |p| <= |s| && s[..|p|] == p
  }

  predicate Contains(s: seq<byte>, p: seq<byte>) {
    exists i | 0 <= i <= |s| :: HasPrefix(s[i..], p)
  }

  /** An error that answers the PING sent after an unsubscribe. */
  predicate IsPingError(m: Msg) {
    m.typ == SIMPLE_ERR &&
    (HasPrefix(m.Text(), LOADING) || HasPrefix(m.Text(), BUSY) || Contains(m.Text(), QUOTED_PING))
  }

  predicate IsUnsubReply(m: Msg) {
    IsPingError(m) || m.Text() == PONG || (m.Values() != [] && m.Values()[0].Text() == LOWER_PONG)
  }

  /** isUnsubReply turns an error in place of the PONG into the PONG. */
  function AsPong(m: Msg): Msg {
    if IsPingError(m) then m.(typ := SIMPLE_STRING, body := Str(PONG)) else m
  }

  /** handlePush: whether a push takes part in reply matching, and whether it ends a subscription. */
  function HandlePush(values: seq<Msg>): (bool, bool) {
    if |values| < 2 then (false, false)
    else
      var head := values[0].Text();
      if head in [UNSUBSCRIBE, [P] + UNSUBSCRIBE, [S] + UNSUBSCRIBE] then (true, true)
      else if head in [SUBSCRIBE, [P] + SUBSCRIBE, [S] + SUBSCRIBE] then (true, false)
      else (false, false)
  }

  /** A batch as callers hand it to the queue: never empty. */
  type Batch = b: seq<Command> | b != [] witness [Command(Normal, [])]

  /** What happens at the reader, in order: the writer queues a batch, or a message arrives. */
  datatype Event = Written(batch: Batch) | Arrived(m: Msg)

  datatype Served = Served(batch: seq<Command>, resps: seq<Msg>)

  /** `multi` is the batch in hand and `resps` its answers so far, so ff is |resps|. */
  datatype Reader = Reader(queue: seq<Batch>, multi: seq<Command>, resps: seq<Msg>,
                           skip: int, skipUnsubReply: bool, out: seq<Served>, panicked: bool)

  const START := Reader([], [], [], 0, false, [], false)

  function Deliver(r: Reader, m: Msg): Reader
    requires |r.resps| < |r.multi|
  {
    var resps := r.resps + [m];
    r.(resps := resps, out := if |resps| == |r.multi| then r.out + [Served(r.multi, resps)] else r.out)
  }

  function Match(r: Reader, m: Msg, prply: bool, unsub: bool): Reader
    requires |r.resps| < |r.multi|
  {
    var c := r.multi[|r.resps|];
    if prply then
      if unsub then r
      else if !c.NoReply() then r.(panicked := true)
      else Deliver(r.(skip := |c.words| - 2), ZERO)
    else if c.NoReply() && m.Text() == QUEUED then r.(panicked := true)
    else if c.IsUnsub() && !IsUnsubReply(m) then Deliver(r.(skipUnsubReply := true), m)
    else if r.skipUnsubReply then
      if IsUnsubReply(m) then r.(skipUnsubReply := false) else r.(panicked := true)
    else Deliver(r, if c.IsUnsub() then AsPong(m) else m)
  }

  /** One turn of the loop. */
  function Turn(r: Reader, m: Msg): Reader {
    var (prply, unsub) := if m.typ == PUSH then HandlePush(m.Values()) else (false, false);
    if m.typ == PUSH && !prply then r
    else if m.typ == PUSH && r.skip > 0 then r.(skip := r.skip - 1)
    else if |r.resps| < |r.multi| then Match(r, m, prply, unsub)
    else if r.queue != [] then
      Match(r.(queue := r.queue[1..], multi := r.queue[0], resps := []), m, prply, unsub)
    else if unsub then r
    else if r.skipUnsubReply && IsUnsubReply(m) then r.(skipUnsubReply := false)
    else r.(panicked := true)
  }

  function Step(r: Reader, e: Event): Reader {
    if r.panicked then r
    else match e
      case Written(b) => r.(queue := r.queue + [b])
      case Arrived(m) => Turn(r, m)
  }

  function Run(r: Reader, events: seq<Event>): Reader {
    if events == [] then r else Step(Run(r, events[..|events| - 1]), events[|events| - 1])
  }

  // The server side: the grammar of legal transcripts as an automaton. `confirm` is the
  // number of confirmations still due, `pong` says that the PONG after a failed unsubscribe
  // is due, `replies` is what the server answered to the first |replies| commands.

  datatype Server = Server(written: seq<Command>, replies: seq<Msg>, confirm: nat, pong: bool)

  const IDLE := Server([], [], 0, false)

  predicate IsSubConfirm(m: Msg) { m.typ == PUSH && HandlePush(m.Values()) == (true, false) }
  predicate IsUnsubPush(m: Msg) { m.typ == PUSH && HandlePush(m.Values()) == (true, true) }
  predicate IsOtherPush(m: Msg) { m.typ == PUSH && !HandlePush(m.Values()).0 }

  /** A subscribe names at least one channel. */
  predicate WellFormed(batch: Batch) {
    forall i :: 0 <= i < |batch| && batch[i].kind == Subscribe ==> |batch[i].words| >= 2
  }

  /** The server answers the next command in the queue with message m. */
  ghost predicate Answers(s: Server, m: Msg, s': Server) {
    && |s.replies| < |s.written| && s.confirm == 0 && !s.pong
    && var c := s.written[|s.replies|];
    match c.kind
    case Normal => m.typ != PUSH && s' == s.(replies := s.replies + [m])
    case Subscribe =>
      || (IsSubConfirm(m) && |c.words| >= 2 && s' == s.(replies := s.replies + [ZERO], confirm := |c.words| - 2))
      || (m.typ == SIMPLE_ERR && m.Text() != QUEUED && s' == s.(replies := s.replies + [m]))
    case Unsubscribe =>
      || (m.typ != PUSH && IsUnsubReply(m) && s' == s.(replies := s.replies + [AsPong(m)]))
      || (m.typ == SIMPLE_ERR && m.Text() != QUEUED && !IsUnsubReply(m)
          && s' == s.(replies := s.replies + [m], pong := true))
  }

  ghost predicate Emits(s: Server, m: Msg, s': Server) {
    || (IsOtherPush(m) && s' == s)
    || (IsUnsubPush(m) && s.confirm == 0 && s' == s)
    || (IsSubConfirm(m) && s.confirm > 0 && s' == s.(confirm := s.confirm - 1))
    || (m.typ != PUSH && IsUnsubReply(m) && s.pong && s.confirm == 0 && s' == s.(pong := false))
    || Answers(s, m, s')
  }

  ghost predicate ServerStep(s: Server, e: Event, s': Server) {
    match e
    case Written(b) => WellFormed(b) && s' == s.(written := s.written + b)
    case Arrived(m) => Emits(s, m, s')
  }

  /** The events are a legal transcript that leads the server from its idle state to s. */
  ghost predicate Transcript(events: seq<Event>, states: seq<Server>) {
    && |states| == |events| + 1 && states[0] == IDLE
    && forall i :: 0 <= i < |events| ==> ServerStep(states[i], events[i], states[i + 1])
  }

  // The simulation.

  function Concat(bs: seq<Batch>): seq<Command> {
    if bs == [] then [] else Concat(bs[..|bs| - 1]) + bs[|bs| - 1]
  }

  function ServedCommands(out: seq<Served>): seq<Command> {
    if out == [] then [] else ServedCommands(out[..|out| - 1]) + out[|out| - 1].batch
  }

  function ServedReplies(out: seq<Served>): seq<Msg> {
    if out == [] then [] else ServedReplies(out[..|out| - 1]) + out[|out| - 1].resps
  }

  /** The answers of a batch in hand that is not complete yet. */
  function Partial(r: Reader): seq<Msg> {
    if |r.resps| < |r.multi| then r.resps else []
  }

  function InHand(r: Reader): seq<Command> {
    if |r.resps| < |r.multi| then r.multi else []
  }

  ghost predicate Matches(r: Reader, s: Server) {
    && !r.panicked && r.skip == s.confirm && r.skipUnsubReply == s.pong
    && |r.resps| <= |r.multi|
    && (forall i :: 0 <= i < |r.queue| ==> WellFormed(r.queue[i]))
    && (forall i :: 0 <= i < |r.out| ==> |r.out[i].batch| == |r.out[i].resps|)
    && ServedCommands(r.out) + InHand(r) + Concat(r.queue) == s.written
    && ServedReplies(r.out) + Partial(r) == s.replies
  }

  lemma {:induction false} ServedLengths(out: seq<Served>)
    requires forall i :: 0 <= i < |out| ==> |out[i].batch| == |out[i].resps|
    ensures |ServedCommands(out)| == |ServedReplies(out)|
  {
    if out != [] { ServedLengths(out[..|out| - 1]); }
  }

  lemma {:induction false} ConcatHead(bs: seq<Batch>)
    requires bs != []
    ensures Concat(bs) == bs[0] + Concat(bs[1..])
  {
    if |bs| > 1 {
      ConcatHead(bs[..|bs| - 1]);
      assert bs[..|bs| - 1][1..] == bs[1..][..|bs| - 2];
    }
  }

  /** Taking the next batch from the queue changes nothing the server can see. */
  lemma {:induction false} TakeMatches(r: Reader, s: Server) returns (r': Reader)
    requires Matches(r, s) && |r.resps| == |r.multi| && r.queue != []
    ensures r' == r.(queue := r.queue[1..], multi := r.queue[0], resps := [])
    ensures Matches(r', s)
  {
    r' := r.(queue := r.queue[1..], multi := r.queue[0], resps := []);
    ConcatHead(r.queue);
  }

  /** The command the reader has in hand is the one the server answers next. */
  lemma {:induction false} InHandIsNext(r: Reader, s: Server)
    requires Matches(r, s) && |r.resps| < |r.multi|
    ensures |s.replies| < |s.written| && s.written[|s.replies|] == r.multi[|r.resps|]
  {
    ServedLengths(r.out);
  }

  lemma {:induction false} DeliverMatches(r: Reader, s: Server, m: Msg)
    requires Matches(r, s) && |r.resps| < |r.multi|
    ensures Matches(Deliver(r, m), s.(replies := s.replies + [m]))
  {
    var r' := Deliver(r, m);
    if |r'.resps| == |r.multi| {
      assert r'.out[..|r'.out| - 1] == r.out;
    }
  }

  lemma {:induction false} UnsubReplyIsNotQueued(m: Msg)
    requires IsUnsubReply(m)
    ensures m.Text() != QUEUED
  {
    assert QUEUED[0] == 81 && QUOTED_PING[0] == 39;
    forall i | 0 <= i <= |QUEUED| ensures !HasPrefix(QUEUED[i..], QUOTED_PING) {
      assert i == 0 ==> QUEUED[i..] == QUEUED;
    }
  }

  lemma {:induction false} MatchMatches(r: Reader, s: Server, m: Msg, s': Server)
    requires Matches(r, s) && |r.resps| < |r.multi| && Emits(s, m, s')
    requires m.typ == PUSH ==> r.skip == 0 && !IsOtherPush(m)
    ensures Matches(Match(r, m, m.typ == PUSH, IsUnsubPush(m)), s')
  {
    InHandIsNext(r, s);
    if IsUnsubReply(m) { UnsubReplyIsNotQueued(m); }
    var c := r.multi[|r.resps|];
    if Answers(s, m, s') && !IsUnsubPush(m) {
      if m.typ == PUSH {
        DeliverMatches(r.(skip := |c.words| - 2), s.(confirm := |c.words| - 2), ZERO);
      } else if c.IsUnsub() && !IsUnsubReply(m) {
        DeliverMatches(r.(skipUnsubReply := true), s.(pong := true), m);
      } else {
        DeliverMatches(r, s, if c.IsUnsub() then AsPong(m) else m);
      }
    }
  }

  lemma {:induction false} TurnMatches(r: Reader, s: Server, m: Msg, s': Server)
    requires Matches(r, s) && Emits(s, m, s')
    ensures Matches(Turn(r, m), s')
  {
    if m.typ == PUSH && (!HandlePush(m.Values()).0 || r.skip > 0) {
    } else if |r.resps| < |r.multi| {
      MatchMatches(r, s, m, s');
    } else if r.queue != [] {
      var r' := TakeMatches(r, s);
      MatchMatches(r', s, m, s');
    } else {
      ServedLengths(r.out);
    }
  }

  lemma {:induction false} StepMatches(r: Reader, s: Server, e: Event, s': Server)
    requires Matches(r, s) && ServerStep(s, e, s')
    ensures Matches(Step(r, e), s')
  {
    match e
    case Arrived(m) => TurnMatches(r, s, m, s');
    case Written(b) =>
      assert (r.queue + [b])[..|r.queue|] == r.queue;
  }

  /** Reply matching: over every command list and every legal transcript of it, the read loop
      never reaches a protocol panic, and the answers it has handed out, batch after batch, are
      the server's answers to exactly those commands, in order. */
  lemma {:induction false} EveryCommandGetsItsReply(events: seq<Event>, states: seq<Server>)
    requires Transcript(events, states)
    ensures Matches(Run(START, events), states[|events|])
    ensures ServedReplies(Run(START, events).out) <= states[|events|].replies
    ensures ServedCommands(Run(START, events).out) <= states[|events|].written
    decreases |events|
  {
    var n := |events| - 1;
    if events != [] {
      EveryCommandGetsItsReply(events[..n], states[..n + 1]);
      StepMatches(Run(START, events[..n]), states[n], events[n], states[n + 1]);
    }
  }

  // An unsubscribe that fails. The server still owes the PONG then, and the loop can only tell from
  // the error itself.

  /** The server answers an unsubscribe next, with nothing else due. */
  ghost predicate UnsubNext(s: Server) {
    |s.replies| < |s.written| && s.confirm == 0 && !s.pong && s.written[|s.replies|].IsUnsub()
  }

  /** For any batch, position and queue: the loop stays in step with a server that fails an
      unsubscribe and owes the PONG if and only if isUnsubReply rejects the error and its text is
      not QUEUED. An error that isUnsubReply accepts is taken for the PONG. */
  lemma {:induction false} UnsubErrorInStep(r: Reader, s: Server, e: Msg)
    requires Matches(r, s) && UnsubNext(s) && e.typ == SIMPLE_ERR
    ensures Matches(Turn(r, e), s.(replies := s.replies + [e], pong := true))
       <==> !IsUnsubReply(e) && e.Text() != QUEUED
    ensures IsUnsubReply(e) ==> Matches(Turn(r, e), s.(replies := s.replies + [AsPong(e)]))
  {
    ServedLengths(r.out);
    var r' := r;
    if |r.resps| == |r.multi| {
      r' := TakeMatches(r, s);
    }
    InHandIsNext(r', s);
    if IsUnsubReply(e) {
      TurnMatches(r, s, e, s.(replies := s.replies + [AsPong(e)]));
    } else if e.Text() != QUEUED {
      TurnMatches(r, s, e, s.(replies := s.replies + [e], pong := true));
    }
  }

  /** One more answer than the loop expects: the next command of the queue takes it, and without
      one the loop panics. */
  lemma {:induction false} NextTakesIt(r: Reader, s: Server, m: Msg)
    requires Matches(r, s) && s.confirm == 0 && !s.pong && m.typ != PUSH
    requires |s.replies| < |s.written| && s.written[|s.replies|].NoReply() ==> IsUnsubReply(m)
    ensures Turn(r, m).panicked <==> |s.replies| == |s.written|
    ensures |s.replies| < |s.written| ==>
              Matches(Turn(r, m), s.(replies := s.replies + [
                if s.written[|s.replies|].IsUnsub() then AsPong(m) else m]))
  {
    ServedLengths(r.out);
    var r' := r;
    if |r.resps| == |r.multi| && r.queue != [] {
      r' := TakeMatches(r, s);
    }
    if |r'.resps| < |r'.multi| {
      InHandIsNext(r', s);
      if IsUnsubReply(m) { UnsubReplyIsNotQueued(m); }
      var c := r'.multi[|r'.resps|];
      DeliverMatches(r', s, if c.IsUnsub() then AsPong(m) else m);
    }
  }

  /** The PONG after an accepted error: it answers the command after the unsubscribe, whatever that
      is, and panics the loop if and only if there is none. */
  lemma {:induction false} UnsubErrorThenPong(r: Reader, s: Server, e: Msg, pong: Msg)
    requires Matches(r, s) && UnsubNext(s) && e.typ == SIMPLE_ERR && IsUnsubReply(e)
    requires pong.typ != PUSH && IsUnsubReply(pong)
    ensures Turn(Turn(r, e), pong).panicked <==> |s.replies| + 1 == |s.written|
    ensures |s.replies| + 1 < |s.written| ==>
              Matches(Turn(Turn(r, e), pong), s.(replies := s.replies + [AsPong(e)] + [
                if s.written[|s.replies| + 1].IsUnsub() then AsPong(pong) else pong]))
  {
    UnsubErrorInStep(r, s, e);
    NextTakesIt(Turn(r, e), s.(replies := s.replies + [AsPong(e)]), pong);
  }

  ghost predicate AllNormal(s: Server, from: nat) {
    forall i :: from <= i < |s.written| ==> s.written[i].kind == Normal
  }

  ghost predicate AllReplies(events: seq<Event>) {
    forall i :: 0 <= i < |events| ==> events[i].Arrived? && events[i].m.typ != PUSH
  }

  function Arrivals(events: seq<Event>): (ms: seq<Msg>)
    requires AllReplies(events)
  {
    if events == [] then [] else Arrivals(events[..|events| - 1]) + [events[|events| - 1].m]
  }

  lemma {:induction false} ArrivalsLength(events: seq<Event>)
    requires AllReplies(events)
    ensures |Arrivals(events)| == |events|
  {
    if events != [] { ArrivalsLength(events[..|events| - 1]); }
  }

  lemma {:induction false} NeverAhead(r: Reader, s: Server)
    requires Matches(r, s)
    ensures !r.panicked && |s.replies| <= |s.written|
  {
    ServedLengths(r.out);
  }

  lemma {:induction false} OrdinaryTakesIt(r: Reader, s: Server, taken: seq<Msg>, m: Msg)
    requires s.confirm == 0 && !s.pong && AllNormal(s, |s.replies|) && m.typ != PUSH
    requires Matches(r, s.(replies := s.replies + taken))
    ensures Turn(r, m).panicked <==> |s.replies| + |taken| == |s.written|
    ensures |s.replies| + |taken| < |s.written| ==>
              Matches(Turn(r, m), s.(replies := s.replies + (taken + [m])))
  {
    NextTakesIt(r, s.(replies := s.replies + taken), m);
    assert s.replies + taken + [m] == s.replies + (taken + [m]);
  }

  /** Ordinary commands take the answers that arrive one for one, and the first answer beyond the
      last command panics. */
  lemma {:induction false} TakenUntilPanic(r: Reader, s: Server, events: seq<Event>)
    requires Matches(r, s) && s.confirm == 0 && !s.pong && AllNormal(s, |s.replies|)
    requires AllReplies(events) && |s.replies| + |events| <= |s.written| + 1
    ensures Run(r, events).panicked <==> |s.replies| + |events| == |s.written| + 1
    ensures |s.replies| + |events| <= |s.written| ==>
              Matches(Run(r, events), s.(replies := s.replies + Arrivals(events)))
    decreases |events|
  {
    if events == [] {
      NeverAhead(r, s);
      assert s.replies + Arrivals(events) == s.replies;
    } else {
      var n := |events| - 1;
      TakenUntilPanic(r, s, events[..n]);
      ArrivalsLength(events[..n]);
      OrdinaryTakesIt(Run(r, events[..n]), s, Arrivals(events[..n]), events[n].m);
    }
  }

  /** After an error taken for the PONG the loop never finds back. When only ordinary commands
      follow, each gets the answer of the one before it, beginning with the PONG, and the answer of
      the last one panics the loop. */
  lemma {:induction false} UnsubErrorShiftsTheRest(r: Reader, s: Server, e: Msg, events: seq<Event>)
    requires Matches(r, s) && UnsubNext(s) && e.typ == SIMPLE_ERR && IsUnsubReply(e)
    requires AllNormal(s, |s.replies| + 1) && AllReplies(events) && |s.replies| + |events| <= |s.written|
    ensures Run(Turn(r, e), events).panicked <==> |s.replies| + |events| == |s.written|
    ensures |s.replies| + |events| < |s.written| ==>
              Matches(Run(Turn(r, e), events), s.(replies := s.replies + [AsPong(e)] + Arrivals(events)))
  {
    UnsubErrorInStep(r, s, e);
    TakenUntilPanic(Turn(r, e), s.(replies := s.replies + [AsPong(e)]), events);
  }

  /** The error of a server that is running a script: "BUSY Redis is busy". */
  const BUSY_TEXT: seq<byte> := BUSY + [32, 82, 101, 100, 105, 115, 32, 105, 115, 32, 98, 117, 115, 121]
  const BUSY_ERROR := Msg(SIMPLE_ERR, Str(BUSY_TEXT), 0, NoAttrs)

  lemma {:induction false} BusyIsAccepted()
    ensures IsUnsubReply(BUSY_ERROR)
  {
    assert BUSY_TEXT[..|BUSY|] == BUSY;
  }

  lemma {:induction false} OneWritten(c: Command)
    requires c.kind != Subscribe
    ensures Matches(START.(queue := [[c]]), Server([c], [], 0, false))
  {
    var queue: seq<Batch> := [[c]];
    assert queue[..0] == [];
    assert Concat(queue) == [] + [c];
  }

  lemma {:induction false} RunThree(r: Reader, b: Batch, m: Msg, n: Msg)
    requires !r.panicked && !Turn(r.(queue := r.queue + [b]), m).panicked
    ensures Run(r, [Written(b), Arrived(m), Arrived(n)]) == Turn(Turn(r.(queue := r.queue + [b]), m), n)
  {
    var first, second := [Written(b)], [Written(b), Arrived(m)];
    assert first[..0] == [] && second[..1] == first;
    assert Run(r, first) == Step(Run(r, []), Written(b));
    assert Run(r, second) == Turn(r.(queue := r.queue + [b]), m);
    assert [Written(b), Arrived(m), Arrived(n)][..2] == second;
  }

  /** One unsubscribe, answered by BUSY, and then the PONG: the run from the start panics. */
  lemma {:induction false} BusyUnsubscribePanics(c: Command, pong: Msg)
    requires c.IsUnsub() && pong.typ != PUSH && IsUnsubReply(pong)
    ensures Run(START, [Written([c]), Arrived(BUSY_ERROR), Arrived(pong)]).panicked
  {
    var r, s := START.(queue := [[c]]), Server([c], [], 0, false);
    BusyIsAccepted();
    OneWritten(c);
    UnsubErrorThenPong(r, s, BUSY_ERROR, pong);
    UnsubErrorInStep(r, s, BUSY_ERROR);
    assert START.queue + [[c]] == [[c]];
    RunThree(START, [c], BUSY_ERROR, pong);
  }

  // The loop itself.

  lemma {:induction false} PanicStays(r: Reader, events: seq<Event>, i: nat)
    requires i <= |events|
    ensures Run(r, events[..i]).panicked ==> Run(r, events) == Run(r, events[..i])
    decreases |events|
  {
    if i < |events| {
      var n := |events| - 1;
      assert events[..n][..i] == events[..i];
      PanicStays(r, events[..n], i);
    } else {
      assert events[..i] == events;
    }
  }

  /** The variables of the loop; `resps` is the result slice of the batch in hand. */
  class ReadLoop {
    var queue: seq<Batch>
    var multi: seq<Command>
    var resps: seq<Msg>
    var ff: nat
    var skip: int
    var skipUnsubReply: bool
    var out: seq<Served>
    var panicked: bool

    ghost predicate Valid()
      reads this
    {
      ff <= |multi| == |resps|
    }

    ghost function State(): Reader
      reads this
      requires Valid()
    {
      Reader(queue, multi, resps[..ff], skip, skipUnsubReply, out, panicked)
    }

    constructor ()
      ensures Valid() && State() == START
    {
      queue, multi, resps, ff := [], [], [], 0;
      skip, skipUnsubReply, out, panicked := 0, false, [], false;
    }

    /** The end of a turn: the message becomes the answer of the command in hand. */
    method Fulfil(msg: Msg)
      requires Valid() && ff < |multi|
      modifies this
      ensures Valid() && State() == Deliver(old(State()), msg)
    {
      resps := resps[ff := msg];
      ff := ff + 1;
      assert resps[..ff] == old(resps[..ff]) + [msg];
      if ff == |multi| {
        assert resps[..ff] == resps;
        out := out + [Served(multi, resps)];
      }
    }

    method MatchReply(msg: Msg, prply: bool, unsub: bool)
      requires Valid() && ff < |multi|
      modifies this
      ensures Valid() && State() == Match(old(State()), msg, prply, unsub)
    {
      var c := multi[ff];
      if prply {
        if unsub { return; }
        if !c.NoReply() {
          panicked := true;
          return;
        }
        skip := |c.words| - 2;
        Fulfil(ZERO);
      } else if c.NoReply() && msg.Text() == QUEUED {
        panicked := true;
      } else if c.IsUnsub() && !IsUnsubReply(msg) {
        skipUnsubReply := true;
        Fulfil(msg);
      } else if skipUnsubReply {
        if IsUnsubReply(msg) {
          skipUnsubReply := false;
        } else {
          panicked := true;
        }
      } else {
        Fulfil(if c.IsUnsub() then AsPong(msg) else msg);
      }
    }

    method OnMessage(msg: Msg)
      requires Valid() && !panicked
      modifies this
      ensures Valid() && State() == Turn(old(State()), msg)
    {
      var prply, unsub := false, false;
      if msg.typ == PUSH {
        var p := HandlePush(msg.Values());
        prply, unsub := p.0, p.1;
        if !prply { return; }
        if skip > 0 {
          skip := skip - 1;
          return;
        }
      }
      if ff == |multi| {
        if queue == [] {
          if unsub { return; }
          if skipUnsubReply && IsUnsubReply(msg) {
            skipUnsubReply := false;
          } else {
            panicked := true;
          }
          return;
        }
        multi, queue, ff := queue[0], queue[1..], 0;
        resps := seq(|multi|, _ => ZERO);
      }
      MatchReply(msg, prply, unsub);
    }
  }

  method BackgroundRead(events: seq<Event>) returns (loop: ReadLoop)
    ensures fresh(loop) && loop.Valid() && loop.State() == Run(START, events)
  {
    loop := new ReadLoop();
    for i := 0 to |events|
      invariant fresh(loop) && loop.Valid() && loop.State() == Run(START, events[..i])
    {
      assert events[..i + 1][..i] == events[..i];
      if loop.panicked {
        PanicStays(START, events, i);
        return;
      }
      match events[i]
      case Written(b) => loop.queue := loop.queue + [b];
      case Arrived(m) => loop.OnMessage(m);
    }
    assert events[..|events|] == events;
  }
}
