/** The abstract pipeline that both queues of the client implement: callers put
    requests, one writer sends them, one reader hands the k-th reply to the k-th
    request sent. A request is the identity of one PutOne or PutMulti call. */
module Fifo {
  type Request = nat

  /** What one Put stores: a single command, or a batch with its result slice. */
  datatype Payload<C, R> = One(one: C) | Multi(multi: seq<C>, resps: seq<R>)

  const DEFAULT_RING_SCALE: nat := 10

  datatype Event =
    | Internal
    | Put(r: Request)
    | Wrote(r: Request)
    | Took(r: Request)
    | Received(r: Request, reply: nat)

  datatype State = State(put: set<Request>, written: seq<Request>, taken: nat, delivered: nat)

  const EMPTY := State({}, [], 0, 0)

  ghost predicate Enabled(s: State, e: Event) {
    match e
    case Internal => true
    case Put(r) => r !in s.put
    case Wrote(r) => r in s.put && r !in s.written
    case Took(r) => s.taken < |s.written| && s.delivered == s.taken && r == s.written[s.taken]
    case Received(r, k) => k == s.delivered < s.taken <= |s.written| && r == s.written[k]
  }

  ghost function Apply(s: State, e: Event): State {
    match e
    case Internal => s
    case Put(r) => s.(put := s.put + {r})
    case Wrote(r) => s.(written := s.written + [r])
    case Took(r) => s.(taken := s.taken + 1)
    case Received(r, k) => s.(delivered := s.delivered + 1)
  }

  /** A run of the abstract pipeline that shows exactly the given events. */
  ghost predicate Accepts(s: State, trace: seq<Event>)
    decreases |trace|
  {
    trace == [] || (Enabled(s, trace[0]) && Accepts(Apply(s, trace[0]), trace[1..]))
  }

  ghost predicate Distinct(w: seq<Request>) {
    forall i, j :: 0 <= i < j < |w| ==> w[i] != w[j]
  }

  ghost predicate Inv(s: State) {
    && s.delivered <= s.taken <= |s.written|
    && Distinct(s.written)
    && forall r :: r in s.written ==> r in s.put
  }

  /** The requests written during a trace, in order. */
  ghost function Writes(trace: seq<Event>): seq<Request> {
    if trace == [] then []
    else if trace[0].Wrote? then [trace[0].r] + Writes(trace[1..])
    else Writes(trace[1..])
  }

  /** Reply number k went to the request written k-th; `from` bounds k below. */
  ghost predicate Answers(written: seq<Request>, e: Event, from: nat) {
    e.Received? ==> from <= e.reply < |written| && written[e.reply] == e.r
  }

  lemma WritesStep(s: State, trace: seq<Event>, all: seq<Request>)
    requires trace != [] && all == s.written + Writes(trace)
    ensures Apply(s, trace[0]).written + Writes(trace[1..]) == all
  {
  }

  lemma {:induction false} AnswersAreInOrder(s: State, trace: seq<Event>, all: seq<Request>)
    requires Inv(s) && Accepts(s, trace) && all == s.written + Writes(trace)
    ensures Distinct(all)
    ensures forall i :: 0 <= i < |trace| ==> Answers(all, trace[i], s.delivered)
    decreases |trace|
  {
    if trace == [] {
      assert all == s.written;
    } else {
      var s' := Apply(s, trace[0]);
      WritesStep(s, trace, all);
      AnswersAreInOrder(s', trace[1..], all);
      forall i | 0 <= i < |trace| ensures Answers(all, trace[i], s.delivered) {
        assert i > 0 ==> Answers(all, trace[1..][i - 1], s'.delivered);
      }
    }
  }

  lemma {:induction false} RepliesIncrease(s: State, trace: seq<Event>, i: nat, j: nat)
    requires Inv(s) && Accepts(s, trace)
    requires i < j < |trace| && trace[i].Received? && trace[j].Received?
    ensures trace[i].reply < trace[j].reply
    decreases |trace|
  {
    var s' := Apply(s, trace[0]);
    if i > 0 {
      RepliesIncrease(s', trace[1..], i - 1, j - 1);
    } else {
      var all := s'.written + Writes(trace[1..]);
      AnswersAreInOrder(s', trace[1..], all);
      assert Answers(all, trace[1..][j - 1], s'.delivered);
    }
  }

  /** What the pipeline promises to a caller, over every accepted trace: the reply
      numbered k reaches the request written k-th, replies are handed out in
      order, and no request is answered twice. */
  lemma {:induction false} RepliesReachTheirRequests(trace: seq<Event>)
    requires Accepts(EMPTY, trace)
    ensures Distinct(Writes(trace))
    ensures forall i :: 0 <= i < |trace| ==> Answers(Writes(trace), trace[i], 0)
    ensures forall i, j :: 0 <= i < j < |trace| && trace[i].Received? && trace[j].Received? ==>
              trace[i].reply < trace[j].reply && trace[i].r != trace[j].r
  {
    var all := Writes(trace);
    assert EMPTY.written + all == all;
    AnswersAreInOrder(EMPTY, trace, all);
    forall i, j | 0 <= i < j < |trace| && trace[i].Received? && trace[j].Received?
      ensures trace[i].reply < trace[j].reply && trace[i].r != trace[j].r
    {
      RepliesIncrease(EMPTY, trace, i, j);
      assert Answers(all, trace[i], 0) && Answers(all, trace[j], 0);
    }
  }
}
