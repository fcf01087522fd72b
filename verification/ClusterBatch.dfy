/** A cluster batch over all its rounds. Workers, one per bucket, run interleaved: each sends its
    commands, then takes the results one by one, writes them into the caller's result slice and
    queues redirected or failed commands for the next round. What the servers answer, which way a
    result redirects and where to is arbitrary. */
module ClusterBatch {
  import opened Common
  import opened Cluster
  import opened Rebucket
  import opened RebucketRun
  import PickMulti

  datatype Mode = Stay | Moved | Ask | Retry

  /** What the client makes of one result: the redirect, the connection found for it, whether
      retries are enabled, the delay its policy asks for, and whether the client is closing. */
  datatype Verdict = Verdict(mode: Mode, nc: Conn, retries: bool, delay: int, closing: bool)

  const CLOSING := Outcome(false, false, 0)

  // doresultfn, one result at a time.

  /** The commands and indexes doresultfn works on, its position and its transaction markers. */
  datatype Job = Job(ixs: seq<nat>, cmds: seq<Command>, resps: seq<Reply<Command>>, i: nat, mi: int, ei: int)

  datatype Queues = Queues(buckets: map<Conn, Bucket>, redirects: nat, delay: int)

  predicate Boundary(c: Command) { IsMulti(c) || IsExec(c) }

  function BackFrom(cmds: seq<Command>, i: int): (r: int)
    requires -1 <= i < |cmds|
    ensures -1 <= r <= i && (r >= 0 ==> Boundary(cmds[r]))
    decreases i + 1
  {
    if i < 0 || Boundary(cmds[i]) then i else BackFrom(cmds, i - 1)
  }

  function AheadFrom(cmds: seq<Command>, i: nat): (r: nat)
    requires i <= |cmds|
    ensures i <= r <= |cmds| && (r < |cmds| ==> Boundary(cmds[r]))
    decreases |cmds| - i
  {
    if i == |cmds| || Boundary(cmds[i]) then i else AheadFrom(cmds, i + 1)
  }

  function WithCommands(b: Bucket, mode: Mode, ixs: seq<nat>, cmds: seq<Command>): Bucket {
    if mode.Ask? then b.(aIndexes := b.aIndexes + ixs, cAskings := b.cAskings + cmds)
    else b.(cIndexes := b.cIndexes + ixs, commands := b.commands + cmds)
  }

  /** Appends commands with their indexes to the bucket of nc. */
  function Append(m: map<Conn, Bucket>, nc: Conn, mode: Mode, ixs: seq<nat>, cmds: seq<Command>): map<Conn, Bucket> {
    m[nc := WithCommands(BucketAt(m, nc), mode, ixs, cmds)]
  }

  predicate ValidJob(j: Job) {
    |j.ixs| == |j.cmds| == |j.resps| && j.i <= |j.cmds| && -1 <= j.mi < |j.cmds| && -1 <= j.ei <= |j.cmds|
  }

  predicate InTransaction(j: Job, mi: int, ei: int)
    requires ValidJob(j) && -1 <= mi < |j.cmds| && ei <= |j.cmds|
  {
    0 <= mi && mi <= ei < |j.cmds| && IsMulti(j.cmds[mi]) && IsExec(j.cmds[ei]) && j.resps[mi].o.ok
  }

  function Skips(v: Verdict, cmd: Command): bool {
    v.mode.Stay? || (v.mode.Retry? && (!v.retries || !cmd.retryable))
  }

  /** The markers an iteration leaves: those of the stretch around it, unless it lies within the
      stretch already marked or has nothing to queue. */
  function Marks(j: Job, v: Verdict, hasInit: bool): (m: (int, int))
    requires ValidJob(j) && j.i < |j.cmds|
    ensures -1 <= m.0 < |j.cmds| && -1 <= m.1 <= |j.cmds|
  {
    if !Skips(v, j.cmds[j.i]) && hasInit && j.ei < j.i then (BackFrom(j.cmds, j.i), AheadFrom(j.cmds, j.i))
    else (j.mi, j.ei)
  }

  /** The stretch of the job that an iteration queues: a whole transaction, one command, or none. */
  function Stretch(j: Job, v: Verdict, hasInit: bool): (r: Option<(nat, nat)>)
    requires ValidJob(j) && j.i < |j.cmds|
    ensures r.Some? ==> r.value.0 <= j.i < r.value.1 <= |j.cmds|
  {
    var i, m := j.i, Marks(j, v, hasInit);
    if Skips(v, j.cmds[i]) then None
    else if hasInit && j.ei < i && InTransaction(j, m.0, m.1) then Some((m.0, m.1 + 1))
    else if hasInit && 0 <= m.0 < i < m.1 && IsMulti(j.cmds[m.0]) then None
    else Some((i, i + 1))
  }

  /** The queues with the stretch a..b of a job. Only the retry of a single command is no redirect. */
  function Queued(q: Queues, j: Job, cc: Conn, v: Verdict, a: nat, b: nat): Queues
    requires ValidJob(j) && a <= b <= |j.cmds|
  {
    var retry := v.mode.Retry? && b == a + 1;
    Queues(Append(q.buckets, if v.mode.Retry? then cc else v.nc, v.mode, j.ixs[a..b], j.cmds[a..b]),
           if retry then q.redirects else q.redirects + 1,
           if retry && v.delay > q.delay && v.delay >= 0 then v.delay else q.delay)
  }

  /** The second half of an iteration. */
  function Queue(q: Queues, j: Job, cc: Conn, v: Verdict, hasInit: bool): (r: Queues)
    requires ValidJob(j) && j.i < |j.cmds|
  {
    match Stretch(j, v, hasInit)
    case None => q
    case Some(s) => Queued(q, j, cc, v, s.0, s.1)
  }

  function Write(results: seq<Option<Reply<Command>>>, j: Job, closing: bool): seq<Option<Reply<Command>>>
    requires ValidJob(j) && j.i < |j.cmds| && j.ixs[j.i] < |results|
  {
    results[j.ixs[j.i] := Some(if closing then Reply(j.resps[j.i].to, CLOSING) else j.resps[j.i])]
  }

  // Rounds.

  /** What a worker still has to do with one list of commands. `written` says that the result at
      the current position is already in the result slice. */
  datatype Task = Unsent(ixs: seq<nat>, cmds: seq<Command>) | Running(j: Job, written: bool)

  datatype Phase = Ready | Busy | Finished

  datatype State = State(
    results: seq<Option<Reply<Command>>>,
    q: Queues,
    workers: map<Conn, seq<Task>>,
    phase: Phase)

  /** doretry sends the plain commands first, then the ASK ones. */
  function Tasks(b: Bucket): seq<Task> {
    (if b.commands != [] then [Unsent(b.cIndexes, b.commands)] else []) +
    (if b.cAskings != [] then [Unsent(b.aIndexes, b.cAskings)] else [])
  }

  predicate StartRound(s: State, s': State) {
    s.phase.Ready? &&
    s' == State(s.results, Queues(map[], s.q.redirects, -1), map cc | cc in s.q.buckets :: Tasks(s.q.buckets[cc]), Busy)
  }

  predicate Send(s: State, s': State, cc: Conn, resps: seq<Reply<Command>>) {
    s.phase.Busy? && cc in s.workers && s.workers[cc] != [] && s.workers[cc][0].Unsent? &&
    var t := s.workers[cc][0];
    Answers(t.cmds, resps) &&
    s' == s.(workers := s.workers[cc := [Running(Job(t.ixs, t.cmds, resps, 0, -1, -1), false)] + s.workers[cc][1..]])
  }

  /** The job at the head of a worker, when it is at a result with `written` as given. */
  predicate AtResult(s: State, cc: Conn, written: bool) {
    s.phase.Busy? && cc in s.workers && s.workers[cc] != [] && s.workers[cc][0].Running? &&
    s.workers[cc][0].written == written && ValidJob(s.workers[cc][0].j) &&
    s.workers[cc][0].j.i < |s.workers[cc][0].j.cmds|
  }

  predicate Store(s: State, s': State, cc: Conn, closing: bool) {
    AtResult(s, cc, false) &&
    var j := s.workers[cc][0].j;
    j.ixs[j.i] < |s.results| &&
    s' == s.(results := Write(s.results, j, closing),
             workers := s.workers[cc := [Running(j, true)] + s.workers[cc][1..]])
  }

  predicate Enqueue(s: State, s': State, cc: Conn, v: Verdict, hasInit: bool) {
    AtResult(s, cc, true) &&
    var j := s.workers[cc][0].j;
    var m := Marks(j, v, hasInit);
    s' == s.(q := Queue(s.q, j, cc, v, hasInit),
             workers := s.workers[cc := [Running(j.(i := j.i + 1, mi := m.0, ei := m.1), false)] + s.workers[cc][1..]])
  }

  predicate FinishTask(s: State, s': State, cc: Conn) {
    s.phase.Busy? && cc in s.workers && s.workers[cc] != [] && s.workers[cc][0].Running? &&
    s.workers[cc][0].j.i == |s.workers[cc][0].j.cmds| &&
    s' == s.(workers := s.workers[cc := s.workers[cc][1..]])
  }

  predicate Leave(s: State, s': State, cc: Conn) {
    s.phase.Busy? && cc in s.workers && s.workers[cc] == [] && s' == s.(workers := s.workers - {cc})
  }

  /** The end of a round: return, go on at once after redirects, or go on after the delay with
      the buckets picked again. */
  ghost predicate EndRound(s: State, s': State) {
    s.phase.Busy? && s.workers == map[] &&
    if s.q.buckets == map[] then s' == s.(phase := Finished)
    else if s.q.redirects > 0 then s' == s.(phase := Finished) || s' == s.(phase := Ready, q := s.q.(redirects := 0))
    else if s.q.delay >= 0 then
      AllEven(s'.q.buckets) && Total(s'.q.buckets) == Total(s.q.buckets) &&
      (forall cc :: SameAsks(BucketAt(s'.q.buckets, cc), BucketAt(s.q.buckets, cc))) &&
      s' == s.(phase := Ready, q := s.q.(buckets := s'.q.buckets))
    else s' == s.(phase := Finished)
  }

  datatype Step =
    | DoStart
    | DoSend(cc: Conn, resps: seq<Reply<Command>>)
    | DoStore(cc: Conn, closing: bool)
    | DoEnqueue(cc: Conn, v: Verdict)
    | DoFinish(cc: Conn)
    | DoLeave(cc: Conn)
    | DoEnd

  ghost predicate Next(s: State, s': State, step: Step, hasInit: bool) {
    match step
    case DoStart => StartRound(s, s')
    case DoSend(cc, resps) => Send(s, s', cc, resps)
    case DoStore(cc, closing) => Store(s, s', cc, closing)
    case DoEnqueue(cc, v) => Enqueue(s, s', cc, v, hasInit)
    case DoFinish(cc) => FinishTask(s, s', cc)
    case DoLeave(cc) => Leave(s, s', cc)
    case DoEnd => EndRound(s, s')
  }

  // What every step keeps.

  /** Results sit at the index of the command they answer. */
  ghost predicate Sound(multi: seq<Command>, results: seq<Option<Reply<Command>>>) {
    |results| == |multi| && forall i :: 0 <= i < |results| && results[i].Some? ==> results[i].value.to == multi[i]
  }

  ghost predicate TaskAligned(multi: seq<Command>, results: seq<Option<Reply<Command>>>, t: Task) {
    match t
    case Unsent(ixs, cmds) => Aligned(multi, ixs, cmds)
    case Running(j, written) =>
      ValidJob(j) && Aligned(multi, j.ixs, j.cmds) && Answers(j.cmds, j.resps) &&
      (written ==> j.i < |j.cmds| && j.ixs[j.i] < |results| && results[j.ixs[j.i]].Some?)
  }

  ghost predicate TasksAligned(multi: seq<Command>, results: seq<Option<Reply<Command>>>, ts: seq<Task>) {
    forall k :: 0 <= k < |ts| ==> TaskAligned(multi, results, ts[k])
  }

  /** Index i is among the results a task has yet to take. */
  ghost predicate Holds(t: Task, i: nat) {
    match t
    case Unsent(ixs, _) => i in ixs
    case Running(j, _) => j.i <= |j.ixs| && i in j.ixs[j.i..]
  }

  ghost predicate Pending(ts: seq<Task>, i: nat) {
    exists k :: 0 <= k < |ts| && Holds(ts[k], i)
  }

  ghost predicate AnyPending(ws: map<Conn, seq<Task>>, i: nat) {
    exists cc :: cc in ws && Pending(ws[cc], i)
  }

  ghost predicate Enqueued(m: map<Conn, Bucket>, i: nat) {
    exists cc :: cc in m && i in m[cc].cIndexes
  }

  ghost predicate Complete(results: seq<Option<Reply<Command>>>) {
    forall i :: 0 <= i < |results| ==> results[i].Some?
  }

  /** Every index has a result, or one is still to come. */
  ghost predicate Covered(s: State) {
    match s.phase
    case Ready => Complete(s.results) || forall i :: 0 <= i < |s.results| ==> Enqueued(s.q.buckets, i)
    case Busy => forall i :: 0 <= i < |s.results| ==> s.results[i].Some? || AnyPending(s.workers, i)
    case Finished => Complete(s.results)
  }

  ghost predicate Inv(multi: seq<Command>, s: State) {
    Sound(multi, s.results) && AllAligned(multi, s.q.buckets) && Covered(s) &&
    (forall cc :: cc in s.workers ==> TasksAligned(multi, s.results, s.workers[cc])) &&
    (!s.phase.Busy? ==> s.workers == map[])
  }

  ghost predicate Grows(a: seq<Option<Reply<Command>>>, b: seq<Option<Reply<Command>>>) {
    |a| == |b| && forall i :: 0 <= i < |a| && a[i].Some? ==> b[i].Some?
  }

  lemma {:induction false} GrowsKeepsTasks(multi: seq<Command>, a: seq<Option<Reply<Command>>>,
                                           b: seq<Option<Reply<Command>>>, ts: seq<Task>)
    requires Grows(a, b) && TasksAligned(multi, a, ts)
    ensures TasksAligned(multi, b, ts)
  {
    forall k | 0 <= k < |ts| ensures TaskAligned(multi, b, ts[k]) { assert TaskAligned(multi, a, ts[k]); }
  }

  /** A step of one worker: the others are as before, and nothing it held is forgotten. */
  lemma {:induction false} WorkerStep(multi: seq<Command>, s: State, s': State, cc: Conn, ts: seq<Task>)
    requires Inv(multi, s) && s.phase.Busy? && s'.phase.Busy? && cc in s.workers && s'.workers == s.workers[cc := ts]
    requires Sound(multi, s'.results) && Grows(s.results, s'.results) && AllAligned(multi, s'.q.buckets)
    requires TasksAligned(multi, s'.results, ts)
    requires forall i :: 0 <= i < |multi| && Pending(s.workers[cc], i) ==> Pending(ts, i) || s'.results[i].Some?
    ensures Inv(multi, s')
  {
    forall c | c in s'.workers ensures TasksAligned(multi, s'.results, s'.workers[c]) {
      if c != cc { GrowsKeepsTasks(multi, s.results, s'.results, s.workers[c]); }
    }
    forall i | 0 <= i < |s'.results| ensures s'.results[i].Some? || AnyPending(s'.workers, i) {
      if s'.results[i].None? {
        assert s.results[i].None?;
        var c :| c in s.workers && Pending(s.workers[c], i);
        assert c in s'.workers && Pending(s'.workers[c], i);
      }
    }
  }

  /** A task list whose head changed still holds what it held, if the head does. */
  lemma {:induction false} HeadPending(ts: seq<Task>, t: Task, i: nat)
    requires ts != [] && Pending(ts, i)
    requires Holds(ts[0], i) ==> Holds(t, i)
    ensures Pending([t] + ts[1..], i)
  {
    var k :| 0 <= k < |ts| && Holds(ts[k], i);
    assert Holds(([t] + ts[1..])[k], i);
  }

  lemma {:induction false} SendInv(multi: seq<Command>, s: State, s': State, cc: Conn, resps: seq<Reply<Command>>)
    requires Inv(multi, s) && Send(s, s', cc, resps)
    ensures Inv(multi, s')
  {
    var ts := s.workers[cc];
    var t := Running(Job(ts[0].ixs, ts[0].cmds, resps, 0, -1, -1), false);
    assert TaskAligned(multi, s.results, ts[0]);
    forall i: nat | Pending(ts, i) ensures Pending([t] + ts[1..], i) {
      assert ts[0].ixs[0..] == ts[0].ixs;
      HeadPending(ts, t, i);
    }
    WorkerStep(multi, s, s', cc, [t] + ts[1..]);
  }

  lemma {:induction false} StoreInv(multi: seq<Command>, s: State, s': State, cc: Conn, closing: bool)
    requires Inv(multi, s) && Store(s, s', cc, closing)
    ensures Inv(multi, s')
  {
    var ts := s.workers[cc];
    var j := ts[0].j;
    var t := Running(j, true);
    assert TaskAligned(multi, s.results, ts[0]);
    assert Grows(s.results, s'.results);
    GrowsKeepsTasks(multi, s.results, s'.results, ts);
    forall i: nat | Pending(ts, i) ensures Pending([t] + ts[1..], i) { HeadPending(ts, t, i); }
    WorkerStep(multi, s, s', cc, [t] + ts[1..]);
  }

  lemma AppendAligned(multi: seq<Command>, m: map<Conn, Bucket>, nc: Conn, mode: Mode, ixs: seq<nat>,
                      cmds: seq<Command>)
    requires AllAligned(multi, m) && Aligned(multi, ixs, cmds)
    ensures AllAligned(multi, Append(m, nc, mode, ixs, cmds))
  {
  }

  lemma SliceAligned(multi: seq<Command>, ixs: seq<nat>, cmds: seq<Command>, a: nat, b: nat)
    requires Aligned(multi, ixs, cmds) && a <= b <= |ixs|
    ensures Aligned(multi, ixs[a..b], cmds[a..b])
  {
  }

  /** Queueing from an aligned job keeps every bucket aligned, whatever the verdict. */
  lemma {:induction false} QueueAligned(multi: seq<Command>, q: Queues, j: Job, cc: Conn, v: Verdict, hasInit: bool)
    requires AllAligned(multi, q.buckets) && ValidJob(j) && j.i < |j.cmds| && Aligned(multi, j.ixs, j.cmds)
    ensures AllAligned(multi, Queue(q, j, cc, v, hasInit).buckets)
  {
    match Stretch(j, v, hasInit)
    case None =>
    case Some(s) =>
      SliceAligned(multi, j.ixs, j.cmds, s.0, s.1);
      AppendAligned(multi, q.buckets, if v.mode.Retry? then cc else v.nc, v.mode, j.ixs[s.0..s.1], j.cmds[s.0..s.1]);
  }

  lemma {:induction false} EnqueueInv(multi: seq<Command>, s: State, s': State, cc: Conn, v: Verdict, hasInit: bool)
    requires Inv(multi, s) && Enqueue(s, s', cc, v, hasInit)
    ensures Inv(multi, s')
  {
    var ts := s.workers[cc];
    var j := ts[0].j;
    var m := Marks(j, v, hasInit);
    var t := Running(j.(i := j.i + 1, mi := m.0, ei := m.1), false);
    assert TaskAligned(multi, s.results, ts[0]);
    QueueAligned(multi, s.q, j, cc, v, hasInit);
    forall i | 0 <= i < |multi| && Pending(ts, i) ensures Pending([t] + ts[1..], i) || s'.results[i].Some? {
      assert j.ixs[j.i..] == [j.ixs[j.i]] + j.ixs[j.i + 1..];
      if i != j.ixs[j.i] { HeadPending(ts, t, i); }
    }
    WorkerStep(multi, s, s', cc, [t] + ts[1..]);
  }

  lemma {:induction false} FinishInv(multi: seq<Command>, s: State, s': State, cc: Conn)
    requires Inv(multi, s) && FinishTask(s, s', cc)
    ensures Inv(multi, s')
  {
    var ts := s.workers[cc];
    assert TaskAligned(multi, s.results, ts[0]);
    forall i: nat | Pending(ts, i) ensures Pending(ts[1..], i) {
      var k :| 0 <= k < |ts| && Holds(ts[k], i);
      assert k > 0 && Holds(ts[1..][k - 1], i);
    }
    WorkerStep(multi, s, s', cc, ts[1..]);
  }

  lemma {:induction false} LeaveInv(multi: seq<Command>, s: State, s': State, cc: Conn)
    requires Inv(multi, s) && Leave(s, s', cc)
    ensures Inv(multi, s')
  {
    forall i | 0 <= i < |s'.results| ensures s'.results[i].Some? || AnyPending(s'.workers, i) {
      if s'.results[i].None? {
        var c :| c in s.workers && Pending(s.workers[c], i);
        assert c in s'.workers;
      }
    }
  }

  lemma {:induction false} StartInv(multi: seq<Command>, s: State, s': State)
    requires Inv(multi, s) && StartRound(s, s')
    ensures Inv(multi, s')
  {
    forall i | 0 <= i < |s'.results| ensures s'.results[i].Some? || AnyPending(s'.workers, i) {
      if s'.results[i].None? {
        assert Enqueued(s.q.buckets, i);
        var cc :| cc in s.q.buckets && i in s.q.buckets[cc].cIndexes;
        assert AlignedBucket(multi, s.q.buckets[cc]);
        assert Holds(Tasks(s.q.buckets[cc])[0], i);
        assert Pending(s'.workers[cc], i);
      }
    }
    forall cc | cc in s'.workers ensures TasksAligned(multi, s'.results, s'.workers[cc]) {
      assert AlignedBucket(multi, s.q.buckets[cc]);
    }
  }

  lemma {:induction false} EndInv(multi: seq<Command>, s: State, s': State)
    requires Inv(multi, s) && EndRound(s, s')
    ensures Inv(multi, s')
  {
    assert Complete(s.results);
    if s.q.buckets != map[] && s.q.redirects == 0 && s.q.delay >= 0 {
      ConservedAligned(multi, s.q.buckets, s'.q.buckets);
    }
  }

  lemma {:induction false} StepInv(multi: seq<Command>, s: State, s': State, step: Step, hasInit: bool)
    requires Inv(multi, s) && Next(s, s', step, hasInit)
    ensures Inv(multi, s')
  {
    match step
    case DoStart => StartInv(multi, s, s');
    case DoSend(cc, resps) => SendInv(multi, s, s', cc, resps);
    case DoStore(cc, closing) => StoreInv(multi, s, s', cc, closing);
    case DoEnqueue(cc, v) => EnqueueInv(multi, s, s', cc, v, hasInit);
    case DoFinish(cc) => FinishInv(multi, s, s', cc);
    case DoLeave(cc) => LeaveInv(multi, s, s', cc);
    case DoEnd => EndInv(multi, s, s');
  }

  ghost predicate Run(ss: seq<State>, steps: seq<Step>, hasInit: bool) {
    |ss| == |steps| + 1 && forall k :: 0 <= k < |steps| ==> Next(ss[k], ss[k + 1], steps[k], hasInit)
  }

  lemma {:induction false} RunInv(multi: seq<Command>, ss: seq<State>, steps: seq<Step>, hasInit: bool, k: nat)
    requires Run(ss, steps, hasInit) && Inv(multi, ss[0]) && k < |ss|
    ensures Inv(multi, ss[k])
  {
    if k > 0 {
      RunInv(multi, ss, steps, hasInit, k - 1);
      StepInv(multi, ss[k - 1], ss[k], steps[k - 1], hasInit);
    }
  }

  /** The state in which DoMulti enters its first round. */
  function Initial(multi: seq<Command>, m: map<Conn, Bucket>): State {
    State(seq(|multi|, _ => None), Queues(m, 0, -1), map[], Ready)
  }

  lemma {:induction false} InitialInv(multi: seq<Command>, m: map<Conn, Bucket>, routes: seq<Conn>)
    requires PickMulti.Grouped(m, multi, routes)
    ensures Inv(multi, Initial(multi, m))
  {
    var s := Initial(multi, m);
    forall i | 0 <= i < |s.results| ensures Enqueued(s.q.buckets, i) {
      PickMulti.BucketsPartition(m, multi, routes, i);
    }
    forall cc | cc in m ensures AlignedBucket(multi, m[cc]) { PickMulti.PositionsAre(multi, routes, cc); }
  }

  /** In every run from the picked buckets, every bucket and every worker keeps its commands beside
      their indexes, and when DoMulti returns, each result is there and answers the command at its
      own index. */
  lemma {:induction false} EveryResultAnswersItsCommand(multi: seq<Command>, m: map<Conn, Bucket>, routes: seq<Conn>,
                                                        ss: seq<State>, steps: seq<Step>, hasInit: bool, k: nat)
    requires PickMulti.Grouped(m, multi, routes) && Run(ss, steps, hasInit) && ss[0] == Initial(multi, m) && k < |ss|
    ensures AllAligned(multi, ss[k].q.buckets)
    ensures forall cc :: cc in ss[k].workers ==> TasksAligned(multi, ss[k].results, ss[k].workers[cc])
    ensures Sound(multi, ss[k].results)
    ensures ss[k].phase.Finished? ==>
              forall i :: 0 <= i < |multi| ==> ss[k].results[i].Some? && ss[k].results[i].value.to == multi[i]
  {
    InitialInv(multi, m, routes);
    RunInv(multi, ss, steps, hasInit, k);
  }

  // doresultfn as a whole, with no other worker in between.

  /** What doresultfn is called with, and what the client makes of each result. */
  datatype Pass = Pass(ixs: seq<nat>, cmds: seq<Command>, resps: seq<Reply<Command>>, vs: seq<Verdict>, hasInit: bool)

  predicate ValidPass(p: Pass) {
    |p.ixs| == |p.cmds| == |p.resps| == |p.vs|
  }

  /** The job as iteration i finds it. */
  function JobAt(p: Pass, i: nat): (j: Job)
    requires ValidPass(p) && i <= |p.cmds|
    ensures ValidJob(j) && j.i == i && j.cmds == p.cmds && j.ixs == p.ixs && j.resps == p.resps
  {
    if i == 0 then Job(p.ixs, p.cmds, p.resps, 0, -1, -1)
    else
      var j := JobAt(p, i - 1);
      var m := Marks(j, p.vs[i - 1], p.hasInit);
      j.(i := i, mi := m.0, ei := m.1)
  }

  function StretchAt(p: Pass, i: nat): Option<(nat, nat)>
    requires ValidPass(p) && i < |p.cmds|
  {
    Stretch(JobAt(p, i), p.vs[i], p.hasInit)
  }

  /** The results after the first i iterations. */
  function WriteAll(results: seq<Option<Reply<Command>>>, p: Pass, i: nat): (r: seq<Option<Reply<Command>>>)
    requires ValidPass(p) && i <= |p.cmds| && forall k :: 0 <= k < |p.ixs| ==> p.ixs[k] < |results|
    ensures |r| == |results|
  {
    if i == 0 then results else Write(WriteAll(results, p, i - 1), JobAt(p, i - 1), p.vs[i - 1].closing)
  }

  lemma {:induction false} OthersKept(results: seq<Option<Reply<Command>>>, p: Pass, i: nat, x: nat)
    requires ValidPass(p) && i <= |p.cmds| && (forall k :: 0 <= k < |p.ixs| ==> p.ixs[k] < |results|)
    requires x < |results| && forall k :: 0 <= k < i ==> p.ixs[k] != x
    ensures WriteAll(results, p, i)[x] == results[x]
    decreases i
  {
    if i > 0 { OthersKept(results, p, i - 1, x); }
  }

  function Told(p: Pass, k: nat): Reply<Command>
    requires ValidPass(p) && k < |p.cmds|
  {
    if p.vs[k].closing then Reply(p.resps[k].to, CLOSING) else p.resps[k]
  }

  /** Every index of the list has its own result in the end. */
  lemma {:induction false} WrittenAtIndex(results: seq<Option<Reply<Command>>>, p: Pass, i: nat, k: nat)
    requires ValidPass(p) && k < i <= |p.cmds| && (forall l :: 0 <= l < |p.ixs| ==> p.ixs[l] < |results|)
    requires forall l :: k < l < i ==> p.ixs[l] != p.ixs[k]
    ensures WriteAll(results, p, i)[p.ixs[k]] == Some(Told(p, k))
    decreases i
  {
    if k < i - 1 { WrittenAtIndex(results, p, i - 1, k); }
  }

  lemma {:induction false} WriteAllSound(multi: seq<Command>, results: seq<Option<Reply<Command>>>, p: Pass, i: nat)
    requires Sound(multi, results) && ValidPass(p) && Aligned(multi, p.ixs, p.cmds)
    requires Answers(p.cmds, p.resps) && i <= |p.cmds|
    ensures Sound(multi, WriteAll(results, p, i))
    decreases i
  {
    if i > 0 { WriteAllSound(multi, results, p, i - 1); }
  }

  /** The queues after the first i iterations. */
  function QueueAll(q: Queues, p: Pass, cc: Conn, i: nat): Queues
    requires ValidPass(p) && i <= |p.cmds|
  {
    if i == 0 then q else Queue(QueueAll(q, p, cc, i - 1), JobAt(p, i - 1), cc, p.vs[i - 1], p.hasInit)
  }

  lemma {:induction false} QueueAllAligned(multi: seq<Command>, q: Queues, p: Pass, cc: Conn, i: nat)
    requires AllAligned(multi, q.buckets) && ValidPass(p) && Aligned(multi, p.ixs, p.cmds) && i <= |p.cmds|
    ensures AllAligned(multi, QueueAll(q, p, cc, i).buckets)
    decreases i
  {
    if i > 0 {
      QueueAllAligned(multi, q, p, cc, i - 1);
      QueueAligned(multi, QueueAll(q, p, cc, i - 1), JobAt(p, i - 1), cc, p.vs[i - 1], p.hasInit);
    }
  }

  /** The commands s..e are a transaction. */
  ghost predicate Span(cmds: seq<Command>, s: nat, e: nat) {
    s < e < |cmds| && IsMulti(cmds[s]) && IsExec(cmds[e]) && forall k :: s < k < e ==> !Boundary(cmds[k])
  }

  lemma {:induction false} BackToMulti(cmds: seq<Command>, s: nat, e: nat, i: nat)
    requires Span(cmds, s, e) && s <= i < e
    ensures BackFrom(cmds, i) == s
    decreases i
  {
    if s < i { BackToMulti(cmds, s, e, i - 1); }
  }

  lemma {:induction false} AheadToExec(cmds: seq<Command>, s: nat, e: nat, i: nat)
    requires Span(cmds, s, e) && s < i <= e
    ensures AheadFrom(cmds, i) == e
    decreases e - i
  {
    if i < e { AheadToExec(cmds, s, e, i + 1); }
  }

  lemma {:induction false} AheadStops(cmds: seq<Command>, p: nat, b: nat)
    requires p <= b < |cmds| && Boundary(cmds[b])
    ensures AheadFrom(cmds, p) <= b
    decreases b - p
  {
    if p < b { AheadStops(cmds, p + 1, b); }
  }

  /** The markers come from the last search, and no result with something to queue lies beyond. */
  lemma {:induction false} MarksFrom(p: Pass, i: nat) returns (from: int)
    requires ValidPass(p) && i <= |p.cmds| && p.hasInit
    ensures -1 <= from < i
    ensures from < 0 ==> JobAt(p, i).mi == -1 && JobAt(p, i).ei == -1
    ensures from >= 0 ==> !Skips(p.vs[from], p.cmds[from])
                          && JobAt(p, i).mi == BackFrom(p.cmds, from) && JobAt(p, i).ei == AheadFrom(p.cmds, from)
    ensures forall k :: 0 <= k < i && !Skips(p.vs[k], p.cmds[k]) ==> k <= JobAt(p, i).ei
    decreases i
  {
    from := -1;
    if i > 0 {
      from := MarksFrom(p, i - 1);
      if !Skips(p.vs[i - 1], p.cmds[i - 1]) && JobAt(p, i - 1).ei < i - 1 { from := i - 1; }
    }
  }

  /** Inside a transaction the markers of iteration i are missing, or those of the transaction. */
  lemma {:induction false} MarksInside(p: Pass, s: nat, e: nat, i: nat)
    requires ValidPass(p) && p.hasInit && Span(p.cmds, s, e) && s < i < e
    ensures var j := JobAt(p, i); j.ei < i || (j.mi == s && j.ei == e)
    ensures JobAt(p, i).ei < i ==> forall k :: s < k < i ==> Skips(p.vs[k], p.cmds[k])
  {
    var from := MarksFrom(p, i);
    if from > s {
      BackToMulti(p.cmds, s, e, from);
      AheadToExec(p.cmds, s, e, from);
    } else if from >= 0 {
      AheadStops(p.cmds, from, s);
    }
  }

  /** A command strictly inside a transaction is queued only by an iteration inside it, only with
      the whole transaction, and only when MULTI was answered OK. Otherwise it is not queued at all,
      even if its own result asks for it. */
  lemma {:induction false} TransactionQueuedWhole(p: Pass, s: nat, e: nat, i: nat, k: nat)
    requires ValidPass(p) && p.hasInit && Span(p.cmds, s, e) && i < |p.cmds| && s < k < e
    requires StretchAt(p, i).Some? && StretchAt(p, i).value.0 <= k < StretchAt(p, i).value.1
    ensures s < i < e && StretchAt(p, i) == Some((s, e + 1)) && p.resps[s].o.ok
  {
    var j, m := JobAt(p, i), Marks(JobAt(p, i), p.vs[i], true);
    if i <= s {
      AheadStops(p.cmds, i, s);
    } else if i < e {
      MarksInside(p, s, e, i);
      BackToMulti(p.cmds, s, e, i);
      AheadToExec(p.cmds, s, e, i);
    } else if StretchAt(p, i).value.0 < i {
      BackStops(p.cmds, i, e);
    }
  }

  lemma {:induction false} BackStops(cmds: seq<Command>, i: nat, b: nat)
    requires b <= i < |cmds| && Boundary(cmds[b])
    ensures BackFrom(cmds, i) >= b
    decreases i
  {
    if b < i { BackStops(cmds, i - 1, b); }
  }

  /** The transaction is queued if and only if MULTI was answered OK and the result of a command
      strictly inside asks for it; the first such iteration queues it, and no other. */
  lemma {:induction false} TransactionQueuedOnce(p: Pass, s: nat, e: nat, i: nat)
    requires ValidPass(p) && p.hasInit && Span(p.cmds, s, e) && s < i < e
    ensures StretchAt(p, i) == Some((s, e + 1)) <==>
              p.resps[s].o.ok && !Skips(p.vs[i], p.cmds[i]) && forall k :: s < k < i ==> Skips(p.vs[k], p.cmds[k])
    ensures StretchAt(p, i) != Some((s, e + 1)) ==> StretchAt(p, i) == None
  {
    MarksInside(p, s, e, i);
    BackToMulti(p.cmds, s, e, i);
    AheadToExec(p.cmds, s, e, i);
    var from := MarksFrom(p, i);
  }

  /** MULTI and EXEC follow their own results: each is queued alone exactly when its result asks for
      it, even after its transaction was queued as a whole. */
  lemma {:induction false} MarkersQueuedAlone(p: Pass, i: nat)
    requires ValidPass(p) && p.hasInit && i < |p.cmds| && Boundary(p.cmds[i])
    ensures StretchAt(p, i) == if Skips(p.vs[i], p.cmds[i]) then None else Some((i, i + 1))
  {
    var from := MarksFrom(p, i);
    if from >= 0 { AheadStops(p.cmds, from, i); }
  }

  /** MULTI, SET, EXEC, where MULTI is answered OK or not and the others are told to move. */
  function MovedTransaction(ok: bool, multi: Verdict, moved: Verdict): (p: Pass)
    ensures ValidPass(p)
  {
    var cmds := [Command(["MULTI"], INIT_SLOT, false), Command(["SET", "k", "v"], 1, false),
                 Command(["EXEC"], INIT_SLOT, false)];
    Pass([0, 1, 2], cmds, [Reply(cmds[0], Outcome(false, ok, 0)), Reply(cmds[1], Outcome(false, false, 0)),
                           Reply(cmds[2], Outcome(false, false, 0))], [multi, moved, moved], true)
  }

  /** With MULTI answered OK the transaction is queued, and then its EXEC a second time; otherwise
      SET is dropped and EXEC is queued without it. */
  lemma {:induction false} ExecQueuedOnItsOwn(ok: bool, multi: Verdict, moved: Verdict, p: Pass)
    requires multi.mode.Stay? && moved.mode.Moved? && p == MovedTransaction(ok, multi, moved)
    ensures StretchAt(p, 1) == if ok then Some((0, 3)) else None
    ensures StretchAt(p, 2) == Some((2, 3))
  {
    assert IsMulti(p.cmds[0]) && IsExec(p.cmds[2]) && !Boundary(p.cmds[1]) by {
      assert |p.cmds[1].words| == 3;
    }
    TransactionQueuedOnce(p, 0, 2, 1);
    MarkersQueuedAlone(p, 2);
  }

  lemma {:induction false} AddNext(b: Bucket, mode: Mode, ixs: seq<nat>, cmds: seq<Command>, a: nat, i: nat)
    requires a <= i < |ixs| == |cmds|
    ensures WithCommands(WithCommands(b, mode, ixs[a..i], cmds[a..i]), mode, [ixs[i]], [cmds[i]])
         == WithCommands(b, mode, ixs[a..i + 1], cmds[a..i + 1])
  {
    assert ixs[a..i + 1] == ixs[a..i] + [ixs[i]] && cmds[a..i + 1] == cmds[a..i] + [cmds[i]];
  }

  class Batch {
    const results: array<Option<Reply<Command>>>
    var buckets: map<Conn, Bucket>
    var redirects: nat
    var delay: int

    ghost function Q(): Queues
      reads this
    {
      Queues(buckets, redirects, delay)
    }

    constructor (n: nat, m: map<Conn, Bucket>)
      ensures fresh(results) && results[..] == seq(n, _ => None) && Q() == Queues(m, 0, -1)
    {
      results := new Option<Reply<Command>>[n](_ => None);
      buckets, redirects, delay := m, 0, -1;
    }

    /** The stretch a..b of a job joins the bucket of nc, one command at a time. */
    method AppendAll(nc: Conn, mode: Mode, ixs: seq<nat>, cmds: seq<Command>, a: nat, b: nat)
      requires a <= b <= |ixs| == |cmds|
      modifies this`buckets
      ensures buckets == Append(old(buckets), nc, mode, ixs[a..b], cmds[a..b])
    {
      var nr := BucketAt(buckets, nc);
      ghost var was := nr;
      for i := a to b
        invariant buckets == old(buckets) && nr == WithCommands(was, mode, ixs[a..i], cmds[a..i])
      {
        AddNext(was, mode, ixs, cmds, a, i);
        nr := WithCommands(nr, mode, [ixs[i]], [cmds[i]]);
      }
      buckets := buckets[nc := nr];
    }

    method FindMarkers(cmds: seq<Command>, i: nat) returns (mi: int, ei: nat)
      requires i < |cmds|
      ensures mi == BackFrom(cmds, i) && ei == AheadFrom(cmds, i)
    {
      mi := i;
      while mi >= 0 && !Boundary(cmds[mi])
        invariant -1 <= mi <= i && BackFrom(cmds, mi) == BackFrom(cmds, i)
      {
        mi := mi - 1;
      }
      ei := i;
      while ei < |cmds| && !Boundary(cmds[ei])
        invariant i <= ei <= |cmds| && AheadFrom(cmds, ei) == AheadFrom(cmds, i)
      {
        ei := ei + 1;
      }
    }

    method StoreResult(j: Job, closing: bool)
      requires ValidJob(j) && j.i < |j.cmds| && j.ixs[j.i] < results.Length
      modifies results
      ensures results[..] == Write(old(results[..]), j, closing)
    {
      results[j.ixs[j.i]] := Some(j.resps[j.i]);
      if closing {
        results[j.ixs[j.i]] := Some(Reply(j.resps[j.i].to, CLOSING));
      }
    }

    /** One command or its whole transaction is queued as the verdict says. */
    method QueueResult(j: Job, cc: Conn, v: Verdict, hasInit: bool) returns (mi: int, ei: int)
      requires ValidJob(j) && j.i < |j.cmds|
      modifies this
      ensures Q() == Queue(old(Q()), j, cc, v, hasInit) && (mi, ei) == Marks(j, v, hasInit)
    {
      var i := j.i;
      mi, ei := j.mi, j.ei;
      if v.mode.Stay? || (v.mode.Retry? && (!v.retries || !j.cmds[i].retryable)) {
        return;
      }
      if hasInit && ei < i {
        mi, ei := FindMarkers(j.cmds, i);
        if mi >= 0 && ei < |j.cmds| && IsMulti(j.cmds[mi]) && IsExec(j.cmds[ei]) && j.resps[mi].o.ok {
          QueueWhole(j, cc, v, mi, ei + 1);
          return;
        }
      }
      if hasInit && mi < i < ei && mi >= 0 && IsMulti(j.cmds[mi]) {
        return;
      }
      QueueOne(j, cc, v);
    }

    method QueueWhole(j: Job, cc: Conn, v: Verdict, a: nat, b: nat)
      requires ValidJob(j) && a + 1 < b <= |j.cmds|
      modifies this
      ensures Q() == Queued(old(Q()), j, cc, v, a, b)
    {
      redirects := redirects + 1;
      AppendAll(if v.mode.Retry? then cc else v.nc, v.mode, j.ixs, j.cmds, a, b);
    }

    method QueueOne(j: Job, cc: Conn, v: Verdict)
      requires ValidJob(j) && j.i < |j.cmds|
      modifies this
      ensures Q() == Queued(old(Q()), j, cc, v, j.i, j.i + 1)
    {
      if !v.mode.Retry? {
        redirects := redirects + 1;
      } else if v.delay >= 0 {
        delay := if delay > v.delay then delay else v.delay;
      }
      AppendAll(if v.mode.Retry? then cc else v.nc, v.mode, j.ixs, j.cmds, j.i, j.i + 1);
    }

    /** All results of one list of commands: each lands at its own index, and what is queued, beside
        its indexes, are exactly the stretches of the iterations. */
    method DoResultFn(multi: seq<Command>, p: Pass, cc: Conn)
      requires ValidPass(p) && Aligned(multi, p.ixs, p.cmds) && Answers(p.cmds, p.resps)
      requires Sound(multi, results[..]) && AllAligned(multi, buckets)
      modifies this, results
      ensures Sound(multi, results[..]) && AllAligned(multi, buckets)
      ensures results[..] == WriteAll(old(results[..]), p, |p.cmds|)
      ensures Q() == QueueAll(old(Q()), p, cc, |p.cmds|)
    {
      TakeAll(p, cc);
      WriteAllSound(multi, old(results[..]), p, |p.cmds|);
      QueueAllAligned(multi, old(Q()), p, cc, |p.cmds|);
    }

    method TakeAll(p: Pass, cc: Conn)
      requires ValidPass(p) && forall k :: 0 <= k < |p.ixs| ==> p.ixs[k] < results.Length
      modifies this, results
      ensures results[..] == WriteAll(old(results[..]), p, |p.cmds|)
      ensures Q() == QueueAll(old(Q()), p, cc, |p.cmds|)
    {
      var mi, ei := -1, -1;
      for i := 0 to |p.resps|
        invariant Job(p.ixs, p.cmds, p.resps, i, mi, ei) == JobAt(p, i)
        invariant results[..] == WriteAll(old(results[..]), p, i) && Q() == QueueAll(old(Q()), p, cc, i)
      {
        var j := Job(p.ixs, p.cmds, p.resps, i, mi, ei);
        StoreResult(j, p.vs[i].closing);
        mi, ei := QueueResult(j, cc, p.vs[i], p.hasInit);
      }
    }
  }
}
