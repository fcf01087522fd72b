/** Reads of several keys or commands through the cache: hits are taken from the cache, keys that
    someone is already fetching are waited for, the rest is asked from the server in one rewritten
    command or pipeline, and its replies fill the holes in order. */
module CachedReads {
  import opened Common
  import opened Message
  import LruSpec

  type Flown = LruSpec.Flown

  /** One slot of the result: a message of type 0 without an error is a hole. */
  datatype Cell = Cell(val: Msg, err: Option<LruSpec.Error>)

  const HOLE := Cell(ZERO, None)

  predicate IsHole(c: Cell) { c.val.typ == 0 && c.err.None? }

  // Holes.

  /** How many holes come before i. */
  function Rank(cells: seq<Cell>, i: nat): (r: nat)
    requires i <= |cells|
    ensures r <= i
  {
    if i == 0 then 0 else Rank(cells, i - 1) + (if IsHole(cells[i - 1]) then 1 else 0)
  }

  /** The n-th reply is for the n-th hole. */
  ghost predicate Filled(before: seq<Cell>, after: seq<Cell>, replies: seq<Cell>, n: nat)
    requires n <= |replies|
  {
    |after| == |before| &&
    forall i {:trigger after[i]} {:trigger before[i]} :: 0 <= i < |before| ==>
      after[i] == if IsHole(before[i]) && Rank(before, i) < n then replies[Rank(before, i)] else before[i]
  }

  lemma {:induction false} RankGrows(cells: seq<Cell>, i: nat, j: nat)
    requires i <= j <= |cells|
    ensures Rank(cells, i) <= Rank(cells, j)
    ensures i < j && IsHole(cells[i]) ==> Rank(cells, i) < Rank(cells, j)
    decreases j
  {
    if i < j { RankGrows(cells, i, j - 1); }
  }

  /** Where the search for the next hole stands after n replies: right at the hole just filled,
      behind which nothing was looked at yet, or at the first place not looked at. */
  ghost predicate At(before: seq<Cell>, j: nat, n: nat) {
    j <= |before| && Rank(before, j) <= n &&
    (j == |before| || Rank(before, j) == n || (IsHole(before[j]) && Rank(before, j) + 1 == n))
  }

  lemma {:induction false} FilledNext(before: seq<Cell>, now: seq<Cell>, replies: seq<Cell>, n: nat, j: nat)
    requires n < |replies| && Filled(before, now, replies, n)
    requires j < |before| && IsHole(before[j]) && Rank(before, j) == n
    ensures Filled(before, now[j := replies[n]], replies, n + 1)
  {
    forall i | 0 <= i < |before| && i != j ensures !(IsHole(before[i]) && Rank(before, i) == n) {
      if i < j { RankGrows(before, i, j); } else { RankGrows(before, j, i); }
    }
  }

  lemma {:induction false} FilledUp(before: seq<Cell>, now: seq<Cell>, replies: seq<Cell>, n: nat)
    requires n < |replies| && Filled(before, now, replies, n) && Rank(before, |before|) <= n
    ensures Filled(before, now, replies, n + 1)
  {
    forall i | 0 <= i < |before| && IsHole(before[i]) ensures Rank(before, i) < n { RankGrows(before, i, |before|); }
  }

  /** The nested loops that put replies into holes. The position is not advanced past a hole that
      was just filled, so a reply must not look like a hole itself. */
  method FillHoles(cells: array<Cell>, replies: seq<Cell>)
    requires forall n :: 0 <= n < |replies| ==> !IsHole(replies[n])
    modifies cells
    ensures Filled(old(cells[..]), cells[..], replies, |replies|)
  {
    ghost var before := cells[..];
    var j: nat := 0;
    for n := 0 to |replies|
      invariant At(before, j, n) && Filled(before, cells[..], replies, n)
    {
      j := NextHole(cells, before, replies, n, j);
      if j < cells.Length {
        FilledNext(before, cells[..], replies, n, j);
        cells[j] := replies[n];
      } else {
        FilledUp(before, cells[..], replies, n);
      }
    }
  }

  method NextHole(cells: array<Cell>, ghost before: seq<Cell>, ghost replies: seq<Cell>, ghost n: nat, from: nat)
    returns (j: nat)
    requires n < |replies| && At(before, from, n) && Filled(before, cells[..], replies, n)
    requires forall k :: 0 <= k < |replies| ==> !IsHole(replies[k])
    ensures j <= cells.Length
    ensures if j < cells.Length then IsHole(before[j]) && Rank(before, j) == n else Rank(before, j) <= n
  {
    j := from;
    while j < cells.Length && !IsHole(cells[j])
      invariant At(before, j, n)
      decreases cells.Length - j
    {
      assert cells[j] == cells[..][j];
      j := j + 1;
    }
    if j < cells.Length {
      assert cells[j] == cells[..][j];
    }
  }

  // What the cache said.

  /** How many of the first i positions the cache missed. */
  function MissRank(out: seq<Flown>, i: nat): (r: nat)
    requires i <= |out|
    ensures r <= i
  {
    if i == 0 then 0 else MissRank(out, i - 1) + (if out[i - 1].Miss? then 1 else 0)
  }

  /** The first i positions the cache missed, in order. */
  function Missed(out: seq<Flown>, i: nat): (r: seq<nat>)
    requires i <= |out|
    ensures |r| == MissRank(out, i) && forall n :: 0 <= n < |r| ==> r[n] < i
  {
    if i == 0 then [] else if out[i - 1].Miss? then Missed(out, i - 1) + [i - 1] else Missed(out, i - 1)
  }

  /** The n-th position asked from the server is the one whose rank is n. */
  lemma {:induction false} MissedAt(out: seq<Flown>, i: nat, k: nat)
    requires i < k <= |out| && out[i].Miss?
    ensures MissRank(out, i) < |Missed(out, k)| && Missed(out, k)[MissRank(out, i)] == i
    decreases k
  {
    if i < k - 1 { MissedAt(out, i, k - 1); }
  }

  ghost predicate HitsHaveType(out: seq<Flown>) {
    forall i :: 0 <= i < |out| && out[i].Hit? ==> out[i].v.typ != 0
  }

  /** Exactly the missed positions are holes. */
  ghost predicate HolesAreMisses(cells: seq<Cell>, out: seq<Flown>) {
    |cells| == |out| &&
    forall i {:trigger cells[i]} {:trigger out[i]} :: 0 <= i < |out| ==> (IsHole(cells[i]) <==> out[i].Miss?)
  }

  lemma {:induction false} RankIsMissRank(cells: seq<Cell>, out: seq<Flown>, i: nat)
    requires HolesAreMisses(cells, out) && i <= |out|
    ensures Rank(cells, i) == MissRank(out, i)
  {
    if i > 0 {
      RankIsMissRank(cells, out, i - 1);
      assert IsHole(cells[i - 1]) <==> out[i - 1].Miss?;
    }
  }

  /** The finished result: hits and awaited cells where they were, and at each missed position the
      reply of the same rank. */
  ghost predicate Merged(cells: seq<Cell>, out: seq<Flown>, waited: seq<Cell>, replies: seq<Cell>) {
    |cells| == |out| == |waited| &&
    forall i {:trigger cells[i]} {:trigger out[i]} :: 0 <= i < |out| ==>
      match out[i]
      case Hit(v) => cells[i] == Cell(v, None)
      case Wait(_) => cells[i] == waited[i]
      case Miss => MissRank(out, i) < |replies| && cells[i] == replies[MissRank(out, i)]
  }

  /** The result before the server's replies are in. */
  ghost predicate Awaiting(cells: seq<Cell>, out: seq<Flown>, waited: seq<Cell>) {
    |cells| == |out| == |waited| &&
    forall i {:trigger cells[i]} {:trigger out[i]} :: 0 <= i < |out| ==>
      match out[i]
      case Hit(v) => cells[i] == Cell(v, None)
      case Wait(_) => cells[i] == waited[i]
      case Miss => cells[i] == HOLE
  }

  ghost predicate WaitsSettle(out: seq<Flown>, waited: seq<Cell>) {
    |out| == |waited| && forall i {:trigger out[i]} :: 0 <= i < |out| && out[i].Wait? ==> !IsHole(waited[i])
  }

  lemma {:induction false} FilledIsMerged(before: seq<Cell>, after: seq<Cell>, out: seq<Flown>, waited: seq<Cell>,
                                          replies: seq<Cell>)
    requires HitsHaveType(out) && WaitsSettle(out, waited) && Awaiting(before, out, waited)
    requires |replies| == MissRank(out, |out|) && Filled(before, after, replies, |replies|)
    ensures Merged(after, out, waited, replies)
  {
    assert HolesAreMisses(before, out);
    forall i | 0 <= i < |out| ensures Rank(before, i) == MissRank(out, i) { RankIsMissRank(before, out, i); }
    forall i | 0 <= i < |out| && out[i].Miss? ensures MissRank(out, i) < |replies| {
      MissedAt(out, i, |out|);
    }
  }

  /** If hits and awaited entries are answers to what their position asked, and each reply is one
      to what its rank asked, then every position of the result is answered as a plain read would:
      with an answer to its own key or command, duplicates included. */
  lemma {:induction false} MergeAgreesWithPlainRead(cells: seq<Cell>, out: seq<Flown>, waited: seq<Cell>,
                                                    replies: seq<Cell>, answers: (nat, Cell) -> bool)
    requires Merged(cells, out, waited, replies) && |replies| == MissRank(out, |out|)
    requires forall i :: 0 <= i < |out| && out[i].Hit? ==> answers(i, Cell(out[i].v, None))
    requires forall i :: 0 <= i < |out| && out[i].Wait? ==> answers(i, waited[i])
    requires forall n :: 0 <= n < |replies| ==> answers(Missed(out, |out|)[n], replies[n])
    ensures forall i :: 0 <= i < |out| ==> answers(i, cells[i])
  {
    forall i | 0 <= i < |out| ensures answers(i, cells[i]) {
      if out[i].Miss? {
        MissedAt(out, i, |out|);
        assert answers(Missed(out, |out|)[MissRank(out, i)], replies[MissRank(out, i)]);
      }
    }
  }

  /** Hits into place, then the awaited entries. */
  method Gather(cells: array<Cell>, out: seq<Flown>, waited: seq<Cell>)
    requires cells.Length == |out| == |waited| && forall i :: 0 <= i < |out| ==> cells[i] == HOLE
    modifies cells
    ensures Awaiting(cells[..], out, waited)
  {
    for i := 0 to |out|
      invariant forall k :: 0 <= k < |out| ==> cells[k] == if k < i && out[k].Hit? then Cell(out[k].v, None) else HOLE
    {
      if out[i].Hit? {
        cells[i] := Cell(out[i].v, None);
      }
    }
    for i := 0 to |out|
      invariant forall k :: 0 <= k < |out| ==>
        cells[k] == if out[k].Hit? then Cell(out[k].v, None) else if out[k].Wait? && k < i then waited[k] else HOLE
    {
      if out[i].Wait? {
        cells[i] := waited[i];
      }
    }
  }

  // MGET.

  datatype Exec = Replied(values: seq<Msg>) | Refused(err: LruSpec.Error)

  datatype ReadResult = Values(vs: seq<Msg>) | ReadError(err: LruSpec.Error)

  /** The keys of the rewritten MGET. */
  method Rewrite(keys: seq<LruSpec.Text>, out: seq<Flown>) returns (args: seq<LruSpec.Text>)
    requires |out| == |keys|
    ensures |args| == MissRank(out, |out|)
    ensures forall i :: 0 <= i < |keys| && out[i].Miss? ==>
              MissRank(out, i) < |args| && args[MissRank(out, i)] == keys[i]
  {
    args := [];
    for i := 0 to |keys|
      invariant |args| == MissRank(out, i)
      invariant forall k :: 0 <= k < i && out[k].Miss? ==>
                  MissRank(out, k) < |args| && args[MissRank(out, k)] == keys[k]
    {
      if out[i].Miss? {
        args := args + [keys[i]];
      }
    }
  }

  function CellOf(o: LruSpec.Outcome): Cell {
    match o
    case Value(v) => Cell(v, None)
    case Failed(e) => Cell(ZERO, Some(e))
  }

  ghost predicate ProperOutcomes(out: seq<Flown>, waited: seq<LruSpec.Outcome>) {
    |out| == |waited| &&
    forall i {:trigger out[i]} :: 0 <= i < |out| && out[i].Wait? && waited[i].Value? ==> waited[i].v.typ != 0
  }

  method CellsOf(waited: seq<LruSpec.Outcome>) returns (cells: seq<Cell>)
    ensures |cells| == |waited| && forall i :: 0 <= i < |waited| ==> cells[i] == CellOf(waited[i])
  {
    cells := [];
    for i := 0 to |waited|
      invariant |cells| == i && forall k :: 0 <= k < i ==> cells[k] == CellOf(waited[k])
    {
      cells := cells + [CellOf(waited[i])];
    }
  }

  method MessagesAsCells(ms: seq<Msg>) returns (cells: seq<Cell>)
    ensures |cells| == |ms| && forall i :: 0 <= i < |ms| ==> cells[i] == Cell(ms[i], None)
  {
    cells := [];
    for i := 0 to |ms|
      invariant |cells| == i && forall k :: 0 <= k < i ==> cells[k] == Cell(ms[k], None)
    {
      cells := cells + [Cell(ms[i], None)];
    }
  }

  /** What a successful cached MGET returns for each key. */
  ghost predicate ServesKeys(vs: seq<Msg>, keys: seq<LruSpec.Text>, out: seq<Flown>, waited: seq<LruSpec.Outcome>,
                             args: seq<LruSpec.Text>, reply: seq<Msg>) {
    |vs| == |keys| == |out| == |waited| && |args| == |reply| &&
    forall i {:trigger vs[i]} {:trigger out[i]} :: 0 <= i < |keys| ==>
      match out[i]
      case Hit(v) => vs[i] == v
      case Wait(_) => waited[i] == LruSpec.Value(vs[i])
      case Miss => MissRank(out, i) < |args| && args[MissRank(out, i)] == keys[i] && vs[i] == reply[MissRank(out, i)]
  }

  /** doCacheMGet after the cache was asked. The server answers the rewritten keys one by one; when
      it refuses, the entries of all missed keys are cancelled, so that nobody waits for them. */
  method DoCacheMGet(keys: seq<LruSpec.Text>, out: seq<Flown>, waited: seq<LruSpec.Outcome>,
                     server: seq<LruSpec.Text> -> Exec)
    returns (r: ReadResult, args: seq<LruSpec.Text>, cancelled: seq<LruSpec.Text>)
    requires |keys| == |out| && HitsHaveType(out) && ProperOutcomes(out, waited)
    requires forall ks :: server(ks).Replied? ==>
               |server(ks).values| == |ks| && forall n :: 0 <= n < |ks| ==> server(ks).values[n].typ != 0
    ensures r.Values? ==>
              ServesKeys(r.vs, keys, out, waited, args,
                         if args == [] || server(args).Refused? then [] else server(args).values)
    ensures r.ReadError? ==>
      || (args != [] && server(args) == Refused(r.err))
      || exists i :: 0 <= i < |out| && out[i].Wait? && waited[i] == LruSpec.Failed(r.err)
    ensures args != [] && server(args).Refused? ==>
              r == ReadError(server(args).err) && forall i :: 0 <= i < |keys| && out[i].Miss? ==> keys[i] in cancelled
    ensures args == [] || server(args).Replied? ==> cancelled == []
  {
    args := Rewrite(keys, out);
    cancelled := [];
    var partial: seq<Msg> := [];
    if args != [] {
      var exec := server(args);
      if exec.Refused? {
        return ReadError(exec.err), args, args;
      }
      if |args| == |keys| {
        AllMissed(out, |out|);
        return Values(exec.values), args, [];
      }
      partial := exec.values;
    }
    for i := 0 to |out|
      invariant forall k :: 0 <= k < i && out[k].Wait? ==> waited[k].Value?
    {
      if out[i].Wait? && waited[i].Failed? {
        return ReadError(waited[i].err), args, [];
      }
    }
    var awaited := CellsOf(waited);
    var replies := MessagesAsCells(partial);
    var cells := new Cell[|out|](_ => HOLE);
    Gather(cells, out, awaited);
    ghost var before := cells[..];
    FillHoles(cells, replies);
    FilledIsMerged(before, cells[..], out, awaited, replies);
    var vs := ValuesOf(cells);
    r := Values(vs);
  }

  method ValuesOf(cells: array<Cell>) returns (vs: seq<Msg>)
    ensures |vs| == cells.Length && forall i :: 0 <= i < |vs| ==> vs[i] == cells[..][i].val
  {
    vs := [];
    for i := 0 to cells.Length
      invariant |vs| == i && forall k :: 0 <= k < i ==> vs[k] == cells[k].val
    {
      vs := vs + [cells[i].val];
    }
  }

  lemma {:induction false} AllMissed(out: seq<Flown>, k: nat)
    requires k <= |out| && MissRank(out, k) == k
    ensures forall i :: 0 <= i < k ==> out[i].Miss? && MissRank(out, i) == i
  {
    if k > 0 { AllMissed(out, k - 1); }
  }

  // Pipelines of cached commands.

  /** What is sent for the missed commands. */
  datatype Sent = OptIn | Multi | Pttl(i: nat) | Cmd(i: nat) | Exec

  function Stride(tagged: bool): nat { if tagged then 2 else 5 }

  function Unit(tagged: bool, i: nat): (u: seq<Sent>)
    ensures |u| == Stride(tagged)
  {
    if tagged then [OptIn, Cmd(i)] else [OptIn, Multi, Pttl(i), Cmd(i), Exec]
  }

  function Pipeline(missed: seq<nat>, tagged: bool): (p: seq<Sent>)
    ensures |p| == Stride(tagged) * |missed|
  {
    if missed == [] then [] else Pipeline(missed[..|missed| - 1], tagged) + Unit(tagged, missed[|missed| - 1])
  }

  lemma {:induction false} PipelineAt(missed: seq<nat>, tagged: bool, n: nat, k: nat)
    requires n < |missed| && k < Stride(tagged)
    ensures Stride(tagged) * n + k < |Pipeline(missed, tagged)|
    ensures Pipeline(missed, tagged)[Stride(tagged) * n + k] == Unit(tagged, missed[n])[k]
    decreases |missed|
  {
    if n < |missed| - 1 { PipelineAt(missed[..|missed| - 1], tagged, n, k); }
  }

  /** A reply on the wire: a message, an error of the server, or one of the connection. */
  datatype Resp = Reply(m: Msg) | RedisError(e: LruSpec.Error) | OtherError(e: LruSpec.Error)

  const ABORTED: LruSpec.Error := 0

  /** What an EXEC reply and the reply before it say about the command in the transaction. An
      EXEC reply always has elements; the last one belongs to the command. */
  function Unpack(pre: Resp, exec: Resp): Cell {
    match exec
    case Reply(m) => if m.Values() == [] then Cell(ZERO, Some(ABORTED)) else Cell(m.Values()[|m.Values()| - 1], None)
    case OtherError(e) => Cell(ZERO, Some(e))
    case RedisError(_) => Cell(ZERO, Some(if pre.RedisError? then pre.e else ABORTED))
  }

  function PlainCell(r: Resp): Cell {
    match r
    case Reply(m) => Cell(m, None)
    case RedisError(e) => Cell(ZERO, Some(e))
    case OtherError(e) => Cell(ZERO, Some(e))
  }

  /** The reply of the n-th unit of the pipeline. */
  function UnitReply(resps: seq<Resp>, tagged: bool, n: nat): Cell
    requires Stride(tagged) * (n + 1) <= |resps|
  {
    if tagged then PlainCell(resps[2 * n + 1]) else Unpack(resps[5 * n + 3], resps[5 * n + 4])
  }

  /** The error with which the entry of the n-th unit is cancelled, if it is. Replies and errors of
      a tagged command are the read loop's business, so only errors of the connection cancel there. */
  function UnitCancel(resps: seq<Resp>, tagged: bool, n: nat): Option<LruSpec.Error>
    requires Stride(tagged) * (n + 1) <= |resps|
  {
    if tagged then (match resps[2 * n + 1] case OtherError(e) => Some(e) case _ => None)
    else
      match resps[5 * n + 4]
      case Reply(_) => None
      case OtherError(e) => Some(e)
      case RedisError(_) => Some(if resps[5 * n + 3].RedisError? then resps[5 * n + 3].e else ABORTED)
  }

  /** What a waiter on a cancelled entry is told is what its own position reports. */
  lemma CancelledAsReported(resps: seq<Resp>, tagged: bool, n: nat)
    requires Stride(tagged) * (n + 1) <= |resps| && UnitCancel(resps, tagged, n).Some?
    ensures UnitReply(resps, tagged, n) == Cell(ZERO, UnitCancel(resps, tagged, n))
  {
  }

  /** As a total function: no unit, no cancelling. */
  function CancelAt(resps: seq<Resp>, tagged: bool, n: nat): Option<LruSpec.Error> {
    if Stride(tagged) * (n + 1) <= |resps| then UnitCancel(resps, tagged, n) else None
  }

  /** Exactly the entries of these positions are cancelled, each with this error. */
  ghost predicate Cancels(cancelled: map<nat, LruSpec.Error>, out: seq<Flown>, resps: seq<Resp>, tagged: bool, n: nat) {
    (forall i :: i in cancelled ==> i < |out| && out[i].Miss?) &&
    forall i {:trigger out[i]} {:trigger i in cancelled} :: 0 <= i < |out| && out[i].Miss? ==>
      if MissRank(out, i) < n && CancelAt(resps, tagged, MissRank(out, i)).Some?
      then i in cancelled && CancelAt(resps, tagged, MissRank(out, i)) == Some(cancelled[i])
      else i !in cancelled
  }

  lemma {:induction false} RankOfMissed(out: seq<Flown>, k: nat, n: nat)
    requires k <= |out| && n < |Missed(out, k)|
    ensures out[Missed(out, k)[n]].Miss? && MissRank(out, Missed(out, k)[n]) == n
    decreases k
  {
    if n < |Missed(out, k - 1)| { RankOfMissed(out, k - 1, n); }
  }

  lemma {:induction false} CancelsNext(was: map<nat, LruSpec.Error>, now: map<nat, LruSpec.Error>, out: seq<Flown>,
                                       resps: seq<Resp>, tagged: bool, n: nat, i: nat, err: Option<LruSpec.Error>)
    requires Cancels(was, out, resps, tagged, n) && n < |Missed(out, |out|)| && i == Missed(out, |out|)[n]
    requires err == CancelAt(resps, tagged, n) && now == if err.Some? then was[i := err.value] else was
    ensures Cancels(now, out, resps, tagged, n + 1)
  {
    RankOfMissed(out, |out|, n);
    forall k | 0 <= k < |out| && out[k].Miss? && MissRank(out, k) == n ensures k == i { MissedAt(out, k, |out|); }
  }

  /** The command of the n-th unit of the pipeline. */
  lemma {:induction false} UnitCommand(missed: seq<nat>, sent: seq<Sent>, tagged: bool, n: nat)
    requires sent == Pipeline(missed, tagged) && n < |missed|
    ensures CmdIndex(tagged, n) < |sent| && sent[CmdIndex(tagged, n)] == Cmd(missed[n])
    ensures Stride(tagged) * (n + 1) <= |sent|
  {
    PipelineAt(missed, tagged, n, if tagged then 1 else 3);
    PipelineAt(missed, tagged, n, Stride(tagged) - 1);
  }

  function CmdIndex(tagged: bool, n: nat): nat {
    Stride(tagged) * n + (if tagged then 1 else 3)
  }

  /** The loop that cancels entries whose commands failed. */
  method CancelUnits(out: seq<Flown>, sent: seq<Sent>, resps: seq<Resp>, tagged: bool, count: nat)
    returns (cancelled: map<nat, LruSpec.Error>)
    requires sent == Pipeline(Missed(out, |out|), tagged) && |resps| == |sent| && count == MissRank(out, |out|)
    ensures Cancels(cancelled, out, resps, tagged, count)
  {
    cancelled := map[];
    for n := 0 to count
      invariant Cancels(cancelled, out, resps, tagged, n)
    {
      UnitCommand(Missed(out, |out|), sent, tagged, n);
      ghost var was := cancelled;
      var err := UnitCancel(resps, tagged, n);
      if err.Some? {
        cancelled := cancelled[sent[CmdIndex(tagged, n)].i := err.value];
      }
      CancelsNext(was, cancelled, out, resps, tagged, n, sent[CmdIndex(tagged, n)].i, err);
    }
  }

  /** The command of a missed position is in the pipeline, and its unit's reply is in the cell. */
  ghost predicate MissServed(cell: Cell, out: seq<Flown>, sent: seq<Sent>, resps: seq<Resp>, tagged: bool, i: nat)
    requires i < |out| && |sent| == |resps|
  {
    var n := MissRank(out, i);
    && Stride(tagged) * (n + 1) <= |resps| && CmdIndex(tagged, n) < |sent|
    && sent[CmdIndex(tagged, n)] == Cmd(i) && cell == UnitReply(resps, tagged, n)
  }

  ghost predicate ServesCommands(cells: seq<Cell>, out: seq<Flown>, waited: seq<LruSpec.Outcome>, sent: seq<Sent>,
                                 resps: seq<Resp>, tagged: bool) {
    |cells| == |out| == |waited| && |sent| == |resps| &&
    forall i {:trigger cells[i]} {:trigger out[i]} :: 0 <= i < |out| ==>
      match out[i]
      case Hit(v) => cells[i] == Cell(v, None)
      case Wait(_) => cells[i] == CellOf(waited[i])
      case Miss => MissServed(cells[i], out, sent, resps, tagged, i)
  }

  method BuildPipeline(out: seq<Flown>, tagged: bool) returns (sent: seq<Sent>)
    ensures sent == Pipeline(Missed(out, |out|), tagged)
  {
    sent := [];
    for i := 0 to |out|
      invariant sent == Pipeline(Missed(out, i), tagged)
    {
      if out[i].Miss? {
        var m := Missed(out, i);
        assert Missed(out, i + 1)[..|m|] == m;
        sent := sent + Unit(tagged, i);
      }
    }
  }

  method UnitReplies(resps: seq<Resp>, tagged: bool, count: nat) returns (cells: seq<Cell>)
    requires |resps| == Stride(tagged) * count
    ensures |cells| == count
    ensures forall n :: 0 <= n < count ==>
              Stride(tagged) * (n + 1) <= |resps| && cells[n] == UnitReply(resps, tagged, n)
  {
    cells := [];
    for n := 0 to count
      invariant |cells| == n
      invariant forall k :: 0 <= k < n ==>
                  Stride(tagged) * (k + 1) <= |resps| && cells[k] == UnitReply(resps, tagged, k)
    {
      cells := cells + [UnitReply(resps, tagged, n)];
    }
  }

  /** DoMultiCache after the cache was asked: the pipeline is sent, awaited entries are read, and
      the unit replies fill the holes. */
  method DoMultiCache(out: seq<Flown>, waited: seq<LruSpec.Outcome>, tagged: bool, server: seq<Sent> -> seq<Resp>)
    returns (results: seq<Cell>, sent: seq<Sent>, cancelled: map<nat, LruSpec.Error>)
    requires HitsHaveType(out) && ProperOutcomes(out, waited)
    requires forall s :: |server(s)| == |s| && forall k :: 0 <= k < |s| ==> ProperReply(server(s)[k])
    ensures ServesCommands(results, out, waited, sent, server(sent), tagged)
    ensures Cancels(cancelled, out, server(sent), tagged, MissRank(out, |out|))
  {
    sent := BuildPipeline(out, tagged);
    var resps := server(sent);
    cancelled := CancelUnits(out, sent, resps, tagged, MissRank(out, |out|));
    var awaited := CellsOf(waited);
    var replies := UnitReplies(resps, tagged, MissRank(out, |out|));
    forall n | 0 <= n < |replies| ensures !IsHole(replies[n]) { UnitReplyProper(resps, tagged, n); }
    var cells := new Cell[|out|](_ => HOLE);
    Gather(cells, out, awaited);
    ghost var before := cells[..];
    FillHoles(cells, replies);
    FilledIsMerged(before, cells[..], out, awaited, replies);
    results := cells[..];
    PipelineServes(results, out, waited, awaited, sent, resps, replies, tagged);
  }

  /** Decoded messages have a type, and so have the elements of an EXEC reply. */
  ghost predicate ProperReply(r: Resp) {
    r.Reply? ==> r.m.typ != 0 && forall k :: 0 <= k < |r.m.Values()| ==> r.m.Values()[k].typ != 0
  }

  lemma {:induction false} UnitReplyProper(resps: seq<Resp>, tagged: bool, n: nat)
    requires Stride(tagged) * (n + 1) <= |resps| && forall k :: 0 <= k < |resps| ==> ProperReply(resps[k])
    ensures !IsHole(UnitReply(resps, tagged, n))
  {
    if tagged {
      assert ProperReply(resps[2 * n + 1]);
    } else {
      assert ProperReply(resps[5 * n + 4]);
    }
  }

  lemma {:induction false} PipelineServes(cells: seq<Cell>, out: seq<Flown>, waited: seq<LruSpec.Outcome>,
                                          awaited: seq<Cell>, sent: seq<Sent>, resps: seq<Resp>, replies: seq<Cell>,
                                          tagged: bool)
    requires |awaited| == |waited| && forall i :: 0 <= i < |waited| ==> awaited[i] == CellOf(waited[i])
    requires Merged(cells, out, awaited, replies) && sent == Pipeline(Missed(out, |out|), tagged) && |resps| == |sent|
    requires |replies| == MissRank(out, |out|)
    requires forall n :: 0 <= n < |replies| ==>
               Stride(tagged) * (n + 1) <= |resps| && replies[n] == UnitReply(resps, tagged, n)
    ensures ServesCommands(cells, out, waited, sent, resps, tagged)
  {
    forall i | 0 <= i < |out| && out[i].Miss? ensures MissServed(cells[i], out, sent, resps, tagged, i) {
      MissedAt(out, i, |out|);
      MissServes(cells[i], out, sent, resps, tagged, i);
    }
  }

  lemma {:induction false} MissServes(cell: Cell, out: seq<Flown>, sent: seq<Sent>, resps: seq<Resp>, tagged: bool,
                                      i: nat)
    requires i < |out| && out[i].Miss? && sent == Pipeline(Missed(out, |out|), tagged) && |resps| == |sent|
    requires Stride(tagged) * (MissRank(out, i) + 1) <= |resps| && cell == UnitReply(resps, tagged, MissRank(out, i))
    ensures MissServed(cell, out, sent, resps, tagged, i)
  {
    MissedAt(out, i, |out|);
    UnitCommand(Missed(out, |out|), sent, tagged, MissRank(out, i));
  }

  // Duplicates.

  lemma {:induction false} FlightsKeep(c: LruSpec.Cache, reqs: seq<LruSpec.Request>, now: int, moves: seq<bool>)
    requires LruSpec.Inv(c) && |moves| == |reqs|
    ensures LruSpec.Inv(LruSpec.FlightEach(c, reqs, now, moves).0)
    ensures LruSpec.FlightEach(c, reqs, now, moves).0.open == c.open
  {
    LruSpec.FlightsIsFlightEach(c, c, reqs, now, moves);
    if reqs != [] {
      var n := |reqs| - 1;
      FlightsKeep(c, reqs[..n], now, moves[..n]);
    }
  }

  ghost predicate PendingIn(c: LruSpec.Cache, p: LruSpec.Pair) {
    exists e :: e in c.list && e.Pair() == p && e.Pending()
  }

  lemma {:induction false} MissLeavesPending(c: LruSpec.Cache, reqs: seq<LruSpec.Request>, now: int, moves: seq<bool>,
                                             i: nat)
    requires LruSpec.Inv(c) && c.open && |moves| == |reqs| && i < |reqs|
    requires LruSpec.FlightEach(c, reqs, now, moves).1[i].Miss?
    ensures PendingIn(LruSpec.FlightEach(c, reqs, now, moves).0, reqs[i].p)
    decreases |reqs|
  {
    var n := |reqs| - 1;
    var c1 := LruSpec.FlightEach(c, reqs[..n], now, moves[..n]).0;
    FlightsKeep(c, reqs[..n], now, moves[..n]);
    if i < n {
      MissLeavesPending(c, reqs[..n], now, moves[..n], i);
      LruSpec.FlightKeepsLive(c1, reqs[n].p, reqs[n].ttl, now, moves[n]);
    } else {
      MissIsNew(c1, reqs[n].p, reqs[n].ttl, now, moves[n]);
    }
  }

  lemma {:induction false} MissIsNew(c: LruSpec.Cache, p: LruSpec.Pair, ttl: int, now: int, move: bool)
    requires c.open && LruSpec.Flight(c, p, ttl, now, move).1.Miss?
    ensures PendingIn(LruSpec.Flight(c, p, ttl, now, move).0, p)
  {
    var d := LruSpec.Flight(c, p, ttl, now, move).0;
    assert d.list != [];
    var e := d.list[|d.list| - 1];
    assert e in d.list && e.Pair() == p && e.Pending();
  }

  /** A key or command that repeats within one read is asked from the server once: the cache makes
      the later position wait for the earlier one. */
  lemma {:induction false} RepeatWaits(c: LruSpec.Cache, reqs: seq<LruSpec.Request>, now: int, moves: seq<bool>, i: nat)
    requires LruSpec.Inv(c) && c.open && |moves| == |reqs| && i < |reqs| - 1 && reqs[i].p == reqs[|reqs| - 1].p
    requires LruSpec.FlightEach(c, reqs, now, moves).1[i].Miss?
    ensures LruSpec.FlightEach(c, reqs, now, moves).1[|reqs| - 1].Wait?
  {
    var n := |reqs| - 1;
    var c1 := LruSpec.FlightEach(c, reqs[..n], now, moves[..n]).0;
    FlightsKeep(c, reqs[..n], now, moves[..n]);
    MissLeavesPending(c, reqs[..n], now, moves[..n], i);
    var e :| e in c1.list && e.Pair() == reqs[i].p && e.Pending();
    LruSpec.FindUnique(c1.list, e);
  }
}
