/** Between two rounds of a cluster batch the plain commands are picked again: those that stay
    are compacted in place, the others are moved to their new buckets at the end. */
module Rebucket {
  import opened Common
  import opened Cluster

  /** A command and its index in the batch. */
  datatype Pair = Pair(index: nat, cmd: Command)

  datatype Move = Move(nc: Conn, pair: Pair)

  function Zip(ixs: seq<nat>, cmds: seq<Command>): (ps: seq<Pair>)
    requires |ixs| == |cmds|
    ensures |ps| == |ixs|
  {
    if ixs == [] then [] else
      var n := |ixs| - 1;
      Zip(ixs[..n], cmds[..n]) + [Pair(ixs[n], cmds[n])]
  }

  lemma {:induction false} ZipAt(ixs: seq<nat>, cmds: seq<Command>, i: nat)
    requires |ixs| == |cmds| && i < |ixs|
    ensures Zip(ixs, cmds)[i] == Pair(ixs[i], cmds[i])
  {
    var n := |ixs| - 1;
    if i < n { ZipAt(ixs[..n], cmds[..n], i); }
  }

  predicate Even(b: Bucket) {
    |b.cIndexes| == |b.commands| && |b.aIndexes| == |b.cAskings|
  }

  function Plain(b: Bucket): seq<Pair>
    requires Even(b)
  {
    Zip(b.cIndexes, b.commands)
  }

  // One bucket.

  /** What the loop over a bucket has decided so far. */
  datatype Sorted = Sorted(kept: seq<Pair>, moves: seq<Move>, prev: Option<Conn>)

  /** Where the unit that starts with the MULTI at i ends: at the next EXEC, or with the bucket. */
  function SpanEnd(ps: seq<Pair>, j: nat): (e: nat)
    requires j < |ps|
    ensures j <= e < |ps|
    ensures forall k :: j <= k < e ==> !IsExec(ps[k].cmd)
    ensures e == |ps| - 1 || IsExec(ps[e].cmd)
    decreases |ps| - j
  {
    if IsExec(ps[j].cmd) || j == |ps| - 1 then j else SpanEnd(ps, j + 1)
  }

  /** The end of the unit at i: the unit of a plain command is that command. */
  function UnitEnd(ps: seq<Pair>, i: nat): (e: nat)
    requires i < |ps|
    ensures i <= e < |ps|
  {
    if IsMulti(ps[i].cmd) then SpanEnd(ps, i) else i
  }

  /** The connection for the unit at i. A keyless command follows the previous pick. */
  function Target(st: Sorted, ps: seq<Pair>, home: Conn, pick: nat -> Option<Conn>, i: nat): Option<Conn>
    requires i < |ps|
  {
    if IsMulti(ps[i].cmd) then Some(if pick(i).None? then home else pick(i).value)
    else if ps[i].cmd.slot == INIT_SLOT && st.prev.Some? then st.prev
    else pick(i)
  }

  function MovesTo(nc: Conn, ps: seq<Pair>): (ms: seq<Move>)
    ensures |ms| == |ps|
  {
    if ps == [] then [] else MovesTo(nc, ps[..|ps| - 1]) + [Move(nc, ps[|ps| - 1])]
  }

  function Place(st: Sorted, unit: seq<Pair>, home: Conn, nc: Option<Conn>): Sorted {
    if nc.None? || nc.value == home
    then Sorted(st.kept + unit, st.moves, if nc.Some? then nc else st.prev)
    else Sorted(st.kept, st.moves + MovesTo(nc.value, unit), nc)
  }

  /** The whole loop from unit i on. */
  function Sort(st: Sorted, ps: seq<Pair>, home: Conn, pick: nat -> Option<Conn>, i: nat): Sorted
    requires i <= |ps|
    decreases |ps| - i
  {
    if i == |ps| then st
    else
      var e := UnitEnd(ps, i);
      Sort(Place(st, ps[i..e + 1], home, Target(st, ps, home, pick, i)), ps, home, pick, e + 1)
  }

  function PairsOf(ms: seq<Move>): (ps: seq<Pair>)
    ensures |ps| == |ms|
  {
    if ms == [] then [] else PairsOf(ms[..|ms| - 1]) + [ms[|ms| - 1].pair]
  }

  lemma {:induction false} PairsOfAppend(a: seq<Move>, b: seq<Move>)
    ensures PairsOf(a + b) == PairsOf(a) + PairsOf(b)
  {
    if b == [] {
      assert a + b == a;
    } else {
      var n := |b| - 1;
      PairsOfAppend(a, b[..n]);
      assert (a + b)[..|a + b| - 1] == a + b[..n];
    }
  }

  lemma {:induction false} PairsOfMovesTo(nc: Conn, ps: seq<Pair>)
    ensures PairsOf(MovesTo(nc, ps)) == ps
  {
    if ps != [] {
      PairsOfMovesTo(nc, ps[..|ps| - 1]);
      assert MovesTo(nc, ps)[..|ps| - 1] == MovesTo(nc, ps[..|ps| - 1]);
    }
  }

  /** Everything a loop state holds. */
  ghost function Held(st: Sorted): multiset<Pair> {
    multiset(st.kept) + multiset(PairsOf(st.moves))
  }

  lemma {:induction false} PlaceConserves(st: Sorted, unit: seq<Pair>, home: Conn, nc: Option<Conn>)
    ensures Held(Place(st, unit, home, nc)) == Held(st) + multiset(unit)
  {
    if nc.Some? {
      PairsOfAppend(st.moves, MovesTo(nc.value, unit));
      PairsOfMovesTo(nc.value, unit);
    }
  }

  lemma {:induction false} TailSplits(ps: seq<Pair>, i: nat, e: nat)
    requires i <= e < |ps|
    ensures multiset(ps[i..]) == multiset(ps[i..e + 1]) + multiset(ps[e + 1..])
  {
    assert ps[i..] == ps[i..e + 1] + ps[e + 1..];
  }

  /** The loop neither loses nor invents a pair. */
  lemma {:induction false} SortConserves(st: Sorted, ps: seq<Pair>, home: Conn, pick: nat -> Option<Conn>, i: nat,
                                         end: Sorted)
    requires i <= |ps| && end == Sort(st, ps, home, pick, i)
    ensures Held(end) == Held(st) + multiset(ps[i..])
    decreases |ps| - i
  {
    if i < |ps| {
      var e, nc := UnitEnd(ps, i), Target(st, ps, home, pick, i);
      PlaceConserves(st, ps[i..e + 1], home, nc);
      SortConserves(Place(st, ps[i..e + 1], home, nc), ps, home, pick, e + 1, end);
      TailSplits(ps, i, e);
    }
  }

  // Units stay whole.

  /** xs stands somewhere in ps in one piece. */
  ghost predicate Contains<T>(ps: seq<T>, xs: seq<T>) {
    exists k: nat :: PieceAt(ps, xs, k)
  }

  ghost predicate PieceAt<T>(ps: seq<T>, xs: seq<T>, k: nat) {
    k + |xs| <= |ps| && ps[k..k + |xs|] == xs
  }

  lemma {:induction false} SlicePart<T>(ps: seq<T>, k: nat, l: nat, i: nat, j: nat)
    requires k <= l <= |ps| && i <= j <= l - k
    ensures ps[k..l][i..j] == ps[k + i..k + j]
  {
    forall x | 0 <= x < j - i ensures ps[k..l][i..j][x] == ps[k + i..k + j][x] {}
  }

  lemma {:induction false} ContainsMore<T>(ps: seq<T>, more: seq<T>, xs: seq<T>)
    requires Contains(ps, xs)
    ensures Contains(ps + more, xs)
  {
    var k: nat :| PieceAt(ps, xs, k);
    assert PieceAt(ps + more, xs, k);
  }

  lemma {:induction false} ContainsAfter<T>(before: seq<T>, ps: seq<T>, xs: seq<T>)
    requires Contains(ps, xs)
    ensures Contains(before + ps, xs)
  {
    var k: nat :| PieceAt(ps, xs, k);
    assert PieceAt(before + ps, xs, |before| + k);
  }

  lemma {:induction false} ContainsLast<T>(ps: seq<T>, xs: seq<T>)
    ensures Contains(ps + xs, xs)
  {
    assert PieceAt(ps + xs, xs, |ps|);
  }

  lemma {:induction false} ContainsPart<T>(ps: seq<T>, xs: seq<T>, i: nat, j: nat)
    requires Contains(ps, xs) && i <= j <= |xs|
    ensures Contains(ps, xs[i..j])
  {
    var k: nat :| PieceAt(ps, xs, k);
    SlicePart(ps, k, k + |xs|, i, j);
    assert PieceAt(ps, xs[i..j], k + i);
  }

  /** xs stayed in the bucket in one piece, or moves in one piece to one connection. */
  ghost predicate Whole(st: Sorted, xs: seq<Pair>) {
    Contains(st.kept, xs) || exists nc :: Contains(st.moves, MovesTo(nc, xs))
  }

  lemma {:induction false} PlaceKeepsWhole(st: Sorted, unit: seq<Pair>, home: Conn, nc: Option<Conn>, xs: seq<Pair>)
    requires Whole(st, xs)
    ensures Whole(Place(st, unit, home, nc), xs)
  {
    if Contains(st.kept, xs) {
      ContainsMore(st.kept, unit, xs);
    } else {
      var c :| Contains(st.moves, MovesTo(c, xs));
      if nc.Some? { ContainsMore(st.moves, MovesTo(nc.value, unit), MovesTo(c, xs)); }
    }
  }

  lemma {:induction false} PlaceIsWhole(st: Sorted, unit: seq<Pair>, home: Conn, nc: Option<Conn>)
    ensures Whole(Place(st, unit, home, nc), unit)
  {
    ContainsLast(st.kept, unit);
    if nc.Some? { ContainsLast(st.moves, MovesTo(nc.value, unit)); }
  }

  lemma {:induction false} SortKeepsWhole(st: Sorted, ps: seq<Pair>, home: Conn, pick: nat -> Option<Conn>, i: nat,
                                          xs: seq<Pair>)
    requires i <= |ps| && Whole(st, xs)
    ensures Whole(Sort(st, ps, home, pick, i), xs)
    decreases |ps| - i
  {
    if i < |ps| {
      var e, nc := UnitEnd(ps, i), Target(st, ps, home, pick, i);
      PlaceKeepsWhole(st, ps[i..e + 1], home, nc, xs);
      SortKeepsWhole(Place(st, ps[i..e + 1], home, nc), ps, home, pick, e + 1, xs);
    }
  }

  /** A transaction in a bucket: a MULTI and the commands up to its EXEC. */
  ghost predicate Span(ps: seq<Pair>, a: nat, b: nat) {
    a < b < |ps| && IsMulti(ps[a].cmd) && IsExec(ps[b].cmd) && forall k :: a < k < b ==> !IsExec(ps[k].cmd)
  }

  /** Every transaction at or behind unit i comes through in one piece. */
  lemma {:induction false} SortKeepsSpans(st: Sorted, ps: seq<Pair>, home: Conn, pick: nat -> Option<Conn>, i: nat,
                                          a: nat, b: nat)
    requires i <= a && Span(ps, a, b)
    ensures Whole(Sort(st, ps, home, pick, i), ps[a..b + 1])
    decreases |ps| - i
  {
    var e, nc := UnitEnd(ps, i), Target(st, ps, home, pick, i);
    var unit := ps[i..e + 1];
    var next := Place(st, unit, home, nc);
    if e < a {
      SortKeepsSpans(next, ps, home, pick, e + 1, a, b);
    } else {
      UnitCoversSpan(ps, i, e, a, b);
      PlaceIsWhole(st, unit, home, nc);
      WholePart(next, unit, a - i, b + 1 - i);
      SlicePart(ps, i, e + 1, a - i, b + 1 - i);
      SortKeepsWhole(next, ps, home, pick, e + 1, ps[a..b + 1]);
    }
  }

  lemma UnitCoversSpan(ps: seq<Pair>, i: nat, e: nat, a: nat, b: nat)
    requires i <= a && Span(ps, a, b) && e == UnitEnd(ps, i) && a <= e
    ensures b <= e
  {
  }

  lemma {:induction false} MovesToPart(nc: Conn, ps: seq<Pair>, i: nat, j: nat)
    requires i <= j <= |ps|
    ensures MovesTo(nc, ps)[i..j] == MovesTo(nc, ps[i..j])
  {
    forall k | 0 <= k < j - i ensures MovesTo(nc, ps)[i..j][k] == MovesTo(nc, ps[i..j])[k] {
      MovesToAt(nc, ps, i + k);
      MovesToAt(nc, ps[i..j], k);
    }
  }

  lemma {:induction false} MovesToAt(nc: Conn, ps: seq<Pair>, k: nat)
    requires k < |ps|
    ensures MovesTo(nc, ps)[k] == Move(nc, ps[k])
  {
    if k < |ps| - 1 { MovesToAt(nc, ps[..|ps| - 1], k); }
  }

  lemma {:induction false} WholePart(st: Sorted, xs: seq<Pair>, i: nat, j: nat)
    requires Whole(st, xs) && i <= j <= |xs|
    ensures Whole(st, xs[i..j])
  {
    if Contains(st.kept, xs) {
      ContainsPart(st.kept, xs, i, j);
    } else {
      var nc :| Contains(st.moves, MovesTo(nc, xs));
      ContainsPart(st.moves, MovesTo(nc, xs), i, j);
      MovesToPart(nc, xs, i, j);
    }
  }

  // Delivering the moves.

  function AddTo(b: Bucket, p: Pair): Bucket {
    b.(cIndexes := b.cIndexes + [p.index], commands := b.commands + [p.cmd])
  }

  function BucketAt(m: map<Conn, Bucket>, cc: Conn): Bucket {
    if cc in m then m[cc] else EMPTY
  }

  function Deliver(m: map<Conn, Bucket>, ms: seq<Move>): map<Conn, Bucket> {
    if ms == [] then m
    else
      var before, mv := Deliver(m, ms[..|ms| - 1]), ms[|ms| - 1];
      before[mv.nc := AddTo(BucketAt(before, mv.nc), mv.pair)]
  }

  ghost predicate AllEven(m: map<Conn, Bucket>) {
    forall cc :: cc in m ==> Even(m[cc])
  }

  lemma {:induction false} DeliverEven(m: map<Conn, Bucket>, ms: seq<Move>)
    requires AllEven(m)
    ensures AllEven(Deliver(m, ms))
  {
    if ms != [] { DeliverEven(m, ms[..|ms| - 1]); }
  }

  /** ASK sub-buckets are not touched by a delivery. */
  lemma {:induction false} DeliverKeepsAsks(m: map<Conn, Bucket>, ms: seq<Move>, cc: Conn)
    ensures BucketAt(Deliver(m, ms), cc).aIndexes == BucketAt(m, cc).aIndexes
    ensures BucketAt(Deliver(m, ms), cc).cAskings == BucketAt(m, cc).cAskings
  {
    if ms != [] { DeliverKeepsAsks(m, ms[..|ms| - 1], cc); }
  }

  lemma {:induction false} AddToPlain(b: Bucket, p: Pair)
    requires Even(b)
    ensures Even(AddTo(b, p)) && Plain(AddTo(b, p)) == Plain(b) + [p]
  {
    var c := AddTo(b, p);
    assert c.cIndexes[..|b.cIndexes|] == b.cIndexes && c.commands[..|b.commands|] == b.commands;
  }

  /** What a delivery adds to one bucket: the pairs sent there, in order. */
  function Sent(ms: seq<Move>, cc: Conn): seq<Pair> {
    if ms == [] then []
    else if ms[|ms| - 1].nc == cc then Sent(ms[..|ms| - 1], cc) + [ms[|ms| - 1].pair]
    else Sent(ms[..|ms| - 1], cc)
  }

  lemma {:induction false} DeliverAdds(m: map<Conn, Bucket>, ms: seq<Move>, cc: Conn)
    requires AllEven(m)
    ensures AllEven(Deliver(m, ms)) && Plain(BucketAt(Deliver(m, ms), cc)) == Plain(BucketAt(m, cc)) + Sent(ms, cc)
  {
    DeliverEven(m, ms);
    if ms == [] {
      assert Plain(BucketAt(m, cc)) + [] == Plain(BucketAt(m, cc));
    } else {
      var front, mv := ms[..|ms| - 1], ms[|ms| - 1];
      DeliverAdds(m, front, cc);
      if mv.nc == cc { AddToPlain(BucketAt(Deliver(m, front), cc), mv.pair); }
    }
  }

  lemma {:induction false} SentAppend(a: seq<Move>, b: seq<Move>, cc: Conn)
    ensures Sent(a + b, cc) == Sent(a, cc) + Sent(b, cc)
  {
    if b == [] {
      assert a + b == a;
    } else {
      assert (a + b)[..|a + b| - 1] == a + b[..|b| - 1];
      SentAppend(a, b[..|b| - 1], cc);
    }
  }

  lemma {:induction false} SentMovesTo(nc: Conn, ps: seq<Pair>)
    ensures Sent(MovesTo(nc, ps), nc) == ps
  {
    if ps != [] {
      assert MovesTo(nc, ps)[..|ps| - 1] == MovesTo(nc, ps[..|ps| - 1]);
      SentMovesTo(nc, ps[..|ps| - 1]);
    }
  }

  lemma {:induction false} SentBlock(ms: seq<Move>, nc: Conn, xs: seq<Pair>)
    requires Contains(ms, MovesTo(nc, xs))
    ensures Contains(Sent(ms, nc), xs)
  {
    var block := MovesTo(nc, xs);
    var k: nat :| PieceAt(ms, block, k);
    var a, c := ms[..k], ms[k + |xs|..];
    assert ms == (a + block) + c;
    SentAppend(a + block, c, nc);
    SentAppend(a, block, nc);
    SentMovesTo(nc, xs);
    ContainsLast(Sent(a, nc), xs);
    ContainsMore(Sent(a, nc) + xs, Sent(c, nc), xs);
  }

  /** A block that moves to one connection arrives there in one piece. */
  lemma {:induction false} BlockArrives(m: map<Conn, Bucket>, ms: seq<Move>, nc: Conn, xs: seq<Pair>)
    requires AllEven(m) && Contains(ms, MovesTo(nc, xs))
    ensures AllEven(Deliver(m, ms)) && Contains(Plain(BucketAt(Deliver(m, ms), nc)), xs)
  {
    SentBlock(ms, nc, xs);
    DeliverAdds(m, ms, nc);
    ContainsAfter(Plain(BucketAt(m, nc)), Sent(ms, nc), xs);
  }
}
