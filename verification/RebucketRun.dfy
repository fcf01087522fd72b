/** rebucketRetries as it runs: map order is arbitrary, each bucket is compacted in its own
    arrays, and the moves are delivered at the end. */
module RebucketRun {
  import opened Common
  import opened Cluster
  import opened Rebucket

  // All pairs of a set of buckets.

  ghost function Sum(ks: set<Conn>, f: Conn -> multiset<Pair>): multiset<Pair> {
    if ks == {} then multiset{}
    else
      var k :| k in ks;
      Sum(ks - {k}, f) + f(k)
  }

  lemma {:induction false} SumRemove(ks: set<Conn>, f: Conn -> multiset<Pair>, k: Conn)
    requires k in ks
    ensures Sum(ks, f) == Sum(ks - {k}, f) + f(k)
    decreases ks
  {
    var j :| j in ks && Sum(ks, f) == Sum(ks - {j}, f) + f(j);
    if j != k {
      SumRemove(ks - {j}, f, k);
      SumRemove(ks - {k}, f, j);
      assert ks - {j} - {k} == ks - {k} - {j};
    }
  }

  lemma {:induction false} SumSame(ks: set<Conn>, f: Conn -> multiset<Pair>, g: Conn -> multiset<Pair>)
    requires forall k :: k in ks ==> f(k) == g(k)
    ensures Sum(ks, f) == Sum(ks, g)
  {
    if ks != {} {
      var k :| k in ks;
      SumRemove(ks, f, k);
      SumRemove(ks, g, k);
      SumSame(ks - {k}, f, g);
    }
  }

  ghost function BagAt(m: map<Conn, Bucket>, cc: Conn): multiset<Pair> {
    if cc in m && Even(m[cc]) then multiset(Plain(m[cc])) else multiset{}
  }

  ghost function Bags(m: map<Conn, Bucket>): Conn -> multiset<Pair> {
    (cc: Conn) => BagAt(m, cc)
  }

  ghost function Total(m: map<Conn, Bucket>): multiset<Pair> {
    Sum(m.Keys, Bags(m))
  }

  lemma SameBag(m: map<Conn, Bucket>, n: map<Conn, Bucket>, c: Conn)
    requires c in m && c in n && m[c] == n[c]
    ensures Bags(m)(c) == Bags(n)(c)
  {
  }

  lemma BagOfBucket(m: map<Conn, Bucket>, cc: Conn)
    requires AllEven(m)
    ensures Even(BucketAt(m, cc)) && BagAt(m, cc) == multiset(Plain(BucketAt(m, cc)))
  {
  }

  /** Replacing one bucket changes the total by that bucket only. */
  lemma {:induction false} TotalChange(m: map<Conn, Bucket>, n: map<Conn, Bucket>, cc: Conn)
    requires m - {cc} == n - {cc}
    ensures Total(m) + BagAt(n, cc) == Total(n) + BagAt(m, cc)
  {
    var rest := (m - {cc}).Keys;
    TotalWithout(m, cc);
    TotalWithout(n, cc);
    forall c | c in rest ensures Bags(m)(c) == Bags(n)(c) {
      assert (m - {cc})[c] == (n - {cc})[c];
      SameBag(m, n, c);
    }
    SumSame(rest, Bags(m), Bags(n));
  }

  lemma {:induction false} TotalWithout(m: map<Conn, Bucket>, cc: Conn)
    ensures Total(m) == Sum((m - {cc}).Keys, Bags(m)) + BagAt(m, cc)
  {
    assert (m - {cc}).Keys == m.Keys - {cc};
    if cc in m {
      SumRemove(m.Keys, Bags(m), cc);
    } else {
      assert m.Keys - {cc} == m.Keys;
    }
  }

  lemma {:induction false} TotalAdd(m: map<Conn, Bucket>, cc: Conn, p: Pair)
    requires AllEven(m)
    ensures AllEven(m[cc := AddTo(BucketAt(m, cc), p)])
    ensures Total(m[cc := AddTo(BucketAt(m, cc), p)]) == Total(m) + multiset{p}
  {
    var b := BucketAt(m, cc);
    var n := m[cc := AddTo(b, p)];
    AddToPlain(b, p);
    assert m - {cc} == n - {cc};
    TotalChange(m, n, cc);
    BagOfBucket(m, cc);
    BagOfBucket(n, cc);
    Cancel(Total(m), Total(n), multiset(Plain(b)), multiset{p});
  }

  lemma {:induction false} Cancel(a: multiset<Pair>, b: multiset<Pair>, x: multiset<Pair>, y: multiset<Pair>)
    requires a + (x + y) == b + x
    ensures b == a + y
  {
    forall e ensures b[e] == (a + y)[e] {
      assert (a + (x + y))[e] == (b + x)[e];
    }
  }

  lemma {:induction false} DeliverConserves(m: map<Conn, Bucket>, ms: seq<Move>)
    requires AllEven(m)
    ensures AllEven(Deliver(m, ms)) && Total(Deliver(m, ms)) == Total(m) + multiset(PairsOf(ms))
  {
    if ms != [] {
      var front, mv := ms[..|ms| - 1], ms[|ms| - 1];
      DeliverConserves(m, front);
      TotalAdd(Deliver(m, front), mv.nc, mv.pair);
    }
  }

  // One bucket, in place.

  /** The arrays start with the pairs `got`. */
  ghost predicate Kept(ix: array<nat>, cm: array<Command>, got: seq<Pair>)
    reads ix, cm
  {
    |got| <= ix.Length == cm.Length && forall k :: 0 <= k < |got| ==> ix[k] == got[k].index && cm[k] == got[k].cmd
  }

  /** The pairs from i on are still those of the bucket. */
  ghost predicate Unread(ix: array<nat>, cm: array<Command>, ps: seq<Pair>, i: nat)
    reads ix, cm
  {
    |ps| == ix.Length == cm.Length && forall k :: i <= k < |ps| ==> ix[k] == ps[k].index && cm[k] == ps[k].cmd
  }

  /** Copies the unit i..e down behind the pairs already kept. No pair behind the unit is written. */
  method Keep(ix: array<nat>, cm: array<Command>, kept: nat, i: nat, e: nat, ghost got: seq<Pair>, ghost ps: seq<Pair>)
    requires kept == |got| <= i <= e < |ps| && Kept(ix, cm, got) && Unread(ix, cm, ps, i)
    modifies ix, cm
    ensures Kept(ix, cm, got + ps[i..e + 1]) && Unread(ix, cm, ps, e + 1)
  {
    for k := i to e + 1
      invariant Kept(ix, cm, got + ps[i..k]) && Unread(ix, cm, ps, k)
    {
      ix[kept + k - i], cm[kept + k - i] := ix[k], cm[k];
    }
  }

  /** The scan for the EXEC of the MULTI at i. */
  method FindEnd(ix: array<nat>, cm: array<Command>, i: nat, ghost ps: seq<Pair>) returns (e: nat)
    requires i < |ps| && Unread(ix, cm, ps, i) && IsMulti(cm[i])
    ensures e == UnitEnd(ps, i)
  {
    var j := i + 1;
    while j < cm.Length && !IsExec(cm[j])
      invariant i < j <= cm.Length
      invariant if j < cm.Length then SpanEnd(ps, i) == SpanEnd(ps, j) else SpanEnd(ps, i) == cm.Length - 1
      decreases cm.Length - j
    {
      j := j + 1;
    }
    e := if j == cm.Length then cm.Length - 1 else j;
  }

  method ChooseUnit(ix: array<nat>, cm: array<Command>, home: Conn, prev: Option<Conn>, pick: nat -> Option<Conn>,
                    i: nat, ghost st: Sorted, ghost ps: seq<Pair>)
    returns (e: nat, nc: Option<Conn>)
    requires i < |ps| && Unread(ix, cm, ps, i) && st.prev == prev
    ensures e == UnitEnd(ps, i) && nc == Target(st, ps, home, pick, i)
  {
    e := i;
    if IsMulti(cm[i]) {
      e := FindEnd(ix, cm, i, ps);
      nc := pick(i);
      if nc.None? {
        nc := Some(home);
      }
    } else {
      nc := if cm[i].slot == INIT_SLOT then prev else None;
      if nc.None? {
        nc := pick(i);
      }
    }
  }

  method AppendMoves(before: seq<Move>, nc: Conn, ix: array<nat>, cm: array<Command>, i: nat, e: nat,
                     ghost ps: seq<Pair>)
    returns (moves: seq<Move>)
    requires i <= e < |ps| && Unread(ix, cm, ps, i)
    ensures moves == before + MovesTo(nc, ps[i..e + 1])
  {
    moves := before;
    for k := i to e + 1
      invariant moves == before + MovesTo(nc, ps[i..k])
    {
      assert ps[i..k + 1][..k - i] == ps[i..k];
      moves := moves + [Move(nc, Pair(ix[k], cm[k]))];
    }
  }

  lemma SortStep(st: Sorted, ps: seq<Pair>, home: Conn, pick: nat -> Option<Conn>, i: nat, e: nat, nc: Option<Conn>,
                 next: Sorted, whole: Sorted)
    requires i < |ps| && e == UnitEnd(ps, i) && nc == Target(st, ps, home, pick, i)
    requires next == Place(st, ps[i..e + 1], home, nc) && Sort(st, ps, home, pick, i) == whole
    ensures Sort(next, ps, home, pick, e + 1) == whole
  {
  }

  lemma SortEnd(st: Sorted, ps: seq<Pair>, home: Conn, pick: nat -> Option<Conn>, whole: Sorted)
    requires Sort(st, ps, home, pick, |ps|) == whole
    ensures st == whole
  {
  }

  method PlaceUnit(ix: array<nat>, cm: array<Command>, home: Conn, kept: nat, moves: seq<Move>, prev: Option<Conn>,
                   i: nat, e: nat, nc: Option<Conn>, ghost ps: seq<Pair>, ghost st: Sorted, ghost next: Sorted)
    returns (kept': nat, moves': seq<Move>, prev': Option<Conn>)
    requires kept == |st.kept| <= i <= e < |ps| && Kept(ix, cm, st.kept) && Unread(ix, cm, ps, i)
    requires moves == st.moves && prev == st.prev && next == Place(st, ps[i..e + 1], home, nc)
    modifies ix, cm
    ensures kept' == |next.kept| <= e + 1 && Kept(ix, cm, next.kept) && Unread(ix, cm, ps, e + 1)
    ensures moves' == next.moves && prev' == next.prev
  {
    kept', moves', prev' := kept, moves, prev;
    if nc.None? || nc.value == home {
      Keep(ix, cm, kept, i, e, st.kept, ps);
      kept' := kept + e + 1 - i;
    } else {
      moves' := AppendMoves(moves, nc.value, ix, cm, i, e, ps);
    }
    if nc.Some? {
      prev' := nc;
    }
  }

  /** The loop over one bucket. It reads every pair before it can be overwritten: what is left
      in the arrays is exactly what the loop on values keeps. */
  method Compact(ix: array<nat>, cm: array<Command>, home: Conn, before: seq<Move>, last: Option<Conn>,
                 pick: nat -> Option<Conn>, ghost ps: seq<Pair>)
    returns (kept: nat, moves: seq<Move>, prev: Option<Conn>)
    requires Unread(ix, cm, ps, 0)
    modifies ix, cm
    ensures var end := Sort(Sorted([], before, last), ps, home, pick, 0);
      kept == |end.kept| && Kept(ix, cm, end.kept) && moves == end.moves && prev == end.prev
  {
    ghost var st := Sorted([], before, last);
    ghost var whole := Sort(st, ps, home, pick, 0);
    moves, prev, kept := before, last, 0;
    var i := 0;
    while i < ix.Length
      invariant kept == |st.kept| <= i <= |ps| && Kept(ix, cm, st.kept) && Unread(ix, cm, ps, i)
      invariant moves == st.moves && prev == st.prev && Sort(st, ps, home, pick, i) == whole
      decreases ix.Length - i
    {
      var e, nc := ChooseUnit(ix, cm, home, prev, pick, i, st, ps);
      ghost var next := Place(st, ps[i..e + 1], home, nc);
      SortStep(st, ps, home, pick, i, e, nc, next, whole);
      kept, moves, prev := PlaceUnit(ix, cm, home, kept, moves, prev, i, e, nc, ps, st, next);
      st, i := next, e + 1;
    }
    SortEnd(st, ps, home, pick, whole);
  }

  // All buckets.

  lemma {:induction false} ZipIs(ixs: seq<nat>, cmds: seq<Command>, got: seq<Pair>)
    requires |ixs| == |cmds| == |got| && forall k :: 0 <= k < |got| ==> ixs[k] == got[k].index && cmds[k] == got[k].cmd
    ensures Zip(ixs, cmds) == got
  {
    forall k | 0 <= k < |got| ensures Zip(ixs, cmds)[k] == got[k] { ZipAt(ixs, cmds, k); }
  }

  ghost predicate SameAsks(b: Bucket, c: Bucket) {
    b.aIndexes == c.aIndexes && b.cAskings == c.cAskings
  }

  ghost predicate AtConn(m: map<Conn, Bucket>, cc: Conn, xs: seq<Pair>) {
    cc in m && Even(m[cc]) && Contains(Plain(m[cc]), xs)
  }

  ghost predicate Somewhere(m: map<Conn, Bucket>, xs: seq<Pair>) {
    exists cc :: AtConn(m, cc, xs)
  }

  /** xs is in one piece in a bucket that is done, or moves in one piece. */
  ghost predicate Settled(m: map<Conn, Bucket>, moves: seq<Move>, left: set<Conn>, xs: seq<Pair>) {
    (exists cc :: cc !in left && AtConn(m, cc, xs)) || exists nc :: Contains(moves, MovesTo(nc, xs))
  }

  /** The buckets after one of them was compacted; an empty one is dropped. */
  function Put(m: map<Conn, Bucket>, cc: Conn, b: Bucket): map<Conn, Bucket> {
    if b.cIndexes == [] && b.cAskings == [] then m - {cc} else m[cc := b]
  }

  lemma PutShape(m: map<Conn, Bucket>, cc: Conn, b: Bucket)
    requires AllEven(m) && cc in m && Even(b) && SameAsks(b, m[cc])
    ensures AllEven(Put(m, cc, b))
    ensures forall c :: SameAsks(BucketAt(Put(m, cc, b), c), BucketAt(m, c))
  {
  }

  lemma {:induction false} PutTotal(m: map<Conn, Bucket>, cc: Conn, b: Bucket)
    requires AllEven(m) && cc in m && Even(b) && AllEven(Put(m, cc, b))
    ensures Total(m) + multiset(Plain(b)) == Total(Put(m, cc, b)) + multiset(Plain(m[cc]))
  {
    var n := Put(m, cc, b);
    assert m - {cc} == n - {cc};
    TotalChange(m, n, cc);
    BagOfBucket(m, cc);
    BagOfBucket(n, cc);
  }

  lemma {:induction false} PutConserves(m: map<Conn, Bucket>, cc: Conn, b: Bucket, st: Sorted, end: Sorted,
                                        ps: seq<Pair>, pick: nat -> Option<Conn>)
    requires AllEven(m) && cc in m && Even(b) && AllEven(Put(m, cc, b)) && st.kept == []
    requires ps == Plain(m[cc]) && end == Sort(st, ps, cc, pick, 0) && Plain(b) == end.kept
    ensures Total(Put(m, cc, b)) + multiset(PairsOf(end.moves)) == Total(m) + multiset(PairsOf(st.moves))
  {
    PutTotal(m, cc, b);
    SortConserves(st, ps, cc, pick, 0, end);
    assert ps[0..] == ps;
    Balance(Total(m), Total(Put(m, cc, b)), multiset(ps), multiset(end.kept),
            multiset(PairsOf(st.moves)), multiset(PairsOf(end.moves)));
  }

  lemma {:induction false} Balance(a: multiset<Pair>, b: multiset<Pair>, x: multiset<Pair>, y: multiset<Pair>,
                                   u: multiset<Pair>, v: multiset<Pair>)
    requires a + y == b + x && y + v == u + x
    ensures b + v == a + u
  {
    forall e ensures (b + v)[e] == (a + u)[e] {
      assert (a + y)[e] == (b + x)[e] && (y + v)[e] == (u + x)[e];
    }
  }

  lemma {:induction false} WholeIsSettled(m: map<Conn, Bucket>, cc: Conn, b: Bucket, end: Sorted, left: set<Conn>,
                                          xs: seq<Pair>)
    requires Even(b) && Plain(b) == end.kept && Whole(end, xs) && xs != [] && cc !in left
    ensures Settled(Put(m, cc, b), end.moves, left, xs)
  {
    if Contains(end.kept, xs) {
      var k: nat :| PieceAt(end.kept, xs, k);
      assert |b.cIndexes| == |end.kept| >= |xs| > 0;
      assert AtConn(Put(m, cc, b), cc, xs);
    }
  }

  /** Whatever was settled before a bucket was compacted stays settled. */
  lemma {:induction false} SettledStays(m: map<Conn, Bucket>, cc: Conn, b: Bucket, st: Sorted, end: Sorted,
                                        ps: seq<Pair>, pick: nat -> Option<Conn>, left: set<Conn>, xs: seq<Pair>)
    requires cc in left && Even(b) && Plain(b) == end.kept && end == Sort(st, ps, cc, pick, 0) && xs != []
    requires Settled(m, st.moves, left, xs)
    ensures Settled(Put(m, cc, b), end.moves, left - {cc}, xs)
  {
    if c :| c !in left && AtConn(m, c, xs) {
      assert AtConn(Put(m, cc, b), c, xs);
    } else {
      assert Whole(st, xs);
      SortKeepsWhole(st, ps, cc, pick, 0, xs);
      WholeIsSettled(m, cc, b, end, left - {cc}, xs);
    }
  }

  /** Every transaction of the bucket is settled. */
  ghost predicate SpansSettled(m: map<Conn, Bucket>, moves: seq<Move>, left: set<Conn>, ps: seq<Pair>) {
    forall i: nat, j: nat :: Span(ps, i, j) ==> Settled(m, moves, left, ps[i..j + 1])
  }

  lemma {:induction false} CompactedSpans(m: map<Conn, Bucket>, cc: Conn, b: Bucket, st: Sorted, end: Sorted,
                                          ps: seq<Pair>, pick: nat -> Option<Conn>, left: set<Conn>)
    requires cc in left && Even(b) && Plain(b) == end.kept && end == Sort(st, ps, cc, pick, 0)
    ensures SpansSettled(Put(m, cc, b), end.moves, left - {cc}, ps)
  {
    forall i: nat, j: nat | Span(ps, i, j) ensures Settled(Put(m, cc, b), end.moves, left - {cc}, ps[i..j + 1]) {
      SortKeepsSpans(st, ps, cc, pick, 0, i, j);
      WholeIsSettled(m, cc, b, end, left - {cc}, ps[i..j + 1]);
    }
  }

  lemma {:induction false} OtherSpans(m: map<Conn, Bucket>, cc: Conn, b: Bucket, st: Sorted, end: Sorted, ps: seq<Pair>,
                                      pick: nat -> Option<Conn>, left: set<Conn>, qs: seq<Pair>)
    requires cc in left && Even(b) && Plain(b) == end.kept && end == Sort(st, ps, cc, pick, 0)
    requires SpansSettled(m, st.moves, left, qs)
    ensures SpansSettled(Put(m, cc, b), end.moves, left - {cc}, qs)
  {
    forall i: nat, j: nat | Span(qs, i, j) ensures Settled(Put(m, cc, b), end.moves, left - {cc}, qs[i..j + 1]) {
      SettledStays(m, cc, b, st, end, ps, pick, left, qs[i..j + 1]);
    }
  }

  /** One bucket goes through the arrays. */
  method CompactBucket(b: Bucket, cc: Conn, before: seq<Move>, last: Option<Conn>, pick: nat -> Option<Conn>)
    returns (b': Bucket, moves: seq<Move>, prev: Option<Conn>)
    requires Even(b)
    ensures Even(b') && SameAsks(b', b)
    ensures Sorted(Plain(b'), moves, prev) == Sort(Sorted([], before, last), Plain(b), cc, pick, 0)
  {
    var n := |b.cIndexes|;
    var ix := new nat[n](i requires 0 <= i < n => b.cIndexes[i]);
    var cm := new Command[n](i requires 0 <= i < n => b.commands[i]);
    ghost var ps := Plain(b);
    forall k | 0 <= k < n ensures ix[k] == ps[k].index && cm[k] == ps[k].cmd { ZipAt(b.cIndexes, b.commands, k); }
    var kept;
    kept, moves, prev := Compact(ix, cm, cc, before, last, pick, ps);
    b' := b.(cIndexes := ix[..kept], commands := cm[..kept]);
    ZipIs(ix[..kept], cm[..kept], Sort(Sorted([], before, last), ps, cc, pick, 0).kept);
  }

  ghost predicate Conserved(m: map<Conn, Bucket>, moves: seq<Move>, was: map<Conn, Bucket>) {
    AllEven(m) && Total(m) + multiset(PairsOf(moves)) == Total(was) &&
    forall c :: SameAsks(BucketAt(m, c), BucketAt(was, c))
  }

  ghost predicate Done(m: map<Conn, Bucket>, moves: seq<Move>, left: set<Conn>, was: map<Conn, Bucket>)
    requires AllEven(was)
  {
    forall c :: c in was && c !in left ==> SpansSettled(m, moves, left, Plain(was[c]))
  }

  lemma {:induction false} PutDone(m: map<Conn, Bucket>, cc: Conn, b: Bucket, st: Sorted, end: Sorted,
                                   pick: nat -> Option<Conn>, left: set<Conn>, was: map<Conn, Bucket>)
    requires AllEven(was) && cc in left && cc in was && Even(b)
    requires Plain(b) == end.kept && end == Sort(st, Plain(was[cc]), cc, pick, 0)
    requires Done(m, st.moves, left, was)
    ensures Done(Put(m, cc, b), end.moves, left - {cc}, was)
  {
    forall c | c in was && c !in left - {cc}
      ensures SpansSettled(Put(m, cc, b), end.moves, left - {cc}, Plain(was[c]))
    {
      if c == cc {
        CompactedSpans(m, cc, b, st, end, Plain(was[cc]), pick, left);
      } else {
        OtherSpans(m, cc, b, st, end, Plain(was[cc]), pick, left, Plain(was[c]));
      }
    }
  }

  lemma {:induction false} SkipDone(m: map<Conn, Bucket>, cc: Conn, moves: seq<Move>, left: set<Conn>,
                                    was: map<Conn, Bucket>)
    requires AllEven(was) && cc in was && was[cc].commands == [] && Done(m, moves, left, was)
    ensures Done(m, moves, left - {cc}, was)
  {
    forall c, i: nat, j: nat | c in was && c !in left - {cc} && Span(Plain(was[c]), i, j)
      ensures Settled(m, moves, left - {cc}, Plain(was[c])[i..j + 1])
    {
      assert c != cc && Settled(m, moves, left, Plain(was[c])[i..j + 1]);
    }
  }

  method RebucketOne(m: map<Conn, Bucket>, cc: Conn, moves: seq<Move>, prev: Option<Conn>, pick: nat -> Option<Conn>,
                     ghost was: map<Conn, Bucket>, ghost left: set<Conn>)
    returns (m': map<Conn, Bucket>, moves': seq<Move>, prev': Option<Conn>)
    requires AllEven(was) && cc in left && cc in was && cc in m && m[cc] == was[cc]
    requires Conserved(m, moves, was) && Done(m, moves, left, was)
    ensures Conserved(m', moves', was) && Done(m', moves', left - {cc}, was)
    ensures forall c :: c != cc && c in m ==> c in m' && m'[c] == m[c]
  {
    var b;
    b, moves', prev' := CompactBucket(m[cc], cc, moves, prev, pick);
    m' := Put(m, cc, b);
    ghost var st, end := Sorted([], moves, prev), Sorted(Plain(b), moves', prev');
    PutShape(m, cc, b);
    PutConserves(m, cc, b, st, end, Plain(was[cc]), pick);
    PutDone(m, cc, b, st, end, pick, left, was);
  }

  method DeliverMoves(m: map<Conn, Bucket>, moves: seq<Move>) returns (r: map<Conn, Bucket>)
    ensures r == Deliver(m, moves)
  {
    r := m;
    for i := 0 to |moves|
      invariant r == Deliver(m, moves[..i])
    {
      var mv := moves[i];
      assert moves[..i + 1][..i] == moves[..i];
      r := r[mv.nc := AddTo(BucketAt(r, mv.nc), mv.pair)];
    }
    assert moves[..|moves|] == moves;
  }

  lemma {:induction false} DeliverSettled(m: map<Conn, Bucket>, moves: seq<Move>, xs: seq<Pair>)
    requires AllEven(m) && Settled(m, moves, {}, xs) && xs != []
    ensures Somewhere(Deliver(m, moves), xs)
  {
    var r := Deliver(m, moves);
    var c :| AtConn(m, c, xs) || Contains(moves, MovesTo(c, xs));
    if AtConn(m, c, xs) {
      DeliverAdds(m, moves, c);
      ContainsMore(Plain(m[c]), Sent(moves, c), xs);
    } else {
      BlockArrives(m, moves, c, xs);
    }
    var k: nat :| PieceAt(Plain(BucketAt(r, c)), xs, k);
    assert BucketAt(r, c) != EMPTY;
    assert AtConn(r, c, xs);
  }

  ghost predicate SpansAt(r: map<Conn, Bucket>, ps: seq<Pair>) {
    forall i: nat, j: nat :: Span(ps, i, j) ==> Somewhere(r, ps[i..j + 1])
  }

  /** Every transaction that was in one bucket in one piece is again. */
  ghost predicate SpansWhole(r: map<Conn, Bucket>, was: map<Conn, Bucket>)
    requires AllEven(was)
  {
    forall cc: Conn :: cc in was ==> SpansAt(r, Plain(was[cc]))
  }

  lemma {:induction false} DeliverDone(m: map<Conn, Bucket>, moves: seq<Move>, was: map<Conn, Bucket>)
    requires AllEven(was) && AllEven(m) && Done(m, moves, {}, was)
    ensures SpansWhole(Deliver(m, moves), was)
  {
    forall cc: Conn | cc in was ensures SpansAt(Deliver(m, moves), Plain(was[cc])) {
      var ps := Plain(was[cc]);
      assert SpansSettled(m, moves, {}, ps);
      forall i: nat, j: nat | Span(ps, i, j) ensures Somewhere(Deliver(m, moves), ps[i..j + 1]) {
        DeliverSettled(m, moves, ps[i..j + 1]);
      }
    }
  }

  /** The whole of rebucketRetries. No pair is lost, doubled or altered, ASK sub-buckets stay as
      they are, and every transaction that was in one piece is in one piece in one bucket. */
  method RebucketRetries(was: map<Conn, Bucket>, pick: Conn -> nat -> Option<Conn>) returns (r: map<Conn, Bucket>)
    requires AllEven(was)
    ensures AllEven(r) && Total(r) == Total(was)
    ensures forall cc :: SameAsks(BucketAt(r, cc), BucketAt(was, cc))
    ensures SpansWhole(r, was)
  {
    var m, moves, prev := was, [], None;
    var left := was.Keys;
    assert Conserved(m, moves, was);
    while left != {}
      invariant left <= was.Keys && Conserved(m, moves, was)
      invariant forall c :: c in left ==> c in m && m[c] == was[c]
      invariant Done(m, moves, left, was)
      decreases left
    {
      var cc :| cc in left;
      if |m[cc].commands| != 0 {
        m, moves, prev := RebucketOne(m, cc, moves, prev, pick(cc), was, left);
      } else {
        SkipDone(m, cc, moves, left, was);
      }
      left := left - {cc};
    }
    DeliverDone(m, moves, was);
    DeliverConserves(m, moves);
    r := DeliverMoves(m, moves);
    forall cc ensures SameAsks(BucketAt(r, cc), BucketAt(was, cc)) { DeliverKeepsAsks(m, moves, cc); }
  }

  // Alignment survives.

  lemma {:induction false} SumMember(ks: set<Conn>, f: Conn -> multiset<Pair>, p: Pair)
    ensures p in Sum(ks, f) <==> exists k :: k in ks && p in f(k)
  {
    if ks != {} {
      var k :| k in ks;
      SumRemove(ks, f, k);
      SumMember(ks - {k}, f, p);
    }
  }

  ghost predicate PairAligned(multi: seq<Command>, p: Pair) {
    p.index < |multi| && p.cmd == multi[p.index]
  }

  ghost predicate AllAligned(multi: seq<Command>, m: map<Conn, Bucket>) {
    forall cc :: cc in m ==> AlignedBucket(multi, m[cc])
  }

  lemma {:induction false} BagAligned(multi: seq<Command>, b: Bucket, p: Pair)
    requires AlignedBucket(multi, b) && p in Plain(b)
    ensures PairAligned(multi, p)
  {
    var k :| 0 <= k < |Plain(b)| && Plain(b)[k] == p;
    ZipAt(b.cIndexes, b.commands, k);
  }

  /** Buckets with the same pairs and the same ASK parts are aligned with the batch if either is. */
  lemma {:induction false} ConservedAligned(multi: seq<Command>, m: map<Conn, Bucket>, r: map<Conn, Bucket>)
    requires AllAligned(multi, m) && AllEven(r) && Total(r) == Total(m)
    requires forall cc :: SameAsks(BucketAt(r, cc), BucketAt(m, cc))
    ensures AllAligned(multi, r)
  {
    forall cc | cc in r ensures AlignedBucket(multi, r[cc]) {
      assert SameAsks(r[cc], BucketAt(m, cc));
      forall k | 0 <= k < |r[cc].cIndexes| ensures PairAligned(multi, Pair(r[cc].cIndexes[k], r[cc].commands[k])) {
        var p := Pair(r[cc].cIndexes[k], r[cc].commands[k]);
        ZipAt(r[cc].cIndexes, r[cc].commands, k);
        PairFromTotal(multi, m, r, cc, p);
      }
      AlignedFromPairs(multi, r[cc]);
    }
  }

  lemma {:induction false} AlignedFromPairs(multi: seq<Command>, b: Bucket)
    requires Even(b) && Aligned(multi, b.aIndexes, b.cAskings)
    requires forall k :: 0 <= k < |b.cIndexes| ==> PairAligned(multi, Pair(b.cIndexes[k], b.commands[k]))
    ensures AlignedBucket(multi, b)
  {
    forall k | 0 <= k < |b.cIndexes| ensures b.cIndexes[k] < |multi| && b.commands[k] == multi[b.cIndexes[k]] {
      assert PairAligned(multi, Pair(b.cIndexes[k], b.commands[k]));
    }
  }

  lemma {:induction false} PairFromTotal(multi: seq<Command>, m: map<Conn, Bucket>, r: map<Conn, Bucket>, cc: Conn,
                                         p: Pair)
    requires AllAligned(multi, m) && cc in r && Even(r[cc]) && p in Plain(r[cc]) && Total(r) == Total(m)
    ensures PairAligned(multi, p)
  {
    SumMember(r.Keys, Bags(r), p);
    assert p in Bags(r)(cc);
    SumMember(m.Keys, Bags(m), p);
    var c :| c in m.Keys && p in Bags(m)(c);
    BagAligned(multi, m[c], p);
  }
}
