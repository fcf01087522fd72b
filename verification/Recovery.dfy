/** Replays after a connection outlived its configured lifetime: the plain batch restarts where
    its transaction tracker says, the ASK batch at its last ASKING. */
module Recovery {
  import opened Common
  import opened Cluster

  // Either kind of batch.

  function FirstExpired<T>(resps: seq<Reply<T>>, k: nat): (r: Option<nat>)
    requires k <= |resps|
    ensures r.Some? ==> r.value < k && resps[r.value].o.expired
  {
    if k == 0 then None
    else
      var before := FirstExpired(resps, k - 1);
      if before.Some? then before else if resps[k - 1].o.expired then Some(k - 1) else None
  }

  /** The results after a replay of the commands from `start` on. */
  function Replayed<T>(cmds: seq<T>, resps: seq<Reply<T>>, start: nat, server: nat -> Outcome,
                       n: nat): (r: seq<Reply<T>>)
    requires start <= |cmds| == |resps|
  {
    var rs := Execute(cmds[start..], server, n);
    resps[..|resps| - |rs|] + rs
  }

  /** A replay from any point keeps every result beside its command. */
  lemma ReplayKeepsAnswers<T>(cmds: seq<T>, resps: seq<Reply<T>>, start: nat, server: nat -> Outcome, n: nat)
    requires start <= |cmds| && Answers(cmds, resps)
    ensures Answers(cmds, Replayed(cmds, resps, start, server, n))
    ensures Replayed(cmds, resps, start, server, n)[..start] == resps[..start]
  {
  }

  // The plain batch.

  /** The MULTI that is still open before command i. */
  function OpenAt(cmds: seq<Command>, i: nat): (r: Option<nat>)
    requires i <= |cmds|
    ensures r.Some? ==> r.value < i && IsMulti(cmds[r.value])
    ensures r.Some? ==> forall j :: r.value < j < i ==> !IsMulti(cmds[j]) && !IsExec(cmds[j])
  {
    if i == 0 then None
    else if IsMulti(cmds[i - 1]) then Some(i - 1)
    else if IsExec(cmds[i - 1]) then None
    else OpenAt(cmds, i - 1)
  }

  /** The tracker of doretry, in which 0 stands for "no transaction". */
  function TxIdx(cmds: seq<Command>, i: nat): (r: nat)
    requires i <= |cmds|
    ensures r <= i
  {
    if i == 0 then 0
    else if IsMulti(cmds[i - 1]) then i - 1
    else if IsExec(cmds[i - 1]) then 0
    else TxIdx(cmds, i - 1)
  }

  /** Where the replay starts when result i is the first expired one. */
  function RestartAt(cmds: seq<Command>, i: nat): (start: nat)
    requires i < |cmds|
    ensures start <= i
  {
    if TxIdx(cmds, i) > 0 then TxIdx(cmds, i) else i
  }

  lemma {:induction false} TxIdxTracksOpen(cmds: seq<Command>, i: nat)
    requires i <= |cmds|
    ensures TxIdx(cmds, i) == match OpenAt(cmds, i) case Some(j) => j case None => 0
  {
    if i > 0 { TxIdxTracksOpen(cmds, i - 1); }
  }

  /** Where a replay belongs: the MULTI of the transaction it interrupts, or the expired command
      outside one. */
  function HeadOf(cmds: seq<Command>, i: nat): (h: nat)
    requires i < |cmds|
    ensures h <= i
  {
    match OpenAt(cmds, i)
    case Some(j) => j
    case None => i
  }

  /** The replay starts there exactly when that head is not the first command of the batch. */
  lemma {:induction false} RestartIsHead(cmds: seq<Command>, i: nat)
    requires i < |cmds|
    ensures RestartAt(cmds, i) == HeadOf(cmds, i) <==> OpenAt(cmds, i) != Some(0)
    ensures OpenAt(cmds, i) == Some(0) ==> RestartAt(cmds, i) == i > 0
  {
    TxIdxTracksOpen(cmds, i);
  }

  /** For a caller, before the batch is sent: whichever result expires, the replay starts where it
      belongs, if and only if the batch does not begin with a MULTI that other commands follow. */
  lemma {:induction false} RestartsAreHeads(cmds: seq<Command>)
    ensures (forall i :: 0 <= i < |cmds| ==> RestartAt(cmds, i) == HeadOf(cmds, i))
       <==> !(|cmds| > 1 && IsMulti(cmds[0]))
  {
    if |cmds| > 1 && IsMulti(cmds[0]) {
      RestartIsHead(cmds, 1);
      assert OpenAt(cmds, 1) == Some(0);
    } else {
      forall i | 0 <= i < |cmds| ensures RestartAt(cmds, i) == HeadOf(cmds, i) {
        RestartIsHead(cmds, i);
      }
    }
  }

  const FRONT_TRANSACTION :=
    [Command(["MULTI"], INIT_SLOT, false), Command(["SET", "k", "v"], 1, false), Command(["EXEC"], INIT_SLOT, false)]

  /** A transaction at the front of the batch is replayed from its middle. */
  lemma {:induction false} FrontTransactionIsCut()
    ensures OpenAt(FRONT_TRANSACTION, 1) == Some(0) && RestartAt(FRONT_TRANSACTION, 1) == 1
  {
    assert IsMulti(FRONT_TRANSACTION[0]);
    TxIdxTracksOpen(FRONT_TRANSACTION, 1);
  }

  /** The scan for an expired result. */
  method FindRestart(cmds: seq<Command>, resps: seq<Reply<Command>>) returns (start: nat)
    requires |resps| == |cmds|
    ensures start <= |cmds|
    ensures match FirstExpired(resps, |resps|)
      case Some(i) => start == RestartAt(cmds, i)
      case None => start == |cmds|
  {
    var txIdx := 0;
    for i := 0 to |resps|
      invariant FirstExpired(resps, i).None? && txIdx == TxIdx(cmds, i)
    {
      if resps[i].o.expired {
        FoundStays(resps, i + 1, |resps|);
        TxIdxTracksOpen(cmds, i);
        return if txIdx > 0 then txIdx else i;
      }
      if IsMulti(cmds[i]) {
        txIdx := i;
      } else if IsExec(cmds[i]) {
        txIdx := 0;
      }
    }
    start := |cmds|;
  }

  lemma {:induction false} FoundStays<T>(resps: seq<Reply<T>>, i: nat, k: nat)
    requires i <= k <= |resps| && FirstExpired(resps, i).Some?
    ensures FirstExpired(resps, k) == FirstExpired(resps, i)
    decreases k
  {
    if i < k { FoundStays(resps, i, k - 1); }
  }

  /** At most `turns` replays, however often results keep expiring. */
  method Recover(cmds: seq<Command>, first: seq<Reply<Command>>, server: nat -> Outcome, turns: nat)
    returns (resps: seq<Reply<Command>>, used: nat)
    requires Answers(cmds, first)
    ensures Answers(cmds, resps) && used <= turns
    ensures used < turns ==> NoneExpired(resps, |resps|)
  {
    resps, used := first, 0;
    var sent: nat := 0;
    while used < turns
      invariant Answers(cmds, resps) && used <= turns
    {
      var start := FindRestart(cmds, resps);
      if start == |cmds| {
        NotFoundMeansNone(resps, |resps|);
        return;
      }
      ReplayKeepsAnswers(cmds, resps, start, server, sent);
      resps := Replayed(cmds, resps, start, server, sent);
      sent, used := sent + |cmds| - start, used + 1;
    }
  }

  // The ASK batch.

  datatype Item = Asking | User(cmd: Command)

  /** Whether command k of the batch continues a transaction. */
  predicate InTx(multi: seq<Command>, k: nat)
    requires k <= |multi|
  {
    if k == 0 then false else if InTx(multi, k - 1) then !IsExec(multi[k - 1]) else IsMulti(multi[k - 1])
  }

  /** The first k commands with an ASKING before each one that starts a unit. */
  function Expand(multi: seq<Command>, k: nat): seq<Item>
    requires k <= |multi|
  {
    if k == 0 then []
    else if InTx(multi, k - 1) then Expand(multi, k - 1) + [User(multi[k - 1])]
    else Expand(multi, k - 1) + [Asking, User(multi[k - 1])]
  }

  /** The command that starts the unit command k belongs to. */
  function UnitHead(multi: seq<Command>, k: nat): (h: nat)
    requires k < |multi|
    ensures h <= k && !InTx(multi, h)
  {
    if InTx(multi, k) then UnitHead(multi, k - 1) else k
  }

  /** A unit of more than one command is a transaction that is not yet over. */
  lemma {:induction false} UnitIsTransaction(multi: seq<Command>, k: nat, j: nat)
    requires k < |multi| && UnitHead(multi, k) < k && UnitHead(multi, k) < j < k
    ensures IsMulti(multi[UnitHead(multi, k)]) && !IsExec(multi[j])
    decreases k
  {
    if j < k - 1 {
      UnitIsTransaction(multi, k - 1, j);
    } else {
      UnitStartsWithMulti(multi, k);
    }
  }

  lemma {:induction false} UnitStartsWithMulti(multi: seq<Command>, k: nat)
    requires k < |multi| && UnitHead(multi, k) < k
    ensures IsMulti(multi[UnitHead(multi, k)])
  {
    if UnitHead(multi, k - 1) < k - 1 { UnitStartsWithMulti(multi, k - 1); }
  }

  /** The index askingMulti holds when it looks at result i. */
  function LastAsking(items: seq<Item>, i: nat): (r: nat)
    requires i < |items|
    ensures r <= i
  {
    if items[i].Asking? || i == 0 then i else LastAsking(items, i - 1)
  }

  lemma {:induction false} ExpandGrows(multi: seq<Command>, k: nat, n: nat)
    requires k <= n <= |multi|
    ensures |Expand(multi, k)| <= |Expand(multi, n)| && Expand(multi, n)[..|Expand(multi, k)|] == Expand(multi, k)
    decreases n
  {
    if k < n {
      ExpandGrows(multi, k, n - 1);
      var shorter, longer := Expand(multi, n - 1), Expand(multi, n);
      assert longer[..|shorter|] == shorter;
      assert longer[..|Expand(multi, k)|] == shorter[..|Expand(multi, k)|];
    }
  }

  lemma {:induction false} LastAskingLocal(a: seq<Item>, b: seq<Item>, i: nat)
    requires i < |a| <= |b| && b[..|a|] == a
    ensures LastAsking(b, i) == LastAsking(a, i)
    decreases i
  {
    assert b[i] == b[..|a|][i];
    if i > 0 { LastAskingLocal(a, b, i - 1); }
  }

  /** The last item of command k looks back to the ASKING of its unit's head. */
  lemma {:induction false} UnitAsking(multi: seq<Command>, k: nat, e: seq<Item>)
    requires k < |multi| && e == Expand(multi, k + 1)
    ensures |e| > 0 && LastAsking(e, |e| - 1) == |Expand(multi, UnitHead(multi, k))|
    decreases k
  {
    var d := Expand(multi, k);
    if InTx(multi, k) {
      UnitAsking(multi, k - 1, d);
      TailLooksBack(d, e, User(multi[k]));
    } else {
      assert e[|d|] == Asking && e[|d| + 1] == User(multi[k]);
    }
  }

  lemma {:induction false} TailLooksBack(d: seq<Item>, e: seq<Item>, item: Item)
    requires d != [] && e == d + [item] && item.User?
    ensures LastAsking(e, |e| - 1) == LastAsking(d, |d| - 1)
  {
    assert e[..|d|] == d && e[|d|] == item;
    LastAskingLocal(d, e, |d| - 1);
  }

  /** Items stay where they are while the batch is extended. */
  lemma {:induction false} ItemStays(multi: seq<Command>, k: nat, n: nat, p: nat, item: Item)
    requires k <= n <= |multi| && p < |Expand(multi, k)| && Expand(multi, k)[p] == item
    ensures p < |Expand(multi, n)| && Expand(multi, n)[p] == item
    decreases n
  {
    if k < n { ItemStays(multi, k, n - 1, p, item); }
  }

  /** The items of a command that starts a unit. */
  lemma {:induction false} HeadItems(multi: seq<Command>, all: seq<Item>, h: nat, p: nat)
    requires h < |multi| && !InTx(multi, h) && all == Expand(multi, |multi|) && p == |Expand(multi, h)|
    ensures p + 1 < |all| && all[p] == Asking && all[p + 1] == User(multi[h])
  {
    ItemStays(multi, h + 1, |multi|, p, Asking);
    ItemStays(multi, h + 1, |multi|, p + 1, User(multi[h]));
  }

  lemma {:induction false} LastItem(multi: seq<Command>, k: nat)
    requires k < |multi|
    ensures var all, e := Expand(multi, |multi|), Expand(multi, k + 1);
      0 < |e| <= |all| && LastAsking(all, |e| - 1) == |Expand(multi, UnitHead(multi, k))|
  {
    ExpandGrows(multi, k + 1, |multi|);
    UnitAsking(multi, k, Expand(multi, k + 1));
    LastAskingLocal(Expand(multi, k + 1), Expand(multi, |multi|), |Expand(multi, k + 1)| - 1);
  }

  /** Whatever result of the ASK batch expires, the replay starts at the ASKING in front of the
      unit it belongs to: a transaction is replayed from its MULTI, any other command from itself. */
  lemma {:induction false} AskingRestartsAtHead(multi: seq<Command>, all: seq<Item>, k: nat, i: nat, h: nat, p: nat)
    requires k < |multi| && |Expand(multi, k)| <= i < |Expand(multi, k + 1)|
    requires all == Expand(multi, |multi|) && h == UnitHead(multi, k) && p == |Expand(multi, h)|
    ensures i < |all| && LastAsking(all, i) == p < |all| - 1 && all[p] == Asking && all[p + 1] == User(multi[h])
  {
    HeadItems(multi, all, h, p);
    LastItem(multi, k);
    if i < |Expand(multi, k + 1)| - 1 {
      assert !InTx(multi, k) && i == |Expand(multi, k)|;
    }
  }

  function CommandOf(r: Reply<Item>): Reply<Command>
    requires r.to.User?
  {
    Reply(r.to.cmd, r.o)
  }

  /** The results without those of ASKING. */
  function Answered(resps: seq<Reply<Item>>): seq<Reply<Command>> {
    if resps == [] then []
    else
      var last := resps[|resps| - 1];
      if last.to.Asking? then Answered(resps[..|resps| - 1]) else Answered(resps[..|resps| - 1]) + [CommandOf(last)]
  }

  lemma {:induction false} AnsweredInOrder(multi: seq<Command>, k: nat, resps: seq<Reply<Item>>)
    requires k <= |multi| && Answers(Expand(multi, k), resps)
    ensures Answers(multi[..k], Answered(resps))
    decreases k
  {
    if k > 0 {
      var d, n := Expand(multi, k - 1), |resps|;
      var front := resps[..|d|];
      AnsweredInOrder(multi, k - 1, front);
      assert resps[n - 1].to == User(multi[k - 1]);
      if InTx(multi, k - 1) {
        assert resps[..n - 1] == front;
      } else {
        assert resps[n - 2].to == Asking;
        assert resps[..n - 1][..n - 2] == front;
      }
    }
  }

  method BuildAsking(multi: seq<Command>) returns (commands: seq<Item>)
    ensures commands == Expand(multi, |multi|)
  {
    var inTx := false;
    commands := [];
    for i := 0 to |multi|
      invariant inTx == InTx(multi, i) && commands == Expand(multi, i)
    {
      if inTx {
        commands := commands + [User(multi[i])];
        inTx := !IsExec(multi[i]);
      } else {
        commands := commands + [Asking, User(multi[i])];
        inTx := IsMulti(multi[i]);
      }
    }
  }

  method FindAsking(commands: seq<Item>, resps: seq<Reply<Item>>) returns (start: nat)
    requires |resps| == |commands| && (commands != [] ==> commands[0].Asking?)
    ensures start <= |commands|
    ensures match FirstExpired(resps, |resps|)
      case Some(i) => start == LastAsking(commands, i)
      case None => start == |commands|
  {
    var askingIdx := 0;
    for i := 0 to |resps|
      invariant FirstExpired(resps, i).None? && askingIdx <= i
      invariant i > 0 ==> askingIdx == LastAsking(commands, i - 1)
      invariant i == 0 ==> askingIdx == 0
    {
      if commands[i].Asking? {
        askingIdx := i;
      }
      if resps[i].o.expired {
        FoundStays(resps, i + 1, |resps|);
        return askingIdx;
      }
    }
    start := |commands|;
  }

  ghost predicate NoneExpired<T>(resps: seq<Reply<T>>, k: nat)
    requires k <= |resps|
  {
    forall i :: 0 <= i < k ==> !resps[i].o.expired
  }

  lemma {:induction false} NotFoundMeansNone<T>(resps: seq<Reply<T>>, k: nat)
    requires k <= |resps| && FirstExpired(resps, k).None?
    ensures NoneExpired(resps, k)
  {
    if k > 0 { NotFoundMeansNone(resps, k - 1); }
  }

  lemma {:induction false} AnsweredNotExpired(resps: seq<Reply<Item>>)
    requires NoneExpired(resps, |resps|)
    ensures NoneExpired(Answered(resps), |Answered(resps)|)
  {
    if resps != [] { AnsweredNotExpired(resps[..|resps| - 1]); }
  }

  /** The replays of askingMulti. */
  method AskingRounds(commands: seq<Item>, server: nat -> Outcome, turns: nat)
    returns (resps: seq<Reply<Item>>, used: nat)
    requires commands != [] ==> commands[0].Asking?
    ensures Answers(commands, resps) && used <= turns
    ensures used < turns ==> NoneExpired(resps, |resps|)
  {
    resps, used := Execute(commands, server, 0), 0;
    var sent: nat := |commands|;
    while used < turns
      invariant Answers(commands, resps) && used <= turns
    {
      var start := FindAsking(commands, resps);
      if start == |commands| {
        NotFoundMeansNone(resps, |resps|);
        return;
      }
      ReplayKeepsAnswers(commands, resps, start, server, sent);
      resps := Replayed(commands, resps, start, server, sent);
      sent, used := sent + |commands| - start, used + 1;
    }
  }

  /** askingMulti, with at most `turns` replays: one result per command, in order, and none of them
      expired unless the replays ran out. */
  method AskingMulti(multi: seq<Command>, server: nat -> Outcome, turns: nat)
    returns (results: seq<Reply<Command>>, used: nat)
    ensures Answers(multi, results) && used <= turns
    ensures used < turns ==> NoneExpired(results, |results|)
  {
    var commands := BuildAsking(multi);
    if multi != [] { HeadItems(multi, commands, 0, 0); }
    var resps;
    resps, used := AskingRounds(commands, server, turns);
    AnsweredInOrder(multi, |multi|, resps);
    assert multi[..|multi|] == multi;
    if used < turns { AnsweredNotExpired(resps); }
    results := [];
    for i := 0 to |resps|
      invariant results == Answered(resps[..i])
    {
      assert resps[..i + 1][..i] == resps[..i];
      if !resps[i].to.Asking? {
        results := results + [CommandOf(resps[i])];
      }
    }
    assert resps[..|resps|] == resps;
  }
}
