/** Commands, connections and the per-connection buckets of a cluster batch. */
module Cluster {
  import opened Common

  /** The slot of a command without keys: one beyond the last. */
  const INIT_SLOT: nat := SLOTS

  type Conn = nat

  datatype Command = Command(words: seq<string>, slot: nat, retryable: bool)

  predicate IsMulti(c: Command) { c.words == ["MULTI"] }
  predicate IsExec(c: Command) { c.words == ["EXEC"] }

  /** What is queued for one connection: plain commands and those that need ASKING, each with
      its index in the caller's batch. */
  datatype Bucket = Bucket(cIndexes: seq<nat>, commands: seq<Command>, aIndexes: seq<nat>, cAskings: seq<Command>)

  const EMPTY := Bucket([], [], [], [])

  /** Every queued command is the one at its index of the batch. */
  predicate Aligned(multi: seq<Command>, ixs: seq<nat>, cmds: seq<Command>) {
    |ixs| == |cmds| && forall k :: 0 <= k < |ixs| ==> ixs[k] < |multi| && cmds[k] == multi[ixs[k]]
  }

  predicate AlignedBucket(multi: seq<Command>, b: Bucket) {
    Aligned(multi, b.cIndexes, b.commands) && Aligned(multi, b.aIndexes, b.cAskings)
  }

  /** What a server or connection did with a command. `expired` is the connection lifetime error. */
  datatype Outcome = Outcome(expired: bool, ok: bool, tag: nat)

  /** A result together with what it is the result of. */
  datatype Reply<T> = Reply(to: T, o: Outcome)

  /** One result per command, in order. */
  predicate Answers<T(==)>(cmds: seq<T>, resps: seq<Reply<T>>) {
    |resps| == |cmds| && forall k :: 0 <= k < |cmds| ==> resps[k].to == cmds[k]
  }

  /** conn.DoMulti: the n-th result and the ones after it answer the commands in order. */
  function Execute<T>(cmds: seq<T>, server: nat -> Outcome, n: nat): (resps: seq<Reply<T>>)
    ensures |resps| == |cmds| && forall k :: 0 <= k < |cmds| ==> resps[k].to == cmds[k]
  {
    seq(|cmds|, k requires 0 <= k < |cmds| => Reply(cmds[k], server(n + k)))
  }
}
