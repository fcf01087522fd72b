/** The RESP reader as functions of the received bytes and a position in them. A reader that runs
    out of bytes, meets an unknown type byte or a malformed number fails; `Panic` is an allocation
    or a builder growth with a negative length. */
module Resp {
  import opened Common
  import opened Message

  const CR: byte := 13
  const LF: byte := 10
  const ZERO_DIGIT: byte := 48
  const MINUS: byte := 45
  const QUESTION: byte := 63
  const LETTER_T: byte := 116

  /** Two's complement wrap-around of a 64-bit result. */
  function Wrap64(x: int): (r: int)
    ensures INT64_MIN <= r <= INT64_MAX
    decreases if x > INT64_MAX then x - INT64_MAX else INT64_MIN - x
  {
    if x > INT64_MAX then Wrap64(x - UINT64) else if x < INT64_MIN then Wrap64(x + UINT64) else x
  }

  /** Where the line at p ends, just after its line feed; 0 when no line feed was received. */
  function LineEnd(buf: seq<byte>, p: nat): (k: nat)
    requires p <= |buf|
    ensures k == 0 || p < k <= |buf|
    decreases |buf| - p
  {
    if p == |buf| then 0 else if buf[p] == LF then p + 1 else LineEnd(buf, p + 1)
  }

  /** The digit loop of readI over the bytes from a to b. */
  function Digits(buf: seq<byte>, a: nat, b: nat): Option<int>
    requires a <= b <= |buf|
  {
    if a == b then Some(0)
    else match Digits(buf, a, b - 1)
      case None => None
      case Some(v) =>
        var c := buf[b - 1];
        if ZERO_DIGIT <= c <= 57 then Some(Wrap64(v * 10 + (c - ZERO_DIGIT) as int)) else None
  }

  /** A length or number line. `Chunked` is the '?' that announces a streamed value. */
  datatype Number = Number(v: int, next: nat) | Chunked(next: nat) | BadNumber

  function ReadI(buf: seq<byte>, p: nat): (r: Number)
    requires p <= |buf|
    ensures !r.BadNumber? ==> p < r.next <= |buf|
  {
    var k := LineEnd(buf, p);
    if k < p + 3 then BadNumber
    else if buf[p] == QUESTION then Chunked(k)
    else if buf[p] == MINUS then
      match Digits(buf, p + 1, k - 2)
      case None => BadNumber
      case Some(v) => Number(Wrap64(-v), k)
    else
      match Digits(buf, p, k - 2)
      case None => BadNumber
      case Some(v) => Number(v, k)
  }

  /** What a reader of one message returns; `OldNull` is the RESP2 null length. */
  datatype Read = Ok(m: Msg, next: nat) | OldNull(next: nat) | Fail | Panic

  /** Several messages in a row, or what the first failing one returned. */
  datatype ReadAll = AllOk(ms: seq<Msg>, next: nat) | Stopped(why: Read)

  function Leaf(b: Body): Msg {
    Msg(0, b, 0, NoAttrs)
  }

  function ReadS(buf: seq<byte>, p: nat): (r: Read)
    requires p <= |buf|
    ensures r.Ok? ==> p < r.next <= |buf|
  {
    var k := LineEnd(buf, p);
    if k < p + 2 then Fail else Ok(Leaf(Str(buf[p..k - 2])), k)
  }

  /** A text of known length and its line end. */
  function ReadText(n: int, buf: seq<byte>, p: nat): (r: Read)
    requires p <= |buf|
    ensures r.Ok? ==> p < r.next <= |buf|
  {
    if n < 0 then Panic
    else if |buf| < p + n + 2 then Fail
    else Ok(Leaf(Str(buf[p..p + n])), p + n + 2)
  }

  /** The chunks of a streamed string after the text already gathered. The first byte of a
      chunk is skipped without a look at it. */
  function ReadChunks(acc: seq<byte>, buf: seq<byte>, p: nat): (r: Read)
    requires p <= |buf|
    ensures r.Ok? ==> p < r.next <= |buf|
    ensures !r.OldNull?
    decreases |buf| - p
  {
    if p == |buf| then Fail else ReadChunk(acc, buf, p + 1)
  }

  /** A chunk behind its marker, and those after it. */
  function ReadChunk(acc: seq<byte>, buf: seq<byte>, p: nat): (r: Read)
    requires p <= |buf|
    ensures r.Ok? ==> p < r.next <= |buf|
    ensures !r.OldNull?
    decreases |buf| - p
  {
    var number := ReadI(buf, p);
    if !number.Number? then Fail
    else if number.v == 0 then Ok(Leaf(Str(acc)), number.next)
    else
      var text := ReadText(number.v, buf, number.next);
      if text.Ok? then ReadChunks(acc + text.m.Text(), buf, text.next) else text
  }

  function ReadBlobString(buf: seq<byte>, p: nat): (r: Read)
    requires p <= |buf|
    ensures r.Ok? || r.OldNull? ==> p < r.next <= |buf|
  {
    match ReadI(buf, p)
    case BadNumber => Fail
    case Chunked(q) => ReadChunks([], buf, q)
    case Number(n, q) => if n == -1 then OldNull(q) else ReadText(n, buf, q)
  }

  function ReadInteger(buf: seq<byte>, p: nat): (r: Read)
    requires p <= |buf|
    ensures r.Ok? ==> p < r.next <= |buf|
  {
    match ReadI(buf, p)
    case Number(n, q) => Ok(Leaf(Num(n)), q)
    case _ => Fail
  }

  function ReadBoolean(buf: seq<byte>, p: nat): (r: Read)
    requires p <= |buf|
    ensures r.Ok? ==> p < r.next <= |buf|
  {
    if |buf| < p + 3 then Fail else Ok(Leaf(Num(if buf[p] == LETTER_T then 1 else 0)), p + 3)
  }

  function ReadNull(buf: seq<byte>, p: nat): (r: Read)
    requires p <= |buf|
    ensures r.Ok? ==> p < r.next <= |buf|
  {
    if |buf| < p + 2 then Fail else Ok(Leaf(Num(0)), p + 2)
  }

  /** readers[typ]: which reader a type byte selects. */
  datatype Kind = Line | Blob | Int | Flag | Nothing | Listing | Pairs | Unknown

  function KindOf(typ: byte): Kind {
    if typ in {SIMPLE_STRING, SIMPLE_ERR, FLOAT, BIG_NUMBER} then Line
    else if typ in {BLOB_STRING, BLOB_ERR, VERBATIM_STRING} then Blob
    else if typ == INTEGER then Int
    else if typ == BOOL then Flag
    else if typ in {NULL, END} then Nothing
    else if typ in {ARRAY, SET, PUSH} then Listing
    else if typ in {MAP, ATTRIBUTE} then Pairs
    else Unknown
  }

  function ReadBody(kind: Kind, buf: seq<byte>, p: nat): (r: Read)
    requires p <= |buf|
    ensures r.Ok? || r.OldNull? ==> p < r.next <= |buf|
    decreases |buf| - p, 2, 0
  {
    match kind
    case Line => ReadS(buf, p)
    case Blob => ReadBlobString(buf, p)
    case Int => ReadInteger(buf, p)
    case Flag => ReadBoolean(buf, p)
    case Nothing => ReadNull(buf, p)
    case Unknown => Fail
    case _ => ReadAggregate(kind, buf, p)
  }

  /** readArray and readMap. */
  function ReadAggregate(kind: Kind, buf: seq<byte>, p: nat): (r: Read)
    requires p <= |buf|
    ensures r.Ok? || r.OldNull? ==> p < r.next <= |buf|
    decreases |buf| - p, 1, 0
  {
    match ReadI(buf, p)
    case BadNumber => Fail
    case Chunked(q) => Aggregate(ReadE([], buf, q))
    case Number(n, q) =>
      if kind.Listing? && n == -1 then OldNull(q)
      else
        var count := if kind.Pairs? then Wrap64(n * 2) else n;
        if count < 0 then Panic else Aggregate(ReadA(count, buf, q))
  }

  function Aggregate(r: ReadAll): Read {
    match r
    case AllOk(ms, next) => Ok(Leaf(Arr(ms)), next)
    case Stopped(why) => why
  }

  /** readA: exactly n messages. */
  function ReadA(n: nat, buf: seq<byte>, p: nat): (r: ReadAll)
    requires p <= |buf|
    ensures r.AllOk? ==> p <= r.next <= |buf|
    ensures r.Stopped? ==> r.why.Fail? || r.why.Panic?
    decreases |buf| - p, 1, n
  {
    if n == 0 then AllOk([], p)
    else
      var before := ReadA(n - 1, buf, p);
      if before.Stopped? then before
      else
        var one := Next(NoAttrs, buf, before.next);
        if one.Ok? then AllOk(before.ms + [one.m], one.next) else Stopped(one)
  }

  /** readE: messages up to the end marker. */
  function ReadE(acc: seq<Msg>, buf: seq<byte>, p: nat): (r: ReadAll)
    requires p <= |buf|
    ensures r.AllOk? ==> p <= r.next <= |buf|
    ensures r.Stopped? ==> r.why.Fail? || r.why.Panic?
    decreases |buf| - p, 1, 0
  {
    var one := Next(NoAttrs, buf, p);
    if !one.Ok? then Stopped(one)
    else if one.m.typ == END then AllOk(acc, one.next)
    else ReadE(acc + [one.m], buf, one.next)
  }

  /** readNextMessage from a turn of its loop that holds `attrs`. */
  function Next(attrs: Attrs, buf: seq<byte>, p: nat): (r: Read)
    requires p <= |buf|
    ensures r.Ok? ==> p < r.next <= |buf|
    ensures !r.OldNull?
    decreases |buf| - p, 0, 0
  {
    if p == |buf| then Fail
    else
      var typ := buf[p];
      match ReadBody(KindOf(typ), buf, p + 1)
      case Ok(m, q) =>
        if typ == ATTRIBUTE then Next(Decoded(m.(typ := typ)), buf, q) else Ok(m.(typ := typ, attrs := attrs), q)
      case OldNull(q) => Ok(Msg(NULL, Num(0), 0, NoAttrs), q)
      case Fail => Fail
      case Panic => Panic
  }

  // Every decoded message has a type, and so has every element of a decoded aggregate.

  predicate Typed(m: Msg) {
    m.typ != 0 && forall k :: 0 <= k < |m.Values()| ==> m.Values()[k].typ != 0
  }

  predicate AllTyped(ms: seq<Msg>) {
    forall k :: 0 <= k < |ms| ==> ms[k].typ != 0
  }

  lemma {:induction false} NextTyped(attrs: Attrs, buf: seq<byte>, p: nat)
    requires p <= |buf| && Next(attrs, buf, p).Ok?
    ensures Typed(Next(attrs, buf, p).m)
    decreases |buf| - p, 0, 0
  {
    var typ := buf[p];
    var body := ReadBody(KindOf(typ), buf, p + 1);
    if body.Ok? {
      BodyTyped(KindOf(typ), buf, p + 1);
      if typ == ATTRIBUTE { NextTyped(Decoded(body.m.(typ := typ)), buf, body.next); }
    }
  }

  lemma {:induction false} ChunksText(acc: seq<byte>, buf: seq<byte>, p: nat)
    requires p <= |buf| && ReadChunks(acc, buf, p).Ok?
    ensures ReadChunks(acc, buf, p).m.body.Str?
    decreases |buf| - p
  {
    var number := ReadI(buf, p + 1);
    if number.v != 0 {
      var text := ReadText(number.v, buf, number.next);
      ChunksText(acc + text.m.Text(), buf, text.next);
    }
  }

  lemma {:induction false} BodyTyped(kind: Kind, buf: seq<byte>, p: nat)
    requires p <= |buf| && ReadBody(kind, buf, p).Ok?
    ensures AllTyped(ReadBody(kind, buf, p).m.Values())
    decreases |buf| - p, 2, 0
  {
    var number := ReadI(buf, p);
    if kind.Blob? {
      if number.Chunked? { ChunksText([], buf, number.next); }
    } else if kind.Listing? || kind.Pairs? {
      assert ReadBody(kind, buf, p) == ReadAggregate(kind, buf, p);
      if number.Chunked? {
        UntilEndTyped([], buf, number.next);
      } else {
        CountedTyped(if kind.Pairs? then Wrap64(number.v * 2) else number.v, buf, number.next);
      }
    }
  }

  lemma {:induction false} CountedTyped(n: nat, buf: seq<byte>, p: nat)
    requires p <= |buf| && ReadA(n, buf, p).AllOk?
    ensures AllTyped(ReadA(n, buf, p).ms)
    decreases |buf| - p, 1, n
  {
    if n > 0 {
      CountedTyped(n - 1, buf, p);
      NextTyped(NoAttrs, buf, ReadA(n - 1, buf, p).next);
    }
  }

  lemma {:induction false} UntilEndTyped(acc: seq<Msg>, buf: seq<byte>, p: nat)
    requires p <= |buf| && AllTyped(acc) && ReadE(acc, buf, p).AllOk?
    ensures AllTyped(ReadE(acc, buf, p).ms)
    decreases |buf| - p, 1, 0
  {
    var one := Next(NoAttrs, buf, p);
    NextTyped(NoAttrs, buf, p);
    if one.m.typ != END { UntilEndTyped(acc + [one.m], buf, one.next); }
  }
}
