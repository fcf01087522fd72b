/** streamTo: a reply copied to a writer while it is read, for a writer that never fails. */
module RespStream {
  import opened Common
  import opened Message
  import opened Resp
  import opened RespWire

  datatype Err = NoErr | NilReply | Redis(m: Msg) | Unsupported | Broken

  /** The bytes copied, the returned count and error, whether the connection can be kept, and
      where the copy stopped when it can. */
  datatype Copied = Copied(wrote: seq<byte>, n: int, err: Err, clean: bool, next: nat) | Crash

  const BROKEN := Copied([], 0, Broken, false, 0)

  predicate IsText(typ: byte) { typ in {BLOB_STRING, VERBATIM_STRING, CHUNK} }

  /** A text of n bytes: the copy stops early when the bytes run out, and the discard then fails. */
  function CopyText(n: int, buf: seq<byte>, p: nat): (r: Copied)
    requires p <= |buf|
    ensures r.Copied? && (r.clean ==> p <= r.next <= |buf|)
  {
    var k := if n <= 0 then 0 else if p + n <= |buf| then n else |buf| - p;
    var discard := Wrap64(n + 2) - k;
    if discard < 0 || p + k + discard > |buf| then Copied(buf[p..p + k], k, Broken, false, 0)
    else Copied(buf[p..p + k], k, NoErr, true, p + k + discard)
  }

  /** The replies that are read whole before they are written. */
  function CopyMessage(m: Msg, next: nat): (r: Copied)
    ensures r.Copied? && r.next == next
  {
    if m.typ in {SIMPLE_STRING, FLOAT, BIG_NUMBER} then Copied(m.Text(), |m.Text()|, NoErr, true, next)
    else if m.typ == NULL then Copied([], 0, NilReply, true, next)
    else if m.typ in {SIMPLE_ERR, BLOB_ERR} then Copied([], 0, Redis(m), true, next)
    else if m.typ in {INTEGER, BOOL} && m.body.Num? then
      var text := Signed(m.body.n);
      Copied(text, |text|, NoErr, true, next)
    else Copied([], 0, Unsupported, true, next)
  }

  function StreamTo(buf: seq<byte>, p: nat): (r: Copied)
    requires p <= |buf|
    ensures r.Copied? && r.clean ==> p < r.next <= |buf|
    decreases |buf| - p, 1
  {
    if p == |buf| then BROKEN
    else if IsText(buf[p]) then StreamText(buf[p], buf, p + 1)
    else StreamMessage(buf, p)
  }

  function StreamText(typ: byte, buf: seq<byte>, p: nat): (r: Copied)
    requires p <= |buf|
    ensures r.Copied? && r.clean ==> p < r.next <= |buf|
    decreases |buf| - p, 3
  {
    match ReadI(buf, p)
    case BadNumber => BROKEN
    case Chunked(q) => StreamChunks([], 0, buf, q)
    case Number(n, q) =>
      if n == -1 then Copied([], 0, NilReply, true, q)
      else if n == 0 && typ == CHUNK then Copied([], 0, NoErr, true, q)
      else CopyText(n, buf, q)
  }

  function StreamMessage(buf: seq<byte>, p: nat): (r: Copied)
    requires p <= |buf|
    ensures r.Copied? && r.clean ==> p < r.next <= |buf|
    decreases |buf| - p, 0
  {
    var next := Next(NoAttrs, buf, p);
    if next.Panic? then Crash
    else if !next.Ok? then BROKEN
    else if next.m.typ == PUSH then StreamTo(buf, next.next)
    else CopyMessage(next.m, next.next)
  }

  /** The loop over the pieces of a streamed string. */
  function StreamChunks(wrote: seq<byte>, n: int, buf: seq<byte>, p: nat): (r: Copied)
    requires p <= |buf|
    ensures r.Copied? && r.clean ==> p < r.next <= |buf|
    decreases |buf| - p, 2
  {
    var r := StreamTo(buf, p);
    if r.Crash? then Crash
    else if r.n != 0 && r.clean && r.err.NoErr? then StreamChunks(wrote + r.wrote, n + r.n, buf, r.next)
    else Copied(wrote + r.wrote, n + r.n, r.err, r.clean && r.err.NoErr?, r.next)
  }

  /** Every piece of a streamed string starts with the chunk marker. */
  predicate Marked(buf: seq<byte>, p: nat)
    requires p <= |buf|
    decreases |buf| - p
  {
    p < |buf| ==> buf[p] == CHUNK && MarkedAfter(buf, p + 1)
  }

  predicate MarkedAfter(buf: seq<byte>, p: nat)
    requires p <= |buf|
    decreases |buf| - p
  {
    match ReadI(buf, p)
    case Number(n, q) => 0 < n && q + n + 2 <= |buf| ==> Marked(buf, q + n + 2)
    case _ => true
  }

  lemma CopyWholeText(n: int, buf: seq<byte>, p: nat)
    requires 0 <= n && p + n + 2 <= |buf| <= INT64_MAX
    ensures CopyText(n, buf, p) == Copied(buf[p..p + n], n, NoErr, true, p + n + 2)
    ensures ReadText(n, buf, p) == Ok(Leaf(Str(buf[p..p + n])), p + n + 2)
  {
  }

  /** Both loops stop at the empty chunk. */
  lemma {:induction false} LastTurn(acc: seq<byte>, buf: seq<byte>, p: nat, q: nat)
    requires p < |buf| && buf[p] == CHUNK && ReadI(buf, p + 1) == Number(0, q)
    ensures ReadChunks(acc, buf, p) == Ok(Leaf(Str(acc)), q)
    ensures StreamChunks(acc, |acc|, buf, p) == Copied(acc, |acc|, NoErr, true, q)
  {
    assert StreamTo(buf, p) == Copied([], 0, NoErr, true, q);
    assert acc + [] == acc;
  }

  lemma {:induction false} ChunkCopied(buf: seq<byte>, p: nat, n: int, q: nat)
    requires p < |buf| <= INT64_MAX && buf[p] == CHUNK
    requires ReadI(buf, p + 1) == Number(n, q) && 0 < n && q + n + 2 <= |buf|
    ensures StreamTo(buf, p) == Copied(buf[q..q + n], n, NoErr, true, q + n + 2)
  {
    CopyWholeText(n, buf, q);
  }

  lemma StreamOn(acc: seq<byte>, buf: seq<byte>, p: nat, text: seq<byte>, q: nat)
    requires p <= |buf| && text != [] && StreamTo(buf, p) == Copied(text, |text|, NoErr, true, q)
    ensures StreamChunks(acc, |acc|, buf, p) == StreamChunks(acc + text, |acc + text|, buf, q)
  {
  }

  /** Both loops take the same text from any other chunk and go on from the same place. */
  lemma {:induction false} MoreTurn(acc: seq<byte>, buf: seq<byte>, p: nat, n: int, q: nat, text: seq<byte>)
    requires p < |buf| <= INT64_MAX && buf[p] == CHUNK && ReadI(buf, p + 1) == Number(n, q)
    requires 0 < n && q + n + 2 <= |buf| && text == buf[q..q + n]
    ensures ReadChunks(acc, buf, p) == ReadChunks(acc + text, buf, q + n + 2)
    ensures StreamChunks(acc, |acc|, buf, p) == StreamChunks(acc + text, |acc + text|, buf, q + n + 2)
  {
    ChunkCopied(buf, p, n, q);
    StreamOn(acc, buf, p, text, q + n + 2);
  }

  lemma ChunkShape(acc: seq<byte>, buf: seq<byte>, p: nat)
    requires p <= |buf| && ReadChunks(acc, buf, p).Ok?
    ensures p < |buf| && ReadI(buf, p + 1).Number?
    ensures var n, q := ReadI(buf, p + 1).v, ReadI(buf, p + 1).next; n == 0 || (0 < n && q + n + 2 <= |buf|)
  {
  }

  lemma {:induction false} ChunksAreCopied(acc: seq<byte>, buf: seq<byte>, p: nat)
    requires p <= |buf| <= INT64_MAX && Marked(buf, p) && ReadChunks(acc, buf, p).Ok?
    ensures var r := ReadChunks(acc, buf, p);
      r.m == Leaf(Str(r.m.Text())) &&
      StreamChunks(acc, |acc|, buf, p) == Copied(r.m.Text(), |r.m.Text()|, NoErr, true, r.next)
    decreases |buf| - p
  {
    ChunkShape(acc, buf, p);
    var n, q := ReadI(buf, p + 1).v, ReadI(buf, p + 1).next;
    if n == 0 {
      LastTurn(acc, buf, p, q);
    } else {
      var text := buf[q..q + n];
      MoreTurn(acc, buf, p, n, q, text);
      ChunksAreCopied(acc + text, buf, q + n + 2);
    }
  }

  /** Streaming a blob or verbatim string, counted or chunked, writes exactly the text that
      reading it would return and stops at the same byte. */
  lemma {:induction false} StreamingIsReading(buf: seq<byte>, p: nat)
    requires p < |buf| <= INT64_MAX && buf[p] in {BLOB_STRING, VERBATIM_STRING}
    requires Next(NoAttrs, buf, p).Ok?
    requires ReadI(buf, p + 1).Chunked? ==> Marked(buf, ReadI(buf, p + 1).next)
    ensures var r := Next(NoAttrs, buf, p);
      StreamTo(buf, p) == if r.m.typ == NULL then Copied([], 0, NilReply, true, r.next)
                          else Copied(r.m.Text(), |r.m.Text()|, NoErr, true, r.next)
  {
    var number := ReadI(buf, p + 1);
    if number.Chunked? {
      ChunksAreCopied([], buf, number.next);
    } else if number.v != -1 {
      CopyWholeText(number.v, buf, number.next);
    }
  }

  lemma OneMarked(buf: seq<byte>, p: nat, n: int, q: nat)
    requires p < |buf| && buf[p] == CHUNK && ReadI(buf, p + 1) == Number(n, q) && 0 < n && q + n + 2 <= |buf|
    ensures Marked(buf, p) <==> Marked(buf, q + n + 2)
  {
  }

  lemma {:induction false} ChunkBytesMarked(cs: seq<seq<byte>>, buf: seq<byte>, p: nat, r: nat)
    requires LegalChunks(cs) && At(buf, p, ChunkBytes(cs)) && r == p + |ChunkBytes(cs)|
    ensures Marked(buf, p) <==> Marked(buf, r)
    decreases cs
  {
    if cs != [] {
      var n := |cs| - 1;
      var q := p + |ChunkBytes(cs[..n])|;
      AtSplit(buf, p, ChunkBytes(cs[..n]), ChunkOf(cs[n]));
      ChunkBytesMarked(cs[..n], buf, p, q);
      var k := q + |LengthLine(CHUNK, |cs[n]|)|;
      ChunkLength(cs[n]);
      OneChunk(cs[n], buf, q, k, r);
      OneMarked(buf, q, |cs[n]|, k);
    }
  }

  lemma {:induction false} StreamedMarked(w: Wire, buf: seq<byte>, p: nat)
    requires w.Streamed? && Legal(w) && At(buf, p, Bytes(w))
    ensures ReadI(buf, p + 1) == Chunked(p + 4) && Marked(buf, p + 4)
  {
    var cs, last := ChunkBytes(w.chunks), LengthLine(CHUNK, 0);
    ChunkedHead(buf, p, w.typ, cs + last);
    AtSplit(buf, p + 4, cs, last);
    NoMoreChunks([], buf, p + 4 + |cs|);
    ChunkBytesMarked(w.chunks, buf, p + 4, p + 4 + |cs|);
  }

  /** The same for every legal encoding of a string, whatever follows it. */
  lemma {:induction false} StringsAreStreamed(w: Wire, buf: seq<byte>, p: nat)
    requires (w.Fixed? || w.Streamed?) && Legal(w) && w.typ in {BLOB_STRING, VERBATIM_STRING}
    requires At(buf, p, Bytes(w)) && |buf| <= INT64_MAX
    ensures var x := if w.Fixed? then w.text else Concat(w.chunks);
      StreamTo(buf, p) == Copied(x, |x|, NoErr, true, p + |Bytes(w)|)
  {
    NodeReads(w, buf, p);
    NodeNext(NoAttrs, w, Under(NoAttrs, w), buf, p, p + |Bytes(w)|);
    if w.Fixed? {
      LengthHead(buf, p, w.typ, |w.text|, w.text + CRLF);
    } else {
      StreamedMarked(w, buf, p);
    }
    StreamingIsReading(buf, p);
  }
}
