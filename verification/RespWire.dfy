/** Every way a value can be put on the wire, what it means, and the law that the reader
    recovers the meaning and stops at the value's last byte. */
module RespWire {
  import opened Common
  import opened Message
  import opened Resp

  const CRLF: seq<byte> := [CR, LF]

  function Decimal(n: nat): (s: seq<byte>)
    ensures |s| > 0
  {
    if n < 10 then [ZERO_DIGIT + n as byte] else Decimal(n / 10) + [ZERO_DIGIT + (n % 10) as byte]
  }

  function Signed(n: int): seq<byte> {
    if n < 0 then [MINUS] + Decimal(-n) else Decimal(n)
  }

  /** writeN. */
  function LengthLine(typ: byte, n: nat): seq<byte> {
    [typ] + Decimal(n) + CRLF
  }

  /** writeB. */
  function BlobLine(typ: byte, text: seq<byte>): seq<byte> {
    LengthLine(typ, |text|) + (text + CRLF)
  }

  function ChunkedLine(typ: byte): seq<byte> {
    [typ, QUESTION] + CRLF
  }

  /** A value together with the form chosen for each of its nodes. */
  datatype Wire =
    | Plain(typ: byte, text: seq<byte>)
    | Integer(n: int)
    | Boolean(b: bool)
    | Null
    | OldNullOf(typ: byte)
    | Fixed(typ: byte, text: seq<byte>)
    | Streamed(typ: byte, chunks: seq<seq<byte>>)
    | Counted(typ: byte, items: seq<Wire>)
    | Open(typ: byte, items: seq<Wire>)
    | With(attribute: Wire, value: Wire)

  predicate Legal(w: Wire) {
    match w
    case Plain(typ, text) => KindOf(typ).Line? && LF !in text
    case Integer(n) => INT64_MIN <= n <= INT64_MAX
    case OldNullOf(typ) => KindOf(typ).Blob? || KindOf(typ).Listing?
    case Fixed(typ, text) => KindOf(typ).Blob? && |text| <= INT64_MAX
    case Streamed(typ, chunks) => KindOf(typ).Blob? && LegalChunks(chunks)
    case Counted(typ, items) =>
      (KindOf(typ).Listing? || (typ == MAP && |items| % 2 == 0)) && |items| <= INT64_MAX && LegalAll(items)
    case Open(typ, items) => (KindOf(typ).Listing? || typ == MAP) && LegalAll(items)
    case With(attribute, value) => LegalAttribute(attribute) && Legal(value)
    case _ => true
  }

  predicate LegalAttribute(w: Wire) {
    (w.Counted? || w.Open?) && w.typ == ATTRIBUTE && LegalAll(w.items) &&
    (w.Counted? ==> |w.items| % 2 == 0 && |w.items| <= INT64_MAX)
  }

  predicate LegalAll(ws: seq<Wire>) {
    ws == [] || (LegalAll(ws[..|ws| - 1]) && Legal(ws[|ws| - 1]))
  }

  predicate LegalChunks(cs: seq<seq<byte>>) {
    cs == [] || (LegalChunks(cs[..|cs| - 1]) && 0 < |cs[|cs| - 1]| <= INT64_MAX)
  }

  /** Map lengths count pairs. */
  function Count(typ: byte, items: seq<Wire>): nat {
    if KindOf(typ).Pairs? then |items| / 2 else |items|
  }

  function Bytes(w: Wire): seq<byte> {
    match w
    case Plain(typ, text) => [typ] + (text + CRLF)
    case Integer(n) => [INTEGER] + (Signed(n) + CRLF)
    case Boolean(b) => [BOOL, if b then LETTER_T else 102] + CRLF
    case Null => [NULL] + CRLF
    case OldNullOf(typ) => [typ] + ([MINUS, ZERO_DIGIT + 1] + CRLF)
    case Fixed(typ, text) => BlobLine(typ, text)
    case Streamed(typ, chunks) => ChunkedLine(typ) + (ChunkBytes(chunks) + LengthLine(CHUNK, 0))
    case Counted(typ, items) => LengthLine(typ, Count(typ, items)) + BytesAll(items)
    case Open(typ, items) => ChunkedLine(typ) + (BytesAll(items) + ([END] + CRLF))
    case With(attribute, value) => Bytes(attribute) + Bytes(value)
  }

  function BytesAll(ws: seq<Wire>): seq<byte> {
    if ws == [] then [] else BytesAll(ws[..|ws| - 1]) + Bytes(ws[|ws| - 1])
  }

  function ChunkOf(c: seq<byte>): seq<byte> {
    BlobLine(CHUNK, c)
  }

  function ChunkBytes(cs: seq<seq<byte>>): seq<byte> {
    if cs == [] then [] else ChunkBytes(cs[..|cs| - 1]) + ChunkOf(cs[|cs| - 1])
  }

  function Concat(cs: seq<seq<byte>>): seq<byte> {
    if cs == [] then [] else Concat(cs[..|cs| - 1]) + cs[|cs| - 1]
  }

  /** The message a value stands for: neither chunking nor streaming shows in it. An attribute
      belongs to the value right after it, the last one wins, and a RESP2 null drops it. */
  function Meaning(w: Wire): Msg {
    match w
    case Plain(typ, text) => Msg(typ, Str(text), 0, NoAttrs)
    case Integer(n) => Msg(INTEGER, Num(n), 0, NoAttrs)
    case Boolean(b) => Msg(BOOL, Num(if b then 1 else 0), 0, NoAttrs)
    case Null => Msg(NULL, Num(0), 0, NoAttrs)
    case OldNullOf(_) => Msg(NULL, Num(0), 0, NoAttrs)
    case Fixed(typ, text) => Msg(typ, Str(text), 0, NoAttrs)
    case Streamed(typ, chunks) => Msg(typ, Str(Concat(chunks)), 0, NoAttrs)
    case Counted(typ, items) => Msg(typ, Arr(MeaningAll(items)), 0, NoAttrs)
    case Open(typ, items) => Msg(typ, Arr(MeaningAll(items)), 0, NoAttrs)
    case With(attribute, value) =>
      if value.With? || value.OldNullOf? then Meaning(value)
      else Meaning(value).(attrs := Decoded(Meaning(attribute)))
  }

  function MeaningAll(ws: seq<Wire>): (ms: seq<Msg>)
    ensures |ms| == |ws|
  {
    if ws == [] then [] else MeaningAll(ws[..|ws| - 1]) + [Meaning(ws[|ws| - 1])]
  }

  // Positions.

  ghost predicate SameByte(buf: seq<byte>, p: nat, x: seq<byte>, i: int) {
    0 <= i < |x| && p + i < |buf| && buf[p + i] == x[i]
  }

  /** The bytes x stand in buf at p. */
  ghost predicate At(buf: seq<byte>, p: nat, x: seq<byte>) {
    p + |x| <= |buf| && forall i {:trigger SameByte(buf, p, x, i)} :: 0 <= i < |x| ==> SameByte(buf, p, x, i)
  }

  lemma {:induction false} AtIndex(buf: seq<byte>, p: nat, x: seq<byte>, i: nat)
    requires At(buf, p, x) && i < |x|
    ensures p + i < |buf| && buf[p + i] == x[i]
  {
    assert SameByte(buf, p, x, i);
  }

  lemma {:induction false} AtSlice(buf: seq<byte>, p: nat, x: seq<byte>)
    requires At(buf, p, x)
    ensures buf[p..p + |x|] == x
  {
    forall i | 0 <= i < |x| ensures buf[p..p + |x|][i] == x[i] { AtIndex(buf, p, x, i); }
  }

  lemma {:induction false} AtSplit(buf: seq<byte>, p: nat, a: seq<byte>, b: seq<byte>)
    requires At(buf, p, a + b)
    ensures At(buf, p, a) && At(buf, p + |a|, b)
  {
    forall i | 0 <= i < |a| ensures SameByte(buf, p, a, i) { AtIndex(buf, p, a + b, i); }
    var q := p + |a|;
    forall i | 0 <= i < |b| ensures SameByte(buf, q, b, i) { AtIndex(buf, p, a + b, |a| + i); }
  }

  lemma AtFront(x: seq<byte>, t: seq<byte>)
    ensures At(x + t, 0, x)
  {
  }

  lemma Assoc(a: seq<byte>, b: seq<byte>, c: seq<byte>)
    ensures (a + b) + c == a + (b + c)
  {
  }

  // Numbers.

  lemma {:induction false} DecimalRoundTrip(buf: seq<byte>, p: nat, n: nat)
    requires n <= INT64_MAX + 1 && At(buf, p, Decimal(n))
    ensures Digits(buf, p, p + |Decimal(n)|) == Some(Wrap64(n))
    decreases n
  {
    if n < 10 {
      AtIndex(buf, p, Decimal(n), 0);
    } else {
      var front := Decimal(n / 10);
      AtSplit(buf, p, front, [ZERO_DIGIT + (n % 10) as byte]);
      AtIndex(buf, p + |front|, [ZERO_DIGIT + (n % 10) as byte], 0);
      DecimalRoundTrip(buf, p, n / 10);
    }
  }

  predicate AllDigits(s: seq<byte>) {
    forall i :: 0 <= i < |s| ==> ZERO_DIGIT <= s[i] <= 57
  }

  lemma {:induction false} DecimalDigits(n: nat)
    ensures AllDigits(Decimal(n))
  {
    if n >= 10 { DecimalDigits(n / 10); }
  }

  lemma {:induction false} LineEndAt(buf: seq<byte>, p: nat, x: seq<byte>, i: nat)
    requires LF !in x && i <= |x| + 1 && At(buf, p, x + CRLF)
    ensures LineEnd(buf, p + i) == p + |x| + 2
    decreases |x| + 1 - i
  {
    AtIndex(buf, p, x + CRLF, i);
    if i <= |x| { LineEndAt(buf, p, x, i + 1); }
  }

  lemma {:induction false} LengthRoundTrip(buf: seq<byte>, p: nat, n: nat)
    requires n <= INT64_MAX && At(buf, p, Decimal(n) + CRLF)
    ensures ReadI(buf, p) == Number(n, p + |Decimal(n)| + 2)
  {
    DecimalDigits(n);
    AtSplit(buf, p, Decimal(n), CRLF);
    AtIndex(buf, p, Decimal(n), 0);
    DecimalRoundTrip(buf, p, n);
    LineEndAt(buf, p, Decimal(n), 0);
  }

  lemma {:induction false} NegativeRoundTrip(buf: seq<byte>, p: nat, n: int)
    requires 0 < n <= -INT64_MIN && At(buf, p, ([MINUS] + Decimal(n)) + CRLF)
    ensures ReadI(buf, p) == Number(-n, p + 1 + |Decimal(n)| + 2)
  {
    DecimalDigits(n);
    LineEndAt(buf, p, [MINUS] + Decimal(n), 0);
    AtSplit(buf, p, [MINUS] + Decimal(n), CRLF);
    AtSplit(buf, p, [MINUS], Decimal(n));
    AtIndex(buf, p, [MINUS], 0);
    DecimalRoundTrip(buf, p + 1, n);
  }

  lemma {:induction false} NumberRoundTrip(buf: seq<byte>, p: nat, n: int)
    requires INT64_MIN <= n <= INT64_MAX && At(buf, p, Signed(n) + CRLF)
    ensures ReadI(buf, p) == Number(n, p + |Signed(n)| + 2)
  {
    if n < 0 { NegativeRoundTrip(buf, p, -n); } else { LengthRoundTrip(buf, p, n); }
  }

  // Heads.

  lemma {:induction false} LengthHead(buf: seq<byte>, p: nat, typ: byte, n: nat, u: seq<byte>)
    requires n <= INT64_MAX && At(buf, p, LengthLine(typ, n) + u)
    ensures buf[p] == typ && ReadI(buf, p + 1) == Number(n, p + |LengthLine(typ, n)|)
    ensures At(buf, p + |LengthLine(typ, n)|, u)
  {
    AtSplit(buf, p, LengthLine(typ, n), u);
    AtIndex(buf, p, LengthLine(typ, n), 0);
    assert LengthLine(typ, n) == [typ] + (Decimal(n) + CRLF);
    AtSplit(buf, p, [typ], Decimal(n) + CRLF);
    LengthRoundTrip(buf, p + 1, n);
  }

  lemma {:induction false} ChunkedHead(buf: seq<byte>, p: nat, typ: byte, u: seq<byte>)
    requires At(buf, p, ChunkedLine(typ) + u)
    ensures buf[p] == typ && ReadI(buf, p + 1) == Chunked(p + 4)
    ensures At(buf, p + 4, u)
  {
    AtSplit(buf, p, ChunkedLine(typ), u);
    AtIndex(buf, p, ChunkedLine(typ), 0);
    AtIndex(buf, p, ChunkedLine(typ), 1);
    assert ChunkedLine(typ) == [typ] + ([QUESTION] + CRLF);
    AtSplit(buf, p, [typ], [QUESTION] + CRLF);
    LineEndAt(buf, p + 1, [QUESTION], 0);
  }

  lemma {:induction false} TextRoundTrip(buf: seq<byte>, p: nat, x: seq<byte>)
    requires At(buf, p, x + CRLF)
    ensures ReadText(|x|, buf, p) == Ok(Leaf(Str(x)), p + |x| + 2)
  {
    AtSplit(buf, p, x, CRLF);
    AtSlice(buf, p, x);
  }

  // Bodies.

  /** The type byte is in place and the reader it selects returns the body. */
  ghost predicate Reads(w: Wire, buf: seq<byte>, p: nat) {
    p < |buf| && buf[p] == Meaning(w).typ &&
    ReadBody(KindOf(buf[p]), buf, p + 1) == Ok(Leaf(Meaning(w).body), p + |Bytes(w)|)
  }

  lemma {:induction false} PlainReads(w: Wire, buf: seq<byte>, p: nat)
    requires w.Plain? && Legal(w) && At(buf, p, Bytes(w))
    ensures Reads(w, buf, p)
  {
    AtIndex(buf, p, Bytes(w), 0);
    AtSplit(buf, p, [w.typ], w.text + CRLF);
    LineEndAt(buf, p + 1, w.text, 0);
    AtSplit(buf, p + 1, w.text, CRLF);
    AtSlice(buf, p + 1, w.text);
  }

  lemma {:induction false} IntegerReads(w: Wire, buf: seq<byte>, p: nat)
    requires w.Integer? && Legal(w) && At(buf, p, Bytes(w))
    ensures Reads(w, buf, p)
  {
    AtIndex(buf, p, Bytes(w), 0);
    AtSplit(buf, p, [INTEGER], Signed(w.n) + CRLF);
    NumberRoundTrip(buf, p + 1, w.n);
  }

  lemma {:induction false} ConstantReads(w: Wire, buf: seq<byte>, p: nat)
    requires (w.Boolean? || w.Null?) && At(buf, p, Bytes(w))
    ensures Reads(w, buf, p)
  {
    AtIndex(buf, p, Bytes(w), 0);
    AtIndex(buf, p, Bytes(w), 1);
  }

  lemma {:induction false} FixedReads(w: Wire, buf: seq<byte>, p: nat)
    requires w.Fixed? && Legal(w) && At(buf, p, Bytes(w))
    ensures Reads(w, buf, p)
  {
    LengthHead(buf, p, w.typ, |w.text|, w.text + CRLF);
    TextRoundTrip(buf, p + |LengthLine(w.typ, |w.text|)|, w.text);
  }

  /** A chunk line and its text, with q and r where each ends. */
  lemma {:induction false} OneChunk(c: seq<byte>, buf: seq<byte>, p: nat, q: nat, r: nat)
    requires 0 < |c| <= INT64_MAX && At(buf, p, ChunkOf(c))
    requires q == p + |LengthLine(CHUNK, |c|)| && r == q + |c| + 2
    ensures p < q < r <= |buf| && buf[p] == CHUNK && ReadI(buf, p + 1) == Number(|c|, q)
    ensures ReadText(|c|, buf, q) == Ok(Leaf(Str(c)), r)
  {
    LengthHead(buf, p, CHUNK, |c|, c + CRLF);
    TextRoundTrip(buf, q, c);
  }

  lemma ChunkStep(acc: seq<byte>, c: seq<byte>, buf: seq<byte>, p: nat, q: nat, r: nat)
    requires 0 < |c| && p < q < r <= |buf| && ReadI(buf, p + 1) == Number(|c|, q)
    requires ReadText(|c|, buf, q) == Ok(Leaf(Str(c)), r)
    ensures ReadChunks(acc, buf, p) == ReadChunks(acc + c, buf, r)
  {
  }

  lemma ChunkLength(c: seq<byte>)
    ensures |ChunkOf(c)| == |LengthLine(CHUNK, |c|)| + |c| + 2
  {
  }

  lemma {:induction false} ChunkTaken(acc: seq<byte>, c: seq<byte>, buf: seq<byte>, p: nat, r: nat)
    requires 0 < |c| <= INT64_MAX && At(buf, p, ChunkOf(c)) && r == p + |ChunkOf(c)|
    ensures ReadChunks(acc, buf, p) == ReadChunks(acc + c, buf, r)
  {
    var q := p + |LengthLine(CHUNK, |c|)|;
    ChunkLength(c);
    OneChunk(c, buf, p, q, r);
    ChunkStep(acc, c, buf, p, q, r);
  }

  lemma NothingAdded(acc: seq<byte>)
    ensures acc + [] == acc
  {
  }

  /** The bytes of a chunk list end with those of its last chunk. */
  lemma {:induction false} ChunksSnoc(cs: seq<seq<byte>>, buf: seq<byte>, p: nat, r: nat, front: seq<seq<byte>>,
                                      c: seq<byte>, q: nat)
    requires cs != [] && front == cs[..|cs| - 1] && c == cs[|cs| - 1]
    requires LegalChunks(cs) && At(buf, p, ChunkBytes(cs)) && r == p + |ChunkBytes(cs)|
    requires q == p + |ChunkBytes(front)|
    ensures LegalChunks(front) && 0 < |c| <= INT64_MAX
    ensures At(buf, p, ChunkBytes(front)) && At(buf, q, ChunkOf(c)) && r == q + |ChunkOf(c)|
  {
    AtSplit(buf, p, ChunkBytes(front), ChunkOf(c));
  }

  /** So does its text. */
  lemma {:induction false} TextSnoc(acc: seq<byte>, cs: seq<seq<byte>>, all: seq<byte>, front: seq<seq<byte>>,
                                    c: seq<byte>)
    requires cs != [] && front == cs[..|cs| - 1] && c == cs[|cs| - 1] && all == acc + Concat(cs)
    ensures all == (acc + Concat(front)) + c
  {
    Assoc(acc, Concat(front), c);
  }

  lemma {:induction false} ChunksRead(acc: seq<byte>, cs: seq<seq<byte>>, all: seq<byte>, buf: seq<byte>, p: nat,
                                      r: nat, res: Read)
    requires LegalChunks(cs) && At(buf, p, ChunkBytes(cs))
    requires all == acc + Concat(cs) && r == p + |ChunkBytes(cs)| && res == ReadChunks(all, buf, r)
    ensures ReadChunks(acc, buf, p) == res
    decreases |cs|
  {
    if cs == [] {
      NothingAdded(acc);
    } else {
      var front, c := cs[..|cs| - 1], cs[|cs| - 1];
      var most, q := acc + Concat(front), p + |ChunkBytes(front)|;
      ChunksSnoc(cs, buf, p, r, front, c, q);
      TextSnoc(acc, cs, all, front, c);
      ChunkTaken(most, c, buf, q, r);
      ChunksRead(acc, front, most, buf, p, q, res);
    }
  }

  lemma {:induction false} NoMoreChunks(acc: seq<byte>, buf: seq<byte>, p: nat)
    requires At(buf, p, LengthLine(CHUNK, 0))
    ensures p < |buf| && ReadI(buf, p + 1) == Number(0, p + |LengthLine(CHUNK, 0)|)
    ensures ReadChunks(acc, buf, p) == Ok(Leaf(Str(acc)), p + |LengthLine(CHUNK, 0)|)
    ensures buf[p] == CHUNK
  {
    var last := LengthLine(CHUNK, 0);
    assert last + [] == last;
    LengthHead(buf, p, CHUNK, 0, []);
  }

  lemma {:induction false} StreamedText(typ: byte, chunks: seq<seq<byte>>, text: seq<byte>, buf: seq<byte>, p: nat,
                                        r: nat)
    requires LegalChunks(chunks) && text == Concat(chunks)
    requires At(buf, p, ChunkedLine(typ) + (ChunkBytes(chunks) + LengthLine(CHUNK, 0)))
    requires r == p + 4 + |ChunkBytes(chunks)| + |LengthLine(CHUNK, 0)|
    ensures buf[p] == typ && ReadI(buf, p + 1) == Chunked(p + 4)
    ensures ReadChunks([], buf, p + 4) == Ok(Leaf(Str(text)), r)
  {
    var cs, last := ChunkBytes(chunks), LengthLine(CHUNK, 0);
    ChunkedHead(buf, p, typ, cs + last);
    AtSplit(buf, p + 4, cs, last);
    assert [] + text == text;
    NoMoreChunks(text, buf, p + 4 + |cs|);
    ChunksRead([], chunks, text, buf, p + 4, p + 4 + |cs|, Ok(Leaf(Str(text)), r));
  }

  lemma {:induction false} StreamedReads(w: Wire, buf: seq<byte>, p: nat)
    requires w.Streamed? && Legal(w) && At(buf, p, Bytes(w))
    ensures Reads(w, buf, p)
  {
    var r := p + |Bytes(w)|;
    StreamedText(w.typ, w.chunks, Concat(w.chunks), buf, p, r);
    StreamedBody(KindOf(w.typ), Leaf(Str(Concat(w.chunks))), buf, p + 1, p + 4, r);
  }

  lemma StreamedBody(kind: Kind, m: Msg, buf: seq<byte>, p: nat, q: nat, r: nat)
    requires p <= q <= |buf| && kind.Blob? && ReadI(buf, p) == Chunked(q) && ReadChunks([], buf, q) == Ok(m, r)
    ensures ReadBody(kind, buf, p) == Ok(m, r)
  {
  }

  lemma {:induction false} NeverEnd(w: Wire)
    requires Legal(w)
    ensures Meaning(w).typ != END
  {
    if w.With? { NeverEnd(w.value); }
  }

  /** What reading gives when an attribute has been seen. */
  function Under(attrs: Attrs, w: Wire): Msg {
    if w.With? || w.OldNullOf? then Meaning(w) else Meaning(w).(attrs := attrs)
  }

  lemma UnderNothing(w: Wire)
    ensures Under(NoAttrs, w) == Meaning(w)
  {
  }

  lemma CountDoubles(w: Wire)
    requires w.Counted? && (Legal(w) || LegalAttribute(w))
    ensures Wrap64(Count(w.typ, w.items) * 2) == |w.items| || KindOf(w.typ).Listing?
  {
  }

  lemma {:induction false} CountedReads(w: Wire, buf: seq<byte>, p: nat)
    requires w.Counted? && (Legal(w) || LegalAttribute(w)) && At(buf, p, Bytes(w))
    ensures Reads(w, buf, p)
    decreases w, 0, 0
  {
    var k := Count(w.typ, w.items);
    CountDoubles(w);
    LengthHead(buf, p, w.typ, k, BytesAll(w.items));
    var q, r := p + |LengthLine(w.typ, k)|, p + |Bytes(w)|;
    AllRead(w.items, MeaningAll(w.items), buf, q, r);
    CountedBody(KindOf(w.typ), k, |w.items|, MeaningAll(w.items), buf, p + 1, q, r);
  }

  lemma {:induction false} CountedBody(kind: Kind, n: nat, count: nat, ms: seq<Msg>, buf: seq<byte>, p: nat, q: nat,
                                       r: nat)
    requires p <= q <= |buf| && ReadI(buf, p) == Number(n, q) && ReadA(count, buf, q) == AllOk(ms, r)
    requires (kind.Listing? && count == n) || (kind.Pairs? && Wrap64(n * 2) == count)
    ensures ReadBody(kind, buf, p) == Ok(Leaf(Arr(ms)), r)
  {
    assert ReadAggregate(kind, buf, p) == Ok(Leaf(Arr(ms)), r);
  }

  lemma {:induction false} OpenReads(w: Wire, buf: seq<byte>, p: nat)
    requires w.Open? && (Legal(w) || LegalAttribute(w)) && At(buf, p, Bytes(w))
    ensures Reads(w, buf, p)
    decreases w, 0, 0
  {
    var all, end := BytesAll(w.items), [END] + CRLF;
    ChunkedHead(buf, p, w.typ, all + end);
    AtSplit(buf, p + 4, all, end);
    assert [] + MeaningAll(w.items) == MeaningAll(w.items);
    UntilEnd([], w.items, MeaningAll(w.items), buf, p + 4, p + 4 + |all|);
    EndRead(MeaningAll(w.items), buf, p + 4 + |all|);
    OpenBody(KindOf(w.typ), MeaningAll(w.items), buf, p + 1, p + 4, p + |Bytes(w)|);
  }

  lemma {:induction false} OpenBody(kind: Kind, ms: seq<Msg>, buf: seq<byte>, p: nat, q: nat, r: nat)
    requires p <= q <= |buf| && ReadI(buf, p) == Chunked(q) && ReadE([], buf, q) == AllOk(ms, r)
    requires kind.Listing? || kind.Pairs?
    ensures ReadBody(kind, buf, p) == Ok(Leaf(Arr(ms)), r)
  {
    assert ReadAggregate(kind, buf, p) == Ok(Leaf(Arr(ms)), r);
  }

  lemma {:induction false} EndRead(acc: seq<Msg>, buf: seq<byte>, p: nat)
    requires At(buf, p, [END] + CRLF)
    ensures ReadE(acc, buf, p) == AllOk(acc, p + 3)
  {
    AtIndex(buf, p, [END] + CRLF, 0);
    assert Next(NoAttrs, buf, p) == Ok(Msg(END, Num(0), 0, NoAttrs), p + 3);
  }

  /** The bytes and the meaning of a list end with those of its last value. */
  lemma {:induction false} AllSnoc(ws: seq<Wire>, ms: seq<Msg>, buf: seq<byte>, p: nat, r: nat, front: seq<Wire>,
                                   w: Wire, q: nat)
    requires ws != [] && front == ws[..|ws| - 1] && w == ws[|ws| - 1]
    requires LegalAll(ws) && At(buf, p, BytesAll(ws)) && ms == MeaningAll(ws) && r == p + |BytesAll(ws)|
    requires q == p + |BytesAll(front)|
    ensures LegalAll(front) && Legal(w)
    ensures At(buf, p, BytesAll(front)) && At(buf, q, Bytes(w)) && r == q + |Bytes(w)|
    ensures ms == MeaningAll(front) + [Meaning(w)]
  {
    AtSplit(buf, p, BytesAll(front), Bytes(w));
  }

  lemma {:induction false} AllRead(ws: seq<Wire>, ms: seq<Msg>, buf: seq<byte>, p: nat, r: nat)
    requires LegalAll(ws) && At(buf, p, BytesAll(ws))
    requires ms == MeaningAll(ws) && r == p + |BytesAll(ws)|
    ensures ReadA(|ws|, buf, p) == AllOk(ms, r)
    decreases ws, 0, 0
  {
    if ws != [] {
      var n := |ws| - 1;
      var q := p + |BytesAll(ws[..n])|;
      AllSnoc(ws, ms, buf, p, r, ws[..n], ws[n], q);
      AllRead(ws[..n], MeaningAll(ws[..n]), buf, p, q);
      ValueMeans(ws[n], Meaning(ws[n]), buf, q, r);
      OneOf(n, MeaningAll(ws[..n]), Meaning(ws[n]), buf, p, q, r);
    }
  }

  lemma OneOf(n: nat, ms: seq<Msg>, m: Msg, buf: seq<byte>, p: nat, q: nat, r: nat)
    requires p <= q <= |buf| && ReadA(n, buf, p) == AllOk(ms, q) && Next(NoAttrs, buf, q) == Ok(m, r)
    ensures ReadA(n + 1, buf, p) == AllOk(ms + [m], r)
  {
  }

  lemma {:induction false} ValueMeans(w: Wire, m: Msg, buf: seq<byte>, p: nat, r: nat)
    requires Legal(w) && At(buf, p, Bytes(w))
    requires m == Meaning(w) && r == p + |Bytes(w)|
    ensures Next(NoAttrs, buf, p) == Ok(m, r) && m.typ != END
    decreases w, 1, 1
  {
    UnderNothing(w);
    ValueReads(NoAttrs, w, m, buf, p, r);
    NeverEnd(w);
  }

  lemma {:induction false} UntilEnd(acc: seq<Msg>, ws: seq<Wire>, ms: seq<Msg>, buf: seq<byte>, p: nat, r: nat)
    requires LegalAll(ws) && At(buf, p, BytesAll(ws))
    requires ms == acc + MeaningAll(ws) && r == p + |BytesAll(ws)|
    ensures ReadE(acc, buf, p) == ReadE(ms, buf, r)
    decreases ws, 0, 0
  {
    if ws == [] {
      assert acc + [] == acc;
    } else {
      var n := |ws| - 1;
      var q := p + |BytesAll(ws[..n])|;
      AllSnoc(ws, MeaningAll(ws), buf, p, r, ws[..n], ws[n], q);
      UntilEnd(acc, ws[..n], acc + MeaningAll(ws[..n]), buf, p, q);
      ValueMeans(ws[n], Meaning(ws[n]), buf, q, r);
      OneMore(acc + MeaningAll(ws[..n]), Meaning(ws[n]), buf, q, r);
      AssocMsg(acc, MeaningAll(ws[..n]), [Meaning(ws[n])]);
    }
  }

  lemma AssocMsg(a: seq<Msg>, b: seq<Msg>, c: seq<Msg>)
    ensures (a + b) + c == a + (b + c)
  {
  }

  lemma OneMore(acc: seq<Msg>, m: Msg, buf: seq<byte>, p: nat, q: nat)
    requires p <= |buf| && Next(NoAttrs, buf, p) == Ok(m, q) && m.typ != END
    ensures ReadE(acc, buf, p) == ReadE(acc + [m], buf, q)
  {
  }

  /** Wherever a legal encoding stands, reading returns what it means and stops right behind it. */
  lemma {:induction false} ValueReads(attrs: Attrs, w: Wire, m: Msg, buf: seq<byte>, p: nat, r: nat)
    requires Legal(w) && At(buf, p, Bytes(w))
    requires m == Under(attrs, w) && r == p + |Bytes(w)|
    ensures Next(attrs, buf, p) == Ok(m, r)
    decreases w, 1, 0
  {
    if w.With? {
      var a, v := w.attribute, w.value;
      var q := p + |Bytes(a)|;
      AtSplit(buf, p, Bytes(a), Bytes(v));
      AttributeReads(a, buf, p);
      AttributeNext(attrs, a, buf, p, q);
      ValueReads(Decoded(Meaning(a)), v, m, buf, q, r);
    } else if w.OldNullOf? {
      OldNullReads(attrs, w.typ, buf, p);
    } else {
      NodeReads(w, buf, p);
      NodeNext(attrs, w, m, buf, p, r);
    }
  }

  lemma {:induction false} NodeReads(w: Wire, buf: seq<byte>, p: nat)
    requires Legal(w) && !w.With? && !w.OldNullOf? && At(buf, p, Bytes(w))
    ensures Reads(w, buf, p)
    decreases w, 0, 1
  {
    match w
    case Plain(_, _) => PlainReads(w, buf, p);
    case Integer(_) => IntegerReads(w, buf, p);
    case Boolean(_) => ConstantReads(w, buf, p);
    case Null => ConstantReads(w, buf, p);
    case Fixed(_, _) => FixedReads(w, buf, p);
    case Streamed(_, _) => StreamedReads(w, buf, p);
    case Counted(_, _) => CountedReads(w, buf, p);
    case Open(_, _) => OpenReads(w, buf, p);
  }

  lemma {:induction false} NodeNext(attrs: Attrs, w: Wire, m: Msg, buf: seq<byte>, p: nat, r: nat)
    requires Legal(w) && !w.With? && !w.OldNullOf? && Reads(w, buf, p)
    requires m == Under(attrs, w) && r == p + |Bytes(w)|
    ensures Next(attrs, buf, p) == Ok(m, r)
  {
    assert Meaning(w).typ != ATTRIBUTE && Meaning(w).ttl == 0;
  }

  lemma {:induction false} AttributeReads(a: Wire, buf: seq<byte>, p: nat)
    requires LegalAttribute(a) && At(buf, p, Bytes(a))
    ensures Reads(a, buf, p)
    decreases a, 1, 0
  {
    if a.Counted? { CountedReads(a, buf, p); } else { OpenReads(a, buf, p); }
  }

  lemma AttributeNext(attrs: Attrs, a: Wire, buf: seq<byte>, p: nat, q: nat)
    requires LegalAttribute(a) && Reads(a, buf, p) && q == p + |Bytes(a)|
    ensures Next(attrs, buf, p) == Next(Decoded(Meaning(a)), buf, q)
  {
  }

  lemma {:induction false} OldNullReads(attrs: Attrs, typ: byte, buf: seq<byte>, p: nat)
    requires Legal(OldNullOf(typ)) && At(buf, p, Bytes(OldNullOf(typ)))
    ensures Next(attrs, buf, p) == Ok(Meaning(OldNullOf(typ)), p + 5)
  {
    AtIndex(buf, p, Bytes(OldNullOf(typ)), 0);
    assert [MINUS, ZERO_DIGIT + 1] == [MINUS] + Decimal(1);
    AtSplit(buf, p, [typ], ([MINUS] + Decimal(1)) + CRLF);
    NegativeRoundTrip(buf, p + 1, 1);
    assert ReadBody(KindOf(typ), buf, p + 1) == OldNull(p + 5);
  }

  // Main results.

  /** The same value with every string and aggregate sent with its length. */
  function Unstreamed(w: Wire): Wire {
    match w
    case Streamed(typ, chunks) => Fixed(typ, Concat(chunks))
    case Counted(typ, items) => Counted(typ, UnstreamedAll(items))
    case Open(typ, items) => Counted(typ, UnstreamedAll(items))
    case With(attribute, value) => With(Unstreamed(attribute), Unstreamed(value))
    case _ => w
  }

  function UnstreamedAll(ws: seq<Wire>): (r: seq<Wire>)
    ensures |r| == |ws|
  {
    if ws == [] then [] else UnstreamedAll(ws[..|ws| - 1]) + [Unstreamed(ws[|ws| - 1])]
  }

  lemma {:induction false} UnstreamedMeaning(w: Wire)
    ensures Meaning(Unstreamed(w)) == Meaning(w)
    decreases w, 1
  {
    match w
    case Counted(_, items) => UnstreamedMeanings(items);
    case Open(_, items) => UnstreamedMeanings(items);
    case With(a, v) =>
      UnstreamedMeaning(a);
      UnstreamedMeaning(v);
    case _ =>
  }

  lemma {:induction false} UnstreamedMeanings(ws: seq<Wire>)
    ensures MeaningAll(UnstreamedAll(ws)) == MeaningAll(ws)
    decreases ws, 0
  {
    if ws != [] {
      var n := |ws| - 1;
      UnstreamedMeanings(ws[..n]);
      UnstreamedMeaning(ws[n]);
      assert UnstreamedAll(ws)[..n] == UnstreamedAll(ws[..n]);
    }
  }

  /** Streaming any of the nodes of a nested value changes neither the message nor where reading stops. */
  lemma {:induction false} StreamedAndFixedAgree(w: Wire, t: seq<byte>)
    requires Legal(w) && Legal(Unstreamed(w))
    ensures Next(NoAttrs, Bytes(w) + t, 0) == Ok(Meaning(w), |Bytes(w)|)
    ensures Next(NoAttrs, Bytes(Unstreamed(w)) + t, 0) == Ok(Meaning(w), |Bytes(Unstreamed(w))|)
  {
    AtFront(Bytes(w), t);
    AtFront(Bytes(Unstreamed(w)), t);
    ValueMeans(w, Meaning(w), Bytes(w) + t, 0, |Bytes(w)|);
    ValueMeans(Unstreamed(w), Meaning(Unstreamed(w)), Bytes(Unstreamed(w)) + t, 0, |Bytes(Unstreamed(w))|);
    UnstreamedMeaning(w);
  }

  // Commands.

  predicate Sendable(cmd: seq<seq<byte>>) {
    |cmd| <= INT64_MAX && forall i :: 0 <= i < |cmd| ==> |cmd[i]| <= INT64_MAX
  }

  function ArgumentBytes(cmd: seq<seq<byte>>): seq<byte> {
    if cmd == [] then [] else ArgumentBytes(cmd[..|cmd| - 1]) + BlobLine(BLOB_STRING, cmd[|cmd| - 1])
  }

  /** writeCmd. */
  function Written(cmd: seq<seq<byte>>): seq<byte> {
    LengthLine(ARRAY, |cmd|) + ArgumentBytes(cmd)
  }

  function WrittenAll(cmds: seq<seq<seq<byte>>>): seq<byte> {
    if cmds == [] then [] else WrittenAll(cmds[..|cmds| - 1]) + Written(cmds[|cmds| - 1])
  }

  function Blob(s: seq<byte>): Msg {
    Msg(BLOB_STRING, Str(s), 0, NoAttrs)
  }

  function BlobList(cmd: seq<seq<byte>>): (ms: seq<Msg>)
    ensures |ms| == |cmd|
  {
    if cmd == [] then [] else BlobList(cmd[..|cmd| - 1]) + [Blob(cmd[|cmd| - 1])]
  }

  lemma {:induction false} BlobListAt(cmd: seq<seq<byte>>, i: nat)
    requires i < |cmd|
    ensures BlobList(cmd)[i] == Blob(cmd[i])
  {
    if i < |cmd| - 1 { BlobListAt(cmd[..|cmd| - 1], i); }
  }

  /** A command as the array of its arguments. */
  function Blobs(cmd: seq<seq<byte>>): Msg {
    Msg(ARRAY, Arr(BlobList(cmd)), 0, NoAttrs)
  }

  function Arguments(cmd: seq<seq<byte>>): seq<Wire> {
    if cmd == [] then [] else Arguments(cmd[..|cmd| - 1]) + [Fixed(BLOB_STRING, cmd[|cmd| - 1])]
  }

  lemma {:induction false} ArgumentsLegal(cmd: seq<seq<byte>>)
    requires Sendable(cmd)
    ensures |Arguments(cmd)| == |cmd| && LegalAll(Arguments(cmd))
  {
    if cmd != [] {
      ArgumentsLegal(cmd[..|cmd| - 1]);
      assert Arguments(cmd)[..|cmd| - 1] == Arguments(cmd[..|cmd| - 1]);
    }
  }

  lemma {:induction false} ArgumentsMean(cmd: seq<seq<byte>>)
    ensures MeaningAll(Arguments(cmd)) == BlobList(cmd)
    ensures BytesAll(Arguments(cmd)) == ArgumentBytes(cmd)
  {
    if cmd != [] {
      ArgumentsMean(cmd[..|cmd| - 1]);
      var ws := Arguments(cmd);
      assert ws[..|ws| - 1] == Arguments(cmd[..|cmd| - 1]);
    }
  }

  lemma {:induction false} CommandRoundTrip(cmd: seq<seq<byte>>, buf: seq<byte>, p: nat)
    requires Sendable(cmd) && At(buf, p, Written(cmd))
    ensures Next(NoAttrs, buf, p) == Ok(Blobs(cmd), p + |Written(cmd)|)
  {
    ArgumentsLegal(cmd);
    ArgumentsMean(cmd);
    ValueMeans(Counted(ARRAY, Arguments(cmd)), Blobs(cmd), buf, p, p + |Written(cmd)|);
  }

  function BlobsAll(cmds: seq<seq<seq<byte>>>): (ms: seq<Msg>)
    ensures |ms| == |cmds| && forall i :: 0 <= i < |cmds| ==> ms[i] == Blobs(cmds[i])
  {
    if cmds == [] then [] else BlobsAll(cmds[..|cmds| - 1]) + [Blobs(cmds[|cmds| - 1])]
  }

  lemma {:induction false} CommandsAt(cmds: seq<seq<seq<byte>>>, buf: seq<byte>, p: nat)
    requires (forall i :: 0 <= i < |cmds| ==> Sendable(cmds[i])) && At(buf, p, WrittenAll(cmds))
    ensures ReadA(|cmds|, buf, p) == AllOk(BlobsAll(cmds), p + |WrittenAll(cmds)|)
  {
    if cmds != [] {
      var n := |cmds| - 1;
      AtSplit(buf, p, WrittenAll(cmds[..n]), Written(cmds[n]));
      CommandsAt(cmds[..n], buf, p);
      CommandRoundTrip(cmds[n], buf, p + |WrittenAll(cmds[..n])|);
    }
  }

  /** Commands written back to back are read back as exactly those commands, and nothing more is consumed. */
  lemma {:induction false} CommandsRoundTrip(cmds: seq<seq<seq<byte>>>, t: seq<byte>)
    requires forall i :: 0 <= i < |cmds| ==> Sendable(cmds[i])
    ensures ReadA(|cmds|, WrittenAll(cmds) + t, 0) == AllOk(BlobsAll(cmds), |WrittenAll(cmds)|)
  {
    AtFront(WrittenAll(cmds), t);
    CommandsAt(cmds, WrittenAll(cmds) + t, 0);
  }
}
