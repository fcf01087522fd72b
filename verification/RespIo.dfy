/** The reader and writer of the connection as they run: a buffered input with a read position
    and an output that grows. Each method is the source's loop and is proved to compute the
    function of the same name. */
module RespIo {
  import opened Common
  import opened Message
  import opened Resp
  import opened RespWire
  import opened RespStream
  import opened RespWriter

  const LETTER_O: byte := 79
  const LETTER_K: byte := 75

  lemma {:induction false} NoDigitsAfterBadByte(buf: seq<byte>, a: nat, b: nat, c: nat)
    requires a <= b <= c <= |buf| && Digits(buf, a, b).None?
    ensures Digits(buf, a, c).None?
    decreases c
  {
    if b < c { NoDigitsAfterBadByte(buf, a, b, c - 1); }
  }

  lemma {:induction false} FailureStays(i: nat, n: nat, buf: seq<byte>, p: nat)
    requires i <= n && p <= |buf| && ReadA(i, buf, p).Stopped?
    ensures ReadA(n, buf, p) == ReadA(i, buf, p)
    decreases n
  {
    if i < n { FailureStays(i, n - 1, buf, p); }
  }

  /** The fast path of readS agrees with the general one. */
  lemma {:induction false} OkLine(buf: seq<byte>, p: nat)
    requires p + 4 <= |buf| && buf[p] == LETTER_O && buf[p + 1] == LETTER_K && buf[p + 2] == CR && buf[p + 3] == LF
    ensures ReadS(buf, p) == Ok(Leaf(Str([LETTER_O, LETTER_K])), p + 4)
  {
    assert LineEnd(buf, p + 2) == p + 4;
    assert LineEnd(buf, p) == p + 4;
    assert buf[p..p + 2] == [LETTER_O, LETTER_K];
  }

  class Input {
    const buf: seq<byte>
    var pos: nat

    ghost predicate Valid()
      reads this
    {
      pos <= |buf|
    }

    constructor (received: seq<byte>)
      ensures Valid() && buf == received && pos == 0
    {
      buf, pos := received, 0;
    }

    /** Where `pos` is after a result that says where it stopped. */
    ghost predicate StoppedAt(r: Read)
      reads this
    {
      Valid() && (r.Ok? || r.OldNull? ==> pos == r.next)
    }

    /** ReadSlice and ReadBytes up to a line feed. */
    method ReadLine() returns (k: nat)
      requires Valid()
      modifies this
      ensures Valid() && k == LineEnd(buf, old(pos)) && (k != 0 ==> pos == k)
    {
      ghost var from := pos;
      while pos < |buf|
        invariant pos <= |buf| && LineEnd(buf, pos) == LineEnd(buf, from)
      {
        pos := pos + 1;
        if buf[pos - 1] == LF {
          return pos;
        }
      }
      k := 0;
    }

    method ReadI() returns (r: Number)
      requires Valid()
      modifies this
      ensures Valid() && r == Resp.ReadI(buf, old(pos)) && (!r.BadNumber? ==> pos == r.next)
    {
      var p := pos;
      var k := ReadLine();
      if k < p + 3 {
        return BadNumber;
      }
      if buf[p] == QUESTION {
        return Chunked(k);
      }
      var s, from := 1, p;
      if buf[p] == MINUS {
        s, from := -1, p + 1;
      }
      var v := 0;
      for i := from to k - 2
        invariant Digits(buf, from, i) == Some(v)
      {
        if !(ZERO_DIGIT <= buf[i] <= 57) {
          NoDigitsAfterBadByte(buf, from, i + 1, k - 2);
          return BadNumber;
        }
        v := Wrap64(v * 10 + (buf[i] - ZERO_DIGIT) as int);
      }
      r := Number(if s == 1 then v else Wrap64(-v), k);
    }

    method ReadS() returns (r: Read)
      requires Valid()
      modifies this
      ensures r == Resp.ReadS(buf, old(pos)) && StoppedAt(r)
    {
      var p := pos;
      if p + 4 <= |buf| && buf[p] == LETTER_O && buf[p + 1] == LETTER_K && buf[p + 2] == CR && buf[p + 3] == LF {
        OkLine(buf, p);
        pos := p + 4;
        return Ok(Leaf(Str([LETTER_O, LETTER_K])), pos);
      }
      var k := ReadLine();
      if k < p + 2 {
        return Fail;
      }
      r := Ok(Leaf(Str(buf[p..k - 2])), k);
    }

    method ReadText(n: int) returns (r: Read)
      requires Valid()
      modifies this
      ensures r == Resp.ReadText(n, buf, old(pos)) && StoppedAt(r)
    {
      if n < 0 {
        return Panic;
      }
      if |buf| < pos + n + 2 {
        return Fail;
      }
      var p := pos;
      pos := p + n + 2;
      r := Ok(Leaf(Str(buf[p..p + n])), pos);
    }

    method ReadChunks() returns (r: Read)
      requires Valid()
      modifies this
      ensures r == Resp.ReadChunks([], buf, old(pos)) && StoppedAt(r)
    {
      var sb := [];
      ghost var whole := Resp.ReadChunks([], buf, pos);
      while true
        invariant Valid() && Resp.ReadChunks(sb, buf, pos) == whole
        decreases |buf| - pos
      {
        if pos == |buf| {
          return Fail;
        }
        pos := pos + 1;
        var number := ReadI();
        if !number.Number? {
          return Fail;
        }
        if number.v == 0 {
          return Ok(Leaf(Str(sb)), pos);
        }
        var text := ReadText(number.v);
        if !text.Ok? {
          return text;
        }
        sb := sb + text.m.Text();
      }
    }

    method ReadBlobString() returns (r: Read)
      requires Valid()
      modifies this
      ensures r == Resp.ReadBlobString(buf, old(pos)) && StoppedAt(r)
    {
      var number := ReadI();
      match number
      case BadNumber => r := Fail;
      case Chunked(_) => r := ReadChunks();
      case Number(n, q) =>
        if n == -1 {
          r := OldNull(q);
        } else {
          r := ReadText(n);
        }
    }

    method ReadLeaf(kind: Kind) returns (r: Read)
      requires Valid() && !kind.Listing? && !kind.Pairs?
      modifies this
      ensures r == ReadBody(kind, buf, old(pos)) && StoppedAt(r)
    {
      match kind
      case Line => r := ReadS();
      case Blob => r := ReadBlobString();
      case Int =>
        var number := ReadI();
        r := if number.Number? then Ok(Leaf(Num(number.v)), pos) else Fail;
      case Flag =>
        if |buf| < pos + 3 {
          return Fail;
        }
        pos := pos + 3;
        r := Ok(Leaf(Num(if buf[pos - 3] == LETTER_T then 1 else 0)), pos);
      case Nothing =>
        if |buf| < pos + 2 {
          return Fail;
        }
        pos := pos + 2;
        r := Ok(Leaf(Num(0)), pos);
      case _ => r := Fail;
    }

    method ReadAggregate(kind: Kind) returns (r: Read)
      requires Valid()
      modifies this
      ensures r == Resp.ReadAggregate(kind, buf, old(pos)) && StoppedAt(r)
      decreases |buf| - pos, 1
    {
      var number := ReadI();
      var all: ReadAll;
      match number {
        case BadNumber => return Fail;
        case Chunked(_) => all := ReadUntilEnd();
        case Number(n, q) =>
          if kind.Listing? && n == -1 {
            return OldNull(q);
          }
          var count := if kind.Pairs? then Wrap64(n * 2) else n;
          if count < 0 {
            return Panic;
          }
          all := ReadCounted(count);
      }
      r := Aggregate(all);
    }

    method ReadCounted(n: nat) returns (r: ReadAll)
      requires Valid()
      modifies this
      ensures Valid() && r == ReadA(n, buf, old(pos)) && (r.AllOk? ==> pos == r.next)
      decreases |buf| - pos, 2
    {
      var msgs: seq<Msg> := [];
      ghost var from := pos;
      for i := 0 to n
        invariant from <= pos <= |buf| && ReadA(i, buf, from) == AllOk(msgs, pos)
      {
        var one := ReadNextMessage();
        if !one.Ok? {
          FailureStays(i + 1, n, buf, from);
          return Stopped(one);
        }
        msgs := msgs + [one.m];
      }
      r := AllOk(msgs, pos);
    }

    method ReadUntilEnd() returns (r: ReadAll)
      requires Valid()
      modifies this
      ensures Valid() && r == ReadE([], buf, old(pos)) && (r.AllOk? ==> pos == r.next)
      decreases |buf| - pos, 2
    {
      var v: seq<Msg> := [];
      ghost var from := pos;
      while true
        invariant from <= pos <= |buf| && ReadE(v, buf, pos) == ReadE([], buf, from)
        decreases |buf| - pos
      {
        var n := ReadNextMessage();
        if !n.Ok? {
          return Stopped(n);
        }
        if n.m.typ == END {
          return AllOk(v, pos);
        }
        v := v + [n.m];
      }
    }

    method ReadNextMessage() returns (r: Read)
      requires Valid()
      modifies this
      ensures r == Next(NoAttrs, buf, old(pos)) && StoppedAt(r)
      decreases |buf| - pos, 1
    {
      var attrs := NoAttrs;
      ghost var from := pos;
      while true
        invariant from <= pos <= |buf| && Next(attrs, buf, pos) == Next(NoAttrs, buf, from)
        decreases |buf| - pos
      {
        if pos == |buf| {
          return Fail;
        }
        var typ := buf[pos];
        pos := pos + 1;
        var kind := KindOf(typ);
        var m: Read;
        if kind.Listing? || kind.Pairs? {
          m := ReadAggregate(kind);
        } else {
          m := ReadLeaf(kind);
        }
        if m.OldNull? {
          return Ok(Msg(NULL, Num(0), 0, NoAttrs), pos);
        }
        if !m.Ok? {
          return m;
        }
        if typ != ATTRIBUTE {
          return Ok(m.m.(typ := typ, attrs := attrs), pos);
        }
        attrs := Decoded(m.m.(typ := typ));
      }
    }

    /** io.Copy of at most n bytes, then the discard of the rest of the text and its line end. */
    method CopyText(n: int, w: Output) returns (r: Copied)
      requires Valid()
      modifies this, w
      ensures Valid() && r == RespStream.CopyText(n, buf, old(pos))
      ensures w.data == old(w.data) + r.wrote && (r.clean ==> pos == r.next)
    {
      var p := pos;
      var k := if n <= 0 then 0 else if p + n <= |buf| then n else |buf| - p;
      w.Write(buf[p..p + k]);
      pos := p + k;
      var discard := Wrap64(n + 2) - k;
      if discard < 0 || pos + discard > |buf| {
        return Copied(buf[p..p + k], k, Broken, false, 0);
      }
      pos := pos + discard;
      r := Copied(buf[p..p + k], k, NoErr, true, pos);
    }

    method StreamText(typ: byte, w: Output) returns (r: Copied)
      requires Valid()
      modifies this, w
      ensures Valid() && r == RespStream.StreamText(typ, buf, old(pos))
      ensures r.Copied? ==> w.data == old(w.data) + r.wrote && (r.clean ==> pos == r.next)
      decreases |buf| - pos, 3
    {
      var number := ReadI();
      match number
      case BadNumber => r := BROKEN;
      case Chunked(_) => r := StreamChunks(w);
      case Number(n, q) =>
        if n == -1 {
          r := Copied([], 0, NilReply, true, q);
        } else if n == 0 && typ == CHUNK {
          r := Copied([], 0, NoErr, true, q);
        } else {
          r := CopyText(n, w);
        }
    }

    method StreamChunks(w: Output) returns (r: Copied)
      requires Valid()
      modifies this, w
      ensures Valid() && r == RespStream.StreamChunks([], 0, buf, old(pos))
      ensures r.Copied? ==> w.data == old(w.data) + r.wrote && (r.clean ==> pos == r.next)
      decreases |buf| - pos, 2
    {
      ghost var whole := RespStream.StreamChunks([], 0, buf, pos);
      ghost var before, from := w.data, pos;
      var wrote, n := [], 0;
      while true
        invariant from <= pos <= |buf| && RespStream.StreamChunks(wrote, n, buf, pos) == whole
        invariant w.data == before + wrote
        decreases |buf| - pos
      {
        var one := StreamTo(w);
        if one.Crash? {
          return Crash;
        }
        wrote, n := wrote + one.wrote, n + one.n;
        if one.n == 0 || !one.clean || !one.err.NoErr? {
          return Copied(wrote, n, one.err, one.clean && one.err.NoErr?, one.next);
        }
      }
    }

    method StreamTo(w: Output) returns (r: Copied)
      requires Valid()
      modifies this, w
      ensures Valid() && r == RespStream.StreamTo(buf, old(pos))
      ensures r.Copied? ==> w.data == old(w.data) + r.wrote && (r.clean ==> pos == r.next)
      decreases |buf| - pos, 1
    {
      ghost var whole := RespStream.StreamTo(buf, pos);
      ghost var from := pos;
      while true
        invariant from <= pos <= |buf| && RespStream.StreamTo(buf, pos) == whole && w.data == old(w.data)
        decreases |buf| - pos
      {
        if pos == |buf| {
          return BROKEN;
        }
        var typ := buf[pos];
        if IsText(typ) {
          pos := pos + 1;
          r := StreamText(typ, w);
          return;
        }
        var next := ReadNextMessage();
        if next.Panic? {
          return Crash;
        }
        if !next.Ok? {
          return BROKEN;
        }
        if next.m.typ != PUSH {
          r := CopyMessage(next.m, next.next);
          w.Write(r.wrote);
          return;
        }
      }
    }
  }
}
