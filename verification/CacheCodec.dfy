/** The binary form in which replies are kept by external cache stores: seven bytes of expiry,
    then the reply tree, each node a type byte and a 64-bit length or number. */
module CacheCodec {
  import opened Common
  import opened Message

  // Numbers as bytes.

  function Pow256(k: nat): (p: nat)
    ensures p > 0
  {
    if k == 0 then 1 else 256 * Pow256(k - 1)
  }

  /** The k low bytes of u, least significant first. */
  function LittleEndian(u: nat, k: nat): (s: seq<byte>)
    ensures |s| == k
  {
    if k == 0 then [] else [(u % 256) as byte] + LittleEndian(u / 256, k - 1)
  }

  function FromLittleEndian(s: seq<byte>): nat {
    if s == [] then 0 else s[0] as nat + 256 * FromLittleEndian(s[1..])
  }

  function BigEndian(u: nat, k: nat): (s: seq<byte>)
    ensures |s| == k
  {
    if k == 0 then [] else BigEndian(u / 256, k - 1) + [(u % 256) as byte]
  }

  function FromBigEndian(s: seq<byte>): nat {
    if s == [] then 0 else 256 * FromBigEndian(s[..|s| - 1]) + s[|s| - 1] as nat
  }

  lemma {:induction false} LittleEndianRoundTrip(u: nat, k: nat)
    requires u < Pow256(k)
    ensures FromLittleEndian(LittleEndian(u, k)) == u
  {
    if k > 0 { LittleEndianRoundTrip(u / 256, k - 1); }
  }

  lemma {:induction false} BigEndianRoundTrip(u: nat, k: nat)
    requires u < Pow256(k)
    ensures FromBigEndian(BigEndian(u, k)) == u
  {
    if k > 0 {
      BigEndianRoundTrip(u / 256, k - 1);
      assert BigEndian(u, k)[..k - 1] == BigEndian(u / 256, k - 1);
    }
  }

  /** uint64(x), big endian. */
  function Put64(x: int): (s: seq<byte>)
    requires -INT64_MAX - 1 <= x <= INT64_MAX
    ensures |s| == 8
  {
    BigEndian(if x < 0 then x + UINT64 else x, 8)
  }

  /** int64 of eight bytes. */
  function Get64(s: seq<byte>): int
    requires |s| == 8
  {
    var u := FromBigEndian(s);
    if u > INT64_MAX then u - UINT64 else u
  }

  lemma {:induction false} Get64Put64(x: int)
    requires -INT64_MAX - 1 <= x <= INT64_MAX
    ensures Get64(Put64(x)) == x
  {
    assert Pow256(8) == UINT64 by { assert Pow256(4) == 0x1_0000_0000; }
    BigEndianRoundTrip(if x < 0 then x + UINT64 else x, 8);
  }

  // The codec.

  predicate IsScalar(typ: byte) { typ in {INTEGER, NULL, BOOL} }
  predicate IsAggregate(typ: byte) { typ in {ARRAY, MAP, SET} }

  /** A tree whose every node carries what its type says. */
  predicate Cacheable(m: Msg) {
    if IsScalar(m.typ) then m.body.Num? && -INT64_MAX - 1 <= m.body.n <= INT64_MAX
    else if IsAggregate(m.typ) then
      m.body.Arr? && |m.body.vs| <= INT64_MAX && AllCacheable(m.body.vs)
    else m.body.Str? && |m.body.s| <= INT64_MAX
  }

  predicate AllCacheable(vs: seq<Msg>) {
    vs == [] || (AllCacheable(vs[..|vs| - 1]) && Cacheable(vs[|vs| - 1]))
  }

  lemma {:induction false} EachCacheable(vs: seq<Msg>, k: nat)
    requires AllCacheable(vs) && k < |vs|
    ensures AllCacheable(vs[..k]) && Cacheable(vs[k])
    decreases |vs|
  {
    if k < |vs| - 1 {
      EachCacheable(vs[..|vs| - 1], k);
      assert vs[..|vs| - 1][..k] == vs[..k];
    }
  }

  function Size(m: Msg): nat {
    9 + (if IsScalar(m.typ) then 0
         else if IsAggregate(m.typ) then (if m.body.Arr? then Sizes(m.body.vs) else 0)
         else |m.Text()|)
  }

  function Sizes(vs: seq<Msg>): nat {
    if vs == [] then 0 else Sizes(vs[..|vs| - 1]) + Size(vs[|vs| - 1])
  }

  function CacheSize(m: Msg): nat {
    Size(m) + 7
  }

  function Serialize(m: Msg): seq<byte>
    requires Cacheable(m)
  {
    if IsScalar(m.typ) then [m.typ] + Put64(m.body.n)
    else if IsAggregate(m.typ) then [m.typ] + Put64(|m.body.vs|) + SerializeAll(m.body.vs)
    else [m.typ] + Put64(|m.body.s|) + m.body.s
  }

  function SerializeAll(vs: seq<Msg>): seq<byte>
    requires AllCacheable(vs)
  {
    if vs == [] then [] else SerializeAll(vs[..|vs| - 1]) + Serialize(vs[|vs| - 1])
  }

  /** What decoding restores: types, texts, numbers and children. */
  function Strip(m: Msg): Msg {
    Msg(m.typ, if m.body.Arr? then Arr(StripAll(m.body.vs)) else m.body, 0, NoAttrs)
  }

  function StripAll(vs: seq<Msg>): (r: seq<Msg>)
    ensures |r| == |vs|
  {
    if vs == [] then [] else StripAll(vs[..|vs| - 1]) + [Strip(vs[|vs| - 1])]
  }

  /** `Panic` is the source's slice or allocation with a negative length. */
  datatype Parsed = Ok(m: Msg, used: nat) | Error | Panic

  /** Several values in a row, or what the first failing one returned. */
  datatype ParsedAll = AllOk(ms: seq<Msg>, used: nat) | Stopped(why: Parsed)

  /** unmarshalView at offset c of a buffer whose rest is s. */
  function Unmarshal(c: nat, s: seq<byte>): (r: Parsed)
    ensures r.Ok? ==> 9 <= r.used <= |s|
    decreases |s|, 0, 0
  {
    if |s| < 9 then Error else UnmarshalNode(s[0], Get64(s[1..9]), c + 9, s[9..])
  }

  /** The part of a node behind its header. */
  function UnmarshalNode(typ: byte, size: int, c: nat, s: seq<byte>): (r: Parsed)
    ensures r.Ok? ==> 9 <= r.used <= 9 + |s|
    decreases |s|, 2, 0
  {
    if IsScalar(typ) then Ok(Msg(typ, Num(size), 0, NoAttrs), 9)
    else if IsAggregate(typ) then
      if size < 0 then Panic
      else match UnmarshalAll(size, c, s)
        case AllOk(ms, used) => Ok(Msg(typ, Arr(ms), 0, NoAttrs), 9 + used)
        case Stopped(why) => why
    else if size < 0 || c + size > INT64_MAX then Panic
    else if |s| < size then Error
    else Ok(Msg(typ, Str(s[..size]), 0, NoAttrs), 9 + size)
  }

  function UnmarshalAll(n: nat, c: nat, s: seq<byte>): (r: ParsedAll)
    ensures r.AllOk? ==> r.used <= |s|
    ensures r.Stopped? ==> !r.why.Ok?
    decreases |s|, 1, n
  {
    if n == 0 then AllOk([], 0)
    else match UnmarshalAll(n - 1, c, s)
      case AllOk(ms, used) => (
        match Unmarshal(c + used, s[used..])
        case Ok(m, more) => AllOk(ms + [m], used + more)
        case failed => Stopped(failed))
      case stopped => stopped
  }

  function Marshal(m: Msg): seq<byte>
    requires Cacheable(m)
  {
    LittleEndian(m.ttl, 7) + Serialize(m)
  }

  function CacheUnmarshal(buf: seq<byte>): Parsed {
    if |buf| < 7 then Error
    else match Unmarshal(7, buf[7..])
      case Ok(m, used) => Ok(m.(ttl := FromLittleEndian(buf[..7]), attrs := CacheMark), 7 + used)
      case Error => Error
      case Panic => Panic
  }

  // Laws.

  lemma {:induction false} SerializeSize(m: Msg)
    requires Cacheable(m)
    ensures |Serialize(m)| == Size(m)
    decreases m, 1
  {
    if IsAggregate(m.typ) { SerializeSizes(m.body.vs); }
  }

  lemma {:induction false} SerializeSizes(vs: seq<Msg>)
    requires AllCacheable(vs)
    ensures |SerializeAll(vs)| == Sizes(vs)
    decreases vs, 0
  {
    if vs != [] {
      SerializeSizes(vs[..|vs| - 1]);
      SerializeSize(vs[|vs| - 1]);
    }
  }

  /** The nine bytes that start every node. */
  lemma {:induction false} Header(typ: byte, x: int, t: seq<byte>)
    requires -INT64_MAX - 1 <= x <= INT64_MAX
    ensures var s := [typ] + Put64(x) + t; |s| == 9 + |t| && s[0] == typ && Get64(s[1..9]) == x && s[9..] == t
  {
    var s := [typ] + Put64(x) + t;
    assert s[1..9] == Put64(x);
    Get64Put64(x);
  }

  lemma AllNext(i: nat, start: nat, s: seq<byte>, msgs: seq<Msg>, used: nat, one: Parsed)
    requires UnmarshalAll(i, start, s) == AllOk(msgs, used) && one == Unmarshal(start + used, s[used..])
    ensures UnmarshalAll(i + 1, start, s) == if one.Ok? then AllOk(msgs + [one.m], used + one.used) else Stopped(one)
  {
  }

  lemma Assoc(a: seq<byte>, b: seq<byte>, c: seq<byte>)
    ensures (a + b) + c == a + (b + c)
    ensures (a + (b + c))[|a|..] == b + c
  {
  }

  lemma {:induction false} TextRoundTrip(c: nat, m: Msg, t: seq<byte>)
    requires Cacheable(m) && !IsScalar(m.typ) && !IsAggregate(m.typ) && c + Size(m) <= INT64_MAX
    ensures Unmarshal(c, Serialize(m) + t) == Ok(Strip(m), |Serialize(m)|)
  {
    Header(m.typ, |m.body.s|, m.body.s + t);
    assert Serialize(m) + t == [m.typ] + Put64(|m.body.s|) + (m.body.s + t);
    assert (Serialize(m) + t)[9..9 + |m.body.s|] == m.body.s;
  }

  lemma {:induction false} AggregateHead(m: Msg, t: seq<byte>)
    requires Cacheable(m) && IsAggregate(m.typ)
    ensures var s := Serialize(m) + t;
      |s| >= 9 && s[0] == m.typ && Get64(s[1..9]) == |m.body.vs| && s[9..] == SerializeAll(m.body.vs) + t
  {
    Header(m.typ, |m.body.vs|, SerializeAll(m.body.vs) + t);
    assert Serialize(m) + t == [m.typ] + Put64(|m.body.vs|) + (SerializeAll(m.body.vs) + t);
  }

  /** Decoding what was encoded gives the tree back and stops at its last byte. */
  lemma {:induction false} RoundTrip(c: nat, m: Msg, t: seq<byte>)
    requires Cacheable(m) && c + Size(m) <= INT64_MAX
    ensures Unmarshal(c, Serialize(m) + t) == Ok(Strip(m), |Serialize(m)|)
    decreases m, 1
  {
    if IsScalar(m.typ) {
      Header(m.typ, m.body.n, t);
    } else if IsAggregate(m.typ) {
      AggregateHead(m, t);
      RoundTripAll(c + 9, m.body.vs, t);
    } else {
      TextRoundTrip(c, m, t);
    }
  }

  lemma {:induction false} RoundTripAll(c: nat, vs: seq<Msg>, t: seq<byte>)
    requires AllCacheable(vs) && c + Sizes(vs) <= INT64_MAX
    ensures UnmarshalAll(|vs|, c, SerializeAll(vs) + t) == AllOk(StripAll(vs), |SerializeAll(vs)|)
    decreases vs, 0
  {
    if vs != [] {
      var n := |vs| - 1;
      var r, l := SerializeAll(vs[..n]), Serialize(vs[n]);
      RoundTripAll(c, vs[..n], l + t);
      SerializeSizes(vs[..n]);
      RoundTrip(c + |r|, vs[n], t);
      Assoc(r, l, t);
      AllNext(n, c, r + (l + t), StripAll(vs[..n]), |r|, Ok(Strip(vs[n]), |l|));
    }
  }

  lemma {:induction false} TextPrefix(c: nat, m: Msg, k: nat)
    requires Cacheable(m) && !IsScalar(m.typ) && !IsAggregate(m.typ) && c + Size(m) <= INT64_MAX
    requires 9 <= k < |Serialize(m)|
    ensures Unmarshal(c, Serialize(m)[..k]) == Error
  {
    Header(m.typ, |m.body.s|, m.body.s);
    assert Serialize(m)[..k][1..9] == Serialize(m)[1..9];
  }

  lemma {:induction false} CutThenDrop(s: seq<byte>, k: nat, j: nat)
    requires j <= k <= |s|
    ensures s[..k][j..] == s[j..][..k - j]
  {
    forall i | 0 <= i < k - j ensures s[..k][j..][i] == s[j..][..k - j][i] {}
  }

  lemma CutFirst(a: seq<byte>, b: seq<byte>, k: nat)
    requires k <= |a|
    ensures (a + b)[..k] == a[..k]
  {
  }

  lemma CutSecond(a: seq<byte>, b: seq<byte>, k: nat)
    requires |a| <= k <= |a| + |b|
    ensures (a + b)[..k] == a + b[..k - |a|]
    ensures (a + b)[..k][|a|..] == b[..k - |a|]
  {
  }

  /** A cut encoding is refused with an error: no proper prefix decodes, and none panics. */
  lemma {:induction false} PrefixRejected(c: nat, m: Msg, k: nat)
    requires Cacheable(m) && c + Size(m) <= INT64_MAX
    requires k < |Serialize(m)|
    ensures Unmarshal(c, Serialize(m)[..k]) == Error
    decreases m, 1
  {
    if k >= 9 && IsAggregate(m.typ) {
      var vs, s := m.body.vs, Serialize(m);
      AggregateHead(m, []);
      assert s + [] == s;
      assert s[..k][1..9] == s[1..9];
      CutThenDrop(s, k, 9);
      assert SerializeAll(vs) + [] == SerializeAll(vs);
      PrefixRejectedAll(c + 9, vs, k - 9);
    } else if k >= 9 && !IsScalar(m.typ) {
      TextPrefix(c, m, k);
    }
  }

  lemma {:induction false} PrefixRejectedAll(c: nat, vs: seq<Msg>, k: nat)
    requires AllCacheable(vs) && c + Sizes(vs) <= INT64_MAX
    requires k < |SerializeAll(vs)|
    ensures UnmarshalAll(|vs|, c, SerializeAll(vs)[..k]) == Stopped(Error)
    decreases vs, 0
  {
    var n, s := |vs| - 1, SerializeAll(vs)[..k];
    var r, l := SerializeAll(vs[..n]), Serialize(vs[n]);
    if k < |r| {
      PrefixRejectedAll(c, vs[..n], k);
      CutFirst(r, l, k);
    } else {
      CutSecond(r, l, k);
      RoundTripAll(c, vs[..n], l[..k - |r|]);
      SerializeSizes(vs[..n]);
      PrefixRejected(c + |r|, vs[n], k - |r|);
      AllNext(n, c, s, StripAll(vs[..n]), |r|, Error);
    }
  }

  lemma ExpiryFirst(m: Msg)
    requires Cacheable(m)
    ensures |Marshal(m)| == 7 + |Serialize(m)|
    ensures Marshal(m)[..7] == LittleEndian(m.ttl, 7) && Marshal(m)[7..] == Serialize(m)
  {
  }

  /** Decoding restores the tree and the expiry, and the size was announced exactly. */
  lemma {:induction false} CacheRoundTrip(m: Msg)
    requires Cacheable(m) && CacheSize(m) <= INT64_MAX && m.ttl < Pow256(7)
    ensures |Marshal(m)| == CacheSize(m)
    ensures CacheUnmarshal(Marshal(m)) == Ok(Strip(m).(ttl := m.ttl, attrs := CacheMark), CacheSize(m))
  {
    ExpiryFirst(m);
    SerializeSize(m);
    LittleEndianRoundTrip(m.ttl, 7);
    assert Serialize(m) + [] == Serialize(m);
    RoundTrip(7, m, []);
  }

  /** Every proper prefix of an encoding is refused with an error. */
  lemma {:induction false} CachePrefixRejected(m: Msg, k: nat)
    requires Cacheable(m) && k < CacheSize(m) <= INT64_MAX
    ensures k <= |Marshal(m)| && CacheUnmarshal(Marshal(m)[..k]) == Error
  {
    ExpiryFirst(m);
    SerializeSize(m);
    if k >= 7 {
      CutThenDrop(Marshal(m), k, 7);
      PrefixRejected(7, m, k - 7);
    }
  }

  // The source's loops.

  class Buffer {
    var data: seq<byte>

    constructor (initial: seq<byte>)
      ensures data == initial
    {
      data := initial;
    }

    method Write(s: seq<byte>)
      modifies this
      ensures data == old(data) + s
    {
      data := data + s;
    }
  }

  method SerializeTo(m: Msg, o: Buffer)
    requires Cacheable(m)
    modifies o
    ensures o.data == old(o.data) + Serialize(m)
    decreases m, 1
  {
    o.Write([m.typ]);
    if IsScalar(m.typ) {
      o.Write(Put64(m.body.n));
    } else if IsAggregate(m.typ) {
      o.Write(Put64(|m.body.vs|));
      SerializeValues(m, o);
    } else {
      o.Write(Put64(|m.body.s|));
      o.Write(m.body.s);
    }
  }

  method SerializeValues(m: Msg, o: Buffer)
    requires m.body.Arr? && AllCacheable(m.body.vs)
    modifies o
    ensures o.data == old(o.data) + SerializeAll(m.body.vs)
    decreases m, 0
  {
    var vs := m.body.vs;
    for i := 0 to |vs|
      invariant AllCacheable(vs[..i]) && o.data == old(o.data) + SerializeAll(vs[..i])
    {
      EachCacheable(vs, i);
      SerializeTo(vs[i], o);
      assert vs[..i + 1][..i] == vs[..i];
    }
    assert vs[..|vs|] == vs;
  }

  method CacheMarshal(m: Msg, buf: seq<byte>) returns (r: seq<byte>)
    requires Cacheable(m)
    ensures r == buf + Marshal(m)
  {
    var o := new Buffer(buf);
    o.Write(LittleEndian(m.ttl, 7));
    SerializeTo(m, o);
    r := o.data;
  }

  /** A failure among the first i values fails the whole list. */
  lemma {:induction false} FailureStays(i: nat, n: nat, c: nat, s: seq<byte>)
    requires i <= n && UnmarshalAll(i, c, s).Stopped?
    ensures UnmarshalAll(n, c, s) == UnmarshalAll(i, c, s)
    decreases n
  {
    if i < n { FailureStays(i, n - 1, c, s); }
  }

  method UnmarshalView(c: nat, buf: seq<byte>) returns (r: Parsed)
    requires c <= |buf|
    ensures r == Unmarshal(c, buf[c..])
    decreases |buf| - c, 1
  {
    if |buf| < c + 9 {
      return Error;
    }
    var typ, size := buf[c], Get64(buf[c + 1..c + 9]);
    assert buf[c..][1..9] == buf[c + 1..c + 9];
    if IsScalar(typ) {
      return Ok(Msg(typ, Num(size), 0, NoAttrs), 9);
    }
    if IsAggregate(typ) {
      if size < 0 {
        return Panic;
      }
      var values := UnmarshalValues(size, c + 9, buf);
      assert buf[c..][9..] == buf[c + 9..];
      return match values
        case AllOk(ms, used) => Ok(Msg(typ, Arr(ms), 0, NoAttrs), 9 + used)
        case Stopped(why) => why;
    }
    if size < 0 || c + 9 + size > INT64_MAX {
      return Panic;
    }
    if |buf| < c + 9 + size {
      return Error;
    }
    assert buf[c..][9..][..size] == buf[c + 9..c + 9 + size];
    return Ok(Msg(typ, Str(buf[c + 9..c + 9 + size]), 0, NoAttrs), 9 + size);
  }

  method UnmarshalValues(size: nat, start: nat, buf: seq<byte>) returns (r: ParsedAll)
    requires start <= |buf|
    ensures r == UnmarshalAll(size, start, buf[start..])
    decreases |buf| - start, 2
  {
    var msgs, c := [], start;
    ghost var s := buf[start..];
    for i := 0 to size
      invariant start <= c <= |buf|
      invariant UnmarshalAll(i, start, s) == AllOk(msgs, c - start)
    {
      var one := UnmarshalView(c, buf);
      AllNext(i, start, s, msgs, c - start, one);
      if !one.Ok? {
        FailureStays(i + 1, size, start, s);
        return Stopped(one);
      }
      msgs, c := msgs + [one.m], c + one.used;
    }
    r := AllOk(msgs, c - start);
  }
}
