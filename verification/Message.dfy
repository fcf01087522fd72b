/** The reply tree shared by the codecs, the read loop and the cache. */
module Message {
  newtype byte = x: int | 0 <= x < 256

  const BLOB_STRING: byte := 36      // '$'
  const SIMPLE_STRING: byte := 43    // '+'
  const SIMPLE_ERR: byte := 45       // '-'
  const INTEGER: byte := 58          // ':'
  const NULL: byte := 95             // '_'
  const END: byte := 46              // '.'
  const FLOAT: byte := 44            // ','
  const BOOL: byte := 35             // '#'
  const BLOB_ERR: byte := 33         // '!'
  const VERBATIM_STRING: byte := 61  // '='
  const BIG_NUMBER: byte := 40       // '('
  const ARRAY: byte := 42            // '*'
  const MAP: byte := 37              // '%'
  const SET: byte := 126             // '~'
  const ATTRIBUTE: byte := 124       // '|'
  const PUSH: byte := 62             // '>'
  const CHUNK: byte := 59            // ';'

  /** What the pointer and length fields of a RedisMessage describe. */
  datatype Body = Num(n: int) | Str(s: seq<byte>) | Arr(vs: seq<Msg>)

  /** The attribute pointer: unset, the marker of a cached reply, or a decoded attribute. */
  datatype Attrs = NoAttrs | CacheMark | Decoded(m: Msg)

  /** typ 0 marks a message that was never received; ttl is the 56-bit expiry in milliseconds. */
  datatype Msg = Msg(typ: byte, body: Body, ttl: nat, attrs: Attrs) {
    function Text(): seq<byte> {
      if body.Str? then body.s else []
    }

    function Values(): seq<Msg> {
      if body.Arr? then body.vs else []
    }
  }

  const ZERO := Msg(0, Num(0), 0, NoAttrs)
}
