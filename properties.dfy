/** The property cursor `prop`: one typed record of a node's property list.

    A record is a one-byte type tag followed by a payload whose length the tag
    determines: a fixed width for the scalar tags, a 12-byte header (element count,
    encoding, compressed length) and a payload for the array tags, and a `u4` length
    and that many bytes for the string and raw tags. */
module Properties {
  import opened Bytes
  import opened Results
  import Decimal

  const TagInt16: byte := 'Y' as int
  const TagBool: byte := 'C' as int
  const TagInt32: byte := 'I' as int
  const TagFloat32: byte := 'F' as int
  const TagFloat64: byte := 'D' as int
  const TagInt64: byte := 'L' as int
  const TagFloat32Array: byte := 'f' as int
  const TagFloat64Array: byte := 'd' as int
  const TagInt64Array: byte := 'l' as int
  const TagInt32Array: byte := 'i' as int
  const TagBoolArray: byte := 'b' as int
  const TagString: byte := 'S' as int
  const TagRaw: byte := 'R' as int

  /** Payload width of each scalar tag. */
  const ScalarWidth: map<byte, nat> :=
    map[TagInt16 := 2, TagBool := 1, TagInt32 := 4, TagFloat32 := 4, TagFloat64 := 8, TagInt64 := 8]

  /** Width of one element of each array tag. */
  const ElementWidth: map<byte, nat> :=
    map[TagFloat32Array := 4, TagFloat64Array := 8, TagInt64Array := 8, TagInt32Array := 4, TagBoolArray := 1]

  predicate IsSized(tag: byte) {
    tag == TagString || tag == TagRaw
  }

  predicate KnownTag(tag: byte) {
    tag in ScalarWidth || tag in ElementWidth || IsSized(tag)
  }

  /** The offset one past the record that starts at `off`, computed from the tag tables:
      where `prop::operator++` moves the cursor. */
  function PropertyEnd(buf: seq<byte>, off: nat): (r: Result<nat>)
    ensures r.Ok? ==> off < |buf| && off < r.value
    ensures r == Err(BadProperty) <==> off < |buf| && !KnownTag(buf[off])
  {
    if off >= |buf| then Err(Truncated)
    else
      var tag := buf[off];
      if tag in ScalarWidth then Ok(off + 1 + ScalarWidth[tag])
      else if tag in ElementWidth then
        if off + 13 > |buf| then Err(Truncated)
        else
          var count, encoding, compressed := U4(buf, off + 1), U4(buf, off + 5), U4(buf, off + 9);
          Ok(off + 13 + (if encoding == 0 then count * ElementWidth[tag] else compressed))
      else if IsSized(tag) then
        if off + 5 > |buf| then Err(Truncated) else Ok(off + 5 + U4(buf, off + 1))
      else Err(BadProperty)
  }

  /** A scalar record is the tag and its fixed-width payload. */
  lemma ScalarAdvance(buf: seq<byte>, off: nat)
    requires off < |buf| && buf[off] in ScalarWidth
    ensures buf[off] == TagInt16 ==> PropertyEnd(buf, off) == Ok(off + 1 + 2)
    ensures buf[off] == TagBool ==> PropertyEnd(buf, off) == Ok(off + 1 + 1)
    ensures buf[off] == TagInt32 ==> PropertyEnd(buf, off) == Ok(off + 1 + 4)
    ensures buf[off] == TagFloat32 ==> PropertyEnd(buf, off) == Ok(off + 1 + 4)
    ensures buf[off] == TagFloat64 ==> PropertyEnd(buf, off) == Ok(off + 1 + 8)
    ensures buf[off] == TagInt64 ==> PropertyEnd(buf, off) == Ok(off + 1 + 8)
  {
  }

  /** An array record is the tag, the 12-byte array header and either the raw elements
      (encoding 0) or the compressed bytes. */
  lemma ArrayAdvance(buf: seq<byte>, off: nat)
    requires off + 13 <= |buf| && buf[off] in ElementWidth
    ensures var width := if buf[off] == TagBoolArray then 1
                         else if buf[off] == TagFloat32Array || buf[off] == TagInt32Array then 4
                         else 8;
            PropertyEnd(buf, off) ==
              Ok(off + 1 + 12 + (if U4(buf, off + 5) == 0 then U4(buf, off + 1) * width else U4(buf, off + 9)))
  {
  }

  /** A string or raw record is the tag, a `u4` length and that many bytes. */
  lemma SizedAdvance(buf: seq<byte>, off: nat)
    requires off + 5 <= |buf| && IsSized(buf[off])
    ensures PropertyEnd(buf, off) == Ok(off + 1 + 4 + U4(buf, off + 1))
  {
  }

  /** What a record denotes.  Floating-point values are kept as their bit patterns. */
  datatype Value =
    | Int16(i: int)
    | Bool(b: bool)
    | Int32(i: int)
    | Float32(bits: nat)
    | Float64(bits: nat)
    | Int64(i: int)
    | ArrayOpaque
    | RawOpaque
    | Text(bytes: seq<byte>)

  /** The value of the record at `off`, reading only what `operator std::string` reads. */
  function Decode(buf: seq<byte>, off: nat): (r: Result<Value>)
    ensures r == Err(BadProperty) <==> off < |buf| && !KnownTag(buf[off])
    ensures r.Ok? ==> off < |buf|
    ensures r.Ok? && (buf[off] in ScalarWidth || buf[off] == TagString) ==>
              PropertyEnd(buf, off).Ok? && PropertyEnd(buf, off).value <= |buf|
  {
    if off >= |buf| then Err(Truncated)
    else
      var tag, p := buf[off], off + 1;
      if tag == TagInt16 then
        if p + 2 > |buf| then Err(Truncated) else Ok(Int16(ToSigned(U2(buf, p), 16)))
      else if tag == TagBool then
        if p + 1 > |buf| then Err(Truncated) else Ok(Bool(buf[p] != 0))
      else if tag == TagInt32 then
        if p + 4 > |buf| then Err(Truncated) else Ok(Int32(ToSigned(U4(buf, p), 32)))
      else if tag == TagFloat32 then
        if p + 4 > |buf| then Err(Truncated) else Ok(Float32(U4(buf, p)))
      else if tag == TagFloat64 then
        if p + 8 > |buf| then Err(Truncated) else Ok(Float64(U8(buf, p)))
      else if tag == TagInt64 then
        if p + 8 > |buf| then Err(Truncated) else Ok(Int64(ToSigned(U8(buf, p), 64)))
      else if tag in ElementWidth then Ok(ArrayOpaque)
      else if tag == TagString then
        if p + 4 > |buf| || p + 4 + U4(buf, p) > |buf| then Err(Truncated)
        else Ok(Text(buf[p + 4..p + 4 + U4(buf, p)]))
      else if tag == TagRaw then
        if p + 4 > |buf| then Err(Truncated) else Ok(RawOpaque)
      else Err(BadProperty)
  }

  /** The `sprintf` conversions `%8f` of a float and `%10f` of a double, given the bit
      pattern: floating-point formatting is not part of this model. */
  datatype FloatFormat = FloatFormat(single: nat -> string, double: nat -> string)

  /** The text `operator std::string` gives for a value. */
  function Display(v: Value, fmt: FloatFormat): (s: string)
    ensures (v.Int16? || v.Int32? || v.Int64?) ==> Decimal.IsNumeral(s) && Decimal.Parse(s) == v.i
    ensures (v.Int16? || v.Int32? || v.Int64?) ==> s == Decimal.Format(v.i)
    ensures v.Bool? ==> (s == "true" <==> v.b) && (s == "false" <==> !v.b)
    ensures v.Text? ==> |s| == |v.bytes| && forall i :: 0 <= i < |s| ==> s[i] as int == v.bytes[i]
    ensures v.Float32? ==> s == fmt.single(v.bits)
    ensures v.Float64? ==> s == fmt.double(v.bits)
  {
    match v
    case Int16(i) => Decimal.ParseFormat(i); Decimal.Format(i)
    case Bool(b) => if b then "true" else "false"
    case Int32(i) => Decimal.ParseFormat(i); Decimal.Format(i)
    case Float32(bits) => fmt.single(bits)
    case Float64(bits) => fmt.double(bits)
    case Int64(i) => Decimal.ParseFormat(i); Decimal.Format(i)
    case ArrayOpaque => "<array>"
    case RawOpaque => "<raw>"
    case Text(bytes) => Chars(bytes)
  }

  /** `prop::operator std::string`. */
  function Render(buf: seq<byte>, off: nat, fmt: FloatFormat): (r: Result<string>)
    ensures r.Ok? <==> Decode(buf, off).Ok?
    ensures r.Err? ==> r.error == Decode(buf, off).error
  {
    var v :- Decode(buf, off);
    Ok(Display(v, fmt))
  }

  /** A string record renders as exactly its `length` bytes, embedded zero bytes included,
      and those bytes are recovered from the text. */
  lemma RenderString(buf: seq<byte>, off: nat, fmt: FloatFormat)
    requires off + 5 <= |buf| && buf[off] == TagString
    requires off + 5 + U4(buf, off + 1) <= |buf|
    ensures Render(buf, off, fmt).Ok?
    ensures |Render(buf, off, fmt).value| == U4(buf, off + 1)
    ensures Codes(Render(buf, off, fmt).value) == buf[off + 5..off + 5 + U4(buf, off + 1)]
  {
    CodesChars(buf[off + 5..off + 5 + U4(buf, off + 1)]);
  }

  /** A boolean record renders as "true" exactly when its payload byte is nonzero. */
  lemma RenderBool(buf: seq<byte>, off: nat, fmt: FloatFormat)
    requires off + 2 <= |buf| && buf[off] == TagBool
    ensures Render(buf, off, fmt) == Ok("true") <==> buf[off + 1] != 0
    ensures Render(buf, off, fmt) == Ok("false") <==> buf[off + 1] == 0
  {
  }

  /** The integer records render as decimal text of the signed reinterpretation of their
      little-endian payload: reading the text back gives that value. */
  lemma RenderInteger(buf: seq<byte>, off: nat, fmt: FloatFormat)
    requires off < |buf|
    requires buf[off] == TagInt16 || buf[off] == TagInt32 || buf[off] == TagInt64
    requires off + 1 + ScalarWidth[buf[off]] <= |buf|
    ensures Render(buf, off, fmt).Ok?
    ensures buf[off] == TagInt16 ==>
              Decimal.Parse(Render(buf, off, fmt).value) == ToSigned(U2(buf, off + 1), 16)
    ensures buf[off] == TagInt32 ==>
              Decimal.Parse(Render(buf, off, fmt).value) == ToSigned(U4(buf, off + 1), 32)
    ensures buf[off] == TagInt64 ==>
              Decimal.Parse(Render(buf, off, fmt).value) == ToSigned(U8(buf, off + 1), 64)
  {
    var v := Decode(buf, off).value;
    Decimal.ParseFormat(v.i);
  }

  /** Array and raw records are reported, not decoded. */
  lemma RenderOpaque(buf: seq<byte>, off: nat, fmt: FloatFormat)
    requires off < |buf| && (buf[off] in ElementWidth || buf[off] == TagRaw)
    requires buf[off] == TagRaw ==> off + 5 <= |buf|
    ensures buf[off] in ElementWidth ==> Render(buf, off, fmt) == Ok("<array>")
    ensures buf[off] == TagRaw ==> Render(buf, off, fmt) == Ok("<raw>")
  {
  }

  /** The records visited by `for (auto p : props)` from `from` until the cursor equals
      `stop`.  Every step moves forward, so the walk always ends: it reaches `stop` exactly,
      or a read leaves the buffer, or a tag is unknown. */
  function PropertyWalk(buf: seq<byte>, from: nat, stop: nat): (r: Result<seq<nat>>)
    ensures from == stop ==> r == Ok([])
    ensures r.Ok? ==> (r.value == [] <==> from == stop)
    ensures r.Ok? && r.value != [] ==> r.value[0] == from
    ensures r.Ok? ==> forall i :: 0 <= i < |r.value| ==> r.value[i] < stop
    ensures r.Ok? ==> forall i :: 0 <= i < |r.value| - 1 ==> PropertyEnd(buf, r.value[i]) == Ok(r.value[i + 1])
    ensures r.Ok? && r.value != [] ==> PropertyEnd(buf, r.value[|r.value| - 1]) == Ok(stop)
    decreases |buf| - from
  {
    if from == stop then Ok([])
    else match PropertyEnd(buf, from)
      case Err(e) => Err(e)
      case Ok(next) =>
        match PropertyWalk(buf, next, stop)
        case Err(e) => Err(e)
        case Ok(rest) =>
          var walk := [from] + rest;
          assert forall i :: 0 < i < |walk| ==> walk[i] == rest[i - 1];
          Ok(walk)
  }

  /** Every chain of `++` targets from `from` that reaches `stop` without passing it is
      what the walk gives. */
  lemma {:induction false} PropertyWalkComplete(buf: seq<byte>, from: nat, stop: nat, w: seq<nat>)
    requires w != [] && w[0] == from
    requires forall i :: 0 <= i < |w| ==> w[i] != stop
    requires forall i :: 0 <= i < |w| - 1 ==> PropertyEnd(buf, w[i]) == Ok(w[i + 1])
    requires PropertyEnd(buf, w[|w| - 1]) == Ok(stop)
    ensures PropertyWalk(buf, from, stop) == Ok(w)
    decreases |w|
  {
    if |w| > 1 {
      PropertyWalkComplete(buf, w[1], stop, w[1..]);
      assert w == [from] + w[1..];
    } else {
      assert PropertyWalk(buf, stop, stop) == Ok([]);
      assert w == [from] + [];
    }
  }

  /** A failing walk fails at the first record whose `++` fails, with that record's error:
      the records before it are a chain of successful steps that never meets `stop`. */
  lemma {:induction false} PropertyWalkFailure(buf: seq<byte>, from: nat, stop: nat) returns (w: seq<nat>)
    requires PropertyWalk(buf, from, stop).Err?
    ensures w != [] && w[0] == from
    ensures forall i :: 0 <= i < |w| ==> w[i] != stop
    ensures forall i :: 0 <= i < |w| - 1 ==> PropertyEnd(buf, w[i]) == Ok(w[i + 1])
    ensures PropertyEnd(buf, w[|w| - 1]) == Err(PropertyWalk(buf, from, stop).error)
    decreases |buf| - from
  {
    match PropertyEnd(buf, from)
    case Err(e) =>
      w := [from];
    case Ok(next) =>
      var rest := PropertyWalkFailure(buf, next, stop);
      w := [from] + rest;
      assert forall i :: 0 < i < |w| ==> w[i] == rest[i - 1];
  }

  /** The cursor `prop`: a position in an immutable buffer, moved forward in place. */
  class PropCursor {
    const buf: seq<byte>
    var offset: nat

    constructor (buf: seq<byte>, offset: nat)
      ensures this.buf == buf && this.offset == offset
    {
      this.buf := buf;
      this.offset := offset;
    }

    /** `prop::operator!=`: cursors are compared by offset only. */
    predicate Differs(rhs: PropCursor)
      reads this, rhs
      ensures Differs(rhs) <==> offset != rhs.offset
    {
      offset != rhs.offset
    }

    /** `prop::kind`: the tag byte under the cursor. */
    function Kind(): (r: Result<byte>)
      reads this
      ensures r.Ok? <==> offset < |buf|
      ensures r.Ok? ==> (KnownTag(r.value) <==> Decode(buf, offset) != Err(BadProperty))
      ensures r.Err? ==> r.error == Truncated && Decode(buf, offset) == Err(Truncated)
    {
      if offset < |buf| then Ok(buf[offset]) else Err(Truncated)
    }

    /** `prop::operator std::string`: a projection, so it cannot move the cursor. */
    function ToString(fmt: FloatFormat): (r: Result<string>)
      reads this
      ensures r.Ok? <==> Decode(buf, offset).Ok?
      ensures r.Err? ==> r.error == Decode(buf, offset).error
      ensures r.Ok? ==> r.value == Display(Decode(buf, offset).value, fmt)
    {
      Render(buf, offset, fmt)
    }

    /** `prop::operator++`: steps a local pointer over the tag and the payload the tag
        describes, then stores it; an unknown tag throws before the cursor moves. */
    method Next() returns (outcome: Outcome)
      modifies this
      ensures PropertyEnd(buf, old(offset)).Ok? ==>
                outcome == Pass && offset == PropertyEnd(buf, old(offset)).value
      ensures PropertyEnd(buf, old(offset)).Err? ==>
                outcome == Fail(PropertyEnd(buf, old(offset)).error) && offset == old(offset)
    {
      var p := offset;
      if p >= |buf| {
        return Fail(Truncated);
      }
      var tag := buf[p];
      p := p + 1;
      if tag == TagInt16 {
        p := p + 2;
      } else if tag == TagBool {
        p := p + 1;
      } else if tag == TagInt32 || tag == TagFloat32 {
        p := p + 4;
      } else if tag == TagFloat64 || tag == TagInt64 {
        p := p + 8;
      } else if tag == TagFloat32Array || tag == TagFloat64Array || tag == TagInt64Array
             || tag == TagInt32Array || tag == TagBoolArray {
        if p + 12 > |buf| {
          return Fail(Truncated);
        }
        var al, enc, cl := U4(buf, p), U4(buf, p + 4), U4(buf, p + 8);
        p := p + 12;
        var width := if tag == TagBoolArray then 1
                     else if tag == TagFloat32Array || tag == TagInt32Array then 4
                     else 8;
        p := p + if enc == 0 then al * width else cl;
      } else if tag == TagString || tag == TagRaw {
        if p + 4 > |buf| {
          return Fail(Truncated);
        }
        var al := U4(buf, p);
        p := p + 4 + al;
      } else {
        return Fail(BadProperty);
      }
      offset := p;
      outcome := Pass;
    }
  }
}
