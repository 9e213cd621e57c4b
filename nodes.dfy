/** The node cursor `node` and the property list view `props`.

    A node record starts with a 13-byte header: `end_offset` (u32 at 0), `num_properties`
    (u32 at 4), `property_list_len` (u32 at 8) and `name_len` (u8 at 12).  The name follows,
    then the property list, then the nested records, which end with a 13-byte null record.
    `end_offset` is the absolute position just past the record, where the next sibling or
    the null record of the enclosing level starts. */
module Nodes {
  import opened Bytes
  import opened Results
  import opened Chase
  import opened Properties

  /** Offsets are `size_t`; the one subtraction of the cursor wraps below zero. */
  const SizeModulus: nat := 0x1_0000_0000_0000_0000

  function SizeSub(a: nat, b: nat): (r: nat)
    ensures r < SizeModulus
    ensures b <= a < SizeModulus + b ==> r == a - b
  {
    (a - b) % SizeModulus
  }

  /** A bounds-checked `u4`. */
  function ReadU4(buf: seq<byte>, pos: nat): (r: Result<nat>)
    ensures r.Ok? <==> pos + 4 <= |buf|
    ensures r.Ok? ==> r.value < 0x1_0000_0000 && r.value == LittleEndian(buf[pos..pos + 4])
    ensures r.Err? ==> r.error == Truncated
  {
    if pos + 4 <= |buf| then
      U4IsLittleEndian(buf, pos);
      Ok(U4(buf, pos))
    else Err(Truncated)
  }

  /** `node::end_offset`, `node::num_properties`, `node::property_list_len`, `node::len`:
      the header fields at 0, 4, 8 and 12. */
  function EndOffset(buf: seq<byte>, off: nat): (r: Result<nat>)
    ensures r.Ok? <==> off + 4 <= |buf|
    ensures r.Ok? ==> r.value == LittleEndian(buf[off..off + 4])
  {
    ReadU4(buf, off)
  }

  function NumProperties(buf: seq<byte>, off: nat): (r: Result<nat>)
    ensures r.Ok? <==> off + 8 <= |buf|
    ensures r.Ok? ==> r.value == LittleEndian(buf[off + 4..off + 8])
  {
    ReadU4(buf, off + 4)
  }

  function PropertyListLen(buf: seq<byte>, off: nat): (r: Result<nat>)
    ensures r.Ok? <==> off + 12 <= |buf|
    ensures r.Ok? ==> r.value == LittleEndian(buf[off + 8..off + 12])
  {
    ReadU4(buf, off + 8)
  }

  /** The whole 13-byte header is read for `len`, so every field is readable with it. */
  function NameLen(buf: seq<byte>, off: nat): (r: Result<nat>)
    ensures r.Ok? <==> off + 13 <= |buf|
    ensures r.Ok? ==> r.value == buf[off + 12] && EndOffset(buf, off).Ok? && PropertyListLen(buf, off).Ok?
  {
    if off + 13 <= |buf| then Ok(U1(buf, off + 12)) else Err(Truncated)
  }

  /** `node::name`: the `name_len` bytes after the header. */
  function NodeName(buf: seq<byte>, off: nat): (r: Result<string>)
    ensures r.Ok? <==> off + 13 <= |buf| && off + 13 + buf[off + 12] <= |buf|
    ensures r.Err? ==> r.error == Truncated
    ensures r.Ok? ==> |r.value| == buf[off + 12]
    ensures r.Ok? ==> forall i :: 0 <= i < |r.value| ==> r.value[i] as int == buf[off + 13 + i]
  {
    var len :- NameLen(buf, off);
    if off + 13 + len > |buf| then Err(Truncated)
    else Ok(Chars(buf[off + 13..off + 13 + len]))
  }

  /** The bytes of a node header and name, as the format lays them out. */
  function EncodeHeader(endOffset: nat, numProperties: nat, propertyListLen: nat, name: seq<byte>): (s: seq<byte>)
    requires endOffset < Pow256(4) && numProperties < Pow256(4) && propertyListLen < Pow256(4)
    requires |name| < 256
    ensures |s| == 13 + |name|
  {
    Encode(endOffset, 4) + Encode(numProperties, 4) + Encode(propertyListLen, 4) + [|name|] + name
  }

  /** The field readers give back what a header holds, wherever it sits in the buffer. */
  lemma HeaderRoundTrip(before: seq<byte>, endOffset: nat, numProperties: nat, propertyListLen: nat,
                        name: seq<byte>, after: seq<byte>)
    requires endOffset < Pow256(4) && numProperties < Pow256(4) && propertyListLen < Pow256(4)
    requires |name| < 256
    ensures var buf := before + EncodeHeader(endOffset, numProperties, propertyListLen, name) + after;
            var off := |before|;
            EndOffset(buf, off) == Ok(endOffset) &&
            NumProperties(buf, off) == Ok(numProperties) &&
            PropertyListLen(buf, off) == Ok(propertyListLen) &&
            NameLen(buf, off) == Ok(|name|) &&
            NodeName(buf, off) == Ok(Chars(name))
  {
    var buf := before + EncodeHeader(endOffset, numProperties, propertyListLen, name) + after;
    var off := |before|;
    assert buf[off..off + 4] == Encode(endOffset, 4);
    assert buf[off + 4..off + 8] == Encode(numProperties, 4);
    assert buf[off + 8..off + 12] == Encode(propertyListLen, 4);
    assert buf[off + 13..off + 13 + |name|] == name;
    DecodeEncode(endOffset, 4);
    DecodeEncode(numProperties, 4);
    DecodeEncode(propertyListLen, 4);
  }

  /** `props::begin`: the property list starts after the header and the name. */
  function PropsBegin(buf: seq<byte>, off: nat): (r: Result<nat>)
    ensures r.Ok? <==> off + 13 <= |buf|
    ensures r.Ok? ==> r.value == off + 13 + buf[off + 12]
  {
    var len :- NameLen(buf, off);
    Ok(off + 13 + len)
  }

  /** `props::end`. */
  function PropsEnd(buf: seq<byte>, off: nat): (r: Result<nat>)
    ensures r.Ok? <==> off + 13 <= |buf|
    ensures r.Ok? ==> r.value == PropsBegin(buf, off).value + PropertyListLen(buf, off).value
  {
    var pll :- PropertyListLen(buf, off);
    var len :- NameLen(buf, off);
    Ok(off + 13 + pll + len)
  }

  /** The property range of a readable header spans exactly `property_list_len` bytes and
      starts right after the name. */
  lemma PropertyRangeSpan(buf: seq<byte>, off: nat)
    ensures PropsBegin(buf, off).Ok? <==> off + 13 <= |buf|
    ensures PropsEnd(buf, off).Ok? <==> off + 13 <= |buf|
    ensures off + 13 <= |buf| ==>
              PropsBegin(buf, off).value <= PropsEnd(buf, off).value &&
              PropsEnd(buf, off).value - PropsBegin(buf, off).value == PropertyListLen(buf, off).value
    ensures NodeName(buf, off).Ok? ==> PropsBegin(buf, off) == Ok(off + 13 + |NodeName(buf, off).value|)
  {
  }

  /** `node::begin`: the first child starts after the property list; when that position is
      the record's own `end_offset` there are no nested records, and the start is moved to
      `end_offset - 13` so that the child range is empty. */
  function ChildBegin(buf: seq<byte>, off: nat): (r: Result<nat>)
    ensures r.Ok? <==> off + 13 <= |buf|
    ensures r.Ok? ==> r.value == PropsEnd(buf, off).value || r.value == ChildEnd(buf, off).value
  {
    if off + 13 > |buf| then Err(Truncated)
    else
      var start, end := off + 13 + U4(buf, off + 8) + U1(buf, off + 12), U4(buf, off);
      Ok(if start == end then SizeSub(end, 13) else start)
  }

  /** `node::end`: the children stop before the 13-byte null record. */
  function ChildEnd(buf: seq<byte>, off: nat): (r: Result<nat>)
    ensures r.Ok? <==> off + 4 <= |buf|
    ensures r.Ok? && EndOffset(buf, off).value >= 13 ==> r.value == EndOffset(buf, off).value - 13
  {
    var end :- EndOffset(buf, off);
    Ok(SizeSub(end, 13))
  }

  lemma ChildRangeShape(buf: seq<byte>, off: nat)
    requires off + 13 <= |buf|
    ensures ChildBegin(buf, off).Ok? && ChildEnd(buf, off).Ok?
    ensures EndOffset(buf, off).value >= 13 ==> ChildEnd(buf, off).value == EndOffset(buf, off).value - 13
    ensures PropsEnd(buf, off) != EndOffset(buf, off) ==> ChildBegin(buf, off) == PropsEnd(buf, off)
    ensures PropsEnd(buf, off) == EndOffset(buf, off) ==> ChildBegin(buf, off) == ChildEnd(buf, off)
  {
  }

  /** The nodes visited by `for (auto n : range)` from `from` until the cursor equals `stop`,
      each step jumping to the visited node's `end_offset`.  `fuel` bounds the number of
      steps; `Err(Diverges)` says that bound ran out. */
  function SiblingWalk(buf: seq<byte>, from: nat, stop: nat, fuel: nat): (r: Result<seq<nat>>)
    ensures from == stop ==> r == Ok([])
    ensures r.Err? ==> r.error == Truncated || r.error == Diverges
    ensures r.Ok? ==> |r.value| <= fuel
    ensures r.Ok? ==> (r.value == [] <==> from == stop)
    ensures r.Ok? && r.value != [] ==> r.value[0] == from
    ensures r.Ok? ==> forall i :: 0 <= i < |r.value| ==> r.value[i] != stop && r.value[i] + 4 <= |buf|
    ensures r.Ok? ==> forall i :: 0 <= i < |r.value| - 1 ==> U4(buf, r.value[i]) == r.value[i + 1]
    ensures r.Ok? && r.value != [] ==> U4(buf, r.value[|r.value| - 1]) == stop
    decreases fuel
  {
    if from == stop then Ok([])
    else if from + 4 > |buf| then Err(Truncated)
    else if fuel == 0 then Err(Diverges)
    else match SiblingWalk(buf, U4(buf, from), stop, fuel - 1)
      case Err(e) => Err(e)
      case Ok(rest) =>
        var walk := [from] + rest;
        assert forall i :: 0 < i < |walk| ==> walk[i] == rest[i - 1];
        Ok(walk)
  }

  /** The walk with enough fuel to visit every readable position once. */
  function Siblings(buf: seq<byte>, from: nat, stop: nat): (r: Result<seq<nat>>)
  {
    SiblingWalk(buf, from, stop, |buf|)
  }

  predicate SiblingLive(buf: seq<byte>, q: nat, stop: nat) {
    q != stop && q + 4 <= |buf|
  }

  lemma {:induction false} SiblingWalkSettles(buf: seq<byte>, from: nat, stop: nat, f1: nat, f2: nat)
    requires f1 <= f2 && SiblingWalk(buf, from, stop, f1) != Err(Diverges)
    ensures SiblingWalk(buf, from, stop, f2) == SiblingWalk(buf, from, stop, f1)
    decreases f1
  {
    if from != stop && from + 4 <= |buf| && f1 > 0 {
      var next := U4(buf, from);
      SiblingWalkSettles(buf, next, stop, f1 - 1, f2 - 1);
      assert SiblingWalk(buf, next, stop, f2 - 1) == SiblingWalk(buf, next, stop, f1 - 1);
    }
  }

  /** The walk runs out of fuel only when every position it reaches is readable and short
      of the stop. */
  lemma {:induction false} DivergingWalkIsLive(buf: seq<byte>, from: nat, stop: nat, fuel: nat)
    requires SiblingWalk(buf, from, stop, fuel) == Err(Diverges)
    ensures forall m :: 0 <= m <= fuel ==> SiblingLive(buf, Hop(buf, from, m), stop)
    decreases fuel
  {
    if fuel > 0 {
      DivergingWalkIsLive(buf, U4(buf, from), stop, fuel - 1);
      forall m | 0 <= m <= fuel ensures SiblingLive(buf, Hop(buf, from, m), stop) {
        if m > 0 {
          assert Hop(buf, from, m) == Hop(buf, U4(buf, from), m - 1);
        }
      }
    }
  }

  lemma {:induction false} LiveWalkDiverges(buf: seq<byte>, from: nat, stop: nat, fuel: nat)
    requires forall m :: 0 <= m <= fuel ==> SiblingLive(buf, Hop(buf, from, m), stop)
    ensures SiblingWalk(buf, from, stop, fuel) == Err(Diverges)
    decreases fuel
  {
    assert SiblingLive(buf, Hop(buf, from, 0), stop);
    if fuel > 0 {
      forall m | 0 <= m <= fuel - 1 ensures SiblingLive(buf, Hop(buf, U4(buf, from), m), stop) {
        assert Hop(buf, from, m + 1) == Hop(buf, U4(buf, from), m);
      }
      LiveWalkDiverges(buf, U4(buf, from), stop, fuel - 1);
    }
  }

  /** Fuel |buf| decides the walk: with any more fuel it gives the same result, so
      `Err(Diverges)` from `Siblings` means the engine's loop never ends. */
  lemma SiblingsExact(buf: seq<byte>, from: nat, stop: nat, fuel: nat)
    requires fuel >= |buf|
    ensures SiblingWalk(buf, from, stop, fuel) == Siblings(buf, from, stop)
  {
    if Siblings(buf, from, stop) != Err(Diverges) {
      SiblingWalkSettles(buf, from, stop, |buf|, fuel);
    } else {
      DivergingWalkIsLive(buf, from, stop, |buf|);
      forall m | 0 <= m <= fuel ensures SiblingLive(buf, Hop(buf, from, m), stop) {
        var m' := HopBack(buf, from, m);
        assert SiblingLive(buf, Hop(buf, from, m'), stop);
      }
      LiveWalkDiverges(buf, from, stop, fuel);
    }
  }

  /** Every chain of readable records from `from`, each one's `end_offset` being the next
      and the last one's being `stop`, is what the walk gives when the fuel covers it. */
  lemma {:induction false} SiblingWalkComplete(buf: seq<byte>, from: nat, stop: nat, fuel: nat, w: seq<nat>)
    requires w != [] && w[0] == from && |w| <= fuel
    requires forall i :: 0 <= i < |w| - 1 ==> SiblingLive(buf, w[i], stop) && U4(buf, w[i]) == w[i + 1]
    requires SiblingLive(buf, w[|w| - 1], stop) && U4(buf, w[|w| - 1]) == stop
    ensures SiblingWalk(buf, from, stop, fuel) == Ok(w)
    decreases |w|
  {
    if |w| > 1 {
      SiblingWalkComplete(buf, w[1], stop, fuel - 1, w[1..]);
      assert w == [from] + w[1..];
    } else {
      assert SiblingWalk(buf, stop, stop, fuel - 1) == Ok([]);
      assert w == [from] + [];
    }
  }

  /** A walk that reads past the buffer does so at the first unreadable record it reaches:
      the records before it are readable, linked by `end_offset` and never `stop`. */
  lemma {:induction false} SiblingWalkTruncated(buf: seq<byte>, from: nat, stop: nat, fuel: nat)
    returns (w: seq<nat>)
    requires SiblingWalk(buf, from, stop, fuel) == Err(Truncated)
    ensures w != [] && w[0] == from && |w| <= fuel + 1
    ensures forall i :: 0 <= i < |w| - 1 ==> SiblingLive(buf, w[i], stop) && U4(buf, w[i]) == w[i + 1]
    ensures w[|w| - 1] != stop && w[|w| - 1] + 4 > |buf|
    decreases fuel
  {
    if from + 4 > |buf| {
      w := [from];
    } else {
      var rest := SiblingWalkTruncated(buf, U4(buf, from), stop, fuel - 1);
      w := [from] + rest;
      assert forall i :: 0 < i < |w| ==> w[i] == rest[i - 1];
    }
  }

  /** A well-formed level: from `q`, each record is readable and ends after it starts and
      no later than `stop`, until the records reach `stop`. */
  predicate ForwardLevel(buf: seq<byte>, q: nat, stop: nat)
    decreases stop - q
  {
    if q >= stop then q == stop
    else q + 4 <= |buf| && q < U4(buf, q) <= stop && ForwardLevel(buf, U4(buf, q), stop)
  }

  /** Iterating a well-formed level ends, and it ends at `stop`: the walk succeeds. */
  lemma {:induction false} ForwardSiblingsEnd(buf: seq<byte>, from: nat, stop: nat, fuel: nat)
    requires ForwardLevel(buf, from, stop) && fuel >= stop - from
    ensures SiblingWalk(buf, from, stop, fuel).Ok?
    decreases stop - from
  {
    if from != stop {
      ForwardSiblingsEnd(buf, U4(buf, from), stop, fuel - 1);
    }
  }

  /** A leaf, whose property list ends at its `end_offset`, has no children. */
  lemma LeafHasNoChildren(buf: seq<byte>, off: nat, fuel: nat)
    requires off + 13 <= |buf|
    requires PropsEnd(buf, off) == EndOffset(buf, off)
    ensures SiblingWalk(buf, ChildBegin(buf, off).value, ChildEnd(buf, off).value, fuel) == Ok([])
  {
    ChildRangeShape(buf, off);
  }

  /** The view `props` of one node's property list. */
  datatype PropsView = PropsView(buf: seq<byte>, offset: nat) {
    method Begin() returns (r: Result<PropCursor>)
      ensures r.Ok? <==> PropsBegin(buf, offset).Ok?
      ensures r.Ok? ==> fresh(r.value) && r.value.buf == buf && r.value.offset == PropsBegin(buf, offset).value
    {
      var start :- PropsBegin(buf, offset);
      var cursor := new PropCursor(buf, start);
      return Ok(cursor);
    }

    method End() returns (r: Result<PropCursor>)
      ensures r.Ok? <==> PropsEnd(buf, offset).Ok?
      ensures r.Ok? ==> fresh(r.value) && r.value.buf == buf && r.value.offset == PropsEnd(buf, offset).value
    {
      var end :- PropsEnd(buf, offset);
      var cursor := new PropCursor(buf, end);
      return Ok(cursor);
    }
  }

  /** The cursor `node`: a position in an immutable buffer, moved forward in place. */
  class NodeCursor {
    const buf: seq<byte>
    var offset: nat

    constructor (buf: seq<byte>, offset: nat)
      ensures this.buf == buf && this.offset == offset
    {
      this.buf := buf;
      this.offset := offset;
    }

    /** `node::operator!=`: cursors are compared by offset only. */
    predicate Differs(rhs: NodeCursor)
      reads this, rhs
      ensures Differs(rhs) <==> offset != rhs.offset
    {
      offset != rhs.offset
    }

    /** `node::end_offset`, `num_properties`, `property_list_len` and `len`: the header
        fields of the record under the cursor, read through `EndOffset` and its siblings. */
    function EndOffsetField(): (r: Result<nat>)
      reads this
      ensures r.Ok? <==> offset + 4 <= |buf|
      ensures r.Ok? ==> r.value == U4(buf, offset)
    {
      EndOffset(buf, offset)
    }

    function NumPropertiesField(): (r: Result<nat>)
      reads this
      ensures r.Ok? <==> offset + 8 <= |buf|
      ensures r.Ok? ==> r.value == U4(buf, offset + 4)
    {
      NumProperties(buf, offset)
    }

    function PropertyListLenField(): (r: Result<nat>)
      reads this
      ensures r.Ok? <==> offset + 12 <= |buf|
      ensures r.Ok? ==> r.value == U4(buf, offset + 8)
    {
      PropertyListLen(buf, offset)
    }

    function Len(): (r: Result<nat>)
      reads this
      ensures r.Ok? <==> offset + 13 <= |buf|
      ensures r.Ok? ==> r.value == U1(buf, offset + 12)
    {
      NameLen(buf, offset)
    }

    /** `node::name`. */
    function Name(): (r: Result<string>)
      reads this
      ensures r.Ok? <==> offset + 13 <= |buf| && offset + 13 + buf[offset + 12] <= |buf|
      ensures r.Ok? ==> |r.value| == buf[offset + 12]
      ensures r.Ok? ==> forall i :: 0 <= i < |r.value| ==> r.value[i] as int == buf[offset + 13 + i]
    {
      NodeName(buf, offset)
    }

    /** `node::props`: the property list view of the record under the cursor. */
    function Props(): (v: PropsView)
      reads this
      ensures v.buf == buf && v.offset == offset
    {
      PropsView(buf, offset)
    }

    /** `node::operator++`: the cursor jumps to the record's `end_offset`. */
    method Next() returns (outcome: Outcome)
      modifies this
      ensures EndOffset(buf, old(offset)).Ok? ==>
                outcome == Pass && offset == EndOffset(buf, old(offset)).value
      ensures EndOffset(buf, old(offset)).Err? ==> outcome == Fail(Truncated) && offset == old(offset)
    {
      if offset + 4 > |buf| {
        return Fail(Truncated);
      }
      offset := U4(buf, offset);
      outcome := Pass;
    }

    method Begin() returns (r: Result<NodeCursor>)
      ensures r.Ok? <==> ChildBegin(buf, offset).Ok?
      ensures r.Ok? ==> fresh(r.value) && r.value.buf == buf && r.value.offset == ChildBegin(buf, offset).value
    {
      var start :- ChildBegin(buf, offset);
      var cursor := new NodeCursor(buf, start);
      return Ok(cursor);
    }

    method End() returns (r: Result<NodeCursor>)
      ensures r.Ok? <==> ChildEnd(buf, offset).Ok?
      ensures r.Ok? ==> fresh(r.value) && r.value.buf == buf && r.value.offset == ChildEnd(buf, offset).value
    {
      var end :- ChildEnd(buf, offset);
      var cursor := new NodeCursor(buf, end);
      return Ok(cursor);
    }
  }
}
