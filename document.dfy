/** The document `fbx_file`: header validation, the offset chain that fixes the end of the
    top-level records, and the root node range.

    The header is the 20-byte magic "Kaydara FBX Binary  ", three reserved bytes and the
    `u32` version at byte 23.  From byte 27 the setup treats each `u32` as the absolute
    position of the next one and follows them until it reads a zero word; the position of
    that zero word is the end of the root range, which starts at byte 27. */
module Document {
  import opened Bytes
  import opened Results
  import opened Chase
  import opened Nodes
  import opened Properties

  const Magic: string := "Kaydara FBX Binary  "
  const VersionOffset: nat := 23
  const RootStart: nat := 27
  /** The shortest buffer the setup accepts: the header and the first chain word. */
  const MinLength: nat := 27 + 4

  predicate ChainLive(buf: seq<byte>, q: nat) {
    q + 4 <= |buf| && U4(buf, q) != 0
  }

  /** Where `while (u4(p)) p = begin + u4(p);` stops when started at `p`, allowing `fuel`
      jumps: the position of the first zero word on the chain. */
  function ChainEnd(buf: seq<byte>, p: nat, fuel: nat): (r: Result<nat>)
    ensures r.Ok? ==> r.value + 4 <= |buf| && U4(buf, r.value) == 0
    ensures r.Err? ==> r.error == Truncated || r.error == Diverges
    decreases fuel
  {
    if p + 4 > |buf| then Err(Truncated)
    else if U4(buf, p) == 0 then Ok(p)
    else if fuel == 0 then Err(Diverges)
    else ChainEnd(buf, U4(buf, p), fuel - 1)
  }

  /** The chain reaches its end after `k` jumps, every word before it being nonzero. */
  lemma {:induction false} ChainEndPosition(buf: seq<byte>, p: nat, fuel: nat) returns (k: nat)
    requires ChainEnd(buf, p, fuel).Ok?
    ensures k <= fuel && Hop(buf, p, k) == ChainEnd(buf, p, fuel).value
    ensures forall m :: 0 <= m < k ==> ChainLive(buf, Hop(buf, p, m))
    decreases fuel
  {
    if U4(buf, p) == 0 {
      k := 0;
    } else {
      var k' := ChainEndPosition(buf, U4(buf, p), fuel - 1);
      k := k' + 1;
      forall m | 0 <= m < k ensures ChainLive(buf, Hop(buf, p, m)) {
        if m > 0 {
          assert Hop(buf, p, m) == Hop(buf, U4(buf, p), m - 1);
        }
      }
    }
  }

  /** Conversely, a chain that reaches a readable zero word after `k` jumps over readable
      nonzero words, within the fuel, ends at that word. */
  lemma {:induction false} ChainEndReaches(buf: seq<byte>, p: nat, fuel: nat, k: nat)
    requires k <= fuel
    requires forall m :: 0 <= m < k ==> ChainLive(buf, Hop(buf, p, m))
    requires Hop(buf, p, k) + 4 <= |buf| && U4(buf, Hop(buf, p, k)) == 0
    ensures ChainEnd(buf, p, fuel) == Ok(Hop(buf, p, k))
    decreases k
  {
    if k > 0 {
      assert ChainLive(buf, Hop(buf, p, 0));
      var next := U4(buf, p);
      forall m | 0 <= m < k - 1 ensures ChainLive(buf, Hop(buf, next, m)) {
        assert Hop(buf, p, m + 1) == Hop(buf, next, m);
        assert ChainLive(buf, Hop(buf, p, m + 1));
      }
      assert Hop(buf, p, k) == Hop(buf, next, k - 1);
      ChainEndReaches(buf, next, fuel - 1, k - 1);
    }
  }

  /** A chain that fails with a short read reaches, after `k` jumps over readable nonzero
      words, a position whose word is not in the buffer. */
  lemma {:induction false} ChainEndTruncated(buf: seq<byte>, p: nat, fuel: nat) returns (k: nat)
    requires ChainEnd(buf, p, fuel) == Err(Truncated)
    ensures k <= fuel && Hop(buf, p, k) + 4 > |buf|
    ensures forall m :: 0 <= m < k ==> ChainLive(buf, Hop(buf, p, m))
    decreases fuel
  {
    if p + 4 > |buf| {
      k := 0;
    } else {
      var k' := ChainEndTruncated(buf, U4(buf, p), fuel - 1);
      k := k' + 1;
      forall m | 0 <= m < k ensures ChainLive(buf, Hop(buf, p, m)) {
        if m > 0 {
          assert Hop(buf, p, m) == Hop(buf, U4(buf, p), m - 1);
        }
      }
    }
  }

  lemma {:induction false} ChainEndSettles(buf: seq<byte>, p: nat, f1: nat, f2: nat)
    requires f1 <= f2 && ChainEnd(buf, p, f1) != Err(Diverges)
    ensures ChainEnd(buf, p, f2) == ChainEnd(buf, p, f1)
    decreases f1
  {
    if ChainLive(buf, p) && f1 > 0 {
      ChainEndSettles(buf, U4(buf, p), f1 - 1, f2 - 1);
    }
  }

  lemma {:induction false} DivergingChainIsLive(buf: seq<byte>, p: nat, fuel: nat)
    requires ChainEnd(buf, p, fuel) == Err(Diverges)
    ensures forall m :: 0 <= m <= fuel ==> ChainLive(buf, Hop(buf, p, m))
    decreases fuel
  {
    if fuel > 0 {
      DivergingChainIsLive(buf, U4(buf, p), fuel - 1);
      forall m | 0 <= m <= fuel ensures ChainLive(buf, Hop(buf, p, m)) {
        if m > 0 {
          assert Hop(buf, p, m) == Hop(buf, U4(buf, p), m - 1);
        }
      }
    }
  }

  lemma {:induction false} LiveChainDiverges(buf: seq<byte>, p: nat, fuel: nat)
    requires forall m :: 0 <= m <= fuel ==> ChainLive(buf, Hop(buf, p, m))
    ensures ChainEnd(buf, p, fuel) == Err(Diverges)
    decreases fuel
  {
    assert ChainLive(buf, Hop(buf, p, 0));
    if fuel > 0 {
      forall m | 0 <= m <= fuel - 1 ensures ChainLive(buf, Hop(buf, U4(buf, p), m)) {
        assert Hop(buf, p, m + 1) == Hop(buf, U4(buf, p), m);
      }
      LiveChainDiverges(buf, U4(buf, p), fuel - 1);
    }
  }

  /** Fuel |buf| decides the chain: any more fuel gives the same result, so `Err(Diverges)`
      is exactly the case where the setup loop of the engine never ends. */
  lemma ChainEndExact(buf: seq<byte>, p: nat, fuel: nat)
    requires fuel >= |buf|
    ensures ChainEnd(buf, p, fuel) == ChainEnd(buf, p, |buf|)
  {
    if ChainEnd(buf, p, |buf|) != Err(Diverges) {
      ChainEndSettles(buf, p, |buf|, fuel);
    } else {
      DivergingChainIsLive(buf, p, |buf|);
      forall m | 0 <= m <= fuel ensures ChainLive(buf, Hop(buf, p, m)) {
        var m' := HopBack(buf, p, m);
        assert ChainLive(buf, Hop(buf, p, m'));
      }
      LiveChainDiverges(buf, p, fuel);
    }
  }

  /** The loop of `fbx_file::init`, counting its jumps so that it stops once the chain has
      shown it repeats. */
  method FollowChain(buf: seq<byte>, start: nat) returns (r: Result<nat>)
    ensures r == ChainEnd(buf, start, |buf|)
  {
    var p: nat := start;
    var fuel: nat := |buf|;
    while p + 4 <= |buf| && U4(buf, p) != 0 && fuel > 0
      invariant ChainEnd(buf, p, fuel) == ChainEnd(buf, start, |buf|)
      decreases fuel
    {
      p := U4(buf, p);
      fuel := fuel - 1;
    }
    if p + 4 > |buf| {
      return Err(Truncated);
    } else if U4(buf, p) == 0 {
      return Ok(p);
    }
    return Err(Diverges);
  }

  datatype Header = Header(version: nat, endOffset: nat)

  /** What `fbx_file::init` establishes for a buffer, or the error it stops with. */
  function Open(buf: seq<byte>): (r: Result<Header>)
    ensures r == Err(BadFbx) <==> |buf| < MinLength || Chars(buf[..20]) != Magic
    ensures r.Ok? ==> r.value.version == LittleEndian(buf[VersionOffset..VersionOffset + 4])
    ensures r.Ok? ==> r.value.endOffset + 4 <= |buf| && U4(buf, r.value.endOffset) == 0
    ensures r.Ok? ==> (r.value.endOffset == RootStart <==> U4(buf, RootStart) == 0)
    ensures r.Ok? ==> ChainEnd(buf, RootStart, |buf|) == Ok(r.value.endOffset)
    ensures r.Err? && r.error != BadFbx ==> ChainEnd(buf, RootStart, |buf|) == Err(r.error)
  {
    if |buf| < MinLength || Chars(buf[..20]) != Magic then Err(BadFbx)
    else
      U4IsLittleEndian(buf, VersionOffset);
      var end :- ChainEnd(buf, RootStart, |buf|);
      Ok(Header(U4(buf, VersionOffset), end))
  }

  /** The property loop of `fbx_file::dump`: each record from `p` until the cursor equals
      `stop` is shown (`kind` and `operator std::string`) and then stepped over with `++`;
      the first record that cannot be shown or stepped over ends the dump with its error. */
  function DumpProps(buf: seq<byte>, p: nat, stop: nat): (o: Outcome)
    ensures o == Pass ==> PropertyWalk(buf, p, stop).Ok?
    ensures o == Pass ==> forall i :: 0 <= i < |PropertyWalk(buf, p, stop).value| ==>
                            Decode(buf, PropertyWalk(buf, p, stop).value[i]).Ok?
    ensures o.Fail? ==> o.error == Truncated || o.error == BadProperty
    decreases |buf| - p
  {
    if p == stop then Pass
    else match Decode(buf, p)
      case Err(e) => Fail(e)
      case Ok(_) =>
        match PropertyEnd(buf, p)
        case Err(e) => Fail(e)
        case Ok(next) =>
          var rest := DumpProps(buf, next, stop);
          assert rest == Pass ==> PropertyWalk(buf, p, stop).value == [p] + PropertyWalk(buf, next, stop).value;
          rest
  }

  /** The converse: a property list that walks and whose every record decodes is dumped. */
  lemma {:induction false} DumpPropsComplete(buf: seq<byte>, p: nat, stop: nat)
    requires PropertyWalk(buf, p, stop).Ok?
    requires forall i :: 0 <= i < |PropertyWalk(buf, p, stop).value| ==>
               Decode(buf, PropertyWalk(buf, p, stop).value[i]).Ok?
    ensures DumpProps(buf, p, stop) == Pass
    decreases |buf| - p
  {
    if p != stop {
      var walk := PropertyWalk(buf, p, stop).value;
      assert Decode(buf, walk[0]).Ok?;
      var next := PropertyEnd(buf, p).value;
      var rest := PropertyWalk(buf, next, stop).value;
      assert walk == [p] + rest;
      assert forall i :: 0 <= i < |rest| ==> rest[i] == walk[i + 1];
      DumpPropsComplete(buf, next, stop);
    }
  }

  /** `fbx_file::dump` of the record at `off`: its name and `end_offset` are read, its
      properties are dumped, then its children.  `fuel` bounds the nesting and the length
      of each level together. */
  function DumpNode(buf: seq<byte>, off: nat, fuel: nat): (o: Outcome)
    ensures o == Pass ==> NodeName(buf, off).Ok?
    ensures o == Pass ==> DumpProps(buf, PropsBegin(buf, off).value, PropsEnd(buf, off).value) == Pass
    ensures o == Pass ==> SiblingWalk(buf, ChildBegin(buf, off).value, ChildEnd(buf, off).value, fuel).Ok?
    decreases fuel, 1
  {
    match NodeName(buf, off)
    case Err(e) => Fail(e)
    case Ok(_) =>
      match DumpProps(buf, PropsBegin(buf, off).value, PropsEnd(buf, off).value)
      case Fail(e) => Fail(e)
      case Pass => DumpLevel(buf, ChildBegin(buf, off).value, ChildEnd(buf, off).value, fuel)
  }

  /** `for (auto n : range) dump(n, ...)`: every record of a level from `from` until the
      cursor equals `stop` is dumped, then the cursor moves to its `end_offset`. */
  function DumpLevel(buf: seq<byte>, from: nat, stop: nat, fuel: nat): (o: Outcome)
    ensures o == Pass ==> SiblingWalk(buf, from, stop, fuel).Ok?
    ensures o == Pass ==> forall i :: 0 <= i < |SiblingWalk(buf, from, stop, fuel).value| ==>
                            NodeName(buf, SiblingWalk(buf, from, stop, fuel).value[i]).Ok?
    decreases fuel, 0
  {
    if from == stop then Pass
    else if fuel == 0 then Fail(Diverges)
    else match DumpNode(buf, from, fuel - 1)
      case Fail(e) => Fail(e)
      case Pass =>
        if from + 4 > |buf| then Fail(Truncated)
        else
          var rest := DumpLevel(buf, U4(buf, from), stop, fuel - 1);
          assert rest == Pass ==>
            SiblingWalk(buf, from, stop, fuel).value == [from] + SiblingWalk(buf, U4(buf, from), stop, fuel - 1).value;
          rest
  }

  /** Each record of `w` is dumped with the fuel a level dump has left when it reaches it:
      one step less for each record before it. */
  predicate RecordsDump(buf: seq<byte>, w: seq<nat>, fuel: nat)
    decreases |w|
  {
    w == [] || (fuel > 0 && DumpNode(buf, w[0], fuel - 1) == Pass && RecordsDump(buf, w[1..], fuel - 1))
  }

  /** A level whose first record is dumped and whose remainder is dumped is dumped. */
  lemma LevelPasses(buf: seq<byte>, p: nat, end: nat, fuel: nat)
    requires p != end && fuel > 0 && p + 4 <= |buf|
    requires DumpNode(buf, p, fuel - 1) == Pass
    requires DumpLevel(buf, U4(buf, p), end, fuel - 1) == Pass
    ensures DumpLevel(buf, p, end, fuel) == Pass
  {
    DumpLevelStep(buf, p, end, fuel);
  }

  /** The converse for a level: when sibling iteration succeeds and each visited record is
      dumped with the fuel left at its step, the level is dumped. */
  lemma {:induction false} DumpLevelComplete(buf: seq<byte>, from: nat, stop: nat, fuel: nat)
    requires SiblingWalk(buf, from, stop, fuel).Ok?
    requires RecordsDump(buf, SiblingWalk(buf, from, stop, fuel).value, fuel)
    ensures DumpLevel(buf, from, stop, fuel) == Pass
    decreases fuel
  {
    if from != stop {
      var w := SiblingWalk(buf, from, stop, fuel).value;
      var next := U4(buf, from);
      assert w[1..] == SiblingWalk(buf, next, stop, fuel - 1).value;
      DumpLevelComplete(buf, next, stop, fuel - 1);
      LevelPasses(buf, from, stop, fuel);
    }
  }

  /** One step of a level dump: the record under the cursor, then the rest of the level. */
  lemma DumpLevelStep(buf: seq<byte>, p: nat, end: nat, fuel: nat)
    requires p != end && fuel > 0
    ensures DumpNode(buf, p, fuel - 1).Fail? ==> DumpLevel(buf, p, end, fuel) == DumpNode(buf, p, fuel - 1)
    ensures DumpNode(buf, p, fuel - 1) == Pass && p + 4 > |buf| ==> DumpLevel(buf, p, end, fuel) == Fail(Truncated)
    ensures DumpNode(buf, p, fuel - 1) == Pass && p + 4 <= |buf| ==>
              DumpLevel(buf, p, end, fuel) == DumpLevel(buf, U4(buf, p), end, fuel - 1)
  {
  }

  /** The loop at the end of `fbx_file::init` that dumps each top-level record, counting
      its steps against the fuel of `DumpLevel`. */
  method DumpRoots(buf: seq<byte>, end: nat) returns (o: Outcome)
    ensures o == DumpLevel(buf, RootStart, end, |buf|)
  {
    var p: nat := RootStart;
    var fuel: nat := |buf|;
    while p != end && fuel > 0
      invariant DumpLevel(buf, p, end, fuel) == DumpLevel(buf, RootStart, end, |buf|)
      decreases fuel
    {
      DumpLevelStep(buf, p, end, fuel);
      var node := DumpNode(buf, p, fuel - 1);
      if node.Fail? {
        return node;
      }
      if p + 4 > |buf| {
        return Fail(Truncated);
      }
      p := U4(buf, p);
      fuel := fuel - 1;
    }
    if p == end {
      return Pass;
    }
    return Fail(Diverges);
  }

  /** The whole of `fbx_file::init`: the header and chain of `Open`, then the dump of the
      root level, whose failure the constructor lets escape. */
  function Load(buf: seq<byte>): (r: Result<Header>)
    ensures r.Ok? <==> Open(buf).Ok? && DumpLevel(buf, RootStart, Open(buf).value.endOffset, |buf|) == Pass
    ensures r.Ok? ==> r.value == Open(buf).value
    ensures Open(buf).Err? ==> r == Open(buf)
    ensures Open(buf).Ok? && r.Err? ==> DumpLevel(buf, RootStart, Open(buf).value.endOffset, |buf|) == Fail(r.error)
  {
    var header :- Open(buf);
    match DumpLevel(buf, RootStart, header.endOffset, |buf|)
    case Fail(e) => Err(e)
    case Pass => Ok(header)
  }

  /** A document: the buffer, the end of its root range and the version read from it. */
  class FbxFile {
    var data: seq<byte>
    var version: nat
    var endOffset: nat

    constructor ()
      ensures data == [] && version == 0 && endOffset == 0
    {
      data, version, endOffset := [], 0, 0;
    }

    /** `fbx_file(const char *begin, const char *end)`: a document set up from a buffer. */
    static method FromBytes(bytes: seq<byte>) returns (r: Result<FbxFile>)
      ensures r.Ok? <==> Load(bytes).Ok?
      ensures r.Err? ==> r.error == Load(bytes).error
      ensures r.Ok? ==> fresh(r.value) && r.value.data == bytes &&
                        r.value.version == Load(bytes).value.version &&
                        r.value.endOffset == Load(bytes).value.endOffset
    {
      var file := new FbxFile();
      var outcome := file.Init(bytes);
      if outcome.Fail? {
        return Err(outcome.error);
      }
      return Ok(file);
    }

    /** `fbx_file::init`: keeps the buffer, refuses a short buffer or a wrong magic, reads
        the version, follows the offset chain to the end of the root range and dumps the
        root level; the fields are set before the dump, as `end_offset` is in the engine. */
    method Init(bytes: seq<byte>) returns (outcome: Outcome)
      modifies this
      ensures data == bytes
      ensures Open(bytes).Ok? ==>
                version == Open(bytes).value.version && endOffset == Open(bytes).value.endOffset &&
                outcome == DumpLevel(bytes, RootStart, endOffset, |bytes|)
      ensures Open(bytes).Err? ==>
                outcome == Fail(Open(bytes).error) && version == old(version) &&
                endOffset == old(endOffset)
    {
      data := bytes;
      if |bytes| < MinLength || Chars(bytes[..20]) != Magic {
        return Fail(BadFbx);
      }
      var v := U4(bytes, VersionOffset);
      var end := FollowChain(bytes, RootStart);
      if end.Err? {
        return Fail(end.error);
      }
      version, endOffset := v, end.value;
      outcome := DumpRoots(bytes, end.value);
    }

    /** `fbx_file::begin`: the first top-level record. */
    method Begin() returns (n: NodeCursor)
      ensures fresh(n) && n.buf == data && n.offset == RootStart
    {
      n := new NodeCursor(data, RootStart);
    }

    /** `fbx_file::end`: the position of the zero word that ended the chain. */
    method End() returns (n: NodeCursor)
      ensures fresh(n) && n.buf == data && n.offset == endOffset
    {
      n := new NodeCursor(data, endOffset);
    }
  }
}
