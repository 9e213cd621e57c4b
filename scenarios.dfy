/** Small inputs worked through concretely: three documents (an empty one, one with a single
    leaf node holding one integer property, and the same node with an unknown property tag)
    and one bare property list mixing the Y, C and S kinds. */
module Scenarios {
  import opened Bytes
  import opened Results
  import opened Properties
  import opened Nodes
  import opened Document
  import Decimal

  /** The magic, three reserved bytes and version 7500. */
  const FileHeader: seq<byte> :=
    [75, 97, 121, 100, 97, 114, 97, 32, 70, 66, 88, 32, 66, 105, 110, 97, 114, 121, 32, 32]
    + [0, 0, 0]
    + [0x4C, 0x1D, 0, 0]

  const NullRecord: seq<byte> := [0, 0, 0, 0, 0, 0, 0, 0, 0, 0, 0, 0, 0]

  /** No top-level record: the first chain word is the null record. */
  const EmptyDocument: seq<byte> := FileHeader + NullRecord

  /** One node "Model" (bytes 27 to 50) holding the property `I 42` and no children. */
  const ModelDocument: seq<byte> :=
    FileHeader
    + [50, 0, 0, 0, 1, 0, 0, 0, 5, 0, 0, 0, 5]
    + [77, 111, 100, 101, 108]
    + [73, 42, 0, 0, 0]
    + NullRecord

  lemma EmptyDocumentHasNoRoots()
    ensures Open(EmptyDocument) == Ok(Header(7500, RootStart))
    ensures Siblings(EmptyDocument, RootStart, Open(EmptyDocument).value.endOffset) == Ok([])
  {
    assert EmptyDocument[..20] == FileHeader[..20];
    assert Chars(EmptyDocument[..20]) == Magic;
  }

  /** The constructor accepts the empty document: its dump has no record to visit. */
  lemma EmptyDocumentLoads()
    ensures Load(EmptyDocument) == Ok(Header(7500, RootStart))
  {
    EmptyDocumentHasNoRoots();
  }

  lemma ModelDocumentOpens()
    ensures Open(ModelDocument) == Ok(Header(7500, 50))
    ensures Siblings(ModelDocument, RootStart, 50) == Ok([RootStart])
  {
    assert ModelDocument[..20] == FileHeader[..20];
    assert Chars(ModelDocument[..20]) == Magic;
    assert |ModelDocument| == 63;
    assert U4(ModelDocument, 27) == 50;
    assert U4(ModelDocument, 50) == 0;
    assert ChainEnd(ModelDocument, 50, 62) == Ok(50);
    assert SiblingWalk(ModelDocument, 50, 50, 62) == Ok([]);
    assert [27] + [] == [RootStart];
    assert Siblings(ModelDocument, RootStart, 50) == SiblingWalk(ModelDocument, 27, 50, 63);
  }

  lemma ModelNodeFields()
    ensures NodeName(ModelDocument, RootStart) == Ok("Model")
    ensures PropsBegin(ModelDocument, RootStart) == Ok(45) && PropsEnd(ModelDocument, RootStart) == Ok(50)
    ensures ChildBegin(ModelDocument, RootStart) == ChildEnd(ModelDocument, RootStart) == Ok(37)
  {
    assert ModelDocument[40..45] == [77, 111, 100, 101, 108];
    assert Chars(ModelDocument[40..45]) == "Model";
    assert U4(ModelDocument, 27) == 50;
    assert U4(ModelDocument, 35) == 5;
    assert U1(ModelDocument, 39) == 5;
    assert SizeSub(50, 13) == 37;
    assert EndOffset(ModelDocument, RootStart) == Ok(50);
    assert ChildEnd(ModelDocument, RootStart) == Ok(37);
    assert ChildBegin(ModelDocument, RootStart) == Ok(37);
  }

  lemma ModelProperty(fmt: FloatFormat)
    ensures PropertyWalk(ModelDocument, 45, 50) == Ok([45])
    ensures Render(ModelDocument, 45, fmt) == Ok("42")
  {
    assert ModelDocument[45] == TagInt32;
    assert PropertyEnd(ModelDocument, 45) == Ok(50);
    assert PropertyWalk(ModelDocument, 50, 50) == Ok([]);
    assert [45] + [] == [45];
    assert U4(ModelDocument, 46) == 42;
    assert ToSigned(42, 32) == 42;
    assert Decode(ModelDocument, 45) == Ok(Int32(42));
    assert Decimal.Format(42) == "42";
  }

  /** A property list `Y -5`, `C true`, `S "a\0b"`, the string holding a zero byte. */
  const MixedProperties: seq<byte> := [89, 0xFB, 0xFF] + [67, 1] + [83, 3, 0, 0, 0, 97, 0, 98]

  lemma MixedPropertiesRender(fmt: FloatFormat)
    ensures Render(MixedProperties, 0, fmt) == Ok("-5")
    ensures Render(MixedProperties, 3, fmt) == Ok("true")
    ensures Render(MixedProperties, 5, fmt) == Ok(['a', 0 as char, 'b'])
  {
    assert U2(MixedProperties, 1) == 0xFFFB;
    assert ToSigned(0xFFFB, 16) == -5;
    assert Decode(MixedProperties, 0) == Ok(Int16(-5));
    assert Decimal.Format(-5) == "-5";
    assert U4(MixedProperties, 6) == 3;
    assert MixedProperties[10..13] == [97, 0, 98];
    assert Chars([97, 0, 98]) == ['a', 0 as char, 'b'];
  }

  lemma MixedPropertiesWalk()
    ensures PropertyWalk(MixedProperties, 0, 13) == Ok([0, 3, 5])
  {
    assert U4(MixedProperties, 6) == 3;
    assert PropertyEnd(MixedProperties, 0) == Ok(3);
    assert PropertyEnd(MixedProperties, 3) == Ok(5);
    assert PropertyEnd(MixedProperties, 5) == Ok(13);
    assert PropertyWalk(MixedProperties, 13, 13) == Ok([]);
    assert [5] + [] == [5];
    assert PropertyWalk(MixedProperties, 5, 13) == Ok([5]);
    assert [3] + [5] == [3, 5];
    assert PropertyWalk(MixedProperties, 3, 13) == Ok([3, 5]);
    assert [0] + [3, 5] == [0, 3, 5];
  }

  /** The root level of the one-node document is well formed, so iterating it ends. */
  lemma ModelRootLevelIsForward()
    ensures ForwardLevel(ModelDocument, RootStart, 50)
    ensures SiblingWalk(ModelDocument, RootStart, 50, 23).Ok?
  {
    assert U4(ModelDocument, 27) == 50;
    ForwardSiblingsEnd(ModelDocument, RootStart, 50, 23);
  }

  /** The constructor's dump of the one-node document goes through. */
  lemma ModelDocumentLoads()
    ensures Load(ModelDocument) == Ok(Header(7500, 50))
  {
    ModelDocumentOpens();
    ModelNodeFields();
    ModelProperty(FloatFormat(_ => "", _ => ""));
    assert U4(ModelDocument, 46) == 42;
    assert Decode(ModelDocument, 45).Ok?;
    assert DumpProps(ModelDocument, 50, 50) == Pass;
    assert DumpProps(ModelDocument, 45, 50) == Pass;
    assert DumpLevel(ModelDocument, 37, 37, 62) == Pass;
    assert DumpNode(ModelDocument, 27, 62) == Pass;
    assert DumpLevel(ModelDocument, 50, 50, 62) == Pass;
    assert U4(ModelDocument, 27) == 50;
    assert DumpLevel(ModelDocument, 27, 50, 63) == Pass;
  }

  /** The same document with the property tag replaced by the unknown tag 'Z': the header
      and chain are still accepted, but the dump run by the constructor throws
      "bad fbx property". */
  const BrokenDocument: seq<byte> := ModelDocument[45 := 'Z' as int]

  lemma BrokenDocumentFailsInDump()
    ensures Open(BrokenDocument) == Ok(Header(7500, 50))
    ensures Load(BrokenDocument) == Err(BadProperty)
  {
    assert BrokenDocument[..20] == FileHeader[..20];
    assert Chars(BrokenDocument[..20]) == Magic;
    assert |BrokenDocument| == 63;
    assert U4(BrokenDocument, 27) == 50;
    assert U4(BrokenDocument, 50) == 0;
    assert ChainEnd(BrokenDocument, 50, 62) == Ok(50);
    assert BrokenDocument[40..45] == [77, 111, 100, 101, 108];
    assert NodeName(BrokenDocument, 27).Ok?;
    assert U1(BrokenDocument, 39) == 5;
    assert U4(BrokenDocument, 35) == 5;
    assert PropsBegin(BrokenDocument, 27) == Ok(45);
    assert PropsEnd(BrokenDocument, 27) == Ok(50);
    assert !KnownTag(BrokenDocument[45]);
    assert Decode(BrokenDocument, 45) == Err(BadProperty);
    assert DumpProps(BrokenDocument, 45, 50) == Fail(BadProperty);
    assert DumpNode(BrokenDocument, 27, 62) == Fail(BadProperty);
    assert DumpLevel(BrokenDocument, 27, 50, 63) == Fail(BadProperty);
  }
}
