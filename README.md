# QuickFBX lazy binary traversal, modelled in Dafny

QuickFBX reads the binary FBX layout without building a tree. A position in the file is
an offset into an immutable byte buffer, and every field is re-read from the buffer when
it is needed. This project models that engine from `include/fbx_file.hpp`:

- the little-endian readers `u1`/`u2`/`u4`/`u8` (module `Bytes`);
- the property cursor `prop`: how `operator++` steps over one typed record, and what
  `operator std::string` shows for a record (module `Properties`);
- the property list view `props` and the node cursor `node`: header fields, the name,
  the sibling step and the child range (module `Nodes`);
- the document set-up `fbx_file::init`: the magic and length check, the version, the
  offset chain that fixes `end_offset`, and the root range `[27, end_offset)` (module
  `Document`).

Supporting modules:

- `Results` holds the error type.
- `Decimal` holds the `%d`/`%lld` conversion and its inverse.
- `Chase` holds the pigeonhole argument behind the fuel bounds.
- `Scenarios` works through three small documents (an empty one, one with a single node,
  and the same node with an unknown property tag, which opens but fails in the dump) and
  one bare property list mixing the Y, C and S kinds.

The buffer is a `seq<byte>` with `byte = 0..255`. The model keeps every rule the source
follows and turns its undefined behaviour into explicit outcomes:

- A read that the source performs outside the buffer gives `Err(Truncated)`.
- An unknown property tag gives `Err(BadProperty)`. This is the "bad fbx property"
  exception.
- A short buffer or a wrong magic gives `Err(BadFbx)`. This is the "bad fbx" exception.
- The setup loop `while (u4(p)) p = begin + u4(p)` and the sibling step
  `offset_ = end_offset()` can loop forever on a malformed file. The model runs them with
  fuel |buf| and reports `Err(Diverges)` when the fuel runs out. `ChainEndExact` and
  `SiblingsExact` prove that any larger fuel gives the same result, by a pigeonhole
  argument. So `Err(Diverges)` is exactly the case where the engine's loop never ends.
- `size_t` subtraction (`end_offset() - 13`, `end-13`) wraps modulo 2^64 (`SizeSub`).

The cursor classes follow the source's form:

- `PropCursor` and `NodeCursor` keep the buffer and a mutable `offset`. Their `Next`
  methods update the offset in place.
- `FbxFile.Init` assigns the document's fields. It runs the chain loop through the
  method `FollowChain`, which is proved against the function `ChainEnd`, and then the dump
  loop over the root level through the method `DumpRoots`, which is proved against the
  function `DumpLevel`.
- The dump that ends `init` reads every record's name, shows every property and
  recurses into every child range. Its failures escape the constructor, so `Load` (the
  whole of `init` as a function) fails when the dump fails.

Three facts of `include/fbx_file.hpp` fix the header layout the model follows:

- The minimum length is 31 bytes, the 27 header bytes plus one chain word (line 140).
- A short buffer and a wrong magic raise the same "bad fbx" error (lines 140-141).
- The version is the word at byte 23, and the offset chain starts at byte 27, right after
  it (lines 144-151).

Reading a field through an end cursor is not checked by the source. It reads whatever bytes
are there, so the model has no separate error for an end cursor.

## Model

| member | source | states |
|---|---|---|
| Bytes.LittleEndianBound | include/fbx_file.hpp:25-35 | a little-endian word of n bytes is below 256^n |
| Bytes.DecodeEncode | include/fbx_file.hpp:25-35 | decoding the n-byte little-endian encoding of v < 256^n gives v back |
| Bytes.EncodeDecode | include/fbx_file.hpp:25-35 | encoding a decoded byte string gives the same bytes back |
| Bytes.U1 | include/fbx_file.hpp:19-23 | `u1` yields a value below 256 |
| Bytes.U2 | include/fbx_file.hpp:25-29 | `u2` yields a value below 2^16 |
| Bytes.U4 | include/fbx_file.hpp:31-35 | `u4` yields a value below 2^32 |
| Bytes.U8 | include/fbx_file.hpp:37-39 | `u8` yields a value below 2^64 |
| Bytes.U2IsLittleEndian | include/fbx_file.hpp:25-29 | `u2` is the little-endian value of the two bytes at the position and is below 2^16 |
| Bytes.U4IsLittleEndian | include/fbx_file.hpp:31-35 | `u4` is the little-endian value of the four bytes at the position and is below 2^32 |
| Bytes.LittleEndianSplit | include/fbx_file.hpp:37-39 | the value of a + b is value(a) + 256 to the power of the length of a * value(b), which is what lets the high word be shifted over the low one |
| Bytes.U8IsLittleEndian | include/fbx_file.hpp:37-39 | `u8(p) = u4(p+4) * 2^32 + u4(p)` is the little-endian value of the eight bytes and is below 2^64 |
| Bytes.ToSigned | include/fbx_file.hpp:236-241 | the `(short)`, `(std::int32_t)` and `(std::int64_t)` casts: the result lies in the two's-complement range and is congruent to the word modulo 2^bits |
| Bytes.SignedIsUnique | include/fbx_file.hpp:236-241 | any value in the two's-complement range congruent to the word is the cast's result |
| Bytes.CodesChars | include/fbx_file.hpp:247 | turning buffer bytes into `std::string` characters loses nothing: the bytes are recovered |
| Decimal.FormatNat | include/fbx_file.hpp:236-241 | the digits of `%d` are nonempty decimal digits without a leading zero |
| Decimal.Format | include/fbx_file.hpp:236-241 | `%d`/`%lld` text starts with '-' exactly for negative numbers and is decimal digits after that |
| Decimal.ParseFormatNat | include/fbx_file.hpp:236-241 | reading the digits back gives the number |
| Decimal.ParseFormat | include/fbx_file.hpp:236-241 | reading the signed text back gives the number, so the text determines the value |
| Chase.HopAdd | include/fbx_file.hpp:151-153 | k + j steps of the offset chase are k steps followed by j steps |
| Chase.Pigeonhole | include/fbx_file.hpp:151-153 | more than n positions below n contain a repetition |
| Chase.HopBack | include/fbx_file.hpp:151-153 | a chase that stays on readable words visits, within as many steps as the buffer has bytes, every position it ever reaches |
| Properties.PropertyEnd | include/fbx_file.hpp:207-228 | `prop::operator++` target: a success moves strictly forward from a readable tag; "bad fbx property" exactly when the tag is readable and unknown |
| Properties.ScalarAdvance | include/fbx_file.hpp:210-226 | a scalar record advances by 1 + width, with Y=2, C=1, I=4, F=4, D=8, L=8 |
| Properties.ArrayAdvance | include/fbx_file.hpp:217-226 | an array record advances by 1 + 12 + (encoding == 0 ? count * element width : compressed length), with f=4, d=8, l=8, i=4, b=1 |
| Properties.SizedAdvance | include/fbx_file.hpp:222-226 | an S or R record advances by 1 + 4 + the `u4` length at offset + 1 |
| Properties.Decode | include/fbx_file.hpp:230-250 | the value a record denotes: "bad fbx property" exactly for a readable unknown tag; for a scalar or string tag a decoded record lies inside the buffer |
| Properties.Render | include/fbx_file.hpp:230-252 | `operator std::string` succeeds exactly when the record decodes, and otherwise fails with the decoding error, so an unknown tag gives "bad fbx property" |
| Properties.RenderString | include/fbx_file.hpp:247 | an S record renders as exactly its `length` bytes from offset + 5, embedded zero bytes included |
| Properties.RenderBool | include/fbx_file.hpp:237 | a C record renders "true" iff its payload byte is nonzero and "false" iff it is zero |
| Properties.RenderInteger | include/fbx_file.hpp:236-241 | Y/I/L records render as decimal text whose value is the signed 16/32/64-bit reading of `u2`/`u4`/`u8` |
| Properties.RenderOpaque | include/fbx_file.hpp:242-248 | f, d, l, i, b records render "<array>" and R records render "<raw>" |
| Properties.Display | include/fbx_file.hpp:235-251 | the text shown for a decoded value: for Y, I and L it is the `%d`/`%lld` text of the value, which is a decimal numeral that reads back as the value; for C it is "true" iff the byte is nonzero and "false" iff it is zero; for S it is the payload bytes one character each; F and D go through the formatting parameter |
| Properties.PropertyWalk | include/fbx_file.hpp:207-228 | the records visited from `props::begin` until the cursor equals the end: begin == end gives the empty walk; a successful walk starts at begin, every record lies before the end, each one's `++` target is the next one and the last one's is the end |
| Properties.PropertyWalkComplete | include/fbx_file.hpp:207-228 | every chain of successful `++` steps from begin that reaches the end without meeting it is the walk, so the walk misses no list that the loop would finish |
| Properties.PropertyWalkFailure | include/fbx_file.hpp:207-228 | a failing walk fails at its first record whose `++` fails, with that record's error, after a chain of successful steps that never meets the end |
| Properties.PropCursor.Kind | include/fbx_file.hpp:88 | `kind` is the tag byte under the cursor, readable iff the cursor is inside the buffer; a readable tag is known iff the record does not fail with "bad fbx property", and an unreadable one makes the record a short read |
| Properties.PropCursor.Differs | include/fbx_file.hpp:85 | `prop::operator!=` holds iff the offsets differ |
| Properties.PropCursor.ToString | include/fbx_file.hpp:230-252 | `operator std::string` succeeds iff the record under the cursor decodes, then gives the text `Display` shows for the decoded value, and otherwise fails with the decoding error |
| Properties.PropCursor.Next | include/fbx_file.hpp:207-228 | `operator++` moves the cursor to `PropertyEnd`, and leaves it in place when it fails |
| Nodes.SizeSub | include/fbx_file.hpp:66-67 | `size_t` subtraction is below 2^64 and is the exact difference when that fits |
| Nodes.ReadU4 | include/fbx_file.hpp:72-74 | a bounds-checked `u4`: it succeeds iff the four bytes are in the buffer, with the value below 2^32 |
| Nodes.EndOffset | include/fbx_file.hpp:72 | `end_offset` is readable iff bytes 0..4 of the record are in the buffer, and is their little-endian value |
| Nodes.NumProperties | include/fbx_file.hpp:73 | `num_properties` is readable iff bytes 4..8 are in the buffer, and is their little-endian value |
| Nodes.PropertyListLen | include/fbx_file.hpp:74 | `property_list_len` is readable iff bytes 8..12 are in the buffer, and is their little-endian value |
| Nodes.NameLen | include/fbx_file.hpp:75 | `len` is readable iff the 13-byte header is, and is the byte at 12; the other header words are then readable too |
| Nodes.NodeName | include/fbx_file.hpp:65 | `name()` has exactly `name_len` (the byte at offset + 12) characters |
| Nodes.EncodeHeader | include/fbx_file.hpp:72-75 | the header layout is 13 bytes plus the name |
| Nodes.HeaderRoundTrip | include/fbx_file.hpp:65-75 | the field reads at 0, 4, 8 and 12 and `name()` recover what an encoded header holds, wherever it sits in the buffer |
| Nodes.PropsBegin | include/fbx_file.hpp:254 | `props::begin` is readable iff the header is, and is offset + 13 + `len` |
| Nodes.PropsEnd | include/fbx_file.hpp:255 | `props::end` is readable iff the header is, and is `props::begin` plus `property_list_len` |
| Nodes.PropertyRangeSpan | include/fbx_file.hpp:254-255 | `props::begin`/`end` succeed iff the header is readable; begin <= end, end - begin = `property_list_len`, and begin is right after the name |
| Nodes.ChildBegin | include/fbx_file.hpp:66 | `node::begin` is readable iff the header is, and is either the end of the property list or `node::end` |
| Nodes.ChildEnd | include/fbx_file.hpp:67 | `node::end` is readable iff `end_offset` is, and is `end_offset - 13` when that does not wrap |
| Nodes.ChildRangeShape | include/fbx_file.hpp:66-67 | `node::end` is `end_offset - 13`; `node::begin` is the end of the property list unless that equals `end_offset`, in which case it equals `node::end` |
| Nodes.SiblingWalk | include/fbx_file.hpp:64 | the nodes visited from a start until the cursor equals the stop: start == stop gives the empty walk; a failure is a read past the end or divergence; on success each step goes to the previous node's `end_offset`, the last one's `end_offset` is the stop, and no visited node is the stop |
| Nodes.SiblingWalkSettles | include/fbx_file.hpp:64 | a walk that ends with some fuel ends the same way with more |
| Nodes.DivergingWalkIsLive | include/fbx_file.hpp:64 | a walk runs out of fuel only if every position it reaches is readable and not the stop |
| Nodes.LiveWalkDiverges | include/fbx_file.hpp:64 | the converse: if every reached position is readable and not the stop, the walk runs out of fuel |
| Nodes.SiblingsExact | include/fbx_file.hpp:64 | fuel equal to the buffer length decides sibling iteration: any larger fuel gives the same result |
| Nodes.SiblingWalkComplete | include/fbx_file.hpp:64 | every chain of readable records linked by `end_offset` that reaches the stop without meeting it, within the fuel, is the walk |
| Nodes.SiblingWalkTruncated | include/fbx_file.hpp:64 | a walk that fails with a short read reaches, through readable linked records, a position that is not the stop and whose `end_offset` is unreadable |
| Nodes.ForwardSiblingsEnd | include/fbx_file.hpp:64 | on a well-formed level, where each record from the start is readable and ends after it starts and no later than the stop until the stop is met, iteration ends at the stop |
| Nodes.LeafHasNoChildren | include/fbx_file.hpp:66-67 | a node whose property list ends at its `end_offset` has an empty child range |
| Nodes.NodeCursor.Next | include/fbx_file.hpp:64 | `++` sets the offset to the `end_offset` word, and leaves it in place when that word is unreadable |
| Nodes.NodeCursor.Differs | include/fbx_file.hpp:63 | `node::operator!=` holds iff the offsets differ |
| Nodes.NodeCursor.Name | include/fbx_file.hpp:65 | `name()` is readable iff the header and `len` name bytes are in the buffer, and holds exactly those bytes |
| Nodes.NodeCursor.Props | include/fbx_file.hpp:69 | `props()` views the same buffer at the same offset |
| Nodes.NodeCursor.EndOffsetField | include/fbx_file.hpp:72 | `node::end_offset` is readable iff bytes 0..4 of the record are in the buffer, and is `u4` there |
| Nodes.NodeCursor.NumPropertiesField | include/fbx_file.hpp:73 | `node::num_properties` is readable iff bytes 4..8 are in the buffer, and is `u4` at offset + 4 |
| Nodes.NodeCursor.PropertyListLenField | include/fbx_file.hpp:74 | `node::property_list_len` is readable iff bytes 8..12 are in the buffer, and is `u4` at offset + 8 |
| Nodes.NodeCursor.Len | include/fbx_file.hpp:75 | `node::len` is readable iff the 13-byte header is, and is `u1` at offset + 12 |
| Nodes.NodeCursor.Begin | include/fbx_file.hpp:66 | the child cursor succeeds iff `ChildBegin` does, is new, shares the buffer and sits at `ChildBegin` |
| Nodes.NodeCursor.End | include/fbx_file.hpp:67 | the child end cursor succeeds iff `ChildEnd` does, is new, shares the buffer and sits at `ChildEnd` |
| Nodes.PropsView.Begin | include/fbx_file.hpp:254 | the property cursor succeeds iff `PropsBegin` does, is new, shares the buffer and sits at `PropsBegin` |
| Nodes.PropsView.End | include/fbx_file.hpp:255 | the property end cursor succeeds iff `PropsEnd` does, is new, shares the buffer and sits at `PropsEnd` |
| Document.ChainEnd | include/fbx_file.hpp:151-154 | when the chain ends, it ends on a readable zero word; its only failures are a read past the end or divergence |
| Document.ChainEndPosition | include/fbx_file.hpp:151-154 | the chain's end is reached after k jumps, and every word before it is readable and nonzero |
| Document.ChainEndReaches | include/fbx_file.hpp:151-154 | conversely, a chain that reaches a readable zero word after k jumps over readable nonzero words, within the fuel, ends at that word |
| Document.ChainEndTruncated | include/fbx_file.hpp:151-153 | a chain that fails with a short read reaches, after k jumps over readable nonzero words, a word outside the buffer |
| Document.ChainEndSettles | include/fbx_file.hpp:151-153 | a chain that ends with some fuel ends the same way with more |
| Document.DivergingChainIsLive | include/fbx_file.hpp:151-153 | the chain runs out of fuel only if every word it reaches is readable and nonzero |
| Document.LiveChainDiverges | include/fbx_file.hpp:151-153 | the converse of `DivergingChainIsLive` |
| Document.ChainEndExact | include/fbx_file.hpp:151-153 | fuel equal to the buffer length decides the chain: any larger fuel gives the same result |
| Document.FollowChain | include/fbx_file.hpp:144-154 | the `while (u4(p)) p = begin + u4(p)` loop from byte 27 computes `ChainEnd` |
| Document.Open | include/fbx_file.hpp:136-154 | "bad fbx" exactly when the buffer is shorter than 31 bytes or its first 20 bytes differ from "Kaydara FBX Binary  "; otherwise it succeeds exactly when the chain from 27 ends, with the version read at 23 and `end_offset` the chain's end, and fails with the chain's error when it does not; the root range is empty iff `u4` at 27 is 0 |
| Document.DumpProps | include/fbx_file.hpp:164-166 | the property loop of `dump` passes only when the property walk succeeds and every walked record decodes; it can fail only with a short read or "bad fbx property" |
| Document.DumpPropsComplete | include/fbx_file.hpp:164-166 | conversely, a property walk that succeeds with every record decoding is dumped |
| Document.DumpNode | include/fbx_file.hpp:162-170 | `dump` of one record passes only when its name is readable, its property list is dumped, and its child range can be iterated |
| Document.DumpLevel | include/fbx_file.hpp:167-169 | dumping a level passes only when sibling iteration succeeds and every visited node's name is readable |
| Document.DumpLevelStep | include/fbx_file.hpp:167-169 | one step of a level dump: the first record's failure, a short read of its `end_offset`, or the dump of the rest of the level |
| Document.LevelPasses | include/fbx_file.hpp:167-169 | a level whose first record is dumped, whose first `end_offset` is readable and whose remainder is dumped is dumped |
| Document.DumpLevelComplete | include/fbx_file.hpp:167-169 | conversely to `DumpLevel`, a level whose sibling iteration succeeds and whose every visited record is dumped, with the fuel left at its step, is dumped |
| Document.DumpRoots | include/fbx_file.hpp:157-159 | the loop over the root level computes `DumpLevel` from byte 27 to the given end with fuel the buffer length |
| Document.Load | include/fbx_file.hpp:136-160 | the whole of `init`: it succeeds iff `Open` does and the root-level dump passes, with the header of `Open`; a header failure is `Open`'s error and a dump failure is the dump's error |
| Document.FbxFile.FromBytes | include/fbx_file.hpp:105 | constructing from a byte range succeeds iff `Load` does, so a file that opens but whose dump fails is refused with the dump's error; on success the buffer, version and `end_offset` are those of `Load` |
| Document.FbxFile.Init | include/fbx_file.hpp:136-160 | `init` keeps the buffer; if the header opens it stores the version and `end_offset` of `Open` and returns the outcome of dumping the root level; otherwise it returns `Open`'s error and leaves them unchanged |
| Document.FbxFile.Begin | include/fbx_file.hpp:108 | the root range starts at byte 27 |
| Document.FbxFile.End | include/fbx_file.hpp:109 | the root range ends at `end_offset` |
| Scenarios.EmptyDocumentHasNoRoots | include/fbx_file.hpp:136-154 | a header followed by a null record opens with version 7500, `end_offset` 27 and no top-level node |
| Scenarios.EmptyDocumentLoads | include/fbx_file.hpp:136-160 | the empty document passes the whole of `init`, its dump visiting no record |
| Scenarios.ModelDocumentOpens | include/fbx_file.hpp:136-154 | a one-node document opens with `end_offset` 50, and its root level visits only that node |
| Scenarios.ModelNodeFields | include/fbx_file.hpp:65-67 | that node is named "Model", its properties occupy 45..50, and its child range is empty (37..37) |
| Scenarios.ModelProperty | include/fbx_file.hpp:230-252 | its one property `I 42` is walked once and renders "42" |
| Scenarios.MixedPropertiesRender | include/fbx_file.hpp:230-252 | the list `Y -5`, `C true`, `S "a\0b"` is walked at 0, 3 and 5 and renders "-5", "true" and the three bytes with the zero |
| Scenarios.MixedPropertiesWalk | include/fbx_file.hpp:207-228 | that list is walked at exactly 0, 3 and 5 up to its end at 13 |
| Scenarios.ModelRootLevelIsForward | include/fbx_file.hpp:157-159 | the one-node document's root level is well formed, so its iteration ends |
| Scenarios.ModelDocumentLoads | include/fbx_file.hpp:136-160 | the one-node document passes the whole of `init`, dump included, with version 7500 and `end_offset` 50 |
| Scenarios.BrokenDocumentFailsInDump | include/fbx_file.hpp:157-166 | the same document with its property tag replaced by an unknown one opens, but the dump at the end of `init` fails with "bad fbx property" |

## Left out

- The file-loading constructor `fbx_file(const std::string &)` (`include/fbx_file.hpp:125-134`) is left out because it is file I/O. It also fills a discarded local object rather than `this`. The model starts from the byte-range constructor (`FbxFile.FromBytes`).
- The printing done by `dump` (`include/fbx_file.hpp:162-170`) is left out because it is output through `printf`. What the dump reads, the errors it raises and its possible nontermination are kept: `DumpNode`, `DumpLevel` and `DumpProps` model it, `init` runs it through `DumpRoots`, and `Load`, `FbxFile.Init` and `FbxFile.FromBytes` report its failure.
- `parse_objects` (`include/fbx_file.hpp:172-205`) is left out because it only prints, through `std::cout`, and `init` never calls it.
- Document.DumpLevel: one fuel value, the buffer length, bounds the nesting depth and the length of each level together, and it is not proved exact the way `ChainEndExact` and `SiblingsExact` prove the chain and sibling walks exact. So a `Diverges` from the dump may also stand for a very long but finite traversal.
- Bytes.U4: the source computes `q[3] * 0x1000000` in `int` after promotion, which overflows, and so is undefined, when `q[3]` is 0x80 or more. The model gives the unsigned value that the usual wrap-around followed by the conversion to `std::uint32_t` produces.
- The `F` and `D` rendering cases (`%8f`, `%10f`) are left out because they are floating-point formatting. `Render` decodes their bit patterns (`u4`, `u8`) and takes the formatting as a `FloatFormat` parameter.
- The static 65536-byte `tmp` buffer is a formatting detail with no effect on the text, so it is not modelled.
- The `scene` placeholder and `fbx_file::scene()` have no behaviour, so they are not modelled.
- Array payloads are never decompressed or decoded by the source, so the model does not decode them either.
- The `node::operator*`, `prop::operator*` and `node::offset()` accessors return the cursor or its offset unchanged. The model reads the `offset` field instead.
- `node::num_properties` is read (`NumProperties`) but the source never uses it, so no property relates it to the list.
- `test/test_python.py` drives an external SDK whose code is not part of this model.
- Undefined behaviour is not reproduced. A read past the buffer end gives `Truncated` where the source would read foreign memory.
- Nontermination is not reproduced. A loop that never ends gives `Diverges`; for the chain and sibling loops, equivalence with the engine's loop holds by `ChainEndExact` and `SiblingsExact`.
- `size_t` is taken to be 64 bits wide.
- `Document.FbxFile.Init`: after `init` the source keeps `version` in a local variable and then discards it. The model stores it in a field so that a caller can read it.
- The check at line 140 compares pointers, and the magic comparison compares raw bytes. Both are restated on the byte sequence: the buffer length, and the 20 bytes read as characters.
