/**
 * Block references inside a WAL record: the Go parser (backend/pkg/wal/reader.go), the Rust
 * parser (collector/src/wal_file.rs), an encoder for the same format, and how they relate.
 */
module BlockRefs {
  import opened Bytes
  import opened Options

  const MAX_BLOCK_ID: int := 32

  datatype Relation = Relation(spc: u32, db: u32, node: u32)

  /** The first four bytes of a reference: its id, its fork/flag byte and its data length. */
  datatype Head = Head(id: byte, forkNum: byte, hasImage: bool, hasData: bool, willInit: bool, sameRel: bool,
                       dataLen: u16)

  datatype GoRef = GoRef(head: Head, blockNum: u32, imageLen: u16, rel: Relation)

  datatype RustRef = RustRef(head: Head, blockNum: u32, imageLen: Option<u16>, rel: Option<Relation>)

  function MakeHead(id: byte, f: byte, dataLen: u16): Head {
    Head(id, f % 16, f / 16 % 2 == 1, f / 32 % 2 == 1, f / 64 % 2 == 1, f / 128 == 1, dataLen)
  }

  function ParseHead(p: seq<byte>, i: nat): Head
    requires i + 4 <= |p|
  {
    MakeHead(p[i], p[i + 1], LE16(p, i + 2))
  }

  function ParseRelation(p: seq<byte>, i: nat): Relation
    requires i + 12 <= |p|
  {
    Relation(LE32(p, i), LE32(p, i + 4), LE32(p, i + 8))
  }

  function ImageSize(h: Head): nat { if h.hasImage then 8 else 0 }

  function DataSize(h: Head): nat { if h.hasData then h.dataLen else 0 }

  /** Bytes one reference occupies when relBytes of them spell its relation. */
  function RefSize(h: Head, relBytes: nat): nat {
    4 + ImageSize(h) + relBytes + 4 + DataSize(h)
  }

  predicate AtRef(p: seq<byte>, i: nat) {
    i + 4 <= |p| && p[i] <= MAX_BLOCK_ID
  }

  // ---- the Go parser ----

  function GoRelBytes(h: Head, last: Option<Relation>): nat {
    if h.sameRel && last.Some? then 0 else 12
  }

  function GoSize(h: Head, last: Option<Relation>): nat {
    RefSize(h, GoRelBytes(h, last))
  }

  predicate GoHasRef(p: seq<byte>, i: nat, last: Option<Relation>) {
    AtRef(p, i) && i + GoSize(ParseHead(p, i), last) <= |p|
  }

  function GoRefAt(p: seq<byte>, i: nat, last: Option<Relation>): GoRef
    requires GoHasRef(p, i, last)
  {
    var h := ParseHead(p, i);
    var at := i + 4 + ImageSize(h);
    var rel := if h.sameRel && last.Some? then last.value else ParseRelation(p, at);
    GoRef(h, LE32(p, at + GoRelBytes(h, last)), if h.hasImage then LE16(p, i + 4) else 0, rel)
  }

  /** The references a payload holds from i on: complete ones, up to the first id above 32 or the first cut short. */
  function GoRefs(p: seq<byte>, i: nat, last: Option<Relation>): seq<GoRef>
    decreases |p| - i
  {
    if !GoHasRef(p, i, last) then []
    else
      var ref := GoRefAt(p, i, last);
      [ref] + GoRefs(p, i + GoSize(ref.head, last), Some(ref.rel))
  }

  /** One turn of the Go parser's loop; None where the loop breaks. */
  method GoParseRef(payload: seq<byte>, start: nat, lastRel: Option<Relation>) returns (ref: Option<GoRef>, offset: nat)
    requires start + 4 <= |payload|
    ensures ref.Some? <==> GoHasRef(payload, start, lastRel)
    ensures ref.Some? ==> ref.value == GoRefAt(payload, start, lastRel)
    ensures ref.Some? ==> offset == start + GoSize(ref.value.head, lastRel)
  {
    ref, offset := None, start;
    var id := payload[offset];
    if id == 254 || id == 255 || id > 32 {
      return;
    }
    var head := MakeHead(id, payload[offset + 1], LE16(payload, offset + 2));
    offset := offset + 4;
    var imageLen: u16 := 0;
    if head.hasImage {
      if offset + 8 > |payload| {
        return;
      }
      imageLen := LE16(payload, offset);
      offset := offset + 8;
    }
    var rel: Relation;
    if head.sameRel && lastRel.Some? {
      rel := lastRel.value;
    } else {
      if offset + 12 > |payload| {
        return;
      }
      rel := Relation(LE32(payload, offset), LE32(payload, offset + 4), LE32(payload, offset + 8));
      offset := offset + 12;
    }
    if offset + 4 > |payload| {
      return;
    }
    var blockNum := LE32(payload, offset);
    offset := offset + 4;
    if head.hasData {
      if offset + head.dataLen > |payload| {
        return;
      }
      offset := offset + head.dataLen;
    }
    ref := Some(GoRef(head, blockNum, imageLen, rel));
  }

  method GoParseBlockReferences(payload: seq<byte>) returns (blocks: seq<GoRef>)
    ensures blocks == GoRefs(payload, 0, None)
  {
    hide LE16, LE32;
    blocks := [];
    var lastRel: Option<Relation> := None;
    var offset := 0;
    while offset + 4 <= |payload|
      invariant 0 <= offset <= |payload|
      invariant blocks + GoRefs(payload, offset, lastRel) == GoRefs(payload, 0, None)
      decreases |payload| - offset
    {
      var ref, next := GoParseRef(payload, offset, lastRel);
      if ref.None? {
        break;
      }
      blocks, offset, lastRel := blocks + [ref.value], next, Some(ref.value.rel);
    }
  }

  // ---- the Rust parser ----

  function RustSize(h: Head): nat {
    RefSize(h, if h.sameRel then 0 else 12)
  }

  predicate RustHasRef(p: seq<byte>, i: nat) {
    AtRef(p, i) && i + RustSize(ParseHead(p, i)) <= |p|
  }

  function RustRefAt(p: seq<byte>, i: nat, last: Option<Relation>): RustRef
    requires RustHasRef(p, i)
  {
    var h := ParseHead(p, i);
    var at := i + 4 + ImageSize(h);
    RustRef(h, LE32(p, if h.sameRel then at else at + 12), if h.hasImage then Some(LE16(p, i + 4)) else None,
            if h.sameRel then last else Some(ParseRelation(p, at)))
  }

  function RustRefs(p: seq<byte>, i: nat, last: Option<Relation>): seq<RustRef>
    decreases |p| - i
  {
    if !RustHasRef(p, i) then []
    else
      var ref := RustRefAt(p, i, last);
      [ref] + RustRefs(p, i + RustSize(ref.head), ref.rel)
  }

  /** One turn of the Rust parser's loop; None where the loop breaks. */
  method RustParseRef(payload: seq<byte>, start: nat, lastRel: Option<Relation>)
    returns (ref: Option<RustRef>, offset: nat)
    requires start + 4 <= |payload|
    ensures ref.Some? <==> RustHasRef(payload, start)
    ensures ref.Some? ==> ref.value == RustRefAt(payload, start, lastRel)
    ensures ref.Some? ==> offset == start + RustSize(ref.value.head)
  {
    ref, offset := None, start;
    var id := payload[offset];
    if id == 254 || id == 255 || id > 32 {
      return;
    }
    var block := RustRef(MakeHead(id, payload[offset + 1], LE16(payload, offset + 2)), 0, None, None);
    offset := offset + 4;
    if block.head.hasImage {
      if offset + 8 > |payload| {
        return;
      }
      block := block.(imageLen := Some(LE16(payload, offset)));
      offset := offset + 8;
    }
    if block.head.sameRel {
      if lastRel.Some? {
        block := block.(rel := lastRel);
      }
    } else {
      if offset + 12 > |payload| {
        return;
      }
      block := block.(rel := Some(Relation(LE32(payload, offset), LE32(payload, offset + 4), LE32(payload, offset + 8))));
      offset := offset + 12;
    }
    if offset + 4 > |payload| {
      return;
    }
    block := block.(blockNum := LE32(payload, offset));
    offset := offset + 4;
    if block.head.hasData {
      var nextOffset := offset + block.head.dataLen;
      if nextOffset > |payload| {
        return;
      }
      offset := nextOffset;
    }
    ref := Some(block);
  }

  method RustParseBlockRefs(payload: seq<byte>) returns (blocks: seq<RustRef>)
    ensures blocks == RustRefs(payload, 0, None)
  {
    hide RustSize, ParseHead, LE32, LE16;
    blocks := [];
    var offset := 0;
    var lastRel: Option<Relation> := None;
    while offset + 4 <= |payload|
      invariant 0 <= offset <= |payload|
      invariant blocks + RustRefs(payload, offset, lastRel) == RustRefs(payload, 0, None)
      decreases |payload| - offset
    {
      var ref, next := RustParseRef(payload, offset, lastRel);
      if ref.None? {
        break;
      }
      if !ref.value.head.sameRel {
        lastRel := ref.value.rel;
      }
      blocks, offset := blocks + [ref.value], next;
    }
  }

  // ---- truncation ----

  /** A reference that survives a cut reads as it did before. */
  lemma GoTruncatedRef(cut: seq<byte>, p: seq<byte>, i: nat, last: Option<Relation>)
    requires cut <= p && GoHasRef(cut, i, last)
    ensures GoHasRef(p, i, last) && GoRefAt(p, i, last) == GoRefAt(cut, i, last)
    ensures i < i + GoSize(GoRefAt(p, i, last).head, last) <= |cut|
  {
    hide Weigh, MakeHead;
  }

  lemma {:induction false} GoPrefix(cut: seq<byte>, p: seq<byte>, i: nat, last: Option<Relation>)
    requires cut <= p
    ensures GoRefs(cut, i, last) <= GoRefs(p, i, last)
    decreases |cut| - i
  {
    hide GoRefAt, ParseHead, GoHasRef, GoSize;
    if GoHasRef(cut, i, last) {
      GoTruncatedRef(cut, p, i, last);
      var ref := GoRefAt(p, i, last);
      var next := i + GoSize(ref.head, last);
      GoPrefix(cut, p, next, Some(ref.rel));
      assert GoRefs(cut, i, last) == [ref] + GoRefs(cut, next, Some(ref.rel));
      assert GoRefs(p, i, last) == [ref] + GoRefs(p, next, Some(ref.rel));
    }
  }

  /** Cutting a payload anywhere loses references from the end and changes none of the others. */
  lemma GoTruncation(p: seq<byte>, n: nat, i: nat, last: Option<Relation>)
    requires n <= |p|
    ensures GoRefs(p[..n], i, last) <= GoRefs(p, i, last)
  {
    hide GoRefs;
    GoPrefix(p[..n], p, i, last);
  }

  /** A reference that survives a cut reads as it did before. */
  lemma RustTruncatedRef(cut: seq<byte>, p: seq<byte>, i: nat, last: Option<Relation>)
    requires cut <= p && RustHasRef(cut, i)
    ensures RustHasRef(p, i) && RustRefAt(p, i, last) == RustRefAt(cut, i, last)
    ensures i < i + RustSize(RustRefAt(p, i, last).head) <= |cut|
  {
    hide Weigh, MakeHead;
  }

  lemma {:induction false} RustPrefix(cut: seq<byte>, p: seq<byte>, i: nat, last: Option<Relation>)
    requires cut <= p
    ensures RustRefs(cut, i, last) <= RustRefs(p, i, last)
    decreases |cut| - i
  {
    hide RustRefAt, ParseHead, RustHasRef, RustSize;
    if RustHasRef(cut, i) {
      RustTruncatedRef(cut, p, i, last);
      var ref := RustRefAt(p, i, last);
      var next := i + RustSize(ref.head);
      RustPrefix(cut, p, next, ref.rel);
      assert RustRefs(cut, i, last) == [ref] + RustRefs(cut, next, ref.rel);
      assert RustRefs(p, i, last) == [ref] + RustRefs(p, next, ref.rel);
    }
  }

  /** The same for the Rust parser. */
  lemma RustTruncation(p: seq<byte>, n: nat, i: nat, last: Option<Relation>)
    requires n <= |p|
    ensures RustRefs(p[..n], i, last) <= RustRefs(p, i, last)
  {
    hide RustRefs;
    RustPrefix(p[..n], p, i, last);
  }

  // ---- encoding ----

  /** A reference together with the bytes the parsers step over: the image header's tail and the inline data. */
  datatype Item = Item(ref: GoRef, imageRest: seq<byte>, data: seq<byte>)

  predicate Encodable(item: Item, last: Option<Relation>) {
    var h := item.ref.head;
    && h.id <= MAX_BLOCK_ID
    && h.forkNum < 16
    && |item.imageRest| == (if h.hasImage then 6 else 0)
    && (!h.hasImage ==> item.ref.imageLen == 0)
    && |item.data| == DataSize(h)
    && (h.sameRel && last.Some? ==> item.ref.rel == last.value)
  }

  predicate AllEncodable(items: seq<Item>, last: Option<Relation>) {
    items == [] || (Encodable(items[0], last) && AllEncodable(items[1..], Some(items[0].ref.rel)))
  }

  function Bit(b: bool, weight: nat): nat { if b then weight else 0 }

  function PutHead(h: Head): (b: seq<byte>)
    requires h.forkNum < 16
    ensures |b| == 4
  {
    [h.id, h.forkNum + Bit(h.hasImage, 16) + Bit(h.hasData, 32) + Bit(h.willInit, 64) + Bit(h.sameRel, 128)]
    + PutLE16(h.dataLen)
  }

  function PutImage(item: Item): seq<byte> {
    if item.ref.head.hasImage then PutLE16(item.ref.imageLen) + item.imageRest else []
  }

  function PutRelation(r: Relation): (b: seq<byte>)
    ensures |b| == 12
  {
    PutLE32(r.spc) + (PutLE32(r.db) + PutLE32(r.node))
  }

  function PutRelationUnlessSame(item: Item, last: Option<Relation>): seq<byte> {
    if GoRelBytes(item.ref.head, last) == 0 then [] else PutRelation(item.ref.rel)
  }

  function Encode(item: Item, last: Option<Relation>): (b: seq<byte>)
    requires Encodable(item, last)
    ensures |b| == GoSize(item.ref.head, last)
  {
    PutHead(item.ref.head)
    + (PutImage(item) + (PutRelationUnlessSame(item, last) + (PutLE32(item.ref.blockNum) + item.data)))
  }

  function EncodeAll(items: seq<Item>, last: Option<Relation>): seq<byte>
    requires AllEncodable(items, last)
  {
    if items == [] then []
    else Encode(items[0], last) + EncodeAll(items[1..], Some(items[0].ref.rel))
  }

  function Refs(items: seq<Item>): seq<GoRef> {
    seq(|items|, i requires 0 <= i < |items| => items[i].ref)
  }

  /** Four flags above a 4-bit number can be read back one by one. */
  lemma FlagBits(n: nat, a: bool, b: bool, c: bool, d: bool)
    requires n < 16
    ensures var f := n + Bit(a, 16) + Bit(b, 32) + Bit(c, 64) + Bit(d, 128);
            && f % 16 == n && (f / 16 % 2 == 1) == a && (f / 32 % 2 == 1) == b
            && (f / 64 % 2 == 1) == c && (f / 128 == 1) == d
  {
    var f := n + Bit(a, 16) + Bit(b, 32) + Bit(c, 64) + Bit(d, 128);
    assert f / 16 == Bit(a, 1) + Bit(b, 2) + Bit(c, 4) + Bit(d, 8);
    assert f / 32 == Bit(b, 1) + Bit(c, 2) + Bit(d, 4);
    assert f / 64 == Bit(c, 1) + Bit(d, 2);
  }

  lemma HeadRoundTrip(h: Head, p: seq<byte>, i: nat)
    requires h.forkNum < 16
    requires Holds(p, i, PutHead(h))
    ensures ParseHead(p, i) == h
  {
    hide LE16, Bit;
    FlagBits(h.forkNum, h.hasImage, h.hasData, h.willInit, h.sameRel);
    HoldsPart(p, i, PutHead(h)[..2], PutLE16(h.dataLen));
    assert PutHead(h)[..2] + PutLE16(h.dataLen) == PutHead(h);
    HoldsLE16(p, i + 2, h.dataLen);
    assert p[i + 0] == PutHead(h)[0] && p[i + 1] == PutHead(h)[1];
  }

  lemma RelationRoundTrip(r: Relation, p: seq<byte>, i: nat)
    requires Holds(p, i, PutRelation(r))
    ensures ParseRelation(p, i) == r
  {
    HoldsPart(p, i, PutLE32(r.spc), PutLE32(r.db) + PutLE32(r.node));
    HoldsPart(p, i + 4, PutLE32(r.db), PutLE32(r.node));
    HoldsLE32(p, i, r.spc);
    HoldsLE32(p, i + 4, r.db);
    HoldsLE32(p, i + 8, r.node);
  }

  lemma RefRoundTrip(item: Item, p: seq<byte>, i: nat, last: Option<Relation>)
    requires Encodable(item, last)
    requires Holds(p, i, Encode(item, last))
    ensures GoHasRef(p, i, last) && GoRefAt(p, i, last) == item.ref
  {
    hide LE16, LE32, ParseRelation, PutHead, PutRelation;
    var h := item.ref.head;
    var block := PutLE32(item.ref.blockNum);
    var rel := PutRelationUnlessSame(item, last);
    HoldsPart(p, i, PutHead(h), PutImage(item) + (rel + (block + item.data)));
    HeadRoundTrip(h, p, i);
    HoldsPart(p, i + 4, PutImage(item), rel + (block + item.data));
    if h.hasImage {
      HoldsPart(p, i + 4, PutLE16(item.ref.imageLen), item.imageRest);
      HoldsLE16(p, i + 4, item.ref.imageLen);
    }
    var at := i + 4 + ImageSize(h);
    HoldsPart(p, at, rel, block + item.data);
    if rel != [] { RelationRoundTrip(item.ref.rel, p, at); }
    HoldsPart(p, at + |rel|, block, item.data);
    HoldsLE32(p, at + |rel|, item.ref.blockNum);
  }

  /** The first encoded reference parses back and leaves the others to be parsed where it ends. */
  lemma FirstItem(items: seq<Item>, p: seq<byte>, i: nat, last: Option<Relation>)
    requires items != [] && AllEncodable(items, last)
    requires Holds(p, i, EncodeAll(items, last))
    ensures GoHasRef(p, i, last) && GoRefAt(p, i, last) == items[0].ref
    ensures var rest := EncodeAll(items[1..], Some(items[0].ref.rel));
            var next := i + GoSize(items[0].ref.head, last);
            Holds(p, next, rest) && next + |rest| == i + |EncodeAll(items, last)|
  {
    hide Encode, Encodable, GoRefAt, ParseHead;
    var item := items[0];
    HoldsPart(p, i, Encode(item, last), EncodeAll(items[1..], Some(item.ref.rel)));
    RefRoundTrip(item, p, i, last);
  }

  /** Encoded references parse back, wherever they stand, if what follows them does not start another reference. */
  lemma {:induction false} GoRoundTrip(items: seq<Item>, p: seq<byte>, i: nat, last: Option<Relation>)
    requires AllEncodable(items, last)
    requires Holds(p, i, EncodeAll(items, last))
    requires !AtRef(p, i + |EncodeAll(items, last)|)
    ensures GoRefs(p, i, last) == Refs(items)
    decreases |items|
  {
    hide Encode, Encodable, GoRefAt, ParseHead;
    if items != [] {
      var ref, rest := items[0].ref, items[1..];
      FirstItem(items, p, i, last);
      GoRoundTrip(rest, p, i + GoSize(ref.head, last), Some(ref.rel));
      assert Refs(items) == [ref] + Refs(rest);
    }
  }

  // ---- encoding for the Rust parser ----

  /** A reference as the Rust parser reports it, with the bytes stepped over. */
  datatype RustItem = RustItem(ref: RustRef, imageRest: seq<byte>, data: seq<byte>)

  /** A same-relation reference has the relation before it, or none at all if it is an orphan; the others have their own. */
  predicate RustEncodable(item: RustItem, last: Option<Relation>) {
    var h := item.ref.head;
    && h.id <= MAX_BLOCK_ID
    && h.forkNum < 16
    && |item.imageRest| == (if h.hasImage then 6 else 0)
    && (item.ref.imageLen.Some? <==> h.hasImage)
    && |item.data| == DataSize(h)
    && (if h.sameRel then item.ref.rel == last else item.ref.rel.Some?)
  }

  predicate AllRustEncodable(items: seq<RustItem>, last: Option<Relation>) {
    items == [] || (RustEncodable(items[0], last) && AllRustEncodable(items[1..], items[0].ref.rel))
  }

  function PutRustImage(item: RustItem): seq<byte> {
    if item.ref.imageLen.Some? then PutLE16(item.ref.imageLen.value) + item.imageRest else []
  }

  /** A same-relation reference never spells a relation. */
  function PutRustRelation(ref: RustRef): seq<byte>
    requires !ref.head.sameRel ==> ref.rel.Some?
  {
    if ref.head.sameRel then [] else PutRelation(ref.rel.value)
  }

  function RustEncode(item: RustItem, last: Option<Relation>): (b: seq<byte>)
    requires RustEncodable(item, last)
    ensures |b| == RustSize(item.ref.head)
  {
    PutHead(item.ref.head)
    + (PutRustImage(item) + (PutRustRelation(item.ref) + (PutLE32(item.ref.blockNum) + item.data)))
  }

  function RustEncodeAll(items: seq<RustItem>, last: Option<Relation>): seq<byte>
    requires AllRustEncodable(items, last)
  {
    if items == [] then [] else RustEncode(items[0], last) + RustEncodeAll(items[1..], items[0].ref.rel)
  }

  lemma RustRefRoundTrip(item: RustItem, p: seq<byte>, i: nat, last: Option<Relation>)
    requires RustEncodable(item, last)
    requires Holds(p, i, RustEncode(item, last))
    ensures RustHasRef(p, i) && RustRefAt(p, i, last) == item.ref
  {
    hide LE16, LE32, ParseRelation, PutHead, PutRelation;
    var h := item.ref.head;
    var block, rel := PutLE32(item.ref.blockNum), PutRustRelation(item.ref);
    HoldsPart(p, i, PutHead(h), PutRustImage(item) + (rel + (block + item.data)));
    HeadRoundTrip(h, p, i);
    HoldsPart(p, i + 4, PutRustImage(item), rel + (block + item.data));
    if h.hasImage {
      HoldsPart(p, i + 4, PutLE16(item.ref.imageLen.value), item.imageRest);
      HoldsLE16(p, i + 4, item.ref.imageLen.value);
    }
    var at := i + 4 + ImageSize(h);
    HoldsPart(p, at, rel, block + item.data);
    if !h.sameRel { RelationRoundTrip(item.ref.rel.value, p, at); }
    HoldsPart(p, at + |rel|, block, item.data);
    HoldsLE32(p, at + |rel|, item.ref.blockNum);
  }

  /** References so encoded, orphans included, are what the Rust parser finds, wherever they stand. */
  lemma {:induction false} RustRoundTrip(items: seq<RustItem>, p: seq<byte>, i: nat, last: Option<Relation>)
    requires AllRustEncodable(items, last)
    requires Holds(p, i, RustEncodeAll(items, last))
    requires !AtRef(p, i + |RustEncodeAll(items, last)|)
    ensures RustRefs(p, i, last) == seq(|items|, k requires 0 <= k < |items| => items[k].ref)
    decreases |items|
  {
    hide RustEncode, RustEncodable, RustRefAt, ParseHead, RustHasRef;
    if items == [] {
      NoRustRef(p, i);
    } else {
      var item, rest := items[0], items[1..];
      FirstRustItem(items, last);
      HoldsPart(p, i, RustEncode(item, last), RustEncodeAll(rest, item.ref.rel));
      RustRefRoundTrip(item, p, i, last);
      RustRoundTrip(rest, p, i + RustSize(item.ref.head), item.ref.rel);
    }
  }

  lemma NoRustRef(p: seq<byte>, i: nat)
    requires !AtRef(p, i)
    ensures !RustHasRef(p, i)
  {
  }

  lemma FirstRustItem(items: seq<RustItem>, last: Option<Relation>)
    requires items != [] && AllRustEncodable(items, last)
    ensures RustEncodable(items[0], last) && AllRustEncodable(items[1..], items[0].ref.rel)
    ensures |RustEncode(items[0], last)| == RustSize(items[0].ref.head)
  {
  }

  // ---- the two parsers compared ----

  /** A Go reference as the Rust collector would report it. */
  function AsRust(ref: GoRef): RustRef {
    RustRef(ref.head, ref.blockNum, if ref.head.hasImage then Some(ref.imageLen) else None, Some(ref.rel))
  }

  function AllAsRust(refs: seq<GoRef>): seq<RustRef> {
    seq(|refs|, i requires 0 <= i < |refs| => AsRust(refs[i]))
  }

  /** With a relation at hand or spelled out, both parsers read the same reference of the same size. */
  lemma SameRef(p: seq<byte>, i: nat, last: Option<Relation>)
    requires last.Some? || !AtRef(p, i) || !ParseHead(p, i).sameRel
    ensures GoHasRef(p, i, last) <==> RustHasRef(p, i)
    ensures GoHasRef(p, i, last) ==>
              var ref := GoRefAt(p, i, last);
              && RustRefAt(p, i, last) == AsRust(ref)
              && RustSize(ref.head) == GoSize(ref.head, last)
              && i < i + GoSize(ref.head, last) <= |p|
  {
    hide LE32, LE16, MakeHead;
  }

  lemma {:induction false} SameAfterRelation(p: seq<byte>, i: nat, last: Option<Relation>)
    requires last.Some? || !AtRef(p, i) || !ParseHead(p, i).sameRel
    ensures RustRefs(p, i, last) == AllAsRust(GoRefs(p, i, last))
    decreases |p| - i
  {
    hide GoRefAt, RustRefAt, ParseHead, GoHasRef, RustHasRef, GoSize, RustSize;
    SameRef(p, i, last);
    if GoHasRef(p, i, last) {
      var ref := GoRefAt(p, i, last);
      var next := i + GoSize(ref.head, last);
      SameAfterRelation(p, next, Some(ref.rel));
      var more := GoRefs(p, next, Some(ref.rel));
      assert AllAsRust([ref] + more) == [AsRust(ref)] + AllAsRust(more);
    }
  }

  /**
   * The payload opens with a complete reference that asks for the previous relation when there is none:
   * Go then reads a relation from the payload, Rust reads none.
   */
  predicate OrphanSameRel(p: seq<byte>) {
    RustHasRef(p, 0) && ParseHead(p, 0).sameRel
  }

  /** The parsers agree exactly on the payloads that do not open with an orphaned same-relation reference. */
  lemma ParsersAgree(p: seq<byte>)
    ensures RustRefs(p, 0, None) == AllAsRust(GoRefs(p, 0, None)) <==> !OrphanSameRel(p)
  {
    if AtRef(p, 0) && ParseHead(p, 0).sameRel {
      if RustHasRef(p, 0) {
        assert RustRefs(p, 0, None)[0].rel == None;
        if GoHasRef(p, 0, None) { assert AllAsRust(GoRefs(p, 0, None))[0].rel.Some?; }
      }
    } else {
      SameAfterRelation(p, 0, None);
    }
  }
  /** Eight bytes on which they differ: Rust reports block 1 without a relation, Go nothing at all. */
  lemma OrphanDiffers()
    ensures var p := [0, 0x80, 0, 0, 1, 0, 0, 0];
            && OrphanSameRel(p) && GoRefs(p, 0, None) == []
            && RustRefs(p, 0, None) == [RustRef(MakeHead(0, 0x80, 0), 1, None, None)]
  {
    var p := [0, 0x80, 0, 0, 1, 0, 0, 0];
    assert LE16(p, 2) == 0 && LE32(p, 4) == 1;
    assert RustRefs(p, 8, None) == [];
  }
}
