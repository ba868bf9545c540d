/** What the two readers make of the bytes of one record. */
module WalRecords {
  import opened Bytes
  import opened Options
  import opened WalTape
  import BlockRefs
  import LsnText
  import Go = GoWalReader
  import Rust = RustWalReader

  lemma LE32Digits(b: seq<byte>, i: nat)
    requires i + 4 <= |b|
    ensures PutLE32(LE32(b, i)) == b[i..i + 4]
  {
    var n := LE32(b, i);
    assert n / 0x100 == Weigh(b[i + 1], 1) + Weigh(b[i + 2], 0x100) + Weigh(b[i + 3], 0x1_0000);
    assert n / 0x100 / 0x100 == Weigh(b[i + 2], 1) + Weigh(b[i + 3], 0x100);
  }

  /** The record header and payload spelled from a Go record; pad is the two bytes the reader drops. */
  function Spell(r: Go.Record, pad: seq<byte>): seq<byte> {
    PutLE32(r.recordLen) + PutLE32(r.xid) + PutLE32(r.prevLsnValue % TWO_32) + PutLE32(r.prevLsnValue / TWO_32)
    + [r.info, r.rmgrId] + pad + PutLE32(r.crc) + r.data
  }

  /** A Go record loses nothing of the bytes it was built from but two bytes of padding. */
  lemma RecordSpellsBack(raw: seq<byte>, lsn: u64, pageOffset: u32)
    requires RECORD_HEADER_SIZE <= |raw| < TWO_32 && LE32(raw, 0) == |raw|
    ensures Spell(Go.RecordOf(raw, lsn, pageOffset), raw[18..20]) == raw
  {
    LE32Digits(raw, 0);
    LE32Digits(raw, 4);
    LE32Digits(raw, 8);
    LE32Digits(raw, 12);
    LE32Digits(raw, 20);
    Fields(raw, lsn, pageOffset);
    Pieces(raw);
    hide LE32, PutLE32, Go.RecordOf;
  }

  lemma Fields(raw: seq<byte>, lsn: u64, pageOffset: u32)
    requires RECORD_HEADER_SIZE <= |raw| < TWO_32
    ensures var r := Go.RecordOf(raw, lsn, pageOffset);
            && r.recordLen == |raw| && r.xid == LE32(raw, 4) && r.info == raw[16] && r.rmgrId == raw[17]
            && r.prevLsnValue % TWO_32 == LE32(raw, 8) && r.prevLsnValue / TWO_32 == LE32(raw, 12)
            && r.crc == LE32(raw, 20) && r.data == raw[24..]
  {
    hide LE32;
    Halves(LE32(raw, 8), LE32(raw, 12));
  }

  lemma Pieces(raw: seq<byte>)
    requires RECORD_HEADER_SIZE <= |raw|
    ensures raw
         == raw[0..4] + raw[4..8] + raw[8..12] + raw[12..16] + [raw[16], raw[17]] + raw[18..20] + raw[20..24] + raw[24..]
  {
  }

  /** The LSN texts of a record parse back to its LSN values. */
  lemma RecordTextsParse(raw: seq<byte>, lsn: u64, pageOffset: u32)
    requires RECORD_HEADER_SIZE <= |raw| < TWO_32
    ensures var r := Go.RecordOf(raw, lsn, pageOffset);
            && r.lsnValue == lsn
            && LsnText.ParseLSN(r.lsn) == LsnText.Parsed(lsn / TWO_32, lsn % TWO_32)
            && LsnText.ParseLSN(r.prevLsn) == LsnText.Parsed(r.prevLsnValue / TWO_32, r.prevLsnValue % TWO_32)
  {
    hide LE32, LE64;
    var prev := LE64(raw, 8);
    LsnText.ParseFormat(lsn / TWO_32, lsn % TWO_32);
    LsnText.ParseFormat(prev / TWO_32, prev % TWO_32);
    hide LsnText.ParseLSN, LsnText.FormatLSN;
  }

  lemma Halves(lo: u32, hi: u32)
    ensures (lo + hi * TWO_32) % TWO_32 == lo && (lo + hi * TWO_32) / TWO_32 == hi
  {
  }

  /** Given the same bytes and LSN, the two readers report the same record, and the same references unless one is orphaned. */
  lemma ReadersAgree(raw: seq<byte>, lsn: u64, pageOffset: u32)
    requires RECORD_HEADER_SIZE <= |raw| < TWO_32
    ensures var r, e := Go.RecordOf(raw, lsn, pageOffset), Rust.EventOf(raw, lsn);
            && e.xlogPtr == r.lsn && e.lsnValue == r.lsnValue && e.recordLen == r.recordLen && e.payloadLen == r.payloadLen
            && e.rmgrId == r.rmgrId && e.info == r.info && e.xid == r.xid
            && (e.blocks == BlockRefs.AllAsRust(r.blocks) <==> !BlockRefs.OrphanSameRel(raw[RECORD_HEADER_SIZE..]))
    ensures var r, e := Go.RecordOf(raw, lsn, pageOffset), Rust.EventOf(raw, lsn);
            !BlockRefs.OrphanSameRel(raw[RECORD_HEADER_SIZE..]) && r.blocks != [] ==>
              e.blockNum == Some(r.blocks[0].blockNum) && e.relOid == Some(r.blocks[0].rel.node)
  {
    hide LE32, LE64;
    BlockRefs.ParsersAgree(raw[RECORD_HEADER_SIZE..]);
  }

  /** The Rust reader reports a block exactly for a payload that opens with a reference, and a relation unless it asks for one. */
  lemma FirstReference(raw: seq<byte>, lsn: u64)
    requires RECORD_HEADER_SIZE <= |raw| < TWO_32
    ensures var e, payload := Rust.EventOf(raw, lsn), raw[RECORD_HEADER_SIZE..];
            && (e.blockNum.None? <==> !BlockRefs.RustHasRef(payload, 0))
            && (e.relOid.None? <==> !BlockRefs.RustHasRef(payload, 0) || BlockRefs.OrphanSameRel(payload))
            && (BlockRefs.RustHasRef(payload, 0) ==>
                  e.blockNum == Some(BlockRefs.RustRefAt(payload, 0, None).blockNum))
            && (e.relOid.Some? ==>
                  e.relOid.value == BlockRefs.ParseRelation(payload, if payload[1] / 16 % 2 == 1 then 12 else 4).node)
  {
    hide LE32, LE16;
  }
}
