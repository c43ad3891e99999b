/** One 255-byte flash page: checksum, health and payload size. */
module Sector {
  import opened Bytes
  import Crc

  function Checksum(payload: seq<byte>): (n: nat)
    ensures n < 0x1_0000
  {
    Crc.Crc16(payload)
  }

  /** `page[-2:] = struct.pack(">H", crc16_ccitt(page[:-2]))`, on a sector-sized page. */
  function WithCrc(data: seq<byte>): (r: seq<byte>)
    requires |data| == SECTOR_SIZE
    ensures |r| == SECTOR_SIZE && r[..PAGE_DATA_SIZE] == data[..PAGE_DATA_SIZE]
    ensures SectorCrcOk(r)
  {
    var r := data[..PAGE_DATA_SIZE] + PackBE(Checksum(data[..PAGE_DATA_SIZE]));
    assert r[..PAGE_DATA_SIZE] == data[..PAGE_DATA_SIZE];
    r
  }

  predicate SectorCrcOk(data: seq<byte>) {
    |data| == SECTOR_SIZE &&
    UnpackBE(data[PAGE_DATA_SIZE], data[PAGE_DATA_SIZE + 1]) == Checksum(data[..PAGE_DATA_SIZE])
  }

  predicate Erased(data: seq<byte>) {
    |data| == SECTOR_SIZE && forall i :: 0 <= i < SECTOR_SIZE ==> data[i] == 0xFF
  }

  datatype Health = Invalid | ErasedPage | CrcValid | RawNoCrc

  function MacroPageHealth(data: seq<byte>): Health {
    if |data| != SECTOR_SIZE then Invalid
    else if Erased(data) then ErasedPage
    else if SectorCrcOk(data) then CrcValid
    else RawNoCrc
  }

  /** Bytes a macro may occupy on this page; `None` where `macro_payload_limit` raises. */
  function PayloadLimit(data: seq<byte>): (r: Option<nat>)
    ensures r == Some(PAGE_DATA_SIZE) <==> SectorCrcOk(data) && !Erased(data)
    ensures r == Some(SECTOR_SIZE) <==> |data| == SECTOR_SIZE && (Erased(data) || !SectorCrcOk(data))
    ensures r.None? <==> |data| != SECTOR_SIZE
  {
    match MacroPageHealth(data)
    case Invalid => None
    case CrcValid => Some(PAGE_DATA_SIZE)
    case _ => Some(SECTOR_SIZE)
  }

  /** A page corrupted within one payload byte or two adjacent payload bytes never
      passes the checksum test again. */
  lemma CorruptionIsDetected(page: seq<byte>, read: seq<byte>, i: nat)
    requires SectorCrcOk(page) && |read| == SECTOR_SIZE && page != read
    requires i < PAGE_DATA_SIZE
    requires forall k :: 0 <= k < SECTOR_SIZE && k != i && !(k == i + 1 < PAGE_DATA_SIZE) ==> page[k] == read[k]
    ensures !SectorCrcOk(read)
  {
    var j :| 0 <= j < SECTOR_SIZE && page[j] != read[j];
    assert page[..PAGE_DATA_SIZE][j] != read[..PAGE_DATA_SIZE][j];
    Crc.DetectsShortBursts(page[..PAGE_DATA_SIZE], read[..PAGE_DATA_SIZE], i);
  }
}
