// libvsmbr_partition_entry.c: one 16-byte partition record of a boot record.
//
// On-disk layout (libvsmbr/vsmbr_partition_entry.h): flags (1 byte), start
// address CHS (3), type (1), end address CHS (3), start address LBA (4,
// little-endian), number of sectors (4, little-endian).

module PartitionEntry {
  import opened Common

  const EntrySize: nat := 16

  datatype PartitionEntry = PartitionEntry(
    index: uint8,
    flags: uint8,
    partitionType: uint8,
    startAddressLba: uint32,
    numberOfSectors: uint32)

  /** The record a successful initialize allocates: every field zero. */
  const Zero: PartitionEntry := PartitionEntry(0, 0, 0, 0, 0)

  /** libvsmbr_partition_entry_initialize. */
  function Initialize(slot: Slot<PartitionEntry>): (r: Result<Slot<PartitionEntry>>)
    ensures slot.NullSlot? ==> r == Err(Error(Arguments, InvalidValue))
    ensures slot.Slot? && slot.target.Some? ==> r == Err(Error(Runtime, ValueAlreadySet))
    ensures r.Ok? <==> slot == Slot(None)
    ensures r.Ok? ==> r.value.Slot? && r.value.target.Some? && var e := r.value.target.value;
              e.index == 0 && e.flags == 0 && e.partitionType == 0
              && e.startAddressLba == 0 && e.numberOfSectors == 0
  {
    Allocate(slot, Zero)
  }

  /** libvsmbr_partition_entry_free. */
  function Free(slot: Slot<PartitionEntry>): (r: Result<Slot<PartitionEntry>>)
    ensures slot.NullSlot? <==> r == Err(Error(Arguments, InvalidValue))
    ensures slot.Slot? ==> r == Ok(Slot(None))
  {
    Release(slot)
  }

  /** libvsmbr_partition_entry_read_data: the fields of `entry` it sets are
      taken from the record; `index` is left as the caller set it. */
  function ReadData(entry: PartitionEntry, data: seq<uint8>): (r: Result<PartitionEntry>)
    ensures |data| != EntrySize <==> r.Err?
    ensures r.Err? ==> r.error == Error(Arguments, ValueOutOfBounds)
    ensures r.Ok? ==> r.value.index == entry.index
    ensures r.Ok? ==> r.value.flags == data[0] && r.value.partitionType == data[4]
  {
    if |data| != EntrySize then Err(Error(Arguments, ValueOutOfBounds))
    else Ok(entry.(flags := data[0],
                   partitionType := data[4],
                   startAddressLba := LittleEndian32(data[8..12]),
                   numberOfSectors := LittleEndian32(data[12..16])))
  }

  /** A 16-byte record holding the given fields, with the CHS addresses as given. */
  function Encode(e: PartitionEntry, chsStart: seq<uint8>, chsEnd: seq<uint8>): (data: seq<uint8>)
    requires |chsStart| == 3 && |chsEnd| == 3
    ensures |data| == EntrySize
  {
    [e.flags] + chsStart + [e.partitionType] + chsEnd
    + LittleEndianBytes32(e.startAddressLba) + LittleEndianBytes32(e.numberOfSectors)
  }

  /** Reading an encoded record gives back every field, whatever the CHS bytes. */
  lemma ReadEncoded(e: PartitionEntry, chsStart: seq<uint8>, chsEnd: seq<uint8>)
    requires |chsStart| == 3 && |chsEnd| == 3
    ensures ReadData(e, Encode(e, chsStart, chsEnd)) == Ok(e)
  {
    var data := Encode(e, chsStart, chsEnd);
    assert data[8..12] == LittleEndianBytes32(e.startAddressLba);
    assert data[12..16] == LittleEndianBytes32(e.numberOfSectors);
    LittleEndian32OfBytes(e.startAddressLba);
    LittleEndian32OfBytes(e.numberOfSectors);
  }

  /** Every record is the encoding of what is read from it: the decoder
      loses nothing except the two CHS addresses. */
  lemma EncodeRead(entry: PartitionEntry, data: seq<uint8>)
    requires |data| == EntrySize
    ensures Encode(ReadData(entry, data).value, data[1..4], data[5..8]) == data
  {
    BytesOfLittleEndian32(data[8..12]);
    BytesOfLittleEndian32(data[12..16]);
    assert data == [data[0]] + data[1..4] + [data[4]] + data[5..8] + data[8..12] + data[12..16];
  }

  /** The LBA and sector count are the little-endian values of bytes 8..11 and 12..15. */
  lemma ReadDataFields(entry: PartitionEntry, data: seq<uint8>)
    requires |data| == EntrySize
    ensures ReadData(entry, data).value.startAddressLba
            == data[8] as int + 0x100 * data[9] as int + 0x1_0000 * data[10] as int + 0x100_0000 * data[11] as int
    ensures ReadData(entry, data).value.numberOfSectors
            == data[12] as int + 0x100 * data[13] as int + 0x1_0000 * data[14] as int + 0x100_0000 * data[15] as int
  {
  }

  /** The CHS bytes 1..3 and 5..7 never affect the stored fields. */
  lemma ChsBytesIgnored(entry: PartitionEntry, data: seq<uint8>, other: seq<uint8>)
    requires |data| == EntrySize && |other| == EntrySize
    requires data[0] == other[0] && data[4] == other[4] && data[8..] == other[8..]
    ensures ReadData(entry, data) == ReadData(entry, other)
  {
    assert data[8..12] == data[8..][..4] && other[8..12] == other[8..][..4];
    assert data[12..16] == data[8..][4..] && other[12..16] == other[8..][4..];
  }

  /** The record of the partition-entry test decodes to flags 0x80, type 0x07,
      LBA 2048 and 204800 sectors. */
  lemma SampleRecord()
    ensures ReadData(Zero, [0x80, 0x20, 0x21, 0x00, 0x07, 0xdf, 0x13, 0x0c,
                            0x00, 0x08, 0x00, 0x00, 0x00, 0x20, 0x03, 0x00])
            == Ok(PartitionEntry(0, 0x80, 0x07, 2048, 204800))
  {
  }
}
