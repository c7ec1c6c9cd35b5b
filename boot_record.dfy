// libvsmbr_boot_record.c: a 512-byte master or extended boot record.
//
// Sector layout (libvsmbr/vsmbr_boot_record.h): boot loader (440 bytes),
// disk identity (4, little-endian), padding (2), four 16-byte partition
// entries from offset 446, boot signature 0x55 0xaa at offsets 510-511.

module BootRecord {
  import opened Common
  import opened FileIo
  import PE = PartitionEntry

  const BootRecordSize: nat := 512
  const DiskIdentityOffset: nat := 440
  const PartitionTableOffset: nat := 446

  /** The boot signature: the last two bytes of the sector are 0x55 0xaa. */
  predicate HasBootSignature(data: seq<uint8>): (b: bool)
    requires |data| == BootRecordSize
    ensures b <==> data[BootRecordSize - 2..] == [0x55, 0xaa]
  {
    data[510] == 0x55 && data[511] == 0xaa
  }

  /** The disk identity: the value whose little-endian bytes are the four
      bytes at 440. */
  function DiskIdentity(data: seq<uint8>): (identity: uint32)
    requires |data| == BootRecordSize
    ensures LittleEndianBytes32(identity) == data[DiskIdentityOffset..DiskIdentityOffset + 4]
  {
    BytesOfLittleEndian32(data[DiskIdentityOffset..DiskIdentityOffset + 4]);
    LittleEndian32(data[DiskIdentityOffset..DiskIdentityOffset + 4])
  }

  /** Entry i of the table: the 16 bytes at 446 + 16 i, with index i; its
      flags and type are the entry's bytes 0 and 4. */
  function DecodeEntry(data: seq<uint8>, i: nat): (e: PE.PartitionEntry)
    requires |data| == BootRecordSize && i < 4
    ensures e.index == i
    ensures e.flags == data[PartitionTableOffset + PE.EntrySize * i]
            && e.partitionType == data[PartitionTableOffset + PE.EntrySize * i + 4]
  {
    var offset := PartitionTableOffset + PE.EntrySize * i;
    PE.ReadData(PE.Zero.(index := i), data[offset..offset + PE.EntrySize]).value
  }

  /** Decoding an entry loses nothing but its two CHS addresses: encoding it
      again with those gives back the entry's 16 bytes. */
  lemma DecodeEntryEncodes(data: seq<uint8>, i: nat)
    requires |data| == BootRecordSize && i < 4
    ensures var offset := PartitionTableOffset + PE.EntrySize * i;
            PE.Encode(DecodeEntry(data, i), data[offset + 1..offset + 4], data[offset + 5..offset + 8])
            == data[offset..offset + PE.EntrySize]
  {
    var offset := PartitionTableOffset + PE.EntrySize * i;
    var bytes := data[offset..offset + PE.EntrySize];
    PE.EncodeRead(PE.Zero.(index := i), bytes);
    assert bytes[1..4] == data[offset + 1..offset + 4] && bytes[5..8] == data[offset + 5..offset + 8];
  }

  /** The four entries of the table, in table order. */
  function DecodeEntries(data: seq<uint8>): (entries: seq<PE.PartitionEntry>)
    requires |data| == BootRecordSize
    ensures |entries| == 4
    ensures forall i :: 0 <= i < 4 ==> entries[i] == DecodeEntry(data, i)
  {
    [DecodeEntry(data, 0), DecodeEntry(data, 1), DecodeEntry(data, 2), DecodeEntry(data, 3)]
  }

  /** What a successful read of a boot record yields. */
  datatype Decoded = Decoded(diskIdentity: uint32, entries: seq<PE.PartitionEntry>)

  /** The sector at `offset` of an open handle: seek, then a read of exactly 512 bytes. */
  function ReadSector(bytes: seq<uint8>, offset: int): (r: Result<seq<uint8>>)
    ensures offset < 0 ==> r == Err(Error(Io, SeekFailed))
    ensures offset >= 0 ==> (r.Ok? <==> offset + BootRecordSize <= |bytes|)
    ensures offset >= 0 && r.Err? ==> r.error == Error(Io, ReadFailed)
    ensures r.Ok? ==> r.value == bytes[offset..offset + BootRecordSize]
  {
    match ReadAt(bytes, offset, BootRecordSize)
    case Err(e) => Err(e)
    case Ok(data) => if |data| != BootRecordSize then Err(Error(Io, ReadFailed)) else Ok(data)
  }

  /** libvsmbr_boot_record_read_file_io_handle into a record with no entries yet. */
  function ReadBootRecord(bytes: seq<uint8>, offset: int): (r: Result<Decoded>)
    ensures r.Ok? <==> ReadSector(bytes, offset).Ok? && HasBootSignature(ReadSector(bytes, offset).value)
    ensures r.Err? ==> r.error == (if offset < 0 then Error(Io, SeekFailed) else Error(Io, ReadFailed))
    ensures r.Ok? ==> var data := bytes[offset..offset + BootRecordSize];
              r.value == Decoded(DiskIdentity(data), DecodeEntries(data))
  {
    match ReadSector(bytes, offset)
    case Err(e) => Err(e)
    case Ok(data) =>
      if !HasBootSignature(data) then Err(Error(Io, ReadFailed))
      else Ok(Decoded(DiskIdentity(data), DecodeEntries(data)))
  }

  class BootRecord {
    var diskIdentity: uint32
    var partitionEntries: seq<PE.PartitionEntry>

    /** libvsmbr_boot_record_initialize: an empty record. */
    constructor ()
      ensures diskIdentity == 0 && partitionEntries == []
    {
      diskIdentity := 0;
      partitionEntries := [];
    }

    /** libvsmbr_boot_record_read_data. The entries are appended to the ones
        already present; a bad signature empties the array. */
    method ReadData(data: seq<uint8>) returns (r: Result<()>)
      modifies this
      ensures |data| != BootRecordSize ==> r == Err(Error(Arguments, ValueOutOfBounds)) && unchanged(this)
      ensures |data| == BootRecordSize && !HasBootSignature(data) ==>
                r == Err(Error(Runtime, UnsupportedValue))
                && partitionEntries == [] && diskIdentity == old(diskIdentity)
      ensures |data| == BootRecordSize && HasBootSignature(data) ==>
                r == Ok(()) && diskIdentity == DiskIdentity(data)
                && partitionEntries == old(partitionEntries) + DecodeEntries(data)
    {
      if |data| != BootRecordSize {
        return Err(Error(Arguments, ValueOutOfBounds));
      }
      if data[510] != 0x55 || data[511] != 0xaa {
        partitionEntries := [];
        return Err(Error(Runtime, UnsupportedValue));
      }
      diskIdentity := LittleEndian32(data[DiskIdentityOffset..DiskIdentityOffset + 4]);
      var dataOffset := PartitionTableOffset;
      var i := 0;
      while i < 4
        invariant 0 <= i <= 4 && dataOffset == PartitionTableOffset + PE.EntrySize * i
        invariant diskIdentity == DiskIdentity(data)
        invariant partitionEntries == old(partitionEntries) + DecodeEntries(data)[..i]
      {
        var entry := PE.ReadData(PE.Zero.(index := i), data[dataOffset..dataOffset + PE.EntrySize]);
        partitionEntries := partitionEntries + [entry.value];
        dataOffset := dataOffset + PE.EntrySize;
        i := i + 1;
      }
      r := Ok(());
    }

    /** libvsmbr_boot_record_read_file_io_handle: seek to `fileOffset`, read
        exactly 512 bytes, decode them. Seeking fails on a closed handle. */
    method ReadFileIoHandle(fileIoHandle: FileIoHandle, fileOffset: int) returns (r: Result<()>)
      modifies this
      ensures !fileIoHandle.isOpen ==> r == Err(Error(Io, SeekFailed)) && unchanged(this)
      ensures fileIoHandle.isOpen ==>
                var s := ReadBootRecord(fileIoHandle.bytes, fileOffset);
                (r.Ok? <==> s.Ok?) && (r.Err? ==> r.error == s.error)
                && (s.Ok? ==> diskIdentity == s.value.diskIdentity
                              && partitionEntries == old(partitionEntries) + s.value.entries)
      ensures r.Err? && ReadSector(fileIoHandle.bytes, fileOffset).Err? ==> unchanged(this)
      ensures fileIoHandle.isOpen && ReadSector(fileIoHandle.bytes, fileOffset).Ok?
              && !HasBootSignature(ReadSector(fileIoHandle.bytes, fileOffset).value) ==>
                partitionEntries == [] && diskIdentity == old(diskIdentity)
      ensures fileIoHandle.isOpen && old(partitionEntries) == [] ==>
                var s := ReadBootRecord(fileIoHandle.bytes, fileOffset);
                (r.Ok? <==> s.Ok?) && (r.Ok? ==> partitionEntries == s.value.entries)
                && (r.Err? ==> partitionEntries == [])
    {
      if !fileIoHandle.isOpen || fileOffset < 0 {
        return Err(Error(Io, SeekFailed));
      }
      var read := ReadAt(fileIoHandle.bytes, fileOffset, BootRecordSize);
      if read.Err? || |read.value| != BootRecordSize {
        return Err(Error(Io, ReadFailed));
      }
      var status := ReadData(read.value);
      if status.Err? {
        return Err(Error(Io, ReadFailed));
      }
      r := Ok(());
    }

    /** libvsmbr_boot_record_get_number_of_partition_entries. */
    function GetNumberOfPartitionEntries(): (n: nat)
      reads this
      ensures n == |partitionEntries|
    {
      |partitionEntries|
    }

    /** libvsmbr_boot_record_get_partition_entry_by_index. */
    function GetPartitionEntryByIndex(index: int): (r: Result<PE.PartitionEntry>)
      reads this
      ensures r.Ok? <==> 0 <= index < |partitionEntries|
      ensures r.Ok? ==> r.value == partitionEntries[index]
      ensures r.Err? ==> r.error == Error(Runtime, GetFailed)
    {
      if 0 <= index < |partitionEntries| then Ok(partitionEntries[index])
      else Err(Error(Runtime, GetFailed))
    }
  }

  /** A 512-byte sector built from its parts: boot code, disk identity,
      padding, the four entries with their CHS bytes, and the signature. */
  function EncodeSector(bootCode: seq<uint8>, diskIdentity: uint32, padding: seq<uint8>,
                        entries: seq<PE.PartitionEntry>, chs: seq<uint8>): (data: seq<uint8>)
    requires |bootCode| == DiskIdentityOffset && |padding| == 2 && |entries| == 4 && |chs| == 24
    ensures |data| == BootRecordSize
  {
    bootCode + LittleEndianBytes32(diskIdentity) + padding
    + PE.Encode(entries[0], chs[0..3], chs[3..6])
    + PE.Encode(entries[1], chs[6..9], chs[9..12])
    + PE.Encode(entries[2], chs[12..15], chs[15..18])
    + PE.Encode(entries[3], chs[18..21], chs[21..24])
    + [0x55, 0xaa]
  }

  lemma EncodedEntry(bootCode: seq<uint8>, diskIdentity: uint32, padding: seq<uint8>,
                     entries: seq<PE.PartitionEntry>, chs: seq<uint8>, i: nat)
    requires |bootCode| == DiskIdentityOffset && |padding| == 2 && |entries| == 4 && |chs| == 24
    requires i < 4 && entries[i].index == i
    ensures DecodeEntry(EncodeSector(bootCode, diskIdentity, padding, entries, chs), i) == entries[i]
  {
    var data := EncodeSector(bootCode, diskIdentity, padding, entries, chs);
    var offset := PartitionTableOffset + PE.EntrySize * i;
    var record := PE.Encode(entries[i], chs[6 * i..6 * i + 3], chs[6 * i + 3..6 * i + 6]);
    assert data[offset..offset + PE.EntrySize] == record;
    PE.ReadEncoded(entries[i], chs[6 * i..6 * i + 3], chs[6 * i + 3..6 * i + 6]);
  }

  /** Decoding an encoded sector gives back the disk identity and the four
      entries in order, whatever the boot code, padding and CHS bytes. */
  lemma {:induction false} DecodeEncodedSector(bootCode: seq<uint8>, diskIdentity: uint32, padding: seq<uint8>,
                                               entries: seq<PE.PartitionEntry>, chs: seq<uint8>)
    requires |bootCode| == DiskIdentityOffset && |padding| == 2 && |entries| == 4 && |chs| == 24
    requires forall i :: 0 <= i < 4 ==> entries[i].index == i
    ensures var data := EncodeSector(bootCode, diskIdentity, padding, entries, chs);
            HasBootSignature(data) && DiskIdentity(data) == diskIdentity && DecodeEntries(data) == entries
  {
    var data := EncodeSector(bootCode, diskIdentity, padding, entries, chs);
    assert data[DiskIdentityOffset..DiskIdentityOffset + 4] == LittleEndianBytes32(diskIdentity);
    LittleEndian32OfBytes(diskIdentity);
    EncodedEntry(bootCode, diskIdentity, padding, entries, chs, 0);
    EncodedEntry(bootCode, diskIdentity, padding, entries, chs, 1);
    EncodedEntry(bootCode, diskIdentity, padding, entries, chs, 2);
    EncodedEntry(bootCode, diskIdentity, padding, entries, chs, 3);
  }

  /** Any sector whose bytes from offset 440 on are those of the sector of the
      boot-record test (its boot code does not matter) decodes to disk identity
      0x695b431a, an NTFS entry at LBA 2048 of 204800 sectors, a second NTFS
      entry at LBA 206848 of 0x031cd000 sectors, and two empty entries. */
  lemma SampleSector(data: seq<uint8>)
    requires |data| == BootRecordSize
    requires data[440..444] == [0x1a, 0x43, 0x5b, 0x69]
    requires data[446..462] == [0x80, 0x20, 0x21, 0x00, 0x07, 0xdf, 0x13, 0x0c,
                                0x00, 0x08, 0x00, 0x00, 0x00, 0x20, 0x03, 0x00]
    requires data[462..478] == [0x00, 0xdf, 0x14, 0x0c, 0x07, 0xfe, 0xff, 0xff,
                                0x00, 0x28, 0x03, 0x00, 0x00, 0xd0, 0x1c, 0x03]
    requires data[478..494] == seq(16, _ => 0) && data[494..510] == seq(16, _ => 0)
    requires data[510] == 0x55 && data[511] == 0xaa
    ensures HasBootSignature(data)
    ensures DiskIdentity(data) == 0x695b431a
    ensures DecodeEntries(data) == [
      PE.PartitionEntry(0, 0x80, 0x07, 2048, 204800),
      PE.PartitionEntry(1, 0x00, 0x07, 206848, 0x031c_d000),
      PE.PartitionEntry(2, 0, 0, 0, 0),
      PE.PartitionEntry(3, 0, 0, 0, 0)]
  {
    SampleEntry(data, 0, PE.PartitionEntry(0, 0x80, 0x07, 2048, 204800));
    assert data[462..478][8..12] == [0x00, 0x28, 0x03, 0x00];
    assert data[462..478][12..16] == [0x00, 0xd0, 0x1c, 0x03];
    SampleEntry(data, 1, PE.PartitionEntry(1, 0x00, 0x07, 206848, 0x031c_d000));
    SampleEntry(data, 2, PE.PartitionEntry(2, 0, 0, 0, 0));
    SampleEntry(data, 3, PE.PartitionEntry(3, 0, 0, 0, 0));
  }

  lemma SampleEntry(data: seq<uint8>, i: nat, e: PE.PartitionEntry)
    requires |data| == BootRecordSize && i < 4
    requires var record := data[PartitionTableOffset + 16 * i..PartitionTableOffset + 16 * i + 16];
             e == PE.PartitionEntry(i, record[0], record[4], LittleEndian32(record[8..12]), LittleEndian32(record[12..16]))
    ensures DecodeEntry(data, i) == e
  {
  }

  /** A sector ending in 0xff 0xff, as the error sector of the boot-record
      test does, is refused by a new record, which is left without entries
      and with disk identity 0. */
  method RejectsBadSignature(data: seq<uint8>) returns (r: Result<()>, entries: seq<PE.PartitionEntry>, identity: uint32)
    requires |data| == BootRecordSize && data[510] == 0xff && data[511] == 0xff
    ensures r == Err(Error(Runtime, UnsupportedValue)) && entries == [] && identity == 0
  {
    var record := new BootRecord();
    r := record.ReadData(data);
    entries, identity := record.partitionEntries, record.diskIdentity;
  }
}
