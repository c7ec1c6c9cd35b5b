// libvsmbr_io_handle.c: the IO handle (bytes per sector, abort flag) and the
// oldest partition-table readers, read_mbr and read_eprs.
//
// read_mbr and read_eprs read the raw 16-byte records without going through
// libvsmbr_partition_entry_read_data; the fields they use (type, LBA, sector
// count) are the ones BootRecord.DecodeEntries gives. read_mbr names the
// sector-count field `size`, which the on-disk record struct calls
// number_of_sectors; the model reads bytes 12..15 for it.

module IoHandle {
  import opened Common
  import opened FileIo
  import PE = PartitionEntry
  import PV = PartitionValues
  import BR = BootRecord

  datatype IoHandle = IoHandle(bytesPerSector: nat, abort: bool)

  /** The handle a successful initialize allocates: zeroed, then 512 bytes per sector. */
  const Initial: IoHandle := IoHandle(512, false)

  /** libvsmbr_io_handle_initialize. */
  function Initialize(slot: Slot<IoHandle>): (r: Result<Slot<IoHandle>>)
    ensures slot.NullSlot? ==> r == Err(Error(Arguments, InvalidValue))
    ensures slot.Slot? && slot.target.Some? ==> r == Err(Error(Runtime, ValueAlreadySet))
    ensures r.Ok? <==> slot == Slot(None)
    ensures r.Ok? ==> (r.value.Slot? && r.value.target.Some?
                       && r.value.target.value.bytesPerSector == 512 && !r.value.target.value.abort)
  {
    Allocate(slot, Initial)
  }

  /** libvsmbr_io_handle_free: NULL argument refused, NULL target accepted. */
  function Free(slot: Slot<IoHandle>): (r: Result<Slot<IoHandle>>)
    ensures slot.NullSlot? <==> r == Err(Error(Arguments, InvalidValue))
    ensures slot.Slot? ==> r == Ok(Slot(None))
  {
    Release(slot)
  }

  /** libvsmbr_io_handle_clear, which close calls. Its body is not part of
      this model's source; it is taken to restore the values initialize sets. */
  function Clear(ioHandle: IoHandle): (r: IoHandle)
    ensures r.bytesPerSector == 512 && !r.abort
  {
    Initial
  }

  /** A count of sectors in bytes. */
  function ByteOffset(sectors: nat, bytesPerSector: nat): int {
    sectors * bytesPerSector
  }

  /** The descriptor read_mbr and read_eprs build from an entry: byte offset
      and byte size are the LBA and sector count times bytes per sector. */
  function Describe(e: PE.PartitionEntry, bytesPerSector: nat): (d: PV.PartitionValues)
    ensures d.partitionType == e.partitionType && d.offset >= 0 && d.size >= 0
    // offset and size are whole sectors: the LBA and the count are recovered
    ensures bytesPerSector > 0 ==>
              d.offset / bytesPerSector == e.startAddressLba as int && d.offset % bytesPerSector == 0
              && d.size / bytesPerSector == e.numberOfSectors as int && d.size % bytesPerSector == 0
    // the fields kept in sectors are left at zero
    ensures d.partitionRecordOffset == 0 && d.sectorNumber == 0 && d.numberOfSectors == 0
  {
    WholeSectors(e.startAddressLba as int, bytesPerSector);
    WholeSectors(e.numberOfSectors as int, bytesPerSector);
    PV.Zero.(partitionType := e.partitionType,
             offset := ByteOffset(e.startAddressLba, bytesPerSector),
             size := ByteOffset(e.numberOfSectors, bytesPerSector))
  }

  lemma WholeSectors(sectors: nat, bytesPerSector: nat)
    ensures bytesPerSector > 0 ==>
              ByteOffset(sectors, bytesPerSector) / bytesPerSector == sectors
              && ByteOffset(sectors, bytesPerSector) % bytesPerSector == 0
  {
    if bytesPerSector > 0 {
      var n := sectors * bytesPerSector;
      var q, r := n / bytesPerSector, n % bytesPerSector;
      assert n == q * bytesPerSector + r;
      assert (sectors - q) * bytesPerSector == r;
      if sectors - q >= 1 {
        AtLeastOneSector(sectors - q, bytesPerSector);
        assert false;
      } else if q - sectors >= 1 {
        AtLeastOneSector(q - sectors, bytesPerSector);
        assert false;
      }
    }
  }

  lemma AtLeastOneSector(k: int, bytesPerSector: nat)
    requires k >= 1
    ensures k * bytesPerSector >= bytesPerSector
  {
    assert k * bytesPerSector == (k - 1) * bytesPerSector + bytesPerSector;
  }

  /** The descriptors read_mbr appends for a table: one per entry whose
      type is not 0, chain types included, in table order. */
  function MbrPartitions(entries: seq<PE.PartitionEntry>, bytesPerSector: nat): (r: seq<PV.PartitionValues>)
    // nothing is appended exactly when every entry is empty
    ensures r == [] <==> forall k :: 0 <= k < |entries| ==> entries[k].partitionType == 0
    decreases |entries|
  {
    if entries == [] then []
    else
      var e := entries[|entries| - 1];
      MbrPartitions(entries[..|entries| - 1], bytesPerSector)
      + (if e.partitionType != 0 then [Describe(e, bytesPerSector)] else [])
  }

  /** Every descriptor of MbrPartitions comes from a non-empty entry, in
      order, and every non-empty entry gives one. */
  lemma {:induction false} MbrPartitionsAreNonEmptyEntries(entries: seq<PE.PartitionEntry>, bytesPerSector: nat)
    ensures |MbrPartitions(entries, bytesPerSector)| <= |entries|
    ensures forall p :: p in MbrPartitions(entries, bytesPerSector) ==>
              p.partitionType != 0
              && (exists e :: e in entries && e.partitionType == p.partitionType
                    && p.offset == ByteOffset(e.startAddressLba, bytesPerSector) && p.size == ByteOffset(e.numberOfSectors, bytesPerSector))
    ensures forall e :: e in entries && e.partitionType != 0 ==> Describe(e, bytesPerSector) in MbrPartitions(entries, bytesPerSector)
    decreases |entries|
  {
    if entries != [] {
      var init := entries[..|entries| - 1];
      MbrPartitionsAreNonEmptyEntries(init, bytesPerSector);
      assert entries == init + [entries[|entries| - 1]];
      forall p | p in MbrPartitions(entries, bytesPerSector)
        ensures p.partitionType != 0
                && (exists e :: e in entries && e.partitionType == p.partitionType
                      && p.offset == ByteOffset(e.startAddressLba, bytesPerSector) && p.size == ByteOffset(e.numberOfSectors, bytesPerSector))
      {
        if p in MbrPartitions(init, bytesPerSector) {
          var e :| e in init && e.partitionType == p.partitionType
                   && p.offset == ByteOffset(e.startAddressLba, bytesPerSector) && p.size == ByteOffset(e.numberOfSectors, bytesPerSector);
          assert e in entries;
        }
      }
    }
  }

  /** libvsmbr_io_handle_read_mbr: read the sector at offset 0, check the
      signature, append the descriptors of its table to `partitions`. */
  method ReadMbr(ioHandle: IoHandle, fileIoHandle: FileIoHandle, partitions: seq<PV.PartitionValues>)
    returns (r: Result<()>, partitions': seq<PV.PartitionValues>)
    ensures !fileIoHandle.isOpen ==> r == Err(Error(Io, SeekFailed))
    ensures fileIoHandle.isOpen && |fileIoHandle.bytes| < BR.BootRecordSize ==> r == Err(Error(Io, ReadFailed))
    ensures r.Ok? <==> fileIoHandle.isOpen && BR.ReadBootRecord(fileIoHandle.bytes, 0).Ok?
    ensures fileIoHandle.isOpen && |fileIoHandle.bytes| >= BR.BootRecordSize && r.Err?
            ==> r == Err(Error(Runtime, UnsupportedValue))
    ensures r.Err? ==> partitions' == partitions
    ensures r.Ok? ==>
              partitions' == partitions + MbrPartitions(BR.ReadBootRecord(fileIoHandle.bytes, 0).value.entries, ioHandle.bytesPerSector)
  {
    partitions' := partitions;
    if !fileIoHandle.isOpen {
      return Err(Error(Io, SeekFailed)), partitions';
    }
    var read := ReadAt(fileIoHandle.bytes, 0, BR.BootRecordSize);
    if |read.value| != BR.BootRecordSize {
      return Err(Error(Io, ReadFailed)), partitions';
    }
    var data := read.value;
    if data[510] != 0x55 || data[511] != 0xaa {
      return Err(Error(Runtime, UnsupportedValue)), partitions';
    }
    var entries := BR.DecodeEntries(data);
    var i := 0;
    while i < 4
      invariant 0 <= i <= 4
      invariant partitions' == partitions + MbrPartitions(entries[..i], ioHandle.bytesPerSector)
    {
      var entry := entries[i];
      if entry.partitionType != 0 {
        partitions' := partitions' + [Describe(entry, ioHandle.bytesPerSector)];
      }
      assert entries[..i + 1][..i] == entries[..i];
      i := i + 1;
    }
    assert entries[..4] == entries;
    r := Ok(());
  }

  /** What the body of read_eprs' loop takes from one table: the descriptors
      of the entries whose type is neither 0 nor 0x05, and the offset of the
      next table, LBA times bytes per sector of the last 0x05 entry, if any. */
  function EprTable(entries: seq<PE.PartitionEntry>, bytesPerSector: nat): (t: (seq<PV.PartitionValues>, Option<int>))
    ensures |t.0| <= |entries|
    // a next table exactly when some entry is of type 0x05
    ensures t.1.Some? <==> exists k :: 0 <= k < |entries| && entries[k].partitionType == 0x05
    decreases |entries|
  {
    if entries == [] then ([], None)
    else
      var (appended, next) := EprTable(entries[..|entries| - 1], bytesPerSector);
      var e := entries[|entries| - 1];
      if e.partitionType == 0 then (appended, next)
      else if e.partitionType != 0x05 then (appended + [Describe(e, bytesPerSector)], next)
      else (appended, Some(ByteOffset(e.startAddressLba, bytesPerSector)))
  }

  /** The body of read_eprs' loop over the four entries of one table:
      descriptors are appended to `partitions`, and a 0x05 entry replaces
      `offset` by the offset of the next table. */
  method ScanEprTable(entries: seq<PE.PartitionEntry>, bytesPerSector: nat, partitions: seq<PV.PartitionValues>,
                      offset: int)
    returns (partitions': seq<PV.PartitionValues>, offset': int, hasExtendedPartition: bool)
    requires |entries| == 4
    ensures partitions' == partitions + EprTable(entries, bytesPerSector).0
    ensures hasExtendedPartition == EprTable(entries, bytesPerSector).1.Some?
    ensures offset' == if hasExtendedPartition then EprTable(entries, bytesPerSector).1.value else offset
  {
    partitions', offset', hasExtendedPartition := partitions, offset, false;
    var i := 0;
    while i < 4
      invariant 0 <= i <= 4
      invariant var (appended, next) := EprTable(entries[..i], bytesPerSector);
                partitions' == partitions + appended
                && hasExtendedPartition == next.Some?
                && offset' == if next.Some? then next.value else offset
    {
      var entry := entries[i];
      if entry.partitionType != 0 {
        if entry.partitionType != 0x05 {
          partitions' := partitions' + [Describe(entry, bytesPerSector)];
        } else {
          offset' := ByteOffset(entry.startAddressLba, bytesPerSector);
          hasExtendedPartition := true;
        }
      }
      assert entries[..i + 1][..i] == entries[..i];
      i := i + 1;
    }
    assert entries[..4] == entries;
  }

  /** The loop of read_eprs from `fileOffset` while it stays below `fileSize`,
      with the descriptors appended to `partitions`. The loop has no bound of
      its own; `fuel` bounds the number of tables, and None means it ran out. */
  function EprsWalk(bytes: seq<uint8>, fileOffset: int, fileSize: int, bytesPerSector: nat, fuel: nat,
                    partitions: seq<PV.PartitionValues>): (r: (Option<Result<()>>, seq<PV.PartitionValues>))
    // the loop fails only on a seek or read error or a missing signature
    ensures r.0.Some? && r.0.value.Err? ==>
              r.0.value.error in {Error(Io, SeekFailed), Error(Io, ReadFailed), Error(Runtime, UnsupportedValue)}
    decreases fuel
  {
    if fileOffset >= fileSize then (Some(Ok(())), partitions)
    else if fuel == 0 then (None, partitions)
    else match BR.ReadSector(bytes, fileOffset)
      case Err(e) => (Some(Err(e)), partitions)
      case Ok(data) =>
        if !BR.HasBootSignature(data) then (Some(Err(Error(Runtime, UnsupportedValue))), partitions)
        else
          var (appended, next) := EprTable(BR.DecodeEntries(data), bytesPerSector);
          if next.None? then (Some(Ok(())), partitions + appended)
          else EprsWalk(bytes, next.value, fileSize, bytesPerSector, fuel - 1, partitions + appended)
  }

  /** The loop of read_eprs, started at `fileOffset` with the bound `fileSize`.
      Each iteration first seeks, which fails on a handle that is not open;
      a loop that never runs does not touch the handle. */
  method ReadEprsFrom(ioHandle: IoHandle, fileIoHandle: FileIoHandle, partitions: seq<PV.PartitionValues>,
                      fileOffset: int, fileSize: int, fuel: nat)
    returns (r: Option<Result<()>>, partitions': seq<PV.PartitionValues>)
    ensures fileIoHandle.isOpen || fileOffset >= fileSize ==>
              (r, partitions') == EprsWalk(fileIoHandle.bytes, fileOffset, fileSize, ioHandle.bytesPerSector, fuel, partitions)
    ensures !fileIoHandle.isOpen && fileOffset < fileSize ==>
              r == Some(Err(Error(Io, SeekFailed))) && partitions' == partitions
  {
    var bytes, bytesPerSector := fileIoHandle.bytes, ioHandle.bytesPerSector;
    var offset, fuelLeft := fileOffset, fuel;
    partitions' := partitions;
    while offset < fileSize
      invariant EprsWalk(bytes, fileOffset, fileSize, bytesPerSector, fuel, partitions)
                == EprsWalk(bytes, offset, fileSize, bytesPerSector, fuelLeft, partitions')
      invariant !fileIoHandle.isOpen ==> offset == fileOffset && partitions' == partitions
      decreases fuelLeft
    {
      if !fileIoHandle.isOpen {
        return Some(Err(Error(Io, SeekFailed))), partitions';
      }
      if fuelLeft == 0 {
        return None, partitions';
      }
      var sector := BR.ReadSector(bytes, offset);
      if sector.Err? {
        return Some(Err(sector.error)), partitions';
      }
      var data := sector.value;
      if data[510] != 0x55 || data[511] != 0xaa {
        return Some(Err(Error(Runtime, UnsupportedValue))), partitions';
      }
      var entries := BR.DecodeEntries(data);
      var hasExtendedPartition;
      partitions', offset, hasExtendedPartition := ScanEprTable(entries, bytesPerSector, partitions', offset);
      if !hasExtendedPartition {
        break;
      }
      fuelLeft := fuelLeft - 1;
    }
    r := Some(Ok(()));
  }

  /** libvsmbr_io_handle_read_eprs: the loop starts at offset 0 with a file
      size of 0 that nothing updates. */
  method ReadEprs(ioHandle: IoHandle, fileIoHandle: FileIoHandle, partitions: seq<PV.PartitionValues>, fuel: nat)
    returns (r: Option<Result<()>>, partitions': seq<PV.PartitionValues>)
    ensures (r, partitions') == EprsWalk(fileIoHandle.bytes, 0, 0, ioHandle.bytesPerSector, fuel, partitions)
  {
    r, partitions' := ReadEprsFrom(ioHandle, fileIoHandle, partitions, 0, 0, fuel);
  }

  /** read_eprs always succeeds and leaves the partitions as they were: its
      loop body never runs. */
  lemma ReadEprsIsNoOp(bytes: seq<uint8>, bytesPerSector: nat, fuel: nat, partitions: seq<PV.PartitionValues>)
    ensures EprsWalk(bytes, 0, 0, bytesPerSector, fuel, partitions) == (Some(Ok(())), partitions)
  {
  }

  /** `after` is `before` followed by descriptors of types neither 0 nor 0x05. */
  predicate ExtendsWithOrdinary(before: seq<PV.PartitionValues>, after: seq<PV.PartitionValues>) {
    |before| <= |after| && after[..|before|] == before
    && forall k :: |before| <= k < |after| ==> after[k].partitionType !in {0, 0x05}
  }

  lemma ExtendsWithOrdinaryTransitive(a: seq<PV.PartitionValues>, b: seq<PV.PartitionValues>,
                                      c: seq<PV.PartitionValues>)
    requires ExtendsWithOrdinary(a, b) && ExtendsWithOrdinary(b, c)
    ensures ExtendsWithOrdinary(a, c)
  {
    assert c[..|a|] == c[..|b|][..|a|];
  }

  /** Were the loop entered, each table would append only entries of type
      neither 0 nor 0x05, and the walk would only ever extend the array. */
  lemma {:induction false} EprsWalkAppendsOnly(bytes: seq<uint8>, fileOffset: int, fileSize: int, bytesPerSector: nat,
                                              fuel: nat, partitions: seq<PV.PartitionValues>)
    ensures ExtendsWithOrdinary(partitions, EprsWalk(bytes, fileOffset, fileSize, bytesPerSector, fuel, partitions).1)
    decreases fuel
  {
    var after := EprsWalk(bytes, fileOffset, fileSize, bytesPerSector, fuel, partitions).1;
    if fileOffset < fileSize && fuel > 0 {
      var sector := BR.ReadSector(bytes, fileOffset);
      if sector.Ok? && BR.HasBootSignature(sector.value) {
        var (appended, next) := EprTable(BR.DecodeEntries(sector.value), bytesPerSector);
        EprTableAppendsOrdinary(BR.DecodeEntries(sector.value), bytesPerSector);
        assert ExtendsWithOrdinary(partitions, partitions + appended);
        if next.Some? {
          EprsWalkAppendsOnly(bytes, next.value, fileSize, bytesPerSector, fuel - 1, partitions + appended);
          assert after == EprsWalk(bytes, next.value, fileSize, bytesPerSector, fuel - 1, partitions + appended).1;
          ExtendsWithOrdinaryTransitive(partitions, partitions + appended, after);
        }
      } else {
        assert after == partitions;
      }
    }
  }

  lemma {:induction false} EprTableAppendsOrdinary(entries: seq<PE.PartitionEntry>, bytesPerSector: nat)
    ensures forall p :: p in EprTable(entries, bytesPerSector).0 ==> p.partitionType !in {0, 0x05}
    decreases |entries|
  {
    if entries != [] {
      EprTableAppendsOrdinary(entries[..|entries| - 1], bytesPerSector);
    }
  }
}
