// libvsmbr_volume.c: the volume, its open/closed life cycle and the walk
// over the master boot record and the chain of extended partition records.
//
// The walk is specified by the functions Walk, Scan and ProbeChain over the
// bytes of the image; the method Volume.ReadPartitionEntries is proved to
// compute exactly what they describe, and the lemmas below are about them.

module Volume {
  import opened Common
  import opened FileIo
  import opened Definitions
  import PE = PartitionEntry
  import PV = PartitionValues
  import BR = BootRecord
  import IH = IoHandle

  /** What the walk changes in the volume: the partitions found so far, the
      sector size of the IO handle and whether the library has set it. */
  datatype WalkState = WalkState(
    partitions: seq<PV.PartitionValues>,
    bytesPerSector: nat,
    bytesPerSectorSetByLibrary: bool)

  /** The types the walk follows as a link to an extended partition record. */
  predicate IsChainType(partitionType: uint8) {
    partitionType == 0x05 || partitionType == 0x0f
  }

  /** The descriptor appended for an ordinary entry of the table at
      `fileOffset`; the byte offset and size stay 0. */
  function Descriptor(e: PE.PartitionEntry, fileOffset: int): (r: PV.PartitionValues)
    // the entry is kept whole apart from its index and flags, in sectors
    ensures e == PE.PartitionEntry(e.index, e.flags, r.partitionType, r.sectorNumber, r.numberOfSectors)
    ensures r.partitionRecordOffset == fileOffset
    // the byte offset and size are left unset
    ensures r.offset == 0 && r.size == 0
  {
    PV.Zero.(partitionType := e.partitionType,
             partitionRecordOffset := fileOffset,
             sectorNumber := e.startAddressLba,
             numberOfSectors := e.numberOfSectors)
  }

  /** Where a chain entry of the table at `fileOffset` points: the table
      offset plus the entry's LBA in sectors of the current size. */
  function RecordOffset(fileOffset: int, lba: nat, bytesPerSector: nat): int {
    fileOffset + lba * bytesPerSector
  }

  /** Reading the extended partition record a chain entry points to. At the
      master boot record level a failed read is retried with the sector size
      doubled while it is below 4096. The result is the sector size the
      volume is left with and the outcome of the last read. */
  function ProbeChain(bytes: seq<uint8>, fileOffset: int, lba: nat, isMasterBootRecord: bool,
                      bytesPerSector: nat): (r: (nat, Result<BR.Decoded>))
    requires bytesPerSector > 0
    ensures r.0 >= bytesPerSector
    ensures SupportedSectorSize(bytesPerSector) ==> SupportedSectorSize(r.0)
    ensures !isMasterBootRecord ==> r.0 == bytesPerSector
    ensures r.1 == BR.ReadBootRecord(bytes, RecordOffset(fileOffset, lba, r.0))
    ensures r.1.Err? ==> !isMasterBootRecord || r.0 >= 4096
    ensures r.0 > bytesPerSector ==> BR.ReadBootRecord(bytes, RecordOffset(fileOffset, lba, bytesPerSector)).Err?
    decreases 4096 - bytesPerSector
  {
    var record := BR.ReadBootRecord(bytes, RecordOffset(fileOffset, lba, bytesPerSector));
    if record.Ok? || !isMasterBootRecord || bytesPerSector >= 4096 then (bytesPerSector, record)
    else ProbeChain(bytes, fileOffset, lba, isMasterBootRecord, bytesPerSector * 2)
  }

  /** A read that succeeds, or that no retry follows, ends the probe. */
  lemma ProbeChainStops(bytes: seq<uint8>, fileOffset: int, lba: nat, isMasterBootRecord: bool, bytesPerSector: nat)
    requires bytesPerSector > 0
    requires BR.ReadBootRecord(bytes, RecordOffset(fileOffset, lba, bytesPerSector)).Ok?
             || !isMasterBootRecord || bytesPerSector >= 4096
    ensures ProbeChain(bytes, fileOffset, lba, isMasterBootRecord, bytesPerSector)
            == (bytesPerSector, BR.ReadBootRecord(bytes, RecordOffset(fileOffset, lba, bytesPerSector)))
  {
  }

  /** An extended partition record found by a chain entry: the offset it
      was read at and its entries. */
  datatype Link = Link(offset: int, entries: seq<PE.PartitionEntry>)

  /** The outcome of a walk: its return value and the state it leaves. */
  datatype Walked = Walked(result: Result<()>, state: WalkState)

  /** What one entry of a table does to the walk: go on with a new state and
      chain, or stop with an error. */
  datatype Step = Next(state: WalkState, chain: Option<Link>) | Stop(error: Error, state: WalkState)

  /** The body of the walk's loop for the entry `e` of the table at
      `fileOffset`: an empty entry is skipped, a chain entry is probed and
      remembered (a second one is refused), any other entry is appended. */
  function ScanEntry(bytes: seq<uint8>, fileOffset: int, e: PE.PartitionEntry, isMasterBootRecord: bool,
                     s: WalkState, chain: Option<Link>): (r: Step)
    requires s.bytesPerSector > 0
    ensures r.state.bytesPerSector >= s.bytesPerSector
  {
    if e.partitionType == 0 then Next(s, chain)
    else if IsChainType(e.partitionType) then
      if chain.Some? then Stop(Error(Runtime, UnsupportedValue), s)
      else
        var probe := ProbeChain(bytes, fileOffset, e.startAddressLba, isMasterBootRecord, s.bytesPerSector);
        if probe.1.Err? then Stop(Error(Io, ReadFailed), s.(bytesPerSector := probe.0))
        else Next(s.(bytesPerSector := probe.0, bytesPerSectorSetByLibrary := true),
                  Some(Link(RecordOffset(fileOffset, e.startAddressLba, probe.0), probe.1.value.entries)))
    else Next(s.(partitions := s.partitions + [Descriptor(e, fileOffset)]), chain)
  }

  /** A failed read at the master boot record level below 4096 is retried
      with the sector size doubled. */
  lemma ProbeChainRetries(bytes: seq<uint8>, fileOffset: int, lba: nat, bytesPerSector: nat)
    requires 0 < bytesPerSector < 4096
    requires BR.ReadBootRecord(bytes, RecordOffset(fileOffset, lba, bytesPerSector)).Err?
    ensures ProbeChain(bytes, fileOffset, lba, true, bytesPerSector) == ProbeChain(bytes, fileOffset, lba, true, bytesPerSector * 2)
  {
  }

  /** libvsmbr_internal_volume_read_partition_entries on the table `entries`
      read at `fileOffset`, from the state `s`. */
  function Walk(bytes: seq<uint8>, fileOffset: int, entries: seq<PE.PartitionEntry>, isMasterBootRecord: bool,
                recursionDepth: int, s: WalkState): (r: Walked)
    requires s.bytesPerSector > 0
    decreases MaximumRecursionDepth + 1 - recursionDepth, 6
  {
    if recursionDepth < 0 || recursionDepth > MaximumRecursionDepth then
      Walked(Err(Error(Runtime, ValueOutOfBounds)), s)
    else Scan(bytes, fileOffset, entries, isMasterBootRecord, recursionDepth, 0, s, None)
  }

  /** The loop of the walk from entry `i` on, then the chain. */
  function Scan(bytes: seq<uint8>, fileOffset: int, entries: seq<PE.PartitionEntry>, isMasterBootRecord: bool,
                recursionDepth: int, i: nat, s: WalkState, chain: Option<Link>): (r: Walked)
    requires 0 <= recursionDepth <= MaximumRecursionDepth && i <= 4 && s.bytesPerSector > 0
    decreases MaximumRecursionDepth + 1 - recursionDepth, 5 - i
  {
    if i == 4 then FollowChain(bytes, fileOffset, recursionDepth, s, chain)
    else if i >= |entries| then Walked(Err(Error(Runtime, GetFailed)), s)
    else match ScanEntry(bytes, fileOffset, entries[i], isMasterBootRecord, s, chain)
      case Stop(error, t) => Walked(Err(error), t)
      case Next(t, next) => Scan(bytes, fileOffset, entries, isMasterBootRecord, recursionDepth, i + 1, t, next)
  }

  /** After the loop: the chain is followed one level deeper unless it
      points to offset 0 or back to the table itself. */
  function FollowChain(bytes: seq<uint8>, fileOffset: int, recursionDepth: int, s: WalkState,
                       chain: Option<Link>): (r: Walked)
    requires 0 <= recursionDepth <= MaximumRecursionDepth && s.bytesPerSector > 0
    decreases MaximumRecursionDepth + 1 - recursionDepth, 0
  {
    match chain
    case None => Walked(Ok(()), s)
    case Some(link) =>
      if link.offset == 0 || link.offset == fileOffset then Walked(Err(Error(Runtime, ValueOutOfBounds)), s)
      else
        var walked := Walk(bytes, link.offset, link.entries, false, recursionDepth + 1, s);
        Walked(if walked.result.Err? then Err(Error(Io, ReadFailed)) else Ok(()), walked.state)
  }

  /** libvsmbr_internal_volume_open_read from the state `s`: read the master
      boot record at offset 0, then walk it at depth 0. */
  function OpenRead(bytes: seq<uint8>, s: WalkState): (r: Walked)
    requires s.bytesPerSector > 0
  {
    match BR.ReadBootRecord(bytes, 0)
    case Err(_) => Walked(Err(Error(Io, ReadFailed)), s)
    case Ok(record) =>
      var walked := Walk(bytes, 0, record.entries, true, 0, s);
      Walked(if walked.result.Err? then Err(Error(Io, ReadFailed)) else Ok(()), walked.state)
  }

  /** The chain found so far, as the method holds it: the record object and
      its offset. */
  function Chain(record: BR.BootRecord?, offset: int): Option<Link>
    reads record
  {
    if record == null then None else Some(Link(offset, record.partitionEntries))
  }

  class Volume {
    var ioHandle: IH.IoHandle
    var fileIoHandle: FileIoHandle?
    var fileIoHandleCreatedInLibrary: bool
    var fileIoHandleOpenedInLibrary: bool
    var size: int
    var bytesPerSectorSetByLibrary: bool
    var partitions: seq<PV.PartitionValues>

    /** The sector size is always one the library supports. */
    predicate Valid()
      reads this
    {
      SupportedSectorSize(ioHandle.bytesPerSector)
    }

    function State(): WalkState
      reads this
    {
      WalkState(partitions, ioHandle.bytesPerSector, bytesPerSectorSetByLibrary)
    }

    /** libvsmbr_volume_initialize: a closed volume with a fresh IO handle
        and no partitions. */
    constructor ()
      ensures Valid()
      ensures fileIoHandle == null && !fileIoHandleCreatedInLibrary && !fileIoHandleOpenedInLibrary
      ensures ioHandle == IH.Initial && size == 0 && !bytesPerSectorSetByLibrary && partitions == []
    {
      ioHandle := IH.Initial;
      fileIoHandle := null;
      fileIoHandleCreatedInLibrary := false;
      fileIoHandleOpenedInLibrary := false;
      size := 0;
      bytesPerSectorSetByLibrary := false;
      partitions := [];
    }

    /** libvsmbr_volume_signal_abort: only raises the abort flag. */
    method SignalAbort()
      modifies this
      ensures ioHandle == old(ioHandle).(abort := true)
      ensures fileIoHandle == old(fileIoHandle) && partitions == old(partitions)
      ensures bytesPerSectorSetByLibrary == old(bytesPerSectorSetByLibrary) && size == old(size)
      ensures fileIoHandleCreatedInLibrary == old(fileIoHandleCreatedInLibrary)
      ensures fileIoHandleOpenedInLibrary == old(fileIoHandleOpenedInLibrary)
    {
      ioHandle := ioHandle.(abort := true);
    }

    /** libvsmbr_volume_open_file_io_handle. The volume keeps the handle
        only when reading the partition tables succeeds; a handle the
        volume opened itself is closed again when they cannot be read. */
    method Open(handle: FileIoHandle?, accessFlags: bv32) returns (r: Result<()>)
      requires Valid()
      modifies this, handle
      ensures Valid()
      ensures old(fileIoHandle) != null ==>
                r == Err(Error(Runtime, ValueAlreadySet)) && unchanged(this) && (handle != null ==> unchanged(handle))
      ensures old(fileIoHandle) == null && handle == null ==>
                r == Err(Error(Arguments, InvalidValue)) && unchanged(this)
      ensures old(fileIoHandle) == null && handle != null && accessFlags & (AccessFlagRead | AccessFlagWrite) == 0 ==>
                r == Err(Error(Arguments, UnsupportedValue)) && unchanged(this) && unchanged(handle)
      ensures old(fileIoHandle) == null && handle != null && accessFlags & AccessFlagWrite != 0 ==>
                r == Err(Error(Arguments, UnsupportedValue)) && unchanged(this) && unchanged(handle)
      ensures old(fileIoHandle) == null && handle != null && accessFlags & AccessFlagRead != 0
              && accessFlags & AccessFlagWrite == 0 && !old(handle.isOpen) && !handle.openable ==>
                r == Err(Error(Io, OpenFailed)) && unchanged(this) && !handle.isOpen
      ensures r.Ok? <==> old(fileIoHandle) == null && handle != null
                         && accessFlags & AccessFlagRead != 0 && accessFlags & AccessFlagWrite == 0
                         && (old(handle.isOpen) || handle.openable)
                         && OpenRead(handle.bytes, old(State())).result.Ok?
      ensures r.Ok? ==> fileIoHandle == handle && handle.isOpen
                        && fileIoHandleOpenedInLibrary == !old(handle.isOpen)
                        && size == |handle.bytes| && State() == OpenRead(handle.bytes, old(State())).state
      ensures r.Err? ==> fileIoHandle == old(fileIoHandle)
                         && fileIoHandleOpenedInLibrary == old(fileIoHandleOpenedInLibrary)
      ensures r.Err? && handle != null ==> handle.isOpen == old(handle.isOpen)
      ensures r == Err(Error(Io, ReadFailed)) ==>
                size == |handle.bytes| && State() == OpenRead(handle.bytes, old(State())).state
      ensures r.Err? && r != Err(Error(Io, ReadFailed)) ==> State() == old(State())
      ensures fileIoHandleCreatedInLibrary == old(fileIoHandleCreatedInLibrary)
    {
      if fileIoHandle != null {
        return Err(Error(Runtime, ValueAlreadySet));
      }
      if handle == null {
        return Err(Error(Arguments, InvalidValue));
      }
      if accessFlags & AccessFlagRead == 0 && accessFlags & AccessFlagWrite == 0 {
        assert accessFlags & (AccessFlagRead | AccessFlagWrite) == 0;
        return Err(Error(Arguments, UnsupportedValue));
      }
      assert accessFlags & (AccessFlagRead | AccessFlagWrite) != 0;
      if accessFlags & AccessFlagWrite != 0 {
        return Err(Error(Arguments, UnsupportedValue));
      }
      var openedInLibrary := false;
      if !handle.isOpen {
        var openResult := handle.Open();
        if openResult.Err? {
          return Err(Error(Io, OpenFailed));
        }
        openedInLibrary := true;
      }
      var status := ReadVolume(handle);
      if status.Err? {
        if openedInLibrary {
          handle.Close();
        }
        return Err(Error(Io, ReadFailed));
      }
      fileIoHandle := handle;
      fileIoHandleOpenedInLibrary := openedInLibrary;
      r := Ok(());
    }

    /** libvsmbr_internal_volume_open_read: record the size of the source,
        read the master boot record and walk the partition tables. */
    method ReadVolume(handle: FileIoHandle) returns (r: Result<()>)
      requires handle.isOpen && Valid()
      modifies this
      ensures Valid()
      ensures size == |handle.bytes|
      ensures Walked(r, State()) == OpenRead(handle.bytes, old(State()))
      ensures fileIoHandle == old(fileIoHandle) && ioHandle.abort == old(ioHandle.abort)
      ensures fileIoHandleCreatedInLibrary == old(fileIoHandleCreatedInLibrary)
      ensures fileIoHandleOpenedInLibrary == old(fileIoHandleOpenedInLibrary)
    {
      ghost var record := BR.ReadBootRecord(handle.bytes, 0);
      size := |handle.bytes|;
      var masterBootRecord := new BR.BootRecord();
      var read := masterBootRecord.ReadFileIoHandle(handle, 0);
      if read.Err? {
        assert record.Err?;
        return Err(Error(Io, ReadFailed));
      }
      assert record.Ok? && masterBootRecord.partitionEntries == record.value.entries;
      var walked := ReadPartitionEntries(handle, 0, masterBootRecord, true, 0);
      WalkExtends(handle.bytes, 0, record.value.entries, true, 0, old(State()));
      if walked.Err? {
        return Err(Error(Io, ReadFailed));
      }
      r := Ok(());
    }

    /** The part of the volume the walk leaves alone: the file IO handle,
        its ownership flags, the size and the abort flag. */
    function Attachment(): (FileIoHandle?, bool, bool, int, bool)
      reads this
    {
      (fileIoHandle, fileIoHandleCreatedInLibrary, fileIoHandleOpenedInLibrary, size, ioHandle.abort)
    }

    /** The reading of an extended partition record in the walk, with the
        sector-size doubling retry at the master boot record level. */
    method ProbeExtendedPartitionRecord(handle: FileIoHandle, fileOffset: int, lba: uint32, isMasterBootRecord: bool)
      returns (record: BR.BootRecord, offset: int, result: Result<()>)
      requires handle.isOpen && ioHandle.bytesPerSector > 0
      modifies this
      ensures fresh(record)
      ensures var probe := ProbeChain(handle.bytes, fileOffset, lba, isMasterBootRecord, old(ioHandle.bytesPerSector));
              ioHandle.bytesPerSector == probe.0 && offset == RecordOffset(fileOffset, lba, probe.0)
              && (result.Ok? <==> probe.1.Ok?)
              && (result.Ok? ==> record.partitionEntries == probe.1.value.entries)
      ensures partitions == old(partitions) && bytesPerSectorSetByLibrary == old(bytesPerSectorSetByLibrary)
      ensures Attachment() == old(Attachment())
    {
      var bytes, bytesPerSector := handle.bytes, ioHandle.bytesPerSector;
      ghost var probe := ProbeChain(bytes, fileOffset, lba, isMasterBootRecord, bytesPerSector);
      offset := RecordOffset(fileOffset, lba, bytesPerSector);
      record := new BR.BootRecord();
      result := record.ReadFileIoHandle(handle, offset);
      while result.Err? && isMasterBootRecord && bytesPerSector < 4096
        invariant bytesPerSector > 0
        invariant probe == ProbeChain(bytes, fileOffset, lba, isMasterBootRecord, bytesPerSector)
        invariant offset == RecordOffset(fileOffset, lba, bytesPerSector)
        invariant result.Ok? <==> BR.ReadBootRecord(bytes, offset).Ok?
        invariant result.Ok? ==> record.partitionEntries == BR.ReadBootRecord(bytes, offset).value.entries
        invariant result.Err? ==> record.partitionEntries == []
        invariant fresh(record) && unchanged(this)
        decreases 4096 - bytesPerSector as int
      {
        ProbeChainRetries(bytes, fileOffset, lba, bytesPerSector);
        bytesPerSector := bytesPerSector * 2;
        offset := RecordOffset(fileOffset, lba, bytesPerSector);
        result := record.ReadFileIoHandle(handle, offset);
      }
      ProbeChainStops(bytes, fileOffset, lba, isMasterBootRecord, bytesPerSector);
      ioHandle := ioHandle.(bytesPerSector := bytesPerSector);
    }

    /** libvsmbr_internal_volume_read_partition_entries. */
    method ReadPartitionEntries(handle: FileIoHandle, fileOffset: int, bootRecord: BR.BootRecord,
                                isMasterBootRecord: bool, recursionDepth: int) returns (r: Result<()>)
      requires handle.isOpen && ioHandle.bytesPerSector > 0
      modifies this
      decreases MaximumRecursionDepth + 1 - recursionDepth
      ensures Walked(r, State()) == Walk(handle.bytes, fileOffset, bootRecord.partitionEntries,
                                         isMasterBootRecord, recursionDepth, old(State()))
      ensures Attachment() == old(Attachment())
    {
      var bytes := handle.bytes;
      var entries := bootRecord.partitionEntries;
      if recursionDepth < 0 || recursionDepth > MaximumRecursionDepth {
        return Err(Error(Runtime, ValueOutOfBounds));
      }
      var extendedPartitionRecord: BR.BootRecord? := null;
      var extendedPartitionRecordOffset := 0;
      var partitionEntryIndex := 0;
      while partitionEntryIndex < 4
        invariant 0 <= partitionEntryIndex <= 4 && ioHandle.bytesPerSector > 0
        invariant extendedPartitionRecord != null ==> fresh(extendedPartitionRecord)
        invariant bootRecord.partitionEntries == entries
        invariant Walk(bytes, fileOffset, entries, isMasterBootRecord, recursionDepth, old(State()))
                  == Scan(bytes, fileOffset, entries, isMasterBootRecord, recursionDepth, partitionEntryIndex,
                          State(), Chain(extendedPartitionRecord, extendedPartitionRecordOffset))
        invariant Attachment() == old(Attachment())
      {
        var entry := bootRecord.GetPartitionEntryByIndex(partitionEntryIndex);
        if entry.Err? {
          return Err(Error(Runtime, GetFailed));
        }
        var e := entry.value;
        ghost var before, chain := State(), Chain(extendedPartitionRecord, extendedPartitionRecordOffset);
        if e.partitionType == 0 {
          // an empty entry is skipped
        } else if IsChainType(e.partitionType) {
          if extendedPartitionRecord != null {
            return Err(Error(Runtime, UnsupportedValue));
          }
          var record, offset, result := ProbeExtendedPartitionRecord(handle, fileOffset, e.startAddressLba,
                                                                     isMasterBootRecord);
          if result.Err? {
            assert ScanEntry(bytes, fileOffset, e, isMasterBootRecord, before, chain)
                   == Stop(Error(Io, ReadFailed), State());
            return Err(Error(Io, ReadFailed));
          }
          bytesPerSectorSetByLibrary := true;
          extendedPartitionRecord, extendedPartitionRecordOffset := record, offset;
        } else {
          partitions := partitions + [Descriptor(e, fileOffset)];
        }
        assert ScanEntry(bytes, fileOffset, e, isMasterBootRecord, before, chain)
               == Next(State(), Chain(extendedPartitionRecord, extendedPartitionRecordOffset));
        partitionEntryIndex := partitionEntryIndex + 1;
      }
      if extendedPartitionRecord != null {
        if extendedPartitionRecordOffset == 0 || extendedPartitionRecordOffset == fileOffset {
          return Err(Error(Runtime, ValueOutOfBounds));
        }
        var status := ReadPartitionEntries(handle, extendedPartitionRecordOffset, extendedPartitionRecord,
                                           false, recursionDepth + 1);
        if status.Err? {
          return Err(Error(Io, ReadFailed));
        }
      }
      r := Ok(());
    }

    /** libvsmbr_volume_close: refused on a closed volume; otherwise the
        handle is closed if the volume opened it, and the volume forgets it,
        resets its IO handle and empties its partitions. Whether the library
        set the sector size is not reset. */
    method Close() returns (r: Result<()>)
      modifies this, fileIoHandle
      ensures old(fileIoHandle) == null <==> r.Err?
      ensures r.Err? ==> r.error == Error(Runtime, ValueMissing) && unchanged(this)
      ensures r.Ok? ==> fileIoHandle == null && !fileIoHandleOpenedInLibrary && !fileIoHandleCreatedInLibrary
                        && ioHandle == IH.Clear(old(ioHandle)) && partitions == []
                        && size == old(size) && bytesPerSectorSetByLibrary == old(bytesPerSectorSetByLibrary)
      ensures r.Ok? ==> old(fileIoHandle).isOpen == (old(fileIoHandle.isOpen) && !old(fileIoHandleOpenedInLibrary))
      ensures Valid()
      requires Valid()
    {
      if fileIoHandle == null {
        return Err(Error(Runtime, ValueMissing));
      }
      if fileIoHandleOpenedInLibrary {
        fileIoHandle.Close();
        fileIoHandleOpenedInLibrary := false;
      }
      if fileIoHandleCreatedInLibrary {
        fileIoHandleCreatedInLibrary := false;
      }
      fileIoHandle := null;
      ioHandle := IH.Clear(ioHandle);
      partitions := [];
      r := Ok(());
    }

    /** libvsmbr_volume_get_bytes_per_sector. */
    function GetBytesPerSector(): (bytesPerSector: nat)
      requires Valid()
      reads this
      ensures SupportedSectorSize(bytesPerSector)
      ensures bytesPerSector == State().bytesPerSector
    {
      ioHandle.bytesPerSector
    }

    /** libvsmbr_volume_set_bytes_per_sector: refused once the walk has set
        the sector size, and for any size but 512, 1024, 2048 and 4096. */
    method SetBytesPerSector(bytesPerSector: uint32) returns (r: Result<()>)
      requires Valid()
      modifies this
      ensures Valid()
      ensures old(bytesPerSectorSetByLibrary) ==> r == Err(Error(Runtime, ValueAlreadySet))
      ensures !old(bytesPerSectorSetByLibrary) && !SupportedSectorSize(bytesPerSector) ==>
                r == Err(Error(Arguments, UnsupportedValue))
      ensures r.Ok? <==> !old(bytesPerSectorSetByLibrary) && SupportedSectorSize(bytesPerSector)
      ensures r.Ok? ==> ioHandle == old(ioHandle).(bytesPerSector := bytesPerSector)
      ensures r.Err? ==> unchanged(this)
      ensures partitions == old(partitions) && fileIoHandle == old(fileIoHandle)
      ensures bytesPerSectorSetByLibrary == old(bytesPerSectorSetByLibrary)
    {
      if bytesPerSectorSetByLibrary {
        return Err(Error(Runtime, ValueAlreadySet));
      }
      if !SupportedSectorSize(bytesPerSector) {
        return Err(Error(Arguments, UnsupportedValue));
      }
      ioHandle := ioHandle.(bytesPerSector := bytesPerSector);
      r := Ok(());
    }

    /** libvsmbr_volume_get_number_of_partitions. */
    function GetNumberOfPartitions(): (n: nat)
      reads this
      ensures n == |State().partitions|
    {
      |partitions|
    }

    /** libvsmbr_volume_get_partition_by_index: the descriptor the partition
        is built from. The output pointer must be given and unset. */
    function GetPartitionByIndex(partitionIndex: int, partition: Slot<PV.PartitionValues>)
      : (r: Result<PV.PartitionValues>)
      reads this
      ensures partition.NullSlot? ==> r == Err(Error(Arguments, InvalidValue))
      ensures partition.Slot? && partition.target.Some? ==> r == Err(Error(Runtime, ValueAlreadySet))
      ensures partition == Slot(None) && !(0 <= partitionIndex < |partitions|) ==> r == Err(Error(Runtime, GetFailed))
      ensures r.Ok? <==> partition == Slot(None) && 0 <= partitionIndex < |partitions|
      ensures r.Ok? ==> r.value == partitions[partitionIndex]
    {
      if partition.NullSlot? then Err(Error(Arguments, InvalidValue))
      else if partition.target.Some? then Err(Error(Runtime, ValueAlreadySet))
      else if !(0 <= partitionIndex < |partitions|) then Err(Error(Runtime, GetFailed))
      else Ok(partitions[partitionIndex])
    }
  }

  /** What a walk may do to the state: the sector size only grows and stays
      a supported one, the flag that the library set it is never cleared,
      and partitions are only appended, none of them empty or a chain link. */
  ghost predicate Extends(s: WalkState, t: WalkState) {
    s.bytesPerSector <= t.bytesPerSector
    && (SupportedSectorSize(s.bytesPerSector) ==> SupportedSectorSize(t.bytesPerSector))
    && (s.bytesPerSectorSetByLibrary ==> t.bytesPerSectorSetByLibrary)
    && |s.partitions| <= |t.partitions| && t.partitions[..|s.partitions|] == s.partitions
    && forall k :: |s.partitions| <= k < |t.partitions| ==>
         t.partitions[k].partitionType != 0 && !IsChainType(t.partitions[k].partitionType)
  }

  lemma ExtendsTransitive(s: WalkState, t: WalkState, u: WalkState)
    requires Extends(s, t) && Extends(t, u)
    ensures Extends(s, u)
  {
    assert u.partitions[..|s.partitions|] == u.partitions[..|t.partitions|][..|s.partitions|];
  }

  /** One entry only ever extends the state. */
  lemma ScanEntryExtends(bytes: seq<uint8>, fileOffset: int, e: PE.PartitionEntry, isMasterBootRecord: bool,
                         s: WalkState, chain: Option<Link>)
    requires s.bytesPerSector > 0
    ensures Extends(s, ScanEntry(bytes, fileOffset, e, isMasterBootRecord, s, chain).state)
  {
  }

  /** The walk only ever extends the state, whatever the image. */
  lemma {:induction false} WalkExtends(bytes: seq<uint8>, fileOffset: int, entries: seq<PE.PartitionEntry>,
                                      isMasterBootRecord: bool, recursionDepth: int, s: WalkState)
    requires s.bytesPerSector > 0
    ensures Extends(s, Walk(bytes, fileOffset, entries, isMasterBootRecord, recursionDepth, s).state)
    decreases MaximumRecursionDepth + 1 - recursionDepth, 6
  {
    if 0 <= recursionDepth <= MaximumRecursionDepth {
      ScanExtends(bytes, fileOffset, entries, isMasterBootRecord, recursionDepth, 0, s, None);
    }
  }

  lemma {:induction false} ScanExtends(bytes: seq<uint8>, fileOffset: int, entries: seq<PE.PartitionEntry>,
                                      isMasterBootRecord: bool, recursionDepth: int, i: nat, s: WalkState,
                                      chain: Option<Link>)
    requires 0 <= recursionDepth <= MaximumRecursionDepth && i <= 4 && s.bytesPerSector > 0
    ensures Extends(s, Scan(bytes, fileOffset, entries, isMasterBootRecord, recursionDepth, i, s, chain).state)
    decreases MaximumRecursionDepth + 1 - recursionDepth, 5 - i
  {
    if i == 4 {
      FollowChainExtends(bytes, fileOffset, recursionDepth, s, chain);
    } else if i < |entries| {
      var step := ScanEntry(bytes, fileOffset, entries[i], isMasterBootRecord, s, chain);
      ScanEntryExtends(bytes, fileOffset, entries[i], isMasterBootRecord, s, chain);
      if step.Next? {
        ScanExtends(bytes, fileOffset, entries, isMasterBootRecord, recursionDepth, i + 1, step.state, step.chain);
        ExtendsTransitive(s, step.state,
          Scan(bytes, fileOffset, entries, isMasterBootRecord, recursionDepth, i + 1, step.state, step.chain).state);
      }
    }
  }

  lemma {:induction false} FollowChainExtends(bytes: seq<uint8>, fileOffset: int, recursionDepth: int, s: WalkState,
                                             chain: Option<Link>)
    requires 0 <= recursionDepth <= MaximumRecursionDepth && s.bytesPerSector > 0
    ensures Extends(s, FollowChain(bytes, fileOffset, recursionDepth, s, chain).state)
    decreases MaximumRecursionDepth + 1 - recursionDepth, 0
  {
    if chain.Some? && chain.value.offset != 0 && chain.value.offset != fileOffset {
      WalkExtends(bytes, chain.value.offset, chain.value.entries, false, recursionDepth + 1, s);
    }
  }
}

module VolumeProperties {
  import opened Common
  import opened Definitions
  import opened FileIo
  import PE = PartitionEntry
  import PV = PartitionValues
  import BR = BootRecord
  import IH = IoHandle
  import opened Volume

  /** The descriptors a table contributes by itself, in table order: one
      per entry that is neither empty nor a chain link. */
  function Ordinary(entries: seq<PE.PartitionEntry>, fileOffset: int): (r: seq<PV.PartitionValues>)
    ensures |r| <= |entries|
  {
    if entries == [] then []
    else
      var e := entries[0];
      (if e.partitionType != 0 && !IsChainType(e.partitionType) then [Descriptor(e, fileOffset)] else [])
      + Ordinary(entries[1..], fileOffset)
  }

  predicate IsPrefix<T(==)>(a: seq<T>, b: seq<T>) {
    |a| <= |b| && b[..|a|] == a
  }

  /** A step that goes on appends exactly the entry's own descriptor, if any. */
  lemma ScanEntryAppends(bytes: seq<uint8>, fileOffset: int, e: PE.PartitionEntry, isMasterBootRecord: bool,
                         s: WalkState, chain: Option<Link>)
    requires s.bytesPerSector > 0
    ensures var step := ScanEntry(bytes, fileOffset, e, isMasterBootRecord, s, chain);
            step.Next? ==> step.state.partitions == s.partitions + Ordinary([e], fileOffset)
  {
    assert Ordinary([e], fileOffset) == (if e.partitionType != 0 && !IsChainType(e.partitionType)
                                         then [Descriptor(e, fileOffset)] else []) + Ordinary([], fileOffset);
  }

  lemma OrdinarySplit(entries: seq<PE.PartitionEntry>, i: nat, fileOffset: int)
    requires i < 4 <= |entries|
    ensures Ordinary(entries[i..4], fileOffset) == Ordinary([entries[i]], fileOffset) + Ordinary(entries[i + 1..4], fileOffset)
  {
    assert entries[i..4][0] == entries[i] && entries[i..4][1..] == entries[i + 1..4];
    assert Ordinary([entries[i]], fileOffset)
           == (if entries[i].partitionType != 0 && !IsChainType(entries[i].partitionType)
               then [Descriptor(entries[i], fileOffset)] else []) + Ordinary([], fileOffset);
  }

  lemma PrefixAppend<T>(a: seq<T>, b: seq<T>, c: seq<T>, d: seq<T>)
    requires IsPrefix((a + b) + c, d)
    ensures IsPrefix(a + (b + c), d)
  {
    assert (a + b) + c == a + (b + c);
  }

  /** Discovery order: when the walk of a table succeeds, its partitions
      start with the table's own descriptors in table order; whatever the
      chain adds comes after them. */
  lemma {:induction false} ScanDiscoveryOrder(bytes: seq<uint8>, fileOffset: int, entries: seq<PE.PartitionEntry>,
                                             isMasterBootRecord: bool, recursionDepth: int, i: nat, s: WalkState,
                                             chain: Option<Link>)
    requires 0 <= recursionDepth <= MaximumRecursionDepth && i <= 4 && s.bytesPerSector > 0
    requires i == 0 || i <= |entries|
    ensures var walked := Scan(bytes, fileOffset, entries, isMasterBootRecord, recursionDepth, i, s, chain);
            walked.result.Ok? ==>
              |entries| >= 4 && IsPrefix(s.partitions + Ordinary(entries[i..4], fileOffset), walked.state.partitions)
    decreases 4 - i
  {
    var walked := Scan(bytes, fileOffset, entries, isMasterBootRecord, recursionDepth, i, s, chain);
    if i == 4 {
      FollowChainExtends(bytes, fileOffset, recursionDepth, s, chain);
      if walked.result.Ok? {
        assert entries[i..4] == [];
        assert s.partitions + Ordinary(entries[i..4], fileOffset) == s.partitions;
      }
    } else if i < |entries| {
      var step := ScanEntry(bytes, fileOffset, entries[i], isMasterBootRecord, s, chain);
      if step.Next? {
        assert walked == Scan(bytes, fileOffset, entries, isMasterBootRecord, recursionDepth, i + 1, step.state, step.chain);
        ScanEntryAppends(bytes, fileOffset, entries[i], isMasterBootRecord, s, chain);
        ScanDiscoveryOrder(bytes, fileOffset, entries, isMasterBootRecord, recursionDepth, i + 1, step.state, step.chain);
        if walked.result.Ok? {
          OrdinarySplit(entries, i, fileOffset);
          PrefixAppend(s.partitions, Ordinary([entries[i]], fileOffset), Ordinary(entries[i + 1..4], fileOffset),
                       walked.state.partitions);
        }
      } else {
        assert walked.result.Err?;
      }
    }
  }

  lemma WalkDiscoveryOrder(bytes: seq<uint8>, fileOffset: int, entries: seq<PE.PartitionEntry>,
                           isMasterBootRecord: bool, recursionDepth: int, s: WalkState)
    requires s.bytesPerSector > 0
    ensures var walked := Walk(bytes, fileOffset, entries, isMasterBootRecord, recursionDepth, s);
            walked.result.Ok? ==>
              0 <= recursionDepth <= MaximumRecursionDepth && |entries| >= 4
              && IsPrefix(s.partitions + Ordinary(entries[..4], fileOffset), walked.state.partitions)
  {
    if 0 <= recursionDepth <= MaximumRecursionDepth {
      ScanDiscoveryOrder(bytes, fileOffset, entries, isMasterBootRecord, recursionDepth, 0, s, None);
      if |entries| >= 4 {
        assert entries[0..4] == entries[..4];
      }
    }
  }

  /** A table without chain entries contributes exactly its own descriptors. */
  lemma {:induction false} ScanWithoutChain(bytes: seq<uint8>, fileOffset: int, entries: seq<PE.PartitionEntry>,
                                           isMasterBootRecord: bool, recursionDepth: int, i: nat, s: WalkState)
    requires 0 <= recursionDepth <= MaximumRecursionDepth && i <= 4 <= |entries| && s.bytesPerSector > 0
    requires forall k :: i <= k < 4 ==> !IsChainType(entries[k].partitionType)
    ensures Scan(bytes, fileOffset, entries, isMasterBootRecord, recursionDepth, i, s, None)
            == Walked(Ok(()), s.(partitions := s.partitions + Ordinary(entries[i..4], fileOffset)))
    decreases 4 - i
  {
    if i == 4 {
      assert entries[i..4] == [];
      assert s.partitions + Ordinary(entries[i..4], fileOffset) == s.partitions;
    } else {
      var t := s.(partitions := s.partitions + Ordinary([entries[i]], fileOffset));
      ScanOrdinaryStep(bytes, fileOffset, entries, isMasterBootRecord, recursionDepth, i, s);
      ScanWithoutChain(bytes, fileOffset, entries, isMasterBootRecord, recursionDepth, i + 1, t);
      OrdinarySplit(entries, i, fileOffset);
      assert t.partitions + Ordinary(entries[i + 1..4], fileOffset) == s.partitions + Ordinary(entries[i..4], fileOffset);
    }
  }

  /** An entry that is not a chain entry is handled in place, and the scan
      goes on with the next one. */
  lemma ScanOrdinaryStep(bytes: seq<uint8>, fileOffset: int, entries: seq<PE.PartitionEntry>,
                         isMasterBootRecord: bool, recursionDepth: int, i: nat, s: WalkState)
    requires 0 <= recursionDepth <= MaximumRecursionDepth && i < 4 <= |entries| && s.bytesPerSector > 0
    requires !IsChainType(entries[i].partitionType)
    ensures Scan(bytes, fileOffset, entries, isMasterBootRecord, recursionDepth, i, s, None)
            == Scan(bytes, fileOffset, entries, isMasterBootRecord, recursionDepth, i + 1,
                    s.(partitions := s.partitions + Ordinary([entries[i]], fileOffset)), None)
  {
    var e := entries[i];
    var t := s.(partitions := s.partitions + Ordinary([e], fileOffset));
    ScanEntryAppends(bytes, fileOffset, e, isMasterBootRecord, s, None);
    if e.partitionType == 0 {
      assert t == s;
    }
    assert ScanEntry(bytes, fileOffset, e, isMasterBootRecord, s, None) == Next(t, None);
  }

  lemma WalkWithoutChain(bytes: seq<uint8>, fileOffset: int, entries: seq<PE.PartitionEntry>,
                         isMasterBootRecord: bool, recursionDepth: int, s: WalkState)
    requires 0 <= recursionDepth <= MaximumRecursionDepth && |entries| >= 4 && s.bytesPerSector > 0
    requires forall k :: 0 <= k < 4 ==> !IsChainType(entries[k].partitionType)
    ensures Walk(bytes, fileOffset, entries, isMasterBootRecord, recursionDepth, s)
            == Walked(Ok(()), s.(partitions := s.partitions + Ordinary(entries[..4], fileOffset)))
  {
    ScanWithoutChain(bytes, fileOffset, entries, isMasterBootRecord, recursionDepth, 0, s);
    assert entries[0..4] == entries[..4];
  }

  /** A chain entry with LBA 0 points back to its own table: once the rest
      of the table has been scanned, the walk refuses to follow it. */
  lemma {:induction false} ScanRejectsSelfLink(bytes: seq<uint8>, fileOffset: int, entries: seq<PE.PartitionEntry>,
                                              isMasterBootRecord: bool, recursionDepth: int, i: nat, s: WalkState,
                                              chain: Option<Link>, k: nat)
    requires 0 <= recursionDepth <= MaximumRecursionDepth && i <= 4 <= |entries| && s.bytesPerSector > 0
    requires BR.ReadBootRecord(bytes, fileOffset).Ok?
    requires k < 4 && IsChainType(entries[k].partitionType) && entries[k].startAddressLba == 0
    requires forall j :: 0 <= j < 4 && j != k ==> !IsChainType(entries[j].partitionType)
    requires i <= k ==> chain.None?
    requires i > k ==> chain.Some? && chain.value.offset == fileOffset
    ensures Scan(bytes, fileOffset, entries, isMasterBootRecord, recursionDepth, i, s, chain).result
            == Err(Error(Runtime, ValueOutOfBounds))
    decreases 4 - i
  {
    if i < 4 {
      var step := ScanEntry(bytes, fileOffset, entries[i], isMasterBootRecord, s, chain);
      if i == k {
        assert RecordOffset(fileOffset, 0, s.bytesPerSector) == fileOffset;
      }
      ScanRejectsSelfLink(bytes, fileOffset, entries, isMasterBootRecord, recursionDepth, i + 1, step.state,
                          step.chain, k);
    }
  }

  lemma WalkRejectsSelfLink(bytes: seq<uint8>, fileOffset: int, entries: seq<PE.PartitionEntry>,
                            isMasterBootRecord: bool, recursionDepth: int, s: WalkState, k: nat)
    requires 0 <= recursionDepth <= MaximumRecursionDepth && |entries| >= 4 && s.bytesPerSector > 0
    requires BR.ReadBootRecord(bytes, fileOffset).Ok?
    requires k < 4 && IsChainType(entries[k].partitionType) && entries[k].startAddressLba == 0
    requires forall j :: 0 <= j < 4 && j != k ==> !IsChainType(entries[j].partitionType)
    ensures Walk(bytes, fileOffset, entries, isMasterBootRecord, recursionDepth, s).result
            == Err(Error(Runtime, ValueOutOfBounds))
  {
    ScanRejectsSelfLink(bytes, fileOffset, entries, isMasterBootRecord, recursionDepth, 0, s, None, k);
  }

  /** Two states that differ only in whether the library set the sector size. */
  predicate SameButFlag(s: WalkState, t: WalkState) {
    s.partitions == t.partitions && s.bytesPerSector == t.bytesPerSector
  }

  /** The walk never reads the flag: its result, the partitions and the
      sector size do not depend on it. */
  lemma {:induction false} WalkIgnoresFlag(bytes: seq<uint8>, fileOffset: int, entries: seq<PE.PartitionEntry>,
                                          isMasterBootRecord: bool, recursionDepth: int, s: WalkState, t: WalkState)
    requires s.bytesPerSector > 0 && SameButFlag(s, t)
    ensures var a := Walk(bytes, fileOffset, entries, isMasterBootRecord, recursionDepth, s);
            var b := Walk(bytes, fileOffset, entries, isMasterBootRecord, recursionDepth, t);
            a.result == b.result && SameButFlag(a.state, b.state)
    decreases MaximumRecursionDepth + 1 - recursionDepth, 6
  {
    if 0 <= recursionDepth <= MaximumRecursionDepth {
      ScanIgnoresFlag(bytes, fileOffset, entries, isMasterBootRecord, recursionDepth, 0, s, t, None);
    }
  }

  lemma {:induction false} ScanIgnoresFlag(bytes: seq<uint8>, fileOffset: int, entries: seq<PE.PartitionEntry>,
                                          isMasterBootRecord: bool, recursionDepth: int, i: nat, s: WalkState,
                                          t: WalkState, chain: Option<Link>)
    requires 0 <= recursionDepth <= MaximumRecursionDepth && i <= 4 && s.bytesPerSector > 0 && SameButFlag(s, t)
    ensures var a := Scan(bytes, fileOffset, entries, isMasterBootRecord, recursionDepth, i, s, chain);
            var b := Scan(bytes, fileOffset, entries, isMasterBootRecord, recursionDepth, i, t, chain);
            a.result == b.result && SameButFlag(a.state, b.state)
    decreases MaximumRecursionDepth + 1 - recursionDepth, 5 - i
  {
    if i == 4 {
      if chain.Some? && chain.value.offset != 0 && chain.value.offset != fileOffset {
        WalkIgnoresFlag(bytes, chain.value.offset, chain.value.entries, false, recursionDepth + 1, s, t);
      }
    } else if i < |entries| {
      var a := ScanEntry(bytes, fileOffset, entries[i], isMasterBootRecord, s, chain);
      var b := ScanEntry(bytes, fileOffset, entries[i], isMasterBootRecord, t, chain);
      assert a.Next? == b.Next? && SameButFlag(a.state, b.state);
      if a.Next? {
        assert a.chain == b.chain;
        ScanIgnoresFlag(bytes, fileOffset, entries, isMasterBootRecord, recursionDepth, i + 1, a.state, b.state, a.chain);
      }
    }
  }

  /** The state of a volume fresh from initialize, or just closed, as far as
      the walk is concerned. */
  function ClosedState(bytesPerSectorSetByLibrary: bool): WalkState {
    WalkState([], 512, bytesPerSectorSetByLibrary)
  }

  /** Opening, closing, opening again and closing again a volume over the
      same image all succeed, and both opens find the same partitions. */
  method OpenCloseOpenClose(bytes: seq<uint8>)
    returns (first: Result<()>, closed: Result<()>, second: Result<()>, closedAgain: Result<()>,
             firstPartitions: seq<PV.PartitionValues>, secondPartitions: seq<PV.PartitionValues>)
    requires OpenRead(bytes, ClosedState(false)).result.Ok?
    ensures first.Ok? && closed.Ok? && second.Ok? && closedAgain.Ok?
    ensures firstPartitions == secondPartitions == OpenRead(bytes, ClosedState(false)).state.partitions
  {
    var volume := new Volume();
    var handle := new FileIoHandle(bytes, true, false);
    first := volume.Open(handle, AccessFlagRead);
    firstPartitions := volume.partitions;
    closed := volume.Close();
    ghost var flag := volume.bytesPerSectorSetByLibrary;
    OpenReadIgnoresFlag(bytes, false, flag);
    second := volume.Open(handle, AccessFlagRead);
    secondPartitions := volume.partitions;
    closedAgain := volume.Close();
  }

  lemma OpenReadIgnoresFlag(bytes: seq<uint8>, flag: bool, other: bool)
    ensures OpenRead(bytes, ClosedState(flag)).result == OpenRead(bytes, ClosedState(other)).result
    ensures SameButFlag(OpenRead(bytes, ClosedState(flag)).state, OpenRead(bytes, ClosedState(other)).state)
  {
    var record := BR.ReadBootRecord(bytes, 0);
    if record.Ok? {
      WalkIgnoresFlag(bytes, 0, record.value.entries, true, 0, ClosedState(flag), ClosedState(other));
    }
  }
}
