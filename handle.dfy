// libvsmbr_handle.c: the older handle type and its partition-table walk.
//
// It differs from the volume walk in libvsmbr_volume.c: only type 0x05 is a
// chain link (0x0f is listed as an ordinary partition), a descriptor holds
// absolute byte offsets and sizes, a failed chain read is retried once with
// 4096-byte sectors while no entry has been seen yet, and nothing bounds
// the depth of the chain. The walk is therefore specified with fuel: the
// number of chain links it may still follow, OutOfFuel standing for a walk
// that has not finished within them.

module Handle {
  import opened Common
  import opened Definitions
  import opened FileIo
  import PE = PartitionEntry
  import PV = PartitionValues
  import BR = BootRecord
  import IH = IoHandle

  /** What the walk reads and changes: the partitions array, the sector
      size of the IO handle, and open_read's first_partition_entry flag. */
  datatype WalkState = WalkState(
    partitions: seq<PV.PartitionValues>,
    bytesPerSector: nat,
    firstPartitionEntry: bool)

  /** The only chain link of this walk is type 0x05 (extended, CHS). */
  predicate IsChainType(partitionType: uint8) {
    partitionType == 0x05
  }

  /** file_offset + start_address_lba * bytes_per_sector. */
  function EntryOffset(fileOffset: int, lba: nat, bytesPerSector: nat): int {
    fileOffset + lba * bytesPerSector
  }

  /** The descriptor of an ordinary entry: its type, its absolute byte
      offset and its size in bytes. */
  function Descriptor(e: PE.PartitionEntry, fileOffset: int, bytesPerSector: nat): (r: PV.PartitionValues)
    // read_mbr's descriptor of the entry, with the offset taken from the
    // table the entry was read from rather than from the start of the file
    ensures r == IH.Describe(e, bytesPerSector).(offset := fileOffset + IH.Describe(e, bytesPerSector).offset)
  {
    PV.Zero.(partitionType := e.partitionType,
             offset := EntryOffset(fileOffset, e.startAddressLba, bytesPerSector),
             size := IH.ByteOffset(e.numberOfSectors, bytesPerSector))
  }

  /** The reading of an extended partition record: the sector size after
      it, the offset it was read at, and what was read. */
  datatype Probe = Probe(bytesPerSector: nat, offset: int, record: Result<BR.Decoded>)

  /** A failed read is retried once, at start_address_lba * 4096, when no
      entry has been seen yet and the sector size is 512. */
  function ProbeChain(bytes: seq<uint8>, fileOffset: int, lba: nat, firstPartitionEntry: bool,
                      bytesPerSector: nat): (p: Probe)
    ensures p.record == BR.ReadBootRecord(bytes, p.offset)
    ensures p.bytesPerSector == bytesPerSector || p.bytesPerSector == 4096
    ensures p.bytesPerSector != bytesPerSector || p.offset != EntryOffset(fileOffset, lba, bytesPerSector) <==>
              BR.ReadBootRecord(bytes, EntryOffset(fileOffset, lba, bytesPerSector)).Err?
              && firstPartitionEntry && bytesPerSector == 512
  {
    var offset := EntryOffset(fileOffset, lba, bytesPerSector);
    var record := BR.ReadBootRecord(bytes, offset);
    if record.Err? && firstPartitionEntry && bytesPerSector == 512 then
      Probe(4096, EntryOffset(0, lba, 4096), BR.ReadBootRecord(bytes, EntryOffset(0, lba, 4096)))
    else Probe(bytesPerSector, offset, record)
  }

  datatype Link = Link(offset: int, entries: seq<PE.PartitionEntry>)

  datatype Step = Next(state: WalkState, chain: Option<Link>) | Stop(error: Error, state: WalkState)

  /** One iteration of the entry loop. Every non-empty entry clears the
      first_partition_entry flag once it has been handled. */
  function ScanEntry(bytes: seq<uint8>, fileOffset: int, e: PE.PartitionEntry, s: WalkState,
                     chain: Option<Link>): (r: Step)
    // only a chain entry stops the loop: a second one, or one whose record
    // cannot be read; a stop appends nothing
    ensures r.Stop? ==> IsChainType(e.partitionType) && r.state.partitions == s.partitions
    ensures r.Stop? ==> r.error == (if chain.Some? then Error(Runtime, UnsupportedValue) else Error(Io, ReadFailed))
    // the first chain entry becomes the link; any other entry keeps it
    ensures r.Next? ==> (r.chain.Some? <==> chain.Some? || IsChainType(e.partitionType))
    ensures r.Next? && !IsChainType(e.partitionType) ==> r.chain == chain
    // the sector size changes only by the one fallback from 512 to 4096
    ensures r.state.bytesPerSector == s.bytesPerSector
            || (s.firstPartitionEntry && s.bytesPerSector == 512 && r.state.bytesPerSector == 4096)
  {
    if e.partitionType == 0 then Next(s, chain)
    else if IsChainType(e.partitionType) then
      if chain.Some? then Stop(Error(Runtime, UnsupportedValue), s)
      else
        var p := ProbeChain(bytes, fileOffset, e.startAddressLba, s.firstPartitionEntry, s.bytesPerSector);
        if p.record.Err? then Stop(Error(Io, ReadFailed), s.(bytesPerSector := p.bytesPerSector))
        else Next(s.(bytesPerSector := p.bytesPerSector, firstPartitionEntry := false),
                  Some(Link(p.offset, p.record.value.entries)))
    else
      Next(s.(partitions := s.partitions + [Descriptor(e, fileOffset, s.bytesPerSector)],
              firstPartitionEntry := false), chain)
  }

  /** The result of a walk, or OutOfFuel when it would follow more chain
      links than the fuel allows. */
  datatype Outcome = Finished(result: Result<()>, state: WalkState) | OutOfFuel

  /** libvsmbr_handle_read_partition_entries on the table `entries` read at
      `fileOffset`, following at most `fuel` chain links. */
  function Walk(bytes: seq<uint8>, fileOffset: int, entries: seq<PE.PartitionEntry>, s: WalkState,
                fuel: nat): Outcome
    decreases fuel, 6
  {
    Scan(bytes, fileOffset, entries, 0, s, None, fuel)
  }

  function Scan(bytes: seq<uint8>, fileOffset: int, entries: seq<PE.PartitionEntry>, i: nat, s: WalkState,
                chain: Option<Link>, fuel: nat): Outcome
    requires i <= 4
    decreases fuel, 5 - i
  {
    if i == 4 then FollowChain(bytes, s, chain, fuel)
    else if i >= |entries| then Finished(Err(Error(Runtime, GetFailed)), s)
    else match ScanEntry(bytes, fileOffset, entries[i], s, chain)
      case Stop(error, t) => Finished(Err(error), t)
      case Next(t, next) => Scan(bytes, fileOffset, entries, i + 1, t, next, fuel)
  }

  /** After the loop the chain is followed, with no check of its offset. */
  function FollowChain(bytes: seq<uint8>, s: WalkState, chain: Option<Link>, fuel: nat): Outcome
    decreases fuel, 0
  {
    match chain
    case None => Finished(Ok(()), s)
    case Some(link) =>
      if fuel == 0 then OutOfFuel
      else match Walk(bytes, link.offset, link.entries, s, fuel - 1)
        case OutOfFuel => OutOfFuel
        case Finished(result, t) => Finished(if result.Err? then Err(Error(Io, ReadFailed)) else Ok(()), t)
  }

  /** libvsmbr_handle_open_read: read the master boot record at offset 0
      and walk it with first_partition_entry set. */
  function OpenRead(bytes: seq<uint8>, s: WalkState, fuel: nat): Outcome {
    match BR.ReadBootRecord(bytes, 0)
    case Err(_) => Finished(Err(Error(Io, ReadFailed)), s)
    case Ok(record) =>
      match Walk(bytes, 0, record.entries, s.(firstPartitionEntry := true), fuel)
      case OutOfFuel => OutOfFuel
      case Finished(result, t) => Finished(if result.Err? then Err(Error(Io, ReadFailed)) else Ok(()), t)
  }

  /** A method's result read as an outcome: None for a walk out of fuel. */
  function Observed(r: Option<Result<()>>, s: WalkState): Outcome {
    if r.Some? then Finished(r.value, s) else OutOfFuel
  }

  function Chain(record: BR.BootRecord?, offset: int): Option<Link>
    reads record
  {
    if record == null then None else Some(Link(offset, record.partitionEntries))
  }

  /** The sector sizes a handle can have: 512 from initialize and close,
      4096 after the fallback. */
  predicate HandleSectorSize(bytesPerSector: nat) {
    bytesPerSector == 512 || bytesPerSector == 4096
  }

  class Handle {
    var ioHandle: IH.IoHandle
    var fileIoHandle: FileIoHandle?
    var fileIoHandleCreatedInLibrary: bool
    var fileIoHandleOpenedInLibrary: bool
    var partitions: seq<PV.PartitionValues>

    predicate Valid()
      reads this
    {
      HandleSectorSize(ioHandle.bytesPerSector)
    }

    function State(firstPartitionEntry: bool): WalkState
      reads this
    {
      WalkState(partitions, ioHandle.bytesPerSector, firstPartitionEntry)
    }

    /** The part of the handle the walk leaves alone. */
    function Attachment(): (FileIoHandle?, bool, bool, bool)
      reads this
    {
      (fileIoHandle, fileIoHandleCreatedInLibrary, fileIoHandleOpenedInLibrary, ioHandle.abort)
    }

    /** libvsmbr_handle_initialize. */
    constructor ()
      ensures Valid()
      ensures fileIoHandle == null && !fileIoHandleCreatedInLibrary && !fileIoHandleOpenedInLibrary
      ensures ioHandle == IH.Initial && partitions == []
    {
      ioHandle := IH.Initial;
      fileIoHandle := null;
      fileIoHandleCreatedInLibrary := false;
      fileIoHandleOpenedInLibrary := false;
      partitions := [];
    }

    /** libvsmbr_handle_signal_abort: only raises the abort flag. */
    method SignalAbort()
      modifies this
      ensures ioHandle == old(ioHandle).(abort := true)
      ensures fileIoHandle == old(fileIoHandle) && partitions == old(partitions)
      ensures fileIoHandleCreatedInLibrary == old(fileIoHandleCreatedInLibrary)
      ensures fileIoHandleOpenedInLibrary == old(fileIoHandleOpenedInLibrary)
    {
      ioHandle := ioHandle.(abort := true);
    }

    /** libvsmbr_handle_open_file_io_handle, with the walk given `fuel`
        chain links; None when it runs out of them. The handle keeps the
        file IO handle only when the walk succeeds. */
    method Open(handle: FileIoHandle?, accessFlags: bv32, fuel: nat) returns (r: Option<Result<()>>)
      requires Valid()
      modifies this, handle
      ensures Valid()
      ensures old(fileIoHandle) != null ==>
                r == Some(Err(Error(Runtime, ValueAlreadySet))) && unchanged(this) && (handle != null ==> unchanged(handle))
      ensures old(fileIoHandle) == null && handle == null ==>
                r == Some(Err(Error(Arguments, InvalidValue))) && unchanged(this)
      ensures old(fileIoHandle) == null && handle != null && accessFlags & (AccessFlagRead | AccessFlagWrite) == 0 ==>
                r == Some(Err(Error(Arguments, UnsupportedValue))) && unchanged(this) && unchanged(handle)
      ensures old(fileIoHandle) == null && handle != null && accessFlags & AccessFlagWrite != 0 ==>
                r == Some(Err(Error(Arguments, UnsupportedValue))) && unchanged(this) && unchanged(handle)
      ensures old(fileIoHandle) == null && handle != null && accessFlags & AccessFlagRead != 0
              && accessFlags & AccessFlagWrite == 0 && !old(handle.isOpen) && !handle.openable ==>
                r == Some(Err(Error(Io, OpenFailed))) && unchanged(this) && !handle.isOpen
      ensures r == Some(Ok(())) <==> (old(fileIoHandle) == null && handle != null
                                      && accessFlags & AccessFlagRead != 0 && accessFlags & AccessFlagWrite == 0
                                      && (old(handle.isOpen) || handle.openable)
                                      && OpenRead(handle.bytes, old(State(false)), fuel).Finished?
                                      && OpenRead(handle.bytes, old(State(false)), fuel).result.Ok?)
      ensures r.None? ==> handle != null && OpenRead(handle.bytes, old(State(false)), fuel).OutOfFuel?
      ensures r == Some(Ok(())) ==> (fileIoHandle == handle && handle.isOpen
                                     && fileIoHandleOpenedInLibrary == !old(handle.isOpen)
                                     && partitions == OpenRead(handle.bytes, old(State(false)), fuel).state.partitions
                                     && ioHandle.bytesPerSector
                                        == OpenRead(handle.bytes, old(State(false)), fuel).state.bytesPerSector)
      ensures r.Some? && r.value.Err? ==> (fileIoHandle == old(fileIoHandle)
                                           && fileIoHandleOpenedInLibrary == old(fileIoHandleOpenedInLibrary))
      ensures r.Some? && r.value.Err? && handle != null ==> handle.isOpen == old(handle.isOpen)
      ensures r == Some(Err(Error(Io, ReadFailed))) ==>
                var o := OpenRead(handle.bytes, old(State(false)), fuel);
                o.Finished? && partitions == o.state.partitions && ioHandle.bytesPerSector == o.state.bytesPerSector
      ensures fileIoHandleCreatedInLibrary == old(fileIoHandleCreatedInLibrary)
      ensures ioHandle.abort == old(ioHandle.abort)
    {
      if fileIoHandle != null {
        return Some(Err(Error(Runtime, ValueAlreadySet)));
      }
      if handle == null {
        return Some(Err(Error(Arguments, InvalidValue)));
      }
      if accessFlags & AccessFlagRead == 0 && accessFlags & AccessFlagWrite == 0 {
        assert accessFlags & (AccessFlagRead | AccessFlagWrite) == 0;
        return Some(Err(Error(Arguments, UnsupportedValue)));
      }
      assert accessFlags & (AccessFlagRead | AccessFlagWrite) != 0;
      if accessFlags & AccessFlagWrite != 0 {
        return Some(Err(Error(Arguments, UnsupportedValue)));
      }
      var openedInLibrary := false;
      if !handle.isOpen {
        var openResult := handle.Open();
        if openResult.Err? {
          return Some(Err(Error(Io, OpenFailed)));
        }
        openedInLibrary := true;
      }
      var status := ReadHandle(handle, fuel);
      if status.None? {
        return None;
      }
      if status.value.Err? {
        if openedInLibrary {
          handle.Close();
        }
        return Some(Err(Error(Io, ReadFailed)));
      }
      fileIoHandle := handle;
      fileIoHandleOpenedInLibrary := openedInLibrary;
      r := Some(Ok(()));
    }

    /** libvsmbr_handle_open_read. */
    method ReadHandle(handle: FileIoHandle, fuel: nat) returns (r: Option<Result<()>>)
      requires handle.isOpen && Valid()
      modifies this
      ensures Valid()
      ensures var o := OpenRead(handle.bytes, old(State(false)), fuel);
              (r.None? <==> o.OutOfFuel?)
              && (r.Some? ==> r.value == o.result && partitions == o.state.partitions
                              && ioHandle.bytesPerSector == o.state.bytesPerSector)
      ensures Attachment() == old(Attachment())
    {
      ghost var record := BR.ReadBootRecord(handle.bytes, 0);
      var masterBootRecord := new BR.BootRecord();
      var read := masterBootRecord.ReadFileIoHandle(handle, 0);
      if read.Err? {
        assert record.Err?;
        return Some(Err(Error(Io, ReadFailed)));
      }
      assert record.Ok? && masterBootRecord.partitionEntries == record.value.entries;
      ghost var start := old(State(false)).(firstPartitionEntry := true);
      assert old(State(true)) == start;
      var walked, first := ReadPartitionEntries(handle, 0, masterBootRecord, true, fuel);
      ghost var o := Walk(handle.bytes, 0, record.value.entries, start, fuel);
      assert Observed(walked, State(first)) == o;
      WalkSectorSize(handle.bytes, 0, record.value.entries, start, fuel);
      assert OpenRead(handle.bytes, old(State(false)), fuel)
             == (if o.OutOfFuel? then OutOfFuel
                 else Finished(if o.result.Err? then Err(Error(Io, ReadFailed)) else Ok(()), o.state));
      if walked.None? {
        return None;
      }
      if walked.value.Err? {
        r := Some(Err(Error(Io, ReadFailed)));
      } else {
        r := Some(Ok(()));
      }
    }

    /** The reading of an extended partition record, with the one-shot
        fallback to 4096-byte sectors. */
    method ReadExtendedPartitionRecord(handle: FileIoHandle, fileOffset: int, lba: uint32, firstPartitionEntry: bool)
      returns (record: BR.BootRecord, offset: int, result: Result<()>)
      requires handle.isOpen
      modifies this
      ensures fresh(record)
      ensures var p := ProbeChain(handle.bytes, fileOffset, lba, firstPartitionEntry, old(ioHandle.bytesPerSector));
              ioHandle.bytesPerSector == p.bytesPerSector && offset == p.offset
              && (result.Ok? <==> p.record.Ok?)
              && (result.Ok? ==> record.partitionEntries == p.record.value.entries)
      ensures partitions == old(partitions) && Attachment() == old(Attachment())
    {
      offset := EntryOffset(fileOffset, lba, ioHandle.bytesPerSector);
      record := new BR.BootRecord();
      result := record.ReadFileIoHandle(handle, offset);
      if result.Err? && firstPartitionEntry && ioHandle.bytesPerSector == 512 {
        ioHandle := ioHandle.(bytesPerSector := 4096);
        offset := EntryOffset(0, lba, ioHandle.bytesPerSector);
        result := record.ReadFileIoHandle(handle, offset);
      }
    }

    /** libvsmbr_handle_read_partition_entries with `fuel` chain links left;
        first_partition_entry is passed in and handed back. */
    method ReadPartitionEntries(handle: FileIoHandle, fileOffset: int, bootRecord: BR.BootRecord,
                                firstPartitionEntry: bool, fuel: nat)
      returns (r: Option<Result<()>>, first: bool)
      requires handle.isOpen
      modifies this
      decreases fuel
      ensures Observed(r, State(first)) == Walk(handle.bytes, fileOffset, bootRecord.partitionEntries,
                                                 old(State(firstPartitionEntry)), fuel)
      ensures old(Valid()) ==> Valid()
      ensures Attachment() == old(Attachment())
    {
      var bytes := handle.bytes;
      var entries := bootRecord.partitionEntries;
      first := firstPartitionEntry;
      var extendedPartitionRecord: BR.BootRecord? := null;
      var extendedPartitionRecordOffset := 0;
      var partitionEntryIndex := 0;
      while partitionEntryIndex < 4
        invariant 0 <= partitionEntryIndex <= 4
        invariant extendedPartitionRecord != null ==> fresh(extendedPartitionRecord)
        invariant bootRecord.partitionEntries == entries
        invariant Walk(bytes, fileOffset, entries, old(State(firstPartitionEntry)), fuel)
                  == Scan(bytes, fileOffset, entries, partitionEntryIndex, State(first),
                          Chain(extendedPartitionRecord, extendedPartitionRecordOffset), fuel)
        invariant old(Valid()) ==> Valid()
        invariant Attachment() == old(Attachment())
      {
        var entry := bootRecord.GetPartitionEntryByIndex(partitionEntryIndex);
        if entry.Err? {
          return Some(Err(Error(Runtime, GetFailed))), first;
        }
        var e := entry.value;
        ghost var before, chain := State(first), Chain(extendedPartitionRecord, extendedPartitionRecordOffset);
        if e.partitionType == 0 {
          // an empty entry is skipped and leaves the flag alone
        } else {
          if IsChainType(e.partitionType) {
            if extendedPartitionRecord != null {
              return Some(Err(Error(Runtime, UnsupportedValue))), first;
            }
            var record, offset, result := ReadExtendedPartitionRecord(handle, fileOffset, e.startAddressLba, first);
            if result.Err? {
              assert ScanEntry(bytes, fileOffset, e, before, chain) == Stop(Error(Io, ReadFailed), State(first));
              return Some(Err(Error(Io, ReadFailed))), first;
            }
            extendedPartitionRecord, extendedPartitionRecordOffset := record, offset;
          } else {
            partitions := partitions + [Descriptor(e, fileOffset, ioHandle.bytesPerSector)];
          }
          first := false;
        }
        assert ScanEntry(bytes, fileOffset, e, before, chain)
               == Next(State(first), Chain(extendedPartitionRecord, extendedPartitionRecordOffset));
        partitionEntryIndex := partitionEntryIndex + 1;
      }
      if extendedPartitionRecord != null {
        if fuel == 0 {
          return None, first;
        }
        var status;
        status, first := ReadPartitionEntries(handle, extendedPartitionRecordOffset, extendedPartitionRecord,
                                              first, fuel - 1);
        if status.None? {
          return None, first;
        }
        if status.value.Err? {
          return Some(Err(Error(Io, ReadFailed))), first;
        }
      }
      r := Some(Ok(()));
    }

    /** libvsmbr_handle_close: refused without a file IO handle; a handle
        created by the library is closed and freed. The handle forgets the
        file IO handle, resets its IO handle and empties its partitions;
        a file IO handle the library only opened stays open, and the
        opened-in-library flag is not reset. */
    method Close() returns (r: Result<()>)
      requires Valid()
      modifies this, fileIoHandle
      ensures Valid()
      ensures old(fileIoHandle) == null <==> r.Err?
      ensures r.Err? ==> r.error == Error(Runtime, ValueMissing) && unchanged(this)
      ensures r.Ok? ==> fileIoHandle == null && !fileIoHandleCreatedInLibrary
                        && fileIoHandleOpenedInLibrary == old(fileIoHandleOpenedInLibrary)
                        && ioHandle == IH.Clear(old(ioHandle)) && partitions == []
      ensures r.Ok? ==> old(fileIoHandle).isOpen == (old(fileIoHandle.isOpen) && !old(fileIoHandleCreatedInLibrary))
    {
      if fileIoHandle == null {
        return Err(Error(Runtime, ValueMissing));
      }
      if fileIoHandleCreatedInLibrary {
        fileIoHandle.Close();
      }
      fileIoHandle := null;
      fileIoHandleCreatedInLibrary := false;
      ioHandle := IH.Clear(ioHandle);
      partitions := [];
      r := Ok(());
    }

    /** libvsmbr_handle_get_bytes_per_sector: the IO handle's value. */
    function GetBytesPerSector(): (bytesPerSector: nat)
      requires Valid()
      reads this
      ensures HandleSectorSize(bytesPerSector)
      ensures bytesPerSector == State(false).bytesPerSector
    {
      ioHandle.bytesPerSector
    }

    /** libvsmbr_handle_get_number_of_partitions. */
    function GetNumberOfPartitions(): (n: nat)
      reads this
      ensures n == |State(false).partitions|
    {
      |partitions|
    }

    /** libvsmbr_handle_get_partition_by_index: the descriptor the partition
        is built from. The output pointer must be given and unset. */
    function GetPartitionByIndex(partitionIndex: int, partition: Slot<PV.PartitionValues>)
      : (r: Result<PV.PartitionValues>)
      reads this
      ensures partition.NullSlot? ==> r == Err(Error(Arguments, InvalidValue))
      ensures partition.Slot? && partition.target.Some? ==> r == Err(Error(Runtime, ValueAlreadySet))
      ensures partition == Slot(None) && !(0 <= partitionIndex < |partitions|) ==> r == Err(Error(Runtime, GetFailed))
      ensures r.Ok? <==> partition == Slot(None) && 0 <= partitionIndex < |partitions|
      ensures r.Ok? ==> r.value == partitions[partitionIndex]
    {
      if partition.NullSlot? then Err(Error(Arguments, InvalidValue))
      else if partition.target.Some? then Err(Error(Runtime, ValueAlreadySet))
      else if !(0 <= partitionIndex < |partitions|) then Err(Error(Runtime, GetFailed))
      else Ok(partitions[partitionIndex])
    }
  }

  /** What a walk may do to the state: partitions are only appended, none
      of them empty or a chain link; the sector size changes only from 512
      to 4096, and only while the flag is still set; the flag, once clear,
      stays clear; while it is set nothing has been appended. */
  ghost predicate Extends(s: WalkState, t: WalkState) {
    && |s.partitions| <= |t.partitions| && t.partitions[..|s.partitions|] == s.partitions
    && (forall p :: p in t.partitions[|s.partitions|..] ==> p.partitionType != 0 && !IsChainType(p.partitionType))
    && (t.bytesPerSector == s.bytesPerSector
        || (s.firstPartitionEntry && s.bytesPerSector == 512 && t.bytesPerSector == 4096))
    && (!s.firstPartitionEntry ==> !t.firstPartitionEntry)
    && (t.firstPartitionEntry ==> t.partitions == s.partitions)
  }

  lemma ExtendsTransitive(s: WalkState, t: WalkState, u: WalkState)
    requires Extends(s, t) && Extends(t, u)
    ensures Extends(s, u)
  {
    assert u.partitions[..|t.partitions|][..|s.partitions|] == u.partitions[..|s.partitions|];
    forall p | p in u.partitions[|s.partitions|..]
      ensures p.partitionType != 0 && !IsChainType(p.partitionType)
    {
      var k :| |s.partitions| <= k < |u.partitions| && u.partitions[k] == p;
      if k < |t.partitions| {
        assert t.partitions[k] == p;
        assert p in t.partitions[|s.partitions|..];
      } else {
        assert p in u.partitions[|t.partitions|..];
      }
    }
  }

  /** The fallback to 4096-byte sectors happens only in a step that starts
      with the flag set, hence before any descriptor has been appended. */
  lemma ScanEntryExtends(bytes: seq<uint8>, fileOffset: int, e: PE.PartitionEntry, s: WalkState,
                         chain: Option<Link>)
    ensures Extends(s, ScanEntry(bytes, fileOffset, e, s, chain).state)
  {
    var t := ScanEntry(bytes, fileOffset, e, s, chain).state;
    assert t.partitions[|s.partitions|..] == [] || t.partitions[|s.partitions|..] == [Descriptor(e, fileOffset, s.bytesPerSector)];
  }

  lemma {:induction false} WalkExtends(bytes: seq<uint8>, fileOffset: int, entries: seq<PE.PartitionEntry>,
                                      s: WalkState, fuel: nat)
    ensures var o := Walk(bytes, fileOffset, entries, s, fuel); o.Finished? ==> Extends(s, o.state)
    decreases fuel, 6
  {
    ScanExtends(bytes, fileOffset, entries, 0, s, None, fuel);
  }

  lemma {:induction false} ScanExtends(bytes: seq<uint8>, fileOffset: int, entries: seq<PE.PartitionEntry>, i: nat,
                                      s: WalkState, chain: Option<Link>, fuel: nat)
    requires i <= 4
    ensures var o := Scan(bytes, fileOffset, entries, i, s, chain, fuel); o.Finished? ==> Extends(s, o.state)
    decreases fuel, 5 - i
  {
    if i == 4 {
      FollowChainExtends(bytes, s, chain, fuel);
    } else if i < |entries| {
      var step := ScanEntry(bytes, fileOffset, entries[i], s, chain);
      ScanEntryExtends(bytes, fileOffset, entries[i], s, chain);
      if step.Next? {
        ScanExtends(bytes, fileOffset, entries, i + 1, step.state, step.chain, fuel);
        var o := Scan(bytes, fileOffset, entries, i + 1, step.state, step.chain, fuel);
        if o.Finished? {
          ExtendsTransitive(s, step.state, o.state);
        }
      }
    }
  }

  lemma {:induction false} FollowChainExtends(bytes: seq<uint8>, s: WalkState, chain: Option<Link>, fuel: nat)
    ensures var o := FollowChain(bytes, s, chain, fuel); o.Finished? ==> Extends(s, o.state)
    decreases fuel, 0
  {
    if chain.Some? && fuel > 0 {
      WalkExtends(bytes, chain.value.offset, chain.value.entries, s, fuel - 1);
    }
  }

  /** A handle's sector size stays 512 or 4096 through a walk. */
  lemma WalkSectorSize(bytes: seq<uint8>, fileOffset: int, entries: seq<PE.PartitionEntry>, s: WalkState, fuel: nat)
    requires HandleSectorSize(s.bytesPerSector)
    ensures var o := Walk(bytes, fileOffset, entries, s, fuel);
            o.Finished? ==> HandleSectorSize(o.state.bytesPerSector)
  {
    WalkExtends(bytes, fileOffset, entries, s, fuel);
  }

  /** The descriptors a table contributes by itself, in table order, at
      one sector size: every entry that is neither empty nor type 0x05,
      type 0x0f included. */
  function Ordinary(entries: seq<PE.PartitionEntry>, fileOffset: int, bytesPerSector: nat)
    : (r: seq<PV.PartitionValues>)
    ensures |r| <= |entries|
  {
    if entries == [] then []
    else
      var e := entries[0];
      (if e.partitionType != 0 && !IsChainType(e.partitionType) then [Descriptor(e, fileOffset, bytesPerSector)] else [])
      + Ordinary(entries[1..], fileOffset, bytesPerSector)
  }

  predicate AllEmpty(entries: seq<PE.PartitionEntry>) {
    forall k :: 0 <= k < |entries| ==> entries[k].partitionType == 0
  }

  lemma OrdinarySplit(entries: seq<PE.PartitionEntry>, i: nat, fileOffset: int, bytesPerSector: nat)
    requires i < 4 <= |entries|
    ensures Ordinary(entries[i..4], fileOffset, bytesPerSector)
            == Ordinary([entries[i]], fileOffset, bytesPerSector) + Ordinary(entries[i + 1..4], fileOffset, bytesPerSector)
    ensures AllEmpty(entries[i..4]) == (entries[i].partitionType == 0 && AllEmpty(entries[i + 1..4]))
  {
    assert entries[i..4][0] == entries[i] && entries[i..4][1..] == entries[i + 1..4];
    assert Ordinary([entries[i]], fileOffset, bytesPerSector)
           == (if entries[i].partitionType != 0 && !IsChainType(entries[i].partitionType)
               then [Descriptor(entries[i], fileOffset, bytesPerSector)] else []) + Ordinary([], fileOffset, bytesPerSector);
    assert forall k :: 1 <= k < 4 - i ==> entries[i..4][k] == entries[i + 1..4][k - 1];
  }

  /** An entry that is not a chain entry is handled in place, and the scan
      goes on with the next one. */
  lemma ScanOrdinaryStep(bytes: seq<uint8>, fileOffset: int, entries: seq<PE.PartitionEntry>, i: nat, s: WalkState,
                         fuel: nat)
    requires i < 4 <= |entries| && !IsChainType(entries[i].partitionType)
    ensures Scan(bytes, fileOffset, entries, i, s, None, fuel)
            == Scan(bytes, fileOffset, entries, i + 1,
                    s.(partitions := s.partitions + Ordinary([entries[i]], fileOffset, s.bytesPerSector),
                       firstPartitionEntry := s.firstPartitionEntry && entries[i].partitionType == 0), None, fuel)
  {
    var e := entries[i];
    var t := s.(partitions := s.partitions + Ordinary([e], fileOffset, s.bytesPerSector),
                firstPartitionEntry := s.firstPartitionEntry && e.partitionType == 0);
    assert Ordinary([e], fileOffset, s.bytesPerSector)
           == (if e.partitionType != 0 then [Descriptor(e, fileOffset, s.bytesPerSector)] else [])
              + Ordinary([], fileOffset, s.bytesPerSector);
    if e.partitionType == 0 {
      assert s.partitions + Ordinary([e], fileOffset, s.bytesPerSector) == s.partitions;
      assert t == s;
    }
    assert ScanEntry(bytes, fileOffset, e, s, None) == Next(t, None);
  }

  /** A table without a 0x05 entry contributes exactly its own descriptors,
      in table order, at the sector size it started with; the flag stays
      set only if every entry is empty. */
  lemma {:induction false} ScanWithoutChain(bytes: seq<uint8>, fileOffset: int, entries: seq<PE.PartitionEntry>,
                                           i: nat, s: WalkState, fuel: nat)
    requires i <= 4 <= |entries|
    requires forall k :: i <= k < 4 ==> !IsChainType(entries[k].partitionType)
    ensures Scan(bytes, fileOffset, entries, i, s, None, fuel)
            == Finished(Ok(()), s.(partitions := s.partitions + Ordinary(entries[i..4], fileOffset, s.bytesPerSector),
                                   firstPartitionEntry := s.firstPartitionEntry && AllEmpty(entries[i..4])))
    decreases 4 - i
  {
    if i == 4 {
      assert entries[i..4] == [];
      assert s.partitions + Ordinary(entries[i..4], fileOffset, s.bytesPerSector) == s.partitions;
    } else {
      var t := s.(partitions := s.partitions + Ordinary([entries[i]], fileOffset, s.bytesPerSector),
                  firstPartitionEntry := s.firstPartitionEntry && entries[i].partitionType == 0);
      ScanOrdinaryStep(bytes, fileOffset, entries, i, s, fuel);
      ScanWithoutChain(bytes, fileOffset, entries, i + 1, t, fuel);
      OrdinarySplit(entries, i, fileOffset, s.bytesPerSector);
      assert t.partitions + Ordinary(entries[i + 1..4], fileOffset, s.bytesPerSector)
             == s.partitions + Ordinary(entries[i..4], fileOffset, s.bytesPerSector);
    }
  }

  lemma WalkWithoutChain(bytes: seq<uint8>, fileOffset: int, entries: seq<PE.PartitionEntry>, s: WalkState,
                         fuel: nat)
    requires |entries| >= 4
    requires forall k :: 0 <= k < 4 ==> !IsChainType(entries[k].partitionType)
    ensures Walk(bytes, fileOffset, entries, s, fuel)
            == Finished(Ok(()), s.(partitions := s.partitions + Ordinary(entries[..4], fileOffset, s.bytesPerSector),
                                   firstPartitionEntry := s.firstPartitionEntry && AllEmpty(entries[..4])))
  {
    ScanWithoutChain(bytes, fileOffset, entries, 0, s, fuel);
    assert entries[0..4] == entries[..4];
  }

  /** More fuel does not change a walk that finished. */
  lemma {:induction false} WalkFuelMonotone(bytes: seq<uint8>, fileOffset: int, entries: seq<PE.PartitionEntry>,
                                           s: WalkState, fuel: nat, more: nat)
    requires fuel <= more
    ensures Walk(bytes, fileOffset, entries, s, fuel).Finished? ==>
              Walk(bytes, fileOffset, entries, s, more) == Walk(bytes, fileOffset, entries, s, fuel)
    decreases fuel, 6
  {
    ScanFuelMonotone(bytes, fileOffset, entries, 0, s, None, fuel, more);
  }

  lemma {:induction false} ScanFuelMonotone(bytes: seq<uint8>, fileOffset: int, entries: seq<PE.PartitionEntry>,
                                           i: nat, s: WalkState, chain: Option<Link>, fuel: nat, more: nat)
    requires i <= 4 && fuel <= more
    ensures Scan(bytes, fileOffset, entries, i, s, chain, fuel).Finished? ==>
              Scan(bytes, fileOffset, entries, i, s, chain, more) == Scan(bytes, fileOffset, entries, i, s, chain, fuel)
    decreases fuel, 5 - i
  {
    if i == 4 {
      FollowChainFuelMonotone(bytes, s, chain, fuel, more);
    } else if i < |entries| {
      var step := ScanEntry(bytes, fileOffset, entries[i], s, chain);
      if step.Next? {
        ScanFuelMonotone(bytes, fileOffset, entries, i + 1, step.state, step.chain, fuel, more);
      }
    }
  }

  lemma {:induction false} FollowChainFuelMonotone(bytes: seq<uint8>, s: WalkState, chain: Option<Link>,
                                                  fuel: nat, more: nat)
    requires fuel <= more
    ensures FollowChain(bytes, s, chain, fuel).Finished? ==>
              FollowChain(bytes, s, chain, more) == FollowChain(bytes, s, chain, fuel)
    decreases fuel, 0
  {
    if chain.Some? && fuel > 0 {
      WalkFuelMonotone(bytes, chain.value.offset, chain.value.entries, s, fuel - 1, more - 1);
    }
  }

  /** A 0x05 entry with LBA 0 in a table read at `fileOffset` points back
      to that table: the walk reads the same table again and again and
      never finishes, however much fuel it is given. */
  lemma {:induction false} ScanSelfLink(bytes: seq<uint8>, fileOffset: int, entries: seq<PE.PartitionEntry>,
                                       i: nat, s: WalkState, chain: Option<Link>, fuel: nat, k: nat)
    requires i <= 4 <= |entries|
    requires BR.ReadBootRecord(bytes, fileOffset).Ok? && BR.ReadBootRecord(bytes, fileOffset).value.entries == entries
    requires k < 4 && IsChainType(entries[k].partitionType) && entries[k].startAddressLba == 0
    requires forall j :: 0 <= j < 4 && j != k ==> !IsChainType(entries[j].partitionType)
    requires i <= k ==> chain.None?
    requires i > k ==> chain == Some(Link(fileOffset, entries))
    ensures Scan(bytes, fileOffset, entries, i, s, chain, fuel) == OutOfFuel
    decreases fuel, 5 - i
  {
    if i == 4 {
      if fuel > 0 {
        WalkSelfLink(bytes, fileOffset, entries, s, fuel - 1, k);
      }
    } else {
      var step := ScanEntry(bytes, fileOffset, entries[i], s, chain);
      if i == k {
        assert EntryOffset(fileOffset, 0, s.bytesPerSector) == fileOffset;
      }
      ScanSelfLink(bytes, fileOffset, entries, i + 1, step.state, step.chain, fuel, k);
    }
  }

  lemma {:induction false} WalkSelfLink(bytes: seq<uint8>, fileOffset: int, entries: seq<PE.PartitionEntry>,
                                       s: WalkState, fuel: nat, k: nat)
    requires |entries| >= 4
    requires BR.ReadBootRecord(bytes, fileOffset).Ok? && BR.ReadBootRecord(bytes, fileOffset).value.entries == entries
    requires k < 4 && IsChainType(entries[k].partitionType) && entries[k].startAddressLba == 0
    requires forall j :: 0 <= j < 4 && j != k ==> !IsChainType(entries[j].partitionType)
    ensures Walk(bytes, fileOffset, entries, s, fuel) == OutOfFuel
    decreases fuel, 6
  {
    ScanSelfLink(bytes, fileOffset, entries, 0, s, None, fuel, k);
  }
}
