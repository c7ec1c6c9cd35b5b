// The two partition-table walks side by side on one image: a master boot
// record whose first entry (type 0x05, LBA 1) points to an extended
// partition record at byte 512 whose own 0x05 entry has LBA 0, that is,
// points back to itself. The walk of libvsmbr_handle.c follows that link
// forever; the walk of libvsmbr_volume.c refuses it.

module ChainComparison {
  import opened Common
  import PE = PartitionEntry
  import BR = BootRecord
  import Handle
  import Volume
  import VolumeProperties

  const EmptyEntries: seq<PE.PartitionEntry> :=
    [PE.PartitionEntry(1, 0, 0, 0, 0), PE.PartitionEntry(2, 0, 0, 0, 0), PE.PartitionEntry(3, 0, 0, 0, 0)]

  /** The master boot record: an extended partition at LBA 1. */
  const MasterEntries: seq<PE.PartitionEntry> := [PE.PartitionEntry(0, 0, 0x05, 1, 0)] + EmptyEntries

  /** The extended partition record: an extended partition at LBA 0. */
  const ExtendedEntries: seq<PE.PartitionEntry> := [PE.PartitionEntry(0, 0, 0x05, 0, 0)] + EmptyEntries

  function Sector(entries: seq<PE.PartitionEntry>): seq<uint8>
    requires |entries| == 4
  {
    BR.EncodeSector(seq(440, _ => 0), 0, [0, 0], entries, seq(24, _ => 0))
  }

  /** Two sectors: the master boot record, then the extended partition record. */
  function SelfLinkedImage(): (bytes: seq<uint8>)
    ensures |bytes| == 1024
  {
    Sector(MasterEntries) + Sector(ExtendedEntries)
  }

  lemma SelfLinkedImageDecodes()
    ensures BR.ReadBootRecord(SelfLinkedImage(), 0) == Ok(BR.Decoded(0, MasterEntries))
    ensures BR.ReadBootRecord(SelfLinkedImage(), 512) == Ok(BR.Decoded(0, ExtendedEntries))
  {
    var bytes := SelfLinkedImage();
    BR.DecodeEncodedSector(seq(440, _ => 0), 0, [0, 0], MasterEntries, seq(24, _ => 0));
    BR.DecodeEncodedSector(seq(440, _ => 0), 0, [0, 0], ExtendedEntries, seq(24, _ => 0));
    assert bytes[0..512] == Sector(MasterEntries);
    assert bytes[512..1024] == Sector(ExtendedEntries);
  }

  /** An image whose sector at 0 is that master boot record and whose
      sector at 512 is that extended partition record. */
  predicate SelfLinked(bytes: seq<uint8>) {
    BR.ReadBootRecord(bytes, 0) == Ok(BR.Decoded(0, MasterEntries))
    && BR.ReadBootRecord(bytes, 512) == Ok(BR.Decoded(0, ExtendedEntries))
  }

  lemma ExtendedEntriesLinkToThemselves()
    ensures |ExtendedEntries| == 4 && ExtendedEntries[0].startAddressLba == 0
    ensures Handle.IsChainType(ExtendedEntries[0].partitionType) && Volume.IsChainType(ExtendedEntries[0].partitionType)
    ensures forall j :: 1 <= j < 4 ==> ExtendedEntries[j].partitionType == 0
  {
  }

  /** The handle walk of the master boot record: the record at 512 is
      read and becomes the chain; nothing else happens. */
  lemma HandleMasterTable(bytes: seq<uint8>, s: Handle.WalkState, fuel: nat)
    requires BR.ReadBootRecord(bytes, 512).Ok? && s.bytesPerSector == 512 && s.firstPartitionEntry
    ensures Handle.Walk(bytes, 0, MasterEntries, s, fuel)
            == Handle.FollowChain(bytes, s.(firstPartitionEntry := false),
                                  Some(Handle.Link(512, BR.ReadBootRecord(bytes, 512).value.entries)), fuel)
  {
    var step := Handle.ScanEntry(bytes, 0, MasterEntries[0], s, None);
    assert Handle.EntryOffset(0, 1, 512) == 512;
    assert step == Handle.Next(s.(firstPartitionEntry := false),
                               Some(Handle.Link(512, BR.ReadBootRecord(bytes, 512).value.entries)));
    var t := step.state;
    assert |MasterEntries| == 4 && MasterEntries[1].partitionType == 0 && MasterEntries[2].partitionType == 0
           && MasterEntries[3].partitionType == 0;
    var chain := step.chain;
    assert Handle.Walk(bytes, 0, MasterEntries, s, fuel) == Handle.Scan(bytes, 0, MasterEntries, 1, t, chain, fuel);
    assert Handle.Scan(bytes, 0, MasterEntries, 1, t, chain, fuel) == Handle.Scan(bytes, 0, MasterEntries, 2, t, chain, fuel);
    assert Handle.Scan(bytes, 0, MasterEntries, 2, t, chain, fuel) == Handle.Scan(bytes, 0, MasterEntries, 3, t, chain, fuel);
    assert Handle.Scan(bytes, 0, MasterEntries, 3, t, chain, fuel) == Handle.Scan(bytes, 0, MasterEntries, 4, t, chain, fuel);
    assert Handle.Scan(bytes, 0, MasterEntries, 4, t, chain, fuel) == Handle.FollowChain(bytes, t, chain, fuel);
  }

  /** The handle walk follows the record at 512 to itself without end. */
  lemma HandleChainDiverges(bytes: seq<uint8>, t: Handle.WalkState, fuel: nat)
    requires BR.ReadBootRecord(bytes, 512).Ok? && BR.ReadBootRecord(bytes, 512).value.entries == ExtendedEntries
    ensures Handle.FollowChain(bytes, t, Some(Handle.Link(512, ExtendedEntries)), fuel) == Handle.OutOfFuel
  {
    if fuel > 0 {
      ExtendedEntriesLinkToThemselves();
      Handle.WalkSelfLink(bytes, 512, ExtendedEntries, t, fuel - 1, 0);
    }
  }

  /** As written, the handle walk does not finish on such an image within
      any fuel: opened with the initial 512-byte sectors it follows the
      record at 512 to itself without end. */
  lemma HandleWalkDiverges(bytes: seq<uint8>, s: Handle.WalkState, fuel: nat)
    requires SelfLinked(bytes) && s.bytesPerSector == 512
    ensures Handle.OpenRead(bytes, s, fuel) == Handle.OutOfFuel
  {
    var start := s.(firstPartitionEntry := true);
    var t := start.(firstPartitionEntry := false);
    HandleMasterTable(bytes, start, fuel);
    HandleChainDiverges(bytes, t, fuel);
    assert Handle.Walk(bytes, 0, MasterEntries, start, fuel) == Handle.OutOfFuel;
  }

  /** The volume walk of the master boot record at depth 0. */
  lemma VolumeMasterTable(bytes: seq<uint8>, s: Volume.WalkState)
    requires BR.ReadBootRecord(bytes, 512).Ok? && s.bytesPerSector == 512
    ensures Volume.Walk(bytes, 0, MasterEntries, true, 0, s)
            == Volume.FollowChain(bytes, 0, 0, s.(bytesPerSectorSetByLibrary := true),
                                  Some(Volume.Link(512, BR.ReadBootRecord(bytes, 512).value.entries)))
  {
    var step := Volume.ScanEntry(bytes, 0, MasterEntries[0], true, s, None);
    assert Volume.RecordOffset(0, 1, 512) == 512;
    var t := step.state;
    assert MasterEntries[1].partitionType == 0 && MasterEntries[2].partitionType == 0
           && MasterEntries[3].partitionType == 0;
    assert Volume.Walk(bytes, 0, MasterEntries, true, 0, s)
           == Volume.Scan(bytes, 0, MasterEntries, true, 0, 1, t, step.chain)
           == Volume.Scan(bytes, 0, MasterEntries, true, 0, 2, t, step.chain)
           == Volume.Scan(bytes, 0, MasterEntries, true, 0, 3, t, step.chain)
           == Volume.FollowChain(bytes, 0, 0, t, step.chain);
  }

  /** At depth 1 the volume walk refuses the record at 512, which links
      to itself; the failure reaches depth 0 as a read error. */
  lemma VolumeChainRejected(bytes: seq<uint8>, t: Volume.WalkState)
    requires BR.ReadBootRecord(bytes, 512).Ok? && BR.ReadBootRecord(bytes, 512).value.entries == ExtendedEntries
    requires t.bytesPerSector > 0
    ensures Volume.FollowChain(bytes, 0, 0, t, Some(Volume.Link(512, ExtendedEntries))).result
            == Err(Error(Io, ReadFailed))
  {
    ExtendedEntriesLinkToThemselves();
    VolumeProperties.WalkRejectsSelfLink(bytes, 512, ExtendedEntries, false, 1, t, 0);
  }

  /** The volume walk, which is the one the library uses, rejects such an
      image: the link back to its own table is refused and opening fails
      with a read error. */
  lemma VolumeWalkRejects(bytes: seq<uint8>)
    requires SelfLinked(bytes)
    ensures Volume.OpenRead(bytes, VolumeProperties.ClosedState(false)).result == Err(Error(Io, ReadFailed))
  {
    var s := VolumeProperties.ClosedState(false);
    var t := s.(bytesPerSectorSetByLibrary := true);
    VolumeMasterTable(bytes, s);
    VolumeChainRejected(bytes, t);
    assert Volume.Walk(bytes, 0, MasterEntries, true, 0, s).result == Err(Error(Io, ReadFailed));
  }

  /** Such an image exists: the two encoded sectors one after the other. */
  lemma SelfLinkedImageExists()
    ensures SelfLinked(SelfLinkedImage())
  {
    SelfLinkedImageDecodes();
  }
}
