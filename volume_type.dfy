// libvsmbr_volume_type.c: the volume type descriptions, an older table of
// 91 type values closed by the sentinel row "Unknown". It differs from the
// partition type table in places: 0x07 reads "HPFS/NTFS", 0xaf "MacOS-X",
// and 0x27 has no row. The rows are given as in the partition type table.

module VolumeType {
  import opened Common
  import opened TypeTable
  import PartitionType

  /** The type value of row i of the table in libvsmbr_volume_type.c, lines 30-122,
      in blocks of 16 rows; row 91, and every row outside the table, holds
      the sentinel. */
  function Key(i: int): uint16 {
    if i < 16 then
      match i
        case 0 => 0x00
        case 1 => 0x01
        case 2 => 0x02
        case 3 => 0x03
        case 4 => 0x04
        case 5 => 0x05
        case 6 => 0x06
        case 7 => 0x07
        case 8 => 0x08
        case 9 => 0x09
        case 10 => 0x0a
        case 11 => 0x0b
        case 12 => 0x0c
        case 13 => 0x0e
        case 14 => 0x0f
        case 15 => 0x10
        case _ => Sentinel
    else if i < 32 then
      match i
        case 16 => 0x11
        case 17 => 0x12
        case 18 => 0x14
        case 19 => 0x16
        case 20 => 0x17
        case 21 => 0x18
        case 22 => 0x1b
        case 23 => 0x1c
        case 24 => 0x1e
        case 25 => 0x24
        case 26 => 0x39
        case 27 => 0x3c
        case 28 => 0x40
        case 29 => 0x41
        case 30 => 0x42
        case 31 => 0x4d
        case _ => Sentinel
    else if i < 48 then
      match i
        case 32 => 0x4e
        case 33 => 0x4f
        case 34 => 0x50
        case 35 => 0x51
        case 36 => 0x52
        case 37 => 0x53
        case 38 => 0x54
        case 39 => 0x55
        case 40 => 0x56
        case 41 => 0x5c
        case 42 => 0x61
        case 43 => 0x63
        case 44 => 0x64
        case 45 => 0x65
        case 46 => 0x70
        case 47 => 0x75
        case _ => Sentinel
    else if i < 64 then
      match i
        case 48 => 0x78
        case 49 => 0x80
        case 50 => 0x81
        case 51 => 0x82
        case 52 => 0x83
        case 53 => 0x84
        case 54 => 0x85
        case 55 => 0x86
        case 56 => 0x87
        case 57 => 0x8e
        case 58 => 0x93
        case 59 => 0x94
        case 60 => 0x9f
        case 61 => 0xa0
        case 62 => 0xa5
        case 63 => 0xa6
        case _ => Sentinel
    else if i < 80 then
      match i
        case 64 => 0xa7
        case 65 => 0xa9
        case 66 => 0xaf
        case 67 => 0xb7
        case 68 => 0xb8
        case 69 => 0xbb
        case 70 => 0xc1
        case 71 => 0xc4
        case 72 => 0xc6
        case 73 => 0xc7
        case 74 => 0xda
        case 75 => 0xdb
        case 76 => 0xde
        case 77 => 0xdf
        case 78 => 0xe1
        case 79 => 0xe3
        case _ => Sentinel
    else if i < 91 then
      match i
        case 80 => 0xe4
        case 81 => 0xeb
        case 82 => 0xee
        case 83 => 0xef
        case 84 => 0xf0
        case 85 => 0xf1
        case 86 => 0xf4
        case 87 => 0xf2
        case 88 => 0xfd
        case 89 => 0xfe
        case 90 => 0xff
        case _ => Sentinel
    else Sentinel
  }

  /** The description of row i; the sentinel row reads "Unknown". */
  function Description(i: int): string {
    if i < 16 then
      match i
        case 0 => "Empty"
        case 1 => "FAT12 (CHS)"
        case 2 => "XENIX root"
        case 3 => "XENIX user"
        case 4 => "FAT16 < 32 MiB (CHS)"
        case 5 => "Extended (CHS)"
        case 6 => "FAT16 (CHS)"
        case 7 => "HPFS/NTFS"
        case 8 => "AIX"
        case 9 => "AIX bootable"
        case 10 => "OS/2 Boot Manager"
        case 11 => "FAT32 (CHS)"
        case 12 => "FAT32 (LBA)"
        case 13 => "FAT16 (LBA)"
        case 14 => "Extended (LBA)"
        case 15 => "OPUS"
        case _ => "Unknown"
    else if i < 32 then
      match i
        case 16 => "Hidden FAT12 (CHS)"
        case 17 => "Compaq diagnostics"
        case 18 => "Hidden FAT16 < 32 MiB (CHS)"
        case 19 => "Hidden FAT16 (CHS)"
        case 20 => "Hidden HPFS/NTFS"
        case 21 => "AST SmartSleep"
        case 22 => "Hidden FAT32 (CHS)"
        case 23 => "Hidden FAT32 (LBA)"
        case 24 => "Hidden FAT16 (LBA)"
        case 25 => "NEC DOS"
        case 26 => "Plan 9"
        case 27 => "PartitionMagic recovery"
        case 28 => "Venix 80286"
        case 29 => "PPC PReP Boot"
        case 30 => "SFS / MS LDM"
        case 31 => "QNX4.x"
        case _ => "Unknown"
    else if i < 48 then
      match i
        case 32 => "QNX4.x 2nd part"
        case 33 => "QNX4.x 3rd part"
        case 34 => "OnTrack DM"
        case 35 => "OnTrack DM6 Aux1"
        case 36 => "CP/M"
        case 37 => "OnTrack DM6 Aux3"
        case 38 => "OnTrackDM6"
        case 39 => "EZ-Drive"
        case 40 => "Golden Bow"
        case 41 => "Priam Edisk"
        case 42 => "SpeedStor"
        case 43 => "GNU HURD or SysV"
        case 44 => "Novell Netware 286"
        case 45 => "Novell Netware 386"
        case 46 => "DiskSecure Multi-Boot"
        case 47 => "PC/IX"
        case _ => "Unknown"
    else if i < 64 then
      match i
        case 48 => "XOSL"
        case 49 => "Old Minix"
        case 50 => "Minix / old Linux"
        case 51 => "Linux swap / Solaris"
        case 52 => "Linux"
        case 53 => "OS/2 hidden C: drive"
        case 54 => "Linux extended"
        case 55 => "NTFS volume set"
        case 56 => "NTFS volume set"
        case 57 => "Linux LVM"
        case 58 => "Amoeba"
        case 59 => "Amoeba BBT"
        case 60 => "BSD/OS"
        case 61 => "IBM Thinkpad hibernation"
        case 62 => "FreeBSD"
        case 63 => "OpenBSD"
        case _ => "Unknown"
    else if i < 80 then
      match i
        case 64 => "NeXTSTEP"
        case 65 => "NetBSD"
        case 66 => "MacOS-X"
        case 67 => "BSDI fs"
        case 68 => "BSDI swap"
        case 69 => "Boot Wizard hidden"
        case 70 => "DRDOS/sec (FAT-12)"
        case 71 => "DRDOS/sec (FAT-16 < 32 MiB)"
        case 72 => "DRDOS/sec (FAT-16)"
        case 73 => "Syrinx"
        case 74 => "Non-FS data"
        case 75 => "CP/M / CTOS / ..."
        case 76 => "Dell Utility"
        case 77 => "BootIt"
        case 78 => "DOS access"
        case 79 => "DOS R/O"
        case _ => "Unknown"
    else if i < 91 then
      match i
        case 80 => "SpeedStor"
        case 81 => "BeOS fs"
        case 82 => "EFI GPT protective"
        case 83 => "EFI System (FAT)"
        case 84 => "Linux/PA-RISC boot"
        case 85 => "SpeedStor"
        case 86 => "SpeedStor"
        case 87 => "DOS secondary"
        case 88 => "Linux raid autodetect"
        case 89 => "LANstep"
        case 90 => "BBT"
        case _ => "Unknown"
    else "Unknown"
  }

  const RowCount: nat := 92

  /** The table the lookup scans, row by row. */
  const VolumeTypes: seq<TypeDescription> := seq(RowCount, i => TypeDescription(Key(i), Description(i)))

  lemma VolumeTypesTerminated()
    ensures Terminated(VolumeTypes) && |VolumeTypes| == RowCount
  {
  }

  /** When row k is the first to hold the type or the sentinel, the lookup
      returns row k's description. */
  lemma DescribedAt(t: uint8, k: nat)
    requires k < RowCount && (Key(k) == t || Key(k) == Sentinel)
    requires forall j :: 0 <= j < k ==> Key(j) != t && Key(j) != Sentinel
    ensures Terminated(VolumeTypes) && Describe(VolumeTypes, t) == Description(k)
  {
    VolumeTypesTerminated();
    DescribeFirst(VolumeTypes, t, k);
  }

  /** libvsmbr_volume_type_get_description: the description of the first row
      holding the type, or "Unknown" from the sentinel row. */
  method GetDescription(volumeType: uint8) returns (description: string)
    ensures exists k :: 0 <= k < RowCount && (Key(k) == volumeType || Key(k) == Sentinel)
                        && description == Description(k)
    ensures description == Describe(VolumeTypes, volumeType)
  {
    VolumeTypesTerminated();
    description := Lookup(VolumeTypes, volumeType);
    DescribeFromRow(VolumeTypes, volumeType);
  }

  /** The type values ascend from row to row up to the row of 0xf4. */
  lemma KeysAscendBeforeSwap()
    ensures forall m :: 0 <= m < 85 ==> Key(m) < Key(m + 1)
  {
  }

  /** Read with the rows of 0xf4 and 0xf2 exchanged, the type values ascend
      through the table. */
  lemma KeysAscend()
    ensures forall m :: 0 <= m < RowCount - 2 ==> VolumeTypes[Swap(m, 86)].key < VolumeTypes[Swap(m + 1, 86)].key
  {
    KeysAscendBeforeSwap();
    assert Key(85) < Key(87) < Key(86) < Key(88);
    assert forall m :: 88 <= m < RowCount - 2 ==> Key(m) < Key(m + 1);
  }

  /** No type value has two rows. */
  lemma KeysDistinct()
    ensures forall i, j :: 0 <= i < j < RowCount - 1 ==> VolumeTypes[i].key != VolumeTypes[j].key
  {
    KeysAscend();
    DistinctKeys(VolumeTypes, RowCount - 1, 86);
  }

  /** Every row before the sentinel holds a byte value. */
  lemma KeysAreBytes()
    ensures forall j :: 0 <= j < RowCount - 1 ==> VolumeTypes[j].key < 0x100
  {
  }

  /** A type that has a row is described by that row. */
  lemma ListedDescribed(k: nat)
    requires k < RowCount - 1
    ensures Key(k) < 0x100 && Terminated(VolumeTypes)
    ensures Describe(VolumeTypes, Key(k) as uint8) == Description(k)
  {
    VolumeTypesTerminated();
    KeysDistinct();
    KeysAreBytes();
    DescribeFirst(VolumeTypes, Key(k) as uint8, k);
  }

  /** A type that has no row is described as "Unknown". */
  lemma UnlistedUnknown(t: uint8)
    requires forall j :: 0 <= j < RowCount - 1 ==> Key(j) != t
    ensures Terminated(VolumeTypes) && Describe(VolumeTypes, t) == "Unknown"
  {
    VolumeTypesTerminated();
    KeysAreBytes();
    DescribeFirst(VolumeTypes, t, RowCount - 1);
  }

  /** The extended partition type with CHS addressing. */
  lemma ExtendedChsDescribed()
    ensures Terminated(VolumeTypes) && Describe(VolumeTypes, 0x05) == "Extended (CHS)"
  {
    assert forall j :: 0 <= j < 5 ==> Key(j) != 0x05 && Key(j) != Sentinel;
    DescribedAt(0x05, 5);
  }

  /** The extended partition type with LBA addressing. */
  lemma ExtendedLbaDescribed()
    ensures Terminated(VolumeTypes) && Describe(VolumeTypes, 0x0f) == "Extended (LBA)"
  {
    assert forall j :: 0 <= j < 14 ==> Key(j) != 0x0f && Key(j) != Sentinel;
    DescribedAt(0x0f, 14);
  }

  /** The type of NTFS volumes, without exFAT here. */
  lemma NtfsDescribed()
    ensures Terminated(VolumeTypes) && Describe(VolumeTypes, 0x07) == "HPFS/NTFS"
  {
    assert forall j :: 0 <= j < 7 ==> Key(j) != 0x07 && Key(j) != Sentinel;
    DescribedAt(0x07, 7);
  }

  /** 0xaf, which this table calls "MacOS-X". */
  lemma MacOsDescribed()
    ensures Terminated(VolumeTypes) && Describe(VolumeTypes, 0xaf) == "MacOS-X"
  {
    assert forall j :: 0 <= j < 66 ==> Key(j) != 0xaf && Key(j) != Sentinel;
    DescribedAt(0xaf, 66);
  }

  /** 0x27 has no row here: the scan reaches the sentinel. */
  lemma WinReUnlisted()
    ensures Terminated(VolumeTypes) && Describe(VolumeTypes, 0x27) == "Unknown"
  {
    assert forall j :: 0 <= j < 91 ==> Key(j) != 0x27 && Key(j) != Sentinel;
    DescribedAt(0x27, 91);
  }

  /** 0x27 is "Unknown" to this table, while the partition type table
      describes it. */
  lemma TablesDisagreeOn27()
    ensures Terminated(VolumeTypes) && Terminated(PartitionType.PartitionTypes)
    ensures Describe(VolumeTypes, 0x27) != Describe(PartitionType.PartitionTypes, 0x27)
  {
    WinReUnlisted();
    PartitionType.WinReDescribed();
  }

  /** The two tables describe 0x07 differently too. */
  lemma TablesDisagreeOnNtfs()
    ensures Terminated(VolumeTypes) && Terminated(PartitionType.PartitionTypes)
    ensures Describe(VolumeTypes, 0x07) != Describe(PartitionType.PartitionTypes, 0x07)
  {
    NtfsDescribed();
    PartitionType.NtfsDescribed();
  }
}
