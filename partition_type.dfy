// libvsmbr_partition_type.c: the partition type descriptions, a table of
// 101 type values (not in ascending order: 0xf4 precedes 0xf2) closed by the
// sentinel row "Unknown". The rows are given as two functions of the row
// index, the type value and the description, which the table pairs up.

module PartitionType {
  import opened Common
  import opened TypeTable

  /** The type value of row i of the table in libvsmbr_partition_type.c, lines 30-132,
      in blocks of 16 rows; row 101, and every row outside the table, holds
      the sentinel. */
  function Key(i: int): uint16 {
    if i < 16 then
      match i
        case 0 => 0x00
        case 1 => 0x01
        case 2 => 0x02
        case 3 => 0x03
        case 4 => 0x04
        case 5 => 0x05
        case 6 => 0x06
        case 7 => 0x07
        case 8 => 0x08
        case 9 => 0x09
        case 10 => 0x0a
        case 11 => 0x0b
        case 12 => 0x0c
        case 13 => 0x0e
        case 14 => 0x0f
        case 15 => 0x10
        case _ => Sentinel
    else if i < 32 then
      match i
        case 16 => 0x11
        case 17 => 0x12
        case 18 => 0x14
        case 19 => 0x16
        case 20 => 0x17
        case 21 => 0x18
        case 22 => 0x1b
        case 23 => 0x1c
        case 24 => 0x1e
        case 25 => 0x24
        case 26 => 0x27
        case 27 => 0x39
        case 28 => 0x3c
        case 29 => 0x40
        case 30 => 0x41
        case 31 => 0x42
        case _ => Sentinel
    else if i < 48 then
      match i
        case 32 => 0x4d
        case 33 => 0x4e
        case 34 => 0x4f
        case 35 => 0x50
        case 36 => 0x51
        case 37 => 0x52
        case 38 => 0x53
        case 39 => 0x54
        case 40 => 0x55
        case 41 => 0x56
        case 42 => 0x5c
        case 43 => 0x61
        case 44 => 0x63
        case 45 => 0x64
        case 46 => 0x65
        case 47 => 0x70
        case _ => Sentinel
    else if i < 64 then
      match i
        case 48 => 0x75
        case 49 => 0x78
        case 50 => 0x80
        case 51 => 0x81
        case 52 => 0x82
        case 53 => 0x83
        case 54 => 0x84
        case 55 => 0x85
        case 56 => 0x86
        case 57 => 0x87
        case 58 => 0x88
        case 59 => 0x8e
        case 60 => 0x93
        case 61 => 0x94
        case 62 => 0x9f
        case 63 => 0xa0
        case _ => Sentinel
    else if i < 80 then
      match i
        case 64 => 0xa5
        case 65 => 0xa6
        case 66 => 0xa7
        case 67 => 0xa8
        case 68 => 0xa9
        case 69 => 0xab
        case 70 => 0xaf
        case 71 => 0xb7
        case 72 => 0xb8
        case 73 => 0xbb
        case 74 => 0xbc
        case 75 => 0xbe
        case 76 => 0xbf
        case 77 => 0xc1
        case 78 => 0xc4
        case 79 => 0xc6
        case _ => Sentinel
    else if i < 96 then
      match i
        case 80 => 0xc7
        case 81 => 0xda
        case 82 => 0xdb
        case 83 => 0xde
        case 84 => 0xdf
        case 85 => 0xe1
        case 86 => 0xe3
        case 87 => 0xe4
        case 88 => 0xea
        case 89 => 0xeb
        case 90 => 0xee
        case 91 => 0xef
        case 92 => 0xf0
        case 93 => 0xf1
        case 94 => 0xf4
        case 95 => 0xf2
        case _ => Sentinel
    else if i < 101 then
      match i
        case 96 => 0xfb
        case 97 => 0xfc
        case 98 => 0xfd
        case 99 => 0xfe
        case 100 => 0xff
        case _ => Sentinel
    else Sentinel
  }

  /** The description of row i; the sentinel row reads "Unknown". */
  function Description(i: int): string {
    if i < 16 then
      match i
        case 0 => "Empty"
        case 1 => "FAT12 (CHS)"
        case 2 => "XENIX root"
        case 3 => "XENIX user"
        case 4 => "FAT16 < 32 MiB (CHS)"
        case 5 => "Extended (CHS)"
        case 6 => "FAT16 (CHS)"
        case 7 => "HPFS/NTFS/exFAT"
        case 8 => "AIX"
        case 9 => "AIX bootable"
        case 10 => "OS/2 Boot Manager"
        case 11 => "FAT32 (CHS)"
        case 12 => "FAT32 (LBA)"
        case 13 => "FAT16 (LBA)"
        case 14 => "Extended (LBA)"
        case 15 => "OPUS"
        case _ => "Unknown"
    else if i < 32 then
      match i
        case 16 => "Hidden FAT12 (CHS)"
        case 17 => "Compaq diagnostics"
        case 18 => "Hidden FAT16 < 32 MiB (CHS)"
        case 19 => "Hidden FAT16 (CHS)"
        case 20 => "Hidden HPFS/NTFS"
        case 21 => "AST SmartSleep"
        case 22 => "Hidden FAT32 (CHS)"
        case 23 => "Hidden FAT32 (LBA)"
        case 24 => "Hidden FAT16 (LBA)"
        case 25 => "NEC DOS"
        case 26 => "Hidden NTFS Windows Recovery (WinRE)"
        case 27 => "Plan 9"
        case 28 => "PartitionMagic recovery"
        case 29 => "Venix 80286"
        case 30 => "PPC PReP Boot"
        case 31 => "SFS / LDM"
        case _ => "Unknown"
    else if i < 48 then
      match i
        case 32 => "QNX4.x"
        case 33 => "QNX4.x 2nd part"
        case 34 => "QNX4.x 3rd part"
        case 35 => "OnTrack DM"
        case 36 => "OnTrack DM6 Aux1"
        case 37 => "CP/M"
        case 38 => "OnTrack DM6 Aux3"
        case 39 => "OnTrack DM6"
        case 40 => "EZ-Drive"
        case 41 => "Golden Bow"
        case 42 => "Priam Edisk"
        case 43 => "SpeedStor"
        case 44 => "GNU HURD or SysV"
        case 45 => "Novell Netware 286"
        case 46 => "Novell Netware 386"
        case 47 => "DiskSecure Multi-Boot"
        case _ => "Unknown"
    else if i < 64 then
      match i
        case 48 => "PC/IX"
        case 49 => "XOSL"
        case 50 => "Minix <= 1.4a"
        case 51 => "Minix >= 1.4b / old Linux"
        case 52 => "Linux swap / Solaris"
        case 53 => "Linux"
        case 54 => "OS/2 hidden C: drive / Intel Rabid Start hibernation"
        case 55 => "Linux extended"
        case 56 => "NTFS partition set"
        case 57 => "NTFS partition set"
        case 58 => "Linux plaintext"
        case 59 => "Linux LVM"
        case 60 => "Amoeba"
        case 61 => "Amoeba BBT"
        case 62 => "BSD/OS"
        case 63 => "IBM Thinkpad hibernation"
        case _ => "Unknown"
    else if i < 80 then
      match i
        case 64 => "FreeBSD"
        case 65 => "OpenBSD"
        case 66 => "NeXTSTEP"
        case 67 => "Darwin UFS"
        case 68 => "NetBSD"
        case 69 => "Darwin boot"
        case 70 => "HFS / HFS+"
        case 71 => "BSDI fs"
        case 72 => "BSDI swap"
        case 73 => "Boot Wizard hidden"
        case 74 => "Acronis FAT32 (LBA)"
        case 75 => "Solaris boot"
        case 76 => "Solaris"
        case 77 => "DRDOS/sec (FAT-12)"
        case 78 => "DRDOS/sec (FAT-16 < 32 MiB)"
        case 79 => "DRDOS/sec (FAT-16)"
        case _ => "Unknown"
    else if i < 96 then
      match i
        case 80 => "Syrinx"
        case 81 => "Non-FS data"
        case 82 => "CP/M / CTOS / ..."
        case 83 => "Dell Utility"
        case 84 => "BootIt"
        case 85 => "DOS access"
        case 86 => "DOS R/O"
        case 87 => "SpeedStor"
        case 88 => "Rufus alignment"
        case 89 => "BeOS fs"
        case 90 => "EFI GPT protective"
        case 91 => "EFI System (FAT-12, FAT-16, FAT-32)"
        case 92 => "Linux/PA-RISC boot"
        case 93 => "SpeedStor"
        case 94 => "SpeedStor"
        case 95 => "DOS secondary"
        case _ => "Unknown"
    else if i < 101 then
      match i
        case 96 => "VMware VMFS"
        case 97 => "VMware VMKCORE"
        case 98 => "Linux raid autodetect"
        case 99 => "LANstep"
        case 100 => "BBT"
        case _ => "Unknown"
    else "Unknown"
  }

  const RowCount: nat := 102

  /** The table the lookup scans, row by row. */
  const PartitionTypes: seq<TypeDescription> := seq(RowCount, i => TypeDescription(Key(i), Description(i)))

  lemma PartitionTypesTerminated()
    ensures Terminated(PartitionTypes) && |PartitionTypes| == RowCount
  {
  }

  /** When row k is the first to hold the type or the sentinel, the lookup
      returns row k's description. */
  lemma DescribedAt(t: uint8, k: nat)
    requires k < RowCount && (Key(k) == t || Key(k) == Sentinel)
    requires forall j :: 0 <= j < k ==> Key(j) != t && Key(j) != Sentinel
    ensures Terminated(PartitionTypes) && Describe(PartitionTypes, t) == Description(k)
  {
    PartitionTypesTerminated();
    DescribeFirst(PartitionTypes, t, k);
  }

  /** libvsmbr_partition_type_get_description: the description of the first row
      holding the type, or "Unknown" from the sentinel row. */
  method GetDescription(partitionType: uint8) returns (description: string)
    ensures exists k :: 0 <= k < RowCount && (Key(k) == partitionType || Key(k) == Sentinel)
                        && description == Description(k)
    ensures description == Describe(PartitionTypes, partitionType)
  {
    PartitionTypesTerminated();
    description := Lookup(PartitionTypes, partitionType);
    DescribeFromRow(PartitionTypes, partitionType);
  }

  /** The type values ascend from row to row up to the row of 0xf4. */
  lemma KeysAscendBeforeSwap()
    ensures forall m :: 0 <= m < 93 ==> Key(m) < Key(m + 1)
  {
  }

  /** Read with the rows of 0xf4 and 0xf2 exchanged, the type values ascend
      through the table. */
  lemma KeysAscend()
    ensures forall m :: 0 <= m < RowCount - 2 ==> PartitionTypes[Swap(m, 94)].key < PartitionTypes[Swap(m + 1, 94)].key
  {
    KeysAscendBeforeSwap();
    assert Key(93) < Key(95) < Key(94) < Key(96);
    assert forall m :: 96 <= m < RowCount - 2 ==> Key(m) < Key(m + 1);
  }

  /** No type value has two rows. */
  lemma KeysDistinct()
    ensures forall i, j :: 0 <= i < j < RowCount - 1 ==> PartitionTypes[i].key != PartitionTypes[j].key
  {
    KeysAscend();
    DistinctKeys(PartitionTypes, RowCount - 1, 94);
  }

  /** Every row before the sentinel holds a byte value. */
  lemma KeysAreBytes()
    ensures forall j :: 0 <= j < RowCount - 1 ==> PartitionTypes[j].key < 0x100
  {
  }

  /** A type that has a row is described by that row. */
  lemma ListedDescribed(k: nat)
    requires k < RowCount - 1
    ensures Key(k) < 0x100 && Terminated(PartitionTypes)
    ensures Describe(PartitionTypes, Key(k) as uint8) == Description(k)
  {
    PartitionTypesTerminated();
    KeysDistinct();
    KeysAreBytes();
    DescribeFirst(PartitionTypes, Key(k) as uint8, k);
  }

  /** A type that has no row is described as "Unknown". */
  lemma UnlistedUnknown(t: uint8)
    requires forall j :: 0 <= j < RowCount - 1 ==> Key(j) != t
    ensures Terminated(PartitionTypes) && Describe(PartitionTypes, t) == "Unknown"
  {
    PartitionTypesTerminated();
    KeysAreBytes();
    DescribeFirst(PartitionTypes, t, RowCount - 1);
  }

  /** The extended partition type with CHS addressing. */
  lemma ExtendedChsDescribed()
    ensures Terminated(PartitionTypes) && Describe(PartitionTypes, 0x05) == "Extended (CHS)"
  {
    assert forall j :: 0 <= j < 5 ==> Key(j) != 0x05 && Key(j) != Sentinel;
    DescribedAt(0x05, 5);
  }

  /** The extended partition type with LBA addressing. */
  lemma ExtendedLbaDescribed()
    ensures Terminated(PartitionTypes) && Describe(PartitionTypes, 0x0f) == "Extended (LBA)"
  {
    assert forall j :: 0 <= j < 14 ==> Key(j) != 0x0f && Key(j) != Sentinel;
    DescribedAt(0x0f, 14);
  }

  /** The type of NTFS and exFAT volumes. */
  lemma NtfsDescribed()
    ensures Terminated(PartitionTypes) && Describe(PartitionTypes, 0x07) == "HPFS/NTFS/exFAT"
  {
    assert forall j :: 0 <= j < 7 ==> Key(j) != 0x07 && Key(j) != Sentinel;
    DescribedAt(0x07, 7);
  }

  /** The hidden recovery partition type, which the volume type table lacks. */
  lemma WinReDescribed()
    ensures Terminated(PartitionTypes) && Describe(PartitionTypes, 0x27) == "Hidden NTFS Windows Recovery (WinRE)"
  {
    assert forall j :: 0 <= j < 26 ==> Key(j) != 0x27 && Key(j) != Sentinel;
    DescribedAt(0x27, 26);
  }

  /** The type of HFS volumes, late in the table. */
  lemma HfsDescribed()
    ensures Terminated(PartitionTypes) && Describe(PartitionTypes, 0xaf) == "HFS / HFS+"
  {
    assert forall j :: 0 <= j < 70 ==> Key(j) != 0xaf && Key(j) != Sentinel;
    DescribedAt(0xaf, 70);
  }

  /** 0xf2, which comes after 0xf4: the scan still finds it. */
  lemma SecondaryDescribed()
    ensures Terminated(PartitionTypes) && Describe(PartitionTypes, 0xf2) == "DOS secondary"
  {
    assert forall j :: 0 <= j < 95 ==> Key(j) != 0xf2 && Key(j) != Sentinel;
    DescribedAt(0xf2, 95);
  }

  /** 0x0d has no row: the scan reaches the sentinel. */
  lemma UnlistedDescribed()
    ensures Terminated(PartitionTypes) && Describe(PartitionTypes, 0x0d) == "Unknown"
  {
    assert forall j :: 0 <= j < 101 ==> Key(j) != 0x0d && Key(j) != Sentinel;
    DescribedAt(0x0d, 101);
  }
}
