/** The reader itself: a FILE handle positioned in the image, the two
    global boot records it fills, and what it prints. The image is the
    content of the opened file; the handle's position is `pos`; standard
    output is `output`, the print calls made so far (Dump.Render gives
    their text). */
module Reader {
  import opened Bytes
  import opened Layout
  import opened Dump
  import opened Report

  /** How many root-directory entries read_root_directory reads. */
  const RootEntriesRead: nat := 3

  /** The `count` consecutive directory entries stored from `start` on;
      entry k is decoded from the 32 bytes at start + 32 * k. */
  function RootEntries(image: seq<byte>, start: nat, count: nat): (es: seq<DirectoryEntry>)
    requires start + DirectoryEntrySize * count <= |image|
    ensures |es| == count
    ensures forall k :: 0 <= k < count ==> es[k] == EntryAt(image, start, k)
  {
    seq(count, k requires 0 <= k < count => EntryAt(image, start, k))
  }

  /** The bytes of several entries laid end to end, as they sit on disk. */
  function EncodeEntries(es: seq<DirectoryEntry>): (b: seq<byte>)
    requires forall k :: 0 <= k < |es| ==> es[k].WellFormed()
    ensures |b| == DirectoryEntrySize * |es|
    decreases |es|
  {
    if es == [] then [] else EncodeEntries(es[..|es| - 1]) + EncodeDirectoryEntry(es[|es| - 1])
  }

  /** The entries read from `start` account for every byte of the region
      they were read from, in order: re-encoding them gives that region back. */
  lemma RootEntriesCoverImage(image: seq<byte>, start: nat, count: nat)
    requires start + DirectoryEntrySize * count <= |image|
    ensures EncodeEntries(RootEntries(image, start, count))
         == image[start..start + DirectoryEntrySize * count]
  {
    var es := RootEntries(image, start, count);
    forall k | 0 <= k < count
      ensures EncodeDirectoryEntry(es[k])
           == image[start + DirectoryEntrySize * k..start + DirectoryEntrySize * (k + 1)]
    {
      EntryAtEncodes(image, start, k);
    }
    EncodeEntriesCover(image, start, es);
  }

  /** Entries whose encodings sit one after another from `start` encode,
      together, to the whole region they span. */
  lemma {:induction false} EncodeEntriesCover(image: seq<byte>, start: nat, es: seq<DirectoryEntry>)
    requires start + DirectoryEntrySize * |es| <= |image|
    requires forall k :: 0 <= k < |es| ==> es[k].WellFormed()
    requires forall k :: 0 <= k < |es| ==>
               EncodeDirectoryEntry(es[k])
               == image[start + DirectoryEntrySize * k..start + DirectoryEntrySize * (k + 1)]
    ensures EncodeEntries(es) == image[start..start + DirectoryEntrySize * |es|]
    decreases |es|
  {
    if es != [] {
      var n := |es| - 1;
      var lo, hi := start + DirectoryEntrySize * n, start + DirectoryEntrySize * (n + 1);
      EncodeEntriesCover(image, start, es[..n]);
      assert EncodeEntries(es) == EncodeEntries(es[..n]) + EncodeDirectoryEntry(es[n]);
      assert image[start..hi] == image[start..lo] + image[lo..hi];
    }
  }

  /** Re-encoding an entry read from the image gives back its 32 bytes. */
  lemma EntryAtEncodes(image: seq<byte>, start: nat, k: nat)
    requires start + DirectoryEntrySize * (k + 1) <= |image|
    ensures EncodeDirectoryEntry(EntryAt(image, start, k))
         == image[start + DirectoryEntrySize * k..start + DirectoryEntrySize * (k + 1)]
  {
    DirectoryEntryEncodeDecode(image[start + DirectoryEntrySize * k..start + DirectoryEntrySize * (k + 1)]);
  }

  lemma RootEntriesSnoc(image: seq<byte>, start: nat, count: nat)
    requires start + DirectoryEntrySize * (count + 1) <= |image|
    ensures RootEntries(image, start, count + 1)
         == RootEntries(image, start, count) + [EntryAt(image, start, count)]
  {
  }

  lemma EntriesOutputSnoc(es: seq<DirectoryEntry>, e: DirectoryEntry)
    ensures EntriesOutput(es + [e]) == EntriesOutput(es) + EntryOutput(e)
  {
    assert (es + [e])[..|es|] == es;
  }

  /** The directory entry stored k entries after `start`. */
  function EntryAt(image: seq<byte>, start: nat, k: nat): (e: DirectoryEntry)
    requires start + DirectoryEntrySize * (k + 1) <= |image|
    ensures e.WellFormed()
  {
    DecodeDirectoryEntry(image[start + DirectoryEntrySize * k..start + DirectoryEntrySize * (k + 1)])
  }

  class DiskReader {
    const image: seq<byte>
    var pos: nat
    var bootRecord: BootRecord
    var extendedBootRecord: ExtendedBootRecord
    var output: seq<Output>

    /** open_disk_img on a file that opened: the handle is at offset 0 and
        the global records hold the zero bytes of C static storage. */
    constructor (image: seq<byte>)
      ensures this.image == image && pos == 0 && output == []
      ensures bootRecord == BootRecord(seq(3, _ => 0), seq(8, _ => 0), 0, 0, 0, 0, 0, 0, 0, 0, 0, 0, 0, 0)
      ensures extendedBootRecord
           == ExtendedBootRecord(0, 0, 0, 0, seq(11, _ => 0), seq(8, _ => 0), seq(448, _ => 0), 0)
    {
      this.image := image;
      pos := 0;
      bootRecord := BootRecord(seq(3, _ => 0), seq(8, _ => 0), 0, 0, 0, 0, 0, 0, 0, 0, 0, 0, 0, 0);
      extendedBootRecord := ExtendedBootRecord(0, 0, 0, 0, seq(11, _ => 0), seq(8, _ => 0), seq(448, _ => 0), 0);
      output := [];
    }

    /** read_boot_drive_section: two freads fill the global records from the
        next 36 and 476 bytes, then a few of their fields are dumped. */
    method ReadBootDriveSection()
      requires pos + HeaderSize <= |image|
      modifies this
      ensures pos == old(pos) + HeaderSize
      ensures bootRecord == DecodeBootRecord(image[old(pos)..old(pos) + BootRecordSize])
      ensures extendedBootRecord
           == DecodeExtendedBootRecord(image[old(pos) + BootRecordSize..old(pos) + HeaderSize])
      ensures output == old(output) + BootSectionOutput(bootRecord, extendedBootRecord)
    {
      bootRecord := DecodeBootRecord(image[pos..pos + BootRecordSize]);
      pos := pos + BootRecordSize;
      extendedBootRecord := DecodeExtendedBootRecord(image[pos..pos + ExtendedBootRecordSize]);
      pos := pos + ExtendedBootRecordSize;
      output := output + BootSectionOutput(bootRecord, extendedBootRecord);
    }

    /** read_file_allocation_table_section: seek forward over every table
        copy without reading anything. */
    method ReadFileAllocationTableSection()
      modifies this`pos
      ensures pos == old(pos) + FatTableSize(bootRecord)
    {
      var fatTableSize := FatTableSize(bootRecord);
      pos := pos + fatTableSize;
    }

    /** One pass of read_root_directory's loop: fread the next 32 bytes
        into `entry`, then print_directory_entry. */
    method ReadDirectoryEntry() returns (entry: DirectoryEntry)
      requires pos + DirectoryEntrySize <= |image|
      modifies this`pos, this`output
      ensures pos == old(pos) + DirectoryEntrySize
      ensures entry == DecodeDirectoryEntry(image[old(pos)..old(pos) + DirectoryEntrySize])
      ensures output == old(output) + EntryOutput(entry)
    {
      entry := DecodeDirectoryEntry(image[pos..pos + DirectoryEntrySize]);
      pos := pos + DirectoryEntrySize;
      output := output + EntryOutput(entry);
    }

    /** read_root_directory: three consecutive entries, each dumped as it is
        read. Returns the entries the loop read. */
    method ReadRootDirectory() returns (entries: seq<DirectoryEntry>)
      requires pos + DirectoryEntrySize * RootEntriesRead <= |image|
      modifies this`pos, this`output
      ensures pos == old(pos) + DirectoryEntrySize * RootEntriesRead
      ensures entries == RootEntries(image, old(pos), RootEntriesRead)
      ensures output == old(output) + EntriesOutput(entries)
    {
      entries := [];
      ghost var start, printed := pos, output;
      for i := 0 to RootEntriesRead
        invariant pos == start + DirectoryEntrySize * i
        invariant entries == RootEntries(image, start, i)
        invariant output == printed + EntriesOutput(entries)
      {
        ghost var lo, hi := start + DirectoryEntrySize * i, start + DirectoryEntrySize * (i + 1);
        assert pos == lo && pos + DirectoryEntrySize == hi <= |image|;
        ghost var before := output;
        var entry := ReadDirectoryEntry();
        assert entry == DecodeDirectoryEntry(image[lo..hi]) == EntryAt(image, start, i);
        assert output == before + EntryOutput(entry);
        EntriesOutputSnoc(entries, entry);
        AppendAssoc(printed, EntriesOutput(entries), EntryOutput(entry));
        RootEntriesSnoc(image, start, i);
        entries := entries + [entry];
      }
    }
  }

  /** The image is long enough for every fread main makes: the 512-byte
      header and the three entries after the skipped tables. */
  predicate CoversReads(image: seq<byte>)
  {
    HeaderSize <= |image| && RootDirectoryStart(image) + DirectoryEntrySize * RootEntriesRead <= |image|
  }

  /** Where a run reads the root directory: after the header and the tables
      that image's BPB describes. */
  function RootDirectoryStart(image: seq<byte>): nat
    requires BootRecordSize <= |image|
  {
    ReaderRootDirectoryOffset(DecodeBootRecord(image[..BootRecordSize]))
  }

  /** Every print call of a full run after the banner: the boot-sector dump
      of the header, then the dumps of the three entries that start right
      after the allocation tables. */
  function SessionOutput(image: seq<byte>): seq<Output>
    requires CoversReads(image)
  {
    var br := DecodeBootRecord(image[..BootRecordSize]);
    var ebr := DecodeExtendedBootRecord(image[BootRecordSize..HeaderSize]);
    BootSectionOutput(br, ebr)
      + EntriesOutput(RootEntries(image, RootDirectoryStart(image), RootEntriesRead))
  }

  /** The dumps of three entries read from `start` are the raw dumps of
      the three 32-byte records stored there. */
  lemma ThreeEntriesShowImageBytes(image: seq<byte>, start: nat)
    requires start + DirectoryEntrySize * RootEntriesRead <= |image|
    ensures EntriesOutput(RootEntries(image, start, RootEntriesRead))
         == EntryDump(image[start..start + 32])
          + EntryDump(image[start + 32..start + 64])
          + EntryDump(image[start + 64..start + 96])
  {
    var e0, e1, e2 := EntryAt(image, start, 0), EntryAt(image, start, 1), EntryAt(image, start, 2);
    assert RootEntries(image, start, RootEntriesRead) == [] + [e0] + [e1] + [e2];
    EntriesOutputSnoc([], e0);
    EntriesOutputSnoc([e0], e1);
    EntriesOutputSnoc([e0, e1], e2);
    assert [] + [e0] == [e0] && [e0] + [e1] == [e0, e1] && [e0, e1] + [e2] == [e0, e1, e2];
    EntryOutputShowsImageBytes(image[start..start + 32]);
    EntryOutputShowsImageBytes(image[start + 32..start + 64]);
    EntryOutputShowsImageBytes(image[start + 64..start + 96]);
  }

  /** The boot-sector part of a run's output, in terms of the header bytes. */
  lemma SessionOutputHeader(image: seq<byte>)
    requires CoversReads(image)
    ensures SessionOutput(image)
         == HeaderDump(image[..HeaderSize])
          + EntriesOutput(RootEntries(image, RootDirectoryStart(image), RootEntriesRead))
  {
    var h := image[..HeaderSize];
    assert h[..BootRecordSize] == image[..BootRecordSize];
    assert h[BootRecordSize..] == image[BootRecordSize..HeaderSize];
    BootSectionOutputShowsImageBytes(h);
  }

  /** Everything a full run prints after the banner, in terms of the image
      bytes alone: the boot-sector dump of bytes 0..511, then the raw dumps
      of the three 32-byte records that start right after the header and
      the fat_count * sectors_per_fat * bytes_per_sector bytes of tables,
      those three fields being read from bytes 16, 22..23 and 11..12. */
  lemma SessionOutputShowsImageBytes(image: seq<byte>)
    requires CoversReads(image)
    ensures RootDirectoryStart(image)
         == 512 + image[16] * (image[22] + 256 * (image[23] as int)) * (image[11] + 256 * (image[12] as int))
    ensures var s := RootDirectoryStart(image);
      SessionOutput(image)
         == HeaderDump(image[..HeaderSize])
          + EntryDump(image[s..s + 32]) + EntryDump(image[s + 32..s + 64])
          + EntryDump(image[s + 64..s + 96])
  {
    FatTableSizeFromBytes(image);
    var s := RootDirectoryStart(image);
    SessionOutputHeader(image);
    ThreeEntriesShowImageBytes(image, s);
    var e0, e1, e2 := EntryDump(image[s..s + 32]), EntryDump(image[s + 32..s + 64]),
                      EntryDump(image[s + 64..s + 96]);
    AppendAssoc(HeaderDump(image[..HeaderSize]), e0 + e1, e2);
    AppendAssoc(HeaderDump(image[..HeaderSize]), e0, e1);
  }

  /** The three reads main makes on an opened image, in order; returns
      every print call they make. */
  method ReadImage(image: seq<byte>) returns (trace: seq<Output>)
    requires CoversReads(image)
    ensures trace == SessionOutput(image)
  {
    var reader := new DiskReader(image);
    reader.ReadBootDriveSection();
    ghost var br, ebr := reader.bootRecord, reader.extendedBootRecord;
    assert reader.pos == HeaderSize;
    assert image[0..BootRecordSize] == image[..BootRecordSize];
    assert br == DecodeBootRecord(image[0..BootRecordSize]);
    assert ebr == DecodeExtendedBootRecord(image[BootRecordSize..HeaderSize]);
    reader.ReadFileAllocationTableSection();
    assert reader.pos == ReaderRootDirectoryOffset(br);
    var entries := reader.ReadRootDirectory();
    assert reader.output == [] + BootSectionOutput(br, ebr) + EntriesOutput(entries);
    trace := reader.output;
  }

  /** main, with argv == [programName] + args and `image` the content of
      the file args[0] names; returns the exit status and the text written
      to standard output. With any argument count other than one it prints
      the usage message and returns 1 without reading the image. */
  method Execute(programName: string, args: seq<string>, image: seq<byte>)
    returns (status: int, text: string)
    requires |args| == 1 ==> CoversReads(image)
    ensures |args| != 1 ==> status == 1 && text == "Usage: " + programName + " <image_file_path>\n"
    ensures |args| == 1 ==>
      status == 0 && text == "\nImage file path: " + args[0] + "\n\n" + Render(SessionOutput(image))
  {
    if |args| != 1 {
      return 1, "Usage: " + programName + " <image_file_path>\n";
    }
    var trace := ReadImage(image);
    status, text := 0, "\nImage file path: " + args[0] + "\n\n" + Render(trace);
  }
}
