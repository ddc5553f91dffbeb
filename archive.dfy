/**
 * The archive analyzer (Services/ArchiveSummaryService.cs): lists the
 * entries of a zip or tar archive with their total size, previews the first
 * text-like entry, and describes a single gzip stream by its sizes and a
 * preview of its decompressed start.
 *
 * The archive libraries are inputs: `Libraries` says what the zip and tar
 * readers list for given bytes, what inflating yields, how the chosen text
 * encoding decodes bytes and how a ratio prints as a percentage. A reader
 * that throws is a `Corrupt` value carrying the exception's message.
 *
 * The streams the source reads are lazy: an entry's data stream, the tar
 * reader and the gzip decompressor throw only when they are read. The model
 * keeps that order: a tar archive is the entries `GetNextEntry` returns
 * before it throws, an entry's data is the outcome of reading it, and the
 * preview buffer is rented (and fails for a negative size) before the
 * first read.
 */
module ArchiveSummary {
  import opened Wrappers
  import opened Text
  import opened SummaryContext
  import opened Results
  import opened Streams
  import opened TextTables

  // ---------------------------------------------------------------------
  // What the libraries deliver
  // ---------------------------------------------------------------------

  /** The outcome of a library call: its value, or the message of the exception it threw. */
  datatype Decoded<T> = Decoded(value: T) | Corrupt(message: string)

  /**
   * A zip entry as `ZipArchive` lists it: name, uncompressed and compressed
   * length, the modification time already printed as "yyyy-MM-dd HH:mm",
   * and what reading the stream `Open()` returns gives: the decompressed
   * bytes, or the message of the exception the read throws.
   */
  datatype ZipEntry = ZipEntry(fullName: string, length: nat, compressedLength: nat, modified: string, data: Decoded<seq<Byte>>)

  /**
   * A tar entry as `TarReader` yields it: name, length, its
   * `TarEntryType`, the printed modification time, and what reading its
   * data stream gives, for the entries that have one (directories and
   * links do not).
   */
  datatype TarEntry = TarEntry(name: string, length: nat, entryType: TarEntryType, modified: string, data: Option<Decoded<seq<Byte>>>)

  /**
   * What `GetNextEntry` delivers, through a `GZipStream` for a compressed
   * archive: the entries it returns, in order, and the message of the
   * exception it throws after them (the decompressor's or the reader's), or
   * None when it reaches the end and returns null.
   */
  datatype TarArchive = TarArchive(entries: seq<TarEntry>, failure: Option<string>)

  /** A tar entry's type: only `RegularFile` matters to the summary; every other type keeps its enum name. */
  datatype TarEntryType = RegularFile | OtherType(typeName: string)

  /** The type as `ToString` names it. */
  function TypeName(t: TarEntryType): string
  {
    match t
    case RegularFile => "RegularFile"
    case OtherType(n) => n
  }

  /** The encodings `DecodeText` chooses between. */
  datatype TextEncoding = Utf16LE | Utf16BE | Utf8

  /** Whether a tar archive is read directly or through a gzip decompressor. */
  datatype TarCompression = Uncompressed | Gzip

  datatype Libraries = Libraries(
    readZip: seq<Byte> -> Decoded<seq<ZipEntry>>,
    readTar: (TarCompression, seq<Byte>) -> TarArchive,
    inflate: seq<Byte> -> Decoded<seq<Byte>>,
    decode: (TextEncoding, seq<Byte>) -> string,
    percent: real -> string)

  /** `ArchiveSummaryResult`: the summary text, an optional entry table and an optional preview. */
  datatype ArchiveSummaryResult = ArchiveSummaryResult(summary: string, table: Option<TableSummary>, preview: Option<TextPreview>)

  /** A result that is only a message. */
  function Message(summary: string): (r: ArchiveSummaryResult)
    ensures r.summary == summary && r.table.None? && r.preview.None?
  {
    ArchiveSummaryResult(summary, Option.None, Option.None)
  }

  const ArchiveFailed := "Archive summary failed: "
  const GZipFailed := "GZip summary failed: "
  const EmptyArchive := "Archive is empty."
  const EmptyPreview := "(entry appears binary or empty)"

  /** The message of the exception `ArrayPool.Rent` throws for a negative length. */
  const RentRangeMessage := "Specified argument was out of the range of valid values. (Parameter 'minimumLength')"

  // ---------------------------------------------------------------------
  // Entry names and text decoding
  // ---------------------------------------------------------------------

  const PreviewableExtensions: set<string> := {".txt", ".json", ".csv", ".md", ".xml", ".yml", ".yaml", ".ini", ".log"}

  /** `IsPreviewableTextEntry`: the name's extension, lower-cased, is one of the text extensions. */
  predicate IsPreviewableTextEntry(name: string)
  {
    ToLowerString(GetExtension(name)) in PreviewableExtensions
  }

  /** Lower-casing keeps a suffix a suffix. */
  lemma LowerSuffix(s: string, t: string)
    requires EndsWith(s, t)
    ensures EndsWith(ToLowerString(s), ToLowerString(t))
  {
    var lower := ToLowerString(s);
    var lt := ToLowerString(t);
    ToLowerStringAt(s);
    ToLowerStringAt(t);
    forall i | 0 <= i < |t|
      ensures lower[|s| - |t|..][i] == lt[i]
    {
      assert s[|s| - |t|..][i] == t[i];
    }
  }

  /** A previewable name ends, ignoring case, with one of the text extensions. */
  lemma PreviewableEndsWithExtension(name: string) returns (ext: string)
    requires IsPreviewableTextEntry(name)
    ensures ext in PreviewableExtensions && EndsWith(ToLowerString(name), ext)
  {
    ext := ToLowerString(GetExtension(name));
    LowerSuffix(name, GetExtension(name));
  }

  /**
   * The encoding `DecodeText` picks from the first bytes: UTF-16LE after
   * FF FE, UTF-16BE after FE FF, and UTF-8 otherwise. The EF BB BF branch of
   * the source chooses UTF-8 as well, so it changes nothing.
   */
  function ChosenEncoding(bytes: seq<Byte>): (e: TextEncoding)
    ensures e == Utf16LE <==> |bytes| >= 2 && bytes[0] == 0xFF && bytes[1] == 0xFE
    ensures e == Utf16BE <==> |bytes| >= 2 && bytes[0] == 0xFE && bytes[1] == 0xFF
  {
    if |bytes| >= 2 && bytes[0] == 0xFF && bytes[1] == 0xFE then Utf16LE
    else if |bytes| >= 2 && bytes[0] == 0xFE && bytes[1] == 0xFF then Utf16BE
    else if |bytes| >= 3 && bytes[0] == 0xEF && bytes[1] == 0xBB && bytes[2] == 0xBF then Utf8
    else Utf8
  }

  /** A UTF-8 byte order mark selects UTF-8, as plain bytes do. */
  lemma Utf8MarkIsUtf8(bytes: seq<Byte>)
    requires |bytes| >= 3 && bytes[0] == 0xEF && bytes[1] == 0xBB && bytes[2] == 0xBF
    ensures ChosenEncoding(bytes) == Utf8
  {
  }

  /** `DecodeText(buffer, count)` on the `count` bytes read: nothing read decodes to "", otherwise the chosen encoding decodes them. */
  function DecodeText(read: seq<Byte>, decode: (TextEncoding, seq<Byte>) -> string): (text: string)
    ensures |read| == 0 ==> text == ""
    ensures |read| > 0 && ChosenEncoding(read) == Utf8 ==> text == decode(Utf8, read)
  {
    if |read| == 0 then "" else decode(ChosenEncoding(read), read)
  }

  // ---------------------------------------------------------------------
  // Stream helpers
  // ---------------------------------------------------------------------

  /** `DrainStream`: reads 8192-byte blocks until a read returns nothing. */
  method DrainStream(stream: ByteStream)
    requires stream.Valid()
    modifies stream
    ensures stream.Valid() && stream.position == |stream.contents|
  {
    var chunk := stream.Read(8192);
    while |chunk| > 0
      invariant stream.Valid()
      invariant |chunk| == 0 ==> stream.position == |stream.contents|
      decreases |stream.contents| - stream.position + (if |chunk| > 0 then 1 else 0)
    {
      chunk := stream.Read(8192);
    }
  }

  /** What `ReadTextPreview` reports: the decoded text (or a placeholder) and whether it may be cut off. */
  datatype PreviewInfo = PreviewInfo(content: string, truncated: bool)

  /**
   * The preview of a stream holding `data`, read into a buffer of
   * `bufferLength` bytes (what `ArrayPool.Rent(maxBytes)` hands out, at
   * least `maxBytes`). The one read is taken to return every byte that fits,
   * a decompressor's short read aside.
   */
  function PreviewOf(data: seq<Byte>, maxBytes: nat, bufferLength: nat, decode: (TextEncoding, seq<Byte>) -> string): PreviewInfo
  {
    var read := data[..MinNat(bufferLength, |data|)];
    var text := DecodeText(read, decode);
    if text == "" then PreviewInfo(EmptyPreview, false) else PreviewInfo(text, |read| == maxBytes)
  }

  /**
   * Flagged truncated exactly when the one read filled `maxBytes`; empty text gives the
   * placeholder, never flagged; otherwise the content is the decoded first bytes.
   */
  lemma PreviewTruncation(data: seq<Byte>, maxBytes: nat, bufferLength: nat, decode: (TextEncoding, seq<Byte>) -> string)
    requires maxBytes <= bufferLength
    ensures var read := data[..MinNat(bufferLength, |data|)];
      var info := PreviewOf(data, maxBytes, bufferLength, decode);
      && (DecodeText(read, decode) == "" ==> info == PreviewInfo(EmptyPreview, false))
      && (DecodeText(read, decode) != "" ==> (info.content == DecodeText(read, decode)
                                             && (info.truncated <==> |read| == maxBytes)))
      && (info.truncated ==> |data| >= maxBytes > 0)
      && (|data| < maxBytes ==> !info.truncated)
  {
  }

  /** `ReadTextPreview`: one read into the buffer, decoded, and the rest of the stream drained. */
  method ReadTextPreview(stream: ByteStream, maxBytes: nat, bufferLength: nat, decode: (TextEncoding, seq<Byte>) -> string)
    returns (info: PreviewInfo)
    requires stream.Valid() && maxBytes <= bufferLength
    modifies stream
    ensures stream.Valid() && stream.position == |stream.contents|
    ensures info == PreviewOf(old(stream.contents[stream.position..]), maxBytes, bufferLength, decode)
  {
    ghost var data := stream.contents[stream.position..];
    var read := stream.Read(bufferLength);
    assert read == data[..MinNat(bufferLength, |data|)];
    var text := DecodeText(read, decode);
    DrainStream(stream);
    if text == "" {
      return PreviewInfo(EmptyPreview, false);
    }
    var truncated := |read| == maxBytes;
    return PreviewInfo(text, truncated);
  }

  // ---------------------------------------------------------------------
  // The gzip trailer (section 2.3.1 of RFC 1952)
  // ---------------------------------------------------------------------

  /** `BitConverter.ToUInt32` on a little-endian machine. */
  function LittleEndian32(b: seq<Byte>): (n: nat)
    requires |b| == 4
    ensures n < 0x1_0000_0000
  {
    b[0] as int + 0x100 * (b[1] as int) + 0x1_0000 * (b[2] as int) + 0x100_0000 * (b[3] as int)
  }

  /** The four little-endian bytes of a 32-bit value. */
  function UInt32Bytes(n: nat): (b: seq<Byte>)
    requires n < 0x1_0000_0000
    ensures |b| == 4
  {
    [n % 0x100, n / 0x100 % 0x100, n / 0x1_0000 % 0x100, n / 0x100_0000]
  }

  lemma LittleEndianOfBytes(n: nat)
    requires n < 0x1_0000_0000
    ensures LittleEndian32(UInt32Bytes(n)) == n
  {
    var b := UInt32Bytes(n);
    assert n == n % 0x100 + 0x100 * (n / 0x100);
    assert n / 0x100 == n / 0x100 % 0x100 + 0x100 * (n / 0x1_0000);
    assert n / 0x1_0000 == n / 0x1_0000 % 0x100 + 0x100 * (n / 0x100_0000);
  }

  lemma BytesOfLittleEndian(b: seq<Byte>)
    requires |b| == 4
    ensures UInt32Bytes(LittleEndian32(b)) == b
  {
    var n := LittleEndian32(b);
    assert n % 0x100 == b[0];
    assert n / 0x100 == b[1] as int + 0x100 * (b[2] as int) + 0x1_0000 * (b[3] as int);
    assert n / 0x1_0000 == b[2] as int + 0x100 * (b[3] as int);
    assert n / 0x100_0000 == b[3];
  }

  /** `TryReadGZipUncompressedSize` as a value: -1 under four bytes, else the ISIZE field in the last four. */
  function ISize(bytes: seq<Byte>): (size: int)
    ensures |bytes| < 4 <==> size == -1
    ensures |bytes| >= 4 ==> size >= 0
    ensures size < 0x1_0000_0000
  {
    if |bytes| < 4 then -1 else LittleEndian32(bytes[|bytes| - 4..])
  }

  /** A member ending in the trailer of an input of length `n` modulo 2^32 reports `n`. */
  lemma ISizeOfTrailer(body: seq<Byte>, n: nat)
    requires n < 0x1_0000_0000
    ensures ISize(body + UInt32Bytes(n)) == n
  {
    assert (body + UInt32Bytes(n))[|body|..] == UInt32Bytes(n);
    LittleEndianOfBytes(n);
  }

  /** `TryReadGZipUncompressedSize`: seeks to the last four bytes, reads them, and seeks back. */
  method TryReadGZipUncompressedSize(fs: ByteStream) returns (size: int)
    requires fs.Valid()
    modifies fs
    ensures fs.Valid() && fs.position == old(fs.position)
    ensures size == ISize(fs.contents)
  {
    if fs.Length() < 4 {
      return -1;
    }
    var current := fs.position;
    fs.Seek(fs.Length() - 4);
    var sizeBytes := fs.Read(4);
    fs.Seek(current);
    size := if |sizeBytes| == 4 then LittleEndian32(sizeBytes) else -1;
  }

  // ---------------------------------------------------------------------
  // The report of a listed archive
  // ---------------------------------------------------------------------

  /** The note under a truncated entry table. */
  function MoreNote(hidden: int): (note: string)
    ensures StartsWith(note, "... ") && note[|note| - 1] == 's'
  {
    "... " + FormatN0(hidden) + " more entries"
  }

  /** The line naming the previewed entry. */
  function PreviewEntryLine(name: string, truncated: bool): (line: string)
    ensures |line| > 0 && line[0] == 'P'
  {
    "Preview entry: " + name + (if truncated then " (truncated)" else "")
  }

  /** A previewed entry: its name and what was read of it. */
  datatype PreviewedEntry = PreviewedEntry(name: string, info: PreviewInfo)

  /**
   * The lines of a zip or tar report: the counting lines, a blank line,
   * the table, the note on hidden entries when more than `maxEntries`
   * exist, and the name of the previewed entry.
   */
  function ListingLines(head: seq<string>, table: string, count: nat, maxEntries: int, preview: Option<PreviewedEntry>): seq<string>
  {
    (head + ["", table]) + MoreLines(count, maxEntries) + PreviewLines(preview)
  }

  function MoreLines(count: nat, maxEntries: int): seq<string>
  {
    if count > maxEntries then ["", MoreNote(count - maxEntries)] else []
  }

  function PreviewLines(preview: Option<PreviewedEntry>): (lines: seq<string>)
    ensures forall k :: 0 <= k < |lines| ==> lines[k] == "" || lines[k][0] == 'P'
  {
    if preview.Some? then ["", PreviewEntryLine(preview.value.name, preview.value.info.truncated)] else []
  }

  /** `a + [x, y] + b` split before `y`. */
  lemma SplitPair<T>(a: seq<T>, x: T, y: T, b: seq<T>)
    ensures a + [x, y] + b == (a + [x]) + [y] + b
  {
  }

  /** Every line is non-empty and none begins with a dot, so none can be taken for the hidden-entries note. */
  predicate NoLineStartsWithDot(lines: seq<string>)
  {
    forall k :: 0 <= k < |lines| ==> |lines[k]| > 0 && lines[k][0] != '.'
  }

  /** A drawn table begins with the padding before its first header. */
  predicate StartsWithSpace(table: string)
  {
    |table| > 0 && table[0] == ' '
  }

  /**
   * The hidden-entries note appears exactly when more entries exist than
   * the cap, and then counts the entries left out.
   */
  lemma MoreNoteIffTruncated(head: seq<string>, table: string, count: nat, maxEntries: int, preview: Option<PreviewedEntry>)
    requires NoLineStartsWithDot(head)
    requires StartsWithSpace(table)
    ensures count > maxEntries ==> MoreNote(count - maxEntries) in ListingLines(head, table, count, maxEntries, preview)
    ensures count <= maxEntries ==> forall line :: line in ListingLines(head, table, count, maxEntries, preview) ==> !StartsWith(line, "... ")
  {
  }

  /**
   * In a report whose drawn table starts with its padding space, the note on
   * hidden entries is one of its lines, and shows in the trimmed text, exactly when
   * there are more entries than the cap.
   */
  lemma ListingNotes(head: seq<string>, table: string, count: nat, maxEntries: int, preview: Option<PreviewedEntry>)
    requires NoLineStartsWithDot(head)
    requires StartsWithSpace(table)
    ensures var lines := ListingLines(head, table, count, maxEntries, preview);
      && (count > maxEntries ==> MoreNote(count - maxEntries) in lines
                                 && Contains(TrimEnd(Lines(lines)), MoreNote(count - maxEntries)))
      && (count <= maxEntries ==> forall line :: line in lines ==> !StartsWith(line, "... "))
  {
    MoreNoteIffTruncated(head, table, count, maxEntries, preview);
    if count > maxEntries {
      var note := MoreNote(count - maxEntries);
      SplitPair(head + ["", table], "", note, PreviewLines(preview));
      LineShown(head + ["", table] + [""], note, PreviewLines(preview));
    }
  }

  /** The report text of a listed archive. */
  function ListingText(head: seq<string>, table: string, count: nat, maxEntries: int, preview: Option<PreviewedEntry>): string
  {
    TrimEnd(Lines(ListingLines(head, table, count, maxEntries, preview)))
  }

  // ---------------------------------------------------------------------
  // Zip archives
  // ---------------------------------------------------------------------

  const ZipHeaders := ["Name", "Size", "Compressed", "Ratio", "Modified"]

  /** The table row of a zip entry; an entry of length 0 has no ratio. */
  function ZipRow(e: ZipEntry, percent: real -> string): (row: seq<string>)
    ensures |row| == |ZipHeaders| && row[0] == e.fullName
    ensures row[1] == FormatN0(e.length) && row[2] == FormatN0(e.compressedLength) && row[4] == e.modified
  {
    [e.fullName, FormatN0(e.length), FormatN0(e.compressedLength),
     if e.length == 0 then "-" else percent(1.0 - e.compressedLength as real / e.length as real),
     e.modified]
  }

  function ZipRows(entries: seq<ZipEntry>, percent: real -> string): (rows: seq<seq<string>>)
    ensures |rows| == |entries|
    ensures forall i :: 0 <= i < |entries| ==> rows[i] == ZipRow(entries[i], percent)
  {
    seq(|entries|, i requires 0 <= i < |entries| => ZipRow(entries[i], percent))
  }

  function ZipLength(e: ZipEntry): nat { e.length }
  function ZipCompressedLength(e: ZipEntry): nat { e.compressedLength }

  /** The entry the zip summary previews: a previewable name with content. */
  predicate IsZipPreviewCandidate(e: ZipEntry)
  {
    IsPreviewableTextEntry(e.fullName) && e.length > 0
  }

  function ZipHead(entries: seq<ZipEntry>): (head: seq<string>)
    ensures |head| == 3 && NoLineStartsWithDot(head)
  {
    ["Entries: " + FormatN0(|entries|),
     "Total uncompressed size: " + FormatN0(SumOf(entries, ZipLength)) + " bytes",
     "Total compressed size: " + FormatN0(SumOf(entries, ZipCompressedLength)) + " bytes"]
  }

  /** The preview of the first candidate entry, when its data reads without failing. */
  function ZipPreview(entries: seq<ZipEntry>, maxBytes: nat, bufferLength: nat, lib: Libraries): Option<PreviewedEntry>
  {
    match FirstWhere(entries, IsZipPreviewCandidate)
    case None => Option.None
    case Some(k) =>
      match entries[k].data
      case Decoded(bytes) => Some(PreviewedEntry(entries[k].fullName, PreviewOf(bytes, maxBytes, bufferLength, lib.decode)))
      case Corrupt(_) => Option.None
  }

  /** The buffer request of a preview, once a negative request has been reported as a failure. */
  function PreviewRequest(options: SummaryOptions): nat
  {
    if options.archivePreviewBytes < 0 then 0 else options.archivePreviewBytes
  }

  /** The report lines of a listed zip archive. */
  function ZipLines(entries: seq<ZipEntry>, maxEntries: int, percent: real -> string, preview: Option<PreviewedEntry>): seq<string>
  {
    ListingLines(ZipHead(entries), Drawn([ZipHeaders] + ZipRows(Take(entries, maxEntries), percent)), |entries|, maxEntries, preview)
  }

  /** The preview as the result carries it. */
  function Shown(preview: Option<PreviewedEntry>): (p: Option<TextPreview>)
    ensures p.Some? <==> preview.Some?
    ensures p.Some? ==> p.value == TextPreview(preview.value.name, preview.value.info.content, preview.value.info.truncated)
  {
    match preview
    case None => Option.None
    case Some(e) => Some(TextPreview(e.name, e.info.content, e.info.truncated))
  }

  /**
   * The exception the preview of a zip raises, if any: with a candidate
   * entry, renting a buffer of negative size fails first, and otherwise
   * reading the entry's data may fail.
   */
  function ZipPreviewFailure(entries: seq<ZipEntry>, maxBytes: int): Option<string>
  {
    match FirstWhere(entries, IsZipPreviewCandidate)
    case None => Option.None
    case Some(k) =>
      if maxBytes < 0 then Some(RentRangeMessage)
      else if entries[k].data.Corrupt? then Some(entries[k].data.message)
      else Option.None
  }

  /** The report of a zip archive whose preview did not fail. */
  function ZipReport(entries: seq<ZipEntry>, options: SummaryOptions, bufferLength: nat, lib: Libraries): ArchiveSummaryResult
  {
    var preview := ZipPreview(entries, PreviewRequest(options), bufferLength, lib);
    ArchiveSummaryResult(
      TrimEnd(Lines(ZipLines(entries, options.archiveMaxEntries, lib.percent, preview))),
      Some(TableSummary("Archive Entries", ZipHeaders, ZipRows(Take(entries, options.archiveMaxEntries), lib.percent),
                        |entries| > options.archiveMaxEntries)),
      Shown(preview))
  }

  /** `SummarizeZip` on the entries the archive lists. */
  function ZipListing(entries: seq<ZipEntry>, options: SummaryOptions, bufferLength: nat, lib: Libraries): ArchiveSummaryResult
  {
    if |entries| == 0 then Message(EmptyArchive)
    else
      match ZipPreviewFailure(entries, options.archivePreviewBytes)
      case Some(message) => Message(ArchiveFailed + message)
      case None => ZipReport(entries, options, bufferLength, lib)
  }

  /**
   * A zip archive without entries is reported empty. With entries and a
   * candidate for the preview, a negative preview size fails with the
   * range error of `Rent`, else a candidate whose data fails to read fails
   * the whole summary with that message.
   */
  lemma ZipListingFailures(entries: seq<ZipEntry>, options: SummaryOptions, bufferLength: nat, lib: Libraries)
    ensures var r := ZipListing(entries, options, bufferLength, lib);
      var k := FirstWhere(entries, IsZipPreviewCandidate);
      && (|entries| == 0 ==> r == Message(EmptyArchive))
      && (|entries| > 0 && k.Some? && options.archivePreviewBytes < 0 ==> r == Message(ArchiveFailed + RentRangeMessage))
      && (|entries| > 0 && k.Some? && options.archivePreviewBytes >= 0 && entries[k.value].data.Corrupt? ==>
            r == Message(ArchiveFailed + entries[k.value].data.message))
  {
    if |entries| > 0 {
      ZipListingParts(entries, options, bufferLength, lib);
    }
  }

  /**
   * A zip archive with entries whose preview does not fail (no candidate,
   * or a candidate whose data reads at a size that is not negative) is
   * summarized by the drawn report, the entries table flagged when entries
   * are hidden, and the preview.
   */
  lemma ZipListingShape(entries: seq<ZipEntry>, options: SummaryOptions, bufferLength: nat, lib: Libraries)
    requires |entries| > 0
    requires var k := FirstWhere(entries, IsZipPreviewCandidate);
      k.None? || (options.archivePreviewBytes >= 0 && entries[k.value].data.Decoded?)
    ensures var preview := ZipPreview(entries, PreviewRequest(options), bufferLength, lib);
      ZipListing(entries, options, bufferLength, lib)
      == ArchiveSummaryResult(
           TrimEnd(Lines(ZipLines(entries, options.archiveMaxEntries, lib.percent, preview))),
           Some(TableSummary("Archive Entries", ZipHeaders, ZipRows(Take(entries, options.archiveMaxEntries), lib.percent),
                             |entries| > options.archiveMaxEntries)),
           Shown(preview))
  {
    assert ZipPreviewFailure(entries, options.archivePreviewBytes).None?;
  }

  /**
   * A zip archive is tabulated exactly when it has entries and its preview
   * does not fail; the table has one row per entry up to the cap and is
   * flagged truncated exactly when more entries exist.
   */
  lemma ZipListingTable(entries: seq<ZipEntry>, options: SummaryOptions, bufferLength: nat, lib: Libraries)
    ensures var max := options.archiveMaxEntries;
      var listed := Take(entries, max);
      var r := ZipListing(entries, options, bufferLength, lib);
      && (r.table.Some? <==> |entries| > 0 && ZipPreviewFailure(entries, options.archivePreviewBytes).None?)
      && (r.table.Some? ==> r.table == Some(TableSummary("Archive Entries", ZipHeaders, ZipRows(listed, lib.percent), |entries| > max)))
      && listed == entries[..if max <= 0 then 0 else MinNat(max, |entries|)]
  {
  }

  /** The drawn zip table starts with the padding of its first header. */
  lemma ZipTableStart(listed: seq<ZipEntry>, percent: real -> string)
    ensures var table := Drawn([ZipHeaders] + ZipRows(listed, percent)); StartsWithSpace(table)
  {
    var rows := [ZipHeaders] + ZipRows(listed, percent);
    assert rows[0][0][0] == 'N';
    DrawnStart(rows);
  }

  /** The note on hidden entries shows in the zip report exactly when there are more entries than the cap. */
  lemma ZipListingNote(entries: seq<ZipEntry>, maxEntries: int, percent: real -> string, preview: Option<PreviewedEntry>)
    ensures var lines := ZipLines(entries, maxEntries, percent, preview);
      && (|entries| > maxEntries ==> Contains(TrimEnd(Lines(lines)), MoreNote(|entries| - maxEntries)))
      && (|entries| <= maxEntries ==> forall line :: line in lines ==> !StartsWith(line, "... "))
  {
    ZipNotesOf(entries, Take(entries, maxEntries), maxEntries, percent, preview);
  }

  /** `ZipListingNote` for any listed prefix `listed`. */
  lemma ZipNotesOf(entries: seq<ZipEntry>, listed: seq<ZipEntry>, maxEntries: int, percent: real -> string,
                   preview: Option<PreviewedEntry>)
    ensures var lines := ListingLines(ZipHead(entries), Drawn([ZipHeaders] + ZipRows(listed, percent)), |entries|, maxEntries, preview);
      && (|entries| > maxEntries ==> Contains(TrimEnd(Lines(lines)), MoreNote(|entries| - maxEntries)))
      && (|entries| <= maxEntries ==> forall line :: line in lines ==> !StartsWith(line, "... "))
  {
    ZipTableStart(listed, percent);
    ListingNotes(ZipHead(entries), Drawn([ZipHeaders] + ZipRows(listed, percent)), |entries|, maxEntries, preview);
  }

  /**
   * A zip report previews the first entry with a text name and content,
   * and only when there is one whose data reads; when that entry's data
   * fails to read, the summary is the failure message alone.
   */
  lemma ZipListingPreview(entries: seq<ZipEntry>, options: SummaryOptions, bufferLength: nat, lib: Libraries)
    requires |entries| > 0 && options.archivePreviewBytes >= 0
    ensures var r := ZipListing(entries, options, bufferLength, lib);
      var k := FirstWhere(entries, IsZipPreviewCandidate);
      && (r.preview.Some? <==> k.Some? && entries[k.value].data.Decoded?)
      && (k.None? <==> forall i :: 0 <= i < |entries| ==> !IsZipPreviewCandidate(entries[i]))
      && (k.Some? && entries[k.value].data.Corrupt? ==> r == Message(ArchiveFailed + entries[k.value].data.message))
      && (r.preview.Some? ==>
            var info := PreviewOf(entries[k.value].data.value, options.archivePreviewBytes, bufferLength, lib.decode);
            r.preview.value == TextPreview(entries[k.value].fullName, info.content, info.truncated))
  {
    var maxBytes := PreviewRequest(options);
    assert maxBytes == options.archivePreviewBytes;
    ZipListingParts(entries, options, bufferLength, lib);
    ZipPreviewFacts(entries, maxBytes, bufferLength, lib);
  }

  /** With a size that is not negative, the preview fails exactly when the candidate's data does, and is otherwise read from that data. */
  lemma ZipPreviewFacts(entries: seq<ZipEntry>, maxBytes: nat, bufferLength: nat, lib: Libraries)
    ensures var k := FirstWhere(entries, IsZipPreviewCandidate);
      var failure := ZipPreviewFailure(entries, maxBytes);
      var p := ZipPreview(entries, maxBytes, bufferLength, lib);
      && (failure.Some? <==> k.Some? && entries[k.value].data.Corrupt?)
      && (failure.Some? ==> failure.value == entries[k.value].data.message)
      && (p.Some? <==> k.Some? && entries[k.value].data.Decoded?)
      && (p.Some? ==> p.value == PreviewedEntry(entries[k.value].fullName, PreviewOf(entries[k.value].data.value, maxBytes, bufferLength, lib.decode)))
  {
  }

  /** The preview of a listing is the one its report carries, once no failure replaced it. */
  lemma ZipListingParts(entries: seq<ZipEntry>, options: SummaryOptions, bufferLength: nat, lib: Libraries)
    requires |entries| > 0
    ensures var failure := ZipPreviewFailure(entries, options.archivePreviewBytes);
      var r := ZipListing(entries, options, bufferLength, lib);
      && (failure.Some? ==> r == Message(ArchiveFailed + failure.value))
      && (failure.None? ==> r.preview == Shown(ZipPreview(entries, PreviewRequest(options), bufferLength, lib)))
  {
  }

  /** `SummarizeZip`: a file that cannot be opened or read as a zip archive yields the failure message. */
  function ZipSummaryOf(file: Option<DiskFile>, openError: string, options: SummaryOptions, bufferLength: nat, lib: Libraries): ArchiveSummaryResult
  {
    if file.None? then Message(ArchiveFailed + openError)
    else
      match lib.readZip(file.value.bytes)
      case Corrupt(message) => Message(ArchiveFailed + message)
      case Decoded(entries) => ZipListing(entries, options, bufferLength, lib)
  }

  /** The zip table loop: one row per listed entry, drawn by a `TextTableBuilder`. */
  method ZipTable(listed: seq<ZipEntry>, percent: real -> string) returns (text: string, rows: seq<seq<string>>)
    ensures rows == ZipRows(listed, percent)
    ensures text == Drawn([ZipHeaders] + rows)
  {
    rows := ZipRows(listed, percent);
    text := DrawTable(ZipHeaders, rows);
  }

  /** `SummarizeZip`. */
  method SummarizeZip(file: Option<DiskFile>, openError: string, options: SummaryOptions, bufferLength: nat, lib: Libraries)
    returns (r: ArchiveSummaryResult)
    requires options.archivePreviewBytes <= bufferLength
    ensures r == ZipSummaryOf(file, openError, options, bufferLength, lib)
  {
    if file.None? {
      return Message(ArchiveFailed + openError);
    }
    var archive := lib.readZip(file.value.bytes);
    if archive.Corrupt? {
      return Message(ArchiveFailed + archive.message);
    }
    var entries := archive.value;
    if |entries| == 0 {
      return Message(EmptyArchive);
    }
    var head := ZipHead(entries);
    var tableText, tableRows := ZipTable(Take(entries, options.archiveMaxEntries), lib.percent);
    var truncated := |entries| > options.archiveMaxEntries;
    var textEntry := FirstWhere(entries, IsZipPreviewCandidate);
    var preview: Option<PreviewedEntry> := Option.None;
    if textEntry.Some? {
      if options.archivePreviewBytes < 0 {
        return Message(ArchiveFailed + RentRangeMessage);
      }
      var entry := entries[textEntry.value];
      if entry.data.Corrupt? {
        return Message(ArchiveFailed + entry.data.message);
      }
      var entryStream := new ByteStream(entry.data.value);
      var info := ReadTextPreview(entryStream, options.archivePreviewBytes, bufferLength, lib.decode);
      preview := Some(PreviewedEntry(entry.fullName, info));
    }
    var lines := ListingLines(head, tableText, |entries|, options.archiveMaxEntries, preview);
    r := ArchiveSummaryResult(TrimEnd(Lines(lines)), Some(TableSummary("Archive Entries", ZipHeaders, tableRows, truncated)), Shown(preview));
  }

  // ---------------------------------------------------------------------
  // Tar archives
  // ---------------------------------------------------------------------

  const TarHeaders := ["Name", "Size", "Type", "Modified"]

  function TarRow(e: TarEntry): (row: seq<string>)
    ensures |row| == |TarHeaders| && row[0] == e.name && row[2] == TypeName(e.entryType)
  {
    [e.name, FormatN0(e.length), TypeName(e.entryType), e.modified]
  }

  function TarRows(entries: seq<TarEntry>): (rows: seq<seq<string>>)
    ensures |rows| == |entries|
    ensures forall i :: 0 <= i < |entries| ==> rows[i] == TarRow(entries[i])
  {
    seq(|entries|, i requires 0 <= i < |entries| => TarRow(entries[i]))
  }

  function TarLength(e: TarEntry): nat { e.length }

  /** The entry the tar summary previews: a non-empty regular file with a previewable name and a data stream. */
  predicate IsTarPreviewCandidate(e: TarEntry)
  {
    e.entryType == RegularFile && e.length > 0 && IsPreviewableTextEntry(e.name) && e.data.Some?
  }

  /** An entry whose data stream throws when it is read. */
  predicate DataCorrupt(e: TarEntry)
  {
    e.data.Some? && e.data.value.Corrupt?
  }

  predicate NoCorruptData(entries: seq<TarEntry>)
  {
    forall i :: 0 <= i < |entries| ==> !DataCorrupt(entries[i])
  }

  /** What the tar loop gathers: entries counted, bytes summed, entries listed, and the preview. */
  datatype TarScan = TarScan(count: nat, totalSize: nat, listed: seq<TarEntry>, preview: Option<PreviewedEntry>)

  /** How the tar loop ends: with all it gathered, or with the message of the exception that ended it. */
  datatype TarOutcome = Scanned(scan: TarScan) | Failed(message: string)

  /** A buffer request that is not negative: the size `Rent` is asked for once it has not failed. */
  function BufferRequest(maxBytes: int): nat
  {
    if maxBytes < 0 then 0 else maxBytes
  }

  /** The preview of the first candidate entry, when its data reads. */
  function TarPreview(entries: seq<TarEntry>, maxBytes: nat, bufferLength: nat, decode: (TextEncoding, seq<Byte>) -> string): (p: Option<PreviewedEntry>)
    ensures var k := FirstWhere(entries, IsTarPreviewCandidate);
      p.Some? <==> k.Some? && entries[k.value].data.value.Decoded?
  {
    match FirstWhere(entries, IsTarPreviewCandidate)
    case None => Option.None
    case Some(k) =>
      match entries[k].data.value
      case Decoded(bytes) => Some(PreviewedEntry(entries[k].name, PreviewOf(bytes, maxBytes, bufferLength, decode)))
      case Corrupt(_) => Option.None
  }

  /**
   * The exception one pass of the loop raises, if any: when the entry is
   * the preview due, renting a buffer of negative size fails first;
   * otherwise reading or draining a data stream that is corrupt fails.
   */
  function EntryFailure(e: TarEntry, previewDue: bool, maxBytes: int): Option<string>
  {
    if previewDue && IsTarPreviewCandidate(e) && maxBytes < 0 then Some(RentRangeMessage)
    else if DataCorrupt(e) then Some(e.data.value.message)
    else Option.None
  }

  /** The exception the loop meets while passing over `done`, pass by pass: the first one raised. */
  function LoopFailure(done: seq<TarEntry>, maxBytes: int): Option<string>
    decreases |done|
  {
    if |done| == 0 then Option.None
    else
      var before := done[..|done| - 1];
      if LoopFailure(before, maxBytes).Some? then LoopFailure(before, maxBytes)
      else EntryFailure(done[|done| - 1], FirstWhere(before, IsTarPreviewCandidate).None?, maxBytes)
  }

  /**
   * The same exception read off the entries: the range error of `Rent`
   * when the size is negative and the first candidate comes no later than
   * the first entry whose data fails, else that entry's message.
   */
  function EntriesFailure(entries: seq<TarEntry>, maxBytes: int): Option<string>
  {
    var c := FirstWhere(entries, IsTarPreviewCandidate);
    var d := FirstWhere(entries, DataCorrupt);
    if maxBytes < 0 && c.Some? && (d.None? || c.value <= d.value) then Some(RentRangeMessage)
    else if d.Some? then Some(entries[d.value].data.value.message)
    else Option.None
  }

  /** One more pass of the loop keeps an earlier exception, else raises the entry's own. */
  lemma LoopFailureSnoc(done: seq<TarEntry>, e: TarEntry, maxBytes: int)
    ensures LoopFailure(done + [e], maxBytes)
      == if LoopFailure(done, maxBytes).Some? then LoopFailure(done, maxBytes)
         else EntryFailure(e, FirstWhere(done, IsTarPreviewCandidate).None?, maxBytes)
  {
    assert (done + [e])[..|done|] == done;
  }

  /** The loop meets exactly the exception the entries describe, in the order the source raises them. */
  lemma {:induction false} LoopFailureFirst(entries: seq<TarEntry>, maxBytes: int)
    ensures LoopFailure(entries, maxBytes) == EntriesFailure(entries, maxBytes)
    decreases |entries|
  {
    if |entries| > 0 {
      var done := entries[..|entries| - 1];
      var e := entries[|entries| - 1];
      assert entries == done + [e];
      LoopFailureFirst(done, maxBytes);
      LoopFailureSnoc(done, e, maxBytes);
      FirstWhereSnoc(done, e, IsTarPreviewCandidate);
      FirstWhereSnoc(done, e, DataCorrupt);
    }
  }

  /** Once the loop has raised an exception, later entries do not change it. */
  lemma {:induction false} LoopFailureExtends(entries: seq<TarEntry>, n: nat, maxBytes: int)
    requires n <= |entries| && LoopFailure(entries[..n], maxBytes).Some?
    ensures LoopFailure(entries, maxBytes) == LoopFailure(entries[..n], maxBytes)
    decreases |entries|
  {
    if |entries| > n {
      var before := entries[..|entries| - 1];
      assert before[..n] == entries[..n];
      LoopFailureExtends(before, n, maxBytes);
    } else {
      assert entries[..n] == entries;
    }
  }

  /** A loop that met no exception has read every data stream without failure. */
  lemma NoLoopFailureReadsAll(done: seq<TarEntry>, maxBytes: int)
    requires LoopFailure(done, maxBytes).None?
    ensures NoCorruptData(done)
  {
    LoopFailureFirst(done, maxBytes);
  }

  /** What the loop has gathered once it has passed over `done`. */
  function ScanOf(done: seq<TarEntry>, maxEntries: int, maxBytes: nat, bufferLength: nat,
                  decode: (TextEncoding, seq<Byte>) -> string): (scan: TarScan)
    ensures scan.count == |done| && scan.listed == Take(done, maxEntries)
    ensures NoCorruptData(done) ==> (scan.preview.None? <==> FirstWhere(done, IsTarPreviewCandidate).None?)
  {
    TarScan(|done|, SumOf(done, TarLength), Take(done, maxEntries), TarPreview(done, maxBytes, bufferLength, decode))
  }

  /**
   * The loop over the entries `GetNextEntry` returns: the first exception
   * it meets, else the reader's own failure after the last entry, else
   * all it gathered.
   */
  function TarScanOf(archive: TarArchive, maxEntries: int, maxBytes: int, bufferLength: nat,
                     decode: (TextEncoding, seq<Byte>) -> string): (outcome: TarOutcome)
    ensures outcome.Scanned? <==> archive.failure.None? && NoCorruptData(archive.entries)
                                  && (maxBytes >= 0 || FirstWhere(archive.entries, IsTarPreviewCandidate).None?)
  {
    match EntriesFailure(archive.entries, maxBytes)
    case Some(message) => Failed(message)
    case None =>
      if archive.failure.Some? then Failed(archive.failure.value)
      else Scanned(ScanOf(archive.entries, maxEntries, BufferRequest(maxBytes), bufferLength, decode))
  }

  /**
   * One pass of the tar loop: the entry is counted, summed, listed below
   * the cap, and previewed or drained; the pass fails when renting the
   * preview buffer or reading the data fails.
   */
  method ScanEntry(e: TarEntry, state: TarScan, maxEntries: int, maxBytes: int, bufferLength: nat,
                   decode: (TextEncoding, seq<Byte>) -> string) returns (outcome: TarOutcome)
    requires maxBytes <= bufferLength
    ensures var failure := EntryFailure(e, state.preview.None?, maxBytes);
      && (failure.Some? ==> outcome == Failed(failure.value))
      && (failure.None? ==>
            && outcome.Scanned?
            && outcome.scan.count == state.count + 1 && outcome.scan.totalSize == state.totalSize + e.length
            && outcome.scan.listed == (if |state.listed| < maxEntries then state.listed + [e] else state.listed)
            && outcome.scan.preview == if state.preview.None? && IsTarPreviewCandidate(e)
                                       then Some(PreviewedEntry(e.name, PreviewOf(e.data.value.value, BufferRequest(maxBytes), bufferLength, decode)))
                                       else state.preview)
  {
    var listed := state.listed;
    if |listed| < maxEntries {
      listed := listed + [e];
    }
    var preview := state.preview;
    if preview.None? && IsTarPreviewCandidate(e) {
      if maxBytes < 0 {
        return Failed(RentRangeMessage);
      }
      var data := e.data.value;
      if data.Corrupt? {
        return Failed(data.message);
      }
      var entryStream := new ByteStream(data.value);
      var info := ReadTextPreview(entryStream, maxBytes, bufferLength, decode);
      preview := Some(PreviewedEntry(e.name, info));
    } else if e.data.Some? {
      if e.data.value.Corrupt? {
        return Failed(e.data.value.message);
      }
      var entryStream := new ByteStream(e.data.value.value);
      DrainStream(entryStream);
    }
    outcome := Scanned(TarScan(state.count + 1, state.totalSize + e.length, listed, preview));
  }

  /** The preview of `done + [e]`: the one of `done`, else `e`'s when it is a candidate. */
  lemma TarPreviewSnoc(done: seq<TarEntry>, e: TarEntry, maxBytes: nat, bufferLength: nat,
                       decode: (TextEncoding, seq<Byte>) -> string)
    requires NoCorruptData(done) && !DataCorrupt(e)
    ensures TarPreview(done + [e], maxBytes, bufferLength, decode)
      == if TarPreview(done, maxBytes, bufferLength, decode).None? && IsTarPreviewCandidate(e)
         then Some(PreviewedEntry(e.name, PreviewOf(e.data.value.value, maxBytes, bufferLength, decode)))
         else TarPreview(done, maxBytes, bufferLength, decode)
  {
    FirstWhereSnoc(done, e, IsTarPreviewCandidate);
    var k := FirstWhere(done, IsTarPreviewCandidate);
    if k.Some? {
      assert (done + [e])[k.value] == done[k.value];
      assert !DataCorrupt(done[k.value]);
    } else {
      assert (done + [e])[|done|] == e;
    }
  }

  /** The scan of `done + [e]` is the scan of `done` advanced by one pass of the loop. */
  lemma ScanPrefix(done: seq<TarEntry>, e: TarEntry, maxEntries: int, maxBytes: nat, bufferLength: nat,
                   decode: (TextEncoding, seq<Byte>) -> string)
    requires NoCorruptData(done) && !DataCorrupt(e)
    ensures var state := ScanOf(done, maxEntries, maxBytes, bufferLength, decode);
      var next := ScanOf(done + [e], maxEntries, maxBytes, bufferLength, decode);
      && next.count == state.count + 1 && next.totalSize == state.totalSize + e.length
      && next.listed == (if |state.listed| < maxEntries then state.listed + [e] else state.listed)
      && next.preview == if state.preview.None? && IsTarPreviewCandidate(e)
                         then Some(PreviewedEntry(e.name, PreviewOf(e.data.value.value, maxBytes, bufferLength, decode)))
                         else state.preview
  {
    SumOfSnoc(done, e, TarLength);
    TakeSnoc(done, e, maxEntries);
    TarPreviewSnoc(done, e, maxBytes, bufferLength, decode);
  }

  /** One turn of `SummarizeTar`'s loop, from the scan of `entries[..i]` to that of `entries[..i + 1]`, or to its exception. */
  method ScanNext(entries: seq<TarEntry>, i: nat, state: TarScan, maxEntries: int, maxBytes: int, bufferLength: nat,
                  decode: (TextEncoding, seq<Byte>) -> string) returns (outcome: TarOutcome)
    requires i < |entries| && maxBytes <= bufferLength
    requires LoopFailure(entries[..i], maxBytes).None?
    requires state == ScanOf(entries[..i], maxEntries, BufferRequest(maxBytes), bufferLength, decode)
    ensures LoopFailure(entries[..i + 1], maxBytes).Some? ==> outcome == Failed(LoopFailure(entries[..i + 1], maxBytes).value)
    ensures LoopFailure(entries[..i + 1], maxBytes).None?
            ==> outcome == Scanned(ScanOf(entries[..i + 1], maxEntries, BufferRequest(maxBytes), bufferLength, decode))
  {
    var done, e := entries[..i], entries[i];
    TakeOneMore(entries, i);
    NoLoopFailureReadsAll(done, maxBytes);
    LoopFailureSnoc(done, e, maxBytes);
    assert state.preview.None? <==> FirstWhere(done, IsTarPreviewCandidate).None?;
    assert LoopFailure(entries[..i + 1], maxBytes) == EntryFailure(e, state.preview.None?, maxBytes);
    if !DataCorrupt(e) {
      ScanPrefix(done, e, maxEntries, BufferRequest(maxBytes), bufferLength, decode);
    }
    outcome := ScanEntry(e, state, maxEntries, maxBytes, bufferLength, decode);
  }

  /** `SummarizeTar`'s loop over what `GetNextEntry` returns. */
  method ScanTar(archive: TarArchive, maxEntries: int, maxBytes: int, bufferLength: nat,
                 decode: (TextEncoding, seq<Byte>) -> string) returns (outcome: TarOutcome)
    requires maxBytes <= bufferLength
    ensures outcome == TarScanOf(archive, maxEntries, maxBytes, bufferLength, decode)
  {
    var entries := archive.entries;
    LoopFailureFirst(entries, maxBytes);
    var state := TarScan(0, 0, [], Option.None);
    var i := 0;
    while i < |entries|
      invariant 0 <= i <= |entries|
      invariant LoopFailure(entries[..i], maxBytes).None?
      invariant state == ScanOf(entries[..i], maxEntries, BufferRequest(maxBytes), bufferLength, decode)
    {
      var step := ScanNext(entries, i, state, maxEntries, maxBytes, bufferLength, decode);
      if step.Failed? {
        LoopFailureExtends(entries, i + 1, maxBytes);
        return step;
      }
      state := step.scan;
      i := i + 1;
    }
    assert entries[..i] == entries;
    if archive.failure.Some? {
      return Failed(archive.failure.value);
    }
    return Scanned(state);
  }

  function TarHead(scan: TarScan): (head: seq<string>)
    ensures |head| == 2 && NoLineStartsWithDot(head)
  {
    ["Entries: " + FormatN0(scan.count), "Total size: " + FormatN0(scan.totalSize) + " bytes"]
  }

  /** The report lines of a completed tar scan. */
  function TarLines(scan: TarScan, maxEntries: int): seq<string>
  {
    ListingLines(TarHead(scan), Drawn([TarHeaders] + TarRows(scan.listed)), scan.count, maxEntries, scan.preview)
  }

  /** The report of a completed tar scan. */
  function TarReport(scan: TarScan, maxEntries: int): ArchiveSummaryResult
  {
    if scan.count == 0 then Message(EmptyArchive)
    else
      ArchiveSummaryResult(
        TrimEnd(Lines(TarLines(scan, maxEntries))),
        Some(TableSummary("Archive Entries", TarHeaders, TarRows(scan.listed), scan.count > maxEntries)),
        Shown(scan.preview))
  }

  /**
   * The tar loop completes exactly when no data stream fails, the reader
   * does not throw after the last entry, and no preview is due with a
   * negative size; it then counts every entry, sums every length, lists
   * the first entries up to the cap, and keeps the first candidate's
   * preview.
   */
  lemma TarScanCounts(archive: TarArchive, options: SummaryOptions, bufferLength: nat,
                      decode: (TextEncoding, seq<Byte>) -> string)
    ensures var entries := archive.entries;
      var outcome := TarScanOf(archive, options.archiveMaxEntries, options.archivePreviewBytes, bufferLength, decode);
      && (outcome.Scanned? <==> archive.failure.None? && NoCorruptData(entries)
                                && (options.archivePreviewBytes >= 0 || FirstWhere(entries, IsTarPreviewCandidate).None?))
      && (outcome.Scanned? ==>
            && outcome.scan.count == |entries| && outcome.scan.totalSize == SumOf(entries, TarLength)
            && outcome.scan.listed == Take(entries, options.archiveMaxEntries)
            && outcome.scan.preview == TarPreview(entries, PreviewRequest(options), bufferLength, decode))
  {
  }

  /**
   * The exception that ends the tar loop, in the source's order: with a
   * negative preview size, the range error of `Rent` when the first
   * candidate comes no later than the first entry whose data fails; else
   * the first failing entry's message; else the reader's own failure.
   */
  lemma TarFailureOrder(archive: TarArchive, maxEntries: int, maxBytes: int, bufferLength: nat,
                        decode: (TextEncoding, seq<Byte>) -> string)
    ensures var outcome := TarScanOf(archive, maxEntries, maxBytes, bufferLength, decode);
      var c := FirstWhere(archive.entries, IsTarPreviewCandidate);
      var d := FirstWhere(archive.entries, DataCorrupt);
      && (maxBytes < 0 && c.Some? && (d.None? || c.value <= d.value) ==> outcome == Failed(RentRangeMessage))
      && (d.Some? && (maxBytes >= 0 || c.None? || d.value < c.value) ==>
            outcome == Failed(archive.entries[d.value].data.value.message))
      && (d.None? && (maxBytes >= 0 || c.None?) && archive.failure.Some? ==> outcome == Failed(archive.failure.value))
  {
  }

  /** The drawn tar table starts with the padding of its first header. */
  lemma TarTableStart(listed: seq<TarEntry>)
    ensures var table := Drawn([TarHeaders] + TarRows(listed)); StartsWithSpace(table)
  {
    var rows := [TarHeaders] + TarRows(listed);
    assert rows[0][0][0] == 'N';
    DrawnStart(rows);
  }

  /** A non-empty tar report is its trimmed lines, the table of the listed entries, and the preview. */
  lemma TarReportParts(scan: TarScan, maxEntries: int)
    requires scan.count > 0
    ensures var r := TarReport(scan, maxEntries);
      && r.summary == TrimEnd(Lines(TarLines(scan, maxEntries)))
      && r.table == Some(TableSummary("Archive Entries", TarHeaders, TarRows(scan.listed), scan.count > maxEntries))
      && r.preview == Shown(scan.preview)
  {
  }

  /** The note on hidden entries shows in the tar report exactly when there are more entries than the cap. */
  lemma TarScanNote(scan: TarScan, maxEntries: int)
    ensures scan.count > maxEntries ==> Contains(TrimEnd(Lines(TarLines(scan, maxEntries))), MoreNote(scan.count - maxEntries))
    ensures scan.count <= maxEntries ==> forall line :: line in TarLines(scan, maxEntries) ==> !StartsWith(line, "... ")
  {
    TarTableStart(scan.listed);
    ListingNotes(TarHead(scan), Drawn([TarHeaders] + TarRows(scan.listed)), scan.count, maxEntries, scan.preview);
  }

  /**
   * When no data stream fails, the tar preview is that of the first
   * candidate entry, and exists exactly when a candidate does.
   */
  lemma TarPreviewFirst(entries: seq<TarEntry>, maxBytes: nat, bufferLength: nat, decode: (TextEncoding, seq<Byte>) -> string)
    requires NoCorruptData(entries)
    ensures var p := TarPreview(entries, maxBytes, bufferLength, decode);
      && (p.Some? <==> exists i :: 0 <= i < |entries| && IsTarPreviewCandidate(entries[i]))
      && (p.Some? ==>
            var k := FirstWhere(entries, IsTarPreviewCandidate).value;
            p.value == PreviewedEntry(entries[k].name, PreviewOf(entries[k].data.value.value, maxBytes, bufferLength, decode)))
  {
    var k := FirstWhere(entries, IsTarPreviewCandidate);
    if k.Some? {
      assert IsTarPreviewCandidate(entries[k.value]);
    }
  }

  /** `SummarizeTar`: the archive is read directly or through gzip; an exception the loop meets becomes the failure message. */
  function TarSummaryOf(file: Option<DiskFile>, openError: string, compression: TarCompression, options: SummaryOptions,
                        bufferLength: nat, lib: Libraries): ArchiveSummaryResult
  {
    if file.None? then Message(ArchiveFailed + openError)
    else
      match TarScanOf(lib.readTar(compression, file.value.bytes), options.archiveMaxEntries, options.archivePreviewBytes,
                      bufferLength, lib.decode)
      case Failed(message) => Message(ArchiveFailed + message)
      case Scanned(scan) => TarReport(scan, options.archiveMaxEntries)
  }

  /** The tar table loop over the listed entries. */
  method TarTable(listed: seq<TarEntry>) returns (text: string, rows: seq<seq<string>>)
    ensures rows == TarRows(listed)
    ensures text == Drawn([TarHeaders] + rows)
  {
    rows := TarRows(listed);
    text := DrawTable(TarHeaders, rows);
  }

  /** `SummarizeTar`. */
  method SummarizeTar(file: Option<DiskFile>, openError: string, compression: TarCompression, options: SummaryOptions,
                      bufferLength: nat, lib: Libraries) returns (r: ArchiveSummaryResult)
    requires options.archivePreviewBytes <= bufferLength
    ensures r == TarSummaryOf(file, openError, compression, options, bufferLength, lib)
  {
    if file.None? {
      return Message(ArchiveFailed + openError);
    }
    var reader := lib.readTar(compression, file.value.bytes);
    var scanned := ScanTar(reader, options.archiveMaxEntries, options.archivePreviewBytes, bufferLength, lib.decode);
    if scanned.Failed? {
      return Message(ArchiveFailed + scanned.message);
    }
    var scan := scanned.scan;
    if scan.count == 0 {
      return Message(EmptyArchive);
    }
    var tableText, rows := TarTable(scan.listed);
    var truncated := scan.count > options.archiveMaxEntries;
    var lines := ListingLines(TarHead(scan), tableText, scan.count, options.archiveMaxEntries, scan.preview);
    r := ArchiveSummaryResult(TrimEnd(Lines(lines)), Some(TableSummary("Archive Entries", TarHeaders, rows, truncated)), Shown(scan.preview));
  }

  // ---------------------------------------------------------------------
  // Single gzip streams
  // ---------------------------------------------------------------------

  /** The lines of a gzip report; the reported size appears only when the trailer could be read. */
  function GZipLines(compressedSize: nat, uncompressedSize: int, truncated: bool): seq<string>
  {
    ["Single compressed stream (.gz)", "Compressed size: " + FormatN0(compressedSize) + " bytes"]
    + (if uncompressedSize >= 0 then ["Reported uncompressed size: " + FormatN0(uncompressedSize) + " bytes"] else [])
    + ["", "Preview available (" + (if truncated then "truncated" else "full") + ")"]
  }

  /** `SummarizeGZip` as a value. */
  function GZipSummaryOf(path: string, file: Option<DiskFile>, openError: string, options: SummaryOptions,
                         bufferLength: nat, lib: Libraries): ArchiveSummaryResult
  {
    if file.None? then Message(GZipFailed + openError)
    else
      var bytes := file.value.bytes;
      if options.archivePreviewBytes < 0 then Message(GZipFailed + RentRangeMessage)
      else
        match lib.inflate(bytes)
        case Corrupt(message) => Message(GZipFailed + message)
        case Decoded(inflated) =>
          var info := PreviewOf(inflated, options.archivePreviewBytes, bufferLength, lib.decode);
          ArchiveSummaryResult(TrimEnd(Lines(GZipLines(|bytes|, ISize(bytes), info.truncated))), Option.None,
                               Some(TextPreview(GetFileName(path), info.content, info.truncated)))
  }

  /** With a readable trailer, the reported size is the third line of the gzip report and shows in its text. */
  lemma GZipSizeShown(compressedSize: nat, uncompressedSize: int, truncated: bool)
    requires uncompressedSize >= 0
    ensures var sizeLine := "Reported uncompressed size: " + FormatN0(uncompressedSize) + " bytes";
      var lines := GZipLines(compressedSize, uncompressedSize, truncated);
      lines[2] == sizeLine && Contains(TrimEnd(Lines(lines)), sizeLine)
  {
    var sizeLine := "Reported uncompressed size: " + FormatN0(uncompressedSize) + " bytes";
    var before := ["Single compressed stream (.gz)", "Compressed size: " + FormatN0(compressedSize) + " bytes"];
    var after := ["", "Preview available (" + (if truncated then "truncated" else "full") + ")"];
    assert GZipLines(compressedSize, uncompressedSize, truncated) == before + [sizeLine] + after;
    LineShown(before, sizeLine, after);
  }

  /**
   * A gzip file that inflates is described by its size and, when it has
   * the four trailer bytes, the ISIZE they hold; the preview is titled with
   * the file name.
   */
  lemma GZipReport(path: string, file: Option<DiskFile>, openError: string, options: SummaryOptions,
                   bufferLength: nat, lib: Libraries)
    requires file.Some? && lib.inflate(file.value.bytes).Decoded? && options.archivePreviewBytes >= 0
    ensures var bytes := file.value.bytes;
      var r := GZipSummaryOf(path, file, openError, options, bufferLength, lib);
      var info := PreviewOf(lib.inflate(bytes).value, options.archivePreviewBytes, bufferLength, lib.decode);
      var sizeLine := "Reported uncompressed size: " + FormatN0(ISize(bytes)) + " bytes";
      && r.table.None?
      && r.preview == Some(TextPreview(GetFileName(path), info.content, info.truncated))
      && (|bytes| < 4 ==> |GZipLines(|bytes|, ISize(bytes), info.truncated)| == 4)
      && (|bytes| >= 4 ==> GZipLines(|bytes|, ISize(bytes), info.truncated)[2] == sizeLine && Contains(r.summary, sizeLine))
  {
    var bytes := file.value.bytes;
    var info := PreviewOf(lib.inflate(bytes).value, options.archivePreviewBytes, bufferLength, lib.decode);
    assert GZipSummaryOf(path, file, openError, options, bufferLength, lib).summary
      == TrimEnd(Lines(GZipLines(|bytes|, ISize(bytes), info.truncated)));
    if |bytes| >= 4 {
      GZipSizeShown(|bytes|, ISize(bytes), info.truncated);
    }
  }

  /** `SummarizeGZip`: sizes from the file and its trailer, then a preview of the decompressed data. */
  method SummarizeGZip(path: string, file: Option<DiskFile>, openError: string, options: SummaryOptions,
                       bufferLength: nat, lib: Libraries) returns (r: ArchiveSummaryResult)
    requires options.archivePreviewBytes <= bufferLength
    ensures r == GZipSummaryOf(path, file, openError, options, bufferLength, lib)
  {
    if file.None? {
      return Message(GZipFailed + openError);
    }
    var fs := new ByteStream(file.value.bytes);
    var compressedSize := fs.Length();
    var uncompressedSize := TryReadGZipUncompressedSize(fs);
    fs.Seek(0);
    if options.archivePreviewBytes < 0 {
      return Message(GZipFailed + RentRangeMessage);
    }
    var gzip := lib.inflate(fs.contents);
    if gzip.Corrupt? {
      return Message(GZipFailed + gzip.message);
    }
    var gzipStream := new ByteStream(gzip.value);
    var info := ReadTextPreview(gzipStream, options.archivePreviewBytes, bufferLength, lib.decode);
    assert gzipStream.contents[0..] == gzip.value;
    var lines := GZipLines(compressedSize, uncompressedSize, info.truncated);
    r := ArchiveSummaryResult(TrimEnd(Lines(lines)), Option.None, Some(TextPreview(GetFileName(path), info.content, info.truncated)));
  }

  // ---------------------------------------------------------------------
  // Dispatch
  // ---------------------------------------------------------------------

  /** `Summarize` as a value. */
  function ArchiveSummaryOf(path: string, format: ArchiveFormat, file: Option<DiskFile>, openError: string,
                            options: SummaryOptions, bufferLength: nat, lib: Libraries): ArchiveSummaryResult
  {
    match format
    case Zip => ZipSummaryOf(file, openError, options, bufferLength, lib)
    case Tar => TarSummaryOf(file, openError, Uncompressed, options, bufferLength, lib)
    case TarGz => TarSummaryOf(file, openError, Gzip, options, bufferLength, lib)
    case GZipSingle => GZipSummaryOf(path, file, openError, options, bufferLength, lib)
    case None => Message("Unsupported archive format for " + GetFileName(path) + ".")
  }

  /**
   * Failures never escape: a file that cannot be opened, a negative
   * preview size met before any read, or an archive the library rejects
   * yields the handler's failure message, and a readable archive without
   * entries yields "Archive is empty.".
   */
  lemma ArchiveFailuresReported(path: string, format: ArchiveFormat, file: Option<DiskFile>, openError: string,
                                options: SummaryOptions, bufferLength: nat, lib: Libraries)
    ensures var r := ArchiveSummaryOf(path, format, file, openError, options, bufferLength, lib);
      && (file.None? && format in {Zip, Tar, TarGz} ==> r == Message(ArchiveFailed + openError))
      && (file.None? && format == GZipSingle ==> r == Message(GZipFailed + openError))
      && (file.Some? && format == Zip && lib.readZip(file.value.bytes).Corrupt? ==>
            r == Message(ArchiveFailed + lib.readZip(file.value.bytes).message))
      && (file.Some? && format == GZipSingle && options.archivePreviewBytes < 0 ==> r == Message(GZipFailed + RentRangeMessage))
      && (file.Some? && format == GZipSingle && options.archivePreviewBytes >= 0 && lib.inflate(file.value.bytes).Corrupt? ==>
            r == Message(GZipFailed + lib.inflate(file.value.bytes).message))
      && (file.Some? && format == Zip && lib.readZip(file.value.bytes) == Decoded([]) ==> r == Message(EmptyArchive))
      && (file.Some? && format == Tar && lib.readTar(Uncompressed, file.value.bytes) == TarArchive([], Option.None) ==>
            r == Message(EmptyArchive))
      && (file.Some? && format == TarGz && lib.readTar(Gzip, file.value.bytes) == TarArchive([], Option.None) ==>
            r == Message(EmptyArchive))
  {
  }

  /**
   * A tar or compressed tar archive whose reader throws after its entries,
   * with no data stream failing and no preview due at a negative size,
   * yields the reader's message; the entries read before do not show.
   */
  lemma TarReaderFailureReported(file: Option<DiskFile>, openError: string, compression: TarCompression,
                                 options: SummaryOptions, bufferLength: nat, lib: Libraries)
    requires file.Some?
    ensures var archive := lib.readTar(compression, file.value.bytes);
      var r := TarSummaryOf(file, openError, compression, options, bufferLength, lib);
      && (archive.failure.Some? && NoCorruptData(archive.entries)
          && (options.archivePreviewBytes >= 0 || FirstWhere(archive.entries, IsTarPreviewCandidate).None?)
          ==> r == Message(ArchiveFailed + archive.failure.value))
      && (TarScanOf(archive, options.archiveMaxEntries, options.archivePreviewBytes, bufferLength, lib.decode).Failed? ==>
            r.table.None? && r.preview.None?)
  {
  }

  /** `Summarize`: each archive kind goes to its handler, and any other format is reported unsupported. */
  method Summarize(path: string, format: ArchiveFormat, file: Option<DiskFile>, openError: string,
                   options: SummaryOptions, bufferLength: nat, lib: Libraries) returns (r: ArchiveSummaryResult)
    requires options.archivePreviewBytes <= bufferLength
    ensures format == Zip ==> r == ZipSummaryOf(file, openError, options, bufferLength, lib)
    ensures format == Tar ==> r == TarSummaryOf(file, openError, Uncompressed, options, bufferLength, lib)
    ensures format == TarGz ==> r == TarSummaryOf(file, openError, Gzip, options, bufferLength, lib)
    ensures format == GZipSingle ==> r == GZipSummaryOf(path, file, openError, options, bufferLength, lib)
    ensures format == ArchiveFormat.None ==> r == Message("Unsupported archive format for " + GetFileName(path) + ".")
    ensures r == ArchiveSummaryOf(path, format, file, openError, options, bufferLength, lib)
  {
    match format
    case Zip => r := SummarizeZip(file, openError, options, bufferLength, lib);
    case Tar => r := SummarizeTar(file, openError, Uncompressed, options, bufferLength, lib);
    case TarGz => r := SummarizeTar(file, openError, Gzip, options, bufferLength, lib);
    case GZipSingle => r := SummarizeGZip(path, file, openError, options, bufferLength, lib);
    case None => r := Message("Unsupported archive format for " + GetFileName(path) + ".");
  }
}
