/**
 * Format sniffing (Services/Summaries/FileTypeInspector.cs): cheap probes of
 * a file's name and first bytes or characters. A probe whose file cannot be
 * opened answers false instead of failing.
 */
module FileTypeInspector {
  import opened Wrappers
  import opened Text
  import opened SummaryContext

  // ---------------------------------------------------------------------
  // Extension and content checks
  // ---------------------------------------------------------------------

  /** How many characters the XML probe reads. */
  const XmlProbeChars := 256

  /** The XML test on a file's text: its first 256 characters, leading white space dropped, start with '<'. */
  function LooksLikeXmlText(text: string): (r: bool)
    ensures r <==> exists i :: 0 <= i < |text| && i < XmlProbeChars && text[i] == '<'
                               && forall j :: 0 <= j < i ==> IsWhiteSpace(text[j])
  {
    var head := if |text| <= XmlProbeChars then text else text[..XmlProbeChars];
    var t := TrimStart(head);
    var r := StartsWith(t, "<") || (|t| >= 5 && EqualsIgnoreCase(t[..5], "<?xml"));
    assert r ==> text[|head| - |t|] == '<';
    r
  }

  /** `LooksLikeXml(path)`: false when the file cannot be opened. */
  function LooksLikeXmlFile(file: Option<DiskFile>): (r: bool)
    ensures file.None? ==> !r
    ensures file.Some? ==> r == LooksLikeXmlText(file.value.text)
  {
    file.Some? && LooksLikeXmlText(file.value.text)
  }

  /** `LooksLikeXml(context)`: a `.xml` extension in any case, or XML-looking content. */
  function LooksLikeXml(ctx: FileSummaryContext): (r: bool)
    ensures EqualsIgnoreCase(ctx.Extension(), ".xml") ==> r
    ensures !EqualsIgnoreCase(ctx.Extension(), ".xml") ==> r == LooksLikeXmlFile(ctx.file)
  {
    EqualsIgnoreCase(ctx.Extension(), ".xml") || LooksLikeXmlFile(ctx.file)
  }

  /** The first character of `text` that is not white space is one of `chars`. */
  predicate FirstNonBlankIn(text: string, chars: set<char>)
  {
    exists i :: 0 <= i < |text| && text[i] in chars && forall j :: 0 <= j < i ==> IsWhiteSpace(text[j])
  }

  /**
   * `LooksLikeJson(path)`: reads characters one at a time while they are
   * white space; the file looks like JSON when the first other character is
   * '{' or '['. An empty or all-blank file does not.
   */
  method LooksLikeJsonFile(file: Option<DiskFile>) returns (r: bool)
    ensures file.None? ==> !r
    ensures file.Some? ==> (r <==> FirstNonBlankIn(file.value.text, {'{', '['}))
  {
    if file.None? {
      return false;
    }
    var text := file.value.text;
    var pos := 0;
    var value: Option<char>;
    // do { value = reader.Read(); } while (value != -1 && char.IsWhiteSpace(value));
    value := if pos < |text| then Some(text[pos]) else Option.None;
    pos := pos + 1;
    while value.Some? && IsWhiteSpace(value.value)
      invariant 1 <= pos <= |text| + 1
      invariant forall j :: 0 <= j < pos - 1 ==> IsWhiteSpace(text[j])
      invariant value == if pos - 1 < |text| then Some(text[pos - 1]) else Option.None
      decreases |text| + 1 - pos
    {
      value := if pos < |text| then Some(text[pos]) else Option.None;
      pos := pos + 1;
    }
    if value.None? {
      return false;
    }
    r := value.value == '{' || value.value == '[';
    assert r ==> text[pos - 1] in {'{', '['};
    assert !IsWhiteSpace(text[pos - 1]);
  }

  /** `LooksLikeJson(context)`: a `.json` extension in any case, or JSON-looking content. */
  method LooksLikeJson(ctx: FileSummaryContext) returns (r: bool)
    ensures r <==> EqualsIgnoreCase(ctx.Extension(), ".json")
                   || (ctx.file.Some? && FirstNonBlankIn(ctx.file.value.text, {'{', '['}))
  {
    if EqualsIgnoreCase(ctx.Extension(), ".json") {
      return true;
    }
    r := LooksLikeJsonFile(ctx.file);
  }

  // ---------------------------------------------------------------------
  // Byte signatures
  // ---------------------------------------------------------------------

  /** `LooksLikePdfHeader`: the buffer starts with "%PDF". */
  predicate LooksLikePdfHeader(buffer: seq<Byte>)
  {
    |buffer| >= 4 && buffer[0] == 0x25 && buffer[1] == 0x50 && buffer[2] == 0x44 && buffer[3] == 0x46
  }

  /**
   * `HasZipSignature`: the first four bytes could be read and are "PK" then
   * 03, 05 or 07 (local file header, empty archive, spanned archive marker of
   * PKWARE's APPNOTE.TXT); the fourth byte is not looked at.
   */
  function HasZipSignature(file: Option<DiskFile>): (r: bool)
    ensures r ==> file.Some? && |file.value.bytes| >= 4
    ensures r <==> file.Some? && |file.value.bytes| >= 4 && file.value.bytes[..2] == [0x50, 0x4B]
                   && file.value.bytes[2] in {0x03, 0x05, 0x07}
  {
    if file.None? then false
    else
      var signature := file.value.bytes;
      var read := if |signature| < 4 then |signature| else 4;
      read == 4 && signature[0] == 0x50 && signature[1] == 0x4B
      && (signature[2] == 0x03 || signature[2] == 0x05 || signature[2] == 0x07)
  }

  // ---------------------------------------------------------------------
  // Archive kind from the name
  // ---------------------------------------------------------------------

  /**
   * `DetectArchiveFormat`: decided on the lower-cased path, first
   * ".tar.gz"/".tgz", then ".tar", then ".gz", then ".zip" or a zip signature.
   */
  function DetectArchiveFormat(ctx: FileSummaryContext): (f: ArchiveFormat)
    ensures var lower := ToLowerString(ctx.path);
      && (f == TarGz <==> EndsWith(lower, ".tar.gz") || EndsWith(lower, ".tgz"))
      && (f == Tar <==> !EndsWith(lower, ".tar.gz") && !EndsWith(lower, ".tgz") && EndsWith(lower, ".tar"))
      && (f == GZipSingle <==>
            !EndsWith(lower, ".tar.gz") && !EndsWith(lower, ".tgz") && !EndsWith(lower, ".tar") && EndsWith(lower, ".gz"))
      && (f == ArchiveFormat.None <==>
            !EndsWith(lower, ".tgz") && !EndsWith(lower, ".tar") && !EndsWith(lower, ".gz")
            && !EndsWith(lower, ".zip") && !HasZipSignature(ctx.file))
  {
    var lower := ToLowerString(ctx.path);
    assert EndsWith(lower, ".tar.gz") ==> EndsWith(lower, ".gz") by {
      if EndsWith(lower, ".tar.gz") {
        assert lower[|lower| - 3..] == lower[|lower| - 7..][4..];
      }
    }
    if EndsWith(lower, ".tar.gz") || EndsWith(lower, ".tgz") then TarGz
    else if EndsWith(lower, ".tar") then Tar
    else if EndsWith(lower, ".gz") then GZipSingle
    else if EndsWith(lower, ".zip") || HasZipSignature(ctx.file) then Zip
    else ArchiveFormat.None
  }

  /** A gzip-compressed name is never taken for a zip: the tar and gzip suffixes are tried first. */
  lemma GzNamesAreGzip(ctx: FileSummaryContext)
    requires EndsWith(ToLowerString(ctx.path), ".gz")
    ensures DetectArchiveFormat(ctx) in {TarGz, GZipSingle}
  {
  }

  // ---------------------------------------------------------------------
  // Text or binary
  // ---------------------------------------------------------------------

  /** A byte counted against text: below TAB, or between CR and space. DEL (0x7F) is not counted. */
  predicate IsControlByte(b: Byte)
  {
    b < 0x09 || (b > 0x0D && b < 0x20)
  }

  /** How many of the bytes are control bytes. */
  function ControlCount(s: seq<Byte>): (n: nat)
    ensures n <= |s|
    decreases |s|
  {
    if |s| == 0 then 0 else ControlCount(s[..|s| - 1]) + (if IsControlByte(s[|s| - 1]) then 1 else 0)
  }

  /**
   * The verdict on a sample: an empty sample is text; a PDF header or a NUL
   * byte is not; otherwise at most one byte in twenty may be a control byte.
   * (`nonText <= read * 0.05` in double arithmetic is exactly `20 * nonText <= read`.)
   */
  predicate IsTextSample(sample: seq<Byte>)
  {
    |sample| == 0 || (!LooksLikePdfHeader(sample) && (forall i :: 0 <= i < |sample| ==> sample[i] != 0)
                      && 20 * ControlCount(sample) <= |sample|)
  }

  /** The sample `IsProbablyTextFile` inspects: the first `TextPreviewBytes` bytes of the file. */
  function TextSample(bytes: seq<Byte>, previewBytes: nat): (s: seq<Byte>)
    ensures |s| == if previewBytes < |bytes| then previewBytes else |bytes|
    ensures s == bytes[..|s|]
  {
    if previewBytes < |bytes| then bytes[..previewBytes] else bytes
  }

  /**
   * `IsProbablyTextFile`: false when the file cannot be opened or the
   * preview size is negative (allocating the buffer throws); otherwise the
   * verdict on the sample.
   */
  method IsProbablyTextFile(ctx: FileSummaryContext) returns (r: bool)
    ensures r <==> ctx.file.Some? && ctx.options.textPreviewBytes >= 0
                   && IsTextSample(TextSample(ctx.file.value.bytes, ctx.options.textPreviewBytes))
  {
    if ctx.file.None? || ctx.options.textPreviewBytes < 0 {
      return false;
    }
    var buffer := TextSample(ctx.file.value.bytes, ctx.options.textPreviewBytes);
    var read := |buffer|;
    if read == 0 {
      return true;
    }
    if LooksLikePdfHeader(buffer) {
      return false;
    }
    var nonTextCount := 0;
    var i := 0;
    while i < read
      invariant 0 <= i <= read
      invariant nonTextCount == ControlCount(buffer[..i])
      invariant forall j :: 0 <= j < i ==> buffer[j] != 0
    {
      var b := buffer[i];
      if b == 0 {
        return false;
      }
      if b < 0x09 || (b > 0x0D && b < 0x20) {
        nonTextCount := nonTextCount + 1;
      }
      assert buffer[..i + 1][..i] == buffer[..i];
      i := i + 1;
    }
    assert buffer[..read] == buffer;
    return 20 * nonTextCount <= read;
  }

  /** A sample made only of tabs, line breaks and bytes from space upwards, not starting "%PDF", is text. */
  lemma {:induction false} PlainBytesAreText(sample: seq<Byte>)
    requires forall i :: 0 <= i < |sample| ==> 0x09 <= sample[i] <= 0x0D || sample[i] >= 0x20
    requires !LooksLikePdfHeader(sample)
    ensures IsTextSample(sample)
  {
    NoControlBytes(sample);
  }

  lemma {:induction false} NoControlBytes(s: seq<Byte>)
    requires forall i :: 0 <= i < |s| ==> !IsControlByte(s[i])
    ensures ControlCount(s) == 0
    decreases |s|
  {
    if |s| > 0 {
      NoControlBytes(s[..|s| - 1]);
    }
  }

  /** A single NUL byte anywhere in the sample makes the file binary. */
  lemma NulMeansBinary(sample: seq<Byte>, k: nat)
    requires k < |sample| && sample[k] == 0
    ensures !IsTextSample(sample)
  {
  }
}
