/**
 * `BinarySummaryService` (Services/BinarySummaryService.cs): the report for
 * a file no other analyzer takes — its recognised format, its SHA-256, the
 * Shannon entropy of a leading sample, a hex dump of the header and a few
 * printable strings found near the start.
 */
module BinarySummary {
  import opened Wrappers
  import opened Text
  import opened SummaryContext
  import opened Streams

  // ---------------------------------------------------------------------
  // Hexadecimal signatures
  // ---------------------------------------------------------------------

  /** A known leading byte sequence and the format it announces. */
  datatype Signature = Signature(magic: seq<Byte>, description: string)

  /** Every character is a hexadecimal digit, which `Convert.ToByte(s, 16)` requires. */
  predicate IsHexString(s: string)
  {
    forall i :: 0 <= i < |s| ==> HexValue(s[i]) >= 0
  }

  /** An odd-length string gets a leading "0". */
  function PadHex(hex: string): (p: string)
  {
    if |hex| % 2 != 0 then "0" + hex else hex
  }

  /** `Convert.ToByte(s, 16)` of a two-digit string. */
  function ParseHexByte(s: string): Byte
    requires |s| == 2 && IsHexString(s)
  {
    HexValue(s[0]) * 16 + HexValue(s[1])
  }

  /** The bytes `AsBytes` makes of a hexadecimal string: one per pair of digits after padding. */
  function BytesOfHex(hex: string): (r: seq<Byte>)
    requires IsHexString(hex)
  {
    var p := PadHex(hex);
    assert IsHexString(p);
    seq(|p| / 2, i requires 0 <= i < |p| / 2 => ParseHexByte(p[2 * i..2 * i + 2]))
  }

  /** `AsBytes`: fills a fresh array, one byte per pair of digits. */
  method AsBytes(hex: string) returns (bytes: array<Byte>)
    requires IsHexString(hex)
    ensures fresh(bytes) && bytes[..] == BytesOfHex(hex)
  {
    var h := hex;
    if |h| % 2 != 0 {
      h := "0" + h;
    }
    assert h == PadHex(hex) && IsHexString(h);
    bytes := new Byte[|h| / 2];
    for i := 0 to bytes.Length
      invariant forall k :: 0 <= k < i ==> bytes[k] == BytesOfHex(hex)[k]
    {
      bytes[i] := ParseHexByte(h[i * 2..i * 2 + 2]);
    }
  }

  /** Reading back the hexadecimal text of any bytes gives those bytes, and each byte's two digits are its `X2` text. */
  lemma AsBytesOfHexText(bytes: seq<Byte>)
    ensures forall i :: 0 <= i < |bytes| ==> HexText(bytes)[2 * i..2 * i + 2] == Hex2(bytes[i])
    ensures IsHexString(HexText(bytes)) && BytesOfHex(HexText(bytes)) == bytes
  {
    var s := HexText(bytes);
    forall j | 0 <= j < |s|
      ensures HexValue(s[j]) >= 0
    {
      HexValueOfHexDigit(if j % 2 == 0 then bytes[j / 2] / 16 else bytes[j / 2] % 16);
    }
    assert PadHex(s) == s;
    forall i | 0 <= i < |bytes|
      ensures s[2 * i..2 * i + 2] == Hex2(bytes[i]) && BytesOfHex(s)[i] == bytes[i]
    {
      assert (2 * i) / 2 == i && (2 * i + 1) / 2 == i;
      assert s[2 * i] == HexDigit(bytes[i] / 16) && s[2 * i + 1] == HexDigit(bytes[i] % 16);
      HexValueOfHexDigit(bytes[i] / 16);
      HexValueOfHexDigit(bytes[i] % 16);
      HexPair(s, i, s[2 * i], s[2 * i + 1]);
    }
  }

  /** An odd number of digits reads as if a "0" led it: the first byte is the value of the first digit alone. */
  lemma OddHexLeads(hex: string)
    requires IsHexString(hex) && |hex| % 2 == 1
    ensures |BytesOfHex(hex)| == (|hex| + 1) / 2
    ensures BytesOfHex(hex)[0] == HexValue(hex[0])
  {
    var p := PadHex(hex);
    assert p[0..2] == ['0', hex[0]];
  }

  /** `KnownSignatures`, in the order they are tried. */
  function KnownSignatures(): seq<Signature>
  {
    [Signature(BytesOfHex("4D5A"), "Windows Executable (PE)"),
     Signature(BytesOfHex("7F454C46"), "ELF Executable"),
     Signature(BytesOfHex("504B0304"), "ZIP archive"),
     Signature(BytesOfHex("89504E47"), "PNG image"),
     Signature(BytesOfHex("25504446"), "PDF document"),
     Signature(BytesOfHex("47494638"), "GIF image"),
     Signature(BytesOfHex("424D"), "BMP image"),
     Signature(BytesOfHex("494433"), "MP3 audio (ID3)")]
  }

  lemma HexPair(p: string, i: nat, hi: char, lo: char)
    requires 2 * i + 2 <= |p| && p[2 * i] == hi && p[2 * i + 1] == lo
    ensures p[2 * i..2 * i + 2] == [hi, lo]
  {
  }

  /** The signature table as bytes: "MZ", 0x7F "ELF", "PK" 3 4, 0x89 "PNG", "%PDF", "GIF8", "BM", "ID3". */
  lemma KnownSignatureBytes()
    ensures KnownSignatures() ==
      [Signature([0x4D, 0x5A], "Windows Executable (PE)"),
       Signature([0x7F, 0x45, 0x4C, 0x46], "ELF Executable"),
       Signature([0x50, 0x4B, 0x03, 0x04], "ZIP archive"),
       Signature([0x89, 0x50, 0x4E, 0x47], "PNG image"),
       Signature([0x25, 0x50, 0x44, 0x46], "PDF document"),
       Signature([0x47, 0x49, 0x46, 0x38], "GIF image"),
       Signature([0x42, 0x4D], "BMP image"),
       Signature([0x49, 0x44, 0x33], "MP3 audio (ID3)")]
  {
    PeSignature();
    ElfSignature();
    ZipSignature();
    PngSignature();
    PdfSignature();
    GifSignature();
    BmpSignature();
    Mp3Signature();
  }

  lemma PeSignature()
    ensures KnownSignatures()[0] == Signature([0x4D, 0x5A], "Windows Executable (PE)")
  {
    TwoBytes("4D5A", 0x4D, 0x5A);
  }

  lemma ElfSignature()
    ensures KnownSignatures()[1] == Signature([0x7F, 0x45, 0x4C, 0x46], "ELF Executable")
  {
    FourBytes("7F454C46", 0x7F, 0x45, 0x4C, 0x46);
  }

  lemma ZipSignature()
    ensures KnownSignatures()[2] == Signature([0x50, 0x4B, 0x03, 0x04], "ZIP archive")
  {
    FourBytes("504B0304", 0x50, 0x4B, 0x03, 0x04);
  }

  lemma PngSignature()
    ensures KnownSignatures()[3] == Signature([0x89, 0x50, 0x4E, 0x47], "PNG image")
  {
    FourBytes("89504E47", 0x89, 0x50, 0x4E, 0x47);
  }

  lemma PdfSignature()
    ensures KnownSignatures()[4] == Signature([0x25, 0x50, 0x44, 0x46], "PDF document")
  {
    FourBytes("25504446", 0x25, 0x50, 0x44, 0x46);
  }

  lemma GifSignature()
    ensures KnownSignatures()[5] == Signature([0x47, 0x49, 0x46, 0x38], "GIF image")
  {
    FourBytes("47494638", 0x47, 0x49, 0x46, 0x38);
  }

  lemma BmpSignature()
    ensures KnownSignatures()[6] == Signature([0x42, 0x4D], "BMP image")
  {
    TwoBytes("424D", 0x42, 0x4D);
  }

  lemma Mp3Signature()
    ensures KnownSignatures()[7] == Signature([0x49, 0x44, 0x33], "MP3 audio (ID3)")
  {
    var p := PadHex("494433");
    HexPair(p, 0, '4', '9');
    HexPair(p, 1, '4', '4');
    HexPair(p, 2, '3', '3');
  }

  lemma TwoBytes(hex: string, a: Byte, b: Byte)
    requires |hex| == 4 && IsHexString(hex)
    requires HexValue(hex[0]) * 16 + HexValue(hex[1]) == a
    requires HexValue(hex[2]) * 16 + HexValue(hex[3]) == b
    ensures BytesOfHex(hex) == [a, b]
  {
    HexPair(hex, 0, hex[0], hex[1]);
    HexPair(hex, 1, hex[2], hex[3]);
  }

  lemma FourBytes(hex: string, a: Byte, b: Byte, c: Byte, d: Byte)
    requires |hex| == 8 && IsHexString(hex)
    requires HexValue(hex[0]) * 16 + HexValue(hex[1]) == a
    requires HexValue(hex[2]) * 16 + HexValue(hex[3]) == b
    requires HexValue(hex[4]) * 16 + HexValue(hex[5]) == c
    requires HexValue(hex[6]) * 16 + HexValue(hex[7]) == d
    ensures BytesOfHex(hex) == [a, b, c, d]
  {
    HexPair(hex, 0, hex[0], hex[1]);
    HexPair(hex, 1, hex[2], hex[3]);
    HexPair(hex, 2, hex[4], hex[5]);
    HexPair(hex, 3, hex[6], hex[7]);
  }

  // ---------------------------------------------------------------------
  // Format detection
  // ---------------------------------------------------------------------

  /** The description of the first signature the head starts with, or "" when none matches. */
  function DetectedType(signatures: seq<Signature>, head: seq<Byte>): (t: string)
    ensures t == "" || exists k :: 0 <= k < |signatures| && signatures[k].magic <= head && t == signatures[k].description
  {
    if signatures == [] then ""
    else if signatures[0].magic <= head then signatures[0].description
    else
      var t := DetectedType(signatures[1..], head);
      assert t != "" ==> exists k :: 1 <= k < |signatures| && signatures[k].magic <= head && t == signatures[k].description by {
        if t != "" {
          var k :| 0 <= k < |signatures| - 1 && signatures[1..][k].magic <= head && t == signatures[1..][k].description;
          assert signatures[k + 1] == signatures[1..][k];
        }
      }
      t
  }

  /** `DetectFileType`: tries the signatures in order and stops at the first whose bytes begin the head. */
  method DetectFileType(head: seq<Byte>) returns (t: string)
    ensures t == DetectedType(KnownSignatures(), head)
  {
    var signatures := KnownSignatures();
    for i := 0 to |signatures|
      invariant DetectedType(signatures[i..], head) == DetectedType(signatures, head)
    {
      var magic := signatures[i].magic;
      assert signatures[i..][1..] == signatures[i + 1..];
      if |head| >= |magic| && head[..|magic|] == magic {
        return signatures[i].description;
      }
    }
    assert signatures[|signatures|..] == [];
    return "";
  }

  /** Detection finds the first matching signature. */
  lemma {:induction false} FirstMatchDetected(signatures: seq<Signature>, head: seq<Byte>, k: nat)
    requires k < |signatures| && signatures[k].magic <= head
    requires forall j :: 0 <= j < k ==> !(signatures[j].magic <= head)
    ensures DetectedType(signatures, head) == signatures[k].description
  {
    if k > 0 {
      FirstMatchDetected(signatures[1..], head, k - 1);
    }
  }

  /** Detection gives "" when no signature matches. */
  lemma {:induction false} NoMatchUndetected(signatures: seq<Signature>, head: seq<Byte>)
    requires forall j :: 0 <= j < |signatures| ==> !(signatures[j].magic <= head)
    ensures DetectedType(signatures, head) == ""
  {
    if signatures != [] {
      NoMatchUndetected(signatures[1..], head);
    }
  }

  /** Two byte strings neither of which begins the other cannot both begin the same head. */
  lemma NotBothPrefixes(a: seq<Byte>, b: seq<Byte>, h: seq<Byte>)
    requires !(a <= b) && !(b <= a)
    ensures !(a <= h && b <= h)
  {
  }

  /** No known signature begins another, so at most one matches any head. */
  lemma KnownSignaturesDisjoint(i: nat, j: nat)
    requires i < |KnownSignatures()| && j < |KnownSignatures()| && i != j
    ensures !(KnownSignatures()[i].magic <= KnownSignatures()[j].magic)
  {
    var known := KnownSignatures();
    assert known[i].magic != [] && known[j].magic != [] && known[i].magic[0] != known[j].magic[0] by {
      PeSignature(); ElfSignature(); ZipSignature(); PngSignature();
      PdfSignature(); GifSignature(); BmpSignature(); Mp3Signature();
    }
  }

  /**
   * The table's order does not matter: a head that starts with a known
   * signature is reported as that signature's format, and a head that starts
   * with none gets no format line.
   */
  lemma DetectsMatchingSignature(head: seq<Byte>, k: nat)
    requires k < |KnownSignatures()| && KnownSignatures()[k].magic <= head
    ensures DetectedType(KnownSignatures(), head) == KnownSignatures()[k].description
  {
    var known := KnownSignatures();
    forall j | 0 <= j < k
      ensures !(known[j].magic <= head)
    {
      KnownSignaturesDisjoint(j, k);
      KnownSignaturesDisjoint(k, j);
      NotBothPrefixes(known[j].magic, known[k].magic, head);
    }
    FirstMatchDetected(known, head, k);
  }

  lemma UnknownHeadUndetected(head: seq<Byte>)
    requires forall k :: 0 <= k < |KnownSignatures()| ==> !(KnownSignatures()[k].magic <= head)
    ensures DetectedType(KnownSignatures(), head) == ""
  {
    NoMatchUndetected(KnownSignatures(), head);
  }

  // ---------------------------------------------------------------------
  // Reading
  // ---------------------------------------------------------------------

  /** The message of the `OverflowException` that allocating a negative-length array throws. */
  const OverflowMessage := "Arithmetic operation resulted in an overflow."

  /**
   * `ReadBytes`: up to `count` bytes from the stream's position; a negative
   * count fails (None) before anything is read.
   */
  method ReadBytes(fs: ByteStream, count: int) returns (bytes: Option<seq<Byte>>)
    requires fs.Valid()
    modifies fs
    ensures fs.Valid()
    ensures count < 0 ==> bytes.None? && fs.position == old(fs.position)
    ensures count >= 0 ==> bytes == Some(old(fs.contents[fs.position..fs.position + MinNat(count, |fs.contents| - fs.position)]))
    ensures count >= 0 ==> fs.position == old(fs.position) + |bytes.value|
  {
    if count < 0 {
      return Option.None;
    }
    var chunk := fs.Read(count);
    return Some(chunk);
  }

  // ---------------------------------------------------------------------
  // Entropy
  // ---------------------------------------------------------------------

  /** How often each byte value occurs in the sample, indexed by value. */
  function Histogram(sample: seq<Byte>): (counts: seq<nat>)
    ensures |counts| == 256
  {
    seq(256, v requires 0 <= v < 256 => multiset(sample)[v as Byte])
  }

  /** The sum of a sequence of counts. */
  function Sum(counts: seq<nat>): nat
  {
    if counts == [] then 0 else Sum(counts[..|counts| - 1]) + counts[|counts| - 1]
  }

  /** The counting loop of `CalculateEntropy`: one bucket per byte value. */
  method CountBytes(buffer: seq<Byte>) returns (counts: array<nat>)
    ensures fresh(counts) && counts[..] == Histogram(buffer)
  {
    counts := new nat[256](_ => 0);
    for j := 0 to |buffer|
      invariant forall v :: 0 <= v < 256 ==> counts[v] == multiset(buffer[..j])[v as Byte]
    {
      TakeOneMore(buffer, j);
      counts[buffer[j]] := counts[buffer[j]] + 1;
    }
    assert buffer[..|buffer|] == buffer;
  }

  lemma {:induction false} SumIncrement(counts: seq<nat>, b: nat)
    requires b < |counts|
    ensures Sum(counts[b := counts[b] + 1]) == Sum(counts) + 1
    decreases |counts|
  {
    var bumped := counts[b := counts[b] + 1];
    var n := |counts| - 1;
    if b == n {
      assert bumped[..n] == counts[..n];
    } else {
      assert bumped[..n] == counts[..n][b := counts[b] + 1];
      SumIncrement(counts[..n], b);
    }
  }

  lemma {:induction false} SumZeros(counts: seq<nat>)
    requires forall i :: 0 <= i < |counts| ==> counts[i] == 0
    ensures Sum(counts) == 0
    decreases |counts|
  {
    if counts != [] {
      SumZeros(counts[..|counts| - 1]);
    }
  }

  /** The histogram accounts for every byte of the sample exactly once. */
  lemma {:induction false} HistogramTotal(sample: seq<Byte>)
    ensures Sum(Histogram(sample)) == |sample|
    decreases |sample|
  {
    if sample == [] {
      SumZeros(Histogram(sample));
    } else {
      var n := |sample| - 1;
      var b := sample[n];
      assert sample == sample[..n] + [b];
      HistogramTotal(sample[..n]);
      assert Histogram(sample) == Histogram(sample[..n])[b := Histogram(sample[..n])[b] + 1];
      SumIncrement(Histogram(sample[..n]), b);
    }
  }

  /**
   * The entropy sum over the first buckets: each non-empty bucket of
   * probability p contributes -p * log2(p), in bucket order.
   */
  function EntropySumOf(counts: seq<nat>, length: nat, log2: real -> real): real
    requires length > 0
  {
    if counts == [] then 0.0
    else
      var rest := EntropySumOf(counts[..|counts| - 1], length, log2);
      var c := counts[|counts| - 1];
      if c == 0 then rest
      else
        var p := c as real / length as real;
        rest - p * log2(p)
  }

  /** The Shannon entropy `CalculateEntropy` computes: 0 for an empty sample, otherwise the sum over the histogram. */
  function EntropyOf(sample: seq<Byte>, log2: real -> real): real
  {
    if sample == [] then 0.0 else EntropySumOf(Histogram(sample), |sample|, log2)
  }

  /** The summing loop of `CalculateEntropy`; buckets that are empty are skipped. */
  method EntropySum(counts: array<nat>, length: nat, log2: real -> real) returns (entropy: real)
    requires length > 0
    ensures entropy == EntropySumOf(counts[..], length, log2)
  {
    entropy := 0.0;
    for k := 0 to counts.Length
      invariant entropy == EntropySumOf(counts[..k], length, log2)
    {
      TakeOneMore(counts[..], k);
      var count := counts[k];
      if count != 0 {
        var p := count as real / length as real;
        entropy := entropy - p * log2(p);
      }
    }
    assert counts[..counts.Length] == counts[..];
  }

  /**
   * `CalculateEntropy`: rewinds, reads up to `headBytesToUse` bytes and
   * computes their entropy; a negative count fails (None).
   */
  method CalculateEntropy(fs: ByteStream, headBytesToUse: int, log2: real -> real) returns (entropy: Option<real>)
    requires fs.Valid()
    modifies fs
    ensures fs.Valid()
    ensures headBytesToUse < 0 ==> entropy.None?
    ensures headBytesToUse >= 0 ==> entropy == Some(EntropyOf(fs.contents[..MinNat(headBytesToUse, |fs.contents|)], log2))
    ensures headBytesToUse >= 0 ==> fs.position == MinNat(headBytesToUse, |fs.contents|)
  {
    fs.Seek(0);
    var buffer := ReadBytes(fs, headBytesToUse);
    if buffer.None? {
      return Option.None;
    }
    if |buffer.value| == 0 {
      return Some(0.0);
    }
    var counts := CountBytes(buffer.value);
    var sum := EntropySum(counts, |buffer.value|, log2);
    return Some(sum);
  }

  lemma WholeTerm(length: nat, log2: real -> real)
    requires length > 0 && log2(1.0) == 0.0
    ensures var p := length as real / length as real; p * log2(p) == 0.0
  {
    var p := length as real / length as real;
    assert p == 1.0;
  }

  lemma {:induction false} SingleValueSum(counts: seq<nat>, length: nat, log2: real -> real)
    requires length > 0 && log2(1.0) == 0.0
    requires forall i :: 0 <= i < |counts| ==> counts[i] == 0 || counts[i] == length
    ensures EntropySumOf(counts, length, log2) == 0.0
    decreases |counts|
  {
    if counts != [] {
      SingleValueSum(counts[..|counts| - 1], length, log2);
      WholeTerm(length, log2);
    }
  }

  lemma {:induction false} CountOfRepeated(sample: seq<Byte>, b: Byte)
    requires forall i :: 0 <= i < |sample| ==> sample[i] == b
    ensures multiset(sample)[b] == |sample|
    decreases |sample|
  {
    if sample != [] {
      var n := |sample| - 1;
      assert sample == sample[..n] + [b];
      CountOfRepeated(sample[..n], b);
    }
  }

  /** A sample of one repeated byte value has entropy 0 (given log2(1) = 0). */
  lemma UniformSampleHasNoEntropy(sample: seq<Byte>, log2: real -> real)
    requires log2(1.0) == 0.0
    requires forall i :: 0 <= i < |sample| ==> sample[i] == sample[0]
    ensures EntropyOf(sample, log2) == 0.0
  {
    if sample != [] {
      var counts := Histogram(sample);
      CountOfRepeated(sample, sample[0]);
      forall v | 0 <= v < 256
        ensures counts[v] == 0 || counts[v] == |sample|
      {
        if v != sample[0] {
          assert v as Byte !in sample;
        }
      }
      SingleValueSum(counts, |sample|, log2);
    }
  }

  // ---------------------------------------------------------------------
  // Hex dump
  // ---------------------------------------------------------------------

  /** The bytes printed as themselves: 32 (space) to 126 ('~'). */
  predicate IsPrintable(b: Byte)
  {
    32 <= b <= 126
  }

  /** The character of a byte in the dump's text column: itself when printable, '.' otherwise. */
  function AsciiChar(b: Byte): char
  {
    if IsPrintable(b) then b as char else '.'
  }

  function AsciiColumn(chunk: seq<Byte>): (s: string)
    ensures |s| == |chunk|
  {
    seq(|chunk|, i requires 0 <= i < |chunk| => AsciiChar(chunk[i]))
  }

  /** Each byte as two hex digits, separated by single spaces. */
  function HexColumn(chunk: seq<Byte>): string
  {
    Join(" ", seq(|chunk|, i requires 0 <= i < |chunk| => Hex2(chunk[i])))
  }

  /** One dump line: the offset in at least four hex digits, the hex column padded to 48, and the text column. */
  function DumpLine(offset: nat, chunk: seq<Byte>): string
  {
    HexPadded(offset, 4) + ": " + PadRight(HexColumn(chunk), 16 * 3) + " | " + AsciiColumn(chunk)
  }

  /** The `k`-th run of (at most) 16 bytes. */
  function Chunk(bytes: seq<Byte>, k: nat): (c: seq<Byte>)
    requires 16 * k < |bytes|
    ensures 1 <= |c| <= 16
  {
    bytes[16 * k..MinNat(16 * k + 16, |bytes|)]
  }

  /** The lines of the dump, one per 16 bytes or part thereof. */
  function DumpLines(bytes: seq<Byte>): (lines: seq<string>)
    ensures |lines| == (|bytes| + 15) / 16
  {
    seq((|bytes| + 15) / 16, k requires 0 <= k < (|bytes| + 15) / 16 => DumpLine(16 * k, Chunk(bytes, k)))
  }

  /** The bytes `FormatHexDump(data, offset, length)` shows. */
  function DumpedBytes(data: seq<Byte>, offset: int, length: int): seq<Byte>
    requires length <= 0 || 0 <= offset <= offset + length <= |data|
  {
    if length <= 0 then [] else data[offset..offset + length]
  }

  /** `FormatHexDump`'s result: the dump lines, trailing white space removed. */
  function HexDumpOf(data: seq<Byte>, offset: int, length: int): string
    requires length <= 0 || 0 <= offset <= offset + length <= |data|
  {
    TrimEnd(Lines(DumpLines(DumpedBytes(data, offset, length))))
  }

  /** `FormatHexDump`: one line per 16 bytes, offsets counted from the first byte shown. */
  method FormatHexDump(data: seq<Byte>, offset: int, length: int) returns (dump: string)
    requires length <= 0 || 0 <= offset <= offset + length <= |data|
    ensures dump == HexDumpOf(data, offset, length)
  {
    ghost var lines := DumpLines(DumpedBytes(data, offset, length));
    var text := "";
    var i := 0;
    ghost var k := 0;
    while i < length
      invariant i == 16 * k && k <= |lines|
      invariant i > 0 ==> i - 16 < length
      invariant text == Lines(lines[..k])
    {
      var chunkSize := MinNat(16, length - i);
      var chunk := data[offset + i..offset + i + chunkSize];
      DumpStep(data, offset, length, i, k);
      LinesOneMore(lines, k);
      text := text + DumpLine(i, chunk) + NewLine;
      i := i + 16;
      k := k + 1;
    }
    LinesCount(length, k);
    assert lines[..k] == lines;
    dump := TrimEnd(text);
  }

  /** The loop's `k`-th chunk, starting at byte `i`, is line `k` of the dump. */
  lemma DumpStep(data: seq<Byte>, offset: int, length: int, i: nat, k: nat)
    requires 0 <= offset <= offset + length <= |data| && i == 16 * k && i < length
    ensures k < |DumpLines(DumpedBytes(data, offset, length))|
    ensures DumpLines(DumpedBytes(data, offset, length))[k]
      == DumpLine(i, data[offset + i..offset + i + MinNat(16, length - i)])
  {
    var bytes := data[offset..offset + length];
    assert DumpedBytes(data, offset, length) == bytes;
    ChunkAt(data, offset, length, i, k);
  }

  lemma ChunkAt(data: seq<Byte>, offset: int, length: int, i: nat, k: nat)
    requires 0 <= offset <= offset + length <= |data| && i == 16 * k && i < length
    ensures data[offset + i..offset + i + MinNat(16, length - i)] == Chunk(data[offset..offset + length], k)
  {
    var n := MinNat(16, length - i);
    assert MinNat(i + 16, length) == i + n;
    SliceOfSlice(data, offset, offset + length, i, i + n);
  }

  /** The loop stops after exactly one round per line. */
  lemma LinesCount(length: int, k: nat)
    requires 16 * k >= length && (k > 0 ==> 16 * k - 16 < length)
    ensures k == if length <= 0 then 0 else (length + 15) / 16
  {
  }

  lemma {:induction false} JoinPairs(parts: seq<string>, m: nat)
    requires forall j :: 0 <= j < |parts| ==> |parts[j]| == 2
    requires m < |parts|
    ensures |Join(" ", parts)| == 3 * |parts| - 1
    ensures Join(" ", parts)[3 * m..3 * m + 2] == parts[m]
    decreases |parts|
  {
    if |parts| > 1 {
      var rest := Join(" ", parts[1..]);
      JoinPairs(parts[1..], if m > 0 then m - 1 else 0);
      assert Join(" ", parts) == parts[0] + " " + rest;
      if m > 0 {
        assert Join(" ", parts)[3 * m..3 * m + 2] == rest[3 * (m - 1)..3 * (m - 1) + 2];
      }
    }
  }

  /** With `w` the width of the offset, a chunk's byte `m` appears as two hex digits at column w+2+3m and as its character at column w+53+m. */
  lemma DumpLineColumns(offset: nat, chunk: seq<Byte>, m: nat)
    requires |chunk| <= 16 && m < |chunk|
    ensures var w := |HexPadded(offset, 4)|;
      var line := DumpLine(offset, chunk);
      |line| == w + 53 + |chunk|
      && line[w..w + 2] == ": "
      && line[w + 2 + 3 * m..w + 2 + 3 * m + 2] == Hex2(chunk[m])
      && line[w + 50..w + 53] == " | "
      && line[w + 53 + m] == AsciiChar(chunk[m])
  {
    var parts := seq(|chunk|, i requires 0 <= i < |chunk| => Hex2(chunk[i]));
    JoinPairs(parts, m);
    var hex := HexColumn(chunk);
    var padded := PadRight(hex, 16 * 3);
    assert |padded| == 48;
    var w := |HexPadded(offset, 4)|;
    var line := DumpLine(offset, chunk);
    assert line == HexPadded(offset, 4) + ": " + padded + " | " + AsciiColumn(chunk);
    assert line[w + 2..w + 50] == padded;
    assert padded[3 * m..3 * m + 2] == hex[3 * m..3 * m + 2];
  }

  /** Byte `j` of the dumped bytes is byte `j % 16` of line `j / 16`, whose offset is `16 * (j / 16)`. */
  lemma DumpShowsEveryByte(bytes: seq<Byte>, j: nat)
    requires j < |bytes|
    ensures j / 16 < |DumpLines(bytes)|
    ensures DumpLines(bytes)[j / 16] == DumpLine(16 * (j / 16), Chunk(bytes, j / 16))
    ensures Chunk(bytes, j / 16)[j % 16] == bytes[j]
  {
  }

  // ---------------------------------------------------------------------
  // Printable strings
  // ---------------------------------------------------------------------

  /** The bytes read as characters. */
  function CharsOf(bytes: seq<Byte>): (s: string)
    ensures |s| == |bytes|
  {
    seq(|bytes|, i requires 0 <= i < |bytes| => bytes[i] as char)
  }

  /** The stretches of bytes between non-printable bytes, in order; empty stretches included, at least one. */
  function Runs(data: seq<Byte>): (runs: seq<seq<Byte>>)
    ensures |runs| >= 1
  {
    if data == [] then [[]] else RunsStep(Runs(data[..|data| - 1]), data[|data| - 1])
  }

  /** The stretches after one more byte: a printable byte extends the last stretch, any other starts a new one. */
  function RunsStep(runs: seq<seq<Byte>>, b: Byte): (next: seq<seq<Byte>>)
    requires |runs| >= 1
    ensures |next| >= 1
  {
    if IsPrintable(b) then runs[..|runs| - 1] + [runs[|runs| - 1] + [b]] else runs + [[]]
  }

  lemma RunsStepAppend(x: seq<seq<Byte>>, y: seq<seq<Byte>>, b: Byte)
    requires |y| >= 1
    ensures RunsStep(x + y, b) == x + RunsStep(y, b)
  {
    assert (x + y)[..|x + y| - 1] == x + y[..|y| - 1];
    assert (x + y)[|x + y| - 1] == y[|y| - 1];
  }

  /** The most characters a sample may hold. */
  function Cap(maxLength: int): nat
  {
    if maxLength < 0 then 0 else maxLength
  }

  /** A stretch as the builder holds it: its first `maxLength` bytes, as characters. */
  function Sample(run: seq<Byte>, maxLength: int): string
  {
    CharsOf(run[..MinNat(|run|, Cap(maxLength))])
  }

  /** The samples of stretches, keeping those of at least `minLength` characters. */
  function Kept(runs: seq<seq<Byte>>, minLength: int, maxLength: int): seq<string>
  {
    if runs == [] then []
    else
      var s := Sample(runs[|runs| - 1], maxLength);
      Kept(runs[..|runs| - 1], minLength, maxLength) + (if |s| >= minLength then [s] else [])
  }

  /** What `ExtractPrintableStrings` yields. */
  function PrintableSamples(data: seq<Byte>, minLength: int, maxLength: int): seq<string>
  {
    Kept(Runs(data), minLength, maxLength)
  }

  lemma SampleStep(run: seq<Byte>, b: Byte, maxLength: int)
    ensures Sample(run + [b], maxLength) ==
      if |Sample(run, maxLength)| < maxLength then Sample(run, maxLength) + [b as char] else Sample(run, maxLength)
  {
    var n := MinNat(|run|, Cap(maxLength));
    if |run| < maxLength {
      assert (run + [b])[..MinNat(|run| + 1, Cap(maxLength))] == run[..n] + [b];
    } else {
      assert (run + [b])[..MinNat(|run| + 1, Cap(maxLength))] == run[..n];
    }
  }

  /** One byte of the scan: extend the builder while it is short of `maxLength`, or close the stretch. */
  method ScanByte(samples: seq<string>, builder: string, b: Byte, minLength: int, maxLength: int)
      returns (samples': seq<string>, builder': string)
    ensures IsPrintable(b) ==> (samples' == samples
      && builder' == if |builder| < maxLength then builder + [b as char] else builder)
    ensures !IsPrintable(b) ==> (builder' == ""
      && samples' == samples + (if |builder| >= minLength then [builder] else []))
  {
    samples', builder' := samples, builder;
    if 32 <= b <= 126 {
      if |builder'| < maxLength {
        builder' := builder' + [b as char];
      }
    } else {
      if |builder'| >= minLength {
        samples' := samples' + [builder'];
      }
      builder' := "";
    }
  }

  /**
   * `ExtractPrintableStrings`: collects printable bytes into a builder that
   * stops growing at `maxLength`, and hands it out at each non-printable byte
   * and at the end when it holds at least `minLength` characters.
   */
  method ExtractPrintableStrings(data: seq<Byte>, minLength: int, maxLength: int) returns (samples: seq<string>)
    ensures samples == PrintableSamples(data, minLength, maxLength)
  {
    var builder := "";
    samples := [];
    for i := 0 to |data|
      invariant var runs := Runs(data[..i]);
        builder == Sample(runs[|runs| - 1], maxLength) && samples == Kept(runs[..|runs| - 1], minLength, maxLength)
    {
      ghost var runs := Runs(data[..i]);
      TakeOneMore(data, i);
      if IsPrintable(data[i]) {
        SampleStep(runs[|runs| - 1], data[i], maxLength);
      }
      samples, builder := ScanByte(samples, builder, data[i], minLength, maxLength);
    }
    assert data[..|data|] == data;
    ghost var runs := Runs(data);
    assert runs == runs[..|runs| - 1] + [runs[|runs| - 1]];
    if |builder| >= minLength {
      samples := samples + [builder];
    }
  }

  lemma {:induction false} RunsPrintable(data: seq<Byte>)
    ensures forall r, k :: r in Runs(data) && 0 <= k < |r| ==> IsPrintable(r[k])
    decreases |data|
  {
    if data != [] {
      RunsPrintable(data[..|data| - 1]);
    }
  }

  lemma {:induction false} KeptBounded(runs: seq<seq<Byte>>, minLength: int, maxLength: int)
    requires forall r, k :: r in runs && 0 <= k < |r| ==> IsPrintable(r[k])
    ensures forall s :: s in Kept(runs, minLength, maxLength) ==>
      minLength <= |s| <= Cap(maxLength) && forall c :: c in s ==> ' ' <= c <= '~'
    decreases |runs|
  {
    if runs != [] {
      assert forall r :: r in runs[..|runs| - 1] ==> r in runs;
      KeptBounded(runs[..|runs| - 1], minLength, maxLength);
      var run := runs[|runs| - 1];
      assert forall k :: 0 <= k < |run| ==> IsPrintable(run[k]);
    }
  }

  /** Every sample holds only printable characters, at least `minLength` and at most `maxLength` of them. */
  lemma SamplesArePrintable(data: seq<Byte>, minLength: int, maxLength: int)
    ensures forall s :: s in PrintableSamples(data, minLength, maxLength) ==>
      minLength <= |s| <= Cap(maxLength) && forall c :: c in s ==> ' ' <= c <= '~'
  {
    RunsPrintable(data);
    KeptBounded(Runs(data), minLength, maxLength);
  }

  lemma {:induction false} RunsSplit(a: seq<Byte>, sep: Byte, b: seq<Byte>)
    requires !IsPrintable(sep)
    ensures Runs(a + [sep] + b) == Runs(a) + Runs(b)
    decreases |b|
  {
    if b == [] {
      assert a + [sep] + b == a + [sep];
      assert (a + [sep])[..|a|] == a;
    } else {
      var n := |b| - 1;
      var whole := a + [sep] + b;
      assert whole[..|whole| - 1] == a + [sep] + b[..n];
      assert whole[|whole| - 1] == b[n];
      RunsSplit(a, sep, b[..n]);
      RunsStepAppend(Runs(a), Runs(b[..n]), b[n]);
    }
  }

  lemma {:induction false} KeptSplit(x: seq<seq<Byte>>, y: seq<seq<Byte>>, minLength: int, maxLength: int)
    ensures Kept(x + y, minLength, maxLength) == Kept(x, minLength, maxLength) + Kept(y, minLength, maxLength)
    decreases |y|
  {
    if y == [] {
      assert x + y == x;
    } else {
      assert (x + y)[..|x + y| - 1] == x + y[..|y| - 1];
      KeptSplit(x, y[..|y| - 1], minLength, maxLength);
    }
  }

  /** A non-printable byte separates the samples: the samples of the two sides, in order. */
  lemma SamplesSplitAtSeparator(a: seq<Byte>, sep: Byte, b: seq<Byte>, minLength: int, maxLength: int)
    requires !IsPrintable(sep)
    ensures PrintableSamples(a + [sep] + b, minLength, maxLength)
      == PrintableSamples(a, minLength, maxLength) + PrintableSamples(b, minLength, maxLength)
  {
    RunsSplit(a, sep, b);
    KeptSplit(Runs(a), Runs(b), minLength, maxLength);
  }

  lemma {:induction false} PrintableRunIsOne(run: seq<Byte>)
    requires forall k :: 0 <= k < |run| ==> IsPrintable(run[k])
    ensures Runs(run) == [run]
    decreases |run|
  {
    if run != [] {
      PrintableRunIsOne(run[..|run| - 1]);
      assert run[..|run| - 1] + [run[|run| - 1]] == run;
    }
  }

  /**
   * A stretch of printable bytes gives at most one sample: its first
   * `maxLength` characters, never split into several.
   */
  lemma LongRunClipped(run: seq<Byte>, minLength: int, maxLength: int)
    requires forall k :: 0 <= k < |run| ==> IsPrintable(run[k])
    ensures var clipped := CharsOf(run[..MinNat(|run|, Cap(maxLength))]);
      PrintableSamples(run, minLength, maxLength) == if |clipped| >= minLength then [clipped] else []
  {
    PrintableRunIsOne(run);
    assert [run][..0] == [] && [run][0] == run;
    assert Kept([run], minLength, maxLength) == Kept([], minLength, maxLength)
      + (if |Sample(run, maxLength)| >= minLength then [Sample(run, maxLength)] else []);
  }

  // ---------------------------------------------------------------------
  // The report
  // ---------------------------------------------------------------------

  function SampleLines(samples: seq<string>): (lines: seq<string>)
    ensures |lines| == |samples|
    ensures forall i :: 0 <= i < |samples| ==> lines[i] == "- " + samples[i]
  {
    seq(|samples|, i requires 0 <= i < |samples| => "- " + samples[i])
  }

  /** The report's lines: the format (when recognised), hash, entropy, header dump, then the samples section (when there are samples). */
  function ReportLines(detected: string, digest: string, entropy: string, dump: string, samples: seq<string>): seq<string>
  {
    (if detected != "" then ["Detected format: " + detected] else [])
    + ["SHA256: " + digest, "Entropy (0-8): " + entropy, "", "Header (first 64 bytes):", dump]
    + (if samples == [] then [] else ["", "Printable samples:"] + SampleLines(samples))
  }

  /** The report leads with the format exactly when one was detected, and ends with one line per sample when there are samples. */
  lemma ReportShape(detected: string, digest: string, entropy: string, dump: string, samples: seq<string>)
    ensures var lines := ReportLines(detected, digest, entropy, dump, samples);
      var top := if detected != "" then 1 else 0;
      |lines| == top + 5 + (if samples == [] then 0 else 2 + |samples|)
      && (detected != "" <==> StartsWith(lines[0], "Detected format: "))
      && lines[top] == "SHA256: " + digest
      && lines[top + 1] == "Entropy (0-8): " + entropy
      && lines[top + 4] == dump
      && (samples != [] ==> (lines[top + 6] == "Printable samples:"
          && forall i :: 0 <= i < |samples| ==> lines[top + 7 + i] == "- " + samples[i]))
  {
    var lines := ReportLines(detected, digest, entropy, dump, samples);
    if detected == "" {
      assert lines[0] == "SHA256: " + digest;
      assert !StartsWith(lines[0], "Detected format: ") by {
        if |lines[0]| >= 17 {
          assert lines[0][..17][0] == 'S';
        }
      }
    } else {
      assert lines[0][..17] == "Detected format: ";
    }
  }

  /** The text of the report once the file's bytes are read: the lines above, trailing white space removed. */
  function ReportOf(head: seq<Byte>, digest: string, entropy: string, scan: seq<Byte>, options: SummaryOptions): string
  {
    var samples := Take(PrintableSamples(head + scan, options.binaryMinStringLength, options.binaryMaxStringLength),
                        options.binaryStringSampleCount);
    TrimEnd(Lines(ReportLines(DetectedType(KnownSignatures(), head), digest, entropy, HexDumpOf(head, 0, MinNat(|head|, 64)), samples)))
  }

  /** The failure text, with the exception's message. */
  function FailureText(message: string): string
  {
    "Binary summary failed: " + message
  }

  /**
   * The whole of `Summarize`. `sha256` stands for the hash's hex text,
   * `log2` for `Math.Log(p) / Math.Log(2)` and `formatF2` for formatting the
   * entropy with two decimals; a file that could not be opened fails with
   * `openError`. The header, the entropy sample and the scanned bytes are read
   * in that order: the header and the sample from the start, the scanned
   * bytes from where the sample ended.
   */
  function BinarySummaryOf(file: Option<DiskFile>, openError: string, options: SummaryOptions,
                           sha256: seq<Byte> -> string, log2: real -> real, formatF2: real -> string): (text: string)
  {
    if file.None? then FailureText(openError)
    else if options.binaryHeaderBytes < 0 || options.binaryEntropySampleBytes < 0 || options.binaryStringScanBytes < 0 then
      FailureText(OverflowMessage)
    else
      var data := file.value.bytes;
      var read := ReadsOf(data, options);
      ReportOf(read.head, sha256(data), formatF2(EntropyOf(read.sample, log2)), read.scan, options)
  }

  /** The three reads of `Summarize`: the header, the entropy sample, and the bytes scanned for strings. */
  datatype Reads = Reads(head: seq<Byte>, sample: seq<Byte>, scan: seq<Byte>)

  /**
   * What the reads deliver: the header and the sample both start at the
   * first byte; the scan continues where the sample ended, so the bytes it
   * adds to the header do not follow on from the header when the sample is
   * longer than it.
   */
  function ReadsOf(data: seq<Byte>, options: SummaryOptions): (r: Reads)
    requires options.binaryHeaderBytes >= 0 && options.binaryEntropySampleBytes >= 0 && options.binaryStringScanBytes >= 0
    ensures r.head <= data && |r.head| == MinNat(options.binaryHeaderBytes, |data|)
    ensures r.sample <= data && |r.sample| == MinNat(options.binaryEntropySampleBytes, |data|)
    ensures r.sample + r.scan <= data && |r.scan| == MinNat(options.binaryStringScanBytes, |data| - |r.sample|)
  {
    var sample := data[..MinNat(options.binaryEntropySampleBytes, |data|)];
    var scan := data[|sample|..|sample| + MinNat(options.binaryStringScanBytes, |data| - |sample|)];
    assert (sample + scan) == data[..|sample| + |scan|];
    Reads(data[..MinNat(options.binaryHeaderBytes, |data|)], sample, scan)
  }

  /** `ComputeSha256`: hashes from the position to the end. */
  method ComputeSha256(fs: ByteStream, sha256: seq<Byte> -> string) returns (digest: string)
    requires fs.Valid()
    modifies fs
    ensures fs.Valid() && fs.position == |fs.contents|
    ensures digest == sha256(old(fs.contents[fs.position..]))
  {
    var rest := fs.ReadToEnd();
    digest := sha256(rest);
  }

  /** The samples section: a blank line, its heading, then one line per sample. */
  method AppendSamples(lines: seq<string>, samples: seq<string>) returns (lines': seq<string>)
    ensures lines' == lines + (if samples == [] then [] else ["", "Printable samples:"] + SampleLines(samples))
  {
    lines' := lines;
    if |samples| > 0 {
      lines' := lines' + ["", "Printable samples:"];
      ghost var start := lines';
      for i := 0 to |samples|
        invariant lines' == start + SampleLines(samples[..i])
      {
        TakeOneMore(samples, i);
        assert SampleLines(samples[..i + 1]) == SampleLines(samples[..i]) + ["- " + samples[i]];
        lines' := lines' + ["- " + samples[i]];
      }
      assert samples[..|samples|] == samples;
    }
  }

  /** The report once the bytes are read: format line, hash, entropy, header dump and samples. */
  method WriteReport(head: seq<Byte>, digest: string, entropy: string, scan: seq<Byte>, options: SummaryOptions)
      returns (text: string)
    ensures text == ReportOf(head, digest, entropy, scan, options)
  {
    var detected := DetectFileType(head);
    var top := if detected != "" then ["Detected format: " + detected] else [];
    var dump := FormatHexDump(head, 0, MinNat(|head|, 64));
    var lines := top + ["SHA256: " + digest, "Entropy (0-8): " + entropy, "", "Header (first 64 bytes):", dump];
    var found := ExtractPrintableStrings(head + scan, options.binaryMinStringLength, options.binaryMaxStringLength);
    var strings := Take(found, options.binaryStringSampleCount);
    lines := AppendSamples(lines, strings);
    assert lines == ReportLines(detected, digest, entropy, dump, strings);
    return TrimEnd(Lines(lines));
  }

  /**
   * `Summarize`: opens the file, reads the header, rewinds, hashes the whole
   * file, rewinds and reads the entropy sample, then reads the bytes after the
   * sample for the string scan; any failure becomes the failure text.
   */
  method Summarize(file: Option<DiskFile>, openError: string, options: SummaryOptions,
                   sha256: seq<Byte> -> string, log2: real -> real, formatF2: real -> string) returns (text: string)
    ensures text == BinarySummaryOf(file, openError, options, sha256, log2, formatF2)
  {
    if file.None? {
      return FailureText(openError);
    }
    var fs := new ByteStream(file.value.bytes);
    var head := ReadBytes(fs, options.binaryHeaderBytes);
    if head.None? {
      return FailureText(OverflowMessage);
    }
    fs.Seek(0);
    var digest := ComputeSha256(fs, sha256);
    var entropy := CalculateEntropy(fs, options.binaryEntropySampleBytes, log2);
    if entropy.None? {
      return FailureText(OverflowMessage);
    }
    var scan := ReadBytes(fs, options.binaryStringScanBytes);
    if scan.None? {
      return FailureText(OverflowMessage);
    }
    ghost var sample := file.value.bytes[..MinNat(options.binaryEntropySampleBytes, |file.value.bytes|)];
    assert entropy.value == EntropyOf(sample, log2);
    assert Reads(head.value, sample, scan.value) == ReadsOf(file.value.bytes, options);
    text := WriteReport(head.value, digest, formatF2(entropy.value), scan.value, options);
  }

  /** A non-empty text whose first character is not white space keeps that character when trailing white space is cut. */
  lemma TrimEndKeepsFirst(s: string)
    requires s != [] && !IsWhiteSpace(s[0])
    ensures TrimEnd(s) != [] && TrimEnd(s)[0] == s[0]
  {
  }

  /** The report fails exactly when the file cannot be opened or a configured byte count is negative. */
  lemma SummaryFailures(file: Option<DiskFile>, openError: string, options: SummaryOptions,
                        sha256: seq<Byte> -> string, log2: real -> real, formatF2: real -> string)
    ensures file.None? ==> BinarySummaryOf(file, openError, options, sha256, log2, formatF2) == FailureText(openError)
    ensures file.Some? && (options.binaryHeaderBytes < 0 || options.binaryEntropySampleBytes < 0 || options.binaryStringScanBytes < 0)
      ==> BinarySummaryOf(file, openError, options, sha256, log2, formatF2) == FailureText(OverflowMessage)
    ensures file.Some? && options.binaryHeaderBytes >= 0 && options.binaryEntropySampleBytes >= 0 && options.binaryStringScanBytes >= 0
      ==> !StartsWith(BinarySummaryOf(file, openError, options, sha256, log2, formatF2), "Binary summary failed: ")
  {
    if file.Some? && options.binaryHeaderBytes >= 0 && options.binaryEntropySampleBytes >= 0 && options.binaryStringScanBytes >= 0 {
      var data := file.value.bytes;
      var read := ReadsOf(data, options);
      ReportStart(read.head, sha256(data), formatF2(EntropyOf(read.sample, log2)), read.scan, options);
    }
  }

  /** A report starts with the format line or the hash line, never with the failure text. */
  lemma ReportStart(head: seq<Byte>, digest: string, entropy: string, scan: seq<Byte>, options: SummaryOptions)
    ensures var text := ReportOf(head, digest, entropy, scan, options);
      text != [] && (text[0] == 'D' || text[0] == 'S') && !StartsWith(text, "Binary summary failed: ")
  {
    var samples := Take(PrintableSamples(head + scan, options.binaryMinStringLength, options.binaryMaxStringLength),
                        options.binaryStringSampleCount);
    var lines := ReportLines(DetectedType(KnownSignatures(), head), digest, entropy, HexDumpOf(head, 0, MinNat(|head|, 64)), samples);
    var whole := Lines(lines);
    assert whole == lines[0] + NewLine + Lines(lines[1..]);
    assert lines[0][0] == 'D' || lines[0][0] == 'S';
    assert whole[0] == lines[0][0];
    TrimEndKeepsFirst(whole);
    var text := TrimEnd(whole);
    assert text[0] != 'B';
    if |text| >= 23 {
      assert text[..23][0] == text[0];
    }
  }
}
