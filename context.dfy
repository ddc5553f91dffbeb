/**
 * What every analyzer is given: the path, the file as it reads from disk,
 * and the configured limits (Configuration/PeekerinoOptions.cs,
 * Services/Summaries/FileSummaryContext.cs).
 */
module SummaryContext {
  import opened Wrappers
  import opened Text

  /** The configurable limits of the analyzers; C# `int`s, so any of them may be negative or zero. */
  datatype SummaryOptions = SummaryOptions(
    textPreviewBytes: int,
    jsonMaxCharacters: int,
    archiveMaxEntries: int,
    archivePreviewBytes: int,
    binaryHeaderBytes: int,
    binaryEntropySampleBytes: int,
    binaryStringScanBytes: int,
    binaryStringSampleCount: int,
    binaryMinStringLength: int,
    binaryMaxStringLength: int)

  /** The defaults of `SummaryOptions`. */
  const DefaultOptions := SummaryOptions(4 * 1024, 40000, 100, 512, 256, 64 * 1024, 4 * 1024, 5, 4, 40)

  /**
   * A file that could be opened: its bytes, and the characters a
   * `StreamReader` decodes from them (decoding is outside this model).
   */
  datatype DiskFile = DiskFile(bytes: seq<Byte>, text: string)

  /** The context of one analysis; `file` is None when opening the file for reading fails. */
  datatype FileSummaryContext = FileSummaryContext(path: string, file: Option<DiskFile>, options: SummaryOptions) {
    /** `FileInfo.Extension`. */
    function Extension(): string
    {
      GetExtension(path)
    }
  }

  /** The archive kinds the archive analyzer knows, as named in Services/ArchiveSummaryService.cs. */
  datatype ArchiveFormat = None | Zip | Tar | TarGz | GZipSingle {
    /** The enum member's name, as string interpolation prints it. */
    function Name(): string
    {
      match this
      case None => "None"
      case Zip => "Zip"
      case Tar => "Tar"
      case TarGz => "TarGz"
      case GZipSingle => "GZipSingle"
    }
  }
}
