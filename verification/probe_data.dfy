/** The data the track normaliser reads and the model it builds
    (muxtools/misc/trackparsing.py). Raw probe sections are records whose
    fields are `Option`s: `None` stands for a key the report does not carry. */
module ProbeData {
  import opened Wrappers

  /** One entry of the probe report's "streams" array. */
  datatype Stream = Stream(
    index: Option<int>,
    codecType: Option<string>,
    codecName: Option<string>,
    codecLongName: Option<string>,
    profile: Option<string>,
    width: Option<int>,
    height: Option<int>,
    pixFmt: Option<string>,
    rFrameRate: Option<string>,
    bitsPerRawSample: Option<int>,
    sampleFmt: Option<string>,
    disposition: Option<map<string, int>>,
    tags: Option<map<string, string>>)

  /** The report's "format" section. */
  datatype FormatSection = FormatSection(
    formatName: Option<string>,
    formatLongName: Option<string>,
    nbStreams: Option<int>,
    size: Option<int>,
    filename: Option<string>)

  /** The whole parsed probe report: both top-level sections may be missing. */
  datatype Report = Report(format: Option<FormatSection>, streams: Option<seq<Stream>>)

  /** One track record of the secondary (container-level) metadata source.
      `trackType` mirrors pymediainfo's `track_type` ("Video", "Audio", ...);
      correlation reads only `streamOrder` and `delayRelativeToVideo`. */
  datatype MediaInfoTrack = MediaInfoTrack(
    trackType: string,
    streamOrder: Option<int>,
    delayRelativeToVideo: Option<int>)

  /** One normalised stream. */
  datatype ProbedTrack = ProbedTrack(
    index: int,
    relativeIndex: nat,
    codec: string,
    codecLong: string,
    codecType: string,
    profile: string,
    width: int,
    height: int,
    pixFmt: string,
    frameRate: string,
    bitDepth: int,
    sampleFmt: string,
    containerDelay: int,
    default: bool,
    forced: bool,
    title: string,
    language: string,
    raw: Stream,
    rawTags: Option<map<string, string>>,
    rawDisposition: Option<map<string, int>>,
    mediainfo: Option<MediaInfoTrack>)

  /** The normalised container summary. */
  datatype ContainerFormat = ContainerFormat(
    formatName: string,
    formatLong: string,
    nbStreams: int,
    size: int,
    filename: string,
    raw: FormatSection)

  /** The root result of a probe. */
  datatype ProbedMedia = ProbedMedia(tracks: seq<ProbedTrack>, container: ContainerFormat, raw: Report)

  /** What goes wrong when the code reads through a missing section. */
  datatype Fault =
    | MissingFormat       // `.get` on the absent "format" section
    | MissingStreams      // iterating the absent "streams" array
    | MissingMediaInfo    // `.tracks` on the secondary source that was not consulted
    | MissingDisposition  // `.get` on a stream's absent "disposition"
}
