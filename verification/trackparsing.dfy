/** The track normaliser of `ProbedMedia.from_file`: a fold over the report's
    streams that threads a per-type counter and correlates each stream with the
    secondary metadata source. */
module TrackParsing {
  import opened Wrappers
  import opened Defaults
  import opened Ascii
  import opened ProbeData
  import opened Correlation

  /** The container summary built from the "format" section; `resolvedPath`
      is the filename used when the section carries none. */
  function ContainerOf(f: FormatSection, resolvedPath: string): (c: ContainerFormat)
    ensures ReadsAs(f.formatName, c.formatName, "")
    ensures ReadsAs(f.formatLongName, c.formatLong, "")
    ensures ReadsAs(f.nbStreams, c.nbStreams, 0)
    ensures ReadsAs(f.size, c.size, 0)
    ensures ReadsAs(f.filename, c.filename, resolvedPath)
    ensures c.raw == f
  {
    ContainerFormat(
      f.formatName.GetOr(""),
      f.formatLongName.GetOr(""),
      f.nbStreams.GetOr(0),
      f.size.GetOr(0),
      f.filename.GetOr(resolvedPath),
      f)
  }

  /** The type a stream is numbered under: its codec type, "" when absent. */
  function KindOf(s: Stream): (kind: string)
    ensures ReadsAs(s.codecType, kind, "")
  {
    s.codecType.GetOr("")
  }

  /** A disposition flag is set exactly when it is present and equal to 1;
      an absent disposition reads as "no flags set". */
  function Flag(disposition: Option<map<string, int>>, key: string): (b: bool)
    ensures b <==> disposition.Some? && key in disposition.value && disposition.value[key] == 1
  {
    match disposition
    case None => false
    case Some(d) => Get(d, key, 0) == 1
  }

  /** A disposition flag read exactly as the loop writes it: `.get` on an
      absent disposition fails. */
  function FlagAsWritten(disposition: Option<map<string, int>>, key: string): (r: Result<bool, Fault>)
    ensures r.Failure? <==> disposition.None?
    ensures r.Success? ==> (r.value <==> key in disposition.value && disposition.value[key] == 1)
  {
    match disposition
    case None => Failure(MissingDisposition)
    case Some(d) => Success(Get(d, key, 0) == 1)
  }

  /** A tag value, "" when the tags or the key are absent. */
  function Tag(tags: Option<map<string, string>>, key: string): (v: string)
    ensures tags.Some? && key in tags.value ==> v == tags.value[key]
    ensures tags.None? || key !in tags.value ==> v == ""
  {
    match tags
    case None => ""
    case Some(t) => Get(t, key, "")
  }

  /** One stream normalised, given the secondary source (when consulted) and
      the relative index its type's counter has reached. */
  function ToTrack(s: Stream, mediainfo: Option<seq<MediaInfoTrack>>, relative: nat): (t: ProbedTrack)
    ensures t.raw == s && t.rawTags == s.tags && t.rawDisposition == s.disposition
    ensures t.relativeIndex == relative
    ensures ReadsAs(s.index, t.index, 0)
    ensures ReadsAs(s.codecType, t.codecType, "")
    ensures ReadsAs(s.codecName, t.codec, "")
    ensures ReadsAs(s.codecLongName, t.codecLong, "")
    ensures ReadsAs(s.profile, t.profile, "")
    ensures ReadsAs(s.width, t.width, 0)
    ensures ReadsAs(s.height, t.height, 0)
    ensures ReadsAs(s.pixFmt, t.pixFmt, "")
    ensures ReadsAs(s.rFrameRate, t.frameRate, "")
    ensures ReadsAs(s.bitsPerRawSample, t.bitDepth, 0)
    ensures ReadsAs(s.sampleFmt, t.sampleFmt, "")
    ensures t.default <==> s.disposition.Some? && "default" in s.disposition.value && s.disposition.value["default"] == 1
    ensures t.forced <==> s.disposition.Some? && "forced" in s.disposition.value && s.disposition.value["forced"] == 1
    ensures s.tags.Some? && "title" in s.tags.value ==> t.title == s.tags.value["title"]
    ensures s.tags.None? || "title" !in s.tags.value ==> t.title == ""
    ensures s.tags.Some? && "language" in s.tags.value ==> t.language == s.tags.value["language"]
    ensures s.tags.None? || "language" !in s.tags.value ==> t.language == ""
    ensures mediainfo.None? ==> t.mediainfo.None? && t.containerDelay == 0
    ensures mediainfo.Some? ==> t.mediainfo == FindCorresponding(mediainfo.value, t.index)
    ensures t.containerDelay != 0 ==> t.mediainfo.Some? && t.mediainfo.value.delayRelativeToVideo == Some(t.containerDelay)
    ensures t.mediainfo.Some? && t.mediainfo.value.delayRelativeToVideo.Some? ==>
              t.containerDelay == t.mediainfo.value.delayRelativeToVideo.value
  {
    var index := s.index.GetOr(0);
    var matched := Correlate(mediainfo, index);
    ProbedTrack(
      index,
      relative,
      s.codecName.GetOr(""),
      s.codecLongName.GetOr(""),
      KindOf(s),
      s.profile.GetOr(""),
      s.width.GetOr(0),
      s.height.GetOr(0),
      s.pixFmt.GetOr(""),
      s.rFrameRate.GetOr(""),
      s.bitsPerRawSample.GetOr(0),
      s.sampleFmt.GetOr(""),
      DelayOf(matched),
      Flag(s.disposition, "default"),
      Flag(s.disposition, "forced"),
      Tag(s.tags, "title"),
      Tag(s.tags, "language"),
      s,
      s.tags,
      s.disposition,
      matched)
  }

  /** The number of streams of type `kind` in `streams`. */
  function Count(streams: seq<Stream>, kind: string): nat
    decreases |streams|
  {
    if |streams| == 0 then 0
    else (if KindOf(streams[0]) == kind then 1 else 0) + Count(streams[1..], kind)
  }

  /** The counter value of `kind`, 0 before the first stream of that type. */
  function Counter(counters: map<string, nat>, kind: string): nat {
    Get(counters, kind, 0)
  }

  /** The state of the normalisation loop after some streams: the items built
      so far and the per-type counters. */
  datatype Fold<T> = Fold(items: seq<T>, counters: map<string, nat>)

  /** The normalisation loop from counters `counters` onwards, with `step`
      building one stream's item from its relative number: each stream is
      numbered by its type's running counter, which is then advanced. */
  function NumberStreams<T>(streams: seq<Stream>, counters: map<string, nat>, step: (Stream, nat) -> T): (r: Fold<T>)
    ensures |r.items| == |streams|
    decreases |streams|
  {
    if |streams| == 0 then Fold([], counters)
    else
      var kind := KindOf(streams[0]);
      var relative := Counter(counters, kind);
      var rest := NumberStreams(streams[1..], counters[kind := relative + 1], step);
      Fold([step(streams[0], relative)] + rest.items, rest.counters)
  }

  /** Counting a non-empty prefix: its head, then the prefix of the tail. */
  lemma CountPrefix(streams: seq<Stream>, i: int, kind: string)
    requires 1 <= i <= |streams|
    ensures Count(streams[..i], kind) == (if KindOf(streams[0]) == kind then 1 else 0) + Count(streams[1..][..i - 1], kind)
  {
    assert streams[..i][1..] == streams[1..][..i - 1];
  }

  /** Item `i` is built from stream `i`, numbered by its type's counter plus
      the number of earlier streams of that type. */
  lemma {:induction false} NumberStreamsInOrder<T>(streams: seq<Stream>, counters: map<string, nat>, step: (Stream, nat) -> T, i: int)
    requires 0 <= i < |streams|
    ensures NumberStreams(streams, counters, step).items[i]
         == step(streams[i], Counter(counters, KindOf(streams[i])) + Count(streams[..i], KindOf(streams[i])))
    decreases |streams|
  {
    var head := KindOf(streams[0]);
    var counters' := counters[head := Counter(counters, head) + 1];
    var items := NumberStreams(streams, counters, step).items;
    var rest := NumberStreams(streams[1..], counters', step).items;
    assert items == [step(streams[0], Counter(counters, head))] + rest;
    var kind := KindOf(streams[i]);
    var number := Counter(counters, kind) + Count(streams[..i], kind);
    if i > 0 {
      NumberStreamsInOrder(streams[1..], counters', step, i - 1);
      assert streams[1..][i - 1] == streams[i];
      assert Counter(counters', kind) + Count(streams[1..][..i - 1], kind) == number by {
        CountPrefix(streams, i, kind);
      }
      assert items[i] == rest[i - 1];
    } else {
      assert Count(streams[..0], kind) == 0 by {
        assert streams[..0] == [];
      }
    }
  }

  /** The loop body: one stream and its relative number to a track. */
  function Step(mediainfo: Option<seq<MediaInfoTrack>>): (Stream, nat) -> ProbedTrack {
    (s: Stream, relative: nat) => ToTrack(s, mediainfo, relative)
  }

  /** The tracks the loop emits for `streams`, starting from fresh counters. */
  function NormaliseStreams(streams: seq<Stream>, mediainfo: Option<seq<MediaInfoTrack>>): (tracks: seq<ProbedTrack>)
    ensures |tracks| == |streams|
  {
    NumberStreams(streams, map[], Step(mediainfo)).items
  }

  /** Track `i` is stream `i` normalised, numbered by how many earlier streams
      share its type. */
  lemma NormaliseStreamsInOrder(streams: seq<Stream>, mediainfo: Option<seq<MediaInfoTrack>>, i: int)
    requires 0 <= i < |streams|
    ensures NormaliseStreams(streams, mediainfo)[i] == ToTrack(streams[i], mediainfo, Count(streams[..i], KindOf(streams[i])))
  {
    NumberStreamsInOrder(streams, map[], Step(mediainfo), i);
  }

  /** The secondary source as the loop sees it: present only when the format
      name (absent: "") names the Matroska family. */
  function Consulted(report: Report, parsedMediaInfo: seq<MediaInfoTrack>): (m: Option<seq<MediaInfoTrack>>)
    ensures m.Some? <==> report.format.Some? && IsMatroska(report.format.value.formatName.GetOr(""))
    ensures m.Some? ==> m.value == parsedMediaInfo
  {
    if report.format.Some? && IsMatroska(report.format.value.formatName.GetOr("")) then Some(parsedMediaInfo) else None
  }

  /** The whole normaliser: container summary, secondary-source decision and
      the loop over streams. `resolvedPath` is the file's resolved path and
      `parsedMediaInfo` the secondary source's tracks for the same file; the
      latter is consulted only for Matroska-family containers. */
  function Normalise(report: Report, resolvedPath: string, parsedMediaInfo: seq<MediaInfoTrack>): (r: Result<ProbedMedia, Fault>)
    ensures r.Success? <==> report.format.Some? && report.streams.Some?
    ensures report.format.None? ==> r == Failure(MissingFormat)
    ensures report.format.Some? && report.streams.None? ==> r == Failure(MissingStreams)
    ensures r.Success? ==> r.value.raw == report && r.value.container == ContainerOf(report.format.value, resolvedPath)
    ensures r.Success? ==> |r.value.tracks| == |report.streams.value|
  {
    match report.format
    case None => Failure(MissingFormat)
    case Some(f) =>
      var container := ContainerOf(f, resolvedPath);
      match report.streams
      case None => Failure(MissingStreams)
      case Some(streams) =>
        var tracks := NormaliseStreams(streams, Consulted(report, parsedMediaInfo));
        Success(ProbedMedia(tracks, container, report))
  }
}
