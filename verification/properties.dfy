/** Properties of the whole normaliser, stated over its input report and the
    secondary source. */
module TrackParsingProperties {
  import opened Wrappers
  import opened Ascii
  import opened ProbeData
  import opened Correlation
  import opened TrackParsing

  /** Track `i` of a successful normalisation is stream `i` normalised against
      the secondary source as consulted, numbered by how many earlier streams
      share its type. */
  lemma TrackOfStream(report: Report, resolvedPath: string, parsedMediaInfo: seq<MediaInfoTrack>, i: int)
    requires Normalise(report, resolvedPath, parsedMediaInfo).Success?
    requires 0 <= i < |report.streams.value|
    ensures var tracks := Normalise(report, resolvedPath, parsedMediaInfo).value.tracks;
      var streams := report.streams.value;
      i < |tracks| && tracks[i] == ToTrack(streams[i], Consulted(report, parsedMediaInfo), Count(streams[..i], KindOf(streams[i])))
  {
    NormaliseStreamsInOrder(report.streams.value, Consulted(report, parsedMediaInfo), i);
  }

  /** Exactly one track per stream, in the streams' order; each track carries
      its stream's type and is numbered by the earlier streams of that type
      (absolute indices play no part). */
  lemma TracksFollowStreams(report: Report, resolvedPath: string, parsedMediaInfo: seq<MediaInfoTrack>)
    requires Normalise(report, resolvedPath, parsedMediaInfo).Success?
    ensures var tracks := Normalise(report, resolvedPath, parsedMediaInfo).value.tracks;
      var streams := report.streams.value;
      && |tracks| == |streams|
      && forall i :: 0 <= i < |streams| ==>
           && tracks[i].raw == streams[i]
           && tracks[i].codecType == KindOf(streams[i])
           && tracks[i].relativeIndex == Count(streams[..i], KindOf(streams[i]))
  {
    var streams := report.streams.value;
    forall i | 0 <= i < |streams| {
      TrackOfStream(report, resolvedPath, parsedMediaInfo, i);
    }
  }

  /** The numbers `lo`, `lo + 1`, ..., `hi - 1` in order. */
  function Range(lo: nat, hi: nat): seq<nat>
    decreases hi - lo
  {
    if lo >= hi then [] else [lo] + Range(lo + 1, hi)
  }

  /** The relative indices of the tracks of type `kind`, in emission order. */
  function RelativeIndicesOf(tracks: seq<ProbedTrack>, kind: string): seq<nat>
    decreases |tracks|
  {
    if |tracks| == 0 then []
    else (if tracks[0].codecType == kind then [tracks[0].relativeIndex] else []) + RelativeIndicesOf(tracks[1..], kind)
  }

  /** Listing the relative indices of a non-empty track list: its head, then
      its tail. */
  lemma RelativeIndicesOfCons(t: ProbedTrack, rest: seq<ProbedTrack>, kind: string)
    ensures RelativeIndicesOf([t] + rest, kind)
         == (if t.codecType == kind then [t.relativeIndex] else []) + RelativeIndicesOf(rest, kind)
  {
    assert ([t] + rest)[1..] == rest;
  }

  /** One step of the loop as seen by the list of `kind`'s relative indices:
      a head of that type contributes its counter's value, any other head
      contributes nothing, and the counter moves on accordingly. */
  lemma NumberingStep(
    streams: seq<Stream>, counters: map<string, nat>, step: (Stream, nat) -> ProbedTrack, kind: string)
    requires |streams| > 0
    requires forall s, n :: step(s, n).codecType == KindOf(s) && step(s, n).relativeIndex == n
    ensures var head := KindOf(streams[0]);
      var counters' := counters[head := Counter(counters, head) + 1];
      && RelativeIndicesOf(NumberStreams(streams, counters, step).items, kind)
         == (if head == kind then [Counter(counters, kind)] else [])
            + RelativeIndicesOf(NumberStreams(streams[1..], counters', step).items, kind)
      && Counter(counters', kind) == Counter(counters, kind) + (if head == kind then 1 else 0)
      && Count(streams, kind) == (if head == kind then 1 else 0) + Count(streams[1..], kind)
  {
    var head := KindOf(streams[0]);
    var first := Counter(counters, head);
    var t := step(streams[0], first);
    var rest := NumberStreams(streams[1..], counters[head := first + 1], step).items;
    assert NumberStreams(streams, counters, step).items == [t] + rest;
    RelativeIndicesOfCons(t, rest, kind);
  }

  /** From any counters, the loop numbers the tracks of each type
      consecutively from that type's counter on. */
  lemma {:induction false} NumberingIsConsecutive(
    streams: seq<Stream>, counters: map<string, nat>, step: (Stream, nat) -> ProbedTrack, kind: string)
    requires forall s, n :: step(s, n).codecType == KindOf(s) && step(s, n).relativeIndex == n
    ensures RelativeIndicesOf(NumberStreams(streams, counters, step).items, kind)
         == Range(Counter(counters, kind), Counter(counters, kind) + Count(streams, kind))
    decreases |streams|
  {
    if |streams| > 0 {
      var head := KindOf(streams[0]);
      var counters' := counters[head := Counter(counters, head) + 1];
      var lo := Counter(counters, kind);
      var n := Count(streams, kind);
      NumberingStep(streams, counters, step, kind);
      NumberingIsConsecutive(streams[1..], counters', step, kind);
      if head == kind {
        assert Range(lo, lo + n) == [lo] + Range(lo + 1, lo + n);
      }
    }
  }

  /** `Range(lo, hi)` lists `hi - lo` numbers, the `j`-th being `lo + j`. */
  lemma {:induction false} RangeIsConsecutive(lo: nat, hi: nat)
    requires lo <= hi
    ensures |Range(lo, hi)| == hi - lo
    ensures forall j :: 0 <= j < hi - lo ==> Range(lo, hi)[j] == lo + j
    decreases hi - lo
  {
    if lo < hi {
      RangeIsConsecutive(lo + 1, hi);
    }
  }

  /** For every type, the relative indices of its tracks are exactly
      0, 1, ..., n-1 in emission order, n being the number of its streams. */
  lemma DenseNumbering(report: Report, resolvedPath: string, parsedMediaInfo: seq<MediaInfoTrack>, kind: string)
    requires Normalise(report, resolvedPath, parsedMediaInfo).Success?
    ensures var numbers := RelativeIndicesOf(Normalise(report, resolvedPath, parsedMediaInfo).value.tracks, kind);
      && numbers == Range(0, Count(report.streams.value, kind))
      && |numbers| == Count(report.streams.value, kind)
      && forall j :: 0 <= j < |numbers| ==> numbers[j] == j
  {
    NumberingIsConsecutive(report.streams.value, map[], Step(Consulted(report, parsedMediaInfo)), kind);
    RangeIsConsecutive(0, Count(report.streams.value, kind));
  }

  /** `default` and `forced` hold exactly when the stream's disposition carries
      the flag with value 1; `title` and `language` are the tag values, or ""
      when the tags or the key are absent. */
  lemma FlagsAndTags(report: Report, resolvedPath: string, parsedMediaInfo: seq<MediaInfoTrack>, i: int)
    requires Normalise(report, resolvedPath, parsedMediaInfo).Success?
    requires 0 <= i < |report.streams.value|
    ensures var t := Normalise(report, resolvedPath, parsedMediaInfo).value.tracks[i];
      var s := report.streams.value[i];
      && (t.default <==> s.disposition.Some? && "default" in s.disposition.value && s.disposition.value["default"] == 1)
      && (t.forced <==> s.disposition.Some? && "forced" in s.disposition.value && s.disposition.value["forced"] == 1)
      && t.title == (if s.tags.Some? && "title" in s.tags.value then s.tags.value["title"] else "")
      && t.language == (if s.tags.Some? && "language" in s.tags.value then s.tags.value["language"] else "")
  {
    TrackOfStream(report, resolvedPath, parsedMediaInfo, i);
  }

  /** Outside the Matroska family the secondary source is never consulted:
      every track has delay 0 and no matched record. */
  lemma NonMatroskaHasNoDelays(report: Report, resolvedPath: string, parsedMediaInfo: seq<MediaInfoTrack>)
    requires Normalise(report, resolvedPath, parsedMediaInfo).Success?
    requires !IsMatroska(Normalise(report, resolvedPath, parsedMediaInfo).value.container.formatName)
    ensures forall t :: t in Normalise(report, resolvedPath, parsedMediaInfo).value.tracks ==>
              t.containerDelay == 0 && t.mediainfo.None?
  {
    var tracks := Normalise(report, resolvedPath, parsedMediaInfo).value.tracks;
    forall t | t in tracks
      ensures t.containerDelay == 0 && t.mediainfo.None?
    {
      var i :| 0 <= i < |tracks| && tracks[i] == t;
      TrackOfStream(report, resolvedPath, parsedMediaInfo, i);
    }
  }

  /** Outside the Matroska family the secondary source's content cannot
      influence the result. */
  lemma NonMatroskaIgnoresSecondary(report: Report, resolvedPath: string, m1: seq<MediaInfoTrack>, m2: seq<MediaInfoTrack>)
    requires report.format.Some? ==> !IsMatroska(report.format.value.formatName.GetOr(""))
    ensures Normalise(report, resolvedPath, m1) == Normalise(report, resolvedPath, m2)
  {
    assert Consulted(report, m1) == Consulted(report, m2);
  }

  /** For a Matroska-family container, each track adopts the first record
      whose stream order equals its absolute index; its delay is that record's
      delay when present and non-zero, and 0 when there is no match. */
  lemma MatroskaAdoptsFirstMatch(report: Report, resolvedPath: string, parsedMediaInfo: seq<MediaInfoTrack>, i: int)
    requires Normalise(report, resolvedPath, parsedMediaInfo).Success?
    requires IsMatroska(Normalise(report, resolvedPath, parsedMediaInfo).value.container.formatName)
    requires 0 <= i < |report.streams.value|
    ensures var t := Normalise(report, resolvedPath, parsedMediaInfo).value.tracks[i];
      && t.index == report.streams.value[i].index.GetOr(0)
      && t.mediainfo == FindCorresponding(parsedMediaInfo, t.index)
      && (t.mediainfo.None? ==> t.containerDelay == 0)
      && (t.mediainfo.Some? ==> t.containerDelay == t.mediainfo.value.delayRelativeToVideo.GetOr(0))
  {
    TrackOfStream(report, resolvedPath, parsedMediaInfo, i);
  }

  /** A stream without a disposition: read as written, its flags fail; the
      normaliser reads them as false. */
  lemma AsWrittenFailsWithoutDisposition(s: Stream, mediainfo: Option<seq<MediaInfoTrack>>, relative: nat)
    requires s.disposition.None?
    ensures FlagAsWritten(s.disposition, "default") == Failure(MissingDisposition)
    ensures FlagAsWritten(s.disposition, "forced") == Failure(MissingDisposition)
    ensures !ToTrack(s, mediainfo, relative).default && !ToTrack(s, mediainfo, relative).forced
  {
  }

  /** A stream without a single key of its own. */
  const EmptyStream := Stream(None, None, None, None, None, None, None, None, None, None, None, None, None)

  /** Missing fields take their defaults: 0 for numbers, "" for strings,
      false for flags, and nothing is an error. */
  lemma MissingFieldsDefault(mediainfo: Option<seq<MediaInfoTrack>>, relative: nat)
    ensures var t := ToTrack(EmptyStream, mediainfo, relative);
      && t.index == 0 && t.width == 0 && t.height == 0 && t.bitDepth == 0
      && t.codec == "" && t.codecLong == "" && t.codecType == "" && t.profile == ""
      && t.pixFmt == "" && t.frameRate == "" && t.sampleFmt == ""
      && !t.default && !t.forced && t.title == "" && t.language == ""
  {
  }

  /** The format name ffprobe reports for Matroska and WebM files qualifies. */
  lemma MatroskaWebmQualifies()
    ensures IsMatroska("matroska,webm")
  {
    var name := "matroska,webm";
    assert name[0..8] == MatroskaMarker;
    LowerKeepsLowerCase(MatroskaMarker);
    assert MarkerAt(name, 0);
    IsMatroskaIgnoresCase(name);
  }

  /** A Matroska file with a video stream (index 0) and an audio stream
      (index 1), whose secondary source has one record with stream order 1 and
      delay 50: the audio track gets delay 50, the video track 0. */
  lemma ScenarioMatroskaDelay(format: FormatSection, video: Stream, audio: Stream, record: MediaInfoTrack, resolvedPath: string)
    requires format.formatName == Some("matroska,webm")
    requires video.index == Some(0) && video.codecType == Some("video")
    requires audio.index == Some(1) && audio.codecType == Some("audio")
    requires record.streamOrder == Some(1) && record.delayRelativeToVideo == Some(50)
    ensures var r := Normalise(Report(Some(format), Some([video, audio])), resolvedPath, [record]);
      && r.Success?
      && |r.value.tracks| == 2
      && r.value.tracks[0].containerDelay == 0 && r.value.tracks[0].mediainfo.None?
      && r.value.tracks[1].containerDelay == 50 && r.value.tracks[1].mediainfo == Some(record)
  {
    var report := Report(Some(format), Some([video, audio]));
    MatroskaWebmQualifies();
    assert IsFirstMatch([record], 1, 0);
    FindCorrespondingIsFirst([record], 1, 0);
    MatroskaAdoptsFirstMatch(report, resolvedPath, [record], 0);
    MatroskaAdoptsFirstMatch(report, resolvedPath, [record], 1);
  }

  /** Two audio streams with absolute indices 2 and 5 and no video: both are
      audio tracks numbered 0 and 1, whatever the gap in absolute index. */
  lemma ScenarioIndexGap(format: FormatSection, first: Stream, second: Stream, resolvedPath: string, parsedMediaInfo: seq<MediaInfoTrack>)
    requires first.index == Some(2) && first.codecType == Some("audio")
    requires second.index == Some(5) && second.codecType == Some("audio")
    ensures var r := Normalise(Report(Some(format), Some([first, second])), resolvedPath, parsedMediaInfo);
      && r.Success?
      && |r.value.tracks| == 2
      && r.value.tracks[0].codecType == "audio" && r.value.tracks[0].relativeIndex == 0
      && r.value.tracks[1].codecType == "audio" && r.value.tracks[1].relativeIndex == 1
  {
    var streams := [first, second];
    TracksFollowStreams(Report(Some(format), Some(streams)), resolvedPath, parsedMediaInfo);
    assert streams[..1] == [first];
    assert Count(streams[..1], "audio") == 1;
    assert Count(streams[..0], "audio") == 0;
  }
}
