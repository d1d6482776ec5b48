/** Correlating a probed stream with a record of the secondary metadata
    source, and the delay that record contributes (find_corresponding). */
module Correlation {
  import opened Wrappers
  import opened ProbeData

  /** The stream order a record reports; an absent one reads as -1. */
  function OrderOf(t: MediaInfoTrack): (order: int)
    ensures t.streamOrder.Some? ==> order == t.streamOrder.value
    ensures t.streamOrder.None? ==> order == -1
  {
    t.streamOrder.GetOr(-1)
  }

  /** The record describes the stream with absolute index `index`. */
  predicate Matches(t: MediaInfoTrack, index: int) {
    OrderOf(t) == index
  }

  /** Position `i` holds the first record that matches `index`. */
  predicate IsFirstMatch(tracks: seq<MediaInfoTrack>, index: int, i: int) {
    && 0 <= i < |tracks|
    && Matches(tracks[i], index)
    && forall j :: 0 <= j < i ==> !Matches(tracks[j], index)
  }

  /** A first match one position into `tracks[1..]` is a first match of `tracks`
      when the head does not match. */
  lemma FirstMatchShift(tracks: seq<MediaInfoTrack>, index: int)
    requires |tracks| > 0 && !Matches(tracks[0], index)
    ensures forall i :: IsFirstMatch(tracks[1..], index, i) ==> IsFirstMatch(tracks, index, i + 1)
  {
  }

  /** The first record, in list order, whose stream order equals `index`;
      `None` when there is none. */
  function FindCorresponding(tracks: seq<MediaInfoTrack>, index: int): (r: Option<MediaInfoTrack>)
    ensures r.None? <==> forall j :: 0 <= j < |tracks| ==> !Matches(tracks[j], index)
    ensures r.Some? ==> exists i :: IsFirstMatch(tracks, index, i) && tracks[i] == r.value
    ensures r.Some? ==> r.value.streamOrder == Some(index) || (r.value.streamOrder.None? && index == -1)
    decreases |tracks|
  {
    if |tracks| == 0 then None
    else if Matches(tracks[0], index) then
      assert IsFirstMatch(tracks, index, 0);
      Some(tracks[0])
    else
      FirstMatchShift(tracks, index);
      FindCorresponding(tracks[1..], index)
  }

  /** The first match is the one returned: the result is determined by its position. */
  lemma FindCorrespondingIsFirst(tracks: seq<MediaInfoTrack>, index: int, i: int)
    requires IsFirstMatch(tracks, index, i)
    ensures FindCorresponding(tracks, index) == Some(tracks[i])
  {
    var r := FindCorresponding(tracks, index);
    var k :| IsFirstMatch(tracks, index, k) && tracks[k] == r.value;
    assert k == i;
  }

  /** A record without a stream order never corresponds to a real (non-negative)
      stream index. */
  lemma UnorderedNeverCorresponds(tracks: seq<MediaInfoTrack>, index: int)
    requires index >= 0
    ensures forall t :: FindCorresponding(tracks, index) == Some(t) ==> t.streamOrder == Some(index)
  {
  }

  /** The matched record of a stream: only looked for when the secondary
      source was consulted. */
  function Correlate(mediainfo: Option<seq<MediaInfoTrack>>, index: int): (r: Option<MediaInfoTrack>)
    ensures mediainfo.None? ==> r.None?
    ensures mediainfo.Some? ==> r == FindCorresponding(mediainfo.value, index)
    ensures r.Some? ==> r.value in mediainfo.value && Matches(r.value, index)
  {
    match mediainfo
    case None => None
    case Some(tracks) => FindCorresponding(tracks, index)
  }

  /** The container delay a matched record contributes: its delay relative to
      video when that is present and non-zero (truthy), else 0. */
  function DelayOf(matched: Option<MediaInfoTrack>): (d: int)
    ensures d != 0 ==> matched.Some? && matched.value.delayRelativeToVideo == Some(d)
    ensures matched.Some? && matched.value.delayRelativeToVideo.Some? ==> d == matched.value.delayRelativeToVideo.value
    ensures matched.None? || matched.value.delayRelativeToVideo.None? ==> d == 0
  {
    match matched
    case None => 0
    case Some(t) =>
      match t.delayRelativeToVideo
      case Some(delay) => delay  // a zero delay is falsy and reads as 0: the same value
      case None => 0
  }

  /** The correlation step exactly as the normalisation loop writes it: the
      filter compares `int()` (zero) with an empty tuple, which is never equal,
      so no record is ever selected; and it reads `.tracks` of the secondary
      source even when that source was not consulted (`None`), which fails. */
  function CorrelateAsWritten(mediainfo: Option<seq<MediaInfoTrack>>, index: int): (r: Result<Option<MediaInfoTrack>, Fault>)
    ensures r.Failure? <==> mediainfo.None?
    ensures r.Failure? ==> r.error == MissingMediaInfo
    ensures r.Success? ==> r.value.None?
  {
    match mediainfo
    case None => Failure(MissingMediaInfo)
    case Some(_) => Success(None)
  }

  /** Whenever a record does match, the as-written step loses it, and with it
      the delay; the corrected step keeps it. */
  lemma AsWrittenLosesEveryMatch(tracks: seq<MediaInfoTrack>, index: int, i: int)
    requires 0 <= i < |tracks| && Matches(tracks[i], index)
    ensures CorrelateAsWritten(Some(tracks), index) == Success(None)
    ensures Correlate(Some(tracks), index).Some?
  {
  }

  /** Concrete input: one record with stream order 1 and delay 50. The stream
      with index 1 should get delay 50; as written it gets 0. */
  lemma AsWrittenDropsDelayExample()
    ensures var tracks := [MediaInfoTrack("Audio", Some(1), Some(50))];
      && CorrelateAsWritten(Some(tracks), 1) == Success(None)
      && DelayOf(Correlate(Some(tracks), 1)) == 50
  {
    var tracks := [MediaInfoTrack("Audio", Some(1), Some(50))];
    assert IsFirstMatch(tracks, 1, 0);
    FindCorrespondingIsFirst(tracks, 1, 0);
  }

  /** Concrete input: any container outside the Matroska family (secondary
      source not consulted) with a stream fails at the correlation step as written. */
  lemma AsWrittenFailsWithoutMediaInfo(index: int)
    ensures CorrelateAsWritten(None, index) == Failure(MissingMediaInfo)
    ensures Correlate(None, index) == None
  {
  }
}
