# Track normaliser of muxtools, modelled in Dafny

This project models the track normaliser of muxtools' `ProbedMedia.from_file`
(`muxtools/misc/trackparsing.py`). The normaliser takes a parsed ffprobe
report and, for Matroska-family files only, the track list of a secondary
metadata source (pymediainfo). From these it builds a `ContainerFormat` and
one `ProbedTrack` per stream.

The model is a pure fold over the report's `streams`. It threads a
`map<string, nat>` of per-type counters, which gives each track its
`relative_index`. It also correlates each stream with the first secondary
record whose stream order equals the stream's absolute index.

Modules and files:

- `wrappers.dfy`: `Option`/`Result`, plus `Defaults` (total reads with a
  default, like Python's `dict.get`).
- `ascii.dfy`: ASCII lower-casing, substring search, and the Matroska test.
- `probe_data.dfy`: the raw report (`Stream`, `FormatSection`, `Report`), the
  secondary record (`MediaInfoTrack`), the results (`ProbedTrack`,
  `ContainerFormat`, `ProbedMedia`) and the `Fault`s of the code as written.
- `correlation.dfy`: `find_corresponding`, the delay a matched record gives,
  and the correlation step as written.
- `trackparsing.dfy`: field extraction, the numbering fold, and `Normalise`.
- `properties.dfy`: lemmas about the whole normaliser, including two worked
  scenarios: a Matroska file whose audio stream takes a 50 ms delay from the
  secondary source, and two audio streams with a gap in their absolute
  indices that are still numbered 0 and 1.

A report field is an `Option`, where `None` means the key is absent. Reading
a missing field gives the source's default: 0 for numbers and "" for strings,
except the container's `filename`, which falls back to the resolved path.
Apart from the two defects listed under "## Findings", the source fails in two
cases, and the model returns a `Failure` for both:

- the `format` section is missing, because `.get` is called on `None`;
- the `streams` array is missing, because the code iterates `None`.

Reading a missing section fails in Python, so the model returns a `Failure`
there rather than a default. The two defects are these:

- the correlation filter at line 83 compares an `int` with an empty tuple,
  so for a Matroska file it never selects a record and every delay is 0,
  and outside the Matroska family it fails on the absent secondary source;
- the disposition flags fail when a stream has no disposition.

The model uses their corrected readings. For correlation, there is no lookup
when the secondary source was not consulted; otherwise the track takes the
first record whose stream order equals the stream's absolute index, as
`find_corresponding` (lines 124-130) does. Absent flags read as false.

## Model

| member | source | states |
|---|---|---|
| `TrackParsing.Normalise` | muxtools/misc/trackparsing.py:64-119 | fails exactly when the `format` or `streams` section is missing, naming which; on success the raw report is kept, the container comes from the format section, and there is one track per stream |
| `TrackParsing.ContainerOf` | muxtools/misc/trackparsing.py:67-75 | each container field is the format section's value when present, else its default ("" or 0; the resolved path for `filename`); the section is kept as `raw` |
| `TrackParsing.KindOf` | muxtools/misc/trackparsing.py:87 | a stream's type is its `codec_type` when present, else "" |
| `Correlation.OrderOf` | muxtools/misc/trackparsing.py:126-127 | a record's stream order is its own when present, else -1 |
| `Ascii.IsMatroska` | muxtools/misc/trackparsing.py:77 | a format name qualifies exactly when its lower-cased form contains "matroska" at some position |
| `TrackParsing.Flag` | muxtools/misc/trackparsing.py:107-108 | a disposition flag is true exactly when the disposition is present, has the key, and the value equals 1 |
| `TrackParsing.FlagAsWritten` | muxtools/misc/trackparsing.py:88-108 | the flag read as written: it fails exactly when the disposition is absent, and otherwise agrees with exact equality to 1 |
| `TrackParsing.Tag` | muxtools/misc/trackparsing.py:109-110 | a tag is the stored value when the tags are present and have the key, else "" |
| `TrackParsing.ToTrack` | muxtools/misc/trackparsing.py:81-115 | every track field is the stream's value or its default; `default`/`forced` iff the flag equals 1; title and language from tags or ""; without a secondary source there is no match and the delay is 0; with one, the match is `FindCorresponding` on the absolute index, and a non-zero delay is the matched record's delay |
| `TrackParsing.NumberStreams` | muxtools/misc/trackparsing.py:79-117 | the loop emits exactly one item per stream |
| `TrackParsing.NumberStreamsInOrder` | muxtools/misc/trackparsing.py:91-117 | item `i` is built from stream `i`, numbered by its type's starting counter plus the number of earlier streams of that type |
| `TrackParsing.NormaliseStreams` | muxtools/misc/trackparsing.py:79-117 | one track per stream |
| `TrackParsing.NormaliseStreamsInOrder` | muxtools/misc/trackparsing.py:79-117 | from fresh counters, track `i` is stream `i` normalised and numbered by the count of earlier streams of its type |
| `TrackParsing.Consulted` | muxtools/misc/trackparsing.py:77 | the secondary source is consulted exactly when the format name (absent: "") contains "matroska" case-insensitively, and then it is passed through unchanged |
| `Ascii.Lower` | muxtools/misc/trackparsing.py:77 | lower-casing keeps the length and maps each character through ASCII case folding |
| `Ascii.Contains` | muxtools/misc/trackparsing.py:77 | the substring test holds exactly when the pattern occurs at some position |
| `Ascii.IsMatroskaIgnoresCase` | muxtools/misc/trackparsing.py:77 | a format name qualifies exactly when some window of it spells "matroska" in any mix of cases |
| `Correlation.FindCorresponding` | muxtools/misc/trackparsing.py:124-130 | returns nothing exactly when no record's stream order (absent: -1) equals the index; otherwise returns the record at the first matching position; a record without a stream order matches only index -1 |
| `Correlation.FindCorrespondingIsFirst` | muxtools/misc/trackparsing.py:124-130 | whenever position `i` holds the first match, the result is exactly that record |
| `Correlation.UnorderedNeverCorresponds` | muxtools/misc/trackparsing.py:126-128 | for a non-negative index, any record found carries that index as its stream order |
| `Correlation.Correlate` | muxtools/misc/trackparsing.py:83-84 | without a secondary source nothing is matched; with one, the match is exactly `FindCorresponding` on the index (the first record whose stream order equals it), and any match is a record of the source whose stream order is the index |
| `Correlation.DelayOf` | muxtools/misc/trackparsing.py:85-106 | the delay is 0 without a match or without a delay value; otherwise it is the matched record's delay, and a non-zero result always comes from that record |
| `Correlation.CorrelateAsWritten` | muxtools/misc/trackparsing.py:83-85 | the step as written fails exactly when the secondary source was not consulted, and otherwise never selects a record |
| `Correlation.AsWrittenLosesEveryMatch` | muxtools/misc/trackparsing.py:83-84 | whenever some record matches, the as-written step selects nothing and the corrected step selects a record |
| `Correlation.AsWrittenDropsDelayExample` | muxtools/misc/trackparsing.py:83-106 | for a record with stream order 1 and delay 50, the as-written step yields no match; the corrected delay for index 1 is 50 |
| `Correlation.AsWrittenFailsWithoutMediaInfo` | muxtools/misc/trackparsing.py:77-83 | outside the Matroska family the as-written step fails; the corrected step yields no match |
| `TrackParsingProperties.TrackOfStream` | muxtools/misc/trackparsing.py:79-117 | track `i` of a successful result is stream `i` normalised, against the source as consulted, with the count of earlier same-type streams as its number |
| `TrackParsingProperties.TracksFollowStreams` | muxtools/misc/trackparsing.py:79-117 | exactly one track per stream, in stream order; each carries its stream as `raw` and its stream's type; its relative index counts earlier streams of that type, whatever the absolute indices |
| `TrackParsingProperties.NumberingStep` | muxtools/misc/trackparsing.py:91-117 | one loop step adds the counter's value to the list of that type's relative indices exactly when the head stream has that type, and advances that counter by one |
| `TrackParsingProperties.NumberingIsConsecutive` | muxtools/misc/trackparsing.py:91-117 | from any counters, the relative indices of each type run consecutively from that type's counter, one per stream of the type |
| `TrackParsingProperties.DenseNumbering` | muxtools/misc/trackparsing.py:64-117 | for each type, its tracks' relative indices in emission order are exactly 0, 1, ..., n-1, where n is its stream count |
| `TrackParsingProperties.FlagsAndTags` | muxtools/misc/trackparsing.py:107-110 | on each track, `default`/`forced` hold iff the flag is present and equals 1; title and language are the tag values, or "" |
| `TrackParsingProperties.NonMatroskaHasNoDelays` | muxtools/misc/trackparsing.py:77-106 | if the format name does not qualify, every track has delay 0 and no matched record |
| `TrackParsingProperties.NonMatroskaIgnoresSecondary` | muxtools/misc/trackparsing.py:77 | if the format name does not qualify, the result is the same whatever the secondary source holds |
| `TrackParsingProperties.MatroskaAdoptsFirstMatch` | muxtools/misc/trackparsing.py:82-106 | for a qualifying container, each track's record is the first whose stream order equals its absolute index; the delay is that record's delay (0 if absent), and 0 without a match |
| `TrackParsingProperties.AsWrittenFailsWithoutDisposition` | muxtools/misc/trackparsing.py:88-108 | with no disposition, the as-written flag reads fail, while the normalised track has both flags false |
| `TrackParsingProperties.MissingFieldsDefault` | muxtools/misc/trackparsing.py:82-110 | a stream with no keys yields index, width, height and bit depth 0, empty strings, false flags and empty title and language |
| `TrackParsingProperties.MatroskaWebmQualifies` | muxtools/misc/trackparsing.py:77 | the format name "matroska,webm" qualifies for the secondary source |
| `TrackParsingProperties.ScenarioMatroskaDelay` | muxtools/misc/trackparsing.py:77-117 | Matroska file; video stream at index 0, audio at index 1; one record with stream order 1 and delay 50: the audio track gets delay 50 and that record, the video track gets 0 and no record |
| `TrackParsingProperties.ScenarioIndexGap` | muxtools/misc/trackparsing.py:82-117 | two audio streams at absolute indices 2 and 5 are audio tracks numbered 0 and 1 |

## Left out

- Locating and running ffprobe, its exit code, and the error raised on failure (trackparsing.py:56-62). This is process I/O. The model starts from the parsed report.
- `json.loads` (line 65). The report is taken already parsed into typed records.
- `MediaInfo.parse` (line 77). This is a foreign library call. Its result is a parameter (`parsedMediaInfo`), which the model reads only for Matroska-family containers.
- Path checks and resolution (`ensure_path_exists`, `file.resolve()`, line 56 and the `filename` fallback at line 73). These are filesystem work. The resolved path is a parameter.
- The list-of-paths form of the input and the `parse` alias (line 121). These are conveniences around the single-file core.
- Value types of the report: every key has one fixed type (an integer or a string). A key present with JSON `null` is treated as absent. Keys the model does not read are not carried in `raw`.
- String-to-integer conversion of `bits_per_raw_sample`, `streamorder` and the delay. These values arrive as integers already.
- Ascii.IsMatroska: folds ASCII letters only, not full Unicode `str.lower()`. The marker is ASCII, but non-ASCII characters that lower-case to ASCII letters are not handled.
- Correlation.DelayOf: delays are integers, so the truncation `int()` applies to a fractional delay is not modelled.
- The truthiness of a matched pymediainfo track object (`if track`). A matched record is taken to be truthy.
- Idempotence: every member is a pure function, so normalising the same input twice gives the same result by construction. No lemma is needed.

## Findings

| source | as written | input that shows it | evidently intended | confidence | as-written member | corrected member |
|---|---|---|---|---|---|---|
| muxtools/misc/trackparsing.py:83-85 | the filter compares `int()` (zero) with an empty tuple, so it never selects a record and the delay is always 0; it also reads `.tracks` of the secondary source, which is `None` outside the Matroska family | a Matroska file, a stream with index 1, and a record with stream order 1 and delay 50 give delay 0, not 50; any non-Matroska file with at least one stream fails with an attribute error | the first record whose stream order equals the stream's absolute index, as `find_corresponding` (lines 124-130) computes; nothing is looked up when the source was not consulted | high; not executed | `Correlation.CorrelateAsWritten`, `Correlation.AsWrittenDropsDelayExample`, `Correlation.AsWrittenFailsWithoutMediaInfo` | `Correlation.Correlate` (with `Correlation.FindCorresponding`) |
| muxtools/misc/trackparsing.py:88-108 | the disposition is read with no default, so a stream without one fails at `.get` | a stream with no `disposition` key | an absent disposition means no flags are set, as tags are treated at lines 109-110 | medium (ffprobe usually emits a disposition); not executed | `TrackParsing.FlagAsWritten`, `TrackParsingProperties.AsWrittenFailsWithoutDisposition` | `TrackParsing.Flag` |
