# Music information retrieval: tempo from file names, tags and project tempo

This project models, in Dafny, the tempo-handling core of an audio editor's
music-information-retrieval library. The library's implementation file is
not part of this model. The model follows the behaviour table that the
library's tests assert, in `libraries/lib-music-information-retrieval/tests/MusicInformationRetrievalTests.cpp`. It has three parts.

- **`GetBpmFromFilename`** (`bpm_filename.dfy`) reads a tempo from a file
  name such as `Loop 3 - 174 BPM.wav`. A candidate is a run of ASCII digits
  with these properties:
  - It starts the string, or follows a character that is neither a letter nor
    a digit.
  - It is followed by `BPM`, either directly or after one bridge character
    (space, `-`, `_` or `.`).
  - `BPM` is followed by the end of the string or by a bridge character.

  The digits are read in base ten. The candidate counts only when its value
  lies in [30, 300]. The leftmost such candidate is the tempo.
- **`MusicInformation`** (`music_information.dfy`) resolves a file's tempo
  from optional loop-metadata tags (`AcidizerTags`: a bpm and a one-shot flag)
  and the file name:
  - A one-shot tag means no tempo.
  - Otherwise a tag bpm in [30, 300] wins.
  - Otherwise the tempo comes from the file name.

  The value is truthy exactly when a tempo was found.
- **`GetProjectSyncInfo`** returns the resolved tempo and a factor. With no
  project tempo the factor is 1. Otherwise it is the power of two 2^n, where n
  is the integer nearest to log2(project / raw) (`power_of_two.dfy`). The
  model computes n on reals, with no logarithms or floating point:
  - n is characterised by `2^(2n-1) <= r*r <= 2^(2n+1)`, where r = project / raw.
  - An exact half-way point rounds away from zero.
  - `rational_ties.dfy` proves that, in exact arithmetic, no ratio of two
    whole numbers ever sits exactly half-way. Every finite binary
    floating-point value is such a ratio, so in exact arithmetic the tie rule
    never comes into play for such tempos. `SyncFactorOfWholeRatio` states
    this about `GetProjectSyncInfo` itself. A program that rounds a
    floating-point log2 can still land exactly on a half-way point (see
    "## Left out").

The proofs cover several things:
- Each row of the tests' tables (`bpm_filename_table.dfy`,
  `music_information_table.dfy`).
- The general rules behind those rows (`bpm_filename_properties.dfy`): the
  decimal round trip, leading zeros, word boundaries, which characters may
  stand between the digits and the token, and digit-free prefixes.
- The factor leaves the least residual stretch of all powers of two.

The tests read the parsed tempo as a `double`. The model parses a natural
number and converts it to a real where the tempo is resolved.

## Model

| member | source | states |
|---|---|---|
| BpmFilename.InRange | libraries/lib-music-information-retrieval/tests/MusicInformationRetrievalTests.cpp:21-27 | a value is kept exactly when it lies in [30, 300], and is then unchanged |
| BpmFilename.CandidateAt | libraries/lib-music-information-retrieval/tests/MusicInformationRetrievalTests.cpp:29-58 | a candidate at position i is decided by the digit run starting there: whenever that run forms the pattern (word start, optional single bridge, "BPM", token end), the result is its value range-checked; a result exists only when there is such a pattern |
| BpmFilename.FirstCandidateFrom | libraries/lib-music-information-retrieval/tests/MusicInformationRetrievalTests.cpp:60-62 | the position found is the first from `from` on with an accepted candidate, and none before it is accepted; no position means no position at all is accepted |
| BpmFilename.GetBpmFromFilename | libraries/lib-music-information-retrieval/tests/MusicInformationRetrievalTests.cpp:9-72 | the tempo lies in [30, 300]; it is absent exactly when no position holds an accepted candidate; it equals the candidate at the leftmost accepted position |
| BpmFilename.LeftmostDecides | libraries/lib-music-information-retrieval/tests/MusicInformationRetrievalTests.cpp:60-62 | the leftmost accepted candidate is the tempo |
| BpmFilenameProperties.DecimalString | libraries/lib-music-information-retrieval/tests/MusicInformationRetrievalTests.cpp:21-27 | the decimal writing of v is a non-empty digit string without a leading zero whose value is v |
| BpmFilenameProperties.AcceptedShape | libraries/lib-music-information-retrieval/tests/MusicInformationRetrievalTests.cpp:14-19 | a name `prefix DIGITS [bridge] BPM tail` with a digit-free prefix not ending in a letter or digit, an acceptable tail and a value in [30, 300] announces exactly that value |
| BpmFilenameProperties.ShapeCandidate | libraries/lib-music-information-retrieval/tests/MusicInformationRetrievalTests.cpp:41-58 | in such a name the candidate at the digits is their value |
| BpmFilenameProperties.ExactShape | libraries/lib-music-information-retrieval/tests/MusicInformationRetrievalTests.cpp:21-27 | `DIGITS BPM` gives the digits' value when it lies in [30, 300], and nothing otherwise |
| BpmFilenameProperties.DecimalRoundTrip | libraries/lib-music-information-retrieval/tests/MusicInformationRetrievalTests.cpp:21-27 | writing any natural v in decimal followed by " BPM" gives back v when 30 <= v <= 300, and no tempo otherwise |
| BpmFilenameProperties.LeadingZerosInsignificant | libraries/lib-music-information-retrieval/tests/MusicInformationRetrievalTests.cpp:29-30 | zeros in front of a digit string leave its value unchanged |
| BpmFilenameProperties.LeadingZerosIgnored | libraries/lib-music-information-retrieval/tests/MusicInformationRetrievalTests.cpp:29-30 | any number of zeros before the decimal writing of v gives the same answer as v alone |
| BpmFilenameProperties.NoTokenNoTempo | libraries/lib-music-information-retrieval/tests/MusicInformationRetrievalTests.cpp:62 | a name that never spells "BPM" has no tempo |
| BpmFilenameProperties.NoDigitsNoTempo | libraries/lib-music-information-retrieval/tests/MusicInformationRetrievalTests.cpp:96-97 | a name without any digit has no tempo |
| BpmFilenameProperties.GluedToWordRejected | libraries/lib-music-information-retrieval/tests/MusicInformationRetrievalTests.cpp:34-35 | a digit run glued to a letter on its left, with no other digits in the name, gives no tempo |
| BpmFilenameProperties.IllegalBridgeRejected | libraries/lib-music-information-retrieval/tests/MusicInformationRetrievalTests.cpp:46-52 | in a name whose only digits are one run, any character other than a bridge or a digit between that run and "BPM" means no tempo |
| BpmFilenameProperties.GluedTokenRejected | libraries/lib-music-information-retrieval/tests/MusicInformationRetrievalTests.cpp:38-39 | in a name whose only digits are one run, "BPM" after that run (directly or across one bridge) followed by a character that is neither a bridge nor a digit means no tempo |
| BpmFilenameProperties.PrefixWithoutDigitsIgnored | libraries/lib-music-information-retrieval/tests/MusicInformationRetrievalTests.cpp:18-19 | a digit-free prefix that is empty or ends in neither a letter nor a digit does not change the tempo of the rest |
| BpmFilenameTable.Plain | libraries/lib-music-information-retrieval/tests/MusicInformationRetrievalTests.cpp:12 | "120 BPM" gives 120 |
| BpmFilenameTable.WithExtension | libraries/lib-music-information-retrieval/tests/MusicInformationRetrievalTests.cpp:14-16 | "120 BPM.opus" gives 120 |
| BpmFilenameTable.PrecededByPath | libraries/lib-music-information-retrieval/tests/MusicInformationRetrievalTests.cpp:18-19 | "C:/my\\path/to\\120 BPM" gives 120 |
| BpmFilenameTable.OneIsBelowRange | libraries/lib-music-information-retrieval/tests/MusicInformationRetrievalTests.cpp:22 | "1 BPM" gives none |
| BpmFilenameTable.TwentyNineIsBelowRange | libraries/lib-music-information-retrieval/tests/MusicInformationRetrievalTests.cpp:23 | "29 BPM" gives none |
| BpmFilenameTable.LowerBoundIncluded | libraries/lib-music-information-retrieval/tests/MusicInformationRetrievalTests.cpp:24 | "30 BPM" gives 30 |
| BpmFilenameTable.UpperBoundIncluded | libraries/lib-music-information-retrieval/tests/MusicInformationRetrievalTests.cpp:25 | "300 BPM" gives 300 |
| BpmFilenameTable.ThreeHundredOneIsAboveRange | libraries/lib-music-information-retrieval/tests/MusicInformationRetrievalTests.cpp:26 | "301 BPM" gives none |
| BpmFilenameTable.ThousandIsAboveRange | libraries/lib-music-information-retrieval/tests/MusicInformationRetrievalTests.cpp:27 | "1000 BPM" gives none |
| BpmFilenameTable.PrecededByZeros | libraries/lib-music-information-retrieval/tests/MusicInformationRetrievalTests.cpp:29-30 | "000120 BPM" gives 120 |
| BpmFilenameTable.TextBefore | libraries/lib-music-information-retrieval/tests/MusicInformationRetrievalTests.cpp:32-33 | "anything 120 BPM" gives 120 |
| BpmFilenameTable.TextGluedBefore | libraries/lib-music-information-retrieval/tests/MusicInformationRetrievalTests.cpp:34-35 | "anything120 BPM" gives none |
| BpmFilenameTable.TextAfter | libraries/lib-music-information-retrieval/tests/MusicInformationRetrievalTests.cpp:36-37 | "120 BPM anything" gives 120 |
| BpmFilenameTable.TextGluedAfter | libraries/lib-music-information-retrieval/tests/MusicInformationRetrievalTests.cpp:38-39 | "120 BPManything" gives none |
| BpmFilenameTable.HyphenSeparators | libraries/lib-music-information-retrieval/tests/MusicInformationRetrievalTests.cpp:42 | "anything-120-BPM" gives 120 |
| BpmFilenameTable.UnderscoreSeparators | libraries/lib-music-information-retrieval/tests/MusicInformationRetrievalTests.cpp:43 | "anything_120_BPM" gives 120 |
| BpmFilenameTable.DotSeparators | libraries/lib-music-information-retrieval/tests/MusicInformationRetrievalTests.cpp:44 | "anything.120.BPM" gives 120 |
| BpmFilenameTable.SlashIsNoSeparator | libraries/lib-music-information-retrieval/tests/MusicInformationRetrievalTests.cpp:47 | "120/BPM" gives none |
| BpmFilenameTable.BackslashIsNoSeparator | libraries/lib-music-information-retrieval/tests/MusicInformationRetrievalTests.cpp:48 | "120\\BPM" gives none |
| BpmFilenameTable.ColonIsNoSeparator | libraries/lib-music-information-retrieval/tests/MusicInformationRetrievalTests.cpp:49 | "120:BPM" gives none |
| BpmFilenameTable.SemicolonIsNoSeparator | libraries/lib-music-information-retrieval/tests/MusicInformationRetrievalTests.cpp:50 | "120;BPM" gives none |
| BpmFilenameTable.QuoteIsNoSeparator | libraries/lib-music-information-retrieval/tests/MusicInformationRetrievalTests.cpp:51 | "120'BPM" gives none |
| BpmFilenameTable.MixedSeparators | libraries/lib-music-information-retrieval/tests/MusicInformationRetrievalTests.cpp:54-55 | "anything_120-BPM" gives 120 |
| BpmFilenameTable.NoSeparatorBeforeToken | libraries/lib-music-information-retrieval/tests/MusicInformationRetrievalTests.cpp:57-58 | "anything.120BPM" gives 120 |
| BpmFilenameTable.RejectedRunThenMatch | libraries/lib-music-information-retrieval/tests/MusicInformationRetrievalTests.cpp:61 | "3 - 174 BPM" gives 174: the run "3" is no candidate and the next run decides |
| BpmFilenameTable.LateMatch | libraries/lib-music-information-retrieval/tests/MusicInformationRetrievalTests.cpp:61 | "Cymatics - Cyclone Top Drum Loop 3 - 174 BPM" gives 174 |
| BpmFilenameTable.DigitsWithoutToken | libraries/lib-music-information-retrieval/tests/MusicInformationRetrievalTests.cpp:62 | "66.mp3" gives none |
| BpmFilenameTable.NoTokenInName | libraries/lib-music-information-retrieval/tests/MusicInformationRetrievalTests.cpp:62 | "Fantasie Impromptu Op. 66.mp3" gives none |
| BpmFilenameTable.ResolutionTestName | libraries/lib-music-information-retrieval/tests/MusicInformationRetrievalTests.cpp:77 | "my/path\\foo_-_100BPM_Sticks_-_foo.wav" gives 100 |
| BpmFilenameTable.ResolutionTestNameWithoutBpm | libraries/lib-music-information-retrieval/tests/MusicInformationRetrievalTests.cpp:96-97 | "filenameWithoutBpm" gives none |
| MusicInformationRetrieval.FilenameTempo | libraries/lib-music-information-retrieval/tests/MusicInformationRetrievalTests.cpp:125-132 | the file-name tempo as a real exists exactly when the parser finds one and equals it |
| MusicInformationRetrieval.MakeMusicInformation | libraries/lib-music-information-retrieval/tests/MusicInformationRetrievalTests.cpp:88-132 | a one-shot tag gives a falsy value; the value is truthy exactly when the tag is not one-shot and either the tag bpm is valid or the name announces a tempo; a valid tag bpm is the tempo; otherwise the name's tempo is; every tempo held lies in [30, 300] (by its type) |
| MusicInformationRetrieval.GetProjectSyncInfo | libraries/lib-music-information-retrieval/tests/MusicInformationRetrievalTests.cpp:114-165 | the raw tempo is the resolved one; with no project tempo the factor is 1; otherwise the factor is 2^n for an n with 2^(2n-1) <= (project/raw)^2 <= 2^(2n+1), half-way points going away from zero |
| MusicInformationRetrieval.SyncLeavesLeastStretch | libraries/lib-music-information-retrieval/tests/MusicInformationRetrievalTests.cpp:142-150 | the residual stretch project / (raw * factor) is no farther from 1 than project / (raw * 2^m) for any integer m |
| MusicInformationRetrieval.SyncFactorOfBand | libraries/lib-music-information-retrieval/tests/MusicInformationRetrievalTests.cpp:152-164 | a project tempo strictly inside the band of octave n around the raw tempo gets factor 2^n |
| MusicInformationRetrieval.SyncFactorOfWholeRatio | libraries/lib-music-information-retrieval/tests/MusicInformationRetrievalTests.cpp:152-164 | when project tempo / raw tempo is a ratio of two positive whole numbers, the factor is 2^n with the squared ratio strictly inside the band of n, and every exponent whose band holds the squared ratio, edges included, gives that same factor |
| PowerOfTwo.Pow2Add | libraries/lib-music-information-retrieval/tests/MusicInformationRetrievalTests.cpp:140-150 | 2^(a+b) = 2^a * 2^b for all integers a, b |
| PowerOfTwo.Pow2Monotone | libraries/lib-music-information-retrieval/tests/MusicInformationRetrievalTests.cpp:140-150 | 2^a < 2^b whenever a < b |
| PowerOfTwo.FloorLog2 | libraries/lib-music-information-retrieval/tests/MusicInformationRetrievalTests.cpp:140-164 | the integer k returned satisfies 2^k <= x < 2^(k+1) |
| PowerOfTwo.NearestExponent | libraries/lib-music-information-retrieval/tests/MusicInformationRetrievalTests.cpp:140-164 | the exponent n returned satisfies 2^(2n-1) <= r^2 <= 2^(2n+1), with the lower edge only for n >= 1 and the upper edge only for n <= -1 |
| PowerOfTwo.HalfExponentUnique | libraries/lib-music-information-retrieval/tests/MusicInformationRetrievalTests.cpp:152-164 | when q lies strictly inside the band of m, m is the only exponent whose band holds q, even counting band edges |
| PowerOfTwo.NearestExponentUnique | libraries/lib-music-information-retrieval/tests/MusicInformationRetrievalTests.cpp:152-164 | a ratio strictly inside the band of m has nearest exponent m |
| PowerOfTwo.ResidualWithinHalfOctave | libraries/lib-music-information-retrieval/tests/MusicInformationRetrievalTests.cpp:142-150 | after dividing out 2^NearestExponent(r), the square of what remains lies in [1/2, 2] |
| PowerOfTwo.StretchMinimizing | libraries/lib-music-information-retrieval/tests/MusicInformationRetrievalTests.cpp:142-150 | r / 2^NearestExponent(r) is no farther from 1, as a factor, than r / 2^m for any integer m |
| RationalTies.NotTwiceSquare | libraries/lib-music-information-retrieval/tests/MusicInformationRetrievalTests.cpp:152-164 | no whole number squared is twice a positive square |
| RationalTies.RationalNeverHalfway | libraries/lib-music-information-retrieval/tests/MusicInformationRetrievalTests.cpp:152-164 | the square of a ratio of positive whole numbers is never an odd power of two |
| RationalTies.RationalStrictlyInside | libraries/lib-music-information-retrieval/tests/MusicInformationRetrievalTests.cpp:152-164 | for such a ratio the nearest exponent lies strictly inside its band |
| MusicInformationTable.TruthinessTable | libraries/lib-music-information-retrieval/tests/MusicInformationRetrievalTests.cpp:88-112 | one-shot tag with the 100-BPM name: falsy; valid tag with a name without tempo: truthy; tag bpm 0 with the 100-BPM name: truthy; tag bpm 0 with a name without tempo: falsy |
| MusicInformationTable.RawTempoTable | libraries/lib-music-information-retrieval/tests/MusicInformationRetrievalTests.cpp:116-132 | tag 120 over the name's 100 gives raw tempo 120; tag bpm 0 gives the name's 100; factor 1 without a project tempo |
| MusicInformationTable.WholeOctavesTable | libraries/lib-music-information-retrieval/tests/MusicInformationRetrievalTests.cpp:134-150 | no tags and the 100-BPM name: project tempos 100, 200, 400, 50, 25 give factors 1, 2, 4, 0.5, 0.25 |
| MusicInformationTable.HalfOctaveEdgesTable | libraries/lib-music-information-retrieval/tests/MusicInformationRetrievalTests.cpp:152-164 | project tempos 100 * 2^0.51, 100 * 2^0.49, 100 * 2^-0.49, 100 * 2^-0.51 give factors 2, 1, 1, 0.5 |
| MusicInformationTable.HalfOctaveEdgesAt100 | libraries/lib-music-information-retrieval/tests/MusicInformationRetrievalTests.cpp:152-164 | the same four edge cases for a raw tempo of 100 |

## Left out

- The audio-content analysis that the library may consult as a last resort is not modelled; it is taken to find no tempo. The tests always pass an empty audio reader, so they assert nothing about it. The same goes for its progress callback and the false-positive tolerance policy.
- The library's header and implementation files (`MusicInformationRetrieval.h/.cpp`) are not part of this model; the behaviour follows the tests.
- Floating point is not modelled: tempos are exact reals, and 2^n and the nearest exponent are computed exactly rather than with `std::pow`/`std::log2`/rounding of doubles. The four edge-case tempos are written as 14-decimal approximations of 100 * 2^(±0.51), 100 * 2^(±0.49). Each lies on the same side of its half-octave boundary as the double it stands for.
- BpmFilename.GetBpmFromFilename: the digit run is read as an unbounded natural number, so an overlong run that would overflow a fixed-width integer conversion is simply out of range here.
- BpmFilename.GetBpmFromFilename: "BPM" is matched in any letter case and "letter or digit" means ASCII. The tests only use upper-case "BPM" and ASCII names, so both are modelling choices.
- BpmFilename.GetBpmFromFilename: after "BPM" only a bridge character (space, `-`, `_`, `.`) or the end of the string is accepted. The tests show space, `.` and `_` there and reject a letter.
- MusicInformationRetrieval.GetProjectSyncInfo: requires a truthy value, which is the only kind that holds a tempo, and a positive project tempo, for which the logarithm of the ratio is defined. The tie at an exact half-way point rounds away from zero. The tests never reach a tie. SyncFactorOfWholeRatio shows that in exact arithmetic no ratio of two whole numbers, and so no ratio of two doubles, reaches one.
- MusicInformationRetrieval.GetProjectSyncInfo: computes the nearest exponent from the exact ratio, not from a rounded floating-point log2 of the double ratio. Near a half-way point the two can differ: the double log2 can come out as exactly k + 0.5, and then the tie rule decides. Example: raw tempo 100 and project tempo 100 * 2^-1.5 as a double (35.35533905932738). The double ratio 0.3535533905932738 has a log2 of -1.5 + 9.9e-17, which rounds to exactly -1.5 in double precision, and rounding half away from zero then gives the factor 0.25. The exact ratio lies just above 2^-1.5, so the model gives 0.5. The same happens for project 565.6854249492379 with raw 100 (8 against the model's 4) and for project 181.01933598375615 with raw 32 (8 against 4).
