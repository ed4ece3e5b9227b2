/** Tempo resolution for an audio file about to be imported, and the power of
    two by which its tempo is best scaled to fit a project tempo.

    A `MusicInformation` is built from optional loop-metadata tags and the
    file's name. It is truthy exactly when it holds a tempo it trusts; the
    tempo comes from the tags when they carry a valid one, and from the file
    name otherwise. One-shot samples never have a tempo. */
module MusicInformationRetrieval {
  import opened Wrappers
  import opened BpmFilename
  import opened PowerOfTwo
  import RationalTies

  /** A tempo in beats per minute within the accepted domain [30, 300]. */
  type Bpm = x: real | IsValidBpm(x) witness MinBpm as real

  predicate IsValidBpm(x: real)
  {
    MinBpm as real <= x <= MaxBpm as real
  }

  /** The loop metadata some audio files carry: a tempo of any value and
      whether the file is a one-shot (a single hit with no looped tempo). */
  datatype AcidizerTags = AcidizerTags(bpm: real, isOneShot: bool)

  /** The result of tempo resolution; truthy when a tempo was found. */
  datatype MusicInformation = MusicInformation(rawTempo: Option<Bpm>)
  {
    predicate IsTruthy()
    {
      rawTempo.Some?
    }
  }

  datatype ProjectSyncInfo = ProjectSyncInfo(rawAudioTempo: Bpm, stretchMinimizingPowOfTwo: real)

  predicate SaysOneShot(tags: Option<AcidizerTags>)
  {
    tags.Some? && tags.value.isOneShot
  }

  predicate HasValidTagBpm(tags: Option<AcidizerTags>)
  {
    tags.Some? && IsValidBpm(tags.value.bpm)
  }

  /** The tempo a file name announces, as a real. */
  function FilenameTempo(filename: string): (t: Option<Bpm>)
    ensures t.Some? <==> GetBpmFromFilename(filename).Some?
    ensures t.Some? ==> t.value == GetBpmFromFilename(filename).value as real
  {
    match GetBpmFromFilename(filename)
    case None => None
    case Some(v) => Some(v as real)
  }

  /** Builds the music information for a file from its tags and its name.
      The audio-content analysis that could supply a tempo as a last resort
      is not part of this model and is taken to find nothing. */
  function MakeMusicInformation(tags: Option<AcidizerTags>, filename: string): (info: MusicInformation)
    ensures SaysOneShot(tags) ==> !info.IsTruthy()
    ensures info.IsTruthy() <==>
      !SaysOneShot(tags) && (HasValidTagBpm(tags) || GetBpmFromFilename(filename).Some?)
    ensures !SaysOneShot(tags) && HasValidTagBpm(tags) ==> info.rawTempo == Some(tags.value.bpm)
    ensures !SaysOneShot(tags) && !HasValidTagBpm(tags) && info.IsTruthy() ==>
      info.rawTempo.value == GetBpmFromFilename(filename).value as real
  {
    if SaysOneShot(tags) then
      MusicInformation(None)
    else if HasValidTagBpm(tags) then
      MusicInformation(Some(tags.value.bpm))
    else
      MusicInformation(FilenameTempo(filename))
  }

  /** project / raw, a positive ratio. */
  function TempoRatio(projectTempo: real, rawTempo: real): (r: real)
    requires projectTempo > 0.0 && rawTempo > 0.0
    ensures r > 0.0 && r * rawTempo == projectTempo
  {
    var r := projectTempo / rawTempo;
    assert r > 0.0 by {
      if r <= 0.0 {
        MulMonotone(r, 0.0, rawTempo);
      }
    }
    r
  }

  /** The resolved tempo and, when a project tempo is given, the power of two
      2^n with n the integer nearest to log2(project / raw): the factor by
      which the file's tempo is best doubled or halved before any fine
      stretch is applied. Without a project tempo the factor is 1. */
  function GetProjectSyncInfo(info: MusicInformation, projectTempo: Option<real>): (sync: ProjectSyncInfo)
    requires info.IsTruthy()
    requires projectTempo.Some? ==> projectTempo.value > 0.0
    ensures sync.rawAudioTempo == info.rawTempo.value
    ensures projectTempo.None? ==> sync.stretchMinimizingPowOfTwo == 1.0
    ensures projectTempo.Some? ==>
      exists n: int :: sync.stretchMinimizingPowOfTwo == Pow2(n)
        && IsNearestHalfExponent(Square(TempoRatio(projectTempo.value, info.rawTempo.value)), n)
  {
    var raw := info.rawTempo.value;
    match projectTempo
    case None => ProjectSyncInfo(raw, 1.0)
    case Some(p) =>
      var n := NearestExponent(TempoRatio(p, raw));
      ProjectSyncInfo(raw, Pow2(n))
  }

  /** The factor leaves the least residual stretch: the fine stretch
      project / (raw * factor) that remains is no farther from 1 than what
      any other power of two would leave. */
  lemma SyncLeavesLeastStretch(info: MusicInformation, projectTempo: real, m: int)
    requires info.IsTruthy() && projectTempo > 0.0
    ensures var r := TempoRatio(projectTempo, info.rawTempo.value);
      exists n: int ::
        && GetProjectSyncInfo(info, Some(projectTempo)).stretchMinimizingPowOfTwo == Pow2(n)
        && Deviation(Residual(r, n)) <= Deviation(Residual(r, m))
  {
    var r := TempoRatio(projectTempo, info.rawTempo.value);
    var n := NearestExponent(r);
    StretchMinimizing(r, m);
    assert GetProjectSyncInfo(info, Some(projectTempo)).stretchMinimizingPowOfTwo == Pow2(n);
  }

  /** Whenever a project tempo lies strictly inside the band of octave n
      around the file's tempo, the factor is 2^n. */
  lemma SyncFactorOfBand(info: MusicInformation, projectTempo: real, n: int)
    requires info.IsTruthy() && projectTempo > 0.0
    requires Pow2(2 * n - 1) < Square(TempoRatio(projectTempo, info.rawTempo.value)) < Pow2(2 * n + 1)
    ensures GetProjectSyncInfo(info, Some(projectTempo)).stretchMinimizingPowOfTwo == Pow2(n)
  {
    NearestExponentUnique(TempoRatio(projectTempo, info.rawTempo.value), n);
  }

  /** When the ratio of project tempo to file tempo is a ratio of two whole
      numbers, as the exact ratio of any two finite binary floating-point
      tempos is, the factor is 2^n for an n whose band holds the squared ratio
      strictly inside, and every exponent whose band holds it, edges included,
      gives that same factor: in exact arithmetic the way ties are broken never
      matters. */
  lemma SyncFactorOfWholeRatio(info: MusicInformation, projectTempo: real, a: int, c: int)
    requires info.IsTruthy() && projectTempo > 0.0
    requires a > 0 && c > 0
    requires TempoRatio(projectTempo, info.rawTempo.value) == a as real / c as real
    ensures exists n: int ::
      && GetProjectSyncInfo(info, Some(projectTempo)).stretchMinimizingPowOfTwo == Pow2(n)
      && Pow2(2 * n - 1) < Square(TempoRatio(projectTempo, info.rawTempo.value)) < Pow2(2 * n + 1)
    ensures forall m: int :: IsInOctaveBand(Square(TempoRatio(projectTempo, info.rawTempo.value)), m) ==>
      GetProjectSyncInfo(info, Some(projectTempo)).stretchMinimizingPowOfTwo == Pow2(m)
  {
    var r := TempoRatio(projectTempo, info.rawTempo.value);
    var n := NearestExponent(r);
    RationalTies.RationalStrictlyInside(a, c);
    assert GetProjectSyncInfo(info, Some(projectTempo)).stretchMinimizingPowOfTwo == Pow2(n);
    forall m: int | IsInOctaveBand(Square(r), m)
      ensures GetProjectSyncInfo(info, Some(projectTempo)).stretchMinimizingPowOfTwo == Pow2(m)
    {
      HalfExponentUnique(Square(r), m, n);
    }
  }
}
