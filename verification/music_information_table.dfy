/** The tempo-resolution and power-of-two behaviour of the music information
    component, one lemma per group of cases. */
module MusicInformationTable {
  import opened Wrappers
  import opened BpmFilename
  import opened BpmFilenameTable
  import opened MusicInformationRetrieval

  /** A file name announcing 100 BPM, glued to the token and followed by "_". */
  const Filename100Bpm: string := "my/path\\foo_-_100BPM_Sticks_-_foo.wav"

  const FilenameWithoutBpm: string := "filenameWithoutBpm"

  /** Truthiness: a one-shot tag wins over a tempo in the name; a valid tag
      suffices without one; an invalid tag bpm (0) falls back to the name. */
  lemma TruthinessTable()
    ensures !MakeMusicInformation(Some(AcidizerTags(120.0, true)), Filename100Bpm).IsTruthy()
    ensures MakeMusicInformation(Some(AcidizerTags(120.0, false)), FilenameWithoutBpm).IsTruthy()
    ensures MakeMusicInformation(Some(AcidizerTags(0.0, false)), Filename100Bpm).IsTruthy()
    ensures !MakeMusicInformation(Some(AcidizerTags(0.0, false)), FilenameWithoutBpm).IsTruthy()
  {
    ResolutionTestName();
    ResolutionTestNameWithoutBpm();
    assert GetBpmFromFilename(Filename100Bpm).Some?;
    assert GetBpmFromFilename(FilenameWithoutBpm).None?;
    assert SaysOneShot(Some(AcidizerTags(120.0, true)));
    assert HasValidTagBpm(Some(AcidizerTags(120.0, false)));
    assert !SaysOneShot(Some(AcidizerTags(0.0, false))) && !HasValidTagBpm(Some(AcidizerTags(0.0, false)));
  }

  /** The raw tempo is the tag's 120 over the name's 100, and the name's 100
      when the tag bpm is 0; without a project tempo the factor is 1. */
  lemma RawTempoTable()
    ensures var info := MakeMusicInformation(Some(AcidizerTags(120.0, false)), Filename100Bpm);
      info.IsTruthy() && GetProjectSyncInfo(info, None) == ProjectSyncInfo(120.0, 1.0)
    ensures var info := MakeMusicInformation(Some(AcidizerTags(0.0, false)), Filename100Bpm);
      info.IsTruthy() && GetProjectSyncInfo(info, None) == ProjectSyncInfo(100.0, 1.0)
  {
    ResolutionTestName();
  }

  /** Whole octaves away from the name's 100 BPM give exactly that power of two. */
  lemma WholeOctavesTable()
    ensures MakeMusicInformation(None, Filename100Bpm) == MusicInformation(Some(100.0))
    ensures var info := MakeMusicInformation(None, Filename100Bpm);
      && GetProjectSyncInfo(info, Some(100.0)).stretchMinimizingPowOfTwo == 1.0
      && GetProjectSyncInfo(info, Some(200.0)).stretchMinimizingPowOfTwo == 2.0
      && GetProjectSyncInfo(info, Some(400.0)).stretchMinimizingPowOfTwo == 4.0
      && GetProjectSyncInfo(info, Some(50.0)).stretchMinimizingPowOfTwo == 0.5
      && GetProjectSyncInfo(info, Some(25.0)).stretchMinimizingPowOfTwo == 0.25
  {
    ResolutionTestName();
    var info := MakeMusicInformation(None, Filename100Bpm);
    SyncFactorOfBand(info, 100.0, 0);
    SyncFactorOfBand(info, 200.0, 1);
    SyncFactorOfBand(info, 400.0, 2);
    SyncFactorOfBand(info, 50.0, -1);
    SyncFactorOfBand(info, 25.0, -2);
  }

  /** Just past half an octave from the name's 100 BPM rounds to the next
      power of two, just short of it rounds back to 1. The tempos are
      100 * 2^0.51, 100 * 2^0.49, 100 * 2^-0.49 and 100 * 2^-0.51 to 14
      decimals. */
  lemma HalfOctaveEdgesTable()
    ensures MakeMusicInformation(None, Filename100Bpm) == MusicInformation(Some(100.0))
    ensures var info := MakeMusicInformation(None, Filename100Bpm);
      && GetProjectSyncInfo(info, Some(142.40501955970717)).stretchMinimizingPowOfTwo == 2.0
      && GetProjectSyncInfo(info, Some(140.44448757379973)).stretchMinimizingPowOfTwo == 1.0
      && GetProjectSyncInfo(info, Some(71.20250977985359)).stretchMinimizingPowOfTwo == 1.0
      && GetProjectSyncInfo(info, Some(70.22224378689987)).stretchMinimizingPowOfTwo == 0.5
  {
    ResolutionTestName();
    assert MakeMusicInformation(None, Filename100Bpm) == MusicInformation(Some(100.0));
    HalfOctaveEdgesAt100();
  }

  lemma HalfOctaveEdgesAt100()
    ensures var info := MusicInformation(Some(100.0));
      && GetProjectSyncInfo(info, Some(142.40501955970717)).stretchMinimizingPowOfTwo == 2.0
      && GetProjectSyncInfo(info, Some(140.44448757379973)).stretchMinimizingPowOfTwo == 1.0
      && GetProjectSyncInfo(info, Some(71.20250977985359)).stretchMinimizingPowOfTwo == 1.0
      && GetProjectSyncInfo(info, Some(70.22224378689987)).stretchMinimizingPowOfTwo == 0.5
  {
    var info := MusicInformation(Some(100.0));
    SyncFactorOfBand(info, 142.40501955970717, 1);
    SyncFactorOfBand(info, 140.44448757379973, 0);
    SyncFactorOfBand(info, 71.20250977985359, 0);
    SyncFactorOfBand(info, 70.22224378689987, -1);
  }
}
