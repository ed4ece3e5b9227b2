/** The behaviour table of `GetBpmFromFilename`, row by row, as lemmas about the
    model. Each proof cuts the name into the pieces the general lemmas about
    the parser speak of (text before the digits, the digits, the bridge, "BPM",
    text after), so that the row follows from one of them. */
module BpmFilenameTable {
  import opened Wrappers
  import opened BpmFilename
  import opened BpmFilenameProperties

  /** "120 BPM": 120. */
  lemma Plain()
    ensures GetBpmFromFilename("120 BPM") == Some(120)
  {
    assert "120 BPM" == "120" + " BPM";
    assert DigitsValue("120", 0, 3) == 120;
    ExactShape("120");
  }

  /** "120 BPM.opus": an extension after the token is fine. */
  lemma WithExtension()
    ensures GetBpmFromFilename("120 BPM.opus") == Some(120)
  {
    assert "120 BPM.opus" == "" + "120" + " " + "BPM" + ".opus";
    assert DigitsValue("120", 0, 3) == 120;
    AcceptedShape("", "120", " ", ".opus");
  }

  /** "1 BPM": below 30, absent. */
  lemma OneIsBelowRange()
    ensures GetBpmFromFilename("1 BPM") == None
  {
    assert "1 BPM" == "1" + " BPM";
    assert DigitsValue("1", 0, 1) == 1;
    ExactShape("1");
  }

  /** "29 BPM": below 30, absent. */
  lemma TwentyNineIsBelowRange()
    ensures GetBpmFromFilename("29 BPM") == None
  {
    assert "29 BPM" == "29" + " BPM";
    assert DigitsValue("29", 0, 2) == 29;
    ExactShape("29");
  }

  /** "30 BPM": the lower bound is accepted. */
  lemma LowerBoundIncluded()
    ensures GetBpmFromFilename("30 BPM") == Some(30)
  {
    assert "30 BPM" == "30" + " BPM";
    assert DigitsValue("30", 0, 2) == 30;
    ExactShape("30");
  }

  /** "300 BPM": the upper bound is accepted. */
  lemma UpperBoundIncluded()
    ensures GetBpmFromFilename("300 BPM") == Some(300)
  {
    assert "300 BPM" == "300" + " BPM";
    assert DigitsValue("300", 0, 3) == 300;
    ExactShape("300");
  }

  /** "301 BPM": above 300, absent. */
  lemma ThreeHundredOneIsAboveRange()
    ensures GetBpmFromFilename("301 BPM") == None
  {
    assert "301 BPM" == "301" + " BPM";
    assert DigitsValue("301", 0, 3) == 301;
    ExactShape("301");
  }

  /** "1000 BPM": above 300, absent. */
  lemma ThousandIsAboveRange()
    ensures GetBpmFromFilename("1000 BPM") == None
  {
    assert "1000 BPM" == "1000" + " BPM";
    assert DigitsValue("1000", 0, 4) == 1000;
    ExactShape("1000");
  }

  /** "000120 BPM": leading zeros are ignored. */
  lemma PrecededByZeros()
    ensures GetBpmFromFilename("000120 BPM") == Some(120)
  {
    assert "000120 BPM" == "000120" + " BPM";
    assert DigitsValue("000120", 0, 6) == 120;
    ExactShape("000120");
  }

  /** "anything 120 BPM": text before the value is fine after a separator. */
  lemma TextBefore()
    ensures GetBpmFromFilename("anything 120 BPM") == Some(120)
  {
    assert "anything 120 BPM" == "anything " + "120" + " " + "BPM" + "";
    assert DigitsValue("120", 0, 3) == 120;
    AcceptedShape("anything ", "120", " ", "");
  }

  /** "anything120 BPM": text glued to the value rejects it. */
  lemma TextGluedBefore()
    ensures GetBpmFromFilename("anything120 BPM").None?
  {
    assert "anything120 BPM" == "anything" + "120" + " BPM";
    GluedToWordRejected("anything", "120", " BPM");
  }

  /** "120 BPM anything": text after "BPM" is fine after a separator. */
  lemma TextAfter()
    ensures GetBpmFromFilename("120 BPM anything") == Some(120)
  {
    assert "120 BPM anything" == "" + "120" + " " + "BPM" + " anything";
    assert DigitsValue("120", 0, 3) == 120;
    AcceptedShape("", "120", " ", " anything");
  }

  /** "120 BPManything": text glued to "BPM" rejects it. */
  lemma TextGluedAfter()
    ensures GetBpmFromFilename("120 BPManything").None?
  {
    assert "120 BPManything" == "" + "120" + " " + "BPM" + ['a'] + "nything";
    GluedTokenRejected("", "120", " ", 'a', "nything");
  }

  /** "anything-120-BPM": hyphens as separators. */
  lemma HyphenSeparators()
    ensures GetBpmFromFilename("anything-120-BPM") == Some(120)
  {
    assert "anything-120-BPM" == "anything-" + "120" + "-" + "BPM" + "";
    assert DigitsValue("120", 0, 3) == 120;
    AcceptedShape("anything-", "120", "-", "");
  }

  /** "anything_120_BPM": underscores as separators. */
  lemma UnderscoreSeparators()
    ensures GetBpmFromFilename("anything_120_BPM") == Some(120)
  {
    assert "anything_120_BPM" == "anything_" + "120" + "_" + "BPM" + "";
    assert DigitsValue("120", 0, 3) == 120;
    AcceptedShape("anything_", "120", "_", "");
  }

  /** "anything.120.BPM": dots as separators. */
  lemma DotSeparators()
    ensures GetBpmFromFilename("anything.120.BPM") == Some(120)
  {
    assert "anything.120.BPM" == "anything." + "120" + "." + "BPM" + "";
    assert DigitsValue("120", 0, 3) == 120;
    AcceptedShape("anything.", "120", ".", "");
  }

  /** "120/BPM": '/' cannot stand between value and token. */
  lemma SlashIsNoSeparator()
    ensures GetBpmFromFilename("120/BPM").None?
  {
    assert "120/BPM" == "" + "120" + ['/'] + "BPM" + "";
    IllegalBridgeRejected("", "120", '/', "");
  }

  /** "120\\BPM": a backslash cannot stand between value and token. */
  lemma BackslashIsNoSeparator()
    ensures GetBpmFromFilename("120\\BPM").None?
  {
    assert "120\\BPM" == "" + "120" + ['\\'] + "BPM" + "";
    IllegalBridgeRejected("", "120", '\\', "");
  }

  /** "120:BPM": ':' cannot stand between value and token. */
  lemma ColonIsNoSeparator()
    ensures GetBpmFromFilename("120:BPM").None?
  {
    assert "120:BPM" == "" + "120" + [':'] + "BPM" + "";
    IllegalBridgeRejected("", "120", ':', "");
  }

  /** "120;BPM": ';' cannot stand between value and token. */
  lemma SemicolonIsNoSeparator()
    ensures GetBpmFromFilename("120;BPM").None?
  {
    assert "120;BPM" == "" + "120" + [';'] + "BPM" + "";
    IllegalBridgeRejected("", "120", ';', "");
  }

  /** "120'BPM": a quote cannot stand between value and token. */
  lemma QuoteIsNoSeparator()
    ensures GetBpmFromFilename("120'BPM").None?
  {
    assert "120'BPM" == "" + "120" + ['\''] + "BPM" + "";
    IllegalBridgeRejected("", "120", '\'', "");
  }

  /** "anything_120-BPM": the separators on either side of the value need not match. */
  lemma MixedSeparators()
    ensures GetBpmFromFilename("anything_120-BPM") == Some(120)
  {
    assert "anything_120-BPM" == "anything_" + "120" + "-" + "BPM" + "";
    assert DigitsValue("120", 0, 3) == 120;
    AcceptedShape("anything_", "120", "-", "");
  }

  /** "anything.120BPM": no separator between value and "BPM" is fine. */
  lemma NoSeparatorBeforeToken()
    ensures GetBpmFromFilename("anything.120BPM") == Some(120)
  {
    assert "anything.120BPM" == "anything." + "120" + "" + "BPM" + "";
    assert DigitsValue("120", 0, 3) == 120;
    AcceptedShape("anything.", "120", "", "");
  }

  /** "C:/my\\path/to\\120 BPM": a preceding path, with both kinds of slash,
      does not matter. */
  lemma PrecededByPath()
    ensures GetBpmFromFilename("C:/my\\path/to\\120 BPM") == Some(120)
  {
    assert "C:/my\\path/to\\120 BPM" == "C:/my\\path/to\\" + "120" + " " + "BPM" + "";
    assert DigitsValue("120", 0, 3) == 120;
    AcceptedShape("C:/my\\path/to\\", "120", " ", "");
  }

  /** "3 - 174 BPM": the digit run "3" is followed by " - ", not by "BPM", so
      the next run decides. */
  lemma RejectedRunThenMatch()
    ensures GetBpmFromFilename("3 - 174 BPM") == Some(174)
  {
    var s := "3 - 174 BPM";
    assert DigitsValue(s, 4, 7) == 174;
    assert CandidateAt(s, 4) == Some(174);
    assert CandidateAt(s, 0) == None;
    assert FirstCandidateFrom(s, 0) == Some(4);
    LeftmostDecides(s, 4);
  }

  /** "Cymatics - Cyclone Top Drum Loop 3 - 174 BPM": a real name where an
      earlier digit run is no candidate; 174. */
  lemma LateMatch()
    ensures GetBpmFromFilename("Cymatics - Cyclone Top Drum Loop 3 - 174 BPM") == Some(174)
  {
    assert "Cymatics - Cyclone Top Drum Loop 3 - 174 BPM" == "Cymatics - Cyclone Top Drum Loop " + "3 - 174 BPM";
    PrefixWithoutDigitsIgnored("Cymatics - Cyclone Top Drum Loop ", "3 - 174 BPM");
    RejectedRunThenMatch();
  }

  /** "66.mp3": the digits are followed by ".mp3", not by "BPM". */
  lemma DigitsWithoutToken()
    ensures GetBpmFromFilename("66.mp3") == None
  {
    var s := "66.mp3";
    assert FirstCandidateFrom(s, 0) == None;
  }

  /** "Fantasie Impromptu Op. 66.mp3": a real name with digits but no "BPM". */
  lemma NoTokenInName()
    ensures GetBpmFromFilename("Fantasie Impromptu Op. 66.mp3") == None
  {
    assert "Fantasie Impromptu Op. 66.mp3" == "Fantasie Impromptu Op. " + "66.mp3";
    PrefixWithoutDigitsIgnored("Fantasie Impromptu Op. ", "66.mp3");
    DigitsWithoutToken();
  }

  /** "my/path\\foo_-_100BPM_Sticks_-_foo.wav", the name with a tempo used by the
      tempo-resolution tests: 100. */
  lemma ResolutionTestName()
    ensures GetBpmFromFilename("my/path\\foo_-_100BPM_Sticks_-_foo.wav") == Some(100)
  {
    assert "my/path\\foo_-_100BPM_Sticks_-_foo.wav" == "my/path\\foo_-_" + "100" + "" + "BPM" + "_Sticks_-_foo.wav";
    assert DigitsValue("100", 0, 3) == 100;
    AcceptedShape("my/path\\foo_-_", "100", "", "_Sticks_-_foo.wav");
  }

  /** "filenameWithoutBpm", the name without a tempo used by the tempo-resolution
      tests. */
  lemma ResolutionTestNameWithoutBpm()
    ensures GetBpmFromFilename("filenameWithoutBpm") == None
  {
    assert "filenameWithoutBpm" == "filename" + "WithoutBpm";
    NoDigitsNoTempo("filename" + "WithoutBpm");
  }
}
