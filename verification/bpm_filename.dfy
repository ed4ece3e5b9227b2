/** Inference of a tempo from a file name or path, such as "Loop 3 - 174 BPM.wav".

    A candidate is a run of ASCII digits that
    - starts at the beginning of the string or right after a character that is
      neither a letter nor a digit (so a path separator before it is fine),
    - is followed either directly, or after exactly one bridge character
      (space, '-', '_' or '.'), by the token "BPM" in any letter case,
    - where the token is followed by the end of the string or by a bridge
      character.
    The digits are read in base ten (leading zeros do not matter) and the
    candidate is accepted only when that value lies in [30, 300]. The leftmost
    accepted candidate gives the result; when there is none there is no tempo. */
module BpmFilename {
  import opened Wrappers

  /** The tempo range a file name may announce. */
  const MinBpm: nat := 30
  const MaxBpm: nat := 300

  predicate IsDigit(c: char) { '0' <= c <= '9' }

  predicate IsLetter(c: char) { 'a' <= c <= 'z' || 'A' <= c <= 'Z' }

  predicate IsAlnum(c: char) { IsDigit(c) || IsLetter(c) }

  /** The only characters allowed between the digits and "BPM", and right after
      "BPM". Characters that cannot appear in a file name, such as '/', '\\',
      ':', ';' or '\'', are deliberately not among them. */
  predicate IsBridge(c: char) { c == ' ' || c == '-' || c == '_' || c == '.' }

  /** The digit run starting at `i` is not glued to a word on its left. */
  predicate IsWordStart(s: string, i: nat)
    requires i <= |s|
  {
    i == 0 || !IsAlnum(s[i - 1])
  }

  /** The token "BPM", in any letter case, occupies s[k..k+3]. */
  predicate IsBpmTokenAt(s: string, k: nat)
  {
    && k + 3 <= |s|
    && (s[k] == 'B' || s[k] == 'b')
    && (s[k + 1] == 'P' || s[k + 1] == 'p')
    && (s[k + 2] == 'M' || s[k + 2] == 'm')
  }

  /** What follows the token at position k is acceptable: nothing, or a bridge. */
  predicate IsTokenEnd(s: string, k: nat)
  {
    k == |s| || (k < |s| && IsBridge(s[k]))
  }

  /** Every character of s[i..j] is a digit. */
  predicate AllDigits(s: string, i: nat, j: nat)
    requires i <= j <= |s|
  {
    forall k :: i <= k < j ==> IsDigit(s[k])
  }

  function DigitValue(c: char): (v: nat)
    requires IsDigit(c)
    ensures v <= 9
  {
    c as int - '0' as int
  }

  /** The base-ten value of the digits s[i..j]. */
  function DigitsValue(s: string, i: nat, j: nat): nat
    requires i <= j <= |s|
    requires AllDigits(s, i, j)
    decreases j
  {
    if j == i then 0 else 10 * DigitsValue(s, i, j - 1) + DigitValue(s[j - 1])
  }

  /** The value a candidate must have to be accepted. */
  function InRange(v: nat): (r: Option<nat>)
    ensures r.Some? <==> MinBpm <= v <= MaxBpm
    ensures r.Some? ==> r.value == v
  {
    if MinBpm <= v <= MaxBpm then Some(v) else None
  }

  /** A well-ended "BPM" token follows position j, directly or across one
      bridge. */
  predicate IsTokenAfter(s: string, j: nat)
  {
    || (IsBpmTokenAt(s, j) && IsTokenEnd(s, j + 3))
    || (j < |s| && IsBridge(s[j]) && IsBpmTokenAt(s, j + 1) && IsTokenEnd(s, j + 4))
  }

  /** Reference definition of the pattern: s[i..j] is a digit run that starts a
      word and is followed, directly or across one bridge, by a well-ended
      "BPM" token. */
  predicate IsPattern(s: string, i: nat, j: nat)
  {
    && i < j <= |s|
    && AllDigits(s, i, j)
    && IsWordStart(s, i)
    && IsTokenAfter(s, j)
  }

  /** End of the longest run of digits starting at `i`. */
  function DigitRunEnd(s: string, i: nat): (j: nat)
    requires i <= |s|
    ensures i <= j <= |s|
    ensures forall k :: i <= k < j ==> IsDigit(s[k])
    ensures j == |s| || !IsDigit(s[j])
    decreases |s| - i
  {
    if i < |s| && IsDigit(s[i]) then DigitRunEnd(s, i + 1) else i
  }

  /** The tempo announced by a candidate starting at position `i`, if any. */
  function CandidateAt(s: string, i: nat): (r: Option<nat>)
    requires i <= |s|
    ensures forall j: nat :: IsPattern(s, i, j) ==> r == InRange(DigitsValue(s, i, j))
    ensures r.Some? ==> exists j: nat :: IsPattern(s, i, j)
  {
    var j := DigitRunEnd(s, i);
    if j == i || !IsWordStart(s, i) then
      None
    else if IsTokenAfter(s, j) then
      assert IsPattern(s, i, j);
      InRange(DigitsValue(s, i, j))
    else
      None
  }

  /** Position of the leftmost accepted candidate at or after `from`. */
  function FirstCandidateFrom(s: string, from: nat): (r: Option<nat>)
    requires from <= |s|
    ensures r.Some? ==> from <= r.value <= |s| && CandidateAt(s, r.value).Some?
    ensures r.Some? ==> forall k: nat :: from <= k < r.value ==> CandidateAt(s, k).None?
    ensures r.None? ==> forall k: nat :: from <= k <= |s| ==> CandidateAt(s, k).None?
    decreases |s| - from
  {
    if CandidateAt(s, from).Some? then Some(from)
    else if from == |s| then None
    else FirstCandidateFrom(s, from + 1)
  }

  /** Position `i` holds an accepted candidate and no position before it does. */
  predicate IsLeftmostCandidate(s: string, i: nat)
  {
    && i <= |s|
    && CandidateAt(s, i).Some?
    && forall k: nat :: k < i ==> CandidateAt(s, k).None?
  }

  /** `GetBpmFromFilename`: the tempo a file name announces, if any. It is the
      value of the leftmost accepted candidate, and absent when no position
      holds one. */
  function GetBpmFromFilename(filename: string): (r: Option<nat>)
    ensures r.Some? ==> MinBpm <= r.value <= MaxBpm
    ensures r.None? <==> forall i: nat :: i <= |filename| ==> CandidateAt(filename, i).None?
    ensures forall i: nat :: IsLeftmostCandidate(filename, i) ==> r == CandidateAt(filename, i)
    ensures r.Some? ==> exists i: nat :: IsLeftmostCandidate(filename, i)
  {
    match FirstCandidateFrom(filename, 0)
    case Some(i) =>
      assert IsLeftmostCandidate(filename, i);
      CandidateAt(filename, i)
    case None => None
  }

  /** The leftmost accepted candidate decides the tempo. */
  lemma LeftmostDecides(s: string, i: nat)
    requires IsLeftmostCandidate(s, i)
    ensures GetBpmFromFilename(s) == CandidateAt(s, i)
  {
  }
}
