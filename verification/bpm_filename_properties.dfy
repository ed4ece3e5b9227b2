/** Properties of the file-name tempo parser, stated for whole families of
    names rather than for single strings. */
module BpmFilenameProperties {
  import opened Wrappers
  import opened BpmFilename

  /** No character of `p` is a digit. */
  predicate NoDigits(p: string)
  {
    forall k :: 0 <= k < |p| ==> !IsDigit(p[k])
  }

  /** `sep` is what may sit between the digits and "BPM": nothing, or one bridge. */
  predicate IsOptionalBridge(sep: string)
  {
    |sep| == 0 || (|sep| == 1 && IsBridge(sep[0]))
  }

  /** `tail` is what may follow "BPM": nothing, or text starting with a bridge. */
  predicate IsAcceptableTail(tail: string)
  {
    |tail| == 0 || IsBridge(tail[0])
  }

  /** The base-ten decimal rendering of `v`, without leading zeros. */
  function DecimalString(v: nat): (d: string)
    ensures |d| > 0 && AllDigits(d, 0, |d|)
    ensures DigitsValue(d, 0, |d|) == v
    ensures |d| > 1 ==> d[0] != '0'
  {
    var last := ['0' + (v % 10) as char];
    if v < 10 then
      last
    else
      var d := DecimalString(v / 10) + last;
      DigitsValueFrame(d, DecimalString(v / 10), 0, |d| - 1, 0);
      d
  }

  /** The value of a digit run depends only on its characters. */
  lemma {:induction false} DigitsValueFrame(s: string, t: string, i: nat, j: nat, i': nat)
    requires i <= j <= |s| && i' + (j - i) <= |t|
    requires AllDigits(s, i, j)
    requires forall k :: i <= k < j ==> s[k] == t[i' + (k - i)]
    ensures AllDigits(t, i', i' + (j - i))
    ensures DigitsValue(s, i, j) == DigitsValue(t, i', i' + (j - i))
    decreases j
  {
    if j > i {
      DigitsValueFrame(s, t, i, j - 1, i');
      assert s[j - 1] == t[i' + (j - 1 - i)];
    }
  }

  /** A zero in front of a digit run does not change its value. */
  lemma {:induction false} LeadingZeroInsignificant(s: string, i: nat, j: nat)
    requires i < j <= |s| && AllDigits(s, i, j) && s[i] == '0'
    ensures DigitsValue(s, i, j) == DigitsValue(s, i + 1, j)
    decreases j
  {
    if j > i + 1 {
      LeadingZeroInsignificant(s, i, j - 1);
    }
  }

  /** Any number of zeros in front of a digit string leave its value unchanged. */
  lemma {:induction false} LeadingZerosInsignificant(n: nat, d: string)
    requires AllDigits(d, 0, |d|)
    ensures AllDigits(Zeros(n) + d, 0, n + |d|)
    ensures DigitsValue(Zeros(n) + d, 0, n + |d|) == DigitsValue(d, 0, |d|)
    decreases n
  {
    var s := Zeros(n) + d;
    if n == 0 {
      assert s == d;
    } else {
      var s' := Zeros(n - 1) + d;
      LeadingZerosInsignificant(n - 1, d);
      if |d| > 0 || n > 1 {
        LeadingZeroInsignificant(s, 0, n + |d|);
      }
      DigitsValueFrame(s, s', 1, n + |d|, 0);
    }
  }

  function Zeros(n: nat): (z: string)
    ensures |z| == n && forall k :: 0 <= k < n ==> z[k] == '0'
  {
    if n == 0 then [] else ['0'] + Zeros(n - 1)
  }

  /** A candidate can only start at a digit that is not glued to a letter or
      digit on its left. */
  lemma NoCandidateOffRunStart(s: string, k: nat)
    requires k <= |s|
    requires k == |s| || !IsDigit(s[k]) || (k > 0 && IsAlnum(s[k - 1]))
    ensures CandidateAt(s, k).None?
  {
  }

  /** In `prefix DIGITS [bridge] BPM tail` the digits form the pattern, provided
      the prefix does not end in a letter or digit. */
  lemma ShapeIsPattern(prefix: string, d: string, sep: string, tail: string)
    requires |prefix| == 0 || !IsAlnum(prefix[|prefix| - 1])
    requires |d| > 0 && AllDigits(d, 0, |d|)
    requires IsOptionalBridge(sep) && IsAcceptableTail(tail)
    ensures IsPattern(prefix + d + sep + "BPM" + tail, |prefix|, |prefix| + |d|)
  {
    var s := prefix + d + sep + "BPM" + tail;
    var a, b := |prefix|, |prefix| + |d|;
    var c := b + |sep|;
    assert AllDigits(s, a, b) by {
      forall k | a <= k < b ensures IsDigit(s[k]) {
        assert s[k] == d[k - a];
      }
    }
    assert IsWordStart(s, a) by {
      if a > 0 {
        assert s[a - 1] == prefix[a - 1];
      }
    }
    assert IsBpmTokenAt(s, c) by {
      assert s[c] == 'B' && s[c + 1] == 'P' && s[c + 2] == 'M';
    }
    assert IsTokenEnd(s, c + 3) by {
      if c + 3 < |s| {
        assert s[c + 3] == tail[0];
      }
    }
    if |sep| == 1 {
      assert s[b] == sep[0];
    }
  }

  /** No candidate starts before position `a` when no digit occurs there. */
  lemma NoCandidateBefore(s: string, a: nat)
    requires a <= |s| && NoDigits(s[..a])
    ensures forall k: nat :: k < a ==> CandidateAt(s, k).None?
  {
    forall k: nat | k < a ensures CandidateAt(s, k).None? {
      assert s[..a][k] == s[k];
      NoCandidateOffRunStart(s, k);
    }
  }

  /** The file-name shape `prefix DIGITS [bridge] BPM tail`: when the prefix holds
      no digit and does not end in a letter or digit, and the digits read a value
      in [30, 300], that value is the tempo. This covers a preceding path, any
      mix of separators, an extension after the token, and no separator at all. */
  lemma AcceptedShape(prefix: string, d: string, sep: string, tail: string)
    requires NoDigits(prefix) && (|prefix| == 0 || !IsAlnum(prefix[|prefix| - 1]))
    requires |d| > 0 && AllDigits(d, 0, |d|)
    requires IsOptionalBridge(sep) && IsAcceptableTail(tail)
    requires MinBpm <= DigitsValue(d, 0, |d|) <= MaxBpm
    ensures GetBpmFromFilename(prefix + d + sep + "BPM" + tail) == Some(DigitsValue(d, 0, |d|))
  {
    var s := prefix + d + sep + "BPM" + tail;
    var a := |prefix|;
    ShapeCandidate(prefix, d, sep, tail);
    assert s[..a] == prefix;
    NoCandidateBefore(s, a);
    assert IsLeftmostCandidate(s, a);
    LeftmostDecides(s, a);
  }

  /** The candidate at the digits of `prefix DIGITS [bridge] BPM tail` is
      their value checked against [30, 300]. */
  lemma ShapeCandidate(prefix: string, d: string, sep: string, tail: string)
    requires |prefix| == 0 || !IsAlnum(prefix[|prefix| - 1])
    requires |d| > 0 && AllDigits(d, 0, |d|)
    requires IsOptionalBridge(sep) && IsAcceptableTail(tail)
    requires MinBpm <= DigitsValue(d, 0, |d|) <= MaxBpm
    ensures CandidateAt(prefix + d + sep + "BPM" + tail, |prefix|) == Some(DigitsValue(d, 0, |d|))
  {
    var s := prefix + d + sep + "BPM" + tail;
    var a, b := |prefix|, |prefix| + |d|;
    ShapeIsPattern(prefix, d, sep, tail);
    ShapeDigits(prefix, d, sep, tail);
    assert CandidateAt(s, a) == InRange(DigitsValue(s, a, b));
  }

  /** The digits of `prefix DIGITS [bridge] BPM tail` read as DIGITS alone. */
  lemma ShapeDigits(prefix: string, d: string, sep: string, tail: string)
    requires AllDigits(d, 0, |d|)
    ensures AllDigits(prefix + d + sep + "BPM" + tail, |prefix|, |prefix| + |d|)
    ensures DigitsValue(prefix + d + sep + "BPM" + tail, |prefix|, |prefix| + |d|) == DigitsValue(d, 0, |d|)
  {
    var s := prefix + d + sep + "BPM" + tail;
    forall k | 0 <= k < |d| ensures d[k] == s[|prefix| + k] {
    }
    DigitsValueFrame(d, s, 0, |d|, |prefix|);
  }

  /** The exact shape `DIGITS BPM` decides on the digits alone: the tempo is
      their value when it lies in [30, 300] and absent otherwise. */
  lemma ExactShape(d: string)
    requires |d| > 0 && AllDigits(d, 0, |d|)
    ensures GetBpmFromFilename(d + " BPM") == InRange(DigitsValue(d, 0, |d|))
  {
    var s := d + " BPM";
    DigitsValueFrame(d, s, 0, |d|, 0);
    assert IsPattern(s, 0, |d|) by {
      assert IsBpmTokenAt(s, |d| + 1);
    }
    forall k: nat | 0 < k <= |s| ensures CandidateAt(s, k).None? {
      if k < |d| {
        NoCandidateOffRunStart(s, k);
      } else if k < |s| {
        assert !IsDigit(s[k]);
      }
    }
  }

  /** Writing any tempo in decimal followed by " BPM" gives back exactly that
      tempo when it lies in [30, 300], and no tempo otherwise. */
  lemma DecimalRoundTrip(v: nat)
    ensures GetBpmFromFilename(DecimalString(v) + " BPM") == InRange(v)
  {
    ExactShape(DecimalString(v));
  }

  /** Zeros written in front of the digits change nothing. */
  lemma LeadingZerosIgnored(n: nat, v: nat)
    ensures GetBpmFromFilename(Zeros(n) + DecimalString(v) + " BPM") == InRange(v)
  {
    var d := Zeros(n) + DecimalString(v);
    LeadingZerosInsignificant(n, DecimalString(v));
    assert DigitsValue(d, 0, |d|) == v;
    ExactShape(d);
  }

  /** A name that never spells "BPM" announces no tempo. */
  lemma NoTokenNoTempo(s: string)
    requires forall k: nat :: !IsBpmTokenAt(s, k)
    ensures GetBpmFromFilename(s).None?
  {
    forall i: nat | i <= |s| ensures CandidateAt(s, i).None? {
    }
  }

  /** When the only digits of a name are `d`, every position other than the
      start of `d` is ruled out. */
  lemma OnlyRunStartCounts(prefix: string, d: string, rest: string)
    requires NoDigits(prefix) && NoDigits(rest)
    requires AllDigits(d, 0, |d|)
    ensures forall k: nat :: k <= |prefix + d + rest| && k != |prefix| ==> CandidateAt(prefix + d + rest, k).None?
  {
    var s := prefix + d + rest;
    var a, b := |prefix|, |prefix| + |d|;
    forall k: nat | k <= |s| && k != a ensures CandidateAt(s, k).None? {
      if k < a {
        assert s[k] == prefix[k];
      } else if k < b {
        assert s[k - 1] == d[k - 1 - a];
      } else if k < |s| {
        assert s[k] == rest[k - b];
      }
      NoCandidateOffRunStart(s, k);
    }
  }

  /** A digit run glued to a word on its left ("anything120 BPM") is no
      candidate. */
  lemma GluedToWordRejected(prefix: string, d: string, rest: string)
    requires |prefix| > 0 && IsLetter(prefix[|prefix| - 1])
    requires NoDigits(prefix) && NoDigits(rest)
    requires AllDigits(d, 0, |d|)
    ensures GetBpmFromFilename(prefix + d + rest).None?
  {
    var s := prefix + d + rest;
    OnlyRunStartCounts(prefix, d, rest);
    assert s[|prefix| - 1] == prefix[|prefix| - 1];
    NoCandidateOffRunStart(s, |prefix|);
  }

  /** When the only digits of a name are `d` and they do not form the pattern,
      the name announces no tempo. */
  lemma OnlyRunRejected(prefix: string, d: string, rest: string)
    requires NoDigits(prefix) && NoDigits(rest)
    requires AllDigits(d, 0, |d|)
    requires !IsPattern(prefix + d + rest, |prefix|, |prefix| + |d|)
    ensures GetBpmFromFilename(prefix + d + rest).None?
  {
    var s := prefix + d + rest;
    var a, b := |prefix|, |prefix| + |d|;
    OnlyRunStartCounts(prefix, d, rest);
    assert AllDigits(s, a, b) by {
      forall k | a <= k < b ensures IsDigit(s[k]) {
        assert s[k] == d[k - a];
      }
    }
    if b < |s| {
      assert s[b] == rest[0];
    }
    DigitRunEndOfRun(s, a, b);
    assert CandidateAt(s, a).None?;
  }

  /** A maximal run of digits s[a..b] is the run `DigitRunEnd` finds. */
  lemma {:induction false} DigitRunEndOfRun(s: string, a: nat, b: nat)
    requires a <= b <= |s| && AllDigits(s, a, b)
    requires b == |s| || !IsDigit(s[b])
    ensures DigitRunEnd(s, a) == b
    decreases b - a
  {
    if a < b {
      DigitRunEndOfRun(s, a + 1, b);
    }
  }

  /** Between the digits and "BPM" there may be one bridge at most: any other
      character there, such as '/', '\\', ':', ';' or '\'', rejects the name. */
  lemma IllegalBridgeRejected(prefix: string, d: string, c: char, tail: string)
    requires NoDigits(prefix) && NoDigits(tail)
    requires AllDigits(d, 0, |d|)
    requires !IsBridge(c) && !IsDigit(c)
    ensures GetBpmFromFilename(prefix + d + [c] + "BPM" + tail).None?
  {
    var rest := [c] + "BPM" + tail;
    var s := prefix + d + [c] + "BPM" + tail;
    assert s == prefix + d + rest;
    var b := |prefix| + |d|;
    assert NoDigits(rest) by {
      forall k | 0 <= k < |rest| ensures !IsDigit(rest[k]) {
        if k >= 4 {
          assert rest[k] == tail[k - 4];
        }
      }
    }
    assert s[b] == c;
    assert !IsBpmTokenAt(s, b) && !IsBridge(s[b]);
    OnlyRunRejected(prefix, d, rest);
  }

  /** "BPM" glued to a following word ("120 BPManything") is no token end. */
  lemma GluedTokenRejected(prefix: string, d: string, sep: string, c: char, tail: string)
    requires NoDigits(prefix) && NoDigits(tail)
    requires AllDigits(d, 0, |d|)
    requires IsOptionalBridge(sep)
    requires !IsBridge(c) && !IsDigit(c)
    ensures GetBpmFromFilename(prefix + d + sep + "BPM" + [c] + tail).None?
  {
    var rest := sep + "BPM" + [c] + tail;
    var s := prefix + d + sep + "BPM" + [c] + tail;
    assert s == prefix + d + rest;
    var b := |prefix| + |d|;
    var t := b + |sep|;
    assert NoDigits(rest) by {
      forall k | 0 <= k < |rest| ensures !IsDigit(rest[k]) {
        if k >= |sep| + 4 {
          assert rest[k] == tail[k - |sep| - 4];
        } else if k >= |sep| {
          assert rest[k] == ("BPM" + [c])[k - |sep|];
        }
      }
    }
    assert s[t] == 'B' && s[t + 3] == c;
    assert !IsTokenEnd(s, t + 3);
    if |sep| == 0 {
      assert !IsBridge(s[b]);
    } else {
      assert s[b] == sep[0];
      assert !IsBpmTokenAt(s, b);
    }
    OnlyRunRejected(prefix, d, rest);
  }

  /** A name without any digit announces no tempo. */
  lemma NoDigitsNoTempo(s: string)
    requires NoDigits(s)
    ensures GetBpmFromFilename(s).None?
  {
    forall k: nat | k <= |s| ensures CandidateAt(s, k).None? {
      NoCandidateOffRunStart(s, k);
    }
  }

  /** A digit run has the same value when read after a prefix. */
  lemma {:induction false} DigitsValueShift(p: string, t: string, k: nat, j: nat)
    requires k <= j <= |t| && AllDigits(t, k, j)
    ensures AllDigits(p + t, |p| + k, |p| + j)
    ensures DigitsValue(p + t, |p| + k, |p| + j) == DigitsValue(t, k, j)
    decreases j
  {
    assert forall m :: k <= m < j ==> (p + t)[|p| + m] == t[m];
    if k < j {
      DigitsValueShift(p, t, k, j - 1);
    }
  }

  /** The token and what follows it read the same after a prefix. */
  lemma TokenShift(p: string, t: string, m: nat)
    ensures IsBpmTokenAt(p + t, |p| + m) == IsBpmTokenAt(t, m)
    ensures IsTokenEnd(p + t, |p| + m) == IsTokenEnd(t, m)
  {
    if m + 3 <= |t| {
      assert (p + t)[|p| + m] == t[m];
      assert (p + t)[|p| + m + 1] == t[m + 1];
      assert (p + t)[|p| + m + 2] == t[m + 2];
    }
    if m < |t| {
      assert (p + t)[|p| + m] == t[m];
    }
  }

  /** Reading `t` after a prefix does not change where its patterns are, unless
      the pattern starts `t` and the prefix glues a letter or digit to it. */
  lemma PatternShift(p: string, t: string, k: nat, j: nat)
    requires k > 0 || |p| == 0 || !IsAlnum(p[|p| - 1])
    ensures IsPattern(p + t, |p| + k, |p| + j) <==> IsPattern(t, k, j)
  {
    var s := p + t;
    var i := |p| + k;
    if k < j <= |t| {
      assert AllDigits(s, i, |p| + j) <==> AllDigits(t, k, j) by {
        assert forall m :: k <= m < j ==> s[|p| + m] == t[m];
        if AllDigits(s, i, |p| + j) {
          forall m | k <= m < j ensures IsDigit(t[m]) {
            assert s[|p| + m] == t[m];
          }
        }
      }
      assert IsWordStart(s, i) == IsWordStart(t, k) by {
        if k > 0 {
          assert s[i - 1] == t[k - 1];
        } else if |p| > 0 {
          assert s[i - 1] == p[|p| - 1];
        }
      }
      TokenShift(p, t, j);
      TokenShift(p, t, j + 1);
      TokenShift(p, t, j + 3);
      TokenShift(p, t, j + 4);
      if j < |t| {
        assert s[|p| + j] == t[j];
      }
    }
  }

  /** Reading `t` after a prefix does not change the candidate at position `k`
      of `t`, unless that candidate starts `t` and the prefix glues a letter or
      digit to it. */
  lemma CandidateShift(p: string, t: string, k: nat)
    requires k <= |t|
    requires k > 0 || |p| == 0 || !IsAlnum(p[|p| - 1])
    ensures CandidateAt(p + t, |p| + k) == CandidateAt(t, k)
  {
    if CandidateAt(t, k).Some? {
      CandidateShiftFound(p, t, k);
    } else if CandidateAt(p + t, |p| + k).Some? {
      CandidateShiftLost(p, t, k);
    }
  }

  lemma CandidateShiftFound(p: string, t: string, k: nat)
    requires k <= |t| && CandidateAt(t, k).Some?
    requires k > 0 || |p| == 0 || !IsAlnum(p[|p| - 1])
    ensures CandidateAt(p + t, |p| + k) == CandidateAt(t, k)
  {
    var s := p + t;
    var i := |p| + k;
    var j: nat :| IsPattern(t, k, j);
    PatternShift(p, t, k, j);
    assert IsPattern(s, i, |p| + j);
    DigitsValueShift(p, t, k, j);
    assert CandidateAt(s, i) == InRange(DigitsValue(s, i, |p| + j));
    assert CandidateAt(t, k) == InRange(DigitsValue(t, k, j));
  }

  lemma CandidateShiftLost(p: string, t: string, k: nat)
    requires k <= |t| && CandidateAt(p + t, |p| + k).Some?
    requires k > 0 || |p| == 0 || !IsAlnum(p[|p| - 1])
    ensures CandidateAt(p + t, |p| + k) == CandidateAt(t, k)
  {
    var s := p + t;
    var i := |p| + k;
    var j': nat :| IsPattern(s, i, j');
    assert j' >= |p|;
    var j: nat := j' - |p|;
    PatternShift(p, t, k, j);
    assert IsPattern(t, k, j);
    DigitsValueShift(p, t, k, j);
    assert CandidateAt(s, i) == InRange(DigitsValue(s, i, j'));
    assert CandidateAt(t, k) == InRange(DigitsValue(t, k, j));
  }

  /** Positions inside a digit-free prefix hold no candidate, and positions after
      it hold those of the text that follows. */
  lemma CandidatesAfterPrefix(p: string, t: string)
    requires NoDigits(p) && (|p| == 0 || !IsAlnum(p[|p| - 1]))
    ensures forall k: nat :: k < |p| ==> CandidateAt(p + t, k).None?
    ensures forall k: nat :: k <= |t| ==> CandidateAt(p + t, |p| + k) == CandidateAt(t, k)
  {
    var s := p + t;
    assert s[..|p|] == p;
    NoCandidateBefore(s, |p|);
    forall k: nat | k <= |t| ensures CandidateAt(s, |p| + k) == CandidateAt(t, k) {
      CandidateShift(p, t, k);
    }
  }

  /** The leftmost candidate moves along with the text behind a digit-free prefix. */
  lemma LeftmostAfterPrefix(p: string, t: string, i: nat)
    requires NoDigits(p) && (|p| == 0 || !IsAlnum(p[|p| - 1]))
    requires IsLeftmostCandidate(t, i)
    ensures IsLeftmostCandidate(p + t, |p| + i)
  {
    CandidatesAfterPrefix(p, t);
    forall k: nat | k < |p| + i ensures CandidateAt(p + t, k).None? {
      if k >= |p| {
        assert CandidateAt(p + t, |p| + (k - |p|)) == CandidateAt(t, k - |p|);
      }
    }
  }

  /** A prefix without digits that does not end in a letter or digit, such as a
      directory path, does not change the tempo of what follows it. */
  lemma PrefixWithoutDigitsIgnored(p: string, t: string)
    requires NoDigits(p) && (|p| == 0 || !IsAlnum(p[|p| - 1]))
    ensures GetBpmFromFilename(p + t) == GetBpmFromFilename(t)
  {
    if GetBpmFromFilename(t).Some? {
      var i: nat :| IsLeftmostCandidate(t, i);
      LeftmostDecides(t, i);
      PrefixKeepsLeftmost(p, t, i);
    } else {
      PrefixKeepsAbsence(p, t);
    }
  }

  lemma PrefixKeepsLeftmost(p: string, t: string, i: nat)
    requires NoDigits(p) && (|p| == 0 || !IsAlnum(p[|p| - 1]))
    requires IsLeftmostCandidate(t, i)
    ensures GetBpmFromFilename(p + t) == CandidateAt(t, i)
  {
    LeftmostAfterPrefix(p, t, i);
    CandidatesAfterPrefix(p, t);
    LeftmostDecides(p + t, |p| + i);
  }

  lemma PrefixKeepsAbsence(p: string, t: string)
    requires NoDigits(p) && (|p| == 0 || !IsAlnum(p[|p| - 1]))
    requires forall k: nat :: k <= |t| ==> CandidateAt(t, k).None?
    ensures GetBpmFromFilename(p + t).None?
  {
    CandidatesAfterPrefix(p, t);
    forall k: nat | k <= |p + t| ensures CandidateAt(p + t, k).None? {
      if k >= |p| {
        assert CandidateAt(p + t, |p| + (k - |p|)) == CandidateAt(t, k - |p|);
      }
    }
  }
}
