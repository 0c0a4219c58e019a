/** The colour extractor: `text.match(/#?[0-9A-Fa-f]{6}/g)` on the trimmed completion text. */
module HexCodes {
  import opened Options
  import opened JsStrings

  /** The character class `[0-9A-Fa-f]`. */
  predicate IsHexDigit(c: char) {
    '0' <= c <= '9' || 'A' <= c <= 'F' || 'a' <= c <= 'f'
  }

  predicate AllHex(s: string) {
    forall k :: 0 <= k < |s| ==> IsHexDigit(s[k])
  }

  /** Six hex digits start at position p of s. */
  predicate HexRunAt(s: string, p: nat) {
    p + 6 <= |s| && AllHex(s[p..p + 6])
  }

  /** What one match of the pattern can be: six hex digits, optionally after a '#'. */
  predicate IsHexCode(t: string) {
    (|t| == 6 && AllHex(t)) || (|t| == 7 && t[0] == '#' && AllHex(t[1..]))
  }

  /** One match: where it starts and how many characters it spans. */
  datatype Hit = Hit(start: nat, len: nat) {
    function End(): nat { start + len }
  }

  /** The length of the match the pattern makes when tried at position i (0 when it fails
      there). The optional '#' is tried first; when it is taken the six digits must follow it,
      and backtracking to leave it out cannot succeed, because '#' is not a hex digit. */
  function MatchLengthAt(s: string, i: nat): nat {
    if i + 7 <= |s| && s[i] == '#' && AllHex(s[i + 1..i + 7]) then 7
    else if HexRunAt(s, i) then 6
    else 0
  }

  /** What the pattern matches at i is a hex code taken from s at i, and the longest one
      there: the optional '#' is taken whenever a hex code of seven characters starts at i. */
  lemma MatchLengthSpec(s: string, i: nat)
    ensures MatchLengthAt(s, i) in {0, 6, 7}
    ensures MatchLengthAt(s, i) > 0 ==>
      i + MatchLengthAt(s, i) <= |s| && IsHexCode(s[i..i + MatchLengthAt(s, i)])
    ensures i + 6 <= |s| && IsHexCode(s[i..i + 6]) ==> MatchLengthAt(s, i) >= 6
    ensures i + 7 <= |s| && IsHexCode(s[i..i + 7]) ==> MatchLengthAt(s, i) == 7
  {
  }

  /** The matches a global scan finds from position i on: a match is taken where the
      pattern succeeds and the scan resumes after it; otherwise the scan moves on by one. */
  function ScanFrom(s: string, i: nat): seq<Hit>
    decreases |s| - i
  {
    if i + 6 > |s| then []
    else
      var n := MatchLengthAt(s, i);
      if n == 0 then ScanFrom(s, i + 1) else [Hit(i, n)] + ScanFrom(s, i + n)
  }

  /** Each hit lies in s at or after position i, is a match of the pattern there, and
      ends at or before the start of every later hit. */
  predicate SoundHits(s: string, i: nat, hits: seq<Hit>) {
    (forall k :: 0 <= k < |hits| ==> i <= hits[k].start && hits[k].start + hits[k].len <= |s|)
    && (forall k :: 0 <= k < |hits| ==> hits[k].len > 0 && MatchLengthAt(s, hits[k].start) == hits[k].len)
    && (forall k, l :: 0 <= k < l < |hits| ==> hits[k].End() <= hits[l].start)
  }

  /** The scan only reports real matches, left to right, without overlap. */
  lemma {:induction false} ScanSound(s: string, i: nat)
    ensures SoundHits(s, i, ScanFrom(s, i))
    decreases |s| - i
  {
    if i + 6 <= |s| {
      var n := MatchLengthAt(s, i);
      if n == 0 {
        ScanSound(s, i + 1);
      } else {
        var rest := ScanFrom(s, i + n);
        ScanSound(s, i + n);
        var hits := [Hit(i, n)] + rest;
        assert ScanFrom(s, i) == hits;
        forall k | 0 <= k < |hits|
          ensures i <= hits[k].start && hits[k].start + hits[k].len <= |s|
          ensures hits[k].len > 0 && MatchLengthAt(s, hits[k].start) == hits[k].len
        {
          if k > 0 { assert hits[k] == rest[k - 1]; }
        }
        forall k, l | 0 <= k < l < |hits| ensures hits[k].End() <= hits[l].start {
          assert hits[l] == rest[l - 1];
          if k > 0 { assert hits[k] == rest[k - 1]; }
        }
      }
    }
  }

  /** The matched texts, each copied verbatim from s. */
  function Texts(s: string, hits: seq<Hit>): seq<string>
    requires forall k :: 0 <= k < |hits| ==> hits[k].start + hits[k].len <= |s|
  {
    seq(|hits|, k requires 0 <= k < |hits| => s[hits[k].start..hits[k].start + hits[k].len])
  }

  /** `s.match(/#?[0-9A-Fa-f]{6}/g)`: the list of matches, or None (JavaScript's null)
      when there is none. */
  function MatchAll(s: string): Option<seq<string>>
  {
    var hits := ScanFrom(s, 0);
    ScanSound(s, 0);
    if hits == [] then None else Some(Texts(s, hits))
  }

  /** m[k] is copied from s at pos[k], and each copy ends before the next one starts. */
  predicate OccursInOrder(s: string, m: seq<string>, pos: seq<nat>) {
    |pos| == |m|
    && (forall k :: 0 <= k < |m| ==> pos[k] + |m[k]| <= |s| && s[pos[k]..pos[k] + |m[k]|] == m[k])
    && (forall k, l :: 0 <= k < l < |m| ==> pos[k] + |m[k]| <= pos[l])
  }

  /** Every match is six hex digits, or '#' and six hex digits. */
  lemma MatchesAreHexCodes(s: string)
    ensures MatchAll(s).Some? ==> |MatchAll(s).value| > 0
    ensures MatchAll(s).Some? ==> forall k :: 0 <= k < |MatchAll(s).value| ==> IsHexCode(MatchAll(s).value[k])
  {
    var hits := ScanFrom(s, 0);
    ScanSound(s, 0);
    if hits != [] {
      var m := Texts(s, hits);
      forall k | 0 <= k < |m| ensures IsHexCode(m[k]) {
        var h := hits[k];
        if h.len == 7 {
          assert m[k][0] == s[h.start];
          assert m[k][1..] == s[h.start + 1..h.start + 7];
        } else {
          assert m[k] == s[h.start..h.start + 6];
        }
      }
    }
  }

  /** The matches are verbatim substrings of s (case and '#' kept), found at strictly
      increasing positions and never overlapping. */
  lemma MatchesOccurInOrder(s: string)
    ensures MatchAll(s).Some? ==> exists pos :: OccursInOrder(s, MatchAll(s).value, pos)
  {
    var hits := ScanFrom(s, 0);
    ScanSound(s, 0);
    if hits != [] {
      var m := Texts(s, hits);
      var pos := seq(|hits|, k requires 0 <= k < |hits| => hits[k].start);
      assert forall k :: 0 <= k < |m| ==> |m[k]| == hits[k].len;
      assert OccursInOrder(s, m, pos);
    }
  }

  /** Some hit spans position p. */
  predicate Covers(hits: seq<Hit>, p: nat) {
    exists k :: 0 <= k < |hits| && hits[k].start <= p < hits[k].End()
  }

  /** From any position at or before a run of six hex digits, the scan takes a match that
      covers the run's first digit. */
  lemma {:induction false} ScanCoversRun(s: string, i: nat, p: nat)
    requires i <= p && HexRunAt(s, p)
    ensures Covers(ScanFrom(s, i), p)
    decreases p - i
  {
    var hits := ScanFrom(s, i);
    var n := MatchLengthAt(s, i);
    if n == 0 {
      assert i < p;
      assert hits == ScanFrom(s, i + 1);
      ScanCoversRun(s, i + 1, p);
    } else if p < i + n {
      assert hits[0] == Hit(i, n);
    } else {
      var rest := ScanFrom(s, i + n);
      assert hits == [Hit(i, n)] + rest;
      ScanCoversRun(s, i + n, p);
      var k :| 0 <= k < |rest| && rest[k].start <= p < rest[k].End();
      assert hits[k + 1] == rest[k];
    }
  }

  /** Nothing matches exactly when s holds no run of six hex digits: `match` then gives
      null, and otherwise a non-empty list. */
  lemma NoMatchIffNoHexRun(s: string)
    ensures MatchAll(s).None? <==> forall p: nat :: !HexRunAt(s, p)
  {
    var hits := ScanFrom(s, 0);
    ScanSound(s, 0);
    if hits == [] {
      forall p: nat ensures !HexRunAt(s, p) {
        if HexRunAt(s, p) { ScanCoversRun(s, 0, p); }
      }
    } else {
      var h := hits[0];
      if h.len == 7 { assert HexRunAt(s, h.start + 1); } else { assert HexRunAt(s, h.start); }
    }
  }

  /** From any position at or before it, a '#' followed by six hex digits is taken as one
      seven-character match: no earlier match can swallow the '#'. */
  lemma {:induction false} ScanTakesHash(s: string, i: nat, p: nat)
    requires i <= p && p + 7 <= |s| && s[p] == '#' && HexRunAt(s, p + 1)
    ensures Hit(p, 7) in ScanFrom(s, i)
    decreases p - i
  {
    var n := MatchLengthAt(s, i);
    if i == p {
      assert ScanFrom(s, i)[0] == Hit(p, 7);
    } else if n == 0 {
      ScanTakesHash(s, i + 1, p);
    } else {
      ScanTakesHash(s, i + n, p);
      assert ScanFrom(s, i) == [Hit(i, n)] + ScanFrom(s, i + n);
    }
  }

  /** The optional '#' is greedy: a '#' followed by six hex digits is matched together
      with them, as one seven-character match. */
  lemma HashIsCaptured(s: string, p: nat)
    requires p + 7 <= |s| && s[p] == '#' && HexRunAt(s, p + 1)
    ensures Hit(p, 7) in ScanFrom(s, 0)
    ensures MatchAll(s).Some? && s[p..p + 7] in MatchAll(s).value
  {
    ScanTakesHash(s, 0, p);
    var hits := ScanFrom(s, 0);
    ScanSound(s, 0);
    var k :| 0 <= k < |hits| && hits[k] == Hit(p, 7);
    assert Texts(s, hits)[k] == s[p..p + 7];
  }

  /** The hits moved d characters to the right. */
  function Shifted(hits: seq<Hit>, d: nat): seq<Hit> {
    seq(|hits|, k requires 0 <= k < |hits| => Hit(hits[k].start + d, hits[k].len))
  }

  lemma ShiftedCons(h: Hit, hits: seq<Hit>, d: nat)
    ensures Shifted([h] + hits, d) == [Hit(h.start + d, h.len)] + Shifted(hits, d)
  {
  }

  /** Trimmable characters, none of which is a hex digit or '#', are passed over one by one. */
  lemma {:induction false} ScanSkipsBlanks(s: string, i: nat, a: nat)
    requires i <= a <= |s|
    requires forall k :: i <= k < a ==> IsTrimmable(s[k])
    ensures ScanFrom(s, i) == ScanFrom(s, a)
    decreases a - i
  {
    if i < a && i + 6 <= |s| {
      assert s[i..i + 6][0] == s[i];
      assert MatchLengthAt(s, i) == 0;
      ScanSkipsBlanks(s, i + 1, a);
    }
  }

  lemma MatchLengthShift(s: string, a: nat, j: nat)
    requires a <= |s|
    ensures MatchLengthAt(s, a + j) == MatchLengthAt(s[a..], j)
  {
    var t := s[a..];
    if j + 6 <= |t| {
      assert t[j..j + 6] == s[a + j..a + j + 6];
      assert t[j] == s[a + j];
      if j + 7 <= |t| { assert t[j + 1..j + 7] == s[a + j + 1..a + j + 7]; }
    }
  }

  /** Scanning a suffix of s finds the same matches as scanning s from where the suffix
      begins, moved by the suffix's offset. */
  lemma {:induction false} ScanShift(s: string, a: nat, j: nat)
    requires a <= |s|
    ensures ScanFrom(s, a + j) == Shifted(ScanFrom(s[a..], j), a)
    decreases |s| - a - j
  {
    var t := s[a..];
    if j + 6 <= |t| {
      var n := MatchLengthAt(t, j);
      MatchLengthShift(s, a, j);
      if n == 0 {
        ScanShift(s, a, j + 1);
      } else {
        ScanShift(s, a, j + n);
        ShiftedCons(Hit(j, n), ScanFrom(t, j + n), a);
      }
    } else {
      assert ScanFrom(t, j) == [];
      assert ScanFrom(s, a + j) == [];
    }
  }

  /** Characters after b that are not hex digits cannot take part in a match. */
  lemma {:induction false} ScanIgnoresTail(s: string, b: nat, i: nat)
    requires b <= |s|
    requires forall k :: b <= k < |s| ==> !IsHexDigit(s[k])
    ensures ScanFrom(s, i) == ScanFrom(s[..b], i)
    decreases |s| - i
  {
    var u := s[..b];
    if i + 6 <= |s| {
      if i + 6 > b {
        assert s[i..i + 6][5] == s[i + 5];
        if i + 7 <= |s| { assert s[i + 1..i + 7][4] == s[i + 5]; }
        assert MatchLengthAt(s, i) == 0;
        ScanIgnoresTail(s, b, i + 1);
      } else {
        assert u[i..i + 6] == s[i..i + 6];
        assert u[i] == s[i];
        if i + 7 <= b {
          assert u[i + 1..i + 7] == s[i + 1..i + 7];
        } else if i + 7 <= |s| {
          assert s[i + 1..i + 7][5] == s[b];
        }
        var n := MatchLengthAt(s, i);
        assert MatchLengthAt(u, i) == n;
        ScanIgnoresTail(s, b, if n == 0 then i + 1 else i + n);
      }
    }
  }

  /** A slice of a slice is a slice of the whole. */
  lemma SliceOfSlice(s: string, a: nat, b: nat, x: nat, y: nat)
    requires a <= b <= |s| && x <= y <= b - a
    ensures s[a..b][x..y] == s[a + x..a + y]
  {
    var t := s[a..b];
    forall i | 0 <= i < y - x ensures t[x..y][i] == s[a + x..a + y][i] {
      assert t[x + i] == s[a + x + i];
    }
  }

  /** Texts copied from r are the same texts copied from s, when r sits in s at offset a. */
  lemma TextsShifted(s: string, a: nat, r: string, hits: seq<Hit>)
    requires a + |r| <= |s| && s[a..a + |r|] == r
    requires forall k :: 0 <= k < |hits| ==> hits[k].start + hits[k].len <= |r|
    ensures Texts(s, Shifted(hits, a)) == Texts(r, hits)
  {
    forall k | 0 <= k < |hits|
      ensures Texts(s, Shifted(hits, a))[k] == Texts(r, hits)[k]
    {
      var x, y := hits[k].start, hits[k].start + hits[k].len;
      SliceOfSlice(s, a, a + |r|, x, y);
    }
  }

  /** The scan of s finds the matches of the scan of Trim(s), moved by the length of the
      leading whitespace. */
  lemma TrimmedScan(s: string)
    ensures ScanFrom(s, 0) == Shifted(ScanFrom(Trim(s), 0), LeadingLength(s))
  {
    var a := LeadingLength(s);
    var rest := s[a..];
    var b := |rest| - TrailingLength(rest);
    assert Trim(s) == rest[..b];
    ScanSkipsBlanks(s, 0, a);
    ScanShift(s, a, 0);
    ScanIgnoresTail(rest, b, 0);
  }

  /** Trimming the completion text never changes what the pattern finds in it. */
  lemma TrimKeepsMatches(s: string)
    ensures MatchAll(Trim(s)) == MatchAll(s)
  {
    var a := LeadingLength(s);
    var r := Trim(s);
    TrimmedScan(s);
    var hits := ScanFrom(r, 0);
    ScanSound(r, 0);
    assert s[a..a + |r|] == r;
    TextsShifted(s, a, r, hits);
  }

  /** Six characters that are each a hex digit form a run. */
  lemma HexRunOf(s: string, p: nat)
    requires p + 6 <= |s|
    requires IsHexDigit(s[p]) && IsHexDigit(s[p + 1]) && IsHexDigit(s[p + 2])
    requires IsHexDigit(s[p + 3]) && IsHexDigit(s[p + 4]) && IsHexDigit(s[p + 5])
    ensures HexRunAt(s, p)
  {
    var t := s[p..p + 6];
    forall k | 0 <= k < 6 ensures IsHexDigit(t[k]) {
      assert k == 0 || k == 1 || k == 2 || k == 3 || k == 4 || k == 5;
    }
  }

  /** A character that is not a hex digit stops every run that would contain it. */
  lemma NoHexRunOver(s: string, p: nat, q: nat)
    requires p <= q < p + 6 && q < |s| && !IsHexDigit(s[q])
    ensures !HexRunAt(s, p)
  {
    if p + 6 <= |s| { assert s[p..p + 6][q - p] == s[q]; }
  }

  /** A text without a single hex digit gives null. */
  lemma NoHexDigitNoMatch(s: string)
    requires forall k :: 0 <= k < |s| ==> !IsHexDigit(s[k])
    ensures MatchAll(s) == None
  {
    forall p: nat ensures !HexRunAt(s, p) {
      if p < |s| { NoHexRunOver(s, p, p); }
    }
    NoMatchIffNoHexRun(s);
  }

  /** A refusal without hex digits gives null. */
  lemma RefusalExample()
    ensures MatchAll("I won't, sorry") == None
  {
    NoHexDigitNoMatch("I won't, sorry");
  }

  /** A run of more than six hex digits gives a six-digit match, and the scan resumes
      right after it. */
  lemma LongRunExample()
    ensures MatchAll("aBcDeF123456") == Some(["aBcDeF", "123456"])
    ensures MatchAll("1234567") == Some(["123456"])
  {
    var s := "aBcDeF123456";
    HexRunOf(s, 0);
    HexRunOf(s, 6);
    assert ScanFrom(s, 0) == [Hit(0, 6), Hit(6, 6)];
    assert s[0..6] == "aBcDeF" && s[6..12] == "123456";
    assert Texts(s, [Hit(0, 6), Hit(6, 6)]) == ["aBcDeF", "123456"];
    var t := "1234567";
    HexRunOf(t, 0);
    assert ScanFrom(t, 0) == [Hit(0, 6)];
    assert t[0..6] == "123456";
    assert Texts(t, [Hit(0, 6)]) == ["123456"];
  }
}
