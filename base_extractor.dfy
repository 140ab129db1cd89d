/** The static helpers of `BaseExtractor` (`extractors/base.py`): URL validity, share-id
    extraction and normalisation, size and duration formatting, the video-extension test. */
module Base {

  import opened Wrappers
  import opened Text
  import Config

  // ----- URL validity -----

  /** `s.replace("www.", "")`: every occurrence, scanning left to right without overlap. */
  function RemoveWww(s: string): (r: string)
    ensures |r| <= |s| && (|s| - |r|) % 4 == 0
  {
    if |s| >= 4 && s[..4] == "www." then RemoveWww(s[4..])
    else if s == [] then []
    else [s[0]] + RemoveWww(s[1..])
  }

  /** Text without "www." is left as it is. */
  lemma {:induction false} RemoveWwwWithout(s: string)
    requires !Contains(s, "www.")
    ensures RemoveWww(s) == s
    decreases |s|
  {
    if s != [] {
      if |s| >= 4 && s[..4] == "www." {
        assert OccursAt(s, "www.", 0);
      }
      if Contains(s[1..], "www.") {
        var i :| 0 <= i <= |s[1..]| - 4 && OccursAt(s[1..], "www.", i);
        assert s[i + 1..i + 5] == s[1..][i..i + 4];
        assert OccursAt(s, "www.", i + 1);
      }
      RemoveWwwWithout(s[1..]);
      assert [s[0]] + s[1..] == s;
    }
  }

  /** A leading "www." is dropped and the rest is treated the same way. */
  lemma RemoveWwwDropsPrefix(t: string)
    ensures RemoveWww("www." + t) == RemoveWww(t)
  {
    var s := "www." + t;
    assert s[..4] == "www." && s[4..] == t;
  }

  /** The host `is_valid_url` compares: lower-cased, every "www." removed. */
  function HostKey(netloc: string): string {
    RemoveWww(Lower(netloc))
  }

  /** `is_valid_url`, given the netloc `urlparse` finds, or None when `urlparse` raises. */
  predicate IsValidUrl(netloc: Option<string>) {
    netloc.Some? && exists k :: 0 <= k < |Config.TeraboxDomains| && EndsWith(HostKey(netloc.value), Config.TeraboxDomains[k])
  }

  lemma {:induction false} LowerIdempotent(s: string)
    ensures Lower(Lower(s)) == Lower(s)
  {
    assert forall i :: 0 <= i < |s| ==> LowerChar(LowerChar(s[i])) == LowerChar(s[i]);
  }

  lemma {:induction false} LowerNoUpper(s: string)
    requires forall i :: 0 <= i < |s| ==> !('A' <= s[i] <= 'Z')
    ensures Lower(s) == s
  {
  }

  lemma {:induction false} LowerConcat(a: string, b: string)
    ensures Lower(a + b) == Lower(a) + Lower(b)
  {
  }

  lemma {:induction false} RemoveWwwNoW(s: string)
    requires !HasChar(s, 'w')
    ensures RemoveWww(s) == s
    decreases |s|
  {
    if s != [] {
      assert s[0] != 'w';
      assert !HasChar(s[1..], 'w') by {
        forall i | 0 <= i < |s[1..]| ensures s[1..][i] != 'w' { assert s[1..][i] == s[i + 1]; }
      }
      RemoveWwwNoW(s[1..]);
      assert [s[0]] + s[1..] == s;
    }
  }

  /** The test ignores letter case and a leading "www.". */
  lemma ValidUrlIgnoresCaseAndWww(netloc: string)
    ensures IsValidUrl(Some(Lower(netloc))) == IsValidUrl(Some(netloc))
    ensures IsValidUrl(Some("www." + netloc)) == IsValidUrl(Some(netloc))
  {
    LowerIdempotent(netloc);
    LowerConcat("www.", netloc);
    LowerNoUpper("www.");
    var t := Lower("www." + netloc);
    assert t == "www." + Lower(netloc);
    assert t[..4] == "www." && t[4..] == Lower(netloc);
  }

  /** The test is a plain suffix test: a host that merely ends in a listed name, with no dot
      before it, is accepted. */
  lemma ValidUrlHasNoDotBoundary(prefix: string)
    requires !HasChar(prefix, 'w')
    requires forall i :: 0 <= i < |prefix| ==> !('A' <= prefix[i] <= 'Z')
    ensures IsValidUrl(Some(prefix + "terabox.com"))
  {
    var h := prefix + "terabox.com";
    assert !HasChar(h, 'w') by {
      forall i | 0 <= i < |h| ensures h[i] != 'w' {
        if i < |prefix| { assert h[i] == prefix[i]; } else { assert h[i] == "terabox.com"[i - |prefix|]; }
      }
    }
    LowerNoUpper(h);
    RemoveWwwNoW(h);
    assert h[|h| - 11..] == "terabox.com";
    assert EndsWith(HostKey(h), Config.TeraboxDomains[0]);
  }

  /** A failing `urlparse` makes the URL invalid. */
  lemma ValidUrlNeedsNetloc()
    ensures !IsValidUrl(None)
  {
  }

  // ----- Share ids -----

  /** `[a-zA-Z0-9_-]` */
  predicate IdChar(c: char) {
    ('a' <= c <= 'z') || ('A' <= c <= 'Z') || ('0' <= c <= '9') || c == '_' || c == '-'
  }

  predicate AllId(s: string) {
    forall k :: 0 <= k < |s| ==> IdChar(s[k])
  }

  /** End of the longest run of id characters starting at j (greedy `+`). */
  function RunEnd(s: string, j: nat): (e: nat)
    requires j <= |s|
    ensures j <= e <= |s|
    ensures forall k :: j <= k < e ==> IdChar(s[k])
    ensures e == |s| || !IdChar(s[e])
    decreases |s| - j
  {
    if j < |s| && IdChar(s[j]) then RunEnd(s, j + 1) else j
  }

  /** The group `1?([a-zA-Z0-9_-]+)` matched at j: a '1' is skipped when an id character
      follows it, since `1?` is greedy and gives the '1' back only when the group would be empty. */
  function CaptureAt(s: string, j: nat): (r: Option<string>)
    requires j <= |s|
    ensures r.Some? <==> j < |s| && IdChar(s[j])
    ensures r.Some? ==> |r.value| >= 1 && AllId(r.value)
    ensures r.Some? ==>
      (r.value == s[j..RunEnd(s, j)] && !(s[j] == '1' && j + 1 < |s| && IdChar(s[j + 1])))
      || (s[j] == '1' && j + 1 < |s| && IdChar(s[j + 1]) && r.value == s[j + 1..RunEnd(s, j + 1)])
  {
    if j + 1 < |s| && s[j] == '1' && IdChar(s[j + 1]) then Some(s[j + 1..RunEnd(s, j + 1)])
    else if j < |s| && IdChar(s[j]) then Some(s[j..RunEnd(s, j)])
    else None
  }

  /** The pattern `lit` + group matches at i. */
  predicate MatchesAt(s: string, lit: string, i: nat) {
    OccursAt(s, lit, i) && i + |lit| < |s| && IdChar(s[i + |lit|])
  }

  /** `re.search(lit + r'1?([a-zA-Z0-9_-]+)', s).group(1)` from position i on: the capture at the
      leftmost match. */
  function SearchFrom(s: string, lit: string, i: nat): (r: Option<string>)
    requires i <= |s|
    ensures r.Some? ==> |r.value| >= 1 && AllId(r.value)
    decreases |s| - i
  {
    if MatchesAt(s, lit, i) then CaptureAt(s, i + |lit|)
    else if i == |s| then None
    else SearchFrom(s, lit, i + 1)
  }

  /** The search finds nothing exactly when the pattern matches nowhere from i on. */
  lemma {:induction false} SearchFromNone(s: string, lit: string, i: nat)
    requires i <= |s|
    ensures SearchFrom(s, lit, i).None? <==> forall p :: i <= p <= |s| ==> !MatchesAt(s, lit, p)
    decreases |s| - i
  {
    if !MatchesAt(s, lit, i) && i < |s| {
      SearchFromNone(s, lit, i + 1);
    }
  }

  /** A found id is the capture at the leftmost match. */
  lemma {:induction false} SearchFromLeftmost(s: string, lit: string, i: nat)
    requires i <= |s| && SearchFrom(s, lit, i).Some?
    ensures exists p :: i <= p <= |s| && MatchesAt(s, lit, p) && SearchFrom(s, lit, i) == CaptureAt(s, p + |lit|)
                        && forall q :: i <= q < p ==> !MatchesAt(s, lit, q)
    decreases |s| - i
  {
    if !MatchesAt(s, lit, i) {
      SearchFromLeftmost(s, lit, i + 1);
      var p :| i + 1 <= p <= |s| && MatchesAt(s, lit, p) && SearchFrom(s, lit, i + 1) == CaptureAt(s, p + |lit|)
               && forall q :: i + 1 <= q < p ==> !MatchesAt(s, lit, q);
      assert forall q :: i <= q < p ==> !MatchesAt(s, lit, q);
    }
  }

  function Search(s: string, lit: string): (r: Option<string>)
    ensures r.Some? ==> |r.value| >= 1 && AllId(r.value)
  {
    SearchFrom(s, lit, 0)
  }

  /** The three share-link patterns, in the order they are tried. */
  const SharePatterns: seq<string> := ["/s/", "surl=", "/sharing/link?surl="]

  /** `extract_share_id`: the first pattern that matches anywhere gives the id. */
  function ExtractShareId(url: string): (r: Option<string>)
    ensures r.Some? ==> |r.value| >= 1 && AllId(r.value)
  {
    match Search(url, "/s/")
    case Some(id) => Some(id)
    case None =>
      match Search(url, "surl=")
      case Some(id) => Some(id)
      case None => Search(url, "/sharing/link?surl=")
  }

  /** No id exactly when none of the three patterns matches anywhere; otherwise the id is the
      capture of the first pattern that matches, at its leftmost match. */
  lemma ExtractShareIdCases(url: string)
    ensures ExtractShareId(url).None? <==>
      forall k, p :: 0 <= k < |SharePatterns| && 0 <= p <= |url| ==> !MatchesAt(url, SharePatterns[k], p)
    ensures ExtractShareId(url).Some? ==>
      exists k :: 0 <= k < |SharePatterns| && ExtractShareId(url) == Search(url, SharePatterns[k])
        && forall j :: 0 <= j < k ==> Search(url, SharePatterns[j]).None?
  {
    SearchFromNone(url, "/s/", 0);
    SearchFromNone(url, "surl=", 0);
    SearchFromNone(url, "/sharing/link?surl=", 0);
    if ExtractShareId(url).Some? {
      if Search(url, "/s/").Some? {
        assert ExtractShareId(url) == Search(url, SharePatterns[0]);
      } else if Search(url, "surl=").Some? {
        assert ExtractShareId(url) == Search(url, SharePatterns[1]);
      } else {
        assert ExtractShareId(url) == Search(url, SharePatterns[2]);
      }
    }
  }

  /** The third pattern never decides: wherever it matches, the second matches too. */
  lemma ThirdPatternSubsumed(url: string)
    ensures Search(url, "/sharing/link?surl=").Some? ==> Search(url, "surl=").Some?
  {
    SearchFromNone(url, "/sharing/link?surl=", 0);
    SearchFromNone(url, "surl=", 0);
    if Search(url, "/sharing/link?surl=").Some? {
      var p :| 0 <= p <= |url| && MatchesAt(url, "/sharing/link?surl=", p);
      assert url[p + 14..p + 19] == url[p..p + 19][14..19];
      assert MatchesAt(url, "surl=", p + 14);
    }
  }

  /** `normalize_share_id` */
  function NormalizeShareId(id: string): (r: string)
    ensures StartsWith(r, "1")
    ensures StartsWith(id, "1") ==> r == id
    ensures !StartsWith(id, "1") ==> r == "1" + id
  {
    if StartsWith(id, "1") then id else "1" + id
  }

  lemma NormalizeIdempotent(id: string)
    ensures NormalizeShareId(NormalizeShareId(id)) == NormalizeShareId(id)
  {
  }

  // ----- Formatting -----

  /** Hours, minutes and seconds as `//` and `%` compute them (floor division). */
  function DurationParts(seconds: int): (p: (int, nat, nat))
    ensures p.1 < 60 && p.2 < 60
    ensures p.0 * 3600 + p.1 * 60 + p.2 == seconds
    ensures seconds >= 0 ==> p.0 >= 0
  {
    (seconds / 3600, (seconds % 3600) / 60, seconds % 60)
  }

  /** `format_duration` */
  function FormatDuration(seconds: int): string {
    if seconds == 0 then ""
    else
      var (h, m, s) := DurationParts(seconds);
      if h > 0 then Pad2(h) + ":" + Pad2(m) + ":" + Pad2(s) else Pad2(m) + ":" + Pad2(s)
  }

  /** Reads a clock string back: fields split at ':', the last two as minutes and seconds. */
  function ClockValue(t: string): int {
    var f := SplitChar(t, ':');
    if |f| == 3 && AllDigits(f[0]) && AllDigits(f[1]) && AllDigits(f[2]) then
      DecimalValue(f[0]) * 3600 + DecimalValue(f[1]) * 60 + DecimalValue(f[2])
    else if |f| == 2 && AllDigits(f[0]) && AllDigits(f[1]) then
      DecimalValue(f[0]) * 60 + DecimalValue(f[1])
    else -1
  }

  predicate AllDigits(s: string) {
    forall i :: 0 <= i < |s| ==> '0' <= s[i] <= '9'
  }

  lemma DigitsNoColon(s: string)
    requires AllDigits(s)
    ensures !HasChar(s, ':')
  {
  }

  lemma ClockFields(parts: seq<string>)
    requires |parts| >= 1 && forall k :: 0 <= k < |parts| ==> AllDigits(parts[k])
    ensures SplitChar(JoinChar(parts, ':'), ':') == parts
  {
    forall k | 0 <= k < |parts| ensures !HasChar(parts[k], ':') { DigitsNoColon(parts[k]); }
    SplitJoinChar(parts, ':');
  }

  /** From an hour on, a duration is shown as HH:MM:SS and reads back as itself. */
  lemma FormatDurationHours(seconds: int)
    requires seconds >= 3600
    ensures |SplitChar(FormatDuration(seconds), ':')| == 3
    ensures ClockValue(FormatDuration(seconds)) == seconds
  {
    var (h, m, s) := DurationParts(seconds);
    var parts := [Pad2(h), Pad2(m), Pad2(s)];
    assert JoinChar(parts[1..], ':') == Pad2(m) + ":" + Pad2(s);
    assert JoinChar(parts, ':') == FormatDuration(seconds);
    ClockFields(parts);
    Pad2RoundTrip(h);
    Pad2RoundTrip(m);
    Pad2RoundTrip(s);
  }

  /** Below an hour, a positive duration is shown as MM:SS and reads back as itself. */
  lemma FormatDurationMinutes(seconds: int)
    requires 0 < seconds < 3600
    ensures |SplitChar(FormatDuration(seconds), ':')| == 2
    ensures ClockValue(FormatDuration(seconds)) == seconds
  {
    var (h, m, s) := DurationParts(seconds);
    var parts := [Pad2(m), Pad2(s)];
    assert JoinChar(parts, ':') == FormatDuration(seconds);
    ClockFields(parts);
    Pad2RoundTrip(m);
    Pad2RoundTrip(s);
  }

  /** Zero is the only duration shown as the empty string. */
  lemma FormatDurationEmpty(seconds: int)
    ensures FormatDuration(seconds) == "" <==> seconds == 0
  {
    if seconds != 0 {
      var (h, m, s) := DurationParts(seconds);
      assert |Pad2(s)| >= 2;
    }
  }

  /** The extensions `is_video_file` recognises. */
  const VideoExts: seq<string> := [".mp4", ".mkv", ".avi", ".mov", ".wmv", ".flv", ".webm", ".m4v", ".3gp", ".ts"]

  /** `is_video_file` */
  predicate IsVideoFile(filename: string) {
    exists k :: 0 <= k < |VideoExts| && EndsWith(Lower(filename), VideoExts[k])
  }

  /** Any name ending in a listed extension, in any letter case of the stem, is a video. */
  lemma VideoExtRecognised(stem: string, k: nat)
    requires k < |VideoExts|
    ensures IsVideoFile(stem + VideoExts[k])
  {
    var ext := VideoExts[k];
    assert forall i :: 0 <= i < |ext| ==> !('A' <= ext[i] <= 'Z');
    LowerNoUpper(ext);
    EndsWithLowered(stem, ext);
  }

  lemma EndsWithLowered(stem: string, ext: string)
    requires Lower(ext) == ext
    ensures EndsWith(Lower(stem + ext), ext)
  {
    LowerConcat(stem, ext);
    var l := Lower(stem + ext);
    assert l[|l| - |ext|..] == ext;
  }

  /** The test ignores letter case. */
  lemma VideoIgnoresCase(filename: string)
    ensures IsVideoFile(Lower(filename)) == IsVideoFile(filename)
  {
    LowerIdempotent(filename);
  }

  /** The units of `format_size`. */
  const SizeUnits: seq<string> := ["B", "KB", "MB", "GB", "TB"]

  /** `format_size`: "Unknown", or an amount and its unit (the "%.2f" rendering is not modelled). */
  datatype SizeText = Unknown | Sized(amount: real, unit: string)

  function Pow1024(k: nat): (r: real)
    ensures r >= 1.0
  {
    if k == 0 then 1.0 else 1024.0 * Pow1024(k - 1)
  }

  /** Divide by 1024 while at least 1024 and below the last unit. */
  function Scale(x: real, idx: nat): (r: (real, nat))
    requires idx <= 4
    ensures idx <= r.1 <= 4
    decreases 4 - idx
  {
    if x >= 1024.0 && idx < 4 then Scale(x / 1024.0, idx + 1) else (x, idx)
  }

  function SizeFor(sizeBytes: int): SizeText {
    if sizeBytes == 0 then Unknown
    else
      var (amount, idx) := Scale(sizeBytes as real, 0);
      Sized(amount, SizeUnits[idx])
  }

  lemma {:induction false} ScaleExact(x: real, idx: nat)
    requires idx <= 4
    requires idx > 0 ==> x >= 1.0
    ensures var (a, i) := Scale(x, idx);
      a * Pow1024(i) == x * Pow1024(idx) && (i < 4 ==> a < 1024.0) && (i > 0 ==> a >= 1.0)
    decreases 4 - idx
  {
    if x >= 1024.0 && idx < 4 {
      ScaleExact(x / 1024.0, idx + 1);
      assert (x / 1024.0) * Pow1024(idx + 1) == x * Pow1024(idx);
    }
  }

  /** "Unknown" exactly for 0; otherwise the unit index is at most 4 and the amount times
      1024 to that power is the size, below 1024 unless the unit is TB and at least 1 unless
      the unit is B. */
  lemma SizeForUnit(sizeBytes: int)
    ensures SizeFor(sizeBytes).Unknown? <==> sizeBytes == 0
    ensures SizeFor(sizeBytes).Sized? ==>
      exists i :: 0 <= i < |SizeUnits| && SizeFor(sizeBytes).unit == SizeUnits[i]
        && SizeFor(sizeBytes).amount * Pow1024(i) == sizeBytes as real
        && (i < 4 ==> SizeFor(sizeBytes).amount < 1024.0)
        && (i > 0 ==> SizeFor(sizeBytes).amount >= 1.0)
  {
    if sizeBytes != 0 {
      ScaleExact(sizeBytes as real, 0);
    }
  }

  /** `format_size`, with its division loop. */
  method FormatSize(sizeBytes: int) returns (r: SizeText)
    ensures r == SizeFor(sizeBytes)
  {
    if sizeBytes == 0 {
      return Unknown;
    }
    var size := sizeBytes as real;
    var idx: nat := 0;
    while size >= 1024.0 && idx < |SizeUnits| - 1
      invariant idx <= 4
      invariant Scale(size, idx) == Scale(sizeBytes as real, 0)
      decreases 4 - idx
    {
      size := size / 1024.0;
      idx := idx + 1;
    }
    r := Sized(size, SizeUnits[idx]);
  }
}
