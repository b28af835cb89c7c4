/**
  The readability handler's arithmetic: find the first `<digits> bytes` in a
  chunk of dd's output and turn it into a percentage of the byte budget.
 */
module Progress {
  import opened Platform
  import opened Decimal

  /** One delivery of dd's combined output: text when it decodes as UTF-8. */
  datatype Chunk = Text(s: string) | NotUtf8

  const BytesSuffix: string := " bytes"

  /** Largest value of a 64-bit signed `Int`; `Int(...)` yields nil above it. */
  const IntMax: nat := 0x7fff_ffff_ffff_ffff

  /**
    The first code point of each run of ten decimal digits (Unicode general
    category Nd, as of Unicode 15.0) outside ASCII: Arabic-Indic, Devanagari,
    Thai, fullwidth, mathematical and the rest.
   */
  const NonAsciiDigitZeros: set<int> := {
    0x0660, 0x06F0, 0x07C0, 0x0966, 0x09E6, 0x0A66, 0x0AE6, 0x0B66, 0x0BE6, 0x0C66,
    0x0CE6, 0x0D66, 0x0DE6, 0x0E50, 0x0ED0, 0x0F20, 0x1040, 0x1090, 0x17E0, 0x1810,
    0x1946, 0x19D0, 0x1A80, 0x1A90, 0x1B50, 0x1BB0, 0x1C40, 0x1C50, 0xA620, 0xA8D0,
    0xA900, 0xA9D0, 0xA9F0, 0xAA50, 0xABF0, 0xFF10, 0x104A0, 0x10D30, 0x11066, 0x110F0,
    0x11136, 0x111D0, 0x112F0, 0x11450, 0x114D0, 0x11650, 0x116C0, 0x11730, 0x118E0, 0x11950,
    0x11C50, 0x11D50, 0x11DA0, 0x11F50, 0x16A60, 0x16AC0, 0x16B50, 0x1D7CE, 0x1D7D8, 0x1D7E2,
    0x1D7EC, 0x1D7F6, 0x1E140, 0x1E2F0, 0x1E4F0, 0x1E950, 0x1FBF0}

  /**
    What `\d` matches in the ICU regular expression: any Unicode decimal
    digit, not only 0-9.
   */
  predicate IsRegexDigit(c: char)
  {
    || IsDigit(c)
    || (0x80 <= c as int
        && exists z :: z in NonAsciiDigitZeros && z <= c as int < z + 10)
  }

  predicate AllRegexDigits(s: string)
  {
    forall i :: 0 <= i < |s| ==> IsRegexDigit(s[i])
  }

  /** End of the run of `\d` characters that starts at `i`. */
  function DigitRunEnd(s: string, i: nat): (j: nat)
    requires i <= |s|
    ensures i <= j <= |s|
    ensures AllRegexDigits(s[i..j])
    ensures j == |s| || !IsRegexDigit(s[j])
    decreases |s| - i
  {
    if i < |s| && IsRegexDigit(s[i]) then DigitRunEnd(s, i + 1) else i
  }

  /**
    The pattern `(\d+) bytes` matches starting at `i`: a digit is there and the
    longest run of digits from `i` is followed by " bytes" (a shorter run is
    followed by a digit, so greedy matching never needs to back off).
   */
  predicate MatchAt(s: string, i: nat)
  {
    i < |s| && IsRegexDigit(s[i]) && BytesSuffix <= s[DigitRunEnd(s, i)..]
  }

  /** The leftmost position at or after `from` where the pattern matches. */
  function FindMatch(s: string, from: nat): (r: Option<nat>)
    requires from <= |s|
    ensures r.Some? ==> from <= r.value < |s| && MatchAt(s, r.value)
    ensures r.Some? ==> forall k :: from <= k < r.value ==> !MatchAt(s, k)
    ensures r.None? ==> forall k :: from <= k < |s| ==> !MatchAt(s, k)
    decreases |s| - from
  {
    if from == |s| then None
    else if MatchAt(s, from) then Some(from)
    else FindMatch(s, from + 1)
  }

  /**
    `Int(...)` on the matched digits (the match with " bytes" removed): only
    ASCII digits are accepted, and only values that fit a 64-bit `Int`.
   */
  function ParseInt(digits: string): (r: Option<nat>)
    ensures r.Some? <==> digits != [] && AllDigits(digits) && DigitsValue(digits) <= IntMax
    ensures r.Some? ==> r.value == DigitsValue(digits)
    ensures r.Some? && Canonical(digits) ==> NatToString(r.value) == digits
  {
    if digits != [] && AllDigits(digits) && DigitsValue(digits) <= IntMax then Some(DigitsValue(digits)) else None
  }

  /** A number formatted in decimal parses back to itself when it fits an `Int`. */
  lemma ParseIntRoundTrip(n: nat)
    requires n <= IntMax
    ensures ParseInt(NatToString(n)) == Some(n)
  {
    NatToStringRoundTrip(n);
  }

  /**
    The byte count of the first match in `s`: none without a match, and none
    when the matched digits are not all ASCII or do not fit a 64-bit `Int`;
    a later match is never tried.
   */
  function BytesWritten(s: string): (r: Option<nat>)
    ensures r.Some? ==> r.value <= IntMax
    ensures FindMatch(s, 0).None? ==> r.None?
    ensures FindMatch(s, 0).Some? ==> r == ParseInt(s[FindMatch(s, 0).value..DigitRunEnd(s, FindMatch(s, 0).value)])
  {
    match FindMatch(s, 0)
    case None => None
    case Some(i) => ParseInt(s[i..DigitRunEnd(s, i)])
  }

  /** Over a run of ASCII digits ended by a non-digit, the digit run ends where the digits do. */
  lemma {:induction false} DigitRunOver(s: string, digits: string, i: nat)
    requires digits <= s && AllDigits(digits) && |digits| < |s| && !IsRegexDigit(s[|digits|])
    requires i <= |digits|
    ensures DigitRunEnd(s, i) == |digits|
    decreases |digits| - i
  {
    if i < |digits| {
      assert s[i] == digits[i];
      DigitRunOver(s, digits, i + 1);
    }
  }

  /**
    A chunk that starts with dd's count, `<n> bytes`, reports `n`, whatever
    follows.
   */
  lemma BytesWrittenOfReport(n: nat, rest: string)
    requires n <= IntMax
    ensures BytesWritten(NatToString(n) + BytesSuffix + rest) == Some(n)
  {
    var digits := NatToString(n);
    var s := digits + BytesSuffix + rest;
    assert s[|digits|] == ' ';
    assert digits <= s;
    DigitRunOver(s, digits, 0);
    assert s[0] == digits[0];
    assert s[|digits|..] == BytesSuffix + rest;
    assert MatchAt(s, 0);
    assert s[0..|digits|] == digits;
    ParseIntRoundTrip(n);
  }

  /**
    A non-ASCII digit before " bytes" (say, in a volume name dd echoes) takes
    the leftmost match, `Int(...)` rejects it, and the count dd printed later
    in the same chunk is not read.
   */
  lemma NonAsciiDigitHidesCount()
    ensures BytesWritten("\U{0663}" + BytesSuffix + ": 1048576 bytes transferred") == None
  {
    var rest := BytesSuffix + ": 1048576 bytes transferred";
    assert "\U{0663}" + BytesSuffix + ": 1048576 bytes transferred" == ['\U{0663}'] + rest;
    ArabicIndicThreeIsDigit();
    LeadingDigitMatches('\U{0663}', rest);
  }

  /** ARABIC-INDIC DIGIT THREE is a decimal digit for the regular expression, not for `Int(...)`. */
  lemma ArabicIndicThreeIsDigit()
    ensures IsRegexDigit('\U{0663}') && !IsDigit('\U{0663}')
  {
    assert 0x0660 in NonAsciiDigitZeros;
  }

  /** A lone non-ASCII digit followed by " bytes" is the first match, and it reads as no count. */
  lemma LeadingDigitMatches(c: char, rest: string)
    requires IsRegexDigit(c) && !IsDigit(c) && BytesSuffix <= rest
    ensures BytesWritten([c] + rest) == None
  {
    var s := [c] + rest;
    assert s[1] == ' ';
    assert DigitRunEnd(s, 1) == 1;
    assert s[1..] == rest;
    assert MatchAt(s, 0);
    assert s[0..1] == [c];
  }

  /** The search returns the first matching position when none before it matches. */
  lemma {:induction false} FindMatchFirst(s: string, from: nat, i: nat)
    requires from <= i < |s| && MatchAt(s, i)
    requires forall k :: from <= k < i ==> !MatchAt(s, k)
    ensures FindMatch(s, from) == Some(i)
    decreases i - from
  {
    if from < i {
      FindMatchFirst(s, from + 1, i);
    }
  }

  function Min(a: real, b: real): real
  {
    if a <= b then a else b
  }

  /** `min(100, written / total * 100)`. */
  function Percent(written: nat, total: nat): (pct: real)
    requires total > 0
    ensures 0.0 <= pct <= 100.0
    ensures written >= total ==> pct == 100.0
    ensures written < total ==> pct == (written as real) * 100.0 / (total as real)
  {
    Min(100.0, (written as real) / (total as real) * 100.0)
  }

  /**
    The progress value after one chunk: it changes only for decodable,
    non-empty text carrying a byte count, and only when a budget is known.
   */
  function NextProgress(progress: real, chunk: Chunk, totalBytes: int): (r: real)
    ensures 0.0 <= progress <= 100.0 ==> 0.0 <= r <= 100.0
    ensures totalBytes <= 0 ==> r == progress
    ensures chunk.NotUtf8? ==> r == progress
    ensures chunk.Text? && BytesWritten(chunk.s).None? ==> r == progress
    ensures chunk.Text? && BytesWritten(chunk.s).Some? && totalBytes > 0 ==>
              r == Percent(BytesWritten(chunk.s).value, totalBytes)
  {
    match chunk
    case NotUtf8 => progress
    case Text(s) =>
      if s == [] then progress
      else match BytesWritten(s)
        case None => progress
        case Some(written) => if totalBytes > 0 then Percent(written, totalBytes) else progress
  }

  /** The progress value after a sequence of chunks, handled in order. */
  function ProgressAfter(progress: real, chunks: seq<Chunk>, totalBytes: int): real
  {
    if chunks == [] then progress
    else NextProgress(ProgressAfter(progress, chunks[..|chunks| - 1], totalBytes), chunks[|chunks| - 1], totalBytes)
  }

  lemma ProgressStep(progress: real, chunks: seq<Chunk>, i: nat, totalBytes: int)
    requires i < |chunks|
    ensures ProgressAfter(progress, chunks[..i + 1], totalBytes)
         == NextProgress(ProgressAfter(progress, chunks[..i], totalBytes), chunks[i], totalBytes)
  {
    assert chunks[..i + 1][..i] == chunks[..i];
  }

  /** Whatever dd prints, the progress value stays within 0…100. */
  lemma {:induction false} ProgressStaysInRange(progress: real, chunks: seq<Chunk>, totalBytes: int)
    requires 0.0 <= progress <= 100.0
    ensures 0.0 <= ProgressAfter(progress, chunks, totalBytes) <= 100.0
  {
    if chunks != [] {
      ProgressStaysInRange(progress, chunks[..|chunks| - 1], totalBytes);
    }
  }

  /** Without a byte budget the progress value is never touched. */
  lemma {:induction false} NoBudgetNoProgress(progress: real, chunks: seq<Chunk>, totalBytes: int)
    requires totalBytes <= 0
    ensures ProgressAfter(progress, chunks, totalBytes) == progress
  {
    if chunks != [] {
      NoBudgetNoProgress(progress, chunks[..|chunks| - 1], totalBytes);
    }
  }

  /** After a chunk that carries no byte count, the previous value stands. */
  lemma {:induction false} ProgressIsLastReport(progress: real, chunks: seq<Chunk>, totalBytes: int)
    requires totalBytes > 0
    ensures var r := ProgressAfter(progress, chunks, totalBytes);
            || r == progress
            || exists i :: 0 <= i < |chunks| && chunks[i].Text? && BytesWritten(chunks[i].s).Some?
                           && r == Percent(BytesWritten(chunks[i].s).value, totalBytes)
  {
    if chunks != [] {
      var init := chunks[..|chunks| - 1];
      ProgressIsLastReport(progress, init, totalBytes);
      var before := ProgressAfter(progress, init, totalBytes);
      if before != progress && ProgressAfter(progress, chunks, totalBytes) == before {
        var i :| 0 <= i < |init| && init[i].Text? && BytesWritten(init[i].s).Some?
                 && before == Percent(BytesWritten(init[i].s).value, totalBytes);
        assert chunks[i] == init[i];
      }
    }
  }

  /** A chunk that carries no byte count the handler can use. */
  predicate Silent(c: Chunk)
  {
    c.NotUtf8? || BytesWritten(c.s).None?
  }

  /** Output without any byte count leaves the previous value in place, whatever it was. */
  lemma {:induction false} SilentOutputKeepsProgress(progress: real, chunks: seq<Chunk>, totalBytes: int)
    requires forall i :: 0 <= i < |chunks| ==> Silent(chunks[i])
    ensures ProgressAfter(progress, chunks, totalBytes) == progress
  {
    if chunks != [] {
      SilentOutputKeepsProgress(progress, chunks[..|chunks| - 1], totalBytes);
    }
  }
}
