/** `extract_license_plate_text`: the OCR readings of one image region are filtered by
    confidence, their text is upper-cased and stripped of everything outside A-Z and 0-9,
    and those of plate-like length are kept, in OCR order. */
module Plates {
  import opened Wrappers
  import opened StrOps

  /** Readings at or below this confidence are ignored. */
  const MinConfidence: real := 0.5
  const MinPlateLength: nat := 4
  const MaxPlateLength: nat := 12

  /** One EasyOCR reading `(bbox, text, confidence)`; the box is opaque. */
  datatype Reading<Box> = Reading(bbox: Box, text: string, confidence: real)

  /** One kept detection `{'text', 'confidence', 'bbox'}`. */
  datatype Candidate<Box> = Candidate(text: string, confidence: real, bbox: Box)

  /** The character class `[A-Z0-9]`. */
  predicate IsPlateChar(c: char) { IsAsciiUpper(c) || IsDigit(c) }

  predicate AllPlateChars(s: string) { forall i :: 0 <= i < |s| ==> IsPlateChar(s[i]) }

  /** `re.sub(r'[^A-Z0-9]', '', s)`: keeps the plate characters of `s`, in order. */
  function KeepPlateChars(s: string): (r: string)
    ensures AllPlateChars(r)
    ensures |r| <= |s|
  {
    if s == [] then []
    else if IsPlateChar(s[0]) then [s[0]] + KeepPlateChars(s[1..])
    else KeepPlateChars(s[1..])
  }

  /** The cleaning at backend/app.py:97: upper-case, then drop every non-plate character. */
  function Clean(text: string): (cleaned: string)
    ensures AllPlateChars(cleaned)
    ensures |cleaned| <= |text|
  {
    KeepPlateChars(Upper(text))
  }

  /** `re.match(r'^[A-Z0-9]+$', s)`. */
  predicate MatchesPlatePattern(s: string) { |s| >= 1 && AllPlateChars(s) }

  /** The test at backend/app.py:100: length 4 to 12 and the pattern. */
  predicate LooksLikePlate(s: string) {
    MinPlateLength <= |s| <= MaxPlateLength && MatchesPlatePattern(s)
  }

  /** What every kept candidate satisfies. */
  predicate IsPlateCandidate<Box>(c: Candidate<Box>) {
    c.confidence > MinConfidence && LooksLikePlate(c.text)
  }

  /** What one reading contributes: its cleaned text, confidence and box, or nothing.
      It is kept exactly when its confidence is above 0.5 and its cleaned text has 4 to
      12 characters; the regex test never rejects anything more. */
  function KeepReading<Box>(rd: Reading<Box>): (kept: seq<Candidate<Box>>)
    ensures kept != [] <==>
              rd.confidence > MinConfidence
              && MinPlateLength <= |Clean(rd.text)| <= MaxPlateLength
    ensures kept != [] ==> kept == [Candidate(Clean(rd.text), rd.confidence, rd.bbox)]
  {
    if rd.confidence > MinConfidence && LooksLikePlate(Clean(rd.text))
    then [Candidate(Clean(rd.text), rd.confidence, rd.bbox)]
    else []
  }

  /** The candidates kept from a sequence of readings, in reading order. */
  function Plates<Box>(readings: seq<Reading<Box>>): (plates: seq<Candidate<Box>>)
    ensures |plates| <= |readings|
  {
    if readings == [] then [] else KeepReading(readings[0]) + Plates(readings[1..])
  }

  /** The whole function: `readtext` raising (None) is caught and yields no candidates. */
  function PlatesOf<Box>(ocr: Option<seq<Reading<Box>>>): (plates: seq<Candidate<Box>>)
    ensures ocr.None? ==> plates == []
    ensures ocr.Some? ==> |plates| <= |ocr.value|
  {
    if ocr.None? then [] else Plates(ocr.value)
  }

  /** The loop at backend/app.py:93-105, appending to `license_plates`. */
  method ExtractLicensePlateText<Box>(ocr: Option<seq<Reading<Box>>>)
    returns (licensePlates: seq<Candidate<Box>>)
    ensures licensePlates == PlatesOf(ocr)
    ensures forall k :: 0 <= k < |licensePlates| ==> IsPlateCandidate(licensePlates[k])
  {
    licensePlates := [];
    if ocr.None? {
      return;
    }
    var results := ocr.value;
    for i := 0 to |results|
      invariant licensePlates == Plates(results[..i])
    {
      var rd := results[i];
      PlatesAppend(results[..i], [rd]);
      assert results[..i + 1] == results[..i] + [rd];
      if rd.confidence > MinConfidence {
        var cleanedText := Clean(rd.text);
        if |cleanedText| >= MinPlateLength && |cleanedText| <= MaxPlateLength
           && MatchesPlatePattern(cleanedText) {
          licensePlates := licensePlates + [Candidate(cleanedText, rd.confidence, rd.bbox)];
        }
      }
    }
    assert results[..|results|] == results;
    PlatesArePlateCandidates(results);
  }

  /** Every kept candidate has confidence above 0.5 and plate-shaped text. */
  lemma {:induction false} PlatesArePlateCandidates<Box>(readings: seq<Reading<Box>>)
    ensures forall k :: 0 <= k < |Plates(readings)| ==> IsPlateCandidate(Plates(readings)[k])
  {
    if readings != [] {
      PlatesArePlateCandidates(readings[1..]);
      var first, rest := KeepReading(readings[0]), Plates(readings[1..]);
      forall k | 0 <= k < |first + rest| ensures IsPlateCandidate((first + rest)[k]) {
        if k < |first| {
          assert (first + rest)[k] == first[k];
        } else {
          assert (first + rest)[k] == rest[k - |first|];
        }
      }
    }
  }

  /** Filtering distributes over concatenation: kept readings keep their OCR order. */
  lemma {:induction false} PlatesAppend<Box>(a: seq<Reading<Box>>, b: seq<Reading<Box>>)
    ensures Plates(a + b) == Plates(a) + Plates(b)
  {
    if a != [] {
      PlatesAppend(a[1..], b);
      assert (a + b)[1..] == a[1..] + b;
    } else {
      assert a + b == b;
    }
  }

  /** A single reading contributes exactly what KeepReading says. */
  lemma PlatesSingle<Box>(rd: Reading<Box>)
    ensures Plates([rd]) == KeepReading(rd)
  {
    assert [rd][1..] == [];
    assert KeepReading(rd) + [] == KeepReading(rd);
  }

  /** The character filter distributes over concatenation: every plate character is
      kept, in its original order. */
  lemma {:induction false} KeepPlateCharsAppend(a: string, b: string)
    ensures KeepPlateChars(a + b) == KeepPlateChars(a) + KeepPlateChars(b)
  {
    if a != [] {
      KeepPlateCharsAppend(a[1..], b);
      assert (a + b)[1..] == a[1..] + b;
      assert (a + b)[0] == a[0];
    } else {
      assert a + b == b;
    }
  }

  /** One character survives the filter exactly when it is a plate character. */
  lemma KeepPlateCharsSingle(c: char)
    ensures KeepPlateChars([c]) == if IsPlateChar(c) then [c] else []
  {
    assert [c][1..] == [];
  }

  /** Every plate character of the upper-cased text survives cleaning. */
  lemma {:induction false} CleanKeepsPlateChars(text: string, i: nat)
    requires i < |text| && IsPlateChar(UpperChar(text[i]))
    ensures UpperChar(text[i]) in Clean(text)
  {
    var u := Upper(text);
    assert u == u[..i] + [u[i]] + u[i + 1..];
    KeepPlateCharsAppend(u[..i] + [u[i]], u[i + 1..]);
    KeepPlateCharsAppend(u[..i], [u[i]]);
    KeepPlateCharsSingle(u[i]);
    assert KeepPlateChars([u[i]]) == [u[i]];
    assert Clean(text) == KeepPlateChars(u[..i]) + [u[i]] + KeepPlateChars(u[i + 1..]);
    assert Clean(text)[|KeepPlateChars(u[..i])|] == u[i];
  }

  /** Once the length test passes, the `^[A-Z0-9]+$` test always holds. */
  lemma PatternRedundant(text: string)
    requires MinPlateLength <= |Clean(text)|
    ensures MatchesPlatePattern(Clean(text))
  {
  }

  /** Cleaning leaves an already clean string unchanged. */
  lemma {:induction false} CleanFixesPlateText(s: string)
    requires AllPlateChars(s)
    ensures Clean(s) == s
  {
    if s != [] {
      CleanFixesPlateText(s[1..]);
      assert Upper(s)[1..] == Upper(s[1..]);
    }
  }

  /** Cleaning is idempotent. */
  lemma CleanIdempotent(text: string)
    ensures Clean(Clean(text)) == Clean(text)
  {
    CleanFixesPlateText(Clean(text));
  }
}
