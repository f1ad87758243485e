/** A number format for EPSS scores, which have five decimal places: six digits and an exponent,
    as in 000430e-5. With it the round trip of `EpssProofs` holds of every snapshot whose
    numbers have at most five places, no hypothesis about the format left. */
module EpssFormat {
  import opened Base
  import opened Epss
  import opened EpssProofs

  const EXPONENT := "e-5"

  predicate IsDigit(c: char) {
    '0' <= c <= '9'
  }

  function Digit(d: nat): (c: char)
    requires d < 10
    ensures IsDigit(c) && (c - '0') as int == d
  {
    '0' + d as char
  }

  function Digits(k: nat, n: nat): (s: string)
    ensures |s| == n
    ensures forall i | 0 <= i < n :: IsDigit(s[i])
  {
    if n == 0 then "" else Digits(k / 10, n - 1) + [Digit(k % 10)]
  }

  function Value(s: string): Option<nat> {
    if s == "" then Some(0)
    else
      var before, last := Value(s[..|s| - 1]), s[|s| - 1];
      if before.None? || !IsDigit(last) then None else Some(10 * before.value + (last - '0') as int)
  }

  function Power10(n: nat): nat {
    if n == 0 then 1 else 10 * Power10(n - 1)
  }

  lemma {:induction false} DigitsRoundTrip(k: nat, n: nat)
    requires k < Power10(n)
    ensures Value(Digits(k, n)) == Some(k)
  {
    if n > 0 {
      DigitsRoundTrip(k / 10, n - 1);
      var s := Digits(k, n);
      assert s[..|s| - 1] == Digits(k / 10, n - 1);
    }
  }

  /** k hundred-thousandths. */
  function Places(k: nat): Float {
    Finite(k as real / 100000.0)
  }

  predicate FivePlaces(x: Float) {
    x.Finite? && exists k: nat :: k < 1000000 && x == Places(k)
  }

  function PrintNumber(x: Float): string {
    var k := if x.Finite? then (x.number * 100000.0).Floor else 0;
    Digits(if k < 0 then 0 else k, 6) + EXPONENT
  }

  function ParseNumber(s: string): Option<Float> {
    if |s| < 3 || s[|s| - 3..] != EXPONENT || Value(s[..|s| - 3]).None? then None
    else Some(Places(Value(s[..|s| - 3]).value))
  }

  lemma PlacesFloor(k: nat)
    ensures (Places(k).number * 100000.0).Floor == k
  {
    assert Places(k).number * 100000.0 == k as real;
  }

  lemma FormatInverts(x: Float)
    requires FivePlaces(x)
    ensures Inverts(ParseNumber, PrintNumber, x)
  {
    var k: nat :| k < 1000000 && x == Places(k);
    PlacesFloor(k);
    assert Power10(6) == 1000000;
    DigitsRoundTrip(k, 6);
    var digits := Digits(k, 6);
    assert PrintNumber(x) == digits + EXPONENT;
    ExponentCut(digits);
    DigitsPlain(digits);
  }

  lemma ExponentCut(digits: string)
    ensures var s := digits + EXPONENT;
            |s| >= 3 && s[..|s| - 3] == digits && s[|s| - 3..] == EXPONENT
  {
  }

  lemma DigitsPlain(digits: string)
    requires |digits| > 0 && forall i | 0 <= i < |digits| :: IsDigit(digits[i])
    ensures Plain(digits + EXPONENT)
  {
    var s := digits + EXPONENT;
    assert s[0] == digits[0] && s[|s| - 1] == EXPONENT[2];
    forall c | c in s
      ensures IsDigit(c) || c in EXPONENT
    {
    }
  }

  /** A reader of quote-free text; a quote or a failure is all it reports of any other stream. */
  function ReadLines(stream: Stream): seq<ReadOutcome> {
    if stream.fails then [ReadError] else if QuoteFree(stream.text) then CsvRecords(stream.text) else [BadRow]
  }

  /** Printing in this format and parsing gives back every parsed snapshot with five-place
      numbers and plain text. */
  lemma FivePlacesRoundTrip(s: Snapshot, entries: seq<Entry>, dateFirst: bool)
    requires Parsed(s) && Lists(entries, s.scores) && Plain(s.modelVersion) && Plain(s.scoreDate)
    requires forall cve | cve in s.scores ::
               Plain(cve) && FivePlaces(s.scores[cve].score) && FivePlaces(s.scores[cve].percentile)
    ensures ParsedText(Print(s, entries, dateFirst, PrintNumber), ReadLines, ParseNumber) == Success(s)
  {
    forall e | e in entries
      ensures Printable(e, ParseNumber, PrintNumber)
    {
      assert e.0 in EntryKeys(entries);
      FormatInverts(e.1.score);
      FormatInverts(e.1.percentile);
    }
    PrintParse(s, entries, dateFirst, ReadLines, ParseNumber, PrintNumber);
  }
}
