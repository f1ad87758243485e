/** The KEV catalog: the set of exploited CVEs and its ransomware subset. JSON decoding is
    not modelled; `Parse` starts from the decoded document, or from the decoder's failure. */
module Kev {
  import opened Base
  import opened Text

  datatype Snapshot =
    Snapshot(present: set<string>, ransomware: set<string>, catalogVersion: string, dateReleased: string)

  datatype Entry = Entry(cveID: string, ransomwareUse: string)

  datatype Feed = Feed(catalogVersion: string, dateReleased: string, vulnerabilities: seq<Entry>)

  datatype ParseError = NotJson | NoUsableEntries

  predicate Has(s: Option<Snapshot>, cve: string) {
    s.Some? && NormalizeId(cve) in s.value.present
  }

  predicate IsRansomware(s: Option<Snapshot>, cve: string) {
    s.Some? && NormalizeId(cve) in s.value.ransomware
  }

  function Marker(s: Snapshot): (string, string) {
    (s.catalogVersion, s.dateReleased)
  }

  /** What every parsed catalog satisfies. */
  predicate Parsed(s: Snapshot) {
    s.present != {} && s.ransomware <= s.present
  }

  predicate SaysKnown(e: Entry) {
    EqualFold(TrimSpace(e.ransomwareUse), "Known")
  }

  /** The catalog is built from the set of entries: order and repetition cannot matter. */
  function PresentIn(entries: set<Entry>): set<string> {
    set e | e in entries && NormalizeId(e.cveID) != "" :: NormalizeId(e.cveID)
  }

  function RansomwareIn(entries: set<Entry>): set<string> {
    set e | e in entries && NormalizeId(e.cveID) != "" && SaysKnown(e) :: NormalizeId(e.cveID)
  }

  function EntrySet(entries: seq<Entry>): set<Entry> {
    set e | e in entries
  }

  function ParsedFeed(decoded: Option<Feed>): Result<Snapshot, ParseError> {
    match decoded
    case None => Failure(NotJson)
    case Some(f) =>
      var entries := EntrySet(f.vulnerabilities);
      if PresentIn(entries) == {} then Failure(NoUsableEntries)
      else Success(Snapshot(PresentIn(entries), RansomwareIn(entries), f.catalogVersion, f.dateReleased))
  }

  method Parse(decoded: Option<Feed>) returns (r: Result<Snapshot, ParseError>)
    ensures r == ParsedFeed(decoded)
  {
    if decoded.None? {
      return Failure(NotJson);
    }
    var f := decoded.value;
    var present: set<string>, ransomware: set<string> := {}, {};
    for i := 0 to |f.vulnerabilities|
      invariant present == PresentIn(EntrySet(f.vulnerabilities[..i]))
      invariant ransomware == RansomwareIn(EntrySet(f.vulnerabilities[..i]))
    {
      var v := f.vulnerabilities[i];
      assert EntrySet(f.vulnerabilities[..i + 1]) == EntrySet(f.vulnerabilities[..i]) + {v};
      var cve := NormalizeId(v.cveID);
      if cve == "" {
        continue;
      }
      present := present + {cve};
      if EqualFold(TrimSpace(v.ransomwareUse), "Known") {
        ransomware := ransomware + {cve};
      }
    }
    assert f.vulnerabilities[..|f.vulnerabilities|] == f.vulnerabilities;
    if |present| == 0 {
      return Failure(NoUsableEntries);
    }
    return Success(Snapshot(present, ransomware, f.catalogVersion, f.dateReleased));
  }

  /** To say Known is to spell it, in any letter case, between blanks. */
  predicate SpellsKnown(use: string) {
    InAnyCase(TrimSpace(use), "known", "KNOWN")
  }

  lemma KnownIs(e: Entry)
    ensures SaysKnown(e) <==> SpellsKnown(e.ransomwareUse)
  {
    FoldsTo(TrimSpace(e.ransomwareUse), "Known", "known", "KNOWN");
  }

  /** The catalog's two words, and none at all: only the first is flagged, however it is written. */
  lemma KnownWords(cve: string, left: string, word: string, right: string)
    requires Blank(left) && InAnyCase(word, "known", "KNOWN") && Blank(right)
    ensures SaysKnown(Entry(cve, left + word + right))
    ensures !SaysKnown(Entry(cve, "Unknown")) && !SaysKnown(Entry(cve, ""))
  {
    TrimPadded(left, word, right);
    KnownIs(Entry(cve, left + word + right));
    TrimPadded("", "Unknown", "");
    assert "" + "Unknown" + "" == "Unknown";
    KnownIs(Entry(cve, "Unknown"));
    KnownIs(Entry(cve, ""));
  }

  /** What parsing gives: nothing for a document that does not decode or whose entries all have
      blank identifiers, and otherwise a catalog with the document's version and date. */
  lemma ParseOutcome(decoded: Option<Feed>)
    ensures var r := ParsedFeed(decoded);
            && (r == Failure(NotJson) <==> decoded.None?)
            && (r == Failure(NoUsableEntries) <==>
                  decoded.Some? && forall e | e in decoded.value.vulnerabilities :: Blank(e.cveID))
            && (r.Success? ==> r.value.catalogVersion == decoded.value.catalogVersion
                               && r.value.dateReleased == decoded.value.dateReleased
                               && Marker(r.value) == (decoded.value.catalogVersion, decoded.value.dateReleased))
  {
    if decoded.Some? {
      var entries := EntrySet(decoded.value.vulnerabilities);
      forall e | e in entries
        ensures NormalizeId(e.cveID) in PresentIn(entries) <==> !Blank(e.cveID)
      {
        BlankTrims(e.cveID);
      }
      assert forall e :: e in entries <==> e in decoded.value.vulnerabilities;
    }
  }

  /** Membership, entry by entry: a CVE is ransomware-linked exactly when some entry with its
      identifier says Known, however many other entries for it say otherwise, and every
      ransomware-linked CVE is in the catalog. */
  lemma CatalogMembership(f: Feed, cve: string)
    requires ParsedFeed(Some(f)).Success?
    ensures var s := ParsedFeed(Some(f)).value;
            && Parsed(s)
            && (Has(Some(s), cve) <==> NormalizeId(cve) != "" && exists i ::
                 0 <= i < |f.vulnerabilities| && NormalizeId(f.vulnerabilities[i].cveID) == NormalizeId(cve))
            && (IsRansomware(Some(s), cve) <==> NormalizeId(cve) != "" && exists i ::
                 && 0 <= i < |f.vulnerabilities| && NormalizeId(f.vulnerabilities[i].cveID) == NormalizeId(cve)
                 && SpellsKnown(f.vulnerabilities[i].ransomwareUse))
    ensures !Has(None, cve) && !IsRansomware(None, cve)
  {
    var s := ParsedFeed(Some(f)).value;
    var id := NormalizeId(cve);
    forall i | 0 <= i < |f.vulnerabilities|
      ensures f.vulnerabilities[i] in EntrySet(f.vulnerabilities)
      ensures SaysKnown(f.vulnerabilities[i]) <==> SpellsKnown(f.vulnerabilities[i].ransomwareUse)
    {
      KnownIs(f.vulnerabilities[i]);
    }
  }

  /** Permuting or duplicating entries changes nothing. */
  lemma EntryOrderIrrelevant(f: Feed, g: Feed)
    requires FeedMarker(f) == FeedMarker(g)
    requires forall e :: e in f.vulnerabilities <==> e in g.vulnerabilities
    ensures ParsedFeed(Some(f)) == ParsedFeed(Some(g))
  {
    assert EntrySet(f.vulnerabilities) == EntrySet(g.vulnerabilities);
  }

  function FeedMarker(f: Feed): (string, string) {
    (f.catalogVersion, f.dateReleased)
  }
}
