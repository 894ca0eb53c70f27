/** `reverse_fhir_bundle`: the entries of a Bundle back to flat records, in entry order. */
module Reverse {
  import opened Wrappers
  import opened Text
  import opened Dates
  import opened Schema
  import opened Batch

  /** The observation with no keys at all, which stands in for an entry without a resource
      (`entry.get("resource", {})`). */
  const NoObservation := Observation(None, None, None, None, None, None)

  function ObservationOf(e: Entry): Observation {
    e.resource.GetOr(NoObservation)
  }

  /** The observation's effective date text, or the empty text when the key is missing. */
  function EffectiveText(obs: Observation): string {
    obs.effectiveDateTime.GetOr("")
  }

  /** The observation's components, or none when the key is missing. */
  function ComponentsOf(obs: Observation): seq<Component> {
    obs.component.GetOr([])
  }

  /** The subject's reference text, or the empty text when the subject or its reference is missing. */
  function SubjectReference(obs: Observation): string {
    match obs.subject
    case None => ""
    case Some(s) => s.reference.GetOr("")
  }

  /** The code of the component's first coding, if it has one. A missing "code" or "coding" stands for
      one empty coding, so it gives no code; a coding list that is present and empty raises
      `IndexError` (the source indexes `[0]`). */
  function CodeOf(c: Component): Result<Option<string>, Error> {
    var codings := if c.code.Some? then c.code.value.coding else None;
    match codings
    case None => Success(None)
    case Some(cs) => if |cs| == 0 then Failure(EmptyCoding) else Success(cs[0].code)
  }

  /** The search moves past `c`: its code is read without raising and is not `want`. */
  predicate Passes(c: Component, want: string) {
    CodeOf(c).Success? && CodeOf(c).value != Some(want)
  }

  /** How a first-match search ends: at the first match, after the last component, or at the
      component whose code could not be read. */
  datatype Search = Found(index: nat) | NotFound | Crashed(index: nat)

  /** Where the lazy first-match search for code `want` stops: the components are read in order and
      the search ends at the first one whose code is `want`, or at the first one whose code raises. */
  function FirstMatch(comps: seq<Component>, want: string): (r: Search)
    ensures r.Found? ==>
      && r.index < |comps| && CodeOf(comps[r.index]) == Success(Some(want))
      && forall j :: 0 <= j < r.index ==> Passes(comps[j], want)
    ensures r.Crashed? ==>
      && r.index < |comps| && CodeOf(comps[r.index]).Failure?
      && forall j :: 0 <= j < r.index ==> Passes(comps[j], want)
    ensures r.NotFound? <==> forall j :: 0 <= j < |comps| ==> Passes(comps[j], want)
  {
    if |comps| == 0 then NotFound
    else
      match CodeOf(comps[0])
      case Failure(_) => Crashed(0)
      case Success(code) =>
        if code == Some(want) then Found(0)
        else
          match FirstMatch(comps[1..], want)
          case Found(k) => Found(k + 1)
          case Crashed(k) => Crashed(k + 1)
          case NotFound => NotFound
  }

  /** The component's quantity value, or 0 when the quantity or its value is missing. */
  function CountOf(c: Component): int {
    match c.valueQuantity
    case None => 0
    case Some(q) => q.value.GetOr(0)
  }

  /** The count the search leads to: the found component's, or 0 when nothing matched. */
  function CountAt(comps: seq<Component>, s: Search): int
    requires s.Found? ==> s.index < |comps|
  {
    if s.Found? then CountOf(comps[s.index]) else 0
  }

  /** One iteration of the loop: the effective date is read first, then the "confirmed" search and
      then the "reported" search run, and the first of these that raises ends the conversion. */
  function ReverseEntry(e: Entry): Result<FlatRecord, Error> {
    var obs := ObservationOf(e);
    var text := EffectiveText(obs);
    match ParseIso(text)
    case None => Failure(InvalidDate(text, IsoFormat))
    case Some(d) =>
      var comps := ComponentsOf(obs);
      var casesAt := FirstMatch(comps, ConfirmedCode);
      var deathsAt := FirstMatch(comps, ReportedCode);
      if casesAt.Crashed? || deathsAt.Crashed? then Failure(EmptyCoding)
      else
        var country := LastSegment(SubjectReference(obs));
        Success(FlatRecord(
          Some(FormatDmy(d)), Some(Pad(d.day, 2)), Some(Pad(d.month, 2)), Some(Pad(d.year, 4)),
          Some(CountAt(comps, casesAt)), Some(CountAt(comps, deathsAt)),
          Some(country), Some(country), Some(country),
          Some(0), Some(""), Some("")))
  }

  /** What `reverse_fhir_bundle` returns, or the exception it raises; a Bundle without "entry" has
      no entries. */
  function ReverseBundle(b: Bundle): Result<seq<FlatRecord>, ItemFailure<Error>> {
    MapAll(ReverseEntry, b.entry.GetOr([]))
  }

  /** The source's loop: start from an empty list and append one record per entry. */
  method ReverseFhirBundle(b: Bundle) returns (res: Result<seq<FlatRecord>, ItemFailure<Error>>)
    ensures res == ReverseBundle(b)
  {
    var entries := b.entry.GetOr([]);
    var records: seq<FlatRecord> := [];
    var i := 0;
    while i < |entries|
      invariant 0 <= i <= |entries|
      invariant MapAll(ReverseEntry, entries[..i]) == Success(records)
    {
      match ReverseEntry(entries[i])
      case Failure(e) =>
        assert forall j :: 0 <= j < i ==> entries[..i][j] == entries[j];
        MapAllFailsAtFirst(ReverseEntry, entries, i, e);
        return Failure(ItemFailure(i, e));
      case Success(record) =>
        MapAllStep(ReverseEntry, entries, i, records, record);
        records := records + [record];
        i := i + 1;
    }
    assert entries[..i] == entries;
    res := Success(records);
  }

  /** No "entry" gives the empty list; otherwise one record per entry, in entry order, built exactly
      when every entry converts. */
  lemma ReverseBundleShape(b: Bundle)
    ensures b.entry.None? ==> ReverseBundle(b) == Success([])
    ensures
      var entries := b.entry.GetOr([]);
      && (ReverseBundle(b).Success? <==> forall i :: 0 <= i < |entries| ==> ReverseEntry(entries[i]).Success?)
      && (ReverseBundle(b).Success? ==>
            && |ReverseBundle(b).value| == |entries|
            && forall i :: 0 <= i < |entries| ==> ReverseEntry(entries[i]) == Success(ReverseBundle(b).value[i]))
  {
    MapAllSucceeds(ReverseEntry, b.entry.GetOr([]));
  }

  /** A bad entry aborts the whole conversion with its own error. */
  lemma ReverseBundleAborts(b: Bundle, k: nat)
    requires b.entry.Some? && k < |b.entry.value| && ReverseEntry(b.entry.value[k]).Failure?
    requires forall i :: 0 <= i < k ==> ReverseEntry(b.entry.value[i]).Success?
    ensures ReverseBundle(b) == Failure(ItemFailure(k, ReverseEntry(b.entry.value[k]).error))
  {
    MapAllFailsAtFirst(ReverseEntry, b.entry.value, k, ReverseEntry(b.entry.value[k]).error);
  }

  /** Reading a component's code raises exactly when its coding list is present and empty; a missing
      "code" or "coding" reads as no code at all. */
  lemma CodeOfRaises(c: Component)
    ensures CodeOf(c).Failure? <==> c.code.Some? && c.code.value.coding == Some([])
    ensures CodeOf(c).Failure? ==> CodeOf(c).error == EmptyCoding
    ensures c.code.None? || c.code.value.coding.None? ==> CodeOf(c) == Success(None)
  {
  }

  /** The failure of one entry: a missing or malformed effective date (a missing resource counts as
      one without a date), else an empty coding list reached by either search. */
  lemma ReverseEntryErrors(e: Entry)
    ensures
      var obs := ObservationOf(e);
      var text := EffectiveText(obs);
      var comps := ComponentsOf(obs);
      && (ParseIso(text).None? ==> ReverseEntry(e) == Failure(InvalidDate(text, "%Y-%m-%d")))
      && (e.resource.None? ==> ReverseEntry(e) == Failure(InvalidDate("", "%Y-%m-%d")))
      && (ParseIso(text).Some? ==>
            (ReverseEntry(e) == Failure(EmptyCoding) <==>
               FirstMatch(comps, "confirmed").Crashed? || FirstMatch(comps, "reported").Crashed?))
      && (ReverseEntry(e).Success? <==>
            && ParseIso(text).Some?
            && !FirstMatch(comps, "confirmed").Crashed? && !FirstMatch(comps, "reported").Crashed?)
  {
    if e.resource.None? {
      var s := Split("", '-');
      assert s == [""];
    }
  }

  /** A component with a present but empty coding list that a search reaches before its match makes
      the entry raise, even when matching components follow it. */
  lemma EmptyCodingBeforeMatch(e: Entry, k: nat, want: string)
    requires want == "confirmed" || want == "reported"
    requires ParseIso(EffectiveText(ObservationOf(e))).Some?
    requires
      var comps := ComponentsOf(ObservationOf(e));
      && k < |comps| && comps[k].code.Some? && comps[k].code.value.coding == Some([])
      && forall j :: 0 <= j < k ==> CodeOf(comps[j]) != Success(Some(want))
    ensures ReverseEntry(e) == Failure(EmptyCoding)
  {
    var comps := ComponentsOf(ObservationOf(e));
    CodeOfRaises(comps[k]);
  }

  /** Components after both matches are never looked at: when the first component is "confirmed" and
      the second "reported", the entry converts whatever follows, empty coding lists included. */
  lemma NothingReadAfterMatches(e: Entry)
    requires ParseIso(EffectiveText(ObservationOf(e))).Some?
    requires
      var comps := ComponentsOf(ObservationOf(e));
      && |comps| >= 2
      && CodeOf(comps[0]) == Success(Some("confirmed"))
      && CodeOf(comps[1]) == Success(Some("reported"))
    ensures ReverseEntry(e).Success?
  {
    var comps := ComponentsOf(ObservationOf(e));
    assert FirstMatch(comps, "confirmed") == Found(0);
    assert FirstMatch(comps[1..], "reported") == Found(0);
  }

  /** The record built from one entry: `dateRep` is the effective date as zero-padded `DD/MM/YYYY`
      (for a zero-padded `YYYY-MM-DD`, its three fields in reverse order) and day, month and year are
      its fields; the counts are those of the first matching components, 0 when none matches; the
      three country keys are the same text, the last '/'-segment of the subject reference; the keys
      FHIR does not carry are placeholders. */
  lemma ReverseEntryRecord(e: Entry)
    requires ReverseEntry(e).Success?
    ensures
      var obs := ObservationOf(e);
      var text := EffectiveText(obs);
      var comps := ComponentsOf(obs);
      var rec := ReverseEntry(e).value;
      var casesAt := FirstMatch(comps, "confirmed");
      var deathsAt := FirstMatch(comps, "reported");
      var country := LastSegment(SubjectReference(obs));
      && rec.dateRep.Some? && ParseDmy(rec.dateRep.value) == ParseIso(text)
      && IsZeroPaddedDmy(rec.dateRep.value)
      && (IsZeroPaddedIso(text) ==> rec.dateRep.value == text[8..] + "/" + text[5..7] + "/" + text[..4])
      && rec.day == Some(rec.dateRep.value[..2])
      && rec.month == Some(rec.dateRep.value[3..5])
      && rec.year == Some(rec.dateRep.value[6..])
      && rec.cases == Some(if casesAt.Found? then CountOf(comps[casesAt.index]) else 0)
      && rec.deaths == Some(if deathsAt.Found? then CountOf(comps[deathsAt.index]) else 0)
      && rec.countriesAndTerritories == Some(country)
      && rec.geoId == Some(country)
      && rec.countryterritoryCode == Some(country)
      && '/' !in country
      && rec.popData2019 == Some(0) && rec.continentExp == Some("") && rec.cumulative14Days == Some("")
  {
    var text := EffectiveText(ObservationOf(e));
    var d := ParseIso(text).value;
    ParseFormatDmy(d);
    FormatParseIso(text, d);
    var dateRep := FormatDmy(d);
    assert dateRep[..2] == Pad(d.day, 2) && dateRep[3..5] == Pad(d.month, 2) && dateRep[6..] == Pad(d.year, 4);
    if IsZeroPaddedIso(text) {
      assert text[..4] == Pad(d.year, 4) && text[5..7] == Pad(d.month, 2) && text[8..] == Pad(d.day, 2);
    }
    LastSegmentIsFinalPiece(SubjectReference(ObservationOf(e)));
  }
}
