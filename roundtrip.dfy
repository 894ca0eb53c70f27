/** Forward then reverse: what survives the trip through FHIR and what is reset. */
module RoundTrip {
  import opened Wrappers
  import opened Text
  import opened Dates
  import opened DateExamples
  import opened Schema
  import opened Batch
  import opened Forward
  import opened Reverse

  /** `out` is what the reverse mapping gives back for the record `r`: the same counts and calendar
      date, `dateRep` unchanged exactly when it was zero padded, the country keys taken from the fixed
      subject, the other keys reset to placeholders. */
  ghost predicate RoundTripped(r: FlatRecord, out: FlatRecord) {
    && r.dateRep.Some? && out.dateRep.Some?
    && ParseDmy(out.dateRep.value) == ParseDmy(r.dateRep.value)
    && (out.dateRep == r.dateRep <==> IsZeroPaddedDmy(r.dateRep.value))
    && out.cases == r.cases && out.deaths == r.deaths
    && out.countriesAndTerritories == Some("afghanistan")
    && out.geoId == Some("afghanistan")
    && out.countryterritoryCode == Some("afghanistan")
    && out.popData2019 == Some(0) && out.continentExp == Some("") && out.cumulative14Days == Some("")
  }

  lemma SubjectSegment(s: string)
    requires s == "Patient/afghanistan"
    ensures LastSegment(s) == "afghanistan"
  {
    assert s == "Patient" + ['/'] + "afghanistan";
    SplitAfterPiece("Patient", '/', "afghanistan");
    SplitFree("afghanistan", '/');
  }

  /** One record through both mappers. */
  lemma RecordRoundTrip(r: FlatRecord)
    requires ConvertRecord(r).Success?
    ensures ReverseEntry(ConvertRecord(r).value).Success?
    ensures RoundTripped(r, ReverseEntry(ConvertRecord(r).value).value)
  {
    var e := ConvertRecord(r).value;
    ConvertRecordObservation(r);
    var obs := ObservationOf(e);
    var comps := ComponentsOf(obs);
    assert CodeOf(comps[0]) == Success(Some("confirmed"));
    assert CodeOf(comps[1]) == Success(Some("reported"));
    assert FirstMatch(comps, "confirmed") == Found(0);
    assert FirstMatch(comps[1..], "reported") == Found(0);
    assert FirstMatch(comps, "reported") == Found(1);
    SubjectSegment(SubjectReference(obs));
    var text := r.dateRep.value;
    var d := ParseDmy(text).value;
    ParseFormatDmy(d);
    FormatParseDmy(text, d);
    ReverseEntryRecord(e);
  }

  /** Forward then reverse over a whole batch: as many records back as went in, each in its place and
      each related to its original as `RoundTripped` says. */
  lemma BundleRoundTrip(records: seq<FlatRecord>)
    requires ForwardBundle(records).Success?
    ensures ReverseBundle(ForwardBundle(records).value).Success?
    ensures
      var out := ReverseBundle(ForwardBundle(records).value).value;
      |out| == |records| && forall i :: 0 <= i < |records| ==> RoundTripped(records[i], out[i])
  {
    var b := ForwardBundle(records).value;
    ForwardBundleShape(records);
    ReverseBundleShape(b);
    var entries := b.entry.value;
    forall i | 0 <= i < |records|
      ensures ReverseEntry(entries[i]).Success? && RoundTripped(records[i], ReverseEntry(entries[i]).value)
    {
      RecordRoundTrip(records[i]);
    }
  }

  lemma SampleDate(s: string)
    requires s == "31/12/2020"
    ensures ParseDmy(s) == Some(Date(2020, 12, 31)) && IsZeroPaddedDmy(s)
    ensures s[6..] + "-" + s[3..5] + "-" + s[..2] == "2020-12-31"
  {
    assert s == "31" + ['/'] + "12" + ['/'] + "2020";
    ValueOfTwo("31");
    ValueOfTwo("12");
    ValueOfFour("2020");
    DmyFields("31", "12", "2020", s);
  }

  /** The sample record of 31 December 2020 with 100 cases and 5 deaths: its Observation is dated
      "2020-12-31" and carries both counts, and it comes back unchanged in date and counts. */
  lemma SampleRecord(r: FlatRecord)
    requires r == FlatRecord(Some("31/12/2020"), None, None, None, Some(100), Some(5), None, None, None, None, None, None)
    ensures ConvertRecord(r).Success? && ConvertRecord(r).value.resource.Some?
    ensures
      var obs := ConvertRecord(r).value.resource.value;
      && obs.effectiveDateTime == Some("2020-12-31")
      && obs.component.Some? && |obs.component.value| == 2
      && obs.component.value[0].valueQuantity.Some? && obs.component.value[0].valueQuantity.value.value == Some(100)
      && obs.component.value[1].valueQuantity.Some? && obs.component.value[1].valueQuantity.value.value == Some(5)
    ensures
      var out := ReverseEntry(ConvertRecord(r).value);
      out.Success? && out.value.dateRep == Some("31/12/2020") && out.value.cases == Some(100) && out.value.deaths == Some(5)
  {
    SampleDate(r.dateRep.value);
    ConvertRecordObservation(r);
    RecordRoundTrip(r);
  }
}
