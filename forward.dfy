/** `create_fhir_bundle`: flat records to a FHIR Bundle of type "collection" holding one Observation
    per record, in input order. */
module Forward {
  import opened Wrappers
  import opened Text
  import opened Dates
  import opened Schema
  import opened Batch

  /** A count as the source writes it: a dimensionless quantity (unit "1" of UCUM). */
  function CountQuantity(n: int): Quantity {
    Quantity(Some(n), Some("1"), Some(UnitsSystem), Some("1"))
  }

  /** A component with a single coding and a count. */
  function CountComponent(system: string, code: string, n: int): Component {
    Component(Some(CodeableConcept(Some([Coding(Some(system), Some(code))]))), Some(CountQuantity(n)))
  }

  /** The Observation built for one record: the id keeps the record's own `dateRep` text, the
      effective date is the ISO form of the parsed date, the subject is always the same patient. */
  function CaseObservation(dateRep: string, effective: string, cases: int, deaths: int): Observation {
    Observation(
      Some("Observation"),
      Some("observation-" + dateRep),
      Some(Meta(Some([CaseProfile]))),
      Some(Reference(Some(Subject))),
      Some(effective),
      Some([CountComponent(ConfirmedSystem, ConfirmedCode, cases), CountComponent(DeathsSystem, ReportedCode, deaths)]))
  }

  /** One iteration of the loop: the keys are read in the source's order, `dateRep` (and its parse),
      then `cases`, then `deaths`; the first one missing or malformed raises. */
  function ConvertRecord(r: FlatRecord): Result<Entry, Error> {
    if r.dateRep.None? then Failure(MissingKey("dateRep"))
    else
      match ParseDmy(r.dateRep.value)
      case None => Failure(InvalidDate(r.dateRep.value, DmyFormat))
      case Some(d) =>
        if r.cases.None? then Failure(MissingKey("cases"))
        else if r.deaths.None? then Failure(MissingKey("deaths"))
        else Success(Entry(Some(CaseObservation(r.dateRep.value, FormatIso(d), r.cases.value, r.deaths.value))))
  }

  /** What `create_fhir_bundle` returns, or the exception it raises. */
  function ForwardBundle(records: seq<FlatRecord>): Result<Bundle, ItemFailure<Error>> {
    match MapAll(ConvertRecord, records)
    case Success(entries) => Success(Bundle(Some("Bundle"), Some("collection"), Some(entries)))
    case Failure(e) => Failure(e)
  }

  /** The source's loop: start from an empty collection Bundle and append one entry per record. */
  method CreateFhirBundle(records: seq<FlatRecord>) returns (res: Result<Bundle, ItemFailure<Error>>)
    ensures res == ForwardBundle(records)
  {
    var entries: seq<Entry> := [];
    var i := 0;
    while i < |records|
      invariant 0 <= i <= |records|
      invariant MapAll(ConvertRecord, records[..i]) == Success(entries)
    {
      match ConvertRecord(records[i])
      case Failure(e) =>
        assert forall j :: 0 <= j < i ==> records[..i][j] == records[j];
        MapAllFailsAtFirst(ConvertRecord, records, i, e);
        return Failure(ItemFailure(i, e));
      case Success(entry) =>
        MapAllStep(ConvertRecord, records, i, entries, entry);
        entries := entries + [entry];
        i := i + 1;
    }
    assert records[..i] == records;
    res := Success(Bundle(Some("Bundle"), Some("collection"), Some(entries)));
  }

  /** The Bundle is a "collection" with exactly one entry per record, in input order; it is built
      exactly when every record converts. */
  lemma ForwardBundleShape(records: seq<FlatRecord>)
    ensures ForwardBundle(records).Success? <==> forall i :: 0 <= i < |records| ==> ConvertRecord(records[i]).Success?
    ensures ForwardBundle(records).Success? ==>
      var b := ForwardBundle(records).value;
      && b.resourceType == Some("Bundle") && b.bundleType == Some("collection")
      && b.entry.Some? && |b.entry.value| == |records|
      && forall i :: 0 <= i < |records| ==> ConvertRecord(records[i]) == Success(b.entry.value[i])
  {
    MapAllSucceeds(ConvertRecord, records);
  }

  /** A bad record aborts the whole conversion with its own error; nothing is skipped. */
  lemma ForwardBundleAborts(records: seq<FlatRecord>, k: nat)
    requires k < |records| && ConvertRecord(records[k]).Failure?
    requires forall i :: 0 <= i < k ==> ConvertRecord(records[i]).Success?
    ensures ForwardBundle(records) == Failure(ItemFailure(k, ConvertRecord(records[k]).error))
  {
    MapAllFailsAtFirst(ConvertRecord, records, k, ConvertRecord(records[k]).error);
  }

  /** The failure of one record, in the order the source looks at its keys. */
  lemma ConvertRecordErrors(r: FlatRecord)
    ensures r.dateRep.None? ==> ConvertRecord(r) == Failure(MissingKey("dateRep"))
    ensures r.dateRep.Some? && ParseDmy(r.dateRep.value).None? ==>
      ConvertRecord(r) == Failure(InvalidDate(r.dateRep.value, "%d/%m/%Y"))
    ensures r.dateRep.Some? && ParseDmy(r.dateRep.value).Some? && r.cases.None? ==>
      ConvertRecord(r) == Failure(MissingKey("cases"))
    ensures r.dateRep.Some? && ParseDmy(r.dateRep.value).Some? && r.cases.Some? && r.deaths.None? ==>
      ConvertRecord(r) == Failure(MissingKey("deaths"))
    ensures ConvertRecord(r).Success? <==>
      r.dateRep.Some? && ParseDmy(r.dateRep.value).Some? && r.cases.Some? && r.deaths.Some?
  {
  }

  /** The Observation of a converted record: its id, profile and subject; its effective date, which is
      the same calendar date as `dateRep` written as zero-padded `YYYY-MM-DD` (for a zero-padded
      `dateRep`, its three fields in reverse order); and its two components, "confirmed" carrying
      `cases` and "reported" carrying `deaths`. */
  lemma ConvertRecordObservation(r: FlatRecord)
    requires ConvertRecord(r).Success?
    ensures ConvertRecord(r).value.resource.Some?
    ensures
      var obs := ConvertRecord(r).value.resource.value;
      var text := r.dateRep.value;
      && obs.resourceType == Some("Observation")
      && obs.id == Some("observation-" + text)
      && obs.meta == Some(Meta(Some(["http://hl7.org/fhir/StructureDefinition/who-covid19-case-daily"])))
      && obs.subject == Some(Reference(Some("Patient/afghanistan")))
      && obs.effectiveDateTime.Some?
      && ParseIso(obs.effectiveDateTime.value) == ParseDmy(text)
      && IsZeroPaddedIso(obs.effectiveDateTime.value)
      && (IsZeroPaddedDmy(text) ==> obs.effectiveDateTime.value == text[6..] + "-" + text[3..5] + "-" + text[..2])
      && obs.component.Some? && |obs.component.value| == 2
      && obs.component.value[0].code == Some(CodeableConcept(Some([Coding(Some(ConfirmedSystem), Some("confirmed"))])))
      && obs.component.value[0].valueQuantity == Some(Quantity(r.cases, Some("1"), Some("http://unitsofmeasure.org"), Some("1")))
      && obs.component.value[1].code == Some(CodeableConcept(Some([Coding(Some(DeathsSystem), Some("reported"))])))
      && obs.component.value[1].valueQuantity == Some(Quantity(r.deaths, Some("1"), Some("http://unitsofmeasure.org"), Some("1")))
  {
    var text := r.dateRep.value;
    var d := ParseDmy(text).value;
    ParseFormatIso(d);
    FormatParseDmy(text, d);
  }
}
