/** The two record shapes the mappers convert between, as decoded JSON objects. Every key that a
    mapper reads may be missing, so each is an `Option`. */
module Schema {
  import opened Wrappers

  /** A flat record of the COVID-19 dataset. The keys are those of the dataset's rows. */
  datatype FlatRecord = FlatRecord(
    dateRep: Option<string>,
    day: Option<string>,
    month: Option<string>,
    year: Option<string>,
    cases: Option<int>,
    deaths: Option<int>,
    countriesAndTerritories: Option<string>,
    geoId: Option<string>,
    countryterritoryCode: Option<string>,
    popData2019: Option<int>,
    continentExp: Option<string>,
    /** the key "Cumulative_number_for_14_days_of_COVID-19_cases_per_100000" */
    cumulative14Days: Option<string>)

  datatype Coding = Coding(system: Option<string>, code: Option<string>)

  datatype CodeableConcept = CodeableConcept(coding: Option<seq<Coding>>)

  datatype Quantity = Quantity(value: Option<int>, unit: Option<string>, system: Option<string>, code: Option<string>)

  datatype Component = Component(code: Option<CodeableConcept>, valueQuantity: Option<Quantity>)

  datatype Reference = Reference(reference: Option<string>)

  datatype Meta = Meta(profile: Option<seq<string>>)

  datatype Observation = Observation(
    resourceType: Option<string>,
    id: Option<string>,
    meta: Option<Meta>,
    subject: Option<Reference>,
    effectiveDateTime: Option<string>,
    component: Option<seq<Component>>)

  datatype Entry = Entry(resource: Option<Observation>)

  /** `bundleType` is the Bundle's "type" key. */
  datatype Bundle = Bundle(resourceType: Option<string>, bundleType: Option<string>, entry: Option<seq<Entry>>)

  /** The exceptions the two mappers can raise. */
  datatype Error =
    | MissingKey(key: string)                  // KeyError on a flat record
    | InvalidDate(text: string, format: string) // ValueError from strptime
    | EmptyCoding                              // IndexError on `coding[0]` of an empty coding list

  const CaseProfile := "http://hl7.org/fhir/StructureDefinition/who-covid19-case-daily"
  const Subject := "Patient/afghanistan"
  const ConfirmedSystem := "http://terminology.hl7.org/CodeSystem/who-covid19-case-reported-type"
  const ConfirmedCode := "confirmed"
  const DeathsSystem := "http://terminology.hl7.org/CodeSystem/who-case-reported-deaths"
  const ReportedCode := "reported"
  const UnitsSystem := "http://unitsofmeasure.org"
}
