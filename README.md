# COVID-19 flat records and FHIR Bundles, modelled in Dafny

The service converts daily COVID-19 records between two JSON shapes. A flat record has keys such as
`dateRep` (`DD/MM/YYYY`), `cases` and `deaths`. A FHIR Bundle of type "collection" holds one
Observation per record. Each Observation has an id derived from `dateRep`, a fixed profile, the
fixed subject `Patient/afghanistan`, an `effectiveDateTime` (`YYYY-MM-DD`, the extended calendar
date of section 4.1.2.2 of ISO 8601:2004), and two coded components: "confirmed" carries the cases,
"reported" carries the deaths.

The model covers the two mappers in `main.py`:

- `create_fhir_bundle` is `Forward.CreateFhirBundle`.
- `reverse_fhir_bundle` is `Reverse.ReverseFhirBundle`.

Both are loops that append to a list. Each is proved equal to a specification function
(`Forward.ForwardBundle`, `Reverse.ReverseBundle`). Both specification functions are built on
`Batch.MapAll`, which converts the items in order and stops at the first one that raises.

Modules:

- `Wrappers`: `Option` stands for a missing key, `Result` for a raised exception.
- `Text`: ASCII digits, zero padding, and `str.split` on one character with its inverse `Join`.
- `Dates`: `strptime` and `strftime` for the formats `%d/%m/%Y` and `%Y-%m-%d`.
  - The `%d` field accepts `01`–`31`, `1`–`9`, or a space and `1`–`9`.
  - The `%m` field accepts `01`–`12` or `1`–`9`.
  - The `%Y` field needs exactly four digits, and year 0 is refused.
  - The whole text must be consumed.
  - The date must exist in the proleptic Gregorian calendar.
- `DateExamples`: concrete dates `strptime` refuses or accepts.
- `Schema`: the datatypes FlatRecord, Bundle, Entry, Observation, Component, CodeableConcept,
  Coding, Quantity, Reference and Meta; the error kinds; the fixed strings.
- `Batch`, `Forward`, `Reverse`: the mappers.
- `RoundTrip`: what survives forward-then-reverse.

Details of the code that the model keeps:

- Forward mapping raises when `dateRep` is missing or not a real date, and also when `cases` or
  `deaths` is missing.
- Reverse mapping counts a missing component as 0. It raises `IndexError` on a component whose
  `coding` list is present and empty, when either search reaches that component before its match.
  A search stops at its first match, so components after both matches are never read.
- An absent `coding` reads as one empty coding, so it means no code.
- `dateRep` survives the round trip only when it is zero padded. `strptime` accepts "1/2/2021" and
  " 1/02/2021", but `strftime` always writes "01/02/2021".

## Model

| member | source | states |
|---|---|---|
| `Text.Split` | main.py:147 | splitting gives at least one piece, and no piece holds the separator |
| `Text.JoinSplit` | main.py:147 | joining the pieces of a split with the separator gives back the original text |
| `Text.SplitJoin` | main.py:147 | splitting a join of separator-free pieces gives back the pieces |
| `Text.LastSegmentIsFinalPiece` | main.py:147-149 | `split("/")[-1]` is the longest suffix of the reference with no '/': a suffix, free of '/', and either the whole text or preceded by '/' |
| `Dates.FromFields` | main.py:46 | a date built from three fields is always a real date of years 1–9999 |
| `Dates.ParseDmy` | main.py:46 | reading `%d/%m/%Y` yields only real dates; `None` stands for `ValueError` |
| `Dates.ParseIso` | main.py:121 | reading `%Y-%m-%d` yields only real dates; `None` stands for `ValueError` |
| `Dates.ParseFormatDmy` | main.py:142-144 | writing a date as `DD/MM/YYYY` and reading it back gives the same date, and the text is zero padded |
| `Dates.ParseFormatIso` | main.py:46 | writing a date as `YYYY-MM-DD` and reading it back gives the same date, and the text is zero padded |
| `Dates.FormatParseDmy` | main.py:46 | reading `DD/MM/YYYY` and writing it back gives the same text if and only if the text was zero padded |
| `Dates.ParseUnpaddedFields` | main.py:46 | every date is read from one-digit day and month fields and from a space-padded day, in both formats, not only from the zero-padded form |
| `Dates.FormatParseIso` | main.py:121 | reading `YYYY-MM-DD` and writing it back gives the same text if and only if the text was zero padded |
| `DateExamples.RejectedDates` | main.py:46 | "31/02/2021", "29/02/1900" (1900 is not a leap year) and "01/01/0000" are refused |
| `DateExamples.AcceptedDates` | main.py:46 | "29/02/2000" is 29 February 2000; "1/2/2021" and " 1/02/2021" are both 1 February 2021 |
| `DateExamples.WritesZeroPadded` | main.py:46 | 1 February 2021 is written "01/02/2021" |
| `Batch.MapAll` | main.py:44-96 | on success, one result per item in item order, each the item's own conversion; on failure, the index of a failing item, its error, and that every earlier item converted |
| `Batch.MapAllSucceeds` | main.py:44-96 | the batch succeeds if and only if every item converts |
| `Batch.MapAllFailsAtFirst` | main.py:44-96 | the batch fails with the error of the first failing item |
| `Batch.MapAllPrefixFailure` | main.py:117-155 | a failure on a prefix is the failure of the whole input |
| `Forward.CreateFhirBundle` | main.py:25-98 | the loop that appends one entry per record returns exactly `ForwardBundle(records)`, or its exception |
| `Forward.ForwardBundleShape` | main.py:35-96 | the result has resourceType "Bundle" and type "collection", exactly one entry per record in input order, each the record's conversion; it exists if and only if every record converts |
| `Forward.ForwardBundleAborts` | main.py:44-96 | the first bad record aborts the whole conversion with its own error; nothing is skipped |
| `Forward.ConvertRecordErrors` | main.py:46-91 | checks run in the source's order: a missing `dateRep` raises KeyError, then a malformed or impossible date raises ValueError, then a missing `cases`, then a missing `deaths` raises KeyError; otherwise conversion succeeds |
| `Forward.ConvertRecordObservation` | main.py:49-93 | id is "observation-" + the original `dateRep`; the profile and the subject "Patient/afghanistan" are fixed; `effectiveDateTime` is the same calendar date, zero-padded `YYYY-MM-DD`, which for a zero-padded `dateRep` is its fields reversed; exactly two components, "confirmed" with `cases` and "reported" with `deaths`, with unit "1" |
| `Reverse.FirstMatch` | main.py:122-137 | first-match search: finds the first component whose first coding has the code, after components all read without error and not matching; reports a component whose empty coding list raises; or reports none exactly when every component is passed over |
| `Reverse.CodeOfRaises` | main.py:126 | reading a component's code raises if and only if its `coding` list is present and empty; a missing `code` or `coding` reads as no code |
| `Reverse.ReverseFhirBundle` | main.py:102-157 | the loop that appends one record per entry returns exactly `ReverseBundle(b)`, or its exception |
| `Reverse.ReverseBundleShape` | main.py:115-157 | a Bundle without `entry` gives the empty list; otherwise one record per entry in entry order; success if and only if every entry converts |
| `Reverse.ReverseBundleAborts` | main.py:117-155 | the first bad entry aborts the whole conversion with its own error |
| `Reverse.ReverseEntryErrors` | main.py:118-137 | a missing or malformed `effectiveDateTime` raises ValueError, and so does a missing resource; otherwise an empty coding list reached by either search raises; success exactly when neither happens |
| `Reverse.EmptyCodingBeforeMatch` | main.py:122-137 | a component at any position whose coding list is present and empty, reached by the "confirmed" or the "reported" search before that search's match, makes the entry raise, even when matching components follow |
| `Reverse.NothingReadAfterMatches` | main.py:122-137 | when the first component is "confirmed" and the second "reported", the entry converts whatever components follow, empty coding lists included |
| `Reverse.ReverseEntryRecord` | main.py:140-153 | `dateRep` is the same calendar date in zero-padded `DD/MM/YYYY` (for zero-padded input, the ISO fields reversed); day, month and year are its fields; cases and deaths come from the first matching component, or 0; the three country keys are equal to the last '/'-segment of the subject reference; `popData2019` is 0; `continentExp` and the 14-day field are "" |
| `RoundTrip.RecordRoundTrip` | main.py:44-153 | forward then reverse returns the same cases, deaths and calendar date; `dateRep` is unchanged if and only if it was zero padded; country keys are "afghanistan"; the other keys are reset |
| `RoundTrip.BundleRoundTrip` | main.py:25-157 | the same, over a whole batch: as many records come back as went in, each in its place |
| `RoundTrip.SampleRecord` | main.py:46-90 | the record 31/12/2020 with 100 cases and 5 deaths gives `effectiveDateTime` "2020-12-31" with components 100 and 5, and comes back with the same date and counts |

## Left out

- The HTTP routes, CORS set-up and framework glue (main.py:8-20, 183-261). They call the mappers on uploaded or local files.
- The file helpers `remove_existing_file`, `save_json_data`, `check_file_existence` and the module-level check (main.py:158-181, 264-282). They are operating-system calls with no logic of their own.
- JSON decoding and encoding. Inputs are already-decoded datatypes whose keys may be missing. A value of the wrong JSON type is not modelled: a non-string `dateRep` (TypeError), a non-object entry or component, and a count that is not an integer. `cases`, `deaths` and `value` are integers here; the source passes any JSON value through.
- `Dates.ParseDmy`: `\d` in Python's `strptime` also matches non-ASCII decimal digits. The model accepts ASCII digits only.
- `Dates.ParseIso`: the same gap. The year (`\d\d\d\d`) and the two-digit day (`[1-2]\d`) accept ASCII digits only.
- `Dates.FormatIso`: writes the year as four digits. For years below 1000, CPython's `%Y` depends on the platform's C library.
- `Dates.FormatDmy`: writes the year as four digits too, with the same platform dependence. On a C library that does not pad `%Y`, the year 5 is written "01/01/5". The source's second parse of that text then raises `ValueError`, because `%Y` needs four digits. The model does not capture that failure.
- The reverse mapper gets day, month and year by parsing the new `DD/MM/YYYY` text again. The model formats the parsed date's fields directly. `Dates.ParseFormatDmy` proves the second parse gives back the same date, given that `%Y` always writes four digits.
- Keys that a mapper never reads are carried in the datatypes but do not affect the result. Examples: the flat record's country and population keys in the forward direction; the Observation's `id`, `meta` and `resourceType` in the reverse direction.
- A failure carries the index of the record or entry that raised. Python's exception does not; the model adds it as extra information.
- The browser front end `src/main.ts`: DOM and SVG drawing, timers, play and pause handling, and floating-point layout.
