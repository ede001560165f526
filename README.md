# Sample-patient document generators, modelled in Dafny

This project models the document-assembly core of the sample-patient
generators:

- **The transactional-bundle generator** (`FHIRSamplePatient.writePatientData`
  in bin/fhir.py). One counter, shared by every resource kind, allocates
  identifiers (`uid`). The collection loop pairs systolic and diastolic
  readings into blood-pressure composites and gathers the other vital signs.
  A patient's bundle is the sequence of fragments the generator prints, in
  order:
  - the feed header and the patient entry;
  - the blood-pressure groups, then the other vitals, then the labs;
  - each prescription, followed by its dispenses;
  - conditions, procedures, immunizations and family histories;
  - the smoking status and the gestational age.

  Immunizations with a malformed CVX code and unknown smoking-status codes
  raise in the source. Here they end the bundle with an error value.
- **The discrete-document generator** (`IndivoSamplePatient` in
  bin/indivo.py). The patient is a class whose fields `_populate` fills in
  place:
  - the attribute-defaulting engine `_set_default_attrs` works on loader
    records whose attribute maps it mutates;
  - the lab filter;
  - the problem and medication default tables;
  - the synthetic allergies;
  - the immunization code splits;
  - the vital-signs documents, including `getBP`'s update of the shared
    vital-type catalog and `cleanVitalsDate`;
  - the URI split of `coded_value`;
  - the profile files `writePatientData` writes.

  The exceptions a builder raises become an `IndivoError` that stops the
  population:
  - a missing ontology title, or a URI or code with nothing to split at;
  - a reading without a `systolic` attribute;
  - a problem, refill or medication record without an attribute its
    template reads (the `AttributeError` of `p.start`, `r.q`, `m.sig`, …),
    the first missing one in the order the template reads them.

  The documents appended before the error are kept, and so are the
  attributes already defaulted in place.
- **The patient query** of bin/pipeline/query_patients.py. `run_query` builds
  a SPARQL 1.1 CONSTRUCT query (W3C SPARQL 1.1 Query Language, section 16.2):
  - one triple pattern per given search field, in a fixed order;
  - the patterns are joined and substituted for the template's placeholder.

Templates are not rendered. A fragment or document is the record of the
values its template receives.

Modules:

- `Wrappers` and `Text`: options and results, digits, last-segment splits,
  joining and replacement.
- `Allocation`: `uid`.
- `FhirVitals`: `getVital` and the collection loop.
- `FhirBundle`: the bundle, as specification functions plus the imperative
  `Emit*` methods proved against them.
- `FhirIds` and `FhirLayout`: properties of the bundle.
- `Defaults`: `_set_default_attrs` and the default tables.
- `IndivoDocs`: the documents, as values.
- `IndivoPatient`: the patient class and its mutating builders.
- `Query`: `run_query`.

Behaviour of the code that a reader might not expect, modelled as written:

- An even patient id from 85 upward (modulo 100) receives the drug-class
  allergy twice. The comment on bin/indivo.py:214 promises "peanut
  allergies for every other patient", but the second append on
  bin/indivo.py:225 sits after the odd-id test, so for an even id it
  appends the sulfa allergy again.
- `_set_default_attrs` (bin/indivo.py:315-320) is documented as setting
  default attributes "if they don't exist", but an entry whose trigger is
  unset writes all of its attributes, overwriting siblings that are already
  set. A medication without a quantity gets the unit `{tab}` even when it
  had a unit of its own (`Defaults.MedQuantityDefault`).
- `addLabs` skips a result whose value `float()` rejects, and then keeps
  only results whose scale is not `Qn` (bin/indivo.py:92-96), so numeric
  quantitative results are the ones left out.
- In bin/fhir.py, identifiers are drawn only for the blood-pressure
  composites that were formed (bin/fhir.py:89-92). A reading whose two
  pressures do not both parse to finite numbers draws none.
- In bin/indivo.py, a vital-signs value that is missing makes `getVital`
  return `None`, and the join at bin/indivo.py:301 then raises
  (bin/indivo.py:265-301). This is taken as a precondition (`ReadingReady`).
  A reading without a `systolic` attribute fails at bin/indivo.py:289. This
  is modelled as the error `MissingAttribute("systolic")`.

## Model

| member | source | states |
|---|---|---|
| Allocation.Allocator.constructor | bin/fhir.py:26 | a fresh allocator starts the shared counter at 0, so a new object is a reset |
| Allocation.Allocator.Uid | bin/fhir.py:27-33 | each call raises the one shared counter by exactly 1 and returns a token carrying the given kind and the new counter value |
| Allocation.Render | bin/fhir.py:29-32 | defines a token's text: `str(n)` without a kind, `"<kind>/<n>"` with one |
| Allocation.SequenceNumber | bin/fhir.py:29-32 | defines the counter value read off a token's text: the digits after its last `/` |
| Allocation.RenderSequenceNumber | bin/fhir.py:30-33 | the counter value is read back from a token's text, `"<n>"` or `"<kind>/<n>"`, whatever the kind |
| Allocation.TokensDistinct | bin/fhir.py:26-33 | tokens drawn at different counter values have different texts, even across kinds |
| Text.NatToString | bin/fhir.py:31 | `str(n)` is a non-empty string of digits |
| Text.ParseNatToString | bin/fhir.py:31 | parsing the digits of `str(n)` gives back `n` |
| Text.NatToStringInjective | bin/fhir.py:31 | different counter values print differently |
| Text.Take | bin/fhir.py:37 | `s[:10]` is the prefix of length min(len(s), 10) |
| Text.LastSegment | bin/fhir.py:38 | `split('/')[-1]` is a suffix without `/`, and is either the whole string or follows the last `/` |
| Text.LastSegmentAfter | bin/fhir.py:38 | the segment after the last separator is returned exactly |
| Text.SplitLast | bin/indivo.py:312 | `rsplit(sep, 1)` fails exactly when `sep` is absent; otherwise head + sep + tail rebuilds the string and the tail has no `sep` |
| Text.LastIndexOfAfter | bin/indivo.py:312 | the last separator of `a + sep + b` (with `b` free of it) is at position `len(a)` |
| Text.Join | bin/pipeline/query_patients.py:43 | joining no parts gives the empty string, and joining one part gives that part |
| Text.JoinFront | bin/pipeline/query_patients.py:43 | for two or more parts, the join is the first part, the separator, then the join of the rest, so every part appears in order with one separator between neighbours |
| Text.JoinLength | bin/pipeline/query_patients.py:43 | the join's length is the parts' total length plus one separator per gap |
| Text.ReplaceAll | bin/pipeline/query_patients.py:43 | defines `replace`: a left-to-right scan that replaces each non-overlapping occurrence |
| Text.ParseNat | bin/fhir.py:31 | reads a counter value back from its decimal text, and succeeds exactly on a non-empty digit string |
| Text.ReplaceAllOnce | bin/pipeline/query_patients.py:43 | replacing a placeholder that occurs once, where neither surrounding text holds its first character, yields before + replacement + after |
| Text.ReplaceAllAbsent | bin/pipeline/query_patients.py:43 | a text without the placeholder's first character is unchanged by `replace` |
| Text.ReplaceAllChar | bin/indivo.py:281 | replacing one character by another keeps the length and changes exactly the occurrences of that character |
| FhirVitals.Parses | bin/fhir.py:40 | defines when `float(getattr(v, vt['name']))` succeeds: the attribute exists and its text parses |
| FhirVitals.Whole | bin/fhir.py:84-85 | defines when `int()` also accepts the parsed value: it is finite |
| FhirVitals.GetVital | bin/fhir.py:35-43 | a vital is produced exactly when the reading has the attribute and it parses. Its date is the timestamp's first 10 characters, its code the last `/`-segment of the type's URI, and its units, name and scale `Qn` come from the type |
| FhirVitals.Truncate | bin/fhir.py:84-85 | `int()` of a finite float is its integer part, truncated toward zero |
| FhirVitals.ReadingBloodPressure | bin/fhir.py:80-87 | a composite forms exactly when both values parse and `int()` accepts both (neither is `nan` or infinite). It carries the systolic vital and both pressures truncated to integers |
| FhirVitals.ReadingVitals | bin/fhir.py:76-79 | defines the inner loop over the vital types: one vital per type whose value parses, in catalog order; a type whose `getVital` raises is skipped |
| FhirVitals.ReadingPressures | bin/fhir.py:80-87 | defines what one reading appends to `bps`: its composite when the `try` block completes, nothing otherwise |
| FhirVitals.CollectedPressures | bin/fhir.py:74-87 | defines `bps` after the readings: each reading's composite, in reading order |
| FhirVitals.CollectedOthers | bin/fhir.py:74-79 | defines `othervitals` after the readings: each reading's parsable vitals, in reading order |
| FhirVitals.PressureExamples | bin/fhir.py:80-87 | pressures 120.7 and 80.2 become 120 and 80; a `nan` diastolic value drops the composite although it parses |
| FhirVitals.Collected | bin/fhir.py:71-87 | defines what the collection loop gathers: per reading, its composite if any, and its parsable other vitals |
| FhirVitals.CollectVitals | bin/fhir.py:71-87 | the loop collects exactly the composites and the other vitals the specification functions define, reading by reading |
| FhirVitals.ReadingVitalsComplete | bin/fhir.py:76-79 | a reading contributes every vital type that parses and nothing else |
| FhirVitals.PartialReadingKeepsVitals | bin/fhir.py:76-87 | a reading with a pressure missing, unparsable or not finite adds no composite but still adds its other vitals |
| FhirVitals.CollectedPressuresAppend | bin/fhir.py:74-87 | collecting composites distributes over concatenated reading lists, so input order is kept |
| FhirVitals.CollectedOthersAppend | bin/fhir.py:74-87 | collecting the other vitals distributes over concatenated reading lists |
| FhirVitals.CollectedCompositeCount | bin/fhir.py:80-87 | the number of composites equals the number of readings whose two pressures both parse to finite numbers |
| FhirBundle.BloodPressureGroup | bin/fhir.py:89-120 | defines one composite's fragments: three tokens drawn (systolic, diastolic, panel), then the panel and its two observations |
| FhirBundle.BloodPressureFragments | bin/fhir.py:89-120 | defines the composite loop: one group per composite in `bps` order, the k-th drawing the counter values n+3k+1 to n+3k+3 |
| FhirBundle.Numbered | bin/fhir.py:122-169 | defines a loop that renders one template per item under a fresh `uid(kind)`: the i-th item gets counter value n+i+1 |
| FhirBundle.LabFragment | bin/fhir.py:129-132 | defines a lab result rendered through observation.xml under its id |
| FhirBundle.ConditionFragment | bin/fhir.py:145-149 | defines a problem rendered through condition.xml under its id |
| FhirBundle.ProcedureFragment | bin/fhir.py:151-155 | defines a procedure rendered through procedure.xml under its id |
| FhirBundle.FamilyHistoryFragment | bin/fhir.py:165-169 | defines a family history rendered through family_history.xml under its id |
| FhirBundle.Dispenses | bin/fhir.py:141-143 | defines the refill loop of one medication: each refill under a fresh `MedicationDispense` id, in order, each naming the prescription's id |
| FhirBundle.MedicationGroup | bin/fhir.py:137-143 | defines one medication's fragments: the prescription under a fresh token, then one dispense per refill pointing back at it |
| FhirBundle.MedCount | bin/fhir.py:136-143 | defines the number of `uid` calls of the medication loop: one per medication plus one per refill |
| FhirBundle.MedicationFragments | bin/fhir.py:136-143 | defines the medication loop: each medication's group in order, the counter carried from group to group |
| FhirBundle.ImmunizationFragments | bin/fhir.py:157-163 | defines the immunization loop: the token is drawn before the `#` split, and the first CVX code without `#` stops the bundle |
| FhirBundle.Closing | bin/fhir.py:171-190 | defines the smoking status, with the title looked up before `uid` in the five-entry `SMOKINGCODES` table of bin/fhir.py:18-24 (`SmokingCodes`), followed by the gestational age |
| FhirBundle.Readings | bin/fhir.py:89-127 | defines the vitals stretch: the composites, then the other vitals; the counter advances by 3 per composite and 1 per vital, and nothing raises |
| FhirBundle.Charts | bin/fhir.py:129-143 | defines every lab result, unfiltered, then the medications with their dispenses |
| FhirBundle.Records | bin/fhir.py:145-155 | defines the conditions, then the procedures, one id each |
| FhirBundle.Front | bin/fhir.py:89-155 | defines the readings, charts and records in print order, the counter threaded through; this stretch never raises |
| FhirBundle.Rest | bin/fhir.py:157-190 | defines the immunizations; when one raises, the bundle ends there with its error; otherwise the family histories and the closing follow |
| FhirBundle.HistoriesAndClosing | bin/fhir.py:165-190 | defines the family histories, then the smoking status and gestational age, with the closing's error |
| FhirBundle.Body | bin/fhir.py:71-190 | defines everything after the patient entry: the front built from the collected vitals, then the rest, with the rest's error |
| FhirBundle.Bundle | bin/fhir.py:52-193 | defines the whole bundle: the feed under a bare token, the patient entry, then every section in print order |
| FhirBundle.SystolicObs | bin/fhir.py:96-107 | the systolic observation has code 8480-6, units and unitsCode `mm[Hg]`, the reading's date and the systolic value |
| FhirBundle.DiastolicObs | bin/fhir.py:109-120 | the diastolic observation has code 8462-4, units and unitsCode `mm[Hg]`, the reading's date and the diastolic value |
| FhirBundle.VitalObservation | bin/fhir.py:123-127 | another vital's observation is under the given id, with unitsCode equal to its units and the vital's code, value and date |
| FhirBundle.GestationalObs | bin/fhir.py:180-188 | the gestational-age observation has code 18185-9, units `weeks`, unitsCode `wk`, date of birth as date and the reported age as value |
| FhirBundle.GestationalAge | bin/fhir.py:178-190 | one observation under the next counter value exactly when `gestage` is truthy, and nothing drawn otherwise |
| FhirBundle.EmitBloodPressures | bin/fhir.py:89-120 | prints the blood-pressure groups of the specification and draws exactly three tokens per composite |
| FhirBundle.EmitNumbered | bin/fhir.py:122-132 | a loop that draws one token per item prints one fragment per item under consecutive tokens |
| FhirBundle.EmitMedicationGroup | bin/fhir.py:138-143 | one prescription, then its dispenses; draws 1 + number of refills tokens |
| FhirBundle.EmitMedications | bin/fhir.py:134-143 | prints every medication group in order and draws the specified number of tokens |
| FhirBundle.ImmunizationErrorSticks | bin/fhir.py:158-163 | once an immunization has raised, later records change nothing |
| FhirBundle.EmitImmunizations | bin/fhir.py:157-163 | prints immunization entries until the first CVX code without `#`, which stops the bundle after drawing its token |
| FhirBundle.EmitReadings | bin/fhir.py:89-127 | all composites' groups, then the other vitals, with the counter advanced by 3 per composite plus one per vital |
| FhirBundle.EmitCharts | bin/fhir.py:129-143 | the labs, each under its own token and with no filter, then the medications |
| FhirBundle.EmitRecords | bin/fhir.py:145-155 | the conditions, then the procedures, one token each |
| FhirBundle.EmitFront | bin/fhir.py:89-155 | vitals, labs, medications, conditions and procedures, in that order |
| FhirBundle.EmitClosing | bin/fhir.py:171-190 | the smoking status, looked up in the five-entry table, then the gestational age; an unknown smoking code is an error |
| FhirBundle.EmitHistoriesAndClosing | bin/fhir.py:165-190 | the family histories, then the closing fragments |
| FhirBundle.EmitRest | bin/fhir.py:157-190 | the immunizations and, unless one raised, everything after them |
| FhirBundle.WritePatientData | bin/fhir.py:52-193 | the whole bundle: feed token (bare), patient entry, then every section, with the counter advanced exactly as the specification says |
| FhirIds.AllocatedIdsDistinct | bin/fhir.py:26-33 | fragments whose counter values are distinct and in range have distinct token texts |
| FhirIds.BloodPressureAllocated | bin/fhir.py:89-92 | the blood-pressure fragments use distinct counter values within the 3·k values drawn for them |
| FhirIds.NumberedAt | bin/fhir.py:122-132 | the i-th item is printed under the (i+1)-th token drawn for the loop |
| FhirIds.NumberedAllocated | bin/fhir.py:122-132 | a one-token-per-item loop uses distinct counter values within the range it drew |
| FhirIds.DispensesAt | bin/fhir.py:141-143 | the j-th refill gets the (j+1)-th dispense token drawn after its prescription and names that prescription |
| FhirIds.MedicationGroupAllocated | bin/fhir.py:137-143 | a medication and its refills use distinct counter values within the range they drew |
| FhirIds.MedicationAllocated | bin/fhir.py:136-143 | all medication fragments use distinct counter values within the range drawn for them |
| FhirIds.ImmunizationAllocated | bin/fhir.py:157-163 | immunization fragments use distinct counter values within the range drawn, even when a record raises |
| FhirIds.ClosingAllocated | bin/fhir.py:171-190 | the smoking-status and gestational-age fragments use distinct counter values within the range drawn |
| FhirIds.ReadingsAllocated | bin/fhir.py:89-127 | the vitals draw 3 per composite plus 1 per other vital, all distinct |
| FhirIds.ChartsAllocated | bin/fhir.py:129-143 | labs and medications draw one value per lab plus the medication count, all distinct |
| FhirIds.RecordsAllocated | bin/fhir.py:145-155 | conditions and procedures draw one value each, all distinct |
| FhirIds.FrontAllocated | bin/fhir.py:89-155 | everything up to the immunizations uses distinct counter values within the range drawn |
| FhirIds.HistoriesAndClosingAllocated | bin/fhir.py:165-190 | family histories and closing fragments use distinct counter values within the range drawn |
| FhirIds.RestAllocated | bin/fhir.py:157-190 | everything from the immunizations on uses distinct counter values within the range drawn |
| FhirIds.BodyAllocated | bin/fhir.py:89-190 | every fragment after the patient entry uses distinct counter values within the range drawn |
| FhirIds.BundleIdsUnique | bin/fhir.py:58-190 | a bundle starts with the bare feed token and the `Patient/<pid>` entry, and every other fragment has a distinct counter value drawn after the start |
| FhirIds.BundleTokensDistinct | bin/fhir.py:52-192 | no two fragments of a bundle, other than the patient entry, share a token text |
| FhirIds.ConsecutiveBundlesDisjoint | bin/fhir.py:26-33 | because the counter is never reset, no token of one patient's bundle reappears in the next patient's bundle |
| FhirLayout.BloodPressureCount | bin/fhir.py:89-120 | each composite prints exactly three fragments |
| FhirLayout.BloodPressureLinkage | bin/fhir.py:89-120 | the g-th group is the panel under the third token, naming the systolic and diastolic observations printed right after it under the first and second tokens |
| FhirLayout.ReadingsLayout | bin/fhir.py:89-127 | all blood-pressure groups come before every other vital, and the other vitals keep input order with unitsCode equal to units |
| FhirLayout.BundleVitalsFirst | bin/fhir.py:61-127 | after the feed and patient entries, a bundle begins with the vitals of all its readings |
| FhirLayout.ChartsLayout | bin/fhir.py:129-143 | every lab result, unfiltered and in order, gets its own observation, and the medications follow |
| FhirLayout.LastPrescriptionAppend | bin/fhir.py:136-143 | the latest prescription of a concatenation is the right part's, if it has one |
| FhirLayout.MedicationGroupLayout | bin/fhir.py:137-143 | a prescription is printed first under its token, and each refill follows under a fresh dispense token that refers to it |
| FhirLayout.MedicationsLinked | bin/fhir.py:136-143 | every dispense refers to the prescription printed last before it |
| FhirLayout.ImmunizationsFail | bin/fhir.py:157-163 | the immunizations raise exactly when some CVX code has no `#` |
| FhirLayout.ImmunizationsLayout | bin/fhir.py:157-163 | without a malformed code, one entry per record in order; the system ends in `#` and system + code is the CVX code |
| FhirLayout.ImmunizationAborts | bin/fhir.py:158-163 | the first malformed code stops the bundle after the earlier entries, and its token is still spent |
| FhirLayout.ClosingOutcome | bin/fhir.py:171-190 | an unknown smoking code is the only error. A known one prints its table title first. The gestational-age observation appears exactly when `gestage` is truthy, and last |
| Defaults.Truthy | bin/indivo.py:318 | defines Python truthiness of an attribute value: a non-empty string or a non-zero integer; `None` is false |
| Defaults.Set | bin/indivo.py:318 | defines `getattr(obj, name, None)` as a condition: the attribute exists and is truthy, so a missing attribute reads as unset |
| Defaults.Defaulted | bin/indivo.py:315-320 | defines `_set_default_attrs` on an attribute map: entry by entry, an unset trigger writes the entry's attributes |
| Defaults.Record.constructor | bin/indivo.py:315 | a record holds the attributes it is given |
| Defaults.Record.SetAll | bin/indivo.py:319-320 | every attribute of the mapping is set, overriding what was there; others stay |
| Defaults.Record.SetDefaultAttrs | bin/indivo.py:315-320 | the record's attributes become the defaulted map of the old ones |
| Defaults.DefaultEntry | bin/indivo.py:317-320 | an entry whose trigger is unset writes all its attributes, overwriting siblings already set, and keeps the rest; an entry whose trigger is set changes nothing |
| Defaults.DefaultedKeeps | bin/indivo.py:315-320 | an attribute no entry writes keeps its presence and value |
| Defaults.TriggersSet | bin/indivo.py:317-320 | after defaulting with a self-setting table, every trigger is set |
| Defaults.AllSetUnchanged | bin/indivo.py:318 | a record with every trigger set is unchanged |
| Defaults.DefaultedIdempotent | bin/indivo.py:315-320 | defaulting twice with a self-setting table equals defaulting once |
| Defaults.TablesSelfSetting | bin/indivo.py:111-174 | the problem, refill and medication tables (`ProblemDefaults`, `FillDefaults`, `MedDefaults`, written out in source order) all set their own triggers to truthy values |
| Defaults.FillDefaultsTruthy | bin/indivo.py:127-143 | every refill entry writes its own trigger, with a truthy value |
| Defaults.MedDefaultsTruthy | bin/indivo.py:169-174 | every medication entry writes its own trigger, with a truthy value |
| Defaults.MedQuantityDefault | bin/indivo.py:169-175 | a medication without a quantity gets 30 and `{tab}` |
| Defaults.MedQuantityKept | bin/indivo.py:169-175 | a medication with a quantity (e.g. 42) keeps it and its unit |
| IndivoDocs.Separator | bin/indivo.py:311 | defines the separator `coded_value` splits at: `#` when the URI has one, otherwise `/` |
| IndivoDocs.CodedValue | bin/indivo.py:305-313 | a missing title and a URI with neither `#` nor `/` are errors. Otherwise the URI splits at the last `#` if it has one, else at the last `/`; the separator stays on the system, and system + identifier is the URI |
| IndivoDocs.CodeAfterHash | bin/indivo.py:236 | `rsplit("#", 1)` unpacks exactly when the code holds `#`, and gives the suffix after the last `#` |
| IndivoDocs.OptionalCode | bin/indivo.py:232-234 | an empty vaccine-group code gives empty parts; otherwise it is split like the CVX code |
| IndivoDocs.Refusal | bin/indivo.py:238 | no refusal reason gives empty fields; otherwise the reason's title and identifier, or its coding error |
| IndivoDocs.OrEmpty | bin/indivo.py:233-235 | defines `x or ''` on an optional title |
| IndivoDocs.ImmunizationModelOf | bin/indivo.py:227-252 | defines one immunization model, failing with the first error in the order the parts are evaluated |
| IndivoDocs.ImmunizationParts | bin/indivo.py:227-252 | an immunization model forms exactly when every coded part resolves and splits. It carries the administration status's title and identifier, the vaccine-group titles and the codes after their last `#`, the CVX title and code, and the refusal reason's title and identifier (empty when there is no reason) |
| IndivoDocs.LabKept | bin/indivo.py:92-96 | defines the lab filter: the value is numeric and the scale is not `Qn` |
| IndivoDocs.LabDocOf | bin/indivo.py:97-105 | defines a lab document: the result's date, LOINC code, name, value, units, low and high |
| IndivoDocs.LabDocs | bin/indivo.py:88-105 | defines the lab loop: one document per kept result, in input order |
| IndivoDocs.LabDocsMembers | bin/indivo.py:88-105 | a lab document appears exactly when some result is numeric and not `Qn` |
| IndivoDocs.LabDocsAppend | bin/indivo.py:90-105 | the lab filter works result by result, in input order |
| IndivoDocs.LabDropped | bin/indivo.py:92-96 | a non-numeric result or a `Qn` result adds nothing |
| IndivoDocs.AllergyDocs | bin/indivo.py:193-225 | defines the allergy documents from the numeric id alone, with the second append after the odd-id test |
| IndivoDocs.AllergyOutcome | bin/indivo.py:193-225 | below 85 (modulo 100), the single no-known-allergies exclusion. From 85 on, two documents: first the sulfa allergy; second the peanut allergy for odd ids and the sulfa allergy again for even ids |
| IndivoDocs.PeanutOnlyForOddIds | bin/indivo.py:214-225 | the food allergy is present exactly for odd ids from 85 on |
| IndivoDocs.AllergyExamples | bin/indivo.py:195-225 | ids 85, 86 and 184 get exactly the documents the code produces |
| IndivoDocs.ProblemResolution | bin/indivo.py:111-112 | a problem without a truthy end date gets 2010-09-13, one with an end date keeps it, and nothing else changes |
| IndivoDocs.MissingAt | bin/indivo.py:113-118 | the position of the first attribute a template reads that the record lacks: every name before it is present, and the one at it is missing; the length of the list when none is |
| IndivoDocs.MissingNone | bin/indivo.py:113-118 | no attribute is missing exactly when every name the template reads is present |
| IndivoDocs.Template | bin/indivo.py:113-118 | defines a template filled from a record: the error naming the first attribute it reads that the record lacks, otherwise the record's attributes |
| IndivoDocs.ProblemResult | bin/indivo.py:110-119 | defines one problem: the end-date default, then the problem template, giving the problem model or the missing attribute |
| IndivoDocs.ProblemResults | bin/indivo.py:110-119 | one result per problem, each that problem's `ProblemResult` |
| IndivoDocs.ProblemOutcome | bin/indivo.py:107-119 | defines `addProblems`: the problem documents up to the first problem that raises, and its error |
| IndivoDocs.FillsDefaulted | bin/indivo.py:145-146 | one defaulted attribute map per refill, each the refill's attributes after the refill defaults |
| IndivoDocs.FillResult | bin/indivo.py:145-166 | defines one refill: the refill defaults, then the refill template read in keyword order |
| IndivoDocs.FillResults | bin/indivo.py:145-166 | one result per refill, each that refill's `FillResult` |
| IndivoDocs.FirstFailure | bin/indivo.py:110-119 | the position of the first failing result of a loop, every result before it succeeding; the length of the run when none fails |
| IndivoDocs.Reached | bin/indivo.py:110-191 | how many records a loop that stops at its first failure reaches: those before the failure and the failing one, never more than the records |
| IndivoDocs.MedResult | bin/indivo.py:124-191 | defines one medication in `addMeds`' order: `m.rxn` is read first, then each refill is defaulted and filled in, then the medication is; the first missing attribute is the error |
| IndivoDocs.MedResults | bin/indivo.py:124-191 | one result per medication, each that medication's `MedResult` |
| IndivoDocs.MedOutcome | bin/indivo.py:121-191 | defines `addMeds` for given tables: the medication documents up to the first medication that raises, and its error |
| IndivoDocs.RecordOutcome | bin/indivo.py:31-32 | defines `addProblems`, then `addMeds` with the code's tables unless `addProblems` raised |
| IndivoDocs.ProblemComplete | bin/indivo.py:113-118 | defines what a problem record needs for its template: `start`, `snomed` and `name` |
| IndivoDocs.FillComplete | bin/indivo.py:147-166 | defines what a refill record needs for its template beyond the table: `date`, `days` and `q` |
| IndivoDocs.MedComplete | bin/indivo.py:176-189 | defines what a medication record needs for its template: `name`, `rxn`, `sig`, `start`, and the unit or id beside a frequency, quantity or prescriber it sets itself |
| IndivoDocs.ProblemFails | bin/indivo.py:110-119 | a problem's document forms exactly when `start`, `snomed` and `name` are present after defaulting. Otherwise the error names the first missing one, in that order. The document holds the defaulted attributes |
| IndivoDocs.FillFails | bin/indivo.py:145-166 | a refill's template forms exactly when `date`, `days` and `q` are present after defaulting. Otherwise the error names the first missing one, in that order. The template holds the defaulted attributes |
| IndivoDocs.FillTemplate | bin/indivo.py:147-166 | with every attribute of the refill table present, the refill template forms exactly when `date`, `days` and `q` are present, and otherwise names the first of them that is missing |
| IndivoDocs.MedTemplateFails | bin/indivo.py:168-189 | a defaulted medication's template forms exactly when `name`, `rxn`, `sig` and `start` are present and, when the frequency, quantity or prescriber is set by the record, its unit or id is too |
| IndivoDocs.MedTemplate | bin/indivo.py:176-189 | with `end`, `freq`, `qtt` and `prov` present, the medication template forms exactly when `name`, `rxn`, `frequnit`, `sig`, `prov_id`, `qttunit` and `start` are present |
| IndivoDocs.MedFails | bin/indivo.py:124-191 | a medication's document forms exactly when its record and every refill are complete. A missing `rxn` fails before any refill; otherwise the first incomplete refill's error is the medication's. The document holds the defaulted medication and refills |
| IndivoDocs.FillsFail | bin/indivo.py:145-166 | the refills before the first failing one are complete and the one there is not |
| IndivoDocs.MedProgress | bin/indivo.py:124-175 | how far `addMeds` got with one medication: how many refills it defaulted and whether it reached the medication's own defaulting; a medication that succeeds defaulted every refill and itself |
| IndivoDocs.MedModelComplete | bin/indivo.py:126-189 | a medication document has its four triggers set, every medication attribute its template reads, one refill per refill record, and each refill its triggers |
| IndivoDocs.RecordsSucceed | bin/indivo.py:107-191 | the problem and medication loops succeed exactly when every problem, medication and refill is complete; then they give the problem documents followed by the medication documents, from the defaulted attributes |
| IndivoDocs.CodedSucceeds | bin/indivo.py:34-35 | the immunization and vital-signs loops succeed exactly when every immunization and reading model forms; then there is one document per immunization and reading |
| IndivoDocs.Collect | bin/indivo.py:229-252 | defines a builder loop that appends one document per result and stops at its first error, keeping what it appended |
| IndivoDocs.CollectFail | bin/indivo.py:229-252 | a run of builders fails exactly when some step fails |
| IndivoDocs.CollectLayout | bin/indivo.py:229-252 | a run without failure yields one document per step, in order |
| IndivoDocs.CollectStops | bin/indivo.py:229-252 | the first failure ends the run with the documents before it kept |
| IndivoDocs.CollectPrefixErr | bin/indivo.py:283-303 | after a failure, later steps change nothing |
| IndivoDocs.ImmunizationsLayout | bin/indivo.py:227-252 | the immunizations fail exactly when a record's model does not form; otherwise one document per record, in order |
| IndivoDocs.ImmunizationResults | bin/indivo.py:230-252 | one immunization result per record, each the record's model or its error |
| IndivoDocs.ImmunizationOutcome | bin/indivo.py:227-252 | defines `addImmunizations`: the documents up to the first record that raises, and its error |
| IndivoDocs.CleanVitalsDate | bin/indivo.py:277-281 | appends `Z` only when it is not already last and turns every space into `T`; the result ends in `Z` and has no space |
| IndivoDocs.CleanVitalsDateIdempotent | bin/indivo.py:277-281 | cleaning a cleaned date changes nothing |
| IndivoDocs.CleanVitalsDateIso | bin/indivo.py:277-281 | `date time` becomes the ISO 8601 UTC form `dateTtimeZ` |
| IndivoDocs.Label | bin/indivo.py:269 | defines the prefix a measurement is rendered under: `indivo_prefix` when the type has one, otherwise its name |
| IndivoDocs.BpType | bin/indivo.py:259 | defines `getBP`'s write: the type's `indivo_prefix` becomes `bp_` plus its name, and nothing else changes |
| IndivoDocs.Measure | bin/indivo.py:262-275 | a measurement forms exactly when the type's URI codes. It is under the type's prefix if set, else its name, and has the type's unit and the reading's value |
| IndivoDocs.HasSystolic | bin/indivo.py:289 | defines `v.systolic` as a condition: the attribute is present and non-empty |
| IndivoDocs.ReadingModel | bin/indivo.py:284-303 | a reading's model forms exactly when its general measurements code, it has a `systolic` attribute, and, when that is non-empty, both pressure types code. Measured readings without the attribute fail with `MissingAttribute("systolic")` |
| IndivoDocs.MeasurementsOk | bin/indivo.py:286-287 | a reading's general measurements all form exactly when every type's URI codes |
| IndivoDocs.MeasurementsLayout | bin/indivo.py:286-287 | one measurement per type, in catalog order |
| IndivoDocs.MeasurementsPrefixErr | bin/indivo.py:286-287 | the first coding error of the loop is the reading's error |
| IndivoDocs.Measurements | bin/indivo.py:285-287 | defines the loop over the general vital types: one measurement per type, in catalog order, stopping at the first coding error |
| IndivoDocs.ReadingReady | bin/indivo.py:265-301 | defines what a reading needs for `addVitals` not to crash outside the modelled errors: every vital value asked for exists and the three dates are non-empty |
| IndivoDocs.ReadingResults | bin/indivo.py:284-303 | one result per reading, each that reading's `ReadingModel` |
| IndivoDocs.VitalsOutcome | bin/indivo.py:254-303 | defines `addVitals`: the vital-signs documents up to the first reading that raises, and its error |
| IndivoDocs.CodedOutcome | bin/indivo.py:34-35 | defines `addImmunizations`, then `addVitals` unless an immunization raised |
| IndivoDocs.ProfileOutcome | bin/indivo.py:26-36 | defines what `_populate` appends: the labs, then the problems and medications; unless one raised, the allergies, the immunizations and the vital signs; the error is the first one raised |
| IndivoDocs.ProfileSucceeds | bin/indivo.py:26-36 | population fails exactly when a problem, medication or refill record is incomplete, or an immunization or a reading fails; a record error is the population's error. Labs always come first. Without failure, there is one document per kept lab, problem, medication, allergy, immunization and reading |
| IndivoDocs.ReadingPrefixes | bin/indivo.py:257-291 | the general measurements are exactly those of every general type in catalog order, each under its label. A reading with a systolic value adds exactly two more: the systolic and diastolic measurements, prefixed `bp_` plus the type names and holding the reading's pressures |
| IndivoDocs.ReadingDates | bin/indivo.py:293-302 | the document's date, start and end are `cleanVitalsDate` of the reading's timestamp, start date and end date; each therefore ends in `Z` and has no space. The encounter type is set exactly for ambulatory encounters |
| IndivoPatient.AttrsOf | bin/indivo.py:110 | the attribute maps of the problem records, one per record, as they currently are |
| IndivoPatient.MedSnapshot | bin/indivo.py:124-145 | the attributes of every medication and refill record, as they currently are |
| IndivoPatient.AttrsFrame | bin/indivo.py:110 | the problem attributes depend only on the problem records |
| IndivoPatient.SnapshotFrame | bin/indivo.py:124-145 | the medication snapshot depends only on the medication and refill records |
| IndivoPatient.ProblemsAtOf | bin/indivo.py:110-112 | problem records defaulted exactly when they are in the touched set hold their defaulted attributes, the others their earlier ones |
| IndivoPatient.MedsAtOf | bin/indivo.py:124-175 | the same for the medication and refill records |
| IndivoPatient.RecordsAfterSucceeded | bin/indivo.py:107-191 | when neither loop raised, every problem, medication and refill record holds its defaulted attributes |
| IndivoPatient.DefaultFills | bin/indivo.py:145-166 | the refill records of a medication are defaulted in place, in order, up to and including the first whose template fails; its error is returned, and otherwise the defaulted attributes of every refill |
| IndivoPatient.DefaultOne | bin/indivo.py:146 | one record of a group gets its defaults in place; the other records keep their state |
| IndivoPatient.FillStep | bin/indivo.py:145-166 | one refill is defaulted in place; its template's error is the refill's error, and otherwise the refills read so far stay defaulted and complete |
| IndivoPatient.FillsStop | bin/indivo.py:145-166 | a refill that fails after complete ones is the first failure of the list, and the records defaulted are those up to it |
| IndivoPatient.FillsDone | bin/indivo.py:145-166 | when every refill is complete, all were defaulted and the defaulted attributes are returned |
| IndivoPatient.DefaultMed | bin/indivo.py:124-189 | one medication: a missing `rxn` fails before anything is defaulted; otherwise its refills are defaulted up to the first failing one, then the medication itself, and the result is its model or the first error |
| IndivoPatient.VitalCatalog.constructor | bin/indivo.py:286-291 | a catalog holds the general vital types, which the loop only reads, and the systolic and diastolic types, which `getBP` updates |
| IndivoPatient.AnySystolic | bin/indivo.py:289 | defines, reading by reading, that some reading has a truthy `systolic` |
| IndivoPatient.ReadingCatalog | bin/indivo.py:257-291 | defines the catalog after one reading: `getBP` prefixes the systolic type once the general types are measured, and the diastolic type once the systolic measurement succeeded; a reading without a systolic value leaves it |
| IndivoPatient.VitalsCatalog | bin/indivo.py:283-303 | defines the catalog after the readings, reading by reading; the reading that raises is the last to change it |
| IndivoPatient.CodedCatalog | bin/indivo.py:34-35 | defines the catalog after the coded steps: unchanged when an immunization raised, as `addVitals` leaves it otherwise |
| IndivoPatient.PopulateCatalog | bin/indivo.py:26-35 | defines the catalog after `_populate`: unchanged when `addProblems` or `addMeds` raised, as the coded steps leave it otherwise |
| IndivoPatient.VitalsCatalogSettled | bin/indivo.py:257-291 | when no reading fails, the catalog's two blood-pressure types end up `bp_`-prefixed exactly when some reading has a systolic value, and are left as they were otherwise |
| IndivoPatient.VitalsCatalogAllOk | bin/indivo.py:281-291 | the same for any starting catalog state: a systolic reading anywhere sets both prefixes, and none leaves the state untouched |
| IndivoPatient.AnySystolicExists | bin/indivo.py:289 | the reading-by-reading `AnySystolic` holds exactly when some reading of the list has a truthy `systolic` |
| IndivoPatient.MeasureTypes | bin/indivo.py:286-287 | the loop over the general types yields exactly the measurements of the specification, stopping at the first error |
| IndivoPatient.MeasureReading | bin/indivo.py:284-303 | one reading's model, failing on a reading without a `systolic` attribute, with the catalog's two blood-pressure types given their `bp_` prefix when the reading has a systolic value |
| IndivoPatient.DocFileName | bin/indivo.py:60 | defines the file name `doc_<i>.xml` of the i-th document |
| IndivoPatient.DocFileNamesDistinct | bin/indivo.py:59-61 | `doc_<i>.xml` names are distinct and never `Demographics.xml` or `Contact.xml` |
| IndivoPatient.DocFiles | bin/indivo.py:59-61 | defines the `enumerate` loop: each document under its index's file name, in order |
| IndivoPatient.DocFilesLayout | bin/indivo.py:59-61 | the i-th document is written to `doc_<i>.xml` |
| IndivoPatient.ProfileFiles | bin/indivo.py:50-61 | defines a profile's files: `Demographics.xml`, `Contact.xml`, then the document files |
| IndivoPatient.ProfileFilesLayout | bin/indivo.py:50-61 | a profile holds the demographics, the contact, then every document once, in order |
| IndivoPatient.ProfileFilesDistinct | bin/indivo.py:50-61 | no two files of a profile share a name, so no write overwrites another |
| IndivoPatient.SamplePatient.constructor | bin/indivo.py:16-24 | a new patient is unpopulated, without documents, with the full name `fname lname` |
| IndivoPatient.SamplePatient.AddDemographics | bin/indivo.py:66-68 | sets the demographics document from the date of birth and gender, nothing else |
| IndivoPatient.SamplePatient.AddContact | bin/indivo.py:70-86 | sets the contact document from the full name and person record, nothing else |
| IndivoPatient.SamplePatient.AddLabs | bin/indivo.py:88-105 | appends exactly the kept lab documents |
| IndivoPatient.SamplePatient.AddProblems | bin/indivo.py:107-119 | defaults the problem records in place up to the first incomplete one and appends one document per problem before it; the error names the first missing attribute |
| IndivoPatient.SamplePatient.AddProblemAt | bin/indivo.py:110-119 | one problem is defaulted and its document appended, or its error reported |
| IndivoPatient.SamplePatient.AddMeds | bin/indivo.py:121-191 | defaults the medication and refill records in place with the code's tables, as far as the loop gets, and appends one document per medication up to the first incomplete one, whose error is returned |
| IndivoPatient.SamplePatient.AddMedsWith | bin/indivo.py:121-191 | the same for any self-setting tables that do not write `rxn` |
| IndivoPatient.SamplePatient.DefaultEachMed | bin/indivo.py:124-191 | the loop over medications stops at the first failing one; every record ends defaulted exactly when the loop reached it |
| IndivoPatient.SamplePatient.AddMedAt | bin/indivo.py:124-191 | one medication's refills, then the medication, are defaulted as far as its template allows, and its document appended or its error reported |
| IndivoPatient.SamplePatient.AddAllergies | bin/indivo.py:193-225 | appends exactly the allergy documents of the numeric id |
| IndivoPatient.SamplePatient.AddImmunizations | bin/indivo.py:227-252 | appends the immunization documents up to the first failure and reports that failure |
| IndivoPatient.SamplePatient.AddVitals | bin/indivo.py:254-303 | appends the vital-signs documents up to the first failure. The catalog's final blood-pressure types are those the reading-by-reading catalog specification gives, the `bp_` prefix written in place by `getBP`. On success, the catalog's blood-pressure types carry the `bp_` prefix exactly when some reading has a systolic value |
| IndivoPatient.SamplePatient.VitalsStep | bin/indivo.py:284-303 | one reading's document is appended, the error is set exactly when that reading's model fails, and the catalog takes the blood-pressure prefixes that reading gives it |
| IndivoPatient.SamplePatient.AppendResult | bin/indivo.py:303 | a model is appended; the error is set exactly when the result is a failure |
| IndivoPatient.SamplePatient.PopulateRecords | bin/indivo.py:28-32 | demographics and contact set; lab documents, then the problem and medication documents up to the first incomplete record, whose error is returned; the records as far as the loops got are defaulted; the populated flag untouched |
| IndivoPatient.SamplePatient.AddRecordDocs | bin/indivo.py:31-32 | the problem documents, then the medication documents, built from the attributes before defaulting and stopping at the first incomplete record; the records the loops reached are defaulted, the others keep their attributes |
| IndivoPatient.SamplePatient.PopulateCoded | bin/indivo.py:34-35 | the immunization documents and, unless one failed, the vital-signs documents; the catalog untouched when an immunization failed, otherwise as the vitals loop leaves it |
| IndivoPatient.SamplePatient.PopulateRest | bin/indivo.py:33-36 | the allergy and coded documents and catalog state, the populated flag set exactly when no builder raised, and the records, demographics and contact left as they were |
| IndivoPatient.SamplePatient.Populate | bin/indivo.py:26-36 | appends all the documents of `_populate` in order, up to the first error; the patient is marked populated only when no builder raised. Demographics and contact are set, the records the loops reached are defaulted, all of them on success, and the catalog's blood-pressure types are those of the immunization and vitals loops |
| IndivoPatient.SamplePatient.WritePatientData | bin/indivo.py:38-64 | populates the patient first if need be, with the records, catalog, demographics and contact `_populate` leaves behind; an already populated patient changes no record and no catalog. A builder's error, including an incomplete record, propagates and nothing is written. Otherwise the patient is skipped when the directory exists, or `patient_<pid>` is written with every file |
| IndivoPatient.SamplePatient.WriteProfile | bin/indivo.py:45-61 | an existing directory means the patient is skipped; otherwise Demographics, Contact and one file per document |
| Query.Fields | bin/pipeline/query_patients.py:28-40 | there are six search fields, in the code's fixed order |
| Query.Given | bin/pipeline/query_patients.py:29-39 | defines `if args.x:` on an optional argument: present and non-empty |
| Query.Pattern | bin/pipeline/query_patients.py:30-40 | every pattern begins with the `?person ` subject |
| Query.PatternHoldsValue | bin/pipeline/query_patients.py:30-40 | the value is inserted verbatim, in single quotes, or in angle brackets for the external id |
| Query.Emit | bin/pipeline/query_patients.py:29-40 | defines one `if args.x:` block: the field's pattern when its value is given, nothing otherwise |
| Query.PatternsOf | bin/pipeline/query_patients.py:28-40 | defines the reference list of patterns: one per given field, in field order |
| Query.PatternsCount | bin/pipeline/query_patients.py:28-40 | one statement per given field, each a pattern on `?person` |
| Query.Statements | bin/pipeline/query_patients.py:28-40 | the conditional appends build exactly the patterns of the given fields, in order |
| Query.TemplateHasOnePlaceholder | bin/pipeline/query_patients.py:18-26 | the template has no `$` outside its one placeholder |
| Query.RunQuery | bin/pipeline/query_patients.py:43 | the query is the template with the joined statements in place of the placeholder and the rest unchanged |
| Query.NoFieldsQuery | bin/pipeline/query_patients.py:18-43 | with no field given, the placeholder becomes empty and only the `?person rdf:type foaf:Person` pattern remains |
| Query.GivenNameOnlyQuery | bin/pipeline/query_patients.py:29-43 | a given name alone yields exactly its one pattern |
| Query.FamilyNameAndZipQuery | bin/pipeline/query_patients.py:31-43 | family name and zip code yield their two patterns, joined by `. \n`, in that order |

## Left out

- Template rendering (string.Template, jinja2) and XML text. A fragment or document is the record of the values its template receives.
- File and directory I/O: `open`, `print >>`, `os.mkdir`. The generator's output is the fragment sequence. The existing-directory case is the `dirExists` input. Files partly written before a later `OSError` are not modelled.
- `datetime.now()` for the feed's update time. It is not part of the model.
- The ontology service. `coded_value`'s title lookup through `rdflib` is a `titles` map from URI to title.
- Numeric parsing. Whether `float()` accepts a lab value is a flag (`numeric`). A vital value is an `Option<Number>`: `None` when `float()` rejects the text, `NonFinite` for `nan` and the infinities, otherwise an exact real. Binary floating-point rounding is not modelled. `int(self.pid)` is the given `pidValue`.
- The loaders (`Patient.mpi`, `Med.meds`, `Refill.refill_list`, `VitalSigns.vitals`, …). They are inputs, and a patient absent from a loader's table has an empty sequence. bin/vitals.py and the other loader files are not part of this model.
- Dictionary iteration order of the default tables (`subs.iteritems()`). The tables are sequences in source order.
- Printing, argparse and the SMART client call of `run_query`. The parsed arguments are the input and the query text is the output.
- FhirBundle.WritePatientData: the patient entry's fixed reference `Patient/<pid>` is not a counter token and is excluded from the token-uniqueness lemmas.
- IndivoDocs.CleanVitalsDate: requires a non-empty date; the source raises `IndexError` on an empty one.
- IndivoPatient.SamplePatient.AddVitals: requires every reading to be `ReadingReady` (all vital values present, non-empty dates). In the source, a missing value makes `getVital` return `None`, and the join raises. A missing `systolic` attribute is not excluded: it is the error `MissingAttribute`.
- IndivoPatient.SamplePatient.Populate: also requires `ReadingReady` readings, for the same reason.
- IndivoPatient.SamplePatient.WritePatientData: also requires `ReadingReady` readings, for the same reason.
- IndivoPatient.SamplePatient.AddMeds: requires that no medication record is also a refill record. They come from different loader classes.
- IndivoPatient.SamplePatient.Populate: also requires that no problem record is a medication or refill record, for the same reason.
- IndivoPatient.SamplePatient.AddRecordDocs: requires the record sets to be apart, as `Populate` does; `PopulateRecords` shares these requires.
- IndivoPatient.SamplePatient.AddMedsWith: requires that no table entry writes `rxn`, so that the `rxn` check before the defaulting sees what the template later reads. The code's tables do not.
- IndivoPatient.SamplePatient.PopulateRest: requires `ReadingReady` readings and the demographics and contact already set. It is the second half of `_populate`, and the second requires is what the first half leaves behind.
- IndivoPatient.SamplePatient.WriteProfile: the output directory is `patient_<pid>`, not joined onto the generator's output directory (`os.path.join` at bin/indivo.py:46). The messages printed at bin/indivo.py:40 and bin/indivo.py:64 are not modelled.
- IndivoPatient.VitalCatalog: the general vital types are a fixed list, and they are assumed never to be the same objects as the systolic and diastolic types, so `getBP`'s prefix update does not reach them. The catalog's construction in bin/vitals.py is not part of this model.
