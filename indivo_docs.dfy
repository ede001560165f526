/** The documents of the discrete-document generator (bin/indivo.py) as
    values: what each `add*` step of `IndivoSamplePatient` puts into the
    patient's data list, and the string splits and date clean-up it applies
    on the way. Rendering a document to XML is not modelled: a document is
    the record of the values its template receives. */
module IndivoDocs {
  import opened Wrappers
  import opened Text
  import opened Defaults

  /** The exceptions the document builders raise and the model reports:
      an ontology URI without a title (the `[0]` on an empty triple list),
      a URI with neither `#` nor `/` to split at, a code that
      `rsplit("#", 1)` cannot unpack into two parts, and a reading without
      the attribute `addVitals` tests unguarded (an `AttributeError`). */
  datatype IndivoError =
    | MissingTitle(uri: string)
    | NoSeparator(uri: string)
    | MalformedCode(code: string)
    | MissingAttribute(name: string)

  // ---------------------------------------------------------------------------
  // coded_value

  /** The triple `coded_value` returns: (system, title, identifier). */
  datatype Coded = Coded(system: string, title: string, ident: string)

  /** The separator `coded_value` splits at. */
  function Separator(uri: string): char {
    if '#' in uri then '#' else '/'
  }

  /** `coded_value(uri)`, with the ontology's titles given as a map from URI
      to title. The title is looked up first; the URI is then split at the
      last `#` when it has one, otherwise at the last `/`, and the separator
      stays on the system part. */
  function CodedValue(uri: string, titles: map<string, string>): (r: Result<Coded, IndivoError>)
    ensures r.Ok? <==> uri in titles && ('#' in uri || '/' in uri)
    ensures uri !in titles ==> r == Err(MissingTitle(uri))
    ensures uri in titles && '#' !in uri && '/' !in uri ==> r == Err(NoSeparator(uri))
    ensures r.Ok? ==> r.value.title == titles[uri] && r.value.system + r.value.ident == uri
    ensures r.Ok? ==> r.value.system != [] && r.value.system[|r.value.system| - 1] == Separator(uri)
    ensures r.Ok? ==> Separator(uri) !in r.value.ident
    ensures r.Ok? && '#' in uri ==> '#' !in r.value.ident
  {
    if uri !in titles then Err(MissingTitle(uri))
    else
      var sep := Separator(uri);
      match SplitLast(uri, sep)
      case None => Err(NoSeparator(uri))
      case Some(parts) =>
        assert parts.0 + [sep] + parts.1 == uri;
        Ok(Coded(parts.0 + [sep], titles[uri], parts.1))
  }

  // ---------------------------------------------------------------------------
  // Immunizations

  /** An immunization record as the loader supplies it; an empty string is a
      missing (falsy) value, and the optional titles are `None` when absent. */
  datatype Immunization = Immunization(
    date: string,
    administrationStatus: string,
    vg: string, vgTitle: Option<string>,
    vg2: string, vg2Title: Option<string>,
    cvx: string, cvxTitle: string,
    refusalReason: string)

  /** The second half of `code.rsplit("#", 1)` unpacked into two names. */
  function CodeAfterHash(code: string): (r: Result<string, IndivoError>)
    ensures r.Ok? <==> '#' in code
    ensures r.Err? ==> r.error == MalformedCode(code)
    ensures r.Ok? ==> '#' !in r.value && |r.value| < |code|
    ensures r.Ok? ==> code[|code| - |r.value|..] == r.value && code[|code| - |r.value| - 1] == '#'
  {
    match SplitLast(code, '#')
    case None => Err(MalformedCode(code))
    case Some(parts) =>
      assert code == parts.0 + ['#'] + parts.1;
      assert code[|code| - |parts.1|..] == parts.1;
      Ok(parts.1)
  }

  /** A split that is skipped (yielding `''`) when the code is empty. */
  function OptionalCode(code: string): (r: Result<string, IndivoError>)
    ensures code == "" ==> r == Ok("")
    ensures code != "" ==> r == CodeAfterHash(code)
  {
    if code == "" then Ok("") else CodeAfterHash(code)
  }

  /** `x or ''` on an optional title. */
  function OrEmpty(t: Option<string>): string {
    match t
    case None => ""
    case Some(s) => s
  }

  /** The SDMX models the generator wraps into documents. */
  datatype Model =
    | ProblemModel(attrs: map<string, Value>)
    | MedicationModel(attrs: map<string, Value>, fills: seq<map<string, Value>>)
    | AllergyExclusion(exclusion: string, exclusionId: string)
    | DrugClassAllergy(allergy: Allergy)
    | FoodAllergy(allergy: Allergy)
    | ImmunizationModel(
        date: string,
        admStatus: string, admStatusId: string,
        prodClass: string, prodClassId: string,
        prodClass2: string, prodClass2Id: string,
        prodName: string, prodNameId: string,
        refusal: string, refusalId: string)
    | VitalSignsModel(date: string, start: string, end: string, ambulatory: bool, measurements: seq<Measurement>)

  /** The values of an allergy template. */
  datatype Allergy = Allergy(
    reaction: string, reactionId: string,
    category: string, categoryId: string,
    allergen: string, allergenId: string,
    severity: string, severityId: string)

  /** The refusal part: a coded value when a refusal reason is given. */
  function Refusal(reason: string, titles: map<string, string>): (r: Result<(string, string), IndivoError>)
    ensures reason == "" ==> r == Ok(("", ""))
    ensures reason != "" ==> (r.Ok? <==> CodedValue(reason, titles).Ok?)
    ensures reason != "" && r.Ok? ==> r.value == (CodedValue(reason, titles).value.title, CodedValue(reason, titles).value.ident)
  {
    if reason == "" then Ok(("", ""))
    else
      match CodedValue(reason, titles)
      case Err(e) => Err(e)
      case Ok(c) => Ok((c.title, c.ident))
  }

  /** The immunization model of one record, failing with the first error in
      the order the source evaluates the parts: administration status,
      vaccine group, second vaccine group, CVX code, refusal reason. */
  function ImmunizationModelOf(i: Immunization, titles: map<string, string>): Result<Model, IndivoError>
  {
    match CodedValue(i.administrationStatus, titles)
    case Err(e) => Err(e)
    case Ok(adm) =>
      match OptionalCode(i.vg)
      case Err(e) => Err(e)
      case Ok(classId) =>
        match OptionalCode(i.vg2)
        case Err(e) => Err(e)
        case Ok(class2Id) =>
          match CodeAfterHash(i.cvx)
          case Err(e) => Err(e)
          case Ok(nameId) =>
            match Refusal(i.refusalReason, titles)
            case Err(e) => Err(e)
            case Ok(refusal) =>
              Ok(ImmunizationModel(
                i.date, adm.title, adm.ident,
                OrEmpty(i.vgTitle), classId, OrEmpty(i.vg2Title), class2Id,
                i.cvxTitle, nameId, refusal.0, refusal.1))
  }

  /** Which records yield an immunization document, and what goes into it:
      the titles and identifiers of the coded parts, the code after the last
      `#` of each vaccine code, and the refusal reason's title and identifier,
      which are empty when there is no refusal reason. */
  lemma ImmunizationParts(i: Immunization, titles: map<string, string>)
    ensures var r := ImmunizationModelOf(i, titles);
      (r.Ok? <==>
        CodedValue(i.administrationStatus, titles).Ok?
        && OptionalCode(i.vg).Ok? && OptionalCode(i.vg2).Ok?
        && '#' in i.cvx
        && Refusal(i.refusalReason, titles).Ok?)
      && (r.Ok? ==> (r.value.ImmunizationModel?
        && r.value.date == i.date
        && r.value.admStatus == CodedValue(i.administrationStatus, titles).value.title
        && r.value.admStatusId == CodedValue(i.administrationStatus, titles).value.ident
        && r.value.prodClass == OrEmpty(i.vgTitle) && r.value.prodClassId == OptionalCode(i.vg).value
        && r.value.prodClass2 == OrEmpty(i.vg2Title) && r.value.prodClass2Id == OptionalCode(i.vg2).value
        && r.value.prodName == i.cvxTitle && r.value.prodNameId == CodeAfterHash(i.cvx).value
        && (i.refusalReason == "" ==> r.value.refusal == "" && r.value.refusalId == "")
        && (i.refusalReason != "" ==>
              r.value.refusal == CodedValue(i.refusalReason, titles).value.title
              && r.value.refusalId == CodedValue(i.refusalReason, titles).value.ident)))
      && (!CodedValue(i.administrationStatus, titles).Ok? ==> r == Err(CodedValue(i.administrationStatus, titles).error))
  {
  }

  // ---------------------------------------------------------------------------
  // Documents

  /** The person record the demographics and contact documents are filled from. */
  datatype Person = Person(
    fname: string, lname: string, dob: string, gender: string,
    email: string, street: string, zip: string, city: string,
    region: string, country: string, home: string, cell: string)

  /** A lab result as the loader supplies it; `numeric` says whether
      `float(value)` succeeds. */
  datatype IndivoLab = IndivoLab(
    date: string, code: string, name: string, value: string,
    units: string, low: string, high: string, scale: string, numeric: bool)

  /** One document of the patient's data profile. */
  datatype Document =
    | DemographicsDoc(dob: string, gender: string)
    | ContactDoc(fullname: string, person: Person)
    | LabDoc(date: string, loinc: string, name: string, value: string, units: string, low: string, high: string)
    | Sdmx(model: Model)

  /** The lab document of one result. */
  function LabDocOf(l: IndivoLab): Document {
    LabDoc(l.date, l.code, l.name, l.value, l.units, l.low, l.high)
  }

  /** The lab filter: a result is written when its value is numeric and its
      scale is anything but `Qn`. */
  predicate LabKept(l: IndivoLab) {
    l.numeric && l.scale != "Qn"
  }

  /** The lab documents of a patient, in input order. */
  function LabDocs(labs: seq<IndivoLab>): seq<Document> {
    if labs == [] then []
    else
      var l := labs[|labs| - 1];
      LabDocs(labs[..|labs| - 1]) + (if LabKept(l) then [LabDocOf(l)] else [])
  }

  const NoKnownAllergies: Model := AllergyExclusion("no known allergies", "160244002")

  const SulfaAllergy: Model := DrugClassAllergy(Allergy(
    "skin rash", "271807003", "drug allergy", "416098002",
    "sulfonamide antibacterial", "N0000175503", "mild", "255604002"))

  const PeanutAllergy: Model := FoodAllergy(Allergy(
    "anaphylaxis", "39579001", "food allergy", "414285001",
    "peanut", "QE1QX6B99R", "severe", "24484000"))

  /** The allergy documents, a function of the numeric patient id alone. The
      second append sits after the `if`, so an even id from 85 on (modulo
      100) gets the drug-class allergy twice. Python's `%` by a positive
      divisor agrees with Dafny's. */
  function AllergyDocs(pid: int): seq<Document> {
    if pid % 100 < 85 then [Sdmx(NoKnownAllergies)]
    else
      var second := if pid % 2 != 0 then PeanutAllergy else SulfaAllergy;
      [Sdmx(SulfaAllergy), Sdmx(second)]
  }

  /** The outcome of a builder that appends documents one at a time and
      stops at its first error, keeping what it appended before. */
  datatype Outcome = Outcome(docs: seq<Document>, error: Option<IndivoError>)

  /** The documents of a run of builder results, up to the first failure. */
  function Collect(results: seq<Result<Model, IndivoError>>): Outcome {
    if results == [] then Outcome([], None)
    else
      var before := Collect(results[..|results| - 1]);
      if before.error.Some? then before
      else
        match results[|results| - 1]
        case Err(e) => Outcome(before.docs, Some(e))
        case Ok(m) => Outcome(before.docs + [Sdmx(m)], None)
  }

  /** The immunization models of a patient's records, one result per record. */
  function ImmunizationResults(imms: seq<Immunization>, titles: map<string, string>): (rs: seq<Result<Model, IndivoError>>)
    ensures |rs| == |imms|
    ensures forall k :: 0 <= k < |imms| ==> rs[k] == ImmunizationModelOf(imms[k], titles)
  {
    seq(|imms|, k requires 0 <= k < |imms| => ImmunizationModelOf(imms[k], titles))
  }

  /** The immunization documents of a patient, up to the first failure. */
  function ImmunizationOutcome(imms: seq<Immunization>, titles: map<string, string>): Outcome {
    Collect(ImmunizationResults(imms, titles))
  }

  // ---------------------------------------------------------------------------
  // Problems and medications

  /** The index of the first of `names` a record lacks, or `|names|`. A
      template's keyword arguments are evaluated in order, and reading an
      attribute the record lacks raises `AttributeError` there. */
  function MissingAt(attrs: map<string, Value>, names: seq<string>): (i: nat)
    ensures i <= |names|
    ensures forall j :: 0 <= j < i ==> names[j] in attrs
    ensures i < |names| ==> names[i] !in attrs
  {
    if names == [] then 0
    else
      var i := MissingAt(attrs, names[..|names| - 1]);
      if i < |names| - 1 then i
      else if names[|names| - 1] !in attrs then |names| - 1
      else |names|
  }

  /** No attribute is missing exactly when every name is present. */
  lemma MissingNone(attrs: map<string, Value>, names: seq<string>)
    ensures MissingAt(attrs, names) == |names| <==> forall n :: n in names ==> n in attrs
  {
    var i := MissingAt(attrs, names);
    if i < |names| {
      assert names[i] in names;
    }
  }

  /** The attributes the problem template reads, in the order of its keyword
      arguments. */
  const ProblemFields: seq<string> := ["start", "end", "snomed", "name"]

  /** The attributes the refill template reads, in order. */
  const FillFields: seq<string> := [
    "date", "days", "pbm", "ncpdp", "pharm_org", "pharm_co", "pharm_ci", "pharm_pc", "pharm_st",
    "pharm_re", "prov_dea", "prov_npi", "prov_email", "prov_fn", "prov_ln", "prov_tel", "q", "qunit"]

  /** The attributes the medication template reads, in order. */
  const MedFields: seq<string> := [
    "name", "rxn", "end", "freq", "frequnit", "sig", "prov", "prov_id", "qtt", "qttunit", "start"]

  /** A template filled from a record's attributes: the error of the first
      attribute it reads that the record lacks, or the record. */
  function Template(attrs: map<string, Value>, names: seq<string>): Result<map<string, Value>, IndivoError> {
    var i := MissingAt(attrs, names);
    if i < |names| then Err(MissingAttribute(names[i])) else Ok(attrs)
  }

  /** The problem model of one problem: its end-date default, then the
      problem template. */
  function ProblemResult(attrs: map<string, Value>): Result<Model, IndivoError> {
    match Template(Defaulted(attrs, ProblemDefaults), ProblemFields)
    case Err(e) => Err(e)
    case Ok(d) => Ok(ProblemModel(d))
  }

  /** The problem models of a patient's problems, one result per problem. */
  function ProblemResults(problems: seq<map<string, Value>>): (rs: seq<Result<Model, IndivoError>>)
    ensures |rs| == |problems|
    ensures forall k :: 0 <= k < |problems| ==> rs[k] == ProblemResult(problems[k])
  {
    seq(|problems|, k requires 0 <= k < |problems| => ProblemResult(problems[k]))
  }

  /** The problem documents of a patient, up to the first failure. */
  function ProblemOutcome(problems: seq<map<string, Value>>): Outcome {
    Collect(ProblemResults(problems))
  }

  /** A medication's attributes and the attributes of its refills. */
  datatype MedValues = MedValues(med: map<string, Value>, fills: seq<map<string, Value>>)

  /** The refills of a medication, each after the table's defaults are set. */
  function FillsDefaulted(fills: seq<map<string, Value>>, subs: seq<Entry>): (r: seq<map<string, Value>>)
    ensures |r| == |fills|
    ensures forall k :: 0 <= k < |fills| ==> r[k] == Defaulted(fills[k], subs)
  {
    seq(|fills|, k requires 0 <= k < |fills| => Defaulted(fills[k], subs))
  }

  /** One refill: the table's defaults, then the refill template. */
  function FillResult(f: map<string, Value>, subs: seq<Entry>): Result<map<string, Value>, IndivoError> {
    Template(Defaulted(f, subs), FillFields)
  }

  /** The refills of a medication, one result per refill. */
  function FillResults(fills: seq<map<string, Value>>, subs: seq<Entry>): (rs: seq<Result<map<string, Value>, IndivoError>>)
    ensures |rs| == |fills|
    ensures forall k :: 0 <= k < |fills| ==> rs[k] == FillResult(fills[k], subs)
  {
    seq(|fills|, k requires 0 <= k < |fills| => FillResult(fills[k], subs))
  }

  /** The index of the first failing result, or the number of results. */
  function FirstFailure<T>(rs: seq<Result<T, IndivoError>>): (b: nat)
    ensures b <= |rs|
    ensures forall k :: 0 <= k < b ==> rs[k].Ok?
    ensures b < |rs| ==> rs[b].Err?
  {
    if rs == [] then 0
    else
      var b := FirstFailure(rs[..|rs| - 1]);
      if b < |rs| - 1 then b
      else if rs[|rs| - 1].Err? then |rs| - 1
      else |rs|
  }

  /** How many results a loop that stops at its first failure reaches: those
      before the failure and the failing one. */
  function Reached<T>(rs: seq<Result<T, IndivoError>>): (n: nat)
    ensures n <= |rs|
  {
    var b := FirstFailure(rs);
    if b < |rs| then b + 1 else |rs|
  }

  /** The medication model of one medication, in `addMeds`' order: `m.rxn`
      is read to list the refills, then each refill is defaulted and filled
      in, then the medication is defaulted and filled in. The first missing
      attribute is the error. */
  function MedResult(m: MedValues, medSubs: seq<Entry>, fillSubs: seq<Entry>): Result<Model, IndivoError> {
    if "rxn" !in m.med then Err(MissingAttribute("rxn"))
    else
      var fs := FillResults(m.fills, fillSubs);
      var b := FirstFailure(fs);
      if b < |fs| then Err(fs[b].error)
      else
        match Template(Defaulted(m.med, medSubs), MedFields)
        case Err(e) => Err(e)
        case Ok(d) => Ok(MedicationModel(d, FillsDefaulted(m.fills, fillSubs)))
  }

  /** How far `addMeds` gets with one medication: how many of its refill
      records it defaults, and whether it defaults the medication record. */
  function MedProgress(m: MedValues, medSubs: seq<Entry>, fillSubs: seq<Entry>): (p: (nat, bool))
    ensures p.0 <= |m.fills|
    ensures MedResult(m, medSubs, fillSubs).Ok? ==> p == (|m.fills|, true)
  {
    if "rxn" !in m.med then (0, false)
    else
      var fs := FillResults(m.fills, fillSubs);
      (Reached(fs), FirstFailure(fs) == |fs|)
  }

  /** The medication models of a patient's medications, one result each. */
  function MedResults(meds: seq<MedValues>, medSubs: seq<Entry>, fillSubs: seq<Entry>): (rs: seq<Result<Model, IndivoError>>)
    ensures |rs| == |meds|
    ensures forall j :: 0 <= j < |meds| ==> rs[j] == MedResult(meds[j], medSubs, fillSubs)
  {
    seq(|meds|, j requires 0 <= j < |meds| => MedResult(meds[j], medSubs, fillSubs))
  }

  /** The medication documents of a patient, up to the first failure. */
  function MedOutcome(meds: seq<MedValues>, medSubs: seq<Entry>, fillSubs: seq<Entry>): Outcome {
    Collect(MedResults(meds, medSubs, fillSubs))
  }

  /** `addProblems` and then, unless it raised, `addMeds`. */
  function RecordOutcome(problems: seq<map<string, Value>>, meds: seq<MedValues>): Outcome {
    var p := ProblemOutcome(problems);
    if p.error.Some? then p
    else
      var m := MedOutcome(meds, MedDefaults, FillDefaults);
      Outcome(p.docs + m.docs, m.error)
  }

  // ---------------------------------------------------------------------------
  // Vitals

  /** `cleanVitalsDate`: append `Z` unless it is already the last character,
      then turn every space into `T`. Indexing `date_str[-1]` fails on an
      empty string, which the precondition excludes. */
  function CleanVitalsDate(s: string): (r: string)
    requires s != ""
    ensures |r| == if s[|s| - 1] == 'Z' then |s| else |s| + 1
    ensures forall i :: 0 <= i < |s| ==> r[i] == if s[i] == ' ' then 'T' else s[i]
    ensures r != [] && r[|r| - 1] == 'Z'
    ensures ' ' !in r
  {
    var z := if s[|s| - 1] != 'Z' then s + "Z" else s;
    ReplaceAllChar(z, ' ', 'T');
    ReplaceAll(z, " ", "T")
  }

  /** A vital type as the catalog lists it; `prefix` is the optional
      `indivo_prefix` entry. */
  datatype VitalType = VitalType(name: string, uri: string, unit: string, prefix: Option<string>)

  /** The prefix a measurement of `vt` is rendered under. */
  function Label(vt: VitalType): string {
    match vt.prefix
    case None => vt.name
    case Some(p) => p
  }

  /** `getBP`'s update of a blood-pressure type. */
  function BpType(vt: VitalType): VitalType {
    vt.(prefix := Some("bp_" + vt.name))
  }

  /** One measurement of a vital-signs document. */
  datatype Measurement = Measurement(prefix: string, unit: string, value: string, title: string, ident: string, system: string)

  /** A vital-signs reading: its named values and its dates. */
  datatype VitalReading = VitalReading(
    values: map<string, string>, startDate: string, endDate: string,
    timestamp: string, encounterType: string)

  /** `v.systolic` taken as a condition. */
  predicate HasSystolic(v: VitalReading) {
    "systolic" in v.values && v.values["systolic"] != ""
  }

  /** `getVital(vt)` for reading `v`. */
  function Measure(vt: VitalType, v: VitalReading, titles: map<string, string>): (r: Result<Measurement, IndivoError>)
    requires vt.name in v.values
    ensures r.Ok? <==> CodedValue(vt.uri, titles).Ok?
    ensures r.Err? ==> r.error == CodedValue(vt.uri, titles).error
    ensures r.Ok? ==> (r.value.prefix == Label(vt) && r.value.unit == vt.unit
      && r.value.value == v.values[vt.name]
      && r.value.system + r.value.ident == vt.uri && r.value.title == titles[vt.uri])
  {
    match CodedValue(vt.uri, titles)
    case Err(e) => Err(e)
    case Ok(c) => Ok(Measurement(Label(vt), vt.unit, v.values[vt.name], c.title, c.ident, c.system))
  }

  /** The measurements of the general vital types, in catalog order. */
  function Measurements(types: seq<VitalType>, v: VitalReading, titles: map<string, string>): Result<seq<Measurement>, IndivoError>
    requires forall k :: 0 <= k < |types| ==> types[k].name in v.values
  {
    if types == [] then Ok([])
    else
      match Measurements(types[..|types| - 1], v, titles)
      case Err(e) => Err(e)
      case Ok(ms) =>
        match Measure(types[|types| - 1], v, titles)
        case Err(e) => Err(e)
        case Ok(m) => Ok(ms + [m])
  }

  /** What a reading needs for `addVitals` not to crash: every value it is
      asked for exists, and its dates are non-empty. */
  predicate ReadingReady(v: VitalReading, types: seq<VitalType>, sys: VitalType, dia: VitalType) {
    (forall k :: 0 <= k < |types| ==> types[k].name in v.values)
    && (HasSystolic(v) ==> sys.name in v.values && dia.name in v.values)
    && v.startDate != "" && v.endDate != "" && v.timestamp != ""
  }

  /** The vital-signs model of one reading: the general vital types first,
      then, when the reading has a systolic value, the systolic and
      diastolic types under their `bp_` prefix. A reading without a
      `systolic` attribute at all fails once its general types are measured. */
  function ReadingModel(v: VitalReading, types: seq<VitalType>, sys: VitalType, dia: VitalType, titles: map<string, string>): (r: Result<Model, IndivoError>)
    requires ReadingReady(v, types, sys, dia)
    ensures r.Ok? <==>
              Measurements(types, v, titles).Ok? && "systolic" in v.values
              && (HasSystolic(v) ==> Measure(BpType(sys), v, titles).Ok? && Measure(BpType(dia), v, titles).Ok?)
    ensures Measurements(types, v, titles).Ok? && "systolic" !in v.values ==> r == Err(MissingAttribute("systolic"))
    ensures r.Ok? ==> r.value.VitalSignsModel?
  {
    match Measurements(types, v, titles)
    case Err(e) => Err(e)
    case Ok(ms) =>
      var date := CleanVitalsDate(v.timestamp);
      var start := CleanVitalsDate(v.startDate);
      var end := CleanVitalsDate(v.endDate);
      var ambulatory := v.encounterType == "ambulatory";
      if "systolic" !in v.values then Err(MissingAttribute("systolic"))
      else if HasSystolic(v) then
        match Measure(BpType(sys), v, titles)
        case Err(e) => Err(e)
        case Ok(s) =>
          match Measure(BpType(dia), v, titles)
          case Err(e) => Err(e)
          case Ok(d) => Ok(VitalSignsModel(date, start, end, ambulatory, ms + [s, d]))
      else Ok(VitalSignsModel(date, start, end, ambulatory, ms))
  }

  /** The vital-signs models of a patient's readings, one result per reading. */
  function ReadingResults(readings: seq<VitalReading>, types: seq<VitalType>, sys: VitalType, dia: VitalType, titles: map<string, string>): (rs: seq<Result<Model, IndivoError>>)
    requires forall j :: 0 <= j < |readings| ==> ReadingReady(readings[j], types, sys, dia)
    ensures |rs| == |readings|
    ensures forall j :: 0 <= j < |readings| ==> rs[j] == ReadingModel(readings[j], types, sys, dia, titles)
  {
    seq(|readings|, j requires 0 <= j < |readings| && ReadingReady(readings[j], types, sys, dia) =>
      ReadingModel(readings[j], types, sys, dia, titles))
  }

  /** The vital-signs documents of a patient, up to the first failure. */
  function VitalsOutcome(readings: seq<VitalReading>, types: seq<VitalType>, sys: VitalType, dia: VitalType, titles: map<string, string>): Outcome
    requires forall j :: 0 <= j < |readings| ==> ReadingReady(readings[j], types, sys, dia)
  {
    Collect(ReadingResults(readings, types, sys, dia, titles))
  }
  /** Everything `_populate` appends to a patient's documents, in order:
      the labs, which cannot fail, then the problems and medications; unless
      one of those raised, the allergies, which cannot fail, then the
      immunizations and, unless one of them failed, the vital signs. The
      error is the first one raised. Problems and medications are given by
      their attributes before defaulting. */
  function ProfileOutcome(labs: seq<IndivoLab>, problems: seq<map<string, Value>>, meds: seq<MedValues>, pid: int,
                          imms: seq<Immunization>, readings: seq<VitalReading>,
                          types: seq<VitalType>, sys: VitalType, dia: VitalType, titles: map<string, string>): Outcome
    requires forall j :: 0 <= j < |readings| ==> ReadingReady(readings[j], types, sys, dia)
  {
    var rec := RecordOutcome(problems, meds);
    if rec.error.Some? then Outcome(LabDocs(labs) + rec.docs, rec.error)
    else
      var coded := CodedOutcome(imms, readings, types, sys, dia, titles);
      Outcome(LabDocs(labs) + rec.docs + AllergyDocs(pid) + coded.docs, coded.error)
  }

  /** The builders of `_populate` that can raise: the immunizations and,
      unless one of them failed, the vital signs. */
  function CodedOutcome(imms: seq<Immunization>, readings: seq<VitalReading>,
                        types: seq<VitalType>, sys: VitalType, dia: VitalType, titles: map<string, string>): Outcome
    requires forall j :: 0 <= j < |readings| ==> ReadingReady(readings[j], types, sys, dia)
  {
    var imm := ImmunizationOutcome(imms, titles);
    if imm.error.Some? then imm
    else
      var vit := VitalsOutcome(readings, types, sys, dia, titles);
      Outcome(imm.docs + vit.docs, vit.error)
  }

  // ---------------------------------------------------------------------------
  // Properties

  /** A result is in the lab documents exactly when it passes the filter,
      and the documents keep the input order. */
  lemma {:induction false} LabDocsMembers(labs: seq<IndivoLab>, d: Document)
    ensures d in LabDocs(labs) <==> exists k :: 0 <= k < |labs| && LabKept(labs[k]) && d == LabDocOf(labs[k])
  {
    if labs != [] {
      var init := labs[..|labs| - 1];
      LabDocsMembers(init, d);
      if d in LabDocs(labs) && d !in LabDocs(init) {
        assert LabKept(labs[|labs| - 1]) && d == LabDocOf(labs[|labs| - 1]);
      }
      if exists k :: 0 <= k < |labs| && LabKept(labs[k]) && d == LabDocOf(labs[k]) {
        var k :| 0 <= k < |labs| && LabKept(labs[k]) && d == LabDocOf(labs[k]);
        if k < |init| {
          assert init[k] == labs[k];
        }
      }
    }
  }

  /** The lab documents of two runs of results are the documents of each. */
  lemma {:induction false} LabDocsAppend(a: seq<IndivoLab>, b: seq<IndivoLab>)
    ensures LabDocs(a + b) == LabDocs(a) + LabDocs(b)
    decreases |b|
  {
    if b == [] {
      assert a + b == a;
    } else {
      var init := b[..|b| - 1];
      assert (a + b)[..|a + b| - 1] == a + init;
      LabDocsAppend(a, init);
    }
  }

  /** A result whose value does not parse, or whose scale is `Qn`, yields no document. */
  lemma LabDropped(labs: seq<IndivoLab>, l: IndivoLab)
    requires !l.numeric || l.scale == "Qn"
    ensures LabDocs(labs + [l]) == LabDocs(labs)
  {
    assert (labs + [l])[..|labs|] == labs;
  }

  /** Below 85 (modulo 100) a patient gets exactly the no-known-allergies
      exclusion; from 85 on exactly two allergies, the first the sulfa drug
      allergy and the second the peanut food allergy for odd ids and the
      sulfa allergy again for even ones. */
  lemma AllergyOutcome(pid: int)
    ensures var docs := AllergyDocs(pid);
      (pid % 100 < 85 ==> docs == [Sdmx(AllergyExclusion("no known allergies", "160244002"))])
      && (pid % 100 >= 85 ==> |docs| == 2 && docs[0] == Sdmx(SulfaAllergy))
      && (pid % 100 >= 85 ==> (docs[1] == Sdmx(PeanutAllergy) <==> pid % 2 == 1))
      && (pid % 100 >= 85 && pid % 2 == 0 ==> docs[1] == docs[0])
  {
  }

  /** Only odd ids from 85 on (modulo 100) get the food allergy. */
  lemma PeanutOnlyForOddIds(pid: int)
    ensures Sdmx(PeanutAllergy) in AllergyDocs(pid) <==> pid % 100 >= 85 && pid % 2 == 1
  {
    if pid % 100 >= 85 && pid % 2 == 0 {
      assert AllergyDocs(pid) == [Sdmx(SulfaAllergy), Sdmx(SulfaAllergy)];
    }
  }

  /** Two concrete ids: 85 gets the sulfa and peanut allergies, 86 the sulfa
      allergy twice. */
  lemma AllergyExamples()
    ensures AllergyDocs(85) == [Sdmx(SulfaAllergy), Sdmx(PeanutAllergy)]
    ensures AllergyDocs(86) == [Sdmx(SulfaAllergy), Sdmx(SulfaAllergy)]
    ensures AllergyDocs(184) == [Sdmx(NoKnownAllergies)]
  {
  }

  /** A problem without a (truthy) end date is resolved on 2010-09-13; one
      with an end date keeps it; no other attribute changes. */
  lemma ProblemResolution(attrs: map<string, Value>)
    ensures var r := Defaulted(attrs, ProblemDefaults);
      "end" in r
      && r["end"] == (if Set(attrs, "end") then attrs["end"] else Str("2010-09-13"))
      && (forall k :: k != "end" ==> (k in r <==> k in attrs))
      && (forall k :: k != "end" && k in attrs ==> r[k] == attrs[k])
  {
    assert ProblemDefaults[..0] == [];
  }

  /** The attributes a problem record needs for its template: the start
      date, the SNOMED code and the name. */
  predicate ProblemComplete(attrs: map<string, Value>) {
    "start" in attrs && "snomed" in attrs && "name" in attrs
  }

  /** A problem's model forms exactly when the record is complete: the end
      date is always there once defaulted. Otherwise the error names the
      first attribute missing, in the template's order. The model holds the
      defaulted attributes. */
  lemma ProblemFails(attrs: map<string, Value>)
    ensures var r := ProblemResult(attrs);
      (r.Ok? <==> ProblemComplete(attrs))
      && ("start" !in attrs ==> r == Err(MissingAttribute("start")))
      && ("start" in attrs && "snomed" !in attrs ==> r == Err(MissingAttribute("snomed")))
      && ("start" in attrs && "snomed" in attrs && "name" !in attrs ==> r == Err(MissingAttribute("name")))
      && (r.Ok? ==> r.value == ProblemModel(Defaulted(attrs, ProblemDefaults)))
  {
    ProblemResolution(attrs);
    var d := Defaulted(attrs, ProblemDefaults);
    var i := MissingAt(d, ProblemFields);
    assert ProblemFields[0] == "start" && ProblemFields[1] == "end" && ProblemFields[2] == "snomed" && ProblemFields[3] == "name";
  }

  /** The attributes a refill record needs for its template: the date, the
      days of supply and the quantity. */
  predicate FillComplete(f: map<string, Value>) {
    "date" in f && "days" in f && "q" in f
  }

  /** A refill's template fills exactly when the record is complete: the
      table supplies the other fifteen attributes. Otherwise the error names
      the first attribute missing, in the template's order. */
  lemma FillFails(f: map<string, Value>)
    ensures var r := FillResult(f, FillDefaults);
      (r.Ok? <==> FillComplete(f))
      && ("date" !in f ==> r == Err(MissingAttribute("date")))
      && ("date" in f && "days" !in f ==> r == Err(MissingAttribute("days")))
      && ("date" in f && "days" in f && "q" !in f ==> r == Err(MissingAttribute("q")))
      && (r.Ok? ==> r.value == Defaulted(f, FillDefaults))
  {
    FillPresence(f);
    FillTemplate(Defaulted(f, FillDefaults));
  }

  /** The refill template on a record that has the fifteen attributes the
      table supplies: it fails on the date, the days or the quantity, in
      that order. */
  lemma FillTemplate(d: map<string, Value>)
    requires "qunit" in d && "pbm" in d && "ncpdp" in d && "pharm_org" in d && "pharm_co" in d
    requires "pharm_ci" in d && "pharm_pc" in d && "pharm_st" in d && "pharm_re" in d && "prov_dea" in d
    requires "prov_npi" in d && "prov_email" in d && "prov_fn" in d && "prov_ln" in d && "prov_tel" in d
    ensures var r := Template(d, FillFields);
      (r.Ok? <==> FillComplete(d))
      && ("date" !in d ==> r == Err(MissingAttribute("date")))
      && ("date" in d && "days" !in d ==> r == Err(MissingAttribute("days")))
      && ("date" in d && "days" in d && "q" !in d ==> r == Err(MissingAttribute("q")))
      && (r.Ok? ==> r.value == d)
  {
    MissingNone(d, FillFields);
    var i := MissingAt(d, FillFields);
    assert FillFields[0] == "date" && FillFields[1] == "days";
    if i < |FillFields| {
      assert FillFields[i] in FillFields;
    }
  }

  /** The attributes a medication record needs for its template: the name,
      the RxNorm code, the instructions and the start date, and the unit of
      a frequency, quantity or provenance it sets itself; the defaults
      supply the rest. */
  predicate MedComplete(med: map<string, Value>) {
    "name" in med && "rxn" in med && "sig" in med && "start" in med
    && (Set(med, "freq") ==> "frequnit" in med)
    && (Set(med, "qtt") ==> "qttunit" in med)
    && (Set(med, "prov") ==> "prov_id" in med)
  }

  /** The medication template fills exactly when the medication record is
      complete. An entry whose trigger is unset writes its unit too, so a
      unit is needed only beside a value the record sets itself. */
  lemma MedTemplateFails(med: map<string, Value>)
    ensures Template(Defaulted(med, MedDefaults), MedFields).Ok? <==> MedComplete(med)
  {
    MedPresence(med);
    MedTemplate(Defaulted(med, MedDefaults));
  }

  /** The medication template on a record that has the four triggers of
      the table: it fills exactly when the record also has the other seven
      attributes the template reads. */
  lemma MedTemplate(d: map<string, Value>)
    requires "end" in d && "freq" in d && "qtt" in d && "prov" in d
    ensures Template(d, MedFields).Ok? <==>
      "name" in d && "rxn" in d && "frequnit" in d && "sig" in d && "prov_id" in d && "qttunit" in d && "start" in d
  {
    MissingNone(d, MedFields);
  }

  /** A medication's model forms exactly when its record and every refill
      record are complete. Without an RxNorm code it fails before any
      refill; otherwise the first incomplete refill's error is reported
      before the medication's own. The model holds the defaulted
      medication attributes and the defaulted refills. */
  lemma MedFails(m: MedValues)
    ensures var r := MedResult(m, MedDefaults, FillDefaults);
      (r.Ok? <==> MedComplete(m.med) && forall k :: 0 <= k < |m.fills| ==> FillComplete(m.fills[k]))
      && ("rxn" !in m.med ==> r == Err(MissingAttribute("rxn")))
      && (forall k ::
            ("rxn" in m.med && 0 <= k < |m.fills| && !FillComplete(m.fills[k])
             && forall k2 :: 0 <= k2 < k ==> FillComplete(m.fills[k2]))
            ==> FillResult(m.fills[k], FillDefaults).Err? && r == Err(FillResult(m.fills[k], FillDefaults).error))
      && (r.Ok? ==> r.value == MedicationModel(Defaulted(m.med, MedDefaults), FillsDefaulted(m.fills, FillDefaults)))
  {
    MedTemplateFails(m.med);
    FillsFail(m.fills);
  }

  /** The refill loop stops exactly at the first incomplete refill record. */
  lemma FillsFail(fills: seq<map<string, Value>>)
    ensures var b := FirstFailure(FillResults(fills, FillDefaults));
      (forall k :: 0 <= k < b ==> FillComplete(fills[k]))
      && (b < |fills| ==> !FillComplete(fills[b]))
  {
    forall k | 0 <= k < |fills| {
      FillFails(fills[k]);
    }
  }

  /** A medication's model has its quantity, frequency, provenance and end
      date set, every attribute its template reads, and one refill per
      refill record, each with all fifteen pharmacy and prescriber
      attributes set. */
  lemma MedModelComplete(m: MedValues)
    requires MedResult(m, MedDefaults, FillDefaults).Ok?
    ensures var md := MedResult(m, MedDefaults, FillDefaults).value;
      md.MedicationModel?
      && (forall i :: 0 <= i < |MedDefaults| ==> Set(md.attrs, MedDefaults[i].trigger))
      && (forall n :: n in MedFields ==> n in md.attrs)
      && |md.fills| == |m.fills|
      && (forall k, i :: 0 <= k < |md.fills| && 0 <= i < |FillDefaults| ==> Set(md.fills[k], FillDefaults[i].trigger))
  {
    TablesSelfSetting();
    TriggersSet(m.med, MedDefaults);
    var d := Defaulted(m.med, MedDefaults);
    var fs := FillsDefaulted(m.fills, FillDefaults);
    forall k | 0 <= k < |fs|
      ensures forall i :: 0 <= i < |FillDefaults| ==> Set(fs[k], FillDefaults[i].trigger)
    {
      TriggersSet(m.fills[k], FillDefaults);
    }
    forall n | n in MedFields
      ensures n in d
    {
      var j :| 0 <= j < |MedFields| && MedFields[j] == n;
    }
  }

  /** A run of results yields its documents without error exactly when
      every result is a model. */
  lemma {:induction false} CollectFail(results: seq<Result<Model, IndivoError>>)
    ensures Collect(results).error.None? <==> forall k :: 0 <= k < |results| ==> results[k].Ok?
  {
    if results != [] {
      var init := results[..|results| - 1];
      CollectFail(init);
      assert forall k :: 0 <= k < |init| ==> init[k] == results[k];
    }
  }

  /** When every result is a model, there is one document per result, in order. */
  lemma {:induction false} CollectLayout(results: seq<Result<Model, IndivoError>>)
    requires forall k :: 0 <= k < |results| ==> results[k].Ok?
    ensures |Collect(results).docs| == |results|
    ensures forall k :: 0 <= k < |results| ==> Collect(results).docs[k] == Sdmx(results[k].value)
  {
    if results != [] {
      var init := results[..|results| - 1];
      assert forall k :: 0 <= k < |init| ==> init[k] == results[k];
      CollectFail(init);
      CollectLayout(init);
    }
  }

  /** At the first failing result the run stops: the documents are those of
      the results before it, and its error is reported. */
  lemma {:induction false} CollectStops(results: seq<Result<Model, IndivoError>>, b: nat)
    requires b < |results| && results[b].Err?
    requires forall k :: 0 <= k < b ==> results[k].Ok?
    ensures Collect(results) == Outcome(Collect(results[..b]).docs, Some(results[b].error))
    decreases |results|
  {
    var init := results[..|results| - 1];
    if b == |init| {
      assert init == results[..b];
      assert forall k :: 0 <= k < |init| ==> init[k] == results[k];
      CollectFail(init);
    } else {
      assert init[..b] == results[..b];
      CollectStops(init, b);
    }
  }

  /** A run whose first `i` results succeed and whose `i`-th result, if
      any, is an error, first fails at `i`. */
  lemma FirstFailureAt<T>(rs: seq<Result<T, IndivoError>>, i: nat)
    requires i <= |rs| && forall k :: 0 <= k < i ==> rs[k].Ok?
    requires i < |rs| ==> rs[i].Err?
    ensures FirstFailure(rs) == i
  {
  }

  /** A run whose first `i` results collect without error and whose `i`-th
      result, if any, is an error, first fails at `i`. */
  lemma CollectFirstFailure(results: seq<Result<Model, IndivoError>>, i: nat)
    requires i <= |results| && Collect(results[..i]).error.None?
    requires i < |results| ==> results[i].Err?
    ensures FirstFailure(results) == i
  {
    CollectFail(results[..i]);
    assert forall k :: 0 <= k < i ==> results[..i][k] == results[k];
  }

  /** One more result extends the collected outcome of a prefix that has
      not failed: a model adds its document, an error stops. */
  lemma CollectStep(results: seq<Result<Model, IndivoError>>, i: nat)
    requires i < |results| && Collect(results[..i]).error.None?
    ensures Collect(results[..i + 1]) == match results[i]
      case Err(e) => Outcome(Collect(results[..i]).docs, Some(e))
      case Ok(m) => Outcome(Collect(results[..i]).docs + [Sdmx(m)], None)
  {
    assert results[..i + 1][..i] == results[..i];
  }

  /** Once a prefix of the results has failed, later results change
      nothing: the builder raised and stopped. */
  lemma {:induction false} CollectPrefixErr(results: seq<Result<Model, IndivoError>>, i: nat)
    requires i <= |results| && Collect(results[..i]).error.Some?
    ensures Collect(results) == Collect(results[..i])
    decreases |results| - i
  {
    if i < |results| {
      assert results[..i + 1][..i] == results[..i];
      CollectPrefixErr(results, i + 1);
    } else {
      assert results[..i] == results;
    }
  }

  /** The immunization documents fail exactly when some record does, and
      otherwise there is one per record, in order. */
  lemma ImmunizationsLayout(imms: seq<Immunization>, titles: map<string, string>)
    ensures var out := ImmunizationOutcome(imms, titles);
      (out.error.None? <==> forall k :: 0 <= k < |imms| ==> ImmunizationModelOf(imms[k], titles).Ok?)
      && (out.error.None? ==> (|out.docs| == |imms|
          && forall k :: 0 <= k < |imms| ==> out.docs[k] == Sdmx(ImmunizationModelOf(imms[k], titles).value)))
  {
    var rs := ImmunizationResults(imms, titles);
    CollectFail(rs);
    if Collect(rs).error.None? {
      CollectLayout(rs);
    }
  }

  /** Cleaning a cleaned date changes nothing. */
  lemma CleanVitalsDateIdempotent(s: string)
    requires s != ""
    ensures CleanVitalsDate(CleanVitalsDate(s)) == CleanVitalsDate(s)
  {
    var r := CleanVitalsDate(s);
    var rr := CleanVitalsDate(r);
    assert |rr| == |r|;
    forall i | 0 <= i < |r|
      ensures rr[i] == r[i]
    {
      assert r[i] != ' ';
    }
  }

  /** A raw `date time` stamp becomes the ISO 8601 UTC form `dateTtimeZ`. */
  lemma CleanVitalsDateIso(date: string, time: string)
    requires ' ' !in date && ' ' !in time
    requires time != "" && time[|time| - 1] != 'Z'
    ensures CleanVitalsDate(date + " " + time) == date + "T" + time + "Z"
  {
    var s := date + " " + time;
    var r := CleanVitalsDate(s);
    var want := date + "T" + time + "Z";
    assert s[|s| - 1] == time[|time| - 1];
    assert |r| == |want|;
    forall i | 0 <= i < |r|
      ensures r[i] == want[i]
    {
      if i < |date| {
        assert s[i] == date[i] && want[i] == date[i];
        assert date[i] != ' ';
      } else if i == |date| {
        assert s[i] == ' ';
      } else if i < |s| {
        assert s[i] == time[i - |date| - 1] && want[i] == time[i - |date| - 1];
        assert time[i - |date| - 1] != ' ';
      }
    }
  }

  /** Measuring the general vital types succeeds exactly when each type's
      URI can be coded. */
  lemma {:induction false} MeasurementsOk(types: seq<VitalType>, v: VitalReading, titles: map<string, string>)
    requires forall k :: 0 <= k < |types| ==> types[k].name in v.values
    ensures Measurements(types, v, titles).Ok? <==> forall k :: 0 <= k < |types| ==> CodedValue(types[k].uri, titles).Ok?
  {
    if types != [] {
      var init, last := types[..|types| - 1], types[|types| - 1];
      assert forall k :: 0 <= k < |init| ==> init[k] == types[k];
      MeasurementsOk(init, v, titles);
      assert Measurements(types, v, titles).Ok?
        <==> Measurements(init, v, titles).Ok? && Measure(last, v, titles).Ok?;
      assert (forall k :: 0 <= k < |types| ==> CodedValue(types[k].uri, titles).Ok?)
        <==> (forall k :: 0 <= k < |init| ==> CodedValue(init[k].uri, titles).Ok?) && CodedValue(last.uri, titles).Ok?;
    }
  }

  /** A successful measurement of the general vital types yields one
      measurement per type, in order, each under the type's own prefix and
      unit and with the reading's value. */
  lemma {:induction false} MeasurementsLayout(types: seq<VitalType>, v: VitalReading, titles: map<string, string>)
    requires forall k :: 0 <= k < |types| ==> types[k].name in v.values
    requires Measurements(types, v, titles).Ok?
    ensures var ms := Measurements(types, v, titles).value;
      |ms| == |types| && forall k :: 0 <= k < |types| ==> Measure(types[k], v, titles) == Ok(ms[k])
  {
    if types != [] {
      var init := types[..|types| - 1];
      assert forall k :: 0 <= k < |init| ==> init[k] == types[k];
      MeasurementsLayout(init, v, titles);
    }
  }

  /** Once the measurements of a prefix of the types fail, the whole list
      fails with the same error: `getVital` raises and the loop stops. */
  lemma {:induction false} MeasurementsPrefixErr(types: seq<VitalType>, t: nat, v: VitalReading, titles: map<string, string>)
    requires t <= |types|
    requires forall k :: 0 <= k < |types| ==> types[k].name in v.values
    requires Measurements(types[..t], v, titles).Err?
    ensures Measurements(types, v, titles) == Measurements(types[..t], v, titles)
    decreases |types| - t
  {
    if t < |types| {
      assert types[..t + 1][..t] == types[..t];
      MeasurementsPrefixErr(types, t + 1, v, titles);
    } else {
      assert types[..t] == types;
    }
  }

  /** `addProblems` and `addMeds` succeed exactly when every problem, every
      medication and every refill record is complete, and then yield one
      document per problem and per medication, in order. */
  lemma RecordsSucceed(problems: seq<map<string, Value>>, meds: seq<MedValues>)
    ensures var o := RecordOutcome(problems, meds);
      (o.error.None? <==>
        (forall k :: 0 <= k < |problems| ==> ProblemComplete(problems[k]))
        && (forall j :: 0 <= j < |meds| ==>
              (MedComplete(meds[j].med) && forall k :: 0 <= k < |meds[j].fills| ==> FillComplete(meds[j].fills[k]))))
      && (o.error.None? ==>
            (|o.docs| == |problems| + |meds|
             && (forall k :: 0 <= k < |problems| ==> o.docs[k] == Sdmx(ProblemModel(Defaulted(problems[k], ProblemDefaults))))
             && (forall j :: 0 <= j < |meds| ==>
                   o.docs[|problems| + j] == Sdmx(MedicationModel(Defaulted(meds[j].med, MedDefaults), FillsDefaulted(meds[j].fills, FillDefaults))))))
  {
    var prs := ProblemResults(problems);
    var mrs := MedResults(meds, MedDefaults, FillDefaults);
    forall k | 0 <= k < |problems| {
      ProblemFails(problems[k]);
    }
    forall j | 0 <= j < |meds| {
      MedFails(meds[j]);
    }
    CollectFail(prs);
    CollectFail(mrs);
    if Collect(prs).error.None? {
      CollectLayout(prs);
      if Collect(mrs).error.None? {
        CollectLayout(mrs);
      }
    }
  }

  /** Populating a patient succeeds exactly when every problem, medication
      and refill record is complete and every immunization and vital-signs
      reading can be coded. The labs always come first. Without failure
      there is one document per kept lab, problem, medication, allergy,
      immunization and reading. */
  lemma ProfileSucceeds(labs: seq<IndivoLab>, problems: seq<map<string, Value>>, meds: seq<MedValues>, pid: int,
                        imms: seq<Immunization>, readings: seq<VitalReading>,
                        types: seq<VitalType>, sys: VitalType, dia: VitalType, titles: map<string, string>)
    requires forall j :: 0 <= j < |readings| ==> ReadingReady(readings[j], types, sys, dia)
    ensures var o := ProfileOutcome(labs, problems, meds, pid, imms, readings, types, sys, dia, titles);
      (o.error.None? <==> RecordOutcome(problems, meds).error.None?
                          && (forall k :: 0 <= k < |imms| ==> ImmunizationModelOf(imms[k], titles).Ok?)
                          && (forall j :: 0 <= j < |readings| ==> ReadingModel(readings[j], types, sys, dia, titles).Ok?))
      && o.docs[..|LabDocs(labs)|] == LabDocs(labs)
      && (RecordOutcome(problems, meds).error.Some? ==> o.error == RecordOutcome(problems, meds).error)
      && (o.error.None? ==> |o.docs| == |LabDocs(labs)| + |problems| + |meds| + |AllergyDocs(pid)| + |imms| + |readings|)
  {
    RecordsSucceed(problems, meds);
    CodedSucceeds(imms, readings, types, sys, dia, titles);
    var o := ProfileOutcome(labs, problems, meds, pid, imms, readings, types, sys, dia, titles);
    assert o.docs[..|LabDocs(labs)|] == LabDocs(labs);
  }

  /** The immunizations and vital signs succeed exactly when each record
      and reading does, and then yield one document each. */
  lemma CodedSucceeds(imms: seq<Immunization>, readings: seq<VitalReading>,
                      types: seq<VitalType>, sys: VitalType, dia: VitalType, titles: map<string, string>)
    requires forall j :: 0 <= j < |readings| ==> ReadingReady(readings[j], types, sys, dia)
    ensures var o := CodedOutcome(imms, readings, types, sys, dia, titles);
      (o.error.None? <==> (forall k :: 0 <= k < |imms| ==> ImmunizationModelOf(imms[k], titles).Ok?)
                          && (forall j :: 0 <= j < |readings| ==> ReadingModel(readings[j], types, sys, dia, titles).Ok?))
      && (o.error.None? ==> |o.docs| == |imms| + |readings|)
  {
    var imm := ImmunizationResults(imms, titles);
    var vit := ReadingResults(readings, types, sys, dia, titles);
    CollectFail(imm);
    CollectFail(vit);
    if Collect(imm).error.None? {
      CollectLayout(imm);
      if Collect(vit).error.None? {
        CollectLayout(vit);
      }
    }
  }

  /** The measurements of a vital-signs document: first exactly those of the
      general vital types, each under its own label, then, for a reading with
      a systolic value, exactly two more, those of the systolic and diastolic
      types under the prefix `bp_` plus their names, whatever prefix those
      types carried before. */
  lemma ReadingPrefixes(v: VitalReading, types: seq<VitalType>, sys: VitalType, dia: VitalType, titles: map<string, string>)
    requires ReadingReady(v, types, sys, dia)
    requires ReadingModel(v, types, sys, dia, titles).Ok?
    ensures var ms := ReadingModel(v, types, sys, dia, titles).value.measurements;
      |ms| == |types| + (if HasSystolic(v) then 2 else 0)
      && (forall k :: 0 <= k < |types| ==> ms[k].prefix == Label(types[k]) && ms[k].unit == types[k].unit)
      && ms[..|types|] == Measurements(types, v, titles).value
      && (HasSystolic(v) ==> (ms[|types|].prefix == "bp_" + sys.name && ms[|types| + 1].prefix == "bp_" + dia.name
          && ms[|types|].value == v.values[sys.name] && ms[|types| + 1].value == v.values[dia.name]
          && ms[|types|] == Measure(BpType(sys), v, titles).value
          && ms[|types| + 1] == Measure(BpType(dia), v, titles).value))
  {
    MeasurementsLayout(types, v, titles);
  }

  /** A vital-signs document's date, start and end are the reading's
      timestamp, start date and end date after `cleanVitalsDate`, so each ends
      in `Z` and has no space. */
  lemma ReadingDates(v: VitalReading, types: seq<VitalType>, sys: VitalType, dia: VitalType, titles: map<string, string>)
    requires ReadingReady(v, types, sys, dia)
    requires ReadingModel(v, types, sys, dia, titles).Ok?
    ensures var m := ReadingModel(v, types, sys, dia, titles).value;
      m.VitalSignsModel?
      && m.date == CleanVitalsDate(v.timestamp) && m.start == CleanVitalsDate(v.startDate) && m.end == CleanVitalsDate(v.endDate)
      && m.date[|m.date| - 1] == 'Z' && m.start[|m.start| - 1] == 'Z' && m.end[|m.end| - 1] == 'Z'
      && ' ' !in m.date && ' ' !in m.start && ' ' !in m.end
      && (m.ambulatory <==> v.encounterType == "ambulatory")
  {
  }
}
