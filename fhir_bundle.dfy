/** Fragment assembly of the transactional-bundle generator
    (`FHIRSamplePatient.writePatientData` in bin/fhir.py). Rendering is left
    abstract: each template the Python code renders becomes one `Fragment`
    value carrying the identifiers and records the template receives, and the
    output file becomes the sequence of fragments in the order they are printed. */
module FhirBundle {
  import opened Wrappers
  import opened Text
  import opened Allocation
  import opened FhirVitals

  /** `SMOKINGCODES`: SNOMED CT smoking-status codes and their display titles. */
  const SmokingCodes: map<string, string> := map[
    "428041000124106" := "Current some day smoker",
    "266919005" := "Never smoker",
    "449868002" := "Current every day smoker",
    "266927001" := "Unknown if ever smoked",
    "8517006" := "Former smoker"
  ]

  const ObservationKind := "Observation"
  const PrescriptionKind := "MedicationPrescription"
  const DispenseKind := "MedicationDispense"
  const ConditionKind := "Condition"
  const ProcedureKind := "Procedure"
  const ImmunizationKind := "Immunization"
  const FamilyHistoryKind := "FamilyHistory"
  const SocialHistoryKind := "SocialHistory"

  // The loaders' records, reduced to the attributes this generator reads.
  datatype Patient = Patient(dob: string, gestage: string)
  datatype Lab = Lab(date: string, code: string, name: string, value: string, units: string, scale: string)
  datatype Med = Med(rxn: string, name: string)
  datatype Refill = Refill(date: string, days: string, quantity: string)
  /** A medication with the refills `Refill.refill_list(m.pid, m.rxn)` returns for it. */
  datatype MedEntry = MedEntry(med: Med, refills: seq<Refill>)
  datatype Problem = Problem(start: string, code: string, name: string)
  datatype Procedure = Procedure(date: string, code: string, name: string)
  datatype Immunization = Immunization(date: string, cvx: string)
  datatype FamilyHistory = FamilyHistory(relation: string, condition: string)
  datatype SocialHistory = SocialHistory(smokingStatusCode: string)

  /** Everything the loaders hold for one patient; a patient absent from a
      loader's table has an empty sequence (or `None`) here. */
  datatype PatientData = PatientData(
    pid: string,
    patient: Patient,
    readings: seq<Reading>,
    labs: seq<Lab>,
    meds: seq<MedEntry>,
    problems: seq<Problem>,
    procedures: seq<Procedure>,
    immunizations: seq<Immunization>,
    familyHistories: seq<FamilyHistory>,
    social: Option<SocialHistory>)

  /** An observation's value: a pressure as `int()` left it, a vital sign as
      `float()` parsed it, or the gestational age's text. */
  datatype Quantity = Counted(amount: int) | Measured(number: Number) | Reported(text: string)

  /** The dictionary `o` handed to observation.xml. */
  datatype Obs = Obs(date: string, code: string, name: string, scale: string, value: Quantity, units: string, unitsCode: string)

  /** One rendered template, with the token it is rendered under (`id`); the
      patient entry is the one fragment named by a fixed reference instead. */
  datatype Fragment =
    | Feed(id: Token)
    | PatientEntry(reference: string, patient: Patient)
    | BloodPressurePanel(id: Token, systolicId: Token, diastolicId: Token, bp: BloodPressure)
    | Observation(id: Token, obs: Obs)
    | LabObservation(id: Token, lab: Lab)
    | MedicationPrescription(id: Token, med: Med)
    | MedicationDispense(id: Token, prescriptionId: Token, refill: Refill)
    | Condition(id: Token, problem: Problem)
    | ProcedureEntry(id: Token, procedure: Procedure)
    | ImmunizationEntry(id: Token, cvxSystem: string, cvxId: string, immunization: Immunization)
    | FamilyHistoryEntry(id: Token, history: FamilyHistory)
    | SmokingStatus(id: Token, code: string, text: string)

  /** The exceptions that abort a patient's bundle: `rsplit` finding no `#`
      in a CVX code, and a `KeyError` from `SMOKINGCODES`. */
  datatype BundleError = MalformedCvx(cvx: string) | UnknownSmokingCode(code: string)

  /** What a stretch of `writePatientData` prints, the counter afterwards, and
      the exception that stopped it, if any. */
  datatype Emission = Emission(frags: seq<Fragment>, next: nat, error: Option<BundleError>)

  // ---------------------------------------------------------------------------
  // Specification of each block of writePatientData

  function SystolicObs(bp: BloodPressure): (o: Obs)
    ensures o.code == "8480-6" && o.units == "mm[Hg]" && o.unitsCode == "mm[Hg]"
    ensures o.date == bp.reading.date && o.value == Counted(bp.systolic)
  {
    Obs(bp.reading.date, "8480-6", "Systolic blood pressure", "Qn", Counted(bp.systolic), "mm[Hg]", "mm[Hg]")
  }

  function DiastolicObs(bp: BloodPressure): (o: Obs)
    ensures o.code == "8462-4" && o.units == "mm[Hg]" && o.unitsCode == "mm[Hg]"
    ensures o.date == bp.reading.date && o.value == Counted(bp.diastolic)
  {
    Obs(bp.reading.date, "8462-4", "Diastolic blood pressure", "Qn", Counted(bp.diastolic), "mm[Hg]", "mm[Hg]")
  }

  /** One composite, once the counter stands at `n`: three `uid` calls
      (systolic, diastolic, composite), then the composite and its two children. */
  function BloodPressureGroup(bp: BloodPressure, n: nat): seq<Fragment> {
    var systolicId := Token(Some(ObservationKind), n + 1);
    var diastolicId := Token(Some(ObservationKind), n + 2);
    [BloodPressurePanel(Token(Some(ObservationKind), n + 3), systolicId, diastolicId, bp),
     Observation(systolicId, SystolicObs(bp)),
     Observation(diastolicId, DiastolicObs(bp))]
  }

  function BloodPressureFragments(bps: seq<BloodPressure>, n: nat): seq<Fragment> {
    if bps == [] then []
    else
      BloodPressureFragments(bps[..|bps| - 1], n)
        + BloodPressureGroup(bps[|bps| - 1], n + 3 * (|bps| - 1))
  }

  /** A loop that renders one template per item, each under a fresh `uid(kind)`. */
  function Numbered<T>(kind: string, items: seq<T>, n: nat, make: (Token, T) -> Fragment): seq<Fragment> {
    if items == [] then []
    else
      Numbered(kind, items[..|items| - 1], n, make)
        + [make(Token(Some(kind), n + |items|), items[|items| - 1])]
  }

  /** An independent vital sign as observation.xml receives it, after
      `o["unitsCode"] = o["units"]`. */
  function VitalObservation(id: Token, v: Vital): (f: Fragment)
    ensures f.Observation? && f.id == id
    ensures f.obs.unitsCode == v.units && f.obs.units == v.units && f.obs.code == v.code
    ensures f.obs.value == Measured(v.value) && f.obs.date == v.date
  {
    Observation(id, Obs(v.date, v.code, v.name, v.scale, Measured(v.value), v.units, v.units))
  }

  function LabFragment(id: Token, l: Lab): Fragment { LabObservation(id, l) }
  function ConditionFragment(id: Token, p: Problem): Fragment { Condition(id, p) }
  function ProcedureFragment(id: Token, p: Procedure): Fragment { ProcedureEntry(id, p) }
  function FamilyHistoryFragment(id: Token, h: FamilyHistory): Fragment { FamilyHistoryEntry(id, h) }

  /** The refill loop of one medication: each dispense under a fresh id,
      pointing back at `prescriptionId`. */
  function Dispenses(refills: seq<Refill>, prescriptionId: Token, n: nat): seq<Fragment> {
    if refills == [] then []
    else
      Dispenses(refills[..|refills| - 1], prescriptionId, n)
        + [MedicationDispense(Token(Some(DispenseKind), n + |refills|), prescriptionId, refills[|refills| - 1])]
  }

  function MedicationGroup(m: MedEntry, n: nat): seq<Fragment> {
    var medid := Token(Some(PrescriptionKind), n + 1);
    [MedicationPrescription(medid, m.med)] + Dispenses(m.refills, medid, n + 1)
  }

  /** The number of `uid` calls the medication loop makes. */
  function MedCount(meds: seq<MedEntry>): nat {
    if meds == [] then 0 else MedCount(meds[..|meds| - 1]) + 1 + |meds[|meds| - 1].refills|
  }

  function MedicationFragments(meds: seq<MedEntry>, n: nat): seq<Fragment> {
    if meds == [] then []
    else
      var init := meds[..|meds| - 1];
      MedicationFragments(init, n) + MedicationGroup(meds[|meds| - 1], n + MedCount(init))
  }

  /** The immunization loop: the id is drawn before the CVX code is split, so
      a code without `#` spends an id and then aborts the bundle. */
  function ImmunizationFragments(imms: seq<Immunization>, n: nat): Emission {
    if imms == [] then Emission([], n, None)
    else
      var e := ImmunizationFragments(imms[..|imms| - 1], n);
      var i := imms[|imms| - 1];
      if e.error.Some? then e
      else
        match SplitLast(i.cvx, '#')
        case None => Emission(e.frags, e.next + 1, Some(MalformedCvx(i.cvx)))
        case Some(parts) =>
          Emission(e.frags + [ImmunizationEntry(Token(Some(ImmunizationKind), e.next + 1), parts.0 + "#", parts.1, i)],
                   e.next + 1, None)
  }

  function GestationalObs(p: Patient): (o: Obs)
    ensures o.code == "18185-9" && o.units == "weeks" && o.unitsCode == "wk" && o.date == p.dob
    ensures o.value == Reported(p.gestage)
  {
    Obs(p.dob, "18185-9", "Gestational age at birth", "Qn", Reported(p.gestage), "weeks", "wk")
  }

  /** The gestational-age block: one observation exactly when `p.gestage` is truthy. */
  function GestationalAge(p: Patient, n: nat): (e: Emission)
    ensures e.error.None?
    ensures p.gestage != "" ==> e.frags == [Observation(Token(Some(ObservationKind), n + 1), GestationalObs(p))] && e.next == n + 1
    ensures p.gestage == "" ==> e.frags == [] && e.next == n
  {
    if p.gestage != "" then Emission([Observation(Token(Some(ObservationKind), n + 1), GestationalObs(p))], n + 1, None)
    else Emission([], n, None)
  }

  /** The smoking-status block followed by the gestational-age block. The
      table lookup happens before `uid`, so an unknown code spends no id. */
  function Closing(d: PatientData, n: nat): Emission {
    match d.social
    case None => GestationalAge(d.patient, n)
    case Some(t) =>
      if t.smokingStatusCode !in SmokingCodes then Emission([], n, Some(UnknownSmokingCode(t.smokingStatusCode)))
      else
        var g := GestationalAge(d.patient, n + 1);
        Emission([SmokingStatus(Token(Some(SocialHistoryKind), n + 1), t.smokingStatusCode, SmokingCodes[t.smokingStatusCode])] + g.frags,
                 g.next, None)
  }

  /** The blood-pressure composites, then the other vitals, from counter `n`. */
  function Readings(c: Collection, n: nat): Emission {
    Emission(BloodPressureFragments(c.bps, n) + Numbered(ObservationKind, c.others, n + 3 * |c.bps|, VitalObservation),
             n + 3 * |c.bps| + |c.others|, None)
  }

  /** The lab results, then the medications with their dispenses. */
  function Charts(d: PatientData, n: nat): Emission {
    Emission(Numbered(ObservationKind, d.labs, n, LabFragment) + MedicationFragments(d.meds, n + |d.labs|),
             n + |d.labs| + MedCount(d.meds), None)
  }

  /** The conditions, then the procedures. */
  function Records(d: PatientData, n: nat): Emission {
    Emission(Numbered(ConditionKind, d.problems, n, ConditionFragment) + Numbered(ProcedureKind, d.procedures, n + |d.problems|, ProcedureFragment),
             n + |d.problems| + |d.procedures|, None)
  }

  /** The blocks from the blood-pressure composites through the procedures,
      none of which can fail, with the counter at `n`. */
  function Front(d: PatientData, c: Collection, n: nat): (e: Emission)
    ensures e.error.None?
  {
    var r := Readings(c, n);
    var h := Charts(d, r.next);
    var q := Records(d, h.next);
    Emission(r.frags + (h.frags + q.frags), q.next, None)
  }

  /** Everything printed after the patient fragment, with the counter at `n`. */
  function Body(d: PatientData, cat: Catalog, n: nat): Emission {
    var front := Front(d, Collected(d.readings, cat), n);
    var rest := Rest(d, front.next);
    Emission(front.frags + rest.frags, rest.next, rest.error)
  }

  /** The immunizations, family histories, smoking status and gestational
      age; a malformed CVX code ends the patient after the immunizations. */
  function Rest(d: PatientData, n: nat): Emission {
    var imm := ImmunizationFragments(d.immunizations, n);
    if imm.error.Some? then imm
    else
      var tail := HistoriesAndClosing(d, imm.next);
      Emission(imm.frags + tail.frags, tail.next, tail.error)
  }

  /** The family histories, then the smoking status and gestational age,
      with the counter at `n`. */
  function HistoriesAndClosing(d: PatientData, n: nat): Emission {
    var fam := Numbered(FamilyHistoryKind, d.familyHistories, n, FamilyHistoryFragment);
    var close := Closing(d, n + |d.familyHistories|);
    Emission(fam + close.frags, close.next, close.error)
  }

  /** The whole bundle, with the counter at `start` beforehand: the feed
      header under a bare `uid()`, the patient under `Patient/<pid>`, then the body. */
  function Bundle(d: PatientData, cat: Catalog, start: nat): Emission {
    var body := Body(d, cat, start + 1);
    Emission([Feed(Token(None, start + 1)), PatientEntry("Patient/" + d.pid, d.patient)] + body.frags,
             body.next, body.error)
  }

  // ---------------------------------------------------------------------------
  // The generator itself

  method EmitBloodPressures(alloc: Allocator, bps: seq<BloodPressure>) returns (frags: seq<Fragment>)
    modifies alloc
    ensures frags == BloodPressureFragments(bps, old(alloc.base))
    ensures alloc.base == old(alloc.base) + 3 * |bps|
  {
    frags := [];
    for i := 0 to |bps|
      invariant frags == BloodPressureFragments(bps[..i], old(alloc.base))
      invariant alloc.base == old(alloc.base) + 3 * i
    {
      var bp := bps[i];
      var systolicId := alloc.Uid(Some(ObservationKind));
      var diastolicId := alloc.Uid(Some(ObservationKind));
      var id := alloc.Uid(Some(ObservationKind));
      frags := frags + [BloodPressurePanel(id, systolicId, diastolicId, bp)];
      frags := frags + [Observation(systolicId, SystolicObs(bp))];
      frags := frags + [Observation(diastolicId, DiastolicObs(bp))];
      assert bps[..i + 1][..i] == bps[..i];
    }
    assert bps[..|bps|] == bps;
  }

  method EmitNumbered<T>(alloc: Allocator, kind: string, items: seq<T>, make: (Token, T) -> Fragment)
    returns (frags: seq<Fragment>)
    modifies alloc
    ensures frags == Numbered(kind, items, old(alloc.base), make)
    ensures alloc.base == old(alloc.base) + |items|
  {
    frags := [];
    for i := 0 to |items|
      invariant frags == Numbered(kind, items[..i], old(alloc.base), make)
      invariant alloc.base == old(alloc.base) + i
    {
      var id := alloc.Uid(Some(kind));
      frags := frags + [make(id, items[i])];
      assert items[..i + 1][..i] == items[..i];
    }
    assert items[..|items|] == items;
  }

  method EmitMedicationGroup(alloc: Allocator, m: MedEntry) returns (frags: seq<Fragment>)
    modifies alloc
    ensures frags == MedicationGroup(m, old(alloc.base))
    ensures alloc.base == old(alloc.base) + 1 + |m.refills|
  {
    var medid := alloc.Uid(Some(PrescriptionKind));
    frags := [MedicationPrescription(medid, m.med)];
    for j := 0 to |m.refills|
      invariant frags == [MedicationPrescription(medid, m.med)] + Dispenses(m.refills[..j], medid, old(alloc.base) + 1)
      invariant alloc.base == old(alloc.base) + 1 + j
    {
      var id := alloc.Uid(Some(DispenseKind));
      frags := frags + [MedicationDispense(id, medid, m.refills[j])];
      assert m.refills[..j + 1][..j] == m.refills[..j];
    }
    assert m.refills[..|m.refills|] == m.refills;
  }

  method EmitMedications(alloc: Allocator, meds: seq<MedEntry>) returns (frags: seq<Fragment>)
    modifies alloc
    ensures frags == MedicationFragments(meds, old(alloc.base))
    ensures alloc.base == old(alloc.base) + MedCount(meds)
  {
    frags := [];
    for i := 0 to |meds|
      invariant frags == MedicationFragments(meds[..i], old(alloc.base))
      invariant alloc.base == old(alloc.base) + MedCount(meds[..i])
    {
      var group := EmitMedicationGroup(alloc, meds[i]);
      frags := frags + group;
      assert meds[..i + 1][..i] == meds[..i];
    }
    assert meds[..|meds|] == meds;
  }

  /** Once the immunization loop has failed, later items change nothing. */
  lemma {:induction false} ImmunizationErrorSticks(imms: seq<Immunization>, k: nat, n: nat)
    requires k <= |imms|
    requires ImmunizationFragments(imms[..k], n).error.Some?
    ensures ImmunizationFragments(imms, n) == ImmunizationFragments(imms[..k], n)
    decreases |imms| - k
  {
    if k < |imms| {
      assert imms[..k + 1][..k] == imms[..k];
      ImmunizationErrorSticks(imms, k + 1, n);
    } else {
      assert imms[..k] == imms;
    }
  }

  method EmitImmunizations(alloc: Allocator, imms: seq<Immunization>) returns (frags: seq<Fragment>, err: Option<BundleError>)
    modifies alloc
    ensures Emission(frags, alloc.base, err) == ImmunizationFragments(imms, old(alloc.base))
  {
    frags, err := [], None;
    for i := 0 to |imms|
      invariant Emission(frags, alloc.base, None) == ImmunizationFragments(imms[..i], old(alloc.base))
    {
      var imm := imms[i];
      assert imms[..i + 1][..i] == imms[..i];
      var id := alloc.Uid(Some(ImmunizationKind));
      var parts := SplitLast(imm.cvx, '#');
      if parts.None? {
        err := Some(MalformedCvx(imm.cvx));
        ImmunizationErrorSticks(imms, i + 1, old(alloc.base));
        return;
      }
      var cvxSystem, cvxId := parts.value.0, parts.value.1;
      cvxSystem := cvxSystem + "#";
      frags := frags + [ImmunizationEntry(id, cvxSystem, cvxId, imm)];
    }
    assert imms[..|imms|] == imms;
  }

  method EmitReadings(alloc: Allocator, c: Collection) returns (frags: seq<Fragment>)
    modifies alloc
    ensures Emission(frags, alloc.base, None) == Readings(c, old(alloc.base))
  {
    var pressures := EmitBloodPressures(alloc, c.bps);
    var vitals := EmitNumbered(alloc, ObservationKind, c.others, VitalObservation);
    frags := pressures + vitals;
  }

  method EmitCharts(alloc: Allocator, d: PatientData) returns (frags: seq<Fragment>)
    modifies alloc
    ensures Emission(frags, alloc.base, None) == Charts(d, old(alloc.base))
  {
    var labs := EmitNumbered(alloc, ObservationKind, d.labs, LabFragment);
    var meds := EmitMedications(alloc, d.meds);
    frags := labs + meds;
  }

  method EmitRecords(alloc: Allocator, d: PatientData) returns (frags: seq<Fragment>)
    modifies alloc
    ensures Emission(frags, alloc.base, None) == Records(d, old(alloc.base))
  {
    var conditions := EmitNumbered(alloc, ConditionKind, d.problems, ConditionFragment);
    var procedures := EmitNumbered(alloc, ProcedureKind, d.procedures, ProcedureFragment);
    frags := conditions + procedures;
  }

  method EmitFront(alloc: Allocator, d: PatientData, c: Collection) returns (frags: seq<Fragment>)
    modifies alloc
    ensures Emission(frags, alloc.base, None) == Front(d, c, old(alloc.base))
  {
    var readings := EmitReadings(alloc, c);
    var charts := EmitCharts(alloc, d);
    var records := EmitRecords(alloc, d);
    frags := readings + (charts + records);
  }

  method EmitClosing(alloc: Allocator, d: PatientData) returns (frags: seq<Fragment>, err: Option<BundleError>)
    modifies alloc
    ensures Emission(frags, alloc.base, err) == Closing(d, old(alloc.base))
  {
    frags, err := [], None;
    if d.social.Some? {
      var t := d.social.value;
      if t.smokingStatusCode !in SmokingCodes {
        err := Some(UnknownSmokingCode(t.smokingStatusCode));
        return;
      }
      var text := SmokingCodes[t.smokingStatusCode];
      var id := alloc.Uid(Some(SocialHistoryKind));
      frags := frags + [SmokingStatus(id, t.smokingStatusCode, text)];
    }
    if d.patient.gestage != "" {
      var id := alloc.Uid(Some(ObservationKind));
      frags := frags + [Observation(id, GestationalObs(d.patient))];
    }
  }

  method EmitRest(alloc: Allocator, d: PatientData) returns (frags: seq<Fragment>, err: Option<BundleError>)
    modifies alloc
    ensures Emission(frags, alloc.base, err) == Rest(d, old(alloc.base))
  {
    frags, err := EmitImmunizations(alloc, d.immunizations);
    if err.Some? {
      return;
    }
    var tail;
    tail, err := EmitHistoriesAndClosing(alloc, d);
    frags := frags + tail;
  }

  method EmitHistoriesAndClosing(alloc: Allocator, d: PatientData) returns (frags: seq<Fragment>, err: Option<BundleError>)
    modifies alloc
    ensures Emission(frags, alloc.base, err) == HistoriesAndClosing(d, old(alloc.base))
  {
    var histories := EmitNumbered(alloc, FamilyHistoryKind, d.familyHistories, FamilyHistoryFragment);
    var closing;
    closing, err := EmitClosing(alloc, d);
    frags := histories + closing;
  }

  /** `writePatientData` for one patient, with the counter in `alloc`. */
  method WritePatientData(alloc: Allocator, d: PatientData, cat: Catalog) returns (frags: seq<Fragment>, err: Option<BundleError>)
    modifies alloc
    ensures Emission(frags, alloc.base, err) == Bundle(d, cat, old(alloc.base))
  {
    var feedId := alloc.Uid(None);
    var head := [Feed(feedId), PatientEntry("Patient/" + d.pid, d.patient)];
    var bps, othervitals := CollectVitals(d.readings, cat);
    var front := EmitFront(alloc, d, Collection(bps, othervitals));
    var rest;
    rest, err := EmitRest(alloc, d);
    frags := head + (front + rest);
  }
}
