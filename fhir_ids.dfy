/** Identifier discipline of the bundle generator: every fragment except the
    patient entry is rendered under a token drawn from the shared counter, so
    within one patient, and across patients written one after another, no
    token is used twice. */
module FhirIds {
  import opened Wrappers
  import opened Text
  import opened Allocation
  import opened FhirVitals
  import opened FhirBundle

  /** Every fragment carries a token drawn at a counter value in `(lo, hi]`. */
  ghost predicate IdsWithin(fs: seq<Fragment>, lo: nat, hi: nat) {
    forall i :: 0 <= i < |fs| ==> !fs[i].PatientEntry? && lo < fs[i].id.n <= hi
  }

  /** No two fragments carry tokens drawn at the same counter value. */
  ghost predicate DistinctNumbers(fs: seq<Fragment>)
    requires forall i :: 0 <= i < |fs| ==> !fs[i].PatientEntry?
  {
    forall i, j :: 0 <= i < j < |fs| ==> fs[i].id.n != fs[j].id.n
  }

  /** `fs` was rendered under tokens drawn while the counter went from `lo` to `hi`. */
  ghost predicate Allocated(fs: seq<Fragment>, lo: nat, hi: nat) {
    IdsWithin(fs, lo, hi) && DistinctNumbers(fs)
  }

  /** Tokens drawn at distinct counter values print as distinct texts. */
  lemma AllocatedIdsDistinct(fs: seq<Fragment>, lo: nat, hi: nat)
    requires Allocated(fs, lo, hi)
    ensures forall i, j :: 0 <= i < j < |fs| ==> Render(fs[i].id) != Render(fs[j].id)
  {
    forall i, j | 0 <= i < j < |fs|
      ensures Render(fs[i].id) != Render(fs[j].id)
    {
      TokensDistinct(fs[i].id, fs[j].id);
    }
  }

  /** Two stretches allocated one after the other make one allocated stretch. */
  lemma AllocatedConcat(a: seq<Fragment>, b: seq<Fragment>, lo: nat, mid: nat, hi: nat)
    requires lo <= mid <= hi && Allocated(a, lo, mid) && Allocated(b, mid, hi)
    ensures Allocated(a + b, lo, hi)
  {
    var ab := a + b;
    forall i | 0 <= i < |ab|
      ensures !ab[i].PatientEntry? && lo < ab[i].id.n <= hi
    {
      if i < |a| {
        assert ab[i] == a[i];
      } else {
        assert ab[i] == b[i - |a|];
      }
    }
    forall i, j | 0 <= i < j < |ab|
      ensures ab[i].id.n != ab[j].id.n
    {
      if j < |a| {
        assert ab[i] == a[i] && ab[j] == a[j];
      } else if i >= |a| {
        assert ab[i] == b[i - |a|] && ab[j] == b[j - |a|];
      } else {
        assert ab[i] == a[i] && ab[j] == b[j - |a|];
      }
    }
  }

  /** A single fragment under a token from `(lo, hi]`. */
  lemma AllocatedSingle(f: Fragment, lo: nat, hi: nat)
    requires !f.PatientEntry? && lo < f.id.n <= hi
    ensures Allocated([f], lo, hi)
  {
  }

  lemma {:induction false} BloodPressureAllocated(bps: seq<BloodPressure>, n: nat)
    ensures Allocated(BloodPressureFragments(bps, n), n, n + 3 * |bps|)
  {
    if bps != [] {
      var m := n + 3 * (|bps| - 1);
      BloodPressureAllocated(bps[..|bps| - 1], n);
      var g := BloodPressureGroup(bps[|bps| - 1], m);
      assert Allocated(g, m, m + 3);
      AllocatedConcat(BloodPressureFragments(bps[..|bps| - 1], n), g, n, m, m + 3);
    }
  }

  /** Item `i` of a numbered loop is rendered under the `(i+1)`-th token
      after `n`, in input order. */
  lemma {:induction false} NumberedAt<T>(kind: string, items: seq<T>, n: nat, make: (Token, T) -> Fragment)
    ensures |Numbered(kind, items, n, make)| == |items|
    ensures forall i :: 0 <= i < |items| ==> Numbered(kind, items, n, make)[i] == make(Token(Some(kind), n + i + 1), items[i])
  {
    if items != [] {
      NumberedAt(kind, items[..|items| - 1], n, make);
    }
  }

  lemma NumberedAllocated<T>(kind: string, items: seq<T>, n: nat, make: (Token, T) -> Fragment)
    requires forall id, x :: !make(id, x).PatientEntry? && make(id, x).id == id
    ensures Allocated(Numbered(kind, items, n, make), n, n + |items|)
  {
    NumberedAt(kind, items, n, make);
  }

  /** Refill `j` of a medication is dispensed under the `(j+1)`-th token
      after `n`, and every dispense points at the same prescription. */
  lemma {:induction false} DispensesAt(refills: seq<Refill>, prescriptionId: Token, n: nat)
    ensures |Dispenses(refills, prescriptionId, n)| == |refills|
    ensures forall j :: 0 <= j < |refills| ==>
      Dispenses(refills, prescriptionId, n)[j] == MedicationDispense(Token(Some(DispenseKind), n + j + 1), prescriptionId, refills[j])
  {
    if refills != [] {
      DispensesAt(refills[..|refills| - 1], prescriptionId, n);
    }
  }

  lemma MedicationGroupAllocated(m: MedEntry, n: nat)
    ensures Allocated(MedicationGroup(m, n), n, n + 1 + |m.refills|)
  {
    var medid := Token(Some(PrescriptionKind), n + 1);
    var ds := Dispenses(m.refills, medid, n + 1);
    DispensesAt(m.refills, medid, n + 1);
    assert Allocated(ds, n + 1, n + 1 + |m.refills|);
    AllocatedConcat([MedicationPrescription(medid, m.med)], ds, n, n + 1, n + 1 + |m.refills|);
  }

  lemma {:induction false} MedicationAllocated(meds: seq<MedEntry>, n: nat)
    ensures Allocated(MedicationFragments(meds, n), n, n + MedCount(meds))
  {
    if meds != [] {
      var init, last := meds[..|meds| - 1], meds[|meds| - 1];
      var a, g := MedicationFragments(init, n), MedicationGroup(last, n + MedCount(init));
      assert MedicationFragments(meds, n) == a + g;
      assert MedCount(meds) == MedCount(init) + 1 + |last.refills|;
      MedicationAllocated(init, n);
      MedicationGroupAllocated(last, n + MedCount(init));
      AllocatedConcat(a, g, n, n + MedCount(init), n + MedCount(meds));
    }
  }

  lemma {:induction false} ImmunizationAllocated(imms: seq<Immunization>, n: nat)
    ensures n <= ImmunizationFragments(imms, n).next
    ensures Allocated(ImmunizationFragments(imms, n).frags, n, ImmunizationFragments(imms, n).next)
  {
    if imms != [] {
      var e := ImmunizationFragments(imms[..|imms| - 1], n);
      ImmunizationAllocated(imms[..|imms| - 1], n);
      var i := imms[|imms| - 1];
      if e.error.None? {
        match SplitLast(i.cvx, '#') {
          case None =>
          case Some(parts) =>
            var f := ImmunizationEntry(Token(Some(ImmunizationKind), e.next + 1), parts.0 + "#", parts.1, i);
            AllocatedConcat(e.frags, [f], n, e.next, e.next + 1);
        }
      }
    }
  }

  lemma ClosingAllocated(d: PatientData, n: nat)
    ensures n <= Closing(d, n).next
    ensures Allocated(Closing(d, n).frags, n, Closing(d, n).next)
  {
    if d.social.Some? && d.social.value.smokingStatusCode in SmokingCodes {
      var t := d.social.value;
      var g := GestationalAge(d.patient, n + 1);
      var f := SmokingStatus(Token(Some(SocialHistoryKind), n + 1), t.smokingStatusCode, SmokingCodes[t.smokingStatusCode]);
      AllocatedConcat([f], g.frags, n, n + 1, g.next);
    }
  }

  lemma ReadingsAllocated(c: Collection, n: nat)
    ensures Readings(c, n).next == n + 3 * |c.bps| + |c.others|
    ensures Allocated(Readings(c, n).frags, n, Readings(c, n).next)
  {
    var m := n + 3 * |c.bps|;
    BloodPressureAllocated(c.bps, n);
    NumberedAllocated(ObservationKind, c.others, m, VitalObservation);
    AllocatedConcat(BloodPressureFragments(c.bps, n), Numbered(ObservationKind, c.others, m, VitalObservation), n, m, m + |c.others|);
  }

  lemma ChartsAllocated(d: PatientData, n: nat)
    ensures Charts(d, n).next == n + |d.labs| + MedCount(d.meds)
    ensures Allocated(Charts(d, n).frags, n, Charts(d, n).next)
  {
    NumberedAllocated(ObservationKind, d.labs, n, LabFragment);
    MedicationAllocated(d.meds, n + |d.labs|);
    AllocatedConcat(Numbered(ObservationKind, d.labs, n, LabFragment), MedicationFragments(d.meds, n + |d.labs|),
                    n, n + |d.labs|, n + |d.labs| + MedCount(d.meds));
  }

  lemma RecordsAllocated(d: PatientData, n: nat)
    ensures Records(d, n).next == n + |d.problems| + |d.procedures|
    ensures Allocated(Records(d, n).frags, n, Records(d, n).next)
  {
    NumberedAllocated(ConditionKind, d.problems, n, ConditionFragment);
    NumberedAllocated(ProcedureKind, d.procedures, n + |d.problems|, ProcedureFragment);
    AllocatedConcat(Numbered(ConditionKind, d.problems, n, ConditionFragment),
                    Numbered(ProcedureKind, d.procedures, n + |d.problems|, ProcedureFragment),
                    n, n + |d.problems|, n + |d.problems| + |d.procedures|);
  }

  lemma FrontAllocated(d: PatientData, c: Collection, n: nat)
    ensures n <= Front(d, c, n).next
    ensures Allocated(Front(d, c, n).frags, n, Front(d, c, n).next)
  {
    var r := Readings(c, n);
    var h := Charts(d, r.next);
    var q := Records(d, h.next);
    ReadingsAllocated(c, n);
    ChartsAllocated(d, r.next);
    RecordsAllocated(d, h.next);
    AllocatedConcat(h.frags, q.frags, r.next, h.next, q.next);
    AllocatedConcat(r.frags, h.frags + q.frags, n, r.next, q.next);
  }

  lemma HistoriesAndClosingAllocated(d: PatientData, k: nat)
    ensures k <= HistoriesAndClosing(d, k).next
    ensures Allocated(HistoriesAndClosing(d, k).frags, k, HistoriesAndClosing(d, k).next)
  {
    var m := k + |d.familyHistories|;
    var fam, close := Numbered(FamilyHistoryKind, d.familyHistories, k, FamilyHistoryFragment), Closing(d, m);
    assert HistoriesAndClosing(d, k) == Emission(fam + close.frags, close.next, close.error);
    NumberedAllocated(FamilyHistoryKind, d.familyHistories, k, FamilyHistoryFragment);
    ClosingAllocated(d, m);
    AllocatedConcat(fam, close.frags, k, m, close.next);
  }

  lemma RestAllocated(d: PatientData, n: nat)
    ensures n <= Rest(d, n).next
    ensures Allocated(Rest(d, n).frags, n, Rest(d, n).next)
  {
    var imm := ImmunizationFragments(d.immunizations, n);
    ImmunizationAllocated(d.immunizations, n);
    if imm.error.None? {
      var tail := HistoriesAndClosing(d, imm.next);
      HistoriesAndClosingAllocated(d, imm.next);
      AllocatedConcat(imm.frags, tail.frags, n, imm.next, tail.next);
    }
  }

  lemma BodyAllocated(d: PatientData, cat: Catalog, n: nat)
    ensures n <= Body(d, cat, n).next
    ensures Allocated(Body(d, cat, n).frags, n, Body(d, cat, n).next)
  {
    var front := Front(d, Collected(d.readings, cat), n);
    FrontAllocated(d, Collected(d.readings, cat), n);
    RestAllocated(d, front.next);
    AllocatedConcat(front.frags, Rest(d, front.next).frags, n, front.next, Rest(d, front.next).next);
  }

  /** The bundle opens with the feed under the bare token of the next
      counter value and the patient under `Patient/<pid>`; every other
      fragment carries a token from this patient's stretch of the counter,
      and no two carry tokens drawn at the same value. */
  lemma BundleIdsUnique(d: PatientData, cat: Catalog, start: nat)
    ensures var b := Bundle(d, cat, start);
      |b.frags| >= 2 && start < b.next
      && b.frags[0] == Feed(Token(None, start + 1))
      && b.frags[1] == PatientEntry("Patient/" + d.pid, d.patient)
      && Allocated([b.frags[0]] + b.frags[2..], start, b.next)
  {
    var b := Bundle(d, cat, start);
    var body := Body(d, cat, start + 1);
    BodyAllocated(d, cat, start + 1);
    AllocatedConcat([Feed(Token(None, start + 1))], body.frags, start, start + 1, body.next);
    assert b.frags[2..] == body.frags;
  }

  /** Within one bundle, any two fragments other than the patient entry are
      rendered under different id texts. */
  lemma BundleTokensDistinct(d: PatientData, cat: Catalog, start: nat, i: nat, j: nat)
    requires var fs := Bundle(d, cat, start).frags; i < j < |fs| && i != 1 && j != 1
    ensures var fs := Bundle(d, cat, start).frags;
      !fs[i].PatientEntry? && !fs[j].PatientEntry? && Render(fs[i].id) != Render(fs[j].id)
  {
    var b := Bundle(d, cat, start);
    BundleIdsUnique(d, cat, start);
    PastPatientDistinct(b.frags, start, b.next, i, j);
    TokensDistinct(b.frags[i].id, b.frags[j].id);
  }

  /** Two patients written one after the other by the same run never share
      an id text: the second bundle's counter starts where the first stopped. */
  lemma ConsecutiveBundlesDisjoint(d1: PatientData, d2: PatientData, cat: Catalog, start: nat, i: nat, j: nat)
    requires var b1 := Bundle(d1, cat, start);
      i < |b1.frags| && i != 1 && j < |Bundle(d2, cat, b1.next).frags| && j != 1
    ensures var b1 := Bundle(d1, cat, start); var b2 := Bundle(d2, cat, b1.next);
      !b1.frags[i].PatientEntry? && !b2.frags[j].PatientEntry? && Render(b1.frags[i].id) != Render(b2.frags[j].id)
  {
    var b1 := Bundle(d1, cat, start);
    var b2 := Bundle(d2, cat, b1.next);
    BundleIdsUnique(d1, cat, start);
    BundleIdsUnique(d2, cat, b1.next);
    PastPatientWithin(b1.frags, start, b1.next, i);
    PastPatientWithin(b2.frags, b1.next, b2.next, j);
    TokensDistinct(b1.frags[i].id, b2.frags[j].id);
  }

  /** In a run allocated apart from its second fragment, every other
      fragment's token lies in the run's stretch of the counter. */
  lemma PastPatientWithin(fs: seq<Fragment>, lo: nat, hi: nat, i: nat)
    requires |fs| >= 2 && Allocated([fs[0]] + fs[2..], lo, hi)
    requires i < |fs| && i != 1
    ensures !fs[i].PatientEntry? && lo < fs[i].id.n <= hi
  {
    var rest := [fs[0]] + fs[2..];
    assert rest[if i == 0 then 0 else i - 1] == fs[i];
  }

  /** ... and no two of those fragments share a counter value. */
  lemma PastPatientDistinct(fs: seq<Fragment>, lo: nat, hi: nat, i: nat, j: nat)
    requires |fs| >= 2 && Allocated([fs[0]] + fs[2..], lo, hi)
    requires i < j < |fs| && i != 1 && j != 1
    ensures !fs[i].PatientEntry? && !fs[j].PatientEntry? && fs[i].id.n != fs[j].id.n
  {
    var rest := [fs[0]] + fs[2..];
    assert rest[if i == 0 then 0 else i - 1] == fs[i] && rest[j - 1] == fs[j];
  }
}
