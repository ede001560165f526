/** What the bundle generator prints, block by block: which fragments appear,
    in which order, under which tokens, and how they point at one another. */
module FhirLayout {
  import opened Wrappers
  import opened Text
  import opened Allocation
  import opened FhirVitals
  import opened FhirBundle
  import opened FhirIds

  // ---------------------------------------------------------------------------
  // Blood pressure and the other vitals

  /** At position `i` of `fs` stands the composite for `bp` drawn from
      counter value `m`: the panel under the third of its three tokens,
      pointing at the systolic and diastolic observations that follow it
      under the first two. */
  ghost predicate BloodPressureAt(fs: seq<Fragment>, i: nat, bp: BloodPressure, m: nat) {
    i + 3 <= |fs|
    && fs[i] == BloodPressurePanel(Token(Some(ObservationKind), m + 3), Token(Some(ObservationKind), m + 1),
                                   Token(Some(ObservationKind), m + 2), bp)
    && fs[i + 1] == Observation(fs[i].systolicId, SystolicObs(bp))
    && fs[i + 2] == Observation(fs[i].diastolicId, DiastolicObs(bp))
  }

  /** Three fragments per composite. */
  lemma {:induction false} BloodPressureCount(bps: seq<BloodPressure>, n: nat)
    ensures |BloodPressureFragments(bps, n)| == 3 * |bps|
  {
    if bps != [] {
      BloodPressureCount(bps[..|bps| - 1], n);
    }
  }

  /** Composite `g` occupies positions `3g`..`3g+2` and draws the tokens
      `n+3g+1` (systolic), `n+3g+2` (diastolic) and `n+3g+3` (the panel). */
  lemma {:induction false} BloodPressureLinkage(bps: seq<BloodPressure>, n: nat)
    ensures |BloodPressureFragments(bps, n)| == 3 * |bps|
    ensures forall g :: 0 <= g < |bps| ==> BloodPressureAt(BloodPressureFragments(bps, n), 3 * g, bps[g], n + 3 * g)
  {
    if bps != [] {
      var init := bps[..|bps| - 1];
      var last := |bps| - 1;
      BloodPressureLinkage(init, n);
      var fs := BloodPressureFragments(bps, n);
      var a := BloodPressureFragments(init, n);
      var grp := BloodPressureGroup(bps[last], n + 3 * last);
      assert fs == a + grp;
      forall g | 0 <= g < |bps|
        ensures BloodPressureAt(fs, 3 * g, bps[g], n + 3 * g)
      {
        if g < last {
          assert BloodPressureAt(a, 3 * g, init[g], n + 3 * g);
          assert fs[3 * g] == a[3 * g] && fs[3 * g + 1] == a[3 * g + 1] && fs[3 * g + 2] == a[3 * g + 2];
        } else {
          assert fs[3 * g] == grp[0] && fs[3 * g + 1] == grp[1] && fs[3 * g + 2] == grp[2];
        }
      }
    }
  }

  /** The readings block: all composites, across every reading, before any
      other vital; the other vitals in collection order, one token each, with
      `unitsCode` copied from `units`. */
  lemma ReadingsLayout(c: Collection, n: nat)
    ensures var fs := Readings(c, n).frags; var k := 3 * |c.bps|;
      |fs| == k + |c.others|
      && fs[..k] == BloodPressureFragments(c.bps, n)
      && (forall i :: 0 <= i < |c.others| ==> fs[k + i] == VitalObservation(Token(Some(ObservationKind), n + k + i + 1), c.others[i]))
      && (forall i :: k <= i < |fs| ==> fs[i].Observation? && fs[i].obs.unitsCode == fs[i].obs.units)
  {
    var k := 3 * |c.bps|;
    var a := BloodPressureFragments(c.bps, n);
    var b := Numbered(ObservationKind, c.others, n + k, VitalObservation);
    BloodPressureCount(c.bps, n);
    NumberedAt(ObservationKind, c.others, n + k, VitalObservation);
    AppendParts(a, b);
    assert Readings(c, n).frags == a + b;
  }

  /** In the bundle, right after the feed and the patient, come the
      composites of every complete reading and then every other vital the
      readings yield, in reading order (`Collected`; their number is
      `CollectedCompositeCount`). */
  lemma BundleVitalsFirst(d: PatientData, cat: Catalog, start: nat)
    ensures var fs := Bundle(d, cat, start).frags;
      var r := Readings(Collected(d.readings, cat), start + 1).frags;
      |fs| >= 2 + |r| && fs[2..2 + |r|] == r
  {
    var fs := Bundle(d, cat, start).frags;
    var body := Body(d, cat, start + 1).frags;
    var front := Front(d, Collected(d.readings, cat), start + 1).frags;
    var r := Readings(Collected(d.readings, cat), start + 1).frags;
    BundleHoldsBody(d, cat, start);
    BodyStartsWithFront(d, cat, start + 1);
    FrontStartsWithReadings(d, Collected(d.readings, cat), start + 1);
    NestedPrefix(fs, body, front, r);
  }

  /** A prefix of a prefix of what follows the first two elements. */
  lemma NestedPrefix<T>(fs: seq<T>, body: seq<T>, front: seq<T>, r: seq<T>)
    requires |fs| >= 2 && fs[2..] == body
    requires |body| >= |front| && body[..|front|] == front
    requires |front| >= |r| && front[..|r|] == r
    ensures |fs| >= 2 + |r| && fs[2..2 + |r|] == r
  {
    assert fs[2..2 + |r|] == body[..|front|][..|r|];
  }

  /** After the feed and the patient, the bundle is the body. */
  lemma BundleHoldsBody(d: PatientData, cat: Catalog, start: nat)
    ensures |Bundle(d, cat, start).frags| >= 2 && Bundle(d, cat, start).frags[2..] == Body(d, cat, start + 1).frags
  {
  }

  /** The body opens with the infallible blocks. */
  lemma BodyStartsWithFront(d: PatientData, cat: Catalog, n: nat)
    ensures var front := Front(d, Collected(d.readings, cat), n).frags;
      |Body(d, cat, n).frags| >= |front| && Body(d, cat, n).frags[..|front|] == front
  {
    var front := Front(d, Collected(d.readings, cat), n);
    var rest := Rest(d, front.next);
    assert Body(d, cat, n).frags == front.frags + rest.frags;
  }

  /** The infallible blocks open with the readings. */
  lemma FrontStartsWithReadings(d: PatientData, c: Collection, n: nat)
    ensures var r := Readings(c, n).frags;
      |Front(d, c, n).frags| >= |r| && Front(d, c, n).frags[..|r|] == r
  {
    var r := Readings(c, n);
    var h := Charts(d, r.next);
    var q := Records(d, h.next);
    assert Front(d, c, n).frags == r.frags + (h.frags + q.frags);
  }

  /** The lab block renders every lab result, in order, each under its own
      observation token: nothing is filtered; the medications follow. */
  lemma ChartsLayout(d: PatientData, n: nat)
    ensures var fs := Charts(d, n).frags;
      |fs| == |d.labs| + |MedicationFragments(d.meds, n + |d.labs|)|
      && (forall i :: 0 <= i < |d.labs| ==> fs[i] == LabObservation(Token(Some(ObservationKind), n + i + 1), d.labs[i]))
      && fs[|d.labs|..] == MedicationFragments(d.meds, n + |d.labs|)
  {
    NumberedAt(ObservationKind, d.labs, n, LabFragment);
  }

  // ---------------------------------------------------------------------------
  // Prescriptions and their dispenses

  /** The token of the last prescription in `fs`, if there is one. */
  function LastPrescription(fs: seq<Fragment>): Option<Token> {
    if fs == [] then None
    else if fs[|fs| - 1].MedicationPrescription? then Some(fs[|fs| - 1].id)
    else LastPrescription(fs[..|fs| - 1])
  }

  /** Every dispense points at the prescription printed last before it. */
  ghost predicate DispensesLinked(fs: seq<Fragment>) {
    forall i :: 0 <= i < |fs| && fs[i].MedicationDispense? ==> LastPrescription(fs[..i]) == Some(fs[i].prescriptionId)
  }

  lemma {:induction false} LastPrescriptionAppend(a: seq<Fragment>, b: seq<Fragment>)
    ensures LastPrescription(a + b) == if LastPrescription(b).Some? then LastPrescription(b) else LastPrescription(a)
  {
    if b != [] {
      assert (a + b)[..|a + b| - 1] == a + b[..|b| - 1];
      LastPrescriptionAppend(a, b[..|b| - 1]);
    } else {
      assert a + b == a;
    }
  }

  lemma {:induction false} LastPrescriptionOverDispenses(p: Fragment, ds: seq<Fragment>)
    requires p.MedicationPrescription?
    requires forall j :: 0 <= j < |ds| ==> ds[j].MedicationDispense?
    ensures LastPrescription([p] + ds) == Some(p.id)
  {
    if ds != [] {
      assert ([p] + ds)[..|ds|] == [p] + ds[..|ds| - 1];
      LastPrescriptionOverDispenses(p, ds[..|ds| - 1]);
    }
  }

  /** One medication: its prescription under the first token, then one
      dispense per refill, each under a fresh token and all pointing at that
      prescription. */
  lemma MedicationGroupLayout(m: MedEntry, n: nat)
    ensures var g := MedicationGroup(m, n);
      |g| == 1 + |m.refills|
      && g[0] == MedicationPrescription(Token(Some(PrescriptionKind), n + 1), m.med)
      && forall j :: 0 <= j < |m.refills| ==>
        g[1 + j] == MedicationDispense(Token(Some(DispenseKind), n + 2 + j), g[0].id, m.refills[j])
  {
    var medid := Token(Some(PrescriptionKind), n + 1);
    var ds := Dispenses(m.refills, medid, n + 1);
    DispensesAt(m.refills, medid, n + 1);
    AppendParts([MedicationPrescription(medid, m.med)], ds);
  }

  lemma {:induction false} MedicationsLinked(meds: seq<MedEntry>, n: nat)
    ensures DispensesLinked(MedicationFragments(meds, n))
  {
    if meds != [] {
      var init := meds[..|meds| - 1];
      var m := meds[|meds| - 1];
      var a := MedicationFragments(init, n);
      var g := MedicationGroup(m, n + MedCount(init));
      var fs := MedicationFragments(meds, n);
      assert fs == a + g;
      MedicationsLinked(init, n);
      MedicationGroupLayout(m, n + MedCount(init));
      forall i | 0 <= i < |fs| && fs[i].MedicationDispense?
        ensures LastPrescription(fs[..i]) == Some(fs[i].prescriptionId)
      {
        if i < |a| {
          assert fs[..i] == a[..i] && fs[i] == a[i];
        } else {
          var k := i - |a|;
          assert fs[i] == g[k];
          assert k >= 1;
          assert fs[..i] == a + g[..k];
          assert g[..k] == [g[0]] + g[1..k];
          forall j | 0 <= j < |g[1..k]|
            ensures g[1..k][j].MedicationDispense?
          {
            assert g[1..k][j] == g[1 + j];
            assert g[1 + j] == MedicationDispense(Token(Some(DispenseKind), n + MedCount(init) + 2 + j), g[0].id, m.refills[j]);
          }
          LastPrescriptionOverDispenses(g[0], g[1..k]);
          LastPrescriptionAppend(a, g[..k]);
          assert g[k] == MedicationDispense(Token(Some(DispenseKind), n + MedCount(init) + 2 + (k - 1)), g[0].id, m.refills[k - 1]);
        }
      }
    }
  }

  // ---------------------------------------------------------------------------
  // Immunizations

  /** `f` is the immunization entry for `imm` under counter value `k`, its CVX
      code cut at the last `#`: the system keeps the `#`, the id is the rest. */
  ghost predicate ImmunizationEntryFor(f: Fragment, imm: Immunization, k: nat) {
    f.ImmunizationEntry? && f.id == Token(Some(ImmunizationKind), k) && f.immunization == imm
    && f.cvxSystem + f.cvxId == imm.cvx
    && |f.cvxSystem| > 0 && f.cvxSystem[|f.cvxSystem| - 1] == '#' && '#' !in f.cvxId
  }

  /** The immunization block fails exactly when some CVX code has no `#`. */
  lemma {:induction false} ImmunizationsFail(imms: seq<Immunization>, n: nat)
    ensures ImmunizationFragments(imms, n).error.None? <==> forall i :: 0 <= i < |imms| ==> '#' in imms[i].cvx
  {
    if imms != [] {
      var init := imms[..|imms| - 1];
      ImmunizationsFail(init, n);
      if ImmunizationFragments(init, n).error.None? {
        forall i | 0 <= i < |init|
          ensures '#' in imms[i].cvx
        {
          assert imms[i] == init[i];
        }
      } else {
        var b :| 0 <= b < |init| && '#' !in init[b].cvx;
        assert imms[b] == init[b];
      }
    }
  }

  /** When every CVX code holds a `#`, the block renders one entry per
      immunization, in order, each under its own token. */
  lemma {:induction false} ImmunizationsLayout(imms: seq<Immunization>, n: nat)
    requires forall i :: 0 <= i < |imms| ==> '#' in imms[i].cvx
    ensures var e := ImmunizationFragments(imms, n);
      e.error.None? && |e.frags| == |imms| && e.next == n + |imms|
      && forall i :: 0 <= i < |imms| ==> ImmunizationEntryFor(e.frags[i], imms[i], n + i + 1)
  {
    if imms != [] {
      var init := imms[..|imms| - 1];
      var last := imms[|imms| - 1];
      ImmunizationsLayout(init, n);
      var e0 := ImmunizationFragments(init, n);
      var parts := SplitLast(last.cvx, '#').value;
      assert parts.0 + "#" + parts.1 == last.cvx;
      var f := ImmunizationEntry(Token(Some(ImmunizationKind), e0.next + 1), parts.0 + "#", parts.1, last);
      var e := ImmunizationFragments(imms, n);
      assert e.frags == e0.frags + [f];
      assert ImmunizationEntryFor(f, last, n + |imms|);
      forall i | 0 <= i < |init|
        ensures ImmunizationEntryFor(e.frags[i], imms[i], n + i + 1)
      {
        assert e.frags[i] == e0.frags[i] && imms[i] == init[i];
      }
    }
  }

  /** A CVX code without `#` at position `b`, the first such: the entries
      before it are printed, its token is spent, and the bundle stops there. */
  lemma ImmunizationAborts(imms: seq<Immunization>, n: nat, b: nat)
    requires b < |imms| && '#' !in imms[b].cvx
    requires forall i :: 0 <= i < b ==> '#' in imms[i].cvx
    ensures ImmunizationFragments(imms, n)
      == Emission(ImmunizationFragments(imms[..b], n).frags, n + b + 1, Some(MalformedCvx(imms[b].cvx)))
  {
    var upto := imms[..b + 1];
    assert upto[..b] == imms[..b] && upto[b] == imms[b];
    ImmunizationsLayout(imms[..b], n);
    var e0 := ImmunizationFragments(imms[..b], n);
    assert ImmunizationFragments(upto, n) == Emission(e0.frags, n + b + 1, Some(MalformedCvx(imms[b].cvx)));
    ImmunizationErrorSticks(imms, b + 1, n);
  }

  // ---------------------------------------------------------------------------
  // Smoking status and gestational age

  /** The closing blocks fail exactly on a smoking code missing from the
      table, before any token is drawn; otherwise the status is printed with
      the table's text, and the gestational-age observation appears exactly
      when the patient has a gestational age. */
  lemma ClosingOutcome(d: PatientData, n: nat)
    ensures var e := Closing(d, n);
      (e.error.Some? <==> d.social.Some? && d.social.value.smokingStatusCode !in SmokingCodes)
      && (e.error.Some? ==>
            e.frags == [] && e.next == n && e.error == Some(UnknownSmokingCode(d.social.value.smokingStatusCode)))
      && (e.error.None? && d.social.Some? ==>
            var code := d.social.value.smokingStatusCode;
            e.frags[0] == SmokingStatus(Token(Some(SocialHistoryKind), n + 1), code, SmokingCodes[code]))
      && (e.error.None? ==>
            ((exists i :: 0 <= i < |e.frags| && e.frags[i].Observation? && e.frags[i].obs.code == "18185-9")
               <==> d.patient.gestage != ""))
      && (e.error.None? && d.patient.gestage != "" ==>
            e.frags[|e.frags| - 1] == Observation(Token(Some(ObservationKind), e.next), GestationalObs(d.patient)))
  {
    var e := Closing(d, n);
    if e.error.None? && d.patient.gestage != "" {
      assert e.frags[|e.frags| - 1].obs.code == "18185-9";
    }
  }
}
