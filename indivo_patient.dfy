/** `IndivoSamplePatient` (bin/indivo.py): the object that collects a
    patient's documents in its `data` list, step by step, and writes them out
    as a data profile. The loader records it defaults are `Record` objects
    changed in place, as the source's `setattr` changes them. */
module IndivoPatient {
  import opened Wrappers
  import opened Text
  import opened Defaults
  import opened IndivoDocs

  /** A medication record together with the refill records the loader lists
      for it (`Refill.refill_list(pid, m.rxn)`). */
  datatype MedEntry = MedEntry(med: Record, fills: seq<Record>)

  /** The attribute maps of a list of records, in the current state. */
  function AttrsOf(recs: seq<Record>): (r: seq<map<string, Value>>)
    reads RecordSet(recs)
    ensures |r| == |recs|
    ensures forall k :: 0 <= k < |recs| ==> r[k] == recs[k].attrs
  {
    if recs == [] then []
    else AttrsOf(recs[..|recs| - 1]) + [recs[|recs| - 1].attrs]
  }

  /** Every medication and refill record of a medication list. */
  function MedRecords(meds: seq<MedEntry>): set<Record> {
    MedOwnRecords(meds) + FillRecords(meds)
  }

  /** The medication records of a medication list. */
  function MedOwnRecords(meds: seq<MedEntry>): set<Record> {
    set j | 0 <= j < |meds| :: meds[j].med
  }

  /** The records of a list, as a set. */
  function RecordSet(recs: seq<Record>): set<Record> {
    set k | 0 <= k < |recs| :: recs[k]
  }

  /** Every refill record of a medication list. */
  function FillRecords(meds: seq<MedEntry>): set<Record> {
    set j, k | 0 <= j < |meds| && 0 <= k < |meds[j].fills| :: meds[j].fills[k]
  }

  /** Medications and refills are objects of different loader classes, so no
      medication record is also a refill record. */
  predicate MedsApart(meds: seq<MedEntry>) {
    forall j, i, k :: 0 <= j < |meds| && 0 <= i < |meds| && 0 <= k < |meds[i].fills| ==> meds[j].med != meds[i].fills[k]
  }

  /** The attribute values of a medication list, in the current state. */
  function MedSnapshot(meds: seq<MedEntry>): (r: seq<MedValues>)
    reads MedRecords(meds)
    ensures |r| == |meds|
    ensures forall j :: 0 <= j < |meds| ==> r[j].med == meds[j].med.attrs && |r[j].fills| == |meds[j].fills|
    ensures forall j, k :: 0 <= j < |meds| && 0 <= k < |meds[j].fills| ==> r[j].fills[k] == meds[j].fills[k].attrs
  {
    if meds == [] then []
    else
      var init := meds[..|meds| - 1];
      var last := meds[|meds| - 1];
      MedRecordsSplit(meds);
      MedSnapshot(init) + [MedValues(last.med.attrs, AttrsOf(last.fills))]
  }

  /** The records of a medication list hold those of its leading entries and
      those of its last entry. */
  lemma MedRecordsSplit(meds: seq<MedEntry>)
    requires meds != []
    ensures MedRecords(meds[..|meds| - 1]) <= MedRecords(meds)
    ensures meds[|meds| - 1].med in MedRecords(meds)
    ensures RecordSet(meds[|meds| - 1].fills) <= MedRecords(meds)
  {
    var init := meds[..|meds| - 1];
    forall j | 0 <= j < |init| ensures init[j] == meds[j] { }
    var last := |meds| - 1;
    forall r | r in RecordSet(meds[last].fills) ensures r in FillRecords(meds) {
      var k :| 0 <= k < |meds[last].fills| && meds[last].fills[k] == r;
      assert meds[last].fills[k] in FillRecords(meds);
    }
  }

  /** The attributes of a list of records depend only on those records. */
  twostate lemma AttrsFrame(recs: seq<Record>)
    requires unchanged(RecordSet(recs))
    ensures AttrsOf(recs) == old(AttrsOf(recs))
  {
  }

  /** A snapshot depends only on the medication and refill records. */
  twostate lemma SnapshotFrame(meds: seq<MedEntry>)
    requires unchanged(MedRecords(meds))
    ensures MedSnapshot(meds) == old(MedSnapshot(meds))
  {
  }

  /** The in-place effect of `addProblems` and `addMeds` when neither
      raised: every problem, medication and refill record, which had the
      attributes `problems` and `medValues`, holds their defaulted form,
      `after` and `afterMeds`. */
  ghost predicate RecordsDefaulted(problems: seq<map<string, Value>>, medValues: seq<MedValues>,
                                   after: seq<map<string, Value>>, afterMeds: seq<MedValues>)
  {
    |after| == |problems| && |afterMeds| == |medValues|
    && (forall k :: 0 <= k < |problems| ==> after[k] == Defaulted(problems[k], ProblemDefaults))
    && (forall j :: 0 <= j < |medValues| ==>
          afterMeds[j] == MedValues(Defaulted(medValues[j].med, MedDefaults), FillsDefaulted(medValues[j].fills, FillDefaults)))
  }

  /** The attributes `orig` holds for a list of records. */
  function ValuesOf(recs: seq<Record>, orig: map<Record, map<string, Value>>): (v: seq<map<string, Value>>)
    requires forall r :: r in recs ==> r in orig
    ensures |v| == |recs|
    ensures forall k :: 0 <= k < |recs| ==> v[k] == orig[recs[k]]
  {
    seq(|recs|, k requires 0 <= k < |recs| => orig[recs[k]])
  }

  /** `orig` holds an entry for every record of the medication list. */
  ghost predicate Covers(orig: map<Record, map<string, Value>>, meds: seq<MedEntry>) {
    (forall j :: 0 <= j < |meds| ==> meds[j].med in orig)
    && (forall j, k :: 0 <= j < |meds| && 0 <= k < |meds[j].fills| ==> meds[j].fills[k] in orig)
  }

  /** Every record of `recs` holds the defaulted form of its attributes in
      `orig` once it is in `touched`, and its attributes in `orig` before.
      A builder that stops part-way leaves its records in this state. */
  ghost predicate DefaultedAt(recs: set<Record>, orig: map<Record, map<string, Value>>, touched: set<Record>, subs: seq<Entry>)
    reads recs
  {
    forall r :: r in recs ==> r in orig && r.attrs == if r in touched then Defaulted(orig[r], subs) else orig[r]
  }

  /** The medication and refill records after part of `addMeds`: the
      medication records in `tm` and the refill records in `tf` carry their
      defaults. */
  ghost predicate MedsDefaultedAt(meds: seq<MedEntry>, orig: map<Record, map<string, Value>>, tm: set<Record>, tf: set<Record>,
                                  medSubs: seq<Entry>, fillSubs: seq<Entry>)
    reads MedRecords(meds)
  {
    DefaultedAt(MedOwnRecords(meds), orig, tm, medSubs) && DefaultedAt(FillRecords(meds), orig, tf, fillSubs)
  }

  /** `_set_default_attrs` on one record of a group: the record joins the
      defaulted ones and the others keep their state. A record defaulted
      before is defaulted again, which changes nothing more. */
  method DefaultOne(r: Record, ghost all: set<Record>, ghost orig: map<Record, map<string, Value>>, ghost touched: set<Record>, subs: seq<Entry>)
    requires SelfSetting(subs)
    requires r in all && DefaultedAt(all, orig, touched, subs)
    modifies r
    ensures r.attrs == Defaulted(orig[r], subs)
    ensures DefaultedAt(all, orig, touched + {r}, subs)
  {
    DefaultedIdempotent(orig[r], subs);
    r.SetDefaultAttrs(subs);
  }

  /** The set of the first `k + 1` records of a list. */
  lemma RecordSetStep(recs: seq<Record>, k: nat)
    requires k < |recs|
    ensures RecordSet(recs[..k + 1]) == RecordSet(recs[..k]) + {recs[k]}
  {
    assert recs[..k + 1] == recs[..k] + [recs[k]];
  }

  /** The refill loop of `addMeds` after `k` turns: the first `k` refills
      were read by the refill template with their defaults, and `attrs`
      holds what they read. */
  ghost predicate FillsRead(fills: seq<Record>, orig: map<Record, map<string, Value>>, subs: seq<Entry>,
                            k: nat, attrs: seq<map<string, Value>>)
  {
    k <= |fills| && (forall r :: r in fills ==> r in orig) && |attrs| == k
    && forall k2 :: 0 <= k2 < k ==> attrs[k2] == Defaulted(orig[fills[k2]], subs) && FillResult(orig[fills[k2]], subs).Ok?
  }

  /** One turn of the refill loop of `addMeds`: the `k`-th refill is
      defaulted and read; it either lacks an attribute or joins the refills
      read. */
  method FillStep(fills: seq<Record>, k: nat, ghost all: set<Record>, ghost orig: map<Record, map<string, Value>>,
                  ghost touched: set<Record>, subs: seq<Entry>, attrs: seq<map<string, Value>>)
      returns (next: Result<seq<map<string, Value>>, IndivoError>)
    requires SelfSetting(subs) && k < |fills| && RecordSet(fills) <= all
    requires FillsRead(fills, orig, subs, k, attrs) && DefaultedAt(all, orig, touched + RecordSet(fills[..k]), subs)
    modifies fills[k]
    ensures DefaultedAt(all, orig, touched + RecordSet(fills[..k + 1]), subs)
    ensures next.Err? ==> FillResult(orig[fills[k]], subs) == Err(next.error)
    ensures next.Ok? ==> FillsRead(fills, orig, subs, k + 1, next.value)
  {
    var f := fills[k];
    RecordSetStep(fills, k);
    DefaultOne(f, all, orig, touched + RecordSet(fills[..k]), subs);
    assert touched + RecordSet(fills[..k]) + {f} == touched + RecordSet(fills[..k + 1]);
    var t := Template(f.attrs, FillFields);
    if t.Err? {
      return Err(t.error);
    }
    next := Ok(attrs + [f.attrs]);
  }

  /** The refill loop stops at the first refill lacking an attribute. */
  lemma FillsStop(fills: seq<Record>, orig: map<Record, map<string, Value>>, subs: seq<Entry>,
                  k: nat, attrs: seq<map<string, Value>>, e: IndivoError)
    requires k < |fills| && FillsRead(fills, orig, subs, k, attrs)
    requires FillResult(orig[fills[k]], subs) == Err(e)
    ensures var rs := FillResults(ValuesOf(fills, orig), subs);
      FirstFailure(rs) == k && rs[k] == Err(e) && fills[..Reached(rs)] == fills[..k + 1]
  {
    var rs := FillResults(ValuesOf(fills, orig), subs);
    FirstFailureAt(rs, k);
  }

  /** The refill loop that reads every refill reads them all defaulted. */
  lemma FillsDone(fills: seq<Record>, orig: map<Record, map<string, Value>>, subs: seq<Entry>,
                  attrs: seq<map<string, Value>>)
    requires FillsRead(fills, orig, subs, |fills|, attrs)
    ensures var rs := FillResults(ValuesOf(fills, orig), subs);
      FirstFailure(rs) == |rs| && fills[..Reached(rs)] == fills[..|fills|]
      && attrs == FillsDefaulted(ValuesOf(fills, orig), subs)
  {
    var rs := FillResults(ValuesOf(fills, orig), subs);
    FirstFailureAt(rs, |fills|);
  }

  /** The refill loop of `addMeds`: each refill record gets the pharmacy and
      prescriber defaults in place and is read by the refill template; the
      first refill lacking an attribute raises. `all` is every refill record
      and `orig` the attributes they had before `addMeds` began. The result
      is the defaulted refills, or the error; the refills reached are
      defaulted. */
  method DefaultFills(fills: seq<Record>, ghost all: set<Record>, ghost orig: map<Record, map<string, Value>>,
                      ghost touched: set<Record>, subs: seq<Entry>)
      returns (r: Result<seq<map<string, Value>>, IndivoError>)
    requires SelfSetting(subs)
    requires RecordSet(fills) <= all && DefaultedAt(all, orig, touched, subs)
    modifies fills
    ensures var rs := FillResults(ValuesOf(fills, orig), subs);
      r == (if FirstFailure(rs) < |rs| then Err(rs[FirstFailure(rs)].error) else Ok(FillsDefaulted(ValuesOf(fills, orig), subs)))
    ensures DefaultedAt(all, orig, touched + RecordSet(fills[..Reached(FillResults(ValuesOf(fills, orig), subs))]), subs)
  {
    assert fills[..0] == [];
    var attrs: seq<map<string, Value>> := [];
    for k := 0 to |fills|
      invariant FillsRead(fills, orig, subs, k, attrs)
      invariant DefaultedAt(all, orig, touched + RecordSet(fills[..k]), subs)
    {
      var next := FillStep(fills, k, all, orig, touched, subs, attrs);
      if next.Err? {
        FillsStop(fills, orig, subs, k, attrs, next.error);
        return Err(next.error);
      }
      attrs := next.value;
    }
    FillsDone(fills, orig, subs, attrs);
    r := Ok(attrs);
  }

  /** `orig` and a snapshot hold the same attributes for every record. */
  ghost predicate OrigAgrees(meds: seq<MedEntry>, orig: map<Record, map<string, Value>>, snap: seq<MedValues>)
    requires Covers(orig, meds)
  {
    |snap| == |meds|
    && (forall j :: 0 <= j < |meds| ==> snap[j].med == orig[meds[j].med] && |snap[j].fills| == |meds[j].fills|)
    && (forall j, k :: 0 <= j < |meds| && 0 <= k < |meds[j].fills| ==> snap[j].fills[k] == orig[meds[j].fills[k]])
  }

  /** The attributes of every record of the list, keyed by record. */
  ghost function OrigOf(meds: seq<MedEntry>, snap: seq<MedValues>): (orig: map<Record, map<string, Value>>)
    requires snap == MedSnapshot(meds)
    reads MedRecords(meds)
    ensures Covers(orig, meds) && OrigAgrees(meds, orig, snap)
    ensures forall r :: r in MedRecords(meds) ==> r in orig && orig[r] == r.attrs
  {
    map r | r in MedRecords(meds) :: r.attrs
  }

  /** The medication list has one value per entry and one refill value per
      refill record. */
  ghost predicate Shaped(meds: seq<MedEntry>, vals: seq<MedValues>) {
    |vals| == |meds| && forall j :: 0 <= j < |meds| ==> |vals[j].fills| == |meds[j].fills|
  }

  /** The medication records `addMeds` defaults before it stops: those of
      the medications before the first that raises, and that one's own
      record when every refill of it went through. */
  ghost function MedsTouched(meds: seq<MedEntry>, vals: seq<MedValues>, medSubs: seq<Entry>, fillSubs: seq<Entry>): set<Record>
    requires Shaped(meds, vals)
  {
    var b := FirstFailure(MedResults(vals, medSubs, fillSubs));
    MedOwnRecords(meds[..b]) + (if b < |meds| && MedProgress(vals[b], medSubs, fillSubs).1 then {meds[b].med} else {})
  }

  /** The refill records `addMeds` defaults before it stops: those of the
      medications before the first that raises, and that one's refills up
      to the one that raised. */
  ghost function FillsTouched(meds: seq<MedEntry>, vals: seq<MedValues>, medSubs: seq<Entry>, fillSubs: seq<Entry>): set<Record>
    requires Shaped(meds, vals)
  {
    var b := FirstFailure(MedResults(vals, medSubs, fillSubs));
    FillRecords(meds[..b]) + (if b < |meds| then RecordSet(meds[b].fills[..MedProgress(vals[b], medSubs, fillSubs).0]) else {})
  }

  /** The medication records, which had the attributes `vals`, hold
      `after`: the defaulted form of their attributes when they are in
      `tm`, those attributes otherwise; the same for the refill records and
      `tf`. */
  ghost predicate MedsAt(meds: seq<MedEntry>, vals: seq<MedValues>, after: seq<MedValues>, tm: set<Record>, tf: set<Record>,
                         medSubs: seq<Entry>, fillSubs: seq<Entry>)
  {
    Shaped(meds, vals) && Shaped(meds, after)
    && (forall j :: 0 <= j < |meds| ==>
          after[j].med == if meds[j].med in tm then Defaulted(vals[j].med, medSubs) else vals[j].med)
    && (forall j, k :: 0 <= j < |meds| && 0 <= k < |meds[j].fills| ==>
          after[j].fills[k] == if meds[j].fills[k] in tf then Defaulted(vals[j].fills[k], fillSubs) else vals[j].fills[k])
  }

  /** The problem records, which had the attributes `before`, hold `after`:
      the defaulted form of their attributes when they are in `touched`,
      those attributes otherwise. */
  ghost predicate ProblemsAt(probs: seq<Record>, before: seq<map<string, Value>>, after: seq<map<string, Value>>, touched: set<Record>)
  {
    |before| == |probs| && |after| == |probs|
    && forall k :: 0 <= k < |probs| ==>
         after[k] == if probs[k] in touched then Defaulted(before[k], ProblemDefaults) else before[k]
  }

  /** The loader records after `addProblems` and `addMeds`, whichever of
      them raised: the problems up to the one that raised are defaulted;
      the medication records are as `addMeds` left them, or as they were
      when `addProblems` raised. `problems` and `medValues` are the
      records' attributes before, `after` and `afterMeds` after. */
  ghost predicate RecordsAfter(probs: seq<Record>, meds: seq<MedEntry>, problems: seq<map<string, Value>>, medValues: seq<MedValues>,
                               after: seq<map<string, Value>>, afterMeds: seq<MedValues>)
  {
    |problems| == |probs| && Shaped(meds, medValues)
    && ProblemsAt(probs, problems, after, RecordSet(probs[..Reached(ProblemResults(problems))]))
    && if ProblemOutcome(problems).error.Some? then MedsAt(meds, medValues, afterMeds, {}, {}, MedDefaults, FillDefaults)
       else MedsAt(meds, medValues, afterMeds, MedsTouched(meds, medValues, MedDefaults, FillDefaults),
                   FillsTouched(meds, medValues, MedDefaults, FillDefaults), MedDefaults, FillDefaults)
  }

  /** When neither step raised, every record is defaulted. */
  lemma RecordsAfterSucceeded(probs: seq<Record>, meds: seq<MedEntry>, problems: seq<map<string, Value>>, medValues: seq<MedValues>,
                              after: seq<map<string, Value>>, afterMeds: seq<MedValues>)
    requires RecordsAfter(probs, meds, problems, medValues, after, afterMeds)
    requires RecordOutcome(problems, medValues).error.None?
    ensures RecordsDefaulted(problems, medValues, after, afterMeds)
  {
    var prs := ProblemResults(problems);
    CollectFail(prs);
    assert Reached(prs) == |probs|;
    assert probs[..|probs|] == probs;
    var mrs := MedResults(medValues, MedDefaults, FillDefaults);
    CollectFail(mrs);
    assert FirstFailure(mrs) == |meds|;
    assert meds[..|meds|] == meds;
    forall j | 0 <= j < |meds|
      ensures afterMeds[j] == MedValues(Defaulted(medValues[j].med, MedDefaults), FillsDefaulted(medValues[j].fills, FillDefaults))
    {
      assert meds[j].med in MedOwnRecords(meds);
      forall k | 0 <= k < |meds[j].fills|
        ensures meds[j].fills[k] in FillRecords(meds)
      {
      }
    }
  }

  /** A problem list defaulted up to some records, as `addProblems` leaves
      it. */
  lemma ProblemsAtOf(probs: seq<Record>, before: seq<map<string, Value>>, orig: map<Record, map<string, Value>>, touched: set<Record>)
    requires |before| == |probs|
    requires forall k :: 0 <= k < |probs| ==> probs[k] in orig && orig[probs[k]] == before[k]
    requires DefaultedAt(RecordSet(probs), orig, touched, ProblemDefaults)
    ensures ProblemsAt(probs, before, AttrsOf(probs), touched)
  {
    forall k | 0 <= k < |probs|
      ensures probs[k] in RecordSet(probs)
    {
    }
  }

  /** A medication list defaulted up to some records, as `addMeds` leaves
      it. */
  lemma MedsAtOf(meds: seq<MedEntry>, vals: seq<MedValues>, orig: map<Record, map<string, Value>>, tm: set<Record>, tf: set<Record>,
                 medSubs: seq<Entry>, fillSubs: seq<Entry>)
    requires Covers(orig, meds) && OrigAgrees(meds, orig, vals)
    requires MedsDefaultedAt(meds, orig, tm, tf, medSubs, fillSubs)
    ensures MedsAt(meds, vals, MedSnapshot(meds), tm, tf, medSubs, fillSubs)
  {
    forall j | 0 <= j < |meds|
      ensures meds[j].med in MedOwnRecords(meds)
    {
    }
    forall j, k | 0 <= j < |meds| && 0 <= k < |meds[j].fills|
      ensures meds[j].fills[k] in FillRecords(meds)
    {
    }
  }

  /** No medication record of a list is one of its refill records. */
  lemma MedsApartSets(meds: seq<MedEntry>)
    requires MedsApart(meds)
    ensures MedOwnRecords(meds) !! FillRecords(meds)
  {
    forall r | r in MedOwnRecords(meds)
      ensures r !in FillRecords(meds)
    {
      var j :| 0 <= j < |meds| && meds[j].med == r;
      assert forall i, k :: 0 <= i < |meds| && 0 <= k < |meds[i].fills| ==> meds[i].fills[k] != r;
    }
  }

  /** The refill records of one medication are refill records of the list. */
  lemma FillsInMeds(meds: seq<MedEntry>, i: nat)
    requires i < |meds|
    ensures RecordSet(meds[i].fills) <= FillRecords(meds)
  {
    forall r | r in RecordSet(meds[i].fills)
      ensures r in FillRecords(meds)
    {
      var k :| 0 <= k < |meds[i].fills| && meds[i].fills[k] == r;
    }
  }

  /** One more medication adds its record and its refill records. */
  lemma MedsStep(meds: seq<MedEntry>, i: nat)
    requires i < |meds|
    ensures MedOwnRecords(meds[..i + 1]) == MedOwnRecords(meds[..i]) + {meds[i].med}
    ensures FillRecords(meds[..i + 1]) == FillRecords(meds[..i]) + RecordSet(meds[i].fills[..|meds[i].fills|])
  {
    var a := meds[..i];
    var b := meds[..i + 1];
    assert b == a + [meds[i]];
    assert meds[i].fills[..|meds[i].fills|] == meds[i].fills;
    forall r | r in FillRecords(b)
      ensures r in FillRecords(a) + RecordSet(meds[i].fills)
    {
      var j, k :| 0 <= j < |b| && 0 <= k < |b[j].fills| && b[j].fills[k] == r;
      if j < i {
        assert a[j] == b[j];
      }
    }
    forall r | r in FillRecords(a) + RecordSet(meds[i].fills)
      ensures r in FillRecords(b)
    {
      if r in FillRecords(a) {
        var j, k :| 0 <= j < |a| && 0 <= k < |a[j].fills| && a[j].fills[k] == r;
        assert b[j] == a[j];
      } else {
        var k :| 0 <= k < |meds[i].fills| && meds[i].fills[k] == r;
        assert b[i] == meds[i];
      }
    }
    forall r | r in MedOwnRecords(b)
      ensures r in MedOwnRecords(a) + {meds[i].med}
    {
      var j :| 0 <= j < |b| && b[j].med == r;
      if j < i {
        assert a[j] == b[j];
      }
    }
    forall r | r in MedOwnRecords(a)
      ensures r in MedOwnRecords(b)
    {
      var j :| 0 <= j < |a| && a[j].med == r;
      assert b[j] == a[j];
    }
    assert b[i] == meds[i];
  }

  /** The vital-type catalog of the loader: the general types, read only,
      and the systolic and diastolic types, whose `indivo_prefix` entry
      `getBP` writes. */
  class VitalCatalog {
    const types: seq<VitalType>
    var systolic: VitalType
    var diastolic: VitalType

    constructor (types: seq<VitalType>, systolic: VitalType, diastolic: VitalType)
      ensures this.types == types && this.systolic == systolic && this.diastolic == diastolic
    {
      this.types := types;
      this.systolic := systolic;
      this.diastolic := diastolic;
    }
  }

  /** Some reading of the list has a systolic value. */
  predicate AnySystolic(readings: seq<VitalReading>) {
    readings != [] && (AnySystolic(readings[..|readings| - 1]) || HasSystolic(readings[|readings| - 1]))
  }

  lemma {:induction false} AnySystolicExists(readings: seq<VitalReading>)
    ensures AnySystolic(readings) <==> exists j :: 0 <= j < |readings| && HasSystolic(readings[j])
  {
    if readings != [] {
      var init := readings[..|readings| - 1];
      AnySystolicExists(init);
      assert forall j :: 0 <= j < |init| ==> init[j] == readings[j];
    }
  }

  /** The catalog's systolic and diastolic types after one reading of
      `addVitals` that starts from `cur`: `getBP` sets the systolic prefix
      once the general types are measured, and the diastolic prefix once the
      systolic measurement has succeeded. */
  function ReadingCatalog(v: VitalReading, types: seq<VitalType>, sys0: VitalType, dia0: VitalType,
                          titles: map<string, string>, cur: (VitalType, VitalType)): (VitalType, VitalType)
    requires ReadingReady(v, types, sys0, dia0)
  {
    if HasSystolic(v) && Measurements(types, v, titles).Ok? then
      (BpType(sys0), if Measure(BpType(sys0), v, titles).Ok? then BpType(dia0) else cur.1)
    else cur
  }

  /** The catalog's systolic and diastolic types after `addVitals` has gone
      through `readings` from `cur`; the reading that raises is the last one
      to change them. */
  function VitalsCatalog(readings: seq<VitalReading>, types: seq<VitalType>, sys0: VitalType, dia0: VitalType,
                         titles: map<string, string>, cur: (VitalType, VitalType)): (VitalType, VitalType)
    requires forall j :: 0 <= j < |readings| ==> ReadingReady(readings[j], types, sys0, dia0)
  {
    if readings == [] then cur
    else
      var next := ReadingCatalog(readings[0], types, sys0, dia0, titles, cur);
      if ReadingModel(readings[0], types, sys0, dia0, titles).Err? then next
      else VitalsCatalog(readings[1..], types, sys0, dia0, titles, next)
  }

  /** When no reading raises, `addVitals` leaves both pressure types
      prefixed exactly when some reading has a systolic value, and leaves
      the catalog as it was otherwise. */
  lemma VitalsCatalogSettled(readings: seq<VitalReading>, types: seq<VitalType>, sys0: VitalType, dia0: VitalType,
                             titles: map<string, string>)
    requires forall j :: 0 <= j < |readings| ==> ReadingReady(readings[j], types, sys0, dia0)
    requires VitalsOutcome(readings, types, sys0, dia0, titles).error.None?
    ensures VitalsCatalog(readings, types, sys0, dia0, titles, (sys0, dia0)) ==
      if exists j :: 0 <= j < |readings| && HasSystolic(readings[j]) then (BpType(sys0), BpType(dia0)) else (sys0, dia0)
  {
    CollectFail(ReadingResults(readings, types, sys0, dia0, titles));
    VitalsCatalogAllOk(readings, types, sys0, dia0, titles, (sys0, dia0));
  }

  /** Over readings none of which raises, a systolic reading anywhere sets
      both prefixes, whatever the catalog held before. */
  lemma {:induction false} VitalsCatalogAllOk(readings: seq<VitalReading>, types: seq<VitalType>, sys0: VitalType, dia0: VitalType,
                                              titles: map<string, string>, cur: (VitalType, VitalType))
    requires forall j :: 0 <= j < |readings| ==> ReadingReady(readings[j], types, sys0, dia0)
    requires forall j :: 0 <= j < |readings| ==> ReadingModel(readings[j], types, sys0, dia0, titles).Ok?
    ensures VitalsCatalog(readings, types, sys0, dia0, titles, cur) ==
      if exists j :: 0 <= j < |readings| && HasSystolic(readings[j]) then (BpType(sys0), BpType(dia0)) else cur
  {
    if readings != [] {
      var rest := readings[1..];
      assert forall j :: 0 <= j < |rest| ==> rest[j] == readings[j + 1];
      var next := ReadingCatalog(readings[0], types, sys0, dia0, titles, cur);
      assert VitalsCatalog(readings, types, sys0, dia0, titles, cur) == VitalsCatalog(rest, types, sys0, dia0, titles, next);
      VitalsCatalogAllOk(rest, types, sys0, dia0, titles, next);
      var bp := (BpType(sys0), BpType(dia0));
      if HasSystolic(readings[0]) {
        assert next == bp;
        assert VitalsCatalog(readings, types, sys0, dia0, titles, cur) == bp;
      } else {
        assert next == cur;
        if j :| 0 <= j < |readings| && HasSystolic(readings[j]) {
          assert HasSystolic(rest[j - 1]);
        }
      }
    }
  }

  /** The catalog's types after the steps of `_populate` that can raise:
      as they were when an immunization raised, as `addVitals` left them
      otherwise. */
  function CodedCatalog(imms: seq<Immunization>, readings: seq<VitalReading>, types: seq<VitalType>,
                        sys: VitalType, dia: VitalType, titles: map<string, string>): (VitalType, VitalType)
    requires forall j :: 0 <= j < |readings| ==> ReadingReady(readings[j], types, sys, dia)
  {
    if ImmunizationOutcome(imms, titles).error.Some? then (sys, dia)
    else VitalsCatalog(readings, types, sys, dia, titles, (sys, dia))
  }

  /** The catalog's blood-pressure types after `_populate`: as they were
      when `addProblems` or `addMeds` raised, as the coded steps left them
      otherwise. */
  function PopulateCatalog(problems: seq<map<string, Value>>, medValues: seq<MedValues>, imms: seq<Immunization>,
                           readings: seq<VitalReading>, types: seq<VitalType>, sys: VitalType, dia: VitalType,
                           titles: map<string, string>): (VitalType, VitalType)
    requires forall j :: 0 <= j < |readings| ==> ReadingReady(readings[j], types, sys, dia)
  {
    if RecordOutcome(problems, medValues).error.Some? then (sys, dia)
    else CodedCatalog(imms, readings, types, sys, dia, titles)
  }

  /** The `getVital` loop over the general vital types of one reading,
      in catalog order; the first coding error stops it. */
  method MeasureTypes(types: seq<VitalType>, v: VitalReading, titles: map<string, string>) returns (r: Result<seq<Measurement>, IndivoError>)
    requires forall k :: 0 <= k < |types| ==> types[k].name in v.values
    ensures r == Measurements(types, v, titles)
  {
    var ms: seq<Measurement> := [];
    for t := 0 to |types|
      invariant Measurements(types[..t], v, titles) == Ok(ms)
    {
      assert types[..t + 1][..t] == types[..t];
      var m := Measure(types[t], v, titles);
      if m.Err? {
        MeasurementsPrefixErr(types, t + 1, v, titles);
        return Err(m.error);
      }
      ms := ms + [m.value];
    }
    assert types[..|types|] == types;
    r := Ok(ms);
  }

  /** One reading of `addVitals`: `getVital` for each general type in
      catalog order, then, for a reading with a systolic value, `getBP` on
      the systolic and the diastolic type, each of which first sets the
      type's prefix in the catalog. The first coding error stops the
      reading. `sys0` and `dia0` are the catalog's types before `addVitals`
      began; a type's prefix is set at most once, whatever it was. */
  method MeasureReading(catalog: VitalCatalog, v: VitalReading, titles: map<string, string>, ghost sys0: VitalType, ghost dia0: VitalType) returns (r: Result<Model, IndivoError>)
    requires ReadingReady(v, catalog.types, sys0, dia0)
    requires catalog.systolic == sys0 || catalog.systolic == BpType(sys0)
    requires catalog.diastolic == dia0 || catalog.diastolic == BpType(dia0)
    modifies catalog
    ensures r == ReadingModel(v, catalog.types, sys0, dia0, titles)
    ensures r.Ok? ==> (catalog.systolic == if HasSystolic(v) then BpType(sys0) else old(catalog.systolic))
    ensures r.Ok? ==> (catalog.diastolic == if HasSystolic(v) then BpType(dia0) else old(catalog.diastolic))
    ensures catalog.systolic == if HasSystolic(v) && Measurements(catalog.types, v, titles).Ok? then BpType(sys0) else old(catalog.systolic)
    ensures catalog.diastolic ==
      if HasSystolic(v) && Measurements(catalog.types, v, titles).Ok? && Measure(BpType(sys0), v, titles).Ok?
      then BpType(dia0) else old(catalog.diastolic)
  {
    var general := MeasureTypes(catalog.types, v, titles);
    if general.Err? {
      return Err(general.error);
    }
    var ms := general.value;
    if "systolic" !in v.values {
      return Err(MissingAttribute("systolic"));
    }
    if HasSystolic(v) {
      catalog.systolic := BpType(catalog.systolic);
      var s := Measure(catalog.systolic, v, titles);
      if s.Err? {
        return Err(s.error);
      }
      catalog.diastolic := BpType(catalog.diastolic);
      var d := Measure(catalog.diastolic, v, titles);
      if d.Err? {
        return Err(d.error);
      }
      ms := ms + [s.value, d.value];
    }
    var date := CleanVitalsDate(v.timestamp);
    var start := CleanVitalsDate(v.startDate);
    var end := CleanVitalsDate(v.endDate);
    r := Ok(VitalSignsModel(date, start, end, v.encounterType == "ambulatory", ms));
  }

  /** The name of the file holding the `i`-th document of `data`. */
  function DocFileName(i: nat): string {
    "doc_" + NatToString(i) + ".xml"
  }

  /** No two documents are written to the same file. */
  lemma DocFileNamesDistinct(i: nat, j: nat)
    requires i != j
    ensures DocFileName(i) != DocFileName(j)
    ensures DocFileName(i) != "Demographics.xml" && DocFileName(i) != "Contact.xml"
  {
    var a := NatToString(i);
    var b := NatToString(j);
    assert DocFileName(i)[0] == 'd';
    if DocFileName(i) == DocFileName(j) {
      assert |a| == |b|;
      assert a == DocFileName(i)[4..4 + |a|];
      assert b == DocFileName(j)[4..4 + |b|];
      NatToStringInjective(i, j);
    }
  }

  /** One file of a data profile. */
  datatype File = File(name: string, doc: Document)

  /** The `doc_<i>.xml` files of a patient's documents, in order. */
  function DocFiles(docs: seq<Document>): seq<File> {
    if docs == [] then []
    else DocFiles(docs[..|docs| - 1]) + [File(DocFileName(|docs| - 1), docs[|docs| - 1])]
  }

  /** The `i`-th document is written to `doc_<i>.xml`. */
  lemma {:induction false} DocFilesLayout(docs: seq<Document>)
    ensures |DocFiles(docs)| == |docs|
    ensures forall i :: 0 <= i < |docs| ==> DocFiles(docs)[i] == File(DocFileName(i), docs[i])
  {
    if docs != [] {
      var init := docs[..|docs| - 1];
      DocFilesLayout(init);
      assert forall i :: 0 <= i < |init| ==> init[i] == docs[i];
    }
  }

  /** The files of a data profile: the demographics and contact documents
      under their fixed names, then every other document under its index. */
  function ProfileFiles(demographics: Document, contact: Document, docs: seq<Document>): seq<File> {
    [File("Demographics.xml", demographics), File("Contact.xml", contact)] + DocFiles(docs)
  }

  /** A profile holds the demographics, the contact, then every document
      once, in order, each under its index. */
  lemma ProfileFilesLayout(demographics: Document, contact: Document, docs: seq<Document>)
    ensures var fs := ProfileFiles(demographics, contact, docs);
      |fs| == |docs| + 2
      && fs[0] == File("Demographics.xml", demographics) && fs[1] == File("Contact.xml", contact)
      && (forall i :: 0 <= i < |docs| ==> fs[i + 2] == File(DocFileName(i), docs[i]))
  {
    var head := [File("Demographics.xml", demographics), File("Contact.xml", contact)];
    var ds := DocFiles(docs);
    AppendParts(head, ds);
    DocFilesLayout(docs);
  }

  /** No two files of a profile share a name, so no write overwrites
      another. */
  lemma ProfileFilesDistinct(demographics: Document, contact: Document, docs: seq<Document>)
    ensures var fs := ProfileFiles(demographics, contact, docs);
      forall a, b :: 0 <= a < b < |fs| ==> fs[a].name != fs[b].name
  {
    var fs := ProfileFiles(demographics, contact, docs);
    ProfileFilesLayout(demographics, contact, docs);
    forall a, b | 0 <= a < b < |fs|
      ensures fs[a].name != fs[b].name
    {
      if a >= 2 {
        assert fs[(a - 2) + 2].name == DocFileName(a - 2) && fs[(b - 2) + 2].name == DocFileName(b - 2);
        DocFileNamesDistinct(a - 2, b - 2);
      } else if b >= 2 {
        assert fs[(b - 2) + 2].name == DocFileName(b - 2);
        DocFileNamesDistinct(b - 2, b - 1);
      } else {
        assert "Demographics.xml"[0] == 'D' && "Contact.xml"[0] == 'C';
      }
    }
  }

  /** The records of one medication in `addMeds`: its `rxn` is read, its
      refills are defaulted and filled in, then the medication itself; the
      result is the medication model or the first missing attribute.
      Records listed again (a refill shared between medications) are
      defaulted again, which changes nothing more. */
  method DefaultMed(meds: seq<MedEntry>, i: nat, ghost orig: map<Record, map<string, Value>>, ghost vals: seq<MedValues>,
                    medSubs: seq<Entry>, fillSubs: seq<Entry>, ghost tm: set<Record>, ghost tf: set<Record>)
      returns (r: Result<Model, IndivoError>)
    requires i < |meds| && MedsApart(meds) && Covers(orig, meds) && OrigAgrees(meds, orig, vals)
    requires SelfSetting(medSubs) && SelfSetting(fillSubs)
    requires forall e :: 0 <= e < |medSubs| ==> "rxn" !in medSubs[e].values
    requires MedsDefaultedAt(meds, orig, tm, tf, medSubs, fillSubs)
    modifies meds[i].med, meds[i].fills
    ensures r == MedResult(vals[i], medSubs, fillSubs)
    ensures var p := MedProgress(vals[i], medSubs, fillSubs);
      MedsDefaultedAt(meds, orig, tm + (if p.1 then {meds[i].med} else {}), tf + RecordSet(meds[i].fills[..p.0]), medSubs, fillSubs)
  {
    var e := meds[i];
    var m := e.med;
    assert m in MedOwnRecords(meds);
    DefaultedKeeps(orig[m], medSubs, "rxn");
    if "rxn" !in m.attrs {
      assert e.fills[..0] == [];
      return Err(MissingAttribute("rxn"));
    }
    FillsInMeds(meds, i);
    MedsApartSets(meds);
    assert vals[i].fills == ValuesOf(e.fills, orig);
    label Pre:
    var fills := DefaultFills(e.fills, FillRecords(meds), orig, tf, fillSubs);
    assert unchanged@Pre(MedOwnRecords(meds));
    if fills.Err? {
      return Err(fills.error);
    }
    label Filled:
    DefaultOne(m, MedOwnRecords(meds), orig, tm, medSubs);
    assert unchanged@Filled(FillRecords(meds));
    match Template(m.attrs, MedFields) {
      case Err(x) =>
        r := Err(x);
      case Ok(d) =>
        r := Ok(MedicationModel(d, fills.value));
    }
  }

  /** What `writePatientData` does: writes a profile directory, skips a
      patient whose directory exists, or fails with the error a document
      builder raised. */
  datatype WriteOutcome =
    | Written(dir: string, files: seq<File>)
    | Skipped
    | Failed(error: IndivoError)

  class SamplePatient {
    const pid: string
    /** `int(pid)`; number parsing is not modelled. */
    const pidValue: int
    const person: Person
    /** The first and last name joined by a space. */
    const fullname: string
    var populated: bool
    var demographics: Option<Document>
    var contact: Option<Document>
    var data: seq<Document>

    /** A populated patient has its demographics and contact documents. */
    ghost predicate Valid()
      reads this
    {
      populated ==> demographics.Some? && contact.Some?
    }

    /** The fields other than `data` are as they were. */
    twostate predicate KeepsHeader()
      reads this
    {
      populated == old(populated) && demographics == old(demographics) && contact == old(contact)
    }

    constructor (pid: string, pidValue: int, person: Person)
      ensures this.pid == pid && this.pidValue == pidValue && this.person == person
      ensures fullname == person.fname + " " + person.lname
      ensures !populated && demographics == None && contact == None && data == []
      ensures Valid()
    {
      this.pid := pid;
      this.pidValue := pidValue;
      this.person := person;
      fullname := person.fname + " " + person.lname;
      populated := false;
      demographics := None;
      contact := None;
      data := [];
    }

    /** `addDemographics`. */
    method AddDemographics()
      modifies this
      ensures demographics == Some(DemographicsDoc(person.dob, person.gender))
      ensures populated == old(populated) && contact == old(contact) && data == old(data)
    {
      demographics := Some(DemographicsDoc(person.dob, person.gender));
    }

    /** `addContact`. */
    method AddContact()
      modifies this
      ensures contact == Some(ContactDoc(fullname, person))
      ensures populated == old(populated) && demographics == old(demographics) && data == old(data)
    {
      contact := Some(ContactDoc(fullname, person));
    }

    /** `addLabs`: a result whose value does not parse is skipped; the others
        are written unless their scale is `Qn`. */
    method AddLabs(labs: seq<IndivoLab>)
      modifies this
      ensures data == old(data) + LabDocs(labs)
      ensures KeepsHeader()
    {
      for i := 0 to |labs|
        invariant data == old(data) + LabDocs(labs[..i])
        invariant KeepsHeader()
      {
        assert labs[..i + 1][..i] == labs[..i];
        var l := labs[i];
        if !l.numeric {
          continue;
        }
        if l.scale != "Qn" {
          data := data + [LabDocOf(l)];
        }
      }
      assert labs[..|labs|] == labs;
    }

    /** `addProblems`: each problem record gets its end-date default in
        place and is read by the problem template; the first problem
        lacking an attribute raises, and the documents appended before it
        stay. A record listed twice is defaulted twice, which changes
        nothing more. */
    method AddProblems(probs: seq<Record>) returns (err: Option<IndivoError>)
      modifies this, RecordSet(probs)
      ensures var o := ProblemOutcome(old(AttrsOf(probs)));
        data == old(data) + o.docs && err == o.error
      ensures ProblemsAt(probs, old(AttrsOf(probs)), AttrsOf(probs), RecordSet(probs[..Reached(ProblemResults(old(AttrsOf(probs))))]))
      ensures KeepsHeader()
    {
      ghost var before := AttrsOf(probs);
      ghost var orig := map r | r in RecordSet(probs) :: r.attrs;
      ghost var rs := ProblemResults(before);
      forall k | 0 <= k < |probs|
        ensures probs[k] in orig && rs[k] == ProblemResult(orig[probs[k]])
      {
        assert probs[k] in RecordSet(probs);
      }
      assert probs[..0] == [];
      for i := 0 to |probs|
        invariant data == old(data) + Collect(rs[..i]).docs
        invariant Collect(rs[..i]).error.None?
        invariant DefaultedAt(RecordSet(probs), orig, RecordSet(probs[..i]), ProblemDefaults)
        invariant KeepsHeader()
      {
        err := AddProblemAt(probs, i, orig, rs, old(data));
        if err.Some? {
          CollectPrefixErr(rs, i + 1);
          CollectFirstFailure(rs, i);
          ProblemsAtOf(probs, before, orig, RecordSet(probs[..i + 1]));
          return;
        }
      }
      assert rs[..|probs|] == rs;
      CollectFirstFailure(rs, |probs|);
      ProblemsAtOf(probs, before, orig, RecordSet(probs[..|probs|]));
      err := None;
    }

    /** One iteration of `addProblems`: the `i`-th record is defaulted, then
        read by the problem template. `orig` holds every record's attributes
        before `addProblems` began. */
    method AddProblemAt(probs: seq<Record>, i: nat, ghost orig: map<Record, map<string, Value>>,
                        ghost rs: seq<Result<Model, IndivoError>>, ghost base: seq<Document>) returns (err: Option<IndivoError>)
      requires i < |probs| == |rs|
      requires forall k :: 0 <= k < |probs| ==> probs[k] in orig && rs[k] == ProblemResult(orig[probs[k]])
      requires DefaultedAt(RecordSet(probs), orig, RecordSet(probs[..i]), ProblemDefaults)
      requires Collect(rs[..i]).error.None? && data == base + Collect(rs[..i]).docs
      modifies this, probs[i]
      ensures data == base + Collect(rs[..i + 1]).docs && err == Collect(rs[..i + 1]).error
      ensures err.None? <==> rs[i].Ok?
      ensures DefaultedAt(RecordSet(probs), orig, RecordSet(probs[..i + 1]), ProblemDefaults)
      ensures KeepsHeader()
    {
      TablesSelfSetting();
      var p := probs[i];
      RecordSetStep(probs, i);
      DefaultOne(p, RecordSet(probs), orig, RecordSet(probs[..i]), ProblemDefaults);
      var r: Result<Model, IndivoError>;
      match Template(p.attrs, ProblemFields) {
        case Err(e) =>
          r := Err(e);
        case Ok(d) =>
          r := Ok(ProblemModel(d));
      }
      err := AppendResult(rs, i, r, base);
    }

    /** `addMeds`: for each medication, its `rxn` is read to list the
        refills, each refill record gets the pharmacy and prescriber
        defaults in place and is read by the refill template, then the
        medication record gets its own defaults and is read by the
        medication template. The first missing attribute raises, and the
        documents appended before it stay. */
    method AddMeds(meds: seq<MedEntry>) returns (err: Option<IndivoError>)
      requires MedsApart(meds)
      modifies this, MedRecords(meds)
      ensures var o := MedOutcome(old(MedSnapshot(meds)), MedDefaults, FillDefaults);
        data == old(data) + o.docs && err == o.error
      ensures MedsAt(meds, old(MedSnapshot(meds)), MedSnapshot(meds), MedsTouched(meds, old(MedSnapshot(meds)), MedDefaults, FillDefaults),
                     FillsTouched(meds, old(MedSnapshot(meds)), MedDefaults, FillDefaults), MedDefaults, FillDefaults)
      ensures KeepsHeader()
    {
      TablesSelfSetting();
      forall e | 0 <= e < |MedDefaults|
        ensures "rxn" !in MedDefaults[e].values
      {
      }
      err := AddMedsWith(meds, MedDefaults, FillDefaults);
    }

    /** The loop of `addMeds`, for any self-setting medication and refill
        tables; the medication table does not write `rxn`. */
    method AddMedsWith(meds: seq<MedEntry>, medSubs: seq<Entry>, fillSubs: seq<Entry>) returns (err: Option<IndivoError>)
      requires MedsApart(meds)
      requires SelfSetting(medSubs) && SelfSetting(fillSubs)
      requires forall e :: 0 <= e < |medSubs| ==> "rxn" !in medSubs[e].values
      modifies this, MedRecords(meds)
      ensures var o := MedOutcome(old(MedSnapshot(meds)), medSubs, fillSubs);
        data == old(data) + o.docs && err == o.error
      ensures MedsAt(meds, old(MedSnapshot(meds)), MedSnapshot(meds), MedsTouched(meds, old(MedSnapshot(meds)), medSubs, fillSubs),
                     FillsTouched(meds, old(MedSnapshot(meds)), medSubs, fillSubs), medSubs, fillSubs)
      ensures KeepsHeader()
    {
      ghost var snap := MedSnapshot(meds);
      ghost var orig := OrigOf(meds, snap);
      err := DefaultEachMed(meds, orig, snap, medSubs, fillSubs);
      MedsAtOf(meds, snap, orig, MedsTouched(meds, snap, medSubs, fillSubs), FillsTouched(meds, snap, medSubs, fillSubs), medSubs, fillSubs);
    }

    /** The medication loop of `addMeds`: every medication, in list order,
        has its records defaulted and its document appended, until one
        raises. `orig` and `vals` hold the records' attributes before. */
    method DefaultEachMed(meds: seq<MedEntry>, ghost orig: map<Record, map<string, Value>>, ghost vals: seq<MedValues>,
                          medSubs: seq<Entry>, fillSubs: seq<Entry>) returns (err: Option<IndivoError>)
      requires MedsApart(meds) && Covers(orig, meds) && OrigAgrees(meds, orig, vals)
      requires SelfSetting(medSubs) && SelfSetting(fillSubs)
      requires forall e :: 0 <= e < |medSubs| ==> "rxn" !in medSubs[e].values
      requires MedsDefaultedAt(meds, orig, {}, {}, medSubs, fillSubs)
      modifies this, MedRecords(meds)
      ensures var o := MedOutcome(vals, medSubs, fillSubs);
        data == old(data) + o.docs && err == o.error
      ensures Shaped(meds, vals)
      ensures MedsDefaultedAt(meds, orig, MedsTouched(meds, vals, medSubs, fillSubs), FillsTouched(meds, vals, medSubs, fillSubs), medSubs, fillSubs)
      ensures KeepsHeader()
    {
      ghost var rs := MedResults(vals, medSubs, fillSubs);
      assert meds[..0] == [];
      for i := 0 to |meds|
        invariant data == old(data) + Collect(rs[..i]).docs
        invariant Collect(rs[..i]).error.None?
        invariant MedsDefaultedAt(meds, orig, MedOwnRecords(meds[..i]), FillRecords(meds[..i]), medSubs, fillSubs)
        invariant KeepsHeader()
      {
        MedsStep(meds, i);
        err := AddMedAt(meds, i, orig, vals, medSubs, fillSubs, MedOwnRecords(meds[..i]), FillRecords(meds[..i]), rs, old(data));
        if err.Some? {
          CollectPrefixErr(rs, i + 1);
          CollectFirstFailure(rs, i);
          return;
        }
      }
      assert rs[..|meds|] == rs;
      assert meds[..|meds|] == meds;
      CollectFirstFailure(rs, |meds|);
      err := None;
    }

    /** One iteration of `addMeds`: the medication's records are defaulted
        and read, and its document is appended; the first missing attribute
        stops it. `tm` and `tf` are the medication and refill records
        defaulted before. */
    method AddMedAt(meds: seq<MedEntry>, i: nat, ghost orig: map<Record, map<string, Value>>, ghost vals: seq<MedValues>,
                    medSubs: seq<Entry>, fillSubs: seq<Entry>, ghost tm: set<Record>, ghost tf: set<Record>,
                    ghost rs: seq<Result<Model, IndivoError>>, ghost base: seq<Document>) returns (err: Option<IndivoError>)
      requires i < |meds| && MedsApart(meds) && Covers(orig, meds) && OrigAgrees(meds, orig, vals)
      requires SelfSetting(medSubs) && SelfSetting(fillSubs)
      requires forall e :: 0 <= e < |medSubs| ==> "rxn" !in medSubs[e].values
      requires |rs| == |meds| && rs[i] == MedResult(vals[i], medSubs, fillSubs)
      requires Collect(rs[..i]).error.None? && data == base + Collect(rs[..i]).docs
      requires MedsDefaultedAt(meds, orig, tm, tf, medSubs, fillSubs)
      modifies this, meds[i].med, meds[i].fills
      ensures data == base + Collect(rs[..i + 1]).docs && err == Collect(rs[..i + 1]).error
      ensures err.None? <==> rs[i].Ok?
      ensures var p := MedProgress(vals[i], medSubs, fillSubs);
        MedsDefaultedAt(meds, orig, tm + (if p.1 then {meds[i].med} else {}), tf + RecordSet(meds[i].fills[..p.0]), medSubs, fillSubs)
      ensures KeepsHeader()
    {
      var r := DefaultMed(meds, i, orig, vals, medSubs, fillSubs, tm, tf);
      label Defaulted:
      err := AppendResult(rs, i, r, base);
      assert unchanged@Defaulted(MedRecords(meds));
    }

    /** `addAllergies`: no known allergies below 85 (modulo 100), otherwise
        the drug-class allergy followed by the peanut allergy for an odd id
        and by the drug-class allergy again for an even one. */
    method AddAllergies()
      modifies this
      ensures data == old(data) + AllergyDocs(pidValue)
      ensures KeepsHeader()
    {
      if pidValue % 100 < 85 {
        data := data + [Sdmx(NoKnownAllergies)];
      } else {
        var al := SulfaAllergy;
        data := data + [Sdmx(al)];
        if pidValue % 2 != 0 {
          al := PeanutAllergy;
        }
        data := data + [Sdmx(al)];
      }
    }

    /** `addImmunizations`: one document per immunization, in order; a code
        that cannot be split or looked up raises, and the documents appended
        before it stay. */
    method AddImmunizations(imms: seq<Immunization>, titles: map<string, string>) returns (err: Option<IndivoError>)
      modifies this
      ensures data == old(data) + ImmunizationOutcome(imms, titles).docs
      ensures err == ImmunizationOutcome(imms, titles).error
      ensures KeepsHeader()
    {
      ghost var rs := ImmunizationResults(imms, titles);
      for i := 0 to |imms|
        invariant data == old(data) + Collect(rs[..i]).docs
        invariant Collect(rs[..i]).error.None?
        invariant KeepsHeader()
      {
        var r := ImmunizationModelOf(imms[i], titles);
        err := AppendResult(rs, i, r, old(data));
        if err.Some? {
          CollectPrefixErr(rs, i + 1);
          return;
        }
      }
      assert rs[..|imms|] == rs;
      err := None;
    }

    /** `addVitals`: one vital-signs document per reading, in order; the
        first coding error raises, and the documents appended before it
        stay. `getBP` sets the blood-pressure types' prefix in the catalog
        the first time a reading has a systolic value. */
    method AddVitals(catalog: VitalCatalog, readings: seq<VitalReading>, titles: map<string, string>) returns (err: Option<IndivoError>)
      requires forall j :: 0 <= j < |readings| ==> ReadingReady(readings[j], catalog.types, catalog.systolic, catalog.diastolic)
      modifies this, catalog
      ensures data == old(data) + VitalsOutcome(readings, catalog.types, old(catalog.systolic), old(catalog.diastolic), titles).docs
      ensures err == VitalsOutcome(readings, catalog.types, old(catalog.systolic), old(catalog.diastolic), titles).error
      ensures err.None? ==> (catalog.systolic == if exists j :: 0 <= j < |readings| && HasSystolic(readings[j])
        then BpType(old(catalog.systolic)) else old(catalog.systolic))
      ensures err.None? ==> (catalog.diastolic == if exists j :: 0 <= j < |readings| && HasSystolic(readings[j])
        then BpType(old(catalog.diastolic)) else old(catalog.diastolic))
      ensures (catalog.systolic, catalog.diastolic) == VitalsCatalog(readings, catalog.types, old(catalog.systolic),
        old(catalog.diastolic), titles, (old(catalog.systolic), old(catalog.diastolic)))
      ensures KeepsHeader()
    {
      ghost var sys0 := catalog.systolic;
      ghost var dia0 := catalog.diastolic;
      ghost var rs := ReadingResults(readings, catalog.types, sys0, dia0, titles);
      ghost var after := VitalsCatalog(readings, catalog.types, sys0, dia0, titles, (sys0, dia0));
      for i := 0 to |readings|
        invariant data == old(data) + Collect(rs[..i]).docs
        invariant Collect(rs[..i]).error.None?
        invariant catalog.systolic == if AnySystolic(readings[..i]) then BpType(sys0) else sys0
        invariant catalog.diastolic == if AnySystolic(readings[..i]) then BpType(dia0) else dia0
        invariant after == VitalsCatalog(readings[i..], catalog.types, sys0, dia0, titles, (catalog.systolic, catalog.diastolic))
        invariant KeepsHeader()
      {
        ghost var cur := (catalog.systolic, catalog.diastolic);
        err := VitalsStep(catalog, readings, i, titles, sys0, dia0, rs, old(data));
        assert readings[i..][1..] == readings[i + 1..];
        if err.Some? {
          CollectPrefixErr(rs, i + 1);
          return;
        }
      }
      assert rs[..|readings|] == rs;
      assert readings[..|readings|] == readings;
      AnySystolicExists(readings);
      err := None;
    }

    /** One pass of the `addVitals` loop: the reading's document is
        appended, or its error reported, and the catalog's pressure types
        are set once a systolic reading has been seen. */
    method VitalsStep(catalog: VitalCatalog, readings: seq<VitalReading>, i: nat, titles: map<string, string>,
                      ghost sys0: VitalType, ghost dia0: VitalType, ghost rs: seq<Result<Model, IndivoError>>, ghost base: seq<Document>)
        returns (err: Option<IndivoError>)
      requires i < |readings| && ReadingReady(readings[i], catalog.types, sys0, dia0)
      requires |rs| == |readings| && rs[i] == ReadingModel(readings[i], catalog.types, sys0, dia0, titles)
      requires Collect(rs[..i]).error.None? && data == base + Collect(rs[..i]).docs
      requires catalog.systolic == if AnySystolic(readings[..i]) then BpType(sys0) else sys0
      requires catalog.diastolic == if AnySystolic(readings[..i]) then BpType(dia0) else dia0
      modifies this, catalog
      ensures data == base + Collect(rs[..i + 1]).docs && err == Collect(rs[..i + 1]).error
      ensures err.None? ==> catalog.systolic == if AnySystolic(readings[..i + 1]) then BpType(sys0) else sys0
      ensures err.None? ==> catalog.diastolic == if AnySystolic(readings[..i + 1]) then BpType(dia0) else dia0
      ensures err.None? <==> rs[i].Ok?
      ensures (catalog.systolic, catalog.diastolic) ==
        ReadingCatalog(readings[i], catalog.types, sys0, dia0, titles, (old(catalog.systolic), old(catalog.diastolic)))
      ensures KeepsHeader()
    {
      var r := MeasureReading(catalog, readings[i], titles, sys0, dia0);
      err := AppendResult(rs, i, r, base);
      assert readings[..i + 1][..i] == readings[..i];
    }

    /** Appends the document of one builder result, or reports its error:
        the step shared by `addImmunizations` and `addVitals`, whose loops
        stop at the first exception. */
    method AppendResult(ghost rs: seq<Result<Model, IndivoError>>, i: nat, r: Result<Model, IndivoError>, ghost base: seq<Document>) returns (err: Option<IndivoError>)
      requires i < |rs| && rs[i] == r
      requires Collect(rs[..i]).error.None? && data == base + Collect(rs[..i]).docs
      modifies this
      ensures data == base + Collect(rs[..i + 1]).docs && err == Collect(rs[..i + 1]).error
      ensures err.None? <==> r.Ok?
      ensures KeepsHeader()
    {
      CollectStep(rs, i);
      match r
      case Err(e) =>
        err := Some(e);
      case Ok(m) =>
        data := data + [Sdmx(m)];
        err := None;
    }

    /** The steps of `_populate` up to `addMeds`: the demographics, contact
        and lab steps, which cannot fail, then the problem and medication
        steps. `problems` and `medValues` are the records' attributes on
        entry. */
    method PopulateRecords(labs: seq<IndivoLab>, probs: seq<Record>, meds: seq<MedEntry>,
                           ghost problems: seq<map<string, Value>>, ghost medValues: seq<MedValues>) returns (err: Option<IndivoError>)
      requires MedsApart(meds)
      requires RecordSet(probs) !! MedRecords(meds)
      requires problems == AttrsOf(probs) && medValues == MedSnapshot(meds)
      modifies this, RecordSet(probs), MedRecords(meds)
      ensures var rec := RecordOutcome(problems, medValues);
        data == old(data) + (LabDocs(labs) + rec.docs) && err == rec.error
      ensures RecordsAfter(probs, meds, problems, medValues, AttrsOf(probs), MedSnapshot(meds))
      ensures demographics == Some(DemographicsDoc(person.dob, person.gender))
      ensures contact == Some(ContactDoc(fullname, person))
      ensures populated == old(populated)
    {
      ghost var start := data;
      AddDemographics();
      AddContact();
      AddLabs(labs);
      assert unchanged(MedRecords(meds)) && unchanged(RecordSet(probs));
      SnapshotFrame(meds);
      AttrsFrame(probs);
      err := AddRecordDocs(probs, meds, problems, medValues);
      AppendAssoc(start, LabDocs(labs), RecordOutcome(problems, medValues).docs);
    }

    /** The problem and medication steps of `_populate`: both default their
        records in place, and `addMeds` runs only when `addProblems` did not
        raise. */
    method AddRecordDocs(probs: seq<Record>, meds: seq<MedEntry>, ghost problems: seq<map<string, Value>>, ghost medValues: seq<MedValues>)
        returns (err: Option<IndivoError>)
      requires MedsApart(meds)
      requires RecordSet(probs) !! MedRecords(meds)
      requires problems == AttrsOf(probs) && medValues == MedSnapshot(meds)
      modifies this, RecordSet(probs), MedRecords(meds)
      ensures var rec := RecordOutcome(problems, medValues);
        data == old(data) + rec.docs && err == rec.error
      ensures RecordsAfter(probs, meds, problems, medValues, AttrsOf(probs), MedSnapshot(meds))
      ensures KeepsHeader()
    {
      err := AddProblems(probs);
      SnapshotFrame(meds);
      if err.Some? {
        assert MedsAt(meds, medValues, MedSnapshot(meds), {}, {}, MedDefaults, FillDefaults);
        return;
      }
      label Problems:
      err := AddMeds(meds);
      AttrsFrame@Problems(probs);
      AppendAssoc(old(data), ProblemOutcome(problems).docs, MedOutcome(medValues, MedDefaults, FillDefaults).docs);
    }

    /** `_populate`: the demographics and contact documents, then every
        builder in turn; an exception leaves the documents appended so far,
        the loader records as far as they were defaulted, and the patient
        unpopulated. Problems and medications are objects of different
        loader classes, so no problem record is a medication or refill
        record. */
    method Populate(labs: seq<IndivoLab>, probs: seq<Record>, meds: seq<MedEntry>, imms: seq<Immunization>,
                    catalog: VitalCatalog, readings: seq<VitalReading>, titles: map<string, string>,
                    ghost problems: seq<map<string, Value>>, ghost medValues: seq<MedValues>) returns (err: Option<IndivoError>)
      requires MedsApart(meds)
      requires RecordSet(probs) !! MedRecords(meds)
      requires forall j :: 0 <= j < |readings| ==> ReadingReady(readings[j], catalog.types, catalog.systolic, catalog.diastolic)
      requires problems == AttrsOf(probs) && medValues == MedSnapshot(meds)
      modifies this, RecordSet(probs), MedRecords(meds), catalog
      ensures var o := ProfileOutcome(labs, problems, medValues, pidValue, imms, readings,
                                      catalog.types, old(catalog.systolic), old(catalog.diastolic), titles);
        data == old(data) + o.docs && err == o.error
      ensures RecordsAfter(probs, meds, problems, medValues, AttrsOf(probs), MedSnapshot(meds))
      ensures err.None? ==> RecordsDefaulted(problems, medValues, AttrsOf(probs), MedSnapshot(meds))
      ensures (catalog.systolic, catalog.diastolic) ==
        PopulateCatalog(problems, medValues, imms, readings, catalog.types, old(catalog.systolic), old(catalog.diastolic), titles)
      ensures demographics == Some(DemographicsDoc(person.dob, person.gender))
      ensures contact == Some(ContactDoc(fullname, person))
      ensures populated == (old(populated) || err.None?)
      ensures Valid()
    {
      ghost var start := data;
      ghost var labDocs := LabDocs(labs);
      ghost var rec := RecordOutcome(problems, medValues);
      err := PopulateRecords(labs, probs, meds, problems, medValues);
      if err.Some? {
        return;
      }
      ghost var coded := CodedOutcome(imms, readings, catalog.types, catalog.systolic, catalog.diastolic, titles);
      err := PopulateRest(imms, catalog, readings, titles, probs, meds);
      AppendAssoc(labDocs + rec.docs, AllergyDocs(pidValue), coded.docs);
      AppendAssoc(start, labDocs + rec.docs, AllergyDocs(pidValue) + coded.docs);
      if err.None? {
        RecordsAfterSucceeded(probs, meds, problems, medValues, AttrsOf(probs), MedSnapshot(meds));
      }
    }

    /** The end of `_populate`: the allergy step, the builders that can
        raise, then the flag, set only when none raised. The loader
        records `probs` and `meds` are left alone. */
    method PopulateRest(imms: seq<Immunization>, catalog: VitalCatalog, readings: seq<VitalReading>, titles: map<string, string>,
                        ghost probs: seq<Record>, ghost meds: seq<MedEntry>) returns (err: Option<IndivoError>)
      requires forall j :: 0 <= j < |readings| ==> ReadingReady(readings[j], catalog.types, catalog.systolic, catalog.diastolic)
      requires demographics.Some? && contact.Some?
      modifies this, catalog
      ensures var o := CodedOutcome(imms, readings, catalog.types, old(catalog.systolic), old(catalog.diastolic), titles);
        data == old(data) + (AllergyDocs(pidValue) + o.docs) && err == o.error
      ensures (catalog.systolic, catalog.diastolic) ==
        CodedCatalog(imms, readings, catalog.types, old(catalog.systolic), old(catalog.diastolic), titles)
      ensures AttrsOf(probs) == old(AttrsOf(probs)) && MedSnapshot(meds) == old(MedSnapshot(meds))
      ensures demographics == old(demographics) && contact == old(contact)
      ensures populated == (old(populated) || err.None?)
      ensures Valid()
    {
      ghost var o := CodedOutcome(imms, readings, catalog.types, catalog.systolic, catalog.diastolic, titles);
      AddAllergies();
      err := PopulateCoded(imms, catalog, readings, titles);
      AppendAssoc(old(data), AllergyDocs(pidValue), o.docs);
      if err.None? {
        populated := true;
      }
      AttrsFrame(probs);
      SnapshotFrame(meds);
    }

    /** The steps of `_populate` that can raise: immunizations, then vital
        signs unless an immunization failed. */
    method PopulateCoded(imms: seq<Immunization>, catalog: VitalCatalog, readings: seq<VitalReading>, titles: map<string, string>) returns (err: Option<IndivoError>)
      requires forall j :: 0 <= j < |readings| ==> ReadingReady(readings[j], catalog.types, catalog.systolic, catalog.diastolic)
      modifies this, catalog
      ensures var o := CodedOutcome(imms, readings, catalog.types, old(catalog.systolic), old(catalog.diastolic), titles);
        data == old(data) + o.docs && err == o.error
      ensures (catalog.systolic, catalog.diastolic) ==
        CodedCatalog(imms, readings, catalog.types, old(catalog.systolic), old(catalog.diastolic), titles)
      ensures KeepsHeader()
    {
      ghost var imm := ImmunizationOutcome(imms, titles);
      ghost var vit := VitalsOutcome(readings, catalog.types, catalog.systolic, catalog.diastolic, titles);
      err := AddImmunizations(imms, titles);
      if err.Some? {
        return;
      }
      err := AddVitals(catalog, readings, titles);
      AppendAssoc(old(data), imm.docs, vit.docs);
    }

    /** `writePatientData`: populates the patient first if need be; an
        exception from a builder propagates. A patient whose directory
        `patient_<pid>` exists is skipped; otherwise the directory holds
        `Demographics.xml`, `Contact.xml` and `doc_<i>.xml` for the `i`-th
        document. */
    method WritePatientData(dirExists: bool, labs: seq<IndivoLab>, probs: seq<Record>, meds: seq<MedEntry>, imms: seq<Immunization>,
                            catalog: VitalCatalog, readings: seq<VitalReading>, titles: map<string, string>,
                            ghost problems: seq<map<string, Value>>, ghost medValues: seq<MedValues>) returns (out: WriteOutcome)
      requires Valid()
      requires MedsApart(meds)
      requires RecordSet(probs) !! MedRecords(meds)
      requires forall j :: 0 <= j < |readings| ==> ReadingReady(readings[j], catalog.types, catalog.systolic, catalog.diastolic)
      requires problems == AttrsOf(probs) && medValues == MedSnapshot(meds)
      modifies this, RecordSet(probs), MedRecords(meds), catalog
      ensures old(populated) ==> data == old(data) && demographics == old(demographics) && contact == old(contact)
      ensures !old(populated) ==>
        (var o := ProfileOutcome(labs, problems, medValues, pidValue, imms, readings,
                                 catalog.types, old(catalog.systolic), old(catalog.diastolic), titles);
         data == old(data) + o.docs && (out.Failed? <==> o.error.Some?) && (out.Failed? ==> out.error == o.error.value))
      ensures !old(populated) ==> RecordsAfter(probs, meds, problems, medValues, AttrsOf(probs), MedSnapshot(meds))
      ensures !old(populated) && !out.Failed? ==> RecordsDefaulted(problems, medValues, AttrsOf(probs), MedSnapshot(meds))
      ensures !old(populated) ==> ((catalog.systolic, catalog.diastolic) ==
        PopulateCatalog(problems, medValues, imms, readings, catalog.types, old(catalog.systolic), old(catalog.diastolic), titles))
      ensures !old(populated) ==>
        demographics == Some(DemographicsDoc(person.dob, person.gender)) && contact == Some(ContactDoc(fullname, person))
      ensures old(populated) ==> unchanged(catalog) && unchanged(RecordSet(probs)) && unchanged(MedRecords(meds))
      ensures Valid()
      ensures populated <==> !out.Failed?
      ensures populated ==> out == if dirExists then Skipped else Written("patient_" + pid, ProfileFiles(demographics.value, contact.value, data))
    {
      if !populated {
        var err := Populate(labs, probs, meds, imms, catalog, readings, titles, problems, medValues);
        if err.Some? {
          return Failed(err.value);
        }
      }
      label ready:
      out := WriteProfile(dirExists);
      assert unchanged@ready(this) && unchanged@ready(catalog);
      AttrsFrame@ready(probs);
      SnapshotFrame@ready(meds);
    }

    /** The writing part of `writePatientData` for a populated patient:
        `os.mkdir` fails on an existing directory and the patient is
        skipped; otherwise the demographics and contact documents are
        written, then each document of `data` under its index. */
    method WriteProfile(dirExists: bool) returns (out: WriteOutcome)
      requires populated && Valid()
      ensures out == if dirExists then Skipped else Written("patient_" + pid, ProfileFiles(demographics.value, contact.value, data))
    {
      if dirExists {
        return Skipped;
      }
      var files := [File("Demographics.xml", demographics.value), File("Contact.xml", contact.value)];
      for i := 0 to |data|
        invariant files == ProfileFiles(demographics.value, contact.value, data[..i])
      {
        assert data[..i + 1][..i] == data[..i];
        files := files + [File(DocFileName(i), data[i])];
      }
      assert data[..|data|] == data;
      out := Written("patient_" + pid, files);
    }
  }
}
