/** The attribute-defaulting engine of the discrete-document generator
    (`_set_default_attrs` in bin/indivo.py) and the default tables the
    generator hands it. */
module Defaults {

  /** An attribute value as the loaders and the default tables supply it.
      `Nothing` stands for `None`. */
  datatype Value = Str(s: string) | Int(i: int) | Nothing

  /** Python truthiness of a value. */
  predicate Truthy(v: Value) {
    match v
    case Str(s) => s != ""
    case Int(i) => i != 0
    case Nothing => false
  }

  /** `getattr(obj, name, None)` taken as a condition: an attribute the
      object lacks reads as `None`. */
  predicate Set(attrs: map<string, Value>, name: string) {
    name in attrs && Truthy(attrs[name])
  }

  /** One entry of a default table: when `trigger` is unset, every attribute
      of `values` is written. */
  datatype Entry = Entry(trigger: string, values: map<string, Value>)

  /** `_set_default_attrs(obj, subs)` on the attribute map of `obj`, with the
      table's entries in the order the dictionary yields them. */
  function Defaulted(attrs: map<string, Value>, subs: seq<Entry>): map<string, Value> {
    if subs == [] then attrs
    else
      var before := Defaulted(attrs, subs[..|subs| - 1]);
      var e := subs[|subs| - 1];
      if Set(before, e.trigger) then before else before + e.values
  }

  /** A loader record whose attributes `setattr` changes in place. */
  class Record {
    var attrs: map<string, Value>

    constructor (attrs: map<string, Value>)
      ensures this.attrs == attrs
    {
      this.attrs := attrs;
    }

    /** The inner loop: `setattr` for every attribute of `values`, one at a time. */
    method SetAll(values: map<string, Value>)
      modifies this
      ensures attrs == old(attrs) + values
    {
      var todo := values.Keys;
      while todo != {}
        invariant todo <= values.Keys
        invariant attrs == old(attrs) + map k | k in values.Keys - todo :: values[k]
        decreases todo
      {
        var k :| k in todo;
        attrs := attrs[k := values[k]];
        todo := todo - {k};
      }
      assert values.Keys - todo == values.Keys;
    }

    /** `_set_default_attrs(self, subs)`. */
    method SetDefaultAttrs(subs: seq<Entry>)
      modifies this
      ensures attrs == Defaulted(old(attrs), subs)
    {
      for i := 0 to |subs|
        invariant attrs == Defaulted(old(attrs), subs[..i])
      {
        assert subs[..i + 1][..i] == subs[..i];
        if !Set(attrs, subs[i].trigger) {
          SetAll(subs[i].values);
        }
      }
      assert subs[..|subs|] == subs;
    }
  }

  // ---------------------------------------------------------------------------
  // The default tables of addProblems and addMeds

  const ProblemDefaults: seq<Entry> := [Entry("end", map["end" := Str("2010-09-13")])]

  const FillDefaults: seq<Entry> := [
    Entry("qunit", map["qunit" := Str("{tab}")]),
    Entry("pbm", map["pbm" := Str("T00000000001011")]),
    Entry("ncpdp", map["ncpdp" := Str("5235235")]),
    Entry("pharm_org", map["pharm_org" := Str("CVS #588")]),
    Entry("pharm_co", map["pharm_co" := Str("Australia")]),
    Entry("pharm_ci", map["pharm_ci" := Str("Wonder City")]),
    Entry("pharm_pc", map["pharm_pc" := Str("5555")]),
    Entry("pharm_st", map["pharm_st" := Str("111 Lake Drive")]),
    Entry("pharm_re", map["pharm_re" := Str("West Australia")]),
    Entry("prov_dea", map["prov_dea" := Str("325555555")]),
    Entry("prov_npi", map["prov_npi" := Str("5235235")]),
    Entry("prov_email", map["prov_email" := Str("jmandel@fake.emailserver.com")]),
    Entry("prov_fn", map["prov_fn" := Str("Joshua")]),
    Entry("prov_ln", map["prov_ln" := Str("Mandel")]),
    Entry("prov_tel", map["prov_tel" := Str("1-234-567-8910")])
  ]

  const MedDefaults: seq<Entry> := [
    Entry("qtt", map["qtt" := Int(30), "qttunit" := Str("{tab}")]),
    Entry("freq", map["freq" := Int(2), "frequnit" := Str("/d")]),
    Entry("prov", map["prov" := Str("Derived by prescription"), "prov_id" := Str("prescription")]),
    Entry("end", map["end" := Str("2010-04-09")])
  ]

  /** Every entry writes a truthy value for its own trigger, and whatever any
      entry writes to any trigger is truthy. */
  ghost predicate SelfSetting(subs: seq<Entry>) {
    (forall i :: 0 <= i < |subs| ==> subs[i].trigger in subs[i].values)
    && (forall i, j :: 0 <= i < |subs| && 0 <= j < |subs| && subs[j].trigger in subs[i].values ==>
          Truthy(subs[i].values[subs[j].trigger]))
  }

  // ---------------------------------------------------------------------------
  // Properties

  /** An entry whose trigger is unset writes all its attributes, overwriting
      siblings that were already set; one whose trigger is set writes nothing. */
  lemma DefaultEntry(attrs: map<string, Value>, subs: seq<Entry>, e: Entry)
    ensures var before := Defaulted(attrs, subs); var after := Defaulted(attrs, subs + [e]);
      (!Set(before, e.trigger) ==> forall k :: k in e.values ==> k in after && after[k] == e.values[k])
      && (!Set(before, e.trigger) ==> forall k :: k in before && k !in e.values ==> k in after && after[k] == before[k])
      && (Set(before, e.trigger) ==> after == before)
  {
    assert (subs + [e])[..|subs|] == subs;
  }

  /** An attribute no entry writes keeps its value. */
  lemma {:induction false} DefaultedKeeps(attrs: map<string, Value>, subs: seq<Entry>, k: string)
    requires forall i :: 0 <= i < |subs| ==> k !in subs[i].values
    ensures k in Defaulted(attrs, subs) <==> k in attrs
    ensures k in attrs ==> Defaulted(attrs, subs)[k] == attrs[k]
  {
    if subs != [] {
      DefaultedKeeps(attrs, subs[..|subs| - 1], k);
    }
  }

  /** Under a self-setting table every trigger ends up set. */
  lemma {:induction false} TriggersSet(attrs: map<string, Value>, subs: seq<Entry>)
    requires SelfSetting(subs)
    ensures forall i :: 0 <= i < |subs| ==> Set(Defaulted(attrs, subs), subs[i].trigger)
  {
    if subs != [] {
      var init := subs[..|subs| - 1];
      var e := subs[|subs| - 1];
      assert SelfSetting(init);
      TriggersSet(attrs, init);
      var before := Defaulted(attrs, init);
      forall i | 0 <= i < |subs|
        ensures Set(Defaulted(attrs, subs), subs[i].trigger)
      {
        if i < |init| {
          assert Set(before, init[i].trigger);
        }
      }
    }
  }

  /** When every trigger is already set, the table changes nothing. */
  lemma {:induction false} AllSetUnchanged(attrs: map<string, Value>, subs: seq<Entry>)
    requires forall i :: 0 <= i < |subs| ==> Set(attrs, subs[i].trigger)
    ensures Defaulted(attrs, subs) == attrs
  {
    if subs != [] {
      AllSetUnchanged(attrs, subs[..|subs| - 1]);
    }
  }

  /** Applying a self-setting table twice is applying it once. */
  lemma DefaultedIdempotent(attrs: map<string, Value>, subs: seq<Entry>)
    requires SelfSetting(subs)
    ensures Defaulted(Defaulted(attrs, subs), subs) == Defaulted(attrs, subs)
  {
    TriggersSet(attrs, subs);
    AllSetUnchanged(Defaulted(attrs, subs), subs);
  }

  /** Every value the table writes is truthy. */
  ghost predicate WritesTruthy(subs: seq<Entry>) {
    forall i, k :: 0 <= i < |subs| && k in subs[i].values ==> Truthy(subs[i].values[k])
  }

  lemma SelfSettingFromTruthy(subs: seq<Entry>)
    requires forall i :: 0 <= i < |subs| ==> subs[i].trigger in subs[i].values
    requires WritesTruthy(subs)
    ensures SelfSetting(subs)
  {
  }

  /** The three tables the generator uses are self-setting, so defaulting a
      record twice (a problem or medication shared between runs) is harmless. */
  lemma TablesSelfSetting()
    ensures SelfSetting(ProblemDefaults) && SelfSetting(FillDefaults) && SelfSetting(MedDefaults)
  {
    SelfSettingFromTruthy(ProblemDefaults);
    FillDefaultsTruthy();
    SelfSettingFromTruthy(FillDefaults);
    MedDefaultsTruthy();
    SelfSettingFromTruthy(MedDefaults);
  }

  lemma FillDefaultsTruthy()
    ensures forall i :: 0 <= i < |FillDefaults| ==> FillDefaults[i].trigger in FillDefaults[i].values
    ensures WritesTruthy(FillDefaults)
  {
    forall i, k | 0 <= i < |FillDefaults| && k in FillDefaults[i].values
      ensures Truthy(FillDefaults[i].values[k])
    {
      assert FillDefaults[i].values.Keys == {FillDefaults[i].trigger};
    }
  }

  lemma MedDefaultsTruthy()
    ensures forall i :: 0 <= i < |MedDefaults| ==> MedDefaults[i].trigger in MedDefaults[i].values
    ensures WritesTruthy(MedDefaults)
  {
  }

  /** A medication without a quantity gets 30 `{tab}`, even when it already
      had a quantity unit: the sibling is overwritten. */
  lemma MedQuantityDefault(attrs: map<string, Value>)
    requires !Set(attrs, "qtt")
    ensures var r := Defaulted(attrs, MedDefaults);
      "qtt" in r && r["qtt"] == Int(30) && "qttunit" in r && r["qttunit"] == Str("{tab}")
  {
    var s1 := MedDefaults[..1];
    assert s1 == [MedDefaults[0]] && s1[..0] == [];
    assert Defaulted(attrs, s1[..0]) == attrs;
    assert Defaulted(attrs, s1) == attrs + MedDefaults[0].values;
    assert forall i :: 1 <= i < |MedDefaults| ==> "qtt" !in MedDefaults[i].values && "qttunit" !in MedDefaults[i].values;
    DefaultedTail(attrs, MedDefaults, 1, "qtt");
    DefaultedTail(attrs, MedDefaults, 1, "qttunit");
  }

  /** A medication whose quantity is set keeps it (42 stays 42), and keeps
      its quantity unit too. */
  lemma MedQuantityKept(attrs: map<string, Value>)
    requires Set(attrs, "qtt")
    ensures var r := Defaulted(attrs, MedDefaults);
      "qtt" in r && r["qtt"] == attrs["qtt"]
      && ("qttunit" in r <==> "qttunit" in attrs)
      && ("qttunit" in attrs ==> r["qttunit"] == attrs["qttunit"])
  {
    assert MedDefaults[..1][..0] == [] && MedDefaults[..1][0] == MedDefaults[0];
    assert Defaulted(attrs, MedDefaults[..1]) == attrs;
    DefaultedTail(attrs, MedDefaults, 1, "qtt");
    DefaultedTail(attrs, MedDefaults, 1, "qttunit");
  }

  /** An attribute only entry `i` writes is there afterwards exactly when it
      was there before or the entry's trigger was unset, provided no earlier
      entry writes that trigger. */
  lemma DefaultedSibling(attrs: map<string, Value>, subs: seq<Entry>, i: nat, k: string)
    requires i < |subs| && k in subs[i].values
    requires forall j :: 0 <= j < |subs| && j != i ==> k !in subs[j].values
    requires forall j :: 0 <= j < i ==> subs[i].trigger !in subs[j].values
    ensures k in Defaulted(attrs, subs) <==> k in attrs || !Set(attrs, subs[i].trigger)
  {
    DefaultedTail(attrs, subs, i + 1, k);
    assert subs[..i + 1][..i] == subs[..i];
    DefaultedKeeps(attrs, subs[..i], k);
    DefaultedKeeps(attrs, subs[..i], subs[i].trigger);
  }

  /** The attributes the medication table can write. */
  const MedWritten: set<string> := {"qtt", "qttunit", "freq", "frequnit", "prov", "prov_id", "end"}

  /** An attribute the medication table never writes keeps its presence. */
  lemma MedKept(med: map<string, Value>, k: string)
    requires k !in MedWritten
    ensures k in Defaulted(med, MedDefaults) <==> k in med
  {
    forall i | 0 <= i < |MedDefaults|
      ensures k !in MedDefaults[i].values
    {
    }
    DefaultedKeeps(med, MedDefaults, k);
  }

  /** What the medication table leaves a record with: its triggers always,
      the attributes it never writes exactly when the record had them, and
      a unit exactly when the record had one or did not set the value the
      unit belongs to. */
  lemma MedPresence(med: map<string, Value>)
    ensures var d := Defaulted(med, MedDefaults);
      ("name" in d <==> "name" in med) && ("rxn" in d <==> "rxn" in med)
      && ("sig" in d <==> "sig" in med) && ("start" in d <==> "start" in med)
      && "end" in d && "freq" in d && "qtt" in d && "prov" in d
      && ("frequnit" in d <==> "frequnit" in med || !Set(med, "freq"))
      && ("qttunit" in d <==> "qttunit" in med || !Set(med, "qtt"))
      && ("prov_id" in d <==> "prov_id" in med || !Set(med, "prov"))
  {
    MedKept(med, "name");
    MedKept(med, "rxn");
    MedKept(med, "sig");
    MedKept(med, "start");
    MedTriggersPresent(med);
    MedUnitsPresent(med);
  }

  lemma MedTriggersPresent(med: map<string, Value>)
    ensures var d := Defaulted(med, MedDefaults);
      "end" in d && "freq" in d && "qtt" in d && "prov" in d
  {
    TablesSelfSetting();
    TriggersSet(med, MedDefaults);
    var d := Defaulted(med, MedDefaults);
    assert Set(d, MedDefaults[0].trigger) && Set(d, MedDefaults[1].trigger);
    assert Set(d, MedDefaults[2].trigger) && Set(d, MedDefaults[3].trigger);
  }

  lemma MedUnitsPresent(med: map<string, Value>)
    ensures var d := Defaulted(med, MedDefaults);
      ("frequnit" in d <==> "frequnit" in med || !Set(med, "freq"))
      && ("qttunit" in d <==> "qttunit" in med || !Set(med, "qtt"))
      && ("prov_id" in d <==> "prov_id" in med || !Set(med, "prov"))
  {
    DefaultedSibling(med, MedDefaults, 0, "qttunit");
    DefaultedSibling(med, MedDefaults, 1, "frequnit");
    DefaultedSibling(med, MedDefaults, 2, "prov_id");
  }

  /** An attribute the refill table never writes keeps its presence. */
  lemma FillKept(f: map<string, Value>, k: string)
    requires forall i :: 0 <= i < |FillDefaults| ==> k != FillDefaults[i].trigger
    ensures k in Defaulted(f, FillDefaults) <==> k in f
  {
    forall i | 0 <= i < |FillDefaults|
      ensures k !in FillDefaults[i].values
    {
      assert FillDefaults[i].values.Keys == {FillDefaults[i].trigger};
    }
    DefaultedKeeps(f, FillDefaults, k);
  }

  /** What the refill table leaves a record with: the date, days and
      quantity exactly when the record had them, and all fifteen pharmacy and
      prescriber attributes. */
  lemma FillPresence(f: map<string, Value>)
    ensures var d := Defaulted(f, FillDefaults);
      ("date" in d <==> "date" in f) && ("days" in d <==> "days" in f) && ("q" in d <==> "q" in f)
      && "qunit" in d && "pbm" in d && "ncpdp" in d && "pharm_org" in d && "pharm_co" in d
      && "pharm_ci" in d && "pharm_pc" in d && "pharm_st" in d && "pharm_re" in d && "prov_dea" in d
      && "prov_npi" in d && "prov_email" in d && "prov_fn" in d && "prov_ln" in d && "prov_tel" in d
  {
    FillKept(f, "date");
    FillKept(f, "days");
    FillKept(f, "q");
    FillTriggersPresent(f);
  }

  lemma FillTriggersPresent(f: map<string, Value>)
    ensures var d := Defaulted(f, FillDefaults);
      "qunit" in d && "pbm" in d && "ncpdp" in d && "pharm_org" in d && "pharm_co" in d
      && "pharm_ci" in d && "pharm_pc" in d && "pharm_st" in d && "pharm_re" in d && "prov_dea" in d
      && "prov_npi" in d && "prov_email" in d && "prov_fn" in d && "prov_ln" in d && "prov_tel" in d
  {
    TablesSelfSetting();
    TriggersSet(f, FillDefaults);
    var d := Defaulted(f, FillDefaults);
    assert Set(d, FillDefaults[0].trigger) && Set(d, FillDefaults[1].trigger) && Set(d, FillDefaults[2].trigger);
    assert Set(d, FillDefaults[3].trigger) && Set(d, FillDefaults[4].trigger) && Set(d, FillDefaults[5].trigger);
    assert Set(d, FillDefaults[6].trigger) && Set(d, FillDefaults[7].trigger) && Set(d, FillDefaults[8].trigger);
    assert Set(d, FillDefaults[9].trigger) && Set(d, FillDefaults[10].trigger) && Set(d, FillDefaults[11].trigger);
    assert Set(d, FillDefaults[12].trigger) && Set(d, FillDefaults[13].trigger) && Set(d, FillDefaults[14].trigger);
  }

  /** Entries from `m` on leave an attribute none of them writes as it was
      after the first `m`. */
  lemma {:induction false} DefaultedTail(attrs: map<string, Value>, subs: seq<Entry>, m: nat, k: string)
    requires m <= |subs|
    requires forall i :: m <= i < |subs| ==> k !in subs[i].values
    ensures k in Defaulted(attrs, subs) <==> k in Defaulted(attrs, subs[..m])
    ensures k in Defaulted(attrs, subs[..m]) ==> Defaulted(attrs, subs)[k] == Defaulted(attrs, subs[..m])[k]
    decreases |subs| - m
  {
    if m == |subs| {
      assert subs[..m] == subs;
    } else {
      var before := Defaulted(attrs, subs[..m]);
      assert subs[..m + 1][..m] == subs[..m];
      assert Defaulted(attrs, subs[..m + 1]) == if Set(before, subs[m].trigger) then before else before + subs[m].values;
      DefaultedTail(attrs, subs, m + 1, k);
    }
  }
}
