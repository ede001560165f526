/** Vital-sign extraction and grouping of the transactional-bundle generator
    (`getVital` and the collection loop of `writePatientData` in bin/fhir.py). */
module FhirVitals {
  import opened Wrappers
  import opened Text

  /** One entry of the vital-sign catalog: the attribute name read off a
      reading, the LOINC code URI and the unit. */
  datatype VitalType = VitalType(name: string, uri: string, unit: string)

  /** The catalog: the independent vital types, and the two blood-pressure
      components that are read separately. */
  datatype Catalog = Catalog(types: seq<VitalType>, systolic: VitalType, diastolic: VitalType)

  /** A value `float()` accepts: a finite number, or one of the texts
      `nan`, `inf` and `-inf`, which `int()` then rejects. */
  datatype Number = Finite(x: real) | NonFinite

  /** `int()` of a finite float: the integer part, truncated toward zero. */
  function Truncate(x: real): (n: int)
    ensures 0.0 <= x ==> n as real <= x < n as real + 1.0
    ensures x < 0.0 ==> n as real - 1.0 < x <= n as real
  {
    if 0.0 <= x then x.Floor else -((-x).Floor)
  }

  /** A raw vital-sign reading. An attribute name missing from `values` is an
      attribute the reading does not have; `None` is an attribute whose text
      `float()` rejects; `Some(x)` is the value it parses to. */
  datatype Reading = Reading(timestamp: string, values: map<string, Option<Number>>)

  /** The dictionary `getVital` builds. */
  datatype Vital = Vital(date: string, code: string, units: string, value: Number, scale: string, name: string)

  /** A systolic reading extended with the two pressures as `int()` gives them. */
  datatype BloodPressure = BloodPressure(reading: Vital, systolic: int, diastolic: int)

  /** Everything the collection loop gathers for one patient: the composites
      in `bps` and the independent measurements in `othervitals`. */
  datatype Collection = Collection(bps: seq<BloodPressure>, others: seq<Vital>)

  predicate Parses(v: Reading, vt: VitalType) {
    vt.name in v.values && v.values[vt.name].Some?
  }

  /** The value of `vt` parses and `int()` accepts it. */
  predicate Whole(v: Reading, vt: VitalType) {
    Parses(v, vt) && v.values[vt.name].value.Finite?
  }

  /** `getVital(v, vt)`; `None` where the Python code raises (attribute
      missing, or `float()` fails). */
  function GetVital(v: Reading, vt: VitalType): (r: Option<Vital>)
    ensures r.Some? <==> Parses(v, vt)
    ensures r.Some? ==> r.value.value == v.values[vt.name].value
    ensures r.Some? ==> r.value.date == Take(v.timestamp, 10)
    ensures r.Some? ==> r.value.code == LastSegment(vt.uri, '/')
    ensures r.Some? ==> r.value.units == vt.unit && r.value.scale == "Qn" && r.value.name == vt.name
  {
    if Parses(v, vt) then
      Some(Vital(Take(v.timestamp, 10), LastSegment(vt.uri, '/'), vt.unit, v.values[vt.name].value, "Qn", vt.name))
    else None
  }

  /** The inner loop over the catalog: the readable vital types, in catalog order. */
  function ReadingVitals(v: Reading, types: seq<VitalType>): seq<Vital> {
    if types == [] then []
    else
      var last := types[|types| - 1];
      ReadingVitals(v, types[..|types| - 1])
        + (if Parses(v, last) then [GetVital(v, last).value] else [])
  }

  /** The `try` block that forms one blood-pressure composite: both values
      must parse, and `int()` must accept both. */
  function ReadingBloodPressure(v: Reading, cat: Catalog): (r: Option<BloodPressure>)
    ensures r.Some? <==> Whole(v, cat.systolic) && Whole(v, cat.diastolic)
    ensures r.Some? ==> r.value.systolic == Truncate(v.values[cat.systolic.name].value.x)
    ensures r.Some? ==> r.value.diastolic == Truncate(v.values[cat.diastolic.name].value.x)
    ensures r.Some? ==> r.value.reading == GetVital(v, cat.systolic).value
  {
    if Whole(v, cat.systolic) && Whole(v, cat.diastolic) then
      var systolic, diastolic := GetVital(v, cat.systolic).value, GetVital(v, cat.diastolic).value;
      Some(BloodPressure(systolic, Truncate(systolic.value.x), Truncate(diastolic.value.x)))
    else None
  }

  /** Pressures of 120.7 and 80.2 become the integers 120 and 80, and a
      diastolic value of `nan` drops the composite although both parse. */
  lemma PressureExamples(cat: Catalog)
    requires cat.systolic.name != cat.diastolic.name
    ensures var v := Reading("2010-06-01 10:00", map[cat.systolic.name := Some(Finite(120.7)), cat.diastolic.name := Some(Finite(80.2))]);
      ReadingBloodPressure(v, cat) == Some(BloodPressure(GetVital(v, cat.systolic).value, 120, 80))
    ensures var v := Reading("2010-06-01 10:00", map[cat.systolic.name := Some(Finite(120.7)), cat.diastolic.name := Some(NonFinite)]);
      Parses(v, cat.systolic) && Parses(v, cat.diastolic) && ReadingBloodPressure(v, cat) == None
  {
    assert Truncate(120.7) == 120;
    assert Truncate(80.2) == 80;
  }

  /** The composite a reading contributes, as a list of zero or one. */
  function ReadingPressures(v: Reading, cat: Catalog): seq<BloodPressure> {
    var bp := ReadingBloodPressure(v, cat);
    if bp.Some? then [bp.value] else []
  }

  /** The composites the collection loop gathers from the given readings. */
  function CollectedPressures(readings: seq<Reading>, cat: Catalog): seq<BloodPressure> {
    if readings == [] then []
    else
      CollectedPressures(readings[..|readings| - 1], cat)
        + ReadingPressures(readings[|readings| - 1], cat)
  }

  /** The independent measurements the collection loop gathers from the given readings. */
  function CollectedOthers(readings: seq<Reading>, cat: Catalog): seq<Vital> {
    if readings == [] then []
    else
      CollectedOthers(readings[..|readings| - 1], cat)
        + ReadingVitals(readings[|readings| - 1], cat.types)
  }

  /** What the collection loop holds after the given readings. */
  function Collected(readings: seq<Reading>, cat: Catalog): Collection {
    Collection(CollectedPressures(readings, cat), CollectedOthers(readings, cat))
  }

  /** The collection loop (bin/fhir.py:74-87). */
  method CollectVitals(readings: seq<Reading>, cat: Catalog) returns (bps: seq<BloodPressure>, others: seq<Vital>)
    ensures Collection(bps, others) == Collected(readings, cat)
  {
    bps, others := [], [];
    for i := 0 to |readings|
      invariant Collection(bps, others) == Collected(readings[..i], cat)
    {
      var v := readings[i];
      ghost var before := others;
      for j := 0 to |cat.types|
        invariant others == before + ReadingVitals(v, cat.types[..j])
      {
        var vt := cat.types[j];
        assert cat.types[..j + 1][..j] == cat.types[..j];
        var vital := GetVital(v, vt);
        if vital.Some? {
          others := others + [vital.value];
        }
      }
      assert cat.types[..|cat.types|] == cat.types;
      var systolic := GetVital(v, cat.systolic);
      var diastolic := GetVital(v, cat.diastolic);
      if systolic.Some? && diastolic.Some? && systolic.value.value.Finite? && diastolic.value.value.Finite? {
        var bp := BloodPressure(systolic.value, Truncate(systolic.value.value.x), Truncate(diastolic.value.value.x));
        bps := bps + [bp];
      }
      assert readings[..i + 1][..i] == readings[..i];
    }
    assert readings[..|readings|] == readings;
  }

  /** Every readable vital type of a reading is kept, and nothing else is. */
  lemma {:induction false} ReadingVitalsComplete(v: Reading, types: seq<VitalType>)
    ensures forall vt :: vt in types && Parses(v, vt) ==> GetVital(v, vt).value in ReadingVitals(v, types)
    ensures forall x :: x in ReadingVitals(v, types) ==> exists vt :: vt in types && GetVital(v, vt) == Some(x)
  {
    if types != [] {
      var init, last := types[..|types| - 1], types[|types| - 1];
      ReadingVitalsComplete(v, init);
      assert types == init + [last];
    }
  }

  /** A reading whose either pressure is missing, unparsable or not finite
      contributes no composite, but all of its other readable vital types are
      still collected. */
  lemma PartialReadingKeepsVitals(readings: seq<Reading>, v: Reading, cat: Catalog)
    requires !Whole(v, cat.systolic) || !Whole(v, cat.diastolic)
    ensures CollectedPressures(readings + [v], cat) == CollectedPressures(readings, cat)
    ensures CollectedOthers(readings + [v], cat) == CollectedOthers(readings, cat) + ReadingVitals(v, cat.types)
  {
    assert (readings + [v])[..|readings|] == readings;
  }

  /** Collecting two runs of readings is collecting each and concatenating:
      the composites keep the readings' order. */
  lemma {:induction false} CollectedPressuresAppend(r1: seq<Reading>, r2: seq<Reading>, cat: Catalog)
    ensures CollectedPressures(r1 + r2, cat) == CollectedPressures(r1, cat) + CollectedPressures(r2, cat)
    decreases |r2|
  {
    if r2 == [] {
      assert r1 + r2 == r1;
    } else {
      var init, v := r2[..|r2| - 1], r2[|r2| - 1];
      CollectedPressuresAppend(r1, init, cat);
      var all := r1 + r2;
      assert all[..|all| - 1] == r1 + init && all[|all| - 1] == v;
      CollectedPressuresLast(all, cat);
      CollectedPressuresLast(r2, cat);
      AppendAssoc(CollectedPressures(r1, cat), CollectedPressures(init, cat), ReadingPressures(v, cat));
    }
  }

  /** The last reading's composite comes last. */
  lemma CollectedPressuresLast(readings: seq<Reading>, cat: Catalog)
    requires readings != []
    ensures CollectedPressures(readings, cat)
      == CollectedPressures(readings[..|readings| - 1], cat) + ReadingPressures(readings[|readings| - 1], cat)
  {
  }

  /** Collecting two runs of readings is collecting each and concatenating:
      the independent measurements keep the readings' order. */
  lemma {:induction false} CollectedOthersAppend(r1: seq<Reading>, r2: seq<Reading>, cat: Catalog)
    ensures CollectedOthers(r1 + r2, cat) == CollectedOthers(r1, cat) + CollectedOthers(r2, cat)
    decreases |r2|
  {
    if r2 == [] {
      assert r1 + r2 == r1;
    } else {
      var init, v := r2[..|r2| - 1], r2[|r2| - 1];
      CollectedOthersAppend(r1, init, cat);
      var all := r1 + r2;
      assert all[..|all| - 1] == r1 + init && all[|all| - 1] == v;
      var a, b, x := CollectedOthers(r1, cat), CollectedOthers(init, cat), ReadingVitals(v, cat.types);
      assert CollectedOthers(all, cat) == CollectedOthers(r1 + init, cat) + x;
      assert CollectedOthers(r2, cat) == b + x;
      AppendAssoc(a, b, x);
    }
  }

  /** The number of readings for which both pressures parse to finite values. */
  function CountComplete(readings: seq<Reading>, cat: Catalog): nat {
    if readings == [] then 0
    else
      var v := readings[|readings| - 1];
      CountComplete(readings[..|readings| - 1], cat)
        + (if Whole(v, cat.systolic) && Whole(v, cat.diastolic) then 1 else 0)
  }

  /** One composite per reading with both pressures, and no other. */
  lemma {:induction false} CollectedCompositeCount(readings: seq<Reading>, cat: Catalog)
    ensures |CollectedPressures(readings, cat)| == CountComplete(readings, cat)
  {
    if readings != [] {
      CollectedCompositeCount(readings[..|readings| - 1], cat);
    }
  }
}
