/** The patient search of bin/pipeline/query_patients.py: a SPARQL 1.1
    CONSTRUCT query (W3C SPARQL 1.1 Query Language, section 16.2) whose
    WHERE clause gets one triple pattern per search field given on the
    command line. The SMART client call, the printing and argument parsing
    are not modelled; the parsed arguments are the input. */
module Query {
  import opened Wrappers
  import opened Text

  /** The parsed command-line arguments. An option given without a value,
      or not given at all, is `None`. */
  datatype QueryArgs = QueryArgs(
    givenName: Option<string>,
    familyName: Option<string>,
    zipCode: Option<string>,
    gender: Option<string>,
    birthday: Option<string>,
    externalId: Option<string>)

  /** Python truthiness of an optional string: present and non-empty. */
  predicate Given(a: Option<string>) {
    a.Some? && a.value != ""
  }

  /** One search field: the property it constrains, its value, and whether
      the value is an IRI (written `<v>`) or a literal (written `'v'`). */
  datatype Field = Field(property: string, value: Option<string>, iri: bool)

  /** The search fields in the order the query lists them. */
  function Fields(args: QueryArgs): (fs: seq<Field>)
    ensures |fs| == 6
  {
    [ Field("foaf:givenName", args.givenName, false),
      Field("foaf:familyName", args.familyName, false),
      Field("sp:zipcode", args.zipCode, false),
      Field("foaf:gender", args.gender, false),
      Field("sp:birthday", args.birthday, false),
      Field("sp:externalID", args.externalId, true) ]
  }

  /** The triple pattern for a value of a field; the value is inserted as
      it is, with no escaping. */
  function Pattern(property: string, value: string, iri: bool): (s: string)
    ensures |s| > |Subject| && s[..|Subject|] == Subject
  {
    var s := if iri then Subject + property + " <" + value + ">" else Subject + property + " '" + value + "'";
    assert s == Subject + s[|Subject|..];
    s
  }

  /** The subject every pattern constrains. */
  const Subject: string := "?person "

  /** The pattern a field contributes: one when its value is given, none
      otherwise. */
  function Emit(f: Field): seq<string> {
    if Given(f.value) then [Pattern(f.property, f.value.value, f.iri)] else []
  }

  /** The patterns of the given fields, in field order: a table-driven
      reference for the six conditional appends of `run_query`. */
  function PatternsOf(fs: seq<Field>): seq<string> {
    if fs == [] then [] else PatternsOf(fs[..|fs| - 1]) + Emit(fs[|fs| - 1])
  }

  /** The number of given fields. */
  function GivenCount(fs: seq<Field>): nat {
    if fs == [] then 0
    else GivenCount(fs[..|fs| - 1]) + (if Given(fs[|fs| - 1].value) then 1 else 0)
  }

  /** The query text before the placeholder, one template line per row.
      A `PREFIX` line is written as its label, its namespace IRI and its
      line break, and the rdf IRI is cut once more after its host: the
      verifier proves that a literal lacks a character one character at a
      time, and does not get through the whole rdf line or its IRI in one
      piece (see `TemplateHasOnePlaceholder`). */
  const Before: string :=
    "PREFIX  rdf:  " + "<http://www.w3.org/" + "1999/02/22-rdf-syntax-ns#>" + "\n"
    + "PREFIX  foaf:  " + "<http://xmlns.com/foaf/0.1/>" + "\n"
    + "PREFIX  sp:  " + "<http://smartplatforms.org/terms#>" + "\n"
    + "CONSTRUCT {?person rdf:type foaf:Person} \n"
    + "WHERE   {\n"
    + "?person rdf:type foaf:Person. \n"

  /** The placeholder the patterns replace. */
  const Placeholder: string := "$statements_here"

  /** The query text after the placeholder. */
  const After: string := "\n}\norder by ?ln"

  /** The separator between patterns. */
  const Separator: string := ". \n"

  /** The statement list of `run_query`: one append per given field, in
      the fixed order given name, family name, zip code, gender, birthday,
      external id. */
  method Statements(args: QueryArgs) returns (stmts: seq<string>)
    ensures stmts == PatternsOf(Fields(args))
  {
    ghost var fs := Fields(args);
    stmts := [];
    ghost var before := stmts;
    if Given(args.givenName) {
      stmts := stmts + [Pattern("foaf:givenName", args.givenName.value, false)];
    }
    assert stmts == before + Emit(fs[0]);
    before := stmts;
    if Given(args.familyName) {
      stmts := stmts + [Pattern("foaf:familyName", args.familyName.value, false)];
    }
    assert stmts == before + Emit(fs[1]);
    before := stmts;
    if Given(args.zipCode) {
      stmts := stmts + [Pattern("sp:zipcode", args.zipCode.value, false)];
    }
    assert stmts == before + Emit(fs[2]);
    before := stmts;
    if Given(args.gender) {
      stmts := stmts + [Pattern("foaf:gender", args.gender.value, false)];
    }
    assert stmts == before + Emit(fs[3]);
    before := stmts;
    if Given(args.birthday) {
      stmts := stmts + [Pattern("sp:birthday", args.birthday.value, false)];
    }
    assert stmts == before + Emit(fs[4]);
    before := stmts;
    if Given(args.externalId) {
      stmts := stmts + [Pattern("sp:externalID", args.externalId.value, true)];
    }
    assert stmts == before + Emit(fs[5]);
    PatternsOfSix(fs);
  }

  /** The query text of `run_query`: the joined statements replace the
      placeholder, and the rest of the template is unchanged. */
  method RunQuery(args: QueryArgs) returns (q: string)
    ensures q == Before + Join(Separator, PatternsOf(Fields(args))) + After
  {
    var stmts := Statements(args);
    var sparql := Before + Placeholder + After;
    q := ReplaceAll(sparql, Placeholder, Join(Separator, stmts));
    TemplateHasOnePlaceholder();
    ReplaceAllOnce(Before, Placeholder, After, Join(Separator, stmts));
  }

  // ---------------------------------------------------------------------------
  // Properties
  // ---------------------------------------------------------------------------

  /** One more field adds its own pattern, if any, at the end. */
  lemma PatternsStep(fs: seq<Field>, k: nat)
    requires k < |fs|
    ensures PatternsOf(fs[..k + 1]) == PatternsOf(fs[..k]) + Emit(fs[k])
  {
    assert fs[..k + 1][..k] == fs[..k];
  }

  /** The reference list of six fields, unrolled. */
  lemma PatternsOfSix(fs: seq<Field>)
    requires |fs| == 6
    ensures PatternsOf(fs)
      == [] + Emit(fs[0]) + Emit(fs[1]) + Emit(fs[2]) + Emit(fs[3]) + Emit(fs[4]) + Emit(fs[5])
  {
    assert fs[..0] == [];
    PatternsStep(fs, 0);
    PatternsStep(fs, 1);
    PatternsStep(fs, 2);
    PatternsStep(fs, 3);
    PatternsStep(fs, 4);
    PatternsStep(fs, 5);
    assert fs[..6] == fs;
  }

  /** The placeholder's first character occurs nowhere else in the
      template, so `replace` substitutes exactly once. */
  lemma TemplateHasOnePlaceholder()
    ensures Placeholder[0] !in Before && Placeholder[0] !in After
  {
    RdfPrefixLacksDollar();
    FoafPrefixLacksDollar();
    SpPrefixLacksDollar();
    BodyLinesLackDollar();
  }

  // The template lines hold no `$`. Each line has a lemma of its own
  // because the character-by-character proofs of all of them together run
  // out of resource.

  lemma RdfPrefixLacksDollar()
    ensures '$' !in "PREFIX  rdf:  " + "<http://www.w3.org/" + "1999/02/22-rdf-syntax-ns#>" + "\n"
  {
  }

  lemma FoafPrefixLacksDollar()
    ensures '$' !in "PREFIX  foaf:  " + "<http://xmlns.com/foaf/0.1/>" + "\n"
  {
  }

  lemma SpPrefixLacksDollar()
    ensures '$' !in "PREFIX  sp:  " + "<http://smartplatforms.org/terms#>" + "\n"
  {
  }

  lemma BodyLinesLackDollar()
    ensures '$' !in "CONSTRUCT {?person rdf:type foaf:Person} \n"
    ensures '$' !in "WHERE   {\n" + "?person rdf:type foaf:Person. \n"
  {
  }

  /** There is one pattern per given field, and each one is a triple
      pattern about `?person`. */
  lemma {:induction false} PatternsCount(fs: seq<Field>)
    ensures |PatternsOf(fs)| == GivenCount(fs)
    ensures forall k :: 0 <= k < |PatternsOf(fs)| ==>
      |PatternsOf(fs)[k]| > |Subject| && PatternsOf(fs)[k][..|Subject|] == Subject
  {
    if fs != [] {
      PatternsCount(fs[..|fs| - 1]);
    }
  }

  /** A field's pattern holds its value verbatim, between quotes for a
      literal and angle brackets for an IRI. */
  lemma PatternHoldsValue(property: string, value: string, iri: bool)
    ensures var s := Pattern(property, value, iri);
      var n := |Subject| + |property| + 2;
      |s| == n + |value| + 1
      && s[n..n + |value|] == value
      && s[n - 1] == (if iri then '<' else '\'')
      && s[|s| - 1] == (if iri then '>' else '\'')
  {
  }

  /** With no search field given the placeholder disappears, leaving the
      single `?person rdf:type foaf:Person` pattern. */
  lemma NoFieldsQuery(args: QueryArgs)
    requires !Given(args.givenName) && !Given(args.familyName) && !Given(args.zipCode)
    requires !Given(args.gender) && !Given(args.birthday) && !Given(args.externalId)
    ensures PatternsOf(Fields(args)) == []
    ensures Before + Join(Separator, PatternsOf(Fields(args))) + After == Before + After
  {
    var fs := Fields(args);
    PatternsOfSix(fs);
  }

  /** With only a given name, the query constrains that name alone. */
  lemma GivenNameOnlyQuery(args: QueryArgs)
    requires Given(args.givenName) && !Given(args.familyName) && !Given(args.zipCode)
    requires !Given(args.gender) && !Given(args.birthday) && !Given(args.externalId)
    ensures Join(Separator, PatternsOf(Fields(args))) == Pattern("foaf:givenName", args.givenName.value, false)
  {
    var fs := Fields(args);
    var p := Pattern("foaf:givenName", args.givenName.value, false);
    PatternsOfSix(fs);
    assert PatternsOf(fs) == [p];
  }

  /** Two given fields are joined by the separator, in field order. */
  lemma FamilyNameAndZipQuery(args: QueryArgs)
    requires !Given(args.givenName) && Given(args.familyName) && Given(args.zipCode)
    requires !Given(args.gender) && !Given(args.birthday) && !Given(args.externalId)
    ensures Join(Separator, PatternsOf(Fields(args)))
      == Pattern("foaf:familyName", args.familyName.value, false) + Separator + Pattern("sp:zipcode", args.zipCode.value, false)
  {
    var fs := Fields(args);
    var a := Pattern("foaf:familyName", args.familyName.value, false);
    var b := Pattern("sp:zipcode", args.zipCode.value, false);
    PatternsOfSix(fs);
    assert PatternsOf(fs) == [a, b];
    assert [a, b][..1] == [a];
  }
}
