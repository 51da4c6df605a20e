/**
 * Flattening one bundle: the `for entry in data['entry']` loop of the
 * loader, which fills one simplified-patient dictionary field by field and
 * keeps it only if a Patient entry was seen.
 *
 * `Step` is one iteration of that loop and `Run` the loop over a prefix of
 * the entries; `Simplify` is the whole bundle's contribution. `Texts` and
 * the last Patient index are independent descriptions of the same result,
 * and the lemmas below connect the two.
 */
module Bundle {
  import opened Fhir
  import opened Names

  /** The `_id`, `name`, `gender` and `birthDate` keys, set together by a Patient entry. */
  datatype Demographics = Demographics(id: Option<string>, name: string, gender: Option<string>, birthDate: Option<string>)

  /**
   * The dictionary under construction. `patient` is `None` until a Patient
   * entry sets the demographic keys (`'_id' in simplified_patient`).
   */
  datatype Draft = Draft(patient: Option<Demographics>, conditions: seq<string>, medications: seq<string>, reportsText: seq<string>)

  /** `{"conditions": [], "medications": [], "reports_text": []}` */
  const EmptyDraft := Draft(None, [], [], [])

  const EmptyResource := Resource(None, None, None, None, None, None, None, None)

  /** `entry.get('resource', {})` */
  function ResourceOf(e: Entry): Resource {
    e.resource.GetOr(EmptyResource)
  }

  predicate IsPatient(e: Entry) {
    ResourceOf(e).resourceType == Some("Patient")
  }

  /** A type the loop acts on; every other `resourceType`, or none, is skipped. */
  predicate Recognized(e: Entry) {
    var t := ResourceOf(e).resourceType;
    t == Some("Patient") || t == Some("Condition") || t == Some("MedicationRequest") || t == Some("DiagnosticReport")
  }

  /** The only input the loop cannot handle: a Patient whose `name` is an empty list (`[0]` fails). */
  predicate Indexable(e: Entry) {
    IsPatient(e) ==> ResourceOf(e).name != Some([])
  }

  predicate AllIndexable(es: seq<Entry>) {
    forall i :: 0 <= i < |es| ==> Indexable(es[i])
  }

  /** The demographic keys a Patient resource sets. */
  function PatientOf(r: Resource): Demographics
    requires r.name != Some([])
  {
    Demographics(r.id, PatientName(r.name), r.gender, r.birthDate)
  }

  /** `resource.get('code', {}).get('text')` */
  function ConditionText(r: Resource): Option<string> {
    r.code.GetOr(CodeableConcept(None)).text
  }

  /** `resource.get('medicationCodeableConcept', {}).get('text')` */
  function MedicationText(r: Resource): Option<string> {
    r.medicationCodeableConcept.GetOr(CodeableConcept(None)).text
  }

  /** `resource.get('text', {}).get('div')` */
  function ReportText(r: Resource): Option<string> {
    r.text.GetOr(Narrative(None)).div
  }

  /** One iteration of the entry loop. */
  function Step(d: Draft, e: Entry): Draft
    requires Indexable(e)
  {
    var r := ResourceOf(e);
    if r.resourceType == Some("Patient") then
      d.(patient := Some(PatientOf(r)))
    else if r.resourceType == Some("Condition") then
      if Truthy(ConditionText(r)) then d.(conditions := d.conditions + [ConditionText(r).value]) else d
    else if r.resourceType == Some("MedicationRequest") then
      if Truthy(MedicationText(r)) then d.(medications := d.medications + [MedicationText(r).value]) else d
    else if r.resourceType == Some("DiagnosticReport") then
      if Truthy(ReportText(r)) then d.(reportsText := d.reportsText + [ReportText(r).value]) else d
    else
      d
  }

  /** The entry loop run from `d` over `es`, in order. */
  function Run(d: Draft, es: seq<Entry>): Draft
    requires AllIndexable(es)
    decreases |es|
  {
    if es == [] then d else Step(Run(d, es[..|es| - 1]), es[|es| - 1])
  }

  /** `if '_id' in simplified_patient`: the record is kept only if a Patient was seen. */
  function Finish(d: Draft): Option<Record> {
    match d.patient
    case None => None
    case Some(p) => Some(Record(p.id, p.name, p.gender, p.birthDate, d.conditions, d.medications, d.reportsText))
  }

  /** What one bundle contributes to the list of records. */
  function Simplify(es: seq<Entry>): Option<Record>
    requires AllIndexable(es)
  {
    Finish(Run(EmptyDraft, es))
  }

  // ---------------------------------------------------------------------
  // Reference definitions of the three lists.

  /** The three lists of the record, and the `resourceType` that feeds each. */
  datatype Kind = ConditionList | MedicationList | ReportList

  function Tag(k: Kind): string {
    match k
    case ConditionList => "Condition"
    case MedicationList => "MedicationRequest"
    case ReportList => "DiagnosticReport"
  }

  function TextOf(k: Kind, r: Resource): Option<string> {
    match k
    case ConditionList => ConditionText(r)
    case MedicationList => MedicationText(r)
    case ReportList => ReportText(r)
  }

  function ListOf(d: Draft, k: Kind): seq<string> {
    match k
    case ConditionList => d.conditions
    case MedicationList => d.medications
    case ReportList => d.reportsText
  }

  /** The non-empty texts of the entries of kind `k`, in entry order. */
  function Texts(k: Kind, es: seq<Entry>): seq<string>
    decreases |es|
  {
    if es == [] then []
    else
      var r := ResourceOf(es[0]);
      (if r.resourceType == Some(Tag(k)) && Truthy(TextOf(k, r)) then [TextOf(k, r).value] else [])
      + Texts(k, es[1..])
  }

  // ---------------------------------------------------------------------
  // Lemmas.

  lemma {:induction false} TextsConcat(k: Kind, a: seq<Entry>, b: seq<Entry>)
    ensures Texts(k, a + b) == Texts(k, a) + Texts(k, b)
    decreases |a|
  {
    if a != [] {
      assert (a + b)[1..] == a[1..] + b;
      TextsConcat(k, a[1..], b);
    } else {
      assert a + b == b;
    }
  }

  /** No list ever receives an empty or missing text. */
  lemma {:induction false} TextsNonEmpty(k: Kind, es: seq<Entry>)
    ensures forall i :: 0 <= i < |Texts(k, es)| ==> Texts(k, es)[i] != ""
    decreases |es|
  {
    if es != [] {
      TextsNonEmpty(k, es[1..]);
    }
  }

  lemma StepList(d: Draft, e: Entry, k: Kind)
    requires Indexable(e)
    ensures ListOf(Step(d, e), k) == ListOf(d, k) + Texts(k, [e])
  {
    assert [e][1..] == [];
  }

  /** Each list of the draft grows by exactly the texts of its kind, in entry order. */
  lemma {:induction false} RunList(d: Draft, es: seq<Entry>, k: Kind)
    requires AllIndexable(es)
    ensures ListOf(Run(d, es), k) == ListOf(d, k) + Texts(k, es)
    decreases |es|
  {
    if es != [] {
      var n := |es| - 1;
      RunList(d, es[..n], k);
      StepList(Run(d, es[..n]), es[n], k);
      TextsConcat(k, es[..n], [es[n]]);
      assert es[..n] + [es[n]] == es;
    }
  }

  /** From the empty dictionary, each list is exactly the texts of its kind. */
  lemma RunListFromEmpty(es: seq<Entry>, k: Kind)
    requires AllIndexable(es)
    ensures ListOf(Run(EmptyDraft, es), k) == Texts(k, es)
  {
    RunList(EmptyDraft, es, k);
    assert ListOf(EmptyDraft, k) == [];
    assert [] + Texts(k, es) == Texts(k, es);
  }

  lemma StepPatient(d: Draft, e: Entry)
    requires Indexable(e)
    ensures IsPatient(e) ==> Step(d, e).patient == Some(PatientOf(ResourceOf(e)))
    ensures !IsPatient(e) ==> Step(d, e).patient == d.patient
  {
  }

  /** Without a Patient entry the demographic keys are never set. */
  lemma {:induction false} RunNoPatient(d: Draft, es: seq<Entry>)
    requires AllIndexable(es)
    requires forall i :: 0 <= i < |es| ==> !IsPatient(es[i])
    ensures Run(d, es).patient == d.patient
    decreases |es|
  {
    if es != [] {
      var n := |es| - 1;
      RunNoPatient(d, es[..n]);
      StepPatient(Run(d, es[..n]), es[n]);
    }
  }

  /** The last Patient entry's demographics win. */
  lemma {:induction false} RunLastPatient(d: Draft, es: seq<Entry>, k: nat)
    requires AllIndexable(es)
    requires k < |es| && IsPatient(es[k])
    requires forall j :: k < j < |es| ==> !IsPatient(es[j])
    ensures Run(d, es).patient == Some(PatientOf(ResourceOf(es[k])))
    decreases |es|
  {
    var n := |es| - 1;
    StepPatient(Run(d, es[..n]), es[n]);
    if k < n {
      RunLastPatient(d, es[..n], k);
    }
  }

  lemma {:induction false} RunSomePatient(d: Draft, es: seq<Entry>)
    requires AllIndexable(es)
    requires exists i :: 0 <= i < |es| && IsPatient(es[i])
    ensures Run(d, es).patient.Some?
    decreases |es|
  {
    var n := |es| - 1;
    StepPatient(Run(d, es[..n]), es[n]);
    if !IsPatient(es[n]) {
      var i :| 0 <= i < |es| && IsPatient(es[i]);
      assert es[..n][i] == es[i];
      RunSomePatient(d, es[..n]);
    }
  }

  /** A bundle contributes a record exactly when it has at least one Patient entry, whatever its `id`. */
  lemma SimplifyKeptIff(es: seq<Entry>)
    requires AllIndexable(es)
    ensures Simplify(es).Some? <==> exists i :: 0 <= i < |es| && IsPatient(es[i])
  {
    if exists i :: 0 <= i < |es| && IsPatient(es[i]) {
      RunSomePatient(EmptyDraft, es);
    } else {
      RunNoPatient(EmptyDraft, es);
    }
  }

  lemma FinishDraft(d: Draft, p: Demographics, es: seq<Entry>)
    requires d.patient == Some(p)
    requires ListOf(d, ConditionList) == Texts(ConditionList, es)
    requires ListOf(d, MedicationList) == Texts(MedicationList, es)
    requires ListOf(d, ReportList) == Texts(ReportList, es)
    ensures Finish(d) == Some(Record(p.id, p.name, p.gender, p.birthDate,
                                     Texts(ConditionList, es), Texts(MedicationList, es), Texts(ReportList, es)))
  {
  }

  /**
   * The whole record of a bundle whose last Patient entry is `es[k]`: that
   * entry's demographics, and the texts of the whole bundle.
   */
  lemma SimplifyLastPatient(es: seq<Entry>, k: nat)
    requires AllIndexable(es)
    requires k < |es| && IsPatient(es[k])
    requires forall j :: k < j < |es| ==> !IsPatient(es[j])
    ensures var p := PatientOf(ResourceOf(es[k]));
            Simplify(es) == Some(Record(p.id, p.name, p.gender, p.birthDate,
                                        Texts(ConditionList, es), Texts(MedicationList, es), Texts(ReportList, es)))
  {
    var d := Run(EmptyDraft, es);
    RunLastPatient(EmptyDraft, es, k);
    RunListFromEmpty(es, ConditionList);
    RunListFromEmpty(es, MedicationList);
    RunListFromEmpty(es, ReportList);
    FinishDraft(d, PatientOf(ResourceOf(es[k])), es);
  }

  /** A kept record's lists are exactly the texts of its bundle, none of them empty. */
  lemma SimplifyLists(es: seq<Entry>)
    requires AllIndexable(es)
    requires Simplify(es).Some?
    ensures Simplify(es).value.conditions == Texts(ConditionList, es)
    ensures Simplify(es).value.medications == Texts(MedicationList, es)
    ensures Simplify(es).value.reportsText == Texts(ReportList, es)
    ensures forall i :: 0 <= i < |Simplify(es).value.conditions| ==> Simplify(es).value.conditions[i] != ""
  {
    RunListFromEmpty(es, ConditionList);
    RunListFromEmpty(es, MedicationList);
    RunListFromEmpty(es, ReportList);
    TextsNonEmpty(ConditionList, es);
  }

  lemma {:induction false} RunConcat(d: Draft, a: seq<Entry>, b: seq<Entry>)
    requires AllIndexable(a) && AllIndexable(b)
    ensures AllIndexable(a + b)
    ensures Run(d, a + b) == Run(Run(d, a), b)
    decreases |b|
  {
    assert AllIndexable(a + b) by {
      forall i | 0 <= i < |a + b| ensures Indexable((a + b)[i]) {
        if i >= |a| { assert (a + b)[i] == b[i - |a|]; }
      }
    }
    if b == [] {
      assert a + b == a;
    } else {
      var n := |b| - 1;
      assert (a + b)[..|a + b| - 1] == a + b[..n];
      RunConcat(d, a, b[..n]);
    }
  }

  lemma StepIgnored(d: Draft, e: Entry)
    requires !Recognized(e)
    ensures Step(d, e) == d
  {
  }

  /** An entry without `resource`, or of any other `resourceType`, changes nothing. */
  lemma IgnoredEntry(a: seq<Entry>, e: Entry, b: seq<Entry>)
    requires AllIndexable(a) && AllIndexable(b)
    requires !Recognized(e)
    ensures AllIndexable(a + [e] + b) && AllIndexable(a + b)
    ensures Simplify(a + [e] + b) == Simplify(a + b)
  {
    RunConcat(EmptyDraft, a, [e]);
    RunConcat(EmptyDraft, a + [e], b);
    RunConcat(EmptyDraft, a, b);
    assert [e][..0] == [];
    StepIgnored(Run(EmptyDraft, a), e);
  }

  /** A Patient `p1` named Jane Doe and a Condition "Hypertension" that does not reference her give one record. */
  lemma JaneDoeBundle()
    ensures var patient := Resource(Some("Patient"), Some("p1"), Some([HumanName(Some(["Jane"]), Some("Doe"))]),
                                    Some("female"), Some("1980-01-01"), None, None, None);
            var condition := Resource(Some("Condition"), None, None, None, None,
                                      Some(CodeableConcept(Some("Hypertension"))), None, None);
            var es := [Entry(Some(patient)), Entry(Some(condition))];
            AllIndexable(es) &&
            Simplify(es) == Some(Record(Some("p1"), "Jane Doe", Some("female"), Some("1980-01-01"), ["Hypertension"], [], []))
  {
    var patient := Resource(Some("Patient"), Some("p1"), Some([HumanName(Some(["Jane"]), Some("Doe"))]),
                            Some("female"), Some("1980-01-01"), None, None, None);
    var condition := Resource(Some("Condition"), None, None, None, None,
                              Some(CodeableConcept(Some("Hypertension"))), None, None);
    var es := [Entry(Some(patient)), Entry(Some(condition))];
    assert AllIndexable(es);
    assert es[1..] == [es[1]] && es[1..][1..] == [];
    assert ResourceOf(es[0]).resourceType == Some("Patient") && ResourceOf(es[1]) == condition;
    assert Texts(ConditionList, es[1..][1..]) == [];
    assert Texts(MedicationList, es[1..][1..]) == [];
    assert Texts(ReportList, es[1..][1..]) == [];
    assert Texts(ConditionList, es[1..]) == ["Hypertension"];
    assert Texts(ConditionList, es) == ["Hypertension"];
    assert Texts(MedicationList, es) == [];
    assert Texts(ReportList, es) == [];
    JaneDoe();
    assert PatientOf(patient) == Demographics(Some("p1"), "Jane Doe", Some("female"), Some("1980-01-01"));
    SimplifyLastPatient(es, 0);
  }
}
