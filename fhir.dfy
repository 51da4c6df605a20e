/**
 * A typed stand-in for the parsed JSON of a FHIR bundle, restricted to the
 * keys that the Synthea loader reads, and the flat patient record it writes.
 *
 * Every JSON key the loader looks up with `dict.get` is an `Option`: `None`
 * is a missing key. A nested object that the loader reads through
 * `.get(key, {})` is itself an `Option`, and `None` stands for the `{}`
 * default it falls back to.
 */
module Fhir {

  datatype Option<+T> = None | Some(value: T) {
    /** The value, or `default` when absent (Python's `d.get(key, default)`). */
    function GetOr(default: T): T {
      match this
      case Some(v) => v
      case None => default
    }
  }

  /** Python truthiness of an optional string: `None` and `""` are both false. */
  predicate Truthy(s: Option<string>) {
    s.Some? && s.value != ""
  }

  /** One element of a Patient's `name` list. */
  datatype HumanName = HumanName(given: Option<seq<string>>, family: Option<string>)

  /** An object holding a `text` key (`code`, `medicationCodeableConcept`). */
  datatype CodeableConcept = CodeableConcept(text: Option<string>)

  /** A DiagnosticReport's `text` object, holding the XHTML `div`. */
  datatype Narrative = Narrative(div: Option<string>)

  /** The `resource` object of an entry: every key the loader reads. */
  datatype Resource = Resource(
    resourceType: Option<string>,
    id: Option<string>,
    name: Option<seq<HumanName>>,
    gender: Option<string>,
    birthDate: Option<string>,
    code: Option<CodeableConcept>,
    medicationCodeableConcept: Option<CodeableConcept>,
    text: Option<Narrative>)

  /** One element of a bundle's `entry` list. */
  datatype Entry = Entry(resource: Option<Resource>)

  /**
   * One directory listing item: its file name and, once parsed, the
   * bundle's `entry` list (`None` when the bundle has no `entry` key).
   */
  datatype FileItem = FileItem(name: string, entries: Option<seq<Entry>>)

  /**
   * The simplified patient document written to the collection: `_id`,
   * `name`, `gender`, `birthDate`, `conditions`, `medications` and
   * `reports_text`. `id` is `None` when the Patient resource had no `id`
   * (the document's `_id` is then null).
   */
  datatype Record = Record(
    id: Option<string>,
    name: string,
    gender: Option<string>,
    birthDate: Option<string>,
    conditions: seq<string>,
    medications: seq<string>,
    reportsText: seq<string>)
}
