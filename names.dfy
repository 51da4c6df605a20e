/**
 * The patient's display name: the `given` parts of the first `name` entry
 * joined by single spaces, one more space, then `family`
 * (`f"{' '.join(given)} {family}"`).
 */
module Names {
  import opened Fhir

  /** Python's `sep.join(parts)`. */
  function Join(parts: seq<string>, sep: string): string
    decreases |parts|
  {
    if |parts| == 0 then ""
    else if |parts| == 1 then parts[0]
    else parts[0] + sep + Join(parts[1..], sep)
  }

  /** Python's `s.split(sep)` for a one-character separator: the inverse of `Join`. */
  function Split(s: string, sep: char): (r: seq<string>)
    ensures |r| >= 1
    decreases |s|
  {
    if |s| == 0 then [""]
    else
      var rest := Split(s[1..], sep);
      if s[0] == sep then [""] + rest
      else [[s[0]] + rest[0]] + rest[1..]
  }

  /** `resource.get('name', [{}])[0]`; indexing an empty list is an error, hence the requires. */
  function FirstName(name: Option<seq<HumanName>>): HumanName
    requires name != Some([])
  {
    match name
    case None => HumanName(None, None)
    case Some(names) => names[0]
  }

  /** The name string the loader stores. */
  function PatientName(name: Option<seq<HumanName>>): string
    requires name != Some([])
  {
    var hn := FirstName(name);
    Join(hn.given.GetOr([]), " ") + " " + hn.family.GetOr("")
  }

  /**
   * The space-separated fields of the stored name: the given names (a single
   * empty field when there are none) followed by the family name.
   */
  function NameFields(name: Option<seq<HumanName>>): (r: seq<string>)
    requires name != Some([])
    ensures |r| >= 2
  {
    var hn := FirstName(name);
    var given := hn.given.GetOr([]);
    (if given == [] then [""] else given) + [hn.family.GetOr("")]
  }

  lemma {:induction false} JoinSnoc(parts: seq<string>, x: string, sep: string)
    requires |parts| >= 1
    ensures Join(parts + [x], sep) == Join(parts, sep) + sep + x
    decreases |parts|
  {
    if |parts| > 1 {
      assert (parts + [x])[1..] == parts[1..] + [x];
      JoinSnoc(parts[1..], x, sep);
    } else {
      assert parts + [x] == [parts[0], x];
    }
  }

  lemma {:induction false} SplitWithoutSep(p: string, sep: char)
    requires sep !in p
    ensures Split(p, sep) == [p]
    decreases |p|
  {
    if |p| > 0 {
      assert sep !in p[1..] by {
        forall i | 0 <= i < |p[1..]| ensures p[1..][i] != sep { assert p[1..][i] == p[i + 1]; }
      }
      SplitWithoutSep(p[1..], sep);
      assert [p[0]] + p[1..] == p;
    }
  }

  lemma {:induction false} SplitAtSep(p: string, rest: string, sep: char)
    requires sep !in p
    ensures Split(p + [sep] + rest, sep) == [p] + Split(rest, sep)
    decreases |p|
  {
    var s := p + [sep] + rest;
    if |p| == 0 {
      assert s[1..] == rest;
    } else {
      assert s[1..] == p[1..] + [sep] + rest;
      assert sep !in p[1..] by {
        forall i | 0 <= i < |p[1..]| ensures p[1..][i] != sep { assert p[1..][i] == p[i + 1]; }
      }
      SplitAtSep(p[1..], rest, sep);
      assert [p[0]] + p[1..] == p;
    }
  }

  /** Splitting a join on its separator gives the parts back, when no part holds the separator. */
  lemma {:induction false} SplitJoin(parts: seq<string>, sep: char)
    requires |parts| >= 1
    requires forall i :: 0 <= i < |parts| ==> sep !in parts[i]
    ensures Split(Join(parts, [sep]), sep) == parts
    decreases |parts|
  {
    if |parts| == 1 {
      SplitWithoutSep(parts[0], sep);
    } else {
      SplitJoin(parts[1..], sep);
      SplitAtSep(parts[0], Join(parts[1..], [sep]), sep);
      assert parts[0] + [sep] + Join(parts[1..], [sep]) == Join(parts, [sep]);
      assert [parts[0]] + parts[1..] == parts;
    }
  }

  /** The stored name is the fields joined by single spaces. */
  lemma PatientNameIsJoin(name: Option<seq<HumanName>>)
    requires name != Some([])
    ensures PatientName(name) == Join(NameFields(name), " ")
  {
    var hn := FirstName(name);
    var given := hn.given.GetOr([]);
    var family := hn.family.GetOr("");
    if given == [] {
      assert NameFields(name) == ["", family];
    } else {
      JoinSnoc(given, family, " ");
    }
  }

  /** Splitting the stored name on spaces recovers the given names and the family name. */
  lemma PatientNameFields(name: Option<seq<HumanName>>)
    requires name != Some([])
    requires forall i :: 0 <= i < |NameFields(name)| ==> ' ' !in NameFields(name)[i]
    ensures Split(PatientName(name), ' ') == NameFields(name)
  {
    PatientNameIsJoin(name);
    SplitJoin(NameFields(name), ' ');
  }

  /** A Patient without a `name` key is stored under the name " ". */
  lemma MissingNameIsOneSpace()
    ensures PatientName(None) == " "
    ensures NameFields(None) == ["", ""]
  {
  }

  /** Given `["Jane"]` and family `"Doe"` give `"Jane Doe"`. */
  lemma JaneDoe()
    ensures PatientName(Some([HumanName(Some(["Jane"]), Some("Doe"))])) == "Jane Doe"
  {
  }
}
