/**
  Rendering of an X.509 Distinguished Name (the subject or issuer of a
  certificate) as a human-readable string, as androguard's
  `get_certificate_name_string` does (androguard/util.py:51-95).

  The name arrives already decoded, as its (attribute, value) pairs in the
  mapping's iteration order. Each attribute is looked up in a fixed table of
  (short, long) labels; an attribute the table does not know is its own
  label in both forms. Each pair becomes `label=value`, and the fields are
  joined with the caller's delimiter (Python's `str.join`, see StrJoin).
 */
module DnFormat {
  import opened StrJoin

  datatype Option<T> = None | Some(value: T)

  /** Canonical attribute identifier, such as `common_name`. */
  type Attribute = string

  /** A value, already display-ready: never escaped or quoted. */
  type Value = string

  /** A decoded name: its entries in iteration order. */
  type DistinguishedName = seq<(Attribute, Value)>

  /** Attribute identifier to (short label, long label). The short labels
      CN, L, ST, O, OU, C and DC are those of section 3 of RFC 4514; E, SN,
      GN and the lower-case `street` are additions of this table. */
  const LabelTable: map<Attribute, (string, string)> := map[
    "business_category" := ("businessCategory", "businessCategory"),
    "serial_number" := ("serialNumber", "serialNumber"),
    "country_name" := ("C", "countryName"),
    "postal_code" := ("postalCode", "postalCode"),
    "state_or_province_name" := ("ST", "stateOrProvinceName"),
    "locality_name" := ("L", "localityName"),
    "street_address" := ("street", "streetAddress"),
    "organization_name" := ("O", "organizationName"),
    "organizational_unit_name" := ("OU", "organizationalUnitName"),
    "title" := ("title", "title"),
    "common_name" := ("CN", "commonName"),
    "initials" := ("initials", "initials"),
    "generation_qualifier" := ("generationQualifier", "generationQualifier"),
    "surname" := ("SN", "surname"),
    "given_name" := ("GN", "givenName"),
    "name" := ("name", "name"),
    "pseudonym" := ("pseudonym", "pseudonym"),
    "dn_qualifier" := ("dnQualifier", "dnQualifier"),
    "telephone_number" := ("telephoneNumber", "telephoneNumber"),
    "email_address" := ("E", "emailAddress"),
    "domain_component" := ("DC", "domainComponent"),
    "name_distinguisher" := ("nameDistinguisher", "nameDistinguisher"),
    "organization_identifier" := ("organizationIdentifier", "organizationIdentifier")
  ]

  /** The attributes whose short label differs from their long label. */
  const ShortFormAttributes: set<Attribute> := {
    "country_name", "state_or_province_name", "locality_name", "street_address",
    "organization_name", "organizational_unit_name", "common_name", "surname",
    "given_name", "email_address", "domain_component"
  }

  /** `_.get(attr, (attr, attr))`: the table entry, or the attribute itself twice. */
  function LabelPair(attr: Attribute): (string, string)
  {
    if attr in LabelTable then LabelTable[attr] else (attr, attr)
  }

  /** The label chosen by the `short` flag. */
  function Label(attr: Attribute, short: bool): string
  {
    var pair := LabelPair(attr);
    if short then pair.0 else pair.1
  }

  /** One rendered entry, `label=value`. */
  function Field(attr: Attribute, value: Value, short: bool): string
  {
    Label(attr, short) + "=" + value
  }

  /** The list comprehension: one field per entry, in iteration order. */
  function Fields(dn: DistinguishedName, short: bool): seq<string>
  {
    seq(|dn|, i requires 0 <= i < |dn| => Field(dn[i].0, dn[i].1, short))
  }

  /** `get_certificate_name_string(name, short=False, delimiter=', ')` */
  function Format(dn: DistinguishedName, short: bool := false, delimiter: string := ", "): string
  {
    Join(Fields(dn, short), delimiter)
  }

  // ---------------------------------------------------------------------------
  // The label table

  /** `common_name` renders as CN (section 3 of RFC 4514) or commonName. */
  lemma CommonNameLabels()
    ensures Label("common_name", true) == "CN" && Label("common_name", false) == "commonName"
  {
  }

  /** `country_name` renders as C (section 3 of RFC 4514) or countryName. */
  lemma CountryNameLabels()
    ensures Label("country_name", true) == "C" && Label("country_name", false) == "countryName"
  {
  }

  /** `organization_name` renders as O (section 3 of RFC 4514) or organizationName. */
  lemma OrganizationNameLabels()
    ensures Label("organization_name", true) == "O"
    ensures Label("organization_name", false) == "organizationName"
  {
  }

  /** A known attribute takes the table's first label in short form and its
      second label in long form. */
  lemma KnownAttributeLabel(attr: Attribute, value: Value)
    requires attr in LabelTable
    ensures Field(attr, value, true) == LabelTable[attr].0 + "=" + value
    ensures Field(attr, value, false) == LabelTable[attr].1 + "=" + value
  {
  }

  /** An attribute absent from the table is rendered `attr=value` in both
      forms; nothing fails. */
  lemma UnknownAttributeFallback(attr: Attribute, value: Value, short: bool)
    requires attr !in LabelTable
    ensures Field(attr, value, short) == attr + "=" + value
    ensures Label(attr, true) == Label(attr, false) == attr
  {
  }

  /** The `short` flag changes the label of exactly the attributes in
      ShortFormAttributes; for every other attribute, known or not, both
      forms coincide. */
  lemma ShortFlagMattersExactly(attr: Attribute)
    ensures Label(attr, true) != Label(attr, false) <==> attr in ShortFormAttributes
  {
  }

  // ---------------------------------------------------------------------------
  // One field

  /** A field is its label, one '=', and the value unchanged. */
  lemma FieldParts(attr: Attribute, value: Value, short: bool)
    ensures |Field(attr, value, short)| == |Label(attr, short)| + 1 + |value|
    ensures Field(attr, value, short)[..|Label(attr, short)|] == Label(attr, short)
    ensures Field(attr, value, short)[|Label(attr, short)|] == '='
    ensures Field(attr, value, short)[|Label(attr, short)| + 1..] == value
  {
  }

  /** Splits a field at its first '=' into label and value; None when there
      is no '='. */
  function SplitField(field: string): Option<(string, string)>
  {
    if field == [] then None
    else if field[0] == '=' then Some(([], field[1..]))
    else match SplitField(field[1..])
      case None => None
      case Some(parts) => Some(([field[0]] + parts.0, parts.1))
  }

  /** A label without '=' followed by '=' and any value splits back into
      exactly that label and that value, even when the value contains '='. */
  lemma {:induction false} SplitAfterLabel(text: string, value: string)
    requires '=' !in text
    ensures SplitField(text + "=" + value) == Some((text, value))
  {
    if text == [] {
      assert text + "=" + value == ['='] + value;
    } else {
      assert (text + "=" + value)[1..] == text[1..] + "=" + value;
      SplitAfterLabel(text[1..], value);
      assert [text[0]] + text[1..] == text;
    }
  }

  /** A field whose label has no '=' (CN, commonName, any plain attribute
      identifier) splits back into its label and its value. */
  lemma FieldRoundTrip(attr: Attribute, value: Value, short: bool)
    requires '=' !in Label(attr, short)
    ensures SplitField(Field(attr, value, short)) == Some((Label(attr, short), value))
  {
    SplitAfterLabel(Label(attr, short), value);
  }

  /** The short flag leaves a field unchanged exactly when the attribute's two
      labels agree. */
  lemma FieldShortIndependentIff(attr: Attribute, value: Value)
    ensures Field(attr, value, true) == Field(attr, value, false)
        <==> attr !in ShortFormAttributes
  {
  }

  // ---------------------------------------------------------------------------
  // The whole name

  /** Field `i` of the comprehension, spelled out: one field per entry, in the
      entries' order. A stepping stone for FieldsFollowReordering and the
      positional lemmas on Format below. */
  lemma FieldsInOrder(dn: DistinguishedName, short: bool, i: nat)
    requires i < |dn|
    ensures |Fields(dn, short)| == |dn|
    ensures Fields(dn, short)[i] == Label(dn[i].0, short) + "=" + dn[i].1
  {
  }

  /** Fields are computed entry by entry, so they distribute over append. */
  lemma FieldsAppend(left: DistinguishedName, right: DistinguishedName, short: bool)
    ensures Fields(left + right, short) == Fields(left, short) + Fields(right, short)
  {
  }

  /** Reordering the entries reorders the fields in the same way. */
  lemma FieldsFollowReordering(dn: DistinguishedName, order: seq<nat>, short: bool)
    requires forall j :: 0 <= j < |order| ==> order[j] < |dn|
    ensures Fields(seq(|order|, j requires 0 <= j < |order| => dn[order[j]]), short)
         == seq(|order|, j requires 0 <= j < |order| => Fields(dn, short)[order[j]])
  {
    var reordered := seq(|order|, j requires 0 <= j < |order| => dn[order[j]]);
    forall j | 0 <= j < |order|
      ensures Fields(reordered, short)[j] == Fields(dn, short)[order[j]]
    {
      FieldsInOrder(reordered, short, j);
      FieldsInOrder(dn, short, order[j]);
    }
  }

  /** The result is empty exactly for the empty name. */
  lemma FormatEmptyIff(dn: DistinguishedName, short: bool, delimiter: string)
    ensures Format(dn, short, delimiter) == "" <==> dn == []
  {
  }

  /** Field `i` sits, unchanged, at offset Start(fields, delimiter, i). */
  lemma FormatFieldAt(dn: DistinguishedName, short: bool, delimiter: string, i: nat)
    requires i < |dn|
    ensures var fields := Fields(dn, short);
      var s := Start(fields, delimiter, i);
      s + |fields[i]| <= |Format(dn, short, delimiter)|
      && Format(dn, short, delimiter)[s..s + |fields[i]|] == Label(dn[i].0, short) + "=" + dn[i].1
  {
    JoinPartAt(Fields(dn, short), delimiter, i);
  }

  /** Between two consecutive fields there is exactly the delimiter, and the
      last field ends the string: n fields are separated by n - 1 delimiters,
      with none before the first or after the last. */
  lemma FormatSeparators(dn: DistinguishedName, short: bool, delimiter: string, i: nat)
    requires i + 1 < |dn|
    ensures var fields := Fields(dn, short);
      var gap := Start(fields, delimiter, i) + |fields[i]|;
      gap + |delimiter| == Start(fields, delimiter, i + 1)
      && Start(fields, delimiter, i + 1) <= |Format(dn, short, delimiter)|
      && Format(dn, short, delimiter)[gap..gap + |delimiter|] == delimiter
  {
    JoinDelimiterAt(Fields(dn, short), delimiter, i);
  }

  /** The length of the result: all fields plus |dn| - 1 delimiters, and the
      last field reaches the end of the string. */
  lemma FormatLength(dn: DistinguishedName, short: bool, delimiter: string)
    requires |dn| > 0
    ensures var fields := Fields(dn, short);
      |Format(dn, short, delimiter)| == TotalLength(fields) + (|dn| - 1) * |delimiter|
      && Start(fields, delimiter, |dn| - 1) + |fields[|dn| - 1]| == |Format(dn, short, delimiter)|
  {
    JoinLength(Fields(dn, short), delimiter);
    JoinEndsWithLastPart(Fields(dn, short), delimiter);
  }

  /** The first entry's field, then (when more entries follow) one delimiter
      and the rendering of the rest. */
  lemma FormatFirstAndRest(dn: DistinguishedName, short: bool, delimiter: string)
    requires |dn| > 0
    ensures Format(dn, short, delimiter) ==
      Field(dn[0].0, dn[0].1, short)
        + (if |dn| == 1 then "" else delimiter + Format(dn[1..], short, delimiter))
  {
    assert dn == [dn[0]] + dn[1..];
    FormatAppend([dn[0]], dn[1..], short, delimiter);
  }

  /** Rendering is homomorphic over append. */
  lemma FormatAppend(left: DistinguishedName, right: DistinguishedName, short: bool, delimiter: string)
    ensures Format(left + right, short, delimiter) ==
      if left == [] then Format(right, short, delimiter)
      else if right == [] then Format(left, short, delimiter)
      else Format(left, short, delimiter) + delimiter + Format(right, short, delimiter)
  {
    FieldsAppend(left, right, short);
    JoinAppend(Fields(left, short), Fields(right, short), delimiter);
  }

  /** Changing only the delimiter changes only the separators: field `i` is
      the same text in both renderings, moved by i times the difference in
      delimiter length. */
  lemma DelimiterOnlyChangesSeparators(dn: DistinguishedName, short: bool, d1: string, d2: string, i: nat)
    requires i < |dn|
    ensures var fields := Fields(dn, short);
      var s1, s2 := Start(fields, d1, i), Start(fields, d2, i);
      s1 - s2 == i * (|d1| - |d2|)
      && s1 + |fields[i]| <= |Format(dn, short, d1)|
      && s2 + |fields[i]| <= |Format(dn, short, d2)|
      && Format(dn, short, d1)[s1..s1 + |fields[i]|] == Format(dn, short, d2)[s2..s2 + |fields[i]|]
  {
    FormatFieldAt(dn, short, d1, i);
    FormatFieldAt(dn, short, d2, i);
    assert i * |d1| - i * |d2| == i * (|d1| - |d2|);
  }

  /** When no entry's attribute has distinct short and long labels, the
      result does not depend on `short`. */
  lemma FormatShortIndependent(dn: DistinguishedName, delimiter: string)
    requires forall i :: 0 <= i < |dn| ==> dn[i].0 !in ShortFormAttributes
    ensures Format(dn, true, delimiter) == Format(dn, false, delimiter)
  {
    forall i | 0 <= i < |dn|
      ensures Fields(dn, true)[i] == Fields(dn, false)[i]
    {
      FieldShortIndependentIff(dn[i].0, dn[i].1);
    }
    assert Fields(dn, true) == Fields(dn, false);
  }

  /** Values are not escaped: a value holding the delimiter and an '=' gives
      the same string as two separate entries. */
  lemma NoEscapingMakesNamesAmbiguous()
    ensures [("common_name", "a, O=b")] != [("common_name", "a"), ("organization_name", "b")]
    ensures Format([("common_name", "a, O=b")], true)
         == Format([("common_name", "a"), ("organization_name", "b")], true)
  {
    FormatFirstAndRest([("common_name", "a"), ("organization_name", "b")], true, ", ");
  }

  /** An unknown attribute can render like a known one: the fallback label
      `CN` collides with the short label of `common_name`. */
  lemma FallbackCanCollideWithTable(value: Value)
    ensures Field("CN", value, true) == Field("common_name", value, true)
  {
  }

  /** A three-entry name is its three fields with two delimiters. */
  lemma FormatThree(e0: (Attribute, Value), e1: (Attribute, Value), e2: (Attribute, Value),
                    short: bool, delimiter: string)
    ensures Format([e0, e1, e2], short, delimiter)
         == Field(e0.0, e0.1, short) + delimiter + Field(e1.0, e1.1, short)
            + delimiter + Field(e2.0, e2.1, short)
  {
    var fields := Fields([e0, e1, e2], short);
    assert fields == [fields[0], fields[1], fields[2]];
    JoinThree(fields[0], fields[1], fields[2], delimiter);
  }

  /** Such a subject in short form, e.g. `CN=example.com, O=Example Corp, C=US`. */
  lemma ExampleShortForm(cn: Value, o: Value, c: Value)
    ensures Format([("common_name", cn), ("organization_name", o), ("country_name", c)], true)
         == "CN=" + cn + ", O=" + o + ", C=" + c
  {
    FormatThree(("common_name", cn), ("organization_name", o), ("country_name", c), true, ", ");
    CommonNameLabels();
    OrganizationNameLabels();
    CountryNameLabels();
  }

  /** The same subject with the default arguments (long form, ", "). */
  lemma ExampleLongForm(cn: Value, o: Value, c: Value)
    ensures Format([("common_name", cn), ("organization_name", o), ("country_name", c)])
         == "commonName" + "=" + cn + ", " + "organizationName" + "=" + o + ", "
            + "countryName" + "=" + c
  {
    FormatThree(("common_name", cn), ("organization_name", o), ("country_name", c), false, ", ");
    CommonNameLabels();
    OrganizationNameLabels();
    CountryNameLabels();
  }

  /** The empty name, and a name with one attribute the table does not know. */
  lemma ExampleEmptyAndUnknown(short: bool)
    ensures Format([], short) == ""
    ensures Format([("unknown_attr", "x")], short) == "unknown_attr=x"
  {
  }
}
