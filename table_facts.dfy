/**
  Facts about the label table as a whole: every label is an RFC 4514
  attribute-type keystring (so none contains '=' and a field splits back at
  its first '='), and no two table entries share a short label or a long
  label.

  Each fact is proved a few table rows at a time (rows numbered 1 to 23 in
  the order of LabelTable); the lemma for the whole table dispatches on the
  row group of its argument.
 */
module TableFacts {
  import opened DnFormat

  /** ALPHA of RFC 5234. */
  predicate IsAlpha(c: char)
  {
    'a' <= c <= 'z' || 'A' <= c <= 'Z'
  }

  /** `keystring = leadkeychar *keychar` (section 3 of RFC 4514): a letter,
      then letters, digits and hyphens. */
  predicate IsKeystring(s: string)
  {
    |s| > 0 && IsAlpha(s[0])
    && forall k :: 1 <= k < |s| ==> IsAlpha(s[k]) || '0' <= s[k] <= '9' || s[k] == '-'
  }

  /** A keystring has no '='. */
  lemma KeystringHasNoEquals(s: string)
    requires IsKeystring(s)
    ensures '=' !in s
  {
  }

  // Both labels of each row are keystrings, two rows at a time.

  lemma KeystringRows1to2(attr: Attribute)
    requires attr in {"business_category", "serial_number"}
    ensures IsKeystring(LabelTable[attr].0) && IsKeystring(LabelTable[attr].1)
  {
  }

  lemma KeystringRows3to4(attr: Attribute)
    requires attr in {"country_name", "postal_code"}
    ensures IsKeystring(LabelTable[attr].0) && IsKeystring(LabelTable[attr].1)
  {
  }

  lemma KeystringRows5to6(attr: Attribute)
    requires attr in {"state_or_province_name", "locality_name"}
    ensures IsKeystring(LabelTable[attr].0) && IsKeystring(LabelTable[attr].1)
  {
  }

  lemma KeystringRows7to8(attr: Attribute)
    requires attr in {"street_address", "organization_name"}
    ensures IsKeystring(LabelTable[attr].0) && IsKeystring(LabelTable[attr].1)
  {
  }

  lemma KeystringRows9to10(attr: Attribute)
    requires attr in {"organizational_unit_name", "title"}
    ensures IsKeystring(LabelTable[attr].0) && IsKeystring(LabelTable[attr].1)
  {
  }

  lemma KeystringRows11to12(attr: Attribute)
    requires attr in {"common_name", "initials"}
    ensures IsKeystring(LabelTable[attr].0) && IsKeystring(LabelTable[attr].1)
  {
  }

  lemma KeystringRows13to14(attr: Attribute)
    requires attr in {"generation_qualifier", "surname"}
    ensures IsKeystring(LabelTable[attr].0) && IsKeystring(LabelTable[attr].1)
  {
  }

  lemma KeystringRows15to16(attr: Attribute)
    requires attr in {"given_name", "name"}
    ensures IsKeystring(LabelTable[attr].0) && IsKeystring(LabelTable[attr].1)
  {
  }

  lemma KeystringRows17to18(attr: Attribute)
    requires attr in {"pseudonym", "dn_qualifier"}
    ensures IsKeystring(LabelTable[attr].0) && IsKeystring(LabelTable[attr].1)
  {
  }

  lemma KeystringRows19to20(attr: Attribute)
    requires attr in {"telephone_number", "email_address"}
    ensures IsKeystring(LabelTable[attr].0) && IsKeystring(LabelTable[attr].1)
  {
  }

  lemma KeystringRows21to22(attr: Attribute)
    requires attr in {"domain_component", "name_distinguisher"}
    ensures IsKeystring(LabelTable[attr].0) && IsKeystring(LabelTable[attr].1)
  {
  }

  lemma KeystringRows23(attr: Attribute)
    requires attr in {"organization_identifier"}
    ensures IsKeystring(LabelTable[attr].0) && IsKeystring(LabelTable[attr].1)
  {
  }

  /** Both labels of every table entry are keystrings. */
  lemma TableLabelsAreKeystrings(attr: Attribute)
    requires attr in LabelTable
    ensures IsKeystring(LabelTable[attr].0) && IsKeystring(LabelTable[attr].1)
  {
    if attr in {"business_category", "serial_number"} {
      KeystringRows1to2(attr);
    }     else if attr in {"country_name", "postal_code"} {
      KeystringRows3to4(attr);
    }     else if attr in {"state_or_province_name", "locality_name"} {
      KeystringRows5to6(attr);
    }     else if attr in {"street_address", "organization_name"} {
      KeystringRows7to8(attr);
    }     else if attr in {"organizational_unit_name", "title"} {
      KeystringRows9to10(attr);
    }     else if attr in {"common_name", "initials"} {
      KeystringRows11to12(attr);
    }     else if attr in {"generation_qualifier", "surname"} {
      KeystringRows13to14(attr);
    }     else if attr in {"given_name", "name"} {
      KeystringRows15to16(attr);
    }     else if attr in {"pseudonym", "dn_qualifier"} {
      KeystringRows17to18(attr);
    }     else if attr in {"telephone_number", "email_address"} {
      KeystringRows19to20(attr);
    }     else if attr in {"domain_component", "name_distinguisher"} {
      KeystringRows21to22(attr);
    }     else if attr in {"organization_identifier"} {
      KeystringRows23(attr);
    }
  }

  /** No label of the table contains '='. */
  lemma TableLabelsHaveNoEquals(attr: Attribute, short: bool)
    requires attr in LabelTable
    ensures '=' !in Label(attr, short)
  {
    TableLabelsAreKeystrings(attr);
    KeystringHasNoEquals(Label(attr, short));
  }

  /** Every field of a table attribute, and of an unknown attribute without
      '=', splits back into its label and its value. */
  lemma LabelledFieldRoundTrip(attr: Attribute, value: Value, short: bool)
    requires attr in LabelTable || '=' !in attr
    ensures SplitField(Field(attr, value, short)) == Some((Label(attr, short), value))
  {
    if attr in LabelTable {
      TableLabelsHaveNoEquals(attr, short);
    }
    FieldRoundTrip(attr, value, short);
  }

  // The labels of each row differ from those of every other row, four rows
  // at a time.

  lemma DistinctRows1to4(a: Attribute, b: Attribute)
    requires a in {"business_category", "serial_number", "country_name",
                   "postal_code"}
    requires b in LabelTable && a != b
    ensures LabelTable[a].0 != LabelTable[b].0 && LabelTable[a].1 != LabelTable[b].1
  {
  }

  lemma DistinctRows5to8(a: Attribute, b: Attribute)
    requires a in {"state_or_province_name", "locality_name", "street_address",
                   "organization_name"}
    requires b in LabelTable && a != b
    ensures LabelTable[a].0 != LabelTable[b].0 && LabelTable[a].1 != LabelTable[b].1
  {
  }

  lemma DistinctRows9to12(a: Attribute, b: Attribute)
    requires a in {"organizational_unit_name", "title", "common_name",
                   "initials"}
    requires b in LabelTable && a != b
    ensures LabelTable[a].0 != LabelTable[b].0 && LabelTable[a].1 != LabelTable[b].1
  {
  }

  lemma DistinctRows13to16(a: Attribute, b: Attribute)
    requires a in {"generation_qualifier", "surname", "given_name", "name"}
    requires b in LabelTable && a != b
    ensures LabelTable[a].0 != LabelTable[b].0 && LabelTable[a].1 != LabelTable[b].1
  {
  }

  lemma DistinctRows17to20(a: Attribute, b: Attribute)
    requires a in {"pseudonym", "dn_qualifier", "telephone_number",
                   "email_address"}
    requires b in LabelTable && a != b
    ensures LabelTable[a].0 != LabelTable[b].0 && LabelTable[a].1 != LabelTable[b].1
  {
  }

  lemma DistinctRows21to23(a: Attribute, b: Attribute)
    requires a in {"domain_component", "name_distinguisher",
                   "organization_identifier"}
    requires b in LabelTable && a != b
    ensures LabelTable[a].0 != LabelTable[b].0 && LabelTable[a].1 != LabelTable[b].1
  {
  }

  /** Two different table attributes never share a short label, nor a long
      label: within one form, a table label names one attribute. */
  lemma TableLabelsDistinct(a: Attribute, b: Attribute, short: bool)
    requires a in LabelTable && b in LabelTable && a != b
    ensures Label(a, short) != Label(b, short)
  {
    if a in {"business_category", "serial_number", "country_name",
                 "postal_code"} {
      DistinctRows1to4(a, b);
    }     else if a in {"state_or_province_name", "locality_name", "street_address",
                 "organization_name"} {
      DistinctRows5to8(a, b);
    }     else if a in {"organizational_unit_name", "title", "common_name",
                 "initials"} {
      DistinctRows9to12(a, b);
    }     else if a in {"generation_qualifier", "surname", "given_name", "name"} {
      DistinctRows13to16(a, b);
    }     else if a in {"pseudonym", "dn_qualifier", "telephone_number",
                 "email_address"} {
      DistinctRows17to20(a, b);
    }     else if a in {"domain_component", "name_distinguisher",
                 "organization_identifier"} {
      DistinctRows21to23(a, b);
    }
  }
}
