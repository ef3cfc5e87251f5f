# Certificate Distinguished Name formatter

A Dafny model of androguard's `get_certificate_name_string`
(`androguard/util.py`). The function renders the subject or issuer name of an X.509
certificate as a human-readable string such as `CN=example.com, O=Example Corp, C=US`.

The model has three modules:

- `StrJoin` (`strjoin.dfy`) models Python's `delimiter.join(parts)`
  (`androguard/util.py:95`) as a recursive `Join`. Beside it, `Start` and
  `TotalLength` describe the same string by position: each part starts after the
  earlier parts plus one delimiter per earlier part. The lemmas prove that the two
  descriptions agree. Every part appears unchanged at its offset, with exactly one
  delimiter between neighbours. Nothing precedes the first part and nothing follows
  the last. Joining is homomorphic over append.
- `DnFormat` (`dn_format.dfy`) holds the rest:
  - `LabelTable` is the dict literal `_` (`androguard/util.py:70-94`), with its 23
    entries in the source's order, mapping each attribute to its (short, long) labels.
  - `LabelPair` is `_.get(attr, (attr, attr))` (`androguard/util.py:95`): an unknown
    attribute is its own label in both forms.
  - `Label` picks the short or long label with `[0 if short else 1]`
    (`androguard/util.py:95`).
  - `Field` is `"{}={}".format(label, name[attr])` (`androguard/util.py:95`).
  - `Fields` is the list comprehension `[... for attr in name]`
    (`androguard/util.py:95`), one field per entry in iteration order.
  - `Format` is the whole function (`androguard/util.py:51,95`), with the source's
    defaults: `short = false` and `delimiter = ", "`.
  - `SplitField` splits a field at its first `=`; it is the inverse against which
    `Field` is checked and is not part of the source.
- `TableFacts` (`table_facts.dfy`) proves facts about the table as a whole:
  - every label is an attribute-type keystring of section 3 of RFC 4514, so none
    contains `=`;
  - no two entries share a short label or a long label.

  Each fact is proved a few rows at a time, and one lemma per fact covers the
  whole table.

A decoded name is a `seq<(Attribute, Value)>` in the dict's iteration order. Values
are strings and are emitted unchanged, with no escaping or quoting. The model needs
no distinct-keys assumption: every property holds for any sequence of pairs.

## Model

| member | source | states |
|---|---|---|
| DnFormat.KnownAttributeLabel | androguard/util.py:70-95 | for an attribute in the table, the short-form field uses the entry's first label and the long-form field its second label |
| DnFormat.UnknownAttributeFallback | androguard/util.py:95 | an attribute absent from the table is its own short and long label, so its field is `attr=value` in both forms and no error arises |
| DnFormat.CommonNameLabels | androguard/util.py:81 | `common_name` renders as `CN` (short) and `commonName` (long) |
| DnFormat.CountryNameLabels | androguard/util.py:73 | `country_name` renders as `C` (short) and `countryName` (long) |
| DnFormat.OrganizationNameLabels | androguard/util.py:78 | `organization_name` renders as `O` (short) and `organizationName` (long) |
| DnFormat.ShortFlagMattersExactly | androguard/util.py:70-95 | the `short` flag changes the label exactly for the 11 attributes whose table entries have distinct short and long labels; for every other attribute, known or not, both labels coincide |
| DnFormat.FieldParts | androguard/util.py:95 | a field is its label, then a single `=`, then the value unchanged; its length is the sum of those parts |
| DnFormat.SplitAfterLabel | androguard/util.py:95 | splitting `text=value` at its first `=` gives back `text` and `value` when `text` has no `=`, even if `value` contains `=` |
| DnFormat.FieldRoundTrip | androguard/util.py:95 | a field whose label has no `=` splits back into exactly its label and its value |
| DnFormat.FieldShortIndependentIff | androguard/util.py:70-95 | a field does not depend on `short` if and only if the attribute's short and long labels agree (title, name, pseudonym, unknown keys, ...) |
| DnFormat.FieldsInOrder | androguard/util.py:95 | there is one field per entry, and field i renders entry i as `label=value` |
| DnFormat.FieldsAppend | androguard/util.py:95 | the fields of a concatenated name are the fields of the first part followed by those of the second |
| DnFormat.FieldsFollowReordering | androguard/util.py:95 | reordering the entries by any index sequence reorders the fields in the same way |
| DnFormat.FormatEmptyIff | androguard/util.py:95 | the result is the empty string if and only if the name has no entries |
| DnFormat.FormatFieldAt | androguard/util.py:95 | entry i appears as `label_i=value_i`, unchanged, at offset `Start(fields, delimiter, i)` of the result |
| DnFormat.FormatSeparators | androguard/util.py:95 | between consecutive fields there is exactly the delimiter, once |
| DnFormat.FormatLength | androguard/util.py:95 | for n > 0 entries the result has the length of all fields plus n - 1 delimiters, and the last field ends the string (no trailing delimiter) |
| DnFormat.FormatFirstAndRest | androguard/util.py:95 | the result is the first entry's field, followed by one delimiter and the rendering of the remaining entries when there are any |
| DnFormat.FormatAppend | androguard/util.py:95 | rendering is homomorphic over append: the two halves are rendered separately and joined by one delimiter when both are non-empty |
| DnFormat.DelimiterOnlyChangesSeparators | androguard/util.py:95 | under two delimiters, each field is the same text, shifted by i times the difference in delimiter length; only the separators change |
| DnFormat.FormatShortIndependent | androguard/util.py:80-95 | when no entry's attribute has distinct short and long labels, the result is the same for `short` true and false |
| DnFormat.NoEscapingMakesNamesAmbiguous | androguard/util.py:95 | values are not escaped, so the one-entry name `CN` = `a, O=b` renders exactly like the two-entry name `CN=a`, `O=b` |
| DnFormat.FallbackCanCollideWithTable | androguard/util.py:81-95 | an unknown attribute named `CN` renders like `common_name` in short form |
| DnFormat.FormatThree | androguard/util.py:95 | a three-entry name renders as its three fields separated by two delimiters |
| DnFormat.ExampleShortForm | androguard/util.py:73-95 | for any values, a subject with common name, organization and country renders in short form as `CN=cn, O=o, C=c` |
| DnFormat.ExampleLongForm | androguard/util.py:51-95 | with the default arguments, the same subject renders as `commonName=cn, organizationName=o, countryName=c` |
| DnFormat.ExampleEmptyAndUnknown | androguard/util.py:95 | the empty name renders as the empty string; `unknown_attr` = `x` renders as `unknown_attr=x` in either form |
| TableFacts.TableLabelsAreKeystrings | androguard/util.py:68-94 | both labels of every table entry are RFC 4514 keystrings: a letter, then letters, digits or hyphens |
| TableFacts.TableLabelsHaveNoEquals | androguard/util.py:70-95 | no label the table supplies contains `=` |
| TableFacts.LabelledFieldRoundTrip | androguard/util.py:70-95 | every field of a table attribute, and of an unknown attribute without `=`, splits back at its first `=` into exactly its label and its value |
| TableFacts.TableLabelsDistinct | androguard/util.py:70-94 | two different table attributes never share a label in the same form, so a rendered table label names one attribute |
| StrJoin.JoinLength | androguard/util.py:95 | `delimiter.join` of n > 0 parts has the length of the parts plus n - 1 delimiters; of no parts, length 0 |
| StrJoin.JoinPartAt | androguard/util.py:95 | part i occurs unchanged at offset `Start(parts, delimiter, i)` |
| StrJoin.JoinDelimiterAt | androguard/util.py:95 | exactly one delimiter sits between part i and part i + 1 |
| StrJoin.JoinEndsWithLastPart | androguard/util.py:95 | the last part ends the joined string |
| StrJoin.JoinAppend | androguard/util.py:95 | joining the concatenation of two part lists is joining each and gluing with one delimiter when both are non-empty |
| StrJoin.JoinThree | androguard/util.py:95 | three parts join as `a + delimiter + b + delimiter + c` |

## Left out

- Converting an `asn1crypto.x509.Name` to a plain dict through `name.native`
  (`androguard/util.py:65-66`) is a call into a foreign library. The model starts from
  the decoded (attribute, value) pairs.
- Values that are not strings are turned into text with `"{}".format(value)` in the
  source. Python's formatting of arbitrary objects is not modelled; values are strings.
- A mapping whose `name[attr]` lookup fails for a key it iterates is not modelled. A
  dict never does this, and the model reads each value from the pair it iterates.
- `MyFilter` and `set_log` (`androguard/util.py:11-27`) configure a global logger, and
  `read_at` and `readFile` (`androguard/util.py:32-48`) do file I/O. None is part of
  this model.
- The Python `short` argument accepts any truthy value; the model takes a `bool`.
