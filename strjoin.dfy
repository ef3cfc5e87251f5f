/**
  Python's `str.join`, as used by the certificate-name formatter:
  `delimiter.join(parts)` puts `delimiter` between every two neighbouring
  parts, with nothing before the first part and nothing after the last.

  `Join` is the recursive definition; `Start` and `TotalLength` give an
  independent, positional description of the same string (where each part
  begins and where each delimiter sits), and the lemmas below connect the two.
 */
module StrJoin {

  /** `delim.join(parts)` */
  function Join(parts: seq<string>, delim: string): string
  {
    if |parts| == 0 then ""
    else if |parts| == 1 then parts[0]
    else parts[0] + delim + Join(parts[1..], delim)
  }

  /** Sum of the lengths of all parts. */
  function TotalLength(parts: seq<string>): nat
  {
    if |parts| == 0 then 0 else |parts[0]| + TotalLength(parts[1..])
  }

  /** Offset at which part `i` begins in the joined string: the lengths of the
      parts before it plus one delimiter for each of them. */
  function Start(parts: seq<string>, delim: string, i: nat): nat
    requires i < |parts|
  {
    TotalLength(parts[..i]) + i * |delim|
  }

  /** Shifting the offsets by the first part and its delimiter. */
  lemma {:induction false} StartShift(parts: seq<string>, delim: string, i: nat)
    requires 0 < i < |parts|
    ensures Start(parts, delim, i) == |parts[0]| + |delim| + Start(parts[1..], delim, i - 1)
  {
    assert parts[..i][1..] == parts[1..][..i - 1];
    assert (i - 1) * |delim| + |delim| == i * |delim|;
  }

  /** The joined string holds every part once plus one delimiter per gap:
      for n > 0 parts, exactly n - 1 delimiters. */
  lemma {:induction false} JoinLength(parts: seq<string>, delim: string)
    ensures |parts| == 0 ==> |Join(parts, delim)| == 0
    ensures |parts| > 0 ==> |Join(parts, delim)| == TotalLength(parts) + (|parts| - 1) * |delim|
  {
    if |parts| > 1 {
      JoinLength(parts[1..], delim);
      assert (|parts| - 2) * |delim| + |delim| == (|parts| - 1) * |delim|;
    }
  }

  /** Part `i` occurs unchanged at offset `Start(parts, delim, i)`. */
  lemma {:induction false} JoinPartAt(parts: seq<string>, delim: string, i: nat)
    requires i < |parts|
    ensures Start(parts, delim, i) + |parts[i]| <= |Join(parts, delim)|
    ensures Join(parts, delim)[Start(parts, delim, i)..Start(parts, delim, i) + |parts[i]|] == parts[i]
  {
    if |parts| == 1 {
      assert parts[..0] == [];
    } else if i == 0 {
      assert parts[..0] == [];
    } else {
      var head := parts[0] + delim;
      var rest := Join(parts[1..], delim);
      StartShift(parts, delim, i);
      JoinPartAt(parts[1..], delim, i - 1);
      var s := Start(parts[1..], delim, i - 1);
      assert Join(parts, delim) == head + rest;
      assert (head + rest)[|head| + s..|head| + s + |parts[i]|] == rest[s..s + |parts[i]|];
    }
  }

  /** Between part `i` and part `i + 1` there is exactly one delimiter. */
  lemma {:induction false} JoinDelimiterAt(parts: seq<string>, delim: string, i: nat)
    requires i + 1 < |parts|
    ensures Start(parts, delim, i) + |parts[i]| + |delim| == Start(parts, delim, i + 1)
    ensures Start(parts, delim, i + 1) <= |Join(parts, delim)|
    ensures Join(parts, delim)[Start(parts, delim, i) + |parts[i]|..Start(parts, delim, i + 1)] == delim
  {
    var head := parts[0] + delim;
    var rest := Join(parts[1..], delim);
    assert Join(parts, delim) == head + rest;
    StartShift(parts, delim, i + 1);
    if i == 0 {
      assert parts[..0] == [];
      assert (head + rest)[|parts[0]|..|head|] == delim;
    } else {
      StartShift(parts, delim, i);
      JoinDelimiterAt(parts[1..], delim, i - 1);
      var s := Start(parts[1..], delim, i - 1) + |parts[i]|;
      assert (head + rest)[|head| + s..|head| + s + |delim|] == rest[s..s + |delim|];
    }
  }

  /** The last part ends the joined string: no trailing delimiter. */
  lemma {:induction false} JoinEndsWithLastPart(parts: seq<string>, delim: string)
    requires |parts| > 0
    ensures Start(parts, delim, |parts| - 1) + |parts[|parts| - 1]| == |Join(parts, delim)|
  {
    if |parts| == 1 {
      assert parts[..0] == [];
    } else {
      StartShift(parts, delim, |parts| - 1);
      JoinEndsWithLastPart(parts[1..], delim);
    }
  }

  /** Joining is homomorphic over sequence append: the two halves are joined
      separately and glued by one delimiter when both are non-empty. */
  lemma {:induction false} JoinAppend(left: seq<string>, right: seq<string>, delim: string)
    ensures Join(left + right, delim) ==
      if left == [] then Join(right, delim)
      else if right == [] then Join(left, delim)
      else Join(left, delim) + delim + Join(right, delim)
  {
    if left == [] {
      assert left + right == right;
    } else if right == [] {
      assert left + right == left;
    } else if |left| == 1 {
      assert (left + right)[1..] == right;
    } else {
      assert (left + right)[1..] == left[1..] + right;
      JoinAppend(left[1..], right, delim);
    }
  }

  /** Three parts: the shape of the typical subject `CN, O, C`. */
  lemma JoinThree(a: string, b: string, c: string, delim: string)
    ensures Join([a, b, c], delim) == a + delim + b + delim + c
  {
    assert [b, c][1..] == [c];
    assert Join([b, c], delim) == b + delim + c;
    assert [a, b, c][1..] == [b, c];
  }
}
