/**
 * The two pure pieces of read_data.py: `b2s`, which cuts the NUL padding off a
 * fixed-width string field, and the `struct` format built from the field table.
 */
module ReadData {

  const Nul: char := '\0'

  /**
   * `next(i for i in range(hi, 0, -1) if s[i] != '\0'), -1)`: the last index in
   * `1..hi` holding a character other than NUL, or -1. Index 0 is never examined.
   */
  function LastNonNul(s: string, hi: int): (last: int)
    requires hi < |s|
    ensures last == -1 || (1 <= last <= hi && s[last] != Nul)
    ensures forall k :: (if last == -1 then 1 else last + 1) <= k <= hi ==> s[k] == Nul
    decreases hi
  {
    if hi < 1 then -1
    else if s[hi] != Nul then hi
    else LastNonNul(s, hi - 1)
  }

  /** `b2s(string_bytes)` on the decoded text: everything up to the last non-NUL character past index 0. */
  function B2s(s: string): (r: string)
    ensures r <= s
    ensures (exists i :: 1 <= i < |s| && s[i] != Nul) ==>
      |r| >= 2 && r[|r| - 1] != Nul && forall k :: |r| <= k < |s| ==> s[k] == Nul
    ensures (forall i :: 1 <= i < |s| ==> s[i] == Nul) ==> r == ""
  {
    var last := LastNonNul(s, |s| - 1);
    s[..last + 1]
  }

  /** A text that is already cut comes back unchanged. */
  lemma B2sIdempotent(s: string)
    ensures B2s(B2s(s)) == B2s(s)
  {
    var r := B2s(s);
    if r != "" {
      assert r[|r| - 1] != Nul;
      assert r[..|r|] == r;
    }
  }

  /** A field of the record: its namedtuple name and its `struct` code. */
  datatype Field = Field(name: string, code: string)

  /** `data_fields`: a NUL-padded 8-byte sensor name and four readings. */
  const DataFields: seq<Field> := [
    Field("sensor", "8s"),
    Field("reading_one", "I"),
    Field("reading_two", "l"),
    Field("reading_three", "f"),
    Field("reading_four", "d")
  ]

  /** The field codes concatenated in field order. */
  function Codes(fields: seq<Field>): string {
    if fields == [] then "" else Codes(fields[..|fields| - 1]) + fields[|fields| - 1].code
  }

  /** `format_string`: native byte order with standard sizes, then each field's code. */
  function FormatString(fields: seq<Field>): (format: string)
    ensures |format| >= 1 && format[0] == '='
    ensures format[1..] == Codes(fields)
  {
    "=" + Codes(fields)
  }

  /** Adding a field appends its code to the format. */
  lemma FormatStringAppend(fields: seq<Field>, field: Field)
    ensures FormatString(fields + [field]) == FormatString(fields) + field.code
  {
    assert (fields + [field])[..|fields|] == fields;
  }

  /**
   * `struct` reads the fields in order: the code of field `i` sits in the format right
   * after the "=" and the codes of the fields before it.
   */
  lemma {:induction false} FormatStringFieldAt(fields: seq<Field>, i: int)
    requires 0 <= i < |fields|
    ensures var at := 1 + |Codes(fields[..i])|;
      at + |fields[i].code| <= |FormatString(fields)| && FormatString(fields)[at..at + |fields[i].code|] == fields[i].code
    decreases |fields|
  {
    var n := |fields| - 1;
    var front := fields[..n];
    assert fields == front + [fields[n]];
    FormatStringAppend(front, fields[n]);
    var at := 1 + |Codes(fields[..i])|;
    var code := fields[i].code;
    if i == n {
      assert fields[..i] == front;
      assert FormatString(fields)[at..at + |code|] == code;
    } else {
      FormatStringFieldAt(front, i);
      assert front[..i] == fields[..i] && front[i] == fields[i];
      assert FormatString(fields)[at..at + |code|] == FormatString(front)[at..at + |code|];
    }
  }

  /** The format for the data fields. */
  lemma DataFormat()
    ensures FormatString(DataFields) == "=8sIlfd"
  {
    var d := DataFields;
    assert d[..1][..0] == [] && d[..2][..1] == d[..1] && d[..3][..2] == d[..2] && d[..4][..3] == d[..3] && d[..4] == d[..|d| - 1];
    assert Codes(d[..1]) == "8s";
    assert Codes(d[..2]) == "8sI";
    assert Codes(d[..3]) == "8sIl";
    assert Codes(d[..4]) == "8sIlf";
  }

  /**
   * The standard size in bytes of one `struct` code under "=": a count before `s`
   * gives that many bytes; `I`, `l` and `f` are 4 bytes, `d` is 8.
   */
  function CodeSize(code: string): (size: nat)
    ensures code in ["8s", "I", "l", "f", "d"] ==> size > 0
  {
    if code == "8s" then 8
    else if code == "I" || code == "l" || code == "f" then 4
    else if code == "d" then 8
    else 0
  }

  function RecordSize(fields: seq<Field>): nat {
    if fields == [] then 0 else RecordSize(fields[..|fields| - 1]) + CodeSize(fields[|fields| - 1].code)
  }

  /** One record of the data fields is the 28 bytes read_data.py reads. */
  lemma DataRecordSize()
    ensures RecordSize(DataFields) == 28
  {
    var d := DataFields;
    assert d[..1][..0] == [] && d[..2][..1] == d[..1] && d[..3][..2] == d[..2] && d[..4][..3] == d[..3] && d[..4] == d[..|d| - 1];
    assert RecordSize(d[..1]) == 8;
    assert RecordSize(d[..2]) == 12;
    assert RecordSize(d[..3]) == 16;
    assert RecordSize(d[..4]) == 20;
  }
}
