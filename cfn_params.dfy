/**
 * historical/create-cfn-params.py: reads `key<TAB>value<TAB>-` lines, keeps the last
 * value of each key in first-appearance order, and prints the table as a list of
 * `{ParameterKey, ParameterValue}` records; the first line that does not parse ends
 * the script with status 1 before anything else is printed.
 */
module CfnParams {
  import opened Types
  import opened PyText

  datatype Param = Param(key: string, value: string)

  /** The length of the longest prefix of `s` without whitespace (`\S+`, greedy). */
  function NonSpaceRun(s: string): (n: nat)
    ensures n <= |s| && NoSpace(s[..n]) && (n == |s| || IsSpace(s[n]))
  {
    if s == [] || IsSpace(s[0]) then 0
    else
      var n := NonSpaceRun(s[1..]);
      assert s[..n + 1] == [s[0]] + s[1..][..n];
      n + 1
  }

  /** The index of the first newline at or after `from`, or `|s|`. */
  function NewlineFrom(s: string, from: nat): (n: nat)
    requires from <= |s|
    ensures from <= n <= |s| && '\n' !in s[from..n] && (n == |s| || s[n] == '\n')
    decreases |s| - from
  {
    if from == |s| || s[from] == '\n' then from
    else
      var n := NewlineFrom(s, from + 1);
      assert s[from..n] == [s[from]] + s[from + 1..n];
      n
  }

  predicate TabDashAt(s: string, m: int) {
    0 <= m && m + 1 < |s| && s[m] == '\t' && s[m + 1] == '-'
  }

  /** The last position in `[lo, hi)` where `\t-` starts. */
  function LastTabDash(s: string, lo: nat, hi: nat): (m: Option<nat>)
    ensures m.Some? ==> lo <= m.value < hi && TabDashAt(s, m.value)
    ensures m.Some? ==> forall k :: m.value < k < hi ==> !TabDashAt(s, k)
    ensures m.None? ==> forall k :: lo <= k < hi ==> !TabDashAt(s, k)
    decreases hi
  {
    if hi <= lo then None
    else if TabDashAt(s, hi - 1) then Some(hi - 1)
    else LastTabDash(s, lo, hi - 1)
  }

  /**
   * `(\S+)\t(.+)\t-` matches at the start of `text` with groups `key` and `value`
   * (`.` matches anything but a newline).
   */
  predicate IsMatch(text: string, key: string, value: string) {
    |key| >= 1 && NoSpace(key) && |value| >= 1 && '\n' !in value && key + "\t" + value + "\t-" <= text
  }

  /**
   * `prog.match(text)` as its two groups. `\S+` cannot take the tab, so the key is the
   * whole leading non-whitespace run; greedy `.+` makes the value reach the last
   * `\t-` before any newline.
   */
  function ParseLine(text: string): (p: Option<Param>)
    ensures p.Some? ==> IsMatch(text, p.value.key, p.value.value)
    ensures p.Some? ==> forall k, v :: IsMatch(text, k, v) ==> k == p.value.key && |v| <= |p.value.value|
    ensures p.None? ==> forall k, v :: !IsMatch(text, k, v)
  {
    var n := NonSpaceRun(text);
    if n == 0 || n >= |text| || text[n] != '\t' then
      NoMatchWithoutKey(text, n);
      None
    else
      var lim := NewlineFrom(text, n + 1);
      match LastTabDash(text, n + 2, lim)
      case None =>
        NoMatchWithoutTabDash(text, n, lim);
        None
      case Some(m) =>
        MatchFound(text, n, lim, m);
        Some(Param(text[..n], text[n + 1..m]))
  }

  /** A match's key is the leading non-whitespace run, and its value ends at a `\t-` before any newline. */
  lemma MatchShape(text: string, k: string, v: string)
    requires IsMatch(text, k, v)
    ensures |k| == NonSpaceRun(text) && |k| < |text| && text[|k|] == '\t'
    ensures var lim := NewlineFrom(text, |k| + 1);
      |k| + 2 <= |k| + 1 + |v| < lim && TabDashAt(text, |k| + 1 + |v|)
      && text[|k| + 1..|k| + 1 + |v|] == v
  {
    MatchParts(text, k, v);
    KeyIsRun(text, k);
    ValueBeforeNewline(text, |k| + 1, v);
  }

  /** The pieces of `key + "\t" + value + "\t-"` where they sit in the text. */
  lemma MatchParts(text: string, k: string, v: string)
    requires IsMatch(text, k, v)
    ensures |k| + |v| + 3 <= |text| && text[..|k|] == k && text[|k|] == '\t'
    ensures text[|k| + 1..|k| + 1 + |v|] == v && TabDashAt(text, |k| + 1 + |v|)
  {
    var line := k + "\t" + v + "\t-";
    var e := |k| + 1 + |v|;
    assert text[..|line|] == line;
    assert text[..|k|] == line[..|k|];
    assert text[|k| + 1..e] == line[|k| + 1..e];
    assert text[|k|] == line[|k|] && text[e] == line[e] && text[e + 1] == line[e + 1];
  }

  /** A whitespace-free prefix followed by whitespace is the leading non-whitespace run. */
  lemma KeyIsRun(text: string, k: string)
    requires |k| < |text| && text[..|k|] == k && NoSpace(k) && IsSpace(text[|k|])
    ensures NonSpaceRun(text) == |k|
  {
    var n := NonSpaceRun(text);
    assert forall q :: 0 <= q < |k| ==> text[q] == k[q] by {
      forall q | 0 <= q < |k| ensures text[q] == k[q] { assert text[..|k|][q] == text[q]; }
    }
  }

  /** A one-line value followed by `\t-` ends before the first newline after its start. */
  lemma ValueBeforeNewline(text: string, b: nat, v: string)
    requires b + |v| + 2 <= |text| && text[b..b + |v|] == v && '\n' !in v
    requires text[b + |v|] == '\t'
    ensures b + |v| < NewlineFrom(text, b)
  {
    var lim := NewlineFrom(text, b);
  }

  lemma NoMatchWithoutKey(text: string, n: nat)
    requires n == NonSpaceRun(text)
    requires n == 0 || n >= |text| || text[n] != '\t'
    ensures forall k, v :: !IsMatch(text, k, v)
  {
    forall k, v | IsMatch(text, k, v) ensures false {
      MatchShape(text, k, v);
    }
  }

  lemma NoMatchWithoutTabDash(text: string, n: nat, lim: nat)
    requires n == NonSpaceRun(text) && n < |text| && lim == NewlineFrom(text, n + 1)
    requires forall m :: n + 2 <= m < lim ==> !TabDashAt(text, m)
    ensures forall k, v :: !IsMatch(text, k, v)
  {
    forall k, v | IsMatch(text, k, v) ensures false {
      MatchShape(text, k, v);
    }
  }

  lemma MatchFound(text: string, n: nat, lim: nat, m: nat)
    requires n == NonSpaceRun(text) && 0 < n < |text| && text[n] == '\t'
    requires lim == NewlineFrom(text, n + 1)
    requires n + 2 <= m < lim && TabDashAt(text, m)
    requires forall k :: m < k < lim ==> !TabDashAt(text, k)
    ensures IsMatch(text, text[..n], text[n + 1..m])
    ensures forall k, v :: IsMatch(text, k, v) ==> k == text[..n] && |v| <= m - n - 1
  {
    MatchWitness(text, n, lim, m);
    forall k, v | IsMatch(text, k, v) ensures k == text[..n] && |v| <= m - n - 1 {
      MatchBounded(text, n, lim, m, k, v);
    }
  }

  /** Any match has the leading run as its key and a value ending at or before the last `\t-`. */
  lemma MatchBounded(text: string, n: nat, lim: nat, m: nat, k: string, v: string)
    requires n == NonSpaceRun(text) && n < |text| && lim == NewlineFrom(text, n + 1)
    requires m < lim && forall q :: m < q < lim ==> !TabDashAt(text, q)
    requires IsMatch(text, k, v)
    ensures k == text[..n] && |v| <= m - n - 1
  {
    MatchShape(text, k, v);
    assert k == text[..|k|];
  }

  lemma MatchWitness(text: string, n: nat, lim: nat, m: nat)
    requires 0 < n < |text| && NoSpace(text[..n]) && text[n] == '\t'
    requires n + 1 <= lim <= |text| && '\n' !in text[n + 1..lim]
    requires n + 2 <= m < lim && TabDashAt(text, m)
    ensures IsMatch(text, text[..n], text[n + 1..m])
  {
    var key, value := text[..n], text[n + 1..m];
    assert '\n' !in value by {
      assert value == text[n + 1..lim][..m - n - 1];
    }
    var line := key + "\t" + value + "\t-";
    var front := text[..m + 2];
    forall q | 0 <= q < |line| ensures line[q] == front[q] {
      if q < n {
        assert line[q] == key[q];
      } else if n < q < m {
        assert line[q] == value[q - n - 1];
      }
    }
    assert line == front;
  }

  /** The keys of a table, in order. */
  function KeysOf(table: seq<Param>): (keys: seq<string>)
    ensures |keys| == |table| && forall i :: 0 <= i < |table| ==> keys[i] == table[i].key
  {
    if table == [] then [] else KeysOf(table[..|table| - 1]) + [table[|table| - 1].key]
  }

  predicate DistinctKeys(table: seq<Param>) {
    forall i, j :: 0 <= i < j < |table| ==> table[i].key != table[j].key
  }

  /** Every key is a non-empty run of non-whitespace characters. */
  predicate GoodKeys(table: seq<Param>) {
    forall i :: 0 <= i < |table| ==> |table[i].key| >= 1 && NoSpace(table[i].key)
  }

  /**
   * `params[key] = value` on an insertion-ordered dict: a present key keeps its place
   * and takes the new value; a new key goes last.
   */
  function Assign(table: seq<Param>, key: string, value: string): (r: seq<Param>)
    ensures KeysOf(r) == if key in KeysOf(table) then KeysOf(table) else KeysOf(table) + [key]
    ensures forall i :: 0 <= i < |r| ==> r[i] == (if r[i].key == key then Param(key, value) else table[i])
    ensures DistinctKeys(table) ==> DistinctKeys(r)
  {
    if key in KeysOf(table) then
      var r := seq(|table|, i requires 0 <= i < |table| => if table[i].key == key then Param(key, value) else table[i]);
      assert KeysOf(r) == KeysOf(table);
      r
    else
      var r := table + [Param(key, value)];
      assert KeysOf(r) == KeysOf(table) + [key];
      r
  }

  /** The table the loop ends with after the pairs `pairs`, assigned in order. */
  function Build(pairs: seq<Param>): seq<Param> {
    if pairs == [] then []
    else
      var last := pairs[|pairs| - 1];
      Assign(Build(pairs[..|pairs| - 1]), last.key, last.value)
  }

  /** Building one more pair assigns it to the table built so far. */
  lemma BuildStep(pairs: seq<Param>, p: Param)
    ensures Build(pairs + [p]) == Assign(Build(pairs), p.key, p.value)
  {
    assert (pairs + [p])[..|pairs|] == pairs;
  }

  /** The keys in order of first appearance. */
  function FirstAppearances(keys: seq<string>): seq<string> {
    if keys == [] then []
    else
      var earlier := FirstAppearances(keys[..|keys| - 1]);
      if keys[|keys| - 1] in earlier then earlier else earlier + [keys[|keys| - 1]]
  }

  /** The value of the last pair with `key`. */
  function LastValue(pairs: seq<Param>, key: string): string
    requires key in KeysOf(pairs)
  {
    var n := |pairs| - 1;
    if pairs[n].key == key then pairs[n].value else LastValue(pairs[..n], key)
  }

  /** The output lists each key once, in the order the keys first appeared. */
  lemma {:induction false} BuildKeyOrder(pairs: seq<Param>)
    ensures KeysOf(Build(pairs)) == FirstAppearances(KeysOf(pairs))
    ensures DistinctKeys(Build(pairs))
  {
    if pairs != [] {
      var n := |pairs| - 1;
      BuildKeyOrder(pairs[..n]);
      assert KeysOf(pairs[..n]) == KeysOf(pairs)[..n];
    }
  }

  /** Each key's value in the output is the value of its last line. */
  lemma {:induction false} BuildLastValueWins(pairs: seq<Param>)
    ensures forall i :: 0 <= i < |Build(pairs)| ==>
      Build(pairs)[i].key in KeysOf(pairs) && Build(pairs)[i].value == LastValue(pairs, Build(pairs)[i].key)
  {
    if pairs != [] {
      var n := |pairs| - 1;
      var before := Build(pairs[..n]);
      BuildLastValueWins(pairs[..n]);
      assert KeysOf(pairs[..n]) == KeysOf(pairs)[..n];
      forall i | 0 <= i < |Build(pairs)|
        ensures Build(pairs)[i].key in KeysOf(pairs) && Build(pairs)[i].value == LastValue(pairs, Build(pairs)[i].key)
      {
        var p := Build(pairs)[i];
        if p.key != pairs[n].key {
          assert p == before[i];
          assert KeysOf(pairs)[..n] <= KeysOf(pairs);
        } else {
          assert KeysOf(pairs)[n] == p.key;
        }
      }
    }
  }

  /** Every key of the output comes from some line, so the output keys are good when the lines' keys are. */
  lemma {:induction false} BuildGoodKeys(pairs: seq<Param>)
    requires GoodKeys(pairs)
    ensures GoodKeys(Build(pairs))
  {
    if pairs != [] {
      var n := |pairs| - 1;
      assert GoodKeys(pairs[..n]) by {
        forall i | 0 <= i < n ensures |pairs[..n][i].key| >= 1 && NoSpace(pairs[..n][i].key) {
          assert pairs[..n][i] == pairs[i];
        }
      }
      BuildGoodKeys(pairs[..n]);
      AssignGoodKeys(Build(pairs[..n]), pairs[n].key, pairs[n].value);
    }
  }

  lemma AssignGoodKeys(table: seq<Param>, key: string, value: string)
    requires GoodKeys(table) && |key| >= 1 && NoSpace(key)
    ensures GoodKeys(Assign(table, key, value))
  {
    var r := Assign(table, key, value);
    forall i | 0 <= i < |r| ensures |r[i].key| >= 1 && NoSpace(r[i].key) {
      if r[i].key != key {
        assert r[i] == table[i];
      }
    }
  }

  /** Line `j` is the first line whose stripped text does not parse. */
  predicate FailsFirstAt(lines: seq<string>, j: int) {
    0 <= j < |lines| && ParseLine(Strip(lines[j])).None?
    && forall i :: 0 <= i < j ==> ParseLine(Strip(lines[i])).Some?
  }

  /** The pairs of all lines, or the first stripped line that does not parse. */
  function ParseAll(lines: seq<string>): (r: Result<seq<Param>, string>)
    ensures r.Ok? ==> |r.value| == |lines| && GoodKeys(r.value)
  {
    if lines == [] then Ok([])
    else
      match ParseAll(lines[..|lines| - 1])
      case Err(text) => Err(text)
      case Ok(pairs) =>
        var text := Strip(lines[|lines| - 1]);
        match ParseLine(text)
        case None => Err(text)
        case Some(p) =>
          GoodKeysAppend(pairs, p);
          Ok(pairs + [p])
  }

  /** The stripped `line` parses as `p`. */
  predicate LineParsesAs(line: string, p: Param) {
    ParseLine(Strip(line)) == Some(p)
  }

  /** `ParseAll` on a non-empty input: the prefix, then the last line. */
  lemma ParseAllLast(lines: seq<string>)
    requires lines != []
    ensures var front, last := ParseAll(lines[..|lines| - 1]), ParseLine(Strip(lines[|lines| - 1]));
      && (front.Err? ==> ParseAll(lines) == front)
      && (front.Ok? && last.None? ==> ParseAll(lines) == Err(Strip(lines[|lines| - 1])))
      && (front.Ok? && last.Some? ==> ParseAll(lines) == Ok(front.value + [last.value]))
  {
  }

  /** `ParseAll` on the first `i + 1` lines: the first `i` lines, then line `i`. */
  lemma ParseAllStep(lines: seq<string>, i: nat)
    requires i < |lines|
    ensures var front, last := ParseAll(lines[..i]), ParseLine(Strip(lines[i]));
      && (front.Err? ==> ParseAll(lines[..i + 1]) == front)
      && (front.Ok? && last.None? ==> ParseAll(lines[..i + 1]) == Err(Strip(lines[i])))
      && (front.Ok? && last.Some? ==> ParseAll(lines[..i + 1]) == Ok(front.value + [last.value]))
  {
    assert lines[..i + 1][..i] == lines[..i];
    ParseAllLast(lines[..i + 1]);
  }

  /** A successful `ParseAll` holds the pair of each line, one per line in line order. */
  lemma ParseAllLines(lines: seq<string>)
    requires ParseAll(lines).Ok?
    ensures forall i {:trigger LineParsesAs(lines[i], ParseAll(lines).value[i])} :: 0 <= i < |lines| ==>
      LineParsesAs(lines[i], ParseAll(lines).value[i])
  {
    assert lines[..|lines|] == lines;
    ParseAllPrefixLines(lines, |lines|);
  }

  /** `ParseAllLines` for the first `n` lines. */
  lemma {:induction false} ParseAllPrefixLines(lines: seq<string>, n: nat)
    requires n <= |lines| && ParseAll(lines[..n]).Ok?
    ensures forall k {:trigger LineParsesAs(lines[k], ParseAll(lines[..n]).value[k])} :: 0 <= k < n ==>
      LineParsesAs(lines[k], ParseAll(lines[..n]).value[k])
  {
    if n > 0 {
      var m := n - 1;
      ParseAllStep(lines, m);
      ParseAllPrefixLines(lines, m);
      LastLineParses(lines[m]);
      PairsGrow(lines, m, ParseAll(lines[..m]).value, ParseLine(Strip(lines[m])).value);
    }
  }

  /** Pairs that match the first `n` lines one by one are what `ParseAll` gives for those lines. */
  lemma {:induction false} ParseAllPrefix(lines: seq<string>, n: nat, pairs: seq<Param>)
    requires n <= |lines| && |pairs| == n
    requires forall k {:trigger LineParsesAs(lines[k], pairs[k])} :: 0 <= k < n ==>
      LineParsesAs(lines[k], pairs[k])
    ensures ParseAll(lines[..n]) == Ok(pairs)
  {
    if n == 0 {
      assert lines[..0] == [];
    } else {
      var m := n - 1;
      SplitLast(pairs);
      PairsShrink(lines, m, pairs);
      ParseAllPrefix(lines, m, pairs[..m]);
      ParseAllStep(lines, m);
      assert LineParsesAs(lines[m], pairs[m]);
    }
  }

  /** A failed `ParseAll` reports the stripped text of the first line that does not parse. */
  lemma ParseAllFirstFailure(lines: seq<string>)
    requires ParseAll(lines).Err?
    ensures exists j :: FailsFirstAt(lines, j) && ParseAll(lines).error == Strip(lines[j])
  {
    assert lines[..|lines|] == lines;
    ParseAllPrefixFailure(lines, |lines|);
  }

  /** `ParseAllFirstFailure` for the first `n` lines. */
  lemma {:induction false} ParseAllPrefixFailure(lines: seq<string>, n: nat)
    requires n <= |lines| && ParseAll(lines[..n]).Err?
    ensures exists j :: j < n && FailsFirstAt(lines, j) && ParseAll(lines[..n]).error == Strip(lines[j])
  {
    assert lines[..n] != [];
    var m := n - 1;
    ParseAllStep(lines, m);
    if ParseAll(lines[..m]).Err? {
      ParseAllPrefixFailure(lines, m);
    } else {
      ParseAllPrefixLines(lines, m);
      FailsFirstHere(lines, m, ParseAll(lines[..m]).value);
    }
  }

  /** A non-empty sequence is its front followed by its last element. */
  lemma SplitLast<T>(s: seq<T>)
    requires s != []
    ensures s == s[..|s| - 1] + [s[|s| - 1]]
  {
  }

  /** A line that parses parses as its own pair. */
  lemma LastLineParses(line: string)
    requires ParseLine(Strip(line)).Some?
    ensures LineParsesAs(line, ParseLine(Strip(line)).value)
  {
  }

  /** Equal lines parse as equal pairs. */
  lemma ParsesAsMoves(line: string, p: Param, line': string, p': Param)
    requires LineParsesAs(line, p) && line' == line && p' == p
    ensures LineParsesAs(line', p')
  {
  }

  /** Pairs that match the first `i` lines, extended by the pair of line `i`. */
  lemma PairsGrow(lines: seq<string>, i: nat, pairs: seq<Param>, p: Param)
    requires i < |lines| && |pairs| == i
    requires forall k {:trigger LineParsesAs(lines[k], pairs[k])} :: 0 <= k < i ==>
      LineParsesAs(lines[k], pairs[k])
    requires LineParsesAs(lines[i], p)
    ensures forall k {:trigger LineParsesAs(lines[k], (pairs + [p])[k])} :: 0 <= k < i + 1 ==>
      LineParsesAs(lines[k], (pairs + [p])[k])
  {
    forall k | 0 <= k < i + 1 ensures LineParsesAs(lines[k], (pairs + [p])[k]) {
      PairGrows(lines, i, pairs, p, k);
    }
  }

  /** One position of `PairsGrow`. */
  lemma PairGrows(lines: seq<string>, i: nat, pairs: seq<Param>, p: Param, k: nat)
    requires k <= i < |lines| && |pairs| == i
    requires k < i ==> LineParsesAs(lines[k], pairs[k])
    requires LineParsesAs(lines[i], p)
    ensures LineParsesAs(lines[k], (pairs + [p])[k])
  {
    if k < i {
      ParsesAsMoves(lines[k], pairs[k], lines[k], (pairs + [p])[k]);
    } else {
      ParsesAsMoves(lines[i], p, lines[k], (pairs + [p])[k]);
    }
  }

  /** Pairs that match the first `m + 1` lines, cut back to the first `m`. */
  lemma PairsShrink(lines: seq<string>, m: nat, pairs: seq<Param>)
    requires m < |lines| && |pairs| == m + 1
    requires forall k {:trigger LineParsesAs(lines[k], pairs[k])} :: 0 <= k < m + 1 ==>
      LineParsesAs(lines[k], pairs[k])
    ensures forall k {:trigger LineParsesAs(lines[k], pairs[..m][k])} :: 0 <= k < m ==>
      LineParsesAs(lines[k], pairs[..m][k])
  {
    forall k | 0 <= k < m ensures LineParsesAs(lines[k], pairs[..m][k]) {
      ParsesAsMoves(lines[k], pairs[k], lines[k], pairs[..m][k]);
    }
  }

  /** Every line before `m` has a pair and line `m` does not parse, so line `m` fails first. */
  lemma FailsFirstHere(lines: seq<string>, m: nat, pairs: seq<Param>)
    requires m < |lines| && |pairs| == m
    requires forall k {:trigger LineParsesAs(lines[k], pairs[k])} :: 0 <= k < m ==>
      LineParsesAs(lines[k], pairs[k])
    requires ParseLine(Strip(lines[m])).None?
    ensures FailsFirstAt(lines, m)
  {
    forall k | 0 <= k < m ensures ParseLine(Strip(lines[k])).Some? {
      assert LineParsesAs(lines[k], pairs[k]);
    }
  }

  /** Appending a pair with a non-empty key free of whitespace keeps the keys well formed. */
  lemma GoodKeysAppend(pairs: seq<Param>, p: Param)
    requires GoodKeys(pairs) && |p.key| >= 1 && NoSpace(p.key)
    ensures GoodKeys(pairs + [p])
  {
  }

  /** Once a prefix of the input fails, the whole input fails on the same line. */
  lemma {:induction false} ParseAllFailsEarly(lines: seq<string>, i: nat, text: string)
    requires i <= |lines| && ParseAll(lines[..i]) == Err(text)
    ensures ParseAll(lines) == Err(text)
    decreases |lines| - i
  {
    if i < |lines| {
      assert lines[..i + 1][..i] == lines[..i];
      ParseAllFailsEarly(lines, i + 1, text);
    } else {
      assert lines[..i] == lines;
    }
  }

  function ErrorMessage(text: string): string {
    "could not parse \"" + text + "\""
  }

  /**
   * The script: the output records (`Ok`), or the message printed before
   * `sys.exit(1)` (`Err`).
   */
  method CreateParams(lines: seq<string>) returns (result: Result<seq<Param>, string>)
    ensures ParseAll(lines).Ok? ==> result == Ok(Build(ParseAll(lines).value))
    ensures ParseAll(lines).Err? ==> result == Err(ErrorMessage(ParseAll(lines).error))
    ensures result.Ok? ==> DistinctKeys(result.value) && GoodKeys(result.value)
  {
    var params: seq<Param> := [];
    ghost var pairs: seq<Param> := [];
    var i := 0;
    while i < |lines|
      invariant 0 <= i <= |lines| && |pairs| == i
      invariant forall k {:trigger LineParsesAs(lines[k], pairs[k])} :: 0 <= k < i ==>
        LineParsesAs(lines[k], pairs[k])
      invariant params == Build(pairs)
    {
      var text := Strip(lines[i]);
      var matched := ParseLine(text);
      if matched.None? {
        ParseAllPrefix(lines, i, pairs);
        ParseAllStep(lines, i);
        ParseAllFailsEarly(lines, i + 1, text);
        return Err(ErrorMessage(text));
      }
      BuildStep(pairs, matched.value);
      LastLineParses(lines[i]);
      PairsGrow(lines, i, pairs, matched.value);
      params := Assign(params, matched.value.key, matched.value.value);
      pairs := pairs + [matched.value];
      i := i + 1;
    }
    ParseAllPrefix(lines, i, pairs);
    assert lines[..i] == lines;
    BuildKeyOrder(pairs);
    BuildGoodKeys(pairs);
    result := Ok(params);
  }
}
