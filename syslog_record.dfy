/**
 * What the forwarder derives from one non-blank input line before it talks to the
 * store: the destination stream, the message text, and whether the line crashes the
 * process (syslog/forward-to-cloudwatch.py:101-148).
 */
module SyslogRecord {
  import opened Types
  import opened PyText
  import opened CloudWatchLogs

  /**
   * The verdict of `json.loads` on the line: a parse error, an object (its string
   * members), or some other JSON value, of which only its truth value matters.
   */
  datatype Parsed = NotJson | Object(fields: map<string, string>) | NonObject(truthy: bool)

  /**
   * The uncaught exceptions a line can raise inside the loop: a missing record
   * member, a truthy parse that is not an object, or a service call raising an
   * exception other than `ClientError`.
   */
  datatype Crash = KeyError(key: string) | TypeError | ServiceException(exception: string)

  /** Python truthiness of the parse result (`if (parsed):`); a failed parse leaves `None`. */
  predicate Truthy(parsed: Parsed) {
    match parsed
    case NotJson => false
    case Object(fields) => fields != map[]
    case NonObject(truthy) => truthy
  }

  const DefaultStream: string := "default"
  const BlankMessage: string := "blank message"

  /** The destination stream: the record's `fromhost` member, else "default". */
  function Route(parsed: Parsed): (stream: string)
    ensures parsed.Object? && "fromhost" in parsed.fields ==> stream == parsed.fields["fromhost"]
    ensures !(parsed.Object? && "fromhost" in parsed.fields) ==> stream == DefaultStream
  {
    if parsed.Object? && "fromhost" in parsed.fields then parsed.fields["fromhost"] else DefaultStream
  }

  /**
   * The regular expression `^\s*(\S.*\S)\s*$` matches `raw` with group 1 at
   * `raw[i..j + 1]`: whitespace before `i` and after `j`, non-whitespace at both ends,
   * and no newline in between (`.` does not match one).
   */
  predicate TrimGroupAt(raw: string, i: int, j: int) {
    0 <= i < j < |raw|
    && AllSpace(raw[..i]) && AllSpace(raw[j + 1..])
    && !IsSpace(raw[i]) && !IsSpace(raw[j])
    && '\n' !in raw[i + 1..j]
  }

  /** Group 1 can be `g`: some placement of the group matches and covers exactly `g`. */
  ghost predicate TrimGroup(raw: string, g: string) {
    exists i, j :: TrimGroupAt(raw, i, j) && g == raw[i..j + 1]
  }

  /** The expression does not match at all. */
  ghost predicate NoTrimGroup(raw: string) {
    forall i, j :: !TrimGroupAt(raw, i, j)
  }

  /**
   * Group 1 of `no_whitespace.match(raw)`, or None when it does not match. Greedy
   * `^\s*` puts the group's start at the first non-whitespace character and `\S\s*$`
   * its end at the last, so the group is the stripped text when that has at least two
   * characters and no newline.
   */
  function Trim(raw: string): (r: Option<string>)
    ensures r.Some? ==> TrimGroup(raw, r.value)
    ensures r.None? ==> NoTrimGroup(raw)
  {
    var t := Strip(raw);
    TrimOutcome(raw);
    if |t| >= 2 && '\n' !in t then Some(t) else None
  }

  lemma TrimOutcome(raw: string)
    ensures var t := Strip(raw);
      && (|t| >= 2 && '\n' !in t ==> TrimGroup(raw, t))
      && (!(|t| >= 2 && '\n' !in t) ==> NoTrimGroup(raw))
  {
    var t := Strip(raw);
    TrimCases(raw, t, |RStrip(raw)| - |t|);
  }

  /** The two outcomes of the trim expression, from where the stripped text sits. */
  lemma TrimCases(raw: string, t: string, lead: int)
    requires 0 <= lead && lead + |t| <= |raw| && raw[lead..lead + |t|] == t
    requires AllSpace(raw[..lead]) && AllSpace(raw[lead + |t|..])
    requires t == [] || (!IsSpace(t[0]) && !IsSpace(t[|t| - 1]))
    ensures |t| >= 2 && '\n' !in t ==> TrimGroup(raw, t)
    ensures !(|t| >= 2 && '\n' !in t) ==> NoTrimGroup(raw)
  {
    if |t| >= 2 && '\n' !in t {
      TrimFound(raw, t, lead);
      var j := lead + |t| - 1;
      assert TrimGroupAt(raw, lead, j) && t == raw[lead..j + 1];
    } else {
      TrimMissing(raw, t, lead);
    }
  }

  lemma TrimFound(raw: string, t: string, lead: int)
    requires 0 <= lead && lead + |t| <= |raw| && raw[lead..lead + |t|] == t
    requires AllSpace(raw[..lead]) && AllSpace(raw[lead + |t|..])
    requires |t| >= 2 && !IsSpace(t[0]) && !IsSpace(t[|t| - 1]) && '\n' !in t
    ensures TrimGroupAt(raw, lead, lead + |t| - 1) && t == raw[lead..lead + |t|]
  {
    var j := lead + |t| - 1;
    assert raw[lead] == t[0] && raw[j] == t[|t| - 1];
    var mid, inner := raw[lead + 1..j], t[1..|t| - 1];
    forall k | 0 <= k < |inner| ensures mid[k] == inner[k] {
      assert raw[lead + 1 + k] == raw[lead..lead + |t|][k + 1];
    }
    assert mid == inner;
  }

  /** A match of the trim expression is exactly the stripped text. */
  lemma TrimGroupIsStripped(raw: string, t: string, lead: int, i: int, j: int)
    requires 0 <= lead && lead + |t| <= |raw| && raw[lead..lead + |t|] == t
    requires AllSpace(raw[..lead]) && AllSpace(raw[lead + |t|..])
    requires t == [] || (!IsSpace(t[0]) && !IsSpace(t[|t| - 1]))
    requires TrimGroupAt(raw, i, j)
    ensures i == lead && j == lead + |t| - 1 && |t| >= 2 && '\n' !in t
  {
    var e := lead + |t| - 1;
    assert forall k :: 0 <= k < lead ==> IsSpace(raw[k]) by {
      forall k | 0 <= k < lead ensures IsSpace(raw[k]) { assert raw[k] == raw[..lead][k]; }
    }
    assert forall k :: lead + |t| <= k < |raw| ==> IsSpace(raw[k]) by {
      forall k | lead + |t| <= k < |raw| ensures IsSpace(raw[k]) { assert raw[k] == raw[lead + |t|..][k - lead - |t|]; }
    }
    assert forall k :: 0 <= k < i ==> IsSpace(raw[k]) by {
      forall k | 0 <= k < i ensures IsSpace(raw[k]) { assert raw[k] == raw[..i][k]; }
    }
    assert forall k :: j < k < |raw| ==> IsSpace(raw[k]) by {
      forall k | j < k < |raw| ensures IsSpace(raw[k]) { assert raw[k] == raw[j + 1..][k - j - 1]; }
    }
    assert t != [] ==> raw[lead] == t[0] && raw[e] == t[|t| - 1];
    assert i == lead && j == e;
    var mid, inner := raw[i + 1..j], t[1..|t| - 1];
    forall k | 0 <= k < |inner| ensures mid[k] == inner[k] {
      assert raw[lead + 1 + k] == raw[lead..lead + |t|][k + 1];
    }
    assert mid == inner;
  }

  lemma TrimMissing(raw: string, t: string, lead: int)
    requires 0 <= lead && lead + |t| <= |raw| && raw[lead..lead + |t|] == t
    requires AllSpace(raw[..lead]) && AllSpace(raw[lead + |t|..])
    requires t == [] || (!IsSpace(t[0]) && !IsSpace(t[|t| - 1]))
    requires !(|t| >= 2 && '\n' !in t)
    ensures forall i, j :: !TrimGroupAt(raw, i, j)
  {
    forall i, j ensures !TrimGroupAt(raw, i, j) {
      if TrimGroupAt(raw, i, j) {
        TrimGroupIsStripped(raw, t, lead, i, j);
      }
    }
  }

  /** `, key=value` when the record has `key`, else nothing. */
  function Clue(fields: map<string, string>, key: string): string {
    if key in fields then ", " + key + "=" + fields[key] else ""
  }

  /**
   * The message of a record with a `rawmsg` member: the trimmed text when the trim
   * expression matches, else "blank message" followed by the `fromhost` and
   * `fromhost-ip` clues that are present. Never empty.
   */
  function ExtractMessage(fields: map<string, string>): (message: string)
    requires "rawmsg" in fields
    ensures message != []
    ensures Trim(fields["rawmsg"]).Some? ==> message == Trim(fields["rawmsg"]).value
    ensures Trim(fields["rawmsg"]).None? ==>
      message == BlankMessage + Clue(fields, "fromhost") + Clue(fields, "fromhost-ip")
  {
    match Trim(fields["rawmsg"])
    case Some(text) => text
    case None => BlankMessage + Clue(fields, "fromhost") + Clue(fields, "fromhost-ip")
  }

  /**
   * The event for the rstripped line `jsonMessage` whose parse verdict is `parsed`,
   * stamped `epochMs`, or the exception the line raises. A falsy parse (a parse
   * error, `{}`, `[]`, `""`, `0`, `false`, `null`) forwards the line itself to
   * "default"; a truthy value that is not an object raises TypeError; an object
   * without `timereported` or `rawmsg` raises KeyError.
   */
  function ToEvent(jsonMessage: string, parsed: Parsed, epochMs: int): (r: Result<LogEvent, Crash>)
    ensures !Truthy(parsed) ==> r == Ok(LogEvent(DefaultStream, epochMs, jsonMessage))
    ensures r.Err? <==>
      Truthy(parsed) && (parsed.NonObject? || "timereported" !in parsed.fields || "rawmsg" !in parsed.fields)
    ensures r.Ok? ==> r.value.stream == Route(parsed) && r.value.timestampMs == epochMs
    ensures r.Ok? && jsonMessage != [] ==> r.value.message != []
    ensures Truthy(parsed) && parsed.NonObject? ==> r == Err(TypeError)
    ensures Truthy(parsed) && parsed.Object? && "timereported" !in parsed.fields ==> r == Err(KeyError("timereported"))
    ensures Truthy(parsed) && parsed.Object? && "timereported" in parsed.fields && "rawmsg" !in parsed.fields ==>
      r == Err(KeyError("rawmsg"))
    ensures Truthy(parsed) && parsed.Object? && "timereported" in parsed.fields && "rawmsg" in parsed.fields ==>
      r == Ok(LogEvent(Route(parsed), epochMs, ExtractMessage(parsed.fields)))
  {
    if !Truthy(parsed) then Ok(LogEvent(DefaultStream, epochMs, jsonMessage))
    else if parsed.NonObject? then Err(TypeError)
    else if "timereported" !in parsed.fields then Err(KeyError("timereported"))
    else if "rawmsg" !in parsed.fields then Err(KeyError("rawmsg"))
    else Ok(LogEvent(Route(parsed), epochMs, ExtractMessage(parsed.fields)))
  }
}
