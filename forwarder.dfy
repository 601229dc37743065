/**
 * The rsyslog omprog side of the forwarder: for each input line, derive an event,
 * look up the stream's token, append, and write "OK" to standard output only when
 * the append is accepted (syslog/forward-to-cloudwatch.py:86-187).
 */
module Forwarder {
  import opened Types
  import opened PyText
  import opened CloudWatchLogs
  import opened SyslogRecord

  const Ack: string := "OK\n"

  /** How one line ended: acknowledged, appended without success, or the exception it raised. */
  datatype LineStatus = Acked | NotAcked(response: PutResponse) | Crashed(crash: Crash)

  /** What one line does: its status, the stream tokens after it, and the events it delivers. */
  datatype Step = Step(status: LineStatus, tokens: map<string, Option<string>>, events: seq<LogEvent>)

  /** The decimal digits of `n`, as `str(n)` writes them. */
  function Decimal(n: nat): (s: string)
    ensures s != [] && forall i :: 0 <= i < |s| ==> '0' <= s[i] <= '9'
    ensures |s| > 1 ==> s[0] != '0'
  {
    if n < 10 then [('0' as int + n) as char]
    else Decimal(n / 10) + [('0' as int + n % 10) as char]
  }

  /** The number a string of decimal digits stands for. */
  function DigitsValue(s: string): nat
    requires forall i :: 0 <= i < |s| ==> '0' <= s[i] <= '9'
  {
    if s == [] then 0 else DigitsValue(s[..|s| - 1]) * 10 + (s[|s| - 1] as int - '0' as int)
  }

  /** `Decimal` writes back the number it was given. */
  lemma {:induction false} DecimalValue(n: nat)
    ensures DigitsValue(Decimal(n)) == n
  {
    if n >= 10 {
      var s := Decimal(n);
      assert s[..|s| - 1] == Decimal(n / 10);
      DecimalValue(n / 10);
    }
  }

  /** botocore's note on a `ClientError` raised after the client's last retry. */
  function RetryInfo(retries: Option<nat>): string {
    if retries.Some? then " (reached max retries: " + Decimal(retries.value) + ")" else ""
  }

  /** botocore's text for a `ClientError` raised by the append. */
  function ClientErrorText(code: string, message: string, retries: Option<nat>): string {
    "An error occurred (" + code + ") when calling the PutLogEvents operation" + RetryInfo(retries) + ": " + message
  }

  /** What the loop itself writes to standard error for a line that ended with `status`. */
  function ErrorOutput(status: LineStatus): string {
    if status.NotAcked? && status.response.ClientError? then
      "ERROR: " + ClientErrorText(status.response.code, status.response.message, status.response.retries) + "\n"
    else ""
  }

  /**
   * The `try` block for `event` against the stream tokens `tokens`, composed from the
   * store's specification: the lookup creates the stream when no stream name starts
   * with it, and the append is judged by `PutOutcome` with the token the lookup returns.
   */
  function EventStep(tokens: map<string, Option<string>>, event: LogEvent, reply: ServiceReply): Step {
    var name := event.stream;
    var looked := if AnyWithPrefix(tokens, name) then tokens else tokens[name := None];
    var token := if name in looked then looked[name].GetOr("0") else "0";
    match PutOutcome(looked, name, token, reply)
    case Accepted => Step(Acked, looked[name := Some(reply.nextToken)], [event])
    case Raised(exception) => Step(Crashed(ServiceException(exception)), looked, [])
    case Rejected(info) => Step(NotAcked(Rejected(info)), looked, [])
    case ClientError(code, message, retries) => Step(NotAcked(ClientError(code, message, retries)), looked, [])
  }

  /** One line against the stream tokens `tokens`. */
  function LineStep(tokens: map<string, Option<string>>, line: string, parsed: Parsed, epochMs: int, reply: ServiceReply): Step {
    if AllSpace(line) then Step(Acked, tokens, [])
    else
      match ToEvent(RStrip(line), parsed, epochMs)
      case Err(crash) => Step(Crashed(crash), tokens, [])
      case Ok(event) => EventStep(tokens, event, reply)
  }

  /**
   * The effect of a non-blank line whose record gives `event`. An exception that is
   * not a `ClientError` crashes the line. A shadowed stream is neither created nor
   * appended to. Otherwise the stream exists afterwards (created without a token if
   * it was missing) and the reply decides: an accepted append stores the next token
   * and delivers the event; a rejection or a service error leaves the rest as is.
   */
  lemma LineStepFacts(tokens: map<string, Option<string>>, line: string, parsed: Parsed, epochMs: int, reply: ServiceReply, event: LogEvent)
    requires !AllSpace(line) && ToEvent(RStrip(line), parsed, epochMs) == Ok(event)
    ensures var s := LineStep(tokens, line, parsed, epochMs, reply);
      var name := event.stream;
      var created := if name in tokens then tokens else tokens[name := None];
      && (reply.Failure? ==> s.status == Crashed(ServiceException(reply.exception)) && s.events == [])
      && (Shadowed(tokens, name) && !reply.Failure? ==>
        s == Step(NotAcked(ClientError("ResourceNotFoundException", MissingStreamMessage, None)), tokens, []))
      && (!Shadowed(tokens, name) ==>
        && (reply.Accept? ==> s == Step(Acked, tokens[name := Some(reply.nextToken)], [event]))
        && (reply.Reject? ==> s == Step(NotAcked(Rejected(reply.info)), created, []))
        && (reply.Fault? ==> s == Step(NotAcked(ClientError(reply.code, reply.message, reply.retries)), created, []))
        && (reply.Failure? ==> s.tokens == created))
  {
    assert LineStep(tokens, line, parsed, epochMs, reply) == EventStep(tokens, event, reply);
    EventStepFacts(tokens, event, reply);
  }

  /** `LineStepFacts` for the `try` block alone, once the record has given `event`. */
  lemma EventStepFacts(tokens: map<string, Option<string>>, event: LogEvent, reply: ServiceReply)
    ensures var s := EventStep(tokens, event, reply);
      var name := event.stream;
      var created := if name in tokens then tokens else tokens[name := None];
      && (reply.Failure? ==> s.status == Crashed(ServiceException(reply.exception)) && s.events == [])
      && (Shadowed(tokens, name) && !reply.Failure? ==>
        s == Step(NotAcked(ClientError("ResourceNotFoundException", MissingStreamMessage, None)), tokens, []))
      && (!Shadowed(tokens, name) ==>
        && (reply.Accept? ==> s == Step(Acked, tokens[name := Some(reply.nextToken)], [event]))
        && (reply.Reject? ==> s == Step(NotAcked(Rejected(reply.info)), created, []))
        && (reply.Fault? ==> s == Step(NotAcked(ClientError(reply.code, reply.message, reply.retries)), created, []))
        && (reply.Failure? ==> s.tokens == created))
  {
    var name := event.stream;
    if !Shadowed(tokens, name) && name !in tokens {
      assert !AnyWithPrefix(tokens, name);
    }
    if name in tokens {
      assert AnyWithPrefix(tokens, name);
    }
  }

  /**
   * A line's status as the line and the reply alone decide it: it crashes exactly when
   * it is not blank and its record raises or the append raises a non-`ClientError`,
   * and it is acknowledged when blank and otherwise only when accepted.
   */
  predicate StatusFits(status: LineStatus, line: string, parsed: Parsed, epochMs: int, reply: ServiceReply) {
    && (status.Crashed? <==> !AllSpace(line) && (ToEvent(RStrip(line), parsed, epochMs).Err? || reply.Failure?))
    && (status.Acked? ==> AllSpace(line) || reply.Accept?)
    && (AllSpace(line) ==> status == Acked)
  }

  /**
   * Every line's status fits the line and its reply, a blank line changes nothing,
   * and a line delivers its event exactly when it is an acknowledged non-blank line.
   */
  lemma LineStepStatus(tokens: map<string, Option<string>>, line: string, parsed: Parsed, epochMs: int, reply: ServiceReply)
    ensures var s := LineStep(tokens, line, parsed, epochMs, reply);
      var derived := ToEvent(RStrip(line), parsed, epochMs);
      && StatusFits(s.status, line, parsed, epochMs, reply)
      && (AllSpace(line) ==> s == Step(Acked, tokens, []))
      && (s.status.Acked? && !AllSpace(line) ==> derived.Ok? && s.events == [derived.value])
      && (!(s.status.Acked? && !AllSpace(line)) ==> s.events == [])
  {
    var derived := ToEvent(RStrip(line), parsed, epochMs);
    if !AllSpace(line) && derived.Ok? {
      EventStepStatus(tokens, derived.value, reply);
    }
  }

  /** An append crashes exactly when the reply raises, is acknowledged only when accepted, and then delivers its event. */
  lemma EventStepStatus(tokens: map<string, Option<string>>, event: LogEvent, reply: ServiceReply)
    ensures var s := EventStep(tokens, event, reply);
      && (s.status.Crashed? <==> reply.Failure?)
      && (s.status.Acked? ==> reply.Accept?)
      && s.events == (if s.status.Acked? then [event] else [])
  {
  }

  /**
   * The `try` block of the loop: look up the token of the event's stream, append the
   * event, and report a `ClientError` on standard error.
   */
  method Deliver(store: Store, event: LogEvent, reply: ServiceReply) returns (stderr: string, status: LineStatus)
    requires store.Valid()
    modifies store
    ensures store.Valid()
    ensures var s := EventStep(old(store.tokens), event, reply);
      status == s.status && store.tokens == s.tokens && store.delivered == old(store.delivered) + s.events
    ensures stderr == ErrorOutput(status)
  {
    ghost var before := store.tokens;
    var token := store.NextSequenceToken(event.stream);
    ghost var looked := store.tokens;
    assert looked == if AnyWithPrefix(before, event.stream) then before else before[event.stream := None];
    // the token handed over is the one the specification uses whenever the stream exists
    assert event.stream in looked ==> token == looked[event.stream].GetOr("0") by {
      if event.stream in before {
        var first :| IsFirstMatch(before, event.stream, first) && token == before[first].GetOr("0");
        ExistingStreamIsFirst(before, event.stream, first);
      }
    }
    ghost var specToken := if event.stream in looked then looked[event.stream].GetOr("0") else "0";
    assert PutOutcome(looked, event.stream, token, reply) == PutOutcome(looked, event.stream, specToken, reply);
    var response := store.PutLogEvent(event, token, reply);
    match response {
      case Accepted =>
        stderr, status := "", Acked;
      case Raised(exception) =>
        stderr, status := "", Crashed(ServiceException(exception));
      case Rejected(_) =>
        stderr, status := "", NotAcked(response);
      case ClientError(code, message, retries) =>
        stderr, status := "ERROR: " + ClientErrorText(code, message, retries) + "\n", NotAcked(response);
    }
  }

  /**
   * One iteration of the stdin loop of `forwardSyslogToCloudWatch`. `parsed` is the
   * verdict of `json.loads` on the rstripped line, `epochMs` the event time the
   * timestamp code would produce, and `reply` what becomes of the append. Returns
   * what the line writes to stdout and stderr.
   */
  method ProcessLine(store: Store, line: string, parsed: Parsed, epochMs: int, reply: ServiceReply)
    returns (stdout: string, stderr: string, status: LineStatus)
    requires store.Valid()
    modifies store
    ensures store.Valid()
    ensures var s := LineStep(old(store.tokens), line, parsed, epochMs, reply);
      status == s.status && store.tokens == s.tokens && store.delivered == old(store.delivered) + s.events
    ensures stdout == (if status.Acked? then Ack else "")
    ensures stderr == ErrorOutput(status)
  {
    var jsonMessage := RStrip(line);
    if jsonMessage == [] {
      // blank line: acknowledged without touching the store
      assert AllSpace(line) by { assert line[|jsonMessage|..] == line; }
      return Ack, "", Acked;
    }
    assert !AllSpace(line) by { assert line[|jsonMessage| - 1] == jsonMessage[|jsonMessage| - 1]; }
    var derived := ToEvent(jsonMessage, parsed, epochMs);
    if derived.Err? {
      return "", "", Crashed(derived.error);
    }
    stderr, status := Deliver(store, derived.value, reply);
    stdout := if status.Acked? then Ack else "";
  }

  /** What a run of lines does: the statuses of the lines handled, the final tokens, the events delivered. */
  datatype Trace = Trace(statuses: seq<LineStatus>, tokens: map<string, Option<string>>, events: seq<LogEvent>)

  /**
   * The lines from `from` on handled one after another from `tokens`, each with its
   * own oracles; a crashing line ends the process, so no later line is handled.
   */
  function Run(tokens: map<string, Option<string>>, lines: seq<string>, parses: seq<Parsed>, stamps: seq<int>, replies: seq<ServiceReply>, from: nat): Trace
    requires |parses| == |lines| && |stamps| == |lines| && |replies| == |lines| && from <= |lines|
    decreases |lines| - from
  {
    if from == |lines| then Trace([], tokens, [])
    else
      var s := LineStep(tokens, lines[from], parses[from], stamps[from], replies[from]);
      if s.status.Crashed? then Trace([s.status], s.tokens, s.events)
      else
        var rest := Run(s.tokens, lines, parses, stamps, replies, from + 1);
        Trace([s.status] + rest.statuses, rest.tokens, s.events + rest.events)
  }

  /** The events of the acknowledged non-blank lines among those from `from` on that ended as `statuses`, in line order. */
  function AckedEvents(lines: seq<string>, parses: seq<Parsed>, stamps: seq<int>, statuses: seq<LineStatus>, from: nat): seq<LogEvent>
    requires |parses| == |lines| && |stamps| == |lines| && from + |statuses| <= |lines|
    decreases |statuses|
  {
    if statuses == [] then []
    else
      var derived := ToEvent(RStrip(lines[from]), parses[from], stamps[from]);
      (if statuses[0].Acked? && !AllSpace(lines[from]) && derived.Ok? then [derived.value] else [])
      + AckedEvents(lines, parses, stamps, statuses[1..], from + 1)
  }

  /** A run handles a prefix of the lines; only its last line may crash, and stopping early means it did. */
  lemma {:induction false} RunShape(tokens: map<string, Option<string>>, lines: seq<string>, parses: seq<Parsed>, stamps: seq<int>, replies: seq<ServiceReply>, from: nat)
    requires |parses| == |lines| && |stamps| == |lines| && |replies| == |lines| && from <= |lines|
    ensures var t := Run(tokens, lines, parses, stamps, replies, from);
      && |t.statuses| <= |lines| - from
      && (forall i :: 0 <= i < |t.statuses| - 1 ==> !t.statuses[i].Crashed?)
      && (|t.statuses| < |lines| - from ==> t.statuses != [] && t.statuses[|t.statuses| - 1].Crashed?)
    decreases |lines| - from
  {
    if from < |lines| {
      var s := LineStep(tokens, lines[from], parses[from], stamps[from], replies[from]);
      RunStep(tokens, lines, parses, stamps, replies, from, s);
      if !s.status.Crashed? {
        RunShape(s.tokens, lines, parses, stamps, replies, from + 1);
        var rest := Run(s.tokens, lines, parses, stamps, replies, from + 1);
        var all := [s.status] + rest.statuses;
        assert forall i :: 1 <= i < |all| ==> all[i] == rest.statuses[i - 1];
      }
    }
  }

  /** The status of each line `k` the run handles fits that line and its reply, as `LineStepStatus` says. */
  lemma {:induction false} RunStatuses(tokens: map<string, Option<string>>, lines: seq<string>, parses: seq<Parsed>, stamps: seq<int>, replies: seq<ServiceReply>, from: nat)
    requires |parses| == |lines| && |stamps| == |lines| && |replies| == |lines| && from <= |lines|
    ensures var t := Run(tokens, lines, parses, stamps, replies, from);
      |t.statuses| <= |lines| - from
      && forall k :: from <= k < from + |t.statuses| ==>
        StatusFits(t.statuses[k - from], lines[k], parses[k], stamps[k], replies[k])
    decreases |lines| - from
  {
    if from < |lines| {
      var s := LineStep(tokens, lines[from], parses[from], stamps[from], replies[from]);
      LineStepStatus(tokens, lines[from], parses[from], stamps[from], replies[from]);
      RunStep(tokens, lines, parses, stamps, replies, from, s);
      if !s.status.Crashed? {
        RunStatuses(s.tokens, lines, parses, stamps, replies, from + 1);
        var rest := Run(s.tokens, lines, parses, stamps, replies, from + 1);
        var all := [s.status] + rest.statuses;
        forall k | from + 1 <= k < from + |all|
          ensures StatusFits(all[k - from], lines[k], parses[k], stamps[k], replies[k])
        {
          assert all[k - from] == rest.statuses[k - (from + 1)];
        }
      }
    }
  }

  /** A run delivers exactly the events of its acknowledged non-blank lines, in order. */
  lemma {:induction false} RunEvents(tokens: map<string, Option<string>>, lines: seq<string>, parses: seq<Parsed>, stamps: seq<int>, replies: seq<ServiceReply>, from: nat)
    requires |parses| == |lines| && |stamps| == |lines| && |replies| == |lines| && from <= |lines|
    ensures var t := Run(tokens, lines, parses, stamps, replies, from);
      from + |t.statuses| <= |lines| && t.events == AckedEvents(lines, parses, stamps, t.statuses, from)
    decreases |lines| - from
  {
    if from < |lines| {
      var s := LineStep(tokens, lines[from], parses[from], stamps[from], replies[from]);
      LineStepStatus(tokens, lines[from], parses[from], stamps[from], replies[from]);
      RunStep(tokens, lines, parses, stamps, replies, from, s);
      var t := Run(tokens, lines, parses, stamps, replies, from);
      if s.status.Crashed? {
        assert t.statuses[1..] == [];
      } else {
        RunEvents(s.tokens, lines, parses, stamps, replies, from + 1);
        assert t.statuses[0] == s.status;
        assert t.statuses[1..] == Run(s.tokens, lines, parses, stamps, replies, from + 1).statuses;
      }
    }
  }

  /** A record without `timereported` ends the process on its line: nothing after it is read. */
  lemma MissingTimestampEndsRun(tokens: map<string, Option<string>>, lines: seq<string>, parses: seq<Parsed>, stamps: seq<int>, replies: seq<ServiceReply>, from: nat)
    requires |parses| == |lines| && |stamps| == |lines| && |replies| == |lines| && from < |lines|
    requires !AllSpace(lines[from])
    requires parses[from].Object? && parses[from].fields != map[] && "timereported" !in parses[from].fields
    ensures Run(tokens, lines, parses, stamps, replies, from) == Trace([Crashed(KeyError("timereported"))], tokens, [])
  {
  }

  /** The standard output of a run whose lines ended as `statuses`: one "OK" per acknowledged line. */
  function AckLines(statuses: seq<LineStatus>): string {
    if statuses == [] then ""
    else AckLines(statuses[..|statuses| - 1]) + (if statuses[|statuses| - 1].Acked? then Ack else "")
  }

  /** One more line adds its own acknowledgment, if any, after the output so far. */
  lemma AckLinesAppend(statuses: seq<LineStatus>, status: LineStatus)
    ensures AckLines(statuses + [status]) == AckLines(statuses) + (if status.Acked? then Ack else "")
  {
    assert (statuses + [status])[..|statuses|] == statuses;
  }

  /** At most one acknowledgment per line: the output holds one "OK" line per acknowledged status. */
  lemma {:induction false} AckLinesBound(statuses: seq<LineStatus>)
    ensures |AckLines(statuses)| <= |Ack| * |statuses|
    ensures forall i :: 0 <= i < |statuses| && !statuses[i].Acked? ==> |AckLines(statuses)| < |Ack| * |statuses|
  {
    if statuses != [] {
      var n := |statuses| - 1;
      AckLinesBound(statuses[..n]);
      forall i | 0 <= i < |statuses| && !statuses[i].Acked?
        ensures |AckLines(statuses)| < |Ack| * |statuses|
      {
        if i < n {
          assert statuses[..n][i] == statuses[i];
        }
      }
    }
  }

  /**
   * The run so far, `statuses` and `sent`, followed by the run of the remaining lines
   * `rest`, makes up the whole run `total`.
   */
  ghost predicate Resumes(total: Trace, statuses: seq<LineStatus>, sent: seq<LogEvent>, rest: Trace) {
    total == Trace(statuses + rest.statuses, rest.tokens, sent + rest.events)
  }

  /** Running from line `i` is handling line `i`, which gives `s`, and then, unless it crashed, running from line `i + 1`. */
  lemma RunStep(tokens: map<string, Option<string>>, lines: seq<string>, parses: seq<Parsed>, stamps: seq<int>, replies: seq<ServiceReply>, i: nat, s: Step)
    requires |parses| == |lines| && |stamps| == |lines| && |replies| == |lines| && i < |lines|
    requires s == LineStep(tokens, lines[i], parses[i], stamps[i], replies[i])
    ensures s.status.Crashed? ==> Run(tokens, lines, parses, stamps, replies, i) == Trace([s.status], s.tokens, s.events)
    ensures !s.status.Crashed? ==>
      var rest := Run(s.tokens, lines, parses, stamps, replies, i + 1);
      Run(tokens, lines, parses, stamps, replies, i) == Trace([s.status] + rest.statuses, rest.tokens, s.events + rest.events)
  {
  }

  /** Sequence concatenation is associative; stated for the delivered events so the loop below need not rediscover it. */
  lemma AppendAssociative(a: seq<LogEvent>, b: seq<LogEvent>, c: seq<LogEvent>)
    ensures a + b + c == a + (b + c)
  {
  }

  /** Handling one more line that does not crash moves its status and events from the rest of the run to the run so far. */
  lemma ResumeStep(total: Trace, statuses: seq<LineStatus>, sent: seq<LogEvent>, status: LineStatus, events: seq<LogEvent>, rest: Trace)
    requires Resumes(total, statuses, sent, Trace([status] + rest.statuses, rest.tokens, events + rest.events))
    ensures Resumes(total, statuses + [status], sent + events, rest)
  {
    assert statuses + ([status] + rest.statuses) == statuses + [status] + rest.statuses;
    assert sent + (events + rest.events) == sent + events + rest.events;
  }

  /**
   * The whole `for line in sys.stdin` loop: lines are handled in order until one
   * raises, which ends the process. The i-th line's oracles are `parses[i]`,
   * `stamps[i]` and `replies[i]`.
   */
  method Forward(store: Store, lines: seq<string>, parses: seq<Parsed>, stamps: seq<int>, replies: seq<ServiceReply>)
    returns (stdout: string, statuses: seq<LineStatus>)
    requires |parses| == |lines| && |stamps| == |lines| && |replies| == |lines|
    requires store.Valid()
    modifies store
    ensures store.Valid()
    ensures var t := Run(old(store.tokens), lines, parses, stamps, replies, 0);
      statuses == t.statuses && store.tokens == t.tokens && store.delivered == old(store.delivered) + t.events
    ensures stdout == AckLines(statuses)
  {
    stdout, statuses := "", [];
    ghost var sent: seq<LogEvent> := [];
    ghost var total := Run(store.tokens, lines, parses, stamps, replies, 0);
    ghost var rest := total;
    var i := 0;
    while i < |lines|
      invariant i == |statuses| <= |lines|
      invariant store.Valid()
      invariant stdout == AckLines(statuses)
      invariant store.delivered == old(store.delivered) + sent
      invariant rest == Run(store.tokens, lines, parses, stamps, replies, i)
      invariant Resumes(total, statuses, sent, rest)
    {
      ghost var before := store.tokens;
      var out, err, status := ProcessLine(store, lines[i], parses[i], stamps[i], replies[i]);
      ghost var step := LineStep(before, lines[i], parses[i], stamps[i], replies[i]);
      RunStep(before, lines, parses, stamps, replies, i, step);
      AckLinesAppend(statuses, status);
      if !status.Crashed? {
        ghost var next := Run(store.tokens, lines, parses, stamps, replies, i + 1);
        ResumeStep(total, statuses, sent, status, step.events, next);
        rest := next;
      }
      statuses := statuses + [status];
      stdout := stdout + out;
      AppendAssociative(old(store.delivered), sent, step.events);
      sent := sent + step.events;
      if status.Crashed? {
        return;
      }
      i := i + 1;
    }
  }
}
