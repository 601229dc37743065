/**
 * The log store the forwarder appends to, seen through the three calls it makes:
 * listing streams by name prefix, creating a stream, and appending one event with
 * the stream's upload sequence token. The store owns the tokens; the forwarder
 * re-reads them before every append (syslog/forward-to-cloudwatch.py:69-84,150-158).
 */
module CloudWatchLogs {
  import opened Types

  /** One event as the forwarder submits it: destination stream, epoch milliseconds, text. */
  datatype LogEvent = LogEvent(stream: string, timestampMs: int, message: string)

  /** The `rejectedLogEventsInfo` member of an append response. */
  datatype RejectInfo = RejectInfo(tooNewStart: Option<int>, tooOldEnd: Option<int>, expiredEnd: Option<int>)

  /**
   * What happens to a well-addressed append: the service accepts it and hands out
   * the next token, rejects the event (outside the retention or time window), or
   * answers with an error (botocore's `ClientError`: throttling, bad credentials),
   * with the number of retries when the client gave up after its last one;
   * or the call raises before any answer, with an exception that is not a
   * `ClientError` (no connection, no credentials, invalid parameters).
   */
  datatype ServiceReply =
    | Accept(nextToken: string)
    | Reject(info: RejectInfo)
    | Fault(code: string, message: string, retries: Option<nat>)
    | Failure(exception: string)

  /** The append call as the forwarder observes it. */
  datatype PutResponse =
    | Accepted
    | Rejected(info: RejectInfo)
    | ClientError(code: string, message: string, retries: Option<nat>)
    | Raised(exception: string)

  /** The service's message for an append to a stream that does not exist. */
  const MissingStreamMessage: string := "The specified log stream does not exist."
  /** The service's message for an append with a stale sequence token. */
  const BadTokenMessage: string := "The given sequenceToken is invalid."

  /** Listing order of stream names: lexicographic by code point. */
  predicate LexLe(a: string, b: string)
    decreases |a|
  {
    a == [] || (b != [] && (a[0] < b[0] || (a[0] == b[0] && LexLe(a[1..], b[1..]))))
  }

  lemma {:induction false} LexTotal(a: string, b: string)
    ensures LexLe(a, b) || LexLe(b, a)
    decreases |a|
  {
    if a != [] && b != [] && a[0] == b[0] {
      LexTotal(a[1..], b[1..]);
    }
  }

  lemma {:induction false} LexAntisymmetric(a: string, b: string)
    requires LexLe(a, b) && LexLe(b, a)
    ensures a == b
    decreases |a|
  {
    if a != [] && b != [] {
      LexAntisymmetric(a[1..], b[1..]);
      assert a == [a[0]] + a[1..] && b == [b[0]] + b[1..];
    }
  }

  lemma {:induction false} LexTransitive(a: string, b: string, c: string)
    requires LexLe(a, b) && LexLe(b, c)
    ensures LexLe(a, c)
    decreases |a|
  {
    if a != [] && b != [] && c != [] && a[0] == b[0] && b[0] == c[0] {
      LexTransitive(a[1..], b[1..], c[1..]);
    }
  }

  /** A name sorts no later than every name it is a prefix of. */
  lemma {:induction false} PrefixFirst(a: string, b: string)
    requires a <= b
    ensures LexLe(a, b)
    decreases |a|
  {
    if a != [] {
      PrefixFirst(a[1..], b[1..]);
    }
  }

  /** Some stream name in `streams` starts with `prefix`. */
  predicate AnyWithPrefix(streams: map<string, Option<string>>, prefix: string) {
    exists k :: k in streams && prefix <= k
  }

  /** `name` heads the listing of the streams that start with `prefix`. */
  predicate IsFirstMatch(streams: map<string, Option<string>>, prefix: string, name: string) {
    name in streams && prefix <= name
    && forall k :: k in streams && prefix <= k ==> LexLe(name, k)
  }

  /** `name` is not a stream, but a longer name that starts with it is. */
  predicate Shadowed(streams: map<string, Option<string>>, name: string) {
    name !in streams && AnyWithPrefix(streams, name)
  }

  /** When the requested stream exists, a prefix listing puts it first. */
  lemma ExistingStreamIsFirst(streams: map<string, Option<string>>, name: string, first: string)
    requires name in streams
    requires IsFirstMatch(streams, name, first)
    ensures first == name
  {
    PrefixFirst(name, first);
    LexAntisymmetric(name, first);
  }

  /** A stored token is checked against the one given; a stream without one takes any. */
  predicate TokenAccepted(stored: Option<string>, given: string) {
    stored.None? || stored.value == given
  }

  /** The store's verdict on an append to `stream` with `token`, given the service's reply. */
  function PutOutcome(streams: map<string, Option<string>>, stream: string, token: string, reply: ServiceReply): (r: PutResponse)
    ensures r.Accepted? <==> stream in streams && TokenAccepted(streams[stream], token) && reply.Accept?
    ensures r.Raised? <==> reply.Failure?
    ensures stream !in streams && !reply.Failure? ==> r == ClientError("ResourceNotFoundException", MissingStreamMessage, None)
    ensures r.Rejected? ==> reply == Reject(r.info)
  {
    if reply.Failure? then Raised(reply.exception)
    else if stream !in streams then ClientError("ResourceNotFoundException", MissingStreamMessage, None)
    else if !TokenAccepted(streams[stream], token) then ClientError("InvalidSequenceTokenException", BadTokenMessage, None)
    else match reply
      case Accept(_) => Accepted
      case Reject(info) => Rejected(info)
      case Fault(code, message, retries) => ClientError(code, message, retries)
  }

  class Store {
    /** Stream name to upload sequence token (`uploadSequenceToken`, absent before the first append). */
    var tokens: map<string, Option<string>>
    /** Every event the store has accepted, in order. */
    var delivered: seq<LogEvent>

    ghost predicate Valid()
      reads this
    {
      forall e :: e in delivered ==> e.stream in tokens
    }

    constructor (streams: map<string, Option<string>>)
      ensures Valid() && tokens == streams && delivered == []
    {
      tokens := streams;
      delivered := [];
    }

    /**
     * `describe_log_streams(logStreamNamePrefix=prefix)['logStreams'][0]`: the first
     * stream, in name order, whose name starts with `prefix`.
     */
    method FirstWithPrefix(prefix: string) returns (first: Option<string>)
      ensures first.None? <==> !AnyWithPrefix(tokens, prefix)
      ensures first.Some? ==> IsFirstMatch(tokens, prefix, first.value)
    {
      first := None;
      var pending := tokens.Keys;
      while pending != {}
        invariant pending <= tokens.Keys
        invariant first.None? ==> forall k :: k in tokens && k !in pending ==> !(prefix <= k)
        invariant first.Some? ==> first.value in tokens && prefix <= first.value
        invariant first.Some? ==> forall k :: k in tokens && k !in pending && prefix <= k ==> LexLe(first.value, k)
        decreases pending
      {
        var k :| k in pending;
        if prefix <= k {
          if first.None? {
            PrefixFirst(k, k);
            first := Some(k);
          } else if LexLe(k, first.value) {
            var was := first.value;
            forall k' | k' in tokens && k' !in pending && prefix <= k'
              ensures LexLe(k, k')
            {
              LexTransitive(k, was, k');
            }
            PrefixFirst(k, k);
            first := Some(k);
          } else {
            LexTotal(first.value, k);
          }
        }
        pending := pending - {k};
      }
    }

    /**
     * `CwForwarder.nextSequenceToken`: the token of the first stream whose name starts
     * with `name` ("0" when it has none); when no stream starts with `name`, that
     * stream is created and "0" returned.
     */
    method NextSequenceToken(name: string) returns (token: string)
      requires Valid()
      modifies this
      ensures Valid() && delivered == old(delivered)
      ensures !AnyWithPrefix(old(tokens), name) ==> tokens == old(tokens)[name := None] && token == "0"
      ensures AnyWithPrefix(old(tokens), name) ==>
        tokens == old(tokens)
        && exists first :: IsFirstMatch(old(tokens), name, first) && token == old(tokens)[first].GetOr("0")
    {
      var first := FirstWithPrefix(name);
      match first {
        case None =>
          tokens := tokens[name := None];
          token := "0";
        case Some(f) =>
          token := tokens[f].GetOr("0");
      }
    }

    /** `put_log_events` with a single event and the given sequence token. */
    method PutLogEvent(event: LogEvent, token: string, reply: ServiceReply) returns (response: PutResponse)
      requires Valid()
      modifies this
      ensures Valid()
      ensures response == PutOutcome(old(tokens), event.stream, token, reply)
      ensures response.Accepted? ==>
        tokens == old(tokens)[event.stream := Some(reply.nextToken)] && delivered == old(delivered) + [event]
      ensures !response.Accepted? ==> tokens == old(tokens) && delivered == old(delivered)
    {
      response := PutOutcome(tokens, event.stream, token, reply);
      if response.Accepted? {
        tokens := tokens[event.stream := Some(reply.nextToken)];
        delivered := delivered + [event];
      }
    }
  }
}
