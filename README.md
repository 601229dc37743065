# AWS operations scripts — a Dafny model

This project models the logic of five scripts from an AWS operations repository.

- **The rsyslog-to-CloudWatch forwarder** (`syslog/forward-to-cloudwatch.py`). rsyslog feeds it one JSON record per line on standard input. For each line it:
  - derives a destination log stream and a message;
  - looks up the stream's upload sequence token, creating the stream when no stream name starts with it;
  - appends the event;
  - writes `OK` to standard output only when the line is blank or the append is accepted, so that rsyslog re-sends everything else.

  The store of log streams is a class, `CloudWatchLogs.Store`. It holds stream tokens and delivered events. The per-line step and the stdin loop are methods that update it.
- **The file-retriever dispatch** (`file_importer.py`). An address is split into a scheme and a path by a regular expression. It is then handed to the first retriever class whose scheme list holds the lower-cased scheme. An address without a scheme is a local file. An unknown scheme raises. The S3 bucket/key split and the HTTP URL are modelled too.
- **The CloudFormation parameter builder** (`historical/create-cfn-params.py`). It reads `key<TAB>value<TAB>-` lines into an insertion-ordered dictionary. The first line that does not parse ends the run with `could not parse "<line>"` and exit status 1.
- **The IAM naming aspect of the SFTP stack** (`sftp/sftp_stack.py`). For CloudFormation IAM resources it adds property overrides that:
  - prefix and truncate Role, Policy, ManagedPolicy and InstanceProfile names;
  - set the role `Path`.

  The IAM role path taken from the deployment context is normalised to end in `/`.
- **The NUL-stripping helper and the record format** of `read_data.py`.

Python semantics are written out where they matter:

- `str.strip`/`rstrip` use the full `str.isspace` set.
- In `re`, `$` also matches before one final newline, and `.` does not match a newline.
- Greedy groups are characterised as the longest match.
- `s[:n]` truncation is explicit.
- Dictionary assignment keeps the first insertion position.

## Model

| member | source | states |
|---|---|---|
| SyslogRecord.Trim | syslog/forward-to-cloudwatch.py:89-135 | A returned group is one the expression `^\s*(\S.*\S)\s*$` can match with. When nothing is returned, the expression matches no placement at all. |
| SyslogRecord.TrimGroupIsStripped | syslog/forward-to-cloudwatch.py:89-135 | Any match has its group exactly at the stripped line. That stripped line then has at least two characters and no newline. |
| SyslogRecord.ExtractMessage | syslog/forward-to-cloudwatch.py:130-143 | The message is never empty. It is the trimmed raw message when the trim matches. Otherwise it is "blank message" followed by `, fromhost=…` and `, fromhost-ip=…` for the members present. |
| SyslogRecord.Route | syslog/forward-to-cloudwatch.py:109-112 | A record with a `fromhost` member goes to the stream it names. Any other parse goes to "default". |
| SyslogRecord.ToEvent | syslog/forward-to-cloudwatch.py:101-148 | A falsy parse sends the rstripped line itself to "default" at the given time. A truthy non-object raises TypeError. An object without `timereported` raises KeyError("timereported"). An object with it but without `rawmsg` raises KeyError("rawmsg"). These are exactly the failures. Any other record gives an event on `Route`'s stream, at the given time, with `ExtractMessage`'s message. |
| CloudWatchLogs.PutOutcome | syslog/forward-to-cloudwatch.py:153-158 | An append is accepted iff the stream exists, its stored token is absent or equal to the one given, and the service accepts. An exception other than a `ClientError` comes back exactly when the service raises one. Otherwise a missing stream gives the `ResourceNotFoundException` client error. A rejection carries the service's own rejection info. |
| CloudWatchLogs.Store.FirstWithPrefix | syslog/forward-to-cloudwatch.py:71-83 | Finds the least stream name, in listing order, that starts with the prefix. Returns None iff no name does. |
| CloudWatchLogs.Store.NextSequenceToken | syslog/forward-to-cloudwatch.py:69-84 | With no stream under the prefix, creates the stream and returns "0". Otherwise the store is unchanged and the result is the first match's token, or "0" when it has none. |
| CloudWatchLogs.ExistingStreamIsFirst | syslog/forward-to-cloudwatch.py:71-84 | For a stream that exists, the first prefix match is that stream itself, so its own token is used. |
| CloudWatchLogs.Store.PutLogEvent | syslog/forward-to-cloudwatch.py:154-158 | The response is `PutOutcome` on the old store. Only an accepted append stores the new token and appends the event. |
| Forwarder.LineStepFacts | syslog/forward-to-cloudwatch.py:101-187 | For a non-blank line whose record gives an event: an exception the service raises crashes the line and delivers nothing. A shadowed stream (missing while other stream names start with its name) is neither created nor appended to, and the line ends with the `ResourceNotFoundException` client error. Otherwise an accepted append stores the next token and delivers the event. A rejection or a service error leaves the stream created (without a token if it was missing) and delivers nothing. |
| Forwarder.LineStepStatus | syslog/forward-to-cloudwatch.py:94-187 | A line crashes iff it is not blank and its record raises or the append raises a non-`ClientError`. It is acknowledged only when blank or accepted. A blank line is acknowledged and changes nothing. A line delivers its own event iff it is an acknowledged non-blank line, and nothing otherwise. |
| Forwarder.EventStepStatus | syslog/forward-to-cloudwatch.py:150-187 | An append crashes iff the service raises, is acknowledged only when accepted, and delivers its event iff acknowledged. |
| Forwarder.Deliver | syslog/forward-to-cloudwatch.py:150-187 | The token lookup and the append move the store exactly as `EventStep` says. Standard error receives `ERROR: ` and botocore's `ClientError` text for a client error, with the retry note when the client gave up retrying, and nothing otherwise. |
| Forwarder.ProcessLine | syslog/forward-to-cloudwatch.py:91-187 | The line's status, the new stream tokens and the appended events are those of `LineStep`. "OK" is written iff the line is acknowledged. A client error writes `ERROR: An error occurred (<code>) when calling the PutLogEvents operation: <message>` to standard error, with ` (reached max retries: <n>)` before the colon when the client gave up after `n` retries. No other status writes anything there. |
| Forwarder.Forward | syslog/forward-to-cloudwatch.py:91-187 | The statuses, the final stream tokens and the newly delivered events are exactly those of `Run` over all lines from the old tokens. Standard output is one "OK" per acknowledged status, in line order. |
| Forwarder.RunShape | syslog/forward-to-cloudwatch.py:91-187 | A run handles a prefix of the lines. Only its last handled line may crash, and a run that stops early ended on a crash. |
| Forwarder.RunStatuses | syslog/forward-to-cloudwatch.py:91-187 | The status of every handled line fits that line and its reply as `LineStepStatus` states. |
| Forwarder.RunEvents | syslog/forward-to-cloudwatch.py:91-187 | A run delivers exactly the events of its acknowledged non-blank lines, in line order. |
| Forwarder.MissingTimestampEndsRun | syslog/forward-to-cloudwatch.py:110-114 | A non-blank line whose record is a non-empty object without `timereported` crashes with KeyError("timereported"). Nothing is delivered and no later line is read. |
| Forwarder.DecimalValue | syslog/forward-to-cloudwatch.py:187 | The retry count in the error text is written as decimal digits that read back as that count. |
| Forwarder.AckLinesBound | syslog/forward-to-cloudwatch.py:98-177 | Standard output has at most one "OK" per line, and fewer when any line is not acknowledged. |
| InstanceMetadata.Squeeze | syslog/forward-to-cloudwatch.py:49 | Collapsing slash runs leaves no double slash. It keeps every other character in order and the first character. A text that is already clean is unchanged. |
| InstanceMetadata.SqueezeCollapses | syslog/forward-to-cloudwatch.py:49 | A double slash anywhere squeezes to the same text as a single one. |
| InstanceMetadata.UrlForApi | syslog/forward-to-cloudwatch.py:45-52 | The URL is "http://" plus a path with no double slash and no leading slash. The path keeps the non-slash characters of the root joined to the API name. |
| InstanceMetadata.UrlForAnyApi | syslog/forward-to-cloudwatch.py:45-52 | For every API name, the URL is "http://" followed by the root and the name with every slash run collapsed to one slash. |
| InstanceMetadata.UrlForApiExtraSlash | syslog/forward-to-cloudwatch.py:45-52 | A doubled slash inside the API name does not change the URL. |
| InstanceMetadata.UrlForSlashedApi | syslog/forward-to-cloudwatch.py:45-52 | A leading slash on the API name does not change the URL. |
| InstanceMetadata.UrlForCleanApi | syslog/forward-to-cloudwatch.py:45-52 | An API name without double slashes and without a leading slash gives exactly "http://", the root and the name. |
| InstanceMetadata.RegionOfAz | syslog/forward-to-cloudwatch.py:219-220 | A match gives a region (non-space, ending in `-digit`) followed by one lower-case letter and at most a final newline. |
| InstanceMetadata.RegionOfAzComplete | syslog/forward-to-cloudwatch.py:219-220 | Every zone name (region plus letter, with or without a final newline) gives back its region. |
| PyText.Strip | historical/create-cfn-params.py:21 | The result has no whitespace at either end. It sits in the text between two all-whitespace runs. |
| PyText.JoinSplit | file_importer.py:69-71 | Joining the parts of a split with the same separator rebuilds the text. |
| FileImporter.SchemeAndPath | file_importer.py:33-38 | The scheme is always valid and lower-case. An address that does not match is the path of scheme "file". A match gives a one-line path that follows some valid scheme with the same lower-cased form and "://", with at most a final newline after it. |
| FileImporter.MatchAddress | file_importer.py:31 | A match splits the address into a valid scheme, "://" and a one-line path, with at most a final newline. |
| FileImporter.MatchAddressComplete | file_importer.py:31-38 | Every `scheme://path` with a valid scheme and one-line path matches, with and without a final newline, giving those groups back. |
| FileImporter.HandlerFor | file_importer.py:41 | The chosen class is listed and handles the scheme. None means no listed class handles it. |
| FileImporter.RetrieverFor | file_importer.py:27-47 | A retriever always handles its own scheme and carries the parsed scheme and path. The error case means no subclass handles the scheme. |
| FileImporter.DispatchTable | file_importer.py:41-44 | "file" goes to LocalFile, "s3" to AwsS3File, and "http"/"https" to HttpFile. Every other scheme has no handler. |
| FileImporter.PlainAddressIsLocal | file_importer.py:33-35 | An address without `scheme://` is a local file named by the whole address. |
| FileImporter.SchemedAddress | file_importer.py:36-47 | `scheme://path` goes to the class for the lower-cased scheme with the path untouched. An unknown scheme fails. |
| FileImporter.SchemeCaseInsensitive | file_importer.py:37 | Scheme case never changes the outcome or the retriever. |
| FileImporter.S3Location | file_importer.py:69-71 | The bucket has no slash. Bucket, "/" and key rebuild the path when it has a slash. Otherwise the bucket is the whole path and the key is empty. |
| FileImporter.HttpUrlRebuildsAddress | file_importer.py:95 | The URL an HTTP retriever requests is its address with the scheme lower-cased. |
| CfnParams.ParseLine | historical/create-cfn-params.py:18-22 | A match has a non-empty whitespace-free key, a tab, a one-line value and "\t-". The key is unique. The value is the longest possible, reaching the last "\t-". None means no split matches. |
| CfnParams.Assign | historical/create-cfn-params.py:27 | An existing key keeps its place and takes the new value. A new key goes last. Distinct keys stay distinct. |
| CfnParams.ParseAll | historical/create-cfn-params.py:20-25 | A success has one pair per line and every key non-empty and free of whitespace. |
| CfnParams.ParseAllLines | historical/create-cfn-params.py:20-25 | A success holds, at each position, the pair that line's stripped text parses as. |
| CfnParams.ParseAllPrefix | historical/create-cfn-params.py:20-25 | Conversely, pairs that match the first `n` lines one by one are exactly the success for those lines. |
| CfnParams.ParseAllFirstFailure | historical/create-cfn-params.py:20-25 | A failure reports the stripped text of the first line that does not parse. Every earlier line parses. |
| CfnParams.ParseAllFailsEarly | historical/create-cfn-params.py:23-25 | A failing line ends the run regardless of what follows it. |
| CfnParams.BuildKeyOrder | historical/create-cfn-params.py:27-31 | The output lists each key once, in order of first appearance. |
| CfnParams.BuildLastValueWins | historical/create-cfn-params.py:27-31 | Each output key carries the value of its last line. |
| CfnParams.BuildGoodKeys | historical/create-cfn-params.py:27-31 | Output keys are non-empty and free of whitespace. |
| CfnParams.CreateParams | historical/create-cfn-params.py:16-33 | The loop yields the table built from all lines, or `could not parse "<first failing line>"`. A table has distinct, well-formed keys. |
| IamNaming.ResourceIdTranslates | sftp/sftp_stack.py:92-94 | The resource id is the path with ':' deleted and '/' turned into '-'. It holds neither character. |
| IamNaming.TypeTests | sftp/sftp_stack.py:55-84 | Each of the four listed types passes exactly its own substring test. |
| IamNaming.Overrides | sftp/sftp_stack.py:45-90 | Non-CloudFormation constructs and other resource types get no override. A visit adds at most two overrides. The only exception it raises is AttributeError. |
| IamNaming.Visit | sftp/sftp_stack.py:45-90 | Appends exactly the overrides `Overrides` lists, in call order. On an AttributeError it appends nothing. |
| IamNaming.OtherResourcesUntouched | sftp/sftp_stack.py:46-50 | Non-CloudFormation constructs and other resource types get no override. |
| IamNaming.RoleNaming | sftp/sftp_stack.py:58-70 | Sets RoleName to the prefixed id cut to 64 characters, iff the prefix is set and the current name (the address when reading it raises) lacks it. An unset name raises. |
| IamNaming.PolicyNaming | sftp/sftp_stack.py:72-83 | Sets the policy name to the prefixed id cut to 128 characters iff the name lacks the prefix, so never with an empty prefix. A non-string name raises. |
| IamNaming.InstanceProfileNaming | sftp/sftp_stack.py:84-88 | Always sets InstanceProfileName to the prefixed id cut to 128 characters. |
| IamNaming.PathSetting | sftp/sftp_stack.py:55-90 | Roles and instance profiles get a final `Path` override iff the role path is non-empty. Policies never do. |
| IamNaming.NamesFit | sftp/sftp_stack.py:66-88 | Every name set is a prefix of a configured prefix plus the id. No name is longer than 128 characters, and a RoleName is at most 64. |
| IamNaming.OverridesShape | sftp/sftp_stack.py:52-90 | Every override added is the role path, or one of the four names: its prefix plus the resource id, cut to 64 characters for a role and 128 otherwise. |
| IamNaming.NormaliseRolePath | sftp/sftp_stack.py:139-141 | The path ends in "/". It defaults to "/" when the context is absent or empty. A value already ending in "/" is kept. |
| IamNaming.NormaliseTwice | sftp/sftp_stack.py:139-141 | Normalising a normalised path changes nothing. |
| ReadData.LastNonNul | read_data.py:9 | Finds the last non-NUL index in 1..hi, or -1, with only NULs after it. |
| ReadData.B2s | read_data.py:7-10 | The result is a prefix of the text. It ends at the last non-NUL character past index 0, with only NULs after it. It is empty when every character past index 0 is NUL. |
| ReadData.B2sIdempotent | read_data.py:7-10 | Cutting twice is cutting once. |
| ReadData.FormatStringFieldAt | read_data.py:20 | Each field's code sits in the format right after "=" and the codes of the fields before it. |
| ReadData.FormatStringAppend | read_data.py:20 | A further field appends its code. |
| ReadData.DataFormat | read_data.py:12-20 | For the data fields the format is "=8sIlfd". |
| ReadData.DataRecordSize | read_data.py:12-28 | One record of that format is the 28 bytes the script reads. |

## Left out

- JSON decoding is not modelled. Each line comes with its parse verdict: not JSON, an object with string members, or another value with its truth value.
- Non-string member values of a JSON object are not modelled.
- The event timestamp is an input. `datetime.fromisoformat`, the wall clock and the float millisecond conversion are floating point and depend on the local time zone.
- The diagnostics `Logger` and its file are not modelled. They only record text.
- The HTTP request to the instance metadata service is not modelled. The region lookup starts from the zone text it returns.
- boto3 client construction and credentials are not modelled.
- Errors raised by `describe_log_streams` and `create_log_stream` are not modelled. Only `put_log_events` raises a client error in the model.
- The service's own error texts are fixed strings that stand for its wording: "The specified log stream does not exist." and "The given sequenceToken is invalid.".
- Forwarder.ErrorOutput: a line that crashes ends the process. Python then prints a traceback to standard error. The model writes nothing there for it.
- Forwarder.Forward: output buffering is not modelled. The script writes "OK" without flushing standard output, so an acknowledgment may wait in Python's buffer. The model's standard output is the text written, in order.
- CloudWatchLogs.Store.FirstWithPrefix: the service's pagination of `describe_log_streams` is not modelled. The whole stream table is taken as one page.
- FileImporter.MatchAddress: `\w` is modelled as ASCII letters, digits and `_`, and `lower()` as ASCII lower-casing. Python also counts non-ASCII letters and digits as `\w`.
- InstanceMetadata.RegionOfAz: `\d` is modelled as ASCII digits only.
- The `retrieveContent` methods are not modelled, apart from the S3 bucket/key split and the HTTP URL. They are file, S3 and HTTP I/O.
- `FileRetriever.__str__` is not modelled. It is debugging text.
- The JSON text printed by the parameter builder is not modelled. The model returns the ordered table it prints.
- The rest of `SftpStack` is not modelled: CDK construct declarations, context lookups other than the role path, and permissions boundaries. These are calls into a library outside this model.
- IamNaming.Visit: the CDK node is represented by what `visit` reads from it. A name attribute is a string, unset (`None`), or raises on access.
- The `struct` unpacking, the `namedtuple` and the file read of `read_data.py` are not modelled.
- ReadData.B2s: UTF-8 decoding is not modelled. `B2s` starts from the decoded text.
