# A Dafny model of the watchman Go client

This project models the core of a Go client for the watchman file-watching
daemon and proves properties of that model. It covers four parts:

- **The query compiler** (`protocol/query`). Expression terms, file fields,
  generators and the query descriptor, each with the positional JSON it
  marshals to. The Go marshallers build their result step by step, so they
  are methods with loops, proved against the functions `TermJson` and
  `QueryObject`. The field list has no marshaller of its own: `FieldsJson`
  is the plain function encoding/json computes for the slice. One marshaller, `GPathPath.MarshalJSON`,
  writes JSON text by hand. It is modelled as text, along with a JSON reader
  (`JsonText`, after RFC 8259) that decides what that text denotes.
- **The protocol data units** (`protocol/subscribe.go`, `change.go`). This
  covers the subscribe request's argument list and the decoders that turn a
  decoded JSON object into a subscribe response or a subscription
  notification. Each decoder copies a field only when its key is present
  with the expected JSON type, and otherwise leaves Go's zero value. The
  change notification copies the subscription's fields and drops the root.
  The Go accessor methods (`Clock`, `Files`, `IsFreshInstance`, `Root`,
  `Subscription`) are the datatypes' own field selectors.
- **The connection** (`connection.go`). This is the class `Connection`
  with mutable fields:
  - the unread input of its buffered reader;
  - the bytes written to its socket;
  - its capability set and the daemon's version.

  It models:
  - the `list-capabilities` handshake;
  - the line-framed request/response exchange;
  - the classification of an inbound line by `Recv` (daemon error,
    unilateral notification, or ordinary reply);
  - the two-write `Send`.

  encoding/json is a parameter of the connection (`Codec`).
- **The watch facade** (`watch.go`). This covers the clock request and its
  millisecond timeout, which rounds toward zero as Go's integer division
  does. It also covers `Subscribe`, which writes the watch's relative path
  into the caller's query in place before sending. The client's send, the
  clock reading of `protocol.NewClockResponse` and `path.Join` are
  parameters.

Modules, by file:

| file | module | what it holds |
|---|---|---|
| json.dfy | `Json` | JSON values, Go slices (nil or items), the typed PDU accessors |
| json_text.dfy | `JsonText` | a JSON text reader, `strconv.Itoa` |
| query_expression.dfy | `Expression`, `ExpressionLayout` | terms, their marshallers, per-term layout lemmas |
| query_fields.dfy | `Fields` | the file fields |
| query_generator.dfy | `Generator` | generator names, `GPathPath` as written and corrected |
| query.dfy | `Query` | the query descriptor and its marshaller |
| subscribe.dfy | `Subscribe` | subscribe request, response, notification |
| change.dfy | `Change` | the change notification |
| connection.dfy | `Connection` | framing, command, handshake, Recv, Send |
| watch.dfy | `Watch` | Clock and Subscribe |

## Model

| member | source | states |
|---|---|---|
| Json.StringsJson | protocol/query/expression.go:202-215 | a nil string list marshals as null and any other as the list of its strings, in order |
| Json.StringsJsonInjective | protocol/query/expression.go:202-215 | the marshalled list determines the list, keeping nil and empty apart |
| Json.StringAt | protocol/subscribe.go:73-77 | the value under a key if it is present and a string, otherwise "" |
| Json.BoolAt | protocol/subscribe.go:122-126 | true exactly when the key holds the boolean true |
| Json.ListAt | protocol/subscribe.go:117-121 | a list exactly when the key holds a JSON array (null is not one), with that array's elements |
| JsonText.Itoa | protocol/query/generator.go:34 | strconv.Itoa's text is non-empty and made of digits and a minus sign |
| JsonText.ParseItoa | protocol/query/generator.go:34 | read back as a JSON number, Itoa's text gives the same integer |
| JsonText.ParsePlain | protocol/query/generator.go:31 | text without quotes, backslashes or control characters, put between quotes, reads back as itself |
| JsonText.ReadBackMeansPlain | protocol/query/generator.go:31 | the converse: an unescaped body reads back as itself only if it is plain |
| Expression.OpString | protocol/query/expression.go:42-53 | a named operator gives its map entry; any other value gives "" |
| Expression.OpStringInjective | protocol/query/expression.go:42-49 | the six named operators marshal to six different strings |
| Expression.MatchTypeString | protocol/query/expression.go:113-129 | basename and wholename give their names, both directions; any other value gives "" |
| Expression.FlagsObject | protocol/query/expression.go:131-162 | holds true exactly under the names of the set flag bits, and nothing else |
| Expression.NamesJson | protocol/query/expression.go:202-215 | exactly one name marshals as that bare string; any other count as the whole list |
| Expression.TermJson | protocol/query/expression.go:10-348 | every term marshals to a string or an array; the suffix case is the corrected one of the Findings table |
| ExpressionLayout.TermJsonShape | protocol/query/expression.go:10-348 | the literals are bare strings equal to their tag; every other term is an array headed by its tag; only allof and anyof have more than four slots |
| Expression.MarshalTerm | protocol/query/expression.go:10-348 | each term's step-by-step marshaller yields exactly TermJson, with the corrected suffix marshaller |
| Expression.MarshalChildren | protocol/query/expression.go:10-28 | the loop over the children of allof and anyof yields the tag and then each child's form, in order |
| Expression.MarshalDirname | protocol/query/expression.go:62-83 | the dirname/idirname builder yields its layout |
| Expression.MarshalMatch | protocol/query/expression.go:145-194 | the match/imatch builder, flags map included, yields its layout |
| Expression.MarshalName | protocol/query/expression.go:202-236 | the name/iname builder yields its layout |
| Expression.MarshalPcre | protocol/query/expression.go:252-272 | the pcre/ipcre builder yields its layout |
| ExpressionLayout.ChildrenLayout | protocol/query/expression.go:10-28 | allof and anyof: the tag, then one slot per child holding the child's marshalled form, in order |
| ExpressionLayout.NamesJsonInjective | protocol/query/expression.go:202-320 | the arity collapse loses nothing: the second slot determines the name list |
| ExpressionLayout.NameLayout | protocol/query/expression.go:202-236 | name and iname: the match type is a third slot exactly when it is not basename; the second slot is a bare string exactly for one name |
| ExpressionLayout.SuffixLayout | protocol/query/expression.go:312-320 | corrected suffix: two slots, the second a bare string exactly for one suffix and otherwise the list of suffixes (null for nil) |
| Expression.SuffixAsWritten | protocol/query/expression.go:312-320 | as written: a suffix with exactly one element gives the tag and that bare string; with any other count (nil and empty included) there is no value, however deep the stack |
| Expression.TermJsonAsWritten | protocol/query/expression.go:10-348 | as written: the allof/anyof/not layout when every child marshals, no value otherwise; any value it gives is the corrected TermJson |
| Expression.ChildrenAsWritten | protocol/query/expression.go:10-28 | as written: when every child marshals, one value per child, in order, each its TermJson |
| ExpressionLayout.TermAsWrittenIffSafe | protocol/query/expression.go:10-348 | as written, a term marshals iff every suffix term in it has exactly one suffix, and then it agrees with TermJson |
| ExpressionLayout.AllofAsWrittenIffSafe | protocol/query/expression.go:10-17 | as written, allof marshals iff every child does, and then agrees with TermJson |
| ExpressionLayout.AnyofAsWrittenIffSafe | protocol/query/expression.go:22-28 | as written, anyof marshals iff every child does, and then agrees with TermJson |
| ExpressionLayout.ChildrenAsWrittenIffSafe | protocol/query/expression.go:10-28 | as written, the children marshal iff each one does, then one value per child equal to its TermJson |
| ExpressionLayout.TwoSuffixesNeverMarshal | protocol/query/expression.go:312-320 | `TSuffix{"a", "b"}` yields nothing as written, and the list of both suffixes when corrected |
| ExpressionLayout.PcreLayout | protocol/query/expression.go:252-272 | pcre and ipcre: two slots exactly when the match type is basename |
| ExpressionLayout.MatchLayout | protocol/query/expression.go:145-194 | match/imatch: the match-type slot exists iff the type is not basename or a flag is set; the flags object exists iff flags are non-zero and names exactly the set bits |
| ExpressionLayout.FlagConstants | protocol/query/expression.go:131-136 | the two flag constants are bits 0 and 1, and together give both flag names |
| ExpressionLayout.DirnameIgnoresOp | protocol/query/expression.go:62-83 | the operator is never marshalled, so terms differing only in it agree unless the le condition differs |
| ExpressionLayout.DirnameLayout | protocol/query/expression.go:62-83 | the depth is a third slot iff the operator is not le and the depth is non-zero |
| ExpressionLayout.SizeLayout | protocol/query/expression.go:305-307 | size always has three slots; an unnamed operator gives "" |
| ExpressionLayout.SinceLayout | protocol/query/expression.go:290-297 | the timestamp passes through as is; the source is a third slot iff it is not oclock |
| ExpressionLayout.LiteralLayout | protocol/query/expression.go:86-330 | empty, exists, false and true marshal as bare strings (true at lines 323-330) |
| ExpressionLayout.NotLayout | protocol/query/expression.go:238-245 | not is a two-slot array holding its child's marshalled form |
| ExpressionLayout.TypeLayout | protocol/query/expression.go:332-348 | type is a two-slot array holding its string, named or not |
| ExpressionLayout.ExampleAllof | protocol/query/query_test.go:27-47 | the test's allof expression marshals as the test expects |
| ExpressionLayout.ExampleName | protocol/query/query_test.go:22-23 | one name marshals bare and two names as a list |
| Fields.WireInjective | protocol/query/fields.go:7-34 | distinct fields have distinct wire strings |
| Fields.FieldsJson | protocol/query/query.go:34-36 | nil fields marshal as null, otherwise as the wire strings in order |
| Fields.FieldsJsonInjective | protocol/query/query.go:34-36 | the marshalled field list determines the field list |
| Query.ApplyAllKeys | protocol/query/query.go:24-56 | after a sequence of conditional inserts the map holds its old keys plus exactly the keys of the inserts that happen |
| Query.ApplyAllKeeps | protocol/query/query.go:24-56 | a key no insert writes keeps its old value |
| Query.ApplyAllLastWrite | protocol/query/query.go:24-56 | a key's value is that of the last insert that writes it |
| Query.QueryObject | protocol/query/query.go:23-59 | the object's keys are exactly the generator names plus the keys of the options away from their default |
| Query.QueryObjectInOrder | protocol/query/query.go:23-59 | the object is the generator map with the seven conditional inserts made over it in the code's order |
| Query.OptionKeysExactly | protocol/query/query.go:30-56 | each of the seven option keys is written exactly when its option is away from its default, and no other key is |
| Query.OptionWritesDistinct | protocol/query/query.go:30-56 | the seven inserts use seven different keys, so none overwrites another |
| Query.Insert | protocol/query/query.go:30-56 | one `if cond { res[key] = value }`: the key is set when the condition holds, and the map is unchanged otherwise |
| Query.MarshalQuery | protocol/query/query.go:23-59 | the Go construction (copy loop, then seven conditional inserts) yields QueryObject |
| Query.CopyGenerators | protocol/query/query.go:26-28 | the range loop copies every generator entry, in whatever order it visits them |
| Query.OptionValues | protocol/query/query.go:30-56 | each present option key holds the option's value; dedup_results is true and case_sensitive is false |
| Query.GeneratorEntries | protocol/query/query.go:26-28 | a generator's entry is its argument unless an option overwrites that key |
| Query.DefaultsElided | protocol/query/query.go:30-56 | an option key is present exactly when a generator uses it or the option is away from its default |
| Query.ZeroQueryIsEmpty | protocol/query/query.go:23-59 | the zero query marshals to the empty object |
| Query.ExampleSyncTimeout | protocol/query/query_test.go:16-19 | the test's first query gives {"sync_timeout": 1000} |
| Query.ExampleSuffixAllofFields | protocol/query/query_test.go:26-48 | the test's third query gives the expected object |
| Query.ExampleFieldsOnly | protocol/query/query_test.go:50-53 | the test's fourth query gives the five wire names in order |
| Query.ExampleExistsFieldsTimeout | protocol/query/query_test.go:55-66 | the test's fifth query gives the expected object |
| Fields.ExampleFieldLists | protocol/query/query_test.go:46-63 | the test queries' field lists marshal as their wire names |
| Generator.GeneratorNamesDistinct | protocol/query/generator.go:10-19 | the four generator names are distinct keys (the since generator's is "string") |
| Generator.PathTextDenotes | protocol/query/generator.go:29-35 | the as-written text denotes the intended path value exactly when the path is plain text |
| Generator.PathText | protocol/query/generator.go:29-35 | the path appears verbatim between two quotes, alone for depth -1, otherwise followed by the comma, the depth and the bracket of a pair |
| Generator.QuoteInPathBreaksText | protocol/query/generator.go:31 | at depth -1, a plain text, a quote, then a text that does not start with blank space gives text that is not JSON |
| Generator.BackslashInPathChangesIt | protocol/query/generator.go:34 | in the pair form, a plain text, backslash-t, then a plain text is read back with a tab in place of backslash-t, so the daemon gets a different path |
| Generator.Escape | protocol/query/generator.go:29-35 | escaping leaves plain text unchanged |
| Generator.ParseEscaped | protocol/query/generator.go:29-35 | an escaped string between quotes reads back as the original string |
| Generator.EscapedPathText | protocol/query/generator.go:29-35 | the corrected text equals the as-written one for plain paths |
| Generator.EscapedPathTextDenotes | protocol/query/generator.go:29-35 | the corrected text denotes the intended value for every path |
| Subscribe.ArgsJson | protocol/subscribe.go:47-59 | three slots (command, root, name) without a query, four with one, the fourth being the marshalled query |
| Subscribe.Args | protocol/subscribe.go:47-59 | the Go construction yields ArgsJson |
| Subscribe.ArgsDetermineRequest | protocol/subscribe.go:47-59 | the argument list determines the root, the name and whether a query was sent |
| Subscribe.ExampleArgs | protocol/subscribe.go:6 | the sample request, with its query of the fields exists, name and type, gives the four sample arguments; without a query there are three |
| Subscribe.SubscribeResponseOf | protocol/subscribe.go:69-94 | the clock comes from "clock" and the name from "subscribe", each only if present as a string, otherwise "" |
| Subscribe.NewSubscribeResponse | protocol/subscribe.go:69-84 | the step-by-step decoder yields SubscribeResponseOf |
| Subscribe.SubscribeResponseReadsOnly | protocol/subscribe.go:69-84 | the response depends on "clock" and "subscribe" only |
| Subscribe.SubscriptionKeyIgnoredInResponse | protocol/subscribe.go:78-82 | a name under "subscription" is not read by the response decoder |
| Subscribe.ExampleSubscribeResponse | protocol/subscribe.go:7 | the sample response decodes to its clock and name |
| Subscribe.SubscriptionOf | protocol/subscribe.go:98-165 | each field comes from its key if the value has the right type, otherwise the zero value |
| Subscribe.NewSubscription | protocol/subscribe.go:108-138 | the five conditional assignments, in Go's order, yield SubscriptionOf |
| Subscribe.SubscriptionReadsOnly | protocol/subscribe.go:108-138 | the notification depends on its five keys only |
| Subscribe.OtherKeysIgnored | protocol/subscribe.go:8-138 | removing other keys such as unilateral, since, canceled or version changes nothing |
| Subscribe.MissingFreshnessIsNotFresh | protocol/subscribe.go:122-126 | a missing or non-boolean is_fresh_instance reads as not fresh |
| Subscribe.DecodeSubscriptionPdu | protocol/subscribe.go:108-138 | a notification's own PDU decodes back to it |
| Subscribe.MistypedFieldsLeaveZero | protocol/subscribe.go:112-121 | a numeric clock and a null file list give the zero values |
| Subscribe.ExampleSubscription | protocol/subscribe.go:8-22 | the first sample notification decodes to its fields |
| Change.NewChangeNotification | change.go:15-25 | the freshness, clock, subscription name and files are copied verbatim |
| Change.OnlyRootDropped | change.go:8-25 | a subscription is its notification plus its root, and every notification comes from a subscription |
| Change.RootIgnored | change.go:15-25 | subscriptions differing only in root give the same notification |
| Change.NotificationOfPdu | change.go:15-25 | composed with the decoder: missing keys give zero values, the file list is the PDU's own |
| Connection.NewlineIndex | connection.go:86 | the index of the first newline, or the length when there is none |
| Connection.SplitLine | connection.go:86 | a line exists iff the buffer holds a newline; the line ends at the first newline and line plus rest is the buffer |
| Connection.FramedLineReadsBack | connection.go:81-86 | a newline-free message framed by a newline is read back as one line |
| Connection.ReadAllFrames | connection.go:81-86 | newline-free messages written in sequence are read back one by one, in order |
| Connection.CommandOutcomeOf | connection.go:75-93 | marshal, write with a newline, read one line and decode it; each failing step ends the exchange with its own error and writes nothing after the marshal failure |
| Connection.CapabilitySet | connection.go:105-111 | defined iff every listed element is a string; then its members are exactly the listed names |
| Connection.CapabilitySetIgnoresOrderAndDuplicates | connection.go:105-111 | the set depends only on which names are listed |
| Connection.InitUpdate | connection.go:101-111 | the version is taken when it is a string; a list replaces the capability set unless an element is not a string; otherwise nothing changes |
| Connection.NoCapabilityList | connection.go:105-111 | without a capability list a fresh connection reports no capability |
| Connection.ExampleHandshake | connection_test.go:33 | the test's handshake gives version 4.9.0 and its two capabilities |
| Connection.RecvOutcomeOf | connection.go:116-132 | an "error" member gives the daemon's error even beside "subscription"; otherwise "subscription" gives neither value nor error; otherwise the line is decoded |
| Connection.Connection.HasCapability | connection.go:62-65 | true exactly for the names in the capability set the handshake filled |
| Connection.Connection.SockName | connection.go:67-69 | the socket name the connection was made with |
| Connection.Connection.Version | connection.go:71-73 | the version the handshake stored |
| Connection.Connection.constructor | connection.go:49-53 | a fresh connection has no version, no capabilities and nothing written |
| Connection.Connection.ReadLine | connection.go:86 | the scan loop consumes through the first newline, or everything when there is none |
| Connection.Connection.Command | connection.go:75-93 | the exchange matches CommandOutcomeOf, and the version and capabilities stay as they were |
| Connection.Connection.BuildCapabilitySet | connection.go:105-111 | the capset loop yields CapabilitySet |
| Connection.Connection.Init | connection.go:95-114 | writes the list-capabilities request; on a failing exchange returns its error and keeps the state; otherwise applies InitUpdate |
| Connection.Connection.Recv | connection.go:116-132 | matches RecvOutcomeOf and writes nothing |
| Connection.Connection.Send | connection.go:134-148 | writes the marshalled arguments and a newline, or nothing and an encode error |
| Connection.SentRequestIsOneLine | connection.go:134-148 | Send's write (the marshalled bytes, then a newline) composed with FramedLineReadsBack: with a newline-free marshaller the reader gets the request back as one line |
| Watch.TimeoutMillis | watch.go:22 | whole milliseconds rounded toward zero: never more than the duration, less than a millisecond short of it, never of the opposite sign |
| Watch.ExampleTimeouts | integration_test.go:19 | 0 and 250 ms give 0 and 250; a negative duration rounds toward zero |
| Watch.Clock | watch.go:21-34 | sends the root (not root joined with the relative path) with the ms timeout; the clock and no error on success, "" and the error otherwise |
| Watch.Watch.Root | watch.go:59-61 | the watched root |
| Watch.Watch.RelativePath | watch.go:63-65 | the path relative to the root |
| Watch.MergeRelativeRoot | watch.go:44-46 | the relative root becomes the watch's relative path when that is not empty and stays as it was otherwise; no other field changes |
| Watch.MergedQueryObject | watch.go:44-46 | the merge changes only the relative root, is idempotent, and the marshalled query then names the relative path |
| Watch.Subscribe | watch.go:37-57 | the caller's query gets the relative path in place; a subscription on root joined with the relative path exactly when the send succeeds, the error otherwise |

## Left out

- Connect, sockname and dial (connection.go:38-60, 150-175; protocol/dial.go): they contact the operating system and the network. The model's connection starts from an already-dialled socket.
- encoding/json is not modelled byte by byte. `Connection.Codec` is a parameter holding the marshaller and the two unmarshallers. `JsonText` models only what reading back `GPathPath`'s hand-built text needs.
- Socket write failures (connection.go:81-84, 141-147) are not modelled: writes always succeed. Only marshalling, reading and decoding fail.
- Connection.Connection.Recv: Go's first result is always nil, so it is omitted. The decoding target is a JSON object, not an arbitrary Go value. When the line has no "error" member, the error from the raw decode is discarded as it is in Go.
- Connection.Connection.Init: the panic on a non-string capability becomes the error `CapabilityNotString`, with the version already updated, as at the moment of the panic.
- The response type (`response.init`, `Version`, `Warning` of connection.go:19-27) and `protocol.ClockRequest`/`NewClockResponse` are not part of this model. The clock reading is a parameter of `Watch.Clock`.
- `Client.send` and `path.Join` are not part of this model. They are parameters of `Watch.Clock` and `Watch.Subscribe`.
- Watch.Subscribe: Go dereferences a nil query when the watch has a relative path. The model requires a query in that case instead of modelling the panic.
- Expression.MarshalTerm, Expression.TermJson, Query.QueryObject, Query.MarshalQuery, Subscribe.ArgsJson: these use the corrected suffix marshaller of the Findings table. A query whose expression holds a suffix term with a count other than one does not marshal in Go. `Expression.TermJsonAsWritten` is that code as written.
- Query.QueryObject, Query.MarshalQuery: generator arguments are decoded JSON values. So the marshal error of a `GPathPath` argument whose text is not JSON (such as the path `a"b`) is not modelled on this path. `Generator.PathText` and its lemmas model that text on its own.
- Expression.TermJson: a nil Term child is not expressible. In Go, `TNot{}` marshals as `["not", null]` (expression.go:243), and a nil element of `TAllof` or `TAnyof` marshals as null (expression.go:12-14, 24-26).
- Fields.FieldsJson: `Field` is an open string type in Go. The model has only its 25 named constants.
- strings: Go strings are UTF-8 byte strings, and encoding/json turns an invalid byte sequence into U+FFFD. The model's `string` is a sequence of characters. Nothing in the modelled code depends on the difference.
- integer widths: query timeouts, depths and sizes are unbounded integers. Only the `time.Duration` argument of `Clock` is an int64.
- float64: the query tests compare decoded numbers as float64. The model compares integers.
- Concurrency, connection_test.go's scripted server and integration_test.go's daemon runs are not modelled.

## Findings

| source | as written | input that shows it | evidently intended | confidence | as-written member | corrected member |
|---|---|---|---|---|---|---|
| protocol/query/generator.go:29-35 | the path is spliced between quotes without JSON escaping | path `a"b` (json.Marshal rejects the invalid text, or with depth the array breaks); path `C:\temp` with depth 1 (the daemon reads a tab in place of `\t`) | the path escaped as a JSON string, so the text denotes the path itself | not executed | Generator.PathTextDenotes | Generator.EscapedPathTextDenotes |
| protocol/query/expression.go:312-320 | with a suffix count other than one, `res` holds the `TSuffix` itself, so `json.Marshal` calls `TSuffix.MarshalJSON` on it again, without end | `TSuffix{"a", "b"}`; also a nil or empty `TSuffix` (the call recurses until the stack overflows) | append `[]string(t)`, which marshals as the list of suffixes | not executed | ExpressionLayout.TwoSuffixesNeverMarshal | ExpressionLayout.SuffixLayout |
