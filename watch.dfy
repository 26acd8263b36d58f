/** The watch facade of watch.go: a watched root with an optional path
    relative to it, its clock command and its subscribe command. The client
    that carries requests to the daemon is not part of this model; its send
    operation is a parameter, a function from the request to the daemon's
    reply or an error, and so are protocol.NewClockResponse's clock reading
    and path.Join. */
module Watch {
  import opened Json
  import Query
  import Protocol = Subscribe

  /** Go's int64, the representation of time.Duration (nanoseconds). */
  newtype int64 = x: int | -0x8000_0000_0000_0000 <= x < 0x8000_0000_0000_0000

  const NanosPerMilli: int := 1_000_000

  datatype Watch = Watch(root: string, rel: string) {
    /** Watch.Root. */
    function Root(): (r: string)
      ensures r == root
    {
      root
    }

    /** Watch.RelativePath. */
    function RelativePath(): (r: string)
      ensures r == rel
    {
      rel
    }
  }

  /** What the client's send gives back: the reply PDU, or an error. */
  datatype Reply = Reply(pdu: Pdu) | Failed(err: string)

  /** The clock command's request (protocol.ClockRequest's two fields). */
  datatype ClockRequest = ClockRequest(path: string, syncTimeout: int)

  /** Go's integer division, which truncates toward zero. */
  function Quot(a: int, b: int): int
    requires b > 0
  {
    if a >= 0 then a / b else -((-a) / b)
  }

  /** The duration in whole milliseconds, rounded toward zero: at most the
      duration in size, less than a millisecond short of it, and never of the
      opposite sign. */
  function TimeoutMillis(d: int64): (ms: int)
    ensures 0 <= d as int ==> 0 <= ms * NanosPerMilli <= d as int < (ms + 1) * NanosPerMilli
    ensures d as int < 0 ==> (ms - 1) * NanosPerMilli < d as int <= ms * NanosPerMilli <= 0
  {
    Quot(d as int, NanosPerMilli)
  }

  /** The test suite's timeouts: zero, and 250 ms. A negative duration rounds
      toward zero, not down. */
  lemma ExampleTimeouts()
    ensures TimeoutMillis(0) == 0
    ensures TimeoutMillis(250_000_000) == 250
    ensures TimeoutMillis(999_999) == 0
    ensures TimeoutMillis(-1_500_000) == -1
  {
  }

  /** Watch.Clock: send a clock request for the watched root (not the root
      joined with the relative path) with the timeout in milliseconds; on
      success the reply's clock and no error, otherwise the empty clock and
      the error. */
  function Clock(w: Watch, d: int64, send: ClockRequest -> Reply, clockOf: Pdu -> string): (r: (string, Option<string>))
    ensures var reply := send(ClockRequest(w.root, TimeoutMillis(d)));
      && (r.1.None? <==> reply.Reply?)
      && (reply.Reply? ==> r.0 == clockOf(reply.pdu))
      && (reply.Failed? ==> r == ("", Some(reply.err)))
  {
    var req := ClockRequest(w.root, TimeoutMillis(d));
    match send(req)
    case Reply(pdu) => (clockOf(pdu), None)
    case Failed(e) => ("", Some(e))
  }

  /** A caller's *query.Query, which Subscribe updates in place. */
  class QueryBox {
    var value: Query.Query

    constructor(q: Query.Query)
      ensures value == q
    {
      value := q;
    }
  }

  /** The query after Subscribe's merge: the relative path becomes the
      query's relative root when there is one. */
  function MergeRelativeRoot(q: Query.Query, rel: string): (r: Query.Query)
    ensures r.relativeRoot == (if rel != "" then rel else q.relativeRoot)
    ensures r.(relativeRoot := q.relativeRoot) == q
  {
    if rel != "" then q.(relativeRoot := rel) else q
  }

  /** The merge touches nothing but the relative root, is idempotent, and the
      marshalled query then names the watch's relative path as its
      "relative_root"; without a relative path it marshals as before. */
  lemma MergedQueryObject(q: Query.Query, rel: string)
    ensures MergeRelativeRoot(q, rel).(relativeRoot := q.relativeRoot) == q
    ensures MergeRelativeRoot(MergeRelativeRoot(q, rel), rel) == MergeRelativeRoot(q, rel)
    ensures rel != "" ==> var obj := Query.QueryObject(MergeRelativeRoot(q, rel));
      "relative_root" in obj && obj["relative_root"] == JStr(rel)
    ensures rel == "" ==> Query.QueryObject(MergeRelativeRoot(q, rel)) == Query.QueryObject(q)
  {
    if rel != "" {
      Query.OptionValues(MergeRelativeRoot(q, rel));
    }
  }

  /** The watch package's Subscription: the name and the directory it covers. */
  datatype WatchSubscription = WatchSubscription(name: string, root: string)

  /** Watch.Subscribe. The request holds the caller's query, whose relative
      root is overwritten first when the watch has a relative path (a nil
      query with a relative path would be dereferenced, hence the
      precondition). The subscription exists exactly when the send
      succeeded. */
  method Subscribe(w: Watch, name: string, query: QueryBox?,
                   send: Protocol.SubscribeRequest -> Reply, join: (string, string) -> string)
    returns (s: Option<WatchSubscription>, err: Option<string>)
    requires w.rel != "" ==> query != null
    modifies query
    ensures query != null ==> query.value == MergeRelativeRoot(old(query.value), w.rel)
    ensures var reply := send(Protocol.SubscribeRequest(w.root, name, if query == null then None else Some(query.value)));
      && (reply.Reply? ==> s == Some(WatchSubscription(name, join(w.root, w.rel))) && err.None?)
      && (reply.Failed? ==> s.None? && err == Some(reply.err))
  {
    if w.rel != "" {
      query.value := query.value.(relativeRoot := w.rel);
    }
    var req := Protocol.SubscribeRequest(w.root, name, if query == null then None else Some(query.value));
    match send(req)
    case Reply(_) =>
      s := Some(WatchSubscription(name, join(w.root, w.rel)));
      err := None;
    case Failed(e) =>
      s := None;
      err := Some(e);
  }
}
