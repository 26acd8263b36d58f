/** The subscribe command of protocol/subscribe.go: the request's argument
    list, and the two decoders that turn an inbound PDU into the typed
    subscribe response and subscription notification. Each decoder copies a
    field only when its key is present with the expected JSON type and
    leaves Go's zero value otherwise, so both are total. The Go accessors
    (Clock, Files, IsFreshInstance, Root, Subscription) are the datatypes'
    own field selectors. */
module Subscribe {
  import opened Json
  import Fields
  import Query

  datatype SubscribeRequest = SubscribeRequest(root: string, name: string, query: Option<Query.Query>)

  /** The argument list SubscribeRequest.Args returns, as JSON values:
      the command name, the root and the subscription name, then the query
      object when there is one. */
  function ArgsJson(req: SubscribeRequest): (r: seq<Json>)
    ensures |r| == 3 <==> req.query.None?
    ensures |r| == 4 <==> req.query.Some?
    ensures r[..3] == [JStr("subscribe"), JStr(req.root), JStr(req.name)]
    ensures req.query.Some? ==> r[3] == JObj(Query.QueryObject(req.query.value))
  {
    var base := [JStr("subscribe"), JStr(req.root), JStr(req.name)];
    if req.query.Some? then base + [JObj(Query.QueryObject(req.query.value))] else base
  }

  /** SubscribeRequest.Args: three fixed slots, then an append when the
      query is not nil. */
  method Args(req: SubscribeRequest) returns (r: seq<Json>)
    ensures r == ArgsJson(req)
  {
    r := [JStr("subscribe"), JStr(req.root), JStr(req.name)];
    if req.query.Some? {
      var q := Query.MarshalQuery(req.query.value);
      r := r + [q];
    }
  }

  /** The argument list tells root, name and whether a query was given. */
  lemma ArgsDetermineRequest(a: SubscribeRequest, b: SubscribeRequest)
    requires ArgsJson(a) == ArgsJson(b)
    ensures a.root == b.root && a.name == b.name && a.query.Some? == b.query.Some?
  {
    assert ArgsJson(a)[1] == JStr(a.root) && ArgsJson(b)[1] == JStr(b.root);
    assert ArgsJson(a)[2] == JStr(a.name) && ArgsJson(b)[2] == JStr(b.name);
  }

  /** The subscribe command's request from the package's sample exchange,
      with its field-list query, and the same request without a query. */
  lemma ExampleArgs()
    ensures ArgsJson(SubscribeRequest("/tmp", "sub1",
                                      Some(Query.ZeroQuery.(fields := Items([Fields.FExists, Fields.FName, Fields.FType])))))
         == [JStr("subscribe"), JStr("/tmp"), JStr("sub1"),
             JObj(map["fields" := JArr([JStr("exists"), JStr("name"), JStr("type")])])]
    ensures ArgsJson(SubscribeRequest("/tmp", "sub1", None)) == [JStr("subscribe"), JStr("/tmp"), JStr("sub1")]
  {
    Query.QueryObjectInOrder(Query.ZeroQuery.(fields := Items([Fields.FExists, Fields.FName, Fields.FType])));
    Fields.ExampleFieldLists();
  }

  datatype SubscribeResponse = SubscribeResponse(clock: string, subscription: string)

  /** What NewSubscribeResponse yields: the clock from key "clock" and the
      subscription name from key "subscribe" (not "subscription"), each only
      when it is a string. */
  function SubscribeResponseOf(pdu: Pdu): (r: SubscribeResponse)
    ensures ("clock" in pdu && pdu["clock"].JStr?) ==> r.clock == pdu["clock"].str
    ensures !("clock" in pdu && pdu["clock"].JStr?) ==> r.clock == ""
    ensures ("subscribe" in pdu && pdu["subscribe"].JStr?) ==> r.subscription == pdu["subscribe"].str
    ensures !("subscribe" in pdu && pdu["subscribe"].JStr?) ==> r.subscription == ""
  {
    SubscribeResponse(StringAt(pdu, "clock"), StringAt(pdu, "subscribe"))
  }

  /** NewSubscribeResponse: start from the zero response and assign the
      fields one at a time. */
  method NewSubscribeResponse(pdu: Pdu) returns (res: SubscribeResponse)
    ensures res == SubscribeResponseOf(pdu)
  {
    res := SubscribeResponse("", "");
    if "clock" in pdu {
      var x := pdu["clock"];
      if x.JStr? {
        res := res.(clock := x.str);
      }
    }
    if "subscribe" in pdu {
      var x := pdu["subscribe"];
      if x.JStr? {
        res := res.(subscription := x.str);
      }
    }
  }

  /** Whether two PDUs hold the same thing under `k` (both absent, or both
      present with equal values). */
  predicate Agree(p: Pdu, q: Pdu, k: string) {
    (k in p <==> k in q) && (k in p ==> p[k] == q[k])
  }

  /** The subscribe response depends on the keys "clock" and "subscribe" only. */
  lemma SubscribeResponseReadsOnly(p: Pdu, q: Pdu)
    requires Agree(p, q, "clock") && Agree(p, q, "subscribe")
    ensures SubscribeResponseOf(p) == SubscribeResponseOf(q)
  {
  }

  /** A response naming its subscription under "subscription" instead of
      "subscribe" yields an empty name. */
  lemma SubscriptionKeyIgnoredInResponse(clock: string, name: string)
    ensures SubscribeResponseOf(map["clock" := JStr(clock), "subscription" := JStr(name)])
         == SubscribeResponse(clock, "")
  {
  }

  /** The sample response to the subscribe command. */
  lemma ExampleSubscribeResponse()
    ensures SubscribeResponseOf(map["clock" := JStr("c:1531594843:978:9:826"),
                                    "subscribe" := JStr("sub1"),
                                    "version" := JStr("4.9.0")])
         == SubscribeResponse("c:1531594843:978:9:826", "sub1")
  {
  }

  datatype Subscription = Subscription(
    clock: string,
    root: string,
    subscription: string,
    files: Slice<Json>,
    isFreshInstance: bool)

  /** The keys NewSubscription reads. */
  const SubscriptionKeys: set<string> := {"clock", "files", "is_fresh_instance", "root", "subscription"}

  /** What NewSubscription yields: each field from its key when the value has
      the expected type (string, list, boolean), the zero value otherwise. */
  function SubscriptionOf(pdu: Pdu): (s: Subscription)
    ensures ("clock" in pdu && pdu["clock"].JStr?) ==> s.clock == pdu["clock"].str
    ensures !("clock" in pdu && pdu["clock"].JStr?) ==> s.clock == ""
    ensures ("root" in pdu && pdu["root"].JStr?) ==> s.root == pdu["root"].str
    ensures !("root" in pdu && pdu["root"].JStr?) ==> s.root == ""
    ensures ("subscription" in pdu && pdu["subscription"].JStr?) ==> s.subscription == pdu["subscription"].str
    ensures !("subscription" in pdu && pdu["subscription"].JStr?) ==> s.subscription == ""
    ensures s.files.Items? <==> "files" in pdu && pdu["files"].JArr?
    ensures s.files.Items? ==> s.files.elems == pdu["files"].items
    ensures s.isFreshInstance <==> "is_fresh_instance" in pdu && pdu["is_fresh_instance"] == JBool(true)
  {
    Subscription(StringAt(pdu, "clock"), StringAt(pdu, "root"), StringAt(pdu, "subscription"),
                 ListAt(pdu, "files"), BoolAt(pdu, "is_fresh_instance"))
  }

  /** NewSubscription: start from the zero notification and assign the
      fields one at a time, in the order the Go code does. */
  method NewSubscription(pdu: Pdu) returns (s: Subscription)
    ensures s == SubscriptionOf(pdu)
  {
    s := Subscription("", "", "", Nil, false);
    if "clock" in pdu {
      var x := pdu["clock"];
      if x.JStr? {
        s := s.(clock := x.str);
      }
    }
    if "files" in pdu {
      var x := pdu["files"];
      if x.JArr? {
        s := s.(files := Items(x.items));
      }
    }
    if "is_fresh_instance" in pdu {
      var x := pdu["is_fresh_instance"];
      if x.JBool? {
        s := s.(isFreshInstance := x.b);
      }
    }
    if "root" in pdu {
      var x := pdu["root"];
      if x.JStr? {
        s := s.(root := x.str);
      }
    }
    if "subscription" in pdu {
      var x := pdu["subscription"];
      if x.JStr? {
        s := s.(subscription := x.str);
      }
    }
  }

  /** The notification depends on the five keys it reads and on nothing
      else in the PDU. */
  lemma {:induction false} SubscriptionReadsOnly(p: Pdu, q: Pdu)
    requires forall k | k in SubscriptionKeys :: Agree(p, q, k)
    ensures SubscriptionOf(p) == SubscriptionOf(q)
  {
    assert Agree(p, q, "clock");
    assert Agree(p, q, "files");
    assert Agree(p, q, "is_fresh_instance");
    assert Agree(p, q, "root");
    assert Agree(p, q, "subscription");
  }

  /** Keys outside the five, such as "since", "canceled", "unilateral" and
      "version" in the sample notifications, are ignored. */
  lemma OtherKeysIgnored(pdu: Pdu, extra: set<string>)
    requires extra !! SubscriptionKeys
    ensures SubscriptionOf(pdu - extra) == SubscriptionOf(pdu)
  {
    forall k | k in SubscriptionKeys ensures Agree(pdu - extra, pdu, k) {
    }
    SubscriptionReadsOnly(pdu - extra, pdu);
  }

  /** A notification without "is_fresh_instance", or with a value that is not
      a boolean, is not fresh. */
  lemma MissingFreshnessIsNotFresh(pdu: Pdu)
    requires !("is_fresh_instance" in pdu && pdu["is_fresh_instance"].JBool?)
    ensures !SubscriptionOf(pdu).isFreshInstance
  {
  }

  /** The PDU a daemon would send for a subscription notification; files
      are left out when nil. */
  function SubscriptionPdu(s: Subscription): Pdu {
    var base := map["clock" := JStr(s.clock), "root" := JStr(s.root),
                    "subscription" := JStr(s.subscription),
                    "is_fresh_instance" := JBool(s.isFreshInstance)];
    if s.files.Items? then base["files" := JArr(s.files.elems)] else base
  }

  /** Decoding a notification PDU gives back every field it carried. */
  lemma DecodeSubscriptionPdu(s: Subscription)
    ensures SubscriptionOf(SubscriptionPdu(s)) == s
  {
  }

  /** A PDU field with the wrong JSON type leaves the zero value: a numeric
      clock reads as "" and a `null` file list as nil. */
  lemma MistypedFieldsLeaveZero()
    ensures SubscriptionOf(map["clock" := JInt(5), "files" := JNull])
         == Subscription("", "", "", Nil, false)
  {
  }

  /** The first sample notification (files elided to one entry). */
  lemma ExampleSubscription(file: Json)
    ensures SubscriptionOf(map["unilateral" := JBool(true), "subscription" := JStr("sub1"),
                               "root" := JStr("/tmp"), "files" := JArr([file]),
                               "version" := JStr("4.9.0"), "clock" := JStr("c:1531594843:978:9:826"),
                               "is_fresh_instance" := JBool(true)])
         == Subscription("c:1531594843:978:9:826", "/tmp", "sub1", Items([file]), true)
  {
  }
}
