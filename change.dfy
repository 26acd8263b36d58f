/** The change notification of change.go: what a client hands to its user
    for each subscription notification. It copies the decoded notification's
    fields and has no root. */
module Change {
  import opened Json
  import opened Subscribe

  datatype ChangeNotification = ChangeNotification(
    isFreshInstance: bool,
    clock: string,
    subscription: string,
    files: Slice<Json>)

  /** newChangeNotification: the notification's fields taken verbatim from
      the subscription; the file list is passed through uninterpreted. */
  function NewChangeNotification(sub: Subscription): (cn: ChangeNotification)
    ensures cn.isFreshInstance == sub.isFreshInstance
    ensures cn.clock == sub.clock && cn.subscription == sub.subscription
    ensures cn.files == sub.files
  {
    ChangeNotification(sub.isFreshInstance, sub.clock, sub.subscription, sub.files)
  }

  /** A subscription with the given root that carries the notification's fields. */
  function WithRoot(cn: ChangeNotification, root: string): Subscription {
    Subscription(cn.clock, root, cn.subscription, cn.files, cn.isFreshInstance)
  }

  /** The root is all that is lost: a subscription is its notification plus
      its root, and every notification comes from a subscription. */
  lemma OnlyRootDropped(sub: Subscription, cn: ChangeNotification, root: string)
    ensures WithRoot(NewChangeNotification(sub), sub.root) == sub
    ensures NewChangeNotification(WithRoot(cn, root)) == cn
  {
  }

  /** Subscriptions that differ only in their root give the same notification. */
  lemma RootIgnored(a: Subscription, b: Subscription)
    requires a.(root := b.root) == b
    ensures NewChangeNotification(a) == NewChangeNotification(b)
  {
  }

  /** Composed with the decoder: a PDU without "clock" or "subscription"
      gives empty strings, one without "files" a nil list, and the file list
      otherwise is the PDU's own. */
  lemma NotificationOfPdu(pdu: Pdu)
    ensures var cn := NewChangeNotification(SubscriptionOf(pdu));
      && ("clock" !in pdu ==> cn.clock == "")
      && ("subscription" !in pdu ==> cn.subscription == "")
      && ("files" !in pdu ==> cn.files == Nil)
      && ("files" in pdu && pdu["files"].JArr? ==> cn.files == Items(pdu["files"].items))
      && (cn.isFreshInstance <==> "is_fresh_instance" in pdu && pdu["is_fresh_instance"] == JBool(true))
  {
  }
}
