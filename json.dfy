/** JSON values as the client builds them for requests and reads them out of
    decoded protocol data units (PDUs), together with the small wrappers the
    other modules share. */
module Json {

  datatype Option<+T> = None | Some(value: T)

  datatype Json =
    | JNull
    | JBool(b: bool)
    | JInt(n: int)
    | JStr(str: string)
    | JArr(items: seq<Json>)
    | JObj(members: map<string, Json>)

  /** A Go slice. A nil slice and an empty one have the same length but
      marshal differently (`null` against `[]`). */
  datatype Slice<+T> = Nil | Items(elems: seq<T>) {
    function Len(): nat {
      if Nil? then 0 else |elems|
    }
  }

  /** How encoding/json marshals a `[]string`. */
  function StringsJson(xs: Slice<string>): (r: Json)
    ensures xs.Nil? <==> r == JNull
    ensures xs.Items? ==> r.JArr? && |r.items| == |xs.elems|
    ensures xs.Items? ==> forall i :: 0 <= i < |xs.elems| ==> r.items[i] == JStr(xs.elems[i])
  {
    match xs
    case Nil => JNull
    case Items(s) => JArr(seq(|s|, i requires 0 <= i < |s| => JStr(s[i])))
  }

  /** The marshalled form of a string list determines the list: nil, empty
      and longer lists stay apart. */
  lemma StringsJsonInjective(a: Slice<string>, b: Slice<string>)
    requires StringsJson(a) == StringsJson(b)
    ensures a == b
  {
    match a
    case Nil =>
    case Items(s) =>
      var t := b.elems;
      assert |s| == |t|;
      forall i | 0 <= i < |s| ensures s[i] == t[i] {
        assert StringsJson(a).items[i] == JStr(s[i]);
        assert StringsJson(b).items[i] == JStr(t[i]);
      }
  }

  /** One decoded inbound JSON object (Go's map[string]interface{}). */
  type Pdu = map<string, Json>

  /** The value under `key` when it is present and a string, else Go's zero string. */
  function StringAt(pdu: Pdu, key: string): (s: string)
    ensures key in pdu && pdu[key].JStr? ==> s == pdu[key].str
    ensures !(key in pdu && pdu[key].JStr?) ==> s == ""
  {
    if key in pdu && pdu[key].JStr? then pdu[key].str else ""
  }

  /** The value under `key` when it is present and a boolean, else false. */
  function BoolAt(pdu: Pdu, key: string): (b: bool)
    ensures b <==> key in pdu && pdu[key] == JBool(true)
  {
    if key in pdu && pdu[key].JBool? then pdu[key].b else false
  }

  /** The value under `key` when it is present and a list, else the nil
      slice; JSON `null` is not a list. */
  function ListAt(pdu: Pdu, key: string): (l: Slice<Json>)
    ensures l.Items? <==> key in pdu && pdu[key].JArr?
    ensures l.Items? ==> l.elems == pdu[key].items
  {
    if key in pdu && pdu[key].JArr? then Items(pdu[key].items) else Nil
  }
}
