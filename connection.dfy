/** The client side of a watchman connection (connection.go): the handshake
    that records the daemon's version and capabilities, and the line-framed
    exchange of JSON PDUs over the socket. The socket is modelled as the
    byte sequence written so far and the buffered reader as the bytes not
    yet read. encoding/json is a parameter: a Codec giving the marshaller
    and the two unmarshallers the code uses. */
module Connection {
  import opened Json

  newtype byte = x: int | 0 <= x < 256

  /** The line terminator `\n`. */
  const NL: byte := 10

  /** encoding/json as the connection uses it. `marshal` fails on values it
      cannot encode; `unmarshalObject` decodes a line into a
      map[string]interface{} (JSON `null` gives the nil map, read as the empty
      one); `unmarshalRaw` decodes it into a map[string]json.RawMessage,
      keeping each member's value as its raw text. */
  datatype Codec = Codec(
    marshal: Json -> Option<seq<byte>>,
    unmarshalObject: seq<byte> -> Option<Pdu>,
    unmarshalRaw: seq<byte> -> Option<map<string, seq<byte>>>)

  /** The errors the shown code returns. CapabilityNotString stands for the
      panic of the failed type assertion in the handshake. */
  datatype ConnError =
    | EncodeError
    | ReadError
    | DecodeError
    | DaemonError(msg: seq<byte>)
    | CapabilityNotString

  /** The index of the first newline, or the length when there is none. */
  function NewlineIndex(buf: seq<byte>): (i: nat)
    ensures i <= |buf|
    ensures i < |buf| ==> buf[i] == NL
    ensures forall k :: 0 <= k < i ==> buf[k] != NL
  {
    if buf == [] || buf[0] == NL then 0
    else
      var j := NewlineIndex(buf[1..]);
      assert forall k :: 1 <= k < j + 1 ==> buf[k] == buf[1..][k - 1];
      j + 1
  }

  /** bufio.Reader.ReadBytes('\n'): the first line including its newline and
      what follows it, or nothing when the buffer holds no newline (the
      reader then hits the end of the stream). */
  function SplitLine(buf: seq<byte>): (r: Option<(seq<byte>, seq<byte>)>)
    ensures r.Some? <==> NL in buf
    ensures r.Some? ==> var line, rest := r.value.0, r.value.1;
      && line + rest == buf
      && |line| >= 1 && line[|line| - 1] == NL
      && NL !in line[..|line| - 1]
  {
    var i := NewlineIndex(buf);
    if i == |buf| then None
    else
      assert buf[..i + 1] + buf[i + 1..] == buf;
      assert buf[..i + 1][..i] == buf[..i];
      Some((buf[..i + 1], buf[i + 1..]))
  }

  /** A message without a newline, framed by one, is read back as one line
      and leaves what follows untouched. */
  lemma FramedLineReadsBack(b: seq<byte>, rest: seq<byte>)
    requires NL !in b
    ensures SplitLine(b + [NL] + rest) == Some((b + [NL], rest))
  {
    var buf := b + [NL] + rest;
    assert forall k :: 0 <= k < |b| ==> buf[k] == b[k];
    assert buf[|b|] == NL;
    assert NewlineIndex(buf) == |b|;
    assert buf[..|b| + 1] == b + [NL];
    assert buf[|b| + 1..] == rest;
  }

  /** The byte stream a sequence of framed messages makes. */
  function Frames(msgs: seq<seq<byte>>): seq<byte> {
    if msgs == [] then [] else msgs[0] + [NL] + Frames(msgs[1..])
  }

  /** Every message a reader gets from `buf`, one per line, newline removed;
      a trailing partial line is lost at the end of the stream. */
  function ReadAll(buf: seq<byte>): seq<seq<byte>>
    decreases |buf|
  {
    match SplitLine(buf)
    case None => []
    case Some((line, rest)) => [line[..|line| - 1]] + ReadAll(rest)
  }

  /** Line framing loses nothing: messages without newlines written one
      after another are read back one by one, in order. */
  lemma {:induction false} ReadAllFrames(msgs: seq<seq<byte>>)
    requires forall i :: 0 <= i < |msgs| ==> NL !in msgs[i]
    ensures ReadAll(Frames(msgs)) == msgs
  {
    if msgs != [] {
      var rest := Frames(msgs[1..]);
      FramedLineReadsBack(msgs[0], rest);
      ReadAllFrames(msgs[1..]);
      assert (msgs[0] + [NL])[..|msgs[0]|] == msgs[0];
      assert [msgs[0]] + msgs[1..] == msgs;
    }
  }

  /** A marshaller that never writes a raw newline, as encoding/json's
      compact output does not. */
  ghost predicate LineSafe(codec: Codec) {
    forall v: Json :: codec.marshal(v).Some? ==> NL !in codec.marshal(v).value
  }

  /** What one request-response exchange does: the reply (or the error),
      the bytes written and the input left unread. */
  datatype CommandOutcome = CommandOutcome(
    resp: Option<Pdu>,
    err: Option<ConnError>,
    written: seq<byte>,
    rest: seq<byte>)

  /** Connection.command: marshal the arguments as one JSON array, write it
      and a newline, read one line back and decode it as an object. Each
      step's failure ends the exchange with that step's error. */
  function CommandOutcomeOf(codec: Codec, args: seq<Json>, input: seq<byte>): (o: CommandOutcome)
    ensures o.resp.Some? <==> o.err.None?
    ensures o.err == Some(EncodeError) <==> codec.marshal(JArr(args)).None?
    ensures o.err == Some(EncodeError) ==> o.written == [] && o.rest == input
    ensures o.err != Some(EncodeError) ==> o.written == codec.marshal(JArr(args)).value + [NL]
    ensures o.err != Some(EncodeError) ==> (o.err == Some(ReadError) <==> NL !in input)
    ensures o.err == Some(ReadError) ==> o.rest == []
    ensures o.err != Some(EncodeError) && NL in input ==>
              o.rest == SplitLine(input).value.1
              && o.resp == codec.unmarshalObject(SplitLine(input).value.0)
    ensures o.err != Some(EncodeError) && NL in input && codec.unmarshalObject(SplitLine(input).value.0).None? ==>
              o.err == Some(DecodeError)
  {
    match codec.marshal(JArr(args))
    case None => CommandOutcome(None, Some(EncodeError), [], input)
    case Some(b) =>
      match SplitLine(input)
      case None => CommandOutcome(None, Some(ReadError), b + [NL], [])
      case Some((line, rest)) =>
        match codec.unmarshalObject(line)
        case None => CommandOutcome(None, Some(DecodeError), b + [NL], rest)
        case Some(pdu) => CommandOutcome(Some(pdu), None, b + [NL], rest)
  }

  /** The handshake's request. */
  const ListCapabilities: seq<Json> := [JStr("list-capabilities")]

  /** The capability set built from the handshake's list: every name in it,
      or nothing when an element is not a string. */
  function CapabilitySet(items: seq<Json>): (r: Option<set<string>>)
    ensures r.Some? <==> forall i :: 0 <= i < |items| ==> items[i].JStr?
    ensures r.Some? ==> forall n :: n in r.value <==> JStr(n) in items
  {
    if items == [] then Some({})
    else if !items[0].JStr? then None
    else
      match CapabilitySet(items[1..])
      case None => None
      case Some(s) =>
        assert forall x :: x in items <==> x == items[0] || x in items[1..];
        Some({items[0].str} + s)
  }

  /** The capability set depends only on which names occur, not on their
      order or how often each is listed. */
  lemma CapabilitySetIgnoresOrderAndDuplicates(a: seq<Json>, b: seq<Json>)
    requires forall x :: x in a <==> x in b
    ensures CapabilitySet(a) == CapabilitySet(b)
  {
    if CapabilitySet(a).Some? {
      forall i | 0 <= i < |b| ensures b[i].JStr? {
        assert b[i] in a;
      }
      assert CapabilitySet(a).value == CapabilitySet(b).value;
    } else {
      var i :| 0 <= i < |a| && !a[i].JStr?;
      assert a[i] in b;
    }
  }

  /** What the handshake's reply does to the stored version and capability
      set: the version is taken when it is a string; the capability set is
      replaced when the reply carries a list, unless one of its elements is
      not a string. */
  function InitUpdate(version: string, caps: set<string>, resp: Pdu): (r: (string, set<string>, Option<ConnError>))
    ensures "version" in resp && resp["version"].JStr? ==> r.0 == resp["version"].str
    ensures !("version" in resp && resp["version"].JStr?) ==> r.0 == version
    ensures !("capabilities" in resp && resp["capabilities"].JArr?) ==> r.1 == caps && r.2.None?
    ensures "capabilities" in resp && resp["capabilities"].JArr? ==>
              var items := resp["capabilities"].items;
              && (r.2.None? <==> forall i :: 0 <= i < |items| ==> items[i].JStr?)
              && (r.2.None? ==> forall n :: n in r.1 <==> JStr(n) in items)
              && (r.2.Some? ==> r.2 == Some(CapabilityNotString) && r.1 == caps)
  {
    var v := if "version" in resp && resp["version"].JStr? then resp["version"].str else version;
    if "capabilities" in resp && resp["capabilities"].JArr? then
      match CapabilitySet(resp["capabilities"].items)
      case None => (v, caps, Some(CapabilityNotString))
      case Some(s) => (v, s, None)
    else (v, caps, None)
  }

  /** A reply without a capability list, or with something else under the
      key, leaves the set as it was: on a fresh connection, empty, so that
      no capability is reported. */
  lemma NoCapabilityList(resp: Pdu, n: string)
    requires !("capabilities" in resp && resp["capabilities"].JArr?)
    ensures n !in InitUpdate("", {}, resp).1
  {
  }

  /** The test suite's handshake reply. */
  lemma ExampleHandshake()
    ensures InitUpdate("", {}, map["capabilities" := JArr([JStr("relative_root"), JStr("cmd-subscribe")]),
                                   "version" := JStr("4.9.0")])
         == ("4.9.0", {"relative_root", "cmd-subscribe"}, None)
  {
    var items := [JStr("relative_root"), JStr("cmd-subscribe")];
    var s := CapabilitySet(items).value;
    assert JStr("relative_root") in items && JStr("cmd-subscribe") in items;
    assert s == {"relative_root", "cmd-subscribe"};
  }

  /** The raw members of a line, the nil map when it does not decode. */
  function RawMembers(codec: Codec, line: seq<byte>): map<string, seq<byte>> {
    match codec.unmarshalRaw(line)
    case None => map[]
    case Some(m) => m
  }

  datatype RecvOutcome = RecvOutcome(decoded: Option<Pdu>, err: Option<ConnError>, rest: seq<byte>)

  /** Connection.Recv on one line: an "error" member makes the daemon's error,
      whose message is the member's raw JSON text, even when "subscription"
      is present too; otherwise a "subscription" member makes a unilateral
      notification that is neither decoded nor an error; otherwise the line
      is decoded into the target. */
  function RecvOutcomeOf(codec: Codec, input: seq<byte>): (o: RecvOutcome)
    ensures o.err == Some(ReadError) <==> NL !in input
    ensures NL !in input ==> o.rest == [] && o.decoded.None?
    ensures NL in input ==> var line, raw := SplitLine(input).value.0, RawMembers(codec, SplitLine(input).value.0);
      && o.rest == SplitLine(input).value.1
      && ("error" in raw ==> o == RecvOutcome(None, Some(DaemonError(raw["error"])), o.rest))
      && ("error" !in raw && "subscription" in raw ==> o == RecvOutcome(None, None, o.rest))
      && ("error" !in raw && "subscription" !in raw ==>
            o.decoded == codec.unmarshalObject(line)
            && (o.err.None? <==> o.decoded.Some?)
            && (o.err.Some? ==> o.err == Some(DecodeError)))
  {
    match SplitLine(input)
    case None => RecvOutcome(None, Some(ReadError), [])
    case Some((line, rest)) =>
      var raw := RawMembers(codec, line);
      if "error" in raw then RecvOutcome(None, Some(DaemonError(raw["error"])), rest)
      else if "subscription" in raw then RecvOutcome(None, None, rest)
      else
        match codec.unmarshalObject(line)
        case None => RecvOutcome(None, Some(DecodeError), rest)
        case Some(pdu) => RecvOutcome(Some(pdu), None, rest)
  }

  class Connection {
    /** The bytes the buffered reader has not consumed yet. */
    var input: seq<byte>
    /** Everything written to the socket so far. */
    var out: seq<byte>
    /** The capability set; a nil map reads as the empty set. */
    var capabilities: set<string>
    var version: string
    const sockname: string
    const codec: Codec

    /** A connection over an already dialled socket, before the handshake. */
    constructor(sockname: string, input: seq<byte>, codec: Codec)
      ensures this.sockname == sockname && this.input == input && this.codec == codec
      ensures out == [] && capabilities == {} && version == ""
    {
      this.sockname := sockname;
      this.input := input;
      this.codec := codec;
      out := [];
      capabilities := {};
      version := "";
    }

    /** Whether the daemon listed the capability in the handshake. */
    function HasCapability(capability: string): (b: bool)
      reads this
      ensures b <==> capability in capabilities
    {
      capability in capabilities
    }

    function SockName(): (s: string)
      ensures s == sockname
    {
      sockname
    }

    function Version(): (v: string)
      reads this
      ensures v == version
    {
      version
    }

    /** bufio.Reader.ReadBytes('\n'): scan for the first newline and consume
      through it; with none, the rest of the stream is consumed and the read
      fails. */
    method ReadLine() returns (line: Option<seq<byte>>)
      modifies this
      ensures SplitLine(old(input)).None? ==> line.None? && input == []
      ensures SplitLine(old(input)).Some? ==>
                line == Some(SplitLine(old(input)).value.0) && input == SplitLine(old(input)).value.1
      ensures out == old(out) && capabilities == old(capabilities) && version == old(version)
    {
      var i := 0;
      while i < |input| && input[i] != NL
        invariant 0 <= i <= |input|
        invariant forall k :: 0 <= k < i ==> input[k] != NL
      {
        i := i + 1;
      }
      assert NewlineIndex(input) == i;
      if i == |input| {
        input := [];
        line := None;
      } else {
        line := Some(input[..i + 1]);
        input := input[i + 1..];
      }
    }

    /** Connection.command. */
    method Command(args: seq<Json>) returns (resp: Option<Pdu>, err: Option<ConnError>)
      modifies this
      ensures var o := CommandOutcomeOf(codec, args, old(input));
        && resp == o.resp && err == o.err
        && out == old(out) + o.written && input == o.rest
      ensures capabilities == old(capabilities) && version == old(version)
    {
      var req := codec.marshal(JArr(args));
      if req.None? {
        return None, Some(EncodeError);
      }
      out := out + req.value + [NL];
      var line := ReadLine();
      if line.None? {
        return None, Some(ReadError);
      }
      resp := codec.unmarshalObject(line.value);
      if resp.None? {
        err := Some(DecodeError);
      } else {
        err := None;
      }
    }

    /** The capset loop of Connection.init: each listed name is added in turn;
      the first element that is not a string stops it. */
    static method BuildCapabilitySet(items: seq<Json>) returns (r: Option<set<string>>)
      ensures r == CapabilitySet(items)
    {
      var capset: set<string> := {};
      var i := 0;
      while i < |items|
        invariant 0 <= i <= |items|
        invariant forall k :: 0 <= k < i ==> items[k].JStr?
        invariant forall n :: n in capset <==> JStr(n) in items[..i]
      {
        if !items[i].JStr? {
          assert CapabilitySet(items).None?;
          return None;
        }
        assert items[..i + 1] == items[..i] + [items[i]];
        capset := capset + {items[i].str};
        i := i + 1;
      }
      assert items[..i] == items;
      var expected := CapabilitySet(items);
      assert expected.Some? && forall n :: n in expected.value <==> n in capset;
      assert expected.value == capset;
      r := Some(capset);
    }

    /** Connection.init: the list-capabilities exchange, then the version and
      capability updates its reply calls for. */
    method Init() returns (err: Option<ConnError>)
      modifies this
      ensures var o := CommandOutcomeOf(codec, ListCapabilities, old(input));
        && out == old(out) + o.written && input == o.rest
        && (o.err.Some? ==> err == o.err && version == old(version) && capabilities == old(capabilities))
        && (o.resp.Some? ==> (version, capabilities, err) == InitUpdate(old(version), old(capabilities), o.resp.value))
    {
      var resp;
      resp, err := Command(ListCapabilities);
      if err.Some? {
        return;
      }
      var pdu := resp.value;
      if "version" in pdu && pdu["version"].JStr? {
        version := pdu["version"].str;
      }
      if "capabilities" in pdu && pdu["capabilities"].JArr? {
        var capset := BuildCapabilitySet(pdu["capabilities"].items);
        if capset.None? {
          return Some(CapabilityNotString);
        }
        capabilities := capset.value;
      }
    }

    /** Connection.Recv: read one line and classify it. */
    method Recv() returns (decoded: Option<Pdu>, err: Option<ConnError>)
      modifies this
      ensures var o := RecvOutcomeOf(codec, old(input));
        decoded == o.decoded && err == o.err && input == o.rest
      ensures out == old(out) && capabilities == old(capabilities) && version == old(version)
    {
      var line := ReadLine();
      if line.None? {
        return None, Some(ReadError);
      }
      var raw := RawMembers(codec, line.value);
      if "error" in raw {
        return None, Some(DaemonError(raw["error"]));
      } else if "subscription" in raw {
        return None, None;
      }
      decoded := codec.unmarshalObject(line.value);
      err := if decoded.None? then Some(DecodeError) else None;
    }

    /** Connection.Send: the request's arguments as one JSON array, then a
      separate write of the newline. */
    method Send(args: seq<Json>) returns (err: Option<ConnError>)
      modifies this
      ensures codec.marshal(JArr(args)).None? ==> err == Some(EncodeError) && out == old(out)
      ensures codec.marshal(JArr(args)).Some? ==>
                err.None? && out == old(out) + codec.marshal(JArr(args)).value + [NL]
      ensures input == old(input) && capabilities == old(capabilities) && version == old(version)
    {
      var b := codec.marshal(JArr(args));
      if b.None? {
        return Some(EncodeError);
      }
      out := out + b.value;
      out := out + [NL];
      err := None;
    }
  }

  /** Send composed with the reader: Send writes the marshalled bytes and a
      newline, and by FramedLineReadsBack a newline-free marshaller makes
      that one line the other end gets back byte for byte. */
  lemma SentRequestIsOneLine(codec: Codec, args: seq<Json>, later: seq<byte>)
    requires LineSafe(codec) && codec.marshal(JArr(args)).Some?
    ensures var b := codec.marshal(JArr(args)).value;
      SplitLine(b + [NL] + later) == Some((b + [NL], later))
  {
    FramedLineReadsBack(codec.marshal(JArr(args)).value, later);
  }
}
