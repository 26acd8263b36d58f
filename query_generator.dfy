/** The query generators of protocol/query/generator.go: the generator
    names and GPathPath, whose marshaller builds its JSON text by hand. */
module Generator {
  import opened Json
  import opened JsonText

  /** The generator names, as the Go constants spell them (the since
      generator's constant reads "string"). */
  const GSince: string := "string"
  const GSuffix: string := "suffix"
  const GGlob: string := "glob"
  const GPath: string := "path"

  /** The four names are distinct keys of a Generators map. */
  lemma GeneratorNamesDistinct()
    ensures |{GSince, GSuffix, GGlob, GPath}| == 4
  {
  }

  datatype GPathPath = GPathPath(path: string, depth: int)

  /** The value a GPathPath is meant to denote: the bare path for depth -1,
      otherwise the pair of path and depth. */
  function PathValue(p: GPathPath): Json {
    if p.depth == -1 then JStr(p.path) else JArr([JStr(p.path), JInt(p.depth)])
  }

  /** GPathPath.MarshalJSON as written: the path is spliced between quotes
      without escaping, alone for depth -1, otherwise as the first element of
      a pair whose second is the depth. */
  function PathText(p: GPathPath): (t: string)
    ensures var k := if p.depth == -1 then 1 else 2;
      && |t| >= k + |p.path| + 1
      && t[k - 1] == '"' && t[k..k + |p.path|] == p.path && t[k + |p.path|] == '"'
      && (p.depth == -1 <==> t[0] == '"')
      && (p.depth == -1 ==> |t| == |p.path| + 2)
      && (p.depth != -1 ==> t[0] == '[' && t[k + |p.path| + 1..] == PairTail(p.depth))
  {
    if p.depth == -1 then "\"" + p.path + "\""
    else "[\"" + p.path + "\", " + Itoa(p.depth) + "]"
  }

  /** What follows the path's closing quote in the pair form. */
  function PairTail(depth: int): string {
    ", " + Itoa(depth) + "]"
  }

  lemma NoQuoteInPairTail(depth: int)
    ensures forall i :: 0 <= i < |PairTail(depth)| ==> PairTail(depth)[i] != '"'
  {
    var s := Itoa(depth);
    var tail := PairTail(depth);
    forall i | 0 <= i < |tail| ensures tail[i] != '"' {
      if 2 <= i < 2 + |s| {
        assert tail[i] == s[i - 2];
      }
    }
  }

  /** The pair's tail read after its first element: a comma, the depth and
      the closing bracket. */
  lemma ReadPairTail(first: Json, depth: int)
    ensures ParseItems(PairTail(depth)[1..], [first]) == Some((JArr([first, JInt(depth)]), ""))
  {
    var ds := Itoa(depth);
    var tail := PairTail(depth);
    assert tail == ", " + ds + "]";
    assert tail[1..] == " " + (ds + "]");
    ParseItoa(depth, "]");
    ReadNumberThenClose(first, ds, depth);
  }

  /** The depth after the comma's space. */
  lemma NumberAfterSpace(ds: string, n: int)
    requires ds != [] && (ds[0] == '-' || IsDigit(ds[0]))
    requires ParseNumber(ds + "]") == Some((n, "]"))
    ensures ParseValue(" " + (ds + "]")) == Some((JInt(n), "]"))
  {
    var digits := ds + "]";
    var num := " " + digits;
    assert digits[0] == ds[0] && !IsWs(digits[0]);
    assert SkipWs(digits) == digits;
    assert num[0] == ' ' && num[1..] == digits;
    assert SkipWs(num) == SkipWs(digits);
    ValueAfterWs(num);
    assert ParseValue(num) == ParseValue(digits);
    ValueIsNumber(digits);
    assert ParseValue(digits) == Some((JInt(n), "]"));
  }

  /** A last element followed by the closing bracket. */
  lemma CloseAfter(first: Json, num: string, n: int)
    requires ParseValue(num) == Some((JInt(n), "]"))
    ensures ParseItems(num, [first]) == Some((JArr([first, JInt(n)]), ""))
  {
    ItemsClose(num, [first], JInt(n), "]");
    PairOfSingletons(first, JInt(n));
  }

  /** The depth after the comma, then the closing bracket. */
  lemma ReadNumberThenClose(first: Json, ds: string, n: int)
    requires ds != [] && (ds[0] == '-' || IsDigit(ds[0]))
    requires ParseNumber(ds + "]") == Some((n, "]"))
    ensures ParseItems(" " + (ds + "]"), [first]) == Some((JArr([first, JInt(n)]), ""))
  {
    NumberAfterSpace(ds, n);
    CloseAfter(first, " " + (ds + "]"), n);
  }

  /** The pair layout around literal body `x`: its value is the array read
      once the literal `"x"` is read. */
  lemma {:induction false} PairShape(x: string, depth: int, t: string)
    requires t == "[\"" + x + "\", " + Itoa(depth) + "]"
    ensures t[2..] == x + "\"" + PairTail(depth)
    ensures ParseValue(t) == ParseItems(t[1..], [])
    ensures ParseValue(t[1..]) == match ParseChars(t[2..])
                                  case None => None
                                  case Some((s, rest)) => Some((JStr(s), rest))
  {
    assert t == "[" + ("\"" + (x + "\"" + PairTail(depth)));
    assert t[1..] == "\"" + (x + "\"" + PairTail(depth));
    assert t[1..][1..] == t[2..];
    ValueIsArray(t);
    ValueIsString(t[1..]);
  }

  /** Once the first element has been read as `first` with the pair's tail
      after it, the whole text denotes the pair. */
  lemma PairReads(t: string, first: Json, depth: int)
    requires t != []
    requires ParseValue(t) == ParseItems(t[1..], [])
    requires ParseValue(t[1..]) == Some((first, PairTail(depth)))
    ensures Decode(t) == Some(JArr([first, JInt(depth)]))
  {
    ItemsComma(t[1..], [], first, PairTail(depth));
    ReadPairTail(first, depth);
    EmptyPrefix([first]);
    assert ParseValue(t) == Some((JArr([first, JInt(depth)]), ""));
  }

  /** The text the as-written marshaller produces denotes the intended value
      exactly when the path needs no escaping: no quote, no backslash and no
      control character. */
  lemma {:induction false} PathTextDenotes(p: GPathPath)
    ensures Decode(PathText(p)) == Some(PathValue(p)) <==> PlainText(p.path)
  {
    var t := PathText(p);
    if p.depth == -1 {
      assert t[1..] == p.path + "\"" + "";
      ValueIsString(t);
      if PlainText(p.path) {
        ParsePlain(p.path, "");
      }
      if Decode(t) == Some(PathValue(p)) {
        var r := ParseChars(t[1..]).value.1;
        ReadBackMeansPlain(p.path, "", r);
      }
    } else {
      var tail := PairTail(p.depth);
      PairShape(p.path, p.depth, t);
      if PlainText(p.path) {
        ParsePlain(p.path, tail);
        PairReads(t, JStr(p.path), p.depth);
      }
      if Decode(t) == Some(PathValue(p)) {
        ItemsFirst(t[1..]);
        NoQuoteInPairTail(p.depth);
        var r := ParseChars(t[2..]).value.1;
        ReadBackMeansPlain(p.path, tail, r);
      }
    }
  }

  /** A path with a quote in it, such as `a"b`: the literal ends at that
      quote and the text is not JSON at all. */
  lemma QuoteInPathBreaksText(a: string, b: string)
    requires PlainText(a) && b != [] && !IsWs(b[0])
    ensures Decode(PathText(GPathPath(a + "\"" + b, -1))) == None
  {
    var t := PathText(GPathPath(a + "\"" + b, -1));
    var after := b + "\"";
    QuoteRegroup('"', a, b);
    DropFirst('"', a + ("\"" + after));
    ValueIsString(t);
    assert ParseChars("\"" + after) == Some(("", after));
    ParsePlainPrefix(a, "\"" + after, "", after);
    EmptySuffix(a);
    assert ParseValue(t) == Some((JStr(a), after));
    assert after[0] == b[0];
    assert SkipWs(after) == after;
  }

  /** A `\t` escape in front of plain text reads as a tab. */
  lemma ReadTabEscape(b: string, tail: string)
    requires PlainText(b)
    ensures ParseChars("\\t" + (b + "\"" + tail)) == Some(("\t" + b, tail))
  {
    var x := b + "\"" + tail;
    ParsePlain(b, tail);
    var y := "\\t" + x;
    var z := y[1..];
    assert y[0] == '\\' && z == "t" + x;
    assert z[0] == 't' && z[1..] == x;
    assert ParseEscape(z) == Some(('\t', x));
    CharsEscapeStep(y, '\t', x, b, tail);
    assert ['\t'] + b == "\t" + b;
  }

  /** The body of a Windows path's literal, read up to its closing quote. */
  lemma ReadBackslashBody(a: string, b: string, tail: string)
    requires PlainText(a) && PlainText(b)
    ensures ParseChars(a + "\\t" + b + "\"" + tail) == Some((a + "\t" + b, tail))
  {
    var y := "\\t" + (b + "\"" + tail);
    ReadTabEscape(b, tail);
    ParsePlainPrefix(a, y, "\t" + b, tail);
    Regroup(a, "\\t", b + "\"" + tail);
    Regroup3(a + "\\t", b, "\"", tail);
    Regroup(a, "\t", b);
  }

  /** A Windows path such as `C:\temp`: its `\t` is read as a tab, so the
      daemon is sent a different path than the caller's. */
  lemma BackslashInPathChangesIt(a: string, b: string, depth: int)
    requires PlainText(a) && PlainText(b) && depth != -1
    ensures var sent := a + "\\t" + b;
      && Decode(PathText(GPathPath(sent, depth))) == Some(JArr([JStr(a + "\t" + b), JInt(depth)]))
      && a + "\t" + b != sent
  {
    var sent := a + "\\t" + b;
    var read := a + "\t" + b;
    var t := PathText(GPathPath(sent, depth));
    PairShape(sent, depth, t);
    ReadBackslashBody(a, b, PairTail(depth));
    PairReads(t, JStr(read), depth);
    assert |read| < |sent|;
  }

  function HexDigit(n: nat): (c: char)
    requires n < 16
    ensures IsHex(c) && HexValue(c) == n
  {
    if n < 10 then (n + '0' as int) as char else (n - 10 + 'a' as int) as char
  }

  /** One character escaped for a JSON string literal: quote and backslash
      get a backslash, control characters a `\u00XY` escape. */
  function EscapeChar(c: char): string {
    if c == '"' || c == '\\' then ['\\', c]
    else if c < ' ' then ['\\', 'u', '0', '0', HexDigit((c as int) / 16), HexDigit((c as int) % 16)]
    else [c]
  }

  /** A string escaped for a JSON string literal. */
  function Escape(s: string): (e: string)
    ensures PlainText(s) ==> e == s
  {
    if s == [] then [] else EscapeChar(s[0]) + Escape(s[1..])
  }

  /** One escaped character reads back as itself, whatever follows it. */
  lemma EscapeCharStep(c: char, tailText: string, s: string, rest: string)
    requires ParseChars(tailText) == Some((s, rest))
    ensures ParseChars(EscapeChar(c) + tailText) == Some(([c] + s, rest))
  {
    var t := EscapeChar(c) + tailText;
    if c == '"' || c == '\\' {
      assert t[1..] == [c] + tailText;
      assert ParseEscape(t[1..]) == Some((c, tailText));
      CharsEscapeStep(t, c, tailText, s, rest);
    } else if c < ' ' {
      var h, l := HexDigit((c as int) / 16), HexDigit((c as int) % 16);
      assert t[1..] == ['u', '0', '0', h, l] + tailText;
      EscapeUnicodeByte(h, l, tailText);
      assert (16 * HexValue(h) + HexValue(l)) as char == c;
      CharsEscapeStep(t, c, tailText, s, rest);
    } else {
      assert t[1..] == tailText;
      CharsPlainStep(t, s, rest);
    }
  }

  /** Escaped text between quotes reads back as the original string. */
  lemma {:induction false} ParseEscaped(s: string, rest: string)
    ensures ParseChars(Escape(s) + "\"" + rest) == Some((s, rest))
  {
    if s == [] {
      EmptyPrefix("\"" + rest);
    } else {
      var tailText := Escape(s[1..]) + "\"" + rest;
      ParseEscaped(s[1..], rest);
      EscapeCharStep(s[0], tailText, s[1..], rest);
      assert Escape(s) == EscapeChar(s[0]) + Escape(s[1..]);
      Regroup3(EscapeChar(s[0]), Escape(s[1..]), "\"", rest);
      HeadAndTail(s);
    }
  }

  /** The evidently intended marshaller: the same layout with the path
      escaped. On a path that needs no escaping it writes what the
      as-written one does. */
  function EscapedPathText(p: GPathPath): (t: string)
    ensures PlainText(p.path) ==> t == PathText(p)
  {
    if p.depth == -1 then "\"" + Escape(p.path) + "\""
    else "[\"" + Escape(p.path) + "\", " + Itoa(p.depth) + "]"
  }

  /** The escaping marshaller's text denotes the intended value for every path. */
  lemma {:induction false} EscapedPathTextDenotes(p: GPathPath)
    ensures Decode(EscapedPathText(p)) == Some(PathValue(p))
  {
    var t := EscapedPathText(p);
    var e := Escape(p.path);
    if p.depth == -1 {
      assert t[1..] == e + "\"" + "";
      ValueIsString(t);
      ParseEscaped(p.path, "");
    } else {
      PairShape(e, p.depth, t);
      ParseEscaped(p.path, PairTail(p.depth));
      PairReads(t, JStr(p.path), p.depth);
    }
  }
}
