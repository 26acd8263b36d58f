/** A reader for JSON text (the grammar of RFC 8259) restricted to what
    hand-built generator text can hold: whitespace, `null`, `true`, `false`,
    integers, strings with every escape of section 7 of RFC 8259 except
    surrogate pairs, and arrays. It is the reference for what a piece of
    text denotes as a JSON value. */
module JsonText {
  import opened Json

  predicate IsWs(c: char) {
    c == ' ' || c == '\t' || c == '\n' || c == '\r'
  }

  function SkipWs(t: string): (r: string)
    ensures |r| <= |t| && r == t[|t| - |r|..]
    ensures r == [] || !IsWs(r[0])
    ensures t != [] && !IsWs(t[0]) ==> r == t
  {
    if t != [] && IsWs(t[0]) then SkipWs(t[1..]) else t
  }

  predicate IsDigit(c: char) {
    '0' <= c <= '9'
  }

  predicate IsHex(c: char) {
    IsDigit(c) || 'a' <= c <= 'f' || 'A' <= c <= 'F'
  }

  function HexValue(c: char): (v: nat)
    requires IsHex(c)
    ensures v < 16
  {
    if IsDigit(c) then (c as int) - ('0' as int)
    else if 'a' <= c <= 'f' then (c as int) - ('a' as int) + 10
    else (c as int) - ('A' as int) + 10
  }

  /** The longest prefix of `t` made of decimal digits. */
  function DigitPrefix(t: string): (ds: string)
    ensures |ds| <= |t| && ds == t[..|ds|]
    ensures forall i :: 0 <= i < |ds| ==> IsDigit(ds[i])
    ensures |ds| < |t| ==> !IsDigit(t[|ds|])
  {
    if t != [] && IsDigit(t[0]) then [t[0]] + DigitPrefix(t[1..]) else []
  }

  function DigitValue(c: char): (v: nat)
    requires IsDigit(c)
    ensures v < 10
  {
    (c as int) - ('0' as int)
  }

  /** The number a string of decimal digits spells, most significant first. */
  function DigitsValue(ds: string): nat
    requires forall i :: 0 <= i < |ds| ==> IsDigit(ds[i])
  {
    if ds == [] then 0
    else 10 * DigitsValue(ds[..|ds| - 1]) + DigitValue(ds[|ds| - 1])
  }

  /** An integer: an optional minus sign, then `0` or digits without a leading zero. */
  function ParseNumber(t: string): (res: Option<(int, string)>)
    requires t != [] && (t[0] == '-' || IsDigit(t[0]))
    ensures res.Some? ==> |res.value.1| < |t| && res.value.1 == t[|t| - |res.value.1|..]
  {
    var neg := t[0] == '-';
    var u := if neg then t[1..] else t;
    var ds := DigitPrefix(u);
    if ds == [] || (ds[0] == '0' && |ds| > 1) then None
    else
      var v: int := DigitsValue(ds);
      Some((if neg then -v else v, u[|ds|..]))
  }

  /** The character an escape stands for; `t` starts just after the backslash. */
  function ParseEscape(t: string): (res: Option<(char, string)>)
    ensures res.Some? ==> |res.value.1| < |t| && res.value.1 == t[|t| - |res.value.1|..]
  {
    if t == [] then None
    else if t[0] == '"' then Some(('"', t[1..]))
    else if t[0] == '\\' then Some(('\\', t[1..]))
    else if t[0] == '/' then Some(('/', t[1..]))
    else if t[0] == 'b' then Some((8 as char, t[1..]))
    else if t[0] == 'f' then Some((12 as char, t[1..]))
    else if t[0] == 'n' then Some(('\n', t[1..]))
    else if t[0] == 'r' then Some(('\r', t[1..]))
    else if t[0] == 't' then Some(('\t', t[1..]))
    else if t[0] == 'u' && |t| >= 5 && IsHex(t[1]) && IsHex(t[2]) && IsHex(t[3]) && IsHex(t[4]) then
      var code := 4096 * HexValue(t[1]) + 256 * HexValue(t[2]) + 16 * HexValue(t[3]) + HexValue(t[4]);
      if code < 0xD800 || 0xE000 <= code then Some((code as char, t[5..])) else None
    else None
  }

  /** The body of a string literal, `t` starting just after the opening
      quote: the decoded characters and the text after the closing quote.
      Raw control characters are refused, as RFC 8259 requires. */
  function ParseChars(t: string): (res: Option<(string, string)>)
    ensures res.Some? ==> |res.value.1| < |t| && res.value.1 == t[|t| - |res.value.1|..]
    decreases |t|
  {
    if t == [] then None
    else if t[0] == '"' then Some(([], t[1..]))
    else if t[0] == '\\' then
      match ParseEscape(t[1..])
      case None => None
      case Some((c, r)) =>
        match ParseChars(r)
        case None => None
        case Some((s, rest)) => Some(([c] + s, rest))
    else if t[0] < ' ' then None
    else
      match ParseChars(t[1..])
      case None => None
      case Some((s, rest)) => Some(([t[0]] + s, rest))
  }

  /** One value after optional whitespace, and the text after it. */
  function ParseValue(t: string): (res: Option<(Json, string)>)
    ensures res.Some? ==> |res.value.1| < |t|
    decreases |t|, 0
  {
    if t != [] && IsWs(t[0]) then ParseValue(t[1..])
    else if t == [] then None
    else if t[0] == '"' then
      match ParseChars(t[1..])
      case None => None
      case Some((s, rest)) => Some((JStr(s), rest))
    else if t[0] == '[' then
      var v := SkipWs(t[1..]);
      if v != [] && v[0] == ']' then Some((JArr([]), v[1..]))
      else ParseItems(t[1..], [])
    else if t[0] == '-' || IsDigit(t[0]) then
      match ParseNumber(t)
      case None => None
      case Some((n, rest)) => Some((JInt(n), rest))
    else if |t| >= 4 && t[..4] == "null" then Some((JNull, t[4..]))
    else if |t| >= 4 && t[..4] == "true" then Some((JBool(true), t[4..]))
    else if |t| >= 5 && t[..5] == "false" then Some((JBool(false), t[5..]))
    else None
  }

  /** The elements of a non-empty array after the ones in `acc`, up to and
      including the closing bracket; the array read starts with `acc`. */
  function ParseItems(t: string, acc: seq<Json>): (res: Option<(Json, string)>)
    ensures res.Some? ==> |res.value.1| < |t|
    ensures res.Some? ==> res.value.0.JArr? && |res.value.0.items| > |acc|
                          && res.value.0.items[..|acc|] == acc
    decreases |t|, 1
  {
    match ParseValue(t)
    case None => None
    case Some((v, rest)) =>
      var w := SkipWs(rest);
      if w != [] && w[0] == ',' then
        var more := ParseItems(w[1..], acc + [v]);
        if more.None? then None
        else
          ItemsOfPrefix(more.value.0.items, acc, v);
          more
      else if w != [] && w[0] == ']' then Some((JArr(acc + [v]), w[1..]))
      else None
  }

  lemma ItemsOfPrefix(m: seq<Json>, acc: seq<Json>, v: Json)
    requires |m| > |acc| && m[..|acc| + 1] == acc + [v]
    ensures m[..|acc|] == acc && m[|acc|] == v
  {
    assert m[..|acc|] == m[..|acc| + 1][..|acc|];
  }

  /** Whitespace before a value is skipped. */
  lemma {:induction false} ValueAfterWs(t: string)
    ensures ParseValue(t) == ParseValue(SkipWs(t))
    decreases |t|
  {
    if t != [] && IsWs(t[0]) {
      ValueAfterWs(t[1..]);
    }
  }

  /** One escaped character of a literal's body. */
  lemma CharsEscapeStep(t: string, c: char, r: string, s: string, rest: string)
    requires t != [] && t[0] == '\\'
    requires ParseEscape(t[1..]) == Some((c, r))
    requires ParseChars(r) == Some((s, rest))
    ensures ParseChars(t) == Some(([c] + s, rest))
  {
  }

  /** One unescaped character of a literal's body. */
  lemma CharsPlainStep(t: string, s: string, rest: string)
    requires t != [] && t[0] != '"' && t[0] != '\\' && t[0] >= ' '
    requires ParseChars(t[1..]) == Some((s, rest))
    ensures ParseChars(t) == Some(([t[0]] + s, rest))
  {
  }

  /** A `u00XY` escape. */
  lemma EscapeUnicodeByte(h: char, l: char, x: string)
    requires IsHex(h) && IsHex(l)
    ensures ParseEscape(['u', '0', '0', h, l] + x) == Some(((16 * HexValue(h) + HexValue(l)) as char, x))
  {
    var t := ['u', '0', '0', h, l] + x;
    assert t[5..] == x;
  }

  /** A value starting with a quote is the string literal read from there. */
  lemma ValueIsString(t: string)
    requires t != [] && t[0] == '"'
    ensures ParseValue(t) == match ParseChars(t[1..])
                             case None => None
                             case Some((s, rest)) => Some((JStr(s), rest))
  {
  }

  /** A value starting with a digit or a minus sign is the integer read from there. */
  lemma ValueIsNumber(t: string)
    requires t != [] && (t[0] == '-' || IsDigit(t[0]))
    ensures ParseValue(t) == match ParseNumber(t)
                             case None => None
                             case Some((n, rest)) => Some((JInt(n), rest))
  {
    assert SkipWs(t) == t;
  }

  /** A value starting with an opening bracket followed by something other
      than whitespace or a closing bracket is a non-empty array. */
  lemma ValueIsArray(t: string)
    requires |t| >= 2 && t[0] == '[' && !IsWs(t[1]) && t[1] != ']'
    ensures ParseValue(t) == ParseItems(t[1..], [])
  {
  }

  /** An element followed by a comma: the array goes on after it. */
  lemma ItemsComma(t: string, acc: seq<Json>, v: Json, rest: string)
    requires ParseValue(t) == Some((v, rest))
    requires rest != [] && rest[0] == ','
    ensures ParseItems(t, acc) == ParseItems(rest[1..], acc + [v])
  {
    assert SkipWs(rest) == rest;
  }

  /** An element followed by the closing bracket ends the array. */
  lemma ItemsClose(t: string, acc: seq<Json>, v: Json, rest: string)
    requires ParseValue(t) == Some((v, rest))
    requires rest != [] && rest[0] == ']'
    ensures ParseItems(t, acc) == Some((JArr(acc + [v]), rest[1..]))
  {
    assert SkipWs(rest) == rest;
  }

  /** A non-empty array read from scratch starts with its first element. */
  lemma ItemsFirst(t: string)
    requires ParseItems(t, []).Some?
    ensures ParseValue(t).Some? && ParseItems(t, []).value.0.items[0] == ParseValue(t).value.0
  {
    var v := ParseValue(t).value.0;
    ItemsOfPrefix(ParseItems(t, []).value.0.items, [], v);
  }

  /** The value a whole text denotes, if it is one JSON value with nothing
      but whitespace after it. */
  function Decode(t: string): Option<Json> {
    match ParseValue(t)
    case None => None
    case Some((v, rest)) => if SkipWs(rest) == [] then Some(v) else None
  }

  /** Text that a JSON string literal can hold without any escaping. */
  predicate PlainText(s: string) {
    forall i :: 0 <= i < |s| ==> s[i] != '"' && s[i] != '\\' && s[i] >= ' '
  }

  /** Plain text between quotes reads back as itself. */
  lemma {:induction false} ParsePlain(p: string, rest: string)
    requires PlainText(p)
    ensures ParseChars(p + "\"" + rest) == Some((p, rest))
  {
    if p == [] {
      assert p + "\"" + rest == "\"" + rest;
    } else {
      var t := p + "\"" + rest;
      assert t[0] == p[0] && t[1..] == p[1..] + "\"" + rest;
      ParsePlain(p[1..], rest);
      assert [p[0]] + p[1..] == p;
    }
  }

  // Facts about concatenation, kept apart from the parser so that proofs
  // about parsing do not have to rediscover them. Each is plain sequence
  // algebra; proved inside a parsing proof the same step costs the solver
  // far more than it does here, where nothing else is in scope.

  lemma PairOfSingletons<T>(x: T, y: T)
    ensures [x] + [y] == [x, y]
  {
  }

  lemma Regroup<T>(a: seq<T>, x: seq<T>, b: seq<T>)
    ensures a + (x + b) == a + x + b
  {
  }

  lemma Regroup3<T>(p: seq<T>, b: seq<T>, q: seq<T>, c: seq<T>)
    ensures p + (b + q + c) == p + b + q + c
  {
  }

  lemma EmptyPrefix<T>(x: seq<T>)
    ensures [] + x == x
  {
  }

  lemma HeadAndTail<T>(s: seq<T>)
    requires s != []
    ensures [s[0]] + s[1..] == s
  {
  }

  lemma EmptySuffix<T>(x: seq<T>)
    ensures x + [] == x
  {
  }

  lemma DropFirst<T>(c: T, x: seq<T>)
    ensures ([c] + x)[1..] == x
  {
  }

  lemma QuoteRegroup<T>(q: T, a: seq<T>, b: seq<T>)
    ensures [q] + (a + [q] + b) + [q] == [q] + (a + ([q] + (b + [q])))
  {
  }

  lemma PrefixAfterHead<T>(t: seq<T>, q: nat)
    requires 1 <= q <= |t|
    ensures t[..q] == [t[0]] + t[1..][..q - 1]
  {
  }

  /** Splitting the first element off a concatenation. */
  lemma ConcatTail<T>(a: seq<T>, x: seq<T>)
    requires a != []
    ensures (a + x)[1..] == a[1..] + x && [a[0]] + (a[1..] + x) == a + x
  {
    assert (a + x)[1..] == a[1..] + x;
  }

  /** Plain text in front of a literal's body is read as itself. */
  lemma {:induction false} ParsePlainPrefix(a: string, x: string, s: string, rest: string)
    requires PlainText(a)
    requires ParseChars(x) == Some((s, rest))
    ensures ParseChars(a + x) == Some((a + s, rest))
  {
    if a != [] {
      assert PlainText(a[1..]) by {
        forall i | 0 <= i < |a[1..]| ensures a[1..][i] == a[i + 1] { }
      }
      ParsePlainPrefix(a[1..], x, s, rest);
      assert (a + x)[0] == a[0] && a[0] != '"' && a[0] != '\\' && a[0] >= ' ';
      ConcatTail(a, x);
      ConcatTail(a, s);
      CharsPlainStep(a + x, a[1..] + s, rest);
    } else {
      assert a + x == x && a + s == s;
    }
  }

  /** Where a string literal ends: reading `t` as a literal's body stops at a
      quote at index `q`, and decodes to at most `q` characters; exactly `q`
      only when the body contains no escape, so that it reads as itself and
      is plain text. */
  lemma {:induction false} ParseCharsShape(t: string)
    requires ParseChars(t).Some?
    ensures var s, r := ParseChars(t).value.0, ParseChars(t).value.1;
      var q := |t| - |r| - 1;
      && 0 <= q && t[q] == '"' && t[q + 1..] == r && |s| <= q
      && (|s| == q ==> s == t[..q] && PlainText(s))
    decreases |t|
  {
    if t[0] == '"' {
    } else if t[0] == '\\' {
      var e := ParseEscape(t[1..]).value;
      ParseCharsShape(e.1);
    } else {
      ParseCharsShape(t[1..]);
      var s1 := ParseChars(t[1..]).value.0;
      var s := ParseChars(t).value.0;
      assert s == [t[0]] + s1;
      var r := ParseChars(t).value.1;
      var q := |t| - |r| - 1;
      if |s| == q {
        PrefixAfterHead(t, q);
      }
    }
  }

  /** The only-if half for a literal whose closing quote can only be the one
      right after `p`: if the body reads back as `p`, then `p` was plain. */
  lemma ReadBackMeansPlain(p: string, tail: string, r: string)
    requires forall i :: 0 <= i < |tail| ==> tail[i] != '"'
    requires ParseChars(p + "\"" + tail) == Some((p, r))
    ensures PlainText(p) && r == tail
  {
    var t := p + "\"" + tail;
    ParseCharsShape(t);
    var q := |t| - |r| - 1;
    assert t[..|p|] == p;
    assert t[|p| + 1..] == tail;
  }

  /** Decimal digits of a natural number, most significant first, without
      leading zeros. */
  function Digits(n: nat): (ds: string)
    ensures |ds| >= 1
    ensures forall i :: 0 <= i < |ds| ==> IsDigit(ds[i])
    ensures ds[0] == '0' ==> n == 0 && |ds| == 1
  {
    if n < 10 then [(n + '0' as int) as char]
    else Digits(n / 10) + [((n % 10) + '0' as int) as char]
  }

  lemma {:induction false} DigitsValueOfDigits(n: nat)
    ensures DigitsValue(Digits(n)) == n
  {
    if n >= 10 {
      var ds := Digits(n);
      assert ds[..|ds| - 1] == Digits(n / 10);
      DigitsValueOfDigits(n / 10);
    }
  }

  lemma {:induction false} DigitPrefixOf(ds: string, rest: string)
    requires forall i :: 0 <= i < |ds| ==> IsDigit(ds[i])
    requires rest == [] || !IsDigit(rest[0])
    ensures DigitPrefix(ds + rest) == ds
  {
    if ds != [] {
      assert (ds + rest)[1..] == ds[1..] + rest;
      DigitPrefixOf(ds[1..], rest);
    }
  }

  /** strconv.Itoa: the decimal form of an integer, with a minus sign when negative. */
  function Itoa(n: int): (s: string)
    ensures |s| >= 1 && (IsDigit(s[0]) || s[0] == '-')
    ensures forall i :: 0 <= i < |s| ==> IsDigit(s[i]) || s[i] == '-'
  {
    if n < 0 then "-" + Digits(-n) else Digits(n)
  }

  /** Itoa's text reads back as the same integer. */
  lemma ParseItoa(n: int, rest: string)
    requires rest == [] || !IsDigit(rest[0])
    ensures ParseNumber(Itoa(n) + rest) == Some((n, rest))
  {
    var m: nat := if n < 0 then -n else n;
    var ds := Digits(m);
    DigitPrefixOf(ds, rest);
    DigitsValueOfDigits(m);
    if n < 0 {
      var t := "-" + ds + rest;
      assert t[1..] == ds + rest;
      assert Itoa(n) + rest == t;
    } else {
      assert Itoa(n) + rest == ds + rest;
    }
  }
}
