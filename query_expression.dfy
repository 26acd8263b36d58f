/** The query expression terms of protocol/query/expression.go and the
    positional JSON each one marshals to. Go's open `Term` interface becomes
    the closed datatype `Term`, one constructor per marshaller; the integer
    enumerations stay integers, so values outside the named constants can be
    written, as in Go. */
module Expression {
  import opened Json

  type RelationalOp = int
  const RelLt: RelationalOp := 0
  const RelLe: RelationalOp := 1
  const RelEq: RelationalOp := 2
  const RelNe: RelationalOp := 3
  const RelGt: RelationalOp := 4
  const RelGe: RelationalOp := 5

  const RelationalOpMap: map<RelationalOp, string> :=
    map[RelLt := "lt", RelLe := "le", RelEq := "eq", RelNe := "ne", RelGt := "gt", RelGe := "ge"]

  type MatchType = int
  const MatchBaseName: MatchType := 0
  const MatchWholeName: MatchType := 1

  type MatchFlags = int
  const MatchIncludeDotFiles: MatchFlags := 1
  const MatchNoEscape: MatchFlags := 2

  /** TClockSource has no marshaller: a source travels as its integer code. */
  type ClockSource = int
  const OClock: ClockSource := 0
  const CClock: ClockSource := 1
  const CTime: ClockSource := 2
  const MTime: ClockSource := 3

  /** The file types TFileType names; any other string is a TFileType too. */
  const TFileBlock: string := "b"
  const TFileChar: string := "c"
  const TFileDir: string := "d"
  const TFileRegular: string := "f"
  const TFileFIFO: string := "p"
  const TFileLink: string := "l"
  const TFileSocket: string := "s"
  const TFileSolarisDoor: string := "D"
  const TFileUnknown: string := "?"

  datatype Term =
    | Allof(terms: seq<Term>)
    | Anyof(terms: seq<Term>)
    | Dirname(name: string, op: RelationalOp, depth: int)
    | IDirname(name: string, op: RelationalOp, depth: int)
    | Empty
    | Exists
    | False
    | True
    | Match(glob: string, matchType: MatchType, flags: MatchFlags)
    | IMatch(glob: string, matchType: MatchType, flags: MatchFlags)
    | Name(names: Slice<string>, matchType: MatchType)
    | IName(names: Slice<string>, matchType: MatchType)
    | Not(not: Term)
    | Pcre(regexp: string, matchType: MatchType)
    | IPcre(regexp: string, matchType: MatchType)
    | Since(timestamp: Json, source: ClockSource)
    | Size(op: RelationalOp, size: int)
    | Suffix(suffixes: Slice<string>)
    | FileType(fileType: string)

  /** RelationalOp.MarshalJSON: a lookup in relationalOpMap, where a missing
      key reads as Go's zero string. */
  function OpString(op: RelationalOp): (s: string)
    ensures s == "" <==> !(RelLt <= op <= RelGe)
    ensures op in RelationalOpMap ==> s == RelationalOpMap[op]
  {
    if op in RelationalOpMap then RelationalOpMap[op] else ""
  }

  /** Distinct named operators marshal to distinct strings. */
  lemma OpStringInjective(a: RelationalOp, b: RelationalOp)
    requires RelLt <= a <= RelGe && RelLt <= b <= RelGe
    requires OpString(a) == OpString(b)
    ensures a == b
  {
  }

  /** TMatchType.MarshalJSON: a switch over the two named values; any other
      value leaves the string at its zero value. */
  function MatchTypeString(m: MatchType): (s: string)
    ensures m == MatchBaseName <==> s == "basename"
    ensures m == MatchWholeName <==> s == "wholename"
    ensures s == "" <==> m != MatchBaseName && m != MatchWholeName
  {
    if m == MatchBaseName then "basename"
    else if m == MatchWholeName then "wholename"
    else ""
  }

  /** Bit `k` of a Go int in two's complement: Dafny's `/` and `%` with a
      positive divisor are floor division and modulo, which agree with Go's
      bitwise `&` on negative numbers too. */
  function Bit(x: int, k: nat): bool {
    (x / Pow2(k)) % 2 == 1
  }

  function Pow2(k: nat): (p: nat)
    ensures p >= 1
  {
    if k == 0 then 1 else 2 * Pow2(k - 1)
  }

  /** The flags object of TMatch and TIMatch: one `true` entry per set flag. */
  function FlagsObject(flags: MatchFlags): (m: map<string, Json>)
    ensures m.Keys <= {"includedotfiles", "noescape"}
    ensures "includedotfiles" in m <==> Bit(flags, 0)
    ensures "noescape" in m <==> Bit(flags, 1)
    ensures forall k :: k in m ==> m[k] == JBool(true)
  {
    (if Bit(flags, 0) then map["includedotfiles" := JBool(true)] else map[])
    + (if Bit(flags, 1) then map["noescape" := JBool(true)] else map[])
  }

  /** Arity collapse of TName, TIName and TSuffix: exactly one element
      marshals as that bare string, every other count as the whole list. */
  function NamesJson(names: Slice<string>): (r: Json)
    ensures names.Len() == 1 ==> r == JStr(names.elems[0])
    ensures names.Len() != 1 ==> r == StringsJson(names)
  {
    if names.Len() == 1 then JStr(names.elems[0]) else StringsJson(names)
  }

  /** The operator name each term marshals to, bare or at the head of its array. */
  function Tag(t: Term): string {
    match t
    case Allof(_) => "allof"
    case Anyof(_) => "anyof"
    case Dirname(_, _, _) => "dirname"
    case IDirname(_, _, _) => "idirname"
    case Empty => "empty"
    case Exists => "exists"
    case False => "false"
    case True => "true"
    case Match(_, _, _) => "match"
    case IMatch(_, _, _) => "imatch"
    case Name(_, _) => "name"
    case IName(_, _) => "iname"
    case Not(_) => "not"
    case Pcre(_, _) => "pcre"
    case IPcre(_, _) => "ipcre"
    case Since(_, _) => "since"
    case Size(_, _) => "size"
    case Suffix(_) => "suffix"
    case FileType(_) => "type"
  }

  predicate IsLiteral(t: Term) {
    t.Empty? || t.Exists? || t.False? || t.True?
  }

  function DirnameJson(tag: string, name: string, op: RelationalOp, depth: int): Json {
    JArr([JStr(tag), JStr(name)] + (if op != RelLe && depth != 0 then [JInt(depth)] else []))
  }

  function MatchJson(tag: string, glob: string, matchType: MatchType, flags: MatchFlags): Json {
    JArr([JStr(tag), JStr(glob)]
         + (if matchType != MatchBaseName || flags != 0 then [JStr(MatchTypeString(matchType))] else [])
         + (if flags != 0 then [JObj(FlagsObject(flags))] else []))
  }

  function NameJson(tag: string, names: Slice<string>, matchType: MatchType): Json {
    JArr([JStr(tag), NamesJson(names)]
         + (if matchType != MatchBaseName then [JStr(MatchTypeString(matchType))] else []))
  }

  function PcreJson(tag: string, regexp: string, matchType: MatchType): Json {
    JArr([JStr(tag), JStr(regexp)]
         + (if matchType != MatchBaseName then [JStr(MatchTypeString(matchType))] else []))
  }

  /** The JSON a term marshals to, with TSuffix's list case as evidently
      intended (the list of suffixes as strings); TermJsonAsWritten below is
      the code as it stands. */
  function TermJson(t: Term): (r: Json)
    ensures r.JStr? || r.JArr?
    decreases t
  {
    match t
    case Allof(ts) => JArr([JStr("allof")] + seq(|ts|, i requires 0 <= i < |ts| => TermJson(ts[i])))
    case Anyof(ts) => JArr([JStr("anyof")] + seq(|ts|, i requires 0 <= i < |ts| => TermJson(ts[i])))
    case Dirname(name, op, depth) => DirnameJson("dirname", name, op, depth)
    case IDirname(name, op, depth) => DirnameJson("idirname", name, op, depth)
    case Empty => JStr("empty")
    case Exists => JStr("exists")
    case False => JStr("false")
    case True => JStr("true")
    case Match(glob, mt, flags) => MatchJson("match", glob, mt, flags)
    case IMatch(glob, mt, flags) => MatchJson("imatch", glob, mt, flags)
    case Name(names, mt) => NameJson("name", names, mt)
    case IName(names, mt) => NameJson("iname", names, mt)
    case Not(inner) => JArr([JStr("not"), TermJson(inner)])
    case Pcre(re, mt) => PcreJson("pcre", re, mt)
    case IPcre(re, mt) => PcreJson("ipcre", re, mt)
    case Since(ts, src) => JArr([JStr("since"), ts] + (if src != OClock then [JInt(src)] else []))
    case Size(op, size) => JArr([JStr("size"), JStr(OpString(op)), JInt(size)])
    case Suffix(suffixes) => JArr([JStr("suffix"), NamesJson(suffixes)])
    case FileType(s) => JArr([JStr("type"), JStr(s)])
  }

  /** Whether every suffix term inside `t` has exactly one suffix. */
  predicate SuffixSafe(t: Term)
    decreases t
  {
    match t
    case Allof(ts) => forall i :: 0 <= i < |ts| ==> SuffixSafe(ts[i])
    case Anyof(ts) => forall i :: 0 <= i < |ts| ==> SuffixSafe(ts[i])
    case Not(inner) => SuffixSafe(inner)
    case Suffix(suffixes) => suffixes.Len() == 1
    case _ => true
  }

  /** TSuffix.MarshalJSON as written, given room for `stack` nested
      MarshalJSON calls. With one suffix it is that bare string; otherwise
      `res` holds the TSuffix itself, which json.Marshal marshals by calling
      TSuffix.MarshalJSON on it again. `None` means no result: the stack ran
      out before any call returned. */
  function SuffixAsWritten(suffixes: Slice<string>, stack: nat): (r: Option<Json>)
    ensures r.Some? <==> suffixes.Len() == 1
    ensures r.Some? ==> r.value == JArr([JStr("suffix"), JStr(suffixes.elems[0])])
    decreases stack
  {
    if suffixes.Len() == 1 then Some(JArr([JStr("suffix"), JStr(suffixes.elems[0])]))
    else if stack == 0 then None
    else
      match SuffixAsWritten(suffixes, stack - 1)
      case None => None
      case Some(inner) => Some(JArr([JStr("suffix"), inner]))
  }

  /** Term marshalling as written: as TermJson except that a suffix term
      marshals by SuffixAsWritten, and a term holding one that does not
      return does not return either. */
  function TermJsonAsWritten(t: Term, stack: nat): (r: Option<Json>)
    ensures r.Some? ==> r.value == TermJson(t)
    decreases t, 1
  {
    match t
    case Allof(ts) =>
      (match ChildrenAsWritten(ts, stack)
       case None => None
       case Some(cs) => TaggedChildren(ts, cs); Some(JArr([JStr("allof")] + cs)))
    case Anyof(ts) =>
      (match ChildrenAsWritten(ts, stack)
       case None => None
       case Some(cs) => TaggedChildren(ts, cs); Some(JArr([JStr("anyof")] + cs)))
    case Not(inner) =>
      (match TermJsonAsWritten(inner, stack)
       case None => None
       case Some(c) => Some(JArr([JStr("not"), c])))
    case Suffix(suffixes) => SuffixAsWritten(suffixes, stack)
    case _ => Some(TermJson(t))
  }

  /** Children marshalled one by one, behind the tag, are what TermJson gives. */
  lemma TaggedChildren(ts: seq<Term>, cs: seq<Json>)
    requires |cs| == |ts| && forall i :: 0 <= i < |ts| ==> cs[i] == TermJson(ts[i])
    ensures TermJson(Allof(ts)) == JArr([JStr("allof")] + cs)
    ensures TermJson(Anyof(ts)) == JArr([JStr("anyof")] + cs)
  {
    var ds := seq(|ts|, i requires 0 <= i < |ts| => TermJson(ts[i]));
    assert ds == cs;
    assert TermJson(Allof(ts)).items == [JStr("allof")] + ds;
    assert TermJson(Anyof(ts)).items == [JStr("anyof")] + ds;
  }

  /** The children of allof and anyof, marshalled in order as written. */
  function ChildrenAsWritten(ts: seq<Term>, stack: nat): (r: Option<seq<Json>>)
    ensures r.Some? ==> |r.value| == |ts| && forall i :: 0 <= i < |ts| ==> r.value[i] == TermJson(ts[i])
    decreases ts, 0
  {
    if ts == [] then Some([])
    else
      match TermJsonAsWritten(ts[0], stack)
      case None => None
      case Some(c) =>
        match ChildrenAsWritten(ts[1..], stack)
        case None => None
        case Some(cs) => Some([c] + cs)
  }

  /** MarshalJSON of every term, written as the Go code builds `res`: start
      with the fixed slots, append the children of allof and anyof one by one
      in a loop, append each optional trailing slot only when its condition
      holds. */
  method MarshalTerm(t: Term) returns (r: Json)
    ensures r == TermJson(t)
    decreases t
  {
    match t
    case Allof(ts) =>
      r := MarshalChildren("allof", ts);
    case Anyof(ts) =>
      r := MarshalChildren("anyof", ts);
    case Dirname(name, op, depth) =>
      r := MarshalDirname("dirname", name, op, depth);
    case IDirname(name, op, depth) =>
      r := MarshalDirname("idirname", name, op, depth);
    case Empty =>
      r := JStr("empty");
    case Exists =>
      r := JStr("exists");
    case False =>
      r := JStr("false");
    case True =>
      r := JStr("true");
    case Match(glob, mt, flags) =>
      r := MarshalMatch("match", glob, mt, flags);
    case IMatch(glob, mt, flags) =>
      r := MarshalMatch("imatch", glob, mt, flags);
    case Name(names, mt) =>
      r := MarshalName("name", names, mt);
    case IName(names, mt) =>
      r := MarshalName("iname", names, mt);
    case Not(inner) =>
      var c := MarshalTerm(inner);
      r := JArr([JStr("not"), c]);
    case Pcre(re, mt) =>
      r := MarshalPcre("pcre", re, mt);
    case IPcre(re, mt) =>
      r := MarshalPcre("ipcre", re, mt);
    case Since(stamp, src) =>
      var res := [JStr("since"), stamp];
      if src != OClock {
        res := res + [JInt(src)];
      }
      r := JArr(res);
    case Size(op, size) =>
      r := JArr([JStr("size"), JStr(OpString(op)), JInt(size)]);
    case Suffix(suffixes) =>
      var res := [JStr("suffix")];
      if suffixes.Len() == 1 {
        res := res + [JStr(suffixes.elems[0])];
      } else {
        res := res + [StringsJson(suffixes)];
      }
      r := JArr(res);
    case FileType(s) =>
      r := JArr([JStr("type"), JStr(s)]);
  }

  /** TAllof and TAnyof: the tag, then every child in order. */
  method MarshalChildren(tag: string, ts: seq<Term>) returns (r: Json)
    requires tag == "allof" || tag == "anyof"
    ensures tag == "allof" ==> r == TermJson(Allof(ts))
    ensures tag == "anyof" ==> r == TermJson(Anyof(ts))
    decreases ts, 0
  {
    var res := [JStr(tag)];
    var i := 0;
    while i < |ts|
      invariant 0 <= i <= |ts|
      invariant |res| == i + 1 && res[0] == JStr(tag)
      invariant forall k :: 0 <= k < i ==> res[k + 1] == TermJson(ts[k])
    {
      var c := MarshalTerm(ts[i]);
      res := res + [c];
      i := i + 1;
    }
    r := JArr(res);
  }

  method MarshalDirname(tag: string, name: string, op: RelationalOp, depth: int) returns (r: Json)
    ensures r == DirnameJson(tag, name, op, depth)
  {
    var res := [JStr(tag), JStr(name)];
    if op != RelLe && depth != 0 {
      res := res + [JInt(depth)];
    }
    r := JArr(res);
  }

  method MarshalMatch(tag: string, glob: string, mt: MatchType, flags: MatchFlags) returns (r: Json)
    ensures r == MatchJson(tag, glob, mt, flags)
  {
    var res := [JStr(tag), JStr(glob)];
    if mt != MatchBaseName || flags != 0 {
      res := res + [JStr(MatchTypeString(mt))];
    }
    if flags != 0 {
      var f: map<string, Json> := map[];
      if Bit(flags, 0) {
        f := f["includedotfiles" := JBool(true)];
      }
      if Bit(flags, 1) {
        f := f["noescape" := JBool(true)];
      }
      assert f == FlagsObject(flags);
      res := res + [JObj(f)];
    }
    r := JArr(res);
  }

  method MarshalName(tag: string, names: Slice<string>, mt: MatchType) returns (r: Json)
    ensures r == NameJson(tag, names, mt)
  {
    var res := [JStr(tag)];
    if names.Len() == 1 {
      res := res + [JStr(names.elems[0])];
    } else {
      res := res + [StringsJson(names)];
    }
    if mt != MatchBaseName {
      res := res + [JStr(MatchTypeString(mt))];
    }
    r := JArr(res);
  }

  method MarshalPcre(tag: string, re: string, mt: MatchType) returns (r: Json)
    ensures r == PcreJson(tag, re, mt)
  {
    var res := [JStr(tag), JStr(re)];
    if mt != MatchBaseName {
      res := res + [JStr(MatchTypeString(mt))];
    }
    r := JArr(res);
  }
}

/** What the marshalled form of each term promises, stated on TermJson. */
module ExpressionLayout {
  import opened Json
  import opened Expression

  /** Every term yields its operator name, either as a bare string (the four
      literals) or at the head of an array; only allof and anyof grow with
      their input, every other array has two to four slots. */
  lemma TermJsonShape(t: Term)
    ensures var r := TermJson(t);
      && (r.JStr? || r.JArr?)
      && (r.JStr? <==> IsLiteral(t))
      && (r.JStr? ==> r == JStr(Tag(t)))
      && (r.JArr? ==> 1 <= |r.items| && r.items[0] == JStr(Tag(t)))
      && (r.JArr? && !t.Allof? && !t.Anyof? ==> 2 <= |r.items| <= 4)
  {
  }

  /** allof and anyof: the tag, then each child's marshalled form in the
      original order, one slot per child. */
  lemma ChildrenLayout(ts: seq<Term>)
    ensures var r := TermJson(Allof(ts));
      r.JArr? && |r.items| == 1 + |ts| && r.items[0] == JStr("allof")
      && forall i :: 0 <= i < |ts| ==> r.items[i + 1] == TermJson(ts[i])
    ensures var r := TermJson(Anyof(ts));
      r.JArr? && |r.items| == 1 + |ts| && r.items[0] == JStr("anyof")
      && forall i :: 0 <= i < |ts| ==> r.items[i + 1] == TermJson(ts[i])
  {
    var cs := seq(|ts|, i requires 0 <= i < |ts| => TermJson(ts[i]));
    assert TermJson(Allof(ts)).items == [JStr("allof")] + cs;
    assert TermJson(Anyof(ts)).items == [JStr("anyof")] + cs;
  }

  /** Arity collapse loses nothing: the second slot of name, iname and suffix
      determines the name list, nil and empty included. */
  lemma NamesJsonInjective(a: Slice<string>, b: Slice<string>)
    requires NamesJson(a) == NamesJson(b)
    ensures a == b
  {
    if a.Len() == 1 && b.Len() == 1 {
      assert a.elems == [a.elems[0]];
      assert b.elems == [b.elems[0]];
    } else if a.Len() != 1 && b.Len() != 1 {
      StringsJsonInjective(a, b);
    }
  }

  /** name and iname: a bare string for exactly one name, the list (or null
      for a nil list) otherwise; the match type is a third slot only when it
      is not basename. */
  lemma NameLayout(names: Slice<string>, mt: MatchType)
    ensures var r := TermJson(Name(names, mt));
      r.JArr? && r.items[..2] == [JStr("name"), NamesJson(names)]
      && (mt == MatchBaseName <==> |r.items| == 2)
      && (mt != MatchBaseName ==> r.items == [JStr("name"), NamesJson(names), JStr(MatchTypeString(mt))])
    ensures var r := TermJson(IName(names, mt));
      r.JArr? && r.items[..2] == [JStr("iname"), NamesJson(names)]
      && (mt == MatchBaseName <==> |r.items| == 2)
      && (mt != MatchBaseName ==> r.items == [JStr("iname"), NamesJson(names), JStr(MatchTypeString(mt))])
    ensures (TermJson(Name(names, mt)).items[1].JStr? <==> names.Len() == 1)
  {
  }

  /** suffix: the same arity collapse and no other slot. */
  lemma SuffixLayout(suffixes: Slice<string>)
    ensures TermJson(Suffix(suffixes)) == JArr([JStr("suffix"), NamesJson(suffixes)])
    ensures TermJson(Suffix(suffixes)).items[1].JStr? <==> suffixes.Len() == 1
  {
  }

  /** The code as written marshals a term iff each suffix term in it has one
      suffix, and then it agrees with the corrected marshaller. */
  lemma {:induction false} TermAsWrittenIffSafe(t: Term, stack: nat)
    ensures TermJsonAsWritten(t, stack).Some? <==> SuffixSafe(t)
    ensures SuffixSafe(t) ==> TermJsonAsWritten(t, stack) == Some(TermJson(t))
    decreases t, 1
  {
    match t
    case Allof(ts) =>
      AllofAsWrittenIffSafe(ts, stack);
    case Anyof(ts) =>
      AnyofAsWrittenIffSafe(ts, stack);
    case Not(inner) =>
      TermAsWrittenIffSafe(inner, stack);
    case _ =>
  }

  /** allof as written: it marshals iff every child does. */
  lemma {:induction false} AllofAsWrittenIffSafe(ts: seq<Term>, stack: nat)
    ensures TermJsonAsWritten(Allof(ts), stack).Some? <==> SuffixSafe(Allof(ts))
    ensures SuffixSafe(Allof(ts)) ==> TermJsonAsWritten(Allof(ts), stack) == Some(TermJson(Allof(ts)))
    decreases ts, 1
  {
    ChildrenAsWrittenIffSafe(ts, stack);
  }

  /** anyof as written: it marshals iff every child does. */
  lemma {:induction false} AnyofAsWrittenIffSafe(ts: seq<Term>, stack: nat)
    ensures TermJsonAsWritten(Anyof(ts), stack).Some? <==> SuffixSafe(Anyof(ts))
    ensures SuffixSafe(Anyof(ts)) ==> TermJsonAsWritten(Anyof(ts), stack) == Some(TermJson(Anyof(ts)))
    decreases ts, 1
  {
    ChildrenAsWrittenIffSafe(ts, stack);
  }

  /** The same for a list of children, element by element. */
  lemma {:induction false} ChildrenAsWrittenIffSafe(ts: seq<Term>, stack: nat)
    ensures ChildrenAsWritten(ts, stack).Some? <==> forall i :: 0 <= i < |ts| ==> SuffixSafe(ts[i])
    ensures ChildrenAsWritten(ts, stack).Some? ==>
      var cs := ChildrenAsWritten(ts, stack).value;
      |cs| == |ts| && forall i :: 0 <= i < |ts| ==> cs[i] == TermJson(ts[i])
    decreases ts, 0
  {
    if ts != [] {
      TermAsWrittenIffSafe(ts[0], stack);
      ChildrenAsWrittenIffSafe(ts[1..], stack);
      assert forall i :: 0 <= i < |ts[1..]| ==> ts[1..][i] == ts[i + 1];
      if !forall i :: 0 <= i < |ts| ==> SuffixSafe(ts[i]) {
        var k :| 0 <= k < |ts| && !SuffixSafe(ts[k]);
        if k > 0 {
          assert !SuffixSafe(ts[1..][k - 1]);
        }
      }
    }
  }

  /** The counterexample: `TSuffix{"a", "b"}` never marshals as written,
      while the corrected marshaller gives the list of both suffixes. */
  lemma TwoSuffixesNeverMarshal(stack: nat)
    ensures TermJsonAsWritten(Suffix(Items(["a", "b"])), stack) == None
    ensures TermJson(Suffix(Items(["a", "b"]))) == JArr([JStr("suffix"), JArr([JStr("a"), JStr("b")])])
  {
    assert NamesJson(Items(["a", "b"])).items == [JStr("a"), JStr("b")];
  }

  /** pcre and ipcre: the match type is a third slot only when it is not basename. */
  lemma PcreLayout(re: string, mt: MatchType)
    ensures |TermJson(Pcre(re, mt)).items| == 2 <==> mt == MatchBaseName
    ensures |TermJson(IPcre(re, mt)).items| == 2 <==> mt == MatchBaseName
    ensures TermJson(Pcre(re, mt)).items ==
      [JStr("pcre"), JStr(re)] + (if mt == MatchBaseName then [] else [JStr(MatchTypeString(mt))])
    ensures TermJson(IPcre(re, mt)).items ==
      [JStr("ipcre"), JStr(re)] + (if mt == MatchBaseName then [] else [JStr(MatchTypeString(mt))])
  {
  }

  /** match and imatch: the match-type slot appears iff the type is not
      basename or some flag is set; the flags object appears iff the flags are
      non-zero, always after the match-type slot, and holds `true` under
      exactly the names of the two flag bits that are set. */
  lemma MatchLayout(glob: string, mt: MatchType, flags: MatchFlags, insensitive: bool)
    ensures var r := TermJson(if insensitive then IMatch(glob, mt, flags) else Match(glob, mt, flags));
      && r.JArr?
      && r.items[..2] == [JStr(if insensitive then "imatch" else "match"), JStr(glob)]
      && (|r.items| > 2 <==> mt != MatchBaseName || flags != 0)
      && (|r.items| > 2 ==> r.items[2] == JStr(MatchTypeString(mt)))
      && (|r.items| == 4 <==> flags != 0)
      && (flags != 0 ==>
            && r.items[3].JObj?
            && r.items[3].members.Keys ==
               (if Bit(flags, 0) then {"includedotfiles"} else {})
               + (if Bit(flags, 1) then {"noescape"} else {})
            && forall k :: k in r.items[3].members ==> r.items[3].members[k] == JBool(true))
  {
    var f := FlagsObject(flags);
    assert f.Keys == (if Bit(flags, 0) then {"includedotfiles"} else {})
                     + (if Bit(flags, 1) then {"noescape"} else {});
  }

  /** The named flag constants are the two bits the flags object reads. */
  lemma FlagConstants()
    ensures Bit(MatchIncludeDotFiles, 0) && !Bit(MatchIncludeDotFiles, 1)
    ensures !Bit(MatchNoEscape, 0) && Bit(MatchNoEscape, 1)
    ensures FlagsObject(MatchIncludeDotFiles + MatchNoEscape)
            == map["includedotfiles" := JBool(true), "noescape" := JBool(true)]
  {
  }

  /** dirname and idirname never marshal their operator: two terms that differ
      only in the operator marshal identically unless exactly one of the
      operators is `le` and the depth is non-zero. */
  lemma DirnameIgnoresOp(name: string, op1: RelationalOp, op2: RelationalOp, depth: int)
    requires (op1 == RelLe) == (op2 == RelLe) || depth == 0
    ensures TermJson(Dirname(name, op1, depth)) == TermJson(Dirname(name, op2, depth))
    ensures TermJson(IDirname(name, op1, depth)) == TermJson(IDirname(name, op2, depth))
  {
  }

  /** dirname and idirname: the depth is a third slot iff the operator is not
      `le` AND the depth is non-zero. */
  lemma DirnameLayout(name: string, op: RelationalOp, depth: int)
    ensures var r := TermJson(Dirname(name, op, depth));
      r.JArr? && r.items[..2] == [JStr("dirname"), JStr(name)]
      && (|r.items| == 3 <==> op != RelLe && depth != 0)
      && (|r.items| == 2 || r.items[2] == JInt(depth))
    ensures var r := TermJson(IDirname(name, op, depth));
      r.JArr? && r.items[..2] == [JStr("idirname"), JStr(name)]
      && (|r.items| == 3 <==> op != RelLe && depth != 0)
      && (|r.items| == 2 || r.items[2] == JInt(depth))
  {
  }

  /** size: always three slots, no elision; an unnamed operator marshals as "". */
  lemma SizeLayout(op: RelationalOp, size: int)
    ensures TermJson(Size(op, size)) == JArr([JStr("size"), JStr(OpString(op)), JInt(size)])
    ensures !(RelLt <= op <= RelGe) ==> TermJson(Size(op, size)).items[1] == JStr("")
  {
  }

  /** since: the timestamp is passed through untouched; the clock source is a
      third slot, as its integer code, iff it is not oclock. */
  lemma SinceLayout(stamp: Json, src: ClockSource)
    ensures var r := TermJson(Since(stamp, src));
      r.JArr? && r.items[..2] == [JStr("since"), stamp]
      && (|r.items| == 2 <==> src == OClock)
      && (src != OClock ==> r.items[2] == JInt(src))
  {
  }

  /** The four literals are bare strings. */
  lemma LiteralLayout()
    ensures TermJson(Empty) == JStr("empty") && TermJson(Exists) == JStr("exists")
    ensures TermJson(False) == JStr("false") && TermJson(True) == JStr("true")
  {
  }

  /** not wraps its child's marshalled form. */
  lemma NotLayout(t: Term)
    ensures TermJson(Not(t)) == JArr([JStr("not"), TermJson(t)])
  {
  }

  /** type wraps its string, whether or not it is one of the named file types. */
  lemma TypeLayout(s: string)
    ensures TermJson(FileType(s)) == JArr([JStr("type"), JStr(s)])
  {
  }

  /** The expression of the test suite's third query. */
  lemma ExampleAllof()
    ensures TermJson(Allof([FileType(TFileRegular), Not(Empty), IPcre("test", MatchBaseName)]))
         == JArr([JStr("allof"),
                  JArr([JStr("type"), JStr("f")]),
                  JArr([JStr("not"), JStr("empty")]),
                  JArr([JStr("ipcre"), JStr("test")])])
  {
    var ts := [FileType(TFileRegular), Not(Empty), IPcre("test", MatchBaseName)];
    var cs := [JArr([JStr("type"), JStr("f")]), JArr([JStr("not"), JStr("empty")]), JArr([JStr("ipcre"), JStr("test")])];
    assert TermJson(ts[0]) == cs[0];
    assert TermJson(ts[1]) == cs[1];
    assert TermJson(ts[2]) == cs[2];
    assert seq(|ts|, i requires 0 <= i < |ts| => TermJson(ts[i])) == cs;
  }

  /** The expression of the test suite's second query. */
  lemma ExampleName()
    ensures TermJson(Name(Items(["foo"]), MatchBaseName)) == JArr([JStr("name"), JStr("foo")])
    ensures TermJson(Name(Items(["foo", "bar"]), MatchBaseName))
         == JArr([JStr("name"), JArr([JStr("foo"), JStr("bar")])])
  {
    var two := Items(["foo", "bar"]);
    assert StringsJson(two).items == [JStr("foo"), JStr("bar")];
  }
}
