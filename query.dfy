/** The query descriptor of protocol/query/query.go and the JSON object it
    marshals to: every generator entry, then each scalar option only when it
    differs from its default. */
module Query {
  import opened Json
  import opened Expression
  import opened Fields
  import ExpressionLayout

  type Case = int
  const CaseSensitive: Case := 0
  const CaseInsensitive: Case := 1

  datatype Query = Query(
    generators: map<string, Json>,
    expression: Option<Term>,
    fields: Slice<Field>,
    dedupResults: bool,
    relativeRoot: string,
    syncTimeout: int,
    lockTimeout: int,
    caseMode: Case)

  /** Go's zero Query. */
  const ZeroQuery: Query := Query(map[], None, Nil, false, "", 0, 0, CaseSensitive)

  /** One conditional write `if present { res[key] = value }` of MarshalJSON. */
  datatype Write = Write(present: bool, key: string, value: Json)

  /** query.go's seven conditional inserts, one per option: each writes
      only when its option is away from its default. */
  function ExpressionWrite(q: Query): Write {
    Write(q.expression.Some?, "expression", if q.expression.Some? then TermJson(q.expression.value) else JNull)
  }

  function FieldsWrite(q: Query): Write {
    Write(q.fields.Items?, "fields", FieldsJson(q.fields))
  }

  function DedupWrite(q: Query): Write {
    Write(q.dedupResults, "dedup_results", JBool(true))
  }

  function RelativeRootWrite(q: Query): Write {
    Write(q.relativeRoot != "", "relative_root", JStr(q.relativeRoot))
  }

  function SyncTimeoutWrite(q: Query): Write {
    Write(q.syncTimeout != 0, "sync_timeout", JInt(q.syncTimeout))
  }

  function LockTimeoutWrite(q: Query): Write {
    Write(q.lockTimeout != 0, "lock_timeout", JInt(q.lockTimeout))
  }

  function CaseWrite(q: Query): Write {
    Write(q.caseMode != CaseSensitive, "case_sensitive", JBool(false))
  }

  /** MarshalJSON's option writes, in the order the code makes them. */
  function OptionWrites(q: Query): seq<Write> {
    [ExpressionWrite(q), FieldsWrite(q), DedupWrite(q), RelativeRootWrite(q),
     SyncTimeoutWrite(q), LockTimeoutWrite(q), CaseWrite(q)]
  }

  function Apply(m: map<string, Json>, w: Write): map<string, Json> {
    if w.present then m[w.key := w.value] else m
  }

  /** The writes made one after another, each over the result of the last. */
  function ApplyAll(m: map<string, Json>, ws: seq<Write>): map<string, Json>
    decreases |ws|
  {
    if ws == [] then m else ApplyAll(Apply(m, ws[0]), ws[1..])
  }

  /** The keys the writes that happen put in place. */
  function WrittenKeys(ws: seq<Write>): set<string> {
    set i | 0 <= i < |ws| && ws[i].present :: ws[i].key
  }

  /** After the writes the map holds its old keys and every written one. */
  lemma {:induction false} ApplyAllKeys(m: map<string, Json>, ws: seq<Write>)
    ensures ApplyAll(m, ws).Keys == m.Keys + WrittenKeys(ws)
    decreases |ws|
  {
    if ws != [] {
      ApplyAllKeys(Apply(m, ws[0]), ws[1..]);
      var first := if ws[0].present then {ws[0].key} else {};
      forall k ensures k in WrittenKeys(ws) <==> k in first || k in WrittenKeys(ws[1..]) {
        if k in WrittenKeys(ws) {
          var i :| 0 <= i < |ws| && ws[i].present && ws[i].key == k;
          if i > 0 {
            assert ws[1..][i - 1] == ws[i];
          }
        }
        if k in WrittenKeys(ws[1..]) {
          var i :| 0 <= i < |ws[1..]| && ws[1..][i].present && ws[1..][i].key == k;
          assert ws[i + 1] == ws[1..][i];
        }
      }
    }
  }

  /** A key no write puts in place keeps its old value. */
  lemma {:induction false} ApplyAllKeeps(m: map<string, Json>, ws: seq<Write>, x: string)
    requires x in m
    requires forall j :: 0 <= j < |ws| && ws[j].present ==> ws[j].key != x
    ensures x in ApplyAll(m, ws) && ApplyAll(m, ws)[x] == m[x]
    decreases |ws|
  {
    if ws != [] {
      forall j | 0 <= j < |ws[1..]| && ws[1..][j].present ensures ws[1..][j].key != x {
        assert ws[1..][j] == ws[j + 1];
      }
      ApplyAllKeeps(Apply(m, ws[0]), ws[1..], x);
    }
  }

  /** A write that no later write overwrites decides the key's value. */
  lemma {:induction false} ApplyAllLastWrite(m: map<string, Json>, ws: seq<Write>, i: nat)
    requires i < |ws| && ws[i].present
    requires forall j :: i < j < |ws| && ws[j].present ==> ws[j].key != ws[i].key
    ensures ws[i].key in ApplyAll(m, ws) && ApplyAll(m, ws)[ws[i].key] == ws[i].value
    decreases |ws|
  {
    if i == 0 {
      forall j | 0 <= j < |ws[1..]| && ws[1..][j].present ensures ws[1..][j].key != ws[0].key {
        assert ws[1..][j] == ws[j + 1];
      }
      ApplyAllKeeps(Apply(m, ws[0]), ws[1..], ws[0].key);
    } else {
      assert ws[1..][i - 1] == ws[i];
      forall j | i - 1 < j < |ws[1..]| && ws[1..][j].present ensures ws[1..][j].key != ws[1..][i - 1].key {
        assert ws[1..][j] == ws[j + 1];
      }
      ApplyAllLastWrite(Apply(m, ws[0]), ws[1..], i - 1);
    }
  }

  /** The writes from `i` on: the write at `i`, then the rest. */
  lemma ApplyAllFrom(m: map<string, Json>, ws: seq<Write>, i: nat)
    requires i < |ws|
    ensures ApplyAll(m, ws[i..]) == ApplyAll(Apply(m, ws[i]), ws[i + 1..])
  {
    assert ws[i..][0] == ws[i];
    assert ws[i..][1..] == ws[i + 1..];
  }

  /** Seven writes, spelled out. */
  lemma ApplyAllSeven(m: map<string, Json>, w0: Write, w1: Write, w2: Write, w3: Write, w4: Write, w5: Write, w6: Write)
    ensures ApplyAll(m, [w0, w1, w2, w3, w4, w5, w6])
         == Apply(Apply(Apply(Apply(Apply(Apply(Apply(m, w0), w1), w2), w3), w4), w5), w6)
  {
    var ws := [w0, w1, w2, w3, w4, w5, w6];
    var a1 := Apply(m, ws[0]);
    var a2 := Apply(a1, ws[1]);
    var a3 := Apply(a2, ws[2]);
    var a4 := Apply(a3, ws[3]);
    var a5 := Apply(a4, ws[4]);
    var a6 := Apply(a5, ws[5]);
    assert ws[0..] == ws;
    ApplyAllFrom(m, ws, 0);
    ApplyAllFrom(a1, ws, 1);
    ApplyAllFrom(a2, ws, 2);
    ApplyAllFrom(a3, ws, 3);
    ApplyAllFrom(a4, ws, 4);
    ApplyAllFrom(a5, ws, 5);
    ApplyAllFrom(a6, ws, 6);
    assert ws[7..] == [];
  }

  /** The fixed option keys MarshalJSON writes for `q`. */
  function OptionKeys(q: Query): set<string> {
    WrittenKeys(OptionWrites(q))
  }

  /** The members of the object Query.MarshalJSON produces: the generator
      entries, then the option writes over them in order. Its keys are
      exactly the generator names and the keys of the options that are not
      at their default. */
  function QueryObject(q: Query): (r: map<string, Json>)
    ensures r.Keys == q.generators.Keys + OptionKeys(q)
  {
    ApplyAllKeys(q.generators, OptionWrites(q));
    ApplyAll(q.generators, OptionWrites(q))
  }

  /** The query object is the generator map with the seven inserts made
      over it one after another, in the code's order. */
  lemma QueryObjectInOrder(q: Query)
    ensures QueryObject(q)
         == Apply(Apply(Apply(Apply(Apply(Apply(Apply(q.generators,
              ExpressionWrite(q)), FieldsWrite(q)), DedupWrite(q)), RelativeRootWrite(q)),
              SyncTimeoutWrite(q)), LockTimeoutWrite(q)), CaseWrite(q))
  {
    ApplyAllSeven(q.generators, ExpressionWrite(q), FieldsWrite(q), DedupWrite(q), RelativeRootWrite(q),
                  SyncTimeoutWrite(q), LockTimeoutWrite(q), CaseWrite(q));
  }

  /** Each fixed option key is present exactly when its option is away from
      its default. */
  lemma OptionKeysExactly(q: Query)
    ensures "expression" in OptionKeys(q) <==> q.expression.Some?
    ensures "fields" in OptionKeys(q) <==> q.fields.Items?
    ensures "dedup_results" in OptionKeys(q) <==> q.dedupResults
    ensures "relative_root" in OptionKeys(q) <==> q.relativeRoot != ""
    ensures "sync_timeout" in OptionKeys(q) <==> q.syncTimeout != 0
    ensures "lock_timeout" in OptionKeys(q) <==> q.lockTimeout != 0
    ensures "case_sensitive" in OptionKeys(q) <==> q.caseMode != CaseSensitive
    ensures OptionKeys(q) <= {"expression", "fields", "dedup_results", "relative_root",
                              "sync_timeout", "lock_timeout", "case_sensitive"}
  {
    var ws := OptionWrites(q);
    assert ws[0].key == "expression" && ws[1].key == "fields" && ws[2].key == "dedup_results";
    assert ws[3].key == "relative_root" && ws[4].key == "sync_timeout";
    assert ws[5].key == "lock_timeout" && ws[6].key == "case_sensitive";
  }

  /** One conditional insert `if present { res[key] = value }`. */
  method Insert(res: map<string, Json>, present: bool, key: string, value: Json)
    returns (res': map<string, Json>)
    ensures res' == Apply(res, Write(present, key, value))
  {
    res' := res;
    if present {
      res' := res'[key := value];
    }
  }

  /** Query.MarshalJSON as the Go code fills `res`: a loop copying every
      generator entry, then one conditional insert per option. */
  method MarshalQuery(q: Query) returns (r: Json)
    ensures r == JObj(QueryObject(q))
  {
    var res := CopyGenerators(q.generators);
    ghost var m0 := res;
    if q.expression.Some? {
      var e := MarshalTerm(q.expression.value);
      res := res["expression" := e];
    }
    assert res == Apply(m0, ExpressionWrite(q));
    res := Insert(res, q.fields.Items?, "fields", FieldsJson(q.fields));
    res := Insert(res, q.dedupResults, "dedup_results", JBool(true));
    res := Insert(res, q.relativeRoot != "", "relative_root", JStr(q.relativeRoot));
    res := Insert(res, q.syncTimeout != 0, "sync_timeout", JInt(q.syncTimeout));
    res := Insert(res, q.lockTimeout != 0, "lock_timeout", JInt(q.lockTimeout));
    res := Insert(res, q.caseMode != CaseSensitive, "case_sensitive", JBool(false));
    QueryObjectInOrder(q);
    r := JObj(res);
  }

  /** The `for generator, arg := range q.Generators` loop: every entry is
      copied, whatever order the range visits them in. */
  method CopyGenerators(gens: map<string, Json>) returns (res: map<string, Json>)
    ensures res == gens
  {
    res := map[];
    var pending := gens.Keys;
    while pending != {}
      invariant pending <= gens.Keys
      invariant res.Keys == gens.Keys - pending
      invariant forall g :: g in res ==> res[g] == gens[g]
      decreases pending
    {
      var g :| g in pending;
      res := res[g := gens[g]];
      pending := pending - {g};
    }
  }

  /** No option write overwrites another. */
  lemma OptionWritesDistinct(q: Query)
    ensures var ws := OptionWrites(q);
      |ws| == 7 && forall i, j :: 0 <= i < j < |ws| ==> ws[i].key != ws[j].key
  {
  }

  /** The value under each option key that is present because of its option:
      `dedup_results` is always true and `case_sensitive` always false; the
      others carry the option's own value. */
  lemma OptionValues(q: Query)
    ensures var r := QueryObject(q);
      && (q.expression.Some? ==> "expression" in r && r["expression"] == TermJson(q.expression.value))
      && (q.fields.Items? ==> "fields" in r && r["fields"] == FieldsJson(q.fields))
      && (q.dedupResults ==> "dedup_results" in r && r["dedup_results"] == JBool(true))
      && (q.relativeRoot != "" ==> "relative_root" in r && r["relative_root"] == JStr(q.relativeRoot))
      && (q.syncTimeout != 0 ==> "sync_timeout" in r && r["sync_timeout"] == JInt(q.syncTimeout))
      && (q.lockTimeout != 0 ==> "lock_timeout" in r && r["lock_timeout"] == JInt(q.lockTimeout))
      && (q.caseMode != CaseSensitive ==> "case_sensitive" in r && r["case_sensitive"] == JBool(false))
  {
    var ws := OptionWrites(q);
    OptionWritesDistinct(q);
    forall i | 0 <= i < |ws| && ws[i].present
      ensures ws[i].key in ApplyAll(q.generators, ws) && ApplyAll(q.generators, ws)[ws[i].key] == ws[i].value
    {
      ApplyAllLastWrite(q.generators, ws, i);
    }
    assert ws[0].key == "expression" && ws[1].key == "fields" && ws[2].key == "dedup_results";
    assert ws[3].key == "relative_root" && ws[4].key == "sync_timeout";
    assert ws[5].key == "lock_timeout" && ws[6].key == "case_sensitive";
  }

  /** A generator entry maps the generator's name to its argument unchanged,
      unless a fixed option written later uses the same key. */
  lemma GeneratorEntries(q: Query, g: string)
    requires g in q.generators
    ensures g !in OptionKeys(q) ==> QueryObject(q)[g] == q.generators[g]
  {
    var ws := OptionWrites(q);
    if g !in OptionKeys(q) {
      forall j | 0 <= j < |ws| && ws[j].present ensures ws[j].key != g {
        assert ws[j].key in WrittenKeys(ws);
      }
      ApplyAllKeeps(q.generators, ws, g);
    }
  }

  /** An option's key is in the object exactly when a generator uses that
      name or the option is away from its default, so options at their
      default leave nothing behind. */
  lemma DefaultsElided(q: Query)
    ensures var r := QueryObject(q);
      && ("expression" in r <==> "expression" in q.generators || q.expression.Some?)
      && ("fields" in r <==> "fields" in q.generators || q.fields.Items?)
      && ("dedup_results" in r <==> "dedup_results" in q.generators || q.dedupResults)
      && ("relative_root" in r <==> "relative_root" in q.generators || q.relativeRoot != "")
      && ("sync_timeout" in r <==> "sync_timeout" in q.generators || q.syncTimeout != 0)
      && ("lock_timeout" in r <==> "lock_timeout" in q.generators || q.lockTimeout != 0)
      && ("case_sensitive" in r <==> "case_sensitive" in q.generators || q.caseMode != CaseSensitive)
  {
    OptionKeysExactly(q);
  }

  /** The zero Query marshals to the empty object. */
  lemma ZeroQueryIsEmpty()
    ensures QueryObject(ZeroQuery) == map[]
  {
    QueryObjectInOrder(ZeroQuery);
  }

  /** The test suite's first query: {"sync_timeout": 1000} and nothing else. */
  lemma ExampleSyncTimeout()
    ensures QueryObject(ZeroQuery.(syncTimeout := 1000)) == map["sync_timeout" := JInt(1000)]
  {
    QueryObjectInOrder(ZeroQuery.(syncTimeout := 1000));
  }

  /** The test suite's third query: a suffix generator, an allof expression
      and one field. */
  lemma ExampleSuffixAllofFields()
    ensures QueryObject(ZeroQuery.(
              generators := map["suffix" := JStr("php")],
              expression := Some(Allof([FileType(TFileRegular), Not(Empty), IPcre("test", MatchBaseName)])),
              fields := Items([FName])))
         == map["suffix" := JStr("php"),
                "expression" := JArr([JStr("allof"),
                                      JArr([JStr("type"), JStr("f")]),
                                      JArr([JStr("not"), JStr("empty")]),
                                      JArr([JStr("ipcre"), JStr("test")])]),
                "fields" := JArr([JStr("name")])]
  {
    QueryObjectInOrder(ZeroQuery.(
      generators := map["suffix" := JStr("php")],
      expression := Some(Allof([FileType(TFileRegular), Not(Empty), IPcre("test", MatchBaseName)])),
      fields := Items([FName])));
    ExpressionLayout.ExampleAllof();
    ExampleFieldLists();
  }

  /** The test suite's fourth query: only a field list. */
  lemma ExampleFieldsOnly()
    ensures QueryObject(ZeroQuery.(fields := Items([FName, FExists, FNew, FSize, FMode])))
         == map["fields" := JArr([JStr("name"), JStr("exists"), JStr("new"), JStr("size"), JStr("mode")])]
  {
    var q := ZeroQuery.(fields := Items([FName, FExists, FNew, FSize, FMode]));
    QueryObjectInOrder(q);
    ExampleFieldLists();
  }

  /** The test suite's fifth query: an expression, a field and a sync timeout. */
  lemma ExampleExistsFieldsTimeout()
    ensures QueryObject(ZeroQuery.(expression := Some(Exists), fields := Items([FName]), syncTimeout := 60000))
         == map["expression" := JStr("exists"), "fields" := JArr([JStr("name")]), "sync_timeout" := JInt(60000)]
  {
    var q := ZeroQuery.(expression := Some(Exists), fields := Items([FName]), syncTimeout := 60000);
    QueryObjectInOrder(q);
    ExampleFieldLists();
    assert ExpressionWrite(q) == Write(true, "expression", JStr("exists"));
  }
}
