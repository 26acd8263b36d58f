/** The file fields a query can ask for (protocol/query/fields.go), each with
    the wire string it marshals to. */
module Fields {
  import opened Json

  datatype Field =
    | FName | FExists | FCclock | FOclock
    | FCtime | FCtimeMs | FCtimeUs | FCtimeNs | FCtimeF
    | FMtime | FMtimeMs | FMtimeUs | FMtimeNs | FMtimeF
    | FSize | FMode | FUid | FGid | FIno | FDev | FNlink | FNew | FType
    | FSymlinkTarget | FContentSha1hex
  {
    function Wire(): string {
      match this
      case FName => "name"
      case FExists => "exists"
      case FCclock => "cclock"
      case FOclock => "oclock"
      case FCtime => "ctime"
      case FCtimeMs => "ctime_ms"
      case FCtimeUs => "ctime_us"
      case FCtimeNs => "ctime_ns"
      case FCtimeF => "ctime_f"
      case FMtime => "mtime"
      case FMtimeMs => "mtime_ms"
      case FMtimeUs => "mtime_us"
      case FMtimeNs => "mtime_ns"
      case FMtimeF => "mtime_f"
      case FSize => "size"
      case FMode => "mode"
      case FUid => "uid"
      case FGid => "gid"
      case FIno => "ino"
      case FDev => "dev"
      case FNlink => "nlink"
      case FNew => "new"
      case FType => "type"
      case FSymlinkTarget => "symlink_target"
      case FContentSha1hex => "content.sha1hex"
    }
  }

  /** Distinct fields have distinct wire strings, so a field list can be read
      back from its marshalled form. */
  lemma WireInjective(a: Field, b: Field)
    requires a.Wire() == b.Wire()
    ensures a == b
  {
  }

  /** How a Fields value marshals: nil as null, otherwise the list of wire
      strings in the given order. */
  function FieldsJson(fs: Slice<Field>): (r: Json)
    ensures fs.Nil? <==> r == JNull
    ensures fs.Items? ==> r.JArr? && |r.items| == |fs.elems|
    ensures fs.Items? ==> forall i :: 0 <= i < |fs.elems| ==> r.items[i] == JStr(fs.elems[i].Wire())
  {
    match fs
    case Nil => JNull
    case Items(s) => JArr(seq(|s|, i requires 0 <= i < |s| => JStr(s[i].Wire())))
  }

  /** The marshalled field list determines the field list. */
  lemma FieldsJsonInjective(a: Slice<Field>, b: Slice<Field>)
    requires FieldsJson(a) == FieldsJson(b)
    ensures a == b
  {
    if a.Items? {
      var s, t := a.elems, b.elems;
      forall i | 0 <= i < |s| ensures s[i] == t[i] {
        assert FieldsJson(a).items[i] == JStr(s[i].Wire());
        assert FieldsJson(b).items[i] == JStr(t[i].Wire());
        WireInjective(s[i], t[i]);
      }
    }
  }

  /** The field lists of the query tests. */
  lemma ExampleFieldLists()
    ensures FieldsJson(Items([FName])) == JArr([JStr("name")])
    ensures FieldsJson(Items([FName, FExists, FNew, FSize, FMode]))
         == JArr([JStr("name"), JStr("exists"), JStr("new"), JStr("size"), JStr("mode")])
    ensures FieldsJson(Items([FExists, FName, FType])) == JArr([JStr("exists"), JStr("name"), JStr("type")])
  {
    assert FieldsJson(Items([FName])).items == [JStr("name")];
    assert FieldsJson(Items([FName, FExists, FNew, FSize, FMode])).items
        == [JStr("name"), JStr("exists"), JStr("new"), JStr("size"), JStr("mode")];
    assert FieldsJson(Items([FExists, FName, FType])).items
        == [JStr("exists"), JStr("name"), JStr("type")];
  }
}
