/**
 * An explicit descriptor for the Go structs the decoder fills, in place of
 * reflection: a record is a sequence of fields, each with its declared name,
 * whether it is exported, its kind and its current value.  The kinds are the
 * ones `readBuiltinType` distinguishes.
 */
module Records {
  import opened Wrappers
  import opened Strconv

  /** The kind of a struct field, as the decoder's type switch sees it. */
  datatype Kind =
    | BoolKind
    | IntKind                                          // int and int64
    | UintKind                                         // uint and uint64
    | FloatKind                                        // float32 and float64
    | StringKind
    | ArrayKind                                        // a fixed-size array: accepted and left alone
    | ListKind(ofPointers: bool, elem: seq<FieldDecl>) // a slice of *T (ofPointers) or of T, T a struct
    | OtherKind                                        // map, struct, pointer, interface, ...: unsupported

  /** One field of a struct type. */
  datatype FieldDecl = FieldDecl(name: string, exported: bool, kind: Kind)

  /**
   * The value of a field.  Arrays and unsupported kinds are never written by
   * the decoder, so their contents are not modelled.
   */
  datatype Value =
    | BoolVal(b: bool)
    | IntVal(i: int)
    | UintVal(u: nat)
    | FloatVal(bits: bv64)
    | StringVal(s: string)
    | ListVal(items: seq<Record>)
    | Untracked

  /** A field of a struct value: its declaration and its current value. */
  datatype Slot = Slot(decl: FieldDecl, value: Value)

  /** A struct value. */
  datatype Record = Record(slots: seq<Slot>)

  /** `value` is a value of kind `k`, 64-bit ranges included, and list items fit the element struct. */
  predicate HasKind(v: Value, k: Kind)
    decreases v
  {
    match k
    case BoolKind => v.BoolVal?
    case IntKind => v.IntVal? && MinInt64 <= v.i <= MaxInt64
    case UintKind => v.UintVal? && v.u <= MaxUint64
    case FloatKind => v.FloatVal?
    case StringKind => v.StringVal?
    case ListKind(_, elem) => v.ListVal? && forall j :: 0 <= j < |v.items| ==> Fits(v.items[j], elem)
    case ArrayKind => v.Untracked?
    case OtherKind => v.Untracked?
  }

  /** `r` is a value of the struct type whose fields are `shape`. */
  predicate Fits(r: Record, shape: seq<FieldDecl>)
    decreases r
  {
    |r.slots| == |shape| &&
    forall i :: 0 <= i < |shape| ==> r.slots[i].decl == shape[i] && HasKind(r.slots[i].value, shape[i].kind)
  }

  /** Go's zero value of a field of kind `k`: false, 0, "" or a nil slice. */
  function ZeroValue(k: Kind): (v: Value)
    ensures HasKind(v, k)
  {
    match k
    case BoolKind => BoolVal(false)
    case IntKind => IntVal(0)
    case UintKind => UintVal(0)
    case FloatKind => FloatVal(0)
    case StringKind => StringVal("")
    case ListKind(_, _) => ListVal([])
    case ArrayKind => Untracked
    case OtherKind => Untracked
  }

  /** What `reflect.New(T)` points at: the struct with every field at its zero value. */
  function Zero(shape: seq<FieldDecl>): (r: Record)
    ensures Fits(r, shape)
    ensures forall i :: 0 <= i < |shape| ==> r.slots[i].value == ZeroValue(shape[i].kind)
  {
    Record(seq(|shape|, i requires 0 <= i < |shape| => Slot(shape[i], ZeroValue(shape[i].kind))))
  }

  /** `reflect.Value.FieldByName`: the position of the first field called `name`, if any. */
  function FieldByName(r: Record, name: string): (f: Option<nat>)
    ensures f.Some? ==> f.value < |r.slots| && r.slots[f.value].decl.name == name
    ensures f.Some? ==> forall i :: 0 <= i < f.value ==> r.slots[i].decl.name != name
    ensures f.None? <==> forall i :: 0 <= i < |r.slots| ==> r.slots[i].decl.name != name
    decreases |r.slots|
  {
    if r.slots == [] then None
    else if r.slots[0].decl.name == name then Some(0)
    else match FieldByName(Record(r.slots[1..]), name)
      case None => None
      case Some(i) => Some(i + 1)
  }

  /** The record with field `f` set to `v` and every other field as it was. */
  function SetField(r: Record, f: nat, v: Value): (r': Record)
    requires f < |r.slots|
    ensures |r'.slots| == |r.slots| && r'.slots[f] == Slot(r.slots[f].decl, v)
    ensures forall i :: 0 <= i < |r.slots| && i != f ==> r'.slots[i] == r.slots[i]
  {
    Record(r.slots[f := r.slots[f].(value := v)])
  }

  /** Writing a value of the field's kind keeps a record a value of its struct type. */
  lemma SetFieldFits(r: Record, shape: seq<FieldDecl>, f: nat, v: Value)
    requires Fits(r, shape) && f < |shape| && HasKind(v, shape[f].kind)
    ensures Fits(SetField(r, f, v), shape)
  {
    var r' := SetField(r, f, v);
    forall i | 0 <= i < |shape| ensures r'.slots[i].decl == shape[i] && HasKind(r'.slots[i].value, shape[i].kind) {
      if i == f {} else {}
    }
  }
}
