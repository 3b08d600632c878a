/**
 * `RowReader` (xlsx/reader.go): decoding one data row of a sheet into a
 * record.  Each cell is paired with the header cell at the same position,
 * its column is resolved to a field name and a sheet-qualified key, and the
 * cell is handed to a registered custom unmarshaler or, failing that, to the
 * type-directed conversion of the field it names.
 *
 * The row is specified by the pure functions DecodeCell and DecodeFrom; the
 * method RowReader.Read validates its target, allocates the record and runs
 * the cell loop, and is proved to compute DecodeFrom.
 */
module RowReading {
  import opened Wrappers
  import opened Records
  import opened Convert

  /** The type of a Go value, as far as error messages print it. */
  datatype TypeDesc =
    | Named(name: string)     // any type that is not a pointer: "int", "main.Row", "map[string]int", ...
    | PtrTo(elem: TypeDesc)   // a pointer type

  /** How many pointer levels `t` has above its base type. */
  function PointerDepth(t: TypeDesc): nat {
    match t
    case Named(_) => 0
    case PtrTo(elem) => 1 + PointerDepth(elem)
  }

  /** The name of the non-pointer type at the bottom of `t`. */
  function BaseName(t: TypeDesc): string {
    match t
    case Named(name) => name
    case PtrTo(elem) => BaseName(elem)
  }

  /** `n` stars. */
  function Stars(n: nat): string {
    if n == 0 then "" else "*" + Stars(n - 1)
  }

  /** `reflect.Type.String()`. */
  function TypeString(t: TypeDesc): string {
    match t
    case Named(name) => name
    case PtrTo(elem) => "*" + TypeString(elem)
  }

  /** A type prints as one `*` per pointer level, then the name of its base type. */
  lemma {:induction false} TypeStringLayout(t: TypeDesc)
    ensures TypeString(t) == Stars(PointerDepth(t)) + BaseName(t)
  {
    match t
    case Named(name) =>
      assert "" + name == name;
    case PtrTo(elem) =>
      TypeStringLayout(elem);
      assert "*" + (Stars(PointerDepth(elem)) + BaseName(elem)) == Stars(PointerDepth(t)) + BaseName(t);
  }

  /** Type names as Go prints them: a non-pointer type's name is not empty and does not start with '*'. */
  predicate WellNamed(t: TypeDesc) {
    match t
    case Named(name) => name != [] && name[0] != '*'
    case PtrTo(elem) => WellNamed(elem)
  }

  /** The errors `RowReader.Read` returns. */
  datatype Error =
    | InvalidUnmarshal(t: Option<TypeDesc>)          // ErrInvalidUnmarshal; None is a nil reflect.Type
    | CellFailed(col: string, id: int, text: string) // a custom unmarshaler's error, wrapped with the cell
    | CaughtPanic(panic: Panic)                      // a panic turned into an error by the deferred recover

  /** `ErrInvalidUnmarshal.Error()`. */
  function InvalidUnmarshalMessage(t: Option<TypeDesc>): string {
    match t
    case None => "xlsx: Unmarshal(nil)"
    case Some(ty) =>
      if !ty.PtrTo? then "xlsx: Unmarshal(non-pointer " + TypeString(ty) + ")"
      else "xlsx: Unmarshal(nil " + TypeString(ty) + ")"
  }

  /**
   * Every message is "xlsx: Unmarshal(...)"; it is "nil" alone exactly for a
   * nil type, and otherwise ends with the printed type.
   */
  lemma MessageShape(t: Option<TypeDesc>)
    ensures var m := InvalidUnmarshalMessage(t);
      && |m| > 17 && m[..16] == "xlsx: Unmarshal(" && m[|m| - 1] == ')'
      && (t.Some? ==> |TypeString(t.value)| + 17 <= |m| && m[|m| - 1 - |TypeString(t.value)|..|m| - 1] == TypeString(t.value))
      && (m == "xlsx: Unmarshal(nil)" <==> t.None?)
  {
    var m := InvalidUnmarshalMessage(t);
    if t.Some? {
      var ty := t.value;
      var ts := TypeString(ty);
      var p := if !ty.PtrTo? then "xlsx: Unmarshal(non-pointer " else "xlsx: Unmarshal(nil ";
      assert m == p + ts + ")";
      assert m[..16] == p[..16];
      assert m[|m| - 1 - |ts|..|m| - 1] == ts;
      if ty.PtrTo? {
        assert m[20] == '*';
      } else {
        assert m[17] == 'o';
      }
    }
  }

  /** Distinct well-named types print differently. */
  lemma {:induction false} TypeStringInjective(a: TypeDesc, b: TypeDesc)
    requires WellNamed(a) && WellNamed(b) && TypeString(a) == TypeString(b)
    ensures a == b
  {
    match a {
      case Named(x) =>
        match b {
          case Named(_) =>
          case PtrTo(_) =>
        }
      case PtrTo(ea) =>
        match b {
          case Named(_) =>
          case PtrTo(eb) =>
            assert TypeString(ea) == TypeString(a)[1..];
            assert TypeString(eb) == TypeString(b)[1..];
            TypeStringInjective(ea, eb);
        }
    }
  }

  /** The characters that tell the three message forms apart. */
  lemma MessageForm(t: Option<TypeDesc>)
    ensures var m := InvalidUnmarshalMessage(t);
      |m| >= 20 &&
      (t.None? ==> m[17] == 'i' && m[19] == ')') &&
      (t.Some? && t.value.Named? ==> m[17] == 'o') &&
      (t.Some? && t.value.PtrTo? ==> m[17] == 'i' && m[19] == ' ')
  {
  }

  /** The message names the offending type exactly: distinct well-named types give distinct messages. */
  lemma InvalidUnmarshalMessageInjective(a: Option<TypeDesc>, b: Option<TypeDesc>)
    requires a.Some? ==> WellNamed(a.value)
    requires b.Some? ==> WellNamed(b.value)
    requires InvalidUnmarshalMessage(a) == InvalidUnmarshalMessage(b)
    ensures a == b
  {
    MessageForm(a);
    MessageForm(b);
    if a.Some? && b.Some? && a.value.PtrTo? == b.value.PtrTo? {
      var ma, mb := InvalidUnmarshalMessage(a), InvalidUnmarshalMessage(b);
      var sa, sb := TypeString(a.value), TypeString(b.value);
      var p := if a.value.PtrTo? then "xlsx: Unmarshal(nil " else "xlsx: Unmarshal(non-pointer ";
      assert ma == p + sa + ")" && mb == p + sb + ")";
      assert sa == ma[|p|..|ma| - 1];
      assert sb == mb[|p|..|mb| - 1];
      TypeStringInjective(a.value, b.value);
    }
  }

  /** The messages for a nil target and for a value that is not a pointer. */
  lemma InvalidUnmarshalExamples()
    ensures InvalidUnmarshalMessage(None) == "xlsx: Unmarshal(nil)"
    ensures InvalidUnmarshalMessage(Some(Named("main.Row"))) == "xlsx: Unmarshal(non-pointer main.Row)"
  {
    assert TypeString(Named("main.Row")) == "main.Row";
  }

  /** A pointer type's message is "nil" followed by the pointer type. */
  lemma PointerMessage(elem: TypeDesc)
    ensures InvalidUnmarshalMessage(Some(PtrTo(elem))) == "xlsx: Unmarshal(nil *" + TypeString(elem) + ")"
  {
    assert "xlsx: Unmarshal(nil " + ("*" + TypeString(elem)) + ")" == "xlsx: Unmarshal(nil *" + TypeString(elem) + ")";
  }

  /** The message for a nil `*T`. */
  lemma NilPointerMessageExample()
    ensures InvalidUnmarshalMessage(Some(PtrTo(Named("main.Row")))) == "xlsx: Unmarshal(nil *main.Row)"
  {
    PointerMessage(Named("main.Row"));
  }

  /** The message for a pointer to a non-nil `*T`. */
  lemma NonNilPointerMessageExample()
    ensures InvalidUnmarshalMessage(Some(PtrTo(PtrTo(Named("main.Row"))))) == "xlsx: Unmarshal(nil **main.Row)"
  {
    PointerMessage(PtrTo(Named("main.Row")));
    assert TypeString(PtrTo(Named("main.Row"))) == "*main.Row";
  }

  /** A resolved column: the field name cells of the column go to, and the key registries are consulted under. */
  datatype Column = Column(name: string, key: string)

  /** The key of column `name` in sheet `sheet`. */
  function Qualify(sheet: string, name: string): string {
    sheet + "." + name
  }

  /**
   * Column resolution: the header cell qualified by the sheet, unless the
   * rename map holds that key, in which case the mapped name, qualified by
   * the sheet.
   */
  function ResolveColumn(sheet: string, header: string, mapping: map<string, string>): (col: Column)
    ensures col.key == Qualify(sheet, col.name)
    ensures Qualify(sheet, header) in mapping ==> col.name == mapping[Qualify(sheet, header)]
    ensures Qualify(sheet, header) !in mapping ==> col.name == header
  {
    var key := Qualify(sheet, header);
    if key in mapping then Column(mapping[key], Qualify(sheet, mapping[key])) else Column(header, key)
  }

  /** The key ends with the field name, after the sheet and a dot. */
  lemma ColumnKeySuffix(sheet: string, header: string, mapping: map<string, string>)
    ensures var col := ResolveColumn(sheet, header, mapping);
      |col.key| == |sheet| + 1 + |col.name| && col.key[..|sheet|] == sheet && col.key[|sheet|] == '.' &&
      col.key[|sheet| + 1..] == col.name
  {
    var col := ResolveColumn(sheet, header, mapping);
    assert col.key == sheet + "." + col.name;
    assert col.key[|sheet| + 1..] == col.name;
  }

  /** The rename map is applied once: a renamed column is not renamed again, even when its new key is mapped too. */
  lemma RenameAppliedOnce()
    ensures ResolveColumn("S", "a", map["S.a" := "b", "S.b" := "c"]) == Column("b", "S.b")
    ensures ResolveColumn("S", "b", map["S.a" := "b", "S.b" := "c"]) == Column("c", "S.c")
    ensures ResolveColumn("S", "d", map["S.a" := "b", "S.b" := "c"]) == Column("d", "S.d")
  {
    assert Qualify("S", "a") == "S.a";
    assert Qualify("S", "b") == "S.b";
    assert Qualify("S", "c") == "S.c";
    assert Qualify("S", "d") == "S.d";
    assert "S.d" != "S.a" && "S.d" != "S.b";
  }

  /** What a custom unmarshaler leaves in the record, and whether it returned an error. */
  datatype Unmarshaled = Unmarshaled(rec: Record, failed: bool)

  /** A custom unmarshaler (`UnmarshalF`): it gets the record and the cell text. */
  type Unmarshaler = (Record, string) -> Unmarshaled

  /** Everything one row decode depends on. */
  datatype RowConfig = RowConfig(
    sheet: string,
    mapping: map<string, string>,
    unmarshalers: map<string, Unmarshaler>,
    conv: Converter,
    header: seq<string>,
    row: seq<string>,
    id: int)

  /** The outcome of one cell: go on with the record, or stop with the record as it is and an error. */
  datatype Step = Next(rec: Record) | Stop(rec: Record, err: Error)

  /** The column of header cell `i`. */
  function ColumnAt(cfg: RowConfig, i: nat): Column
    requires i < |cfg.header|
  {
    ResolveColumn(cfg.sheet, cfg.header[i], cfg.mapping)
  }

  /**
   * One iteration of the cell loop on cell `i`: a cell past the header
   * panics; a registered unmarshaler takes the cell; otherwise a column that
   * names no field is skipped, and a field is converted by readBuiltinType,
   * which either writes it, leaves it, or panics with the record as it was.
   */
  function DecodeCell(cfg: RowConfig, i: nat, rec: Record): (s: Step)
    requires i < |cfg.row|
    ensures i >= |cfg.header| ==> s == Stop(rec, CaughtPanic(Runtime(IndexOutOfRange)))
    ensures s.Stop? && s.err.CaughtPanic? ==> s.rec == rec
  {
    if i >= |cfg.header| then Stop(rec, CaughtPanic(Runtime(IndexOutOfRange)))
    else
      var col := ColumnAt(cfg, i);
      if col.key in cfg.unmarshalers then
        var u := cfg.unmarshalers[col.key](rec, cfg.row[i]);
        if u.failed then Stop(u.rec, CellFailed(col.name, cfg.id, cfg.row[i])) else Next(u.rec)
      else
        match FieldByName(rec, col.name)
        case None => Next(rec)
        case Some(f) =>
          match Builtin(cfg.conv, col.key, cfg.row[i], rec.slots[f].decl)
          case Assign(v) => Next(SetField(rec, f, v))
          case Leave(_) => Next(rec)
          case Raise(p) => Stop(rec, CaughtPanic(p))
  }

  /** The record a row decode leaves behind, and the error it returns, if any. */
  datatype RowResult = RowResult(rec: Record, err: Option<Error>)

  /** The cell loop from cell `i` on, starting from `rec`. */
  function DecodeFrom(cfg: RowConfig, i: nat, rec: Record): (r: RowResult)
    requires i <= |cfg.row|
    ensures i < |cfg.row| && |cfg.header| < |cfg.row| ==> r.err.Some?
    decreases |cfg.row| - i
  {
    if i == |cfg.row| then RowResult(rec, None)
    else
      match DecodeCell(cfg, i, rec)
      case Next(r) => DecodeFrom(cfg, i + 1, r)
      case Stop(r, e) => RowResult(r, Some(e))
  }

  /** The whole row decoded into a freshly allocated struct of the given shape. */
  function DecodeRow(cfg: RowConfig, shape: seq<FieldDecl>): RowResult {
    DecodeFrom(cfg, 0, Zero(shape))
  }

  /** A registered unmarshaler decides the cell alone: the conversion settings and the field's kind play no part. */
  lemma CustomUnmarshalerWins(cfg: RowConfig, i: nat, rec: Record, conv: Converter)
    requires i < |cfg.row| && i < |cfg.header| && ColumnAt(cfg, i).key in cfg.unmarshalers
    ensures var col := ColumnAt(cfg, i);
      var u := cfg.unmarshalers[col.key](rec, cfg.row[i]);
      DecodeCell(cfg, i, rec) == (if u.failed then Stop(u.rec, CellFailed(col.name, cfg.id, cfg.row[i])) else Next(u.rec))
    ensures DecodeCell(cfg.(conv := conv), i, rec) == DecodeCell(cfg, i, rec)
  {
  }

  /**
   * Cells that leave the record as it was and do not fail the row: a column
   * naming no field, an array field, and a field of an unsupported kind.
   */
  lemma SkippedCells(cfg: RowConfig, i: nat, rec: Record)
    requires i < |cfg.row| && i < |cfg.header| && ColumnAt(cfg, i).key !in cfg.unmarshalers
    requires var f := FieldByName(rec, ColumnAt(cfg, i).name);
      f.None? || rec.slots[f.value].decl.kind in {ArrayKind, OtherKind}
    ensures DecodeCell(cfg, i, rec) == Next(rec)
  {
    var col := ColumnAt(cfg, i);
    match FieldByName(rec, col.name)
    case None =>
    case Some(f) =>
      LeftAlone(cfg.conv, col.key, cfg.row[i], rec.slots[f].decl);
  }

  /**
   * A built-in conversion changes only the field the column names: on
   * success that field holds the converted value and every other is as it
   * was; on a panic the record is untouched.
   */
  lemma BuiltinTouchesOneField(cfg: RowConfig, i: nat, rec: Record)
    requires i < |cfg.row| && i < |cfg.header| && ColumnAt(cfg, i).key !in cfg.unmarshalers
    requires FieldByName(rec, ColumnAt(cfg, i).name).Some?
    ensures var col := ColumnAt(cfg, i);
      var f := FieldByName(rec, col.name).value;
      var o := Builtin(cfg.conv, col.key, cfg.row[i], rec.slots[f].decl);
      && (o.Assign? ==>
            && DecodeCell(cfg, i, rec).Next?
            && DecodeCell(cfg, i, rec).rec.slots[f] == Slot(rec.slots[f].decl, o.value)
            && forall j :: 0 <= j < |rec.slots| && j != f ==> DecodeCell(cfg, i, rec).rec.slots[j] == rec.slots[j])
      && (o.Leave? ==> DecodeCell(cfg, i, rec) == Next(rec))
      && (o.Raise? ==> DecodeCell(cfg, i, rec) == Stop(rec, CaughtPanic(o.panic)))
  {
  }

  /**
   * A list field is replaced, not appended to: what it holds afterwards is
   * the decomposition of the cell alone, which does not depend on what it held
   * before; when the decomposition panics the field keeps its old value.
   */
  lemma ListFieldReplaced(cfg: RowConfig, i: nat, rec: Record)
    requires i < |cfg.row| && i < |cfg.header| && ColumnAt(cfg, i).key !in cfg.unmarshalers
    requires FieldByName(rec, ColumnAt(cfg, i).name).Some?
    requires var f := FieldByName(rec, ColumnAt(cfg, i).name).value;
      rec.slots[f].decl.kind.ListKind? && rec.slots[f].decl.exported && ColumnAt(cfg, i).key in cfg.conv.patterns
    ensures var col := ColumnAt(cfg, i);
      var f := FieldByName(rec, col.name).value;
      var items := Decompose(cfg.conv, col.key, cfg.row[i], rec.slots[f].decl.kind, Strings.Split(cfg.row[i], cfg.conv.split));
      && (items.Ok? ==> DecodeCell(cfg, i, rec) == Next(SetField(rec, f, ListVal(items.value))))
      && (items.Err? ==> DecodeCell(cfg, i, rec) == Stop(rec, CaughtPanic(items.error)))
  {
    var col := ColumnAt(cfg, i);
    var f := FieldByName(rec, col.name).value;
    var decl := rec.slots[f].decl;
    var items := Decompose(cfg.conv, col.key, cfg.row[i], decl.kind, Strings.Split(cfg.row[i], cfg.conv.split));
    ListBuiltin(cfg.conv, col.key, cfg.row[i], decl);
  }

  /** Once a cell fails, the cells after it are never looked at: appending cells to the row changes nothing. */
  lemma {:induction false} FailureIgnoresLaterCells(cfg: RowConfig, i: nat, rec: Record, more: seq<string>)
    requires i <= |cfg.row| && DecodeFrom(cfg, i, rec).err.Some?
    ensures DecodeFrom(cfg.(row := cfg.row + more), i, rec) == DecodeFrom(cfg, i, rec)
    decreases |cfg.row| - i
  {
    var cfg' := cfg.(row := cfg.row + more);
    assert cfg'.row[i] == cfg.row[i];
    assert DecodeCell(cfg', i, rec) == DecodeCell(cfg, i, rec);
    match DecodeCell(cfg, i, rec)
    case Next(r) => FailureIgnoresLaterCells(cfg, i + 1, r, more);
    case Stop(_, _) =>
  }

  /**
   * A row that decodes without error leaves the same record as the cells
   * before it would; appending cells continues from that record.
   */
  lemma {:induction false} SuccessComposes(cfg: RowConfig, i: nat, rec: Record, more: seq<string>)
    requires i <= |cfg.row| && DecodeFrom(cfg, i, rec).err.None?
    ensures DecodeFrom(cfg.(row := cfg.row + more), i, rec)
         == DecodeFrom(cfg.(row := cfg.row + more), |cfg.row|, DecodeFrom(cfg, i, rec).rec)
    decreases |cfg.row| - i
  {
    if i < |cfg.row| {
      var cfg' := cfg.(row := cfg.row + more);
      assert cfg'.row[i] == cfg.row[i];
      assert DecodeCell(cfg', i, rec) == DecodeCell(cfg, i, rec);
      match DecodeCell(cfg, i, rec)
      case Next(r) => SuccessComposes(cfg, i + 1, r, more);
      case Stop(_, _) =>
    }
  }

  /** Every custom unmarshaler leaves a value of the struct type a value of that type. */
  ghost predicate UnmarshalersKeepShape(cfg: RowConfig, shape: seq<FieldDecl>) {
    forall key, r: Record, text: string :: key in cfg.unmarshalers && Fits(r, shape) ==> Fits(cfg.unmarshalers[key](r, text).rec, shape)
  }

  /** One cell keeps the record a value of its struct type. */
  lemma CellKeepsShape(cfg: RowConfig, i: nat, rec: Record, shape: seq<FieldDecl>)
    requires i < |cfg.row| && Fits(rec, shape) && UnmarshalersKeepShape(cfg, shape)
    ensures Fits(DecodeCell(cfg, i, rec).rec, shape)
  {
    if i < |cfg.header| {
      var col := ColumnAt(cfg, i);
      if col.key in cfg.unmarshalers {
        assert Fits(cfg.unmarshalers[col.key](rec, cfg.row[i]).rec, shape);
      } else if FieldByName(rec, col.name).Some? {
        var f := FieldByName(rec, col.name).value;
        var o := Builtin(cfg.conv, col.key, cfg.row[i], rec.slots[f].decl);
        if o.Assign? {
          SetFieldFits(rec, shape, f, o.value);
        }
      }
    }
  }

  /** Decoding a row keeps the record a value of its struct type, whether it succeeds or fails. */
  lemma {:induction false} DecodeKeepsShape(cfg: RowConfig, i: nat, rec: Record, shape: seq<FieldDecl>)
    requires i <= |cfg.row| && Fits(rec, shape) && UnmarshalersKeepShape(cfg, shape)
    ensures Fits(DecodeFrom(cfg, i, rec).rec, shape)
    decreases |cfg.row| - i
  {
    if i < |cfg.row| {
      CellKeepsShape(cfg, i, rec, shape);
      match DecodeCell(cfg, i, rec)
      case Next(r) => DecodeKeepsShape(cfg, i + 1, r, shape);
      case Stop(_, _) =>
    }
  }

  /**
   * Without custom unmarshalers, a field that no column of the remaining
   * cells names keeps its value through the whole row.
   */
  lemma {:induction false} UnnamedFieldUntouched(cfg: RowConfig, i: nat, rec: Record, j: nat)
    requires i <= |cfg.row| && cfg.unmarshalers == map[] && j < |rec.slots|
    requires forall c :: i <= c < |cfg.row| && c < |cfg.header| ==> ColumnAt(cfg, c).name != rec.slots[j].decl.name
    ensures |DecodeFrom(cfg, i, rec).rec.slots| == |rec.slots|
    ensures DecodeFrom(cfg, i, rec).rec.slots[j] == rec.slots[j]
    decreases |cfg.row| - i
  {
    if i < |cfg.row| {
      var s := DecodeCell(cfg, i, rec);
      if i < |cfg.header| {
        var col := ColumnAt(cfg, i);
        match FieldByName(rec, col.name)
        case None =>
        case Some(f) =>
          assert f != j;
      }
      assert |s.rec.slots| == |rec.slots| && s.rec.slots[j] == rec.slots[j];
      if s.Next? {
        UnnamedFieldUntouched(cfg, i + 1, s.rec, j);
      }
    }
  }

  /** A struct variable; `new StructVar(shape)` is `reflect.New` of its type. */
  class StructVar {
    var value: Record

    constructor(shape: seq<FieldDecl>)
      ensures value == Zero(shape)
    {
      value := Zero(shape);
    }
  }

  /** A variable of type `*T`, `T` a struct type with fields `shape`: nil, or pointing to a struct variable. */
  class StructPtrVar {
    const typeName: string
    const shape: seq<FieldDecl>
    var ptr: StructVar?

    constructor(typeName: string, shape: seq<FieldDecl>, ptr: StructVar?)
      ensures this.typeName == typeName && this.shape == shape && this.ptr == ptr
    {
      this.typeName := typeName;
      this.shape := shape;
      this.ptr := ptr;
    }
  }

  /** The variable a target points to, when it is neither a struct nor a `*T` with `T` a struct. */
  datatype OtherVar =
    | NotNilable      // a number, string, array, ...: IsNil panics
    | NonNil          // a non-nil map, slice, pointer, ...: its kind is not a struct
    | NilPtrToOther   // a nil *U, U not a struct: allocated, then rejected because U is not a struct
    | NilWithElem     // a nil map, slice or channel: the fresh *E cannot be stored into it
    | NilWithoutElem  // a nil func or interface: its type has no element type

  /** The argument of `RowReader.Read`. */
  datatype Target =
    | NilInterface                          // nil
    | NonPointer(typeName: string)          // a value that is not a pointer, of the type with this name
    | NilPointer(elem: TypeDesc)            // a nil *elem
    | ToStruct(typeName: string)            // &s, s a struct variable
    | ToStructPtr(p: StructPtrVar)          // &p, p a *T variable, T a struct
    | ToOther(elem: TypeDesc, v: OtherVar)  // &v, v a variable of type elem

  // A `ToOther` target describes a variable that is neither a struct nor a
  // `*T` with T a struct: when `v` is `NilPtrToOther`, `elem` is `PtrTo(u)`
  // with u not a struct type. A nil `*T` with T a struct is `ToStructPtr`,
  // never `ToOther(PtrTo(Named(T)), NilPtrToOther)`.

  /**
   * The error target validation returns before any cell is read, or None
   * when the target is a pointer to a nil `*T`, T a struct, which is the one
   * target a row is decoded into.
   */
  function TargetError(t: Target): (e: Option<Error>)
    reads if t.ToStructPtr? then {t.p} else {}
    ensures e.None? <==> t.ToStructPtr? && t.p.ptr == null
    ensures t.NilInterface? ==> e == Some(InvalidUnmarshal(None))
    ensures t.NonPointer? ==> e == Some(InvalidUnmarshal(Some(Named(t.typeName))))
    ensures t.NilPointer? ==> e == Some(InvalidUnmarshal(Some(PtrTo(t.elem))))
    ensures t.ToStruct? ==> e == Some(CaughtPanic(Runtime(IsNilOnNonNilable)))
    ensures t.ToStructPtr? && t.p.ptr != null ==>
      e == Some(InvalidUnmarshal(Some(PtrTo(PtrTo(Named(t.p.typeName))))))
    // through a pointer to any other variable: rejected with an
    // InvalidUnmarshalError when the variable is a non-nil reference or a nil
    // pointer to a non-struct, a recovered panic in every other case
    ensures t.ToOther? && (t.v.NonNil? || t.v.NilPtrToOther?) ==>
      e == Some(InvalidUnmarshal(Some(PtrTo(t.elem))))
    ensures t.ToOther? && t.v.NotNilable? ==> e == Some(CaughtPanic(Runtime(IsNilOnNonNilable)))
    ensures t.ToOther? && t.v.NilWithElem? ==> e == Some(CaughtPanic(Runtime(NotAssignable)))
    ensures t.ToOther? && t.v.NilWithoutElem? ==> e == Some(CaughtPanic(Runtime(NoElemType)))
  {
    match t
    case NilInterface => Some(InvalidUnmarshal(None))
    case NonPointer(name) => Some(InvalidUnmarshal(Some(Named(name))))
    case NilPointer(elem) => Some(InvalidUnmarshal(Some(PtrTo(elem))))
    case ToStruct(_) => Some(CaughtPanic(Runtime(IsNilOnNonNilable)))
    case ToStructPtr(p) =>
      if p.ptr == null then None else Some(InvalidUnmarshal(Some(PtrTo(PtrTo(Named(p.typeName))))))
    case ToOther(elem, v) =>
      match v
      case NotNilable => Some(CaughtPanic(Runtime(IsNilOnNonNilable)))
      case NonNil => Some(InvalidUnmarshal(Some(PtrTo(elem))))
      case NilPtrToOther => Some(InvalidUnmarshal(Some(PtrTo(elem))))
      case NilWithElem => Some(CaughtPanic(Runtime(NotAssignable)))
      case NilWithoutElem => Some(CaughtPanic(Runtime(NoElemType)))
  }

  /**
   * A pointer to a `*T` that is already set is refused, and the message names
   * the type `**T`.
   */
  lemma NonNilTargetMessage(p: StructPtrVar)
    requires p.ptr != null
    ensures TargetError(ToStructPtr(p)).Some? && TargetError(ToStructPtr(p)).value.InvalidUnmarshal?
    ensures InvalidUnmarshalMessage(TargetError(ToStructPtr(p)).value.t) == "xlsx: Unmarshal(nil **" + p.typeName + ")"
  {
    PointerMessage(PtrTo(Named(p.typeName)));
    assert TypeString(PtrTo(Named(p.typeName))) == "*" + p.typeName;
    assert "xlsx: Unmarshal(nil *" + ("*" + p.typeName) + ")" == "xlsx: Unmarshal(nil **" + p.typeName + ")";
  }

  /**
   * Distinct targets can share an error: a nil `**T` and a pointer to an
   * already set `*T` are both refused with the type `**T`, so their messages
   * are the same.
   */
  lemma SetPointerErrorLikeNilDoublePointer(p: StructPtrVar)
    requires p.ptr != null
    ensures NilPointer(PtrTo(Named(p.typeName))) != ToStructPtr(p)
    ensures TargetError(NilPointer(PtrTo(Named(p.typeName)))) == TargetError(ToStructPtr(p))
  {
  }

  /** A row reader: one data row of a sheet, with the tables it is decoded by. */
  class RowReader {
    var Sheet: string
    var Split: string
    const nameMapping: map<string, string>
    const unmarshalers: map<string, Unmarshaler>
    const pattern: map<string, Pattern>
    const parseFloat: string -> Option<bv64>
    const header: seq<string>
    const row: seq<string>
    const id: int

    /** `newRowReader`: the sheet's tables, the sheet name, the header and the row; the split is ","; the id is dropped. */
    constructor(nameMapping: map<string, string>, unmarshalers: map<string, Unmarshaler>, pattern: map<string, Pattern>,
                parseFloat: string -> Option<bv64>, name: string, header: seq<string>, row: seq<string>, id: int)
      ensures this.nameMapping == nameMapping && this.unmarshalers == unmarshalers && this.pattern == pattern
      ensures this.parseFloat == parseFloat && Sheet == name && this.header == header && this.row == row
      ensures Split == "," && this.id == 0
    {
      this.nameMapping := nameMapping;
      this.unmarshalers := unmarshalers;
      this.pattern := pattern;
      this.parseFloat := parseFloat;
      Sheet := name;
      this.header := header;
      this.row := row;
      Split := ",";
      this.id := 0;
    }

    /** The decoding settings this reader currently holds. */
    function Config(): RowConfig
      reads this
    {
      RowConfig(Sheet, nameMapping, unmarshalers, Converter(pattern, Split, parseFloat), header, row, id)
    }

    /**
     * `Read`: validate the target; for a pointer to a nil `*T`, point it at a
     * fresh zero `T` and decode the row into it, cell by cell, stopping at the
     * first failing cell.  Every panic on the way is returned as an error.
     */
    method Read(target: Target) returns (err: Option<Error>)
      modifies if target.ToStructPtr? then {target.p} else {}
      ensures old(TargetError(target)).Some? ==> err == old(TargetError(target))
      ensures target.ToStructPtr? && old(target.p.ptr) != null ==> target.p.ptr == old(target.p.ptr)
      ensures old(TargetError(target)).None? ==>
        && target.p.ptr != null && fresh(target.p.ptr)
        && target.p.ptr.value == DecodeRow(Config(), target.p.shape).rec
        && err == DecodeRow(Config(), target.p.shape).err
    {
      match target
      case NilInterface => return Some(InvalidUnmarshal(None));
      case NonPointer(name) => return Some(InvalidUnmarshal(Some(Named(name))));
      case NilPointer(elem) => return Some(InvalidUnmarshal(Some(PtrTo(elem))));
      case ToStruct(_) => return Some(CaughtPanic(Runtime(IsNilOnNonNilable)));
      case ToOther(_, _) => return TargetError(target);
      case ToStructPtr(p) =>
        if p.ptr != null {
          return Some(InvalidUnmarshal(Some(PtrTo(PtrTo(Named(p.typeName))))));
        }
        var sv := new StructVar(p.shape);
        p.ptr := sv;
        err := ReadCells(sv);
    }

    /** The cell loop of `Read`, decoding the row into the record `sv` holds. */
    method ReadCells(sv: StructVar) returns (err: Option<Error>)
      modifies sv
      ensures sv.value == DecodeFrom(Config(), 0, old(sv.value)).rec
      ensures err == DecodeFrom(Config(), 0, old(sv.value)).err
    {
      ghost var cfg := Config();
      ghost var start := sv.value;
      var conv := Converter(pattern, Split, parseFloat);
      var i := 0;
      while i < |row|
        invariant 0 <= i <= |row|
        invariant DecodeFrom(cfg, 0, start) == DecodeFrom(cfg, i, sv.value)
      {
        if i >= |header| {
          return Some(CaughtPanic(Runtime(IndexOutOfRange)));
        }
        var col := ResolveColumn(Sheet, header[i], nameMapping);
        assert col == ColumnAt(cfg, i);
        if col.key in unmarshalers {
          var u := unmarshalers[col.key](sv.value, row[i]);
          sv.value := u.rec;
          if u.failed {
            return Some(CellFailed(col.name, id, row[i]));
          }
          i := i + 1;
          continue;
        }
        var f := FieldByName(sv.value, col.name);
        if f.None? {
          i := i + 1;
          continue;
        }
        var o := ReadBuiltinType(conv, col.key, row[i], sv.value.slots[f.value].decl);
        assert DecodeCell(cfg, i, sv.value) ==
          match o
          case Assign(v) => Next(SetField(sv.value, f.value, v))
          case Leave(_) => Next(sv.value)
          case Raise(p) => Stop(sv.value, CaughtPanic(p));
        if o.Raise? {
          return Some(CaughtPanic(o.panic));
        }
        if o.Assign? {
          sv.value := SetField(sv.value, f.value, o.value);
        }
        i := i + 1;
      }
      return None;
    }
  }
}
