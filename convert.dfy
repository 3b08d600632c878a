/**
 * `readBuiltinType` (xlsx/reader.go): the type-directed conversion of one cell
 * text into one struct field, and the decomposition of a list cell into
 * freshly built sub-records.
 *
 * The specification is the three mutually recursive functions Builtin,
 * Decompose and FillSub; the method ReadBuiltinType runs the source's loops
 * and is proved to compute Builtin.
 */
module Convert {
  import opened Wrappers
  import opened Strconv
  import opened Strings
  import opened Records

  /** The runtime faults Go raises on the paths the decoder can take. */
  datatype Fault =
    | IsNilOnNonNilable     // reflect.Value.IsNil on a struct or another kind that cannot be nil
    | UnexportedField       // a Set on a field reached through an unexported name
    | FieldIndexOutOfRange  // reflect.Type.Field(i) past the last field of the element struct
    | NotAssignable         // a reflect.Append or reflect.Set of a value of the wrong type
    | NoElemType            // reflect.Type.Elem on a type without an element type
    | IndexOutOfRange       // a row cell with no header cell at its position

  /** The panics raised while decoding a row; `recover` in RowReader.Read turns each into an error. */
  datatype Panic =
    | BadInt(key: string, text: string, cause: NumError)
    | BadUint(key: string, text: string, cause: NumError)
    | BadFloat(key: string)
    | NoPattern(key: string)
    | NoMatch(key: string, cell: string)
    | Runtime(fault: Fault)

  /**
   * What readBuiltinType does to its field: write a value, leave the field
   * alone (returning true for an array and false for an unsupported kind), or
   * panic.
   */
  datatype Outcome = Assign(value: Value) | Leave(handled: bool) | Raise(panic: Panic)

  /**
   * A compiled regular expression, as `FindStringSubmatch` uses it: None when
   * the token does not match, else the capture groups after the whole match.
   */
  type Pattern = string -> Option<seq<string>>

  /**
   * The parts of a row reader that readBuiltinType consults: the pattern table,
   * the list separator, and `strconv.ParseFloat(s, 64)` (None on error, else the
   * IEEE-754 bits), which this model takes as given.
   */
  datatype Converter = Converter(patterns: map<string, Pattern>, split: string, parseFloat: string -> Option<bv64>)

  /** A reflect `Set`: allowed only on an exported field. */
  function Store(decl: FieldDecl, v: Value): (r: Outcome)
    ensures r.Assign? <==> decl.exported
    ensures r.Assign? ==> r.value == v
    ensures r.Raise? ==> r.panic == Runtime(UnexportedField)
  {
    if decl.exported then Assign(v) else Raise(Runtime(UnexportedField))
  }

  /** readBuiltinType(key, text, field) for a field declared as `decl`. */
  function Builtin(c: Converter, key: string, text: string, decl: FieldDecl): (r: Outcome)
    ensures r.Assign? ==> HasKind(r.value, decl.kind)
    decreases decl.kind, 2, 0
  {
    match decl.kind
    case BoolKind => Store(decl, BoolVal(text == "true" || text == "1"))
    case IntKind =>
      (match ParseInt(text)
       case Err(e) => Raise(BadInt(key, text, e))
       case Ok(v) => Store(decl, IntVal(v)))
    case UintKind =>
      (match ParseUint(text)
       case Err(e) => Raise(BadUint(key, text, e))
       case Ok(v) => Store(decl, UintVal(v)))
    case FloatKind =>
      (match c.parseFloat(text)
       case None => Raise(BadFloat(key))
       case Some(bits) => Store(decl, FloatVal(bits)))
    case StringKind => Store(decl, StringVal(text))
    case ArrayKind => Leave(true)
    case ListKind(_, _) =>
      if key !in c.patterns then Raise(NoPattern(key))
      else
        (match Decompose(c, key, text, decl.kind, Split(text, c.split))
         case Err(p) => Raise(p)
         case Ok(items) => Store(decl, ListVal(items)))
    case OtherKind => Leave(false)
  }

  /**
   * The token loop of a list cell: a token the pattern rejects is skipped when
   * empty and fatal otherwise; a matching token yields one sub-record, which
   * must then be appended to the slice.
   */
  function Decompose(c: Converter, key: string, cell: string, k: Kind, tokens: seq<string>): (r: Result<seq<Record>, Panic>)
    requires k.ListKind? && key in c.patterns
    ensures r.Ok? ==> forall j :: 0 <= j < |r.value| ==> Fits(r.value[j], k.elem)
    decreases k, 1, |tokens|
  {
    if tokens == [] then Ok([])
    else match c.patterns[key](tokens[0])
      case None =>
        if tokens[0] != "" then Err(NoMatch(key, cell))
        else Decompose(c, key, cell, k, tokens[1..])
      case Some(groups) =>
        match FillSub(c, key, k, groups, 0, Zero(k.elem))
        case Err(p) => Err(p)
        case Ok(sub) =>
          if !k.ofPointers then Err(Runtime(NotAssignable))
          else
            match Decompose(c, key, cell, k, tokens[1..])
            case Err(p) => Err(p)
            case Ok(rest) => Ok([sub] + rest)
  }

  /**
   * The capture-group loop: from group `i` on, each non-empty group is
   * converted into the sub-record field at the same position under the key
   * `key + "." + fieldName`; empty groups are skipped.
   */
  function FillSub(c: Converter, key: string, k: Kind, groups: seq<string>, i: nat, sub: Record): (r: Result<Record, Panic>)
    requires k.ListKind? && i <= |groups| && Fits(sub, k.elem)
    ensures r.Ok? ==> Fits(r.value, k.elem)
    decreases k, 0, |groups| - i
  {
    if i == |groups| then Ok(sub)
    else if groups[i] == "" then FillSub(c, key, k, groups, i + 1, sub)
    else if i >= |k.elem| then Err(Runtime(FieldIndexOutOfRange))
    else
      match Builtin(c, key + "." + k.elem[i].name, groups[i], k.elem[i])
      case Raise(p) => Err(p)
      case Leave(_) => FillSub(c, key, k, groups, i + 1, sub)
      case Assign(v) =>
        SetFieldFits(sub, k.elem, i, v);
        FillSub(c, key, k, groups, i + 1, SetField(sub, i, v))
  }

  /** The items already built, followed by those the rest of the loop builds. */
  function Continue(done: seq<Record>, rest: Result<seq<Record>, Panic>): Result<seq<Record>, Panic> {
    match rest
    case Err(p) => Err(p)
    case Ok(items) => Ok(done + items)
  }

  /** readBuiltinType, with its loops. */
  method ReadBuiltinType(c: Converter, key: string, text: string, decl: FieldDecl) returns (r: Outcome)
    ensures r == Builtin(c, key, text, decl)
    decreases decl.kind, 2
  {
    match decl.kind
    case BoolKind =>
      r := Store(decl, BoolVal(text == "true" || text == "1"));
    case IntKind =>
      var v := ParseInt(text);
      if v.Err? {
        return Raise(BadInt(key, text, v.error));
      }
      r := Store(decl, IntVal(v.value));
    case UintKind =>
      var v := ParseUint(text);
      if v.Err? {
        return Raise(BadUint(key, text, v.error));
      }
      r := Store(decl, UintVal(v.value));
    case FloatKind =>
      var v := c.parseFloat(text);
      if v.None? {
        return Raise(BadFloat(key));
      }
      r := Store(decl, FloatVal(v.value));
    case StringKind =>
      r := Store(decl, StringVal(text));
    case ArrayKind =>
      r := Leave(true);
    case OtherKind =>
      r := Leave(false);
    case ListKind(_, _) =>
      if key !in c.patterns {
        return Raise(NoPattern(key));
      }
      var items := ReadList(c, key, text, decl.kind);
      if items.Err? {
        return Raise(items.error);
      }
      r := Store(decl, ListVal(items.value));
  }

  /** The token loop of readBuiltinType's slice case, building the slice that is then stored. */
  method ReadList(c: Converter, key: string, text: string, k: Kind) returns (r: Result<seq<Record>, Panic>)
    requires k.ListKind? && key in c.patterns
    ensures r == Decompose(c, key, text, k, Split(text, c.split))
    decreases k, 1
  {
    var pattern := c.patterns[key];
    var subs := Split(text, c.split);
    var slice: seq<Record> := [];
    var t := 0;
    assert subs[0..] == subs;
    ghost var whole := Decompose(c, key, text, k, subs);
    match whole {
      case Err(_) =>
      case Ok(items) => assert [] + items == items;
    }
    while t < |subs|
      invariant 0 <= t <= |subs|
      invariant Decompose(c, key, text, k, subs) == Continue(slice, Decompose(c, key, text, k, subs[t..]))
    {
      ghost var ts := subs[t..];
      assert ts[0] == subs[t] && ts[1..] == subs[t + 1..];
      var matched := pattern(subs[t]);
      if matched.None? {
        if subs[t] != "" {
          return Err(NoMatch(key, text));
        }
        assert Decompose(c, key, text, k, ts) == Decompose(c, key, text, k, subs[t + 1..]);
        t := t + 1;
        continue;
      }
      var sub := NewSubRecord(c, key, k, matched.value);
      if sub.Err? {
        return Err(sub.error);
      }
      if !k.ofPointers {
        return Err(Runtime(NotAssignable));
      }
      ghost var later := Decompose(c, key, text, k, subs[t + 1..]);
      match later {
        case Err(p) =>
          assert Decompose(c, key, text, k, ts) == Err(p);
        case Ok(items) =>
          assert Decompose(c, key, text, k, ts) == Ok([sub.value] + items);
          assert slice + ([sub.value] + items) == (slice + [sub.value]) + items;
      }
      slice := slice + [sub.value];
      t := t + 1;
    }
    assert subs[t..] == [];
    assert slice + [] == slice;
    r := Ok(slice);
  }

  /** The capture-group loop of readBuiltinType's slice case: one freshly allocated sub-record. */
  method NewSubRecord(c: Converter, key: string, k: Kind, groups: seq<string>) returns (r: Result<Record, Panic>)
    requires k.ListKind?
    ensures r == FillSub(c, key, k, groups, 0, Zero(k.elem))
    decreases k, 0
  {
    var elem := k.elem;
    var sub := Zero(elem);
    var i := 0;
    while i < |groups|
      invariant 0 <= i <= |groups| && Fits(sub, elem)
      invariant FillSub(c, key, k, groups, 0, Zero(elem)) == FillSub(c, key, k, groups, i, sub)
    {
      if groups[i] == "" {
        i := i + 1;
        continue;
      }
      if i >= |elem| {
        return Err(Runtime(FieldIndexOutOfRange));
      }
      var o := ReadBuiltinType(c, key + "." + elem[i].name, groups[i], elem[i]);
      if o.Raise? {
        return Err(o.panic);
      }
      if o.Assign? {
        SetFieldFits(sub, elem, i, o.value);
        sub := SetField(sub, i, o.value);
      }
      i := i + 1;
    }
    r := Ok(sub);
  }

  /** Every text but exactly "true" and "1" reads as false, and a bool field never fails. */
  lemma BoolExamples(c: Converter, key: string, decl: FieldDecl)
    requires decl.kind == BoolKind && decl.exported
    ensures Builtin(c, key, "true", decl) == Assign(BoolVal(true))
    ensures Builtin(c, key, "1", decl) == Assign(BoolVal(true))
    ensures Builtin(c, key, "TRUE", decl) == Assign(BoolVal(false))
    ensures Builtin(c, key, "", decl) == Assign(BoolVal(false))
    ensures Builtin(c, key, "false", decl) == Assign(BoolVal(false))
    ensures Builtin(c, key, "no", decl) == Assign(BoolVal(false))
    ensures forall text :: !Builtin(c, key, text, decl).Raise?
  {
  }

  /** A field is written only when it is exported; an unexported one makes every conversion that gets as far as the write panic. */
  lemma AssignOnlyExported(c: Converter, key: string, text: string, decl: FieldDecl)
    ensures Builtin(c, key, text, decl).Assign? ==> decl.exported
    ensures !decl.exported && decl.kind in {BoolKind, StringKind} ==> Builtin(c, key, text, decl) == Raise(Runtime(UnexportedField))
  {
  }

  /** Decimal text of a signed value fills an int field with that value inside the int64 range, and is a range panic outside it. */
  lemma IntRoundTrip(c: Converter, key: string, decl: FieldDecl, v: int)
    requires decl.kind == IntKind && decl.exported
    ensures Builtin(c, key, FormatInt(v), decl)
         == if MinInt64 <= v <= MaxInt64 then Assign(IntVal(v)) else Raise(BadInt(key, FormatInt(v), ErrRange))
  {
    SignedRoundTrip(v);
  }

  /** Decimal, `0b`, `0o` and `0x` text of a value fills a uint field with it inside the uint64 range, and is a range panic outside it. */
  lemma UintRoundTrip(c: Converter, key: string, decl: FieldDecl, v: nat, base: nat)
    requires decl.kind == UintKind && decl.exported && ValidBase(base)
    ensures var text := if base == 10 then Format(v, 10) else Prefix(base) + Format(v, base);
      Builtin(c, key, text, decl) == if v <= MaxUint64 then Assign(UintVal(v)) else Raise(BadUint(key, text, ErrRange))
  {
    if base == 10 {
      DecimalRoundTrip(v);
    } else {
      PrefixedRoundTrip(v, base);
    }
  }

  /** Malformed or negative text panics, naming the key and the text, before any write is tried. */
  lemma ScalarFailures(c: Converter, key: string, decl: FieldDecl)
    ensures decl.kind == IntKind ==> Builtin(c, key, "abc", decl) == Raise(BadInt(key, "abc", ErrSyntax))
    ensures decl.kind == IntKind ==> Builtin(c, key, "", decl) == Raise(BadInt(key, "", ErrSyntax))
    ensures decl.kind == UintKind ==> Builtin(c, key, "-1", decl) == Raise(BadUint(key, "-1", ErrSyntax))
    ensures decl.kind == IntKind && decl.exported ==> Builtin(c, key, "0x2A", decl) == Assign(IntVal(42))
    ensures decl.kind == IntKind && decl.exported ==> Builtin(c, key, "42", decl) == Assign(IntVal(42))
  {
    ParseDecimalExamples();
    ParseHexExamples();
    ParseUnsignedExamples();
  }

  /** An array field is accepted and left alone; a field of an unsupported kind is left alone and reported as such. */
  lemma LeftAlone(c: Converter, key: string, text: string, decl: FieldDecl)
    requires decl.kind == ArrayKind || decl.kind == OtherKind
    ensures Builtin(c, key, text, decl) == Leave(decl.kind == ArrayKind)
  {
  }

  /** A list field with no pattern under its key panics whatever the cell holds. */
  lemma MissingPattern(c: Converter, key: string, text: string, decl: FieldDecl)
    requires decl.kind.ListKind? && key !in c.patterns
    ensures Builtin(c, key, text, decl) == Raise(NoPattern(key))
  {
  }

  /**
   * An exported list field with a pattern receives the list its cell
   * decomposes into, built from nothing but the cell, or the panic of the
   * decomposition.
   */
  lemma ListBuiltin(c: Converter, key: string, text: string, decl: FieldDecl)
    requires decl.kind.ListKind? && decl.exported && key in c.patterns
    ensures var items := Decompose(c, key, text, decl.kind, Split(text, c.split));
      Builtin(c, key, text, decl) == if items.Ok? then Assign(ListVal(items.value)) else Raise(items.error)
  {
  }

  /** Group `j` converts without a panic: it is empty, or its field exists and converts. */
  predicate GroupOk(c: Converter, key: string, k: Kind, groups: seq<string>, j: nat)
    requires k.ListKind? && j < |groups|
  {
    groups[j] == "" || (j < |k.elem| && !Builtin(c, key + "." + k.elem[j].name, groups[j], k.elem[j]).Raise?)
  }

  /** The panic of a group that does not convert. */
  function GroupPanic(c: Converter, key: string, k: Kind, groups: seq<string>, j: nat): Panic
    requires k.ListKind? && j < |groups| && !GroupOk(c, key, k, groups, j)
  {
    if j >= |k.elem| then Runtime(FieldIndexOutOfRange)
    else Builtin(c, key + "." + k.elem[j].name, groups[j], k.elem[j]).panic
  }

  /** The value group `f` writes into sub-record field `f`, if any. */
  function GroupValue(c: Converter, key: string, k: Kind, groups: seq<string>, f: nat): Option<Value>
    requires k.ListKind? && f < |k.elem|
  {
    if f < |groups| && groups[f] != "" then
      match Builtin(c, key + "." + k.elem[f].name, groups[f], k.elem[f])
      case Assign(v) => Some(v)
      case _ => None
    else None
  }

  /** Sub-record assembly from group `i` on succeeds exactly when every group from `i` on converts. */
  lemma {:induction false} FillSubSucceeds(c: Converter, key: string, k: Kind, groups: seq<string>, i: nat, sub: Record)
    requires k.ListKind? && i <= |groups| && Fits(sub, k.elem)
    ensures FillSub(c, key, k, groups, i, sub).Ok? <==> forall j :: i <= j < |groups| ==> GroupOk(c, key, k, groups, j)
    decreases |groups| - i
  {
    if i < |groups| {
      if groups[i] == "" {
        FillSubSucceeds(c, key, k, groups, i + 1, sub);
      } else if i < |k.elem| {
        match Builtin(c, key + "." + k.elem[i].name, groups[i], k.elem[i])
        case Raise(_) =>
          assert !GroupOk(c, key, k, groups, i);
        case Leave(_) =>
          FillSubSucceeds(c, key, k, groups, i + 1, sub);
        case Assign(v) =>
          SetFieldFits(sub, k.elem, i, v);
          FillSubSucceeds(c, key, k, groups, i + 1, SetField(sub, i, v));
      } else {
        assert !GroupOk(c, key, k, groups, i);
      }
    }
  }

  /**
   * A failed assembly reports the panic of the first group from `i` on that
   * does not convert.
   */
  lemma {:induction false} FillSubPanic(c: Converter, key: string, k: Kind, groups: seq<string>, i: nat, sub: Record)
    requires k.ListKind? && i <= |groups| && Fits(sub, k.elem)
    ensures FillSub(c, key, k, groups, i, sub).Err? ==>
      exists j :: i <= j < |groups| && !GroupOk(c, key, k, groups, j) &&
        (forall j' :: i <= j' < j ==> GroupOk(c, key, k, groups, j')) &&
        FillSub(c, key, k, groups, i, sub).error == GroupPanic(c, key, k, groups, j)
    decreases |groups| - i
  {
    if i < |groups| {
      if groups[i] == "" {
        FillSubPanic(c, key, k, groups, i + 1, sub);
      } else if i >= |k.elem| {
        assert !GroupOk(c, key, k, groups, i);
      } else {
        match Builtin(c, key + "." + k.elem[i].name, groups[i], k.elem[i])
        case Raise(_) =>
          assert !GroupOk(c, key, k, groups, i);
        case Leave(_) =>
          FillSubPanic(c, key, k, groups, i + 1, sub);
        case Assign(v) =>
          SetFieldFits(sub, k.elem, i, v);
          FillSubPanic(c, key, k, groups, i + 1, SetField(sub, i, v));
      }
    }
  }

  /**
   * A successful assembly from group `i` on writes the converted group into
   * each field whose group converts to a value, and leaves every other field,
   * those whose group is empty or not reached included, as it was.
   */
  lemma {:induction false} FillSubValues(c: Converter, key: string, k: Kind, groups: seq<string>, i: nat, sub: Record)
    requires k.ListKind? && i <= |groups| && Fits(sub, k.elem)
    ensures FillSub(c, key, k, groups, i, sub).Ok? ==>
      forall f :: 0 <= f < |k.elem| ==>
        FillSub(c, key, k, groups, i, sub).value.slots[f] ==
          (if i <= f && GroupValue(c, key, k, groups, f).Some? then Slot(k.elem[f], GroupValue(c, key, k, groups, f).value)
           else sub.slots[f])
    decreases |groups| - i
  {
    if i < |groups| {
      if groups[i] == "" {
        FillSubValues(c, key, k, groups, i + 1, sub);
      } else if i < |k.elem| {
        match Builtin(c, key + "." + k.elem[i].name, groups[i], k.elem[i])
        case Raise(_) =>
        case Leave(_) =>
          FillSubValues(c, key, k, groups, i + 1, sub);
        case Assign(v) =>
          SetFieldFits(sub, k.elem, i, v);
          var sub' := SetField(sub, i, v);
          FillSubValues(c, key, k, groups, i + 1, sub');
          assert sub'.slots[i] == Slot(k.elem[i], v);
      }
    }
  }

  /**
   * The capture groups of the tokens the pattern matches, in token order: a
   * reference definition, independent of assembly and of the slice's type,
   * against which DecomposeSucceeds and DecomposeItems state what a list
   * decomposition yields.
   */
  function MatchedGroups(p: Pattern, tokens: seq<string>): (m: seq<seq<string>>)
    ensures |m| <= |tokens|
  {
    if tokens == [] then []
    else match p(tokens[0])
      case None => MatchedGroups(p, tokens[1..])
      case Some(groups) => [groups] + MatchedGroups(p, tokens[1..])
  }

  /** Every token the pattern rejects is empty. */
  predicate RejectedAreEmpty(p: Pattern, tokens: seq<string>) {
    forall j :: 0 <= j < |tokens| && p(tokens[j]).None? ==> tokens[j] == ""
  }

  /** Every matched token's groups assemble into a sub-record. */
  predicate AllAssemble(c: Converter, key: string, k: Kind, m: seq<seq<string>>)
    requires k.ListKind?
  {
    forall j :: 0 <= j < |m| ==> FillSub(c, key, k, m[j], 0, Zero(k.elem)).Ok?
  }

  /** RejectedAreEmpty, one token at a time. */
  lemma RejectedAreEmptyCons(p: Pattern, tokens: seq<string>)
    requires tokens != []
    ensures RejectedAreEmpty(p, tokens) <==> (p(tokens[0]).None? ==> tokens[0] == "") && RejectedAreEmpty(p, tokens[1..])
  {
    assert forall j :: 1 <= j < |tokens| ==> tokens[j] == tokens[1..][j - 1];
  }

  /** AllAssemble, one group list at a time. */
  lemma AllAssembleCons(c: Converter, key: string, k: Kind, groups: seq<string>, m: seq<seq<string>>)
    requires k.ListKind?
    ensures AllAssemble(c, key, k, [groups] + m) <==> FillSub(c, key, k, groups, 0, Zero(k.elem)).Ok? && AllAssemble(c, key, k, m)
  {
    var m' := [groups] + m;
    if AllAssemble(c, key, k, m') {
      forall j | 0 <= j < |m| ensures FillSub(c, key, k, m[j], 0, Zero(k.elem)).Ok? {
        assert m[j] == m'[j + 1];
      }
      assert m'[0] == groups;
    }
    if FillSub(c, key, k, groups, 0, Zero(k.elem)).Ok? && AllAssemble(c, key, k, m) {
      forall j | 0 <= j < |m'| ensures FillSub(c, key, k, m'[j], 0, Zero(k.elem)).Ok? {
        if j > 0 {
          assert m'[j] == m[j - 1];
        }
      }
    }
  }

  /**
   * List decomposition succeeds exactly when every token the pattern rejects
   * is empty, every matching token's sub-record assembles, and either no token
   * matches or the slice holds pointers.
   */
  lemma {:induction false} DecomposeSucceeds(c: Converter, key: string, cell: string, k: Kind, tokens: seq<string>)
    requires k.ListKind? && key in c.patterns
    ensures var m := MatchedGroups(c.patterns[key], tokens);
      Decompose(c, key, cell, k, tokens).Ok? <==>
        RejectedAreEmpty(c.patterns[key], tokens) && AllAssemble(c, key, k, m) && (m == [] || k.ofPointers)
    decreases |tokens|
  {
    if tokens != [] {
      var p := c.patterns[key];
      var rest := tokens[1..];
      DecomposeSucceeds(c, key, cell, k, rest);
      RejectedAreEmptyCons(p, tokens);
      match p(tokens[0])
      case None =>
      case Some(groups) =>
        AllAssembleCons(c, key, k, groups, MatchedGroups(p, rest));
    }
  }

  /** A successful list decomposition yields one sub-record per matching token, in token order. */
  lemma {:induction false} DecomposeItems(c: Converter, key: string, cell: string, k: Kind, tokens: seq<string>)
    requires k.ListKind? && key in c.patterns
    ensures var m := MatchedGroups(c.patterns[key], tokens);
      Decompose(c, key, cell, k, tokens).Ok? ==>
        |Decompose(c, key, cell, k, tokens).value| == |m| &&
        forall j :: 0 <= j < |m| ==> FillSub(c, key, k, m[j], 0, Zero(k.elem)) == Ok(Decompose(c, key, cell, k, tokens).value[j])
    decreases |tokens|
  {
    if tokens != [] {
      var p := c.patterns[key];
      var rest := tokens[1..];
      DecomposeItems(c, key, cell, k, rest);
      match p(tokens[0])
      case None =>
      case Some(groups) =>
        var m := MatchedGroups(p, tokens);
        assert m == [groups] + MatchedGroups(p, rest);
    }
  }

  /** The element struct of the list examples: an int field and a string field. */
  function PairShape(): seq<FieldDecl> {
    [FieldDecl("ID", true, IntKind), FieldDecl("Name", true, StringKind)]
  }

  /** The sub-record holding `id` and `name`. */
  function Pair(id: int, name: string): Record {
    Record([Slot(PairShape()[0], IntVal(id)), Slot(PairShape()[1], StringVal(name))])
  }

  /** A pair token's two groups fill the two fields of a fresh sub-record. */
  lemma AssemblePair(c: Converter, key: string, ofPointers: bool, digits: string, id: int, name: string)
    requires digits != "" && name != "" && ParseInt(digits) == Ok(id)
    ensures FillSub(c, key, ListKind(ofPointers, PairShape()), [digits, name], 0, Zero(PairShape())) == Ok(Pair(id, name))
  {
    var k := ListKind(ofPointers, PairShape());
    var groups := [digits, name];
    var z := Zero(PairShape());
    assert Builtin(c, key + "." + k.elem[0].name, groups[0], k.elem[0]) == Assign(IntVal(id));
    var s1 := SetField(z, 0, IntVal(id));
    assert FillSub(c, key, k, groups, 0, z) == FillSub(c, key, k, groups, 1, s1);
    assert Builtin(c, key + "." + k.elem[1].name, groups[1], k.elem[1]) == Assign(StringVal(name));
    var s2 := SetField(s1, 1, StringVal(name));
    assert FillSub(c, key, k, groups, 1, s1) == FillSub(c, key, k, groups, 2, s2);
    assert s2.slots == Pair(id, name).slots;
  }

  /**
   * The pattern under `key` reads `<digits>:<word>` on the example tokens,
   * and the cell is split on ",".
   */
  predicate PairPattern(c: Converter, key: string) {
    key in c.patterns && c.split == "," &&
    c.patterns[key]("1:a") == Some(["1", "a"]) && c.patterns[key]("2:b") == Some(["2", "b"]) &&
    c.patterns[key]("") == None && c.patterns[key]("xyz") == None
  }

  /** A pair token in front of the rest of a `[]*Pair` cell contributes its sub-record in front of the rest's. */
  lemma PairTokenStep(c: Converter, key: string, cell: string, token: string, digits: string, id: int, name: string, rest: seq<string>)
    requires key in c.patterns && c.patterns[key](token) == Some([digits, name])
    requires digits != "" && name != "" && ParseInt(digits) == Ok(id)
    ensures Decompose(c, key, cell, ListKind(true, PairShape()), [token] + rest)
         == Continue([Pair(id, name)], Decompose(c, key, cell, ListKind(true, PairShape()), rest))
  {
    AssemblePair(c, key, true, digits, id, name);
    var ts := [token] + rest;
    assert ts[0] == token && ts[1..] == rest;
  }

  /** An empty token the pattern rejects contributes nothing. */
  lemma EmptyTokenStep(c: Converter, key: string, cell: string, k: Kind, rest: seq<string>)
    requires k.ListKind? && key in c.patterns && c.patterns[key]("") == None
    ensures Decompose(c, key, cell, k, [""] + rest) == Decompose(c, key, cell, k, rest)
  {
    var ts := [""] + rest;
    assert ts[0] == "" && ts[1..] == rest;
  }

  /** A `[]*Pair` cell of two tokens gives two sub-records, in order. */
  lemma ListTwoTokens(c: Converter, key: string)
    requires PairPattern(c, key)
    ensures Decompose(c, key, "1:a,2:b", ListKind(true, PairShape()), Split("1:a,2:b", c.split)) == Ok([Pair(1, "a"), Pair(2, "b")])
  {
    SplitTwoTokens();
    TwoTokensTokens(c, key);
  }

  /** The two-token cell, token by token. */
  lemma TwoTokensTokens(c: Converter, key: string)
    requires PairPattern(c, key)
    ensures Decompose(c, key, "1:a,2:b", ListKind(true, PairShape()), ["1:a", "2:b"]) == Ok([Pair(1, "a"), Pair(2, "b")])
  {
    var k := ListKind(true, PairShape());
    var cell := "1:a,2:b";
    OneAndTwo();
    assert Decompose(c, key, cell, k, []) == Ok([]);
    PairTokenStep(c, key, cell, "2:b", "2", 2, "b", []);
    assert ["2:b"] + [] == ["2:b"];
    assert [Pair(2, "b")] + [] == [Pair(2, "b")];
    assert Decompose(c, key, cell, k, ["2:b"]) == Ok([Pair(2, "b")]);
    PairTokenStep(c, key, cell, "1:a", "1", 1, "a", ["2:b"]);
    assert ["1:a"] + ["2:b"] == ["1:a", "2:b"];
    assert [Pair(1, "a")] + [Pair(2, "b")] == [Pair(1, "a"), Pair(2, "b")];
  }

  /** An empty token between the two is skipped. */
  lemma ListEmptyTokenSkipped(c: Converter, key: string)
    requires PairPattern(c, key)
    ensures Decompose(c, key, "1:a,,2:b", ListKind(true, PairShape()), Split("1:a,,2:b", c.split)) == Ok([Pair(1, "a"), Pair(2, "b")])
  {
    SplitEmptyToken();
    EmptyTokenTokens(c, key);
  }

  /** The cell with an empty middle token, token by token. */
  lemma EmptyTokenTokens(c: Converter, key: string)
    requires PairPattern(c, key)
    ensures Decompose(c, key, "1:a,,2:b", ListKind(true, PairShape()), ["1:a", "", "2:b"]) == Ok([Pair(1, "a"), Pair(2, "b")])
  {
    var k := ListKind(true, PairShape());
    var cell := "1:a,,2:b";
    OneAndTwo();
    assert Decompose(c, key, cell, k, []) == Ok([]);
    PairTokenStep(c, key, cell, "2:b", "2", 2, "b", []);
    assert ["2:b"] + [] == ["2:b"];
    assert [Pair(2, "b")] + [] == [Pair(2, "b")];
    assert Decompose(c, key, cell, k, ["2:b"]) == Ok([Pair(2, "b")]);
    var ts := ["", "2:b"];
    EmptyTokenStep(c, key, cell, k, ["2:b"]);
    assert [""] + ["2:b"] == ts;
    PairTokenStep(c, key, cell, "1:a", "1", 1, "a", ts);
    assert ["1:a"] + ts == ["1:a", "", "2:b"];
    assert [Pair(1, "a")] + [Pair(2, "b")] == [Pair(1, "a"), Pair(2, "b")];
  }

  /** A non-empty token the pattern rejects aborts the list, naming the whole cell. */
  lemma ListBadToken(c: Converter, key: string)
    requires PairPattern(c, key)
    ensures Decompose(c, key, "1:a,xyz", ListKind(true, PairShape()), Split("1:a,xyz", c.split)) == Err(NoMatch(key, "1:a,xyz"))
  {
    var k := ListKind(true, PairShape());
    var cell := "1:a,xyz";
    SplitBadToken();
    OneAndTwo();
    var ts := ["xyz"];
    assert ts[0] == "xyz";
    assert Decompose(c, key, cell, k, ts) == Err(NoMatch(key, cell));
    PairTokenStep(c, key, cell, "1:a", "1", 1, "a", ts);
    assert ["1:a"] + ts == ["1:a", "xyz"];
  }

  /** The digit groups of the example tokens parse as their values. */
  lemma OneAndTwo()
    ensures ParseInt("1") == Ok(1) && ParseInt("2") == Ok(2)
  {
  }

  /** The same cell decoded into a `[]Pair`: appending a `*Pair` to it panics as soon as a token matches. */
  lemma ValueListPanics(c: Converter, key: string)
    requires PairPattern(c, key)
    ensures Decompose(c, key, "1:a,2:b", ListKind(false, PairShape()), Split("1:a,2:b", c.split)) == Err(Runtime(NotAssignable))
  {
    SplitTwoTokens();
    OneAndTwo();
    AssemblePair(c, key, false, "1", 1, "a");
  }
}
