# xlsx row decoder, in Dafny

This project models the spreadsheet reader of the `xlsx` package (`xlsx/reader.go`). The reader works in two stages.

A `Reader` holds an opened workbook and three tables that its row readers share:
- column patterns, which are regular expressions;
- custom unmarshalers;
- a column rename map.

`Reader.Read(sheetName)` finds the first sheet with that name. It returns one `RowReader` per data row, and every reader gets the sheet's first row as its header.

`RowReader.Read(&p)` decodes its row into a fresh struct. It works cell by cell:
1. It pairs each cell with the header cell at the same position.
2. It builds the key `Sheet + "." + header`, then applies the rename map once.
3. It hands the cell to the unmarshaler registered under that key. If there is none, it finds the struct field the column names and runs the type-directed conversion `readBuiltinType` on it.

The conversion works by kind:
- **Booleans:** `"true"` and `"1"` are true; every other text is false.
- **Integers:** parsed with `strconv.ParseInt(s, 0, 64)`, or with `ParseUint` for unsigned fields.
- **Strings:** copied verbatim.
- **Lists:** the cell is split on `","`. Each token is matched against the column's pattern, and the capture groups fill a freshly allocated sub-record.

Every conversion failure is raised as a panic, and a deferred `recover` in `RowReader.Read` returns it as an error. A failing custom unmarshaler and an invalid target return an error directly.

Modules:

- `Strconv`: base-0, 64-bit `ParseUint` and `ParseInt`, including prefixes, underscores and range errors. It also defines positional notation and formatting as reference definitions, used for the round-trip lemmas.
- `Strings`: `strings.Split` and its inverse `strings.Join`.
- `Records`: an explicit struct descriptor in place of reflection. A record is a sequence of fields. Each field has a name, an exported flag, a kind and a value.
- `Convert`:
  - `readBuiltinType` as the specification functions `Builtin`, `Decompose` (the token loop) and `FillSub` (the capture-group loop);
  - the method `ReadBuiltinType` and its loop methods, which are proved to compute those functions.
- `RowReading`:
  - target validation and the errors it returns;
  - column resolution;
  - the cell loop as the functions `DecodeCell` and `DecodeFrom`;
  - the `RowReader` class, whose `Read` method is proved to leave, in the variable it points at, exactly the record `DecodeFrom` describes.
- `SheetReading`: the `Reader` class, `newRowReader` and `Reader.Read`.

Four behaviours of `reader.go` that a caller may not expect; the model follows the code in each:

- **Row id.** `newRowReader` never stores its `id` argument, so every row reader's id is 0. Error values built from it, such as `CellFailed`, carry 0 rather than the row's position.
- **Empty tokens.** An empty list token is skipped only when the pattern *rejects* it. A pattern that matches the empty string turns an empty token into a sub-record.
- **List element type.** Only a slice of pointers (`[]*T`) is filled. In a `[]T` field, the first matching token makes `reflect.Append` panic. The model shows this for `[]T` (`Convert.ValueListPanics`).
- **Pointer to a struct.** `Read(&s)`, with `s` a struct, panics in `IsNil`, and the panic is returned as an error. The one target that decodes is `&p` with `p` a nil `*T`. `Read(&p)` with a non-nil `p` is an `ErrInvalidUnmarshal`.

## Model

| member | source | states |
|---|---|---|
| Strconv.ParseUint | xlsx/reader.go:150-154 | `strconv.ParseUint(val, 0, 64)`: every accepted value fits in 64 unsigned bits |
| Strconv.ParseInt | xlsx/reader.go:141-145 | `strconv.ParseInt(val, 0, 64)`: every accepted value lies in the int64 range |
| Strconv.ScanDigits | xlsx/reader.go:150 | the digit loop ends with the positional value of the digits when it fits 64 bits, and with a range error otherwise |
| Strconv.DecimalRoundTrip | xlsx/reader.go:150 | the decimal text of any natural number parses back to it when it fits 64 bits; otherwise it is a range error |
| Strconv.PrefixedRoundTrip | xlsx/reader.go:150 | text with a `0b`, `0o` or `0x` prefix parses back to its value in that base, with a range error past 64 bits |
| Strconv.LeadingZeroIsOctal | xlsx/reader.go:150 | a lone leading `0` selects octal |
| Strconv.SignedRoundTrip | xlsx/reader.go:141 | the decimal text of any integer parses back to it inside the int64 range; outside it, the result is a range error |
| Strconv.UnsignedRejectsSign | xlsx/reader.go:150-154 | an unsigned parse rejects any leading sign, including `-0` and `+1` |
| Strconv.ParseDecimalExamples | xlsx/reader.go:141-145 | `"42"` is 42; `"abc"` and `""` are syntax errors |
| Strconv.ParseHexExamples | xlsx/reader.go:141 | `"0x2A"` is 42 and `"-0x2A"` is -42 |
| Strconv.ParseUnsignedExamples | xlsx/reader.go:150-154 | `"-1"` is a syntax error for an unsigned field |
| Strconv.ParseUnderscoreExamples | xlsx/reader.go:141 | `"1_000"` is 1000; `"_1"` and `"08"` are syntax errors |
| Strings.Index | xlsx/reader.go:179 | the separator's leftmost occurrence, or None exactly when the separator does not occur |
| Strings.Split | xlsx/reader.go:179 | `strings.Split`: a non-empty separator always yields at least one token; SplitJoin and SplitPiecesAvoidSeparator relate the tokens to the cell |
| Strings.SplitAt | xlsx/reader.go:179 | where the separator is first found, the text is the first token, the separator and the rest, and its split is that token followed by the split of the rest |
| Strings.JoinCons | xlsx/reader.go:179 | joining a token to further tokens puts the separator between it and their join |
| Strings.SplitJoin | xlsx/reader.go:179 | joining the tokens of a split with the separator gives back the cell text |
| Strings.SplitPiecesAvoidSeparator | xlsx/reader.go:179 | no token of a split on a non-empty separator contains the separator |
| Strings.ContainsChar | xlsx/reader.go:179 | a one-character separator occurs in a text exactly when its character does |
| Strings.SplitWhole | xlsx/reader.go:179 | a text without the separator is one token |
| Strings.SplitFirst | xlsx/reader.go:179 | the first token ends at the first occurrence of the separator |
| Strings.SplitTwoPieces | xlsx/reader.go:179 | two separator-free tokens joined by a one-character separator split back into the two |
| Strings.SplitDoubled | xlsx/reader.go:179 | a doubled one-character separator leaves an empty token between the tokens around it |
| Strings.SplitTwoTokens | xlsx/reader.go:179 | `"1:a,2:b"` splits into `"1:a"` and `"2:b"` |
| Strings.SplitEmptyToken | xlsx/reader.go:179 | `"1:a,,2:b"` splits into `"1:a"`, an empty token and `"2:b"` |
| Strings.SplitBadToken | xlsx/reader.go:179 | `"1:a,xyz"` splits into `"1:a"` and `"xyz"` |
| Strings.SplitEmptyCell | xlsx/reader.go:179 | an empty cell is one empty token |
| Records.Zero | xlsx/reader.go:201 | `reflect.New` of a struct gives a value of that struct type with every field at its zero value |
| Records.FieldByName | xlsx/reader.go:114 | the first field with the given name; None exactly when no field has that name |
| Records.SetField | xlsx/reader.go:121-123 | a write to one field sets that field's value and leaves every other field as it was |
| Records.SetFieldFits | xlsx/reader.go:121-123 | writing a value of the field's kind keeps the record a value of its struct type |
| Convert.Store | xlsx/reader.go:135-137 | a reflect `Set` writes the value exactly when the field is exported, and otherwise panics |
| Convert.Builtin | xlsx/reader.go:130-223 | whatever the conversion writes has the field's kind, within the 64-bit ranges for integers |
| Convert.Decompose | xlsx/reader.go:189-214 | every sub-record a list decomposition yields is a value of the element struct type |
| Convert.FillSub | xlsx/reader.go:201-211 | sub-record assembly keeps the record a value of the element struct type |
| Convert.ReadBuiltinType | xlsx/reader.go:130-223 | the method with its loops computes exactly the conversion `Builtin` specifies |
| Convert.ReadList | xlsx/reader.go:173-214 | the token loop returns exactly the decomposition `Decompose` specifies for the split cell, including the panic that stops it |
| Convert.NewSubRecord | xlsx/reader.go:201-211 | the capture-group loop returns exactly the sub-record `FillSub` builds from a zero record, or its panic |
| Convert.BoolExamples | xlsx/reader.go:133-138 | `"true"` and `"1"` are true; `"TRUE"`, `""`, `"false"` and `"no"` are false; a bool field never panics |
| Convert.AssignOnlyExported | xlsx/reader.go:133-169 | a field is written only if it is exported; an unexported bool or string field panics on every text |
| Convert.IntRoundTrip | xlsx/reader.go:140-147 | an int field receives the value of decimal text inside the int64 range; outside it, the conversion panics with a range error naming the key and text |
| Convert.UintRoundTrip | xlsx/reader.go:148-156 | a uint field receives the value of decimal, `0b`, `0o` or `0x` text inside the uint64 range; outside it, the conversion panics with a range error |
| Convert.ScalarFailures | xlsx/reader.go:140-156 | `"abc"` and `""` panic for an int field, `"-1"` panics for a uint field, and `"0x2A"` and `"42"` give 42 |
| Convert.LeftAlone | xlsx/reader.go:170-219 | an array field (the empty `reflect.Array` case) is accepted and left alone; a field of an unsupported kind (the `default` case) is left alone and reported as unhandled |
| Convert.MissingPattern | xlsx/reader.go:173-177 | a list field without a pattern for its key panics, whatever the cell holds |
| Convert.ListBuiltin | xlsx/reader.go:179-216 | a list field is set to the decomposition of its cell alone, or the conversion panics with the decomposition's panic |
| Convert.FillSubSucceeds | xlsx/reader.go:201-211 | assembly succeeds exactly when every capture group is empty, or names an existing field and converts without panic |
| Convert.FillSubPanic | xlsx/reader.go:201-211 | a failed assembly reports the panic of the first capture group that does not convert, with a field-index panic for a group past the last field |
| Convert.FillSubValues | xlsx/reader.go:201-211 | each field whose capture group converts to a value holds that value; every other field keeps its zero value |
| Convert.MatchedGroups | xlsx/reader.go:190 | a reference definition, independent of assembly and of the slice type: the capture groups of the matching tokens, in order, at most one per token; DecomposeSucceeds and DecomposeItems are stated against it |
| Convert.DecomposeSucceeds | xlsx/reader.go:189-214 | decomposition succeeds exactly when: every token the pattern rejects is empty; every match assembles; and the slice holds pointers or nothing matches |
| Convert.DecomposeItems | xlsx/reader.go:189-214 | a successful decomposition holds one sub-record per matching token, in token order, each assembled from that token's groups |
| Convert.AssemblePair | xlsx/reader.go:201-211 | the groups `"1"` and `"a"` fill the int and string fields of a fresh sub-record |
| Convert.PairTokenStep | xlsx/reader.go:189-213 | a matching token puts its sub-record in front of those the rest of the cell yields |
| Convert.EmptyTokenStep | xlsx/reader.go:192-198 | an empty token that the pattern rejects contributes nothing |
| Convert.ListTwoTokens | xlsx/reader.go:179-216 | `"1:a,2:b"` decodes into two sub-records, in order |
| Convert.ListEmptyTokenSkipped | xlsx/reader.go:192-198 | `"1:a,,2:b"` decodes into the same two sub-records |
| Convert.ListBadToken | xlsx/reader.go:194-196 | `"1:a,xyz"` panics with an error that names the whole cell |
| Convert.ValueListPanics | xlsx/reader.go:185-213 | in a `[]T` field, the first matching token makes the append panic |
| RowReading.TypeStringLayout | xlsx/reader.go:39-42 | a type prints as one `*` per pointer level followed by the name of its non-pointer base type |
| RowReading.MessageShape | xlsx/reader.go:34-43 | every message is `xlsx: Unmarshal(` ... `)`; for a non-nil type it ends with the printed type; it is `xlsx: Unmarshal(nil)` exactly when the type is nil |
| RowReading.PointerMessage | xlsx/reader.go:42 | a pointer type's message is `nil *` followed by its element type |
| RowReading.TypeStringInjective | xlsx/reader.go:39-42 | distinct well-named types print differently |
| RowReading.InvalidUnmarshalMessageInjective | xlsx/reader.go:34-43 | distinct well-named types give distinct messages; distinct targets can still share one (see SetPointerErrorLikeNilDoublePointer) |
| RowReading.InvalidUnmarshalExamples | xlsx/reader.go:35-41 | the messages for a nil target and for the non-pointer `main.Row` |
| RowReading.NilPointerMessageExample | xlsx/reader.go:42 | the message for `*main.Row` |
| RowReading.NonNilPointerMessageExample | xlsx/reader.go:42 | the message for `**main.Row`, the type of a pointer to a non-nil `*main.Row` |
| RowReading.ResolveColumn | xlsx/reader.go:97-103 | the key is the sheet, a dot and the field name; the field name is the renamed header when the map holds the header's key, else the header |
| RowReading.ColumnKeySuffix | xlsx/reader.go:97-103 | the key is the sheet, a dot, then exactly the field name |
| RowReading.RenameAppliedOnce | xlsx/reader.go:100-103 | the rename map is applied once, not transitively |
| RowReading.DecodeCell | xlsx/reader.go:96-123 | a cell past the header panics; a panicking cell leaves the record as it was |
| RowReading.DecodeFrom | xlsx/reader.go:96-125 | the cell loop from a given cell on: a row with more cells than header cells, decoded from any cell before its end, never finishes without an error; RowReader.ReadCells is proved to compute it |
| RowReading.CustomUnmarshalerWins | xlsx/reader.go:105-111 | a registered unmarshaler alone decides the cell; its error stops the row with the cell named; the conversion settings play no part |
| RowReading.SkippedCells | xlsx/reader.go:114-123 | a column naming no field, an array field and an unsupported kind each leave the record unchanged and let the row go on |
| RowReading.BuiltinTouchesOneField | xlsx/reader.go:121-123 | a conversion writes only the named field, and a panic leaves the record untouched |
| RowReading.ListFieldReplaced | xlsx/reader.go:179-216 | a list field is replaced by the cell's decomposition, not appended to, and keeps its old value when decomposition panics |
| RowReading.FailureIgnoresLaterCells | xlsx/reader.go:105-111 | once a cell fails, no later cell is looked at |
| RowReading.SuccessComposes | xlsx/reader.go:96-125 | the cells of a row are applied in order, each to the record the previous ones left |
| RowReading.CellKeepsShape | xlsx/reader.go:96-123 | one cell keeps the record a value of its struct type |
| RowReading.DecodeKeepsShape | xlsx/reader.go:96-125 | a whole row, failed or not, keeps the record a value of its struct type |
| RowReading.UnnamedFieldUntouched | xlsx/reader.go:96-123 | with no custom unmarshalers, a field that no remaining column names keeps its value through the row |
| RowReading.StructVar.constructor | xlsx/reader.go:85-88 | a fresh struct variable holds the zero value of its type |
| RowReading.TargetError | xlsx/reader.go:79-94 | validation succeeds exactly for a pointer to a nil `*T`; a nil interface, a non-pointer, a nil pointer, a pointer to an already set `*T`, to a non-nil reference or to a nil pointer to a non-struct give `ErrInvalidUnmarshal` with the type of the argument; a pointer to a struct or another non-nilable value, to a nil map, slice or channel, or to a nil func or interface give the recovered panic |
| RowReading.SetPointerErrorLikeNilDoublePointer | xlsx/reader.go:79-94 | a nil `**T` and a pointer to an already set `*T` are distinct targets refused with the same error, hence the same message |
| RowReading.NonNilTargetMessage | xlsx/reader.go:89-91 | a pointer to an already set `*T` is refused with the message `xlsx: Unmarshal(nil **T)` |
| RowReading.RowReader.constructor | xlsx/reader.go:58-69 | the reader keeps the sheet's tables, name, header and row; the split is `","`; the id is 0 |
| RowReading.RowReader.Read | xlsx/reader.go:71-126 | an invalid target returns its validation error and leaves a non-nil pointer alone; a pointer to a nil `*T` gets a fresh struct holding exactly the decoded row, with the row's error |
| RowReading.RowReader.ReadCells | xlsx/reader.go:96-125 | the cell loop leaves the record and error that `DecodeFrom` specifies, stopping at the first failing cell |
| SheetReading.FirstSheetNamed | xlsx/reader.go:251-263 | the position of the first sheet with the name; None exactly when no sheet has it |
| SheetReading.DataRows | xlsx/reader.go:265-277 | no rows exactly when the sheet is unknown or has fewer than two rows; otherwise the first matching sheet is its header row followed by exactly these rows |
| SheetReading.Reader.constructor | xlsx/reader.go:234-246 | a new reader has the workbook's sheets and empty pattern, unmarshaler and rename tables |
| SheetReading.Reader.NewRowReader | xlsx/reader.go:58-69 | a fresh row reader sharing this reader's tables, with split `","` and id 0 |
| SheetReading.Reader.Read | xlsx/reader.go:249-278 | one fresh, distinct row reader per data row, in row order, all with the first matching sheet's header and the sheet name |
| SheetReading.NoDataRows | xlsx/reader.go:261-267 | a sheet with only a header, or an unknown sheet name, gives no readers |
| SheetReading.FirstOfDuplicates | xlsx/reader.go:254-259 | when two sheets share a name, the first is read |

## Left out

- File I/O: opening the workbook (`NewReader`, xlsx/reader.go:234-246) is outside the model. The `Reader` constructor takes the sheets as a sequence of named sheets, each a sequence of rows of cell texts.
- Floating point: `strconv.ParseFloat` is a parameter of the model (`parseFloat`), returning None on error or else the 64-bit IEEE-754 bits. Float parsing itself is not modelled.
- Regular expressions: each column pattern is a function from a token to None (no match) or to its capture groups after the whole match. The regex engine is not modelled.
- Custom unmarshalers are functions from the record and the cell text to the new record and a failure flag. Their bodies, and any panic raised inside one, are not modelled.
- Narrow integer types: `int8` to `int32` fields, and the unsigned equivalents, are truncated by `SetInt`/`SetUint` after a 64-bit parse. They are not modelled; integer fields are 64 bits wide.
- A slice field whose element type is not a struct (or a pointer to one) is not modelled, nor is the difference between a nil slice and an empty slice.
- Logging (`reader.W`, xlsx/reader.go:117) and the text of `gserrors` messages are not modelled. Errors carry only the key, the text and the cause.
- `ErrUnmarshalField` (xlsx/reader.go:18-27) is never used by the code and is not modelled.
- reflect_test.go only prints a reflected type and is not part of this model.
- RowReading.RowReader.Read: the row reader holds copies of the shared pattern, unmarshaler and rename tables. A change that the `Reader` makes to them after a row reader was created is not seen.
- RowReading.TargetError: a nil `*U` (U not a struct) is allocated before it is rejected. That side effect on the target is not tracked, and neither is the message for a named pointer type.
- Records.FieldByName: fields promoted from embedded structs are not modelled; records are flat. Go's `FieldByName` finds such a field and the cell is written into it, and when the embedded struct is reached through a pointer that is nil it panics; every `T` freshly allocated for a row (xlsx/reader.go:85-88) has its embedded pointers nil. In the model a column that names a promoted field names no field and is skipped.
- Strings.Split: with an empty separator, Go cuts after each UTF-8 sequence; the model cuts after each character.
- Convert.ReadBuiltinType: returns what it does to the field as an `Outcome`, and the caller writes the field. Go writes through a `reflect.Value` in place.
- SheetReading.Reader.Read: returns a sequence of fresh row readers in place of Go's pre-sized slice, and returns an empty sequence where Go returns nil.
