/** The enum-derivation engine (enums/main.go): `New` turns a record whose fields
  * are the members of an enumeration into an enum whose zero-valued text members
  * are named after their fields, and keeps the ordered list of their values for
  * the queries `ListValues`, `IsValid` and `Validate`. */
module Enums {
  import opened Strs
  import opened Decimal
  import opened EnumOptions

  datatype Option<T> = None | Some(value: T)

  /** The scalar type V shared by all fields of a record (the `String`, `Int`
    * and `Bool` aliases of the package). */
  datatype Kind = TextKind | IntKind | BoolKind

  datatype Scalar = Text(s: string) | Int(i: int) | Bool(b: bool)

  function KindOf(v: Scalar): Kind
  {
    match v
    case Text(_) => TextKind
    case Int(_) => IntKind
    case Bool(_) => BoolKind
  }

  /** Go's zero value of each scalar type: "", 0, false. */
  function Zero(k: Kind): (z: Scalar)
    ensures KindOf(z) == k
  {
    match k
    case TextKind => Text("")
    case IntKind => Int(0)
    case BoolKind => Bool(false)
  }

  /** One field of the record: its declared name and its current value. */
  datatype Field = Field(name: string, value: Scalar)

  /** The record handed to `New`: the name of its type, the scalar type of
    * its fields, and the fields in declaration order. */
  datatype Record = Record(typeName: string, kind: Kind, fields: seq<Field>)

  /** Every field holds a value of the record's scalar type (Go's type checker
    * guarantees this of every record `New` is called with). */
  predicate WellTyped(r: Record)
  {
    forall i :: 0 <= i < |r.fields| ==> KindOf(r.fields[i].value) == r.kind
  }

  /** The value derived from a field name under the casing flags. When both
    * flags are set, lowercase wins. */
  function DerivedName(name: string, policy: Flags): string
  {
    if policy.lowercase then ToLower(name)
    else if policy.uppercase then ToUpper(name)
    else name
  }

  /** The value `New` gives one field: an explicit (non-zero) value is kept, a
    * zero text field takes its (cased) name, any other zero field stays zero. */
  function Resolve(kind: Kind, policy: Flags, f: Field): Scalar
  {
    if f.value != Zero(kind) then f.value
    else if kind == TextKind then Text(DerivedName(f.name, policy))
    else f.value
  }

  /** `slices.Contains`: a linear scan for `v`. */
  function Contains(s: seq<Scalar>, v: Scalar): (r: bool)
    ensures r <==> v in s
  {
    if s == [] then false else s[0] == v || Contains(s[1..], v)
  }

  /** Go's `%v` rendering of one value. */
  function Render(v: Scalar): string
  {
    match v
    case Text(s) => s
    case Int(i) => IntToString(i)
    case Bool(b) => if b then "true" else "false"
  }

  /** Go's `%v` rendering of a slice: the elements, space separated, in brackets. */
  function RenderList(vs: seq<Scalar>): string
  {
    "[" + RenderElements(vs) + "]"
  }

  function RenderElements(vs: seq<Scalar>): string
  {
    if vs == [] then ""
    else if |vs| == 1 then Render(vs[0])
    else Render(vs[0]) + " " + RenderElements(vs[1..])
  }

  /** The message of the error `Validate` returns. */
  function InvalidValueMessage(typeName: string, v: Scalar, values: seq<Scalar>): string
  {
    "invalid value for type " + TrimSuffix(typeName, "s") + ": " + Render(v)
      + ". Valid values include: " + RenderList(values)
  }

  /** The enum `New` returns: the populated record (`Values`), the ordered
    * value list (`values`) and the record's type name (`reflectType.Name()`). */
  datatype Enum = Enum(record: Record, values: seq<Scalar>, typeName: string)
  {
    /** All values of the enum, in field order. */
    function ListValues(): seq<Scalar>
    {
      values
    }

    /** Membership in the value list. */
    function IsValid(v: Scalar): (r: bool)
      ensures r <==> exists i :: 0 <= i < |values| && values[i] == v
    {
      Contains(values, v)
    }

    /** No error for a valid value; otherwise an error naming the type (one
      * trailing "s" trimmed), the rejected value and all valid values. */
    function Validate(v: Scalar): (r: Option<string>)
      ensures r.None? <==> IsValid(v)
      ensures r.Some? ==> r.value == "invalid value for type " + TrimSuffix(typeName, "s") + ": "
                                     + Render(v) + ". Valid values include: " + RenderList(values)
    {
      if IsValid(v) then None else Some(InvalidValueMessage(typeName, v, values))
    }
  }

  /** `e` is what `New` builds from `record` under the casing flags `policy`:
    * one value per field, in declaration order, each written back into its
    * field, and the record's type name kept. */
  predicate ConstructedFrom(e: Enum, record: Record, policy: Flags)
  {
    && e.typeName == record.typeName
    && e.record.typeName == record.typeName
    && e.record.kind == record.kind
    && |e.values| == |record.fields|
    && |e.record.fields| == |record.fields|
    && forall i :: 0 <= i < |record.fields| ==>
         && e.values[i] == Resolve(record.kind, policy, record.fields[i])
         && e.record.fields[i] == Field(record.fields[i].name, e.values[i])
  }

  /** `New(record, builders...)`: a fresh options object is set up by the
    * builders, then the fields are resolved in declaration order, each
    * resolved value written back into its field and appended to `values`. */
  method New(record: Record, builders: seq<OptionBuilder>) returns (e: Enum)
    ensures ConstructedFrom(e, record, Composed(NoFlags, builders))
    ensures |e.values| == |record.fields|
    ensures forall i :: 0 <= i < |record.fields| && record.fields[i].value != Zero(record.kind) ==>
              e.values[i] == record.fields[i].value
    ensures forall i :: 0 <= i < |record.fields| && record.fields[i].value == Zero(record.kind) && record.kind == TextKind ==>
              e.values[i] == Text(DerivedName(record.fields[i].name, Composed(NoFlags, builders)))
    ensures forall i :: 0 <= i < |record.fields| && record.fields[i].value == Zero(record.kind) && record.kind != TextKind ==>
              e.values[i] == Zero(record.kind)
    ensures e.typeName == record.typeName
  {
    var opts := new Options();
    opts.ApplyAll(builders);
    var policy := opts.Value();
    var fields := record.fields;
    var values: seq<Scalar> := [];
    var i := 0;
    while i < |fields|
      invariant 0 <= i <= |fields| == |record.fields|
      invariant |values| == i
      invariant forall j :: 0 <= j < i ==>
                  values[j] == Resolve(record.kind, policy, record.fields[j])
                  && fields[j] == Field(record.fields[j].name, values[j])
      invariant forall j :: i <= j < |fields| ==> fields[j] == record.fields[j]
    {
      var v := Resolve(record.kind, policy, fields[i]);
      fields := fields[i := Field(fields[i].name, v)];
      values := values + [v];
      i := i + 1;
    }
    e := Enum(Record(record.typeName, record.kind, fields), values, record.typeName);
  }

  /** `New` is deterministic: the record and the flags decide the enum. */
  lemma ConstructionDeterministic(e1: Enum, e2: Enum, record: Record, policy: Flags)
    requires ConstructedFrom(e1, record, policy) && ConstructedFrom(e2, record, policy)
    ensures e1 == e2
  {
  }

  /** A well-typed record stays well-typed, and every value has its scalar type. */
  lemma ConstructionPreservesTyping(e: Enum, record: Record, policy: Flags)
    requires WellTyped(record) && ConstructedFrom(e, record, policy)
    ensures WellTyped(e.record)
    ensures forall i :: 0 <= i < |e.values| ==> KindOf(e.values[i]) == record.kind
  {
  }

  /** `ListValues` lists the resolved field values in declaration order. */
  lemma ListValuesFollowFields(e: Enum, record: Record, policy: Flags)
    requires ConstructedFrom(e, record, policy)
    ensures |e.ListValues()| == |record.fields|
    ensures forall i :: 0 <= i < |record.fields| ==>
              e.ListValues()[i] == e.record.fields[i].value && e.record.fields[i].name == record.fields[i].name
  {
  }

  /** A value is valid exactly when some field resolved to it. */
  lemma IsValidIffSomeFieldResolvesTo(e: Enum, record: Record, policy: Flags, v: Scalar)
    requires ConstructedFrom(e, record, policy)
    ensures e.IsValid(v) <==> exists i :: 0 <= i < |record.fields| && Resolve(record.kind, policy, record.fields[i]) == v
  {
  }

  /** Every field's final value is valid and passes `Validate`. */
  lemma FieldValuesAreValid(e: Enum, record: Record, policy: Flags)
    requires ConstructedFrom(e, record, policy)
    ensures forall i :: 0 <= i < |e.record.fields| ==>
              e.IsValid(e.record.fields[i].value) && e.Validate(e.record.fields[i].value).None?
  {
  }

  /** Casing only touches zero text fields: an explicit value, or a field of a
    * non-text record, resolves alike under any flags. */
  lemma CasingOnlyAffectsDerivedText(e1: Enum, e2: Enum, record: Record, p1: Flags, p2: Flags, i: int)
    requires ConstructedFrom(e1, record, p1) && ConstructedFrom(e2, record, p2)
    requires 0 <= i < |record.fields|
    requires record.fields[i].value != Zero(record.kind) || record.kind != TextKind
    ensures e1.values[i] == e2.values[i] == record.fields[i].value
  {
  }

  /** Without options, a derived name is the field name verbatim; with
    * `Lowercase` or `Uppercase` alone it is that name lowercased or uppercased. */
  lemma DerivedNameUnderOptions(name: string)
    ensures DerivedName(name, Composed(NoFlags, [])) == name
    ensures DerivedName(name, Composed(NoFlags, [Lowercase])) == ToLower(name)
    ensures DerivedName(name, Composed(NoFlags, [Uppercase])) == ToUpper(name)
  {
  }
}
