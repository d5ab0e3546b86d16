/** The enums of enums/main_test.go, stated of every enum `New` can build from them. */
module EnumExamples {
  import opened Strs
  import opened Decimal
  import opened EnumOptions
  import opened Enums

  /** `type MealPreferences struct { String; Veg string; NonVeg string }`, with
    * the two members given explicit values or left empty. */
  function MealPreferences(name: string, veg: string, nonVeg: string): Record
  {
    Record(name, TextKind, [Field("Veg", Text(veg)), Field("NonVeg", Text(nonVeg))])
  }

  /** `type Statuses struct { Int; Pending int; Active int; Closed int }`. */
  function Statuses(pending: int, active: int, closed: int): Record
  {
    Record("Statuses", IntKind, [Field("Pending", Int(pending)), Field("Active", Int(active)), Field("Closed", Int(closed))])
  }

  /** `New(MealPreferences{})`: the members are named after their fields, and
    * "Vegan" is rejected with the message the test expects. */
  lemma MealPreferenceDerivedNames(e: Enum)
    requires ConstructedFrom(e, MealPreferences("MealPreferences", "", ""), Composed(NoFlags, []))
    ensures e.ListValues() == [Text("Veg"), Text("NonVeg")]
    ensures e.record.fields == [Field("Veg", Text("Veg")), Field("NonVeg", Text("NonVeg"))]
    ensures e.IsValid(Text("Veg")) && e.IsValid(Text("NonVeg")) && !e.IsValid(Text("Vegan"))
    ensures e.Validate(Text("Veg")) == None && e.Validate(Text("NonVeg")) == None
    ensures e.Validate(Text("Vegan"))
         == Some("invalid value for type " + "MealPreference" + ": " + "Vegan" + ". Valid values include: " + "[Veg NonVeg]")
  {
    var r := MealPreferences("MealPreferences", "", "");
    assert e.values[0] == Resolve(TextKind, NoFlags, r.fields[0]);
    assert e.values[1] == Resolve(TextKind, NoFlags, r.fields[1]);
    assert e.values == [Text("Veg"), Text("NonVeg")];
    assert TrimSuffix("MealPreferences", "s") == "MealPreference";
    assert e.values[1..] == [Text("NonVeg")];
    assert RenderElements(e.values) == "Veg NonVeg";
    assert !e.IsValid(Text("Vegan"));
    assert InvalidValueMessage(e.typeName, Text("Vegan"), e.values)
        == "invalid value for type " + "MealPreference" + ": " + "Vegan" + ". Valid values include: " + "[Veg NonVeg]";
  }

  /** `New(MealPreferences{}, Lowercase())`, for the named type and for an
    * anonymous struct of the same shape alike. */
  lemma MealPreferenceLowercase(e: Enum, typeName: string)
    requires ConstructedFrom(e, MealPreferences(typeName, "", ""), Composed(NoFlags, [Lowercase]))
    ensures e.ListValues() == [Text("veg"), Text("nonveg")]
    ensures e.record.fields == [Field("Veg", Text("veg")), Field("NonVeg", Text("nonveg"))]
  {
    var r := MealPreferences(typeName, "", "");
    LowercaseNames();
    assert e.values[0] == Resolve(TextKind, Flags(true, false), r.fields[0]);
    assert e.values[1] == Resolve(TextKind, Flags(true, false), r.fields[1]);
  }

  /** `New(MealPreferences{}, Uppercase())`. */
  lemma MealPreferenceUppercase(e: Enum)
    requires ConstructedFrom(e, MealPreferences("MealPreferences", "", ""), Composed(NoFlags, [Uppercase]))
    ensures e.ListValues() == [Text("VEG"), Text("NONVEG")]
    ensures e.record.fields == [Field("Veg", Text("VEG")), Field("NonVeg", Text("NONVEG"))]
  {
    var r := MealPreferences("MealPreferences", "", "");
    UppercaseNames();
    assert e.values[0] == Resolve(TextKind, Flags(false, true), r.fields[0]);
    assert e.values[1] == Resolve(TextKind, Flags(false, true), r.fields[1]);
  }

  lemma LowercaseNames()
    ensures ToLower("Veg") == "veg" && ToLower("NonVeg") == "nonveg"
  {
  }

  lemma UppercaseNames()
    ensures ToUpper("Veg") == "VEG" && ToUpper("NonVeg") == "NONVEG"
  {
  }

  /** An anonymous struct (its type has no name) with `Lowercase()`: the values
    * are derived all the same, and the error message has an empty type name. */
  lemma AnonymousMealPreference(e: Enum)
    requires ConstructedFrom(e, MealPreferences("", "", ""), Composed(NoFlags, [Lowercase]))
    ensures e.ListValues() == [Text("veg"), Text("nonveg")]
    ensures e.record.fields == [Field("Veg", Text("veg")), Field("NonVeg", Text("nonveg"))]
    ensures e.Validate(Text("Veg"))
         == Some("invalid value for type " + "" + ": " + "Veg" + ". Valid values include: " + "[veg nonveg]")
  {
    MealPreferenceLowercase(e, "");
    assert TrimSuffix("", "s") == "";
    assert e.values[1..] == [Text("nonveg")];
    assert RenderElements(e.values) == "veg nonveg";
    assert !e.IsValid(Text("Veg"));
    assert InvalidValueMessage(e.typeName, Text("Veg"), e.values)
        == "invalid value for type " + "" + ": " + "Veg" + ". Valid values include: " + "[veg nonveg]";
  }

  /** Custom text values are kept as given, under any options. */
  lemma MealPreferenceCustomValues(e: Enum, builders: seq<OptionBuilder>)
    requires ConstructedFrom(e, MealPreferences("MealPreferences", "Vegetarian", "Non-Vegetarian"), Composed(NoFlags, builders))
    ensures e.ListValues() == [Text("Vegetarian"), Text("Non-Vegetarian")]
    ensures e.record.fields == [Field("Veg", Text("Vegetarian")), Field("NonVeg", Text("Non-Vegetarian"))]
  {
  }

  /** `New(Statuses{})`: integer members are not derived and stay 0, even with
    * a casing option. */
  lemma StatusesStayZero(e: Enum, builders: seq<OptionBuilder>)
    requires ConstructedFrom(e, Statuses(0, 0, 0), Composed(NoFlags, builders))
    ensures e.ListValues() == [Int(0), Int(0), Int(0)]
    ensures e.record.fields == [Field("Pending", Int(0)), Field("Active", Int(0)), Field("Closed", Int(0))]
    ensures e.IsValid(Int(0)) && !e.IsValid(Int(1))
  {
  }

  /** `New(Statuses{Pending: 1, Active: 2, Closed: 3})`: explicit integers are
    * kept; trimming one "s" turns the type name "Statuses" into "Statuse". */
  lemma StatusesCustomValues(e: Enum)
    requires ConstructedFrom(e, Statuses(1, 2, 3), Composed(NoFlags, []))
    ensures e.ListValues() == [Int(1), Int(2), Int(3)]
    ensures e.record.fields == [Field("Pending", Int(1)), Field("Active", Int(2)), Field("Closed", Int(3))]
    ensures e.Validate(Int(4)) == Some("invalid value for type " + "Statuse" + ": " + "4" + ". Valid values include: " + "[1 2 3]")
  {
    var r := Statuses(1, 2, 3);
    assert e.values[0] == Resolve(IntKind, NoFlags, r.fields[0]);
    assert e.values[1] == Resolve(IntKind, NoFlags, r.fields[1]);
    assert e.values[2] == Resolve(IntKind, NoFlags, r.fields[2]);
    assert e.values == [Int(1), Int(2), Int(3)];
    assert TrimSuffix("Statuses", "s") == "Statuse";
    assert DigitChar(1) == '1' && DigitChar(2) == '2' && DigitChar(3) == '3' && DigitChar(4) == '4';
    assert IntToString(1) == "1" && IntToString(2) == "2" && IntToString(3) == "3" && IntToString(4) == "4";
    assert e.values[1..] == [Int(2), Int(3)];
    assert e.values[1..][1..] == [Int(3)];
    assert RenderElements(e.values[1..][1..]) == "3";
    assert RenderElements(e.values[1..]) == "2 3";
    assert RenderElements(e.values) == "1 2 3";
    assert !e.IsValid(Int(4));
    assert InvalidValueMessage(e.typeName, Int(4), e.values)
        == "invalid value for type " + "Statuse" + ": " + "4" + ". Valid values include: " + "[1 2 3]";
  }
}
