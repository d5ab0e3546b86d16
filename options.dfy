/** The casing options of the enum builder (enums/options.go): a small mutable
  * `options` object and the builders that set its flags before the scan. */
module EnumOptions {

  /** The builders `Lowercase()` and `Uppercase()`: each stands for the closure the
    * Go function returns, which sets one flag on the options it is given. */
  datatype OptionBuilder = Lowercase | Uppercase

  /** The value of an `options` object: its two flags. */
  datatype Flags = Flags(lowercase: bool, uppercase: bool)

  const NoFlags := Flags(false, false)

  /** What one builder does to the flags. */
  function Applied(f: Flags, b: OptionBuilder): Flags
  {
    match b
    case Lowercase => f.(lowercase := true)
    case Uppercase => f.(uppercase := true)
  }

  /** The builders applied in sequence, first to last. */
  function Composed(f: Flags, builders: seq<OptionBuilder>): (r: Flags)
    ensures r.lowercase == (f.lowercase || Lowercase in builders)
    ensures r.uppercase == (f.uppercase || Uppercase in builders)
    decreases |builders|
  {
    if builders == [] then f else Composed(Applied(f, builders[0]), builders[1..])
  }

  /** Each builder sets its own flag and leaves the other one alone. */
  lemma AppliedSetsOneFlag(f: Flags, b: OptionBuilder)
    ensures b == Lowercase ==> Applied(f, b) == Flags(true, f.uppercase)
    ensures b == Uppercase ==> Applied(f, b) == Flags(f.lowercase, true)
  {
  }

  /** Applying a builder twice is the same as applying it once. */
  lemma AppliedIdempotent(f: Flags, b: OptionBuilder)
    ensures Applied(Applied(f, b), b) == Applied(f, b)
  {
  }

  /** The order of the builders does not matter: `Lowercase` then `Uppercase`
    * leaves the same flags as `Uppercase` then `Lowercase` (both set). */
  lemma ComposedOrderIrrelevant(f: Flags, bs: seq<OptionBuilder>, cs: seq<OptionBuilder>)
    requires forall b :: b in bs <==> b in cs
    ensures Composed(f, bs) == Composed(f, cs)
  {
  }

  /** With no builders the flags stay off; with both, both are on whatever the order. */
  lemma ComposedExamples()
    ensures Composed(NoFlags, []) == NoFlags
    ensures Composed(NoFlags, [Lowercase, Uppercase]) == Composed(NoFlags, [Uppercase, Lowercase]) == Flags(true, true)
    ensures Composed(NoFlags, [Lowercase, Lowercase]) == Composed(NoFlags, [Lowercase]) == Flags(true, false)
  {
  }

  /** The Go `options` struct, shared by pointer between the builders. */
  class Options {
    var lowercase: bool
    var uppercase: bool

    /** A fresh options object: no casing. */
    constructor ()
      ensures lowercase == false && uppercase == false
    {
      lowercase := false;
      uppercase := false;
    }

    function Value(): Flags
      reads this
    {
      Flags(lowercase, uppercase)
    }

    /** Running the closure of builder `b` on this object: it sets one flag
      * and returns the very object it was given. */
    method Apply(b: OptionBuilder) returns (r: Options)
      modifies this
      ensures r == this
      ensures b == Lowercase ==> lowercase && uppercase == old(uppercase)
      ensures b == Uppercase ==> uppercase && lowercase == old(lowercase)
      ensures Value() == Applied(old(Value()), b)
    {
      r := this;
      match b
      case Lowercase =>
        lowercase := true;
      case Uppercase =>
        uppercase := true;
    }

    /** Applying the builders one after another, before the scan starts. */
    method ApplyAll(builders: seq<OptionBuilder>)
      modifies this
      ensures Value() == Composed(old(Value()), builders)
      ensures lowercase == (old(lowercase) || Lowercase in builders)
      ensures uppercase == (old(uppercase) || Uppercase in builders)
    {
      var i := 0;
      while i < |builders|
        invariant 0 <= i <= |builders|
        invariant Composed(Value(), builders[i..]) == Composed(old(Value()), builders)
      {
        var _ := Apply(builders[i]);
        assert builders[i..][1..] == builders[i + 1..];
        i := i + 1;
      }
    }
  }
}
