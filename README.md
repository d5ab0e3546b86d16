# go-modkit enums and routing prefixes, modelled in Dafny

This project models two parts of the go-modkit Go library.

1. **`enums.New`**. It turns a record whose fields are the members of an enumeration into an enum.
   - Every field that holds a non-zero value keeps it.
   - A zero text field takes its field name. The `Lowercase()` option lowercases the name first (enums/main.go:46-49). The `Uppercase()` option uppercases it, as its doc comment (enums/options.go:20) and the tests (enums/main_test.go:49-54) promise; the code of `New` as written has no uppercase path.
   - Any other zero field stays zero.
   - Each resolved value is written back into its field and added to an ordered `values` list.
   - The record's type name is kept for error messages.
   - The queries `ListValues`, `IsValid` and `Validate` work on top of that list.

   The casing options are builders. Each one sets a flag on a shared `options` object before the fields are scanned.
2. **`routing.VersionablePrefix`**. It builds the route prefix `/v{version}/{moduleName}`.

Files and modules:

- `decimal.dfy` (`Decimal`): integers rendered as Go's `%d` prints them, plus the parser that reads them back.
- `strs.dfy` (`Strs`): `ToLower` and `TrimSuffix`, the `strings` functions the package calls, and `ToUpper`, the casing that the `Uppercase()` option promises (enums/options.go:20, enums/main_test.go:49-54); no source file calls `strings.ToUpper`.
- `options.dfy` (`EnumOptions`): the `options` struct as a class with two mutable flags, the builders, and how they combine.
- `enums.dfy` (`Enums`): the record, the enum, `New` as a method with a loop, and the queries as member functions of the `Enum` datatype.
- `enum_examples.dfy` (`EnumExamples`): the enums of the package's tests, stated for every enum that `New` builds from them.
- `routing.dfy` (`Routing`): `VersionablePrefix` as a function that returns a closure.

Design decisions:

- **Field order.** `New` resolves fields in declaration order, which is what the tests expect. The code as written ranges over a Go map, so its order is random.
- **Both casing flags set.** Lowercase wins. `enums/main.go:46` consults only the lowercase flag, so it is checked first.
- **Where precedence lives.** The flags themselves do not depend on the order the builders ran in. `EnumOptions.ComposedOrderIrrelevant` proves this, so any precedence sits in the consumer, `Enums.DerivedName`.
- **Options signature.** The code of `New` (`enums/main.go:23`) takes a variadic `lowercase ...bool`. The tests call it with `Lowercase()` and `Uppercase()` (`enums/main_test.go:34, 49`). The model follows the option design of `enums/options.go`: `New` takes a sequence of builders and applies them to a fresh options object.
- **Trimming.** `strings.TrimSuffix(name, "s")` (enums/main.go:88) removes one final `s`, so a type named `Statuses` is reported as `Statuse`; see `EnumExamples.StatusesCustomValues`.
- **Method names.** The tests call `Values()`, but the code's method is `ListValues()`. The model uses `ListValues`.

## Model

| member | source | states |
|---|---|---|
| `Enums.New` | enums/main.go:23-73 | Loop with invariants. One value per field, in declaration order. A non-zero value is kept. A zero text field takes its name, cased by the options. A zero non-text field stays zero. Each value is written back into its field. The type name is kept. |
| `Enums.ConstructionDeterministic` | enums/main.go:23-73 | The record and the flags determine the enum uniquely. |
| `Enums.ConstructionPreservesTyping` | enums/main.go:38-57 | From a well-typed record, every resolved value and every field has the record's scalar type. |
| `Enums.Enum.ListValues` | enums/main.go:75-78 | Returns the value list as built; its properties are stated by `Enums.ListValuesFollowFields`. |
| `Enums.ListValuesFollowFields` | enums/main.go:75-78 | `ListValues` has one entry per field. Entry i is field i's final value and keeps field i's name. |
| `Enums.DerivedName` | enums/main.go:46-50 | The name a zero text field takes: lowercased under `lowercase` (which wins when both flags are set), otherwise uppercased under `uppercase`, otherwise verbatim. The uppercase branch follows enums/options.go:20 and enums/main_test.go:49-54; the code as written only lowercases. Stated by `Enums.DerivedNameUnderOptions`. |
| `Enums.Resolve` | enums/main.go:38-57 | The value of one field: non-zero kept, zero text derived from the name, other zero kept. Stated by `Enums.New` and `Enums.CasingOnlyAffectsDerivedText`. |
| `Enums.Render` | enums/main.go:88 | `%v` of one value: text verbatim, an int in decimal (`Decimal.IntToString`), a bool as "true" or "false". |
| `Enums.RenderList` | enums/main.go:88 | `%v` of the value slice: the rendered values separated by single spaces, in brackets; see `EnumExamples.StatusesCustomValues` for "[1 2 3]". |
| `Enums.InvalidValueMessage` | enums/main.go:88 | The `fmt.Errorf` message of `Validate`; its content is stated by `Enums.Enum.Validate`. |
| `Enums.Contains` | enums/main.go:82 | The linear scan modelling `slices.Contains` is true exactly when the value is in the list. |
| `Enums.Enum.IsValid` | enums/main.go:80-83 | True exactly when some position of the value list holds the value. |
| `Enums.IsValidIffSomeFieldResolvesTo` | enums/main.go:81-83 | Both directions: a value is valid iff some field resolved to it. So a value no field was given, such as "Vegan", is invalid. |
| `Enums.FieldValuesAreValid` | enums/main.go:81-91 | Every field's final value is valid, and `Validate` returns no error for it. |
| `Enums.Enum.Validate` | enums/main.go:85-91 | No error iff the value is valid. Otherwise the message is "invalid value for type " + the type name with one trailing "s" trimmed + ": " + the value + ". Valid values include: " + the list in `%v` form. |
| `Enums.CasingOnlyAffectsDerivedText` | enums/main.go:39-56 | An explicit value, or any field of a non-text record, resolves to its own value under any casing flags. |
| `Enums.DerivedNameUnderOptions` | enums/main.go:46-50 | With no options a derived name is the field name verbatim. With `Lowercase` only it is lowercased. With `Uppercase` only it is uppercased. |
| `EnumOptions.Options.constructor` | enums/options.go:3-6 | A fresh options object has both flags off. |
| `EnumOptions.Options.Apply` | enums/options.go:13-28 | A builder's closure sets its own flag, leaves the other flag unchanged, and returns the same object it was given. |
| `EnumOptions.Options.ApplyAll` | enums/options.go:8-28 | Applying the builders in turn leaves `lowercase` set iff it was set or `Lowercase` was among them. The same holds for `uppercase`. |
| `EnumOptions.Applied` | enums/options.go:14-17 | What one builder's closure does to the flags; stated by `EnumOptions.AppliedSetsOneFlag` and `EnumOptions.AppliedIdempotent` (the `Uppercase` case is enums/options.go:24-27). |
| `EnumOptions.Composed` | enums/options.go:8-28 | The pure account of a sequence of builders: each flag ends up on iff it started on or its builder occurs. |
| `EnumOptions.AppliedSetsOneFlag` | enums/options.go:14-17 | `Lowercase` sets `lowercase` and keeps `uppercase`. `Uppercase` sets `uppercase` and keeps `lowercase`. |
| `EnumOptions.AppliedIdempotent` | enums/options.go:15 | Applying a builder twice gives the same flags as applying it once. |
| `EnumOptions.ComposedOrderIrrelevant` | enums/options.go:3-28 | Two builder sequences that hold the same builders give the same flags, whatever the order. |
| `EnumOptions.ComposedExamples` | enums/options.go:12-22 | No builders leaves both flags off. Lowercase-then-Uppercase equals Uppercase-then-Lowercase, both flags on. A repeated Lowercase is the same as one. |
| `Strs.ToLower` | enums/main.go:48 | Same length as the input. Every character is the ASCII lowercase of the input character at that position. |
| `Strs.ToUpper` | enums/options.go:20-28 | Same length as the input. Every character is the ASCII uppercase of the input character at that position. No source file calls `strings.ToUpper`: this is the casing that the `Uppercase()` doc comment and enums/main_test.go:49-54 promise. |
| `Strs.ToLowerNormalizes` | enums/main.go:48 | The result holds no upper-case letter. Lowercasing it again changes nothing. |
| `Strs.ToUpperNormalizes` | enums/options.go:20-28 | The result holds no lower-case letter. Uppercasing it again changes nothing. |
| `Strs.CaseMappingsAgreeUpToCase` | enums/options.go:10-28 | Lowercasing an uppercased name equals lowercasing the name. The same holds the other way round. |
| `Strs.TrimSuffix` | enums/main.go:88 | If the string ends with the suffix, the result plus the suffix is the string. Otherwise the string is unchanged. |
| `Strs.TrimSuffixRemovesAtMostOne` | enums/main.go:88 | The result is a prefix of the input, at most one suffix shorter. A doubled suffix leaves one copy behind. |
| `Decimal.IntToString` | routing/main.go:11 | Never empty. Begins with '-' iff the number is negative. The rest is digits. |
| `Decimal.IntRoundTrip` | routing/main.go:11 | Parsing the decimal rendering gives back the integer. |
| `Decimal.IntToStringInjective` | routing/main.go:11 | Distinct integers render differently. |
| `Routing.VersionablePrefix` | routing/main.go:9-12 | The closure from a version to `"/v" + decimal(version) + "/" + moduleName`; stated by `Routing.PrefixShape`, `Routing.PrefixVersionRecoverable` and `Routing.PrefixInjective`. |
| `Routing.PrefixShape` | routing/main.go:9-12 | The prefix starts with "/v" and ends with "/" followed by the module name verbatim. The part in between is the version's decimal rendering. |
| `Routing.PrefixVersionRecoverable` | routing/main.go:9-12 | The version can be parsed back out of the prefix. |
| `Routing.PrefixInjective` | routing/main.go:9-12 | For one module name, distinct versions give distinct prefixes. |
| `Routing.PrefixExamples` | routing/main_test.go:12-14 | `VersionablePrefix("users")(1)` and `(2)` give "/v1/users" and "/v2/users". The doc-comment example gives "/v1/analysis". |
| `EnumExamples.MealPreferenceDerivedNames` | enums/main_test.go:13-25 | `New(MealPreferences{})` gives `[Veg NonVeg]` and writes "Veg" and "NonVeg" back into the fields. The test lines 70-80 also follow: both values are valid, "Vegan" is not, and the error message for "Vegan" is exact. |
| `EnumExamples.MealPreferenceLowercase` | enums/main_test.go:27-40 | With `Lowercase()` the values and the written-back fields are "veg" and "nonveg", for any type name (the named and the anonymous struct alike). |
| `EnumExamples.MealPreferenceUppercase` | enums/main_test.go:42-55 | With `Uppercase()` the values and the written-back fields are "VEG" and "NONVEG". |
| `EnumExamples.AnonymousMealPreference` | enums/main_test.go:57-68 | An anonymous struct with `Lowercase()` gets the fields "veg" and "nonveg". Its error message has an empty type name. |
| `EnumExamples.MealPreferenceCustomValues` | enums/main_test.go:83-99 | The fields keep the explicit "Vegetarian" and "Non-Vegetarian", under any options. |
| `EnumExamples.StatusesStayZero` | enums/main_test.go:105-120 | Three unset int fields stay 0, 0, 0 under any options. 0 is valid and 1 is not. |
| `EnumExamples.StatusesCustomValues` | enums/main_test.go:122-141 | The fields keep the explicit 1, 2, 3. The error for 4 names the type "Statuse" and lists "[1 2 3]". |

## Left out

- JSON round trips in `New` (`enums/main.go:28-36, 60-68`) and their panics. The model reads and writes fields directly in an ordered field list, so no marshal failure can occur.
- Reflection (`enums/main.go:40-45, 70`). It is reduced to two things: the record's scalar kind, and its type name as a string. The embedded `String`/`Int` marker field of the test records is not a member and is not modelled. The code has no check for reference-typed fields: `json.Marshal` (enums/main.go:28) follows pointers, and only a marshal or unmarshal failure panics (enums/main.go:29-36). The model's fields hold only scalars, so neither arises.
- Go map iteration order, and the delete/insert of keys during the range (`enums/main.go:38-52`). Fields are resolved in declaration order, as the tests expect.
- `Enums.New`: takes option builders, not the `lowercase ...bool` of the code as written. It is modelled on the options design the tests use. `New` as written has no uppercase path and never reads the `uppercase` flag set at enums/options.go:25; the model's uppercase branch follows the `Uppercase()` doc comment and the tests.
- `Strs.ToLower`: maps only ASCII letters. Go's `strings.ToLower` also maps other Unicode letters. `Strs.ToUpper` differs from `strings.ToUpper` the same way.
- Float and unsigned enum kinds (`enums/aliases.go`). Only text, int and bool scalars are modelled. Ints are unbounded: values are only compared and printed, never computed with, so 64-bit width does not matter.
- `Decimal.IntToString`: unbounded, where Go's `int` has 64 bits. Versions outside that range are not excluded.
- `%v` formatting of arbitrary values. Each scalar is rendered by a simple model-level function (`Enums.Render`, `Enums.RenderList`).
- `enums/main_type.go`: `Format`, `MarshalJSON` and `UnmarshalJSON` are thin wrappers over `fmt` and `encoding/json`. `enums/aliases.go` only declares type aliases.
- `parallel_convey/main.go` and `packages/parallel_convey/main.go`: a goroutine fan-out joined by a `sync.WaitGroup`. Nothing in it is sequential logic.
- The option builders are Go closures. Here they are the values of the datatype `EnumOptions.OptionBuilder`, run by `EnumOptions.Options.Apply`.
