/** Versioned route prefixes (routing/main.go). */
module Routing {
  import opened Decimal

  /** `VersionablePrefix(moduleName)` is the closure that maps a version to
    * `"/v" + version in decimal + "/" + moduleName`. */
  function VersionablePrefix(moduleName: string): int -> string
  {
    (version: int) => "/v" + IntToString(version) + "/" + moduleName
  }

  /** The prefix starts with "/v", ends with "/" and the module name verbatim,
    * and what lies between is the decimal rendering of the version. */
  lemma PrefixShape(moduleName: string, version: int)
    ensures var p := VersionablePrefix(moduleName)(version);
      && |p| >= 4 + |moduleName|
      && p[..2] == "/v"
      && p[|p| - |moduleName| - 1..] == "/" + moduleName
      && p[2..|p| - |moduleName| - 1] == IntToString(version)
  {
  }

  /** The version can be read back from the prefix. */
  lemma PrefixVersionRecoverable(moduleName: string, version: int)
    ensures var p := VersionablePrefix(moduleName)(version);
      ParseInt(p[2..|p| - |moduleName| - 1]) == version
  {
    PrefixShape(moduleName, version);
    IntRoundTrip(version);
  }

  /** For one module, distinct versions give distinct prefixes. */
  lemma PrefixInjective(moduleName: string, v1: int, v2: int)
    requires v1 != v2
    ensures VersionablePrefix(moduleName)(v1) != VersionablePrefix(moduleName)(v2)
  {
    PrefixVersionRecoverable(moduleName, v1);
    PrefixVersionRecoverable(moduleName, v2);
  }

  /** The examples of the doc comment and the tests. */
  lemma PrefixExamples()
    ensures VersionablePrefix("analysis")(1) == "/v1/analysis"
    ensures VersionablePrefix("users")(1) == "/v1/users"
    ensures VersionablePrefix("users")(2) == "/v2/users"
  {
  }
}
