/** The string helpers the enum package takes from Go's `strings` package:
  * case mapping (over ASCII letters) and suffix trimming. */
module Strs {

  predicate IsUpper(c: char) { 'A' <= c <= 'Z' }

  predicate IsLower(c: char) { 'a' <= c <= 'z' }

  function LowerChar(c: char): char
  {
    if IsUpper(c) then (c as int + 32) as char else c
  }

  function UpperChar(c: char): char
  {
    if IsLower(c) then (c as int - 32) as char else c
  }

  /** `strings.ToLower`: every upper-case letter mapped to its lower-case form, all else kept. */
  function ToLower(s: string): (r: string)
    ensures |r| == |s|
    ensures forall i :: 0 <= i < |s| ==> r[i] == LowerChar(s[i])
  {
    if s == [] then [] else [LowerChar(s[0])] + ToLower(s[1..])
  }

  /** `strings.ToUpper`: every lower-case letter mapped to its upper-case form, all else kept. */
  function ToUpper(s: string): (r: string)
    ensures |r| == |s|
    ensures forall i :: 0 <= i < |s| ==> r[i] == UpperChar(s[i])
  {
    if s == [] then [] else [UpperChar(s[0])] + ToUpper(s[1..])
  }

  /** A lowercased string holds no upper-case letter, and lowercasing it again changes nothing. */
  lemma ToLowerNormalizes(s: string)
    ensures forall i :: 0 <= i < |s| ==> !IsUpper(ToLower(s)[i])
    ensures ToLower(ToLower(s)) == ToLower(s)
  {
  }

  /** An uppercased string holds no lower-case letter, and uppercasing it again changes nothing. */
  lemma ToUpperNormalizes(s: string)
    ensures forall i :: 0 <= i < |s| ==> !IsLower(ToUpper(s)[i])
    ensures ToUpper(ToUpper(s)) == ToUpper(s)
  {
  }

  /** The two mappings only disagree on letters: each undoes the other up to case. */
  lemma CaseMappingsAgreeUpToCase(s: string)
    ensures ToLower(ToUpper(s)) == ToLower(s)
    ensures ToUpper(ToLower(s)) == ToUpper(s)
  {
  }

  predicate HasSuffix(s: string, suffix: string)
  {
    |suffix| <= |s| && s[|s| - |suffix|..] == suffix
  }

  /** `strings.TrimSuffix`: drops ONE occurrence of `suffix` at the end, if there is one. */
  function TrimSuffix(s: string, suffix: string): (r: string)
    ensures HasSuffix(s, suffix) ==> r + suffix == s
    ensures !HasSuffix(s, suffix) ==> r == s
  {
    if HasSuffix(s, suffix) then s[..|s| - |suffix|] else s
  }

  /** Trimming is a prefix of the input and removes at most one copy of the suffix. */
  lemma TrimSuffixRemovesAtMostOne(s: string, suffix: string)
    ensures |TrimSuffix(s, suffix)| >= |s| - |suffix|
    ensures TrimSuffix(s, suffix) == s[..|TrimSuffix(s, suffix)|]
    ensures HasSuffix(s, suffix + suffix) ==> HasSuffix(TrimSuffix(s, suffix), suffix)
  {
  }
}
