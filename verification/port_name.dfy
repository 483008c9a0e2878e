/**
 * The rule device detection applies to the configured port name before it
 * probes the board: the lower-cased name must be non-empty and must not be
 * one of the host's placeholders "undefined" and "unknown".
 */
module PortName {

  /** `tolower` in the C locale: only 'A'..'Z' change. */
  function LowerChar(c: char): char {
    if 'A' <= c <= 'Z' then (c as int + 32) as char else c
  }

  /** The name with every character lower-cased. */
  function Lower(s: string): (r: string)
    ensures |r| == |s|
    ensures forall i :: 0 <= i < |s| ==> r[i] == LowerChar(s[i])
  {
    if s == [] then [] else [LowerChar(s[0])] + Lower(s[1..])
  }

  /** Whether a lower-cased port name names a real port. */
  predicate IsUsablePortName(lower: string) {
    0 < |lower| && lower != "undefined" && lower != "unknown"
  }

  /** Lower-cases a copy of the name in place, one character at a time. */
  method ToLowerCase(s: string) returns (r: string)
    ensures r == Lower(s)
  {
    r := s;
    var i := 0;
    while i < |r|
      invariant |r| == |s| && 0 <= i <= |r|
      invariant forall k :: 0 <= k < i ==> r[k] == LowerChar(s[k])
      invariant forall k :: i <= k < |r| ==> r[k] == s[k]
    {
      r := r[i := LowerChar(r[i])];
      i := i + 1;
    }
  }

  /** Lower-casing twice changes nothing more, so the rule ignores case. */
  lemma LowerIdempotent(s: string)
    ensures Lower(Lower(s)) == Lower(s)
  {
  }

  /** A name is accepted or refused regardless of how its letters are cased. */
  lemma RuleIgnoresCase(s: string, t: string)
    requires Lower(s) == Lower(t)
    ensures IsUsablePortName(Lower(s)) == IsUsablePortName(Lower(t))
  {
  }

  /** Lower(s) is t when every character of s lower-cases to the character of t at its place. */
  lemma LowerMatches(s: string, t: string)
    requires |s| == |t| && forall i :: 0 <= i < |s| ==> LowerChar(s[i]) == t[i]
    ensures Lower(s) == t
  {
  }

  /** The hub's default port property "Undefined" is refused. */
  lemma DefaultPortRefused()
    ensures !IsUsablePortName(Lower("Undefined"))
  {
    LowerMatches("Undefined", "undefined");
  }

  /** "Unknown" in any case and the empty name are refused; a real port name such as "COM3" is accepted. */
  lemma PlaceholderNamesRefused()
    ensures !IsUsablePortName(Lower("UNKNOWN"))
    ensures !IsUsablePortName(Lower(""))
    ensures IsUsablePortName(Lower("COM3"))
  {
    LowerMatches("UNKNOWN", "unknown");
    assert |Lower("COM3")| == 4;
  }
}
