/** The JavaScript string operations the staging code relies on: `startsWith`, `endsWith`,
    `indexOf` and `replace` with a string pattern. */
module JsString {
  import opened Optional

  predicate StartsWith(s: string, prefix: string) {
    |prefix| <= |s| && s[..|prefix|] == prefix
  }

  predicate EndsWith(s: string, suffix: string) {
    |suffix| <= |s| && s[|s| - |suffix|..] == suffix
  }

  /** `pat` occurs in `s` starting at position `i`. */
  predicate OccursAt(s: string, pat: string, i: nat) {
    i + |pat| <= |s| && s[i..i + |pat|] == pat
  }

  /** `s.indexOf(pat, from)`: the first position at or after `from` where `pat` occurs. */
  function IndexOfFrom(s: string, pat: string, from: nat): (r: Option<nat>)
    decreases |s| - from
    ensures r.Some? ==> from <= r.value && OccursAt(s, pat, r.value)
    ensures forall j: nat :: from <= j && (r.None? || j < r.value) ==> !OccursAt(s, pat, j)
  {
    if from + |pat| > |s| then None
    else if s[from..from + |pat|] == pat then Some(from)
    else IndexOfFrom(s, pat, from + 1)
  }

  function IndexOf(s: string, pat: string): Option<nat> {
    IndexOfFrom(s, pat, 0)
  }

  /** The text `replace` inserts for a match: `replacement` with its `$` patterns expanded
      as GetSubstitution in ECMA-262 does when the pattern is a string (so there are no
      capture groups): `$$` is a dollar sign, `$&` the matched text, `` $` `` the text
      before the match and `$'` the text after it; every other `$` is literal. */
  function Substitution(replacement: string, matched: string, before: string, after: string): string
    decreases |replacement|
  {
    if |replacement| == 0 then ""
    else if replacement[0] == '$' && |replacement| >= 2 && replacement[1] in "$&`'" then
      var rest := Substitution(replacement[2..], matched, before, after);
      match replacement[1]
      case '$' => "$" + rest
      case '&' => matched + rest
      case '`' => before + rest
      case _ => after + rest
    else
      [replacement[0]] + Substitution(replacement[1..], matched, before, after)
  }

  /** `s.replace(pat, replacement)` for a string `pat`: only the first occurrence is replaced. */
  function ReplaceFirst(s: string, pat: string, replacement: string): (r: string)
    ensures IndexOf(s, pat).None? ==> r == s
  {
    match IndexOf(s, pat)
    case None => s
    case Some(i) =>
      s[..i] + Substitution(replacement, pat, s[..i], s[i + |pat|..]) + s[i + |pat|..]
  }

  /** A replacement without a dollar sign is inserted verbatim. */
  lemma {:induction false} SubstitutionLiteral(replacement: string, matched: string, before: string, after: string)
    requires '$' !in replacement
    ensures Substitution(replacement, matched, before, after) == replacement
    decreases |replacement|
  {
    if |replacement| > 0 {
      assert replacement[0] != '$';
      assert '$' !in replacement[1..] by {
        forall k | 0 <= k < |replacement[1..]| ensures replacement[1..][k] != '$' {
          assert replacement[1..][k] == replacement[k + 1];
        }
      }
      SubstitutionLiteral(replacement[1..], matched, before, after);
    }
  }

  /** With a dollar-free replacement, `replace` puts the replacement text in place of the
      first occurrence of the pattern and keeps everything around it. */
  lemma ReplaceFirstLiteral(s: string, pat: string, replacement: string, i: nat)
    requires '$' !in replacement
    requires OccursAt(s, pat, i)
    requires forall j: nat :: j < i ==> !OccursAt(s, pat, j)
    ensures ReplaceFirst(s, pat, replacement) == s[..i] + replacement + s[i + |pat|..]
  {
    SubstitutionLiteral(replacement, pat, s[..i], s[i + |pat|..]);
  }
}
