/** `formatDate`: the upstream API wants ISO-8601 times with a `+0000` zone
    suffix where `toISOString` writes `Z`. The rendering of the time itself is
    not modelled; the rewrite is a pure function of the rendered string. */
module Dates {

  const UtcSuffix: string := "+0000"

  predicate EndsWithZ(s: string) {
    |s| > 0 && s[|s| - 1] == 'Z'
  }

  predicate EndsWithUtcSuffix(s: string) {
    |s| >= |UtcSuffix| && s[|s| - |UtcSuffix|..] == UtcSuffix
  }

  /** `s.replace(/Z$/, '+0000')`: only a `Z` at the very end is replaced,
      and every other character is kept in place. */
  function FormatDate(s: string): (r: string)
    ensures EndsWithZ(s) ==> |r| == |s| + 4 && r[..|s| - 1] == s[..|s| - 1] && EndsWithUtcSuffix(r)
    ensures !EndsWithZ(s) ==> r == s
    ensures !EndsWithZ(r)
  {
    if EndsWithZ(s) then s[..|s| - 1] + UtcSuffix else s
  }

  /** The reverse rewrite, turning a trailing `+0000` back into `Z`. */
  function UnformatDate(r: string): string {
    if EndsWithUtcSuffix(r) then r[..|r| - |UtcSuffix|] + "Z" else r
  }

  /** For the strings `toISOString` produces, which end in `Z`, the rewrite
      loses nothing. */
  lemma UnformatFormat(s: string)
    requires EndsWithZ(s)
    ensures UnformatDate(FormatDate(s)) == s
  {
    var r := FormatDate(s);
    assert r[..|r| - |UtcSuffix|] == s[..|s| - 1];
  }

  /** Rewriting twice is rewriting once. */
  lemma FormatDateIdempotent(s: string)
    ensures FormatDate(FormatDate(s)) == FormatDate(s)
  {
  }
}
