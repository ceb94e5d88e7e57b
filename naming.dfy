/** The string helper the service applies to a derived class name. */
module Naming {

  predicate IsUpper(c: char) {
    'A' <= c <= 'Z'
  }

  function ToLower(c: char): char {
    if IsUpper(c) then (c as int + 32) as char else c
  }

  /**
   * StringUtils.uncapitalize: the first character is lower-cased and the rest
   * is left as it is; the empty string is returned unchanged.
   */
  function Uncapitalize(s: string): (r: string)
    ensures |r| == |s|
    ensures |s| > 0 ==> r[1..] == s[1..] && !IsUpper(r[0])
    ensures (|s| == 0 || !IsUpper(s[0])) ==> r == s
    ensures |s| > 0 && IsUpper(s[0]) ==>
              'a' <= r[0] <= 'z' && r[0] as int - 'a' as int == s[0] as int - 'A' as int
  {
    if |s| == 0 then s else [ToLower(s[0])] + s[1..]
  }

  /** Uncapitalizing an uncapitalized name changes nothing. */
  lemma UncapitalizeIdempotent(s: string)
    ensures Uncapitalize(Uncapitalize(s)) == Uncapitalize(s)
  {
  }
}
