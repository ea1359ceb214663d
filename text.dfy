/**
 * String helpers with the meaning of the java.lang.String methods the command engine uses:
 * startsWith, endsWith, toLowerCase, toUpperCase, equalsIgnoreCase and String.join.
 * Case mapping is restricted to ASCII letters.
 */
module Text {

  predicate StartsWith(s: string, prefix: string) {
    |prefix| <= |s| && s[..|prefix|] == prefix
  }

  lemma StartsWithConcat(s: string, t: string)
    ensures StartsWith(s + t, s)
  {
    assert (s + t)[..|s|] == s;
  }

  predicate EndsWith(s: string, suffix: string) {
    |suffix| <= |s| && s[|s| - |suffix|..] == suffix
  }

  function LowerChar(c: char): char {
    if 'A' <= c <= 'Z' then (c as int + 32) as char else c
  }

  function UpperChar(c: char): char {
    if 'a' <= c <= 'z' then (c as int - 32) as char else c
  }

  /** String.toLowerCase, on ASCII. */
  function ToLower(s: string): string {
    seq(|s|, i requires 0 <= i < |s| => LowerChar(s[i]))
  }

  /** String.toUpperCase, on ASCII. */
  function ToUpper(s: string): string {
    seq(|s|, i requires 0 <= i < |s| => UpperChar(s[i]))
  }

  /** String.equalsIgnoreCase, on ASCII. */
  predicate EqualsIgnoreCase(a: string, b: string) {
    ToLower(a) == ToLower(b)
  }

  /** String.join(sep, parts): the parts with one separator between neighbours. */
  function JoinWith(parts: seq<string>, sep: string): string {
    if |parts| == 0 then ""
    else if |parts| == 1 then parts[0]
    else JoinWith(parts[..|parts| - 1], sep) + sep + parts[|parts| - 1]
  }

  /** A join begins with its first part. */
  lemma {:induction false} JoinStartsWithFirst(parts: seq<string>, sep: string)
    requires |parts| >= 1
    ensures StartsWith(JoinWith(parts, sep), parts[0])
  {
    if |parts| > 1 {
      var init := parts[..|parts| - 1];
      JoinStartsWithFirst(init, sep);
      assert init[0] == parts[0];
      var j := JoinWith(init, sep);
      assert JoinWith(parts, sep) == j + sep + parts[|parts| - 1];
      assert (j + sep + parts[|parts| - 1])[..|parts[0]|] == j[..|parts[0]|];
    }
  }

  /**
   * With a separator whose last character is not `c`, a join ends with `c`
   * exactly when its last part does.
   */
  lemma JoinEndsWithCharOfLast(parts: seq<string>, sep: string, c: char)
    requires |parts| >= 1
    requires |sep| >= 1 && sep[|sep| - 1] != c
    ensures EndsWith(JoinWith(parts, sep), [c]) <==> EndsWith(parts[|parts| - 1], [c])
  {
    if |parts| > 1 {
      var j := JoinWith(parts, sep);
      var last := parts[|parts| - 1];
      assert j == JoinWith(parts[..|parts| - 1], sep) + sep + last;
      if |last| > 0 {
        assert j[|j| - 1] == last[|last| - 1];
      } else {
        assert j[|j| - 1] == sep[|sep| - 1];
      }
    }
  }

  /** No lower-case ASCII letter occurs in s. */
  predicate NoLowerLetters(s: string) {
    forall i :: 0 <= i < |s| ==> !('a' <= s[i] <= 'z')
  }

  /** On strings without lower-case letters, lower-casing loses nothing. */
  lemma ToLowerInjective(s: string, t: string)
    requires NoLowerLetters(s) && NoLowerLetters(t)
    requires ToLower(s) == ToLower(t)
    ensures s == t
  {
    assert |s| == |ToLower(s)| == |ToLower(t)| == |t|;
    forall i | 0 <= i < |s|
      ensures s[i] == t[i]
    {
      assert ToLower(s)[i] == LowerChar(s[i]) && ToLower(t)[i] == LowerChar(t[i]);
    }
  }
}
