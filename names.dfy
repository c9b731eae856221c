/**
 * Player names and the case-insensitive comparison that the child
 * command uses when it matches a person's parent against another name.
 * Only the ASCII letters are folded; see README.md.
 */
module Names {

  /** The lower-case form of an ASCII letter; every other character is its own. */
  function LowerAscii(c: char): char
  {
    if 'A' <= c <= 'Z' then (c as int + 32) as char else c
  }

  /** The upper-case form of an ASCII letter; every other character is its own. */
  function UpperAscii(c: char): char
  {
    if 'a' <= c <= 'z' then (c as int - 32) as char else c
  }

  /**
   * Two characters match ignoring case when they are equal, when their
   * upper-case forms are equal, or when the lower-case forms of their
   * upper-case forms are equal (the three tests Java's String applies).
   */
  predicate CharEqualsIgnoreCase(a: char, b: char)
  {
    a == b || UpperAscii(a) == UpperAscii(b) || LowerAscii(UpperAscii(a)) == LowerAscii(UpperAscii(b))
  }

  /** Case-insensitive string equality, character by character. */
  function EqualsIgnoreCase(a: string, b: string): (r: bool)
    ensures r ==> |a| == |b|
    ensures a == b ==> r
  {
    if |a| != |b| then false
    else if a == [] then true
    else CharEqualsIgnoreCase(a[0], b[0]) && EqualsIgnoreCase(a[1..], b[1..])
  }

  /** A name with every ASCII letter in lower case: the reference meaning of "ignoring case". */
  function Folded(s: string): (f: string)
    ensures |f| == |s|
    ensures forall i :: 0 <= i < |s| ==> f[i] == LowerAscii(s[i])
  {
    seq(|s|, i requires 0 <= i < |s| => LowerAscii(s[i]))
  }

  lemma CharEqualsIgnoreCaseIsFolded(a: char, b: char)
    ensures CharEqualsIgnoreCase(a, b) <==> LowerAscii(a) == LowerAscii(b)
  {
  }

  /** The character-by-character comparison is equality of the folded names. */
  lemma {:induction false} EqualsIgnoreCaseIsFolded(a: string, b: string)
    ensures EqualsIgnoreCase(a, b) <==> Folded(a) == Folded(b)
  {
    if |a| == |b| && a != [] {
      CharEqualsIgnoreCaseIsFolded(a[0], b[0]);
      EqualsIgnoreCaseIsFolded(a[1..], b[1..]);
      assert Folded(a) == [LowerAscii(a[0])] + Folded(a[1..]);
      assert Folded(b) == [LowerAscii(b[0])] + Folded(b[1..]);
    }
  }

  lemma EqualsIgnoreCaseSymmetric(a: string, b: string)
    ensures EqualsIgnoreCase(a, b) <==> EqualsIgnoreCase(b, a)
  {
    EqualsIgnoreCaseIsFolded(a, b);
    EqualsIgnoreCaseIsFolded(b, a);
  }

  lemma EqualsIgnoreCaseTransitive(a: string, b: string, c: string)
    requires EqualsIgnoreCase(a, b) && EqualsIgnoreCase(b, c)
    ensures EqualsIgnoreCase(a, c)
  {
    EqualsIgnoreCaseIsFolded(a, b);
    EqualsIgnoreCaseIsFolded(b, c);
    EqualsIgnoreCaseIsFolded(a, c);
  }
}
