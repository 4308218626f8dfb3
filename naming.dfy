/**
 * generate_name: the labels A, B, ..., Z, AA, AB, ... given to unnamed
 * nodes, that is bijective base-26 numerals over the letters A to Z.
 */
module Naming {

  predicate IsLetter(c: char) { 'A' <= c <= 'Z' }

  predicate AllLetters(s: string)
  {
    forall i :: 0 <= i < |s| ==> IsLetter(s[i])
  }

  /** The label of the count-th unnamed node; 0 gives the empty string. */
  function GenerateName(count: nat): (name: string)
    ensures AllLetters(name)
    ensures name == "" <==> count == 0
  {
    if count == 0 then ""
    else
      var quot, rem := (count - 1) / 26, (count - 1) % 26;
      GenerateName(quot) + [(rem + 'A' as int) as char]
  }

  /** The number a label stands for: each letter is a digit from 1 (A) to 26 (Z). */
  function NameValue(name: string): nat
    requires AllLetters(name)
  {
    if name == [] then 0
    else
      var last := name[|name| - 1];
      26 * NameValue(name[..|name| - 1]) + (last as int - 'A' as int + 1)
  }

  /** Decoding a generated label gives back its count. */
  lemma {:induction false} NameValueOfGenerateName(count: nat)
    ensures NameValue(GenerateName(count)) == count
  {
    if count > 0 {
      var quot, rem := (count - 1) / 26, (count - 1) % 26;
      var name := GenerateName(count);
      assert name[..|name| - 1] == GenerateName(quot);
      NameValueOfGenerateName(quot);
    }
  }

  /** Every letter string is generated, by exactly the count it decodes to. */
  lemma {:induction false} GenerateNameOfNameValue(name: string)
    requires AllLetters(name)
    ensures GenerateName(NameValue(name)) == name
  {
    if name != [] {
      var prefix, last := name[..|name| - 1], name[|name| - 1];
      var digit := last as int - 'A' as int;
      var count := NameValue(name);
      assert IsLetter(last);
      assert count - 1 == 26 * NameValue(prefix) + digit;
      assert (count - 1) / 26 == NameValue(prefix) && (count - 1) % 26 == digit;
      GenerateNameOfNameValue(prefix);
      assert name == prefix + [last];
    }
  }

  /** Distinct counts get distinct labels. */
  lemma GenerateNameInjective(m: nat, n: nat)
    requires GenerateName(m) == GenerateName(n)
    ensures m == n
  {
    NameValueOfGenerateName(m);
    NameValueOfGenerateName(n);
  }

  lemma GenerateNameExamples()
    ensures GenerateName(1) == "A"
    ensures GenerateName(26) == "Z"
    ensures GenerateName(27) == "AA"
    ensures GenerateName(28) == "AB"
    ensures GenerateName(702) == "ZZ"
    ensures GenerateName(703) == "AAA"
  {
    assert GenerateName(0) == "";
    assert GenerateName(1) == "A";
    assert GenerateName(26) == "Z";
    assert GenerateName(27) == "AA";
    assert GenerateName(28) == "AB";
    assert GenerateName(702) == "ZZ";
    assert GenerateName(703) == "AAA";
  }
}
