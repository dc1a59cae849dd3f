/**
 `strtobool` from Python's `distutils.util`: lower-case the text, then accept
 "y", "yes", "t", "true", "on", "1" as true and "n", "no", "f", "false",
 "off", "0" as false; anything else is an invalid truth value, reported with
 the lower-cased text.
 */
module TruthValues {

  datatype Truth = Parsed(value: bool) | InvalidTruthValue(lowered: string)

  const TrueWords: set<string> := {"y", "yes", "t", "true", "on", "1"}
  const FalseWords: set<string> := {"n", "no", "f", "false", "off", "0"}

  predicate IsUpper(c: char) { 'A' <= c <= 'Z' }

  function LowerChar(c: char): char
  {
    if IsUpper(c) then (c as int - 'A' as int + 'a' as int) as char else c
  }

  function UpperChar(c: char): char
  {
    if 'a' <= c <= 'z' then (c as int - 'a' as int + 'A' as int) as char else c
  }

  /** `str.lower()` on ASCII letters; every other character is kept. */
  function Lower(s: string): (r: string)
    ensures |r| == |s|
    ensures forall i :: 0 <= i < |s| ==> r[i] == LowerChar(s[i])
  {
    if |s| == 0 then "" else [LowerChar(s[0])] + Lower(s[1..])
  }

  /** `str.upper()` on ASCII letters, the inverse direction of `Lower`. */
  function Upper(s: string): (r: string)
    ensures |r| == |s|
    ensures forall i :: 0 <= i < |s| ==> r[i] == UpperChar(s[i])
  {
    if |s| == 0 then "" else [UpperChar(s[0])] + Upper(s[1..])
  }

  function StrToBool(s: string): (r: Truth)
    ensures r.Parsed? ==> 1 <= |s| <= 5
    ensures r.InvalidTruthValue? ==> r.lowered == Lower(s)
  {
    Classify(Lower(s))
  }

  /** The word lookup on an already lower-cased text. */
  function Classify(v: string): Truth
  {
    if v in TrueWords then Parsed(true)
    else if v in FalseWords then Parsed(false)
    else InvalidTruthValue(v)
  }

  /** Lower-casing twice is lower-casing once. */
  lemma LowerIdempotent(s: string)
    ensures Lower(Lower(s)) == Lower(s)
  {
  }

  /**
   The parse ignores case: lower-cased and upper-cased spellings of a text
   parse as the text does.
   */
  lemma {:induction false} StrToBoolIgnoresCase(s: string)
    ensures StrToBool(Lower(s)) == StrToBool(s)
    ensures StrToBool(Upper(s)) == StrToBool(s)
  {
    LowerIdempotent(s);
    LowerOfUpper(s);
  }

  /** Lower-casing an upper-cased text gives the lower-cased text. */
  lemma LowerOfUpper(s: string)
    ensures Lower(Upper(s)) == Lower(s)
  {
    forall i | 0 <= i < |s| ensures Lower(Upper(s))[i] == Lower(s)[i] {
      assert Upper(s)[i] == UpperChar(s[i]);
    }
  }

  /** Upper- and mixed-case spellings of the true words parse to true. */
  lemma TrueExamples()
    ensures StrToBool("TRUE") == Parsed(true) && StrToBool("Yes") == Parsed(true) && StrToBool("1") == Parsed(true)
  {
    assert Lower("TRUE") == "true";
    assert Lower("Yes") == "yes";
    assert Lower("1") == "1";
  }

  /** Upper- and mixed-case spellings of the false words parse to false. */
  lemma FalseExamples()
    ensures StrToBool("OFF") == Parsed(false) && StrToBool("No") == Parsed(false) && StrToBool("0") == Parsed(false)
  {
    assert Lower("OFF") == "off";
    assert Lower("No") == "no";
    assert Lower("0") == "0";
  }

  /** "Maybe" is not a truth value; the error carries "maybe". */
  lemma InvalidExample()
    ensures StrToBool("Maybe") == InvalidTruthValue("maybe")
  {
    assert Lower("Maybe") == "maybe";
  }
}
