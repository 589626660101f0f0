/**
 * `StringUtils` (src/StringUtils.js): reading booleans and integers out of
 * configuration text.
 */
module StringUtils {
  import opened Wrappers
  import opened JsStrings
  import opened JsValues

  /** `parseBoolean(value, defaultValue = undefined)`: "true" and "false" in
      any letter case, else the default. `toLowerCase` is modelled on the
      ASCII letters only; no other code point lowercases to one of the
      letters of "true" or "false", so the comparison is the same. */
  function ParseBoolean(value: string, defaultValue: Value := Undefined): (r: Value)
    ensures CaseVariant(value, "true") ==> r == Bool(true)
    ensures CaseVariant(value, "false") ==> r == Bool(false)
    ensures !CaseVariant(value, "true") && !CaseVariant(value, "false") ==> r == defaultValue
  {
    LowerWords();
    LowerIffCaseVariant(value, "true");
    LowerIffCaseVariant(value, "false");
    var lower := ToLower(value);
    if lower == "true" then Bool(true)
    else if lower == "false" then Bool(false)
    else defaultValue
  }

  /** `parseInteger(value)`: undefined stays undefined, a string goes through
      `parseInt(value, 10)`. */
  function ParseInteger(value: Option<string>): (r: Value)
    ensures value.None? <==> r == Undefined
    ensures value.Some? ==> r == ParseInt(value.value)
    ensures value.Some? && |value.value| >= 1 && AllDigits(value.value) ==> r == Num(DecimalValue(value.value))
  {
    match value
    case None => Undefined
    case Some(s) =>
      assert |s| >= 1 && AllDigits(s) ==> ParseInt(s) == Num(DecimalValue(s)) by {
        if |s| >= 1 && AllDigits(s) {
          ParseIntOfDigits(s);
        }
      }
      ParseInt(s)
  }

  /** The upper-case form of a lower-case ASCII letter. */
  function UpperChar(c: char): char {
    if 'a' <= c <= 'z' then (c as int - 32) as char else c
  }

  /** `s` spells `word` with any mix of upper- and lower-case letters. */
  predicate CaseVariant(s: string, word: string) {
    |s| == |word| && forall i :: 0 <= i < |s| ==> s[i] == word[i] || s[i] == UpperChar(word[i])
  }

  predicate LowerLetters(word: string) {
    forall i :: 0 <= i < |word| ==> 'a' <= word[i] <= 'z'
  }

  /** Lowering gives a word of lower-case letters exactly for its case
      variants. */
  lemma LowerIffCaseVariant(s: string, word: string)
    requires LowerLetters(word)
    ensures ToLower(s) == word <==> CaseVariant(s, word)
  {
    if CaseVariant(s, word) {
      forall i | 0 <= i < |s| ensures ToLower(s)[i] == word[i] {
      }
    }
    if ToLower(s) == word {
      forall i | 0 <= i < |s| ensures s[i] == word[i] || s[i] == UpperChar(word[i]) {
        assert LowerChar(s[i]) == word[i];
      }
    }
  }

  lemma LowerWords()
    ensures LowerLetters("true") && LowerLetters("false")
  {
  }

  /** Upper-casing any letters of a word leaves a case variant of it. */
  lemma UpperIsCaseVariant(word: string, upper: set<nat>)
    requires LowerLetters(word)
    ensures CaseVariant(seq(|word|, i requires 0 <= i < |word| => if i in upper then UpperChar(word[i]) else word[i]), word)
  {
  }

  /** "TRUE", "True" and "FALSE" parse; other words give the default. */
  lemma ParseBooleanExamples(d: Value)
    ensures ParseBoolean("TRUE", d) == Bool(true)
    ensures ParseBoolean("True", d) == Bool(true)
    ensures ParseBoolean("FALSE", d) == Bool(false)
    ensures ParseBoolean("yes", d) == d
    ensures ParseBoolean("yes") == Undefined
  {
    assert CaseVariant("TRUE", "true");
    assert CaseVariant("True", "true");
    assert CaseVariant("FALSE", "false");
    assert !CaseVariant("yes", "true") && !CaseVariant("yes", "false");
  }

  /** Whether a value reads as a boolean depends only on its letters, not on
      their case. */
  lemma ParseBooleanIgnoresCase(s: string, t: string, d: Value)
    requires ToLower(s) == ToLower(t)
    ensures ParseBoolean(s, d) == ParseBoolean(t, d)
  {
  }

  /** A printed integer parses back to itself. */
  lemma ParseIntegerRoundTrip(i: int)
    ensures ParseInteger(Some(IntToString(i))) == Num(i)
  {
    ParseIntRoundTrip(i);
  }
}
