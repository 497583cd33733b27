/**
 * `getSyllables(word)`: a dictionary override, two early exits, and two
 * regular-expression passes that insert hyphens between syllables.
 */
module Syllables {
  import opened Wrappers
  import opened JsString
  import opened JsObject

  /** `[aeiouy]` */
  predicate IsVowel(c: char) {
    c == 'a' || c == 'e' || c == 'i' || c == 'o' || c == 'u' || c == 'y'
  }

  /** `[bcdfghjklmnpqrstvwxz]` */
  predicate IsConsonant(c: char) {
    'a' <= c <= 'z' && !IsVowel(c)
  }

  /** The number of matches of `/[aeiouy]{1,2}/g`: greedy, non-overlapping, scanned left to right. */
  function VowelGroupCount(s: string): (n: nat)
    ensures n <= |s|
  {
    if s == [] then 0
    else if !IsVowel(s[0]) then VowelGroupCount(s[1..])
    else if |s| >= 2 && IsVowel(s[1]) then 1 + VowelGroupCount(s[2..])
    else 1 + VowelGroupCount(s[1..])
  }

  /** There is no match at all exactly when the word has no vowel. */
  lemma {:induction false} NoVowelGroup(s: string)
    ensures VowelGroupCount(s) == 0 <==> forall k :: 0 <= k < |s| ==> !IsVowel(s[k])
  {
    if s != [] {
      NoVowelGroup(s[1..]);
      if IsVowel(s[0]) && |s| >= 2 && IsVowel(s[1]) {
        NoVowelGroup(s[2..]);
      }
      assert forall k :: 1 <= k < |s| ==> s[k] == s[1..][k - 1];
    }
  }

  /** The two passes differ only in the class of their first letter. */
  datatype Pass = VowelFirst | ConsonantFirst

  /** The class of the first letter of a pass's pattern. */
  predicate Opens(pass: Pass, c: char) {
    if pass == VowelFirst then IsVowel(c) else IsConsonant(c)
  }

  /**
   * `s.replace(/(L)([bcdfghjklmnpqrstvwxz])([aeiouy])/g, '$1-$2$3')` where
   * `L` is the first-letter class of `pass`: every non-overlapping match,
   * scanned left to right, gets a hyphen before its consonant.
   */
  function HyphenatePass(s: string, pass: Pass): (r: string)
    ensures |r| >= |s|
    ensures s != [] ==> r[0] == s[0]
  {
    if |s| >= 3 && Opens(pass, s[0]) && IsConsonant(s[1]) && IsVowel(s[2]) then
      [s[0], '-', s[1], s[2]] + HyphenatePass(s[3..], pass)
    else if s == [] then []
    else [s[0]] + HyphenatePass(s[1..], pass)
  }

  /** The first pass: vowel, consonant, vowel becomes V-CV. */
  function SplitVcv(s: string): string {
    HyphenatePass(s, VowelFirst)
  }

  /** The second pass: consonant, consonant, vowel becomes C-CV. */
  function SplitCcv(s: string): string {
    HyphenatePass(s, ConsonantFirst)
  }

  /** `s` with every hyphen removed. */
  function Erase(s: string): (r: string)
    ensures |r| <= |s|
  {
    if s == [] then []
    else (if s[0] == '-' then [] else [s[0]]) + Erase(s[1..])
  }

  lemma {:induction false} EraseAppend(a: string, b: string)
    ensures Erase(a + b) == Erase(a) + Erase(b)
  {
    if a != [] {
      assert (a + b)[1..] == a[1..] + b;
      EraseAppend(a[1..], b);
    } else {
      assert a + b == b;
    }
  }

  /** A hyphen-free string is its own erasure. */
  lemma {:induction false} EraseHyphenFree(s: string)
    requires forall k :: 0 <= k < |s| ==> s[k] != '-'
    ensures Erase(s) == s
  {
    if s != [] {
      EraseHyphenFree(s[1..]);
      assert [s[0]] + s[1..] == s;
    }
  }

  /** A pass only inserts hyphens: erasing them gives back what it was given. */
  lemma EraseCons(c: char, t: string)
    ensures Erase([c] + t) == (if c == '-' then [] else [c]) + Erase(t)
  {
    assert ([c] + t)[1..] == t;
  }

  /** A hyphen inserted after the first of three letters disappears again on erasure. */
  lemma EraseInserted(x: char, y: char, z: char, r: string, t: string)
    requires Erase(r) == Erase(t)
    ensures Erase([x, '-', y, z] + r) == Erase([x, y, z] + t)
  {
    EraseCons(z, r);
    EraseCons(y, [z] + r);
    EraseCons('-', [y] + ([z] + r));
    EraseCons(x, ['-'] + ([y] + ([z] + r)));
    assert [x, '-', y, z] + r == [x] + (['-'] + ([y] + ([z] + r)));
    EraseCons(z, t);
    EraseCons(y, [z] + t);
    EraseCons(x, [y] + ([z] + t));
    assert [x, y, z] + t == [x] + ([y] + ([z] + t));
  }

  lemma {:induction false} PassOnlyInsertsHyphens(s: string, pass: Pass)
    ensures Erase(HyphenatePass(s, pass)) == Erase(s)
  {
    if |s| >= 3 && Opens(pass, s[0]) && IsConsonant(s[1]) && IsVowel(s[2]) {
      var rest := HyphenatePass(s[3..], pass);
      PassOnlyInsertsHyphens(s[3..], pass);
      assert HyphenatePass(s, pass) == [s[0], '-', s[1], s[2]] + rest;
      assert s == [s[0], s[1], s[2]] + s[3..];
      EraseInserted(s[0], s[1], s[2], rest, s[3..]);
    } else if s != [] {
      PassOnlyInsertsHyphens(s[1..], pass);
      assert HyphenatePass(s, pass) == [s[0]] + HyphenatePass(s[1..], pass);
      EraseCons(s[0], HyphenatePass(s[1..], pass));
      assert s == [s[0]] + s[1..];
      EraseCons(s[0], s[1..]);
    }
  }

  /** Every hyphen stands immediately before a consonant that is followed by a vowel. */
  predicate HyphensBeforeConsonantVowel(s: string) {
    forall k :: 0 <= k < |s| && s[k] == '-' ==> k + 2 < |s| && IsConsonant(s[k + 1]) && IsVowel(s[k + 2])
  }

  /** A pass keeps that placement for the hyphens it finds and gives it to the ones it inserts. */
  lemma {:induction false} PassPlacesHyphens(s: string, pass: Pass)
    requires HyphensBeforeConsonantVowel(s)
    ensures HyphensBeforeConsonantVowel(HyphenatePass(s, pass))
  {
    var r := HyphenatePass(s, pass);
    if |s| >= 3 && Opens(pass, s[0]) && IsConsonant(s[1]) && IsVowel(s[2]) {
      var rest := HyphenatePass(s[3..], pass);
      assert HyphensBeforeConsonantVowel(s[3..]) by {
        forall k | 0 <= k < |s[3..]| && s[3..][k] == '-'
          ensures k + 2 < |s[3..]| && IsConsonant(s[3..][k + 1]) && IsVowel(s[3..][k + 2])
        {
          assert s[k + 3] == '-';
        }
      }
      PassPlacesHyphens(s[3..], pass);
      assert r == [s[0], '-', s[1], s[2]] + rest;
      forall k | 0 <= k < |r| && r[k] == '-'
        ensures k + 2 < |r| && IsConsonant(r[k + 1]) && IsVowel(r[k + 2])
      {
        if k >= 4 {
          assert rest[k - 4] == '-';
        }
      }
    } else if s != [] {
      var rest := HyphenatePass(s[1..], pass);
      assert HyphensBeforeConsonantVowel(s[1..]) by {
        forall k | 0 <= k < |s[1..]| && s[1..][k] == '-'
          ensures k + 2 < |s[1..]| && IsConsonant(s[1..][k + 1]) && IsVowel(s[1..][k + 2])
        {
          assert s[k + 1] == '-';
        }
      }
      PassPlacesHyphens(s[1..], pass);
      assert r == [s[0]] + rest;
      if s[0] == '-' {
        // the consonant after this hyphen starts no match, so the vowel after it comes next
        assert |s| >= 3 && IsConsonant(s[1]) && IsVowel(s[2]);
        var t := s[1..];
        assert !IsConsonant(t[1]);
        assert rest == [t[0]] + HyphenatePass(t[1..], pass);
        assert rest[1] == t[1];
      }
      forall k | 0 <= k < |r| && r[k] == '-'
        ensures k + 2 < |r| && IsConsonant(r[k + 1]) && IsVowel(r[k + 2])
      {
        if k >= 1 {
          assert rest[k - 1] == '-';
        }
      }
    }
  }

  /** The dictionary entry for the lowered word, when it is an own, non-empty (truthy) string. */
  function DictionaryEntry(phonetics: Entries<string>, lower: string): Option<string> {
    var v := Get(phonetics, lower);
    if v.Some? && v.value != "" then v else None
  }

  /** `getSyllables(word)` against the phonetic dictionary `phonetics` of the loaded story. */
  function GetSyllables(word: string, phonetics: Entries<string>): string {
    var lower := ToLower(word);
    var entry := DictionaryEntry(phonetics, lower);
    if entry.Some? then entry.value
    else if |lower| <= 3 then lower
    else if VowelGroupCount(lower) <= 1 then lower
    else SplitCcv(SplitVcv(lower))
  }

  /**
   * A non-empty dictionary entry for the lowered word wins; otherwise a
   * word of at most three letters, or with at most one vowel group, comes
   * back lowered and unsplit.
   */
  lemma DictionaryAndEarlyExits(word: string, phonetics: Entries<string>)
    ensures DictionaryEntry(phonetics, ToLower(word)).Some? ==>
      GetSyllables(word, phonetics) == DictionaryEntry(phonetics, ToLower(word)).value
    ensures DictionaryEntry(phonetics, ToLower(word)).None? && |word| <= 3 ==>
      GetSyllables(word, phonetics) == ToLower(word)
    ensures DictionaryEntry(phonetics, ToLower(word)).None? && VowelGroupCount(ToLower(word)) <= 1 ==>
      GetSyllables(word, phonetics) == ToLower(word)
  {
  }

  /**
   * Outside the dictionary, the result is the lowered word with hyphens
   * inserted, each before a consonant that is followed by a vowel.
   */
  lemma HeuristicOnlyInsertsHyphens(word: string, phonetics: Entries<string>)
    requires DictionaryEntry(phonetics, ToLower(word)).None?
    ensures Erase(GetSyllables(word, phonetics)) == Erase(ToLower(word))
    ensures (forall k :: 0 <= k < |word| ==> word[k] != '-') ==>
      && Erase(GetSyllables(word, phonetics)) == ToLower(word)
      && HyphensBeforeConsonantVowel(GetSyllables(word, phonetics))
  {
    var lower := ToLower(word);
    PassOnlyInsertsHyphens(lower, VowelFirst);
    PassOnlyInsertsHyphens(SplitVcv(lower), ConsonantFirst);
    if forall k :: 0 <= k < |word| ==> word[k] != '-' {
      assert forall k :: 0 <= k < |lower| ==> lower[k] != '-';
      EraseHyphenFree(lower);
      PassPlacesHyphens(lower, VowelFirst);
      PassPlacesHyphens(SplitVcv(lower), ConsonantFirst);
    }
  }

  /** The source looks the lowered word up with `currentPhonetics[lowerCaseWord]`, which also sees inherited members. */
  function PhoneticLookupAsWritten(phonetics: Entries<string>, lower: string): JsValue {
    var v := Get(phonetics, lower);
    if v.Some? then Str(v.value) else InheritedMember(lower)
  }

  /** `getSyllables` as written: a truthy lookup result is returned whatever its type. */
  function GetSyllablesAsWritten(word: string, phonetics: Entries<string>): JsValue {
    var lower := ToLower(word);
    var v := PhoneticLookupAsWritten(phonetics, lower);
    if Truthy(v) then v else Str(GetSyllables(word, phonetics))
  }

  /** As written, the word "constructor" yields the `Object` function, not a string, when the dictionary lacks it. */
  lemma ConstructorYieldsFunctionAsWritten(phonetics: Entries<string>)
    requires !HasKey(phonetics, "constructor")
    ensures GetSyllablesAsWritten("Constructor", phonetics) == NativeFunction(ObjectConstructorSource)
  {
    assert ToLower("Constructor") == "constructor";
  }

  /** With an own-property lookup the word gets the heuristic split, a string whose letters are the word's. */
  lemma ConstructorIsSplit(phonetics: Entries<string>)
    requires !HasKey(phonetics, "constructor")
    ensures Erase(GetSyllables("constructor", phonetics)) == "constructor"
  {
    LowerConstructor();
    assert DictionaryEntry(phonetics, "constructor").None?;
    HeuristicOnlyInsertsHyphens("constructor", phonetics);
  }

  lemma LowerConstructor()
    ensures ToLower("constructor") == "constructor"
    ensures forall k :: 0 <= k < |"constructor"| ==> "constructor"[k] != '-'
  {
  }
}
