/**
 * OCR clean-up of owner names (`fixOwnerFullName` in
 * app/lib/ai/postValidators.ts): the digits 5, 0, 3 and 7 become the letters
 * S, O, J and J, then every case-insensitive occurrence of the misread word
 * "NUNYIP" becomes "BUNYIP" (with a lower-case b when the match starts with a
 * lower-case n).
 */
module NameFix {
  import opened Text

  /** The digits OCR produces in place of letters. */
  predicate IsMisreadDigit(c: char) {
    c == '5' || c == '0' || c == '3' || c == '7'
  }

  /** The letter a misread digit stands for; other characters are kept. */
  function DigitToLetter(c: char): char {
    if c == '5' then 'S'
    else if c == '0' then 'O'
    else if c == '3' || c == '7' then 'J'
    else c
  }

  /** `s.replace(/[5037]/g, d => DIGIT_TO_LETTER[d])`. */
  function MapDigits(s: string): string {
    seq(|s|, i requires 0 <= i < |s| => DigitToLetter(s[i]))
  }

  /** The misread word, matched case-insensitively. */
  const Misread := "NUNYIP"

  /**
   * The replacement for a match `m`: "BUNYIP", with its first letter lower-cased
   * when the match's first letter is unchanged by lower-casing.
   */
  function FixWord(m: string): (w: string)
    requires |m| > 0
    ensures |w| == |Misread|
  {
    if m[0] == LowerChar(m[0]) then "bUNYIP" else "BUNYIP"
  }

  /** `s.replace(/NUNYIP/gi, FixWord)`: matches are taken leftmost first and do not overlap. */
  function ReplaceMisreads(s: string): (r: string)
    ensures |r| == |s|
  {
    if |s| < |Misread| then s
    else if CiPrefix(Misread, s) then FixWord(s[..|Misread|]) + ReplaceMisreads(s[|Misread|..])
    else [s[0]] + ReplaceMisreads(s[1..])
  }

  /** What `fixOwnerFullName` returns. */
  datatype NameFixResult = NameFixResult(corrected: string, changed: bool)

  /**
   * `fixOwnerFullName`: the corrected name keeps the input's length and holds
   * no misread digit and no misread word; it is reported changed exactly when
   * it differs from the input, which is exactly when the input held a misread
   * digit or word.
   */
  function FixOwnerFullName(fullName: string): (r: NameFixResult)
    ensures r.changed <==> r.corrected != fullName
    ensures |r.corrected| == |fullName| && NoMisreadDigit(r.corrected) && NoMisreadWord(r.corrected)
    ensures !r.changed <==> NoMisreadDigit(fullName) && NoMisreadWord(fullName)
  {
    var corrected := ReplaceMisreads(MapDigits(fullName));
    FixFacts(fullName);
    NameFixResult(corrected, corrected != fullName)
  }

  predicate NoMisreadDigit(s: string) {
    forall i :: 0 <= i < |s| ==> !IsMisreadDigit(s[i])
  }

  /** No case-insensitive occurrence of the misread word. */
  predicate NoMisreadWord(s: string) {
    forall i :: 0 <= i <= |s| ==> !CiPrefix(Misread, s[i..])
  }

  /** Mapping leaves no misread digit and keeps every other character. */
  lemma MapDigitsClears(s: string)
    ensures |MapDigits(s)| == |s|
    ensures NoMisreadDigit(MapDigits(s))
    ensures forall i :: 0 <= i < |s| && !IsMisreadDigit(s[i]) ==> MapDigits(s)[i] == s[i]
  {
  }

  /** The word fix adds no digit: every character is copied or a letter of the replacement. */
  lemma {:induction false} ReplaceKeepsNoDigit(s: string)
    requires NoMisreadDigit(s)
    ensures NoMisreadDigit(ReplaceMisreads(s))
    decreases |s|
  {
    if |s| >= |Misread| {
      if CiPrefix(Misread, s) {
        ReplaceKeepsNoDigit(s[|Misread|..]);
      } else {
        ReplaceKeepsNoDigit(s[1..]);
      }
    }
  }

  /** The fixed text starts with a b or B wherever a match was replaced. */
  lemma ReplacedStartsWithB(t: string)
    requires |t| >= |Misread| && CiPrefix(Misread, t)
    ensures UpperChar(ReplaceMisreads(t)[0]) == 'B'
  {
  }

  /**
   * A word with no b or B that starts the fixed text already started the text
   * before the fix: the fix writes only words beginning with b or B, and copies
   * everything else.
   */
  lemma {:induction false} PrefixBeforeFix(t: string, w: string)
    requires forall k :: 0 <= k < |w| ==> UpperChar(w[k]) != 'B'
    ensures CiPrefix(w, ReplaceMisreads(t)) ==> CiPrefix(w, t)
    decreases |t|
  {
    if |w| > 0 && |t| >= |Misread| && !CiPrefix(Misread, t) {
      var r := ReplaceMisreads(t[1..]);
      assert ReplaceMisreads(t) == [t[0]] + r;
      if CiPrefix(w, ReplaceMisreads(t)) {
        assert CiPrefix(w[1..], r) by {
          forall i | 0 <= i < |w| - 1 ensures CiEqChar(w[1..][i], r[i]) {
            assert ReplaceMisreads(t)[i + 1] == r[i];
          }
        }
      }
      PrefixBeforeFix(t[1..], w[1..]);
    } else if |w| > 0 && |t| >= |Misread| {
      ReplacedStartsWithB(t);
    }
  }

  /** No match of the misread word starts inside a replacement. */
  lemma ReplacementHasNoMisread(w: string, rest: string)
    requires w == "bUNYIP" || w == "BUNYIP"
    ensures forall i :: 0 <= i < |w| ==> !CiPrefix(Misread, (w + rest)[i..])
  {
    forall i | 0 <= i < |w| ensures !CiPrefix(Misread, (w + rest)[i..]) {
      var v := (w + rest)[i..];
      assert v[0] == w[i];
      if i == 2 {
        assert v[1] == w[3];
        assert !CiEqChar(Misread[1], v[1]);
      } else {
        assert !CiEqChar(Misread[0], v[0]);
      }
    }
  }

  /** After the fix no occurrence of the misread word is left, not even across a replacement. */
  lemma {:induction false} ReplaceClearsMisreads(s: string)
    ensures NoMisreadWord(ReplaceMisreads(s))
    decreases |s|
  {
    var r := ReplaceMisreads(s);
    if |s| < |Misread| {
      forall i | 0 <= i <= |r| ensures !CiPrefix(Misread, r[i..]) { }
    } else if CiPrefix(Misread, s) {
      var w := FixWord(s[..|Misread|]);
      var rest := ReplaceMisreads(s[|Misread|..]);
      ReplaceClearsMisreads(s[|Misread|..]);
      ReplacementHasNoMisread(w, rest);
      assert r == w + rest;
      forall i | |w| <= i <= |r| ensures !CiPrefix(Misread, r[i..]) {
        assert r[i..] == rest[i - |w|..];
      }
    } else {
      var rest := ReplaceMisreads(s[1..]);
      ReplaceClearsMisreads(s[1..]);
      assert r == [s[0]] + rest;
      forall i | 1 <= i <= |r| ensures !CiPrefix(Misread, r[i..]) {
        assert r[i..] == rest[i - 1..];
      }
      // At the first position: either the first letter already differs, or the
      // rest of the word is missing after it, before the fix and so after it too.
      if CiEqChar(Misread[0], s[0]) {
        var tail := Misread[1..];
        var k :| 0 <= k < |Misread| && !CiEqChar(Misread[k], s[k]);
        assert s[1..][k - 1] == s[k] && tail[k - 1] == Misread[k];
        PrefixBeforeFix(s[1..], tail);
        var j :| 0 <= j < |tail| && !CiEqChar(tail[j], rest[j]);
        assert r[j + 1] == rest[j];
      }
      assert r[0..] == r;
    }
  }

  /** Text with no misread word passes through the word fix unchanged. */
  lemma {:induction false} ReplaceIdentityWhenClear(s: string)
    requires NoMisreadWord(s)
    ensures ReplaceMisreads(s) == s
    decreases |s|
  {
    if |s| >= |Misread| {
      assert s[0..] == s;
      assert NoMisreadWord(s[1..]) by {
        forall i | 0 <= i <= |s| - 1 ensures !CiPrefix(Misread, s[1..][i..]) {
          assert s[1..][i..] == s[i + 1..];
        }
      }
      ReplaceIdentityWhenClear(s[1..]);
    }
  }

  /**
   * The digit map followed by the word fix leaves no misread digit and no
   * misread word and keeps the length; it gives the input back exactly when the
   * input held neither.
   */
  lemma FixFacts(fullName: string)
    ensures var c := ReplaceMisreads(MapDigits(fullName));
      |c| == |fullName| && NoMisreadDigit(c) && NoMisreadWord(c) &&
      (c == fullName <==> NoMisreadDigit(fullName) && NoMisreadWord(fullName))
  {
    MapDigitsClears(fullName);
    ReplaceKeepsNoDigit(MapDigits(fullName));
    ReplaceClearsMisreads(MapDigits(fullName));
    if NoMisreadDigit(fullName) && NoMisreadWord(fullName) {
      assert MapDigits(fullName) == fullName;
      ReplaceIdentityWhenClear(fullName);
    }
  }

  /** Fixing a fixed name changes nothing. */
  lemma FixIdempotent(fullName: string)
    ensures var once := FixOwnerFullName(fullName).corrected;
            FixOwnerFullName(once) == NameFixResult(once, false)
  {
    var once := FixOwnerFullName(fullName).corrected;
    assert NoMisreadDigit(once) && NoMisreadWord(once);
  }

  /** Digits read for letters are mapped back. */
  lemma DigitsExample()
    ensures FixOwnerFullName("J0NE5") == NameFixResult("JONES", true)
  {
    assert MapDigits("J0NE5") == "JONES";
  }

  /** A lower-case match keeps only its first letter lower-case. */
  lemma LowerCaseMatchExample()
    ensures FixOwnerFullName("nunyip") == NameFixResult("bUNYIP", true)
  {
    assert MapDigits("nunyip") == "nunyip";
    assert CiPrefix(Misread, "nunyip");
    assert ReplaceMisreads("nunyip") == "bUNYIP" + ReplaceMisreads("");
  }
}
