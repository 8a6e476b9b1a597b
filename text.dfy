/**
 * ASCII string helpers and the few small regular expressions the owner-list
 * pipeline uses, each written out as a scanner that follows the JavaScript
 * engine's matching order for that one pattern.
 *
 * Whitespace is the ASCII part of JavaScript's `\s` and of `String.prototype.trim`;
 * case conversion is ASCII-only.
 */
module Text {
  import opened Wrappers

  predicate IsSpace(c: char) {
    c == ' ' || c == '\t' || c == '\n' || c == '\r' || c == '\U{0B}' || c == '\U{0C}'
  }
  predicate IsDigit(c: char) { '0' <= c <= '9' }
  predicate IsUpper(c: char) { 'A' <= c <= 'Z' }
  predicate IsLower(c: char) { 'a' <= c <= 'z' }
  predicate IsLetter(c: char) { IsUpper(c) || IsLower(c) }
  /** JavaScript's `\w`. */
  predicate IsWordChar(c: char) { IsLetter(c) || IsDigit(c) || c == '_' }

  function UpperChar(c: char): char { if IsLower(c) then (c as int - 32) as char else c }
  function LowerChar(c: char): char { if IsUpper(c) then (c as int + 32) as char else c }

  function ToUpper(s: string): (r: string)
    ensures |r| == |s|
    ensures forall i :: 0 <= i < |s| ==> r[i] == UpperChar(s[i])
  {
    seq(|s|, i requires 0 <= i < |s| => UpperChar(s[i]))
  }

  predicate CiEqChar(a: char, b: char) { UpperChar(a) == UpperChar(b) }

  /** `p` is a case-insensitive prefix of `s`. */
  predicate CiPrefix(p: string, s: string) {
    |p| <= |s| && forall i :: 0 <= i < |p| ==> CiEqChar(p[i], s[i])
  }

  predicate CiEq(a: string, b: string) { |a| == |b| && CiPrefix(a, b) }

  /** `String.prototype.includes`. */
  predicate Contains(s: string, sub: string) {
    exists i | 0 <= i <= |s| :: sub <= s[i..]
  }

  /** A case-insensitive occurrence of `sub` in `s`. */
  predicate ContainsCi(s: string, sub: string) {
    exists i | 0 <= i <= |s| :: CiPrefix(sub, s[i..])
  }

  predicate AllChars(s: string, p: char -> bool) {
    forall i :: 0 <= i < |s| ==> p(s[i])
  }

  /** The end of the longest run of `p`-characters of `s` starting at `i`. */
  function RunEnd(s: string, i: nat, p: char -> bool): (e: nat)
    requires i <= |s|
    ensures i <= e <= |s|
    ensures forall k :: i <= k < e ==> p(s[k])
    ensures e == |s| || !p(s[e])
    decreases |s| - i
  {
    if i < |s| && p(s[i]) then RunEnd(s, i + 1, p) else i
  }

  /** The number of whitespace characters `s` starts with. */
  function LeadingSpaces(s: string): (n: nat)
    ensures n <= |s|
  {
    if |s| > 0 && IsSpace(s[0]) then 1 + LeadingSpaces(s[1..]) else 0
  }

  /** The number of whitespace characters `s` ends with. */
  function TrailingSpaces(s: string): (n: nat)
    ensures n <= |s|
  {
    if |s| > 0 && IsSpace(s[|s| - 1]) then 1 + TrailingSpaces(s[..|s| - 1]) else 0
  }

  function TrimLeft(s: string): string {
    s[LeadingSpaces(s)..]
  }

  function TrimRight(s: string): string {
    s[..|s| - TrailingSpaces(s)]
  }

  /** `String.prototype.trim`. */
  function Trim(s: string): string {
    TrimRight(TrimLeft(s))
  }

  /** `LeadingSpaces` counts exactly the whitespace prefix. */
  lemma {:induction false} LeadingSpacesSpan(s: string)
    ensures forall i :: 0 <= i < LeadingSpaces(s) ==> IsSpace(s[i])
    ensures LeadingSpaces(s) == |s| || !IsSpace(s[LeadingSpaces(s)])
  {
    if |s| > 0 && IsSpace(s[0]) {
      LeadingSpacesSpan(s[1..]);
    }
  }

  /** `TrailingSpaces` counts exactly the whitespace suffix. */
  lemma {:induction false} TrailingSpacesSpan(s: string)
    ensures forall i :: |s| - TrailingSpaces(s) <= i < |s| ==> IsSpace(s[i])
    ensures TrailingSpaces(s) == |s| || !IsSpace(s[|s| - TrailingSpaces(s) - 1])
  {
    if |s| > 0 && IsSpace(s[|s| - 1]) {
      TrailingSpacesSpan(s[..|s| - 1]);
    }
  }

  /**
   * `trim` removes exactly the leading and trailing whitespace: the result is a
   * slice of `s` that neither starts nor ends with whitespace, and everything cut
   * off is whitespace.
   */
  lemma TrimSpan(s: string) returns (a: nat, b: nat)
    ensures a <= b <= |s| && Trim(s) == s[a..b]
    ensures Trim(s) == [] || (!IsSpace(s[a]) && !IsSpace(s[b - 1]))
    ensures forall i :: 0 <= i < a ==> IsSpace(s[i])
    ensures forall i :: b <= i < |s| ==> IsSpace(s[i])
  {
    LeadingSpacesSpan(s);
    a := LeadingSpaces(s);
    var l := s[a..];
    TrailingSpacesSpan(l);
    b := a + |l| - TrailingSpaces(l);
    assert Trim(s) == l[..|l| - TrailingSpaces(l)];
    forall i | b <= i < |s| ensures IsSpace(s[i]) {
      assert s[i] == l[i - a];
    }
    if Trim(s) != [] {
      assert s[b - 1] == l[|l| - TrailingSpaces(l) - 1];
    }
  }

  /** `s.split(sep)` for a one-character separator. */
  function Split(s: string, sep: char): (parts: seq<string>)
    ensures |parts| >= 1
    ensures forall k :: 0 <= k < |parts| ==> sep !in parts[k]
  {
    if |s| == 0 then [""]
    else
      var rest := Split(s[1..], sep);
      if s[0] == sep then [""] + rest
      else [[s[0]] + rest[0]] + rest[1..]
  }

  /** `parts.join(sep)`. */
  function Join(parts: seq<string>, sep: char): string
    requires |parts| >= 1
  {
    if |parts| == 1 then parts[0] else parts[0] + [sep] + Join(parts[1..], sep)
  }

  /** Splitting and joining on the same separator gives the text back. */
  lemma {:induction false} JoinSplit(s: string, sep: char)
    ensures Join(Split(s, sep), sep) == s
  {
    if |s| > 0 {
      JoinSplit(s[1..], sep);
      var rest := Split(s[1..], sep);
      if s[0] != sep {
        if |rest| > 1 {
          assert Join(rest, sep) == rest[0] + [sep] + Join(rest[1..], sep);
          assert ([s[0]] + rest[0]) + [sep] + Join(rest[1..], sep) == [s[0]] + Join(rest, sep);
        }
      } else {
        assert Split(s, sep) == [""] + rest;
        assert ([""] + rest)[1..] == rest;
      }
    }
  }

  /** `s.replace(/c/g, "")`. */
  function RemoveChar(s: string, c: char): (r: string)
    ensures c !in r
    ensures |r| <= |s|
  {
    if |s| == 0 then ""
    else if s[0] == c then RemoveChar(s[1..], c)
    else [s[0]] + RemoveChar(s[1..], c)
  }

  /** The length of a match of `/<br\s*\/?>/i` at the start of `s`, if any. */
  function BrTagLength(s: string): (n: Option<nat>)
    ensures n.Some? ==> 4 <= n.value <= |s| && s[n.value - 1] == '>'
  {
    if 3 <= |s| && s[0] == '<' && CiEqChar(s[1], 'b') && CiEqChar(s[2], 'r') then
      var j := RunEnd(s, 3, IsSpace);
      var k := if j < |s| && s[j] == '/' then j + 1 else j;
      if k < |s| && s[k] == '>' then Some(k + 1) else None
    else None
  }

  /** `s.replace(/<br\s*\/?>/gi, repl)`: every line-break tag, leftmost first, becomes `repl`. */
  function ReplaceBr(s: string, repl: string): string
  {
    if |s| == 0 then ""
    else match BrTagLength(s)
      case Some(n) => repl + ReplaceBr(s[n..], repl)
      case None => [s[0]] + ReplaceBr(s[1..], repl)
  }

  /** `s.replace(/\s+/g, " ")`: every whitespace run becomes one space. */
  function CollapseSpaces(s: string): (r: string)
    ensures |s| > 0 <==> |r| > 0
    ensures |s| > 0 && !IsSpace(s[0]) ==> r[0] == s[0]
    ensures forall i :: 0 <= i < |r| && IsSpace(r[i]) ==> r[i] == ' '
    ensures forall i :: 0 <= i < |r| - 1 ==> !(IsSpace(r[i]) && IsSpace(r[i + 1]))
  {
    if |s| == 0 then ""
    else if IsSpace(s[0]) then
      var e := RunEnd(s, 0, IsSpace);
      " " + CollapseSpaces(s[e..])
    else [s[0]] + CollapseSpaces(s[1..])
  }

  /**
   * Every whitespace character is a plain space with a non-space on each side:
   * what `trim` after `replace(/\s+/g, " ")` leaves.
   */
  predicate SingleSpaced(s: string) {
    forall i :: 0 <= i < |s| && IsSpace(s[i]) ==>
      s[i] == ' ' && 0 < i < |s| - 1 && !IsSpace(s[i - 1]) && !IsSpace(s[i + 1])
  }

  lemma TrimCollapsedIsSingleSpaced(s: string)
    ensures SingleSpaced(Trim(CollapseSpaces(s)))
  {
    var c := CollapseSpaces(s);
    var t := Trim(c);
    var a, b := TrimSpan(c);
    forall i | 0 <= i < |t| && IsSpace(t[i])
      ensures t[i] == ' ' && 0 < i < |t| - 1 && !IsSpace(t[i - 1]) && !IsSpace(t[i + 1])
    {
      assert t[i] == c[a + i];
      if 0 < i { assert t[i - 1] == c[a + i - 1]; }
      if i < |t| - 1 { assert t[i + 1] == c[a + i + 1]; }
    }
  }

  /** A single-spaced text neither starts nor ends with whitespace, so trimming keeps it. */
  lemma TrimSingleSpaced(s: string)
    requires SingleSpaced(s)
    ensures Trim(s) == s
  {
    assert LeadingSpaces(s) == 0;
    assert TrailingSpaces(s) == 0;
  }

  /** A slice of a single-spaced text that starts and ends with a non-space is single-spaced. */
  lemma SingleSpacedSlice(s: string, i: nat, j: nat)
    requires SingleSpaced(s) && i < j <= |s|
    requires !IsSpace(s[i]) && !IsSpace(s[j - 1])
    ensures SingleSpaced(s[i..j])
  {
    var t := s[i..j];
    forall k | 0 <= k < |t| && IsSpace(t[k])
      ensures t[k] == ' ' && 0 < k < |t| - 1 && !IsSpace(t[k - 1]) && !IsSpace(t[k + 1])
    {
      assert t[k] == s[i + k];
      assert k != 0 && k != |t| - 1;
      assert t[k - 1] == s[i + k - 1] && t[k + 1] == s[i + k + 1];
    }
  }

  /** Two non-empty single-spaced texts joined by one space give a single-spaced text. */
  lemma SingleSpacedJoin(a: string, b: string)
    requires SingleSpaced(a) && SingleSpaced(b) && |a| > 0 && |b| > 0
    ensures SingleSpaced(a + " " + b)
  {
    var t := a + " " + b;
    assert !IsSpace(a[0]) && !IsSpace(a[|a| - 1]) && !IsSpace(b[0]) && !IsSpace(b[|b| - 1]);
    forall k | 0 <= k < |t| && IsSpace(t[k])
      ensures t[k] == ' ' && 0 < k < |t| - 1 && !IsSpace(t[k - 1]) && !IsSpace(t[k + 1])
    {
      if k < |a| {
        assert t[k] == a[k];
        assert t[k - 1] == a[k - 1] && t[k + 1] == a[k + 1];
      } else if k > |a| {
        assert t[k] == b[k - |a| - 1];
        assert t[k - 1] == b[k - |a| - 2] && t[k + 1] == b[k - |a|];
      } else {
        assert t[k - 1] == a[|a| - 1] && t[k + 1] == b[0];
      }
    }
  }

  /** Every whitespace character is a plain space and the next character is not whitespace. */
  predicate NoDoubleSpace(s: string) {
    forall i :: 0 <= i < |s| && IsSpace(s[i]) ==> s[i] == ' ' && (i + 1 == |s| || !IsSpace(s[i + 1]))
  }

  /** Collapsing whitespace runs changes nothing when every run is already one plain space. */
  lemma {:induction false} CollapseNoDoubleSpace(s: string)
    requires NoDoubleSpace(s)
    ensures CollapseSpaces(s) == s
    decreases |s|
  {
    if |s| > 0 {
      assert NoDoubleSpace(s[1..]) by {
        forall i | 0 <= i < |s| - 1 && IsSpace(s[1..][i])
          ensures s[1..][i] == ' ' && (i + 1 == |s| - 1 || !IsSpace(s[1..][i + 1]))
        {
          assert s[1..][i] == s[i + 1];
          if i + 1 < |s| - 1 { assert s[1..][i + 1] == s[i + 2]; }
        }
      }
      CollapseNoDoubleSpace(s[1..]);
      if IsSpace(s[0]) {
        assert RunEnd(s, 0, IsSpace) == 1 by {
          if |s| > 1 { assert !IsSpace(s[1]); }
        }
        assert s == " " + s[1..];
      }
    }
  }

  /** A text with no line-break tag start passes through the tag replacement unchanged. */
  lemma {:induction false} ReplaceBrNoTag(s: string, repl: string)
    requires '<' !in s
    ensures ReplaceBr(s, repl) == s
    decreases |s|
  {
    if |s| > 0 {
      assert BrTagLength(s).None?;
      assert '<' !in s[1..] by {
        forall i | 0 <= i < |s| - 1 ensures s[1..][i] != '<' {
          assert s[1..][i] == s[i + 1];
        }
      }
      ReplaceBrNoTag(s[1..], repl);
    }
  }

  /**
   * A case-insensitive match, at the start of `s`, of the words of `words`
   * separated by `\s+` (as in `/Levy\s+Delivery\s+Method/i`). Each `\s+` takes the
   * whole whitespace run, as the greedy engine does: giving one back would leave a
   * space where the next word's letter must be.
   */
  predicate PhraseAt(s: string, words: seq<string>)
    decreases |words|
  {
    |words| == 0 ||
    (CiPrefix(words[0], s) &&
     (|words| == 1 ||
      (var e := RunEnd(s, |words[0]|, IsSpace);
       e > |words[0]| && PhraseAt(s[e..], words[1..]))))
  }

  /** `/w1\s+w2\s+.../i.test(s)`. */
  predicate ContainsPhrase(s: string, words: seq<string>) {
    exists i | 0 <= i <= |s| :: PhraseAt(s[i..], words)
  }
}
