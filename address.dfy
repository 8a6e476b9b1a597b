/**
 * The postal address read from a lot's "General Correspondence" cells
 * (`parseCorrAddress` in app/lib/ai/postValidators.ts).
 *
 * The cells are cleaned (line-break tags to spaces, whitespace runs to one
 * space, trimmed), blank ones dropped; the address starts at the first digit of
 * the first cell, and the second cell is appended when it carries a state code
 * and a postcode. The result is matched against
 * `^(.*?\d+\s+[^,\d]+?)\s+([A-Za-z ]+)\s+(STATE)\s+(\d{4})$` (case-insensitive).
 *
 * Cleaning makes the text single-spaced (`CombinedSingleSpaced`), and on such
 * text every `\s+` takes exactly one space and the end of the pattern is fixed
 * by the text's last characters. What is left is the lazy first group, which
 * `StreetEnd` scans for in the engine's order: the shortest `.*?` first, and for
 * it the shortest `[^,\d]+?`.
 */
module Address {
  import opened Wrappers
  import opened Text

  /** What `parseCorrAddress` returns when it succeeds. */
  datatype CorrAddress = CorrAddress(Street: string, City: string, State: string, PostalCode: string)

  /** `STATE`, in the order of its alternatives. */
  const States: seq<string> := ["ACT", "NSW", "NT", "QLD", "SA", "TAS", "VIC", "WA"]

  // ---------------------------------------------------------------------------
  // Cleaning and combining

  function CleanLine(l: string): string {
    Trim(CollapseSpaces(ReplaceBr(l, " ")))
  }

  /** The cleaned cells, blank ones dropped (`.filter(Boolean)`). */
  function CleanLines(lines: seq<string>): seq<string> {
    if |lines| == 0 then []
    else
      var c := CleanLine(lines[0]);
      (if c == "" then [] else [c]) + CleanLines(lines[1..])
  }

  /** `s.search(/\d/)`, with -1 as `None`. */
  function FirstDigit(s: string): (i: Option<nat>)
    ensures i.Some? ==> i.value < |s| && IsDigit(s[i.value]) &&
                        forall k :: 0 <= k < i.value ==> !IsDigit(s[k])
    ensures i.None? ==> forall k :: 0 <= k < |s| ==> !IsDigit(s[k])
  {
    var n := RunEnd(s, 0, c => !IsDigit(c));
    if n == |s| then None else Some(n)
  }

  /** `\b` at position `i`. */
  predicate WordBoundary(s: string, i: nat)
    requires i <= |s|
  {
    (i > 0 && IsWordChar(s[i - 1])) != (i < |s| && IsWordChar(s[i]))
  }

  /**
   * A match of `\b(STATE)\b[^\d]*\b(\d{4})\b` (case-insensitive) with the state
   * code `c` at `i` and the postcode at `j`.
   */
  predicate StatePostAt(s: string, i: nat, c: string, j: nat)
    requires i <= |s| && j + 4 <= |s|
  {
    WordBoundary(s, i) && i + |c| <= j && CiPrefix(c, s[i..]) && WordBoundary(s, i + |c|) &&
    (forall k | i + |c| <= k < j :: !IsDigit(s[k])) && WordBoundary(s, j) &&
    (forall k | j <= k < j + 4 :: IsDigit(s[k])) && WordBoundary(s, j + 4)
  }

  /** `STATE_POST_RX.test(s)`. */
  predicate HasStatePost(s: string) {
    exists i, c, j | 0 <= i <= |s| && c in States && 0 <= j <= |s| - 4 :: StatePostAt(s, i, c, j)
  }

  /**
   * The text the pattern is matched against: the first cell from its first digit,
   * followed by the second cell when that one has a state and a postcode; `None`
   * when the first cell has no digit.
   */
  function Combined(clean: seq<string>): Option<string>
    requires |clean| > 0
  {
    match FirstDigit(clean[0])
    case None => None
    case Some(n) =>
      var head := Trim(clean[0][n..]);
      Some(if |clean| > 1 && HasStatePost(clean[1]) then head + " " + clean[1] else head)
  }

  // ---------------------------------------------------------------------------
  // The anchored pattern

  predicate IsLetterOrSpace(c: char) { IsLetter(c) || c == ' ' }

  /**
   * The end of the pattern: the text ends with a space, a state code, a space and
   * four digits. Gives the position of the space before the code, and the code
   * as written.
   */
  function Tail(p: string): (r: Option<(nat, string)>)
    ensures r.Some? ==> |p| >= 5 && r.value.0 + |r.value.1| + 1 == |p| - 5
  {
    if |p| < 5 || !AllChars(p[|p| - 4..], IsDigit) || p[|p| - 5] != ' ' then None
    else CodeBefore(p, |p| - 5, 0)
  }

  /** The first of `States[n..]` that ends at `k` (case-insensitively) with a space before it. */
  function CodeBefore(p: string, k: nat, n: nat): (r: Option<(nat, string)>)
    requires k <= |p| && n <= |States|
    ensures r.Some? ==> r.value.0 + |r.value.1| + 1 == k && p[r.value.0] == ' ' &&
                        r.value.1 == p[r.value.0 + 1..k] &&
                        exists c <- States :: CiEq(c, r.value.1)
    decreases |States| - n
  {
    if n == |States| then None
    else
      var c := States[n];
      if |c| + 1 <= k && CiEq(c, p[k - |c|..k]) && p[k - |c| - 1] == ' ' then
        Some((k - |c| - 1, p[k - |c|..k]))
      else CodeBefore(p, k, n + 1)
  }

  /** No comma and no digit in `p[t..e]`: what `[^,\d]` admits. */
  predicate Clear(p: string, t: nat, e: nat)
    requires t <= e <= |p|
  {
    forall k | t <= k < e :: p[k] != ',' && !IsDigit(p[k])
  }

  /**
   * The pattern after the first group, when that group ends at `e` and the code's
   * space is at `ts`: a space, then the city (letters and spaces) up to `ts`.
   */
  predicate Fits(p: string, e: nat, ts: nat) {
    e < ts <= |p| && p[e] == ' ' && e + 1 < ts && AllChars(p[e + 1..ts], IsLetterOrSpace)
  }

  /**
   * The first group `.*?\d+\s+[^,\d]+?` with its digit run starting at `a` and
   * ending at `e`: digits from `a` to the end of their run, one space, then at
   * least one character that is neither a comma nor a digit.
   */
  predicate GroupOne(p: string, a: nat, e: nat) {
    a < |p| && IsDigit(p[a]) &&
    var b := RunEnd(p, a, IsDigit);
    b < |p| && p[b] == ' ' && b + 1 < e <= |p| && Clear(p, b + 1, e)
  }

  /** The lazy `[^,\d]+?` from `t`: the shortest end, from `e` on, after which the rest fits. */
  function LazyEnd(p: string, t: nat, e: nat, ts: nat): (r: Option<nat>)
    requires t < e <= |p| && Clear(p, t, e - 1)
    ensures r.Some? ==> e <= r.value && Fits(p, r.value, ts) && Clear(p, t, r.value)
    ensures forall e' :: e <= e' <= |p| && Clear(p, t, e') && Fits(p, e', ts) ==> r.Some? && r.value <= e'
    decreases |p| - e
  {
    if p[e - 1] == ',' || IsDigit(p[e - 1]) then None
    else if Fits(p, e, ts) then Some(e)
    else if e < |p| then LazyEnd(p, t, e + 1, ts)
    else None
  }

  /**
   * The first group's end, trying the lazy `.*?` at `a`, `a + 1`, ...: the
   * digit-run start `a'` and the end `e` of the first match the engine finds.
   * (`\d+` may only end where its run ends, since a space must follow it.)
   */
  function StreetEnd(p: string, a: nat, ts: nat): (r: Option<(nat, nat)>)
    requires a <= |p|
    ensures r.Some? ==> a <= r.value.0 && GroupOne(p, r.value.0, r.value.1) && Fits(p, r.value.1, ts)
    ensures r.Some? ==> forall a', e' :: a <= a' < r.value.0 && GroupOne(p, a', e') ==> !Fits(p, e', ts)
    ensures r.Some? ==> forall e' :: GroupOne(p, r.value.0, e') && Fits(p, e', ts) ==> r.value.1 <= e'
    ensures r.None? ==> forall a', e' :: a <= a' && GroupOne(p, a', e') ==> !Fits(p, e', ts)
    decreases |p| - a
  {
    if a == |p| then None
    else
      var here :=
        if IsDigit(p[a]) then
          var b := RunEnd(p, a, IsDigit);
          if b + 1 < |p| && p[b] == ' ' then LazyEnd(p, b + 1, b + 2, ts) else None
        else None;
      if here.Some? then Some((a, here.value)) else StreetEnd(p, a + 1, ts)
  }

  /** The match on the combined text, with the groups read back as `parseCorrAddress` does. */
  function ParseCombined(p: string): Option<CorrAddress> {
    match Tail(p)
    case None => None
    case Some((ts, code)) =>
      match StreetEnd(p, 0, ts)
      case None => None
      case Some((_, e)) =>
        Some(CorrAddress(Trim(p[..e]), ToUpper(Trim(p[e + 1..ts])), ToUpper(code), p[|p| - 4..]))
  }

  function ParseCorrAddress(lines: seq<string>): (r: Option<CorrAddress>)
    ensures r.Some? ==> |r.value.PostalCode| == 4 && AllChars(r.value.PostalCode, IsDigit)
  {
    var clean := CleanLines(lines);
    if |clean| == 0 then None
    else
      match Combined(clean)
      case None => None
      case Some(p) => ParseCombined(p)
  }

  // ---------------------------------------------------------------------------
  // What the parser guarantees

  /** Cleaned cells are never blank and are single-spaced. */
  lemma {:induction false} CleanLinesSingleSpaced(lines: seq<string>)
    ensures forall c <- CleanLines(lines) :: |c| > 0 && SingleSpaced(c)
  {
    if |lines| > 0 {
      TrimCollapsedIsSingleSpaced(ReplaceBr(lines[0], " "));
      CleanLinesSingleSpaced(lines[1..]);
    }
  }

  /**
   * The combined text starts with a digit and is single-spaced: the scanner's
   * reading of the pattern applies to it.
   */
  lemma CombinedSingleSpaced(clean: seq<string>)
    requires |clean| > 0 && forall c <- clean :: |c| > 0 && SingleSpaced(c)
    ensures Combined(clean).Some? ==>
      var p := Combined(clean).value; |p| > 0 && IsDigit(p[0]) && SingleSpaced(p)
  {
    var first := clean[0];
    assert first in clean;
    match FirstDigit(first)
    case None =>
    case Some(n) =>
      assert SingleSpaced(first);
      assert !IsSpace(first[|first| - 1]);
      SingleSpacedSlice(first, n, |first|);
      TrimSingleSpaced(first[n..]);
      var head := first[n..];
      assert head[0] == first[n];
      if |clean| > 1 && HasStatePost(clean[1]) {
        assert clean[1] in clean;
        SingleSpacedJoin(head, clean[1]);
        assert (head + " " + clean[1])[0] == head[0];
      }
  }

  /**
   * The second cell is appended, after one space, exactly when it has a state
   * code and a postcode; otherwise the text is the first cell from its first
   * digit, trimmed. There is no text when the first cell has no digit.
   */
  lemma CombinedJoin(clean: seq<string>)
    requires |clean| > 0
    ensures Combined(clean).Some? <==> FirstDigit(clean[0]).Some?
    ensures Combined(clean).Some? ==>
      var head := Trim(clean[0][FirstDigit(clean[0]).value..]);
      (|clean| > 1 && HasStatePost(clean[1]) <==> |clean| > 1 && Combined(clean).value == head + " " + clean[1]) &&
      (Combined(clean).value == head <==> !(|clean| > 1 && HasStatePost(clean[1])))
  {
    if FirstDigit(clean[0]).Some? {
      var head := Trim(clean[0][FirstDigit(clean[0]).value..]);
      if |clean| > 1 {
        assert |head + " " + clean[1]| > |head|;
      }
    }
  }

  /** A code read case-insensitively as one of `States` upper-cases to that code. */
  lemma UpperOfStateCode(c: string, x: string)
    requires c in States && CiEq(c, x)
    ensures ToUpper(x) == c
  {
    forall i | 0 <= i < |x| ensures ToUpper(x)[i] == c[i] {
      assert CiEqChar(c[i], x[i]);
      assert IsUpper(c[i]);
    }
  }

  /** The street group of a single-spaced text starting with a digit: kept whole by the trim, starting with that digit. */
  lemma StreetShape(p: string, e: nat)
    requires SingleSpaced(p) && 0 < e < |p| && IsDigit(p[0]) && p[e] == ' '
    ensures Trim(p[..e]) == p[..e] && |p[..e]| > 0 && IsDigit(p[..e][0])
  {
    assert !IsSpace(p[e - 1]);
    SingleSpacedSlice(p, 0, e);
    TrimSingleSpaced(p[..e]);
  }

  /** The city group, between two single spaces: kept whole by the trim, then upper-cased. */
  lemma CityShape(p: string, e: nat, ts: nat)
    requires SingleSpaced(p) && Fits(p, e, ts) && ts < |p| && p[ts] == ' '
    ensures var city := ToUpper(Trim(p[e + 1..ts]));
      |city| > 0 && AllChars(city, c => IsUpper(c) || c == ' ')
  {
    assert !IsSpace(p[e + 1]) && !IsSpace(p[ts - 1]);
    SingleSpacedSlice(p, e + 1, ts);
    var city := p[e + 1..ts];
    TrimSingleSpaced(city);
    forall i | 0 <= i < |city| ensures IsUpper(ToUpper(city)[i]) || ToUpper(city)[i] == ' ' {
      assert IsLetterOrSpace(city[i]);
    }
  }

  /**
   * On success on a single-spaced text starting with a digit: the state is one of
   * the eight codes, upper-cased; the postcode is the four digits the text ends
   * with; the city is non-empty, upper-case letters and spaces; the street starts
   * with the text's first digit.
   */
  lemma ParseCombinedShape(p: string)
    requires SingleSpaced(p) && |p| > 0 && IsDigit(p[0]) && ParseCombined(p).Some?
    ensures var addr := ParseCombined(p).value;
      addr.State in States &&
      addr.PostalCode == p[|p| - 4..] && |addr.PostalCode| == 4 && AllChars(addr.PostalCode, IsDigit) &&
      |addr.City| > 0 && AllChars(addr.City, c => IsUpper(c) || c == ' ') &&
      |addr.Street| > 0 && IsDigit(addr.Street[0])
  {
    var (ts, code) := Tail(p).value;
    var (a, e) := StreetEnd(p, 0, ts).value;
    var c :| c in States && CiEq(c, code);
    UpperOfStateCode(c, code);
    StreetShape(p, e);
    CityShape(p, e, ts);
  }

  /** The same guarantees for `parseCorrAddress` itself, whose combined text is always of that kind. */
  lemma ParseSuccessShape(lines: seq<string>)
    requires ParseCorrAddress(lines).Some?
    ensures var addr := ParseCorrAddress(lines).value;
      var p := Combined(CleanLines(lines)).value;
      addr.State in States &&
      addr.PostalCode == p[|p| - 4..] && |addr.PostalCode| == 4 && AllChars(addr.PostalCode, IsDigit) &&
      |addr.City| > 0 && AllChars(addr.City, c => IsUpper(c) || c == ' ') &&
      |addr.Street| > 0 && IsDigit(addr.Street[0])
  {
    CleanLinesSingleSpaced(lines);
    CombinedSingleSpaced(CleanLines(lines));
    ParseCombinedShape(Combined(CleanLines(lines)).value);
  }

  /** The regular expression matches the combined text: its end fits, and some first group fits before it. */
  predicate PatternMatches(p: string) {
    Tail(p).Some? &&
    exists a, e | 0 <= a < |p| && 0 <= e <= |p| :: GroupOne(p, a, e) && Fits(p, e, Tail(p).value.0)
  }

  /**
   * `parseCorrAddress` returns null exactly when every cell is blank after
   * cleaning, or the first remaining cell has no digit, or the pattern does not
   * match the combined text.
   */
  lemma NullCases(lines: seq<string>)
    ensures var clean := CleanLines(lines);
      ParseCorrAddress(lines).None? <==>
        |clean| == 0 || Combined(clean).None? || !PatternMatches(Combined(clean).value)
  {
    var clean := CleanLines(lines);
    if |clean| > 0 && Combined(clean).Some? {
      var p := Combined(clean).value;
      if Tail(p).Some? {
        var ts := Tail(p).value.0;
        if StreetEnd(p, 0, ts).Some? {
          var (a, e) := StreetEnd(p, 0, ts).value;
          assert GroupOne(p, a, e) && Fits(p, e, ts);
        }
      }
    }
  }

  // ---------------------------------------------------------------------------
  // Round trip for a one-word street

  /** An address written on one line: number, street word, city, state code, postcode. */
  function AddressLine(num: string, word: string, city: string, code: string, pc: string): string {
    num + " " + word + " " + city + " " + code + " " + pc
  }

  /**
   * Parts the pattern can read back: a house number, a one-word street name, a
   * city of letters and single spaces, a state code in any case and a four-digit
   * postcode.
   */
  predicate ReadableParts(num: string, word: string, city: string, code: string, pc: string) {
    |num| > 0 && AllChars(num, IsDigit) && |word| > 0 && AllChars(word, IsLetter) &&
    |city| > 0 && AllChars(city, IsLetterOrSpace) && SingleSpaced(city) &&
    StateCode(code) && |pc| == 4 && AllChars(pc, IsDigit)
  }

  /** A state code as it may be written: letters that upper-case to one of `States`. */
  predicate StateCode(code: string) {
    |code| > 0 && AllChars(code, IsLetter) && ToUpper(code) in States
  }

  /** A text matches its own upper-casing case-insensitively. */
  lemma UpperCiEq(x: string)
    ensures CiEq(ToUpper(x), x)
  {
    forall i | 0 <= i < |x| ensures CiEqChar(ToUpper(x)[i], x[i]) {
      assert UpperChar(UpperChar(x[i])) == UpperChar(x[i]);
    }
  }

  lemma StatesAreUpperCaseWords()
    ensures forall c <- States :: |c| > 0 && AllChars(c, IsUpper)
  {
  }

  /** Where the two parts of `a + " " + b` sit. */
  lemma JoinAt(a: string, b: string)
    ensures var t := a + " " + b;
      |t| == |a| + 1 + |b| && t[..|a|] == a && t[|a|] == ' ' && t[|a| + 1..] == b
  {
  }

  /** A text whose characters all satisfy `ok` and whose spaces are single has no tag and is its own cleaning. */
  lemma CleanIdentity(p: string, ok: char -> bool)
    requires |p| > 0 && SingleSpaced(p) && AllChars(p, ok) && !ok('<')
    ensures CleanLines([p]) == [p]
  {
    ReplaceBrNoTag(p, " ");
    CollapseNoDoubleSpace(p);
    TrimSingleSpaced(p);
    assert [p][1..] == [];
  }

  /** A single-spaced line that starts with a digit is the combined text as it is. */
  lemma CombinedOfOneLine(p: string)
    requires |p| > 0 && SingleSpaced(p) && IsDigit(p[0])
    ensures Combined([p]) == Some(p)
  {
    assert FirstDigit(p) == Some(0);
    assert p[0..] == p;
    TrimSingleSpaced(p);
  }

  /** Each state code is a non-empty upper-case word. */
  lemma StateIsUpperWord(m: nat)
    requires m < |States|
    ensures |States[m]| > 0 && AllChars(States[m], IsUpper)
  {
  }

  /** The codes of `States` are pairwise different. */
  lemma StatesDistinct(i: nat, j: nat)
    requires i < j < |States|
    ensures States[i] != States[j]
  {
    assert States[i][0] != States[j][0] || |States[i]| != |States[j]| || States[i][1] != States[j][1];
  }

  /** A state code of `States` other than `code` does not end at `k` when `code` does, with a space before it. */
  lemma OtherCodeMisfits(p: string, k: nat, c: string, code: string)
    requires k <= |p| && |code| + 1 <= k && p[k - |code|..k] == code && p[k - |code| - 1] == ' '
    requires |c| > 0 && AllChars(c, IsUpper) && AllChars(code, IsLetter) && c != ToUpper(code)
    ensures !(|c| + 1 <= k && CiEq(c, p[k - |c|..k]) && p[k - |c| - 1] == ' ')
  {
    // A shorter `c` would need its space inside `code`, which has none.
    if |c| + 1 <= k && p[k - |c| - 1] == ' ' && |c| == |code| {
      var t := p[k - |c|..k];
      assert t == code;
      var i :| 0 <= i < |c| && c[i] != ToUpper(code)[i];
      assert !CiEqChar(c[i], t[i]);
    } else if |c| + 1 <= k && |c| > |code| {
      var t := p[k - |c|..k];
      var j := |c| - |code| - 1;
      assert t[j] == ' ';
      assert !CiEqChar(c[j], t[j]);
    }
  }

  /** The state code at the end is found as written, whatever codes come before it in `States`. */
  lemma {:induction false} CodeBeforeFinds(p: string, k: nat, n: nat, m: nat, code: string)
    requires n <= m < |States| && k <= |p| && AllChars(code, IsLetter) && ToUpper(code) == States[m]
    requires |code| + 1 <= k && p[k - |code|..k] == code && p[k - |code| - 1] == ' '
    ensures CodeBefore(p, k, n) == Some((k - |code| - 1, code))
    decreases m - n
  {
    if n < m {
      StateIsUpperWord(n);
      StatesDistinct(n, m);
      OtherCodeMisfits(p, k, States[n], code);
      CodeBeforeFinds(p, k, n + 1, m, code);
    } else {
      UpperCiEq(code);
    }
  }

  /** The end of the pattern on such a line: the code after `front`, then the postcode. */
  lemma TailOfLine(front: string, code: string, pc: string)
    requires StateCode(code) && |pc| == 4 && AllChars(pc, IsDigit)
    ensures Tail(front + " " + code + " " + pc) == Some((|front|, code))
  {
    var q := front + " " + code;
    var p := q + " " + pc;
    JoinAt(front, code);
    JoinAt(q, pc);
    assert p[|q| + 1..] == pc;
    assert p[|p| - 5] == ' ';
    assert p[|q| - |code|..|q|] == code by {
      assert p[..|q|] == q;
      assert q[|front| + 1..] == code;
    }
    var m :| 0 <= m < |States| && States[m] == ToUpper(code);
    CodeBeforeFinds(p, |q|, 0, m, code);
  }

  /**
   * The first group on a line that starts with the digit run `p[..n]`, a space and
   * a run of letters up to `ew`, after which the rest fits: the lazy group stops
   * at the end of the letters.
   */
  lemma StreetEndOfLine(p: string, n: nat, ew: nat, ts: nat)
    requires 0 < n && n + 1 < ew < |p| && p[n] == ' '
    requires forall i | 0 <= i < n :: IsDigit(p[i])
    requires forall i | n < i < ew :: IsLetter(p[i])
    requires Fits(p, ew, ts)
    ensures StreetEnd(p, 0, ts) == Some((0, ew))
  {
    assert RunEnd(p, 0, IsDigit) == n;
    assert Clear(p, n + 1, ew);
    var r := LazyEnd(p, n + 1, n + 2, ts);
    assert r.Some? && r.value <= ew;
    assert p[r.value] == ' ';
  }

  /** Where the street and the city sit in the line. */
  lemma LineParts(num: string, word: string, city: string, code: string, pc: string)
    ensures var p := AddressLine(num, word, city, code, pc);
      var street := num + " " + word;
      var front := street + " " + city;
      |front| < |p| && p[..|street|] == street && p[|street|] == ' ' &&
      p[|street| + 1..|front|] == city && p[|front|] == ' '
  {
    var street := num + " " + word;
    var front := street + " " + city;
    var q := front + " " + code;
    var p := AddressLine(num, word, city, code, pc);
    JoinAt(street, city);
    JoinAt(front, code);
    JoinAt(q, pc);
    assert p[..|q|] == q;
    assert q[..|front|] == front;
    assert p[..|front|] == front;
    assert p[..|street|] == front[..|street|];
    assert p[|street|] == front[|street|];
  }

  /** A text without whitespace is single-spaced. */
  lemma NoSpaceSingleSpaced(s: string)
    requires forall i :: 0 <= i < |s| ==> !IsSpace(s[i])
    ensures SingleSpaced(s)
  {
  }

  /** The line is single-spaced and starts with a digit. */
  lemma LineSingleSpaced(num: string, word: string, city: string, code: string, pc: string)
    requires ReadableParts(num, word, city, code, pc)
    ensures var p := AddressLine(num, word, city, code, pc);
      SingleSpaced(p) && IsDigit(p[0])
  {
    var street := num + " " + word;
    var front := street + " " + city;
    NoSpaceSingleSpaced(num);
    NoSpaceSingleSpaced(word);
    NoSpaceSingleSpaced(code);
    NoSpaceSingleSpaced(pc);
    SingleSpacedJoin(num, word);
    SingleSpacedJoin(street, city);
    SingleSpacedJoin(front, code);
    SingleSpacedJoin(front + " " + code, pc);
    assert AddressLine(num, word, city, code, pc)[0] == num[0];
  }

  /** Joining two texts of letters, digits and spaces with a space gives another. */
  lemma PlainJoin(a: string, b: string)
    requires AllChars(a, IsPlain) && AllChars(b, IsPlain)
    ensures AllChars(a + " " + b, IsPlain)
  {
    JoinAt(a, b);
  }

  predicate IsPlain(c: char) { IsDigit(c) || IsLetter(c) || c == ' ' }

  /** The line is made of letters, digits and spaces only. */
  lemma LineIsPlain(num: string, word: string, city: string, code: string, pc: string)
    requires ReadableParts(num, word, city, code, pc)
    ensures AllChars(AddressLine(num, word, city, code, pc), IsPlain)
  {
    var street := num + " " + word;
    var front := street + " " + city;
    PlainJoin(num, word);
    PlainJoin(street, city);
    PlainJoin(front, code);
    PlainJoin(front + " " + code, pc);
  }

  /** The digit run and the street word at the start of the line. */
  lemma StreetFacts(p: string, num: string, word: string)
    requires |num| > 0 && AllChars(num, IsDigit) && AllChars(word, IsLetter)
    requires |num| + 1 + |word| <= |p| && p[..|num| + 1 + |word|] == num + " " + word
    ensures p[|num|] == ' '
    ensures forall i | 0 <= i < |num| :: IsDigit(p[i])
    ensures forall i | |num| < i < |num| + 1 + |word| :: IsLetter(p[i])
  {
    var street := num + " " + word;
    JoinAt(num, word);
    assert forall i | 0 <= i < |street| :: p[i] == street[i];
  }

  /** A clean one-line input that starts with a digit is parsed as the text it is. */
  lemma ParseOneLine(p: string)
    requires |p| > 0 && SingleSpaced(p) && IsDigit(p[0]) && AllChars(p, IsPlain)
    ensures ParseCorrAddress([p]) == ParseCombined(p)
  {
    CleanIdentity(p, IsPlain);
    CombinedOfOneLine(p);
  }

  /** The groups read back once the end of the pattern and the first group are found. */
  lemma ParseCombinedOf(p: string, ts: nat, code: string, e: nat, read: CorrAddress)
    requires Tail(p) == Some((ts, code)) && StreetEnd(p, 0, ts) == Some((0, e))
    requires e + 1 <= ts <= |p| - 4
    requires read == CorrAddress(Trim(p[..e]), ToUpper(Trim(p[e + 1..ts])), ToUpper(code), p[|p| - 4..])
    ensures ParseCombined(p) == Some(read)
  {
  }

  /** The pattern on the line reads back the street, the city, the code and the postcode. */
  lemma ParseCombinedOfLine(num: string, word: string, city: string, code: string, pc: string)
    requires ReadableParts(num, word, city, code, pc)
    requires SingleSpaced(AddressLine(num, word, city, code, pc))
    ensures ParseCombined(AddressLine(num, word, city, code, pc)) ==
            Some(CorrAddress(num + " " + word, ToUpper(city), ToUpper(code), pc))
  {
    var street := num + " " + word;
    var front := street + " " + city;
    var p := AddressLine(num, word, city, code, pc);
    TailOfLine(front, code, pc);
    LineParts(num, word, city, code, pc);
    StreetFacts(p, num, word);
    StreetEndOfLine(p, |num|, |street|, |front|);
    StreetShape(p, |street|);
    TrimSingleSpaced(city);
    assert p[|p| - 4..] == pc by { JoinAt(front + " " + code, pc); }
    ParseCombinedOf(p, |front|, code, |street|, CorrAddress(street, ToUpper(city), ToUpper(code), pc));
  }

  /**
   * The number and the first word after it are read back as the street, and
   * everything from there to the state code as the city, upper-cased. For a
   * one-word street this is the address as written; for a longer street the lazy
   * first group stops after its first word, and the other words go to the city
   * ("12 Smith Street Hawthorn East VIC 3123" gives the street "12 Smith" and the
   * city "STREET HAWTHORN EAST"). The state code is matched in any case and
   * read back upper-cased, like the city.
   */
  lemma AddressRoundTrip(num: string, word: string, city: string, code: string, pc: string)
    requires ReadableParts(num, word, city, code, pc)
    ensures ParseCorrAddress([AddressLine(num, word, city, code, pc)]) ==
            Some(CorrAddress(num + " " + word, ToUpper(city), ToUpper(code), pc))
  {
    var p := AddressLine(num, word, city, code, pc);
    LineSingleSpaced(num, word, city, code, pc);
    LineIsPlain(num, word, city, code, pc);
    ParseOneLine(p);
    ParseCombinedOfLine(num, word, city, code, pc);
  }

  // ---------------------------------------------------------------------------
  // Round trip for an address written on two lines

  /** The second line: city, state code and postcode. */
  function CityLine(city: string, code: string, pc: string): string {
    city + " " + code + " " + pc
  }

  /** The second line has a state code and a postcode, so it is joined to the first. */
  lemma CityLineHasStatePost(city: string, code: string, pc: string)
    requires |city| > 0 && AllChars(city, IsLetterOrSpace) && SingleSpaced(city)
    requires StateCode(code) && |pc| == 4 && AllChars(pc, IsDigit)
    ensures HasStatePost(CityLine(city, code, pc))
  {
    var q := city + " " + code;
    var b := q + " " + pc;
    var c := ToUpper(code);
    UpperCiEq(code);
    JoinAt(city, code);
    JoinAt(q, pc);
    var i := |city| + 1;
    var j := |q| + 1;
    assert b[..|q|] == q;
    assert b[i..][..|code|] == code by {
      assert forall k | 0 <= k < |code| :: b[i + k] == q[i + k] == code[k];
    }
    assert CiPrefix(c, b[i..]);
    assert b[i - 1] == ' ';
    assert b[i] == code[0] && b[i + |code| - 1] == code[|code| - 1];
    assert b[j..] == pc;
    assert forall k | j <= k < j + 4 :: b[k] == pc[k - j];
    assert StatePostAt(b, i, c, j);
  }

  /** Two clean cells of letters, digits and single spaces are their own cleaning. */
  lemma CleanTwo(a: string, b: string)
    requires |a| > 0 && SingleSpaced(a) && AllChars(a, IsPlain)
    requires |b| > 0 && SingleSpaced(b) && AllChars(b, IsPlain)
    ensures CleanLines([a, b]) == [a, b]
  {
    CleanIdentity(a, IsPlain);
    CleanIdentity(b, IsPlain);
    assert [a, b][1..] == [b];
  }

  /** The city line is made of letters, digits and single spaces. */
  lemma CityLinePlain(city: string, code: string, pc: string)
    requires |city| > 0 && AllChars(city, IsLetterOrSpace) && SingleSpaced(city)
    requires StateCode(code) && |pc| == 4 && AllChars(pc, IsDigit)
    ensures |CityLine(city, code, pc)| > 0 && SingleSpaced(CityLine(city, code, pc))
    ensures AllChars(CityLine(city, code, pc), IsPlain)
  {
    NoSpaceSingleSpaced(code);
    NoSpaceSingleSpaced(pc);
    SingleSpacedJoin(city, code);
    SingleSpacedJoin(city + " " + code, pc);
    PlainJoin(city, code);
    PlainJoin(city + " " + code, pc);
  }

  /** The street line is made of a digit run, a space and letters. */
  lemma StreetLinePlain(num: string, word: string)
    requires |num| > 0 && AllChars(num, IsDigit) && |word| > 0 && AllChars(word, IsLetter)
    ensures var a := num + " " + word; |a| > 0 && SingleSpaced(a) && AllChars(a, IsPlain) && IsDigit(a[0])
  {
    NoSpaceSingleSpaced(num);
    NoSpaceSingleSpaced(word);
    SingleSpacedJoin(num, word);
    PlainJoin(num, word);
  }

  /** A clean first line starting with a digit, and a second line with a state code and a postcode, are combined joined. */
  lemma CombinedTwo(a: string, b: string)
    requires |a| > 0 && SingleSpaced(a) && IsDigit(a[0]) && HasStatePost(b)
    ensures Combined([a, b]) == Some(a + " " + b)
  {
    assert FirstDigit(a) == Some(0);
    assert a[0..] == a;
    TrimSingleSpaced(a);
  }

  /** Two clean lines whose combined text is the two joined are parsed as that text. */
  lemma ParseTwoLines(a: string, b: string)
    requires CleanLines([a, b]) == [a, b] && Combined([a, b]) == Some(a + " " + b)
    ensures ParseCorrAddress([a, b]) == ParseCombined(a + " " + b)
  {
  }

  /** The two lines joined are the one-line form. */
  lemma TwoLinesJoined(num: string, word: string, city: string, code: string, pc: string)
    ensures (num + " " + word) + " " + CityLine(city, code, pc) == AddressLine(num, word, city, code, pc)
  {
  }

  /**
   * The street on the first line and "city STATE postcode" on the second are
   * joined into the one-line text and read back as it is, with the city and the
   * state code upper-cased.
   */
  lemma AddressTwoLineRoundTrip(num: string, word: string, city: string, code: string, pc: string)
    requires ReadableParts(num, word, city, code, pc)
    ensures ParseCorrAddress([num + " " + word, CityLine(city, code, pc)]) ==
            Some(CorrAddress(num + " " + word, ToUpper(city), ToUpper(code), pc))
  {
    var a := num + " " + word;
    var b := CityLine(city, code, pc);
    StreetLinePlain(num, word);
    CityLinePlain(city, code, pc);
    CityLineHasStatePost(city, code, pc);
    CleanTwo(a, b);
    CombinedTwo(a, b);
    ParseTwoLines(a, b);
    TwoLinesJoined(num, word, city, code, pc);
    LineSingleSpaced(num, word, city, code, pc);
    ParseCombinedOfLine(num, word, city, code, pc);
  }
}
