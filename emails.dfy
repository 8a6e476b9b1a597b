/**
 * E-mail harvesting (`EMAIL_REGEX` and `extractOwnerEmails` in
 * app/lib/ai/postValidators.ts) and the first-seen de-duplication both it and
 * `deduplicateOwnerEmails` rely on (`Array.from(new Set(...))`).
 */
module Emails {
  import opened Wrappers
  import opened Text

  /** `[A-Za-z0-9._%+-]`: a character of the part before the @. */
  predicate IsLocalChar(c: char) {
    IsLetter(c) || IsDigit(c) || c == '.' || c == '_' || c == '%' || c == '+' || c == '-'
  }

  /** `[A-Za-z0-9.-]`: a character of the part after the @. */
  predicate IsDomainChar(c: char) {
    IsLetter(c) || IsDigit(c) || c == '.' || c == '-'
  }

  /**
   * The dot before the top-level label, as the greedy `[A-Za-z0-9.-]+` gives it
   * back: the largest `d` with `a < d < k`, `s[d] == '.'` and two letters after it.
   */
  function TldDot(s: string, a: nat, k: nat): (d: Option<nat>)
    requires a <= k <= |s|
    ensures d.Some? ==> a < d.value < k && d.value + 2 < |s| && s[d.value] == '.' &&
                        IsLetter(s[d.value + 1]) && IsLetter(s[d.value + 2])
    decreases k
  {
    if k <= a + 1 then None
    else if s[k - 1] == '.' && k + 1 < |s| && IsLetter(s[k]) && IsLetter(s[k + 1]) then Some(k - 1)
    else TldDot(s, a, k - 1)
  }

  /**
   * The end of the match of `/[A-Za-z0-9._%+-]+@[A-Za-z0-9.-]+\.[A-Za-z]{2,}/` that
   * starts at `p`, if there is one. The local part can only end at the @ that
   * ends its maximal run; the domain part gives back characters until a dot with
   * two letters after it is found; the top-level label then takes every letter.
   */
  function EmailAt(s: string, p: nat): (f: Option<nat>)
    requires p <= |s|
    ensures f.Some? ==> p < f.value <= |s|
  {
    var at := RunEnd(s, p, IsLocalChar);
    if at == p || at >= |s| || s[at] != '@' then None
    else
      var e := RunEnd(s, at + 1, IsDomainChar);
      match TldDot(s, at + 1, e)
      case None => None
      case Some(d) => Some(RunEnd(s, d + 1, IsLetter))
  }

  /**
   * The shape of every match: a non-empty local part, an @, and a domain part
   * with at least one character before its last dot and two or more letters after it.
   */
  predicate EmailShaped(t: string) {
    exists at, d :: 0 < at && at + 1 < d < |t| - 2 && t[at] == '@' && t[d] == '.' &&
      AllChars(t[..at], IsLocalChar) && AllChars(t[at + 1..], IsDomainChar) &&
      AllChars(t[d + 1..], IsLetter)
  }

  /** A run of `p`-characters inside a run of `q`-characters ends no later, when `p` implies `q`. */
  lemma {:induction false} RunEndWithin(s: string, i: nat, j: nat, p: char -> bool, q: char -> bool)
    requires i <= |s| && i <= j <= RunEnd(s, i, q)
    requires forall c :: p(c) ==> q(c)
    ensures RunEnd(s, j, p) <= RunEnd(s, i, q)
    decreases |s| - j
  {
    if j < |s| && p(s[j]) {
      RunEndWithin(s, i, j + 1, p, q);
    }
  }

  lemma EmailAtShape(s: string, p: nat)
    requires p <= |s| && EmailAt(s, p).Some?
    ensures p < EmailAt(s, p).value <= |s|
    ensures EmailShaped(s[p..EmailAt(s, p).value])
  {
    var at := RunEnd(s, p, IsLocalChar);
    var e := RunEnd(s, at + 1, IsDomainChar);
    var d := TldDot(s, at + 1, e).value;
    var f := RunEnd(s, d + 1, IsLetter);
    assert EmailAt(s, p) == Some(f);
    EmailParts(s, p, at, e, d);
  }

  /** The local part, the domain run and the dot found in it make an e-mail-shaped match. */
  lemma EmailParts(s: string, p: nat, at: nat, e: nat, d: nat)
    requires p < at && at + 1 < d < e <= |s| && s[at] == '@' && s[d] == '.'
    requires d + 2 < |s| && IsLetter(s[d + 1]) && IsLetter(s[d + 2])
    requires forall k :: p <= k < at ==> IsLocalChar(s[k])
    requires e == RunEnd(s, at + 1, IsDomainChar)
    ensures EmailShaped(s[p..RunEnd(s, d + 1, IsLetter)])
  {
    var f := RunEnd(s, d + 1, IsLetter);
    RunEndWithin(s, at + 1, d + 1, IsLetter, IsDomainChar);
    SliceAllChars(s, p, at, IsLocalChar);
    SliceAllChars(s, at + 1, f, IsDomainChar);
    SliceAllChars(s, d + 1, f, IsLetter);
    ShapedSlice(s, p, at, d, f);
  }

  /** A slice whose characters all satisfy `q`. */
  lemma SliceAllChars(s: string, lo: nat, hi: nat, q: char -> bool)
    requires lo <= hi <= |s| && forall k :: lo <= k < hi ==> q(s[k])
    ensures AllChars(s[lo..hi], q)
  {
    forall i | 0 <= i < hi - lo ensures q(s[lo..hi][i]) {
      assert s[lo..hi][i] == s[lo + i];
    }
  }

  /** The text from `p` to `f` is e-mail shaped, with its @ at `at` and its last dot at `d`. */
  lemma ShapedSlice(s: string, p: nat, at: nat, d: nat, f: nat)
    requires p < at && at + 1 < d && d + 2 < f <= |s| && s[at] == '@' && s[d] == '.'
    requires AllChars(s[p..at], IsLocalChar) && AllChars(s[at + 1..f], IsDomainChar) && AllChars(s[d + 1..f], IsLetter)
    ensures EmailShaped(s[p..f])
  {
    var t := s[p..f];
    assert t[..at - p] == s[p..at];
    assert t[at - p + 1..] == s[at + 1..f];
    assert t[d - p + 1..] == s[d + 1..f];
    assert t[at - p] == '@' && t[d - p] == '.';
  }

  /** `s.match(EMAIL_REGEX) || []` from position `p`: leftmost matches, none overlapping. */
  function Matches(s: string, p: nat): seq<string>
    requires p <= |s|
    decreases |s| - p
  {
    if p == |s| then []
    else match EmailAt(s, p)
      case Some(f) => [s[p..f]] + Matches(s, f)
      case None => Matches(s, p + 1)
  }

  lemma {:induction false} MatchesShaped(s: string, p: nat)
    requires p <= |s|
    ensures forall m <- Matches(s, p) :: EmailShaped(m)
    decreases |s| - p
  {
    if p < |s| {
      match EmailAt(s, p)
      case Some(f) =>
        EmailAtShape(s, p);
        MatchesShaped(s, f);
      case None =>
        MatchesShaped(s, p + 1);
    }
  }

  // ---------------------------------------------------------------------------
  // First-seen de-duplication

  /** `Array.from(new Set(xs))`: each value once, where it first occurs. */
  function Distinct<T(==)>(xs: seq<T>): seq<T> {
    if |xs| == 0 then []
    else
      var d := Distinct(xs[..|xs| - 1]);
      if xs[|xs| - 1] in d then d else d + [xs[|xs| - 1]]
  }

  predicate NoDuplicates<T(==)>(xs: seq<T>) {
    forall i, j :: 0 <= i < j < |xs| ==> xs[i] != xs[j]
  }

  /** The position of the first occurrence of `x` in `xs`. */
  function FirstIndex<T(==)>(xs: seq<T>, x: T): (i: nat)
    requires x in xs
    ensures i < |xs| && xs[i] == x && x !in xs[..i]
  {
    if xs[0] == x then 0 else 1 + FirstIndex(xs[1..], x)
  }

  /**
   * The de-duplicated list holds every value of the input once, and lists the
   * values in the order of their first occurrence.
   */
  lemma {:induction false} DistinctSpec<T>(xs: seq<T>)
    ensures NoDuplicates(Distinct(xs))
    ensures forall x :: x in Distinct(xs) <==> x in xs
    ensures forall i, j :: 0 <= i < j < |Distinct(xs)| ==>
      FirstIndex(xs, Distinct(xs)[i]) < FirstIndex(xs, Distinct(xs)[j])
    ensures |Distinct(xs)| <= |xs|
  {
    if |xs| > 0 {
      var pre := xs[..|xs| - 1];
      var x := xs[|xs| - 1];
      DistinctSpec(pre);
      var d := Distinct(pre);
      assert xs == pre + [x];
      forall y | y in pre ensures FirstIndex(xs, y) == FirstIndex(pre, y) {
        FirstIndexOfPrefix(pre, [x], y);
      }
      if x !in pre {
        assert forall i :: 0 <= i < |pre| ==> xs[i] == pre[i];
        assert FirstIndex(xs, x) == |pre|;
      }
    }
  }

  lemma {:induction false} FirstIndexOfPrefix<T>(a: seq<T>, b: seq<T>, y: T)
    requires y in a
    ensures FirstIndex(a + b, y) == FirstIndex(a, y)
  {
    if a[0] != y {
      assert (a + b)[1..] == a[1..] + b;
      FirstIndexOfPrefix(a[1..], b, y);
    }
  }

  /** A list without repeats is its own de-duplication; so de-duplicating twice is de-duplicating once. */
  lemma {:induction false} DistinctOfDistinct<T>(xs: seq<T>)
    requires NoDuplicates(xs)
    ensures Distinct(xs) == xs
  {
    if |xs| > 0 {
      var pre := xs[..|xs| - 1];
      DistinctOfDistinct(pre);
      assert xs == pre + [xs[|xs| - 1]];
    }
  }

  /** `extractOwnerEmails`: the distinct matches, in first-seen order. */
  function ExtractOwnerEmails(ownerText: string): (emails: seq<string>)
    ensures forall e <- emails :: e in Matches(ownerText, 0) && EmailShaped(e)
  {
    MatchesShaped(ownerText, 0);
    DistinctSpec(Matches(ownerText, 0));
    Distinct(Matches(ownerText, 0))
  }

  /**
   * The harvested addresses are each shaped like an e-mail address, appear once,
   * and are exactly the matches found in the text.
   */
  lemma ExtractOwnerEmailsSpec(ownerText: string)
    ensures NoDuplicates(ExtractOwnerEmails(ownerText))
    ensures forall m :: m in ExtractOwnerEmails(ownerText) <==> m in Matches(ownerText, 0)
    ensures forall m <- ExtractOwnerEmails(ownerText) :: EmailShaped(m)
  {
    DistinctSpec(Matches(ownerText, 0));
    MatchesShaped(ownerText, 0);
  }

  /** `xs[k] || ""` for a list of non-empty values: the k-th one, or "" past the end. */
  function SlotValue(xs: seq<string>, k: nat): string {
    if k < |xs| then xs[k] else ""
  }

  // ---------------------------------------------------------------------------
  // Harvesting the slots again

  /** The four e-mail slots filled from a harvest: `emails[0] || ""` to `emails[3] || ""`. */
  function Slots(emails: seq<string>): seq<string> {
    [SlotValue(emails, 0), SlotValue(emails, 1), SlotValue(emails, 2), SlotValue(emails, 3)]
  }

  /** The values of `xs` that are not "", in order. */
  function NonEmpty(xs: seq<string>): seq<string> {
    if |xs| == 0 then [] else (if xs[0] == "" then [] else [xs[0]]) + NonEmpty(xs[1..])
  }

  /** The run of `p`-characters from `i` ends at `j` when every character before `j` is one and `s[j]` is not. */
  lemma {:induction false} RunEndAt(s: string, i: nat, j: nat, p: char -> bool)
    requires i <= j <= |s| && (forall k :: i <= k < j ==> p(s[k])) && (j == |s| || !p(s[j]))
    ensures RunEnd(s, i, p) == j
    decreases j - i
  {
    if i < j {
      RunEndAt(s, i + 1, j, p);
    }
  }

  /** Scanning down from `k`, the first dot with two letters after it is `d` when only letters lie between. */
  lemma {:induction false} TldDotAt(s: string, a: nat, k: nat, d: nat)
    requires a < d < k <= |s| && d + 2 < |s| && s[d] == '.' && IsLetter(s[d + 1]) && IsLetter(s[d + 2])
    requires forall j :: d < j < k ==> IsLetter(s[j])
    ensures TldDot(s, a, k) == Some(d)
    decreases k
  {
    if k > d + 1 {
      TldDotAt(s, a, k - 1, d);
    }
  }

  /** The @ and the last dot of an e-mail-shaped text, and the characters around them. */
  lemma ShapedWitness(t: string) returns (at: nat, d: nat)
    requires EmailShaped(t)
    ensures 0 < at && at + 1 < d < |t| - 2 && t[at] == '@' && t[d] == '.'
    ensures forall k :: 0 <= k < at ==> IsLocalChar(t[k])
    ensures forall k :: at < k < |t| ==> IsDomainChar(t[k])
    ensures forall k :: d < k < |t| ==> IsLetter(t[k])
  {
    at, d :| 0 < at && at + 1 < d < |t| - 2 && t[at] == '@' && t[d] == '.' &&
      AllChars(t[..at], IsLocalChar) && AllChars(t[at + 1..], IsDomainChar) &&
      AllChars(t[d + 1..], IsLetter);
    forall k | 0 <= k < at ensures IsLocalChar(t[k]) { assert t[k] == t[..at][k]; }
    forall k | at < k < |t| ensures IsDomainChar(t[k]) { assert t[k] == t[at + 1..][k - at - 1]; }
    forall k | d < k < |t| ensures IsLetter(t[k]) { assert t[k] == t[d + 1..][k - d - 1]; }
  }

  /** Where the @ and the last dot of an e-mail-shaped text `e` sit, once `e` is found at `p`. */
  lemma ShapedParts(s: string, p: nat, e: string) returns (at: nat, d: nat)
    requires p + |e| <= |s| && s[p..p + |e|] == e && EmailShaped(e)
    ensures p < at && at + 1 < d && d + 2 < p + |e| && s[at] == '@' && s[d] == '.'
    ensures forall k :: p <= k < at ==> IsLocalChar(s[k])
    ensures forall k :: at + 1 <= k < p + |e| ==> IsDomainChar(s[k])
    ensures forall k :: d < k < p + |e| ==> IsLetter(s[k])
  {
    var at', d' := ShapedWitness(e);
    at, d := p + at', p + d';
    assert s[at] == e[at'] && s[d] == e[d'];
    CharsAt(s, p, e, 0, at', IsLocalChar);
    CharsAt(s, p, e, at' + 1, |e|, IsDomainChar);
    CharsAt(s, p, e, d' + 1, |e|, IsLetter);
  }

  /** The characters of `e`, found at `p` in `s`, from `lo` to `hi`, as characters of `s`. */
  lemma CharsAt(s: string, p: nat, e: string, lo: nat, hi: nat, q: char -> bool)
    requires p + |e| <= |s| && s[p..p + |e|] == e && lo <= hi <= |e|
    requires forall k :: lo <= k < hi ==> q(e[k])
    ensures forall k :: p + lo <= k < p + hi ==> q(s[k])
  {
    forall k | p + lo <= k < p + hi ensures q(s[k]) { assert s[k] == e[k - p]; }
  }

  /**
   * A local part up to `at`, an @, domain characters up to `q` with the last dot
   * at `d` and only letters after it, and then a line break or the end of the
   * input: the scanner matches exactly that text.
   */
  lemma EmailAtParts(s: string, p: nat, q: nat, at: nat, d: nat)
    requires p < at && at + 1 < d && d + 2 < q <= |s| && s[at] == '@' && s[d] == '.'
    requires forall k :: p <= k < at ==> IsLocalChar(s[k])
    requires forall k :: at + 1 <= k < q ==> IsDomainChar(s[k])
    requires forall k :: d < k < q ==> IsLetter(s[k])
    requires q == |s| || s[q] == '\n'
    ensures EmailAt(s, p) == Some(q)
  {
    RunEndAt(s, p, at, IsLocalChar);
    RunEndAt(s, at + 1, q, IsDomainChar);
    TldDotAt(s, at + 1, q, d);
    RunEndAt(s, d + 1, q, IsLetter);
  }

  /**
   * An e-mail-shaped text followed by a line break or the end of the input is
   * matched whole from its first character.
   */
  lemma EmailWhole(s: string, p: nat, e: string)
    requires p + |e| <= |s| && s[p..p + |e|] == e && EmailShaped(e)
    requires p + |e| == |s| || s[p + |e|] == '\n'
    ensures EmailAt(s, p) == Some(p + |e|)
  {
    var at, d := ShapedParts(s, p, e);
    EmailAtParts(s, p, p + |e|, at, d);
  }

  /** The first part of a line-break join, and the join of the rest after its line break. */
  lemma JoinHead(s: string, p: nat, parts: seq<string>)
    requires |parts| > 1 && p <= |s| && s[p..] == Join(parts, '\n')
    ensures p + |parts[0]| < |s| && s[p..p + |parts[0]|] == parts[0] && s[p + |parts[0]|] == '\n'
    ensures s[p + |parts[0]| + 1..] == Join(parts[1..], '\n')
  {
    var e := parts[0];
    assert s[p..] == e + ['\n'] + Join(parts[1..], '\n');
    assert s[p..p + |e|] == s[p..][..|e|];
    assert s[p + |e|] == s[p..][|e|];
    assert s[p + |e| + 1..] == s[p..][|e| + 1..];
  }

  /** The scan of a text that is one part: that part, unless it is "". */
  lemma MatchesLast(s: string, p: nat, e: string)
    requires p <= |s| && s[p..] == e && (e == "" || EmailShaped(e))
    ensures Matches(s, p) == NonEmpty([e])
  {
    NonEmptyOne(e);
    if e == "" {
      assert p == |s|;
    } else {
      assert s[p..p + |e|] == e;
      EmailWhole(s, p, e);
      MatchesAtMatch(s, p, |s|);
      assert s[p..|s|] == e;
    }
  }

  /**
   * The scan from `p` when `e` lies there and is followed by a line break, and
   * `e` is "" or the scanner matches exactly `e`: `e` if it is not "", then the
   * scan after the break.
   */
  lemma MatchesBreak(s: string, p: nat, e: string)
    requires p + |e| < |s| && s[p..p + |e|] == e && s[p + |e|] == '\n'
    requires e == "" || EmailAt(s, p) == Some(p + |e|)
    ensures Matches(s, p) == NonEmpty([e]) + Matches(s, p + |e| + 1)
  {
    NonEmptyOne(e);
    if e == "" {
      MatchesAtBreak(s, p);
    } else {
      MatchesAtMatch(s, p, p + |e|);
      MatchesAtBreak(s, p + |e|);
    }
  }

  /** No match starts at a line break: the scan goes on after it. */
  lemma MatchesAtBreak(s: string, q: nat)
    requires q < |s| && s[q] == '\n'
    ensures Matches(s, q) == Matches(s, q + 1)
  {
    assert RunEnd(s, q, IsLocalChar) == q;
  }

  /** A match from `p` to `q` is the first value of the scan from `p`, and the scan goes on at `q`. */
  lemma MatchesAtMatch(s: string, p: nat, q: nat)
    requires p <= |s| && EmailAt(s, p) == Some(q)
    ensures Matches(s, p) == [s[p..q]] + Matches(s, q)
  {
  }

  /** A single value with "" dropped. */
  lemma NonEmptyOne(e: string)
    ensures NonEmpty([e]) == if e == "" then [] else [e]
  {
    assert [e][1..] == [];
  }

  /** A part followed by a line break is scanned as that part, unless it is "", and then the rest after the break. */
  lemma PartScan(s: string, p: nat, e: string)
    requires p + |e| < |s| && s[p..p + |e|] == e && s[p + |e|] == '\n' && (e == "" || EmailShaped(e))
    ensures Matches(s, p) == NonEmpty([e]) + Matches(s, p + |e| + 1)
  {
    if e != "" {
      EmailWhole(s, p, e);
    }
    MatchesBreak(s, p, e);
  }

  /**
   * The parts laid out in `s` from `p` on, each but the last followed by a line
   * break: what `s[p..] == Join(parts, '\n')` says, one part at a time.
   */
  predicate LaidOut(s: string, p: nat, parts: seq<string>)
    requires p <= |s|
    decreases |parts|
  {
    if |parts| == 0 then true
    else if |parts| == 1 then s[p..] == parts[0]
    else
      p + |parts[0]| < |s| && s[p..p + |parts[0]|] == parts[0] && s[p + |parts[0]|] == '\n' &&
      LaidOut(s, p + |parts[0]| + 1, parts[1..])
  }

  /** Text that is the join of the parts is the parts laid out one after another. */
  lemma {:induction false} JoinLaidOut(s: string, p: nat, parts: seq<string>)
    requires |parts| >= 1 && p <= |s| && s[p..] == Join(parts, '\n')
    ensures LaidOut(s, p, parts)
    decreases |parts|
  {
    if |parts| > 1 {
      JoinHead(s, p, parts);
      JoinLaidOut(s, p + |parts[0]| + 1, parts[1..]);
    }
  }

  /**
   * Parts that are each "" or e-mail shaped, joined with line breaks, are scanned
   * back as the non-empty parts, in order.
   */
  lemma {:induction false} MatchesJoined(s: string, p: nat, parts: seq<string>)
    requires |parts| >= 1 && p <= |s| && LaidOut(s, p, parts) && ShapedOrEmpty(parts)
    ensures Matches(s, p) == NonEmpty(parts)
    decreases |parts|
  {
    var e := parts[0];
    if |parts| == 1 {
      MatchesLast(s, p, e);
      assert parts == [e];
    } else {
      MatchesJoined(s, p + |e| + 1, parts[1..]);
      PartScan(s, p, e);
      NonEmptySplit(parts);
    }
  }

  /** Dropping "" from a list is dropping it from its first value and from the rest. */
  lemma NonEmptySplit(xs: seq<string>)
    requires |xs| > 0
    ensures NonEmpty(xs) == NonEmpty([xs[0]]) + NonEmpty(xs[1..])
  {
    assert [xs[0]][1..] == [];
  }

  /** Every part is "" or e-mail shaped. */
  predicate ShapedOrEmpty(parts: seq<string>) {
    |parts| == 0 || ((parts[0] == "" || EmailShaped(parts[0])) && ShapedOrEmpty(parts[1..]))
  }

  /** The slots of a harvest without "" in it, "" dropped again, are its first four values. */
  lemma NonEmptySlots(emails: seq<string>)
    requires forall e <- emails :: e != ""
    ensures NonEmpty(Slots(emails)) == emails[..if |emails| < 4 then |emails| else 4]
  {
    var sl := Slots(emails);
    assert sl[1..] == [sl[1], sl[2], sl[3]];
    assert sl[1..][1..] == [sl[2], sl[3]];
    assert sl[1..][1..][1..] == [sl[3]];
    assert sl[1..][1..][1..][1..] == [];
    if |emails| > 0 { assert emails[0] in emails; }
    if |emails| > 1 { assert emails[1] in emails; }
    if |emails| > 2 { assert emails[2] in emails; }
    if |emails| > 3 {
      assert emails[3] in emails;
      assert NonEmpty(sl[1..][1..][1..]) == [sl[3]];
      assert NonEmpty(sl[1..][1..]) == [sl[2], sl[3]];
      assert NonEmpty(sl[1..]) == [sl[1], sl[2], sl[3]];
      assert emails[..4] == [emails[0], emails[1], emails[2], emails[3]];
    }
  }

  /**
   * The four slots filled from a harvest, joined with line breaks as the owner
   * cells are, are harvested back as the same addresses: the first four, and so
   * the same four slots.
   */
  lemma ReharvestSlots(ownerText: string)
    ensures var emails := ExtractOwnerEmails(ownerText);
      var n := if |emails| < 4 then |emails| else 4;
      ExtractOwnerEmails(Join(Slots(emails), '\n')) == emails[..n] &&
      Slots(ExtractOwnerEmails(Join(Slots(emails), '\n'))) == Slots(emails)
  {
    var emails := ExtractOwnerEmails(ownerText);
    var n := if |emails| < 4 then |emails| else 4;
    var joined := Join(Slots(emails), '\n');
    forall e <- emails ensures e != "" && EmailShaped(e) {
      assert EmailShaped(e);
      var at, d :| 0 < at && at + 1 < d < |e| - 2 && e[at] == '@' && e[d] == '.' &&
        AllChars(e[..at], IsLocalChar) && AllChars(e[at + 1..], IsDomainChar) &&
        AllChars(e[d + 1..], IsLetter);
    }
    var sl := Slots(emails);
    assert sl[1..] == [sl[1], sl[2], sl[3]] && sl[1..][1..] == [sl[2], sl[3]];
    assert sl[1..][1..][1..] == [sl[3]] && sl[1..][1..][1..][1..] == [];
    assert ShapedOrEmpty(sl[1..][1..]);
    assert ShapedOrEmpty(sl);
    assert joined[0..] == joined;
    JoinLaidOut(joined, 0, Slots(emails));
    MatchesJoined(joined, 0, Slots(emails));
    NonEmptySlots(emails);
    ExtractOwnerEmailsSpec(ownerText);
    assert NoDuplicates(emails[..n]);
    DistinctOfDistinct(emails[..n]);
  }
}
