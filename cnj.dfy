/**
 * Normalisation of Brazilian judicial process numbers (CNJ / NPU).
 *
 * A process number has the canonical shape NNNNNNN-DD.AAAA.J.TR.OOOO:
 * 20 decimal digits split 7-2-4-1-2-4 by one dash and four dots.
 * `Normalize` turns free-form text into that shape, or into "" when it
 * cannot. It first looks for a substring that already has the canonical
 * shape; failing that, it deletes every non-digit and accepts what is
 * left when it is a lone run of exactly 20 digits.
 *
 * Character classes are ASCII only: a digit is '0'..'9', a word
 * character is an ASCII letter, digit or underscore.
 */
module Cnj {
  import opened Wrappers

  /** The regex class \d, restricted to ASCII. */
  predicate IsDigit(c: char) {
    '0' <= c <= '9'
  }

  /** The regex class \w, restricted to ASCII; it decides where \b falls. */
  predicate IsWordChar(c: char) {
    IsDigit(c) || 'a' <= c <= 'z' || 'A' <= c <= 'Z' || c == '_'
  }

  predicate AllDigits(s: string) {
    forall i :: 0 <= i < |s| ==> IsDigit(s[i])
  }

  /** Length of NNNNNNN-DD.AAAA.J.TR.OOOO. */
  const CanonicalLength: nat := 25

  /** Number of digits in a process number. */
  const NumberDigits: nat := 20

  // ---------------------------------------------------------------------
  // The punctuated pattern: 7 digits, '-', 2 digits, '.', 4 digits, '.',
  // 1 digit, '.', 2 digits, '.', 4 digits
  // ---------------------------------------------------------------------

  /** What the punctuated pattern demands at one position. */
  datatype Slot = Digit | Dash | Dot

  /** The slot at position `i` of the canonical shape. */
  function SlotAt(i: nat): Slot {
    if i == 7 then Dash
    else if i == 10 || i == 15 || i == 17 || i == 20 then Dot
    else Digit
  }

  predicate Fits(c: char, slot: Slot) {
    match slot
    case Digit => IsDigit(c)
    case Dash => c == '-'
    case Dot => c == '.'
  }

  /** `s` is, in full, a process number in canonical shape. */
  predicate IsCanonical(s: string) {
    |s| == CanonicalLength && forall i :: 0 <= i < |s| ==> Fits(s[i], SlotAt(i))
  }

  /**
   * The slot layout spelled out: 25 characters, the dash at index 7,
   * dots at 10, 15, 17 and 20, and a digit everywhere else.
   */
  lemma CanonicalShape(s: string)
    requires |s| == CanonicalLength
    ensures IsCanonical(s) <==>
      s[7] == '-' && s[10] == '.' && s[15] == '.' && s[17] == '.' && s[20] == '.'
      && forall i :: 0 <= i < |s| && i !in {7, 10, 15, 17, 20} ==> IsDigit(s[i])
  {
    if IsCanonical(s) {
      assert Fits(s[7], SlotAt(7)) && Fits(s[10], SlotAt(10)) && Fits(s[15], SlotAt(15));
      assert Fits(s[17], SlotAt(17)) && Fits(s[20], SlotAt(20));
      forall i | 0 <= i < |s| && i !in {7, 10, 15, 17, 20}
        ensures IsDigit(s[i])
      {
        assert Fits(s[i], SlotAt(i));
      }
    }
  }

  /** The punctuated pattern matches `s` starting at index `k`. */
  predicate PunctMatchAt(s: string, k: nat) {
    k + CanonicalLength <= |s| && IsCanonical(s[k..k + CanonicalLength])
  }

  /**
   * Leftmost start index, at or after `from`, where the punctuated
   * pattern matches (what a regex search reports: the pattern has a
   * fixed length, so a match at an index is unique).
   */
  function SearchPunct(s: string, from: nat): (r: Option<nat>)
    ensures r.Some? ==> from <= r.value && PunctMatchAt(s, r.value)
    ensures r.Some? ==> forall j :: from <= j < r.value ==> !PunctMatchAt(s, j)
    ensures r.None? ==> forall j :: from <= j ==> !PunctMatchAt(s, j)
    decreases |s| - from
  {
    if from + CanonicalLength > |s| then None
    else if PunctMatchAt(s, from) then Some(from)
    else SearchPunct(s, from + 1)
  }

  // ---------------------------------------------------------------------
  // Deleting the non-digits
  // ---------------------------------------------------------------------

  /**
   * `s` with every non-digit removed. Removing maximal runs of
   * non-digits, as the substitution does, removes exactly the same
   * characters, so the model removes them one at a time.
   */
  function StripNonDigits(s: string): (r: string)
    ensures |r| <= |s|
  {
    if s == [] then []
    else if IsDigit(s[|s| - 1]) then StripNonDigits(s[..|s| - 1]) + [s[|s| - 1]]
    else StripNonDigits(s[..|s| - 1])
  }

  /** Only digits are left. */
  lemma {:induction false} StripLeavesDigits(s: string)
    ensures AllDigits(StripNonDigits(s))
  {
    if s != [] {
      StripLeavesDigits(s[..|s| - 1]);
    }
  }

  /** A string without digits is deleted entirely. */
  lemma {:induction false} StripNoDigits(s: string)
    requires forall i :: 0 <= i < |s| ==> !IsDigit(s[i])
    ensures StripNonDigits(s) == []
  {
    if s != [] {
      StripNoDigits(s[..|s| - 1]);
    }
  }

  /** Every digit of `s` is kept, as often as it occurs, and nothing else is. */
  lemma {:induction false} StripKeepsExactlyTheDigits(s: string, c: char)
    ensures multiset(StripNonDigits(s))[c] == if IsDigit(c) then multiset(s)[c] else 0
  {
    if s != [] {
      StripKeepsExactlyTheDigits(s[..|s| - 1], c);
      assert s == s[..|s| - 1] + [s[|s| - 1]];
    }
  }

  /** Stripping keeps the order of the digits: it distributes over concatenation. */
  lemma {:induction false} StripConcat(a: string, b: string)
    ensures StripNonDigits(a + b) == StripNonDigits(a) + StripNonDigits(b)
  {
    if b == [] {
      assert a + b == a;
    } else {
      assert (a + b)[..|a + b| - 1] == a + b[..|b| - 1];
      StripConcat(a, b[..|b| - 1]);
    }
  }

  /** A string of digits only is left as it is. */
  lemma {:induction false} StripAllDigits(s: string)
    requires AllDigits(s)
    ensures StripNonDigits(s) == s
  {
    if s != [] {
      StripAllDigits(s[..|s| - 1]);
    }
  }

  // ---------------------------------------------------------------------
  // The raw-digit pattern: 20 digits with a word boundary on each side
  // ---------------------------------------------------------------------

  /** \b holds at index `i` of `t`: exactly one side of `i` is a word character. */
  predicate IsWordBoundary(t: string, i: nat)
    requires i <= |t|
  {
    (i > 0 && IsWordChar(t[i - 1])) != (i < |t| && IsWordChar(t[i]))
  }

  /** In a non-empty string of digits, \b holds at its two ends and nowhere else. */
  lemma WordBoundaryInDigits(t: string, i: nat)
    requires AllDigits(t) && t != [] && i <= |t|
    ensures IsWordBoundary(t, i) <==> i == 0 || i == |t|
  {
    if 0 < i < |t| {
      assert IsWordChar(t[i - 1]) && IsWordChar(t[i]);
    } else if i == 0 {
      assert IsWordChar(t[0]);
    } else {
      assert IsWordChar(t[i - 1]);
    }
  }

  /** The raw-digit pattern matches `t` starting at index `k`. */
  predicate Digits20At(t: string, k: nat) {
    k + NumberDigits <= |t|
    && AllDigits(t[k..k + NumberDigits])
    && IsWordBoundary(t, k)
    && IsWordBoundary(t, k + NumberDigits)
  }

  /** Leftmost start index, at or after `from`, where the raw-digit pattern matches. */
  function SearchDigits20(t: string, from: nat): (r: Option<nat>)
    ensures r.Some? ==> from <= r.value && Digits20At(t, r.value)
    ensures r.Some? ==> forall j :: from <= j < r.value ==> !Digits20At(t, j)
    ensures r.None? ==> forall j :: from <= j ==> !Digits20At(t, j)
    decreases |t| - from
  {
    if from + NumberDigits > |t| then None
    else if Digits20At(t, from) then Some(from)
    else SearchDigits20(t, from + 1)
  }

  /**
   * On a string of digits only, no \b can fall strictly inside, so the
   * raw-digit pattern matches exactly when the whole string is 20 digits,
   * and then at index 0.
   */
  lemma DigitsOnlySearch(t: string)
    requires AllDigits(t)
    ensures SearchDigits20(t, 0) == if |t| == NumberDigits then Some(0) else None
  {
    if |t| == NumberDigits {
      assert t[0..NumberDigits] == t;
      assert Digits20At(t, 0);
    } else {
      forall k: nat | Digits20At(t, k)
        ensures false
      {
        if k > 0 {
          assert IsWordChar(t[k - 1]) && IsWordChar(t[k]);
        }
      }
    }
  }

  // ---------------------------------------------------------------------
  // Re-punctuation of 20 digits
  // ---------------------------------------------------------------------

  /** Cuts 20 digits at offsets 7/9/13/14/16 and joins them as NNNNNNN-DD.AAAA.J.TR.OOOO. */
  function Punctuate(d: string): (r: string)
    requires |d| == NumberDigits
    ensures |r| == CanonicalLength
    ensures AllDigits(d) ==> IsCanonical(r) && StripNonDigits(r) == d
  {
    PunctuateLayout(d);
    d[..7] + ['-'] + d[7..9] + ['.'] + d[9..13] + ['.'] + d[13..14] + ['.'] + d[14..16] + ['.'] + d[16..20]
  }

  /** The concatenation in `Punctuate`, on 20 digits, is canonical and keeps the digits. */
  lemma PunctuateLayout(d: string)
    requires |d| == NumberDigits
    ensures var r := d[..7] + ['-'] + d[7..9] + ['.'] + d[9..13] + ['.'] + d[13..14] + ['.'] + d[14..16] + ['.'] + d[16..20];
      AllDigits(d) ==> IsCanonical(r) && StripNonDigits(r) == d
  {
    if AllDigits(d) {
      var p1, p2, p3, p4, p5, p6 := d[..7], d[7..9], d[9..13], d[13..14], d[14..16], d[16..20];
      FieldsAreDigits(d);
      PunctuateLayoutShape(p1, p2, p3, p4, p5, p6);
      PunctuateLayoutDigits(p1, p2, p3, p4, p5, p6);
      FieldsRejoin(d);
    }
  }

  /** Every character of `s` fits the slot `offset` positions into the canonical shape. */
  predicate FitsFrom(s: string, offset: nat) {
    forall i :: 0 <= i < |s| ==> Fits(s[i], SlotAt(offset + i))
  }

  lemma FitsFromConcat(a: string, b: string, offset: nat)
    requires FitsFrom(a, offset) && FitsFrom(b, offset + |a|)
    ensures FitsFrom(a + b, offset)
  {
    forall i | 0 <= i < |a + b|
      ensures Fits((a + b)[i], SlotAt(offset + i))
    {
      if i >= |a| {
        assert (a + b)[i] == b[i - |a|];
        assert offset + i == offset + |a| + (i - |a|);
      }
    }
  }

  lemma DigitsFit(p: string, offset: nat)
    requires AllDigits(p)
    requires forall i :: offset <= i < offset + |p| ==> SlotAt(i) == Digit
    ensures FitsFrom(p, offset)
  {
    forall i | 0 <= i < |p|
      ensures Fits(p[i], SlotAt(offset + i))
    {
      assert SlotAt(offset + i) == Digit;
    }
  }

  /** The concatenation in `Punctuate` has the canonical shape. */
  lemma PunctuateLayoutShape(p1: string, p2: string, p3: string, p4: string, p5: string, p6: string)
    requires |p1| == 7 && |p2| == 2 && |p3| == 4 && |p4| == 1 && |p5| == 2 && |p6| == 4
    requires AllDigits(p1) && AllDigits(p2) && AllDigits(p3)
    requires AllDigits(p4) && AllDigits(p5) && AllDigits(p6)
    ensures IsCanonical(p1 + ['-'] + p2 + ['.'] + p3 + ['.'] + p4 + ['.'] + p5 + ['.'] + p6)
  {
    DigitsFit(p1, 0); DigitsFit(p2, 8); DigitsFit(p3, 11);
    DigitsFit(p4, 16); DigitsFit(p5, 18); DigitsFit(p6, 21);
    assert FitsFrom(['-'], 7) && FitsFrom(['.'], 10) && FitsFrom(['.'], 15);
    assert FitsFrom(['.'], 17) && FitsFrom(['.'], 20);
    FitsFromConcat(p1, ['-'], 0);
    FitsFromConcat(p1 + ['-'], p2, 0);
    FitsFromConcat(p1 + ['-'] + p2, ['.'], 0);
    FitsFromConcat(p1 + ['-'] + p2 + ['.'], p3, 0);
    FitsFromConcat(p1 + ['-'] + p2 + ['.'] + p3, ['.'], 0);
    FitsFromConcat(p1 + ['-'] + p2 + ['.'] + p3 + ['.'], p4, 0);
    FitsFromConcat(p1 + ['-'] + p2 + ['.'] + p3 + ['.'] + p4, ['.'], 0);
    FitsFromConcat(p1 + ['-'] + p2 + ['.'] + p3 + ['.'] + p4 + ['.'], p5, 0);
    FitsFromConcat(p1 + ['-'] + p2 + ['.'] + p3 + ['.'] + p4 + ['.'] + p5, ['.'], 0);
    FitsFromConcat(p1 + ['-'] + p2 + ['.'] + p3 + ['.'] + p4 + ['.'] + p5 + ['.'], p6, 0);
  }

  /** Deleting the separators of the concatenation in `Punctuate` leaves the six fields, joined. */
  lemma PunctuateLayoutDigits(p1: string, p2: string, p3: string, p4: string, p5: string, p6: string)
    requires |p1| == 7 && |p2| == 2 && |p3| == 4 && |p4| == 1 && |p5| == 2 && |p6| == 4
    requires AllDigits(p1) && AllDigits(p2) && AllDigits(p3)
    requires AllDigits(p4) && AllDigits(p5) && AllDigits(p6)
    ensures StripNonDigits(p1 + ['-'] + p2 + ['.'] + p3 + ['.'] + p4 + ['.'] + p5 + ['.'] + p6)
         == p1 + p2 + p3 + p4 + p5 + p6
  {
    StripAllDigits(p1); StripAllDigits(p2); StripAllDigits(p3);
    StripAllDigits(p4); StripAllDigits(p5); StripAllDigits(p6);
    StripSeparator(p1, '-');
    StripConcat(p1 + ['-'], p2);
    StripSeparator(p1 + ['-'] + p2, '.');
    StripConcat(p1 + ['-'] + p2 + ['.'], p3);
    StripSeparator(p1 + ['-'] + p2 + ['.'] + p3, '.');
    StripConcat(p1 + ['-'] + p2 + ['.'] + p3 + ['.'], p4);
    StripSeparator(p1 + ['-'] + p2 + ['.'] + p3 + ['.'] + p4, '.');
    StripConcat(p1 + ['-'] + p2 + ['.'] + p3 + ['.'] + p4 + ['.'], p5);
    StripSeparator(p1 + ['-'] + p2 + ['.'] + p3 + ['.'] + p4 + ['.'] + p5, '.');
    StripConcat(p1 + ['-'] + p2 + ['.'] + p3 + ['.'] + p4 + ['.'] + p5 + ['.'], p6);
  }

  /** Appending a non-digit changes nothing once the non-digits are deleted. */
  lemma StripSeparator(s: string, c: char)
    requires !IsDigit(c)
    ensures StripNonDigits(s + [c]) == StripNonDigits(s)
  {
    assert (s + [c])[..|s|] == s;
  }

  /** Cutting 20 characters at offsets 7/9/13/14/16 and joining the pieces gives them back. */
  lemma FieldsRejoin(d: string)
    requires |d| == NumberDigits
    ensures d[..7] + d[7..9] + d[9..13] + d[13..14] + d[14..16] + d[16..20] == d
  {
  }

  /** Each field of `d` is digits only when `d` is. */
  lemma FieldsAreDigits(d: string)
    requires |d| == NumberDigits && AllDigits(d)
    ensures AllDigits(d[..7]) && AllDigits(d[7..9]) && AllDigits(d[9..13])
    ensures AllDigits(d[13..14]) && AllDigits(d[14..16]) && AllDigits(d[16..20])
  {
  }

  /** The six fields of `Punctuate(d)` are the slices of `d` at 7/9/13/14/16/20. */
  lemma PunctuateFields(d: string)
    requires |d| == NumberDigits
    ensures Punctuate(d)[..7] == d[..7]
    ensures Punctuate(d)[8..10] == d[7..9]
    ensures Punctuate(d)[11..15] == d[9..13]
    ensures Punctuate(d)[16..17] == d[13..14]
    ensures Punctuate(d)[18..20] == d[14..16]
    ensures Punctuate(d)[21..25] == d[16..20]
  {
  }

  /** A canonical string is its six digit fields joined by the separators. */
  lemma CanonicalSplit(c: string)
    requires IsCanonical(c)
    ensures AllDigits(c[..7]) && AllDigits(c[8..10]) && AllDigits(c[11..15])
    ensures AllDigits(c[16..17]) && AllDigits(c[18..20]) && AllDigits(c[21..25])
    ensures c == c[..7] + ['-'] + c[8..10] + ['.'] + c[11..15] + ['.'] + c[16..17] + ['.'] + c[18..20] + ['.'] + c[21..25]
  {
    forall i | 0 <= i < |c| && SlotAt(i) == Digit
      ensures IsDigit(c[i])
    {
      assert Fits(c[i], SlotAt(i));
    }
    assert Fits(c[7], SlotAt(7)) && Fits(c[10], SlotAt(10)) && Fits(c[15], SlotAt(15));
    assert Fits(c[17], SlotAt(17)) && Fits(c[20], SlotAt(20));
  }

  /** Deleting the separators of a canonical string leaves its six fields, in order. */
  lemma CanonicalDigits(c: string)
    requires IsCanonical(c)
    ensures StripNonDigits(c) == c[..7] + c[8..10] + c[11..15] + c[16..17] + c[18..20] + c[21..25]
  {
    CanonicalSplit(c);
    PunctuateLayoutDigits(c[..7], c[8..10], c[11..15], c[16..17], c[18..20], c[21..25]);
  }

  /** A canonical string is the punctuation of its own digits. */
  lemma CanonicalIsPunctuated(c: string)
    requires IsCanonical(c)
    ensures |StripNonDigits(c)| == NumberDigits
    ensures Punctuate(StripNonDigits(c)) == c
  {
    CanonicalSplit(c);
    CanonicalDigits(c);
    var p1, p2, p3, p4, p5, p6 := c[..7], c[8..10], c[11..15], c[16..17], c[18..20], c[21..25];
    var d := p1 + p2 + p3 + p4 + p5 + p6;
    assert d[..7] == p1 && d[7..9] == p2 && d[9..13] == p3;
    assert d[13..14] == p4 && d[14..16] == p5 && d[16..20] == p6;
  }

  // ---------------------------------------------------------------------
  // normalize_cnj
  // ---------------------------------------------------------------------

  /**
   * The canonical process number found in `raw`, or "" when there is none:
   * the leftmost punctuated match returned verbatim, else the 20 digits
   * left after deleting every non-digit, re-punctuated.
   */
  function Normalize(raw: string): (r: string)
    ensures raw == "" ==> r == ""
    ensures r == "" || IsCanonical(r)
  {
    if raw == "" then ""
    else match SearchPunct(raw, 0)
      case Some(k) => raw[k..k + CanonicalLength]
      case None =>
        var t := StripNonDigits(raw);
        StripLeavesDigits(raw);
        match SearchDigits20(t, 0)
        case Some(k) => Punctuate(t[k..k + NumberDigits])
        case None => ""
  }

  /**
   * When `raw` holds a punctuated match, the result is the leftmost one,
   * verbatim. Nothing is checked around it, so it may sit inside a longer
   * run of digits.
   */
  lemma NormalizeLeftmostPunctuated(raw: string, k: nat)
    requires PunctMatchAt(raw, k)
    requires forall j :: 0 <= j < k ==> !PunctMatchAt(raw, j)
    ensures Normalize(raw) == raw[k..k + CanonicalLength]
  {
    assert SearchPunct(raw, 0) == Some(k);
  }

  /**
   * Without a punctuated match, the result is non-empty exactly when the
   * input holds 20 digit characters in total, wherever they stand; it is
   * then those digits, in order, cut 7-2-4-1-2-4.
   */
  lemma NormalizeRawDigits(raw: string)
    requires forall j :: 0 <= j ==> !PunctMatchAt(raw, j)
    ensures Normalize(raw) != "" <==> |StripNonDigits(raw)| == NumberDigits
    ensures Normalize(raw) != "" ==> Normalize(raw) == Punctuate(StripNonDigits(raw))
    ensures Normalize(raw) != "" ==> StripNonDigits(Normalize(raw)) == StripNonDigits(raw)
  {
    var t := StripNonDigits(raw);
    StripLeavesDigits(raw);
    DigitsOnlySearch(t);
    if raw != "" {
      assert SearchPunct(raw, 0).None?;
      if |t| == NumberDigits {
        assert t[0..NumberDigits] == t;
      }
    }
  }

  /** Text without a single digit normalises to "": neither pattern can match it. */
  lemma NoDigitsGiveEmpty(raw: string)
    requires forall i :: 0 <= i < |raw| ==> !IsDigit(raw[i])
    ensures Normalize(raw) == ""
  {
    forall k: nat | k + CanonicalLength <= |raw|
      ensures !PunctMatchAt(raw, k)
    {
      assert raw[k..k + CanonicalLength][0] == raw[k];
      assert !Fits(raw[k], SlotAt(0));
    }
    StripNoDigits(raw);
    NormalizeRawDigits(raw);
  }

  /** A canonical number normalises to itself. */
  lemma CanonicalIsFixedPoint(c: string)
    requires IsCanonical(c)
    ensures Normalize(c) == c
  {
    assert c[0..CanonicalLength] == c;
    NormalizeLeftmostPunctuated(c, 0);
  }

  /** Normalising twice is normalising once. */
  lemma NormalizeIdempotent(raw: string)
    ensures Normalize(Normalize(raw)) == Normalize(raw)
  {
    if Normalize(raw) != "" {
      CanonicalIsFixedPoint(Normalize(raw));
    }
  }

  // ---------------------------------------------------------------------
  // Worked cases. Each takes its input through `requires s == ...`, so
  // the verifier does not unfold `Normalize` on a literal argument.
  // ---------------------------------------------------------------------

  lemma EmptyInputFails(s: string)
    requires s == ""
    ensures Normalize(s) == ""
  {
  }

  /** With eight digits before the dash, the match starts at index 1. */
  lemma EightLeadingDigitsExample(s: string)
    requires s == "10001234-56.2020.8.26.0100"
    ensures Normalize(s) == "0001234-56.2020.8.26.0100"
  {
    var c := "0001234-56.2020.8.26.0100";
    assert IsCanonical(c);
    assert s == "1" + c;
    assert s[1..1 + CanonicalLength] == c;
    assert s[0..CanonicalLength][7] == '4';
    assert !Fits(s[0..CanonicalLength][7], SlotAt(7));
    NormalizeLeftmostPunctuated(s, 1);
  }

  lemma CanonicalExample(s: string)
    requires s == "0001234-56.2020.8.26.0100"
    ensures Normalize(s) == "0001234-56.2020.8.26.0100"
  {
    assert IsCanonical(s);
    CanonicalIsFixedPoint(s);
  }

  lemma TwentyRawDigitsExample(s: string)
    requires s == "00012345620208260100"
    ensures Normalize(s) == "0001234-56.2020.8.26.0100"
  {
    var c := "0001234-56.2020.8.26.0100";
    assert IsCanonical(c);
    CanonicalIsPunctuated(c);
    CanonicalDigits(c);
    assert c[..7] == "0001234";
    assert c[8..10] == "56";
    assert c[11..15] == "2020";
    assert c[16..17] == "8";
    assert c[18..20] == "26";
    assert c[21..25] == "0100";
    assert StripNonDigits(c) == s;
    StripLeavesDigits(c);
    StripAllDigits(s);
    NormalizeRawDigits(s);
  }

  lemma TwentyOneDigitsFail(s: string)
    requires s == "123456789012345678901"
    ensures Normalize(s) == ""
  {
    StripAllDigits(s);
    NormalizeRawDigits(s);
  }

  lemma NineteenDigitsFail(s: string)
    requires s == "1234567890123456789"
    ensures Normalize(s) == ""
  {
    StripAllDigits(s);
    NormalizeRawDigits(s);
  }

  lemma NoDigitsFail(s: string)
    requires s == "abc not a number"
    ensures Normalize(s) == ""
  {
    NoDigitsGiveEmpty(s);
  }
}
