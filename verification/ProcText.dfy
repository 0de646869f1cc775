/**
  The text operations the memory-map parsers lean on: words, trimming, splitting at a character
  and reading an unsigned 64-bit number. A line is a sequence of Unicode characters.
*/
module ProcText {
  import opened Words

  predicate IsWhite(c: char) {
    '\t' <= c <= '\r' || c == ' ' || c == '\U{85}' || c == '\U{A0}' || c == '\U{1680}' ||
    '\U{2000}' <= c <= '\U{200A}' || c == '\U{2028}' || c == '\U{2029}' || c == '\U{202F}' ||
    c == '\U{205F}' || c == '\U{3000}'
  }

  /** The length of the longest start of `s` without white space. */
  function WordLength(s: string): (n: nat)
    ensures n <= |s| && (forall k :: 0 <= k < n ==> !IsWhite(s[k])) && (n < |s| ==> IsWhite(s[n]))
  {
    if s == [] || IsWhite(s[0]) then 0 else 1 + WordLength(s[1..])
  }

  /** The maximal runs of characters that are not white space, in order. */
  function SplitWords(s: string): (ws: seq<string>)
    decreases |s|
  {
    if s == [] then []
    else if IsWhite(s[0]) then SplitWords(s[1..])
    else [s[..WordLength(s)]] + SplitWords(s[WordLength(s)..])
  }

  function TrimStart(s: string): string {
    if s != [] && IsWhite(s[0]) then TrimStart(s[1..]) else s
  }

  function TrimEnd(s: string): string {
    if s != [] && IsWhite(s[|s| - 1]) then TrimEnd(s[..|s| - 1]) else s
  }

  function Trim(s: string): string {
    TrimEnd(TrimStart(s))
  }

  /** The pieces between occurrences of `c`; always at least one. */
  function SplitAt(s: string, c: char): (parts: seq<string>)
    ensures parts != []
  {
    if s == [] then [""]
    else if s[0] == c then [""] + SplitAt(s[1..], c)
    else var rest := SplitAt(s[1..], c); [[s[0]] + rest[0]] + rest[1..]
  }

  function Join(parts: seq<string>): string {
    if parts == [] then "" else if |parts| == 1 then parts[0] else parts[0] + " " + Join(parts[1..])
  }

  // ----- numbers -------------------------------------------------------------------------

  /** The value of a digit; 16 when the character is none. */
  function Digit(c: char): (d: nat) {
    if '0' <= c <= '9' then c as nat - '0' as nat
    else if 'a' <= c <= 'f' then 10 + (c as nat - 'a' as nat)
    else if 'A' <= c <= 'F' then 10 + (c as nat - 'A' as nat)
    else 16
  }

  function Value(s: string, radix: nat): nat {
    if s == [] then 0 else Value(s[..|s| - 1], radix) * radix + Digit(s[|s| - 1])
  }

  predicate AllDigits(s: string, radix: nat) {
    forall k :: 0 <= k < |s| ==> Digit(s[k]) < radix
  }

  /** An unsigned 64-bit number: an optional plus, then digits, without overflow. */
  function ReadNumber(s: string, radix: nat): (r: Option<nat>)
    ensures r.Some? ==> r.value < WORD64
  {
    var digits := if s != [] && s[0] == '+' then s[1..] else s;
    if digits == [] || !AllDigits(digits, radix) then None
    else if Value(digits, radix) >= WORD64 then None
    else Some(Value(digits, radix))
  }

  // ----- trimming does not change the words ----------------------------------------------

  lemma {:induction false} TrimStartWords(s: string)
    ensures SplitWords(TrimStart(s)) == SplitWords(s)
  {
    if s != [] && IsWhite(s[0]) {
      TrimStartWords(s[1..]);
    }
  }

  /** White space at the end adds no word. */
  lemma {:induction false} WordsSnoc(s: string, c: char)
    requires IsWhite(c)
    ensures SplitWords(s + [c]) == SplitWords(s)
    decreases |s|
  {
    var t := s + [c];
    if s == [] {
      assert t[1..] == [];
    } else if IsWhite(s[0]) {
      assert t[1..] == s[1..] + [c];
      WordsSnoc(s[1..], c);
    } else {
      var n := WordLength(s);
      WordLengthSnoc(s, c);
      assert t[..n] == s[..n] && t[n..] == s[n..] + [c];
      WordsSnoc(s[n..], c);
    }
  }

  lemma {:induction false} WordLengthSnoc(s: string, c: char)
    requires IsWhite(c)
    ensures WordLength(s + [c]) == WordLength(s)
  {
    if s != [] && !IsWhite(s[0]) {
      assert (s + [c])[1..] == s[1..] + [c];
      WordLengthSnoc(s[1..], c);
    }
  }

  lemma {:induction false} TrimEndWords(s: string)
    ensures SplitWords(TrimEnd(s)) == SplitWords(s)
  {
    if s != [] && IsWhite(s[|s| - 1]) {
      TrimEndWords(s[..|s| - 1]);
      WordsSnoc(s[..|s| - 1], s[|s| - 1]);
      assert s == s[..|s| - 1] + [s[|s| - 1]];
    }
  }

  /** A trimmed line has the words of the line; a line that trims to nothing has none. */
  lemma TrimWords(s: string)
    ensures SplitWords(Trim(s)) == SplitWords(s)
  {
    TrimStartWords(s);
    TrimEndWords(TrimStart(s));
  }

  lemma {:induction false} TrimStartTrimmed(s: string)
    ensures TrimStart(s) == "" || !IsWhite(TrimStart(s)[0])
  {
    if s != [] && IsWhite(s[0]) {
      TrimStartTrimmed(s[1..]);
    }
  }

  lemma {:induction false} TrimEndTrimmed(s: string)
    ensures TrimEnd(s) == "" || (!IsWhite(TrimEnd(s)[|TrimEnd(s)| - 1]) && TrimEnd(s)[0] == s[0])
  {
    if s != [] && IsWhite(s[|s| - 1]) {
      TrimEndTrimmed(s[..|s| - 1]);
    }
  }

  /** Trimming twice is trimming once. */
  lemma TrimTwice(s: string)
    ensures Trim(Trim(s)) == Trim(s)
  {
    TrimStartTrimmed(s);
    TrimEndTrimmed(TrimStart(s));
  }

  // ----- words survive joining -----------------------------------------------------------

  predicate IsWord(w: string) {
    w != "" && forall k :: 0 <= k < |w| ==> !IsWhite(w[k])
  }

  lemma {:induction false} WordLengthOf(w: string, rest: string)
    requires (forall k :: 0 <= k < |w| ==> !IsWhite(w[k])) && (rest == "" || IsWhite(rest[0]))
    ensures WordLength(w + rest) == |w|
  {
    if w == "" {
      assert w + rest == rest;
    } else {
      assert (w + rest)[1..] == w[1..] + rest;
      WordLengthOf(w[1..], rest);
    }
  }

  lemma FirstWord(w: string, rest: string)
    requires IsWord(w) && (rest == "" || IsWhite(rest[0]))
    ensures SplitWords(w + rest) == [w] + SplitWords(rest)
  {
    WordLengthOf(w, rest);
    assert (w + rest)[..|w|] == w && (w + rest)[|w|..] == rest;
  }

  lemma FirstOfMany(w: string, tail: string)
    requires IsWord(w)
    ensures SplitWords(w + (" " + tail)) == [w] + SplitWords(tail)
  {
    FirstWord(w, " " + tail);
    assert (" " + tail)[1..] == tail;
  }

  /** Words joined by single spaces split back into the same words. */
  lemma {:induction false} JoinSplits(ws: seq<string>)
    requires forall k :: 0 <= k < |ws| ==> IsWord(ws[k])
    ensures SplitWords(Join(ws)) == ws
  {
    if |ws| == 1 {
      FirstWord(ws[0], "");
      assert ws[0] + "" == ws[0] && ws == [ws[0]];
    } else if |ws| > 1 {
      JoinSplits(ws[1..]);
      FirstOfMany(ws[0], Join(ws[1..]));
      assert Join(ws) == ws[0] + (" " + Join(ws[1..]));
    }
  }

  /** Spaces and tabs. */
  predicate Blank(g: string) {
    forall k :: 0 <= k < |g| ==> g[k] == ' ' || g[k] == '\t'
  }

  /** The words with a gap before each and one behind the last. */
  function Spaced(gaps: seq<string>, ws: seq<string>): string
    requires |gaps| == |ws| + 1
  {
    if ws == [] then gaps[0] else gaps[0] + (ws[0] + Spaced(gaps[1..], ws[1..]))
  }

  predicate Gaps(gaps: seq<string>) {
    (forall k :: 0 <= k < |gaps| ==> Blank(gaps[k])) && forall k :: 0 < k < |gaps| - 1 ==> gaps[k] != ""
  }

  lemma {:induction false} GapSkips(g: string, s: string)
    requires Blank(g)
    ensures SplitWords(g + s) == SplitWords(s)
  {
    if g == "" {
      assert g + s == s;
    } else {
      assert (g + s)[1..] == g[1..] + s;
      GapSkips(g[1..], s);
    }
  }

  lemma SpacedStarts(gaps: seq<string>, ws: seq<string>)
    requires |gaps| == |ws| + 1 && Blank(gaps[0]) && (ws != [] ==> gaps[0] != "")
    ensures Spaced(gaps, ws) == "" || IsWhite(Spaced(gaps, ws)[0])
  {
    if gaps[0] != "" {
      assert Spaced(gaps, ws)[0] == gaps[0][0];
    }
  }

  /** Whatever stands between them, and before and behind, spaced words split back into the same words. */
  lemma {:induction false} SpacedSplits(gaps: seq<string>, ws: seq<string>)
    requires |gaps| == |ws| + 1 && Gaps(gaps) && forall k :: 0 <= k < |ws| ==> IsWord(ws[k])
    ensures SplitWords(Spaced(gaps, ws)) == ws
  {
    if ws == [] {
      GapSkips(gaps[0], "");
      assert gaps[0] + "" == gaps[0];
    } else {
      var rest := Spaced(gaps[1..], ws[1..]);
      assert forall k :: 0 <= k < |gaps[1..]| ==> gaps[1..][k] == gaps[k + 1];
      GapSkips(gaps[0], ws[0] + rest);
      SpacedStarts(gaps[1..], ws[1..]);
      FirstWord(ws[0], rest);
      SpacedSplits(gaps[1..], ws[1..]);
    }
  }

  lemma {:induction false} SplitGivesWords(s: string)
    ensures forall k :: 0 <= k < |SplitWords(s)| ==> IsWord(SplitWords(s)[k])
    decreases |s|
  {
    if s != [] {
      if IsWhite(s[0]) {
        SplitGivesWords(s[1..]);
      } else {
        SplitGivesWords(s[WordLength(s)..]);
      }
    }
  }

  // ----- numbers read back ---------------------------------------------------------------

  function DigitChar(d: nat): (c: char)
    requires d < 16
    ensures Digit(c) == d && c != '+' && c != '-' && !IsWhite(c)
  {
    if d < 10 then ('0' as nat + d) as char else ('a' as nat + (d - 10)) as char
  }

  /** A number in a radix, highest digit first. */
  function Digits(n: nat, radix: nat): (s: string)
    requires 2 <= radix <= 16
    ensures |s| > 0 && forall k :: 0 <= k < |s| ==> Digit(s[k]) < radix && s[k] != '+' && s[k] != '-' && !IsWhite(s[k])
  {
    if n < radix then [DigitChar(n)] else DivSmaller(n, radix); Digits(n / radix, radix) + [DigitChar(n % radix)]
  }

  lemma DivRest(n: nat, radix: nat)
    requires radix > 0
    ensures n == (n / radix) * radix + n % radix && 0 <= n % radix < radix
  {
  }

  lemma QuotientSmaller(n: nat, q: nat, r: nat, radix: nat)
    requires n == q * radix + r && 2 <= radix <= n
    ensures q < n
  {
    MulAtLeast(radix - 1, q);
    assert q * radix == (radix - 1) * q + q;
  }

  lemma DivSmaller(n: nat, radix: nat)
    requires 2 <= radix <= n
    ensures n / radix < n
  {
    DivRest(n, radix);
    QuotientSmaller(n, n / radix, n % radix, radix);
  }

  lemma ValueSnoc(s: string, c: char, radix: nat)
    ensures Value(s + [c], radix) == Value(s, radix) * radix + Digit(c)
  {
    assert (s + [c])[..|s|] == s;
  }

  lemma ValueStep(n: nat, q: nat, r: nat, radix: nat)
    requires 2 <= radix <= 16 && n == q * radix + r && r < radix && Value(Digits(q, radix), radix) == q
    ensures Value(Digits(q, radix) + [DigitChar(r)], radix) == n
  {
    ValueSnoc(Digits(q, radix), DigitChar(r), radix);
  }

  lemma {:induction false} ValueOfDigits(n: nat, radix: nat)
    requires 2 <= radix <= 16
    ensures Value(Digits(n, radix), radix) == n
    decreases n
  {
    if n < radix {
      ValueSnoc("", DigitChar(n), radix);
      assert "" + [DigitChar(n)] == [DigitChar(n)] == Digits(n, radix);
    } else {
      DivSmaller(n, radix);
      ValueOfDigits(n / radix, radix);
      DivRest(n, radix);
      ValueStep(n, n / radix, n % radix, radix);
    }
  }

  /** A 64-bit number reads back from its digits. */
  lemma NumberReadsBack(n: nat, radix: nat)
    requires 2 <= radix <= 16 && n < WORD64
    ensures ReadNumber(Digits(n, radix), radix) == Some(n)
  {
    ValueOfDigits(n, radix);
  }

  // ----- which texts are numbers ---------------------------------------------------------

  const LOWER := "0123456789abcdef"
  const UPPER := "0123456789ABCDEF"

  /** The character is the digit `d`, in either case. */
  predicate IsDigit(c: char, d: nat) {
    d < 16 && (c == LOWER[d] || c == UPPER[d])
  }

  lemma DigitMeans(c: char, d: nat)
    ensures IsDigit(c, d) <==> d < 16 && Digit(c) == d
  {
    assert d == 0 || d == 1 || d == 2 || d == 3 || d == 4 || d == 5 || d == 6 || d == 7 || d == 8 || d == 9 ||
           d == 10 || d == 11 || d == 12 || d == 13 || d == 14 || d == 15 || d >= 16;
  }

  function Power(radix: nat, e: nat): nat {
    if e == 0 then 1 else radix * Power(radix, e - 1)
  }

  /** The positional value: every digit times the power of the radix for its place. */
  function Place(ds: seq<nat>, radix: nat): nat {
    if ds == [] then 0 else ds[0] * Power(radix, |ds| - 1) + Place(ds[1..], radix)
  }

  predicate Spells(s: string, ds: seq<nat>, radix: nat) {
    |s| == |ds| > 0 && forall k :: 0 <= k < |ds| ==> ds[k] < radix && IsDigit(s[k], ds[k])
  }

  /** The text is digits, possibly behind a plus, whose positional value is `n`. */
  ghost predicate Denotes(s: string, radix: nat, n: nat) {
    exists ds: seq<nat> ::
      Place(ds, radix) == n && (Spells(s, ds, radix) || (s != "" && s[0] == '+' && Spells(s[1..], ds, radix)))
  }

  lemma {:induction false} PlaceSnoc(ds: seq<nat>, d: nat, radix: nat)
    ensures Place(ds + [d], radix) == Place(ds, radix) * radix + d
  {
    if ds == [] {
      assert [d][0] * Power(radix, 0) == d && Place([d][1..], radix) == 0;
      assert ds + [d] == [d];
    } else {
      var rest := ds[1..];
      assert (ds + [d])[1..] == rest + [d] && (ds + [d])[0] == ds[0];
      PlaceSnoc(rest, d, radix);
      var p := Power(radix, |ds| - 1);
      assert Power(radix, |ds|) == radix * p;
      assert ds[0] * (radix * p) + Place(rest, radix) * radix == (ds[0] * p + Place(rest, radix)) * radix;
    }
  }

  lemma {:induction false} ValueIsPlace(s: string, ds: seq<nat>, radix: nat)
    requires |s| == |ds| && forall k :: 0 <= k < |ds| ==> Digit(s[k]) == ds[k]
    ensures Value(s, radix) == Place(ds, radix)
  {
    if s != "" {
      var n := |s| - 1;
      ValueIsPlace(s[..n], ds[..n], radix);
      PlaceSnoc(ds[..n], ds[n], radix);
      assert ds == ds[..n] + [ds[n]];
    }
  }

  lemma SpellsReads(s: string, ds: seq<nat>, radix: nat)
    requires Spells(s, ds, radix) && radix <= 16
    ensures Value(s, radix) == Place(ds, radix) && s[0] != '+' && AllDigits(s, radix)
  {
    forall k | 0 <= k < |s|
      ensures Digit(s[k]) == ds[k]
    {
      DigitMeans(s[k], ds[k]);
    }
    ValueIsPlace(s, ds, radix);
  }

  lemma DigitsSpell(s: string, radix: nat)
    requires s != "" && radix <= 16 && AllDigits(s, radix)
    ensures var ds := seq(|s|, k requires 0 <= k < |s| => Digit(s[k]));
            Spells(s, ds, radix) && Place(ds, radix) == Value(s, radix)
  {
    var ds: seq<nat> := seq(|s|, k requires 0 <= k < |s| => Digit(s[k]));
    forall k | 0 <= k < |s|
      ensures IsDigit(s[k], ds[k])
    {
      DigitMeans(s[k], ds[k]);
    }
    ValueIsPlace(s, ds, radix);
  }

  /** A text reads as `n` exactly if it denotes `n` and `n` has 64 bits; all other texts do not read. */
  lemma NumberReadsIff(s: string, radix: nat, n: nat)
    requires 2 <= radix <= 16
    ensures ReadNumber(s, radix) == Some(n) <==> Denotes(s, radix, n) && n < 0x1_0000_0000_0000_0000
  {
    if Denotes(s, radix, n) {
      var ds: seq<nat> :| Place(ds, radix) == n &&
        (Spells(s, ds, radix) || (s != "" && s[0] == '+' && Spells(s[1..], ds, radix)));
      SpellsReads(if Spells(s, ds, radix) then s else s[1..], ds, radix);
    }
    if ReadNumber(s, radix) == Some(n) {
      var digits := if s != [] && s[0] == '+' then s[1..] else s;
      DigitsSpell(digits, radix);
    }
  }

  // ----- zeros in front ------------------------------------------------------------------

  /** A number as the kernel prints it: digits behind any number of zeros. */
  function PadDigits(zeros: nat, n: nat, radix: nat): (s: string)
    requires 2 <= radix <= 16
    ensures |s| > 0 && forall k :: 0 <= k < |s| ==> Digit(s[k]) < radix && s[k] != '+' && s[k] != '-' && !IsWhite(s[k])
  {
    if zeros == 0 then Digits(n, radix) else ['0'] + PadDigits(zeros - 1, n, radix)
  }

  lemma {:induction false} ValueOfZero(s: string, radix: nat)
    ensures Value(['0'] + s, radix) == Value(s, radix)
  {
    var t := ['0'] + s;
    if s == "" {
      assert t[..|t| - 1] == "";
    } else {
      assert t[..|t| - 1] == ['0'] + s[..|s| - 1];
      ValueOfZero(s[..|s| - 1], radix);
    }
  }

  lemma {:induction false} ValueOfPadded(zeros: nat, n: nat, radix: nat)
    requires 2 <= radix <= 16
    ensures Value(PadDigits(zeros, n, radix), radix) == n
  {
    if zeros == 0 {
      ValueOfDigits(n, radix);
    } else {
      ValueOfPadded(zeros - 1, n, radix);
      ValueOfZero(PadDigits(zeros - 1, n, radix), radix);
    }
  }

  /** A 64-bit number reads back with any number of zeros in front. */
  lemma PaddedReadsBack(zeros: nat, n: nat, radix: nat)
    requires 2 <= radix <= 16 && n < WORD64
    ensures ReadNumber(PadDigits(zeros, n, radix), radix) == Some(n)
  {
    ValueOfPadded(zeros, n, radix);
  }

  // ----- splits read back ----------------------------------------------------------------

  lemma {:induction false} NoSplit(s: string, c: char)
    requires c !in s
    ensures SplitAt(s, c) == [s]
  {
    if s != "" {
      assert forall x :: x in s[1..] ==> x in s;
      NoSplit(s[1..], c);
      assert [s[0]] + s[1..] == s;
    }
  }

  /** A text with one separator splits into what stands before and after it. */
  lemma {:induction false} SplitOnce(a: string, c: char, b: string)
    requires c !in a && c !in b
    ensures SplitAt(a + [c] + b, c) == [a, b]
  {
    var s := a + [c] + b;
    if a == "" {
      assert s[1..] == b;
      NoSplit(b, c);
    } else {
      assert s[1..] == a[1..] + [c] + b;
      assert forall x :: x in a[1..] ==> x in a;
      SplitOnce(a[1..], c, b);
      assert [a[0]] + a[1..] == a;
    }
  }

  /** How often a character occurs. */
  function Occurrences(s: string, c: char): nat {
    if s == "" then 0 else (if s[0] == c then 1 else 0) + Occurrences(s[1..], c)
  }

  /** Splitting gives one part more than there are separators. */
  lemma {:induction false} PartsCount(s: string, c: char)
    ensures |SplitAt(s, c)| == Occurrences(s, c) + 1
    ensures c in s <==> Occurrences(s, c) > 0
  {
    if s != "" {
      PartsCount(s[1..], c);
    }
  }

  lemma {:induction false} SplitBackOne(s: string, c: char)
    requires |SplitAt(s, c)| == 1
    ensures SplitAt(s, c) == [s] && c !in s
  {
    if s != "" {
      SplitBackOne(s[1..], c);
      assert [s[0]] + s[1..] == s;
    }
  }

  /** Two parts mean one separator, between them. */
  lemma {:induction false} SplitBack(s: string, c: char)
    requires |SplitAt(s, c)| == 2
    ensures var a, b := SplitAt(s, c)[0], SplitAt(s, c)[1]; s == a + [c] + b && c !in a && c !in b
  {
    if s[0] == c {
      SplitBackOne(s[1..], c);
      assert s == "" + [c] + s[1..];
    } else {
      SplitBack(s[1..], c);
      var a, b := SplitAt(s[1..], c)[0], SplitAt(s[1..], c)[1];
      assert s == [s[0]] + (a + [c] + b) == ([s[0]] + a) + [c] + b;
    }
  }
}
