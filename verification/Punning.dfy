/** Counting control codes in a string: one masked word load per test, or a plain comparison. */
module Punning {
  import opened MaskedWords
  import opened CodeWalk

  /** A row of the lookup: the code zero-padded to eight bytes, and its length. */
  datatype Code = Code(bytes: seq<bv8>, len: nat)

  const DOLLAR: bv8 := 0x24

  /** The six simple codes. */
  function SimpleText(i: nat): (c: seq<bv8>)
    requires i < 6
    ensures |c| == 4
  {
    match i
    case 0 => [0x24, 0x53, 0x50, 0x24] // $SP$
    case 1 => [0x24, 0x42, 0x50, 0x24] // $BP$
    case 2 => [0x24, 0x52, 0x46, 0x24] // $RF$
    case 3 => [0x24, 0x4c, 0x54, 0x24] // $LT$
    case 4 => [0x24, 0x47, 0x54, 0x24] // $GT$
    case _ => [0x24, 0x52, 0x50, 0x24] // $RP$
  }

  /** The seven code points. */
  function UnicodeText(i: nat): (c: seq<bv8>)
    requires i < 7
    ensures |c| == 5
  {
    match i
    case 0 => [0x24, 0x75, 0x32, 0x30, 0x24] // $u20$
    case 1 => [0x24, 0x75, 0x32, 0x37, 0x24] // $u27$
    case 2 => [0x24, 0x75, 0x35, 0x62, 0x24] // $u5b$
    case 3 => [0x24, 0x75, 0x35, 0x64, 0x24] // $u5d$
    case 4 => [0x24, 0x75, 0x37, 0x62, 0x24] // $u7b$
    case 5 => [0x24, 0x75, 0x37, 0x64, 0x24] // $u7d$
    case _ => [0x24, 0x75, 0x37, 0x65, 0x24] // $u7e$
  }

  const PAREN: seq<bv8> := [0x24, 0x4c, 0x50, 0x24] // $LP$

  function CodeText(i: nat): (c: seq<bv8>)
    requires i < 13
    ensures |c| == if i < 6 then 4 else 5
  {
    if i < 6 then SimpleText(i) else UnicodeText(i - 6)
  }

  function Padded(c: seq<bv8>): (p: seq<bv8>)
    requires |c| <= 8
    ensures |p| == 8 && forall k :: 0 <= k < 8 ==> p[k] == if k < |c| then c[k] else 0
  {
    seq(8, k requires 0 <= k < 8 => if k < |c| then c[k] else 0)
  }

  function TableRow(i: nat): Code
    requires i < 13
  {
    Code(Padded(CodeText(i)), |CodeText(i)|)
  }

  /** `init_lookup_pre`: the simple codes first, then the code points. */
  method InitLookupPre() returns (codes: array<Code>)
    ensures fresh(codes) && codes.Length == 13
    ensures forall k :: 0 <= k < 13 ==> codes[k] == TableRow(k)
  {
    codes := new Code[13](_ => Code([], 0));
    var i := 0;
    for j := 0 to 6
      invariant i == j && forall k :: 0 <= k < i ==> codes[k] == TableRow(k)
    {
      codes[i] := Code(Padded(SimpleText(j)), 4);
      i := i + 1;
    }
    for j := 0 to 7
      invariant i == 6 + j && forall k :: 0 <= k < i ==> codes[k] == TableRow(k)
    {
      codes[i] := Code(Padded(UnicodeText(j)), 5);
      i := i + 1;
    }
  }

  /** Row `i` of the lookup: the padded code as a word, and the length of the code. */
  predicate IsRow(row: (bv64, nat), i: nat)
    requires i < 13
  {
    IsWord(row.0, Padded(CodeText(i))) && row.1 == |CodeText(i)|
  }

  predicate IsLookup(lu: seq<(bv64, nat)>) {
    |lu| == 13 && forall k :: 0 <= k < 13 ==> IsRow(lu[k], k)
  }

  /** Eight bytes read as one word. */
  method LoadWord(w: seq<bv8>) returns (x: bv64)
    requires |w| == 8
    ensures IsWord(x, w)
  {
    x := Load(w);
  }

  /** `init_lookup`: every row as one word. */
  method InitLookup() returns (lu: array<(bv64, nat)>)
    ensures fresh(lu) && IsLookup(lu[..])
  {
    var codes := InitLookupPre();
    lu := new (bv64, nat)[13](_ => (0, 0));
    for i := 0 to 13
      invariant forall k :: 0 <= k < 13 ==> codes[k] == TableRow(k)
      invariant forall k :: 0 <= k < i ==> IsRow(lu[k], k)
    {
      var x := LoadWord(codes[i].bytes);
      lu[i] := (x, codes[i].len);
    }
  }

  // ----- what starts where ---------------------------------------------------------------

  /** The text holds `c` at position `p`. */
  predicate StartsAt(s: seq<bv8>, p: nat, c: seq<bv8>) {
    p + |c| <= |s| && forall k :: 0 <= k < |c| ==> s[p + k] == c[k]
  }

  predicate SimplePair(x: bv8, y: bv8) {
    (x == 0x53 && y == 0x50) || (x == 0x42 && y == 0x50) || (x == 0x52 && y == 0x46) ||
    (x == 0x4c && y == 0x54) || (x == 0x47 && y == 0x54) || (x == 0x52 && y == 0x50)
  }

  predicate UnicodePair(x: bv8, y: bv8) {
    (x == 0x32 && (y == 0x30 || y == 0x37)) || (x == 0x35 && (y == 0x62 || y == 0x64)) ||
    (x == 0x37 && (y == 0x62 || y == 0x64 || y == 0x65))
  }

  /** Which code, if any, starts at `p`. */
  function KindAt(s: seq<bv8>, p: nat): Kind
    requires p + 5 <= |s|
  {
    if s[p] != DOLLAR then NoCode
    else if s[p + 3] == DOLLAR && SimplePair(s[p + 1], s[p + 2]) then Simple
    else if s[p + 3] == DOLLAR && s[p + 1] == 0x4c && s[p + 2] == 0x50 then Paren
    else if s[p + 1] == 0x75 && s[p + 4] == DOLLAR && UnicodePair(s[p + 2], s[p + 3]) then Unicode
    else NoCode
  }

  /** The scans stop 15 bytes before the end; shorter strings are not scanned. */
  function Limit(s: seq<bv8>): nat {
    if |s| < 15 then 0 else |s| - 15
  }

  function Kinds(s: seq<bv8>): (ks: seq<Kind>)
    ensures |ks| == Limit(s)
    ensures forall p :: 0 <= p < |ks| ==> ks[p] == KindAt(s, p)
  {
    seq(Limit(s), p requires 0 <= p < Limit(s) => KindAt(s, p))
  }

  lemma KindsShaped(s: seq<bv8>)
    ensures Shaped(Kinds(s))
  {
    var ks := Kinds(s);
    forall p, q {:trigger ks[p], ks[q]} |
      0 <= p < q < |ks| && ks[p] != NoCode && q < p + (if ks[p].Unicode? then 4 else 3)
      ensures ks[q] == NoCode
    {
      assert ks[p] == KindAt(s, p) && ks[q] == KindAt(s, q);
      assert q == p + 1 || q == p + 2 || q == p + 3;
    }
  }

  lemma StartsFour(s: seq<bv8>, p: nat, c: seq<bv8>)
    requires |c| == 4 && p + 4 <= |s|
    ensures StartsAt(s, p, c) <==> s[p] == c[0] && s[p + 1] == c[1] && s[p + 2] == c[2] && s[p + 3] == c[3]
  {
    if s[p] == c[0] && s[p + 1] == c[1] && s[p + 2] == c[2] && s[p + 3] == c[3] {
      forall k | 0 <= k < 4
        ensures s[p + k] == c[k]
      {
        assert k == 0 || k == 1 || k == 2 || k == 3;
      }
    }
  }

  lemma StartsFive(s: seq<bv8>, p: nat, c: seq<bv8>)
    requires |c| == 5 && p + 5 <= |s|
    ensures StartsAt(s, p, c) <==>
            s[p] == c[0] && s[p + 1] == c[1] && s[p + 2] == c[2] && s[p + 3] == c[3] && s[p + 4] == c[4]
  {
    if s[p] == c[0] && s[p + 1] == c[1] && s[p + 2] == c[2] && s[p + 3] == c[3] && s[p + 4] == c[4] {
      forall k | 0 <= k < 5
        ensures s[p + k] == c[k]
      {
        assert k == 0 || k == 1 || k == 2 || k == 3 || k == 4;
      }
    }
  }

  /** A simple code starts here exactly when one of the six texts does. */
  lemma SimpleStarts(s: seq<bv8>, p: nat)
    requires p + 5 <= |s|
    ensures KindAt(s, p).Simple? <==>
            StartsAt(s, p, SimpleText(0)) || StartsAt(s, p, SimpleText(1)) || StartsAt(s, p, SimpleText(2)) ||
            StartsAt(s, p, SimpleText(3)) || StartsAt(s, p, SimpleText(4)) || StartsAt(s, p, SimpleText(5))
  {
    StartsFour(s, p, SimpleText(0));
    StartsFour(s, p, SimpleText(1));
    StartsFour(s, p, SimpleText(2));
    StartsFour(s, p, SimpleText(3));
    StartsFour(s, p, SimpleText(4));
    StartsFour(s, p, SimpleText(5));
  }

  lemma UnicodeStarts(s: seq<bv8>, p: nat)
    requires p + 5 <= |s|
    ensures KindAt(s, p).Unicode? <==>
            StartsAt(s, p, UnicodeText(0)) || StartsAt(s, p, UnicodeText(1)) || StartsAt(s, p, UnicodeText(2)) ||
            StartsAt(s, p, UnicodeText(3)) || StartsAt(s, p, UnicodeText(4)) || StartsAt(s, p, UnicodeText(5)) ||
            StartsAt(s, p, UnicodeText(6))
  {
    StartsFive(s, p, UnicodeText(0));
    StartsFive(s, p, UnicodeText(1));
    StartsFive(s, p, UnicodeText(2));
    StartsFive(s, p, UnicodeText(3));
    StartsFive(s, p, UnicodeText(4));
    StartsFive(s, p, UnicodeText(5));
    StartsFive(s, p, UnicodeText(6));
  }

  lemma ParenStarts(s: seq<bv8>, p: nat)
    requires p + 5 <= |s|
    ensures KindAt(s, p).Paren? <==> StartsAt(s, p, PAREN)
  {
    StartsFour(s, p, PAREN);
  }

  /** At most one table code starts at a position: none is a prefix of another. */
  lemma AtMostOneCode(s: seq<bv8>, p: nat, i: nat, j: nat)
    requires i < 13 && j < 13 && StartsAt(s, p, CodeText(i)) && StartsAt(s, p, CodeText(j))
    ensures i == j
  {
    var a, b := CodeText(i), CodeText(j);
    assert s[p + 1] == a[1] == b[1] && s[p + 2] == a[2] == b[2] && s[p + 3] == a[3] == b[3];
  }

  // ----- the counts, read off the text ---------------------------------------------------

  ghost predicate SimpleHere(s: seq<bv8>, p: nat) {
    exists i :: 0 <= i < 6 && StartsAt(s, p, SimpleText(i))
  }

  ghost predicate UnicodeHere(s: seq<bv8>, p: nat) {
    exists i :: 0 <= i < 7 && StartsAt(s, p, UnicodeText(i))
  }

  lemma SimpleIsKind(s: seq<bv8>, p: nat)
    requires p + 5 <= |s|
    ensures SimpleHere(s, p) <==> KindAt(s, p).Simple?
  {
    SimpleStarts(s, p);
  }

  lemma UnicodeIsKind(s: seq<bv8>, p: nat)
    requires p + 5 <= |s|
    ensures UnicodeHere(s, p) <==> KindAt(s, p).Unicode?
  {
    UnicodeStarts(s, p);
  }

  /** How many codes, each closed by the `$` that opens the next, stand right before `p`. */
  function Linked(four: nat -> bool, five: nat -> bool, p: nat): nat {
    if p >= 3 && four(p - 3) then 1 + Linked(four, five, p - 3)
    else if p >= 4 && five(p - 4) then 1 + Linked(four, five, p - 4)
    else 0
  }

  ghost function SimpleIn(s: seq<bv8>): nat -> bool {
    (p: nat) => SimpleHere(s, p)
  }

  ghost function UnicodeIn(s: seq<bv8>): nat -> bool {
    (p: nat) => UnicodeHere(s, p)
  }

  ghost function FourIn(s: seq<bv8>): nat -> bool {
    (p: nat) => SimpleHere(s, p) || StartsAt(s, p, PAREN)
  }

  function Nowhere(): nat -> bool {
    (p: nat) => false
  }

  /** The linked four-byte codes, `$LP$` included, right before `p`. */
  ghost function FourTexts(s: seq<bv8>, p: nat): nat {
    Linked(FourIn(s), Nowhere(), p)
  }

  /** The linked codes of the table right before `p`. */
  ghost function TableTexts(s: seq<bv8>, p: nat): nat {
    Linked(SimpleIn(s), UnicodeIn(s), p)
  }

  lemma KindIsHere(s: seq<bv8>, p: nat)
    requires p < Limit(s)
    ensures Kinds(s)[p].Simple? <==> SimpleHere(s, p)
    ensures Kinds(s)[p].Unicode? <==> UnicodeHere(s, p)
    ensures Kinds(s)[p].Paren? <==> StartsAt(s, p, PAREN)
  {
    SimpleIsKind(s, p);
    UnicodeIsKind(s, p);
    ParenStarts(s, p);
  }

  lemma {:induction false} LinkedFours(ks: seq<Kind>, four: nat -> bool, five: nat -> bool, p: nat)
    requires p < |ks| && forall q: nat :: q < p ==> four(q) == FourBytes(ks[q]) && !five(q)
    ensures Linked(four, five, p) == FoursBefore(ks, p)
  {
    if p >= 3 && FourBytes(ks[p - 3]) {
      LinkedFours(ks, four, five, p - 3);
    }
  }

  lemma {:induction false} LinkedTable(ks: seq<Kind>, four: nat -> bool, five: nat -> bool, p: nat)
    requires p < |ks| && forall q: nat :: q < p ==> four(q) == ks[q].Simple? && five(q) == ks[q].Unicode?
    ensures Linked(four, five, p) == TableBefore(ks, p)
  {
    if p >= 3 && ks[p - 3].Simple? {
      LinkedTable(ks, four, five, p - 3);
    } else if p >= 4 && ks[p - 4].Unicode? {
      LinkedTable(ks, four, five, p - 4);
    }
  }

  /** The runs in the text are those of the scanned codes. */
  lemma TextsAreRuns(s: seq<bv8>, p: nat)
    requires p < Limit(s)
    ensures FourTexts(s, p) == FoursBefore(Kinds(s), p) && TableTexts(s, p) == TableBefore(Kinds(s), p)
  {
    var ks := Kinds(s);
    forall q: nat | q < p
      ensures FourIn(s)(q) == FourBytes(ks[q]) && SimpleIn(s)(q) == ks[q].Simple? && UnicodeIn(s)(q) == ks[q].Unicode?
    {
      KindIsHere(s, q);
    }
    LinkedFours(ks, FourIn(s), Nowhere(), p);
    LinkedTable(ks, SimpleIn(s), UnicodeIn(s), p);
  }

  /** Codes of the table with sixteen bytes of text from their `$` on, behind an even run of such codes. */
  ghost function FastPositions(s: seq<bv8>): set<nat> {
    set p: nat | 0 <= p < |s| && p + 15 < |s| && (SimpleHere(s, p) || UnicodeHere(s, p)) && TableTexts(s, p) % 2 == 0
  }

  /** Codes, `$LP$` included, with as much text, behind an even run of four-byte codes. */
  ghost function PlainPositions(s: seq<bv8>): set<nat> {
    set p: nat | 0 <= p < |s| && p + 15 < |s| &&
                 (SimpleHere(s, p) || UnicodeHere(s, p) || StartsAt(s, p, PAREN)) && FourTexts(s, p) % 2 == 0
  }

  lemma HitsAt(s: seq<bv8>, p: nat)
    ensures p in FastPositions(s) <==> FastHits(Kinds(s), p)
    ensures p in PlainPositions(s) <==> SlowHits(Kinds(s), p)
  {
    KindsShaped(s);
    FastByRun(Kinds(s), p);
    SlowByRun(Kinds(s), p);
    if p < Limit(s) {
      TextsAreRuns(s, p);
      KindIsHere(s, p);
    }
  }

  /** The two walks count the positions that the text says. */
  lemma WalksCount(s: seq<bv8>)
    ensures |FastWalk(Kinds(s), 0)| == |FastPositions(s)| && |SlowWalk(Kinds(s), 0)| == |PlainPositions(s)|
  {
    KindsShaped(s);
    WalkCounts(Kinds(s));
    forall p: nat
      ensures p in FastPositions(s) <==> p in FastSet(Kinds(s))
      ensures p in PlainPositions(s) <==> p in SlowSet(Kinds(s))
    {
      HitsAt(s, p);
    }
    assert FastPositions(s) == FastSet(Kinds(s)) && PlainPositions(s) == SlowSet(Kinds(s));
  }

  lemma NonEmpty(a: set<nat>, p: nat)
    requires p in a
    ensures |a| >= 1
  {
    assert a == {p} + (a - {p});
  }

  lemma NothingBefore(s: seq<bv8>, p: nat)
    requires p <= |s| && forall k :: 0 <= k < p ==> s[k] != DOLLAR
    ensures FourTexts(s, p) == 0 && TableTexts(s, p) == 0
  {
    forall k: nat, c: seq<bv8> | k < p && c != [] && c[0] == DOLLAR
      ensures !StartsAt(s, k, c)
    {
      assert s[k] != c[0] && s[k + 0] == s[k];
    }
    assert forall k: nat :: k < p ==> !SimpleIn(s)(k) && !UnicodeIn(s)(k) && !FourIn(s)(k);
  }

  /** The first code of a text is counted exactly if the text goes on for sixteen bytes from its `$`. */
  lemma FirstCodeCounts(s: seq<bv8>, p: nat)
    requires p < |s| && forall k :: 0 <= k < p ==> s[k] != DOLLAR
    requires SimpleHere(s, p) || UnicodeHere(s, p) || StartsAt(s, p, PAREN)
    ensures p in PlainPositions(s) <==> p + 15 < |s|
    ensures p in FastPositions(s) <==> p + 15 < |s| && (SimpleHere(s, p) || UnicodeHere(s, p))
    ensures p + 15 < |s| ==> |PlainPositions(s)| >= 1
    ensures p + 15 < |s| && !StartsAt(s, p, PAREN) ==> |FastPositions(s)| >= 1
  {
    NothingBefore(s, p);
    if p in PlainPositions(s) {
      NonEmpty(PlainPositions(s), p);
    }
    if p in FastPositions(s) {
      NonEmpty(FastPositions(s), p);
    }
  }

  /** A text without a code that has room behind it counts nothing. */
  lemma NoCodeNoCount(s: seq<bv8>)
    requires forall p: nat :: p + 15 < |s| ==> !SimpleHere(s, p) && !UnicodeHere(s, p)
    ensures |FastPositions(s)| == 0
    ensures (forall p: nat :: p + 15 < |s| ==> !StartsAt(s, p, PAREN)) ==> |PlainPositions(s)| == 0
  {
    assert FastPositions(s) == {};
    if forall p: nat :: p + 15 < |s| ==> !StartsAt(s, p, PAREN) {
      assert PlainPositions(s) == {};
    }
  }

  // ----- the fast scan -------------------------------------------------------------------

  lemma PaddedStarts(w: seq<bv8>, c: seq<bv8>)
    requires |w| == 8 && |c| <= 8
    ensures SamePrefix(w, Padded(c), |c|) <==> StartsAt(w, 0, c)
  {
    assert forall k :: 0 <= k < |c| ==> Padded(c)[k] == c[k] && w[0 + k] == w[k];
  }

  /** One row of the lookup against the word of a window. */
  method TestRow(window: bv64, row: (bv64, nat), ghost w: seq<bv8>, ghost c: seq<bv8>) returns (hit: bool)
    requires |c| <= 8 && IsWord(window, w) && IsWord(row.0, Padded(c)) && row.1 == |c|
    ensures hit <==> StartsAt(w, 0, c)
  {
    PaddedStarts(w, c);
    MaskedWordMatch(window, w, row.0, Padded(c), |c|);
    hit := MaskedEquals(window, row.0, row.1);
  }

  lemma WindowStarts(s: seq<bv8>, p: nat, c: seq<bv8>)
    requires p + 8 <= |s| && |c| <= 8
    ensures StartsAt(s[p..p + 8], 0, c) <==> StartsAt(s, p, c)
  {
    assert forall k {:trigger c[k]} :: 0 <= k < |c| ==> s[p..p + 8][0 + k] == s[p + k];
  }

  /** The rows below `n` do not match at `p`. */
  predicate NoRow(s: seq<bv8>, p: nat, n: nat) {
    forall i :: 0 <= i < n && i < 13 ==> !StartsAt(s, p, CodeText(i))
  }

  lemma NoRowMeansNoCode(s: seq<bv8>, p: nat)
    requires p + 5 <= |s| && NoRow(s, p, 13)
    ensures !InTable(KindAt(s, p))
  {
    SimpleStarts(s, p);
    UnicodeStarts(s, p);
    assert forall i :: 0 <= i < 6 ==> CodeText(i) == SimpleText(i);
    assert !StartsAt(s, p, CodeText(6)) && !StartsAt(s, p, CodeText(7)) && !StartsAt(s, p, CodeText(8)) &&
           !StartsAt(s, p, CodeText(9)) && !StartsAt(s, p, CodeText(10)) && !StartsAt(s, p, CodeText(11)) &&
           !StartsAt(s, p, CodeText(12));
  }

  lemma RowMeansCode(s: seq<bv8>, p: nat, i: nat)
    requires p + 5 <= |s| && i < 13 && StartsAt(s, p, CodeText(i))
    ensures KindAt(s, p) == if i < 6 then Simple else Unicode
  {
    SimpleStarts(s, p);
    UnicodeStarts(s, p);
    if i < 6 {
      assert i == 0 || i == 1 || i == 2 || i == 3 || i == 4 || i == 5;
    } else {
      assert i == 6 || i == 7 || i == 8 || i == 9 || i == 10 || i == 11 || i == 12;
    }
  }

  /** The table loop at one position: the length of the code that starts there, or zero. */
  method MatchLength(s: seq<bv8>, p: nat, lu: array<(bv64, nat)>) returns (len: nat)
    requires IsLookup(lu[..]) && p + 8 <= |s|
    ensures len == if KindAt(s, p).Simple? then 4 else if KindAt(s, p).Unicode? then 5 else 0
  {
    var w := s[p..p + 8];
    var window := LoadWord(w);
    for j := 0 to lu.Length
      invariant NoRow(s, p, j)
    {
      WindowStarts(s, p, CodeText(j));
      assert IsRow(lu[..][j], j);
      var hit := TestRow(window, lu[j], w, CodeText(j));
      if hit {
        RowMeansCode(s, p, j);
        return lu[j].1;
      }
    }
    NoRowMeansNoCode(s, p);
    len := 0;
  }

  /** `count_hits`: every load stays inside the string. */
  method CountHits(s: seq<bv8>, lu: array<(bv64, nat)>) returns (hits: nat)
    requires IsLookup(lu[..])
    ensures hits == |FastWalk(Kinds(s), 0)| == |FastPositions(s)|
  {
    WalksCount(s);
    hits := 0;
    var str, end := 0, |s| - 15;
    while str < end
      invariant hits + |FastWalk(Kinds(s), str)| == |FastWalk(Kinds(s), 0)|
    {
      if s[str] == DOLLAR {
        var len := MatchLength(s, str, lu);
        if len > 0 {
          hits := hits + 1;
          str := str + (len - 1);
        }
        str := str + 1;
      } else {
        str := str + 1;
      }
    }
  }

  // ----- the plain scan ------------------------------------------------------------------

  /** `strncmp` of a literal against the text; both stop at the first difference. */
  method Matches(s: seq<bv8>, p: nat, c: seq<bv8>) returns (yes: bool)
    requires p + |c| <= |s|
    ensures yes == StartsAt(s, p, c)
  {
    for k := 0 to |c|
      invariant forall j :: 0 <= j < k ==> s[p + j] == c[j]
    {
      if s[p + k] != c[k] {
        return false;
      }
    }
    yes := true;
  }

  method MatchesFour(s: seq<bv8>, p: nat) returns (yes: bool)
    requires p + 5 <= |s|
    ensures yes == FourBytes(KindAt(s, p))
  {
    SimpleStarts(s, p);
    ParenStarts(s, p);
    yes := Matches(s, p, SimpleText(0));
    if !yes { yes := Matches(s, p, SimpleText(1)); }
    if !yes { yes := Matches(s, p, SimpleText(2)); }
    if !yes { yes := Matches(s, p, SimpleText(3)); }
    if !yes { yes := Matches(s, p, SimpleText(4)); }
    if !yes { yes := Matches(s, p, PAREN); }
    if !yes { yes := Matches(s, p, SimpleText(5)); }
  }

  method MatchesFive(s: seq<bv8>, p: nat) returns (yes: bool)
    requires p + 5 <= |s|
    ensures yes == KindAt(s, p).Unicode?
  {
    UnicodeStarts(s, p);
    yes := Matches(s, p, UnicodeText(0));
    if !yes { yes := Matches(s, p, UnicodeText(1)); }
    if !yes { yes := Matches(s, p, UnicodeText(2)); }
    if !yes { yes := Matches(s, p, UnicodeText(3)); }
    if !yes { yes := Matches(s, p, UnicodeText(4)); }
    if !yes { yes := Matches(s, p, UnicodeText(5)); }
    if !yes { yes := Matches(s, p, UnicodeText(6)); }
  }

  /** `count_hits_bad`. */
  method CountHitsBad(s: seq<bv8>) returns (hits: nat)
    ensures hits == |SlowWalk(Kinds(s), 0)| == |PlainPositions(s)|
  {
    WalksCount(s);
    hits := 0;
    var str, end := 0, |s| - 15;
    while str < end
      invariant hits + |SlowWalk(Kinds(s), str)| == |SlowWalk(Kinds(s), 0)|
    {
      if s[str] == DOLLAR {
        var four := MatchesFour(s, str);
        if four {
          hits := hits + 1;
          str := str + 4;
        } else {
          var five := MatchesFive(s, str);
          if five {
            hits := hits + 1;
            str := str + 4;
          } else {
            str := str + 1;
          }
        }
      } else {
        str := str + 1;
      }
    }
  }

  // ----- fast against plain --------------------------------------------------------------

  /** The fast count equals the plain one exactly when linked codes are balanced, and never exceeds it. */
  lemma FastRefinesPlain(s: seq<bv8>)
    ensures |FastWalk(Kinds(s), 0)| == |SlowWalk(Kinds(s), 0)| <==> BalancedChains(Kinds(s))
    ensures FastWalk(Kinds(s), 0) == SlowWalk(Kinds(s), 0) <==> Harmless(Kinds(s))
    ensures |FastWalk(Kinds(s), 0)| <= |SlowWalk(Kinds(s), 0)|
  {
    KindsShaped(s);
    CountsEqualIff(Kinds(s));
    ScansAgreeIff(Kinds(s));
    CountsCompare(Kinds(s), []);
  }

  /** No `$LP$` and no five-byte code closing onto another code, in the scanned part: the scans agree. */
  lemma PlainTextAgrees(s: seq<bv8>)
    requires forall p :: 0 <= p < Limit(s) ==> !StartsAt(s, p, PAREN)
    requires forall p :: 0 <= p && p + 4 < Limit(s) && KindAt(s, p).Unicode? ==> KindAt(s, p + 4) == NoCode
    ensures FastWalk(Kinds(s), 0) == SlowWalk(Kinds(s), 0)
  {
    var ks := Kinds(s);
    forall p | 0 <= p < |ks| && ks[p] != NoCode
      ensures !ks[p].Paren? && !(ks[p].Unicode? && p + 4 < |ks| && ks[p + 4] != NoCode)
    {
      ParenStarts(s, p);
      assert ks[p] == KindAt(s, p);
    }
    FastRefinesPlain(s);
  }

  /** `$LP$` followed by sixteen dots: the plain scan counts one code, the fast scan none. */
  lemma ParenIsMissed(s: seq<bv8>)
    requires |s| == 20 && s[..4] == PAREN && forall k :: 4 <= k < 20 ==> s[k] == 0x2e
    ensures |SlowWalk(Kinds(s), 0)| == 1 && |FastWalk(Kinds(s), 0)| == 0
  {
    var ks := Kinds(s);
    assert s[0] == s[..4][0] && s[1] == s[..4][1] && s[2] == s[..4][2] && s[3] == s[..4][3];
    assert ks[0] == KindAt(s, 0) == Paren;
    assert ks[1] == KindAt(s, 1) == NoCode && ks[2] == KindAt(s, 2) == NoCode && ks[3] == KindAt(s, 3) == NoCode;
    assert ks[4] == KindAt(s, 4) == NoCode;
    assert SlowWalk(ks, 5) == [] && SlowWalk(ks, 4) == [];
    assert FastWalk(ks, 5) == [] && FastWalk(ks, 4) == [] && FastWalk(ks, 3) == [] && FastWalk(ks, 2) == [];
    assert FastWalk(ks, 1) == [];
  }

  /** A text of codes and inner characters, followed by sixteen dots, scanned up to the first dot. */
  predicate Dotted(s: seq<bv8>, head: seq<bv8>) {
    |s| == |head| + 16 && s[..|head|] == head && forall k :: |head| <= k < |s| ==> s[k] == 0x2e
  }

  lemma DottedAt(s: seq<bv8>, head: seq<bv8>, k: nat)
    requires Dotted(s, head) && k < |s|
    ensures s[k] == if k < |head| then head[k] else 0x2e
  {
    assert k < |head| ==> s[k] == s[..|head|][k];
  }

  /** `$u20$SP$`: the plain scan counts both codes, the fast scan steps over the second one's `$`. */
  lemma OverlapIsMissed(s: seq<bv8>)
    requires Dotted(s, [0x24, 0x75, 0x32, 0x30, 0x24, 0x53, 0x50, 0x24])
    ensures |SlowWalk(Kinds(s), 0)| == 2 && |FastWalk(Kinds(s), 0)| == 1
  {
    var ks, head := Kinds(s), [0x24, 0x75, 0x32, 0x30, 0x24, 0x53, 0x50, 0x24];
    forall k: nat | k < |s|
      ensures s[k] == if k < 8 then head[k] else 0x2e
    {
      DottedAt(s, head, k);
    }
    assert ks[0] == KindAt(s, 0) == Unicode && ks[4] == KindAt(s, 4) == Simple;
    assert ks[5] == KindAt(s, 5) == NoCode && ks[6] == KindAt(s, 6) == NoCode && ks[7] == KindAt(s, 7) == NoCode;
    assert ks[8] == KindAt(s, 8) == NoCode;
    assert SlowWalk(ks, 9) == [] && SlowWalk(ks, 8) == [] && SlowWalk(ks, 4) == [4];
    assert FastWalk(ks, 9) == [] && FastWalk(ks, 8) == [] && FastWalk(ks, 7) == [] && FastWalk(ks, 6) == [];
    assert FastWalk(ks, 5) == [];
  }

  /** `$LP$SP$`: each scan counts one code, but not the same one. */
  lemma MissMakesRoom(s: seq<bv8>)
    requires Dotted(s, [0x24, 0x4c, 0x50, 0x24, 0x53, 0x50, 0x24])
    ensures SlowWalk(Kinds(s), 0) == [0] && FastWalk(Kinds(s), 0) == [3]
  {
    var ks, head := Kinds(s), [0x24, 0x4c, 0x50, 0x24, 0x53, 0x50, 0x24];
    forall k: nat | k < |s|
      ensures s[k] == if k < 7 then head[k] else 0x2e
    {
      DottedAt(s, head, k);
    }
    assert ks[0] == KindAt(s, 0) == Paren && ks[3] == KindAt(s, 3) == Simple;
    assert ks[1] == KindAt(s, 1) == NoCode && ks[2] == KindAt(s, 2) == NoCode && ks[4] == KindAt(s, 4) == NoCode;
    assert ks[5] == KindAt(s, 5) == NoCode && ks[6] == KindAt(s, 6) == NoCode && ks[7] == KindAt(s, 7) == NoCode;
    assert SlowWalk(ks, 8) == [] && SlowWalk(ks, 7) == [] && SlowWalk(ks, 6) == [] && SlowWalk(ks, 5) == [];
    assert SlowWalk(ks, 4) == [];
    assert FastWalk(ks, 8) == [] && FastWalk(ks, 7) == [] && FastWalk(ks, 3) == [3] && FastWalk(ks, 2) == [3];
    assert FastWalk(ks, 1) == [3];
  }
}
