/**
  The serialized form of a ring record: seven header words, then the lines, the file names, the
  names and the values. Numbers are 8-byte little-endian, strings are NUL-terminated.
*/
module RingCodec {
  import opened Words

  type int64 = x: int | -0x8000_0000_0000_0000 <= x < 0x8000_0000_0000_0000

  datatype Entry = Entry(filename: seq<byte>, name: seq<byte>, line: int64)

  datatype Record = Record(entries: seq<Entry>, values: seq<int64>)

  const HEADER: nat := 56

  // ----- words ---------------------------------------------------------------------------

  /** The low `n` bytes of a number, lowest first. */
  function LittleEndian(x: nat, n: nat): (s: seq<byte>)
    ensures |s| == n
  {
    if n == 0 then [] else [x % 256] + LittleEndian(x / 256, n - 1)
  }

  function FromLittleEndian(s: seq<byte>): nat {
    if s == [] then 0 else s[0] + 256 * FromLittleEndian(s[1..])
  }

  function Pow256(n: nat): (p: nat)
    ensures p > 0
  {
    if n == 0 then 1 else 256 * Pow256(n - 1)
  }

  lemma {:induction false} LittleEndianInverse(x: nat, n: nat)
    requires x < Pow256(n)
    ensures FromLittleEndian(LittleEndian(x, n)) == x
  {
    if n > 0 {
      assert x / 256 < Pow256(n - 1);
      LittleEndianInverse(x / 256, n - 1);
      assert LittleEndian(x, n)[1..] == LittleEndian(x / 256, n - 1);
    }
  }

  lemma Pow256Of8()
    ensures Pow256(8) == WORD64
  {
    assert Pow256(4) == WORD32;
  }

  function Word(x: nat): (s: seq<byte>)
    ensures |s| == 8
  {
    LittleEndian(x, 8)
  }

  /** Byte `k` of a word is its digit of weight `256^k`. */
  lemma {:induction false} WordBytes(x: nat, n: nat, k: nat)
    requires k < n
    ensures LittleEndian(x, n)[k] == (x / Pow256(k)) % 256
  {
    if k > 0 {
      WordBytes(x / 256, n - 1, k - 1);
      DivTwice(x, Pow256(k - 1));
    }
  }

  lemma DivTwice(x: nat, p: nat)
    requires p > 0
    ensures x / 256 / p == x / (256 * p)
  {
    var q, r := x / 256, x % 256;
    var a, b := q / p, q % p;
    assert q == a * p + b && x == q * 256 + r;
    assert x == a * (256 * p) + (b * 256 + r);
    assert b * 256 + r < 256 * p;
    ModUnique(x, 256 * p, a, b * 256 + r);
  }

  /** Two's complement of 64 bits. */
  function Signed(x: int64): (s: seq<byte>)
    ensures |s| == 8
  {
    Word(Unsigned(x))
  }

  function LoadWord(b: seq<byte>, at: nat): nat
    requires at + 8 <= |b|
  {
    FromLittleEndian(b[at..at + 8])
  }

  /** Reading eight bytes as a signed number. */
  function ToSigned(w: nat): int64 {
    var v := w % WORD64;
    if v < 0x8000_0000_0000_0000 then v else v - WORD64
  }

  /** The memory holds `part` at offset `at`. */
  predicate HasAt(b: seq<byte>, at: nat, part: seq<byte>) {
    at + |part| <= |b| && forall k :: 0 <= k < |part| ==> b[at + k] == part[k]
  }

  lemma WordLoads(b: seq<byte>, at: nat, x: nat)
    requires HasAt(b, at, Word(x)) && x < WORD64
    ensures LoadWord(b, at) == x
  {
    Pow256Of8();
    LittleEndianInverse(x, 8);
    assert b[at..at + 8] == Word(x);
  }

  function Unsigned(x: int64): (w: nat)
    ensures w < WORD64
  {
    if x < 0 then x + WORD64 else x
  }

  lemma ToSignedInverse(x: int64)
    ensures ToSigned(Unsigned(x)) == x
  {
    assert Unsigned(x) % WORD64 == Unsigned(x);
  }

  lemma SignedLoads(b: seq<byte>, at: nat, x: int64)
    requires HasAt(b, at, Signed(x))
    ensures ToSigned(LoadWord(b, at)) == x
  {
    WordLoads(b, at, Unsigned(x));
    ToSignedInverse(x);
  }

  // ----- sections ------------------------------------------------------------------------

  function SignedList(xs: seq<int64>): (s: seq<byte>)
    ensures |s| == 8 * |xs|
  {
    if xs == [] then [] else Signed(xs[0]) + SignedList(xs[1..])
  }

  function LinesSection(es: seq<Entry>): (s: seq<byte>)
    ensures |s| == 8 * |es|
  {
    if es == [] then [] else Signed(es[0].line) + LinesSection(es[1..])
  }

  /** Each file name followed by one zero byte. */
  function FilenamesSection(es: seq<Entry>): seq<byte> {
    if es == [] then [] else (es[0].filename + [0]) + FilenamesSection(es[1..])
  }

  function NamesSection(es: seq<Entry>): seq<byte> {
    if es == [] then [] else (es[0].name + [0]) + NamesSection(es[1..])
  }

  /** `serializedSize`. */
  function SerializedSize(r: Record): nat {
    HEADER + |LinesSection(r.entries)| + |FilenamesSection(r.entries)| + |NamesSection(r.entries)| +
    |SignedList(r.values)|
  }

  function Header(r: Record): (s: seq<byte>)
    ensures |s| == HEADER
  {
    var lines := HEADER;
    var filenames := lines + |LinesSection(r.entries)|;
    var names := filenames + |FilenamesSection(r.entries)|;
    var values := names + |NamesSection(r.entries)|;
    Word(SerializedSize(r)) + Word(|r.entries|) + Word(|r.values|) +
    Word(lines) + Word(filenames) + Word(names) + Word(values)
  }

  /** `serialize`. */
  function Encode(r: Record): (s: seq<byte>)
    ensures |s| == SerializedSize(r)
  {
    Header(r) + LinesSection(r.entries) + FilenamesSection(r.entries) + NamesSection(r.entries) + SignedList(r.values)
  }

  // ----- reading back --------------------------------------------------------------------

  /** `strlen` from `at`; None when no zero byte follows in readable memory. */
  function StrLen(b: seq<byte>, at: nat): (n: Option<nat>)
    decreases if at < |b| then |b| - at else 0
    ensures n.Some? ==> at + n.value < |b|
  {
    if at >= |b| then None
    else if b[at] == 0 then Some(0)
    else
      var rest := StrLen(b, at + 1);
      if rest.None? then None else Some(1 + rest.value)
  }

  lemma {:induction false} StrLenStops(b: seq<byte>, at: nat)
    requires StrLen(b, at).Some?
    ensures b[at + StrLen(b, at).value] == 0 && 0 !in b[at..at + StrLen(b, at).value]
    decreases |b| - at
  {
    if b[at] != 0 {
      StrLenStops(b, at + 1);
      var n := StrLen(b, at).value;
      assert b[at..at + n] == [b[at]] + b[at + 1..at + n];
    }
  }

  /** What has been read so far in front of what the rest of the memory yields. */
  function Prepend<T>(front: seq<T>, rest: Option<seq<T>>): Option<seq<T>> {
    if rest.None? then None else Some(front + rest.value)
  }

  lemma PrependTwice<T>(front: seq<T>, x: T, rest: Option<seq<T>>)
    ensures Prepend(front, Prepend([x], rest)) == Prepend(front + [x], rest)
  {
    if rest.Some? {
      assert front + ([x] + rest.value) == (front + [x]) + rest.value;
    }
  }

  lemma PrependNone<T>(rest: Option<seq<T>>)
    ensures Prepend([], rest) == rest
  {
    if rest.Some? {
      assert [] + rest.value == rest.value;
    }
  }

  lemma PrependLast<T>(front: seq<T>)
    ensures Prepend(front, Some([])) == Some(front)
  {
    assert front + [] == front;
  }

  function ReadSigned(b: seq<byte>, at: nat, n: nat): Option<seq<int64>>
    decreases n
  {
    if n == 0 then Some([])
    else if at + 8 > |b| then None
    else Prepend([ToSigned(LoadWord(b, at))], ReadSigned(b, at + 8, n - 1))
  }

  /** The entry under both string pointers and the line pointer. */
  function EntryAt(b: seq<byte>, f: nat, m: nat, l: nat): Option<Entry> {
    var flen, mlen := StrLen(b, f), StrLen(b, m);
    if flen.None? || mlen.None? || l + 8 > |b| then None
    else Some(Entry(b[f..f + flen.value], b[m..m + mlen.value], ToSigned(LoadWord(b, l))))
  }

  /** Entries one by one; all three pointers move on together. */
  function ReadEntries(b: seq<byte>, f: nat, m: nat, l: nat, n: nat): Option<seq<Entry>>
    decreases n
  {
    if n == 0 then Some([])
    else
      var e := EntryAt(b, f, m, l);
      if e.None? then None
      else Prepend([e.value], ReadEntries(b, f + |e.value.filename| + 1, m + |e.value.name| + 1, l + 8, n - 1))
  }

  /** `deserialize` on the memory from the record on; None when it would read past its end. */
  function Decode(b: seq<byte>): Option<Record> {
    if |b| < HEADER then None
    else
      var values := ReadSigned(b, LoadWord(b, 48), LoadWord(b, 16));
      var entries := ReadEntries(b, LoadWord(b, 32), LoadWord(b, 40), LoadWord(b, 24), LoadWord(b, 8));
      if values.None? || entries.None? then None else Some(Record(entries.value, values.value))
  }

  // ----- round trip ----------------------------------------------------------------------

  predicate NulFree(r: Record) {
    AllEntriesNulFree(r.entries)
  }

  lemma HasAtSplit(b: seq<byte>, at: nat, x: seq<byte>, y: seq<byte>)
    requires HasAt(b, at, x + y)
    ensures HasAt(b, at, x) && HasAt(b, at + |x|, y)
  {
    forall k | 0 <= k < |x|
      ensures b[at + k] == x[k]
    {
      assert (x + y)[k] == x[k];
    }
    forall k | 0 <= k < |y|
      ensures b[at + |x| + k] == y[k]
    {
      assert b[at + (|x| + k)] == (x + y)[|x| + k];
    }
  }

  lemma {:induction false} StrLenFinds(b: seq<byte>, at: nat, s: seq<byte>)
    requires 0 !in s && HasAt(b, at, s + [0])
    ensures StrLen(b, at) == Some(|s|)
    decreases |s|
  {
    assert b[at] == (s + [0])[0];
    if s != [] {
      assert s + [0] == [s[0]] + (s[1..] + [0]);
      HasAtSplit(b, at, [s[0]], s[1..] + [0]);
      assert s[0] in s;
      StrLenFinds(b, at + 1, s[1..]);
    }
  }

  lemma StringFirst(b: seq<byte>, at: nat, s: seq<byte>, rest: seq<byte>)
    requires 0 !in s && HasAt(b, at, (s + [0]) + rest)
    ensures StrLen(b, at) == Some(|s|) && b[at..at + |s|] == s && HasAt(b, at + |s| + 1, rest)
  {
    HasAtSplit(b, at, s + [0], rest);
    StrLenFinds(b, at, s);
    HasAtSplit(b, at, s, [0]);
  }

  predicate EntryNulFree(e: Entry) {
    0 !in e.filename && 0 !in e.name
  }

  predicate AllEntriesNulFree(es: seq<Entry>) {
    forall i :: 0 <= i < |es| ==> EntryNulFree(es[i])
  }

  lemma FirstEntry(b: seq<byte>, f: nat, m: nat, l: nat, e: Entry, fs: seq<byte>, ms: seq<byte>, ls: seq<byte>)
    requires EntryNulFree(e)
    requires HasAt(b, f, (e.filename + [0]) + fs) && HasAt(b, m, (e.name + [0]) + ms)
    requires HasAt(b, l, Signed(e.line) + ls)
    ensures EntryAt(b, f, m, l) == Some(e)
    ensures HasAt(b, f + |e.filename| + 1, fs) && HasAt(b, m + |e.name| + 1, ms) && HasAt(b, l + 8, ls)
  {
    StringFirst(b, f, e.filename, fs);
    StringFirst(b, m, e.name, ms);
    HasAtSplit(b, l, Signed(e.line), ls);
    SignedLoads(b, l, e.line);
  }

  /** The three sections of these entries start at these offsets. */
  predicate InPlace(b: seq<byte>, f: nat, m: nat, l: nat, es: seq<Entry>) {
    HasAt(b, f, FilenamesSection(es)) && HasAt(b, m, NamesSection(es)) && HasAt(b, l, LinesSection(es))
  }

  lemma InPlaceFirst(b: seq<byte>, f: nat, m: nat, l: nat, es: seq<Entry>, e: Entry, rest: seq<Entry>)
    requires AllEntriesNulFree(es) && InPlace(b, f, m, l, es) && es == [e] + rest
    ensures EntryAt(b, f, m, l) == Some(e) && AllEntriesNulFree(rest)
    ensures InPlace(b, f + |e.filename| + 1, m + |e.name| + 1, l + 8, rest)
  {
    assert es[1..] == rest && EntryNulFree(es[0]);
    FirstEntry(b, f, m, l, e, FilenamesSection(rest), NamesSection(rest), LinesSection(rest));
    forall i | 0 <= i < |rest|
      ensures EntryNulFree(rest[i])
    {
      assert es[i + 1] == rest[i];
    }
  }

  lemma ReadEntriesUnfold(b: seq<byte>, f: nat, m: nat, l: nat, n: nat, e: Entry, rest: seq<Entry>)
    requires n > 0 && EntryAt(b, f, m, l) == Some(e)
    requires ReadEntries(b, f + |e.filename| + 1, m + |e.name| + 1, l + 8, n - 1) == Some(rest)
    ensures ReadEntries(b, f, m, l, n) == Some([e] + rest)
  {
  }

  lemma {:induction false} EntriesRead(b: seq<byte>, f: nat, m: nat, l: nat, n: nat, es: seq<Entry>)
    requires AllEntriesNulFree(es) && InPlace(b, f, m, l, es) && n == |es|
    ensures ReadEntries(b, f, m, l, n) == Some(es)
    decreases n
  {
    if n > 0 {
      var e, rest := es[0], es[1..];
      assert es == [e] + rest;
      InPlaceFirst(b, f, m, l, es, e, rest);
      EntriesRead(b, f + |e.filename| + 1, m + |e.name| + 1, l + 8, n - 1, rest);
      ReadEntriesUnfold(b, f, m, l, n, e, rest);
    }
  }

  lemma {:induction false} SignedRead(b: seq<byte>, at: nat, xs: seq<int64>)
    requires HasAt(b, at, SignedList(xs))
    ensures ReadSigned(b, at, |xs|) == Some(xs)
    decreases |xs|
  {
    if xs != [] {
      HasAtSplit(b, at, Signed(xs[0]), SignedList(xs[1..]));
      SignedLoads(b, at, xs[0]);
      SignedRead(b, at + 8, xs[1..]);
      assert [xs[0]] + xs[1..] == xs;
    }
  }

  /** Every section, and every header word, is where the header says it is. */
  lemma SectionsInPlace(r: Record, rest: seq<byte>)
    ensures var b := Encode(r) + rest;
            var lines := HEADER;
            var filenames := lines + |LinesSection(r.entries)|;
            var names := filenames + |FilenamesSection(r.entries)|;
            var values := names + |NamesSection(r.entries)|;
            HasAt(b, 0, Header(r)) && HasAt(b, lines, LinesSection(r.entries)) &&
            HasAt(b, filenames, FilenamesSection(r.entries)) &&
            HasAt(b, names, NamesSection(r.entries)) && HasAt(b, values, SignedList(r.values)) &&
            values + |SignedList(r.values)| == SerializedSize(r)
  {
    var b := Encode(r) + rest;
    assert HasAt(b, 0, Encode(r));
    FiveInPlace(b, Header(r), LinesSection(r.entries), FilenamesSection(r.entries), NamesSection(r.entries),
                SignedList(r.values));
  }

  lemma FiveInPlace(b: seq<byte>, h: seq<byte>, l: seq<byte>, f: seq<byte>, n: seq<byte>, v: seq<byte>)
    requires HasAt(b, 0, h + l + f + n + v)
    ensures HasAt(b, 0, h) && HasAt(b, |h|, l) && HasAt(b, |h| + |l|, f) && HasAt(b, |h| + |l| + |f|, n)
    ensures HasAt(b, |h| + |l| + |f| + |n|, v)
  {
    HasAtSplit(b, 0, h + l + f + n, v);
    HasAtSplit(b, 0, h + l + f, n);
    HasAtSplit(b, 0, h + l, f);
    HasAtSplit(b, 0, h, l);
  }

  lemma HeaderLoads(r: Record, b: seq<byte>)
    requires HasAt(b, 0, Header(r)) && SerializedSize(r) < WORD64
    ensures LoadWord(b, 0) == SerializedSize(r) && LoadWord(b, 8) == |r.entries| && LoadWord(b, 16) == |r.values|
    ensures LoadWord(b, 24) == HEADER && LoadWord(b, 32) == HEADER + |LinesSection(r.entries)|
    ensures LoadWord(b, 40) == HEADER + |LinesSection(r.entries)| + |FilenamesSection(r.entries)|
    ensures LoadWord(b, 48) ==
            HEADER + |LinesSection(r.entries)| + |FilenamesSection(r.entries)| + |NamesSection(r.entries)|
  {
    var o1 := HEADER + |LinesSection(r.entries)|;
    var o2 := o1 + |FilenamesSection(r.entries)|;
    var o3 := o2 + |NamesSection(r.entries)|;
    var w0, w1, w2 := Word(SerializedSize(r)), Word(|r.entries|), Word(|r.values|);
    var w3, w4, w5, w6 := Word(HEADER), Word(o1), Word(o2), Word(o3);
    HasAtSplit(b, 0, w0 + w1 + w2 + w3 + w4 + w5, w6);
    HasAtSplit(b, 0, w0 + w1 + w2 + w3 + w4, w5);
    HasAtSplit(b, 0, w0 + w1 + w2 + w3, w4);
    HasAtSplit(b, 0, w0 + w1 + w2, w3);
    HasAtSplit(b, 0, w0 + w1, w2);
    HasAtSplit(b, 0, w0, w1);
    WordLoads(b, 0, SerializedSize(r));
    WordLoads(b, 8, |r.entries|);
    WordLoads(b, 16, |r.values|);
    WordLoads(b, 24, HEADER);
    WordLoads(b, 32, o1);
    WordLoads(b, 40, o2);
    WordLoads(b, 48, o3);
  }

  /** The decoded size is the number of bytes written, whatever follows the record in memory. */
  lemma DecodedSize(r: Record, rest: seq<byte>)
    requires SerializedSize(r) < WORD64
    ensures |Encode(r)| == SerializedSize(r) == LoadWord(Encode(r) + rest, 0)
  {
    SectionsInPlace(r, rest);
    HeaderLoads(r, Encode(r) + rest);
  }

  lemma RoundTrip(r: Record, rest: seq<byte>)
    requires SerializedSize(r) < WORD64 && NulFree(r)
    ensures Decode(Encode(r) + rest) == Some(r)
  {
    var b := Encode(r) + rest;
    SectionsInPlace(r, rest);
    HeaderLoads(r, b);
    EntriesRead(b, LoadWord(b, 32), LoadWord(b, 40), LoadWord(b, 24), |r.entries|, r.entries);
    SignedRead(b, LoadWord(b, 48), r.values);
  }

  lemma EntryAtNulFree(b: seq<byte>, f: nat, m: nat, l: nat)
    requires EntryAt(b, f, m, l).Some?
    ensures EntryNulFree(EntryAt(b, f, m, l).value)
  {
    StrLenStops(b, f);
    StrLenStops(b, m);
  }

  lemma NulFreeCons(e: Entry, rest: seq<Entry>)
    requires EntryNulFree(e) && AllEntriesNulFree(rest)
    ensures AllEntriesNulFree([e] + rest)
  {
  }

  lemma {:induction false} ReadEntriesNulFree(b: seq<byte>, f: nat, m: nat, l: nat, n: nat)
    requires ReadEntries(b, f, m, l, n).Some?
    ensures AllEntriesNulFree(ReadEntries(b, f, m, l, n).value)
    decreases n
  {
    if n > 0 {
      EntryAtNulFree(b, f, m, l);
      var e := EntryAt(b, f, m, l).value;
      ReadEntriesNulFree(b, f + |e.filename| + 1, m + |e.name| + 1, l + 8, n - 1);
      NulFreeCons(e, ReadEntries(b, f + |e.filename| + 1, m + |e.name| + 1, l + 8, n - 1).value);
    }
  }

  /** Reading back gives exactly what was pushed if and only if no string holds a zero byte. */
  lemma RoundTripIff(r: Record, rest: seq<byte>)
    requires SerializedSize(r) < WORD64
    ensures Decode(Encode(r) + rest) == Some(r) <==> NulFree(r)
  {
    var b := Encode(r) + rest;
    if NulFree(r) {
      RoundTrip(r, rest);
    } else if Decode(b) == Some(r) {
      ReadEntriesNulFree(b, LoadWord(b, 32), LoadWord(b, 40), LoadWord(b, 24), LoadWord(b, 8));
    }
  }

  // ----- the reading loops of `deserialize` ----------------------------------------------

  method ReadValues(b: seq<byte>, at: nat, n: nat) returns (out: Option<seq<int64>>)
    ensures out == ReadSigned(b, at, n)
  {
    var values: seq<int64> := [];
    PrependNone(ReadSigned(b, at, n));
    for i := 0 to n
      invariant ReadSigned(b, at, n) == Prepend(values, ReadSigned(b, at + 8 * i, n - i))
    {
      var p := at + 8 * i;
      if p + 8 > |b| {
        return None;
      }
      var x := ToSigned(LoadWord(b, p));
      PrependTwice(values, x, ReadSigned(b, p + 8, n - i - 1));
      values := values + [x];
    }
    PrependLast(values);
    out := Some(values);
  }

  method StrLenLoop(b: seq<byte>, at: nat) returns (n: Option<nat>)
    ensures n == StrLen(b, at)
  {
    var i := at;
    while i < |b| && b[i] != 0
      invariant at <= i && (i <= |b| || i == at)
      invariant StrLen(b, at) == var rest := StrLen(b, i); if rest.None? then None else Some(i - at + rest.value)
      decreases |b| - i
    {
      i := i + 1;
    }
    n := if i < |b| then Some(i - at) else None;
  }

  method LoadEntry(b: seq<byte>, f: nat, m: nat, l: nat) returns (e: Option<Entry>)
    ensures e == EntryAt(b, f, m, l)
  {
    var flen := StrLenLoop(b, f);
    var mlen := StrLenLoop(b, m);
    if flen.None? || mlen.None? || l + 8 > |b| {
      return None;
    }
    e := Some(Entry(b[f..f + flen.value], b[m..m + mlen.value], ToSigned(LoadWord(b, l))));
  }

  /** Where the three pointers stand, and how many entries are left. */
  datatype Place = Place(f: nat, m: nat, l: nat, left: nat)

  /** The entries from a place on. */
  function Rest(b: seq<byte>, at: Place): Option<seq<Entry>> {
    ReadEntries(b, at.f, at.m, at.l, at.left)
  }

  /** All three pointers behind an entry. */
  function Behind(at: Place, e: Entry): Place
    requires at.left > 0
  {
    Place(at.f + |e.filename| + 1, at.m + |e.name| + 1, at.l + 8, at.left - 1)
  }

  /** One entry, and what it leaves to be read. */
  method NextEntry(b: seq<byte>, at: Place) returns (e: Option<Entry>)
    requires at.left > 0
    ensures Rest(b, at) == if e.None? then None else Prepend([e.value], Rest(b, Behind(at, e.value)))
  {
    e := LoadEntry(b, at.f, at.m, at.l);
  }

  /** The loop over the entries, from the entries read so far. */
  method EntryLoop(b: seq<byte>, start: Place) returns (out: Option<seq<Entry>>)
    ensures out == Rest(b, start)
  {
    var entries: seq<Entry> := [];
    var at := start;
    PrependNone(Rest(b, start));
    while at.left > 0
      invariant Prepend(entries, Rest(b, at)) == Rest(b, start)
      decreases at.left
    {
      var e := NextEntry(b, at);
      if e.None? {
        return None;
      }
      PrependTwice(entries, e.value, Rest(b, Behind(at, e.value)));
      entries, at := entries + [e.value], Behind(at, e.value);
    }
    PrependLast(entries);
    out := Some(entries);
  }

  /** Both string pointers and the line index move on together, one entry a round. */
  method ReadAllEntries(b: seq<byte>, filenamesAt: nat, namesAt: nat, linesAt: nat, n: nat)
      returns (out: Option<seq<Entry>>)
    ensures out == ReadEntries(b, filenamesAt, namesAt, linesAt, n)
  {
    out := EntryLoop(b, Place(filenamesAt, namesAt, linesAt, n));
  }

  /** `RBOut::deserialize`: the record size is known even where decoding runs off the memory. */
  method Deserialize(b: seq<byte>) returns (size: nat, out: Option<Record>)
    requires |b| >= HEADER
    ensures size == LoadWord(b, 0) && out == Decode(b)
  {
    size := LoadWord(b, 0);
    var values := ReadValues(b, LoadWord(b, 48), LoadWord(b, 16));
    var entries := ReadAllEntries(b, LoadWord(b, 32), LoadWord(b, 40), LoadWord(b, 24), LoadWord(b, 8));
    out := if values.None? || entries.None? then None else Some(Record(entries.value, values.value));
  }
}
