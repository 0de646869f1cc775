/** What one line of `/proc/<pid>/maps` or `/proc/<pid>/smaps` says, and the steps that read it. */
module MemoryLines {
  import opened Words
  import opened ProcText
  import opened MemoryMaps

  const KILOBYTE: nat := 1024

  /** One line of input, or a line the reader could not deliver. */
  datatype Line = Text(text: string) | Unreadable

  datatype Error = ReadFailed | BadStart(text: string) | BadEnd(text: string)

  /** What a line's words say, if they are a mapping header: malformed ones are dropped, bad addresses fatal. */
  datatype Header = NoHeader | Malformed | BadAddress(error: Error) | Good(m: Mapping)

  predicate IsHeader(parts: seq<string>) {
    |parts| >= 2 && '-' in parts[0]
  }

  function HeaderOf(parts: seq<string>): (h: Header)
    ensures h.NoHeader? <==> !IsHeader(parts)
    ensures h.Good? ==> h.m.rss.None? && h.m.pss.None?
  {
    if !IsHeader(parts) then NoHeader
    else
      var ends := SplitAt(parts[0], '-');
      if |ends| != 2 then Malformed
      else if ReadNumber(ends[0], 16).None? then BadAddress(BadStart(ends[0]))
      else if ReadNumber(ends[1], 16).None? then BadAddress(BadEnd(ends[1]))
      else
        var start, end := ReadNumber(ends[0], 16).value, ReadNumber(ends[1], 16).value;
        Good(Mapping(start, end, Less(end, start), parts[1], None, None,
                     if |parts| > 5 then Some(Join(parts[5..])) else None))
  }

  /** Subtraction in 64 bits. */
  function Less(a: nat, b: nat): nat
    requires a < WORD64 && b < WORD64
  {
    if b <= a then a - b else a + WORD64 - b
  }

  predicate StartsWith(s: string, tag: string) {
    |tag| <= |s| && s[..|tag|] == tag
  }

  /** The value a statistics line gives for `tag`, in bytes. */
  function StatOf(text: string, tag: string): Option<nat> {
    var words := SplitWords(text);
    if !StartsWith(Trim(text), tag) || |words| < 2 || ReadNumber(words[1], 10).None? then None
    else Some(Wrap(ReadNumber(words[1], 10).value * KILOBYTE, WORD64))
  }

  /** A line may open a mapping, and may give either statistic. */
  datatype Item = Item(header: Header, rss: Option<nat>, pss: Option<nat>)

  function Says(line: Line): Item {
    match line
    case Unreadable => Item(BadAddress(ReadFailed), None, None)
    case Text(text) => Item(HeaderOf(SplitWords(text)), StatOf(text, "Rss:"), StatOf(text, "Pss:"))
  }

  function AllSay(lines: seq<Line>): (items: seq<Item>)
    ensures |items| == |lines| && forall k :: 0 <= k < |lines| ==> items[k] == Says(lines[k])
  {
    seq(|lines|, k requires 0 <= k < |lines| => Says(lines[k]))
  }

  // ----- printed lines read back ---------------------------------------------------------

  /** The words of a header, with zeros in front of the addresses and whatever follows the permissions. */
  function HeaderWords(pads: (nat, nat), start: nat, end: nat, permissions: string, rest: seq<string>): seq<string> {
    [PadDigits(pads.0, start, 16) + "-" + PadDigits(pads.1, end, 16), permissions] + rest
  }

  /** A printed header reads back: addresses, permissions, the size, and the words from the sixth on as the path. */
  lemma HeaderReadsBack(pads: (nat, nat), start: nat, end: nat, permissions: string, rest: seq<string>)
    requires start <= end < WORD64
    ensures HeaderOf(HeaderWords(pads, start, end, permissions, rest)) ==
            Good(Mapping(start, end, end - start, permissions, None, None,
                         if |rest| > 3 then Some(Join(rest[3..])) else None))
  {
    var a, b := PadDigits(pads.0, start, 16), PadDigits(pads.1, end, 16);
    PaddedReadsBack(pads.0, start, 16);
    PaddedReadsBack(pads.1, end, 16);
    NamedWords(a, b, start, end, permissions, rest);
  }

  lemma NamedWords(a: string, b: string, start: nat, end: nat, permissions: string, rest: seq<string>)
    requires Names(a + "-" + b, a, b, start, end) && start <= end < WORD64
    ensures HeaderOf([a + "-" + b, permissions] + rest) ==
            Good(Mapping(start, end, end - start, permissions, None, None,
                         if |rest| > 3 then Some(Join(rest[3..])) else None))
  {
    var parts := [a + "-" + b, permissions] + rest;
    NamedReads(parts, a, b, start, end);
    if |rest| > 3 {
      assert parts[5..] == rest[3..];
    }
  }

  lemma PrintedWords(pads: (nat, nat), start: nat, end: nat, permissions: string, rest: seq<string>)
    requires IsWord(permissions) && forall k :: 0 <= k < |rest| ==> IsWord(rest[k])
    ensures forall k :: 0 <= k < |rest| + 2 ==> IsWord(HeaderWords(pads, start, end, permissions, rest)[k])
  {
    assert IsWord(PadDigits(pads.0, start, 16) + "-" + PadDigits(pads.1, end, 16));
  }

  /** The same from the text of the line, with any spaces and tabs around its words. */
  lemma LineReadsBack(gaps: seq<string>, pads: (nat, nat), start: nat, end: nat, permissions: string,
                      rest: seq<string>)
    requires start <= end < WORD64 && IsWord(permissions) && forall k :: 0 <= k < |rest| ==> IsWord(rest[k])
    requires |gaps| == |rest| + 3 && Gaps(gaps)
    ensures Says(Text(Spaced(gaps, HeaderWords(pads, start, end, permissions, rest)))).header ==
            Good(Mapping(start, end, end - start, permissions, None, None,
                         if |rest| > 3 then Some(Join(rest[3..])) else None))
  {
    PrintedWords(pads, start, end, permissions, rest);
    SpacedSplits(gaps, HeaderWords(pads, start, end, permissions, rest));
    HeaderReadsBack(pads, start, end, permissions, rest);
  }

  /** The text names a range: two addresses with one dash between them. */
  predicate Names(range: string, a: string, b: string, start: nat, end: nat) {
    range == a + "-" + b && '-' !in a && '-' !in b && ReadNumber(a, 16) == Some(start) && ReadNumber(b, 16) == Some(end)
  }

  /** A line opens a mapping only if its first word names the range of the mapping. */
  lemma GoodHeaderNames(parts: seq<string>) returns (a: string, b: string)
    requires HeaderOf(parts).Good?
    ensures var m := HeaderOf(parts).m;
            |parts| >= 2 && Names(parts[0], a, b, m.start, m.end) && m.permissions == parts[1] &&
            m.start < WORD64 && m.end < WORD64 && m.size == Wrap(m.end + WORD64 - m.start, WORD64)
  {
    SplitBack(parts[0], '-');
    a, b := SplitAt(parts[0], '-')[0], SplitAt(parts[0], '-')[1];
  }

  /** And every line whose first word names a range does. */
  lemma NamedIsGood(parts: seq<string>, a: string, b: string, start: nat, end: nat)
    requires |parts| >= 2 && Names(parts[0], a, b, start, end)
    ensures HeaderOf(parts).Good? && HeaderOf(parts).m.start == start && HeaderOf(parts).m.end == end
  {
    NamedReads(parts, a, b, start, end);
  }

  lemma NamedReads(parts: seq<string>, a: string, b: string, start: nat, end: nat)
    requires |parts| >= 2 && Names(parts[0], a, b, start, end)
    ensures start < WORD64 && end < WORD64
    ensures HeaderOf(parts) == Good(Mapping(start, end, Less(end, start), parts[1], None, None,
                                            if |parts| > 5 then Some(Join(parts[5..])) else None))
  {
    SplitOnce(a, '-', b);
    assert parts[0][|a|] == '-';
  }

  /** A hexadecimal address of 64 bits. */
  ghost predicate IsAddress(s: string) {
    exists n: nat :: n < 0x1_0000_0000_0000_0000 && Denotes(s, 16, n)
  }

  lemma AddressReads(s: string)
    ensures IsAddress(s) <==> ReadNumber(s, 16).Some?
  {
    if ReadNumber(s, 16).Some? {
      NumberReadsIff(s, 16, ReadNumber(s, 16).value);
    }
    if IsAddress(s) {
      var n: nat :| n < 0x1_0000_0000_0000_0000 && Denotes(s, 16, n);
      NumberReadsIff(s, 16, n);
    }
  }

  /** The dashes of the first word decide whether a line is no header or a malformed one, which is dropped. */
  lemma DashesDecide(parts: seq<string>)
    ensures HeaderOf(parts).NoHeader? <==> |parts| < 2 || Occurrences(parts[0], '-') == 0
    ensures HeaderOf(parts).Malformed? <==> |parts| >= 2 && Occurrences(parts[0], '-') >= 2
  {
    if |parts| >= 2 {
      PartsCount(parts[0], '-');
    }
  }

  /** With one dash the two addresses decide: the first that is none is reported, and is fatal. */
  lemma AddressesDecide(a: string, b: string, permissions: string, rest: seq<string>)
    requires '-' !in a && '-' !in b
    ensures var h := HeaderOf([a + "-" + b, permissions] + rest);
            (h.Good? <==> IsAddress(a) && IsAddress(b)) &&
            (!IsAddress(a) ==> h == BadAddress(BadStart(a))) &&
            (IsAddress(a) && !IsAddress(b) ==> h == BadAddress(BadEnd(b)))
  {
    AddressReads(a);
    AddressReads(b);
    SplitOnce(a, '-', b);
    var parts := [a + "-" + b, permissions] + rest;
    assert parts[0][|a|] == '-';
  }

  /** The other of the two statistics. */
  function OtherTag(tag: string): string {
    if tag == "Rss:" then "Pss:" else "Rss:"
  }

  lemma StartsFirstWord(text: string, tag: string)
    requires IsWord(tag)
    ensures StartsWith(text, tag) <==> StartsWith(text[..WordLength(text)], tag)
  {
    var n := WordLength(text);
    if StartsWith(text, tag) {
      assert forall k :: 0 <= k < |tag| ==> text[k] == tag[k];
      assert n >= |tag| && text[..n][..|tag|] == tag;
    }
  }

  /** A trimmed line starts with a tag exactly if its first word does. */
  lemma TagInFirstWord(text: string, tag: string)
    requires IsWord(tag)
    ensures StartsWith(Trim(text), tag) <==> SplitWords(text) != [] && StartsWith(SplitWords(text)[0], tag)
  {
    var t := Trim(text);
    TrimWords(text);
    TrimStartTrimmed(text);
    TrimEndTrimmed(TrimStart(text));
    if t != "" {
      StartsFirstWord(t, tag);
    }
  }

  /**
    What a line gives for a tag: if its first word starts with the tag and its second is a number, that
    many kilobytes.
  */
  lemma StatOfWords(text: string, tag: string)
    requires tag == "Rss:" || tag == "Pss:"
    ensures var words := SplitWords(text);
            StatOf(text, tag) ==
            if |words| >= 2 && StartsWith(words[0], tag) && ReadNumber(words[1], 10).Some?
            then Some(Wrap(ReadNumber(words[1], 10).value * 1024, WORD64)) else None
  {
    TagInFirstWord(text, tag);
  }

  /** A printed statistic gives its value in bytes to its own tag, and nothing to the other. */
  lemma StatReadsBack(gaps: seq<string>, tag: string, zeros: nat, kb: nat, unit: string)
    requires (tag == "Rss:" || tag == "Pss:") && kb < WORD64 && IsWord(unit) && |gaps| == 4 && Gaps(gaps)
    ensures var line := Spaced(gaps, [tag, PadDigits(zeros, kb, 10), unit]);
            StatOf(line, tag) == Some(Wrap(kb * 1024, WORD64)) && StatOf(line, OtherTag(tag)) == None
  {
    var words := [tag, PadDigits(zeros, kb, 10), unit];
    var line := Spaced(gaps, words);
    SpacedSplits(gaps, words);
    PaddedReadsBack(zeros, kb, 10);
    StatOfWords(line, tag);
    StatOfWords(line, OtherTag(tag));
    assert "Rss:"[0] != "Pss:"[0];
  }

  lemma TagsDiffer(s: string)
    ensures !(StartsWith(s, "Rss:") && StartsWith(s, "Pss:"))
  {
    if StartsWith(s, "Rss:") {
      assert s[..4][0] == s[0];
    }
  }

  // ----- reading a line ------------------------------------------------------------------

  /** The steps both parsers take on the words of a header. */
  method ReadHeader(parts: seq<string>) returns (header: Header)
    requires IsHeader(parts)
    ensures header == HeaderOf(parts)
  {
    var addresses := SplitAt(parts[0], '-');
    if |addresses| != 2 {
      return Malformed;
    }
    var start := ReadNumber(addresses[0], 16);
    if start.None? {
      return BadAddress(BadStart(addresses[0]));
    }
    var end := ReadNumber(addresses[1], 16);
    if end.None? {
      return BadAddress(BadEnd(addresses[1]));
    }
    var path := None;
    if |parts| > 5 {
      path := Some(Join(parts[5..]));
    }
    header := Good(Mapping(start.value, end.value, Less(end.value, start.value), parts[1], None, None, path));
  }

  /** The current mapping after a line that gives these statistics. */
  function WithGiven(m: Mapping, rss: Option<nat>, pss: Option<nat>): Mapping {
    m.(rss := if rss.Some? then rss else m.rss, pss := if pss.Some? then pss else m.pss)
  }

  /** A trimmed line gives the statistics of the line. */
  lemma TrimmedStat(text: string, tag: string)
    ensures StatOf(Trim(text), tag) == StatOf(text, tag)
  {
    TrimWords(text);
    TrimTwice(text);
  }

  /** What a line does to the statistics of the current mapping. */
  method ReadStat(line: string, parts: seq<string>, mapping: Mapping, ghost text: string) returns (m: Mapping)
    requires line == Trim(text) && parts == SplitWords(line)
    ensures m == WithGiven(mapping, StatOf(text, "Rss:"), StatOf(text, "Pss:"))
  {
    m := mapping;
    TrimTwice(text);
    TrimmedStat(text, "Rss:");
    TrimmedStat(text, "Pss:");
    TagsDiffer(line);
    if StartsWith(line, "Rss:") && |parts| >= 2 {
      var rss := ReadNumber(parts[1], 10);
      if rss.Some? {
        m := m.(rss := Some(Wrap(rss.value * KILOBYTE, WORD64)));
      }
    } else if StartsWith(line, "Pss:") && |parts| >= 2 {
      var pss := ReadNumber(parts[1], 10);
      if pss.Some? {
        m := m.(pss := Some(Wrap(pss.value * KILOBYTE, WORD64)));
      }
    }
  }
}
