/**
  The parsers of `/proc/<pid>/maps` and `/proc/<pid>/smaps`: what a sequence of lines means, the two
  loops that read it, and their agreement.
*/
module MemoryParser {
  import opened Words
  import opened ProcText
  import opened MemoryMaps
  import opened MemoryLines

  datatype Parsed = Mappings(ms: seq<Mapping>) | Failed(error: Error)

  function Prepend(m: Mapping, r: Parsed): Parsed {
    match r
    case Mappings(ms) => Mappings([m] + ms)
    case Failed(_) => r
  }

  function After(ms: seq<Mapping>, r: Parsed): Parsed {
    match r
    case Mappings(rest) => Mappings(ms + rest)
    case Failed(_) => r
  }

  // ----- what the lines from `i` on mean -------------------------------------------------

  /** The mappings of the good headers, in order, up to the first fatal line. */
  function Headers(items: seq<Item>, i: nat): Parsed
    requires i <= |items|
    decreases |items| - i
  {
    if i == |items| then Mappings([])
    else
      match items[i].header
      case NoHeader => Headers(items, i + 1)
      case Malformed => Headers(items, i + 1)
      case BadAddress(error) => Failed(error)
      case Good(m) => Prepend(m, Headers(items, i + 1))
  }

  datatype Stat = Rss | Pss

  function Given(item: Item, stat: Stat): Option<nat> {
    if stat.Rss? then item.rss else item.pss
  }

  /** The last value given for `stat` by the lines from `lo` up to `hi`. */
  function LastStat(items: seq<Item>, lo: nat, hi: nat, stat: Stat): Option<nat>
    requires lo <= hi <= |items|
  {
    if lo == hi then None
    else if Given(items[hi - 1], stat).Some? then Given(items[hi - 1], stat)
    else LastStat(items, lo, hi - 1, stat)
  }

  predicate NoneGiven(items: seq<Item>, lo: nat, hi: nat, stat: Stat) {
    hi <= |items| && forall j :: lo <= j < hi ==> Given(items[j], stat).None?
  }

  /** `LastStat` is absent only if no line in the range gives a value, */
  lemma {:induction false} LastStatNone(items: seq<Item>, lo: nat, hi: nat, stat: Stat)
    requires lo <= hi <= |items|
    ensures LastStat(items, lo, hi, stat).None? <==> NoneGiven(items, lo, hi, stat)
  {
    if lo < hi {
      LastStatNone(items, lo, hi - 1, stat);
    }
  }

  /** and otherwise is the value of the last line that gives one. */
  lemma {:induction false} LastStatSome(items: seq<Item>, lo: nat, hi: nat, stat: Stat) returns (k: nat)
    requires lo <= hi <= |items| && LastStat(items, lo, hi, stat).Some?
    ensures lo <= k < hi && LastStat(items, lo, hi, stat) == Given(items[k], stat) && NoneGiven(items, k + 1, hi, stat)
  {
    if Given(items[hi - 1], stat).Some? {
      k := hi - 1;
    } else {
      k := LastStatSome(items, lo, hi - 1, stat);
    }
  }

  /** The first line from `i` on that is a header, good or not, or cannot be read. */
  function NextHeader(items: seq<Item>, i: nat): (n: nat)
    requires i <= |items|
    ensures i <= n <= |items| && (forall k :: i <= k < n ==> items[k].header.NoHeader?)
    ensures n < |items| ==> !items[n].header.NoHeader?
    decreases |items| - i
  {
    if i == |items| || !items[i].header.NoHeader? then i else NextHeader(items, i + 1)
  }

  /** The mapping of header `i` with the statistics of the lines from `i + 1` up to `hi`. */
  function WithStats(m: Mapping, items: seq<Item>, i: nat, hi: nat): Mapping
    requires i < hi <= |items|
  {
    m.(rss := LastStat(items, i + 1, hi, Rss), pss := LastStat(items, i + 1, hi, Pss))
  }

  /** As `Headers`, every mapping with the statistics of the lines up to the next header. */
  function Described(items: seq<Item>, i: nat): Parsed
    requires i <= |items|
    decreases |items| - i
  {
    if i == |items| then Mappings([])
    else
      match items[i].header
      case NoHeader => Described(items, i + 1)
      case Malformed => Described(items, i + 1)
      case BadAddress(error) => Failed(error)
      case Good(m) => Prepend(WithStats(m, items, i, NextHeader(items, i + 1)), Described(items, i + 1))
  }

  // ----- agreement of the two parsers ----------------------------------------------------

  function Erase(m: Mapping): Mapping {
    m.(rss := None, pss := None)
  }

  function EraseAll(ms: seq<Mapping>): (r: seq<Mapping>)
    ensures |r| == |ms| && forall k :: 0 <= k < |ms| ==> r[k] == Erase(ms[k])
  {
    seq(|ms|, k requires 0 <= k < |ms| => Erase(ms[k]))
  }

  function ErasedResult(r: Parsed): Parsed {
    match r
    case Mappings(ms) => Mappings(EraseAll(ms))
    case Failed(_) => r
  }

  lemma ErasePrepend(m: Mapping, r: Parsed)
    ensures ErasedResult(Prepend(m, r)) == Prepend(Erase(m), ErasedResult(r))
  {
    if r.Mappings? {
      assert EraseAll([m] + r.ms) == [Erase(m)] + EraseAll(r.ms);
    }
  }

  /** A header itself gives no statistics. */
  predicate Bare(items: seq<Item>) {
    forall k :: 0 <= k < |items| && items[k].header.Good? ==> Erase(items[k].header.m) == items[k].header.m
  }

  lemma HeadersAreBare(lines: seq<Line>)
    ensures Bare(AllSay(lines))
  {
    forall k | 0 <= k < |lines| && Says(lines[k]).header.Good?
      ensures Erase(Says(lines[k]).header.m) == Says(lines[k]).header.m
    {
    }
  }

  lemma {:induction false} ResultsAgree(items: seq<Item>, i: nat)
    requires i <= |items| && Bare(items)
    ensures ErasedResult(Described(items, i)) == Headers(items, i)
    decreases |items| - i
  {
    if i == |items| {
      assert EraseAll([]) == [];
    } else {
      ResultsAgree(items, i + 1);
      if items[i].header.Good? {
        var m := WithStats(items[i].header.m, items, i, NextHeader(items, i + 1));
        ErasePrepend(m, Described(items, i + 1));
        assert Erase(m) == items[i].header.m;
      }
    }
  }

  /** With the statistics erased, one parser's result is the other's: mappings, order and failure. */
  lemma ParsersAgree(lines: seq<Line>)
    ensures ErasedResult(Described(AllSay(lines), 0)) == Headers(AllSay(lines), 0)
  {
    HeadersAreBare(lines);
    ResultsAgree(AllSay(lines), 0);
  }

  // ----- the maps parser -----------------------------------------------------------------

  lemma AfterPrepend(ms: seq<Mapping>, m: Mapping, r: Parsed)
    ensures After(ms, Prepend(m, r)) == After(ms + [m], r)
  {
    if r.Mappings? {
      assert ms + ([m] + r.ms) == (ms + [m]) + r.ms;
    }
  }

  /** One line of the loop. */
  method ReadMapsLine(line: Line, stats: MemoryStats) returns (error: Option<Error>)
    modifies stats`mappings
    ensures match Says(line).header
            case BadAddress(e) => error == Some(e)
            case Good(m) => error == None && stats.mappings == old(stats.mappings) + [m]
            case _ => error == None && stats.mappings == old(stats.mappings)
  {
    if line.Unreadable? {
      return Some(ReadFailed);
    }
    error := None;
    var parts := SplitWords(line.text);
    if |parts| < 2 || '-' !in parts[0] {
      return;
    }
    var header := ReadHeader(parts);
    if header.BadAddress? {
      error := Some(header.error);
    } else if header.Good? {
      stats.mappings := stats.mappings + [header.m];
    }
  }

  /** The loop over the lines. */
  method ReadMaps(lines: seq<Line>, stats: MemoryStats, ghost items: seq<Item>) returns (error: Option<Error>)
    requires stats.mappings == [] && items == AllSay(lines)
    modifies stats`mappings
    ensures Headers(items, 0) == if error.None? then Mappings(stats.mappings) else Failed(error.value)
  {
    error := None;
    for i := 0 to |lines|
      invariant error.None? && After(stats.mappings, Headers(items, i)) == Headers(items, 0)
    {
      if items[i].header.Good? {
        AfterPrepend(stats.mappings, items[i].header.m, Headers(items, i + 1));
      }
      error := ReadMapsLine(lines[i], stats);
      if error.Some? {
        return;
      }
    }
  }

  method ParseMaps(lines: seq<Line>) returns (stats: MemoryStats, error: Option<Error>)
    ensures fresh(stats) && stats.Built()
    ensures Headers(AllSay(lines), 0) == if error.None? then Mappings(stats.mappings) else Failed(error.value)
  {
    stats := new MemoryStats();
    error := ReadMaps(lines, stats, AllSay(lines));
    stats.BuildHistogram();
  }

  // ----- the smaps parser ----------------------------------------------------------------

  /** No line from `lo` up to `hi` is a header. */
  predicate Quiet(items: seq<Item>, lo: nat, hi: nat) {
    hi <= |items| && forall k :: lo <= k < hi ==> items[k].header.NoHeader?
  }

  lemma {:induction false} QuietSkips(items: seq<Item>, lo: nat, hi: nat)
    requires lo <= hi && Quiet(items, lo, hi)
    ensures Described(items, lo) == Described(items, hi) && NextHeader(items, lo) == NextHeader(items, hi)
    decreases hi - lo
  {
    if lo < hi {
      QuietSkips(items, lo + 1, hi);
    }
  }

  /**
    The loop state before line `i`: the saved mappings, and the current mapping, if any, opened by
    header `h` and holding the statistics seen since.
  */
  ghost predicate Reading(items: seq<Item>, i: nat, ms: seq<Mapping>, current: Option<Mapping>, h: nat) {
    i <= |items| &&
    if current.None? then After(ms, Described(items, i)) == Described(items, 0)
    else h < i && items[h].header.Good? && Quiet(items, h + 1, i) &&
         current.value == WithStats(items[h].header.m, items, h, i) &&
         After(ms, Described(items, h)) == Described(items, 0)
  }

  /** The same, or a fatal line has been met. */
  ghost predicate LoopState(items: seq<Item>, i: nat, ms: seq<Mapping>, current: Option<Mapping>, h: nat,
                            error: Option<Error>) {
    if error.None? then Reading(items, i, ms, current, h) else Described(items, 0) == Failed(error.value)
  }

  /** Saving the current mapping when a header or the end is reached. */
  lemma Saves(items: seq<Item>, i: nat, ms: seq<Mapping>, m: Mapping, h: nat)
    requires Reading(items, i, ms, Some(m), h) && (i < |items| ==> !items[i].header.NoHeader?)
    ensures Reading(items, i, ms + [m], None, h)
  {
    QuietSkips(items, h + 1, i);
    AfterPrepend(ms, m, Described(items, i));
  }

  lemma Fails(items: seq<Item>, i: nat, ms: seq<Mapping>, current: Option<Mapping>, h: nat)
    requires Reading(items, i, ms, current, h) && i < |items| && items[i].header.BadAddress?
    ensures Described(items, 0) == Failed(items[i].header.error)
  {
    if current.Some? {
      Saves(items, i, ms, current.value, h);
    }
  }

  lemma Drops(items: seq<Item>, i: nat, ms: seq<Mapping>, h: nat)
    requires Reading(items, i, ms, None, h) && i < |items|
    requires items[i].header.Malformed? || items[i].header.NoHeader?
    ensures Reading(items, i + 1, ms, None, h)
  {
  }

  lemma Opens(items: seq<Item>, i: nat, ms: seq<Mapping>, h: nat)
    requires Reading(items, i, ms, None, h) && i < |items| && items[i].header.Good? && Bare(items)
    ensures Reading(items, i + 1, ms, Some(items[i].header.m), i)
  {
    assert LastStat(items, i + 1, i + 1, Rss) == None && LastStat(items, i + 1, i + 1, Pss) == None;
  }

  lemma Advances(items: seq<Item>, i: nat, ms: seq<Mapping>, m: Mapping, h: nat)
    requires Reading(items, i, ms, Some(m), h) && i < |items| && items[i].header.NoHeader?
    ensures Reading(items, i + 1, ms, Some(WithGiven(m, items[i].rss, items[i].pss)), h)
  {
  }

  /** Any other line: a statistic of the current mapping, if there is one. */
  method ReadOtherLine(ghost items: seq<Item>, ghost i: nat, ghost text: string, line: string, parts: seq<string>,
                       last: Option<Mapping>, ghost ms: seq<Mapping>, ghost h: nat)
      returns (current: Option<Mapping>)
    requires Reading(items, i, ms, last, h) && i < |items| && items[i] == Says(Text(text)) && items[i].header.NoHeader?
    requires line == Trim(text) && parts == SplitWords(line)
    ensures Reading(items, i + 1, ms, current, h)
  {
    current := last;
    if last.Some? {
      Advances(items, i, ms, last.value, h);
      var mapping := ReadStat(line, parts, last.value, text);
      current := Some(mapping);
    } else {
      Drops(items, i, ms, h);
    }
  }

  /** A header line: the current mapping is saved, then the header opens a new one, is dropped, or is fatal. */
  method ReadHeaderLine(ghost items: seq<Item>, ghost i: nat, parts: seq<string>, stats: MemoryStats,
                        last: Option<Mapping>, ghost h: nat)
      returns (current: Option<Mapping>, error: Option<Error>)
    requires Reading(items, i, stats.mappings, last, h) && Bare(items)
    requires i < |items| && IsHeader(parts) && items[i].header == HeaderOf(parts)
    modifies stats`mappings
    ensures LoopState(items, i + 1, stats.mappings, current, i, error)
  {
    if last.Some? {
      Saves(items, i, stats.mappings, last.value, h);
      stats.mappings := stats.mappings + [last.value];
    }
    current, error := None, None;
    var header := ReadHeader(parts);
    if header.BadAddress? {
      Fails(items, i, stats.mappings, None, h);
      error := Some(header.error);
    } else if header.Good? {
      Opens(items, i, stats.mappings, h);
      current := Some(header.m);
    } else {
      Drops(items, i, stats.mappings, h);
    }
  }

  /** One line of the loop; `open` is the line of the current mapping's header. */
  method ReadLine(line: Line, ghost items: seq<Item>, ghost i: nat, stats: MemoryStats, last: Option<Mapping>,
                  ghost h: nat)
      returns (current: Option<Mapping>, error: Option<Error>, ghost open: nat)
    requires Reading(items, i, stats.mappings, last, h) && Bare(items) && i < |items| && items[i] == Says(line)
    modifies stats`mappings
    ensures LoopState(items, i + 1, stats.mappings, current, open, error)
  {
    if line.Unreadable? {
      Fails(items, i, stats.mappings, last, h);
      return last, Some(ReadFailed), h;
    }
    TrimWords(line.text);
    var trimmed := Trim(line.text);
    var parts := SplitWords(trimmed);
    if |parts| >= 2 && '-' in parts[0] {
      current, error := ReadHeaderLine(items, i, parts, stats, last, h);
      open := i;
    } else {
      current := ReadOtherLine(items, i, line.text, trimmed, parts, last, stats.mappings, h);
      error, open := None, h;
    }
  }

  /** After the last line the current mapping is saved. */
  method SaveLast(ghost items: seq<Item>, stats: MemoryStats, last: Option<Mapping>, ghost h: nat)
    requires Reading(items, |items|, stats.mappings, last, h)
    modifies stats`mappings
    ensures Described(items, 0) == Mappings(stats.mappings)
  {
    if last.Some? {
      Saves(items, |items|, stats.mappings, last.value, h);
      stats.mappings := stats.mappings + [last.value];
    }
    assert stats.mappings + [] == stats.mappings;
  }

  lemma Starts(items: seq<Item>)
    ensures Reading(items, 0, [], None, 0)
  {
    if Described(items, 0).Mappings? {
      assert [] + Described(items, 0).ms == Described(items, 0).ms;
    }
  }

  /** The loop over the lines; the last mapping is saved after it. */
  method ReadSmaps(lines: seq<Line>, stats: MemoryStats, ghost items: seq<Item>) returns (error: Option<Error>)
    requires stats.mappings == [] && items == AllSay(lines) && Bare(items)
    modifies stats`mappings
    ensures Described(items, 0) == if error.None? then Mappings(stats.mappings) else Failed(error.value)
  {
    error := None;
    var current := None;
    ghost var h := 0;
    Starts(items);
    var i := 0;
    while i < |lines| && error.None?
      invariant i <= |lines| && LoopState(items, i, stats.mappings, current, h, error)
    {
      current, error, h := ReadLine(lines[i], items, i, stats, current, h);
      i := i + 1;
    }
    if error.None? {
      SaveLast(items, stats, current, h);
    }
  }

  method ParseSmaps(lines: seq<Line>) returns (stats: MemoryStats, error: Option<Error>)
    ensures fresh(stats) && stats.Built()
    ensures Described(AllSay(lines), 0) == if error.None? then Mappings(stats.mappings) else Failed(error.value)
  {
    HeadersAreBare(lines);
    stats := new MemoryStats();
    error := ReadSmaps(lines, stats, AllSay(lines));
    stats.BuildHistogram();
  }
}
