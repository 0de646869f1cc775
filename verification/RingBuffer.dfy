/** The producer, the mirrored buffer and the consumer, as objects updated in place. */
module RingBuffer {
  import opened Words
  import opened RingCodec
  import opened RingQueue

  /** Both mappings of the buffer: window address `a` is byte `a % size`. */
  class Window {
    const size: nat
    const data: array<byte>

    ghost predicate Valid() {
      size == data.Length && size > 0
    }

    constructor (size: nat)
      requires size > 0
      ensures Valid() && fresh(data) && this.size == size
    {
      this.size := size;
      data := new byte[size](_ => 0);
    }

    /** `memcpy` to a window address. */
    method Store(at: nat, bytes: seq<byte>)
      requires Valid()
      modifies data
      ensures data[..] == Mirror(old(data[..]), at, bytes)
    {
      for k := 0 to |bytes|
        invariant data[..] == Mirror(old(data[..]), at, bytes[..k])
      {
        WrapIsMod(at + k, size);
        assert bytes[..k + 1][..k] == bytes[..k];
        data[(at + k) % size] := bytes[k];
      }
      assert bytes[..|bytes|] == bytes;
    }

    /** One more run behind those already stored from `start` on; returns the advanced pointer. */
    method Append(ptr: nat, bytes: seq<byte>, ghost was: seq<byte>, ghost start: nat, ghost stored: seq<byte>)
      returns (next: nat)
      requires Valid() && |was| == size && ptr == start + |stored| && data[..] == Mirror(was, start, stored)
      modifies data
      ensures next == ptr + |bytes| && data[..] == Mirror(was, start, stored + bytes)
    {
      Store(ptr, bytes);
      MirrorConcat(was, start, stored, bytes);
      next := ptr + |bytes|;
    }

    /** The memory from a window address to the end of the second mapping. */
    method Load(at: nat) returns (v: seq<byte>)
      requires Valid() && at <= size
      ensures v == View(data[..], at)
    {
      v := [];
      for k := 0 to 2 * size - at
        invariant |v| == k && forall j :: 0 <= j < k ==> v[j] == data[Slot(size, at, j)]
      {
        WrapIsMod(at + k, size);
        v := v + [data[(at + k) % size]];
      }
    }
  }

  /** Flattened buffers of a record under construction. */
  class RBIn {
    var lines: seq<int64>
    var filenames: seq<byte>
    var names: seq<byte>
    var values: seq<int64>
    ghost var entries: seq<Entry>

    ghost predicate Valid()
      reads this
    {
      SignedList(lines) == LinesSection(entries) && |lines| == |entries| &&
      filenames == FilenamesSection(entries) && names == NamesSection(entries)
    }

    ghost function Content(): Record
      reads this
    {
      Record(entries, values)
    }

    constructor ()
      ensures Valid() && Content() == Record([], [])
    {
      lines, filenames, names, values, entries := [], [], [], [], [];
    }

    method Push(filename: seq<byte>, name: seq<byte>, line: int64)
      requires Valid()
      modifies this
      ensures Valid() && Content() == Record(old(entries) + [Entry(filename, name, line)], old(values))
    {
      LinesAppend(entries, Entry(filename, name, line));
      FilenamesAppend(entries, Entry(filename, name, line));
      NamesAppend(entries, Entry(filename, name, line));
      SignedAppend(lines, line);
      filenames, names, lines := filenames + (filename + [0]), names + (name + [0]), lines + [line];
      entries := entries + [Entry(filename, name, line)];
    }

    method Clear()
      modifies this
      ensures Valid() && Content() == Record([], [])
    {
      lines, filenames, names, values, entries := [], [], [], [], [];
    }

    method TotalSize() returns (n: nat)
      requires Valid()
      ensures n == SerializedSize(Content())
    {
      n := 8 * 7;
      n := n + 8 * |lines|;
      n := n + |filenames|;
      n := n + |names|;
      n := n + |values| * 8;
    }

    /** The header words: record size, entry and value counts, the four section offsets. */
    method HeaderWords() returns (header: seq<byte>)
      requires Valid()
      ensures header == Header(Content())
    {
      var size := TotalSize();
      var filenamesAt := HEADER + 8 * |lines|;
      var namesAt := filenamesAt + |filenames|;
      var valuesAt := namesAt + |names|;
      header := Word(size) + Word(|lines|) + Word(|values|) +
                Word(HEADER) + Word(filenamesAt) + Word(namesAt) + Word(valuesAt);
    }

    /** Header and four sections, the write pointer moving on after each. */
    method Serialize(w: Window, at: nat)
      requires Valid() && w.Valid()
      modifies w.data
      ensures w.data[..] == Mirror(old(w.data[..]), at, Encode(Content()))
    {
      ghost var d := w.data[..];
      var h := HeaderWords();
      ghost var s1 := h + SignedList(lines);
      ghost var s2 := s1 + filenames;
      ghost var s3 := s2 + names;
      var ptr := w.Append(at, h, d, at, []);
      assert [] + h == h;
      ptr := w.Append(ptr, SignedList(lines), d, at, h);
      ptr := w.Append(ptr, filenames, d, at, s1);
      ptr := w.Append(ptr, names, d, at, s2);
      ptr := w.Append(ptr, SignedList(values), d, at, s3);
      assert Encode(Content()) == s3 + SignedList(values);
    }
  }

  lemma {:induction false} SignedAppend(xs: seq<int64>, x: int64)
    ensures SignedList(xs + [x]) == SignedList(xs) + Signed(x)
  {
    if xs == [] {
      assert SignedList([x]) == Signed(x) + [];
    } else {
      assert (xs + [x])[1..] == xs[1..] + [x];
      SignedAppend(xs[1..], x);
    }
  }

  lemma {:induction false} LinesAppend(es: seq<Entry>, e: Entry)
    ensures LinesSection(es + [e]) == LinesSection(es) + Signed(e.line)
  {
    if es == [] {
      assert LinesSection([e]) == Signed(e.line) + [];
    } else {
      assert (es + [e])[1..] == es[1..] + [e];
      LinesAppend(es[1..], e);
    }
  }

  lemma {:induction false} FilenamesAppend(es: seq<Entry>, e: Entry)
    ensures FilenamesSection(es + [e]) == FilenamesSection(es) + (e.filename + [0])
  {
    if es == [] {
      assert FilenamesSection([e]) == (e.filename + [0]) + [];
    } else {
      assert (es + [e])[1..] == es[1..] + [e];
      FilenamesAppend(es[1..], e);
    }
  }

  lemma {:induction false} NamesAppend(es: seq<Entry>, e: Entry)
    ensures NamesSection(es + [e]) == NamesSection(es) + (e.name + [0])
  {
    if es == [] {
      assert NamesSection([e]) == (e.name + [0]) + [];
    } else {
      assert (es + [e])[1..] == es[1..] + [e];
      NamesAppend(es[1..], e);
    }
  }

  /** An admitted write, from the bytes it stores. */
  lemma WriteRingIs(r: Ring, rec: Record, data: seq<byte>)
    requires ValidRing(r) && Admits(r, SerializedSize(rec)) && data == Mirror(r.data, r.write, Encode(rec))
    ensures WriteRing(r, rec) == Ring(data, r.read, Wrap(r.write + SerializedSize(rec), |r.data|))
    ensures ValidRing(WriteRing(r, rec))
  {
  }

  /** A read, from the size and the record that decoding found. */
  lemma ReadRingIs(r: Ring, size: nat, record: Option<Record>)
    requires ValidRing(r) && r.read != r.write
    requires size == LoadWord(View(r.data, r.read), 0) && record == Decode(View(r.data, r.read))
    ensures ReadRing(r) == (r.(read := Wrap(r.read + size, |r.data|)),
                            if record.Some? then Delivered(record.value) else Fault)
  {
  }

  class RingBuffer {
    const size: nat
    const window: Window
    var readPos: nat
    var writePos: nat

    ghost predicate Valid()
      reads this, window.data
    {
      window.Valid() && window.size == size && ValidRing(Snapshot())
    }

    ghost function Snapshot(): Ring
      reads this, window.data
    {
      Ring(window.data[..], readPos, writePos)
    }

    /** The size is rounded up to whole pages; the two mappings must fit the address range. */
    constructor (requested: nat)
      requires 0 < requested <= WORD64 / 2 - 4096
      ensures Valid() && fresh(window) && fresh(window.data) && Holds(Snapshot(), [])
      ensures size % 4096 == 0 && requested <= size < requested + 4096
    {
      size := (requested + 4095) / 4096 * 4096;
      window := new Window((requested + 4095) / 4096 * 4096);
      readPos, writePos := 0, 0;
      new;
      EmptyHolds(window.data[..]);
    }

    /** Whole operation: nobody else moves the write position between the load and the exchange. */
    method Write(entry: RBIn) returns (ok: bool)
      requires Valid() && entry.Valid()
      modifies this`writePos, window.data
      ensures Valid() && Snapshot() == WriteRing(old(Snapshot()), old(entry.Content()))
      ensures ok == Admits(old(Snapshot()), SerializedSize(old(entry.Content())))
    {
      var serialized := entry.TotalSize();
      var nextWrite := writePos + serialized;
      if !(nextWrite < readPos + size) {
        return false;
      }
      var saved := writePos;
      WrapIsMod(nextWrite, size);
      writePos := nextWrite % size;
      entry.Serialize(window, saved);
      WriteRingIs(old(Snapshot()), entry.Content(), window.data[..]);
      ok := true;
    }

    /** Decodes the record at the read position and steps over it. */
    method Read() returns (out: Outcome)
      requires Valid()
      modifies this`readPos
      ensures Valid() && (Snapshot(), out) == ReadRing(old(Snapshot()))
    {
      if readPos == writePos {
        return Nothing;
      }
      var memory := window.Load(readPos);
      var serialized, record := Deserialize(memory);
      ReadRingIs(Snapshot(), serialized, record);
      WrapIsMod(readPos + serialized, size);
      readPos := (readPos + serialized) % size;
      out := if record.Some? then Delivered(record.value) else Fault;
    }
  }
}
