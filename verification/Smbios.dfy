/**
 * Walking a table of SMBIOS structures (libraries/smbios-parser/smbios.c; sections 6.1.2 and 6.1.3
 * of DMTF DSP0134 for the layout of a structure and its strings).
 */
module Smbios {
  import opened Common

  type byte = x: int | 0 <= x < 256

  const HEADER_SIZE := 4
  const END_OF_TABLE: byte := 127

  datatype Status = Ok | InvalidData | EndOfStream

  /** Offsets into the data stand for the pointers of the source. */
  datatype Entry = Entry(kind: byte, length: byte, handle: nat, raw: nat, strings: nat, stringCount: nat)

  const NO_ENTRY := Entry(0, 0, 0, 0, 0, 0)

  datatype Context = Context(
    data: seq<byte>,
    start: Option<nat>, end: Option<nat>, ptr: nat,
    entry: Entry, failed: bool)

  /** Types whose fields are decoded. */
  predicate Decoded(kind: byte) {
    kind in {0, 1, 2, 3, 4, 8, 9, 11, 16, 17, 19, 20, 32, 34, 35, 36, 41}
  }

  // --- Reading fields ------------------------------------------------------------------

  /** A read that would reach the end of the structure fails and stays where it is. */
  function Read(c: Context, n: nat): Context
    requires c.end.Some?
  {
    if c.ptr + n >= c.end.value then c.(failed := true) else c.(ptr := c.ptr + n)
  }

  function ReadAll(c: Context, widths: seq<nat>): (r: Context)
    requires c.end.Some?
    ensures r == c.(ptr := r.ptr, failed := r.failed) && (c.failed ==> r.failed)
    decreases |widths|
  {
    if widths == [] then c else ReadAll(Read(c, widths[0]), widths[1..])
  }

  function Sum(widths: seq<nat>): nat { if widths == [] then 0 else widths[0] + Sum(widths[1..]) }

  /** Decoding succeeds exactly when all the fields together end before the structure's last byte. */
  lemma {:induction false} DecodingFailsIff(c: Context, widths: seq<nat>)
    requires c.end.Some? && !c.failed
    ensures ReadAll(c, widths).failed <==> widths != [] && c.ptr + Sum(widths) >= c.end.value
    ensures !ReadAll(c, widths).failed ==> ReadAll(c, widths).ptr == c.ptr + Sum(widths)
    decreases |widths|
  {
    if widths != [] && c.ptr + widths[0] < c.end.value {
      DecodingFailsIff(Read(c, widths[0]), widths[1..]);
    }
  }

  // --- The walk ------------------------------------------------------------------------

  /** Where the scan over the strings stops, its run of nulls, and the strings it counted. */
  datatype Scanned = Scanned(end: nat, nulls: nat, count: nat)

  /** Looks for two nulls in a row. */
  function Scan(data: seq<byte>, at: nat, nulls: nat, count: nat): (r: Scanned)
    requires nulls <= 1
    ensures r.nulls <= 2 && r.end >= at && (r.nulls == 2 ==> at < r.end <= |data|)
    ensures r.nulls == 2 && nulls == 0 ==> at + 2 <= r.end && data[r.end - 1] == 0 && data[r.end - 2] == 0
    ensures r.nulls == 2 && nulls == 1 ==> data[r.end - 1] == 0
    decreases |data| - at
  {
    if at >= |data| then Scanned(at, nulls, count)
    else if data[at] != 0 then Scan(data, at + 1, 0, count)
    else if nulls > 0 then Scanned(at + 1, 2, count)
    else Scan(data, at + 1, 1, count + 1)
  }

  /** The first byte of the next structure. */
  function NextStart(c: Context): nat
    requires Positioned(c)
  {
    if c.start.None? then 0 else c.end.value
  }

  /** Only before the first structure is there no end to go on from. */
  predicate Positioned(c: Context) { c.start.Some? ==> c.end.Some? }

  function Header(data: seq<byte>, at: nat): Entry
    requires at + HEADER_SIZE <= |data|
  {
    var low: int, high: int := data[at + 2], data[at + 3];
    Entry(data[at], data[at + 1], low + 256 * high, at, at + data[at + 1], 0)
  }

  function Reset(c: Context): (Context, Status) {
    if c.failed then (c, InvalidData) else (c.(ptr := 0, start := None, end := None), Ok)
  }

  /**
   * smbios_next; fields are the widths a decoded structure is read in. A stretch that is skipped without
   * a check counts with the field behind it, or not at all when it is the last.
   */
  function Next(c: Context, fields: seq<nat>): (Context, Status)
    requires Positioned(c)
  {
    if c.failed then (c, InvalidData) else
      var at := NextStart(c);
      var begun := c.(start := Some(at), ptr := at, entry := NO_ENTRY);
      if at + HEADER_SIZE >= |c.data| then (begun, InvalidData) else
        var header := Header(c.data, at);
        var scanned := Scan(c.data, header.strings, 0, 0);
        var found := begun.(ptr := at + HEADER_SIZE, end := Some(scanned.end),
                            entry := header.(stringCount := scanned.count));
        if scanned.nulls != 2 then (found, InvalidData)
        else if header.kind == END_OF_TABLE then (Reset(found).0, EndOfStream)
        else
          Finish(found, fields)
  }

  function Finish(found: Context, fields: seq<nat>): (Context, Status)
    requires found.end.Some?
  {
    var decoded := if Decoded(found.entry.kind) then ReadAll(found, fields) else found;
    (decoded, if decoded.failed then InvalidData else Ok)
  }

  /** A step that succeeds moves the end on, by two bytes at least, and keeps it within the data. */
  lemma SuccessAdvances(c: Context, fields: seq<nat>)
    requires Positioned(c) && Next(c, fields).1 == Ok
    ensures
      var after := Next(c, fields).0;
      Positioned(after) && after.data == c.data && after.end.Some? && after.start == Some(NextStart(c)) &&
      NextStart(c) + 2 <= NextStart(after) == after.end.value <= |c.data|
  {
  }

  /** Only a first step on data too short for a header leaves no position to go on from. */
  lemma PositionedIff(c: Context, fields: seq<nat>)
    requires Positioned(c)
    ensures Positioned(Next(c, fields).0) <==>
      c.failed || c.start.Some? || c.end.Some? || HEADER_SIZE < |c.data|
  {
  }

  /** What fails keeps failing: no later step succeeds without a reset. */
  lemma FailureStays(c: Context, fields: seq<nat>, later: seq<nat>)
    requires Positioned(c) && Next(c, fields).1 == InvalidData && Positioned(Next(c, fields).0)
    ensures Next(Next(c, fields).0, later).1 == InvalidData
  {
    var (after, _) := Next(c, fields);
    if !c.failed && NextStart(c) + HEADER_SIZE < |c.data| && !after.failed {
      ScanRunsOut(c.data, Header(c.data, NextStart(c)).strings, 0, 0);
    }
  }

  lemma {:induction false} ScanRunsOut(data: seq<byte>, at: nat, nulls: nat, count: nat)
    requires nulls <= 1
    ensures Scan(data, at, nulls, count).nulls != 2 ==> Scan(data, at, nulls, count).end >= |data|
    decreases |data| - at
  {
    if at < |data| && data[at] != 0 {
      ScanRunsOut(data, at + 1, 0, count);
    } else if at < |data| && nulls == 0 {
      ScanRunsOut(data, at + 1, 1, count + 1);
    }
  }

  datatype Call = CallNext(fields: seq<nat>) | CallReset

  /** What the calls answer, as long as there is a position to call from. */
  function Answers(c: Context, calls: seq<Call>): seq<Status>
    decreases |calls|
  {
    if calls == [] || !Positioned(c) then [] else
      var (after, status) := match calls[0] case CallNext(fields) => Next(c, fields) case CallReset => Reset(c);
      [status] + Answers(after, calls[1..])
  }

  /** After a decoding failure no sequence of calls ever answers Ok again, resets or not. */
  lemma {:induction false} NeverOkAgain(c: Context, calls: seq<Call>)
    requires Positioned(c) && c.failed
    ensures |Answers(c, calls)| == |calls| && forall i :: 0 <= i < |calls| ==> Answers(c, calls)[i] == InvalidData
    decreases |calls|
  {
    if calls != [] {
      NeverOkAgain(c, calls[1..]);
    }
  }

  /**
   * After a step a reset fails if and only if the structure was complete, with two nulls behind it, but
   * its fields were not: data that ends too early does not keep a parser from starting over.
   */
  lemma ResetFailsIff(c: Context, fields: seq<nat>)
    requires Positioned(c) && !c.failed
    ensures Reset(Next(c, fields).0).1 == InvalidData <==>
      NextStart(c) + HEADER_SIZE < |c.data| && fields != [] &&
      var header := Header(c.data, NextStart(c));
      var scanned := Scan(c.data, header.strings, 0, 0);
      scanned.nulls == 2 && Decoded(header.kind) && NextStart(c) + HEADER_SIZE + Sum(fields) >= scanned.end
  {
    if NextStart(c) + HEADER_SIZE < |c.data| {
      var at, header := NextStart(c), Header(c.data, NextStart(c));
      var scanned := Scan(c.data, header.strings, 0, 0);
      DecodingFailsIff(
        Context(c.data, Some(at), Some(scanned.end), at + HEADER_SIZE, header.(stringCount := scanned.count), false), fields);
    }
  }

  /** After any other failure, and in the middle of a table, a reset lets the parser start over. */
  lemma ResetStartsOver(c: Context, fields: Fields)
    requires !c.failed
    ensures
      var (after, status) := Reset(c);
      status == Ok && Positioned(after) &&
      Walk(after, fields) == Walk(Context(c.data, None, None, 0, NO_ENTRY, false), fields)
  {
    var begun := Context(c.data, None, None, 0, NO_ENTRY, false);
    assert Next(Reset(c).0, fields(0)) == Next(begun, fields(0));
  }

  /** The widths a decoded structure is read in, by the offset it starts at. */
  type Fields = nat -> seq<nat>

  /** What a client's loop over smbios_next collects until it does not succeed, and how it ends. */
  function Walk(c: Context, fields: Fields): (seq<Entry>, Status)
    requires Positioned(c)
    decreases |c.data| - NextStart(c)
  {
    var (after, status) := Next(c, fields(NextStart(c)));
    if status != Ok then ([], status) else
      SuccessAdvances(c, fields(NextStart(c)));
      var (rest, last) := Walk(after, fields);
      ([after.entry] + rest, last)
  }

  // --- Strings -------------------------------------------------------------------------

  /** The bytes from at to the next null. */
  function StringAt(data: seq<byte>, at: nat): (s: seq<byte>)
    ensures at <= |data| ==> at + |s| <= |data|
    ensures at + |s| < |data| ==> data[at + |s|] == 0
    decreases |data| - at
  {
    if at >= |data| || data[at] == 0 then [] else [data[at]] + StringAt(data, at + 1)
  }

  /** Skips strings until the index is reached or the table ends. */
  function Skip(data: seq<byte>, at: nat, skips: nat): nat
    decreases skips
  {
    if skips == 0 || at >= |data| || data[at] == 0 then at
    else Skip(data, at + |StringAt(data, at)| + 1, skips - 1)
  }

  function GetString(data: seq<byte>, entry: Entry, index: int): Option<seq<byte>> {
    if index <= 0 || index > entry.stringCount then None
    else Some(StringAt(data, Skip(data, entry.strings, index - 1)))
  }

  // --- Serialisation -------------------------------------------------------------------

  datatype Structure = Structure(kind: byte, handle: nat, body: seq<byte>, strings: seq<seq<byte>>)

  predicate Word(s: seq<byte>) { s != [] && 0 !in s }

  predicate AllWords(strings: seq<seq<byte>>) {
    strings == [] || (Word(strings[0]) && AllWords(strings[1..]))
  }

  ghost predicate WellFormed(s: Structure) {
    s.kind != END_OF_TABLE && s.handle < 0x10000 && |s.body| <= 251 && AllWords(s.strings)
  }

  /** The strings the bytes read as: none takes two nulls, which read as one that is empty. */
  function Seen(strings: seq<seq<byte>>): seq<seq<byte>> { if strings == [] then [[]] else strings }

  predicate Readable(strings: seq<seq<byte>>) { strings == [[]] || (strings != [] && AllWords(strings)) }

  function Words(strings: seq<seq<byte>>): seq<byte> {
    if strings == [] then [] else strings[0] + [0] + Words(strings[1..])
  }

  function HeaderBytes(kind: byte, length: byte, handle: nat): seq<byte>
    requires handle < 0x10000
  {
    [kind, length, handle % 256, handle / 256]
  }

  ghost function Bytes(s: Structure): seq<byte>
    requires WellFormed(s)
  {
    HeaderBytes(s.kind, HEADER_SIZE + |s.body|, s.handle) + s.body + Words(Seen(s.strings)) + [0]
  }

  /** The last structure has no strings: two nulls. */
  const END_MARK: seq<byte> := [END_OF_TABLE, 4, 0, 0, 0, 0]

  ghost predicate AllWellFormed(list: seq<Structure>) {
    list == [] || (WellFormed(list[0]) && AllWellFormed(list[1..]))
  }

  ghost function Table(list: seq<Structure>): seq<byte>
    requires AllWellFormed(list)
  {
    if list == [] then END_MARK else Bytes(list[0]) + Table(list[1..])
  }

  predicate Holds(data: seq<byte>, at: nat, part: seq<byte>) {
    at + |part| <= |data| && data[at..at + |part|] == part
  }

  lemma HoldsParts(data: seq<byte>, at: nat, a: seq<byte>, b: seq<byte>)
    requires Holds(data, at, a + b)
    ensures Holds(data, at, a) && Holds(data, at + |a|, b)
  {
    assert data[at..at + |a|] == (a + b)[..|a|];
    assert data[at + |a|..at + |a| + |b|] == (a + b)[|a|..];
  }

  lemma HoldsAt(data: seq<byte>, at: nat, part: seq<byte>, i: nat)
    requires Holds(data, at, part) && i < |part|
    ensures data[at + i] == part[i]
  {
    assert data[at..at + |part|][i] == part[i];
  }

  lemma {:induction false} ScanWord(data: seq<byte>, at: nat, word: seq<byte>, nulls: nat, count: nat)
    requires nulls <= 1 && Holds(data, at, word) && 0 !in word && word != []
    ensures Scan(data, at, nulls, count) == Scan(data, at + |word|, 0, count)
    decreases |word|
  {
    HoldsAt(data, at, word, 0);
    if |word| > 1 {
      assert word == [word[0]] + word[1..];
      HoldsParts(data, at, [word[0]], word[1..]);
      ScanWord(data, at + 1, word[1..], 0, count);
    }
  }

  lemma ScanString(data: seq<byte>, at: nat, word: seq<byte>, nulls: nat, count: nat)
    requires nulls <= 1 && Holds(data, at, word + [0]) && Word(word)
    ensures Scan(data, at, nulls, count) == Scan(data, at + |word| + 1, 1, count + 1)
  {
    HoldsParts(data, at, word, [0]);
    HoldsAt(data, at + |word|, [0], 0);
    ScanWord(data, at, word, nulls, count);
  }

  /** The scan counts the strings and stops behind the null after the last one. */
  lemma {:induction false} ScanWords(data: seq<byte>, at: nat, strings: seq<seq<byte>>, nulls: nat, count: nat)
    requires nulls <= 1 && Holds(data, at, Words(strings) + [0])
    requires strings == [] ==> nulls == 1
    requires AllWords(strings)
    ensures Scan(data, at, nulls, count) == Scanned(at + |Words(strings)| + 1, 2, count + |strings|)
    decreases |strings|
  {
    if strings == [] {
      HoldsAt(data, at, Words(strings) + [0], 0);
    } else {
      var word, rest := strings[0], Words(strings[1..]) + [0];
      assert Words(strings) + [0] == (word + [0]) + rest;
      HoldsParts(data, at, word + [0], rest);
      ScanString(data, at, word, nulls, count);
      ScanWords(data, at + |word| + 1, strings[1..], 1, count + 1);
    }
  }

  /** So it does for a structure: the strings, or the one that two nulls read as. */
  lemma ScanReadable(data: seq<byte>, at: nat, strings: seq<seq<byte>>)
    requires Holds(data, at, Words(strings) + [0]) && Readable(strings)
    ensures Scan(data, at, 0, 0) == Scanned(at + |Words(strings)| + 1, 2, |strings|)
  {
    if strings == [[]] {
      assert Words(strings) + [0] == [0, 0];
      HoldsAt(data, at, [0, 0], 0);
      HoldsAt(data, at, [0, 0], 1);
    } else {
      ScanWords(data, at, strings, 0, 0);
    }
  }

  lemma {:induction false} StringRead(data: seq<byte>, at: nat, word: seq<byte>)
    requires Holds(data, at, word + [0]) && 0 !in word
    ensures StringAt(data, at) == word
    decreases |word|
  {
    HoldsAt(data, at, word + [0], 0);
    if word != [] {
      assert word + [0] == [word[0]] + (word[1..] + [0]);
      HoldsParts(data, at, [word[0]], word[1..] + [0]);
      StringRead(data, at + 1, word[1..]);
    }
  }

  lemma SkipOne(data: seq<byte>, at: nat, word: seq<byte>, skips: nat)
    requires Holds(data, at, word + [0]) && Word(word) && skips > 0
    ensures Skip(data, at, skips) == Skip(data, at + |word| + 1, skips - 1)
  {
    StringRead(data, at, word);
    HoldsAt(data, at, word + [0], 0);
  }

  /** String i of a table is found by skipping i strings. */
  lemma {:induction false} StringFound(data: seq<byte>, at: nat, strings: seq<seq<byte>>, i: nat)
    requires Holds(data, at, Words(strings) + [0]) && i < |strings|
    requires AllWords(strings)
    ensures StringAt(data, Skip(data, at, i)) == strings[i]
    decreases i
  {
    var word, rest := strings[0], Words(strings[1..]) + [0];
    assert Words(strings) + [0] == word + [0] + rest;
    HoldsParts(data, at, word + [0], rest);
    if i == 0 {
      StringRead(data, at, word);
    } else {
      SkipOne(data, at, word, i);
      StringFound(data, at + |word| + 1, strings[1..], i - 1);
    }
  }

  /** The entry shows the structure: header, formatted part, and what is seen of strings under its number. */
  ghost predicate Shows(data: seq<byte>, entry: Entry, s: Structure) {
    entry.kind == s.kind && entry.handle == s.handle && entry.length == HEADER_SIZE + |s.body| &&
    entry.strings == entry.raw + entry.length <= |data| &&
    data[entry.raw + HEADER_SIZE..entry.strings] == s.body &&
    entry.stringCount == |Seen(s.strings)| && forall i: int :: Numbered(data, entry, Seen(s.strings), i)
  }

  /** Number i, from 1 on, is string i; other numbers are none. */
  predicate Numbered(data: seq<byte>, entry: Entry, strings: seq<seq<byte>>, i: int) {
    GetString(data, entry, i) == if 1 <= i <= |strings| then Some(strings[i - 1]) else None
  }

  /** The parts of a structure that sits at a position. */
  lemma StructureParts(data: seq<byte>, at: nat, s: Structure)
    requires WellFormed(s) && Holds(data, at, Bytes(s))
    ensures at + HEADER_SIZE < |data|
    ensures
      var header := Header(data, at);
      header == Entry(s.kind, HEADER_SIZE + |s.body|, s.handle, at, at + HEADER_SIZE + |s.body|, 0) &&
      Holds(data, at + HEADER_SIZE, s.body) && Holds(data, header.strings, Words(Seen(s.strings)) + [0])
    ensures |Bytes(s)| == HEADER_SIZE + |s.body| + |Words(Seen(s.strings))| + 1
  {
    var header, words := HeaderBytes(s.kind, HEADER_SIZE + |s.body|, s.handle), Words(Seen(s.strings)) + [0];
    assert Bytes(s) == header + (s.body + words);
    HoldsParts(data, at, header, s.body + words);
    HoldsParts(data, at + HEADER_SIZE, s.body, words);
    HoldsAt(data, at, header, 0);
    HoldsAt(data, at, header, 1);
    HoldsAt(data, at, header, 2);
    HoldsAt(data, at, header, 3);
  }

  lemma StringNumbered(data: seq<byte>, entry: Entry, strings: seq<seq<byte>>, i: int)
    requires Holds(data, entry.strings, Words(strings) + [0]) && entry.stringCount == |strings|
    requires Readable(strings)
    ensures Numbered(data, entry, strings, i)
  {
    if strings == [[]] {
      StringRead(data, entry.strings, []);
    } else if 1 <= i <= |strings| {
      StringFound(data, entry.strings, strings, i - 1);
    }
    NumberedIfFound(data, entry, strings, i);
  }

  lemma AllNumbered(data: seq<byte>, entry: Entry, strings: seq<seq<byte>>)
    requires Holds(data, entry.strings, Words(strings) + [0]) && entry.stringCount == |strings|
    requires Readable(strings)
    ensures forall i: int :: Numbered(data, entry, strings, i)
  {
    forall i: int ensures Numbered(data, entry, strings, i) {
      StringNumbered(data, entry, strings, i);
    }
  }

  lemma NumberedIfFound(data: seq<byte>, entry: Entry, strings: seq<seq<byte>>, i: int)
    requires entry.stringCount == |strings|
    requires 1 <= i <= |strings| ==> StringAt(data, Skip(data, entry.strings, i - 1)) == strings[i - 1]
    ensures Numbered(data, entry, strings, i)
  {
  }

  /** The fields read of the structure end before its last byte, the null behind its strings. */
  ghost predicate FieldsFit(s: Structure, fields: seq<nat>)
    requires WellFormed(s)
  {
    Decoded(s.kind) ==> HEADER_SIZE + Sum(fields) < |Bytes(s)|
  }

  ghost function EntryOf(s: Structure, at: nat): Entry
    requires WellFormed(s)
  {
    Entry(s.kind, HEADER_SIZE + |s.body|, s.handle, at, at + HEADER_SIZE + |s.body|, |Seen(s.strings)|)
  }

  /** The parser once it has found the structure, before it decodes any field. */
  ghost function FoundAt(data: seq<byte>, s: Structure, at: nat): Context
    requires WellFormed(s)
  {
    Context(data, Some(at), Some(at + |Bytes(s)|), at + HEADER_SIZE, EntryOf(s, at), false)
  }

  lemma StepFinds(c: Context, s: Structure, fields: seq<nat>)
    requires Positioned(c) && !c.failed && WellFormed(s)
    requires Holds(c.data, NextStart(c), Bytes(s))
    ensures Next(c, fields) == Finish(FoundAt(c.data, s, NextStart(c)), fields)
  {
    var header := HeaderThere(c.data, NextStart(c), s);
    var end := StringsEnd(c.data, NextStart(c), s);
    NextFinds(c, fields, header, Scanned(end, 2, |Seen(s.strings)|), FoundAt(c.data, s, NextStart(c)));
  }

  lemma HeaderThere(data: seq<byte>, at: nat, s: Structure) returns (header: Entry)
    requires WellFormed(s) && Holds(data, at, Bytes(s))
    ensures at + HEADER_SIZE < |data| && header == Header(data, at)
    ensures header.(stringCount := |Seen(s.strings)|) == EntryOf(s, at)
  {
    StructureParts(data, at, s);
    header := Header(data, at);
  }

  lemma StringsEnd(data: seq<byte>, at: nat, s: Structure) returns (end: nat)
    requires WellFormed(s) && Holds(data, at, Bytes(s))
    ensures end == at + |Bytes(s)|
    ensures Scan(data, at + HEADER_SIZE + |s.body|, 0, 0) == Scanned(end, 2, |Seen(s.strings)|)
  {
    StructureParts(data, at, s);
    ScanReadable(data, at + HEADER_SIZE + |s.body|, Seen(s.strings));
    end := at + |Bytes(s)|;
  }

  lemma NextFinds(c: Context, fields: seq<nat>, header: Entry, scanned: Scanned, found: Context)
    requires Positioned(c) && !c.failed && NextStart(c) + HEADER_SIZE < |c.data|
    requires header == Header(c.data, NextStart(c)) && header.kind != END_OF_TABLE
    requires Scan(c.data, header.strings, 0, 0) == scanned && scanned.nulls == 2
    requires
      var at, entry := NextStart(c), header.(stringCount := scanned.count);
      found == Context(c.data, Some(at), Some(scanned.end), at + HEADER_SIZE, entry, false)
    ensures Next(c, fields) == Finish(found, fields)
  {
  }

  lemma WalkStep(c: Context, fields: Fields)
    requires Positioned(c)
    ensures
      var (after, status) := Next(c, fields(NextStart(c)));
      if status != Ok then Walk(c, fields) == ([], status)
      else Positioned(after) && Walk(c, fields) == ([after.entry] + Walk(after, fields).0, Walk(after, fields).1)
  {
    var (after, status) := Next(c, fields(NextStart(c)));
    if status == Ok {
      SuccessAdvances(c, fields(NextStart(c)));
    }
  }

  lemma EntryShows(data: seq<byte>, at: nat, s: Structure)
    requires WellFormed(s) && Holds(data, at, Bytes(s))
    ensures Shows(data, EntryOf(s, at), s)
  {
    StructureParts(data, at, s);
    AllNumbered(data, EntryOf(s, at), Seen(s.strings));
  }

  lemma FinishIff(data: seq<byte>, s: Structure, at: nat, fields: seq<nat>)
    requires WellFormed(s)
    ensures
      var (after, status) := Finish(FoundAt(data, s, at), fields);
      after == FoundAt(data, s, at).(ptr := after.ptr, failed := !FieldsFit(s, fields)) &&
      (status == if FieldsFit(s, fields) then Ok else InvalidData) &&
      (status == Ok && Decoded(s.kind) ==> after.ptr == at + HEADER_SIZE + Sum(fields))
  {
    BytesLength(s);
    DecodingFailsIff(FoundAt(data, s, at), fields);
  }

  /** A structure is yielded if and only if its fields fit; if not, the parser fails for good. */
  lemma StepReads(c: Context, s: Structure, fields: seq<nat>)
    requires Positioned(c) && !c.failed && WellFormed(s)
    requires Holds(c.data, NextStart(c), Bytes(s))
    ensures
      var (after, status) := Next(c, fields);
      (status == if FieldsFit(s, fields) then Ok else InvalidData) && (after.failed <==> !FieldsFit(s, fields)) &&
      Positioned(after) && after.data == c.data && NextStart(after) == NextStart(c) + |Bytes(s)| &&
      Shows(c.data, after.entry, s)
  {
    StepFinds(c, s, fields);
    FinishIff(c.data, s, NextStart(c), fields);
    EntryShows(c.data, NextStart(c), s);
  }

  /** Decoded fields run past the formatted part, into the strings, of a structure that is yielded all the same. */
  lemma FieldsReachStringsIff(c: Context, s: Structure, fields: seq<nat>)
    requires Positioned(c) && !c.failed && WellFormed(s) && Decoded(s.kind)
    requires Holds(c.data, NextStart(c), Bytes(s))
    ensures
      var (after, status) := Next(c, fields);
      status == Ok && after.ptr > after.entry.strings <==> |s.body| < Sum(fields) <= |s.body| + |Words(Seen(s.strings))|
  {
    StepFinds(c, s, fields);
    FinishIff(c.data, s, NextStart(c), fields);
    BytesLength(s);
  }

  lemma BytesLength(s: Structure)
    requires WellFormed(s)
    ensures |Bytes(s)| == HEADER_SIZE + |s.body| + |Words(Seen(s.strings))| + 1
  {
  }

  lemma EndRead(c: Context, fields: seq<nat>)
    requires Positioned(c) && !c.failed && Holds(c.data, NextStart(c), END_MARK)
    ensures Next(c, fields).1 == EndOfStream
    ensures
      var after := Next(c, fields).0;
      !after.failed && after.start == None && after.end == None && after.data == c.data
  {
    var at := NextStart(c);
    HoldsAt(c.data, at, END_MARK, 0);
    HoldsAt(c.data, at, END_MARK, 1);
    HoldsAt(c.data, at, END_MARK, 4);
    HoldsAt(c.data, at, END_MARK, 5);
    assert Scan(c.data, at + 5, 1, 1) == Scanned(at + 6, 2, 1);
  }

  /** The walk fails at the structure, or shows it first and goes on. */
  ghost predicate WalksOn(data: seq<byte>, s: Structure, fits: bool, walked: (seq<Entry>, Status), first: Entry,
                          rest: (seq<Entry>, Status)) {
    if fits then walked == ([first] + rest.0, rest.1) && Shows(data, first, s) else walked == ([], InvalidData)
  }

  /** The walk from a structure on. */
  lemma WalkFinds(c: Context, data: seq<byte>, at: nat, s: Structure, fields: Fields) returns (after: Context)
    requires Positioned(c) && !c.failed && c.data == data && NextStart(c) == at
    requires WellFormed(s) && Holds(data, at, Bytes(s))
    ensures Positioned(after)
    ensures FieldsFit(s, fields(at)) ==> !after.failed && after.data == data && NextStart(after) == at + |Bytes(s)|
    ensures WalksOn(data, s, FieldsFit(s, fields(at)), Walk(c, fields), after.entry, Walk(after, fields))
  {
    WalkStep(c, fields);
    StepReads(c, s, fields(at));
    after := Next(c, fields(at)).0;
  }

  lemma WalkEnds(c: Context, fields: Fields)
    requires Positioned(c) && !c.failed && Holds(c.data, NextStart(c), END_MARK)
    ensures Walk(c, fields) == ([], EndOfStream)
  {
    WalkStep(c, fields);
    EndRead(c, fields(NextStart(c)));
  }

  /** How many structures from the front have fields that fit. */
  ghost function Fitting(list: seq<Structure>, at: nat, fields: Fields): nat
    requires AllWellFormed(list)
    decreases |list|
  {
    if list != [] && FieldsFit(list[0], fields(at)) then 1 + Fitting(list[1..], at + |Bytes(list[0])|, fields) else 0
  }

  /** What was walked shows the first n structures, and how it ended says whether those were all. */
  ghost predicate Yields(data: seq<byte>, walked: (seq<Entry>, Status), list: seq<Structure>, n: nat) {
    |walked.0| == n <= |list| && walked.1 == (if n == |list| then EndOfStream else InvalidData) &&
    forall i :: 0 <= i < n ==> Shows(data, walked.0[i], list[i])
  }

  lemma YieldsMore(data: seq<byte>, first: Entry, rest: (seq<Entry>, Status), list: seq<Structure>, n: nat)
    requires list != [] && Shows(data, first, list[0]) && Yields(data, rest, list[1..], n)
    ensures Yields(data, ([first] + rest.0, rest.1), list, n + 1)
  {
    forall i | 0 <= i < n + 1 ensures Shows(data, ([first] + rest.0)[i], list[i]) {
      if i > 0 {
        assert Shows(data, rest.0[i - 1], list[1..][i - 1]);
      }
    }
  }

  /** The first structure, given what the walk from behind it yields. */
  lemma YieldsOne(c: Context, data: seq<byte>, at: nat, list: seq<Structure>, fields: Fields, after: Context)
    requires list != [] && AllWellFormed(list) && Positioned(c) && Positioned(after)
    requires WalksOn(data, list[0], FieldsFit(list[0], fields(at)), Walk(c, fields), after.entry, Walk(after, fields))
    requires FieldsFit(list[0], fields(at)) ==>
      Yields(data, Walk(after, fields), list[1..], Fitting(list[1..], at + |Bytes(list[0])|, fields))
    ensures Yields(data, Walk(c, fields), list, Fitting(list, at, fields))
  {
    if FieldsFit(list[0], fields(at)) {
      YieldsMore(data, after.entry, Walk(after, fields), list, Fitting(list[1..], at + |Bytes(list[0])|, fields));
    }
  }

  /** The structures lie one behind the other, and the end mark behind them. */
  ghost predicate Placed(data: seq<byte>, at: nat, list: seq<Structure>)
    requires AllWellFormed(list)
    decreases |list|
  {
    if list == [] then Holds(data, at, END_MARK)
    else Holds(data, at, Bytes(list[0])) && Placed(data, at + |Bytes(list[0])|, list[1..])
  }

  lemma {:induction false} TablePlaced(data: seq<byte>, at: nat, list: seq<Structure>)
    requires AllWellFormed(list) && Holds(data, at, Table(list))
    ensures Placed(data, at, list)
    decreases |list|
  {
    if list != [] {
      HoldsParts(data, at, Bytes(list[0]), Table(list[1..]));
      TablePlaced(data, at + |Bytes(list[0])|, list[1..]);
    }
  }

  /**
   * Walking a serialised table yields its structures up to the first whose fields do not fit: all of
   * them, and then the end mark, exactly when there is none.
   */
  lemma WalkYields(c: Context, list: seq<Structure>, fields: Fields)
    requires Positioned(c) && !c.failed && AllWellFormed(list)
    requires Holds(c.data, NextStart(c), Table(list))
    ensures Yields(c.data, Walk(c, fields), list, Fitting(list, NextStart(c), fields))
  {
    TablePlaced(c.data, NextStart(c), list);
    WalkYieldsFrom(c, c.data, NextStart(c), list, fields);
  }

  lemma {:induction false} WalkYieldsFrom(c: Context, data: seq<byte>, at: nat, list: seq<Structure>, fields: Fields)
    requires Positioned(c) && !c.failed && c.data == data && NextStart(c) == at
    requires AllWellFormed(list) && Placed(data, at, list)
    ensures Yields(data, Walk(c, fields), list, Fitting(list, at, fields))
    decreases |list|
  {
    if list == [] {
      WalkEnds(c, fields);
    } else {
      var after := WalkFinds(c, data, at, list[0], fields);
      if FieldsFit(list[0], fields(at)) {
        WalkYieldsFrom(after, data, at + |Bytes(list[0])|, list[1..], fields);
      }
      YieldsOne(c, data, at, list, fields, after);
    }
  }

  lemma {:induction false} StringWithin(data: seq<byte>, at: nat, zero: nat)
    requires at <= zero < |data| && data[zero] == 0
    ensures at + |StringAt(data, at)| <= zero
    decreases zero - at
  {
    if data[at] != 0 {
      StringWithin(data, at + 1, zero);
    }
  }

  lemma {:induction false} SkipWithin(data: seq<byte>, at: nat, skips: nat, end: nat)
    requires at < end <= |data| && 2 <= end && data[end - 1] == 0 && data[end - 2] == 0
    ensures Skip(data, at, skips) < end
    decreases skips
  {
    if skips > 0 && data[at] != 0 {
      StringWithin(data, at, end - 2);
      SkipWithin(data, at + |StringAt(data, at)| + 1, skips - 1, end);
    }
  }

  /** What is returned ends with two nulls, behind where its strings begin. */
  lemma EndsInNulls(c: Context, fields: seq<nat>)
    requires Positioned(c) && Next(c, fields).1 == Ok
    ensures
      var after := Next(c, fields).0;
      after.end.Some? && after.entry.strings + 2 <= after.end.value <= |c.data| &&
      c.data[after.end.value - 1] == 0 && c.data[after.end.value - 2] == 0
  {
  }

  /** Whatever the data, a string of an entry that was returned lies in its structure, its null included. */
  lemma StringsStayInside(c: Context, fields: seq<nat>, index: int)
    requires Positioned(c) && Next(c, fields).1 == Ok
    ensures
      var after := Next(c, fields).0;
      var entry := after.entry;
      1 <= index <= entry.stringCount ==>
        var at := Skip(c.data, entry.strings, index - 1);
        after.end.Some? && at + |StringAt(c.data, at)| < after.end.value <= |c.data|
  {
    EndsInNulls(c, fields);
    var after := Next(c, fields).0;
    if 1 <= index <= after.entry.stringCount {
      StringEndsInside(c.data, after.entry.strings, index - 1, after.end.value);
    }
  }

  lemma StringEndsInside(data: seq<byte>, strings: nat, skips: nat, end: nat)
    requires strings + 2 <= end <= |data| && data[end - 1] == 0 && data[end - 2] == 0
    ensures
      var at := Skip(data, strings, skips);
      at + |StringAt(data, at)| < end
  {
    SkipWithin(data, strings, skips, end);
    StringWithin(data, Skip(data, strings, skips), end - 1);
  }

  /** Whatever the data, two nulls in place of strings count as one string, which reads as empty. */
  lemma NoStringsCountOne(c: Context, fields: seq<nat>)
    requires Positioned(c) && !c.failed && NextStart(c) + HEADER_SIZE < |c.data|
    requires Holds(c.data, Header(c.data, NextStart(c)).strings, [0, 0])
    ensures
      var entry := Next(c, fields).0.entry;
      entry.stringCount == 1 && GetString(c.data, entry, 1) == Some([])
  {
    var at := Header(c.data, NextStart(c)).strings;
    HoldsAt(c.data, at, [0, 0], 0);
    HoldsAt(c.data, at, [0, 0], 1);
    assert Scan(c.data, at, 0, 0) == Scan(c.data, at + 1, 1, 1) == Scanned(at + 2, 2, 1);
  }

  /** The count of a serialised structure is the number of its strings if and only if it has any. */
  lemma StringCountIff(c: Context, s: Structure, fields: seq<nat>)
    requires Positioned(c) && !c.failed && WellFormed(s)
    requires Holds(c.data, NextStart(c), Bytes(s))
    ensures Next(c, fields).0.entry.stringCount == |s.strings| <==> s.strings != []
  {
    StepReads(c, s, fields);
  }

  // --- The class -----------------------------------------------------------------------

  class Parser {
    const data: seq<byte>
    var start: Option<nat>
    var end: Option<nat>
    var ptr: nat
    var entry: Entry
    var failed: bool

    function View(): Context
      reads this
    {
      Context(data, start, end, ptr, entry, failed)
    }

    constructor (data: seq<byte>)
      ensures View() == Context(data, None, None, 0, NO_ENTRY, false)
    {
      this.data := data;
      start, end, ptr, entry, failed := None, None, 0, NO_ENTRY, false;
    }

    method ResetParser() returns (status: Status)
      modifies this
      ensures (View(), status) == Reset(old(View()))
    {
      if failed {
        return InvalidData;
      }
      ptr, start, end := 0, None, None;
      status := Ok;
    }

    /** The loop that looks for the end of the strings. */
    method ScanStrings(at: nat) returns (end: nat, nulls: nat, count: nat)
      ensures Scanned(end, nulls, count) == Scan(data, at, 0, 0)
    {
      end, nulls, count := at, 0, 0;
      while end < |data|
        invariant nulls <= 1 && Scan(data, end, nulls, count) == Scan(data, at, 0, 0)
        decreases |data| - end
      {
        end := end + 1;
        if data[end - 1] != 0 {
          nulls := 0;
        } else {
          nulls := nulls + 1;
          if nulls > 1 {
            break;
          }
          count := count + 1;
        }
      }
    }

    /** The reads of a decoded type, width after width. */
    method Decode(fields: seq<nat>)
      requires end.Some?
      modifies this
      ensures View() == ReadAll(old(View()), fields)
    {
      var i := 0;
      while i < |fields|
        invariant 0 <= i <= |fields| && end == old(end)
        invariant ReadAll(View(), fields[i..]) == ReadAll(old(View()), fields)
      {
        if ptr + fields[i] >= end.value {
          failed := true;
        } else {
          ptr := ptr + fields[i];
        }
        i := i + 1;
      }
    }

    method NextEntry(fields: seq<nat>) returns (status: Status)
      requires Positioned(View())
      modifies this
      ensures (View(), status) == Next(old(View()), fields)
    {
      if failed {
        return InvalidData;
      }
      if start.None? {
        start, ptr := Some(0), 0;
      } else {
        start, ptr := end, end.value;
      }
      entry := NO_ENTRY;
      if start.value + HEADER_SIZE >= |data| {
        return InvalidData;
      }
      entry := Header(data, start.value);
      ptr := ptr + HEADER_SIZE;
      var e, nulls, count := ScanStrings(entry.strings);
      end, entry := Some(e), entry.(stringCount := count);
      if nulls != 2 {
        return InvalidData;
      }
      if entry.kind == END_OF_TABLE {
        var _ := ResetParser();
        return EndOfStream;
      }
      if Decoded(entry.kind) {
        Decode(fields);
      }
      status := if failed then InvalidData else Ok;
    }

    method StringEnd(at: nat) returns (r: nat)
      requires at <= |data|
      ensures r == at + |StringAt(data, at)|
    {
      r := at;
      while r < |data| && data[r] != 0
        invariant at <= r <= |data| && r + |StringAt(data, r)| == at + |StringAt(data, at)|
        decreases |data| - r
      {
        r := r + 1;
      }
    }

    /** smbios_get_string: the offset of the string, None for a number the entry does not have. */
    method FindString(e: Entry, index: int) returns (r: Option<nat>)
      ensures match r
        case None => GetString(data, e, index) == None
        case Some(at) => GetString(data, e, index) == Some(StringAt(data, at))
    {
      if index <= 0 || index > e.stringCount {
        return None;
      }
      var at: nat := e.strings;
      var i := 1;
      while at < |data| && data[at] != 0 && i < index
        invariant 1 <= i <= index && Skip(data, at, index - i) == Skip(data, e.strings, index - 1)
        decreases index - i
      {
        at := StringEnd(at);
        at := at + 1;
        i := i + 1;
      }
      r := Some(at);
    }
  }
}
