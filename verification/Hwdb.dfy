/**
 * The hwdb text format: the record state machine, lookups, and the merge of several files
 * (libraries/libhwdb/Hwdb.cpp, interfaces/camera/mainline/config/CameraHwdb.cpp).
 */
module Hwdb {
  import opened Common

  datatype Entry = Entry(patterns: seq<string>, properties: map<string, string>)

  datatype State = Outside | Match | Data

  /** The locals of Parse: the state, the record being read, and the finished ones. */
  datatype Machine = Machine(state: State, entry: Entry, entries: seq<Entry>)

  const EMPTY := Entry([], map[])
  const START := Machine(Outside, EMPTY, [])

  // --- Lines ---------------------------------------------------------------------------

  predicate IsBlank(c: char) { c == ' ' || c == '\t' }

  function Split(s: string): (r: seq<string>)
    ensures |r| > 0
  {
    if s == "" then [""]
    else if s[0] == '\n' then [""] + Split(s[1..])
    else [[s[0]] + Split(s[1..])[0]] + Split(s[1..])[1..]
  }

  /** Up to the first c, or all of it. */
  function Until(s: string, c: char): (r: string)
    ensures r <= s && c !in r && (|r| < |s| ==> s[|r|] == c)
  {
    if s == "" || s[0] == c then "" else [s[0]] + Until(s[1..], c)
  }

  function Strip(s: string): (r: string)
    ensures r <= s && (r != "" ==> !IsSpace(r[|r| - 1]))
  {
    if s != "" && IsSpace(s[|s| - 1]) then Strip(s[..|s| - 1]) else s
  }

  /** What is left of a line once its comment and trailing space are gone. */
  function Clean(raw: string): string { Strip(Until(raw, '#')) }

  /** How many blanks the line starts with. */
  function Blanks(s: string): (n: nat)
    ensures n <= |s| && (n < |s| ==> !IsBlank(s[n])) && forall i :: 0 <= i < n ==> IsBlank(s[i])
  {
    if s == "" || !IsBlank(s[0]) then 0 else 1 + Blanks(s[1..])
  }

  /** " key=value": the key follows the leading blanks; lines without '=' or key add nothing. */
  function Insert(properties: map<string, string>, line: string): map<string, string> {
    var equals, start := |Until(line, '=')|, Blanks(line);
    if equals == |line| || start >= equals then properties
    else properties[line[start..equals] := line[equals + 1..]]
  }

  // --- Records -------------------------------------------------------------------------

  function Finish(m: Machine): Machine {
    Machine(Outside, EMPTY,
      if m.entry.patterns != [] && m.entry.properties != map[] then m.entries + [m.entry] else m.entries)
  }

  function Feed(m: Machine, raw: string): Machine {
    if raw != "" && raw[0] == '#' then m else
      var line := Clean(raw);
      match m.state
      case Outside =>
        if line == "" || line[0] == ' ' then m
        else m.(state := Match, entry := m.entry.(patterns := m.entry.patterns + [line]))
      case Match =>
        if line == "" then Machine(Outside, EMPTY, m.entries)
        else if line[0] != ' ' then m.(entry := m.entry.(patterns := m.entry.patterns + [line]))
        else m.(state := Data, entry := m.entry.(properties := Insert(m.entry.properties, line)))
      case Data =>
        if line == "" || line[0] != ' ' then Finish(m)
        else m.(entry := m.entry.(properties := Insert(m.entry.properties, line)))
  }

  function FeedAll(m: Machine, lines: seq<string>): Machine
    decreases |lines|
  {
    if lines == [] then m else FeedAll(Feed(m, lines[0]), lines[1..])
  }

  function Ended(m: Machine): seq<Entry> { if m.state == Data then Finish(m).entries else m.entries }

  function Parsed(content: string): seq<Entry> { Ended(FeedAll(START, Split(content))) }

  /**
   * The quirks: a comment line changes nothing, even inside a record; a property outside of a record
   * is ignored; and a pattern right after properties is read as the empty line that should be there.
   */
  lemma Quirks(m: Machine, raw: string)
    requires Clean(raw) != "" || (raw != "" && raw[0] == '#')
    ensures raw[0] == '#' ==> Feed(m, raw) == m
    ensures raw[0] == ' ' && m.state == Outside ==> Feed(m, raw) == m
    ensures raw[0] != ' ' && raw[0] != '#' && m.state == Data ==> Feed(m, raw) == Feed(m, "")
  {
    if raw[0] != '#' {
      assert Clean(raw) <= Until(raw, '#') <= raw;
      assert Clean(raw)[0] == raw[0];
    }
  }

  // --- Lookups -------------------------------------------------------------------------

  /** fnmatch, of pattern and query. */
  type Matcher = (string, string) -> bool

  predicate Matched(patterns: seq<string>, query: string, fnmatch: Matcher) {
    exists i :: 0 <= i < |patterns| && fnmatch(patterns[i], query)
  }

  function Collected(entries: seq<Entry>, query: string, fnmatch: Matcher): map<string, string> {
    if entries == [] then map[] else
      var before, last := Collected(entries[..|entries| - 1], query, fnmatch), entries[|entries| - 1];
      if Matched(last.patterns, query, fnmatch) then before + last.properties else before
  }

  // --- Concatenation -------------------------------------------------------------------

  lemma {:induction false} SplitConcat(a: string, b: string)
    ensures Split(a + "\n" + b) == Split(a) + Split(b)
  {
    if a == "" {
      assert ("\n" + b)[1..] == b;
      assert a + "\n" + b == "\n" + b;
    } else {
      assert (a + "\n" + b)[1..] == a[1..] + "\n" + b;
      SplitConcat(a[1..], b);
    }
  }

  lemma {:induction false} FeedConcat(m: Machine, a: seq<string>, b: seq<string>)
    ensures FeedAll(m, a + b) == FeedAll(FeedAll(m, a), b)
    decreases |a|
  {
    if a == [] {
      assert a + b == b;
    } else {
      assert (a + b)[1..] == a[1..] + b;
      FeedConcat(Feed(m, a[0]), a[1..], b);
    }
  }

  /** Outside of a record nothing is pending; an entry being matched has no properties yet. */
  ghost predicate Tidy(m: Machine) {
    (m.state == Outside ==> m.entry == EMPTY) && (m.state == Match ==> m.entry.properties == map[])
  }

  lemma {:induction false} FeedAllTidy(m: Machine, lines: seq<string>)
    requires Tidy(m)
    ensures Tidy(FeedAll(m, lines))
    decreases |lines|
  {
    if lines != [] {
      FeedAllTidy(Feed(m, lines[0]), lines[1..]);
    }
  }

  /** Finished records only pile up: what follows does not depend on them. */
  lemma {:induction false} EarlierEntriesStay(m: Machine, lines: seq<string>)
    ensures FeedAll(m, lines) ==
      FeedAll(m.(entries := []), lines).(entries := m.entries + FeedAll(m.(entries := []), lines).entries)
    decreases |lines|
  {
    if lines != [] {
      var next, alone := Feed(m, lines[0]), Feed(m.(entries := []), lines[0]);
      assert next == alone.(entries := m.entries + alone.entries);
      EarlierEntriesStay(next, lines[1..]);
      EarlierEntriesStay(alone, lines[1..]);
    } else {
      assert m.entries + [] == m.entries;
    }
  }

  /** An empty line ends whatever was being read, exactly as the end of the text does. */
  lemma EmptyLineEnds(m: Machine)
    requires Tidy(m)
    ensures Feed(m, "") == Machine(Outside, EMPTY, Ended(m))
  {
  }

  /** Texts joined by an empty line parse to the records of one followed by those of the other. */
  lemma ParseConcat(a: string, b: string)
    ensures Parsed(a + "\n\n" + b) == Parsed(a) + Parsed(b)
  {
    assert a + "\n\n" + b == a + "\n" + ("" + "\n" + b);
    SplitConcat(a, "" + "\n" + b);
    SplitConcat("", b);
    var first := FeedAll(START, Split(a));
    FeedConcat(START, Split(a), [""] + Split(b));
    FeedConcat(first, [""], Split(b));
    FeedAllTidy(START, Split(a));
    EmptyLineEnds(first);
    assert FeedAll(first, [""]) == Feed(first, "");
    EarlierEntriesStay(Machine(Outside, EMPTY, Parsed(a)), Split(b));
  }

  lemma {:induction false} CollectedConcat(a: seq<Entry>, b: seq<Entry>, query: string, fnmatch: Matcher)
    ensures Collected(a + b, query, fnmatch) == Collected(a, query, fnmatch) + Collected(b, query, fnmatch)
  {
    if b == [] {
      assert a + b == a;
    } else {
      var rest := b[..|b| - 1];
      assert (a + b)[..|a + b| - 1] == a + rest;
      CollectedConcat(a, rest, query, fnmatch);
    }
  }

  /** One of its patterns matches the query, and it sets the key. */
  ghost predicate Sets(e: Entry, key: string, query: string, fnmatch: Matcher) {
    key in e.properties && exists p :: p in e.patterns && fnmatch(p, query)
  }

  ghost predicate SetsLast(entries: seq<Entry>, i: int, key: string, query: string, fnmatch: Matcher) {
    0 <= i < |entries| && Sets(entries[i], key, query, fnmatch) &&
    forall j :: i < j < |entries| ==> !Sets(entries[j], key, query, fnmatch)
  }

  ghost predicate SomeSets(entries: seq<Entry>, key: string, query: string, fnmatch: Matcher) {
    exists i :: 0 <= i < |entries| && Sets(entries[i], key, query, fnmatch)
  }

  lemma OneMoreSets(entries: seq<Entry>, key: string, query: string, fnmatch: Matcher)
    requires entries != []
    ensures
      var n := |entries| - 1;
      SomeSets(entries, key, query, fnmatch) <==> SomeSets(entries[..n], key, query, fnmatch) || Sets(entries[n], key, query, fnmatch)
  {
    var n := |entries| - 1;
    if SomeSets(entries[..n], key, query, fnmatch) {
      var i :| 0 <= i < n && Sets(entries[..n][i], key, query, fnmatch);
      assert entries[i] == entries[..n][i];
    }
    if i :| 0 <= i < n && Sets(entries[i], key, query, fnmatch) {
      assert entries[..n][i] == entries[i];
    }
  }

  /** A lookup yields a key if and only if a matching record sets it. */
  lemma {:induction false} CollectedIff(entries: seq<Entry>, query: string, fnmatch: Matcher, key: string)
    ensures key in Collected(entries, query, fnmatch) <==> SomeSets(entries, key, query, fnmatch)
  {
    if entries != [] {
      var n := |entries| - 1;
      CollectedIff(entries[..n], query, fnmatch, key);
      MatchedIff(entries[n].patterns, query, fnmatch);
      OneMoreSets(entries, key, query, fnmatch);
    }
  }

  /** The value is that of the last matching record that sets the key. */
  lemma {:induction false} LastOneCounts(entries: seq<Entry>, query: string, fnmatch: Matcher, key: string, i: nat)
    requires SetsLast(entries, i, key, query, fnmatch)
    ensures key in Collected(entries, query, fnmatch) && Collected(entries, query, fnmatch)[key] == entries[i].properties[key]
  {
    var n := |entries| - 1;
    MatchedIff(entries[n].patterns, query, fnmatch);
    if i < n {
      LastOneCounts(entries[..n], query, fnmatch, key, i);
    }
  }

  lemma MatchedIff(patterns: seq<string>, query: string, fnmatch: Matcher)
    ensures Matched(patterns, query, fnmatch) <==> exists p :: p in patterns && fnmatch(p, query)
  {
    if p :| p in patterns && fnmatch(p, query) {
      var i :| 0 <= i < |patterns| && patterns[i] == p;
    }
  }

  /** The text Load builds: every readable file followed by an empty line. */
  function Merged(files: seq<string>): string {
    if files == [] then "" else Merged(files[..|files| - 1]) + files[|files| - 1] + "\n\n"
  }

  /** What the files say one after the other, later files overriding earlier ones. */
  function Overridden(files: seq<string>, query: string, fnmatch: Matcher): map<string, string> {
    if files == [] then map[] else
      Overridden(files[..|files| - 1], query, fnmatch) +
      Collected(Parsed(files[|files| - 1]), query, fnmatch)
  }

  lemma NothingParsed()
    ensures Parsed("") == []
  {
  }

  /** A trailing empty line adds no record. */
  lemma ParseTrailing(a: string)
    ensures Parsed(a + "\n\n") == Parsed(a)
  {
    assert a + "\n\n" + "" == a + "\n\n";
    ParseConcat(a, "");
    NothingParsed();
  }

  /** Each file of the merge starts outside of any record, whatever the files before it end in. */
  lemma MergedThen(files: seq<string>, next: string)
    ensures Parsed(Merged(files) + next) == Parsed(Merged(files)) + Parsed(next)
  {
    if files == [] {
      assert "" + next == next;
      NothingParsed();
    } else {
      var text := Merged(files[..|files| - 1]) + files[|files| - 1];
      ParseConcat(text, next);
      ParseTrailing(text);
    }
  }

  /** Looking up in the merged text is looking up in each file, the last file that sets a property winning. */
  lemma {:induction false} MergedLookup(files: seq<string>, query: string, fnmatch: Matcher)
    ensures Collected(Parsed(Merged(files)), query, fnmatch) == Overridden(files, query, fnmatch)
  {
    if files == [] {
      NothingParsed();
    } else {
      var n := |files| - 1;
      MergedLookup(files[..n], query, fnmatch);
      ParseTrailing(Merged(files[..n]) + files[n]);
      MergedThen(files[..n], files[n]);
      CollectedConcat(Parsed(Merged(files[..n])), Parsed(files[n]), query, fnmatch);
    }
  }

  // --- Round trip ----------------------------------------------------------------------

  /** A record as written: its patterns, and its properties in the order of their lines. */
  datatype Record = Record(patterns: seq<string>, properties: seq<(string, string)>)

  predicate GoodPattern(p: string) {
    p != "" && p[0] != ' ' && !IsSpace(p[|p| - 1]) && '\n' !in p && '#' !in p
  }

  predicate GoodKey(k: string) {
    k != "" && k[0] != ' ' && k[0] != '\t' && '\n' !in k && '#' !in k && '=' !in k
  }

  predicate GoodValue(v: string) {
    (v != "" ==> !IsSpace(v[|v| - 1])) && '\n' !in v && '#' !in v
  }

  ghost predicate WellFormed(r: Record) {
    r.patterns != [] && r.properties != [] &&
    (forall i :: 0 <= i < |r.patterns| ==> GoodPattern(r.patterns[i])) &&
    (forall i :: 0 <= i < |r.properties| ==> GoodKey(r.properties[i].0) && GoodValue(r.properties[i].1))
  }

  ghost predicate AllWellFormed(records: seq<Record>) {
    records == [] || (WellFormed(records[0]) && AllWellFormed(records[1..]))
  }

  function PropertyLine(p: (string, string)): string { " " + p.0 + "=" + p.1 }

  function PropertyLines(properties: seq<(string, string)>): (r: seq<string>)
    ensures |r| == |properties|
  {
    if properties == [] then [] else [PropertyLine(properties[0])] + PropertyLines(properties[1..])
  }

  function RecordLines(r: Record): seq<string> { r.patterns + PropertyLines(r.properties) + [""] }

  function AllLines(records: seq<Record>): seq<string> {
    if records == [] then [] else RecordLines(records[0]) + AllLines(records[1..])
  }

  function Text(lines: seq<string>): string {
    if lines == [] then "" else lines[0] + "\n" + Text(lines[1..])
  }

  /** Properties as a map: a key given twice keeps its last value. */
  function Mapped(start: map<string, string>, properties: seq<(string, string)>): map<string, string>
    decreases |properties|
  {
    if properties == [] then start else Mapped(start[properties[0].0 := properties[0].1], properties[1..])
  }

  function EntryOf(r: Record): Entry { Entry(r.patterns, Mapped(map[], r.properties)) }

  function Entries(records: seq<Record>): seq<Entry> {
    if records == [] then [] else [EntryOf(records[0])] + Entries(records[1..])
  }

  lemma {:induction false} SplitWhole(line: string)
    requires '\n' !in line
    ensures Split(line) == [line]
  {
    if line != "" {
      SplitWhole(line[1..]);
      assert [line[0]] + line[1..] == line;
    }
  }

  lemma {:induction false} SplitText(lines: seq<string>)
    requires forall i :: 0 <= i < |lines| ==> '\n' !in lines[i]
    ensures Split(Text(lines)) == lines + [""]
  {
    if lines != [] {
      SplitText(lines[1..]);
      SplitWhole(lines[0]);
      SplitConcat(lines[0], Text(lines[1..]));
    }
  }

  lemma {:induction false} UntilAll(s: string, c: char)
    requires c !in s
    ensures Until(s, c) == s
  {
    if s != "" {
      UntilAll(s[1..], c);
    }
  }

  lemma {:induction false} UntilConcat(a: string, c: char, b: string)
    requires c !in a
    ensures Until(a + [c] + b, c) == a
  {
    if a == "" {
      assert a + [c] + b == [c] + b;
    } else {
      assert (a + [c] + b)[1..] == a[1..] + [c] + b;
      UntilConcat(a[1..], c, b);
    }
  }

  /** A line without comment and trailing space is read as it is. */
  lemma CleanKept(line: string)
    requires '#' !in line && (line != "" ==> !IsSpace(line[|line| - 1]))
    ensures Clean(line) == line
  {
    UntilAll(line, '#');
  }

  lemma PropertyRead(m: Machine, p: (string, string))
    requires m.state != Outside && GoodKey(p.0) && GoodValue(p.1)
    ensures Feed(m, PropertyLine(p)) ==
      m.(state := Data, entry := m.entry.(properties := m.entry.properties[p.0 := p.1]))
  {
    var line := PropertyLine(p);
    assert line[|line| - 1] == if p.1 == "" then '=' else p.1[|p.1| - 1];
    CleanKept(line);
    assert line == (" " + p.0) + ['='] + p.1;
    UntilConcat(" " + p.0, '=', p.1);
    assert line[1] == p.0[0];
    assert line[1..1 + |p.0|] == p.0;
    assert line[1 + |p.0| + 1..] == p.1;
    assert Blanks(line) == 1;
  }

  lemma {:induction false} StripSpaces(line: string, spaces: string)
    requires forall i :: 0 <= i < |spaces| ==> IsSpace(spaces[i])
    ensures Strip(line + spaces) == Strip(line)
  {
    if spaces == "" {
      assert line + spaces == line;
    } else {
      var n := |spaces| - 1;
      assert (line + spaces)[..|line + spaces| - 1] == line + spaces[..n];
      StripSpaces(line, spaces[..n]);
    }
  }

  lemma CleanTrailing(line: string, spaces: string, comment: string)
    requires '#' !in line && '#' !in spaces && forall i :: 0 <= i < |spaces| ==> IsSpace(spaces[i])
    ensures Clean(line + spaces + "#" + comment) == Clean(line)
  {
    assert line + spaces + "#" + comment == (line + spaces) + ['#'] + comment;
    UntilConcat(line + spaces, '#', comment);
    UntilAll(line, '#');
    StripSpaces(line, spaces);
  }

  /** A comment behind a line, and the space before it, change nothing about how the line is read. */
  lemma TrailingIgnored(m: Machine, line: string, spaces: string, comment: string)
    requires line != "" && '#' !in line && '#' !in spaces && forall i :: 0 <= i < |spaces| ==> IsSpace(spaces[i])
    ensures Feed(m, line + spaces + "#" + comment) == Feed(m, line)
  {
    CleanTrailing(line, spaces, comment);
    SameClean(m, line + spaces + "#" + comment, line);
  }

  lemma SameClean(m: Machine, a: string, b: string)
    requires a != "" && b != "" && a[0] != '#' && b[0] != '#' && Clean(a) == Clean(b)
    ensures Feed(m, a) == Feed(m, b)
  {
  }

  lemma {:induction false} PropertiesRead(m: Machine, properties: seq<(string, string)>)
    requires m.state != Outside && properties != []
    requires forall i :: 0 <= i < |properties| ==> GoodKey(properties[i].0) && GoodValue(properties[i].1)
    ensures FeedAll(m, PropertyLines(properties)) ==
      m.(state := Data, entry := m.entry.(properties := Mapped(m.entry.properties, properties)))
    decreases |properties|
  {
    var lines := PropertyLines(properties);
    PropertyRead(m, properties[0]);
    if |properties| > 1 {
      PropertiesRead(Feed(m, lines[0]), properties[1..]);
    } else {
      assert lines[1..] == [];
    }
  }

  lemma {:induction false} PatternsRead(m: Machine, patterns: seq<string>)
    requires m.state != Data && patterns != []
    requires forall i :: 0 <= i < |patterns| ==> GoodPattern(patterns[i])
    ensures FeedAll(m, patterns) ==
      m.(state := Match, entry := m.entry.(patterns := m.entry.patterns + patterns))
    decreases |patterns|
  {
    CleanKept(patterns[0]);
    var next := Feed(m, patterns[0]);
    if |patterns| > 1 {
      PatternsRead(next, patterns[1..]);
      assert next.entry.patterns + patterns[1..] == m.entry.patterns + patterns;
    } else {
      assert patterns == [patterns[0]];
    }
  }

  lemma {:induction false} MappedNotEmpty(start: map<string, string>, properties: seq<(string, string)>)
    requires properties != [] || start != map[]
    ensures Mapped(start, properties) != map[]
    decreases |properties|
  {
    if properties != [] {
      assert properties[0].0 in start[properties[0].0 := properties[0].1];
      MappedNotEmpty(start[properties[0].0 := properties[0].1], properties[1..]);
    }
  }

  lemma RecordRead(entries: seq<Entry>, r: Record)
    requires WellFormed(r)
    ensures FeedAll(Machine(Outside, EMPTY, entries), RecordLines(r)) ==
      Machine(Outside, EMPTY, entries + [EntryOf(r)])
  {
    var m := Machine(Outside, EMPTY, entries);
    var lines := PropertyLines(r.properties);
    FeedConcat(m, r.patterns + lines, [""]);
    FeedConcat(m, r.patterns, lines);
    PatternsRead(m, r.patterns);
    assert [] + r.patterns == r.patterns;
    PropertiesRead(Machine(Match, Entry(r.patterns, map[]), entries), r.properties);
    MappedNotEmpty(map[], r.properties);
    var read := Machine(Data, Entry(r.patterns, Mapped(map[], r.properties)), entries);
    assert FeedAll(read, [""]) == Feed(read, "");
  }

  lemma RecordReadFirst(entries: seq<Entry>, r: Record, lines: seq<string>)
    requires WellFormed(r)
    ensures FeedAll(Machine(Outside, EMPTY, entries), RecordLines(r) + lines) ==
      FeedAll(Machine(Outside, EMPTY, entries + [EntryOf(r)]), lines)
  {
    RecordRead(entries, r);
    FeedConcat(Machine(Outside, EMPTY, entries), RecordLines(r), lines);
  }

  lemma {:induction false} RecordsRead(entries: seq<Entry>, records: seq<Record>)
    requires AllWellFormed(records)
    ensures FeedAll(Machine(Outside, EMPTY, entries), AllLines(records)) ==
      Machine(Outside, EMPTY, entries + Entries(records))
    decreases |records|
  {
    var m := Machine(Outside, EMPTY, entries);
    if records == [] {
      assert entries + [] == entries;
    } else {
      var first, rest := EntryOf(records[0]), records[1..];
      RecordReadFirst(entries, records[0], AllLines(rest));
      RecordsRead(entries + [first], rest);
      assert entries + [first] + Entries(rest) == entries + ([first] + Entries(rest));
    }
  }

  lemma {:induction false} LinesHaveNoBreak(records: seq<Record>)
    requires AllWellFormed(records)
    ensures forall i :: 0 <= i < |AllLines(records)| ==> '\n' !in AllLines(records)[i]
  {
    if records != [] {
      LinesHaveNoBreak(records[1..]);
      PropertyLinesHaveNoBreak(records[0].properties);
    }
  }

  lemma {:induction false} PropertyLinesHaveNoBreak(properties: seq<(string, string)>)
    requires forall i :: 0 <= i < |properties| ==> GoodKey(properties[i].0) && GoodValue(properties[i].1)
    ensures forall i :: 0 <= i < |properties| ==> '\n' !in PropertyLines(properties)[i]
  {
    if properties != [] {
      PropertyLinesHaveNoBreak(properties[1..]);
    }
  }

  /** Writing well-formed records and parsing the text gives the same records back. */
  lemma RoundTrip(records: seq<Record>)
    requires AllWellFormed(records)
    ensures Parsed(Text(AllLines(records))) == Entries(records)
  {
    var lines := AllLines(records);
    LinesHaveNoBreak(records);
    SplitText(lines);
    FeedConcat(START, lines, [""]);
    RecordsRead([], records);
    assert [] + Entries(records) == Entries(records);
    var read := Machine(Outside, EMPTY, Entries(records));
    assert FeedAll(read, [""]) == Feed(read, "");
  }

  // --- What can come out of a text -----------------------------------------------------

  ghost predicate GoodParts(e: Entry) {
    (forall i :: 0 <= i < |e.patterns| ==> GoodPattern(e.patterns[i])) &&
    (forall k :: k in e.properties ==> GoodKey(k) && GoodValue(e.properties[k]))
  }

  ghost predicate GoodEntry(e: Entry) {
    GoodParts(e) && e.patterns != [] && e.properties != map[]
  }

  ghost predicate GoodMachine(m: Machine) {
    GoodParts(m.entry) && forall i :: 0 <= i < |m.entries| ==> GoodEntry(m.entries[i])
  }

  lemma InsertedGood(properties: map<string, string>, line: string)
    requires '#' !in line && '\n' !in line && line != "" && !IsSpace(line[|line| - 1])
    requires forall k :: k in properties ==> GoodKey(k) && GoodValue(properties[k])
    ensures
      var after := Insert(properties, line);
      forall k :: k in after ==> GoodKey(k) && GoodValue(after[k])
  {
    var equals, start := |Until(line, '=')|, Blanks(line);
    if start < equals < |line| {
      assert line[..equals] == Until(line, '=');
      var key, value := line[start..equals], line[equals + 1..];
      assert key[0] == line[start];
      assert '=' !in key && '#' !in key && '\n' !in key;
      assert value != "" ==> value[|value| - 1] == line[|line| - 1];
    }
  }

  lemma CleanIsClean(raw: string)
    requires '\n' !in raw
    ensures
      var line := Clean(raw);
      '#' !in line && '\n' !in line && (line != "" && line[0] != ' ' ==> GoodPattern(line))
  {
  }

  lemma FeedGood(m: Machine, raw: string)
    requires GoodMachine(m) && '\n' !in raw
    ensures GoodMachine(Feed(m, raw))
  {
    var line := Clean(raw);
    CleanIsClean(raw);
    if line != "" {
      InsertedGood(m.entry.properties, line);
    }
  }

  lemma {:induction false} FeedAllGood(m: Machine, lines: seq<string>)
    requires GoodMachine(m) && forall i :: 0 <= i < |lines| ==> '\n' !in lines[i]
    ensures GoodMachine(FeedAll(m, lines))
    decreases |lines|
  {
    if lines != [] {
      FeedGood(m, lines[0]);
      FeedAllGood(Feed(m, lines[0]), lines[1..]);
    }
  }

  lemma {:induction false} SplitHasNoBreak(s: string)
    ensures forall i :: 0 <= i < |Split(s)| ==> '\n' !in Split(s)[i]
  {
    if s != "" {
      SplitHasNoBreak(s[1..]);
    }
  }

  /** Whatever the text, every parsed entry could have been written as a record. */
  lemma ParsedGood(content: string)
    ensures forall i :: 0 <= i < |Parsed(content)| ==> GoodEntry(Parsed(content)[i])
  {
    SplitHasNoBreak(content);
    FeedAllGood(START, Split(content));
  }

  /** The properties of a map, in some order. */
  ghost function Listed(properties: map<string, string>): (r: seq<(string, string)>)
    ensures forall i :: 0 <= i < |r| ==> r[i].0 in properties && r[i].1 == properties[r[i].0]
    ensures properties != map[] ==> r != []
    decreases |properties|
  {
    if properties == map[] then [] else
      var k :| k in properties;
      [(k, properties[k])] + Listed(properties - {k})
  }

  lemma MapSplit(start: map<string, string>, properties: map<string, string>, k: string)
    requires k in properties
    ensures start[k := properties[k]] + (properties - {k}) == start + properties
  {
  }

  lemma {:induction false} ListedMaps(start: map<string, string>, properties: map<string, string>)
    ensures Mapped(start, Listed(properties)) == start + properties
    decreases |properties|
  {
    if properties == map[] {
      assert start + properties == start;
    } else {
      var list := Listed(properties);
      var k := list[0].0;
      assert list[1..] == Listed(properties - {k});
      ListedMaps(start[k := properties[k]], properties - {k});
      MapSplit(start, properties, k);
    }
  }

  ghost function Written(entries: seq<Entry>): seq<Record> {
    if entries == [] then []
    else [Record(entries[0].patterns, Listed(entries[0].properties))] + Written(entries[1..])
  }

  lemma {:induction false} WrittenBack(entries: seq<Entry>)
    requires forall i :: 0 <= i < |entries| ==> GoodEntry(entries[i])
    ensures Entries(Written(entries)) == entries
    ensures AllWellFormed(Written(entries))
  {
    if entries != [] {
      WrittenBack(entries[1..]);
      ListedMaps(map[], entries[0].properties);
      assert map[] + entries[0].properties == entries[0].properties;
    }
  }

  /** Exactly the lists of good entries are what some text parses to: the side conditions are tight. */
  lemma ParsedIffGood(entries: seq<Entry>)
    ensures (exists content :: Parsed(content) == entries) <==>
      forall i :: 0 <= i < |entries| ==> GoodEntry(entries[i])
  {
    if forall i :: 0 <= i < |entries| ==> GoodEntry(entries[i]) {
      WrittenBack(entries);
      RoundTrip(Written(entries));
      assert Parsed(Text(AllLines(Written(entries)))) == entries;
    }
    if exists content :: Parsed(content) == entries {
      var content :| Parsed(content) == entries;
      ParsedGood(content);
    }
  }

  // --- The class -----------------------------------------------------------------------

  class Hwdb {
    var entries: seq<Entry>

    constructor ()
      ensures entries == []
    {
      entries := [];
    }

    static method StripTrailingWhitespace(line: string) returns (r: string)
      ensures r == Strip(line)
    {
      r := line;
      while r != "" && IsSpace(r[|r| - 1])
        invariant Strip(r) == Strip(line)
        decreases |r|
      {
        r := r[..|r| - 1];
      }
    }

    /** The insert_property closure of Parse. */
    static method InsertProperty(properties: map<string, string>, line: string) returns (r: map<string, string>)
      requires line != "" && line[0] == ' '
      ensures r == Insert(properties, line)
    {
      var equals := |Until(line, '=')|;
      if equals == |line| {
        return properties;
      }
      assert line[equals] == '=';
      var keyStart := 0;
      while keyStart + 1 < equals && IsBlank(line[keyStart]) && IsBlank(line[keyStart + 1])
        invariant 0 <= keyStart && (keyStart < equals || keyStart == 0)
        invariant forall i :: 0 <= i <= keyStart ==> IsBlank(line[i])
      {
        keyStart := keyStart + 1;
      }
      keyStart := keyStart + 1;
      if keyStart >= equals {
        return properties;
      }
      r := properties[line[keyStart..equals] := line[equals + 1..]];
    }

    method Parse(content: string)
      modifies this
      ensures entries == Parsed(content)
    {
      entries := [];
      var state, entry := Outside, EMPTY;
      var lines := Split(content);
      var i := 0;
      while i < |lines|
        invariant 0 <= i <= |lines|
        invariant FeedAll(Machine(state, entry, entries), lines[i..]) == FeedAll(START, lines)
      {
        ghost var before := Machine(state, entry, entries);
        var raw := lines[i];
        i := i + 1;
        if raw != "" && raw[0] == '#' {
          continue;
        }
        var line := StripTrailingWhitespace(Until(raw, '#'));
        match state {
          case Outside =>
            if line != "" && line[0] != ' ' {
              state, entry := Match, entry.(patterns := entry.patterns + [line]);
            }
          case Match =>
            if line == "" {
              entry, state := EMPTY, Outside;
            } else if line[0] != ' ' {
              entry := entry.(patterns := entry.patterns + [line]);
            } else {
              var properties := InsertProperty(entry.properties, line);
              state, entry := Data, entry.(properties := properties);
            }
          case Data =>
            if line == "" || line[0] != ' ' {
              FinishRecord(entry);
              entry, state := EMPTY, Outside;
            } else {
              var properties := InsertProperty(entry.properties, line);
              entry := entry.(properties := properties);
            }
        }
        assert Machine(state, entry, entries) == Feed(before, raw);
      }
      if state == Data {
        FinishRecord(entry);
      }
    }

    method FinishRecord(entry: Entry)
      modifies this
      ensures entries ==
        if entry.patterns != [] && entry.properties != map[] then old(entries) + [entry] else old(entries)
    {
      if entry.patterns != [] && entry.properties != map[] {
        entries := entries + [entry];
      }
    }

    static method AnyMatches(patterns: seq<string>, query: string, fnmatch: Matcher) returns (matched: bool)
      ensures matched == Matched(patterns, query, fnmatch)
    {
      for i := 0 to |patterns|
        invariant forall j :: 0 <= j < i ==> !fnmatch(patterns[j], query)
      {
        if fnmatch(patterns[i], query) {
          return true;
        }
      }
      matched := false;
    }

    /** Later entries overwrite what earlier ones set. */
    method MatchAndCollect(query: string, fnmatch: Matcher, start: map<string, string>)
      returns (result: map<string, string>)
      ensures result == start + Collected(entries, query, fnmatch)
    {
      result := start;
      for i := 0 to |entries|
        invariant result == start + Collected(entries[..i], query, fnmatch)
      {
        assert entries[..i + 1][..i] == entries[..i];
        var matched := AnyMatches(entries[i].patterns, query, fnmatch);
        if matched {
          result := result + entries[i].properties;
        }
      }
      assert entries[..|entries|] == entries;
    }

    method GetProperties(query: string, fnmatch: Matcher) returns (result: map<string, string>)
      ensures result == Collected(entries, query, fnmatch)
    {
      result := MatchAndCollect(query, fnmatch, map[]);
    }

    method GetProperty(query: string, key: string, defaultValue: string, fnmatch: Matcher) returns (value: string)
      ensures
        var all := Collected(entries, query, fnmatch);
        value == if key in all then all[key] else defaultValue
    {
      var all := GetProperties(query, fnmatch);
      value := if key in all then all[key] else defaultValue;
    }
  }

  /** The merge loop of CameraHwdb.Load, over the files that could be read. */
  method Merge(files: seq<string>) returns (merged: string)
    ensures merged == Merged(files)
  {
    merged := "";
    for i := 0 to |files|
      invariant merged == Merged(files[..i])
    {
      assert files[..i + 1][..i] == files[..i];
      merged := merged + files[i] + "\n\n";
    }
    assert files[..|files|] == files;
  }
}
