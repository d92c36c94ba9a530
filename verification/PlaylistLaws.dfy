/** What the player's playlist says when it is parsed again. */
module PlaylistLaws {
  import opened Prelude
  import opened Text
  import opened Playlist

  // ----- Names and numbers

  /** The segment names of a playlist. */
  function Names(lines: seq<string>): seq<string> {
    if lines == [] then []
    else
      var last := lines[|lines| - 1];
      Names(lines[..|lines| - 1]) + if !IsTag(last) && Trim(last) != "" then [Trim(last)] else []
  }

  function Local(names: seq<string>, present: set<string>): seq<string> {
    if names == [] then []
    else
      var last := names[|names| - 1];
      Local(names[..|names| - 1], present) + if last in present then [last] else []
  }

  function NotTags(names: seq<string>): seq<string> {
    if names == [] then []
    else
      var last := names[|names| - 1];
      NotTags(names[..|names| - 1]) + if IsTag(last) then [] else [last]
  }

  function NamesOf(entries: seq<Entry>): (r: seq<string>)
    ensures |r| == |entries| && forall i :: 0 <= i < |r| ==> r[i] == entries[i].name
  {
    seq(|entries|, i requires 0 <= i < |entries| => entries[i].name)
  }

  /** Where the first local segment is. */
  function FirstLocal(names: seq<string>, present: set<string>): (i: nat)
    ensures i <= |names| && (i < |names| ==> names[i] in present)
    ensures forall j :: 0 <= j < i ==> names[j] !in present
  {
    if names == [] then 0
    else
      var i := FirstLocal(names[..|names| - 1], present);
      if i < |names| - 1 || names[i] in present then i else |names|
  }

  lemma LocalSnoc(names: seq<string>, name: string, present: set<string>)
    ensures Local(names + [name], present) == Local(names, present) + if name in present then [name] else []
    ensures Local(names, present) == [] ==> forall x <- names :: x !in present
    ensures Local(names, present) != [] ==> FirstLocal(names, present) < |names|
    ensures FirstLocal(names + [name], present) ==
      if Local(names, present) != [] then FirstLocal(names, present)
      else if name in present then |names| else |names| + 1
  {
    assert (names + [name])[..|names|] == names;
    LocalIsEmpty(names, present);
  }

  lemma {:induction false} LocalIsEmpty(names: seq<string>, present: set<string>)
    ensures Local(names, present) == [] <==> forall x <- names :: x !in present
    ensures Local(names, present) == [] <==> FirstLocal(names, present) == |names|
  {
    if names != [] {
      LocalIsEmpty(names[..|names| - 1], present);
      assert names[|names| - 1] in names;
      assert forall x <- names :: x in names[..|names| - 1] || x == names[|names| - 1];
    }
  }

  const WRAP := 0x1_0000_0000_0000_0000

  lemma WrapNext(a: nat)
    ensures (a % WRAP + 1) % WRAP == (a + 1) % WRAP
  {
  }

  predicate KeepsLocal(s: Scan, start: u64, names: seq<string>, present: set<string>) {
    && NamesOf(s.kept) == Local(names, present)
    && s.next == (start + |names|) % WRAP
    && (s.kept != [] ==> s.kept[0].number == (start + FirstLocal(names, present)) % WRAP)
  }

  lemma TagKeepsLocal(s: Scan, line: string, start: u64, names: seq<string>, present: set<string>)
    requires KeepsLocal(s, start, names, present)
    ensures KeepsLocal(ScanTag(s, line), start, names, present)
  {
  }

  lemma NameKeepsLocal(s: Scan, name: string, start: u64, names: seq<string>, present: set<string>)
    requires KeepsLocal(s, start, names, present) && name != ""
    ensures KeepsLocal(ScanName(s, name, present), start, names + [name], present)
  {
    hide Local, FirstLocal;
    var s' := ScanName(s, name, present);
    LocalSnoc(names, name, present);
    WrapNext(start + |names|);
    assert |s.kept| == |Local(names, present)|;
    if name in present {
      assert NamesOf(s'.kept) == NamesOf(s.kept) + [name];
      if s.kept != [] {
        assert s'.kept[0] == s.kept[0];
      }
    }
  }

  /** The scan keeps the local segments in order; the first one's number counts the segments before it. */
  lemma {:induction false} ScanKeepsLocal(start: u64, lines: seq<string>, present: set<string>)
    ensures KeepsLocal(ScanLines(start, lines, present), start, Names(lines), present)
  {
    if lines != [] {
      hide KeepsLocal, Trim, ScanTag, ScanName, IsTag;
      var front, last := lines[..|lines| - 1], lines[|lines| - 1];
      ScanKeepsLocal(start, front, present);
      var before := ScanLines(start, front, present);
      if IsTag(last) {
        assert Names(lines) == Names(front);
        TagKeepsLocal(before, last, start, Names(front), present);
      } else if Trim(last) != "" {
        NameKeepsLocal(before, Trim(last), start, Names(front), present);
      } else {
        assert Names(lines) == Names(front);
        NoName(before, present);
      }
    }
  }

  lemma NoName(s: Scan, present: set<string>)
    ensures ScanName(s, "", present) == s
  {
  }

  // ----- Lines and their joins

  predicate NoNewline(line: string) {
    '\n' !in line
  }

  lemma {:induction false} LinesHaveNoNewline(text: string)
    ensures forall l <- Lines(text) :: NoNewline(l)
    decreases |text|
  {
    if text != "" {
      var i := LineEnd(text);
      assert text[..|text|] == text;
      if i < |text| {
        LinesHaveNoNewline(text[i + 1..]);
      }
    }
  }

  function Stripped(lines: seq<string>): (r: seq<string>)
    ensures |r| == |lines| && forall i :: 0 <= i < |r| ==> r[i] == StripCr(lines[i])
  {
    seq(|lines|, i requires 0 <= i < |lines| => StripCr(lines[i]))
  }

  lemma FirstLine(line: string, rest: string)
    requires NoNewline(line)
    ensures Lines(line + "\n" + rest) == [StripCr(line)] + Lines(rest)
  {
    var text := line + "\n" + rest;
    var i := LineEnd(text);
    assert text[|line|] == '\n' && forall j :: 0 <= j < |line| ==> text[j] == line[j];
    assert forall j :: 0 <= j < i ==> text[j] in text[..i];
    assert text[..i] == line && text[i + 1..] == rest;
  }

  /** Joined lines come back with at most a carriage return less. */
  lemma {:induction false} LinesOfJoin(lines: seq<string>)
    requires forall l <- lines :: NoNewline(l)
    ensures Lines(Join(lines)) == Stripped(lines)
  {
    hide Lines, Join, StripCr, NoNewline, Stripped;
    if lines == [] {
      NothingJoined();
    } else {
      var first, rest := lines[0], lines[1..];
      LinesOfJoin(rest);
      assert lines == [first] + rest;
      JoinFirst(first, rest);
      StrippedFirst(first, rest);
      FirstLine(first, Join(rest));
    }
  }

  lemma NothingJoined()
    ensures Lines(Join([])) == Stripped([])
  {
  }

  lemma JoinFirst(first: string, rest: seq<string>)
    ensures Join([first] + rest) == first + "\n" + Join(rest)
  {
    hide Join;
    JoinMore([first], rest);
    JoinOne([], first);
    JoinNone();
    assert [] + [first] == [first] && "" + first == first;
  }

  lemma StrippedFirst(first: string, rest: seq<string>)
    ensures Stripped([first] + rest) == [StripCr(first)] + Stripped(rest)
  {
    hide StripCr;
  }

  // ----- Inserting the sequence tag

  predicate SomeTake(lines: seq<string>) {
    exists i :: 0 <= i < |lines| && TakesSequence(lines[i])
  }

  /** The place after the first line that takes the tag, or the end. */
  function InsertAt(lines: seq<string>): (i: nat)
    ensures i <= |lines|
  {
    if lines == [] then 0
    else if SomeTake(lines[..|lines| - 1]) then InsertAt(lines[..|lines| - 1])
    else |lines|
  }

  lemma SomeTakeSnoc(front: seq<string>, last: string)
    ensures SomeTake(front + [last]) <==> SomeTake(front) || TakesSequence(last)
  {
    hide TakesSequence;
    var lines := front + [last];
    assert lines[|front|] == last && forall i :: 0 <= i < |front| ==> lines[i] == front[i];
  }

  lemma {:induction false} InsertedShape(lines: seq<string>, tag: string)
    ensures Inserted(lines, tag).1 == SomeTake(lines)
    ensures Inserted(lines, tag).0 ==
      if SomeTake(lines) then lines[..InsertAt(lines)] + [tag] + lines[InsertAt(lines)..] else lines
    ensures !SomeTake(lines) ==> InsertAt(lines) == |lines|
  {
    hide SomeTake, TakesSequence, Inserted, InsertAt;
    if lines == [] {
      NoneTake();
      NoneInserted(tag);
    } else {
      var front, last := lines[..|lines| - 1], lines[|lines| - 1];
      InsertedShape(front, tag);
      assert lines == front + [last];
      SomeTakeSnoc(front, last);
      InsertedSnoc(front, last, tag);
      InsertAtSnoc(front, last);
      if SomeTake(front) {
        SliceSnoc(front, last, InsertAt(front));
      } else {
        WholeSlices(lines);
      }
    }
  }

  lemma InsertedSnoc(front: seq<string>, last: string, tag: string)
    ensures var (out, done) := Inserted(front, tag);
      Inserted(front + [last], tag) ==
      if !done && TakesSequence(last) then (out + [last] + [tag], true) else (out + [last], done)
  {
    hide TakesSequence;
    assert (front + [last])[..|front|] == front;
    assert Inserted(front, tag).0 + [last, tag] == Inserted(front, tag).0 + [last] + [tag];
  }

  lemma InsertAtSnoc(front: seq<string>, last: string)
    ensures InsertAt(front + [last]) == if SomeTake(front) then InsertAt(front) else |front| + 1
  {
    hide SomeTake;
    assert (front + [last])[..|front|] == front;
  }

  lemma SliceSnoc<T>(front: seq<T>, last: T, i: nat)
    requires i <= |front|
    ensures (front + [last])[..i] == front[..i] && (front + [last])[i..] == front[i..] + [last]
  {
  }

  lemma WholeSlices<T>(s: seq<T>)
    ensures s[..|s|] == s && s[|s|..] == []
  {
  }

  lemma NoneInserted(tag: string)
    ensures Inserted([], tag) == ([], false) && InsertAt([]) == 0
  {
  }

  lemma NoneTake()
    ensures !SomeTake([])
  {
  }

  /** The output is the lines with the tag put in at one place. */
  lemma InsertsOnce(lines: seq<string>, tag: string)
    ensures WithSequence(lines, tag) == lines[..InsertAt(lines)] + [tag] + lines[InsertAt(lines)..]
  {
    InsertedShape(lines, tag);
    assert lines[..|lines|] == lines && lines[|lines|..] == [];
  }

  lemma ParseNothing()
    ensures ParseLines([]) == []
  {
  }

  lemma ParseSnoc(lines: seq<string>, line: string)
    ensures ParseLines(lines + [line]) == ParseLines(lines) + if line != "" && !IsTag(line) then [Trim(line)] else []
  {
    assert (lines + [line])[..|lines|] == lines;
  }

  lemma {:induction false} ParseLinesJoin(a: seq<string>, b: seq<string>)
    ensures ParseLines(a + b) == ParseLines(a) + ParseLines(b)
  {
    hide ParseLines;
    if b == [] {
      assert a + b == a;
      ParseNothing();
    } else {
      var front, last := b[..|b| - 1], b[|b| - 1];
      ParseLinesJoin(a, front);
      ParseSnoc(a + front, last);
      ParseSnoc(front, last);
      assert a + b == (a + front) + [last] && b == front + [last];
    }
  }

  lemma ParseOne(line: string)
    ensures ParseLines([line]) == if line != "" && !IsTag(line) then [Trim(line)] else []
  {
    assert [line][..0] == [];
  }

  lemma InsertedTagIsNoName(lines: seq<string>, tag: string)
    requires IsTag(tag)
    ensures ParseLines(WithSequence(lines, tag)) == ParseLines(lines)
  {
    hide WithSequence, InsertAt, ParseLines;
    var i := InsertAt(lines);
    InsertsOnce(lines, tag);
    var a, b := lines[..i], lines[i..];
    ParseLinesJoin(a + [tag], b);
    ParseLinesJoin(a, [tag]);
    ParseLinesJoin(a, b);
    assert a + b == lines;
    ParseOne(tag);
    assert ParseLines(a) + [] == ParseLines(a);
  }

  // ----- What the scan leaves behind

  /** A line as the output has it: a tag, or a segment name. */
  predicate Clean(line: string) {
    && NoNewline(line)
    && if IsTag(line) then !StartsWith(line, SEQUENCE_TAG) else line != "" && Trim(line) == line
  }

  predicate CleanTags(tags: seq<string>) {
    forall t <- tags :: IsTag(t) && Clean(t)
  }

  /** A trimmed name; it may look like a tag. */
  predicate CleanName(name: string) {
    NoNewline(name) && name != "" && Trim(name) == name
  }

  predicate CleanScan(s: Scan) {
    && CleanTags(s.header) && CleanTags(s.pending)
    && (forall e <- s.kept :: CleanTags(e.tags) && CleanName(e.name))
    && (forall t <- s.header :: !StartsWith(t, SEGMENT_TAG))
  }

  lemma TrimTwice(s: string)
    ensures Trim(Trim(s)) == Trim(s)
  {
  }

  lemma TagStaysClean(s: Scan, line: string)
    requires CleanScan(s) && IsTag(line) && NoNewline(line)
    ensures CleanScan(ScanTag(s, line))
  {
    hide StartsWith;
  }

  lemma NameStaysClean(s: Scan, line: string, present: set<string>)
    requires CleanScan(s) && NoNewline(line)
    ensures CleanScan(ScanName(s, Trim(line), present))
  {
    hide StartsWith;
    TrimTwice(line);
  }

  lemma {:induction false} ScanIsClean(start: u64, lines: seq<string>, present: set<string>)
    requires forall l <- lines :: NoNewline(l)
    ensures CleanScan(ScanLines(start, lines, present))
  {
    if lines != [] {
      var front, last := lines[..|lines| - 1], lines[|lines| - 1];
      hide CleanScan, ScanTag, ScanName, StartsWith, Trim;
      ScanIsClean(start, front, present);
      if IsTag(last) {
        TagStaysClean(ScanLines(start, front, present), last);
      } else {
        NameStaysClean(ScanLines(start, front, present), last, present);
      }
    } else {
      assert CleanScan(Scan(start, [], [], [], false, false));
    }
  }

  // ----- Parsing the output

  /** A line that parses to a name if it is no tag: what stripping a carriage return cannot change. */
  predicate Firm(line: string) {
    NoNewline(line) && (IsTag(line) || CleanName(line))
  }

  lemma StripKeepsFirm(line: string)
    requires Firm(line)
    ensures Firm(StripCr(line)) && IsTag(StripCr(line)) == IsTag(line)
    ensures !IsTag(line) ==> StripCr(line) == line
  {
  }

  lemma {:induction false} StrippedParsesAlike(lines: seq<string>)
    requires forall l <- lines :: Firm(l)
    ensures ParseLines(Stripped(lines)) == ParseLines(lines)
    ensures forall l <- Stripped(lines) :: Firm(l)
  {
    hide Firm, StripCr, IsTag, Trim;
    if lines != [] {
      var front, last := lines[..|lines| - 1], lines[|lines| - 1];
      StrippedParsesAlike(front);
      StripKeepsFirm(last);
      assert Stripped(lines) == Stripped(front) + [StripCr(last)];
      FirmIsNotEmpty(last);
      FirmIsNotEmpty(StripCr(last));
    }
  }

  lemma FirmIsNotEmpty(line: string)
    requires Firm(line)
    ensures line != ""
  {
  }

  lemma {:induction false} TagsParseToNothing(tags: seq<string>)
    requires CleanTags(tags)
    ensures ParseLines(tags) == []
  {
    if tags != [] {
      TagsParseToNothing(tags[..|tags| - 1]);
      assert tags[|tags| - 1] in tags;
    }
  }

  predicate CleanEntries(entries: seq<Entry>) {
    forall e <- entries :: CleanTags(e.tags) && CleanName(e.name)
  }

  lemma {:induction false} EntriesParseToNames(entries: seq<Entry>)
    requires CleanEntries(entries)
    ensures ParseLines(EntryLines(entries)) == NotTags(NamesOf(entries))
  {
    if entries != [] {
      hide CleanTags, CleanName, IsTag, ParseLines;
      var front, last := entries[..|entries| - 1], entries[|entries| - 1];
      EntriesParseToNames(front);
      assert NamesOf(entries)[..|front|] == NamesOf(front);
      assert last in entries;
      ParseLinesJoin(EntryLines(front) + last.tags, [last.name]);
      ParseLinesJoin(EntryLines(front), last.tags);
      TagsParseToNothing(last.tags);
      NameParses(last.name);
      assert ParseLines(EntryLines(front)) + [] == ParseLines(EntryLines(front));
    } else {
      assert NamesOf(entries) == [];
    }
  }

  lemma NameParses(name: string)
    requires CleanName(name)
    ensures ParseLines([name]) == if IsTag(name) then [] else [name]
  {
    ParseOne(name);
  }

  lemma {:induction false} EntryLinesAreFirm(entries: seq<Entry>)
    requires CleanEntries(entries)
    ensures forall l <- EntryLines(entries) :: Firm(l)
  {
    if entries != [] {
      hide CleanName, Clean, IsTag;
      var front, last := entries[..|entries| - 1], entries[|entries| - 1];
      EntryLinesAreFirm(front);
      assert last in entries;
      NameIsFirm(last.name);
      TagsAreFirm(last.tags);
      hide Firm;
    }
  }

  lemma NameIsFirm(name: string)
    requires CleanName(name)
    ensures Firm(name)
  {
  }

  lemma TagsAreFirm(tags: seq<string>)
    requires CleanTags(tags)
    ensures forall t <- tags :: Firm(t)
  {
  }

  lemma BodyParses(s: Scan, keep: nat)
    requires CleanScan(s) && keep <= |s.kept|
    ensures ParseLines(BodyLines(s, keep)) == NotTags(NamesOf(s.kept)[..keep])
    ensures forall l <- BodyLines(s, keep) :: Firm(l)
  {
    hide Firm, CleanTags, CleanName, StartsWith, IsTag;
    var entries := s.kept[..keep];
    ParseLinesJoin(s.header, EntryLines(entries));
    TagsParseToNothing(s.header);
    EntriesParseToNames(entries);
    EntryLinesAreFirm(entries);
    TagsAreFirm(s.header);
    assert NamesOf(entries) == NamesOf(s.kept)[..keep];
    assert [] + ParseLines(EntryLines(entries)) == ParseLines(EntryLines(entries));
  }

  /** The lines of the output, before they are joined. */
  function OutputLines(s: Scan, keep: nat): seq<string>
    requires 0 < keep <= |s.kept|
  {
    WithSequence(Stripped(BodyLines(s, keep)), SequenceLine(s.kept[0].number))
  }

  predicate AllFirm(lines: seq<string>) {
    forall l <- lines :: Firm(l)
  }

  lemma SequenceLineIsFirm(n: u64)
    ensures Firm(SequenceLine(n)) && IsTag(SequenceLine(n))
    ensures StripCr(SequenceLine(n)) == SequenceLine(n)
  {
    var s := SequenceLine(n);
    assert s[0] == '#';
    assert s[|s| - 1] == Format(n)[|Format(n)| - 1];
    assert IsDigit(s[|s| - 1]);
    forall i | 0 <= i < |s|
      ensures s[i] != '\n'
    {
      assert i >= |SEQUENCE_TAG| ==> IsDigit(Format(n)[i - |SEQUENCE_TAG|]);
    }
  }

  lemma InsertedIsFirm(lines: seq<string>, tag: string)
    requires AllFirm(lines) && Firm(tag)
    ensures AllFirm(WithSequence(lines, tag))
  {
    hide Firm, WithSequence, InsertAt;
    InsertsOnce(lines, tag);
  }

  /** What a reader of the output gets: its lines, which parse to the kept names that are no tags. */
  lemma OutputParses(s: Scan, keep: nat)
    requires CleanScan(s) && 0 < keep <= |s.kept|
    ensures var out := OutputLines(s, keep);
      && Lines(Join(BodyLines(s, keep))) == Stripped(BodyLines(s, keep))
      && AllFirm(out) && Lines(Join(out)) == Stripped(out)
      && ParseLines(Stripped(out)) == NotTags(NamesOf(s.kept)[..keep])
  {
    hide CleanScan, BodyLines, WithSequence, SequenceLine, Stripped, ParseLines, NotTags, IsTag, Lines, Join, StripCr;
    var body, tag := BodyLines(s, keep), SequenceLine(s.kept[0].number);
    BodyParses(s, keep);
    LinesOfJoin(body);
    StrippedParsesAlike(body);
    SequenceLineIsFirm(s.kept[0].number);
    InsertedIsFirm(Stripped(body), tag);
    InsertedTagIsNoName(Stripped(body), tag);
    LinesOfJoin(OutputLines(s, keep));
    StrippedParsesAlike(OutputLines(s, keep));
  }

  // ----- Main results

  lemma {:induction false} LocalOfParsed(lines: seq<string>, present: set<string>)
    requires "" !in present
    ensures Local(ParseLines(lines), present) == Local(Names(lines), present)
  {
    if lines != [] {
      hide Trim, IsTag;
      var front, last := lines[..|lines| - 1], lines[|lines| - 1];
      LocalOfParsed(front, present);
      LocalSnoc(ParseLines(front), Trim(last), present);
      LocalSnoc(Names(front), Trim(last), present);
      EmptyTrims(last);
      assert Names(front) + [] == Names(front) && ParseLines(front) + [] == ParseLines(front);
      assert Local(Names(front), present) + [] == Local(Names(front), present);
    }
  }

  lemma EmptyTrims(line: string)
    ensures line == "" ==> Trim(line) == ""
  {
  }

  lemma {:induction false} SeesM3u(start: u64, lines: seq<string>, present: set<string>)
    ensures ScanLines(start, lines, present).sawM3u <==> exists l <- lines :: StartsWith(l, M3U_TAG)
  {
    if lines != [] {
      var front, last := lines[..|lines| - 1], lines[|lines| - 1];
      SeesM3u(start, front, present);
      M3uIsATag(last);
      hide StartsWith, Trim;
      assert lines == front + [last];
    }
  }

  lemma M3uIsATag(line: string)
    ensures StartsWith(line, M3U_TAG) ==> IsTag(line) && !StartsWith(line, SEQUENCE_TAG)
  {
    assert StartsWith(line, M3U_TAG) ==> line[4] == 'M';
  }

  /** The local segments of a manifest, in order. */
  function LocalSegments(text: string, present: set<string>): seq<string> {
    Local(ParseManifest(text), present)
  }

  function ScanOf(text: string, present: set<string>): Scan {
    ScanLines(SequenceOf(Lines(text)), Lines(text), present)
  }

  /** The scan behind a playlist, and what a reader of the playlist gets in terms of it. */
  lemma BehindPlayback(text: string, present: set<string>, holdback: nat)
    requires Playback(text, present, holdback).Some?
    ensures var s := ScanOf(text, present);
      && CleanScan(s) && s.sawM3u && |s.kept| > holdback
      && Playback(text, present, holdback).value == Join(OutputLines(s, |s.kept| - holdback))
      && Lines(Playback(text, present, holdback).value) == Stripped(OutputLines(s, |s.kept| - holdback))
  {
    var s := ScanOf(text, present);
    LinesHaveNoNewline(text);
    ScanIsClean(SequenceOf(Lines(text)), Lines(text), present);
    hide ScanLines, Lines, Join, WithSequence, CleanScan, SequenceOf, BodyLines, SequenceLine, Stripped, ParseLines, NotTags;
    OutputParses(s, |s.kept| - holdback);
  }

  lemma SegmentsOfScan(text: string, present: set<string>)
    requires "" !in present
    ensures NamesOf(ScanOf(text, present).kept) == LocalSegments(text, present)
  {
    hide Local, FirstLocal, ScanLines, SequenceOf, Lines;
    ScanKeepsLocal(SequenceOf(Lines(text)), Lines(text), present);
    LocalOfParsed(Lines(text), present);
  }

  lemma NumberOfFirst(text: string, present: set<string>)
    requires ScanOf(text, present).kept != []
    ensures ScanOf(text, present).kept[0].number
      == (SequenceOf(Lines(text)) + FirstLocal(Names(Lines(text)), present)) % WRAP
  {
    hide Local, FirstLocal, ScanLines, SequenceOf, Lines;
    ScanKeepsLocal(SequenceOf(Lines(text)), Lines(text), present);
  }

  /**
   There is a playlist exactly if some line starts with the M3U tag and more than `holdback`
   segments are local; parsed again it gives the first of them, leaving out names that look like tags.
   */
  lemma ReparsedPlaylist(text: string, present: set<string>, holdback: nat)
    requires "" !in present
    ensures var segments := LocalSegments(text, present);
      && (Playback(text, present, holdback).None? <==>
           (forall l <- Lines(text) :: !StartsWith(l, M3U_TAG)) || |segments| <= holdback)
      && (Playback(text, present, holdback).Some? ==>
           ParseManifest(Playback(text, present, holdback).value) == NotTags(segments[..|segments| - holdback]))
  {
    hide ScanOf, Lines, SequenceOf, Playback, LocalSegments, StartsWith, NotTags, ParseManifest;
    SegmentsOfScan(text, present);
    SeesM3uLine(text, present);
    PlaybackExists(text, present, holdback);
    if Playback(text, present, holdback).Some? {
      PlaybackParses(text, present, holdback);
    }
  }

  lemma SeesM3uLine(text: string, present: set<string>)
    ensures ScanOf(text, present).sawM3u <==> exists l <- Lines(text) :: StartsWith(l, M3U_TAG)
  {
    hide Lines, SequenceOf, StartsWith;
    SeesM3u(SequenceOf(Lines(text)), Lines(text), present);
  }

  lemma PlaybackParses(text: string, present: set<string>, holdback: nat)
    requires Playback(text, present, holdback).Some?
    ensures var names := NamesOf(ScanOf(text, present).kept);
      && |names| > holdback
      && ParseManifest(Playback(text, present, holdback).value) == NotTags(names[..|names| - holdback])
  {
    hide ScanOf, Lines, Playback, OutputLines, BodyLines, CleanScan, Stripped, NotTags, ParseLines, AllFirm;
    BehindPlayback(text, present, holdback);
    OutputParses(ScanOf(text, present), |ScanOf(text, present).kept| - holdback);
  }

  lemma PlaybackExists(text: string, present: set<string>, holdback: nat)
    ensures var s := ScanOf(text, present);
      Playback(text, present, holdback).None? <==> !s.sawM3u || |s.kept| <= holdback
  {
    hide ScanLines, Lines, SequenceOf, BodyLines, Join, WithSequence;
  }

  lemma {:induction false} NoTagsToDrop(names: seq<string>)
    ensures |NotTags(names)| <= |names| && (|NotTags(names)| == |names| ==> NotTags(names) == names)
    ensures NotTags(names) == names <==> forall n <- names :: !IsTag(n)
  {
    hide IsTag;
    if names != [] {
      var front, last := names[..|names| - 1], names[|names| - 1];
      NoTagsToDrop(front);
      assert names == front + [last];
      assert forall n <- names :: n in front || n == last;
      if IsTag(last) {
        assert last in names && |NotTags(names)| < |names|;
      } else if NotTags(front) != front {
        assert NotTags(names)[..|NotTags(front)|] == NotTags(front);
        var n :| n in front && IsTag(n);
        assert n in names;
      }
    }
  }

  // ----- The media sequence

  function CountSequence(lines: seq<string>): nat {
    if lines == [] then 0
    else CountSequence(lines[..|lines| - 1]) + if StartsWith(lines[|lines| - 1], SEQUENCE_TAG) then 1 else 0
  }

  lemma {:induction false} CountJoin(a: seq<string>, b: seq<string>)
    ensures CountSequence(a + b) == CountSequence(a) + CountSequence(b)
  {
    hide StartsWith;
    if b == [] {
      assert a + b == a;
    } else {
      CountJoin(a, b[..|b| - 1]);
      assert (a + b)[..|a + b| - 1] == a + b[..|b| - 1];
    }
  }

  lemma CountOne(line: string)
    ensures CountSequence([line]) == if StartsWith(line, SEQUENCE_TAG) then 1 else 0
  {
    hide StartsWith;
    assert [line][..0] == [];
    assert CountSequence([]) == 0;
  }

  lemma {:induction false} TagsCountNothing(tags: seq<string>)
    requires CleanTags(tags)
    ensures CountSequence(tags) == 0
  {
    hide StartsWith;
    if tags != [] {
      TagsCountNothing(tags[..|tags| - 1]);
      assert tags[|tags| - 1] in tags;
    }
  }

  lemma {:induction false} EntriesCountNames(entries: seq<Entry>)
    requires CleanEntries(entries)
    ensures CountSequence(EntryLines(entries)) == CountSequence(NamesOf(entries))
  {
    hide StartsWith, CleanTags, CleanName, CountSequence;
    if entries != [] {
      var front, last := entries[..|entries| - 1], entries[|entries| - 1];
      EntriesCountNames(front);
      assert last in entries;
      assert NamesOf(entries) == NamesOf(front) + [last.name];
      CountJoin(NamesOf(front), [last.name]);
      CountJoin(EntryLines(front) + last.tags, [last.name]);
      CountJoin(EntryLines(front), last.tags);
      TagsCountNothing(last.tags);
    } else {
      assert NamesOf(entries) == EntryLines(entries);
    }
  }

  lemma StripKeepsStart(line: string)
    requires Firm(line)
    ensures StartsWith(StripCr(line), SEQUENCE_TAG) == StartsWith(line, SEQUENCE_TAG)
  {
    if StripCr(line) != line && StartsWith(line, SEQUENCE_TAG) {
      assert SEQUENCE_TAG[|SEQUENCE_TAG| - 1] == ':';
      assert line[|SEQUENCE_TAG| - 1] == ':';
    }
  }

  lemma {:induction false} StrippedCountsAlike(lines: seq<string>)
    requires AllFirm(lines)
    ensures CountSequence(Stripped(lines)) == CountSequence(lines)
  {
    hide Firm, StripCr, StartsWith;
    if lines != [] {
      var front, last := lines[..|lines| - 1], lines[|lines| - 1];
      StrippedCountsAlike(front);
      StripKeepsStart(last);
      assert Stripped(lines)[..|front|] == Stripped(front);
    }
  }

  lemma {:induction false} SequenceAfter(a: seq<string>, q: string, b: seq<string>)
    requires StartsWith(q, SEQUENCE_TAG) && CountSequence(b) == 0
    ensures SequenceOf(a + [q] + b) == ParseU64(Trim(q[|SEQUENCE_TAG|..])).GetOr(0)
  {
    hide StartsWith, Trim, ParseU64;
    var lines := a + [q] + b;
    if b != [] {
      SequenceAfter(a, q, b[..|b| - 1]);
      assert lines[..|lines| - 1] == a + [q] + b[..|b| - 1];
    } else {
      assert lines[|lines| - 1] == q;
    }
  }

  lemma SequenceLineSays(n: u64)
    ensures StartsWith(SequenceLine(n), SEQUENCE_TAG)
    ensures ParseU64(Trim(SequenceLine(n)[|SEQUENCE_TAG|..])) == Some(n)
  {
    var f := Format(n);
    assert SequenceLine(n)[|SEQUENCE_TAG|..] == f;
    assert IsDigit(f[0]) && IsDigit(f[|f| - 1]);
    assert Trim(f) == f;
    ParseFormat(n);
  }

  /** The stripped output is its body, stripped twice, with the sequence line at one place. */
  lemma OutputShape(s: Scan, keep: nat) returns (a: seq<string>, b: seq<string>)
    requires CleanScan(s) && 0 < keep <= |s.kept|
    ensures a + b == Stripped(Stripped(BodyLines(s, keep)))
    ensures Stripped(OutputLines(s, keep)) == a + [SequenceLine(s.kept[0].number)] + b
  {
    hide CleanScan, BodyLines, WithSequence, SequenceLine, StripCr, InsertAt;
    var body, q := Stripped(BodyLines(s, keep)), SequenceLine(s.kept[0].number);
    SequenceLineIsFirm(s.kept[0].number);
    InsertsOnce(body, q);
    var i := InsertAt(body);
    a, b := Stripped(body)[..i], Stripped(body)[i..];
    assert Stripped(body[..i] + [q] + body[i..]) == a + [q] + b;
  }

  lemma BodyCounts(s: Scan, keep: nat)
    requires CleanScan(s) && keep <= |s.kept|
    ensures CountSequence(Stripped(Stripped(BodyLines(s, keep)))) == CountSequence(NamesOf(s.kept)[..keep])
  {
    var entries := s.kept[..keep];
    BodyParses(s, keep);
    TagsCountNothing(s.header);
    EntriesCountNames(entries);
    hide Firm, CleanTags, CleanName, StartsWith, IsTag, StripCr, CountSequence;
    CountJoin(s.header, EntryLines(entries));
    StrippedParsesAlike(BodyLines(s, keep));
    StrippedCountsAlike(BodyLines(s, keep));
    StrippedCountsAlike(Stripped(BodyLines(s, keep)));
    assert NamesOf(entries) == NamesOf(s.kept)[..keep];
  }

  lemma OutputSequence(s: Scan, keep: nat)
    requires CleanScan(s) && 0 < keep <= |s.kept|
    ensures var out := Stripped(OutputLines(s, keep));
      && CountSequence(out) == 1 + CountSequence(NamesOf(s.kept)[..keep])
      && (CountSequence(out) == 1 ==> SequenceOf(out) == s.kept[0].number)
  {
    hide CleanScan, StartsWith, SequenceOf, BodyLines, OutputLines, SequenceLine, CountSequence, Trim, Stripped, NamesOf;
    var a, b := OutputShape(s, keep);
    BodyCounts(s, keep);
    var q := SequenceLine(s.kept[0].number);
    SequenceLineSays(s.kept[0].number);
    CountOne(q);
    CountJoin(a + [q], b);
    CountJoin(a, [q]);
    CountJoin(a, b);
    if CountSequence(b) == 0 {
      SequenceAfter(a, q, b);
    }
  }

  /**
   The output has one media sequence line exactly if no listed name starts like one; then it says
   the original number plus the index of the first local segment.
   */
  lemma MediaSequence(text: string, present: set<string>, holdback: nat)
    requires "" !in present && Playback(text, present, holdback).Some?
    ensures var segments, out := LocalSegments(text, present), Lines(Playback(text, present, holdback).value);
      && |segments| > holdback
      && CountSequence(out) == 1 + CountSequence(segments[..|segments| - holdback])
      && (CountSequence(out) == 1 ==>
           SequenceOf(out) == (SequenceOf(Lines(text)) + FirstLocal(Names(Lines(text)), present)) % WRAP)
  {
    hide ScanOf, Lines, Playback, OutputLines, CleanScan, LocalSegments, SequenceOf, CountSequence, FirstLocal, Stripped, Names;
    BehindPlayback(text, present, holdback);
    SegmentsOfScan(text, present);
    NumberOfFirst(text, present);
    var s := ScanOf(text, present);
    OutputSequence(s, |s.kept| - holdback);
  }

  // ----- Once more

  predicate IsSegmentTag(line: string) {
    StartsWith(line, SEGMENT_TAG)
  }

  predicate HasSegmentTag(lines: seq<string>) {
    exists l <- lines :: IsSegmentTag(l)
  }

  /** A segment tag has come since the last segment name. */
  predicate Tagged(lines: seq<string>) {
    if lines == [] then false
    else
      var front, last := lines[..|lines| - 1], lines[|lines| - 1];
      if IsTag(last) then IsSegmentTag(last) || Tagged(front)
      else Trim(last) == "" && Tagged(front)
  }

  /** Every segment has a segment tag of its own. */
  predicate OwnTags(lines: seq<string>) {
    if lines == [] then true
    else
      var front, last := lines[..|lines| - 1], lines[|lines| - 1];
      OwnTags(front) && (IsTag(last) || Trim(last) == "" || Tagged(front))
  }

  lemma SegmentTagIsATag(line: string)
    ensures IsSegmentTag(line) ==> IsTag(line) && !StartsWith(line, SEQUENCE_TAG)
  {
    assert IsSegmentTag(line) ==> line[4] == 'I';
  }

  predicate EndsInCr(line: string) {
    line != "" && line[|line| - 1] == '\r'
  }

  /** The tags of the scan are lines of the playlist without a carriage return at the end. */
  predicate NoCr(s: Scan) {
    && (forall t <- s.header + s.pending :: !EndsInCr(t))
    && (forall e <- s.kept, t <- e.tags :: !EndsInCr(t))
  }

  predicate KeepsTags(s: Scan, tagged: bool) {
    && (tagged ==> HasSegmentTag(s.pending) && s.sawSegmentTag)
    && (forall e <- s.kept :: HasSegmentTag(e.tags))
  }

  lemma {:induction false} ScanKeepsTags(start: u64, lines: seq<string>, present: set<string>)
    requires OwnTags(lines)
    ensures KeepsTags(ScanLines(start, lines, present), Tagged(lines))
  {
    if lines != [] {
      var front, last := lines[..|lines| - 1], lines[|lines| - 1];
      ScanKeepsTags(start, front, present);
      SegmentTagIsATag(last);
      hide KeepsTags, IsTag, Trim, StartsWith, IsSegmentTag;
      var before := ScanLines(start, front, present);
      if IsTag(last) {
        TagKeepsTags(before, last, Tagged(front));
      } else {
        NameKeepsTags(before, Trim(last), present, Tagged(front));
      }
    } else {
      assert KeepsTags(Scan(start, [], [], [], false, false), false);
    }
  }

  lemma TagKeepsTags(s: Scan, line: string, tagged: bool)
    requires KeepsTags(s, tagged)
    ensures KeepsTags(ScanTag(s, line), IsSegmentTag(line) || tagged)
  {
    SegmentTagIsATag(line);
    hide StartsWith;
    assert forall x :: x in s.pending + [line] <==> x in s.pending || x == line;
  }

  lemma NameKeepsTags(s: Scan, name: string, present: set<string>, tagged: bool)
    requires KeepsTags(s, tagged) && (name == "" || tagged)
    ensures KeepsTags(ScanName(s, name, present), name == "" && tagged)
  {
    hide IsSegmentTag;
  }

  lemma {:induction false} ScanHasNoCr(start: u64, lines: seq<string>, present: set<string>)
    requires forall l <- lines :: !EndsInCr(l)
    ensures NoCr(ScanLines(start, lines, present))
  {
    if lines != [] {
      var front, last := lines[..|lines| - 1], lines[|lines| - 1];
      hide Trim, StartsWith, EndsInCr;
      ScanHasNoCr(start, front, present);
    }
  }

  lemma M3uOpensHeader(start: u64, line: string)
    requires StartsWith(line, M3U_TAG)
    ensures IsTag(line) && ScanTag(Scan(start, [], [], [], false, false), line).header == [line]
  {
    assert line[4] == 'M';
  }

  lemma HeaderGrows(s: Scan, line: string)
    ensures s.header <= ScanTag(s, line).header
  {
  }

  /** A playlist that starts with the M3U tag keeps it at the front of the header. */
  lemma {:induction false} M3uStaysFirst(start: u64, lines: seq<string>, present: set<string>)
    requires lines != [] && StartsWith(lines[0], M3U_TAG)
    ensures var header := ScanLines(start, lines, present).header; header != [] && header[0] == lines[0]
  {
    M3uOpensHeader(start, lines[0]);
    hide Trim, StartsWith, ScanTag;
    if |lines| == 1 {
      assert ScanFrom(Scan(start, [], [], [], false, false), lines[..0], present) == Scan(start, [], [], [], false, false);
    } else {
      M3uStaysFirst(start, lines[..|lines| - 1], present);
      HeaderGrows(ScanLines(start, lines[..|lines| - 1], present), lines[|lines| - 1]);
    }
  }

  lemma {:induction false} ScanJoin(s: Scan, a: seq<string>, b: seq<string>, present: set<string>)
    ensures ScanFrom(s, a + b, present) == ScanFrom(ScanFrom(s, a, present), b, present)
  {
    hide ScanLine;
    if b == [] {
      assert a + b == a;
    } else {
      ScanJoin(s, a, b[..|b| - 1], present);
      assert (a + b)[..|a + b| - 1] == a + b[..|b| - 1];
    }
  }

  lemma SequenceLineIsSkipped(s: Scan, n: u64, present: set<string>)
    ensures ScanFrom(s, [SequenceLine(n)], present) == s
  {
    SequenceLineSays(n);
    SequenceLineIsFirm(n);
    assert [SequenceLine(n)][..0] == [];
  }

  /** Every name has a segment tag somewhere before it. */
  predicate Led(lines: seq<string>) {
    if lines == [] then true
    else
      var front, last := lines[..|lines| - 1], lines[|lines| - 1];
      Led(front) && (IsTag(last) || HasSegmentTag(front))
  }

  predicate Playable(line: string, present: set<string>) {
    Clean(line) && (IsTag(line) || line in present)
  }

  /** What a scan has taken in is what it would put out, when nothing was skipped. */
  predicate TakenIn(s: Scan, start: u64, lines: seq<string>) {
    && s.header + EntryLines(s.kept) + s.pending == lines
    && (s.sawSegmentTag <==> HasSegmentTag(lines))
    && (!s.sawSegmentTag ==> s.kept == [] && s.pending == [])
    && (if s.kept == [] then s.next == start else s.kept[0].number == start)
  }

  lemma TakeInTag(s: Scan, start: u64, lines: seq<string>, line: string)
    requires TakenIn(s, start, lines) && IsTag(line) && !StartsWith(line, SEQUENCE_TAG)
    ensures TakenIn(ScanTag(s, line), start, lines + [line])
  {
    hide StartsWith;
    assert forall x :: x in lines + [line] <==> x in lines || x == line;
    assert HasSegmentTag(lines + [line]) <==> HasSegmentTag(lines) || IsSegmentTag(line);
    if !s.sawSegmentTag {
      assert EntryLines(s.kept) == [];
    }
  }

  lemma TakeInName(s: Scan, start: u64, lines: seq<string>, name: string, present: set<string>)
    requires TakenIn(s, start, lines) && name != "" && name in present && !IsTag(name)
    requires s.sawSegmentTag
    ensures TakenIn(ScanName(s, name, present), start, lines + [name])
    ensures ScanName(s, name, present).pending == [] && ScanName(s, name, present).kept != []
  {
    hide IsSegmentTag, IsTag, EntryLines, HasSegmentTag;
    EntrySnoc(s.kept, Entry(s.next, s.pending, name));
    NameIsNoSegmentTag(lines, name);
    var body := s.header + EntryLines(s.kept);
    assert s.header + (EntryLines(s.kept) + s.pending + [name]) + [] == body + s.pending + [name];
  }

  lemma EntrySnoc(entries: seq<Entry>, e: Entry)
    ensures EntryLines(entries + [e]) == EntryLines(entries) + e.tags + [e.name]
  {
    assert (entries + [e])[..|entries|] == entries;
  }

  lemma NameIsNoSegmentTag(lines: seq<string>, name: string)
    requires !IsTag(name)
    ensures HasSegmentTag(lines + [name]) == HasSegmentTag(lines)
  {
    SegmentTagIsATag(name);
    hide IsSegmentTag, IsTag;
    assert forall x :: x in lines + [name] <==> x in lines || x == name;
  }

  lemma {:induction false} ScanTakesIn(start: u64, lines: seq<string>, present: set<string>)
    requires Led(lines) && forall l <- lines :: Playable(l, present)
    ensures var s := ScanLines(start, lines, present);
      && TakenIn(s, start, lines)
      && (lines != [] && !IsTag(lines[|lines| - 1]) ==> s.pending == [] && s.kept != [])
  {
    if lines == [] {
      assert TakenIn(Scan(start, [], [], [], false, false), start, []);
    } else {
      var front, last := lines[..|lines| - 1], lines[|lines| - 1];
      assert last in lines && lines == front + [last];
      hide TakenIn, IsTag, Trim, StartsWith, ScanTag, ScanName;
      ScanTakesIn(start, front, present);
      var before := ScanLines(start, front, present);
      if IsTag(last) {
        TakeInTag(before, start, front, last);
      } else {
        TakenInSaw(before, start, front);
        TakeInName(before, start, front, last, present);
      }
    }
  }

  lemma TakenInSaw(s: Scan, start: u64, lines: seq<string>)
    requires TakenIn(s, start, lines)
    ensures s.sawSegmentTag <==> HasSegmentTag(lines)
  {
  }

  lemma {:induction false} TagsAreLed(tags: seq<string>)
    requires CleanTags(tags)
    ensures Led(tags)
  {
    hide Clean;
    if tags != [] {
      TagsAreLed(tags[..|tags| - 1]);
      assert tags[|tags| - 1] in tags;
    }
  }

  lemma {:induction false} LedOn(a: seq<string>, b: seq<string>)
    requires Led(a) && HasSegmentTag(a)
    ensures Led(a + b)
  {
    hide IsSegmentTag, IsTag;
    if b == [] {
      assert a + b == a;
    } else {
      LedOn(a, b[..|b| - 1]);
      assert (a + b)[..|a + b| - 1] == a + b[..|b| - 1];
      assert HasSegmentTag(a + b[..|b| - 1]);
    }
  }

  lemma {:induction false} FirstEntryFirst(entries: seq<Entry>) returns (rest: seq<string>)
    requires entries != []
    ensures EntryLines(entries) == entries[0].tags + rest
  {
    var front, last := entries[..|entries| - 1], entries[|entries| - 1];
    if |entries| == 1 {
      rest := [last.name];
      assert EntryLines(front) == [];
    } else {
      var r := FirstEntryFirst(front);
      rest := r + last.tags + [last.name];
    }
  }

  lemma BodyIsLed(s: Scan, keep: nat)
    requires CleanScan(s) && 0 < keep <= |s.kept| && HasSegmentTag(s.kept[0].tags)
    ensures Led(BodyLines(s, keep))
  {
    hide CleanTags, Led, IsSegmentTag, CleanName;
    var entries := s.kept[..keep];
    var rest := FirstEntryFirst(entries);
    var a := s.header + entries[0].tags;
    assert CleanTags(a) by { JoinClean(s.header, entries[0].tags); }
    TagsAreLed(a);
    LedOn(a, rest);
    assert BodyLines(s, keep) == a + rest;
  }

  lemma JoinClean(a: seq<string>, b: seq<string>)
    requires CleanTags(a) && CleanTags(b)
    ensures CleanTags(a + b)
  {
  }

  /** A line that stays as it is through joining and splitting. */
  predicate Settled(line: string, present: set<string>) {
    Playable(line, present) && !EndsInCr(line)
  }

  lemma {:induction false} EntryLinesAreSettled(entries: seq<Entry>, present: set<string>)
    requires forall e <- entries :: SettledEntry(e, present)
    ensures forall l <- EntryLines(entries) :: Settled(l, present)
  {
    if entries != [] {
      hide Settled;
      EntryLinesAreSettled(entries[..|entries| - 1], present);
      var last := entries[|entries| - 1];
      assert last in entries;
    }
  }

  predicate SettledEntry(e: Entry, present: set<string>) {
    (forall t <- e.tags :: Settled(t, present)) && Settled(e.name, present)
  }

  lemma SettledIsStripped(lines: seq<string>, present: set<string>)
    requires forall l <- lines :: Settled(l, present)
    ensures Stripped(lines) == lines
  {
    hide Playable, EndsInCr;
    NothingStripped(lines);
  }

  /** The entries that will be listed can be read back: no name looks like a tag, no tag ends in a carriage return. */
  lemma BodyIsSettled(text: string, present: set<string>, keep: nat)
    requires keep <= |ScanOf(text, present).kept|
    requires forall l <- Lines(text) :: !EndsInCr(l)
    requires "" !in present && |LocalSegments(text, present)| >= keep
    requires forall n <- LocalSegments(text, present)[..keep] :: !IsTag(n)
    ensures forall l <- BodyLines(ScanOf(text, present), keep) :: Settled(l, present)
  {
    var s := ScanOf(text, present);
    LinesHaveNoNewline(text);
    ScanIsClean(SequenceOf(Lines(text)), Lines(text), present);
    ScanHasNoCr(SequenceOf(Lines(text)), Lines(text), present);
    SegmentsOfScan(text, present);
    KeptAreLocal(text, present);
    hide ScanLines, ScanOf, Lines, SequenceOf, CleanScan, NoCr, LocalSegments, FirstLocal, IsTag, EndsInCr;
    assert NamesOf(s.kept)[..keep] == LocalSegments(text, present)[..keep];
    ScanIsSettled(s, present, keep);
  }

  lemma ScanIsSettled(s: Scan, present: set<string>, keep: nat)
    requires CleanScan(s) && NoCr(s) && keep <= |s.kept|
    requires forall e <- s.kept :: e.name in present
    requires forall n <- NamesOf(s.kept)[..keep] :: !IsTag(n)
    ensures forall l <- BodyLines(s, keep) :: Settled(l, present)
  {
    hide StartsWith, Trim;
    var entries := s.kept[..keep];
    forall e <- entries
      ensures SettledEntry(e, present)
    {
      var i :| 0 <= i < keep && entries[i] == e;
      assert e in s.kept && NamesOf(s.kept)[..keep][i] == e.name;
    }
    EntryLinesAreSettled(entries, present);
    assert forall t <- s.header :: t in s.header + s.pending;
  }

  lemma {:induction false} LocalArePresent(names: seq<string>, present: set<string>)
    ensures forall n <- Local(names, present) :: n in present
  {
    if names != [] {
      LocalArePresent(names[..|names| - 1], present);
    }
  }

  lemma KeptAreLocal(text: string, present: set<string>)
    ensures forall e <- ScanOf(text, present).kept :: e.name in present
  {
    hide Local, ScanLines;
    var s := ScanOf(text, present);
    ScanKeepsLocal(SequenceOf(Lines(text)), Lines(text), present);
    LocalArePresent(Names(Lines(text)), present);
    forall e <- s.kept
      ensures e.name in present
    {
      var i :| 0 <= i < |s.kept| && s.kept[i] == e;
      assert NamesOf(s.kept)[i] == e.name && e.name in NamesOf(s.kept);
    }
  }

  /**
   Deriving a playlist from a derived playlist, with nothing held back and the same local segments,
   changes nothing. The manifest starts with the M3U tag, gives every segment its own segment tag,
   and ends no line in a carriage return beyond the line's own end; no listed name looks like a tag.
   */
  lemma PlaybackIsIdempotent(text: string, present: set<string>, holdback: nat)
    requires "" !in present && Playback(text, present, holdback).Some?
    requires Lines(text) != [] && StartsWith(Lines(text)[0], M3U_TAG) && OwnTags(Lines(text))
    requires forall l <- Lines(text) :: !EndsInCr(l)
    requires var segments := LocalSegments(text, present);
      |segments| > holdback ==> forall n <- segments[..|segments| - holdback] :: !IsTag(n)
    ensures var out := Playback(text, present, holdback).value; Playback(out, present, 0) == Some(out)
  {
    hide ScanLines, Lines, SequenceOf, Playback, OutputLines, BodyLines, LocalSegments, CleanScan, IsTag, StartsWith,
         Stripped, HasSegmentTag, OwnTags, Settled, Join, CountSequence, SequenceLine, ScanOf, EndsInCr;
    var out := Playback(text, present, holdback).value;
    var s := ScanOf(text, present);
    BehindPlayback(text, present, holdback);
    SegmentsOfScan(text, present);
    var keep := |s.kept| - holdback;
    BodyIsSettled(text, present, keep);
    NamesCountNothing(LocalSegments(text, present)[..keep]);
    OutputSequence(s, keep);
    FirstEntryIsTagged(text, present);
    BodyReads(s, keep, present);
    BodyHasM3u(text, present, keep);
    SameAgain(s, keep, present, out);
  }

  lemma {:induction false} NamesCountNothing(names: seq<string>)
    requires forall n <- names :: !IsTag(n)
    ensures CountSequence(names) == 0
  {
    if names != [] {
      NamesCountNothing(names[..|names| - 1]);
      assert names[|names| - 1] in names;
    }
  }

  lemma FirstEntryIsTagged(text: string, present: set<string>)
    requires OwnTags(Lines(text)) && ScanOf(text, present).kept != []
    ensures HasSegmentTag(ScanOf(text, present).kept[0].tags)
  {
    hide HasSegmentTag, ScanLines, Lines, SequenceOf, OwnTags;
    ScanKeepsTags(SequenceOf(Lines(text)), Lines(text), present);
    assert ScanOf(text, present).kept[0] in ScanOf(text, present).kept;
  }

  lemma BodyHasM3u(text: string, present: set<string>, keep: nat)
    requires Lines(text) != [] && StartsWith(Lines(text)[0], M3U_TAG) && keep <= |ScanOf(text, present).kept|
    ensures exists l <- BodyLines(ScanOf(text, present), keep) :: StartsWith(l, M3U_TAG)
  {
    hide ScanLines, Lines, SequenceOf, StartsWith;
    M3uStaysFirst(SequenceOf(Lines(text)), Lines(text), present);
    assert BodyLines(ScanOf(text, present), keep)[0] == Lines(text)[0];
  }

  predicate RereadsAlike(s: Scan, keep: nat, present: set<string>)
    requires 0 < keep <= |s.kept|
  {
    var t := ScanLines(s.kept[0].number, BodyLines(s, keep), present);
    && t.header + EntryLines(t.kept) == BodyLines(s, keep)
    && t.kept != [] && t.kept[0].number == s.kept[0].number
  }

  /** Scanning the listed lines takes all of them in and ends behind the last name. */
  lemma BodyReads(s: Scan, keep: nat, present: set<string>)
    requires CleanScan(s) && 0 < keep <= |s.kept| && HasSegmentTag(s.kept[0].tags)
    requires forall l <- BodyLines(s, keep) :: Settled(l, present)
    requires !IsTag(s.kept[keep - 1].name)
    ensures RereadsAlike(s, keep, present)
  {
    hide CleanScan, HasSegmentTag, ScanLines, IsTag;
    var body := BodyLines(s, keep);
    BodyIsLed(s, keep);
    BodyEndsInName(s, keep);
    forall l <- body
      ensures Playable(l, present)
    {
      assert Settled(l, present);
    }
    ScanTakesIn(s.kept[0].number, body, present);
    var t := ScanLines(s.kept[0].number, body, present);
    assert t.header + EntryLines(t.kept) + [] == t.header + EntryLines(t.kept);
  }

  lemma BodyEndsInName(s: Scan, keep: nat)
    requires 0 < keep <= |s.kept|
    ensures BodyLines(s, keep) != []
    ensures BodyLines(s, keep)[|BodyLines(s, keep)| - 1] == s.kept[keep - 1].name
  {
    assert s.kept[..keep][..keep - 1] == s.kept[..keep - 1];
  }

  lemma SameAgain(s: Scan, keep: nat, present: set<string>, out: string)
    requires CleanScan(s) && 0 < keep <= |s.kept|
    requires out == Join(OutputLines(s, keep)) && Lines(out) == Stripped(OutputLines(s, keep))
    requires SequenceOf(Stripped(OutputLines(s, keep))) == s.kept[0].number
    requires forall l <- BodyLines(s, keep) :: Settled(l, present)
    requires exists l <- BodyLines(s, keep) :: StartsWith(l, M3U_TAG)
    requires RereadsAlike(s, keep, present)
    ensures Playback(out, present, 0) == Some(out)
  {
    hide CleanScan, ScanFrom, StartsWith, Settled, Lines, Join, WithSequence, SequenceOf, SequenceLine, Stripped, EntryLines;
    var body, start, q := BodyLines(s, keep), s.kept[0].number, SequenceLine(s.kept[0].number);
    SettledIsStripped(body, present);
    var a, b := OutputShape(s, keep);
    OutputParses(s, keep);
    var init := Scan(start, [], [], [], false, false);
    ScanJoin(init, a + [q], b, present);
    ScanJoin(init, a, [q], present);
    ScanJoin(init, a, b, present);
    SequenceLineIsSkipped(ScanFrom(init, a, present), start, present);
    SeesM3u(start, body, present);
    var t := ScanLines(start, Lines(out), present);
    assert t == ScanLines(start, body, present);
    assert t.kept[..|t.kept|] == t.kept;
    assert BodyLines(t, |t.kept|) == body;
  }

  // ----- Playlists of one segment

  function OneSegment(line: string): seq<string> {
    ["#EXTM3U", "#EXTINF:", line]
  }

  /** A line that names a segment. */
  predicate NamesSegment(line: string, name: string) {
    NoNewline(line) && !EndsInCr(line) && !IsTag(line) && line != "" && Trim(line) == name && name != ""
  }

  lemma OneSegmentParts(line: string)
    ensures OneSegment(line) == ["#EXTM3U", "#EXTINF:"] + [line]
    ensures ["#EXTM3U", "#EXTINF:"] == [] + ["#EXTM3U"] + ["#EXTINF:"]
    ensures IsTag("#EXTM3U") && StartsWith("#EXTM3U", M3U_TAG)
    ensures IsTag("#EXTINF:") && IsSegmentTag("#EXTINF:")
  {
  }

  lemma OneSegmentLines(line: string, name: string)
    requires NamesSegment(line, name)
    ensures Lines(Join(OneSegment(line))) == OneSegment(line)
    ensures forall l <- OneSegment(line) :: !EndsInCr(l)
  {
    hide Trim, IsTag, EndsInCr, NoNewline, Lines, Join, Stripped;
    TagLinesAreClean();
    LinesOfJoin(OneSegment(line));
    NothingStripped(OneSegment(line));
  }

  lemma TagLinesAreClean()
    ensures NoNewline("#EXTM3U") && !EndsInCr("#EXTM3U")
    ensures NoNewline("#EXTINF:") && !EndsInCr("#EXTINF:")
  {
  }

  lemma NothingStripped(lines: seq<string>)
    requires forall l <- lines :: !EndsInCr(l)
    ensures Stripped(lines) == lines
  {
    forall i | 0 <= i < |lines|
      ensures StripCr(lines[i]) == lines[i]
    {
      assert lines[i] in lines;
    }
  }

  lemma OneSegmentHasOwnTag(line: string, name: string)
    requires NamesSegment(line, name)
    ensures OwnTags(OneSegment(line))
  {
    OneSegmentParts(line);
    hide IsTag, Trim, IsSegmentTag;
    var lines := OneSegment(line);
    assert lines[..2] == ["#EXTM3U", "#EXTINF:"] && lines[..2][..1] == ["#EXTM3U"] && lines[..2][..1][..0] == [];
    assert Tagged(lines[..2]);
    assert OwnTags(lines[..2][..1][..0]);
    assert OwnTags(lines[..2][..1]);
    assert OwnTags(lines[..2]);
  }

  lemma OneSegmentParses(line: string, name: string)
    requires NamesSegment(line, name)
    ensures ParseLines(OneSegment(line)) == [name]
  {
    OneSegmentParts(line);
    hide IsTag, Trim, IsSegmentTag, ParseLines;
    ParseNothing();
    ParseSnoc([], "#EXTM3U");
    ParseSnoc([] + ["#EXTM3U"], "#EXTINF:");
    ParseSnoc(["#EXTM3U", "#EXTINF:"], line);
  }

  lemma OneSegmentIsPlayed(line: string, name: string)
    requires NamesSegment(line, name)
    ensures var text, present := Join(OneSegment(line)), {name};
      && Lines(text) == OneSegment(line)
      && Playback(text, present, 0).Some? && LocalSegments(text, present) == [name]
  {
    hide Join, Lines, EndsInCr, IsTag, StartsWith, ParseLines, Playback, ScanOf, ScanLines, Local, FirstLocal, Trim;
    var text, present := Join(OneSegment(line)), {name};
    OneSegmentParts(line);
    OneSegmentLines(line, name);
    OneSegmentParses(line, name);
    LocalSnoc([], name, present);
    LocalOfNothing(present);
    assert [] + [name] == [name];
    SegmentsOfScan(text, present);
    SeesM3u(SequenceOf(Lines(text)), Lines(text), present);
    assert OneSegment(line)[0] in OneSegment(line);
    PlaybackExists(text, present, 0);
    ScanOfText(text, present);
  }

  lemma LocalOfNothing(present: set<string>)
    ensures Local([], present) == []
  {
  }

  lemma ScanOfText(text: string, present: set<string>)
    ensures ScanOf(text, present) == ScanLines(SequenceOf(Lines(text)), Lines(text), present)
  {
  }

  lemma PlainName()
    ensures NamesSegment("a", "a") && !IsTag("a")
  {
    assert "a"[0] != '#' && !IsSpace("a"[0]);
  }

  lemma TagLikeName()
    ensures NamesSegment(" #x", "#x") && IsTag("#x")
  {
    assert " #x"[0] != '#';
    assert " #x"[1..] == "#x";
    assert Trim("#x") == "#x";
  }

  /** The conditions of idempotence are met by a playlist of one segment. */
  lemma ExampleIsPlayable()
    ensures var text, present := Join(OneSegment("a")), {"a"};
      && "" !in present && Playback(text, present, 0).Some?
      && Lines(text) != [] && StartsWith(Lines(text)[0], M3U_TAG) && OwnTags(Lines(text))
      && (forall l <- Lines(text) :: !EndsInCr(l))
      && (forall n <- LocalSegments(text, present) :: !IsTag(n))
  {
    hide Join, Lines, OwnTags, EndsInCr, IsTag, StartsWith, Playback, LocalSegments, NamesSegment;
    PlainName();
    OneSegmentParts("a");
    OneSegmentLines("a", "a");
    OneSegmentHasOwnTag("a", "a");
    OneSegmentIsPlayed("a", "a");
  }

  /** The segment `#x`, named with a blank before it, is in the store and in the output, and is not parsed from it. */
  lemma TagLikeNameIsNotParsed()
    ensures var text, present := Join(OneSegment(" #x")), {"#x"};
      && LocalSegments(text, present) == ["#x"]
      && Playback(text, present, 0).Some? && ParseManifest(Playback(text, present, 0).value) == []
  {
    hide Join, Lines, EndsInCr, IsTag, StartsWith, Playback, LocalSegments, NamesSegment, ParseManifest;
    TagLikeName();
    OneSegmentIsPlayed(" #x", "#x");
    ReparsedPlaylist(Join(OneSegment(" #x")), {"#x"}, 0);
    assert ["#x"][..1] == ["#x"] && ["#x"][..0] == [];
  }
}
