/** Each part of the player's playlist by itself: the header, the tags of each segment, the place of the sequence tag. */
module PlaylistParts {
  import opened Prelude
  import opened Text
  import opened Playlist
  import opened PlaylistLaws

  // ----- Text

  predicate AllSpace(s: string) {
    forall c <- s :: IsSpace(c)
  }

  /** Trimming takes white space off both ends, and all of it. */
  lemma {:induction false} TrimExactly(s: string) returns (before: string, after: string)
    ensures s == before + Trim(s) + after && AllSpace(before) && AllSpace(after)
    ensures Trim(s) != "" ==> !IsSpace(Trim(s)[0]) && !IsSpace(Trim(s)[|Trim(s)| - 1])
    decreases |s|
  {
    hide IsSpace;
    before, after := "", "";
    if s != "" && IsSpace(s[0]) {
      var b, a := TrimExactly(s[1..]);
      before, after := [s[0]] + b, a;
      assert s == [s[0]] + s[1..];
    } else if s != "" && IsSpace(s[|s| - 1]) {
      var b, a := TrimExactly(s[..|s| - 1]);
      before, after := b, a + [s[|s| - 1]];
      assert s == s[..|s| - 1] + [s[|s| - 1]];
    }
  }

  /** The characters with the property White_Space. */
  lemma SpacesExactly(c: char)
    ensures IsSpace(c) <==>
      var n := c as int;
      9 <= n <= 13 || n in {32, 133, 160, 5760, 8232, 8233, 8239, 8287, 12288} || 8192 <= n <= 8202
  {
  }

  /** A last line without a newline is taken as it is. */
  lemma {:induction false} LastLineAsItIs(lines: seq<string>, last: string)
    requires (forall l <- lines :: NoNewline(l)) && NoNewline(last) && last != ""
    ensures Lines(Join(lines) + last) == Stripped(lines) + [last]
  {
    hide StripCr, NoNewline, Join, Stripped;
    if lines == [] {
      JoinNone();
      NothingStrippedOff();
      OnlyLine(last);
      assert "" + last == last && [] + [last] == [last];
    } else {
      var first, rest := lines[0], lines[1..];
      LastLineAsItIs(rest, last);
      assert lines == [first] + rest;
      JoinFirst(first, rest);
      StrippedFirst(first, rest);
      hide Lines;
      FirstLine(first, Join(rest) + last);
      Associate(first + "\n", Join(rest), last);
      Associate([StripCr(first)], Stripped(rest), [last]);
    }
  }

  lemma NothingStrippedOff()
    ensures Stripped([]) == []
  {
  }

  lemma OnlyLine(last: string)
    requires NoNewline(last) && last != ""
    ensures Lines(last) == [last]
  {
  }

  // ----- The parts of the scan

  predicate IsKeptTag(line: string) {
    IsTag(line) && !StartsWith(line, SEQUENCE_TAG)
  }

  predicate IsName(line: string) {
    !IsTag(line) && Trim(line) != ""
  }

  /** The header: the tags before the first segment tag, the media sequence left out. */
  function HeaderTags(lines: seq<string>): seq<string> {
    if lines == [] then []
    else
      var last := lines[|lines| - 1];
      HeaderTags(lines[..|lines| - 1]) + if IsKeptTag(last) && !HasSegmentTag(lines) then [last] else []
  }

  /** The tags since the last segment name, and from the first segment tag on. */
  function TagsSinceName(lines: seq<string>): seq<string> {
    if lines == [] then []
    else
      var front, last := lines[..|lines| - 1], lines[|lines| - 1];
      if IsName(last) then []
      else TagsSinceName(front) + if IsKeptTag(last) && HasSegmentTag(lines) then [last] else []
  }

  /** The local segments, each with its number in the manifest and its own tags. */
  function Listed(start: u64, lines: seq<string>, present: set<string>): seq<Entry> {
    if lines == [] then []
    else
      var front, last := lines[..|lines| - 1], lines[|lines| - 1];
      Listed(start, front, present) +
      if IsName(last) && Trim(last) in present
      then [Entry((start + |Names(front)|) % WRAP, TagsSinceName(front), Trim(last))]
      else []
  }

  predicate PartsAre(s: Scan, start: u64, lines: seq<string>, present: set<string>) {
    && s.header == HeaderTags(lines) && s.pending == TagsSinceName(lines) && s.kept == Listed(start, lines, present)
    && s.next == (start + |Names(lines)|) % WRAP
    && s.sawSegmentTag == HasSegmentTag(lines)
  }

  lemma SegmentTagSnoc(front: seq<string>, last: string)
    ensures HasSegmentTag(front + [last]) <==> HasSegmentTag(front) || IsSegmentTag(last)
  {
    hide IsSegmentTag;
    assert forall x :: x in front + [last] <==> x in front || x == last;
  }

  lemma OneMoreLine(s: Scan, start: u64, front: seq<string>, last: string, present: set<string>)
    requires PartsAre(s, start, front, present)
    ensures PartsAre(ScanLine(s, last, present), start, front + [last], present)
  {
    var lines := front + [last];
    assert lines[..|front|] == front;
    SegmentTagSnoc(front, last);
    SegmentTagIsATag(last);
    WrapNext(start + |Names(front)|);
    hide Trim, StartsWith, HasSegmentTag, Names, HeaderTags, TagsSinceName, Listed;
    PartsSnoc(start, front, last, present);
  }

  lemma PartsSnoc(start: u64, front: seq<string>, last: string, present: set<string>)
    ensures var lines := front + [last];
      && HeaderTags(lines) == HeaderTags(front) + (if IsKeptTag(last) && !HasSegmentTag(lines) then [last] else [])
      && TagsSinceName(lines) ==
           (if IsName(last) then []
            else TagsSinceName(front) + if IsKeptTag(last) && HasSegmentTag(lines) then [last] else [])
      && Listed(start, lines, present) == Listed(start, front, present) +
           (if IsName(last) && Trim(last) in present
            then [Entry((start + |Names(front)|) % WRAP, TagsSinceName(front), Trim(last))] else [])
      && |Names(lines)| == |Names(front)| + if IsName(last) then 1 else 0
  {
    hide Trim, StartsWith, HasSegmentTag;
    assert (front + [last])[..|front|] == front;
  }

  /** The scan has found exactly these parts. */
  lemma {:induction false} ScanFindsParts(start: u64, lines: seq<string>, present: set<string>)
    ensures PartsAre(ScanLines(start, lines, present), start, lines, present)
  {
    if lines != [] {
      hide PartsAre, ScanLine;
      var front, last := lines[..|lines| - 1], lines[|lines| - 1];
      ScanFindsParts(start, front, present);
      assert lines == front + [last];
      OneMoreLine(ScanLines(start, front, present), start, front, last, present);
    } else {
      assert PartsAre(Scan(start, [], [], [], false, false), start, [], present);
    }
  }

  // ----- The output

  /** The place of the sequence tag: behind the first line that takes it, or at the end. */
  lemma {:induction false} InsertPlace(lines: seq<string>)
    ensures var i := InsertAt(lines);
      || (i > 0 && TakesSequence(lines[i - 1]) && forall j :: 0 <= j < i - 1 ==> !TakesSequence(lines[j]))
      || (i == |lines| && forall j :: 0 <= j < |lines| ==> !TakesSequence(lines[j]))
  {
    if lines != [] {
      hide TakesSequence;
      InsertPlace(lines[..|lines| - 1]);
    }
  }

  /**
   The playlist, part by part: the header and the blocks of the first local segments, as lines, and
   among them the number of the first of these segments.
   */
  lemma PlaybackParts(text: string, present: set<string>, holdback: nat)
    requires Playback(text, present, holdback).Some?
    ensures var lines := Lines(text);
      var listed := Listed(SequenceOf(lines), lines, present);
      && |listed| > holdback
      && var body := Stripped(HeaderTags(lines) + EntryLines(listed[..|listed| - holdback]));
         var tag := SEQUENCE_TAG + Format(listed[0].number);
         Playback(text, present, holdback).value == Join(body[..InsertAt(body)] + [tag] + body[InsertAt(body)..])
  {
    hide ScanLines, Lines, SequenceOf, Join, WithSequence, InsertAt, CleanScan, Stripped, HeaderTags, Listed, TagsSinceName;
    var lines := Lines(text);
    BehindPlayback(text, present, holdback);
    ScanFindsParts(SequenceOf(lines), lines, present);
    var s := ScanOf(text, present);
    InsertsOnce(Stripped(BodyLines(s, |s.kept| - holdback)), SequenceLine(s.kept[0].number));
  }
}
