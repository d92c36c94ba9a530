/**
 `parse_manifest` and `playback_playlist`: the player's playlist lists the leading local
 segments of the manifest. Playlists are text here, already decoded from UTF-8.
 */
module Playlist {
  import opened Prelude
  import opened Text

  const SEQUENCE_TAG := "#EXT-X-MEDIA-SEQUENCE:"
  const M3U_TAG := "#EXTM3U"
  const VERSION_TAG := "#EXT-X-VERSION:"
  const SEGMENT_TAG := "#EXTINF:"

  // ----- Lines, as `str::lines` has them

  predicate IsTag(line: string) {
    StartsWith(line, "#")
  }

  function StripCr(line: string): string {
    if line != "" && line[|line| - 1] == '\r' then line[..|line| - 1] else line
  }

  function LineEnd(text: string): (i: nat)
    ensures i <= |text| && '\n' !in text[..i]
    ensures i < |text| ==> text[i] == '\n'
  {
    if text == "" || text[0] == '\n' then 0
    else
      var i := 1 + LineEnd(text[1..]);
      assert text[..i] == [text[0]] + text[1..][..i - 1];
      i
  }

  /** A final line without a newline keeps its carriage return. */
  function Lines(text: string): seq<string>
    decreases |text|
  {
    if text == "" then []
    else
      var i := LineEnd(text);
      if i == |text| then [text] else [StripCr(text[..i])] + Lines(text[i + 1..])
  }

  function Join(lines: seq<string>): string {
    if lines == [] then "" else Join(lines[..|lines| - 1]) + lines[|lines| - 1] + "\n"
  }

  predicate IsSpace(c: char) {
    || '\t' <= c <= '\r' || c == ' ' || c == '\U{85}' || c == '\U{A0}' || c == '\U{1680}'
    || '\U{2000}' <= c <= '\U{200A}' || c == '\U{2028}' || c == '\U{2029}' || c == '\U{202F}'
    || c == '\U{205F}' || c == '\U{3000}'
  }

  function Trim(s: string): (r: string)
    ensures |r| <= |s|
    ensures r != "" ==> !IsSpace(r[0]) && !IsSpace(r[|r| - 1])
    ensures forall c :: c in r ==> c in s
    decreases |s|
  {
    if s == "" then ""
    else if IsSpace(s[0]) then Trim(s[1..])
    else if IsSpace(s[|s| - 1]) then Trim(s[..|s| - 1])
    else s
  }

  // ----- `parse_manifest`

  function ParseLines(lines: seq<string>): seq<string> {
    if lines == [] then []
    else
      var last := lines[|lines| - 1];
      ParseLines(lines[..|lines| - 1]) + if last != "" && !IsTag(last) then [Trim(last)] else []
  }

  function ParseManifest(text: string): seq<string> {
    ParseLines(Lines(text))
  }

  // ----- `playback_playlist`: the scan

  datatype Entry = Entry(number: u64, tags: seq<string>, name: string)

  datatype Scan = Scan(
    next: u64,              // the media sequence number of the next segment line
    header: seq<string>,
    pending: seq<string>,   // tags queued before a segment
    kept: seq<Entry>,
    sawM3u: bool,
    sawSegmentTag: bool)

  /** The last media sequence tag counts; without one, or with a bad number, it is 0. */
  function SequenceOf(lines: seq<string>): u64 {
    if lines == [] then 0
    else
      var last := lines[|lines| - 1];
      if StartsWith(last, SEQUENCE_TAG) then ParseU64(Trim(last[|SEQUENCE_TAG|..])).GetOr(0)
      else SequenceOf(lines[..|lines| - 1])
  }

  function ScanTag(s: Scan, line: string): Scan {
    if StartsWith(line, SEQUENCE_TAG) then s
    else
      var s := s.(sawM3u := s.sawM3u || StartsWith(line, M3U_TAG),
                  sawSegmentTag := s.sawSegmentTag || StartsWith(line, SEGMENT_TAG));
      if s.sawSegmentTag then s.(pending := s.pending + [line]) else s.(header := s.header + [line])
  }

  /** The number of a segment wraps around like the `u64` it is. */
  function ScanName(s: Scan, name: string, present: set<string>): Scan {
    if name == "" then s
    else
      s.(kept := if name in present then s.kept + [Entry(s.next, s.pending, name)] else s.kept,
         pending := [],
         next := (s.next + 1) % 0x1_0000_0000_0000_0000)
  }

  function ScanLine(s: Scan, line: string, present: set<string>): Scan {
    if IsTag(line) then ScanTag(s, line) else ScanName(s, Trim(line), present)
  }

  function ScanFrom(s: Scan, lines: seq<string>, present: set<string>): Scan {
    if lines == [] then s
    else ScanLine(ScanFrom(s, lines[..|lines| - 1], present), lines[|lines| - 1], present)
  }

  function ScanLines(start: u64, lines: seq<string>, present: set<string>): Scan {
    ScanFrom(Scan(start, [], [], [], false, false), lines, present)
  }

  // ----- `playback_playlist`: the output

  function EntryLines(entries: seq<Entry>): seq<string> {
    if entries == [] then []
    else
      var last := entries[|entries| - 1];
      EntryLines(entries[..|entries| - 1]) + last.tags + [last.name]
  }

  predicate TakesSequence(line: string) {
    StartsWith(line, M3U_TAG) || StartsWith(line, VERSION_TAG)
  }

  /** The lines with the tag inserted after the first that takes it, and whether there was one. */
  function Inserted(lines: seq<string>, tag: string): (r: (seq<string>, bool)) {
    if lines == [] then ([], false)
    else
      var (front, done) := Inserted(lines[..|lines| - 1], tag);
      var last := lines[|lines| - 1];
      if !done && TakesSequence(last) then (front + [last, tag], true) else (front + [last], done)
  }

  function WithSequence(lines: seq<string>, tag: string): seq<string> {
    var (out, done) := Inserted(lines, tag);
    if done then out else out + [tag]
  }

  function SequenceLine(n: u64): string {
    SEQUENCE_TAG + Format(n)
  }

  function BodyLines(s: Scan, keep: nat): seq<string>
    requires keep <= |s.kept|
  {
    s.header + EntryLines(s.kept[..keep])
  }

  function Playback(text: string, present: set<string>, holdback: nat): Option<string> {
    var lines := Lines(text);
    var s := ScanLines(SequenceOf(lines), lines, present);
    var keep := Max(|s.kept| - holdback, 0);
    if !s.sawM3u || keep == 0 then None
    else Some(Join(WithSequence(Lines(Join(BodyLines(s, keep))), SequenceLine(s.kept[0].number))))
  }

  lemma JoinOne(lines: seq<string>, line: string)
    ensures Join(lines + [line]) == Join(lines) + line + "\n"
  {
    assert (lines + [line])[..|lines|] == lines;
  }

  lemma JoinNone()
    ensures Join([]) == ""
  {
  }

  lemma {:induction false} JoinMore(a: seq<string>, b: seq<string>)
    ensures Join(a + b) == Join(a) + Join(b)
  {
    hide Join;
    if b == [] {
      assert a + b == a;
      assert Join(b) == "" by { JoinNone(); }
    } else {
      var front, last := b[..|b| - 1], b[|b| - 1];
      JoinMore(a, front);
      assert a + b == (a + front) + [last];
      JoinOne(a + front, last);
      JoinOne(front, last);
      assert b == front + [last];
    }
  }

  lemma Prefix<T>(s: seq<T>, i: nat)
    requires i < |s|
    ensures s[..i + 1][..i] == s[..i] && s[..i + 1] == s[..i] + [s[i]]
  {
  }

  lemma Whole<T>(s: seq<T>)
    ensures s[..|s|] == s
  {
  }

  method FindSequence(lines: seq<string>) returns (n: u64)
    ensures n == SequenceOf(lines)
  {
    n := 0;
    for i := 0 to |lines|
      invariant n == SequenceOf(lines[..i])
    {
      Prefix(lines, i);
      if StartsWith(lines[i], SEQUENCE_TAG) {
        n := ParseU64(Trim(lines[i][|SEQUENCE_TAG|..])).GetOr(0);
      }
    }
    Whole(lines);
  }

  method ScanAll(start: u64, lines: seq<string>, present: set<string>) returns (s: Scan)
    ensures s == ScanLines(start, lines, present)
  {
    hide Trim, StartsWith;
    var next: u64, header, pending, kept := start, [], [], [];
    var sawM3u, sawSegmentTag := false, false;
    for i := 0 to |lines|
      invariant Scan(next, header, pending, kept, sawM3u, sawSegmentTag) == ScanLines(start, lines[..i], present)
    {
      Prefix(lines, i);
      var line := lines[i];
      if StartsWith(line, "#") {
        if StartsWith(line, SEQUENCE_TAG) { continue; }
        sawM3u := sawM3u || StartsWith(line, M3U_TAG);
        if StartsWith(line, SEGMENT_TAG) {
          sawSegmentTag := true;
        }
        if sawSegmentTag {
          pending := pending + [line];
        } else {
          header := header + [line];
        }
        continue;
      }
      var name := Trim(line);
      if name == "" { continue; }
      if name in present {
        kept, pending := kept + [Entry(next, pending, name)], [];
      } else {
        pending := [];
      }
      next := (next + 1) % 0x1_0000_0000_0000_0000;
    }
    Whole(lines);
    s := Scan(next, header, pending, kept, sawM3u, sawSegmentTag);
  }

  /** `None` when there is nothing to play yet. */
  method PlaybackPlaylist(text: string, present: set<string>, holdback: nat) returns (r: Option<string>)
    ensures r == Playback(text, present, holdback)
  {
    hide Trim, StartsWith, ScanLines, Lines, SequenceOf, SequenceLine, WithSequence;
    var lines := Lines(text);
    var start := FindSequence(lines);
    var s := ScanAll(start, lines, present);
    var keep := if |s.kept| > holdback then |s.kept| - holdback else 0;
    if !s.sawM3u || keep == 0 {
      return None;
    }
    var out := WriteBody(s, keep);
    out := InsertSequence(Lines(out), SequenceLine(s.kept[0].number));
    r := Some(out);
  }

  method WriteLines(out: string, ghost before: seq<string>, lines: seq<string>) returns (longer: string)
    requires out == Join(before)
    ensures longer == Join(before + lines)
  {
    longer := out;
    assert before + lines[..0] == before;
    for i := 0 to |lines|
      invariant longer == Join(before + lines[..i])
    {
      JoinOne(before + lines[..i], lines[i]);
      assert before + lines[..i] + [lines[i]] == before + lines[..i + 1];
      longer := longer + lines[i] + "\n";
    }
    Whole(lines);
  }

  lemma OneMoreEntry(header: seq<string>, entries: seq<Entry>, i: nat)
    requires i < |entries|
    ensures header + EntryLines(entries[..i + 1])
      == header + EntryLines(entries[..i]) + entries[i].tags + [entries[i].name]
  {
    Prefix(entries, i);
  }

  method WriteBody(s: Scan, keep: nat) returns (out: string)
    requires keep <= |s.kept|
    ensures out == Join(BodyLines(s, keep))
  {
    out := WriteLines("", [], s.header);
    assert [] + s.header == s.header == s.header + EntryLines(s.kept[..0]);
    for i := 0 to keep
      invariant out == Join(s.header + EntryLines(s.kept[..i]))
    {
      ghost var before := s.header + EntryLines(s.kept[..i]);
      OneMoreEntry(s.header, s.kept, i);
      out := WriteLines(out, before, s.kept[i].tags);
      JoinOne(before + s.kept[i].tags, s.kept[i].name);
      out := out + s.kept[i].name + "\n";
    }
  }

  lemma InsertedNext(lines: seq<string>, i: nat, tag: string)
    requires i < |lines|
    ensures var (before, done) := Inserted(lines[..i], tag);
      Inserted(lines[..i + 1], tag) ==
      if !done && TakesSequence(lines[i]) then (before + [lines[i]] + [tag], true) else (before + [lines[i]], done)
  {
    Prefix(lines, i);
    var before := Inserted(lines[..i], tag).0;
    assert before + [lines[i]] + [tag] == before + [lines[i], tag];
  }

  method InsertSequence(lines: seq<string>, tag: string) returns (out: string)
    ensures out == Join(WithSequence(lines, tag))
  {
    hide StartsWith, Join, Inserted;
    out := "";
    JoinNone();
    var inserted := false;
    assert Inserted(lines[..0], tag) == ([], false) by { InsertedNone(tag); }
    for i := 0 to |lines|
      invariant Inserted(lines[..i], tag).1 == inserted && out == Join(Inserted(lines[..i], tag).0)
    {
      InsertedNext(lines, i, tag);
      var before := Inserted(lines[..i], tag).0;
      JoinOne(before, lines[i]);
      JoinOne(before + [lines[i]], tag);
      out := out + lines[i] + "\n";
      if !inserted && (StartsWith(lines[i], M3U_TAG) || StartsWith(lines[i], VERSION_TAG)) {
        out := out + tag + "\n";
        inserted := true;
      }
    }
    Whole(lines);
    if !inserted {
      JoinOne(Inserted(lines, tag).0, tag);
      out := out + tag + "\n";
    }
  }

  lemma InsertedNone(tag: string)
    ensures Inserted([], tag) == ([], false)
  {
  }
}
