/**
 * The subtitle service: speaker tagging of an SRT text from diarization
 * entries, and a parser and writer that keep timestamps as text.
 */
module SubtitleService {
  import opened Wrappers
  import opened Text
  import opened Timecode
  import opened Blocks
  import opened Seqs
  import Diarize
  import SrtUtils

  // ---------------------------------------------------------------------
  // apply_diarization_to_srt

  /** A diarization entry as a dictionary: any of its three keys may be missing. */
  datatype DiarEntry = DiarEntry(start: Option<real>, end: Option<real>, speaker: Option<int>)

  /**
   * The speaker search over the entries: the speaker of the first entry with
   * `start <= mid <= end`, 0 when there is none, and None where a key the
   * comparison reaches is missing (the `KeyError`). As in Python's chained
   * comparison, `end` is read only when `start <= mid` holds, and `speaker`
   * only for the matching entry.
   */
  function SpeakerLookup(data: seq<DiarEntry>, mid: real): Option<int>
    decreases |data|
  {
    if |data| == 0 then Some(0)
    else
      var d := data[0];
      match d.start
      case None => None
      case Some(s) =>
        if !(s <= mid) then SpeakerLookup(data[1..], mid)
        else
          match d.end
          case None => None
          case Some(e) =>
            if mid <= e then (match d.speaker case None => None case Some(id) => Some(id))
            else SpeakerLookup(data[1..], mid)
  }

  /** Complete entries read as the typed intervals of the record-level assignment. */
  function AsIntervals(data: seq<DiarEntry>): (r: seq<Diarize.Interval>)
    requires forall k :: 0 <= k < |data| ==> data[k].start.Some? && data[k].end.Some? && data[k].speaker.Some?
    ensures |r| == |data|
    ensures forall k :: 0 <= k < |r| ==>
      r[k] == Diarize.Interval(data[k].start.value, data[k].end.value, data[k].speaker.value)
  {
    seq(|data|, k requires 0 <= k < |data| =>
      Diarize.Interval(data[k].start.value, data[k].end.value, data[k].speaker.value))
  }

  /** With every key present the text-level search picks the same speaker as the record-level one. */
  lemma {:induction false} LookupAgrees(data: seq<DiarEntry>, mid: real)
    requires forall k :: 0 <= k < |data| ==> data[k].start.Some? && data[k].end.Some? && data[k].speaker.Some?
    ensures SpeakerLookup(data, mid) == Some(Diarize.FirstMatch(AsIntervals(data), mid))
    decreases |data|
  {
    if |data| > 0 {
      var rest := data[1..];
      LookupAgrees(rest, mid);
      assert AsIntervals(data)[1..] == AsIntervals(rest);
    }
  }

  /** A missing `start` in the first entry fails the search, whatever follows. */
  lemma MissingStartFails(data: seq<DiarEntry>, mid: real)
    requires |data| > 0 && data[0].start.None?
    ensures SpeakerLookup(data, mid).None?
  {
  }

  /** The prefix written in front of the text line. */
  function TagLine(id: int, line: string): string
  {
    "[S" + IntToString(id) + "] " + line
  }

  /**
   * One block: with at least three lines and a time range somewhere in the
   * second, its third line is prefixed with the speaker of the block's
   * midpoint; other blocks pass through verbatim. None on a missing key.
   */
  function RewriteBlock(block: string, data: seq<DiarEntry>): (r: Option<string>)
    ensures var lines := Split(block, '\n');
            (|lines| < 3 || SearchTimeRange(lines[1], 0).None?) ==> r == Some(block)
    ensures var lines := Split(block, '\n');
            r.None? <==> (&& |lines| >= 3 && SearchTimeRange(lines[1], 0).Some?
                          && SpeakerLookup(data, Diarize.Midpoint(ParseTime(SearchTimeRange(lines[1], 0).value.0),
                                                                  ParseTime(SearchTimeRange(lines[1], 0).value.1))).None?)
  {
    var lines := Split(block, '\n');
    if |lines| < 3 then Some(block)
    else
      match SearchTimeRange(lines[1], 0)
      case None => Some(block)
      case Some(range) =>
        var mid := Diarize.Midpoint(ParseTime(range.0), ParseTime(range.1));
        match SpeakerLookup(data, mid)
        case None => None
        case Some(id) => Some(Join(lines[2 := TagLine(id, lines[2])], "\n"))
  }

  /** Every block rewritten, in order; None as soon as one fails. */
  function RewriteAll(blocks: seq<string>, data: seq<DiarEntry>): Option<seq<string>>
  {
    MapAll(b => RewriteBlock(b, data), blocks)
  }

  /** The file `apply_diarization_to_srt` writes, or None where it returns False. */
  function Applied(content: string, data: seq<DiarEntry>): Option<string>
  {
    match RewriteAll(RegexSplit(BlankLine, Strip(content)), data)
    case None => None
    case Some(blocks) => Some(Join(blocks, "\n\n"))
  }

  /** `apply_diarization_to_srt` without the file I/O: the success flag and the text written. */
  method ApplyDiarizationToSrt(content: string, data: seq<DiarEntry>) returns (ok: bool, output: string)
    ensures ok <==> Applied(content, data).Some?
    ensures ok ==> output == Applied(content, data).value
  {
    var blocks := RegexSplit(BlankLine, Strip(content));
    var newBlocks: seq<string> := [];
    for i := 0 to |blocks|
      invariant RewriteAll(blocks[..i], data) == Some(newBlocks)
    {
      RewriteAllSnoc(blocks, i, data);
      var rewritten := TagBlock(blocks[i], data);
      if rewritten.None? {
        FailureAt(blocks, i, data);
        return false, "";
      }
      newBlocks := newBlocks + [rewritten.value];
    }
    assert blocks[..|blocks|] == blocks;
    ok, output := true, Join(newBlocks, "\n\n");
  }

  /** Rewriting one more block appends it, or fails when it fails. */
  lemma RewriteAllSnoc(blocks: seq<string>, i: nat, data: seq<DiarEntry>)
    requires i < |blocks|
    ensures RewriteAll(blocks[..i + 1], data)
         == if RewriteAll(blocks[..i], data).None? || RewriteBlock(blocks[i], data).None? then None
            else Some(RewriteAll(blocks[..i], data).value + [RewriteBlock(blocks[i], data).value])
  {
    MapAllSnoc(b => RewriteBlock(b, data), blocks, i);
  }

  /** A block that fails to rewrite fails the whole file. */
  lemma FailureAt(blocks: seq<string>, i: nat, data: seq<DiarEntry>)
    requires i < |blocks| && RewriteBlock(blocks[i], data).None?
    ensures RewriteAll(blocks, data).None?
  {
    var f := b => RewriteBlock(b, data);
    assert f(blocks[i]).None?;
  }

  /** The body of the block loop: None where a missing key raises. */
  method TagBlock(block: string, data: seq<DiarEntry>) returns (r: Option<string>)
    ensures r == RewriteBlock(block, data)
  {
    var lines := Split(block, '\n');
    if |lines| >= 3 {
      var timeMatch := SearchTimeRange(lines[1], 0);
      if timeMatch.Some? {
        var startMs := ParseTime(timeMatch.value.0);
        var endMs := ParseTime(timeMatch.value.1);
        var midS := Diarize.Midpoint(startMs, endMs);
        var speakerId := FindSpeaker(data, midS);
        if speakerId.None? {
          return None;
        }
        lines := lines[2 := TagLine(speakerId.value, lines[2])];
        return Some(Join(lines, "\n"));
      }
    }
    return Some(block);
  }

  /** The speaker search loop; None where a missing key raises. */
  method FindSpeaker(data: seq<DiarEntry>, mid: real) returns (r: Option<int>)
    ensures r == SpeakerLookup(data, mid)
  {
    var speakerId := 0;
    var j := 0;
    while j < |data|
      invariant 0 <= j <= |data|
      invariant SpeakerLookup(data, mid) == SpeakerLookup(data[j..], mid)
    {
      var d := data[j];
      assert data[j..][1..] == data[j + 1..];
      if d.start.None? {
        return None;
      }
      if d.start.value <= mid {
        if d.end.None? {
          return None;
        }
        if mid <= d.end.value {
          if d.speaker.None? {
            return None;
          }
          speakerId := d.speaker.value;
          return Some(speakerId);
        }
      }
      j := j + 1;
    }
    return Some(speakerId);
  }

  /** As many blocks come out as were split from the input. */
  lemma BlockCountKept(content: string, data: seq<DiarEntry>)
    requires Applied(content, data).Some?
    ensures |RewriteAll(RegexSplit(BlankLine, Strip(content)), data).value| == |RegexSplit(BlankLine, Strip(content))|
  {
  }

  lemma TagLineNoNewline(id: int, line: string)
    requires '\n' !in line
    ensures '\n' !in TagLine(id, line)
  {
    var d := IntToString(id);
    assert '\n' !in d by {
      var n := NatToString(if id >= 0 then id else -id);
      assert forall k :: 0 <= k < |n| ==> IsDigit(n[k]);
    }
  }

  /** The block has a text line and a time range, and the search over `data` finds speaker `id` at its midpoint. */
  predicate FindsSpeaker(lines: seq<string>, data: seq<DiarEntry>, id: int)
  {
    |lines| >= 3 && SearchTimeRange(lines[1], 0).Some?
    && SpeakerLookup(data, Diarize.Midpoint(ParseTime(SearchTimeRange(lines[1], 0).value.0),
                                          ParseTime(SearchTimeRange(lines[1], 0).value.1))) == Some(id)
  }

  /**
   * Only the third line of a tagged block changes, by the prefix of the
   * speaker found; the block keeps its number of lines.
   */
  lemma OnlyTextLineChanges(block: string, data: seq<DiarEntry>, id: int)
    requires FindsSpeaker(Split(block, '\n'), data, id)
    ensures RewriteBlock(block, data).Some?
    ensures var lines := Split(block, '\n');
      Split(RewriteBlock(block, data).value, '\n') == lines[2 := TagLine(id, lines[2])]
  {
    var lines := Split(block, '\n');
    var tagged := lines[2 := TagLine(id, lines[2])];
    TagLineNoNewline(id, lines[2]);
    assert forall k :: 0 <= k < |tagged| ==> '\n' !in tagged[k];
    SplitJoin(tagged, '\n');
  }

  /** A block without a text line, or without a time range in its second line, is written back verbatim. */
  lemma PassThrough(block: string, data: seq<DiarEntry>)
    requires var lines := Split(block, '\n'); |lines| < 3 || SearchTimeRange(lines[1], 0).None?
    ensures RewriteBlock(block, data) == Some(block)
  {
  }

  /** Tagging keeps the time range line, so the same speaker is found again. */
  lemma TaggedFindsSpeaker(lines: seq<string>, data: seq<DiarEntry>, id: int, line: string)
    requires FindsSpeaker(lines, data, id)
    ensures FindsSpeaker(lines[2 := line], data, id)
  {
    assert lines[2 := line][1] == lines[1];
  }

  /**
   * There is no check for an existing tag: rewriting a tagged block again
   * puts a second prefix in front of the first.
   */
  lemma TagsAccumulate(block: string, data: seq<DiarEntry>, id: int)
    requires FindsSpeaker(Split(block, '\n'), data, id)
    ensures RewriteBlock(block, data).Some?
    ensures RewriteBlock(RewriteBlock(block, data).value, data).Some?
    ensures var lines := Split(block, '\n');
      Split(RewriteBlock(RewriteBlock(block, data).value, data).value, '\n')
        == lines[2 := TagLine(id, TagLine(id, lines[2]))]
  {
    var lines := Split(block, '\n');
    OnlyTextLineChanges(block, data, id);
    var once := RewriteBlock(block, data).value;
    var onceLines := lines[2 := TagLine(id, lines[2])];
    TaggedFindsSpeaker(lines, data, id, TagLine(id, lines[2]));
    OnlyTextLineChanges(once, data, id);
    assert onceLines[2 := TagLine(id, onceLines[2])] == lines[2 := TagLine(id, TagLine(id, lines[2]))];
  }

  // ---------------------------------------------------------------------
  // parse_srt_content and write_srt_file

  /** One subtitle as the service holds it: timestamps stay as text. */
  datatype Subtitle = Subtitle(index: int, start: string, end: string, text: string)

  /** The stripped lines that are not blank, in order. */
  function CleanLines(lines: seq<string>): (r: seq<string>)
    ensures |r| <= |lines|
    decreases |lines|
  {
    if |lines| == 0 then []
    else
      var rest := CleanLines(lines[1..]);
      var l := Strip(lines[0]);
      if l == "" then rest else [l] + rest
  }

  /** Every kept line is non-blank and stripped. */
  lemma {:induction false} CleanLinesClean(lines: seq<string>)
    ensures forall k :: 0 <= k < |CleanLines(lines)| ==> CleanLines(lines)[k] != "" && IsStripped(CleanLines(lines)[k])
    decreases |lines|
  {
    if |lines| > 0 {
      var rest := CleanLines(lines[1..]);
      var l := Strip(lines[0]);
      CleanLinesClean(lines[1..]);
      if l == "" {
        assert CleanLines(lines) == rest;
      } else {
        var r := [l] + rest;
        assert CleanLines(lines) == r;
        forall k | 0 <= k < |r| ensures r[k] != "" && IsStripped(r[k]) {
          if k > 0 {
            assert r[k] == rest[k - 1];
          }
        }
      }
    }
  }

  lemma {:induction false} CleanLinesKeep(lines: seq<string>)
    requires forall k :: 0 <= k < |lines| ==> lines[k] != "" && IsStripped(lines[k])
    ensures CleanLines(lines) == lines
    decreases |lines|
  {
    if |lines| > 0 {
      CleanLinesKeep(lines[1..]);
      assert [lines[0]] + lines[1..] == lines;
    }
  }

  /** `str.isdigit()` on ASCII: non-empty and all digits. */
  predicate IsDigitString(s: string)
  {
    |s| > 0 && AllDigits(s)
  }

  /**
   * Block `position` of the content: at least three non-blank lines and a
   * time range in the second; the index is the first line's number when it
   * is all digits and `position + 1` otherwise; text lines joined by newlines.
   */
  function ContentBlock(position: nat, block: string): (r: Option<Subtitle>)
    ensures var lines := CleanLines(Split(block, '\n'));
            r.Some? <==> |lines| >= 3 && SearchTimeRange(lines[1], 0).Some?
    ensures var lines := CleanLines(Split(block, '\n'));
            r.Some? ==> && r.value.start == SearchTimeRange(lines[1], 0).value.0
                        && r.value.end == SearchTimeRange(lines[1], 0).value.1
                        && r.value.text == Join(lines[2..], "\n")
  {
    var lines := CleanLines(Split(block, '\n'));
    if |lines| < 3 then None
    else
      var idx := if IsDigitString(lines[0]) then DigitsValue(lines[0]) else position + 1;
      match SearchTimeRange(lines[1], 0)
      case None => None
      case Some(range) => Some(Subtitle(idx, range.0, range.1, Join(lines[2..], "\n")))
  }

  /**
   * A block is kept only with at least three non-blank lines; its index is
   * the first line's number when that line is all digits, else its position + 1.
   */
  lemma ContentBlockIndex(position: nat, block: string)
    requires ContentBlock(position, block).Some?
    ensures var lines := CleanLines(Split(block, '\n'));
      && |lines| >= 3
      && (IsDigitString(lines[0]) ==> ContentBlock(position, block).value.index == DigitsValue(lines[0]))
      && (!IsDigitString(lines[0]) ==> ContentBlock(position, block).value.index == position + 1)
  {
  }

  /** `parse_srt_content`. */
  function Subtitles(content: string): seq<Subtitle>
  {
    FilterMapIndexed(ContentBlock, RegexSplit(BlankLine, Strip(content)))
  }

  method ParseSrtContent(content: string) returns (subtitles: seq<Subtitle>)
    ensures subtitles == Subtitles(content)
  {
    var blocks := RegexSplit(BlankLine, Strip(content));
    subtitles := [];
    for i := 0 to |blocks|
      invariant subtitles == FilterMapIndexed(ContentBlock, blocks[..i])
    {
      FilterMapIndexedSnoc(ContentBlock, blocks, i);
      var sub := ReadContentBlock(i, blocks[i]);
      if sub.Some? {
        subtitles := subtitles + [sub.value];
      }
    }
    assert blocks[..|blocks|] == blocks;
  }

  /** The body of the block loop: the subtitle of one block, or None when it is skipped. */
  method ReadContentBlock(i: nat, block: string) returns (r: Option<Subtitle>)
    ensures r == ContentBlock(i, block)
  {
    var lines := CleanLines(Split(block, '\n'));
    if |lines| >= 3 {
      var idx := if IsDigitString(lines[0]) then DigitsValue(lines[0]) else i + 1;
      var timeMatch := SearchTimeRange(lines[1], 0);
      if timeMatch.Some? {
        return Some(Subtitle(idx, timeMatch.value.0, timeMatch.value.1, Join(lines[2..], "\n")));
      }
    }
    return None;
  }

  /** Block `k` as `write_srt_file` writes it, without the blank line after it. */
  function SubtitleBody(k: nat, sub: Subtitle): string
  {
    NatToString(k + 1) + "\n" + (sub.start + " --> " + sub.end) + "\n" + sub.text
  }

  function SubtitleBodies(subs: seq<Subtitle>): (r: seq<string>)
    ensures |r| == |subs|
    ensures forall k :: 0 <= k < |r| ==> r[k] == SubtitleBody(k, subs[k])
  {
    seq(|subs|, k requires 0 <= k < |subs| => SubtitleBody(k, subs[k]))
  }

  /** `write_srt_file` without the file I/O: the text written. */
  method WriteSrtFile(subs: seq<Subtitle>) returns (out: string)
    ensures out == SrtUtils.Concat(SubtitleBodies(subs))
  {
    out := "";
    for i := 0 to |subs|
      invariant out == SrtUtils.Concat(SubtitleBodies(subs[..i]))
    {
      assert SubtitleBodies(subs[..i + 1])[..i] == SubtitleBodies(subs[..i]);
      var sub := subs[i];
      out := out + (NatToString(i + 1) + "\n" + (sub.start + " --> " + sub.end) + "\n" + sub.text) + "\n\n";
    }
    assert subs[..|subs|] == subs;
  }

  // ---------------------------------------------------------------------
  // write then parse

  /** A subtitle whose timestamps are well formed and whose text lines are all non-blank and stripped. */
  predicate Writable(sub: Subtitle)
  {
    && |sub.start| == 12 && TimestampAt(sub.start, 0) && |sub.end| == 12 && TimestampAt(sub.end, 0)
    && forall k :: 0 <= k < |Split(sub.text, '\n')| ==>
         Split(sub.text, '\n')[k] != "" && IsStripped(Split(sub.text, '\n')[k])
  }

  function Renumbered(subs: seq<Subtitle>): (r: seq<Subtitle>)
    ensures |r| == |subs|
    ensures forall k :: 0 <= k < |r| ==> r[k] == subs[k].(index := k + 1)
  {
    seq(|subs|, k requires 0 <= k < |subs| => subs[k].(index := k + 1))
  }

  /** The lines of a written block: number, time range, then the text's own lines. */
  lemma BodyLines(k: nat, sub: Subtitle)
    requires Writable(sub)
    ensures Split(SubtitleBody(k, sub), '\n')
      == [NatToString(k + 1), sub.start + " --> " + sub.end] + Split(sub.text, '\n')
  {
    var n := NatToString(k + 1);
    var range := sub.start + " --> " + sub.end;
    SrtUtils.DigitsNoNewline(n);
    SrtUtils.TimestampPair(sub.start, sub.end);
    TwoLinesThen(n, range, sub.text);
  }

  /** Two single lines in front of a text split off as its first two pieces. */
  lemma TwoLinesThen(n: string, range: string, t: string)
    requires '\n' !in n && '\n' !in range
    ensures Split(n + "\n" + range + "\n" + t, '\n') == [n, range] + Split(t, '\n')
  {
    SplitCons(range, t, '\n');
    SplitCons(n, range + "\n" + t, '\n');
    assert n + "\n" + range + "\n" + t == n + "\n" + (range + "\n" + t);
  }

  /** A written block is one the blank-line split keeps whole. */
  lemma BodyWellFormed(k: nat, sub: Subtitle)
    requires Writable(sub)
    ensures WellFormedBlock(SubtitleBody(k, sub))
  {
    var n := NatToString(k + 1);
    var range := sub.start + " --> " + sub.end;
    SrtUtils.DigitsNoNewline(n);
    SrtUtils.TimestampPair(sub.start, sub.end);
    WrittenTextWellFormed(sub.text);
    LineThenBlock(range, sub.text);
    LineThenBlock(n, range + "\n" + sub.text);
  }

  /** A text whose lines are all non-blank and stripped is a well-formed block. */
  lemma WrittenTextWellFormed(t: string)
    requires forall k :: 0 <= k < |Split(t, '\n')| ==> Split(t, '\n')[k] != "" && IsStripped(Split(t, '\n')[k])
    ensures WellFormedBlock(t)
  {
    JoinSplit(t, '\n');
    JoinLinesSolid(Split(t, '\n'));
  }

  /** A written block parses back to its subtitle, numbered `k + 1`. */
  lemma ParseBody(k: nat, sub: Subtitle)
    requires Writable(sub)
    ensures ContentBlock(k, SubtitleBody(k, sub)) == Some(sub.(index := k + 1))
  {
    var n := NatToString(k + 1);
    var range := sub.start + " --> " + sub.end;
    var lines := [n, range] + Split(sub.text, '\n');
    CleanBodyLines(k, sub);
    assert IsDigitString(n);
    RangeLine(sub.start, sub.end);
    assert SearchTimeRange(range, 0) == Some((sub.start, sub.end));
    assert lines[2..] == Split(sub.text, '\n');
    JoinSplit(sub.text, '\n');
  }

  /** The non-blank lines of a written block are all its lines. */
  lemma CleanBodyLines(k: nat, sub: Subtitle)
    requires Writable(sub)
    ensures CleanLines(Split(SubtitleBody(k, sub), '\n'))
      == [NatToString(k + 1), sub.start + " --> " + sub.end] + Split(sub.text, '\n')
  {
    var n := NatToString(k + 1);
    var range := sub.start + " --> " + sub.end;
    var t := Split(sub.text, '\n');
    BodyLines(k, sub);
    HeadLinesStripped(n, sub.start, sub.end);
    CleanLinesKeep(t);
    CleanHead(n, range, t);
  }

  lemma CleanHead(n: string, range: string, t: seq<string>)
    requires n != "" && Strip(n) == n && range != "" && Strip(range) == range
    requires CleanLines(t) == t
    ensures CleanLines([n, range] + t) == [n, range] + t
  {
    CleanLinesCons(range, t);
    CleanLinesCons(n, [range] + t);
    assert [n, range] + t == [n] + ([range] + t);
  }

  lemma CleanLinesCons(l: string, rest: seq<string>)
    requires l != "" && Strip(l) == l
    ensures CleanLines([l] + rest) == [l] + CleanLines(rest)
  {
    assert ([l] + rest)[1..] == rest;
  }

  lemma HeadLinesStripped(n: string, start: string, end: string)
    requires |n| >= 1 && AllDigits(n)
    requires |start| == 12 && TimestampAt(start, 0) && |end| == 12 && TimestampAt(end, 0)
    ensures Strip(n) == n && Strip(start + " --> " + end) == start + " --> " + end
  {
    DigitsStripped(n);
    RangeStripped(start, end);
  }

  lemma DigitsStripped(n: string)
    requires |n| >= 1 && AllDigits(n)
    ensures IsStripped(n)
  {
    assert IsDigit(n[0]) && IsDigit(n[|n| - 1]);
  }

  lemma RangeStripped(start: string, end: string)
    requires |start| == 12 && TimestampAt(start, 0) && |end| == 12 && TimestampAt(end, 0)
    ensures IsStripped(start + " --> " + end)
  {
    var range := start + " --> " + end;
    assert range == start + (" --> " + end);
    assert range[0] == start[0] && IsDigit(start[0]);
    assert range[|range| - 1] == end[11] && IsDigit(end[11]);
  }

  /** Writing then parsing keeps every subtitle's start, end and text, in order, renumbered 1..N. */
  lemma WriteThenParse(subs: seq<Subtitle>)
    requires forall k :: 0 <= k < |subs| ==> Writable(subs[k])
    ensures Subtitles(SrtUtils.Concat(SubtitleBodies(subs))) == Renumbered(subs)
  {
    var bs := SubtitleBodies(subs);
    if |subs| == 0 {
      NoSubtitles();
    } else {
      BodiesParseBack(subs);
      SrtUtils.SplitWritten(BlankLine, bs);
      FilterMapIndexedExact(ContentBlock, bs, Renumbered(subs));
    }
  }

  /** An empty file holds no subtitle. */
  lemma NoSubtitles()
    ensures Subtitles(SrtUtils.Concat([])) == []
  {
    assert Strip("") == "";
    assert RegexSplit(BlankLine, "") == [""];
    assert Split("", '\n') == [""];
  }

  /** Every written block is well formed and parses back to its renumbered subtitle. */
  lemma BodiesParseBack(subs: seq<Subtitle>)
    requires forall k :: 0 <= k < |subs| ==> Writable(subs[k])
    ensures forall k :: 0 <= k < |subs| ==> WellFormedBlock(SubtitleBodies(subs)[k])
    ensures forall k :: 0 <= k < |subs| ==> ContentBlock(k, SubtitleBodies(subs)[k]) == Some(Renumbered(subs)[k])
  {
    forall k | 0 <= k < |subs|
      ensures WellFormedBlock(SubtitleBodies(subs)[k])
      ensures ContentBlock(k, SubtitleBodies(subs)[k]) == Some(Renumbered(subs)[k])
    {
      BodyWellFormed(k, subs[k]);
      ParseBody(k, subs[k]);
    }
  }
}
