/**
 * The shared SRT layer: speaker tags carried in the text, the document
 * parser, the streaming block reader and the writer.
 */
module SrtUtils {
  import opened Wrappers
  import opened Text
  import opened Timecode
  import opened Blocks
  import opened Seqs

  /**
   * One subtitle as `parse_srt` returns it and `write_srt` consumes it:
   * the block's raw index line, start and end in milliseconds, the text and
   * the speaker id (0 is the default speaker).
   */
  datatype Segment = Segment(index: string, start: nat, end: nat, text: string, speakerId: int)

  // ---------------------------------------------------------------------
  // Speaker tags `[S<n>]`

  /** The number of ASCII digits at the start of `t`. */
  function LeadingDigits(t: string): (k: nat)
    ensures k <= |t| && AllDigits(t[..k])
    ensures k == |t| || !IsDigit(t[k])
    decreases |t|
  {
    if |t| > 0 && IsDigit(t[0]) then
      var k := 1 + LeadingDigits(t[1..]);
      assert t[..k] == [t[0]] + t[1..][..k - 1];
      k
    else 0
  }

  /** What the regex `.*` matches at the start of `s`: everything up to the first newline. */
  function UpToNewline(s: string): (r: string)
    ensures '\n' !in r && StartsWith(s, r)
    ensures '\n' !in s ==> r == s
    decreases |s|
  {
    if |s| == 0 || s[0] == '\n' then "" else [s[0]] + UpToNewline(s[1..])
  }

  /**
   * `re.match(r'\[S(\d+)\]\s*(.*)', text)`: the tag's number and the text
   * after it and any whitespace, or None when the text does not start with a tag.
   */
  function MatchSpeakerTag(text: string): Option<(nat, string)>
  {
    if !StartsWith(text, "[S") then None
    else
      var k := LeadingDigits(text[2..]);
      assert text[2..2 + k] == text[2..][..k];
      TagMatch(text, k)
  }

  /** The rest of the match once `[S` and `k` digits are read: a `]` must follow. */
  function TagMatch(text: string, k: nat): Option<(nat, string)>
    requires 2 + k <= |text| && AllDigits(text[2..2 + k])
  {
    if k >= 1 && 2 + k < |text| && text[2 + k] == ']' then
      Some((DigitsValue(text[2..2 + k]), UpToNewline(StripLeft(text[3 + k..]))))
    else None
  }

  /** The in-band tag for speaker `id`. */
  function Tag(id: int): string
  {
    "[S" + IntToString(id) + "]"
  }

  /** Decoding on parse: the tag's speaker and the text without it; speaker 0 and the text when untagged. */
  function DecodeSpeakerTag(text: string): (r: (nat, string))
    ensures MatchSpeakerTag(text).None? ==> r == (0, text)
  {
    match MatchSpeakerTag(text)
    case Some(m) => m
    case None => (0, text)
  }

  /** Encoding on write: the tag and a space are prefixed when the id is positive and the tag is not already there. */
  function EncodeSpeakerTag(id: int, text: string): (r: string)
    ensures id <= 0 ==> r == text
    ensures id > 0 ==> StartsWith(r, Tag(id))
    ensures StartsWith(text, Tag(id)) ==> r == text
  {
    if id > 0 && !StartsWith(text, Tag(id)) then Tag(id) + " " + text else text
  }

  /** Encoding twice with the same id gives what encoding once gives: no double tag. */
  lemma EncodeIdempotent(id: int, text: string)
    ensures EncodeSpeakerTag(id, EncodeSpeakerTag(id, text)) == EncodeSpeakerTag(id, text)
  {
  }

  /** Text that decodes as itself: no leading tag, no newline, no leading whitespace. */
  predicate Untagged(text: string)
  {
    MatchSpeakerTag(text).None? && '\n' !in text && (|text| == 0 || !IsSpace(text[0]))
  }

  /** Decoding an encoded text gives back the speaker and the text. */
  lemma DecodeEncode(id: nat, text: string)
    requires Untagged(text)
    ensures DecodeSpeakerTag(EncodeSpeakerTag(id, text)) == (id, text)
  {
    if id > 0 {
      var d := NatToString(id);
      assert Tag(id) == "[S" + d + "]";
      if StartsWith(text, Tag(id)) {
        TagStartMatches(d, text);
        assert false;
      }
      assert EncodeSpeakerTag(id, text) == "[S" + d + "]" + " " + text;
      MatchTagged(d, text);
    }
  }

  /** Any text that starts with a tag matches the tag pattern. */
  lemma TagStartMatches(d: string, text: string)
    requires |d| >= 1 && AllDigits(d) && StartsWith(text, "[S" + d + "]")
    ensures MatchSpeakerTag(text).Some?
  {
    var rest := text[|d| + 3..];
    assert text == "[S" + d + "]" + rest;
    assert text[2..] == d + ("]" + rest);
    LeadingDigitsOf(d, "]" + rest);
    assert text[..2] == "[S";
  }

  /** A tag with the digits `d` in front of a space and the text is matched, giving the number and the text. */
  lemma MatchTagged(d: string, text: string)
    requires |d| >= 1 && AllDigits(d) && '\n' !in text && (|text| == 0 || !IsSpace(text[0]))
    ensures MatchSpeakerTag("[S" + d + "]" + " " + text) == Some((DigitsValue(d), text))
  {
    var e := "[S" + d + "]" + " " + text;
    TagDigits(d, text);
    TagRest(d, text);
    assert e[..2] == "[S";
    MatchFields(e, |d|);
    assert UpToNewline(StripLeft(e[3 + |d|..])) == text;
  }

  /** A text holding `[S`, digits and `]` at the start matches, with the fields read off at those places. */
  lemma MatchFields(e: string, k: nat)
    requires StartsWith(e, "[S") && k >= 1 && 2 + k < |e|
    requires LeadingDigits(e[2..]) == k && e[2 + k] == ']'
    ensures AllDigits(e[2..2 + k])
    ensures MatchSpeakerTag(e) == Some((DigitsValue(e[2..2 + k]), UpToNewline(StripLeft(e[3 + k..]))))
  {
    assert e[2..2 + k] == e[2..][..k];
    assert MatchSpeakerTag(e) == TagMatch(e, k);
  }

  lemma TagDigits(d: string, text: string)
    requires AllDigits(d)
    ensures var e := "[S" + d + "]" + " " + text;
      LeadingDigits(e[2..]) == |d| && e[2 + |d|] == ']' && e[2..2 + |d|] == d
  {
    var e := "[S" + d + "]" + " " + text;
    assert e[2..] == d + ("] " + text);
    LeadingDigitsOf(d, "] " + text);
  }

  lemma TagRest(d: string, text: string)
    requires |text| == 0 || !IsSpace(text[0])
    ensures StripLeft(("[S" + d + "]" + " " + text)[3 + |d|..]) == text
  {
    var e := "[S" + d + "]" + " " + text;
    assert e[3 + |d|..] == " " + text;
    assert (" " + text)[1..] == text;
  }

  lemma {:induction false} LeadingDigitsOf(d: string, rest: string)
    requires AllDigits(d) && (|rest| == 0 || !IsDigit(rest[0]))
    ensures LeadingDigits(d + rest) == |d|
    decreases |d|
  {
    if |d| > 0 {
      assert (d + rest)[1..] == d[1..] + rest;
      LeadingDigitsOf(d[1..], rest);
    } else {
      assert d + rest == rest;
    }
  }

  // ---------------------------------------------------------------------
  // Markup

  /** The index of the first `c` in `s`, or -1. */
  function IndexOf(s: string, c: char): (k: int)
    ensures -1 <= k < |s|
    ensures k >= 0 ==> s[k] == c && forall j :: 0 <= j < k ==> s[j] != c
    ensures k < 0 ==> c !in s
    decreases |s|
  {
    if |s| == 0 then -1
    else if s[0] == c then 0
    else
      var k := IndexOf(s[1..], c);
      if k < 0 then -1 else k + 1
  }

  /** `re.sub(r'<[^>]+>', '', s)`: removes every `<...>` with at least one character inside. */
  function RemoveMarkup(s: string): (r: string)
    ensures |r| <= |s|
    ensures '<' !in s ==> r == s
    decreases |s|
  {
    if |s| == 0 then ""
    else
      var k := IndexOf(s, '>');
      if s[0] == '<' && k >= 2 then RemoveMarkup(s[k + 1..])
      else [s[0]] + RemoveMarkup(s[1..])
  }

  // ---------------------------------------------------------------------
  // parse_srt

  /**
   * One block of `parse_srt`: at least three lines after stripping, a time
   * range at the start of the second line, the remaining lines joined by
   * spaces and stripped, the speaker tag decoded, and text left once markup
   * is removed. The stored text keeps its markup.
   */
  function ParseBlock(block: string): (r: Option<Segment>)
    ensures r.Some? ==> RemoveMarkup(r.value.text) != "" && r.value.speakerId >= 0
    ensures r.Some? ==> |Split(Strip(block), '\n')| >= 3
  {
    ParseLines(Split(Strip(block), '\n'))
  }

  /**
   * `parse_srt` on the lines of one stripped block: kept exactly when there
   * are three lines, a time range opens the second, and the decoded text
   * survives markup removal; the index is the first line verbatim, the times
   * are the captures read as milliseconds, and the text keeps its markup.
   */
  function ParseLines(lines: seq<string>): (r: Option<Segment>)
    ensures r.Some? ==> RemoveMarkup(r.value.text) != "" && r.value.speakerId >= 0 && |lines| >= 3
    ensures r.Some? <==> (&& |lines| >= 3 && TimeRangeAt(lines[1], 0).Some?
                          && RemoveMarkup(DecodeSpeakerTag(Strip(Join(lines[2..], " "))).1) != "")
    ensures r.Some? ==>
              && r.value.index == lines[0]
              && r.value.start == ParseTime(TimeRangeAt(lines[1], 0).value.0)
              && r.value.end == ParseTime(TimeRangeAt(lines[1], 0).value.1)
              && r.value.speakerId == DecodeSpeakerTag(Strip(Join(lines[2..], " "))).0
              && r.value.text == DecodeSpeakerTag(Strip(Join(lines[2..], " "))).1
  {
    if |lines| < 3 then None
    else
      match TimeRangeAt(lines[1], 0)
      case None => None
      case Some(range) =>
        var decoded := DecodeSpeakerTag(Strip(Join(lines[2..], " ")));
        if RemoveMarkup(decoded.1) == "" then None
        else Some(Segment(lines[0], ParseTime(range.0), ParseTime(range.1), decoded.1, decoded.0))
  }

  /** `parse_srt` over the file's content: blocks split at runs of blank lines, malformed ones skipped. */
  function ParseDocument(content: string): seq<Segment>
  {
    FilterMap(ParseBlock, RegexSplit(NewlineRun, Strip(content)))
  }

  method ParseSrt(content: string) returns (segments: seq<Segment>)
    ensures segments == ParseDocument(content)
  {
    var blocks := RegexSplit(NewlineRun, Strip(content));
    segments := [];
    for i := 0 to |blocks|
      invariant segments == FilterMap(ParseBlock, blocks[..i])
    {
      FilterMapSnoc(ParseBlock, blocks, i);
      match ParseBlock(blocks[i])
      case Some(seg) => segments := segments + [seg];
      case None =>
    }
    assert blocks[..|blocks|] == blocks;
  }

  /** A block with fewer than three lines is skipped rather than reported. */
  lemma ShortBlockSkipped(block: string)
    requires |Split(Strip(block), '\n')| < 3
    ensures ParseBlock(block).None?
  {
  }

  /** A block of three lines or more whose second line does not open with a time range is skipped. */
  lemma UntimedBlockSkipped(block: string)
    requires var lines := Split(Strip(block), '\n'); |lines| >= 3 && TimeRangeAt(lines[1], 0).None?
    ensures ParseBlock(block).None?
  {
  }

  /**
   * A block is kept exactly when it has three lines, a time range at the start
   * of the second, and text left once markup is removed; the segment then
   * holds the first line, the two times, and the decoded speaker and text.
   */
  lemma KeptBlockFields(block: string)
    ensures var lines := Split(Strip(block), '\n');
            && (ParseBlock(block).Some? <==>
                  && |lines| >= 3 && TimeRangeAt(lines[1], 0).Some?
                  && RemoveMarkup(DecodeSpeakerTag(Strip(Join(lines[2..], " "))).1) != "")
            && (ParseBlock(block).Some? ==>
                  && ParseBlock(block).value.index == lines[0]
                  && ParseBlock(block).value.start == ParseTime(TimeRangeAt(lines[1], 0).value.0)
                  && ParseBlock(block).value.end == ParseTime(TimeRangeAt(lines[1], 0).value.1)
                  && ParseBlock(block).value.speakerId == DecodeSpeakerTag(Strip(Join(lines[2..], " "))).0
                  && ParseBlock(block).value.text == DecodeSpeakerTag(Strip(Join(lines[2..], " "))).1)
  {
  }

  /** Every parsed segment comes from one block and has text left after markup removal. */
  lemma ParsedSegmentsHaveText(content: string, k: nat)
    requires k < |ParseDocument(content)|
    ensures RemoveMarkup(ParseDocument(content)[k].text) != ""
    ensures ParseDocument(content)[k].speakerId >= 0
  {
    var blocks := RegexSplit(NewlineRun, Strip(content));
    FilterMapFrom(ParseBlock, blocks, k);
  }

  // ---------------------------------------------------------------------
  // read_srt_blocks

  /** The runs of non-blank stripped lines, a blank line closing a run (possibly empty). */
  function Runs(lines: seq<string>): (r: seq<seq<string>>)
    ensures |r| >= 1
    decreases |lines|
  {
    if |lines| == 0 then [[]]
    else
      var r := Runs(lines[..|lines| - 1]);
      var l := Strip(lines[|lines| - 1]);
      if l == "" then r + [[]] else r[..|r| - 1] + [r[|r| - 1] + [l]]
  }

  /** The runs of at least three lines, in order. */
  function LongRuns(runs: seq<seq<string>>): (r: seq<seq<string>>)
    ensures forall i :: 0 <= i < |r| ==> |r[i]| >= 3
    decreases |runs|
  {
    if |runs| == 0 then []
    else
      var last := runs[|runs| - 1];
      LongRuns(runs[..|runs| - 1]) + (if |last| >= 3 then [last] else [])
  }

  /** All lines of a sequence of runs, in order. */
  function Flatten(runs: seq<seq<string>>): seq<string>
    decreases |runs|
  {
    if |runs| == 0 then [] else Flatten(runs[..|runs| - 1]) + runs[|runs| - 1]
  }

  /** The stripped non-blank lines, in order. */
  function NonBlank(lines: seq<string>): seq<string>
    decreases |lines|
  {
    if |lines| == 0 then []
    else
      var l := Strip(lines[|lines| - 1]);
      NonBlank(lines[..|lines| - 1]) + (if l == "" then [] else [l])
  }

  /** The runs lose no line and invent none: together they are exactly the non-blank lines. */
  lemma {:induction false} RunsCoverLines(lines: seq<string>)
    ensures Flatten(Runs(lines)) == NonBlank(lines)
    decreases |lines|
  {
    if |lines| > 0 {
      var init := lines[..|lines| - 1];
      RunsCoverLines(init);
      var r := Runs(init);
      var l := Strip(lines[|lines| - 1]);
      assert NonBlank(lines) == NonBlank(init) + (if l == "" then [] else [l]);
      if l == "" {
        assert Runs(lines) == r + [[]];
        assert (r + [[]])[..|r|] == r;
        assert Flatten(r + [[]]) == Flatten(r) + [];
      } else {
        var r' := r[..|r| - 1] + [r[|r| - 1] + [l]];
        assert Runs(lines) == r';
        assert r'[..|r'| - 1] == r[..|r| - 1];
        assert Flatten(r) == Flatten(r[..|r| - 1]) + r[|r| - 1];
        assert Flatten(r') == Flatten(r[..|r| - 1]) + (r[|r| - 1] + [l]);
      }
    }
  }

  /**
   * `read_srt_blocks` over the file's lines: yields every run of at least
   * three non-blank stripped lines, including a last run with no blank line
   * after it.
   */
  method ReadSrtBlocks(lines: seq<string>) returns (blocks: seq<seq<string>>)
    ensures blocks == LongRuns(Runs(lines))
  {
    blocks := [];
    var block: seq<string> := [];
    ghost var runs := Runs([]);
    for i := 0 to |lines|
      invariant runs == Runs(lines[..i])
      invariant block == runs[|runs| - 1] && blocks == LongRuns(runs[..|runs| - 1])
    {
      RunsStep(lines, i);
      var lineStrip := Strip(lines[i]);
      if lineStrip == "" {
        CloseRun(runs);
        if |block| >= 3 {
          blocks := blocks + [block];
        }
        block := [];
        runs := runs + [[]];
      } else {
        ExtendRun(runs, lineStrip);
        block := block + [lineStrip];
        runs := runs[..|runs| - 1] + [block];
      }
    }
    assert lines[..|lines|] == lines;
    CloseLast(runs);
    if |block| >= 3 {
      blocks := blocks + [block];
    }
  }

  /** A blank line turns the open run into a closed one: it is yielded when long enough. */
  lemma CloseRun(runs: seq<seq<string>>)
    requires |runs| >= 1
    ensures var r := runs + [[]];
      r[|r| - 1] == [] && LongRuns(r[..|r| - 1]) == LongRuns(runs)
    ensures LongRuns(runs) == LongRuns(runs[..|runs| - 1])
                              + (if |runs[|runs| - 1]| >= 3 then [runs[|runs| - 1]] else [])
  {
    assert (runs + [[]])[..|runs|] == runs;
  }

  /** A non-blank line extends the open run and leaves the closed ones alone. */
  lemma ExtendRun(runs: seq<seq<string>>, l: string)
    requires |runs| >= 1
    ensures var r := runs[..|runs| - 1] + [runs[|runs| - 1] + [l]];
      r[|r| - 1] == runs[|runs| - 1] + [l] && r[..|r| - 1] == runs[..|runs| - 1]
  {
  }

  /** At the end of the file the open run is yielded too, when long enough. */
  lemma CloseLast(runs: seq<seq<string>>)
    requires |runs| >= 1
    ensures LongRuns(runs) == LongRuns(runs[..|runs| - 1])
                              + (if |runs[|runs| - 1]| >= 3 then [runs[|runs| - 1]] else [])
  {
  }

  /** One more line either closes the current run or extends it. */
  lemma RunsStep(lines: seq<string>, i: nat)
    requires i < |lines|
    ensures var r := Runs(lines[..i]);
      Runs(lines[..i + 1])
        == if Strip(lines[i]) == "" then r + [[]] else r[..|r| - 1] + [r[|r| - 1] + [Strip(lines[i])]]
  {
    assert lines[..i + 1][..i] == lines[..i];
  }

  /** Every line of a run is stripped and non-blank. */
  predicate CleanRun(run: seq<string>)
  {
    forall j :: 0 <= j < |run| ==> run[j] != "" && IsStripped(run[j])
  }

  /** Every run of a line list is clean. */
  predicate AllClean(runs: seq<seq<string>>)
  {
    forall i :: 0 <= i < |runs| ==> CleanRun(runs[i])
  }

  lemma {:induction false} RunsClean(lines: seq<string>)
    ensures AllClean(Runs(lines))
    decreases |lines|
  {
    if |lines| > 0 {
      var init := lines[..|lines| - 1];
      RunsClean(init);
      var l := Strip(lines[|lines| - 1]);
      if l == "" {
        assert Runs(lines) == Runs(init) + [[]];
        CleanEmptyRun(Runs(init));
      } else {
        assert Runs(lines) == Runs(init)[..|Runs(init)| - 1] + [Runs(init)[|Runs(init)| - 1] + [l]];
        CleanExtendRun(Runs(init), l);
      }
    }
  }

  lemma CleanEmptyRun(r: seq<seq<string>>)
    requires AllClean(r)
    ensures AllClean(r + [[]])
  {
    assert forall i :: 0 <= i < |r| ==> (r + [[]])[i] == r[i];
  }

  lemma CleanExtendRun(r: seq<seq<string>>, l: string)
    requires AllClean(r) && |r| > 0 && l != "" && IsStripped(l)
    ensures AllClean(r[..|r| - 1] + [r[|r| - 1] + [l]])
  {
    CleanSnoc(r[|r| - 1], l);
    var r' := r[..|r| - 1] + [r[|r| - 1] + [l]];
    assert forall i :: 0 <= i < |r| - 1 ==> r'[i] == r[i];
  }

  lemma CleanSnoc(run: seq<string>, l: string)
    requires CleanRun(run) && l != "" && IsStripped(l)
    ensures CleanRun(run + [l])
  {
    assert forall j :: 0 <= j < |run| ==> (run + [l])[j] == run[j];
  }

  /** Every yielded block has at least three lines, each stripped and non-blank. */
  lemma ReadBlocksShape(lines: seq<string>, k: nat)
    requires k < |LongRuns(Runs(lines))|
    ensures |LongRuns(Runs(lines))[k]| >= 3 && CleanRun(LongRuns(Runs(lines))[k])
  {
    RunsClean(lines);
    LongRunsFrom(Runs(lines), k);
    assert LongRuns(Runs(lines))[k] in Runs(lines);
  }

  lemma {:induction false} LongRunsFrom(runs: seq<seq<string>>, k: nat)
    requires k < |LongRuns(runs)|
    ensures LongRuns(runs)[k] in runs
    decreases |runs|
  {
    var init := runs[..|runs| - 1];
    if k < |LongRuns(init)| {
      LongRunsFrom(init, k);
    }
  }

  // ---------------------------------------------------------------------
  // write_srt

  /** The block written at position `k` (numbered `k + 1`), without the blank line that follows it. */
  function BlockBody(k: nat, seg: Segment): string
  {
    NatToString(k + 1) + "\n" + TimeLine(seg.start, seg.end) + "\n" + EncodeSpeakerTag(seg.speakerId, seg.text)
  }

  /** The blocks of `segments`, in list order. */
  function Bodies(segments: seq<Segment>): (r: seq<string>)
    ensures |r| == |segments|
    ensures forall i :: 0 <= i < |r| ==> r[i] == BlockBody(i, segments[i])
  {
    seq(|segments|, i requires 0 <= i < |segments| => BlockBody(i, segments[i]))
  }

  /** Each block followed by a blank line. */
  function Concat(bs: seq<string>): string
    decreases |bs|
  {
    if |bs| == 0 then "" else Concat(bs[..|bs| - 1]) + bs[|bs| - 1] + "\n\n"
  }

  /** `write_srt`: the file's content. */
  method WriteSrt(segments: seq<Segment>) returns (out: string)
    ensures out == Concat(Bodies(segments))
  {
    out := "";
    for i := 0 to |segments|
      invariant out == Concat(Bodies(segments[..i]))
    {
      var seg := segments[i];
      var text := seg.text;
      if seg.speakerId > 0 {
        if !StartsWith(text, Tag(seg.speakerId)) {
          text := Tag(seg.speakerId) + " " + text;
        }
      }
      assert text == EncodeSpeakerTag(seg.speakerId, seg.text);
      BodiesSnoc(segments, i);
      var block := NatToString(i + 1) + "\n" + TimeLine(seg.start, seg.end) + "\n" + text;
      out := out + block + "\n\n";
    }
    assert segments[..|segments|] == segments;
  }

  /** Writing one more segment appends its block and a blank line. */
  lemma BodiesSnoc(segments: seq<Segment>, i: nat)
    requires i < |segments|
    ensures Concat(Bodies(segments[..i + 1]))
         == Concat(Bodies(segments[..i])) + BlockBody(i, segments[i]) + "\n\n"
  {
    var b := Bodies(segments[..i + 1]);
    assert b[..i] == Bodies(segments[..i]);
    assert b[i] == BlockBody(i, segments[i]);
  }

  lemma {:induction false} ConcatIsJoin(bs: seq<string>)
    requires |bs| >= 1
    ensures Concat(bs) == Join(bs, "\n\n") + "\n\n"
    decreases |bs|
  {
    if |bs| > 1 {
      var init := bs[..|bs| - 1];
      ConcatIsJoin(init);
      JoinSnoc(init, bs[|bs| - 1], "\n\n");
      assert init + [bs[|bs| - 1]] == bs;
    }
  }

  lemma {:induction false} JoinSnoc(xs: seq<string>, x: string, sep: string)
    requires |xs| >= 1
    ensures Join(xs + [x], sep) == Join(xs, sep) + sep + x
    decreases |xs|
  {
    if |xs| > 1 {
      assert (xs + [x])[1..] == xs[1..] + [x];
      JoinSnoc(xs[1..], x, sep);
    } else {
      assert xs + [x] == [xs[0], x];
    }
  }

  // ---------------------------------------------------------------------
  // write then parse

  /** A segment the writer and the parser agree on. */
  predicate Writable(seg: Segment)
  {
    && seg.start < TwoDigitHourLimit && seg.end < TwoDigitHourLimit
    && seg.speakerId >= 0
    && |seg.text| > 0 && IsStripped(seg.text) && Untagged(seg.text)
    && RemoveMarkup(seg.text) != ""
  }

  /** What the parser reads back: the writer's numbering, everything else unchanged. */
  function Renumbered(segments: seq<Segment>): (r: seq<Segment>)
    ensures |r| == |segments|
    ensures forall i :: 0 <= i < |r| ==> r[i] == segments[i].(index := NatToString(i + 1))
  {
    seq(|segments|, i requires 0 <= i < |segments| => segments[i].(index := NatToString(i + 1)))
  }

  lemma DigitsNoNewline(d: string)
    requires AllDigits(d)
    ensures '\n' !in d
  {
    assert forall k :: 0 <= k < |d| ==> IsDigit(d[k]);
  }

  lemma TimestampNoNewline(s: string)
    requires |s| == 12 && TimestampAt(s, 0)
    ensures '\n' !in s
  {
    assert s == [s[0], s[1], s[2], s[3], s[4], s[5], s[6], s[7], s[8], s[9], s[10], s[11]];
  }

  /** The written text: non-empty, stripped and on one line, tagged or not. */
  lemma EncodedShape(id: nat, text: string)
    requires |text| > 0 && IsStripped(text) && '\n' !in text
    ensures var enc := EncodeSpeakerTag(id, text); |enc| > 0 && IsStripped(enc) && '\n' !in enc
  {
    var enc := EncodeSpeakerTag(id, text);
    if enc != text {
      var d := NatToString(id);
      DigitsNoNewline(d);
      assert enc == ("[S" + d + "] ") + text;
      assert enc[|enc| - 1] == text[|text| - 1];
    }
  }

  /** Three single lines, the first of digits and the last stripped, form a well-formed block that splits back into them. */
  lemma ThreeLineBlock(idx: string, range: string, enc: string)
    requires |idx| > 0 && AllDigits(idx)
    requires |range| > 0 && IsDigit(range[0]) && '\n' !in range
    requires |enc| > 0 && IsStripped(enc) && '\n' !in enc
    ensures WellFormedBlock(idx + "\n" + range + "\n" + enc)
    ensures Split(idx + "\n" + range + "\n" + enc, '\n') == [idx, range, enc]
  {
    DigitsNoNewline(idx);
    ThreeLineSolid(idx, range, enc);
    JoinThree(idx, range, enc, "\n");
    SplitJoin([idx, range, enc], '\n');
  }

  lemma ThreeLineSolid(idx: string, range: string, enc: string)
    requires |idx| > 0 && !IsSpace(idx[0]) && '\n' !in idx
    requires |range| > 0 && !IsSpace(range[0]) && '\n' !in range
    requires |enc| > 0 && IsStripped(enc) && '\n' !in enc
    ensures WellFormedBlock(idx + "\n" + range + "\n" + enc)
  {
    assert Solid(enc) by {
      assert forall j :: 0 <= j < |enc| ==> enc[j] in enc;
    }
    SolidAfterLine(range, enc);
    SolidAfterLine(idx, range + "\n" + enc);
    var b := idx + "\n" + range + "\n" + enc;
    assert b == idx + "\n" + (range + "\n" + enc);
    assert b[0] == idx[0];
    assert b[|b| - 1] == enc[|enc| - 1];
  }

  lemma JoinThree(a: string, b: string, c: string, sep: string)
    ensures Join([a, b, c], sep) == a + sep + b + sep + c
  {
    assert [a, b, c][1..] == [b, c];
    assert [b, c][1..] == [c];
    assert Join([b, c], sep) == b + sep + c;
    assert a + sep + (b + sep + c) == a + sep + b + sep + c;
  }

  /** The time range line of a writable segment: one line, starting with a digit, matching the range pattern. */
  lemma RangeLineShape(a: nat, b: nat)
    requires a < TwoDigitHourLimit && b < TwoDigitHourLimit
    ensures var l := TimeLine(a, b);
      '\n' !in l && |l| > 0 && IsDigit(l[0]) && TimeRangeAt(l, 0) == Some((FormatTime(a), FormatTime(b)))
  {
    TimestampPair(FormatTime(a), FormatTime(b));
    RangeLineMatches(a, b);
  }

  lemma TimestampPair(fa: string, fb: string)
    requires |fa| == 12 && TimestampAt(fa, 0) && |fb| == 12 && TimestampAt(fb, 0)
    ensures var l := fa + " --> " + fb; '\n' !in l && |l| > 0 && IsDigit(l[0])
  {
    TimestampNoNewline(fa);
    TimestampNoNewline(fb);
    var l := fa + " --> " + fb;
    assert l[0] == fa[0];
    assert l == fa + (" --> " + fb);
  }

  /** A written block of a writable segment is one the blank-line split keeps whole. */
  lemma BodyWellFormed(k: nat, seg: Segment)
    requires Writable(seg)
    ensures WellFormedBlock(BlockBody(k, seg))
    ensures Split(BlockBody(k, seg), '\n')
      == [NatToString(k + 1), TimeLine(seg.start, seg.end), EncodeSpeakerTag(seg.speakerId, seg.text)]
  {
    RangeLineShape(seg.start, seg.end);
    EncodedShape(seg.speakerId, seg.text);
    ThreeLineBlock(NatToString(k + 1), TimeLine(seg.start, seg.end), EncodeSpeakerTag(seg.speakerId, seg.text));
  }

  /** A written block of a writable segment parses back to the segment, numbered `k + 1`. */
  lemma ParseBody(k: nat, seg: Segment)
    requires Writable(seg)
    ensures ParseBlock(BlockBody(k, seg)) == Some(seg.(index := NatToString(k + 1)))
  {
    var enc := EncodeSpeakerTag(seg.speakerId, seg.text);
    BodyWellFormed(k, seg);
    RangeLineShape(seg.start, seg.end);
    EncodedShape(seg.speakerId, seg.text);
    DecodeEncode(seg.speakerId, seg.text);
    ParseThreeLines(BlockBody(k, seg), NatToString(k + 1), TimeLine(seg.start, seg.end), enc,
      FormatTime(seg.start), FormatTime(seg.end));
    RoundTrip(seg.start);
    RoundTrip(seg.end);
  }

  /** How a stripped block of exactly three lines is parsed. */
  lemma ParseThreeLines(b: string, idx: string, line: string, enc: string, fa: string, fb: string)
    requires IsStripped(b) && Split(b, '\n') == [idx, line, enc]
    requires TimeRangeAt(line, 0) == Some((fa, fb)) && IsStripped(enc)
    requires RemoveMarkup(DecodeSpeakerTag(enc).1) != ""
    ensures ParseBlock(b)
      == Some(Segment(idx, ParseTime(fa), ParseTime(fb), DecodeSpeakerTag(enc).1, DecodeSpeakerTag(enc).0))
  {
    assert Strip(b) == b;
    ParseThree(idx, line, enc, fa, fb);
  }

  lemma ParseThree(idx: string, line: string, enc: string, fa: string, fb: string)
    requires TimeRangeAt(line, 0) == Some((fa, fb)) && IsStripped(enc)
    requires RemoveMarkup(DecodeSpeakerTag(enc).1) != ""
    ensures ParseLines([idx, line, enc])
      == Some(Segment(idx, ParseTime(fa), ParseTime(fb), DecodeSpeakerTag(enc).1, DecodeSpeakerTag(enc).0))
  {
    TextOfThree(idx, line, enc);
  }

  /** The text field of a three-line block is its stripped last line. */
  lemma TextOfThree(idx: string, line: string, enc: string)
    requires IsStripped(enc)
    ensures Strip(Join([idx, line, enc][2..], " ")) == enc
  {
    assert [idx, line, enc][2..] == [enc];
    assert Join([enc], " ") == enc;
  }

  /**
   * Writing then parsing gives back every segment's start, end, text and
   * speaker, in order; only the index is renumbered 1..N.
   */
  lemma WriteThenParse(segments: seq<Segment>)
    requires forall i :: 0 <= i < |segments| ==> Writable(segments[i])
    ensures ParseDocument(Concat(Bodies(segments))) == Renumbered(segments)
  {
    var bs := Bodies(segments);
    if |segments| == 0 {
      ParseEmpty();
    } else {
      BodiesParse(segments);
      ParseConcat(bs);
      FilterMapExact(ParseBlock, bs, Renumbered(segments));
    }
  }

  lemma BodiesParse(segments: seq<Segment>)
    requires forall i :: 0 <= i < |segments| ==> Writable(segments[i])
    ensures forall i :: 0 <= i < |segments| ==> WellFormedBlock(Bodies(segments)[i])
    ensures forall i :: 0 <= i < |segments| ==> ParseBlock(Bodies(segments)[i]) == Some(Renumbered(segments)[i])
  {
    forall i | 0 <= i < |segments|
      ensures WellFormedBlock(Bodies(segments)[i])
      ensures ParseBlock(Bodies(segments)[i]) == Some(Renumbered(segments)[i])
    {
      BodyWellFormed(i, segments[i]);
      ParseBody(i, segments[i]);
    }
  }

  /** An empty file holds no subtitle. */
  lemma ParseEmpty()
    ensures ParseDocument("") == []
  {
    EmptySplits();
    EmptyBlockSkipped();
    assert [""][..0] == [];
  }

  lemma EmptySplits()
    ensures RegexSplit(NewlineRun, Strip("")) == [""]
  {
    assert Strip("") == "";
  }

  lemma EmptyBlockSkipped()
    ensures ParseBlock("").None?
  {
    assert Strip("") == "";
    assert Split("", '\n') == [""];
  }

  /** Blocks each written with a blank line after them are split back into exactly those blocks. */
  lemma ParseConcat(bs: seq<string>)
    requires |bs| >= 1
    requires forall i :: 0 <= i < |bs| ==> WellFormedBlock(bs[i])
    ensures ParseDocument(Concat(bs)) == FilterMap(ParseBlock, bs)
  {
    SplitWritten(NewlineRun, bs);
  }

  /** Splitting a written file at its blank lines gives back exactly the written blocks. */
  lemma SplitWritten(p: Separator, bs: seq<string>)
    requires |bs| >= 1
    requires forall i :: 0 <= i < |bs| ==> WellFormedBlock(bs[i])
    ensures RegexSplit(p, Strip(Concat(bs))) == bs
  {
    ConcatIsJoin(bs);
    StripWritten(bs);
    SplitJoined(p, bs);
  }
}
