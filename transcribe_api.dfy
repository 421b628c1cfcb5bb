/**
 * Transcription through the hosted recogniser: the hallucination filter,
 * the ten-minute chunk schedule with its time offsets, and the SRT file
 * written from the collected segments. The recogniser itself is a
 * parameter: a function from a chunk's start and length to the segments it
 * returns.
 */
module TranscribeApi {
  import opened Wrappers
  import opened Text
  import opened Seqs
  import opened Timecode
  import SrtUtils

  // ---------------------------------------------------------------------
  // Hallucination filter

  /** Phrases the recogniser typically invents over silence or music. */
  const HallucinationPatterns: seq<string> := [
    "ご視聴ありがとうございました",
    "チャンネル登録",
    "いいねボタン",
    "thanks for watching",
    "please subscribe",
    "like and subscribe",
    "merci d'avoir regardé",
    "abonnez-vous"
  ]

  /** Whether some pattern, lower-cased, occurs in `t` (the loop over the patterns). */
  function MatchesPattern(t: string, patterns: seq<string>): (r: bool)
    ensures r <==> exists k :: 0 <= k < |patterns| && Contains(t, Lower(patterns[k]))
    decreases |patterns|
  {
    if |patterns| == 0 then false
    else
      assert forall k :: 1 <= k < |patterns| ==> patterns[k] == patterns[1..][k - 1];
      Contains(t, Lower(patterns[0])) || MatchesPattern(t, patterns[1..])
  }

  /** The positions of the texts that equal `text` once both are stripped. */
  function Repeats(texts: seq<string>, text: string): set<nat>
  {
    set i: nat | i < |texts| && Strip(texts[i]) == Strip(text)
  }

  /** `sum(1 for t in all_texts if t.strip() == text.strip())`: how many positions repeat the text. */
  function CountRepeats(texts: seq<string>, text: string): (r: nat)
    ensures r == |Repeats(texts, text)|
    decreases |texts|
  {
    if |texts| == 0 then
      assert Repeats(texts, text) == {};
      0
    else
      var init := texts[..|texts| - 1];
      var last := |texts| - 1;
      assert Repeats(texts, text) == Repeats(init, text) + (if Strip(texts[last]) == Strip(text) then {last} else {});
      CountRepeats(init, text) + (if Strip(texts[last]) == Strip(text) then 1 else 0)
  }

  /**
   * `is_hallucination`: the lower-cased, stripped text is shorter than three
   * characters, or contains a listed phrase, or occurs more than twice
   * among all the texts.
   */
  function IsHallucination(text: string, allTexts: seq<string>): bool
  {
    var t := Strip(Lower(text));
    if |t| < 3 then true
    else if MatchesPattern(t, HallucinationPatterns) then true
    else CountRepeats(allTexts, text) > 2
  }

  /**
   * A text is a hallucination exactly when it is too short, holds a listed
   * phrase, or is repeated more than twice.
   */
  lemma HallucinationCases(text: string, allTexts: seq<string>)
    ensures IsHallucination(text, allTexts) <==>
      || |Strip(Lower(text))| < 3
      || (exists k :: 0 <= k < |HallucinationPatterns| && Contains(Strip(Lower(text)), Lower(HallucinationPatterns[k])))
      || |Repeats(allTexts, text)| > 2
  {
    var t := Strip(Lower(text));
    assert MatchesPattern(t, HallucinationPatterns) <==>
      exists k :: 0 <= k < |HallucinationPatterns| && Contains(t, Lower(HallucinationPatterns[k]));
    assert CountRepeats(allTexts, text) == |Repeats(allTexts, text)|;
  }

  /** Three positions holding the same stripped text make it a hallucination. */
  lemma ThreeRepeatsFiltered(text: string, allTexts: seq<string>, i: nat, j: nat, k: nat)
    requires i < j < k < |allTexts|
    requires Strip(allTexts[i]) == Strip(text) && Strip(allTexts[j]) == Strip(text) && Strip(allTexts[k]) == Strip(text)
    ensures IsHallucination(text, allTexts)
  {
    ThreeMembers(Repeats(allTexts, text), i, j, k);
    HallucinationCases(text, allTexts);
  }

  /** A set holding three different numbers has more than two elements. */
  lemma ThreeMembers(s: set<nat>, i: nat, j: nat, k: nat)
    requires i < j < k && i in s && j in s && k in s
    ensures |s| > 2
  {
    var three := {i, j, k};
    assert |three| == 3;
    assert s == three + (s - three);
  }

  // ---------------------------------------------------------------------
  // Chunk schedule

  /** Ten minutes, the length of a chunk, in milliseconds. */
  const ChunkMs: nat := 600000

  /** One second: a shorter chunk is not sent. */
  const MinChunkMs: nat := 1000

  /** A piece of the audio: its start and length in milliseconds. */
  datatype Chunk = Chunk(start: nat, length: nat)

  /** Chunk `i` of a long file: ten minutes from `i` times ten minutes, or what remains. */
  function ChunkAt(i: nat, durationMs: nat): Chunk
  {
    var start := ChunkMs * i;
    Chunk(start, if durationMs - start < ChunkMs then (if durationMs < start then 0 else durationMs - start) else ChunkMs)
  }

  /** The chunks among the first `n` that are at least a second long, in order. */
  function ChunksBelow(n: nat, durationMs: nat): seq<Chunk>
    decreases n
  {
    if n == 0 then []
    else
      var c := ChunkAt(n - 1, durationMs);
      ChunksBelow(n - 1, durationMs) + (if c.length < MinChunkMs then [] else [c])
  }

  /** The number of chunks considered for a file longer than a chunk: `int(duration // 600) + 1`. */
  function ChunkCount(durationMs: nat): nat
  {
    durationMs / ChunkMs + 1
  }

  /**
   * The chunks of a long file are the full ten-minute chunks from 0 on, then
   * the remainder when it reaches a second: contiguous, starting at 0, and
   * covering the whole file but for a final piece shorter than a second.
   */
  lemma {:induction false} ScheduleShape(durationMs: nat)
    requires durationMs > ChunkMs
    ensures var cs := ChunksBelow(ChunkCount(durationMs), durationMs);
      var full := durationMs / ChunkMs;
      && |cs| == full + (if durationMs % ChunkMs < MinChunkMs then 0 else 1)
      && (forall k :: 0 <= k < |cs| ==> cs[k].start == ChunkMs * k)
      && (forall k :: 0 <= k < full ==> cs[k].length == ChunkMs)
      && (|cs| > full ==> cs[full].length == durationMs % ChunkMs)
      && cs[|cs| - 1].start + cs[|cs| - 1].length <= durationMs
      && durationMs - (cs[|cs| - 1].start + cs[|cs| - 1].length) < MinChunkMs
  {
    var full := durationMs / ChunkMs;
    FullChunks(full, durationMs);
    var c := ChunkAt(full, durationMs);
    assert c.length == durationMs % ChunkMs;
  }

  /** The first `n` chunks of a file at least `n` chunks long are full and all kept. */
  lemma {:induction false} FullChunks(n: nat, durationMs: nat)
    requires ChunkMs * n <= durationMs
    ensures var cs := ChunksBelow(n, durationMs);
      |cs| == n && forall k :: 0 <= k < n ==> cs[k] == Chunk(ChunkMs * k, ChunkMs)
    decreases n
  {
    if n > 0 {
      FullChunks(n - 1, durationMs);
    }
  }

  // ---------------------------------------------------------------------
  // Collecting the segments

  /** A segment as the recogniser returns it: each key may be missing; times in milliseconds. */
  datatype ApiSegment = ApiSegment(start: Option<nat>, end: Option<nat>, text: Option<string>)

  function StartOf(seg: ApiSegment): nat
  {
    if seg.start.Some? then seg.start.value else 0
  }

  function EndOf(seg: ApiSegment): nat
  {
    if seg.end.Some? then seg.end.value else 0
  }

  function RawText(seg: ApiSegment): string
  {
    if seg.text.Some? then seg.text.value else ""
  }

  /** A chunk's segment moved to the file's time line, with the missing keys filled in. */
  function Shift(seg: ApiSegment, offset: nat): (r: ApiSegment)
    ensures StartOf(r) == StartOf(seg) + offset && EndOf(r) == EndOf(seg) + offset && RawText(r) == RawText(seg)
  {
    ApiSegment(Some(StartOf(seg) + offset), Some(EndOf(seg) + offset), Some(RawText(seg)))
  }

  function ShiftAll(segs: seq<ApiSegment>, offset: nat): (r: seq<ApiSegment>)
    ensures |r| == |segs|
    ensures forall i :: 0 <= i < |r| ==> r[i] == Shift(segs[i], offset)
  {
    seq(|segs|, i requires 0 <= i < |segs| => Shift(segs[i], offset))
  }

  /** The segments of the chunks, each chunk's shifted by its start, in chunk order. */
  function Shifted(chunks: seq<Chunk>, transcribe: (nat, nat) -> seq<ApiSegment>): seq<ApiSegment>
    decreases |chunks|
  {
    if |chunks| == 0 then []
    else
      var c := chunks[|chunks| - 1];
      Shifted(chunks[..|chunks| - 1], transcribe) + ShiftAll(transcribe(c.start, c.length), c.start)
  }

  /**
   * The segments of a whole file: a file no longer than a chunk is sent
   * whole and its segments kept as returned; a longer one is sent chunk by
   * chunk.
   */
  function Collected(durationMs: nat, transcribe: (nat, nat) -> seq<ApiSegment>): seq<ApiSegment>
  {
    if durationMs <= ChunkMs then transcribe(0, durationMs)
    else Shifted(ChunksBelow(ChunkCount(durationMs), durationMs), transcribe)
  }

  /** The chunking and offset loop of `transcribe_with_api`. */
  method CollectSegments(durationMs: nat, transcribe: (nat, nat) -> seq<ApiSegment>)
    returns (all: seq<ApiSegment>)
    ensures all == Collected(durationMs, transcribe)
  {
    if durationMs <= ChunkMs {
      all := transcribe(0, durationMs);
      return;
    }
    all := [];
    var numChunks := durationMs / ChunkMs + 1;
    ghost var chunks: seq<Chunk> := [];
    for i := 0 to numChunks
      invariant chunks == ChunksBelow(i, durationMs)
      invariant all == Shifted(chunks, transcribe)
    {
      var chunkStart := ChunkMs * i;
      var chunkLength := if durationMs - chunkStart < ChunkMs then durationMs - chunkStart else ChunkMs;
      assert chunkStart <= durationMs;
      assert Chunk(chunkStart, chunkLength) == ChunkAt(i, durationMs);
      if chunkLength < MinChunkMs {
        continue;
      }
      var segs := transcribe(chunkStart, chunkLength);
      for j := 0 to |segs|
        invariant all == Shifted(chunks, transcribe) + ShiftAll(segs[..j], chunkStart)
      {
        var seg := segs[j];
        all := all + [ApiSegment(Some(StartOf(seg) + chunkStart), Some(EndOf(seg) + chunkStart), Some(RawText(seg)))];
        assert ShiftAll(segs[..j + 1], chunkStart) == ShiftAll(segs[..j], chunkStart) + [Shift(seg, chunkStart)];
      }
      assert segs[..|segs|] == segs;
      var c := Chunk(chunkStart, chunkLength);
      assert (chunks + [c])[..|chunks|] == chunks;
      chunks := chunks + [c];
    }
  }

  // ---------------------------------------------------------------------
  // Writing the SRT file

  /** A segment's text as the writer uses it: stripped, empty when missing. */
  function TextOf(seg: ApiSegment): string
  {
    Strip(RawText(seg))
  }

  /** `all_texts`: every segment's stripped text, in order. */
  function AllTexts(segs: seq<ApiSegment>): (r: seq<string>)
    ensures |r| == |segs|
    ensures forall i :: 0 <= i < |r| ==> r[i] == TextOf(segs[i])
  {
    seq(|segs|, i requires 0 <= i < |segs| => TextOf(segs[i]))
  }

  /** Whether a segment is written: its text is not a hallucination among `allTexts`. */
  function Keep(allTexts: seq<string>): ApiSegment -> bool
  {
    (seg: ApiSegment) => !IsHallucination(TextOf(seg), allTexts)
  }

  /** The segments written, in order. */
  function KeptSegments(segs: seq<ApiSegment>, allTexts: seq<string>): seq<ApiSegment>
  {
    Filter(Keep(allTexts), segs)
  }

  /** The block written for the `k`-th kept segment (numbered `k + 1`), without its blank line. */
  function TranscriptBody(k: nat, seg: ApiSegment): string
  {
    NatToString(k + 1) + "\n" + FormatTime(StartOf(seg)) + " --> " + FormatTime(EndOf(seg)) + "\n" + TextOf(seg)
  }

  /** The blocks of the kept segments, numbered in order. */
  function TranscriptBodies(kept: seq<ApiSegment>): (r: seq<string>)
    ensures |r| == |kept|
  {
    seq(|kept|, i requires 0 <= i < |kept| => TranscriptBody(i, kept[i]))
  }

  /**
   * The SRT part of `transcribe_with_api`: the stripped texts of all the
   * segments are collected first, then the segments whose text is not a
   * hallucination among them are written numbered from 1 with no gap; the
   * counts of written and filtered segments add up to the number of segments.
   */
  method WriteTranscript(segs: seq<ApiSegment>) returns (out: string, valid: nat, hallucinations: nat)
    ensures out == SrtUtils.Concat(TranscriptBodies(KeptSegments(segs, AllTexts(segs))))
    ensures valid == |KeptSegments(segs, AllTexts(segs))|
    ensures valid + hallucinations == |segs|
  {
    var allTexts := seq(|segs|, i requires 0 <= i < |segs| => Strip(RawText(segs[i])));
    assert allTexts == AllTexts(segs);
    out, valid, hallucinations := WriteKept(segs, Keep(allTexts));
  }

  /** The loop writing the segments `keep` accepts and counting the others. */
  method WriteKept(segs: seq<ApiSegment>, keep: ApiSegment -> bool) returns (out: string, valid: nat, hallucinations: nat)
    ensures out == SrtUtils.Concat(TranscriptBodies(Filter(keep, segs)))
    ensures valid == |Filter(keep, segs)|
    ensures valid + hallucinations == |segs|
  {
    out := "";
    valid := 0;
    hallucinations := 0;
    var index := 1;
    ghost var kept: seq<ApiSegment> := [];
    for i := 0 to |segs|
      invariant kept == Filter(keep, segs[..i])
      invariant index == valid + 1 && valid == |kept|
      invariant valid + hallucinations == i
      invariant out == SrtUtils.Concat(TranscriptBodies(kept))
    {
      var segment := segs[i];
      TakeSnoc(segs, i);
      FilterSnoc(keep, segs[..i], segment);
      if !keep(segment) {
        assert kept + [] == kept;
        hallucinations := hallucinations + 1;
        continue;
      }
      out := AppendBlock(out, index, segment, kept);
      kept := kept + [segment];
      index := index + 1;
      valid := valid + 1;
    }
    assert segs[..|segs|] == segs;
  }

  /**
   * The three writes of one kept segment: its number, its time range, then
   * its text and a blank line; the file so far gains that segment's block.
   */
  method AppendBlock(out: string, index: nat, segment: ApiSegment, ghost kept: seq<ApiSegment>) returns (r: string)
    requires index == |kept| + 1
    requires out == SrtUtils.Concat(TranscriptBodies(kept))
    ensures r == SrtUtils.Concat(TranscriptBodies(kept + [segment]))
  {
    var start := StartOf(segment);
    var end := EndOf(segment);
    var text := Strip(RawText(segment));
    var block := NatToString(index) + "\n" + FormatTime(start) + " --> " + FormatTime(end) + "\n" + text;
    r := out + block + "\n\n";
    BodiesSnoc(kept, segment);
  }

  /** One more kept segment adds its block and a blank line at the end. */
  lemma BodiesSnoc(kept: seq<ApiSegment>, segment: ApiSegment)
    ensures SrtUtils.Concat(TranscriptBodies(kept + [segment]))
            == SrtUtils.Concat(TranscriptBodies(kept)) + TranscriptBody(|kept|, segment) + "\n\n"
  {
    var bs := TranscriptBodies(kept + [segment]);
    assert bs[..|kept|] == TranscriptBodies(kept);
  }

  /**
   * Every written segment is one of the segments, its lower-cased text has
   * at least three characters and no listed phrase, and its text occurs at
   * most twice among all the texts; so a text repeated three times or more
   * is never written.
   */
  lemma KeptSegmentsClean(segs: seq<ApiSegment>, seg: ApiSegment)
    requires seg in KeptSegments(segs, AllTexts(segs))
    ensures seg in segs
    ensures |Strip(Lower(TextOf(seg)))| >= 3
    ensures forall k :: 0 <= k < |HallucinationPatterns| ==> !Contains(Strip(Lower(TextOf(seg))), Lower(HallucinationPatterns[k]))
    ensures |Repeats(AllTexts(segs), TextOf(seg))| <= 2
  {
    FilterMembers(Keep(AllTexts(segs)), segs, seg);
    HallucinationCases(TextOf(seg), AllTexts(segs));
  }

  /** A segment as the shared SRT writer sees it: no index yet, speaker 0. */
  function AsSrt(seg: ApiSegment): SrtUtils.Segment
  {
    SrtUtils.Segment("", StartOf(seg), EndOf(seg), TextOf(seg), 0)
  }

  function AsSrtAll(kept: seq<ApiSegment>): (r: seq<SrtUtils.Segment>)
    ensures |r| == |kept|
    ensures forall i :: 0 <= i < |r| ==> r[i] == AsSrt(kept[i])
  {
    seq(|kept|, i requires 0 <= i < |kept| => AsSrt(kept[i]))
  }

  /**
   * The transcript is what the shared SRT writer writes for the kept
   * segments with speaker 0; so, when their times fit two-digit hours and
   * their texts are single non-blank lines, the shared parser reads back
   * every kept segment's times and text, numbered from 1.
   */
  lemma TranscriptParses(kept: seq<ApiSegment>)
    requires forall i :: 0 <= i < |kept| ==> SrtUtils.Writable(AsSrt(kept[i]))
    ensures TranscriptBodies(kept) == SrtUtils.Bodies(AsSrtAll(kept))
    ensures SrtUtils.ParseDocument(SrtUtils.Concat(TranscriptBodies(kept))) == SrtUtils.Renumbered(AsSrtAll(kept))
  {
    var srt := AsSrtAll(kept);
    forall i | 0 <= i < |kept|
      ensures TranscriptBodies(kept)[i] == SrtUtils.Bodies(srt)[i]
    {
      BodyAsSrt(i, kept[i]);
    }
    assert TranscriptBodies(kept) == SrtUtils.Bodies(srt);
    SrtUtils.WriteThenParse(srt);
  }

  /** One block of the transcript is the shared writer's block for speaker 0. */
  lemma BodyAsSrt(k: nat, seg: ApiSegment)
    ensures TranscriptBody(k, seg) == SrtUtils.BlockBody(k, AsSrt(seg))
  {
    var fa, fb := FormatTime(StartOf(seg)), FormatTime(EndOf(seg));
    RangeGrouping(NatToString(k + 1), fa, fb, TextOf(seg));
    assert TimeLine(StartOf(seg), EndOf(seg)) == fa + " --> " + fb;
    assert SrtUtils.EncodeSpeakerTag(0, TextOf(seg)) == TextOf(seg);
  }

  /** The writes of a block group as the shared writer's lines. */
  lemma RangeGrouping(n: string, fa: string, fb: string, t: string)
    ensures n + "\n" + fa + " --> " + fb + "\n" + t == n + "\n" + (fa + " --> " + fb) + "\n" + t
  {
  }
}
