/**
 * The dubbing generator: its own SRT parser, and the assembly of the
 * synthesised clips into one timed, peak-normalised sample buffer.
 */
module Generate {
  import opened Wrappers
  import opened Text
  import opened Timecode
  import opened Blocks
  import opened Seqs
  import SrtUtils

  /** The languages the speech synthesiser accepts: code and the name passed to it. */
  const TtsLanguages: seq<(string, string)> := [
    ("fr", "French"), ("en", "English"), ("ja", "Japanese"), ("zh", "Chinese"), ("ko", "Korean"),
    ("de", "German"), ("es", "Spanish"), ("it", "Italian"), ("pt", "Portuguese"), ("ru", "Russian")
  ]

  // ---------------------------------------------------------------------
  // Python's int() on a string

  /** The characters of `u` other than underscores. */
  function DropUnderscores(u: string): (r: string)
    ensures |r| <= |u|
    ensures '_' !in u ==> r == u
    decreases |u|
  {
    if |u| == 0 then ""
    else (if u[0] == '_' then "" else [u[0]]) + DropUnderscores(u[1..])
  }

  /** Decimal digits in groups separated by single underscores, as `int()` accepts them. */
  predicate DigitGroups(u: string)
  {
    && |u| > 0 && IsDigit(u[0]) && IsDigit(u[|u| - 1])
    && (forall k :: 0 <= k < |u| ==> IsDigit(u[k]) || u[k] == '_')
    && (forall k :: 0 <= k < |u| - 1 && u[k] == '_' ==> IsDigit(u[k + 1]))
  }

  lemma {:induction false} GroupsDigits(u: string)
    requires forall k :: 0 <= k < |u| ==> IsDigit(u[k]) || u[k] == '_'
    ensures AllDigits(DropUnderscores(u))
    decreases |u|
  {
    if |u| > 0 {
      GroupsDigits(u[1..]);
    }
  }

  /** The value of unsigned digit groups, or None when `u` is not one. */
  function Unsigned(u: string): (r: Option<nat>)
  {
    if DigitGroups(u) then
      GroupsDigits(u);
      Some(DigitsValue(DropUnderscores(u)))
    else None
  }

  /** `int(s)` in base 10: surrounding whitespace, an optional sign, digit groups; None where it raises. */
  function PyInt(s: string): Option<int>
  {
    SignedValue(Strip(s))
  }

  /** An optional sign and digit groups, or None. */
  function SignedValue(t: string): Option<int>
  {
    if |t| > 0 && (t[0] == '-' || t[0] == '+') then
      match Unsigned(t[1..])
      case Some(n) =>
        var v: int := if t[0] == '-' then -(n as int) else n;
        Some(v)
      case None => None
    else
      match Unsigned(t)
      case Some(n) => Some(n)
      case None => None
  }

  /** `int(str(n)) == n`. */
  lemma PyIntOfString(n: int)
    ensures PyInt(IntToString(n)) == Some(n)
  {
    if n >= 0 {
      PyIntOfDigits(NatToString(n));
    } else {
      var d := NatToString(-n);
      var s := "-" + d;
      assert IntToString(n) == s;
      NegativeStripped(d);
      UnsignedOfDigits(d);
      MinusSign(d, DigitsValue(d));
    }
  }

  lemma NegativeStripped(d: string)
    requires |d| >= 1 && AllDigits(d)
    ensures IsStripped("-" + d)
  {
    var s := "-" + d;
    assert s[0] == '-' && s[|s| - 1] == d[|d| - 1] && IsDigit(d[|d| - 1]);
  }

  /** A minus sign negates the value of the digit groups after it. */
  lemma MinusSign(u: string, n: nat)
    requires Unsigned(u) == Some(n)
    ensures SignedValue("-" + u) == Some(-(n as int))
  {
    assert ("-" + u)[1..] == u;
  }

  lemma PyIntOfDigits(d: string)
    requires |d| >= 1 && AllDigits(d)
    ensures PyInt(d) == Some(DigitsValue(d))
  {
    assert IsDigit(d[0]) && IsDigit(d[|d| - 1]);
    assert IsStripped(d);
    UnsignedOfDigits(d);
    NoSign(d, DigitsValue(d));
  }

  /** Without a sign, the value is that of the digit groups. */
  lemma NoSign(t: string, n: nat)
    requires |t| >= 1 && IsDigit(t[0]) && Unsigned(t) == Some(n)
    ensures SignedValue(t) == Some(n)
  {
  }

  lemma UnsignedOfDigits(d: string)
    requires |d| >= 1 && AllDigits(d)
    ensures Unsigned(d) == Some(DigitsValue(d))
  {
    assert '_' !in d by {
      assert forall k :: 0 <= k < |d| ==> IsDigit(d[k]);
    }
  }

  // ---------------------------------------------------------------------
  // parse_srt

  /** One subtitle as the generator reads it; the text keeps any tag or markup. */
  datatype SubtitleSegment = SubtitleSegment(index: int, start: nat, end: nat, text: string)

  /**
   * One block: at least three lines after stripping, an integer first line
   * (a block whose first line is not one is skipped), a time range at the
   * start of the second line, and non-empty space-joined text.
   */
  function ParseBlock(block: string): (r: Option<SubtitleSegment>)
    ensures var lines := Split(Strip(block), '\n');
      r.Some? <==> (&& |lines| >= 3 && PyInt(lines[0]).Some? && TimeRangeAt(lines[1], 0).Some?
                    && Strip(Join(lines[2..], " ")) != "")
    ensures var lines := Split(Strip(block), '\n');
      r.Some? ==> && r.value.index == PyInt(lines[0]).value
                  && r.value.start == ParseTime(TimeRangeAt(lines[1], 0).value.0)
                  && r.value.end == ParseTime(TimeRangeAt(lines[1], 0).value.1)
                  && r.value.text == Strip(Join(lines[2..], " "))
  {
    var lines := Split(Strip(block), '\n');
    if |lines| < 3 then None
    else
      match PyInt(lines[0])
      case None => None
      case Some(index) =>
        match TimeRangeAt(lines[1], 0)
        case None => None
        case Some(range) =>
          var text := Strip(Join(lines[2..], " "));
          if text == "" then None
          else Some(SubtitleSegment(index, ParseTime(range.0), ParseTime(range.1), text))
  }

  /** `parse_srt` over the file's content. */
  function ParseDocument(content: string): seq<SubtitleSegment>
  {
    FilterMap(ParseBlock, RegexSplit(NewlineRun, Strip(content)))
  }

  method ParseSrt(content: string) returns (segments: seq<SubtitleSegment>)
    ensures segments == ParseDocument(content)
  {
    var blocks := RegexSplit(NewlineRun, Strip(content));
    segments := [];
    for i := 0 to |blocks|
      invariant segments == FilterMap(ParseBlock, blocks[..i])
    {
      FilterMapSnoc(ParseBlock, blocks, i);
      match ParseBlock(blocks[i])
      case Some(seg) => segments := segments + [seg];
      case None =>
    }
    assert blocks[..|blocks|] == blocks;
  }

  /** What the generator reads from a written file: numbers 1..N and the text as written, tag included. */
  function AsRead(segments: seq<SrtUtils.Segment>): (r: seq<SubtitleSegment>)
    ensures |r| == |segments|
    ensures forall i :: 0 <= i < |r| ==> r[i] == SubtitleSegment(i + 1, segments[i].start, segments[i].end,
      SrtUtils.EncodeSpeakerTag(segments[i].speakerId, segments[i].text))
  {
    seq(|segments|, i requires 0 <= i < |segments| =>
      SubtitleSegment(i + 1, segments[i].start, segments[i].end,
        SrtUtils.EncodeSpeakerTag(segments[i].speakerId, segments[i].text)))
  }

  /**
   * The generator reads what the SRT writer writes: numbers 1..N, the same
   * times, and the written text with its speaker tag still in it.
   */
  lemma ReadsWrittenSrt(segments: seq<SrtUtils.Segment>)
    requires forall i :: 0 <= i < |segments| ==> SrtUtils.Writable(segments[i])
    ensures ParseDocument(SrtUtils.Concat(SrtUtils.Bodies(segments))) == AsRead(segments)
  {
    var bs := SrtUtils.Bodies(segments);
    if |segments| == 0 {
      NothingRead();
    } else {
      ReadsBodies(segments);
      SrtUtils.SplitWritten(NewlineRun, bs);
      FilterMapExact(ParseBlock, bs, AsRead(segments));
    }
  }

  /** An empty file holds no segment. */
  lemma NothingRead()
    ensures ParseDocument(SrtUtils.Concat([])) == []
  {
    SrtUtils.EmptySplits();
    EmptyBlockRead();
    assert [""][..0] == [];
  }

  lemma EmptyBlockRead()
    ensures ParseBlock("").None?
  {
    assert Strip("") == "";
    assert Split("", '\n') == [""];
  }

  lemma ReadsBodies(segments: seq<SrtUtils.Segment>)
    requires forall i :: 0 <= i < |segments| ==> SrtUtils.Writable(segments[i])
    ensures forall i :: 0 <= i < |segments| ==> WellFormedBlock(SrtUtils.Bodies(segments)[i])
    ensures forall i :: 0 <= i < |segments| ==> ParseBlock(SrtUtils.Bodies(segments)[i]) == Some(AsRead(segments)[i])
  {
    forall i | 0 <= i < |segments|
      ensures WellFormedBlock(SrtUtils.Bodies(segments)[i])
      ensures ParseBlock(SrtUtils.Bodies(segments)[i]) == Some(AsRead(segments)[i])
    {
      ReadsBody(i, segments[i]);
    }
  }

  lemma ReadsBody(k: nat, seg: SrtUtils.Segment)
    requires SrtUtils.Writable(seg)
    ensures WellFormedBlock(SrtUtils.BlockBody(k, seg))
    ensures ParseBlock(SrtUtils.BlockBody(k, seg))
      == Some(SubtitleSegment(k + 1, seg.start, seg.end, SrtUtils.EncodeSpeakerTag(seg.speakerId, seg.text)))
  {
    var enc := SrtUtils.EncodeSpeakerTag(seg.speakerId, seg.text);
    SrtUtils.BodyWellFormed(k, seg);
    SrtUtils.RangeLineShape(seg.start, seg.end);
    SrtUtils.EncodedShape(seg.speakerId, seg.text);
    PyIntOfDigits(NatToString(k + 1));
    ReadThreeLines(SrtUtils.BlockBody(k, seg), NatToString(k + 1), TimeLine(seg.start, seg.end), enc,
      FormatTime(seg.start), FormatTime(seg.end));
    RoundTrip(seg.start);
    RoundTrip(seg.end);
  }

  lemma ReadThreeLines(b: string, idx: string, line: string, text: string, fa: string, fb: string)
    requires IsStripped(b) && Split(b, '\n') == [idx, line, text]
    requires PyInt(idx).Some? && TimeRangeAt(line, 0) == Some((fa, fb)) && IsStripped(text) && text != ""
    ensures ParseBlock(b) == Some(SubtitleSegment(PyInt(idx).value, ParseTime(fa), ParseTime(fb), text))
  {
    assert Strip(b) == b;
    assert [idx, line, text][2..] == [text];
    assert Join([text], " ") == text;
  }

  // ---------------------------------------------------------------------
  // Synthesis

  /** A sample rate the synthesiser reports: always positive. */
  type Rate = r: nat | r > 0 witness 24000

  /** The rate in force until a synthesis has succeeded. */
  const DefaultRate: Rate := 24000

  /** What the speech synthesiser did for one segment: samples at a rate, or an exception. */
  datatype Synthesis = Rendered(samples: seq<real>, rate: Rate) | Failed

  /** A segment's audio with the segment's times. */
  datatype Clip = Clip(start: nat, end: nat, audio: seq<real>)

  /** Why a run stops without output. */
  datatype DubError = UnsupportedLanguage | NoSegments | NegativeSilence(position: nat)

  /** `int(x)` of the quotient `a / b`: truncation toward zero. */
  function TruncDiv(a: int, b: nat): int
    requires b > 0
  {
    if a >= 0 then a / b else -((-a) / b)
  }

  /** `n` samples of silence. */
  function Silence(n: nat): (r: seq<real>)
    ensures |r| == n && forall k :: 0 <= k < n ==> r[k] == 0.0
  {
    seq(n, _ => 0.0)
  }

  /** The sample rate after the given outcomes: the last successful synthesis's rate, or `d` when none succeeded. */
  function RateAfter(outcomes: seq<Synthesis>, d: Rate): Rate
    decreases |outcomes|
  {
    if |outcomes| == 0 then d
    else
      var last := outcomes[|outcomes| - 1];
      if last.Rendered? then last.rate
      else RateAfter(outcomes[..|outcomes| - 1], d)
  }

  /**
   * The rate is `d` when every synthesis failed, and otherwise the rate of
   * the last one that succeeded.
   */
  lemma {:induction false} RateIsLastRendered(outcomes: seq<Synthesis>, d: Rate)
    ensures (forall k :: 0 <= k < |outcomes| ==> outcomes[k].Failed?) ==> RateAfter(outcomes, d) == d
    ensures (exists k :: 0 <= k < |outcomes| && outcomes[k].Rendered?) ==>
      exists j :: 0 <= j < |outcomes| && outcomes[j].Rendered? && RateAfter(outcomes, d) == outcomes[j].rate
        && forall k :: j < k < |outcomes| ==> outcomes[k].Failed?
    decreases |outcomes|
  {
    if |outcomes| > 0 && outcomes[|outcomes| - 1].Failed? {
      var init := outcomes[..|outcomes| - 1];
      assert forall k :: 0 <= k < |init| ==> init[k] == outcomes[k];
      RateIsLastRendered(init, d);
    }
  }

  /** `int((end - start) * sample_rate)` with times in milliseconds. */
  function SpanSamples(start: nat, end: nat, rate: nat): int
  {
    TruncDiv((end - start) * rate, 1000)
  }

  /**
   * The clip for one segment: the synthesised samples, or, when synthesis
   * failed, silence as long as the segment at the current rate; None where
   * that length is negative, which makes `np.zeros` raise.
   */
  function ClipFor(seg: SubtitleSegment, outcome: Synthesis, rate: Rate): (r: Option<Clip>)
    ensures outcome.Rendered? ==> r == Some(Clip(seg.start, seg.end, outcome.samples))
    ensures outcome.Failed? ==> (r.None? <==> SpanSamples(seg.start, seg.end, rate) < 0)
    ensures outcome.Failed? && r.Some? ==>
      r.value.audio == Silence(SpanSamples(seg.start, seg.end, rate)) && r.value.start == seg.start && r.value.end == seg.end
  {
    match outcome
    case Rendered(samples, _) => Some(Clip(seg.start, seg.end, samples))
    case Failed =>
      var n := SpanSamples(seg.start, seg.end, rate);
      if n < 0 then None else Some(Clip(seg.start, seg.end, Silence(n)))
  }

  /** The clip of segment `k`, made at the rate in force when it is synthesised. */
  function ClipAt(segments: seq<SubtitleSegment>, outcomes: seq<Synthesis>, k: nat): Option<Clip>
    requires |outcomes| == |segments| && k < |segments|
  {
    ClipFor(segments[k], outcomes[k], RateAfter(outcomes[..k], DefaultRate))
  }

  predicate ClipsOk(segments: seq<SubtitleSegment>, outcomes: seq<Synthesis>)
    requires |outcomes| == |segments|
  {
    forall k :: 0 <= k < |segments| ==> ClipAt(segments, outcomes, k).Some?
  }

  function Clips(segments: seq<SubtitleSegment>, outcomes: seq<Synthesis>): (r: seq<Clip>)
    requires |outcomes| == |segments| && ClipsOk(segments, outcomes)
    ensures |r| == |segments|
    ensures forall k :: 0 <= k < |r| ==> Some(r[k]) == ClipAt(segments, outcomes, k)
  {
    seq(|segments|, k requires 0 <= k < |segments| => ClipAt(segments, outcomes, k).value)
  }

  /**
   * The synthesis loop: one clip per segment in order, the rate updated by
   * every success; it stops at the first failed segment whose silence would
   * have negative length.
   */
  method SynthesizeAll(segments: seq<SubtitleSegment>, outcomes: seq<Synthesis>)
    returns (r: Result<(seq<Clip>, Rate), DubError>)
    requires |outcomes| == |segments|
    ensures r.Success? <==> ClipsOk(segments, outcomes)
    ensures r.Success? ==> r.value == (Clips(segments, outcomes), RateAfter(outcomes, DefaultRate))
    ensures r.Failure? ==> exists k :: (0 <= k < |segments| && r.error == NegativeSilence(k)
      && ClipAt(segments, outcomes, k).None? && forall j :: 0 <= j < k ==> ClipAt(segments, outcomes, j).Some?)
  {
    var clips: seq<Clip> := [];
    var rate := DefaultRate;
    for i := 0 to |segments|
      invariant rate == RateAfter(outcomes[..i], DefaultRate)
      invariant |clips| == i && forall k :: 0 <= k < i ==> Some(clips[k]) == ClipAt(segments, outcomes, k)
    {
      RateStep(outcomes, i);
      var seg := segments[i];
      match outcomes[i]
      case Rendered(samples, sr) =>
        rate := sr;
        clips := clips + [Clip(seg.start, seg.end, samples)];
      case Failed =>
        var n := SpanSamples(seg.start, seg.end, rate);
        if n < 0 {
          assert ClipAt(segments, outcomes, i).None?;
          return Failure(NegativeSilence(i));
        }
        clips := clips + [Clip(seg.start, seg.end, Silence(n))];
    }
    assert outcomes[..|segments|] == outcomes;
    assert clips == Clips(segments, outcomes);
    r := Success((clips, rate));
  }

  lemma RateStep(outcomes: seq<Synthesis>, i: nat)
    requires i < |outcomes|
    ensures RateAfter(outcomes[..i + 1], DefaultRate)
      == if outcomes[i].Rendered? then outcomes[i].rate else RateAfter(outcomes[..i], DefaultRate)
  {
    assert outcomes[..i + 1][..i] == outcomes[..i];
  }

  // ---------------------------------------------------------------------
  // Assembly

  /** The latest end time over a non-empty list of segments. */
  function MaxEnd(segments: seq<SubtitleSegment>): (m: nat)
    requires |segments| > 0
    ensures forall k :: 0 <= k < |segments| ==> segments[k].end <= m
    ensures exists k :: 0 <= k < |segments| && segments[k].end == m
    decreases |segments|
  {
    if |segments| == 1 then segments[0].end
    else
      var m := MaxEnd(segments[1..]);
      assert forall k :: 1 <= k < |segments| ==> segments[k] == segments[1..][k - 1];
      if segments[0].end >= m then segments[0].end else m
  }

  /** `int((max end + 1.0) * sample_rate)`: the buffer length, never less than one second of samples. */
  function TotalSamples(segments: seq<SubtitleSegment>, rate: Rate): (n: nat)
    requires |segments| > 0
    ensures n >= rate
  {
    (MaxEnd(segments) + 1000) * rate / 1000
  }

  /** `int(start * sample_rate)`. */
  function StartSample(c: Clip, rate: nat): nat
  {
    c.start * rate / 1000
  }

  /**
   * The clip fitted to `available` samples: cut when longer, padded with
   * silence when shorter. A negative `available` cuts as a negative Python
   * slice bound does, counting from the end.
   */
  function Fit(audio: seq<real>, available: int): (r: seq<real>)
    ensures available >= 0 ==> |r| == available
    ensures available < 0 ==> |r| == if |audio| + available > 0 then |audio| + available else 0
    ensures forall k :: 0 <= k < |r| ==> r[k] == if k < |audio| then audio[k] else 0.0
  {
    if |audio| > available then
      if available >= 0 then audio[..available]
      else if |audio| + available > 0 then audio[..|audio| + available]
      else []
    else if |audio| < available then audio + Silence(available - |audio|)
    else audio
  }

  /** `buf` with `clip` added into the samples from `offset` on. */
  function AddAt(buf: seq<real>, offset: nat, clip: seq<real>): (r: seq<real>)
    requires offset + |clip| <= |buf|
    ensures |r| == |buf|
    ensures forall k :: 0 <= k < |r| ==>
      r[k] == if offset <= k < offset + |clip| then buf[k] + clip[k - offset] else buf[k]
  {
    seq(|buf|, k requires 0 <= k < |buf| =>
      if offset <= k < offset + |clip| then buf[k] + clip[k - offset] else buf[k])
  }

  /** Whether the fitted clip ends inside the buffer. */
  predicate Fits(c: Clip, rate: nat, length: nat)
  {
    StartSample(c, rate) + |Fit(c.audio, SpanSamples(c.start, c.end, rate))| <= length
  }

  /** One clip composited into the buffer: mixed in when it fits, dropped otherwise; the buffer never grows. */
  function Place(buf: seq<real>, c: Clip, rate: nat): (r: seq<real>)
    ensures |r| == |buf|
    ensures !Fits(c, rate, |buf|) ==> r == buf
    ensures Fits(c, rate, |buf|) ==> r == AddAt(buf, StartSample(c, rate), Fit(c.audio, SpanSamples(c.start, c.end, rate)))
  {
    var fitted := Fit(c.audio, SpanSamples(c.start, c.end, rate));
    var offset := StartSample(c, rate);
    if offset + |fitted| <= |buf| then AddAt(buf, offset, fitted) else buf
  }

  /** All clips composited in order onto `buf`. */
  function MixOnto(buf: seq<real>, clips: seq<Clip>, rate: nat): (r: seq<real>)
    ensures |r| == |buf|
    decreases |clips|
  {
    if |clips| == 0 then buf else Place(MixOnto(buf, clips[..|clips| - 1], rate), clips[|clips| - 1], rate)
  }

  /** Whether sample `k` lies in the window a fitting clip is mixed into. */
  predicate Covers(c: Clip, rate: nat, length: nat, k: int)
  {
    Fits(c, rate, length) && StartSample(c, rate) <= k < StartSample(c, rate) + |Fit(c.audio, SpanSamples(c.start, c.end, rate))|
  }

  /** A sample that no placed clip covers keeps its value. */
  lemma {:induction false} MixUntouched(buf: seq<real>, clips: seq<Clip>, rate: nat, k: nat)
    requires k < |buf|
    requires forall j :: 0 <= j < |clips| ==> !Covers(clips[j], rate, |buf|, k)
    ensures MixOnto(buf, clips, rate)[k] == buf[k]
    decreases |clips|
  {
    if |clips| > 0 {
      var init := clips[..|clips| - 1];
      assert forall j :: 0 <= j < |init| ==> init[j] == clips[j];
      MixUntouched(buf, init, rate, k);
      assert !Covers(clips[|clips| - 1], rate, |buf|, k);
    }
  }

  /** `final_audio[start:end] += audio`. */
  method AddInto(buffer: array<real>, offset: nat, clip: seq<real>)
    requires offset + |clip| <= buffer.Length
    modifies buffer
    ensures buffer[..] == AddAt(old(buffer[..]), offset, clip)
  {
    forall k | offset <= k < offset + |clip| {
      buffer[k] := buffer[k] + clip[k - offset];
    }
  }

  /** The assembly loop over the clips, mixing each one that fits. */
  method Assemble(buffer: array<real>, clips: seq<Clip>, rate: Rate)
    modifies buffer
    ensures buffer[..] == MixOnto(old(buffer[..]), clips, rate)
  {
    for i := 0 to |clips|
      invariant buffer[..] == MixOnto(old(buffer[..]), clips[..i], rate)
    {
      assert clips[..i + 1][..i] == clips[..i];
      var c := clips[i];
      var startSample := c.start * rate / 1000;
      var available := SpanSamples(c.start, c.end, rate);
      var audio := Fit(c.audio, available);
      var endSample := startSample + |audio|;
      if endSample <= buffer.Length {
        AddInto(buffer, startSample, audio);
      }
    }
    assert clips[..|clips|] == clips;
  }

  // ---------------------------------------------------------------------
  // Normalisation

  function Abs(x: real): real
  {
    if x < 0.0 then -x else x
  }

  /** `np.max(np.abs(s))`, taken as 0 for no samples. */
  function Peak(s: seq<real>): (p: real)
    ensures p >= 0.0
    ensures forall k :: 0 <= k < |s| ==> Abs(s[k]) <= p
    ensures |s| > 0 ==> exists k :: 0 <= k < |s| && Abs(s[k]) == p
    ensures |s| == 0 ==> p == 0.0
    decreases |s|
  {
    if |s| == 0 then 0.0
    else
      var init := s[..|s| - 1];
      var p := Peak(init);
      assert forall k :: 0 <= k < |init| ==> init[k] == s[k];
      if Abs(s[|s| - 1]) > p then Abs(s[|s| - 1]) else p
  }

  /** The buffer scaled so that its peak becomes 0.9; a silent buffer is left as it is. */
  function Normalized(s: seq<real>): (r: seq<real>)
    ensures |r| == |s|
    ensures Peak(s) == 0.0 ==> r == s
    ensures Peak(s) > 0.0 ==> forall k :: 0 <= k < |s| ==> r[k] == s[k] / Peak(s) * 0.9
  {
    var p := Peak(s);
    if p > 0.0 then seq(|s|, k requires 0 <= k < |s| => s[k] / p * 0.9) else s
  }

  /** After normalisation a buffer that was not silent peaks at exactly 0.9. */
  lemma NormalizedPeak(s: seq<real>)
    requires Peak(s) > 0.0
    ensures Peak(Normalized(s)) == 0.9
  {
    var p := Peak(s);
    var r := Normalized(s);
    var j :| 0 <= j < |s| && Abs(s[j]) == p;
    forall k | 0 <= k < |s| ensures Abs(r[k]) <= 0.9 && (k == j ==> Abs(r[k]) == 0.9) {
      ScaleAbs(s[k], p);
      ScaleBelow(Abs(s[k]), p);
    }
    PeakIs(r, 0.9, j);
  }

  /** The peak is the one bound every sample's magnitude stays within and some sample reaches. */
  lemma PeakIs(s: seq<real>, m: real, j: nat)
    requires j < |s| && Abs(s[j]) == m
    requires forall k :: 0 <= k < |s| ==> Abs(s[k]) <= m
    ensures Peak(s) == m
  {
  }

  lemma ScaleAbs(x: real, p: real)
    requires p > 0.0
    ensures Abs(x / p * 0.9) == Abs(x) / p * 0.9
  {
  }

  lemma ScaleBelow(a: real, p: real)
    requires 0.0 <= a <= p && p > 0.0
    ensures a / p * 0.9 <= 0.9
    ensures a == p ==> a / p * 0.9 == 0.9
  {
    assert a / p <= 1.0 by {
      assert a / p * p == a;
    }
  }

  /** `np.zeros(n)` as a fresh array. */
  method Zeros(n: nat) returns (buffer: array<real>)
    ensures fresh(buffer) && buffer[..] == Silence(n)
  {
    buffer := new real[n](_ => 0.0);
  }

  /** `final_audio = final_audio / max_val * 0.9` when the peak is positive. */
  method Normalize(buffer: array<real>)
    modifies buffer
    ensures buffer[..] == Normalized(old(buffer[..]))
  {
    var peak := Peak(buffer[..]);
    if peak > 0.0 {
      forall k | 0 <= k < buffer.Length {
        buffer[k] := buffer[k] / peak * 0.9;
      }
    }
  }

  // ---------------------------------------------------------------------
  // The whole run

  /** The audio a successful run writes, and its sample rate. */
  function Dubbed(segments: seq<SubtitleSegment>, outcomes: seq<Synthesis>): seq<real>
    requires |segments| > 0 && |outcomes| == |segments| && ClipsOk(segments, outcomes)
  {
    var rate := RateAfter(outcomes, DefaultRate);
    Normalized(MixOnto(Silence(TotalSamples(segments, rate)), Clips(segments, outcomes), rate))
  }

  /**
   * `generate_dubbed_audio` without the file I/O: the language is checked,
   * the subtitles parsed, every segment synthesised (`outcomes` holds what the
   * synthesiser does for each parsed segment, in order), the clips assembled
   * and the buffer normalised.
   */
  method GenerateDubbedAudio(language: string, content: string, outcomes: seq<Synthesis>)
    returns (r: Result<(seq<real>, Rate), DubError>)
    requires |outcomes| == |ParseDocument(content)|
    ensures Lookup(TtsLanguages, language).None? ==> r == Failure(UnsupportedLanguage)
    ensures Lookup(TtsLanguages, language).Some? && ParseDocument(content) == [] ==> r == Failure(NoSegments)
    ensures Lookup(TtsLanguages, language).Some? && ParseDocument(content) != [] ==>
      (r.Success? <==> ClipsOk(ParseDocument(content), outcomes))
    ensures r.Success? ==> (ParseDocument(content) != [] && ClipsOk(ParseDocument(content), outcomes)
      && r.value == (Dubbed(ParseDocument(content), outcomes), RateAfter(outcomes, DefaultRate)))
  {
    var languageName := Lookup(TtsLanguages, language);
    if languageName.None? {
      return Failure(UnsupportedLanguage);
    }
    var segments := ParseSrt(content);
    if |segments| == 0 {
      return Failure(NoSegments);
    }
    var synthesized := SynthesizeAll(segments, outcomes);
    if synthesized.Failure? {
      return Failure(synthesized.error);
    }
    var audio := Mixdown(segments, outcomes, synthesized.value.0, synthesized.value.1);
    r := Success((audio, synthesized.value.1));
  }

  /** The buffer allocated for the whole duration, the clips mixed in, the result normalised. */
  method Mixdown(segments: seq<SubtitleSegment>, outcomes: seq<Synthesis>, clips: seq<Clip>, rate: Rate)
    returns (audio: seq<real>)
    requires |segments| > 0 && |outcomes| == |segments| && ClipsOk(segments, outcomes)
    requires clips == Clips(segments, outcomes) && rate == RateAfter(outcomes, DefaultRate)
    ensures audio == Dubbed(segments, outcomes)
  {
    var totalSamples := (MaxEnd(segments) + 1000) * rate / 1000;
    var buffer := Zeros(totalSamples);
    Assemble(buffer, clips, rate);
    Normalize(buffer);
    audio := buffer[..];
  }
}
