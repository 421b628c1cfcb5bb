/**
 * The argument list of the final ffmpeg call: the video with the dubbed
 * track, optionally mixed with the background music, and the subtitles
 * burnt in or carried as a stream.
 */
module FfmpegService {
  import opened Wrappers
  import opened Text
  import opened Seqs

  /** A path argument and whether the file exists on disk. */
  datatype FileArg = FileArg(path: string, onDisk: bool)

  /** Target language code to the three-letter code of the stream metadata. */
  const LangMap: seq<(string, string)> := [
    ("fr", "fre"), ("en", "eng"), ("es", "spa"), ("de", "ger"),
    ("it", "ita"), ("pt", "por"), ("zh", "chi"), ("ja", "jpn"),
    ("ko", "kor"), ("ru", "rus"), ("ar", "ara"), ("hi", "hin"),
    ("nl", "dut"), ("pl", "pol"), ("tr", "tur")
  ]

  const LangNames: seq<(string, string)> := [
    ("fr", "French"), ("en", "English"), ("es", "Spanish"), ("de", "German"),
    ("it", "Italian"), ("pt", "Portuguese"), ("zh", "Chinese"), ("ja", "Japanese"),
    ("ko", "Korean"), ("ru", "Russian"), ("ar", "Arabic"), ("hi", "Hindi"),
    ("nl", "Dutch"), ("pl", "Polish"), ("tr", "Turkish")
  ]

  /** The stream language tag: the table's code, `und` for a code it lacks. */
  function LangTag(lang: string): (r: string)
    ensures Lookup(LangMap, lang).Some? ==> r == Lookup(LangMap, lang).value
    ensures Lookup(LangMap, lang).None? ==> r == "und"
  {
    match Lookup(LangMap, lang)
    case Some(code) => code
    case None => "und"
  }

  /** `_get_language_name`: the English name, `Unknown` for a code the table lacks. */
  function LanguageName(lang: string): (r: string)
    ensures Lookup(LangNames, lang).Some? ==> r == Lookup(LangNames, lang).value
    ensures Lookup(LangNames, lang).None? ==> r == "Unknown"
  {
    match Lookup(LangNames, lang)
    case Some(name) => name
    case None => "Unknown"
  }

  // ---------------------------------------------------------------------
  // Escaping the subtitle path inside the `subtitles='...'` filter

  /** `str.replace(c, rep)` for a one-character pattern. */
  function ReplaceChar(s: string, c: char, rep: string): string
    decreases |s|
  {
    if |s| == 0 then ""
    else (if s[0] == c then rep else [s[0]]) + ReplaceChar(s[1..], c, rep)
  }

  lemma {:induction false} ReplaceCons(x: char, s: string, c: char, rep: string)
    ensures ReplaceChar([x] + s, c, rep) == (if x == c then rep else [x]) + ReplaceChar(s, c, rep)
  {
    assert ([x] + s)[1..] == s;
  }

  lemma {:induction false} ReplaceConcat(a: string, b: string, c: char, rep: string)
    ensures ReplaceChar(a + b, c, rep) == ReplaceChar(a, c, rep) + ReplaceChar(b, c, rep)
    decreases |a|
  {
    if |a| == 0 {
      assert a + b == b;
    } else {
      assert (a + b)[1..] == a[1..] + b;
      ReplaceConcat(a[1..], b, c, rep);
    }
  }

  /** Colons become `\:`, then quotes become `'\''`. */
  function Escape(p: string): string
  {
    ReplaceChar(ReplaceChar(p, ':', "\\:"), '\'', "'\\''")
  }

  /** The escape of one character. */
  function EscapeChar(x: char): string
  {
    if x == ':' then "\\:" else if x == '\'' then "'\\''" else [x]
  }

  /** The two passes escape character by character. */
  lemma EscapeCons(x: char, s: string)
    ensures Escape([x] + s) == EscapeChar(x) + Escape(s)
  {
    ReplaceCons(x, s, ':', "\\:");
    var first := if x == ':' then "\\:" else [x];
    ReplaceConcat(first, ReplaceChar(s, ':', "\\:"), '\'', "'\\''");
    if x == ':' {
      ReplaceCons('\\', ":", '\'', "'\\''");
      ReplaceCons(':', "", '\'', "'\\''");
      assert "\\:" == ['\\'] + ":" && ":" == [':'] + "";
    } else {
      ReplaceCons(x, "", '\'', "'\\''");
      assert [x] == [x] + "";
    }
  }

  /** Reads an escaped path back: `\:` is a colon, `'\''` a quote. */
  function Unescape(s: string): string
    decreases |s|
  {
    if |s| == 0 then ""
    else if |s| >= 2 && s[0] == '\\' && s[1] == ':' then ":" + Unescape(s[2..])
    else if |s| >= 4 && s[..4] == "'\\''" then "'" + Unescape(s[4..])
    else [s[0]] + Unescape(s[1..])
  }

  /** A path without backslashes is read back from its escape. */
  lemma {:induction false} UnescapeEscape(p: string)
    requires '\\' !in p
    ensures Unescape(Escape(p)) == p
    decreases |p|
  {
    if |p| == 0 {
      assert Escape(p) == "";
    } else {
      var x := p[0];
      assert p == [x] + p[1..];
      EscapeCons(x, p[1..]);
      UnescapeEscape(p[1..]);
      var e := EscapeChar(x) + Escape(p[1..]);
      if x == ':' {
        assert e[2..] == Escape(p[1..]);
      } else if x == '\'' {
        assert e[..4] == "'\\''" && e[4..] == Escape(p[1..]);
      } else {
        assert e[1..] == Escape(p[1..]);
      }
    }
  }

  // ---------------------------------------------------------------------
  // The argument list

  const MixFilter: string := "[1:a]volume=1.5[vov];[2:a]volume=0.8[bg];[vov][bg]amix=inputs=2:duration=longest[a]"

  /** An existing file was given. */
  predicate Present(f: Option<FileArg>)
  {
    f.Some? && f.value.onDisk
  }

  /**
   * `build_ffmpeg_command` with the file checks given as flags: the dubbing
   * branch with or without background music, else subtitles alone, burnt in
   * or as a stream.
   */
  method BuildFfmpegCommand(video: string, output: string, srt: Option<FileArg>, dubbed: Option<FileArg>,
                            bgMusic: Option<FileArg>, lang: string, hardcode: bool)
    returns (cmd: seq<string>)
    ensures cmd == Command(video, output, srt, dubbed, bgMusic, lang, hardcode)
  {
    var tag := LangTag(lang);
    var name := LanguageName(lang);
    cmd := BuildFor(video, output, srt, dubbed, bgMusic, tag, name, hardcode);
  }

  /** The branches of `build_ffmpeg_command` once the language's tag and name are known. */
  method BuildFor(video: string, output: string, srt: Option<FileArg>, dubbed: Option<FileArg>,
                  bgMusic: Option<FileArg>, tag: string, name: string, hardcode: bool)
    returns (cmd: seq<string>)
    ensures cmd == CommandFor(video, output, srt, dubbed, bgMusic, tag, name, hardcode)
  {
    if Present(dubbed) {
      if Present(bgMusic) {
        cmd := MixedInputs(video, srt, dubbed.value, bgMusic.value, hardcode);
      } else {
        cmd := DubbedInputs(video, srt, dubbed.value, hardcode);
      }
      var tail := Codecs(hardcode);
      if !hardcode && srt.Some? {
        tail := tail + SubtitleMetadata(tag, name);
      }
      assert tail == Codecs(hardcode) + Opt(!hardcode && srt.Some?, SubtitleMetadata(tag, name));
      tail := tail + ["-metadata:s:a:0", "language=" + tag, output];
      cmd := cmd + tail;
    } else if hardcode && srt.Some? {
      cmd := ["ffmpeg", "-y", "-i", video] + BurnFilter(srt.value.path)
             + ["-c:v", "libx264", "-preset", "veryfast", "-crf", "22", "-c:a", "copy", output];
    } else {
      cmd := ["ffmpeg", "-y", "-i", video, "-i", if srt.Some? then srt.value.path else "",
              "-c", "copy"] + SubtitleMetadata(tag, name) + [output];
      if srt.None? {
        cmd := RemoveFirst(cmd, "");
      }
    }
  }

  /** The dubbing branch with background music, up to the codecs: inputs, mixing filter, maps. */
  method MixedInputs(video: string, srt: Option<FileArg>, dubbed: FileArg, bgMusic: FileArg, hardcode: bool)
    returns (cmd: seq<string>)
    requires bgMusic.onDisk
    ensures cmd == DubbingStreams(video, srt, dubbed, Some(bgMusic), hardcode)
  {
    var soft := !hardcode && Present(srt);
    var burn := hardcode && srt.Some?;
    cmd := ["ffmpeg", "-y", "-i", video, "-i", dubbed.path, "-i", bgMusic.path];
    ghost var head := cmd;
    assert head == DubbingHead(video, dubbed, Some(bgMusic));
    if soft {
      cmd := cmd + ["-i", srt.value.path];
    }
    ghost var mid := Opt(soft, ["-i", PathOf(srt)]);
    assert cmd == head + mid;
    cmd := cmd + ["-filter_complex", MixFilter];
    Assoc(head, mid, ["-filter_complex", MixFilter]);
    mid := mid + ["-filter_complex", MixFilter];
    if burn {
      cmd := cmd + BurnFilter(srt.value.path);
    }
    Assoc(head, mid, Opt(burn, BurnFilter(PathOf(srt))));
    mid := mid + Opt(burn, BurnFilter(PathOf(srt)));
    assert mid == MiddleArgs(srt, true, soft, burn);
    cmd := cmd + ["-map", "0:v:0", "-map", "[a]"];
    ghost var prev := cmd;
    if soft {
      cmd := cmd + ["-map", "3:0"];
    }
    assert cmd == prev + Opt(soft, ["-map", "3:0"]);
    Assoc(head + mid, ["-map", "0:v:0", "-map", "[a]"], Opt(soft, ["-map", "3:0"]));
  }

  /** The dubbing branch without background music, up to the codecs: inputs and maps. */
  method DubbedInputs(video: string, srt: Option<FileArg>, dubbed: FileArg, hardcode: bool)
    returns (cmd: seq<string>)
    ensures cmd == DubbingStreams(video, srt, dubbed, None, hardcode)
  {
    var soft := !hardcode && Present(srt);
    var burn := hardcode && srt.Some?;
    cmd := ["ffmpeg", "-y", "-i", video, "-i", dubbed.path];
    ghost var head := cmd;
    assert head == DubbingHead(video, dubbed, None);
    if soft {
      cmd := cmd + ["-i", srt.value.path];
    }
    ghost var mid := Opt(soft, ["-i", PathOf(srt)]);
    assert cmd == head + mid;
    if burn {
      cmd := cmd + BurnFilter(srt.value.path);
    }
    Assoc(head, mid, Opt(burn, BurnFilter(PathOf(srt))));
    mid := mid + Opt(burn, BurnFilter(PathOf(srt)));
    assert mid == MiddleArgs(srt, false, soft, burn);
    cmd := cmd + ["-map", "0:v:0", "-map", "1:a:0"];
    ghost var prev := cmd;
    if soft {
      cmd := cmd + ["-map", "2:0"];
    }
    assert cmd == prev + Opt(soft, ["-map", "2:0"]);
    Assoc(head + mid, ["-map", "0:v:0", "-map", "1:a:0"], Opt(soft, ["-map", "2:0"]));
  }

  /** Concatenation regroups. */
  lemma Assoc(a: seq<string>, b: seq<string>, c: seq<string>)
    ensures a + b + c == a + (b + c)
  {
  }

  /** `list.remove(x)`: the list without the first copy of `x`; unchanged when there is none. */
  function RemoveFirst(xs: seq<string>, x: string): (r: seq<string>)
    ensures x in xs ==> |r| == |xs| - 1
    ensures x !in xs ==> r == xs
    decreases |xs|
  {
    if |xs| == 0 then []
    else if xs[0] == x then xs[1..]
    else [xs[0]] + RemoveFirst(xs[1..], x)
  }

  /** `xs` when `c` holds, nothing otherwise: an `extend` under a condition. */
  function Opt(c: bool, xs: seq<string>): seq<string>
  {
    if c then xs else []
  }

  /** The codec arguments both dubbing branches end with, before the metadata. */
  function Codecs(hardcode: bool): seq<string>
  {
    ["-c:v", "libx264", "-preset", "veryfast", "-crf", if hardcode then "22" else "copy",
     "-c:a", "aac", "-b:a", "192k"]
  }

  /** The subtitle stream's codec, language tag and title. */
  function SubtitleMetadata(tag: string, name: string): seq<string>
  {
    ["-c:s", "mov_text", "-metadata:s:s:0", "language=" + tag, "-metadata:s:s:0", "title=" + name]
  }

  function BurnFilter(srt: string): seq<string>
  {
    ["-vf", "subtitles='" + Escape(srt) + "'"]
  }

  /** The path of an optional file argument; empty when there is none. */
  function PathOf(f: Option<FileArg>): string
  {
    if f.Some? then f.value.path else ""
  }

  /** The inputs, filters and maps of a dubbing command, with or without background music. */
  function DubbingStreams(video: string, srt: Option<FileArg>, dubbed: FileArg, bgMusic: Option<FileArg>,
                          hardcode: bool): seq<string>
  {
    var music := Present(bgMusic);
    var soft := !hardcode && Present(srt);
    DubbingHead(video, dubbed, bgMusic) + MiddleArgs(srt, music, soft, hardcode && srt.Some?) + StreamMaps(music, soft)
  }

  /** The inputs every dubbing command starts with: the video, the dubbed track, the music when present. */
  function DubbingHead(video: string, dubbed: FileArg, bgMusic: Option<FileArg>): seq<string>
  {
    ["ffmpeg", "-y", "-i", video, "-i", dubbed.path] + Opt(Present(bgMusic), ["-i", PathOf(bgMusic)])
  }

  /** Between the fixed inputs and the maps: the subtitle input, the mixing filter, the burn filter. */
  function MiddleArgs(srt: Option<FileArg>, music: bool, soft: bool, burn: bool): seq<string>
  {
    Opt(soft, ["-i", PathOf(srt)]) + Opt(music, ["-filter_complex", MixFilter])
    + Opt(burn, BurnFilter(PathOf(srt)))
  }

  /** The video, the audio (mixed or dubbed) and the subtitle stream when it is an input. */
  function StreamMaps(music: bool, soft: bool): seq<string>
  {
    if music then ["-map", "0:v:0", "-map", "[a]"] + Opt(soft, ["-map", "3:0"])
    else ["-map", "0:v:0", "-map", "1:a:0"] + Opt(soft, ["-map", "2:0"])
  }

  /** The codecs, the subtitle metadata when subtitles are carried as a stream, the audio tag, the output. */
  function DubbingTail(srt: Option<FileArg>, tag: string, name: string, output: string, hardcode: bool): seq<string>
  {
    Codecs(hardcode) + Opt(!hardcode && srt.Some?, SubtitleMetadata(tag, name))
    + ["-metadata:s:a:0", "language=" + tag, output]
  }

  /** The argument list for a target language: its tag and its name filled into the branches. */
  function Command(video: string, output: string, srt: Option<FileArg>, dubbed: Option<FileArg>,
                   bgMusic: Option<FileArg>, lang: string, hardcode: bool): seq<string>
  {
    CommandFor(video, output, srt, dubbed, bgMusic, LangTag(lang), LanguageName(lang), hardcode)
  }

  /** The argument list, branch by branch, for a language tag and a language name. */
  function CommandFor(video: string, output: string, srt: Option<FileArg>, dubbed: Option<FileArg>,
                      bgMusic: Option<FileArg>, tag: string, name: string, hardcode: bool): seq<string>
  {
    if Present(dubbed) then
      DubbingStreams(video, srt, dubbed.value, bgMusic, hardcode) + DubbingTail(srt, tag, name, output, hardcode)
    else if hardcode && srt.Some? then
      ["ffmpeg", "-y", "-i", video] + BurnFilter(PathOf(srt))
      + ["-c:v", "libx264", "-preset", "veryfast", "-crf", "22", "-c:a", "copy", output]
    else
      var args := ["ffmpeg", "-y", "-i", video, "-i", PathOf(srt), "-c", "copy"]
                  + SubtitleMetadata(tag, name) + [output];
      if srt.None? then RemoveFirst(args, "") else args
  }

  // ---------------------------------------------------------------------
  // Properties of the argument list

  /** The argument following each `-i`, read left to right: the inputs ffmpeg numbers from 0. */
  function Inputs(args: seq<string>): seq<string>
    decreases |args|
  {
    if |args| < 2 then []
    else if args[0] == "-i" then [args[1]] + Inputs(args[2..])
    else Inputs(args[1..])
  }

  /** Reading inputs distributes over a split that does not fall just after a `-i`. */
  lemma {:induction false} InputsConcat(a: seq<string>, b: seq<string>)
    requires a == [] || a[|a| - 1] != "-i"
    ensures Inputs(a + b) == Inputs(a) + Inputs(b)
    decreases |a|
  {
    if |a| == 0 {
      assert a + b == b;
    } else if |a| == 1 {
      assert Inputs(a) == [];
      assert (a + b)[1..] == b;
    } else if a[0] == "-i" {
      assert (a + b)[2..] == a[2..] + b;
      InputsConcat(a[2..], b);
    } else {
      assert (a + b)[1..] == a[1..] + b;
      InputsConcat(a[1..], b);
    }
  }

  /** A list without `-i` names no input. */
  lemma {:induction false} NoInputs(args: seq<string>)
    requires "-i" !in args
    ensures Inputs(args) == []
    decreases |args|
  {
    if |args| >= 2 {
      NoInputs(args[1..]);
    }
  }

  /** A pair `-i`, `x` names the one input `x`. */
  lemma InputPair(x: string)
    ensures Inputs(["-i", x]) == [x]
  {
    assert ["-i", x][2..] == [];
  }

  /**
   * The inputs of a dubbing command, in order: the video, the dubbed track,
   * the background music when present, and the subtitle file when it is
   * carried as a stream; so the stream `3:0` (with music) or `2:0` (without)
   * that is mapped as subtitles is the subtitle file. Paths are not `-i`.
   */
  lemma DubbingInputs(video: string, output: string, srt: Option<FileArg>, dubbed: Option<FileArg>,
                      bgMusic: Option<FileArg>, tag: string, name: string, hardcode: bool)
    requires Present(dubbed)
    requires video != "-i" && dubbed.value.path != "-i" && PathOf(bgMusic) != "-i" && PathOf(srt) != "-i"
    requires output != "-i"
    ensures var soft := !hardcode && Present(srt);
      Inputs(CommandFor(video, output, srt, dubbed, bgMusic, tag, name, hardcode))
      == [video, dubbed.value.path] + Opt(Present(bgMusic), [PathOf(bgMusic)]) + Opt(soft, [PathOf(srt)])
  {
    var streams := DubbingStreams(video, srt, dubbed.value, bgMusic, hardcode);
    var tail := DubbingTail(srt, tag, name, output, hardcode);
    DubbingCommand(video, output, srt, dubbed, bgMusic, tag, name, hardcode);
    TailInputs(srt, tag, name, output, hardcode);
    StreamsInputs(video, srt, dubbed.value, bgMusic, hardcode);
    InputsConcat(streams, tail);
  }

  /** A dubbing command is its streams followed by its tail. */
  lemma DubbingCommand(video: string, output: string, srt: Option<FileArg>, dubbed: Option<FileArg>,
                       bgMusic: Option<FileArg>, tag: string, name: string, hardcode: bool)
    requires Present(dubbed)
    ensures CommandFor(video, output, srt, dubbed, bgMusic, tag, name, hardcode)
         == DubbingStreams(video, srt, dubbed.value, bgMusic, hardcode) + DubbingTail(srt, tag, name, output, hardcode)
  {
  }

  lemma TailInputs(srt: Option<FileArg>, tag: string, name: string, output: string, hardcode: bool)
    requires output != "-i"
    ensures Inputs(DubbingTail(srt, tag, name, output, hardcode)) == []
  {
    var tail := DubbingTail(srt, tag, name, output, hardcode);
    assert "-i" !in tail by {
      assert "-i" !in Codecs(hardcode);
      assert "-i" !in Opt(!hardcode && srt.Some?, SubtitleMetadata(tag, name));
    }
    NoInputs(tail);
  }

  /** The inputs named by the streams part of a dubbing command; it does not end with `-i`. */
  lemma StreamsInputs(video: string, srt: Option<FileArg>, dubbed: FileArg, bgMusic: Option<FileArg>, hardcode: bool)
    requires video != "-i" && dubbed.path != "-i" && PathOf(bgMusic) != "-i" && PathOf(srt) != "-i"
    ensures var streams := DubbingStreams(video, srt, dubbed, bgMusic, hardcode);
      && Inputs(streams) == [video, dubbed.path] + Opt(Present(bgMusic), [PathOf(bgMusic)])
                           + Opt(!hardcode && Present(srt), [PathOf(srt)])
      && streams[|streams| - 1] != "-i"
  {
    var soft := !hardcode && Present(srt);
    var head := DubbingHead(video, dubbed, bgMusic);
    var mid := MiddleArgs(srt, Present(bgMusic), soft, hardcode && srt.Some?);
    var maps := StreamMaps(Present(bgMusic), soft);
    MapsNameNoInput(Present(bgMusic), soft);
    MiddleInputs(srt, Present(bgMusic), soft, hardcode && srt.Some?);
    HeadInputs(video, dubbed, bgMusic);
    ConcatInputs(head, mid, maps);
  }

  /** The maps name no input and do not end with `-i`. */
  lemma MapsNameNoInput(music: bool, soft: bool)
    ensures var maps := StreamMaps(music, soft);
      Inputs(maps) == [] && |maps| > 0 && maps[|maps| - 1] != "-i"
  {
    var maps := StreamMaps(music, soft);
    assert "-i" !in maps;
    NoInputs(maps);
  }

  /** Inputs of three parts when the first does not end with `-i` and the last is not empty. */
  lemma ConcatInputs(head: seq<string>, mid: seq<string>, maps: seq<string>)
    requires |head| > 0 && head[|head| - 1] != "-i" && |maps| > 0 && maps[|maps| - 1] != "-i"
    requires Inputs(maps) == [] && (mid == [] || mid[|mid| - 1] != "-i")
    ensures Inputs(head + mid + maps) == Inputs(head) + Inputs(mid)
    ensures (head + mid + maps)[|head + mid + maps| - 1] != "-i"
  {
    InputsConcat(head, mid);
    var hm := head + mid;
    assert hm[|hm| - 1] != "-i" by {
      if mid == [] { assert hm == head; } else { assert hm[|hm| - 1] == mid[|mid| - 1]; }
    }
    InputsConcat(hm, maps);
  }

  lemma MiddleInputs(srt: Option<FileArg>, music: bool, soft: bool, burn: bool)
    requires PathOf(srt) != "-i"
    ensures Inputs(MiddleArgs(srt, music, soft, burn)) == Opt(soft, [PathOf(srt)])
    ensures var m := MiddleArgs(srt, music, soft, burn); m == [] || m[|m| - 1] != "-i"
  {
    var input := Opt(soft, ["-i", PathOf(srt)]);
    var mix := Opt(music, ["-filter_complex", MixFilter]);
    var burnArgs := Opt(burn, BurnFilter(PathOf(srt)));
    NoInputs(burnArgs);
    NoInputs(mix);
    InputPair(PathOf(srt));
    InputsConcat(input, mix);
    InputsConcat(input + mix, burnArgs);
    var m := input + mix + burnArgs;
    if burnArgs != [] {
      assert m[|m| - 1] == burnArgs[1] && burnArgs[1][0] == 's';
    } else if mix != [] {
      assert m[|m| - 1] == mix[1];
    } else if input != [] {
      assert m[|m| - 1] == input[1];
    }
  }

  /** The fixed inputs at the head of a dubbing command. */
  lemma HeadInputs(video: string, dubbed: FileArg, bgMusic: Option<FileArg>)
    requires video != "-i" && dubbed.path != "-i" && PathOf(bgMusic) != "-i"
    ensures var head := DubbingHead(video, dubbed, bgMusic);
      Inputs(head) == [video, dubbed.path] + Opt(Present(bgMusic), [PathOf(bgMusic)]) && head[|head| - 1] != "-i"
  {
    HeadPairs(video, dubbed.path, Present(bgMusic), PathOf(bgMusic));
  }

  lemma HeadPairs(video: string, dubbed: string, music: bool, bg: string)
    requires video != "-i" && dubbed != "-i" && bg != "-i"
    ensures var head := ["ffmpeg", "-y", "-i", video, "-i", dubbed] + Opt(music, ["-i", bg]);
      Inputs(head) == [video, dubbed] + Opt(music, [bg]) && head[|head| - 1] != "-i"
  {
    var start := ["ffmpeg", "-y", "-i", video, "-i", dubbed];
    var pairs := ["-i", video, "-i", dubbed];
    assert start[1..] == ["-y"] + pairs;
    assert (["-y"] + pairs)[1..] == pairs;
    assert pairs[2..] == ["-i", dubbed];
    InputPair(dubbed);
    assert Inputs(pairs) == [video, dubbed];
    assert Inputs(start) == [video, dubbed];
    InputPair(bg);
    InputsConcat(start, Opt(music, ["-i", bg]));
  }

  /**
   * Without dubbing and without subtitles, `list.remove("")` drops the empty
   * subtitle path but keeps the `-i` before it, so `-c` ends up read as a
   * second input file.
   */
  lemma SoftWithoutSubtitles(video: string, output: string, dubbed: Option<FileArg>, bgMusic: Option<FileArg>,
                             tag: string, name: string, hardcode: bool)
    requires video != "" && !Present(dubbed)
    ensures CommandFor(video, output, None, dubbed, bgMusic, tag, name, hardcode)
            == ["ffmpeg", "-y", "-i", video, "-i", "-c", "copy"] + SubtitleMetadata(tag, name) + [output]
  {
    var rest := ["-c", "copy"] + SubtitleMetadata(tag, name) + [output];
    assert ["ffmpeg", "-y", "-i", video, "-i", PathOf(None), "-c", "copy"] + SubtitleMetadata(tag, name) + [output]
           == ["ffmpeg", "-y", "-i", video, "-i"] + ([""] + rest);
    assert ([""] + rest)[1..] == rest;
    RemoveAfter(["ffmpeg", "-y", "-i", video, "-i"], [""] + rest, "");
    assert ["ffmpeg", "-y", "-i", video, "-i"] + rest
           == ["ffmpeg", "-y", "-i", video, "-i", "-c", "copy"] + SubtitleMetadata(tag, name) + [output];
  }

  /** Removing an element the prefix lacks removes it from the suffix. */
  lemma {:induction false} RemoveAfter(xs: seq<string>, ys: seq<string>, x: string)
    requires x !in xs
    ensures RemoveFirst(xs + ys, x) == xs + RemoveFirst(ys, x)
    decreases |xs|
  {
    if |xs| == 0 {
      assert xs + ys == ys;
    } else {
      assert (xs + ys)[1..] == xs[1..] + ys;
      RemoveAfter(xs[1..], ys, x);
    }
  }

  /**
   * Whatever the branch, the list starts by calling ffmpeg with overwriting
   * on the video and ends with the output path (the video path is never empty).
   */
  lemma CommandShape(video: string, output: string, srt: Option<FileArg>, dubbed: Option<FileArg>,
                     bgMusic: Option<FileArg>, tag: string, name: string, hardcode: bool)
    requires video != ""
    ensures var cmd := CommandFor(video, output, srt, dubbed, bgMusic, tag, name, hardcode);
      |cmd| >= 5 && cmd[..4] == ["ffmpeg", "-y", "-i", video] && cmd[|cmd| - 1] == output
  {
    var cmd := CommandFor(video, output, srt, dubbed, bgMusic, tag, name, hardcode);
    if Present(dubbed) {
      var streams := DubbingStreams(video, srt, dubbed.value, bgMusic, hardcode);
      var tail := DubbingTail(srt, tag, name, output, hardcode);
      assert cmd == streams + tail;
      assert streams[..4] == ["ffmpeg", "-y", "-i", video];
      assert cmd[..4] == streams[..4];
    } else if hardcode && srt.Some? {
    } else if srt.None? {
      SoftWithoutSubtitles(video, output, dubbed, bgMusic, tag, name, hardcode);
    }
  }

  /**
   * Burning subtitles in puts the escaped subtitle path in a `-vf subtitles=`
   * filter right after the inputs (after the mixing filter when there is
   * one), and the escape reads back as the path when it holds no backslash.
   */
  lemma BurnFilterPlaced(video: string, output: string, srt: Option<FileArg>, dubbed: Option<FileArg>,
                         bgMusic: Option<FileArg>, tag: string, name: string)
    requires srt.Some?
    ensures var cmd := CommandFor(video, output, srt, dubbed, bgMusic, tag, name, true);
      var i := if !Present(dubbed) then 4 else if Present(bgMusic) then 10 else 6;
      i + 2 <= |cmd| && cmd[i..i + 2] == ["-vf", "subtitles='" + Escape(srt.value.path) + "'"]
    ensures '\\' !in srt.value.path ==> Unescape(Escape(srt.value.path)) == srt.value.path
  {
    var cmd := CommandFor(video, output, srt, dubbed, bgMusic, tag, name, true);
    if Present(dubbed) {
      var streams := DubbingStreams(video, srt, dubbed.value, bgMusic, true);
      var i := if Present(bgMusic) then 10 else 6;
      DubbingCommand(video, output, srt, dubbed, bgMusic, tag, name, true);
      BurnInStreams(video, srt, dubbed.value, bgMusic);
      PrefixSlice(streams, DubbingTail(srt, tag, name, output, true), i, i + 2);
    } else {
      assert cmd == ["ffmpeg", "-y", "-i", video] + BurnFilter(srt.value.path)
                    + ["-c:v", "libx264", "-preset", "veryfast", "-crf", "22", "-c:a", "copy", output];
    }
    if '\\' !in srt.value.path {
      UnescapeEscape(srt.value.path);
    }
  }

  /** In the streams of a dubbing command that burns subtitles in, the filter follows the inputs and the mixing filter. */
  lemma BurnInStreams(video: string, srt: Option<FileArg>, dubbed: FileArg, bgMusic: Option<FileArg>)
    requires srt.Some?
    ensures var streams := DubbingStreams(video, srt, dubbed, bgMusic, true);
      var i := if Present(bgMusic) then 10 else 6;
      i + 2 <= |streams| && streams[i..i + 2] == BurnFilter(PathOf(srt))
  {
    var music := Present(bgMusic);
    var head := DubbingHead(video, dubbed, bgMusic);
    var mix := Opt(music, ["-filter_complex", MixFilter]);
    var burn := BurnFilter(PathOf(srt));
    var mid := MiddleArgs(srt, music, false, true);
    assert mid == mix + burn;
    assert (mix + burn)[|mix|..|mix| + 2] == burn;
    MiddleSlice(head, mid, StreamMaps(music, false), |mix|, 2);
  }

  /** A slice of the middle part of a concatenation. */
  lemma MiddleSlice(head: seq<string>, mid: seq<string>, rest: seq<string>, k: nat, n: nat)
    requires k + n <= |mid|
    ensures |head| + k + n <= |head + mid + rest|
    ensures (head + mid + rest)[|head| + k..|head| + k + n] == mid[k..k + n]
  {
  }

  /** A slice inside the first part of a concatenation. */
  lemma PrefixSlice(a: seq<string>, b: seq<string>, i: nat, j: nat)
    requires i <= j <= |a|
    ensures (a + b)[i..j] == a[i..j]
  {
  }

  /** The fixed start of the commands without dubbing: only the video is an input. */
  lemma StartInputs(video: string)
    requires video != "-i"
    ensures Inputs(["ffmpeg", "-y", "-i", video]) == [video]
  {
    var start := ["ffmpeg", "-y", "-i", video];
    assert start[1..] == ["-y", "-i", video];
    assert start[1..][1..] == ["-i", video];
    InputPair(video);
  }

  /** Burning subtitles in without dubbing reads the video alone. */
  lemma BurnOnlyInputs(video: string, output: string, srt: Option<FileArg>, dubbed: Option<FileArg>,
                       bgMusic: Option<FileArg>, tag: string, name: string)
    requires !Present(dubbed) && srt.Some?
    requires video != "-i" && output != "-i"
    ensures Inputs(CommandFor(video, output, srt, dubbed, bgMusic, tag, name, true)) == [video]
  {
    var start := ["ffmpeg", "-y", "-i", video];
    var rest := BurnFilter(PathOf(srt)) + ["-c:v", "libx264", "-preset", "veryfast", "-crf", "22", "-c:a", "copy", output];
    assert CommandFor(video, output, srt, dubbed, bgMusic, tag, name, true) == start + rest;
    assert "-i" !in rest;
    NoInputs(rest);
    StartInputs(video);
    InputsConcat(start, rest);
  }

  /**
   * Softcoding without dubbing reads the video and the subtitle file; with
   * no subtitle file given, the second input is `-c`.
   */
  lemma SoftOnlyInputs(video: string, output: string, srt: Option<FileArg>, dubbed: Option<FileArg>,
                       bgMusic: Option<FileArg>, tag: string, name: string, hardcode: bool)
    requires !Present(dubbed) && !(hardcode && srt.Some?)
    requires video != "" && video != "-i" && PathOf(srt) != "-i" && output != "-i"
    ensures Inputs(CommandFor(video, output, srt, dubbed, bgMusic, tag, name, hardcode))
            == [video, if srt.Some? then PathOf(srt) else "-c"]
  {
    var start := ["ffmpeg", "-y", "-i", video];
    var second := if srt.Some? then PathOf(srt) else "-c";
    var meta := SubtitleMetadata(tag, name) + [output];
    var rest := (if srt.Some? then ["-c", "copy"] else ["copy"]) + meta;
    assert CommandFor(video, output, srt, dubbed, bgMusic, tag, name, hardcode) == start + (["-i", second] + rest) by {
      if srt.None? {
        SoftWithoutSubtitles(video, output, dubbed, bgMusic, tag, name, hardcode);
      }
    }
    assert "-i" !in rest by {
      assert "-i" !in SubtitleMetadata(tag, name);
    }
    StartInputs(video);
    InputsTail(start, second, rest);
  }

  /** A `-i` pair between arguments that name no input. */
  lemma InputsTail(start: seq<string>, second: string, rest: seq<string>)
    requires |start| > 0 && start[|start| - 1] != "-i" && "-i" !in rest && second != "-i"
    ensures Inputs(start + (["-i", second] + rest)) == Inputs(start) + [second]
  {
    NoInputs(rest);
    InputPair(second);
    InputsConcat(["-i", second], rest);
    InputsConcat(start, ["-i", second] + rest);
  }

  /**
   * Softcoding without dubbing as evidently intended: without a subtitle
   * file, both the `-i` and the empty path are left out.
   */
  function IntendedSoftCommand(video: string, output: string, srt: Option<FileArg>, tag: string, name: string)
    : seq<string>
  {
    ["ffmpeg", "-y", "-i", video] + Opt(srt.Some?, ["-i", PathOf(srt)]) + ["-c", "copy"]
    + SubtitleMetadata(tag, name) + [output]
  }

  /**
   * The intended list reads exactly the video and the subtitle file when one
   * is given, and it agrees with the list as written whenever a subtitle
   * file is given.
   */
  lemma IntendedSoftInputs(video: string, output: string, srt: Option<FileArg>, dubbed: Option<FileArg>,
                           bgMusic: Option<FileArg>, tag: string, name: string)
    requires video != "-i" && PathOf(srt) != "-i" && output != "-i"
    ensures Inputs(IntendedSoftCommand(video, output, srt, tag, name)) == [video] + Opt(srt.Some?, [PathOf(srt)])
    ensures srt.Some? && !Present(dubbed) ==>
      IntendedSoftCommand(video, output, srt, tag, name) == CommandFor(video, output, srt, dubbed, bgMusic, tag, name, false)
  {
    IntendedInputs(video, output, srt, tag, name);
    if srt.Some? && !Present(dubbed) {
      IntendedAgrees(video, output, srt, dubbed, bgMusic, tag, name);
    }
  }

  lemma IntendedInputs(video: string, output: string, srt: Option<FileArg>, tag: string, name: string)
    requires video != "-i" && PathOf(srt) != "-i" && output != "-i"
    ensures Inputs(IntendedSoftCommand(video, output, srt, tag, name)) == [video] + Opt(srt.Some?, [PathOf(srt)])
  {
    var start := ["ffmpeg", "-y", "-i", video];
    var rest := ["-c", "copy"] + SubtitleMetadata(tag, name) + [output];
    assert "-i" !in rest by {
      assert "-i" !in SubtitleMetadata(tag, name);
    }
    StartInputs(video);
    if srt.Some? {
      assert IntendedSoftCommand(video, output, srt, tag, name) == start + (["-i", PathOf(srt)] + rest);
      InputsTail(start, PathOf(srt), rest);
    } else {
      assert IntendedSoftCommand(video, output, srt, tag, name) == start + rest;
      NoInputs(rest);
      InputsConcat(start, rest);
    }
  }

  lemma IntendedAgrees(video: string, output: string, srt: Option<FileArg>, dubbed: Option<FileArg>,
                       bgMusic: Option<FileArg>, tag: string, name: string)
    requires srt.Some? && !Present(dubbed)
    ensures IntendedSoftCommand(video, output, srt, tag, name) == CommandFor(video, output, srt, dubbed, bgMusic, tag, name, false)
  {
  }

  /**
   * Both dubbing branches: the codec arguments follow the streams, with
   * `-crf 22` when burning subtitles in and `-crf copy` otherwise.
   */
  lemma DubbingCodecs(video: string, output: string, srt: Option<FileArg>, dubbed: Option<FileArg>,
                      bgMusic: Option<FileArg>, tag: string, name: string, hardcode: bool)
    requires Present(dubbed)
    ensures var cmd := CommandFor(video, output, srt, dubbed, bgMusic, tag, name, hardcode);
      var n := |DubbingStreams(video, srt, dubbed.value, bgMusic, hardcode)|;
      n + 6 <= |cmd| && cmd[n..n + 6] == ["-c:v", "libx264", "-preset", "veryfast", "-crf", if hardcode then "22" else "copy"]
  {
    var streams := DubbingStreams(video, srt, dubbed.value, bgMusic, hardcode);
    var tail := DubbingTail(srt, tag, name, output, hardcode);
    DubbingCommand(video, output, srt, dubbed, bgMusic, tag, name, hardcode);
    TailStarts(srt, tag, name, output, hardcode);
    SuffixSlice(streams, tail, 6);
  }

  /** The tail of a dubbing command opens with the video codec arguments. */
  lemma TailStarts(srt: Option<FileArg>, tag: string, name: string, output: string, hardcode: bool)
    ensures var tail := DubbingTail(srt, tag, name, output, hardcode);
      |tail| >= 6 && tail[..6] == ["-c:v", "libx264", "-preset", "veryfast", "-crf", if hardcode then "22" else "copy"]
  {
    var c := Codecs(hardcode);
    var rest := Opt(!hardcode && srt.Some?, SubtitleMetadata(tag, name)) + ["-metadata:s:a:0", "language=" + tag, output];
    assert DubbingTail(srt, tag, name, output, hardcode) == c + rest;
    PrefixSlice(c, rest, 0, 6);
  }

  /** The first elements of the second part of a concatenation. */
  lemma SuffixSlice(a: seq<string>, b: seq<string>, n: nat)
    requires n <= |b|
    ensures |a| + n <= |a + b| && (a + b)[|a|..|a| + n] == b[..n]
  {
  }

  /**
   * Dubbing with background music: the fixed mixing filter follows the
   * inputs, and the mixed stream `[a]` is mapped as the audio after the
   * burn filter, if any.
   */
  lemma MixedLayout(video: string, srt: Option<FileArg>, dubbed: FileArg, bgMusic: Option<FileArg>, hardcode: bool)
    requires Present(bgMusic)
    ensures var streams := DubbingStreams(video, srt, dubbed, bgMusic, hardcode);
      var i := if !hardcode && Present(srt) then 10 else 8;
      var j := i + 2 + (if hardcode && srt.Some? then 2 else 0);
      j + 4 <= |streams| && streams[i..i + 2] == ["-filter_complex", MixFilter]
      && streams[j..j + 4] == ["-map", "0:v:0", "-map", "[a]"]
  {
    var soft := !hardcode && Present(srt);
    var burn := hardcode && srt.Some?;
    var head := DubbingHead(video, dubbed, bgMusic);
    var input := Opt(soft, ["-i", PathOf(srt)]);
    var mix := ["-filter_complex", MixFilter];
    var mid := MiddleArgs(srt, true, soft, burn);
    var maps := StreamMaps(true, soft);
    var streams := DubbingStreams(video, srt, dubbed, bgMusic, hardcode);
    assert |head| == 8;
    assert mid == input + mix + Opt(burn, BurnFilter(PathOf(srt)));
    var i := 8 + |input|;
    assert mid[|input|] == mix[0] && mid[|input| + 1] == mix[1];
    PartsAt(head, mid, maps, |input|);
    assert streams[i..i + 2] == mix;
    assert maps[..4] == ["-map", "0:v:0", "-map", "[a]"];
  }

  /** Where the middle part and the last part of a concatenation sit. */
  lemma PartsAt(head: seq<string>, mid: seq<string>, maps: seq<string>, k: nat)
    requires k + 2 <= |mid| && |maps| >= 4
    ensures var all := head + mid + maps;
      && all[|head| + k] == mid[k] && all[|head| + k + 1] == mid[k + 1]
      && all[|head| + |mid|..|head| + |mid| + 4] == maps[..4]
  {
  }
}
