/**
 * The names of the files a run produces next to the video: `pathlib`'s
 * `stem`, `suffix`, `with_suffix` and `with_name` on a path split into its
 * parent directory and final component.
 */
module FileService {
  import opened Wrappers
  import opened Text

  /** A path as its parent directory and its final component (`name`). */
  datatype FilePath = FilePath(dir: string, name: string)

  /** The index of the last dot of `s`, or -1 when it has none. */
  function LastDot(s: string): (i: int)
    ensures -1 <= i < |s|
    ensures i >= 0 ==> s[i] == '.'
    ensures forall j :: i < j < |s| ==> s[j] != '.'
    decreases |s|
  {
    if |s| == 0 then -1
    else if s[|s| - 1] == '.' then |s| - 1
    else LastDot(s[..|s| - 1])
  }

  /** Whether the name has a suffix: a last dot that neither starts nor ends it. */
  predicate HasSuffix(name: string)
  {
    0 < LastDot(name) < |name| - 1
  }

  /** `PurePath.suffix`: from the last dot on, when there is a suffix; empty otherwise. */
  function Suffix(name: string): (r: string)
    ensures HasSuffix(name) ==> |r| >= 2 && r[0] == '.' && '.' !in r[1..]
    ensures !HasSuffix(name) ==> r == ""
  {
    if HasSuffix(name) then
      var r := name[LastDot(name)..];
      assert forall j :: 1 <= j < |r| ==> r[j] == name[LastDot(name) + j];
      r
    else ""
  }

  /** `PurePath.stem`: the name without its suffix. */
  function Stem(name: string): string
  {
    if HasSuffix(name) then name[..LastDot(name)] else name
  }

  /** A name is its stem followed by its suffix. */
  lemma StemSuffix(name: string)
    ensures Stem(name) + Suffix(name) == name
  {
  }

  /** `with_suffix`: the name's suffix replaced; None for a path without a name (ValueError). */
  function WithSuffix(p: FilePath, suffix: string): (r: Option<FilePath>)
    ensures p.name == "" <==> r.None?
    ensures r.Some? ==> r.value.dir == p.dir && r.value.name == Stem(p.name) + suffix
  {
    if p.name == "" then None else Some(FilePath(p.dir, Stem(p.name) + suffix))
  }

  /** `with_name`: the final component replaced; None when the path has no name or the new one is invalid. */
  function WithName(p: FilePath, name: string): (r: Option<FilePath>)
    ensures r.Some? <==> p.name != "" && name != "" && name != "." && '/' !in name
    ensures r.Some? ==> r.value == FilePath(p.dir, name)
  {
    if p.name == "" || name == "" || name == "." || '/' in name then None
    else Some(FilePath(p.dir, name))
  }

  /** The seven paths of a run. */
  datatype OutputPaths = OutputPaths(
    audio: FilePath,
    srtOriginal: FilePath,
    srtTranslated: FilePath,
    dubbedAudio: FilePath,
    outputVideo: FilePath,
    subtitleVideo: FilePath,
    bgMusic: FilePath)

  /**
   * `get_output_paths`: the audio track and the original subtitles replace the
   * video's suffix; the others are named from its stem, with the target
   * language in the translated subtitles and the dubbed audio. None where
   * `pathlib` raises.
   */
  function GetOutputPaths(video: FilePath, lang: string): Option<OutputPaths>
  {
    var stem := Stem(video.name);
    var audio := WithSuffix(video, ".wav");
    var srtOriginal := WithSuffix(video, ".srt");
    var srtTranslated := WithName(video, stem + "_" + lang + ".srt");
    var dubbedAudio := WithName(video, stem + "_" + lang + "_dubbed.wav");
    var outputVideo := WithName(video, stem + "_dubbed.mp4");
    var subtitleVideo := WithName(video, stem + "_vostfr.mp4");
    var bgMusic := WithName(video, stem + "_bg.wav");
    if audio.Some? && srtOriginal.Some? && srtTranslated.Some? && dubbedAudio.Some?
       && outputVideo.Some? && subtitleVideo.Some? && bgMusic.Some? then
      Some(OutputPaths(audio.value, srtOriginal.value, srtTranslated.value, dubbedAudio.value,
                       outputVideo.value, subtitleVideo.value, bgMusic.value))
    else None
  }

  /** The paths are defined exactly when the video path has a name and the language holds no slash. */
  lemma OutputPathsDefined(video: FilePath, lang: string)
    requires ValidName(video)
    ensures GetOutputPaths(video, lang).Some? <==> video.name != "" && '/' !in lang
  {
    LanguageName(video, lang, ".srt");
    LanguageName(video, lang, "_dubbed.wav");
    FixedName(video, "_dubbed.mp4");
    FixedName(video, "_vostfr.mp4");
    FixedName(video, "_bg.wav");
  }

  /** A name carrying the language after the stem is accepted exactly when the language holds no slash. */
  lemma LanguageName(video: FilePath, lang: string, tail: string)
    requires ValidName(video) && '/' !in tail
    ensures WithName(video, Stem(video.name) + "_" + lang + tail).Some? <==> video.name != "" && '/' !in lang
  {
    NoSlashInStem(video);
    NamedAfterStem(Stem(video.name), lang, tail);
  }

  /** A name made of the stem and a fixed tail is accepted whenever the video path has a name. */
  lemma FixedName(video: FilePath, tail: string)
    requires ValidName(video) && '/' !in tail && |tail| >= 2 && tail[0] == '_'
    ensures WithName(video, Stem(video.name) + tail).Some? <==> video.name != ""
  {
    NoSlashInStem(video);
    var stem := Stem(video.name);
    var n := stem + tail;
    assert n[|stem|] == '_';
    assert forall c :: c in n ==> c in stem || c in tail;
  }

  /** A name built as stem, underscore, language and tail is valid exactly when the language holds no slash. */
  lemma NamedAfterStem(stem: string, lang: string, tail: string)
    requires '/' !in stem && '/' !in tail
    ensures var n := stem + "_" + lang + tail;
      n != "" && n != "." && ('/' in n <==> '/' in lang)
  {
    var n := stem + "_" + lang + tail;
    assert n[|stem|] == '_';
    assert forall j :: 0 <= j < |lang| ==> n[|stem| + 1 + j] == lang[j];
    assert forall c :: c in n ==> c in stem || c == '_' || c in lang || c in tail;
  }

  /** A final path component holds no slash: what every `pathlib` path's name satisfies. */
  predicate ValidName(p: FilePath)
  {
    '/' !in p.name
  }

  lemma NoSlashInStem(p: FilePath)
    requires ValidName(p)
    ensures '/' !in Stem(p.name)
  {
    if HasSuffix(p.name) {
      assert forall c :: c in p.name[..LastDot(p.name)] ==> c in p.name;
    }
  }

  /**
   * The paths of a run: all in the video's directory; the audio and the
   * original subtitles are the video with suffix `.wav` and `.srt`; the
   * translated subtitles and the dubbed audio carry the language after the
   * stem; the other three do not depend on the language.
   */
  lemma OutputPathNames(video: FilePath, lang: string, other: string)
    requires ValidName(video)
    requires GetOutputPaths(video, lang).Some? && GetOutputPaths(video, other).Some?
    ensures var r := GetOutputPaths(video, lang).value;
      && r.audio.dir == video.dir && r.srtOriginal.dir == video.dir && r.srtTranslated.dir == video.dir
      && r.dubbedAudio.dir == video.dir && r.outputVideo.dir == video.dir
      && r.subtitleVideo.dir == video.dir && r.bgMusic.dir == video.dir
      && r.audio.name == Stem(video.name) + ".wav" && r.srtOriginal.name == Stem(video.name) + ".srt"
      && r.srtTranslated.name == Stem(video.name) + "_" + lang + ".srt"
      && r.dubbedAudio.name == Stem(video.name) + "_" + lang + "_dubbed.wav"
      && r.outputVideo.name == Stem(video.name) + "_dubbed.mp4"
      && r.subtitleVideo.name == Stem(video.name) + "_vostfr.mp4"
      && r.bgMusic.name == Stem(video.name) + "_bg.wav"
    ensures var r := GetOutputPaths(video, lang).value;
      var s := GetOutputPaths(video, other).value;
      r.outputVideo == s.outputVideo && r.subtitleVideo == s.subtitleVideo && r.bgMusic == s.bgMusic
  {
  }
}
