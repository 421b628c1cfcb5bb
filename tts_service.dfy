/**
 * The voice roster of the speech service: voices of a language, voices of a
 * gender, display labels, and the comma-separated speaker list handed to the
 * synthesiser.
 */
module TtsService {
  import opened Wrappers
  import opened Text
  import opened Seqs

  /** A roster entry as a dictionary: `gender` and `label` may be missing. */
  datatype VoiceInfo = VoiceInfo(gender: Option<string>, displayLabel: Option<string>)

  /** The roster the application configures, in dictionary order. */
  const ConfiguredVoices: seq<(string, VoiceInfo)> := [
    ("fr-FR-DeniseNeural", VoiceInfo(Some("female"), Some("Denise (FR)"))),
    ("fr-FR-HenriNeural", VoiceInfo(Some("male"), Some("Henri (FR)"))),
    ("fr-FR-EloiseNeural", VoiceInfo(Some("female"), Some("Eloise (FR)"))),
    ("en-US-AriaNeural", VoiceInfo(Some("female"), Some("Aria (US)"))),
    ("en-US-GuyNeural", VoiceInfo(Some("male"), Some("Guy (US)"))),
    ("en-US-JennyNeural", VoiceInfo(Some("female"), Some("Jenny (US)"))),
    ("ja-JP-NanamiNeural", VoiceInfo(Some("female"), Some("Nanami (JP)"))),
    ("ja-JP-KeitaNeural", VoiceInfo(Some("male"), Some("Keita (JP)")))
  ]

  /** The voices used when nothing matches the language. */
  const FallbackVoices: seq<string> := ["fr-FR-DeniseNeural", "fr-FR-HenriNeural"]

  /** The names that start with `prefix`, in roster order. */
  function WithPrefix(names: seq<string>, prefix: string): seq<string>
  {
    Filter((v: string) => StartsWith(v, prefix), names)
  }

  /** A name starting with a longer prefix also starts with each of its prefixes. */
  lemma PrefixOfPrefix(v: string, p: string, q: string)
    requires StartsWith(v, p + q)
    ensures StartsWith(v, p)
  {
    assert v[..|p|] == (v[..|p + q|])[..|p|];
  }

  /**
   * The retry with `zh-CN` or `en-US` after nothing started with `zh` or `en`
   * can find nothing either: those codes are prefixes of the retried ones.
   */
  lemma RetryFindsNothing(names: seq<string>, lang: string, region: string)
    requires WithPrefix(names, lang) == []
    ensures WithPrefix(names, lang + region) == []
  {
    FilterEmpty((v: string) => StartsWith(v, lang), names);
    forall k | 0 <= k < |names|
      ensures !StartsWith(names[k], lang + region)
    {
      if StartsWith(names[k], lang + region) {
        PrefixOfPrefix(names[k], lang, region);
      }
    }
    FilterEmpty((v: string) => StartsWith(v, lang + region), names);
  }

  /**
   * `get_target_voices`: the roster names that start with the language code,
   * with a retry on `zh-CN` for `zh` and on `en-US` for `en`, and the two
   * French voices when nothing is found. The result is never empty, and it is
   * the names with the language's prefix whenever there is one.
   */
  function TargetVoices(roster: seq<(string, VoiceInfo)>, lang: string): (r: seq<string>)
    ensures |r| > 0
    ensures WithPrefix(Keys(roster), lang) != [] ==> r == WithPrefix(Keys(roster), lang)
    ensures WithPrefix(Keys(roster), lang) == [] ==> r == FallbackVoices
  {
    var names := Keys(roster);
    var first := WithPrefix(names, lang);
    if first != [] then first
    else
      var retried :=
        if lang == "zh" then WithPrefix(names, "zh-CN")
        else if lang == "en" then WithPrefix(names, "en-US")
        else first;
      RegionalRetry(names, lang);
      if retried == [] then FallbackVoices else retried
  }

  /** For `zh` and `en` the regional retry finds nothing when the plain code found nothing. */
  lemma RegionalRetry(names: seq<string>, lang: string)
    requires WithPrefix(names, lang) == []
    ensures lang == "zh" ==> WithPrefix(names, "zh-CN") == []
    ensures lang == "en" ==> WithPrefix(names, "en-US") == []
  {
    if lang == "zh" {
      RetryFindsNothing(names, "zh", "-CN");
      assert "zh" + "-CN" == "zh-CN";
    } else if lang == "en" {
      RetryFindsNothing(names, "en", "-US");
      assert "en" + "-US" == "en-US";
    }
  }

  /** Every voice offered for a language is a roster name starting with it, or one of the fallbacks. */
  lemma TargetVoicesMembers(roster: seq<(string, VoiceInfo)>, lang: string, v: string)
    requires v in TargetVoices(roster, lang)
    ensures (v in Keys(roster) && StartsWith(v, lang)) || v in FallbackVoices
  {
    FilterMembers((v: string) => StartsWith(v, lang), Keys(roster), v);
  }

  /** The entries of the roster whose `gender` equals `g`. */
  function WithGender(roster: seq<(string, VoiceInfo)>, g: string): seq<(string, VoiceInfo)>
  {
    Filter((e: (string, VoiceInfo)) => e.1.gender == Some(g), roster)
  }

  /**
   * `get_voices_by_gender`: the names whose gender is `g`, in roster order;
   * None where an entry has no `gender` key and the comprehension raises.
   */
  function VoicesByGender(roster: seq<(string, VoiceInfo)>, g: string): (r: Option<seq<string>>)
    ensures r.Some? <==> forall k :: 0 <= k < |roster| ==> roster[k].1.gender.Some?
    ensures r.Some? ==> r.value == Keys(WithGender(roster, g))
  {
    if forall k :: 0 <= k < |roster| ==> roster[k].1.gender.Some? then Some(Keys(WithGender(roster, g)))
    else None
  }

  /** A name is offered for a gender exactly when a roster entry with that name has that gender. */
  lemma VoicesByGenderMembers(roster: seq<(string, VoiceInfo)>, g: string, v: string)
    requires VoicesByGender(roster, g).Some?
    ensures v in VoicesByGender(roster, g).value <==> exists info :: (v, info) in roster && info.gender == Some(g)
  {
    var chosen := WithGender(roster, g);
    var p := (e: (string, VoiceInfo)) => e.1.gender == Some(g);
    if v in Keys(chosen) {
      var k :| 0 <= k < |chosen| && Keys(chosen)[k] == v;
      FilterMembers(p, roster, chosen[k]);
    }
    if exists info :: (v, info) in roster && info.gender == Some(g) {
      var info :| (v, info) in roster && info.gender == Some(g);
      FilterMembers(p, roster, (v, info));
      var k :| 0 <= k < |chosen| && chosen[k] == (v, info);
      assert Keys(chosen)[k] == v;
    }
  }

  /** `get_voice_label`: the entry's `label`, or the name itself when there is no entry or no label. */
  function VoiceLabel(roster: seq<(string, VoiceInfo)>, name: string): (r: string)
    ensures Lookup(roster, name).Some? && Lookup(roster, name).value.displayLabel.Some? ==>
      r == Lookup(roster, name).value.displayLabel.value
    ensures Lookup(roster, name).None? || Lookup(roster, name).value.displayLabel.None? ==> r == name
  {
    match Lookup(roster, name)
    case None => name
    case Some(info) =>
      match info.displayLabel
      case None => name
      case Some(l) => l
  }

  /**
   * `build_speakers_argument`: with diarization, the selected voice followed by
   * the other voices without any copy of it, joined by commas; otherwise the
   * selected voice alone.
   */
  function SpeakersArgument(selected: string, all: seq<string>, diarization: bool): (r: string)
    ensures !diarization ==> r == selected
  {
    if diarization then Join([selected] + Filter((v: string) => v != selected, all), ",")
    else selected
  }

  /**
   * With diarization, splitting the argument at commas gives the selected
   * voice first and then every other voice once per occurrence, in order,
   * the selected one never again; voice names hold no comma.
   */
  lemma SpeakersArgumentSplits(selected: string, all: seq<string>)
    requires ',' !in selected && forall k :: 0 <= k < |all| ==> ',' !in all[k]
    ensures var parts := Split(SpeakersArgument(selected, all, true), ',');
      && parts == [selected] + Filter((v: string) => v != selected, all)
      && selected !in parts[1..]
  {
    var p := (v: string) => v != selected;
    var others := Filter(p, all);
    var parts := [selected] + others;
    forall k | 0 <= k < |parts| ensures ',' !in parts[k] {
      if k > 0 {
        FilterMembers(p, all, parts[k]);
      }
    }
    SplitJoin(parts, ',');
    assert parts[1..] == others;
    FilterMembers(p, all, selected);
  }
}
