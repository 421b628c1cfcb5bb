/**
 * The language tables: the source languages of transcription with their
 * recogniser codes, the target languages of translation, their display
 * strings, and the system prompt the translator is given.
 */
module Languages {
  import opened Wrappers
  import opened Text
  import opened Seqs

  /** How a language is shown: its name and its flag. */
  datatype Language = Language(name: string, emoji: string)

  /** A source language: how it is shown and the code passed to the recogniser (None to let it detect). */
  datatype SourceLanguage = SourceLanguage(shown: Language, whisperCode: Option<string>)

  const WhisperLanguages: seq<(string, SourceLanguage)> := [
    ("ja", SourceLanguage(Language("Japonais", "🇯🇵"), Some("ja"))),
    ("en", SourceLanguage(Language("Anglais", "🇬🇧"), Some("en"))),
    ("zh", SourceLanguage(Language("Chinois", "🇨🇳"), Some("zh"))),
    ("ko", SourceLanguage(Language("Coréen", "🇰🇷"), Some("ko"))),
    ("es", SourceLanguage(Language("Espagnol", "🇪🇸"), Some("es"))),
    ("de", SourceLanguage(Language("Allemand", "🇩🇪"), Some("de"))),
    ("it", SourceLanguage(Language("Italien", "🇮🇹"), Some("it"))),
    ("pt", SourceLanguage(Language("Portugais", "🇵🇹"), Some("pt"))),
    ("ru", SourceLanguage(Language("Russe", "🇷🇺"), Some("ru"))),
    ("ar", SourceLanguage(Language("Arabe", "🇸🇦"), Some("ar"))),
    ("hi", SourceLanguage(Language("Hindi", "🇮🇳"), Some("hi"))),
    ("th", SourceLanguage(Language("Thaï", "🇹🇭"), Some("th"))),
    ("vi", SourceLanguage(Language("Vietnamien", "🇻🇳"), Some("vi"))),
    ("id", SourceLanguage(Language("Indonésien", "🇮🇩"), Some("id"))),
    ("auto", SourceLanguage(Language("Auto-détection", "🔍"), None))
  ]

  const TargetLanguages: seq<(string, Language)> := [
    ("fr", Language("Français", "🇫🇷")),
    ("en", Language("Anglais", "🇬🇧")),
    ("es", Language("Espagnol", "🇪🇸")),
    ("de", Language("Allemand", "🇩🇪")),
    ("it", Language("Italien", "🇮🇹")),
    ("pt", Language("Portugais", "🇵🇹")),
    ("zh", Language("Chinois simplifié", "🇨🇳")),
    ("ja", Language("Japonais", "🇯🇵")),
    ("ko", Language("Coréen", "🇰🇷")),
    ("ru", Language("Russe", "🇷🇺")),
    ("ar", Language("Arabe", "🇸🇦")),
    ("hi", Language("Hindi", "🇮🇳")),
    ("nl", Language("Néerlandais", "🇳🇱")),
    ("pl", Language("Polonais", "🇵🇱")),
    ("tr", Language("Turc", "🇹🇷"))
  ]

  /** The source table as the display function reads it: code and how it is shown. */
  function SourceShown(): (r: seq<(string, Language)>)
    ensures |r| == |WhisperLanguages|
    ensures forall k :: 0 <= k < |r| ==> r[k] == (WhisperLanguages[k].0, WhisperLanguages[k].1.shown)
  {
    seq(|WhisperLanguages|, k requires 0 <= k < |WhisperLanguages| =>
      (WhisperLanguages[k].0, WhisperLanguages[k].1.shown))
  }

  /** `get_language_display`: flag, a space and name for a code of the table; the code itself otherwise. */
  function Display(code: string, table: seq<(string, Language)>): (r: string)
    ensures Lookup(table, code).None? ==> r == code
    ensures Lookup(table, code).Some? ==>
      r == Lookup(table, code).value.emoji + " " + Lookup(table, code).value.name
  {
    match Lookup(table, code)
    case None => code
    case Some(lang) => lang.emoji + " " + lang.name
  }

  /**
   * `get_whisper_code`: the table's recogniser code for a known code (None
   * for automatic detection), and the code itself for an unknown one.
   */
  function WhisperCode(code: string): (r: Option<string>)
    ensures Lookup(WhisperLanguages, code).None? ==> r == Some(code)
    ensures Lookup(WhisperLanguages, code).Some? ==> r == Lookup(WhisperLanguages, code).value.whisperCode
  {
    match Lookup(WhisperLanguages, code)
    case None => Some(code)
    case Some(entry) => entry.whisperCode
  }

  const AnimeContext: string := "Tu es un expert en traduction de sous-titres d'anime."
  const KDramaContext: string := "Tu es un expert en traduction de sous-titres de dramas coréens (K-drama)."
  const CDramaContext: string := "Tu es un expert en traduction de sous-titres de dramas chinois (C-drama)."
  const FilmContext: string := "Tu es un expert en traduction de sous-titres de films et séries."

  /** The kind of material the source language suggests. */
  function Context(source: string): (r: string)
    ensures source == "ja" <==> r == AnimeContext
    ensures source == "ko" <==> r == KDramaContext
    ensures source == "zh" <==> r == CDramaContext
    ensures source !in {"ja", "ko", "zh"} <==> r == FilmContext
  {
    assert |AnimeContext| == 53 && |KDramaContext| == 73 && |CDramaContext| == 73 && |FilmContext| == 64;
    assert KDramaContext[56] != CDramaContext[56];
    if source == "ja" then AnimeContext
    else if source == "ko" then KDramaContext
    else if source == "zh" then CDramaContext
    else FilmContext
  }

  /** A language's name from a table, or the code itself when the table lacks it. */
  function NameOr<V>(table: seq<(string, V)>, code: string, name: V -> string): (r: string)
    ensures Lookup(table, code).None? ==> r == code
    ensures Lookup(table, code).Some? ==> r == name(Lookup(table, code).value)
  {
    match Lookup(table, code)
    case None => code
    case Some(v) => name(v)
  }

  /**
   * `get_translation_prompt`: the context line chosen by the source language,
   * then the instruction naming both languages, then the fixed rules.
   */
  function TranslationPrompt(source: string, target: string): string
  {
    var sourceName := NameOr(WhisperLanguages, source, (e: SourceLanguage) => e.shown.name);
    var targetName := NameOr(TargetLanguages, target, (l: Language) => l.name);
    Context(source) + "\n" + Instruction(sourceName, targetName)
  }

  /** The prompt opens with the context line the source language selects. */
  lemma PromptOpensWithContext(source: string, target: string)
    ensures StartsWith(TranslationPrompt(source, target), Context(source) + "\n")
  {
    var sourceName := NameOr(WhisperLanguages, source, (e: SourceLanguage) => e.shown.name);
    var targetName := NameOr(TargetLanguages, target, (l: Language) => l.name);
    HeadOfConcat(Context(source) + "\n", Instruction(sourceName, targetName));
  }

  lemma HeadOfConcat(head: string, rest: string)
    ensures StartsWith(head + rest, head)
  {
    assert (head + rest)[..|head|] == head;
  }

  /** Everything after the context line: the two language names and the rules. */
  function Instruction(sourceName: string, targetName: string): string
  {
    "Traduis le texte suivant du " + sourceName + " vers le " + targetName + ".\n"
    + "Règles importantes:\n"
    + "- Garde le ton et le style du dialogue original\n"
    + "- Adapte les expressions idiomatiques naturellement\n"
    + "- Préserve les noms propres et les termes culturels importants\n"
    + "- Réponds uniquement avec la traduction, sans guillemets ni explications."
  }

  /** `get_source_language_options` and `get_target_language_options`: each code with its display, in table order. */
  function Options(table: seq<(string, Language)>): (r: seq<(string, string)>)
    ensures |r| == |table|
    ensures forall k :: 0 <= k < |r| ==> r[k].0 == table[k].0
  {
    seq(|table|, k requires 0 <= k < |table| => (table[k].0, Display(table[k].0, table)))
  }

  function SourceOptions(): seq<(string, string)>
  {
    Options(SourceShown())
  }

  function TargetOptions(): seq<(string, string)>
  {
    Options(TargetLanguages)
  }

  /** In a table with distinct codes, each option shows its own entry's flag and name. */
  lemma OptionsShowEntries(table: seq<(string, Language)>, k: nat)
    requires forall i, j :: 0 <= i < j < |table| ==> table[i].0 != table[j].0
    requires k < |table|
    ensures Options(table)[k] == (table[k].0, table[k].1.emoji + " " + table[k].1.name)
  {
    var code := table[k].0;
    var i :| 0 <= i < |table| && table[i] == (code, Lookup(table, code).value);
    assert i == k;
  }
}
