/**
 * Subtitle translation with the cache in front of the translation API. The
 * API is a parameter: a function from the source language, the target
 * language and the text to the reply of the chat model, which may be an
 * exception. The system prompt it is sent is `Languages.TranslationPrompt`
 * of the two languages, so the pair stands for it.
 */
module Translate {
  import opened Wrappers
  import opened Text
  import opened TranslationCache
  import SrtUtils

  /** What the chat API gives back: an exception, or a message whose content may be None. */
  datatype ApiReply = Raised | Reply(content: Option<string>)

  /**
   * A cache hit that `translate_text` accepts: a stored value that is truthy
   * (every dictionary entry; a string only when non-empty), with the
   * translation it yields.
   */
  function Hit(v: Option<Value>): (r: Option<string>)
    ensures r.Some? <==> v.Some? && (v.value.Entry? || v.value.s != "")
    ensures r.Some? && v.value.Entry? ==> r.value == v.value.translation
    ensures r.Some? && v.value.Plain? ==> r.value == v.value.s
  {
    match v
    case None => None
    case Some(Entry(_, translation, _, _)) => Some(translation)
    case Some(Plain(s)) => if s != "" then Some(s) else None
  }

  /** The translation taken from a reply: the stripped content, or the text itself when there is none. */
  function FromReply(text: string, reply: ApiReply): (r: string)
    ensures reply.Raised? ==> r == text
    ensures reply.Reply? && (reply.content == None || reply.content == Some("")) ==> r == text
    ensures reply.Reply? && reply.content.Some? && reply.content.value != "" ==> r == Strip(reply.content.value)
  {
    match reply
    case Raised => text
    case Reply(content) =>
      if content.Some? && content.value != "" then Strip(content.value) else text
  }

  /** One call of `translate_text`: what it returns, the cache file after it, and whether the cache answered. */
  datatype Step = Step(translation: string, file: FileState, fromCache: bool)

  /**
   * `translate_text`: a truthy cache hit is returned without calling the API;
   * otherwise the API's reply is used, and stored, unless the API raised, in
   * which case the text comes back unchanged and nothing is stored.
   */
  function TextStep(f: FileState, writable: bool, hash: string -> string,
                    api: (string, string, string) -> ApiReply,
                    text: string, source: string, target: string): Step
  {
    var hit := Hit(Cached(Load(f), CacheKey(hash, text, source, target)));
    if hit.Some? then Step(hit.value, f, true)
    else
      var reply := api(source, target, text);
      if reply.Raised? then Step(text, f, false)
      else
        var translation := FromReply(text, reply);
        Step(translation, Put(f, writable, hash, text, translation, source, target), false)
  }

  /**
   * The three outcomes of `translate_text`: a truthy cache hit answers and
   * leaves the file alone; an exception gives back the text and stores
   * nothing; a reply gives its stripped content (or the text when it is
   * empty), which is stored under the request.
   */
  lemma TextStepCases(f: FileState, writable: bool, hash: string -> string,
                      api: (string, string, string) -> ApiReply, text: string, source: string, target: string)
    ensures var r := TextStep(f, writable, hash, api, text, source, target);
      var hit := Hit(Cached(Load(f), CacheKey(hash, text, source, target)));
      var reply := api(source, target, text);
      && (r.fromCache <==> hit.Some?)
      && (r.fromCache ==> r.file == f && r.translation == hit.value)
      && (!r.fromCache && reply.Raised? ==> r.file == f && r.translation == text)
      && (!r.fromCache && reply.Reply? ==>
            r.translation == FromReply(text, reply)
            && r.file == Put(f, writable, hash, text, r.translation, source, target))
  {
  }

  /** `translate_text` against the cache file. */
  method TranslateText(cache: CacheFile, hash: string -> string, api: (string, string, string) -> ApiReply,
                       text: string, source: string, target: string)
    returns (r: string)
    modifies cache
    ensures var s := TextStep(old(cache.state), cache.writable, hash, api, text, source, target);
      r == s.translation && cache.state == s.file
  {
    var cached := cache.GetCachedTranslation(hash, text, source, target);
    if cached.Some? && (cached.value.Entry? || cached.value.s != "") {
      r := if cached.value.Entry? then cached.value.translation else cached.value.s;
      return;
    }
    var reply := api(source, target, text);
    if reply.Raised? {
      r := text;
      return;
    }
    var content := reply.content;
    r := if content.Some? && content.value != "" then Strip(content.value) else text;
    cache.CacheTranslation(hash, text, r, source, target);
  }

  /**
   * A successful translation is found by the next identical request: it is
   * answered from the cache with the same translation, without touching the
   * file again.
   */
  lemma TranslateTwice(f: FileState, hash: string -> string, api: (string, string, string) -> ApiReply,
                       text: string, source: string, target: string)
    requires api(source, target, text).Reply?
    ensures var first := TextStep(f, true, hash, api, text, source, target);
      TextStep(first.file, true, hash, api, text, source, target) == Step(first.translation, first.file, true)
  {
    var first := TextStep(f, true, hash, api, text, source, target);
    if !first.fromCache {
      GetAfterPut(f, hash, text, first.translation, source, target);
    }
  }

  // ---------------------------------------------------------------------
  // translate_srt

  /** The text of a block: its lines after the index and the time line, joined by spaces. */
  function BlockText(block: seq<string>): string
    requires |block| >= 2
  {
    Join(block[2..], " ")
  }

  /** Blocks as `read_srt_blocks` yields them have an index line and a time line. */
  predicate Shaped(blocks: seq<seq<string>>)
  {
    forall k :: 0 <= k < |blocks| ==> |blocks[k]| >= 2
  }

  /** The translations produced, whether each came from the cache, the file afterwards, and the two counters. */
  datatype Outcome = Outcome(translations: seq<string>, hits: seq<bool>, file: FileState,
                             translated: nat, cached: nat)

  /** The number of cache answers among the steps. */
  function CountHits(hits: seq<bool>): nat
    decreases |hits|
  {
    if |hits| == 0 then 0 else CountHits(hits[..|hits| - 1]) + (if hits[|hits| - 1] then 1 else 0)
  }

  /** The texts of the blocks, in order. */
  function Texts(blocks: seq<seq<string>>): (r: seq<string>)
    requires Shaped(blocks)
    ensures |r| == |blocks|
    ensures forall k :: 0 <= k < |r| ==> r[k] == BlockText(blocks[k])
  {
    seq(|blocks|, k requires 0 <= k < |blocks| => BlockText(blocks[k]))
  }

  /** `translate_text` for one language pair, as a step from the cache file and a text. */
  function Stepper(writable: bool, hash: string -> string, api: (string, string, string) -> ApiReply,
                   source: string, target: string): (FileState, string) -> Step
  {
    (g: FileState, t: string) => TextStep(g, writable, hash, api, t, source, target)
  }

  /**
   * The first `n` texts, each taken by `step` with the cache file the
   * previous ones left. Every text is counted once, as a new translation or
   * as a cache answer.
   */
  function Fold(step: (FileState, string) -> Step, f: FileState, texts: seq<string>, n: nat): (o: Outcome)
    requires n <= |texts|
    ensures |o.translations| == n && |o.hits| == n
    ensures o.translated + o.cached == n
    decreases n
  {
    if n == 0 then Outcome([], [], f, 0, 0)
    else
      var o := Fold(step, f, texts, n - 1);
      var s := step(o.file, texts[n - 1]);
      Outcome(o.translations + [s.translation], o.hits + [s.fromCache], s.file,
              o.translated + (if s.fromCache then 0 else 1), o.cached + (if s.fromCache then 1 else 0))
  }

  /** `translate_srt` over its blocks: each block's text through `translate_text`, in order. */
  function TranslateBlocks(f: FileState, writable: bool, hash: string -> string,
                           api: (string, string, string) -> ApiReply, source: string, target: string,
                           blocks: seq<seq<string>>): Outcome
    requires Shaped(blocks)
  {
    Fold(Stepper(writable, hash, api, source, target), f, Texts(blocks), |blocks|)
  }

  /** The block written for a block: its index line, its time line and the translation. */
  function Written(block: seq<string>, translation: string): string
    requires |block| >= 2
  {
    block[0] + "\n" + block[1] + "\n" + translation
  }

  /** The first blocks written, one per translation, in order. */
  function WrittenBlocks(blocks: seq<seq<string>>, translations: seq<string>): (r: seq<string>)
    requires Shaped(blocks) && |translations| <= |blocks|
    ensures |r| == |translations|
    ensures forall k :: 0 <= k < |r| ==> r[k] == Written(blocks[k], translations[k])
  {
    seq(|translations|, k requires 0 <= k < |translations| => Written(blocks[k], translations[k]))
  }

  /** The output file: every block written, each followed by a blank line. */
  function Output(blocks: seq<seq<string>>, translations: seq<string>): string
    requires Shaped(blocks) && |translations| <= |blocks|
  {
    SrtUtils.Concat(WrittenBlocks(blocks, translations))
  }

  /**
   * `translate_srt`: reads the blocks, translates each one's text through the
   * cache, writes index, time line and translation, and counts new
   * translations and cache answers.
   */
  method TranslateSrt(cache: CacheFile, hash: string -> string, api: (string, string, string) -> ApiReply,
                      lines: seq<string>, source: string, target: string)
    returns (out: string, translatedCount: nat, cachedCount: nat)
    modifies cache
    ensures var blocks := SrtUtils.LongRuns(SrtUtils.Runs(lines));
      Shaped(blocks)
      && var o := TranslateBlocks(old(cache.state), cache.writable, hash, api, source, target, blocks);
      && out == Output(blocks, o.translations)
      && cache.state == o.file && translatedCount == o.translated && cachedCount == o.cached
  {
    var blocks := SrtUtils.ReadSrtBlocks(lines);
    forall k | 0 <= k < |blocks|
      ensures |blocks[k]| >= 2
    {
      SrtUtils.ReadBlocksShape(lines, k);
    }
    out, translatedCount, cachedCount := TranslateAll(cache, hash, api, blocks, source, target);
  }

  /** The block loop of `translate_srt`. */
  method TranslateAll(cache: CacheFile, hash: string -> string, api: (string, string, string) -> ApiReply,
                      blocks: seq<seq<string>>, source: string, target: string)
    returns (out: string, translatedCount: nat, cachedCount: nat)
    requires Shaped(blocks)
    modifies cache
    ensures var o := TranslateBlocks(old(cache.state), cache.writable, hash, api, source, target, blocks);
      && out == Output(blocks, o.translations)
      && cache.state == o.file && translatedCount == o.translated && cachedCount == o.cached
  {
    ghost var f0 := cache.state;
    ghost var step := Stepper(cache.writable, hash, api, source, target);
    ghost var texts := Texts(blocks);
    ghost var o := Fold(step, f0, texts, 0);
    out := "";
    translatedCount := 0;
    cachedCount := 0;
    for i := 0 to |blocks|
      invariant o == Fold(step, f0, texts, i)
      invariant cache.state == o.file && translatedCount == o.translated && cachedCount == o.cached
      invariant out == Output(blocks, o.translations)
    {
      ghost var before := cache.state;
      ghost var st: Step;
      out, translatedCount, cachedCount, st :=
        TranslateBlock(cache, hash, api, blocks[i], source, target, out, translatedCount, cachedCount);
      StepperApplies(cache.writable, hash, api, source, target, before, texts[i]);
      FoldNext(step, f0, texts, i);
      OutputSnoc(blocks, o.translations, st.translation);
      o := Fold(step, f0, texts, i + 1);
    }
  }

  /** The step is `translate_text` on the given file and text. */
  lemma StepperApplies(writable: bool, hash: string -> string, api: (string, string, string) -> ApiReply,
                       source: string, target: string, g: FileState, t: string)
    ensures Stepper(writable, hash, api, source, target)(g, t) == TextStep(g, writable, hash, api, t, source, target)
  {
  }

  /**
   * The loop body of `translate_srt` for one block: the cache is asked
   * whether it knows the text, the text is translated, the matching counter
   * goes up and the block is written.
   */
  method TranslateBlock(cache: CacheFile, hash: string -> string, api: (string, string, string) -> ApiReply,
                        block: seq<string>, source: string, target: string,
                        out: string, translatedCount: nat, cachedCount: nat)
    returns (out': string, translatedCount': nat, cachedCount': nat, ghost s: Step)
    requires |block| >= 2
    modifies cache
    ensures s == TextStep(old(cache.state), cache.writable, hash, api, BlockText(block), source, target)
    ensures cache.state == s.file
    ensures out' == out + Written(block, s.translation) + "\n\n"
    ensures translatedCount' == translatedCount + (if s.fromCache then 0 else 1)
    ensures cachedCount' == cachedCount + (if s.fromCache then 1 else 0)
  {
    s := TextStep(cache.state, cache.writable, hash, api, BlockText(block), source, target);
    var num := block[0];
    var times := block[1];
    var text := Join(block[2..], " ");
    var cached := cache.GetCachedTranslation(hash, text, source, target);
    var translated := TranslateText(cache, hash, api, text, source, target);
    translatedCount', cachedCount' := translatedCount, cachedCount;
    if cached.Some? && (cached.value.Entry? || cached.value.s != "") {
      cachedCount' := cachedCount + 1;
    } else {
      translatedCount' := translatedCount + 1;
    }
    out' := out + num + "\n" + times + "\n" + translated + "\n\n";
  }

  /** Writing one more block appends it, and a blank line, to the output. */
  lemma OutputSnoc(blocks: seq<seq<string>>, translations: seq<string>, t: string)
    requires Shaped(blocks) && |translations| < |blocks|
    ensures Output(blocks, translations + [t])
         == Output(blocks, translations) + Written(blocks[|translations|], t) + "\n\n"
  {
    var ws := WrittenBlocks(blocks, translations + [t]);
    assert ws[..|translations|] == WrittenBlocks(blocks, translations);
  }

  /** One more text adds one step on it to the fold. */
  lemma FoldNext(step: (FileState, string) -> Step, f: FileState, texts: seq<string>, n: nat)
    requires n < |texts|
    ensures var o := Fold(step, f, texts, n);
      var s := step(o.file, texts[n]);
      Fold(step, f, texts, n + 1)
        == Outcome(o.translations + [s.translation], o.hits + [s.fromCache], s.file,
                   o.translated + (if s.fromCache then 0 else 1), o.cached + (if s.fromCache then 1 else 0))
  {
  }

  lemma SnocPrefix<T>(xs: seq<T>, x: T, n: nat)
    requires n <= |xs|
    ensures (xs + [x])[..n] == xs[..n]
  {
  }

  /** The cache counter is the number of texts the cache answered. */
  lemma {:induction false} CachedCountsHits(step: (FileState, string) -> Step, f: FileState,
                                            texts: seq<string>, n: nat)
    requires n <= |texts|
    ensures Fold(step, f, texts, n).cached == CountHits(Fold(step, f, texts, n).hits)
    decreases n
  {
    if n > 0 {
      CachedCountsHits(step, f, texts, n - 1);
      var o := Fold(step, f, texts, n - 1);
      var s := step(o.file, texts[n - 1]);
      assert (o.hits + [s.fromCache])[..n - 1] == o.hits;
    }
  }

  /** Later texts do not change what earlier texts produced. */
  lemma {:induction false} FoldPrefix(step: (FileState, string) -> Step, f: FileState,
                                      texts: seq<string>, n: nat, m: nat)
    requires n <= m <= |texts|
    ensures Fold(step, f, texts, m).translations[..n] == Fold(step, f, texts, n).translations
    ensures Fold(step, f, texts, m).hits[..n] == Fold(step, f, texts, n).hits
    decreases m
  {
    if m > n {
      FoldPrefix(step, f, texts, n, m - 1);
      var o1 := Fold(step, f, texts, m - 1);
      var s := step(o1.file, texts[m - 1]);
      SnocPrefix(o1.translations, s.translation, n);
      SnocPrefix(o1.hits, s.fromCache, n);
    } else {
      var o := Fold(step, f, texts, n);
      assert o.translations[..n] == o.translations && o.hits[..n] == o.hits;
    }
  }

  /** What text `k` produced is the same in every fold that reaches it. */
  lemma FoldElement(step: (FileState, string) -> Step, f: FileState, texts: seq<string>, k: nat, n: nat, m: nat)
    requires k < n <= m <= |texts|
    ensures Fold(step, f, texts, m).translations[k] == Fold(step, f, texts, n).translations[k]
    ensures Fold(step, f, texts, m).hits[k] == Fold(step, f, texts, n).hits[k]
  {
    FoldPrefix(step, f, texts, n, m);
    var o' := Fold(step, f, texts, m);
    assert o'.translations[k] == o'.translations[..n][k];
    assert o'.hits[k] == o'.hits[..n][k];
  }

  /** Taking `text` leaves `key` answering with the translation just produced. */
  ghost predicate Stores(step: (FileState, string) -> Step, text: string, key: string)
  {
    forall g :: Hit(Cached(Load(step(g, text).file), key)) == Some(step(g, text).translation)
  }

  /** No text changes `key` while it answers. */
  ghost predicate KeepsHit(step: (FileState, string) -> Step, key: string)
  {
    forall g, t :: Hit(Cached(Load(g), key)).Some? ==> Cached(Load(step(g, t).file), key) == Cached(Load(g), key)
  }

  /** While `key` answers, taking `text` is answered from it. */
  ghost predicate Answers(step: (FileState, string) -> Step, text: string, key: string)
  {
    forall g :: Hit(Cached(Load(g), key)).Some? ==>
      step(g, text).fromCache && step(g, text).translation == Hit(Cached(Load(g), key)).value
  }

  /**
   * Once text `i` is taken by a step that stores it, its key keeps answering
   * with that translation through every later step.
   */
  lemma {:induction false} StaysCached(step: (FileState, string) -> Step, f: FileState,
                                       texts: seq<string>, key: string, i: nat, m: nat)
    requires i < m <= |texts|
    requires Stores(step, texts[i], key) && KeepsHit(step, key)
    ensures Hit(Cached(Load(Fold(step, f, texts, m).file), key)) == Some(Fold(step, f, texts, i + 1).translations[i])
    decreases m
  {
    var o := Fold(step, f, texts, m - 1);
    if m > i + 1 {
      StaysCached(step, f, texts, key, i, m - 1);
      assert Cached(Load(step(o.file, texts[m - 1]).file), key) == Cached(Load(o.file), key);
    }
  }

  /** Text `j`, equal to text `i`, is answered from the cache with text `i`'s translation. */
  lemma AnsweredAt(step: (FileState, string) -> Step, f: FileState, texts: seq<string>, key: string, i: nat, j: nat)
    requires i < j < |texts| && texts[i] == texts[j]
    requires Stores(step, texts[i], key) && KeepsHit(step, key) && Answers(step, texts[i], key)
    ensures var atJ := Fold(step, f, texts, j + 1);
      atJ.hits[j] && atJ.translations[j] == Fold(step, f, texts, i + 1).translations[i]
  {
    StaysCached(step, f, texts, key, i, j);
    var before := Fold(step, f, texts, j);
    assert Hit(Cached(Load(before.file), key)).Some?;
  }

  /** What texts `i` and `j` produced stays so over the whole run. */
  lemma RunKeeps(step: (FileState, string) -> Step, f: FileState, texts: seq<string>, i: nat, j: nat)
    requires i < j < |texts|
    requires Fold(step, f, texts, j + 1).hits[j]
    requires Fold(step, f, texts, j + 1).translations[j] == Fold(step, f, texts, i + 1).translations[i]
    ensures var o := Fold(step, f, texts, |texts|);
      o.hits[j] && o.translations[j] == o.translations[i]
  {
    FoldElement(step, f, texts, i, i + 1, |texts|);
    FoldElement(step, f, texts, j, j + 1, |texts|);
  }

  /** In `translate_srt`'s run, a repeated text the API answered is answered from the cache the second time. */
  lemma RepeatAnswered(f: FileState, hash: string -> string, api: (string, string, string) -> ApiReply,
                       source: string, target: string, texts: seq<string>, i: nat, j: nat)
    requires i < j < |texts| && texts[i] == texts[j]
    requires api(source, target, texts[i]).Reply?
    ensures var step := Stepper(true, hash, api, source, target);
      var atJ := Fold(step, f, texts, j + 1);
      atJ.hits[j] && atJ.translations[j] == Fold(step, f, texts, i + 1).translations[i]
  {
    StepperFacts(hash, api, source, target, texts[i]);
    AnsweredAt(Stepper(true, hash, api, source, target), f, texts, CacheKey(hash, texts[i], source, target), i, j);
  }

  /** `translate_text` with a writable file stores every text the API answers, and never overwrites a hit. */
  lemma StepperFacts(hash: string -> string, api: (string, string, string) -> ApiReply,
                     source: string, target: string, text: string)
    requires api(source, target, text).Reply?
    ensures var step := Stepper(true, hash, api, source, target);
      var key := CacheKey(hash, text, source, target);
      Stores(step, text, key) && KeepsHit(step, key) && Answers(step, text, key)
  {
    var step := Stepper(true, hash, api, source, target);
    var key := CacheKey(hash, text, source, target);
    forall g
      ensures Hit(Cached(Load(step(g, text).file), key)) == Some(step(g, text).translation)
    {
      StepStores(g, hash, api, text, source, target);
    }
    forall g, t | Hit(Cached(Load(g), key)).Some?
      ensures Cached(Load(step(g, t).file), key) == Cached(Load(g), key)
    {
      StepKeepsHit(g, hash, api, t, source, target, key);
    }
    forall g | Hit(Cached(Load(g), key)).Some?
      ensures step(g, text).fromCache && step(g, text).translation == Hit(Cached(Load(g), key)).value
    {
      StepAnswers(g, true, hash, api, text, source, target);
    }
  }

  /** After a request the API answered, with a writable file, the request hits with its translation. */
  lemma StepStores(f: FileState, hash: string -> string, api: (string, string, string) -> ApiReply,
                   text: string, source: string, target: string)
    requires api(source, target, text).Reply?
    ensures var s := TextStep(f, true, hash, api, text, source, target);
      Hit(Cached(Load(s.file), CacheKey(hash, text, source, target))) == Some(s.translation)
  {
    var s := TextStep(f, true, hash, api, text, source, target);
    TextStepCases(f, true, hash, api, text, source, target);
    if !s.fromCache {
      GetAfterPut(f, hash, text, s.translation, source, target);
    }
  }

  /** A request leaves every key that already hits as it was: it writes only after a miss on its own key. */
  lemma StepKeepsHit(f: FileState, hash: string -> string, api: (string, string, string) -> ApiReply,
                     text: string, source: string, target: string, key: string)
    requires Hit(Cached(Load(f), key)).Some?
    ensures var s := TextStep(f, true, hash, api, text, source, target);
      Cached(Load(s.file), key) == Cached(Load(f), key)
  {
    var s := TextStep(f, true, hash, api, text, source, target);
    TextStepCases(f, true, hash, api, text, source, target);
    if !s.fromCache && api(source, target, text).Reply? {
      var key' := CacheKey(hash, text, source, target);
      assert key' != key;
      assert Load(s.file) == Upsert(Load(f), key', EntryFor(text, s.translation, source, target));
    }
  }

  /** A request whose key hits is answered from the cache with the hit. */
  lemma StepAnswers(f: FileState, writable: bool, hash: string -> string,
                    api: (string, string, string) -> ApiReply, text: string, source: string, target: string)
    requires Hit(Cached(Load(f), CacheKey(hash, text, source, target))).Some?
    ensures var s := TextStep(f, writable, hash, api, text, source, target);
      s.fromCache && s.translation == Hit(Cached(Load(f), CacheKey(hash, text, source, target))).value
  {
  }

  /**
   * The purpose of the cache: with a writable cache file and an API that
   * answers, a text met again later in the file is not sent again; the later
   * block is answered from the cache and gets the same translation.
   */
  lemma RepeatFromCache(f: FileState, hash: string -> string,
                        api: (string, string, string) -> ApiReply, source: string, target: string,
                        blocks: seq<seq<string>>, i: nat, j: nat)
    requires Shaped(blocks) && i < j < |blocks|
    requires BlockText(blocks[i]) == BlockText(blocks[j])
    requires api(source, target, BlockText(blocks[i])).Reply?
    ensures var o := TranslateBlocks(f, true, hash, api, source, target, blocks);
      o.hits[j] && o.translations[j] == o.translations[i]
  {
    var texts := Texts(blocks);
    RepeatAnswered(f, hash, api, source, target, texts, i, j);
    RunKeeps(Stepper(true, hash, api, source, target), f, texts, i, j);
  }

  /** The cache counter of `translate_srt` is the number of blocks the cache answered. */
  lemma CachedCountIsHits(f: FileState, writable: bool, hash: string -> string,
                          api: (string, string, string) -> ApiReply, source: string, target: string,
                          blocks: seq<seq<string>>)
    requires Shaped(blocks)
    ensures var o := TranslateBlocks(f, writable, hash, api, source, target, blocks);
      o.cached == CountHits(o.hits) && o.translated == |blocks| - CountHits(o.hits)
  {
    CachedCountsHits(Stepper(writable, hash, api, source, target), f, Texts(blocks), |blocks|);
  }
}
