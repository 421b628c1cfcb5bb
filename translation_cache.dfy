/**
 * The translation cache: a JSON file mapping a digest of
 * `source:target:text` to the stored translation. Every operation loads the
 * file afresh; a missing or unreadable file reads as an empty store. The
 * digest function is a parameter.
 */
module TranslationCache {
  import opened Wrappers

  /** A stored value: the dictionary the cache writes, or any other (string) value found in the file. */
  datatype Value =
    | Entry(source: string, translation: string, sourceLang: string, targetLang: string)
    | Plain(s: string)

  /** The cache file on disk. */
  datatype FileState = Missing | Corrupt | Stored(entries: map<string, Value>)

  /** The string whose digest is the key. */
  function KeyContent(text: string, source: string, target: string): string
  {
    source + ":" + target + ":" + text
  }

  /** `get_cache_key`: the digest of the key content. */
  function CacheKey(hash: string -> string, text: string, source: string, target: string): string
  {
    hash(KeyContent(text, source, target))
  }

  /** A string split at its first colon: the part before it holds no colon, so it is determined. */
  lemma FirstColon(a: string, r: string, a': string, r': string)
    requires ':' !in a && ':' !in a'
    requires a + ":" + r == a' + ":" + r'
    ensures a == a' && r == r'
  {
    var s := a + ":" + r;
    assert forall i :: 0 <= i < |a| ==> s[i] == a[i] != ':';
    assert forall i :: 0 <= i < |a'| ==> s[i] == a'[i] != ':';
    assert s[|a|] == ':' && s[|a'|] == ':';
    assert a == s[..|a|] == a';
    assert r == s[|a| + 1..] == r';
  }

  /**
   * With language codes free of colons (every code of the language tables),
   * different requests have different key contents.
   */
  lemma KeyContentInjective(text: string, source: string, target: string,
                            text': string, source': string, target': string)
    requires ':' !in source && ':' !in target && ':' !in source' && ':' !in target'
    requires KeyContent(text, source, target) == KeyContent(text', source', target')
    ensures text == text' && source == source' && target == target'
  {
    assert source + ":" + (target + ":" + text) == KeyContent(text, source, target);
    assert source' + ":" + (target' + ":" + text') == KeyContent(text', source', target');
    FirstColon(source, target + ":" + text, source', target' + ":" + text');
    FirstColon(target, text, target', text');
  }

  /** A colon inside a language code lets two different requests share a key. */
  lemma ColonCodesCollide()
    ensures KeyContent("x", "a:b", "c") == KeyContent("c:x", "a", "b")
  {
  }

  /** Within one language pair the key content determines the text. */
  lemma SamePairInjective(text: string, text': string, source: string, target: string)
    requires KeyContent(text, source, target) == KeyContent(text', source, target)
    ensures text == text'
  {
    var p := source + ":" + target + ":";
    assert KeyContent(text, source, target) == p + text;
    assert KeyContent(text', source, target) == p + text';
    assert text == (p + text)[|p|..];
    assert text' == (p + text')[|p|..];
  }

  /** `load_cache`: the stored dictionary, or an empty one when the file is missing or unreadable. */
  function Load(f: FileState): (r: map<string, Value>)
    ensures f.Stored? ==> r == f.entries
    ensures !f.Stored? ==> |r| == 0
  {
    match f
    case Stored(entries) => entries
    case _ => map[]
  }

  /** `dict.get`: the value under `key`, or None. */
  function Cached(m: map<string, Value>, key: string): (r: Option<Value>)
    ensures r.Some? <==> key in m
    ensures r.Some? ==> r.value == m[key]
  {
    if key in m then Some(m[key]) else None
  }

  /** `cache[key] = value`: the key holds the value, every other key is as it was. */
  function Upsert(m: map<string, Value>, key: string, v: Value): (r: map<string, Value>)
    ensures key in r && r[key] == v
    ensures forall k :: k != key ==> (k in r <==> k in m)
    ensures forall k :: k in m && k != key ==> r[k] == m[k]
    ensures |r| == if key in m then |m| else |m| + 1
  {
    m[key := v]
  }

  /** `save_cache`: the file holds the dictionary, unless writing fails and the file is left as it was. */
  function Saved(f: FileState, writable: bool, m: map<string, Value>): (r: FileState)
    ensures writable ==> r == Stored(m)
    ensures !writable ==> r == f
  {
    if writable then Stored(m) else f
  }

  /** The entry `cache_translation` stores for a request. */
  function EntryFor(text: string, translation: string, source: string, target: string): Value
  {
    Entry(text, translation, source, target)
  }

  /** The file after `cache_translation`. */
  function Put(f: FileState, writable: bool, hash: string -> string,
               text: string, translation: string, source: string, target: string): FileState
  {
    Saved(f, writable, Upsert(Load(f), CacheKey(hash, text, source, target),
                              EntryFor(text, translation, source, target)))
  }

  /** What `get_cache_stats` reports. */
  datatype CacheStats = CacheStats(totalEntries: nat, languages: set<string>)

  /** The `source→target` label of an entry. */
  function PairLabel(v: Value): string
    requires v.Entry?
  {
    v.sourceLang + "→" + v.targetLang
  }

  /**
   * `get_cache_stats`: the number of keys, and the distinct language pairs of
   * the dictionary-valued entries.
   */
  function Stats(m: map<string, Value>): (r: CacheStats)
    ensures r.totalEntries == |m|
    ensures forall p :: p in r.languages <==> exists k :: k in m && m[k].Entry? && p == PairLabel(m[k])
  {
    CacheStats(|m|, set k | k in m && m[k].Entry? :: PairLabel(m[k]))
  }

  /** The cache file, with whether it can be written. */
  class CacheFile {
    var state: FileState
    const writable: bool

    constructor(initial: FileState, writable: bool)
      ensures state == initial && this.writable == writable
    {
      state := initial;
      this.writable := writable;
    }

    /** The dictionary a load returns now. */
    function Entries(): map<string, Value>
      reads this
    {
      Load(state)
    }

    /** `get_cached_translation`: the stored value for the request, or None. */
    method GetCachedTranslation(hash: string -> string, text: string, source: string, target: string)
      returns (r: Option<Value>)
      ensures r.Some? <==> CacheKey(hash, text, source, target) in Entries()
      ensures r.Some? ==> r.value == Entries()[CacheKey(hash, text, source, target)]
    {
      var cache := Load(state);
      var key := CacheKey(hash, text, source, target);
      r := if key in cache then Some(cache[key]) else None;
    }

    /** `cache_translation`: load, set the request's entry, save. */
    method CacheTranslation(hash: string -> string, text: string, translation: string,
                            source: string, target: string)
      modifies this
      ensures state == Put(old(state), writable, hash, text, translation, source, target)
    {
      var cache := Load(state);
      var key := CacheKey(hash, text, source, target);
      cache := cache[key := Entry(text, translation, source, target)];
      if writable {
        state := Stored(cache);
      }
    }

    /** `get_cache_stats` on the current file. */
    method GetCacheStats() returns (r: CacheStats)
      ensures r == Stats(Entries())
    {
      var cache := Load(state);
      var languages: set<string> := set k | k in cache && cache[k].Entry? :: PairLabel(cache[k]);
      r := CacheStats(|cache|, languages);
    }

    /** `clear_cache`: the file is deleted when it exists. */
    method ClearCache()
      modifies this
      ensures state == Missing
    {
      if state != Missing {
        state := Missing;
      }
    }
  }

  /** After a successful write, looking the request up finds the entry just stored. */
  lemma GetAfterPut(f: FileState, hash: string -> string, text: string, translation: string,
                    source: string, target: string)
    ensures Cached(Load(Put(f, true, hash, text, translation, source, target)),
                   CacheKey(hash, text, source, target))
         == Some(Entry(text, translation, source, target))
  {
  }

  /**
   * Storing one request leaves the lookup of every other request unchanged,
   * when the digest tells contents apart and the codes hold no colon.
   */
  lemma PutKeepsOthers(f: FileState, writable: bool, hash: string -> string,
                       text: string, translation: string, source: string, target: string,
                       text': string, source': string, target': string)
    requires forall a, b :: hash(a) == hash(b) ==> a == b
    requires ':' !in source && ':' !in target && ':' !in source' && ':' !in target'
    requires (text, source, target) != (text', source', target')
    ensures Cached(Load(Put(f, writable, hash, text, translation, source, target)),
                   CacheKey(hash, text', source', target'))
         == Cached(Load(f), CacheKey(hash, text', source', target'))
  {
    if CacheKey(hash, text, source, target) == CacheKey(hash, text', source', target') {
      KeyContentInjective(text, source, target, text', source', target');
    }
  }

  /** A failed write changes nothing. */
  lemma UnwritablePut(f: FileState, hash: string -> string, text: string, translation: string,
                      source: string, target: string)
    ensures Put(f, false, hash, text, translation, source, target) == f
  {
  }

  /** After a successful write the store counts one more entry unless the key was there, and lists the pair. */
  lemma StatsAfterPut(f: FileState, hash: string -> string, text: string, translation: string,
                      source: string, target: string)
    ensures var key := CacheKey(hash, text, source, target);
      var s := Stats(Load(Put(f, true, hash, text, translation, source, target)));
      && s.totalEntries == (if key in Load(f) then |Load(f)| else |Load(f)| + 1)
      && source + "→" + target in s.languages
  {
    var key := CacheKey(hash, text, source, target);
    var m := Load(Put(f, true, hash, text, translation, source, target));
    assert m[key].Entry? && PairLabel(m[key]) == source + "→" + target;
  }

  /** After clearing, the store loads empty and the stats report no entry and no pair. */
  lemma StatsAfterClear()
    ensures Stats(Load(Missing)) == CacheStats(0, {})
  {
    var s := Stats(Load(Missing));
    assert forall p :: p !in s.languages;
  }

  /** An unreadable file also reads as empty, and a write replaces it with the single new entry. */
  lemma CorruptReadsEmpty(hash: string -> string, text: string, translation: string,
                          source: string, target: string)
    ensures |Load(Corrupt)| == 0
    ensures Load(Put(Corrupt, true, hash, text, translation, source, target))
         == map[CacheKey(hash, text, source, target) := Entry(text, translation, source, target)]
  {
  }
}
