/** The bookkeeping of `syncLocale` in scripts/control-ui-i18n.ts: which strings are reused,
    which are translated, which fall back to English, and what is written back. */
module LocaleSync {
  import opened JsStrings
  import opened Options
  import opened TextHash
  import opened TranslationBatches
  import opened BatchTranslator
  import Tree = TranslationTree

  /** The English strings under their flat keys, in file order, and the hash of the file. */
  datatype Source = Source(keys: seq<string>, texts: map<string, string>, hash: string) {
    ghost predicate Valid() {
      Tree.Distinct(keys) && forall key :: key in keys <==> key in texts
    }
  }

  /** What the environment says: whether an API key is set, and the configured provider and model. */
  datatype Env = Env(allowTranslate: bool, provider: string, model: string)

  datatype TmEntry = TmEntry(segmentId: string, text: string, textHash: string, translated: string,
                             provider: string, model: string, updatedAt: int)

  datatype Meta = Meta(fallbackKeys: set<string>, generatedAt: int, locale: string, model: string,
                       provider: string, sourceHash: string, totalKeys: nat, translatedKeys: int, workflow: nat)

  /** One locale on disk: its flattened strings, its metadata and its translation memory. */
  datatype Files = Files(strings: map<string, string>, meta: Option<Meta>, tm: map<CacheKey, TmEntry>)

  const CONTROL_UI_I18N_WORKFLOW: nat := 1

  function KeyOf(env: Env, locale: string, key: string, text: string): CacheKey {
    CacheKey(env.provider, env.model, locale, key, NormalizeText(text))
  }

  function ItemOf(env: Env, locale: string, key: string, text: string): BatchItem {
    BatchItem(KeyOf(env, locale, key, text), key, text, NormalizeText(text))
  }

  function PreviousFallback(files: Files): set<string> {
    if files.meta.Some? then files.meta.value.fallbackKeys else {}
  }

  /** The value carried over for a key: from the memory, else from the locale file, unless a
      provider is there to replace a fallback. */
  function Reuse(files: Files, env: Env, locale: string, key: string, text: string): Option<string> {
    if env.allowTranslate && key in PreviousFallback(files) then None
    else if KeyOf(env, locale, key, text) in files.tm then Some(files.tm[KeyOf(env, locale, key, text)].translated)
    else if key in files.strings then Some(files.strings[key])
    else None
  }

  /** The work list of the first `n` source keys. */
  function PendingOf(files: Files, source: Source, env: Env, locale: string, n: nat): seq<BatchItem>
    requires n <= |source.keys| && forall key :: key in source.keys ==> key in source.texts
  {
    if n == 0 then []
    else
      var key := source.keys[n - 1];
      var rest := PendingOf(files, source, env, locale, n - 1);
      if Reuse(files, env, locale, key, source.texts[key]).None?
      then rest + [ItemOf(env, locale, key, source.texts[key])] else rest
  }

  // ---------------------------------------------------------------- what a run leaves behind

  predicate IsPending(files: Files, source: Source, env: Env, locale: string, key: string) {
    key in source.texts && Reuse(files, env, locale, key, source.texts[key]).None?
  }

  /** The translations a run got: for every pending key with a provider, for none without. */
  ghost predicate CoversPending(files: Files, source: Source, env: Env, locale: string, got: map<string, string>) {
    forall key :: key in got <==> env.allowTranslate && IsPending(files, source, env, locale, key)
  }

  function NextFlat(files: Files, source: Source, env: Env, locale: string,
                    got: map<string, string>): map<string, string> {
    map key | key in source.texts ::
      var text := source.texts[key];
      match Reuse(files, env, locale, key, text)
      case Some(value) => value
      case None => if key in got then got[key] else text
  }

  function NextFallback(files: Files, source: Source, env: Env, locale: string, got: map<string, string>): set<string> {
    set key | key in source.texts &&
      (if IsPending(files, source, env, locale, key) then key !in got else key in PreviousFallback(files))
  }

  function EntryOf(env: Env, key: string, text: string, value: string, now: int): TmEntry {
    TmEntry(key, text, NormalizeText(text), value, env.provider, env.model, now)
  }

  /** The memory with the new translations entered. */
  ghost predicate NextTm(files: Files, source: Source, env: Env, locale: string, got: map<string, string>,
                         now: int, tm: map<CacheKey, TmEntry>)
  {
    && (forall key :: key in got && key in source.texts ==>
          KeyOf(env, locale, key, source.texts[key]) in tm &&
          tm[KeyOf(env, locale, key, source.texts[key])] == EntryOf(env, key, source.texts[key], got[key], now))
    && (forall c :: c in files.tm ==> c in tm)
    && (forall c :: c in tm ==>
          || (c in files.tm && tm[c] == files.tm[c])
          || (c.segmentId in got && c.segmentId in source.texts
                  && c == KeyOf(env, locale, c.segmentId, source.texts[c.segmentId])))
  }

  function NextMeta(files: Files, source: Source, env: Env, locale: string, fallback: set<string>, now: int): Meta {
    var previous := files.meta;
    var provider := if env.allowTranslate then env.provider else if previous.Some? then previous.value.provider else "";
    var model := if env.allowTranslate then env.model else if previous.Some? then previous.value.model else "";
    var current := Meta(fallback, now, locale, model, provider, source.hash, |source.keys|,
                      |source.keys| - |fallback|, CONTROL_UI_I18N_WORKFLOW);
    if previous.Some? && previous.value.(generatedAt := now) == current
    then current.(generatedAt := previous.value.generatedAt) else current
  }

  /** `next` is what a completed run makes of `files`. */
  ghost predicate Completed(files: Files, source: Source, env: Env, locale: string, got: map<string, string>,
                            now: int, next: Files)
    requires source.Valid()
  {
    var flat := NextFlat(files, source, env, locale, got);
    && CoversPending(files, source, env, locale, got)
    && Tree.IsFlattening(Tree.Rebuild(source.keys, flat), next.strings)
    && NextTm(files, source, env, locale, got, now, next.tm)
    && next.meta == Some(NextMeta(files, source, env, locale, NextFallback(files, source, env, locale, got), now))
  }

  /** A translation in the memory is known again for the same provider, model, locale and key, and for a
      text of the same words. */
  lemma {:induction false} KeysTellApart(env: Env, locale: string, key: string, text: string, env': Env,
                                         locale': string, key': string, text': string)
    ensures KeyOf(env, locale, key, text) == KeyOf(env', locale', key', text') <==>
              && env.provider == env'.provider && env.model == env'.model && locale == locale' && key == key'
              && Words(text) == Words(text')
  {
    SameWordsSameHash(text, text');
  }

  // ---------------------------------------------------------------- laws of one run

  /** The fallback keys are source keys, every other source key counts as translated, and with a
      provider there is no fallback at all. */
  lemma {:induction false} FallbackIsSound(files: Files, source: Source, env: Env, locale: string,
                                           got: map<string, string>, now: int, next: Files)
    requires source.Valid() && Completed(files, source, env, locale, got, now, next)
    ensures next.meta.value.fallbackKeys <= source.texts.Keys
    ensures next.meta.value.translatedKeys + |next.meta.value.fallbackKeys| == next.meta.value.totalKeys
    ensures next.meta.value.totalKeys == |source.texts|
    ensures env.allowTranslate ==> next.meta.value.fallbackKeys == {}
  {
    DistinctCount(source.keys, source.texts.Keys);
    var fallback := NextFallback(files, source, env, locale, got);
    assert next.meta.value.fallbackKeys == fallback && next.meta.value.totalKeys == |source.keys|;
    forall key | key in fallback ensures key in source.texts && !env.allowTranslate {
      assert IsPending(files, source, env, locale, key) ==> key !in got;
    }
  }

  lemma {:induction false} DistinctCount(keys: seq<string>, s: set<string>)
    requires Tree.Distinct(keys) && forall key :: key in keys <==> key in s
    ensures |keys| == |s|
  {
    if keys == [] {
      assert s == {};
    } else {
      var last := keys[|keys| - 1];
      forall key ensures key in keys[..|keys| - 1] <==> key in s - {last} {
      }
      DistinctCount(keys[..|keys| - 1], s - {last});
    }
  }

  /** What the next run finds is every source key, with the value this run chose, if and only if
      the keys can be rebuilt. */
  lemma {:induction false} StringsComeBack(files: Files, source: Source, env: Env, locale: string,
                                           got: map<string, string>, now: int, next: Files)
    requires source.Valid() && Completed(files, source, env, locale, got, now, next)
    ensures next.strings == NextFlat(files, source, env, locale, got) <==> Tree.Rebuildable(source.keys)
  {
    RebuiltStrings(source.keys, NextFlat(files, source, env, locale, got), next.strings);
  }

  lemma {:induction false} RebuiltStrings(keys: seq<string>, flat: map<string, string>, out: map<string, string>)
    requires Tree.Distinct(keys) && forall key :: key in keys <==> key in flat
    requires Tree.IsFlattening(Tree.Rebuild(keys, flat), out)
    ensures out == flat <==> Tree.Rebuildable(keys)
  {
    Tree.RoundTrip(keys, flat, out);
    if Tree.Rebuildable(keys) {
      forall key | key in flat ensures key in out && out[key] == flat[key] {
        var i :| 0 <= i < |keys| && keys[i] == key;
      }
    }
  }

  /** After a completed run the next one has nothing to do, and finds the value again. */
  lemma {:induction false} NothingLeft(files: Files, source: Source, env: Env, locale: string, got: map<string, string>,
                    now: int, next: Files, key: string)
    requires source.Valid() && Completed(files, source, env, locale, got, now, next)
    requires Tree.Rebuildable(source.keys) && key in source.texts
    ensures Reuse(next, env, locale, key, source.texts[key]) == Some(NextFlat(files, source, env, locale, got)[key])
  {
    StringsComeBack(files, source, env, locale, got, now, next);
    var text := source.texts[key];
    var c := KeyOf(env, locale, key, text);
    FallbackIsSound(files, source, env, locale, got, now, next);
    if c in next.tm && key in got {
      assert next.tm[c] == EntryOf(env, key, text, got[key], now);
    }
  }

  /** Running again with the same source and environment changes nothing at all: not the
      strings, not the memory, not the fallback keys, not even the time stamp. Nothing is pending,
      so nothing is sent. */
  lemma {:induction false} SyncIsAFixpoint(files: Files, source: Source, env: Env, locale: string,
                        got: map<string, string>, now: int, next: Files,
                        got': map<string, string>, now': int, next': Files)
    requires source.Valid() && Tree.Rebuildable(source.keys)
    requires Completed(files, source, env, locale, got, now, next)
    requires Completed(next, source, env, locale, got', now', next')
    ensures PendingOf(next, source, env, locale, |source.keys|) == [] && got' == map[]
    ensures next' == next
  {
    var flat := NextFlat(files, source, env, locale, got);
    forall key | key in source.texts
      ensures Reuse(next, env, locale, key, source.texts[key]) == Some(flat[key])
    {
      NothingLeft(files, source, env, locale, got, now, next, key);
    }
    NoPending(next, source, env, locale, |source.keys|);
    assert got' == map[];
    SameFlat(next, source, env, locale, flat);
    StringsComeBack(files, source, env, locale, got, now, next);
    StringsComeBack(next, source, env, locale, map[], now', next');
    assert next'.tm == next.tm;
    SameMeta(files, source, env, locale, NextFallback(files, source, env, locale, got), now, next, now');
  }

  lemma {:induction false} SameFlat(files: Files, source: Source, env: Env, locale: string, flat: map<string, string>)
    requires flat.Keys == source.texts.Keys
    requires forall key :: key in source.texts ==> Reuse(files, env, locale, key, source.texts[key]) == Some(flat[key])
    ensures NextFlat(files, source, env, locale, map[]) == flat
  {
  }

  lemma {:induction false} SameMeta(files: Files, source: Source, env: Env, locale: string, fallback: set<string>,
                                    now: int, next: Files, now': int)
    requires next.meta == Some(NextMeta(files, source, env, locale, fallback, now))
    requires fallback <= source.texts.Keys
    requires forall key :: key in source.texts ==> !IsPending(next, source, env, locale, key)
    ensures next.meta == Some(NextMeta(next, source, env, locale, NextFallback(next, source, env, locale, map[]), now'))
  {
    forall key ensures key in NextFallback(next, source, env, locale, map[]) <==> key in fallback {
    }
    assert NextFallback(next, source, env, locale, map[]) == fallback;
  }

  lemma {:induction false} NoPending(files: Files, source: Source, env: Env, locale: string, n: nat)
    requires n <= |source.keys| && source.Valid()
    requires forall key :: key in source.texts ==> Reuse(files, env, locale, key, source.texts[key]).Some?
    ensures PendingOf(files, source, env, locale, n) == []
  {
    if n > 0 {
      NoPending(files, source, env, locale, n - 1);
      assert source.keys[n - 1] in source.keys;
    }
  }

  /** English that was edited does not reach the other locales, with or without a provider: the key
      keeps its old string, unless the memory happens to know the edited text. */
  lemma {:induction false} EditedTextKeepsOldString(
      files: Files, source: Source, env: Env, locale: string, got: map<string, string>, now: int, next: Files,
      edited: Source, got': map<string, string>, now': int, next': Files, key: string)
    requires source.Valid() && Tree.Rebuildable(source.keys)
    requires edited.Valid() && Tree.Rebuildable(edited.keys)
    requires Completed(files, source, env, locale, got, now, next)
    requires Completed(next, edited, env, locale, got', now', next')
    requires key in source.texts && key in edited.texts
    ensures key in next.strings && key in next'.strings
    ensures var known := KeyOf(env, locale, key, edited.texts[key]);
            next'.strings[key] == if known in next.tm then next.tm[known].translated else next.strings[key]
  {
    StringsComeBack(files, source, env, locale, got, now, next);
    StringsComeBack(next, edited, env, locale, got', now', next');
    FallbackIsSound(files, source, env, locale, got, now, next);
  }

  /** The state a run with these translations ends in, when the keys can be rebuilt. */
  lemma {:induction false} RunEndsIn(files: Files, source: Source, env: Env, locale: string, got: map<string, string>,
                                     now: int, next: Files)
    requires source.Valid() && Tree.Rebuildable(source.keys)
    requires CoversPending(files, source, env, locale, got) && NextTm(files, source, env, locale, got, now, next.tm)
    requires next.strings == NextFlat(files, source, env, locale, got)
    requires next.meta == Some(NextMeta(files, source, env, locale, NextFallback(files, source, env, locale, got), now))
    ensures Completed(files, source, env, locale, got, now, next)
  {
    Tree.RebuildableFlattens(source.keys, next.strings);
  }

  /** What a locale shows for a key: the memory comes before the locale file; with a provider a former
      fallback is translated anew whatever they hold, and so is what neither holds; without one English
      stands in. The keys that were translated, and those that count as fallbacks, follow. */
  lemma {:induction false} StringShown(files: Files, source: Source, env: Env, locale: string,
                                       got: map<string, string>, now: int, next: Files, key: string)
    requires source.Valid() && Tree.Rebuildable(source.keys) && key in source.texts
    requires Completed(files, source, env, locale, got, now, next)
    ensures var text := source.texts[key];
            var c := CacheKey(env.provider, env.model, locale, key, NormalizeText(text));
            var fellBack := files.meta.Some? && key in files.meta.value.fallbackKeys;
            var known := c in files.tm || key in files.strings;
            && key in next.strings && next.meta.Some?
            && (key in got <==> env.allowTranslate && (fellBack || !known))
            && next.strings[key] == (if key in got then got[key] else if c in files.tm then files.tm[c].translated
                                     else if key in files.strings then files.strings[key] else text)
            && (key in next.meta.value.fallbackKeys <==> !env.allowTranslate && (fellBack || !known))
  {
    StringsComeBack(files, source, env, locale, got, now, next);
  }

  /** The metadata a run leaves: the provider and model of the environment, or with none those of the run
      before; a new time stamp unless everything else is as it was. */
  lemma {:induction false} MetadataLeft(files: Files, source: Source, env: Env, locale: string,
                                        got: map<string, string>, now: int, next: Files)
    requires source.Valid() && Completed(files, source, env, locale, got, now, next)
    ensures next.meta.Some?
    ensures var meta := next.meta.value;
            && meta.locale == locale && meta.sourceHash == source.hash && meta.workflow == 1
            && (env.allowTranslate ==> meta.provider == env.provider && meta.model == env.model)
            && (!env.allowTranslate && files.meta.Some? ==>
                  meta.provider == files.meta.value.provider && meta.model == files.meta.value.model)
            && (!env.allowTranslate && files.meta.None? ==> meta.provider == "" && meta.model == "")
            && (meta.generatedAt != now ==> files.meta == Some(meta))
            && (files.meta.Some? && meta.(generatedAt := 0) == files.meta.value.(generatedAt := 0) ==>
                  meta == files.meta.value)
  {
  }

  /** The memory a run leaves: an entry for every translation it got, which says all there is to say of
      it, and beside those just the entries there were. */
  lemma {:induction false} MemoryLeft(files: Files, source: Source, env: Env, locale: string,
                                      got: map<string, string>, now: int, next: Files, c: CacheKey)
    requires source.Valid() && Completed(files, source, env, locale, got, now, next)
    ensures var key := c.segmentId;
            var isNew := key in got && key in source.texts
              && c == CacheKey(env.provider, env.model, locale, key, NormalizeText(source.texts[key]));
            && (c in next.tm <==> isNew || c in files.tm)
            && (isNew ==> next.tm[c] == TmEntry(key, source.texts[key], NormalizeText(source.texts[key]), got[key],
                                                env.provider, env.model, now))
            && (!isNew && c in files.tm ==> next.tm[c] == files.tm[c])
  {
  }

  /** What a run makes of the files is determined by the translations it got and the time. */
  lemma {:induction false} CompletedIsUnique(files: Files, source: Source, env: Env, locale: string,
                                             got: map<string, string>, now: int, next: Files, next': Files)
    requires source.Valid() && Tree.Rebuildable(source.keys)
    requires Completed(files, source, env, locale, got, now, next)
    requires Completed(files, source, env, locale, got, now, next')
    ensures next == next'
  {
    StringsComeBack(files, source, env, locale, got, now, next);
    StringsComeBack(files, source, env, locale, got, now, next');
    forall c
      ensures c in next.tm <==> c in next'.tm
      ensures c in next.tm && c in next'.tm ==> next.tm[c] == next'.tm[c]
    {
      MemoryLeft(files, source, env, locale, got, now, next, c);
      MemoryLeft(files, source, env, locale, got, now, next', c);
    }
    assert next.tm == next'.tm;
  }

  const SAMPLE_ENV := Env(true, "p", "m")

  function OneText(text: string, hash: string): Source {
    Source(["k"], map["k" := text], hash)
  }

  lemma {:induction false} OneTextIsFine(text: string, hash: string)
    ensures OneText(text, hash).Valid() && Tree.Rebuildable(OneText(text, hash).keys)
  {
    assert "k"[0] != '.';
  }

  lemma {:induction false} LettersDiffer()
    ensures NormalizeText("a") == "a" && NormalizeText("b") == "b"
  {
    assert "a"[1..] == "" && "b"[1..] == "";
    assert TrimStart("a") == "a" && TrimStart("b") == "b";
  }

  /** A first run that gets a translation of "a", for a locale that has nothing yet. */
  lemma {:induction false} FirstRun(now: int) returns (next: Files)
    ensures Completed(Files(map[], None, map[]), OneText("a", "1"), SAMPLE_ENV, "de", map["k" := "x"], now, next)
    ensures next.strings == map["k" := "x"] && KeyOf(SAMPLE_ENV, "de", "k", "b") !in next.tm
    ensures PreviousFallback(next) == {}
  {
    var files, source, got := Files(map[], None, map[]), OneText("a", "1"), map["k" := "x"];
    var fallback := NextFallback(files, source, SAMPLE_ENV, "de", got);
    var tm := map[KeyOf(SAMPLE_ENV, "de", "k", "a") := EntryOf(SAMPLE_ENV, "k", "a", "x", now)];
    next := Files(NextFlat(files, source, SAMPLE_ENV, "de", got),
                  Some(NextMeta(files, source, SAMPLE_ENV, "de", fallback, now)), tm);
    OneTextIsFine("a", "1");
    LettersDiffer();
    RunEndsIn(files, source, SAMPLE_ENV, "de", got, now, next);
    assert fallback == {};
  }

  /** A run on "b" for a locale that has a string for the key already. */
  lemma {:induction false} RunOnOldString(files: Files, later: int) returns (next: Files)
    requires files.strings == map["k" := "x"] && PreviousFallback(files) == {}
    requires KeyOf(SAMPLE_ENV, "de", "k", "b") !in files.tm
    ensures Completed(files, OneText("b", "2"), SAMPLE_ENV, "de", map[], later, next)
    ensures next.strings == map["k" := "x"] && PreviousFallback(next) == {}
  {
    var source, got := OneText("b", "2"), map[];
    assert Reuse(files, SAMPLE_ENV, "de", "k", "b") == Some("x");
    assert NextFallback(files, source, SAMPLE_ENV, "de", got) == {};
    assert NextFlat(files, source, SAMPLE_ENV, "de", got) == map["k" := "x"];
    next := Files(map["k" := "x"], Some(NextMeta(files, source, SAMPLE_ENV, "de", {}, later)), files.tm);
    OneTextIsFine("b", "2");
    RunEndsIn(files, source, SAMPLE_ENV, "de", got, later, next);
  }

  /** Two runs: after "a" was edited to "b" the second finds nothing to do and keeps the old
      translation, although a provider is there. */
  lemma {:induction false} EditedTextIsNotTranslated(now: int, later: int) returns (next: Files, next': Files)
    ensures Completed(Files(map[], None, map[]), OneText("a", "1"), SAMPLE_ENV, "de", map["k" := "x"], now, next)
    ensures Completed(next, OneText("b", "2"), SAMPLE_ENV, "de", map[], later, next')
    ensures next'.strings == map["k" := "x"] && PreviousFallback(next') == {}
  {
    next := FirstRun(now);
    next' := RunOnOldString(next, later);
  }

  // ---------------------------------------------------------------- the procedure

  /** The strings carried over for the first `n` source keys, and which of them stay fallbacks. */
  function CarriedOver(files: Files, source: Source, env: Env, locale: string,
                       n: nat): (map<string, string>, set<string>)
    requires n <= |source.keys| && forall key :: key in source.keys ==> key in source.texts
  {
    if n == 0 then (map[], {})
    else
      var key := source.keys[n - 1];
      var (flat, fallback) := CarriedOver(files, source, env, locale, n - 1);
      match Reuse(files, env, locale, key, source.texts[key])
      case None => (flat, fallback)
      case Some(value) => (flat[key := value], if key in PreviousFallback(files) then fallback + {key} else fallback)
  }

  /** The key is among the first `n`. */
  predicate Among(keys: seq<string>, n: nat, key: string)
    requires n <= |keys|
  {
    n > 0 && (keys[n - 1] == key || Among(keys, n - 1, key))
  }

  lemma {:induction false} AmongIs(keys: seq<string>, n: nat, key: string)
    requires n <= |keys|
    ensures Among(keys, n, key) <==> exists k :: 0 <= k < n && keys[k] == key
  {
    if n > 0 {
      AmongIs(keys, n - 1, key);
    }
  }

  lemma {:induction false} CarriedOverAt(files: Files, source: Source, env: Env, locale: string, n: nat, key: string)
    requires n <= |source.keys| && source.Valid()
    ensures var (flat, fallback) := CarriedOver(files, source, env, locale, n);
            && (key in flat <==> Among(source.keys, n, key) && !IsPending(files, source, env, locale, key))
            && (key in flat ==> key in source.texts &&
                                Reuse(files, env, locale, key, source.texts[key]) == Some(flat[key]))
            && (key in fallback <==> key in flat && key in PreviousFallback(files))
  {
    if n > 0 {
      CarriedOverAt(files, source, env, locale, n - 1, key);
      assert source.keys[n - 1] in source.keys;
    }
  }

  /** The first loop of `syncLocale`: what is carried over, and what is left to do. */
  method Classify(files: Files, source: Source, env: Env, locale: string)
    returns (flat: map<string, string>, pending: seq<BatchItem>, fallback: set<string>)
    requires source.Valid()
    ensures pending == PendingOf(files, source, env, locale, |source.keys|)
    ensures (flat, fallback) == CarriedOver(files, source, env, locale, |source.keys|)
  {
    flat, pending, fallback := map[], [], {};
    for index := 0 to |source.keys|
      invariant pending == PendingOf(files, source, env, locale, index)
      invariant (flat, fallback) == CarriedOver(files, source, env, locale, index)
    {
      var key := source.keys[index];
      var text := source.texts[key];
      var segmentCacheKey := KeyOf(env, locale, key, text);
      var shouldRefreshFallback := key in PreviousFallback(files);
      if segmentCacheKey in files.tm && !(env.allowTranslate && shouldRefreshFallback) {
        flat := flat[key := files.tm[segmentCacheKey].translated];
        if shouldRefreshFallback {
          fallback := fallback + {key};
        }
      } else if key in files.strings && !(env.allowTranslate && shouldRefreshFallback) {
        flat := flat[key := files.strings[key]];
        if shouldRefreshFallback {
          fallback := fallback + {key};
        }
      } else {
        pending := pending + [ItemOf(env, locale, key, text)];
      }
    }
  }

  /** The strings and the memory as they fill up. */
  datatype Progress = Progress(flat: map<string, string>, tm: map<CacheKey, TmEntry>)

  function EnterOne(p: Progress, item: BatchItem, value: string, env: Env, now: int): Progress {
    Progress(p.flat[item.key := value], p.tm[item.cacheKey := EntryOf(env, item.key, item.text, value, now)])
  }

  predicate Covers(items: seq<BatchItem>, values: map<string, string>) {
    forall item :: item in items ==> item.key in values
  }

  function Enter(p: Progress, items: seq<BatchItem>, values: map<string, string>, env: Env, now: int): Progress
    requires Covers(items, values)
  {
    if items == [] then p
    else
      var last := items[|items| - 1];
      EnterOne(Enter(p, items[..|items| - 1], values, env, now), last, values[last.key], env, now)
  }

  ghost predicate Agree(items: seq<BatchItem>, v: map<string, string>, w: map<string, string>) {
    Covers(items, v) && Covers(items, w) && forall item :: item in items ==> v[item.key] == w[item.key]
  }

  lemma {:induction false} EnterAgrees(p: Progress, items: seq<BatchItem>, v: map<string, string>,
                                       w: map<string, string>, env: Env, now: int)
    requires Agree(items, v, w)
    ensures Enter(p, items, v, env, now) == Enter(p, items, w, env, now)
  {
    if items != [] {
      EnterAgrees(p, items[..|items| - 1], v, w, env, now);
    }
  }

  lemma {:induction false} EnterMore(p: Progress, a: seq<BatchItem>, b: seq<BatchItem>, v: map<string, string>,
                                     env: Env, now: int)
    requires Covers(a, v) && Covers(b, v) && Covers(a + b, v)
    ensures Enter(p, a + b, v, env, now) == Enter(Enter(p, a, v, env, now), b, v, env, now)
  {
    if b == [] {
      assert a + b == a;
    } else {
      assert (a + b)[..|a + b| - 1] == a + b[..|b| - 1];
      EnterMore(p, a, b[..|b| - 1], v, env, now);
    }
  }

  /** One batch's translations are entered. */
  method EnterBatch(p: Progress, batch: seq<BatchItem>, translated: map<string, string>, env: Env, now: int)
    returns (p': Progress)
    requires Covers(batch, translated) && forall key :: key in translated ==> !IsBlank(translated[key])
    ensures p' == Enter(p, batch, translated, env, now)
  {
    p' := p;
    for index := 0 to |batch|
      invariant p' == Enter(p, batch[..index], translated, env, now)
    {
      var item := batch[index];
      assert batch[..index + 1][..index] == batch[..index];
      var value := translated[item.key];
      if value == "" {
        assert false;  // no blank translation gets here
      } else {
        p' := EnterOne(p', item, value, env, now);
      }
    }
    assert batch[..|batch|] == batch;
  }

  ghost predicate DistinctKeys(items: seq<BatchItem>) {
    forall i, j :: 0 <= i < j < |items| ==> items[i].key != items[j].key
  }

  lemma {:induction false} InPrefix(items: seq<BatchItem>, mid: nat, i: nat, j: nat)
    requires DistinctKeys(items) && mid <= |items| && i < mid <= j < |items|
    ensures items[i].key != items[j].key
  {
  }

  /** What one more translated batch does to the whole. */
  lemma {:induction false} OneMoreBatch(p: Progress, done: seq<BatchItem>, batch: seq<BatchItem>, world: World,
                                        a: nat, b: nat, c: nat, got: map<string, string>,
                                        translated: map<string, string>, env: Env, now: int)
    requires a <= b <= c && DistinctKeys(done + batch)
    requires Faithful(world, a, b, done, got) && Faithful(world, b, c, batch, translated)
    ensures Faithful(world, a, c, done + batch, got + translated)
    ensures Covers(done, got) && Covers(batch, translated) && Covers(done + batch, got + translated)
    ensures Enter(p, done + batch, got + translated, env, now) ==
              Enter(Enter(p, done, got, env, now), batch, translated, env, now)
  {
    var items, v := done + batch, got + translated;
    assert items[..|done|] == done && items[|done|..] == batch;
    FaithfulHalves(world, a, b, c, items, |done|, got, translated);
    FaithfulCovers(world, a, b, done, got);
    FaithfulCovers(world, b, c, batch, translated);
    FaithfulCovers(world, a, c, items, v);
    forall item | item in done ensures item.key in v && v[item.key] == got[item.key] {
      var i :| 0 <= i < |done| && done[i] == item;
      if item.key in translated {
        var j :| 0 <= j < |batch| && batch[j].key == item.key;
        InPrefix(items, |done|, i, |done| + j);
      }
    }
    EnterAgrees(p, done, got, v, env, now);
    EnterAgrees(Enter(p, done, v, env, now), batch, translated, v, env, now);
    EnterMore(p, done, batch, v, env, now);
  }

  lemma {:induction false} FaithfulCovers(world: World, a: nat, b: nat, items: seq<BatchItem>,
                                          values: map<string, string>)
    requires Faithful(world, a, b, items, values)
    ensures Covers(items, values)
  {
    forall item | item in items ensures item.key in values {
      var i :| 0 <= i < |items| && items[i] == item;
      assert HasKey(items, item.key);
    }
  }

  /** Some items are `done`: `got` has their translations, and they are entered. */
  ghost predicate DoneWith(world: World, from: nat, to: nat, done: seq<BatchItem>, got: map<string, string>,
                           p0: Progress, p: Progress, env: Env, now: int)
  {
    from <= to && Faithful(world, from, to, done, got) && Covers(done, got) && p == Enter(p0, done, got, env, now)
  }

  /** The course of several batches, one after the other: the first failure ends it. */
  function TranslateAll(world: World, pos: nat, batches: seq<seq<BatchItem>>): Course {
    if batches == [] then Course(Translated(map[]), pos, 0)
    else
      var before := TranslateAll(world, pos, batches[..|batches| - 1]);
      if before.outcome.Failed? then before
      else
        var last := Translate(world, before.next, batches[|batches| - 1]);
        Course(if last.outcome.Failed? then last.outcome
               else Translated(before.outcome.values + last.outcome.values),
               last.next, before.prompts + last.prompts)
  }

  lemma {:induction false} BatchesInTurn(world: World, pos: nat, batches: seq<seq<BatchItem>>, n: nat)
    requires n < |batches| && TranslateAll(world, pos, batches[..n]).outcome.Translated?
    ensures var before := TranslateAll(world, pos, batches[..n]);
            var one := Translate(world, before.next, batches[n]);
            TranslateAll(world, pos, batches[..n + 1]) ==
              Course(if one.outcome.Failed? then one.outcome
                     else Translated(before.outcome.values + one.outcome.values),
                     one.next, before.prompts + one.prompts)
  {
    assert batches[..n + 1][..n] == batches[..n];
  }

  lemma {:induction false} FailureEndsAll(world: World, pos: nat, batches: seq<seq<BatchItem>>, n: nat)
    requires n <= |batches| && TranslateAll(world, pos, batches[..n]).outcome.Failed?
    ensures TranslateAll(world, pos, batches) == TranslateAll(world, pos, batches[..n])
  {
    if n < |batches| {
      assert batches[..|batches| - 1][..n] == batches[..n];
      FailureEndsAll(world, pos, batches[..|batches| - 1], n);
    } else {
      assert batches[..n] == batches;
    }
  }

  /** A failing batch ends the run of batches, where and how it fails. */
  lemma {:induction false} FailureIsFinal(world: World, pos: nat, batches: seq<seq<BatchItem>>, i: nat)
    requires i < |batches| && FailsAt(world, pos, batches, i)
    ensures var failed := Translate(world, TranslateAll(world, pos, batches[..i]).next, batches[i]);
            && TranslateAll(world, pos, batches).outcome == failed.outcome
            && TranslateAll(world, pos, batches).next == failed.next
  {
    BatchesInTurn(world, pos, batches, i);
    FailureEndsAll(world, pos, batches, i + 1);
  }

  lemma {:induction false} FailingBatch(world: World, pos: nat, batches: seq<seq<BatchItem>>) returns (i: nat)
    requires TranslateAll(world, pos, batches).outcome.Failed?
    ensures i < |batches| && FailsAt(world, pos, batches, i)
  {
    var n := |batches| - 1;
    if TranslateAll(world, pos, batches[..n]).outcome.Failed? {
      i := FailingBatch(world, pos, batches[..n]);
      assert batches[..n][..i] == batches[..i];
    } else {
      i := n;
    }
  }

  /** A run of batches fails if and only if one of them does, at the point the ones before it leave off. */
  lemma {:induction false} FirstFailureCounts(world: World, pos: nat, batches: seq<seq<BatchItem>>)
    ensures TranslateAll(world, pos, batches).outcome.Failed? <==>
              exists i :: 0 <= i < |batches| && FailsAt(world, pos, batches, i)
  {
    if TranslateAll(world, pos, batches).outcome.Failed? {
      var i := FailingBatch(world, pos, batches);
    }
    if i :| 0 <= i < |batches| && FailsAt(world, pos, batches, i) {
      FailureIsFinal(world, pos, batches, i);
    }
  }

  predicate FailsAt(world: World, pos: nat, batches: seq<seq<BatchItem>>, i: nat)
    requires i < |batches|
  {
    var before := TranslateAll(world, pos, batches[..i]);
    before.outcome.Translated? && Translate(world, before.next, batches[i]).outcome.Failed?
  }

  /** When every batch is answered at once, all are translated, with a prompt each. */
  lemma {:induction false} AllAnsweredAtOnce(world: World, pos: nat, batches: seq<seq<BatchItem>>)
    requires forall i :: 0 <= i < |batches| ==> IsAnsweredAt(world, pos + i, batches[i])
    ensures var course := TranslateAll(world, pos, batches);
            course.outcome.Translated? && course.next == pos + |batches| && course.prompts == |batches|
  {
    if batches != [] {
      var n := |batches| - 1;
      forall i | 0 <= i < n ensures IsAnsweredAt(world, pos + i, batches[..n][i]) {
        assert IsAnsweredAt(world, pos + i, batches[i]);
      }
      AllAnsweredAtOnce(world, pos, batches[..n]);
      assert IsAnsweredAt(world, pos + n, batches[n]);
      AnsweredAtOnce(world, pos + n, batches[n]);
    }
  }

  predicate IsAnsweredAt(world: World, p: nat, batch: seq<BatchItem>) {
    world(p).Reply? && AllAnswered(batch, world(p).fields)
  }

  /** The body of the loop over the batches. */
  method TranslateOne(access: ClientAccess, batch: seq<BatchItem>, p: Progress, env: Env, now: int,
                      ghost from: nat, ghost done: seq<BatchItem>, ghost got: map<string, string>, ghost p0: Progress)
    returns (failure: Option<string>, p': Progress, ghost got': map<string, string>)
    requires batch != [] && DistinctKeys(done + batch)
    requires DoneWith(access.world, from, access.attempts, done, got, p0, p, env, now)
    modifies access
    ensures old(access.prompts) <= access.prompts <= old(access.prompts) + 4 * |batch| - 2
    ensures failure.Some? ==> !access.live
    ensures var course := Translate(access.world, old(access.attempts), batch);
            && access.attempts == course.next && access.prompts == old(access.prompts) + course.prompts
            && failure == (if course.outcome.Failed? then Some(course.outcome.message) else None)
            && got' == if course.outcome.Failed? then got else got + course.outcome.values
    ensures failure.None? ==> DoneWith(access.world, from, access.attempts, done + batch, got', p0, p', env, now)
  {
    p', got' := p, got;
    ghost var start := access.attempts;
    SuccessIsFaithful(access.world, start, batch, 0);
    PromptsAreBounded(access.world, start, batch, 0);
    var outcome := TranslateBatch(access, batch);
    if outcome.Failed? {
      return Some(outcome.message), p', got';
    }
    FaithfulCovers(access.world, start, access.attempts, batch, outcome.values);
    OneMoreBatch(p0, done, batch, access.world, from, start, access.attempts, got, outcome.values, env, now);
    p' := EnterBatch(p', batch, outcome.values, env, now);
    got' := got + outcome.values;
    failure := None;
  }

  lemma {:induction false} PrefixIsDistinct(items: seq<BatchItem>, part: seq<BatchItem>)
    requires DistinctKeys(items) && part <= items
    ensures DistinctKeys(part)
  {
    assert forall i :: 0 <= i < |part| ==> part[i] == items[i];
  }

  lemma {:induction false} ConcatOneMore(batches: seq<seq<BatchItem>>, n: nat)
    requires n < |batches|
    ensures Concat(batches[..n + 1]) == Concat(batches[..n]) + batches[n]
  {
    assert batches[..n + 1][..n] == batches[..n];
  }

  /** The batches went the course they have to go: the failure, if any, the attempts used, the prompts
      sent and the translations got are those of that course. */
  ghost predicate Followed(world: World, pos: nat, prompts0: nat, batches: seq<seq<BatchItem>>,
                           failure: Option<string>, attempts: nat, prompts: nat, got: map<string, string>)
  {
    var course := TranslateAll(world, pos, batches);
    && failure == (if course.outcome.Failed? then Some(course.outcome.message) else None)
    && attempts == course.next && prompts == prompts0 + course.prompts
    && (course.outcome.Translated? ==> got == course.outcome.values)
  }

  /** The batches are translated one after the other; the first failure ends the run. */
  method TranslatePending(access: ClientAccess, batches: seq<seq<BatchItem>>, p: Progress, env: Env, now: int,
                          ghost items: seq<BatchItem>)
    returns (failure: Option<string>, p': Progress, ghost got: map<string, string>)
    requires Concat(batches) == items && DistinctKeys(items)
    requires forall i :: 0 <= i < |batches| ==> batches[i] != []
    modifies access
    ensures !access.live
    ensures old(access.prompts) <= access.prompts <= old(access.prompts) + 4 * |items| - 2 * |batches|
    ensures failure.None? ==> DoneWith(access.world, old(access.attempts), access.attempts, items, got, p, p', env, now)
    ensures Followed(access.world, old(access.attempts), old(access.prompts), batches, failure, access.attempts,
                     access.prompts, got)
  {
    p', got := p, map[];
    ghost var done := [];
    ConcatPrefix(batches, 0);
    for index := 0 to |batches|
      invariant done == Concat(batches[..index])
      invariant old(access.prompts) <= access.prompts <= old(access.prompts) + 4 * |done| - 2 * index
      invariant DoneWith(access.world, old(access.attempts), access.attempts, done, got, p, p', env, now)
      invariant Followed(access.world, old(access.attempts), old(access.prompts), batches[..index], None,
                         access.attempts, access.prompts, got)
    {
      ConcatOneMore(batches, index);
      ConcatPrefix(batches, index + 1);
      BatchesInTurn(access.world, old(access.attempts), batches, index);
      PrefixIsDistinct(items, done + batches[index]);
      failure, p', got := TranslateOne(access, batches[index], p', env, now, old(access.attempts), done, got, p);
      done := done + batches[index];
      if failure.Some? {
        FailureEndsAll(access.world, old(access.attempts), batches, index + 1);
        return;
      }
    }
    assert batches[..|batches|] == batches;
    access.ResetClient();
    failure := None;
  }

  // ---------------------------------------------------------------- putting it together

  lemma {:induction false} PendingItems(files: Files, source: Source, env: Env, locale: string, n: nat)
    requires n <= |source.keys| && source.Valid()
    ensures var items := PendingOf(files, source, env, locale, n);
            && DistinctKeys(items)
            && (forall i :: 0 <= i < |items| ==>
                  Among(source.keys, n, items[i].key) && IsPending(files, source, env, locale, items[i].key)
                  && items[i] == ItemOf(env, locale, items[i].key, source.texts[items[i].key]))
  {
    if n > 0 {
      PendingItems(files, source, env, locale, n - 1);
      FirstOf(source.keys, n);
    }
  }

  /** The n-th of different keys is not among those before it. */
  lemma {:induction false} FirstOf(keys: seq<string>, n: nat)
    requires 0 < n <= |keys| && Tree.Distinct(keys)
    ensures !Among(keys, n - 1, keys[n - 1])
  {
    AmongIs(keys, n - 1, keys[n - 1]);
  }

  /** The work list is in the order of the source file. */
  lemma {:induction false} WorkInOrder(files: Files, source: Source, env: Env, locale: string, n: nat,
                                       i: nat, j: nat, a: nat, b: nat)
    requires n <= |source.keys| && source.Valid()
    requires i < j < |PendingOf(files, source, env, locale, n)| && a < |source.keys| && b < |source.keys|
    requires PendingOf(files, source, env, locale, n)[i].key == source.keys[a]
    requires PendingOf(files, source, env, locale, n)[j].key == source.keys[b]
    ensures a < b
  {
    var items, rest := PendingOf(files, source, env, locale, n), PendingOf(files, source, env, locale, n - 1);
    if j < |rest| {
      WorkInOrder(files, source, env, locale, n - 1, i, j, a, b);
    } else {
      PendingItems(files, source, env, locale, n - 1);
      assert items[i] == rest[i] && Among(source.keys, n - 1, rest[i].key);
      AmongIs(source.keys, n - 1, source.keys[a]);
      var k :| 0 <= k < n - 1 && source.keys[k] == source.keys[a];
      assert source.keys[n - 1] == source.keys[b];
    }
  }

  lemma {:induction false} PendingHasKey(files: Files, source: Source, env: Env, locale: string, n: nat, key: string)
    requires n <= |source.keys| && source.Valid()
    ensures HasKey(PendingOf(files, source, env, locale, n), key) <==>
              Among(source.keys, n, key) && IsPending(files, source, env, locale, key)
  {
    if n > 0 {
      PendingHasKey(files, source, env, locale, n - 1, key);
      var last := source.keys[n - 1];
      assert last in source.keys;
      var rest := PendingOf(files, source, env, locale, n - 1);
      HasKeyMore(rest, ItemOf(env, locale, last, source.texts[last]), key);
    }
  }

  lemma {:induction false} HasKeyMore(items: seq<BatchItem>, item: BatchItem, key: string)
    ensures HasKey(items + [item], key) <==> HasKey(items, key) || item.key == key
  {
    var more := items + [item];
    if i :| 0 <= i < |items| && items[i].key == key {
      assert more[i].key == key;
    }
    assert more[|items|].key == item.key;
  }

  lemma {:induction false} EnteredFlat(p: Progress, items: seq<BatchItem>, values: map<string, string>,
                                       env: Env, now: int, key: string)
    requires Covers(items, values)
    ensures var flat := Enter(p, items, values, env, now).flat;
            if HasKey(items, key) then key in values && key in flat && flat[key] == values[key]
            else (key in flat <==> key in p.flat) && (key in flat ==> flat[key] == p.flat[key])
  {
    if items != [] {
      var n := |items| - 1;
      EnteredFlat(p, items[..n], values, env, now, key);
      if i :| 0 <= i < |items| && items[i].key == key {
        assert i < n ==> items[..n][i].key == key;
      }
      if i :| 0 <= i < n && items[..n][i].key == key {
        assert items[i].key == key;
      }
      assert items[n].key == key ==> HasKey(items, key);
    }
  }

  lemma {:induction false} EnteredTm(p: Progress, items: seq<BatchItem>, values: map<string, string>,
                                     env: Env, now: int, c: CacheKey)
    requires Covers(items, values) && DistinctKeys(items)
    requires forall i :: 0 <= i < |items| ==> items[i].cacheKey.segmentId == items[i].key
    ensures var tm := Enter(p, items, values, env, now).tm;
            && (c in p.tm ==> c in tm)
            && (c in tm ==> (c in p.tm && tm[c] == p.tm[c]) || exists i :: 0 <= i < |items| && items[i].cacheKey == c)
            && (forall i :: 0 <= i < |items| && items[i].cacheKey == c ==>
                  c in tm && tm[c] == EntryOf(env, items[i].key, items[i].text, values[items[i].key], now))
  {
    if items != [] {
      var n := |items| - 1;
      EnteredTm(p, items[..n], values, env, now, c);
      var tm := Enter(p, items, values, env, now).tm;
      forall i | 0 <= i < |items| && items[i].cacheKey == c
        ensures c in tm && tm[c] == EntryOf(env, items[i].key, items[i].text, values[items[i].key], now)
      {
        if i < n {
          assert items[..n][i] == items[i] && items[i].key != items[n].key;
        }
      }
    }
  }

  ghost predicate FilledIn(pending: seq<BatchItem>, before: map<string, string>, flat: map<string, string>,
                           carried: set<string>, fallback: set<string>)
  {
    FilledMap(pending, before, flat) && fallback == carried + MissingKeys(pending, before)
  }

  ghost predicate FilledMap(pending: seq<BatchItem>, before: map<string, string>, flat: map<string, string>) {
    && (forall key :: key in flat <==> key in before || HasKey(pending, key))
    && (forall key :: key in before ==> flat[key] == before[key])
    && (forall item :: item in pending && item.key !in before ==> item.key in flat && flat[item.key] == item.text)
  }

  lemma {:induction false} FilledMapMore(pending: seq<BatchItem>, n: nat, before: map<string, string>,
                                         flat: map<string, string>)
    requires n < |pending| && DistinctKeys(pending) && FilledMap(pending[..n], before, flat)
    requires pending[n].key !in before
    ensures FilledMap(pending[..n + 1], before, flat[pending[n].key := pending[n].text])
  {
    KeysOneMore(pending, n);
  }

  function MissingKeys(items: seq<BatchItem>, before: map<string, string>): set<string> {
    set item | item in items && item.key !in before :: item.key
  }

  lemma {:induction false} MissingOneMore(items: seq<BatchItem>, n: nat, before: map<string, string>)
    requires n < |items|
    ensures MissingKeys(items[..n + 1], before) ==
              MissingKeys(items[..n], before) + if items[n].key in before then {} else {items[n].key}
  {
    assert items[..n + 1] == items[..n] + [items[n]];
  }

  /** The next item has a string exactly if it had one before the loop. */
  lemma {:induction false} FilledBefore(pending: seq<BatchItem>, n: nat, before: map<string, string>,
                                        flat: map<string, string>, carried: set<string>, fallback: set<string>)
    requires n < |pending| && DistinctKeys(pending) && FilledIn(pending[..n], before, flat, carried, fallback)
    ensures pending[n].key in flat <==> pending[n].key in before
  {
    KeysOneMore(pending, n);
  }

  lemma {:induction false} FilledAlready(pending: seq<BatchItem>, n: nat, before: map<string, string>,
                                         flat: map<string, string>, carried: set<string>, fallback: set<string>)
    requires n < |pending| && DistinctKeys(pending) && FilledIn(pending[..n], before, flat, carried, fallback)
    requires pending[n].key in before
    ensures FilledIn(pending[..n + 1], before, flat, carried, fallback)
  {
    KeysOneMore(pending, n);
    MissingOneMore(pending, n, before);
  }

  lemma {:induction false} FilledNow(pending: seq<BatchItem>, n: nat, before: map<string, string>,
                                     flat: map<string, string>, carried: set<string>, fallback: set<string>)
    requires n < |pending| && DistinctKeys(pending) && FilledIn(pending[..n], before, flat, carried, fallback)
    requires pending[n].key !in before
    ensures FilledIn(pending[..n + 1], before, flat[pending[n].key := pending[n].text],
                     carried, fallback + {pending[n].key})
  {
    FilledMapMore(pending, n, before, flat);
    MissingOneMore(pending, n, before);
  }

  /** The last loop over the work list: English for what is still missing. The arm that would
      take an existing string instead is never entered. */
  method FillIn(pending: seq<BatchItem>, flat0: map<string, string>, fallback0: set<string>, files: Files, force: bool)
    returns (flat: map<string, string>, fallback: set<string>)
    requires DistinctKeys(pending)
    requires forall item :: item in pending && item.key !in flat0 ==> item.key !in files.strings
    ensures FilledIn(pending, flat0, flat, fallback0, fallback)
  {
    flat, fallback := flat0, fallback0;
    for index := 0 to |pending|
      invariant FilledIn(pending[..index], flat0, flat, fallback0, fallback)
    {
      var item := pending[index];
      FilledBefore(pending, index, flat0, flat, fallback0, fallback);
      if item.key in flat {
        FilledAlready(pending, index, flat0, flat, fallback0, fallback);
      } else {
        if item.key in files.strings && !force {
          assert false;
        } else {
          FilledNow(pending, index, flat0, flat, fallback0, fallback);
          flat := flat[item.key := item.text];
          fallback := fallback + {item.key};
        }
      }
    }
    assert pending[..|pending|] == pending;
  }

  lemma {:induction false} KeysOneMore(items: seq<BatchItem>, index: nat)
    requires index < |items| && DistinctKeys(items)
    ensures items[..index + 1] == items[..index] + [items[index]]
    ensures forall key :: HasKey(items[..index + 1], key) <==> HasKey(items[..index], key) || key == items[index].key
    ensures !HasKey(items[..index], items[index].key)
    ensures forall item :: item in items[..index] ==> HasKey(items[..index], item.key)
  {
    forall key
      ensures HasKey(items[..index + 1], key) <==> HasKey(items[..index], key) || key == items[index].key
    {
      var more := items[..index + 1];
      if i :| 0 <= i < |more| && more[i].key == key {
        assert i < index ==> items[..index][i].key == key;
      }
      if i :| 0 <= i < index && items[..index][i].key == key {
        assert more[i].key == key;
      }
      assert more[index].key == items[index].key;
    }
    forall item | item in items[..index] ensures HasKey(items[..index], item.key) {
      var i :| 0 <= i < index && items[..index][i] == item;
    }
  }

  datatype RunOptions = RunOptions(checkOnly: bool, force: bool, write: bool)

  /** `disk` is what the files are once the run is over. */
  datatype SyncOutcome =
    | Aborted(message: string)
    | Done(disk: Files, changed: bool, fallbackCount: nat, wrote: bool)

  /** The state between the translation and the last loop. */
  ghost predicate Collected(files: Files, source: Source, env: Env, locale: string, got: map<string, string>, now: int,
                            p: Progress)
    requires source.Valid()
  {
    var pending := PendingOf(files, source, env, locale, |source.keys|);
    var start := Progress(CarriedOver(files, source, env, locale, |source.keys|).0, files.tm);
    if env.allowTranslate then
      && Covers(pending, got) && p == Enter(start, pending, got, env, now)
      && forall key :: key in got <==> HasKey(pending, key)
    else got == map[] && p == start
  }

  lemma {:induction false} CollectedFlat(files: Files, source: Source, env: Env, locale: string,
                                         got: map<string, string>, now: int, p: Progress, key: string)
    requires source.Valid() && Collected(files, source, env, locale, got, now, p)
    ensures key in got <==> env.allowTranslate && IsPending(files, source, env, locale, key)
    ensures key in p.flat <==> key in source.texts && (IsPending(files, source, env, locale, key) ==> key in got)
    ensures key in p.flat ==> p.flat[key] == NextFlat(files, source, env, locale, got)[key]
  {
    var n := |source.keys|;
    AmongIs(source.keys, n, key);
    PendingHasKey(files, source, env, locale, n, key);
    CarriedOverAt(files, source, env, locale, n, key);
    if env.allowTranslate {
      EnteredFlat(Progress(CarriedOver(files, source, env, locale, n).0, files.tm),
                  PendingOf(files, source, env, locale, n), got, env, now, key);
    }
  }

  lemma {:induction false} OldEntries(files: Files, source: Source, env: Env, locale: string,
                                      got: map<string, string>, now: int, p: Progress, c: CacheKey)
    requires source.Valid() && Collected(files, source, env, locale, got, now, p)
    ensures c in files.tm ==> c in p.tm
    ensures c in p.tm ==>
              || (c in files.tm && p.tm[c] == files.tm[c])
              || (c.segmentId in got && c.segmentId in source.texts
                      && c == KeyOf(env, locale, c.segmentId, source.texts[c.segmentId]))
  {
    var n := |source.keys|;
    var items := PendingOf(files, source, env, locale, n);
    PendingItems(files, source, env, locale, n);
    if env.allowTranslate {
      EnteredTm(Progress(CarriedOver(files, source, env, locale, n).0, files.tm), items, got, env, now, c);
      if i :| 0 <= i < |items| && items[i].cacheKey == c {
        assert HasKey(items, items[i].key) && c.segmentId == items[i].key;
        assert IsPending(files, source, env, locale, items[i].key);
      }
    }
  }

  lemma {:induction false} NewEntry(files: Files, source: Source, env: Env, locale: string, got: map<string, string>,
                                    now: int, p: Progress, key: string)
    requires source.Valid() && Collected(files, source, env, locale, got, now, p)
    requires key in got && key in source.texts
    ensures var c := KeyOf(env, locale, key, source.texts[key]);
            c in p.tm && p.tm[c] == EntryOf(env, key, source.texts[key], got[key], now)
  {
    var n := |source.keys|;
    var items := PendingOf(files, source, env, locale, n);
    PendingItems(files, source, env, locale, n);
    var i :| 0 <= i < |items| && items[i].key == key;
    EnteredTm(Progress(CarriedOver(files, source, env, locale, n).0, files.tm), items, got, env, now,
              items[i].cacheKey);
  }

  lemma {:induction false} CollectedTm(files: Files, source: Source, env: Env, locale: string,
                                       got: map<string, string>, now: int, p: Progress)
    requires source.Valid() && Collected(files, source, env, locale, got, now, p)
    ensures NextTm(files, source, env, locale, got, now, p.tm)
  {
    forall key | key in got && key in source.texts
      ensures var c := KeyOf(env, locale, key, source.texts[key]);
              c in p.tm && p.tm[c] == EntryOf(env, key, source.texts[key], got[key], now)
    {
      NewEntry(files, source, env, locale, got, now, p, key);
    }
    forall c
      ensures c in files.tm ==> c in p.tm
      ensures c in p.tm ==>
                || (c in files.tm && p.tm[c] == files.tm[c])
                || (c.segmentId in got && c.segmentId in source.texts
                        && c == KeyOf(env, locale, c.segmentId, source.texts[c.segmentId]))
    {
      OldEntries(files, source, env, locale, got, now, p, c);
    }
  }

  /** The first half of `syncLocale`: classify, then have the work list translated. */
  method Gather(files: Files, source: Source, env: Env, locale: string, budget: nat, now: int, access: ClientAccess)
    returns (failure: Option<string>, p: Progress, pending: seq<BatchItem>, fallback: set<string>,
             ghost got: map<string, string>, ghost batches: seq<seq<BatchItem>>)
    requires source.Valid()
    modifies access
    ensures pending == PendingOf(files, source, env, locale, |source.keys|)
    ensures fallback == CarriedOver(files, source, env, locale, |source.keys|).1
    ensures Concat(batches) == (if env.allowTranslate then pending else []) && IsGreedy(batches, budget)
    ensures old(access.prompts) <= access.prompts <= old(access.prompts) + 4 * |Concat(batches)| - 2 * |batches|
    ensures Followed(access.world, old(access.attempts), old(access.prompts), batches, failure, access.attempts,
                     access.prompts, got)
    ensures failure.None? ==> Collected(files, source, env, locale, got, now, p)
    ensures failure.None? && env.allowTranslate ==>
              Faithful(access.world, old(access.attempts), access.attempts, pending, got)
  {
    got, batches, failure := map[], [], None;
    var flat;
    flat, pending, fallback := Classify(files, source, env, locale);
    p := Progress(flat, files.tm);
    if env.allowTranslate && pending != [] {
      PendingItems(files, source, env, locale, |source.keys|);
      var work := BuildTranslationBatches(pending, budget);
      batches := work;
      failure, p, got := TranslatePending(access, work, p, env, now, pending);
    }
  }

  /** The second half: fill in English, build the locale object, and put the metadata together. */
  method Assemble(files: Files, source: Source, env: Env, locale: string, now: int, p: Progress,
                  pending: seq<BatchItem>, fallback: set<string>, force: bool, ghost got: map<string, string>)
    returns (next: Files)
    requires source.Valid() && Collected(files, source, env, locale, got, now, p)
    requires pending == PendingOf(files, source, env, locale, |source.keys|)
    requires fallback == CarriedOver(files, source, env, locale, |source.keys|).1
    ensures Completed(files, source, env, locale, got, now, next)
  {
    CollectedTm(files, source, env, locale, got, now, p);
    NotInStrings(files, source, env, locale, got, now, p);
    PendingItems(files, source, env, locale, |source.keys|);
    var flat, fallback' := FillIn(pending, p.flat, fallback, files, force);
    FilledStrings(files, source, env, locale, got, now, p, flat, fallback, fallback');
    FilledFallback(files, source, env, locale, got, now, p, flat, fallback, fallback');
    var strings := Tree.RebuildAndFlatten(source.keys, flat);
    next := Files(strings, Some(NextMeta(files, source, env, locale, fallback', now)), p.tm);
  }

  /** `syncLocale`. The ghost results are what the run assembled, the translations it got, and
      the batches it sent. */
  method SyncLocale(files: Files, source: Source, env: Env, locale: string, options: RunOptions,
                    budget: nat, now: int, access: ClientAccess)
    returns (outcome: SyncOutcome, ghost next: Files, ghost got: map<string, string>,
             ghost batches: seq<seq<BatchItem>>)
    requires source.Valid()
    modifies access
    ensures Concat(batches) == if env.allowTranslate then PendingOf(files, source, env, locale, |source.keys|) else []
    ensures IsGreedy(batches, budget)
    ensures old(access.prompts) <= access.prompts <= old(access.prompts) + 4 * |Concat(batches)| - 2 * |batches|
    ensures Followed(access.world, old(access.attempts), old(access.prompts), batches,
                     if outcome.Aborted? then Some(outcome.message) else None, access.attempts, access.prompts, got)
    ensures outcome.Done? ==> Completed(files, source, env, locale, got, now, next)
    ensures outcome.Done? && env.allowTranslate ==>
              Faithful(access.world, old(access.attempts), access.attempts, Concat(batches), got)
    ensures outcome.Done? ==> (outcome.changed <==> next != files)
    ensures outcome.Done? ==> (outcome.wrote <==> next != files && options.write && !options.checkOnly)
    ensures outcome.Done? ==> outcome.disk == if outcome.wrote then next else files
    ensures outcome.Done? ==> next.meta.Some? && outcome.fallbackCount == |next.meta.value.fallbackKeys|
  {
    next := files;
    var failure, p, pending, fallback;
    failure, p, pending, fallback, got, batches := Gather(files, source, env, locale, budget, now, access);
    if failure.Some? {
      return Aborted(failure.value), next, got, batches;
    }
    var expected := Assemble(files, source, env, locale, now, p, pending, fallback, options.force, got);
    next := expected;
    outcome := WriteBack(files, source, expected, options);
  }

  /** The end of a completed run: the files are written when they differ and writing was asked for;
      whether they differ is reported in any case. */
  method WriteBack(files: Files, source: Source, expected: Files, options: RunOptions) returns (outcome: SyncOutcome)
    requires expected.meta.Some?
    ensures outcome.Done? && (outcome.changed <==> expected != files)
    ensures outcome.wrote <==> expected != files && options.write && !options.checkOnly
    ensures outcome.disk == if outcome.wrote then expected else files
    ensures outcome.fallbackCount == |expected.meta.value.fallbackKeys|
  {
    var changed := expected != files;
    var fallbackCount := |expected.meta.value.fallbackKeys|;
    var sameSource := files.meta.Some? && files.meta.value.sourceHash == source.hash;
    if !changed || (sameSource && !options.force && !options.checkOnly && !options.write) {
      return Done(files, changed, fallbackCount, false);
    }
    var disk := files;
    if !options.checkOnly && options.write {
      disk := expected;
    }
    return Done(disk, changed, fallbackCount, !options.checkOnly && options.write && changed);
  }

  lemma {:induction false} NotInStrings(files: Files, source: Source, env: Env, locale: string,
                                        got: map<string, string>, now: int, p: Progress)
    requires source.Valid() && Collected(files, source, env, locale, got, now, p)
    ensures forall item :: item in PendingOf(files, source, env, locale, |source.keys|) && item.key !in p.flat ==>
              item.key !in files.strings
  {
    var items := PendingOf(files, source, env, locale, |source.keys|);
    PendingItems(files, source, env, locale, |source.keys|);
    forall item | item in items && item.key !in p.flat ensures item.key !in files.strings {
      var i :| 0 <= i < |items| && items[i] == item;
      CollectedFlat(files, source, env, locale, got, now, p, item.key);
    }
  }

  lemma {:induction false} FilledAt(files: Files, source: Source, env: Env, locale: string, got: map<string, string>,
                                    now: int, p: Progress, flat: map<string, string>, carried: set<string>,
                                    fallback: set<string>, key: string)
    requires source.Valid() && Collected(files, source, env, locale, got, now, p)
    requires carried == CarriedOver(files, source, env, locale, |source.keys|).1
    requires FilledIn(PendingOf(files, source, env, locale, |source.keys|), p.flat, flat, carried, fallback)
    ensures key in flat <==> key in source.texts
    ensures key in flat ==> flat[key] == NextFlat(files, source, env, locale, got)[key]
    ensures key in fallback <==> key in NextFallback(files, source, env, locale, got)
  {
    var n := |source.keys|;
    var pending := PendingOf(files, source, env, locale, n);
    AmongIs(source.keys, n, key);
    CollectedFlat(files, source, env, locale, got, now, p, key);
    PendingHasKey(files, source, env, locale, n, key);
    CarriedOverAt(files, source, env, locale, n, key);
    if HasKey(pending, key) {
      PendingItems(files, source, env, locale, n);
      var i :| 0 <= i < |pending| && pending[i].key == key;
      assert pending[i] in pending && pending[i].text == source.texts[key];
    } else {
      forall item | item in pending ensures item.key != key {
        var i :| 0 <= i < |pending| && pending[i] == item;
        assert HasKey(pending, pending[i].key);
      }
    }
  }

  lemma {:induction false} FilledStrings(files: Files, source: Source, env: Env, locale: string,
                                         got: map<string, string>, now: int, p: Progress, flat: map<string, string>,
                                         carried: set<string>, fallback: set<string>)
    requires source.Valid() && Collected(files, source, env, locale, got, now, p)
    requires carried == CarriedOver(files, source, env, locale, |source.keys|).1
    requires FilledIn(PendingOf(files, source, env, locale, |source.keys|), p.flat, flat, carried, fallback)
    ensures flat == NextFlat(files, source, env, locale, got)
  {
    forall key ensures SameAt(flat, NextFlat(files, source, env, locale, got), key) {
      FilledAt(files, source, env, locale, got, now, p, flat, carried, fallback, key);
    }
    SameMap(flat, NextFlat(files, source, env, locale, got));
  }

  predicate SameAt(a: map<string, string>, b: map<string, string>, key: string) {
    (key in a <==> key in b) && (key in a && key in b ==> a[key] == b[key])
  }

  lemma {:induction false} SameMap(a: map<string, string>, b: map<string, string>)
    requires forall key :: SameAt(a, b, key)
    ensures a == b
  {
    assert forall key :: key in a ==> SameAt(a, b, key);
    assert forall key :: key in b ==> SameAt(a, b, key);
  }

  lemma {:induction false} FilledFallback(files: Files, source: Source, env: Env, locale: string,
                                          got: map<string, string>, now: int, p: Progress, flat: map<string, string>,
                                          carried: set<string>, fallback: set<string>)
    requires source.Valid() && Collected(files, source, env, locale, got, now, p)
    requires carried == CarriedOver(files, source, env, locale, |source.keys|).1
    requires FilledIn(PendingOf(files, source, env, locale, |source.keys|), p.flat, flat, carried, fallback)
    ensures CoversPending(files, source, env, locale, got)
    ensures fallback == NextFallback(files, source, env, locale, got)
  {
    forall key
      ensures key in got <==> env.allowTranslate && IsPending(files, source, env, locale, key)
      ensures key in fallback <==> key in NextFallback(files, source, env, locale, got)
    {
      CollectedFlat(files, source, env, locale, got, now, p, key);
      FilledAt(files, source, env, locale, got, now, p, flat, carried, fallback, key);
    }
  }

  /** Two runs in a row: if the first one completes and writes, the second one completes without
      sending anything, finds nothing changed and writes nothing. */
  method SyncTwice(files: Files, source: Source, env: Env, locale: string, options: RunOptions, again: RunOptions,
                   budget: nat, now: int, later: int, access: ClientAccess)
    returns (first: SyncOutcome, second: SyncOutcome, promptsBetween: nat)
    requires source.Valid() && Tree.Rebuildable(source.keys)
    requires options.write && !options.checkOnly
    modifies access
    ensures first.Done? ==> second == Done(first.disk, false, first.fallbackCount, false)
    ensures first.Done? ==> access.prompts == promptsBetween
    ensures first.Done? && env.allowTranslate ==> first.fallbackCount == 0
  {
    ghost var next, got, batches;
    first, next, got, batches := SyncLocale(files, source, env, locale, options, budget, now, access);
    promptsBetween := access.prompts;
    second := first;
    if first.Done? {
      ghost var next', got', batches';
      FallbackIsSound(files, source, env, locale, got, now, next);
      NothingPending(files, source, env, locale, got, now, next);
      second, next', got', batches' := SyncLocale(first.disk, source, env, locale, again, budget, later, access);
      if batches' != [] {
        AfterFirstBatch(batches');
      }
      SyncIsAFixpoint(files, source, env, locale, got, now, next, got', later, next');
    }
  }

  lemma {:induction false} NothingPending(files: Files, source: Source, env: Env, locale: string,
                                          got: map<string, string>, now: int, next: Files)
    requires source.Valid() && Tree.Rebuildable(source.keys)
    requires Completed(files, source, env, locale, got, now, next)
    ensures PendingOf(next, source, env, locale, |source.keys|) == []
  {
    forall key | key in source.texts ensures Reuse(next, env, locale, key, source.texts[key]).Some? {
      NothingLeft(files, source, env, locale, got, now, next, key);
    }
    NoPending(next, source, env, locale, |source.keys|);
  }

  /** A run that only checks, and a run that writes, on the same files and with the same answers: the check
      writes nothing, and reports a change if and only if the other run has something to write. */
  method CheckThenWrite(files: Files, source: Source, env: Env, locale: string, force: bool, budget: nat, now: int,
                        checker: ClientAccess, writer: ClientAccess)
    returns (check: SyncOutcome, write: SyncOutcome)
    requires source.Valid() && Tree.Rebuildable(source.keys)
    requires checker != writer && checker.world == writer.world && checker.attempts == writer.attempts
    modifies checker, writer
    ensures check.Aborted? ==> write == check
    ensures check.Done? ==> write.Done? && check.disk == files && !check.wrote
    ensures check.Done? ==> (check.changed <==> write.wrote) && (write.wrote <==> write.disk != files)
  {
    ghost var next, got, batches, next', got', batches';
    check, next, got, batches := SyncLocale(files, source, env, locale, RunOptions(true, force, false), budget, now,
                                            checker);
    write, next', got', batches' := SyncLocale(files, source, env, locale, RunOptions(false, force, true), budget, now,
                                               writer);
    GreedyIsUnique(batches, batches', budget);
    if check.Done? {
      CompletedIsUnique(files, source, env, locale, got, now, next, next');
    }
  }
}
