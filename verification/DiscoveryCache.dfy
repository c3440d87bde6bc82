/** The cache of `discoverBedrockModels` in extensions/amazon-bedrock/discovery.ts: results are
    kept for a refresh interval, and calls made while a fetch is under way join it. */
module DiscoveryCache {
  import opened Options

  type Models = seq<string>

  /** The parameters a cache key is made of. */
  datatype Key = Key(region: string, providerFilter: seq<string>, refreshIntervalSeconds: nat,
                     defaultContextWindow: int, defaultMaxTokens: int)

  datatype Entry = Entry(expiresAt: int, value: Option<Models>, inFlight: Option<nat>)

  /** The promise of one fetch. */
  datatype Settlement = Running | Fetched(models: Models) | Errored

  /** A fetch: who asked, when, what it came to, and whether the call that began it has gone on
      after its `await`. */
  datatype Fetch = Fetch(key: Key, startedAt: int, result: Settlement, resumed: bool)

  datatype State = State(cache: map<Key, Entry>, fetches: seq<Fetch>)

  const INITIAL := State(map[], [])

  /** How a call goes on: with a cached value, with another call's promise, or with its own. */
  datatype Answer = FromCache(models: Models) | Joined(fetch: nat) | Started(fetch: nat)

  datatype Event =
    | Called(key: Key, now: int)
    | Settled(fetch: nat, result: Settlement)
    | Resumed(fetch: nat)

  function IntervalMs(key: Key): int {
    key.refreshIntervalSeconds * 1000
  }

  predicate Caches(key: Key) {
    key.refreshIntervalSeconds > 0
  }

  function AnswerTo(s: State, key: Key, now: int): Answer {
    if Caches(key) && key in s.cache && s.cache[key].value.Some? && s.cache[key].expiresAt > now
    then FromCache(s.cache[key].value.value)
    else if Caches(key) && key in s.cache && s.cache[key].inFlight.Some?
    then Joined(s.cache[key].inFlight.value)
    else Started(|s.fetches|)
  }

  function Step(s: State, e: Event): State {
    match e
    case Called(key, now) =>
      if !AnswerTo(s, key, now).Started? then s
      else
        State(if Caches(key) then s.cache[key := Entry(now + IntervalMs(key), None, Some(|s.fetches|))] else s.cache,
              s.fetches + [Fetch(key, now, Running, false)])
    case Settled(f, result) =>
      if f < |s.fetches| && s.fetches[f].result == Running
      then s.(fetches := s.fetches[f := s.fetches[f].(result := result)]) else s
    case Resumed(f) =>
      if f >= |s.fetches| || s.fetches[f].result == Running || s.fetches[f].resumed then s
      else
        var fetch := s.fetches[f];
        State(if !Caches(fetch.key) then s.cache
              else if fetch.result.Fetched?
              then s.cache[fetch.key := Entry(fetch.startedAt + IntervalMs(fetch.key), Some(fetch.result.models), None)]
              else s.cache - {fetch.key},
              s.fetches[f := fetch.(resumed := true)])
  }

  function After(events: seq<Event>): State {
    if events == [] then INITIAL
    else Step(After(events[..|events| - 1]), events[|events| - 1])
  }

  // ---------------------------------------------------------------- the module state

  class BedrockDiscovery {
    var cache: map<Key, Entry>
    var fetches: seq<Fetch>

    function View(): State
      reads this
    {
      State(cache, fetches)
    }

    constructor ()
      ensures View() == INITIAL
    {
      cache, fetches := map[], [];
    }

    /** `discoverBedrockModels` up to its `await`. */
    method Discover(key: Key, now: int) returns (answer: Answer)
      modifies this
      ensures answer == AnswerTo(old(View()), key, now)
      ensures View() == Step(old(View()), Called(key, now))
    {
      if key.refreshIntervalSeconds > 0 {
        if key in cache {
          var cached := cache[key];
          if cached.value.Some? && cached.expiresAt > now {
            return FromCache(cached.value.value);
          }
          if cached.inFlight.Some? {
            return Joined(cached.inFlight.value);
          }
        }
      }
      var promise := |fetches|;
      fetches := fetches + [Fetch(key, now, Running, false)];
      if key.refreshIntervalSeconds > 0 {
        cache := cache[key := Entry(now + key.refreshIntervalSeconds * 1000, None, Some(promise))];
      }
      return Started(promise);
    }

    /** The network answers. */
    method Settle(fetch: nat, result: Settlement)
      modifies this
      ensures View() == Step(old(View()), Settled(fetch, result))
    {
      if fetch < |fetches| && fetches[fetch].result == Running {
        fetches := fetches[fetch := fetches[fetch].(result := result)];
      }
    }

    /** The rest of the call that began a fetch. What it returns is `Outcome(…, Started(fetch))`. */
    method Resume(fetch: nat)
      modifies this
      ensures View() == Step(old(View()), Resumed(fetch))
    {
      if fetch >= |fetches| || fetches[fetch].result == Running || fetches[fetch].resumed {
        return;
      }
      var mine := fetches[fetch];
      fetches := fetches[fetch := mine.(resumed := true)];
      if mine.key.refreshIntervalSeconds > 0 {
        if mine.result.Fetched? {
          cache := cache[mine.key := Entry(mine.startedAt + mine.key.refreshIntervalSeconds * 1000,
                                           Some(mine.result.models), None)];
        } else {
          cache := cache - {mine.key};
        }
      }
    }
  }

  // ---------------------------------------------------------------- what every run keeps

  /** A fetch made for a caching key whose initiator has not gone on yet. */
  predicate IsOpen(s: State, f: nat) {
    f < |s.fetches| && !s.fetches[f].resumed && Caches(s.fetches[f].key)
  }

  /** Some finished fetch for `key` brought `models`, and the entry counts from its start. */
  ghost predicate Backed(s: State, key: Key, models: Models, expiresAt: int) {
    exists f :: 0 <= f < |s.fetches| && BackedBy(s, key, models, expiresAt, f)
  }

  predicate BackedBy(s: State, key: Key, models: Models, expiresAt: int, f: nat)
    requires f < |s.fetches|
  {
    s.fetches[f].key == key && s.fetches[f].result == Fetched(models)
            && expiresAt == s.fetches[f].startedAt + IntervalMs(key)
  }

  /** An entry holds a value or a promise, never both: the promise of an open fetch for its key,
      or the value of a finished one. */
  ghost predicate GoodEntry(s: State, key: Key)
    requires key in s.cache
  {
    var e := s.cache[key];
    && Caches(key)
    && (match e.inFlight
        case Some(f) => e.value.None? && IsOpen(s, f) && s.fetches[f].key == key
        case None => e.value.Some? && Backed(s, key, e.value.value, e.expiresAt))
  }

  /** Every open fetch is the one its key's entry points to. */
  ghost predicate Invariant(s: State) {
    && (forall key :: key in s.cache ==> GoodEntry(s, key))
    && (forall f: nat :: IsOpen(s, f) ==> s.fetches[f].key in s.cache && s.cache[s.fetches[f].key].inFlight == Some(f))
  }

  lemma {:induction false} StepKeepsBacked(s: State, e: Event, key: Key, models: Models, expiresAt: int)
    requires Backed(s, key, models, expiresAt)
    ensures Backed(Step(s, e), key, models, expiresAt)
  {
    var f :| 0 <= f < |s.fetches| && BackedBy(s, key, models, expiresAt, f);
    assert BackedBy(Step(s, e), key, models, expiresAt, f);
  }

  lemma {:induction false} StepKeepsEntry(s: State, e: Event, key: Key)
    requires Invariant(s) && key in Step(s, e).cache
    ensures GoodEntry(Step(s, e), key)
  {
    var t := Step(s, e);
    if key in s.cache && t.cache[key] == s.cache[key] {
      assert GoodEntry(s, key);
      if s.cache[key].value.Some? {
        StepKeepsBacked(s, e, key, s.cache[key].value.value, s.cache[key].expiresAt);
      }
    } else if e.Resumed? {
      assert BackedBy(t, key, t.cache[key].value.value, t.cache[key].expiresAt, e.fetch);
    }
  }

  lemma {:induction false} StepKeepsInvariant(s: State, e: Event)
    requires Invariant(s)
    ensures Invariant(Step(s, e))
  {
    forall key | key in Step(s, e).cache ensures GoodEntry(Step(s, e), key) {
      StepKeepsEntry(s, e, key);
    }
  }

  lemma {:induction false} EveryRunKeepsInvariant(events: seq<Event>)
    ensures Invariant(After(events))
  {
    if events != [] {
      EveryRunKeepsInvariant(events[..|events| - 1]);
      StepKeepsInvariant(After(events[..|events| - 1]), events[|events| - 1]);
    }
  }

  // ---------------------------------------------------------------- promises to callers

  /** For any key with a refresh interval at most one fetch is under way, whatever the order of
      calls and answers. */
  lemma {:induction false} OneFetchInFlight(events: seq<Event>, f: nat, g: nat)
    requires var s := After(events); IsOpen(s, f) && IsOpen(s, g) && s.fetches[f].key == s.fetches[g].key
    ensures f == g
  {
    EveryRunKeepsInvariant(events);
  }

  /** A value served from the cache was fetched for the very same key, by a fetch that began less
      than the refresh interval before. */
  lemma {:induction false} CachedValuesAreFresh(events: seq<Event>, key: Key, now: int)
    requires AnswerTo(After(events), key, now).FromCache?
    ensures var s := After(events);
            exists f :: 0 <= f < |s.fetches| && s.fetches[f].key == key
              && s.fetches[f].result == Fetched(AnswerTo(s, key, now).models)
              && now - s.fetches[f].startedAt < key.refreshIntervalSeconds * 1000
  {
    EveryRunKeepsInvariant(events);
    var s := After(events);
    assert GoodEntry(s, key);
    var f :| 0 <= f < |s.fetches| && BackedBy(s, key, s.cache[key].value.value, s.cache[key].expiresAt, f);
  }

  /** A call joins nothing but the open fetch of its own key; a new fetch begins only when there
      is none. */
  lemma {:induction false} CallsJoinTheOpenFetch(events: seq<Event>, key: Key, now: int)
    requires key.refreshIntervalSeconds > 0
    ensures var s := After(events);
            match AnswerTo(s, key, now)
            case FromCache(_) => forall g: nat :: IsOpen(s, g) ==> s.fetches[g].key != key
            case Joined(f) => IsOpen(s, f) && s.fetches[f].key == key
            case Started(f) => f == |s.fetches| && forall g: nat :: IsOpen(s, g) ==> s.fetches[g].key != key
  {
    EveryRunKeepsInvariant(events);
    var s := After(events);
    if key in s.cache {
      assert GoodEntry(s, key);
    }
  }

  /** What a call finally hands its caller: the models, or the error of the promise it joined. */
  datatype Result = Returned(models: Models) | Threw | NotYet

  function Outcome(s: State, answer: Answer): Result {
    match answer
    case FromCache(models) => Returned(models)
    case Joined(f) =>
      if f >= |s.fetches| then NotYet
      else (match s.fetches[f].result
            case Running => NotYet
            case Fetched(models) => Returned(models)
            case Errored => Threw)
    case Started(f) =>
      if f >= |s.fetches| then NotYet
      else (match s.fetches[f].result
            case Running => NotYet
            case Fetched(models) => Returned(models)
            case Errored => Returned([]))
  }

  /** Outcomes are final. */
  lemma {:induction false} OutcomeStays(events: seq<Event>, more: seq<Event>, answer: Answer)
    requires Outcome(After(events), answer) != NotYet
    ensures Outcome(After(events + more), answer) == Outcome(After(events), answer)
  {
    if more == [] {
      assert events + more == events;
    } else {
      OutcomeStays(events, more[..|more| - 1], answer);
      assert (events + more)[..|events + more| - 1] == events + more[..|more| - 1];
    }
  }

  /** Whoever joined a fetch sees what the call that began it sees, whenever each of them looks,
      if the fetch succeeded; if it failed, the initiator returns an empty list and the others throw. */
  lemma {:induction false} JoinersSeeTheSameValue(events: seq<Event>, m1: seq<Event>, m2: seq<Event>, f: nat)
    requires Outcome(After(events), Started(f)) != NotYet
    ensures var began, joined := Outcome(After(events + m1), Started(f)), Outcome(After(events + m2), Joined(f));
            began == joined || (began == Returned([]) && joined == Threw)
    ensures f < |After(events).fetches|
    ensures After(events).fetches[f].result.Errored? ==>
              Outcome(After(events + m1), Started(f)) == Returned([]) && Outcome(After(events + m2), Joined(f)) == Threw
    ensures After(events).fetches[f].result.Fetched? ==>
              Outcome(After(events + m1), Started(f)) == Outcome(After(events + m2), Joined(f))
                == Returned(After(events).fetches[f].result.models)
  {
    OutcomeStays(events, m1, Started(f));
    OutcomeStays(events, m2, Joined(f));
  }

  /** A failed fetch leaves no entry behind, and the next call for the key begins anew. */
  lemma {:induction false} FailureLeavesNoEntry(events: seq<Event>, f: nat, now: int)
    requires var s := After(events);
             f < |s.fetches| && s.fetches[f].result == Errored && !s.fetches[f].resumed
    ensures var s := After(events);
            var t := Step(s, Resumed(f));
            s.fetches[f].key !in t.cache && AnswerTo(t, s.fetches[f].key, now) == Started(|t.fetches|)
  {
    EveryRunKeepsInvariant(events);
    var s := After(events);
    if s.fetches[f].key in s.cache {
      assert GoodEntry(s, s.fetches[f].key);
    }
  }

  /** Fetch `f` supplies the answer to a call: its value is the cached one, or its promise is joined. */
  predicate Supplies(s: State, key: Key, now: int, f: nat) {
    f < |s.fetches| &&
    match AnswerTo(s, key, now)
    case FromCache(models) => BackedBy(s, key, models, s.cache[key].expiresAt, f)
    case Joined(g) => f == g
    case Started(_) => false
  }

  /** Fetch `f` began a refresh interval ago or earlier. */
  predicate IsOld(s: State, key: Key, now: int, f: nat) {
    f < |s.fetches| && now - s.fetches[f].startedAt >= key.refreshIntervalSeconds * 1000
  }

  /** The age check guards values only: a call is answered by a fetch that began an interval ago or
      earlier if and only if such a fetch is still under way for its key. */
  lemma {:induction false} OldAnswersComeFromOpenFetches(events: seq<Event>, key: Key, now: int)
    requires key.refreshIntervalSeconds > 0
    ensures var s := After(events);
            (exists f: nat :: Supplies(s, key, now, f) && IsOld(s, key, now, f)) <==>
              exists f: nat :: IsOpen(s, f) && s.fetches[f].key == key && IsOld(s, key, now, f)
  {
    var s := After(events);
    CallsJoinTheOpenFetch(events, key, now);
    if f: nat :| Supplies(s, key, now, f) && IsOld(s, key, now, f) {
      assert IsOpen(s, f) && s.fetches[f].key == key;
    }
    if f: nat :| IsOpen(s, f) && s.fetches[f].key == key && IsOld(s, key, now, f) {
      OneFetchInFlight(events, f, AnswerTo(s, key, now).fetch);
      assert Supplies(s, key, now, f);
    }
  }

  /** Such a call: it joins the one fetch there is, however long ago that began. */
  lemma {:induction false} JoiningIgnoresAge(key: Key, began: int, now: int)
    requires key.refreshIntervalSeconds > 0
    ensures AnswerTo(After([Called(key, began)]), key, now) == Joined(0)
  {
    assert [Called(key, began)][..0] == [];
  }

  // ---------------------------------------------------------------- the cache shows the last fetch

  /** The fetch for `key` that began last. */
  function LastFetch(fetches: seq<Fetch>, key: Key): (last: Option<nat>)
    ensures last.Some? ==> last.value < |fetches|
  {
    if fetches == [] then None
    else if fetches[|fetches| - 1].key == key then Some(|fetches| - 1)
    else LastFetch(fetches[..|fetches| - 1], key)
  }

  lemma {:induction false} LastFetchIsLast(fetches: seq<Fetch>, key: Key)
    ensures match LastFetch(fetches, key)
            case None => forall f :: 0 <= f < |fetches| ==> fetches[f].key != key
            case Some(f) => fetches[f].key == key
                            && forall g :: f < g < |fetches| ==> fetches[g].key != key
  {
    if fetches != [] {
      LastFetchIsLast(fetches[..|fetches| - 1], key);
    }
  }

  lemma {:induction false} LastFetchIs(fetches: seq<Fetch>, key: Key, f: nat)
    requires f < |fetches| && fetches[f].key == key && forall g :: f < g < |fetches| ==> fetches[g].key != key
    ensures LastFetch(fetches, key) == Some(f)
  {
    LastFetchIsLast(fetches, key);
  }

  /** The entry for a key, as its last fetch would have it: that fetch's promise while it is open, its value
      with its time once it succeeded, and none once it failed, or before there was any. */
  ghost predicate ShowsLastFetch(s: State, key: Key) {
    match LastFetch(s.fetches, key)
    case None => key !in s.cache
    case Some(f) =>
      s.fetches[f].key == key &&
      var fetch := s.fetches[f];
      if !fetch.resumed then key in s.cache && s.cache[key].value.None? && s.cache[key].inFlight == Some(f)
      else match fetch.result
        case Running => false
        case Fetched(models) =>
          key in s.cache && s.cache[key] == Entry(fetch.startedAt + IntervalMs(key), Some(models), None)
        case Errored => key !in s.cache
  }

  /** Resuming or settling a fetch changes neither keys nor number, so the last fetch stays the last. */
  lemma {:induction false} SameLastFetch(a: seq<Fetch>, b: seq<Fetch>, key: Key)
    requires |a| == |b| && forall f :: 0 <= f < |a| ==> a[f].key == b[f].key
    ensures LastFetch(a, key) == LastFetch(b, key)
  {
    if a != [] {
      SameLastFetch(a[..|a| - 1], b[..|b| - 1], key);
    }
  }

  lemma {:induction false} OneFetchMore(fetches: seq<Fetch>, fetch: Fetch, key: Key)
    ensures LastFetch(fetches + [fetch], key) == if fetch.key == key then Some(|fetches|) else LastFetch(fetches, key)
  {
    assert (fetches + [fetch])[..|fetches|] == fetches;
  }

  lemma {:induction false} StepShowsLastFetch(s: State, e: Event, key: Key)
    requires Caches(key) && Invariant(s) && ShowsLastFetch(s, key)
    ensures ShowsLastFetch(Step(s, e), key)
  {
    LastFetchIsLast(s.fetches, key);
    match e
    case Called(k, now) =>
      OneFetchMore(s.fetches, Fetch(k, now, Running, false), key);
    case Settled(f, result) =>
      SameLastFetch(s.fetches, Step(s, e).fetches, key);
    case Resumed(f) =>
      SameLastFetch(s.fetches, Step(s, e).fetches, key);
      if f < |s.fetches| && s.fetches[f].key == key && s.fetches[f].result != Running && !s.fetches[f].resumed {
        assert IsOpen(s, f);
      }
  }

  /** In every run. */
  lemma {:induction false} CacheShowsLastFetch(events: seq<Event>, key: Key)
    requires key.refreshIntervalSeconds > 0
    ensures ShowsLastFetch(After(events), key)
  {
    if events != [] {
      var n := |events| - 1;
      CacheShowsLastFetch(events[..n], key);
      EveryRunKeepsInvariant(events[..n]);
      StepShowsLastFetch(After(events[..n]), events[n], key);
    }
  }

  /** How a call is answered, at any point of any run: by the last fetch for its key. While that is open
      the call joins it; its models are served for less than an interval from when it began; and after
      that, after a failure, and the first time, the call fetches itself. */
  lemma {:induction false} LastFetchAnswers(events: seq<Event>, key: Key, now: int)
    requires key.refreshIntervalSeconds > 0
    ensures var s := After(events);
            AnswerTo(s, key, now) ==
              match LastFetch(s.fetches, key)
              case None => Started(|s.fetches|)
              case Some(f) =>
                if !s.fetches[f].resumed then Joined(f)
                else if s.fetches[f].result.Fetched?
                        && now - s.fetches[f].startedAt < key.refreshIntervalSeconds * 1000
                then FromCache(s.fetches[f].result.models)
                else Started(|s.fetches|)
  {
    CacheShowsLastFetch(events, key);
  }

  /** So the models of a fetch are served right after it, for as long as they are fresh. */
  lemma {:induction false} FetchedIsServed(events: seq<Event>, f: nat, now: int)
    requires IsOpen(After(events), f) && After(events).fetches[f].result.Fetched?
    requires now - After(events).fetches[f].startedAt < IntervalMs(After(events).fetches[f].key)
    ensures var fetch := After(events).fetches[f];
            AnswerTo(After(events + [Resumed(f)]), fetch.key, now) == FromCache(fetch.result.models)
  {
    EveryRunKeepsInvariant(events);
    assert (events + [Resumed(f)])[..|events|] == events;
  }

  /** A call that fetches has its fetch under way; the first answer of the network ends it, and then the
      call that began it goes on. Others are left alone. */
  lemma {:induction false} FetchEnds(events: seq<Event>, key: Key, now: int, result: Settlement)
    requires AnswerTo(After(events), key, now).Started? && result != Running
    ensures var fetches := After(events).fetches;
            var begun := events + [Called(key, now)];
            var ended := begun + [Settled(|fetches|, result)];
            && After(begun).fetches == fetches + [Fetch(key, now, Running, false)]
            && After(ended).fetches == fetches + [Fetch(key, now, result, false)]
            && After(ended + [Resumed(|fetches|)]).fetches == fetches + [Fetch(key, now, result, true)]
  {
    var f := |After(events).fetches|;
    OneEventMore(events, Called(key, now));
    OneEventMore(events + [Called(key, now)], Settled(f, result));
    OneEventMore(events + [Called(key, now)] + [Settled(f, result)], Resumed(f));
  }

  lemma {:induction false} OneEventMore(events: seq<Event>, e: Event)
    ensures After(events + [e]) == Step(After(events), e)
  {
    assert (events + [e])[..|events|] == events;
  }

  /** A whole fetch: whoever asks within the interval afterwards gets its models, and whoever asks after a
      failure fetches anew. */
  lemma {:induction false} FetchThenAsk(events: seq<Event>, key: Key, now: int, result: Settlement, later: int)
    requires key.refreshIntervalSeconds > 0 && AnswerTo(After(events), key, now).Started?
    requires result != Running && later - now < key.refreshIntervalSeconds * 1000
    ensures var f := |After(events).fetches|;
            var run := events + [Called(key, now)] + [Settled(f, result)] + [Resumed(f)];
            AnswerTo(After(run), key, later) ==
              if result.Fetched? then FromCache(result.models) else Started(|After(run).fetches|)
  {
    var f := |After(events).fetches|;
    var run := events + [Called(key, now)] + [Settled(f, result)] + [Resumed(f)];
    FetchEnds(events, key, now, result);
    LastFetchIs(After(run).fetches, key, f);
    LastFetchAnswers(run, key, later);
  }

  /** A key without a refresh interval is always fetched. */
  lemma {:induction false} UncachedIsFetched(s: State, key: Key, now: int)
    requires key.refreshIntervalSeconds == 0
    ensures AnswerTo(s, key, now) == Started(|s.fetches|)
  {
  }

  /** Some call began a fetch at the time it says, and if it ended that is how. */
  ghost predicate ComesFromCalls(events: seq<Event>, f: nat, fetch: Fetch) {
    && Called(fetch.key, fetch.startedAt) in events
    && (fetch.result != Running ==> Settled(f, fetch.result) in events)
    && (fetch.resumed ==> fetch.result != Running && Resumed(f) in events)
  }

  lemma {:induction false} FetchesComeFromCalls(events: seq<Event>, f: nat)
    requires f < |After(events).fetches|
    ensures ComesFromCalls(events, f, After(events).fetches[f])
  {
    var n := |events| - 1;
    var before := events[..n];
    assert events == before + [events[n]];
    assert forall e :: e in before ==> e in events;
    assert events[n] in events;
    if f < |After(before).fetches| {
      FetchesComeFromCalls(before, f);
    }
  }
}
