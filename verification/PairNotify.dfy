/** The pairing notifier of extensions/device-pair/notify.ts: subscribers and already notified
    requests, kept in a file that every command and every poll reads and rewrites. */
module PairNotify {
  import opened JsStrings
  import opened Options

  datatype Thread = NoThread | Number(n: int) | Text(s: string)

  datatype Target = Target(to: string, accountId: Option<string>, thread: Thread)

  datatype Mode = Persistent | Once

  datatype Subscription = Subscription(target: Target, mode: Mode, addedAtMs: int)

  /** A request somebody was told of, and when. */
  datatype Entry = Entry(requestId: string, ts: int)

  /** The file, and the state that is read from it; `notified` lists the properties of the object
      `notifiedRequestIds` in order. */
  datatype State = State(subscribers: seq<Subscription>, notified: seq<Entry>)

  /** A pending request; `ts` is None when it is missing or not a finite number. */
  datatype Request = Request(requestId: string, ts: Option<int>)

  const NOTIFY_MAX_SEEN_AGE_MS: int := 24 * 60 * 60 * 1000
  const EMPTY := State([], [])

  function ShowNat(n: nat): string {
    if n < 10 then [('0' as int + n) as char] else ShowNat(n / 10) + [('0' as int + n % 10) as char]
  }

  function ShowThread(t: Thread): string {
    match t
    case NoThread => ""
    case Number(n) => if n < 0 then "-" + ShowNat(-n) else ShowNat(n)
    case Text(s) => s
  }

  function NotifySubscriberKey(t: Target): string {
    t.to + "|" + (if t.accountId.Some? then t.accountId.value else "") + "|" + ShowThread(t.thread)
  }

  // ---------------------------------------------------------------- reading the file

  function NormalizeOptional(s: string): Option<string> {
    if Trim(s) == "" then None else Some(Trim(s))
  }

  function ReadTarget(t: Target): Target {
    Target(Trim(t.to),
           if t.accountId.Some? then NormalizeOptional(t.accountId.value) else None,
           match t.thread
           case Text(s) => (if Trim(s) == "" then NoThread else Text(Trim(s)))
           case _ => t.thread)
  }

  function ReadSubscribers(subs: seq<Subscription>): seq<Subscription> {
    if subs == [] then []
    else
      var last := subs[|subs| - 1];
      var rest := ReadSubscribers(subs[..|subs| - 1]);
      if Trim(last.target.to) == "" then rest else rest + [last.(target := ReadTarget(last.target))]
  }

  /** The table as a map. */
  function Stamps(table: seq<Entry>): map<string, int> {
    if table == [] then map[] else Stamps(table[1..])[table[0].requestId := table[0].ts]
  }

  /** `table[id] = ts` */
  function Put(table: seq<Entry>, id: string, ts: int): seq<Entry> {
    if table == [] then [Entry(id, ts)]
    else if table[0].requestId == id then [Entry(id, ts)] + table[1..]
    else [table[0]] + Put(table[1..], id, ts)
  }

  function ReadNotified(table: seq<Entry>): seq<Entry> {
    if table == [] then []
    else
      var last := table[|table| - 1];
      var rest := ReadNotified(table[..|table| - 1]);
      if Trim(last.requestId) == "" || last.ts <= 0 then rest else Put(rest, Trim(last.requestId), last.ts)
  }

  /** `normalizeNotifyState` */
  function ReadState(file: State): State {
    State(ReadSubscribers(file.subscribers), ReadNotified(file.notified))
  }

  // ---------------------------------------------------------------- commands

  /** Index of the first subscriber with a key, or the number of subscribers. */
  function FindKey(subs: seq<Subscription>, key: string): nat {
    if subs == [] || NotifySubscriberKey(subs[0].target) == key then 0 else 1 + FindKey(subs[1..], key)
  }

  function Upsert(subs: seq<Subscription>, target: Target, mode: Mode, now: int): seq<Subscription> {
    var i := FindKey(subs, NotifySubscriberKey(target));
    var next := Subscription(target, mode, now);
    if i >= |subs| then subs + [next]
    else if subs[i].mode == mode then subs
    else subs[i := next]
  }

  function WithoutOne(subs: seq<Subscription>, i: nat): seq<Subscription>
    requires i < |subs|
  {
    subs[..i] + subs[i + 1..]
  }

  function RemoveKey(subs: seq<Subscription>, key: string): seq<Subscription> {
    var i := FindKey(subs, key);
    if i >= |subs| then subs else WithoutOne(subs, i)
  }

  // ---------------------------------------------------------------- polling

  /** Which sends succeed: the i-th pending request to the j-th subscriber. */
  type Sends = (nat, nat) -> bool

  function RequestTimestampMs(r: Request): Option<int> {
    if r.ts.Some? && r.ts.value > 0 then r.ts else None
  }

  predicate ShouldNotify(s: Subscription, r: Request) {
    s.mode != Once || (RequestTimestampMs(r).Some? && RequestTimestampMs(r).value >= s.addedAtMs)
  }

  predicate IsPendingId(pending: seq<Request>, id: string) {
    exists i :: 0 <= i < |pending| && pending[i].requestId == id
  }

  function Prune(notified: map<string, int>, pending: seq<Request>, now: int): map<string, int> {
    map id | id in notified && IsPendingId(pending, id) && now - notified[id] <= NOTIFY_MAX_SEEN_AGE_MS :: notified[id]
  }

  /** The seen table at the start of a poll. */
  function SeenBefore(s: State, pending: seq<Request>, now: int): map<string, int> {
    Prune(Stamps(s.notified), pending, now)
  }

  /** What deleting all other properties leaves of a table. */
  function KeepOnly(table: seq<Entry>, kept: map<string, int>): seq<Entry> {
    if table == [] then []
    else (if table[0].requestId in kept then [table[0]] else []) + KeepOnly(table[1..], kept)
  }

  /** Subscriber j gets request i. */
  predicate Gets(subs: seq<Subscription>, pending: seq<Request>, sends: Sends, i: nat, j: nat) {
    i < |pending| && j < |subs| && ShouldNotify(subs[j], pending[i]) && sends(i, j)
  }

  /** Request i is sent to one of the first `m` subscribers. */
  predicate Delivered(subs: seq<Subscription>, pending: seq<Request>, sends: Sends, i: nat, m: nat) {
    m > 0 && (Delivered(subs, pending, sends, i, m - 1) || Gets(subs, pending, sends, i, m - 1))
  }

  /** The seen table once the first `n` pending requests have been gone through. */
  function Seen(subs: seq<Subscription>, pending: seq<Request>, sends: Sends, now: int,
                seen: map<string, int>, n: nat): map<string, int>
    requires n <= |pending|
  {
    if n == 0 then seen
    else
      var before := Seen(subs, pending, sends, now, seen, n - 1);
      var id := pending[n - 1].requestId;
      if id !in before && Delivered(subs, pending, sends, n - 1, |subs|) then before[id := now] else before
  }

  /** The same on the table itself: new requests go to its end. */
  function Entered(subs: seq<Subscription>, pending: seq<Request>, sends: Sends, now: int,
                   seen: map<string, int>, table: seq<Entry>, n: nat): seq<Entry>
    requires n <= |pending|
  {
    if n == 0 then table
    else
      var before := Entered(subs, pending, sends, now, seen, table, n - 1);
      var id := pending[n - 1].requestId;
      if id !in Seen(subs, pending, sends, now, seen, n - 1) && Delivered(subs, pending, sends, n - 1, |subs|)
      then before + [Entry(id, now)] else before
  }

  /** Request i goes to subscriber j in this poll. */
  predicate IsSent(subs: seq<Subscription>, pending: seq<Request>, sends: Sends, now: int,
                   seen: map<string, int>, i: nat, j: nat)
  {
    Gets(subs, pending, sends, i, j) && pending[i].requestId !in Seen(subs, pending, sends, now, seen, i)
  }

  /** The keys of the one-shot subscribers among the first `m` that get request i. */
  function KeysServedBy(subs: seq<Subscription>, pending: seq<Request>, sends: Sends, i: nat, m: nat): set<string>
    requires m <= |subs|
  {
    if m == 0 then {}
    else KeysServedBy(subs, pending, sends, i, m - 1) +
         if subs[m - 1].mode == Once && Gets(subs, pending, sends, i, m - 1)
         then {NotifySubscriberKey(subs[m - 1].target)} else {}
  }

  /** The keys of the one-shot subscribers served by the first `n` requests. */
  function ServedKeys(subs: seq<Subscription>, pending: seq<Request>, sends: Sends, now: int,
                      seen: map<string, int>, n: nat): set<string>
    requires n <= |pending|
  {
    if n == 0 then {}
    else ServedKeys(subs, pending, sends, now, seen, n - 1) +
         if pending[n - 1].requestId in Seen(subs, pending, sends, now, seen, n - 1) then {}
         else KeysServedBy(subs, pending, sends, n - 1, |subs|)
  }

  function WithoutKeys(subs: seq<Subscription>, keys: set<string>): seq<Subscription> {
    if subs == [] then []
    else
      var last := subs[|subs| - 1];
      var rest := WithoutKeys(subs[..|subs| - 1], keys);
      if NotifySubscriberKey(last.target) in keys then rest else rest + [last]
  }

  /** One poll on the state as read. */
  function Poll(s: State, pending: seq<Request>, sends: Sends, now: int): State {
    var seen := SeenBefore(s, pending, now);
    var table := KeepOnly(s.notified, seen);
    if s.subscribers == [] then State([], table)
    else State(WithoutKeys(s.subscribers, ServedKeys(s.subscribers, pending, sends, now, seen, |pending|)),
               Entered(s.subscribers, pending, sends, now, seen, table, |pending|))
  }

  // ---------------------------------------------------------------- the service

  datatype Event =
    | On(target: Target, now: int)
    | Off(target: Target)
    | Arm(target: Target, now: int)
    | Tick(pending: seq<Request>, sends: Sends, now: int)

  /** What an event makes of the state it reads. */
  function Handle(s: State, e: Event): State {
    match e
    case On(target, now) => s.(subscribers := Upsert(s.subscribers, target, Persistent, now))
    case Off(target) => s.(subscribers := RemoveKey(s.subscribers, NotifySubscriberKey(target)))
    case Arm(target, now) => s.(subscribers := Upsert(s.subscribers, target, Once, now))
    case Tick(pending, sends, now) => Poll(s, pending, sends, now)
  }

  class PairNotifier {
    var file: State

    constructor ()
      ensures file == EMPTY
    {
      file := EMPTY;
    }

    /** `upsertNotifySubscriber` */
    static method UpsertNotifySubscriber(subs: seq<Subscription>, target: Target, mode: Mode, now: int)
      returns (subs': seq<Subscription>, changed: bool)
      ensures subs' == Upsert(subs, target, mode, now)
      ensures !changed ==> subs' == subs
    {
      var index := FindKey(subs, NotifySubscriberKey(target));
      var next := Subscription(target, mode, now);
      if index >= |subs| {
        return subs + [next], true;
      }
      if subs[index].mode == mode {
        return subs, false;
      }
      return subs[index := next], true;
    }

    method TurnOn(target: Target, now: int)
      modifies this
      ensures ReadState(file) == ReadState(Handle(ReadState(old(file)), On(target, now)))
    {
      var state := ReadState(file);
      var subs, changed := UpsertNotifySubscriber(state.subscribers, target, Persistent, now);
      ReadTwice(file);
      if changed {
        file := state.(subscribers := subs);
      }
    }

    method ArmOnce(target: Target, now: int)
      modifies this
      ensures ReadState(file) == ReadState(Handle(ReadState(old(file)), Arm(target, now)))
    {
      var state := ReadState(file);
      var subs, changed := UpsertNotifySubscriber(state.subscribers, target, Once, now);
      ReadTwice(file);
      if changed {
        file := state.(subscribers := subs);
      }
    }

    method TurnOff(target: Target)
      modifies this
      ensures ReadState(file) == ReadState(Handle(ReadState(old(file)), Off(target)))
    {
      var state := ReadState(file);
      var index := FindKey(state.subscribers, NotifySubscriberKey(target));
      ReadTwice(file);
      if index < |state.subscribers| {
        file := state.(subscribers := state.subscribers[..index] + state.subscribers[index + 1..]);
      }
    }

    /** The inner loop of `notifyPendingPairingRequests`: one request goes to whom it may concern. */
    static method Serve(subs: seq<Subscription>, pending: seq<Request>, sends: Sends, i: nat,
                        oneShot0: set<string>)
      returns (delivered: bool, oneShot: set<string>)
      requires i < |pending|
      ensures delivered == Delivered(subs, pending, sends, i, |subs|)
      ensures oneShot == oneShot0 + KeysServedBy(subs, pending, sends, i, |subs|)
    {
      delivered, oneShot := false, oneShot0;
      for j := 0 to |subs|
        invariant delivered == Delivered(subs, pending, sends, i, j)
        invariant oneShot == oneShot0 + KeysServedBy(subs, pending, sends, i, j)
      {
        if ShouldNotify(subs[j], pending[i]) {
          var sent := sends(i, j);
          delivered := delivered || sent;
          if sent && subs[j].mode == Once {
            oneShot := oneShot + {NotifySubscriberKey(subs[j].target)};
          }
        }
      }
    }

    /** The outer loop: every pending request that was not seen yet. */
    static method ServeAll(subs: seq<Subscription>, pending: seq<Request>, sends: Sends, now: int,
                           table0: seq<Entry>)
      returns (table: seq<Entry>, oneShot: set<string>, changed: bool)
      ensures table == Entered(subs, pending, sends, now, Stamps(table0), table0, |pending|)
      ensures oneShot == ServedKeys(subs, pending, sends, now, Stamps(table0), |pending|)
      ensures !changed ==> table == table0
    {
      table, oneShot, changed := table0, {}, false;
      for i := 0 to |pending|
        invariant table == Entered(subs, pending, sends, now, Stamps(table0), table0, i)
        invariant Stamps(table) == Seen(subs, pending, sends, now, Stamps(table0), i)
        invariant oneShot == ServedKeys(subs, pending, sends, now, Stamps(table0), i)
        invariant !changed ==> table == table0
      {
        if pending[i].requestId in Stamps(table) {
          continue;
        }
        var delivered;
        delivered, oneShot := Serve(subs, pending, sends, i, oneShot);
        if delivered {
          StampsAppend(table, Entry(pending[i].requestId, now));
          table := table + [Entry(pending[i].requestId, now)];
          changed := true;
        }
      }
    }

    /** `notifyPendingPairingRequests` */
    method NotifyPending(pending: seq<Request>, sends: Sends, now: int)
      requires now > 0
      modifies this
      ensures ReadState(file) == ReadState(Handle(ReadState(old(file)), Tick(pending, sends, now)))
    {
      var state := ReadState(file);
      var table := KeepOnly(state.notified, SeenBefore(state, pending, now));
      KeptStamps(state, pending, now);
      var subs := state.subscribers;
      var changed := table != state.notified;
      if |subs| > 0 {
        var oneShot, delivered;
        table, oneShot, delivered := ServeAll(subs, pending, sends, now, table);
        changed := changed || delivered;
        WithoutShape(subs, oneShot);
        if oneShot != {} {
          subs := WithoutKeys(subs, oneShot);
          if |subs| != |state.subscribers| {
            changed := true;
          }
        }
      }
      ReadTwice(file);
      if changed {
        file := State(subs, table);
      }
    }
  }

  lemma {:induction false} WithoutShape(subs: seq<Subscription>, keys: set<string>)
    ensures |WithoutKeys(subs, keys)| <= |subs|
    ensures |WithoutKeys(subs, keys)| == |subs| <==> WithoutKeys(subs, keys) == subs
    ensures keys == {} ==> WithoutKeys(subs, keys) == subs
  {
    if subs != [] {
      WithoutShape(subs[..|subs| - 1], keys);
    }
  }

  // ---------------------------------------------------------------- reading is stable

  lemma {:induction false} ReadTargetTwice(t: Target)
    ensures ReadTarget(ReadTarget(t)) == ReadTarget(t)
  {
    TrimShape(t.to);
    TrimShape(Trim(t.to));
    if t.accountId.Some? {
      TrimShape(t.accountId.value);
      TrimShape(Trim(t.accountId.value));
    }
    if t.thread.Text? {
      TrimShape(t.thread.s);
      TrimShape(Trim(t.thread.s));
    }
  }

  lemma {:induction false} ReadSubscribersTwice(subs: seq<Subscription>)
    ensures ReadSubscribers(ReadSubscribers(subs)) == ReadSubscribers(subs)
  {
    if subs != [] {
      var last := subs[|subs| - 1];
      var rest := ReadSubscribers(subs[..|subs| - 1]);
      ReadSubscribersTwice(subs[..|subs| - 1]);
      ReadTargetTwice(last.target);
      TrimShape(last.target.to);
      TrimShape(Trim(last.target.to));
      assert (rest + [last.(target := ReadTarget(last.target))])[..|rest|] == rest;
    }
  }

  // ---------------------------------------------------------------- the seen table

  lemma {:induction false} StampsAppend(table: seq<Entry>, e: Entry)
    ensures Stamps(table + [e]) ==
              if e.requestId in Stamps(table) then Stamps(table) else Stamps(table)[e.requestId := e.ts]
  {
    if table != [] {
      StampsAppend(table[1..], e);
      assert (table + [e])[1..] == table[1..] + [e];
    }
  }

  lemma {:induction false} StampsPut(table: seq<Entry>, id: string, ts: int)
    ensures Stamps(Put(table, id, ts)) == Stamps(table)[id := ts]
  {
    if table != [] && table[0].requestId != id {
      StampsPut(table[1..], id, ts);
      assert Put(table, id, ts)[1..] == Put(table[1..], id, ts);
    }
  }

  lemma {:induction false} StampsKept(table: seq<Entry>, kept: map<string, int>, id: string)
    ensures id in Stamps(KeepOnly(table, kept)) <==> id in Stamps(table) && id in kept
    ensures id in Stamps(KeepOnly(table, kept)) ==> Stamps(KeepOnly(table, kept))[id] == Stamps(table)[id]
  {
    if table != [] {
      StampsKept(table[1..], kept, id);
      var rest := KeepOnly(table[1..], kept);
      assert KeepOnly(table, kept) == if table[0].requestId in kept then [table[0]] + rest else rest;
    }
  }

  lemma {:induction false} KeptStamps(s: State, pending: seq<Request>, now: int)
    ensures Stamps(KeepOnly(s.notified, SeenBefore(s, pending, now))) == SeenBefore(s, pending, now)
  {
    forall id {
      StampsKept(s.notified, SeenBefore(s, pending, now), id);
    }
  }

  /** An id that the reader leaves as it is. */
  predicate SurvivesReading(id: string) {
    id != "" && IsTrimmed(id)
  }

  /** A table as a reader sees it: ids that need no trimming, each once, with positive times. */
  predicate IsClean(table: seq<Entry>) {
    table == [] ||
    (&& SurvivesReading(table[0].requestId) && table[0].ts > 0
     && table[0].requestId !in Stamps(table[1..]) && IsClean(table[1..]))
  }

  lemma {:induction false} CleanEntry(table: seq<Entry>, e: Entry)
    requires IsClean(table) && e in table
    ensures SurvivesReading(e.requestId) && e.ts > 0
    ensures e.requestId in Stamps(table) && Stamps(table)[e.requestId] == e.ts
  {
    if e != table[0] {
      CleanEntry(table[1..], e);
    }
  }

  lemma {:induction false} CleanIds(table: seq<Entry>, id: string)
    requires IsClean(table) && id in Stamps(table)
    ensures SurvivesReading(id) && Stamps(table)[id] > 0
  {
    if id != table[0].requestId {
      CleanIds(table[1..], id);
    }
  }

  lemma {:induction false} CleanAppend(table: seq<Entry>, e: Entry)
    requires IsClean(table + [e])
    ensures IsClean(table) && SurvivesReading(e.requestId) && e.ts > 0 && e.requestId !in Stamps(table)
  {
    if table != [] {
      assert (table + [e])[1..] == table[1..] + [e];
      CleanAppend(table[1..], e);
      StampsAppend(table[1..], e);
    }
  }

  lemma {:induction false} PutKeepsClean(table: seq<Entry>, id: string, ts: int)
    requires IsClean(table) && SurvivesReading(id) && ts > 0
    ensures IsClean(Put(table, id, ts))
  {
    if table != [] && table[0].requestId != id {
      PutKeepsClean(table[1..], id, ts);
      StampsPut(table[1..], id, ts);
      assert Put(table, id, ts)[1..] == Put(table[1..], id, ts);
    }
  }

  lemma {:induction false} PutNew(table: seq<Entry>, id: string, ts: int)
    requires id !in Stamps(table)
    ensures Put(table, id, ts) == table + [Entry(id, ts)]
  {
    if table != [] {
      PutNew(table[1..], id, ts);
    }
  }

  /** Reading yields clean tables ... */
  lemma {:induction false} ReadIsClean(table: seq<Entry>)
    ensures IsClean(ReadNotified(table))
  {
    if table != [] {
      var n := |table| - 1;
      ReadIsClean(table[..n]);
      TrimShape(table[n].requestId);
      if Trim(table[n].requestId) != "" && table[n].ts > 0 {
        PutKeepsClean(ReadNotified(table[..n]), Trim(table[n].requestId), table[n].ts);
      }
    }
  }

  /** ... and leaves them alone. */
  lemma {:induction false} CleanIsRead(table: seq<Entry>)
    requires IsClean(table)
    ensures ReadNotified(table) == table
  {
    if table != [] {
      var n := |table| - 1;
      assert table == table[..n] + [table[n]];
      CleanAppend(table[..n], table[n]);
      CleanIsRead(table[..n]);
      TrimShape(table[n].requestId);
      PutNew(table[..n], table[n].requestId, table[n].ts);
    }
  }

  /** All spellings of an id have times in a range. */
  ghost predicate StampedWithin(table: seq<Entry>, id: string, from: int, to: int) {
    forall e :: e in table && Trim(e.requestId) == id ==> from <= e.ts <= to
  }

  /** An id that survives reading is read back, with the time of one of its spellings. */
  lemma {:induction false} ReadBackStamp(table: seq<Entry>, id: string, from: int, to: int)
    requires SurvivesReading(id) && from > 0 && StampedWithin(table, id, from, to)
    ensures var read := Stamps(ReadNotified(table));
            && (id in Stamps(table) ==> id in read)
            && (id in read ==> from <= read[id] <= to)
  {
    if table != [] {
      var n := |table| - 1;
      var last := table[n];
      assert table == table[..n] + [last];
      ReadBackStamp(table[..n], id, from, to);
      StampsAppend(table[..n], last);
      TrimShape(id);
      StampsPut(ReadNotified(table[..n]), Trim(last.requestId), last.ts);
    }
  }

  /** Of several spellings of an id the last one counts. */
  lemma {:induction false} LastSpellingCounts(table: seq<Entry>, e: Entry, id: string)
    ensures var before, after := Stamps(ReadNotified(table)), Stamps(ReadNotified(table + [e]));
            if Trim(e.requestId) == id && id != "" && e.ts > 0 then id in after && after[id] == e.ts
            else (id in after <==> id in before) && (id in after ==> after[id] == before[id])
  {
    assert (table + [e])[..|table|] == table;
    StampsPut(ReadNotified(table), Trim(e.requestId), e.ts);
  }

  /** Whether an unchanged state is written back makes no difference to the next reader. */
  lemma {:induction false} ReadTwice(file: State)
    ensures ReadState(ReadState(file)) == ReadState(file)
  {
    ReadSubscribersTwice(file.subscribers);
    ReadIsClean(file.notified);
    CleanIsRead(ReadNotified(file.notified));
  }

  // ---------------------------------------------------------------- one poll

  lemma {:induction false} DeliveredTo(subs: seq<Subscription>, pending: seq<Request>, sends: Sends, i: nat, m: nat)
    requires m <= |subs|
    ensures Delivered(subs, pending, sends, i, m) <==> exists j :: 0 <= j < m && Gets(subs, pending, sends, i, j)
  {
    if m > 0 {
      DeliveredTo(subs, pending, sends, i, m - 1);
    }
  }

  lemma {:induction false} KeysServedByIs(subs: seq<Subscription>, pending: seq<Request>, sends: Sends, i: nat,
                                          m: nat, key: string)
    requires m <= |subs|
    ensures key in KeysServedBy(subs, pending, sends, i, m) <==>
              exists j :: 0 <= j < m && subs[j].mode == Once && Gets(subs, pending, sends, i, j)
                          && NotifySubscriberKey(subs[j].target) == key
  {
    if m > 0 {
      KeysServedByIs(subs, pending, sends, i, m - 1, key);
    }
  }

  /** A one-shot subscriber whose key is `key` gets one of the first `n` requests. */
  ghost predicate IsServed(subs: seq<Subscription>, pending: seq<Request>, sends: Sends, now: int,
                           seen: map<string, int>, n: nat, key: string)
  {
    exists i, j :: 0 <= i < n && 0 <= j < |subs| && IsSent(subs, pending, sends, now, seen, i, j)
                   && subs[j].mode == Once && NotifySubscriberKey(subs[j].target) == key
  }

  lemma {:induction false} ServedKeysAre(subs: seq<Subscription>, pending: seq<Request>, sends: Sends, now: int,
                                         seen: map<string, int>, n: nat, key: string)
    requires n <= |pending|
    ensures key in ServedKeys(subs, pending, sends, now, seen, n) <==> IsServed(subs, pending, sends, now, seen, n, key)
  {
    if n > 0 {
      ServedKeysAre(subs, pending, sends, now, seen, n - 1, key);
      KeysServedByIs(subs, pending, sends, n - 1, |subs|, key);
      if pending[n - 1].requestId !in Seen(subs, pending, sends, now, seen, n - 1) {
        if j :| 0 <= j < |subs| && subs[j].mode == Once && Gets(subs, pending, sends, n - 1, j)
                && NotifySubscriberKey(subs[j].target) == key {
          assert IsSent(subs, pending, sends, now, seen, n - 1, j);
        }
      }
    }
  }

  /** The seen table grows by exactly the requests some send of which succeeded, stamped now. */
  lemma {:induction false} SeenIs(subs: seq<Subscription>, pending: seq<Request>, sends: Sends, now: int,
                                  seen: map<string, int>, n: nat, id: string)
    requires n <= |pending|
    ensures var after := Seen(subs, pending, sends, now, seen, n);
            && (id in after <==>
                  || id in seen
                  || exists i :: 0 <= i < n && pending[i].requestId == id && Delivered(subs, pending, sends, i, |subs|))
            && (id in after ==> after[id] == if id in seen then seen[id] else now)
  {
    if n > 0 {
      SeenIs(subs, pending, sends, now, seen, n - 1, id);
    }
  }

  /** Dropping keys keeps the order of those that stay. */
  lemma {:induction false} WithoutKeysConcat(a: seq<Subscription>, b: seq<Subscription>, keys: set<string>)
    ensures WithoutKeys(a + b, keys) == WithoutKeys(a, keys) + WithoutKeys(b, keys)
  {
    if b == [] {
      assert a + b == a;
    } else {
      assert (a + b)[..|a + b| - 1] == a + b[..|b| - 1];
      WithoutKeysConcat(a, b[..|b| - 1], keys);
    }
  }

  lemma {:induction false} WithoutKeysHas(subs: seq<Subscription>, keys: set<string>, s: Subscription)
    ensures s in WithoutKeys(subs, keys) <==> s in subs && NotifySubscriberKey(s.target) !in keys
  {
    if subs != [] {
      var n := |subs| - 1;
      WithoutKeysHas(subs[..n], keys, s);
      assert s in subs <==> s in subs[..n] || s == subs[n];
    }
  }

  ghost predicate KeysDistinct(subs: seq<Subscription>) {
    forall i, j :: 0 <= i < j < |subs| ==> NotifySubscriberKey(subs[i].target) != NotifySubscriberKey(subs[j].target)
  }

  /** Some request of this poll goes to subscriber j. */
  ghost predicate GotSomething(s: State, pending: seq<Request>, sends: Sends, now: int, j: nat) {
    exists i :: 0 <= i < |pending| &&
      IsSent(s.subscribers, pending, sends, now, SeenBefore(s, pending, now), i, j)
  }

  /** Some one-shot subscriber with this key got something. */
  ghost predicate KeyGotSomething(s: State, pending: seq<Request>, sends: Sends, now: int, key: string) {
    IsServed(s.subscribers, pending, sends, now, SeenBefore(s, pending, now), |pending|, key)
  }

  /** A poll drops exactly the subscribers with the key of a one-shot that got something. */
  lemma {:induction false} PollDropsServedKeys(s: State, pending: seq<Request>, sends: Sends, now: int, t: Subscription)
    ensures t in Poll(s, pending, sends, now).subscribers <==>
              t in s.subscribers && !KeyGotSomething(s, pending, sends, now, NotifySubscriberKey(t.target))
  {
    var seen := SeenBefore(s, pending, now);
    WithoutKeysHas(s.subscribers, ServedKeys(s.subscribers, pending, sends, now, seen, |pending|), t);
    ServedKeysAre(s.subscribers, pending, sends, now, seen, |pending|, NotifySubscriberKey(t.target));
  }

  /** With distinct keys these are the one-shots that got something. */
  lemma {:induction false} PollDropsServedOneShots(s: State, pending: seq<Request>, sends: Sends, now: int, j: nat)
    requires KeysDistinct(s.subscribers) && j < |s.subscribers|
    ensures s.subscribers[j] in Poll(s, pending, sends, now).subscribers <==>
              !(s.subscribers[j].mode == Once && GotSomething(s, pending, sends, now, j))
  {
    var seen := SeenBefore(s, pending, now);
    PollDropsServedKeys(s, pending, sends, now, s.subscribers[j]);
    if s.subscribers[j].mode == Once && GotSomething(s, pending, sends, now, j) {
      var i :| 0 <= i < |pending| && IsSent(s.subscribers, pending, sends, now, seen, i, j);
      assert KeyGotSomething(s, pending, sends, now, NotifySubscriberKey(s.subscribers[j].target));
    }
  }

  /** A one-shot subscriber is only ever sent requests stamped at or after its arming, and once
      it was sent one, nobody with its key is left. */
  lemma {:induction false} OneShotFiresOnce(s: State, pending: seq<Request>, sends: Sends, now: int, i: nat, j: nat)
    requires i < |pending| && j < |s.subscribers| && s.subscribers[j].mode == Once
    requires IsSent(s.subscribers, pending, sends, now, SeenBefore(s, pending, now), i, j)
    ensures pending[i].ts.Some? && pending[i].ts.value >= s.subscribers[j].addedAtMs
    ensures forall t :: t in Poll(s, pending, sends, now).subscribers ==>
              NotifySubscriberKey(t.target) != NotifySubscriberKey(s.subscribers[j].target)
  {
    var seen := SeenBefore(s, pending, now);
    var key := NotifySubscriberKey(s.subscribers[j].target);
    var served := ServedKeys(s.subscribers, pending, sends, now, seen, |pending|);
    ServedKeysAre(s.subscribers, pending, sends, now, seen, |pending|, key);
    assert IsServed(s.subscribers, pending, sends, now, seen, |pending|, key);
    forall t | t in Poll(s, pending, sends, now).subscribers
      ensures NotifySubscriberKey(t.target) != key
    {
      WithoutKeysHas(s.subscribers, served, t);
    }
  }

  /** Whatever sends succeed, this poll sends subscriber j one request at most. */
  ghost predicate AtMostOneSent(s: State, pending: seq<Request>, now: int, j: nat) {
    forall sends: Sends, i: nat, k: nat ::
      SentTo(s, pending, sends, now, i, j) && SentTo(s, pending, sends, now, k, j) ==> i == k
  }

  predicate SentTo(s: State, pending: seq<Request>, sends: Sends, now: int, i: nat, j: nat) {
    IsSent(s.subscribers, pending, sends, now, SeenBefore(s, pending, now), i, j)
  }

  /** Request i is not seen yet, and one that subscriber j should be told about. */
  predicate IsDue(s: State, pending: seq<Request>, now: int, i: nat, j: nat) {
    && i < |pending| && j < |s.subscribers| && ShouldNotify(s.subscribers[j], pending[i])
    && pending[i].requestId !in SeenBefore(s, pending, now)
  }

  ghost predicate OneIdDue(s: State, pending: seq<Request>, now: int, j: nat) {
    forall i: nat, k: nat :: IsDue(s, pending, now, i, j) && IsDue(s, pending, now, k, j) ==>
      pending[i].requestId == pending[k].requestId
  }

  /** A request is sent to a subscriber for whom it is due, and puts its id into the seen table. */
  lemma {:induction false} SentIsDue(s: State, pending: seq<Request>, sends: Sends, now: int, i: nat, j: nat, n: nat)
    requires SentTo(s, pending, sends, now, i, j) && i < n <= |pending|
    ensures IsDue(s, pending, now, i, j)
    ensures pending[i].requestId in Seen(s.subscribers, pending, sends, now, SeenBefore(s, pending, now), n)
  {
    var seen := SeenBefore(s, pending, now);
    SeenIs(s.subscribers, pending, sends, now, seen, i, pending[i].requestId);
    SeenIs(s.subscribers, pending, sends, now, seen, n, pending[i].requestId);
    DeliveredTo(s.subscribers, pending, sends, i, |s.subscribers|);
  }

  /** Two due requests with different ids are both sent, if just those two sends succeed. */
  lemma {:induction false} BothAreSent(s: State, pending: seq<Request>, now: int, i: nat, k: nat, j: nat, m: nat)
    requires IsDue(s, pending, now, i, j) && IsDue(s, pending, now, k, j)
    requires pending[i].requestId != pending[k].requestId && (m == i || m == k)
    ensures SentTo(s, pending, (a, b) => (a == i || a == k) && b == j, now, m, j)
  {
    var sends: Sends := (a, b) => (a == i || a == k) && b == j;
    SeenIs(s.subscribers, pending, sends, now, SeenBefore(s, pending, now), m, pending[m].requestId);
    forall l: nat | l < m && pending[l].requestId == pending[m].requestId
      ensures !Delivered(s.subscribers, pending, sends, l, |s.subscribers|)
    {
      DeliveredTo(s.subscribers, pending, sends, l, |s.subscribers|);
    }
  }

  /** A poll can be sure to send a subscriber no more than one request if and only if all requests
      that are due for it have the same id. */
  lemma {:induction false} OneSentExactlyWhenOneIdIsDue(s: State, pending: seq<Request>, now: int, j: nat)
    ensures AtMostOneSent(s, pending, now, j) <==> OneIdDue(s, pending, now, j)
  {
    if OneIdDue(s, pending, now, j) {
      forall sends: Sends, i: nat, k: nat | SentTo(s, pending, sends, now, i, j) && SentTo(s, pending, sends, now, k, j)
        ensures i == k
      {
        SentIsDue(s, pending, sends, now, i, j, |pending|);
        SentIsDue(s, pending, sends, now, k, j, |pending|);
        if i < k {
          SentIsDue(s, pending, sends, now, i, j, k);
        } else if k < i {
          SentIsDue(s, pending, sends, now, k, j, i);
        }
      }
    }
    if AtMostOneSent(s, pending, now, j) {
      forall i: nat, k: nat | IsDue(s, pending, now, i, j) && IsDue(s, pending, now, k, j)
        ensures pending[i].requestId == pending[k].requestId
      {
        if pending[i].requestId != pending[k].requestId {
          BothAreSent(s, pending, now, i, k, j, i);
          BothAreSent(s, pending, now, i, k, j, k);
        }
      }
    }
  }

  /** When every send succeeds, a request that was not seen, and that no earlier one shares its id with,
      is sent to all persistent subscribers, and to the one-shots armed no later than it was made. */
  lemma {:induction false} SentExactlyWhen(s: State, pending: seq<Request>, now: int, i: nat, j: nat)
    requires i < |pending| && j < |s.subscribers|
    requires pending[i].requestId !in SeenBefore(s, pending, now)
    requires forall l :: 0 <= l < i ==> pending[l].requestId != pending[i].requestId
    ensures SentTo(s, pending, Succeeds, now, i, j) <==>
              || s.subscribers[j].mode == Persistent
              || (exists ts :: pending[i].ts == Some(ts) && 0 < ts && s.subscribers[j].addedAtMs <= ts)
  {
    SeenIs(s.subscribers, pending, Succeeds, now, SeenBefore(s, pending, now), i, pending[i].requestId);
  }

  /** A seen request is sent to nobody. */
  lemma {:induction false} SeenIsNotSent(s: State, pending: seq<Request>, sends: Sends, now: int, i: nat, j: nat)
    requires i < |pending| && pending[i].requestId in SeenBefore(s, pending, now)
    ensures !SentTo(s, pending, sends, now, i, j)
  {
    SeenIs(s.subscribers, pending, sends, now, SeenBefore(s, pending, now), i, pending[i].requestId);
  }

  /** Every send succeeds. */
  predicate Succeeds(request: nat, subscriber: nat) {
    true
  }

  /** A poll that sends two requests to one one-shot subscriber. */
  lemma {:induction false} OneShotGetsTwo(target: Target, now: int)
    ensures var s := State([Subscription(target, Once, 5)], []);
            var pending := [Request("x", Some(7)), Request("y", Some(8))];
            && SentTo(s, pending, Succeeds, now, 0, 0) && SentTo(s, pending, Succeeds, now, 1, 0)
            && Poll(s, pending, Succeeds, now).subscribers == []
  {
    var s := State([Subscription(target, Once, 5)], []);
    var pending := [Request("x", Some(7)), Request("y", Some(8))];
    var sends: Sends := Succeeds;
    var seen := SeenBefore(s, pending, now);
    SeenIs(s.subscribers, pending, sends, now, seen, 0, "x");
    SeenIs(s.subscribers, pending, sends, now, seen, 1, "y");
    assert SentTo(s, pending, sends, now, 0, 0) && SentTo(s, pending, sends, now, 1, 0);
    OneShotFiresOnce(s, pending, sends, now, 0, 0);
    var kept := Poll(s, pending, sends, now).subscribers;
    if kept != [] {
      WithoutKeysHas(s.subscribers, ServedKeys(s.subscribers, pending, sends, now, seen, |pending|), kept[0]);
    }
  }

  /** The table a poll leaves is the seen table it ends with. */
  lemma {:induction false} EnteredStamps(subs: seq<Subscription>, pending: seq<Request>, sends: Sends, now: int,
                                         table: seq<Entry>, n: nat)
    requires n <= |pending|
    ensures Stamps(Entered(subs, pending, sends, now, Stamps(table), table, n)) ==
              Seen(subs, pending, sends, now, Stamps(table), n)
  {
    if n > 0 {
      EnteredStamps(subs, pending, sends, now, table, n - 1);
      StampsAppend(Entered(subs, pending, sends, now, Stamps(table), table, n - 1),
                   Entry(pending[n - 1].requestId, now));
    }
  }

  lemma {:induction false} NobodyToTell(pending: seq<Request>, sends: Sends, now: int, seen: map<string, int>, n: nat)
    requires n <= |pending|
    ensures Seen([], pending, sends, now, seen, n) == seen
  {
    if n > 0 {
      NobodyToTell(pending, sends, now, seen, n - 1);
    }
  }

  lemma {:induction false} PolledStamps(s: State, pending: seq<Request>, sends: Sends, now: int)
    ensures Stamps(Poll(s, pending, sends, now).notified) ==
              Seen(s.subscribers, pending, sends, now, SeenBefore(s, pending, now), |pending|)
  {
    KeptStamps(s, pending, now);
    EnteredStamps(s.subscribers, pending, sends, now, KeepOnly(s.notified, SeenBefore(s, pending, now)), |pending|);
    NobodyToTell(pending, sends, now, SeenBefore(s, pending, now), |pending|);
  }

  lemma {:induction false} KeptEntry(table: seq<Entry>, kept: map<string, int>, e: Entry)
    requires e in KeepOnly(table, kept)
    ensures e in table && e.requestId in kept
  {
    if e != table[0] || e.requestId !in kept {
      KeptEntry(table[1..], kept, e);
    }
  }

  lemma {:induction false} EnteredEntry(subs: seq<Subscription>, pending: seq<Request>, sends: Sends, now: int,
                                        seen: map<string, int>, table: seq<Entry>, n: nat, e: Entry)
    requires n <= |pending| && e in Entered(subs, pending, sends, now, seen, table, n)
    ensures e in table || e.ts == now
  {
    if n > 0 && e in Entered(subs, pending, sends, now, seen, table, n - 1) {
      EnteredEntry(subs, pending, sends, now, seen, table, n - 1, e);
    }
  }

  /** After a poll of a clean table, an id that was seen has its old time, and any other spelling of
      it, which must be new, the time of the poll. */
  lemma {:induction false} PolledEntry(s: State, pending: seq<Request>, sends: Sends, now: int, id: string, e: Entry)
    requires IsClean(s.notified) && SurvivesReading(id)
    requires e in Poll(s, pending, sends, now).notified && Trim(e.requestId) == id
    ensures e.ts == now || (id in SeenBefore(s, pending, now) && e.ts == SeenBefore(s, pending, now)[id])
  {
    var seen := SeenBefore(s, pending, now);
    var table := KeepOnly(s.notified, seen);
    if s.subscribers != [] {
      EnteredEntry(s.subscribers, pending, sends, now, seen, table, |pending|, e);
    }
    if e in table {
      KeptEntry(s.notified, seen, e);
      CleanEntry(s.notified, e);
      TrimShape(e.requestId);
    }
  }

  /** After a poll the seen table holds nothing but requests still pending, none seen more than
      24 hours ago. */
  lemma {:induction false} SeenTableIsCurrent(s: State, pending: seq<Request>, sends: Sends, now: int, id: string)
    requires id in Stamps(Poll(s, pending, sends, now).notified)
    ensures IsPendingId(pending, id)
    ensures now - Stamps(Poll(s, pending, sends, now).notified)[id] <= 24 * 60 * 60 * 1000
  {
    PolledStamps(s, pending, sends, now);
    SeenIs(s.subscribers, pending, sends, now, SeenBefore(s, pending, now), |pending|, id);
  }

  // ---------------------------------------------------------------- runs

  /** The file after a run that started without one. */
  function FileAfter(events: seq<Event>): State {
    if events == [] then EMPTY
    else Handle(ReadState(FileAfter(events[..|events| - 1])), events[|events| - 1])
  }

  /** What the next event of a run reads. */
  function StateAt(events: seq<Event>, k: nat): State
    requires k <= |events|
  {
    ReadState(FileAfter(events[..k]))
  }

  lemma {:induction false} StateSteps(events: seq<Event>, k: nat)
    requires k < |events|
    ensures StateAt(events, k + 1) == ReadState(Handle(StateAt(events, k), events[k]))
  {
    assert events[..k + 1][..k] == events[..k];
  }

  /** Event k of the run is a poll that gets request `id` through to somebody. */
  ghost predicate Notifies(events: seq<Event>, k: nat, id: string)
  {
    k < |events| && events[k].Tick? &&
    var s, t := StateAt(events, k), events[k];
    exists i, j :: 0 <= i < |t.pending| && 0 <= j < |s.subscribers| && t.pending[i].requestId == id
      && IsSent(s.subscribers, t.pending, t.sends, t.now, SeenBefore(s, t.pending, t.now), i, j)
  }

  /** Polls happen at positive times that do not go backwards. */
  ghost predicate ClockRuns(events: seq<Event>) {
    forall a, b :: 0 <= a <= b < |events| && events[a].Tick? && events[b].Tick? ==> 0 < events[a].now <= events[b].now
  }

  /** The seen table that event k of the run reads. */
  function TableAt(events: seq<Event>, k: nat): map<string, int>
    requires k <= |events|
  {
    Stamps(StateAt(events, k).notified)
  }

  /** A poll that got a request through is remembered, if its id survives reading. */
  lemma {:induction false} NotifiedIsSeen(events: seq<Event>, k: nat, id: string)
    requires Notifies(events, k, id) && SurvivesReading(id) && events[k].now > 0
    ensures id in TableAt(events, k + 1) && TableAt(events, k + 1)[id] == events[k].now
  {
    StateSteps(events, k);
    var s, t := StateAt(events, k), events[k];
    var seen := SeenBefore(s, t.pending, t.now);
    var i, j :| 0 <= i < |t.pending| && 0 <= j < |s.subscribers| && t.pending[i].requestId == id
      && IsSent(s.subscribers, t.pending, t.sends, t.now, seen, i, j);
    SeenIs(s.subscribers, t.pending, t.sends, t.now, seen, i, id);
    SeenIs(s.subscribers, t.pending, t.sends, t.now, seen, |t.pending|, id);
    DeliveredTo(s.subscribers, t.pending, t.sends, i, |s.subscribers|);
    PolledStamps(s, t.pending, t.sends, t.now);
    PolledIsReadBack(s, t.pending, t.sends, t.now, id, t.now, FileAfter(events[..k]));
  }

  /** What a poll leaves of an id that survives reading, as the next reader sees it. */
  lemma {:induction false} PolledIsReadBack(s: State, pending: seq<Request>, sends: Sends, now: int, id: string,
                                            since: int, file: State)
    requires s == ReadState(file) && SurvivesReading(id) && 0 < since <= now
    requires id in Stamps(Poll(s, pending, sends, now).notified)
    requires id in SeenBefore(s, pending, now) ==> since <= SeenBefore(s, pending, now)[id]
    ensures var read := Stamps(ReadNotified(Poll(s, pending, sends, now).notified));
            id in read && since <= read[id] && (read[id] == now || id in SeenBefore(s, pending, now))
  {
    var seen := SeenBefore(s, pending, now);
    var table := Poll(s, pending, sends, now).notified;
    var to := if id in seen && seen[id] > now then seen[id] else now;
    ReadIsClean(file.notified);
    forall e | e in table && Trim(e.requestId) == id
      ensures since <= e.ts <= to && (e.ts == now || id in seen)
    {
      PolledEntry(s, pending, sends, now, id, e);
    }
    ReadBackStamp(table, id, since, to);
    if id !in seen {
      ReadBackStamp(table, id, now, now);
    }
  }

  /** The request stays pending and young through every poll of a stretch of the run. */
  ghost predicate StaysFresh(events: seq<Event>, from: nat, to: nat, id: string, since: int) {
    forall m :: from <= m < to && m < |events| && events[m].Tick? ==>
      IsPendingId(events[m].pending, id) && since <= events[m].now <= since + NOTIFY_MAX_SEEN_AGE_MS
  }

  /** It stays in the seen table as long; another spelling of its id can only renew its time. */
  lemma {:induction false} SeenStays(events: seq<Event>, from: nat, to: nat, id: string, since: int)
    requires from <= to <= |events| && SurvivesReading(id) && since > 0
    requires id in TableAt(events, from) && TableAt(events, from)[id] >= since
    requires StaysFresh(events, from, to, id, since)
    ensures id in TableAt(events, to) && TableAt(events, to)[id] >= since
    decreases |events| - from
  {
    if from < to {
      StateSteps(events, from);
      var s, e := StateAt(events, from), events[from];
      if e.Tick? {
        PolledStamps(s, e.pending, e.sends, e.now);
        SeenIs(s.subscribers, e.pending, e.sends, e.now, SeenBefore(s, e.pending, e.now), |e.pending|, id);
        PolledIsReadBack(s, e.pending, e.sends, e.now, id, since, FileAfter(events[..from]));
      } else {
        ReadIsClean(FileAfter(events[..from]).notified);
        CleanIsRead(s.notified);
      }
      SeenStays(events, from + 1, to, id, since);
    }
  }

  /** At some poll in between the request was not pending. */
  ghost predicate AbsentBetween(events: seq<Event>, a: nat, b: nat, id: string) {
    exists m :: a < m < b && m < |events| && events[m].Tick? && !IsPendingId(events[m].pending, id)
  }

  /** Nobody is told of a request twice, if its id survives reading: if two polls both get the same
      request through, then at some poll in between it was not pending, or more than 24 hours passed. */
  lemma {:induction false} NoRepeats(events: seq<Event>, a: nat, b: nat, id: string)
    requires ClockRuns(events) && a < b && SurvivesReading(id)
    requires Notifies(events, a, id) && Notifies(events, b, id)
    ensures AbsentBetween(events, a, b, id)
            || events[b].now - events[a].now > 24 * 60 * 60 * 1000
  {
    var since := events[a].now;
    if events[b].now - since <= NOTIFY_MAX_SEEN_AGE_MS
       && forall m :: a < m < b && events[m].Tick? ==> IsPendingId(events[m].pending, id)
    {
      NotifiedIsSeen(events, a, id);
      assert StaysFresh(events, a + 1, b, id, since);
      SeenStays(events, a + 1, b, id, since);
      var s, t := StateAt(events, b), events[b];
      var seen := SeenBefore(s, t.pending, t.now);
      var i, j :| 0 <= i < |t.pending| && 0 <= j < |s.subscribers| && t.pending[i].requestId == id
        && IsSent(s.subscribers, t.pending, t.sends, t.now, seen, i, j);
      SeenIs(s.subscribers, t.pending, t.sends, t.now, seen, i, id);
    }
  }

  // ---------------------------------------------------------------- one subscriber per key

  /** A target whose key survives being written and read back: its account and thread ids carry
      no surrounding white space, and it has a recipient. */
  predicate IsCanonical(t: Target) {
    Trim(t.to) != "" && NotifySubscriberKey(ReadTarget(t)) == NotifySubscriberKey(t)
  }

  function AccountText(t: Target): string {
    if t.accountId.Some? then t.accountId.value else ""
  }

  lemma {:induction false} TrimShortens(s: string)
    ensures |Trim(s)| <= |s|
    ensures |Trim(s)| == |s| <==> Trim(s) == s
  {
    TrimStartShortens(s);
    TrimEndShape(TrimStart(s));
    if |Trim(s)| == |s| {
      assert TrimEnd(TrimStart(s)) == TrimStart(s)[..|s|];
    }
  }

  lemma {:induction false} TrimStartShortens(s: string)
    ensures |TrimStart(s)| <= |s|
    ensures |TrimStart(s)| == |s| ==> TrimStart(s) == s
  {
    if s != "" && IsSpace(s[0]) {
      TrimStartShortens(s[1..]);
    }
  }

  lemma {:induction false} ReadTexts(t: Target)
    requires !t.thread.Number?
    ensures AccountText(ReadTarget(t)) == Trim(AccountText(t))
    ensures ShowThread(ReadTarget(t).thread) == Trim(ShowThread(t.thread))
  {
    assert Trim("") == "";
  }

  lemma {:induction false} KeyLength(t: Target)
    ensures |NotifySubscriberKey(t)| == |t.to| + |AccountText(t)| + |ShowThread(t.thread)| + 2
  {
  }

  /** A target's key survives reading if and only if it has a recipient, and none of its recipient,
      account and thread id has white space around it. */
  lemma {:induction false} CanonicalMeansTrimmed(t: Target)
    ensures IsCanonical(t) <==>
              t.to != "" && IsTrimmed(t.to) && IsTrimmed(AccountText(t)) && (t.thread.Text? ==> IsTrimmed(t.thread.s))
  {
    var read := ReadTarget(t);
    TrimShape(t.to);
    TrimShape(AccountText(t));
    TrimShortens(t.to);
    TrimShortens(AccountText(t));
    KeyLength(t);
    KeyLength(read);
    assert Trim("") == "" && AccountText(read) == Trim(AccountText(t));
    if !t.thread.Number? {
      TrimShape(ShowThread(t.thread));
      TrimShortens(ShowThread(t.thread));
      ReadTexts(t);
    }
  }

  // ---------------------------------------------------------------- which targets share a key

  /** What a decimal numeral stands for. */
  function Numeral(s: string): int {
    if s == "" then 0 else Numeral(s[..|s| - 1]) * 10 + (s[|s| - 1] as int - '0' as int)
  }

  /** Numbers are shown in decimal: digits only, and they stand for the number. */
  lemma {:induction false} ShownInDecimal(n: nat)
    ensures ShowNat(n) != "" && forall i :: 0 <= i < |ShowNat(n)| ==> '0' <= ShowNat(n)[i] <= '9'
    ensures Numeral(ShowNat(n)) == n
  {
    if n >= 10 {
      ShownInDecimal(n / 10);
      assert ShowNat(n)[..|ShowNat(n)| - 1] == ShowNat(n / 10);
    } else {
      assert ShowNat(n)[..0] == "";
    }
  }

  /** So different thread numbers are shown differently, and a text thread id like the number it spells. */
  lemma {:induction false} ThreadsShownApart(m: int, n: int)
    ensures ShowThread(Number(m)) == ShowThread(Number(n)) <==> m == n
    ensures ShowThread(Text(ShowThread(Number(n)))) == ShowThread(Number(n)) && ShowThread(NoThread) == ""
  {
    SignedShown(m);
    SignedShown(n);
  }

  function Signed(s: string): int {
    if s != "" && s[0] == '-' then -Numeral(s[1..]) else Numeral(s)
  }

  lemma {:induction false} SignedShown(n: int)
    ensures Signed(ShowThread(Number(n))) == n
  {
    if n < 0 {
      ShownInDecimal(-n);
      assert ShowThread(Number(n))[1..] == ShowNat(-n);
    } else {
      ShownInDecimal(n);
    }
  }

  lemma {:induction false} FirstBar(a: string, x: string, b: string, y: string)
    requires '|' !in a && '|' !in b && a + "|" + x == b + "|" + y
    ensures a == b && x == y
  {
    var s := a + "|" + x;
    assert s[|a|] == '|' && s[|b|] == '|';
    assert forall i :: 0 <= i < |a| ==> s[i] == a[i];
    assert forall i :: 0 <= i < |b| ==> s[i] == b[i];
    assert |a| == |b|;
    assert s[..|a|] == a && s[..|b|] == b && s[|a| + 1..] == x && s[|b| + 1..] == y;
  }

  /** Two targets share a key if and only if recipient, account and thread are spelled the same, unless
      there is a bar in a recipient or an account. */
  lemma {:induction false} SameKeyMeansSameTarget(t: Target, u: Target)
    requires '|' !in t.to && '|' !in u.to && '|' !in AccountText(t) && '|' !in AccountText(u)
    ensures SameKey(t, u) <==>
              t.to == u.to && AccountText(t) == AccountText(u) && ShowThread(t.thread) == ShowThread(u.thread)
  {
    if SameKey(t, u) {
      var a, b := AccountText(t), AccountText(u);
      var x, y := ShowThread(t.thread), ShowThread(u.thread);
      assert NotifySubscriberKey(t) == t.to + "|" + (a + "|" + x);
      assert NotifySubscriberKey(u) == u.to + "|" + (b + "|" + y);
      FirstBar(t.to, a + "|" + x, u.to, b + "|" + y);
      FirstBar(a, x, b, y);
    }
  }

  ghost predicate AllCanonical(subs: seq<Subscription>) {
    forall s :: s in subs ==> IsCanonical(s.target)
  }

  ghost predicate NoKey(subs: seq<Subscription>, key: string) {
    forall i :: 0 <= i < |subs| ==> NotifySubscriberKey(subs[i].target) != key
  }

  lemma {:induction false} FindKeyFinds(subs: seq<Subscription>, key: string)
    ensures var i := FindKey(subs, key);
            && i <= |subs| && (i < |subs| ==> NotifySubscriberKey(subs[i].target) == key)
            && NoKey(subs[..i], key)
  {
    if subs != [] && NotifySubscriberKey(subs[0].target) != key {
      FindKeyFinds(subs[1..], key);
      var i := FindKey(subs[1..], key);
      assert subs[..i + 1] == [subs[0]] + subs[1..][..i];
    }
  }

  lemma {:induction false} ReadTargetIsCanonical(t: Target)
    requires Trim(t.to) != ""
    ensures IsCanonical(ReadTarget(t))
  {
    ReadTargetTwice(t);
    TrimShape(t.to);
    TrimShape(Trim(t.to));
  }

  /** Reading yields canonical subscribers ... */
  lemma {:induction false} ReadIsCanonical(subs: seq<Subscription>)
    ensures AllCanonical(ReadSubscribers(subs))
  {
    if subs != [] {
      ReadIsCanonical(subs[..|subs| - 1]);
      if Trim(subs[|subs| - 1].target.to) != "" {
        ReadTargetIsCanonical(subs[|subs| - 1].target);
      }
    }
  }

  /** ... and keeps the keys of those that were canonical. */
  lemma {:induction false} ReadKeepsKeys(subs: seq<Subscription>)
    requires AllCanonical(subs)
    ensures SameKeys(subs, ReadSubscribers(subs))
  {
    if subs != [] {
      var n := |subs| - 1;
      ReadKeepsKeys(subs[..n]);
      CanonicalKey(subs[n]);
      OneMoreSameKey(subs[..n], ReadSubscribers(subs[..n]), subs[n], subs[n].(target := ReadTarget(subs[n].target)));
      assert subs == subs[..n] + [subs[n]];
    }
  }

  lemma {:induction false} CanonicalKey(s: Subscription)
    requires IsCanonical(s.target)
    ensures Trim(s.target.to) != "" && SameKey(s.target, ReadTarget(s.target))
  {
  }

  lemma {:induction false} OneMoreSameKey(a: seq<Subscription>, b: seq<Subscription>, s: Subscription, t: Subscription)
    requires SameKeys(a, b) && SameKey(s.target, t.target)
    ensures SameKeys(a + [s], b + [t])
  {
  }

  ghost predicate SameKeys(a: seq<Subscription>, b: seq<Subscription>) {
    |a| == |b| && forall i :: 0 <= i < |a| ==> SameKey(a[i].target, b[i].target)
  }

  predicate SameKey(t: Target, u: Target) {
    NotifySubscriberKey(t) == NotifySubscriberKey(u)
  }

  lemma {:induction false} ReadKeepsDistinct(subs: seq<Subscription>)
    requires AllCanonical(subs) && KeysDistinct(subs)
    ensures KeysDistinct(ReadSubscribers(subs)) && AllCanonical(ReadSubscribers(subs))
  {
    ReadKeepsKeys(subs);
    ReadIsCanonical(subs);
  }

  lemma {:induction false} AppendKeepsDistinct(subs: seq<Subscription>, s: Subscription)
    requires AllCanonical(subs) && KeysDistinct(subs) && IsCanonical(s.target)
    requires NoKey(subs, NotifySubscriberKey(s.target))
    ensures AllCanonical(subs + [s]) && KeysDistinct(subs + [s])
  {
  }

  lemma {:induction false} ReplaceKeepsDistinct(subs: seq<Subscription>, i: nat, s: Subscription)
    requires AllCanonical(subs) && KeysDistinct(subs) && IsCanonical(s.target)
    requires i < |subs| && SameKey(subs[i].target, s.target)
    ensures AllCanonical(subs[i := s]) && KeysDistinct(subs[i := s])
  {
    forall t | t in subs[i := s] ensures IsCanonical(t.target) {
      assert t == s || t in subs;
    }
  }

  lemma {:induction false} UpsertKeepsDistinct(subs: seq<Subscription>, target: Target, mode: Mode, now: int)
    requires AllCanonical(subs) && KeysDistinct(subs) && IsCanonical(target)
    ensures AllCanonical(Upsert(subs, target, mode, now)) && KeysDistinct(Upsert(subs, target, mode, now))
  {
    var i, next := FindKey(subs, NotifySubscriberKey(target)), Subscription(target, mode, now);
    FindKeyFinds(subs, NotifySubscriberKey(target));
    if i < |subs| {
      ReplaceKeepsDistinct(subs, i, next);
    } else {
      assert subs[..i] == subs;
      AppendKeepsDistinct(subs, next);
    }
  }

  /** Where the j-th subscriber was before the i-th went away. */
  function Shift(i: nat, j: nat): nat {
    if j < i then j else j + 1
  }

  /** Only one subscriber, if any, has the key. */
  ghost predicate KeyOnce(subs: seq<Subscription>, key: string) {
    forall i, j :: 0 <= i < j < |subs| ==>
      NotifySubscriberKey(subs[i].target) != key || NotifySubscriberKey(subs[j].target) != key
  }

  /** What is left of a list of subscribers when a key is removed from it. */
  lemma {:induction false} RemoveKeyLeaves(subs: seq<Subscription>, key: string, other: string)
    ensures NoKey(RemoveKey(subs, key), key) <==> KeyOnce(subs, key)
    ensures other != key ==> (NoKey(RemoveKey(subs, key), other) <==> NoKey(subs, other))
    ensures forall s :: s in RemoveKey(subs, key) ==> s in subs
    ensures forall s :: s in subs && NotifySubscriberKey(s.target) != key ==> s in RemoveKey(subs, key)
  {
    var i := FindKey(subs, key);
    FindKeyFinds(subs, key);
    if i < |subs| {
      WithoutOneKey(subs, i, key);
      WithoutOneHas(subs, i);
      if other != key {
        WithoutOneOther(subs, i, other);
      }
    } else {
      assert subs[..i] == subs;
    }
  }

  lemma {:induction false} WithoutOneKey(subs: seq<Subscription>, i: nat, key: string)
    requires i < |subs| && NotifySubscriberKey(subs[i].target) == key && NoKey(subs[..i], key)
    ensures NoKey(WithoutOne(subs, i), key) <==> KeyOnce(subs, key)
  {
    var rest := WithoutOne(subs, i);
    if NoKey(rest, key) {
      forall a, b | 0 <= a < b < |subs|
        ensures NotifySubscriberKey(subs[a].target) != key || NotifySubscriberKey(subs[b].target) != key
      {
        if a < i {
          assert subs[..i][a] == subs[a];
        } else {
          assert rest[b - 1] == subs[b];
        }
      }
    }
    if KeyOnce(subs, key) {
      forall j | 0 <= j < |rest| ensures NotifySubscriberKey(rest[j].target) != key {
        assert rest[j] == subs[Shift(i, j)];
      }
    }
  }

  lemma {:induction false} WithoutOneOther(subs: seq<Subscription>, i: nat, other: string)
    requires i < |subs| && NotifySubscriberKey(subs[i].target) != other
    ensures NoKey(WithoutOne(subs, i), other) <==> NoKey(subs, other)
  {
    var rest := WithoutOne(subs, i);
    if NoKey(rest, other) {
      forall j | 0 <= j < |subs| ensures NotifySubscriberKey(subs[j].target) != other {
        assert j != i ==> subs[j] == rest[if j < i then j else j - 1];
      }
    }
    if NoKey(subs, other) {
      forall j | 0 <= j < |rest| ensures NotifySubscriberKey(rest[j].target) != other {
        assert rest[j] == subs[Shift(i, j)];
      }
    }
  }

  lemma {:induction false} WithoutOneHas(subs: seq<Subscription>, i: nat)
    requires i < |subs|
    ensures forall s :: s in WithoutOne(subs, i) ==> s in subs
    ensures forall s :: s in subs && s != subs[i] ==> s in WithoutOne(subs, i)
  {
    assert subs == subs[..i] + [subs[i]] + subs[i + 1..];
  }

  lemma {:induction false} WithoutOneKeepsDistinct(subs: seq<Subscription>, i: nat)
    requires i < |subs| && KeysDistinct(subs)
    ensures KeysDistinct(WithoutOne(subs, i))
  {
    var rest := WithoutOne(subs, i);
    forall j | 0 <= j < |rest| ensures rest[j] == subs[Shift(i, j)] {
    }
  }

  lemma {:induction false} RemoveKeyKeepsDistinct(subs: seq<Subscription>, key: string)
    requires AllCanonical(subs) && KeysDistinct(subs)
    ensures AllCanonical(RemoveKey(subs, key)) && KeysDistinct(RemoveKey(subs, key))
  {
    RemoveKeyLeaves(subs, key, key);
    FindKeyFinds(subs, key);
    if FindKey(subs, key) < |subs| {
      WithoutOneKeepsDistinct(subs, FindKey(subs, key));
    }
  }

  lemma {:induction false} WithoutKeysKeepsDistinct(subs: seq<Subscription>, keys: set<string>)
    requires KeysDistinct(subs)
    ensures KeysDistinct(WithoutKeys(subs, keys))
  {
    if subs != [] {
      var n := |subs| - 1;
      WithoutKeysKeepsDistinct(subs[..n], keys);
      var rest := WithoutKeys(subs[..n], keys);
      forall i | 0 <= i < |rest|
        ensures NotifySubscriberKey(rest[i].target) != NotifySubscriberKey(subs[n].target)
      {
        WithoutKeysHas(subs[..n], keys, rest[i]);
        var j :| 0 <= j < n && subs[..n][j] == rest[i];
        assert subs[j] == rest[i];
      }
    }
  }

  ghost predicate CanonicalTargets(events: seq<Event>) {
    forall k :: 0 <= k < |events| && (events[k].On? || events[k].Arm?) ==> IsCanonical(events[k].target)
  }

  lemma {:induction false} HandleKeepsDistinct(s: State, e: Event)
    requires AllCanonical(s.subscribers) && KeysDistinct(s.subscribers)
    requires (e.On? || e.Arm?) ==> IsCanonical(e.target)
    ensures var after := ReadState(Handle(s, e)).subscribers; AllCanonical(after) && KeysDistinct(after)
  {
    match e {
      case On(target, now) => UpsertKeepsDistinct(s.subscribers, target, Persistent, now);
      case Off(target) => RemoveKeyKeepsDistinct(s.subscribers, NotifySubscriberKey(target));
      case Arm(target, now) => UpsertKeepsDistinct(s.subscribers, target, Once, now);
      case Tick(pending, sends, now) =>
        var served := ServedKeys(s.subscribers, pending, sends, now, SeenBefore(s, pending, now), |pending|);
        WithoutKeysKeepsDistinct(s.subscribers, served);
        forall t | t in WithoutKeys(s.subscribers, served) ensures IsCanonical(t.target) {
          WithoutKeysHas(s.subscribers, served, t);
        }
    }
    ReadKeepsDistinct(Handle(s, e).subscribers);
  }

  /** Whatever commands and polls came before, no two subscribers share a key. */
  lemma {:induction false} OneSubscriberPerKey(events: seq<Event>)
    requires CanonicalTargets(events)
    ensures var subs := ReadState(FileAfter(events)).subscribers; AllCanonical(subs) && KeysDistinct(subs)
  {
    if events != [] {
      OneSubscriberPerKey(events[..|events| - 1]);
      HandleKeepsDistinct(ReadState(FileAfter(events[..|events| - 1])), events[|events| - 1]);
    }
  }

  // ---------------------------------------------------------------- what the commands do

  /** A target nobody has the key of is added at the end. */
  lemma {:induction false} UpsertAdds(subs: seq<Subscription>, target: Target, mode: Mode, now: int)
    requires NoKey(subs, NotifySubscriberKey(target))
    ensures Upsert(subs, target, mode, now) == subs + [Subscription(target, mode, now)]
  {
    FindKeyFinds(subs, NotifySubscriberKey(target));
  }

  /** The first subscriber with its key is replaced, with the time of the command, if it has the other
      mode, and left alone if it has this one; nobody else is touched. */
  lemma {:induction false} UpsertReplaces(subs: seq<Subscription>, target: Target, mode: Mode, now: int, i: nat)
    requires i < |subs| && SameKey(subs[i].target, target) && NoKey(subs[..i], NotifySubscriberKey(target))
    ensures Upsert(subs, target, mode, now) ==
              if subs[i].mode != mode then subs[i := Subscription(target, mode, now)] else subs
  {
    FindKeyIs(subs, NotifySubscriberKey(target), i);
  }

  lemma {:induction false} FindKeyIs(subs: seq<Subscription>, key: string, i: nat)
    requires i < |subs| && NotifySubscriberKey(subs[i].target) == key && NoKey(subs[..i], key)
    ensures FindKey(subs, key) == i
  {
    if i > 0 {
      assert subs[..i][0] == subs[0];
      assert subs[..i][1..] == subs[1..][..i - 1];
      FindKeyIs(subs[1..], key, i - 1);
    }
  }

  /** Somebody has the key and the mode. */
  predicate IsSubscribed(subs: seq<Subscription>, key: string, mode: Mode) {
    exists s :: s in subs && NotifySubscriberKey(s.target) == key && s.mode == mode
  }

  /** Who is subscribed after a command that subscribes `next`: whoever was, but for those of the other
      mode with its key, and then `next` in their place. */
  ghost predicate Subscribed(before: seq<Subscription>, after: seq<Subscription>, next: Subscription) {
    forall s :: s in after <==> StaysOrComes(before, next, s)
  }

  predicate StaysOrComes(before: seq<Subscription>, next: Subscription, s: Subscription) {
    if !SameKey(s.target, next.target) || IsSubscribed(before, NotifySubscriberKey(next.target), next.mode)
    then s in before else s == next
  }

  lemma {:induction false} UpsertSubscribes(subs: seq<Subscription>, target: Target, mode: Mode, now: int)
    requires KeysDistinct(subs)
    ensures Subscribed(subs, Upsert(subs, target, mode, now), Subscription(target, mode, now))
  {
    var key, next := NotifySubscriberKey(target), Subscription(target, mode, now);
    var i := FindKey(subs, key);
    FindKeyFinds(subs, key);
    if i < |subs| {
      forall s | s in subs && SameKey(s.target, target) ensures s == subs[i] {
        var j :| 0 <= j < |subs| && subs[j] == s;
      }
      forall s ensures s in subs[i := next] <==> s == next || (s in subs && s != subs[i]) {
        ReplacedHas(subs, i, next, s);
      }
    } else {
      assert subs[..i] == subs;
      forall s | s in subs ensures !SameKey(s.target, target) {
        var j :| 0 <= j < |subs| && subs[j] == s;
      }
    }
  }

  lemma {:induction false} ReplacedHas(subs: seq<Subscription>, i: nat, next: Subscription, s: Subscription)
    requires KeysDistinct(subs) && i < |subs|
    ensures s in subs[i := next] <==> s == next || (s in subs && s != subs[i])
  {
    var after := subs[i := next];
    assert after[i] == next;
    if j :| 0 <= j < |subs| && subs[j] == s && s != subs[i] {
      assert after[j] == s;
    }
    if j :| 0 <= j < |after| && after[j] == s && s != next {
      assert subs[j] == s;
    }
  }

  /** Subscribers as a reader sees them are read back unchanged. */
  ghost predicate AllRead(subs: seq<Subscription>) {
    forall s :: s in subs ==> Trim(s.target.to) != "" && ReadTarget(s.target) == s.target
  }

  lemma {:induction false} ReadIsRead(subs: seq<Subscription>)
    ensures AllRead(ReadSubscribers(subs))
  {
    if subs != [] {
      ReadIsRead(subs[..|subs| - 1]);
      var last := subs[|subs| - 1].target;
      ReadTargetTwice(last);
      TrimShape(last.to);
      TrimShape(Trim(last.to));
    }
  }

  lemma {:induction false} ReadBack(subs: seq<Subscription>)
    requires AllRead(subs)
    ensures ReadSubscribers(subs) == subs
  {
    if subs != [] {
      ReadBack(subs[..|subs| - 1]);
      assert subs[|subs| - 1] in subs;
    }
  }

  lemma {:induction false} OneEventMore(events: seq<Event>, e: Event)
    ensures FileAfter(events + [e]) == Handle(ReadState(FileAfter(events)), e)
  {
    assert (events + [e])[..|events|] == events;
  }

  /** What is read is what was written for somebody, as it is read. */
  lemma {:induction false} ReadHas(subs: seq<Subscription>, s: Subscription)
    ensures s in ReadSubscribers(subs) <==> exists t :: t in subs && IsReadAs(t, s)
  {
    if subs != [] {
      var n := |subs| - 1;
      ReadHas(subs[..n], s);
      assert subs == subs[..n] + [subs[n]];
      if t :| t in subs && IsReadAs(t, s) {
        assert t in subs[..n] || t == subs[n];
      }
      if t :| t in subs[..n] && IsReadAs(t, s) {
        assert t in subs;
      }
      assert s in ReadSubscribers(subs) <==> s in ReadSubscribers(subs[..n]) || IsReadAs(subs[n], s);
    }
  }

  predicate IsReadAs(t: Subscription, s: Subscription) {
    Trim(t.target.to) != "" && s == t.(target := ReadTarget(t.target))
  }

  /** In any run in which keys survive reading: after "on" the target's subscriber is persistent, and after
      "once" it is armed, from the time of the command unless it was so before; everybody else stays. */
  lemma {:induction false} SubscribedInRun(events: seq<Event>, e: Event)
    requires (e.On? || e.Arm?) && CanonicalTargets(events + [e])
    ensures Subscribed(ReadState(FileAfter(events)).subscribers, ReadState(FileAfter(events + [e])).subscribers,
                       Subscription(ReadTarget(e.target), if e.On? then Persistent else Once, e.now))
  {
    assert CanonicalTargets(events) by {
      assert forall k :: 0 <= k < |events| ==> events[k] == (events + [e])[k];
    }
    assert (events + [e])[|events|] == e;
    OneSubscriberPerKey(events);
    OneEventMore(events, e);
    ReadIsRead(FileAfter(events).subscribers);
    UpsertIsRead(ReadState(FileAfter(events)).subscribers, e.target, if e.On? then Persistent else Once, e.now);
  }

  lemma {:induction false} UpsertIsRead(subs: seq<Subscription>, target: Target, mode: Mode, now: int)
    requires AllRead(subs) && KeysDistinct(subs) && IsCanonical(target)
    ensures Subscribed(subs, ReadSubscribers(Upsert(subs, target, mode, now)),
                       Subscription(ReadTarget(target), mode, now))
  {
    var next, read := Subscription(target, mode, now), Subscription(ReadTarget(target), mode, now);
    var after := Upsert(subs, target, mode, now);
    UpsertSubscribes(subs, target, mode, now);
    forall s ensures s in ReadSubscribers(after) <==> StaysOrComes(subs, read, s) {
      ReadHas(after, s);
      assert IsReadAs(next, read) && SameKey(next.target, read.target);
      forall t | t in subs ensures IsReadAs(t, t) && (IsReadAs(t, s) ==> t == s) {
      }
      if StaysOrComes(subs, read, s) {
        var t := if s in subs && (!SameKey(s.target, target) || IsSubscribed(subs, NotifySubscriberKey(target), mode))
                 then s else next;
        assert StaysOrComes(subs, next, t);
        assert t in after && IsReadAs(t, s);
      }
      if t :| t in after && IsReadAs(t, s) {
        assert StaysOrComes(subs, next, t);
        assert t in subs ==> t == s;
      }
    }
  }

  /** After "off", nobody with the target's key as it is read is left if and only if nobody had it
      before, or the target's own key is the one that is read and only one subscriber had it. Others
      are not taken away. */
  lemma {:induction false} OffRemovesTarget(events: seq<Event>, target: Target)
    requires Trim(target.to) != ""
    ensures var before, after := ReadState(FileAfter(events)).subscribers,
                                 ReadState(FileAfter(events + [Off(target)])).subscribers;
            var key := NotifySubscriberKey(ReadTarget(target));
            && (NoKey(after, key) <==> NoKey(before, key) || (IsCanonical(target) && KeyOnce(before, key)))
            && forall s :: s in before && NotifySubscriberKey(s.target) != NotifySubscriberKey(target) ==> s in after
  {
    var before := ReadState(FileAfter(events)).subscribers;
    var rest := RemoveKey(before, NotifySubscriberKey(target));
    OneEventMore(events, Off(target));
    RemoveKeyLeaves(before, NotifySubscriberKey(target), NotifySubscriberKey(ReadTarget(target)));
    ReadIsRead(FileAfter(events).subscribers);
    ReadBack(rest);
  }

  /** So in a run in which everybody turned on has a key that survives reading, "off" leaves no
      trace of a target, if it was there, exactly when its own key survives reading. */
  lemma {:induction false} OffWorksExactlyWhenCanonical(events: seq<Event>, target: Target)
    requires CanonicalTargets(events) && Trim(target.to) != ""
    ensures var before, after := ReadState(FileAfter(events)).subscribers,
                                 ReadState(FileAfter(events + [Off(target)])).subscribers;
            var key := NotifySubscriberKey(ReadTarget(target));
            NoKey(after, key) <==> IsCanonical(target) || NoKey(before, key)
  {
    OneSubscriberPerKey(events);
    OffRemovesTarget(events, target);
  }

  lemma {:induction false} AfterOn(t: Target, a: int)
    requires Trim(t.to) != ""
    ensures ReadState(FileAfter([On(t, a)])).subscribers == [Subscription(ReadTarget(t), Persistent, a)]
  {
    assert [On(t, a)][..0] == [];
    assert FileAfter([On(t, a)]).subscribers == [Subscription(t, Persistent, a)];
    assert [Subscription(t, Persistent, a)][..0] == [];
  }

  /** Turning a target on and off again leaves nobody if and only if its key survives reading. */
  lemma {:induction false} OnThenOff(t: Target, a: int)
    requires Trim(t.to) != ""
    ensures ReadState(FileAfter([On(t, a), Off(t)])).subscribers ==
              if IsCanonical(t) then [] else [Subscription(ReadTarget(t), Persistent, a)]
  {
    AfterOn(t, a);
    OneEventMore([On(t, a)], Off(t));
    assert [On(t, a)] + [Off(t)] == [On(t, a), Off(t)];
    var read := Subscription(ReadTarget(t), Persistent, a);
    assert [read][1..] == [];
    ReadIsRead(FileAfter([On(t, a)]).subscribers);
    ReadBack([read]);
  }

  lemma {:induction false} PollIsReadBack(s: State, pending: seq<Request>, sends: Sends, now: int)
    requires AllRead(s.subscribers)
    ensures ReadSubscribers(Poll(s, pending, sends, now).subscribers) == Poll(s, pending, sends, now).subscribers
  {
    var kept := Poll(s, pending, sends, now).subscribers;
    var served := ServedKeys(s.subscribers, pending, sends, now, SeenBefore(s, pending, now), |pending|);
    forall t | t in kept ensures t in s.subscribers {
      WithoutKeysHas(s.subscribers, served, t);
    }
    ReadBack(kept);
  }

  lemma {:induction false} ReadAfterPoll(file: State, pending: seq<Request>, sends: Sends, now: int)
    ensures ReadState(Handle(ReadState(file), Tick(pending, sends, now))).subscribers ==
              Poll(ReadState(file), pending, sends, now).subscribers
  {
    ReadIsRead(file.subscribers);
    PollIsReadBack(ReadState(file), pending, sends, now);
  }

  /** The subscribers that the reader after a poll finds are those the poll leaves. */
  lemma {:induction false} PollInRun(events: seq<Event>, pending: seq<Request>, sends: Sends, now: int)
    ensures ReadState(FileAfter(events + [Tick(pending, sends, now)])).subscribers ==
              Poll(ReadState(FileAfter(events)), pending, sends, now).subscribers
  {
    OneEventMore(events, Tick(pending, sends, now));
    ReadAfterPoll(FileAfter(events), pending, sends, now);
  }

  /** In any run, a poll takes away exactly the subscribers with the key of a one-shot that got
      something. */
  lemma {:induction false} PollsTakeServedKeys(events: seq<Event>, pending: seq<Request>, sends: Sends, now: int,
                                               t: Subscription)
    ensures var s := ReadState(FileAfter(events));
            t in ReadState(FileAfter(events + [Tick(pending, sends, now)])).subscribers <==>
              t in s.subscribers && !KeyGotSomething(s, pending, sends, now, NotifySubscriberKey(t.target))
  {
    PollInRun(events, pending, sends, now);
    PollDropsServedKeys(ReadState(FileAfter(events)), pending, sends, now, t);
  }

  /** When everybody's key survives reading, a poll takes away a subscriber if and only if it is a
      one-shot that got something. */
  lemma {:induction false} PollsKeepSubscribers(events: seq<Event>, pending: seq<Request>, sends: Sends, now: int,
                                                j: nat)
    requires CanonicalTargets(events)
    requires j < |ReadState(FileAfter(events)).subscribers|
    ensures var s := ReadState(FileAfter(events));
            s.subscribers[j] in ReadState(FileAfter(events + [Tick(pending, sends, now)])).subscribers <==>
              !(s.subscribers[j].mode == Once && GotSomething(s, pending, sends, now, j))
  {
    PollInRun(events, pending, sends, now);
    OneSubscriberPerKey(events);
    PollDropsServedOneShots(ReadState(FileAfter(events)), pending, sends, now, j);
  }

  /** Reading again what was read before, with one target behind it. */
  lemma {:induction false} ReadWithOneMore(read: Subscription, s: Subscription)
    requires AllRead([read]) && Trim(s.target.to) != ""
    ensures ReadSubscribers([read]) == [read]
    ensures ReadSubscribers([read, s]) == [read, s.(target := ReadTarget(s.target))]
  {
    assert [read, s][..1] == [read];
    ReadBack([read]);
  }

  lemma {:induction false} UpsertAppends(read: Subscription, t: Target, now: int)
    requires !SameKey(read.target, t)
    ensures Upsert([read], t, Persistent, now) == [read, Subscription(t, Persistent, now)]
  {
    assert [read][1..] == [];
  }

  /** A target whose key does not survive reading is subscribed a second time. */
  lemma {:induction false} OnTwice(t: Target, a: int, b: int)
    requires Trim(t.to) != "" && !IsCanonical(t)
    ensures ReadState(FileAfter([On(t, a), On(t, b)])).subscribers ==
              [Subscription(ReadTarget(t), Persistent, a), Subscription(ReadTarget(t), Persistent, b)]
  {
    var read := Subscription(ReadTarget(t), Persistent, a);
    AfterOn(t, a);
    ReadIsRead(FileAfter([On(t, a)]).subscribers);
    UpsertAppends(read, t, b);
    OneEventMore([On(t, a)], On(t, b));
    assert [On(t, a)] + [On(t, b)] == [On(t, a), On(t, b)];
    ReadWithOneMore(read, Subscription(t, Persistent, b));
  }

  /** The condition is exact: turning notifications on twice for one target leaves one subscriber
      if and only if the target's key survives reading. */
  lemma {:induction false} DuplicatesExactlyWhenPadded(t: Target, a: int, b: int)
    requires Trim(t.to) != ""
    ensures KeysDistinct(ReadState(FileAfter([On(t, a), On(t, b)])).subscribers) <==> IsCanonical(t)
  {
    if IsCanonical(t) {
      OneSubscriberPerKey([On(t, a), On(t, b)]);
    } else {
      OnTwice(t, a, b);
      var subs := [Subscription(ReadTarget(t), Persistent, a), Subscription(ReadTarget(t), Persistent, b)];
      assert subs[0].target == subs[1].target;
    }
  }

  // ---------------------------------------------------------------- keys and ids that do not survive reading

  /** An account id with a blank in front. */
  const PADDED := Target("1", Some(" a"), NoThread)

  lemma {:induction false} PaddedIsRead()
    ensures !IsCanonical(PADDED) && ReadTarget(PADDED) == Target("1", Some("a"), NoThread)
  {
    assert " a"[1..] == "a" && Trim("1") == "1" && Trim(" a") == "a";
    assert NotifySubscriberKey(PADDED)[2] == ' ';
    assert NotifySubscriberKey(ReadTarget(PADDED))[2] == 'a';
  }

  /** Turned on twice, it is subscribed twice, under one key; turned off, it stays subscribed. */
  lemma {:induction false} PaddedTargetMisbehaves(a: int, b: int)
    ensures !KeysDistinct(ReadState(FileAfter([On(PADDED, a), On(PADDED, b)])).subscribers)
    ensures ReadState(FileAfter([On(PADDED, a), Off(PADDED)])).subscribers ==
              [Subscription(Target("1", Some("a"), NoThread), Persistent, a)]
  {
    PaddedIsRead();
    assert Trim(PADDED.to) == "1";
    DuplicatesExactlyWhenPadded(PADDED, a, b);
    OnThenOff(PADDED, a);
  }

  /** A request whose id does not survive reading is never remembered, so it is sent to whoever is
      there. */
  lemma {:induction false} UnreadableIdIsSent(events: seq<Event>, k: nat, now: int, s: Subscription, id: string)
    requires k < |events| && events[k] == Tick([Request(id, None)], Succeeds, now) && !SurvivesReading(id)
    requires s in StateAt(events, k).subscribers && s.mode == Persistent
    ensures Notifies(events, k, id)
  {
    var state := StateAt(events, k);
    var j :| 0 <= j < |state.subscribers| && state.subscribers[j] == s;
    var seen := SeenBefore(state, events[k].pending, now);
    ReadIsClean(FileAfter(events[..k]).notified);
    if id in seen {
      CleanIds(state.notified, id);
    }
    assert IsSent(state.subscribers, events[k].pending, Succeeds, now, seen, 0, j);
  }

  /** Two polls both get the request through, less than a day apart, and it was pending throughout. */
  ghost predicate IsRepeated(events: seq<Event>, a: nat, b: nat, id: string) {
    && ClockRuns(events) && a < b && Notifies(events, a, id) && Notifies(events, b, id)
    && !AbsentBetween(events, a, b, id) && events[b].now - events[a].now <= 24 * 60 * 60 * 1000
  }

  const PLAIN := Target("1", None, NoThread)

  lemma {:induction false} PlainIsCanonical()
    ensures IsCanonical(PLAIN) && ReadTarget(PLAIN) == PLAIN
  {
    assert Trim("1") == "1";
  }

  /** Turned on, and still there after one poll. */
  lemma {:induction false} StillSubscribed(pending: seq<Request>, now: int)
    ensures ReadState(FileAfter([On(PLAIN, 1)])).subscribers == [Subscription(PLAIN, Persistent, 1)]
    ensures Subscription(PLAIN, Persistent, 1) in
              ReadState(FileAfter([On(PLAIN, 1)] + [Tick(pending, Succeeds, now)])).subscribers
  {
    PlainIsCanonical();
    AfterOn(PLAIN, 1);
    PollsKeepSubscribers([On(PLAIN, 1)], pending, Succeeds, now, 0);
  }

  /** Notifications are turned on, and then the same request is found pending by two polls in a row. */
  function TwoPolls(id: string): seq<Event> {
    [On(PLAIN, 1), Tick([Request(id, None)], Succeeds, 2), Tick([Request(id, None)], Succeeds, 3)]
  }

  lemma {:induction false} SentTwice(id: string)
    requires !SurvivesReading(id)
    ensures Notifies(TwoPolls(id), 1, id) && Notifies(TwoPolls(id), 2, id)
  {
    var events, poll := TwoPolls(id), [Request(id, None)];
    assert events[..1] == [On(PLAIN, 1)];
    assert events[..2] == [On(PLAIN, 1)] + [Tick(poll, Succeeds, 2)];
    StillSubscribed(poll, 2);
    UnreadableIdIsSent(events, 1, 2, Subscription(PLAIN, Persistent, 1), id);
    UnreadableIdIsSent(events, 2, 3, Subscription(PLAIN, Persistent, 1), id);
  }

  lemma {:induction false} NothingInBetween(id: string)
    ensures ClockRuns(TwoPolls(id)) && !AbsentBetween(TwoPolls(id), 1, 2, id)
  {
  }

  /** An empty id, or one with a blank in front, is sent by both polls. */
  lemma {:induction false} BlankIdsAreRepeated()
    ensures IsRepeated(TwoPolls(""), 1, 2, "") && IsRepeated(TwoPolls(" x"), 1, 2, " x")
  {
    SentTwice("");
    SentTwice(" x");
    NothingInBetween("");
    NothingInBetween(" x");
  }

  /** A request can be sent again while it is pending and less than a day has passed if and only if
      its id is empty or has white space around it: the reader drops the one from the seen table,
      and enters the other under its trimmed name. */
  lemma {:induction false} RepeatedExactlyWhenUnreadable(id: string)
    ensures (exists events: seq<Event>, a: nat, b: nat :: IsRepeated(events, a, b, id)) <==>
              id == "" || !IsTrimmed(id)
  {
    if events: seq<Event>, a: nat, b: nat :| IsRepeated(events, a, b, id) {
      if SurvivesReading(id) {
        NoRepeats(events, a, b, id);
      }
    }
    if !SurvivesReading(id) {
      SentTwice(id);
      NothingInBetween(id);
      assert IsRepeated(TwoPolls(id), 1, 2, id);
    }
  }
}
