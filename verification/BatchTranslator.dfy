/** `translateBatch` of scripts/control-ui-i18n.ts: two attempts a batch, splitting a batch in
    half when the prompt timed out. */
module BatchTranslator {
  import opened JsStrings
  import opened Options
  import opened TranslationBatches

  const TRANSLATE_MAX_ATTEMPTS: nat := 2

  /** A property of the reply object, as far as the check `typeof value === "string"` sees it. */
  datatype Field = Str(text: string) | NotAString

  /** What one attempt meets: no client to talk to, an error (the prompt was rejected or its reply
      did not parse), or a reply object. */
  datatype Attempt =
    | NoClient(message: string)
    | PromptFailed(message: string)
    | Reply(fields: map<string, Field>)

  /** Everything the outside world will answer, attempt by attempt. */
  type World = nat -> Attempt

  datatype Outcome = Translated(values: map<string, string>) | Failed(message: string)

  function LowerAscii(c: char): char {
    if 'A' <= c <= 'Z' then (c as int + 32) as char else c
  }

  predicate Contains(s: string, part: string) {
    part <= s || (s != "" && Contains(s[1..], part))
  }

  predicate IsPromptTimeoutError(message: string) {
    Contains(seq(|message|, i requires 0 <= i < |message| => LowerAscii(message[i])), "timed out")
  }

  predicate Answered(item: BatchItem, fields: map<string, Field>) {
    item.key in fields && fields[item.key].Str? && !IsBlank(fields[item.key].text)
  }

  function Missing(item: BatchItem): string {
    "missing translation for " + item.key
  }

  /** Read the translations of `items` from a reply, or complain about the first one missing. */
  function Collect(items: seq<BatchItem>, fields: map<string, Field>): Outcome {
    if items == [] then Translated(map[])
    else
      var last := items[|items| - 1];
      match Collect(items[..|items| - 1], fields)
      case Failed(message) => Failed(message)
      case Translated(values) =>
        if Answered(last, fields) then Translated(values[last.key := fields[last.key].text])
        else Failed(Missing(last))
  }

  /** What a single attempt comes to. */
  function Outcome1(attempt: Attempt, items: seq<BatchItem>): Outcome {
    match attempt
    case NoClient(message) => Failed(message)
    case PromptFailed(message) => Failed(message)
    case Reply(fields) => Collect(items, fields)
  }

  function Sent(attempt: Attempt): nat {
    if attempt.NoClient? then 0 else 1
  }

  function Midpoint(n: nat): nat { (n + 1) / 2 }

  /** The course of a translation that starts at attempt number `pos` of the world: its outcome,
      the attempt number it leaves off at, and the prompts it sent. */
  datatype Course = Course(outcome: Outcome, next: nat, prompts: nat)

  function Then(prompts: nat, rest: Course): Course {
    rest.(prompts := prompts + rest.prompts)
  }

  function Translate(world: World, pos: nat, items: seq<BatchItem>): Course
    decreases |items|, TRANSLATE_MAX_ATTEMPTS + 1
  {
    TranslateFrom(world, pos, items, 0)
  }

  function TranslateFrom(world: World, pos: nat, items: seq<BatchItem>, attempt: nat): Course
    requires attempt < TRANSLATE_MAX_ATTEMPTS
    decreases |items|, TRANSLATE_MAX_ATTEMPTS - attempt
  {
    var outcome := Outcome1(world(pos), items);
    var sent := Sent(world(pos));
    if outcome.Translated? then Course(outcome, pos + 1, sent)
    else if IsPromptTimeoutError(outcome.message) && |items| > 1 then Then(sent, Halves(world, pos + 1, items))
    else if IsPromptTimeoutError(outcome.message) || attempt + 1 == TRANSLATE_MAX_ATTEMPTS
    then Course(outcome, pos + 1, sent)
    else Then(sent, TranslateFrom(world, pos + 1, items, attempt + 1))
  }

  function Halves(world: World, pos: nat, items: seq<BatchItem>): Course
    requires |items| > 1
    decreases |items|, 0
  {
    var left := Translate(world, pos, items[..Midpoint(|items|)]);
    if left.outcome.Failed? then left
    else
      var right := Translate(world, left.next, items[Midpoint(|items|)..]);
      if right.outcome.Failed? then Then(left.prompts, right)
      else Course(Translated(left.outcome.values + right.outcome.values), right.next, left.prompts + right.prompts)
  }

  // ---------------------------------------------------------------- the procedure

  /** The client a locale run talks through: made on demand, dropped after every failure. */
  class ClientAccess {
    const world: World
    var attempts: nat
    var prompts: nat
    var live: bool

    constructor (w: World)
      ensures world == w && attempts == 0 && prompts == 0 && !live
    {
      world := w;
      attempts, prompts, live := 0, 0, false;
    }

    /** `(await getClient()).prompt(...)` and parsing its reply. */
    method Prompt() returns (attempt: Attempt)
      modifies this
      ensures attempt == world(old(attempts)) && attempts == old(attempts) + 1
      ensures prompts == old(prompts) + Sent(attempt)
      ensures live == (old(live) || !attempt.NoClient?)
    {
      attempt := world(attempts);
      attempts := attempts + 1;
      if !attempt.NoClient? {
        live := true;
        prompts := prompts + 1;
      }
    }

    method ResetClient()
      modifies `live
      ensures !live
    {
      live := false;
    }
  }

  /** The loop that reads a reply item by item. */
  method ReadReply(items: seq<BatchItem>, fields: map<string, Field>) returns (outcome: Outcome)
    ensures outcome == Collect(items, fields)
  {
    var translated: map<string, string> := map[];
    for index := 0 to |items|
      invariant Collect(items[..index], fields) == Translated(translated)
    {
      var item := items[index];
      assert items[..index + 1][..index] == items[..index];
      if !Answered(item, fields) {
        FailurePersists(items, index + 1, fields);
        return Failed(Missing(item));
      }
      translated := translated[item.key := fields[item.key].text];
    }
    assert items[..|items|] == items;
    return Translated(translated);
  }

  lemma {:induction false} FailurePersists(items: seq<BatchItem>, index: nat, fields: map<string, Field>)
    requires index <= |items| && Collect(items[..index], fields).Failed?
    ensures Collect(items, fields) == Collect(items[..index], fields)
  {
    if index < |items| {
      assert items[..|items| - 1][..index] == items[..index];
      FailurePersists(items[..|items| - 1], index, fields);
    } else {
      assert items[..index] == items;
    }
  }

  method TranslateBatch(access: ClientAccess, items: seq<BatchItem>) returns (outcome: Outcome)
    modifies access
    ensures var course := Translate(access.world, old(access.attempts), items);
            && outcome == course.outcome && access.attempts == course.next
            && access.prompts == old(access.prompts) + course.prompts
    ensures outcome.Translated? <==> access.live
    decreases |items|
  {
    outcome := Failed("translation failed");
    var attempt := 0;
    ghost var course := Translate(access.world, access.attempts, items);
    while attempt < TRANSLATE_MAX_ATTEMPTS
      invariant 0 <= attempt <= TRANSLATE_MAX_ATTEMPTS
      invariant access.prompts >= old(access.prompts)
      invariant attempt < TRANSLATE_MAX_ATTEMPTS ==>
                  course == Then(access.prompts - old(access.prompts),
                                 TranslateFrom(access.world, access.attempts, items, attempt))
      invariant attempt == TRANSLATE_MAX_ATTEMPTS ==>
                  outcome.Failed? && !access.live &&
                  course == Course(outcome, access.attempts, access.prompts - old(access.prompts))
    {
      var reply := access.Prompt();
      match reply {
        case NoClient(message) => outcome := Failed(message);
        case PromptFailed(message) => outcome := Failed(message);
        case Reply(fields) => outcome := ReadReply(items, fields);
      }
      if outcome.Translated? {
        return;
      }
      access.ResetClient();
      if IsPromptTimeoutError(outcome.message) && |items| > 1 {
        var midpoint := Midpoint(|items|);
        outcome := TranslateBatch(access, items[..midpoint]);
        if outcome.Failed? {
          return;
        }
        var left := outcome.values;
        outcome := TranslateBatch(access, items[midpoint..]);
        if outcome.Failed? {
          return;
        }
        outcome := Translated(left + outcome.values);
        return;
      }
      if IsPromptTimeoutError(outcome.message) {
        return;
      }
      attempt := attempt + 1;
    }
  }

  // ---------------------------------------------------------------- what a course gives

  ghost predicate HasKey(items: seq<BatchItem>, key: string) {
    exists i :: 0 <= i < |items| && items[i].key == key
  }

  /** `value` is what some reply between two points of the world says for `key`. */
  ghost predicate SaidFor(world: World, from: nat, to: nat, key: string, value: string) {
    exists p :: from <= p < to && Says(world(p), key, value)
  }

  predicate Says(attempt: Attempt, key: string, value: string) {
    attempt.Reply? && key in attempt.fields && attempt.fields[key] == Str(value)
  }

  /** The values are for the items' keys exactly, none is blank, and each was said for its key. */
  ghost predicate Faithful(world: World, from: nat, to: nat, items: seq<BatchItem>, values: map<string, string>) {
    && (forall key :: key in values <==> HasKey(items, key))
    && (forall key :: key in values ==> !IsBlank(values[key]) && SaidFor(world, from, to, key, values[key]))
  }

  lemma {:induction false} CollectFaithful(world: World, pos: nat, items: seq<BatchItem>)
    requires world(pos).Reply? && Collect(items, world(pos).fields).Translated?
    ensures Faithful(world, pos, pos + 1, items, Collect(items, world(pos).fields).values)
  {
    if items != [] {
      var n := |items| - 1;
      CollectFaithful(world, pos, items[..n]);
      var values := Collect(items, world(pos).fields).values;
      assert Says(world(pos), items[n].key, values[items[n].key]);
      forall key ensures HasKey(items, key) <==> HasKey(items[..n], key) || key == items[n].key {
        if i :| 0 <= i < |items| && items[i].key == key {
          assert i < n ==> items[..n][i].key == key;
        }
        if i :| 0 <= i < n && items[..n][i].key == key {
          assert items[i].key == key;
        }
      }
    }
  }

  lemma {:induction false} FaithfulHalves(world: World, a: nat, b: nat, c: nat, items: seq<BatchItem>, mid: nat,
                       left: map<string, string>, right: map<string, string>)
    requires a <= b <= c && mid <= |items|
    requires Faithful(world, a, b, items[..mid], left) && Faithful(world, b, c, items[mid..], right)
    ensures Faithful(world, a, c, items, left + right)
  {
    forall key ensures HasKey(items, key) <==> HasKey(items[..mid], key) || HasKey(items[mid..], key) {
      if i :| 0 <= i < |items| && items[i].key == key {
        assert if i < mid then items[..mid][i].key == key else items[mid..][i - mid].key == key;
      }
      if i :| 0 <= i < mid && items[..mid][i].key == key {
        assert items[i].key == key;
      }
      if i :| 0 <= i < |items| - mid && items[mid..][i].key == key {
        assert items[mid + i].key == key;
      }
    }
  }

  lemma {:induction false} Widen(world: World, a: nat, b: nat, c: nat, items: seq<BatchItem>,
                                 values: map<string, string>)
    requires a <= b && Faithful(world, b, c, items, values)
    ensures Faithful(world, a, c, items, values)
  {
  }

  /** A successful translation covers exactly the keys asked for, with text the model gave for
      those very keys, however often the batch was retried or split on the way. */
  lemma {:induction false} SuccessIsFaithful(world: World, pos: nat, items: seq<BatchItem>, attempt: nat)
    requires attempt < TRANSLATE_MAX_ATTEMPTS
    ensures var course := TranslateFrom(world, pos, items, attempt);
            && pos < course.next
            && (course.outcome.Translated? ==> Faithful(world, pos, course.next, items, course.outcome.values))
    decreases |items|, TRANSLATE_MAX_ATTEMPTS - attempt
  {
    var outcome := Outcome1(world(pos), items);
    var course := TranslateFrom(world, pos, items, attempt);
    if outcome.Translated? {
      CollectFaithful(world, pos, items);
    } else if IsPromptTimeoutError(outcome.message) && |items| > 1 {
      var mid := Midpoint(|items|);
      var left := Translate(world, pos + 1, items[..mid]);
      assert course == Then(Sent(world(pos)), Halves(world, pos + 1, items));
      SuccessIsFaithful(world, pos + 1, items[..mid], 0);
      if left.outcome.Translated? {
        var right := Translate(world, left.next, items[mid..]);
        SuccessIsFaithful(world, left.next, items[mid..], 0);
        if right.outcome.Translated? {
          FaithfulHalves(world, pos + 1, left.next, right.next, items, mid, left.outcome.values, right.outcome.values);
          Widen(world, pos, pos + 1, right.next, items, course.outcome.values);
        }
      }
    } else if !IsPromptTimeoutError(outcome.message) && attempt + 1 < TRANSLATE_MAX_ATTEMPTS {
      SuccessIsFaithful(world, pos + 1, items, attempt + 1);
      if course.outcome.Translated? {
        Widen(world, pos, pos + 1, course.next, items, course.outcome.values);
      }
    }
  }

  /** The most prompts a batch of n items can cost. */
  function PromptBound(n: nat): nat {
    if n == 0 then 2 else 4 * n - 2
  }

  lemma {:induction false} HalvesAreBounded(world: World, pos: nat, items: seq<BatchItem>)
    requires |items| > 1
    requires var mid, left := Midpoint(|items|), Translate(world, pos, items[..Midpoint(|items|)]);
             && left.prompts <= 4 * mid - 2
             && Translate(world, left.next, items[mid..]).prompts <= 4 * (|items| - mid) - 2
    ensures Halves(world, pos, items).prompts <= 4 * |items| - 4
  {
  }

  lemma {:induction false} PromptsAreBounded(world: World, pos: nat, items: seq<BatchItem>, attempt: nat)
    requires attempt < TRANSLATE_MAX_ATTEMPTS
    ensures TranslateFrom(world, pos, items, attempt).prompts <= PromptBound(|items|) - attempt
    decreases |items|, TRANSLATE_MAX_ATTEMPTS - attempt
  {
    var outcome := Outcome1(world(pos), items);
    if outcome.Failed? {
      if IsPromptTimeoutError(outcome.message) && |items| > 1 {
        var mid := Midpoint(|items|);
        PromptsAreBounded(world, pos + 1, items[..mid], 0);
        PromptsAreBounded(world, Translate(world, pos + 1, items[..mid]).next, items[mid..], 0);
        HalvesAreBounded(world, pos + 1, items);
        assert TranslateFrom(world, pos, items, attempt) == Then(Sent(world(pos)), Halves(world, pos + 1, items));
      } else if !IsPromptTimeoutError(outcome.message) && attempt + 1 < TRANSLATE_MAX_ATTEMPTS {
        PromptsAreBounded(world, pos + 1, items, attempt + 1);
      }
    }
  }

  // ---------------------------------------------------------------- how a course goes

  /** Every item's translation is in the reply: a string that is not blank. */
  predicate AllAnswered(items: seq<BatchItem>, fields: map<string, Field>) {
    forall i :: 0 <= i < |items| ==> Answered(items[i], fields)
  }

  /** A reply is taken if and only if it answers every item, and otherwise the first item without an
      answer is complained about. */
  lemma {:induction false} TakenWhenAnswered(items: seq<BatchItem>, fields: map<string, Field>)
    ensures match Collect(items, fields)
            case Translated(values) =>
              AllAnswered(items, fields) &&
              forall i :: 0 <= i < |items| ==>
                items[i].key in values && Str(values[items[i].key]) == fields[items[i].key]
            case Failed(message) =>
              exists i :: 0 <= i < |items| && AllAnswered(items[..i], fields) && !Answered(items[i], fields)
                          && message == "missing translation for " + items[i].key
  {
    if items != [] {
      var n := |items| - 1;
      TakenWhenAnswered(items[..n], fields);
      if Collect(items[..n], fields).Failed? {
        var i :| 0 <= i < n && AllAnswered(items[..n][..i], fields) && !Answered(items[..n][i], fields)
                 && Collect(items, fields).message == "missing translation for " + items[..n][i].key;
        assert items[..n][..i] == items[..i];
      } else if Answered(items[n], fields) {
        assert forall i :: 0 <= i < n ==> items[..n][i] == items[i];
      }
    }
  }

  /** A reply that answers every item ends the course at once. */
  lemma {:induction false} AnsweredAtOnce(world: World, pos: nat, items: seq<BatchItem>)
    requires world(pos).Reply? && AllAnswered(items, world(pos).fields)
    ensures Translate(world, pos, items).outcome.Translated?
    ensures Translate(world, pos, items).next == pos + 1 && Translate(world, pos, items).prompts == 1
  {
    TakenWhenAnswered(items, world(pos).fields);
  }

  /** The attempt at `pos` fails with a timeout. */
  predicate TimesOut(world: World, pos: nat, items: seq<BatchItem>) {
    Outcome1(world(pos), items).Failed? && IsPromptTimeoutError(Outcome1(world(pos), items).message)
  }

  /** A batch of several items is split by its first timeout, on either attempt. The left half has one
      item more if they are odd in number; if it fails nothing is sent for the right half. */
  lemma {:induction false} TimeoutSplits(world: World, pos: nat, items: seq<BatchItem>, attempt: nat)
    requires attempt < TRANSLATE_MAX_ATTEMPTS && |items| > 1 && TimesOut(world, pos, items)
    ensures var half := |items| - |items| / 2;
            var left := Translate(world, pos + 1, items[..half]);
            var right := Translate(world, left.next, items[half..]);
            var sent := if world(pos).NoClient? then 0 else 1;
            TranslateFrom(world, pos, items, attempt) ==
              if left.outcome.Failed? then Course(left.outcome, left.next, sent + left.prompts)
              else Course(if right.outcome.Failed? then right.outcome
                          else Translated(left.outcome.values + right.outcome.values),
                          right.next, sent + left.prompts + right.prompts)
  {
    assert TranslateFrom(world, pos, items, attempt) == Then(Sent(world(pos)), Halves(world, pos + 1, items));
  }

  /** So a batch that times out once is translated with three prompts if both halves are answered. */
  lemma {:induction false} SplitOnceIsEnough(world: World, pos: nat, items: seq<BatchItem>)
    requires |items| > 1 && TimesOut(world, pos, items) && !world(pos).NoClient?
    requires var half := |items| - |items| / 2;
             && world(pos + 1).Reply? && AllAnswered(items[..half], world(pos + 1).fields)
             && world(pos + 2).Reply? && AllAnswered(items[half..], world(pos + 2).fields)
    ensures var course := Translate(world, pos, items);
            course.outcome.Translated? && course.prompts == 3 && course.next == pos + 3
  {
    var half := |items| - |items| / 2;
    TimeoutSplits(world, pos, items, 0);
    AnsweredAtOnce(world, pos + 1, items[..half]);
    AnsweredAtOnce(world, pos + 2, items[half..]);
  }

  /** A single item is given up on its first timeout. */
  lemma {:induction false} SingleTimeoutFails(world: World, pos: nat, items: seq<BatchItem>, attempt: nat)
    requires attempt < TRANSLATE_MAX_ATTEMPTS && |items| <= 1 && TimesOut(world, pos, items)
    ensures TranslateFrom(world, pos, items, attempt) ==
              Course(Outcome1(world(pos), items), pos + 1, if world(pos).NoClient? then 0 else 1)
  {
  }

  /** Any other failure of the first attempt is followed by one more attempt, and the outcome is that
      attempt's unless it times out as well and the batch can be split. */
  lemma {:induction false} OtherFailureIsRetriedOnce(world: World, pos: nat, items: seq<BatchItem>)
    requires Outcome1(world(pos), items).Failed? && !TimesOut(world, pos, items)
    ensures var course := Translate(world, pos, items);
            var sent := if world(pos).NoClient? then 0 else 1;
            if TimesOut(world, pos + 1, items) && |items| > 1
            then course == Then(sent, TranslateFrom(world, pos + 1, items, 1))
            else course == Course(Outcome1(world(pos + 1), items), pos + 2,
                                  sent + if world(pos + 1).NoClient? then 0 else 1)
  {
    assert Translate(world, pos, items) == Then(Sent(world(pos)), TranslateFrom(world, pos + 1, items, 1));
  }

  /** "timed out" stands at `i`, in small letters or capitals. */
  predicate SaysTimedOut(message: string, i: nat) {
    && i + 9 <= |message|
    && forall k :: 0 <= k < 9 ==> message[i + k] == "timed out"[k] || message[i + k] == "TIMED OUT"[k]
  }

  lemma {:induction false} ContainsSomewhere(s: string, part: string)
    ensures Contains(s, part) <==> exists i :: 0 <= i <= |s| && part <= s[i..]
  {
    if s == "" {
      assert s[0..] == s;
    } else {
      ContainsSomewhere(s[1..], part);
      if i :| 0 <= i <= |s[1..]| && part <= s[1..][i..] {
        assert s[1..][i..] == s[i + 1..];
      }
      if i :| 0 <= i <= |s| && part <= s[i..] {
        if i > 0 {
          assert s[1..][i - 1..] == s[i..];
        } else {
          assert s[0..] == s;
        }
      }
      assert s[0..] == s;
    }
  }

  lemma {:induction false} TimedOutAt(message: string, lower: string, i: nat)
    requires |lower| == |message| && forall k :: 0 <= k < |message| ==> lower[k] == LowerAscii(message[k])
    requires i <= |message|
    ensures "timed out" <= lower[i..] <==> SaysTimedOut(message, i)
  {
    var part := "timed out";
    if part <= lower[i..] {
      forall k | 0 <= k < 9 ensures message[i + k] == part[k] || message[i + k] == "TIMED OUT"[k] {
        assert LowerAscii(message[i + k]) == lower[i..][k] == part[k];
      }
    }
    if SaysTimedOut(message, i) {
      forall k | 0 <= k < 9 ensures lower[i..][k] == part[k] {
        assert lower[i..][k] == LowerAscii(message[i + k]);
      }
      assert lower[i..][..9] == part;
    }
  }

  /** A failure counts as a timeout if and only if its message says so somewhere. */
  lemma {:induction false} TimeoutsSaySo(message: string)
    ensures IsPromptTimeoutError(message) <==> exists i: nat :: SaysTimedOut(message, i)
  {
    var lower := seq(|message|, i requires 0 <= i < |message| => LowerAscii(message[i]));
    ContainsSomewhere(lower, "timed out");
    if i :| 0 <= i <= |lower| && "timed out" <= lower[i..] {
      TimedOutAt(message, lower, i);
    }
    if i: nat :| SaysTimedOut(message, i) {
      TimedOutAt(message, lower, i);
    }
  }

  // ---------------------------------------------------------------- the bound is reached

  /** The world at its worst: every batch first fails, then times out, until single items are
      left, and those succeed on their second attempt. */
  function WorstScript(items: seq<BatchItem>): seq<Attempt>
    requires items != []
    decreases |items|
  {
    if |items| == 1 then [PromptFailed("no"), Reply(map[items[0].key := Str("x")])]
    else [PromptFailed("no"), PromptFailed("timed out")]
         + (WorstScript(items[..Midpoint(|items|)]) + WorstScript(items[Midpoint(|items|)..]))
  }

  ghost predicate Follows(world: World, pos: nat, script: seq<Attempt>) {
    forall i :: 0 <= i < |script| ==> world(pos + i) == script[i]
  }

  lemma {:induction false} TimeoutWording()
    ensures IsPromptTimeoutError("timed out") && !IsPromptTimeoutError("no")
  {
    var s := "timed out";
    var t := seq(|s|, i requires 0 <= i < |s| => LowerAscii(s[i]));
    assert t == s;
    assert seq(2, i requires 0 <= i < 2 => LowerAscii("no"[i])) == "no";
    assert "no"[1..] == "o" && "o"[1..] == "";
  }

  lemma {:induction false} FollowsConcat(world: World, pos: nat, a: seq<Attempt>, b: seq<Attempt>)
    requires Follows(world, pos, a + b)
    ensures Follows(world, pos, a) && Follows(world, pos + |a|, b)
  {
    forall i | 0 <= i < |a| ensures world(pos + i) == a[i] {
      assert (a + b)[i] == a[i];
    }
    forall i | 0 <= i < |b| ensures world(pos + |a| + i) == b[i] {
      assert world(pos + (|a| + i)) == (a + b)[|a| + i];
    }
  }

  /** A single item that fails once and then succeeds. */
  lemma {:induction false} SecondAttempt(world: World, pos: nat, items: seq<BatchItem>)
    requires |items| == 1 && world(pos) == PromptFailed("no") && world(pos + 1) == Reply(map[items[0].key := Str("x")])
    ensures var course := Translate(world, pos, items);
            course.outcome.Translated? && course.prompts == 2 && course.next == pos + 2
  {
    TimeoutWording();
    var fields := world(pos + 1).fields;
    assert Collect(items[..0], fields) == Translated(map[]);
    assert Answered(items[0], fields) by {
      assert !IsSpace("x"[0]);
    }
    assert Collect(items, fields).Translated?;
    assert Translate(world, pos, items) == Then(1, TranslateFrom(world, pos + 1, items, 1));
  }

  /** A batch that fails, then times out, and is split. */
  lemma {:induction false} FailedThenSplit(world: World, pos: nat, items: seq<BatchItem>)
    requires |items| > 1 && world(pos) == PromptFailed("no") && world(pos + 1) == PromptFailed("timed out")
    ensures var both := Halves(world, pos + 2, items);
            Translate(world, pos, items) == both.(prompts := both.prompts + 2)
  {
    TimeoutWording();
    assert TranslateFrom(world, pos + 1, items, 1) == Then(1, Halves(world, pos + 2, items));
  }

  lemma {:induction false} HalvesSucceed(world: World, pos: nat, items: seq<BatchItem>, middle: nat)
    requires |items| > 1
    requires var left := Translate(world, pos, items[..Midpoint(|items|)]);
             left.outcome.Translated? && left.next == middle
    requires Translate(world, middle, items[Midpoint(|items|)..]).outcome.Translated?
    ensures var left := Translate(world, pos, items[..Midpoint(|items|)]);
            var right := Translate(world, middle, items[Midpoint(|items|)..]);
            var both := Halves(world, pos, items);
            both.outcome.Translated? && both.prompts == left.prompts + right.prompts && both.next == right.next
  {
  }

  /** The batch is translated at the greatest cost there is, in `attempts` attempts. */
  ghost predicate CostsTheMost(world: World, pos: nat, items: seq<BatchItem>, attempts: nat) {
    var course := Translate(world, pos, items);
    course.outcome.Translated? && course.prompts == 4 * |items| - 2 && course.next == pos + attempts
  }

  lemma {:induction false} SplitCostsTheMost(world: World, pos: nat, items: seq<BatchItem>, l: nat, r: nat)
    requires |items| > 1 && world(pos) == PromptFailed("no") && world(pos + 1) == PromptFailed("timed out")
    requires CostsTheMost(world, pos + 2, items[..Midpoint(|items|)], l)
    requires CostsTheMost(world, pos + 2 + l, items[Midpoint(|items|)..], r)
    ensures CostsTheMost(world, pos, items, 2 + l + r)
  {
    HalvesSucceed(world, pos + 2, items, pos + 2 + l);
    FailedThenSplit(world, pos, items);
  }

  lemma {:induction false} ScriptParts(world: World, pos: nat, items: seq<BatchItem>, l: seq<Attempt>, r: seq<Attempt>)
    requires |items| > 1 && Follows(world, pos, WorstScript(items))
    requires l == WorstScript(items[..Midpoint(|items|)]) && r == WorstScript(items[Midpoint(|items|)..])
    ensures world(pos) == PromptFailed("no") && world(pos + 1) == PromptFailed("timed out")
    ensures Follows(world, pos + 2, l) && Follows(world, pos + 2 + |l|, r)
    ensures |WorstScript(items)| == 2 + |l| + |r|
  {
    var first := [PromptFailed("no"), PromptFailed("timed out")];
    FollowsConcat(world, pos, first, l + r);
    FollowsConcat(world, pos + 2, l, r);
    assert world(pos + 0) == first[0] && world(pos + 1) == first[1];
  }

  /** There is a world in which a batch really costs 4n - 2 prompts, and succeeds. */
  lemma {:induction false} WorstCase(world: World, pos: nat, items: seq<BatchItem>)
    requires items != [] && Follows(world, pos, WorstScript(items))
    ensures CostsTheMost(world, pos, items, |WorstScript(items)|)
    decreases |items|
  {
    if |items| == 1 {
      var script := WorstScript(items);
      assert world(pos + 0) == script[0] && world(pos + 1) == script[1];
      SecondAttempt(world, pos, items);
    } else {
      var left, right := items[..Midpoint(|items|)], items[Midpoint(|items|)..];
      var l, r := WorstScript(left), WorstScript(right);
      ScriptParts(world, pos, items, l, r);
      WorstCase(world, pos + 2, left);
      WorstCase(world, pos + 2 + |l|, right);
      SplitCostsTheMost(world, pos, items, |l|, |r|);
    }
  }
}
