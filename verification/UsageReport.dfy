/** The sums of scripts/cron_usage_report.ts: runs and tokens by job and, within a job, by model. */
module UsageReport {
  import opened Options
  import opened JsStrings

  /** A number field of a parsed log line. */
  datatype Count = Absent | Null | Given(value: real)

  datatype Usage = Usage(inputTokens: Count, outputTokens: Count, totalTokens: Count)

  /** A log line that passes `safeParseLine`. */
  datatype Entry = Entry(ts: real, jobId: string, model: Option<string>, usage: Option<Usage>)

  /** What is asked for: a period, and a job or a model unless these are empty. */
  datatype Query = Query(fromMs: real, toMs: real, jobId: string, model: string)

  datatype Tally = Tally(runs: nat, missingUsageRuns: nat, inputTokens: nat, outputTokens: nat, totalTokens: nat)

  datatype JobTotals = JobTotals(all: Tally, models: map<string, Tally>)

  type Report = map<string, JobTotals>

  const ZERO := Tally(0, 0, 0, 0, 0)

  function Plus(a: Tally, b: Tally): Tally {
    Tally(a.runs + b.runs, a.missingUsageRuns + b.missingUsageRuns, a.inputTokens + b.inputTokens,
          a.outputTokens + b.outputTokens, a.totalTokens + b.totalTokens)
  }

  function ModelOf(e: Entry): string {
    var model := Trim(if e.model.Some? then e.model.value else "<unknown>");
    if model == "" then "<unknown>" else model
  }

  predicate IsAskedFor(q: Query, e: Entry) {
    && q.fromMs <= e.ts <= q.toMs
    && (q.jobId == "" || e.jobId == q.jobId)
    && (q.model == "" || ModelOf(e) == q.model)
  }

  /** `(a ?? b ?? c) !== undefined` */
  predicate HasUsage(e: Entry) {
    e.usage.Some? &&
    var u := e.usage.value;
    u.totalTokens.Given? || u.inputTokens.Given? || !u.outputTokens.Absent?
  }

  /** `Math.max(0, Math.trunc(count ?? otherwise))` */
  function Whole(count: Count, otherwise: nat): nat {
    if count.Given? then if count.value < 0.0 then 0 else count.value.Floor else otherwise
  }

  /** What one run adds to the sums. */
  function TallyOf(e: Entry): Tally {
    if !HasUsage(e) then Tally(1, 1, 0, 0, 0)
    else
      var u := e.usage.value;
      var input, output := Whole(u.inputTokens, 0), Whole(u.outputTokens, 0);
      Tally(1, 0, input, output, Whole(u.totalTokens, input + output))
  }

  /** What is counted of a log line. */
  datatype Run = Run(jobId: string, model: string, tally: Tally)

  function RunOf(e: Entry): Run {
    Run(e.jobId, ModelOf(e), TallyOf(e))
  }

  // ---------------------------------------------------------------- the sums

  function TallyAt(m: map<string, Tally>, key: string): Tally {
    if key in m then m[key] else ZERO
  }

  function JobAt(r: Report, jobId: string): JobTotals {
    if jobId in r then r[jobId] else JobTotals(ZERO, map[])
  }

  function AddTo(m: map<string, Tally>, key: string, t: Tally): map<string, Tally> {
    m[key := Plus(TallyAt(m, key), t)]
  }

  /** One more run. */
  function Enter(r: Report, run: Run): Report {
    var job := JobAt(r, run.jobId);
    r[run.jobId := JobTotals(Plus(job.all, run.tally), AddTo(job.models, run.model, run.tally))]
  }

  function ReportOf(runs: seq<Run>): Report {
    if runs == [] then map[] else Enter(ReportOf(runs[..|runs| - 1]), runs[|runs| - 1])
  }

  /** The runs of a log that are asked for; None stands for a line that does not parse. */
  function Accepted(q: Query, lines: seq<Option<Entry>>): seq<Run> {
    if lines == [] then []
    else
      var last := lines[|lines| - 1];
      Accepted(q, lines[..|lines| - 1]) + if last.Some? && IsAskedFor(q, last.value) then [RunOf(last.value)] else []
  }

  function AllLines(files: seq<seq<Option<Entry>>>): seq<Option<Entry>> {
    if files == [] then [] else AllLines(files[..|files| - 1]) + files[|files| - 1]
  }

  /** A line counts if and only if it parses, lies in the period, both ends included, and is of the job and
      the model asked for, where one is asked for; a run without a model is of "<unknown>". */
  lemma {:induction false} CountedExactlyWhen(q: Query, line: Option<Entry>)
    ensures Accepted(q, [line]) == (if line.Some? && IsAskedFor(q, line.value) then [RunOf(line.value)] else [])
    ensures line.Some? ==>
              var e := line.value;
              var named := e.model.Some? && !IsBlank(e.model.value);
              IsAskedFor(q, e) <==>
                && q.fromMs <= e.ts && e.ts <= q.toMs && q.jobId in ["", e.jobId]
                && q.model in ["", if named then Trim(e.model.value) else "<unknown>"]
  {
    assert [line][..0] == [];
    if line.Some? && line.value.model.Some? {
      TrimShape(line.value.model.value);
    }
    UnknownIsTrimmed();
  }

  lemma {:induction false} UnknownIsTrimmed()
    ensures Trim("<unknown>") == "<unknown>"
  {
    TrimShape("<unknown>");
  }

  /** Two periods that meet count what the whole period counts, but for the lines on the border, which
      count twice. */
  lemma {:induction false} PeriodsAddUp(q: Query, mid: real, lines: seq<Option<Entry>>)
    requires q.fromMs <= mid <= q.toMs
    ensures SumOfRuns(Accepted(q.(toMs := mid), lines)).runs + SumOfRuns(Accepted(q.(fromMs := mid), lines)).runs ==
              SumOfRuns(Accepted(q, lines)).runs + SumOfRuns(Accepted(q.(fromMs := mid, toMs := mid), lines)).runs
  {
    EveryLineCounts(q.(toMs := mid), lines);
    EveryLineCounts(q.(fromMs := mid), lines);
    EveryLineCounts(q, lines);
    EveryLineCounts(q.(fromMs := mid, toMs := mid), lines);
    PeriodsCount(q, mid, lines);
  }

  lemma {:induction false} PeriodsCount(q: Query, mid: real, lines: seq<Option<Entry>>)
    requires q.fromMs <= mid <= q.toMs
    ensures |Accepted(q.(toMs := mid), lines)| + |Accepted(q.(fromMs := mid), lines)| ==
              |Accepted(q, lines)| + |Accepted(q.(fromMs := mid, toMs := mid), lines)|
  {
    if lines != [] {
      PeriodsCount(q, mid, lines[..|lines| - 1]);
    }
  }

  /** The whole number `n` nearest to `value` in the direction of zero. */
  predicate IsTruncated(value: real, n: nat) {
    if value < 0.0 then n == 0 else n as real <= value < n as real + 1.0
  }

  /** What one run comes to: it lacks usage if it has neither total nor input and no output is given, not
      even as null; otherwise its numbers count, cut to whole ones and at zero, with none for what is not
      given, and for the total the sum of both. */
  lemma {:induction false} RunComesTo(e: Entry)
    ensures var t := TallyOf(e);
            && t.runs == 1
            && (t.missingUsageRuns == 1 <==>
                  e.usage.None? ||
                  (var u := e.usage.value;
                   u.totalTokens in {Absent, Null} && u.inputTokens in {Absent, Null} && u.outputTokens == Absent))
            && (if t.missingUsageRuns == 1 then t == Tally(1, 1, 0, 0, 0)
                else
                  var u := e.usage.value;
                  && t.missingUsageRuns == 0
                  && Counts(u.inputTokens, t.inputTokens, 0) && Counts(u.outputTokens, t.outputTokens, 0)
                  && Counts(u.totalTokens, t.totalTokens, t.inputTokens + t.outputTokens))
  {
  }

  predicate Counts(count: Count, n: nat, otherwise: nat) {
    if count.Given? then IsTruncated(count.value, n) else n == otherwise
  }

  /** What a job and a model have after one run more: the run, and nobody else's changes. */
  lemma {:induction false} RunIsEntered(runs: seq<Run>, run: Run, jobId: string, model: string)
    ensures var before, after := JobAt(ReportOf(runs), jobId), JobAt(ReportOf(runs + [run]), jobId);
            if jobId != run.jobId then after == before
            else
              && after.all == Plus(before.all, run.tally)
              && TallyAt(after.models, model) ==
                   if model == run.model then Plus(TallyAt(before.models, model), run.tally)
                   else TallyAt(before.models, model)
  {
    OneRunMore(runs, run);
  }

  lemma {:induction false} AcceptedConcat(q: Query, a: seq<Option<Entry>>, b: seq<Option<Entry>>)
    ensures Accepted(q, a + b) == Accepted(q, a) + Accepted(q, b)
  {
    if b == [] {
      assert a + b == a;
    } else {
      var n := |b| - 1;
      assert (a + b)[..|a + b| - 1] == a + b[..n];
      AcceptedConcat(q, a, b[..n]);
    }
  }

  /** The loop over the lines of one file, entered with what the files before came to. */
  method AddFile(q: Query, lines: seq<Option<Entry>>, totals0: Report, ghost before: seq<Run>)
    returns (totalsByJob: Report)
    requires totals0 == ReportOf(before)
    ensures totalsByJob == ReportOf(before + Accepted(q, lines))
  {
    totalsByJob := totals0;
    assert before + Accepted(q, lines[..0]) == before;
    for index := 0 to |lines|
      invariant totalsByJob == ReportOf(before + Accepted(q, lines[..index]))
    {
      OneLineMore(q, lines, index, before);
      var line := lines[index];
      if line.None? {
        continue;
      }
      var entry := line.value;
      if entry.ts < q.fromMs || entry.ts > q.toMs {
        continue;
      }
      if q.jobId != "" && entry.jobId != q.jobId {
        continue;
      }
      var model := ModelOf(entry);
      if q.model != "" && model != q.model {
        continue;
      }
      totalsByJob := AddRun(totalsByJob, entry, model);
    }
    assert lines[..|lines|] == lines;
  }

  lemma {:induction false} OneLineMore(q: Query, lines: seq<Option<Entry>>, n: nat, before: seq<Run>)
    requires n < |lines|
    ensures var so, next := before + Accepted(q, lines[..n]), before + Accepted(q, lines[..n + 1]);
            ReportOf(next) == if lines[n].Some? && IsAskedFor(q, lines[n].value)
                              then Enter(ReportOf(so), RunOf(lines[n].value)) else ReportOf(so)
  {
    var so, next := before + Accepted(q, lines[..n]), before + Accepted(q, lines[..n + 1]);
    assert lines[..n + 1][..n] == lines[..n];
    if lines[n].Some? && IsAskedFor(q, lines[n].value) {
      assert next == so + [RunOf(lines[n].value)];
      OneRunMore(so, RunOf(lines[n].value));
    } else {
      assert next == so;
    }
  }

  lemma {:induction false} OneRunMore(runs: seq<Run>, run: Run)
    ensures ReportOf(runs + [run]) == Enter(ReportOf(runs), run)
  {
    assert (runs + [run])[..|runs|] == runs;
  }

  /** The counting of one run, in the totals of its job and of its model. */
  method AddRun(totals0: Report, entry: Entry, model: string) returns (totalsByJob: Report)
    requires model == ModelOf(entry)
    ensures totalsByJob == Enter(totals0, RunOf(entry))
  {
    var job := JobAt(totals0, entry.jobId);
    var all := CountRun(job.all, entry);
    var tally := CountRun(TallyAt(job.models, model), entry);
    EnterIs(totals0, RunOf(entry), all, tally);
    return totals0[entry.jobId := JobTotals(all, job.models[model := tally])];
  }

  lemma {:induction false} EnterIs(r: Report, run: Run, all: Tally, tally: Tally)
    requires all == Plus(JobAt(r, run.jobId).all, run.tally)
    requires tally == Plus(TallyAt(JobAt(r, run.jobId).models, run.model), run.tally)
    ensures Enter(r, run) == r[run.jobId := JobTotals(all, JobAt(r, run.jobId).models[run.model := tally])]
  {
  }

  method CountRun(t: Tally, entry: Entry) returns (next: Tally)
    ensures next == Plus(t, TallyOf(entry))
  {
    CountedOnce(t, entry);
    next := Started(t);
    if !HasUsage(entry) {
      return next.(missingUsageRuns := next.missingUsageRuns + 1);
    }
    var usage := entry.usage.value;
    var input, output := Whole(usage.inputTokens, 0), Whole(usage.outputTokens, 0);
    next := WithTokens(next, input, output, Whole(usage.totalTokens, input + output));
  }

  lemma {:induction false} CountedOnce(t: Tally, e: Entry)
    ensures !HasUsage(e) ==> Plus(t, TallyOf(e)) == Started(t).(missingUsageRuns := t.missingUsageRuns + 1)
    ensures HasUsage(e) ==>
              var u := e.usage.value;
              var input, output := Whole(u.inputTokens, 0), Whole(u.outputTokens, 0);
              Plus(t, TallyOf(e)) == WithTokens(Started(t), input, output, Whole(u.totalTokens, input + output))
  {
  }

  function Started(t: Tally): Tally {
    t.(runs := t.runs + 1)
  }

  function WithTokens(t: Tally, input: nat, output: nat, total: nat): Tally {
    t.(inputTokens := t.inputTokens + input, outputTokens := t.outputTokens + output,
       totalTokens := t.totalTokens + total)
  }

  /** The aggregation loop of `main`. */
  method Aggregate(q: Query, files: seq<seq<Option<Entry>>>) returns (totalsByJob: Report)
    ensures totalsByJob == ReportOf(Accepted(q, AllLines(files)))
  {
    totalsByJob := map[];
    for index := 0 to |files|
      invariant totalsByJob == ReportOf(Accepted(q, AllLines(files[..index])))
    {
      assert files[..index + 1][..index] == files[..index];
      AcceptedConcat(q, AllLines(files[..index]), files[index]);
      totalsByJob := AddFile(q, files[index], totalsByJob, Accepted(q, AllLines(files[..index])));
    }
    assert files[..|files|] == files;
  }

  // ---------------------------------------------------------------- conservation

  ghost function Sum(m: map<string, Tally>): Tally {
    if m == map[] then ZERO else var key :| key in m; Plus(Sum(m - {key}), m[key])
  }

  /** The sum does not depend on which key is taken first. */
  lemma {:induction false} SumTakes(m: map<string, Tally>, key: string)
    requires key in m
    ensures Sum(m) == Plus(Sum(m - {key}), m[key])
    decreases |m|
  {
    var first :| first in m && Sum(m) == Plus(Sum(m - {first}), m[first]);
    if first != key {
      SumTakes(m - {first}, key);
      SumTakes(m - {key}, first);
      assert m - {first} - {key} == m - {key} - {first};
      PlusCommutes(Sum(m - {first} - {key}), m[first], m[key]);
    }
  }

  lemma {:induction false} SumAdds(m: map<string, Tally>, key: string, t: Tally)
    ensures Sum(AddTo(m, key, t)) == Plus(Sum(m), t)
  {
    var next := AddTo(m, key, t);
    SumTakes(next, key);
    if key in m {
      SumTakes(m, key);
      assert next - {key} == m - {key};
    } else {
      assert next - {key} == m;
    }
  }

  function JobTallies(r: Report): map<string, Tally> {
    map job | job in r :: r[job].all
  }

  function SumOfRuns(runs: seq<Run>): Tally {
    if runs == [] then ZERO else Plus(SumOfRuns(runs[..|runs| - 1]), runs[|runs| - 1].tally)
  }

  /** Each job's totals are the sums over its models. */
  ghost predicate JobsAddUp(r: Report) {
    forall job :: job in r ==> r[job].all == Sum(r[job].models)
  }

  lemma {:induction false} AddedUp(r: Report, run: Run)
    requires JobsAddUp(r)
    ensures JobsAddUp(Enter(r, run))
    ensures Sum(JobTallies(Enter(r, run))) == Plus(Sum(JobTallies(r)), run.tally)
  {
    SumAdds(JobAt(r, run.jobId).models, run.model, run.tally);
    assert JobTallies(Enter(r, run)) == AddTo(JobTallies(r), run.jobId, run.tally);
    SumAdds(JobTallies(r), run.jobId, run.tally);
  }

  /** Nothing is lost and nothing counted twice: each job's totals are the sums over its models, and
      the jobs together have what the runs together have. */
  lemma {:induction false} TotalsAreConserved(runs: seq<Run>)
    ensures JobsAddUp(ReportOf(runs))
    ensures Sum(JobTallies(ReportOf(runs))) == SumOfRuns(runs)
  {
    if runs != [] {
      TotalsAreConserved(runs[..|runs| - 1]);
      AddedUp(ReportOf(runs[..|runs| - 1]), runs[|runs| - 1]);
    }
  }

  /** Every accepted line is counted as one run. */
  lemma {:induction false} EveryLineCounts(q: Query, lines: seq<Option<Entry>>)
    ensures SumOfRuns(Accepted(q, lines)).runs == |Accepted(q, lines)|
  {
    if lines != [] {
      var rest := Accepted(q, lines[..|lines| - 1]);
      EveryLineCounts(q, lines[..|lines| - 1]);
      if rest != Accepted(q, lines) {
        assert Accepted(q, lines)[..|rest|] == rest;
      }
    }
  }

  // ---------------------------------------------------------------- order

  lemma {:induction false} PlusCommutes(a: Tally, s: Tally, t: Tally)
    ensures Plus(Plus(a, s), t) == Plus(Plus(a, t), s)
  {
  }

  lemma {:induction false} AddsCommute(m: map<string, Tally>, k: string, s: Tally, l: string, t: Tally)
    ensures AddTo(AddTo(m, k, s), l, t) == AddTo(AddTo(m, l, t), k, s)
  {
    PlusCommutes(TallyAt(m, k), s, t);
  }

  lemma {:induction false} EntersCommute(r: Report, a: Run, b: Run)
    ensures Enter(Enter(r, a), b) == Enter(Enter(r, b), a)
  {
    if a.jobId == b.jobId {
      var models := JobAt(r, a.jobId).models;
      AddsCommute(models, a.model, a.tally, b.model, b.tally);
      PlusCommutes(JobAt(r, a.jobId).all, a.tally, b.tally);
      assert JobAt(Enter(r, a), a.jobId).models == AddTo(models, a.model, a.tally);
      assert JobAt(Enter(r, b), a.jobId).models == AddTo(models, b.model, b.tally);
    }
  }

  function Without<T>(s: seq<T>, i: nat): seq<T>
    requires i < |s|
  {
    s[..i] + s[i + 1..]
  }

  lemma {:induction false} TakeOut<T>(s: seq<T>, x: T) returns (i: nat)
    requires x in multiset(s)
    ensures i < |s| && s[i] == x && s == s[..i] + [x] + s[i + 1..]
    ensures multiset(Without(s, i)) == multiset(s) - multiset{x}
  {
    i :| i < |s| && s[i] == x;
    assert s == s[..i] + [x] + s[i + 1..];
  }

  /** A run may as well be counted last. */
  lemma {:induction false} CountedLast(runs: seq<Run>, i: nat)
    requires i < |runs|
    ensures ReportOf(runs) == Enter(ReportOf(Without(runs, i)), runs[i])
  {
    var n := |runs| - 1;
    if i == n {
      assert Without(runs, i) == runs[..n];
    } else {
      CountedLast(runs[..n], i);
      var less := Without(runs[..n], i);
      assert Without(runs, i) == less + [runs[n]];
      OneRunMore(less, runs[n]);
      EntersCommute(ReportOf(less), runs[i], runs[n]);
    }
  }

  lemma {:induction false} RunOrderPlaysNoPart(a: seq<Run>, b: seq<Run>)
    requires multiset(a) == multiset(b)
    ensures ReportOf(a) == ReportOf(b)
    decreases |a|
  {
    assert |a| == |multiset(a)| == |multiset(b)| == |b|;
    if a != [] {
      var n := |a| - 1;
      assert a == a[..n] + [a[n]];
      assert a[n] in multiset(a);
      var i := TakeOut(b, a[n]);
      RunOrderPlaysNoPart(a[..n], Without(b, i));
      CountedLast(b, i);
    }
  }

  lemma {:induction false} AcceptedPermuted(q: Query, a: seq<Option<Entry>>, b: seq<Option<Entry>>)
    requires multiset(a) == multiset(b)
    ensures multiset(Accepted(q, a)) == multiset(Accepted(q, b))
    decreases |a|
  {
    assert |a| == |multiset(a)| == |multiset(b)| == |b|;
    if a != [] {
      var n := |a| - 1;
      assert a == a[..n] + [a[n]];
      assert a[n] in multiset(a);
      var i := TakeOut(b, a[n]);
      AcceptedPermuted(q, a[..n], Without(b, i));
      AcceptedConcat(q, a[..n], [a[n]]);
      AcceptedConcat(q, b[..i], b[i + 1..]);
      AcceptedConcat(q, b[..i] + [a[n]], b[i + 1..]);
      AcceptedConcat(q, b[..i], [a[n]]);
    }
  }

  /** The report does not depend on the order of files or of lines. */
  lemma {:induction false} OrderPlaysNoPart(q: Query, files: seq<seq<Option<Entry>>>, others: seq<seq<Option<Entry>>>)
    requires multiset(AllLines(files)) == multiset(AllLines(others))
    ensures ReportOf(Accepted(q, AllLines(files))) == ReportOf(Accepted(q, AllLines(others)))
  {
    AcceptedPermuted(q, AllLines(files), AllLines(others));
    RunOrderPlaysNoPart(Accepted(q, AllLines(files)), Accepted(q, AllLines(others)));
  }
}
