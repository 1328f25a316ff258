/** One scrape of the port counters: what each goroutine does, and what the whole fan-out leaves. */
module PerfCollect {
  import opened Wrappers
  import opened Text
  import opened Retry
  import opened Perfquery
  import opened FanOut
  import opened FanOutProofs

  /** A perfquery call with its retries: how it ended, the retries and the time it took. */
  datatype Query = Query(result: Attempt, retries: nat, duration: real)

  /**
   * One device, the outcome of its queries (the `-x` query of all its ports, the `-E` query of each port), and
   * the order in which ranging over the parsed records happens to list them.
   */
  datatype Job = Job(device: Device, base: Query, rcvErr: string -> Query, listing: string -> seq<Record>)

  ghost predicate ValidJob(j: Job) {
    forall out :: Enumerates(j.listing(out), Parse(j.device, out).records)
  }

  datatype Metrics = Metrics(duration: real, timeout: bool, error: bool,
                             rcvErrDuration: real, rcvErrTimeout: bool, rcvErrError: bool)

  datatype Flags = Flags(base: bool, rcvErr: bool)

  type JobProgram = Program<Record, Metrics>

  /** The `-E` query of one parsed record's port. */
  function RcvErrProgram(j: Job, port: string): JobProgram {
    var q := j.rcvErr(port);
    [Add(0, 0, q.retries)]
    + (match q.result
       case Deadline(_) => [Add(0, 1, 0)]
       case Failure(_) => [Add(1, 0, 0)]
       case Success(out) => [Add(Parse(j.device, out).errors, 0, 0), Append(j.listing(out))])
  }

  function RcvErrPrograms(j: Job, rows: seq<Record>): JobProgram {
    if rows == [] then [] else RcvErrPrograms(j, rows[..|rows| - 1]) + RcvErrProgram(j, rows[|rows| - 1].portSelect)
  }

  /** One more `-E` query of a device: its duration replaces that of the one before, the flags are set for good. */
  function AfterQuery(m: Metrics, q: Query): Metrics {
    var timed := m.(rcvErrDuration := q.duration);
    match q.result
    case Deadline(_) => timed.(rcvErrTimeout := true)
    case Failure(_) => timed.(rcvErrError := true)
    case Success(_) => timed
  }

  function AfterQueries(j: Job, m: Metrics, rows: seq<Record>): Metrics {
    if rows == [] then m
    else AfterQuery(AfterQueries(j, m, rows[..|rows| - 1]), j.rcvErr(rows[|rows| - 1].portSelect))
  }

  /** The entry of a device whose base query succeeded. */
  function MetricsOf(j: Job, flags: Flags, rows: seq<Record>): Metrics {
    var m := Metrics(j.base.duration, false, false, 0.0, false, false);
    if flags.rcvErr then AfterQueries(j, m, rows) else m
  }

  /** The goroutine body of the switch and HCA collectors, as its effects on the shared state. */
  function JobOf(j: Job, flags: Flags): JobProgram {
    [Add(0, 0, j.base.retries)]
    + (match j.base.result
       case Deadline(_) => [Add(0, 1, 0)]
       case Failure(_) => [Add(1, 0, 0)]
       case Success(out) =>
         [Add(Parse(j.device, out).errors, 0, 0)]
         + (if flags.base then [Append(j.listing(out))] else [])
         + (if flags.rcvErr then RcvErrPrograms(j, j.listing(out)) else [])
         + [Put(j.device.guid, MetricsOf(j, flags, j.listing(out)))])
  }

  function Programs(jobs: seq<Job>, flags: Flags): seq<JobProgram> {
    seq(|jobs|, i requires 0 <= i < |jobs| => JobOf(jobs[i], flags))
  }

  function Guids(jobs: seq<Job>): seq<string> {
    seq(|jobs|, i requires 0 <= i < |jobs| => jobs[i].device.guid)
  }

  ghost predicate ValidJobs(jobs: seq<Job>) {
    && (forall i | 0 <= i < |jobs| :: ValidJob(jobs[i]))
    && (forall i, j | 0 <= i < j < |jobs| :: jobs[i].device.guid != jobs[j].device.guid)
  }

  // ---------------------------------------------------------------- what one job amounts to

  /** The account of one `-E` query, read off its outcome. */
  function RcvErrAccount(j: Job, port: string): Tally<Record> {
    var q := j.rcvErr(port);
    match q.result
    case Deadline(_) => Tally(multiset{}, 0, 1, q.retries)
    case Failure(_) => Tally(multiset{}, 1, 0, q.retries)
    case Success(out) => Tally(multiset(Parse(j.device, out).records.Values), ParseErrors(out), 0, q.retries)
  }

  function RcvErrAccounts(j: Job, rows: seq<Record>): Tally<Record> {
    if rows == [] then Nothing()
    else Plus(RcvErrAccounts(j, rows[..|rows| - 1]), RcvErrAccount(j, rows[|rows| - 1].portSelect))
  }

  /**
   * The account of one device: a base query that timed out counts one timeout, one that failed counts one error;
   * one that succeeded counts its lines that give a counter no number, and the accounts of the `-E` queries.
   */
  function JobAccount(j: Job, flags: Flags): Tally<Record> {
    match j.base.result
    case Deadline(_) => Tally(multiset{}, 0, 1, j.base.retries)
    case Failure(_) => Tally(multiset{}, 1, 0, j.base.retries)
    case Success(out) =>
      var rows := if flags.base then multiset(Parse(j.device, out).records.Values) else multiset{};
      Plus(Tally(rows, ParseErrors(out), 0, j.base.retries),
        if flags.rcvErr then RcvErrAccounts(j, j.listing(out)) else Nothing())
  }

  lemma RcvErrTally(j: Job, port: string)
    requires ValidJob(j)
    ensures ProgramTally(RcvErrProgram(j, port)) == RcvErrAccount(j, port)
  {
    hide ProgramTally, Parse, ParseErrors;
    var q := j.rcvErr(port);
    TallyOne<Record, Metrics>(Add(0, 0, q.retries));
    match q.result
    case Deadline(_) =>
      TallyOne<Record, Metrics>(Add(0, 1, 0));
      TallyAppend<Record, Metrics>([Add(0, 0, q.retries)], [Add(0, 1, 0)]);
    case Failure(_) =>
      TallyOne<Record, Metrics>(Add(1, 0, 0));
      TallyAppend<Record, Metrics>([Add(0, 0, q.retries)], [Add(1, 0, 0)]);
    case Success(out) =>
      var a: Effect<Record, Metrics>, b: Effect<Record, Metrics> :=
        Add(Parse(j.device, out).errors, 0, 0), Append(j.listing(out));
      TallyOne<Record, Metrics>(a);
      TallyOne<Record, Metrics>(b);
      assert [a, b] == [a] + [b];
      TallyAppend<Record, Metrics>([a], [b]);
      TallyAppend<Record, Metrics>([Add(0, 0, q.retries)], [a, b]);
      ErrorsOfText(j.device, out);
      assert Enumerates(j.listing(out), Parse(j.device, out).records);
  }

  lemma {:induction false} RcvErrTallies(j: Job, rows: seq<Record>)
    requires ValidJob(j)
    ensures ProgramTally(RcvErrPrograms(j, rows)) == RcvErrAccounts(j, rows)
  {
    hide ProgramTally, RcvErrProgram, RcvErrAccount, ValidJob, Plus, Nothing;
    if rows == [] {
      TallyNone<Record, Metrics>();
    } else {
      var n := |rows| - 1;
      RcvErrTallies(j, rows[..n]);
      RcvErrTally(j, rows[n].portSelect);
      TallyAppend(RcvErrPrograms(j, rows[..n]), RcvErrProgram(j, rows[n].portSelect));
    }
  }

  /** What a program does to the totals and rows is its device's account. */
  lemma JobTally(j: Job, flags: Flags)
    requires ValidJob(j)
    ensures ProgramTally(JobOf(j, flags)) == JobAccount(j, flags)
  {
    hide ProgramTally, Parse, RcvErrPrograms, RcvErrAccounts, MetricsOf;
    var first: Effect<Record, Metrics> := Add(0, 0, j.base.retries);
    TallyOne<Record, Metrics>(first);
    match j.base.result
    case Deadline(_) =>
      TallyOne<Record, Metrics>(Add(0, 1, 0));
      TallyAppend<Record, Metrics>([first], [Add(0, 1, 0)]);
    case Failure(_) =>
      TallyOne<Record, Metrics>(Add(1, 0, 0));
      TallyAppend<Record, Metrics>([first], [Add(1, 0, 0)]);
    case Success(out) =>
      SuccessTally(j, flags, out);
  }

  /** The program of a device whose base query succeeded, effect by effect. */
  lemma SuccessTally(j: Job, flags: Flags, out: string)
    requires ValidJob(j) && j.base.result == Success(out)
    ensures ProgramTally(JobOf(j, flags)) == JobAccount(j, flags)
  {
    hide ProgramTally, Parse, OwnRows, InnerPrograms, RcvErrAccounts, MetricsOf, Plus, Nothing, EffectTally, JobOf,
      JobAccount, ValidJob;
    var parsed := Parse(j.device, out);
    var a: JobProgram := [Add(0, 0, j.base.retries)];
    var b: JobProgram := [Add(parsed.errors, 0, 0)];
    var c := OwnRows(j, flags, out);
    var d := InnerPrograms(j, flags, out);
    var e: JobProgram := [Put(j.device.guid, MetricsOf(j, flags, j.listing(out)))];
    ProgramOfSuccess(j, flags, out);
    TallyAppend(a, b + c + d + e);
    TallyAppend(b + c + d, e);
    TallyAppend(b + c, d);
    TallyAppend(b, c);
    AddTally(0, 0, j.base.retries);
    AddTally(parsed.errors, 0, 0);
    OwnRowsTally(j, flags, out);
    InnerTally(j, flags, out);
    PutTally(j.device.guid, MetricsOf(j, flags, j.listing(out)));
    OwnTally(j.base.retries, parsed.errors, if flags.base then multiset(parsed.records.Values) else multiset{});
    AccountOfSuccess(j, flags, out);
    SumUp(ProgramTally(a), ProgramTally(b), ProgramTally(c), ProgramTally(d));
  }

  /** The rows a program appends for its own base query. */
  function OwnRows(j: Job, flags: Flags, out: string): JobProgram {
    if flags.base then [Append(j.listing(out))] else []
  }

  function InnerPrograms(j: Job, flags: Flags, out: string): JobProgram {
    if flags.rcvErr then RcvErrPrograms(j, j.listing(out)) else []
  }

  lemma OwnRowsTally(j: Job, flags: Flags, out: string)
    requires ValidJob(j)
    ensures ProgramTally(OwnRows(j, flags, out)) ==
      Tally(if flags.base then multiset(Parse(j.device, out).records.Values) else multiset{}, 0, 0, 0)
  {
    hide ProgramTally, Parse, ValidJob;
    if flags.base {
      AppendTally(j, out);
    } else {
      TallyNone<Record, Metrics>();
    }
  }

  lemma InnerTally(j: Job, flags: Flags, out: string)
    requires ValidJob(j)
    ensures ProgramTally(InnerPrograms(j, flags, out)) ==
      if flags.rcvErr then RcvErrAccounts(j, j.listing(out)) else Nothing()
  {
    hide ProgramTally, Parse, ValidJob, RcvErrPrograms, RcvErrAccounts;
    if flags.rcvErr {
      RcvErrTallies(j, j.listing(out));
    } else {
      TallyNone<Record, Metrics>();
    }
  }

  lemma ProgramOfSuccess(j: Job, flags: Flags, out: string)
    requires j.base.result == Success(out)
    ensures JobOf(j, flags) == [Add(0, 0, j.base.retries)] + ([Add(Parse(j.device, out).errors, 0, 0)]
      + OwnRows(j, flags, out) + InnerPrograms(j, flags, out)
        + [Put(j.device.guid, MetricsOf(j, flags, j.listing(out)))])
  {
    hide Parse, RcvErrPrograms, MetricsOf;
  }

  lemma AccountOfSuccess(j: Job, flags: Flags, out: string)
    requires j.base.result == Success(out)
    ensures
      var parsed := Parse(j.device, out);
      JobAccount(j, flags) == Plus(
        Tally(if flags.base then multiset(parsed.records.Values) else multiset{}, parsed.errors, 0, j.base.retries),
        if flags.rcvErr then RcvErrAccounts(j, j.listing(out)) else Nothing())
  {
    hide ProgramTally, Parse, ParseErrors, RcvErrAccounts, Plus, Nothing;
    ErrorsOfText(j.device, out);
  }

  lemma AddTally(errors: nat, timeouts: nat, retries: nat)
    ensures ProgramTally<Record, Metrics>([Add(errors, timeouts, retries)])
      == Tally(multiset{}, errors, timeouts, retries)
  {
    hide ProgramTally;
    TallyOne<Record, Metrics>(Add(errors, timeouts, retries));
  }

  lemma PutTally(guid: string, m: Metrics)
    ensures ProgramTally<Record, Metrics>([Put(guid, m)]) == Nothing()
  {
    hide ProgramTally, Nothing;
    TallyOne<Record, Metrics>(Put(guid, m));
  }

  lemma AppendTally(j: Job, out: string)
    requires ValidJob(j)
    ensures ProgramTally<Record, Metrics>([Append(j.listing(out))])
      == Tally(multiset(Parse(j.device, out).records.Values), 0, 0, 0)
  {
    hide ProgramTally, Nothing, Parse;
    TallyOne<Record, Metrics>(Append(j.listing(out)));
    assert Enumerates(j.listing(out), Parse(j.device, out).records);
  }

  lemma OwnTally(retries: nat, errors: nat, rows: multiset<Record>)
    ensures Plus(Tally(multiset{}, 0, 0, retries), Plus(Tally(multiset{}, errors, 0, 0), Tally(rows, 0, 0, 0)))
      == Tally(rows, errors, 0, retries)
  {
  }

  lemma SumUp(a: Tally<Record>, b: Tally<Record>, c: Tally<Record>, d: Tally<Record>)
    ensures Plus(a, Plus(Plus(Plus(b, c), d), Nothing())) == Plus(Plus(a, Plus(b, c)), d)
  {
    hide Plus, Nothing;
    PlusNothing(Plus(Plus(b, c), d));
    PlusAssociates(a, Plus(b, c), d);
  }

  // ---------------------------------------------------------------- the whole scrape

  function Accounts(jobs: seq<Job>, flags: Flags): seq<Tally<Record>> {
    seq(|jobs|, i requires 0 <= i < |jobs| => JobAccount(jobs[i], flags))
  }

  lemma {:induction false} RcvErrProgramsPutNothing(j: Job, rows: seq<Record>, k: nat)
    requires k < |RcvErrPrograms(j, rows)|
    ensures !RcvErrPrograms(j, rows)[k].Put?
  {
    hide Parse;
    var n := |rows| - 1;
    if k < |RcvErrPrograms(j, rows[..n])| {
      RcvErrProgramsPutNothing(j, rows[..n], k);
    }
  }

  lemma JobPutsItsGuid(j: Job, flags: Flags, k: nat)
    requires k < |JobOf(j, flags)| && JobOf(j, flags)[k].Put?
    ensures JobOf(j, flags)[k].key == j.device.guid
    ensures j.base.result.Success? && k == |JobOf(j, flags)| - 1
  {
    hide Parse, MetricsOf, RcvErrPrograms;
    if j.base.result.Success? && flags.rcvErr {
      var rows := j.listing(j.base.result.out);
      var before := 2 + (if flags.base then 1 else 0);
      var inner := RcvErrPrograms(j, rows);
      if before <= k < before + |inner| {
        assert JobOf(j, flags)[k] == inner[k - before];
        RcvErrProgramsPutNothing(j, rows, k - before);
      }
    }
  }

  lemma JobsOwnKeys(jobs: seq<Job>, flags: Flags)
    requires ValidJobs(jobs)
    ensures OwnKeys(Programs(jobs, flags), Guids(jobs))
  {
    hide JobOf, ValidJob;
    forall i, k | 0 <= i < |jobs| && 0 <= k < |JobOf(jobs[i], flags)| && JobOf(jobs[i], flags)[k].Put?
      ensures JobOf(jobs[i], flags)[k].key == jobs[i].device.guid
    {
      JobPutsItsGuid(jobs[i], flags, k);
    }
  }

  function Empty(errors: nat, timeouts: nat, retries: nat): Shared<Record, Metrics> {
    Shared([], map[], errors, timeouts, retries)
  }

  ghost predicate FinishedScrape(jobs: seq<Job>, flags: Flags, limit: int, before: Shared<Record, Metrics>,
    events: seq<Event>, after: Shared<Record, Metrics>)
  {
    && CanRun(Programs(jobs, flags), limit, Init(|jobs|, before), events)
    && var s := End(Programs(jobs, flags), limit, Init(|jobs|, before), events);
       s.main.Returned? && s.shared == after
  }

  lemma FinishedScrapeIsSequential(jobs: seq<Job>, flags: Flags, limit: int, before: Shared<Record, Metrics>,
    events: seq<Event>, after: Shared<Record, Metrics>)
    requires ValidJobs(jobs) && FinishedScrape(jobs, flags, limit, before, events, after)
    ensures SameShared(after, Sequential(Programs(jobs, flags), before))
  {
    hide ValidJobs, OwnKeys, CanRun, End, Sequential, JobOf;
    JobsOwnKeys(jobs, flags);
    FanOutIsSequential(Programs(jobs, flags), Guids(jobs), limit, before, events);
  }

  /**
   * Conservation: for every schedule, one scrape adds to the rows and to each total exactly the sum of the
   * devices' accounts.
   */
  lemma ScrapeConservesAccounts(jobs: seq<Job>, flags: Flags, limit: int, before: Shared<Record, Metrics>,
    events: seq<Event>, after: Shared<Record, Metrics>)
    requires ValidJobs(jobs) && FinishedScrape(jobs, flags, limit, before, events, after)
    ensures TallyOf(after) == Plus(TallyOf(before), Sum(Accounts(jobs, flags)))
  {
    hide OwnKeys, FinishedScrape, Sequential, JobOf, JobAccount, ValidJob, Plus, Sum, ProgramTally;
    FinishedScrapeIsSequential(jobs, flags, limit, before, events, after);
    JobsOwnKeys(jobs, flags);
    SequentialContent(Programs(jobs, flags), Guids(jobs), before);
    forall i | 0 <= i < |jobs| ensures ProgramTally(JobOf(jobs[i], flags)) == JobAccount(jobs[i], flags) {
      JobTally(jobs[i], flags);
    }
    assert ProgramTallies(Programs(jobs, flags)) == Accounts(jobs, flags);
  }

  lemma {:induction false} NoPut(prog: JobProgram, before: Option<Metrics>)
    requires forall k | 0 <= k < |prog| :: !prog[k].Put?
    ensures LastPut(prog, before) == before
  {
    if prog != [] {
      NoPut(prog[..|prog| - 1], before);
    }
  }

  lemma JobLastPut(j: Job, flags: Flags)
    ensures LastPut(JobOf(j, flags), None) ==
      if j.base.result.Success? then Some(MetricsOf(j, flags, j.listing(j.base.result.out))) else None
  {
    hide Parse, MetricsOf, RcvErrPrograms;
    if !j.base.result.Success? {
      NoPut(JobOf(j, flags), None);
    }
  }

  /** Some listed record's query ended at its deadline. */
  predicate SomeDeadline(j: Job, rows: seq<Record>) {
    exists r <- rows :: j.rcvErr(r.portSelect).result.Deadline?
  }

  predicate SomeFailure(j: Job, rows: seq<Record>) {
    exists r <- rows :: j.rcvErr(r.portSelect).result.Failure?
  }

  lemma OneMoreRow(j: Job, rows: seq<Record>)
    requires rows != []
    ensures
      var n := |rows| - 1;
      && (SomeDeadline(j, rows) <==> SomeDeadline(j, rows[..n]) || j.rcvErr(rows[n].portSelect).result.Deadline?)
      && (SomeFailure(j, rows) <==> SomeFailure(j, rows[..n]) || j.rcvErr(rows[n].portSelect).result.Failure?)
  {
    var n := |rows| - 1;
    forall r ensures r in rows <==> r in rows[..n] || r == rows[n] {
      assert rows == rows[..n] + [rows[n]];
    }
  }

  lemma {:induction false} QueriesLeave(j: Job, m: Metrics, rows: seq<Record>)
    ensures
      var after := AfterQueries(j, m, rows);
      && after.duration == m.duration && after.timeout == m.timeout && after.error == m.error
      && after.rcvErrDuration ==
           (if rows == [] then m.rcvErrDuration else j.rcvErr(rows[|rows| - 1].portSelect).duration)
      && (after.rcvErrTimeout <==> m.rcvErrTimeout || SomeDeadline(j, rows))
      && (after.rcvErrError <==> m.rcvErrError || SomeFailure(j, rows))
  {
    if rows != [] {
      hide SomeDeadline, SomeFailure;
      QueriesLeave(j, m, rows[..|rows| - 1]);
      OneMoreRow(j, rows);
    }
  }

  /** Ranging over the listed records is ranging over the recorded ports. */
  lemma ListedPorts(j: Job, out: string, p: string)
    requires ValidJob(j)
    ensures (exists r <- j.listing(out) :: r.portSelect == p) <==> p in Parse(j.device, out).records
  {
    hide Run, Split;
    var rows, records := j.listing(out), Parse(j.device, out).records;
    assert Enumerates(rows, records);
    KeysArePorts(j.device, START, Split(out, '\n'));
    forall r | r in rows ensures r.portSelect in records {
      assert r in multiset(rows);
      var q :| q in records && records[q] == r;
    }
    if p in records {
      assert records[p] in multiset(rows);
    }
  }

  /** The entry, field by field. */
  ghost predicate IsEntryOf(m: Metrics, j: Job, flags: Flags, out: string) {
    var ports, listed := Parse(j.device, out).records.Keys, j.listing(out);
    && m.duration == j.base.duration && !m.timeout && !m.error
    && (m.rcvErrTimeout <==> flags.rcvErr && exists p <- ports :: j.rcvErr(p).result.Deadline?)
    && (m.rcvErrError <==> flags.rcvErr && exists p <- ports :: j.rcvErr(p).result.Failure?)
    && m.rcvErrDuration ==
      if flags.rcvErr && listed != [] then j.rcvErr(listed[|listed| - 1].portSelect).duration else 0.0
  }

  lemma EntryIs(j: Job, flags: Flags, out: string)
    requires ValidJob(j)
    ensures IsEntryOf(MetricsOf(j, flags, j.listing(out)), j, flags, out)
  {
    hide Parse, ValidJob, AfterQueries;
    var rows, ports := j.listing(out), Parse(j.device, out).records.Keys;
    QueriesLeave(j, Metrics(j.base.duration, false, false, 0.0, false, false), rows);
    forall p ensures (exists r <- rows :: r.portSelect == p) <==> p in ports {
      ListedPorts(j, out, p);
    }
    assert forall r <- rows :: r.portSelect in ports;
  }

  /**
   * For every schedule, a device has an entry in the metrics table exactly when its base query succeeded: with the
   * duration of that query, flags that tell of any `-E` query of the device, and the duration of the last of them.
   */
  lemma MetricsOfScrape(jobs: seq<Job>, flags: Flags, limit: int, errors: nat, timeouts: nat, retries: nat,
    events: seq<Event>, after: Shared<Record, Metrics>, i: nat)
    requires ValidJobs(jobs) && FinishedScrape(jobs, flags, limit, Empty(errors, timeouts, retries), events, after)
    requires i < |jobs|
    ensures
      var j, entry := jobs[i], Lookup(after.table, jobs[i].device.guid);
      && (entry.Some? <==> j.base.result.Success?)
      && (entry.Some? ==> IsEntryOf(entry.value, j, flags, j.base.result.out))
    ensures forall g <- after.table :: g in Guids(jobs)
  {
    hide OwnKeys, FinishedScrape, Sequential, JobOf, JobAccount, ValidJob, Plus, Sum, ProgramTally, LastPut, MetricsOf,
      IsEntryOf;
    var before := Empty(errors, timeouts, retries);
    FinishedScrapeIsSequential(jobs, flags, limit, before, events, after);
    JobsOwnKeys(jobs, flags);
    SequentialContent(Programs(jobs, flags), Guids(jobs), before);
    JobLastPut(jobs[i], flags);
    if jobs[i].base.result.Success? {
      EntryIs(jobs[i], flags, jobs[i].base.result.out);
    }
    assert Guids(jobs)[i] == jobs[i].device.guid;
    assert forall g | g !in Guids(jobs) :: Lookup(before.table, g) == None;
    assert forall g | g !in Guids(jobs) :: Lookup(after.table, g) == None;
    forall g | g in after.table ensures g in Guids(jobs) {
      assert Lookup(after.table, g) != None;
    }
  }

  // ---------------------------------------------------------------- the queries of a scrape, counted

  /** The queries of a device, in its order: the base query and, if that succeeds, one for each record it lists. */
  function QueriesOf(j: Job, flags: Flags): seq<Query> {
    match j.base.result
    case Success(out) => [j.base] + (if flags.rcvErr then RcvErrQueries(j, j.listing(out)) else [])
    case _ => [j.base]
  }

  function RcvErrQueries(j: Job, rows: seq<Record>): seq<Query> {
    if rows == [] then []
    else RcvErrQueries(j, rows[..|rows| - 1]) + [j.rcvErr(rows[|rows| - 1].portSelect)]
  }

  /** All queries of the scrape, device by device. */
  function AllQueries(jobs: seq<Job>, flags: Flags): seq<Query> {
    if jobs == [] then [] else AllQueries(jobs[..|jobs| - 1], flags) + QueriesOf(jobs[|jobs| - 1], flags)
  }

  function Failures(qs: seq<Query>): nat {
    if qs == [] then 0 else Failures(qs[..|qs| - 1]) + if qs[|qs| - 1].result.Failure? then 1 else 0
  }

  function Deadlines(qs: seq<Query>): nat {
    if qs == [] then 0 else Deadlines(qs[..|qs| - 1]) + if qs[|qs| - 1].result.Deadline? then 1 else 0
  }

  function BadLinesIn(qs: seq<Query>): nat {
    if qs == [] then 0
    else
      BadLinesIn(qs[..|qs| - 1])
      + (match qs[|qs| - 1].result case Success(out) => |BadLines(Split(out, '\n'))| case _ => 0)
  }

  function RetriesIn(qs: seq<Query>): nat {
    if qs == [] then 0 else RetriesIn(qs[..|qs| - 1]) + qs[|qs| - 1].retries
  }

  /** The totals of this account are those of these queries. */
  ghost predicate Counts(t: Tally<Record>, qs: seq<Query>) {
    t.errors == Failures(qs) + BadLinesIn(qs) && t.timeouts == Deadlines(qs) && t.retries == RetriesIn(qs)
  }

  lemma {:induction false} CountsAppend(a: seq<Query>, b: seq<Query>)
    ensures Failures(a + b) == Failures(a) + Failures(b) && Deadlines(a + b) == Deadlines(a) + Deadlines(b)
    ensures BadLinesIn(a + b) == BadLinesIn(a) + BadLinesIn(b) && RetriesIn(a + b) == RetriesIn(a) + RetriesIn(b)
    decreases |b|
  {
    hide BadLines, Split;
    if b == [] {
      assert a + b == a;
    } else {
      assert (a + b)[..|a + b| - 1] == a + b[..|b| - 1];
      CountsAppend(a, b[..|b| - 1]);
    }
  }

  lemma CountsOne(q: Query)
    ensures Failures([q]) == (if q.result.Failure? then 1 else 0)
    ensures Deadlines([q]) == (if q.result.Deadline? then 1 else 0)
    ensures BadLinesIn([q]) == match q.result case Success(out) => ParseErrors(out) case _ => 0
    ensures RetriesIn([q]) == q.retries
  {
    hide BadLines, Split;
    assert [q][..0] == [];
  }

  lemma {:induction false} RcvErrCounted(j: Job, rows: seq<Record>)
    ensures Counts(RcvErrAccounts(j, rows), RcvErrQueries(j, rows))
  {
    hide Parse, ParseErrors, Failures, Deadlines, BadLinesIn, RetriesIn;
    if rows == [] {
      NoQueries();
    } else {
      var n := |rows| - 1;
      var q := j.rcvErr(rows[n].portSelect);
      RcvErrCounted(j, rows[..n]);
      CountsAppend(RcvErrQueries(j, rows[..n]), [q]);
      CountsOne(q);
    }
  }

  lemma NoQueries()
    ensures Counts(Nothing(), [])
  {
  }

  lemma JobCounted(j: Job, flags: Flags)
    ensures Counts(JobAccount(j, flags), QueriesOf(j, flags))
  {
    hide Parse, ParseErrors, Failures, Deadlines, BadLinesIn, RetriesIn, RcvErrAccounts, RcvErrQueries;
    CountsOne(j.base);
    if j.base.result.Success? {
      NoQueries();
      var more := if flags.rcvErr then RcvErrQueries(j, j.listing(j.base.result.out)) else [];
      RcvErrCounted(j, j.listing(j.base.result.out));
      CountsAppend([j.base], more);
    }
  }

  lemma {:induction false} AccountsCounted(jobs: seq<Job>, flags: Flags)
    ensures Counts(Sum(Accounts(jobs, flags)), AllQueries(jobs, flags))
  {
    hide JobAccount, QueriesOf, Failures, Deadlines, BadLinesIn, RetriesIn;
    if jobs == [] {
      NoQueries();
    } else {
      var n := |jobs| - 1;
      AccountsCounted(jobs[..n], flags);
      JobCounted(jobs[n], flags);
      CountsAppend(AllQueries(jobs[..n], flags), QueriesOf(jobs[n], flags));
      assert Accounts(jobs, flags) == Accounts(jobs[..n], flags) + [JobAccount(jobs[n], flags)];
    }
  }

  /**
   * For every schedule, over all queries of the scrape: the error total rises by one for each that failed and one for
   * each line of a successful one that gives a counter no number, the timeout total by one for each that ended at its
   * deadline, the retry total by the retries of all.
   */
  lemma ScrapeCountsQueries(jobs: seq<Job>, flags: Flags, limit: int, before: Shared<Record, Metrics>,
    events: seq<Event>, after: Shared<Record, Metrics>)
    requires ValidJobs(jobs) && FinishedScrape(jobs, flags, limit, before, events, after)
    ensures
      var queries := AllQueries(jobs, flags);
      && after.errors == before.errors + Failures(queries) + BadLinesIn(queries)
      && after.timeouts == before.timeouts + Deadlines(queries)
      && after.retries == before.retries + RetriesIn(queries)
  {
    hide ValidJobs, FinishedScrape, Sum, Accounts, AllQueries, Failures, Deadlines, BadLinesIn, RetriesIn;
    ScrapeConservesAccounts(jobs, flags, limit, before, events, after);
    AccountsCounted(jobs, flags);
  }
}
