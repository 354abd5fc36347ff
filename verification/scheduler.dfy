/** The scheduler service: four cron jobs (full scrape, refresh, exchange
    rates, cleanup), the job-execution log, and the registry of running
    jobs. */
module Scheduler {
  import opened Common
  import opened Text
  import opened CarSchema
  import MongoStore
  import ProfitCalculator

  // ---------------------------------------------------------------------
  // Schedules.

  /** One field of a five-field cron expression: any value, a number, or
      every n-th value. */
  datatype Field = Any | At(n: nat) | Every(n: nat)

  datatype CronExpr = CronExpr(minute: Field, hour: Field, dayOfMonth: Field, month: Field, dayOfWeek: Field)

  /** A wall-clock minute in the job's time zone (Sunday is day 0). */
  datatype Moment = Moment(minute: nat, hour: nat, dayOfMonth: nat, month: nat, dayOfWeek: nat)

  function ShowField(f: Field): (s: string)
    ensures |s| > 0
  {
    match f
    case Any => "*"
    case At(n) => ShowNat(n)
    case Every(n) => "*/" + ShowNat(n)
  }

  /** The expression as it is written. */
  function ShowCron(e: CronExpr): string {
    ShowField(e.minute) + " " + ShowField(e.hour) + " " + ShowField(e.dayOfMonth) + " "
      + ShowField(e.month) + " " + ShowField(e.dayOfWeek)
  }

  /** A field accepts a value: any value, exactly `n`, or every `n`-th
      value counting from the field's lowest value `low`. */
  predicate FieldMatches(f: Field, v: nat, low: nat) {
    match f
    case Any => true
    case At(n) => v == n
    case Every(n) => n > 0 && v >= low && (v - low) % n == 0
  }

  predicate FiresAt(e: CronExpr, t: Moment) {
    && FieldMatches(e.minute, t.minute, 0)
    && FieldMatches(e.hour, t.hour, 0)
    && FieldMatches(e.dayOfMonth, t.dayOfMonth, 1)
    && FieldMatches(e.month, t.month, 1)
    && FieldMatches(e.dayOfWeek, t.dayOfWeek, 0)
  }

  datatype Job = DailyFullScrape | HourlyUpdates | ExchangeRateUpdate | DatabaseCleanup

  /** The name a job is registered and logged under. */
  function NameOf(j: Job): string {
    match j
    case DailyFullScrape => "daily_full_scrape"
    case HourlyUpdates => "hourly_updates"
    case ExchangeRateUpdate => "exchange_rate_update"
    case DatabaseCleanup => "database_cleanup"
  }

  function ScheduleOf(j: Job): CronExpr {
    match j
    case DailyFullScrape => CronExpr(At(0), At(2), Any, Any, Any)
    case HourlyUpdates => CronExpr(At(0), Every(4), Any, Any, Any)
    case ExchangeRateUpdate => CronExpr(At(0), Any, Any, Any, Any)
    case DatabaseCleanup => CronExpr(At(0), At(3), Any, Any, At(0))
  }

  /** Only the full scrape runs on Japan time; the others use the
      server's zone. */
  function TimezoneOf(j: Job): Option<string> {
    if j == DailyFullScrape then Some("Asia/Tokyo") else None
  }

  /** The expressions read as the source writes them. */
  lemma ScheduleTexts()
    ensures ShowCron(ScheduleOf(DailyFullScrape)) == "0 2 * * *"
    ensures ShowCron(ScheduleOf(HourlyUpdates)) == "0 */4 * * *"
    ensures ShowCron(ScheduleOf(ExchangeRateUpdate)) == "0 * * * *"
    ensures ShowCron(ScheduleOf(DatabaseCleanup)) == "0 3 * * 0"
  {
    ShowDigit(0);
    ShowDigit(2);
    ShowDigit(3);
    ShowDigit(4);
    assert ShowField(Any) == "*";
    assert ShowField(Every(4)) == "*/4";
  }

  /** A digit is shown as its own character. */
  lemma ShowDigit(n: nat)
    requires n < 10
    ensures ShowField(At(n)) == [(n + '0' as int) as char]
  {
  }

  /** When each job fires: the full scrape at 02:00 Japan time every day,
      the refresh on the hour every four hours, the rates every hour, and
      the cleanup at 03:00 on Sundays. */
  lemma FiringTimes(t: Moment)
    ensures FiresAt(ScheduleOf(DailyFullScrape), t) <==> t.minute == 0 && t.hour == 2
    ensures FiresAt(ScheduleOf(HourlyUpdates), t) <==> t.minute == 0 && t.hour % 4 == 0
    ensures FiresAt(ScheduleOf(ExchangeRateUpdate), t) <==> t.minute == 0
    ensures FiresAt(ScheduleOf(DatabaseCleanup), t) <==> t.minute == 0 && t.hour == 3 && t.dayOfWeek == 0
  {
  }

  // ---------------------------------------------------------------------
  // Job outcomes and the execution log.

  datatype Status = Success | Error

  /** The status a tick reports. Only the full scrape lets its failure
      through; the refresh, the rate update and the cleanup catch every
      error inside, so they always report success. */
  function WorkStatus(j: Job, workFailed: bool): (s: Status)
    ensures s == Error <==> j == DailyFullScrape && workFailed
  {
    if j == DailyFullScrape && workFailed then Error else Success
  }

  datatype LogEntry = LogEntry(jobName: string, status: Status, executedAt: int)

  /** The log collection and whether its model has been compiled. */
  datatype JobLog = JobLog(compiled: bool, entries: seq<LogEntry>)

  const FreshLog: JobLog := JobLog(false, [])

  /** A log call either returns or throws out of `logJobExecution`. */
  datatype LogResult = Logged(log: JobLog) | Threw(log: JobLog)

  /** `logJobExecution` as written: the log model is compiled on every
      call, outside the `try`, and compiling it a second time throws; a
      failed insert is caught. */
  function LogAsWritten(l: JobLog, name: string, status: Status, now: int, insertSucceeds: bool): (r: LogResult)
    ensures l.compiled <==> r.Threw?
    ensures r.Threw? ==> r.log == l
    ensures r.Logged? ==> r.log.compiled && l.entries <= r.log.entries
    ensures r.Logged? ==> |r.log.entries| == |l.entries| + (if insertSucceeds then 1 else 0)
  {
    if l.compiled then Threw(l)
    else Logged(JobLog(true, if insertSucceeds then l.entries + [LogEntry(name, status, now)] else l.entries))
  }

  /** `logJobExecution` with the model compiled once and reused. */
  function Log(l: JobLog, name: string, status: Status, now: int, insertSucceeds: bool): (r: JobLog)
    ensures r.compiled && l.entries <= r.entries
    ensures insertSucceeds ==> r.entries == l.entries + [LogEntry(name, status, now)]
    ensures !insertSucceeds ==> r.entries == l.entries
  {
    JobLog(true, if insertSucceeds then l.entries + [LogEntry(name, status, now)] else l.entries)
  }

  /** One firing of a job. */
  datatype Tick = Tick(job: Job, workFailed: bool, now: int, insertSucceeds: bool)

  /** A tick as written: the status is logged; when that log throws on the
      success path, the job's `catch` logs an error, which throws again and
      escapes the job. */
  function TickAsWritten(l: JobLog, t: Tick): (r: JobLog)
    ensures r.compiled
    ensures l.compiled ==> r == l
  {
    var status := WorkStatus(t.job, t.workFailed);
    match LogAsWritten(l, NameOf(t.job), status, t.now, t.insertSucceeds)
    case Logged(l1) => l1
    case Threw(l1) =>
      if status == Success then LogAsWritten(l1, NameOf(t.job), Error, t.now, t.insertSucceeds).log else l1
  }

  function Tick1(l: JobLog, t: Tick): (r: JobLog)
    ensures r.compiled
    ensures t.insertSucceeds ==> r.entries == l.entries + [LogEntry(NameOf(t.job), WorkStatus(t.job, t.workFailed), t.now)]
  {
    Log(l, NameOf(t.job), WorkStatus(t.job, t.workFailed), t.now, t.insertSucceeds)
  }

  function RunTicksAsWritten(l: JobLog, ts: seq<Tick>): JobLog
    decreases |ts|
  {
    if |ts| == 0 then l else RunTicksAsWritten(TickAsWritten(l, ts[0]), ts[1..])
  }

  function RunTicks(l: JobLog, ts: seq<Tick>): JobLog
    decreases |ts|
  {
    if |ts| == 0 then l else RunTicks(Tick1(l, ts[0]), ts[1..])
  }

  /** As written, at most one entry is ever added to the log, however many
      jobs run. */
  lemma {:induction false} AtMostOneLogAsWritten(l: JobLog, ts: seq<Tick>)
    ensures var r := RunTicksAsWritten(l, ts);
      |r.entries| <= |l.entries| + 1 && (l.compiled ==> r == l)
    decreases |ts|
  {
    if |ts| > 0 {
      var l1 := TickAsWritten(l, ts[0]);
      assert |l1.entries| <= |l.entries| + 1;
      AtMostOneLogAsWritten(l1, ts[1..]);
    }
  }

  /** Two successful ticks leave one entry in a fresh log. */
  lemma SecondLogLostAsWritten(now: int)
    ensures |RunTicksAsWritten(FreshLog, [Tick(ExchangeRateUpdate, false, now, true),
                                         Tick(ExchangeRateUpdate, false, now + HourMs, true)]).entries| == 1
  {
    var ts := [Tick(ExchangeRateUpdate, false, now, true), Tick(ExchangeRateUpdate, false, now + HourMs, true)];
    var l1 := TickAsWritten(FreshLog, ts[0]);
    assert |l1.entries| == 1 && l1.compiled;
    var l2 := TickAsWritten(l1, ts[1]);
    assert l2 == l1;
    assert ts[1..] == [ts[1]];
    assert ts[1..][1..] == [];
    assert RunTicksAsWritten(l1, ts[1..]) == RunTicksAsWritten(l2, []);
  }

  /** With the model reused, every tick whose insert succeeds adds its own
      entry, in order. */
  lemma {:induction false} EveryTickLogged(l: JobLog, ts: seq<Tick>)
    requires forall i :: 0 <= i < |ts| ==> ts[i].insertSucceeds
    ensures var r := RunTicks(l, ts);
      && |r.entries| == |l.entries| + |ts|
      && r.entries[..|l.entries|] == l.entries
      && forall i :: 0 <= i < |ts| ==>
           r.entries[|l.entries| + i] == LogEntry(NameOf(ts[i].job), WorkStatus(ts[i].job, ts[i].workFailed), ts[i].now)
    decreases |ts|
  {
    if |ts| > 0 {
      var l1 := Tick1(l, ts[0]);
      EveryTickLogged(l1, ts[1..]);
      var r := RunTicks(l, ts);
      assert r == RunTicks(l1, ts[1..]);
      assert r.entries[..|l1.entries|] == l1.entries;
      assert r.entries[..|l.entries|] == l1.entries[..|l.entries|];
      forall i | 0 <= i < |ts|
        ensures r.entries[|l.entries| + i] == LogEntry(NameOf(ts[i].job), WorkStatus(ts[i].job, ts[i].workFailed), ts[i].now)
      {
        if i == 0 {
          assert r.entries[|l.entries|] == l1.entries[|l.entries|];
        } else {
          assert ts[1..][i - 1] == ts[i];
        }
      }
    }
  }

  // ---------------------------------------------------------------------
  // The exchange-rate job.

  /** What the rates service answers: nothing, a body without rates, or
      rates with (perhaps) a yen figure. */
  datatype RateResponse = Unreachable | NoRates | Rates(jpy: Option<real>)

  /** `updateExchangeRates`: a yen figure `j` per dollar sets the
      dollar-to-yen rate to `j` and the yen-to-dollar rate to `1 / j`;
      any failure leaves the rates alone. */
  function UpdateExchangeRates(c: ProfitCalculator.Calculator, resp: RateResponse): (r: ProfitCalculator.Calculator)
    ensures r.costs == c.costs
    ensures resp.Rates? && resp.jpy.Some? && resp.jpy.value != 0.0 ==>
      r.rates.usdToJpy == resp.jpy.value && r.rates.jpyToUsd * resp.jpy.value == 1.0
    ensures !(resp.Rates? && resp.jpy.Some? && resp.jpy.value != 0.0) ==> r == c
  {
    if resp.Rates? && resp.jpy.Some? && resp.jpy.value != 0.0 then
      ProfitCalculator.UpdateExchangeRates(c, ProfitCalculator.RateUpdate(Some(1.0 / resp.jpy.value), Some(resp.jpy.value)))
    else c
  }

  /** After a successful update the two rates are reciprocal, so yen
      converted to dollars and back is unchanged (which the built-in rates
      do not guarantee). */
  lemma UpdatedRatesRoundTrip(c: ProfitCalculator.Calculator, j: real, yen: real)
    requires j != 0.0
    ensures var r := UpdateExchangeRates(c, Rates(Some(j)));
      ProfitCalculator.ConvertUsdToJpy(r, ProfitCalculator.ConvertJpyToUsd(r, yen)) == yen
  {
    var r := UpdateExchangeRates(c, Rates(Some(j)));
    ProfitCalculator.ConversionRoundTrip(r, yen, 0.0);
  }

  // ---------------------------------------------------------------------
  // The cleanup job.

  /** `cleanupDatabase`: deactivate active listings older than 30 days,
      then delete inactive listings older than 90 days. Deactivating
      stamps `updatedAt`, not `lastUpdated`, so an active listing older
      than 90 days is deactivated and then deleted in the same run, while
      one between 30 and 90 days old stays, deactivated. */
  function CleanupDatabase(rs: seq<Record>, now: int): (r: seq<Record>)
    ensures |r| <= |rs|
    ensures forall i :: 0 <= i < |r| ==> !ActiveOlderThan(now, 30, r[i].car) && !InactiveOlderThan(now, 90, r[i].car)
    ensures forall i :: 0 <= i < |rs| && ActiveOlderThan(now, 30, rs[i].car) && !ActiveOlderThan(now, 90, rs[i].car) ==>
      Record(rs[i].id, rs[i].car.(isActive := Some(false), updatedAt := Some(now))) in r
    ensures forall i :: 0 <= i < |rs| && ActiveOlderThan(now, 90, rs[i].car) ==>
      Record(rs[i].id, rs[i].car.(isActive := Some(false), updatedAt := Some(now))) !in r
  {
    var deactivated := MongoStore.Deactivate(rs, StaleFor(now, 30), now);
    assert forall i :: 0 <= i < |rs| && ActiveOlderThan(now, 30, rs[i].car) ==>
      deactivated[i] == Record(rs[i].id, rs[i].car.(isActive := Some(false), updatedAt := Some(now)));
    MongoStore.DeleteWhere(deactivated, OutdatedFor(now, 90))
  }

  /** A listing refreshed in the last 30 days (or never stamped) comes
      through the cleanup unchanged, and a listing older than 90 days with
      a definite activity flag does not come through at all. */
  lemma CleanupKeepsRecent(rs: seq<Record>, now: int)
    ensures forall i :: 0 <= i < |rs| && !(rs[i].car.lastUpdated.Some? && rs[i].car.lastUpdated.value < now - 30 * DayMs) ==>
      rs[i] in CleanupDatabase(rs, now)
    ensures forall x :: x in CleanupDatabase(rs, now) && x.car.isActive.Some? && x.car.lastUpdated.Some? ==>
      x.car.lastUpdated.value >= now - 90 * DayMs
  {
    var deactivated := MongoStore.Deactivate(rs, StaleFor(now, 30), now);
    var r := CleanupDatabase(rs, now);
    forall i | 0 <= i < |rs| && !(rs[i].car.lastUpdated.Some? && rs[i].car.lastUpdated.value < now - 30 * DayMs)
      ensures rs[i] in r
    {
      assert deactivated[i] == rs[i];
      assert !InactiveOlderThan(now, 90, deactivated[i].car);
    }
    forall x | x in r && x.car.isActive.Some? && x.car.lastUpdated.Some?
      ensures x.car.lastUpdated.value >= now - 90 * DayMs
    {
      var i :| 0 <= i < |r| && r[i] == x;
      assert !ActiveOlderThan(now, 30, x.car) && !InactiveOlderThan(now, 90, x.car);
      assert DayMs > 0;
      if x.car.isActive.value {
        assert IsActive(x.car);
      } else {
        assert x.car.isActive == Some(false);
      }
    }
  }

  /** Running the cleanup twice at the same instant is running it once. */
  lemma CleanupIdempotent(rs: seq<Record>, now: int)
    ensures CleanupDatabase(CleanupDatabase(rs, now), now) == CleanupDatabase(rs, now)
  {
    var r := CleanupDatabase(rs, now);
    var d := MongoStore.Deactivate(r, StaleFor(now, 30), now);
    assert d == r;
  }

  // ---------------------------------------------------------------------
  // The job registry.

  /** A scheduled task as the registry holds it. */
  datatype Handle = Handle(expression: CronExpr, timezone: Option<string>, running: bool)

  type Registry = map<string, Handle>

  /** `start…`: register the job under its name and start it. */
  function StartJob(reg: Registry, j: Job): (r: Registry)
    ensures NameOf(j) in r && r[NameOf(j)].running
    ensures r[NameOf(j)].expression == ScheduleOf(j) && r[NameOf(j)].timezone == TimezoneOf(j)
    ensures r.Keys == reg.Keys + {NameOf(j)}
  {
    reg[NameOf(j) := Handle(ScheduleOf(j), TimezoneOf(j), true)]
  }

  /** The four jobs the command line starts, in order. */
  function StartAll(): (r: Registry)
    ensures r.Keys == {"daily_full_scrape", "hourly_updates", "exchange_rate_update", "database_cleanup"}
    ensures forall n :: n in r ==> r[n].running
  {
    StartJob(StartJob(StartJob(StartJob(map[], DailyFullScrape), HourlyUpdates), ExchangeRateUpdate), DatabaseCleanup)
  }

  /** `stopJob`: stop and forget the named job, if there is one. */
  function StopJob(reg: Registry, name: string): (r: Registry)
    ensures name !in r
    ensures forall n :: n in reg && n != name ==> n in r && r[n] == reg[n]
    ensures r.Keys == reg.Keys - {name}
  {
    reg - {name}
  }

  /** `stopAllJobs`: every job stopped and forgotten. */
  function StopAllJobs(reg: Registry): (r: Registry)
    ensures |r| == 0
  {
    map[]
  }

  /** `getJobStatus`: whether each registered job is running. */
  function GetJobStatus(reg: Registry): (s: map<string, bool>)
    ensures s.Keys == reg.Keys
    ensures forall n :: n in s ==> s[n] == reg[n].running
  {
    map n | n in reg :: reg[n].running
  }

  /** Stopping jobs one after another forgets exactly those jobs, in any
      order, and stopping a job that is not registered changes nothing. */
  lemma StopLaws(reg: Registry, a: string, b: string)
    ensures StopJob(StopJob(reg, a), b) == StopJob(StopJob(reg, b), a)
    ensures StopJob(StopJob(reg, a), a) == StopJob(reg, a)
    ensures a !in reg ==> StopJob(reg, a) == reg
  {
    var ab := StopJob(StopJob(reg, a), b);
    var ba := StopJob(StopJob(reg, b), a);
    assert ab.Keys == ba.Keys;
  }
}
