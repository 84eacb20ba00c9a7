/** The harvest driver (`main` and the `__main__` guard): watermark bootstrap,
    the lazily filtered and capped record stream, and shutdown. */
module Driver {
  import opened Wrappers
  import opened Types
  import opened Config
  import opened Processing

  /** The largest stop value `itertools.islice` accepts (`sys.maxsize` on a
      64-bit platform). */
  const MaxSize: int := 0x7FFF_FFFF_FFFF_FFFF

  /** The ValueError `islice` raises for a stop value of -1, or one that does not
      fit a C `Py_ssize_t`, overflowing in either direction (the overflow is
      turned into this error, not clipped). */
  const IsliceStopError := "ValueError: Stop argument for islice() must be None or an integer: 0 <= x <= sys.maxsize."

  /** The ValueError `islice` raises for a stop value below -1 that still fits
      a C `Py_ssize_t`. */
  const IsliceIndicesError := "ValueError: Indices for islice() must be None or an integer: 0 <= x <= sys.maxsize."

  /** The error `islice` raises for a stop value outside 0..sys.maxsize. */
  function IsliceError(stop: int): string {
    if -MaxSize - 1 <= stop < -1 then IsliceIndicesError else IsliceStopError
  }

  /** The state after a harvest loop, the records attempted in order, and the
      exception that ended it, if any. */
  datatype Harvested = Harvested(world: World, attempted: seq<Record>, escaped: Option<string>)

  /** The loop over `islice(filter(_record_success_filter, records), limit)`.
      The filter is evaluated lazily, just before a record is attempted, so it
      sees the outcomes written by the records before it. No record is looked at
      once `limit` have been attempted. An exception escaping an attempt ends
      the loop. */
  function Harvest(w: World, env: Env, records: seq<Record>, limit: nat): Harvested
    decreases |records|
  {
    if limit == 0 || records == [] then Harvested(w, [], None)
    else if !RecordSuccessFilter(w.outcomes, records[0]) then Harvest(w, env, records[1..], limit)
    else
      var step := Attempt(w, env, records[0]);
      if step.escaped.Some? then Harvested(step.world, [records[0]], step.escaped)
      else
        var rest := Harvest(step.world, env, records[1..], limit - 1);
        Harvested(rest.world, [records[0]] + rest.attempted, rest.escaped)
  }

  /** `_shutdown`: the poison pill goes on the primary stream only when the queue
      client exists, and the validator is shut down only when it exists. */
  function ShutdownEffect(w: World, queueReady: bool, validatorReady: bool): (r: World)
    ensures r.outcomes == w.outcomes && r.watermark == w.watermark && r.invalid == w.invalid
    ensures queueReady ==> r.primary == w.primary + [PoisonPill]
    ensures !queueReady ==> r.primary == w.primary
    ensures r.validatorShutdowns == w.validatorShutdowns + (if validatorReady then 1 else 0)
  {
    w.(primary := if queueReady then w.primary + [PoisonPill] else w.primary)
     .(validatorShutdowns := if validatorReady then w.validatorShutdowns + 1 else w.validatorShutdowns)
  }

  /** The clients `main` constructs, in the order it constructs them. */
  datatype Client = DownloadClient | DynamoDbClient | EPrintsClient | KinesisClient | MessageGenerator | MessageValidator | S3Client {
    function Position(): nat {
      match this
      case DownloadClient => 0
      case DynamoDbClient => 1
      case EPrintsClient => 2
      case KinesisClient => 3
      case MessageGenerator => 4
      case MessageValidator => 5
      case S3Client => 6
    }
  }

  /** A client whose constructor raised, and the exception's text. */
  datatype InitFailure = InitFailure(client: Client, error: string)

  /** Whether the queue client had been assigned before the given constructor raised. */
  predicate QueueReady(failure: InitFailure) {
    failure.client.Position() > KinesisClient.Position()
  }

  /** Whether the validator had been assigned before the given constructor raised. */
  predicate ValidatorReady(failure: InitFailure) {
    failure.client.Position() > MessageValidator.Position()
  }

  /** How a run ends: normally; with an unhandled exception that the `__main__`
      guard logged (after running shutdown); or through `sys.exit(status)`. */
  datatype RunResult = Finished | Crashed(error: string) | Exited(status: int)

  /** The process exit status. The `__main__` guard catches the exception and
      does not re-raise it, so a crashed run also exits with status 0. */
  function ExitStatus(result: RunResult): int {
    match result
    case Exited(status) => status
    case _ => 0
  }

  /** The state after a run, how it ended, the harvest start time it used (when
      it got that far), and the records it attempted. */
  datatype RunReport = RunReport(world: World, result: RunResult, start: Option<Timestamp>, attempted: seq<Record>)

  /** A whole run of the adaptor. The configuration check exits before any
      client exists; `SystemExit` is not caught, so no shutdown runs. Every later
      failure reaches the `__main__` guard, which runs shutdown. */
  function Run(w: World, env: Env, environ: map<string, string>, now: Timestamp, initFailure: Option<InitFailure>): RunReport {
    match ParseEnvVars(environ, SettingNames)
    case Err(_) => RunReport(w, Exited(1), None, [])
    case Ok(settings) =>
      if initFailure.Some? then
        RunReport(ShutdownEffect(w, QueueReady(initFailure.value), ValidatorReady(initFailure.value)),
                  Crashed(initFailure.value.error), None, [])
      else
        var start := if w.watermark.Some? then w.watermark.value else now;
        var bootstrapped := w.(watermark := Some(start));
        assert FlowLimitName in settings by { assert SettingNames[9] == FlowLimitName; }
        match env.parseInt(settings[FlowLimitName])
        case Err(e) => RunReport(ShutdownEffect(bootstrapped, true, true), Crashed(e), Some(start), [])
        case Ok(limit) =>
          if limit < 0 || limit > MaxSize then
            RunReport(ShutdownEffect(bootstrapped, true, true),
                      Crashed(IsliceError(limit)), Some(start), [])
          else
            var h := Harvest(bootstrapped, env, env.fetch(start), limit);
            RunReport(ShutdownEffect(h.world, true, true),
                      if h.escaped.Some? then Crashed(h.escaped.value) else Finished,
                      Some(start), h.attempted)
  }

  /** The flow limit is one of the settings, read from its environment variable. */
  lemma FlowLimitConfigured(environ: map<string, string>)
    requires ParseEnvVars(environ, SettingNames).Ok?
    ensures FlowLimitName in ParseEnvVars(environ, SettingNames).value
    ensures FlowLimitName in environ
    ensures ParseEnvVars(environ, SettingNames).value[FlowLimitName] == environ[FlowLimitName]
  {
    assert SettingNames[9] == FlowLimitName;
  }

  /** The shape of a configured run: the harvest it runs for an accepted limit,
      and an early crash with nothing attempted otherwise. */
  lemma RunHarvests(w: World, env: Env, environ: map<string, string>, now: Timestamp)
    requires ParseEnvVars(environ, SettingNames).Ok? && FlowLimitName in environ
    ensures var report := Run(w, env, environ, now, None);
      && var start := if w.watermark.Some? then w.watermark.value else now;
      && var bootstrapped := w.(watermark := Some(start));
      && var parsed := env.parseInt(environ[FlowLimitName]);
      && report.start == Some(start)
      && (parsed.Ok? && 0 <= parsed.value <= MaxSize ==>
            var h := Harvest(bootstrapped, env, env.fetch(start), parsed.value);
            && report.attempted == h.attempted
            && report.world == ShutdownEffect(h.world, true, true)
            && report.result == (if h.escaped.Some? then Crashed(h.escaped.value) else Finished))
      && (!(parsed.Ok? && 0 <= parsed.value <= MaxSize) ==>
            && report.attempted == []
            && report.world == ShutdownEffect(bootstrapped, true, true)
            && report.result.Crashed?)
  {
    FlowLimitConfigured(environ);
  }

  // ----- Reference definitions -----

  /** `a` is `b` with some elements left out, order kept. */
  predicate IsSubsequence<T(==)>(a: seq<T>, b: seq<T>)
    decreases |b|
  {
    a == [] || (b != [] && (IsSubsequence(a, b[1..]) || (a[0] == b[0] && IsSubsequence(a[1..], b[1..]))))
  }

  /** The filter applied to the whole stream against a fixed table. */
  function EagerFilter(outcomes: map<string, Outcome>, records: seq<Record>): seq<Record> {
    if records == [] then []
    else (if RecordSuccessFilter(outcomes, records[0]) then [records[0]] else []) + EagerFilter(outcomes, records[1..])
  }

  /** The first `n` elements, or all of them when there are fewer. */
  function Take<T>(s: seq<T>, n: nat): seq<T> {
    if n >= |s| then s else s[..n]
  }

  /** No identifier occurs twice. */
  predicate DistinctIdentifiers(records: seq<Record>) {
    forall i, j :: 0 <= i < j < |records| ==> records[i].identifier != records[j].identifier
  }

  function IdentifiersOf(records: seq<Record>): set<string> {
    set i | 0 <= i < |records| :: records[i].identifier
  }

  // ----- Lemmas about the harvest loop -----

  /** At most `limit` records are attempted, in the source's order. An
      exception ends the loop on the record that raised it: attempting the last
      record against the final state raises that same exception and changes
      nothing. */
  lemma {:induction false} HarvestBoundedAndOrdered(w: World, env: Env, records: seq<Record>, limit: nat)
    ensures var h := Harvest(w, env, records, limit);
      && |h.attempted| <= limit
      && IsSubsequence(h.attempted, records)
      && (h.escaped.Some? ==>
            && h.attempted != []
            && Attempt(h.world, env, h.attempted[|h.attempted| - 1]) == Step(h.world, h.escaped))
    decreases |records|
  {
    if limit != 0 && records != [] {
      if !RecordSuccessFilter(w.outcomes, records[0]) {
        HarvestBoundedAndOrdered(w, env, records[1..], limit);
      } else {
        var step := Attempt(w, env, records[0]);
        if step.escaped.None? {
          HarvestBoundedAndOrdered(step.world, env, records[1..], limit - 1);
          var h := Harvest(w, env, records, limit);
          var rest := Harvest(step.world, env, records[1..], limit - 1);
          assert h == Harvested(rest.world, [records[0]] + rest.attempted, rest.escaped);
          assert h.attempted[1..] == rest.attempted;
        } else {
          AttemptEscapeChangesNothing(w, env, records[0]);
          assert IsSubsequence([records[0]][1..], records[1..]);
        }
      }
    }
  }

  /** Every attempted record passed the filter against the table as it stood
      when the run began: an identifier stored as Success is never attempted. */
  lemma {:induction false} HarvestOnlyUnsucceeded(w: World, env: Env, records: seq<Record>, limit: nat)
    ensures forall r :: r in Harvest(w, env, records, limit).attempted ==> RecordSuccessFilter(w.outcomes, r)
    decreases |records|
  {
    if limit != 0 && records != [] {
      if !RecordSuccessFilter(w.outcomes, records[0]) {
        HarvestOnlyUnsucceeded(w, env, records[1..], limit);
      } else {
        var step := Attempt(w, env, records[0]);
        if step.escaped.None? {
          HarvestOnlyUnsucceeded(step.world, env, records[1..], limit - 1);
          AttemptFrame(w, env, records[0]);
        }
      }
    }
  }

  /** The filter of a record only depends on its own identifier's outcome. */
  lemma {:induction false} EagerFilterFrame(o1: map<string, Outcome>, o2: map<string, Outcome>, records: seq<Record>)
    requires forall i :: 0 <= i < |records| ==> RecordSuccessFilter(o1, records[i]) == RecordSuccessFilter(o2, records[i])
    ensures EagerFilter(o1, records) == EagerFilter(o2, records)
  {
    if records != [] {
      EagerFilterFrame(o1, o2, records[1..]);
    }
  }

  /** The eager filter over records of other identifiers does not see a change
      confined to one identifier's outcome. */
  lemma EagerFilterOtherIdentifiers(o1: map<string, Outcome>, o2: map<string, Outcome>, id: string, rest: seq<Record>)
    requires o2.Keys <= o1.Keys + {id} && o1.Keys <= o2.Keys
    requires forall k :: k in o1 && k != id ==> o2[k] == o1[k]
    requires forall i :: 0 <= i < |rest| ==> rest[i].identifier != id
    ensures EagerFilter(o2, rest) == EagerFilter(o1, rest)
  {
    forall i | 0 <= i < |rest|
      ensures RecordSuccessFilter(o2, rest[i]) == RecordSuccessFilter(o1, rest[i])
    {
      var k := rest[i].identifier;
      assert k in o1 ==> o2[k] == o1[k];
    }
    EagerFilterFrame(o2, o1, rest);
  }

  /** With distinct identifiers, the rest of the stream has distinct identifiers,
      none of them the first record's. */
  lemma DistinctIdentifiersTail(records: seq<Record>)
    requires records != [] && DistinctIdentifiers(records)
    ensures DistinctIdentifiers(records[1..])
    ensures forall i :: 0 <= i < |records[1..]| ==> records[1..][i].identifier != records[0].identifier
  {
    forall i | 0 <= i < |records[1..]|
      ensures records[1..][i].identifier != records[0].identifier
    {
      assert records[1..][i] == records[i + 1];
    }
  }

  /** With distinct identifiers, the lazy loop attempts a prefix of "filter the
      whole stream against the starting table, then take `limit`", and all of it
      when nothing escapes. (With a repeated identifier the two differ: a later
      copy of a record that just succeeded is skipped by the lazy loop.) */
  lemma {:induction false} HarvestMatchesEagerFilter(w: World, env: Env, records: seq<Record>, limit: nat)
    requires DistinctIdentifiers(records)
    ensures var h := Harvest(w, env, records, limit);
      && h.attempted <= Take(EagerFilter(w.outcomes, records), limit)
      && (h.escaped.None? ==> h.attempted == Take(EagerFilter(w.outcomes, records), limit))
    decreases |records|
  {
    if limit != 0 && records != [] {
      var r0, rest := records[0], records[1..];
      DistinctIdentifiersTail(records);
      if !RecordSuccessFilter(w.outcomes, r0) {
        HarvestMatchesEagerFilter(w, env, rest, limit);
        assert EagerFilter(w.outcomes, records) == EagerFilter(w.outcomes, rest);
      } else {
        var step := Attempt(w, env, r0);
        var tail := EagerFilter(w.outcomes, rest);
        assert EagerFilter(w.outcomes, records) == [r0] + tail;
        assert Take([r0] + tail, limit) == [r0] + Take(tail, limit - 1);
        if step.escaped.None? {
          var hr := Harvest(step.world, env, rest, limit - 1);
          assert Harvest(w, env, records, limit) == Harvested(hr.world, [r0] + hr.attempted, hr.escaped);
          HarvestMatchesEagerFilter(step.world, env, rest, limit - 1);
          AttemptFrame(w, env, r0);
          EagerFilterOtherIdentifiers(w.outcomes, step.world.outcomes, r0.identifier, rest);
          PrefixCons(r0, hr.attempted, Take(tail, limit - 1));
        } else {
          assert Harvest(w, env, records, limit).attempted == [r0];
          PrefixCons(r0, [], Take(tail, limit - 1));
        }
      }
    } else if records == [] {
      assert Take(EagerFilter(w.outcomes, records), limit) == [];
    }
  }

  /** A common first element keeps a prefix a prefix. */
  lemma PrefixCons<T>(x: T, a: seq<T>, b: seq<T>)
    requires a <= b
    ensures [x] + a <= [x] + b
  {
  }

  /** The watermark after the loop: unchanged (and nothing else changed) when
      nothing was attempted; the datestamp of the last attempted record when
      nothing escaped; and, when an exception escaped, the datestamp of the
      record before the one that raised, so it never passes an unrecorded outcome. */
  lemma {:induction false} HarvestWatermark(w: World, env: Env, records: seq<Record>, limit: nat)
    ensures var h := Harvest(w, env, records, limit);
      && (h.attempted == [] ==> h.world == w)
      && (h.escaped.None? && h.attempted != [] ==> h.world.watermark == Some(h.attempted[|h.attempted| - 1].datestamp))
      && (h.escaped.Some? && |h.attempted| == 1 ==> h.world.watermark == w.watermark)
      && (h.escaped.Some? && |h.attempted| >= 2 ==> h.world.watermark == Some(h.attempted[|h.attempted| - 2].datestamp))
    decreases |records|
  {
    if limit != 0 && records != [] {
      if !RecordSuccessFilter(w.outcomes, records[0]) {
        HarvestWatermark(w, env, records[1..], limit);
      } else {
        var step := Attempt(w, env, records[0]);
        if step.escaped.None? {
          HarvestWatermark(step.world, env, records[1..], limit - 1);
          HarvestBoundedAndOrdered(step.world, env, records[1..], limit - 1);
          AttemptRecordsOutcome(w, env, records[0]);
          var h := Harvest(w, env, records, limit);
          var rest := Harvest(step.world, env, records[1..], limit - 1);
          assert h.attempted == [records[0]] + rest.attempted;
          assert h.attempted != [];
        } else {
          AttemptEscapeChangesNothing(w, env, records[0]);
        }
      }
    }
  }

  lemma IdentifiersOfCons(r: Record, rs: seq<Record>)
    ensures IdentifiersOf([r] + rs) == {r.identifier} + IdentifiersOf(rs)
  {
    var all := [r] + rs;
    forall id | id in IdentifiersOf(all)
      ensures id in {r.identifier} + IdentifiersOf(rs)
    {
      var i :| 0 <= i < |all| && all[i].identifier == id;
      if i > 0 { assert all[i] == rs[i - 1]; }
    }
    forall id | id in IdentifiersOf(rs)
      ensures id in IdentifiersOf(all)
    {
      var i :| 0 <= i < |rs| && rs[i].identifier == id;
      assert all[i + 1] == rs[i];
    }
    assert all[0] == r;
  }

  /** When nothing escapes, every attempted record has an outcome and no other
      identifier's outcome changed. */
  lemma {:induction false} HarvestRecordsEveryAttempt(w: World, env: Env, records: seq<Record>, limit: nat)
    ensures var h := Harvest(w, env, records, limit);
      h.escaped.None? ==>
        && h.world.outcomes.Keys == w.outcomes.Keys + IdentifiersOf(h.attempted)
        && (forall id :: id in w.outcomes && id !in IdentifiersOf(h.attempted) ==> h.world.outcomes[id] == w.outcomes[id])
    decreases |records|
  {
    if limit != 0 && records != [] {
      if !RecordSuccessFilter(w.outcomes, records[0]) {
        HarvestRecordsEveryAttempt(w, env, records[1..], limit);
      } else {
        var step := Attempt(w, env, records[0]);
        if step.escaped.None? {
          HarvestRecordsEveryAttempt(step.world, env, records[1..], limit - 1);
          AttemptRecordsOutcome(w, env, records[0]);
          var rest := Harvest(step.world, env, records[1..], limit - 1);
          IdentifiersOfCons(records[0], rest.attempted);
        }
      }
    } else {
      assert IdentifiersOf([]) == {};
    }
  }

  /** When nothing escapes, each attempt put exactly one message on exactly one
      of the two streams, and both streams only grow. */
  lemma {:induction false} HarvestPublishesOncePerAttempt(w: World, env: Env, records: seq<Record>, limit: nat)
    ensures var h := Harvest(w, env, records, limit);
      h.escaped.None? ==>
        && w.primary <= h.world.primary && w.invalid <= h.world.invalid
        && |h.world.primary| + |h.world.invalid| == |w.primary| + |w.invalid| + |h.attempted|
    decreases |records|
  {
    if limit != 0 && records != [] {
      if !RecordSuccessFilter(w.outcomes, records[0]) {
        HarvestPublishesOncePerAttempt(w, env, records[1..], limit);
      } else {
        var step := Attempt(w, env, records[0]);
        if step.escaped.None? {
          HarvestPublishesOncePerAttempt(step.world, env, records[1..], limit - 1);
          AttemptRoutesMessage(w, env, records[0]);
        }
      }
    }
  }

  /** The harvest loop never shuts the validator down. */
  lemma {:induction false} HarvestKeepsValidator(w: World, env: Env, records: seq<Record>, limit: nat)
    ensures Harvest(w, env, records, limit).world.validatorShutdowns == w.validatorShutdowns
    decreases |records|
  {
    if limit != 0 && records != [] {
      if !RecordSuccessFilter(w.outcomes, records[0]) {
        HarvestKeepsValidator(w, env, records[1..], limit);
      } else {
        var step := Attempt(w, env, records[0]);
        AttemptRecordsOutcome(w, env, records[0]);
        AttemptEscapeChangesNothing(w, env, records[0]);
        if step.escaped.None? {
          HarvestKeepsValidator(step.world, env, records[1..], limit - 1);
        }
      }
    }
  }

  // ----- Lemmas about a whole run -----

  /** Configuration: a run exits with a non-zero status exactly when a required
      variable is missing or empty, and then changes nothing; every other ending
      exits with status 0. */
  lemma RunExitStatus(w: World, env: Env, environ: map<string, string>, now: Timestamp, initFailure: Option<InitFailure>)
    ensures var report := Run(w, env, environ, now, initFailure);
      && (ExitStatus(report.result) != 0 <==> exists i :: 0 <= i < |SettingNames| && !IsSet(environ, SettingNames[i]))
      && (report.result.Exited? ==> report.world == w && report.result.status == 1)
  {
  }

  /** Shutdown is reached on every path past the configuration check, the
      normal one and those where an exception escapes: after a run whose clients
      were all built, the primary stream ends with the poison pill and the
      validator was shut down once. When a constructor raised, only the clients
      already built are shut down. */
  lemma RunShutsDown(w: World, env: Env, environ: map<string, string>, now: Timestamp, initFailure: Option<InitFailure>)
    ensures var report := Run(w, env, environ, now, initFailure);
      !report.result.Exited? ==>
        if initFailure.None? then
          && report.world.primary != [] && report.world.primary[|report.world.primary| - 1] == PoisonPill
          && report.world.validatorShutdowns == w.validatorShutdowns + 1
        else
          && report.world.outcomes == w.outcomes && report.world.watermark == w.watermark
          && (report.world.primary == w.primary + [PoisonPill] <==> QueueReady(initFailure.value))
          && (report.world.validatorShutdowns == w.validatorShutdowns + 1 <==> ValidatorReady(initFailure.value))
  {
    if ParseEnvVars(environ, SettingNames).Ok? && initFailure.None? {
      var start := if w.watermark.Some? then w.watermark.value else now;
      var bootstrapped := w.(watermark := Some(start));
      var settings := ParseEnvVars(environ, SettingNames).value;
      FlowLimitConfigured(environ);
      match env.parseInt(settings[FlowLimitName])
      case Err(_) =>
      case Ok(limit) =>
        if 0 <= limit <= MaxSize {
          HarvestKeepsValidator(bootstrapped, env, env.fetch(start), limit);
        }
    }
  }

  /** Watermark bootstrap: once the clients are built, the harvest starts from the
      stored watermark, or from `now` when none is stored, and that start is
      stored before any record is fetched. With no record attempted the
      watermark stays at the start; after a finished run it is the datestamp of
      the last record attempted. */
  lemma RunBootstrapsWatermark(w: World, env: Env, environ: map<string, string>, now: Timestamp)
    requires ParseEnvVars(environ, SettingNames).Ok?
    ensures var report := Run(w, env, environ, now, None);
      && var start := if w.watermark.Some? then w.watermark.value else now;
      && var n := |report.attempted|;
      && report.start == Some(start)
      && (n == 0 ==> report.world.watermark == Some(start))
      && (n > 0 && report.result.Finished? ==> report.world.watermark == Some(report.attempted[n - 1].datestamp))
  {
    var start := if w.watermark.Some? then w.watermark.value else now;
    var bootstrapped := w.(watermark := Some(start));
    FlowLimitConfigured(environ);
    RunHarvests(w, env, environ, now);
    var parsed := env.parseInt(environ[FlowLimitName]);
    if parsed.Ok? && 0 <= parsed.value <= MaxSize {
      HarvestWatermark(bootstrapped, env, env.fetch(start), parsed.value);
    }
  }

  /** A run that attempted records either finished or crashed on one of them.
      After such a crash the watermark is the datestamp of the record before the
      one that raised, or the start when the first record raised, so the record
      that raised is fetched again by the next run. */
  lemma RunWatermarkAfterEscape(w: World, env: Env, environ: map<string, string>, now: Timestamp)
    requires ParseEnvVars(environ, SettingNames).Ok?
    ensures var report := Run(w, env, environ, now, None);
      && var start := if w.watermark.Some? then w.watermark.value else now;
      && var n := |report.attempted|;
      && (n > 0 ==> report.result.Finished? || report.result.Crashed?)
      && (n == 1 && report.result.Crashed? ==> report.world.watermark == Some(start))
      && (n >= 2 && report.result.Crashed? ==> report.world.watermark == Some(report.attempted[n - 2].datestamp))
  {
    var start := if w.watermark.Some? then w.watermark.value else now;
    var bootstrapped := w.(watermark := Some(start));
    FlowLimitConfigured(environ);
    RunHarvests(w, env, environ, now);
    var parsed := env.parseInt(environ[FlowLimitName]);
    if parsed.Ok? && 0 <= parsed.value <= MaxSize {
      HarvestWatermark(bootstrapped, env, env.fetch(start), parsed.value);
    }
  }

  /** The flow limit: a limit that does not parse, is negative or is above
      `sys.maxsize` ends the run before any record is attempted, with the
      exception `int()` or `islice` raised for it; otherwise at most that many
      records are attempted. Either way they come in the order
      the source returns them from the start time, and none was stored as
      Success when the run began. */
  lemma RunRespectsFlowLimit(w: World, env: Env, environ: map<string, string>, now: Timestamp)
    requires ParseEnvVars(environ, SettingNames).Ok? && FlowLimitName in environ
    ensures var report := Run(w, env, environ, now, None);
      && var parsed := env.parseInt(environ[FlowLimitName]);
      && (parsed.Err? || parsed.value < 0 || parsed.value > MaxSize ==>
            report.attempted == [] && report.result.Crashed?)
      && (parsed.Err? ==> report.result == Crashed(parsed.error))
      && (parsed.Ok? && (parsed.value == -1 || parsed.value > MaxSize || parsed.value < -MaxSize - 1) ==>
            report.result == Crashed(IsliceStopError))
      && (parsed.Ok? && -MaxSize - 1 <= parsed.value < -1 ==> report.result == Crashed(IsliceIndicesError))
      && (parsed.Ok? && parsed.value >= 0 ==> |report.attempted| <= parsed.value)
      && IsSubsequence(report.attempted, env.fetch(report.start.value))
      && forall r :: r in report.attempted ==> RecordSuccessFilter(w.outcomes, r)
  {
    var start := if w.watermark.Some? then w.watermark.value else now;
    var bootstrapped := w.(watermark := Some(start));
    FlowLimitConfigured(environ);
    RunHarvests(w, env, environ, now);
    var parsed := env.parseInt(environ[FlowLimitName]);
    if parsed.Ok? && 0 <= parsed.value <= MaxSize {
      HarvestBoundedAndOrdered(bootstrapped, env, env.fetch(start), parsed.value);
      HarvestOnlyUnsucceeded(bootstrapped, env, env.fetch(start), parsed.value);
    }
  }

  /** Every element of a subsequence is an element of the whole. */
  lemma {:induction false} SubsequenceMembers<T>(a: seq<T>, b: seq<T>)
    requires IsSubsequence(a, b)
    ensures forall x :: x in a ==> x in b
    decreases |b|
  {
    if a != [] {
      if IsSubsequence(a, b[1..]) {
        SubsequenceMembers(a, b[1..]);
      } else {
        SubsequenceMembers(a[1..], b[1..]);
        assert forall x :: x in a ==> x == a[0] || x in a[1..];
      }
    }
  }

  /** Watermark monotonicity: when the source only returns records stamped at or
      after the start time, as a datestamp-bounded selective harvest does, a run
      never leaves the watermark before the start, and so never before the
      watermark it found stored. */
  lemma RunWatermarkNeverMovesBack(w: World, env: Env, environ: map<string, string>, now: Timestamp)
    requires ParseEnvVars(environ, SettingNames).Ok?
    requires var start := if w.watermark.Some? then w.watermark.value else now;
      forall r :: r in env.fetch(start) ==> r.datestamp >= start
    ensures var report := Run(w, env, environ, now, None);
      && report.world.watermark.Some?
      && report.world.watermark.value >= report.start.value
      && (w.watermark.Some? ==> report.world.watermark.value >= w.watermark.value)
  {
    var report := Run(w, env, environ, now, None);
    var start := if w.watermark.Some? then w.watermark.value else now;
    RunBootstrapsWatermark(w, env, environ, now);
    RunWatermarkAfterEscape(w, env, environ, now);
    FlowLimitConfigured(environ);
    RunRespectsFlowLimit(w, env, environ, now);
    SubsequenceMembers(report.attempted, env.fetch(start));
    var n := |report.attempted|;
    if n >= 1 {
      assert report.attempted[n - 1] in report.attempted;
    }
    if n >= 2 {
      assert report.attempted[n - 2] in report.attempted;
    }
  }

  /** A run over an empty source publishes only the poison pill, records no
      outcome, and leaves the watermark at its start. */
  lemma RunOverEmptySource(w: World, env: Env, environ: map<string, string>, now: Timestamp)
    requires ParseEnvVars(environ, SettingNames).Ok?
    requires env.fetch(if w.watermark.Some? then w.watermark.value else now) == []
    ensures var report := Run(w, env, environ, now, None);
      && report.attempted == []
      && report.world.outcomes == w.outcomes
      && report.world.invalid == w.invalid
      && report.world.primary == w.primary + [PoisonPill]
      && report.world.watermark == Some(if w.watermark.Some? then w.watermark.value else now)
  {
    FlowLimitConfigured(environ);
    RunHarvests(w, env, environ, now);
  }
}
