/** The adaptor's mutable state and its step-by-step procedures, each proved to
    do what the corresponding function of `Processing` or `Driver` says. */
module Adaptor {
  import opened Wrappers
  import opened JsonValues
  import opened Types
  import opened Config
  import opened Decoration
  import opened Relocation
  import opened Processing
  import opened Driver

  /** The state the adaptor reads and writes through its clients: the
      watermark and processed-records tables, the primary and invalid
      streams, and how often the validator was shut down. */
  class Adaptor {
    var watermark: Option<Timestamp>
    var outcomes: map<string, Outcome>
    var primary: seq<Payload>
    var invalid: seq<Option<string>>
    var validatorShutdowns: nat

    /** The state as a value. */
    function State(): World
      reads this
    {
      World(watermark, outcomes, primary, invalid, validatorShutdowns)
    }

    constructor (w: World)
      ensures State() == w
    {
      watermark := w.watermark;
      outcomes := w.outcomes;
      primary := w.primary;
      invalid := w.invalid;
      validatorShutdowns := w.validatorShutdowns;
    }

    /** `_process_record`: the locals `message`, `status`, `reason` and
        `errCode` are updated step by step; `raised` holds the text of the
        exception in flight, and each nested block runs only while it is `None`. */
    method ProcessRecord(env: Env, record: Record) returns (escaped: Option<string>)
      modifies this
      ensures Step(State(), escaped) == Attempt(old(State()), env, record)
    {
      var message: Option<string> := None;
      var status, reason := Success, NoReason;
      var errCode: Option<ErrorCode> := None;
      var raised: Option<string> := None;

      var identifiers := MetadataIdentifiers(record);
      if identifiers.Err? {
        raised := Some(identifiers.error);
      } else {
        var locations, _ := PushFilesToS3(env, identifiers.value);
        if locations.Err? {
          raised := Some(locations.error);
        } else {
          var generated := env.generate(record, locations.value);
          if generated.Err? {
            raised := Some(generated.error);
          } else {
            message := Some(generated.value);
            var parsed := env.codec.parse(generated.value);
            if parsed.Err? {
              errCode := Some(GenErr007);
              raised := Some(parsed.error);
            } else {
              message := Some(env.codec.dump(parsed.value));
              var invalidity := env.validate(message.value);
              if invalidity.Some? {
                errCode := Some(GenErr001);
                raised := invalidity;
              } else {
                var refused := env.publish(message.value);
                if refused.Some? {
                  raised := refused;
                } else {
                  primary := primary + [Message(message.value)];
                }
              }
            }
          }
        }
      }

      if raised.Some? {
        if errCode.None? {
          errCode := Some(GenErr009);
        }
        status, reason := Failure, raised.value;
        var decorated := DecorateMessageWithError(env.codec, message, errCode.value.Text(), reason);
        if decorated.Err? {
          return Some(decorated.error);
        }
        message := decorated.value;
        var refused := env.publishInvalid(message);
        if refused.Some? {
          return refused;
        }
        invalid := invalid + [message];
      }

      outcomes := outcomes[record.identifier := Outcome(StoredMessage(message), status, reason)];
      watermark := Some(record.datestamp);
      escaped := None;
    }

    /** The `for` loop of `main` over `islice(filter(...), limit)`: `taken`
        counts what `islice` has passed on, and no further record is looked at
        once it reaches `limit`. */
    method HarvestRecords(env: Env, records: seq<Record>, limit: nat) returns (attempted: seq<Record>, escaped: Option<string>)
      modifies this
      ensures Harvested(State(), attempted, escaped) == Harvest(old(State()), env, records, limit)
    {
      attempted, escaped := [], None;
      var i, taken := 0, 0;
      while taken < limit && i < |records|
        invariant 0 <= i <= |records| && taken <= limit
        invariant escaped.None?
        invariant var h := Harvest(State(), env, records[i..], limit - taken);
          Harvest(old(State()), env, records, limit) == Harvested(h.world, attempted + h.attempted, h.escaped)
      {
        var record := records[i];
        assert records[i..][1..] == records[i + 1..];
        i := i + 1;
        if RecordSuccessFilter(outcomes, record) {
          taken := taken + 1;
          attempted := attempted + [record];
          escaped := ProcessRecord(env, record);
          if escaped.Some? {
            return;
          }
        }
      }
      assert attempted + [] == attempted;
    }

    /** `_shutdown`. */
    method Shutdown(queueReady: bool, validatorReady: bool)
      modifies this
      ensures State() == ShutdownEffect(old(State()), queueReady, validatorReady)
    {
      if queueReady {
        primary := primary + [PoisonPill];
      }
      if validatorReady {
        validatorShutdowns := validatorShutdowns + 1;
      }
    }

    /** `main` run under the `__main__` guard. */
    method RunAdaptor(env: Env, environ: map<string, string>, now: Timestamp, initFailure: Option<InitFailure>) returns (result: RunResult)
      modifies this
      ensures State() == Run(old(State()), env, environ, now, initFailure).world
      ensures result == Run(old(State()), env, environ, now, initFailure).result
    {
      var settings := ParseEnvVars(environ, SettingNames);
      if settings.Err? {
        return Exited(1);
      }
      if initFailure.Some? {
        Shutdown(QueueReady(initFailure.value), ValidatorReady(initFailure.value));
        return Crashed(initFailure.value.error);
      }

      var start: Timestamp;
      if watermark.None? {
        start := now;
        watermark := Some(start);
      } else {
        start := watermark.value;
      }

      FlowLimitConfigured(environ);
      var limit := env.parseInt(settings.value[FlowLimitName]);
      if limit.Err? {
        Shutdown(true, true);
        return Crashed(limit.error);
      }
      if limit.value < 0 || limit.value > MaxSize {
        Shutdown(true, true);
        return Crashed(IsliceError(limit.value));
      }

      var records := env.fetch(start);
      var attempted, escaped := HarvestRecords(env, records, limit.value);
      Shutdown(true, true);
      result := if escaped.Some? then Crashed(escaped.value) else Finished;
    }
  }
}
