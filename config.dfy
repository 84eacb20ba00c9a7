/** The configuration check performed at start-up. */
module Config {
  import opened Wrappers

  const FlowLimitName := "EPRINTS_FLOW_LIMIT"

  /** The variables the adaptor reads at start-up, in the order it lists them. */
  const SettingNames: seq<string> := [
    "EPRINTS_JISC_ID",
    "EPRINTS_ORGANISATION_NAME",
    "EPRINTS_EPRINTS_URL",
    "EPRINTS_DYNAMODB_WATERMARK_TABLE_NAME",
    "EPRINTS_DYNAMODB_PROCESSED_TABLE_NAME",
    "EPRINTS_S3_BUCKET_NAME",
    "EPRINTS_OUTPUT_KINESIS_STREAM_NAME",
    "EPRINTS_OUTPUT_KINESIS_INVALID_STREAM_NAME",
    "EPRINTS_API_SPECIFICATION_VERSION",
    FlowLimitName
  ]

  /** A variable counts as set when it is present and not the empty string. */
  predicate IsSet(environ: map<string, string>, name: string) {
    name in environ && environ[name] != ""
  }

  /** Reads every name from the environment. Succeeds with all of them mapped to
      their values when each is set; otherwise the process exits with status 1,
      modelled as `Err` carrying the names that were missing or empty. */
  function ParseEnvVars(environ: map<string, string>, names: seq<string>): (r: Result<map<string, string>, set<string>>)
    ensures r.Ok? <==> forall i :: 0 <= i < |names| ==> IsSet(environ, names[i])
    ensures r.Ok? ==> r.value.Keys == set i | 0 <= i < |names| :: names[i]
    ensures r.Ok? ==> forall n :: n in r.value ==> n in environ && r.value[n] == environ[n] != ""
    ensures r.Err? ==> r.error != {} && forall n :: n in r.error <==> n in names && !IsSet(environ, n)
  {
    var missing := set n | n in names && !IsSet(environ, n);
    if missing == {} then
      assert forall i :: 0 <= i < |names| ==> names[i] !in missing;
      Ok(map n | n in names && n in environ :: environ[n])
    else
      Err(missing)
  }
}
