// The validated configuration, and the library functions the model leaves abstract.
module Settings {
  import opened Hashing
  import opened SlidingWindow

  datatype Key = Key(metric: string, attr: string)

  datatype Mode = TagOnly | OverflowAttribute | StripAndReaggregate

  // A count of 0 disables the tracker cap, the offender list and the log cap respectively.
  datatype Config = Config(
    maxDelta: nat,
    overrides: map<string, nat>,
    maxTrackers: nat,
    topOffenders: nat,
    dropLogMax: nat,
    protected: set<string>,
    mode: Mode)

  // `est` is the estimator of the sketches, `xx` xxhash and `route` the seeded maphash of a metric
  // name: any three functions.
  datatype Env = Env(est: Estimator, xx: StringHash, route: string -> Hash)

  const NUM_SHARDS: nat := 256

  function Bucket(env: Env, metric: string): (b: nat)
    ensures b < NUM_SHARDS
  {
    env.route(metric) as int % NUM_SHARDS
  }

  function Limit(cfg: Config, metric: string): nat {
    if metric in cfg.overrides then cfg.overrides[metric] else cfg.maxDelta
  }
}
