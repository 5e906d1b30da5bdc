// Whole sequential runs of the processor object against the stateless specification.
module Runs {
  import opened Attributes
  import opened Enforcement
  import opened Processor
  import opened Registry
  import opened Settings

  datatype Request = Ask(metric: string, a: Attribute) | Tick

  ghost function EventOf(env: Env, r: Request): Event {
    match r
    case Ask(metric, a) => Call(Key(metric, a.key), env.xx(AsString(a.value)))
    case Tick => Rotation
  }

  ghost function EventsOf(env: Env, requests: seq<Request>): seq<Event> {
    seq(|requests|, i requires 0 <= i < |requests| => EventOf(env, requests[i]))
  }

  // From a new processor, every answer of shouldDrop is the one the specification reads off the
  // calls and rotations before it: shards, eviction, cached estimates and the live map do not show.
  method Answer(env: Env, cfg: Config, requests: seq<Request>) returns (answers: seq<bool>)
    ensures |answers| == |requests|
    ensures forall i :: 0 <= i < |requests| && requests[i].Ask? ==>
      var Ask(metric, a) := requests[i];
      answers[i] <==> Specified(env.est, cfg, EventsOf(env, requests[..i]), Key(metric, a.key), env.xx(AsString(a.value)))
  {
    hide Specified, Run, CardinalityProcessor.Valid;
    var p := new CardinalityProcessor(env, cfg);
    answers := [];
    assert EventsOf(env, requests[..0]) == [];
    assert p.View().live == Run(env.est, cfg, []) by {
      EmptyRun(env, cfg);
    }
    for i := 0 to |requests|
      invariant p.Valid() && fresh(p.Repr) && p.env == env && p.cfg == cfg
      invariant p.View().live == Run(env.est, cfg, EventsOf(env, requests[..i]))
      invariant |answers| == i
      invariant forall j :: 0 <= j < i && requests[j].Ask? ==>
        var Ask(metric, a) := requests[j];
        answers[j] <==> Specified(env.est, cfg, EventsOf(env, requests[..j]), Key(metric, a.key), env.xx(AsString(a.value)))
    {
      ghost var events := EventsOf(env, requests[..i]);
      assert EventsOf(env, requests[..i + 1]) == events + [EventOf(env, requests[i])];
      RunSnoc(env.est, cfg, events, EventOf(env, requests[i]));
      var answer := false;
      match requests[i] {
        case Ask(metric, a) =>
          DecisionsAreSpecified(env.est, cfg, events, Key(metric, a.key), env.xx(AsString(a.value)));
          answer := p.ShouldDrop(metric, a);
        case Tick =>
          p.Rotate();
      }
      answers := answers + [answer];
    }
  }

  lemma EmptyRun(env: Env, cfg: Config)
    ensures Run(env.est, cfg, []) == map[]
  {
  }
}
