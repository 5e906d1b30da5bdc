// The warning counters under concurrency. A drop is counted in dropsThisEpoch by one atomic step and
// asks for its warning through dropLogCount by another; a rotation takes the two counters one after
// the other. What the sequential account promises holds per epoch of dropLogCount; the difference the
// summary reports says nothing about suppression.
module WarningCounters {
  import opened Interleaving
  import opened Wrappers

  // The rotator between its two swaps holds the drops it has taken.
  datatype Taking = Idle | Took(total: nat)

  datatype Counters = Counters(
    between: set<Tid>,      // goroutines that have counted a drop and not yet asked for its warning
    drops: nat,             // dropsThisEpoch
    logged: nat,            // dropLogCount
    taking: Taking,
    asked: nat,             // warnings asked for since dropLogCount was last taken
    warnings: nat,          // warnings emitted since then
    suppressed: seq<int>)   // what each rotation so far has computed for its summary

  datatype Act = CountDrop(t: Tid) | AskWarning(t: Tid) | TakeDrops | TakeLogged

  const START := Counters({}, 0, 0, Idle, 0, 0, [])

  predicate CanAct(s: Counters, a: Act) {
    match a
    case CountDrop(t) => t !in s.between
    case AskWarning(t) => t in s.between
    case TakeDrops => s.taking.Idle?
    case TakeLogged => s.taking.Took?
  }

  function After(cap: nat, s: Counters, a: Act): Counters
    requires CanAct(s, a)
  {
    match a
    case CountDrop(t) => s.(between := s.between + {t}, drops := s.drops + 1)
    case AskWarning(t) =>
      var logged := if cap == 0 then s.logged else s.logged + 1;
      s.(between := s.between - {t}, logged := logged, asked := s.asked + 1,
         warnings := if cap == 0 || logged <= cap then s.warnings + 1 else s.warnings)
    case TakeDrops => s.(taking := Took(s.drops), drops := 0)
    case TakeLogged =>
      s.(taking := Idle, suppressed := s.suppressed + [s.taking.total - s.logged],
         logged := 0, asked := 0, warnings := 0)
  }

  function Sum(xs: seq<int>): int {
    if xs == [] then 0 else Sum(xs[..|xs| - 1]) + xs[|xs| - 1]
  }

  ghost predicate Accounted(cap: nat, s: Counters) {
    && s.warnings == (if cap == 0 || s.asked < cap then s.asked else cap)
    && s.logged == (if cap == 0 then 0 else s.asked)
    && (cap > 0 ==>
          Sum(s.suppressed) + (if s.taking.Took? then s.taking.total else 0) + s.drops - s.logged == |s.between|)
  }

  lemma SumSnoc(xs: seq<int>, x: int)
    ensures Sum(xs + [x]) == Sum(xs) + x
  {
    assert (xs + [x])[..|xs|] == xs;
  }

  lemma AccountedStep(cap: nat, s: Counters, a: Act)
    requires Accounted(cap, s) && CanAct(s, a)
    ensures Accounted(cap, After(cap, s, a))
  {
    if a.TakeLogged? {
      SumSnoc(s.suppressed, s.taking.total - s.logged);
    }
  }

  // The counters after an interleaving of drops and rotations, if each step can be taken in its turn.
  function Interleave(cap: nat, acts: seq<Act>): Option<Counters> {
    if acts == [] then Some(START) else
    match Interleave(cap, acts[..|acts| - 1])
    case None => None
    case Some(s) => if CanAct(s, acts[|acts| - 1]) then Some(After(cap, s, acts[|acts| - 1])) else None
  }

  // In every interleaving, the warnings since dropLogCount was last taken are as many as were asked
  // for, up to the cap; and with a cap, all that the summaries ever reported as suppressed comes to
  // the drops counted but not yet asked about, less what the counters still hold: to 0 when nothing
  // is under way and they agree, however many warnings were suppressed.
  lemma {:induction false} WarningsAlways(cap: nat, acts: seq<Act>)
    requires Interleave(cap, acts).Some?
    ensures Accounted(cap, Interleave(cap, acts).value)
  {
    if acts != [] {
      hide Accounted, CanAct, After;
      var rest := acts[..|acts| - 1];
      WarningsAlways(cap, rest);
      AccountedStep(cap, Interleave(cap, rest).value, acts[|acts| - 1]);
    } else {
      assert Accounted(cap, START);
    }
  }

  // In every interleaving, the summary a rotation is about to make appears just when warnings were
  // suppressed if and only if: with a cap, the drops it took exceed the warnings asked for exactly when
  // these exceed the cap; without one, it took no drops.
  lemma SummaryRightExactly(cap: nat, acts: seq<Act>)
    requires Interleave(cap, acts).Some? && Interleave(cap, acts).value.taking.Took?
    ensures
      var s := Interleave(cap, acts).value;
      (s.taking.total - s.logged > 0 <==> s.warnings < s.asked)
        <==> if cap == 0 then s.taking.total == 0 else (s.taking.total > s.asked <==> s.asked > cap)
  {
    WarningsAlways(cap, acts);
  }

  // A rotation with one drop between its two swaps, and the next.
  function SplitRotation(t: Tid): seq<Act> {
    [TakeDrops, CountDrop(t), AskWarning(t), TakeLogged, TakeDrops, TakeLogged]
  }

  // The second reports one suppressed warning, with any cap, although the warning was emitted.
  lemma SplitRotationReports(cap: nat, t: Tid)
    requires cap > 0
    ensures Interleave(cap, SplitRotation(t)[..3]) == Some(Counters({}, 1, 1, Took(0), 1, 1, []))
    ensures Interleave(cap, SplitRotation(t)) == Some(Counters({}, 0, 0, Idle, 0, 0, [-1, 1]))
  {
    hide Interleave;
    var acts := SplitRotation(t);
    assert {} + {t} == {t} && {t} - {t} == {};
    assert [] + [-1] == [-1] && [-1] + [1] == [-1, 1];
    StartInterleaves(cap, acts);
    ExtendBy(cap, acts, 0, START);
    ExtendBy(cap, acts, 1, Counters({}, 0, 0, Took(0), 0, 0, []));
    ExtendBy(cap, acts, 2, Counters({t}, 1, 0, Took(0), 0, 0, []));
    ExtendBy(cap, acts, 3, Counters({}, 1, 1, Took(0), 1, 1, []));
    ExtendBy(cap, acts, 4, Counters({}, 1, 0, Idle, 0, 0, [-1]));
    ExtendBy(cap, acts, 5, Counters({}, 0, 0, Took(1), 0, 0, [-1]));
    assert acts[..6] == acts;
  }

  lemma ExtendBy(cap: nat, acts: seq<Act>, n: nat, s: Counters)
    requires n < |acts| && Interleave(cap, acts[..n]) == Some(s) && CanAct(s, acts[n])
    ensures Interleave(cap, acts[..n + 1]) == Some(After(cap, s, acts[n]))
  {
    hide CanAct, After;
    assert acts[..n + 1][..n] == acts[..n];
  }

  lemma StartInterleaves(cap: nat, acts: seq<Act>)
    ensures Interleave(cap, acts[..0]) == Some(START)
  {
  }
}
