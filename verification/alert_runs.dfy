/** The state machine of each (rule, robot) over runs of many ticks. */
module AlertRuns {
  import opened AlertConditions
  import opened AlertEngines
  import opened Alerts
  import opened Deques
  import opened Options
  import Fleet

  const START := Engine(map[], 0, 0)

  function EvalsOf(t: Tick): seq<Eval> {
    TickEvals(t.world, t.rules, t.robots)
  }

  /** The evaluations of one (rule, robot) that the ticks of a run get to. */
  function RunLooks(e: Engine, ticks: seq<Tick>, k: Key): seq<Look> {
    if ticks == [] then [] else
    var most := ticks[..|ticks| - 1];
    RunLooks(e, most, k) + LooksOf(Performed(Run(e, most), EvalsOf(ticks[|ticks| - 1])), k)
  }

  /** Over every run each (rule, robot) is its own state machine on its own evaluations. */
  lemma {:induction false} PairsAreIndependentOverRuns(e: Engine, ticks: seq<Tick>, k: Key)
    ensures StateOf(Run(e, ticks), k) == After(StateOf(e, k), RunLooks(e, ticks, k))
  {
    hide StateOf, LooksOf, Performed, TickEvals;
    if ticks != [] {
      var most, evs := ticks[..|ticks| - 1], EvalsOf(ticks[|ticks| - 1]);
      PairsAreIndependentOverRuns(e, most, k);
      PairsAreIndependent(Run(e, most), evs, k);
      ActsSplit(StateOf(e, k), RunLooks(e, most, k), LooksOf(Performed(Run(e, most), evs), k));
      hide After, Ticked;
    } else {
      hide Ticked;
    }
  }

  // ---------------------------------------------------------------- clocks

  /** The clock is positive, reads the same throughout a tick, no earlier when an alert is sent, and that reading is
      no later than the next tick's. */
  ghost predicate ClockedTicks(ticks: seq<Tick>) {
    && (forall i :: 0 <= i < |ticks| ==> Clocked(ticks[i].world))
    && (forall i, j :: 0 <= i < j < |ticks| ==> NotedBy(ticks[i].world, ticks[j].world.now))
  }

  ghost predicate Clocked(w: World) {
    0.0 < w.now && forall r, id :: w.now <= w.noted(r, id)
  }

  ghost predicate NotedBy(w: World, now: real) {
    forall r, id :: w.noted(r, id) <= now
  }

  /** Rules have different ids, and each robot is listed once. */
  ghost predicate Listed(ticks: seq<Tick>) {
    forall i :: 0 <= i < |ticks| ==> DifferentIds(ticks[i].rules) && Distinct(ticks[i].robots)
  }

  /** An evaluation of a tick reads the clocks of its world. */
  ghost predicate OfWorld(w: World, l: Look) {
    l.now == w.now && exists r, id :: l.noted == w.noted(r, id)
  }

  lemma {:induction false} RuleEvalsOnce(w: World, rule: Rule, robots: seq<string>, k: Key)
    requires Distinct(robots)
    ensures |LooksOf(RuleEvals(w, rule, robots), k)| <= (if k.0 == rule.id && k.1 in robots then 1 else 0)
    ensures forall l :: l in LooksOf(RuleEvals(w, rule, robots), k) ==> OfWorld(w, l)
    decreases |robots|
  {
    if robots != [] {
      var first, rest := EvalOf(w, rule, robots[0]), robots[1..];
      assert first.look.noted == w.noted(rule, robots[0]);
      assert OfWorld(w, first.look);
      RuleEvalsOnce(w, rule, rest, k);
      LooksConcat([first], RuleEvals(w, rule, rest), k);
      assert [first][..0] == [] && LooksOf([], k) == [];
      assert LooksOf([first], k) == if KeyOf(first) == k then [first.look] else [];
    }
  }

  lemma {:induction false} ScopeDistinct(rule: Rule, robots: seq<string>)
    requires Distinct(robots)
    ensures Distinct(InScope(rule, robots))
  {
  }

  lemma {:induction false} TickEvalsOnce(w: World, rules: seq<Rule>, robots: seq<string>, k: Key)
    requires DifferentIds(rules) && Distinct(robots)
    ensures |LooksOf(TickEvals(w, rules, robots), k)| <= 1
    ensures (forall i :: 0 <= i < |rules| ==> rules[i].id != k.0) ==> LooksOf(TickEvals(w, rules, robots), k) == []
    ensures forall l :: l in LooksOf(TickEvals(w, rules, robots), k) ==> OfWorld(w, l)
    decreases |rules|
  {
    hide OfWorld, InScope;
    if rules != [] {
      var first, rest := RuleEvals(w, rules[0], InScope(rules[0], robots)), rules[1..];
      ScopeDistinct(rules[0], robots);
      RuleEvalsOnce(w, rules[0], InScope(rules[0], robots), k);
      TickEvalsOnce(w, rest, robots, k);
      LooksConcat(first, TickEvals(w, rest, robots), k);
      if k.0 == rules[0].id {
        assert forall i :: 0 <= i < |rest| ==> rest[i] == rules[i + 1];
      }
    }
  }

  lemma {:induction false} RuleEvalsHave(w: World, rule: Rule, robots: seq<string>, j: nat) returns (n: nat)
    requires j < |robots|
    ensures n < |RuleEvals(w, rule, robots)| && RuleEvals(w, rule, robots)[n] == EvalOf(w, rule, robots[j])
    decreases j
  {
    if j == 0 {
      n := 0;
    } else {
      var m := RuleEvalsHave(w, rule, robots[1..], j - 1);
      n := m + 1;
    }
  }

  lemma {:induction false} TickEvalsHave(w: World, rules: seq<Rule>, robots: seq<string>, i: nat, robot: string)
                                         returns (n: nat)
    requires i < |rules| && robot in robots && About(rules[i], robot)
    ensures n < |TickEvals(w, rules, robots)| && TickEvals(w, rules, robots)[n] == EvalOf(w, rules[i], robot)
    decreases i
  {
    var first := RuleEvals(w, rules[0], InScope(rules[0], robots));
    if i == 0 {
      var scope := InScope(rules[0], robots);
      assert robot in scope;
      var j :| 0 <= j < |scope| && scope[j] == robot;
      n := RuleEvalsHave(w, rules[0], scope, j);
    } else {
      var m := TickEvalsHave(w, rules[1..], robots, i - 1, robot);
      n := |first| + m;
    }
  }

  /** What a tick gets to is the beginning of what it set out to do. */
  lemma {:induction false} PerformedIsPrefix(e: Engine, evs: seq<Eval>)
    ensures Performed(e, evs) <= evs
    decreases |evs|
  {
    hide Fails, Evaluated;
    if evs != [] && !Fails(e, evs[0]) {
      PerformedIsPrefix(Evaluated(e, evs[0]), evs[1..]);
    }
  }

  lemma {:induction false} PerformedOnce(e: Engine, t: Tick, k: Key)
    requires DifferentIds(t.rules) && Distinct(t.robots)
    ensures var ls := LooksOf(Performed(e, EvalsOf(t)), k); |ls| <= 1 && forall l :: l in ls ==> OfWorld(t.world, l)
  {
    hide Performed, OfWorld, TickEvals, LooksOf;
    var evs, done := EvalsOf(t), Performed(e, EvalsOf(t));
    TickEvalsOnce(t.world, t.rules, t.robots, k);
    PerformedIsPrefix(e, evs);
    assert evs == done + evs[|done|..];
    LooksConcat(done, evs[|done|..], k);
  }

  /** The clock readings of a pair's evaluations are in order over the whole run. */
  lemma {:induction false} RunLooksTimed(e: Engine, ticks: seq<Tick>, k: Key)
    requires ClockedTicks(ticks) && Listed(ticks)
    ensures Timed(RunLooks(e, ticks, k))
    ensures forall l :: l in RunLooks(e, ticks, k) ==> exists i :: 0 <= i < |ticks| && OfWorld(ticks[i].world, l)
  {
    hide LooksOf, Performed, EvalsOf, DifferentIds, Distinct;
    if ticks != [] {
      var most, t := ticks[..|ticks| - 1], ticks[|ticks| - 1];
      RunLooksTimed(e, most, k);
      PerformedOnce(Run(e, most), t, k);
      hide Run;
      var a, b := RunLooks(e, most, k), LooksOf(Performed(Run(e, most), EvalsOf(t)), k);
      forall l | l in a ensures exists i :: 0 <= i < |ticks| && OfWorld(ticks[i].world, l) {
        var i :| 0 <= i < |most| && OfWorld(most[i].world, l);
        assert ticks[i] == most[i];
      }
      forall l | l in a ensures l.noted <= t.world.now {
        var i :| 0 <= i < |most| && OfWorld(most[i].world, l);
        assert NotedBy(ticks[i].world, ticks[|ticks| - 1].world.now);
      }
      TimedConcat(a, b, t.world);
    }
  }

  lemma {:induction false} TimedConcat(a: seq<Look>, b: seq<Look>, w: World)
    requires Timed(a) && |b| <= 1 && Clocked(w) && forall l :: l in b ==> OfWorld(w, l)
    requires forall l :: l in a ==> l.noted <= w.now
    ensures Timed(a + b)
  {
    if b != [] {
      assert b[0] in b && OfWorld(w, b[0]);
      forall i, j | 0 <= i < j < |a + b| ensures (a + b)[i].noted <= (a + b)[j].now {
        if j == |a| {
          assert a[i] in a;
        }
      }
    }
  }

  // ---------------------------------------------------------------- what it means for alerts

  /** Over every run: an alert that fires for a pair had its condition true at an evaluation of that pair at least
      `for_seconds` earlier, and at none since false. */
  lemma {:induction false} RunDebounced(ticks: seq<Tick>, k: Key, i: nat) returns (j: nat)
    requires ClockedTicks(ticks) && Listed(ticks)
    requires i < |RunLooks(START, ticks, k)| && Acts(IDLE, RunLooks(START, ticks, k))[i] == Fire
    ensures var ls := RunLooks(START, ticks, k);
            && j < i && ls[i].now - ls[j].now >= ls[i].rule.forSeconds
            && HeldFrom(IDLE, ls[..i + 1], j) && Hit(After(IDLE, ls[..i]), ls[i]) == Some(true)
  {
    RunLooksTimed(START, ticks, k);
    hide RunLooks, Timed;
    j := Debounced(IDLE, RunLooks(START, ticks, k), i);
  }

  /** Over every run a pair's alerts and resolutions balance against its state in the engine. */
  lemma {:induction false} RunAlternates(ticks: seq<Tick>, k: Key)
    requires ClockedTicks(ticks) && Listed(ticks)
    ensures var acts := Acts(IDLE, RunLooks(START, ticks, k));
            Count(acts, Fire) == Count(acts, Act.Resolve) + FiringCount(StateOf(Run(START, ticks), k))
  {
    RunLooksTimed(START, ticks, k);
    PairsAreIndependentOverRuns(START, ticks, k);
    hide RunLooks, Timed, Run;
    FiresAlternate(IDLE, RunLooks(START, ticks, k));
  }

  /** Over every run: from the tick at which a pair fired, with no resolution since, it was notified at most
      1 + floor(L / cooldown) times in a time L. */
  lemma {:induction false} RunCooldownBounds(ticks: seq<Tick>, k: Key, before: seq<Look>, l: Look, later: seq<Look>,
                                             cooldown: real)
    requires ClockedTicks(ticks) && Listed(ticks) && RunLooks(START, ticks, k) == before + [l] + later
    requires CoolsDown(later, cooldown) && cooldown > 0.0 && later != []
    requires Looked(After(IDLE, before), l).1 == Fire
    requires Count(Acts(Looked(After(IDLE, before), l).0, later), Act.Resolve) == 0
    ensures Notifications([Fire] + Acts(Looked(After(IDLE, before), l).0, later))
              <= 1 + ((later[|later| - 1].now - l.now) / cooldown).Floor
  {
    RunLooksTimed(START, ticks, k);
    hide RunLooks, Timed, Looked, After, Acts;
    CooldownBounds(IDLE, before, l, later, cooldown);
  }

  // ---------------------------------------------------------------- from samples to alerts

  /** A tick whose rules all have their numbers gets to all of them. */
  lemma {:induction false} AllPerformed(e: Engine, evs: seq<Eval>)
    requires forall ev :: ev in evs ==> HasItsNumber(ev.look.rule)
    ensures Performed(e, evs) == evs
    decreases |evs|
  {
    hide Evaluated, HasItsNumber;
    if evs != [] {
      NumberedNeverFails(e, evs[0]);
      AllPerformed(Evaluated(e, evs[0]), evs[1..]);
    }
  }

  lemma {:induction false} LookIsThere(evs: seq<Eval>, n: nat, k: Key)
    requires n < |evs| && KeyOf(evs[n]) == k
    ensures evs[n].look in LooksOf(evs, k)
  {
    if n < |evs| - 1 {
      LookIsThere(evs[..|evs| - 1], n, k);
    }
  }

  /** Every tick that has the rule, the robot, and numbers for its threshold rules. */
  ghost predicate Covers(t: Tick, rule: Rule, robot: string) {
    && DifferentIds(t.rules) && Distinct(t.robots) && (forall r :: r in t.rules ==> HasItsNumber(r))
    && rule in t.rules && robot in t.robots && About(rule, robot)
  }

  /** A tick looks at a robot once for every rule about it, at the sample of that moment. */
  lemma {:induction false} TickLooksOnce(e: Engine, t: Tick, rule: Rule, robot: string)
    requires Covers(t, rule, robot)
    ensures LooksOf(Performed(e, EvalsOf(t)), (rule.id, robot)) == [EvalOf(t.world, rule, robot).look]
  {
    hide Performed, LooksOf, TickEvals, HasItsNumber;
    var i :| 0 <= i < |t.rules| && t.rules[i] == rule;
    var evs, k := EvalsOf(t), (rule.id, robot);
    TickEvalsOf(t.world, t.rules, t.robots);
    AllPerformed(e, evs);
    var n := TickEvalsHave(t.world, t.rules, t.robots, i, robot);
    TickEvalsOnce(t.world, t.rules, t.robots, k);
    LookIsThere(evs, n, k);
    OnlyOne(LooksOf(evs, k), evs[n].look);
  }

  lemma {:induction false} OnlyOne(ls: seq<Look>, l: Look)
    requires |ls| <= 1 && l in ls
    ensures ls == [l]
  {
  }

  /** Rule and robot of this key meet nowhere in the tick. */
  predicate Apart(t: Tick, k: Key) {
    forall r :: r in t.rules && r.id == k.0 ==> !About(r, k.1) || k.1 !in t.robots
  }

  lemma {:induction false} TickEvalsNone(w: World, rules: seq<Rule>, robots: seq<string>, k: Key)
    requires Distinct(robots)
    requires forall r :: r in rules && r.id == k.0 ==> !About(r, k.1) || k.1 !in robots
    ensures LooksOf(TickEvals(w, rules, robots), k) == []
    decreases |rules|
  {
    if rules != [] {
      var first, rest := RuleEvals(w, rules[0], InScope(rules[0], robots)), rules[1..];
      assert rules[0] in rules;
      ScopeDistinct(rules[0], robots);
      assert k.0 == rules[0].id ==> k.1 !in InScope(rules[0], robots);
      RuleEvalsOnce(w, rules[0], InScope(rules[0], robots), k);
      TickEvalsNone(w, rest, robots, k);
      hide InScope, OfWorld;
      LooksConcat(first, TickEvals(w, rest, robots), k);
    }
  }

  /** Over every run a rule never looks at a robot it is not about, or that is not there, and leaves no trace of it. */
  lemma {:induction false} RunLooksNowhereElse(ticks: seq<Tick>, k: Key)
    requires forall t :: t in ticks ==> Distinct(t.robots) && Apart(t, k)
    ensures RunLooks(START, ticks, k) == [] && StateOf(Run(START, ticks), k) == IDLE
  {
    RunLooksNone(START, ticks, k);
    PairsAreIndependentOverRuns(START, ticks, k);
  }

  lemma {:induction false} RunLooksNone(e: Engine, ticks: seq<Tick>, k: Key)
    requires forall t :: t in ticks ==> Distinct(t.robots) && Apart(t, k)
    ensures RunLooks(e, ticks, k) == []
  {
    hide LooksOf, Performed, TickEvals, Run, Apart, Distinct;
    if ticks != [] {
      var most, t := ticks[..|ticks| - 1], ticks[|ticks| - 1];
      assert t in ticks && forall x :: x in most ==> x in ticks;
      RunLooksNone(e, most, k);
      NothingPerformed(Run(e, most), t, k);
    }
  }

  lemma {:induction false} NothingPerformed(e: Engine, t: Tick, k: Key)
    requires Distinct(t.robots) && Apart(t, k)
    ensures LooksOf(Performed(e, EvalsOf(t)), k) == []
  {
    hide Performed, TickEvals, LooksOf;
    var evs, done := EvalsOf(t), Performed(e, EvalsOf(t));
    TickEvalsNone(t.world, t.rules, t.robots, k);
    PerformedIsPrefix(e, evs);
    assert evs == done + evs[|done|..];
    LooksConcat(done, evs[|done|..], k);
  }

  lemma {:induction false} LooksAreTicks(e: Engine, ticks: seq<Tick>, rule: Rule, robot: string)
    requires forall t :: t in ticks ==> Covers(t, rule, robot)
    ensures var ls := RunLooks(e, ticks, (rule.id, robot));
            |ls| == |ticks| && forall i :: 0 <= i < |ticks| ==> ls[i] == EvalOf(ticks[i].world, rule, robot).look
  {
    hide Performed, LooksOf, EvalsOf, Covers, EvalOf, Run;
    if ticks != [] {
      var most, t := ticks[..|ticks| - 1], ticks[|ticks| - 1];
      assert t in ticks && forall x :: x in most ==> x in ticks;
      LooksAreTicks(e, most, rule, robot);
      TickLooksOnce(Run(e, most), t, rule, robot);
      var ls := RunLooks(e, most, (rule.id, robot));
      assert RunLooks(e, ticks, (rule.id, robot)) == ls + [EvalOf(t.world, rule, robot).look];
    }
  }

  /** Tick `j` of the run comes the rule's `for_seconds` after the first, if it is a later one. */
  predicate DueAt(ticks: seq<Tick>, j: nat, rule: Rule)
    requires j < |ticks|
  {
    j > 0 && ticks[j].world.now - ticks[0].world.now >= rule.forSeconds
  }

  /** The looks of a pair at every tick of a run. */
  ghost predicate AreTicks(ls: seq<Look>, ticks: seq<Tick>, rule: Rule, robot: string) {
    |ls| == |ticks| && forall i :: 0 <= i < |ticks| ==> ls[i] == EvalOf(ticks[i].world, rule, robot).look
  }

  lemma {:induction false} PairRuns(ticks: seq<Tick>, rule: Rule, robot: string) returns (ls: seq<Look>)
    requires ClockedTicks(ticks) && forall t :: t in ticks ==> Covers(t, rule, robot)
    ensures AreTicks(ls, ticks, rule, robot) && Timed(ls)
    ensures StateOf(Run(START, ticks), (rule.id, robot)) == After(IDLE, ls)
  {
    var k := (rule.id, robot);
    ls := RunLooks(START, ticks, k);
    LooksAreTicks(START, ticks, rule, robot);
    assert Listed(ticks) by {
      forall i | 0 <= i < |ticks| ensures DifferentIds(ticks[i].rules) && Distinct(ticks[i].robots) {
        assert Covers(ticks[i], rule, robot);
      }
    }
    RunLooksTimed(START, ticks, k);
    PairsAreIndependentOverRuns(START, ticks, k);
  }

  ghost predicate NoticedThroughout(ticks: seq<Tick>, rule: Rule, robot: string) {
    forall i :: 0 <= i < |ticks| ==> Noticed(rule, ticks[i].world.sample(rule, robot))
  }

  ghost predicate NeverNoticed(ticks: seq<Tick>, rule: Rule, robot: string) {
    forall i :: 0 <= i < |ticks| ==> !Noticed(rule, ticks[i].world.sample(rule, robot))
  }

  /** Over every run of ticks through which a rule stays as it is and what it is there to notice is so of the robot's
      sample: there is no alert before the first tick that comes `for_seconds` after the first one, and there is one
      after that tick. */
  lemma {:induction false} RunFiresWhenNoticed(ticks: seq<Tick>, rule: Rule, robot: string)
    requires ticks != [] && ClockedTicks(ticks) && forall t :: t in ticks ==> Covers(t, rule, robot)
    requires NoticedThroughout(ticks, rule, robot)
    requires forall j :: 0 <= j < |ticks| - 1 ==> !DueAt(ticks, j, rule)
    ensures Firing(StateOf(Run(START, ticks), (rule.id, robot))) <==> DueAt(ticks, |ticks| - 1, rule)
  {
    var ls := PairRuns(ticks, rule, robot);
    LooksDue(ticks, ls, rule, robot);
    LooksNoticed(ticks, ls, rule, robot);
    hide Run, Timed, Noticed, Covers, ClockedTicks, EvalOf, AllNoticed, FirstDue, StillWaiting, DueAt, After, AreTicks;
    if DueAt(ticks, |ticks| - 1, rule) {
      FiresWhenNoticed(IDLE, rule, ls, |ls| - 1);
      assert ls[..|ls| - 1 + 1] == ls;
    } else {
      Waits(IDLE, rule, ls);
    }
  }

  lemma {:induction false} LooksNoticed(ticks: seq<Tick>, ls: seq<Look>, rule: Rule, robot: string)
    requires AreTicks(ls, ticks, rule, robot) && NoticedThroughout(ticks, rule, robot)
    ensures AllNoticed(rule, ls)
  {
    hide Noticed;
    forall l | l in ls ensures l.rule == rule && Noticed(rule, l.sample) {
      var i :| 0 <= i < |ls| && ls[i] == l;
    }
  }

  lemma {:induction false} LooksDue(ticks: seq<Tick>, ls: seq<Look>, rule: Rule, robot: string)
    requires AreTicks(ls, ticks, rule, robot) && ticks != []
    requires forall j :: 0 <= j < |ticks| - 1 ==> !DueAt(ticks, j, rule)
    ensures |ls| == |ticks|
    ensures DueAt(ticks, |ticks| - 1, rule) ==> FirstDue(ls, |ls| - 1, rule.forSeconds)
    ensures !DueAt(ticks, |ticks| - 1, rule) ==> StillWaiting(ls, rule.forSeconds)
  {
    forall i | 0 < i < |ls| - 1 ensures ls[i].now - ls[0].now < rule.forSeconds {
      assert !DueAt(ticks, i, rule);
    }
  }

  /** Over every run of ticks through which it is not so, there is none. */
  lemma {:induction false} RunSilentWhenNotNoticed(ticks: seq<Tick>, rule: Rule, robot: string)
    requires ClockedTicks(ticks) && forall t :: t in ticks ==> Covers(t, rule, robot)
    requires NeverNoticed(ticks, rule, robot)
    ensures !Firing(StateOf(Run(START, ticks), (rule.id, robot)))
  {
    var ls := PairRuns(ticks, rule, robot);
    hide Run, Timed, Noticed, Covers, ClockedTicks;
    assert NoneNoticed(rule, ls) by {
      forall l | l in ls ensures l.rule == rule && !Noticed(rule, l.sample) {
        var i :| 0 <= i < |ls| && ls[i] == l;
      }
    }
    SilentWhenNotNoticed(IDLE, rule, ls);
  }
}
