/** `AlertEngine.tick`: every rule over the robots in its scope, one state machine per (rule, robot). */
module AlertEngines {
  import opened Alerts
  import opened Options
  import Fleet

  type Key = (int, string)

  datatype Eval = Eval(robot: string, look: Look)

  datatype Engine = Engine(states: map<Key, RuleState>, fired: nat, resolved: nat)

  function KeyOf(ev: Eval): Key {
    (ev.look.rule.id, ev.robot)
  }

  function StateOf(e: Engine, k: Key): RuleState {
    if k in e.states then e.states[k] else IDLE
  }

  function Evaluated(e: Engine, ev: Eval): Engine {
    var (st, act) := Looked(StateOf(e, KeyOf(ev)), ev.look);
    Engine(e.states[KeyOf(ev) := st],
           e.fired + (if act == Fire then 1 else 0),
           e.resolved + (if act == Act.Resolve then 1 else 0))
  }

  /** The rule lacks the number it compares with. */
  predicate Fails(e: Engine, ev: Eval) {
    Hit(StateOf(e, KeyOf(ev)), ev.look).None?
  }

  /** A tick stops at the first evaluation that fails. */
  function Ticked(e: Engine, evs: seq<Eval>): (Engine, bool)
    decreases |evs|
  {
    if evs == [] then (e, true)
    else if Fails(e, evs[0]) then (Evaluated(e, evs[0]), false)
    else Ticked(Evaluated(e, evs[0]), evs[1..])
  }

  /** A rule without a robot is about all of them; a rule about an unknown robot is about none. */
  function InScope(rule: Rule, robots: seq<string>): seq<string> {
    if rule.robot == "" then robots
    else if rule.robot in robots then [rule.robot]
    else []
  }

  /** What one tick looks at: a sample per rule and robot, one reading of the clock for the tick, and one
      reading per alert sent. */
  datatype World = World(sample: (Rule, string) -> Sample, now: real, noted: (Rule, string) -> real)

  function EvalOf(w: World, rule: Rule, robot: string): Eval {
    Eval(robot, Look(rule, w.sample(rule, robot), w.now, w.noted(rule, robot)))
  }

  function RuleEvals(w: World, rule: Rule, robots: seq<string>): seq<Eval> {
    if robots == [] then [] else [EvalOf(w, rule, robots[0])] + RuleEvals(w, rule, robots[1..])
  }

  function TickEvals(w: World, rules: seq<Rule>, robots: seq<string>): seq<Eval> {
    if rules == [] then []
    else RuleEvals(w, rules[0], InScope(rules[0], robots)) + TickEvals(w, rules[1..], robots)
  }

  lemma {:induction false} TickedConcat(e: Engine, a: seq<Eval>, b: seq<Eval>)
    ensures Ticked(e, a + b) == if Ticked(e, a).1 then Ticked(Ticked(e, a).0, b) else Ticked(e, a)
    decreases |a|
  {
    if a == [] {
      assert a + b == b;
    } else if !Fails(e, a[0]) {
      assert (a + b)[1..] == a[1..] + b;
      TickedConcat(Evaluated(e, a[0]), a[1..], b);
    }
  }

  /** A threshold rule without its number, looking at a number, ends the tick, unless it is firing and has a
      clearing level to compare with: no later rule is evaluated. */
  lemma {:induction false} NumberlessRuleEndsTick(e: Engine, before: seq<Eval>, bad: Eval, later: seq<Eval>)
    requires IsThreshold(bad.look.rule.op) && bad.look.sample.num.Some? && bad.look.rule.value.None?
    requires (bad.look.rule.op == Lt || bad.look.rule.op == Gt) && bad.look.rule.clear.Some? ==>
               !Firing(StateOf(Ticked(e, before).0, KeyOf(bad)))
    ensures !Ticked(e, before + [bad] + later).1
    ensures Ticked(e, before + [bad] + later) == Ticked(e, before + [bad])
  {
    TickedConcat(e, before, [bad]);
    TickedConcat(e, before + [bad], later);
  }

  predicate HasItsNumber(r: Rule) {
    IsThreshold(r.op) ==> r.value.Some?
  }

  /** The rules of a tick carry different ids. */
  predicate DifferentIds(rules: seq<Rule>) {
    forall i, j :: 0 <= i < j < |rules| ==> rules[i].id != rules[j].id
  }

  ghost predicate Completes(e: Engine, w: World, rules: seq<Rule>, robots: seq<string>) {
    Ticked(e, TickEvals(w, rules, robots)).1
  }

  lemma {:induction false} EvaluationsComplete(e: Engine, evs: seq<Eval>)
    requires forall ev :: ev in evs ==> HasItsNumber(ev.look.rule)
    ensures Ticked(e, evs).1
    decreases |evs|
  {
    hide Evaluated, HasItsNumber;
    if evs != [] {
      NumberedNeverFails(e, evs[0]);
      EvaluationsComplete(Evaluated(e, evs[0]), evs[1..]);
    }
  }

  lemma {:induction false} NumberedNeverFails(e: Engine, ev: Eval)
    requires HasItsNumber(ev.look.rule)
    ensures !Fails(e, ev)
  {
  }

  lemma {:induction false} RuleEvalsOf(w: World, rule: Rule, robots: seq<string>)
    ensures forall ev :: ev in RuleEvals(w, rule, robots) ==> ev.look.rule == rule
  {
    if robots != [] {
      RuleEvalsOf(w, rule, robots[1..]);
    }
  }

  lemma {:induction false} TickEvalsOf(w: World, rules: seq<Rule>, robots: seq<string>)
    ensures forall ev :: ev in TickEvals(w, rules, robots) ==> ev.look.rule in rules
  {
    if rules != [] {
      RuleEvalsOf(w, rules[0], InScope(rules[0], robots));
      TickEvalsOf(w, rules[1..], robots);
    }
  }

  /** Evaluations under other ids leave a key's state alone. */
  lemma {:induction false} OtherIdsLeaveAlone(e: Engine, evs: seq<Eval>, k: Key)
    requires forall ev :: ev in evs ==> ev.look.rule.id != k.0
    ensures StateOf(Ticked(e, evs).0, k) == StateOf(e, k)
    decreases |evs|
  {
    hide Looked, Fails;
    if evs != [] && !Fails(e, evs[0]) {
      OtherIdsLeaveAlone(Evaluated(e, evs[0]), evs[1..], k);
    }
  }

  /** Some number for everybody. */
  function Anything(): World {
    World((r: Rule, id: string) => Sample(Some(0.0), "", Fleet.OK, 0.0), 1.0, (r: Rule, id: string) => 1.0)
  }

  /** The rule is about this robot. */
  predicate About(rule: Rule, robot: string) {
    rule.robot == "" || rule.robot == robot
  }

  lemma {:induction false} BadRuleStops(e: Engine, w: World, rules: seq<Rule>, i: nat, robot: string)
    requires i < |rules| && DifferentIds(rules) && !HasItsNumber(rules[i]) && About(rules[i], robot)
    requires w.sample(rules[i], robot).num.Some?
    requires !Firing(StateOf(e, (rules[i].id, robot)))
    ensures !Completes(e, w, rules, [robot])
    decreases i
  {
    var r, robots := rules[i], [robot];
    var first, rest := RuleEvals(w, rules[0], InScope(rules[0], robots)), TickEvals(w, rules[1..], robots);
    TickedConcat(e, first, rest);
    if i == 0 {
      var ev := EvalOf(w, r, robot);
      assert InScope(r, robots) == robots && robots[1..] == [];
      assert RuleEvals(w, r, robots) == [ev];
      NumberlessRuleEndsTick(e, [], ev, []);
      assert [] + [ev] == [ev] && [ev] + [] == [ev];
    } else {
      RuleEvalsOf(w, rules[0], InScope(rules[0], robots));
      OtherIdsLeaveAlone(e, first, (r.id, robot));
      if Ticked(e, first).1 {
        BadRuleStops(Ticked(e, first).0, w, rules[1..], i - 1, robot);
      }
    }
  }

  /** A robot the rule is about; ids are not empty. */
  function SomeRobot(rule: Rule): string {
    if rule.robot == "" then "robot-1" else rule.robot
  }

  /** A tick gets through all its rules, whatever the engine's state, the samples and the robots, if and only if
      every threshold rule has its number. */
  lemma {:induction false} TickCompletesIff(rules: seq<Rule>)
    requires DifferentIds(rules)
    ensures (forall e, w: World, robots :: w.now > 0.0 && "" !in robots ==> Completes(e, w, rules, robots))
            <==> forall i :: 0 <= i < |rules| ==> HasItsNumber(rules[i])
  {
    if i :| 0 <= i < |rules| && !HasItsNumber(rules[i]) {
      var robot := SomeRobot(rules[i]);
      BadRuleStops(Engine(map[], 0, 0), Anything(), rules, i, robot);
      assert Anything().now > 0.0 && "" !in [robot];
    } else {
      forall e, w: World, robots ensures Completes(e, w, rules, robots) {
        TickEvalsOf(w, rules, robots);
        EvaluationsComplete(e, TickEvals(w, rules, robots));
      }
    }
  }

  class AlertEngine {
    var states: map<Key, RuleState>
    var fired: nat
    var resolved: nat

    function Value(): Engine
      reads this
    {
      Engine(states, fired, resolved)
    }

    constructor ()
      ensures Value() == Engine(map[], 0, 0)
    {
      states, fired, resolved := map[], 0, 0;
    }

    /** False where the source raises. */
    method Tick(w: World, rules: seq<Rule>, robots: seq<string>) returns (ok: bool)
      modifies this
      ensures (Value(), ok) == Ticked(old(Value()), TickEvals(w, rules, robots))
    {
      hide Evaluated, Fails, RuleEvals;
      ghost var all := TickEvals(w, rules, robots);
      for i := 0 to |rules|
        invariant Ticked(old(Value()), all) == Ticked(Value(), TickEvals(w, rules[i..], robots))
      {
        var rule := rules[i];
        assert rules[i..][1..] == rules[i + 1..];
        TickedConcat(Value(), RuleEvals(w, rule, InScope(rule, robots)), TickEvals(w, rules[i + 1..], robots));
        ok := TickRule(w, rule, InScope(rule, robots));
        if !ok {
          return;
        }
      }
      return true;
    }

    method TickRule(w: World, rule: Rule, robots: seq<string>) returns (ok: bool)
      modifies this
      ensures (Value(), ok) == Ticked(old(Value()), RuleEvals(w, rule, robots))
    {
      hide Evaluated, Fails;
      ghost var all := RuleEvals(w, rule, robots);
      for i := 0 to |robots|
        invariant Ticked(old(Value()), all) == Ticked(Value(), RuleEvals(w, rule, robots[i..]))
      {
        assert robots[i..][1..] == robots[i + 1..];
        assert RuleEvals(w, rule, robots[i..])[0] == EvalOf(w, rule, robots[i]);
        assert RuleEvals(w, rule, robots[i..])[1..] == RuleEvals(w, rule, robots[i + 1..]);
        ok := Evaluate(EvalOf(w, rule, robots[i]));
        if !ok {
          return;
        }
      }
      return true;
    }

    method Evaluate(ev: Eval) returns (ok: bool)
      modifies this
      ensures Value() == Evaluated(old(Value()), ev) && ok == !Fails(old(Value()), ev)
    {
      hide Triggered;
      var k, l := KeyOf(ev), ev.look;
      if k !in states {
        states := states[k := IDLE];
      }
      var st := states[k];
      var firing := st.firing > 0.0;
      var triggered := Triggered(l.rule, l.sample, firing);
      if triggered.None? {
        return false;
      }
      var hit := triggered.value;
      if hit && !firing {
        if st.pending == 0.0 {
          st := st.(pending := l.now);
        } else if l.now - st.pending >= l.rule.forSeconds {
          st := st.(firing := l.now, pending := 0.0, notified := l.noted);
          fired := fired + 1;
        }
      } else if hit && firing {
        var cooldown := l.rule.cooldownMin * 60.0;
        if cooldown > 0.0 && l.now - st.notified >= cooldown {
          st := st.(notified := l.now);
        }
      } else {
        st := st.(pending := 0.0);
        if firing {
          st := st.(firing := 0.0);
          resolved := resolved + 1;
        }
      }
      states := states[k := st];
      return true;
    }
  }

  // ---------------------------------------------------------------- runs

  datatype Tick = Tick(world: World, rules: seq<Rule>, robots: seq<string>)

  function Run(e: Engine, ticks: seq<Tick>): Engine {
    if ticks == [] then e else
    var t := ticks[|ticks| - 1];
    Ticked(Run(e, ticks[..|ticks| - 1]), TickEvals(t.world, t.rules, t.robots)).0
  }

  function FiringKeys(e: Engine): set<Key> {
    set k | k in e.states && Firing(e.states[k])
  }

  predicate Balanced(e: Engine) {
    e.fired == e.resolved + |FiringKeys(e)|
  }

  lemma {:induction false} EvaluatedBalanced(e: Engine, ev: Eval)
    requires Balanced(e) && ev.look.now > 0.0
    ensures Balanced(Evaluated(e, ev))
  {
    hide Triggered;
    var k, e' := KeyOf(ev), Evaluated(e, ev);
    if Firing(e'.states[k]) {
      assert FiringKeys(e') == FiringKeys(e) + {k};
    } else {
      assert FiringKeys(e') == FiringKeys(e) - {k};
    }
  }

  lemma {:induction false} TickedBalanced(e: Engine, evs: seq<Eval>)
    requires Balanced(e) && forall ev :: ev in evs ==> ev.look.now > 0.0
    ensures Balanced(Ticked(e, evs).0)
    decreases |evs|
  {
    hide Balanced, Evaluated, Fails;
    if evs != [] {
      EvaluatedBalanced(e, evs[0]);
      TickedBalanced(Evaluated(e, evs[0]), evs[1..]);
    }
  }

  lemma {:induction false} RuleEvalsNow(w: World, rule: Rule, robots: seq<string>)
    ensures forall ev :: ev in RuleEvals(w, rule, robots) ==> ev.look.now == w.now
  {
    if robots != [] {
      RuleEvalsNow(w, rule, robots[1..]);
    }
  }

  lemma {:induction false} TickEvalsNow(w: World, rules: seq<Rule>, robots: seq<string>)
    ensures forall ev :: ev in TickEvals(w, rules, robots) ==> ev.look.now == w.now
  {
    if rules != [] {
      RuleEvalsNow(w, rules[0], InScope(rules[0], robots));
      TickEvalsNow(w, rules[1..], robots);
    }
  }

  /** At the end of every tick of every run, whatever rules come, go or change in between, the alerts fired
      minus the alerts resolved are the alerts firing now. */
  lemma {:induction false} RunBalanced(ticks: seq<Tick>)
    requires forall t :: t in ticks ==> t.world.now > 0.0
    ensures Balanced(Run(Engine(map[], 0, 0), ticks))
  {
    var e := Engine(map[], 0, 0);
    if ticks == [] {
      assert FiringKeys(e) == {};
    } else {
      var most, t := ticks[..|ticks| - 1], ticks[|ticks| - 1];
      assert t in ticks;
      RunBalanced(most);
      TickEvalsNow(t.world, t.rules, t.robots);
      TickedBalanced(Run(e, most), TickEvals(t.world, t.rules, t.robots));
    }
  }

  // ---------------------------------------------------------------- one (rule, robot) at a time

  /** The evaluations a tick gets to. */
  function Performed(e: Engine, evs: seq<Eval>): seq<Eval>
    decreases |evs|
  {
    if evs == [] then []
    else if Fails(e, evs[0]) then [evs[0]]
    else [evs[0]] + Performed(Evaluated(e, evs[0]), evs[1..])
  }

  function LooksOf(evs: seq<Eval>, k: Key): seq<Look> {
    if evs == [] then []
    else LooksOf(evs[..|evs| - 1], k) + (if KeyOf(evs[|evs| - 1]) == k then [evs[|evs| - 1].look] else [])
  }

  lemma {:induction false} LooksConcat(a: seq<Eval>, b: seq<Eval>, k: Key)
    ensures LooksOf(a + b, k) == LooksOf(a, k) + LooksOf(b, k)
    decreases |b|
  {
    if b == [] {
      assert a + b == a;
    } else {
      assert (a + b)[..|a + b| - 1] == a + b[..|b| - 1];
      LooksConcat(a, b[..|b| - 1], k);
    }
  }

  lemma {:induction false} AfterOne(st: RuleState, l: Look)
    ensures After(st, [l]) == Looked(st, l).0
  {
    hide Looked;
    assert [l][..0] == [];
  }

  lemma {:induction false} OneEvaluation(e: Engine, ev: Eval, k: Key)
    ensures StateOf(Evaluated(e, ev), k) == After(StateOf(e, k), LooksOf([ev], k))
  {
    hide Looked;
    assert [ev][..0] == [];
    AfterOne(StateOf(e, k), ev.look);
    assert [] + [ev.look] == [ev.look];
  }

  /** Each (rule, robot) runs its own state machine on its own evaluations, whatever the others do. */
  lemma {:induction false} PairsAreIndependent(e: Engine, evs: seq<Eval>, k: Key)
    ensures StateOf(Ticked(e, evs).0, k) == After(StateOf(e, k), LooksOf(Performed(e, evs), k))
    decreases |evs|
  {
    if evs != [] {
      var first, e' := evs[0], Evaluated(e, evs[0]);
      OneEvaluation(e, first, k);
      hide Evaluated, Fails, StateOf, LooksOf, After;
      if !Fails(e, first) {
        var more := Performed(e', evs[1..]);
        PairsAreIndependent(e', evs[1..], k);
        LooksConcat([first], more, k);
        ActsSplit(StateOf(e, k), LooksOf([first], k), LooksOf(more, k));
      }
    }
  }
}
