/** `pusher_task`: one ticker that reaps silent robots, evaluates the alert rules and pushes deltas, in this order and
    under one exception handler, so that a tick that raises ends the iteration before the push. */
module Pushers {
  import opened AlertEngines
  import opened AlertRuns
  import opened Alerts
  import opened Hub
  import opened Options
  import F = Fleet

  datatype Pusher<W(==)> = Pusher(alerts: Engine, hub: State<W>)

  /** What happens to the server: an iteration of the ticker, or anything else to fleet and dashboards. */
  datatype Happening<W> =
    | Beat(world: World, rules: seq<Rule>, now: real, order: seq<W>)
    | Meanwhile(e: Hub.Event<W>)

  function Reaping<W(==)>(lim: F.Limits, p: Pusher<W>, now: real): State<W> {
    Hub.Step(lim, p.hub, Change(F.Reap(now)))
  }

  /** The evaluations of the tick, over the robots there are. */
  function Evals<W(==)>(lim: F.Limits, p: Pusher<W>, w: World, rules: seq<Rule>, now: real): seq<Eval> {
    TickEvals(w, rules, Reaping(lim, p, now).fleet.order)
  }

  /** One iteration up to the beginning of the push; metrics and the credential cache come after it. */
  function Beaten<W(==)>(lim: F.Limits, p: Pusher<W>, w: World, rules: seq<Rule>, now: real, order: seq<W>): Pusher<W> {
    var reaped := Reaping(lim, p, now);
    var (alerts, ok) := Ticked(p.alerts, Evals(lim, p, w, rules, now));
    Pusher(alerts, if ok then Hub.Step(lim, reaped, PushBegin(order)) else reaped)
  }

  function Step<W(==)>(lim: F.Limits, p: Pusher<W>, h: Happening<W>): Pusher<W> {
    match h
    case Beat(world, rules, now, order) => Beaten(lim, p, world, rules, now, order)
    case Meanwhile(e) => p.(hub := Hub.Step(lim, p.hub, e))
  }

  function Run<W(==)>(lim: F.Limits, p: Pusher<W>, hs: seq<Happening<W>>): Pusher<W> {
    if hs == [] then p else Step(lim, Run(lim, p, hs[..|hs| - 1]), hs[|hs| - 1])
  }

  /** No push is under way, and `order` lists the sockets there are. */
  predicate Ready<W(==)>(p: Pusher<W>, w: World, order: seq<W>) {
    && w.now > 0.0 && "" !in p.hub.fleet.order
    && p.hub.queue == [] && p.hub.sending.None? && Lists(order, p.hub.clients)
  }

  /** The push was begun: every socket is queued, with the map it has. */
  predicate Pushed<W(==)>(p: Pusher<W>, p': Pusher<W>, order: seq<W>)
    requires Lists(order, p.hub.clients)
  {
    ListsIn(order, p.hub.clients);
    p'.hub.queue == Tickets(p.hub.clients, order)
  }

  lemma {:induction false} ListsIn<W>(order: seq<W>, clients: map<W, Client>)
    requires Lists(order, clients)
    ensures forall ws :: ws in order ==> ws in clients
  {
    forall ws | ws in order ensures ws in clients {
      assert ws in (set x | x in order);
    }
  }

  lemma {:induction false} BeatPushes<W(!new)>(lim: F.Limits, p: Pusher<W>, w: World, rules: seq<Rule>, now: real,
                                        order: seq<W>)
    requires Ready(p, w, order)
    ensures var p' := Beaten(lim, p, w, rules, now, order);
            if Ticked(p.alerts, Evals(lim, p, w, rules, now)).1 then Pushed(p, p', order) else p'.hub.queue == []
  {
    hide Ticked, TickEvals;
  }

  /** A fleet of one robot nobody has heard of, one dashboard, nothing fired. */
  function Lonely<W(==)>(robot: string, ws: W): Pusher<W> {
    Pusher(Engine(map[], 0, 0),
           State(F.State(map[robot := F.NEW], [robot]), map[], map[ws := Client(true, map[])], map[ws := map[]],
                 {}, [], None))
  }

  lemma {:induction false} LonelyIsReady<W(!new)>(robot: string, ws: W)
    requires robot != ""
    ensures Ready(Lonely(robot, ws), Anything(), [ws])
  {
    assert (set x | x in [ws]) == {ws};
  }

  /** Every iteration of the ticker reaches its push, whatever the engine's state, the samples, the robots and the
      dashboards, if and only if every threshold rule has its number. */
  lemma {:induction false} PusherPushesIff<W(!new)>(lim: F.Limits, ws: W, rules: seq<Rule>)
    requires DifferentIds(rules)
    ensures (forall p: Pusher<W>, w, now, order ::
               Ready(p, w, order) ==> Pushed(p, Beaten(lim, p, w, rules, now, order), order))
            <==> forall i :: 0 <= i < |rules| ==> HasItsNumber(rules[i])
  {
    if i :| 0 <= i < |rules| && !HasItsNumber(rules[i]) {
      NumberlessRuleStopsBeat(lim, ws, rules, i);
      var p := Lonely(SomeRobot(rules[i]), ws);
      LonelyIsReady(SomeRobot(rules[i]), ws);
      assert Ready(p, Anything(), [ws]) && !Pushed(p, Beaten(lim, p, Anything(), rules, 0.0, [ws]), [ws]);
    } else {
      forall p: Pusher<W>, w, now, order | Ready(p, w, order)
        ensures Pushed(p, Beaten(lim, p, w, rules, now, order), order)
      {
        BeatPushes(lim, p, w, rules, now, order);
        TickEvalsOf(w, rules, Reaping(lim, p, now).fleet.order);
        EvaluationsComplete(p.alerts, Evals(lim, p, w, rules, now));
      }
    }
  }

  lemma {:induction false} NumberlessRuleStopsBeat<W(!new)>(lim: F.Limits, ws: W, rules: seq<Rule>, i: nat)
    requires DifferentIds(rules) && i < |rules| && !HasItsNumber(rules[i])
    ensures var p := Lonely(SomeRobot(rules[i]), ws);
            Lists([ws], p.hub.clients) && !Pushed(p, Beaten(lim, p, Anything(), rules, 0.0, [ws]), [ws])
  {
    var robot := SomeRobot(rules[i]);
    var p := Lonely(robot, ws);
    LonelyIsReady(robot, ws);
    BeatPushes(lim, p, Anything(), rules, 0.0, [ws]);
    BadRuleStops(p.alerts, Anything(), rules, i, robot);
    hide Ticked, TickEvals;
    assert Evals(lim, p, Anything(), rules, 0.0) == TickEvals(Anything(), rules, [robot]);
  }

  // ---------------------------------------------------------------- for how long

  /** A threshold rule without any number to compare with. */
  predicate Numberless(rule: Rule) {
    IsThreshold(rule.op) && rule.value.None? && ((rule.op == Lt || rule.op == Gt) ==> rule.clear.None?)
  }

  /** An iteration whose rules include a numberless one looking at a number of that robot. */
  predicate Stuck<W>(h: Happening<W>, robot: string) {
    h.Beat? && exists i :: 0 <= i < |h.rules| && Numberless(h.rules[i]) && About(h.rules[i], robot)
                           && h.world.sample(h.rules[i], robot).num.Some?
  }

  lemma {:induction false} FailingEvalEndsTick(e: Engine, evs: seq<Eval>, i: nat)
    requires i < |evs| && Numberless(evs[i].look.rule) && evs[i].look.sample.num.Some?
    ensures !Ticked(e, evs).1
    decreases |evs|
  {
    hide Evaluated;
    if !Fails(e, evs[0]) {
      FailingEvalEndsTick(Evaluated(e, evs[0]), evs[1..], i - 1);
    }
  }

  lemma {:induction false} StuckBeat<W(!new)>(lim: F.Limits, p: Pusher<W>, h: Happening<W>, robot: string)
    requires Stuck(h, robot) && robot in p.hub.fleet.order
    ensures Step(lim, p, h).hub == Reaping(lim, p, h.now)
  {
    var i :| 0 <= i < |h.rules| && Numberless(h.rules[i]) && About(h.rules[i], robot)
             && h.world.sample(h.rules[i], robot).num.Some?;
    var n := TickEvalsHave(h.world, h.rules, Reaping(lim, p, h.now).fleet.order, i, robot);
    FailingEvalEndsTick(p.alerts, Evals(lim, p, h.world, h.rules, h.now), n);
    hide Ticked, TickEvals;
  }

  /** Nothing is pushed, nor under way. */
  predicate Silent<W(==)>(p: Pusher<W>, robot: string) {
    robot in p.hub.fleet.order && p.hub.queue == [] && p.hub.sending.None?
  }

  lemma {:induction false} StuckStep<W(!new)>(lim: F.Limits, p: Pusher<W>, h: Happening<W>, robot: string, ws: W)
    requires Silent(p, robot) && (if h.Beat? then Stuck(h, robot) else !h.e.PushBegin?)
    ensures Silent(Step(lim, p, h), robot)
    ensures ws in p.hub.views ==> ws in Step(lim, p, h).hub.views && Step(lim, p, h).hub.views[ws] == p.hub.views[ws]
  {
    if h.Beat? {
      StuckBeat(lim, p, h, robot);
      hide Step, F.Evaluated, Logged;
    } else {
      hide F.Updated, F.Linked, F.Evaluated, Logged;
    }
  }

  /** As long as a numberless rule looks at a number of some robot, no iteration pushes: whatever changes, no dashboard
      that was there is handed anything. */
  lemma {:induction false} NumberlessRuleStopsPushes<W(!new)>(lim: F.Limits, p: Pusher<W>, hs: seq<Happening<W>>,
                                                       robot: string, ws: W)
    requires Silent(p, robot) && ws in p.hub.views
    requires forall h :: h in hs ==> if h.Beat? then Stuck(h, robot) else !h.e.PushBegin?
    ensures Silent(Run(lim, p, hs), robot)
    ensures ws in Run(lim, p, hs).hub.views && Run(lim, p, hs).hub.views[ws] == p.hub.views[ws]
  {
    hide Step, Silent, Stuck;
    if hs != [] {
      var most, h := hs[..|hs| - 1], hs[|hs| - 1];
      assert h in hs;
      NumberlessRuleStopsPushes(lim, p, most, robot, ws);
      StuckStep(lim, Run(lim, p, most), h, robot, ws);
    }
  }
}
