/** From a robot that falls silent to the alert about it: reaper, presence, rule and ticker together. */
module SilenceAlarms {
  import opened AlertConditions
  import opened AlertEngines
  import opened AlertRuns
  import opened Alerts
  import opened Deques
  import opened Options
  import F = Fleet
  import H = Hub
  import P = Pushers

  // ---------------------------------------------------------------- what the statements are about

  /** A rule for robots that do not report, about this robot. */
  predicate Watches(rule: Rule, id: string) {
    rule.op == Offline && About(rule, id)
  }

  /** The iteration evaluates the rule, among rules that can be evaluated. */
  predicate Evaluates<W(==)>(h: P.Happening<W>, rule: Rule) {
    h.Beat? ==> DifferentIds(h.rules) && rule in h.rules && forall r :: r in h.rules ==> HasItsNumber(r)
  }

  /** Nothing is heard of the robot, not even by its last will. */
  predicate NoNews<W(==)>(h: P.Happening<W>, id: string) {
    h.Meanwhile? && h.e.Change? ==> h.e.e.Reap? || h.e.e.id != id
  }

  /** An iteration whose clock finds the robot, last heard at `t`, silent for longer than the reaper or the rule
      allows. */
  predicate TooLong<W(==)>(lim: F.Limits, rule: Rule, t: real, h: P.Happening<W>) {
    && h.Beat?
    && (h.now - t > lim.offlineAfter || h.world.now - t > (if Given(rule.value) then rule.value.value else 60.0))
  }

  /** The clock of an iteration is positive and not ahead of the next one's. */
  predicate InTime<W(==)>(hs: seq<P.Happening<W>>) {
    && (forall i :: 0 <= i < |hs| && hs[i].Beat? ==> 0.0 < hs[i].now <= hs[i].world.now)
    && (forall i, j :: 0 <= i < j < |hs| && hs[i].Beat? && hs[j].Beat? ==> hs[i].world.now <= hs[j].now)
  }

  /** The rule looks at the robot as the fleet has it. */
  ghost predicate Looks(w: World, f: F.State, rule: Rule, id: string) {
    && id in f.robots
    && w.sample(rule, id).presence == f.robots[id].presence
    && w.sample(rule, id).age == w.now - f.robots[id].lastSeen
  }

  /** So it does at every iteration of a run, after the reaper has passed. */
  ghost predicate LooksAtFleet<W>(lim: F.Limits, p: P.Pusher<W>, hs: seq<P.Happening<W>>, rule: Rule, id: string) {
    forall i :: 0 <= i < |hs| && hs[i].Beat? ==>
      Looks(hs[i].world, P.Reaping(lim, P.Run(lim, p, hs[..i]), hs[i].now).fleet, rule, id)
  }

  /** Two iterations `for_seconds` apart, the robot silent for too long at the first. */
  predicate Due<W(==)>(lim: F.Limits, rule: Rule, t: real, hs: seq<P.Happening<W>>) {
    exists i, j :: 0 <= i < j < |hs| && Apart(lim, rule, t, hs[i], hs[j])
  }

  predicate Apart<W(==)>(lim: F.Limits, rule: Rule, t: real, h: P.Happening<W>, later: P.Happening<W>) {
    later.Beat? && TooLong(lim, rule, t, h) && later.world.now - h.world.now >= rule.forSeconds
  }

  // ---------------------------------------------------------------- the fleet

  /** The robot is as it was last heard at `t`, its link not known to be broken since. */
  ghost predicate Quiet(f: F.State, id: string, t: real) {
    && F.Ordered(f) && id in f.robots && f.robots[id].lastSeen == t
    && !(f.robots[id].link == Some(false) && f.robots[id].linkAt >= t)
  }

  lemma {:induction false} StaysQuiet(lim: F.Limits, f: F.State, e: F.Event, id: string, t: real)
    requires Quiet(f, id, t) && (e.Reap? || e.id != id)
    ensures Quiet(F.Step(lim, f, e), id, t)
  {
    if !e.Reap? {
      F.KnownOrdered(f, e.id);
    }
  }

  lemma {:induction false} StepQuiet<W>(lim: F.Limits, p: P.Pusher<W>, h: P.Happening<W>, id: string, t: real)
    requires Quiet(p.hub.fleet, id, t) && NoNews(h, id)
    ensures Quiet(P.Step(lim, p, h).hub.fleet, id, t)
    ensures h.Beat? ==> Quiet(P.Reaping(lim, p, h.now).fleet, id, t)
  {
    if h.Beat? {
      StaysQuiet(lim, p.hub.fleet, F.Reap(h.now), id, t);
    } else if h.e.Change? {
      StaysQuiet(lim, p.hub.fleet, h.e.e, id, t);
    }
    hide Quiet, F.Step, H.Logged, Ticked, TickEvals, H.Delta, H.Gone;
  }

  lemma {:induction false} RunQuiet<W>(lim: F.Limits, p: P.Pusher<W>, hs: seq<P.Happening<W>>, id: string, t: real)
    requires Quiet(p.hub.fleet, id, t) && forall h :: h in hs ==> NoNews(h, id)
    ensures Quiet(P.Run(lim, p, hs).hub.fleet, id, t)
  {
    hide Quiet, P.Step, NoNews;
    if hs != [] {
      var most, h := hs[..|hs| - 1], hs[|hs| - 1];
      assert h in hs && forall x :: x in most ==> x in hs;
      RunQuiet(lim, p, most, id, t);
      StepQuiet(lim, P.Run(lim, p, most), h, id, t);
    }
  }

  lemma {:induction false} BeatReaps<W>(lim: F.Limits, p: P.Pusher<W>, h: P.Happening<W>)
    requires h.Beat?
    ensures P.Step(lim, p, h).hub.fleet == F.Reaped(lim, p.hub.fleet, h.now)
  {
    hide F.Reaped, H.Logged, Ticked, TickEvals, H.Delta, H.Gone, H.Tickets;
  }

  /** A robot last heard at `t`, with no broken link: after every iteration of the ticker, whether or not its tick
      completes, the robot's presence follows from its silence, whatever happened meanwhile. */
  lemma {:induction false} BeatShowsSilence<W>(lim: F.Limits, p: P.Pusher<W>, hs: seq<P.Happening<W>>,
                                               h: P.Happening<W>, id: string, t: real)
    requires Quiet(p.hub.fleet, id, t) && t > 0.0 && h.Beat?
    requires forall x :: x in hs ==> NoNews(x, id)
    ensures var f := P.Step(lim, P.Run(lim, p, hs), h).hub.fleet;
            && id in f.robots
            && f.robots[id].presence ==
                 if h.now - t <= lim.offlineAfter then F.OK
                 else if h.now - t <= lim.staleAfter then F.STALE
                 else F.OFFLINE
  {
    RunQuiet(lim, p, hs, id, t);
    BeatReaps(lim, P.Run(lim, p, hs), h);
    hide P.Run, P.Step;
  }

  /** At an iteration the rule notices exactly a robot silent for too long. */
  lemma {:induction false} Notices<W>(lim: F.Limits, p: P.Pusher<W>, h: P.Happening<W>, rule: Rule, id: string, t: real)
    requires Quiet(p.hub.fleet, id, t) && t > 0.0 && h.Beat? && Watches(rule, id)
    requires Looks(h.world, P.Reaping(lim, p, h.now).fleet, rule, id)
    ensures Noticed(rule, h.world.sample(rule, id)) <==> TooLong(lim, rule, t, h)
  {
  }

  // ---------------------------------------------------------------- the rule

  lemma {:induction false} OneLook(st: RuleState, rule: Rule, l: Look)
    requires rule.op == Offline && l.rule == rule && l.now > 0.0
    ensures var st', hit := Looked(st, l).0, Noticed(rule, l.sample);
            && (Firing(st') <==> hit && (Firing(st) || (st.pending != 0.0 && l.now - st.pending >= rule.forSeconds)))
            && (!Firing(st') ==>
                 st'.pending == if !hit then 0.0 else if st.pending == 0.0 then l.now else st.pending)
  {
    NoticedIsHit(rule, l.sample);
    OverIsMissed(rule, l.sample);
    hide Triggered, Noticed;
  }

  /** One iteration is one evaluation of the rule for the robot. */
  lemma {:induction false} OneBeat<W(!new)>(lim: F.Limits, p: P.Pusher<W>, h: P.Happening<W>, rule: Rule, id: string,
                                            t: real)
    requires h.Beat? && Quiet(p.hub.fleet, id, t) && Evaluates(h, rule) && Watches(rule, id)
    ensures var k := (rule.id, id);
            StateOf(P.Step(lim, p, h).alerts, k)
            == Looked(StateOf(p.alerts, k), EvalOf(h.world, rule, id).look).0
  {
    var tick := Tick(h.world, h.rules, P.Reaping(lim, p, h.now).fleet.order);
    var evs, l := EvalsOf(tick), EvalOf(h.world, rule, id).look;
    StepQuiet(lim, p, P.Happening.Beat(h.world, h.rules, h.now, h.order), id, t);
    assert Covers(tick, rule, id);
    TickLooksOnce(p.alerts, tick, rule, id);
    PairsAreIndependent(p.alerts, evs, (rule.id, id));
    hide Ticked, TickEvals, Performed, LooksOf, Looked, Quiet, StateOf;
    assert [l][..0] == [];
    assert After(StateOf(p.alerts, (rule.id, id)), [l]) == Looked(StateOf(p.alerts, (rule.id, id)), l).0;
  }

  /** The clock at the first iteration that finds the silence too long. */
  function FirstTooLong<W(==)>(lim: F.Limits, rule: Rule, t: real, hs: seq<P.Happening<W>>): Option<real> {
    if hs == [] then None else
    var before := FirstTooLong(lim, rule, t, hs[..|hs| - 1]);
    if before.Some? then before
    else if TooLong(lim, rule, t, hs[|hs| - 1]) then Some(hs[|hs| - 1].world.now)
    else None
  }

  lemma {:induction false} FirstIs<W>(lim: F.Limits, rule: Rule, t: real, hs: seq<P.Happening<W>>)
    requires InTime(hs)
    ensures var first := FirstTooLong(lim, rule, t, hs);
            if first.None? then forall i :: 0 <= i < |hs| ==> !TooLong(lim, rule, t, hs[i])
            else
              && first.value > 0.0
              && (exists i :: 0 <= i < |hs| && TooLong(lim, rule, t, hs[i]) && hs[i].world.now == first.value)
              && (forall i :: 0 <= i < |hs| && TooLong(lim, rule, t, hs[i]) ==> first.value <= hs[i].world.now)
  {
    if hs != [] {
      var most, n := hs[..|hs| - 1], |hs| - 1;
      FirstIs(lim, rule, t, most);
      assert forall i :: 0 <= i < n ==> most[i] == hs[i];
    }
  }

  lemma {:induction false} DueStays<W>(lim: F.Limits, rule: Rule, t: real, hs: seq<P.Happening<W>>)
    requires hs != []
    ensures Due(lim, rule, t, hs[..|hs| - 1]) ==> Due(lim, rule, t, hs)
    ensures Due(lim, rule, t, hs) && !Due(lim, rule, t, hs[..|hs| - 1]) ==>
              exists i :: 0 <= i < |hs| - 1 && Apart(lim, rule, t, hs[i], hs[|hs| - 1])
  {
    hide Apart;
    var most, n := hs[..|hs| - 1], |hs| - 1;
    assert forall i, j :: 0 <= i < j < n && Apart(lim, rule, t, hs[i], hs[j]) ==> Apart(lim, rule, t, most[i], most[j]);
    if Due(lim, rule, t, most) {
      var i, j :| 0 <= i < j < n && Apart(lim, rule, t, most[i], most[j]);
      assert Apart(lim, rule, t, hs[i], hs[j]);
    } else if Due(lim, rule, t, hs) {
      var i, j :| 0 <= i < j < |hs| && Apart(lim, rule, t, hs[i], hs[j]);
    }
  }

  /** What is due after one more iteration. */
  lemma {:induction false} DueStep<W>(lim: F.Limits, rule: Rule, t: real, hs: seq<P.Happening<W>>)
    requires hs != [] && InTime(hs)
    ensures var most, h, first := hs[..|hs| - 1], hs[|hs| - 1], FirstTooLong(lim, rule, t, hs[..|hs| - 1]);
            && (h.Beat? && first.Some? ==> TooLong(lim, rule, t, h))
            && (Due(lim, rule, t, hs) <==>
                 (Due(lim, rule, t, most) || (h.Beat? && first.Some? && h.world.now - first.value >= rule.forSeconds)))
            && (Due(lim, rule, t, most) ==> first.Some?)
  {
    var most, h, n := hs[..|hs| - 1], hs[|hs| - 1], |hs| - 1;
    var first := FirstTooLong(lim, rule, t, most);
    FirstIs(lim, rule, t, most);
    DueStays(lim, rule, t, hs);
    hide FirstTooLong;
    if first.Some? {
      var i :| 0 <= i < n && TooLong(lim, rule, t, most[i]) && most[i].world.now == first.value;
      assert hs[i] == most[i];
      if h.Beat? && h.world.now - first.value >= rule.forSeconds {
        assert Apart(lim, rule, t, hs[i], hs[n]);
      }
    }
    if i :| 0 <= i < n && Apart(lim, rule, t, hs[i], hs[n]) {
      assert most[i] == hs[i];
    }
  }

  /** The state of the alert about the robot, told from the clocks of the iterations. */
  ghost predicate Tells<W>(lim: F.Limits, p: P.Pusher<W>, hs: seq<P.Happening<W>>, rule: Rule, id: string, t: real) {
    var st, first := StateOf(P.Run(lim, p, hs).alerts, (rule.id, id)), FirstTooLong(lim, rule, t, hs);
    && (Firing(st) <==> Due(lim, rule, t, hs))
    && (!Firing(st) ==> st.pending == if first.Some? then first.value else 0.0)
  }

  lemma {:induction false} TellsStep<W(!new)>(lim: F.Limits, p: P.Pusher<W>, hs: seq<P.Happening<W>>, rule: Rule,
                                              id: string, t: real)
    requires hs != [] && InTime(hs) && t > 0.0 && Watches(rule, id)
    requires Quiet(P.Run(lim, p, hs[..|hs| - 1]).hub.fleet, id, t)
    requires Tells(lim, p, hs[..|hs| - 1], rule, id, t)
    requires var h := hs[|hs| - 1];
             && Evaluates(h, rule)
             && (h.Beat? ==> Looks(h.world, P.Reaping(lim, P.Run(lim, p, hs[..|hs| - 1]), h.now).fleet, rule, id))
    ensures Tells(lim, p, hs, rule, id, t)
  {
    var most, h, k := hs[..|hs| - 1], hs[|hs| - 1], (rule.id, id);
    var before := P.Run(lim, p, most);
    DueStep(lim, rule, t, hs);
    FirstIs(lim, rule, t, most);
    if h.Beat? {
      OneBeat(lim, before, h, rule, id, t);
      Notices(lim, before, h, rule, id, t);
      var l := EvalOf(h.world, rule, id).look;
      OneLook(StateOf(before.alerts, k), rule, l);
      hide StateOf, P.Step, Looked, Noticed, Looks, TooLong, Due, Quiet, Firing;
    } else {
      hide StateOf, Due, Quiet, H.Step;
    }
  }

  /** A robot last heard at `t`, with no broken link: over every run of the ticker and of everything else in which
      nothing more is heard of it, a rule for robots that do not report has raised its alert at the end exactly if two
      iterations lie `for_seconds` apart, at the first of which the robot had been silent for longer than the reaper or
      the rule allows. */
  lemma {:induction false} SilenceRaisesAlarm<W(!new)>(lim: F.Limits, p: P.Pusher<W>, hs: seq<P.Happening<W>>,
                                                       rule: Rule, id: string, t: real)
    requires Quiet(p.hub.fleet, id, t) && t > 0.0 && StateOf(p.alerts, (rule.id, id)) == IDLE
    requires Watches(rule, id) && InTime(hs) && LooksAtFleet(lim, p, hs, rule, id)
    requires forall h :: h in hs ==> Evaluates(h, rule) && NoNews(h, id)
    ensures Firing(StateOf(P.Run(lim, p, hs).alerts, (rule.id, id))) <==> Due(lim, rule, t, hs)
  {
    AlarmTells(lim, p, hs, rule, id, t);
  }

  lemma {:induction false} AlarmTells<W(!new)>(lim: F.Limits, p: P.Pusher<W>, hs: seq<P.Happening<W>>, rule: Rule,
                                               id: string, t: real)
    requires Quiet(p.hub.fleet, id, t) && t > 0.0 && StateOf(p.alerts, (rule.id, id)) == IDLE
    requires Watches(rule, id) && InTime(hs) && LooksAtFleet(lim, p, hs, rule, id)
    requires forall h :: h in hs ==> Evaluates(h, rule) && NoNews(h, id)
    ensures Tells(lim, p, hs, rule, id, t)
  {
    hide Quiet, P.Step, StateOf, Evaluates, NoNews, Watches;
    if hs == [] {
      assert P.Run(lim, p, hs) == p;
    } else {
      var most, h := hs[..|hs| - 1], hs[|hs| - 1];
      assert h in hs && forall x :: x in most ==> x in hs;
      assert LooksAtFleet(lim, p, most, rule, id) by {
        forall i | 0 <= i < |most| && most[i].Beat?
          ensures Looks(most[i].world, P.Reaping(lim, P.Run(lim, p, most[..i]), most[i].now).fleet, rule, id)
        {
          assert most[..i] == hs[..i] && most[i] == hs[i];
        }
      }
      AlarmTells(lim, p, most, rule, id, t);
      RunQuiet(lim, p, most, id, t);
      assert hs[..|hs| - 1] == most;
      hide Looks, P.Reaping, P.Run, Tells;
      TellsStep(lim, p, hs, rule, id, t);
      RunStep(lim, p, hs);
    }
  }

  lemma {:induction false} RunStep<W>(lim: F.Limits, p: P.Pusher<W>, hs: seq<P.Happening<W>>)
    requires hs != []
    ensures P.Run(lim, p, hs) == P.Step(lim, P.Run(lim, p, hs[..|hs| - 1]), hs[|hs| - 1])
  {
    hide P.Step;
  }
}
