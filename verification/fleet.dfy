/** Robots, presence and revisions, as values: what one message, last will or reaper pass does. */
module Fleet {
  import opened Deques
  import opened Options

  datatype Presence = OK | STALE | OFFLINE | UNKNOWN

  /** `data` stands for everything a telemetry payload carries. */
  datatype Robot = Robot(data: string, lastSeen: real, presence: Presence, online: bool, link: Option<bool>,
                         linkAt: real, rxCount: nat, rev: nat)

  const NEW := Robot("", 0.0, UNKNOWN, false, None, 0.0, 0, 0)

  datatype Limits = Limits(offlineAfter: real, staleAfter: real)

  function Updated(r: Robot, data: string, now: real): Robot {
    r.(data := data, lastSeen := now, presence := OK, online := true, rxCount := r.rxCount + 1, rev := r.rev + 1)
  }

  function WithPresence(r: Robot, p: Presence): Robot {
    if p == r.presence then r else r.(presence := p, online := p == OK, rev := r.rev + 1)
  }

  /** What silence alone says of a robot last heard at `lastSeen`, 0 for never. */
  function Rung(lim: Limits, lastSeen: real, now: real): Presence {
    if lastSeen == 0.0 then UNKNOWN
    else if now - lastSeen <= lim.offlineAfter then OK
    else if now - lastSeen <= lim.staleAfter then STALE
    else OFFLINE
  }

  /** What every available signal says at `now`, a broken link first. */
  function Judged(lim: Limits, r: Robot, now: real): Presence {
    if r.link == Some(false) && r.linkAt >= r.lastSeen then OFFLINE else Rung(lim, r.lastSeen, now)
  }

  function Evaluated(lim: Limits, r: Robot, now: real): Robot {
    WithPresence(r, Judged(lim, r, now))
  }

  /** `at` and `now` are two readings of the clock. */
  function Linked(lim: Limits, r: Robot, up: bool, at: real, now: real): Robot {
    Evaluated(lim, r.(link := Some(up), linkAt := at), now)
  }

  // ---------------------------------------------------------------- the fleet

  /** Robots in the order they were first heard of; none is ever removed. */
  datatype State = State(robots: map<string, Robot>, order: seq<string>)

  const EMPTY := State(map[], [])

  ghost predicate Ordered(f: State) {
    && (forall id :: id in f.order <==> id in f.robots)
    && Distinct(f.order)
  }

  function Known(f: State, id: string): State {
    if id in f.robots then f else State(f.robots[id := NEW], f.order + [id])
  }

  function Ingested(f: State, id: string, data: string, now: real): State {
    var k := Known(f, id);
    k.(robots := k.robots[id := Updated(k.robots[id], data, now)])
  }

  function LinkSet(lim: Limits, f: State, id: string, up: bool, at: real, now: real): State {
    var k := Known(f, id);
    k.(robots := k.robots[id := Linked(lim, k.robots[id], up, at, now)])
  }

  function Reaped(lim: Limits, f: State, now: real): State {
    f.(robots := map id | id in f.robots :: Evaluated(lim, f.robots[id], now))
  }

  predicate Changes(lim: Limits, f: State, now: real, id: string) {
    id in f.robots && Judged(lim, f.robots[id], now) != f.robots[id].presence
  }

  /** The ids a reaper pass reports. */
  function Changed(lim: Limits, f: State, now: real, ids: seq<string>): seq<string> {
    if ids == [] then [] else
    Changed(lim, f, now, ids[..|ids| - 1]) + (if Changes(lim, f, now, ids[|ids| - 1]) then [ids[|ids| - 1]] else [])
  }

  datatype Event =
    | Ingest(id: string, data: string, now: real)
    | SetLink(id: string, up: bool, at: real, now: real)
    | Reap(now: real)

  function Step(lim: Limits, f: State, e: Event): State {
    match e
    case Ingest(id, data, now) => Ingested(f, id, data, now)
    case SetLink(id, up, at, now) => LinkSet(lim, f, id, up, at, now)
    case Reap(now) => Reaped(lim, f, now)
  }

  function Run(lim: Limits, f: State, es: seq<Event>): State {
    if es == [] then f else Step(lim, Run(lim, f, es[..|es| - 1]), es[|es| - 1])
  }

  /** The clock is positive and does not go back. */
  predicate Clocked(es: seq<Event>) {
    && (forall i :: 0 <= i < |es| ==> es[i].now > 0.0)
    && (forall i :: 0 <= i < |es| && es[i].SetLink? ==> 0.0 < es[i].at <= es[i].now)
    && (forall i, j :: 0 <= i < j < |es| ==> es[i].now <= es[j].now)
  }

  // ---------------------------------------------------------------- presence

  /** What a robot's presence says about it, from time `t` on. */
  predicate Settled(lim: Limits, r: Robot, t: real) {
    && (r.online <==> r.presence == OK)
    && r.lastSeen >= 0.0 && r.linkAt >= 0.0
    && var broken := r.link == Some(false) && r.linkAt >= r.lastSeen;
       match r.presence
       case OK => r.lastSeen > 0.0
       case UNKNOWN => r.lastSeen == 0.0 && !broken
       case STALE => broken || (r.lastSeen > 0.0 && t - r.lastSeen > lim.offlineAfter)
       case OFFLINE =>
         broken || (r.lastSeen > 0.0 && t - r.lastSeen > lim.offlineAfter && t - r.lastSeen > lim.staleAfter)
  }

  predicate AllSettled(lim: Limits, f: State, t: real) {
    forall id :: id in f.robots ==> Settled(lim, f.robots[id], t)
  }

  predicate NoBetter(before: Presence, after: Presence) {
    || after == before
    || (before == OK && after != UNKNOWN)
    || (before == STALE && after == OFFLINE)
  }

  lemma {:induction false} EvaluatedSettled(lim: Limits, r: Robot, t: real, now: real)
    requires Settled(lim, r, t) && t <= now
    ensures Settled(lim, Evaluated(lim, r, now), now)
    ensures NoBetter(r.presence, Evaluated(lim, r, now).presence)
  {
  }

  lemma {:induction false} StepSettled(lim: Limits, f: State, e: Event, t: real)
    requires AllSettled(lim, f, t) && t <= e.now && 0.0 < e.now
    requires e.SetLink? ==> 0.0 < e.at <= e.now
    ensures AllSettled(lim, Step(lim, f, e), e.now)
  {
  }

  lemma {:induction false} RunSettled(lim: Limits, es: seq<Event>, t: real)
    requires Clocked(es) && (es != [] ==> es[|es| - 1].now <= t)
    ensures AllSettled(lim, Run(lim, EMPTY, es), t)
  {
    if es != [] {
      var most, e := es[..|es| - 1], es[|es| - 1];
      RunSettled(lim, most, e.now);
      hide AllSettled;
      StepSettled(lim, Run(lim, EMPTY, most), e, e.now);
      SettledLater(lim, Run(lim, EMPTY, es), e.now, t);
    }
  }

  lemma {:induction false} SettledLater(lim: Limits, f: State, t: real, later: real)
    requires AllSettled(lim, f, t) && t <= later
    ensures AllSettled(lim, f, later)
  {
  }

  /** Over every run `online` means presence OK, and a reaper pass only ever worsens presence: whoever it
      reports is not online afterwards, which is why each of them can be logged as gone offline. */
  lemma {:induction false} ReapOnlyWorsens(lim: Limits, es: seq<Event>, now: real, id: string)
    requires Clocked(es + [Reap(now)]) && id in Run(lim, EMPTY, es).robots
    ensures var before, after := Run(lim, EMPTY, es).robots[id], Reaped(lim, Run(lim, EMPTY, es), now).robots[id];
            && (before.online <==> before.presence == OK)
            && (after.online <==> after.presence == OK)
            && NoBetter(before.presence, after.presence)
            && (Changes(lim, Run(lim, EMPTY, es), now, id) ==> !after.online)
  {
    var all := es + [Reap(now)];
    assert forall i :: 0 <= i < |es| ==> all[i] == es[i];
    assert all[|es|] == Reap(now);
    RunSettled(lim, es, now);
    EvaluatedSettled(lim, Run(lim, EMPTY, es).robots[id], now, now);
  }

  /** Silence: with nothing but reaper passes, presence never improves. */
  lemma {:induction false} SilenceOnlyWorsens(lim: Limits, f: State, es: seq<Event>, t: real, id: string)
    requires AllSettled(lim, f, t) && Clocked(es) && id in f.robots
    requires forall e :: e in es ==> e.Reap? && t <= e.now
    ensures id in Run(lim, f, es).robots
    ensures NoBetter(f.robots[id].presence, Run(lim, f, es).robots[id].presence)
    ensures AllSettled(lim, Run(lim, f, es), if es == [] then t else es[|es| - 1].now)
  {
    if es != [] {
      var most, e := es[..|es| - 1], es[|es| - 1];
      assert e in es && forall x :: x in most ==> x in es;
      SilenceOnlyWorsens(lim, f, most, t, id);
      var before, last := Run(lim, f, most), if most == [] then t else most[|most| - 1].now;
      assert last <= e.now;
      StepSettled(lim, before, e, last);
      EvaluatedSettled(lim, before.robots[id], last, e.now);
    }
  }

  /** Some robot other than `id` is heard of, or time passes. */
  predicate NotAbout(es: seq<Event>, id: string) {
    forall i :: 0 <= i < |es| ==> es[i].Reap? || es[i].id != id
  }

  lemma {:induction false} NobodyElseTouches(lim: Limits, f: State, es: seq<Event>, id: string)
    requires NotAbout(es, id) && id in f.robots
    ensures id in Run(lim, f, es).robots
    ensures var r, r' := f.robots[id], Run(lim, f, es).robots[id];
            r'.lastSeen == r.lastSeen && r'.link == r.link && r'.linkAt == r.linkAt && r'.data == r.data
  {
    if es != [] {
      NobodyElseTouches(lim, f, es[..|es| - 1], id);
    }
  }

  /** What a reaper pass makes of a robot last heard from at `t`, whatever happened before and to others since:
      its presence follows from its silence alone, unless its link broke at that very instant or later. */
  lemma {:induction false} PresenceFollowsSilence(lim: Limits, before: seq<Event>, id: string, data: string, t: real,
                                                  since: seq<Event>, now: real)
    requires t > 0.0 && NotAbout(since, id)
    requires id in Run(lim, EMPTY, before).robots ==> Run(lim, EMPTY, before).robots[id].linkAt < t
    ensures var heard := Run(lim, Ingested(Run(lim, EMPTY, before), id, data, t), since);
            && id in heard.robots
            && Reaped(lim, heard, now).robots[id].presence ==
                 if now - t <= lim.offlineAfter then OK else if now - t <= lim.staleAfter then STALE else OFFLINE
  {
    NobodyElseTouches(lim, Ingested(Run(lim, EMPTY, before), id, data, t), since, id);
  }

  /** A second reaper pass at the same instant reports nothing and changes nothing. */
  lemma {:induction false} ReapTwice(lim: Limits, f: State, now: real, ids: seq<string>)
    ensures Reaped(lim, Reaped(lim, f, now), now) == Reaped(lim, f, now)
    ensures Changed(lim, Reaped(lim, f, now), now, ids) == []
  {
    if ids != [] {
      ReapTwice(lim, f, now, ids[..|ids| - 1]);
    }
  }

  /** `most` without some of its elements, in the same order. */
  predicate Thinned(some: seq<string>, most: seq<string>) {
    if most == [] then some == []
    else if some != [] && some[|some| - 1] == most[|most| - 1] then
      Thinned(some[..|some| - 1], most[..|most| - 1])
    else Thinned(some, most[..|most| - 1])
  }

  lemma {:induction false} ChangedAre(lim: Limits, f: State, now: real, ids: seq<string>)
    requires Distinct(ids)
    ensures Thinned(Changed(lim, f, now, ids), ids)
    ensures forall id :: id in Changed(lim, f, now, ids) <==> id in ids && Changes(lim, f, now, id)
  {
    if ids != [] {
      var most, last := ids[..|ids| - 1], ids[|ids| - 1];
      ChangedAre(lim, f, now, most);
      var before := Changed(lim, f, now, most);
      if Changes(lim, f, now, last) {
        assert Changed(lim, f, now, ids) == before + [last];
        assert (before + [last])[..|before|] == before;
      } else {
        assert Changed(lim, f, now, ids) == before;
      }
    }
  }

  /** Over every run a reaper pass reports, in the order of first contact, exactly the robots whose presence it
      changes, and those are the ones it gives a new revision. */
  lemma {:induction false} ReapReports(lim: Limits, es: seq<Event>, now: real, id: string)
    ensures var f := Run(lim, EMPTY, es);
            var reported, after := Changed(lim, f, now, f.order), Reaped(lim, f, now);
            && Thinned(reported, f.order)
            && (id in reported <==> id in f.robots && after.robots[id].presence != f.robots[id].presence)
            && (id in f.robots ==>
                 after.robots[id].rev == f.robots[id].rev + (if id in reported then 1 else 0))
  {
    RunOrdered(lim, es);
    var f := Run(lim, EMPTY, es);
    ChangedAre(lim, f, now, f.order);
    hide Run, Changed, Thinned, Judged;
  }

  /** From a broken link reported no earlier than the robot was last heard, until it is heard again or its link said
      to be up, the robot is OFFLINE and not online, whatever the others do and however often the reaper passes. */
  lemma {:induction false} BrokenLinkIsOffline(lim: Limits, f: State, id: string, at: real, now: real,
                                               since: seq<Event>)
    requires id in f.robots ==> f.robots[id].lastSeen <= at && (f.robots[id].online <==> f.robots[id].presence == OK)
    requires 0.0 <= at && NotAbout(since, id)
    ensures var g := Run(lim, LinkSet(lim, f, id, false, at, now), since);
            id in g.robots && g.robots[id].presence == OFFLINE && !g.robots[id].online
  {
    if since != [] {
      var most := since[..|since| - 1];
      BrokenLinkIsOffline(lim, f, id, at, now, most);
      NobodyElseTouches(lim, LinkSet(lim, f, id, false, at, now), most, id);
    }
  }

  /** The robots the events are about, in order. */
  function IdsOf(es: seq<Event>): seq<string> {
    if es == [] then [] else IdsOf(es[..|es| - 1]) + (if es[|es| - 1].Reap? then [] else [es[|es| - 1].id])
  }

  /** Over every run the robots are listed in order of first contact, each once, and no other. */
  lemma {:induction false} RunOrdered(lim: Limits, es: seq<Event>)
    ensures Ordered(Run(lim, EMPTY, es))
    ensures Run(lim, EMPTY, es).order == Firsts(IdsOf(es))
  {
    if es != [] {
      RunOrdered(lim, es[..|es| - 1]);
      var f, e := Run(lim, EMPTY, es[..|es| - 1]), es[|es| - 1];
      if !e.Reap? {
        KnownOrdered(f, e.id);
        var ids := IdsOf(es);
        assert ids[..|ids| - 1] == IdsOf(es[..|es| - 1]) && ids[|ids| - 1] == e.id;
      } else {
        assert IdsOf(es) == IdsOf(es[..|es| - 1]);
      }
    }
  }

  lemma {:induction false} KnownOrdered(f: State, id: string)
    requires Ordered(f)
    ensures Ordered(Known(f, id)) && id in Known(f, id).robots
  {
    assert forall i :: 0 <= i < |f.order| ==> f.order[i] in f.robots;
  }

  /** Whether a last will changes `link` without a new revision can be told beforehand: "offline" does when the
      robot is OFFLINE already, or was heard later and stands where its silence puts it; "online" does when it
      stands where its silence puts it. */
  lemma {:induction false} LinkIsSilentIff(lim: Limits, r: Robot, up: bool, at: real, now: real)
    ensures Linked(lim, r, up, at, now).link == Some(up)
    ensures Linked(lim, r, up, at, now).rev == r.rev
            <==> r.presence == if !up && at >= r.lastSeen then OFFLINE else Rung(lim, r.lastSeen, now)
    ensures Linked(lim, r, up, at, now).rev == r.rev ==>
            Linked(lim, r, up, at, now) == r.(link := Some(up), linkAt := at)
  {
  }

  /** What the last will last said in a run, if it said anything. */
  function LastLink(es: seq<Event>, id: string, before: Option<bool>): Option<bool> {
    if es == [] then before
    else if es[|es| - 1].SetLink? && es[|es| - 1].id == id then Some(es[|es| - 1].up)
    else LastLink(es[..|es| - 1], id, before)
  }

  /** Over every run a robot's link is what its last will last said. */
  lemma {:induction false} LinkIsLast(lim: Limits, f: State, es: seq<Event>, id: string)
    requires id in f.robots
    ensures id in Run(lim, f, es).robots && Run(lim, f, es).robots[id].link == LastLink(es, id, f.robots[id].link)
  {
    if es != [] {
      LinkIsLast(lim, f, es[..|es| - 1], id);
    }
  }

  /** Known by its last will alone, which said `up` last. */
  predicate Unheard(r: Robot, up: bool) {
    && r.lastSeen == 0.0 && r.rxCount == 0 && r.data == "" && r.link == Some(up) && r.linkAt >= 0.0
    && r.presence == (if up then UNKNOWN else OFFLINE) && !r.online
  }

  lemma {:induction false} StepUnheard(lim: Limits, f: State, e: Event, id: string, up: bool)
    requires id in f.robots ==> Unheard(f.robots[id], up)
    requires id in Step(lim, f, e).robots && (e.Ingest? ==> e.id != id) && (e.SetLink? ==> e.at >= 0.0)
    ensures Unheard(Step(lim, f, e).robots[id], if e.SetLink? && e.id == id then e.up else up)
  {
  }

  /** A robot no message ever came from: UNKNOWN while its last will said online last and OFFLINE while it said
      offline, however often the reaper passes, and with nothing received. */
  lemma {:induction false} NeverHeard(lim: Limits, es: seq<Event>, id: string)
    requires Clocked(es) && id in Run(lim, EMPTY, es).robots
    requires forall e :: e in es && e.Ingest? ==> e.id != id
    ensures LastLink(es, id, None).Some? && Unheard(Run(lim, EMPTY, es).robots[id], LastLink(es, id, None).value)
  {
    hide Step, Unheard;
    if es != [] {
      var most, e := es[..|es| - 1], es[|es| - 1];
      assert e in es && forall x :: x in most ==> x in es;
      var f := Run(lim, EMPTY, most);
      if id in f.robots {
        NeverHeard(lim, most, id);
        StepUnheard(lim, f, e, id, LastLink(most, id, None).value);
      } else {
        StepAdds(lim, f, e, id);
        StepUnheard(lim, f, e, id, e.up);
      }
    }
  }

  lemma {:induction false} StepAdds(lim: Limits, f: State, e: Event, id: string)
    requires id !in f.robots && id in Step(lim, f, e).robots
    ensures !e.Reap? && e.id == id
  {
  }

  /** A first contact by last will: "offline" is a change to be shown, "online" is none. */
  lemma {:induction false} FirstLink(lim: Limits, f: State, id: string, up: bool, at: real, now: real)
    requires id !in f.robots && at >= 0.0
    ensures var g := LinkSet(lim, f, id, up, at, now);
            && id in g.robots && g.order == f.order + [id]
            && g.robots[id].presence == (if up then UNKNOWN else OFFLINE)
            && g.robots[id].rev == if up then 0 else 1
  {
  }

  // ---------------------------------------------------------------- summary

  function CountOf(f: State, ids: seq<string>, p: Presence): nat
    requires forall id :: id in ids ==> id in f.robots
  {
    if ids == [] then 0 else
    CountOf(f, ids[..|ids| - 1], p) + (if f.robots[ids[|ids| - 1]].presence == p then 1 else 0)
  }

  /** Online, stale, unknown and offline add up to the total. */
  lemma {:induction false} SummaryPartitions(f: State, ids: seq<string>)
    requires forall id :: id in ids ==> id in f.robots
    ensures CountOf(f, ids, OK) + CountOf(f, ids, STALE) + CountOf(f, ids, UNKNOWN) + CountOf(f, ids, OFFLINE) == |ids|
  {
    if ids != [] {
      SummaryPartitions(f, ids[..|ids| - 1]);
    }
  }

  function Standing(f: State, ids: set<string>, p: Presence): set<string>
    requires ids <= f.robots.Keys
  {
    set id | id in ids && f.robots[id].presence == p
  }

  lemma {:induction false} StandingOneMore(f: State, ids: set<string>, id: string, p: Presence)
    requires ids + {id} <= f.robots.Keys && id !in ids
    ensures Standing(f, ids + {id}, p) == Standing(f, ids, p) + (if f.robots[id].presence == p then {id} else {})
    ensures id !in Standing(f, ids, p)
  {
  }

  lemma {:induction false} IdsSnoc(ids: seq<string>, most: seq<string>, last: string)
    requires ids == most + [last] && Distinct(ids)
    ensures (set id | id in ids) == (set id | id in most) + {last} && last !in most
  {
    assert forall i :: 0 <= i < |most| ==> ids[i] == most[i] && ids[i] != ids[|most|];
  }

  /** Each count is the number of robots in that presence. */
  lemma {:induction false} CountOfIs(f: State, ids: seq<string>, p: Presence)
    requires forall id :: id in ids ==> id in f.robots
    requires Distinct(ids)
    ensures (set id | id in ids) <= f.robots.Keys
    ensures CountOf(f, ids, p) == |Standing(f, (set id | id in ids), p)|
  {
    if ids == [] {
      assert (set id | id in ids) == {};
    } else {
      var most, last := ids[..|ids| - 1], ids[|ids| - 1];
      assert Distinct(most) && forall id :: id in most ==> id in ids;
      CountOfIs(f, most, p);
      IdsSnoc(ids, most, last);
      hide Distinct;
      StandingOneMore(f, (set id | id in most), last, p);
      hide Standing;
    }
  }

  /** Over every run the summary counts each robot once, under the presence it has. */
  lemma {:induction false} SummaryCounts(lim: Limits, es: seq<Event>, p: Presence)
    ensures var f := Run(lim, EMPTY, es);
            && (forall id :: id in f.order ==> id in f.robots)
            && CountOf(f, f.order, p) == |set id | id in f.robots && f.robots[id].presence == p|
            && |f.order| == |f.robots|
  {
    RunOrdered(lim, es);
    var f := Run(lim, EMPTY, es);
    CountOfIs(f, f.order, p);
    OrderCounts(f.order);
    hide Run, CountOf;
    assert (set id | id in f.order) == f.robots.Keys;
    assert Standing(f, f.robots.Keys, p) == set id | id in f.robots && f.robots[id].presence == p;
  }

  lemma {:induction false} OrderCounts(ids: seq<string>)
    requires Distinct(ids)
    ensures |set id | id in ids| == |ids|
  {
    if ids != [] {
      var most, last := ids[..|ids| - 1], ids[|ids| - 1];
      OrderCounts(most);
      IdsSnoc(ids, most, last);
    }
  }
}
