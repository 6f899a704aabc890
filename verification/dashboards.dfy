/** What dashboards show, field by field, and that an undisturbed push reaches its end. */
module Dashboards {
  import opened Deques
  import opened Hub
  import opened Options
  import F = Fleet

  /** The record tells of the robot as it is, its link aside. */
  predicate Tells(d: Record, r: F.Robot) {
    && d.data == r.data && d.presence == r.presence && d.online == r.online
    && d.lastSeen == r.lastSeen && d.rxCount == r.rxCount && d.rev == r.rev
  }

  predicate TellsOf<W(==)>(s: State<W>, ws: W, id: string) {
    ws in s.views && id in s.views[ws] && id in s.fleet.robots && Tells(s.views[ws][id], s.fleet.robots[id])
  }

  lemma {:induction false} ShowsTells<W>(s: State<W>, ws: W, id: string)
    requires Shows(s, ws, id)
    ensures TellsOf(s, ws, id)
  {
  }

  /** After a push during which no robot changed, every connected client's view of a robot it does not miss has the
      robot's payload, presence, time of last contact, message count and revision. */
  lemma {:induction false} PushTells<W(!new)>(lim: F.Limits, before: seq<Event<W>>, order: seq<W>, es: seq<Event<W>>,
                                              ws: W, id: string)
    requires var s := Run(lim, Initial(), before);
             s.queue == [] && s.sending.None? && Lists(order, s.clients)
    requires Quiet(es)
    requires var s' := Run(lim, Step(lim, Run(lim, Initial(), before), PushBegin(order)), es);
             s'.queue == [] && s'.sending.None? && ws in s'.clients && id in s'.fleet.robots && !Misses(s', ws, id)
    ensures TellsOf(Run(lim, Step(lim, Run(lim, Initial(), before), PushBegin(order)), es), ws, id)
  {
    PushBringsAgreement(lim, before, order, es);
    hide Run, Step, Misses, Shows, Tells;
    ShowsTells(Run(lim, Step(lim, Run(lim, Initial(), before), PushBegin(order)), es), ws, id);
  }

  /** The snapshot a joining socket is handed tells of every robot, link included, and of no other. */
  lemma {:induction false} SnapshotTells<W(!new)>(lim: F.Limits, s: State<W>, ws: W)
    requires ws !in s.views
    ensures var s' := Step(lim, s, JoinStart(ws));
            && ws in s'.views && s'.views[ws].Keys == s'.fleet.robots.Keys
            && forall id :: id in s'.fleet.robots ==>
                 TellsOf(s', ws, id) && s'.views[ws][id].link == s'.fleet.robots[id].link
  {
  }

  /** So does a record handed over by a push. */
  lemma {:induction false} HandedTells<W(!new)>(lim: F.Limits, s: State<W>, ws: W, id: string)
    requires Inv(s) && Sends(s, SendStart, ws, id)
    ensures var s' := Step(lim, s, SendStart);
            TellsOf(s', ws, id) && s'.views[ws][id].link == s'.fleet.robots[id].link
  {
    HandedIsExact(lim, s, ws, id);
    var s' := Step(lim, s, SendStart);
    assert s'.fleet == s.fleet;
    hide Step, Inv, Sends;
  }

  // ---------------------------------------------------------------- a join

  /** Nothing is noted for the joining client, and no push has come to it yet. */
  predicate Unserved<W(==)>(s: State<W>, ws: W) {
    && ws in s.views && (ws in s.clients ==> s.clients[ws] == Client(false, map[]))
    && (forall i :: 0 <= i < |s.queue| && s.queue[i].ws == ws ==> s.queue[i].seen == map[])
    && (s.sending.Some? ==> s.sending.value.ticket.ws != ws)
  }

  predicate Serves<W(==)>(s: State<W>, e: Event<W>, ws: W) {
    e.SendStart? && s.queue != [] && s.sending.None? && s.queue[0].ws == ws
  }

  /** The join goes on, and no push comes to the client. */
  ghost predicate NotYet<W>(lim: F.Limits, s: State<W>, es: seq<Event<W>>, ws: W) {
    forall i :: 0 <= i < |es| ==> es[i] != JoinEnd(ws) && !Serves(Run(lim, s, es[..i]), es[i], ws)
  }

  lemma {:induction false} StepUnserved<W(!new)>(lim: F.Limits, s: State<W>, e: Event<W>, ws: W)
    requires Unserved(s, ws) && e != JoinEnd(ws) && !Serves(s, e, ws)
    ensures Unserved(Step(lim, s, e), ws)
  {
    hide F.Step, Logged, Delta, Gone, Noted, Snapshot, Revs;
  }

  lemma {:induction false} RunUnserved<W(!new)>(lim: F.Limits, s: State<W>, es: seq<Event<W>>, ws: W)
    requires Unserved(s, ws) && NotYet(lim, s, es, ws)
    ensures Unserved(Run(lim, s, es), ws)
  {
    hide Step, Unserved;
    if es != [] {
      var most := es[..|es| - 1];
      assert forall i :: 0 <= i < |most| ==> most[..i] == es[..i] && most[i] == es[i];
      RunUnserved(lim, s, most, ws);
      assert es[..|es| - 1] == most;
      StepUnserved(lim, Run(lim, s, most), es[|es| - 1], ws);
    }
  }

  /** The first push that comes to a client while its join is under way hands it every robot, whatever its snapshot
      showed and whatever happened since. */
  lemma {:induction false} JoiningIsHandedAll<W(!new)>(lim: F.Limits, before: seq<Event<W>>, ws: W, es: seq<Event<W>>)
    requires ws !in Run(lim, Initial(), before).views
    requires var joining := Step(lim, Run(lim, Initial(), before), JoinStart(ws));
             NotYet(lim, joining, es, ws) && Serves(Run(lim, joining, es), SendStart, ws)
    ensures var s := Run(lim, Step(lim, Run(lim, Initial(), before), JoinStart(ws)), es);
            var s' := Step(lim, s, SendStart);
            if s.fleet.robots == map[] then s'.sending.None?
            else
              && s'.sending.Some? && s'.sending.value.ticket.ws == ws
              && s'.sending.value.changed.Keys == s.fleet.robots.Keys
  {
    var s0 := Run(lim, Initial<W>(), before);
    var joining := Step(lim, s0, JoinStart(ws));
    RecordsAreGenuine(lim, before);
    assert Unserved(joining, ws) by {
      assert forall i :: 0 <= i < |s0.queue| ==> TicketOk(s0, s0.queue[i]);
    }
    hide Inv;
    RunUnserved(lim, joining, es, ws);
    var s := Run(lim, joining, es);
    hide Run, ToDict;
    assert Delta(s.fleet, map[]).Keys == s.fleet.robots.Keys;
    assert Gone(s.fleet, map[]) == {};
  }

  // ---------------------------------------------------------------- the end of a push

  /** Every send succeeds and nothing else happens meanwhile. */
  function Serving<W>(n: nat): seq<Event<W>> {
    if n == 0 then [] else Serving(n - 1) + [SendStart, SendEnd(true)]
  }

  lemma {:induction false} ServingIsQuiet<W(!new)>(n: nat)
    ensures Quiet(Serving<W>(n))
  {
    if n > 0 {
      ServingIsQuiet<W>(n - 1);
    }
  }

  lemma {:induction false} OneServed<W(!new)>(lim: F.Limits, s: State<W>)
    requires s.sending.None?
    ensures var s' := Step(lim, Step(lim, s, SendStart), SendEnd(true));
            && s'.sending.None? && s'.queue == (if s.queue == [] then [] else s.queue[1..])
            && s'.clients.Keys == s.clients.Keys && s'.fleet == s.fleet
  {
    hide Delta, Gone, Noted;
  }

  lemma {:induction false} ServingServes<W(!new)>(lim: F.Limits, s: State<W>, n: nat)
    requires s.sending.None? && n <= |s.queue|
    ensures var s' := Run(lim, s, Serving(n));
            s'.sending.None? && s'.queue == s.queue[n..] && s'.clients.Keys == s.clients.Keys && s'.fleet == s.fleet
  {
    hide Step;
    if n > 0 {
      ServingServes(lim, s, n - 1);
      var es: seq<Event<W>> := Serving(n);
      var most, mid := es[..|es| - 1], Run(lim, s, Serving(n - 1));
      assert most[..|most| - 1] == Serving(n - 1) && most[|most| - 1] == SendStart;
      assert Run(lim, s, es) == Step(lim, Step(lim, mid, SendStart), SendEnd(true));
      OneServed(lim, mid);
      assert s.queue[n - 1..][1..] == s.queue[n..];
    }
  }

  /** An undisturbed push ends after one send per client, with every client still there and, unless it misses the
      robot, told of it. */
  lemma {:induction false} PushEnds<W(!new)>(lim: F.Limits, before: seq<Event<W>>, order: seq<W>)
    requires var s := Run(lim, Initial(), before);
             s.queue == [] && s.sending.None? && Lists(order, s.clients)
    ensures var s := Run(lim, Initial(), before);
            var s' := Run(lim, Step(lim, s, PushBegin(order)), Serving(|order|));
            && s'.queue == [] && s'.sending.None? && s'.clients.Keys == s.clients.Keys && s'.fleet == s.fleet
            && forall ws, id :: ws in s.clients && id in s.fleet.robots && !Misses(s', ws, id) ==> TellsOf(s', ws, id)
  {
    var s := Run(lim, Initial(), before);
    var begun := Step(lim, s, PushBegin(order));
    assert begun == s.(queue := Tickets(s.clients, order));
    ServingServes(lim, begun, |order|);
    ServingIsQuiet<W>(|order|);
    hide Run, Step, Misses, TellsOf, Quiet, Lists, Tickets;
    var s' := Run(lim, begun, Serving(|order|));
    forall ws, id | ws in s.clients && id in s.fleet.robots && !Misses(s', ws, id) ensures TellsOf(s', ws, id) {
      PushTells(lim, before, order, Serving(|order|), ws, id);
    }
  }

  // ---------------------------------------------------------------- what a message brings

  /** A payload that has just come in: after an undisturbed push every client that does not miss the robot shows this
      payload, this time, presence OK and one message more. */
  lemma {:induction false} IngestIsShown<W(!new)>(lim: F.Limits, before: seq<Event<W>>, id: string, data: string,
                                                  now: real, order: seq<W>, es: seq<Event<W>>, ws: W)
    requires var s := Run(lim, Initial(), before + [Change(F.Ingest(id, data, now))]);
             s.queue == [] && s.sending.None? && Lists(order, s.clients)
    requires Quiet(es)
    requires var s := Run(lim, Initial(), before + [Change(F.Ingest(id, data, now))]);
             var s' := Run(lim, Step(lim, s, PushBegin(order)), es);
             s'.queue == [] && s'.sending.None? && ws in s'.clients && !Misses(s', ws, id)
    ensures var old' := Run(lim, Initial<W>(), before).fleet.robots;
            var s := Run(lim, Initial(), before + [Change(F.Ingest(id, data, now))]);
            var s' := Run(lim, Step(lim, s, PushBegin(order)), es);
            && ws in s'.views && id in s'.views[ws]
            && var d := s'.views[ws][id];
               && d.data == data && d.lastSeen == now && d.presence == F.OK && d.online
               && d.rxCount == (if id in old' then old'[id].rxCount else 0) + 1
  {
    var e: Event<W> := Change(F.Ingest(id, data, now));
    var all := before + [e];
    assert all[..|all| - 1] == before;
    var s0, s := Run(lim, Initial<W>(), before), Run(lim, Initial<W>(), all);
    assert s == Step(lim, s0, e);
    IngestIsKept(lim, s0, id, data, now);
    RecordsAreGenuine(lim, all);
    StepKeepsInv(lim, s, PushBegin(order));
    BeginsProgress(lim, s, order);
    QuietRun(lim, Step(lim, s, PushBegin(order)), es);
    assert Step(lim, s, PushBegin(order)).fleet == s.fleet;
    hide Run, Step, Misses, Inv, Progress, Quiet, Lists;
    PushTells(lim, all, order, es, ws, id);
  }

  lemma {:induction false} IngestIsKept<W(!new)>(lim: F.Limits, s: State<W>, id: string, data: string, now: real)
    ensures var s' := Step(lim, s, Change(F.Ingest(id, data, now)));
            && id in s'.fleet.robots
            && var r := s'.fleet.robots[id];
               && r.data == data && r.lastSeen == now && r.presence == F.OK && r.online
               && r.rxCount == (if id in s.fleet.robots then s.fleet.robots[id].rxCount else 0) + 1
  {
  }
}
