/** The dashboard hub as a state machine: robots change while a message is being sent, client by client.

    A push is one `PushBegin`, then for every client it found a `SendStart`, which computes the delta and hands
    it to the socket, and a `SendEnd`.  A join is a `JoinStart`, which registers an empty revision map and hands
    over the snapshot, and a `JoinEnd`, which replaces that map by the revisions of that moment.  Any other event
    may come in between. */
module Hub {
  import opened Deques
  import opened Options
  import F = Fleet

  /** What `to_dict` shows of a robot, except the age computed from the clock. */
  datatype Record = Record(data: string, presence: F.Presence, online: bool, lastSeen: real, rxCount: nat, rev: nat,
                           link: Option<bool>)

  function ToDict(r: F.Robot): Record {
    Record(r.data, r.presence, r.online, r.lastSeen, r.rxCount, r.rev, r.link)
  }

  /** The part of a record that a revision determines. */
  function Shown(d: Record): Record {
    d.(link := None)
  }

  /** A registered socket.  Joining and joined sockets have different maps. */
  datatype Client = Client(joined: bool, seen: map<string, nat>)

  /** What a push took from the client dictionary: a socket and the map it had. */
  datatype Ticket<W> = Ticket(ws: W, joined: bool, seen: map<string, nat>)

  datatype Sending<W> = Sending(ticket: Ticket<W>, changed: map<string, Record>, gone: set<string>)

  /** `log[id][n]` is what robot `id` showed when it reached revision n; `views` is what each socket has been
      handed so far, applied in order. */
  datatype State<W(==)> = State(fleet: F.State, log: map<string, seq<Record>>, clients: map<W, Client>,
                                views: map<W, map<string, Record>>, joining: set<W>, queue: seq<Ticket<W>>,
                                sending: Option<Sending<W>>)

  datatype Event<W> =
    | Change(e: F.Event)
    | JoinStart(ws: W)
    | JoinEnd(ws: W)
    | Leave(ws: W)
    | PushBegin(order: seq<W>)
    | SendStart
    | SendEnd(ok: bool)

  function Revs(f: F.State): map<string, nat> {
    map id | id in f.robots :: f.robots[id].rev
  }

  function Snapshot(f: F.State): map<string, Record> {
    map id | id in f.robots :: ToDict(f.robots[id])
  }

  /** The robots whose revision is not the one noted. */
  function Delta(f: F.State, seen: map<string, nat>): map<string, Record> {
    map id | id in f.robots && !(id in seen && seen[id] == f.robots[id].rev) :: ToDict(f.robots[id])
  }

  function Gone(f: F.State, seen: map<string, nat>): set<string> {
    set id | id in seen && id !in f.robots
  }

  function Noted(changed: map<string, Record>): map<string, nat> {
    map id | id in changed :: changed[id].rev
  }

  function Grown(log: seq<Record>, r: F.Robot): seq<Record> {
    if |log| > r.rev then log else log + [Shown(ToDict(r))]
  }

  function Logged(log: map<string, seq<Record>>, f: F.State): map<string, seq<Record>> {
    map id | id in f.robots :: Grown(if id in log then log[id] else [Shown(ToDict(F.NEW))], f.robots[id])
  }

  function Tickets<W>(clients: map<W, Client>, order: seq<W>): seq<Ticket<W>>
    requires forall ws :: ws in order ==> ws in clients
  {
    seq(|order|, i requires 0 <= i < |order| => Ticket(order[i], clients[order[i]].joined, clients[order[i]].seen))
  }

  /** The ticket's map is still the one its socket has. */
  predicate Holds<W(==)>(s: State<W>, t: Ticket<W>) {
    t.ws in s.clients && s.clients[t.ws].joined == t.joined
  }

  /** Events that cannot happen change nothing: a socket joins once, and pushes do not overlap. */
  function Step<W>(lim: F.Limits, s: State<W>, e: Event<W>): State<W> {
    match e
    case Change(fe) =>
      var f := F.Step(lim, s.fleet, fe);
      s.(fleet := f, log := Logged(s.log, f))
    case JoinStart(ws) =>
      if ws in s.views then s
      else s.(clients := s.clients[ws := Client(false, map[])], views := s.views[ws := Snapshot(s.fleet)],
              joining := s.joining + {ws})
    case JoinEnd(ws) =>
      if ws !in s.joining then s
      else s.(clients := s.clients[ws := Client(true, Revs(s.fleet))], joining := s.joining - {ws})
    case Leave(ws) => s.(clients := s.clients - {ws})
    case PushBegin(order) =>
      if s.queue != [] || s.sending.Some? || !Lists(order, s.clients) then s else s.(queue := Tickets(s.clients, order))
    case SendStart =>
      if s.queue == [] || s.sending.Some? then s else Started(s)
    case SendEnd(ok) =>
      if s.sending.None? then s else Ended(s, ok)
  }

  /** An order in which the dictionary may list its sockets. */
  predicate Lists<W(==)>(order: seq<W>, clients: map<W, Client>) {
    Distinct(order) && (set ws | ws in order) == clients.Keys
  }

  /** Nothing is sent when nothing differs; a socket that has left is sent to all the same. */
  function Started<W>(s: State<W>): State<W>
    requires s.queue != []
  {
    var t, rest := s.queue[0], s.(queue := s.queue[1..]);
    var changed, gone := Delta(s.fleet, t.seen), Gone(s.fleet, t.seen);
    if (changed == map[] && gone == {}) || t.ws !in s.views then rest
    else rest.(sending := Some(Sending(t, changed, gone)), views := s.views[t.ws := (s.views[t.ws] + changed) - gone])
  }

  function Ended<W>(s: State<W>, ok: bool): State<W>
    requires s.sending.Some?
  {
    var m := s.sending.value;
    s.(sending := None,
       clients := if !ok then s.clients - {m.ticket.ws}
                  else if Holds(s, m.ticket) then
                    var c := s.clients[m.ticket.ws];
                    s.clients[m.ticket.ws := c.(seen := (c.seen + Noted(m.changed)) - m.gone)]
                  else s.clients)
  }

  function Run<W>(lim: F.Limits, s: State<W>, es: seq<Event<W>>): State<W> {
    if es == [] then s else Step(lim, Run(lim, s, es[..|es| - 1]), es[|es| - 1])
  }

  function Initial<W>(): State<W> {
    State(F.EMPTY, map[], map[], map[], {}, [], None)
  }

  // ---------------------------------------------------------------- revisions

  /** One fleet event raises a revision by at most one, and shows nothing new without raising it. */
  lemma {:induction false} RevisionsCount(lim: F.Limits, f: F.State, e: F.Event, id: string)
    requires id in F.Step(lim, f, e).robots
    ensures var before := if id in f.robots then f.robots[id] else F.NEW;
            var after := F.Step(lim, f, e).robots[id];
            || (after.rev == before.rev && Shown(ToDict(after)) == Shown(ToDict(before)))
            || after.rev == before.rev + 1
    ensures id in f.robots || !e.Reap?
  {
  }

  lemma {:induction false} RevisionsOnlyGrow(lim: F.Limits, f: F.State, e: F.Event, seen: map<string, nat>)
    requires Reached(f, seen)
    ensures Reached(F.Step(lim, f, e), seen)
  {
    FleetOnlyGrows(lim, f, e);
    forall id | id in seen ensures seen[id] <= F.Step(lim, f, e).robots[id].rev {
      assert id in F.Step(lim, f, e).robots;
      RevisionsCount(lim, f, e, id);
    }
  }

  lemma {:induction false} FleetOnlyGrows(lim: F.Limits, f: F.State, e: F.Event)
    ensures f.robots.Keys <= F.Step(lim, f, e).robots.Keys
  {
  }

  // ---------------------------------------------------------------- logs

  predicate LogOf(log: seq<Record>, r: F.Robot) {
    && |log| == r.rev + 1
    && log[r.rev] == Shown(ToDict(r))
    && forall n :: 0 <= n < |log| ==> log[n].rev == n
  }

  predicate Logs(f: F.State, log: map<string, seq<Record>>) {
    && log.Keys == f.robots.Keys
    && forall id :: id in log ==> LogOf(log[id], f.robots[id])
  }

  /** Every record is what its robot showed at the revision it carries. */
  predicate Genuine(log: map<string, seq<Record>>, ds: map<string, Record>) {
    forall id :: id in ds ==> id in log && ds[id].rev < |log[id]| && Shown(ds[id]) == log[id][ds[id].rev]
  }

  /** Later logs extend earlier ones. */
  predicate Extends(a: map<string, seq<Record>>, b: map<string, seq<Record>>) {
    forall id :: id in a ==> id in b && a[id] <= b[id]
  }

  lemma {:induction false} StillGenuine(a: map<string, seq<Record>>, b: map<string, seq<Record>>,
                                        ds: map<string, Record>)
    requires Extends(a, b) && Genuine(a, ds)
    ensures Genuine(b, ds)
  {
  }

  lemma {:induction false} LogsGrow<W>(lim: F.Limits, s: State<W>, fe: F.Event)
    requires Logs(s.fleet, s.log)
    ensures Logs(Step(lim, s, Change(fe)).fleet, Step(lim, s, Change(fe)).log)
            && Extends(s.log, Step(lim, s, Change(fe)).log)
  {
    var f := F.Step(lim, s.fleet, fe);
    FleetOnlyGrows(lim, s.fleet, fe);
    hide F.Step, Shown, ToDict;
    forall id | id in f.robots
      ensures LogOf(Logged(s.log, f)[id], f.robots[id])
      ensures id in s.log ==> s.log[id] <= Logged(s.log, f)[id]
    {
      RevisionsCount(lim, s.fleet, fe, id);
      ShownRev(f.robots[id]);
      NewLog();
    }
    hide LogOf, Logged;
  }

  lemma {:induction false} ShownRev(r: F.Robot)
    ensures Shown(ToDict(r)).rev == r.rev
  {
  }

  lemma {:induction false} NewLog()
    ensures LogOf([Shown(ToDict(F.NEW))], F.NEW)
  {
  }

  // ---------------------------------------------------------------- what a socket is credited with

  /** The revisions noted for a client, including those that the send under way will note. */
  function Credit<W>(s: State<W>, ws: W): map<string, nat>
    requires ws in s.clients
  {
    var seen := s.clients[ws].seen;
    if s.sending.Some? && s.sending.value.ticket.ws == ws && Holds(s, s.sending.value.ticket) then
      (seen + Noted(s.sending.value.changed)) - s.sending.value.gone
    else seen
  }

  /** The client is credited with a revision of the robot that its socket was never handed. */
  predicate Misses<W(==)>(s: State<W>, ws: W, id: string) {
    && ws in s.clients && ws in s.views && id in Credit(s, ws)
    && !(id in s.views[ws] && s.views[ws][id].rev >= Credit(s, ws)[id])
  }

  /** Only revisions robots have reached. */
  predicate Reached(f: F.State, seen: map<string, nat>) {
    forall id :: id in seen ==> id in f.robots && seen[id] <= f.robots[id].rev
  }

  predicate TicketOk<W>(s: State<W>, t: Ticket<W>) {
    && t.ws in s.views && Reached(s.fleet, t.seen) && (t.joined ==> t.ws !in s.joining)
  }

  predicate DifferentSockets<W(==)>(queue: seq<Ticket<W>>) {
    forall i, j :: 0 <= i < j < |queue| ==> queue[i].ws != queue[j].ws
  }

  ghost predicate QueueOk<W(!new)>(s: State<W>) {
    && DifferentSockets(s.queue)
    && (forall i :: 0 <= i < |s.queue| ==> TicketOk(s, s.queue[i]))
    && (forall i :: 0 <= i < |s.queue| && Holds(s, s.queue[i]) ==> s.clients[s.queue[i].ws].seen == s.queue[i].seen)
    && (s.sending.Some? ==>
          && TicketOk(s, s.sending.value.ticket) && s.sending.value.gone == {}
          && Reached(s.fleet, Noted(s.sending.value.changed))
          && forall i :: 0 <= i < |s.queue| ==> s.queue[i].ws != s.sending.value.ticket.ws)
  }

  ghost predicate ClientsOk<W(!new)>(s: State<W>) {
    && s.clients.Keys <= s.views.Keys && s.joining <= s.views.Keys
    && (forall ws :: ws in s.clients ==> Reached(s.fleet, s.clients[ws].seen))
    && (forall ws :: ws in s.clients ==> (s.clients[ws].joined <==> ws !in s.joining))
  }

  ghost predicate JoiningMissNothing<W(!new)>(s: State<W>) {
    forall ws, id :: ws in s.clients && !s.clients[ws].joined ==> !Misses(s, ws, id)
  }

  ghost predicate ViewsOk<W(!new)>(s: State<W>) {
    forall ws :: ws in s.views ==> Genuine(s.log, s.views[ws])
  }

  ghost predicate Inv<W(!new)>(s: State<W>) {
    Logs(s.fleet, s.log) && ViewsOk(s) && ClientsOk(s) && QueueOk(s) && JoiningMissNothing(s)
  }

  lemma {:induction false} ChangeKeepsInv<W(!new)>(lim: F.Limits, s: State<W>, fe: F.Event)
    requires Inv(s)
    ensures Inv(Step(lim, s, Change(fe)))
  {
    var s' := Step(lim, s, Change(fe));
    LogsGrow(lim, s, fe);
    forall ws | ws in s.views ensures Genuine(s'.log, s.views[ws]) {
      StillGenuine(s.log, s'.log, s.views[ws]);
    }
    ChangeKeepsQueue(lim, s, fe);
    ChangeKeepsMisses(lim, s, fe);
    hide Logs, Genuine, Logged, F.Step, Extends, Misses, QueueOk, ClientsOk;
  }

  lemma {:induction false} ChangeKeepsMisses<W(!new)>(lim: F.Limits, s: State<W>, fe: F.Event)
    ensures forall ws, id :: Misses(Step(lim, s, Change(fe)), ws, id) <==> Misses(s, ws, id)
  {
    hide F.Step, Logged, Noted;
  }

  lemma {:induction false} ChangeKeepsQueue<W(!new)>(lim: F.Limits, s: State<W>, fe: F.Event)
    requires ClientsOk(s) && QueueOk(s)
    ensures ClientsOk(Step(lim, s, Change(fe))) && QueueOk(Step(lim, s, Change(fe)))
  {
    ChangeKeepsReached(lim, s, fe);
    hide Reached, F.Step, Logged, DifferentSockets, Noted;
  }

  lemma {:induction false} ChangeKeepsReached<W(!new)>(lim: F.Limits, s: State<W>, fe: F.Event)
    requires ClientsOk(s) && QueueOk(s)
    ensures var f := Step(lim, s, Change(fe)).fleet;
            && (forall ws :: ws in s.clients ==> Reached(f, s.clients[ws].seen))
            && (forall i :: 0 <= i < |s.queue| ==> Reached(f, s.queue[i].seen))
            && (s.sending.Some? ==>
                  Reached(f, Noted(s.sending.value.changed)) && Reached(f, s.sending.value.ticket.seen))
  {
    forall seen | Reached(s.fleet, seen) ensures Reached(F.Step(lim, s.fleet, fe), seen) {
      RevisionsOnlyGrow(lim, s.fleet, fe, seen);
    }
    hide Reached, F.Step, Logged, Misses, DifferentSockets;
  }

  lemma {:induction false} SnapshotGenuine<W>(s: State<W>)
    requires Logs(s.fleet, s.log)
    ensures Genuine(s.log, Snapshot(s.fleet))
  {
  }

  lemma {:induction false} JoinStartKeepsInv<W(!new)>(lim: F.Limits, s: State<W>, ws: W)
    requires Inv(s)
    ensures Inv(Step(lim, s, JoinStart(ws)))
  {
    if ws !in s.views {
      var s' := Step(lim, s, JoinStart(ws));
      SnapshotGenuine(s);
      NobodyKnown(s.fleet);
      JoinStartKeepsQueue(lim, s, ws);
      JoinStartMisses(lim, s, ws);
      hide Logs, Genuine, Misses, Reached, Snapshot, QueueOk;
    }
  }

  lemma {:induction false} JoinStartKeepsQueue<W(!new)>(lim: F.Limits, s: State<W>, ws: W)
    requires QueueOk(s) && ws !in s.views
    ensures QueueOk(Step(lim, s, JoinStart(ws)))
  {
    hide Snapshot, Reached, DifferentSockets, Noted;
  }

  lemma {:induction false} NobodyKnown(f: F.State)
    ensures Reached(f, map[])
  {
  }

  lemma {:induction false} JoinStartMisses<W(!new)>(lim: F.Limits, s: State<W>, ws: W)
    requires ClientsOk(s) && QueueOk(s) && ws !in s.views
    ensures forall x, id :: Misses(Step(lim, s, JoinStart(ws)), x, id) ==> Misses(s, x, id)
  {
    var s' := Step(lim, s, JoinStart(ws));
    forall x, id | Misses(s', x, id) ensures Misses(s, x, id) {
      hide Snapshot, Reached, DifferentSockets;
      if x != ws {
        assert Credit(s', x) == Credit(s, x) && s'.views[x] == s.views[x];
      }
    }
  }

  lemma {:induction false} JoinEndKeepsInv<W(!new)>(lim: F.Limits, s: State<W>, ws: W)
    requires Inv(s)
    ensures Inv(Step(lim, s, JoinEnd(ws)))
  {
    var s' := Step(lim, s, JoinEnd(ws));
    hide Logs, Genuine;
    forall x, id | x in s'.clients && !s'.clients[x].joined ensures !Misses(s', x, id) {
      assert !Misses(s, x, id);
    }
  }

  lemma {:induction false} LeaveKeepsInv<W(!new)>(lim: F.Limits, s: State<W>, ws: W)
    requires Inv(s)
    ensures Inv(Step(lim, s, Leave(ws)))
  {
    var s' := Step(lim, s, Leave(ws));
    hide Logs, Genuine;
    forall x, id | x in s'.clients && !s'.clients[x].joined ensures !Misses(s', x, id) {
      assert !Misses(s, x, id);
    }
  }

  lemma {:induction false} PushBeginKeepsInv<W(!new)>(lim: F.Limits, s: State<W>, order: seq<W>)
    requires Inv(s)
    ensures Inv(Step(lim, s, PushBegin(order)))
  {
    var s' := Step(lim, s, PushBegin(order));
    hide Logs, Genuine;
    if s' != s {
      assert forall i :: 0 <= i < |order| ==> order[i] in (set ws | ws in order);
      assert s'.clients == s.clients && s'.views == s.views && s'.sending == s.sending;
      forall x, id | x in s'.clients && !s'.clients[x].joined ensures !Misses(s', x, id) {
        assert !Misses(s, x, id);
      }
    }
  }

  lemma {:induction false} DeltaFacts<W>(s: State<W>, seen: map<string, nat>)
    requires Logs(s.fleet, s.log) && Reached(s.fleet, seen)
    ensures Genuine(s.log, Delta(s.fleet, seen)) && Reached(s.fleet, Noted(Delta(s.fleet, seen)))
    ensures Gone(s.fleet, seen) == {}
  {
  }

  lemma {:induction false} GenuineMerge(log: map<string, seq<Record>>, a: map<string, Record>, b: map<string, Record>)
    requires Genuine(log, a) && Genuine(log, b)
    ensures Genuine(log, a + b)
  {
  }

  /** The next send hands the socket a record of the robot. */
  predicate Sends<W(==)>(s: State<W>, e: Event<W>, ws: W, id: string) {
    && e.SendStart? && s.queue != [] && s.sending.None?
    && s.queue[0].ws == ws && ws in s.views && id in Delta(s.fleet, s.queue[0].seen)
  }

  /** The state after handing over `changed` for the first ticket. */
  function Handed<W>(s: State<W>, changed: map<string, Record>): State<W>
    requires s.queue != [] && s.queue[0].ws in s.views
  {
    var t := s.queue[0];
    s.(queue := s.queue[1..], sending := Some(Sending(t, changed, {})),
      views := s.views[t.ws := s.views[t.ws] + changed])
  }

  lemma {:induction false} StartedIs<W(!new)>(lim: F.Limits, s: State<W>)
    requires Logs(s.fleet, s.log) && QueueOk(s) && s.queue != [] && s.sending.None?
    ensures TicketOk(s, s.queue[0])
    ensures var changed := Delta(s.fleet, s.queue[0].seen);
            && Genuine(s.log, changed) && Reached(s.fleet, Noted(changed)) && Live(s.fleet, changed)
            && Step(lim, s, SendStart) == if changed == map[] then s.(queue := s.queue[1..]) else Handed(s, changed)
  {
    var t := s.queue[0];
    assert TicketOk(s, t);
    DeltaFacts(s, t.seen);
    hide Logs, Genuine, Reached, QueueOk, Noted;
    MinusNothing(s.views[t.ws] + Delta(s.fleet, t.seen));
  }

  lemma {:induction false} MinusNothing<K, V>(m: map<K, V>)
    ensures m - {} == m
  {
  }

  /** Records of the robots as they are. */
  predicate Live(f: F.State, changed: map<string, Record>) {
    forall id :: id in changed ==> id in f.robots && changed[id] == ToDict(f.robots[id])
  }

  lemma {:induction false} HandedMisses<W(!new)>(s: State<W>, changed: map<string, Record>, ws: W, id: string)
    requires s.queue != [] && s.sending.None? && s.queue[0].ws in s.views && Live(s.fleet, changed)
    requires ws in s.clients ==> Reached(s.fleet, s.clients[ws].seen)
    ensures Misses(Handed(s, changed), ws, id) <==> Misses(s, ws, id) && !(ws == s.queue[0].ws && id in changed)
  {
    if ws in s.clients && ws in s.views {
      var s' := Handed(s, changed);
      MinusNothing(s.clients[ws].seen + Noted(changed));
      if ws != s.queue[0].ws {
        assert Credit(s', ws) == Credit(s, ws) && s'.views[ws] == s.views[ws];
      } else {
        assert s'.views[ws] == s.views[ws] + changed;
        assert Credit(s, ws) == s.clients[ws].seen;
        assert Credit(s', ws) ==
               (if Holds(s, s.queue[0]) then s.clients[ws].seen + Noted(changed) else s.clients[ws].seen);
        if id in changed {
          assert Noted(changed)[id] == s.fleet.robots[id].rev;
        }
      }
    }
  }

  /** What a send hands over is no longer missed, and nothing else changes. */
  lemma {:induction false} StartMisses<W(!new)>(lim: F.Limits, s: State<W>, ws: W, id: string)
    requires Inv(s)
    ensures Misses(Step(lim, s, SendStart), ws, id) <==> Misses(s, ws, id) && !Sends(s, SendStart, ws, id)
  {
    if s.queue != [] && s.sending.None? {
      StartedIs(lim, s);
      var changed := Delta(s.fleet, s.queue[0].seen);
      HandedMisses(s, changed, ws, id);
      hide Step, Handed, Misses, Logs, Genuine, Live, ViewsOk, JoiningMissNothing, Delta;
      if changed == map[] {
        DequeuedMisses(s, ws, id);
      }
    }
  }

  lemma {:induction false} DequeuedMisses<W(!new)>(s: State<W>, ws: W, id: string)
    requires s.queue != []
    ensures Misses(s.(queue := s.queue[1..]), ws, id) <==> Misses(s, ws, id)
  {
  }

  lemma {:induction false} DequeuedOk<W(!new)>(s: State<W>)
    requires QueueOk(s) && s.queue != []
    ensures QueueOk(s.(queue := s.queue[1..]))
  {
    hide Reached;
  }

  lemma {:induction false} HandedOk<W(!new)>(s: State<W>, changed: map<string, Record>)
    requires QueueOk(s) && s.queue != [] && s.queue[0].ws in s.views && Reached(s.fleet, Noted(changed))
    ensures QueueOk(Handed(s, changed))
  {
    hide Reached, Noted;
    var s' := Handed(s, changed);
    DequeuedOk(s);
    assert TicketOk(s, s.queue[0]);
    assert s'.views.Keys == s.views.Keys;
    assert forall i :: 0 <= i < |s'.queue| ==> s'.queue[i] == s.queue[i + 1];
    assert forall t :: Holds(s', t) <==> Holds(s, t);
    assert forall t :: TicketOk(s', t) <==> TicketOk(s, t);
  }

  lemma {:induction false} HandedViews<W(!new)>(s: State<W>, changed: map<string, Record>)
    requires ViewsOk(s) && ClientsOk(s) && s.queue != [] && s.queue[0].ws in s.views && Genuine(s.log, changed)
    ensures ViewsOk(Handed(s, changed)) && ClientsOk(Handed(s, changed))
  {
    GenuineMerge(s.log, s.views[s.queue[0].ws], changed);
    hide Genuine, Reached;
  }

  lemma {:induction false} StartKeepsJoining<W(!new)>(lim: F.Limits, s: State<W>)
    requires Inv(s) && Step(lim, s, SendStart).clients == s.clients
    ensures JoiningMissNothing(Step(lim, s, SendStart))
  {
    forall x, id | x in s.clients && !s.clients[x].joined ensures !Misses(Step(lim, s, SendStart), x, id) {
      StartMisses(lim, s, x, id);
      hide Misses, Step, Logs, ViewsOk, QueueOk, ClientsOk;
    }
  }

  lemma {:induction false} StartKeepsInv<W(!new)>(lim: F.Limits, s: State<W>)
    requires Inv(s)
    ensures Inv(Step(lim, s, SendStart))
  {
    if s.queue != [] && s.sending.None? {
      StartedIs(lim, s);
      var changed := Delta(s.fleet, s.queue[0].seen);
      DequeuedOk(s);
      HandedOk(s, changed);
      HandedViews(s, changed);
      hide Logs, Genuine, Delta, Reached, QueueOk, Live, JoiningMissNothing;
      if changed != map[] {
        hide Step, ViewsOk, ClientsOk;
        StartKeepsJoining(lim, s);
      } else {
        hide Step;
        StartKeepsJoining(lim, s);
      }
    }
  }

  lemma {:induction false} EndKeepsInv<W(!new)>(lim: F.Limits, s: State<W>, ok: bool)
    requires Inv(s)
    ensures Inv(Step(lim, s, SendEnd(ok)))
  {
    var s' := Step(lim, s, SendEnd(ok));
    hide Logs, Genuine;
    forall x, id | x in s'.clients && !s'.clients[x].joined ensures !Misses(s', x, id) {
      assert !Misses(s, x, id);
    }
  }

  lemma {:induction false} StepKeepsInv<W(!new)>(lim: F.Limits, s: State<W>, e: Event<W>)
    requires Inv(s)
    ensures Inv(Step(lim, s, e))
  {
    hide Inv, Step;
    match e
    case Change(fe) => ChangeKeepsInv(lim, s, fe);
    case JoinStart(ws) => JoinStartKeepsInv(lim, s, ws);
    case JoinEnd(ws) => JoinEndKeepsInv(lim, s, ws);
    case Leave(ws) => LeaveKeepsInv(lim, s, ws);
    case PushBegin(order) => PushBeginKeepsInv(lim, s, order);
    case SendStart => StartKeepsInv(lim, s);
    case SendEnd(ok) => EndKeepsInv(lim, s, ok);
  }

  /** In every reachable state, whatever changes during whichever send, what a socket was handed is what the
      robots showed at the revisions the records carry; and a client is credited only with revisions its robots
      reached. */
  lemma {:induction false} RecordsAreGenuine<W(!new)>(lim: F.Limits, es: seq<Event<W>>)
    ensures Inv(Run(lim, Initial(), es))
  {
    if es != [] {
      RecordsAreGenuine(lim, es[..|es| - 1]);
      StepKeepsInv(lim, Run(lim, Initial(), es[..|es| - 1]), es[|es| - 1]);
    }
  }

  // ---------------------------------------------------------------- what a client misses

  /** The two states agree on what a socket has and is credited with. */
  predicate SameFor<W(==)>(a: State<W>, b: State<W>, ws: W) {
    && ws in a.clients && ws in b.clients && ws in a.views && ws in b.views
    && Credit(a, ws) == Credit(b, ws) && a.views[ws] == b.views[ws]
  }

  lemma {:induction false} SameMisses<W>(a: State<W>, b: State<W>, ws: W, id: string)
    requires SameFor(a, b, ws)
    ensures Misses(a, ws, id) <==> Misses(b, ws, id)
  {
    hide Credit;
  }

  lemma {:induction false} OthersJoin<W(!new)>(lim: F.Limits, s: State<W>, e: Event<W>, ws: W)
    requires ClientsOk(s) && (e.JoinStart? || e.JoinEnd? || e.Leave?) && e.ws != ws && ws in s.clients
    ensures SameFor(s, Step(lim, s, e), ws)
  {
    hide Snapshot, Revs, Reached, Noted;
  }

  lemma {:induction false} QueueingIsSame<W(!new)>(lim: F.Limits, s: State<W>, order: seq<W>, ws: W)
    requires ClientsOk(s) && ws in s.clients
    ensures SameFor(s, Step(lim, s, PushBegin(order)), ws)
  {
    hide Tickets, Reached, Noted;
  }

  lemma {:induction false} EndIsSame<W(!new)>(lim: F.Limits, s: State<W>, ok: bool, ws: W)
    requires ClientsOk(s) && ws in Step(lim, s, SendEnd(ok)).clients
    ensures SameFor(s, Step(lim, s, SendEnd(ok)), ws)
  {
    hide Noted, Reached;
  }

  /** Nothing but the end of its join makes a client miss a robot, and nothing but a record of the robot handed
      to its socket puts an end to it. */
  lemma {:induction false} MissEndsIff<W(!new)>(lim: F.Limits, s: State<W>, e: Event<W>, ws: W, id: string)
    requires Inv(s) && ws in Step(lim, s, e).clients && e != JoinEnd(ws)
    ensures Misses(Step(lim, s, e), ws, id) <==> Misses(s, ws, id) && !Sends(s, e, ws, id)
  {
    var s' := Step(lim, s, e);
    if e.Change? {
      ChangeKeepsMisses(lim, s, e.e);
    } else if e.SendStart? {
      StartMisses(lim, s, ws, id);
    } else if e == JoinStart(ws) {
      JoiningIsNew(lim, s, ws, id);
    } else {
      if e.PushBegin? {
        QueueingIsSame(lim, s, e.order, ws);
      } else if e.SendEnd? {
        EndIsSame(lim, s, e.ok, ws);
      } else {
        StayedIn(lim, s, e, ws);
        OthersJoin(lim, s, e, ws);
      }
      SameMisses(s, s', ws, id);
    }
  }

  lemma {:induction false} StayedIn<W(!new)>(lim: F.Limits, s: State<W>, e: Event<W>, ws: W)
    requires (e.JoinStart? || e.JoinEnd? || e.Leave?) && ws in Step(lim, s, e).clients
    requires e != JoinStart(ws) && e != JoinEnd(ws)
    ensures ws in s.clients && e.ws != ws
  {
  }

  lemma {:induction false} JoiningIsNew<W(!new)>(lim: F.Limits, s: State<W>, ws: W, id: string)
    requires ClientsOk(s) && QueueOk(s)
    ensures Misses(Step(lim, s, JoinStart(ws)), ws, id) <==> Misses(s, ws, id)
  {
    if ws !in s.views {
      JoinStartMisses(lim, s, ws);
    }
  }

  /** At the end of its join a client misses exactly the robots whose current revision the socket was not handed
      last: by the snapshot, or by a push that served it meanwhile. */
  lemma {:induction false} JoinMissesIff<W(!new)>(lim: F.Limits, s: State<W>, ws: W, id: string)
    requires Inv(s) && ws in s.joining
    ensures Misses(Step(lim, s, JoinEnd(ws)), ws, id) <==>
              id in s.fleet.robots && !(id in s.views[ws] && s.views[ws][id].rev == s.fleet.robots[id].rev)
  {
    var s' := Step(lim, s, JoinEnd(ws));
    assert Credit(s', ws) == Revs(s.fleet);
    if id in s.fleet.robots && id in s.views[ws] {
      HandedIsReached(s, ws, id);
    }
  }

  lemma {:induction false} HandedIsReached<W(!new)>(s: State<W>, ws: W, id: string)
    requires Inv(s) && ws in s.views && id in s.views[ws]
    ensures id in s.fleet.robots && s.views[ws][id].rev <= s.fleet.robots[id].rev
    ensures Shown(s.views[ws][id]) == Shown(ToDict(s.fleet.robots[id]))
            <==> s.views[ws][id].rev == s.fleet.robots[id].rev
  {
    assert Genuine(s.log, s.views[ws]);
    assert LogOf(s.log[id], s.fleet.robots[id]);
    assert Shown(s.views[ws][id]).rev == s.views[ws][id].rev;
  }

  // ---------------------------------------------------------------- a push without changes

  /** The socket was last handed the robot as it is, link aside. */
  predicate Shows<W(==)>(s: State<W>, ws: W, id: string) {
    && ws in s.views && id in s.views[ws] && id in s.fleet.robots
    && Shown(s.views[ws][id]) == Shown(ToDict(s.fleet.robots[id]))
  }

  predicate ShowsAll<W(==)>(s: State<W>, ws: W) {
    forall id :: id in s.fleet.robots ==> Shows(s, ws, id)
  }

  predicate Covered<W>(s: State<W>, ws: W)
    requires ws in s.clients
  {
    forall id :: id in s.fleet.robots ==> id in Credit(s, ws) && Credit(s, ws)[id] == s.fleet.robots[id].rev
  }

  predicate CaughtUp<W>(s: State<W>, ws: W)
    requires ws in s.clients
  {
    if s.clients[ws].joined then Covered(s, ws) else ShowsAll(s, ws)
  }

  predicate Queued<W(==)>(s: State<W>, ws: W) {
    exists i :: 0 <= i < |s.queue| && s.queue[i].ws == ws && Holds(s, s.queue[i])
  }

  /** Half-way through a push: every client is still to be served, or caught up. */
  ghost predicate Progress<W(!new)>(s: State<W>) {
    forall ws :: ws in s.clients ==> Queued(s, ws) || CaughtUp(s, ws)
  }

  lemma {:induction false} HandedShows<W(!new)>(s: State<W>, changed: map<string, Record>, ws: W, id: string)
    requires s.queue != [] && s.queue[0].ws in s.views && Live(s.fleet, changed)
    requires Shows(s, ws, id) || (ws == s.queue[0].ws && id in changed)
    ensures Shows(Handed(s, changed), ws, id)
  {
    if ws == s.queue[0].ws {
      assert Handed(s, changed).views[ws] == s.views[ws] + changed;
    }
  }

  /** A socket that shows everything keeps doing so until a robot changes. */
  lemma {:induction false} QuietKeepsShowing<W(!new)>(lim: F.Limits, s: State<W>, e: Event<W>, ws: W)
    requires Inv(s) && !e.Change? && ws in s.views && ShowsAll(s, ws)
    ensures ws in Step(lim, s, e).views && ShowsAll(Step(lim, s, e), ws)
  {
    var s' := Step(lim, s, e);
    if e.SendStart? && s.queue != [] && s.sending.None? {
      StartedIs(lim, s);
      var changed := Delta(s.fleet, s.queue[0].seen);
      hide Step, Delta, Logs, Genuine, Reached;
      if changed != map[] {
        forall id | id in s.fleet.robots ensures Shows(s', ws, id) {
          HandedShows(s, changed, ws, id);
        }
      }
    } else {
      NothingHanded(lim, s, e, ws);
      hide Inv, Step, Shown, ToDict;
      forall id | id in s.fleet.robots ensures Shows(s', ws, id) {
        assert Shows(s, ws, id);
      }
    }
  }

  lemma {:induction false} NothingHanded<W>(lim: F.Limits, s: State<W>, e: Event<W>, ws: W)
    requires !e.Change? && ws in s.views && !(e.SendStart? && s.queue != [] && s.sending.None?)
    ensures var s' := Step(lim, s, e); s'.fleet == s.fleet && ws in s'.views && s'.views[ws] == s.views[ws]
  {
    hide Snapshot, Delta, Tickets, Revs, Noted;
  }

  lemma {:induction false} DeltaCloses(f: F.State, seen: map<string, nat>)
    ensures forall id :: id in f.robots ==>
              var after := seen + Noted(Delta(f, seen)); id in after && after[id] == f.robots[id].rev
  {
    forall id | id in f.robots
      ensures var after := seen + Noted(Delta(f, seen)); id in after && after[id] == f.robots[id].rev
    {
      if id in seen && seen[id] == f.robots[id].rev {
        assert id !in Delta(f, seen);
      } else {
        assert id in Delta(f, seen);
      }
    }
  }

  /** Serving a client catches it up. */
  lemma {:induction false} ServedCatchesUp<W(!new)>(lim: F.Limits, s: State<W>)
    requires Inv(s) && s.queue != [] && s.sending.None? && Holds(s, s.queue[0])
    ensures CaughtUp(Step(lim, s, SendStart), s.queue[0].ws)
  {
    StartedQueue(lim, s);
    if s.clients[s.queue[0].ws].joined {
      ServedIsCovered(lim, s);
    } else {
      ServedShowsAll(lim, s);
    }
    hide Inv, Step, Covered, ShowsAll;
  }

  lemma {:induction false} ServedCredit<W>(s: State<W>, changed: map<string, Record>)
    requires s.queue != [] && s.sending.None? && Holds(s, s.queue[0]) && s.queue[0].ws in s.views
    requires s.clients[s.queue[0].ws].seen == s.queue[0].seen
    ensures var s', t := if changed == map[] then s.(queue := s.queue[1..]) else Handed(s, changed), s.queue[0];
            && t.ws in s'.clients && s'.fleet == s.fleet
            && Credit(s', t.ws) == t.seen + Noted(changed)
  {
    MinusNothing(s.queue[0].seen + Noted(changed));
    if changed == map[] {
      assert Noted(changed) == map[];
    }
    hide Noted;
  }

  lemma {:induction false} ServedIsCovered<W(!new)>(lim: F.Limits, s: State<W>)
    requires Inv(s) && s.queue != [] && s.sending.None? && Holds(s, s.queue[0])
    requires s.clients[s.queue[0].ws].joined
    ensures var s' := Step(lim, s, SendStart); s.queue[0].ws in s'.clients && Covered(s', s.queue[0].ws)
  {
    var t := s.queue[0];
    StartedIs(lim, s);
    assert s.clients[t.ws].seen == t.seen && t.ws in s.views;
    DeltaCloses(s.fleet, t.seen);
    ServedCredit(s, Delta(s.fleet, t.seen));
    hide Step, Inv, Delta, Noted, Credit, Handed;
  }

  lemma {:induction false} ServedShowsAll<W(!new)>(lim: F.Limits, s: State<W>)
    requires Inv(s) && s.queue != [] && s.sending.None? && Holds(s, s.queue[0])
    requires !s.clients[s.queue[0].ws].joined
    ensures ShowsAll(Step(lim, s, SendStart), s.queue[0].ws)
  {
    var ws, s' := s.queue[0].ws, Step(lim, s, SendStart);
    var changed := Delta(s.fleet, s.queue[0].seen);
    StartedIs(lim, s);
    hide Step, Logs, Genuine, Reached, Handed, Shows;
    forall id | id in s.fleet.robots ensures Shows(s', ws, id) {
      ServedShows(s, id);
      if changed != map[] {
        HandedShows(s, changed, ws, id);
      } else {
        DequeuedShows(s, ws, id);
      }
    }
  }

  lemma {:induction false} DequeuedShows<W>(s: State<W>, ws: W, id: string)
    requires s.queue != []
    ensures Shows(s.(queue := s.queue[1..]), ws, id) <==> Shows(s, ws, id)
  {
  }

  lemma {:induction false} ServedShows<W(!new)>(s: State<W>, id: string)
    requires Inv(s) && s.queue != [] && s.sending.None? && Holds(s, s.queue[0])
    requires !s.clients[s.queue[0].ws].joined && id in s.fleet.robots
    ensures Shows(s, s.queue[0].ws, id) || id in Delta(s.fleet, s.queue[0].seen)
  {
    var t := s.queue[0];
    assert s.clients[t.ws].seen == t.seen && !Misses(s, t.ws, id);
    if id !in Delta(s.fleet, t.seen) {
      assert Credit(s, t.ws) == t.seen;
      HandedIsReached(s, t.ws, id);
    }
  }

  lemma {:induction false} QuietStart<W(!new)>(lim: F.Limits, s: State<W>)
    requires Inv(s) && Progress(s)
    ensures Progress(Step(lim, s, SendStart))
  {
    if s.queue != [] && s.sending.None? {
      var s' := Step(lim, s, SendStart);
      StartedQueue(lim, s);
      hide Step, Inv, CaughtUp, Queued, Holds;
      forall ws | ws in s'.clients ensures Queued(s', ws) || CaughtUp(s', ws) {
        if ws == s.queue[0].ws && Holds(s, s.queue[0]) {
          ServedCatchesUp(lim, s);
        } else if Queued(s, ws) {
          StillQueued(lim, s, ws);
        } else {
          StillCaughtUp(lim, s, ws);
        }
      }
    }
  }

  lemma {:induction false} StartedQueue<W(!new)>(lim: F.Limits, s: State<W>)
    requires s.queue != [] && s.sending.None?
    ensures var s' := Step(lim, s, SendStart);
            s'.clients == s.clients && s'.queue == s.queue[1..] && s'.fleet == s.fleet
  {
    hide Delta;
  }

  lemma {:induction false} StillQueued<W(!new)>(lim: F.Limits, s: State<W>, ws: W)
    requires s.queue != [] && s.sending.None? && Queued(s, ws) && !(ws == s.queue[0].ws && Holds(s, s.queue[0]))
    ensures Queued(Step(lim, s, SendStart), ws)
  {
    StartedQueue(lim, s);
    hide Step;
    var s' := Step(lim, s, SendStart);
    var i :| 0 <= i < |s.queue| && s.queue[i].ws == ws && Holds(s, s.queue[i]);
    assert i > 0 && s'.queue[i - 1] == s.queue[i];
  }

  lemma {:induction false} StillCaughtUp<W(!new)>(lim: F.Limits, s: State<W>, ws: W)
    requires Inv(s) && s.queue != [] && s.sending.None? && ws in s.clients && CaughtUp(s, ws)
    requires !(ws == s.queue[0].ws && Holds(s, s.queue[0]))
    ensures ws in Step(lim, s, SendStart).clients && CaughtUp(Step(lim, s, SendStart), ws)
  {
    hide Step, Credit;
    StartedQueue(lim, s);
    if s.clients[ws].joined {
      CreditKept(lim, s, ws);
    } else {
      QuietKeepsShowing(lim, s, SendStart, ws);
    }
  }

  lemma {:induction false} CreditKept<W(!new)>(lim: F.Limits, s: State<W>, ws: W)
    requires s.queue != [] && s.sending.None? && ws in s.clients && !(ws == s.queue[0].ws && Holds(s, s.queue[0]))
    ensures var s' := Step(lim, s, SendStart);
            ws in s'.clients && Credit(s', ws) == Credit(s, ws) && s'.fleet == s.fleet
  {
    hide Delta, Noted;
  }

  lemma {:induction false} SameCaughtUp<W>(a: State<W>, b: State<W>, ws: W)
    requires SameFor(a, b, ws) && a.fleet == b.fleet && a.clients[ws].joined == b.clients[ws].joined && CaughtUp(a, ws)
    ensures CaughtUp(b, ws)
  {
    hide Credit, Shown, ToDict;
    forall id | id in a.fleet.robots && Shows(a, ws, id) ensures Shows(b, ws, id) {
    }
  }

  lemma {:induction false} SameQueued<W>(a: State<W>, b: State<W>, ws: W)
    requires Queued(a, ws) && a.queue == b.queue && ws in a.clients && ws in b.clients
    requires a.clients[ws].joined == b.clients[ws].joined
    ensures Queued(b, ws)
  {
    var i :| 0 <= i < |a.queue| && a.queue[i].ws == ws && Holds(a, a.queue[i]);
    assert b.queue[i].ws == ws && Holds(b, b.queue[i]);
  }

  lemma {:induction false} SameProgress<W>(a: State<W>, b: State<W>, ws: W)
    requires SameFor(a, b, ws) && a.fleet == b.fleet && a.queue == b.queue
    requires a.clients[ws].joined == b.clients[ws].joined && (Queued(a, ws) || CaughtUp(a, ws))
    ensures Queued(b, ws) || CaughtUp(b, ws)
  {
    hide Credit, Queued, CaughtUp;
    if Queued(a, ws) {
      SameQueued(a, b, ws);
    } else {
      SameCaughtUp(a, b, ws);
    }
  }

  lemma {:induction false} QuietEnd<W(!new)>(lim: F.Limits, s: State<W>, ok: bool)
    requires Inv(s) && Progress(s)
    ensures Progress(Step(lim, s, SendEnd(ok)))
  {
    var s' := Step(lim, s, SendEnd(ok));
    forall ws | ws in s'.clients ensures Queued(s', ws) || CaughtUp(s', ws) {
      EndIsSame(lim, s, ok, ws);
      hide Queued, CaughtUp, SameFor, Noted, Inv;
      SameProgress(s, s', ws);
    }
  }

  lemma {:induction false} JoinedProgress<W(!new)>(lim: F.Limits, s: State<W>, e: Event<W>)
    requires Inv(s) && (e.JoinStart? || e.JoinEnd?) && Step(lim, s, e) != s
    ensures e.ws in Step(lim, s, e).clients && CaughtUp(Step(lim, s, e), e.ws)
  {
    var s' := Step(lim, s, e);
    hide Logs, Genuine, ViewsOk, JoiningMissNothing, Reached, Noted;
    if e.JoinEnd? {
      assert Credit(s', e.ws) == Revs(s.fleet);
    } else {
      forall id | id in s.fleet.robots ensures Shows(s', e.ws, id) {
        assert s'.views[e.ws] == Snapshot(s.fleet);
      }
    }
  }

  lemma {:induction false} QuietOther<W(!new)>(lim: F.Limits, s: State<W>, e: Event<W>)
    requires Inv(s) && Progress(s) && (e.JoinStart? || e.JoinEnd? || e.Leave?)
    ensures Progress(Step(lim, s, e))
  {
    var s' := Step(lim, s, e);
    if s' != s {
      forall ws | ws in s'.clients ensures Queued(s', ws) || CaughtUp(s', ws) {
        if ws == e.ws && !e.Leave? {
          JoinedProgress(lim, s, e);
        } else {
          StayedIn(lim, s, e, ws);
          OthersJoin(lim, s, e, ws);
          hide Queued, CaughtUp, SameFor, Inv, Snapshot, Revs;
          SameProgress(s, s', ws);
        }
      }
    }
  }

  lemma {:induction false} QuietStep<W(!new)>(lim: F.Limits, s: State<W>, e: Event<W>)
    requires Inv(s) && Progress(s) && !e.Change? && !e.PushBegin?
    ensures Progress(Step(lim, s, e)) && Step(lim, s, e).fleet == s.fleet
  {
    hide Progress, Inv;
    match e
    case SendStart => QuietStart(lim, s);
    case SendEnd(ok) => QuietEnd(lim, s, ok);
    case _ => QuietOther(lim, s, e);
  }

  ghost predicate Quiet<W(!new)>(es: seq<Event<W>>) {
    forall e :: e in es ==> !e.Change? && !e.PushBegin?
  }

  lemma {:induction false} QuietRun<W(!new)>(lim: F.Limits, s: State<W>, es: seq<Event<W>>)
    requires Inv(s) && Progress(s) && Quiet(es)
    ensures Inv(Run(lim, s, es)) && Progress(Run(lim, s, es)) && Run(lim, s, es).fleet == s.fleet
  {
    if es != [] {
      var most, e := es[..|es| - 1], es[|es| - 1];
      assert e in es && forall x :: x in most ==> x in es;
      hide Inv, Progress, Step;
      QuietRun(lim, s, most);
      QuietStep(lim, Run(lim, s, most), e);
      StepKeepsInv(lim, Run(lim, s, most), e);
    }
  }

  lemma {:induction false} BeginsProgress<W(!new)>(lim: F.Limits, s: State<W>, order: seq<W>)
    requires s.queue == [] && s.sending.None? && Lists(order, s.clients)
    ensures Progress(Step(lim, s, PushBegin(order)))
  {
    var s' := Step(lim, s, PushBegin(order));
    forall ws | ws in s'.clients ensures Queued(s', ws) {
      assert ws in (set x | x in order);
      var i :| 0 <= i < |order| && order[i] == ws;
      assert s'.queue[i].ws == ws && Holds(s', s'.queue[i]);
    }
  }

  /** After a push during which no robot changed, whatever happened before it and whoever joined or left during
      it, every connected client shows a robot as it is, link and age aside, exactly when it does not miss it;
      and it shows nothing else. */
  lemma {:induction false} PushBringsAgreement<W(!new)>(lim: F.Limits, before: seq<Event<W>>, order: seq<W>,
                                                        es: seq<Event<W>>)
    requires var s := Run(lim, Initial(), before);
             s.queue == [] && s.sending.None? && Lists(order, s.clients)
    requires Quiet(es)
    requires var s' := Run(lim, Step(lim, Run(lim, Initial(), before), PushBegin(order)), es);
             s'.queue == [] && s'.sending.None?
    ensures var s' := Run(lim, Step(lim, Run(lim, Initial(), before), PushBegin(order)), es);
            forall ws :: ws in s'.clients ==>
              && ws in s'.views && s'.views[ws].Keys <= s'.fleet.robots.Keys
              && forall id :: id in s'.fleet.robots ==> (Shows(s', ws, id) <==> !Misses(s', ws, id))
  {
    var s := Run(lim, Initial(), before);
    RecordsAreGenuine(lim, before);
    StepKeepsInv(lim, s, PushBegin(order));
    BeginsProgress(lim, s, order);
    QuietRun(lim, Step(lim, s, PushBegin(order)), es);
    hide Run, Step;
    ServedAll(Run(lim, Step(lim, s, PushBegin(order)), es));
  }

  lemma {:induction false} ServedAll<W(!new)>(s: State<W>)
    requires Inv(s) && Progress(s) && s.queue == [] && s.sending.None?
    ensures forall ws :: ws in s.clients ==>
              && ws in s.views && s.views[ws].Keys <= s.fleet.robots.Keys
              && forall id :: id in s.fleet.robots ==> (Shows(s, ws, id) <==> !Misses(s, ws, id))
  {
    forall ws, id | ws in s.clients && id in s.fleet.robots ensures Shows(s, ws, id) <==> !Misses(s, ws, id) {
      assert CaughtUp(s, ws);
      assert !s.clients[ws].joined ==> !Misses(s, ws, id);
      if id in s.views[ws] {
        HandedIsReached(s, ws, id);
      }
      hide Logs, ViewsOk, QueueOk, JoiningMissNothing;
    }
    forall ws | ws in s.clients ensures s.views[ws].Keys <= s.fleet.robots.Keys {
      assert Genuine(s.log, s.views[ws]);
    }
  }

  // ---------------------------------------------------------------- joins

  /** A client whose socket shows everything when its join ends misses nothing: because nothing changed since the
      snapshot, or because a push served it after the last change. */
  lemma {:induction false} ShownJoinMissesNothing<W(!new)>(lim: F.Limits, s: State<W>, ws: W, id: string)
    requires Inv(s) && ws in s.joining && ShowsAll(s, ws)
    ensures !Misses(Step(lim, s, JoinEnd(ws)), ws, id)
  {
    JoinMissesIff(lim, s, ws, id);
    if id in s.fleet.robots {
      assert Shows(s, ws, id);
    }
  }

  ghost predicate Calm<W(!new)>(es: seq<Event<W>>) {
    forall e :: e in es ==> !e.Change?
  }

  lemma {:induction false} CalmKeepsShowing<W(!new)>(lim: F.Limits, s: State<W>, es: seq<Event<W>>, ws: W)
    requires Inv(s) && Calm(es) && ws in s.views && ShowsAll(s, ws)
    ensures Inv(Run(lim, s, es)) && ws in Run(lim, s, es).views && ShowsAll(Run(lim, s, es), ws)
  {
    if es != [] {
      var most, e := es[..|es| - 1], es[|es| - 1];
      assert e in es && forall x :: x in most ==> x in es;
      hide Inv, ShowsAll, Step;
      CalmKeepsShowing(lim, s, most, ws);
      QuietKeepsShowing(lim, Run(lim, s, most), e, ws);
      StepKeepsInv(lim, Run(lim, s, most), e);
    }
  }

  /** A join during which no robot changes leaves nothing missed. */
  lemma {:induction false} CalmJoinMissesNothing<W(!new)>(lim: F.Limits, s: State<W>, ws: W, es: seq<Event<W>>,
                                                   id: string)
    requires Inv(s) && ws !in s.views && Calm(es)
    requires ws in Run(lim, Step(lim, s, JoinStart(ws)), es).joining
    ensures !Misses(Step(lim, Run(lim, Step(lim, s, JoinStart(ws)), es), JoinEnd(ws)), ws, id)
  {
    var s' := Step(lim, s, JoinStart(ws));
    StepKeepsInv(lim, s, JoinStart(ws));
    assert ShowsAll(s', ws);
    CalmKeepsShowing(lim, s', es, ws);
    hide Step, Run, ShowsAll;
    ShownJoinMissesNothing(lim, Run(lim, s', es), ws, id);
  }

  /** One change while the snapshot is being sent, and no push before the join ends: the robot is missed. */
  lemma {:induction false} ChangeDuringJoinIsMissed<W(!new)>(lim: F.Limits, s: State<W>, ws: W, fe: F.Event, id: string)
    requires Inv(s) && ws !in s.views
    requires id in s.fleet.robots && F.Step(lim, s.fleet, fe).robots[id].rev != s.fleet.robots[id].rev
    ensures var s' := Step(lim, Step(lim, s, JoinStart(ws)), Change(fe));
            ws in s'.joining && Misses(Step(lim, s', JoinEnd(ws)), ws, id)
  {
    FleetOnlyGrows(lim, s.fleet, fe);
    var s1 := Step(lim, s, JoinStart(ws));
    StepKeepsInv(lim, s, JoinStart(ws));
    StepKeepsInv(lim, s1, Change(fe));
    var s2 := Step(lim, s1, Change(fe));
    assert s2.views[ws] == Snapshot(s.fleet) && s2.fleet == F.Step(lim, s.fleet, fe);
    hide F.Step, Inv;
    JoinMissesIff(lim, s2, ws, id);
  }

  // ---------------------------------------------------------------- links

  /** A record is handed over with the link of that moment. */
  lemma {:induction false} HandedIsExact<W(!new)>(lim: F.Limits, s: State<W>, ws: W, id: string)
    requires Inv(s) && Sends(s, SendStart, ws, id)
    ensures var s' := Step(lim, s, SendStart);
            ws in s'.views && id in s'.views[ws] && s'.views[ws][id] == ToDict(s'.fleet.robots[id])
  {
    StartedIs(lim, s);
    hide Step, Logs, Genuine, Reached;
  }

  /** What the fleet goes through in a run. */
  function FleetEvents<W>(es: seq<Event<W>>): seq<F.Event> {
    if es == [] then []
    else FleetEvents(es[..|es| - 1]) + (if es[|es| - 1].Change? then [es[|es| - 1].e] else [])
  }

  lemma {:induction false} FleetFollows<W>(lim: F.Limits, s: State<W>, es: seq<Event<W>>)
    ensures Run(lim, s, es).fleet == F.Run(lim, s.fleet, FleetEvents(es))
  {
    if es != [] {
      var most, e := es[..|es| - 1], es[|es| - 1];
      FleetFollows(lim, s, most);
      OnlyChangesMatter(lim, Run(lim, s, most), e);
      hide Step, F.Step;
      var fes := FleetEvents(es);
      if e.Change? {
        assert fes[..|fes| - 1] == FleetEvents(most);
      } else {
        assert fes == FleetEvents(most);
      }
    }
  }

  lemma {:induction false} OnlyChangesMatter<W>(lim: F.Limits, s: State<W>, e: Event<W>)
    ensures Step(lim, s, e).fleet == if e.Change? then F.Step(lim, s.fleet, e.e) else s.fleet
  {
    hide F.Step, Logged, Delta, Tickets, Noted;
  }

  ghost predicate NotHanded<W(!new)>(lim: F.Limits, s: State<W>, es: seq<Event<W>>, ws: W, id: string) {
    forall i :: 0 <= i < |es| ==> !Sends(Run(lim, s, es[..i]), es[i], ws, id)
  }

  lemma {:induction false} RecordStays<W(!new)>(lim: F.Limits, s: State<W>, es: seq<Event<W>>, ws: W, id: string)
    requires Inv(s) && ws in s.views && id in s.views[ws] && NotHanded(lim, s, es, ws, id)
    ensures Inv(Run(lim, s, es))
    ensures ws in Run(lim, s, es).views && id in Run(lim, s, es).views[ws]
    ensures Run(lim, s, es).views[ws][id] == s.views[ws][id]
  {
    if es != [] {
      var most, e := es[..|es| - 1], es[|es| - 1];
      NotHandedMost(lim, s, es, ws, id);
      RecordStays(lim, s, most, ws, id);
      var before := Run(lim, s, most);
      StepKeepsInv(lim, before, e);
      RecordStaysOnce(lim, before, e, ws, id);
      hide Step, Inv, NotHanded;
    }
  }

  lemma {:induction false} NotHandedMost<W(!new)>(lim: F.Limits, s: State<W>, es: seq<Event<W>>, ws: W, id: string)
    requires es != [] && NotHanded(lim, s, es, ws, id)
    ensures NotHanded(lim, s, es[..|es| - 1], ws, id) && !Sends(Run(lim, s, es[..|es| - 1]), es[|es| - 1], ws, id)
  {
    hide Sends, Run;
    var most := es[..|es| - 1];
    forall i | 0 <= i < |most| ensures !Sends(Run(lim, s, most[..i]), most[i], ws, id) {
      assert most[..i] == es[..i] && most[i] == es[i];
    }
  }

  lemma {:induction false} RecordStaysOnce<W(!new)>(lim: F.Limits, s: State<W>, e: Event<W>, ws: W, id: string)
    requires Inv(s) && ws in s.views && id in s.views[ws] && !Sends(s, e, ws, id)
    ensures ws in Step(lim, s, e).views && id in Step(lim, s, e).views[ws]
    ensures Step(lim, s, e).views[ws][id] == s.views[ws][id]
  {
    if e.SendStart? && s.queue != [] && s.sending.None? {
      StartedIs(lim, s);
      hide Step, Logs, Genuine, Reached, Delta, Inv;
    } else {
      ViewsKept(lim, s, e, ws);
    }
  }

  lemma {:induction false} ViewsKept<W>(lim: F.Limits, s: State<W>, e: Event<W>, ws: W)
    requires ws in s.views && !(e.SendStart? && s.queue != [] && s.sending.None?)
    ensures ws in Step(lim, s, e).views && Step(lim, s, e).views[ws] == s.views[ws]
  {
    hide Snapshot, Delta, Tickets, Revs, Noted, Logged, F.Step;
  }

  /** From the moment a socket is handed a robot's record to the next record it is handed, its link is the live
      one exactly while the last will, if it said anything since, said the same again. */
  lemma {:induction false} LinkShownIff<W(!new)>(lim: F.Limits, s: State<W>, es: seq<Event<W>>, ws: W, id: string)
    requires Inv(s) && ws in s.views && id in s.views[ws] && id in s.fleet.robots
    requires s.views[ws][id] == ToDict(s.fleet.robots[id]) && NotHanded(lim, s, es, ws, id)
    ensures var s' := Run(lim, s, es);
            && ws in s'.views && id in s'.views[ws] && id in s'.fleet.robots
            && (s'.views[ws][id].link == s'.fleet.robots[id].link
                <==> F.LastLink(FleetEvents(es), id, s.fleet.robots[id].link) == s.fleet.robots[id].link)
  {
    RecordStays(lim, s, es, ws, id);
    FleetFollows(lim, s, es);
    F.LinkIsLast(lim, s.fleet, FleetEvents(es), id);
    hide Run, Inv, F.Run, F.LastLink, FleetEvents, NotHanded;
  }

  /** A last will that leaves presence as it was is never pushed: the client keeps the old link. */
  lemma {:induction false} SilentLinkIsNotPushed(f: F.State, lim: F.Limits, id: string, up: bool, at: real, now: real)
    requires id in f.robots && f.robots[id].link != Some(up)
    requires f.robots[id].presence ==
               if !up && at >= f.robots[id].lastSeen then F.OFFLINE else F.Rung(lim, f.robots[id].lastSeen, now)
    ensures var f' := F.LinkSet(lim, f, id, up, at, now);
            && Delta(f', Revs(f)) == map[]
            && Snapshot(f)[id].link != Snapshot(f')[id].link
  {
    F.LinkIsSilentIff(lim, f.robots[id], up, at, now);
    hide F.Linked, F.Rung;
    var f' := F.LinkSet(lim, f, id, up, at, now);
    assert forall x :: x in f'.robots ==> x in f.robots && f'.robots[x].rev == f.robots[x].rev;
    assert forall x :: x in f'.robots ==> x !in Delta(f', Revs(f));
  }
}
