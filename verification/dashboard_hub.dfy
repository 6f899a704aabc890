/** `Hub`: the per-client revision maps updated in place, proved against the state machine in `Hub`.

    A join and a push suspend at every send, so they are split there.  `views` is what each socket has been handed
    and `joining` which joins are under way; the source does not keep them. */
module DashboardHubs {
  import opened Hub
  import opened Options
  import F = Fleet

  class DashboardHub<W(==,!new)> {
    var clients: map<W, Client>
    var queue: seq<Ticket<W>>
    var sending: Option<Sending<W>>
    ghost var views: map<W, map<string, Record>>
    ghost var joining: set<W>

    ghost function Value(f: F.State, log: map<string, seq<Record>>): State<W>
      reads this
    {
      State(f, log, clients, views, joining, queue, sending)
    }

    constructor ()
      ensures Value(F.EMPTY, map[]) == Initial()
    {
      clients, queue, sending, views, joining := map[], [], None, map[], {};
    }

    /** Registers an empty map and hands the snapshot to the socket. */
    method JoinStart(lim: F.Limits, f: F.State, ghost log: map<string, seq<Record>>, ws: W)
      requires ws !in views
      modifies this
      ensures Value(f, log) == Step(lim, old(Value(f, log)), Event.JoinStart(ws))
    {
      clients := clients[ws := Client(false, map[])];
      views := views[ws := Snapshot(f)];
      joining := joining + {ws};
    }

    /** When the snapshot is sent: the map is replaced by the revisions of this moment. */
    method JoinEnd(lim: F.Limits, f: F.State, ghost log: map<string, seq<Record>>, ws: W)
      requires F.Ordered(f) && ws in joining
      modifies this
      ensures Value(f, log) == Step(lim, old(Value(f, log)), Event.JoinEnd(ws))
    {
      hide Revs, F.Ordered;
      var seen := NoteAll(f);
      clients := clients[ws := Client(true, seen)];
      joining := joining - {ws};
    }

    method NoteAll(f: F.State) returns (seen: map<string, nat>)
      requires F.Ordered(f)
      ensures seen == Revs(f)
    {
      hide RevsOf;
      seen := map[];
      RevsEnds(f);
      for i := 0 to |f.order|
        invariant seen == RevsOf(f, f.order[..i])
      {
        RevsStep(f, i);
        seen := seen[f.order[i] := f.robots[f.order[i]].rev];
      }
    }

    method Leave(lim: F.Limits, f: F.State, ghost log: map<string, seq<Record>>, ws: W)
      modifies this
      ensures Value(f, log) == Step(lim, old(Value(f, log)), Event.Leave(ws))
    {
      clients := clients - {ws};
    }

    /** `order` is the order in which the client dictionary lists its sockets; each comes with the map it has. */
    method PushBegin(lim: F.Limits, ghost f: F.State, ghost log: map<string, seq<Record>>, order: seq<W>)
      requires queue == [] && sending.None? && Lists(order, clients)
      modifies `queue
      ensures Value(f, log) == Step(lim, old(Value(f, log)), Event.PushBegin(order))
    {
      assert forall i :: 0 <= i < |order| ==> order[i] in (set ws | ws in order);
      var taken: seq<Ticket<W>> := [];
      for i := 0 to |order|
        invariant taken == Tickets(clients, order)[..i]
      {
        var c := clients[order[i]];
        taken := taken + [Ticket(order[i], c.joined, c.seen)];
      }
      queue := taken;
    }

    method Compare(f: F.State, seen: map<string, nat>) returns (changed: map<string, Record>, gone: set<string>)
      requires F.Ordered(f)
      ensures changed == Delta(f, seen) && gone == Gone(f, seen)
    {
      hide ToDict, DeltaOf, Delta, Gone;
      changed := map[];
      DeltaEnds(f, seen);
      for i := 0 to |f.order|
        invariant changed == DeltaOf(f, seen, f.order[..i])
      {
        var id := f.order[i];
        DeltaStep(f, seen, i);
        if !(id in seen && seen[id] == f.robots[id].rev) {
          changed := changed[id := ToDict(f.robots[id])];
        }
      }
      gone := Missing(f, seen);
    }

    method Missing(f: F.State, seen: map<string, nat>) returns (gone: set<string>)
      ensures gone == Gone(f, seen)
    {
      gone := {};
      var todo := seen.Keys;
      while todo != {}
        invariant todo <= seen.Keys
        invariant gone == set id | id in seen && id !in todo && id !in f.robots
        decreases |todo|
      {
        var id :| id in todo;
        if id !in f.robots {
          gone := gone + {id};
        }
        todo := todo - {id};
      }
    }

    /** Computes the next client's delta from the robots as they are now, and hands it to the socket. */
    method SendStart(lim: F.Limits, f: F.State, ghost log: map<string, seq<Record>>)
      requires F.Ordered(f) && QueueOk(Value(f, log)) && queue != [] && sending.None?
      modifies `queue, `sending, `views
      ensures Value(f, log) == Step(lim, old(Value(f, log)), Event.SendStart)
    {
      hide Delta, Gone, F.Ordered;
      var t := queue[0];
      assert TicketOk(Value(f, log), t) && Holds(Value(f, log), queue[0]) ==> clients[t.ws].seen == t.seen;
      assert TicketOk(Value(f, log), t);
      hide QueueOk;
      var seen := if t.ws in clients && clients[t.ws].joined == t.joined then clients[t.ws].seen else t.seen;
      var changed, gone := Compare(f, seen);
      queue := queue[1..];
      if changed != map[] || gone != {} {
        sending := Some(Sending(t, changed, gone));
        views := views[t.ws := (views[t.ws] + changed) - gone];
      }
    }

    /** The socket took the message, or failed. */
    method SendEnd(lim: F.Limits, f: F.State, ghost log: map<string, seq<Record>>, ok: bool)
      requires sending.Some?
      modifies this
      ensures Value(f, log) == Step(lim, old(Value(f, log)), Event.SendEnd(ok))
    {
      hide Noted;
      var m := sending.value;
      var ws := m.ticket.ws;
      sending := None;
      if !ok {
        clients := clients - {ws};
      } else if ws in clients && clients[ws].joined == m.ticket.joined {
        var seen := Note(clients[ws].seen, m.changed, m.gone);
        clients := clients[ws := clients[ws].(seen := seen)];
      }
    }

    method Note(before: map<string, nat>, changed: map<string, Record>, gone: set<string>)
                returns (seen: map<string, nat>)
      ensures seen == (before + Noted(changed)) - gone
    {
      hide *;
      NotedEnds(before, changed);
      seen := before;
      var todo := changed.Keys;
      while todo != {}
        invariant todo <= changed.Keys
        invariant seen == NotedBut(before, changed, todo)
        decreases |todo|
      {
        var id :| id in todo;
        NotedOne(before, changed, todo, id);
        seen := seen[id := changed[id].rev];
        todo := todo - {id};
      }
      seen := seen - gone;
    }
  }

  /** A client's map when the revisions of all the records are noted but those still to do. */
  function NotedBut(before: map<string, nat>, changed: map<string, Record>, todo: set<string>): map<string, nat> {
    before + (map id | id in changed && id !in todo :: changed[id].rev)
  }

  lemma {:induction false} NotedEnds(before: map<string, nat>, changed: map<string, Record>)
    ensures NotedBut(before, changed, changed.Keys) == before
    ensures NotedBut(before, changed, {}) == before + Noted(changed)
  {
  }

  lemma {:induction false} NotedOne(before: map<string, nat>, changed: map<string, Record>, todo: set<string>,
                                    id: string)
    requires id in changed && id in todo
    ensures NotedBut(before, changed, todo - {id}) == NotedBut(before, changed, todo)[id := changed[id].rev]
  {
  }

  ghost function RevsOf(f: F.State, ids: seq<string>): map<string, nat>
    requires F.Ordered(f) && forall id :: id in ids ==> id in f.order
  {
    map id | id in ids :: f.robots[id].rev
  }

  lemma {:induction false} RevsEnds(f: F.State)
    requires F.Ordered(f)
    ensures RevsOf(f, f.order[..0]) == map[] && RevsOf(f, f.order[..|f.order|]) == Revs(f)
  {
    assert f.order[..|f.order|] == f.order;
  }

  lemma {:induction false} RevsStep(f: F.State, n: nat)
    requires F.Ordered(f) && n < |f.order|
    ensures RevsOf(f, f.order[..n + 1]) == RevsOf(f, f.order[..n])[f.order[n] := f.robots[f.order[n]].rev]
  {
    assert f.order[..n + 1] == f.order[..n] + [f.order[n]];
  }

  ghost function DeltaOf(f: F.State, seen: map<string, nat>, ids: seq<string>): map<string, Record>
    requires F.Ordered(f) && forall id :: id in ids ==> id in f.order
  {
    map id | id in ids && !(id in seen && seen[id] == f.robots[id].rev) :: ToDict(f.robots[id])
  }

  lemma {:induction false} DeltaEnds(f: F.State, seen: map<string, nat>)
    requires F.Ordered(f)
    ensures DeltaOf(f, seen, f.order[..0]) == map[] && DeltaOf(f, seen, f.order[..|f.order|]) == Delta(f, seen)
  {
    hide ToDict;
    assert f.order[..|f.order|] == f.order;
  }

  lemma {:induction false} DeltaStep(f: F.State, seen: map<string, nat>, n: nat)
    requires F.Ordered(f) && n < |f.order|
    ensures var id, before := f.order[n], DeltaOf(f, seen, f.order[..n]);
            DeltaOf(f, seen, f.order[..n + 1]) ==
              if id in seen && seen[id] == f.robots[id].rev then before else before[id := ToDict(f.robots[id])]
  {
    hide ToDict;
    var id := f.order[n];
    assert f.order[..n + 1] == f.order[..n] + [id];
    assert id !in f.order[..n];
  }
}
