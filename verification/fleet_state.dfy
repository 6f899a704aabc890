/** The live fleet: robots updated in place, proved against `Fleet`. */
module FleetStates {
  import opened Options
  import F = Fleet

  class Robot {
    var data: string
    var lastSeen: real
    var presence: F.Presence
    var online: bool
    var link: Option<bool>
    var linkAt: real
    var rxCount: nat
    var rev: nat

    constructor ()
      ensures View() == F.NEW
    {
      data, lastSeen, presence, online := "", 0.0, F.UNKNOWN, false;
      link, linkAt, rxCount, rev := None, 0.0, 0, 0;
    }

    function View(): F.Robot
      reads this
    {
      F.Robot(data, lastSeen, presence, online, link, linkAt, rxCount, rev)
    }

    method Update(payload: string, now: real)
      modifies this
      ensures View() == F.Updated(old(View()), payload, now)
    {
      data, lastSeen := payload, now;
      presence, online := F.OK, true;
      rxCount, rev := rxCount + 1, rev + 1;
    }

    /** True if it actually changed. */
    method SetPresence(p: F.Presence) returns (changed: bool)
      modifies `presence, `online, `rev
      ensures View() == F.WithPresence(old(View()), p)
      ensures changed <==> old(presence) != p
    {
      if p == presence {
        return false;
      }
      presence, online, rev := p, p == F.OK, rev + 1;
      return true;
    }

    method Evaluate(lim: F.Limits, now: real) returns (changed: bool)
      modifies `presence, `online, `rev
      ensures View() == F.Evaluated(lim, old(View()), now)
      ensures changed <==> F.Judged(lim, old(View()), now) != old(presence)
    {
      if link == Some(false) && linkAt >= lastSeen {
        changed := SetPresence(F.OFFLINE);
      } else if lastSeen == 0.0 {
        changed := SetPresence(F.UNKNOWN);
      } else {
        var age := now - lastSeen;
        if age <= lim.offlineAfter {
          changed := SetPresence(F.OK);
        } else if age <= lim.staleAfter {
          changed := SetPresence(F.STALE);
        } else {
          changed := SetPresence(F.OFFLINE);
        }
      }
    }

    method SetLink(lim: F.Limits, up: bool, at: real, now: real)
      modifies this
      ensures View() == F.Linked(lim, old(View()), up, at, now)
    {
      link, linkAt := Some(up), at;
      var changed := Evaluate(lim, now);
    }
  }

  class FleetState {
    const lim: F.Limits
    var robots: map<string, Robot>
    var order: seq<string>

    ghost predicate Valid()
      reads this
    {
      && (forall id :: id in order <==> id in robots)
      && (forall i, j :: 0 <= i < j < |order| ==> order[i] != order[j])
      && (forall a, b :: a in robots && b in robots && robots[a] == robots[b] ==> a == b)
    }

    ghost function Value(): F.State
      reads this, robots.Values
    {
      F.State(map id | id in robots :: robots[id].View(), order)
    }

    constructor (lim: F.Limits)
      ensures Valid() && this.lim == lim && Value() == F.EMPTY
    {
      this.lim := lim;
      robots, order := map[], [];
    }

    method GetOrAdd(id: string) returns (r: Robot)
      requires Valid()
      modifies this
      ensures Valid() && Value() == F.Known(old(Value()), id)
      ensures id in robots && robots[id] == r && (r in old(robots.Values) || fresh(r))
      ensures forall x :: x in old(robots) ==> x in robots && robots[x] == old(robots[x])
      ensures robots.Keys == old(robots.Keys) + {id}
    {
      if id in robots {
        r := robots[id];
      } else {
        r := new Robot();
        robots, order := robots[id := r], order + [id];
        assert Value().robots == old(Value()).robots[id := F.NEW];
      }
    }

    method Ingest(id: string, data: string, now: real)
      requires Valid()
      modifies this, robots.Values
      ensures Valid() && Value() == F.Ingested(old(Value()), id, data, now)
    {
      var r := GetOrAdd(id);
      ghost var known := Value();
      r.Update(data, now);
      assert Value().robots == known.robots[id := F.Updated(known.robots[id], data, now)];
    }

    method SetLink(id: string, up: bool, at: real, now: real)
      requires Valid()
      modifies this, robots.Values
      ensures Valid() && Value() == F.LinkSet(lim, old(Value()), id, up, at, now)
    {
      hide F.Linked;
      var r := GetOrAdd(id);
      ghost var known := Value();
      r.SetLink(lim, up, at, now);
      assert Value().robots == known.robots[id := F.Linked(lim, known.robots[id], up, at, now)];
    }

    /** Re-evaluates every robot; reports the ids that changed, in order. */
    method Reap(now: real) returns (changed: seq<string>)
      requires Valid()
      modifies robots.Values
      ensures Valid() && Value() == F.Reaped(lim, old(Value()), now)
      ensures changed == F.Changed(lim, old(Value()), now, order)
    {
      hide Valid, Value, Partial, F.Judged, F.Evaluated, F.Changes, F.Ordered;
      ghost var before := Value();
      ValueFacts();
      changed := [];
      PartialEnds(lim, before, now);
      for i := 0 to |order|
        invariant Valid() && Value() == Partial(lim, before, now, i)
        invariant changed == F.Changed(lim, before, now, order[..i])
      {
        var id := order[i];
        assert order[..i + 1][..i] == order[..i];
        PartialStep(lim, before, now, i);
        var differs := EvaluateOne(id, now);
        if differs {
          changed := changed + [id];
        }
      }
      assert order[..|order|] == order;
    }

    lemma {:induction false} ValueFacts()
      requires Valid()
      ensures F.Ordered(Value()) && Value().order == order
    {
    }

    method EvaluateOne(id: string, now: real) returns (changed: bool)
      requires Valid() && id in Value().robots
      modifies robots.Values
      ensures Valid()
      ensures Value() ==
              old(Value()).(robots := old(Value()).robots[id := F.Evaluated(lim, old(Value()).robots[id], now)])
      ensures changed <==> F.Changes(lim, old(Value()), now, id)
    {
      hide F.Judged, F.Evaluated;
      changed := robots[id].Evaluate(lim, now);
      assert Value().robots == old(Value()).robots[id := F.Evaluated(lim, old(Value()).robots[id], now)];
    }

    /** Robots by presence. */
    method Summary() returns (total: nat, online: nat, stale: nat, unknown: nat, offline: nat)
      requires Valid()
      ensures total == |order| == online + stale + unknown + offline
      ensures online == F.CountOf(Value(), order, F.OK) && stale == F.CountOf(Value(), order, F.STALE)
      ensures unknown == F.CountOf(Value(), order, F.UNKNOWN) && offline == F.CountOf(Value(), order, F.OFFLINE)
    {
      total, online, stale, unknown, offline := |order|, 0, 0, 0, 0;
      for i := 0 to |order|
        invariant forall id :: id in order[..i] ==> id in Value().robots
        invariant online == F.CountOf(Value(), order[..i], F.OK) && stale == F.CountOf(Value(), order[..i], F.STALE)
        invariant unknown == F.CountOf(Value(), order[..i], F.UNKNOWN)
        invariant offline == F.CountOf(Value(), order[..i], F.OFFLINE)
      {
        assert order[..i + 1][..i] == order[..i];
        match robots[order[i]].presence
        case OK => online := online + 1;
        case STALE => stale := stale + 1;
        case UNKNOWN => unknown := unknown + 1;
        case OFFLINE => offline := offline + 1;
      }
      assert order[..|order|] == order;
      F.SummaryPartitions(Value(), order);
    }
  }

  /** The fleet after the first `n` robots of a reaper pass. */
  ghost function Partial(lim: F.Limits, f: F.State, now: real, n: nat): F.State
    requires n <= |f.order|
  {
    f.(robots := map id | id in f.robots ::
                   if id in f.order[..n] then F.Evaluated(lim, f.robots[id], now) else f.robots[id])
  }

  lemma {:induction false} PartialEnds(lim: F.Limits, f: F.State, now: real)
    requires F.Ordered(f)
    ensures Partial(lim, f, now, 0) == f
    ensures Partial(lim, f, now, |f.order|) == F.Reaped(lim, f, now)
  {
    hide F.Evaluated;
    assert Partial(lim, f, now, 0).robots == f.robots;
    assert f.order[..|f.order|] == f.order;
    assert Partial(lim, f, now, |f.order|).robots == F.Reaped(lim, f, now).robots;
  }

  lemma {:induction false} PartialStep(lim: F.Limits, f: F.State, now: real, n: nat)
    requires F.Ordered(f) && n < |f.order|
    ensures var p, id := Partial(lim, f, now, n), f.order[n];
            && id in p.robots
            && Partial(lim, f, now, n + 1) == p.(robots := p.robots[id := F.Evaluated(lim, p.robots[id], now)])
            && (F.Changes(lim, p, now, id) <==> F.Changes(lim, f, now, id))
  {
    hide F.Evaluated, F.Judged;
    var p, id := Partial(lim, f, now, n), f.order[n];
    assert id !in f.order[..n];
    assert f.order[..n + 1] == f.order[..n] + [id];
    assert Partial(lim, f, now, n + 1).robots == p.robots[id := F.Evaluated(lim, p.robots[id], now)];
  }
}
