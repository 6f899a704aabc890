/** The body of `pusher_task` over the objects it drives, proved against `Pushers`. */
module PusherTasks {
  import opened AlertEngines
  import opened DashboardHubs
  import opened FleetStates
  import opened Alerts
  import opened Pushers
  import F = Fleet
  import H = Hub

  ghost function Value<W(!new)>(fleet: FleetState, alerts: AlertEngine, hub: DashboardHub<W>,
                                   log: map<string, seq<H.Record>>): Pusher<W>
    reads fleet, fleet.robots.Values, alerts, hub
  {
    Pusher(alerts.Value(), hub.Value(fleet.Value(), log))
  }

  /** One iteration: reap, tick, and begin the push unless the tick raised. */
  method Iterate<W(==,!new)>(fleet: FleetState, alerts: AlertEngine, hub: DashboardHub<W>,
                             ghost log: map<string, seq<H.Record>>, w: World, rules: seq<Rule>, now: real,
                               order: seq<W>)
      returns (ghost log': map<string, seq<H.Record>>, ok: bool)
    requires fleet.Valid() && hub.queue == [] && hub.sending.None? && H.Lists(order, hub.clients)
    modifies fleet.robots.Values, alerts, hub
    ensures fleet.Valid()
    ensures Value(fleet, alerts, hub, log')
            == Beaten(fleet.lim, old(Value(fleet, alerts, hub, log)), w, rules, now, order)
  {
    hide Ticked, TickEvals, F.Reaped, F.Changed, H.Logged, H.Tickets, H.Delta, H.Started, H.Ended, H.Lists;
    var changed := fleet.Reap(now);
    log' := H.Logged(log, fleet.Value());
    ok := alerts.Tick(w, rules, fleet.order);
    if ok {
      hub.PushBegin(fleet.lim, fleet.Value(), log', order);
    }
  }
}
