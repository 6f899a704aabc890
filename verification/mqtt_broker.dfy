/** The embedded broker: sessions updated in place, each handler proved against `Broker`. */
module MqttBrokers {
  import opened Deques
  import opened Options
  import opened Topics
  import opened Broker
  import Wire

  class Session {
    const username: string
    var subs: seq<Sub>
    var will: Option<Message>
    var packetId: nat
    var alive: bool
    var out: seq<Frame>

    constructor (username: string, will: Option<Message>)
      ensures View() == Client(username, [], will, 0, true, [])
    {
      this.username := username;
      this.will := will;
      subs, packetId, alive, out := [], 0, true, [];
    }

    function View(): Client
      reads this
    {
      Client(username, subs, will, packetId, alive, out)
    }

    method NextPacketId() returns (id: nat)
      modifies `packetId
      ensures id == packetId == Wire.NextId(old(packetId))
    {
      packetId := packetId % 65535 + 1;
      return packetId;
    }

    /** The highest granted QoS among matching subscriptions. */
    method BestGrant(topic: string) returns (best: Option<nat>)
      ensures best == Wants(subs, topic)
    {
      hide BrokerMatches;
      best := None;
      for i := 0 to |subs|
        invariant best == Wants(subs[..i], topic)
      {
        assert subs[..i + 1][..i] == subs[..i];
        var matches := TopicMatches(subs[i].filter, topic);
        if matches {
          best := match best
                  case None => Some(subs[i].qos)
                  case Some(q) => Some(if q > subs[i].qos then q else subs[i].qos);
        }
      }
      assert subs[..|subs|] == subs;
    }

    method Send(topic: string, payload: string, qos: nat, retain: bool)
      modifies this`packetId, this`out
      ensures View() == Deliver(old(View()), topic, payload, qos, retain)
    {
      var pid := 0;
      if qos > 0 {
        pid := NextPacketId();
      }
      out := out + [Published(topic, payload, qos, retain, pid)];
    }

    method Route(m: Message)
      modifies this
      ensures View() == Routed(old(View()), m)
    {
      hide Deliver, Wants;
      var granted := BestGrant(m.topic);
      if granted.Some? {
        Send(m.topic, m.payload, Min(m.qos, granted.value), false);
      }
    }
  }

  class MqttBroker {
    var sessions: set<Session>
    var retained: seq<Retained>

    ghost function Value(): State<Session>
      reads this, sessions
    {
      State(map s | s in sessions :: s.View(), retained)
    }

    constructor ()
      ensures Value() == State(map[], [])
    {
      sessions, retained := {}, [];
    }

    method Connect(username: string, will: Option<Message>) returns (s: Session)
      modifies `sessions
      ensures fresh(s) && sessions == old(sessions) + {s}
      ensures Value() == Step(old(Value()), Event.Connect(s, username, will))
    {
      s := new Session(username, will);
      sessions := sessions + {s};
      assert Value().clients == old(Value()).clients[s := Client(username, [], will, 0, true, [])];
    }

    /** Routes a message to every matching subscriber, once each. */
    method PublishAll(m: Message)
      modifies `retained, sessions
      ensures sessions == old(sessions) && Value() == PublishedTo(old(Value()), m)
    {
      hide Put, Cleared, Routed;
      if m.retain {
        if m.payload != "" {
          retained := Put(retained, Retained(m.topic, m.payload, m.qos));
        } else {
          retained := Cleared(retained, m.topic);
        }
      }
      RouteAll(m);
    }

    method RouteAll(m: Message)
      modifies sessions
      ensures forall s :: s in sessions ==> s.View() == Routed(old(s.View()), m)
    {
      hide Routed;
      var todo := sessions;
      while todo != {}
        invariant todo <= sessions
        invariant forall s :: s in todo ==> s.View() == old(s.View())
        invariant forall s :: s in sessions - todo ==> s.View() == Routed(old(s.View()), m)
        decreases |todo|
      {
        var s :| s in todo;
        s.Route(m);
        todo := todo - {s};
      }
    }

    method OnPublish(s: Session, m: Message, pid: nat, allowed: bool)
      requires s in sessions
      modifies `retained, sessions
      ensures sessions == old(sessions) && Value() == Step(old(Value()), Event.Publish(s, m, pid, allowed))
    {
      hide PublishedTo, Subscribed, Unsubscribed;
      if m.qos == 1 {
        s.out := s.out + [PubAck(pid)];
      } else if m.qos == 2 {
        s.out := s.out + [PubRec(pid)];
      }
      assert Value().clients == old(Value()).clients[s := Acknowledged(old(s.View()), m.qos, pid)];
      if allowed {
        PublishAll(m.(qos := Min(m.qos, 1)));
      }
    }

    method OnSubscribe(s: Session, pid: nat, reqs: seq<Request>, may: string -> bool)
      requires s in sessions
      modifies s
      ensures Value() == Step(old(Value()), Event.Subscribe(s, pid, reqs, may))
    {
      hide Wire.Granted, BrokerMatches, FirstMatch, Deliver, Without;
      var granted, added := [], [];
      for i := 0 to |reqs|
        invariant s.View() == old(s.View()).(subs := AllGranted(old(s.subs), reqs[..i], may))
        invariant granted == Codes(reqs[..i], may) && added == Fresh(reqs[..i], may)
      {
        var r := reqs[i];
        assert reqs[..i + 1][..i] == reqs[..i];
        if !may(r.filter) {
          granted := granted + [0x80];
        } else {
          s.subs := Granted(s.subs, r);
          added := added + [Sub(r.filter, Wire.Granted(r.options))];
          granted := granted + [Wire.Granted(r.options)];
        }
      }
      assert reqs[..|reqs|] == reqs;
      s.out := s.out + [SubAck(pid, granted)];
      Replay(s, added);
      assert Value().clients == old(Value()).clients[s := Subscribed(old(s.View()), pid, reqs, may, retained)];
    }

    /** The retained messages that match a newly granted filter. */
    method Replay(s: Session, added: seq<Sub>)
      modifies s
      ensures s.View() == Replayed(old(s.View()), retained, added)
    {
      hide BrokerMatches, Deliver;
      var before := s.View();
      for i := 0 to |retained|
        invariant s.View() == Replayed(before, retained[..i], added)
      {
        var r := retained[i];
        assert retained[..i + 1][..i] == retained[..i];
        var q := First(added, r.topic);
        if q.Some? {
          s.Send(r.topic, r.payload, Min(r.qos, q.value), true);
        }
      }
      assert retained[..|retained|] == retained;
    }

    method First(added: seq<Sub>, topic: string) returns (q: Option<nat>)
      ensures q == FirstMatch(added, topic)
    {
      hide BrokerMatches;
      for i := 0 to |added|
        invariant FirstMatch(added, topic) == FirstMatch(added[i..], topic)
      {
        var matches := TopicMatches(added[i].filter, topic);
        if matches {
          return Some(added[i].qos);
        }
        assert added[i..][1..] == added[i + 1..];
      }
      return None;
    }

    method OnUnsubscribe(s: Session, pid: nat, filters: seq<string>)
      requires s in sessions
      modifies s
      ensures Value() == Step(old(Value()), Event.Unsubscribe(s, pid, filters))
    {
      for i := 0 to |filters|
        invariant s.View() == old(s.View()).(subs := AllWithout(old(s.subs), filters[..i]))
      {
        assert filters[..i + 1][..i] == filters[..i];
        s.subs := Without(s.subs, filters[i]);
      }
      assert filters[..|filters|] == filters;
      s.out := s.out + [UnsubAck(pid)];
      assert Value().clients == old(Value()).clients[s := Unsubscribed(old(s.View()), pid, filters)];
    }

    /** The end of a connection: the session goes, and its will is published unless it was given up. */
    method Close(s: Session)
      requires s in sessions
      modifies this, sessions
      ensures sessions == old(sessions) - {s}
      ensures Value() == Step(old(Value()), Event.Drop(s))
    {
      sessions := sessions - {s};
      assert Value().clients == old(Value()).clients - {s};
      if s.alive && s.will.Some? {
        PublishAll(s.will.value);
      }
    }

    method OnDisconnect(s: Session)
      requires s in sessions
      modifies this, sessions
      ensures sessions == old(sessions) - {s}
      ensures Value() == Step(old(Value()), Event.Disconnect(s))
    {
      s.will := None;
      s.alive := false;
      Close(s);
      assert Value().clients == old(Value()).clients - {s};
    }

    /** What a raising write leaves behind. */
    method OnWriteFailed(s: Session)
      requires s in sessions
      modifies s`alive
      ensures !s.alive && Value() == Step(old(Value()), Event.WriteFailed(s))
    {
      s.alive := false;
      assert Value().clients == old(Value()).clients[s := old(s.View()).(alive := false)];
    }

    /** Drops every live connection of a username, wills and all. */
    method Kick(username: string) returns (n: nat)
      modifies this, sessions
      ensures Value() == Step(old(Value()), Event.Kick(username))
      ensures n == |set s | s in old(sessions) && s.username == username|
    {
      hide PublishedTo, Subscribed, Unsubscribed, Acknowledged;
      var kicked := Silence(username);
      n := |kicked|;
      sessions := sessions - kicked;
      assert Value().clients == Handled(old(Value()), Event.Kick(username)).clients;
    }

    method Silence(username: string) returns (kicked: set<Session>)
      modifies sessions
      ensures kicked == set s | s in sessions && s.username == username
      ensures forall s :: s in kicked ==> !s.alive && s.will.None?
      ensures forall s :: s in sessions - kicked ==> s.View() == old(s.View())
    {
      kicked := {};
      var todo := sessions;
      while todo != {}
        invariant todo <= sessions
        invariant kicked == set s | s in sessions - todo && s.username == username
        invariant forall s :: s in kicked ==> !s.alive && s.will.None?
        invariant forall s :: s in sessions - kicked ==> s.View() == old(s.View())
        decreases |todo|
      {
        var s :| s in todo;
        if s.username == username {
          s.alive := false;
          s.will := None;
          kicked := kicked + {s};
        }
        todo := todo - {s};
      }
    }
  }
}
