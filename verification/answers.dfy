/** What the broker answers a connection, over whole runs: every packet that asks for an answer gets one, in order. */
module Answers {
  import opened Broker
  import opened Deques
  import opened Options
  import opened Topics
  import Wire

  /** The frames written to a connection other than messages. */
  function Answered(out: seq<Frame>): seq<Frame> {
    if out == [] then []
    else Answered(out[..|out| - 1]) + (if out[|out| - 1].Published? then [] else [out[|out| - 1]])
  }

  /** What one packet of the connection asks for: PUBACK at QoS 1, PUBREC at QoS 2, SUBACK, UNSUBACK. */
  function Asked<S(==)>(e: Event<S>, id: S): seq<Frame> {
    match e
    case Publish(who, m, pid, _) =>
      if who != id then [] else if m.qos == 1 then [PubAck(pid)] else if m.qos == 2 then [PubRec(pid)] else []
    case Subscribe(who, pid, reqs, may) => if who == id then [SubAck(pid, Codes(reqs, may))] else []
    case Unsubscribe(who, pid, _) => if who == id then [UnsubAck(pid)] else []
    case _ => []
  }

  /** What the packets since the connection was last made ask for. */
  function AskedSince<S(==)>(es: seq<Event<S>>, id: S): seq<Frame> {
    if es == [] || (es[|es| - 1].Connect? && es[|es| - 1].id == id) then []
    else AskedSince(es[..|es| - 1], id) + Asked(es[|es| - 1], id)
  }

  lemma {:induction false} AnsweredSnoc(out: seq<Frame>, f: Frame)
    ensures Answered(out + [f]) == Answered(out) + (if f.Published? then [] else [f])
  {
    assert (out + [f])[..|out|] == out;
  }

  lemma {:induction false} ReplayAnswersNothing(c: Client, rs: seq<Retained>, added: seq<Sub>)
    ensures Answered(Replayed(c, rs, added).out) == Answered(c.out)
  {
    hide FirstMatch;
    if rs != [] {
      var before, r := Replayed(c, rs[..|rs| - 1], added), rs[|rs| - 1];
      ReplayAnswersNothing(c, rs[..|rs| - 1], added);
      var q := FirstMatch(added, r.topic);
      if q.Some? {
        AnsweredSnoc(before.out, Deliver(before, r.topic, r.payload, Min(r.qos, q.value), true).out[|before.out|]);
      }
    }
  }

  lemma {:induction false} RouteAnswersNothing(c: Client, m: Message)
    ensures Answered(Routed(c, m).out) == Answered(c.out)
  {
    hide Wants;
    var q := Wants(c.subs, m.topic);
    if q.Some? {
      AnsweredSnoc(c.out, Deliver(c, m.topic, m.payload, Min(m.qos, q.value), false).out[|c.out|]);
    }
  }

  lemma {:induction false} HandledAnswers<S>(b: State<S>, e: Event<S>, id: S)
    requires id in Handled(b, e).clients && !(e.Connect? && e.id == id)
    ensures id in b.clients && Answered(Handled(b, e).clients[id].out) == Answered(b.clients[id].out) + Asked(e, id)
  {
    hide AllGranted, AllWithout, Replayed, Codes, Fresh;
    var out := b.clients[id].out;
    if e.Publish? && e.id == id {
      AnsweredSnoc(out, PubAck(e.pid));
      AnsweredSnoc(out, PubRec(e.pid));
    } else if e.Subscribe? && e.id == id {
      var c, ack := b.clients[id], SubAck(e.pid, Codes(e.reqs, e.may));
      AnsweredSnoc(out, ack);
      ReplayAnswersNothing(c.(subs := AllGranted(c.subs, e.reqs, e.may), out := out + [ack]), b.retained,
                           Fresh(e.reqs, e.may));
    } else if e.Unsubscribe? && e.id == id {
      AnsweredSnoc(out, UnsubAck(e.pid));
    }
  }

  lemma {:induction false} StepAnswers<S>(b: State<S>, e: Event<S>, id: S)
    requires id in Step(b, e).clients && !(e.Connect? && e.id == id)
    ensures id in b.clients && Answered(Step(b, e).clients[id].out) == Answered(b.clients[id].out) + Asked(e, id)
  {
    hide Handled, Emitted, Routed, RetainedAfter, Answered, Asked;
    HandledAnswers(b, e, id);
    if Emitted(b, e).Some? {
      RouteAnswersNothing(Handled(b, e).clients[id], Emitted(b, e).value);
    }
  }

  /** Over every run a connection has been written exactly the answers its packets asked for, in order. */
  lemma {:induction false} RunAnswers<S>(b: State<S>, es: seq<Event<S>>, id: S)
    requires id !in b.clients && id in Run(b, es).clients
    ensures Answered(Run(b, es).clients[id].out) == AskedSince(es, id)
  {
    var init, e := es[..|es| - 1], es[|es| - 1];
    hide Step, Asked;
    if e.Connect? && e.id == id {
      StepConnects(Run(b, init), e);
    } else {
      StepAnswers(Run(b, init), e, id);
      RunAnswers(b, init, id);
    }
  }

  // ---------------------------------------------------------------- the replay

  /** The filter was allowed and matches. */
  predicate Asks(r: Request, may: string -> bool, topic: string) {
    may(r.filter) && BrokerMatches(r.filter, topic)
  }

  /** Request `i` is the first whose filter was allowed and matches. */
  predicate FirstAsks(reqs: seq<Request>, may: string -> bool, topic: string, i: nat) {
    i < |reqs| && Asks(reqs[i], may, topic) && forall j :: 0 <= j < i ==> !Asks(reqs[j], may, topic)
  }

  predicate NoneAsks(reqs: seq<Request>, may: string -> bool, topic: string) {
    forall i :: 0 <= i < |reqs| ==> !Asks(reqs[i], may, topic)
  }

  lemma {:induction false} FirstMatchSnoc(subs: seq<Sub>, last: Sub, topic: string)
    ensures FirstMatch(subs + [last], topic) ==
              if FirstMatch(subs, topic).Some? then FirstMatch(subs, topic)
              else if BrokerMatches(last.filter, topic) then Some(last.qos)
              else None
    decreases |subs|
  {
    hide BrokerMatches;
    if subs == [] {
      assert (subs + [last])[1..] == [];
    } else {
      assert (subs + [last])[1..] == subs[1..] + [last];
      FirstMatchSnoc(subs[1..], last, topic);
    }
  }

  lemma {:induction false} FreshMatch(reqs: seq<Request>, may: string -> bool, topic: string)
    ensures match FirstMatch(Fresh(reqs, may), topic)
            case None => NoneAsks(reqs, may, topic)
            case Some(q) =>
              exists i: nat :: FirstAsks(reqs, may, topic, i) && q == if reqs[i].options % 4 == 0 then 0 else 1
  {
    hide BrokerMatches;
    if reqs != [] {
      var most, last, n := reqs[..|reqs| - 1], reqs[|reqs| - 1], |reqs| - 1;
      FreshMatch(most, may, topic);
      FirstMatchSnoc(Fresh(most, may), Sub(last.filter, Wire.Granted(last.options)), topic);
      assert Fresh(most, may) + [] == Fresh(most, may);
      var before, after := FirstMatch(Fresh(most, may), topic), FirstMatch(Fresh(reqs, may), topic);
      assert after == if before.Some? then before
                      else if Asks(last, may, topic) then Some(Wire.Granted(last.options))
                      else None;
      hide FirstMatch, Asks;
      assert forall i :: 0 <= i < n ==> most[i] == reqs[i];
      if before.Some? {
        var i: nat :| FirstAsks(most, may, topic, i) && before.value == if most[i].options % 4 == 0 then 0 else 1;
        assert FirstAsks(reqs, may, topic, i);
      } else if Asks(last, may, topic) {
        assert FirstAsks(reqs, may, topic, n);
      }
    }
  }

  /** The retained message is due to a SUBSCRIBE with these requests, in this form. */
  ghost predicate DueTo(r: Retained, reqs: seq<Request>, may: string -> bool, d: Delivery) {
    exists i: nat :: FirstAsks(reqs, may, r.topic, i) &&
                     d == Delivery(r.topic, r.payload, Min(r.qos, if reqs[i].options % 4 == 0 then 0 else 1))
  }

  lemma {:induction false} DueIsReplayable(r: Retained, reqs: seq<Request>, may: string -> bool, d: Delivery)
    ensures DueTo(r, reqs, may, d) <==> Replayable(r, Fresh(reqs, may), d)
  {
    FreshMatch(reqs, may, r.topic);
    hide Asks, Fresh, FirstMatch;
    if DueTo(r, reqs, may, d) && FirstMatch(Fresh(reqs, may), r.topic).Some? {
      var i: nat :| FirstAsks(reqs, may, r.topic, i) &&
                    d == Delivery(r.topic, r.payload, Min(r.qos, if reqs[i].options % 4 == 0 then 0 else 1));
      var k: nat :| FirstAsks(reqs, may, r.topic, k) &&
                    FirstMatch(Fresh(reqs, may), r.topic).value == if reqs[k].options % 4 == 0 then 0 else 1;
      assert i == k;
    }
  }

  /** Over every run a SUBSCRIBE is sent exactly the retained messages that match one of its filters and are allowed by
      it, each once, at the QoS they were retained with or 1 or that of the first such filter, whichever is least. */
  lemma {:induction false} SubscribeReplays<S>(b: State<S>, es: seq<Event<S>>, id: S, pid: nat, reqs: seq<Request>,
                                               may: string -> bool) returns (replayed: seq<Delivery>)
    requires b.retained == [] && id in Run(b, es).clients
    ensures var before, after := Run(b, es), Step(Run(b, es), Subscribe(id, pid, reqs, may));
            && id in after.clients
            && Replays(after.clients[id].out) == Replays(before.clients[id].out) + replayed
            && (forall d :: d in replayed ==> exists r :: r in before.retained && DueTo(r, reqs, may, d))
            && (forall r, d :: r in before.retained && DueTo(r, reqs, may, d) ==> d in replayed)
            && (forall i, j :: 0 <= i < j < |replayed| ==> replayed[i].topic != replayed[j].topic)
  {
    var rs := Run(b, es).retained;
    replayed := ReplayList(rs, Fresh(reqs, may));
    SubscribeWrites(Run(b, es).clients[id], pid, reqs, may, rs);
    RetainedIsLast(b, es, "");
    ReplayOnce(rs, Fresh(reqs, may));
    hide Run, Subscribed, Replays, ReplayList, Replayable, DueTo, Fresh;
    forall r, d ensures DueTo(r, reqs, may, d) <==> Replayable(r, Fresh(reqs, may), d) {
      DueIsReplayable(r, reqs, may, d);
    }
  }
}
