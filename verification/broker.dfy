/** What the embedded MQTT broker does with one packet, and what follows over whole runs.

    `S` identifies a connection.  Every event is one atomic step, as no handler suspends. */
module Broker {
  import opened Deques
  import opened Options
  import opened Topics
  import Wire

  datatype Message = Message(topic: string, payload: string, qos: nat, retain: bool)

  datatype Frame =
    | Published(topic: string, payload: string, qos: nat, retain: bool, pid: nat)
    | PubAck(pid: nat)
    | PubRec(pid: nat)
    | SubAck(pid: nat, codes: seq<nat>)
    | UnsubAck(pid: nat)

  datatype Sub = Sub(filter: string, qos: nat)

  /** One filter of a SUBSCRIBE packet, with its options byte. */
  datatype Request = Request(filter: string, options: Wire.Byte)

  datatype Client = Client(username: string, subs: seq<Sub>, will: Option<Message>, packetId: nat, alive: bool,
                           out: seq<Frame>)

  /** Retained messages in the order their topics were first retained. */
  datatype Retained = Retained(topic: string, payload: string, qos: nat)

  datatype State<S(==)> = State(clients: map<S, Client>, retained: seq<Retained>)

  // ---------------------------------------------------------------- one message

  function Deliver(c: Client, topic: string, payload: string, qos: nat, retain: bool): Client {
    var pid := if qos > 0 then Wire.NextId(c.packetId) else 0;
    c.(packetId := if qos > 0 then pid else c.packetId,
       out := c.out + [Published(topic, payload, qos, retain, pid)])
  }

  function Wants(subs: seq<Sub>, topic: string): Option<nat> {
    if subs == [] then None else
    var best := Wants(subs[..|subs| - 1], topic);
    var last := subs[|subs| - 1];
    if !BrokerMatches(last.filter, topic) then best
    else if best.Some? && best.value > last.qos then best
    else Some(last.qos)
  }

  function Routed(c: Client, m: Message): Client {
    match Wants(c.subs, m.topic)
    case None => c
    case Some(granted) => Deliver(c, m.topic, m.payload, Min(m.qos, granted), false)
  }

  function Put(rs: seq<Retained>, r: Retained): seq<Retained> {
    if rs == [] then [r]
    else if rs[0].topic == r.topic then [r] + rs[1..]
    else [rs[0]] + Put(rs[1..], r)
  }

  function Cleared(rs: seq<Retained>, topic: string): seq<Retained> {
    if rs == [] then []
    else if rs[0].topic == topic then rs[1..]
    else [rs[0]] + Cleared(rs[1..], topic)
  }

  function RetainedAfter(rs: seq<Retained>, m: Message): seq<Retained> {
    if !m.retain then rs
    else if m.payload != "" then Put(rs, Retained(m.topic, m.payload, m.qos))
    else Cleared(rs, m.topic)
  }

  function PublishedTo<S>(b: State<S>, m: Message): State<S> {
    State(map s | s in b.clients :: Routed(b.clients[s], m), RetainedAfter(b.retained, m))
  }

  // ---------------------------------------------------------------- subscriptions

  function Without(subs: seq<Sub>, filter: string): seq<Sub> {
    if subs == [] then []
    else Without(subs[..|subs| - 1], filter) + (if subs[|subs| - 1].filter == filter then [] else [subs[|subs| - 1]])
  }

  function Granted(subs: seq<Sub>, r: Request): seq<Sub> {
    Without(subs, r.filter) + [Sub(r.filter, Wire.Granted(r.options))]
  }

  function AllGranted(subs: seq<Sub>, reqs: seq<Request>, may: string -> bool): seq<Sub> {
    if reqs == [] then subs else
    var before := AllGranted(subs, reqs[..|reqs| - 1], may);
    var r := reqs[|reqs| - 1];
    if may(r.filter) then Granted(before, r) else before
  }

  function Fresh(reqs: seq<Request>, may: string -> bool): seq<Sub> {
    if reqs == [] then [] else
    var r := reqs[|reqs| - 1];
    Fresh(reqs[..|reqs| - 1], may) + (if may(r.filter) then [Sub(r.filter, Wire.Granted(r.options))] else [])
  }

  function Codes(reqs: seq<Request>, may: string -> bool): seq<nat> {
    if reqs == [] then [] else
    var r := reqs[|reqs| - 1];
    Codes(reqs[..|reqs| - 1], may) + [if may(r.filter) then Wire.Granted(r.options) else 0x80]
  }

  /** The QoS of the first filter that matches. */
  function FirstMatch(subs: seq<Sub>, topic: string): Option<nat> {
    if subs == [] then None
    else if BrokerMatches(subs[0].filter, topic) then Some(subs[0].qos)
    else FirstMatch(subs[1..], topic)
  }

  function Replayed(c: Client, rs: seq<Retained>, added: seq<Sub>): Client {
    if rs == [] then c else
    var before := Replayed(c, rs[..|rs| - 1], added);
    var r := rs[|rs| - 1];
    match FirstMatch(added, r.topic)
    case None => before
    case Some(qos) => Deliver(before, r.topic, r.payload, Min(r.qos, qos), true)
  }

  function Subscribed(c: Client, pid: nat, reqs: seq<Request>, may: string -> bool, rs: seq<Retained>): Client {
    Replayed(c.(subs := AllGranted(c.subs, reqs, may), out := c.out + [SubAck(pid, Codes(reqs, may))]),
             rs, Fresh(reqs, may))
  }

  function AllWithout(subs: seq<Sub>, filters: seq<string>): seq<Sub> {
    if filters == [] then subs
    else Without(AllWithout(subs, filters[..|filters| - 1]), filters[|filters| - 1])
  }

  function Unsubscribed(c: Client, pid: nat, filters: seq<string>): Client {
    c.(subs := AllWithout(c.subs, filters), out := c.out + [UnsubAck(pid)])
  }

  // ---------------------------------------------------------------- steps

  /** `Drop` is any end of a connection other than DISCONNECT: a broken or timed-out link, or a packet the
      broker cannot parse.  `WriteFailed` is a write to the connection that raises; the session stays until its
      reader notices.  `Internal` is a message the server itself publishes. */
  datatype Event<S> =
    | Connect(id: S, username: string, will: Option<Message>)
    | Publish(id: S, m: Message, pid: nat, allowed: bool)
    | Subscribe(id: S, pid: nat, reqs: seq<Request>, may: string -> bool)
    | Unsubscribe(id: S, pid: nat, filters: seq<string>)
    | Disconnect(id: S)
    | Drop(id: S)
    | WriteFailed(id: S)
    | Kick(username: string)
    | Internal(m: Message)

  function Acknowledged(c: Client, qos: nat, pid: nat): Client {
    if qos == 1 then c.(out := c.out + [PubAck(pid)])
    else if qos == 2 then c.(out := c.out + [PubRec(pid)])
    else c
  }

  /** The message an event hands to `publish`, if any. */
  function Emitted<S>(b: State<S>, e: Event<S>): Option<Message> {
    match e
    case Publish(id, m, _, allowed) => if id in b.clients && allowed then Some(m.(qos := Min(m.qos, 1))) else None
    case Drop(id) => if id in b.clients && b.clients[id].alive then b.clients[id].will else None
    case Internal(m) => Some(m)
    case _ => None
  }

  /** What an event does apart from the message it emits. */
  function Handled<S>(b: State<S>, e: Event<S>): State<S> {
    match e
    case Connect(id, user, will) => b.(clients := b.clients[id := Client(user, [], will, 0, true, [])])
    case Kick(user) => b.(clients := map s | s in b.clients && b.clients[s].username != user :: b.clients[s])
    case Internal(_) => b
    case _ =>
      if e.id !in b.clients then b else
      var c := b.clients[e.id];
      match e
      case Publish(id, m, pid, _) => b.(clients := b.clients[id := Acknowledged(c, m.qos, pid)])
      case Subscribe(id, pid, reqs, may) => b.(clients := b.clients[id := Subscribed(c, pid, reqs, may, b.retained)])
      case Unsubscribe(id, pid, filters) => b.(clients := b.clients[id := Unsubscribed(c, pid, filters)])
      case WriteFailed(id) => b.(clients := b.clients[id := c.(alive := false)])
      case _ => b.(clients := b.clients - {e.id})
  }

  function Step<S>(b: State<S>, e: Event<S>): State<S> {
    match Emitted(b, e)
    case None => Handled(b, e)
    case Some(m) => PublishedTo(Handled(b, e), m)
  }

  function Run<S>(b: State<S>, es: seq<Event<S>>): State<S> {
    if es == [] then b else Step(Run(b, es[..|es| - 1]), es[|es| - 1])
  }

  function StepMessages<S>(b: State<S>, e: Event<S>): seq<Message> {
    match Emitted(b, e)
    case None => []
    case Some(m) => [m]
  }

  /** Every message published in a run, wills included, in order. */
  function Messages<S>(b: State<S>, es: seq<Event<S>>): seq<Message> {
    if es == [] then []
    else Messages(b, es[..|es| - 1]) + StepMessages(Run(b, es[..|es| - 1]), es[|es| - 1])
  }

  // ---------------------------------------------------------------- retained messages

  function Find(rs: seq<Retained>, topic: string): Option<Retained> {
    if rs == [] then None
    else if rs[0].topic == topic then Some(rs[0])
    else Find(rs[1..], topic)
  }

  /** What is retained on a topic according to the messages alone: the last retained one, unless empty. */
  function LastRetained(ms: seq<Message>, topic: string, before: Option<Retained>): Option<Retained> {
    if ms == [] then before else
    var m := ms[|ms| - 1];
    if m.retain && m.topic == topic then
      (if m.payload != "" then Some(Retained(topic, m.payload, m.qos)) else None)
    else LastRetained(ms[..|ms| - 1], topic, before)
  }

  predicate OncePerTopic(rs: seq<Retained>) {
    forall i, j :: 0 <= i < j < |rs| ==> rs[i].topic != rs[j].topic
  }

  lemma {:induction false} FindAbsent(rs: seq<Retained>, topic: string)
    ensures Find(rs, topic).None? <==> forall i :: 0 <= i < |rs| ==> rs[i].topic != topic
  {
    if rs != [] {
      FindAbsent(rs[1..], topic);
      if rs[0].topic != topic {
        assert forall i :: 0 < i < |rs| ==> rs[i] == rs[1..][i - 1];
      }
    }
  }

  lemma {:induction false} PutFinds(rs: seq<Retained>, r: Retained, topic: string)
    requires OncePerTopic(rs)
    ensures OncePerTopic(Put(rs, r))
    ensures Find(Put(rs, r), topic) == if topic == r.topic then Some(r) else Find(rs, topic)
    ensures forall x :: x in Put(rs, r) ==> x in rs || x == r
  {
    if rs != [] {
      PutFinds(rs[1..], r, topic);
      assert forall x :: x in rs[1..] ==> x in rs && x.topic != rs[0].topic;
    }
  }

  lemma {:induction false} ClearedKeeps(rs: seq<Retained>, gone: string)
    ensures forall x :: x in Cleared(rs, gone) ==> x in rs
  {
    if rs != [] {
      ClearedKeeps(rs[1..], gone);
    }
  }

  lemma {:induction false} ClearedFinds(rs: seq<Retained>, gone: string, topic: string)
    requires OncePerTopic(rs)
    ensures OncePerTopic(Cleared(rs, gone))
    ensures Find(Cleared(rs, gone), topic) == if topic == gone then None else Find(rs, topic)
  {
    if rs != [] {
      assert forall x :: x in rs[1..] ==> x.topic != rs[0].topic;
      if rs[0].topic == gone {
        FindAbsent(rs[1..], gone);
      } else {
        ClearedFinds(rs[1..], gone, topic);
        ClearedKeeps(rs[1..], gone);
        assert Cleared(rs, gone)[1..] == Cleared(rs[1..], gone);
      }
    }
  }

  lemma {:induction false} RetainedFinds(rs: seq<Retained>, m: Message, topic: string)
    requires OncePerTopic(rs)
    ensures OncePerTopic(RetainedAfter(rs, m))
    ensures Find(RetainedAfter(rs, m), topic) == LastRetained([m], topic, Find(rs, topic))
  {
    PutFinds(rs, Retained(m.topic, m.payload, m.qos), topic);
    ClearedFinds(rs, m.topic, topic);
    assert LastRetained([m][..0], topic, Find(rs, topic)) == Find(rs, topic);
  }

  lemma {:induction false} StepRetained<S>(b: State<S>, e: Event<S>, topic: string)
    requires OncePerTopic(b.retained)
    ensures OncePerTopic(Step(b, e).retained)
    ensures Find(Step(b, e).retained, topic) == LastRetained(StepMessages(b, e), topic, Find(b.retained, topic))
  {
    hide Find, OncePerTopic, RetainedAfter, Routed;
    assert Handled(b, e).retained == b.retained;
    hide Handled;
    match Emitted(b, e)
    case None =>
    case Some(m) => hide Emitted; RetainedFinds(b.retained, m, topic);
  }

  lemma {:induction false} LastRetainedSplit(a: seq<Message>, b: seq<Message>, topic: string, before: Option<Retained>)
    requires |b| <= 1
    ensures LastRetained(a + b, topic, before) == LastRetained(b, topic, LastRetained(a, topic, before))
  {
    if b == [] {
      assert a + b == a;
    } else {
      assert (a + b)[..|a|] == a && b[..0] == [];
    }
  }

  /** Over every run, what is retained on a topic is the last retained message published on it, an empty one
      clearing it; no topic is retained twice. */
  lemma {:induction false} RetainedIsLast<S>(b: State<S>, es: seq<Event<S>>, topic: string)
    requires OncePerTopic(b.retained)
    ensures OncePerTopic(Run(b, es).retained)
    ensures Find(Run(b, es).retained, topic) == LastRetained(Messages(b, es), topic, Find(b.retained, topic))
  {
    hide Step, Emitted, Find, OncePerTopic;
    if es != [] {
      var before, e := Run(b, es[..|es| - 1]), es[|es| - 1];
      RetainedIsLast(b, es[..|es| - 1], topic);
      StepRetained(before, e, topic);
      LastRetainedSplit(Messages(b, es[..|es| - 1]), StepMessages(before, e), topic, Find(b.retained, topic));
    }
  }

  // ---------------------------------------------------------------- grants

  predicate OncePerFilter(subs: seq<Sub>) {
    forall i, j :: 0 <= i < j < |subs| ==> subs[i].filter != subs[j].filter
  }

  function GrantMap(subs: seq<Sub>): map<string, nat> {
    if subs == [] then map[] else
    GrantMap(subs[..|subs| - 1])[subs[|subs| - 1].filter := subs[|subs| - 1].qos]
  }

  /** The grants of a connection according to its packets alone: a map from filters to granted QoS. */
  function GrantsOf<S(==)>(es: seq<Event<S>>, id: S): map<string, nat> {
    if es == [] then map[] else
    var before := GrantsOf(es[..|es| - 1], id);
    match es[|es| - 1]
    case Connect(who, _, _) => if who == id then map[] else before
    case Subscribe(who, _, reqs, may) => if who == id then GrantedMap(before, reqs, may) else before
    case Unsubscribe(who, _, filters) => if who == id then before - (set f | f in filters) else before
    case _ => before
  }

  function GrantedMap(g: map<string, nat>, reqs: seq<Request>, may: string -> bool): map<string, nat> {
    if reqs == [] then g else
    var before := GrantedMap(g, reqs[..|reqs| - 1], may);
    var r := reqs[|reqs| - 1];
    if may(r.filter) then before[r.filter := Wire.Granted(r.options)] else before
  }

  lemma {:induction false} OnceAppend(subs: seq<Sub>, x: Sub)
    requires OncePerFilter(subs) && forall y :: y in subs ==> y.filter != x.filter
    ensures OncePerFilter(subs + [x])
  {
    assert forall i :: 0 <= i < |subs| ==> subs[i] in subs;
  }

  lemma {:induction false} WithoutIs(subs: seq<Sub>, filter: string)
    requires OncePerFilter(subs)
    ensures OncePerFilter(Without(subs, filter))
    ensures forall x :: x in Without(subs, filter) ==> x in subs && x.filter != filter
  {
    if subs != [] {
      var most, last := subs[..|subs| - 1], subs[|subs| - 1];
      assert OncePerFilter(most) && forall x :: x in most ==> x.filter != last.filter;
      WithoutIs(most, filter);
      hide OncePerFilter;
      if last.filter != filter {
        OnceAppend(Without(most, filter), last);
      } else {
        assert Without(most, filter) + [] == Without(most, filter);
      }
    }
  }

  lemma {:induction false} GrantMapAppend(subs: seq<Sub>, x: Sub)
    ensures GrantMap(subs + [x]) == GrantMap(subs)[x.filter := x.qos]
  {
    assert (subs + [x])[..|subs|] == subs;
  }

  lemma {:induction false} MapMinus<K, V>(m: map<K, V>, gone: K, k: K, v: V)
    ensures k == gone ==> m[k := v] - {gone} == m - {gone}
    ensures k != gone ==> m[k := v] - {gone} == (m - {gone})[k := v]
  {
  }

  lemma {:induction false} WithoutMap(subs: seq<Sub>, filter: string)
    ensures GrantMap(Without(subs, filter)) == GrantMap(subs) - {filter}
  {
    if subs != [] {
      var most, last := subs[..|subs| - 1], subs[|subs| - 1];
      WithoutMap(most, filter);
      var before, kept := GrantMap(most), Without(most, filter);
      assert GrantMap(subs) == before[last.filter := last.qos];
      if last.filter != filter {
        GrantMapAppend(kept, last);
        MapMinus(before, filter, last.filter, last.qos);
      } else {
        assert kept + [] == kept;
        MapMinus(before, filter, last.filter, last.qos);
      }
    }
  }

  lemma {:induction false} GrantedIs(subs: seq<Sub>, r: Request)
    requires OncePerFilter(subs)
    ensures OncePerFilter(Granted(subs, r))
    ensures GrantMap(Granted(subs, r)) == GrantMap(subs)[r.filter := Wire.Granted(r.options)]
  {
    hide GrantMap, Without, OncePerFilter;
    var x := Sub(r.filter, Wire.Granted(r.options));
    WithoutIs(subs, r.filter);
    WithoutMap(subs, r.filter);
    OnceAppend(Without(subs, r.filter), x);
    GrantMapAppend(Without(subs, r.filter), x);
    assert (GrantMap(subs) - {r.filter})[r.filter := x.qos] == GrantMap(subs)[r.filter := x.qos];
  }

  lemma {:induction false} AllGrantedIs(subs: seq<Sub>, reqs: seq<Request>, may: string -> bool)
    requires OncePerFilter(subs)
    ensures OncePerFilter(AllGranted(subs, reqs, may))
    ensures GrantMap(AllGranted(subs, reqs, may)) == GrantedMap(GrantMap(subs), reqs, may)
  {
    if reqs != [] {
      AllGrantedIs(subs, reqs[..|reqs| - 1], may);
      GrantedIs(AllGranted(subs, reqs[..|reqs| - 1], may), reqs[|reqs| - 1]);
    }
  }

  lemma {:induction false} AllWithoutIs(subs: seq<Sub>, filters: seq<string>)
    requires OncePerFilter(subs)
    ensures OncePerFilter(AllWithout(subs, filters))
    ensures GrantMap(AllWithout(subs, filters)) == GrantMap(subs) - (set f | f in filters)
  {
    if filters != [] {
      var most, last := filters[..|filters| - 1], filters[|filters| - 1];
      AllWithoutIs(subs, most);
      WithoutIs(AllWithout(subs, most), last);
      WithoutMap(AllWithout(subs, most), last);
      hide GrantMap, Without, OncePerFilter, AllWithout;
      assert filters == most + [last];
      assert (set f | f in filters) == (set f | f in most) + {last};
      var g := GrantMap(subs);
      assert g - (set f | f in most) - {last} == g - (set f | f in filters);
    } else {
      assert (set f | f in filters) == {};
    }
  }

  lemma {:induction false} ReplayedSubs(c: Client, rs: seq<Retained>, added: seq<Sub>)
    ensures Replayed(c, rs, added).subs == c.subs
    ensures Replayed(c, rs, added).username == c.username
    ensures Replayed(c, rs, added).will == c.will && Replayed(c, rs, added).alive == c.alive
  {
    if rs != [] {
      ReplayedSubs(c, rs[..|rs| - 1], added);
    }
  }

  function SubsAfter<S(==)>(subs: seq<Sub>, e: Event<S>, id: S): seq<Sub> {
    match e
    case Connect(who, _, _) => if who == id then [] else subs
    case Subscribe(who, _, reqs, may) => if who == id then AllGranted(subs, reqs, may) else subs
    case Unsubscribe(who, _, filters) => if who == id then AllWithout(subs, filters) else subs
    case _ => subs
  }

  lemma {:induction false} StepSubs<S>(b: State<S>, e: Event<S>, id: S)
    requires id in Step(b, e).clients
    ensures (e.Connect? && e.id == id) || id in b.clients
    ensures Step(b, e).clients[id].subs == SubsAfter(if id in b.clients then b.clients[id].subs else [], e, id)
  {
    hide AllGranted, AllWithout, Wants, Replayed, Codes, Fresh;
    if e.Subscribe? && e.id == id {
      var c := b.clients[id];
      ReplayedSubs(c.(subs := AllGranted(c.subs, e.reqs, e.may), out := c.out + [SubAck(e.pid, Codes(e.reqs, e.may))]),
                   b.retained, Fresh(e.reqs, e.may));
    }
  }

  /** Over every run, a connection holds each filter once, at the QoS its packets last had granted. */
  lemma {:induction false} GrantsAreLast<S>(b: State<S>, es: seq<Event<S>>, id: S)
    requires id !in b.clients && id in Run(b, es).clients
    ensures OncePerFilter(Run(b, es).clients[id].subs)
    ensures GrantMap(Run(b, es).clients[id].subs) == GrantsOf(es, id)
  {
    var most, e := es[..|es| - 1], es[|es| - 1];
    var before := Run(b, most);
    hide OncePerFilter, GrantMap, GrantedMap, AllGranted, AllWithout;
    StepSubs(before, e, id);
    NoGrants();
    if !(e.Connect? && e.id == id) {
      GrantsAreLast(b, most, id);
      var subs := before.clients[id].subs;
      if e.Subscribe? {
        AllGrantedIs(subs, e.reqs, e.may);
      } else if e.Unsubscribe? {
        AllWithoutIs(subs, e.filters);
      }
    }
  }

  lemma {:induction false} NoGrants()
    ensures GrantMap([]) == map[] && OncePerFilter([])
  {
  }

  // ---------------------------------------------------------------- who receives a message

  /** The highest QoS granted to any matching filter. */
  predicate IsHighest(subs: seq<Sub>, topic: string, qos: nat) {
    && (exists x :: x in subs && BrokerMatches(x.filter, topic) && x.qos == qos)
    && (forall x :: x in subs && BrokerMatches(x.filter, topic) ==> x.qos <= qos)
  }

  lemma {:induction false} WantsIsHighest(subs: seq<Sub>, topic: string)
    ensures Wants(subs, topic).None? <==> forall x :: x in subs ==> !BrokerMatches(x.filter, topic)
    ensures Wants(subs, topic).Some? ==> IsHighest(subs, topic, Wants(subs, topic).value)
  {
    hide BrokerMatches;
    if subs != [] {
      var most, last := subs[..|subs| - 1], subs[|subs| - 1];
      WantsIsHighest(most, topic);
      assert subs == most + [last];
      assert forall x :: x in subs <==> x in most || x == last;
    }
  }

  /** A live delivery, as opposed to a replayed retained message. */
  datatype Delivery = Delivery(topic: string, payload: string, qos: nat)

  function Live(out: seq<Frame>): seq<Delivery> {
    if out == [] then [] else
    var f := out[|out| - 1];
    Live(out[..|out| - 1]) + (if f.Published? && !f.retain then [Delivery(f.topic, f.payload, f.qos)] else [])
  }

  function Matching(ms: seq<Message>, subs: seq<Sub>): seq<Delivery> {
    if ms == [] then [] else
    var m := ms[|ms| - 1];
    var q := Wants(subs, m.topic);
    Matching(ms[..|ms| - 1], subs) + (if q.Some? then [Delivery(m.topic, m.payload, Min(m.qos, q.value))] else [])
  }

  lemma {:induction false} LiveAppend(out: seq<Frame>, f: Frame)
    ensures Live(out + [f]) == Live(out)
            + (if f.Published? && !f.retain then [Delivery(f.topic, f.payload, f.qos)] else [])
  {
    assert (out + [f])[..|out|] == out;
  }

  lemma {:induction false} ReplayedIsNotLive(c: Client, rs: seq<Retained>, added: seq<Sub>)
    ensures Live(Replayed(c, rs, added).out) == Live(c.out)
  {
    if rs != [] {
      ReplayedIsNotLive(c, rs[..|rs| - 1], added);
      var before, r := Replayed(c, rs[..|rs| - 1], added), rs[|rs| - 1];
      if FirstMatch(added, r.topic).Some? {
        var after := Replayed(c, rs, added);
        LiveAppend(before.out, after.out[|before.out|]);
      }
    }
  }

  lemma {:induction false} RoutedLive(c: Client, m: Message)
    ensures Live(Routed(c, m).out) == Live(c.out) + Matching([m], c.subs)
  {
    hide Wants, Live;
    assert [m][..0] == [];
    assert Matching([], c.subs) == [];
    if Wants(c.subs, m.topic).Some? {
      LiveAppend(c.out, Routed(c, m).out[|c.out|]);
    }
  }

  lemma {:induction false} MatchingConcat(ms: seq<Message>, more: seq<Message>, subs: seq<Sub>)
    requires |more| <= 1
    ensures Matching(ms + more, subs) == Matching(ms, subs) + Matching(more, subs)
  {
    if more == [] {
      assert ms + more == ms;
    } else {
      assert (ms + more)[..|ms|] == ms;
      assert more[..0] == [];
    }
  }

  lemma {:induction false} HandledLive<S>(b: State<S>, e: Event<S>, id: S)
    requires id in b.clients && id in Handled(b, e).clients && !(e.Connect? && e.id == id)
    ensures Live(Handled(b, e).clients[id].out) == Live(b.clients[id].out)
  {
    hide Live, AllGranted, AllWithout, Replayed, Codes, Fresh;
    var c := b.clients[id];
    match e
    case Publish(who, m, pid, _) =>
      LiveAppend(c.out, PubAck(pid));
      LiveAppend(c.out, PubRec(pid));
    case Subscribe(who, pid, reqs, may) =>
      var ack := SubAck(pid, Codes(reqs, may));
      LiveAppend(c.out, ack);
      ReplayedIsNotLive(c.(subs := AllGranted(c.subs, reqs, may), out := c.out + [ack]), b.retained, Fresh(reqs, may));
    case Unsubscribe(who, pid, filters) =>
      LiveAppend(c.out, UnsubAck(pid));
    case _ =>
  }

  /** A step delivers its message, if it has one, exactly once to every connected client with a matching
      grant, at the lower of its QoS and the highest such grant, and to nobody else. */
  lemma {:induction false} StepDelivers<S>(b: State<S>, e: Event<S>, id: S)
    requires id in b.clients && id in Step(b, e).clients && !(e.Connect? && e.id == id)
    ensures Live(Step(b, e).clients[id].out) == Live(b.clients[id].out)
              + Matching(StepMessages(b, e), b.clients[id].subs)
  {
    hide Live;
    HandledLive(b, e, id);
    assert Matching([], b.clients[id].subs) == [];
    hide Matching;
    if Emitted(b, e).Some? {
      RoutedLive(Handled(b, e).clients[id], Emitted(b, e).value);
      assert Handled(b, e).clients[id].subs == b.clients[id].subs;
    }
  }

  predicate Quiet<S(==)>(es: seq<Event<S>>, id: S) {
    forall i :: 0 <= i < |es| ==> !((es[i].Connect? || es[i].Subscribe? || es[i].Unsubscribe?) && es[i].id == id)
  }

  lemma {:induction false} QuietSplit<S>(es: seq<Event<S>>, id: S)
    requires es != [] && Quiet(es, id)
    ensures Quiet(es[..|es| - 1], id)
    ensures var e := es[|es| - 1]; !(e.Connect? && e.id == id) && forall subs :: SubsAfter(subs, e, id) == subs
  {
  }

  /** While its subscriptions do not change, a connected client receives exactly the matching messages, once
      each and in the order they were published, whatever else happens on the broker. */
  lemma {:induction false} ReceivesExactlyMatching<S>(b: State<S>, es: seq<Event<S>>, id: S)
    requires id in b.clients && id in Run(b, es).clients && Quiet(es, id)
    ensures Run(b, es).clients[id].subs == b.clients[id].subs
    ensures Live(Run(b, es).clients[id].out) == Live(b.clients[id].out) + Matching(Messages(b, es), b.clients[id].subs)
  {
    hide Live, Matching, SubsAfter, Quiet, Step;
    if es != [] {
      var most, e := es[..|es| - 1], es[|es| - 1];
      var before := Run(b, most);
      QuietSplit(es, id);
      StepSubs(before, e, id);
      ReceivesExactlyMatching(b, most, id);
      StepDelivers(before, e, id);
      hide StepMessages;
      MatchingConcat(Messages(b, most), StepMessages(before, e), b.clients[id].subs);
    } else {
      NothingMatching(b.clients[id].subs);
    }
  }

  lemma {:induction false} NothingMatching(subs: seq<Sub>)
    ensures Matching([], subs) == []
  {
  }

  // ---------------------------------------------------------------- SUBACK and replay

  /** One code per requested filter, in order: the granted QoS, or 0x80 where the filter is not allowed. */
  lemma {:induction false} CodesAre(reqs: seq<Request>, may: string -> bool)
    ensures |Codes(reqs, may)| == |reqs|
    ensures forall i :: 0 <= i < |reqs| ==>
              Codes(reqs, may)[i] == if may(reqs[i].filter) then Min(reqs[i].options % 4, 1) else 0x80
  {
    if reqs != [] {
      CodesAre(reqs[..|reqs| - 1], may);
    }
  }

  /** The retained messages a SUBSCRIBE replays, in order. */
  function ReplayList(rs: seq<Retained>, added: seq<Sub>): seq<Delivery> {
    if rs == [] then [] else
    var r := rs[|rs| - 1];
    var q := FirstMatch(added, r.topic);
    ReplayList(rs[..|rs| - 1], added) + (if q.Some? then [Delivery(r.topic, r.payload, Min(r.qos, q.value))] else [])
  }

  function Replays(out: seq<Frame>): seq<Delivery> {
    if out == [] then [] else
    var f := out[|out| - 1];
    Replays(out[..|out| - 1]) + (if f.Published? && f.retain then [Delivery(f.topic, f.payload, f.qos)] else [])
  }

  lemma {:induction false} ReplaysAppend(out: seq<Frame>, f: Frame)
    ensures Replays(out + [f]) == Replays(out)
            + (if f.Published? && f.retain then [Delivery(f.topic, f.payload, f.qos)] else [])
  {
    assert (out + [f])[..|out|] == out;
  }

  lemma {:induction false} ReplayedWrites(c: Client, rs: seq<Retained>, added: seq<Sub>)
    ensures c.out <= Replayed(c, rs, added).out
    ensures Replays(Replayed(c, rs, added).out) == Replays(c.out) + ReplayList(rs, added)
    ensures forall i :: |c.out| <= i < |Replayed(c, rs, added).out| ==> Replayed(c, rs, added).out[i].Published?
  {
    hide Replays, FirstMatch, Deliver;
    if rs != [] {
      var before, r := Replayed(c, rs[..|rs| - 1], added), rs[|rs| - 1];
      ReplayedWrites(c, rs[..|rs| - 1], added);
      if FirstMatch(added, r.topic).Some? {
        DeliverReplays(before, r.topic, r.payload, Min(r.qos, FirstMatch(added, r.topic).value));
      }
    }
  }

  lemma {:induction false} DeliverReplays(c: Client, topic: string, payload: string, qos: nat)
    ensures var after := Deliver(c, topic, payload, qos, true);
            && c.out <= after.out && |after.out| == |c.out| + 1 && after.out[|c.out|].Published?
            && Replays(after.out) == Replays(c.out) + [Delivery(topic, payload, qos)]
  {
    ReplaysAppend(c.out, Deliver(c, topic, payload, qos, true).out[|c.out|]);
    hide Replays;
  }

  /** SUBSCRIBE is answered by one SUBACK, followed by the replay and nothing else. */
  lemma {:induction false} SubscribeWrites(c: Client, pid: nat, reqs: seq<Request>, may: string -> bool,
                                           rs: seq<Retained>)
    ensures var out := Subscribed(c, pid, reqs, may, rs).out;
            && c.out + [SubAck(pid, Codes(reqs, may))] <= out
            && Replays(out) == Replays(c.out) + ReplayList(rs, Fresh(reqs, may))
            && forall i :: |c.out| < i < |out| ==> out[i].Published?
  {
    hide Replays, ReplayList, Codes, AllGranted, Fresh, Replayed;
    var ack := SubAck(pid, Codes(reqs, may));
    ReplayedWrites(c.(subs := AllGranted(c.subs, reqs, may), out := c.out + [ack]), rs, Fresh(reqs, may));
    ReplaysAppend(c.out, ack);
  }

  lemma {:induction false} FirstMatchIs(subs: seq<Sub>, topic: string)
    ensures FirstMatch(subs, topic).None? <==> forall i :: 0 <= i < |subs| ==> !BrokerMatches(subs[i].filter, topic)
    ensures FirstMatch(subs, topic).Some? ==>
              exists i :: 0 <= i < |subs| && BrokerMatches(subs[i].filter, topic) &&
                          FirstMatch(subs, topic) == Some(subs[i].qos)
                       && forall j :: 0 <= j < i ==> !BrokerMatches(subs[j].filter, topic)
  {
    hide BrokerMatches;
    if subs != [] && !BrokerMatches(subs[0].filter, topic) {
      FirstMatchIs(subs[1..], topic);
      if FirstMatch(subs[1..], topic).Some? {
        var i :| 0 <= i < |subs[1..]| && BrokerMatches(subs[1..][i].filter, topic)
              && FirstMatch(subs[1..], topic) == Some(subs[1..][i].qos)
              && forall j :: 0 <= j < i ==> !BrokerMatches(subs[1..][j].filter, topic);
        assert subs[i + 1] == subs[1..][i];
        forall j | 0 <= j < i + 1 ensures !BrokerMatches(subs[j].filter, topic) {
          assert j > 0 ==> subs[j] == subs[1..][j - 1];
        }
      } else {
        forall i | 0 <= i < |subs| ensures !BrokerMatches(subs[i].filter, topic) {
          assert i > 0 ==> subs[i] == subs[1..][i - 1];
        }
      }
    }
  }

  predicate Replayable(r: Retained, added: seq<Sub>, d: Delivery) {
    var q := FirstMatch(added, r.topic);
    q.Some? && d == Delivery(r.topic, r.payload, Min(r.qos, q.value))
  }

  /** Exactly the retained topics that match a newly granted filter are replayed, each once. */
  lemma {:induction false} ReplayOnce(rs: seq<Retained>, added: seq<Sub>)
    requires OncePerTopic(rs)
    ensures forall d :: d in ReplayList(rs, added) ==> exists r :: r in rs && Replayable(r, added, d)
    ensures forall r, d :: r in rs && Replayable(r, added, d) ==> d in ReplayList(rs, added)
    ensures forall i, j :: 0 <= i < j < |ReplayList(rs, added)| ==>
              ReplayList(rs, added)[i].topic != ReplayList(rs, added)[j].topic
  {
    if rs != [] {
      var most, last := rs[..|rs| - 1], rs[|rs| - 1];
      assert rs == most + [last];
      assert forall r :: r in most ==> r in rs && r.topic != last.topic;
      ReplayOnce(most, added);
      hide OncePerTopic, FirstMatch;
      var before, all := ReplayList(most, added), ReplayList(rs, added);
      forall i | 0 <= i < |before| ensures before[i].topic != last.topic {
        assert before[i] in before;
        var r :| r in most && Replayable(r, added, before[i]);
      }
      forall d | d in all ensures exists r :: r in rs && Replayable(r, added, d) {
        if d in before {
          var r :| r in most && Replayable(r, added, d);
          assert r in rs;
        } else {
          assert Replayable(last, added, d);
          assert last in rs;
        }
      }
    }
  }

  // ---------------------------------------------------------------- packet ids

  /** The packet ids a connection has used, in order. */
  function Ids(out: seq<Frame>): seq<nat> {
    if out == [] then [] else
    var f := out[|out| - 1];
    Ids(out[..|out| - 1]) + (if f.Published? && f.qos > 0 then [f.pid] else [])
  }

  predicate Numbered(c: Client) {
    && c.packetId == Wire.IdAfter(0, |Ids(c.out)|)
    && forall i :: 0 <= i < |Ids(c.out)| ==> Ids(c.out)[i] == Wire.IdAfter(0, i + 1)
  }

  lemma {:induction false} IdsAppend(out: seq<Frame>, f: Frame)
    ensures Ids(out + [f]) == Ids(out) + (if f.Published? && f.qos > 0 then [f.pid] else [])
  {
    assert (out + [f])[..|out|] == out;
  }

  lemma {:induction false} DeliverNumbered(c: Client, topic: string, payload: string, qos: nat, retain: bool)
    requires Numbered(c)
    ensures Numbered(Deliver(c, topic, payload, qos, retain))
  {
    var after := Deliver(c, topic, payload, qos, retain);
    IdsAppend(c.out, after.out[|c.out|]);
  }

  lemma {:induction false} WriteNumbered(c: Client, f: Frame, subs: seq<Sub>)
    requires Numbered(c) && !f.Published?
    ensures Numbered(c.(out := c.out + [f], subs := subs))
  {
    IdsAppend(c.out, f);
  }

  lemma {:induction false} ReplayedNumbered(c: Client, rs: seq<Retained>, added: seq<Sub>)
    requires Numbered(c)
    ensures Numbered(Replayed(c, rs, added))
  {
    hide Numbered, Deliver;
    if rs != [] {
      var before, r := Replayed(c, rs[..|rs| - 1], added), rs[|rs| - 1];
      ReplayedNumbered(c, rs[..|rs| - 1], added);
      var q := FirstMatch(added, r.topic);
      if q.Some? {
        DeliverNumbered(before, r.topic, r.payload, Min(r.qos, q.value), true);
      }
    }
  }

  ghost predicate AllNumbered<S(!new)>(b: State<S>) {
    forall s :: s in b.clients ==> Numbered(b.clients[s])
  }

  lemma {:induction false} HandledNumbered<S(!new)>(b: State<S>, e: Event<S>)
    requires AllNumbered(b)
    ensures AllNumbered(Handled(b, e))
  {
    if e.Connect? {
      FirstNumbered(e.username, e.will);
    } else if !e.Kick? && !e.Internal? && e.id in b.clients {
      var c := b.clients[e.id];
      if e.Publish? {
        WriteNumbered(c, PubAck(e.pid), c.subs);
        WriteNumbered(c, PubRec(e.pid), c.subs);
      } else if e.Subscribe? {
        var subs, ack := AllGranted(c.subs, e.reqs, e.may), SubAck(e.pid, Codes(e.reqs, e.may));
        WriteNumbered(c, ack, subs);
        ReplayedNumbered(c.(subs := subs, out := c.out + [ack]), b.retained, Fresh(e.reqs, e.may));
      } else if e.Unsubscribe? {
        WriteNumbered(c, UnsubAck(e.pid), AllWithout(c.subs, e.filters));
      }
    }
    hide Numbered, AllGranted, Codes, AllWithout, Replayed, Fresh;
  }

  lemma {:induction false} FirstNumbered(username: string, will: Option<Message>)
    ensures Numbered(Client(username, [], will, 0, true, []))
  {
  }

  lemma {:induction false} PublishedNumbered<S(!new)>(b: State<S>, m: Message)
    requires AllNumbered(b)
    ensures AllNumbered(PublishedTo(b, m))
  {
    hide Numbered, Deliver;
    forall s | s in b.clients ensures Numbered(Routed(b.clients[s], m)) {
      var c := b.clients[s];
      var q := Wants(c.subs, m.topic);
      if q.Some? {
        DeliverNumbered(c, m.topic, m.payload, Min(m.qos, q.value), false);
      }
    }
  }

  /** Over every run, the packet ids of a connection count 1, 2, ... 65535 and start again at 1. */
  lemma {:induction false} RunNumbered<S(!new)>(b: State<S>, es: seq<Event<S>>)
    requires AllNumbered(b)
    ensures AllNumbered(Run(b, es))
  {
    if es != [] {
      var before, e := Run(b, es[..|es| - 1]), es[|es| - 1];
      RunNumbered(b, es[..|es| - 1]);
      hide AllNumbered;
      HandledNumbered(before, e);
      if Emitted(before, e).Some? {
        PublishedNumbered(Handled(before, e), Emitted(before, e).value);
      }
    }
  }

  /** No packet id is 0, and none repeats within 65535 deliveries on its connection. */
  lemma {:induction false} IdsDistinct(c: Client, i: nat, j: nat)
    requires Numbered(c) && i < j < |Ids(c.out)|
    ensures 1 <= Ids(c.out)[i] <= 65535
    ensures j - i < 65535 ==> Ids(c.out)[i] != Ids(c.out)[j]
  {
    Wire.IdsCycle(0, i + 1, j + 1);
  }

  // ---------------------------------------------------------------- wills and kicks

  /** What a connection declared when it was last made. */
  function Declared<S(==)>(es: seq<Event<S>>, id: S): Option<(string, Option<Message>)> {
    if es == [] then None else
    match es[|es| - 1]
    case Connect(who, username, will) => if who == id then Some((username, will)) else Declared(es[..|es| - 1], id)
    case _ => Declared(es[..|es| - 1], id)
  }

  /** No write to the connection has raised since it was last made. */
  predicate WritesFine<S(==)>(es: seq<Event<S>>, id: S) {
    es != [] ==>
      match es[|es| - 1]
      case Connect(who, _, _) => who == id || WritesFine(es[..|es| - 1], id)
      case WriteFailed(who) => who != id && WritesFine(es[..|es| - 1], id)
      case _ => WritesFine(es[..|es| - 1], id)
  }

  lemma {:induction false} StepIdentity<S>(b: State<S>, e: Event<S>, id: S)
    requires id in Step(b, e).clients && !(e.Connect? && e.id == id)
    ensures id in b.clients
    ensures var c, c' := b.clients[id], Step(b, e).clients[id];
            c'.username == c.username && c'.will == c.will && (c'.alive <==> c.alive && !(e.WriteFailed? && e.id == id))
  {
    hide AllGranted, AllWithout, Wants, Replayed, Codes, Fresh;
    if e.Subscribe? && e.id == id {
      var c := b.clients[id];
      ReplayedSubs(c.(subs := AllGranted(c.subs, e.reqs, e.may), out := c.out + [SubAck(e.pid, Codes(e.reqs, e.may))]),
                   b.retained, Fresh(e.reqs, e.may));
    }
  }

  /** Over every run, a connection that breaks publishes the will it declared if and only if no write to it has
      failed; nothing if it declared none. */
  lemma {:induction false} BrokenLinkFiresWill<S>(b: State<S>, es: seq<Event<S>>, id: S)
    requires id !in b.clients && id in Run(b, es).clients
    ensures Declared(es, id).Some?
    ensures var c := Run(b, es).clients[id];
            (c.alive <==> WritesFine(es, id)) && (c.username, c.will) == Declared(es, id).value
    ensures StepMessages(Run(b, es), Drop(id)) ==
              (match Declared(es, id).value.1
               case Some(will) => if WritesFine(es, id) then [will] else []
               case None => [])
  {
    var most, e := es[..|es| - 1], es[|es| - 1];
    hide Step;
    if e.Connect? && e.id == id {
      StepConnects(Run(b, most), e);
    } else {
      StepIdentity(Run(b, most), e, id);
      BrokenLinkFiresWill(b, most, id);
    }
  }

  lemma {:induction false} StepConnects<S>(b: State<S>, e: Event<S>)
    requires e.Connect?
    ensures e.id in Step(b, e).clients && Step(b, e).clients[e.id] == Client(e.username, [], e.will, 0, true, [])
  {
  }

  predicate Ends<S(==)>(b: State<S>, e: Event<S>, id: S) {
    || ((e.Disconnect? || e.Drop?) && e.id == id)
    || (e.Kick? && id in b.clients && b.clients[id].username == e.username)
  }

  /** A connection that ended stays out until it is made again; a DISCONNECT or a kick publishes nothing, and
      no end publishes a will a second time. */
  lemma {:induction false} EndsOnce<S>(b: State<S>, e: Event<S>, later: seq<Event<S>>, id: S)
    requires Ends(b, e, id)
    requires forall i :: 0 <= i < |later| ==> !(later[i].Connect? && later[i].id == id)
    ensures e.Disconnect? || e.Kick? ==> StepMessages(b, e) == []
    ensures id !in Run(Step(b, e), later).clients
    ensures StepMessages(Run(Step(b, e), later), Drop(id)) == []
  {
    if later != [] {
      EndsOnce(b, e, later[..|later| - 1], id);
      var before := Run(Step(b, e), later[..|later| - 1]);
      if id in Step(before, later[|later| - 1]).clients {
        StepIdentity(before, later[|later| - 1], id);
      }
    }
  }

  ghost predicate NoneNamed<S(!new)>(b: State<S>, username: string) {
    forall s :: s in b.clients ==> b.clients[s].username != username
  }

  /** A kick drops every connection of the username and no other, publishes nothing, and keeps the username out
      for as long as nobody connects under it. */
  lemma {:induction false} KickKeepsOut<S(!new)>(b: State<S>, username: string, later: seq<Event<S>>)
    requires forall i :: 0 <= i < |later| ==> !(later[i].Connect? && later[i].username == username)
    ensures StepMessages(b, Kick(username)) == []
    ensures forall s :: s in b.clients && b.clients[s].username != username ==>
              s in Step(b, Kick(username)).clients && Step(b, Kick(username)).clients[s] == b.clients[s]
    ensures NoneNamed(Run(Step(b, Kick(username)), later), username)
  {
    if later != [] {
      var most, e := later[..|later| - 1], later[|later| - 1];
      KickKeepsOut(b, username, most);
      var before := Run(Step(b, Kick(username)), most);
      forall s | s in Step(before, e).clients ensures Step(before, e).clients[s].username != username {
        if e.Connect? && e.id == s {
          StepConnects(before, e);
        } else {
          StepIdentity(before, e, s);
        }
      }
    }
  }
}
