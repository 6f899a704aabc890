/** `TelemetryRouter`: sample batches from the broker, deduplicated and handed to the archive. */
module Router {
  import opened Deques
  import opened Options
  import D = Dedup
  import S = Sender
  import Topics

  /** A decoded payload.  `Malformed` stands for undecodable text, a missing `b`, and a `b` that is not a list;
      `Bare` for a list without an envelope. */
  datatype Payload<T> =
    | Malformed
    | Bare(rows: seq<T>)
    | Envelope(boot: Option<string>, number: Option<nat>, sentAt: Option<real>, rows: seq<T>)

  /** One call of `on_raw`. */
  datatype RawCall<T> = RawCall(robot: string, rows: seq<T>, skew: Option<real>)

  function KeyOf<T>(robot: string, p: Payload<T>): Option<S.Key> {
    if p.Envelope? && p.boot.Some? && p.number.Some? then Some(S.Key(robot, p.boot.value, p.number.value)) else None
  }

  function Skew<T>(p: Payload<T>, now: real): Option<real> {
    if p.Envelope? && p.sentAt.Some? then Some(p.sentAt.value - now) else None
  }

  /** The robot whose samples a topic carries, if it carries samples at all. */
  function SampleTopic(topic: string): Option<string> {
    var parts := Topics.Split(topic);
    if |parts| >= 3 && (parts[2] == "samples" || parts[2] == "raw") then Some(parts[1]) else None
  }

  predicate IsStatus(topic: string) {
    |Topics.Split(topic)| >= 3 && Topics.Split(topic)[2] == "status"
  }

  /** The two uplink topics of one robot are the same stream to the router. */
  lemma {:induction false} BothTopicsAreOneStream(robot: string)
    requires Topics.IsLevel(robot)
    ensures SampleTopic("fleet/" + robot + "/samples") == Some(robot)
    ensures SampleTopic("fleet/" + robot + "/raw") == Some(robot)
  {
    forall leaf | leaf == "samples" || leaf == "raw"
      ensures Topics.Split("fleet/" + robot + "/" + leaf) == ["fleet", robot, leaf]
    {
      var levels := ["fleet", robot, leaf];
      Topics.SplitJoin(levels);
      assert levels[1..] == [robot, leaf] && levels[1..][1..] == [leaf];
      assert Topics.Join([robot, leaf]) == robot + "/" + leaf;
      assert Topics.Join(levels) == "fleet" + "/" + (robot + "/" + leaf);
      assert Topics.Join(levels) == "fleet/" + robot + "/" + leaf;
    }
    assert "fleet/" + robot + "/samples" == "fleet/" + robot + "/" + "samples";
    assert "fleet/" + robot + "/raw" == "fleet/" + robot + "/" + "raw";
  }

  function RowCount<T>(calls: seq<RawCall<T>>): nat {
    if calls == [] then 0 else RowCount(calls[..|calls| - 1]) + |calls[|calls| - 1].rows|
  }

  /** The router as a value.  `window` holds the recent keys and every key accepted so far; `calls` every
      call of `on_raw`, in order. */
  datatype State<T> = State(
    window: D.Filter<S.Key>,
    calls: seq<RawCall<T>>,
    duplicates: nat,
    duplicateSamples: nat,
    unversioned: nat,
    dropped: nat,
    lastSkew: map<string, real>)

  predicate IsDuplicate<T>(s: State<T>, robot: string, p: Payload<T>) {
    KeyOf(robot, p).Some? && KeyOf(robot, p).value in s.window.recent
  }

  /** One arriving batch: it reaches `on_raw`, whole and once, unless it is malformed or a duplicate. */
  function Applied<T>(size: nat, s: State<T>, robot: string, p: Payload<T>, now: real): State<T> {
    if p.Malformed? then s.(dropped := s.dropped + 1)
    else if IsDuplicate(s, robot, p) then
      s.(duplicates := s.duplicates + 1, duplicateSamples := s.duplicateSamples + |p.rows|)
    else
      var key, skew := KeyOf(robot, p), Skew(p, now);
      s.(window := if key.Some? then D.Arrive(size, s.window, key.value) else s.window,
         unversioned := if p.Envelope? && key.None? then s.unversioned + 1 else s.unversioned,
         calls := s.calls + [RawCall(robot, p.rows, skew)],
         lastSkew := if skew.Some? then s.lastSkew[robot := skew.value] else s.lastSkew)
  }

  lemma {:induction false} RowCountSnoc<T>(calls: seq<RawCall<T>>, call: RawCall<T>)
    ensures RowCount(calls + [call]) == RowCount(calls) + |call.rows|
  {
    assert (calls + [call])[..|calls|] == calls;
  }

  class TelemetryRouter<T> {
    const size: nat

    var recent: seq<S.Key>
    var duplicates: nat
    var duplicateSamples: nat
    var unversioned: nat
    var dropped: nat
    var rawBatches: nat
    var rawSamples: nat
    var lastSkew: map<string, real>

    ghost var acceptedKeys: seq<S.Key>
    ghost var calls: seq<RawCall<T>>

    ghost predicate Valid()
      reads this
    {
      && recent == LastN(acceptedKeys, size)
      && rawBatches == |calls| && rawSamples == RowCount(calls)
    }

    ghost function View(): State<T>
      reads this
    {
      State(D.Filter(recent, acceptedKeys), calls, duplicates, duplicateSamples, unversioned, dropped, lastSkew)
    }

    constructor (dedupWindow: int)
      ensures Valid() && View() == State(D.Filter([], []), [], 0, 0, 0, 0, map[])
      ensures size == (if dedupWindow < 64 then 64 else dedupWindow)
    {
      size := if dedupWindow < 64 then 64 else dedupWindow;
      recent, acceptedKeys, calls := [], [], [];
      duplicates, duplicateSamples, unversioned, dropped, rawBatches, rawSamples := 0, 0, 0, 0, 0, 0;
      lastSkew := map[];
    }

    /** Remember a new key and evict the oldest ones beyond the window. */
    method Remember(key: S.Key)
      requires recent == LastN(acceptedKeys, size) && key !in recent
      modifies this`recent, this`acceptedKeys
      ensures D.Filter(recent, acceptedKeys) == D.Arrive(size, old(D.Filter(recent, acceptedKeys)), key)
      ensures recent == LastN(acceptedKeys, size)
    {
      D.LastNSnoc(acceptedKeys, key, size);
      recent := recent + [key];
      acceptedKeys := acceptedKeys + [key];
      ghost var all := recent;
      while |recent| > size
        invariant Min(size, |all|) <= |recent| <= |all|
        invariant recent == all[|all| - |recent|..]
        modifies this`recent
      {
        recent := recent[1..];
      }
    }

    method ApplySamples(robot: string, payload: Payload<T>, now: real)
      requires Valid()
      modifies this
      ensures Valid()
      ensures View() == Applied(size, old(View()), robot, payload, now)
    {
      hide RowCount, LastN, D.Arrive;
      if payload.Malformed? {
        dropped := dropped + 1;
        return;
      }
      if payload.Envelope? {
        if payload.boot.Some? && payload.number.Some? {
          var key := S.Key(robot, payload.boot.value, payload.number.value);
          if key in recent {
            duplicates := duplicates + 1;
            duplicateSamples := duplicateSamples + |payload.rows|;
            return;
          }
          Remember(key);
        } else {
          unversioned := unversioned + 1;
        }
      }

      var skew := None;
      if payload.Envelope? && payload.sentAt.Some? {
        skew := Some(payload.sentAt.value - now);
        lastSkew := lastSkew[robot := skew.value];
      }
      rawBatches := rawBatches + 1;
      rawSamples := rawSamples + |payload.rows|;
      RowCountSnoc(calls, RawCall(robot, payload.rows, skew));
      calls := calls + [RawCall(robot, payload.rows, skew)];
    }

    /** Sample topics go to `ApplySamples`; a status payload that is not an object counts as dropped, too; other
        topics leave this part of the router alone. */
    method Handle(topic: string, payload: Payload<T>, isObject: bool, now: real)
      requires Valid()
      modifies this
      ensures Valid()
      ensures View() == match SampleTopic(topic)
                        case Some(robot) => Applied(size, old(View()), robot, payload, now)
                        case None =>
                          if IsStatus(topic) && !isObject then old(View()).(dropped := old(dropped) + 1)
                          else old(View())
    {
      var parts := Topics.Split(topic);
      if |parts| < 3 {
        return;
      }
      if parts[2] == "samples" || parts[2] == "raw" {
        ApplySamples(parts[1], payload, now);
        return;
      }
      if parts[2] == "status" && !isObject {
        dropped := dropped + 1;
      }
    }
  }

  // ---------------------------------------------------------------- whole runs

  datatype Arrival<T> = Arrival(robot: string, payload: Payload<T>, now: real)

  function Run<T>(size: nat, arrivals: seq<Arrival<T>>): State<T> {
    if arrivals == [] then State(D.Filter([], []), [], 0, 0, 0, 0, map[])
    else
      var a := arrivals[|arrivals| - 1];
      Applied(size, Run(size, arrivals[..|arrivals| - 1]), a.robot, a.payload, a.now)
  }

  /** The keyed arrivals, in order. */
  function Keys<T>(arrivals: seq<Arrival<T>>): seq<S.Key> {
    if arrivals == [] then []
    else
      var a := arrivals[|arrivals| - 1];
      var k := KeyOf(a.robot, a.payload);
      Keys(arrivals[..|arrivals| - 1]) + (if k.Some? then [k.value] else [])
  }

  function MalformedCount<T>(arrivals: seq<Arrival<T>>): nat {
    if arrivals == [] then 0
    else MalformedCount(arrivals[..|arrivals| - 1]) + (if arrivals[|arrivals| - 1].payload.Malformed? then 1 else 0)
  }

  /** Batches without a key cannot disturb the duplicate filter, and every arrival is accounted for once:
      passed on, dropped as a duplicate, or dropped as malformed. */
  lemma {:induction false} RunFollowsDedup<T>(size: nat, arrivals: seq<Arrival<T>>)
    ensures Run(size, arrivals).window == D.Run(size, Keys(arrivals))
    ensures var s := Run(size, arrivals);
            && |arrivals| == |s.calls| + s.duplicates + s.dropped
            && s.dropped == MalformedCount(arrivals)
            && |Keys(arrivals)| == |s.window.accepted| + s.duplicates
  {
    if arrivals != [] {
      var init, a := arrivals[..|arrivals| - 1], arrivals[|arrivals| - 1];
      RunFollowsDedup(size, init);
      AppliedCounts(size, Run(size, init), a.robot, a.payload, a.now);
      hide Applied, KeyOf, D.Arrive;
      var k := KeyOf(a.robot, a.payload);
      if k.Some? {
        var keys := Keys(arrivals);
        assert keys[..|keys| - 1] == Keys(init);
      } else {
        assert Keys(arrivals) == Keys(init);
      }
    }
  }

  lemma {:induction false} AppliedCounts<T>(size: nat, s: State<T>, robot: string, p: Payload<T>, now: real)
    ensures var s', k := Applied(size, s, robot, p, now), KeyOf(robot, p);
            && s'.window == (if k.Some? then D.Arrive(size, s.window, k.value) else s.window)
            && |s'.calls| + s'.duplicates + s'.dropped == |s.calls| + s.duplicates + s.dropped + 1
            && s'.dropped == s.dropped + (if p.Malformed? then 1 else 0)
            && |s'.window.accepted| + s'.duplicates == |s.window.accepted| + s.duplicates + (if k.Some? then 1 else 0)
  {
    hide LastN;
  }

  /** The rows of every batch that could be read. */
  function ArrivedRows<T>(arrivals: seq<Arrival<T>>): nat {
    if arrivals == [] then 0
    else
      var p := arrivals[|arrivals| - 1].payload;
      ArrivedRows(arrivals[..|arrivals| - 1]) + (if p.Malformed? then 0 else |p.rows|)
  }

  /** Envelopes that name no boot or no number. */
  function KeylessCount<T>(arrivals: seq<Arrival<T>>): nat {
    if arrivals == [] then 0
    else
      var p := arrivals[|arrivals| - 1].payload;
      KeylessCount(arrivals[..|arrivals| - 1]) + (if p.Envelope? && (p.boot.None? || p.number.None?) then 1 else 0)
  }

  /** Over every run each row that could be read was either passed on or counted as a duplicate, and each envelope
      without a key was passed on and counted as unversioned. */
  lemma {:induction false} RowsAreAccountedFor<T>(size: nat, arrivals: seq<Arrival<T>>)
    ensures var s := Run(size, arrivals);
            ArrivedRows(arrivals) == RowCount(s.calls) + s.duplicateSamples && s.unversioned == KeylessCount(arrivals)
  {
    if arrivals != [] {
      var a := arrivals[|arrivals| - 1];
      var before := Run(size, arrivals[..|arrivals| - 1]);
      RowsAreAccountedFor(size, arrivals[..|arrivals| - 1]);
      hide LastN, D.Arrive;
      if !a.payload.Malformed? {
        RowCountSnoc(before.calls, RawCall(a.robot, a.payload.rows, Skew(a.payload, a.now)));
      }
    }
  }
}
