/** The alert engine's per-(rule, robot) state machine: debounce, hysteresis and cooldown.

    Times are seconds, and the clock is positive. */
module Alerts {
  import opened Options
  import Fleet

  datatype Op = Lt | Gt | Outside | Inside | Eq | Ne | Offline | Stale | Other

  /** `robot` is "" for a rule about every robot. */
  datatype Rule = Rule(id: int, robot: string, op: Op, value: Option<real>, value2: Option<real>, text: string,
                       clear: Option<real>, forSeconds: real, cooldownMin: real)

  /** What a rule looks at: its number if it has one, its text, and the robot's presence and age. */
  datatype Sample = Sample(num: Option<real>, text: string, presence: Fleet.Presence, age: real)

  datatype RuleState = RuleState(pending: real, firing: real, notified: real)

  const IDLE := RuleState(0.0, 0.0, 0.0)

  /** One evaluation.  `noted` is the second clock reading, taken when an alert is sent. */
  datatype Look = Look(rule: Rule, sample: Sample, now: real, noted: real)

  datatype Act = Nothing | Fire | Repeat | Resolve

  function OrElse(v: Option<real>, other: real): real {
    if v.Some? && v.value != 0.0 then v.value else other
  }

  /** Whether the condition holds; None where the rule lacks the number it compares with, which makes the
      source raise. */
  function Triggered(r: Rule, s: Sample, clearing: bool): Option<bool> {
    var limit := if clearing && r.clear.Some? then r.clear else r.value;
    match r.op
    case Offline => Some(s.presence != Fleet.OK || s.age > OrElse(r.value, 60.0))
    case Stale => Some(s.presence == Fleet.STALE)
    case Eq => Some(s.text == r.text)
    case Ne => Some(s.text != r.text)
    case Lt => if s.num.None? then Some(false) else if limit.None? then None else Some(s.num.value < limit.value)
    case Gt => if s.num.None? then Some(false) else if limit.None? then None else Some(s.num.value > limit.value)
    case Outside => if s.num.None? then Some(false) else if r.value.None? then None else Some(!Within(r, s.num.value))
    case Inside => if s.num.None? then Some(false) else if r.value.None? then None else Some(Within(r, s.num.value))
    case Other => Some(false)
  }

  /** An upper bound of 0 reads as missing. */
  predicate Within(r: Rule, num: real)
    requires r.value.Some?
  {
    r.value.value <= num <= OrElse(r.value2, r.value.value)
  }

  predicate Firing(st: RuleState) {
    st.firing > 0.0
  }

  function Hit(st: RuleState, l: Look): Option<bool> {
    Triggered(l.rule, l.sample, Firing(st))
  }

  function Next(st: RuleState, l: Look, hit: bool): (RuleState, Act) {
    if hit && !Firing(st) then
      if st.pending == 0.0 then (st.(pending := l.now), Nothing)
      else if l.now - st.pending >= l.rule.forSeconds then (RuleState(0.0, l.now, l.noted), Fire)
      else (st, Nothing)
    else if hit then
      var cooldown := l.rule.cooldownMin * 60.0;
      if cooldown > 0.0 && l.now - st.notified >= cooldown then (st.(notified := l.now), Repeat) else (st, Nothing)
    else if Firing(st) then (st.(pending := 0.0, firing := 0.0), Resolve)
    else (st.(pending := 0.0), Nothing)
  }

  function Looked(st: RuleState, l: Look): (RuleState, Act) {
    match Hit(st, l)
    case None => (st, Nothing)
    case Some(hit) => Next(st, l, hit)
  }

  function After(st: RuleState, ls: seq<Look>): RuleState {
    if ls == [] then st else Looked(After(st, ls[..|ls| - 1]), ls[|ls| - 1]).0
  }

  function Acts(st: RuleState, ls: seq<Look>): (acts: seq<Act>)
    ensures |acts| == |ls|
  {
    if ls == [] then [] else Acts(st, ls[..|ls| - 1]) + [Looked(After(st, ls[..|ls| - 1]), ls[|ls| - 1]).1]
  }

  function Count(acts: seq<Act>, a: Act): nat {
    if acts == [] then 0 else Count(acts[..|acts| - 1], a) + (if acts[|acts| - 1] == a then 1 else 0)
  }

  /** Clock readings are positive and do not go back. */
  predicate Timed(ls: seq<Look>) {
    && (forall i :: 0 <= i < |ls| ==> 0.0 < ls[i].now <= ls[i].noted)
    && (forall i, j :: 0 <= i < j < |ls| ==> ls[i].noted <= ls[j].now)
  }

  lemma {:induction false} TimedMost(ls: seq<Look>)
    requires ls != [] && Timed(ls)
    ensures Timed(ls[..|ls| - 1])
  {
  }

  lemma {:induction false} ActAt(st: RuleState, ls: seq<Look>, i: nat)
    requires i < |ls|
    ensures Acts(st, ls)[i] == Looked(After(st, ls[..i]), ls[i]).1
    ensures After(st, ls[..i + 1]) == Looked(After(st, ls[..i]), ls[i]).0
  {
    assert ls[..i + 1][..i] == ls[..i];
    if i < |ls| - 1 {
      ActAt(st, ls[..|ls| - 1], i);
      assert ls[..|ls| - 1][..i] == ls[..i];
    }
  }

  // ---------------------------------------------------------------- debounce

  predicate HeldAt(st: RuleState, ls: seq<Look>, k: nat)
    requires k < |ls|
  {
    Hit(After(st, ls[..k]), ls[k]) != Some(false) && !Firing(After(st, ls[..k]))
  }

  /** The condition held at evaluation `j`, no evaluation since found it not to hold, and no alert was firing. */
  predicate HeldFrom(st: RuleState, ls: seq<Look>, j: nat) {
    && j < |ls|
    && Hit(After(st, ls[..j]), ls[j]) == Some(true)
    && forall k :: j <= k < |ls| ==> HeldAt(st, ls, k)
  }

  lemma {:induction false} PendingHeld(st: RuleState, ls: seq<Look>) returns (j: nat)
    requires st.pending == 0.0 && Timed(ls) && After(st, ls).pending != 0.0
    ensures HeldFrom(st, ls, j) && ls[j].now == After(st, ls).pending && !Firing(After(st, ls))
  {
    var most := ls[..|ls| - 1];
    TimedMost(ls);
    hide Triggered;
    if After(st, most).pending == 0.0 {
      j := |ls| - 1;
    } else {
      j := PendingHeld(st, most);
      assert most[..j] == ls[..j];
      forall k | j <= k < |ls| ensures HeldAt(st, ls, k) {
        if k < |most| {
          assert HeldAt(st, most, k) && most[..k] == ls[..k];
        }
      }
    }
  }

  /** Every alert was preceded by an evaluation at which the condition held, at least `for_seconds` earlier, and
      no evaluation since found it not to hold. */
  lemma {:induction false} Debounced(st: RuleState, ls: seq<Look>, i: nat) returns (j: nat)
    requires st.pending == 0.0 && Timed(ls) && i < |ls| && Acts(st, ls)[i] == Fire
    ensures j < i && ls[i].now - ls[j].now >= ls[i].rule.forSeconds
    ensures HeldFrom(st, ls[..i + 1], j) && Hit(After(st, ls[..i]), ls[i]) == Some(true)
  {
    hide Triggered;
    ActAt(st, ls, i);
    var first := ls[..i];
    j := PendingHeld(st, first);
    var both := ls[..i + 1];
    assert both[..j] == first[..j];
    forall k | j <= k < i + 1 ensures HeldAt(st, both, k) {
      assert both[..k] == ls[..k];
      if k < i {
        assert HeldAt(st, first, k);
        assert first[..k] == ls[..k];
      }
    }
  }

  /** The condition holds at every evaluation of `ls`, for rules with one `for_seconds`. */
  predicate AlwaysHit(st: RuleState, ls: seq<Look>, forSeconds: real) {
    forall k :: 0 <= k < |ls| ==> ls[k].rule.forSeconds == forSeconds && Hit(After(st, ls[..k]), ls[k]) == Some(true)
  }

  predicate LongEnough(ls: seq<Look>, k: nat, forSeconds: real)
    requires k < |ls|
  {
    k > 0 && ls[k].now - ls[0].now >= forSeconds
  }

  /** While the condition holds without interruption, an alert fires at the first later evaluation that is
      `for_seconds` after the first one, and not before. */
  lemma {:induction false} FiresExactlyWhenHeld(st: RuleState, ls: seq<Look>, forSeconds: real)
    requires st.pending == 0.0 && !Firing(st) && Timed(ls) && ls != [] && AlwaysHit(st, ls, forSeconds)
    ensures Firing(After(st, ls)) <==> exists k :: 0 <= k < |ls| && LongEnough(ls, k, forSeconds)
    ensures !Firing(After(st, ls)) ==> After(st, ls).pending == ls[0].now
  {
    hide Looked, Hit, Firing;
    var most, n := ls[..|ls| - 1], |ls| - 1;
    TimedMost(ls);
    HitStep(After(st, most), ls[n]);
    if most == [] {
      assert forall k :: 0 <= k < |ls| ==> !LongEnough(ls, k, forSeconds);
    } else {
      AlwaysHitMost(st, ls, forSeconds);
      FiresExactlyWhenHeld(st, most, forSeconds);
      LongEnoughMost(ls, most, forSeconds);
      hide After, AlwaysHit, LongEnough;
    }
  }

  lemma {:induction false} HitStep(st: RuleState, l: Look)
    requires Hit(st, l) == Some(true) && l.now > 0.0
    ensures Firing(Looked(st, l).0) <==> Firing(st) || (st.pending != 0.0 && l.now - st.pending >= l.rule.forSeconds)
    ensures !Firing(Looked(st, l).0) ==> Looked(st, l).0.pending == if st.pending == 0.0 then l.now else st.pending
  {
    hide Triggered;
  }

  lemma {:induction false} AlwaysHitMost(st: RuleState, ls: seq<Look>, forSeconds: real)
    requires ls != [] && AlwaysHit(st, ls, forSeconds)
    ensures AlwaysHit(st, ls[..|ls| - 1], forSeconds)
  {
    hide Hit, After;
    var most := ls[..|ls| - 1];
    forall k | 0 <= k < |most|
      ensures most[k].rule.forSeconds == forSeconds && Hit(After(st, most[..k]), most[k]) == Some(true)
    {
      assert most[..k] == ls[..k] && most[k] == ls[k];
    }
  }

  lemma {:induction false} LongEnoughMost(ls: seq<Look>, most: seq<Look>, forSeconds: real)
    requires |ls| > 1 && most == ls[..|ls| - 1]
    ensures (exists k :: 0 <= k < |ls| && LongEnough(ls, k, forSeconds))
            <==> (exists k :: 0 <= k < |most| && LongEnough(most, k, forSeconds))
                 || ls[|ls| - 1].now - ls[0].now >= forSeconds
  {
    assert forall k :: 0 <= k < |most| ==> (LongEnough(most, k, forSeconds) <==> LongEnough(ls, k, forSeconds));
    assert LongEnough(ls, |ls| - 1, forSeconds) <==> ls[|ls| - 1].now - ls[0].now >= forSeconds;
  }

  // ---------------------------------------------------------------- fires and resolves alternate

  function FiringCount(st: RuleState): nat {
    if Firing(st) then 1 else 0
  }

  /** Fires and resolves balance at every moment; as this holds of every prefix, they alternate. */
  lemma {:induction false} FiresAlternate(st: RuleState, ls: seq<Look>)
    requires Timed(ls)
    ensures FiringCount(st) + Count(Acts(st, ls), Fire) == Count(Acts(st, ls), Act.Resolve) + FiringCount(After(st, ls))
  {
    if ls != [] {
      var most := ls[..|ls| - 1];
      TimedMost(ls);
      FiresAlternate(st, most);
      assert Acts(st, ls)[..|most|] == Acts(st, most);
      hide Triggered;
    }
  }

  lemma {:induction false} ResolveBetween(st: RuleState, ls: seq<Look>, i: nat, j: nat) returns (k: nat)
    requires i < j <= |ls|
    requires Firing(After(st, ls[..i])) && !Firing(After(st, ls[..j]))
    ensures i <= k < j && Acts(st, ls)[k] == Resolve && Hit(After(st, ls[..k]), ls[k]) == Some(false)
    ensures Firing(After(st, ls[..k]))
    decreases j
  {
    hide Triggered;
    ActAt(st, ls, j - 1);
    if Firing(After(st, ls[..j - 1])) {
      k := j - 1;
    } else {
      k := ResolveBetween(st, ls, i, j - 1);
    }
  }

  // ---------------------------------------------------------------- hysteresis

  /** A threshold rule whose clearing level is not on the far side of its threshold. */
  predicate Banded(r: Rule) {
    && r.value.Some? && r.clear.Some?
    && (r.op == Lt || r.op == Gt)
    && (r.op == Lt ==> r.clear.value >= r.value.value)
    && (r.op == Gt ==> r.clear.value <= r.value.value)
  }

  predicate InBand(r: Rule, num: real)
    requires Banded(r)
  {
    if r.op == Lt then r.value.value <= num < r.clear.value else r.clear.value < num <= r.value.value
  }

  predicate Reached(r: Rule, num: real)
    requires Banded(r)
  {
    if r.op == Lt then num >= r.clear.value else num <= r.clear.value
  }

  /** A number that stays between threshold and clearing level neither fires nor resolves anything. */
  lemma {:induction false} BandIsQuiet(st: RuleState, r: Rule, ls: seq<Look>)
    requires Banded(r)
    requires forall l :: l in ls ==> l.rule == r && l.sample.num.Some? && InBand(r, l.sample.num.value)
    ensures Count(Acts(st, ls), Fire) == Count(Acts(st, ls), Act.Resolve) == 0
    ensures FiringCount(After(st, ls)) == FiringCount(st)
  {
    if ls != [] {
      var most, l := ls[..|ls| - 1], ls[|ls| - 1];
      assert l in ls;
      BandIsQuiet(st, r, most);
      assert Acts(st, ls)[..|most|] == Acts(st, most);
    }
  }

  lemma {:induction false} FiredNow(st: RuleState, l: Look)
    requires 0.0 < l.now && Looked(st, l).1 == Fire
    ensures !Firing(st) && Firing(Looked(st, l).0) && Looked(st, l).0.notified == l.noted
  {
    hide Triggered;
  }

  lemma {:induction false} ClearedMeans(r: Rule, st: RuleState, l: Look)
    requires Banded(r) && l.rule == r && Firing(st) && Hit(st, l) == Some(false)
    ensures l.sample.num.None? || Reached(r, l.sample.num.value)
  {
  }

  /** Between two alerts of one threshold rule the number reached the clearing level, or was missing. */
  lemma {:induction false} FiresAreSeparated(st: RuleState, r: Rule, ls: seq<Look>, i: nat, j: nat) returns (k: nat)
    requires Banded(r) && Timed(ls) && i < j < |ls|
    requires forall l :: l in ls ==> l.rule == r
    requires Acts(st, ls)[i] == Fire && Acts(st, ls)[j] == Fire
    ensures i < k < j
    ensures ls[k].sample.num.None? || Reached(r, ls[k].sample.num.value)
  {
    hide Looked, Hit, Reached, Firing;
    ActAt(st, ls, i);
    ActAt(st, ls, j);
    FiredNow(After(st, ls[..i]), ls[i]);
    FiredNow(After(st, ls[..j]), ls[j]);
    k := ResolveBetween(st, ls, i + 1, j);
    assert ls[k] in ls;
    ClearedMeans(r, After(st, ls[..k]), ls[k]);
  }

  // ---------------------------------------------------------------- cooldown

  lemma {:induction false} ActsSplit(st: RuleState, a: seq<Look>, b: seq<Look>)
    ensures After(st, a + b) == After(After(st, a), b)
    ensures Acts(st, a + b) == Acts(st, a) + Acts(After(st, a), b)
    decreases |b|
  {
    if b == [] {
      assert a + b == a;
    } else {
      var most := b[..|b| - 1];
      assert (a + b)[..|a + b| - 1] == a + most;
      ActsSplit(st, a, most);
      hide Looked;
    }
  }

  predicate CoolsDown(ls: seq<Look>, cooldown: real) {
    forall l :: l in ls ==> l.rule.cooldownMin * 60.0 == cooldown
  }

  /** The earliest moment of the n-th repetition of an alert that fired at `start`. */
  function Due(start: real, n: nat, cooldown: real): real {
    start + n as real * cooldown
  }

  lemma {:induction false} DueAgain(start: real, n: nat, cooldown: real)
    ensures Due(start, n + 1, cooldown) == Due(start, n, cooldown) + cooldown
  {
  }

  lemma {:induction false} CountSnoc(acts: seq<Act>, last: Act, a: Act)
    ensures Count(acts + [last], a) == Count(acts, a) + (if last == a then 1 else 0)
  {
    assert (acts + [last])[..|acts|] == acts;
  }

  lemma {:induction false} RepeatsAreSpaced(st: RuleState, ls: seq<Look>, start: real, cooldown: real)
    requires Timed(ls) && CoolsDown(ls, cooldown) && cooldown > 0.0
    requires Firing(st) && st.notified >= start && Count(Acts(st, ls), Act.Resolve) == 0
    ensures Firing(After(st, ls))
    ensures After(st, ls).notified >= Due(start, Count(Acts(st, ls), Repeat), cooldown)
    ensures Count(Acts(st, ls), Repeat) > 0 ==> After(st, ls).notified <= ls[|ls| - 1].now
  {
    hide Looked, Due, Count, Firing;
    NoneDue(start, cooldown);
    if ls == [] {
      assert Acts(st, ls) == [];
    } else {
      var most, l := ls[..|ls| - 1], ls[|ls| - 1];
      assert l in ls;
      TimedMost(ls);
      var acts, act := Acts(st, most), Looked(After(st, most), l).1;
      CountSnoc(acts, act, Repeat);
      CountSnoc(acts, act, Act.Resolve);
      RepeatsAreSpaced(st, most, start, cooldown);
      RepeatStep(After(st, most), l);
      assert if most == [] then acts == [] else most[|most| - 1].now <= l.now;
      hide After, Acts, CoolsDown, Timed;
      DueAgain(start, Count(acts, Repeat), cooldown);
    }
  }

  lemma {:induction false} NoneDue(start: real, cooldown: real)
    ensures Due(start, 0, cooldown) == start && Count([], Repeat) == 0
  {
  }

  lemma {:induction false} RepeatStep(st: RuleState, l: Look)
    requires Firing(st) && Looked(st, l).1 != Resolve
    ensures Firing(Looked(st, l).0) && Looked(st, l).1 != Fire
    ensures Looked(st, l).1 == Repeat ==>
              Looked(st, l).0.notified == l.now && l.now - st.notified >= l.rule.cooldownMin * 60.0
    ensures Looked(st, l).1 != Repeat ==> Looked(st, l).0.notified == st.notified
  {
    hide Triggered;
  }

  lemma {:induction false} NoMoreThan(start: real, n: nat, cooldown: real, end: real)
    requires cooldown > 0.0 && start <= end && (n > 0 ==> Due(start, n, cooldown) <= end)
    ensures n <= ((end - start) / cooldown).Floor
  {
    var length := end - start;
    assert n as real * cooldown <= length;
    assert (length / cooldown) * cooldown == length;
    assert length / cooldown >= n as real;
  }

  function Notifications(acts: seq<Act>): nat {
    Count(acts, Fire) + Count(acts, Repeat)
  }

  /** An alert that has been firing for a time L since it fired was notified at most 1 + floor(L / cooldown)
      times. */
  lemma {:induction false} CooldownBounds(st: RuleState, before: seq<Look>, l: Look, later: seq<Look>, cooldown: real)
    requires Timed(before + [l] + later) && CoolsDown(later, cooldown) && cooldown > 0.0 && later != []
    requires Looked(After(st, before), l).1 == Fire
    requires Count(Acts(Looked(After(st, before), l).0, later), Act.Resolve) == 0
    ensures Notifications([Fire] + Acts(Looked(After(st, before), l).0, later))
              <= 1 + ((later[|later| - 1].now - l.now) / cooldown).Floor
  {
    var fired, acts := Looked(After(st, before), l).0, Acts(Looked(After(st, before), l).0, later);
    TimedLater(before, l, later);
    FiredNow(After(st, before), l);
    hide Looked, After, Acts, Timed, CoolsDown, Due;
    RepeatsAreSpaced(fired, later, l.now, cooldown);
    FiresAlternate(fired, later);
    CountCons(Fire, acts, Fire);
    CountCons(Fire, acts, Repeat);
    NoMoreThan(l.now, Count(acts, Repeat), cooldown, later[|later| - 1].now);
  }

  lemma {:induction false} TimedLater(before: seq<Look>, l: Look, later: seq<Look>)
    requires Timed(before + [l] + later)
    ensures Timed(later) && 0.0 < l.now <= l.noted && (later != [] ==> l.noted <= later[|later| - 1].now)
  {
    var all := before + [l] + later;
    assert all[|before|] == l && forall i :: 0 <= i < |later| ==> all[|before| + 1 + i] == later[i];
  }

  lemma {:induction false} CountCons(first: Act, acts: seq<Act>, a: Act)
    ensures Count([first] + acts, a) == (if first == a then 1 else 0) + Count(acts, a)
    decreases |acts|
  {
    if acts == [] {
      assert [first] + acts == [first] && [first][..0] == [];
    } else {
      assert ([first] + acts)[..|acts|] == [first] + acts[..|acts| - 1];
      CountCons(first, acts[..|acts| - 1], a);
    }
  }

  /** At every evaluation that finds an alert firing, and leaves it so, the last notification is less than one
      cooldown old. */
  lemma {:induction false} NeverOverdue(st: RuleState, ls: seq<Look>)
    requires Timed(ls) && ls != [] && ls[|ls| - 1].rule.cooldownMin > 0.0
    requires Hit(After(st, ls[..|ls| - 1]), ls[|ls| - 1]).Some? && Firing(After(st, ls))
    ensures ls[|ls| - 1].now - After(st, ls).notified < ls[|ls| - 1].rule.cooldownMin * 60.0
  {
    hide Triggered;
  }

  // ---------------------------------------------------------------- ranges

  /** What the two bounds of a range rule say. */
  predicate Configured(r: Rule, num: real)
    requires r.value.Some? && r.value2.Some?
  {
    r.value.value <= num <= r.value2.value
  }

  /** The rule judges every number by its configured range. */
  ghost predicate RangeHonoured(r: Rule, clearing: bool)
    requires r.value.Some? && r.value2.Some? && (r.op == Inside || r.op == Outside)
  {
    forall s: Sample :: s.num.Some? ==>
           Triggered(r, s, clearing) == Some(Configured(r, s.num.value) == (r.op == Inside))
  }

  /** A range rule honours its configured bounds if and only if its upper bound is not 0, or its lower bound is 0
      as well: `value2 or value` reads an upper bound of 0 as missing. */
  lemma {:induction false} RangeHonouredIff(r: Rule, clearing: bool)
    requires r.value.Some? && r.value2.Some? && (r.op == Inside || r.op == Outside)
    ensures RangeHonoured(r, clearing) <==> r.value2.value != 0.0 || r.value.value == 0.0
  {
    if r.value2.value == 0.0 && r.value.value != 0.0 {
      var s := Misjudged(r.value.value);
      assert Triggered(r, s, clearing) != Some(Configured(r, s.num.value) == (r.op == Inside));
    }
  }

  /** A number the rule misjudges: halfway into a range below 0, or the lower bound of an empty one. */
  function Misjudged(value: real): Sample {
    Sample(Some(if value < 0.0 then value / 2.0 else value), "", Fleet.OK, 0.0)
  }

  /** An upper bound of 0 turns the range into the single point `value`. */
  lemma {:induction false} ZeroUpperBoundCollapses(r: Rule, s: Sample, clearing: bool)
    requires (r.op == Inside || r.op == Outside) && r.value.Some? && r.value2 == Some(0.0) && s.num.Some?
    ensures Triggered(r, s, clearing) == Some((s.num.value == r.value.value) == (r.op == Inside))
  {
  }

  /** -5 lies between -10 and 0, and yet a rule for that range takes it for outside. */
  lemma {:induction false} MinusFiveMisjudged()
    ensures var inside := Rule(1, "", Inside, Some(-10.0), Some(0.0), "", None, 0.0, 0.0);
            var s := Sample(Some(-5.0), "-5", Fleet.OK, 0.0);
            && Configured(inside, -5.0)
            && Triggered(inside, s, false) == Some(false)
            && Triggered(inside.(op := Outside), s, false) == Some(true)
  {
  }

  // ---------------------------------------------------------------- rules without their number

  predicate IsThreshold(op: Op) {
    op == Lt || op == Gt || op == Outside || op == Inside
  }

  /** Exactly when an evaluation raises: a number is compared with a limit the rule does not have. */
  lemma {:induction false} RaisesIff(r: Rule, s: Sample, clearing: bool)
    ensures Triggered(r, s, clearing).None?
            <==> IsThreshold(r.op) && s.num.Some? && r.value.None?
                 && ((r.op == Lt || r.op == Gt) && clearing ==> r.clear.None?)
  {
  }
}
