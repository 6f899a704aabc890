/** When alerts fire and resolve, in terms of what the samples say: neither the evaluation of a rule nor the state
    machine's own condition appears in any statement here. */
module AlertConditions {
  import opened Alerts
  import opened Options
  import Fleet

  /** A number given and not 0. */
  predicate Given(v: Option<real>) {
    v.Some? && v.value != 0.0
  }

  /** The upper end of a range: `value2`, or `value` where that is missing or 0. */
  function Upper(r: Rule): real
    requires r.value.Some?
  {
    if Given(r.value2) then r.value2.value else r.value.value
  }

  /** What the rule is there to notice. */
  predicate Noticed(r: Rule, s: Sample) {
    match r.op
    case Lt => s.num.Some? && r.value.Some? && s.num.value < r.value.value
    case Gt => s.num.Some? && r.value.Some? && r.value.value < s.num.value
    case Outside => s.num.Some? && r.value.Some? && (s.num.value < r.value.value || Upper(r) < s.num.value)
    case Inside => s.num.Some? && r.value.Some? && r.value.value <= s.num.value && s.num.value <= Upper(r)
    case Eq => s.text == r.text
    case Ne => s.text != r.text
    case Stale => s.presence == Fleet.STALE
    case Offline =>
      s.presence == Fleet.STALE || s.presence == Fleet.OFFLINE || s.presence == Fleet.UNKNOWN
      || (if Given(r.value) then r.value.value else 60.0) < s.age
    case Other => false
  }

  /** What ends an alert that is firing: the clearing level reached or the number missing, for a threshold with such a
      level; otherwise what it noticed is gone. */
  predicate Over(r: Rule, s: Sample) {
    if (r.op == Lt || r.op == Gt) && r.clear.Some? then
      s.num.None? || (if r.op == Lt then s.num.value >= r.clear.value else s.num.value <= r.clear.value)
    else !Noticed(r, s)
  }

  /** The rule can be evaluated: a threshold has its number. */
  predicate Complete(r: Rule) {
    IsThreshold(r.op) ==> r.value.Some?
  }

  lemma {:induction false} NoticedIsHit(r: Rule, s: Sample)
    ensures Noticed(r, s) ==> Triggered(r, s, false) == Some(true)
    ensures !Noticed(r, s) ==> Triggered(r, s, false) != Some(true)
    ensures !Noticed(r, s) && Complete(r) ==> Triggered(r, s, false) == Some(false)
  {
  }

  lemma {:induction false} OverIsMissed(r: Rule, s: Sample)
    requires Complete(r)
    ensures Triggered(r, s, true) == Some(!Over(r, s))
  {
  }

  predicate AllNoticed(r: Rule, ls: seq<Look>) {
    forall l :: l in ls ==> l.rule == r && Noticed(r, l.sample)
  }

  predicate NoneNoticed(r: Rule, ls: seq<Look>) {
    forall l :: l in ls ==> l.rule == r && !Noticed(r, l.sample)
  }

  predicate NoneOver(r: Rule, ls: seq<Look>) {
    forall l :: l in ls ==> l.rule == r && !Over(r, l.sample)
  }

  /** Evaluation `k` is the first, after evaluation 0, that comes `for_seconds` after it. */
  predicate FirstDue(ls: seq<Look>, k: nat, forSeconds: real) {
    && 0 < k < |ls| && ls[k].now - ls[0].now >= forSeconds
    && forall i :: 0 < i < k ==> ls[i].now - ls[0].now < forSeconds
  }

  predicate StillWaiting(ls: seq<Look>, forSeconds: real) {
    forall i :: 0 < i < |ls| ==> ls[i].now - ls[0].now < forSeconds
  }

  lemma {:induction false} WaitStep(st: RuleState, r: Rule, l: Look)
    requires l.rule == r && Noticed(r, l.sample) && !Firing(st) && l.now > 0.0
    ensures var (st', act) := Looked(st, l);
            if st.pending != 0.0 && l.now - st.pending >= r.forSeconds then act == Fire && Firing(st')
            else act == Nothing && !Firing(st') && st'.pending == if st.pending == 0.0 then l.now else st.pending
  {
    NoticedIsHit(r, l.sample);
    hide Triggered, Noticed;
  }

  /** While nothing is due yet, the machine waits and remembers when it first noticed. */
  lemma {:induction false} Waits(st: RuleState, r: Rule, ls: seq<Look>)
    requires st.pending == 0.0 && !Firing(st) && Timed(ls) && AllNoticed(r, ls) && ls != []
             && StillWaiting(ls, r.forSeconds)
    ensures !Firing(After(st, ls)) && After(st, ls).pending == ls[0].now
    ensures Count(Acts(st, ls), Fire) == 0
  {
    hide Looked, Noticed, Firing;
    var most, l := ls[..|ls| - 1], ls[|ls| - 1];
    TimedMost(ls);
    assert l in ls && forall x :: x in most ==> x in ls;
    if most != [] {
      Waits(st, r, most);
    } else {
      assert Acts(st, most) == [];
    }
    WaitStep(After(st, most), r, l);
    CountSnoc(Acts(st, most), Looked(After(st, most), l).1, Fire);
  }

  /** For a rule of any kind, from a state in which nothing is pending or firing: if what it is there to notice is so
      at every evaluation, it fires at the first evaluation `for_seconds` after the first one, and not before. */
  lemma {:induction false} FiresWhenNoticed(st: RuleState, r: Rule, ls: seq<Look>, k: nat)
    requires st.pending == 0.0 && !Firing(st) && Timed(ls) && AllNoticed(r, ls) && FirstDue(ls, k, r.forSeconds)
    ensures Acts(st, ls)[k] == Fire && Firing(After(st, ls[..k + 1]))
    ensures Count(Acts(st, ls[..k]), Fire) == 0 && !Firing(After(st, ls[..k]))
  {
    hide Looked, Noticed, Firing;
    var before := ls[..k];
    assert forall x :: x in before ==> x in ls;
    assert Timed(before);
    Waits(st, r, before);
    ActAt(st, ls, k);
    assert ls[k] in ls;
    WaitStep(After(st, before), r, ls[k]);
  }

  /** If it is not so at any evaluation, nothing ever fires. */
  lemma {:induction false} SilentWhenNotNoticed(st: RuleState, r: Rule, ls: seq<Look>)
    requires !Firing(st) && Timed(ls) && NoneNoticed(r, ls)
    ensures Count(Acts(st, ls), Fire) == 0 && !Firing(After(st, ls))
  {
    hide Triggered, Noticed;
    if ls != [] {
      var most, l := ls[..|ls| - 1], ls[|ls| - 1];
      TimedMost(ls);
      assert l in ls && forall x :: x in most ==> x in ls;
      SilentWhenNotNoticed(st, r, most);
      NoticedIsHit(r, l.sample);
      CountSnoc(Acts(st, most), Looked(After(st, most), l).1, Fire);
    } else {
      assert Acts(st, ls) == [];
    }
  }

  lemma {:induction false} KeepsFiring(st: RuleState, r: Rule, ls: seq<Look>)
    requires Firing(st) && Complete(r) && Timed(ls) && NoneOver(r, ls)
    ensures Firing(After(st, ls)) && After(st, ls).firing == st.firing && Count(Acts(st, ls), Act.Resolve) == 0
  {
    hide Triggered, Over, Complete;
    if ls != [] {
      var most, l := ls[..|ls| - 1], ls[|ls| - 1];
      TimedMost(ls);
      assert l in ls && forall x :: x in most ==> x in ls;
      KeepsFiring(st, r, most);
      OverIsMissed(r, l.sample);
      CountSnoc(Acts(st, most), Looked(After(st, most), l).1, Act.Resolve);
    } else {
      assert Acts(st, ls) == [];
    }
  }

  /** An alert that fires is resolved at the first evaluation at which it is over, and not before. */
  lemma {:induction false} ResolvesWhenOver(st: RuleState, r: Rule, ls: seq<Look>, l: Look)
    requires Firing(st) && Complete(r) && Timed(ls + [l]) && NoneOver(r, ls) && l.rule == r && Over(r, l.sample)
    ensures Acts(st, ls + [l])[|ls|] == Resolve && !Firing(After(st, ls + [l]))
    ensures Count(Acts(st, ls), Act.Resolve) == 0 && Firing(After(st, ls))
  {
    hide Triggered, Over, Complete;
    var all := ls + [l];
    assert all[..|ls|] == ls;
    TimedMost(all);
    KeepsFiring(st, r, ls);
    ActAt(st, all, |ls|);
    assert all[..|ls| + 1] == all;
    OverIsMissed(r, l.sample);
  }

  /** While an alert keeps firing it is notified again at exactly those evaluations at which the last notification is a
      cooldown old. */
  lemma {:induction false} RepeatsWhenDue(st: RuleState, r: Rule, l: Look)
    requires Firing(st) && Complete(r) && l.rule == r && !Over(r, l.sample)
    ensures Looked(st, l).1 == Repeat <==> r.cooldownMin > 0.0 && l.now - st.notified >= r.cooldownMin * 60.0
    ensures Looked(st, l).0.notified == if Looked(st, l).1 == Repeat then l.now else st.notified
  {
    OverIsMissed(r, l.sample);
    hide Triggered, Over, Complete;
  }
}
