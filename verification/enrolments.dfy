/** Where credentials come from: over every run of the registry and its broker, from tokens redeemed in time. */
module Enrolments {
  import opened Options
  import opened Registry
  import B = Broker

  /** A robot is created, or a token issued for it. */
  predicate Issuing<S>(e: Event<S>) {
    e.Create? || e.IssueToken?
  }

  /** Event `j` issued a token for the robot, whose text was free, and event `i` enrolled with it, however typed, no
      later than it expires. */
  predicate Redeems<S>(s: State<S>, es: seq<Event<S>>, j: nat, i: nat, robot: string, secret: string) {
    && j < i < |es|
    && Issuing(es[j]) && es[j].robot == robot && es[j].token !in Run(s, es[..j]).reg.tokens
    && es[i].Enroll? && Normalised(es[i].token) == es[j].token && es[i].now <= es[j].expires
    && es[i].secret == secret
  }

  ghost predicate Earned<S(!new)>(s: State<S>, es: seq<Event<S>>, robot: string, secret: string) {
    exists j: nat, i: nat :: Redeems(s, es, j, i, robot, secret)
  }

  /** The token's row is what its issue made it. */
  predicate IssuedAt<S>(s: State<S>, es: seq<Event<S>>, j: nat, token: string, row: Token) {
    && j < |es| && Issuing(es[j]) && es[j].token == token && es[j].robot == row.robot && es[j].expires == row.expires
    && token !in Run(s, es[..j]).reg.tokens
  }

  /** The secret is the robot's in the table, in the cache or in rows read by a refresh. */
  predicate Known(r: Tables, robot: string, secret: string) {
    || Holds(r.robots, robot, secret)
    || Holds(r.cache, robot, secret)
    || exists n :: n in r.fetched && Holds(r.fetched[n], robot, secret)
  }

  predicate Holds(rows: map<string, Credential>, robot: string, secret: string) {
    robot in rows && rows[robot].hash == Some(Hash(secret))
  }

  /** What one event can do to the rows of tokens. */
  lemma {:induction false} StepTokens<S>(r: Tables, e: Event<S>, token: string)
    requires token in TablesAfter(r, e).tokens
    ensures var row := TablesAfter(r, e).tokens[token];
            || (token in r.tokens && r.tokens[token].robot == row.robot && r.tokens[token].expires == row.expires)
            || (Issuing(e) && e.token == token && token !in r.tokens && e.robot == row.robot &&
                e.expires == row.expires)
  {
    hide Normalised;
  }

  /** A secret comes to be known by an enrolment in time. */
  lemma {:induction false} StepKnown<S>(r: Tables, e: Event<S>, robot: string, secret: string)
    requires Known(TablesAfter(r, e), robot, secret) && !Known(r, robot, secret)
    ensures e.Enroll? && e.secret == secret
    ensures var token := Normalised(e.token);
            token in r.tokens && r.tokens[token].robot == robot && e.now <= r.tokens[token].expires
  {
    hide Normalised;
    assert forall n :: n in r.fetched ==> !Holds(r.fetched[n], robot, secret);
  }

  lemma {:induction false} TokenIsIssued<S>(s: State<S>, es: seq<Event<S>>, token: string) returns (j: nat)
    requires s.reg.tokens == map[] && token in Run(s, es).reg.tokens
    ensures IssuedAt(s, es, j, token, Run(s, es).reg.tokens[token])
  {
    hide TablesAfter, Normalised, BrokerEvent, B.Step;
    var init, e := es[..|es| - 1], es[|es| - 1];
    StepTokens(Run(s, init).reg, e, token);
    if token in Run(s, init).reg.tokens {
      j := TokenIsIssued(s, init, token);
      assert init[..j] == es[..j];
    } else {
      j := |init|;
    }
  }

  /** Over every run from empty tables: a secret known for a robot was brought by an enrolment with a token issued for
      that robot, no later than the token's expiry. */
  lemma {:induction false} KnownIsEarned<S(!new)>(s: State<S>, es: seq<Event<S>>, robot: string, secret: string)
    requires s.reg == EMPTY && Known(Run(s, es).reg, robot, secret)
    ensures Earned(s, es, robot, secret)
  {
    hide TablesAfter, Normalised, BrokerEvent, B.Step;
    var init, e := es[..|es| - 1], es[|es| - 1];
    if Known(Run(s, init).reg, robot, secret) {
      KnownIsEarned(s, init, robot, secret);
      var j: nat, i: nat :| Redeems(s, init, j, i, robot, secret);
      assert init[..j] == es[..j];
      assert Redeems(s, es, j, i, robot, secret);
    } else {
      StepKnown(Run(s, init).reg, e, robot, secret);
      var j := TokenIsIssued(s, init, Normalised(e.token));
      assert init[..j] == es[..j];
      assert Redeems(s, es, j, |init|, robot, secret);
    }
  }

  /** Whenever the cache accepts a password, it was earned in that way. */
  lemma {:induction false} AcceptedIsEarned<S(!new)>(s: State<S>, es: seq<Event<S>>, robot: string, password: string)
    requires s.reg == EMPTY && Verified(Run(s, es).reg.cache, robot, password)
    ensures Earned(s, es, robot, password)
  {
    KnownIsEarned(s, es, robot, password);
  }

  /** And so was the password of everybody connected. */
  lemma {:induction false} ConnectedIsEarned<S(!new)>(s: State<S>, es: seq<Event<S>>, id: S) returns (password: string)
    requires s.reg == EMPTY && s.broker.clients == map[] && id in Run(s, es).broker.clients
    ensures Earned(s, es, Run(s, es).broker.clients[id].username, password)
  {
    var init, e := es[..|es| - 1], es[|es| - 1];
    var before := Run(s, init);
    var be := BrokerEvent(before, e);
    if be.Some? && be.value.Connect? && be.value.id == id {
      password := e.password;
      B.StepConnects(before.broker, be.value);
      AcceptedIsEarned(s, init, e.username, password);
    } else {
      if be.Some? {
        B.StepIdentity(before.broker, be.value, id);
      }
      password := ConnectedIsEarned(s, init, id);
    }
    hide BrokerEvent, TablesAfter, B.Step;
    assert es == init + [e];
    EarnedLater(s, init, e, Run(s, es).broker.clients[id].username, password);
  }

  lemma {:induction false} EarnedLater<S(!new)>(s: State<S>, init: seq<Event<S>>, e: Event<S>, robot: string,
                                                secret: string)
    requires Earned(s, init, robot, secret)
    ensures Earned(s, init + [e], robot, secret)
  {
    var es := init + [e];
    var j: nat, i: nat :| Redeems(s, init, j, i, robot, secret);
    assert init[..j] == es[..j];
    assert Redeems(s, es, j, i, robot, secret);
  }

  /** An enrolment after the token's expiry is refused and leaves the tables alone. */
  lemma {:induction false} LateEnrolmentIsRefused(r: Tables, typed: string, now: real, secret: string)
    requires Normalised(typed) in r.tokens && r.tokens[Normalised(typed)].expires < now
    ensures Enrolled(r, typed, now, secret).0 == r
    ensures Enrolled(r, typed, now, secret).1 == if r.tokens[Normalised(typed)].used then AlreadyUsed else Expired
  {
    hide Normalised;
  }

  // ---------------------------------------------------------------- deletion

  /** No credential of the robot is left anywhere. */
  predicate Gone(r: Tables, robot: string) {
    && (robot in r.robots ==> r.robots[robot].hash.None?)
    && (robot in r.cache ==> r.cache[robot].hash.None?)
    && forall n :: n in r.fetched && robot in r.fetched[n] ==> r.fetched[n][robot].hash.None?
  }

  /** No robot of this name is created and then a token redeemed. */
  predicate NotRecreated<S>(es: seq<Event<S>>, robot: string) {
    forall j, i :: 0 <= j < i < |es| && es[j].Create? && es[j].robot == robot ==> !es[i].Enroll?
  }

  lemma {:induction false} GoneStep<S>(r: Tables, e: Event<S>, robot: string)
    requires Gone(r, robot) && (e.Enroll? ==> robot !in r.robots)
    ensures Gone(TablesAfter(r, e), robot)
    ensures robot !in r.robots && !(e.Create? && e.robot == robot) ==> robot !in TablesAfter(r, e).robots
  {
    hide Normalised;
  }

  lemma {:induction false} GoneStaysGone<S>(s: State<S>, es: seq<Event<S>>, robot: string)
    requires Gone(s.reg, robot) && robot !in s.reg.robots && NotRecreated(es, robot)
    ensures Gone(Run(s, es).reg, robot)
    ensures (forall e :: e in es ==> !(e.Create? && e.robot == robot)) ==> robot !in Run(s, es).reg.robots
  {
    hide TablesAfter, BrokerEvent, B.Step, Gone;
    if es != [] {
      var init, e := es[..|es| - 1], es[|es| - 1];
      assert e in es && forall x :: x in init ==> x in es;
      GoneStaysGone(s, init, robot);
      if e.Enroll? {
        forall x | x in init ensures !(x.Create? && x.robot == robot) {
          var j :| 0 <= j < |init| && init[j] == x;
          assert es[j] == x;
        }
      }
      GoneStep(Run(s, init).reg, e, robot);
    }
  }

  /** After a deletion and a refresh that reads the table after it, with no other refresh holding older rows, no
      password is accepted for the robot, whatever happens, until it is created again and a token redeemed. */
  lemma {:induction false} DeletedStaysOut<S>(s: State<S>, robot: string, n: nat, later: seq<Event<S>>,
                                              password: string)
    requires forall m :: m in s.reg.fetched && m != n && robot in s.reg.fetched[m] ==>
               s.reg.fetched[m][robot].hash.None?
    requires NotRecreated(later, robot)
    ensures var out := Step(Step(Step(s, Delete(robot)), FetchRows(n)), InstallRows(n));
            robot !in out.reg.robots && !Verified(Run(out, later).reg.cache, robot, password)
  {
    var out := Step(Step(Step(s, Delete(robot)), FetchRows(n)), InstallRows(n));
    assert Gone(out.reg, robot) && robot !in out.reg.robots;
    hide Step;
    GoneStaysGone(out, later, robot);
  }

  lemma {:induction false} StaysUnknown<S>(r: Tables, e: Event<S>, token: string)
    requires token !in r.tokens && ((e.Create? || e.IssueToken?) ==> e.token != token)
    ensures token !in TablesAfter(r, e).tokens
  {
    hide Normalised;
  }

  /** A deleted robot's tokens are unknown from then on, until the same text is issued again. */
  lemma {:induction false} DeletedTokensAreUnknown<S>(s: State<S>, robot: string, token: string, later: seq<Event<S>>,
                                                      typed: string, now: real, secret: string)
    requires token in s.reg.tokens && s.reg.tokens[token].robot == robot
    requires forall e :: e in later && (e.Create? || e.IssueToken?) ==> e.token != token
    requires Normalised(typed) == token
    ensures var r := Run(Step(s, Delete(robot)), later).reg;
            token !in r.tokens && Enrolled(r, typed, now, secret) == (r, UnknownToken)
  {
    hide Normalised, B.Step, BrokerEvent;
    if later != [] {
      var most, e := later[..|later| - 1], later[|later| - 1];
      assert e in later && forall x :: x in most ==> x in later;
      DeletedTokensAreUnknown(s, robot, token, most, typed, now, secret);
      StaysUnknown(Run(Step(s, Delete(robot)), most).reg, e, token);
      hide TablesAfter;
    }
  }

  // ---------------------------------------------------------------- robots do not disturb each other

  /** The event is about some other robot, or about none. */
  predicate Elsewhere<S>(r: Tables, e: Event<S>, robot: string) {
    match e
    case Create(other, _, _) => other != robot
    case IssueToken(other, _, _) => other != robot
    case Revoke(other) => other != robot
    case Delete(other) => other != robot
    case Enroll(typed, _, _) => Normalised(typed) in r.tokens ==> r.tokens[Normalised(typed)].robot != robot
    case _ => true
  }

  /** What the tables hold of a robot. */
  predicate SameOf(r: Tables, r': Tables, robot: string) {
    && (robot in r'.robots <==> robot in r.robots)
    && (robot in r.robots ==> r'.robots[robot] == r.robots[robot])
    && (forall t :: t in r.tokens && r.tokens[t].robot == robot ==> t in r'.tokens && r'.tokens[t] == r.tokens[t])
    && (forall t :: t in r'.tokens && r'.tokens[t].robot == robot ==> t in r.tokens && r.tokens[t] == r'.tokens[t])
  }

  lemma {:induction false} StepElsewhere<S>(r: Tables, e: Event<S>, robot: string)
    requires Elsewhere(r, e, robot)
    ensures SameOf(r, TablesAfter(r, e), robot)
  {
    hide Normalised, Issued, Spent;
    match e
    case Create(other, token, expires) =>
      IssueElsewhere(r.(robots := r.robots[other := Credential(None, false)]), other, token, expires, robot);
    case IssueToken(other, token, expires) => IssueElsewhere(r, other, token, expires, robot);
    case Revoke(other) => SpentElsewhere(r.tokens, other);
    case _ =>
  }

  lemma {:induction false} SpentElsewhere(tokens: map<string, Token>, other: string)
    ensures Spent(tokens, other).Keys == tokens.Keys
    ensures forall t :: t in tokens ==>
              Spent(tokens, other)[t].robot == tokens[t].robot &&
              (tokens[t].robot != other ==> Spent(tokens, other)[t] == tokens[t])
  {
  }

  lemma {:induction false} IssueElsewhere(r: Tables, other: string, token: string, expires: real, robot: string)
    requires other != robot
    ensures SameOf(r, Issued(r, other, token, expires).0, robot)
  {
    SpentElsewhere(r.tokens, other);
    hide Spent;
  }

  /** Over every run in which nothing is done about a robot, its credential and its tokens, used or not, stay what they
      are, whatever is done about others. */
  lemma {:induction false} RobotsAreIndependent<S(!new)>(s: State<S>, es: seq<Event<S>>, robot: string)
    requires forall i :: 0 <= i < |es| ==> Elsewhere(Run(s, es[..i]).reg, es[i], robot)
    ensures SameOf(s.reg, Run(s, es).reg, robot)
  {
    hide SameOf, TablesAfter, Elsewhere, BrokerEvent, B.Step;
    if es != [] {
      var most, e := es[..|es| - 1], es[|es| - 1];
      assert forall i :: 0 <= i < |most| ==> most[..i] == es[..i] && most[i] == es[i];
      RobotsAreIndependent(s, most, robot);
      assert es[..|es| - 1] == most;
      StepElsewhere(Run(s, most).reg, e, robot);
      SameOfBoth(s.reg, Run(s, most).reg, Run(s, es).reg, robot);
    } else {
      SameOfSelf(s.reg, robot);
    }
  }

  lemma {:induction false} SameOfSelf(a: Tables, robot: string)
    ensures SameOf(a, a, robot)
  {
  }

  lemma {:induction false} SameOfBoth(a: Tables, b: Tables, c: Tables, robot: string)
    requires SameOf(a, b, robot) && SameOf(b, c, robot)
    ensures SameOf(a, c, robot)
  {
  }

  // ---------------------------------------------------------------- keeping a credential

  /** The event neither revokes nor deletes the robot, nor brings a token of it. */
  predicate Spares<S>(r: Tables, e: Event<S>, robot: string) {
    && e != Revoke(robot) && e != Delete(robot)
    && (e.Enroll? && Normalised(e.token) in r.tokens ==> r.tokens[Normalised(e.token)].robot != robot)
  }

  lemma {:induction false} StepSpares<S>(r: Tables, e: Event<S>, robot: string)
    requires robot in r.robots && Spares(r, e, robot)
    ensures robot in TablesAfter(r, e).robots && TablesAfter(r, e).robots[robot] == r.robots[robot]
  {
    hide Normalised;
  }

  /** What a robot has been given it keeps, over every run that does not revoke, delete or enrol it again, however often
      it is created or issued tokens; and a refresh that reads the table then lets it in with nothing else. */
  lemma {:induction false} CredentialIsKept<S(!new)>(s: State<S>, es: seq<Event<S>>, robot: string, n: nat,
                                                     password: string)
    requires robot in s.reg.robots && forall i :: 0 <= i < |es| ==> Spares(Run(s, es[..i]).reg, es[i], robot)
    ensures var r := Run(s, es).reg;
            && robot in r.robots && r.robots[robot] == s.reg.robots[robot]
            && (Verified(Installed(Fetched(r, n), n).cache, robot, password)
                <==> !s.reg.robots[robot].revoked && s.reg.robots[robot].hash == Some(Hash(password)))
  {
    hide TablesAfter, Spares, BrokerEvent, B.Step;
    if es != [] {
      var most, e := es[..|es| - 1], es[|es| - 1];
      assert forall i :: 0 <= i < |most| ==> most[..i] == es[..i] && most[i] == es[i];
      CredentialIsKept(s, most, robot, n, password);
      assert es[..|es| - 1] == most;
      StepSpares(Run(s, most).reg, e, robot);
    }
  }

  // ---------------------------------------------------------------- revocation

  lemma {:induction false} StaysRevoked<S>(r: Tables, e: Event<S>, robot: string, from: nat)
    requires robot in r.robots && r.robots[robot] == Credential(None, true)
    requires Locked(r, robot, from) && NoNewEnrolment(r, e, robot, from) && e != Delete(robot)
    ensures robot in TablesAfter(r, e).robots && TablesAfter(r, e).robots[robot] == Credential(None, true)
  {
    hide Normalised;
  }

  /** A revoked robot is marked as revoked and has no credential until it is deleted or a token issued after the
      revocation is redeemed. */
  lemma {:induction false} RevokedIsMarked<S(!new)>(s: State<S>, robot: string, later: seq<Event<S>>)
    requires robot in s.reg.robots && Delete(robot) !in later
    requires NoneEnrolled(Step(s, Revoke(robot)), later, robot, s.reg.issued)
    ensures var r := Run(Step(s, Revoke(robot)), later).reg;
            robot in r.robots && r.robots[robot] == Credential(None, true)
  {
    var revoked := Step(s, Revoke(robot));
    assert Locked(revoked.reg, robot, s.reg.issued);
    if later != [] {
      var most, e := later[..|later| - 1], later[|later| - 1];
      assert e in later && forall x :: x in most ==> x in later;
      hide Locked, TablesAfter, NoNewEnrolment, BrokerEvent, B.Step;
      NoneEnrolledMost(revoked, later, robot, s.reg.issued);
      RevokedIsMarked(s, robot, most);
      RunLocked(revoked, most, robot, s.reg.issued);
      StaysRevoked(Run(revoked, most).reg, e, robot, s.reg.issued);
    }
  }
}
