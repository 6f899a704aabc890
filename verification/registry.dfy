/** Enrolment tokens, credentials, the credential cache and the broker sessions that depend on them.

    Each registry operation is one transaction.  A hash is an injective function of the secret. */
module Registry {
  import opened Deques
  import opened Options
  import opened Topics
  import B = Broker

  datatype Hash = Hash(secret: string)

  datatype Credential = Credential(hash: Option<Hash>, revoked: bool)

  /** `serial` numbers tokens in the order they were issued. */
  datatype Token = Token(robot: string, expires: real, used: bool, serial: nat)

  /** `fetched` holds the rows that refreshes under way have read and not yet installed; `redeemed` lists the
      serials of the tokens enrolled so far. */
  datatype Tables = Tables(robots: map<string, Credential>, tokens: map<string, Token>, cache: map<string, Credential>,
                           fetched: map<nat, map<string, Credential>>, issued: nat, redeemed: seq<nat>)

  const EMPTY := Tables(map[], map[], map[], map[], 0, [])

  datatype Outcome = Done | UnknownToken | AlreadyUsed | Expired | Refused

  /** `UPDATE enroll_tokens SET used_at` for the unused tokens of a robot. */
  function Spent(tokens: map<string, Token>, robot: string): map<string, Token> {
    map t | t in tokens :: if tokens[t].robot == robot then tokens[t].(used := true) else tokens[t]
  }

  /** Refused when the token text is already taken. */
  function Issued(r: Tables, robot: string, token: string, expires: real): (Tables, Outcome) {
    if token in r.tokens then (r, Refused)
    else
      (r.(tokens := Spent(r.tokens, robot)[token := Token(robot, expires, false, r.issued)], issued := r.issued + 1),
       Done)
  }

  function Created(r: Tables, robot: string, token: string, expires: real): (Tables, Outcome) {
    if robot in r.robots || token in r.tokens then (r, Refused)
    else Issued(r.(robots := r.robots[robot := Credential(None, false)]), robot, token, expires)
  }

  function Checked(r: Tables, token: string, now: real): Outcome {
    if token !in r.tokens then UnknownToken
    else if r.tokens[token].used then AlreadyUsed
    else if r.tokens[token].expires < now then Expired
    else Done
  }

  predicate IsSpace(c: char) {
    c == ' ' || '\t' <= c <= '\r' || '\U{1C}' <= c <= '\U{1F}'
  }

  function Trimmed(s: string): string {
    if s == "" then ""
    else if IsSpace(s[0]) then Trimmed(s[1..])
    else if IsSpace(s[|s| - 1]) then Trimmed(s[..|s| - 1])
    else s
  }

  function Upper(c: char): char {
    if 'a' <= c <= 'z' then c - 'a' + 'A' else c
  }

  function AllUpper(s: string): string {
    if s == "" then "" else [Upper(s[0])] + AllUpper(s[1..])
  }

  /** A token is looked up without surrounding space and in capitals. */
  function Normalised(typed: string): string {
    AllUpper(Trimmed(typed))
  }

  function Enrolled(r: Tables, typed: string, now: real, secret: string): (Tables, Outcome) {
    var token := Normalised(typed);
    if !Checked(r, token, now).Done? then (r, Checked(r, token, now)) else
    var t := r.tokens[token];
    var robots := if t.robot in r.robots then r.robots[t.robot := Credential(Some(Hash(secret)), false)] else r.robots;
    (r.(robots := robots, tokens := r.tokens[token := t.(used := true)], redeemed := r.redeemed + [t.serial]), Done)
  }

  function Revoked(r: Tables, robot: string): Tables {
    var robots := if robot in r.robots then r.robots[robot := Credential(None, true)] else r.robots;
    r.(robots := robots, tokens := Spent(r.tokens, robot))
  }

  function Deleted(r: Tables, robot: string): Tables {
    r.(robots := r.robots - {robot}, tokens := map t | t in r.tokens && r.tokens[t].robot != robot :: r.tokens[t])
  }

  /** A refresh reads the rows, waits for them, and then installs what it read. */
  function Fetched(r: Tables, n: nat): Tables {
    r.(fetched := r.fetched[n := r.robots])
  }

  function Installed(r: Tables, n: nat): Tables {
    if n in r.fetched then r.(cache := r.fetched[n], fetched := r.fetched - {n}) else r
  }

  /** The broker's check, against the cache alone. */
  predicate Verified(cache: map<string, Credential>, username: string, password: string) {
    username in cache && !cache[username].revoked && cache[username].hash == Some(Hash(password))
  }

  const LEAVES := ["status", "lwt", "samples", "raw"]

  predicate TopicAllowed(username: string, topic: string, publishing: bool) {
    var parts := Split(topic);
    username != "" && publishing && |parts| == 3 && parts[0] == "fleet" && parts[1] == username && parts[2] in LEAVES
  }

  lemma {:induction false} JoinThree(a: string, b: string, c: string)
    ensures Join([a, b, c]) == a + "/" + (b + "/" + c)
  {
    assert Join([c]) == c;
    assert [b, c][1..] == [c] && Join([b, c]) == b + "/" + Join([c]);
    assert [a, b, c][1..] == [b, c] && Join([a, b, c]) == a + "/" + Join([b, c]);
  }

  lemma {:induction false} BranchJoined(username: string, leaf: string)
    ensures "fleet" + "/" + (username + "/" + leaf) == "fleet/" + username + "/" + leaf
  {
    assert "fleet" + "/" == "fleet/";
    var a, b, c: string := "fleet/", username, "/" + leaf;
    assert a + (b + c) == (a + b) + c;
    assert username + "/" + leaf == b + c && "fleet/" + username + "/" + leaf == (a + b) + c;
  }

  /** A client may publish exactly on the four leaves of its own branch, and subscribe to nothing. */
  lemma {:induction false} TopicAllowedIff(username: string, topic: string, publishing: bool)
    ensures TopicAllowed(username, topic, publishing)
            <==> publishing && username != "" && IsLevel(username)
                 && exists leaf :: leaf in LEAVES && topic == "fleet/" + username + "/" + leaf
  {
    var parts := Split(topic);
    JoinSplit(topic);
    if TopicAllowed(username, topic, publishing) {
      assert parts == ["fleet", username, parts[2]];
      JoinThree("fleet", username, parts[2]);
      BranchJoined(username, parts[2]);
    }
    forall leaf | leaf in LEAVES && IsLevel(username) && topic == "fleet/" + username + "/" + leaf
      ensures parts == ["fleet", username, leaf]
    {
      assert IsLevel(leaf) && IsLevel("fleet");
      var levels := ["fleet", username, leaf];
      SplitJoin(levels);
      JoinThree("fleet", username, leaf);
      BranchJoined(username, leaf);
    }
  }

  // ---------------------------------------------------------------- the registry and its broker

  datatype Event<S> =
    | Create(robot: string, token: string, expires: real)
    | IssueToken(robot: string, token: string, expires: real)
    | Enroll(token: string, now: real, secret: string)
    | Revoke(robot: string)
    | Delete(robot: string)
    | FetchRows(n: nat)
    | InstallRows(n: nat)
    | Kick(username: string)
    | Connect(id: S, username: string, password: string, will: Option<B.Message>)
    | Publish(id: S, m: B.Message, pid: nat)
    | Drop(id: S)
    | Disconnect(id: S)
    | WriteFailed(id: S)

  datatype State<S(==)> = State(reg: Tables, broker: B.State<S>)

  /** A connection is made only with credentials the cache accepts; a publish is let through only on the
      client's own branch. */
  function BrokerEvent<S>(s: State<S>, e: Event<S>): Option<B.Event<S>> {
    match e
    case Kick(username) => Some(B.Event.Kick(username))
    case Connect(id, username, password, will) =>
      if Verified(s.reg.cache, username, password) then Some(B.Event.Connect(id, username, will)) else None
    case Publish(id, m, pid) =>
      var allowed := id in s.broker.clients && TopicAllowed(s.broker.clients[id].username, m.topic, true);
      Some(B.Event.Publish(id, m, pid, allowed))
    case Drop(id) => Some(B.Event.Drop(id))
    case Disconnect(id) => Some(B.Event.Disconnect(id))
    case WriteFailed(id) => Some(B.Event.WriteFailed(id))
    case _ => None
  }

  function TablesAfter<S>(r: Tables, e: Event<S>): Tables {
    match e
    case Create(robot, token, expires) => Created(r, robot, token, expires).0
    case IssueToken(robot, token, expires) => Issued(r, robot, token, expires).0
    case Enroll(token, now, secret) => Enrolled(r, token, now, secret).0
    case Revoke(robot) => Revoked(r, robot)
    case Delete(robot) => Deleted(r, robot)
    case FetchRows(n) => Fetched(r, n)
    case InstallRows(n) => Installed(r, n)
    case _ => r
  }

  function Step<S>(s: State<S>, e: Event<S>): State<S> {
    var be := BrokerEvent(s, e);
    State(TablesAfter(s.reg, e), if be.None? then s.broker else B.Step(s.broker, be.value))
  }

  function Run<S>(s: State<S>, es: seq<Event<S>>): State<S> {
    if es == [] then s else Step(Run(s, es[..|es| - 1]), es[|es| - 1])
  }

  // ---------------------------------------------------------------- tokens

  predicate OneUnused(tokens: map<string, Token>) {
    forall a, b :: a in tokens && b in tokens && !tokens[a].used && !tokens[b].used &&
                   tokens[a].robot == tokens[b].robot
              ==> a == b
  }

  predicate Serials(r: Tables) {
    && (forall t :: t in r.tokens ==> r.tokens[t].serial < r.issued)
    && (forall a, b :: a in r.tokens && b in r.tokens && r.tokens[a].serial == r.tokens[b].serial ==> a == b)
    && (forall n :: n in r.redeemed ==> n < r.issued)
    && (forall t :: t in r.tokens && !r.tokens[t].used ==> r.tokens[t].serial !in r.redeemed)
  }

  predicate Sound(r: Tables) {
    OneUnused(r.tokens) && Serials(r) && Distinct(r.redeemed)
  }

  lemma {:induction false} IssuedSound(r: Tables, robot: string, token: string, expires: real)
    requires Sound(r)
    ensures Sound(Issued(r, robot, token, expires).0)
  {
  }

  lemma {:induction false} EnrolledSound(r: Tables, token: string, now: real, secret: string)
    requires Sound(r)
    ensures Sound(Enrolled(r, token, now, secret).0)
  {
    hide Normalised;
  }

  lemma {:induction false} TablesSound<S>(r: Tables, e: Event<S>)
    requires Sound(r)
    ensures Sound(TablesAfter(r, e))
  {
    hide Normalised;
    match e
    case Create(robot, token, expires) =>
      if robot !in r.robots && token !in r.tokens {
        IssuedSound(r.(robots := r.robots[robot := Credential(None, false)]), robot, token, expires);
      }
    case IssueToken(robot, token, expires) => IssuedSound(r, robot, token, expires);
    case Enroll(token, now, secret) => EnrolledSound(r, token, now, secret);
    case Revoke(robot) => assert OneUnused(Spent(r.tokens, robot));
    case _ =>
  }

  /** Over every run a robot has at most one unused token, and no token is redeemed twice. */
  lemma {:induction false} TokensAreOneTime<S>(s: State<S>, es: seq<Event<S>>)
    requires Sound(s.reg)
    ensures Sound(Run(s, es).reg)
  {
    if es != [] {
      TokensAreOneTime(s, es[..|es| - 1]);
      TablesSound(Run(s, es[..|es| - 1]).reg, es[|es| - 1]);
    }
  }

  predicate StillUsed(r: Tables, token: string, robot: string) {
    token in r.tokens && r.tokens[token].used && r.tokens[token].robot == robot
  }

  lemma {:induction false} StepStillUsed<S>(r: Tables, e: Event<S>, token: string, robot: string)
    requires StillUsed(r, token, robot) && !(e.Delete? && e.robot == robot)
    ensures StillUsed(TablesAfter(r, e), token, robot)
  {
    hide Normalised;
  }

  /** Once a token is used, enrolling with it, however typed, fails for good, unless its own robot is deleted and
      the same text issued again. */
  lemma {:induction false} UsedStaysUsed<S>(s: State<S>, es: seq<Event<S>>, token: string, typed: string, now: real,
                                            secret: string)
    requires token in s.reg.tokens && s.reg.tokens[token].used
    requires forall e :: e in es ==> !(e.Delete? && e.robot == s.reg.tokens[token].robot)
    ensures StillUsed(Run(s, es).reg, token, s.reg.tokens[token].robot)
    ensures Normalised(typed) == token ==> Enrolled(Run(s, es).reg, typed, now, secret) == (Run(s, es).reg, AlreadyUsed)
  {
    hide Normalised;
    if es != [] {
      var most, e := es[..|es| - 1], es[|es| - 1];
      assert e in es && forall x :: x in most ==> x in es;
      UsedStaysUsed(s, most, token, typed, now, secret);
      StepStillUsed(Run(s, most).reg, e, token, s.reg.tokens[token].robot);
    }
  }

  /** Space: 32, tab to carriage return, and the four separators from 28 on. */
  predicate Blank(s: string) {
    forall i :: 0 <= i < |s| ==> BlankCode(s[i] as int)
  }

  /** Neither begins nor ends with space. */
  predicate Tight(s: string) {
    s != "" ==> !BlankCode(s[0] as int) && !BlankCode(s[|s| - 1] as int)
  }

  predicate BlankCode(code: int) {
    code == 32 || 9 <= code <= 13 || 28 <= code <= 31
  }

  /** The same letters in capitals: codes 97 to 122 become 65 to 90, and nothing else changes. */
  predicate Capitals(typed: string, token: string) {
    && |token| == |typed|
    && forall i :: 0 <= i < |typed| ==>
         token[i] as int == typed[i] as int - (if 97 <= typed[i] as int <= 122 then 32 else 0)
  }

  lemma {:induction false} AllUpperIs(s: string)
    ensures Capitals(s, AllUpper(s))
  {
    if s != "" {
      AllUpperIs(s[1..]);
    }
  }

  lemma {:induction false} TrimmedBlank(s: string)
    requires Blank(s)
    ensures Trimmed(s) == ""
  {
    if s != "" {
      TrimmedBlank(s[1..]);
    }
  }

  lemma {:induction false} TrimmedIs(before: string, typed: string, after: string)
    requires Blank(before) && Blank(after) && Tight(typed)
    ensures Trimmed(before + typed + after) == typed
    decreases |before| + |after|
  {
    var s := before + typed + after;
    if typed == "" {
      TrimmedBlank(s);
    } else if before != "" {
      assert s[1..] == before[1..] + typed + after;
      TrimmedIs(before[1..], typed, after);
    } else if after != "" {
      assert s[0] == typed[0] && s[..|s| - 1] == before + typed + after[..|after| - 1];
      TrimmedIs(before, typed, after[..|after| - 1]);
    } else {
      assert s == typed;
    }
  }

  /** However a token is typed, in capitals or not and with space around it, it is looked up in capitals and without
      that space. */
  lemma {:induction false} TypedTokenIsFound(before: string, typed: string, after: string)
    requires Blank(before) && Blank(after) && Tight(typed)
    ensures Capitals(typed, Normalised(before + typed + after))
  {
    TrimmedIs(before, typed, after);
    AllUpperIs(typed);
  }

  /** After a token is issued it is the one token its robot can redeem. */
  lemma {:induction false} NewestTokenOnly(r: Tables, robot: string, token: string, expires: real, now: real,
                                           other: string)
    requires Issued(r, robot, token, expires).1 == Done && now <= expires
    ensures var r' := Issued(r, robot, token, expires).0;
            other in r'.tokens && r'.tokens[other].robot == robot ==>
              (Checked(r', other, now) == Done <==> other == token)
  {
  }

  /** After an enrolment and a refresh the cache accepts the new secret and no other password. */
  lemma {:induction false} EnrolledIsAccepted(r: Tables, typed: string, now: real, secret: string, n: nat,
                                              password: string)
    requires Checked(r, Normalised(typed), now).Done? && r.tokens[Normalised(typed)].robot in r.robots
    ensures var after := Installed(Fetched(Enrolled(r, typed, now, secret).0, n), n);
            Verified(after.cache, r.tokens[Normalised(typed)].robot, password) <==> password == secret
  {
    hide Normalised;
  }

  // ---------------------------------------------------------------- revocation

  /** The robot has no credential, and every token that could give it one is numbered `from` or later. */
  predicate Locked(r: Tables, robot: string, from: nat) {
    && from <= r.issued
    && (robot in r.robots ==> r.robots[robot].hash.None?)
    && forall t :: t in r.tokens && r.tokens[t].robot == robot && !r.tokens[t].used ==> r.tokens[t].serial >= from
  }

  /** The event does not enrol the robot with a token numbered `from` or later. */
  predicate NoNewEnrolment<S>(r: Tables, e: Event<S>, robot: string, from: nat) {
    e.Enroll? ==>
      var token := Normalised(e.token);
      token in r.tokens && r.tokens[token].robot == robot ==> r.tokens[token].serial < from
  }

  ghost predicate NoneEnrolled<S(!new)>(s: State<S>, es: seq<Event<S>>, robot: string, from: nat) {
    forall i :: 0 <= i < |es| ==> NoNewEnrolment(Run(s, es[..i]).reg, es[i], robot, from)
  }

  lemma {:induction false} StepLocked<S>(r: Tables, e: Event<S>, robot: string, from: nat)
    requires Locked(r, robot, from) && NoNewEnrolment(r, e, robot, from)
    ensures Locked(TablesAfter(r, e), robot, from)
  {
    hide Normalised;
  }

  lemma {:induction false} NoneEnrolledMost<S(!new)>(s: State<S>, es: seq<Event<S>>, robot: string, from: nat)
    requires es != [] && NoneEnrolled(s, es, robot, from)
    ensures NoneEnrolled(s, es[..|es| - 1], robot, from)
    ensures NoNewEnrolment(Run(s, es[..|es| - 1]).reg, es[|es| - 1], robot, from)
  {
    var most := es[..|es| - 1];
    assert forall i :: 0 <= i < |most| ==> most[..i] == es[..i] && most[i] == es[i];
  }

  lemma {:induction false} RunLocked<S(!new)>(s: State<S>, es: seq<Event<S>>, robot: string, from: nat)
    requires Locked(s.reg, robot, from) && NoneEnrolled(s, es, robot, from)
    ensures Locked(Run(s, es).reg, robot, from)
  {
    if es != [] {
      NoneEnrolledMost(s, es, robot, from);
      RunLocked(s, es[..|es| - 1], robot, from);
      StepLocked(Run(s, es[..|es| - 1]).reg, es[|es| - 1], robot, from);
    }
  }

  /** The rows hold a credential the broker would accept for the robot. */
  predicate Opens(rows: map<string, Credential>, robot: string) {
    robot in rows && !rows[robot].revoked && rows[robot].hash.Some?
  }

  /** No refresh under way has read a credential of the robot. */
  predicate NoStaleRefresh(r: Tables, robot: string) {
    forall n :: n in r.fetched ==> !Opens(r.fetched[n], robot)
  }

  /** No credential cached or about to be, hence no way in, and nobody inside. */
  ghost predicate ShutOut<S(!new)>(s: State<S>, robot: string) {
    !Opens(s.reg.cache, robot) && NoStaleRefresh(s.reg, robot) && B.NoneNamed(s.broker, robot)
  }

  lemma {:induction false} TablesStayShut<S>(r: Tables, e: Event<S>, robot: string)
    requires !Opens(r.cache, robot) && NoStaleRefresh(r, robot) && !Opens(r.robots, robot)
    ensures !Opens(TablesAfter(r, e).cache, robot) && NoStaleRefresh(TablesAfter(r, e), robot)
  {
    hide Normalised, Opens, Checked, Spent;
  }

  lemma {:induction false} StepShutOut<S(!new)>(s: State<S>, e: Event<S>, robot: string, from: nat)
    requires ShutOut(s, robot) && Locked(s.reg, robot, from)
    ensures ShutOut(Step(s, e), robot)
  {
    TablesStayShut(s.reg, e, robot);
    var be := BrokerEvent(s, e);
    if be.Some? {
      var b, b' := s.broker, B.Step(s.broker, be.value);
      forall id | id in b'.clients ensures b'.clients[id].username != robot {
        if be.value.Connect? && be.value.id == id {
          B.StepConnects(b, be.value);
        } else {
          B.StepIdentity(b, be.value, id);
        }
      }
    }
    hide B.Step, TablesAfter, NoStaleRefresh;
  }

  lemma {:induction false} RunShutOut<S(!new)>(s: State<S>, es: seq<Event<S>>, robot: string, from: nat)
    requires ShutOut(s, robot) && Locked(s.reg, robot, from) && NoneEnrolled(s, es, robot, from)
    ensures ShutOut(Run(s, es), robot)
  {
    if es != [] {
      NoneEnrolledMost(s, es, robot, from);
      RunShutOut(s, es[..|es| - 1], robot, from);
      RunLocked(s, es[..|es| - 1], robot, from);
      StepShutOut(Run(s, es[..|es| - 1]), es[|es| - 1], robot, from);
    }
  }

  /** The administrator's revocation up to its kick: revoke, anything, the refresh reads, anything, the refresh
      installs what it read, and the kick follows at once. */
  function AfterRevocation<S>(s: State<S>, robot: string, between: seq<Event<S>>, n: nat,
                              during: seq<Event<S>>): State<S> {
    Step(Step(Run(Step(Run(Step(s, Revoke(robot)), between), FetchRows(n)), during), InstallRows(n)), Kick(robot))
  }

  /** Until the kick no token issued after the revoke is enrolled, and nobody else installs the rows it read. */
  ghost predicate Undisturbed<S(!new)>(s: State<S>, robot: string, between: seq<Event<S>>, n: nat,
                                during: seq<Event<S>>) {
    var revoked := Step(s, Revoke(robot));
    && NoneEnrolled(revoked, between, robot, s.reg.issued)
    && NoneEnrolled(Step(Run(revoked, between), FetchRows(n)), during, robot, s.reg.issued)
    && forall e :: e in during ==> e != InstallRows(n)
  }

  lemma {:induction false} FetchedStaysShut<S(!new)>(s: State<S>, es: seq<Event<S>>, robot: string, from: nat, n: nat)
    requires Locked(s.reg, robot, from) && NoneEnrolled(s, es, robot, from)
    requires n in s.reg.fetched && !Opens(s.reg.fetched[n], robot)
    requires forall e :: e in es ==> e != InstallRows(n)
    ensures n in Run(s, es).reg.fetched && !Opens(Run(s, es).reg.fetched[n], robot)
  {
    hide Opens, Step, Locked;
    if es != [] {
      var most, e := es[..|es| - 1], es[|es| - 1];
      assert e in es && forall x :: x in most ==> x in es;
      NoneEnrolledMost(s, es, robot, from);
      FetchedStaysShut(s, most, robot, from, n);
      RunLocked(s, most, robot, from);
      LockedIsShut(Run(s, most).reg, robot, from);
      hide NoneEnrolled, NoNewEnrolment;
      FetchedOnce(Run(s, most), e, robot, n);
    }
  }

  lemma {:induction false} FetchedOnce<S>(s: State<S>, e: Event<S>, robot: string, n: nat)
    requires n in s.reg.fetched && !Opens(s.reg.fetched[n], robot) && !Opens(s.reg.robots, robot) && e != InstallRows(n)
    ensures n in Step(s, e).reg.fetched && !Opens(Step(s, e).reg.fetched[n], robot)
  {
    hide Normalised, Opens, B.Step, Checked, Spent, BrokerEvent;
  }

  lemma {:induction false} LockedIsShut(r: Tables, robot: string, from: nat)
    requires Locked(r, robot, from)
    ensures !Opens(r.robots, robot)
  {
  }

  lemma {:induction false} KickedOut<S(!new)>(s: State<S>, robot: string, between: seq<Event<S>>, n: nat,
                                       during: seq<Event<S>>)
    requires Undisturbed(s, robot, between, n, during)
    ensures var k := AfterRevocation(s, robot, between, n, during);
            Locked(k.reg, robot, s.reg.issued) && !Opens(k.reg.cache, robot) && B.NoneNamed(k.broker, robot)
  {
    var revoked := Step(s, Revoke(robot));
    assert Locked(revoked.reg, robot, s.reg.issued);
    RunLocked(revoked, between, robot, s.reg.issued);
    var reading := Step(Run(revoked, between), FetchRows(n));
    LockedIsShut(reading.reg, robot, s.reg.issued);
    RunLocked(reading, during, robot, s.reg.issued);
    FetchedStaysShut(reading, during, robot, s.reg.issued, n);
    var installed := Step(Run(reading, during), InstallRows(n));
    hide Run, Undisturbed, B.Step;
    B.KickKeepsOut(installed.broker, robot, []);
    KickOnly(installed.broker, robot);
  }

  lemma {:induction false} KickOnly<S>(b: B.State<S>, robot: string)
    ensures B.Run(B.Step(b, B.Event.Kick(robot)), []) == B.Step(b, B.Event.Kick(robot))
  {
  }

  /** Nobody is inside under the username and the password is refused, unless a token issued after the revoke
      was enrolled. */
  ghost predicate Safe<S(!new)>(k: State<S>, robot: string, from: nat, later: seq<Event<S>>, password: string) {
    NoneEnrolled(k, later, robot, from) ==>
      B.NoneNamed(Run(k, later).broker, robot) && !Verified(Run(k, later).reg.cache, robot, password)
  }

  /** A revocation keeps the robot out, whatever happens later, until a token issued after the revoke is enrolled,
      if and only if at the kick no other refresh under way holds a credential read before the revoke. */
  lemma {:induction false} RevocationHoldsIff<S(!new)>(s: State<S>, robot: string, between: seq<Event<S>>, n: nat,
                                                       during: seq<Event<S>>)
    requires Undisturbed(s, robot, between, n, during)
    ensures var k := AfterRevocation(s, robot, between, n, during);
            (forall later, password :: Safe(k, robot, s.reg.issued, later, password)) <==> NoStaleRefresh(k.reg, robot)
  {
    var k := AfterRevocation(s, robot, between, n, during);
    KickedOut(s, robot, between, n, during);
    hide AfterRevocation;
    if NoStaleRefresh(k.reg, robot) {
      forall later, password ensures Safe(k, robot, s.reg.issued, later, password) {
        if NoneEnrolled(k, later, robot, s.reg.issued) {
          RunShutOut(k, later, robot, s.reg.issued);
        }
      }
    } else {
      var m :| m in k.reg.fetched && Opens(k.reg.fetched[m], robot);
      StaleRefreshReopens(k, robot, s.reg.issued, m);
    }
  }

  /** Robot "r" enrols; a refresh reads its row; it is revoked, refreshed and kicked. */
  function StaleRevocation<S>(): seq<Event<S>> {
    [Create("r", "T", 9.0), Enroll("T", 1.0, "s"), FetchRows(1), Revoke("r"), FetchRows(2), InstallRows(2), Kick("r")]
  }

  lemma {:induction false} TablesVisit<S>(s: State<S>, es: seq<Event<S>>, u: seq<Tables>)
    requires |u| == |es| + 1 && u[0] == s.reg
    requires forall i :: 0 <= i < |es| ==> TablesAfter(u[i], es[i]) == u[i + 1]
    ensures Run(s, es).reg == u[|es|]
  {
    hide TablesAfter;
    if es != [] {
      TablesVisit(s, es[..|es| - 1], u[..|es|]);
    }
  }

  lemma {:induction false} OneTokenEnrols()
    ensures var r := Created(EMPTY, "r", "T", 9.0).0;
            && r == Tables(map["r" := Credential(None, false)], map["T" := Token("r", 9.0, false, 0)],
                           map[], map[], 1, [])
            && Enrolled(r, "T", 1.0, "s").0 ==
                 Tables(map["r" := Credential(Some(Hash("s")), false)], map["T" := Token("r", 9.0, true, 0)],
                        map[], map[], 1, [0])
  {
    assert Spent(map[], "r") == map[];
    assert Trimmed("T") == "T" && AllUpper("") == "" && AllUpper("T") == "T";
  }

  /** In that run the cache refuses the secret after the kick, and accepts it again once the first refresh installs
      what it had read. */
  lemma {:induction false} StaleRefreshRun<S(!new)>(b: B.State<S>)
    ensures var s := State(EMPTY, b);
            && !Verified(Run(s, StaleRevocation()).reg.cache, "r", "s")
            && Verified(Run(s, StaleRevocation() + [InstallRows(1)]).reg.cache, "r", "s")
  {
    OneTokenEnrols();
    var r1 := Created(EMPTY, "r", "T", 9.0).0;
    var r2 := Enrolled(r1, "T", 1.0, "s").0;
    hide Created, Enrolled, Issued;
    var r3 := Fetched(r2, 1);
    var r4 := Revoked(r3, "r");
    var r5 := Fetched(r4, 2);
    var r6 := Installed(r5, 2);
    var u := [EMPTY, r1, r2, r3, r4, r5, r6, r6];
    TablesVisit(State(EMPTY, b), StaleRevocation(), u);
    TablesVisit(State(EMPTY, b), StaleRevocation() + [InstallRows(1)], u + [Installed(r6, 1)]);
    assert r6.fetched[1] == r2.robots;
  }

  lemma {:induction false} StaleRefreshReopens<S(!new)>(k: State<S>, robot: string, from: nat, m: nat)
    requires m in k.reg.fetched && Opens(k.reg.fetched[m], robot)
    ensures !Safe(k, robot, from, [InstallRows(m)], k.reg.fetched[m][robot].hash.value.secret)
  {
    var later: seq<Event<S>> := [InstallRows(m)];
    assert later[..0] == [];
    assert Run(k, later) == Step(k, InstallRows(m));
  }

  /** If no refresh was under way at the revoke, nothing stale can be installed after the kick. */
  lemma {:induction false} RevocationHolds<S(!new)>(s: State<S>, robot: string, between: seq<Event<S>>, n: nat,
                                                    during: seq<Event<S>>, later: seq<Event<S>>, password: string)
    requires Undisturbed(s, robot, between, n, during) && s.reg.fetched == map[]
    ensures Safe(AfterRevocation(s, robot, between, n, during), robot, s.reg.issued, later, password)
  {
    var revoked := Step(s, Revoke(robot));
    assert Locked(revoked.reg, robot, s.reg.issued);
    NothingStale(revoked, between, robot, s.reg.issued);
    RunLocked(revoked, between, robot, s.reg.issued);
    var reading := Step(Run(revoked, between), FetchRows(n));
    LockedIsShut(Run(revoked, between).reg, robot, s.reg.issued);
    NothingStale(reading, during, robot, s.reg.issued);
    hide Run, B.Step;
    assert NoStaleRefresh(AfterRevocation(s, robot, between, n, during).reg, robot);
    RevocationHoldsIff(s, robot, between, n, during);
  }

  lemma {:induction false} NothingStale<S(!new)>(s: State<S>, es: seq<Event<S>>, robot: string, from: nat)
    requires Locked(s.reg, robot, from) && NoneEnrolled(s, es, robot, from) && NoStaleRefresh(s.reg, robot)
    ensures NoStaleRefresh(Run(s, es).reg, robot)
  {
    hide Normalised, Opens, B.Step, Checked, Spent;
    if es != [] {
      var most := es[..|es| - 1];
      NoneEnrolledMost(s, es, robot, from);
      NothingStale(s, most, robot, from);
      RunLocked(s, most, robot, from);
      LockedIsShut(Run(s, most).reg, robot, from);
    }
  }

  // ---------------------------------------------------------------- whose branch a message is on

  predicate OnOwnBranch(username: string, topic: string) {
    exists leaf :: leaf in LEAVES && topic == "fleet/" + username + "/" + leaf
  }

  /** A message a client publishes is routed exactly when its topic is a leaf of the branch named after the
      username the client's password was checked against. */
  lemma {:induction false} PublishedOnOwnBranchIff<S>(s: State<S>, id: S, m: B.Message, pid: nat)
    requires id in s.broker.clients
    ensures var user := s.broker.clients[id].username;
            B.StepMessages(s.broker, BrokerEvent(s, Publish(id, m, pid)).value) ==
              if user != "" && IsLevel(user) && OnOwnBranch(user, m.topic) then [m.(qos := Min(m.qos, 1))] else []
  {
    hide TopicAllowed;
    TopicAllowedIff(s.broker.clients[id].username, m.topic, true);
  }
}
