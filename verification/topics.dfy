/** Topic names, topic filters and the two wildcard matchers (section 4.7 of MQTT 3.1.1). */
module Topics {

  /** Splitting at every separator; never empty, and `Join` undoes it. */
  function Split(s: string): (levels: seq<string>)
    ensures |levels| >= 1
  {
    if s == "" then [""] else PutFirst(s[0], Split(s[1..]))
  }

  function PutFirst(c: char, levels: seq<string>): (r: seq<string>)
    requires |levels| >= 1
    ensures |r| >= 1
  {
    if c == '/' then [""] + levels else [[c] + levels[0]] + levels[1..]
  }

  function Join(levels: seq<string>): string
    requires |levels| >= 1
  {
    if |levels| == 1 then levels[0] else levels[0] + "/" + Join(levels[1..])
  }

  predicate IsLevel(level: string) {
    '/' !in level
  }

  lemma {:induction false} JoinSplit(s: string)
    ensures Join(Split(s)) == s
    ensures forall i :: 0 <= i < |Split(s)| ==> IsLevel(Split(s)[i])
  {
    if s != "" {
      JoinSplit(s[1..]);
      var rest := Split(s[1..]);
      if s[0] == '/' {
        assert Split(s)[1..] == rest;
      } else if |rest| > 1 {
        assert Split(s)[1..] == rest[1..];
        assert Join(rest) == rest[0] + "/" + Join(rest[1..]);
      }
    }
  }

  lemma {:induction false} SplitLevel(level: string, rest: string)
    requires IsLevel(level)
    ensures Split(level) == [level]
    ensures Split(level + "/" + rest) == [level] + Split(rest)
    decreases |level|
  {
    if level == "" {
      assert level + "/" + rest == "/" + rest;
    } else {
      SplitLevel(level[1..], rest);
      assert (level + "/" + rest)[1..] == level[1..] + "/" + rest;
      assert [level[0]] + level[1..] == level;
    }
  }

  lemma {:induction false} SplitJoin(levels: seq<string>)
    requires |levels| >= 1
    requires forall i :: 0 <= i < |levels| ==> IsLevel(levels[i])
    ensures Split(Join(levels)) == levels
  {
    if |levels| == 1 {
      SplitLevel(levels[0], "");
    } else {
      SplitJoin(levels[1..]);
      SplitLevel(levels[0], Join(levels[1..]));
    }
  }

  // ---------------------------------------------------------------- what a filter means

  const MULTI := "#"
  const SINGLE := "+"

  predicate LevelMatches(filterLevel: string, topicLevel: string) {
    filterLevel == SINGLE || filterLevel == topicLevel
  }

  /** `#` stands for its parent level and everything below, and is only a wildcard in last place. */
  predicate WildcardMatches(f: seq<string>, t: seq<string>)
    requires |f| >= 1
  {
    var n := |f| - 1;
    && (forall i :: 0 <= i < n ==> f[i] != MULTI)
    && (if f[n] == MULTI then n <= |t| && forall i :: 0 <= i < n ==> LevelMatches(f[i], t[i])
        else |t| == |f| && forall i :: 0 <= i <= n ==> LevelMatches(f[i], t[i]))
  }

  /** Topics beginning with `$` are hidden from filters that begin with a wildcard. */
  predicate Hidden(f: seq<string>, t: seq<string>)
    requires |f| >= 1 && |t| >= 1
  {
    |t[0]| > 0 && t[0][0] == '$' && (f[0] == MULTI || f[0] == SINGLE)
  }

  predicate BrokerMatches(filt: string, topic: string) {
    WildcardMatches(Split(filt), Split(topic)) && !Hidden(Split(filt), Split(topic))
  }

  predicate AgentMatches(filt: string, topic: string) {
    WildcardMatches(Split(filt), Split(topic))
  }

  // ---------------------------------------------------------------- the two loops

  /** The broker's loop decides the declarative meaning, for well-formed and ill-formed filters alike. */
  method TopicMatches(filt: string, topic: string) returns (r: bool)
    ensures r == BrokerMatches(filt, topic)
  {
    var f, t := Split(filt), Split(topic);
    var dollar := |t[0]| > 0 && t[0][0] == '$';
    for i := 0 to |f|
      invariant i <= |t|
      invariant forall j :: 0 <= j < i ==> f[j] != MULTI && LevelMatches(f[j], t[j])
      invariant i > 0 && dollar ==> f[0] != SINGLE
    {
      var seg := f[i];
      if seg == MULTI {
        return i == |f| - 1 && !(i == 0 && dollar);
      }
      if i >= |t| {
        return false;
      }
      if seg == SINGLE {
        if i == 0 && dollar {
          return false;
        }
        continue;
      }
      if seg != t[i] {
        return false;
      }
    }
    return |f| == |t|;
  }

  /** The agent's copy of the loop. */
  method AgentTopicMatches(filt: string, topic: string) returns (r: bool)
    ensures r == AgentMatches(filt, topic)
  {
    var f, t := Split(filt), Split(topic);
    for i := 0 to |f|
      invariant i <= |t|
      invariant forall j :: 0 <= j < i ==> f[j] != MULTI && LevelMatches(f[j], t[j])
    {
      var seg := f[i];
      if seg == MULTI {
        return i == |f| - 1;
      }
      if i >= |t| {
        return false;
      }
      if seg == SINGLE {
        continue;
      }
      if seg != t[i] {
        return false;
      }
    }
    return |f| == |t|;
  }

  /** The two copies disagree exactly on `$` topics under a filter that begins with a wildcard. */
  lemma {:induction false} MatchersDisagreeIff(filt: string, topic: string)
    ensures AgentMatches(filt, topic) != BrokerMatches(filt, topic)
            <==> topic != "" && topic[0] == '$' && AgentMatches(filt, topic)
                 && (filt == "#" || filt == "+" || filt[..Deep(filt)] == "+/" || filt[..Deep(filt)] == "#/")
    ensures BrokerMatches(filt, topic) ==> AgentMatches(filt, topic)
  {
    FirstLevel(topic);
    FirstLevel(filt);
  }

  function Deep(s: string): nat {
    if |s| < 2 then |s| else 2
  }

  lemma {:induction false} FirstLevel(s: string)
    ensures (|Split(s)[0]| > 0 && Split(s)[0][0] == '$') <==> (s != "" && s[0] == '$')
    ensures Split(s)[0] == "+" <==> s == "+" || s[..Deep(s)] == "+/"
    ensures Split(s)[0] == "#" <==> s == "#" || s[..Deep(s)] == "#/"
  {
    if |s| >= 2 {
      assert s[..2] == [s[0], s[1]];
      assert s[1..][0] == s[1];
      assert Split(s[1..])[0] == "" <==> s[1] == '/';
    } else if |s| == 1 {
      assert Split(s[1..]) == [""];
    }
  }

  /** To either matcher `parent/#` matches the parent itself and everything below it, and nothing else. */
  lemma {:induction false} TailCoversParent(parent: string, topic: string)
    requires forall i :: 0 <= i < |Split(parent)| ==> Split(parent)[i] != MULTI && Split(parent)[i] != SINGLE
    ensures BrokerMatches(parent + "/#", topic) <==> topic == parent || parent + "/" <= topic
    ensures AgentMatches(parent + "/#", topic) <==> topic == parent || parent + "/" <= topic
  {
    var p, t := Split(parent), Split(topic);
    assert Split(parent + "/#") == p + ["#"] by {
      SplitAppend(parent, "#");
      SplitLevel("#", "");
      assert parent + "/" + "#" == parent + "/#";
    }
    TailMatches(p, t);
    JoinSplit(parent);
    JoinSplit(topic);
    if p <= t {
      JoinPrefix(p, t);
    } else if topic != parent && parent + "/" <= topic {
      var rest := topic[|parent| + 1..];
      assert topic == parent + "/" + rest;
      SplitAppend(parent, rest);
    }
  }

  // What a filter matches, in terms of its text.  Every filter is one level or a level, a slash and a filter, so the
  // two lemmas together say it for all filters and topics.

  /** One level: `+` matches a topic of one level, `#` matches everything, and any other level only itself. */
  lemma {:induction false} OneLevelFilter(level: string, topic: string)
    requires IsLevel(level)
    ensures AgentMatches(level, topic) <==>
              if level == "#" then true else if level == "+" then IsLevel(topic) else topic == level
  {
    SplitLevel(level, "");
    JoinSplit(topic);
    if IsLevel(topic) {
      SplitLevel(topic, "");
    }
  }

  /** The topic splits at some slash into what the level and what the rest of the filter matches. */
  ghost predicate SplitsAt(level: string, rest: string, topic: string, n: nat) {
    n < |topic| && topic[n] == '/' && AgentMatches(level, topic[..n]) && AgentMatches(rest, topic[n + 1..])
  }

  /** A level, a slash and a filter: a `#` that is not last matches nothing; otherwise the topic splits at a slash in
      the same way, or the rest is `#` and the topic is what the level matches. */
  lemma {:induction false} FilterBySlash(level: string, rest: string, topic: string)
    requires IsLevel(level)
    ensures AgentMatches(level + "/" + rest, topic) <==>
              level != "#" &&
              ((exists n: nat :: SplitsAt(level, rest, topic, n)) || (rest == "#" && AgentMatches(level, topic)))
  {
    hide Split;
    var f, r := Split(level + "/" + rest), Split(rest);
    SplitLevel(level, rest);
    OneLevelFilter(level, topic);
    JoinSplit(rest);
    SplitLevel("#", "");
    assert f == [level] + r && f[1..] == r;
    if IsLevel(topic) {
      SplitLevel(topic, "");
      assert r == ["#"] ==> rest == "#";
      assert WildcardMatches(f, [topic]) <==> level != "#" && rest == "#" && LevelMatches(level, topic);
    } else {
      var n := FirstSlash(topic);
      var x, y := topic[..n], topic[n + 1..];
      assert topic == x + "/" + y;
      SplitLevel(x, y);
      FirstMatches(level, r, x, Split(y));
      OneLevelFilter(level, x);
      assert AgentMatches(level + "/" + rest, topic)
             <==> level != "#" && AgentMatches(level, x) && AgentMatches(rest, y);
      forall m: nat | level != "#" && SplitsAt(level, rest, topic, m) ensures m == n {
        OneLevelFilter(level, topic[..m]);
        FirstIsOne(topic, m, n);
      }
      assert level != "#" && AgentMatches(level, x) && AgentMatches(rest, y) ==> SplitsAt(level, rest, topic, n);
    }
  }

  lemma {:induction false} FirstSlash(topic: string) returns (n: nat)
    requires !IsLevel(topic)
    ensures n < |topic| && topic[n] == '/' && IsLevel(topic[..n])
  {
    if topic[0] == '/' {
      n := 0;
    } else {
      n := FirstSlash(topic[1..]);
      n := n + 1;
      assert topic[..n] == [topic[0]] + topic[1..][..n - 1];
    }
  }

  lemma {:induction false} FirstIsOne(topic: string, m: nat, n: nat)
    requires m < |topic| && topic[m] == '/' && IsLevel(topic[..m])
    requires n < |topic| && topic[n] == '/' && IsLevel(topic[..n])
    ensures m == n
  {
    if topic[0] != '/' {
      assert topic[..m] == [topic[0]] + topic[1..][..m - 1];
      assert topic[..n] == [topic[0]] + topic[1..][..n - 1];
      FirstIsOne(topic[1..], m - 1, n - 1);
    }
  }

  lemma {:induction false} FirstMatches(level: string, r: seq<string>, x: string, t: seq<string>)
    requires |r| >= 1
    ensures WildcardMatches([level] + r, [x] + t)
            <==> level != MULTI && LevelMatches(level, x) && WildcardMatches(r, t)
  {
    var f, u := [level] + r, [x] + t;
    assert forall i :: 0 <= i < |r| ==> f[i + 1] == r[i];
    assert forall i :: 0 <= i < |t| ==> u[i + 1] == t[i];
    hide LevelMatches;
    NoneMulti(level, r);
    LevelsShift(level, r, x, t, if r[|r| - 1] == MULTI then |r| - 1 else |r|);
  }

  lemma {:induction false} NoneMulti(level: string, r: seq<string>)
    requires |r| >= 1
    ensures var f := [level] + r;
            (forall i :: 0 <= i < |r| ==> f[i] != MULTI)
            <==> level != MULTI && forall i :: 0 <= i < |r| - 1 ==> r[i] != MULTI
  {
    var f := [level] + r;
    if forall i :: 0 <= i < |r| ==> f[i] != MULTI {
      assert f[0] == level;
      assert forall i :: 0 <= i < |r| - 1 ==> r[i] == f[i + 1];
    }
  }

  lemma {:induction false} LevelsShift(level: string, r: seq<string>, x: string, t: seq<string>, n: nat)
    requires n <= |r|
    ensures var f, u := [level] + r, [x] + t;
            n <= |t| ==>
              ((forall i :: 0 <= i < n + 1 ==> LevelMatches(f[i], u[i]))
               <==> LevelMatches(level, x) && forall i :: 0 <= i < n ==> LevelMatches(r[i], t[i]))
  {
    hide LevelMatches;
    var f, u := [level] + r, [x] + t;
    if n <= |t| && forall i :: 0 <= i < n + 1 ==> LevelMatches(f[i], u[i]) {
      assert LevelMatches(f[0], u[0]);
      forall i | 0 <= i < n ensures LevelMatches(r[i], t[i]) {
        assert LevelMatches(f[i + 1], u[i + 1]);
      }
    }
  }

  lemma {:induction false} JoinPrefix(p: seq<string>, t: seq<string>)
    requires 1 <= |p| && p <= t
    ensures Join(t) == Join(p) || Join(p) + "/" <= Join(t)
  {
    assert t == p + t[|p|..];
    if |t| == |p| {
      assert t == p;
    } else {
      JoinAppend(p, t[|p|..]);
      assert Join(t) == Join(p) + "/" + Join(t[|p|..]);
    }
  }

  lemma {:induction false} TailMatches(p: seq<string>, t: seq<string>)
    requires forall i :: 0 <= i < |p| ==> p[i] != MULTI && p[i] != SINGLE
    ensures WildcardMatches(p + ["#"], t) <==> p <= t
  {
    var f := p + ["#"];
    assert forall i :: 0 <= i < |p| ==> f[i] == p[i];
    if p <= t {
      assert forall i :: 0 <= i < |p| ==> p[i] == t[i];
    }
  }

  lemma {:induction false} SplitAppend(s: string, rest: string)
    ensures Split(s + "/" + rest) == Split(s) + Split(rest)
    decreases |s|
  {
    if s == "" {
      assert s + "/" + rest == "/" + rest;
    } else {
      var whole := s + "/" + rest;
      SplitAppend(s[1..], rest);
      assert whole[0] == s[0] && whole[1..] == s[1..] + "/" + rest;
      PutFirstAppend(s[0], Split(s[1..]), Split(rest));
    }
  }

  lemma {:induction false} PutFirstAppend(c: char, a: seq<string>, b: seq<string>)
    requires |a| >= 1
    ensures PutFirst(c, a + b) == PutFirst(c, a) + b
  {
    assert (a + b)[1..] == a[1..] + b;
  }

  lemma {:induction false} JoinAppend(a: seq<string>, b: seq<string>)
    requires |a| >= 1 && |b| >= 1
    ensures Join(a + b) == Join(a) + "/" + Join(b)
    decreases |a|
  {
    if |a| == 1 {
      assert (a + b)[1..] == b;
    } else {
      JoinAppend(a[1..], b);
      assert (a + b)[1..] == a[1..] + b;
    }
  }

  // ---------------------------------------------------------------- what the agent relays

  /** Exclude wins over include; an empty include list means everything. */
  predicate ShouldRelay(topic: string, wanted: seq<string>, unwanted: seq<string>) {
    && (forall f :: f in unwanted ==> !AgentMatches(f, topic))
    && (wanted == [] || exists f :: f in wanted && AgentMatches(f, topic))
  }
}
