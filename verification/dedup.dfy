/** The bounded duplicate filter of `TelemetryRouter`: an ordered dictionary used as a FIFO set of the
    keys accepted last, compared with the unbounded set it stands for. */
module Dedup {
  import opened Deques

  datatype Filter<K> = Filter(recent: seq<K>, accepted: seq<K>)

  /** A key in the window is dropped; any other key is accepted and the oldest keys fall out. */
  function Arrive<K(==)>(window: nat, f: Filter<K>, k: K): Filter<K> {
    if k in f.recent then f else Filter(LastN(f.recent + [k], window), f.accepted + [k])
  }

  function Run<K(==)>(window: nat, arrivals: seq<K>): Filter<K> {
    if arrivals == [] then Filter([], [])
    else Arrive(window, Run(window, arrivals[..|arrivals| - 1]), arrivals[|arrivals| - 1])
  }

  /** No arrival repeats a key after `window` or more other keys have arrived for the first time since
      that key did. */
  predicate Timely<K(==)>(window: nat, arrivals: seq<K>) {
    forall j :: 0 <= j < |arrivals| && arrivals[j] in Firsts(arrivals[..j]) ==>
      arrivals[j] in LastN(Firsts(arrivals[..j]), window)
  }

  lemma {:induction false} LastNSnoc<K>(s: seq<K>, k: K, n: nat)
    ensures LastN(LastN(s, n) + [k], n) == LastN(s + [k], n)
  {
  }

  /** The window is always the most recent min(n, window) accepted keys, in acceptance order. */
  lemma {:induction false} WindowIsNewest<K>(window: nat, arrivals: seq<K>)
    ensures Run(window, arrivals).recent == LastN(Run(window, arrivals).accepted, window)
  {
    if arrivals != [] {
      var before := Run(window, arrivals[..|arrivals| - 1]);
      WindowIsNewest(window, arrivals[..|arrivals| - 1]);
      LastNSnoc(before.accepted, arrivals[|arrivals| - 1], window);
    }
  }

  lemma {:induction false} InLastN<K>(s: seq<K>, n: nat, k: K)
    ensures k in LastN(s, n) <==> exists p :: 0 <= p < |s| && s[p] == k && |s| - 1 - p < n
  {
    var last := LastN(s, n);
    var start := |s| - |last|;
    if k in last {
      var q :| 0 <= q < |last| && last[q] == k;
      assert s[start + q] == k;
    }
    forall p | 0 <= p < |s| && s[p] == k && |s| - 1 - p < n ensures k in last {
      assert last[p - start] == k;
    }
  }

  /** A repeat is dropped if and only if fewer than `window` keys were accepted since its own acceptance. */
  lemma {:induction false} DroppedIffRecent<K>(window: nat, arrivals: seq<K>, k: K)
    ensures var f := Run(window, arrivals);
            Arrive(window, f, k) == f
            <==> exists p :: 0 <= p < |f.accepted| && f.accepted[p] == k && |f.accepted| - 1 - p < window
  {
    var f := Run(window, arrivals);
    WindowIsNewest(window, arrivals);
    InLastN(f.accepted, window, k);
    hide Run, LastN;
    assert k !in f.recent ==> |Arrive(window, f, k).accepted| != |f.accepted|;
  }

  /** However small the window, a key that arrives is accepted, and only keys that arrive are. */
  lemma {:induction false} AcceptsWhatArrives<K>(window: nat, arrivals: seq<K>)
    ensures forall k :: k in Run(window, arrivals).accepted <==> k in arrivals
    ensures forall k :: k in Firsts(arrivals) <==> k in arrivals
    ensures Distinct(Firsts(arrivals))
  {
    if arrivals != [] {
      var init, last := arrivals[..|arrivals| - 1], arrivals[|arrivals| - 1];
      AcceptsWhatArrives(window, init);
      WindowIsNewest(window, init);
      assert arrivals == init + [last];
    }
  }

  lemma {:induction false} TimelyPrefix<K>(window: nat, arrivals: seq<K>)
    requires arrivals != []
    ensures var n := |arrivals| - 1;
            Timely(window, arrivals) <==>
              Timely(window, arrivals[..n])
              && (arrivals[n] in Firsts(arrivals[..n]) ==> arrivals[n] in LastN(Firsts(arrivals[..n]), window))
  {
    var n := |arrivals| - 1;
    assert forall j :: 0 <= j <= n ==> arrivals[..n][..j] == arrivals[..j];
    if Timely(window, arrivals) {
      forall j | 0 <= j < n && arrivals[..n][j] in Firsts(arrivals[..n][..j])
        ensures arrivals[..n][j] in LastN(Firsts(arrivals[..n][..j]), window)
      {
        assert arrivals[..n][..j] == arrivals[..j];
      }
    }
    if Timely(window, arrivals[..n])
       && (arrivals[n] in Firsts(arrivals[..n]) ==> arrivals[n] in LastN(Firsts(arrivals[..n]), window)) {
      forall j | 0 <= j < |arrivals| && arrivals[j] in Firsts(arrivals[..j])
        ensures arrivals[j] in LastN(Firsts(arrivals[..j]), window)
      {
        if j < n {
          assert arrivals[..n][..j] == arrivals[..j];
          assert arrivals[..n][j] == arrivals[j];
        }
      }
    }
  }

  lemma {:induction false} TimelyRefinesUnbounded<K>(window: nat, arrivals: seq<K>)
    requires Timely(window, arrivals)
    ensures Run(window, arrivals).accepted == Firsts(arrivals)
  {
    if arrivals != [] {
      var init := arrivals[..|arrivals| - 1];
      TimelyPrefix(window, arrivals);
      TimelyRefinesUnbounded(window, init);
      WindowIsNewest(window, init);
    }
  }

  lemma {:induction false} DistinctOnlyIfTimely<K>(window: nat, arrivals: seq<K>)
    requires Distinct(Run(window, arrivals).accepted)
    ensures Timely(window, arrivals)
  {
    if arrivals != [] {
      var init, last := arrivals[..|arrivals| - 1], arrivals[|arrivals| - 1];
      var before, after := Run(window, init), Run(window, arrivals);
      assert before.accepted <= after.accepted;
      assert forall i :: 0 <= i < |before.accepted| ==> before.accepted[i] == after.accepted[i];
      DistinctOnlyIfTimely(window, init);
      TimelyRefinesUnbounded(window, init);
      WindowIsNewest(window, init);
      assert last !in before.recent ==>
          forall i :: 0 <= i < |before.accepted| ==> before.accepted[i] != after.accepted[|before.accepted|];
      TimelyPrefix(window, arrivals);
    }
  }

  /** The bounded window behaves as the unbounded set, and accepts no key twice, exactly when every
      repeat is timely. */
  lemma {:induction false} ExactlyOnceIffTimely<K>(window: nat, arrivals: seq<K>)
    ensures Distinct(Run(window, arrivals).accepted) <==> Timely(window, arrivals)
    ensures Run(window, arrivals).accepted == Firsts(arrivals) <==> Timely(window, arrivals)
  {
    AcceptsWhatArrives(window, arrivals);
    if Timely(window, arrivals) {
      TimelyRefinesUnbounded(window, arrivals);
    }
    if Distinct(Run(window, arrivals).accepted) {
      DistinctOnlyIfTimely(window, arrivals);
    }
  }

  lemma {:induction false} DifferentKeysAllPass<K>(window: nat, arrivals: seq<K>)
    requires Distinct(arrivals)
    ensures Run(window, arrivals).accepted == arrivals
  {
    if arrivals != [] {
      var init := arrivals[..|arrivals| - 1];
      DifferentKeysAllPass(window, init);
      WindowIsNewest(window, init);
      assert arrivals == init + [arrivals[|arrivals| - 1]];
    }
  }

  /** However large the window, a key that repeats after `window` or more other keys is accepted twice. */
  lemma {:induction false} LateRepeatIsAcceptedTwice<K>(window: nat, k: K, others: seq<K>)
    requires Distinct([k] + others) && |others| >= window
    ensures Run(window, [k] + others + [k]).accepted == [k] + others + [k]
    ensures !Timely(window, [k] + others + [k])
  {
    var first := [k] + others;
    var all := first + [k];
    DifferentKeysAllPass(window, first);
    WindowIsNewest(window, first);
    assert all[..|first|] == first;
    assert k !in Run(window, first).recent by {
      assert forall i :: 1 <= i < |first| ==> first[i] != first[0];
    }
    ExactlyOnceIffTimely(window, all);
    assert all[0] == all[|first|];
  }

  /** As many keys as the window holds cannot make a repeat late. */
  lemma {:induction false} FewKeysAreTimely<K>(window: nat, arrivals: seq<K>)
    requires |Firsts(arrivals)| <= window
    ensures Timely(window, arrivals)
  {
    forall j | 0 <= j < |arrivals| ensures |Firsts(arrivals[..j])| <= window {
      FirstsGrow(arrivals, j);
    }
  }

  lemma {:induction false} FirstsGrow<K>(arrivals: seq<K>, j: nat)
    requires j <= |arrivals|
    ensures |Firsts(arrivals[..j])| <= |Firsts(arrivals)|
  {
    if j == |arrivals| {
      assert arrivals[..j] == arrivals;
    } else {
      var init := arrivals[..|arrivals| - 1];
      FirstsGrow(init, j);
      assert init[..j] == arrivals[..j];
    }
  }
}
