/** `Recorder`: samples appended to the current recording, rotation and pruning, proved against `Recordings`. */
module Recorders {
  import opened Options
  import opened Recordings

  class Recorder {
    const lim: Limits
    var files: seq<File>
    var open: Option<string>
    var written: nat
    var disabled: bool
    var lastAt: map<string, real>
    var samples: nat
    var rotations: nat
    var deleted: nat

    function Value(): State
      reads this
    {
      State(files, open, written, disabled, lastAt)
    }

    constructor (lim: Limits, listing: seq<File>)
      ensures this.lim == lim && Value() == State(listing, None, 0, false, map[])
    {
      this.lim := lim;
      files, open, written, disabled, lastAt := listing, None, 0, false, map[];
      samples, rotations, deleted := 0, 0, 0;
    }

    /** `candidate` spells the names tried for a new recording, all different; `disk` is what the disk does.
        Returns the name given to a recording opened now. */
    method Write(topic: string, ts: real, bytes: nat, candidate: nat -> string, disk: Disk, stuck: set<string>)
      returns (name: string)
      requires forall i, j :: i != j ==> candidate(i) != candidate(j)
      modifies this
      ensures old(open).None? ==> !Named(old(files), name)
      ensures Value() == Step(lim, old(Value()), Sample(topic, ts, bytes, name, disk, stuck))
    {
      hide Added, Appended, Pruned, Size, Named;
      name := FreshName(candidate);
      if disabled {
        return;
      }
      if lim.gap > 0.0 {
        if ts - (if topic in lastAt then lastAt[topic] else 0.0) < lim.gap {
          return;
        }
        lastAt := lastAt[topic := ts];
      }
      if disk.NoFile? {
        open, disabled := None, true;
        return;
      }
      if open.None? {
        files, open, written := Added(files, name), Some(name), 0;
      }
      if disk.NoWrite? {
        open, disabled := None, true;
        return;
      }
      files := Appended(files, open.value, bytes);
      written := written + bytes;
      samples := samples + 1;
      if written >= lim.rotateBytes {
        open := None;
        rotations := rotations + 1;
        Prune(stuck);
      }
    }

    /** The first candidate that no file has. */
    method FreshName(candidate: nat -> string) returns (name: string)
      requires forall i, j :: i != j ==> candidate(i) != candidate(j)
      ensures !Named(files, name)
      ensures exists n: nat :: name == candidate(n) && forall m: nat :: m < n ==> Named(files, candidate(m))
    {
      var taken := set i | 0 <= i < |files| :: files[i].name;
      ghost var left := taken;
      var n := 0;
      while Exists(candidate(n))
        invariant forall m: nat :: m < n ==> Named(files, candidate(m))
        invariant left == taken - set m: nat | m < n :: candidate(m)
        decreases |left|
      {
        assert candidate(n) in left;
        left := left - {candidate(n)};
        n := n + 1;
      }
      return candidate(n);
    }

    predicate Exists(name: string)
      reads `files
    {
      Named(files, name)
    }

    /** Deletes the oldest files until the directory is back under the cap. */
    method Prune(stuck: set<string>)
      modifies `files, `deleted
      ensures files == Pruned(old(files), Size(old(files)), lim.maxBytes, stuck)
    {
      var total := Total();
      ghost var before := total;
      var i, kept := 0, [];
      while total > lim.maxBytes && i < |files|
        invariant i <= |files| && files == old(files)
        invariant total >= Size(files[i..])
        invariant Pruned(files, before, lim.maxBytes, stuck) == kept + Pruned(files[i..], total, lim.maxBytes, stuck)
        decreases |files| - i
      {
        var f := files[i];
        assert files[i..][1..] == files[i + 1..];
        if f.name in stuck {
          kept := kept + [f];
        } else {
          total := total - f.size;
          deleted := deleted + 1;
        }
        i := i + 1;
      }
      files := kept + files[i..];
    }

    method Total() returns (total: nat)
      ensures total == Size(files)
    {
      total := 0;
      for i := 0 to |files|
        invariant total + Size(files[i..]) == Size(files)
      {
        assert files[i..][1..] == files[i + 1..];
        total := total + files[i].size;
      }
    }
  }
}
