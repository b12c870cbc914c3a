/**
  The pulse loop of the noisy-cluster remover: every input pulse whose noisy
  bit is clear is copied to the output, every other one is counted against its
  sensor. `Clean` and `NoisyCount` are the reference definitions; `Scan` is the
  loop itself, visiting pulses front to back.
 */
module Filtering {
  import opened Pulses
  import opened Tallies

  /** Reference: the pulses whose noisy bit is clear, in input order. */
  function Clean(dec: PulseReader, ps: seq<Pulse>): seq<Pulse>
    decreases |ps|
  {
    if |ps| == 0 then []
    else (if IsNoisy(dec, ps[0]) then [] else [ps[0]]) + Clean(dec, ps[1..])
  }

  /** Reference: how many pulses of `ps` are noisy and decode to `sensor`. */
  function NoisyCount(dec: PulseReader, ps: seq<Pulse>, sensor: int): nat
    decreases |ps|
  {
    if |ps| == 0 then 0
    else (if IsNoisy(dec, ps[0]) && SensorID(dec, ps[0]) == sensor then 1 else 0)
         + NoisyCount(dec, ps[1..], sensor)
  }

  /** Reference: how many pulses of `ps` are noisy. */
  function NoisyTotal(dec: PulseReader, ps: seq<Pulse>): nat
    decreases |ps|
  {
    if |ps| == 0 then 0
    else (if IsNoisy(dec, ps[0]) then 1 else 0) + NoisyTotal(dec, ps[1..])
  }

  /** The sensors that have at least one noisy pulse in `ps`. */
  function NoisySensors(dec: PulseReader, ps: seq<Pulse>): set<int> {
    set i | 0 <= i < |ps| && IsNoisy(dec, ps[i]) :: SensorID(dec, ps[i])
  }

  /** What the loop has built so far: the output pulses and the tally. */
  datatype Acc = Acc(kept: seq<Pulse>, removed: Tally)

  /** One iteration of the loop: a clean pulse is copied onto the end of the
      output and the tally is left alone; a noisy pulse leaves the output
      alone and adds one to its own sensor's count and to no other. */
  function Visit(dec: PulseReader, p: Pulse, acc: Acc): (r: Acc)
    ensures !IsNoisy(dec, p) ==> r.kept == acc.kept + [p] && r.removed == acc.removed
    ensures IsNoisy(dec, p) ==> r.kept == acc.kept
    ensures IsNoisy(dec, p) ==> Count(r.removed, SensorID(dec, p)) == Count(acc.removed, SensorID(dec, p)) + 1
    ensures forall s :: s != SensorID(dec, p) ==> Count(r.removed, s) == Count(acc.removed, s)
  {
    if !IsNoisy(dec, p) then Acc(acc.kept + [CopyPulse(p)], acc.removed)
    else Acc(acc.kept, Bump(acc.removed, SensorID(dec, p)))
  }

  lemma NoisySensorsUnfold(dec: PulseReader, ps: seq<Pulse>)
    requires |ps| > 0
    ensures NoisySensors(dec, ps)
         == (if IsNoisy(dec, ps[0]) then {SensorID(dec, ps[0])} else {}) + NoisySensors(dec, ps[1..])
  {
    var tail := ps[1..];
    forall s | s in NoisySensors(dec, ps)
      ensures s in (if IsNoisy(dec, ps[0]) then {SensorID(dec, ps[0])} else {}) + NoisySensors(dec, tail)
    {
      var i :| 0 <= i < |ps| && IsNoisy(dec, ps[i]) && SensorID(dec, ps[i]) == s;
      if i > 0 {
        assert tail[i - 1] == ps[i];
      }
    }
    forall s | s in NoisySensors(dec, tail)
      ensures s in NoisySensors(dec, ps)
    {
      var i :| 0 <= i < |tail| && IsNoisy(dec, tail[i]) && SensorID(dec, tail[i]) == s;
      assert ps[i + 1] == tail[i];
    }
  }

  /** The loop over `ps`, continuing from `acc`. Afterwards the output is the
      old output followed by exactly the clean pulses in input order, each
      sensor's count has grown by its number of noisy pulses, and the tally
      holds an entry for exactly the old sensors plus the noisy ones. */
  function Scan(dec: PulseReader, ps: seq<Pulse>, acc: Acc): (r: Acc)
    decreases |ps|
    ensures r.kept == acc.kept + Clean(dec, ps)
    ensures forall s :: Count(r.removed, s) == Count(acc.removed, s) + NoisyCount(dec, ps, s)
    ensures r.removed.Keys == acc.removed.Keys + NoisySensors(dec, ps)
  {
    if |ps| == 0 then acc
    else
      var next := Visit(dec, ps[0], acc);
      var r := Scan(dec, ps[1..], next);
      ScanStepKept(dec, ps, acc, next, r);
      ScanStepCounts(dec, ps, acc, next, r);
      ScanStepKeys(dec, ps, acc, next, r);
      r
  }

  /** One step of `Scan`, for the output. */
  lemma ScanStepKept(dec: PulseReader, ps: seq<Pulse>, acc: Acc, next: Acc, r: Acc)
    requires |ps| > 0 && next == Visit(dec, ps[0], acc)
    requires r.kept == next.kept + Clean(dec, ps[1..])
    ensures r.kept == acc.kept + Clean(dec, ps)
  {
    assert Clean(dec, ps) == (if IsNoisy(dec, ps[0]) then [] else [ps[0]]) + Clean(dec, ps[1..]);
  }

  /** One step of `Scan`, for the counts. */
  lemma ScanStepCounts(dec: PulseReader, ps: seq<Pulse>, acc: Acc, next: Acc, r: Acc)
    requires |ps| > 0 && next == Visit(dec, ps[0], acc)
    requires forall s :: Count(r.removed, s) == Count(next.removed, s) + NoisyCount(dec, ps[1..], s)
    ensures forall s :: Count(r.removed, s) == Count(acc.removed, s) + NoisyCount(dec, ps, s)
  {
    forall s ensures Count(r.removed, s) == Count(acc.removed, s) + NoisyCount(dec, ps, s) {
      assert NoisyCount(dec, ps, s)
          == (if IsNoisy(dec, ps[0]) && SensorID(dec, ps[0]) == s then 1 else 0) + NoisyCount(dec, ps[1..], s);
    }
  }

  /** One step of `Scan`, for the tally's keys. */
  lemma ScanStepKeys(dec: PulseReader, ps: seq<Pulse>, acc: Acc, next: Acc, r: Acc)
    requires |ps| > 0 && next == Visit(dec, ps[0], acc)
    requires r.removed.Keys == next.removed.Keys + NoisySensors(dec, ps[1..])
    ensures r.removed.Keys == acc.removed.Keys + NoisySensors(dec, ps)
  {
    NoisySensorsUnfold(dec, ps);
  }

  /** Every index one further on. */
  function Shift(xs: seq<nat>): (r: seq<nat>)
    ensures |r| == |xs|
    ensures forall j :: 0 <= j < |xs| ==> r[j] == xs[j] + 1
  {
    seq(|xs|, j requires 0 <= j < |xs| => xs[j] + 1)
  }

  lemma ShiftMembers(xs: seq<nat>, i: nat)
    requires i >= 1
    ensures i in Shift(xs) <==> i - 1 in xs
  {
    if i - 1 in xs {
      var j :| 0 <= j < |xs| && xs[j] == i - 1;
      assert Shift(xs)[j] == i;
    }
    if i in Shift(xs) {
      var j :| 0 <= j < |xs| && Shift(xs)[j] == i;
      assert xs[j] == i - 1;
    }
  }

  /** `KeptIndices` of `ps` from `KeptIndices` of its tail: positions. */
  lemma KeptIndicesStep(dec: PulseReader, ps: seq<Pulse>, rest: seq<nat>, idx: seq<nat>)
    requires |ps| > 0
    requires |rest| == |Clean(dec, ps[1..])|
    requires forall j :: 0 <= j < |rest| ==> rest[j] < |ps| - 1 && Clean(dec, ps[1..])[j] == ps[1..][rest[j]]
    requires forall j, k :: 0 <= j < k < |rest| ==> rest[j] < rest[k]
    requires forall i :: 0 <= i < |ps| - 1 ==> (i in rest <==> !IsNoisy(dec, ps[1..][i]))
    requires idx == (if IsNoisy(dec, ps[0]) then [] else [0]) + Shift(rest)
    ensures |idx| == |Clean(dec, ps)|
    ensures forall j :: 0 <= j < |idx| ==> idx[j] < |ps| && Clean(dec, ps)[j] == ps[idx[j]]
    ensures forall j, k :: 0 <= j < k < |idx| ==> idx[j] < idx[k]
    ensures forall i :: 0 <= i < |ps| ==> (i in idx <==> !IsNoisy(dec, ps[i]))
  {
    var head := if IsNoisy(dec, ps[0]) then [] else [ps[0]];
    assert Clean(dec, ps) == head + Clean(dec, ps[1..]);
    KeptIndicesPositions(dec, ps, rest, idx);
    KeptIndicesMembership(dec, ps, rest, idx);
  }

  lemma KeptIndicesPositions(dec: PulseReader, ps: seq<Pulse>, rest: seq<nat>, idx: seq<nat>)
    requires |ps| > 0
    requires |rest| == |Clean(dec, ps[1..])|
    requires forall j :: 0 <= j < |rest| ==> rest[j] < |ps| - 1 && Clean(dec, ps[1..])[j] == ps[1..][rest[j]]
    requires forall j, k :: 0 <= j < k < |rest| ==> rest[j] < rest[k]
    requires idx == (if IsNoisy(dec, ps[0]) then [] else [0]) + Shift(rest)
    requires Clean(dec, ps) == (if IsNoisy(dec, ps[0]) then [] else [ps[0]]) + Clean(dec, ps[1..])
    ensures |idx| == |Clean(dec, ps)|
    ensures forall j :: 0 <= j < |idx| ==> idx[j] < |ps| && Clean(dec, ps)[j] == ps[idx[j]]
    ensures forall j, k :: 0 <= j < k < |idx| ==> idx[j] < idx[k]
  {
    var d := if IsNoisy(dec, ps[0]) then 0 else 1;
    var kept, tailKept := Clean(dec, ps), Clean(dec, ps[1..]);
    ShiftedPositions(ps, ps[0], d, rest, idx, kept, tailKept);
  }

  /** The position bookkeeping of `KeptIndicesPositions`, stated without the
      keep/drop test: `d` is 1 when the head is kept and 0 when dropped. */
  lemma ShiftedPositions(ps: seq<Pulse>, head: Pulse, d: nat, rest: seq<nat>, idx: seq<nat>,
                         kept: seq<Pulse>, tailKept: seq<Pulse>)
    requires |ps| > 0 && head == ps[0] && d <= 1
    requires |rest| == |tailKept|
    requires forall j :: 0 <= j < |rest| ==> rest[j] < |ps| - 1 && tailKept[j] == ps[1..][rest[j]]
    requires forall j, k :: 0 <= j < k < |rest| ==> rest[j] < rest[k]
    requires idx == (if d == 0 then [] else [0]) + Shift(rest)
    requires kept == (if d == 0 then [] else [head]) + tailKept
    ensures |idx| == |kept|
    ensures forall j :: 0 <= j < |idx| ==> idx[j] < |ps| && kept[j] == ps[idx[j]]
    ensures forall j, k :: 0 <= j < k < |idx| ==> idx[j] < idx[k]
  {
    ShiftedPositionsMatch(ps, head, d, rest, idx, kept, tailKept);
    ShiftedPositionsAscend(d, rest, idx);
  }

  lemma ShiftedPositionsMatch(ps: seq<Pulse>, head: Pulse, d: nat, rest: seq<nat>, idx: seq<nat>,
                              kept: seq<Pulse>, tailKept: seq<Pulse>)
    requires |ps| > 0 && head == ps[0] && d <= 1
    requires |rest| == |tailKept|
    requires forall j :: 0 <= j < |rest| ==> rest[j] < |ps| - 1 && tailKept[j] == ps[1..][rest[j]]
    requires idx == (if d == 0 then [] else [0]) + Shift(rest)
    requires kept == (if d == 0 then [] else [head]) + tailKept
    ensures |idx| == |kept|
    ensures forall j :: 0 <= j < |idx| ==> idx[j] < |ps| && kept[j] == ps[idx[j]]
  {
    forall j | 0 <= j < |idx|
      ensures idx[j] < |ps| && kept[j] == ps[idx[j]]
    {
      if j >= d {
        var q := rest[j - d];
        assert idx[j] == q + 1;
        assert kept[j] == tailKept[j - d] == ps[1..][q] == ps[q + 1];
      }
    }
  }

  lemma ShiftedPositionsAscend(d: nat, rest: seq<nat>, idx: seq<nat>)
    requires d <= 1
    requires forall j, k :: 0 <= j < k < |rest| ==> rest[j] < rest[k]
    requires idx == (if d == 0 then [] else [0]) + Shift(rest)
    ensures forall j, k :: 0 <= j < k < |idx| ==> idx[j] < idx[k]
  {
    var sh := Shift(rest);
    forall j, k | 0 <= j < k < |idx|
      ensures idx[j] < idx[k]
    {
      assert idx[k] == sh[k - d];
      if j >= d {
        assert idx[j] == sh[j - d];
      }
    }
  }

  lemma KeptIndicesMembership(dec: PulseReader, ps: seq<Pulse>, rest: seq<nat>, idx: seq<nat>)
    requires |ps| > 0
    requires forall i :: 0 <= i < |ps| - 1 ==> (i in rest <==> !IsNoisy(dec, ps[1..][i]))
    requires idx == (if IsNoisy(dec, ps[0]) then [] else [0]) + Shift(rest)
    ensures forall i :: 0 <= i < |ps| ==> (i in idx <==> !IsNoisy(dec, ps[i]))
  {
    var sh := Shift(rest);
    forall i | 0 <= i < |ps|
      ensures i in idx <==> !IsNoisy(dec, ps[i])
    {
      if i >= 1 {
        ShiftMembers(rest, i);
        assert ps[1..][i - 1] == ps[i];
        assert i in idx <==> i in sh;
      } else {
        assert 0 !in sh;
      }
    }
  }

  /** The positions of the clean pulses of `ps`, ascending. */
  function KeptIndices(dec: PulseReader, ps: seq<Pulse>): (idx: seq<nat>)
    decreases |ps|
    ensures |idx| == |Clean(dec, ps)|
    ensures forall j :: 0 <= j < |idx| ==> idx[j] < |ps| && Clean(dec, ps)[j] == ps[idx[j]]
    ensures forall j, k :: 0 <= j < k < |idx| ==> idx[j] < idx[k]
    ensures forall i :: 0 <= i < |ps| ==> (i in idx <==> !IsNoisy(dec, ps[i]))
  {
    if |ps| == 0 then []
    else
      var rest := KeptIndices(dec, ps[1..]);
      var idx := (if IsNoisy(dec, ps[0]) then [] else [0]) + Shift(rest);
      KeptIndicesStep(dec, ps, rest, idx);
      idx
  }

  /** Filtering distributes over concatenation: the kept pulses of a split
      input are the kept pulses of each part, one after the other. */
  lemma {:induction false} CleanAppend(dec: PulseReader, a: seq<Pulse>, b: seq<Pulse>)
    ensures Clean(dec, a + b) == Clean(dec, a) + Clean(dec, b)
    decreases |a|
  {
    if |a| == 0 {
      assert a + b == b;
    } else {
      assert (a + b)[1..] == a[1..] + b;
      CleanAppend(dec, a[1..], b);
    }
  }

  /** A pulse is kept exactly when it occurs in the input with its noisy bit clear. */
  lemma {:induction false} CleanMembers(dec: PulseReader, ps: seq<Pulse>, p: Pulse)
    ensures p in Clean(dec, ps) <==> p in ps && !IsNoisy(dec, p)
    decreases |ps|
  {
    if |ps| > 0 {
      CleanMembers(dec, ps[1..], p);
      assert ps == [ps[0]] + ps[1..];
    }
  }

  /** Every input pulse is either kept or counted as dropped. */
  lemma {:induction false} KeptPlusDropped(dec: PulseReader, ps: seq<Pulse>)
    ensures |Clean(dec, ps)| + NoisyTotal(dec, ps) == |ps|
    decreases |ps|
  {
    if |ps| > 0 {
      KeptPlusDropped(dec, ps[1..]);
    }
  }

  /** Filtering an already filtered sequence keeps all of it and drops nothing. */
  lemma {:induction false} CleanIdempotent(dec: PulseReader, ps: seq<Pulse>)
    ensures Clean(dec, Clean(dec, ps)) == Clean(dec, ps)
    ensures NoisyTotal(dec, Clean(dec, ps)) == 0
    decreases |ps|
  {
    if |ps| > 0 {
      CleanIdempotent(dec, ps[1..]);
      var head := if IsNoisy(dec, ps[0]) then [] else [ps[0]];
      CleanAppend(dec, head, Clean(dec, ps[1..]));
      NoisyTotalAppend(dec, head, Clean(dec, ps[1..]));
    }
  }

  lemma {:induction false} NoisyTotalAppend(dec: PulseReader, a: seq<Pulse>, b: seq<Pulse>)
    ensures NoisyTotal(dec, a + b) == NoisyTotal(dec, a) + NoisyTotal(dec, b)
    decreases |a|
  {
    if |a| == 0 {
      assert a + b == b;
    } else {
      assert (a + b)[1..] == a[1..] + b;
      NoisyTotalAppend(dec, a[1..], b);
    }
  }

  /** The loop raises the sum of all counts by exactly the number of noisy pulses. */
  lemma {:induction false} ScanTotal(dec: PulseReader, ps: seq<Pulse>, acc: Acc)
    ensures Total(Scan(dec, ps, acc).removed) == Total(acc.removed) + NoisyTotal(dec, ps)
    decreases |ps|
  {
    if |ps| > 0 {
      var next := Visit(dec, ps[0], acc);
      if IsNoisy(dec, ps[0]) {
        TotalBump(acc.removed, SensorID(dec, ps[0]));
      }
      ScanTotal(dec, ps[1..], next);
    }
  }
}
