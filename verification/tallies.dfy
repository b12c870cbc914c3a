/** The per-sensor count of removed pulses: a `std::map<int, int>`. */
module Tallies {

  type Tally = map<int, int>

  /** The count for a sensor; a sensor not yet in the map reads as 0, as
      `operator[]` on a `std::map` value-initialises a missing entry. */
  function Count(t: Tally, sensor: int): int {
    if sensor in t then t[sensor] else 0
  }

  /** `tally[sensor]++`: that one entry goes up by one, created at 0 when
      missing, and every other entry stays as it was. */
  function Bump(t: Tally, sensor: int): (r: Tally)
    ensures r.Keys == t.Keys + {sensor}
    ensures Count(r, sensor) == Count(t, sensor) + 1
    ensures forall k :: k != sensor ==> Count(r, k) == Count(t, k)
  {
    t[sensor := Count(t, sensor) + 1]
  }

  /** The smallest element of a non-empty set. */
  function SetMin(s: set<int>): (m: int)
    requires s != {}
    ensures m in s && forall x :: x in s ==> m <= x
  {
    MinExists(s);
    var m :| m in s && forall x :: x in s ==> m <= x;
    m
  }

  lemma {:induction false} MinExists(s: set<int>)
    requires s != {}
    ensures exists m :: m in s && forall x :: x in s ==> m <= x
    decreases |s|
  {
    if forall y :: y !in s {
      assert false;
    }
    var y :| y in s;
    if s != {y} {
      MinExists(s - {y});
      var m :| m in s - {y} && forall x :: x in s - {y} ==> m <= x;
      var least := if y < m then y else m;
      forall x | x in s ensures least <= x {
        if x != y {
          assert x in s - {y};
        }
      }
    }
  }

  /** The sum of all counts in the tally, taken from the smallest key up. */
  function Total(t: Tally): int
    decreases |t|
  {
    if |t| == 0 then 0
    else
      var k := SetMin(t.Keys);
      RemoveShrinks(t, k);
      t[k] + Total(t - {k})
  }

  /** Total does not depend on which key is taken out first. */
  lemma {:induction false} TotalRemove(t: Tally, k: int)
    requires k in t
    ensures Total(t) == t[k] + Total(t - {k})
    decreases |t|
  {
    var j := SetMin(t.Keys);
    if j != k {
      RemoveShrinks(t, j);
      RemoveShrinks(t, k);
      TotalRemove(t - {j}, k);
      TotalRemove(t - {k}, j);
      assert t - {j} - {k} == t - {k} - {j};
    }
  }

  lemma RemoveShrinks(t: Tally, k: int)
    requires k in t
    ensures |t - {k}| == |t| - 1
  {
    assert (t - {k}).Keys == t.Keys - {k};
  }

  /** One increment adds exactly one to the sum of all counts. */
  lemma TotalBump(t: Tally, sensor: int)
    ensures Total(Bump(t, sensor)) == Total(t) + 1
  {
    var r := Bump(t, sensor);
    TotalRemove(r, sensor);
    if sensor in t {
      TotalRemove(t, sensor);
      assert r - {sensor} == t - {sensor};
    } else {
      assert r - {sensor} == t;
    }
  }
}
