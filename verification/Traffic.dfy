/** Roads with the recorded delays laid over them (domain/state.py, domain/travel.py, scheduler/travel/base.py). */
module Traffic {
  import opened Collections
  import opened Domain

  /** The coarse cell a place lies in. */
  type Cells = Location -> string

  /** The delay counts for a drive between these cells begun then. */
  predicate InForce(o: TrafficOverride, from: string, to: string, at: Moment) {
    && o.from <= at && (o.until.Some? ==> at < o.until.value)
    && (o.origin.Some? ==> o.origin.value == from)
    && (o.dest.Some? ==> o.dest.value == to)
  }

  function Factor(o: TrafficOverride, from: string, to: string, at: Moment): real {
    if InForce(o, from, to, at) then o.multiplier else 1.0
  }

  /** Overlapping delays compound. */
  function Multiplier(overrides: seq<TrafficOverride>, from: string, to: string, at: Moment): real {
    if overrides == [] then 1.0
    else Multiplier(overrides[..|overrides| - 1], from, to, at) * Factor(overrides[|overrides| - 1], from, to, at)
  }

  method TrafficMultiplier(world: World, from: string, to: string, at: Moment) returns (multiplier: real)
    ensures multiplier == Multiplier(world.trafficOverrides, from, to, at)
  {
    multiplier := 1.0;
    for i := 0 to |world.trafficOverrides|
      invariant multiplier == Multiplier(world.trafficOverrides[..i], from, to, at)
    {
      var o := world.trafficOverrides[i];
      assert world.trafficOverrides[..i + 1][..i] == world.trafficOverrides[..i];
      if InForce(o, from, to, at) {
        multiplier := multiplier * o.multiplier;
      }
    }
    assert world.trafficOverrides[..|world.trafficOverrides|] == world.trafficOverrides;
  }

  lemma {:induction false} DelaysCompound(
    first: seq<TrafficOverride>, second: seq<TrafficOverride>, from: string, to: string, at: Moment)
    ensures Multiplier(first + second, from, to, at) ==
            Multiplier(first, from, to, at) * Multiplier(second, from, to, at)
    decreases |second|
  {
    if second == [] {
      assert first + second == first;
    } else {
      var n := |second| - 1;
      assert (first + second)[..|first + second| - 1] == first + second[..n];
      DelaysCompound(first, second[..n], from, to, at);
    }
  }

  /** To the nearest whole number, a half to the even one. */
  function Round(x: real): int {
    var low := x.Floor;
    var over := x - low as real;
    if over < 0.5 || (over == 0.5 && low % 2 == 0) then low else low + 1
  }

  lemma RoundIsNearest(x: real)
    ensures -0.5 <= Round(x) as real - x <= 0.5
    ensures Round(x) as real - x == 0.5 || x - Round(x) as real == 0.5 ==> Round(x) % 2 == 0
  {
  }

  function Scaled(minutes: nat, multiplier: real): nat { Max(0, Round(minutes as real * multiplier)) }

  lemma MoreIsNoQuicker(minutes: nat, x: real, y: real)
    requires x <= y
    ensures Scaled(minutes, x) <= Scaled(minutes, y)
  {
    assert minutes as real * x <= minutes as real * y;
    RoundIsMonotone(minutes as real * x, minutes as real * y);
  }

  /** The base roads with the delays laid over them: more minutes, the same miles. */
  function Delayed(base: Travel, cells: Cells, overrides: seq<TrafficOverride>): Travel {
    (from: Location, to: Location, at: Moment) =>
      var leg := base(from, to, at);
      Leg(Scaled(leg.minutes, Multiplier(overrides, cells(from), cells(to), at)), leg.miles)
  }

  /** The roads as this world knows them: the base alone while nothing is recorded. */
  function RoadsIn(world: World, base: Travel, cells: Cells): Travel {
    if world.trafficOverrides == [] then base else Delayed(base, cells, world.trafficOverrides)
  }

  /** Where the delays compound to nothing, laying them over the base changes nothing, so the shortcut is sound. */
  lemma UndelayedIsTheBase(
    base: Travel, cells: Cells, overrides: seq<TrafficOverride>, from: Location, to: Location, at: Moment)
    requires Multiplier(overrides, cells(from), cells(to), at) == 1.0
    ensures Delayed(base, cells, overrides)(from, to, at) == base(from, to, at)
  {
    var minutes := base(from, to, at).minutes;
    assert (minutes as real).Floor == minutes;
  }

  lemma RoadsAreTheDelayed(world: World, base: Travel, cells: Cells, from: Location, to: Location, at: Moment)
    ensures RoadsIn(world, base, cells)(from, to, at) == Delayed(base, cells, world.trafficOverrides)(from, to, at)
  {
    if world.trafficOverrides == [] {
      UndelayedIsTheBase(base, cells, [], from, to, at);
    }
  }

  lemma RoundIsMonotone(x: real, y: real)
    requires x <= y
    ensures Round(x) <= Round(y)
  {
  }

  lemma {:induction false} MultipliersStayPositive(
    overrides: seq<TrafficOverride>, from: string, to: string, at: Moment)
    requires forall o :: o in overrides ==> o.multiplier > 0.0
    ensures Multiplier(overrides, from, to, at) > 0.0
  {
    if overrides != [] {
      var n := |overrides| - 1;
      assert overrides[n] in overrides;
      MultipliersStayPositive(overrides[..n], from, to, at);
    }
  }

  /** A delay on one corridor, while it lasts: that way by its multiplier, and back not at all. */
  lemma DelaysAreOneWay(base: Travel, cells: Cells, o: TrafficOverride, from: Location, to: Location, at: Moment)
    requires o.origin == Some(cells(from)) && o.dest == Some(cells(to)) && cells(from) != cells(to)
    ensures Delayed(base, cells, [o])(to, from, at) == base(to, from, at)
    ensures Delayed(base, cells, [o])(from, to, at) ==
            if at < o.from || (o.until.Some? && at >= o.until.value) then base(from, to, at)
            else Leg(Scaled(base(from, to, at).minutes, o.multiplier), base(from, to, at).miles)
  {
    assert [o][..0] == [];
    UndelayedIsTheBase(base, cells, [o], to, from, at);
    if at < o.from || (o.until.Some? && at >= o.until.value) {
      UndelayedIsTheBase(base, cells, [o], from, to, at);
    }
  }

  /** A further delay changes exactly the drives it is in force on, and those never for the quicker. */
  lemma FurtherDelay(
    base: Travel, cells: Cells, overrides: seq<TrafficOverride>, o: TrafficOverride,
    from: Location, to: Location, at: Moment)
    ensures !InForce(o, cells(from), cells(to), at) ==>
              Delayed(base, cells, overrides + [o])(from, to, at) == Delayed(base, cells, overrides)(from, to, at)
    ensures o.multiplier >= 1.0 && (forall p :: p in overrides ==> p.multiplier > 0.0) ==>
              Delayed(base, cells, overrides + [o])(from, to, at).minutes >=
              Delayed(base, cells, overrides)(from, to, at).minutes
  {
    var f, t := cells(from), cells(to);
    var before, after := Multiplier(overrides, f, t, at), Multiplier(overrides + [o], f, t, at);
    assert after == before * Factor(o, f, t, at) by {
      assert (overrides + [o])[..|overrides + [o]| - 1] == overrides;
    }
    if o.multiplier >= 1.0 && forall p :: p in overrides ==> p.multiplier > 0.0 {
      MultipliersStayPositive(overrides, f, t, at);
      NeverLess(before, Factor(o, f, t, at));
      MoreIsNoQuicker(base(from, to, at).minutes, before, after);
    }
  }

  lemma NeverLess(x: real, y: real)
    requires x > 0.0 && y >= 1.0
    ensures x <= x * y
  {
  }
}
