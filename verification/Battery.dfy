/** The simulated battery, and what one decided command does to it. */
module Battery {
  import opened Observations
  import opened LatestState
  import opened ControlPolicy

  const MINIMUM_BATTERY_SOC_PERCENT := 0.0
  const MAXIMUM_BATTERY_SOC_PERCENT := 100.0

  /** Commands carry magnitudes; discharging takes energy out. */
  function CommandBatteryPowerKW(command: Command): real {
    if command.decision.Discharge? then -command.powerKW else command.powerKW
  }

  function EnergyKWh(socPercent: real, capacityKWh: real): real {
    socPercent / MAXIMUM_BATTERY_SOC_PERCENT * capacityKWh
  }

  function NextBatterySOCPercent(currentSOCPercent: real, batteryPowerKW: real, interval: int, capacityKWh: real): real
    requires capacityKWh > 0.0
  {
    var currentEnergyKWh := currentSOCPercent / MAXIMUM_BATTERY_SOC_PERCENT * capacityKWh;
    var intervalEnergyKWh := batteryPowerKW * Hours(interval);
    var nextEnergyKWh := currentEnergyKWh + intervalEnergyKWh;
    if nextEnergyKWh <= 0.0 then MINIMUM_BATTERY_SOC_PERCENT
    else if nextEnergyKWh >= capacityKWh then MAXIMUM_BATTERY_SOC_PERCENT
    else nextEnergyKWh / capacityKWh * MAXIMUM_BATTERY_SOC_PERCENT
  }

  predicate OnScale(soc: real) {
    MINIMUM_BATTERY_SOC_PERCENT <= soc <= MAXIMUM_BATTERY_SOC_PERCENT
  }

  // ---------------------------------------------------------------------------------------------
  // Real arithmetic

  lemma PercentOfQuotient(energy: real, capacity: real)
    requires capacity > 0.0
    ensures energy / capacity * 100.0 / 100.0 * capacity == energy
    ensures 0.0 <= energy <= capacity ==> 0.0 <= energy / capacity * 100.0 <= 100.0
  {
    var q := energy / capacity;
    assert q * capacity == energy;
    if 0.0 <= energy <= capacity {
      assert 0.0 <= q <= 1.0;
    }
  }

  lemma EnergyOrder(a: real, b: real, capacity: real)
    requires capacity > 0.0
    ensures a <= b <==> EnergyKWh(a, capacity) <= EnergyKWh(b, capacity)
    ensures EnergyKWh(100.0, capacity) == capacity && EnergyKWh(0.0, capacity) == 0.0
  {
    var d := (b - a) / 100.0;
    assert EnergyKWh(b, capacity) - EnergyKWh(a, capacity) == d * capacity;
    if a <= b {
      assert d * capacity >= 0.0;
    } else {
      assert (-d) * capacity > 0.0;
    }
  }

  // ---------------------------------------------------------------------------------------------
  // The battery over one interval

  /** The stored energy moves by the interval's energy, clamped to the battery. */
  lemma NextEnergy(soc: real, power: real, interval: int, capacity: real)
    requires capacity > 0.0
    ensures var next := NextBatterySOCPercent(soc, power, interval, capacity);
            var energy := EnergyKWh(soc, capacity) + power * Hours(interval);
            && OnScale(next)
            && EnergyKWh(next, capacity) ==
               (if energy <= 0.0 then 0.0 else if energy >= capacity then capacity else energy)
            && (energy >= capacity ==> next == 100.0)
  {
    var energy := EnergyKWh(soc, capacity) + power * Hours(interval);
    EnergyOrder(0.0, 100.0, capacity);
    if 0.0 < energy < capacity {
      PercentOfQuotient(energy, capacity);
    }
  }

  /** A charge ends below a floor exactly when the energy would. */
  lemma BelowFloor(soc: real, power: real, interval: int, capacity: real, floor: real)
    requires capacity > 0.0 && OnScale(floor)
    ensures NextBatterySOCPercent(soc, power, interval, capacity) < floor
            <==> floor > 0.0 && EnergyKWh(soc, capacity) + power * Hours(interval) < EnergyKWh(floor, capacity)
  {
    var next := NextBatterySOCPercent(soc, power, interval, capacity);
    NextEnergy(soc, power, interval, capacity);
    EnergyOrder(floor, next, capacity);
    EnergyOrder(floor, 0.0, capacity);
    EnergyOrder(floor, 100.0, capacity);
    EnergyOrder(0.0, floor, capacity);
    hide NextBatterySOCPercent, EnergyKWh, Hours;
  }

  /** An idle interval leaves the battery exactly where it was. */
  lemma IdleHolds(soc: real, interval: int, capacity: real)
    requires capacity > 0.0 && OnScale(soc)
    ensures NextBatterySOCPercent(soc, 0.0, interval, capacity) == soc
  {
    var next := NextBatterySOCPercent(soc, 0.0, interval, capacity);
    NextEnergy(soc, 0.0, interval, capacity);
    EnergyOrder(0.0, soc, capacity);
    EnergyOrder(soc, 100.0, capacity);
    assert EnergyKWh(next, capacity) == EnergyKWh(soc, capacity);
    EnergyOrder(next, soc, capacity);
    EnergyOrder(soc, next, capacity);
  }

  function Min(a: real, b: real): real {
    if a <= b then a else b
  }

  function Max(a: real, b: real): real {
    if a >= b then a else b
  }

  /** The energy, in kWh, of a power kept up over an interval. */
  function PowerKWh(powerKW: real, interval: int): real {
    powerKW * Hours(interval)
  }

  /** The signed energy, in kWh, that a command asks the battery to take in over an interval. */
  function TakenInKWh(command: Command, interval: int): real {
    match command.decision
    case Charge => PowerKWh(command.powerKW, interval)
    case Discharge => -PowerKWh(command.powerKW, interval)
    case _ => 0.0
  }

  /** What a valid command does to the battery, in terms of its decision and power alone: a charge adds its
      energy up to full, a discharge removes it down to empty, and idling changes nothing. */
  lemma CommandMovesEnergy(soc: real, command: Command, interval: int, capacity: real)
    requires command.Valid() && capacity > 0.0 && OnScale(soc)
    ensures var next := NextBatterySOCPercent(soc, CommandBatteryPowerKW(command), interval, capacity);
            var energy := EnergyKWh(soc, capacity);
            var moved := PowerKWh(command.powerKW, interval);
            && OnScale(next)
            && (command.decision.Charge? && interval >= 0 ==>
                  EnergyKWh(next, capacity) == Min(energy + moved, capacity))
            && (command.decision.Discharge? && interval >= 0 ==>
                  EnergyKWh(next, capacity) == Max(energy - moved, 0.0))
            && (command.decision.Idle? ==> next == soc)
    ensures CommandBatteryPowerKW(command) * Hours(interval) == TakenInKWh(command, interval)
  {
    SignedEnergy(command, interval);
    NextEnergy(soc, CommandBatteryPowerKW(command), interval, capacity);
    EnergyOrder(0.0, soc, capacity);
    EnergyOrder(soc, 100.0, capacity);
    if command.decision.Idle? {
      IdleHolds(soc, interval, capacity);
    }
    hide EnergyKWh, NextBatterySOCPercent, Hours, CommandBatteryPowerKW, CommandError;
  }

  lemma SignedEnergy(command: Command, interval: int)
    requires command.Valid()
    ensures CommandBatteryPowerKW(command) * Hours(interval) == TakenInKWh(command, interval)
    ensures command.decision.Charge? || command.decision.Discharge? || command.decision.Idle?
    ensures command.decision.Idle? ==> CommandBatteryPowerKW(command) == 0.0
    ensures interval >= 0 ==> command.powerKW * Hours(interval) >= 0.0
  {
    var hours := Hours(interval);
    assert (-command.powerKW) * hours == -(command.powerKW * hours);
    if hours > 0.0 {
      TimesOrder(0.0, command.powerKW, hours);
    }
  }

  /** What a limited discharge may take out is the energy above the reserve. */
  lemma DischargeLimit(policy: Policy, soc: real)
    requires policy.Valid()
    ensures policy.MaximumDischargePowerKW(soc) * Hours(policy.interval)
            == EnergyKWh(soc, policy.batteryCapacityKWh)
             - EnergyKWh(MINIMUM_DISCHARGE_SOC_PERCENT, policy.batteryCapacityKWh)
  {
    var above := (soc - MINIMUM_DISCHARGE_SOC_PERCENT) / MAXIMUM_SOC_PERCENT * policy.batteryCapacityKWh;
    var hours := Hours(policy.interval);
    assert hours > 0.0;
    assert above / hours * hours == above;
  }

  /** The energy a decided command moves: never below the reserve when it discharges. */
  lemma DecidedEnergy(policy: Policy, state: State)
    requires policy.Valid()
    ensures var command := policy.Decide(state);
            var moved := CommandBatteryPowerKW(command) * Hours(policy.interval);
            && (!command.decision.Discharge? ==> moved >= 0.0)
            && (moved > 0.0 ==> command.decision.Charge?)
            && (command.decision.Discharge? ==>
                  && moved < 0.0
                  && state.batterySOCPercent > MINIMUM_DISCHARGE_SOC_PERCENT
                  && EnergyKWh(state.batterySOCPercent, policy.batteryCapacityKWh) + moved
                     >= EnergyKWh(MINIMUM_DISCHARGE_SOC_PERCENT, policy.batteryCapacityKWh))
  {
    var command := policy.Decide(state);
    var hours := Hours(policy.interval);
    assert hours > 0.0;
    if command.decision.Discharge? {
      var limit := policy.MaximumDischargePowerKW(state.batterySOCPercent);
      LimitIsPositive(policy, state.batterySOCPercent);
      DischargeLimit(policy, state.batterySOCPercent);
      assert command.powerKW <= limit && command.powerKW > 0.0;
      TimesOrder(command.powerKW, limit, hours);
      TimesOrder(0.0, command.powerKW, hours);
      assert (-command.powerKW) * hours == -(command.powerKW * hours);
      hide Hours, EnergyKWh;
    } else {
      TimesOrder(0.0, command.powerKW, hours);
    }
  }

  lemma TimesOrder(a: real, b: real, c: real)
    requires c > 0.0 && a <= b
    ensures a * c <= b * c
    ensures a < b ==> a * c < b * c
  {
    assert (b - a) * c >= 0.0;
    if a < b {
      assert (b - a) * c > 0.0;
    }
  }

  /** What an interval decided from the battery's own charge does: a surplus is stored, up to full; a deficit
      is taken out when power is dear, down to 20 percent; and otherwise the battery is left alone. */
  lemma FaithfulIntervalLaw(policy: Policy, state: State)
    requires policy.Valid() && OnScale(state.batterySOCPercent)
    ensures var soc := state.batterySOCPercent;
            var capacity := policy.batteryCapacityKWh;
            var energy := EnergyKWh(soc, capacity);
            var surplus := PowerKWh(state.pvPowerKW - state.loadPowerKW, policy.interval);
            var next := NextBatterySOCPercent(
                          soc, CommandBatteryPowerKW(policy.Decide(state)), policy.interval, capacity);
            if state.pvPowerKW > state.loadPowerKW then EnergyKWh(next, capacity) == Min(energy + surplus, capacity)
            else if state.pvPowerKW < state.loadPowerKW && soc > 20.0 && state.priceEURPerKWh >= 0.30 then
              EnergyKWh(next, capacity) == Max(energy + surplus, EnergyKWh(20.0, capacity))
            else next == soc
  {
    var soc := state.batterySOCPercent;
    var capacity := policy.batteryCapacityKWh;
    var command := policy.Decide(state);
    var surplus := state.pvPowerKW - state.loadPowerKW;
    hide *;
    DecidedAmount(policy, state);
    DecidedCommandIsValid(policy, state);
    PolicyMeans(policy);
    CommandMovesEnergy(soc, command, policy.interval, capacity);
    FullStaysFull(soc, surplus, policy.interval, capacity);
    ReserveEnergy(soc, capacity);
    TakenDown(EnergyKWh(soc, capacity), EnergyKWh(20.0, capacity), PowerKWh(surplus, policy.interval));
    ScaleEnds(soc, capacity);
  }

  lemma PolicyMeans(policy: Policy)
    requires policy.Valid()
    ensures policy.batteryCapacityKWh > 0.0 && policy.interval > 0
  {
  }

  lemma ReserveEnergy(soc: real, capacity: real)
    requires capacity > 0.0
    ensures EnergyKWh(20.0, capacity) >= 0.0
    ensures soc > 20.0 ==> EnergyKWh(soc, capacity) >= EnergyKWh(20.0, capacity)
  {
    EnergyOrder(0.0, 20.0, capacity);
    EnergyOrder(20.0, soc, capacity);
    hide EnergyKWh;
  }

  /** Taking out a deficit, but no more than there is above a floor. */
  lemma TakenDown(energy: real, floor: real, surplus: real)
    requires floor >= 0.0
    ensures energy >= floor ==> Max(energy - Min(-surplus, energy - floor), 0.0) == Max(energy + surplus, floor)
  {
  }

  /** Equal energies are equal charges. */
  lemma ScaleEnds(soc: real, capacity: real)
    requires capacity > 0.0
    ensures forall next :: OnScale(next) && EnergyKWh(next, capacity) == EnergyKWh(soc, capacity) ==> next == soc
  {
    forall next | EnergyKWh(next, capacity) == EnergyKWh(soc, capacity) ensures next == soc {
      EnergyOrder(next, soc, capacity);
      EnergyOrder(soc, next, capacity);
    }
    hide EnergyKWh;
  }

  /** The decision law in energies. */
  lemma DecidedAmount(policy: Policy, state: State)
    requires policy.Valid()
    ensures var c := policy.Decide(state);
            var soc := state.batterySOCPercent;
            var surplus := PowerKWh(state.pvPowerKW - state.loadPowerKW, policy.interval);
            var capacity := policy.batteryCapacityKWh;
            var moved := PowerKWh(c.powerKW, policy.interval);
            if state.pvPowerKW > state.loadPowerKW && soc < 100.0 then c.decision.Charge? && moved == surplus
            else if state.pvPowerKW < state.loadPowerKW && soc > 20.0 && state.priceEURPerKWh >= 0.30 then
              c.decision.Discharge? && moved == Min(-surplus, EnergyKWh(soc, capacity) - EnergyKWh(20.0, capacity))
            else c.decision.Idle?
  {
    DecisionLaw(policy, state);
    AboveReserve(state.batterySOCPercent, policy.batteryCapacityKWh);
    HoursMeans(policy.interval, state.pvPowerKW - state.loadPowerKW);
    hide EnergyKWh, Policy.Decide, Hours;
  }

  lemma HoursMeans(interval: int, power: real)
    ensures Hours(interval) == interval as real / 3_600_000_000_000.0
    ensures (-power) * Hours(interval) == -(power * Hours(interval))
  {
  }

  lemma FullStaysFull(soc: real, surplus: real, interval: int, capacity: real)
    requires capacity > 0.0 && interval > 0 && OnScale(soc)
    ensures soc >= 100.0 && surplus > 0.0 ==>
              Min(EnergyKWh(soc, capacity) + PowerKWh(surplus, interval), capacity) == EnergyKWh(soc, capacity)
  {
    assert Hours(interval) > 0.0;
    if surplus > 0.0 {
      TimesOrder(0.0, surplus, Hours(interval));
    }
    EnergyOrder(0.0, 100.0, capacity);
    hide EnergyKWh, Hours;
  }

  lemma AboveReserve(soc: real, capacity: real)
    ensures EnergyKWh(soc, capacity) - EnergyKWh(20.0, capacity) == (soc - 20.0) / 100.0 * capacity
  {
  }

  /** Running the command decided from the battery's own charge keeps the charge at or above the
      reserve, or where it was if it was below, and loses energy only when a charge fills it up. */
  lemma DecidedCommandKeepsReserve(policy: Policy, state: State)
    requires policy.Valid() && OnScale(state.batterySOCPercent)
    ensures var soc := state.batterySOCPercent;
            var command := policy.Decide(state);
            var power := CommandBatteryPowerKW(command);
            var next := NextBatterySOCPercent(soc, power, policy.interval, policy.batteryCapacityKWh);
            var clipped := EnergyKWh(soc, policy.batteryCapacityKWh) + TakenInKWh(command, policy.interval)
                           - EnergyKWh(next, policy.batteryCapacityKWh);
            && Min(soc, MINIMUM_DISCHARGE_SOC_PERCENT) <= next <= MAXIMUM_BATTERY_SOC_PERCENT
            && clipped >= 0.0
            && (clipped > 0.0 ==> command.decision.Charge? && next == MAXIMUM_BATTERY_SOC_PERCENT)
  {
    var soc := state.batterySOCPercent;
    var capacity := policy.batteryCapacityKWh;
    var power := CommandBatteryPowerKW(policy.Decide(state));
    var next := NextBatterySOCPercent(soc, power, policy.interval, capacity);
    DecidedEnergy(policy, state);
    DecidedCommandIsValid(policy, state);
    SignedEnergy(policy.Decide(state), policy.interval);
    NextEnergy(soc, power, policy.interval, capacity);
    EnergyOrder(0.0, soc, capacity);
    EnergyOrder(soc, 100.0, capacity);
    EnergyOrder(soc, next, capacity);
    EnergyOrder(MINIMUM_DISCHARGE_SOC_PERCENT, next, capacity);
    EnergyOrder(0.0, MINIMUM_DISCHARGE_SOC_PERCENT, capacity);
    EnergyOrder(MINIMUM_DISCHARGE_SOC_PERCENT, 0.0, capacity);
    EnergyOrder(MINIMUM_DISCHARGE_SOC_PERCENT, 100.0, capacity);
    hide EnergyKWh, NextBatterySOCPercent, Hours, CommandBatteryPowerKW, TakenInKWh, CommandError, Policy.Decide;
  }
}
