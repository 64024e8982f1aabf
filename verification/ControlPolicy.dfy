/** Battery commands, and the policy that decides one from the latest household state. */
module ControlPolicy {
  import opened Basics
  import opened Observations
  import opened LatestState

  const NANOS_PER_HOUR := 3_600_000_000_000
  const MINIMUM_DISCHARGE_SOC_PERCENT := 20.0
  const DISCHARGE_PRICE_EUR_PER_KWH := 0.30

  function Hours(duration: int): real {
    duration as real / NANOS_PER_HOUR as real
  }

  datatype Decision = Charge | Discharge | Idle | UnknownDecision

  datatype Command = Command(decision: Decision, powerKW: real, reason: Reason) {
    predicate Valid() {
      CommandError(this).None?
    }
  }

  /** `Command.Validate`. */
  function CommandError(c: Command): Option<Reason> {
    if c.reason.NoReason? then Some(EmptyReason)
    else if c.powerKW < 0.0 then Some(BadPower)
    else
      match c.decision
      case Charge | Discharge =>
        if c.powerKW == 0.0 then Some(ZeroActivePower) else None
      case Idle =>
        if c.powerKW != 0.0 then Some(NonZeroIdlePower) else None
      case UnknownDecision => Some(UnknownDecisionText)
  }

  /** The valid commands, and the fault that a refusal names. */
  lemma CommandLaw(c: Command)
    ensures c.Valid() <==>
            && !c.reason.NoReason?
            && match c.decision
               case Charge | Discharge => c.powerKW > 0.0
               case Idle => c.powerKW == 0.0
               case UnknownDecision => false
    ensures !c.Valid() ==>
              match CommandError(c).value
              case EmptyReason => c.reason.NoReason?
              case BadPower => c.powerKW < 0.0
              case ZeroActivePower => c.decision in {Charge, Discharge} && c.powerKW == 0.0
              case NonZeroIdlePower => c.decision == Idle && c.powerKW != 0.0
              case UnknownDecisionText => c.decision == UnknownDecision
              case _ => false
  {
  }

  datatype Policy = Policy(batteryCapacityKWh: real, interval: int) {
    predicate Valid() {
      batteryCapacityKWh > 0.0 && interval > 0
    }

    function MaximumDischargePowerKW(socPercent: real): real
      requires Valid()
    {
      var energyAboveReserveKWh :=
        (socPercent - MINIMUM_DISCHARGE_SOC_PERCENT) / MAXIMUM_SOC_PERCENT * batteryCapacityKWh;
      energyAboveReserveKWh / Hours(interval)
    }

    function Decide(state: State): Command
      requires Valid()
    {
      var netPowerKW := state.pvPowerKW - state.loadPowerKW;
      if netPowerKW > 0.0 then
        if state.batterySOCPercent >= MAXIMUM_SOC_PERCENT then
          Command(Idle, 0.0, FullyCharged)
        else
          Command(Charge, netPowerKW, SurplusPV)
      else if netPowerKW == 0.0 then
        Command(Idle, 0.0, BalancedPV)
      else if state.batterySOCPercent <= MINIMUM_DISCHARGE_SOC_PERCENT then
        Command(Idle, 0.0, AtReserve)
      else if state.priceEURPerKWh < DISCHARGE_PRICE_EUR_PER_KWH then
        Command(Idle, 0.0, PriceTooLow)
      else if -netPowerKW > MaximumDischargePowerKW(state.batterySOCPercent) then
        Command(Discharge, MaximumDischargePowerKW(state.batterySOCPercent), PriceHighReserveLimited)
      else
        Command(Discharge, -netPowerKW, PriceHigh)
    }
  }

  /** `NewPolicy`. */
  function NewPolicy(batteryCapacityKWh: Float, interval: int): (result: Result<Policy>)
    ensures result.Ok? ==> result.value.Valid()
  {
    if batteryCapacityKWh.NonFinite? || batteryCapacityKWh.value <= 0.0 then
      Err(BadCapacity)
    else if interval <= 0 then Err(BadInterval)
    else Ok(Policy(batteryCapacityKWh.value, interval))
  }

  /** A policy exists exactly for a finite positive capacity and a positive interval, and is for these. */
  lemma NewPolicyLaw(capacity: Float, interval: int)
    ensures NewPolicy(capacity, interval) ==
            if capacity.Finite? && capacity.value > 0.0 then
              if interval >= 1 then Ok(Policy(capacity.value, interval)) else Err(BadInterval)
            else Err(BadCapacity)
  {
  }

  /** Every decided command passes `Command.Validate`, whatever state it was decided from. */
  lemma DecidedCommandIsValid(policy: Policy, state: State)
    requires policy.Valid()
    ensures policy.Decide(state).Valid()
  {
    if state.batterySOCPercent > MINIMUM_DISCHARGE_SOC_PERCENT {
      LimitIsPositive(policy, state.batterySOCPercent);
    }
  }

  /** When the battery is charged, discharged and left alone, and with how much power. A surplus charges it
      unless it is full; a deficit discharges it above 20 percent when power costs at least 0.30, with what
      the house lacks or, if that is more, with exactly the energy above 20 percent. */
  lemma DecisionLaw(policy: Policy, state: State)
    requires policy.Valid()
    ensures var c := policy.Decide(state);
            var soc := state.batterySOCPercent;
            var surplus := state.pvPowerKW - state.loadPowerKW;
            var hours := policy.interval as real / 3_600_000_000_000.0;
            var above := (soc - 20.0) / 100.0 * policy.batteryCapacityKWh;
            && (c.decision.Charge? <==> surplus > 0.0 && soc < 100.0)
            && (c.decision.Charge? ==> c.powerKW == surplus)
            && (c.decision.Discharge? <==> surplus < 0.0 && soc > 20.0 && state.priceEURPerKWh >= 0.30)
            && (c.decision.Discharge? ==>
                  if -surplus * hours <= above then c.powerKW == -surplus else c.powerKW * hours == above)
            && (!c.decision.Charge? && !c.decision.Discharge? ==> c.decision.Idle? && c.powerKW == 0.0)
  {
    var hours := Hours(policy.interval);
    var above := (state.batterySOCPercent - 20.0) / 100.0 * policy.batteryCapacityKWh;
    var lack := state.loadPowerKW - state.pvPowerKW;
    assert hours > 0.0;
    QuotientOrder(above, hours, lack);
  }

  lemma QuotientOrder(a: real, b: real, c: real)
    requires b > 0.0
    ensures a / b * b == a
    ensures c <= a / b <==> c * b <= a
  {
    var q := a / b;
    assert q * b == a;
    if c <= q {
      assert (q - c) * b >= 0.0;
    } else {
      assert (c - q) * b > 0.0;
    }
  }

  /** The decision law for the state an event leaves, in the event's own measurements. */
  lemma DecisionOnEvent(policy: Policy, event: Telemetry)
    requires policy.Valid()
    ensures var c := policy.Decide(StateOf(event));
            && (c.decision.Charge? <==> event.pvPowerKW > event.loadPowerKW && event.batterySOCPercent < 100.0)
            && (c.decision.Charge? ==> c.powerKW == event.pvPowerKW - event.loadPowerKW)
            && (c.decision.Discharge? <==>
                  && event.loadPowerKW > event.pvPowerKW
                  && event.batterySOCPercent > 20.0
                  && event.priceEURPerKWh >= 0.30)
            && (c.decision.Discharge? ==> 0.0 < c.powerKW <= event.loadPowerKW - event.pvPowerKW)
  {
    DecisionLaw(policy, StateOf(event));
    DecidedCommandIsValid(policy, StateOf(event));
    DecisionReason(policy, StateOf(event));
    hide Hours, Policy.MaximumDischargePowerKW;
  }

  /** The reason given for a decision names its cause. */
  lemma DecisionReason(policy: Policy, state: State)
    requires policy.Valid()
    ensures var c := policy.Decide(state);
            var surplus := state.pvPowerKW - state.loadPowerKW;
            && (c.reason.SurplusPV? <==> c.decision.Charge?)
            && (c.reason.FullyCharged? <==> surplus > 0.0 && state.batterySOCPercent >= 100.0)
            && (c.reason.BalancedPV? <==> surplus == 0.0)
            && (c.reason.AtReserve? <==> surplus < 0.0 && state.batterySOCPercent <= 20.0)
            && (c.reason.PriceTooLow? <==>
                  surplus < 0.0 && state.batterySOCPercent > 20.0 && state.priceEURPerKWh < 0.30)
            && (c.reason.PriceHigh? <==> c.decision.Discharge? && c.powerKW == -surplus)
            && (c.reason.PriceHighReserveLimited? <==> c.decision.Discharge? && c.powerKW < -surplus)
  {
  }

  lemma LimitIsPositive(policy: Policy, soc: real)
    requires policy.Valid()
    requires soc > MINIMUM_DISCHARGE_SOC_PERCENT
    ensures policy.MaximumDischargePowerKW(soc) > 0.0
  {
  }
}
