/** Durable device health and the thresholds that drive it. */
module Health {
  import opened Basics

  /** `NoStatus` is Go's zero value: a device that was never observed. */
  datatype HealthStatus = NoStatus | Online | Stale | Offline | Invalid

  datatype DeviceHealth = DeviceHealth(
    status: HealthStatus,
    reason: Reason,
    transitionTime: Time,
    lastContactAt: Time)

  const ZERO_HEALTH := DeviceHealth(NoStatus, NoReason, ZERO_TIME, ZERO_TIME)

  datatype HealthPolicy = HealthPolicy(staleAfter: int, offlineAfter: int) {
    predicate Valid() {
      0 < staleAfter < offlineAfter
    }
  }

  /** Durations are 64-bit: the defaults of two and three intervals may wrap around. */
  function NewHealthPolicy(interval: int, staleAfter: int, offlineAfter: int): Result<HealthPolicy> {
    if interval <= 0 then Err(BadInterval)
    else
      var stale := if staleAfter == 0 then Wrap64(2 * interval) else staleAfter;
      var offline := if offlineAfter == 0 then Wrap64(3 * interval) else offlineAfter;
      if stale <= 0 then Err(BadStaleThreshold)
      else if offline <= stale then Err(BadOfflineThreshold)
      else Ok(HealthPolicy(stale, offline))
  }

  /** As long as three intervals fit a duration: thresholds that are not given are two and three intervals, and
      the policy exists exactly if interval and thresholds are positive and in order. */
  lemma HealthPolicyLaw(interval: int, staleAfter: int, offlineAfter: int)
    requires MIN_INT64 <= interval && 3 * interval <= MAX_INT64
    ensures var stale := if staleAfter == 0 then 2 * interval else staleAfter;
            var offline := if offlineAfter == 0 then 3 * interval else offlineAfter;
            NewHealthPolicy(interval, staleAfter, offlineAfter) ==
            if interval <= 0 then Err(BadInterval)
            else if stale <= 0 then Err(BadStaleThreshold)
            else if offline <= stale then Err(BadOfflineThreshold)
            else Ok(HealthPolicy(stale, offline))
  {
    if 0 < interval {
      assert Wrap64(2 * interval) == 2 * interval && Wrap64(3 * interval) == 3 * interval;
    }
  }

  /** The valid policies are the ones that can be made. */
  lemma ValidIfMade(hp: HealthPolicy)
    ensures hp.Valid() <==> NewHealthPolicy(1, hp.staleAfter, hp.offlineAfter) == Ok(hp)
  {
    HealthPolicyLaw(1, hp.staleAfter, hp.offlineAfter);
    hide NewHealthPolicy;
  }

  /** The default thresholds exist exactly for intervals whose triple still fits a duration, and
      then they are two and three intervals. */
  lemma DefaultHealthPolicy(interval: int)
    requires MIN_INT64 <= interval <= MAX_INT64
    ensures NewHealthPolicy(interval, 0, 0).Ok? <==> 0 < interval && 3 * interval <= MAX_INT64
    ensures NewHealthPolicy(interval, 0, 0).Ok?
            ==> NewHealthPolicy(interval, 0, 0).value == HealthPolicy(2 * interval, 3 * interval)
  {
    if 0 < interval {
      if 2 * interval <= MAX_INT64 {
        assert Wrap64(2 * interval) == 2 * interval;
      } else {
        assert Wrap64(2 * interval) == 2 * interval - TWO_64;
      }
      if MAX_INT64 < 3 * interval && 2 * interval <= MAX_INT64 {
        assert Wrap64(3 * interval) == 3 * interval - TWO_64;
      }
    }
  }
}
