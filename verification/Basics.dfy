/** Vocabulary shared by every module: optional values, fallible results, Go's 64-bit
    durations, instants, and the whitespace tests behind `strings.TrimSpace`. */
module Basics {

  datatype Option<+T> = None | Some(value: T)

  datatype Result<+T> = Ok(value: T) | Err(error: Reason)

  /** Every text the program reports, one constructor a text; `NoReason` is the empty string. */
  datatype Reason =
    | NoReason
      // telemetry and envelopes
    | EmptyEventID
    | PaddedEventID
    | ZeroEventTime
    | EmptyDeviceID
    | BadPVPower
    | BadLoadPower
    | BadBatterySOC
    | BadPrice
    | MissingPVPower
    | MissingLoadPower
    | MissingBatterySOC
    | MissingPrice
    | EmptySourceDeviceID
    | ZeroReceiveTime
    | NonUTCReceiveTime
    | AvailableWithoutTelemetry
    | UnavailableWithTelemetry
      // classification and health
    | DeviceMismatch
    | EventAfterReceive
    | NotNewerThanState
    | ArrivedLate
    | NoObservation
    | SourceUnavailable
    | NoContact
    | LatestEventTooOld
    | BadInterval
    | BadStaleThreshold
    | BadOfflineThreshold
    | AlreadyProcessed
      // commands
    | FullyCharged
    | SurplusPV
    | BalancedPV
    | AtReserve
    | PriceTooLow
    | PriceHigh
    | PriceHighReserveLimited
    | EmptyReason
    | BadPower
    | ZeroActivePower
    | NonZeroIdlePower
    | UnknownDecisionText
    | BadCapacity
      // persistence
    | InvalidTelemetryRecord
    | ZeroTimestamp
    | NonUTCTimestamp
    | RecordDeviceMismatch
    | BadRecordDisposition
    | StateWithoutAcceptedTelemetry
    | StateMismatch
    | CommandWithoutState
    | CommandEventMismatch
    | InvalidCommandRecord
    | UnknownHealthStatus
    | StorageFailure
    | ConstraintViolated

  const MAX_INT64: int := 0x7FFF_FFFF_FFFF_FFFF
  const MIN_INT64: int := -0x8000_0000_0000_0000
  const TWO_64: int := 0x1_0000_0000_0000_0000

  /** Go's `int` and `time.Duration` arithmetic wraps around at 64 bits. */
  function Wrap64(x: int): int {
    (x - MIN_INT64) % TWO_64 + MIN_INT64
  }

  /** Wrapping around lands in the 64-bit range and moves by a multiple of 2^64, which leaves one result. */
  lemma WrapLaw(x: int)
    ensures -9_223_372_036_854_775_808 <= Wrap64(x) <= 9_223_372_036_854_775_807
    ensures (Wrap64(x) - x) % 18_446_744_073_709_551_616 == 0
  {
    var k := (x - MIN_INT64) / TWO_64;
    assert Wrap64(x) - x == -k * TWO_64;
  }

  /** An instant: nanoseconds from Go's zero time, and whether its location is UTC. */
  datatype Time = Time(ns: int, utc: bool) {
    predicate IsZero() {
      ns == 0
    }

    predicate After(other: Time) {
      ns > other.ns
    }

    function Add(duration: int): Time {
      Time(ns + duration, utc)
    }

    /** `time.Time.Sub` saturates at the largest and smallest duration. */
    function Sub(other: Time): int {
      if ns - other.ns > MAX_INT64 then MAX_INT64
      else if ns - other.ns < MIN_INT64 then MIN_INT64
      else ns - other.ns
    }

    /** A time that may become a durable timestamp: non-zero and in UTC. */
    predicate Durable() {
      !IsZero() && utc
    }
  }

  const ZERO_TIME := Time(0, true)

  /** The duration between two instants, or the end of the 64-bit range nearest to it. */
  lemma SubLaw(a: Time, b: Time)
    ensures a.Sub(b) == a.ns - b.ns
            || (a.Sub(b) == 9_223_372_036_854_775_807 && a.Sub(b) < a.ns - b.ns)
            || (a.Sub(b) == -9_223_372_036_854_775_808 && a.ns - b.ns < a.Sub(b))
    ensures -9_223_372_036_854_775_808 <= a.Sub(b) <= 9_223_372_036_854_775_807
    ensures b.Add(a.ns - b.ns).ns == a.ns
  {
  }

  /** `unicode.IsSpace`. */
  predicate IsSpace(c: char) {
    || '\t' <= c <= '\r'
    || c == ' '
    || c == '\U{85}'
    || c == '\U{A0}'
    || c == '\U{1680}'
    || '\U{2000}' <= c <= '\U{200A}'
    || c == '\U{2028}'
    || c == '\U{2029}'
    || c == '\U{202F}'
    || c == '\U{205F}'
    || c == '\U{3000}'
  }

  /** The code points with Unicode's White_Space property. */
  const WHITE_SPACE: set<int> :=
    { 0x9, 0xA, 0xB, 0xC, 0xD, 0x20, 0x85, 0xA0, 0x1680, 0x2000, 0x2001, 0x2002, 0x2003, 0x2004, 0x2005, 0x2006,
      0x2007, 0x2008, 0x2009, 0x200A, 0x2028, 0x2029, 0x202F, 0x205F, 0x3000 }

  lemma SpacesAreWhite(c: char)
    ensures IsSpace(c) <==> c as int in WHITE_SPACE
  {
  }

  /** `strings.TrimSpace(s) == ""`. */
  predicate Blank(s: string) {
    forall i | 0 <= i < |s| :: IsSpace(s[i])
  }

  /** `strings.TrimSpace(s) != s`. */
  predicate Padded(s: string) {
    s != "" && (IsSpace(s[0]) || IsSpace(s[|s| - 1]))
  }

  /** The text without its leading and trailing spaces. */
  function Trim(s: string, space: char -> bool): string
    decreases |s|
  {
    if s != "" && space(s[0]) then Trim(s[1..], space)
    else if s != "" && space(s[|s| - 1]) then Trim(s[..|s| - 1], space)
    else s
  }

  lemma {:induction false} TrimShortens(s: string, space: char -> bool)
    ensures |Trim(s, space)| <= |s|
    ensures s != "" && (space(s[0]) || space(s[|s| - 1])) ==> |Trim(s, space)| < |s|
    decreases |s|
  {
    if s != "" && space(s[0]) {
      TrimShortens(s[1..], space);
    } else if s != "" && space(s[|s| - 1]) {
      TrimShortens(s[..|s| - 1], space);
    }
  }

  /** Nothing is left of a text of spaces only, and a text without spaces at its ends stays as it is. */
  lemma {:induction false} TrimLaw(s: string, space: char -> bool)
    ensures (forall i :: 0 <= i < |s| ==> space(s[i])) <==> Trim(s, space) == ""
    ensures s != "" && (space(s[0]) || space(s[|s| - 1])) <==> Trim(s, space) != s
    decreases |s|
  {
    TrimShortens(s, space);
    if s != "" && space(s[0]) {
      TrimLaw(s[1..], space);
      assert (forall i :: 0 <= i < |s| ==> space(s[i])) <==> (forall i :: 0 <= i < |s[1..]| ==> space(s[1..][i])) by {
        assert forall i | 1 <= i < |s| :: s[i] == s[1..][i - 1];
      }
    } else if s != "" && space(s[|s| - 1]) {
      TrimLaw(s[..|s| - 1], space);
    }
  }

  /** A text is blank when `strings.TrimSpace` leaves nothing of it, and padded when it changes it. */
  lemma TrimSpaceLaw(s: string)
    ensures Blank(s) <==> Trim(s, IsSpace) == ""
    ensures Padded(s) <==> Trim(s, IsSpace) != s
  {
    TrimLaw(s, IsSpace);
  }
}
