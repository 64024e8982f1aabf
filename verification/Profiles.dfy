/** The shape of a simulated day: when the sun is up, when the house and the market want power most, and how
    much more. */
module Profiles {
  import opened Basics
  import opened Simulator

  /** The half-wave and the bell curve, by what is known of `sin(pi * x)` and `exp(-x * x / 2)`. */
  ghost predicate Shaped(nature: Nature) {
    HalfWave(nature.sine) && BellCurve(nature.bell)
  }

  ghost predicate HalfWave(sine: real -> real) {
    && (forall x :: 0.0 < x < 1.0 ==> 3.0 * x * (1.0 - x) <= sine(x) <= 1.0)
    && sine(0.5) == 1.0
    && (forall x :: sine(1.0 - x) == sine(x))
  }

  ghost predicate BellCurve(bell: real -> real) {
    bell(0.0) == 1.0 && forall x :: 0.0 < bell(x) && bell(x) * (1.0 + x * x / 2.0) <= 1.0
  }

  /** The hour of the day is read off the clock time, and repeats every day. */
  lemma ClockHour(day: int, hour: int, minute: int, second: int, rest: int)
    requires 0 <= hour < 24 && 0 <= minute < 60 && 0 <= second < 60 && 0 <= rest < 1_000_000_000
    ensures var at := ((((day * 24 + hour) * 60 + minute) * 60) + second) * 1_000_000_000 + rest;
            HourOfDay(Time(at, true)) == hour as real + minute as real / 60.0 + second as real / 3600.0
  {
    var seconds := (hour * 60 + minute) * 60 + second;
    WholeSeconds(day, seconds, rest);
    assert seconds as real / 3600.0 == hour as real + minute as real / 60.0 + second as real / 3600.0;
  }

  lemma WholeSeconds(day: int, seconds: int, rest: int)
    requires 0 <= seconds < 86_400 && 0 <= rest < 1_000_000_000
    ensures HourOfDay(Time((day * 86_400 + seconds) * 1_000_000_000 + rest, true)) == seconds as real / 3600.0
  {
    assert ((day * 86_400 + seconds) * 1_000_000_000 + rest) / 1_000_000_000 == day * 86_400 + seconds;
    assert (day * 86_400 + seconds) % 86_400 == seconds;
  }

  /** A profile hour never leaves the day. */
  lemma HourInDay(at: Time)
    ensures 0.0 <= HourOfDay(at) < 24.0
  {
  }

  // ---------------------------------------------------------------------------------------------
  // Sun

  /** There is sun exactly between six and eighteen, never more than the day's peak, at noon exactly that, and
      as much before noon as after it. */
  lemma SunShines(cfg: Config, nature: Nature, at: Time, mirror: Time, factor: real)
    requires Shaped(nature) && cfg.pvPeakPowerKW > 0.0 && factor > 0.0
    requires HourOfDay(at) + HourOfDay(mirror) == 24.0
    ensures var sun := PVPowerKW(cfg, nature, at, factor);
            && (sun > 0.0 <==> 6.0 < HourOfDay(at) < 18.0)
            && 0.0 <= sun <= cfg.pvPeakPowerKW * factor
            && (HourOfDay(at) == 12.0 ==> sun == cfg.pvPeakPowerKW * factor)
            && sun == PVPowerKW(cfg, nature, mirror, factor)
  {
    var hour := HourOfDay(at);
    var x, peak := (hour - 6.0) / 12.0, cfg.pvPeakPowerKW * factor;
    hide *;
    SunParts(cfg, nature, at, factor);
    SunParts(cfg, nature, mirror, factor);
    PeakIsPositive(cfg.pvPeakPowerKW, factor);
    SineAt(nature, x);
    MirrorHour(hour);
    if 6.0 < hour < 18.0 {
      Share(peak, nature.sine(x));
    }
    Whole(peak);
  }

  function Part(whole: real, part: real): real {
    whole * part
  }

  lemma SunParts(cfg: Config, nature: Nature, at: Time, factor: real)
    ensures var hour := HourOfDay(at);
            PVPowerKW(cfg, nature, at, factor) ==
            if 6.0 < hour < 18.0 then Part(cfg.pvPeakPowerKW * factor, nature.sine((hour - 6.0) / 12.0)) else 0.0
  {
    hide HourOfDay;
  }

  lemma PeakIsPositive(peak: real, factor: real)
    requires peak > 0.0 && factor > 0.0
    ensures peak * factor > 0.0
  {
  }

  lemma SineAt(nature: Nature, x: real)
    requires Shaped(nature)
    ensures 0.0 < x < 1.0 ==> 0.0 < nature.sine(x) <= 1.0
    ensures nature.sine(1.0 - x) == nature.sine(x)
    ensures x == 0.5 ==> nature.sine(x) == 1.0
  {
    if 0.0 < x < 1.0 {
      assert x * (1.0 - x) > 0.0;
    }
  }

  lemma MirrorHour(hour: real)
    ensures (24.0 - hour - 6.0) / 12.0 == 1.0 - (hour - 6.0) / 12.0
    ensures 6.0 < hour < 18.0 <==> 0.0 < (hour - 6.0) / 12.0 < 1.0
    ensures hour == 12.0 ==> (hour - 6.0) / 12.0 == 0.5
  {
  }

  lemma Share(whole: real, part: real)
    requires whole > 0.0 && 0.0 < part <= 1.0
    ensures 0.0 < Part(whole, part) <= whole
  {
    assert whole * (1.0 - part) >= 0.0;
  }

  lemma Whole(whole: real)
    ensures Part(whole, 1.0) == whole
  {
  }

  /** At four in the afternoon there is still more than two fifths of the day's peak. */
  lemma SunAtFour(cfg: Config, nature: Nature, at: Time, factor: real)
    requires Shaped(nature) && cfg.pvPeakPowerKW > 0.0 && factor > 0.0 && HourOfDay(at) == 16.0
    ensures PVPowerKW(cfg, nature, at, factor) >= 0.4 * (cfg.pvPeakPowerKW * factor)
  {
    var peak := cfg.pvPeakPowerKW * factor;
    hide *;
    SunParts(cfg, nature, at, factor);
    PeakIsPositive(cfg.pvPeakPowerKW, factor);
    SineAtFour(nature);
    AtLeastPart(peak, nature.sine((16.0 - 6.0) / 12.0));
  }

  lemma SineAtFour(nature: Nature)
    requires Shaped(nature)
    ensures nature.sine((16.0 - 6.0) / 12.0) >= 0.4
  {
    var x := (16.0 - 6.0) / 12.0;
    assert 0.0 < x < 1.0;
    assert 3.0 * x * (1.0 - x) <= nature.sine(x);
  }

  lemma AtLeastPart(whole: real, part: real)
    requires whole > 0.0 && part >= 0.4
    ensures Part(whole, part) >= 0.4 * whole
  {
    assert whole * (part - 0.4) >= 0.0;
  }

  // ---------------------------------------------------------------------------------------------
  // Bells

  /** A bell is the same at equal distances before and after its peak, midnight or not. */
  lemma AroundTheClock(nature: Nature, hour: real, mirror: real, peak: real, width: real)
    requires width > 0.0 && 0.0 <= hour <= 24.0 && 0.0 <= mirror <= 24.0 && 0.0 <= peak <= 24.0
    requires hour + mirror == 2.0 * peak || hour + mirror == 2.0 * peak + 24.0 || hour + mirror == 2.0 * peak - 24.0
    ensures DailyBell(nature, hour, peak, width) == DailyBell(nature, mirror, peak, width)
    ensures DailyBell(nature, 0.0, peak, width) == DailyBell(nature, 24.0, peak, width)
  {
  }

  /** At its peak a bell is one, a width away from it what the curve says for one, and far away almost nothing. */
  lemma BellAt(nature: Nature, hour: real, peak: real, width: real)
    requires Shaped(nature) && width > 0.0 && 0.0 <= hour <= 24.0 && 0.0 <= peak <= 24.0
    ensures hour == peak ==> DailyBell(nature, hour, peak, width) == 1.0
    ensures hour == peak + width && width <= 12.0 ==> DailyBell(nature, hour, peak, width) == nature.bell(1.0)
    ensures 0.0 < DailyBell(nature, hour, peak, width) <= 1.0
  {
    var d := if hour >= peak then hour - peak else peak - hour;
    var x := (if d <= 24.0 - d then d else 24.0 - d) / width;
    Small(nature, x, 0.0);
    if hour == peak + width && width <= 12.0 {
      OneWidth(width);
    }
  }

  lemma OneWidth(width: real)
    requires width > 0.0
    ensures width / width == 1.0
  {
  }

  lemma Small(nature: Nature, x: real, least: real)
    requires Shaped(nature) && 0.0 <= least && least * least <= x * x
    ensures 0.0 < nature.bell(x) <= 1.0 / (1.0 + least * least / 2.0)
    ensures 1.0 / (1.0 + least * least / 2.0) <= 1.0
  {
    var b, k := nature.bell(x), 1.0 + least * least / 2.0;
    assert b * (1.0 + x * x / 2.0) <= 1.0;
    assert b * k <= b * (1.0 + x * x / 2.0) by {
      assert b * (x * x / 2.0 - least * least / 2.0) >= 0.0;
    }
    assert least * least >= 0.0;
    QuotientBound(b, k);
  }

  lemma QuotientBound(b: real, k: real)
    requires k >= 1.0 && b * k <= 1.0
    ensures b <= 1.0 / k <= 1.0
  {
    var q := 1.0 / k;
    assert q * k == 1.0;
    if b > q {
      assert (b - q) * k > 0.0;
    }
  }

  /** A bell at a distance, the short way around the clock. */
  lemma BellAway(nature: Nature, hour: real, peak: real, width: real, away: real, least: real)
    requires Shaped(nature) && width > 0.0
    requires hour == peak + away || hour == peak - away || hour == peak + 24.0 - away || hour == peak - 24.0 + away
    requires 0.0 <= away <= 12.0 && 0.0 <= least && least * width <= away
    ensures 0.0 < DailyBell(nature, hour, peak, width) <= 1.0 / (1.0 + least * least / 2.0)
  {
    var x := away / width;
    assert x * width == away;
    assert (x - least) * width >= 0.0;
    assert x >= least;
    assert x * x >= least * least by {
      assert (x - least) * (x + least) >= 0.0;
    }
    Small(nature, x, least);
  }

  // ---------------------------------------------------------------------------------------------
  // Load and price

  /** The load, in multiples of the day's base load. */
  function Demand(nature: Nature, hour: real): real {
    1.0 + 1.5 * DailyBell(nature, hour, 7.0, 1.5) + 2.5 * DailyBell(nature, hour, 19.0, 2.0)
  }

  /** The price, in multiples of the day's base price. */
  function Tariff(nature: Nature, hour: real): real {
    1.0 + 0.2 * DailyBell(nature, hour, 7.0, 1.5) - 0.15 * DailyBell(nature, hour, 13.0, 2.5)
    + 0.65 * DailyBell(nature, hour, 19.0, 2.0)
  }

  lemma DemandIsAboveBase(nature: Nature, hour: real)
    requires Shaped(nature) && 0.0 <= hour < 24.0
    ensures Demand(nature, hour) > 1.0
  {
    BellAt(nature, hour, 7.0, 1.5);
    BellAt(nature, hour, 19.0, 2.0);
    hide DailyBell, Shaped;
  }

  lemma DemandInTheMorning(nature: Nature)
    requires Shaped(nature)
    ensures 2.5 <= Demand(nature, 7.0) <= 2.64
    ensures 0.0 <= Demand(nature, 8.5) - (1.0 + 1.5 * nature.bell(1.0)) <= 0.17
  {
    BellAt(nature, 7.0, 7.0, 1.5);
    BellAway(nature, 7.0, 19.0, 2.0, 12.0, 6.0);
    BellAt(nature, 8.5, 7.0, 1.5);
    BellAway(nature, 8.5, 19.0, 2.0, 10.5, 5.25);
    hide DailyBell, Shaped;
  }

  lemma DemandInBetween(nature: Nature)
    requires Shaped(nature)
    ensures Demand(nature, 1.0) <= 1.63 && Demand(nature, 13.0) <= 1.63
  {
    BellAway(nature, 1.0, 7.0, 1.5, 6.0, 4.0);
    BellAway(nature, 1.0, 19.0, 2.0, 6.0, 3.0);
    BellAway(nature, 13.0, 7.0, 1.5, 6.0, 4.0);
    BellAway(nature, 13.0, 19.0, 2.0, 6.0, 3.0);
    hide DailyBell, Shaped;
  }

  lemma DemandAtFour(nature: Nature)
    requires Shaped(nature)
    ensures Demand(nature, 16.0) <= 2.26
  {
    BellAway(nature, 16.0, 7.0, 1.5, 9.0, 6.0);
    BellAway(nature, 16.0, 19.0, 2.0, 3.0, 1.5);
    hide DailyBell, Shaped;
  }

  lemma DemandInTheEvening(nature: Nature)
    requires Shaped(nature)
    ensures 3.5 <= Demand(nature, 19.0) <= 3.55
    ensures 0.0 <= Demand(nature, 21.0) - (1.0 + 2.5 * nature.bell(1.0)) <= 0.07
  {
    BellAt(nature, 19.0, 19.0, 2.0);
    BellAway(nature, 19.0, 7.0, 1.5, 12.0, 8.0);
    BellAt(nature, 21.0, 19.0, 2.0);
    BellAway(nature, 21.0, 7.0, 1.5, 10.0, 6.6);
    hide DailyBell, Shaped;
  }

  lemma TariffInTheMorning(nature: Nature)
    requires Shaped(nature)
    ensures 1.16 <= Tariff(nature, 7.0) <= 1.24
    ensures -0.06 <= Tariff(nature, 8.5) - (1.0 + 0.2 * nature.bell(1.0)) <= 0.05
  {
    BellAt(nature, 7.0, 7.0, 1.5);
    BellAway(nature, 7.0, 13.0, 2.5, 6.0, 2.4);
    BellAway(nature, 7.0, 19.0, 2.0, 12.0, 6.0);
    BellAt(nature, 8.5, 7.0, 1.5);
    BellAway(nature, 8.5, 13.0, 2.5, 4.5, 1.8);
    BellAway(nature, 8.5, 19.0, 2.0, 10.5, 5.25);
    hide DailyBell, Shaped;
  }

  lemma TariffAfterNoon(nature: Nature)
    requires Shaped(nature)
    ensures 0.85 <= Tariff(nature, 13.0) <= 0.991
    ensures 0.0 <= Tariff(nature, 15.5) - (1.0 - 0.15 * nature.bell(1.0)) <= 0.27
  {
    BellAt(nature, 13.0, 13.0, 2.5);
    BellAway(nature, 13.0, 7.0, 1.5, 6.0, 4.0);
    BellAway(nature, 13.0, 19.0, 2.0, 6.0, 3.0);
    BellAt(nature, 15.5, 13.0, 2.5);
    BellAway(nature, 15.5, 7.0, 1.5, 8.5, 5.6);
    BellAway(nature, 15.5, 19.0, 2.0, 3.5, 1.75);
    hide DailyBell, Shaped;
  }

  lemma TariffInTheEvening(nature: Nature)
    requires Shaped(nature)
    ensures 1.61 <= Tariff(nature, 19.0) <= 1.66
    ensures -0.03 <= Tariff(nature, 21.0) - (1.0 + 0.65 * nature.bell(1.0)) <= 0.01
  {
    BellAt(nature, 19.0, 19.0, 2.0);
    BellAway(nature, 19.0, 7.0, 1.5, 12.0, 8.0);
    BellAway(nature, 19.0, 13.0, 2.5, 6.0, 2.4);
    BellAt(nature, 21.0, 19.0, 2.0);
    BellAway(nature, 21.0, 7.0, 1.5, 10.0, 6.6);
    BellAway(nature, 21.0, 13.0, 2.5, 8.0, 3.2);
    hide DailyBell, Shaped;
  }

  lemma PartOrder(whole: real, a: real, b: real)
    requires whole > 0.0
    ensures a < b ==> Part(whole, a) < Part(whole, b)
    ensures Part(whole, 1.0) == whole
  {
    if a < b {
      assert whole * (b - a) > 0.0;
    }
  }

  lemma LoadParts(cfg: Config, nature: Nature, at: Time, factor: real)
    ensures LoadPowerKW(cfg, nature, at, factor)
            == Part(cfg.loadBasePowerKW * factor, Demand(nature, HourOfDay(at)))
  {
    hide DailyBell, HourOfDay;
  }

  lemma PriceParts(cfg: Config, nature: Nature, at: Time, factor: real)
    ensures PriceEURPerKWh(cfg, nature, at, factor)
            == Part(cfg.priceBaseEURPerKWh * factor, Tariff(nature, HourOfDay(at)))
  {
    hide DailyBell, HourOfDay;
  }

  /** The load is always above its base. */
  lemma LoadIsAboveBase(cfg: Config, nature: Nature, at: Time, factor: real)
    requires Shaped(nature) && cfg.loadBasePowerKW > 0.0 && factor > 0.0
    ensures LoadPowerKW(cfg, nature, at, factor) > cfg.loadBasePowerKW * factor > 0.0
  {
    var base := cfg.loadBasePowerKW * factor;
    HourInDay(at);
    hide *;
    PeakIsPositive(cfg.loadBasePowerKW, factor);
    LoadParts(cfg, nature, at, factor);
    DemandIsAboveBase(nature, HourOfDay(at));
    PartOrder(base, 1.0, Demand(nature, HourOfDay(at)));
  }

  /** On one day the load has a peak at seven and a larger one at nineteen. */
  lemma LoadPeaks(cfg: Config, nature: Nature, factor: real, noon: Time, morning: Time, evening: Time)
    requires Shaped(nature) && cfg.loadBasePowerKW > 0.0 && factor > 0.0
    requires HourOfDay(noon) == 13.0 && HourOfDay(morning) == 7.0 && HourOfDay(evening) == 19.0
    ensures LoadPowerKW(cfg, nature, noon, factor) < LoadPowerKW(cfg, nature, morning, factor)
            < LoadPowerKW(cfg, nature, evening, factor)
  {
    var base := cfg.loadBasePowerKW * factor;
    hide *;
    PeakIsPositive(cfg.loadBasePowerKW, factor);
    LoadParts(cfg, nature, noon, factor);
    LoadParts(cfg, nature, morning, factor);
    LoadParts(cfg, nature, evening, factor);
    DemandInBetween(nature);
    DemandInTheMorning(nature);
    DemandInTheEvening(nature);
    PartOrder(base, Demand(nature, 13.0), Demand(nature, 7.0));
    PartOrder(base, Demand(nature, 7.0), Demand(nature, 19.0));
  }

  /** At four in the afternoon the load is at most 2.26 times its base. */
  lemma LoadAtFour(cfg: Config, nature: Nature, at: Time, factor: real)
    requires Shaped(nature) && cfg.loadBasePowerKW > 0.0 && factor > 0.0 && HourOfDay(at) == 16.0
    ensures LoadPowerKW(cfg, nature, at, factor) <= 2.26 * (cfg.loadBasePowerKW * factor)
  {
    var base := cfg.loadBasePowerKW * factor;
    hide *;
    LoadParts(cfg, nature, at, factor);
    PeakIsPositive(cfg.loadBasePowerKW, factor);
    DemandAtFour(nature);
    AtMostPart(base, Demand(nature, 16.0));
  }

  lemma AtMostPart(whole: real, part: real)
    requires whole > 0.0 && part <= 2.26
    ensures Part(whole, part) <= 2.26 * whole
  {
    assert whole * (2.26 - part) >= 0.0;
  }

  /** On one day the price dips below its base at thirteen, and peaks at seven and, higher, at nineteen. */
  lemma PricePeaks(cfg: Config, nature: Nature, factor: real, noon: Time, morning: Time, evening: Time)
    requires Shaped(nature) && cfg.priceBaseEURPerKWh > 0.0 && factor > 0.0
    requires HourOfDay(noon) == 13.0 && HourOfDay(morning) == 7.0 && HourOfDay(evening) == 19.0
    ensures 0.0 < PriceEURPerKWh(cfg, nature, noon, factor) < cfg.priceBaseEURPerKWh * factor
            < PriceEURPerKWh(cfg, nature, morning, factor) < PriceEURPerKWh(cfg, nature, evening, factor)
  {
    var base := cfg.priceBaseEURPerKWh * factor;
    hide *;
    PeakIsPositive(cfg.priceBaseEURPerKWh, factor);
    PriceParts(cfg, nature, noon, factor);
    PriceParts(cfg, nature, morning, factor);
    PriceParts(cfg, nature, evening, factor);
    TariffAfterNoon(nature);
    TariffInTheMorning(nature);
    TariffInTheEvening(nature);
    NoPart(base);
    PartOrder(base, 0.0, Tariff(nature, 13.0));
    PartOrder(base, Tariff(nature, 13.0), 1.0);
    PartOrder(base, 1.0, Tariff(nature, 7.0));
    PartOrder(base, Tariff(nature, 7.0), Tariff(nature, 19.0));
  }

  lemma NoPart(whole: real)
    ensures Part(whole, 0.0) == 0.0
  {
  }
}
