/**
 The surplus calculator: from a power sample to a current limit for one charger,
 with a stop/resume debounce and a hysteresis band remembered per charger.

 `Memory` and `Step` describe one charger as a value; class `Calculator` keeps the
 two maps the program keeps and is proved to follow `Step`.
 */
module SmartCharging {
  import opened Options

  const STOP_CONFIRM_TICKS := 3
  const RUN_CONFIRM_TICKS := 2
  const HYSTERESIS_AMPS := 2

  datatype Sample = Sample(gridW: int, solarW: int, consumptionW: int)

  datatype Limits = Limits(minAmps: int, maxAmps: int)

  datatype Reason =
    | InsufficientSurplus
    | HoldingWhileDebouncing
    | WithinHysteresis
    | SolarMinusConsumption
    | GridFallback

  datatype Request = Request(limitAmps: int, shouldStop: bool, reason: Reason)

  datatype StopState = StopState(isStopped: bool, belowCount: nat, aboveCount: nat)

  /** Everything the calculator remembers about one charger. */
  datatype Memory = Memory(stop: StopState, last: Option<int>)

  const RUNNING := StopState(false, 0, 0)
  const FRESH := Memory(RUNNING, None)

  function HasSolarReading(s: Sample): bool {
    s.solarW > 0 || s.consumptionW > 0
  }

  function Surplus(s: Sample): int {
    if HasSolarReading(s) then s.solarW - s.consumptionW else -s.gridW
  }

  function SurplusReason(s: Sample): Reason {
    if HasSolarReading(s) then SolarMinusConsumption else GridFallback
  }

  function Max(a: int, b: int): int {
    if a < b then b else a
  }

  function Min(a: int, b: int): int {
    if a < b then a else b
  }

  function Abs(x: int): int {
    if x < 0 then -x else x
  }

  function IdealAmps(s: Sample, gridVolt: int): int
    requires gridVolt > 0
  {
    Max(Surplus(s), 0) / gridVolt
  }

  /** One step of the stop/resume debounce, `below` saying whether the ideal current is under the minimum. */
  function Debounce(st: StopState, below: bool): StopState {
    if st.isStopped then
      if below then st.(aboveCount := 0)
      else if st.aboveCount + 1 >= RUN_CONFIRM_TICKS then StopState(false, 0, st.aboveCount + 1)
      else st.(aboveCount := st.aboveCount + 1)
    else
      if !below then st.(belowCount := 0)
      else if st.belowCount + 1 >= STOP_CONFIRM_TICKS then StopState(true, st.belowCount + 1, 0)
      else st.(belowCount := st.belowCount + 1)
  }

  /** The limit chosen once the debounce has been stepped to `st`. */
  function Choose(lim: Limits, st: StopState, last: Option<int>, ideal: int, why: Reason): Request {
    if st.isStopped then
      Request(lim.minAmps, true, InsufficientSurplus)
    else if ideal < lim.minAmps then
      Request(if last.Some? && last.value >= lim.minAmps then last.value else lim.minAmps,
              false, HoldingWhileDebouncing)
    else
      var amps := Min(ideal, lim.maxAmps);
      if last.Some? && last.value > 0 && Abs(amps - last.value) < HYSTERESIS_AMPS then
        Request(last.value, false, WithinHysteresis)
      else
        Request(amps, false, why)
  }

  function Answer(lim: Limits, m: Memory, ideal: int, why: Reason): Request {
    Choose(lim, Debounce(m.stop, ideal < lim.minAmps), m.last, ideal, why)
  }

  /** The memory after a computation; every branch leaves the limit it returned as the last one. */
  function Step(lim: Limits, m: Memory, ideal: int): Memory {
    Memory(Debounce(m.stop, ideal < lim.minAmps), Some(Answer(lim, m, ideal, GridFallback).limitAmps))
  }

  /** The calculator as a value: limits in force and what is remembered of each charger seen. */
  datatype Calc = Calc(limits: Limits, gridVolt: int, mem: map<string, Memory>)
  {
    function Of(id: string): Memory {
      if id in mem then mem[id] else FRESH
    }

    function Computed(id: string, s: Sample): Calc
      requires gridVolt > 0
    {
      this.(mem := mem[id := Step(limits, Of(id), IdealAmps(s, gridVolt))])
    }

    function Asked(id: string, s: Sample): Request
      requires gridVolt > 0
    {
      Answer(limits, Of(id), IdealAmps(s, gridVolt), SurplusReason(s))
    }
  }

  /** The two maps of the program as one map of memories. */
  ghost function Joined(stop: map<string, StopState>, last: map<string, int>): map<string, Memory> {
    map id | id in stop :: Memory(stop[id], Lookup(last, id))
  }

  lemma JoinedUpdate(stop: map<string, StopState>, last: map<string, int>, id: string, st: StopState, amps: int)
    ensures Joined(stop[id := st], last[id := amps]) == Joined(stop, last)[id := Memory(st, Some(amps))]
  {
  }

  class Calculator {
    var minAmps: int
    var maxAmps: int
    const gridVolt: int
    var lastLimit: map<string, int>
    var stopState: map<string, StopState>

    ghost predicate Valid()
      reads this
    {
      gridVolt > 0 && lastLimit.Keys == stopState.Keys
    }

    ghost function Value(): Calc
      reads this
    {
      Calc(Limits(minAmps, maxAmps), gridVolt, Joined(stopState, lastLimit))
    }

    constructor (minAmps: int, maxAmps: int, gridVolt: int)
      requires gridVolt > 0
      ensures Valid()
      ensures Value() == Calc(Limits(minAmps, maxAmps), gridVolt, map[])
    {
      this.minAmps, this.maxAmps, this.gridVolt := minAmps, maxAmps, gridVolt;
      lastLimit, stopState := map[], map[];
    }

    method SetLimits(minAmps: int, maxAmps: int)
      requires Valid()
      modifies this
      ensures Valid()
      ensures Value() == old(Value()).(limits := Limits(minAmps, maxAmps))
    {
      this.minAmps := minAmps;
      this.maxAmps := maxAmps;
    }

    /** The stop/resume counters, updated in place as the program does. */
    static method Confirm(before: StopState, wouldStop: bool) returns (state: StopState)
      ensures state == Debounce(before, wouldStop)
    {
      state := before;
      if state.isStopped {
        if wouldStop {
          state := state.(aboveCount := 0);
        } else {
          state := state.(aboveCount := state.aboveCount + 1);
          if state.aboveCount >= RUN_CONFIRM_TICKS {
            state := state.(isStopped := false, belowCount := 0);
          }
        }
      } else {
        if wouldStop {
          state := state.(belowCount := state.belowCount + 1);
          if state.belowCount >= STOP_CONFIRM_TICKS {
            state := state.(isStopped := true, aboveCount := 0);
          }
        } else {
          state := state.(belowCount := 0);
        }
      }
    }

    /** The choice of limit, from the stepped counters and the last limit. */
    method Limit(state: StopState, prev: Option<int>, ideal: int, why: Reason) returns (r: Request)
      ensures r == Choose(Limits(minAmps, maxAmps), state, prev, ideal, why)
    {
      if state.isStopped {
        return Request(minAmps, true, InsufficientSurplus);
      }
      var idealAmps := ideal;
      if idealAmps < minAmps {
        var holdAmps := minAmps;
        if prev.Some? && prev.value >= minAmps {
          holdAmps := prev.value;
        }
        return Request(holdAmps, false, HoldingWhileDebouncing);
      }
      if idealAmps > maxAmps {
        idealAmps := maxAmps;
      }
      if prev.Some? && prev.value > 0 && Abs(idealAmps - prev.value) < HYSTERESIS_AMPS {
        return Request(prev.value, false, WithinHysteresis);
      }
      return Request(idealAmps, false, why);
    }

    method Compute(chargerID: string, sample: Sample) returns (r: Request)
      requires Valid()
      modifies this
      ensures Valid()
      ensures r == old(Value()).Asked(chargerID, sample)
      ensures Value() == old(Value()).Computed(chargerID, sample)
    {
      var availableW := Surplus(sample);
      if availableW < 0 {
        availableW := 0;
      }
      var idealAmps := availableW / gridVolt;
      var state := RUNNING;
      if chargerID in stopState {
        state := stopState[chargerID];
      }
      state := Confirm(state, idealAmps < minAmps);
      var prev := Lookup(lastLimit, chargerID);
      r := Limit(state, prev, idealAmps, SurplusReason(sample));

      JoinedUpdate(stopState, lastLimit, chargerID, state, r.limitAmps);
      stopState := stopState[chargerID := state];
      if r.reason == WithinHysteresis {
        assert lastLimit == lastLimit[chargerID := r.limitAmps];
      } else {
        lastLimit := lastLimit[chargerID := r.limitAmps];
      }
    }
  }
}
