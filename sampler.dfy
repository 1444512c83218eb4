/** The pulse counter and the sampler of the water-flow firmware: the
    interrupt handler that counts sensor pulses and `sendFlowRate`, which once
    per period drains the counter, computes the rate and hands a reading to
    the telemetry channel when the wall clock is trustworthy.

    The first half is a value model: the two shared globals as a `Meter`, and
    a run of the device as a sequence of events (a pulse interrupt, or one
    call of `sendFlowRate` with the `millis()` and `time(nullptr)` values it
    reads). The second half is the class `FlowMeter`, whose methods update the
    globals in place and are proved to follow the value model. */
module Sampler {
  import opened FlowRate

  /** The globals `pulse_counter` and `old_time`. */
  datatype Meter = Meter(pulseCounter: u32, oldTime: u32)

  /** What happens between two states of the globals. */
  datatype Event = Pulse | Sample(millis: u32, clock: int)

  /** What one event does: the new globals, the pulses drained from the
      counter and the reading handed to the telemetry channel, if any. */
  datatype Outcome = Outcome(meter: Meter, drained: nat, sent: Option<Reading>)

  /** The interrupt handler: `pulse_counter++` on an unsigned 32-bit counter. */
  function OnPulse(m: Meter): (r: Meter)
    ensures r.oldTime == m.oldTime
    ensures r.pulseCounter == if m.pulseCounter == WORD - 1 then 0 else m.pulseCounter + 1
  {
    m.(pulseCounter := (m.pulseCounter + 1) % WORD)
  }

  /** One call of `sendFlowRate` at `millis()` value `millis`, when
      `time(nullptr)` then reads `clock`. */
  function OnSample(m: Meter, millis: u32, clock: int): (o: Outcome)
    ensures o.drained + o.meter.pulseCounter == m.pulseCounter
    ensures o.sent.Some? ==> ClockValid(o.sent.value.timestamp)
  {
    var delta := Elapsed(millis, m.oldTime);
    if delta < PERIOD then
      Outcome(m, 0, None)
    else
      var rate := RateHundredths(m.pulseCounter, delta);
      Outcome(Meter(0, millis), m.pulseCounter,
              if ClockValid(clock) then Some(Reading(clock, rate)) else None)
  }

  /** One event of a run. No pulse is created or lost by a step, except
      2^32 of them when the counter wraps. */
  function Step(m: Meter, e: Event): (o: Outcome)
    ensures o.drained + o.meter.pulseCounter + WORD * WrapOf(m, e)
         == m.pulseCounter + (if e.Pulse? then 1 else 0)
  {
    match e
    case Pulse => Outcome(OnPulse(m), 0, None)
    case Sample(millis, clock) => OnSample(m, millis, clock)
  }

  /** 1 when the event is a pulse that wraps the counter from 2^32 - 1 to 0. */
  function WrapOf(m: Meter, e: Event): nat {
    if e.Pulse? && m.pulseCounter == WORD - 1 then 1 else 0
  }

  /** The globals after a run of events. */
  function Final(m: Meter, events: seq<Event>): Meter
    decreases |events|
  {
    if events == [] then m else Final(Step(m, events[0]).meter, events[1..])
  }

  /** The pulses drained over a run. */
  function DrainedTotal(m: Meter, events: seq<Event>): nat
    decreases |events|
  {
    if events == [] then 0
    else Step(m, events[0]).drained + DrainedTotal(Step(m, events[0]).meter, events[1..])
  }

  /** The number of times the counter wraps over a run. */
  function Wraps(m: Meter, events: seq<Event>): nat
    decreases |events|
  {
    if events == [] then 0
    else WrapOf(m, events[0]) + Wraps(Step(m, events[0]).meter, events[1..])
  }

  /** The readings sent over a run, in order. */
  function Readings(m: Meter, events: seq<Event>): seq<Reading>
    decreases |events|
  {
    if events == [] then []
    else
      var o := Step(m, events[0]);
      (if o.sent.Some? then [o.sent.value] else []) + Readings(o.meter, events[1..])
  }

  /** The pulses the sensor delivers over a run. */
  function PulseCount(events: seq<Event>): nat
    decreases |events|
  {
    if events == [] then 0 else (if events[0].Pulse? then 1 else 0) + PulseCount(events[1..])
  }

  /** A call of `sendFlowRate` leaves the globals as they were and sends
      nothing exactly when less than one period has elapsed (in unsigned
      32-bit arithmetic) since `old_time`; otherwise `old_time` becomes the
      current `millis()`, the drained count is the counter's previous value
      and the counter is zero. */
  lemma SampleGate(m: Meter, millis: u32, clock: int)
    ensures var o := OnSample(m, millis, clock);
      (o.meter == m && o.drained == 0 && o.sent == None) <==> !GateOpen(millis, m.oldTime)
    ensures var o := OnSample(m, millis, clock);
      GateOpen(millis, m.oldTime) ==> o.meter == Meter(0, millis) && o.drained == m.pulseCounter
  {
  }

  /** A reading is sent exactly when the gate opens and the clock is valid;
      it carries the clock value and the rounded rate of the drained pulses
      over the actual elapsed time. */
  lemma SampleReading(m: Meter, millis: u32, clock: int)
    ensures var o := OnSample(m, millis, clock);
      o.sent.Some? <==> GateOpen(millis, m.oldTime) && ClockValid(clock)
    ensures var o := OnSample(m, millis, clock);
      o.sent.Some? ==>
        o.sent.value.timestamp == clock
        && o.sent.value.flowRate == RateHundredths(o.drained, Elapsed(millis, m.oldTime))
  {
  }

  /** A drain followed by another with no pulse between them drains nothing
      the second time, and a reading sent then says 0.00. */
  lemma SecondDrainIsEmpty(m: Meter, t1: u32, c1: int, t2: u32, c2: int)
    requires GateOpen(t1, m.oldTime) && GateOpen(t2, t1)
    ensures var o1 := OnSample(m, t1, c1);
      var o2 := OnSample(o1.meter, t2, c2);
      o2.drained == 0 && o2.meter.pulseCounter == 0
      && (o2.sent.Some? ==> o2.sent.value.flowRate == 0)
  {
    RateExamples(Elapsed(t2, t1));
  }

  /** Every pulse is either drained by exactly one sample, still in the
      counter, or lost to a wrap of the 32-bit counter (2^32 at a time). */
  lemma {:induction false} PulsesConserved(m: Meter, events: seq<Event>)
    ensures DrainedTotal(m, events) + Final(m, events).pulseCounter + WORD * Wraps(m, events)
         == m.pulseCounter + PulseCount(events)
    decreases |events|
  {
    if events != [] {
      var o := Step(m, events[0]);
      PulsesConserved(o.meter, events[1..]);
      assert o.drained + o.meter.pulseCounter + WORD * WrapOf(m, events[0])
          == m.pulseCounter + (if events[0].Pulse? then 1 else 0);
    }
  }

  /** Every window of a run (the pulses between two drains, the first window
      counted on top of a starting counter `pending`) holds fewer than 2^32
      pulses. `since` is the `old_time` the gate measures against. */
  predicate WindowsFit(pending: nat, since: u32, events: seq<Event>)
    decreases |events|
  {
    events == [] ||
    match events[0]
    case Pulse => pending + 1 < WORD && WindowsFit(pending + 1, since, events[1..])
    case Sample(millis, _) =>
      if GateOpen(millis, since) then WindowsFit(0, millis, events[1..])
      else WindowsFit(pending, since, events[1..])
  }

  /** While every window holds fewer than 2^32 pulses, the counter never
      wraps and drained plus pending pulses are exactly the pulses delivered,
      however long the run. */
  lemma {:induction false} NoPulseLostWithoutWrap(m: Meter, events: seq<Event>)
    requires WindowsFit(m.pulseCounter, m.oldTime, events)
    ensures Wraps(m, events) == 0
    ensures DrainedTotal(m, events) + Final(m, events).pulseCounter == m.pulseCounter + PulseCount(events)
    decreases |events|
  {
    if events != [] {
      NoPulseLostWithoutWrap(Step(m, events[0]).meter, events[1..]);
    }
  }

  /** A run the per-window hypothesis admits although its starting counter
      plus its pulses reach 2^32: the drain empties the full counter first. */
  lemma FullCounterDrainedFirst()
    ensures WindowsFit(WORD - 1, 0, [Sample(1000, 0), Pulse])
    ensures Wraps(Meter(WORD - 1, 0), [Sample(1000, 0), Pulse]) == 0
  {
  }

  /** A sample taken while the clock is invalid sends nothing but still
      drains the counter: those pulses are consumed, and everything drained
      afterwards comes from later pulses only. */
  lemma InvalidClockConsumesPulses(m: Meter, millis: u32, clock: int, later: seq<Event>)
    requires GateOpen(millis, m.oldTime) && !ClockValid(clock)
    ensures var o := OnSample(m, millis, clock);
      o.sent == None && o.drained == m.pulseCounter && o.meter.pulseCounter == 0
      && DrainedTotal(o.meter, later) + Final(o.meter, later).pulseCounter + WORD * Wraps(o.meter, later)
         == PulseCount(later)
  {
    PulsesConserved(OnSample(m, millis, clock).meter, later);
  }

  /** No reading with an unsynchronised timestamp is ever sent. */
  lemma {:induction false} ReadingsHaveValidClock(m: Meter, events: seq<Event>)
    ensures forall i :: 0 <= i < |Readings(m, events)| ==> ClockValid(Readings(m, events)[i].timestamp)
    decreases |events|
  {
    if events != [] {
      var o := Step(m, events[0]);
      ReadingsHaveValidClock(o.meter, events[1..]);
      if o.sent.Some? {
        SampleReading(m, events[0].millis, events[0].clock);
      }
    }
  }

  /** The globals `pulse_counter` and `old_time`, updated in place by the
      interrupt handler and by `sendFlowRate`. The ghost fields count every
      pulse delivered, every pulse drained and every wrap of the counter. */
  class FlowMeter {
    var pulseCounter: u32
    var oldTime: u32
    ghost var pulses: nat
    ghost var drained: nat
    ghost var wraps: nat

    /** No pulse is lost or counted twice, except 2^32 at a time by a wrap. */
    ghost predicate Valid()
      reads this
    {
      drained + pulseCounter + WORD * wraps == pulses
    }

    function State(): Meter
      reads this
    {
      Meter(pulseCounter, oldTime)
    }

    /** Both globals start at zero. */
    constructor ()
      ensures Valid() && State() == Meter(0, 0)
      ensures pulses == 0 && drained == 0 && wraps == 0
    {
      pulseCounter, oldTime := 0, 0;
      pulses, drained, wraps := 0, 0, 0;
    }

    /** `interrupt_handler`: one more pulse, modulo 2^32. */
    method Pulse()
      requires Valid()
      modifies this
      ensures Valid()
      ensures pulseCounter == (old(pulseCounter) + 1) % WORD && oldTime == old(oldTime)
      ensures State() == OnPulse(old(State()))
      ensures pulses == old(pulses) + 1 && drained == old(drained)
    {
      pulseCounter := (pulseCounter + 1) % WORD;
      if pulseCounter == 0 {
        wraps := wraps + 1;
      }
      pulses := pulses + 1;
    }

    /** The read-and-reset between `noInterrupts()` and `interrupts()`: no
        pulse can arrive in between, so it is one atomic step. */
    method Drain() returns (count: u32)
      requires Valid()
      modifies this
      ensures Valid()
      ensures count == old(pulseCounter) && pulseCounter == 0 && oldTime == old(oldTime)
      ensures drained == old(drained) + count && pulses == old(pulses)
    {
      count := pulseCounter;
      pulseCounter := 0;
      drained := drained + count;
    }

    /** `sendFlowRate` at `millis()` value `currentTime`, when `time(nullptr)`
        reads `clock`; `sent` is the reading passed to the channel's `send`
        (whose result is only logged). */
    method SendFlowRate(currentTime: u32, clock: int) returns (sent: Option<Reading>)
      requires Valid()
      modifies this
      ensures Valid() && pulses == old(pulses)
      ensures !GateOpen(currentTime, old(oldTime)) ==>
        State() == old(State()) && sent == None && drained == old(drained)
      ensures GateOpen(currentTime, old(oldTime)) ==>
        oldTime == currentTime && pulseCounter == 0 && drained == old(drained) + old(pulseCounter)
      ensures sent.Some? <==> GateOpen(currentTime, old(oldTime)) && ClockValid(clock)
      ensures sent.Some? ==>
        sent.value == Reading(clock, RateHundredths(old(pulseCounter), Elapsed(currentTime, old(oldTime))))
      ensures sent.Some? ==>
        Document(sent.value)[FLOW_RATE_KEY]
          == Number(RateHundredths(old(pulseCounter), Elapsed(currentTime, old(oldTime))))
      ensures var o := OnSample(old(State()), currentTime, clock);
        State() == o.meter && sent == o.sent && drained == old(drained) + o.drained
    {
      sent := None;
      var deltaTime := (currentTime - oldTime) % WORD;
      if deltaTime >= PERIOD {
        oldTime := currentTime;
        var pulseCount := Drain();
        var flowRate := RateHundredths(pulseCount, deltaTime);
        if clock < CLOCK_SENTINEL {
          return;
        }
        sent := Some(Reading(clock, flowRate));
      }
    }
  }
}
