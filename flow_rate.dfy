/** The arithmetic of one flow-rate sample of the water-flow firmware: the
    32-bit millisecond clock and its wrap-around, the rate in hundredths of a
    litre per minute, the wall-clock validity test and the two-field reading
    that is handed to the telemetry channel. */
module FlowRate {

  datatype Option<T> = None | Some(value: T)

  /** `unsigned long` on the ESP8266 is 32 bits wide. */
  const WORD: int := 0x1_0000_0000
  type u32 = x: int | 0 <= x < WORD

  /** The sampling period, in milliseconds. */
  const PERIOD: u32 := 1000

  /** Wall-clock seconds below this mean the clock has not been synchronised
      (sixteen hours past the epoch). */
  const CLOCK_SENTINEL: int := 8 * 3600 * 2

  /** `current - since` on unsigned 32-bit operands: the one 32-bit value
      that, added to `since` with wrap-around, gives `current`. */
  function Elapsed(current: u32, since: u32): (d: u32)
    ensures (since + d) % WORD == current
  {
    (current - since) % WORD
  }

  /** However often `millis()` has wrapped, the unsigned difference of two
      readings taken `span` milliseconds apart is `span`, provided fewer than
      2^32 milliseconds separate them. */
  lemma ElapsedAcrossRollover(start: nat, span: nat)
    requires span < WORD
    ensures Elapsed((start + span) % WORD, start % WORD) == span
  {
  }

  /** The sampling gate: a sample is taken once at least one period has passed. */
  predicate GateOpen(current: u32, since: u32)
    ensures current >= since ==> (GateOpen(current, since) <==> current - since >= PERIOD)
    ensures current < since ==> (GateOpen(current, since) <==> current + WORD - since >= PERIOD)
  {
    Elapsed(current, since) >= PERIOD
  }

  /** The gate opens exactly when at least one period of real time has
      passed, across a wrap of the millisecond counter too. */
  lemma GateOpensAfterPeriod(start: nat, span: nat)
    requires span < WORD
    ensures GateOpen((start + span) % WORD, start % WORD) <==> span >= PERIOD
  {
  }

  /** The flow rate in hundredths of a litre per minute:
      pulses * 1000 / delta / 7.5, rounded to two decimals, is the nearest
      integer to 40000 * pulses / (3 * delta), a half rounded up (both operands
      are non-negative, so up is away from zero). */
  function RateHundredths(pulses: nat, delta: nat): (r: nat)
    requires delta > 0
    ensures 3 * delta * (2 * r - 1) <= 80000 * pulses < 3 * delta * (2 * r + 1)
  {
    RoundHalfUp(80000 * pulses, 3 * delta);
    (80000 * pulses + 3 * delta) / (6 * delta)
  }

  /** (x + e) / 2e is x / e rounded to the nearest integer, a half upwards. */
  lemma RoundHalfUp(x: nat, e: nat)
    requires e > 0
    ensures e * (2 * ((x + e) / (2 * e)) - 1) <= x < e * (2 * ((x + e) / (2 * e)) + 1)
  {
    var n, m := x + e, 2 * e;
    var q := n / m;
    assert n == m * q + n % m;
    assert e * (2 * q - 1) == m * q - e;
    assert e * (2 * q + 1) == m * q + e;
  }

  /** No other count of hundredths is as close to the exact rate. */
  lemma RateIsUnique(pulses: nat, delta: nat, r: int)
    requires delta > 0
    requires 3 * delta * (2 * r - 1) <= 80000 * pulses < 3 * delta * (2 * r + 1)
    ensures r == RateHundredths(pulses, delta)
  {
    var q := RateHundredths(pulses, delta);
    if r < q {
      assert 6 * delta * (q - r) >= 6 * delta * 1 by {
        MulMonotone(6 * delta, 1, q - r);
      }
    } else if r > q {
      assert 6 * delta * (r - q) >= 6 * delta * 1 by {
        MulMonotone(6 * delta, 1, r - q);
      }
    }
  }

  /** More pulses over the same window never give a lower rate. */
  lemma RateMonotone(p1: nat, p2: nat, delta: nat)
    requires delta > 0 && p1 <= p2
    ensures RateHundredths(p1, delta) <= RateHundredths(p2, delta)
  {
    var r1, r2 := RateHundredths(p1, delta), RateHundredths(p2, delta);
    if r1 > r2 {
      MulMonotone(6 * delta, 1, r1 - r2);
    }
  }

  /** The worked figures: no pulses give exactly 0.00, 15 pulses in one
      second give 2.00 and 7 pulses in one second give 0.93. */
  lemma RateExamples(delta: nat)
    requires delta > 0
    ensures RateHundredths(0, delta) == 0
    ensures RateHundredths(15, 1000) == 200
    ensures RateHundredths(7, 1000) == 93
  {
  }

  lemma MulMonotone(a: nat, x: int, y: int)
    requires x <= y
    ensures a * x <= a * y
  {
  }

  /** The clock-validity test applied to `time(nullptr)` before a reading is sent. */
  predicate ClockValid(now: int) {
    now >= CLOCK_SENTINEL
  }

  /** One reading: the wall-clock second it was taken at and its flow rate in
      hundredths of a litre per minute. */
  datatype Reading = Reading(timestamp: int, flowRate: nat)

  /** A value of the JSON document: the timestamp (kept as the clock value it
      is formatted from) or the rounded flow rate. */
  datatype JsonValue = Timestamp(seconds: int) | Number(hundredths: nat)

  const TIMESTAMP_KEY: string := "times_tamp"
  const FLOW_RATE_KEY: string := "flow_rate"

  /** The JSON document built for a reading. */
  function Document(r: Reading): (doc: map<string, JsonValue>)
    ensures doc.Keys == {TIMESTAMP_KEY, FLOW_RATE_KEY}
    ensures doc[TIMESTAMP_KEY] == Timestamp(r.timestamp) && doc[FLOW_RATE_KEY] == Number(r.flowRate)
  {
    map[TIMESTAMP_KEY := Timestamp(r.timestamp), FLOW_RATE_KEY := Number(r.flowRate)]
  }

  /** How a collector reads such a document back: exactly the two fields, each
      of its own kind, or nothing. */
  function ParseReading(doc: map<string, JsonValue>): (r: Option<Reading>)
    ensures r.Some? ==> doc.Keys == {TIMESTAMP_KEY, FLOW_RATE_KEY}
  {
    if doc.Keys == {TIMESTAMP_KEY, FLOW_RATE_KEY}
       && doc[TIMESTAMP_KEY].Timestamp? && doc[FLOW_RATE_KEY].Number?
    then Some(Reading(doc[TIMESTAMP_KEY].seconds, doc[FLOW_RATE_KEY].hundredths))
    else None
  }

  /** A document carries exactly the reading it was built from, and every
      document that parses is the document of what it parses to. */
  lemma DocumentRoundTrip(r: Reading, doc: map<string, JsonValue>)
    ensures ParseReading(Document(r)) == Some(r)
    ensures ParseReading(doc).Some? ==> Document(ParseReading(doc).value) == doc
  {
  }
}
