# Water-flow sensor firmware: verified model of the sampling and retry core

The firmware (`esp_code.cc`, an ESP8266 sketch) counts the pulses of a flow
sensor in an interrupt handler. Once per second it drains the count, turns it
into a flow rate in litres per minute and sends a timestamped JSON reading over
a WebSocket. At start-up it joins the WiFi network and waits for NTP time. Each
of these two waits retries a bounded number of times and then restarts the
board.

This project models three pieces of that file and proves what they promise:

- **Pulse counter and sampling gate** (`sampler.dfy`, module `Sampler`).
  - The class `FlowMeter` holds the globals `pulse_counter` and `old_time` as
    32-bit unsigned values and updates them in place.
  - `Pulse` is the interrupt handler.
  - `Drain` is the read-and-reset inside the `noInterrupts()`/`interrupts()`
    bracket, modelled as one atomic step.
  - `SendFlowRate` is `sendFlowRate`. It takes the values of `millis()` and
    `time(nullptr)` as parameters and returns the reading it hands to `send`.
  - Ghost fields count every pulse delivered, every pulse drained and every
    wrap of the counter. The object invariant says these balance.
  - Beside the class is a value model of a whole run: a sequence of events,
    each a pulse interrupt or a call of `sendFlowRate`. `Pulse` is proved to
    do what `OnPulse` does, and `SendFlowRate` what `OnSample` does; `Drain`
    has its own contract. The lemmas about runs (conservation, readings) are
    stated on this value model.
- **Flow-rate arithmetic** (`flow_rate.dfy`, module `FlowRate`).
  - Elapsed time is computed with unsigned 32-bit wrap-around.
  - The rate is modelled exactly, as an integer number of hundredths of a
    litre per minute. `pulses * 1000 / delta / 7.5`, rounded to 2 decimals, is
    the nearest integer to `40000 * pulses / (3 * delta)`, with a half
    rounded up.
  - The clock-validity test is `now >= 8*3600*2`, which is 57600.
  - A reading is the two-field JSON document `times_tamp`, `flow_rate`.
- **Bounded-retry loops** (`retry.dfy`, module `Retry`).
  - A state machine with states `Waiting(attempts)`, `Done(attempts)` and
    `Restarted` (terminal).
  - The WiFi association loop of `setup` and `waitForNTP` are `while` loops,
    each proved to end in the state the machine reaches.
  - Each probe is an abstract function: the answer to the k-th poll.
  - `Setup` strings the two loops together with the single, non-fatal
    WebSocket connect attempt.

Where the firmware's own comments and its code differ, the model follows the
code:

- The comment at esp_code.cc:41 says "Retries up to 30 times", and the one at
  esp_code.cc:112 says "not connected after 30 attempts". In the code a restart
  happens after the 31st failed poll, when `attempts` reaches 31 and
  `attempts > 30` holds (esp_code.cc:52, 112).
- The comment at esp_code.cc:47 says the time must be "greater than
  8*3600*2". In the code the clock counts as synchronised at exactly 57600
  seconds, because `now < 8 * 3600 * 2` is the rejecting test.
- `waitForNTP` reads the clock one more time before it counts the 31st
  attempt. When it restarts, it has made 32 reads, and the last value is never
  tested. `NtpIgnoresLastRead` states this.

## Model

| member | source | states |
|---|---|---|
| `FlowRate.Elapsed` | esp_code.cc:163 | the unsigned difference `d` of `current` and `since` is the 32-bit value that, added to `since` with wrap-around, gives `current` |
| `FlowRate.GateOpen` | esp_code.cc:166 | without rollover the gate opens when `current - since >= 1000`; after a rollover of `millis()` it opens when `current + 2^32 - since >= 1000` |
| `FlowRate.ElapsedAcrossRollover` | esp_code.cc:162-163 | the unsigned difference of two `millis()` readings `span` ms apart is `span`, whatever wrap-around lies between, for any span below 2^32 |
| `FlowRate.GateOpensAfterPeriod` | esp_code.cc:162-166 | the gate `delta_time >= PERIOD` opens exactly when at least 1000 ms of real time have passed, across a rollover of `millis()` too |
| `FlowRate.RateHundredths` | esp_code.cc:176-178 | the result r satisfies r - 1/2 <= 40000·pulses/(3·delta) < r + 1/2, i.e. it is `pulses*1000/delta/7.5` rounded to hundredths, half upward |
| `FlowRate.RateIsUnique` | esp_code.cc:176-178 | any integer that is that close to the exact rate is the computed rate, so the rounding is fully determined |
| `FlowRate.RateMonotone` | esp_code.cc:176-178 | more pulses over the same elapsed time never give a lower rate |
| `FlowRate.RateExamples` | esp_code.cc:176-178 | 0 pulses give 0.00 for every elapsed time, 15 pulses in 1000 ms give 2.00, 7 pulses in 1000 ms give 0.93 |
| `FlowRate.Document` | esp_code.cc:197-199 | the document of a reading has exactly the keys `times_tamp` and `flow_rate`, carrying the reading's clock value and its rounded rate |
| `FlowRate.DocumentRoundTrip` | esp_code.cc:197-199 | a reading's document parses back to exactly that reading, and every parsable document is the document of the reading it parses to |
| `Sampler.OnPulse` | esp_code.cc:36 | `old_time` is untouched and the counter goes up by one, from 2^32 - 1 back to 0 |
| `Sampler.OnSample` | esp_code.cc:161-199 | value model of one `sendFlowRate` call: pulses drained plus the new counter equal the old counter, and any reading sent carries a valid clock value |
| `Sampler.Step` | esp_code.cc:35-37 | one event of a run (a pulse, or a `sendFlowRate` call as at esp_code.cc:161-199) creates or loses no pulse: drained + counter + 2^32 per wrap grows by exactly the pulses of the event |
| `Sampler.SampleGate` | esp_code.cc:161-173 | a call leaves both globals unchanged and drains nothing exactly when the gate is closed; when open, `old_time` becomes the current time, the drained count is the previous counter and the counter is 0 |
| `Sampler.SampleReading` | esp_code.cc:176-199 | a reading is sent exactly when the gate opens and `ClockValid` holds, the test `now < 8 * 3600 * 2` of esp_code.cc:186 failing, i.e. the clock reads at least 57600; it carries that clock value and the rounded rate of the drained pulses over the actual elapsed time |
| `Sampler.SecondDrainIsEmpty` | esp_code.cc:166-178 | two drains with no pulse in between: the second drains 0, leaves the counter at 0 and any reading it sends says 0.00 |
| `Sampler.PulsesConserved` | esp_code.cc:170-173 | over any interleaving of pulses and samples, pulses drained + the counter + 2^32 per counter wrap equal the initial counter plus all pulses delivered |
| `Sampler.NoPulseLostWithoutWrap` | esp_code.cc:28-36 | if every window between two drains (the first on top of the starting counter) holds fewer than 2^32 pulses, the counter never wraps and drained + pending pulses equal the pulses delivered exactly, however long the run |
| `Sampler.FullCounterDrainedFirst` | esp_code.cc:166-173 | a run that starts with a full counter, drains it and then takes one pulse satisfies the per-window hypothesis and never wraps |
| `Sampler.InvalidClockConsumesPulses` | esp_code.cc:166-189 | a sample with an invalid clock sends nothing yet drains the counter to 0, and everything drained later accounts for later pulses only |
| `Sampler.ReadingsHaveValidClock` | esp_code.cc:185-189 | no reading sent during any run carries a clock value below 57600: every reading satisfies `ClockValid`, the test of esp_code.cc:186 |
| `Sampler.FlowMeter.constructor` | esp_code.cc:28-29 | both globals start at 0 and the pulse balance holds |
| `Sampler.FlowMeter.Pulse` | esp_code.cc:35-37 | the counter grows by exactly one modulo 2^32, `old_time` is untouched, and the pulse balance still holds |
| `Sampler.FlowMeter.Drain` | esp_code.cc:170-173 | returns the counter's previous value, leaves the counter at 0 and adds exactly that count to the drained total |
| `Sampler.FlowMeter.SendFlowRate` | esp_code.cc:161-213 | gate closed: nothing changes and nothing is sent; gate open: `old_time` := current time, counter := 0, drained total grows by the old counter; a reading (clock, rounded rate) is sent iff the clock is valid, and its document's `flow_rate` is that rounded rate; the pulse balance holds |
| `Retry.Step` | esp_code.cc:108-117 | one poll never takes a reachable state past 30 attempts, and the board restarts only from 30 or more failed attempts plus one more failed poll (the same step models esp_code.cc:47-56) |
| `Retry.Feed` | esp_code.cc:108-117 | while still waiting after a sequence of answers, every answer was a failure counted as one attempt: attempts grow by the number of answers (the same machine models esp_code.cc:47-56) |
| `Retry.Settle` | esp_code.cc:107-118 | for the WiFi loop and for `waitForNTP` (esp_code.cc:47-56) alike, from any reachable waiting state the loop ends, either returned or restarted, never still waiting |
| `Retry.FeedStaysBounded` | esp_code.cc:107-118 | no sequence of poll answers drives a waiting state past 30 failed attempts (the WiFi loop and `waitForNTP`, esp_code.cc:47-56, alike) |
| `Retry.RestartIsFinal` | esp_code.cc:112-117 | once restarted, no further poll answer changes the state |
| `Retry.DoneIsFinal` | esp_code.cc:107-118 | once returned, no further poll answer changes the state (the WiFi loop and `waitForNTP`, esp_code.cc:47-56, alike) |
| `Retry.RestartEnteredOnce` | esp_code.cc:112-117 | if a prefix of the answers leads to restart, every longer prefix ends in restart too: restart is entered at most once |
| `Retry.SettleIsFeed` | esp_code.cc:107-118 | the loop's end state is the state machine fed the answers of polls `attempts`..30 (the WiFi loop and `waitForNTP`, esp_code.cc:47-56, alike) |
| `Retry.SettleOutcome` | esp_code.cc:107-118 | the loop restarts iff polls 0..30 all fail; it returns at the first successful poll, with `attempts` equal to its index (the WiFi loop and `waitForNTP`, esp_code.cc:47-56, alike) |
| `Retry.AssociateWifi` | esp_code.cc:107-118 | returns as soon as `WiFi.status()` reports a connection, after `attempts` earlier failures; restarts iff all 31 polls fail; agrees with the state machine |
| `Retry.WaitForNtp` | esp_code.cc:43-56 | returns the first clock value that is at least 57600, after `attempts` earlier invalid reads; restarts iff the first 31 values are all invalid, having made a 32nd, untested read |
| `Retry.NtpIgnoresLastRead` | esp_code.cc:47-55 | a clock that first becomes valid at the 32nd read still leads to a restart |
| `Retry.Setup` | esp_code.cc:105-146 | the board restarts iff WiFi association or clock synchronisation exhausts its retries; a failed WebSocket connect is never fatal, and a running board holds a valid clock value |

## Left out

- WiFi scanning and listing (esp_code.cc:70-88), every `Serial` call and every `delay()`: logging and timing only, with no state that the model needs.
- WebSocket `poll`, `onMessage` and the body of `connect`/`send`: they live in a library that is not part of this model. `connect` is an input boolean of `Setup`. `send` is the reading that `SendFlowRate` returns; its result is only logged.
- `configTime` and NTP itself, `time(nullptr)` and `millis()`: clock values are inputs.
- `localtime`/`strftime` formatting and ArduinoJson serialisation: the reading keeps the raw clock value in place of the formatted `DD/MM/YYYY HH:MM:SS` string, and the document is a map from the two keys to values.
- `RateHundredths`: exact rational arithmetic rounded half-up, not the `float`/`double` computation of the firmware. Near an exact half, float rounding may differ by one hundredth.
- Real interrupt concurrency, `pinMode`/`attachInterrupt`: the interrupt handler is an atomic method called between steps, as the interrupt bracket around the drain guarantees for the drain itself.
- What `ESP.restart()` does physically: it is the terminal state `Restarted`, and `Setup` returns `Rebooted`.
- The main `loop()` (esp_code.cc:152-156): it is `poll`, then `sendFlowRate`, then `delay`. A run of the device is the event sequence that the `Sampler` run functions take.
