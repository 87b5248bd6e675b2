# XPT2046 touch-controller driver, modelled in Dafny

This project models the Arduino driver for the XPT2046 resistive touch-screen
controller (`XPT2046.cpp`, `XPT2046.h`). It proves what the driver does on the
serial bus and with the numbers it reads.

The model has four parts:

- **Sampling loop and sample decoding (`_readLoop`).**
  - `Protocol.Sample` turns two received bytes into a 12-bit sample.
  - `Protocol.Iterations` is a function that says how many samples the loop
    takes. The loop polls until two consecutive samples agree or the
    `max_samples` budget runs out.
  - `Driver.Xpt2046.ReadLoop` is the loop itself: a method over a mock bus, proved
    against those functions.
- **Bus traffic of `getRaw` and `powerDown`.**
  - The environment is the class `Hardware.Bus`. It answers the n-th transferred
    byte with `reply(n)` and logs every byte sent and every chip-select edge. It
    also holds the chip-select and PENIRQ levels.
  - `Protocol.Acquire` states the whole outcome of `getRaw` as a function: both
    samples, the exact trace, and the number of bytes used.
  - `Driver.Xpt2046.GetRaw` is proved to produce exactly that outcome.
  - Lemmas show that every exchange is one chip-select frame. They also show that
    the last control byte sent always has power-down bits 00, so PENIRQ stays
    armed.
- **Calibration (`setCalibration`, `begin`).**
  - The swap decision on the wrapped 16-bit deltas.
  - The pair averaging with C++ truncating division.
  - The non-atomic failure path: the points are stored before they are validated.
  - The default calibration installed by `begin`.
- **Coordinate pipeline (`getPosition`).**
  - The no-touch sentinel.
  - The linear map computed in 32-bit `int` and narrowed to `int16_t`.
  - The four rotations.

`Ints` states the fixed-width arithmetic of a target with a 32-bit `int`:
- two's-complement narrowing (`Wrap16`, `Wrap32`);
- truncating division (`TDiv`).

`Points` is `TS_Point`.

Behaviour of the code that the model keeps as written:
- **Four identical calibration readings are accepted as unswapped**, because
  `abs(0) < abs(0)` is false; the map they leave has zero divisors
  (`Calibration.IdenticalPointsAccepted`).
- **The readings `(3900,200), (200,200), (3900,3900), (200,3900)` are decided
  unswapped**, because the first edge runs 3700 in x and 0 in y
  (`Calibration.SwapExamples`). The centre reading still maps to `(120, 159)`
  (`Transform.ScreenExamples`).
- **A rejected calibration has already overwritten the four stored points** with
  the new readings; only the swap flag keeps its previous value
  (`Calibration.Calibrate`, `Driver.Xpt2046.SetCalibration`).
- **`begin` installs the default calibration exactly as written**, including its
  mix of screen and ADC units (`Driver.Xpt2046.Begin`; see Findings for the
  corrected form).

Defaults from the header are constants:
- `begin(240, 320)` gives `Calibration.WIDTH` and `Calibration.HEIGHT`;
- `MODE_DFR` and `max_samples = 0xFF` give `Protocol.DEFAULT_MODE` and
  `Protocol.DEFAULT_MAX_SAMPLES`; `Protocol.DefaultArguments` gives the trace of a
  `getRaw` with those arguments.

## Model

| member | source | states |
|---|---|---|
| Ints.Abs | XPT2046.cpp:86-91 | `abs` is non-negative and equals the value or its negation |
| Ints.Wrap16 | XPT2046.h:12 | storing an `int` into an `int16_t` keeps it modulo 2^16 and leaves in-range values unchanged |
| Ints.Wrap32 | XPT2046.cpp:188-192 | a 32-bit intermediate keeps the exact value modulo 2^32 and leaves in-range values unchanged |
| Ints.Wrap16OfWrap32 | XPT2046.cpp:188-192 | narrowing the 32-bit product to 16 bits gives the same result as narrowing the exact value |
| Ints.TDiv | XPT2046.cpp:188-192 | C++ `/`: the remainder has the sign of the dividend and is smaller than the divisor in magnitude |
| Ints.TDivExact | XPT2046.cpp:188-192 | dividing an exact multiple gives back the factor, whatever the signs |
| Points.Origin | XPT2046.cpp:228-230 | the default `TS_Point` is `(0, 0)` |
| Points.Narrow | XPT2046.cpp:232-235 | the two-argument constructor stores each coordinate as `int16_t`: exact in range, congruent modulo 2^16 otherwise |
| Points.Equals | XPT2046.cpp:237-239 | `==` holds exactly when both coordinates agree |
| Points.NotEquals | XPT2046.cpp:241-243 | `!=` is exactly the negation of `==` |
| Hardware.Bus.Transfer | XPT2046.cpp:135 | one transfer logs the byte sent and returns the reply to the next unused position |
| Hardware.Bus.Transfer16 | XPT2046.cpp:170 | a 16-bit transfer is two byte transfers, most significant first, and returns both replies as one word |
| Hardware.Bus.WriteCs | XPT2046.cpp:150 | a chip-select write sets the line and logs the edge |
| Protocol.CtrlLo | XPT2046.cpp:148 | the low nibble chosen for the mode fits four bits, so it can be OR-ed onto a channel nibble; which nibble each mode gets is pinned by `DifferentialTrace` and `SingleEndedTrace` |
| Protocol.ControlFields | XPT2046.cpp:155-166 | in a composed control byte the high nibble alone selects the channel and the start bit, and the low nibble's power-down bits alone decide whether PENIRQ is armed |
| Protocol.ControlBytes | XPT2046.h:112-115 | the four control bytes are 0x93, 0xD3, 0x94, 0xD4, they select channels 1 and 5, and only the single-ended ones arm PENIRQ |
| Protocol.Sample | XPT2046.cpp:138 | every decoded sample lies in `0..ADC_MAX`, so none equals the 0xFFFF sentinel |
| Protocol.Packed | XPT2046.cpp:138 | the shift-and-or expression puts the first byte in bits 11..4 and the top nibble of the second byte in bits 3..0 |
| Protocol.SampleIsBitPacking | XPT2046.cpp:138 | the arithmetic decoding equals the source's bitwise shift-and-or of the two bytes |
| Protocol.DecodeEncode | XPT2046.cpp:138 | every 12-bit value survives encoding into two bytes and decoding back |
| Protocol.EncodeDecode | XPT2046.cpp:138 | decoding loses only the padding nibble of the second byte |
| Protocol.Cap | XPT2046.cpp:139 | the sample budget is at least one and at least `max_samples`; `Iterations` never exceeds it and `RunsToCap` shows it is reached |
| Protocol.Iterations | XPT2046.cpp:133-139 | the number of samples is at least one and at most the cap |
| Protocol.IterationsUnsettled | XPT2046.cpp:139 | the loop carries on only past samples that differ from their predecessor |
| Protocol.IterationsStop | XPT2046.cpp:139 | the loop stops only on a sample equal to the previous one, or at the cap |
| Protocol.IterationsExact | XPT2046.cpp:133-139 | the first sample that repeats its predecessor or exhausts the budget fixes the number of samples |
| Protocol.FirstIterationNeverSettles | XPT2046.cpp:130-139 | the first sample never equals the 0xFFFF sentinel, so the first iteration never stops by agreement |
| Protocol.StopsAtFirstRepeat | XPT2046.cpp:133-141 | the loop ends at the first repeated sample and returns that sample |
| Protocol.RunsToCap | XPT2046.cpp:139 | when no sample repeats its predecessor, the loop takes exactly the cap |
| Protocol.LoopTrace | XPT2046.cpp:133-139 | each iteration sends exactly `0x00` and then the control byte |
| Protocol.AcquireWith | XPT2046.cpp:146-174 | given the loop lengths, both samples are 12-bit and the bytes consumed are the trace's transfers |
| Protocol.Acquire | XPT2046.cpp:146-174 | the outcome of `getRaw`: both samples are 12-bit, and every logged event except the two chip-select edges consumes one reply byte |
| Protocol.AcquireFrames | XPT2046.cpp:150-173 | a `getRaw` trace is chip select low, then transfers only, then chip select high, and its last control byte is 0xD4 |
| Protocol.TraceFrames | XPT2046.cpp:150-173 | every acquisition trace is exactly one chip-select frame around byte transfers |
| Protocol.PowerDownTrace | XPT2046.cpp:216-225 | `powerDown` sends exactly 0xD4, 0x00, 0x00 between chip select low and high |
| Protocol.LastControlAfter | XPT2046.cpp:164-170 | a control byte followed only by zero bytes and chip-select edges is the last control byte sent |
| Protocol.LastControlIgnoresHistory | XPT2046.cpp:150-173 | once a frame sends a control byte, earlier traffic does not change which control byte was last |
| Protocol.EpilogueRearms | XPT2046.cpp:160-170 | after the loops only differential mode sends a control byte, 0xD4, which re-arms PENIRQ; the flush sends none |
| Protocol.TraceEndsArmed | XPT2046.cpp:160-170 | in both modes the last control byte of `getRaw` is 0xD4, so PENIRQ is re-armed |
| Protocol.PowerDownLeavesPenIrqArmed | XPT2046.cpp:216-224 | the last control byte of `powerDown` is 0xD4 |
| Protocol.DifferentialTrace | XPT2046.cpp:148-173 | in differential mode the trace is 0x93, the x loop, the y loop with 0xD3, then `0x00, 0xD4` and the two-byte flush |
| Protocol.SingleEndedTrace | XPT2046.cpp:148-173 | in single-ended mode the trace is 0x94, the x loop, the y loop with 0xD4, then only the flush |
| Protocol.DefaultArguments | XPT2046.h:98 | with the default arguments the budget is 255 samples and the trace is the differential one |
| Calibration.Orient | XPT2046.cpp:82-99 | unswapped exactly when the first edge's stored x delta is at least its y delta in magnitude; swapped exactly when it is smaller and the second edge's x delta exceeds its y delta; rejected otherwise |
| Calibration.Average | XPT2046.cpp:105-123 | `(a + b) / 2` in C++: between the two readings and the exact midpoint rounded toward zero |
| Calibration.MidpointUnique | XPT2046.cpp:105-123 | the `Midpoint` relation admits only one value, so it fixes every averaged coordinate |
| Calibration.Averaged | XPT2046.cpp:101-124 | each edge's common coordinate is the truncated average of the two readings on that edge, chosen by orientation; the result is aligned, and aligned points are left as they are |
| Calibration.Calibrate | XPT2046.cpp:76-127 | success exactly when the swap test does not reject; on success the swap flag is the test's verdict and the stored points are the pair averages of the readings for it; on failure the raw points are stored and the old swap flag kept |
| Calibration.Wrap16Zero | XPT2046.cpp:82-83 | a stored difference of two `int16_t` values is zero exactly when they are equal |
| Calibration.RecalibrationIsStable | XPT2046.cpp:76-127 | feeding an aligned, non-degenerate calibration back in is accepted and leaves it unchanged |
| Calibration.IdenticalPointsAccepted | XPT2046.cpp:82-99 | four identical points are accepted as unswapped, and the resulting map has a zero divisor |
| Calibration.InsetBound | XPT2046.cpp:49 | for a screen larger than both margins, the inset in ADC units stays below half the ADC range |
| Calibration.DefaultCornersAsWritten | XPT2046.cpp:48-53 | the default points `begin` computes: their x span is the screen width minus twice the ADC-unit inset, and their y span likewise, mixing screen and ADC units |
| Calibration.DefaultCorners | XPT2046.cpp:48-53 | the corrected default points share their top-edge y, so the swap test keeps them unswapped |
| Calibration.DefaultsAccepted | XPT2046.cpp:48-53 | both the as-written and the corrected default points are accepted as unswapped |
| Calibration.DefaultCalibrationIncreasing | XPT2046.cpp:48-53 | the corrected default calibration lies in the ADC range, rises along both axes and has non-zero divisors |
| Calibration.SwapExamples | XPT2046.cpp:82-99 | the swap test on worked examples: not swapped, swapped, four identical points, and the corner-mirrored panel |
| Transform.NoTouchIsMinusOne | XPT2046.cpp:177-180 | the 0xFFFF no-touch marker reads as `(-1, -1)` once stored in `int16_t` |
| Transform.Anchors | XPT2046.cpp:69-74 | the anchors are the corners inset by the margin and are aligned like an unswapped calibration |
| Transform.MapAxis | XPT2046.cpp:187-193 | one axis of the linear map; the low anchor reading always maps to the margin |
| Transform.Map | XPT2046.cpp:187-193 | the linear map of either orientation sends the first calibration reading to the first anchor `(20, 20)` |
| Transform.MapAxisEnds | XPT2046.cpp:187-193 | an axis map takes its low anchor reading to the margin and its high one to the margin plus the span |
| Transform.Rotate | XPT2046.cpp:196-213 | `ROT_0` and every other value outside the three turns leave the point unchanged; a quarter turn carries one coordinate across unchanged (`RotationIsInvertible` proves every case a bijection) |
| Transform.ReflectTwice | XPT2046.cpp:198-206 | reflecting a coordinate twice about the same size gives it back, even through 16-bit wrap-around |
| Transform.RotationIsInvertible | XPT2046.cpp:196-213 | every rotation, and the fall-through for other values, is a bijection on points |
| Transform.RotationStaysOnScreen | XPT2046.cpp:196-213 | an on-screen point stays on screen after rotation, with width and height exchanged for quarter turns |
| Transform.CalibratedCornersMapToAnchors | XPT2046.cpp:186-193 | for every accepted non-degenerate calibration whose products fit 32 bits, the calibrated readings map exactly onto the anchors of `getCalibrationPoints` |
| Transform.ExchangedWiringDetected | XPT2046.cpp:82-124 | a panel wired with x and y exchanged is flagged swapped where the plain panel is not, and both calibrations send every touch to the same screen position |
| Transform.ScreenExamples | XPT2046.cpp:186-213 | worked examples on a 240 x 320 screen: the centre reading under two rotations, the mirrored panel, and `(60, 80)` under each rotation |
| Transform.AsWrittenDefaultMisplacesTouches | XPT2046.cpp:48-53 | with the default calibration as written, on 240 x 320 raw 0 maps to x = 174 and raw `ADC_MAX` to x = -1678 |
| Transform.AsWrittenDefaultDegenerate | XPT2046.cpp:48-53 | with the default calibration as written, a 404-pixel-wide screen gets a zero x divisor |
| Transform.DefaultCalibrationCoversScreen | XPT2046.cpp:48-53 | the corrected default calibration maps raw `(0, 0)` to `(1, 1)` and raw `(ADC_MAX, ADC_MAX)` to `(239, 319)` |
| Driver.Swap | XPT2046.cpp:26-30 | the two values change places |
| Driver.AcquireArms | XPT2046.cpp:150-173 | whatever traffic came before, the bus log after `getRaw` ends with 0xD4 as its last control byte |
| Driver.Xpt2046.constructor | XPT2046.cpp:32-34 | the pins are kept, the driver starts unswapped at `ROT_0`, and the other fields start at zero |
| Driver.Xpt2046.Begin | XPT2046.cpp:36-67 | the size and the spans `width - 40`, `height - 40` are stored, the default calibration is installed exactly as the source computes it and always accepted unswapped, and the bus sees exactly the `powerDown` trace |
| Driver.Xpt2046.SetRotation | XPT2046.h:55-57 | only the rotation changes, to the given value |
| Driver.Xpt2046.GetCalibrationPoints | XPT2046.cpp:69-74 | the points returned are the margin-inset anchors, aligned as unswapped |
| Driver.Xpt2046.AverageEdges | XPT2046.cpp:101-124 | the stored points become their pairwise averages for the current orientation |
| Driver.Xpt2046.SetCalibration | XPT2046.cpp:76-127 | the result and the new calibration are exactly those of `Calibrate`, including the non-atomic failure path |
| Driver.Xpt2046.Decide | XPT2046.cpp:82-99 | the branch taken is exactly the swap test `Orient` |
| Driver.Xpt2046.IsTouching | XPT2046.h:87-89 | touching exactly when PENIRQ reads low, with no bus traffic and no state change |
| Driver.Xpt2046.ReadLoop | XPT2046.cpp:129-142 | the loop takes `Iterations` samples, returns the last, consumes two bytes per sample and sends `0x00, ctrl` each time |
| Driver.Xpt2046.Conversions | XPT2046.cpp:155-158 | the first control byte, then the x loop and the y loop, with their lengths, samples and traffic |
| Driver.Xpt2046.Convert | XPT2046.cpp:155-158 | the samples are those of `Acquire`, and the traffic is its trace up to the epilogue |
| Driver.Xpt2046.Flush | XPT2046.cpp:160-170 | the bus gets exactly the epilogue of the mode |
| Driver.Xpt2046.Exchange | XPT2046.cpp:155-170 | the traffic inside the chip-select frame is exactly that of `Acquire`, and the samples are its samples |
| Driver.Xpt2046.GetRaw | XPT2046.cpp:146-174 | the point holds the two samples of `Acquire`, the bus sees exactly its trace, chip select ends high and PENIRQ is armed |
| Driver.Xpt2046.ScreenPosition | XPT2046.cpp:186-213 | the position is the calibrated map of the raw point followed by the rotation |
| Driver.Xpt2046.GetPosition | XPT2046.cpp:176-214 | not touching gives `(-1, -1)` with the bus untouched; touching gives the mapped and rotated `Acquire` point, and the bus log, consumed count, chip select and armed PENIRQ are exactly those `getRaw` leaves |
| Driver.Xpt2046.PowerDown | XPT2046.cpp:216-225 | the bus sees exactly 0xD4, 0x00, 0x00 inside one chip-select frame, and PENIRQ is armed |

## Left out

- SPI transactions and settings are library calls and are not modelled. This covers `spi_begin`/`spi_end`, `SPISettings`, `SPI.begin`, bit order and data mode. The bus is a reply stream and a log.
- `pinMode` and the electrical behaviour of the pins are not modelled. The chip-select and PENIRQ lines are plain fields, and the pin numbers are only stored.
- The analog behaviour of the converter is not modelled: which channel a reply really reflects, settling time, and whether single-ended mode works on real hardware. The replies are an arbitrary function.
- The model assumes a 32-bit `int`. On a 16-bit-`int` target, `CAL_MARGIN * ADC_MAX` in `begin` would overflow; that platform is not modelled.
- C++ leaves signed overflow undefined. The model assumes two's-complement wrap-around in the 32-bit map product (`Wrap32`).
- The `INT_MIN / -1` case of `TDiv` is not modelled as undefined; it is computed exactly.
- The commented-out empirical calibration in `begin` (XPT2046.cpp:55-56) is not code and is not modelled.
- `_rotation` and the other fields that the constructor leaves uninitialised start at `ROT_0` and zero, as in a statically allocated driver.
- Driver.Xpt2046.GetPosition: requires non-zero map divisors while touching, because dividing by zero is undefined behaviour in C++ and has no result to model.
- Driver.Xpt2046.ScreenPosition: requires non-zero map divisors, for the same reason.
- Driver.Xpt2046.Begin: requires a non-zero width and height, because `begin` divides by both (XPT2046.cpp:49-52) and dividing by zero is undefined behaviour in C++.
- `Protocol.ControlFields` is stated for the control bytes as sums of nibbles; that the sum equals the bitwise OR is proved for the four bytes the driver sends (`Protocol.ControlBytes`), not for every pair of nibbles.
- Helper splits do not exist as separate functions in the source: `Decide`, `AverageEdges`, `Conversions`, `Convert`, `Exchange`, `Flush` and `ScreenPosition` are pieces of `setCalibration`, `getRaw` and `getPosition`.
- `getRaw` and `getPosition` return through a reference parameter in the source; the model returns the point.
- The loop counts are ghost outputs of the bus methods. They only name how many samples each loop took.

## Findings

| source | as written | input that shows it | evidently intended | confidence | as-written member | corrected member |
|---|---|---|---|---|---|---|
| XPT2046.cpp:48-53 | the far default corners are `width - CAL_MARGIN * ADC_MAX / width` and `height - CAL_MARGIN * ADC_MAX / height`, which subtract an ADC-space inset from a screen size | `begin(240, 320)`: P1.x = 341 and P2.x = -101, so raw 0 maps to x = 174 and raw 4095 to x = -1678; `begin(404, 320)`: P1.x = P2.x = 202, a zero divisor | the comment says the default maps the ADC range onto the screen, so the far corners are `ADC_MAX - CAL_MARGIN * ADC_MAX / size`, which maps raw `(0, 0)` to `(1, 1)` and raw `(4095, 4095)` to `(239, 319)` | high (not executed) | Calibration.DefaultCornersAsWritten, Transform.AsWrittenDefaultMisplacesTouches, Transform.AsWrittenDefaultDegenerate | Calibration.DefaultCorners, Calibration.DefaultCalibrationIncreasing, Transform.DefaultCalibrationCoversScreen |
