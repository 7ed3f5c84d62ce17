# TempTrack firmware core in Dafny

TempTrack is an asset tracker built from an STM32 host, a BME280 temperature
sensor and a Blues Notecard. Each call of the firmware's `loop()` does three
things in order:

1. It passes a sensor gate, which uses a `bmeInitialized` flag that persists
   across calls.
2. It passes a motion gate: one `card.motion` query whose `mode` must be
   exactly `"moving"`.
3. It samples the temperature. It reads the bounds `temp_min` and `temp_max`
   from Notecard environment variables, through `getEnvVarIntValue` and
   `atoi`. It sends one `note.add` to `alert.qo` when the reading is strictly
   outside the bounds.

Then it delays: 30 s when a gate stopped it, 5 min after sampling.
`firmwareVersion()` returns the JSON product description that follows the
`firmware::info:` header inside the `FIRMWARE_VERSION` literal.

The project has three modules:

- `LibC` (`libc.dfy`) covers the C library pieces the firmware relies on:
  - `isspace` and `isdigit`;
  - `atoi` as defined in section 7.22.1.2 of ISO C11. It is given both as a
    specification function, `Atoi`, and as a scanning loop, `ScanAtoi`,
    proved equal to it;
  - `strcmp`, which reads the terminating NUL past the end of the text;
  - the decimal spelling of a natural number. The preprocessor's `#` operator
    gives exactly this spelling for a decimal integer literal written without
    leading zeros or suffix, as `PRODUCT_MAJOR` to `PRODUCT_BUILD` are
    (firmware/src/config.h:14-17).
- `Config` (`config.dfy`) covers the `PRODUCT_*` definitions, the
  `FIRMWARE_VERSION` literal and `firmwareVersion()`.
- `TempTrack` (`temptrack.dfy`) covers one call of `loop()`:
  - `Cycle` is the specification function.
  - `Device` is a class holding `bmeInitialized` and the log of requests
    sent to the Notecard.
  - `Device.Loop` is proved to follow `Cycle`.
  - The Notecard's and the sensor's answers for one call form a
    `CycleInputs` value.
  - The delay is the value `Loop` returns.

Behaviour fixed by the code that the model keeps:

- The bounds are `temp_min` and `temp_max`, with defaults 0 and 100
  (firmware/src/main.cpp:14-15).
- The only waits are 30 000 ms, after a cycle stopped at a gate, and
  300 000 ms, after a sampling cycle.
- Environment text that is present always goes through `atoi`, so empty or
  non-numeric text gives 0 (`TempTrack.TextWithoutDigitsGivesZero`). With no
  environment text, a reading of −5 °C is a breach (`TempTrack.DefaultBounds`).
- `bmeInitialized` persists across calls of `loop()` (`TempTrack.RunInitialized`).

## Model

| member | source | states |
|---|---|---|
| LibC.Decimal | firmware/src/config.h:6-7 | `STRINGIFY` of the version numbers, decimal literals without leading zeros or suffix, is a non-empty run of decimal digits |
| LibC.DecimalValue | firmware/src/config.h:6-7 | the decimal spelling of `n` reads back as `n` |
| LibC.ScanAtoi | firmware/src/main.cpp:47 | scanning white space, then an optional sign, then digits one at a time yields exactly `Atoi(s)`, the model of `atoi` |
| LibC.AtoiIntText | firmware/src/main.cpp:47 | `atoi` reads back any printed integer, whatever non-digit text follows it |
| LibC.AtoiSkipsSpace | firmware/src/main.cpp:47 | leading white space of any length never changes the result |
| LibC.AtoiNoDigits | firmware/src/main.cpp:47 | text with no digit after the white space and sign gives 0 |
| LibC.AtoiEmptyOrJunk | firmware/src/main.cpp:47 | `""` and `"abc"` give 0 |
| LibC.AtoiLeadingDigits | firmware/src/main.cpp:47 | `"12abc"` gives 12: leading digits are kept and the rest is ignored |
| LibC.AtoiNegative | firmware/src/main.cpp:47 | `"-5"` gives −5 |
| LibC.AtoiSpaceAndPlus | firmware/src/main.cpp:47 | `" \t+42"` gives 42: white space and a plus sign are skipped |
| LibC.StrCmpZeroIff | firmware/src/main.cpp:112 | for C strings, `strcmp(a, b) == 0` exactly when `a == b` |
| Config.Members | firmware/src/config.h:27-39 | the description has eleven members; the first is `org` and the last is `builder` |
| Config.JoinAppend | firmware/src/config.h:27-39 | joining two non-empty member lists puts one comma between their texts |
| Config.JoinAt | firmware/src/config.h:27-39 | each inner member sits between the members before it and those after it, with a comma on each side |
| Config.BracedContains | firmware/src/config.h:27-39 | each inner member occurs whole inside the braced description |
| Config.Info | firmware/src/config.h:28-39 | the description is non-empty, begins with `{` and ends with `}` |
| Config.FirmwareVersion | firmware/src/config.cpp:5-7 | the header followed by the result is `FIRMWARE_VERSION`; the result is 15 characters shorter and runs from `{` to `}` |
| Config.FirmwareVersionIsInfo | firmware/src/config.cpp:5-7 | the returned suffix is exactly the JSON description, with no header character and no description character lost |
| Config.HeaderOffset | firmware/src/config.cpp:6 | `sizeof(FIRMWARE_VERSION_HEADER) - 1` is the header's length without its NUL, 15 |
| Config.OffsetIsUnique | firmware/src/config.cpp:6 | only offset 15 gives a suffix that the header completes to `FIRMWARE_VERSION`; one more or one fewer does not |
| Config.ProductVersionText | firmware/src/config.h:14-20 | `PRODUCT_VERSION` is `"0.1.0"` |
| Config.VersionMember | firmware/src/config.h:32 | the returned description contains the member `"version":"0.1.0"` |
| TempTrack.EnvVarIntValue | firmware/src/main.cpp:38-62 | the result is `atoi(text)` when a response carries a non-null `"text"`; it is the default when the request, the response, the item or its string is missing |
| TempTrack.EnvRequests | firmware/src/main.cpp:39-42 | one `env.get` with the variable's name is sent exactly when `newRequest` succeeded |
| TempTrack.IsBreach | firmware/src/main.cpp:140 | no breach exactly when `temp_min <= t <= temp_max`, so a reading equal to a bound does not alert; when `temp_min > temp_max` every reading is a breach |
| TempTrack.Cycle | firmware/src/main.cpp:89-164 | `bmeInitialized` ends set exactly when it was set or the sensor was found; the delay is 300 000 ms after sampling and 30 000 ms otherwise |
| TempTrack.IsMovingIff | firmware/src/main.cpp:101-115 | `IsMoving`, the motion test, holds exactly for a response whose mode is `"moving"` |
| TempTrack.GateCycleIsQuiet | firmware/src/main.cpp:90-123 | a cycle stopped at a gate waits 30 000 ms, looks up no bound, sends no alert and sends at most the motion query; it sends nothing when the sensor is missing |
| TempTrack.GateCycleIgnoresSample | firmware/src/main.cpp:90-123 | a cycle stopped at a gate does not depend on the reading, the lookups or the alert allocations |
| TempTrack.SamplingCycleLookups | firmware/src/main.cpp:101-163 | a sampling cycle leaves the sensor initialized, sends the motion query first and one `env.get` per bound whose request was created, and waits 300 000 ms |
| TempTrack.SamplingCycleOrder | firmware/src/main.cpp:126-159 | `temp_min` is looked up before `temp_max`, and an alert note can only be the last request |
| TempTrack.BreachOutcomeIff | firmware/src/main.cpp:140 | a cycle ends in a breach exactly when it passed both gates and the reading is strictly outside the resolved bounds |
| TempTrack.AlertExactlyOnBreach | firmware/src/main.cpp:140-160 | a cycle sends exactly one `note.add` on a breach when `newRequest` succeeds, and none otherwise |
| TempTrack.AlertContents | firmware/src/main.cpp:145-156 | every alert goes to `alert.qo` with `sync` set. Its body holds the reading and the two resolved bounds, or is missing when `JCreateObject` failed |
| TempTrack.DefaultBounds | firmware/src/main.cpp:14-15 | with no environment text the bounds are 0 and 100, and a sampling cycle ends in a breach exactly for readings above 100 or below 0 |
| TempTrack.TextWithoutDigitsGivesZero | firmware/src/main.cpp:44-54 | for every default, present text with no digit after its white space and sign, the empty text included, gives 0; the default is not used |
| TempTrack.TextOverridesDefault | firmware/src/main.cpp:44-54 | a `temp_max` of `"abc"` gives the bound 0 in place of the default 100, so every reading above 0 is a breach |
| TempTrack.RunInitialized | firmware/src/main.cpp:90-99 | over any sequence of calls, `bmeInitialized` ends set exactly when it started set or some call found the sensor; once set it is never reset |
| TempTrack.Device.constructor | firmware/src/main.cpp:22 | at boot the sensor is not initialized and nothing has been sent |
| TempTrack.Device.GetEnvVarIntValue | firmware/src/main.cpp:38-62 | returns `EnvVarIntValue` (computing `atoi` with `ScanAtoi`) and appends the `env.get` it sends to the log |
| TempTrack.Device.CheckMotion | firmware/src/main.cpp:101-115 | returns the motion test and appends the `card.motion` query it sends to the log |
| TempTrack.Device.Loop | firmware/src/main.cpp:89-164 | the new flag, the returned delay and the requests appended to the log are exactly those of `Cycle` on the old flag |

## Left out

- `setup()` (firmware/src/main.cpp:64-87) is left out. It is one-time I/O: serial start-up, `notecard.begin` and a fixed `card.motion.mode` request.
- `initializeBME280` and `bme.readTemperature()` are left out because they are sensor drivers. Their results are the `sensorFound` and `temperature` fields of `CycleInputs`.
- The Notecard library calls are left out because they are foreign code. These are `newRequest`, `requestAndResponse`, `sendRequest`, `JGetString`, `JHasObjectItem`, the `JAdd*` calls and `deleteResponse`.
  - Their outcomes are the `Reply` and `TextItem` values in `CycleInputs`.
  - A transmitted request is an entry of `Device.sent`, carrying only the fields the firmware sets.
- TempTrack.IsMoving takes the `mode` string a response carries as given. The text `JGetString` substitutes for a missing item is part of the Notecard library, which is not part of this model.
- The response that `getEnvVarIntValue` does not delete on its success path (firmware/src/main.cpp:54) is not modelled. Every successful lookup leaks one response, so a sampling cycle with both variables set leaks two, and over many cycles the heap can run out. From then on `newRequest` returns NULL (firmware/src/main.cpp:39, 101, 145): the bounds fall back to their defaults, the motion gate stays shut and no alert is sent. The model lets any call see `NoRequest`, but does not tie that outcome to the leak.
- `delay()` is modelled only as the duration `Loop` returns, not as elapsed time.
- All `#ifndef RELEASE` serial logging is left out; it only observes.
- `configureNotecard` (firmware/src/config.cpp:9-72) is left out. It is a fixed sequence of configuration requests with no decisions.
- TempTrack.IsBreach compares a `real` reading with the bounds promoted exactly. The firmware's `float` comparison is not modelled: NaN readings, rounding, and the inexact conversion to `float` of bounds beyond 2^24 in magnitude.
- LibC.Atoi returns an unbounded integer. The overflow of `atoi`, which is undefined behaviour in C, and the cast to 32-bit `int` are not modelled.
- `PRODUCT_BUILT` (`__DATE__ " " __TIME__`, firmware/src/config.h:18) is fixed only when the firmware is compiled. It is the parameter `built`, and the model never inspects it.
