/** The per-cycle decision logic of the TempTrack firmware's `loop()`: a
    sensor gate with a flag that persists across calls, a motion gate, the
    temperature bounds read from Notecard environment variables, the strict
    breach test, the alert note, and the delay that ends each call.

    The Notecard, the BME280 sensor and `delay()` are outside the model:
    what they answer in one call of `loop()` is a `CycleInputs` value, every
    request the firmware transmits is appended to the `sent` log of a
    `Device`, and the delay is the value `Loop` returns. */
module TempTrack {
  import LibC

  /** `DEFAULT_TEMP_MIN` and `DEFAULT_TEMP_MAX`. */
  const DefaultTempMin: int := 0
  const DefaultTempMax: int := 100

  /** `ALERT_NOTEFILE`. */
  const AlertNotefile := "alert.qo"

  /** The wait after a cycle that stopped at the sensor or motion gate. */
  const GateDelayMs: nat := 30000

  /** The wait after a cycle that sampled the temperature. */
  const SampleDelayMs: nat := 300000

  datatype Option<T> = None | Some(value: T)

  /** What one Notecard transaction produced: `newRequest` returned NULL (so
      nothing was sent), `requestAndResponse` returned NULL, or a response arrived. */
  datatype Reply<T> = NoRequest | NoResponse | Response(body: T)

  /** The `"text"` item of an `env.get` response: absent, present with
      `JGetString` giving NULL, or present with its text. */
  datatype TextItem = NoText | NullText | Text(value: string)

  /** The `body` object of the alert note. */
  datatype AlertBody = AlertBody(temp: real, tempMin: int, tempMax: int)

  /** A request transmitted to the Notecard. */
  datatype Request =
    | EnvGet(name: string)                                  // "env.get" with "name"
    | MotionStatus                                          // "card.motion"
    | NoteAdd(file: string, sync: bool, body: Option<AlertBody>)  // "note.add"

  /** What the collaborators answer during one call of `loop()`. The fields
      are only consulted where `loop()` reaches the call that produces them. */
  datatype CycleInputs = CycleInputs(
    sensorFound: bool,            // result of initializeBME280()
    motion: Reply<string>,        // the card.motion transaction; body is its "mode"
    temperature: real,            // bme.readTemperature()
    tempMinEnv: Reply<TextItem>,  // env.get of "temp_min"
    tempMaxEnv: Reply<TextItem>,  // env.get of "temp_max"
    alertRequest: bool,           // newRequest("note.add") was not NULL
    alertBody: bool)              // JCreateObject() was not NULL

  /** Where a call of `loop()` ended. */
  datatype Outcome = SensorMissing | NotMoving | InRange | Breach

  /** The effect of one call of `loop()`: the new value of `bmeInitialized`,
      where it ended, how long it delays and what it transmitted, in order. */
  datatype CycleResult = CycleResult(initialized: bool, outcome: Outcome, delayMs: nat, requests: seq<Request>)

  /** `getEnvVarIntValue`: the `atoi` of the variable's text when the
      response carries a non-null `"text"`, and the default in every other case. */
  function EnvVarIntValue(defaultValue: int, reply: Reply<TextItem>): (v: int)
    ensures reply.Response? && reply.body.Text? ==> v == LibC.Atoi(reply.body.value)
    ensures !(reply.Response? && reply.body.Text?) ==> v == defaultValue
  {
    match reply
    case Response(Text(text)) => LibC.Atoi(text)
    case _ => defaultValue
  }

  /** What `getEnvVarIntValue` transmits: one `env.get`, unless `newRequest` failed. */
  function EnvRequests(name: string, reply: Reply<TextItem>): (rs: seq<Request>)
    ensures rs == [] || rs == [EnvGet(name)]
    ensures rs == [] <==> reply.NoRequest?
  {
    if reply.NoRequest? then [] else [EnvGet(name)]
  }

  /** The motion test: a response arrived and `strcmp(mode, "moving") == 0`. */
  function IsMoving(reply: Reply<string>): bool {
    reply.Response? && LibC.StrCmp(reply.body, "moving") == 0
  }

  /** The breach test, strict on both sides, with the integer bounds promoted. */
  function IsBreach(temperature: real, tempMin: int, tempMax: int): (breach: bool)
    ensures !breach <==> tempMin as real <= temperature <= tempMax as real
    ensures tempMin > tempMax ==> breach
  {
    temperature > tempMax as real || temperature < tempMin as real
  }

  /** The alert `loop()` sends on a breach; the body is missing when `JCreateObject` failed. */
  function AlertNote(inputs: CycleInputs, tempMin: int, tempMax: int): Request {
    NoteAdd(AlertNotefile, true, if inputs.alertBody then Some(AlertBody(inputs.temperature, tempMin, tempMax)) else None)
  }

  /** The bounds a sampling cycle resolves: `temp_min` first, then `temp_max`. */
  function TempMin(inputs: CycleInputs): int {
    EnvVarIntValue(DefaultTempMin, inputs.tempMinEnv)
  }

  function TempMax(inputs: CycleInputs): int {
    EnvVarIntValue(DefaultTempMax, inputs.tempMaxEnv)
  }

  /** What the motion check transmits: one `card.motion`, unless `newRequest` failed. */
  function MotionLog(reply: Reply<string>): seq<Request> {
    if reply.NoRequest? then [] else [MotionStatus]
  }

  /** What the two bound lookups transmit, `temp_min` first. */
  function Lookups(inputs: CycleInputs): seq<Request> {
    EnvRequests("temp_min", inputs.tempMinEnv) + EnvRequests("temp_max", inputs.tempMaxEnv)
  }

  /** The alert a cycle sends: one note on a breach when `newRequest` succeeds, otherwise none. */
  function AlertLog(inputs: CycleInputs, outcome: Outcome): seq<Request> {
    if outcome == Breach && inputs.alertRequest then [AlertNote(inputs, TempMin(inputs), TempMax(inputs))] else []
  }

  /** One call of `loop()`, given the value of `bmeInitialized` it starts with. */
  function Cycle(initialized: bool, inputs: CycleInputs): (r: CycleResult)
    ensures r.initialized == (initialized || inputs.sensorFound)
    ensures r.delayMs == (if r.outcome == InRange || r.outcome == Breach then SampleDelayMs else GateDelayMs)
  {
    if !initialized && !inputs.sensorFound then
      CycleResult(false, SensorMissing, GateDelayMs, [])
    else if !IsMoving(inputs.motion) then
      CycleResult(true, NotMoving, GateDelayMs, MotionLog(inputs.motion))
    else
      var outcome := if IsBreach(inputs.temperature, TempMin(inputs), TempMax(inputs)) then Breach else InRange;
      CycleResult(true, outcome, SampleDelayMs, MotionLog(inputs.motion) + Lookups(inputs) + AlertLog(inputs, outcome))
  }

  /** A cycle that passes both gates, unfolded. */
  lemma SamplingCycle(initialized: bool, inputs: CycleInputs)
    requires initialized || inputs.sensorFound
    requires IsMoving(inputs.motion)
    ensures var outcome := if IsBreach(inputs.temperature, TempMin(inputs), TempMax(inputs)) then Breach else InRange;
      Cycle(initialized, inputs)
      == CycleResult(true, outcome, SampleDelayMs, MotionLog(inputs.motion) + Lookups(inputs) + AlertLog(inputs, outcome))
  {
  }

  /** Regrouping the parts of a log appended one after another. */
  lemma LogsAppend(log: seq<Request>, a: seq<Request>, b: seq<Request>, c: seq<Request>, d: seq<Request>)
    ensures log + a + b + c + d == log + (a + (b + c) + d)
  {
  }

  /** The value of `bmeInitialized` after a run of calls of `loop()`. */
  function Run(initialized: bool, ins: seq<CycleInputs>): bool
    decreases |ins|
  {
    if ins == [] then initialized else Run(Cycle(initialized, ins[0]).initialized, ins[1..])
  }

  /** Number of `note.add` requests in a log. */
  function NoteCount(rs: seq<Request>): (n: nat)
    ensures n <= |rs|
  {
    if rs == [] then 0 else (if rs[0].NoteAdd? then 1 else 0) + NoteCount(rs[1..])
  }

  /** Number of `env.get` requests in a log. */
  function EnvGetCount(rs: seq<Request>): (n: nat)
    ensures n <= |rs|
  {
    if rs == [] then 0 else (if rs[0].EnvGet? then 1 else 0) + EnvGetCount(rs[1..])
  }

  lemma {:induction false} CountsAppend(a: seq<Request>, b: seq<Request>)
    ensures NoteCount(a + b) == NoteCount(a) + NoteCount(b)
    ensures EnvGetCount(a + b) == EnvGetCount(a) + EnvGetCount(b)
    decreases |a|
  {
    if a != [] {
      assert (a + b)[1..] == a[1..] + b;
      CountsAppend(a[1..], b);
    } else {
      assert a + b == b;
    }
  }

  /** The motion gate opens exactly for a response whose mode is "moving";
      a missing request or response, or any other mode, keeps it shut. */
  lemma IsMovingIff(reply: Reply<string>)
    requires reply.Response? ==> LibC.CString(reply.body)
    ensures IsMoving(reply) <==> reply == Response("moving")
  {
    if reply.Response? {
      LibC.StrCmpZeroIff(reply.body, "moving");
    }
  }

  /** A cycle stopped at the sensor or motion gate reads no temperature bounds,
      sends no alert, transmits at most the motion query, and waits 30 s. */
  lemma GateCycleIsQuiet(initialized: bool, inputs: CycleInputs)
    requires !(initialized || inputs.sensorFound) || !IsMoving(inputs.motion)
    ensures var r := Cycle(initialized, inputs);
      && r.delayMs == GateDelayMs
      && r.outcome != InRange && r.outcome != Breach
      && NoteCount(r.requests) == 0 && EnvGetCount(r.requests) == 0
      && (forall q :: q in r.requests ==> q == MotionStatus)
      && (r.outcome == SensorMissing ==> r.requests == [])
  {
  }

  /** A cycle stopped at a gate does not depend on the temperature, the
      environment lookups or the alert allocations: two cycles that agree on
      the sensor and the motion reply end identically. */
  lemma GateCycleIgnoresSample(initialized: bool, inputs: CycleInputs, other: CycleInputs)
    requires !(initialized || inputs.sensorFound) || !IsMoving(inputs.motion)
    requires other.sensorFound == inputs.sensorFound && other.motion == inputs.motion
    ensures Cycle(initialized, other) == Cycle(initialized, inputs)
  {
  }

  /** A log of at most one request holds a note exactly when that request is one. */
  lemma CountsOfShort(rs: seq<Request>)
    requires |rs| <= 1
    ensures NoteCount(rs) == (if rs != [] && rs[0].NoteAdd? then 1 else 0)
    ensures EnvGetCount(rs) == (if rs != [] && rs[0].EnvGet? then 1 else 0)
  {
    if rs != [] {
      assert rs[1..] == [];
    }
  }

  /** A sampling cycle leaves the sensor initialized, transmits the motion
      query first, one environment lookup per bound whose request was created,
      and always waits 5 minutes. */
  lemma SamplingCycleLookups(initialized: bool, inputs: CycleInputs)
    requires initialized || inputs.sensorFound
    requires IsMoving(inputs.motion)
    ensures var r := Cycle(initialized, inputs);
      && r.delayMs == SampleDelayMs
      && r.initialized
      && r.requests[0] == MotionStatus
      && EnvGetCount(r.requests)
         == (if inputs.tempMinEnv.NoRequest? then 0 else 1) + (if inputs.tempMaxEnv.NoRequest? then 0 else 1)
  {
    var r := Cycle(initialized, inputs);
    var minLog := EnvRequests("temp_min", inputs.tempMinEnv);
    var maxLog := EnvRequests("temp_max", inputs.tempMaxEnv);
    var alert := AlertLog(inputs, r.outcome);
    SamplingCycle(initialized, inputs);
    assert r.requests == [MotionStatus] + (minLog + maxLog) + alert;
    CountsAppend([MotionStatus] + (minLog + maxLog), alert);
    CountsAppend([MotionStatus], minLog + maxLog);
    CountsAppend(minLog, maxLog);
    CountsOfShort([MotionStatus]);
    CountsOfShort(minLog);
    CountsOfShort(maxLog);
    CountsOfShort(alert);
  }

  /** In a sampling cycle the `temp_min` lookup precedes the `temp_max` lookup,
      and an alert note, if any, is the last request. */
  lemma SamplingCycleOrder(initialized: bool, inputs: CycleInputs)
    requires initialized || inputs.sensorFound
    requires IsMoving(inputs.motion)
    ensures var r := Cycle(initialized, inputs);
      && (forall i, j :: (0 <= i < |r.requests| && 0 <= j < |r.requests|
            && r.requests[i] == EnvGet("temp_min") && r.requests[j] == EnvGet("temp_max")) ==> i < j)
      && (forall i :: (0 <= i < |r.requests| && r.requests[i].NoteAdd?) ==> i == |r.requests| - 1)
  {
    var r := Cycle(initialized, inputs);
    var minLog := EnvRequests("temp_min", inputs.tempMinEnv);
    var maxLog := EnvRequests("temp_max", inputs.tempMaxEnv);
    var alert := AlertLog(inputs, r.outcome);
    SamplingCycle(initialized, inputs);
    assert r.requests == [MotionStatus] + (minLog + maxLog) + alert;
    forall i, j | 0 <= i < |r.requests| && 0 <= j < |r.requests| &&
        r.requests[i] == EnvGet("temp_min") && r.requests[j] == EnvGet("temp_max")
      ensures i < j
    {
      assert i == 1;
      assert j == 1 + |minLog|;
    }
  }

  /** A cycle ends in `Breach` exactly when it passed both gates and the
      reading is strictly outside the resolved bounds. */
  lemma BreachOutcomeIff(initialized: bool, inputs: CycleInputs)
    ensures Cycle(initialized, inputs).outcome == Breach <==>
      (initialized || inputs.sensorFound) && IsMoving(inputs.motion)
      && IsBreach(inputs.temperature, TempMin(inputs), TempMax(inputs))
  {
  }

  /** Exactly one alert on a breach (when `newRequest` succeeds), none otherwise. */
  lemma AlertExactlyOnBreach(initialized: bool, inputs: CycleInputs)
    ensures var r := Cycle(initialized, inputs);
      NoteCount(r.requests) == (if r.outcome == Breach && inputs.alertRequest then 1 else 0)
  {
    var r := Cycle(initialized, inputs);
    if (initialized || inputs.sensorFound) && IsMoving(inputs.motion) {
      var minLog := EnvRequests("temp_min", inputs.tempMinEnv);
      var maxLog := EnvRequests("temp_max", inputs.tempMaxEnv);
      var alert := AlertLog(inputs, r.outcome);
      SamplingCycle(initialized, inputs);
      assert r.requests == [MotionStatus] + (minLog + maxLog) + alert;
      CountsAppend([MotionStatus] + (minLog + maxLog), alert);
      CountsAppend([MotionStatus], minLog + maxLog);
      CountsAppend(minLog, maxLog);
      CountsOfShort([MotionStatus]);
      CountsOfShort(minLog);
      CountsOfShort(maxLog);
      CountsOfShort(alert);
    } else {
      CountsOfShort(r.requests);
    }
  }

  /** The alert goes to `alert.qo` with `sync` set, and its body carries the
      reading and the two resolved bounds (or is missing when `JCreateObject` failed). */
  lemma AlertContents(initialized: bool, inputs: CycleInputs)
    ensures forall q :: q in Cycle(initialized, inputs).requests && q.NoteAdd? ==>
      && q.file == AlertNotefile && q.sync
      && q.body == if inputs.alertBody then Some(AlertBody(inputs.temperature, TempMin(inputs), TempMax(inputs))) else None
  {
  }

  /** With no environment text the bounds are 0 and 100: a sampling cycle
      alerts exactly for readings above 100 or below 0. */
  lemma DefaultBounds(initialized: bool, inputs: CycleInputs)
    requires initialized || inputs.sensorFound
    requires IsMoving(inputs.motion)
    requires !(inputs.tempMinEnv.Response? && inputs.tempMinEnv.body.Text?)
    requires !(inputs.tempMaxEnv.Response? && inputs.tempMaxEnv.body.Text?)
    ensures TempMin(inputs) == 0 && TempMax(inputs) == 100
    ensures Cycle(initialized, inputs).outcome == Breach <==> inputs.temperature > 100.0 || inputs.temperature < 0.0
  {
  }

  /** Environment text that is present is never replaced by the default: text
      with no digit after its white space and sign, the empty text included,
      gives 0 whatever the default. */
  lemma TextWithoutDigitsGivesZero(defaultValue: int, text: string)
    requires var u := LibC.AfterSign(text[LibC.LeadingSpace(text)..]); u == [] || !LibC.IsDigit(u[0])
    ensures EnvVarIntValue(defaultValue, Response(Text(text))) == 0
  {
    LibC.AtoiNoDigits(text);
  }

  /** An example of present text overriding the default: a `temp_max` of "abc"
      gives the bound 0, so every reading above 0 is a breach. The general rule
      is `TextWithoutDigitsGivesZero`. */
  lemma TextOverridesDefault(inputs: CycleInputs)
    requires inputs.tempMaxEnv == Response(Text("abc"))
    requires inputs.temperature > 0.0
    ensures TempMax(inputs) == 0
    ensures IsBreach(inputs.temperature, TempMin(inputs), TempMax(inputs))
  {
    LibC.AtoiEmptyOrJunk();
  }

  /** Once set, `bmeInitialized` stays set; it ends set exactly when it
      started set or some call found the sensor. */
  lemma {:induction false} RunInitialized(initialized: bool, ins: seq<CycleInputs>)
    ensures Run(initialized, ins) <==> initialized || exists i :: 0 <= i < |ins| && ins[i].sensorFound
    decreases |ins|
  {
    if ins != [] {
      var next := Cycle(initialized, ins[0]).initialized;
      RunInitialized(next, ins[1..]);
      if exists i :: 0 <= i < |ins[1..]| && ins[1..][i].sensorFound {
        var i :| 0 <= i < |ins[1..]| && ins[1..][i].sensorFound;
        assert ins[i + 1].sensorFound;
      }
      if exists i :: 0 <= i < |ins| && ins[i].sensorFound {
        var i :| 0 <= i < |ins| && ins[i].sensorFound;
        if i > 0 {
          assert ins[1..][i - 1].sensorFound;
        }
      }
    }
  }

  /** The device state `loop()` works on: the global `bmeInitialized`, and
      the log of every request transmitted to the Notecard so far. */
  class Device {
    var bmeInitialized: bool
    var sent: seq<Request>

    /** State at boot: the sensor not yet initialised, nothing sent. */
    constructor ()
      ensures !bmeInitialized && sent == []
    {
      bmeInitialized := false;
      sent := [];
    }

    /** `getEnvVarIntValue(varName, defaultValue)`, the Notecard's part given as `reply`. */
    method GetEnvVarIntValue(varName: string, defaultValue: int, reply: Reply<TextItem>) returns (value: int)
      modifies this`sent
      ensures value == EnvVarIntValue(defaultValue, reply)
      ensures sent == old(sent) + EnvRequests(varName, reply)
    {
      if !reply.NoRequest? {
        sent := sent + [EnvGet(varName)];
        if reply.Response? && reply.body.Text? {
          value := LibC.ScanAtoi(reply.body.value);
          return;
        }
      }
      value := defaultValue;
    }

    /** The motion check of `loop()`: one `card.motion` query, moving only
        when a response arrived and its mode is "moving". */
    method CheckMotion(reply: Reply<string>) returns (isMoving: bool)
      modifies this`sent
      ensures isMoving == IsMoving(reply)
      ensures sent == old(sent) + MotionLog(reply)
    {
      isMoving := false;
      if !reply.NoRequest? {
        sent := sent + [MotionStatus];
        if reply.Response? {
          isMoving := LibC.StrCmp(reply.body, "moving") == 0;
        }
      }
    }

    /** One call of `loop()`; returns the milliseconds it passes to `delay()`. */
    method Loop(inputs: CycleInputs) returns (delayMs: nat)
      modifies this
      ensures bmeInitialized == Cycle(old(bmeInitialized), inputs).initialized
      ensures delayMs == Cycle(old(bmeInitialized), inputs).delayMs
      ensures sent == old(sent) + Cycle(old(bmeInitialized), inputs).requests
    {
      ghost var sent0, init0 := sent, bmeInitialized;
      if !bmeInitialized {
        bmeInitialized := inputs.sensorFound;
        if !bmeInitialized {
          return GateDelayMs;
        }
      }

      var isMoving := CheckMotion(inputs.motion);
      if !isMoving {
        return GateDelayMs;
      }

      var temperature := inputs.temperature;
      var tempMin := GetEnvVarIntValue("temp_min", DefaultTempMin, inputs.tempMinEnv);
      var tempMax := GetEnvVarIntValue("temp_max", DefaultTempMax, inputs.tempMaxEnv);

      var breach := temperature > tempMax as real || temperature < tempMin as real;
      if breach && inputs.alertRequest {
        var body := if inputs.alertBody then Some(AlertBody(temperature, tempMin, tempMax)) else None;
        sent := sent + [NoteAdd(AlertNotefile, true, body)];
      }
      ghost var outcome := if breach then Breach else InRange;
      assert tempMin == TempMin(inputs) && tempMax == TempMax(inputs);
      assert breach == IsBreach(inputs.temperature, TempMin(inputs), TempMax(inputs));
      SamplingCycle(init0, inputs);
      LogsAppend(sent0, MotionLog(inputs.motion), EnvRequests("temp_min", inputs.tempMinEnv),
        EnvRequests("temp_max", inputs.tempMaxEnv), AlertLog(inputs, outcome));
      return SampleDelayMs;
    }
  }
}
