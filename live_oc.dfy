/**
 * Model of the live-overclock tunables of drivers/misc/live_oc.c.
 *
 * Four global integers hold the overclock percentage (`oc_value`), the value
 * saved across a screen-off period (`oc_value_on`), and the frequency window
 * the overclock applies to (`oc_low_freq` .. `oc_high_freq`). Three sysfs
 * write handlers and an early-suspend / late-resume pair change them under
 * guard conditions; every change is pushed to the clock driver through the
 * external `liveoc_update`.
 *
 * `sscanf(buf, "%u\n", &data)` is abstracted to an `Option<u32>`: `Some(data)`
 * when one unsigned value was parsed, `None` otherwise. The handlers compare
 * the unsigned `data` with the `int` globals, which C performs after
 * converting the global to `unsigned int`; the frequencies are therefore
 * modelled as 32-bit unsigned values compared as such. `oc_value` and
 * `oc_value_on` only ever hold 100 or a parsed value in [90, 150], where the
 * signed and unsigned views agree.
 *
 * The pure functions on `Tunables` are the specification of each handler; the
 * class `Driver` holds the globals and its methods are proved against them.
 */
module LiveOc {

  datatype Option<T> = None | Some(value: T)

  /** An `unsigned int` of the 32-bit target. */
  type u32 = x: int | 0 <= x < 0x1_0000_0000

  /** `MAX_OCVALUE` and the lower bound the value handler checks. */
  const MinOcValue := 90
  const MaxOcValue := 150

  /** The value `powersave_early_suspend` drops to, and above which it acts. */
  const SuspendOcValue := 100

  /** The four globals of the driver. */
  datatype Tunables = Tunables(ocValue: int, ocValueOn: int, lowFreq: u32, highFreq: u32)

  /** The arguments of one `liveoc_update(oc_value, oc_low_freq, oc_high_freq)` call. */
  datatype Update = Update(ocValue: int, lowFreq: u32, highFreq: u32)

  /** The globals as initialised: 100 %, applied from 800 MHz to 1.4 GHz. */
  const Initial := Tunables(100, 100, 800000, 1400000)

  /**
   * The invariant the handlers keep: both values in range, a non-empty
   * frequency window, and `oc_value_on` either equal to `oc_value` or holding
   * an overclock above 100 % saved by a suspend that dropped `oc_value` to 100 %.
   */
  predicate Valid(t: Tunables)
  {
    && MinOcValue <= t.ocValue <= MaxOcValue
    && MinOcValue <= t.ocValueOn <= MaxOcValue
    && t.lowFreq <= t.highFreq
    && (t.ocValueOn == t.ocValue || (t.ocValue == SuspendOcValue && t.ocValueOn > SuspendOcValue))
  }

  /** The `liveoc_update` call a handler makes when it moves from `before` to `after`. */
  function Notification(before: Tunables, after: Tunables): seq<Update>
  {
    if before == after then [] else [Update(after.ocValue, after.lowFreq, after.highFreq)]
  }

  /** `liveoc_ocvalue_write`: accept a parsed value in [90, 150] that differs from `oc_value`. */
  function WriteOcValue(t: Tunables, input: Option<u32>): (r: Tunables)
    ensures Valid(t) ==> Valid(r)
    ensures r != t <==> input.Some? && MinOcValue <= input.value <= MaxOcValue && input.value != t.ocValue
    ensures r != t ==> r == t.(ocValue := input.value, ocValueOn := input.value)
  {
    match input
    case None => t
    case Some(data) =>
      if MinOcValue <= data <= MaxOcValue && data != t.ocValue then
        t.(ocValue := data, ocValueOn := data)
      else
        t
  }

  /** `liveoc_octarget_low_write`: accept a new lower bound that does not exceed the upper one. */
  function WriteLowFreq(t: Tunables, input: Option<u32>): (r: Tunables)
    ensures Valid(t) ==> Valid(r)
    ensures r != t <==> input.Some? && input.value != t.lowFreq && input.value <= t.highFreq
    ensures r != t ==> r == t.(lowFreq := input.value)
  {
    match input
    case None => t
    case Some(data) =>
      if data != t.lowFreq && data <= t.highFreq then t.(lowFreq := data) else t
  }

  /** `liveoc_octarget_high_write`: accept a new upper bound that is not below the lower one. */
  function WriteHighFreq(t: Tunables, input: Option<u32>): (r: Tunables)
    ensures Valid(t) ==> Valid(r)
    ensures r != t <==> input.Some? && input.value != t.highFreq && input.value >= t.lowFreq
    ensures r != t ==> r == t.(highFreq := input.value)
  {
    match input
    case None => t
    case Some(data) =>
      if data != t.highFreq && data >= t.lowFreq then t.(highFreq := data) else t
  }

  /**
   * `powersave_early_suspend`: when the bus limit is automatic and the
   * overclock is above 100 %, save it in `oc_value_on` and drop to 100 %.
   */
  function Suspend(t: Tunables, busLimitAutomatic: bool): (r: Tunables)
    ensures Valid(t) ==> Valid(r)
    ensures r != t <==> busLimitAutomatic && t.ocValue > SuspendOcValue
    ensures r != t ==> r == t.(ocValue := SuspendOcValue, ocValueOn := t.ocValue)
  {
    if busLimitAutomatic && t.ocValue > SuspendOcValue then
      t.(ocValueOn := t.ocValue, ocValue := SuspendOcValue)
    else
      t
  }

  /** `powersave_late_resume`: bring back a saved value above 100 % that is not already in force. */
  function Resume(t: Tunables): (r: Tunables)
    ensures Valid(t) ==> Valid(r)
    ensures r != t <==> t.ocValueOn > SuspendOcValue && t.ocValueOn != t.ocValue
    ensures r != t ==> r == t.(ocValue := t.ocValueOn)
  {
    if t.ocValueOn > SuspendOcValue && t.ocValueOn != t.ocValue then t.(ocValue := t.ocValueOn) else t
  }

  /** In a valid state, suspend followed by resume gives back an overclock value above 100 %, whatever the bus setting. */
  lemma SuspendResumeRestoresOcValue(t: Tunables, busLimitAutomatic: bool)
    requires Valid(t) && t.ocValue > SuspendOcValue
    ensures Resume(Suspend(t, busLimitAutomatic)).ocValue == t.ocValue
  {
  }

  /** When nothing is saved apart from the value in force, suspend followed by resume restores every global. */
  lemma SuspendResumeRoundTrip(t: Tunables, busLimitAutomatic: bool)
    requires t.ocValueOn == t.ocValue
    ensures Resume(Suspend(t, busLimitAutomatic)) == t
  {
  }

  /** One invocation of a handler. */
  datatype Event =
    | OcValueWritten(input: Option<u32>)
    | LowFreqWritten(input: Option<u32>)
    | HighFreqWritten(input: Option<u32>)
    | EarlySuspend(busLimitAutomatic: bool)
    | LateResume

  /** The effect of one handler invocation on the globals. */
  function Apply(t: Tunables, e: Event): (r: Tunables)
    ensures Valid(t) ==> Valid(r)
  {
    match e
    case OcValueWritten(input) => WriteOcValue(t, input)
    case LowFreqWritten(input) => WriteLowFreq(t, input)
    case HighFreqWritten(input) => WriteHighFreq(t, input)
    case EarlySuspend(busLimitAutomatic) => Suspend(t, busLimitAutomatic)
    case LateResume => Resume(t)
  }

  /** The globals after the handlers ran in the order `events`. */
  function Run(t: Tunables, events: seq<Event>): Tunables
    decreases |events|
  {
    if events == [] then t else Run(Apply(t, events[0]), events[1..])
  }

  /** The invariant holds after any sequence of handler invocations from a valid state. */
  lemma {:induction false} RunPreservesValid(t: Tunables, events: seq<Event>)
    requires Valid(t)
    ensures Valid(Run(t, events))
    decreases |events|
  {
    if events != [] {
      RunPreservesValid(Apply(t, events[0]), events[1..]);
    }
  }

  /** Every state the driver can reach from its initial globals satisfies the invariant. */
  lemma ReachableStatesValid(events: seq<Event>)
    ensures Valid(Run(Initial, events))
  {
    RunPreservesValid(Initial, events);
  }

  /** In every state the driver can reach, suspend followed by resume gives back an overclock value above 100 %. */
  lemma ReachableSuspendResumeRestores(events: seq<Event>, busLimitAutomatic: bool)
    ensures var t := Run(Initial, events);
      t.ocValue > SuspendOcValue ==> Resume(Suspend(t, busLimitAutomatic)).ocValue == t.ocValue
  {
    ReachableStatesValid(events);
    var t := Run(Initial, events);
    if t.ocValue > SuspendOcValue {
      SuspendResumeRestoresOcValue(t, busLimitAutomatic);
    }
  }

  /** The driver's globals, with the `liveoc_update` calls recorded in a ghost log. */
  class Driver {
    var ocValue: int
    var ocValueOn: int
    var ocLowFreq: u32
    var ocHighFreq: u32
    /** The arguments of every `liveoc_update` call made so far, oldest first. */
    ghost var updates: seq<Update>

    function State(): Tunables
      reads this
    {
      Tunables(ocValue, ocValueOn, ocLowFreq, ocHighFreq)
    }

    /** The static initialisers of the four globals; no update has been issued yet. */
    constructor ()
      ensures State() == Initial && Valid(State()) && updates == []
    {
      ocValue, ocValueOn := 100, 100;
      ocLowFreq, ocHighFreq := 800000, 1400000;
      updates := [];
    }

    /** The external `liveoc_update`, recorded in the log with the current globals. */
    method NotifyUpdate()
      modifies this`updates
      ensures updates == old(updates) + [Update(ocValue, ocLowFreq, ocHighFreq)]
    {
      updates := updates + [Update(ocValue, ocLowFreq, ocHighFreq)];
    }

    /** `liveoc_ocvalue_write`; returns `size` whatever the outcome. */
    method OcValueWrite(input: Option<u32>, size: nat) returns (written: nat)
      modifies this
      ensures State() == WriteOcValue(old(State()), input)
      ensures updates == old(updates) + Notification(old(State()), State())
      ensures written == size
    {
      if input.Some? {
        var data := input.value;
        if data >= MinOcValue && data <= MaxOcValue {
          if data != ocValue {
            ocValue := data;
            ocValueOn := data;
            NotifyUpdate();
          }
        }
      }
      written := size;
    }

    /** `liveoc_octarget_low_write`; returns `size` whatever the outcome. */
    method OcTargetLowWrite(input: Option<u32>, size: nat) returns (written: nat)
      modifies this
      ensures State() == WriteLowFreq(old(State()), input)
      ensures updates == old(updates) + Notification(old(State()), State())
      ensures written == size
    {
      if input.Some? {
        var data := input.value;
        if data != ocLowFreq && data <= ocHighFreq {
          ocLowFreq := data;
          NotifyUpdate();
        }
      }
      written := size;
    }

    /** `liveoc_octarget_high_write`; returns `size` whatever the outcome. */
    method OcTargetHighWrite(input: Option<u32>, size: nat) returns (written: nat)
      modifies this
      ensures State() == WriteHighFreq(old(State()), input)
      ensures updates == old(updates) + Notification(old(State()), State())
      ensures written == size
    {
      if input.Some? {
        var data := input.value;
        if data != ocHighFreq && data >= ocLowFreq {
          ocHighFreq := data;
          NotifyUpdate();
        }
      }
      written := size;
    }

    /** `powersave_early_suspend`, with the external `bus_limit_automatic` flag as an input. */
    method PowersaveEarlySuspend(busLimitAutomatic: bool)
      modifies this
      ensures State() == Suspend(old(State()), busLimitAutomatic)
      ensures updates == old(updates) + Notification(old(State()), State())
    {
      if busLimitAutomatic {
        if ocValue > SuspendOcValue {
          ocValueOn := ocValue;
          ocValue := SuspendOcValue;
          NotifyUpdate();
        }
      }
    }

    /** `powersave_late_resume`. */
    method PowersaveLateResume()
      modifies this
      ensures State() == Resume(old(State()))
      ensures updates == old(updates) + Notification(old(State()), State())
    {
      if ocValueOn > SuspendOcValue && ocValueOn != ocValue {
        ocValue := ocValueOn;
        NotifyUpdate();
      }
    }

    /** `get_oc_value`. */
    function GetOcValue(): (v: int)
      reads this
      ensures Valid(State()) ==> MinOcValue <= v <= MaxOcValue
    {
      ocValue
    }

    /** `get_oc_low_freq`. */
    function GetOcLowFreq(): (f: u32)
      reads this
      ensures Valid(State()) ==> f <= ocHighFreq
    {
      ocLowFreq
    }

    /** `get_oc_high_freq`. */
    function GetOcHighFreq(): (f: u32)
      reads this
      ensures Valid(State()) ==> f >= ocLowFreq
    {
      ocHighFreq
    }
  }

  /** Screen off then on with the bus limit automatic: two updates, and the overclock is back. */
  method SuspendThenResume(driver: Driver)
    requires Valid(driver.State()) && driver.ocValueOn == driver.ocValue
    modifies driver
    ensures driver.State() == old(driver.State())
    ensures old(driver.ocValue) > SuspendOcValue ==>
      driver.updates == old(driver.updates) + [
        Update(SuspendOcValue, driver.ocLowFreq, driver.ocHighFreq),
        Update(driver.ocValue, driver.ocLowFreq, driver.ocHighFreq)]
    ensures old(driver.ocValue) <= SuspendOcValue ==> driver.updates == old(driver.updates)
  {
    driver.PowersaveEarlySuspend(true);
    driver.PowersaveLateResume();
    SuspendResumeRoundTrip(old(driver.State()), true);
  }
}
