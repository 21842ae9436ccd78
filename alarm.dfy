/**
 * The alarm helper of src/alarm.ts: a name-to-callback registry filled by
 * `createAlarm`, which also decides whether the host alarm is (re)created,
 * and the single `onAlarm` listener that dispatches by alarm name.
 *
 * Whether the alarm already exists (`chrome.alarms.get`) is an input, and
 * the host's `create` calls are recorded in order.
 */
module Alarm {
  import opened Wrappers
  import opened Js
  import opened Host
  import opened Debug

  /** `Partial<AlarmOptions>`. */
  datatype AlarmOptions = AlarmOptions(
    periodInMinutes: Prop<real>,
    resetAlarm: Prop<bool>,
    replaceCallback: Prop<bool>)

  const NoOptions := AlarmOptions(Omitted, Omitted, Omitted)

  /** The options after defaulting; explicitly `undefined` ones stay `undefined`. */
  datatype ResolvedOptions = ResolvedOptions(
    periodInMinutes: Option<real>,
    resetAlarm: Option<bool>,
    replaceCallback: Option<bool>)

  /** `{resetAlarm: false, periodInMinutes: 10, replaceCallback: true, ...options}`. */
  function Defaults(o: AlarmOptions): (r: ResolvedOptions)
    ensures r.periodInMinutes == Spread(Some(10.0), o.periodInMinutes)
    ensures r.resetAlarm == Spread(Some(false), o.resetAlarm)
    ensures r.replaceCallback == Spread(Some(true), o.replaceCallback)
  {
    ResolvedOptions(
      Spread(Some(10.0), o.periodInMinutes),
      Spread(Some(false), o.resetAlarm),
      Spread(Some(true), o.replaceCallback))
  }

  /** Omitted options are a 10-minute period, no reset, and replacing the callback. */
  lemma DefaultsApplied()
    ensures Defaults(NoOptions) == ResolvedOptions(Some(10.0), Some(false), Some(true))
  {
  }

  /** A `chrome.alarms.create(name, {periodInMinutes})` call. */
  datatype AlarmCreate = AlarmCreate(name: string, periodInMinutes: Option<real>)

  /**
   * Whether `createAlarm` creates the host alarm: always when it does not
   * exist yet; when it exists, unless `resetAlarm` is falsy while DEBUG is on.
   */
  function ShouldCreate(alarmExists: bool, resetAlarm: Option<bool>, debugOn: bool): (r: bool)
    ensures !alarmExists ==> r
    ensures alarmExists ==> (r <==> IsSet(resetAlarm) || !debugOn)
  {
    if alarmExists then !(!IsSet(resetAlarm) && debugOn) else true
  }

  /** With DEBUG off an existing alarm is always reset; so it is whenever `resetAlarm` is true. */
  lemma ResetRule(alarmExists: bool, resetAlarm: Option<bool>, debugOn: bool)
    ensures !debugOn ==> ShouldCreate(alarmExists, resetAlarm, debugOn)
    ensures resetAlarm == Some(true) ==> ShouldCreate(alarmExists, resetAlarm, debugOn)
    ensures !ShouldCreate(alarmExists, resetAlarm, debugOn) <==> alarmExists && debugOn && resetAlarm != Some(true)
  {
  }

  /** `if (!alarmCallbacks[name] || replaceCallback) alarmCallbacks[name] = callback`. */
  function StoreCallback(callbacks: map<string, Callback>, name: string, cb: Callback, replace: Option<bool>)
    : (r: map<string, Callback>)
    ensures r.Keys == callbacks.Keys + {name}
    ensures name !in callbacks || IsSet(replace) ==> r[name] == cb
    ensures name in callbacks && !IsSet(replace) ==> r[name] == callbacks[name]
    ensures forall n :: n in callbacks && n != name ==> r[n] == callbacks[n]
  {
    if name !in callbacks || IsSet(replace) then callbacks[name := cb] else callbacks
  }

  /** How `await cb()` ends: normally, or by a throw or a rejection. */
  datatype CallbackOutcome = Completes | Fails(err: Value)

  /**
   * One run of the `onAlarm` listener: which callback it invoked, and the
   * error it caught and logged. There is no failure of its own: the
   * listener's promise always fulfils.
   */
  datatype AlarmRun = AlarmRun(invoked: Option<Callback>, logged: Option<Value>)

  /** The listener's dispatch on an alarm named `name`. */
  function Dispatch(callbacks: map<string, Callback>, name: string, outcome: Callback -> CallbackOutcome)
    : (r: AlarmRun)
    ensures r.invoked.Some? <==> name in callbacks
    ensures r.invoked.Some? ==> r.invoked.value == callbacks[name]
    ensures r.logged.Some? <==> name in callbacks && outcome(callbacks[name]).Fails?
    ensures r.logged.Some? ==> r.logged.value == outcome(callbacks[name]).err
  {
    if name !in callbacks then AlarmRun(None, None)
    else
      match outcome(callbacks[name])
      case Completes => AlarmRun(Some(callbacks[name]), None)
      case Fails(err) => AlarmRun(Some(callbacks[name]), Some(err))
  }

  /**
   * After storing `cb` under `name`, an alarm with that name invokes `cb`
   * unless an earlier callback was kept; alarms with other names dispatch
   * as before.
   */
  lemma StoreThenDispatch(callbacks: map<string, Callback>, name: string, cb: Callback, replace: Option<bool>,
                          other: string, outcome: Callback -> CallbackOutcome)
    requires other != name
    ensures var after := StoreCallback(callbacks, name, cb, replace);
            && Dispatch(after, name, outcome).invoked ==
               Some(if name in callbacks && !IsSet(replace) then callbacks[name] else cb)
            && Dispatch(after, other, outcome) == Dispatch(callbacks, other, outcome)
  {
  }

  /** The `alarmCallbacks` record, with the host alarms `createAlarm` created. */
  class AlarmRegistry {
    var callbacks: map<string, Callback>
    var created: seq<AlarmCreate>

    /** The record starts empty. */
    constructor()
      ensures callbacks == map[] && created == []
    {
      callbacks := map[];
      created := [];
    }

    /**
     * `createAlarm(name, callback, options)`, given whether the host had an
     * alarm of that name and the DEBUG flag.
     */
    method CreateAlarm(name: string, callback: Callback, options: AlarmOptions, alarmExists: bool, debug: DebugFlag)
      modifies this
      ensures var o := Defaults(options);
              created == old(created)
                + (if ShouldCreate(alarmExists, o.resetAlarm, debug.on) then [AlarmCreate(name, o.periodInMinutes)] else [])
      ensures callbacks == StoreCallback(old(callbacks), name, callback, Defaults(options).replaceCallback)
    {
      var o := Defaults(options);
      if alarmExists {
        if !IsSet(o.resetAlarm) && debug.on {
          // only a warning is logged
        } else {
          created := created + [AlarmCreate(name, o.periodInMinutes)];
        }
      } else {
        created := created + [AlarmCreate(name, o.periodInMinutes)];
      }
      if name !in callbacks || IsSet(o.replaceCallback) {
        callbacks := callbacks[name := callback];
      }
    }

    /** The `onAlarm` listener on an alarm named `name`. */
    function OnAlarm(name: string, outcome: Callback -> CallbackOutcome): (r: AlarmRun)
      reads this
      ensures r.invoked == (if name in callbacks then Some(callbacks[name]) else None)
      ensures r.logged.Some? ==> r.invoked.Some? && outcome(r.invoked.value) == Fails(r.logged.value)
    {
      Dispatch(callbacks, name, outcome)
    }
  }
}
