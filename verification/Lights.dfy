/** The light HAL: the latest state of each light, and which of them the one LED shows. */
module LightsHal {
  import opened CTypes
  import opened LedColor

  const BACKLIGHT := 0
  const BATTERY := 3
  const NOTIFICATIONS := 4

  datatype FlashMode = NoFlash | Timed | Hardware

  datatype HwLightState = HwLightState(color: uint32, flashMode: FlashMode, flashOnMs: int, flashOffMs: int)

  const OFF := HwLightState(0, NoFlash, 0, 0)

  datatype NotifState = NotifState(id: int, state: HwLightState)

  /** What the LED was told: to blink with the state's times, or the brightness to hold. */
  datatype Applied = Blink(onMs: int, offMs: int) | Hold(brightness: uint32)

  function Apply(state: HwLightState, max: uint32): Applied {
    if state.flashMode == Timed && state.flashOnMs > 0 && state.flashOffMs > 0
    then Blink(state.flashOnMs, state.flashOffMs) else Hold(ScaledBrightness(state.color, max))
  }

  /** What applying a state tells the LED: to blink, on time first, only for timed states with both times; else to hold. */
  lemma ApplyMeaning(state: HwLightState, max: uint32)
    requires max <= LARGEST_MAX
    ensures var a := Apply(state, max);
      && (a.Blink? <==> state.flashMode == Timed && 0 < state.flashOnMs && 0 < state.flashOffMs)
      && (a.Blink? ==> a.onMs == state.flashOnMs && a.offMs == state.flashOffMs)
      && (a.Hold? && !IsLit(state.color) ==> a.brightness == 0)
      && (a.Hold? && state.color == 0xFFFF_FFFF ==> a.brightness == max)
  {
    hide ScaledBrightness, IsLit;
    if !IsLit(state.color) {
      DarkIsZero(state.color, max);
    }
    ScaledRange(state.color, max);
  }

  /** A LED told to hold gets the exact brightness of the colour's channels, less than `2 * max / 255 + 1` short. */
  lemma HeldAccurate(state: HwLightState, a: byte, r: byte, g: byte, b: byte, max: uint32)
    requires max <= LARGEST_MAX && state.color == Argb(a, r, g, b) && Apply(state, max).Hold?
    ensures var s, exact := Apply(state, max).brightness as real, ExactScaled(a, r, g, b, max);
      s <= exact < s + 2.0 * max as real / 255.0 + 1.0
  {
    hide ScaledBrightness, ExactScaled, Argb;
    ColorAccurate(a, r, g, b, max);
  }

  /** Ids for which `setLightState` has a handler that does something. */
  predicate Handled(id: int) {
    id == NOTIFICATIONS || id == BATTERY
  }

  predicate Supported(id: int) {
    Handled(id) || id == BACKLIGHT
  }

  // ----- the state of one call -----

  /** Every entry of light `id` replaced. */
  function Updated(states: seq<NotifState>, id: int, state: HwLightState): (r: seq<NotifState>)
    ensures |r| == |states|
  {
    seq(|states|, i requires 0 <= i < |states| => if states[i].id == id then NotifState(id, state) else states[i])
  }

  /** The battery entry is the fallback: it is shown lit or not. */
  predicate Shows(n: NotifState) {
    n.id == BATTERY || IsLit(n.state.color)
  }

  /** The first entry from `k` on that is shown. */
  function Chosen(states: seq<NotifState>, k: nat): (r: nat)
    requires k < |states| && states[|states| - 1].id == BATTERY
    ensures k <= r < |states| && Shows(states[r])
    ensures forall i :: k <= i < r ==> !Shows(states[i])
    decreases |states| - k
  {
    if Shows(states[k]) then k else Chosen(states, k + 1)
  }

  /** Ordered by importance, ending in the battery fallback. */
  predicate Fallback(states: seq<NotifState>) {
    states != [] && states[|states| - 1].id == BATTERY
  }

  // ----- the object -----

  class Lights {
    const maxLedBrightness: uint32
    const notifStates: array<NotifState>
    var applied: seq<Applied>  // everything the LED was told, oldest first

    ghost predicate Valid()
      reads notifStates
    {
      Fallback(notifStates[..])
    }

    constructor (maxLedBrightness: uint32)
      ensures Valid() && fresh(notifStates) && applied == []
      ensures notifStates[..] == [NotifState(NOTIFICATIONS, OFF), NotifState(BATTERY, OFF)]
      ensures this.maxLedBrightness == maxLedBrightness
    {
      this.maxLedBrightness := maxLedBrightness;
      notifStates := new NotifState[2] [NotifState(NOTIFICATIONS, OFF), NotifState(BATTERY, OFF)];
      applied := [];
    }

    method ApplyNotificationState(state: HwLightState)
      modifies this
      ensures applied == old(applied) + [Apply(state, maxLedBrightness)]
    {
      var brightness := ScaledBrightness(state.color, maxLedBrightness);
      if state.flashMode == Timed && state.flashOnMs > 0 && state.flashOffMs > 0 {
        applied := applied + [Blink(state.flashOnMs, state.flashOffMs)];
      } else {
        applied := applied + [Hold(brightness)];
      }
    }

    /** One pass over the array: entries of the light are replaced, and the first entry to show is applied, once. */
    method SetLightNotification(id: int, state: HwLightState)
      requires Valid()
      modifies this, notifStates
      ensures Valid() && notifStates[..] == Updated(old(notifStates[..]), id, state)
      ensures applied == old(applied) + [Apply(notifStates[Chosen(notifStates[..], 0)].state, maxLedBrightness)]
    {
      ghost var target := Updated(notifStates[..], id, state);
      ghost var choice := Chosen(target, 0);
      var found := false;
      for i := 0 to notifStates.Length
        invariant forall k :: 0 <= k < i ==> notifStates[k] == target[k]
        invariant forall k :: i <= k < notifStates.Length ==> notifStates[k] == old(notifStates[k])
        invariant found <==> choice < i
        invariant applied == old(applied) + if found then [Apply(target[choice].state, maxLedBrightness)] else []
      {
        if notifStates[i].id == id {
          notifStates[i] := NotifState(notifStates[i].id, state);
        }
        if !found && (notifStates[i].id == BATTERY || IsLit(notifStates[i].state.color)) {
          found := true;
          ApplyNotificationState(notifStates[i].state);
        }
      }
      assert notifStates[..] == target;
    }

    /** `ok` is false for a light the HAL does not support. */
    method SetLightState(id: int, state: HwLightState) returns (ok: bool)
      requires Valid()
      modifies this, notifStates
      ensures Valid() && ok == Supported(id) == (id == 0 || id == 3 || id == 4)
      ensures Model(notifStates[..], applied) ==
        Next(Model(old(notifStates[..]), old(applied)), Call(id, state), maxLedBrightness)
    {
      if Handled(id) {
        SetLightNotification(id, state);
        ok := true;
      } else {
        ok := id == BACKLIGHT;
      }
    }
  }

  // ----- runs of calls -----

  datatype Call = Call(id: int, state: HwLightState)

  datatype Model = Model(states: seq<NotifState>, applied: seq<Applied>)

  function Next(m: Model, c: Call, max: uint32): Model
    requires Fallback(m.states)
  {
    if !Handled(c.id) then m
    else
      var states := Updated(m.states, c.id, c.state);
      Model(states, m.applied + [Apply(states[Chosen(states, 0)].state, max)])
  }

  function Run(m: Model, calls: seq<Call>, max: uint32): (r: Model)
    requires Fallback(m.states)
    ensures |r.states| == |m.states| && Fallback(r.states)
    decreases |calls|
  {
    if calls == [] then m else Next(Run(m, calls[..|calls| - 1], max), calls[|calls| - 1], max)
  }

  /** The state light `id` was last given, or `initial`. */
  function Latest(calls: seq<Call>, id: int, initial: HwLightState): HwLightState
    decreases |calls|
  {
    if calls == [] then initial
    else
      var last := calls[|calls| - 1];
      if last.id == id && Handled(id) then last.state else Latest(calls[..|calls| - 1], id, initial)
  }

  function HandledCalls(calls: seq<Call>): nat
    decreases |calls|
  {
    if calls == [] then 0
    else HandledCalls(calls[..|calls| - 1]) + if Handled(calls[|calls| - 1].id) then 1 else 0
  }

  /** Each entry holds the latest state of its light, and nothing else about the calls. */
  lemma {:induction false} EntriesAreLatest(m: Model, calls: seq<Call>, max: uint32, i: nat)
    requires Fallback(m.states) && i < |m.states|
    ensures Run(m, calls, max).states[i] == NotifState(m.states[i].id, Latest(calls, m.states[i].id, m.states[i].state))
    decreases |calls|
  {
    if calls != [] {
      EntriesAreLatest(m, calls[..|calls| - 1], max, i);
    }
  }

  /** Each notification or battery update applies exactly one state: the one the entries call for then. */
  lemma {:induction false} LastApplied(m: Model, calls: seq<Call>, max: uint32)
    requires Fallback(m.states)
    ensures var r := Run(m, calls, max);
      && |r.applied| == |m.applied| + HandledCalls(calls)
      && (0 < HandledCalls(calls) ==>
            r.applied[|r.applied| - 1] == Apply(r.states[Chosen(r.states, 0)].state, max))
    decreases |calls|
  {
    if calls != [] {
      LastApplied(m, calls[..|calls| - 1], max);
    }
  }

  /**
   * For an array of any length ending in the battery: entry `k` is what the LED was told last when its latest state
   * is lit, or it is the battery's, and no more important light is lit.
   */
  lemma MostImportantShown(m: Model, calls: seq<Call>, max: uint32, k: nat)
    requires Fallback(m.states) && k < |m.states| && 0 < HandledCalls(calls)
    requires var latest := Latest(calls, m.states[k].id, m.states[k].state); Shows(NotifState(m.states[k].id, latest))
    requires forall i :: 0 <= i < k ==>
      m.states[i].id != BATTERY && !IsLit(Latest(calls, m.states[i].id, m.states[i].state).color)
    ensures var r := Run(m, calls, max);
      r.applied != [] && r.applied[|r.applied| - 1] == Apply(Latest(calls, m.states[k].id, m.states[k].state), max)
  {
    var r := Run(m, calls, max);
    forall i: nat | i <= k ensures r.states[i] == NotifState(m.states[i].id, Latest(calls, m.states[i].id, m.states[i].state)) {
      EntriesAreLatest(m, calls, max, i);
    }
    LastApplied(m, calls, max);
    assert Chosen(r.states, 0) == k;
  }

  /** The two lights of the HAL: the notification when lit, else the battery. */
  lemma NotificationElseBattery(calls: seq<Call>, max: uint32)
    requires 0 < HandledCalls(calls)
    ensures var r := Run(Model([NotifState(NOTIFICATIONS, OFF), NotifState(BATTERY, OFF)], []), calls, max);
      var notification := Latest(calls, NOTIFICATIONS, OFF);
      |r.applied| == HandledCalls(calls) &&
      r.applied[|r.applied| - 1] ==
        Apply(if IsLit(notification.color) then notification else Latest(calls, BATTERY, OFF), max)
  {
    var m := Model([NotifState(NOTIFICATIONS, OFF), NotifState(BATTERY, OFF)], []);
    LastApplied(m, calls, max);
    MostImportantShown(m, calls, max, if IsLit(Latest(calls, NOTIFICATIONS, OFF).color) then 0 else 1);
  }

  /** With both lights off the LED was last told to hold brightness 0. */
  lemma BothOffIsDark(calls: seq<Call>, max: uint32)
    requires 0 < HandledCalls(calls) && max <= LARGEST_MAX
    requires !IsLit(Latest(calls, NOTIFICATIONS, OFF).color) && !IsLit(Latest(calls, BATTERY, OFF).color)
    requires Latest(calls, BATTERY, OFF).flashMode != Timed
    ensures var r := Run(Model([NotifState(NOTIFICATIONS, OFF), NotifState(BATTERY, OFF)], []), calls, max);
      r.applied != [] && r.applied[|r.applied| - 1] == Hold(0)
  {
    NotificationElseBattery(calls, max);
    ApplyMeaning(Latest(calls, BATTERY, OFF), max);
  }
}
