/** The controller slots: the setters' sections, the report builder and the binding of devices. */
module PadCode {
  import opened Basics
  import opened PadOutput

  class PadSlot {
    var out_dirty: bool
    var motor_large: nat
    var motor_small: nat
    var lightbar: seq<nat>
    var player_leds: nat
    var player_led_fade: bool
    var mic_led: nat
    var led_brightness: nat
    var leds_disabled: bool
    var trigger_mode: seq<nat>
    var trigger_params: seq<seq<nat>>
    var bound: bool
    var path: string

    ghost predicate Valid()
      reads this
    {
      |lightbar| == 3 && |trigger_mode| == 2 && |trigger_params| == 2 && |trigger_params[0]| == 10
        && |trigger_params[1]| == 10
    }

    /** The ten fields in front of the triggers. */
    ghost function Head(): (head: seq<nat>)
      reads `motor_large, `motor_small, `lightbar, `player_leds, `player_led_fade, `led_brightness, `leds_disabled,
        `mic_led
      requires |lightbar| == 3
      ensures |head| == 10
    {
      [motor_large, motor_small] + lightbar
      + [player_leds, AsNumber(player_led_fade), led_brightness, AsNumber(leds_disabled), mic_led]
    }

    /** The output fields in the order of the handshake model. */
    ghost function Contents(): Fields
      reads this
      requires Valid()
    {
      Head() + trigger_mode + trigger_params[0] + trigger_params[1]
    }

    constructor ()
      ensures Valid() && !bound && !out_dirty && Contents() == seq(32, _ => 0)
    {
      out_dirty, motor_large, motor_small, lightbar, player_leds, player_led_fade := false, 0, 0, [0, 0, 0], 0, false;
      mic_led, led_brightness, leds_disabled, trigger_mode := 0, 0, false, [0, 0];
      trigger_params := [[0, 0, 0, 0, 0, 0, 0, 0, 0, 0], [0, 0, 0, 0, 0, 0, 0, 0, 0, 0]];
      bound, path := false, "";
    }

    method MarkOutputDirty()
      modifies `out_dirty
      ensures out_dirty
    {
      out_dirty := true;
    }

    method SetRumble(large: nat, small: nat)
      requires Valid()
      modifies this
      ensures Valid() && out_dirty && Contents() == Updated(old(Contents()), Rumble(large, small))
      ensures motor_large == large && motor_small == small
    {
      ghost var before := Contents();
      motor_large := large;
      motor_small := small;
      MarkOutputDirty();
      RumbleUpdates(before, large, small);
    }

    method SetLightBar(r: nat, g: nat, b: nat)
      requires Valid()
      modifies this
      ensures Valid() && out_dirty && Contents() == Updated(old(Contents()), LightBar(r, g, b))
      ensures lightbar == [r, g, b]
    {
      ghost var before := Contents();
      lightbar := lightbar[0 := r];
      lightbar := lightbar[1 := g];
      lightbar := lightbar[2 := b];
      MarkOutputDirty();
      LightBarUpdates(before, r, g, b);
    }

    method SetPlayerLeds(bitmask: nat, fade: bool)
      requires Valid()
      modifies this
      ensures Valid() && out_dirty && Contents() == Updated(old(Contents()), PlayerLeds(bitmask, fade))
      ensures player_leds == bitmask && player_led_fade == fade
    {
      ghost var before := Contents();
      player_leds := bitmask;
      player_led_fade := fade;
      MarkOutputDirty();
      TwoUpdates(before, PlayerLeds(bitmask, fade));
    }

    method SetMicLed(mode: nat)
      requires Valid()
      modifies this
      ensures Valid() && out_dirty && Contents() == Updated(old(Contents()), MicLed(mode))
      ensures mic_led == mode
    {
      ghost var before := Contents();
      mic_led := mode;
      MarkOutputDirty();
      OneUpdate(before, mode);
    }

    method SetLedOptions(brightness: nat, disabled: bool)
      requires Valid()
      modifies this
      ensures Valid() && out_dirty && Contents() == Updated(old(Contents()), LedOptions(brightness, disabled))
      ensures led_brightness == brightness && leds_disabled == disabled
    {
      ghost var before := Contents();
      led_brightness := brightness;
      leds_disabled := disabled;
      MarkOutputDirty();
      TwoUpdates(before, LedOptions(brightness, disabled));
    }

    method SetTriggerEffect(left: bool, mode: nat, params: Option<seq<nat>>)
      requires Valid() && (params.Some? ==> |params.value| == 10)
      modifies this
      ensures Valid() && out_dirty && Contents() == Updated(old(Contents()), TriggerEffect(left, mode, params))
      ensures trigger_mode == old(trigger_mode)[if left then 0 else 1 := mode]
      ensures trigger_params == old(trigger_params)[if left then 0 else 1 :=
        if params.Some? then params.value else [0, 0, 0, 0, 0, 0, 0, 0, 0, 0]]
    {
      hide Updated, Head;
      ghost var head := Head();
      TriggerInPlace(head, trigger_mode, trigger_params[0], trigger_params[1], left, mode, params);
      var i := if left then 0 else 1;
      trigger_mode := trigger_mode[i := mode];
      trigger_params := trigger_params[i := if params.Some? then params.value else [0, 0, 0, 0, 0, 0, 0, 0, 0, 0]];
      MarkOutputDirty();
      assert Head() == head;
    }

    /** The report of the pending state; the state is no longer dirty. */
    method BuildOutput() returns (out: Report)
      requires Valid()
      modifies `out_dirty
      ensures Valid() && !out_dirty && Contents() == old(Contents()) && out == Render(Contents())
      ensures out.leftRumble == motor_large && out.rightRumble == motor_small
      ensures out.lightbar == (lightbar[0], lightbar[1], lightbar[2])
      ensures out.playerLeds == player_leds && out.playerLedFade == player_led_fade
      ensures out.brightness == led_brightness && out.disableLeds == leds_disabled
      ensures out.microphoneLed == MicOn <==> mic_led == 1
      ensures out.microphoneLed == MicPulse <==> mic_led == 2
      ensures Maps(trigger_mode[0], trigger_params[0], out.left) && Maps(trigger_mode[1], trigger_params[1], out.right)
    {
      var mic := MicOff;
      match mic_led {
        case 1 => mic := MicOn;
        case 2 => mic := MicPulse;
        case _ =>
      }
      var effects: seq<Effect> := [];
      for i := 0 to 2
        invariant |effects| == i && forall k :: 0 <= k < i ==> effects[k] == EffectOf(Contents(), k)
      {
        var mode, q := trigger_mode[i], trigger_params[i];
        assert Contents()[TRIGGER_MODE + i] == mode
          && Contents()[TRIGGER_PARAMS + 10 * i..TRIGGER_PARAMS + 10 * i + 10] == q;
        var effect := NoResistance;
        match mode {
          case 1 => effect := Continuous(q[0], q[1]);
          case 2 => effect := Section(q[0], q[1]);
          case 3 => effect := EffectEx(q[0], q[1] != 0, q[2], q[3], q[4], q[5]);
          case _ =>
        }
        effects := effects + [effect];
      }
      out := Report(motor_large, motor_small, (lightbar[0], lightbar[1], lightbar[2]), player_leds, player_led_fade,
                    led_brightness,
                    leds_disabled, mic, effects[0], effects[1]);
      out_dirty := false;
    }

    method Unbind()
      modifies `bound, `path
      ensures !bound && path == ""
    {
      bound := false;
      path := "";
    }

    /** One turn of the reader for a bound slot: `readable` and `reconnects` say what the
        device answers. A dirty slot sends exactly one report, of its present fields; a
        device that is gone leaves a free slot, whose fields wait for the next device. */
    method ServiceSlot(readable: bool, reconnects: bool) returns (alive: bool, sent: Option<Report>)
      requires Valid() && bound
      modifies `out_dirty, `bound, `path
      ensures Valid() && Contents() == old(Contents())
      ensures alive <==> readable || reconnects
      ensures if alive then bound && path == old(path) else !bound && path == ""
      ensures sent == (if readable && old(out_dirty) then Some(Render(Contents())) else None)
      ensures out_dirty <==> old(out_dirty) && sent == None
    {
      hide Render;
      sent := None;
      if !readable {
        if !reconnects {
          Unbind();
          return false, sent;
        }
        return true, sent;
      }
      var dirty := out_dirty;
      if dirty {
        var out := BuildOutput();
        sent := Some(out);
      }
      return true, sent;
    }
  }

  /** What a trigger does for its mode and parameters. */
  predicate Maps(mode: nat, q: seq<nat>, effect: Effect)
    requires |q| == 10
  {
    && (effect.Continuous? <==> mode == 1) && (effect.Section? <==> mode == 2) && (effect.EffectEx? <==> mode == 3)
    && (mode == 1 ==> effect.startPosition == q[0] && effect.force == q[1])
    && (mode == 2 ==> effect.sectionStart == q[0] && effect.endPosition == q[1])
    && (mode == 3 ==>
          && effect.exStart == q[0] && (effect.keepEffect <==> q[1] != 0)
          && effect.beginForce == q[2] && effect.middleForce == q[3] && effect.endForce == q[4]
          && effect.frequency == q[5])
  }

  /** A setter's whole update. */
  function Updated(f: Fields, u: Update): Fields
    requires u.Valid()
  {
    AssignmentsAreFields(u);
    Assigned(f, Assignments(u), |Assignments(u)|)
  }

  lemma {:induction false} OneUpdate(f: Fields, mic: nat)
    ensures Updated(f, MicLed(mic)) == f[MIC_LED := mic]
  {
    assert Assigned(f, Assignments(MicLed(mic)), 0) == f;
  }

  lemma {:induction false} RumbleUpdates(f: Fields, large: nat, small: nat)
    ensures Updated(f, Rumble(large, small)) == f[MOTOR_LARGE := large][MOTOR_SMALL := small]
  {
    var a := Assignments(Rumble(large, small));
    assert Assigned(f, a, 1) == f[MOTOR_LARGE := large];
  }

  lemma {:induction false} LightBarUpdates(f: Fields, r: nat, g: nat, b: nat)
    ensures Updated(f, LightBar(r, g, b)) == f[LIGHTBAR := r][LIGHTBAR + 1 := g][LIGHTBAR + 2 := b]
  {
    var a := Assignments(LightBar(r, g, b));
    assert Assigned(f, a, 1) == f[LIGHTBAR := r];
    assert Assigned(f, a, 2) == f[LIGHTBAR := r][LIGHTBAR + 1 := g];
  }

  lemma {:induction false} TwoUpdates(f: Fields, u: Update)
    requires u.PlayerLeds? || u.LedOptions?
    ensures |Assignments(u)| == 2 && InFields(Assignments(u))
    ensures var a := Assignments(u); Updated(f, u) == f[a[0].0 := a[0].1][a[1].0 := a[1].1]
  {
    var a := Assignments(u);
    assert Assigned(f, a, 1) == f[a[0].0 := a[0].1];
  }

  lemma {:induction false} TriggerUpdates(f: Fields, left: bool, mode: nat, params: Option<seq<nat>>)
    requires params.Some? ==> |params.value| == 10
    ensures var i := if left then 0 else 1;
      var q := if params.Some? then params.value else seq(10, _ => 0);
      Updated(f, TriggerEffect(left, mode, params)) ==
        f[TRIGGER_MODE + i := mode][..TRIGGER_PARAMS + 10 * i] + q + f[TRIGGER_PARAMS + 10 * i + 10..]
  {
    hide Assignments, Assigned;
    var u := TriggerEffect(left, mode, params);
    var i := if left then 0 else 1;
    var q := if params.Some? then params.value else seq(10, _ => 0);
    var target := f[TRIGGER_MODE + i := mode][..TRIGGER_PARAMS + 10 * i] + q + f[TRIGGER_PARAMS + 10 * i + 10..];
    TriggerLength(u);
    AssignmentsAreFields(u);
    forall k | 0 <= k < 32 ensures Updated(f, u)[k] == target[k] {
      ParamAssigned(f, u, 10, k);
    }
  }

  /** The same update on the arrays the slot keeps. */
  lemma {:induction false} TriggerInPlace(head: seq<nat>, modes: seq<nat>, first: seq<nat>, second: seq<nat>,
        left: bool, mode: nat, params: Option<seq<nat>>)
    requires |head| == 10 && |modes| == 2 && |first| == 10 == |second| && (params.Some? ==> |params.value| == 10)
    ensures var q := if params.Some? then params.value else [0, 0, 0, 0, 0, 0, 0, 0, 0, 0];
      Updated(head + modes + first + second, TriggerEffect(left, mode, params)) ==
        head + modes[if left then 0 else 1 := mode] + (if left then q else first) + (if left then second else q)
  {
    hide Updated;
    var f := head + modes + first + second;
    TriggerUpdates(f, left, mode, params);
    if left {
      assert f[TRIGGER_MODE := mode][..TRIGGER_PARAMS] == head + modes[0 := mode] && f[TRIGGER_PARAMS + 10..] == second;
    } else {
      assert f[TRIGGER_MODE + 1 := mode][..TRIGGER_PARAMS + 10] == head + modes[1 := mode] + first
        && f[TRIGGER_PARAMS + 20..] == [];
    }
  }

  lemma {:induction false} TriggerLength(u: Update)
    requires u.Valid() && u.TriggerEffect?
    ensures |Assignments(u)| == 11
  {
  }

  /** Field k behind the mode and the first n parameters. */
  lemma {:induction false} ParamAssigned(f: Fields, u: Update, n: nat, k: nat)
    requires u.Valid() && u.TriggerEffect? && n <= 10 && InFields(Assignments(u)) && |Assignments(u)| == 11 && k < 32
    ensures var i := if u.left then 0 else 1;
      var at := TRIGGER_PARAMS + 10 * i;
      Assigned(f, Assignments(u), n + 1)[k] ==
        if at <= k < at + n then (if u.params.Some? then u.params.value[k - at] else 0)
          else f[TRIGGER_MODE + i := u.mode][k]
  {
    if n == 0 {
      assert Assigned(f, Assignments(u), 0) == f;
    } else {
      ParamAssigned(f, u, n - 1, k);
    }
  }

  // --------------------------------------------------------------- binding

  /** An enumerated device: its path, and whether opening it succeeds. */
  datatype DeviceInfo = DeviceInfo(path: string, opens: bool)

  ghost predicate IsBoundTo(slots: seq<PadSlot>, path: string)
    reads slots
  {
    exists k :: 0 <= k < |slots| && slots[k].bound && slots[k].path == path
  }

  /** No two bound slots share a path. */
  ghost predicate PathsDiffer(slots: seq<PadSlot>)
    reads slots
  {
    forall j, k | 0 <= j < k < |slots| :: slots[j].bound && slots[k].bound ==> slots[j].path != slots[k].path
  }

  ghost predicate Separate(slots: seq<PadSlot>) {
    forall j, k | 0 <= j < k < |slots| :: slots[j] != slots[k]
  }

  method FindBound(slots: seq<PadSlot>, path: string) returns (already: bool)
    ensures already <==> IsBoundTo(slots, path)
  {
    for k := 0 to |slots|
      invariant forall j :: 0 <= j < k ==> !(slots[j].bound && slots[j].path == path)
    {
      if slots[k].bound && slots[k].path == path {
        return true;
      }
    }
    return false;
  }

  method FindFree(slots: seq<PadSlot>) returns (free: nat)
    ensures free <= |slots|
    ensures free < |slots| ==> !slots[free].bound
    ensures forall j :: 0 <= j < free ==> slots[j].bound
  {
    for k := 0 to |slots|
      invariant forall j :: 0 <= j < k ==> slots[j].bound
    {
      if !slots[k].bound {
        return k;
      }
    }
    return |slots|;
  }

  ghost predicate IsOpenable(infos: seq<DeviceInfo>, path: string) {
    exists i :: 0 <= i < |infos| && infos[i].opens && infos[i].path == path
  }

  lemma Openable(infos: seq<DeviceInfo>, i: nat)
    requires i < |infos| && infos[i].opens
    ensures IsOpenable(infos, infos[i].path)
  {
  }

  ghost function BoundCount(slots: seq<PadSlot>): nat
    reads slots
  {
    if slots == [] then 0 else BoundCount(slots[..|slots| - 1]) + (if slots[|slots| - 1].bound then 1 else 0)
  }

  method CountBound(slots: seq<PadSlot>) returns (bound: nat)
    ensures bound == BoundCount(slots)
  {
    bound := 0;
    for k := 0 to |slots|
      invariant bound == BoundCount(slots[..k])
    {
      assert slots[..k + 1][..k] == slots[..k];
      bound := bound + (if slots[k].bound then 1 else 0);
    }
    assert slots[..|slots|] == slots;
  }

  /** A new device takes a free slot; every path that was bound stays bound. */
  method BindSlot(slots: seq<PadSlot>, free: nat, path: string)
    requires Separate(slots) && PathsDiffer(slots) && free < |slots| && !slots[free].bound && !IsBoundTo(slots, path)
    modifies slots`bound, slots`path, slots`out_dirty
    ensures PathsDiffer(slots) && IsBoundTo(slots, path)
    ensures forall q: string :: old(IsBoundTo(slots, q)) ==> IsBoundTo(slots, q)
    ensures slots[free].bound && slots[free].path == path && slots[free].out_dirty
    ensures forall k :: 0 <= k < |slots| && k != free ==>
      slots[k].bound == old(slots[k].bound) && slots[k].path == old(slots[k].path)
        && slots[k].out_dirty == old(slots[k].out_dirty)
  {
    var p := slots[free];
    p.bound := true;
    p.path := path;
    p.MarkOutputDirty();
    forall q: string | old(IsBoundTo(slots, q)) ensures IsBoundTo(slots, q) {
      var k :| 0 <= k < |slots| && old(slots[k].bound && slots[k].path == q);
      assert slots[k].bound && slots[k].path == q;
    }
  }

  /** Binds new devices to free slots and counts the slots in use. A bound pad keeps its
      slot, a path is bound once, and every slot that was bound here is dirty and has the
      path of an enumerated device; a device stays unbound only when it does not open or
      every slot is taken. The output fields are left alone. */
  method RefreshBindings(slots: seq<PadSlot>, infos: seq<DeviceInfo>) returns (bound: nat)
    requires Separate(slots) && PathsDiffer(slots)
    modifies slots`bound, slots`path, slots`out_dirty
    ensures PathsDiffer(slots) && bound == BoundCount(slots)
    ensures forall k :: 0 <= k < |slots| && slots[k].bound && !old(slots[k].bound) ==> IsOpenable(infos, slots[k].path)
    ensures forall k :: 0 <= k < |slots| && old(slots[k].bound) ==>
      slots[k].bound && slots[k].path == old(slots[k].path) && slots[k].out_dirty == old(slots[k].out_dirty)
    ensures forall k :: 0 <= k < |slots| && slots[k].bound && !old(slots[k].bound) ==> slots[k].out_dirty
    ensures forall k :: 0 <= k < |slots| && !slots[k].bound ==> slots[k].out_dirty == old(slots[k].out_dirty)
    ensures (forall k :: 0 <= k < |slots| ==> slots[k].bound) ||
      forall i :: 0 <= i < |infos| && infos[i].opens ==> IsBoundTo(slots, infos[i].path)
  {
    hide PathsDiffer, IsBoundTo, IsOpenable, BoundCount;
    for i := 0 to |infos|
      invariant PathsDiffer(slots)
      invariant forall k :: 0 <= k < |slots| && old(slots[k].bound) ==>
        slots[k].bound && slots[k].path == old(slots[k].path) && slots[k].out_dirty == old(slots[k].out_dirty)
      invariant forall k :: 0 <= k < |slots| && slots[k].bound && !old(slots[k].bound) ==> slots[k].out_dirty
      invariant forall k :: 0 <= k < |slots| && !slots[k].bound ==> slots[k].out_dirty == old(slots[k].out_dirty)
      invariant forall k :: 0 <= k < |slots| && slots[k].bound && !old(slots[k].bound) ==>
        IsOpenable(infos, slots[k].path)
      invariant forall j :: 0 <= j < i && infos[j].opens ==> IsBoundTo(slots, infos[j].path)
    {
      var already := FindBound(slots, infos[i].path);
      if already {
        continue;
      }
      var free := FindFree(slots);
      if free == |slots| {
        break;
      }
      if !infos[i].opens {
        continue;
      }
      BindSlot(slots, free, infos[i].path);
      Openable(infos, i);
    }
    bound := CountBound(slots);
  }
}
