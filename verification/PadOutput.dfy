/** The controller output handshake: setters write fields and then mark the slot dirty,
    the reader checks, builds a report and clears. Every statement under the slot's
    mutex is a step of its own. */
module PadOutput {
  import opened Basics

  // ------------------------------------------------------------ the fields

  const MOTOR_LARGE: nat := 0
  const MOTOR_SMALL: nat := 1
  const LIGHTBAR: nat := 2
  const PLAYER_LEDS: nat := 5
  const PLAYER_LED_FADE: nat := 6
  const LED_BRIGHTNESS: nat := 7
  const LEDS_DISABLED: nat := 8
  const MIC_LED: nat := 9
  const TRIGGER_MODE: nat := 10
  const TRIGGER_PARAMS: nat := 12
  const FIELDS: nat := 32

  /** The pending output state of a slot, field by field. */
  type Fields = f: seq<nat> | |f| == 32 witness seq(32, _ => 0)

  /** What one setter call asks for. */
  datatype Update =
    | Rumble(large: nat, small: nat)
    | TriggerEffect(left: bool, mode: nat, params: Option<seq<nat>>)
    | LightBar(r: nat, g: nat, b: nat)
    | PlayerLeds(bitmask: nat, fade: bool)
    | MicLed(mic: nat)
    | LedOptions(brightness: nat, disabled: bool)
  {
    predicate Valid() {
      TriggerEffect? && params.Some? ==> |params.value| == 10
    }
  }

  function AsNumber(b: bool): nat {
    if b then 1 else 0
  }

  /** The assignments a setter makes, in order. */
  function Assignments(u: Update): seq<(nat, nat)>
    requires u.Valid()
  {
    match u
    case Rumble(large, small) => [(MOTOR_LARGE, large), (MOTOR_SMALL, small)]
    case TriggerEffect(left, mode, params) =>
      var i := if left then 0 else 1;
      [(TRIGGER_MODE + i, mode)]
      + seq(10, k requires 0 <= k < 10 => (TRIGGER_PARAMS + 10 * i + k, if params.Some? then params.value[k] else 0))
    case LightBar(r, g, b) => [(LIGHTBAR, r), (LIGHTBAR + 1, g), (LIGHTBAR + 2, b)]
    case PlayerLeds(bitmask, fade) => [(PLAYER_LEDS, bitmask), (PLAYER_LED_FADE, AsNumber(fade))]
    case MicLed(mic) => [(MIC_LED, mic)]
    case LedOptions(brightness, disabled) => [(LED_BRIGHTNESS, brightness), (LEDS_DISABLED, AsNumber(disabled))]
  }

  predicate InFields(a: seq<(nat, nat)>) {
    forall k :: 0 <= k < |a| ==> a[k].0 < FIELDS
  }

  lemma {:induction false} AssignmentsAreFields(u: Update)
    requires u.Valid()
    ensures InFields(Assignments(u))
  {
  }

  /** The fields behind the first n assignments. */
  function Assigned(f: Fields, a: seq<(nat, nat)>, n: nat): Fields
    requires n <= |a| && InFields(a)
  {
    if n == 0 then f else Assigned(f, a, n - 1)[a[n - 1].0 := a[n - 1].1]
  }

  // ------------------------------------------------------------- the report

  datatype MicLight = MicOff | MicOn | MicPulse

  datatype Effect =
    | NoResistance
    | Continuous(startPosition: nat, force: nat)
    | Section(sectionStart: nat, endPosition: nat)
    | EffectEx(exStart: nat, keepEffect: bool, beginForce: nat, middleForce: nat, endForce: nat, frequency: nat)

  datatype Report = Report(leftRumble: nat, rightRumble: nat, lightbar: (nat, nat, nat), playerLeds: nat,
                           playerLedFade: bool,
                           brightness: nat, disableLeds: bool, microphoneLed: MicLight, left: Effect, right: Effect)

  /** Only the three known trigger modes are mapped. */
  function EffectOf(f: Fields, i: nat): Effect
    requires i < 2
  {
    var mode, q := f[TRIGGER_MODE + i], TRIGGER_PARAMS + 10 * i;
    if mode == 1 then Continuous(f[q], f[q + 1])
    else if mode == 2 then Section(f[q], f[q + 1])
    else if mode == 3 then EffectEx(f[q], f[q + 1] != 0, f[q + 2], f[q + 3], f[q + 4], f[q + 5])
    else NoResistance
  }

  function Render(f: Fields): Report {
    Report(f[MOTOR_LARGE], f[MOTOR_SMALL], (f[LIGHTBAR], f[LIGHTBAR + 1], f[LIGHTBAR + 2]), f[PLAYER_LEDS],
           f[PLAYER_LED_FADE] != 0,
           f[LED_BRIGHTNESS], f[LEDS_DISABLED] != 0,
           if f[MIC_LED] == 1 then MicOn else if f[MIC_LED] == 2 then MicPulse else MicOff,
           EffectOf(f, 0), EffectOf(f, 1))
  }

  // -------------------------------------------------------- the two sides

  datatype Owner = Nobody | SetterHolds(tid: nat) | ReaderHolds

  /** A setter: returned, inside its first section, between the sections, inside the second. */
  datatype Setter =
    | Returned
    | Writing(update: Update, done: nat)
    | Written
    | Marking(marked: bool)

  datatype Reader =
    | Idle
    | Bound               // a device was bound and its mark is still to come
    | BindMarking(marked: bool)
    | Checking
    | Checked(dirty: bool)
    | Building(copied: seq<nat>)
    | Built(report: Report)   // dirty is cleared, the lock still held
    | Sending(out: Report)

  datatype State = State(fields: Fields, out_dirty: bool, owner: Owner, setters: map<nat, Setter>, reader: Reader,
                         bound: bool, last: Option<Report>, commits: seq<Fields>)

  function SetterOf(s: State, tid: nat): Setter {
    if tid in s.setters then s.setters[tid] else Returned
  }

  datatype Action =
    | SetterEnters(tid: nat, update: Update)
    | SetterAssigns(tid: nat)
    | SetterLeaves(tid: nat)
    | MarkEnters(tid: nat)
    | MarkSets(tid: nat)
    | MarkLeaves(tid: nat)
    | ReaderBinds
    | ReaderUnbinds
    | ReaderMarkEnters
    | ReaderMarkSets
    | ReaderMarkLeaves
    | ReaderCheckEnters
    | ReaderCheckLeaves
    | ReaderBuildEnters
    | ReaderSkips
    | ReaderCopies
    | ReaderClears
    | ReaderBuildLeaves
    | ReaderSends

  predicate Enabled(s: State, a: Action) {
    match a
    case SetterEnters(tid, update) => SetterOf(s, tid) == Returned && s.owner == Nobody && update.Valid()
    case SetterAssigns(tid) =>
      var t := SetterOf(s, tid); t.Writing? && t.update.Valid() && t.done < |Assignments(t.update)|
    case SetterLeaves(tid) =>
      var t := SetterOf(s, tid); t.Writing? && t.update.Valid() && t.done == |Assignments(t.update)|
    case MarkEnters(tid) => SetterOf(s, tid) == Written && s.owner == Nobody
    case MarkSets(tid) => SetterOf(s, tid) == Marking(false)
    case MarkLeaves(tid) => SetterOf(s, tid) == Marking(true)
    case ReaderBinds => s.reader == Idle && !s.bound
    case ReaderUnbinds => s.reader == Idle && s.bound
    case ReaderMarkEnters => s.reader == Bound && s.owner == Nobody
    case ReaderMarkSets => s.reader == BindMarking(false)
    case ReaderMarkLeaves => s.reader == BindMarking(true)
    case ReaderCheckEnters => s.reader == Idle && s.bound && s.owner == Nobody
    case ReaderCheckLeaves => s.reader == Checking
    case ReaderBuildEnters => s.reader == Checked(true) && s.owner == Nobody
    case ReaderSkips => s.reader == Checked(false)
    case ReaderCopies => s.reader.Building? && |s.reader.copied| < FIELDS
    case ReaderClears => s.reader.Building? && |s.reader.copied| == FIELDS
    case ReaderBuildLeaves => s.reader.Built?
    case ReaderSends => s.reader.Sending?
  }

  function WithSetter(s: State, tid: nat, t: Setter): State {
    s.(setters := s.setters[tid := t])
  }

  function Step(s: State, a: Action): State
    requires Enabled(s, a)
  {
    match a
    case SetterEnters(tid, update) => WithSetter(s, tid, Writing(update, 0)).(owner := SetterHolds(tid))
    case SetterAssigns(tid) =>
      var t := SetterOf(s, tid);
      AssignmentsAreFields(t.update);
      var (field, value) := Assignments(t.update)[t.done];
      WithSetter(s, tid, Writing(t.update, t.done + 1)).(fields := s.fields[field := value])
    case SetterLeaves(tid) => WithSetter(s, tid, Written).(owner := Nobody, commits := s.commits + [s.fields])
    case MarkEnters(tid) => WithSetter(s, tid, Marking(false)).(owner := SetterHolds(tid))
    case MarkSets(tid) => WithSetter(s, tid, Marking(true)).(out_dirty := true)
    case MarkLeaves(tid) => WithSetter(s, tid, Returned).(owner := Nobody)
    case ReaderBinds => s.(bound := true, last := None, reader := Bound)
    case ReaderUnbinds => s.(bound := false)
    case ReaderMarkEnters => s.(owner := ReaderHolds, reader := BindMarking(false))
    case ReaderMarkSets => s.(out_dirty := true, reader := BindMarking(true))
    case ReaderMarkLeaves => s.(owner := Nobody, reader := Idle)
    case ReaderCheckEnters => s.(owner := ReaderHolds, reader := Checking)
    case ReaderCheckLeaves => s.(owner := Nobody, reader := Checked(s.out_dirty))
    case ReaderBuildEnters => s.(owner := ReaderHolds, reader := Building([]))
    case ReaderSkips => s.(reader := Idle)
    case ReaderCopies => s.(reader := Building(s.reader.copied + [s.fields[|s.reader.copied|]]))
    case ReaderClears =>
      var report := Render(s.reader.copied);
      s.(out_dirty := false, last := Some(report), reader := Built(report))
    case ReaderBuildLeaves => s.(owner := Nobody, reader := Sending(s.reader.report))
    case ReaderSends => s.(reader := Idle)
  }

  // ------------------------------------------------------------ the invariant

  predicate SetterInside(t: Setter) {
    t.Writing? || t.Marking?
  }

  predicate ReaderInside(r: Reader) {
    r.BindMarking? || r.Checking? || r.Building? || r.Built?
  }

  /** The mutex: inside a section exactly when holding it. */
  ghost predicate Exclusive(s: State) {
    && (forall tid: nat :: SetterInside(SetterOf(s, tid)) <==> s.owner == SetterHolds(tid))
    && (ReaderInside(s.reader) <==> s.owner == ReaderHolds)
  }

  /** A setter that wrote, or is writing, and whose mark is not made yet. */
  predicate PendingMark(t: Setter) {
    t.Writing? || t.Written? || t == Marking(false)
  }

  ghost predicate SomePending(s: State) {
    exists tid: nat :: PendingMark(SetterOf(s, tid))
  }

  predicate BindPending(r: Reader) {
    r == Bound || r == BindMarking(false)
  }

  /** A bound device is up to date, or will be served again. */
  ghost predicate NothingLost(s: State) {
    s.bound ==> s.out_dirty || SomePending(s) || BindPending(s.reader) || s.last == Some(Render(s.fields))
  }

  /** Outside a writing section the fields are the last committed ones; inside, they are
      the committed ones with the first assignments made. */
  ghost predicate Committed(s: State) {
    && |s.commits| > 0
    && var top := s.commits[|s.commits| - 1];
       match s.owner
       case SetterHolds(tid) =>
         (match SetterOf(s, tid)
          case Writing(update, done) =>
            && update.Valid() && done <= |Assignments(update)| && InFields(Assignments(update))
            && s.fields == Assigned(top, Assignments(update), done)
          case _ => s.fields == top)
       case _ => s.fields == top
  }

  /** What the reader copies are the fields, which stand still while it holds the lock. */
  ghost predicate Copying(s: State) {
    && (s.reader.Building? ==>
        |s.reader.copied| <= FIELDS && s.reader.copied == s.fields[..|s.reader.copied|] && s.out_dirty)
    && (s.reader == Checked(true) ==> s.out_dirty)
    && (s.reader.Building? || s.reader.Checked? || s.reader.Checking? ==> s.bound)
    && (s.reader.Bound? || s.reader.BindMarking? ==> s.bound)
  }

  /** No report mixes two updates: each is rendered from fields some setter left complete. */
  ghost predicate ReportsAreWhole(s: State) {
    s.last.Some? ==> exists k :: 0 <= k < |s.commits| && s.last == Some(Render(s.commits[k]))
  }

  ghost predicate Inv(s: State) {
    Exclusive(s) && NothingLost(s) && Committed(s) && Copying(s) && ReportsAreWhole(s)
  }

  // --------------------------------------------------- every step keeps it

  lemma {:induction false} StepExclusive(s: State, a: Action)
    requires Exclusive(s) && Enabled(s, a)
    ensures Exclusive(Step(s, a))
  {
    hide Assignments, Render, InFields;
    var s' := Step(s, a);
    forall tid: nat ensures SetterInside(SetterOf(s', tid)) <==> s'.owner == SetterHolds(tid) {
      assert SetterInside(SetterOf(s, tid)) <==> s.owner == SetterHolds(tid);
    }
  }

  /** A pending mark survives every step but its own. */
  lemma {:induction false} PendingStays(s: State, a: Action)
    requires SomePending(s) && Enabled(s, a)
    ensures SomePending(Step(s, a)) || Step(s, a).out_dirty
  {
    hide Assignments, Render, InFields;
    var tid: nat :| PendingMark(SetterOf(s, tid));
    assert PendingMark(SetterOf(Step(s, a), tid)) || a == MarkSets(tid);
  }

  lemma {:induction false} StepNothingLost(s: State, a: Action)
    requires Exclusive(s) && NothingLost(s) && Copying(s) && Enabled(s, a)
    ensures NothingLost(Step(s, a))
  {
    hide Assignments, Render, InFields, SomePending, Exclusive;
    if SomePending(s) {
      PendingStays(s, a);
    }
    match a
    case SetterEnters(tid, _) => Pending(Step(s, a), tid);
    case SetterAssigns(tid) => Pending(Step(s, a), tid);
    case SetterLeaves(tid) => Pending(Step(s, a), tid);
    case MarkEnters(tid) => Pending(Step(s, a), tid);
    case ReaderClears =>
      assert s.reader.copied == s.fields;
    case _ =>
  }

  lemma {:induction false} Pending(s: State, tid: nat)
    requires PendingMark(SetterOf(s, tid))
    ensures SomePending(s)
  {
  }

  lemma {:induction false} StepCommitted(s: State, a: Action)
    requires Exclusive(s) && Committed(s) && Enabled(s, a)
    ensures Committed(Step(s, a))
  {
    hide Assignments, Render;
    match a
    case SetterEnters(tid, update) => AssignmentsAreFields(update);
    case SetterAssigns(tid) => Holder(s, tid);
    case SetterLeaves(tid) => Holder(s, tid);
    case MarkSets(tid) => Holder(s, tid);
    case MarkLeaves(tid) => Holder(s, tid);
    case _ =>
  }

  lemma {:induction false} Holder(s: State, tid: nat)
    requires Exclusive(s) && SetterInside(SetterOf(s, tid))
    ensures s.owner == SetterHolds(tid)
  {
  }

  lemma {:induction false} StepCopying(s: State, a: Action)
    requires Exclusive(s) && Copying(s) && Enabled(s, a)
    ensures Copying(Step(s, a))
  {
    hide Assignments, Render, InFields;
    match a
    case SetterAssigns(tid) => Holder(s, tid);
    case ReaderCopies =>
      var n := |s.reader.copied|;
      assert s.fields[..n + 1] == s.fields[..n] + [s.fields[n]];
    case _ =>
  }

  lemma {:induction false} StepReportsAreWhole(s: State, a: Action)
    requires Exclusive(s) && Committed(s) && Copying(s) && ReportsAreWhole(s) && Enabled(s, a)
    ensures ReportsAreWhole(Step(s, a))
  {
    hide Assignments, Render, InFields;
    var s' := Step(s, a);
    match a
    case SetterLeaves(_) =>
      if s.last.Some? {
        var k :| 0 <= k < |s.commits| && s.last == Some(Render(s.commits[k]));
        assert s'.commits[k] == s.commits[k];
      }
    case ReaderClears =>
      assert s.reader.copied == s.fields == s.commits[|s.commits| - 1];
    case _ =>
  }

  lemma {:induction false} StepKeeps(s: State, a: Action)
    requires Inv(s) && Enabled(s, a)
    ensures Inv(Step(s, a))
  {
    hide Exclusive, NothingLost, Committed, Copying, ReportsAreWhole, Step;
    StepExclusive(s, a);
    StepNothingLost(s, a);
    StepCommitted(s, a);
    StepCopying(s, a);
    StepReportsAreWhole(s, a);
  }

  // --------------------------------------------------------------- runs

  function Start(f: Fields): State {
    State(f, false, Nobody, map[], Idle, false, None, [f])
  }

  lemma {:induction false} StartInv(f: Fields)
    ensures Inv(Start(f))
  {
  }

  predicate Runs(s: State, actions: seq<Action>)
    decreases |actions|
  {
    actions == [] || (Enabled(s, actions[0]) && Runs(Step(s, actions[0]), actions[1..]))
  }

  function After(s: State, actions: seq<Action>): State
    requires Runs(s, actions)
    decreases |actions|
  {
    if actions == [] then s else After(Step(s, actions[0]), actions[1..])
  }

  lemma {:induction false} RunKeeps(s: State, actions: seq<Action>)
    requires Inv(s) && Runs(s, actions)
    ensures Inv(After(s, actions))
    decreases |actions|
  {
    hide Inv, Step, Enabled;
    if actions != [] {
      StepKeeps(s, actions[0]);
      RunKeeps(Step(s, actions[0]), actions[1..]);
    }
  }

  /** Nobody is between a write and its mark, and the reader is not binding. */
  ghost predicate Quiet(s: State) {
    (forall tid: nat :: SetterOf(s, tid) == Returned) && !BindPending(s.reader)
  }

  /** No update is lost: once every setter has returned, a bound slot that is not dirty
      has sent the latest value of every field; no report ever showed half an update. */
  lemma {:induction false} NoOutputIsLost(f: Fields, actions: seq<Action>)
    requires Runs(Start(f), actions)
    ensures var s := After(Start(f), actions);
      && ReportsAreWhole(s)
      && (Quiet(s) && s.bound && !s.out_dirty ==>
        s.last == Some(Render(s.fields)) && s.fields == s.commits[|s.commits| - 1])
  {
    hide Step, Enabled, Render, Assignments, InFields;
    StartInv(f);
    RunKeeps(Start(f), actions);
    var s := After(Start(f), actions);
    if Quiet(s) && s.bound && !s.out_dirty {
      NoPendingWhenQuiet(s);
    }
  }

  lemma {:induction false} NoPendingWhenQuiet(s: State)
    requires Quiet(s) && Exclusive(s)
    ensures !SomePending(s)
    ensures forall tid :: s.owner != SetterHolds(tid)
  {
    forall tid: nat ensures s.owner != SetterHolds(tid) {
      assert SetterOf(s, tid) == Returned;
    }
  }

  /** A device bound anew gets the current state: until its first report the slot is
      dirty or a mark is on its way. */
  lemma {:induction false} NewDevicesAreServed(f: Fields, actions: seq<Action>)
    requires Runs(Start(f), actions)
    ensures var s := After(Start(f), actions);
      s.bound && s.last == None ==> s.out_dirty || SomePending(s) || BindPending(s.reader)
  {
    hide Step, Enabled, Render, SomePending, Exclusive, Committed, Copying, ReportsAreWhole;
    StartInv(f);
    RunKeeps(Start(f), actions);
  }
}
