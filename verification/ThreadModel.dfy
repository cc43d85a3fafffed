/** The guest-thread registry as a state machine: one step a locked section. */
module ThreadModel {

  const MAX_THREADS: nat := 1024

  /** What the registry may have to release for a thread. */
  datatype Resource = HostHandle(id: nat) | WakeEvent(id: nat) | GuestStack(id: nat) | TlsBlock(id: nat)

  /** A published record; the first four fields say which pointers are not null. */
  datatype GuestThread = GuestThread(host_thread: bool, wake_event: bool, stack_base: bool, tls_base: bool,
                                     is_running: bool, is_joined: bool, detached: bool)

  datatype State = State(
    threads: map<nat, GuestThread>,
    next_thread_id: nat,
    waiting: set<nat>,              // joins that claimed a thread and wait for its handle
    closing: set<nat>,              // joins that closed the handle and have not erased the record
    issued: set<nat>,               // every id ever published
    exited: set<nat>,               // ids whose exit the registry saw
    joins: set<nat>,                // ids a join claimed
    detaches: set<nat>,             // ids a detach claimed
    owned: set<Resource>,           // everything handed to the registry
    released: multiset<Resource>)   // every release, with repetitions

  datatype Action =
    | NextId
    | Create(stack_base: bool, tls_base: bool, wake_event: bool, host_started: bool)
    | Register(id: nat, host_thread: bool, stack_base: bool, tls_base: bool, wake_event: bool)
    | Unregister(id: nat)
    | Exit(id: nat)
    | Terminate(id: nat)
    | JoinClaim(id: nat)
    | JoinWaited(id: nat, succeeded: bool)
    | JoinFinish(id: nat)
    | Detach(id: nat)

  function Initial(): State {
    State(map[], 1, {}, {}, {}, {}, {}, {}, {}, multiset{})
  }

  /** Registered ids come from the allocator, and those of erased records do not come back;
      a join goes on
      only from where it is. */
  predicate Enabled(s: State, a: Action) {
    match a
    case Register(id, _, _, _, _) => 0 < id < s.next_thread_id && (id in s.threads || id !in s.issued)
    case JoinWaited(id, _) => id in s.waiting
    case JoinFinish(id) => id in s.closing
    case _ => true
  }

  function Resources(id: nat, t: GuestThread): set<Resource> {
    (if t.host_thread then {HostHandle(id)} else {}) + (if t.wake_event then {WakeEvent(id)} else {})
    + (if t.stack_base then {GuestStack(id)} else {}) + (if t.tls_base then {TlsBlock(id)} else {})
  }

  function Released(s: State, r: Resource): State {
    s.(released := s.released + multiset{r})
  }

  function WithThread(s: State, id: nat, t: GuestThread): State {
    s.(threads := s.threads[id := t])
  }

  function Erased(s: State, id: nat): State {
    s.(threads := s.threads - {id})
  }

  function Publish(s: State, id: nat, t: GuestThread): State {
    s.(threads := s.threads[id := t], issued := s.issued + {id}, owned := s.owned + Resources(id, t))
  }

  function FreeStack(s: State, id: nat): State
    requires id in s.threads
  {
    var t := s.threads[id];
    WithThread(if t.stack_base then Released(s, GuestStack(id)) else s, id, t.(stack_base := false))
  }

  function FreeTls(s: State, id: nat): State
    requires id in s.threads
  {
    var t := s.threads[id];
    WithThread(if t.tls_base then Released(s, TlsBlock(id)) else s, id, t.(tls_base := false))
  }

  /** FreeThreadGuestMemory */
  function FreeGuestMemory(s: State, id: nat): State
    requires id in s.threads
  {
    FreeTls(FreeStack(s, id), id)
  }

  /** The thread stops running and its wake event is closed, if it still has one. */
  function Stopped(s: State, id: nat): State
    requires id in s.threads
  {
    var t := s.threads[id];
    var s := if t.wake_event then Released(s, WakeEvent(id)) else s;
    WithThread(s, id, t.(is_running := false, wake_event := false))
  }

  function Step(s: State, a: Action): State {
    match a
    case NextId => s.(next_thread_id := s.next_thread_id + 1)
    case Create(stack_base, tls_base, wake_event, host_started) =>
      if |s.threads| >= MAX_THREADS then s
      else
        var id := s.next_thread_id;
        var s := s.(next_thread_id := id + 1);
        if host_started then Publish(s, id, GuestThread(true, wake_event, stack_base, tls_base, true, false, false))
        else
          var s := s.(issued := s.issued + {id});
          if wake_event then Released(s.(owned := s.owned + {WakeEvent(id)}), WakeEvent(id)) else s
    case Register(id, host_thread, stack_base, tls_base, wake_event) =>
      // emplace keeps the record of an id that is there
      if |s.threads| >= MAX_THREADS || id in s.threads then s
      else Publish(s, id, GuestThread(host_thread, wake_event, stack_base, tls_base, true, false, false))
    case Unregister(id) =>
      if id !in s.threads || !s.threads[id].is_running then s else Stopped(s, id)
    case Exit(id) =>
      if id !in s.threads then s
      else
        var s := Stopped(s.(exited := s.exited + {id}), id);
        if s.threads[id].detached then Erased(FreeGuestMemory(s, id), id) else s
    case Terminate(id) =>
      if id !in s.threads || !s.threads[id].is_running then s else Stopped(s, id)
    case JoinClaim(id) =>
      if id !in s.threads || s.threads[id].detached || s.threads[id].is_joined then s
      else
        var t := s.threads[id];
        var s := WithThread(s, id, t.(is_joined := true)).(joins := s.joins + {id});
        if t.host_thread then s.(waiting := s.waiting + {id}) else s
    case JoinWaited(id, succeeded) =>
      var s := s.(waiting := s.waiting - {id});
      if succeeded then Released(s, HostHandle(id)).(closing := s.closing + {id}) else s
    case JoinFinish(id) =>
      var s := s.(closing := s.closing - {id});
      if id in s.threads then Erased(FreeGuestMemory(s, id), id) else s
    case Detach(id) =>
      if id !in s.threads || s.threads[id].is_joined then s
      else
        var t := s.threads[id];
        var s := (if t.host_thread then Released(s, HostHandle(id)) else s).(detaches := s.detaches + {id});
        WithThread(s, id, t.(detached := true, host_thread := false))
  }

  // ------------------------------------------------------------ the invariant

  /** Held: the registry or a waiting join still has to release it. */
  predicate Held(s: State, r: Resource) {
    r.id in s.threads &&
    match r
    case HostHandle(id) => s.threads[id].host_thread && id !in s.closing
    case WakeEvent(id) => s.threads[id].wake_event
    case GuestStack(id) => s.threads[id].stack_base
    case TlsBlock(id) => s.threads[id].tls_base
  }

  /** At most one release, none of what is still held; and nothing but a wake event is
      forgotten: what was handed over and is not held any more was released. */
  ghost predicate Accounted(s: State, r: Resource) {
    && s.released[r] <= 1
    && (Held(s, r) ==> r in s.owned && s.released[r] == 0)
    && (s.released[r] > 0 ==> r in s.owned)
    && (r in s.owned && !r.WakeEvent? && !Held(s, r) ==> s.released[r] == 1)
  }

  ghost predicate AllAccounted(s: State) {
    forall r: Resource :: Accounted(s, r)
  }

  /** Nobody is both joined and detached; a join in flight has its record and handle. */
  ghost predicate Claims(s: State) {
    && s.joins !! s.detaches
    && (forall id | id in s.threads :: s.threads[id].is_joined <==> id in s.joins)
    && (forall id | id in s.threads :: s.threads[id].detached <==> id in s.detaches)
    && (forall id | id in s.threads :: s.threads[id].detached ==> !s.threads[id].host_thread)
    && s.waiting !! s.closing
    && (forall id | id in s.waiting + s.closing ::
        id in s.threads && s.threads[id].is_joined && s.threads[id].host_thread)
  }

  /** Ids are used once; resources belong to published ids. */
  ghost predicate Fresh(s: State) {
    && s.next_thread_id >= 1
    && (forall id | id in s.threads :: id in s.issued)
    && (forall id | id in s.issued :: 0 < id < s.next_thread_id)
    && (forall id | id in s.joins + s.detaches :: id in s.issued)
    && (forall r | r in s.owned :: r.id in s.issued)
  }

  ghost predicate Inv(s: State) {
    AllAccounted(s) && Claims(s) && Fresh(s)
  }

  lemma {:induction false} InitialInv()
    ensures Inv(Initial())
  {
  }

  // ----------------------------------------------------- every step keeps it

  /** Only resources of one thread change their standing. */
  lemma {:induction false} OthersKeep(s: State, s': State, id: nat)
    requires AllAccounted(s)
    requires forall r: Resource :: r.id != id ==>
      Held(s', r) == Held(s, r) && s'.released[r] == s.released[r] && (r in s'.owned <==> r in s.owned)
    requires Accounted(s', HostHandle(id)) && Accounted(s', WakeEvent(id)) && Accounted(s', GuestStack(id))
    requires Accounted(s', TlsBlock(id))
    ensures AllAccounted(s')
  {
    hide Held;
    forall r: Resource ensures Accounted(s', r) {
      assert Accounted(s, r);
    }
  }

  /** Other fields of a record may change freely. */
  lemma {:induction false} RecordKeeps(s: State, s': State, id: nat)
    requires Claims(s) && Fresh(s) && id in s.threads && id in s'.threads
    requires s' == s.(threads := s.threads[id := s'.threads[id]], released := s'.released)
    requires var t, t' := s.threads[id], s'.threads[id];
      t'.is_joined == t.is_joined && t'.detached == t.detached && t'.host_thread == t.host_thread
    ensures Claims(s') && Fresh(s')
  {
  }

  lemma {:induction false} StoppedKeeps(s: State, id: nat)
    requires Inv(s) && id in s.threads
    ensures Inv(Stopped(s, id))
  {
    hide Claims, Fresh;
    RecordKeeps(s, Stopped(s, id), id);
    assert Accounted(s, HostHandle(id)) && Accounted(s, WakeEvent(id)) && Accounted(s, GuestStack(id))
      && Accounted(s, TlsBlock(id));
    OthersKeep(s, Stopped(s, id), id);
  }

  lemma {:induction false} StackKeeps(s: State, id: nat)
    requires Inv(s) && id in s.threads
    ensures Inv(FreeStack(s, id))
  {
    hide Claims, Fresh;
    RecordKeeps(s, FreeStack(s, id), id);
    assert Accounted(s, HostHandle(id)) && Accounted(s, WakeEvent(id)) && Accounted(s, GuestStack(id))
      && Accounted(s, TlsBlock(id));
    OthersKeep(s, FreeStack(s, id), id);
  }

  lemma {:induction false} TlsKeeps(s: State, id: nat)
    requires Inv(s) && id in s.threads
    ensures Inv(FreeTls(s, id))
  {
    hide Claims, Fresh;
    RecordKeeps(s, FreeTls(s, id), id);
    assert Accounted(s, HostHandle(id)) && Accounted(s, WakeEvent(id)) && Accounted(s, GuestStack(id))
      && Accounted(s, TlsBlock(id));
    OthersKeep(s, FreeTls(s, id), id);
  }

  lemma {:induction false} FreeKeeps(s: State, id: nat)
    requires Inv(s) && id in s.threads
    ensures Inv(FreeGuestMemory(s, id))
  {
    hide Inv;
    StackKeeps(s, id);
    TlsKeeps(FreeStack(s, id), id);
  }

  /** A record without host handle and guest memory may go. */
  lemma {:induction false} ErasedKeeps(s: State, id: nat)
    requires Inv(s) && id in s.threads && id !in s.waiting
    requires !Held(s, HostHandle(id)) && !s.threads[id].stack_base && !s.threads[id].tls_base
    ensures Inv(Erased(s, id).(closing := s.closing - {id}))
  {
    assert Accounted(s, HostHandle(id)) && Accounted(s, WakeEvent(id)) && Accounted(s, GuestStack(id))
      && Accounted(s, TlsBlock(id));
    OthersKeep(s, Erased(s, id).(closing := s.closing - {id}), id);
  }

  lemma {:induction false} PublishKeeps(s: State, id: nat, t: GuestThread)
    requires Inv(s) && 0 < id < s.next_thread_id && id !in s.issued && !t.is_joined && !t.detached
    ensures Inv(Publish(s, id, t))
  {
    var s' := Publish(s, id, t);
    assert Accounted(s, HostHandle(id)) && Accounted(s, WakeEvent(id)) && Accounted(s, GuestStack(id))
      && Accounted(s, TlsBlock(id));
    assert HostHandle(id) !in s.owned && WakeEvent(id) !in s.owned && GuestStack(id) !in s.owned
      && TlsBlock(id) !in s.owned;
    forall r: Resource | r.id != id ensures r !in Resources(id, t) {
    }
    OthersKeep(s, s', id);
  }

  lemma {:induction false} NextIdKeeps(s: State)
    requires Inv(s)
    ensures Inv(Step(s, NextId))
  {
    forall r: Resource ensures Accounted(Step(s, NextId), r) {
      assert Accounted(s, r);
    }
  }

  lemma {:induction false} CreateKeeps(s: State, a: Action)
    requires Inv(s) && a.Create?
    ensures Inv(Step(s, a))
  {
    if |s.threads| < MAX_THREADS {
      var id := s.next_thread_id;
      var next := Step(s, NextId);
      NextIdKeeps(s);
      if a.host_started {
        PublishKeeps(next, id, GuestThread(true, a.wake_event, a.stack_base, a.tls_base, true, false, false));
      } else {
        FailedCreateKeeps(next, id, a.wake_event);
      }
    }
  }

  /** The record of a thread that never started is gone, and its wake event closed. */
  lemma {:induction false} FailedCreateKeeps(s: State, id: nat, wake_event: bool)
    requires Inv(s) && 0 < id < s.next_thread_id && id !in s.issued
    ensures var s' := s.(issued := s.issued + {id});
      Inv(if wake_event then Released(s'.(owned := s'.owned + {WakeEvent(id)}), WakeEvent(id)) else s')
  {
    var s' := s.(issued := s.issued + {id});
    assert Accounted(s, HostHandle(id)) && Accounted(s, WakeEvent(id)) && Accounted(s, GuestStack(id))
      && Accounted(s, TlsBlock(id));
    OthersKeep(s, if wake_event then Released(s'.(owned := s'.owned + {WakeEvent(id)}), WakeEvent(id)) else s', id);
  }

  lemma {:induction false} JoinClaimKeeps(s: State, id: nat)
    requires Inv(s)
    ensures Inv(Step(s, JoinClaim(id)))
  {
    var s' := Step(s, JoinClaim(id));
    forall r: Resource ensures Accounted(s', r) {
      assert Accounted(s, r);
      assert Held(s', r) == Held(s, r);
    }
  }

  lemma {:induction false} JoinWaitedKeeps(s: State, id: nat, succeeded: bool)
    requires Inv(s) && id in s.waiting
    ensures Inv(Step(s, JoinWaited(id, succeeded)))
  {
    hide Fresh;
    assert Accounted(s, HostHandle(id)) && Accounted(s, WakeEvent(id)) && Accounted(s, GuestStack(id))
      && Accounted(s, TlsBlock(id));
    assert Held(s, HostHandle(id));
    OthersKeep(s, Step(s, JoinWaited(id, succeeded)), id);
    SameIds(s, Step(s, JoinWaited(id, succeeded)));
  }

  lemma {:induction false} SameIds(s: State, s': State)
    requires Fresh(s) && s'.threads == s.threads && s'.issued == s.issued && s'.next_thread_id == s.next_thread_id
    requires s'.joins == s.joins && s'.detaches == s.detaches && s'.owned == s.owned
    ensures Fresh(s')
  {
  }

  lemma {:induction false} DetachKeeps(s: State, id: nat)
    requires Inv(s)
    ensures Inv(Step(s, Detach(id)))
  {
    hide AllAccounted, Accounted;
    DetachAccounts(s, id);
  }

  lemma {:induction false} DetachAccounts(s: State, id: nat)
    requires Inv(s)
    ensures AllAccounted(Step(s, Detach(id)))
  {
    hide Fresh;
    assert Accounted(s, HostHandle(id)) && Accounted(s, WakeEvent(id)) && Accounted(s, GuestStack(id))
      && Accounted(s, TlsBlock(id));
    OthersKeep(s, Step(s, Detach(id)), id);
  }

  lemma {:induction false} ExitKeeps(s: State, id: nat)
    requires Inv(s) && id in s.threads
    ensures Inv(Step(s, Exit(id)))
  {
    hide Inv;
    var noted := s.(exited := s.exited + {id});
    NotedKeeps(s, noted);
    var stopped := Stopped(noted, id);
    StoppedKeeps(noted, id);
    if stopped.threads[id].detached {
      FreeKeeps(stopped, id);
      var freed := FreeGuestMemory(stopped, id);
      DetachedIsFree(stopped, id);
      ErasedKeeps(freed, id);
      assert freed.closing - {id} == freed.closing;
    }
  }

  lemma {:induction false} NotedKeeps(s: State, noted: State)
    requires Inv(s) && noted == s.(exited := noted.exited)
    ensures Inv(noted)
  {
    forall r: Resource ensures Accounted(noted, r) {
      assert Accounted(s, r);
    }
  }

  /** Nobody joins a detached thread, and its handle is gone. */
  lemma {:induction false} DetachedIsFree(s: State, id: nat)
    requires Inv(s) && id in s.threads && s.threads[id].detached
    ensures id !in s.waiting && id !in s.closing && !s.threads[id].host_thread
  {
  }

  lemma {:induction false} FinishKeeps(s: State, id: nat)
    requires Inv(s) && id in s.closing
    ensures id in s.threads && Inv(Step(s, JoinFinish(id)))
  {
    assert id in s.threads && id !in s.waiting;
    FreeKeeps(s, id);
    var freed := FreeGuestMemory(s, id);
    ErasedKeeps(freed, id);
    assert Step(s, JoinFinish(id)) == Erased(freed, id).(closing := freed.closing - {id});
  }

  /** Every enabled step keeps the invariant. */
  lemma {:induction false} StepKeeps(s: State, a: Action)
    requires Inv(s) && Enabled(s, a)
    ensures Inv(Step(s, a))
  {
    hide Inv;
    match a
    case NextId => NextIdKeeps(s);
    case Create(_, _, _, _) => CreateKeeps(s, a);
    case Register(id, h, st, tl, w) =>
      if |s.threads| < MAX_THREADS && id !in s.threads {
        PublishKeeps(s, id, GuestThread(h, w, st, tl, true, false, false));
      }
    case Unregister(id) => if id in s.threads { StoppedKeeps(s, id); }
    case Terminate(id) => if id in s.threads { StoppedKeeps(s, id); }
    case Exit(id) => if id in s.threads { ExitKeeps(s, id); }
    case JoinClaim(id) => JoinClaimKeeps(s, id);
    case JoinWaited(id, succeeded) => JoinWaitedKeeps(s, id, succeeded);
    case JoinFinish(id) => FinishKeeps(s, id);
    case Detach(id) => DetachKeeps(s, id);
  }

  // ------------------------------------------------------------- whole runs

  /** A run: every action enabled where it happens. */
  predicate Runs(s: State, actions: seq<Action>)
    decreases |actions|
  {
    actions == [] || (Enabled(s, actions[0]) && Runs(Step(s, actions[0]), actions[1..]))
  }

  function After(s: State, actions: seq<Action>): State
    decreases |actions|
  {
    if actions == [] then s else After(Step(s, actions[0]), actions[1..])
  }

  lemma {:induction false} AccountedOnce(s: State)
    requires AllAccounted(s)
    ensures forall r: Resource :: s.released[r] <= 1
  {
    forall r: Resource ensures s.released[r] <= 1 {
      assert Accounted(s, r);
    }
  }

  /** In every interleaving: no resource is released twice, none is released while the
      registry still holds it, and no thread is both joined and detached. */
  lemma {:induction false} NothingIsReleasedTwice(s: State, actions: seq<Action>)
    requires Inv(s) && Runs(s, actions)
    ensures Inv(After(s, actions))
    ensures forall r: Resource :: After(s, actions).released[r] <= 1
    ensures After(s, actions).joins !! After(s, actions).detaches
    decreases |actions|
  {
    hide Step, Enabled, Accounted, Fresh;
    if actions != [] {
      StepKeeps(s, actions[0]);
      NothingIsReleasedTwice(Step(s, actions[0]), actions[1..]);
    } else {
      AccountedOnce(s);
    }
  }

  /** Erasing needs a finished join, or the exit of a detached thread. */
  lemma {:induction false} ErasedOnlyWhenDone(s: State, a: Action, id: nat)
    requires Inv(s) && Enabled(s, a) && id in s.threads && id !in Step(s, a).threads
    ensures (a == JoinFinish(id) && s.threads[id].is_joined) || (a == Exit(id) && s.threads[id].detached)
  {
    hide AllAccounted, Fresh, Step, Claims;
    match a
    case JoinFinish(other) =>
      JoinErases(s, other, id);
      ClosingIsJoined(s, id);
    case Exit(other) => ExitErases(s, other, id);
    case _ => KeepsRecords(s, a, id);
  }

  lemma {:induction false} JoinErases(s: State, other: nat, id: nat)
    requires Enabled(s, JoinFinish(other)) && id in s.threads && id !in Step(s, JoinFinish(other)).threads
    ensures id == other && id in s.closing
  {
  }

  lemma {:induction false} ClosingIsJoined(s: State, id: nat)
    requires Claims(s) && id in s.threads && id in s.closing
    ensures s.threads[id].is_joined
  {
  }

  lemma {:induction false} ExitErases(s: State, other: nat, id: nat)
    requires id in s.threads && id !in Step(s, Exit(other)).threads
    ensures id == other && s.threads[id].detached
  {
  }

  lemma {:induction false} KeepsRecords(s: State, a: Action, id: nat)
    requires Enabled(s, a) && id in s.threads && !a.JoinFinish? && !a.Exit?
    ensures id in Step(s, a).threads
  {
    match a
    case Create(_, _, _, _) =>
    case _ =>
  }

  /** What an erased thread owned is gone: its handle, stack and TLS block were released. */
  lemma {:induction false} ErasedIsFreed(s: State, id: nat, r: Resource)
    requires Inv(s) && id !in s.threads && r in s.owned && r.id == id && !r.WakeEvent?
    ensures s.released[r] == 1
  {
    assert Accounted(s, r);
  }

  /** Detaching after the exit leaves the record, and its guest memory, in place: only
      an exit after the detach cleans up. */
  lemma {:induction false} LateDetachStays(s: State, id: nat)
    requires Inv(s) && id in s.threads && !s.threads[id].is_joined && !s.threads[id].detached
    requires s.threads[id].stack_base
    ensures var s' := Step(Step(s, Exit(id)), Detach(id));
      id in s'.threads && s'.threads[id].detached && Held(s', GuestStack(id))
    ensures var s' := Step(Step(s, Detach(id)), Exit(id)); id !in s'.threads && s'.released[GuestStack(id)] == 1
  {
    assert Accounted(s, GuestStack(id));
  }
}
