/** The registry's locked sections over the global thread map. Every section is one step
    of the model, so whatever runs of sections do, they keep its invariant. */
module ThreadRegistry {
  import opened ThreadModel

  class Registry {
    var threads: map<nat, GuestThread>
    var next_thread_id: nat
    /** The model state the sections so far have led to. */
    ghost var s: State

    ghost predicate Valid()
      reads this
    {
      s.threads == threads && s.next_thread_id == next_thread_id && Inv(s)
    }

    constructor ()
      ensures Valid() && s == Initial()
    {
      threads, next_thread_id, s := map[], 1, Initial();
      new;
      InitialInv();
    }

    method NextThreadId() returns (tid: nat)
      requires Valid()
      modifies this
      ensures Valid() && s == Step(old(s), NextId) && tid == old(s).next_thread_id && tid !in old(s).issued
    {
      StepKeeps(s, NextId);
      tid := next_thread_id;
      next_thread_id := next_thread_id + 1;
      s := Step(s, NextId);
    }

    /** Creation up to the started host thread; 0 when the registry is full or the host refuses. */
    method CreateThread(stack_base: bool, tls_base: bool, wake_event: bool, host_started: bool) returns (id: nat)
      requires Valid()
      modifies this
      ensures Valid() && s == Step(old(s), Create(stack_base, tls_base, wake_event, host_started))
      ensures id != 0 ==> id in s.threads && id !in old(s).issued
      ensures id == 0 <==> |old(s).threads| >= 1024 || !host_started
    {
      hide Inv, Step;
      ghost var a := Create(stack_base, tls_base, wake_event, host_started);
      StepKeeps(s, a);
      NextIsFresh(s);
      CreateThreads(s, a);
      if |threads| >= MAX_THREADS {
        s := Step(s, a);
        return 0;
      }
      id := next_thread_id;
      next_thread_id := next_thread_id + 1;
      threads := threads[id := GuestThread(true, wake_event, stack_base, tls_base, true, false, false)];
      if !host_started {
        threads := threads - {id};
        id := 0;
      }
      assert id == 0 ==> threads == old(threads);
      s := Step(s, a);
    }

    method RegisterExistingThread(id: nat, host_thread: bool, stack_base: bool, tls_base: bool,
          wake_event: bool) returns (ok: bool)
      requires Valid() && Enabled(s, Register(id, host_thread, stack_base, tls_base, wake_event))
      modifies this
      ensures Valid() && s == Step(old(s), Register(id, host_thread, stack_base, tls_base, wake_event))
      ensures ok <==> |old(s).threads| < 1024
      ensures id in old(s).threads ==> s == old(s)
    {
      hide Inv, Step;
      ghost var a := Register(id, host_thread, stack_base, tls_base, wake_event);
      StepKeeps(s, a);
      RegisterThreads(s, a);
      if |threads| >= MAX_THREADS {
        s := Step(s, a);
        return false;
      }
      if id !in threads {
        threads := threads[id := GuestThread(host_thread, wake_event, stack_base, tls_base, true, false, false)];
      }
      s := Step(s, a);
      return true;
    }

    method UnregisterThread(id: nat) returns (ok: bool)
      requires Valid()
      modifies this
      ensures Valid() && s == Step(old(s), Unregister(id))
      ensures ok <==> id in old(s).threads && old(s).threads[id].is_running
    {
      hide Inv;
      StepKeeps(s, Unregister(id));
      if id !in threads || !threads[id].is_running {
        return false;
      }
      Stop(id);
      s := Step(s, Unregister(id));
      return true;
    }

    method TerminateThread(id: nat) returns (ok: bool)
      requires Valid()
      modifies this
      ensures Valid() && s == Step(old(s), Terminate(id))
      ensures ok <==> id in old(s).threads && old(s).threads[id].is_running && old(s).threads[id].host_thread
    {
      hide Inv;
      StepKeeps(s, Terminate(id));
      if id !in threads || !threads[id].is_running {
        return false;
      }
      ok := threads[id].host_thread;
      Stop(id);
      s := Step(s, Terminate(id));
    }

    /** is_running = false, and the wake event closed. */
    method Stop(id: nat)
      requires id in threads
      modifies `threads
      ensures threads == old(threads)[id := old(threads)[id].(is_running := false, wake_event := false)]
    {
      var thread := threads[id];
      thread := thread.(is_running := false);
      if thread.wake_event {
        thread := thread.(wake_event := false);
      }
      threads := threads[id := thread];
    }

    method HandleThreadExit(id: nat)
      requires Valid()
      modifies this
      ensures Valid() && s == Step(old(s), Exit(id))
      ensures id in old(s).threads ==> (id in s.threads <==> !old(s).threads[id].detached)
    {
      hide Inv, Step;
      StepKeeps(s, Exit(id));
      if id !in threads {
        UnknownExit(s, id);
        return;
      }
      ExitThreads(s, id);
      var thread := threads[id];
      Stop(id);
      if thread.detached {
        threads := threads - {id};
      }
      s := Step(s, Exit(id));
    }

    /** The first section of a join: false when somebody joined or detached before. */
    method JoinClaim(id: nat) returns (claimed: bool, handle: bool)
      requires Valid()
      modifies this
      ensures Valid() && s == Step(old(s), ThreadModel.JoinClaim(id))
      ensures claimed <==> id in old(s).threads && id !in old(s).joins && id !in old(s).detaches
      ensures claimed ==> id in s.joins && (handle <==> id in s.waiting)
    {
      StepKeeps(s, ThreadModel.JoinClaim(id));
      if id !in threads || threads[id].detached || threads[id].is_joined {
        return false, false;
      }
      handle := threads[id].host_thread;
      threads := threads[id := threads[id].(is_joined := true)];
      s := Step(s, ThreadModel.JoinClaim(id));
      claimed := true;
    }

    /** The wait between the sections, and CloseHandle when it succeeded. */
    ghost method JoinWaited(id: nat, succeeded: bool)
      requires Valid() && id in s.waiting
      modifies this
      ensures Valid() && s == Step(old(s), ThreadModel.JoinWaited(id, succeeded))
    {
      hide Inv;
      StepKeeps(s, ThreadModel.JoinWaited(id, succeeded));
      s := Step(s, ThreadModel.JoinWaited(id, succeeded));
    }

    /** The last section of a join. */
    method JoinFinish(id: nat)
      requires Valid() && id in s.closing
      modifies this
      ensures Valid() && s == Step(old(s), ThreadModel.JoinFinish(id)) && id !in s.threads
    {
      hide Inv, Step;
      StepKeeps(s, ThreadModel.JoinFinish(id));
      FinishThreads(s, id);
      if id in threads {
        threads := threads - {id};
      }
      s := Step(s, ThreadModel.JoinFinish(id));
    }

    /** False when the thread is unknown or somebody joined it. */
    method DetachThread(id: nat) returns (ok: bool)
      requires Valid()
      modifies this
      ensures Valid() && s == Step(old(s), Detach(id))
      ensures ok <==> id in old(s).threads && id !in old(s).joins
      ensures ok ==> id in s.detaches
    {
      StepKeeps(s, Detach(id));
      if id !in threads || threads[id].is_joined {
        return false;
      }
      var thread := threads[id].(detached := true);
      if thread.host_thread {
        thread := thread.(host_thread := false);
      }
      threads := threads[id := thread];
      s := Step(s, Detach(id));
      return true;
    }
  }

  lemma {:induction false} NextIsFresh(s: State)
    requires Inv(s)
    ensures s.next_thread_id !in s.issued && s.next_thread_id != 0 && s.next_thread_id !in s.threads
  {
  }

  /** What the step of a section makes of the map and the counter. */
  lemma {:induction false} ExitThreads(s: State, id: nat)
    requires id in s.threads
    ensures var s' := Step(s, Exit(id));
      && s'.next_thread_id == s.next_thread_id
      && s'.threads == if s.threads[id].detached then s.threads - {id}
        else s.threads[id := s.threads[id].(is_running := false, wake_event := false)]
  {
    hide Stopped, FreeGuestMemory;
    var noted := s.(exited := s.exited + {id});
    var stopped := Stopped(noted, id);
    StoppedThreads(noted, id);
    FreedThreads(stopped, id);
    if s.threads[id].detached {
      assert s.threads - {id} == FreeGuestMemory(stopped, id).threads - {id};
    }
  }

  lemma {:induction false} StoppedThreads(s: State, id: nat)
    requires id in s.threads
    ensures var s' := Stopped(s, id);
      s'.threads == s.threads[id := s.threads[id].(is_running := false, wake_event := false)]
        && s'.next_thread_id == s.next_thread_id
  {
  }

  lemma {:induction false} FreedThreads(s: State, id: nat)
    requires id in s.threads
    ensures var s' := FreeGuestMemory(s, id);
      s'.threads == s.threads[id := s.threads[id].(stack_base := false, tls_base := false)]
        && s'.next_thread_id == s.next_thread_id
  {
    hide FreeStack, FreeTls;
    StackThreads(s, id);
    TlsThreads(FreeStack(s, id), id);
  }

  lemma {:induction false} StackThreads(s: State, id: nat)
    requires id in s.threads
    ensures var s' := FreeStack(s, id);
      s'.threads == s.threads[id := s.threads[id].(stack_base := false)] && s'.next_thread_id == s.next_thread_id
  {
  }

  lemma {:induction false} TlsThreads(s: State, id: nat)
    requires id in s.threads
    ensures var s' := FreeTls(s, id);
      s'.threads == s.threads[id := s.threads[id].(tls_base := false)] && s'.next_thread_id == s.next_thread_id
  {
  }

  lemma {:induction false} UnknownExit(s: State, id: nat)
    requires id !in s.threads
    ensures Step(s, Exit(id)) == s
  {
  }

  lemma {:induction false} FinishThreads(s: State, id: nat)
    ensures var s' := Step(s, ThreadModel.JoinFinish(id));
      s'.threads == s.threads - {id} && s'.next_thread_id == s.next_thread_id
  {
    hide FreeGuestMemory;
    var left := s.(closing := s.closing - {id});
    if id in s.threads {
      FreedThreads(left, id);
      assert FreeGuestMemory(left, id).threads - {id} == s.threads - {id};
    }
  }

  lemma {:induction false} CreateThreads(s: State, a: Action)
    requires a.Create?
    ensures var s' := Step(s, a);
      if |s.threads| >= MAX_THREADS then s' == s
      else s'.next_thread_id == s.next_thread_id + 1
           && s'.threads == if a.host_started then s.threads[s.next_thread_id := GuestThread(true, a.wake_event,
             a.stack_base, a.tls_base, true, false, false)]
                            else s.threads
  {
  }

  lemma {:induction false} RegisterThreads(s: State, a: Action)
    requires a.Register?
    ensures var s' := Step(s, a);
      && s'.next_thread_id == s.next_thread_id
      && (a.id in s.threads ==> s' == s)
      && s'.threads == if |s.threads| >= MAX_THREADS || a.id in s.threads then s.threads
                       else s.threads[a.id := GuestThread(a.host_thread, a.wake_event, a.stack_base, a.tls_base,
                         true, false, false)]
  {
  }
}
