/** The log's ring of raw events and its gate for repeated messages. */
module Dedup {
  import opened Basics

  const RING_CAPACITY: nat := 1024
  const MAX_DEDUP_KEYS: nat := 16384

  // ------------------------------------------------------------------ the ring

  /** The last RING_CAPACITY events; `history` is everything ever pushed. */
  class RingBuffer<T(0)> {
    const entries: array<T>
    var write_index: nat
    var total_writes: nat
    ghost var history: seq<T>

    ghost predicate Valid()
      reads this, entries
    {
      && entries.Length == RING_CAPACITY && total_writes == |history| && write_index == |history| % RING_CAPACITY
      && forall k :: 0 <= k < |history| && |history| <= k + RING_CAPACITY ==> entries[k % RING_CAPACITY] == history[k]
    }

    constructor ()
      ensures Valid() && history == [] && fresh(entries)
    {
      entries := new T[RING_CAPACITY];
      write_index, total_writes, history := 0, 0, [];
    }

    method Push(e: T)
      requires Valid()
      modifies this, entries
      ensures Valid() && history == old(history) + [e]
    {
      entries[write_index] := e;
      write_index := (write_index + 1) % RING_CAPACITY;
      total_writes := total_writes + 1;
      history := history + [e];
    }

    /** The last events in the order they were pushed, at most max_count of them. */
    method Snapshot(max_count: nat) returns (out: seq<T>)
      requires Valid()
      ensures |out| <= max_count && |out| <= 1024 && |out| <= |history|
      ensures |out| == max_count || |out| == 1024 || |out| == |history|
      ensures out == history[|history| - |out|..]
    {
      var valid := if total_writes < RING_CAPACITY then total_writes else RING_CAPACITY;
      var n := if max_count < valid then max_count else valid;
      var backwards: seq<T> := [];
      for i := 0 to n
        invariant |backwards| == i && forall j :: 0 <= j < i ==> backwards[j] == history[|history| - 1 - j]
      {
        var slot := (write_index + RING_CAPACITY - 1 - i) % RING_CAPACITY;
        assert slot == (|history| - 1 - i) % RING_CAPACITY by {
          SlotOf(|history|, i);
        }
        backwards := backwards + [entries[slot]];
      }
      out := [];
      for i := 0 to n
        invariant |out| == i && forall j :: 0 <= j < i ==> out[j] == backwards[n - 1 - j]
      {
        out := out + [backwards[n - 1 - i]];
      }
    }

    method Clear()
      requires Valid()
      modifies this
      ensures Valid() && history == []
    {
      write_index := 0;
      total_writes := 0;
      history := [];
    }
  }

  lemma {:induction false} SlotOf(n: nat, i: nat)
    requires i < n && i < RING_CAPACITY
    ensures (n % RING_CAPACITY + RING_CAPACITY - 1 - i) % RING_CAPACITY == (n - 1 - i) % RING_CAPACITY
  {
    assert n == n / RING_CAPACITY * RING_CAPACITY + n % RING_CAPACITY;
  }

  // ------------------------------------------------------------------ the gate

  /** A line at the sinks: a message that bypassed the gate, or a flush with its count. */
  datatype Line = Plain(message: string) | Flush(key: string, total: nat, text: string)

  datatype Pending = Pending(key: string, message: string, first_ts_us: nat, total: nat)

  function Decimal(n: nat): string {
    if n < 10 then ["0123456789"[n]] else Decimal(n / 10) + ["0123456789"[n % 10]]
  }

  /** The message with its count, when it occurred more than once. */
  function Annotated(message: string, total: nat): string {
    if total > 1 then message + " (x" + Decimal(total) + ")" else message
  }

  /** Twelve occurrences of "m". */
  lemma {:induction false} TwelveTimes()
    ensures Annotated("m", 12) == "m (x12)" && Annotated("m", 1) == "m"
  {
    assert Decimal(12) == Decimal(1) + ["0123456789"[2]];
  }

  function FlushOf(p: Pending): Line {
    Flush(p.key, p.total, Annotated(p.message, p.total))
  }

  /** What the last flushed line of a key says. */
  function LastFlushed(sink: seq<Line>, key: string): Option<nat> {
    if sink == [] then None
    else
      var last := sink[|sink| - 1];
      if last.Flush? && last.key == key then Some(last.total) else LastFlushed(sink[..|sink| - 1], key)
  }

  lemma {:induction false} LastFlushedAppend(sink: seq<Line>, line: Line, key: string)
    ensures LastFlushed(sink + [line], key) == if line.Flush? && line.key == key then Some(line.total)
      else LastFlushed(sink, key)
  {
    assert (sink + [line])[..|sink|] == sink;
  }

  function CountOf(counts: map<string, nat>, key: string): nat {
    if key in counts then counts[key] else 0
  }

  /** What happened to the keys, in lock order. */
  datatype Event = Raw(key: string) | Erased(key: string) | Cleared

  /** The raw events of a key since it was last erased, alone or with all others. */
  ghost function CountSince(log: seq<Event>, key: string): nat {
    if log == [] then 0
    else
      var last, before := log[|log| - 1], log[..|log| - 1];
      if last == Erased(key) || last == Cleared then 0
      else if last == Raw(key) then CountSince(before, key) + 1
      else CountSince(before, key)
  }

  lemma {:induction false} CountSinceAppend(log: seq<Event>, e: Event)
    ensures forall k ::
      CountSince(log + [e], k) == if e == Erased(k) || e == Cleared then 0
        else CountSince(log, k) + (if e == Raw(k) then 1 else 0)
  {
    assert (log + [e])[..|log|] == log;
  }

  /** The keys of the raw events, in order. */
  ghost function RawKeys(log: seq<Event>): seq<string> {
    if log == [] then []
    else RawKeys(log[..|log| - 1]) + (if log[|log| - 1].Raw? then [log[|log| - 1].key] else [])
  }

  lemma {:induction false} RawKeysAppend(log: seq<Event>, e: Event)
    ensures RawKeys(log + [e]) == RawKeys(log) + (if e.Raw? then [e.key] else [])
  {
    assert (log + [e])[..|log|] == log;
  }

  /** The table keeps up with the log: one more event of a key, and the emptying. */
  ghost predicate KeepsUp(totals: map<string, nat>, log: seq<Event>) {
    forall k :: CountOf(totals, k) == CountSince(log, k)
  }

  lemma {:induction false} CountedOnce(totals: map<string, nat>, log: seq<Event>, key: string)
    requires KeepsUp(totals, log)
    ensures KeepsUp(totals[key := CountOf(totals, key) + 1], log + [Raw(key)])
  {
    hide CountSince;
    CountSinceAppend(log, Raw(key));
  }

  lemma {:induction false} Emptied(log: seq<Event>)
    ensures KeepsUp(map[], log + [Cleared])
  {
    hide CountSince;
    CountSinceAppend(log, Cleared);
  }

  lemma {:induction false} RawKeysOfGated(log: seq<Event>, key: string, full: bool)
    ensures RawKeys(log + (if full then [Cleared] else []) + [Raw(key)]) == RawKeys(log) + [key]
  {
    hide RawKeys;
    RawKeysAppend(log, Cleared);
    RawKeysAppend(log + (if full then [Cleared] else []), Raw(key));
    assert !full ==> log + [] == log;
  }

  lemma {:induction false} SmallerMap(m: map<string, nat>, key: string)
    ensures |m - {key}| <= |m|
  {
    assert (m - {key}).Keys == m.Keys - {key};
    assert |m.Keys - {key}| <= |m.Keys|;
  }

  lemma {:induction false} LargerMap(m: map<string, nat>, key: string, n: nat)
    ensures |m[key := n]| == if key in m then |m| else |m| + 1
  {
    assert m[key := n].Keys == m.Keys + {key};
    assert key in m ==> m.Keys + {key} == m.Keys;
  }

  /** Decimal digits determine the number, so the text of a line states its count. */
  lemma {:induction false} DecimalIsInjective(m: nat, n: nat)
    requires Decimal(m) == Decimal(n)
    ensures m == n
  {
    DigitAt(m % 10);
    DigitAt(n % 10);
    LastDigit(m);
    LastDigit(n);
    if m >= 10 && n >= 10 {
      assert Decimal(m)[..|Decimal(m)| - 1] == Decimal(m / 10) && Decimal(n)[..|Decimal(n)| - 1] == Decimal(n / 10);
      DecimalIsInjective(m / 10, n / 10);
    } else {
      DecimalLength(m);
      DecimalLength(n);
    }
  }

  lemma {:induction false} DigitAt(d: nat)
    requires d < 10
    ensures forall e :: 0 <= e < 10 && "0123456789"[e] == "0123456789"[d] ==> e == d
  {
  }

  lemma {:induction false} LastDigit(n: nat)
    ensures |Decimal(n)| > 0 && Decimal(n)[|Decimal(n)| - 1] == "0123456789"[n % 10]
  {
  }

  lemma {:induction false} DecimalLength(n: nat)
    ensures |Decimal(n)| == 1 <==> n < 10
  {
    if n >= 10 {
      LastDigit(n / 10);
    }
  }

  /** The gate: g_dedup_totals, g_dedup_pending and what reached the sinks. */
  class Gate {
    var totals: map<string, nat>
    var pending: Option<Pending>
    var sink: seq<Line>
    /** Every event the gate took and every erasure, in lock order. */
    ghost var log: seq<Event>

    /** The table agrees with the log and is below its cap. */
    ghost predicate Counted()
      reads `totals, `log
    {
      KeepsUp(totals, log) && (forall k | k in totals :: totals[k] > 0) && |totals| < MAX_DEDUP_KEYS
    }

    /** The pending total counts the raw events of its key; for every other counted key
        the last flushed line states exactly its total. */
    ghost predicate Valid()
      reads this
    {
      && Counted()
      && (pending.Some? ==> pending.value.key in totals && pending.value.total == totals[pending.value.key])
      && (forall k | k in totals && !(pending.Some? && pending.value.key == k) ::
        LastFlushed(sink, k) == Some(totals[k]))
    }

    constructor ()
      ensures Valid() && totals == map[] && pending == None && sink == []
    {
      totals, pending, sink, log := map[], None, [], [];
    }

    /** Hands a flush to the sinks, unless its timestamp is the zero that stands for "no flush". */
    method Emit(line: Line, now: nat)
      modifies `sink
      ensures sink == if now == 0 then old(sink) else old(sink) + [line]
    {
      if now != 0 {
        sink := sink + [line];
      }
    }

    /** Flushes the pending message and forgets its key. */
    method FlushDedup(now: nat)
      requires Valid()
      modifies this
      ensures Valid() && pending == None
      ensures old(pending) == None ==> sink == old(sink) && totals == old(totals) && log == old(log)
      ensures old(pending).Some? ==>
        && sink == old(sink) + (if now == 0 then [] else [FlushOf(old(pending).value)])
        && totals == old(totals) - {old(pending).value.key} && log == old(log) + [Erased(old(pending).value.key)]
    {
      hide LastFlushed, CountSince, Annotated;
      if pending == None {
        return;
      }
      var flushed := pending.value;
      FlushedStates(sink, flushed);
      SmallerMap(totals, flushed.key);
      pending := None;
      totals := totals - {flushed.key};
      CountSinceAppend(log, Erased(flushed.key));
      log := log + [Erased(flushed.key)];
      Emit(FlushOf(flushed), now);
    }

    /** The pending message may be dropped at time zero without contradicting the counts:
        its last flushed line says its total already. */
    ghost predicate Said()
      reads this
    {
      pending.Some? ==> LastFlushed(sink, pending.value.key) == Some(pending.value.total)
    }

    /** A new key that would fill the table empties it first. */
    predicate Full(key: string)
      reads `totals
    {
      key !in totals && |totals| + 1 >= 16384
    }

    /** One event through the enabled gate. Another key's pending line goes out first; at
        time zero it is lost, and the sinks contradict its total unless they have it
        already or the table was emptied. */
    method Gated(key: string, message: string, now: nat, window: nat)
      requires Valid()
      requires pending.Some? ==> pending.value.first_ts_us <= now
      modifies this
      ensures Valid() <==>
        now > 0 || old(Said()) || old(Full(key)) || (old(pending).Some? && old(pending).value.key == key)
      ensures log == old(log) + (if old(Full(key)) then [Cleared] else []) + [Raw(key)]
      ensures totals.Keys == (if old(Full(key)) then {} else old(totals).Keys) + {key}
      ensures pending.Some? && pending.value.key == key && pending.value.total == CountSince(log, key)
      ensures pending.value.first_ts_us <= now
      ensures var same := old(pending).Some? && old(pending).value.key == key;
        && pending.value.message == (if same then old(pending).value.message else message)
        && pending.value.first_ts_us ==
             (if same && (now - old(pending).value.first_ts_us < window || pending.value.total == 1)
              then old(pending).value.first_ts_us
              else now)
      ensures old(pending).Some? && old(pending).value.key != key && now > 0 ==>
        sink == old(sink) + [FlushOf(old(pending).value)]
      ensures old(pending).Some? && old(pending).value.key == key && now > 0 ==>
        sink == (if now - old(pending).value.first_ts_us >= window && pending.value.total > 1
                 then old(sink) + [FlushOf(pending.value)]
                 else old(sink))
      ensures old(pending) == None || now == 0 ==> sink == old(sink)
    {
      hide LastFlushed, CountSince, Annotated, Gate.Counted;
      var total := Count(key);
      if pending.Some? && pending.value.key != key {
        ChangeKey(key, message, now, total);
      } else if pending.Some? {
        pending := Some(pending.value.(total := total));
        if now - pending.value.first_ts_us >= window && total > 1 {
          var flushed := pending.value;
          FlushedStates(sink, flushed);
          pending := Some(pending.value.(first_ts_us := now));
          Emit(FlushOf(flushed), now);
        }
      } else {
        pending := Some(Pending(key, message, now, total));
      }
    }

    /** The branch that flushes the previous message, behind the count. */
    method ChangeKey(key: string, message: string, now: nat, total: nat)
      requires Counted() && key in totals && totals[key] == total
      requires pending.Some? && pending.value.key != key
      requires pending.value.key in totals ==> pending.value.total == totals[pending.value.key]
      requires forall k | k in totals && k != key && k != pending.value.key :: LastFlushed(sink, k) == Some(totals[k])
      modifies `pending, `sink
      ensures Valid() <==> now > 0 || old(Said()) || old(pending).value.key !in totals
      ensures pending == Some(Pending(key, message, now, total))
      ensures sink == if now == 0 then old(sink) else old(sink) + [FlushOf(old(pending).value)]
    {
      hide LastFlushed, CountSince, Annotated, KeepsUp;
      var flushed := pending.value;
      FlushedStates(sink, flushed);
      pending := Some(Pending(key, message, now, total));
      Emit(FlushOf(flushed), now);
    }

    /** Counts one event in the table, which is emptied rather than filled. */
    method Count(key: string) returns (total: nat)
      requires Counted()
      modifies `totals, `log
      ensures Counted() && total == CountSince(log, key) > 0
      ensures log == old(log) + (if old(Full(key)) then [Cleared] else []) + [Raw(key)]
      ensures totals == (if old(Full(key)) then map[] else old(totals))[key := total]
    {
      hide CountSince;
      ghost var kept := if Full(key) then map[] else totals;
      LargerMap(totals, key, 0);
      total := if key in totals then totals[key] else 0;
      totals := totals[key := total];
      if total == 0 && |totals| >= MAX_DEDUP_KEYS {
        totals := map[key := 0];
        Emptied(log);
        log := log + [Cleared];
      }
      assert KeepsUp(kept, log) && totals == kept[key := total] && total == CountOf(kept, key);
      LargerMap(kept, key, total + 1);
      CountedOnce(kept, log, key);
      total := total + 1;
      totals := totals[key := total];
      assert totals == kept[key := total];
      assert CountOf(totals, key) == total;
      log := log + [Raw(key)];
    }

    /** LogMessageRaw behind the category filter: the ring sees every event, a critical
        one flushes first, and the gate takes what it applies to. */
    method LogMessage(ring: RingBuffer<string>, call: Call, window: nat)
      requires Valid() && ring.Valid() && call.flushed_at <= call.now
      requires pending.Some? ==> pending.value.first_ts_us <= call.flushed_at
      modifies this, ring, ring.entries
      ensures ring.Valid() && ring.history == old(ring.history) + [call.message]
      ensures Valid() <==>
        !call.gated || call.critical || call.now > 0 || old(Said()) || old(Full(call.key)) ||
        (old(pending).Some? && old(pending).value.key == call.key)
      ensures RawKeys(log) == old(RawKeys(log)) + (if call.gated then [call.key] else [])
      ensures pending.Some? ==> pending.value.first_ts_us <= call.now
      ensures call.gated ==>
        pending.Some? && pending.value.key == call.key && pending.value.total == CountSince(log, call.key)
      ensures call.gated && (call.critical || old(pending) == None || old(pending).value.key != call.key) ==>
        pending.value.message == call.message && pending.value.first_ts_us == call.now
      ensures !call.gated && !call.critical ==>
        sink == old(sink) + [Plain(call.message)] && pending == old(pending) && log == old(log)
      ensures call.critical && call.flushed_at > 0 && old(pending).Some? ==>
        |old(sink)| < |sink| && sink[|old(sink)|] == FlushOf(old(pending).value)
    {
      hide LastFlushed, CountSince, Annotated, RawKeys;
      ring.Push(call.message);
      if call.critical {
        if pending.Some? {
          RawKeysAppend(log, Erased(pending.value.key));
        }
        FlushDedup(call.flushed_at);
      }
      if call.gated {
        RawKeysOfGated(log, call.key, Full(call.key));
        Gated(call.key, call.message, call.now, window);
        return;
      }
      PlainKeeps(sink, call.message);
      sink := sink + [Plain(call.message)];
    }
  }

  // ---------------------------------------------------------------- runs

  /** One call of LogMessageRaw: what it logs, whether the gate applies, and what the
      clock says when a critical message flushes and when the gate is locked. */
  datatype Call = Call(key: string, message: string, critical: bool, gated: bool, flushed_at: nat, now: nat)

  /** The clock started and never runs backwards. */
  ghost predicate InOrder(calls: seq<Call>, since: nat) {
    && (calls != [] ==> since <= calls[0].flushed_at)
    && (forall i :: 0 <= i < |calls| ==> 0 < calls[i].flushed_at <= calls[i].now)
    && (forall i :: 0 < i < |calls| ==> calls[i - 1].now <= calls[i].flushed_at)
  }

  function Messages(calls: seq<Call>): seq<string> {
    seq(|calls|, i requires 0 <= i < |calls| => calls[i].message)
  }

  function GatedKeys(calls: seq<Call>): seq<string> {
    if calls == [] then []
    else GatedKeys(calls[..|calls| - 1]) + (if calls[|calls| - 1].gated then [calls[|calls| - 1].key] else [])
  }

  lemma {:induction false} StatedCounts(gate: Gate)
    requires gate.Valid()
    ensures forall k | k in gate.totals :: gate.totals[k] == CountSince(gate.log, k)
  {
    hide CountSince;
    forall k | k in gate.totals ensures gate.totals[k] == CountSince(gate.log, k) {
      assert CountOf(gate.totals, k) == CountSince(gate.log, k);
    }
  }

  /** Any number of calls: every one is in the ring, every gated one is counted exactly
      once, the pending total is the count of its key, and every other count is on the
      last line flushed for its key. */
  method LogAll(gate: Gate, ring: RingBuffer<string>, calls: seq<Call>, window: nat)
    requires gate.Valid() && ring.Valid()
    requires InOrder(calls, if gate.pending.Some? then gate.pending.value.first_ts_us else 0)
    modifies gate, ring, ring.entries
    ensures gate.Valid() && ring.Valid()
    ensures ring.history == old(ring.history) + Messages(calls)
    ensures RawKeys(gate.log) == old(RawKeys(gate.log)) + GatedKeys(calls)
    ensures gate.pending.Some? ==> gate.pending.value.total == CountSince(gate.log, gate.pending.value.key)
    ensures forall k | k in gate.totals && !(gate.pending.Some? && gate.pending.value.key == k) ::
      LastFlushed(gate.sink, k) == Some(CountSince(gate.log, k))
  {
    hide RawKeys, LastFlushed, CountSince;
    for i := 0 to |calls|
      invariant gate.Valid() && ring.Valid()
      invariant gate.pending.Some? && i < |calls| ==> gate.pending.value.first_ts_us <= calls[i].flushed_at
      invariant ring.history == old(ring.history) + Messages(calls)[..i]
      invariant RawKeys(gate.log) == old(RawKeys(gate.log)) + GatedKeys(calls[..i])
    {
      assert calls[..i + 1][..i] == calls[..i];
      gate.LogMessage(ring, calls[i], window);
    }
    assert calls[..|calls|] == calls && Messages(calls)[..|calls|] == Messages(calls);
    StatedCounts(gate);
  }

  /** Two keys at clock zero: the first one's line is lost, and its count contradicts the sinks. */
  method ClockZero(window: nat) returns (gate: Gate)
    ensures fresh(gate) && !gate.Valid()
  {
    gate := new Gate();
    gate.Gated("a", "a", 0, window);
    gate.Gated("b", "b", 0, window);
  }

  lemma {:induction false} PlainKeeps(sink: seq<Line>, message: string)
    ensures forall k :: LastFlushed(sink + [Plain(message)], k) == LastFlushed(sink, k)
  {
    forall k ensures LastFlushed(sink + [Plain(message)], k) == LastFlushed(sink, k) {
      LastFlushedAppend(sink, Plain(message), k);
    }
  }

  lemma {:induction false} FlushedStates(sink: seq<Line>, p: Pending)
    ensures forall k :: LastFlushed(sink + [FlushOf(p)], k) == if k == p.key then Some(p.total)
      else LastFlushed(sink, k)
  {
    forall k ensures LastFlushed(sink + [FlushOf(p)], k) == if k == p.key then Some(p.total) else LastFlushed(sink, k) {
      LastFlushedAppend(sink, FlushOf(p), k);
    }
  }
}
