/** The shader disk cache: TryLoad and Store run under different mutexes, so their file
    operations interleave. One step is one file operation. */
module ShaderCache {
  import opened Basics

  type Key = nat
  type Inode = nat
  /** File contents in 32-bit words. */
  type Words = seq<nat>

  const MAGIC: nat := 0x5635_3550
  const VERSION: nat := 2

  /** What Store writes: a header with the word count in 32 bits, then the words. */
  function Entry(payload: Words): (file: Words)
    ensures |file| == 3 + |payload| && file[3..] == payload
    ensures file[0] == 0x5635_3550 && file[1] == 2 && file[2] == |payload| % 0x1_0000_0000
  {
    [MAGIC, VERSION, |payload| % U32_LIMIT] + payload
  }

  /** What a reader gets of an entry: as many words as the header says. */
  function Readable(payload: Words): Words {
    payload[..|payload| % U32_LIMIT]
  }

  datatype Store =
    | StoreIdle
    | StoreOpen(key: Key, payload: Words, inode: Inode, written: nat)
    | StoreFlushed(key: Key, payload: Words, inode: Inode)
    | StoreCleared(key: Key, payload: Words, inode: Inode)

  datatype Load =
    | LoadIdle
    | LoadSized(key: Key, size: nat)
    | LoadOpen(key: Key, size: nat, inode: Inode)
    | LoadHeader(key: Key, inode: Inode, count: nat)
    | LoadCorrupt(key: Key)
    | LoadDone(key: Key, out: Option<Words>)

  datatype State = State(
    paths: map<Key, Inode>,      // published entries
    tmps: map<Key, Inode>,       // path.tmp files
    files: map<Inode, Words>,    // contents, also of unlinked files that are still open
    next: Inode,
    store: Store,
    load: Load,
    published: set<(Key, Words)>)  // every payload a rename published, and the initial ones

  datatype Action =
    | StoreOpens(key: Key, payload: Words)
    | StoreWrites              // one more word reaches the file
    | StoreFlushes             // everything is written
    | StoreFails               // at any point before the rename: remove the tmp file
    | StoreRemovesOld(removed: bool)
    | StoreRenames(renamed: bool)
    | LoadSizes(wanted: Key)
    | LoadOpens(found: bool)
    | LoadReadsHeader
    | LoadReadsWords(complete: bool)
    | LoadRemoves
    | LoadReturns

  predicate Enabled(s: State, a: Action) {
    match a
    case StoreOpens(_, _) => s.store.StoreIdle?
    case StoreWrites => s.store.StoreOpen? && s.store.written < |Entry(s.store.payload)|
    case StoreFlushes => s.store.StoreOpen? && s.store.written == |Entry(s.store.payload)|
    case StoreFails => !s.store.StoreIdle?
    case StoreRemovesOld(_) => s.store.StoreFlushed?
    case StoreRenames(_) => s.store.StoreCleared?
    case LoadSizes(_) => s.load.LoadIdle?
    case LoadOpens(_) => s.load.LoadSized?
    case LoadReadsHeader => s.load.LoadOpen? && s.load.inode in s.files
    case LoadReadsWords(_) => s.load.LoadHeader? && s.load.inode in s.files
    case LoadRemoves => s.load.LoadCorrupt?
    case LoadReturns => s.load.LoadDone?
  }

  function Step(s: State, a: Action): State
    requires Enabled(s, a)
  {
    match a
    case StoreOpens(key, payload) =>
      // opening truncates a tmp file somebody left, or makes a new one
      var inode := if key in s.tmps then s.tmps[key] else s.next;
      s.(tmps := s.tmps[key := inode], files := s.files[inode := []],
         next := if key in s.tmps then s.next else s.next + 1,
         store := StoreOpen(key, payload, inode, 0))
    case StoreWrites =>
      var t := s.store;
      s.(files := s.files[t.inode := Entry(t.payload)[..t.written + 1]], store := t.(written := t.written + 1))
    case StoreFlushes => s.(store := StoreFlushed(s.store.key, s.store.payload, s.store.inode))
    case StoreFails => s.(tmps := s.tmps - {s.store.key}, store := StoreIdle)
    case StoreRemovesOld(removed) =>
      s.(paths := if removed then s.paths - {s.store.key} else s.paths,
         store := StoreCleared(s.store.key, s.store.payload, s.store.inode))
    case StoreRenames(renamed) =>
      var t := s.store;
      if renamed then
        s.(paths := s.paths[t.key := t.inode], tmps := s.tmps - {t.key},
           published := s.published + {(t.key, t.payload)}, store := StoreIdle)
      else s.(tmps := s.tmps - {t.key}, store := StoreIdle)
    case LoadSizes(key) =>
      if key in s.paths && s.paths[key] in s.files && |s.files[s.paths[key]]| >= 3
      then s.(load := LoadSized(key, 4 * |s.files[s.paths[key]]|))
      else s.(load := LoadDone(key, None))
    case LoadOpens(found) =>
      if found && s.load.key in s.paths then s.(load := LoadOpen(s.load.key, s.load.size, s.paths[s.load.key]))
      else s.(load := LoadDone(s.load.key, None))
    case LoadReadsHeader =>
      var t, file := s.load, s.files[s.load.inode];
      if |file| >= 3 && file[0] == MAGIC && file[1] == VERSION && t.size == 12 + 4 * file[2]
      then s.(load := LoadHeader(t.key, t.inode, file[2]))
      else s.(load := LoadCorrupt(t.key))
    case LoadReadsWords(complete) =>
      var t, file := s.load, s.files[s.load.inode];
      if complete && |file| >= 3 + t.count then s.(load := LoadDone(t.key, Some(file[3..3 + t.count])))
      else s.(load := LoadCorrupt(t.key))
    case LoadRemoves => s.(paths := s.paths - {s.load.key}, load := LoadDone(s.load.key, None))
    case LoadReturns => s.(load := LoadIdle)
  }

  // ------------------------------------------------------------ the invariant

  /** A file some store finished. */
  ghost predicate IsEntry(s: State, key: Key, inode: Inode) {
    inode in s.files && exists p :: (key, p) in s.published && s.files[inode] == Entry(p)
  }

  /** Nobody but the store has its file: it is neither published nor open for reading. */
  ghost predicate Private(s: State, inode: Inode) {
    && (forall k | k in s.paths :: s.paths[k] != inode)
    && (s.load.LoadOpen? || s.load.LoadHeader? ==> s.load.inode != inode)
  }

  ghost predicate TmpsArePrivate(s: State) {
    && (forall k | k in s.tmps :: s.tmps[k] < s.next && Private(s, s.tmps[k]))
    && (forall k, k' | k in s.tmps && k' in s.tmps && k != k' :: s.tmps[k] != s.tmps[k'])
  }

  ghost predicate PublishedAreEntries(s: State) {
    forall k | k in s.paths :: s.paths[k] < s.next && IsEntry(s, k, s.paths[k])
  }

  ghost predicate StoreFits(s: State) {
    match s.store
    case StoreIdle => true
    case StoreOpen(key, payload, inode, written) =>
      key in s.tmps && s.tmps[key] == inode && written <= |Entry(payload)| && inode in s.files
        && s.files[inode] == Entry(payload)[..written]
    case StoreFlushed(key, payload, inode) =>
      key in s.tmps && s.tmps[key] == inode && inode in s.files && s.files[inode] == Entry(payload)
    case StoreCleared(key, payload, inode) =>
      key in s.tmps && s.tmps[key] == inode && inode in s.files && s.files[inode] == Entry(payload)
  }

  /** An open file is a finished entry of its key, and so is what was read from it. */
  ghost predicate LoadFits(s: State) {
    match s.load
    case LoadOpen(key, _, inode) => inode < s.next && IsEntry(s, key, inode)
    case LoadHeader(key, inode, count) =>
      inode < s.next && IsEntry(s, key, inode) && |s.files[inode]| >= 3 && count == s.files[inode][2]
    case LoadDone(key, Some(out)) => exists p :: (key, p) in s.published && out == Readable(p)
    case _ => true
  }

  ghost predicate Inv(s: State) {
    TmpsArePrivate(s) && PublishedAreEntries(s) && StoreFits(s) && LoadFits(s)
  }

  /** No entries, no store and no load. */
  function EmptyCache(): State {
    State(map[], map[], map[], 0, StoreIdle, LoadIdle, {})
  }

  // ------------------------------------------------------- every step keeps it

  lemma {:induction false} StoreOpensKeeps(s: State, key: Key, payload: Words)
    requires Inv(s) && Enabled(s, StoreOpens(key, payload))
    ensures Inv(Step(s, StoreOpens(key, payload)))
  {
    hide Entry;
    var s' := Step(s, StoreOpens(key, payload));
    var inode := s'.store.inode;
    SameFiles(s, s', inode);
    assert Entry(payload)[..0] == [];
  }

  /** Rewriting a private file leaves every entry as it is. */
  lemma {:induction false} SameFiles(s: State, s': State, inode: Inode)
    requires PublishedAreEntries(s) && LoadFits(s) && s'.paths == s.paths && s'.load == s.load
    requires s'.published == s.published
    requires s.next <= s'.next && Private(s, inode)
    requires forall i | i in s.files && i != inode :: i in s'.files && s'.files[i] == s.files[i]
    ensures PublishedAreEntries(s') && LoadFits(s')
  {
    hide Entry, Readable;
    forall k | k in s.paths ensures IsEntry(s', k, s.paths[k]) {
      assert IsEntry(s, k, s.paths[k]);
    }
  }

  lemma {:induction false} StoreWritesKeeps(s: State)
    requires Inv(s) && Enabled(s, StoreWrites)
    ensures Inv(Step(s, StoreWrites))
  {
    hide Entry;
    SameFiles(s, Step(s, StoreWrites), s.store.inode);
  }

  lemma {:induction false} StoreFlushesKeeps(s: State)
    requires Inv(s) && Enabled(s, StoreFlushes)
    ensures Inv(Step(s, StoreFlushes))
  {
    hide Entry;
    var e := Entry(s.store.payload);
    assert e[..|e|] == e;
    SameFiles(s, Step(s, StoreFlushes), s.store.inode);
  }

  lemma {:induction false} StoreEndsKeeps(s: State, a: Action)
    requires Inv(s) && Enabled(s, a) && (a.StoreFails? || a.StoreRemovesOld? || (a.StoreRenames? && !a.renamed))
    ensures Inv(Step(s, a))
  {
    hide Entry;
    var s' := Step(s, a);
    forall k | k in s'.paths ensures IsEntry(s', k, s'.paths[k]) {
      assert IsEntry(s, k, s.paths[k]);
    }
  }

  lemma {:induction false} StoreRenamesKeeps(s: State)
    requires Inv(s) && Enabled(s, StoreRenames(true))
    ensures Inv(Step(s, StoreRenames(true)))
  {
    hide Entry, Readable;
    var s' := Step(s, StoreRenames(true));
    assert (s.store.key, s.store.payload) in s'.published;
    forall k | k in s'.paths ensures IsEntry(s', k, s'.paths[k]) {
      if k != s.store.key {
        assert IsEntry(s, k, s.paths[k]);
      }
    }
    match s.load
    case LoadOpen(key, _, inode) => assert IsEntry(s, key, inode);
    case LoadHeader(key, inode, _) => assert IsEntry(s, key, inode);
    case LoadDone(key, Some(out)) =>
      var p :| (key, p) in s.published && out == Readable(p);
      assert (key, p) in s'.published;
    case _ =>
  }

  /** A step that touches no file and no name keeps what was published. */
  lemma {:induction false} SamePaths(s: State, s': State)
    requires PublishedAreEntries(s) && StoreFits(s)
    requires s'.paths == s.paths && s'.files == s.files && s'.published == s.published && s'.next == s.next
    requires s'.store == s.store && s'.tmps == s.tmps
    ensures PublishedAreEntries(s') && StoreFits(s')
  {
    hide Entry;
    forall k | k in s'.paths ensures IsEntry(s', k, s'.paths[k]) {
      assert IsEntry(s, k, s.paths[k]);
    }
  }

  /** What a loader opens is published. */
  lemma {:induction false} LoadOpensKeeps(s: State, found: bool)
    requires Inv(s) && Enabled(s, LoadOpens(found))
    ensures Inv(Step(s, LoadOpens(found)))
  {
    hide Entry, StoreFits, PublishedAreEntries;
    var s' := Step(s, LoadOpens(found));
    SamePaths(s, s');
    if s'.load.LoadOpen? {
      OpenedIsEntry(s, s.load.key);
    }
  }

  lemma {:induction false} OpenedIsEntry(s: State, key: Key)
    requires PublishedAreEntries(s) && key in s.paths
    ensures s.paths[key] < s.next && IsEntry(s, key, s.paths[key])
  {
  }

  lemma {:induction false} LoadLooksKeeps(s: State, a: Action)
    requires Inv(s) && Enabled(s, a) && (a.LoadSizes? || a.LoadReadsHeader? || a.LoadReturns?)
    ensures Inv(Step(s, a))
  {
    hide Entry, StoreFits, PublishedAreEntries;
    SamePaths(s, Step(s, a));
  }

  lemma {:induction false} LoadRemovesKeeps(s: State)
    requires Inv(s) && Enabled(s, LoadRemoves)
    ensures Inv(Step(s, LoadRemoves))
  {
    hide Entry, StoreFits;
    var s' := Step(s, LoadRemoves);
    forall k | k in s'.paths ensures IsEntry(s', k, s'.paths[k]) {
      assert IsEntry(s, k, s.paths[k]);
    }
    StoreStays(s, s');
  }

  lemma {:induction false} StoreStays(s: State, s': State)
    requires StoreFits(s) && s'.store == s.store && s'.tmps == s.tmps && s'.files == s.files
    ensures StoreFits(s')
  {
  }

  lemma {:induction false} LoadReadsWordsKeeps(s: State, complete: bool)
    requires Inv(s) && Enabled(s, LoadReadsWords(complete))
    ensures Inv(Step(s, LoadReadsWords(complete)))
  {
    var s' := Step(s, LoadReadsWords(complete));
    forall k | k in s'.paths ensures IsEntry(s', k, s'.paths[k]) {
      assert IsEntry(s, k, s.paths[k]);
    }
    var t := s.load;
    var p :| (t.key, p) in s.published && s.files[t.inode] == Entry(p);
    assert Entry(p)[3..3 + t.count] == Readable(p);
  }

  lemma {:induction false} StepKeeps(s: State, a: Action)
    requires Inv(s) && Enabled(s, a)
    ensures Inv(Step(s, a))
  {
    hide Inv, Step;
    match a
    case StoreOpens(key, payload) => StoreOpensKeeps(s, key, payload);
    case StoreWrites => StoreWritesKeeps(s);
    case StoreFlushes => StoreFlushesKeeps(s);
    case StoreRenames(true) => StoreRenamesKeeps(s);
    case StoreRenames(false) => StoreEndsKeeps(s, a);
    case StoreFails => StoreEndsKeeps(s, a);
    case StoreRemovesOld(_) => StoreEndsKeeps(s, a);
    case LoadReadsWords(complete) => LoadReadsWordsKeeps(s, complete);
    case LoadOpens(found) => LoadOpensKeeps(s, found);
    case LoadRemoves => LoadRemovesKeeps(s);
    case _ => LoadLooksKeeps(s, a);
  }

  // --------------------------------------------------------------- runs

  predicate Runs(s: State, actions: seq<Action>)
    decreases |actions|
  {
    actions == [] || (Enabled(s, actions[0]) && Runs(Step(s, actions[0]), actions[1..]))
  }

  function After(s: State, actions: seq<Action>): State
    requires Runs(s, actions)
    decreases |actions|
  {
    if actions == [] then s else After(Step(s, actions[0]), actions[1..])
  }

  /** However loads and stores interleave, a successful load returns what some store
      published under its key: all of it when the count fits its 32 bits. */
  lemma {:induction false} LoadsAreNeverTorn(s: State, actions: seq<Action>)
    requires Inv(s) && Runs(s, actions)
    ensures var t := After(s, actions);
      t.load.LoadDone? && t.load.out.Some? ==>
        exists p :: (t.load.key, p) in t.published && t.load.out.value == Readable(p)
          && (t.load.out.value == p <==> |p| < U32_LIMIT)
    decreases |actions|
  {
    hide Step, Enabled;
    if actions != [] {
      StepKeeps(s, actions[0]);
      LoadsAreNeverTorn(Step(s, actions[0]), actions[1..]);
    } else if s.load.LoadDone? && s.load.out.Some? {
      var p :| (s.load.key, p) in s.published && s.load.out.value == Readable(p);
      ReadableIsAll(p);
    }
  }

  /** From an empty cache on, whatever a load returns was stored in this run. */
  lemma {:induction false} LoadsAreStored(actions: seq<Action>)
    requires Runs(EmptyCache(), actions)
    ensures var t := After(EmptyCache(), actions);
      t.load.LoadDone? && t.load.out.Some? ==>
        exists p :: StoreOpens(t.load.key, p) in actions && t.load.out.value == Readable(p)
          && (t.load.out.value == p <==> |p| < U32_LIMIT)
  {
    hide Step, Enabled, Readable;
    LoadsAreNeverTorn(EmptyCache(), actions);
    PublishedWereOpened(EmptyCache(), actions);
  }

  /** A payload is published only when a store was opened with it. */
  lemma {:induction false} PublishedWereOpened(s: State, actions: seq<Action>)
    requires Runs(s, actions)
    ensures forall key, p | (key, p) in After(s, actions).published ::
      (key, p) in s.published || StoreOpens(key, p) in actions || InStore(s.store, key, p)
    ensures forall key, p | InStore(After(s, actions).store, key, p) ::
      StoreOpens(key, p) in actions || InStore(s.store, key, p)
    decreases |actions|
  {
    if actions != [] {
      hide After, Runs, Enabled, Step;
      var s' := Step(s, actions[0]);
      RunTail(s, actions);
      PublishedWereOpened(s', actions[1..]);
      StepPublishes(s, actions[0]);
      assert forall a :: a in actions[1..] ==> a in actions;
    }
  }

  lemma {:induction false} RunTail(s: State, actions: seq<Action>)
    requires Runs(s, actions) && actions != []
    ensures Enabled(s, actions[0]) && Runs(Step(s, actions[0]), actions[1..])
    ensures After(s, actions) == After(Step(s, actions[0]), actions[1..])
  {
  }

  /** The store under way has this payload for this key. */
  predicate InStore(store: Store, key: Key, payload: Words) {
    !store.StoreIdle? && store.key == key && store.payload == payload
  }

  lemma {:induction false} StepPublishes(s: State, a: Action)
    requires Enabled(s, a)
    ensures forall key, p | (key, p) in Step(s, a).published :: (key, p) in s.published || InStore(s.store, key, p)
    ensures forall key, p | InStore(Step(s, a).store, key, p) :: a == StoreOpens(key, p) || InStore(s.store, key, p)
  {
  }

  lemma {:induction false} ReadableIsAll(p: Words)
    ensures Readable(p) == p <==> |p| < U32_LIMIT
  {
    if |p| >= U32_LIMIT {
      assert |Readable(p)| < |p|;
    }
  }

  // ------------------------------------------------- one store, one load

  lemma {:induction false} OneMore(s: State, first: Action, rest: seq<Action>)
    requires Enabled(s, first) && Runs(Step(s, first), rest)
    ensures Runs(s, [first] + rest) && After(s, [first] + rest) == After(Step(s, first), rest)
  {
    assert ([first] + rest)[1..] == rest;
  }

  lemma {:induction false} InTurn(s: State, first: seq<Action>, rest: seq<Action>)
    requires Runs(s, first) && Runs(After(s, first), rest)
    ensures Runs(s, first + rest) && After(s, first + rest) == After(After(s, first), rest)
    decreases |first|
  {
    hide Step, Enabled;
    if first == [] {
      assert first + rest == rest;
    } else {
      InTurn(Step(s, first[0]), first[1..], rest);
      assert (first + rest)[1..] == first[1..] + rest;
    }
  }

  function Writes(n: nat): seq<Action> {
    if n == 0 then [] else [StoreWrites] + Writes(n - 1)
  }

  /** Word by word the whole entry reaches the file. */
  lemma {:induction false} WritesFinish(s: State, n: nat)
    requires StoreFits(s) && s.store.StoreOpen? && s.store.written + n == |Entry(s.store.payload)|
    ensures var e := Entry(s.store.payload);
      Runs(s, Writes(n)) && After(s, Writes(n))
        == s.(files := s.files[s.store.inode := e], store := s.store.(written := |e|))
    decreases n
  {
    var e := Entry(s.store.payload);
    if n == 0 {
      assert e[..|e|] == e;
      assert s.files[s.store.inode := e] == s.files;
    } else {
      var s' := Step(s, StoreWrites);
      WritesFinish(s', n - 1);
      OneMore(s, StoreWrites, Writes(n - 1));
      assert s'.files[s.store.inode := e] == s.files[s.store.inode := e];
    }
  }

  /** A whole store that meets no error, and a whole load behind it. */
  function StoreRun(key: Key, payload: Words, removed: bool): seq<Action> {
    [StoreOpens(key, payload)] + (Writes(|Entry(payload)|)
      + [StoreFlushes, StoreRemovesOld(removed), StoreRenames(true)])
  }

  function LoadRun(key: Key, fits: bool): seq<Action> {
    [LoadSizes(key), LoadOpens(true), LoadReadsHeader, if fits then LoadReadsWords(true) else LoadRemoves]
  }

  /** A store without errors publishes its entry and leaves every other one alone. */
  lemma {:induction false} StorePublishes(s: State, key: Key, payload: Words, removed: bool)
    requires Inv(s) && s.store.StoreIdle?
    ensures var run := StoreRun(key, payload, removed);
      && Runs(s, run)
      && var t := After(s, run);
         && t.store.StoreIdle? && t.load == s.load && (key, payload) in t.published
         && key in t.paths && t.paths[key] in t.files && t.files[t.paths[key]] == Entry(payload)
         && (forall k | k in s.paths && k != key ::
              k in t.paths && t.paths[k] == s.paths[k] && s.paths[k] in s.files && s.paths[k] in t.files
                && t.files[s.paths[k]] == s.files[s.paths[k]])
  {
    var e := Entry(payload);
    var started := Step(s, StoreOpens(key, payload));
    StoreOpensKeeps(s, key, payload);
    WritesFinish(started, |e|);
    var written := After(started, Writes(|e|));
    Publishes(written, removed);
    InTurn(started, Writes(|e|), [StoreFlushes, StoreRemovesOld(removed), StoreRenames(true)]);
    OneMore(s, StoreOpens(key, payload), Writes(|e|) + [StoreFlushes, StoreRemovesOld(removed), StoreRenames(true)]);
  }

  lemma {:induction false} Publishes(s: State, removed: bool)
    requires s.store.StoreOpen? && s.store.written == |Entry(s.store.payload)|
    ensures var t, run := s.store, [StoreFlushes, StoreRemovesOld(removed), StoreRenames(true)];
      && Runs(s, run)
      && var gone := if removed then s.paths - {t.key} else s.paths;
         After(s, run) == s.(paths := gone[t.key := t.inode], tmps := s.tmps - {t.key},
           published := s.published + {(t.key, t.payload)}, store := StoreIdle)
  {
    var s1 := Step(s, StoreFlushes);
    var s2 := Step(s1, StoreRemovesOld(removed));
    OneMore(s2, StoreRenames(true), []);
    OneMore(s1, StoreRemovesOld(removed), [StoreRenames(true)]);
    assert [StoreRemovesOld(removed)] + [StoreRenames(true)] == [StoreRemovesOld(removed), StoreRenames(true)];
    OneMore(s, StoreFlushes, [StoreRemovesOld(removed), StoreRenames(true)]);
    assert [StoreFlushes] + [StoreRemovesOld(removed), StoreRenames(true)]
      == [StoreFlushes, StoreRemovesOld(removed), StoreRenames(true)];
  }

  /** What a load finds right behind a store, with nobody in between: the payload, exactly
      when its word count fits the header; a longer one is dropped as corrupt. */
  lemma {:induction false} StoreThenLoad(s: State, key: Key, payload: Words, removed: bool)
    requires Inv(s) && s.store.StoreIdle? && s.load.LoadIdle?
    ensures var run := StoreRun(key, payload, removed) + LoadRun(key, |payload| < U32_LIMIT);
      && Runs(s, run)
      && After(s, run).load == LoadDone(key, if |payload| < U32_LIMIT then Some(payload) else None)
      && (key in After(s, run).paths <==> |payload| < U32_LIMIT)
  {
    hide StoreRun, LoadRun, Step, Enabled, Inv;
    StorePublishes(s, key, payload, removed);
    var t := After(s, StoreRun(key, payload, removed));
    LoadReads(t, key, payload);
    InTurn(s, StoreRun(key, payload, removed), LoadRun(key, |payload| < U32_LIMIT));
  }

  lemma {:induction false} LoadReads(s: State, key: Key, payload: Words)
    requires s.load.LoadIdle? && key in s.paths && s.paths[key] in s.files && s.files[s.paths[key]] == Entry(payload)
    ensures var run := LoadRun(key, |payload| < U32_LIMIT);
      && Runs(s, run)
      && After(s, run).load == LoadDone(key, if |payload| < U32_LIMIT then Some(payload) else None)
      && (key in After(s, run).paths <==> |payload| < U32_LIMIT)
  {
    var fits := |payload| < U32_LIMIT;
    var last := if fits then LoadReadsWords(true) else LoadRemoves;
    var s1 := Step(s, LoadSizes(key));
    var s2 := Step(s1, LoadOpens(true));
    var s3 := Step(s2, LoadReadsHeader);
    CountFits(payload);
    OneMore(s3, last, []);
    OneMore(s2, LoadReadsHeader, [last]);
    assert [LoadReadsHeader] + [last] == [LoadReadsHeader, last];
    OneMore(s1, LoadOpens(true), [LoadReadsHeader, last]);
    assert [LoadOpens(true)] + [LoadReadsHeader, last] == [LoadOpens(true), LoadReadsHeader, last];
    OneMore(s, LoadSizes(key), [LoadOpens(true), LoadReadsHeader, last]);
    assert [LoadSizes(key)] + [LoadOpens(true), LoadReadsHeader, last] == LoadRun(key, fits);
  }

  lemma {:induction false} CountFits(payload: Words)
    ensures |payload| % U32_LIMIT == |payload| <==> |payload| < U32_LIMIT
    ensures Entry(payload)[3..3 + |payload|] == payload
  {
  }
}
