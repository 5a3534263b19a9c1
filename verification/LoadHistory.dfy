/** What each load has done in a run, told from the actions alone. */
module LoadHistory {
  import opened DateMath
  import opened Server
  import opened Reload

  /** The step is one of load i. */
  predicate IsOf(a: Action, i: nat) {
    a == Wake(i) || a == Acquire(i) || a == Check(i) || (a.Read? && a.i == i) || a == Call(i) ||
    a == RefuseEarly(i) || a == ReadPrevious(i) || a == RefuseLate(i) || a == Store(i) || a == Unlock(i)
  }

  /** The steps of load i, in their order. */
  function OfLoad(actions: seq<Action>, i: nat): seq<Action> {
    if actions == [] then []
    else (if IsOf(actions[0], i) then [actions[0]] else []) + OfLoad(actions[1..], i)
  }

  // ---------- the lives of a load ----------

  /** Cancelled before it looked at the file. */
  function SkippedLife(i: nat): seq<Action> {
    [Wake(i), Acquire(i), Check(i), Unlock(i)]
  }

  /** It could not read the file, or found no configuration in it. */
  function FailedLife(i: nat, reading: Reading): seq<Action> {
    [Wake(i), Acquire(i), Check(i), Read(i, reading), Unlock(i)]
  }

  /** The server refused before it looked at the authenticator in use. */
  function RefusedLife(i: nat): seq<Action> {
    [Wake(i), Acquire(i), Check(i), Read(i, Usable), Call(i), RefuseEarly(i), Unlock(i)]
  }

  /** The server refused after that. */
  function RefusedLateLife(i: nat): seq<Action> {
    [Wake(i), Acquire(i), Check(i), Read(i, Usable), Call(i), ReadPrevious(i), RefuseLate(i), Unlock(i)]
  }

  function StoredLife(i: nat): seq<Action> {
    [Wake(i), Acquire(i), Check(i), Read(i, Usable), Call(i), ReadPrevious(i), Store(i), Unlock(i)]
  }

  /** The steps are the beginning of one of the lives a load can have, or one whole. */
  predicate Lived(h: seq<Action>, i: nat) {
    h <= SkippedLife(i) || h <= FailedLife(i, Missing) || h <= FailedLife(i, Malformed) ||
    h <= RefusedLife(i) || h <= RefusedLateLife(i) || h <= StoredLife(i)
  }

  /** The steps that lead a load to where it stands. */
  predicate LedTo(p: Phase, h: seq<Action>, i: nat) {
    match p
    case Sleeping => h == []
    case Waiting => h == [Wake(i)]
    case Locked => h == [Wake(i), Acquire(i)]
    case Reading => h == [Wake(i), Acquire(i), Check(i)]
    case Loaded(_) => h == [Wake(i), Acquire(i), Check(i), Read(i, Usable)]
    case Called(_) => h == [Wake(i), Acquire(i), Check(i), Read(i, Usable), Call(i)]
    case Updating(_, _) => h == [Wake(i), Acquire(i), Check(i), Read(i, Usable), Call(i), ReadPrevious(i)]
    case Unlocking(f) => EndedIn(f, h + [Unlock(i)], i)
    case Finished(f) => EndedIn(f, h, i)
  }

  predicate EndedIn(f: Fate, h: seq<Action>, i: nat) {
    match f
    case Skipped => h == SkippedLife(i)
    case Unreadable(_) => h == FailedLife(i, Missing)
    case Unusable(_) => h == FailedLife(i, Malformed)
    case Refused(_) => h == RefusedLife(i) || h == RefusedLateLife(i)
    case Stored(_) => h == StoredLife(i)
  }

  ghost predicate Told(s: State, actions: seq<Action>) {
    forall i: nat :: if i < |s.loaders| then LedTo(s.loaders[i], OfLoad(actions, i), i) else OfLoad(actions, i) == []
  }

  // ---------- runs from behind ----------

  lemma {:induction false} OfLoadLast(actions: seq<Action>, a: Action, i: nat)
    ensures OfLoad(actions + [a], i) == OfLoad(actions, i) + (if IsOf(a, i) then [a] else [])
  {
    hide IsOf;
    if actions == [] {
      assert [] + [a] == [a] && [a][1..] == [];
    } else {
      var t := actions + [a];
      assert t[1..] == actions[1..] + [a] && t[0] == actions[0];
      OfLoadLast(actions[1..], a, i);
      var (first, last) := (if IsOf(t[0], i) then [t[0]] else [], if IsOf(a, i) then [a] else []);
      assert OfLoad(t, i) == first + OfLoad(t[1..], i);
      assert OfLoad(actions, i) == first + OfLoad(actions[1..], i);
      hide OfLoad;
      assert first + (OfLoad(actions[1..], i) + last) == first + OfLoad(actions[1..], i) + last;
    }
  }

  lemma {:induction false} RunLast(s: State, actions: seq<Action>, a: Action)
    ensures CanRun(s, actions + [a]) <==> CanRun(s, actions) && Enabled(Run(s, actions), a)
    ensures CanRun(s, actions + [a]) ==> Run(s, actions + [a]) == Next(Run(s, actions), a)
    decreases actions
  {
    hide Enabled, Next;
    if actions == [] {
      assert [] + [a] == [a] && [a][1..] == [];
    } else {
      assert (actions + [a])[1..] == actions[1..] + [a];
      if Enabled(s, actions[0]) {
        RunLast(Next(s, actions[0]), actions[1..], a);
      }
    }
  }

  // ---------- every step keeps the account ----------

  /** A step that is not one of load i leaves it where it stands. */
  lemma {:induction false} OthersStay(s: State, a: Action, i: nat)
    requires Enabled(s, a) && i < |s.loaders| && !IsOf(a, i)
    ensures i < |Next(s, a).loaders| && Next(s, a).loaders[i] == s.loaders[i]
  {
    hide Install, CloseInBackground, Close;
  }

  /** From one phase to the next. */
  predicate Moves(p: Phase, a: Action, q: Phase) {
    match a
    case Wake(_) => p == Sleeping && q == Waiting
    case Acquire(_) => p == Waiting && q == Locked
    case Check(_) => p == Locked && (q == Unlocking(Skipped) || q == Phase.Reading)
    case Read(_, Missing) => p == Phase.Reading && q.Unlocking? && q.fate.Unreadable?
    case Read(_, Malformed) => p == Phase.Reading && q.Unlocking? && q.fate.Unusable?
    case Read(_, Usable) => p == Phase.Reading && q.Loaded?
    case Call(_) => p.Loaded? && q.Called?
    case RefuseEarly(_) => p.Called? && q.Unlocking? && q.fate.Refused?
    case ReadPrevious(_) => p.Called? && q.Updating?
    case RefuseLate(_) => p.Updating? && q.Unlocking? && q.fate.Refused?
    case Store(_) => p.Updating? && q.Unlocking? && q.fate.Stored?
    case Unlock(_) => p.Unlocking? && q == Finished(p.fate)
    case _ => false
  }

  lemma {:induction false} OwnMove(s: State, a: Action, i: nat)
    requires Enabled(s, a) && i < |s.loaders| && IsOf(a, i)
    ensures |Next(s, a).loaders| == |s.loaders| && Moves(s.loaders[i], a, Next(s, a).loaders[i])
  {
    hide Install, CloseInBackground, Close;
  }

  lemma {:induction false} MoveLed(p: Phase, a: Action, q: Phase, h: seq<Action>, i: nat)
    requires IsOf(a, i) && LedTo(p, h, i) && Moves(p, a, q)
    ensures LedTo(q, h + [a], i)
  {
    if q.Unlocking? {
      assert h + [a] + [Unlock(i)] == h + [a, Unlock(i)];
    }
  }

  /** Only a delivered event starts a load, and it starts asleep. */
  lemma {:induction false} NewLoads(s: State, a: Action, i: nat)
    requires Enabled(s, a) && i >= |s.loaders|
    ensures !IsOf(a, i)
    ensures i < |Next(s, a).loaders| ==> Next(s, a).loaders[i] == Sleeping
  {
    hide Install, CloseInBackground, Close;
  }

  lemma {:induction false} StepTold(s: State, actions: seq<Action>, a: Action)
    requires Told(s, actions) && Enabled(s, a)
    ensures Told(Next(s, a), actions + [a])
  {
    var t := Next(s, a);
    forall i: nat
      ensures if i < |t.loaders| then LedTo(t.loaders[i], OfLoad(actions + [a], i), i)
              else OfLoad(actions + [a], i) == []
    {
      var h := OfLoad(actions, i);
      OfLoadLast(actions, a, i);
      assert h + [] == h;
      if i >= |s.loaders| {
        NewLoads(s, a, i);
      } else if IsOf(a, i) {
        OwnMove(s, a, i);
        hide Next, Enabled, Moves, LedTo, IsOf;
        MoveLed(s.loaders[i], a, t.loaders[i], h, i);
      } else {
        OthersStay(s, a, i);
      }
    }
  }

  lemma {:induction false} RunTold(actions: seq<Action>)
    requires CanRun(INITIAL, actions)
    ensures Told(Run(INITIAL, actions), actions)
    decreases |actions|
  {
    if actions != [] {
      var (before, a) := (actions[..|actions| - 1], actions[|actions| - 1]);
      assert before + [a] == actions;
      RunLast(INITIAL, before, a);
      RunTold(before);
      hide CanRun, Run, Enabled, Next, Told;
      StepTold(Run(INITIAL, before), before, a);
    }
  }

  /** In every interleaving, what a load has done is the beginning of one of six lives. */
  lemma {:induction false} EveryLife(actions: seq<Action>, i: nat)
    requires CanRun(INITIAL, actions)
    ensures Lived(OfLoad(actions, i), i)
  {
    RunTold(actions);
    hide CanRun, Run;
    var s := Run(INITIAL, actions);
    if i < |s.loaders| {
      LedToLived(s.loaders[i], OfLoad(actions, i), i);
    }
  }

  lemma {:induction false} LedToLived(p: Phase, h: seq<Action>, i: nat)
    requires LedTo(p, h, i)
    ensures Lived(h, i)
  {
  }

  // ---------- what follows from the six lives ----------

  lemma {:induction false} OfLoadHas(actions: seq<Action>, i: nat, a: Action)
    ensures a in OfLoad(actions, i) <==> a in actions && IsOf(a, i)
  {
    if actions != [] {
      OfLoadHas(actions[1..], i, a);
      assert actions == [actions[0]] + actions[1..];
    }
  }

  /** What the steps of a load tell about where it stands. */
  ghost predicate Tells(p: Phase, h: seq<Action>, i: nat) {
    (Call(i) in h ==> Read(i, Usable) in h) &&
    (Store(i) in h <==> HasStored(p)) &&
    (Store(i) in h ==> Call(i) in h && RefuseEarly(i) !in h && RefuseLate(i) !in h) &&
    (Read(i, Missing) in h || Read(i, Malformed) in h ==>
      (p.Unlocking? || p.Finished?) &&
      Read(i, Usable) !in h && Call(i) !in h && ReadPrevious(i) !in h && Store(i) !in h)
  }

  lemma {:induction false} EndTells(f: Fate, h: seq<Action>, i: nat)
    requires EndedIn(f, h, i)
    ensures Tells(Finished(f), h, i)
  {
  }

  lemma {:induction false} LedTells(p: Phase, h: seq<Action>, i: nat)
    requires LedTo(p, h, i)
    ensures Tells(p, h, i)
  {
    if p.Unlocking? {
      var g := h + [Unlock(i)];
      EndTells(p.fate, g, i);
      assert forall a :: a in g <==> a in h || a == Unlock(i);
      hide EndedIn;
    } else if p.Finished? {
      EndTells(p.fate, h, i);
    }
  }

  /** In every interleaving: the change callback is called only by a load that read a usable
      configuration, and only such a one that is not refused is stored. */
  lemma {:induction false} StoredWasUsable(actions: seq<Action>, i: nat)
    requires CanRun(INITIAL, actions)
    ensures Call(i) in actions ==> Read(i, Usable) in actions
    ensures Store(i) in actions ==>
              Read(i, Usable) in actions && Call(i) in actions &&
              RefuseEarly(i) !in actions && RefuseLate(i) !in actions
  {
    LoadTells(actions, i);
  }

  lemma {:induction false} LoadTells(actions: seq<Action>, i: nat)
    requires CanRun(INITIAL, actions)
    ensures (exists a :: a in actions && IsOf(a, i)) ==> i < |Run(INITIAL, actions).loaders|
    ensures i < |Run(INITIAL, actions).loaders| ==> Tells(Run(INITIAL, actions).loaders[i], actions, i)
  {
    RunTold(actions);
    hide CanRun, Run;
    var (s, h) := (Run(INITIAL, actions), OfLoad(actions, i));
    forall a | IsOf(a, i)
      ensures a in h <==> a in actions
    {
      OfLoadHas(actions, i, a);
    }
    if i < |s.loaders| {
      LedTells(s.loaders[i], h, i);
    }
    hide OfLoad, LedTo;
  }

  /** The step changes nothing that has been applied, the version in force or the server. */
  lemma {:induction false} HarmlessStep(s: State, a: Action, i: nat)
    requires Enabled(s, a) && IsOf(a, i) && a != Call(i) && a != Store(i)
    ensures (Next(s, a).applied, Next(s, a).inForce, Next(s, a).server) == (s.applied, s.inForce, s.server)
  {
  }

  /** A load that could not read the file, or found no configuration in it, is never inside the
      callback, and none of its steps changes what has been applied, what is in force, or the
      server. */
  lemma {:induction false} FailedIsHarmless(actions: seq<Action>, i: nat, before: seq<Action>, a: Action)
    requires CanRun(INITIAL, actions) && (Read(i, Missing) in actions || Read(i, Malformed) in actions)
    ensures i < |Run(INITIAL, actions).loaders| && !InCallback(Run(INITIAL, actions).loaders[i])
    ensures before + [a] <= actions && IsOf(a, i) ==>
              CanRun(INITIAL, before) && CanRun(INITIAL, before + [a]) &&
              var (s, t) := (Run(INITIAL, before), Run(INITIAL, before + [a]));
              (t.applied, t.inForce, t.server) == (s.applied, s.inForce, s.server)
  {
    LoadTells(actions, i);
    if before + [a] <= actions && IsOf(a, i) {
      assert a in before + [a] && a in actions;
      RunBeginning(INITIAL, before + [a], actions);
      RunLast(INITIAL, before, a);
      hide CanRun, Run, Enabled, Next;
      HarmlessStep(Run(INITIAL, before), a, i);
    }
  }

  lemma {:induction false} RunBeginning(s: State, a: seq<Action>, actions: seq<Action>)
    requires a <= actions && CanRun(s, actions)
    ensures CanRun(s, a)
    decreases a
  {
    if a != [] {
      RunBeginning(Next(s, a[0]), a[1..], actions[1..]);
    }
  }

  // ---------- which steps a load can take next ----------

  /** What lets a load that stands at p take the step. */
  predicate CanMove(p: Phase, a: Action, s: State) {
    (p.Sleeping? && a.Wake?) || (p.Waiting? && a.Acquire? && s.lock == Free) || (p.Locked? && a.Check?) ||
    (p.Reading? && a.Read?) || (p.Loaded? && a.Call?) || (p.Called? && (a.RefuseEarly? || a.ReadPrevious?)) ||
    (p.Updating? && (a.RefuseLate? || a.Store?)) || (p.Unlocking? && a.Unlock?)
  }

  lemma {:induction false} EnabledWhen(s: State, a: Action, i: nat)
    requires IsOf(a, i) && i < |s.loaders|
    ensures Enabled(s, a) <==> CanMove(s.loaders[i], a, s)
  {
  }

  lemma {:induction false} OneMore(h: seq<Action>, a: Action, life: seq<Action>)
    ensures h + [a] <= life <==> h <= life && |h| < |life| && life[|h|] == a
  {
    if h + [a] <= life {
      assert (h + [a])[|h|] == a;
    }
  }

  lemma {:induction false} LivedMore(h: seq<Action>, a: Action, i: nat)
    ensures Lived(h + [a], i) <==>
            Goes(h, a, SkippedLife(i)) || Goes(h, a, FailedLife(i, Missing)) || Goes(h, a, FailedLife(i, Malformed)) ||
            Goes(h, a, RefusedLife(i)) || Goes(h, a, RefusedLateLife(i)) || Goes(h, a, StoredLife(i))
  {
    OneMore(h, a, SkippedLife(i));
    OneMore(h, a, FailedLife(i, Missing));
    OneMore(h, a, FailedLife(i, Malformed));
    OneMore(h, a, RefusedLife(i));
    OneMore(h, a, RefusedLateLife(i));
    OneMore(h, a, StoredLife(i));
    hide SkippedLife, FailedLife, RefusedLife, RefusedLateLife, StoredLife;
  }

  /** The steps go along the life, as its fourth and sixth step tell, and the next one as well. */
  predicate Goes(h: seq<Action>, a: Action, life: seq<Action>) {
    h <= life && |h| < |life| && life[|h|] == a &&
    (|h| > 3 ==> h[3] == life[3]) && (|h| > 5 ==> h[5] == life[5])
  }

  lemma AnyReading(a: Action)
    ensures a.Read? ==> a == Read(a.i, Missing) || a == Read(a.i, Malformed) || a == Read(a.i, Usable)
  {
    if a.Read? {
      match a.reading
      case Missing =>
      case Malformed =>
      case Usable =>
    }
  }

  lemma {:induction false} MovesLive(p: Phase, a: Action, h: seq<Action>, i: nat, s: State)
    requires IsOf(a, i) && LedTo(p, h, i)
    requires p.Unlocking? ==> (p.fate.Skipped? <==> s.cancelled)
    requires p.Reading? ==> !s.cancelled
    ensures CanMove(p, a, s) <==>
            Lived(h + [a], i) && (a == Acquire(i) ==> s.lock == Free) &&
            (h == [Wake(i), Acquire(i), Check(i)] ==> (a == Unlock(i) <==> s.cancelled))
  {
    LivedMore(h, a, i);
    AnyReading(a);
    if p.Finished? {
      EndsLife(p.fate, h, a, i);
    } else if p.Unlocking? {
      EndsNext(p.fate, h, a, i);
    }
    hide Lived, EndedIn;
  }

  /** A whole life goes no further. */
  lemma {:induction false} EndsLife(f: Fate, h: seq<Action>, a: Action, i: nat)
    requires EndedIn(f, h, i)
    ensures !Lived(h + [a], i)
  {
    LivedMore(h, a, i);
    assert h[|h| - 1] == Unlock(i) && |h| >= 4;
    hide Lived;
  }

  /** What leads to unlocking goes on with that, or, before the file was read, with a read. */
  lemma {:induction false} EndsNext(f: Fate, h: seq<Action>, a: Action, i: nat)
    requires EndedIn(f, h + [Unlock(i)], i) && IsOf(a, i)
    ensures Lived(h + [a], i) <==> a == Unlock(i) || (f.Skipped? && a.Read?)
    ensures h == [Wake(i), Acquire(i), Check(i)] <==> f.Skipped?
  {
    LivedMore(h, a, i);
    AnyReading(a);
    var g := h + [Unlock(i)];
    assert h == g[..|g| - 1];
    hide Lived;
  }

  /** A load about to unlock was skipped exactly when the watcher has been cancelled. */
  predicate SkipsCancelled(s: State) {
    forall i :: 0 <= i < |s.loaders| && s.loaders[i].Unlocking? ==> (s.loaders[i].fate.Skipped? <==> s.cancelled)
  }

  lemma {:induction false} StepSkips(s: State, a: Action)
    requires Enabled(s, a) && LockHeld(s) && CancelStops(s) && SkipsCancelled(s)
    ensures SkipsCancelled(Next(s, a))
  {
    hide Install, CloseInBackground, Close;
  }

  lemma {:induction false} RunSkips(s: State, actions: seq<Action>)
    requires Inv(s) && SkipsCancelled(s) && CanRun(s, actions)
    ensures SkipsCancelled(Run(s, actions))
    decreases actions
  {
    if actions != [] {
      StepInv(s, actions[0]);
      StepSkips(s, actions[0]);
      hide Enabled, Next, Inv;
      RunSkips(Next(s, actions[0]), actions[1..]);
    }
  }

  /** In every interleaving, the next step of a load can be taken exactly when it goes on with one
      of the six lives, the lock is free if it is to be acquired, and, once the load has looked
      whether the watcher was cancelled, it heeds what it saw. */
  lemma {:induction false} NextStep(actions: seq<Action>, i: nat, a: Action)
    requires CanRun(INITIAL, actions) && i < |Run(INITIAL, actions).loaders| && IsOf(a, i)
    ensures
      var (s, h) := (Run(INITIAL, actions), OfLoad(actions, i));
      CanRun(INITIAL, actions + [a]) <==>
      Lived(h + [a], i) && (a == Acquire(i) ==> s.lock == Free) &&
      (h == [Wake(i), Acquire(i), Check(i)] ==> (a == Unlock(i) <==> s.cancelled))
  {
    var (s, h) := (Run(INITIAL, actions), OfLoad(actions, i));
    StartInv();
    RunInv(INITIAL, actions);
    RunSkips(INITIAL, actions);
    RunTold(actions);
    RunLast(INITIAL, actions, a);
    EnabledWhen(s, a, i);
    assert s.loaders[i].Reading? ==> Active(s.loaders[i]);
    hide CanRun, Run, Enabled, CanMove, Lived, LedTo, OfLoad;
    MovesLive(s.loaders[i], a, h, i, s);
  }

  const CANCELLING: seq<Action> := [CancelLock, CancelRaise, CancelUnlock, CancelReturn]

  lemma {:induction false} CancelRuns(s: State)
    requires s.lock == Free && s.cancel == NotCalled
    ensures CanRun4(s, CANCELLING)
    ensures Run4(s, CANCELLING) == s.(cancelled := true, cancel := Returned)
  {
  }

  /** Cancelling can be done whenever the lock is free and was not begun before. */
  lemma {:induction false} CancelCompletes(actions: seq<Action>)
    requires CanRun(INITIAL, actions)
    requires Run(INITIAL, actions).lock == Free && Run(INITIAL, actions).cancel == NotCalled
    ensures
      var s := Run(INITIAL, actions);
      CanRun(s, CANCELLING) && Run(s, CANCELLING) == s.(cancelled := true, cancel := Returned)
  {
    hide CanRun, Run, CanRun4, Run4;
    var s := Run(INITIAL, actions);
    CancelRuns(s);
    RunNone(Run4(s, CANCELLING));
    assert CANCELLING[4..] == [];
    RunFour(s, CANCELLING);
  }

  /** Every event in the queue can be delivered until cancel has returned, and starts a load unless
      one is asleep already. */
  lemma {:induction false} EventDelivered(actions: seq<Action>)
    requires CanRun(INITIAL, actions)
    ensures
      var s := Run(INITIAL, actions);
      (CanRun(INITIAL, actions + [Deliver]) <==> s.queue != [] && s.cancel != Returned) &&
      (CanRun(INITIAL, actions + [Deliver]) ==>
        var t := Run(INITIAL, actions + [Deliver]);
        s.queue[0] in t.delivered && t.queue == s.queue[1..] &&
        t.loaders == if exists i :: 0 <= i < |s.loaders| && s.loaders[i] == Sleeping then s.loaders else s.loaders + [Sleeping])
  {
    StartInv();
    RunInv(INITIAL, actions);
    RunLast(INITIAL, actions, Deliver);
    hide CanRun, Run, LockHeld, CancelStops, NoneLost, InOrder, LargestStored, ServerSound;
  }

  /** Writing changes the version of the file, and queues an event for it if one is sent. */
  lemma {:induction false} WriteQueued(actions: seq<Action>, notified: bool)
    requires CanRun(INITIAL, actions)
    ensures CanRun(INITIAL, actions + [Write(notified)])
    ensures
      var (s, t) := (Run(INITIAL, actions), Run(INITIAL, actions + [Write(notified)]));
      t.version == s.version + 1 && t.queue == if notified then s.queue + [t.version] else s.queue
  {
    RunLast(INITIAL, actions, Write(notified));
    hide CanRun, Run;
  }

  /** What the steps leave behind: every read that found a text adds the version of the file to
      those seen, every call the last of these to those applied, and nothing else does. */
  lemma {:induction false} SeenAndApplied(actions: seq<Action>, a: Action)
    requires CanRun(INITIAL, actions + [a])
    ensures CanRun(INITIAL, actions)
    ensures
      var (s, t) := (Run(INITIAL, actions), Run(INITIAL, actions + [a]));
      t.seen == s.seen + (if a.Read? && a.reading != Missing then [s.version] else []) &&
      t.applied == s.applied + (if a.Call? then [Last(s.seen)] else [])
  {
    RunLast(INITIAL, actions, a);
    StartInv();
    RunInv(INITIAL, actions);
    assert LoadersInOrder(Run(INITIAL, actions));
    hide CanRun, Run, Inv, Enabled, Next;
    StepLeaves(Run(INITIAL, actions), a);
  }

  lemma {:induction false} StepLeaves(s: State, a: Action)
    requires Enabled(s, a) && LoadersInOrder(s)
    ensures Next(s, a).seen == s.seen + (if a.Read? && a.reading != Missing then [s.version] else [])
    ensures Next(s, a).applied == s.applied + (if a.Call? then [Last(s.seen)] else [])
  {
    hide Install, CloseInBackground, Close, Last;
    AnyReading(a);
    assert s.seen + [] == s.seen && s.applied + [] == s.applied;
  }

  // ---------- the version in force ----------

  /** The version a load has looked at, if it has looked. */
  function VersionSeen(p: Phase): Option<nat> {
    match p
    case Loaded(v) => Some(v)
    case Called(v) => Some(v)
    case Updating(v, _) => Some(v)
    case Unlocking(f) => if f.Skipped? then None else Some(f.version)
    case Finished(f) => if f.Skipped? then None else Some(f.version)
    case _ => None
  }

  /** Step k reads the file for load i, which is then at version v. */
  ghost predicate ReadAt(actions: seq<Action>, k: nat, i: nat, v: nat) {
    k < |actions| && actions[k].Read? && actions[k].i == i &&
    CanRun(INITIAL, actions[..k]) && Run(INITIAL, actions[..k]).version == v
  }

  /** What a load has looked at is the file as it was at its only read. */
  ghost predicate Dated(s: State, actions: seq<Action>) {
    (forall i :: 0 <= i < |s.loaders| && VersionSeen(s.loaders[i]).Some? ==>
      exists k: nat :: ReadAt(actions, k, i, VersionSeen(s.loaders[i]).value)) &&
    forall k: nat, i: nat, v: nat :: ReadAt(actions, k, i, v) ==> i < |s.loaders| && VersionSeen(s.loaders[i]) == Some(v)
  }

  lemma {:induction false} ReadLast(actions: seq<Action>, a: Action, k: nat, i: nat, v: nat)
    requires CanRun(INITIAL, actions)
    ensures ReadAt(actions + [a], k, i, v) <==>
            ReadAt(actions, k, i, v) ||
            (k == |actions| && a.Read? && a.i == i && Run(INITIAL, actions).version == v)
  {
    var t := actions + [a];
    if k < |actions| {
      assert t[..k] == actions[..k] && t[k] == actions[k];
    } else if k == |actions| {
      assert t[..k] == actions && t[k] == a;
    }
  }

  /** A read shows the version of the file to a load that has not looked; no other step changes
      what a load has seen. */
  lemma {:induction false} StepSeen(s: State, a: Action)
    requires Enabled(s, a)
    ensures |Next(s, a).loaders| >= |s.loaders| && (a.Read? ==> a.i < |s.loaders|)
    ensures forall i :: 0 <= i < |Next(s, a).loaders| ==>
              VersionSeen(Next(s, a).loaders[i]) ==
              if a.Read? && a.i == i then Some(s.version)
              else if i < |s.loaders| then VersionSeen(s.loaders[i]) else None
    ensures a.Read? ==> VersionSeen(s.loaders[a.i]) == None
  {
    hide Install, CloseInBackground, Close;
    if !a.Read? {
      NothingSeen(s, a);
      hide Next, VersionSeen;
    }
  }

  lemma {:induction false} NothingSeen(s: State, a: Action)
    requires Enabled(s, a) && !a.Read?
    ensures |Next(s, a).loaders| >= |s.loaders|
    ensures forall i :: 0 <= i < |Next(s, a).loaders| ==>
              VersionSeen(Next(s, a).loaders[i]) == if i < |s.loaders| then VersionSeen(s.loaders[i]) else None
  {
    hide Install, CloseInBackground, Close;
  }

  lemma {:induction false} StepDated(actions: seq<Action>, a: Action)
    requires CanRun(INITIAL, actions) && Enabled(Run(INITIAL, actions), a) && Dated(Run(INITIAL, actions), actions)
    ensures Dated(Next(Run(INITIAL, actions), a), actions + [a])
  {
    var s := Run(INITIAL, actions);
    var t := Next(s, a);
    StepSeen(s, a);
    hide CanRun, Run, Enabled, Next, VersionSeen, ReadAt;
    forall i | 0 <= i < |t.loaders| && VersionSeen(t.loaders[i]).Some?
      ensures exists k: nat :: ReadAt(actions + [a], k, i, VersionSeen(t.loaders[i]).value)
    {
      var v := VersionSeen(t.loaders[i]).value;
      if a.Read? && a.i == i {
        ReadLast(actions, a, |actions|, i, v);
      } else {
        var k: nat :| ReadAt(actions, k, i, v);
        ReadLast(actions, a, k, i, v);
      }
    }
    forall k: nat, i: nat, v: nat | ReadAt(actions + [a], k, i, v)
      ensures i < |t.loaders| && VersionSeen(t.loaders[i]) == Some(v)
    {
      ReadLast(actions, a, k, i, v);
    }
  }

  lemma {:induction false} RunDated(actions: seq<Action>)
    requires CanRun(INITIAL, actions)
    ensures Dated(Run(INITIAL, actions), actions)
    decreases |actions|
  {
    if actions != [] {
      var (before, a) := (actions[..|actions| - 1], actions[|actions| - 1]);
      assert before + [a] == actions;
      RunLast(INITIAL, before, a);
      RunDated(before);
      hide CanRun, Run, Enabled, Next, Dated;
      StepDated(before, a);
    }
  }

  /** Step k reads a usable configuration at version v, for a load that is stored. */
  ghost predicate StoredFrom(actions: seq<Action>, k: nat, i: nat, v: nat) {
    ReadAt(actions, k, i, v) && actions[k] == Read(i, Usable) && Store(i) in actions
  }

  lemma {:induction false} StoredWasRead(actions: seq<Action>, i: nat)
    requires CanRun(INITIAL, actions) && i < |Run(INITIAL, actions).loaders|
    requires HasStored(Run(INITIAL, actions).loaders[i])
    ensures exists k: nat :: StoredFrom(actions, k, i, Run(INITIAL, actions).loaders[i].fate.version)
  {
    RunDated(actions);
    LoadTells(actions, i);
    hide CanRun, Run;
    var p := Run(INITIAL, actions).loaders[i];
    assert VersionSeen(p) == Some(p.fate.version);
    var k: nat :| ReadAt(actions, k, i, p.fate.version);
    var reading := actions[k].reading;
    assert actions[k] == Read(i, reading) && Read(i, reading) in actions;
    assert reading == Usable || reading == Missing || reading == Malformed;
    assert StoredFrom(actions, k, i, p.fate.version);
  }

  lemma {:induction false} ReadWasStored(actions: seq<Action>, k: nat, i: nat, v: nat)
    requires CanRun(INITIAL, actions) && StoredFrom(actions, k, i, v)
    ensures
      var s := Run(INITIAL, actions);
      i < |s.loaders| && HasStored(s.loaders[i]) && s.loaders[i].fate.version == v
  {
    RunDated(actions);
    hide CanRun, Run;
    LoadTells(actions, i);
  }

  /** In every interleaving, told from the actions alone: a version is in force or superseded
      exactly when some load read the file at that version or a later one, found it usable, and
      was stored. */
  lemma {:induction false} InForceWasRead(actions: seq<Action>, v: nat)
    requires CanRun(INITIAL, actions) && v > 0
    ensures v <= Run(INITIAL, actions).inForce <==>
            exists k: nat, i: nat, w: nat :: StoredFrom(actions, k, i, w) && v <= w
  {
    var s := Run(INITIAL, actions);
    StartInv();
    RunInv(INITIAL, actions);
    assert LargestStored(s);
    hide CanRun, Run, Inv, StoredFrom;
    if v <= s.inForce {
      var i :| 0 <= i < |s.loaders| && HasStored(s.loaders[i]) && s.loaders[i].fate.version == s.inForce;
      StoredWasRead(actions, i);
    }
    forall k: nat, i: nat, w: nat | StoredFrom(actions, k, i, w) && v <= w
      ensures v <= s.inForce
    {
      ReadWasStored(actions, k, i, w);
    }
  }
}
