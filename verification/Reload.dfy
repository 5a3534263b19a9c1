/** Hot reload: the file watcher, its delayed loads, its cancellation and the server it updates,
    as one machine whose steps interleave freely. A file is known by its version number. */
module Reload {
  import opened DateMath
  import opened Server

  /** What a read of the file comes to: no text, text that is no configuration, or one that is. */
  datatype Reading = Missing | Malformed | Usable

  /** How a load ended, and the version of the file it looked at. */
  datatype Fate =
    | Skipped                        // cancelled before it looked
    | Unreadable(version: nat)
    | Unusable(version: nat)
    | Refused(version: nat)          // by the server
    | Stored(version: nat)

  /** Where a goroutine that loads the file stands. */
  datatype Phase =
    | Sleeping                       // debouncing; the pending flag is set
    | Waiting                        // the flag is cleared; the lock is not yet held
    | Locked                         // the lock is held; cancellation not yet looked at
    | Reading                        // not cancelled; about to read the file
    | Loaded(version: nat)           // a usable configuration has been read
    | Called(version: nat)           // inside the change callback
    | Updating(version: nat, previous: nat)  // the authenticator to replace has been read
    | Unlocking(fate: Fate)
    | Finished(fate: Fate)

  datatype Cancel = NotCalled | Holding | Raised | Unlocked | Returned

  datatype Owner = Free | Loader(i: nat) | Canceller

  datatype State = State(
    version: nat,              // the file's current version
    queue: seq<nat>,           // write events not yet delivered
    delivered: set<nat>,       // versions whose write event was delivered
    pending: bool,
    cancelled: bool,
    lock: Owner,
    loaders: seq<Phase>,
    cancel: Cancel,
    seen: seq<nat>,            // versions read
    applied: seq<nat>,         // versions handed to the change callback
    inForce: nat,              // version of the configuration the server runs under
    server: Holdings)

  const INITIAL := State(0, [], {}, false, false, Free, [], NotCalled, [], [], 0, START)

  datatype Action =
    | Write(notified: bool)
    | Deliver
    | Wake(i: nat)
    | Acquire(i: nat)
    | Check(i: nat)
    | Read(i: nat, reading: Reading)
    | Call(i: nat)
    | RefuseEarly(i: nat)
    | ReadPrevious(i: nat)
    | RefuseLate(i: nat)
    | Store(i: nat)
    | Unlock(i: nat)
    | CloseOld(a: nat)
    | CancelLock
    | CancelRaise
    | CancelUnlock
    | CancelReturn
    | Shutdown

  predicate At(s: State, i: nat, p: Phase) {
    i < |s.loaders| && s.loaders[i] == p
  }

  predicate Enabled(s: State, a: Action) {
    match a
    case Write(_) => true
    case Deliver => s.queue != [] && s.cancel != Returned
    case Wake(i) => At(s, i, Sleeping)
    case Acquire(i) => At(s, i, Waiting) && s.lock == Free
    case Check(i) => At(s, i, Locked)
    case Read(i, _) => At(s, i, Reading)
    case Call(i) => i < |s.loaders| && s.loaders[i].Loaded?
    case RefuseEarly(i) => i < |s.loaders| && s.loaders[i].Called?
    case ReadPrevious(i) => i < |s.loaders| && s.loaders[i].Called?
    case RefuseLate(i) => i < |s.loaders| && s.loaders[i].Updating?
    case Store(i) => i < |s.loaders| && s.loaders[i].Updating?
    case Unlock(i) => i < |s.loaders| && s.loaders[i].Unlocking?
    case CloseOld(x) => x in s.server.closing
    case CancelLock => s.cancel == NotCalled && s.lock == Free
    case CancelRaise => s.cancel == Holding
    case CancelUnlock => s.cancel == Raised
    case CancelReturn => s.cancel == Unlocked
    case Shutdown => s.server.shutdown.None?
  }

  function Move(s: State, i: nat, p: Phase): State
    requires i < |s.loaders|
  {
    s.(loaders := s.loaders[i := p])
  }

  function Next(s: State, a: Action): State
    requires Enabled(s, a)
  {
    match a
    case Write(notified) =>
      s.(version := s.version + 1, queue := if notified then s.queue + [s.version + 1] else s.queue)
    case Deliver =>
      var s1 := s.(queue := s.queue[1..], delivered := s.delivered + {s.queue[0]});
      if s.pending then s1 else s1.(pending := true, loaders := s.loaders + [Sleeping])
    case Wake(i) => Move(s, i, Waiting).(pending := false)
    case Acquire(i) => Move(s, i, Locked).(lock := Loader(i))
    case Check(i) => Move(s, i, if s.cancelled then Unlocking(Skipped) else Reading)
    case Read(i, Missing) => Move(s, i, Unlocking(Unreadable(s.version)))
    case Read(i, Malformed) => Move(s, i, Unlocking(Unusable(s.version))).(seen := s.seen + [s.version])
    case Read(i, Usable) => Move(s, i, Loaded(s.version)).(seen := s.seen + [s.version])
    case Call(i) =>
      var v := s.loaders[i].version;
      Move(s, i, Called(v)).(applied := s.applied + [v])
    case RefuseEarly(i) => Move(s, i, Unlocking(Refused(s.loaders[i].version)))
    case ReadPrevious(i) => Move(s, i, Updating(s.loaders[i].version, s.server.current))
    case RefuseLate(i) => Move(s, i, Unlocking(Refused(s.loaders[i].version)))
    case Store(i) =>
      Move(s, i, Unlocking(Stored(s.loaders[i].version))).(
        inForce := s.loaders[i].version, server := Install(s.server, s.loaders[i].previous))
    case Unlock(i) => Move(s, i, Finished(s.loaders[i].fate)).(lock := Free)
    case CloseOld(x) => s.(server := CloseInBackground(s.server, x))
    case CancelLock => s.(cancel := Holding, lock := Canceller)
    case CancelRaise => s.(cancel := Raised, cancelled := true)
    case CancelUnlock => s.(cancel := Unlocked, lock := Free)
    case CancelReturn => s.(cancel := Returned)
    case Shutdown => s.(server := Close(s.server))
  }

  // ---------- the invariant ----------

  predicate InSection(p: Phase) {
    p.Locked? || p.Reading? || p.Loaded? || p.Called? || p.Updating? || p.Unlocking?
  }

  /** Past the look at cancellation, and not yet done with the server. */
  predicate Active(p: Phase) {
    p.Reading? || p.Loaded? || p.Called? || p.Updating?
  }

  predicate YetToRead(p: Phase) {
    p.Sleeping? || p.Waiting? || p.Locked? || p.Reading?
  }

  /** The lock is held by the one that is inside its critical section, if any. */
  predicate LockHeld(s: State) {
    (forall i :: 0 <= i < |s.loaders| ==> (InSection(s.loaders[i]) <==> s.lock == Loader(i))) &&
    (s.lock.Loader? ==> s.lock.i < |s.loaders|) &&
    (s.lock == Canceller <==> s.cancel == Holding || s.cancel == Raised)
  }

  /** The pending flag is set exactly when one loader sleeps, and two never do. */
  predicate OneSleeper(s: State) {
    (s.pending <==> exists i :: 0 <= i < |s.loaders| && s.loaders[i].Sleeping?) &&
    forall i, j :: 0 <= i < j < |s.loaders| ==> !(s.loaders[i].Sleeping? && s.loaders[j].Sleeping?)
  }

  /** After cancellation was raised no loader is active. */
  predicate CancelStops(s: State) {
    (s.cancelled <==> s.cancel == Raised || s.cancel == Unlocked || s.cancel == Returned) &&
    (s.cancelled ==> forall i :: 0 <= i < |s.loaders| ==> !Active(s.loaders[i]))
  }

  /** The load has looked at the file at version v or later, whatever came of it. */
  predicate Looked(p: Phase, v: nat) {
    match p
    case Loaded(w) => w >= v
    case Called(w) => w >= v
    case Updating(w, _) => w >= v
    case Unlocking(f) => !f.Skipped? && f.version >= v
    case Finished(f) => !f.Skipped? && f.version >= v
    case _ => false
  }

  predicate Covered(s: State, v: nat) {
    s.cancelled || exists i :: 0 <= i < |s.loaders| && (YetToRead(s.loaders[i]) || Looked(s.loaders[i], v))
  }

  /** Every delivered write is covered by a load that has yet to look at the file, or one that has
      looked at that version or a later one, or the watcher has been cancelled. */
  predicate NoneLost(s: State) {
    (forall v :: v in s.delivered ==> 0 < v <= s.version && Covered(s, v)) &&
    forall k :: 0 <= k < |s.queue| ==> 0 < s.queue[k] <= s.version
  }

  predicate HasStored(p: Phase) {
    (p.Unlocking? || p.Finished?) && p.fate.Stored?
  }

  /** The version in force is the largest one stored; none was before the first. */
  predicate LargestStored(s: State) {
    (forall i :: 0 <= i < |s.loaders| && HasStored(s.loaders[i]) ==> s.loaders[i].fate.version <= s.inForce) &&
    (s.inForce == 0 ||
     exists i :: 0 <= i < |s.loaders| && HasStored(s.loaders[i]) && s.loaders[i].fate.version == s.inForce)
  }

  predicate Ordered(vs: seq<nat>) {
    forall j, k :: 0 <= j < k < |vs| ==> vs[j] <= vs[k]
  }

  function Last(vs: seq<nat>): nat {
    if vs == [] then 0 else vs[|vs| - 1]
  }

  predicate InCallback(p: Phase) {
    p.Called? || p.Updating?
  }

  /** What is being applied is what was read last. */
  predicate LoadersInOrder(s: State) {
    (forall i :: 0 <= i < |s.loaders| && s.loaders[i].Loaded? ==> s.loaders[i].version == Last(s.seen)) &&
    forall i :: 0 <= i < |s.loaders| && InCallback(s.loaders[i]) ==>
      s.loaders[i].version == Last(s.applied) == Last(s.seen)
  }

  /** Versions are read, applied and put in force in file order. */
  predicate InOrder(s: State) {
    LoadersInOrder(s) && Ordered(s.seen) && Ordered(s.applied) &&
    s.inForce <= Last(s.applied) <= Last(s.seen) <= s.version
  }

  /** The authenticator about to be replaced is still the one in use. */
  ghost predicate ServerSound(s: State) {
    Ledger(s.server) &&
    forall i :: 0 <= i < |s.loaders| && s.loaders[i].Updating? ==> s.loaders[i].previous == s.server.current
  }

  ghost predicate Inv(s: State) {
    LockHeld(s) && OneSleeper(s) && CancelStops(s) && NoneLost(s) && InOrder(s) && LargestStored(s) &&
    ServerSound(s)
  }

  // ---------- every step keeps it ----------

  lemma {:induction false} StepLock(s: State, a: Action)
    requires LockHeld(s) && Enabled(s, a)
    ensures LockHeld(Next(s, a))
  {
    hide Install, CloseInBackground, Close;
    if !a.Acquire? && !a.Unlock? {
      SectionsKept(s, a);
      hide InSection, Move;
    }
  }

  /** Only the lock lets a load into its critical section, and only unlocking ends it. */
  lemma {:induction false} SectionsKept(s: State, a: Action)
    requires Enabled(s, a) && !a.Acquire? && !a.Unlock?
    ensures |Next(s, a).loaders| >= |s.loaders|
    ensures forall i :: 0 <= i < |Next(s, a).loaders| ==>
              (InSection(Next(s, a).loaders[i]) <==> i < |s.loaders| && InSection(s.loaders[i]))
  {
    hide Install, CloseInBackground, Close;
  }

  lemma {:induction false} StepSleeper(s: State, a: Action)
    requires OneSleeper(s) && Enabled(s, a)
    ensures OneSleeper(Next(s, a))
  {
    hide Install, CloseInBackground, Close;
    var t := Next(s, a);
    if a.Deliver? {
      if !s.pending {
        assert t.loaders[|s.loaders|] == Sleeping;
      }
    } else if !a.Wake? {
      SleepersKept(s, a);
      hide Next;
      assert forall i :: 0 <= i < |s.loaders| && s.loaders[i].Sleeping? ==> t.loaders[i].Sleeping?;
    }
  }

  /** Only an event puts a load to sleep, and only waking ends it. */
  lemma {:induction false} SleepersKept(s: State, a: Action)
    requires Enabled(s, a) && !a.Deliver? && !a.Wake?
    ensures |Next(s, a).loaders| == |s.loaders| && Next(s, a).pending == s.pending
    ensures forall i :: 0 <= i < |s.loaders| ==>
              (Next(s, a).loaders[i].Sleeping? <==> s.loaders[i].Sleeping?)
  {
    hide Install, CloseInBackground, Close;
  }

  lemma {:induction false} StepCancel(s: State, a: Action)
    ensures LockHeld(s) && CancelStops(s) && Enabled(s, a) ==> CancelStops(Next(s, a))
  {
  }

  lemma {:induction false} StepCovered(s: State, a: Action, v: nat)
    requires Enabled(s, a) && CancelStops(s) && v <= s.version && Covered(s, v)
    ensures Covered(Next(s, a), v)
  {
    var t := Next(s, a);
    if !s.cancelled {
      var i :| 0 <= i < |s.loaders| && (YetToRead(s.loaders[i]) || Looked(s.loaders[i], v));
      assert YetToRead(t.loaders[i]) || Looked(t.loaders[i], v);
    }
  }

  lemma {:induction false} StepNoneLost(s: State, a: Action)
    requires OneSleeper(s) && CancelStops(s) && NoneLost(s) && Enabled(s, a)
    ensures NoneLost(Next(s, a))
  {
    var t := Next(s, a);
    forall v | v in t.delivered
      ensures v <= t.version && Covered(t, v)
    {
      if v in s.delivered {
        StepCovered(s, a, v);
      } else if s.pending {
        var i :| 0 <= i < |s.loaders| && s.loaders[i].Sleeping?;
        assert YetToRead(t.loaders[i]);
      } else {
        assert YetToRead(t.loaders[|s.loaders|]);
      }
    }
  }

  lemma {:induction false} OrderedAppend(vs: seq<nat>, v: nat)
    ensures Ordered(vs) && Last(vs) <= v ==> Ordered(vs + [v]) && Last(vs + [v]) == v
  {
  }

  lemma {:induction false} StepInOrder(s: State, a: Action)
    requires LockHeld(s) && InOrder(s) && Enabled(s, a)
    ensures InOrder(Next(s, a))
  {
    StepLoaders(s, a);
    hide Install, CloseInBackground, Close, Ordered, Last, LockHeld;
    if a.Read? && !a.reading.Missing? {
      OrderedAppend(s.seen, s.version);
    } else if a.Call? {
      OrderedAppend(s.applied, s.loaders[a.i].version);
    }
  }

  lemma {:induction false} StepLoaders(s: State, a: Action)
    requires LockHeld(s) && LoadersInOrder(s) && Enabled(s, a)
    ensures LoadersInOrder(Next(s, a))
  {
    if a.Read? || a.Call? {
      OnlyOneInside(s, a.i);
      hide Next, LoadersInOrder, InSection;
      StepReadOrCall(s, a);
    } else {
      hide LoadersInOrder, Next;
      StepElsewhere(s, a);
    }
  }

  lemma {:induction false} StepElsewhere(s: State, a: Action)
    requires Enabled(s, a) && !a.Read? && !a.Call? && LoadersInOrder(s)
    ensures LoadersInOrder(Next(s, a))
  {
    hide Install, CloseInBackground, Close, Last;
  }

  lemma {:induction false} StepReadOrCall(s: State, a: Action)
    requires Enabled(s, a) && (a.Read? || a.Call?) && LoadersInOrder(s)
    requires forall j :: 0 <= j < |s.loaders| && j != a.i ==> !InSection(s.loaders[j])
    ensures LoadersInOrder(Next(s, a))
  {
    hide LockHeld, Install, CloseInBackground, Close;
    var t := Next(s, a);
    assert |t.loaders| == |s.loaders|;
    assert t.loaders[a.i].Loaded? ==> t.loaders[a.i].version == Last(t.seen);
    assert InCallback(t.loaders[a.i]) ==> t.loaders[a.i].version == Last(t.applied) == Last(t.seen);
    assert forall j :: 0 <= j < |t.loaders| && j != a.i ==> t.loaders[j] == s.loaders[j];
    hide Next, Last;
  }

  lemma {:induction false} OnlyOneInside(s: State, i: nat)
    ensures LockHeld(s) && i < |s.loaders| && InSection(s.loaders[i]) ==>
      forall j :: 0 <= j < |s.loaders| && j != i ==> !InSection(s.loaders[j])
  {
  }

  lemma {:induction false} StepLargest(s: State, a: Action)
    requires InOrder(s) && LargestStored(s) && Enabled(s, a)
    ensures LargestStored(Next(s, a))
  {
    hide Install, CloseInBackground, Close, Ordered, Last;
    var t := Next(s, a);
    if a.Store? {
      assert HasStored(t.loaders[a.i]) && t.loaders[a.i].fate.version == t.inForce;
    } else {
      StoredKept(s, a);
      hide Next, InOrder, HasStored;
      if s.inForce != 0 {
        var i :| 0 <= i < |s.loaders| && HasStored(s.loaders[i]) && s.loaders[i].fate.version == s.inForce;
        assert HasStored(t.loaders[i]);
      }
    }
  }

  /** Only a store adds to what has been stored. */
  lemma {:induction false} StoredKept(s: State, a: Action)
    requires Enabled(s, a) && !a.Store?
    ensures Next(s, a).inForce == s.inForce && |Next(s, a).loaders| >= |s.loaders|
    ensures forall i :: 0 <= i < |Next(s, a).loaders| ==>
              (HasStored(Next(s, a).loaders[i]) <==> i < |s.loaders| && HasStored(s.loaders[i])) &&
              (HasStored(Next(s, a).loaders[i]) ==> Next(s, a).loaders[i].fate == s.loaders[i].fate)
  {
    hide Install, CloseInBackground, Close;
  }

  lemma {:induction false} StepServer(s: State, a: Action)
    requires LockHeld(s) && ServerSound(s) && Enabled(s, a)
    ensures ServerSound(Next(s, a))
  {
    hide Next, LockHeld, Ledger, Enabled;
    StepLedger(s, a);
    StepUpdating(s, a);
  }

  lemma {:induction false} StepLedger(s: State, a: Action)
    requires ServerSound(s) && Enabled(s, a)
    ensures Ledger(Next(s, a).server)
    ensures !a.Store? ==> Next(s, a).server.current == s.server.current
  {
    match a {
      case Store(i) => LedgerInstall(s.server);
      case CloseOld(x) => LedgerCloseInBackground(s.server, x);
      case Shutdown => LedgerClose(s.server);
      case _ =>
    }
    hide Ledger, Install, CloseInBackground, Close;
  }

  /** An authenticator about to be replaced is the one installed; storing leaves none. */
  lemma {:induction false} StepUpdating(s: State, a: Action)
    requires LockHeld(s) && ServerSound(s) && Enabled(s, a)
    ensures forall i :: 0 <= i < |Next(s, a).loaders| && Next(s, a).loaders[i].Updating? ==>
              !a.Store? && Next(s, a).loaders[i].previous == s.server.current
  {
    if a.Store? {
      OnlyOneInside(s, a.i);
    }
    hide LockHeld, Ledger, Install, CloseInBackground, Close;
  }

  lemma {:induction false} StepInv(s: State, a: Action)
    requires Inv(s) && Enabled(s, a)
    ensures Inv(Next(s, a))
  {
    StepLock(s, a);
    StepSleeper(s, a);
    StepCancel(s, a);
    StepNoneLost(s, a);
    StepInOrder(s, a);
    StepLargest(s, a);
    StepServer(s, a);
  }

  // ---------- runs ----------

  predicate CanRun(s: State, actions: seq<Action>)
    decreases actions
  {
    actions == [] || (Enabled(s, actions[0]) && CanRun(Next(s, actions[0]), actions[1..]))
  }

  function Run(s: State, actions: seq<Action>): State
    requires CanRun(s, actions)
    decreases actions
  {
    if actions == [] then s else Run(Next(s, actions[0]), actions[1..])
  }

  /** In every interleaving, every state reached keeps the invariant. */
  lemma {:induction false} RunInv(s: State, actions: seq<Action>)
    requires Inv(s)
    ensures !CanRun(s, actions) || Inv(Run(s, actions))
    decreases actions
  {
    if actions != [] && Enabled(s, actions[0]) {
      StepInv(s, actions[0]);
      RunInv(Next(s, actions[0]), actions[1..]);
    }
  }

  lemma StartInv()
    ensures Inv(INITIAL)
  {
  }

  /** Every load has come to its end, and the watcher was not cancelled. */
  predicate AtRest(s: State) {
    !s.cancelled && forall i :: 0 <= i < |s.loaders| ==> s.loaders[i].Finished?
  }

  /** In every interleaving, for every delivered write some load is yet to look at the file or has
      looked at it since; at rest one has. */
  lemma {:induction false} NoLostUpdate(actions: seq<Action>, v: nat)
    requires CanRun(INITIAL, actions) && v in Run(INITIAL, actions).delivered
    ensures Covered(Run(INITIAL, actions), v)
    ensures
      var s := Run(INITIAL, actions);
      AtRest(s) ==> exists i :: 0 <= i < |s.loaders| && Looked(s.loaders[i], v)
  {
    hide CanRun, Run, LockHeld, OneSleeper, CancelStops, InOrder, LargestStored, ServerSound;
    StartInv();
    RunInv(INITIAL, actions);
  }

  /** In every interleaving, a delivered version is in force or superseded exactly when some load
      that looked at it or a later one found it readable and usable and the server took it. */
  lemma {:induction false} ReachesServer(actions: seq<Action>, v: nat)
    requires CanRun(INITIAL, actions) && v in Run(INITIAL, actions).delivered
    ensures
      var s := Run(INITIAL, actions);
      v <= s.inForce <==>
      exists i :: 0 <= i < |s.loaders| && HasStored(s.loaders[i]) && v <= s.loaders[i].fate.version
  {
    hide CanRun, Run, LockHeld, OneSleeper, CancelStops, InOrder, Covered, ServerSound;
    StartInv();
    RunInv(INITIAL, actions);
  }

  /** No load has failed: none found the file unreadable or unusable, and none was refused. */
  predicate NoneFailed(s: State) {
    forall i :: 0 <= i < |s.loaders| && (s.loaders[i].Unlocking? || s.loaders[i].Finished?) ==>
      s.loaders[i].fate.Skipped? || s.loaders[i].fate.Stored?
  }

  predicate Succeeds(a: Action) {
    !a.RefuseEarly? && !a.RefuseLate? && (a.Read? ==> a.reading.Usable?)
  }

  lemma {:induction false} RunSucceeds(s: State, actions: seq<Action>)
    requires NoneFailed(s) && CanRun(s, actions) && forall a :: a in actions ==> Succeeds(a)
    ensures NoneFailed(Run(s, actions))
    decreases actions
  {
    if actions != [] {
      assert actions == [actions[0]] + actions[1..];
      StepSucceeds(s, actions[0]);
      RunSucceeds(Next(s, actions[0]), actions[1..]);
    }
  }

  lemma {:induction false} StepSucceeds(s: State, a: Action)
    requires NoneFailed(s) && Enabled(s, a) && Succeeds(a)
    ensures NoneFailed(Next(s, a))
  {
    hide Install, CloseInBackground, Close;
  }

  /** In every interleaving in which no load fails, every delivered write is in force or superseded
      once the watcher is at rest. */
  lemma {:induction false} DeliveredInForce(actions: seq<Action>, v: nat)
    requires CanRun(INITIAL, actions) && forall a :: a in actions ==> Succeeds(a)
    requires v in Run(INITIAL, actions).delivered && AtRest(Run(INITIAL, actions))
    ensures v <= Run(INITIAL, actions).inForce
  {
    NoLostUpdate(actions, v);
    RunSucceeds(INITIAL, actions);
    ReachesServer(actions, v);
    hide CanRun, Run;
    var s := Run(INITIAL, actions);
    var i :| 0 <= i < |s.loaders| && Looked(s.loaders[i], v);
    assert HasStored(s.loaders[i]) && v <= s.loaders[i].fate.version;
  }

  /** In every interleaving, a reload that is stored puts the newest version read in force, and
      never one older than before. */
  lemma {:induction false} NewestInForce(actions: seq<Action>, i: nat)
    requires CanRun(INITIAL, actions) && Enabled(Run(INITIAL, actions), Store(i))
    ensures
      var s := Run(INITIAL, actions);
      Next(s, Store(i)).inForce == Last(s.seen) && s.inForce <= Last(s.seen)
  {
    StartInv();
    RunInv(INITIAL, actions);
  }

  /** The change callback is never run by two loaders at once. */
  lemma {:induction false} CallbacksSerialised(actions: seq<Action>, i: nat, j: nat)
    requires CanRun(INITIAL, actions)
    requires
      var s := Run(INITIAL, actions);
      i < |s.loaders| && j < |s.loaders| && Active(s.loaders[i]) && Active(s.loaders[j])
    ensures i == j
  {
    StartInv();
    RunInv(INITIAL, actions);
  }

  // ---------- after cancellation ----------

  /** The versions read and applied, the one in force and the authenticators installed. */
  function Effects(s: State): (seq<nat>, seq<nat>, nat, nat, nat) {
    (s.seen, s.applied, s.inForce, s.server.installed, s.server.current)
  }

  lemma {:induction false} QuietAfterCancel(s: State, actions: seq<Action>)
    requires Inv(s) && s.cancelled && CanRun(s, actions)
    ensures Run(s, actions).cancelled && Effects(Run(s, actions)) == Effects(s)
    decreases actions
  {
    hide LockHeld, OneSleeper, NoneLost, InOrder, ServerSound;
    if actions != [] {
      StepInv(s, actions[0]);
      QuietAfterCancel(Next(s, actions[0]), actions[1..]);
    }
  }

  /** Once cancel has returned, whatever happens next, the file is not read again, the change
      callback is not called and the configuration in use does not change. */
  lemma {:induction false} NothingAfterCancel(before: seq<Action>, after: seq<Action>)
    requires CanRun(INITIAL, before) && Run(INITIAL, before).cancel == Returned
    requires CanRun(Run(INITIAL, before), after)
    ensures Effects(Run(Run(INITIAL, before), after)) == Effects(Run(INITIAL, before))
  {
    StartInv();
    RunInv(INITIAL, before);
    QuietAfterCancel(Run(INITIAL, before), after);
  }

  // ---------- authenticators over whole runs ----------

  /** In every interleaving, the authenticator installed has not been closed, unless by the closing
      of the server; and once all closes have run, every authenticator ever installed was closed
      exactly once if and only if no reload was stored after the server was closed. */
  lemma {:induction false} AuthenticatorsClosed(actions: seq<Action>)
    requires CanRun(INITIAL, actions)
    ensures
      var h := Run(INITIAL, actions).server;
      (h.shutdown.None? ==> h.closed[h.current] == 0 && h.closing[h.current] == 0) &&
      (AllClosed(h) ==>
        ((forall a: nat :: a < h.installed ==> h.closed[a] == 1) <==> h.current == h.shutdown.value))
  {
    StartInv();
    RunInv(INITIAL, actions);
    var h := Run(INITIAL, actions).server;
    assert Ledger(h);
    hide CanRun, Run, Inv;
    if h.shutdown.None? {
      CurrentOpen(h);
    }
    if AllClosed(h) {
      ClosedExactlyOnce(h);
    }
    hide Ledger;
  }

  lemma CurrentOpen(h: Holdings)
    requires Ledger(h) && h.shutdown.None?
    ensures h.closed[h.current] == 0 && h.closing[h.current] == 0
  {
    assert One(h.current == h.current) == 1;
  }

  /** The number of reloads a run stores. */
  function Stores(actions: seq<Action>): nat {
    if actions == [] then 0 else (if actions[0].Store? then 1 else 0) + Stores(actions[1..])
  }

  lemma {:induction false} StoresInstall(s: State, actions: seq<Action>)
    ensures CanRun(s, actions) ==> Run(s, actions).server.installed == s.server.installed + Stores(actions)
    decreases actions
  {
    if CanRun(s, actions) && actions != [] {
      StoresInstall(Next(s, actions[0]), actions[1..]);
    }
  }

  /** In every interleaving: whoever took hold of the authenticator at some point of a run, as
      requests in flight and the metrics route do, finds it closed later exactly when a reload has
      been stored since and the background close of this one has run, or when the server was
      closed with it. */
  lemma {:induction false} HeldAuthenticator(before: seq<Action>, after: seq<Action>)
    requires CanRun(INITIAL, before) && CanRun(Run(INITIAL, before), after)
    ensures
      var a := Run(INITIAL, before).server.current;
      var h := Run(Run(INITIAL, before), after).server;
      a in h.closed <==> (Stores(after) > 0 && a !in h.closing) || h.shutdown == Some(a)
  {
    hide CanRun, Run;
    var s := Run(INITIAL, before);
    StartInv();
    RunInv(INITIAL, before);
    RunInv(s, after);
    StoresInstall(s, after);
    ClosedWhen(Run(s, after).server, s.server.current);
  }

  lemma {:induction false} ShutdownStays(s: State, actions: seq<Action>)
    ensures CanRun(s, actions) && s.server.shutdown.Some? ==>
      Run(s, actions).server.shutdown == s.server.shutdown
    decreases actions
  {
    if CanRun(s, actions) && s.server.shutdown.Some? && actions != [] {
      ShutdownStays(Next(s, actions[0]), actions[1..]);
    }
  }

  /** Closing the server after cancel has returned closes every authenticator exactly once. */
  lemma {:induction false} CancelThenClose(before: seq<Action>, after: seq<Action>)
    requires CanRun(INITIAL, before) && Run(INITIAL, before).cancel == Returned
    requires Enabled(Run(INITIAL, before), Shutdown)
    requires CanRun(Next(Run(INITIAL, before), Shutdown), after)
    ensures
      var h := Run(Next(Run(INITIAL, before), Shutdown), after).server;
      AllClosed(h) ==> forall a: nat :: a < h.installed ==> h.closed[a] == 1
  {
    hide LockHeld, OneSleeper, NoneLost, InOrder, CanRun, Run;
    var s := Run(INITIAL, before);
    StartInv();
    RunInv(INITIAL, before);
    StepInv(s, Shutdown);
    var t := Next(s, Shutdown);
    assert t.cancelled && t.server.shutdown == Some(s.server.current);
    QuietAfterCancel(t, after);
    ShutdownStays(t, after);
    RunInv(t, after);
    var h := Run(t, after).server;
    if AllClosed(h) {
      ClosedExactlyOnce(h);
    }
  }

  /** A load up to the change callback. */
  const LOAD: seq<Action> := [Write(true), Deliver, Wake(0), Acquire(0), Check(0), Read(0, Usable), Call(0)]

  /** The server is closed while the callback runs, before cancel is called. */
  const LATE: seq<Action> := [Shutdown, ReadPrevious(0), Store(0), Unlock(0), CloseOld(0)]

  /** The rest of a load, and the close it leaves behind. */
  const REPLACE: seq<Action> := [ReadPrevious(0), Store(0), Unlock(0), CloseOld(0)]

  lemma {:induction false} RunFrom(s: State, actions: seq<Action>, k: nat)
    requires k < |actions| && Enabled(s, actions[k]) && CanRun(Next(s, actions[k]), actions[k + 1..])
    ensures CanRun(s, actions[k..])
    ensures Run(s, actions[k..]) == Run(Next(s, actions[k]), actions[k + 1..])
  {
    assert actions[k..][1..] == actions[k + 1..];
  }

  lemma {:induction false} RunConcat(s: State, a: seq<Action>, b: seq<Action>)
    requires CanRun(s, a) && CanRun(Run(s, a), b)
    ensures CanRun(s, a + b) && Run(s, a + b) == Run(Run(s, a), b)
    decreases a
  {
    if a == [] {
      assert a + b == b;
    } else {
      assert (a + b)[1..] == a[1..] + b;
      RunConcat(Next(s, a[0]), a[1..], b);
    }
  }

  lemma {:induction false} RunLoad()
    ensures CanRun(INITIAL, LOAD)
    ensures
      var t := Run(INITIAL, LOAD);
      t.loaders == [Called(1)] && t.server == START
  {
    var s4 := LoadStarts(LOAD);
    LoadContinues(s4);
    RunFour(INITIAL, LOAD);
  }

  /** A write, its event, and the load it causes up to the lock. */
  lemma {:induction false} LoadStarts(actions: seq<Action>) returns (s4: State)
    requires |actions| >= 4
    requires (actions[0], actions[1], actions[2], actions[3]) == (Write(true), Deliver, Wake(0), Acquire(0))
    ensures CanRun4(INITIAL, actions) && s4 == Run4(INITIAL, actions)
    ensures s4.loaders == [Locked] && s4.delivered == {1}
    ensures (s4.server, s4.version, s4.cancelled, s4.inForce) == (START, 1, false, 0)
  {
    s4 := Run4(INITIAL, actions);
  }

  lemma {:induction false} LoadContinues(s: State)
    requires s.loaders == [Locked] && s.server == START && s.version == 1 && !s.cancelled
    ensures CanRun(s, LOAD[4..])
    ensures
      var t := Run(s, LOAD[4..]);
      t.loaders == [Called(1)] && t.server == START
  {
    hide CanRun, Run;
    var s5 := Next(s, Check(0));
    var s6 := Next(s5, Read(0, Usable));
    RunNone(Next(s6, Call(0)));
    assert LOAD[7..] == [];
    RunFrom(s6, LOAD, 6);
    RunFrom(s5, LOAD, 5);
    RunFrom(s, LOAD, 4);
  }

  /** The first four steps, one by one. */
  predicate CanRun4(s: State, actions: seq<Action>)
    requires |actions| >= 4
  {
    Enabled(s, actions[0]) &&
    var s1 := Next(s, actions[0]);
    Enabled(s1, actions[1]) &&
    var s2 := Next(s1, actions[1]);
    Enabled(s2, actions[2]) &&
    var s3 := Next(s2, actions[2]);
    Enabled(s3, actions[3])
  }

  function Run4(s: State, actions: seq<Action>): State
    requires |actions| >= 4 && CanRun4(s, actions)
  {
    Next(Next(Next(Next(s, actions[0]), actions[1]), actions[2]), actions[3])
  }

  lemma {:induction false} RunFour(s: State, actions: seq<Action>)
    requires |actions| >= 4 && CanRun4(s, actions) && CanRun(Run4(s, actions), actions[4..])
    ensures CanRun(s, actions) && Run(s, actions) == Run(Run4(s, actions), actions[4..])
  {
    hide Enabled, Next;
    var s1 := Next(s, actions[0]);
    var s2 := Next(s1, actions[1]);
    var s3 := Next(s2, actions[2]);
    RunFrom(s3, actions, 3);
    RunFrom(s2, actions, 2);
    RunFrom(s1, actions, 1);
    RunFrom(s, actions, 0);
    assert actions[0..] == actions;
  }

  lemma {:induction false} RunNone(s: State)
    ensures CanRun(s, []) && Run(s, []) == s
  {
  }

  lemma {:induction false} RunLate(s: State)
    requires s.loaders == [Called(1)] && s.server == START
    ensures CanRun(s, LATE)
    ensures Run(s, LATE).server == Holdings(2, 1, multiset{}, multiset{0, 0}, Some(0))
  {
    LateRuns(s);
    var s4 := Run4(s, LATE);
    assert Next(s4, CloseOld(0)).server == Holdings(2, 1, multiset{}, multiset{0, 0}, Some(0));
    hide Next, Run4, CanRun4, CanRun, Run, Install, Close;
    RunNone(Next(s4, CloseOld(0)));
    assert LATE[5..] == [];
    RunFrom(s4, LATE, 4);
    RunFour(s, LATE);
  }

  lemma {:induction false} LateRuns(s: State)
    requires s.loaders == [Called(1)] && s.server == START
    ensures CanRun4(s, LATE)
    ensures Run4(s, LATE).server == Install(Close(START), 0)
  {
  }

  /** Closing the server first, as the program does on a signal, lets a reload that is under way
      close one authenticator twice and leave another open. */
  lemma {:induction false} CloseThenReload()
    ensures CanRun(INITIAL, LOAD + LATE)
    ensures Run(INITIAL, LOAD + LATE).server == Holdings(2, 1, multiset{}, multiset{0, 0}, Some(0))
  {
    RunLoad();
    RunLate(Run(INITIAL, LOAD));
    RunConcat(INITIAL, LOAD, LATE);
  }

  lemma {:induction false} RunReplace(s: State)
    requires s.loaders == [Called(1)] && s.server == START
    ensures CanRun(s, REPLACE)
    ensures Run(s, REPLACE).server == Holdings(2, 1, multiset{}, multiset{0}, None)
  {
    ReplaceRuns(s);
    RunNone(Run4(s, REPLACE));
    assert REPLACE[4..] == [];
    RunFour(s, REPLACE);
  }

  lemma {:induction false} ReplaceRuns(s: State)
    requires s.loaders == [Called(1)] && s.server == START
    ensures CanRun4(s, REPLACE)
    ensures Run4(s, REPLACE).server == CloseInBackground(Install(START, 0), 0)
  {
  }

  /** One ordinary reload, the server running on, closes the authenticator that was installed at
      the start: the one the metrics route goes on using. */
  lemma {:induction false} HeldThenClosed()
    ensures CanRun(INITIAL, LOAD + REPLACE)
    ensures INITIAL.server.current == 0
    ensures Run(INITIAL, LOAD + REPLACE).server == Holdings(2, 1, multiset{}, multiset{0}, None)
  {
    RunLoad();
    RunReplace(Run(INITIAL, LOAD));
    RunConcat(INITIAL, LOAD, REPLACE);
  }

  // ---------- a change that does not arrive ----------

  /** A load that finds no file. */
  const MISSED: seq<Action> := [Write(true), Deliver, Wake(0), Acquire(0), Check(0), Read(0, Missing), Unlock(0)]

  lemma {:induction false} MissEnds(s: State)
    requires s.loaders == [Locked] && s.version == 1 && !s.cancelled
    ensures CanRun(s, MISSED[4..])
    ensures
      var t := Run(s, MISSED[4..]);
      t.loaders == [Finished(Unreadable(1))] &&
      (t.delivered, t.cancelled, t.inForce) == (s.delivered, false, s.inForce)
  {
    hide CanRun, Run;
    var s5 := Next(s, Check(0));
    var s6 := Next(s5, Read(0, Missing));
    RunNone(Next(s6, Unlock(0)));
    assert MISSED[7..] == [];
    RunFrom(s6, MISSED, 6);
    RunFrom(s5, MISSED, 5);
    RunFrom(s, MISSED, 4);
  }

  /** A delivered write whose load finds the file missing, as it can while an editor replaces it,
      never reaches the server: no load tries again. */
  lemma {:induction false} MissedForGood()
    ensures CanRun(INITIAL, MISSED)
    ensures
      var t := Run(INITIAL, MISSED);
      t.delivered == {1} && AtRest(t) && t.inForce == 0
  {
    var s4 := LoadStarts(MISSED);
    MissEnds(s4);
    RunFour(INITIAL, MISSED);
  }
}
