/**
 A read/write lock whose read guards can be upgraded: a flag under a mutex keeps new readers out while
 an upgrader waits for the old ones to leave, and a condition variable lets them in again.

 Any number of threads call `read` and, on the guard they get, `try_writeable`, or drop the guard. The
 program counter says where in those two functions a thread is; each step is one atomic operation on the
 mutex, the condition variable, the flag or the inner lock. Everything shared is updated step by step and
 any thread may take the next step, so the theorems hold for every interleaving.
 */
module UpgradeLocks {
  import opened Wrappers

  type Tid = nat

  datatype Pc =
    | Idle
      // read
    | ReadLock
    | ReadCheck
    | ReadWait
    | ReadWake
    | ReadInner
    | ReadReturn
      // the guard is in the caller's hands
    | Guarded
      // try_writeable, first stage: mark the intention to write
    | UpLock
    | UpRelease
    | UpCheck
    | UpWait
    | UpWake
    | UpMark
    | UpUnlock
    | UpRelock
      // second stage: the preparation
    | UpPrep
      // third stage: the write
    | UpRelease2
    | UpAsk
    | UpDrain
    | UpWrite
    | UpUnwrite
    | UpRelock2
      // last stage: signal
    | UpLock2
    | UpClear
    | UpNotify
    | UpReturn
  {
    /** The thread holds the mutex of the flag. */
    predicate HasMutex() {
      || ReadCheck? || ReadInner? || ReadReturn?
      || UpRelease? || UpCheck? || UpMark? || UpUnlock? || UpClear? || UpNotify? || UpReturn?
    }

    /** The thread holds the inner lock for reading. */
    predicate HasRead() {
      || ReadReturn? || Guarded? || UpLock? || UpRelease? || UpPrep? || UpRelease2?
      || UpLock2? || UpClear? || UpNotify? || UpReturn?
    }

    /** The thread is a writer of the inner lock, or the one that waits for the readers to leave. */
    predicate HasClaim() {
      UpDrain? || UpWrite? || UpUnwrite?
    }

    /** The thread has marked its intention to write and not yet cleared it. */
    predicate HasMark() {
      || UpUnlock? || UpRelock? || UpPrep? || UpRelease2? || UpAsk? || UpDrain? || UpWrite? || UpUnwrite?
      || UpRelock2? || UpLock2? || UpClear?
    }

    /** Between the preparation and the write. */
    predicate Prepared() {
      UpRelease2? || UpAsk? || UpDrain? || UpWrite?
    }

    /** The thread holds the inner lock for writing. */
    predicate Writing() {
      UpWrite? || UpUnwrite?
    }

    /** The thread goes on in the belief that nobody wants to write. */
    predicate NeedsNoFlag() {
      ReadInner? || UpMark?
    }

    /** Asleep on the condition variable. */
    predicate Asleep() {
      ReadWait? || UpWait?
    }
  }

  /** The operations on what the threads share. */
  datatype Op =
    | Skip
    | LockMutex
    | UnlockMutex
    | WaitForFlag
    | Sleep
    | SetFlag
    | ClearFlag
    | NotifyAll
    | LockShared
    | UnlockShared
    | ClaimWrite
    | AwaitDrain
    | Mutate
    | UnlockWrite
    | Prepare

  /**
   `writes` counts the writes so far; `seen[t]` is what it was when thread `t` ran its preparation last.
   */
  datatype State = State(
    pcs: seq<Pc>,
    mutex: Option<Tid>,
    wantsWrite: bool,
    readers: set<Tid>,
    claim: Option<Tid>,
    writes: nat,
    seen: seq<nat>
  )

  function Start(n: nat): State {
    State(seq(n, _ => Idle), None, false, {}, None, 0, seq(n, _ => 0))
  }

  // ---------------------------------------------------------------------------
  // The two functions
  // ---------------------------------------------------------------------------

  /** The operation at each place; with a guard in hand the caller may drop it or ask for write access. */
  function OpAt(pc: Pc, wantsWrite: bool, upgrade: bool): Op {
    match pc
    case Idle => Skip
    case ReadLock => LockMutex
    case ReadCheck => if wantsWrite then WaitForFlag else Skip
    case ReadWait => Sleep
    case ReadWake => LockMutex
    case ReadInner => LockShared
    case ReadReturn => UnlockMutex
    case Guarded => if upgrade then Skip else UnlockShared
    case UpLock => LockMutex
    case UpRelease => UnlockShared
    case UpCheck => if wantsWrite then WaitForFlag else Skip
    case UpWait => Sleep
    case UpWake => LockMutex
    case UpMark => SetFlag
    case UpUnlock => UnlockMutex
    case UpRelock => LockShared
    case UpPrep => Prepare
    case UpRelease2 => UnlockShared
    case UpAsk => ClaimWrite
    case UpDrain => AwaitDrain
    case UpWrite => Mutate
    case UpUnwrite => UnlockWrite
    case UpRelock2 => LockShared
    case UpLock2 => LockMutex
    case UpClear => ClearFlag
    case UpNotify => NotifyAll
    case UpReturn => UnlockMutex
  }

  /** Where the thread is after the operation. */
  function After(pc: Pc, wantsWrite: bool, upgrade: bool): Pc {
    match pc
    case Idle => ReadLock
    case ReadLock => ReadCheck
    case ReadCheck => if wantsWrite then ReadWait else ReadInner
    case ReadWait => ReadWait
    case ReadWake => ReadCheck
    case ReadInner => ReadReturn
    case ReadReturn => Guarded
    case Guarded => if upgrade then UpLock else Idle
    case UpLock => UpRelease
    case UpRelease => UpCheck
    case UpCheck => if wantsWrite then UpWait else UpMark
    case UpWait => UpWait
    case UpWake => UpCheck
    case UpMark => UpUnlock
    case UpUnlock => UpRelock
    case UpRelock => UpPrep
    case UpPrep => UpRelease2
    case UpRelease2 => UpAsk
    case UpAsk => UpDrain
    case UpDrain => UpWrite
    case UpWrite => UpUnwrite
    case UpUnwrite => UpRelock2
    case UpRelock2 => UpLock2
    case UpLock2 => UpClear
    case UpClear => UpNotify
    case UpNotify => UpReturn
    case UpReturn => Guarded
  }

  // ---------------------------------------------------------------------------
  // Steps
  // ---------------------------------------------------------------------------

  /**
   The operation does not block. Shared access waits for a writer that holds the inner lock and also for
   one that is still waiting for the readers to leave.
   */
  predicate Possible(s: State, op: Op) {
    match op
    case LockMutex => s.mutex.None?
    case Sleep => false
    case LockShared => s.claim.None?
    case ClaimWrite => s.claim.None?
    case AwaitDrain => s.readers == {}
    case _ => true
  }

  function Woken(pc: Pc): Pc {
    if pc.ReadWait? then ReadWake else if pc.UpWait? then UpWake else pc
  }

  function WokenAll(pcs: seq<Pc>): (r: seq<Pc>)
    ensures |r| == |pcs| && forall i :: 0 <= i < |pcs| ==> r[i] == Woken(pcs[i])
  {
    seq(|pcs|, i requires 0 <= i < |pcs| => Woken(pcs[i]))
  }

  function Perform(s: State, t: Tid, op: Op): State
    requires t < |s.seen|
  {
    match op
    case Skip => s
    case LockMutex => s.(mutex := Some(t))
    case UnlockMutex => s.(mutex := None)
    case WaitForFlag => s.(mutex := None)
    case Sleep => s
    case SetFlag => s.(wantsWrite := true)
    case ClearFlag => s.(wantsWrite := false)
    case NotifyAll => s.(pcs := WokenAll(s.pcs))
    case LockShared => s.(readers := s.readers + {t})
    case UnlockShared => s.(readers := s.readers - {t})
    case ClaimWrite => s.(claim := Some(t))
    case AwaitDrain => s
    case Mutate => s.(writes := s.writes + 1)
    case UnlockWrite => s.(claim := None)
    case Prepare => s.(seen := s.seen[t := s.writes])
  }

  /** One step of thread `t`. */
  ghost predicate Step(s: State, t: Tid, upgrade: bool, s': State) {
    && t < |s.pcs| == |s.seen|
    && Possible(s, OpAt(s.pcs[t], s.wantsWrite, upgrade))
    && s' == Perform(s.(pcs := s.pcs[t := After(s.pcs[t], s.wantsWrite, upgrade)]), t,
                     OpAt(s.pcs[t], s.wantsWrite, upgrade))
  }

  // ---------------------------------------------------------------------------
  // The invariant
  // ---------------------------------------------------------------------------

  /** Who holds the mutex, the inner lock and the claim is as the program counters say. */
  ghost predicate LocksOk(s: State) {
    && (forall t :: 0 <= t < |s.pcs| ==> (s.pcs[t].HasMutex() <==> s.mutex == Some(t)))
    && (forall t :: 0 <= t < |s.pcs| ==> (s.pcs[t].HasRead() <==> t in s.readers))
    && (forall t :: 0 <= t < |s.pcs| ==> (s.pcs[t].HasClaim() <==> s.claim == Some(t)))
    && (forall t :: t in s.readers ==> t < |s.pcs|)
    && (s.mutex.Some? ==> s.mutex.value < |s.pcs|)
    && (s.claim.Some? ==> s.claim.value < |s.pcs|)
  }

  /** The flag is set exactly while one thread is between marking and clearing it. */
  ghost predicate FlagOk(s: State) {
    && (forall t :: 0 <= t < |s.pcs| && s.pcs[t].HasMark() ==> s.wantsWrite)
    && (forall t, u :: 0 <= t < u < |s.pcs| ==> !(s.pcs[t].HasMark() && s.pcs[u].HasMark()))
    && (s.wantsWrite ==> exists t :: 0 <= t < |s.pcs| && s.pcs[t].HasMark())
    && (forall t :: 0 <= t < |s.pcs| && s.pcs[t].NeedsNoFlag() ==> !s.wantsWrite)
  }

  /** A writer has the inner lock to itself, and nothing was written since its preparation. */
  ghost predicate WritesOk(s: State)
    requires |s.pcs| == |s.seen|
  {
    && (forall t :: 0 <= t < |s.pcs| && s.pcs[t].Writing() ==> s.readers == {})
    && (forall t :: 0 <= t < |s.pcs| && s.pcs[t].Prepared() ==> s.seen[t] == s.writes)
  }

  /** Nobody sleeps without someone awake who will notify. */
  ghost predicate SleepOk(s: State) {
    (exists t :: 0 <= t < |s.pcs| && s.pcs[t].Asleep()) ==>
      s.wantsWrite || exists t :: 0 <= t < |s.pcs| && s.pcs[t].UpNotify?
  }

  ghost predicate Inv(s: State) {
    |s.pcs| == |s.seen| && LocksOk(s) && FlagOk(s) && WritesOk(s) && SleepOk(s)
  }

  // ---------------------------------------------------------------------------
  // What a step does
  // ---------------------------------------------------------------------------

  /** How an operation goes with what the thread holds before and after it. */
  predicate Fits(pc: Pc, op: Op, pc': Pc) {
    FitsMutex(pc, op, pc') && FitsInner(pc, op, pc')
  }

  predicate FitsMutex(pc: Pc, op: Op, pc': Pc) {
    && (op.LockMutex? <==> pc'.HasMutex() && !pc.HasMutex())
    && (op.UnlockMutex? || op.WaitForFlag? <==> pc.HasMutex() && !pc'.HasMutex())
    && (op.SetFlag? <==> pc'.HasMark() && !pc.HasMark())
    && (op.ClearFlag? <==> pc.HasMark() && !pc'.HasMark())
  }

  predicate FitsInner(pc: Pc, op: Op, pc': Pc) {
    && (op.LockShared? <==> pc'.HasRead() && !pc.HasRead())
    && (op.UnlockShared? <==> pc.HasRead() && !pc'.HasRead())
    && (op.ClaimWrite? <==> pc'.HasClaim() && !pc.HasClaim())
    && (op.UnlockWrite? <==> pc.HasClaim() && !pc'.HasClaim())
  }

  /** Where the operations on the flag and on the data stand. */
  predicate Placed(pc: Pc, op: Op, pc': Pc, wantsWrite: bool) {
    && (op.SetFlag? || op.ClearFlag? || op.NotifyAll? ==> pc.HasMutex() && pc'.HasMutex())
    && (op.SetFlag? ==> pc.NeedsNoFlag())
    && (op.ClearFlag? ==> pc'.UpNotify?)
    && (op.NotifyAll? <==> pc.UpNotify?)
    && (pc'.NeedsNoFlag() ==> !wantsWrite && pc.HasMutex() && !op.SetFlag?)
    && (pc'.Asleep() ==> wantsWrite)
    && (op.LockShared? ==> pc.NeedsNoFlag() || (pc.HasMark() && !pc.HasClaim()))
    && (pc'.Writing() ==> op.AwaitDrain? || pc.Writing())
    && (pc'.Prepared() ==> op.Prepare? || (pc.Prepared() && !op.Mutate?))
    && (op.Mutate? || op.Prepare? ==> pc.HasMark())
  }

  lemma ProgramFits(pc: Pc, wantsWrite: bool, upgrade: bool)
    ensures Fits(pc, OpAt(pc, wantsWrite, upgrade), After(pc, wantsWrite, upgrade))
  {
    MutexFits(pc, wantsWrite, upgrade);
    InnerFits(pc, wantsWrite, upgrade);
  }

  lemma MutexFits(pc: Pc, wantsWrite: bool, upgrade: bool)
    ensures FitsMutex(pc, OpAt(pc, wantsWrite, upgrade), After(pc, wantsWrite, upgrade))
  {}

  lemma InnerFits(pc: Pc, wantsWrite: bool, upgrade: bool)
    ensures FitsInner(pc, OpAt(pc, wantsWrite, upgrade), After(pc, wantsWrite, upgrade))
  {}

  lemma ProgramPlaced(pc: Pc, wantsWrite: bool, upgrade: bool)
    requires !pc.Asleep()
    ensures Placed(pc, OpAt(pc, wantsWrite, upgrade), After(pc, wantsWrite, upgrade), wantsWrite)
  {}

  lemma PlacesNest(pc: Pc)
    ensures pc.Writing() ==> pc.HasClaim()
    ensures pc.HasClaim() || pc.Prepared() ==> pc.HasMark()
    ensures pc.NeedsNoFlag() || pc.UpNotify? ==> pc.HasMutex()
  {}

  lemma WakingIsHarmless(pc: Pc)
    ensures
      var w := Woken(pc);
      && (w.HasMutex() <==> pc.HasMutex()) && (w.HasRead() <==> pc.HasRead()) && (w.HasClaim() <==> pc.HasClaim())
      && (w.HasMark() <==> pc.HasMark()) && (w.Prepared() <==> pc.Prepared()) && !w.Asleep()
      && (w.NeedsNoFlag() <==> pc.NeedsNoFlag()) && (w.Writing() <==> pc.Writing())
  {}

  /** A step seen as an operation of thread `t` on its way to `pc'`. */
  ghost predicate Takes(s: State, t: Tid, op: Op, pc': Pc, s': State) {
    && t < |s.pcs| == |s.seen|
    && Possible(s, op) && Fits(s.pcs[t], op, pc') && Placed(s.pcs[t], op, pc', s.wantsWrite)
    && s' == Perform(s.(pcs := s.pcs[t := pc']), t, op)
  }

  lemma LocksStayOk(s: State, t: Tid, op: Op, pc': Pc, s': State)
    requires LocksOk(s) && Takes(s, t, op, pc', s')
    ensures LocksOk(s')
  {
    forall u | 0 <= u < |s.pcs|
      ensures (s'.pcs[u].HasMutex() <==> s'.mutex == Some(u)) && (s'.pcs[u].HasRead() <==> u in s'.readers)
      ensures s'.pcs[u].HasClaim() <==> s'.claim == Some(u)
    {
      MutexStaysOk(s, t, op, pc', s', u);
      InnerStaysOk(s, t, op, pc', s', u);
    }
  }

  lemma MutexStaysOk(s: State, t: Tid, op: Op, pc': Pc, s': State, u: Tid)
    requires LocksOk(s) && Takes(s, t, op, pc', s') && u < |s.pcs|
    ensures |s'.pcs| == |s.pcs| && (s'.pcs[u].HasMutex() <==> s'.mutex == Some(u))
  {
    WakingIsHarmless(if u == t then pc' else s.pcs[u]);
  }

  lemma InnerStaysOk(s: State, t: Tid, op: Op, pc': Pc, s': State, u: Tid)
    requires LocksOk(s) && Takes(s, t, op, pc', s') && u < |s.pcs|
    ensures |s'.pcs| == |s.pcs|
    ensures (s'.pcs[u].HasRead() <==> u in s'.readers) && (s'.pcs[u].HasClaim() <==> s'.claim == Some(u))
  {
    WakingIsHarmless(if u == t then pc' else s.pcs[u]);
  }

  /** Attributes of the program counters that a step of another thread does not change. */
  lemma OthersKeep(s: State, t: Tid, op: Op, pc': Pc, s': State, u: Tid)
    requires Takes(s, t, op, pc', s') && u < |s.pcs| && u != t
    ensures |s'.pcs| == |s.pcs| == |s'.seen| && s'.seen[u] == s.seen[u]
    ensures
      var v, v' := s.pcs[u], s'.pcs[u];
      && (v'.HasMark() <==> v.HasMark()) && (v'.Prepared() <==> v.Prepared()) && (v'.Writing() <==> v.Writing())
      && (v'.NeedsNoFlag() <==> v.NeedsNoFlag()) && (v'.Asleep() ==> v.Asleep()) && (v.UpNotify? ==> v'.UpNotify?)
  {
    WakingIsHarmless(s.pcs[u]);
  }

  /** What the thread itself is at, after its step. */
  lemma SelfMoves(s: State, t: Tid, op: Op, pc': Pc, s': State)
    requires Takes(s, t, op, pc', s')
    ensures |s'.pcs| == |s.pcs|
    ensures (s'.pcs[t].HasMark() <==> pc'.HasMark()) && (s'.pcs[t].Prepared() <==> pc'.Prepared())
    ensures (s'.pcs[t].Writing() <==> pc'.Writing()) && (s'.pcs[t].NeedsNoFlag() <==> pc'.NeedsNoFlag())
    ensures (s'.pcs[t].Asleep() ==> pc'.Asleep()) && (pc'.UpNotify? ==> s'.pcs[t].UpNotify?)
  {
    WakingIsHarmless(pc');
  }

  /** Nobody has marked while a thread goes on in the belief that nobody has. */
  lemma NoMarkWhenFree(s: State)
    requires FlagOk(s) && !s.wantsWrite
    ensures forall u :: 0 <= u < |s.pcs| ==> !s.pcs[u].HasMark()
  {}

  /** Of two threads that both hold the mutex there is only one. */
  lemma AloneWithMutex(s: State, t: Tid, u: Tid)
    requires LocksOk(s) && t < |s.pcs| && u < |s.pcs| && s.pcs[t].HasMutex() && s.pcs[u].HasMutex()
    ensures t == u
  {
    assert s.mutex == Some(t) && s.mutex == Some(u);
  }

  lemma FlagAt(s: State, t: Tid, op: Op, pc': Pc, s': State, u: Tid)
    requires LocksOk(s) && FlagOk(s) && Takes(s, t, op, pc', s') && u < |s.pcs|
    ensures |s'.pcs| == |s.pcs|
    ensures s'.pcs[u].HasMark() ==> s'.wantsWrite
    ensures u != t ==> !(s'.pcs[u].HasMark() && s'.pcs[t].HasMark())
    ensures s'.pcs[u].NeedsNoFlag() ==> !s'.wantsWrite
  {
    SelfMoves(s, t, op, pc', s');
    PlacesNest(s.pcs[t]);
    PlacesNest(s.pcs[u]);
    if op.SetFlag? {
      NoMarkWhenFree(s);
    }
    if u != t {
      OthersKeep(s, t, op, pc', s', u);
      if s.pcs[u].NeedsNoFlag() && op.SetFlag? {
        AloneWithMutex(s, t, u);
      }
    }
  }

  lemma FlagStaysOk(s: State, t: Tid, op: Op, pc': Pc, s': State)
    requires LocksOk(s) && FlagOk(s) && Takes(s, t, op, pc', s')
    ensures FlagOk(s')
  {
    forall u | 0 <= u < |s.pcs|
      ensures s'.pcs[u].HasMark() ==> s'.wantsWrite
      ensures u != t ==> !(s'.pcs[u].HasMark() && s'.pcs[t].HasMark())
      ensures s'.pcs[u].NeedsNoFlag() ==> !s'.wantsWrite
      ensures u != t ==> (s'.pcs[u].HasMark() <==> s.pcs[u].HasMark())
    {
      FlagAt(s, t, op, pc', s', u);
      if u != t {
        OthersKeep(s, t, op, pc', s', u);
      }
    }
    SelfMoves(s, t, op, pc', s');
    if s'.wantsWrite {
      if op.SetFlag? {
        assert s'.pcs[t].HasMark();
      } else {
        var u :| 0 <= u < |s.pcs| && s.pcs[u].HasMark();
        assert s'.pcs[u].HasMark();
      }
    }
  }

  lemma WritesStayOk(s: State, t: Tid, op: Op, pc': Pc, s': State)
    requires |s.pcs| == |s.seen| && LocksOk(s) && FlagOk(s) && WritesOk(s) && Takes(s, t, op, pc', s')
    ensures |s'.pcs| == |s'.seen| && WritesOk(s')
  {
    forall u | 0 <= u < |s.pcs|
      ensures |s'.pcs| == |s.pcs| == |s'.seen|
      ensures s'.pcs[u].Writing() ==> s'.readers == {}
      ensures s'.pcs[u].Prepared() ==> s'.seen[u] == s'.writes
    {
      SelfMoves(s, t, op, pc', s');
      PlacesNest(s.pcs[u]);
      PlacesNest(s.pcs[t]);
      if u != t {
        OthersKeep(s, t, op, pc', s', u);
      }
    }
  }

  lemma SleepStaysOk(s: State, t: Tid, op: Op, pc': Pc, s': State)
    requires SleepOk(s) && Takes(s, t, op, pc', s')
    ensures SleepOk(s')
  {
    SelfMoves(s, t, op, pc', s');
    if u :| 0 <= u < |s'.pcs| && s'.pcs[u].Asleep() {
      if op.ClearFlag? {
        assert s'.pcs[t].UpNotify?;
      } else if op.NotifyAll? {
        WakingIsHarmless(if u == t then pc' else s.pcs[u]);
      } else if u != t {
        OthersKeep(s, t, op, pc', s', u);
        if !s.wantsWrite {
          var v :| 0 <= v < |s.pcs| && s.pcs[v].UpNotify?;
          OthersKeep(s, t, op, pc', s', v);
        }
      }
    }
  }

  /** The program counter is at an operation of the program. */
  lemma StepTakes(s: State, t: Tid, upgrade: bool, s': State)
    requires Step(s, t, upgrade, s')
    ensures Takes(s, t, OpAt(s.pcs[t], s.wantsWrite, upgrade), After(s.pcs[t], s.wantsWrite, upgrade), s')
  {
    assert !s.pcs[t].Asleep();
    ProgramFits(s.pcs[t], s.wantsWrite, upgrade);
    ProgramPlaced(s.pcs[t], s.wantsWrite, upgrade);
  }

  /** Every step of every thread keeps the invariant. */
  lemma StepKeepsInv(s: State, t: Tid, upgrade: bool, s': State)
    requires Inv(s) && Step(s, t, upgrade, s')
    ensures Inv(s')
  {
    StepTakes(s, t, upgrade, s');
    TakingKeepsInv(s, t, OpAt(s.pcs[t], s.wantsWrite, upgrade), After(s.pcs[t], s.wantsWrite, upgrade), s');
  }

  lemma TakingKeepsInv(s: State, t: Tid, op: Op, pc': Pc, s': State)
    requires Inv(s) && Takes(s, t, op, pc', s')
    ensures Inv(s')
  {
    LocksStayOk(s, t, op, pc', s');
    FlagStaysOk(s, t, op, pc', s');
    WritesStayOk(s, t, op, pc', s');
    SleepStaysOk(s, t, op, pc', s');
  }

  // ---------------------------------------------------------------------------
  // Every interleaving
  // ---------------------------------------------------------------------------

  /** Thread `who` took the step, and asked for write access if that was its choice to make. */
  datatype Turn = Turn(who: Tid, upgrade: bool)

  ghost predicate IsRun(states: seq<State>, turns: seq<Turn>) {
    && |states| == |turns| + 1
    && states[0] == Start(|states[0].pcs|)
    && forall i :: 0 <= i < |turns| ==> StepAt(states, turns, i)
  }

  ghost predicate StepAt(states: seq<State>, turns: seq<Turn>, i: nat)
    requires i < |turns| && |states| == |turns| + 1
  {
    Step(states[i], turns[i].who, turns[i].upgrade, states[i + 1])
  }

  lemma StartIsInv(n: nat)
    ensures Inv(Start(n))
  {}

  lemma {:induction false} AlwaysInv(states: seq<State>, turns: seq<Turn>, i: nat)
    requires IsRun(states, turns) && i < |states|
    ensures Inv(states[i])
  {
    if i == 0 {
      StartIsInv(|states[0].pcs|);
    } else {
      AlwaysInv(states, turns, i - 1);
      assert StepAt(states, turns, i - 1);
      StepKeepsInv(states[i - 1], turns[i - 1].who, turns[i - 1].upgrade, states[i]);
    }
  }

  ghost predicate Marks(s: State, t: Tid) {
    t < |s.pcs| && s.pcs[t].HasMark()
  }

  /** In every interleaving the flag is set exactly when one thread is between marking and clearing it. */
  lemma FlagMeansOneUpgrader(states: seq<State>, turns: seq<Turn>, i: nat)
    requires IsRun(states, turns) && i < |states|
    ensures states[i].wantsWrite <==> exists t :: Marks(states[i], t)
    ensures forall t, u :: Marks(states[i], t) && Marks(states[i], u) ==> t == u
  {
    AlwaysInv(states, turns, i);
    var s := states[i];
    if s.wantsWrite {
      var t :| 0 <= t < |s.pcs| && s.pcs[t].HasMark();
      assert Marks(s, t);
    }
  }

  /** No thread but the upgrader itself gets read access while the flag is set. */
  lemma NoGuardWhileMarked(states: seq<State>, turns: seq<Turn>, i: nat, t: Tid)
    requires IsRun(states, turns) && i < |turns|
    requires t !in states[i].readers && t in states[i + 1].readers
    ensures t == turns[i].who
    ensures states[i].wantsWrite ==> Marks(states[i], t)
  {
    AlwaysInv(states, turns, i);
    var s, who, up := states[i], turns[i].who, turns[i].upgrade;
    assert StepAt(states, turns, i);
    StepTakes(s, who, up, states[i + 1]);
    SharedIsTaken(s, who, OpAt(s.pcs[who], s.wantsWrite, up), After(s.pcs[who], s.wantsWrite, up), states[i + 1], t);
  }

  lemma SharedIsTaken(s: State, who: Tid, op: Op, pc': Pc, s': State, t: Tid)
    requires Inv(s) && Takes(s, who, op, pc', s') && t !in s.readers && t in s'.readers
    ensures t == who && (s.wantsWrite ==> Marks(s, t))
  {}

  /** From its preparation until its own write, an upgrader sees no other write. */
  lemma {:induction false} NoWriteSincePreparation(states: seq<State>, turns: seq<Turn>, t: Tid, p: nat, i: nat)
    requires IsRun(states, turns) && p <= i < |states|
    requires forall j :: p <= j <= i ==> IsPrepared(states[j], t)
    ensures states[i].writes == states[p].writes
  {
    if p < i {
      NoWriteSincePreparation(states, turns, t, p, i - 1);
      assert IsPrepared(states[i - 1], t);
      NoWriteAt(states, turns, t, i - 1);
    }
  }

  ghost predicate IsPrepared(s: State, t: Tid) {
    t < |s.pcs| && s.pcs[t].Prepared()
  }

  lemma NoWriteAt(states: seq<State>, turns: seq<Turn>, t: Tid, i: nat)
    requires IsRun(states, turns) && i < |turns| && IsPrepared(states[i], t) && IsPrepared(states[i + 1], t)
    ensures states[i + 1].writes == states[i].writes
  {
    AlwaysInv(states, turns, i);
    AlwaysInv(states, turns, i + 1);
    assert StepAt(states, turns, i);
    SeenStaysAt(states[i], turns[i].who, turns[i].upgrade, states[i + 1], t);
  }

  lemma SeenStaysAt(s: State, who: Tid, up: bool, s': State, t: Tid)
    requires Inv(s) && Inv(s') && Step(s, who, up, s') && IsPrepared(s, t) && IsPrepared(s', t)
    ensures s'.writes == s.writes
  {
    StepTakes(s, who, up, s');
    SeenStays(s, who, OpAt(s.pcs[who], s.wantsWrite, up), After(s.pcs[who], s.wantsWrite, up), s', t);
  }

  lemma SeenStays(s: State, who: Tid, op: Op, pc': Pc, s': State, t: Tid)
    requires Inv(s) && Inv(s') && Takes(s, who, op, pc', s') && IsPrepared(s, t) && IsPrepared(s', t)
    ensures s'.writes == s.writes
  {
    SelfMoves(s, who, op, pc', s');
    PlacesNest(s.pcs[t]);
    if t != who {
      OthersKeep(s, who, op, pc', s', t);
    }
  }

  /** Whoever writes is alone with the data. */
  lemma WriterIsAlone(states: seq<State>, turns: seq<Turn>, i: nat, t: Tid)
    requires IsRun(states, turns) && i < |states| && t < |states[i].pcs| && states[i].pcs[t].UpWrite?
    ensures forall u :: 0 <= u < |states[i].pcs| && u != t ==>
              !states[i].pcs[u].HasRead() && !states[i].pcs[u].HasClaim()
  {
    AlwaysInv(states, turns, i);
  }

  /** Taking the inner lock for reading never blocks, so it may be done while holding the mutex. */
  lemma ReadNeverWaits(states: seq<State>, turns: seq<Turn>, i: nat, t: Tid, upgrade: bool)
    requires IsRun(states, turns) && i < |states| && t < |states[i].pcs|
    requires OpAt(states[i].pcs[t], states[i].wantsWrite, upgrade).LockShared?
    ensures states[i].claim == None && Possible(states[i], LockShared)
  {
    AlwaysInv(states, turns, i);
    NoClaimAtRead(states[i], t, upgrade);
  }

  lemma NoClaimAtRead(s: State, t: Tid, upgrade: bool)
    requires Inv(s) && t < |s.pcs| && OpAt(s.pcs[t], s.wantsWrite, upgrade).LockShared?
    ensures s.claim == None
  {
    if s.claim.Some? {
      PlacesNest(s.pcs[s.claim.value]);
    }
  }

  /** Whoever sleeps will be notified: a writer is still at work, or is about to notify. */
  lemma NoLostWakeup(states: seq<State>, turns: seq<Turn>, i: nat, t: Tid)
    requires IsRun(states, turns) && i < |states| && t < |states[i].pcs| && states[i].pcs[t].Asleep()
    ensures exists u :: 0 <= u < |states[i].pcs| && (states[i].pcs[u].HasMark() || states[i].pcs[u].UpNotify?)
  {
    AlwaysInv(states, turns, i);
  }

  // ---------------------------------------------------------------------------
  // Freedom from deadlock
  // ---------------------------------------------------------------------------

  /** The thread is inside one of the two functions. */
  predicate Inside(pc: Pc) {
    !pc.Idle? && !pc.Guarded?
  }

  /** A thread inside one of the two functions whose next operation does not block. */
  ghost predicate CanMove(s: State, t: Tid) {
    t < |s.pcs| && Inside(s.pcs[t]) && Possible(s, OpAt(s.pcs[t], s.wantsWrite, false))
  }

  /** An upgrader waits for guards that are in their callers' hands; it asked for them in its preparation. */
  ghost predicate WaitsForGuards(s: State) {
    && (exists w :: 0 <= w < |s.pcs| && s.pcs[w].UpDrain?)
    && s.readers != {}
    && forall r :: r in s.readers ==> r < |s.pcs| && s.pcs[r].Guarded?
  }

  lemma MutexHolderMoves(s: State, t: Tid)
    requires Inv(s) && t < |s.pcs| && s.pcs[t].HasMutex()
    ensures CanMove(s, t)
  {
    if s.pcs[t].ReadInner? {
      NoClaimAtRead(s, t, false);
    }
  }

  /** With the mutex free, the upgrader moves unless it waits for guards. */
  lemma UpgraderMoves(s: State, u: Tid)
    requires Inv(s) && s.mutex.None? && u < |s.pcs| && s.pcs[u].HasMark()
    ensures (exists t :: CanMove(s, t)) || WaitsForGuards(s)
  {
    if s.pcs[u].UpRelock? || s.pcs[u].UpRelock2? {
      NoClaimAtRead(s, u, false);
    } else if s.pcs[u].UpAsk? && s.claim.Some? {
      PlacesNest(s.pcs[s.claim.value]);
      assert false;
    }
    if s.pcs[u].UpDrain? && s.readers != {} {
      forall r | r in s.readers && !CanMove(s, r)
        ensures r < |s.pcs| && s.pcs[r].Guarded?
      {
        ReaderIsGuarded(s, u, r);
      }
    } else {
      assert CanMove(s, u);
    }
  }

  lemma ReaderIsGuarded(s: State, u: Tid, r: Tid)
    requires Inv(s) && s.mutex.None? && u < |s.pcs| && s.pcs[u].UpDrain? && r in s.readers && !CanMove(s, r)
    ensures r < |s.pcs| && s.pcs[r].Guarded?
  {}

  /** Whenever a thread is inside the lock, some thread inside can move, or the upgrader waits for guards only. */
  lemma NoDeadlock(states: seq<State>, turns: seq<Turn>, i: nat, t: Tid)
    requires IsRun(states, turns) && i < |states| && t < |states[i].pcs| && Inside(states[i].pcs[t])
    ensures (exists u :: CanMove(states[i], u)) || WaitsForGuards(states[i])
  {
    var s := states[i];
    AlwaysInv(states, turns, i);
    if s.mutex.Some? {
      MutexHolderMoves(s, s.mutex.value);
    } else if s.pcs[t].Asleep() {
      NoLostWakeup(states, turns, i, t);
      var u :| 0 <= u < |s.pcs| && (s.pcs[u].HasMark() || s.pcs[u].UpNotify?);
      PlacesNest(s.pcs[u]);
      UpgraderMoves(s, u);
    } else if s.pcs[t].HasMark() {
      UpgraderMoves(s, t);
    } else {
      OutsideTheMark(s, t);
    }
  }

  lemma OutsideTheMark(s: State, t: Tid)
    requires Inv(s) && s.mutex.None? && t < |s.pcs| && Inside(s.pcs[t]) && !s.pcs[t].Asleep() && !s.pcs[t].HasMark()
    ensures CanMove(s, t)
  {}
}
