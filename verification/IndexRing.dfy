/**
 Session indices and the ring of sessions.

 A tunnel issues an index with every initiation and every response it sends; the low byte of the
 index counts modulo 256. Counting the issues without wrapping shows what the indices stand for: the
 initiation in progress holds the last index issued, the one before it the last but one, every issue
 becomes at most one session, and a slot of the ring is only taken over by a session issued at least
 eight later.
 */
module IndexRing {
  import opened Wrappers
  import opened Sessions
  import opened Handshakes
  import opened Tunnels
  import opened TunnelMoves

  /** The index of issue number `g` of a tunnel whose first `nextIndex` was `base`. */
  function IndexAt(base: Index32, g: nat): Index32 {
    base / 256 * 256 + (base % 256 + g) % 256
  }

  lemma NextIssue(base: Index32, g: nat)
    ensures IncIndex(IndexAt(base, g)) == IndexAt(base, g + 1)
  {
    var b := base % 256;
    assert (b + g + 1) % 256 == ((b + g) % 256 + 1) % 256;
  }

  /** Slots follow issues: the index of issue `g` and that of issue `h` share a slot when `g` and `h` agree modulo 8. */
  lemma SlotOfIssue(base: Index32, g: nat)
    ensures IndexAt(base, g) % N_SESSIONS == (base + g) % N_SESSIONS
  {
    var b := base % 256;
    assert base == base / 256 * 256 + b;
    assert (b + g) % 256 == b + g - (b + g) / 256 * 256;
    assert IndexAt(base, g) == base + g - 256 * ((b + g) / 256);
    SlotShift(base + g, 32 * ((b + g) / 256));
  }

  lemma SlotShift(a: int, z: int)
    ensures (a - 8 * z) % 8 == a % 8
  {}

  type Issues = s: seq<nat> | |s| == N_SESSIONS witness [0, 0, 0, 0, 0, 0, 0, 0]

  /** A tunnel together with a count of its issues, the issue behind each slot, and the issues that became sessions. */
  datatype Tracked = Tracked(core: Core, issued: nat, issueOf: Issues, used: set<nat>)

  /** The issue that a response to this index completes. */
  function CompletedIssue(tr: Tracked, index: Index32): nat {
    var h := tr.core.handshake;
    if h.state.InitSent? && h.state.sent.localIndex == index then tr.issued
    else if tr.issued >= 1 then tr.issued - 1
    else 0
  }

  /** The issue that a move turns into a session. */
  function Establishes(tr: Tracked, m: Move): Option<nat>
    requires Enabled(tr.core, m)
  {
    match m
    case Respond(_, _) => Some(tr.issued + 1)
    case Complete(msg) => Some(CompletedIssue(tr, msg.receiverIdx))
    case _ => None
  }

  /** The slot that a move puts a new session into. */
  function SlotTaken(tr: Tracked, m: Move): nat
    requires Enabled(tr.core, m)
  {
    match m
    case Respond(msg, ephemeral) => IncIndex(tr.core.handshake.nextIndex) % N_SESSIONS
    case Complete(msg) => msg.receiverIdx % N_SESSIONS
    case _ => 0
  }

  function Track(tr: Tracked, m: Move): Tracked
    requires Enabled(tr.core, m)
  {
    var core := Perform(tr.core, m).0;
    var issued := if m.Initiate? || m.Respond? then tr.issued + 1 else tr.issued;
    match Establishes(tr, m)
    case Some(g) => Tracked(core, issued, tr.issueOf[SlotTaken(tr, m) := g], tr.used + {g})
    case None => Tracked(core, issued, tr.issueOf, tr.used)
  }

  // ---------------------------------------------------------------------------
  // The invariant
  // ---------------------------------------------------------------------------

  ghost predicate HandshakeOrdered(base: Index32, h: Handshake, issued: nat) {
    && h.nextIndex == IndexAt(base, issued)
    && !h.state.InitReceived? && !h.previous.InitReceived?
    && (h.state.InitSent? ==> issued >= 1 && h.state.sent.localIndex == IndexAt(base, issued))
    && (h.previous.InitSent? ==> issued >= 2 && h.previous.sent.localIndex == IndexAt(base, issued - 1))
  }

  /** The handshake part of the order: what is in flight was issued last and has not become a session. */
  ghost predicate InFlightOrdered(base: Index32, h: Handshake, issued: nat, used: set<nat>) {
    && HandshakeOrdered(base, h, issued)
    && (forall g :: g in used ==> 1 <= g <= issued)
    && (h.state.InitSent? ==> issued !in used)
    && (h.previous.InitSent? ==> issued - 1 !in used)
  }

  /** The session in slot `i` was issued as its index says, and its issue is no longer waiting for a response. */
  ghost predicate SlotOrdered(base: Index32, tr: Tracked, i: nat)
    requires i < N_SESSIONS
  {
    tr.core.ring[i].Some? ==>
      && tr.core.ring[i].value.receivingIndex == IndexAt(base, tr.issueOf[i])
      && tr.core.ring[i].value.receivingIndex % N_SESSIONS == i
      && tr.issueOf[i] in tr.used
  }

  ghost predicate Ordered(base: Index32, tr: Tracked) {
    && InFlightOrdered(base, tr.core.handshake, tr.issued, tr.used)
    && (forall i :: 0 <= i < N_SESSIONS ==> SlotOrdered(base, tr, i))
  }

  lemma InitiallyOrdered(t: Tunn)
    requires Fresh(t)
    ensures Ordered(t.handshake.nextIndex, Tracked(CoreOf(t), 0, seq(N_SESSIONS, _ => 0), {}))
  {
    assert t.handshake.nextIndex == IndexAt(t.handshake.nextIndex, 0);
  }

  lemma DroppingKeepsOrder(base: Index32, tr: Tracked, c0: Core)
    requires Ordered(base, tr) && Dropped(tr.core, c0)
    ensures Ordered(base, tr.(core := c0))
  {
    forall i | 0 <= i < N_SESSIONS
      ensures SlotOrdered(base, tr.(core := c0), i)
    {
      assert SlotOrdered(base, tr, i);
    }
  }

  /** A response answers at most one of the two initiations in flight. */
  lemma ResponseMatchesOne(base: Index32, tr: Tracked)
    requires Ordered(base, tr) && tr.core.handshake.state.InitSent? && tr.core.handshake.previous.InitSent?
    ensures tr.core.handshake.state.sent.localIndex != tr.core.handshake.previous.sent.localIndex
  {
    NextIssue(base, tr.issued - 1);
    IndicesDiffer(IndexAt(base, tr.issued - 1));
  }

  /** Between `tr` and the ring `ring'`, a session was put into its slot with the index of issue `g`. */
  ghost predicate IsEstablished(base: Index32, tr: Tracked, ring': Ring, g: nat, slot: nat) {
    && 1 <= g && g !in tr.used
    && slot == (base + g) % N_SESSIONS < N_SESSIONS
    && ring'[slot].Some?
    && ring'[slot].value.receivingIndex == IndexAt(base, g)
    && ring' == tr.core.ring[slot := ring'[slot]]
  }

  lemma RespondEstablishes(base: Index32, tr: Tracked, c': Core)
    requires Ordered(base, tr) && Responded(tr.core, c')
    ensures IsEstablished(base, tr, c'.ring, tr.issued + 1, IncIndex(tr.core.handshake.nextIndex) % N_SESSIONS)
  {
    NewIssue(base, tr.core.handshake, tr.issued, tr.used);
  }

  lemma NewIssue(base: Index32, h: Handshake, issued: nat, used: set<nat>)
    requires InFlightOrdered(base, h, issued, used)
    ensures issued + 1 !in used && IncIndex(h.nextIndex) == IndexAt(base, issued + 1)
    ensures IncIndex(h.nextIndex) % N_SESSIONS == (base + issued + 1) % N_SESSIONS
  {
    NextIssue(base, issued);
    SlotOfIssue(base, issued + 1);
  }

  lemma CompleteEstablishes(base: Index32, tr: Tracked, c': Core, index: Index32)
    requires Ordered(base, tr) && Completed(tr.core, c', index)
    ensures tr.issued - 1 <= CompletedIssue(tr, index) <= tr.issued
    ensures IsEstablished(base, tr, c'.ring, CompletedIssue(tr, index), index % N_SESSIONS)
  {
    SlotOfIssue(base, tr.issued);
    if tr.issued >= 1 {
      SlotOfIssue(base, tr.issued - 1);
    }
  }

  lemma RespondedSession(base: Index32, tr: Tracked, m: Move)
    requires Ordered(base, tr) && Enabled(tr.core, m) && m.Respond?
    ensures IsEstablished(base, tr, Perform(tr.core, m).0.ring, tr.issued + 1, SlotTaken(tr, m))
  {
    RespondEffect(tr.core, m);
    RespondEstablishes(base, tr, Perform(tr.core, m).0);
  }

  lemma CompletedSession(base: Index32, tr: Tracked, m: Move)
    requires Ordered(base, tr) && Enabled(tr.core, m) && m.Complete?
    ensures tr.issued - 1 <= CompletedIssue(tr, m.msg.receiverIdx) <= tr.issued
    ensures IsEstablished(base, tr, Perform(tr.core, m).0.ring, CompletedIssue(tr, m.msg.receiverIdx), SlotTaken(tr, m))
  {
    CompleteEffect(tr.core, m);
    CompleteEstablishes(base, tr, Perform(tr.core, m).0, m.msg.receiverIdx);
  }

  lemma EstablishedSession(base: Index32, tr: Tracked, m: Move)
    requires Ordered(base, tr) && Enabled(tr.core, m) && Establishes(tr, m).Some?
    ensures tr.issued - 1 <= Establishes(tr, m).value <= Track(tr, m).issued
    ensures IsEstablished(base, tr, Perform(tr.core, m).0.ring, Establishes(tr, m).value, SlotTaken(tr, m))
  {
    if m.Respond? {
      RespondedSession(base, tr, m);
    } else {
      CompletedSession(base, tr, m);
    }
  }

  lemma EstablishedIssue(base: Index32, tr: Tracked, m: Move)
    requires Ordered(base, tr) && Enabled(tr.core, m) && Establishes(tr, m).Some?
    ensures tr.issued - 1 <= Establishes(tr, m).value && Establishes(tr, m).value !in tr.used
    ensures SlotTaken(tr, m) == (base + Establishes(tr, m).value) % N_SESSIONS
  {
    EstablishedSession(base, tr, m);
  }

  /** What a move that establishes nothing does to a slot: its counters may change, nothing else. */
  lemma OtherMovesKeepIndices(tr: Tracked, m: Move, i: nat)
    requires Enabled(tr.core, m) && Establishes(tr, m).None? && i < N_SESSIONS
    ensures
      var ring' := Perform(tr.core, m).0.ring;
      ring'[i].Some? ==> tr.core.ring[i].Some? && ring'[i].value.receivingIndex == tr.core.ring[i].value.receivingIndex
  {}

  lemma AnsweredInFlight(base: Index32, h: Handshake, h': Handshake, issued: nat, used: set<nat>)
    requires InFlightOrdered(base, h, issued, used)
    requires h'.nextIndex == IncIndex(h.nextIndex) && h'.previous == h.state && h'.state == NoHandshake
    ensures InFlightOrdered(base, h', issued + 1, used + {issued + 1})
  {
    NextIssue(base, issued);
  }

  lemma CompleteKeepsInFlight(base: Index32, tr: Tracked, c': Core, index: Index32)
    requires Ordered(base, tr) && Completed(tr.core, c', index)
    ensures InFlightOrdered(base, c'.handshake, tr.issued, tr.used + {CompletedIssue(tr, index)})
  {
    if tr.issued >= 1 {
      NextIssue(base, tr.issued - 1);
      IndicesDiffer(IndexAt(base, tr.issued - 1));
    }
  }

  lemma OtherKeepsInFlight(base: Index32, tr: Tracked, m: Move)
    requires Ordered(base, tr) && Enabled(tr.core, m) && !m.Respond? && !m.Complete?
    ensures InFlightOrdered(base, Perform(tr.core, m).0.handshake, if m.Initiate? then tr.issued + 1 else tr.issued,
                            tr.used)
  {
    OtherEffect(tr.core, m);
    NextIssue(base, tr.issued);
  }

  lemma HandshakeStaysOrdered(base: Index32, tr: Tracked, m: Move)
    requires Ordered(base, tr) && Enabled(tr.core, m)
    ensures InFlightOrdered(base, Track(tr, m).core.handshake, Track(tr, m).issued, Track(tr, m).used)
  {
    if m.Respond? {
      RespondEffect(tr.core, m);
      AnsweredInFlight(base, tr.core.handshake, Perform(tr.core, m).0.handshake, tr.issued, tr.used);
    } else if m.Complete? {
      CompleteEffect(tr.core, m);
      CompleteKeepsInFlight(base, tr, Perform(tr.core, m).0, m.msg.receiverIdx);
    } else {
      OtherKeepsInFlight(base, tr, m);
    }
  }

  /** Every move keeps the order. */
  lemma MoveKeepsOrder(base: Index32, tr: Tracked, m: Move)
    requires Ordered(base, tr) && Enabled(tr.core, m)
    ensures Ordered(base, Track(tr, m))
  {
    var tr' := Track(tr, m);
    HandshakeStaysOrdered(base, tr, m);
    if Establishes(tr, m).Some? {
      EstablishedSession(base, tr, m);
    }
    forall i | 0 <= i < N_SESSIONS
      ensures SlotOrdered(base, tr', i)
    {
      assert SlotOrdered(base, tr, i);
      if Establishes(tr, m).Some? {
        SlotOfIssue(base, Establishes(tr, m).value);
      } else {
        OtherMovesKeepIndices(tr, m, i);
      }
    }
  }

  /** A session that takes the slot of another was issued at least eight later. */
  lemma LaterIssue(base: Index32, tr: Tracked, g: nat, slot: nat)
    requires Ordered(base, tr) && tr.issued - 1 <= g && g !in tr.used
    requires slot == (base + g) % N_SESSIONS < N_SESSIONS && tr.core.ring[slot].Some?
    ensures tr.core.ring[slot].value.receivingIndex == IndexAt(base, tr.issueOf[slot])
    ensures g >= tr.issueOf[slot] + N_SESSIONS
  {
    assert SlotOrdered(base, tr, slot);
    SlotOfIssue(base, tr.issueOf[slot]);
    CongruentAndLater(base, g, tr.issueOf[slot], tr.issued);
  }

  lemma CongruentAndLater(base: Index32, g: nat, earlier: nat, issued: nat)
    requires g != earlier && earlier <= issued && issued - 1 <= g
    requires (base + g) % N_SESSIONS == (base + earlier) % N_SESSIONS
    ensures g >= earlier + N_SESSIONS
  {}

  // ---------------------------------------------------------------------------
  // Runs
  // ---------------------------------------------------------------------------

  /** The tunnel goes through `states`, one call with a documented buffer after another. */
  ghost predicate IsRun(states: seq<Tunn>, steps: seq<Step>) {
    IsTunnelRun(states, steps) && WithRoom(states, steps)
  }

  /** The tunnel before a call makes its move. */
  function Poised(t: Tunn, s: Step, tr: Tracked): Tracked {
    tr.(core := Before(t, s.call, s.env))
  }

  /** The issues of a call: `tr` before it, `tr'` after it. */
  ghost predicate FollowsStep(t: Tunn, s: Step, tr: Tracked, tr': Tracked) {
    && tr.core == CoreOf(t)
    && Dropped(tr.core, Poised(t, s, tr).core)
    && Enabled(Poised(t, s, tr).core, MoveOf(t, s.call, s.env))
    && tr' == Track(Poised(t, s, tr), MoveOf(t, s.call, s.env))
  }

  /** `issues` follows the issues of a run, call by call. */
  ghost predicate Follows(states: seq<Tunn>, steps: seq<Step>, issues: seq<Tracked>)
    requires IsRun(states, steps)
  {
    && |issues| == |states|
    && issues[0] == Tracked(CoreOf(states[0]), 0, seq(N_SESSIONS, _ => 0), {})
    && issues[|steps|].core == CoreOf(states[|steps|])
    && forall k :: 0 <= k < |steps| ==> FollowsAt(states, steps, issues, k)
  }

  ghost predicate FollowsAt(states: seq<Tunn>, steps: seq<Step>, issues: seq<Tracked>, k: nat)
    requires k < |steps| && |states| == |steps| + 1 == |issues|
  {
    FollowsStep(states[k], steps[k], issues[k], issues[k + 1])
  }

  lemma CanFollowStep(t: Tunn, s: Step, t': Tunn, tr: Tracked) returns (tr': Tracked)
    requires Roomy(t, s.call, s.dstLen) && t' == TunnelMoves.Apply(t, s.call, s.dstLen, s.env).0 && tr.core == CoreOf(t)
    ensures FollowsStep(t, s, tr, tr') && tr'.core == CoreOf(t')
  {
    CallIsMove(t, s.call, s.dstLen, s.env);
    tr' := Track(Poised(t, s, tr), MoveOf(t, s.call, s.env));
  }

  /** Every run can be followed. */
  lemma {:induction false} CanFollow(states: seq<Tunn>, steps: seq<Step>) returns (issues: seq<Tracked>)
    requires IsRun(states, steps)
    ensures Follows(states, steps, issues)
    decreases |steps|
  {
    if steps == [] {
      issues := [Tracked(CoreOf(states[0]), 0, seq(N_SESSIONS, _ => 0), {})];
    } else {
      var n := |steps| - 1;
      var states0, steps0 := states[..n + 1], steps[..n];
      forall k | 0 <= k < n
        ensures StepAt(states0, steps0, k) && RoomAt(states0, steps0, k)
      {
        assert StepAt(states, steps, k) && RoomAt(states, steps, k);
      }
      var issues0 := CanFollow(states0, steps0);
      assert StepAt(states, steps, n) && RoomAt(states, steps, n);
      var last := CanFollowStep(states[n], steps[n], states[n + 1], issues0[n]);
      issues := issues0 + [last];
      forall k | 0 <= k < |steps|
        ensures FollowsAt(states, steps, issues, k)
      {
        if k < n {
          assert FollowsAt(states0, steps0, issues0, k);
        }
      }
    }
  }

  lemma StepKeepsOrder(base: Index32, t: Tunn, s: Step, tr: Tracked, tr': Tracked)
    requires FollowsStep(t, s, tr, tr') && Ordered(base, tr)
    ensures Ordered(base, Poised(t, s, tr)) && Ordered(base, tr')
  {
    DroppingKeepsOrder(base, tr, Poised(t, s, tr).core);
    MoveKeepsOrder(base, Poised(t, s, tr), MoveOf(t, s.call, s.env));
  }

  /** In every state of every run, whatever arrives, the order holds. */
  lemma {:induction false} RunKeepsOrder(states: seq<Tunn>, steps: seq<Step>, issues: seq<Tracked>, k: nat)
    requires IsRun(states, steps) && Fresh(states[0]) && Follows(states, steps, issues) && k <= |steps|
    ensures Ordered(states[0].handshake.nextIndex, issues[k])
    decreases k
  {
    if k == 0 {
      InitiallyOrdered(states[0]);
    } else {
      RunKeepsOrder(states, steps, issues, k - 1);
      assert FollowsAt(states, steps, issues, k - 1);
      StepKeepsOrder(states[0].handshake.nextIndex, states[k - 1], steps[k - 1], issues[k - 1], issues[k]);
    }
  }

  /** The call turns issue `g` into a session. */
  ghost predicate TakesIssue(t: Tunn, s: Step, tr: Tracked, g: nat) {
    && Enabled(Poised(t, s, tr).core, MoveOf(t, s.call, s.env))
    && Establishes(Poised(t, s, tr), MoveOf(t, s.call, s.env)) == Some(g)
  }

  lemma StepUses(t: Tunn, s: Step, tr: Tracked, tr': Tracked)
    requires FollowsStep(t, s, tr, tr')
    ensures tr.used <= tr'.used
  {}

  lemma StepTakes(base: Index32, t: Tunn, s: Step, tr: Tracked, tr': Tracked, g: nat)
    requires FollowsStep(t, s, tr, tr') && Ordered(base, tr) && TakesIssue(t, s, tr, g)
    ensures g !in tr.used && g in tr'.used
  {
    DroppingKeepsOrder(base, tr, Poised(t, s, tr).core);
    EstablishedIssue(base, Poised(t, s, tr), MoveOf(t, s.call, s.env));
  }

  lemma {:induction false} UsedStaysUsed(states: seq<Tunn>, steps: seq<Step>, issues: seq<Tracked>, j: nat, k: nat)
    requires IsRun(states, steps) && Follows(states, steps, issues) && j <= k <= |steps|
    ensures issues[j].used <= issues[k].used
    decreases k
  {
    if j < k {
      UsedStaysUsed(states, steps, issues, j, k - 1);
      assert FollowsAt(states, steps, issues, k - 1);
      StepUses(states[k - 1], steps[k - 1], issues[k - 1], issues[k]);
    }
  }

  /** In a run, a call turns only an unused issue into a session, and uses it up. */
  lemma IssueUsedUp(states: seq<Tunn>, steps: seq<Step>, issues: seq<Tracked>, k: nat, g: nat)
    requires IsRun(states, steps) && Fresh(states[0]) && Follows(states, steps, issues) && k < |steps|
    requires TakesIssue(states[k], steps[k], issues[k], g)
    ensures g !in issues[k].used && g in issues[k + 1].used
  {
    RunKeepsOrder(states, steps, issues, k);
    assert FollowsAt(states, steps, issues, k);
    StepTakes(states[0].handshake.nextIndex, states[k], steps[k], issues[k], issues[k + 1], g);
  }

  lemma UsedIsNotTaken(states: seq<Tunn>, steps: seq<Step>, issues: seq<Tracked>, k: nat, g: nat)
    requires IsRun(states, steps) && Fresh(states[0]) && Follows(states, steps, issues) && k < |steps|
    requires g in issues[k].used
    ensures !TakesIssue(states[k], steps[k], issues[k], g)
  {
    if TakesIssue(states[k], steps[k], issues[k], g) {
      IssueUsedUp(states, steps, issues, k, g);
    }
  }

  /** Over a run, no two calls turn the same issue into a session. */
  lemma IssueEstablishedOnce(states: seq<Tunn>, steps: seq<Step>, issues: seq<Tracked>, j: nat, k: nat, g: nat)
    requires IsRun(states, steps) && Fresh(states[0]) && Follows(states, steps, issues) && j < k < |steps|
    requires TakesIssue(states[j], steps[j], issues[j], g)
    ensures !TakesIssue(states[k], steps[k], issues[k], g)
  {
    IssueUsedUp(states, steps, issues, j, g);
    UsedStaysUsed(states, steps, issues, j + 1, k);
    UsedIsNotTaken(states, steps, issues, k, g);
  }

  /** Slot `slot` goes from `before` to a session of issue `g`, over none or one issued at least eight earlier. */
  ghost predicate TakenOver(base: Index32, before: Option<Session>, earlier: nat, after: Option<Session>, g: nat) {
    && after.Some? && after.value.receivingIndex == IndexAt(base, g)
    && (before.Some? ==> before.value.receivingIndex == IndexAt(base, earlier) && g >= earlier + N_SESSIONS)
  }

  lemma StepOverwrites(base: Index32, t: Tunn, s: Step, tr: Tracked, tr': Tracked, g: nat)
    requires FollowsStep(t, s, tr, tr') && Ordered(base, tr) && TakesIssue(t, s, tr, g)
    ensures
      var slot := (base + g) % N_SESSIONS;
      TakenOver(base, tr.core.ring[slot], tr.issueOf[slot], tr'.core.ring[slot], g)
  {
    DroppingKeepsOrder(base, tr, Poised(t, s, tr).core);
    EstablishedSession(base, Poised(t, s, tr), MoveOf(t, s.call, s.env));
    var slot := (base + g) % N_SESSIONS;
    if tr.core.ring[slot].Some? {
      LaterIssue(base, tr, g, slot);
    }
  }

  lemma FollowsTunnel(states: seq<Tunn>, steps: seq<Step>, issues: seq<Tracked>, k: nat)
    requires IsRun(states, steps) && Follows(states, steps, issues) && k <= |steps|
    ensures issues[k].core == CoreOf(states[k])
  {
    if k < |steps| {
      assert FollowsAt(states, steps, issues, k);
    }
  }

  /** In every run, a session only takes the slot of one that was issued at least eight earlier. */
  lemma OverwrittenByLater(states: seq<Tunn>, steps: seq<Step>, issues: seq<Tracked>, k: nat, g: nat)
    requires IsRun(states, steps) && Fresh(states[0]) && Follows(states, steps, issues) && k < |steps|
    requires TakesIssue(states[k], steps[k], issues[k], g)
    ensures
      var base := states[0].handshake.nextIndex;
      var slot := (base + g) % N_SESSIONS;
      TakenOver(base, states[k].sessions[slot], issues[k].issueOf[slot], states[k + 1].sessions[slot], g)
  {
    RunKeepsOrder(states, steps, issues, k);
    assert FollowsAt(states, steps, issues, k);
    StepOverwrites(states[0].handshake.nextIndex, states[k], steps[k], issues[k], issues[k + 1], g);
    FollowsTunnel(states, steps, issues, k);
    FollowsTunnel(states, steps, issues, k + 1);
  }

  /** What the order says about a state, without counting issues. */
  ghost predicate InStep(h: Handshake, ring: Ring) {
    && (h.state.InitSent? ==> h.state.sent.localIndex == h.nextIndex)
    && (h.previous.InitSent? ==> IncIndex(h.previous.sent.localIndex) == h.nextIndex)
    && forall i :: 0 <= i < N_SESSIONS && ring[i].Some? ==> ring[i].value.receivingIndex % N_SESSIONS == i
  }

  /**
   In every reachable state an initiation in flight holds the last index issued, a previous one its
   predecessor, and slot i a session whose index is i modulo 8.
   */
  lemma AlwaysInStep(states: seq<Tunn>, steps: seq<Step>, k: nat)
    requires IsRun(states, steps) && Fresh(states[0]) && k < |states|
    ensures InStep(states[k].handshake, states[k].sessions)
  {
    var issues := CanFollow(states, steps);
    RunKeepsOrder(states, steps, issues, k);
    FollowsTunnel(states, steps, issues, k);
    OrderedIsInStep(states[0].handshake.nextIndex, issues[k]);
  }

  lemma OrderedIsInStep(base: Index32, tr: Tracked)
    requires Ordered(base, tr)
    ensures InStep(tr.core.handshake, tr.core.ring)
  {
    var h := tr.core.handshake;
    if h.previous.InitSent? {
      NextIssue(base, tr.issued - 1);
    }
    forall i | 0 <= i < N_SESSIONS && tr.core.ring[i].Some?
      ensures tr.core.ring[i].value.receivingIndex % N_SESSIONS == i
    {
      assert SlotOrdered(base, tr, i);
    }
  }
}
