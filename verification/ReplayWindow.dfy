/**
 The anti-replay window of a receiving session key.

 A session keeps a bitmap of the last 1024 packet counters and the value one past the highest
 counter it has seen. `Window` is the specification: the same `next`, and the unbounded set of
 counters received so far. The class `CounterValidator` is the code, with its 16 words of 64 bits
 and its three clearing loops, proved to behave as `Window` for every 64-bit counter.

 Additions on counters wrap at 2^64, as unchecked `u64` arithmetic does. The wrap is observable:
 the theorems say for exactly which counters it matters.
 */
module ReplayWindow {

  const WORD_SIZE := 64
  const N_WORDS := 16
  const N_BITS := 1024
  const U64 := 0x1_0000_0000_0000_0000

  type Counter = c: int | 0 <= c < U64 witness 0

  /** The counters for which `counter + N_BITS` does not wrap. */
  const SAFE_COUNTERS := U64 - N_BITS

  datatype Verdict = Accepted | InvalidCounter | DuplicateCounter

  function WrappingAdd(a: Counter, b: Counter): (r: Counter) {
    if a + b < U64 then a + b else a + b - U64
  }

  // ---------------------------------------------------------------------------
  // Specification
  // ---------------------------------------------------------------------------

  /** `received` holds every counter accepted since the window was created (or since `next` wrapped). */
  datatype Window = Window(next: Counter, received: set<Counter>) {

    ghost predicate Valid() {
      forall c :: c in received ==> c < next
    }

    /** The test made before decryption. */
    function WillAccept(counter: Counter): Verdict {
      if counter >= next then Accepted
      else if WrappingAdd(counter, N_BITS) < next then InvalidCounter
      else if counter !in received then Accepted
      else DuplicateCounter
    }

    /** The verdict of the test-and-mark made after decryption. */
    function MarkVerdict(counter: Counter): Verdict {
      if WrappingAdd(counter, N_BITS) < next then InvalidCounter
      else if counter < next && counter in received then InvalidCounter
      else Accepted
    }

    /** The window after the test-and-mark. */
    function Marked(counter: Counter): Window {
      if MarkVerdict(counter) != Accepted then this
      else if counter < next then Window(next, received + {counter})
      else if counter + 1 == U64 then Window(0, {})
      else Window(counter + 1, received + {counter})
    }
  }

  const EmptyWindow := Window(0, {})

  // ---------------------------------------------------------------------------
  // The window against the history of accepted counters
  // ---------------------------------------------------------------------------

  /** One past the largest counter in a history; 0 for the empty history. */
  function NextOf(history: seq<Counter>): nat {
    if history == [] then 0
    else
      var before, last := NextOf(history[..|history| - 1]), history[|history| - 1];
      if last + 1 > before then last + 1 else before
  }

  /** What a replay filter is for: the counter was not accepted before and is not too far back. */
  predicate Fresh(history: seq<Counter>, counter: Counter) {
    counter !in history && counter + N_BITS >= NextOf(history)
  }

  /** The window and the accepted counters after a run of marking attempts. */
  function Run(attempts: seq<Counter>): (Window, seq<Counter>) {
    if attempts == [] then (EmptyWindow, [])
    else
      var (w, history) := Run(attempts[..|attempts| - 1]);
      var c := attempts[|attempts| - 1];
      (w.Marked(c), if w.MarkVerdict(c) == Accepted then history + [c] else history)
  }

  ghost predicate AllSafe(attempts: seq<Counter>) {
    forall i :: 0 <= i < |attempts| ==> attempts[i] < SAFE_COUNTERS
  }

  /** The window stands for the history, and nothing was accepted twice. */
  ghost predicate Models(w: Window, history: seq<Counter>) {
    && w.next == NextOf(history) <= SAFE_COUNTERS
    && (forall c :: c in w.received <==> c in history)
    && (forall i, j :: 0 <= i < j < |history| ==> history[i] != history[j])
  }

  lemma {:induction false} NextOfIsUpperBound(history: seq<Counter>, c: Counter)
    requires c in history
    ensures c < NextOf(history)
  {
    var k := |history| - 1;
    if c != history[k] {
      assert c in history[..k];
      NextOfIsUpperBound(history[..k], c);
    }
  }

  /** Over every run of counters that do not wrap, the window is the history: nothing is accepted twice. */
  lemma {:induction false} WindowModelsHistory(attempts: seq<Counter>)
    requires AllSafe(attempts)
    ensures Models(Run(attempts).0, Run(attempts).1)
  {
    if attempts != [] {
      var before := attempts[..|attempts| - 1];
      WindowModelsHistory(before);
      var (w, history) := Run(before);
      var c := attempts[|attempts| - 1];
      if w.MarkVerdict(c) == Accepted {
        if c in history {
          NextOfIsUpperBound(history, c);
        }
        assert (history + [c])[..|history|] == history;
      }
    }
  }

  /**
   In every reachable state the code accepts a counter as the history demands exactly when the counter
   is safe, or the wrapped bound happens not to lie behind `next`.
   */
  lemma AcceptsAsHistory(attempts: seq<Counter>, counter: Counter)
    requires AllSafe(attempts)
    ensures
      var (w, history) := Run(attempts);
      (w.MarkVerdict(counter) == Accepted <==> Fresh(history, counter))
      <==> (counter < SAFE_COUNTERS || counter - SAFE_COUNTERS >= w.next)
  {
    WindowModelsHistory(attempts);
    var (w, history) := Run(attempts);
    if counter in history {
      NextOfIsUpperBound(history, counter);
    }
  }

  /** The test before decryption and the one after agree exactly when the bound does not wrap wrongly. */
  lemma QuickCheckAgrees(w: Window, counter: Counter)
    ensures (w.WillAccept(counter) == Accepted <==> w.MarkVerdict(counter) == Accepted)
       <==> (counter < w.next || counter < SAFE_COUNTERS || counter - SAFE_COUNTERS >= w.next)
  {}

  /** A counter accepted once is refused by both tests for as long as no counter wraps. */
  lemma {:induction false} NeverAcceptedAgain(attempts: seq<Counter>, i: nat, j: nat)
    requires AllSafe(attempts)
    requires i < j < |attempts| && attempts[i] == attempts[j]
    requires Run(attempts[..i]).0.MarkVerdict(attempts[i]) == Accepted
    ensures Run(attempts[..j]).0.MarkVerdict(attempts[j]) != Accepted
    ensures Run(attempts[..j]).0.WillAccept(attempts[j]) != Accepted
  {
    var c := attempts[i];
    StaysReceived(attempts, i, j);
    WindowModelsHistory(attempts[..j]);
    NextOfIsUpperBound(Run(attempts[..j]).1, c);
    AcceptsAsHistory(attempts[..j], c);
    QuickCheckAgrees(Run(attempts[..j]).0, c);
  }

  lemma {:induction false} StaysReceived(attempts: seq<Counter>, i: nat, j: nat)
    requires i < j <= |attempts|
    requires Run(attempts[..i]).0.MarkVerdict(attempts[i]) == Accepted
    ensures attempts[i] in Run(attempts[..j]).1
  {
    assert attempts[..j][..j - 1] == attempts[..j - 1];
    if i < j - 1 {
      StaysReceived(attempts, i, j - 1);
    }
  }

  /** With the last 64-bit counter the window forgets: counter 0 is accepted, then accepted again. */
  lemma WrapForgets()
    ensures
      var w := EmptyWindow.Marked(0).Marked(U64 - 1);
      && EmptyWindow.Marked(0).MarkVerdict(0) != Accepted
      && EmptyWindow.Marked(0).MarkVerdict(U64 - 1) == Accepted
      && w.MarkVerdict(0) == Accepted
  {}

  // ---------------------------------------------------------------------------
  // Positions of counters
  // ---------------------------------------------------------------------------

  /** A 64-bit word, given by the bits that are set in it. */
  type BitIndex = b: nat | b < WORD_SIZE
  type Word = set<BitIndex>
  type WordIndex = w: nat | w < N_WORDS

  /** A bit of the bitmap: a word and a bit of that word. */
  datatype Position = Position(word: WordIndex, bit: BitIndex)

  /** The position of a counter: counters share a position exactly when they agree modulo 1024. */
  function Pos(c: int): Position {
    var bitIdx := c % N_BITS;
    Position(bitIdx / WORD_SIZE, bitIdx % WORD_SIZE)
  }

  /** Counters less than a window apart do not share a position. */
  lemma AloneInWindow(i: int)
    ensures forall c: int {:trigger Pos(c)} :: -N_BITS < c - i < N_BITS && Pos(c) == Pos(i) ==> c == i
  {
    forall c: int {:trigger Pos(c)} | -N_BITS < c - i < N_BITS && Pos(c) == Pos(i)
      ensures c == i
    {
      PositionTells(c);
      PositionTells(i);
      Multiple(c, i, N_BITS);
    }
  }

  lemma PositionTells(c: int)
    ensures c % N_BITS == Pos(c).word * WORD_SIZE + Pos(c).bit
  {}

  /** Numbers that agree modulo `n` and are less than `n` apart are equal. */
  lemma Multiple(a: int, b: int, n: int)
    requires n > 0 && a % n == b % n && -n < a - b < n
    ensures a == b
  {
    var q := a / n - b / n;
    assert a - b == n * q;
  }

  lemma WordOfCounter(c: int)
    ensures Pos(c).word == c / WORD_SIZE % N_WORDS
  {
    var q, r := c / N_BITS, c % N_BITS;
    assert c / WORD_SIZE == N_WORDS * q + r / WORD_SIZE;
  }

  /** Within a window, the word of an aligned index holds that index and the 63 after it. */
  lemma AlignedWord(i: int, c: int)
    requires i % WORD_SIZE == 0
    requires i - N_BITS + WORD_SIZE <= c < i + N_BITS
    ensures Pos(c).word == Pos(i).word <==> i <= c < i + WORD_SIZE
  {
    WordOfCounter(i);
    WordOfCounter(c);
    var k, m := i / WORD_SIZE, c / WORD_SIZE;
    assert k - N_WORDS < m < k + N_WORDS;
    if k % N_WORDS == m % N_WORDS {
      Multiple(k, m, N_WORDS);
    }
  }

  // ---------------------------------------------------------------------------
  // The bitmap
  // ---------------------------------------------------------------------------

  class CounterValidator {
    var next: Counter
    var receiveCnt: nat
    const bitmap: array<Word>
    /** The positions whose bit is set. */
    ghost var cells: set<Position>
    /** The counters accepted so far. */
    ghost var received: set<Counter>

    ghost predicate Synced()
      reads this, bitmap
    {
      && bitmap.Length == N_WORDS
      && forall p: Position {:trigger p in cells} {:trigger bitmap[p.word]} :: p in cells <==> p.bit in bitmap[p.word]
    }

    ghost predicate Valid()
      reads this, bitmap
    {
      && Synced()
      && Contents().Valid()
      && forall c: int {:trigger c in received} {:trigger Pos(c)} ::
        0 <= c && next - N_BITS <= c < next ==> (Pos(c) in cells <==> c in received)
    }

    /** The abstract window that the words stand for. */
    ghost function Contents(): Window
      reads this
    {
      Window(next, received)
    }

    constructor ()
      ensures Valid() && fresh(bitmap)
      ensures Contents() == EmptyWindow && receiveCnt == 0
    {
      next, receiveCnt, received, cells := 0, 0, {}, {};
      bitmap := new Word[N_WORDS](_ => {});
    }

    method CheckBit(idx: int) returns (isSet: bool)
      requires Synced()
      ensures isSet <==> Pos(idx) in cells
    {
      var p := Pos(idx);
      isSet := p.bit in bitmap[p.word];
    }

    method SetBit(idx: int)
      requires Synced()
      modifies bitmap, this`cells
      ensures Synced() && cells == old(cells) + {Pos(idx)}
    {
      var p := Pos(idx);
      bitmap[p.word] := bitmap[p.word] + {p.bit};
      cells := cells + {p};
    }

    method ClearBit(idx: int)
      requires Synced()
      modifies bitmap, this`cells
      ensures Synced() && cells == old(cells) - {Pos(idx)}
    {
      var p := Pos(idx);
      bitmap[p.word] := bitmap[p.word] - {p.bit};
      cells := cells - {p};
    }

    /** Clears the word that contains `idx`. */
    method ClearWord(idx: int)
      requires Synced()
      modifies bitmap, this`cells
      ensures Synced() && cells == set p | p in old(cells) && p.word != Pos(idx).word
    {
      var word := Pos(idx).word;
      bitmap[word] := {};
      cells := set p | p in cells && p.word != word;
    }

    method ClearAll()
      requires Synced()
      modifies bitmap, this`cells
      ensures Synced() && cells == {}
    {
      for k := 0 to N_WORDS
        invariant forall j :: 0 <= j < k ==> bitmap[j] == {}
      {
        bitmap[k] := {};
      }
      cells := {};
    }

    method WillAccept(counter: Counter) returns (v: Verdict)
      requires Valid()
      ensures v == Contents().WillAccept(counter)
    {
      if counter >= next {
        return Accepted;
      }
      if WrappingAdd(counter, N_BITS) < next {
        return InvalidCounter;
      }
      var seen := CheckBit(counter);
      if !seen {
        return Accepted;
      } else {
        return DuplicateCounter;
      }
    }

    /**
     Clears the cells of the counters that were skipped, bit by bit, word by word, then bit by bit. Below
     the wrapping range the running index stays within 64 bits.
     */
    method ClearSkipped(counter: Counter)
      requires Synced()
      requires next < counter < next + N_BITS && counter < SAFE_COUNTERS
      modifies bitmap, this`cells
      ensures Synced()
      ensures forall c: int {:trigger Pos(c)} :: next <= c < counter ==> Pos(c) !in cells
      ensures forall c: int {:trigger Pos(c)} ::
          counter - N_BITS <= c < next ==> (Pos(c) in cells <==> Pos(c) in old(cells))
    {
      var i: Counter := next;
      while i % WORD_SIZE != 0 && i < counter
        invariant next <= i <= counter && Synced()
        invariant forall c: int {:trigger Pos(c)} :: next <= c < i ==> Pos(c) !in cells
        invariant forall c: int {:trigger Pos(c)} ::
          counter - N_BITS <= c < next ==> (Pos(c) in cells <==> Pos(c) in old(cells))
        decreases counter - i
      {
        AloneInWindow(i);
        ClearBit(i);
        i := i + 1;
      }
      while i + WORD_SIZE < counter
        invariant next <= i <= counter && Synced()
        invariant i % WORD_SIZE == 0 || i == counter
        invariant forall c: int {:trigger Pos(c)} :: next <= c < i ==> Pos(c) !in cells
        invariant forall c: int {:trigger Pos(c)} ::
          counter - N_BITS <= c < next ==> (Pos(c) in cells <==> Pos(c) in old(cells))
        decreases counter - i
      {
        forall c: int | counter - N_BITS <= c < i + WORD_SIZE
          ensures Pos(c).word == Pos(i).word <==> i <= c < i + WORD_SIZE
        {
          AlignedWord(i, c);
        }
        ClearWord(i);
        i := (i + WORD_SIZE) / WORD_SIZE * WORD_SIZE;
      }
      while i < counter
        invariant next <= i <= counter && Synced()
        invariant forall c: int {:trigger Pos(c)} :: next <= c < i ==> Pos(c) !in cells
        invariant forall c: int {:trigger Pos(c)} ::
          counter - N_BITS <= c < next ==> (Pos(c) in cells <==> Pos(c) in old(cells))
      {
        AloneInWindow(i);
        ClearBit(i);
        i := i + 1;
      }
    }

    method MarkDidReceive(counter: Counter) returns (v: Verdict)
      requires Valid()
      modifies this`next, this`received, this`cells, bitmap
      ensures Valid()
      ensures v == old(Contents()).MarkVerdict(counter)
      ensures Contents() == old(Contents()).Marked(counter)
    {
      if WrappingAdd(counter, N_BITS) < next {
        return InvalidCounter;
      }
      if counter == next {
        AloneInWindow(counter);
        SetBit(counter);
        Advance(counter);
        return Accepted;
      }
      if counter < next {
        var seen := CheckBit(counter);
        if seen {
          return InvalidCounter;
        }
        AloneInWindow(counter);
        SetBit(counter);
        received := received + {counter};
        return Accepted;
      }
      SkipTo(counter);
      return Accepted;
    }

    /** Packets were dropped or reordered: unmark the counters that were jumped over. */
    method SkipTo(counter: Counter)
      requires Valid() && next < counter && WrappingAdd(counter, N_BITS) >= next
      modifies this`next, this`received, this`cells, bitmap
      ensures Valid()
      ensures next == WrappingAdd(counter, 1)
      ensures received == if next == 0 then {} else old(received) + {counter}
    {
      if counter - next >= N_BITS {
        ClearAll();
      } else {
        ClearSkipped(counter);
      }
      AloneInWindow(counter);
      SetBit(counter);
      Advance(counter);
    }

    /** `next = counter + 1`, in 64 bits. */
    method Advance(counter: Counter)
      modifies this`next, this`received
      ensures next == WrappingAdd(counter, 1)
      ensures received == if next == 0 then {} else old(received) + {counter}
    {
      next := WrappingAdd(counter, 1);
      received := if next == 0 then {} else received + {counter};
    }

    /** The marking step a session makes: count the packet if its counter was still good. */
    method ReceivingCounterMark(counter: Counter) returns (v: Verdict)
      requires Valid()
      modifies this`next, this`received, this`cells, this`receiveCnt, bitmap
      ensures Valid()
      ensures v == old(Contents()).MarkVerdict(counter)
      ensures Contents() == old(Contents()).Marked(counter)
      ensures receiveCnt == old(receiveCnt) + if v == Accepted then 1 else 0
    {
      v := MarkDidReceive(counter);
      if v == Accepted {
        receiveCnt := receiveCnt + 1;
      }
    }
  }
}
