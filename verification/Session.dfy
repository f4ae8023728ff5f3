/**
 An established session: a pair of keys, a pair of indices, a send counter and a replay window.

 `Session` is the value of a session; the ring of a tunnel replaces it when its counters move. The class
 `SessionObject` is the session with its send counter and its replay bitmap updated in place.
 */
module Sessions {
  import opened Wrappers
  import opened Crypto
  import opened Messages
  import ReplayWindow

  datatype Session = Session(
    receivingIndex: Index32,
    sendingIndex: Index32,
    receiver: Term,
    sender: Term,
    sendCounter: ReplayWindow.Counter,
    window: ReplayWindow.Window
  ) {

    /** The datagram that carries `src`, and the session with its send counter moved on (in 64 bits). */
    function FormatPacketData(src: seq<Byte>): (Session, Datagram) {
      (this.(sendCounter := ReplayWindow.WrappingAdd(sendCounter, 1)),
       Data(sendingIndex, sendCounter, Seal(sender, Number(sendCounter), Payload(src), Empty)))
    }

    /**
     Checks the index and the counter, opens the packet, then marks the counter. Anything that is not a
     sealed byte string fails to authenticate.
     */
    function ReceivePacketData(receiverIdx: Index32, counter: ReplayWindow.Counter, cipher: Term)
      : Result<(Session, seq<Byte>), WireGuardError>
    {
      if receiverIdx != receivingIndex then Err(WrongIndex)
      else match window.WillAccept(counter)
        case InvalidCounter => Err(InvalidCounter)
        case DuplicateCounter => Err(DuplicateCounter)
        case Accepted =>
          match Open(receiver, Number(counter), cipher, Empty)
          case Some(Payload(packet)) =>
            if window.MarkVerdict(counter) != ReplayWindow.Accepted then Err(InvalidCounter)
            else Ok((this.(window := window.Marked(counter)), packet))
          case _ => Err(InvalidAeadTag)
    }
  }

  function NewSession(localIndex: Index32, peerIndex: Index32, receivingKey: Term, sendingKey: Term): Session {
    Session(localIndex, peerIndex, receivingKey, sendingKey, 0, ReplayWindow.EmptyWindow)
  }

  /** Two sessions with each other's keys. */
  predicate KeysMirrored(s: Session, t: Session) {
    s.receiver == t.sender && s.sender == t.receiver
  }

  /** Two sessions that read what the other writes. */
  predicate Mirrored(s: Session, t: Session) {
    && KeysMirrored(s, t)
    && s.receivingIndex == t.sendingIndex
    && s.sendingIndex == t.receivingIndex
  }

  /**
   A packet formatted by one of two mirrored sessions is delivered unchanged by the other, once: exactly
   when its counter is still acceptable, and then a second delivery is refused.
   */
  lemma DeliveredOnce(s: Session, t: Session, src: seq<Byte>)
    requires Mirrored(s, t) && t.window.Valid() && s.sendCounter < ReplayWindow.SAFE_COUNTERS
    ensures
      var d := s.FormatPacketData(src).1;
      var r := t.ReceivePacketData(d.receiverIdx, d.counter, d.cipher);
      && (r.Ok? <==> s.sendCounter !in t.window.received && s.sendCounter + ReplayWindow.N_BITS >= t.window.next)
      && (r.Ok? ==> r.value.1 == src && r.value.0.ReceivePacketData(d.receiverIdx, d.counter, d.cipher).Err?)
  {}

  /** A tag verifies only under the sender's key and counter: an altered counter or index delivers nothing. */
  lemma TamperedNeverDelivered(s: Session, t: Session, src: seq<Byte>, receiverIdx: Index32,
                               counter: ReplayWindow.Counter)
    ensures
      var d := s.FormatPacketData(src).1;
      t.ReceivePacketData(receiverIdx, counter, d.cipher).Ok? ==>
        t.receiver == s.sender && counter == s.sendCounter && receiverIdx == t.receivingIndex
  {}

  // ---------------------------------------------------------------------------
  // The object
  // ---------------------------------------------------------------------------

  class SessionObject {
    const receivingIndex: Index32
    const sendingIndex: Index32
    const receiver: Term
    const sender: Term
    const receivingKeyCounter: ReplayWindow.CounterValidator
    var sendingKeyCounter: ReplayWindow.Counter

    ghost predicate Valid()
      reads this, receivingKeyCounter, receivingKeyCounter.bitmap
    {
      receivingKeyCounter.Valid()
    }

    ghost function View(): Session
      reads this, receivingKeyCounter
    {
      Session(receivingIndex, sendingIndex, receiver, sender, sendingKeyCounter, receivingKeyCounter.Contents())
    }

    constructor (localIndex: Index32, peerIndex: Index32, receivingKey: Term, sendingKey: Term)
      ensures Valid() && fresh(receivingKeyCounter) && fresh(receivingKeyCounter.bitmap)
      ensures View() == NewSession(localIndex, peerIndex, receivingKey, sendingKey)
    {
      receivingIndex, sendingIndex, receiver, sender := localIndex, peerIndex, receivingKey, sendingKey;
      sendingKeyCounter := 0;
      receivingKeyCounter := new ReplayWindow.CounterValidator();
    }

    /** None where the program aborts: the destination is too short for the packet. */
    method FormatPacketData(src: seq<Byte>, dstLen: nat) returns (r: Option<Datagram>)
      requires Valid()
      modifies this`sendingKeyCounter
      ensures Valid()
      ensures dstLen < |src| + DATA_OVERHEAD_SZ ==> r == None && View() == old(View())
      ensures dstLen >= |src| + DATA_OVERHEAD_SZ ==>
        var (s, d) := old(View()).FormatPacketData(src); r == Some(d) && View() == s
    {
      if dstLen < |src| + DATA_OVERHEAD_SZ {
        return None;
      }
      var counter := sendingKeyCounter;
      sendingKeyCounter := ReplayWindow.WrappingAdd(sendingKeyCounter, 1);
      return Some(Data(sendingIndex, counter, Seal(sender, Number(counter), Payload(src), Empty)));
    }

    /** The counter is checked before the packet is opened, and again when it is marked. */
    method ReceivePacketData(receiverIdx: Index32, counter: ReplayWindow.Counter, cipher: Term)
      returns (r: Result<seq<Byte>, WireGuardError>)
      requires Valid()
      modifies receivingKeyCounter, receivingKeyCounter.bitmap
      ensures Valid()
      ensures
        match old(View()).ReceivePacketData(receiverIdx, counter, cipher)
        case Ok((s, packet)) => r == Ok(packet) && View() == s
        case Err(e) => r == Err(e) && View() == old(View())
    {
      if receiverIdx != receivingIndex {
        return Err(WrongIndex);
      }
      var quick := receivingKeyCounter.WillAccept(counter);
      if quick == ReplayWindow.InvalidCounter {
        return Err(InvalidCounter);
      }
      if quick == ReplayWindow.DuplicateCounter {
        return Err(DuplicateCounter);
      }
      var plain := Open(receiver, Number(counter), cipher, Empty);
      if plain.None? || !plain.value.Payload? {
        return Err(InvalidAeadTag);
      }
      var marked := receivingKeyCounter.ReceivingCounterMark(counter);
      if marked != ReplayWindow.Accepted {
        return Err(InvalidCounter);
      }
      return Ok(plain.value.bytes);
    }
  }
}
