/**
 The ring of sessions that a tunnel holds: eight slots, each empty or with a session object of its own, so
 that sealing and opening move the counters of one session in place and of no other.
 */
module SessionRings {
  import opened Wrappers
  import opened Crypto
  import opened Messages
  import opened Sessions
  import opened Tunnels
  import ReplayWindow

  /** The objects of a session. */
  ghost function Footprint(s: SessionObject): set<object> {
    {s, s.receivingKeyCounter, s.receivingKeyCounter.bitmap}
  }

  class SessionRing {
    const slots: array<SessionObject?>
    ghost var contents: Ring
    ghost var Repr: set<object>

    /** The slot is empty, or its session is in order, is this ring's alone, and has the value on record. */
    ghost predicate SlotValid(i: int)
      requires slots.Length == N_SESSIONS && 0 <= i < N_SESSIONS && slots in Repr && this in Repr
      reads this, Repr
    {
      if slots[i] == null then contents[i] == None
      else
        && Footprint(slots[i]) <= Repr && this !in Footprint(slots[i]) && slots !in Footprint(slots[i])
        && slots[i].Valid() && contents[i] == Some(slots[i].View())
    }

    ghost predicate Valid()
      reads this, Repr
    {
      && this in Repr && slots in Repr && slots.Length == N_SESSIONS
      && (forall i :: 0 <= i < N_SESSIONS ==> SlotValid(i))
      && (forall i, j :: 0 <= i < j < N_SESSIONS && slots[i] != null && slots[j] != null ==>
            Footprint(slots[i]) !! Footprint(slots[j]))
    }

    constructor ()
      ensures Valid() && fresh(Repr) && contents == seq(N_SESSIONS, _ => None)
    {
      slots := new SessionObject?[N_SESSIONS](_ => null);
      contents := seq(N_SESSIONS, _ => None);
      new;
      Repr := {this, slots};
    }

    predicate IsEmpty(slot: nat)
      requires slot < N_SESSIONS && Valid()
      reads this, Repr
      ensures IsEmpty(slot) == contents[slot].None?
    {
      assert SlotValid(slot);
      slots[slot] == null
    }

    /** Puts a session into the slot of its index; what was there is dropped. */
    method Store(s: SessionObject)
      requires Valid() && s.Valid() && Footprint(s) !! Repr
      modifies this, slots
      ensures Valid() && Repr == old(Repr) + Footprint(s)
      ensures contents == old(contents)[s.receivingIndex % N_SESSIONS := Some(s.View())]
    {
      var slot := s.receivingIndex % N_SESSIONS;
      slots[slot] := s;
      Repr := Repr + Footprint(s);
      contents := contents[slot := Some(s.View())];
      forall i | 0 <= i < N_SESSIONS
        ensures SlotValid(i) && (i != slot && slots[i] != null ==> Footprint(slots[i]) !! Footprint(s))
      {
        assert old(SlotValid(i));
      }
    }

    method Drop(slot: nat)
      requires Valid() && slot < N_SESSIONS
      modifies this`contents, slots
      ensures Valid() && Repr == old(Repr)
      ensures contents == old(contents)[slot := None]
    {
      slots[slot] := null;
      contents := contents[slot := None];
      forall i | 0 <= i < N_SESSIONS
        ensures SlotValid(i)
      {
        assert old(SlotValid(i));
      }
    }

    /** Seals on the session in the slot; None where the program aborts for want of room. */
    method Seal(slot: nat, src: seq<Byte>, dstLen: nat) returns (r: Option<Datagram>)
      requires Valid() && slot < N_SESSIONS && !IsEmpty(slot)
      modifies Repr
      ensures Valid() && Repr == old(Repr)
      ensures
        var s := old(contents)[slot].value;
        if dstLen < |src| + DATA_OVERHEAD_SZ then r == None && contents == old(contents)
        else r == Some(s.FormatPacketData(src).1) && contents == old(contents)[slot := Some(s.FormatPacketData(src).0)]
    {
      assert SlotValid(slot);
      r := slots[slot].FormatPacketData(src, dstLen);
      contents := contents[slot := Some(slots[slot].View())];
      forall i | 0 <= i < N_SESSIONS
        ensures SlotValid(i)
      {
        assert old(SlotValid(i));
      }
    }

    /** Opens a packet on the session in the slot. */
    method Open(slot: nat, receiverIdx: Index32, counter: ReplayWindow.Counter, cipher: Term)
      returns (r: Result<seq<Byte>, WireGuardError>)
      requires Valid() && slot < N_SESSIONS && !IsEmpty(slot)
      modifies Repr
      ensures Valid() && Repr == old(Repr)
      ensures
        match old(contents)[slot].value.ReceivePacketData(receiverIdx, counter, cipher)
        case Ok((s, packet)) => r == Ok(packet) && contents == old(contents)[slot := Some(s)]
        case Err(e) => r == Err(e) && contents == old(contents)
    {
      assert SlotValid(slot);
      r := slots[slot].ReceivePacketData(receiverIdx, counter, cipher);
      contents := contents[slot := Some(slots[slot].View())];
      forall i | 0 <= i < N_SESSIONS
        ensures SlotValid(i)
      {
        assert old(SlotValid(i));
      }
    }
  }
}
