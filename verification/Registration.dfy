/**
 Registration of peers over HTTP: each new key gets the address of a free octet and a peer of the
 device; a reaper takes both away again when the peer is stale.

 Both run with the registration lock held and reach the device through its control socket. A request to
 the device either is carried out and answered, or fails without effect.
 */
module Registrations {
  import opened Wrappers
  import opened Crypto
  import opened Messages
  import opened Handshakes
  import opened Devices
  import opened HandshakeAges
  import opened Reapers
  import Uapi

  const FIRST_OCTET := 2
  const LAST_OCTET := 254

  type Octet = Byte
  type Prefix = s: seq<Byte> | |s| == 3 witness [0, 0, 0]

  predicate Assignable(o: Octet) {
    FIRST_OCTET <= o <= LAST_OCTET
  }

  /** The addresses that can be handed out. */
  function Pool(): set<Octet> {
    set o: Octet | Assignable(o)
  }

  /** The host network of an octet. */
  function Host(prefix: Prefix, octet: Octet): Net {
    Net(V4(prefix + [octet]), 32)
  }

  // ---------------------------------------------------------------------------
  // The pool and the assignment
  // ---------------------------------------------------------------------------

  /** The octet is the one of this key. */
  predicate Holds(taken: map<Term, Octet>, key: Term, o: Octet) {
    key in taken && taken[key] == o
  }

  /** The pool is split between the free octets and the taken ones, and no octet is taken twice. */
  ghost predicate Partition(available: set<Octet>, taken: map<Term, Octet>) {
    && (forall o: Octet {:trigger Assignable(o)} :: Assignable(o) <==> o in available || exists k :: Holds(taken, k, o))
    && (forall k, o: Octet {:trigger Holds(taken, k, o)} :: Holds(taken, k, o) ==> o !in available)
    && (forall k, l, o: Octet {:trigger Holds(taken, k, o), Holds(taken, l, o)} ::
          Holds(taken, k, o) && Holds(taken, l, o) ==> k == l)
  }

  lemma AssigningKeepsPartition(available: set<Octet>, taken: map<Term, Octet>, key: Term, octet: Octet)
    requires Partition(available, taken) && key !in taken && octet in available
    ensures Partition(available - {octet}, taken[key := octet])
  {
    var taken' := taken[key := octet];
    assert Holds(taken', key, octet) && Assignable(octet);
    forall k, o: Octet
      ensures Holds(taken', k, o) <==> if k == key then o == octet else Holds(taken, k, o)
    {}
  }

  lemma ReleasingKeepsPartition(available: set<Octet>, taken: map<Term, Octet>, key: Term)
    requires Partition(available, taken) && key in taken
    ensures Partition(available + {taken[key]}, taken - {key})
  {
    var taken' := taken - {key};
    assert Holds(taken, key, taken[key]) && Assignable(taken[key]);
    forall k, o: Octet
      ensures Holds(taken', k, o) <==> k != key && Holds(taken, k, o)
    {}
  }

  /** The device has a peer for each registered key, with the address of its octet and no other. */
  ghost predicate Linked(prefix: Prefix, taken: map<Term, Octet>, peers: ByKey) {
    && taken.Keys == peers.Keys
    && forall k, o: Octet {:trigger Holds(taken, k, o)} ::
         Holds(taken, k, o) ==> k in peers && peers[k].allowedIps == [Host(prefix, o)]
  }

  lemma AssigningKeepsLinks(prefix: Prefix, taken: map<Term, Octet>, peers: ByKey, key: Term, octet: Octet, peer: Peer)
    requires Linked(prefix, taken, peers) && peer.allowedIps == [Host(prefix, octet)]
    ensures Linked(prefix, taken[key := octet], peers[key := peer])
  {
    var taken' := taken[key := octet];
    forall k, o: Octet
      ensures Holds(taken', k, o) <==> if k == key then o == octet else Holds(taken, k, o)
    {}
  }

  lemma ReleasingKeepsLinks(prefix: Prefix, taken: map<Term, Octet>, peers: ByKey, key: Term)
    requires Linked(prefix, taken, peers)
    ensures Linked(prefix, taken - {key}, peers - {key})
  {
    forall k, o: Octet
      ensures Holds(taken - {key}, k, o) <==> k != key && Holds(taken, k, o)
    {}
  }

  /** All entries of the first map are entries of the second. */
  ghost predicate Within<K, V>(m: map<K, V>, m': map<K, V>) {
    forall k :: k in m ==> k in m' && m[k] == m'[k]
  }

  /** The assignment after the first `n` of some keys were released, but for those that are stuck. */
  function Released(taken: map<Term, Octet>, keys: seq<Term>, stuck: set<Term>, n: nat): map<Term, Octet>
    requires n <= |keys|
  {
    if n == 0 then taken
    else if keys[n - 1] in stuck then Released(taken, keys, stuck, n - 1)
    else Released(taken, keys, stuck, n - 1) - {keys[n - 1]}
  }

  lemma {:induction false} ReleasedKeys(taken: map<Term, Octet>, keys: seq<Term>, stuck: set<Term>, n: nat, k: Term)
    requires n <= |keys|
    ensures k in Released(taken, keys, stuck, n) <==> k in taken && (k in stuck || k !in keys[..n])
    ensures k in Released(taken, keys, stuck, n) ==> Released(taken, keys, stuck, n)[k] == taken[k]
  {
    if n > 0 {
      ReleasedKeys(taken, keys, stuck, n - 1, k);
      assert keys[..n] == keys[..n - 1] + [keys[n - 1]];
    }
  }

  // ---------------------------------------------------------------------------
  // The registry
  // ---------------------------------------------------------------------------

  /** `code` is the HTTP status; a crash of the device takes the reply with it. */
  datatype Reply = Reply(code: nat, octet: Option<Octet>) | Crashed(reason: Update)

  /** Whether the requests to the device get through. */
  datatype Requests = Requests(getWorks: bool, setWorks: bool)

  /** What the registration lock protects. */
  class RegistrationInner {
    var registered: set<Term>
    var available: set<Octet>
    var peerToOctet: map<Term, Octet>
    var registeredAt: map<Term, nat>
    var serverKnown: bool

    ghost predicate Valid()
      reads this
    {
      Partition(available, peerToOctet) && registered == peerToOctet.Keys == registeredAt.Keys
    }

    constructor ()
      ensures Valid() && registered == {} && peerToOctet == map[] && available == Pool() && !serverKnown
    {
      registered, peerToOctet, registeredAt, serverKnown := {}, map[], map[], false;
      available := Pool();
    }

    method Assign(key: Term, octet: Octet, now: nat)
      requires Valid() && key !in registered && octet in available
      modifies this`registered, this`available, this`peerToOctet, this`registeredAt
      ensures Valid() && peerToOctet == old(peerToOctet)[key := octet] && available == old(available) - {octet}
      ensures registeredAt == old(registeredAt)[key := now]
    {
      AssigningKeepsPartition(available, peerToOctet, key, octet);
      available := available - {octet};
      registered := registered + {key};
      peerToOctet := peerToOctet[key := octet];
      registeredAt := registeredAt[key := now];
    }

    method Release(key: Term)
      requires Valid() && key in peerToOctet
      modifies this`registered, this`available, this`peerToOctet, this`registeredAt
      ensures Valid() && peerToOctet == old(peerToOctet) - {key}
      ensures available == old(available) + {old(peerToOctet)[key]}
      ensures registeredAt == old(registeredAt) - {key}
    {
      ReleasingKeepsPartition(available, peerToOctet, key);
      available := available + {peerToOctet[key]};
      registered := registered - {key};
      peerToOctet := peerToOctet - {key};
      registeredAt := registeredAt - {key};
    }
  }

  class Registry {
    const inner: RegistrationInner
    const device: Device
    const prefix: Prefix
    /** The bytes of a public key. */
    const keyBytes: Term -> seq<Byte>

    /** The registered keys are the peers of the device, each with the address of its octet. */
    ghost predicate Valid()
      reads inner, device, device.lfsr, device.peers.Values
    {
      && inner.Valid()
      && device.Valid()
      && Linked(prefix, inner.peerToOctet, device.peers)
      && (inner.serverKnown ==> device.keyPair.Some?)
      && Distinct(keyBytes)
    }

    constructor (device: Device, prefix: Prefix, keyBytes: Term -> seq<Byte>)
      requires device.Valid() && device.peers == map[] && Distinct(keyBytes)
      ensures Valid() && this.device == device && fresh(inner) && inner.registered == {} && inner.available == Pool()
    {
      this.device, this.prefix, this.keyBytes := device, prefix, keyBytes;
      inner := new RegistrationInner();
    }

    /**
     Registers a key, given in a body that decodes to 32 bytes or not. A registered key keeps its octet; a
     new one gets a free octet and a peer with that one address. The device never sees a key twice and is
     never asked before it has its own key.
     */
    method HandleRegistration(body: Option<Term>, requests: Requests, setup: Setup, now: nat) returns (r: Reply)
      requires Valid()
      modifies inner, device, device.lfsr
      ensures r.Reply? ==> Valid()
      ensures r.Crashed? ==> r.reason == TooManyPeers
      ensures r.Reply? ==> (r.code == 200 <==> r.octet.Some?)
      ensures r.Reply? && r.code == 200 ==>
        && body.Some? && body.value in inner.peerToOctet && r.octet == Some(inner.peerToOctet[body.value])
        && if body.value in old(inner.peerToOctet)
           then inner.peerToOctet == old(inner.peerToOctet) && inner.registeredAt == old(inner.registeredAt)
           else
             && r.octet.value in old(inner.available)
             && inner.peerToOctet == old(inner.peerToOctet)[body.value := r.octet.value]
             && inner.registeredAt == old(inner.registeredAt)[body.value := now]
      ensures r.Reply? && r.code != 200 ==>
        && inner.peerToOctet == old(inner.peerToOctet) && inner.registeredAt == old(inner.registeredAt)
        && device.peers == old(device.peers)
      ensures r.Reply? && r.code == 503 ==> device.keyPair.None? || inner.available == {}
    {
      if body.None? {
        return Reply(400, None);
      }
      var key := body.value;
      if !inner.serverKnown {
        if !requests.getWorks {
          return Reply(500, None);
        }
        if device.keyPair.None? {
          return Reply(503, None);
        }
        inner.serverKnown := true;
      }
      if key in inner.registered {
        if key in inner.peerToOctet {
          return Reply(200, Some(inner.peerToOctet[key]));
        }
      }
      if inner.available == {} {
        return Reply(503, None);
      }
      var octet :| octet in inner.available;
      if !requests.setWorks {
        return Reply(500, None);
      }
      var update := SetPeer(key, octet, setup);
      if update != Updated {
        return Crashed(update);
      }
      inner.Assign(key, octet, now);
      return Reply(200, Some(octet));
    }

    /** The request to the device. */
    method SetPeer(key: Term, octet: Octet, setup: Setup) returns (update: Update)
      requires Valid() && inner.serverKnown && key !in inner.registered
      modifies device, device.lfsr
      ensures update == Updated || update == TooManyPeers
      ensures update == Updated ==>
        && device.Valid() && Linked(prefix, inner.peerToOctet[key := octet], device.peers)
        && device.keyPair == old(device.keyPair)
    {
      ghost var before := device.peers;
      update := device.UpdatePeer(key, false, [Host(prefix, octet)], setup);
      if update == Updated {
        AssigningKeepsLinks(prefix, inner.peerToOctet, before, key, octet, device.peers[key]);
      }
    }

    /** The peers of the device as they are when each is printed. */
    ghost function Sightings(clock: Term -> nat): map<Term, Sighting>
      reads device, device.peers.Values
    {
      map k | k in device.peers :: Sighting(device.peers[k].tunn, clock(k))
    }

    /**
     What the device prints of a peer: its key, the age of its last handshake at the time it is printed, and
     other lines, `rest`, that the reader skips.
     */
    method PrintPeer(key: Term, at: nat, rest: Uapi.PeerInfo) returns (info: Uapi.PeerInfo)
      requires key in device.peers && Uapi.PeerOk(rest) && at / SECOND < U64
      ensures Uapi.PeerOk(info) && Shows(keyBytes, key, Sighting(device.peers[key].tunn, at), info)
    {
      info := rest.(key := keyBytes(key), lastHandshake := None);
      var age := HandshakeAge(device.peers[key].tunn, at);
      if age.Some? {
        info := info.(lastHandshake := Some((age.value / SECOND, age.value % SECOND)));
      }
    }

    method ListPeers(clock: Term -> nat, rest: Term -> Uapi.PeerInfo)
      returns (infos: seq<Uapi.PeerInfo>, ghost order: seq<Term>)
      requires forall k {:trigger clock(k)} {:trigger rest(k)} :: clock(k) / SECOND < U64 && Uapi.PeerOk(rest(k))
      ensures Listed(keyBytes, Sightings(clock), order, infos) && Uapi.AllPeersOk(infos)
    {
      infos, order := [], [];
      var keys := device.peers.Keys;
      while keys != {}
        invariant keys <= device.peers.Keys && |order| == |infos| && Uapi.AllPeersOk(infos)
        invariant forall k :: k in order <==> k in device.peers && k !in keys
        invariant forall i, j :: 0 <= i < j < |order| ==> order[i] != order[j]
        invariant forall i :: 0 <= i < |order| ==>
          order[i] in Sightings(clock) && Shows(keyBytes, order[i], Sightings(clock)[order[i]], infos[i])
        decreases |keys|
      {
        var key :| key in keys;
        keys := keys - {key};
        var info := PrintPeer(key, clock(key), rest(key));
        infos, order := infos + [info], order + [key];
      }
    }

    /**
     The reaper asks the device, before it takes the lock. Each key is then reported as the device saw it, and
     keys that it had not are missing.
     */
    method UapiGetPeers(clock: Term -> nat, rest: Term -> Uapi.PeerInfo, listenPort: nat, fwmark: Option<nat>)
      returns (table: Uapi.Handshakes)
      requires Valid() && listenPort < 0x1_0000
      requires forall k {:trigger clock(k)} {:trigger rest(k)} :: clock(k) / SECOND < U64 && Uapi.PeerOk(rest(k))
      ensures forall k :: Get(table, KeyName(keyBytes, k)) == Report(Get(Sightings(clock), k))
    {
      var infos, order := ListPeers(clock, rest);
      var ownKey := if device.keyPair.Some? then Some(keyBytes(Public(device.keyPair.value))) else None;
      var info := Uapi.DeviceInfo(ownKey, listenPort, fwmark, infos);
      var text := Uapi.ApiGet(info);
      var snapshot := Uapi.UapiGetPeers(text);
      table := snapshot.peers;
      Uapi.PrintedIsParsed(info);
      forall k
        ensures Get(table, KeyName(keyBytes, k)) == Report(Get(Sightings(clock), k))
      {
        TableReports(keyBytes, Sightings(clock), order, infos, k);
      }
    }

    predicate IsStale(table: Uapi.Handshakes, registeredAt: map<Term, nat>, now: nat, key: Term) {
      Stale(Get(table, KeyName(keyBytes, key)), Get(registeredAt, key), now)
    }

    /** The stale keys, found one by one. */
    method FindStale(table: Uapi.Handshakes, now: nat) returns (stale: seq<Term>)
      requires Valid()
      ensures forall k :: k in stale <==> k in inner.peerToOctet && IsStale(table, inner.registeredAt, now, k)
      ensures forall i, j :: 0 <= i < j < |stale| ==> stale[i] != stale[j]
    {
      stale := [];
      var keys := inner.peerToOctet.Keys;
      while keys != {}
        invariant keys <= inner.peerToOctet.Keys
        invariant forall k :: k in stale <==>
          k in inner.peerToOctet && k !in keys && IsStale(table, inner.registeredAt, now, k)
        invariant forall i, j :: 0 <= i < j < |stale| ==> stale[i] != stale[j]
        decreases |keys|
      {
        var key :| key in keys;
        keys := keys - {key};
        if IsStale(table, inner.registeredAt, now, key) {
          stale := stale + [key];
        }
      }
    }

    /**
     One round of the reaper. `table` is what the device reported when it was asked, of the peers it had then,
     `seen`; others may have come since. `stuck` are the keys whose removal the device refuses.
     */
    method Reap(table: Uapi.Handshakes, ghost seen: map<Term, Sighting>, now: nat, stuck: set<Term>)
      requires Valid() && forall k :: Get(table, KeyName(keyBytes, k)) == Report(Get(seen, k))
      modifies inner, device
      ensures Valid()
      ensures forall k :: k in inner.peerToOctet <==>
        && k in old(inner.peerToOctet)
        && (k in stuck || !Stale(Report(Get(seen, k)), Get(old(inner.registeredAt), k), now))
      ensures forall k :: k in inner.peerToOctet ==> inner.peerToOctet[k] == old(inner.peerToOctet)[k]
      ensures Within(inner.registeredAt, old(inner.registeredAt))
    {
      var stale := FindStale(table, now);
      RemoveAll(stale, stuck);
      forall k
        ensures k in inner.peerToOctet <==> k in old(inner.peerToOctet) && (k in stuck || k !in stale)
        ensures k in inner.peerToOctet ==> inner.peerToOctet[k] == old(inner.peerToOctet)[k]
      {
        ReleasedKeys(old(inner.peerToOctet), stale, stuck, |stale|, k);
        assert stale[..|stale|] == stale;
      }
    }

    method RemoveAll(stale: seq<Term>, stuck: set<Term>)
      requires Valid() && forall i :: 0 <= i < |stale| ==> stale[i] in inner.peerToOctet
      requires forall i, j :: 0 <= i < j < |stale| ==> stale[i] != stale[j]
      modifies inner, device
      ensures Valid() && inner.peerToOctet == Released(old(inner.peerToOctet), stale, stuck, |stale|)
      ensures Within(inner.registeredAt, old(inner.registeredAt))
    {
      for i := 0 to |stale|
        invariant Valid() && inner.peerToOctet == Released(old(inner.peerToOctet), stale, stuck, i)
        invariant Within(inner.registeredAt, old(inner.registeredAt))
      {
        ReleasedKeys(old(inner.peerToOctet), stale, stuck, i, stale[i]);
        if stale[i] !in stuck {
          RemoveOne(stale[i]);
        }
      }
    }

    method RemoveOne(key: Term)
      requires Valid() && key in inner.peerToOctet
      modifies inner, device
      ensures Valid() && inner.peerToOctet == old(inner.peerToOctet) - {key}
      ensures inner.registeredAt == old(inner.registeredAt) - {key}
      ensures inner.available == old(inner.available) + {old(inner.peerToOctet)[key]}
    {
      ReleasingKeepsLinks(prefix, inner.peerToOctet, device.peers, key);
      device.RemovePeer(key);
      inner.Release(key);
    }
  }
}
