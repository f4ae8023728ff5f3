/**
 Symbolic cryptography: hashes, MACs and authenticated encryption are free constructors, a
 Diffie-Hellman secret depends only on the unordered pair of scalars. Opening undoes sealing and
 nothing else does. These are the only facts about cryptography used anywhere in the model.
 */
module Crypto {
  import opened Wrappers

  datatype Term =
    /** The all-zero block, also the default preshared key and the absent mac2. */
    | Zero
    | Empty
    | Number(n: nat)
    | Label(name: string)
    /** A random value that was never derived from anything. */
    | Secret(id: nat)
    | Public(scalar: nat)
    | Shared(low: nat, high: nat)
    | SharedWith(scalar: nat, other: Term)
    | Cat(first: Term, second: Term)
    | Hash(left: Term, right: Term)
    | Hmac(hkey: Term, data: Term)
    | Mac(mkey: Term, mdata: Term)
    | Seal(key: Term, nonce: Term, plain: Term, aad: Term)
    | Stamp(secs: nat, nano: nat)
    | Payload(bytes: seq<Byte>)

  const ONE := Number(1)
  const TWO := Number(2)
  const THREE := Number(3)

  const CONSTRUCTION := Label("Noise_IKpsk2_25519_ChaChaPoly_BLAKE2s")
  const IDENTIFIER := Label("WireGuard v1 zx2c4 Jason@zx2c4.com")
  const LABEL_MAC1 := Label("mac1----")
  const LABEL_COOKIE := Label("cookie--")

  /** `DH(private, public)`; any bytes may arrive as a public key. */
  function DiffieHellman(scalar: nat, public: Term): Term {
    match public
    case Public(other) => if scalar <= other then Shared(scalar, other) else Shared(other, scalar)
    case _ => SharedWith(scalar, public)
  }

  function Hmac2(key: Term, data1: Term, data2: Term): Term {
    Hmac(key, Cat(data1, data2))
  }

  function Mac2(key: Term, data1: Term, data2: Term): Term {
    Mac(key, Cat(data1, data2))
  }

  function Open(key: Term, nonce: Term, cipher: Term, aad: Term): Option<Term> {
    if cipher.Seal? && cipher.key == key && cipher.nonce == nonce && cipher.aad == aad
    then Some(cipher.plain)
    else None
  }

  /** Both ends of an exchange compute the same secret. */
  lemma DiffieHellmanCommutes(a: nat, b: nat)
    ensures DiffieHellman(a, Public(b)) == DiffieHellman(b, Public(a))
  {}

  /** A secret shared with one scalar determines the other scalar. */
  lemma DiffieHellmanInjective(a: nat, b: nat, c: nat)
    requires DiffieHellman(a, Public(b)) == DiffieHellman(a, Public(c))
    ensures b == c
  {}
}
