/**
 Symbolic keys, sealed boxes and the key schedule of one session.

 Every output of a key derivation function is a term of the datatype Key, so that two derived keys
 are equal exactly when they are derived in the same way from the same inputs. A sealed box is one
 opaque atom of a wire string and opens only under the key (and the nonce or the associated data)
 it was sealed with.
 */
module Keys {
  import opened Bytes

  /** A Diffie-Hellman secret and its public key are named by the same 32 bytes, and the shared
      value of two parties is the unordered pair of their names. */
  type DhShared = set<Bytes32>

  function Dh(secret: Bytes32, remote: Bytes32): DhShared {
    {secret, remote}
  }

  datatype Key =
    | Shared(secret: Bytes32)
    | Outside(id: nat)               // any key made outside the session
    | HdrInitiator(sk: Key)
    | HdrResponder(sk: Key)
    | RootOf(rk: Key, dh: DhShared)
    | ChainOf(rk: Key, dh: DhShared)
    | NextHdrOf(rk: Key, dh: DhShared)
    | CkNext(ck: Key)
    | MkOf(ck: Key)

  /** One element of a wire string: a plain byte, or a ciphertext together with its tag. */
  datatype Atom =
    | Octet(b: byte)
    | HeaderBox(key: Key, nonce: seq<byte>, header: seq<byte>)
    | BodyBox(key: Key, ad: seq<Atom>, body: seq<byte>)

  type Wire = seq<Atom>

  function Octets(s: seq<byte>): (w: Wire)
    ensures |w| == |s|
  {
    seq(|s|, i requires 0 <= i < |s| => Octet(s[i]))
  }

  lemma OctetsInjective(s: seq<byte>, t: seq<byte>)
    requires Octets(s) == Octets(t)
    ensures s == t
  {
    assert |s| == |Octets(s)| == |t|;
    forall i | 0 <= i < |s| ensures s[i] == t[i] {
      assert Octets(s)[i] == Octet(s[i]) && Octets(t)[i] == Octet(t[i]);
    }
  }

  // ---- Derivations ----

  /** kdf_rk_he: root key, chain key and next header key. */
  function KdfRk(rk: Key, dh: DhShared): (Key, Key, Key) {
    (RootOf(rk, dh), ChainOf(rk, dh), NextHdrOf(rk, dh))
  }

  /** kdf_ck: next chain key and message key. */
  function KdfCk(ck: Key): (Key, Key) {
    (CkNext(ck), MkOf(ck))
  }

  /** The chain key n steps further on. */
  function Iter(ck: Key, n: nat): Key {
    if n == 0 then ck else CkNext(Iter(ck, n - 1))
  }

  // ---- The key schedule of a session ----

  /** The session secret and the Diffie-Hellman secrets drawn in the session, in the order of the
      ratchet steps: draws(0) is the responder's first ratchet key, draws(1) the initiator's. The
      sequence is arbitrary: nothing below needs the draws to be distinct. */
  datatype Seed = Seed(sk: Bytes32, draws: nat -> Bytes32)

  function Root(seed: Seed, j: nat): Key {
    if j == 0 then Shared(seed.sk)
    else RootOf(Root(seed, j - 1), Dh(seed.draws(j - 1), seed.draws(j)))
  }

  /** Start of sending chain j; the initiator sends on even chains, the responder on odd ones. */
  function Chain(seed: Seed, j: nat): Key {
    ChainOf(Root(seed, j), Dh(seed.draws(j), seed.draws(j + 1)))
  }

  /** Header key of chain j. */
  function Hdr(seed: Seed, j: nat): Key {
    if j == 0 then HdrInitiator(Shared(seed.sk))
    else if j == 1 then HdrResponder(Shared(seed.sk))
    else NextHdrOf(Root(seed, j - 2), Dh(seed.draws(j - 2), seed.draws(j - 1)))
  }

  /** Key of message i of chain j. */
  function MsgKey(seed: Seed, j: nat, i: nat): Key {
    MkOf(Iter(Chain(seed, j), i))
  }

  // ---- Reading indices back out of keys ----

  function RootDepth(k: Key): nat {
    if k.RootOf? then 1 + RootDepth(k.rk) else 0
  }

  /** The chain whose header key is k. */
  function ChainIndex(k: Key): nat {
    match k
    case HdrResponder(_) => 1
    case NextHdrOf(rk, _) => RootDepth(rk) + 2
    case _ => 0
  }

  function Steps(k: Key): nat {
    if k.CkNext? then 1 + Steps(k.ck) else 0
  }

  function Base(k: Key): Key {
    if k.CkNext? then Base(k.ck) else k
  }

  lemma {:induction false} RootDepthOf(seed: Seed, j: nat)
    ensures RootDepth(Root(seed, j)) == j
  {
    if j > 0 {
      RootDepthOf(seed, j - 1);
    }
  }

  /** Header keys of different chains differ. */
  lemma HdrIndex(seed: Seed, j: nat)
    ensures ChainIndex(Hdr(seed, j)) == j
  {
    if j >= 2 {
      RootDepthOf(seed, j - 2);
    }
  }

  lemma {:induction false} IterBase(ck: Key, n: nat)
    requires !ck.CkNext?
    ensures Steps(Iter(ck, n)) == n && Base(Iter(ck, n)) == ck
  {
    if n > 0 {
      IterBase(ck, n - 1);
    }
  }

  /** No two messages of a session share a message key. */
  lemma MsgKeyInjective(seed: Seed, j: nat, i: nat, j': nat, i': nat)
    requires MsgKey(seed, j, i) == MsgKey(seed, j', i')
    ensures j == j' && i == i'
  {
    IterBase(Chain(seed, j), i);
    IterBase(Chain(seed, j'), i');
    RootDepthOf(seed, j);
    RootDepthOf(seed, j');
  }

  // ---- What the schedule depends on ----

  /** The two sessions have one secret, and their neighbouring draws agree as pairs, in either order, up to pair n. */
  ghost predicate SameInputs(seed: Seed, seed': Seed, n: nat) {
    && seed.sk == seed'.sk
    && forall k: nat | k < n :: {seed.draws(k), seed.draws(k + 1)} == {seed'.draws(k), seed'.draws(k + 1)}
  }

  /** A root key is shared by exactly the sessions with one secret and one history of Diffie-Hellman values. */
  lemma {:induction false} RootBinds(seed: Seed, seed': Seed, j: nat)
    ensures Root(seed, j) == Root(seed', j) <==> SameInputs(seed, seed', j)
  {
    if j > 0 {
      RootBinds(seed, seed', j - 1);
      assert {seed.draws(j - 1), seed.draws(j - 1 + 1)} == Dh(seed.draws(j - 1), seed.draws(j));
      assert {seed'.draws(j - 1), seed'.draws(j - 1 + 1)} == Dh(seed'.draws(j - 1), seed'.draws(j));
    }
  }

  lemma ChainBinds(seed: Seed, seed': Seed, j: nat)
    ensures Chain(seed, j) == Chain(seed', j) <==> SameInputs(seed, seed', j + 1)
  {
    RootBinds(seed, seed', j);
    assert {seed.draws(j), seed.draws(j + 1)} == Dh(seed.draws(j), seed.draws(j + 1));
    assert {seed'.draws(j), seed'.draws(j + 1)} == Dh(seed'.draws(j), seed'.draws(j + 1));
  }

  /** Message keys of any two sessions agree exactly at one position of sessions with one secret and the same
      Diffie-Hellman values up to the one the chain starts from: every draw enters the schedule. */
  lemma MsgKeyBinds(seed: Seed, j: nat, i: nat, seed': Seed, j': nat, i': nat)
    ensures MsgKey(seed, j, i) == MsgKey(seed', j', i') <==> j == j' && i == i' && SameInputs(seed, seed', j + 1)
  {
    IterBase(Chain(seed, j), i);
    IterBase(Chain(seed', j'), i');
    RootDepthOf(seed, j);
    RootDepthOf(seed', j');
    if j == j' {
      ChainBinds(seed, seed', j);
    }
  }

  /** And header keys likewise; the first two depend on the secret only. */
  lemma HdrBinds(seed: Seed, j: nat, seed': Seed, j': nat)
    ensures Hdr(seed, j) == Hdr(seed', j') <==> j == j' && SameInputs(seed, seed', if j < 2 then 0 else j - 1)
  {
    HdrIndex(seed, j);
    HdrIndex(seed', j');
    if j == j' && j >= 2 {
      ChainBinds(seed, seed', j - 2);
    }
  }

  lemma {:induction false} IterAdd(ck: Key, m: nat, n: nat)
    ensures Iter(Iter(ck, m), n) == Iter(ck, m + n)
  {
    if n > 0 {
      IterAdd(ck, m, n - 1);
    }
  }
}
