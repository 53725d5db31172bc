/** The session object: fields updated in place, each method tied to the session value it models. */
module RatchetStates {
  import opened Wrappers
  import opened Bytes
  import opened Keys
  import opened Framing
  import opened SkippedKeys
  import opened RatchetSpec

  class RatchetState {
    var dhPair: Bytes32
    var dhRemote: Option<Bytes32>
    var rk: Key
    var ckS: Option<Key>
    var ckR: Option<Key>
    var hkS: Option<Key>
    var hkR: Option<Key>
    var nhkS: Key
    var nhkR: Key
    var ns: u32
    var nr: u32
    var pn: u32
    var mkskipped: SkippedMap
    var headerNonceCounter: u64
    const isSender: bool
    var received: set<MsgId>

    /** The fields as one value. */
    function Snapshot(): Session
      reads this
    {
      Session(dhPair, dhRemote, rk, ckS, ckR, hkS, hkR, nhkS, nhkR, ns, nr, pn,
              mkskipped, headerNonceCounter, isSender, received)
    }

    /** init_sender_state */
    constructor InitSenderState(sk: Bytes32, receiverDhPublicKey: Bytes32)
      ensures exists secret :: Snapshot() == InitSender(sk, receiverDhPublicKey, secret)
    {
      var dhS: Bytes32 := *;  // StaticSecret::random_from_rng
      var (rk0, ckS0, nhkS0) := KdfRk(Shared(sk), Dh(dhS, receiverDhPublicKey));
      dhPair, dhRemote, rk := dhS, Some(receiverDhPublicKey), rk0;
      ckS, ckR := Some(ckS0), None;
      hkS, hkR := Some(HdrInitiator(Shared(sk))), None;
      nhkS, nhkR := nhkS0, HdrResponder(Shared(sk));
      ns, nr, pn := 0, 0, 0;
      mkskipped, headerNonceCounter, isSender, received := map[], 0, true, {};
      new;
      assert Snapshot() == InitSender(sk, receiverDhPublicKey, dhS);
    }

    /** init_receiver_state */
    constructor InitReceiverState(sk: Bytes32, receiverKeyPair: Bytes32)
      ensures Snapshot() == InitReceiver(sk, receiverKeyPair)
    {
      dhPair, dhRemote, rk := receiverKeyPair, None, Shared(sk);
      ckS, ckR, hkS, hkR := None, None, None, None;
      nhkS, nhkR := HdrResponder(Shared(sk)), HdrInitiator(Shared(sk));
      ns, nr, pn := 0, 0, 0;
      mkskipped, headerNonceCounter, isSender, received := map[], 0, false, {};
    }

    /** encrypt */
    method EncryptMessage(plaintext: seq<byte>, ad: seq<byte>) returns (r: Result<Sealed, RatchetError>)
      modifies this
      ensures (Snapshot(), r) == Encrypt(old(Snapshot()), plaintext, ad)
    {
      if ckS.None? || hkS.None? || dhRemote.None? {
        return Err(InvalidState);
      }
      if |ad| > MAX_AD_SIZE {
        return Err(ADTooLarge);
      }
      var (nextCk, mk) := KdfCk(ckS.value);
      ckS := Some(nextCk);
      var header := RatchetHeader(dhPair, pn, ns);
      if ns == U32_MAX {
        return Err(CounterOverflow);
      }
      ns := ns + 1;
      var sealed := EncryptHeader(header);
      if sealed.Err? {
        return Err(sealed.error);
      }
      var (newCounter, encHeader) := sealed.value;
      headerNonceCounter := newCounter;
      r := Ok(Sealed(encHeader, SealBody(mk, ConcatAd(ad, encHeader), plaintext)));
    }

    /** encrypt_header */
    method EncryptHeader(header: RatchetHeader) returns (r: Result<(u64, Wire), RatchetError>)
      ensures hkS.None? ==> r == Err(InvalidKey)
      ensures hkS.Some? && headerNonceCounter == U64_MAX ==> r == Err(CounterOverflow)
      ensures hkS.Some? && headerNonceCounter < U64_MAX ==>
                r == Ok((headerNonceCounter + 1,
                         SealHeader(hkS.value, NonceBytes(isSender, headerNonceCounter), header)))
    {
      if hkS.None? {
        return Err(InvalidKey);
      }
      var nonceValue := headerNonceCounter;
      if nonceValue == U64_MAX {
        return Err(CounterOverflow);
      }
      r := Ok((nonceValue + 1, SealHeader(hkS.value, NonceBytes(isSender, nonceValue), header)));
    }

    /** decrypt */
    method DecryptMessage(encHeader: Wire, ciphertext: Wire, ad: seq<byte>)
      returns (r: Result<seq<byte>, RatchetError>, ghost env: Env, ghost lost: set<SkipId>)
      modifies this
      ensures Decrypts(old(Snapshot()), encHeader, ciphertext, ad, env, Snapshot(), r, lost)
    {
      hide StoredMatch, DecryptHeader, ComputeMessageKey, OpenBody, ConcatAd, Commits;
      ghost var s := Snapshot();
      env, lost := Env(seq(32, _ => 0), [], []), {};
      if |ad| > MAX_AD_SIZE {
        return Err(ADTooLarge), env, lost;
      }
      var full := ConcatAd(ad, encHeader);
      var taken := mkskipped;
      mkskipped := map[];
      var rest, stored := TrySkippedMessageKeys(taken, encHeader, ciphertext, full);
      mkskipped := rest;
      assert Snapshot() == s.(mkskipped := rest);
      if stored.Some? {
        return Ok(stored.value), env, lost;
      }
      var found := DecryptHeader(Snapshot(), encHeader);
      if found.Err? {
        return Err(found.error), env, lost;
      }
      var (header, dhRatchet) := found.value;
      var msgId := MsgId(header.dhPub, header.n);
      if msgId in received {
        return Err(DuplicateMessage), env, lost;
      }
      var mk, _ := ComputeMessageKeyOf(header, dhRatchet);
      if mk.Err? {
        return Err(mk.error), env, lost;
      }
      var body := OpenBody(mk.value, ciphertext, full);
      if body.Err? {
        return Err(body.error), env, lost;
      }
      assert Open(s, encHeader, ciphertext, ad) == Live(header, dhRatchet, body.value);
      LiveHasChain(s, encHeader, ciphertext, ad);
      var error;
      error, env, lost := CommitStateChanges(header, dhRatchet);
      ghost var committed := Snapshot();
      if error.Some? {
        r := Err(error.value);
      } else if |received| >= MAX_RECEIVED_TRACKING {
        r := Err(TooManyMessages);
      } else {
        received := received + {msgId};
        assert Snapshot() == committed.(received := committed.received + {msgId});
        r := Ok(body.value);
      }
      assert Accepts(s, header, dhRatchet, body.value, env, committed, error, Snapshot(), r, lost);
    }

    /** compute_message_key; steps counts the chain steps taken. */
    method ComputeMessageKeyOf(header: RatchetHeader, dhRatchet: bool)
      returns (r: Result<Key, RatchetError>, ghost steps: nat)
      ensures r == ComputeMessageKey(Snapshot(), header, dhRatchet)
      ensures steps <= 1000
    {
      steps := 0;
      var ck, n: int := ckR, nr;
      if dhRatchet {
        var (_, newCkR, _) := KdfRk(rk, Dh(dhPair, header.dhPub));
        ck, n := Some(newCkR), 0;
      }
      if (n + MAX_SKIP) % 0x1_0000_0000 < header.n {
        return Err(OldMessageKeysLimitReached), 0;
      }
      if ck.None? {
        return Err(InvalidKey), 0;
      }
      var current := ck.value;
      ghost var start := n;
      while n < header.n
        invariant start <= n
        invariant start <= header.n ==> n <= header.n
        invariant start > header.n ==> n == start
        invariant current == Iter(ck.value, n - start)
        invariant steps == n - start
      {
        var (next, _) := KdfCk(current);
        current := next;
        n, steps := n + 1, steps + 1;
      }
      var (_, mk) := KdfCk(current);
      r := Ok(mk);
    }

    /** commit_state_changes */
    method CommitStateChanges(header: RatchetHeader, dhRatchet: bool)
      returns (error: Option<RatchetError>, ghost env: Env, ghost lost: set<SkipId>)
      requires dhRatchet || ckR.Some?
      modifies this
      ensures Commits(old(Snapshot()), header, dhRatchet, env, Snapshot(), error, lost)
    {
      ghost var s := Snapshot();
      ghost var lost1, pnTimes, secret, nTimes, mid := {}, [], dhPair, [], mkskipped;
      if dhRatchet {
        error, pnTimes, lost1 := StoreOldChain(header);
        mid := mkskipped;
        if error.Some? {
          env, lost := Env(secret, pnTimes, []), lost1;
          assert RatchetsThrough(s, header, env, mid, lost1, {}, Snapshot(), error);
          assert lost == lost1 + {};
          return;
        }
        assert Snapshot() == s.(mkskipped := mid);
        RatchetReceivingChain(header);
        secret := RatchetSendingChain(header);
      }
      error, nTimes, lost := AdvanceChain(header);
      env := Env(secret, pnTimes, nTimes);
      if dhRatchet {
        assert RatchetsThrough(s, header, env, mid, lost1, lost, Snapshot(), error);
        lost := lost1 + lost;
      }
    }

    /** The first part of commit_state_changes: store the skipped keys of the previous chain. */
    method StoreOldChain(header: RatchetHeader)
      returns (error: Option<RatchetError>, ghost times: seq<int>, ghost lost: set<SkipId>)
      modifies this`mkskipped
      ensures error == OldChainError(old(Snapshot()), header)
      ensures StoresOldChain(old(Snapshot()), header, times, mkskipped, lost)
    {
      hide Skips, Iter;
      times, lost, error := [], {}, None;
      if ckR.Some? && hkR.Some? {
        ghost var before := mkskipped;
        var taken := mkskipped;
        mkskipped := map[];
        var skipped;
        skipped, times, lost := SkipMessageKeys(taken, ckR.value, hkR.value, nr, header.pn);
        if skipped.Err? {
          lost := before.Keys;
          error := Some(skipped.error);
          return;
        }
        mkskipped := skipped.value;
      }
    }

    /** The second part of commit_state_changes: derive the receiving chain. */
    method RatchetReceivingChain(header: RatchetHeader)
      modifies this
      ensures Snapshot() == RatchetReceiving(old(Snapshot()), header)
    {
      var derived := KdfRk(rk, Dh(dhPair, header.dhPub));
      StartChain(header.dhPub);
      rk, ckR, nhkR := derived.0, Some(derived.1), derived.2;
    }

    /** A new chain: the counters restart, the next header keys become the current ones. */
    method StartChain(remote: Bytes32)
      modifies this`pn, this`ns, this`nr, this`hkS, this`hkR, this`dhRemote
      ensures var s := old(Snapshot());
              Snapshot() == s.(pn := s.ns, ns := 0, nr := 0, hkS := Some(s.nhkS), hkR := Some(s.nhkR),
                               dhRemote := Some(remote))
    {
      pn, ns, nr := ns, 0, 0;
      hkS, hkR, dhRemote := Some(nhkS), Some(nhkR), Some(remote);
    }

    /** The third part of commit_state_changes: draw a new key pair and derive the sending chain. */
    method RatchetSendingChain(header: RatchetHeader) returns (secret: Bytes32)
      modifies this
      ensures Snapshot() == RatchetSending(old(Snapshot()), header, secret)
    {
      secret := *;  // StaticSecret::random_from_rng
      var derived := KdfRk(rk, Dh(secret, header.dhPub));
      ghost var s := Snapshot();
      rk, ckS, nhkS := derived.0, Some(derived.1), derived.2;
      assert Snapshot() == s.(rk := derived.0, ckS := Some(derived.1), nhkS := derived.2);
      dhPair, received := secret, {};
    }

    /** The last part of commit_state_changes: store the skipped keys of the current chain, then
        advance the chain key and nr by one. */
    method AdvanceChain(header: RatchetHeader)
      returns (error: Option<RatchetError>, ghost times: seq<int>, ghost lost: set<SkipId>)
      requires ckR.Some?
      modifies this
      ensures Advances(old(Snapshot()), header, times, Snapshot(), error, lost)
    {
      hide Skips, Iter;
      times, lost, error := [], {}, None;
      if hkR.Some? {
        ghost var before := mkskipped;
        var taken := mkskipped;
        mkskipped := map[];
        var skipped;
        skipped, times, lost := SkipMessageKeys(taken, ckR.value, hkR.value, nr, header.n);
        if skipped.Err? {
          lost := before.Keys;
          error := Some(skipped.error);
          return;
        }
        mkskipped := skipped.value;
      }
      var (newCkR, _) := KdfCk(ckR.value);
      ckR := Some(newCkR);
      if nr == U32_MAX {
        error := Some(CounterOverflow);
        return;
      }
      nr := nr + 1;
    }
  }
}
