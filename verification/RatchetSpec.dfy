/**
 The Double Ratchet session as a value, and what each operation does to it.

 Encrypting is a function. Decrypting is a relation, because the eviction of skipped keys may break
 ties between timestamps in any way; the clock readings and the fresh Diffie-Hellman secret a call
 draws are listed in its Env.
 */
module RatchetSpec {
  import opened Wrappers
  import opened Bytes
  import opened Keys
  import opened Framing
  import opened SkippedKeys

  const MAX_AD_SIZE: nat := 64 * 1024
  const MAX_RECEIVED_TRACKING: nat := 10000

  /** Identity of a received message: the sender's ratchet key and the index in its chain. */
  datatype MsgId = MsgId(dhPub: Bytes32, n: int)

  datatype Session = Session(
    dhPair: Bytes32,
    dhRemote: Option<Bytes32>,
    rk: Key,
    ckS: Option<Key>,
    ckR: Option<Key>,
    hkS: Option<Key>,
    hkR: Option<Key>,
    nhkS: Key,
    nhkR: Key,
    ns: u32,
    nr: u32,
    pn: u32,
    mkskipped: SkippedMap,
    headerNonceCounter: u64,
    isSender: bool,
    received: set<MsgId>)

  /** init_sender_state, with the secret it draws. */
  function InitSender(sk: Bytes32, receiverDhPub: Bytes32, secret: Bytes32): Session {
    var (rk, ckS, nhkS) := KdfRk(Shared(sk), Dh(secret, receiverDhPub));
    Session(secret, Some(receiverDhPub), rk, Some(ckS), None, Some(HdrInitiator(Shared(sk))), None,
            nhkS, HdrResponder(Shared(sk)), 0, 0, 0, map[], 0, true, {})
  }

  /** init_receiver_state */
  function InitReceiver(sk: Bytes32, dhPair: Bytes32): Session {
    Session(dhPair, None, Shared(sk), None, None, None, None,
            HdrResponder(Shared(sk)), HdrInitiator(Shared(sk)), 0, 0, 0, map[], 0, false, {})
  }

  // ---- Encrypting ----

  datatype Sealed = Sealed(encHeader: Wire, ciphertext: Wire)

  function HeaderOfNext(s: Session): RatchetHeader {
    RatchetHeader(s.dhPair, s.pn, s.ns)
  }

  /** encrypt */
  function Encrypt(s: Session, plaintext: seq<byte>, ad: seq<byte>): (Session, Result<Sealed, RatchetError>) {
    if s.ckS.None? || s.hkS.None? || s.dhRemote.None? then (s, Err(InvalidState))
    else if |ad| > MAX_AD_SIZE then (s, Err(ADTooLarge))
    else
      var (ckS, mk) := KdfCk(s.ckS.value);
      var s1 := s.(ckS := Some(ckS));
      if s.ns == U32_MAX then (s1, Err(CounterOverflow))
      else
        var s2 := s1.(ns := s.ns + 1);
        if s.headerNonceCounter == U64_MAX then (s2, Err(CounterOverflow))
        else
          var enc := SealHeader(s.hkS.value, NonceBytes(s.isSender, s.headerNonceCounter), HeaderOfNext(s));
          var ct := SealBody(mk, ConcatAd(ad, enc), plaintext);
          (s2.(headerNonceCounter := s.headerNonceCounter + 1), Ok(Sealed(enc, ct)))
  }

  // ---- Decrypting: the part that only reads ----

  /** decrypt_header: the header and whether a DH ratchet step is due. */
  function DecryptHeader(s: Session, enc: Wire): Result<(RatchetHeader, bool), RatchetError> {
    if s.hkR.Some? && OpenHeader(s.hkR.value, enc).Ok? then Ok((OpenHeader(s.hkR.value, enc).value, false))
    else if OpenHeader(s.nhkR, enc).Ok? then Ok((OpenHeader(s.nhkR, enc).value, true))
    else Err(HeaderDecryptionFailed)
  }

  /** Position in the receiving chain before the message: a ratchet step starts a new chain. */
  function Position(s: Session, dhRatchet: bool): u32 {
    if dhRatchet then 0 else s.nr
  }

  /** Chain key at that position. */
  function ReceivingChain(s: Session, h: RatchetHeader, dhRatchet: bool): Option<Key> {
    if dhRatchet then Some(KdfRk(s.rk, Dh(s.dhPair, h.dhPub)).1) else s.ckR
  }

  /** compute_message_key; the sum is u32 arithmetic, which wraps in release builds. */
  function ComputeMessageKey(s: Session, h: RatchetHeader, dhRatchet: bool): Result<Key, RatchetError> {
    var nr: int := Position(s, dhRatchet);
    if (nr + MAX_SKIP) % 0x1_0000_0000 < h.n then Err(OldMessageKeysLimitReached)
    else
      match ReceivingChain(s, h, dhRatchet) {
        case None => Err(InvalidKey)
        case Some(ck) => Ok(MkOf(Iter(ck, if nr < h.n then h.n - nr else 0)))
      }
  }

  /** What a message turns out to be before anything is written. */
  datatype Opening =
    | Refused(error: RatchetError)
    | Stored(id: SkipId, plaintext: seq<byte>)
    | Live(header: RatchetHeader, dhRatchet: bool, plaintext: seq<byte>)

  /** decrypt up to and including the authentication step. */
  function Open(s: Session, enc: Wire, ct: Wire, ad: seq<byte>): Opening {
    if |ad| > MAX_AD_SIZE then Refused(ADTooLarge)
    else
      var full := ConcatAd(ad, enc);
      match StoredMatch(s.mkskipped, enc, ct, full) {
        case Some((id, plaintext)) => Stored(id, plaintext)
        case None =>
          match DecryptHeader(s, enc) {
            case Err(e) => Refused(e)
            case Ok((h, dhRatchet)) =>
              if MsgId(h.dhPub, h.n) in s.received then Refused(DuplicateMessage)
              else
                match ComputeMessageKey(s, h, dhRatchet) {
                  case Err(e) => Refused(e)
                  case Ok(mk) =>
                    match OpenBody(mk, ct, full) {
                      case Err(e) => Refused(e)
                      case Ok(plaintext) => Live(h, dhRatchet, plaintext)
                    }
                }
          }
      }
  }

  // ---- Decrypting: the part that writes ----

  /** What one call draws from outside: the fresh ratchet secret and the clock readings of the two
      skips a commit may make. */
  datatype Env = Env(secret: Bytes32, pnTimes: seq<int>, nTimes: seq<int>)

  /** state.mkskipped = skip_message_keys(take(state.mkskipped), ..)?: on an error the store has
      been taken out and is left empty. */
  ghost predicate SkipsOrClears(before: SkippedMap, ck: Key, hk: Key, from: nat, until: nat, times: seq<int>,
                                after: SkippedMap, lost: set<SkipId>) {
    if SkipError(from, until).Some? then after == map[] && lost == before.Keys
    else |times| == until - from && Skips(before, ck, hk, from, until, times, after, lost)
  }

  /** Storing the rest of the old receiving chain; mid is the store afterwards. */
  ghost predicate StoresOldChain(s: Session, h: RatchetHeader, times: seq<int>, mid: SkippedMap, lost: set<SkipId>) {
    if s.ckR.Some? && s.hkR.Some? then
      SkipsOrClears(s.mkskipped, s.ckR.value, s.hkR.value, s.nr, h.pn, times, mid, lost)
    else mid == s.mkskipped && lost == {}
  }

  function OldChainError(s: Session, h: RatchetHeader): Option<RatchetError> {
    if s.ckR.Some? && s.hkR.Some? then SkipError(s.nr, h.pn) else None
  }

  /** The DH ratchet step, first KDF: a new receiving chain. */
  function RatchetReceiving(s: Session, h: RatchetHeader): Session {
    var (rk, ckR, nhkR) := KdfRk(s.rk, Dh(s.dhPair, h.dhPub));
    s.(pn := s.ns, ns := 0, nr := 0, hkS := Some(s.nhkS), hkR := Some(s.nhkR),
       dhRemote := Some(h.dhPub), rk := rk, ckR := Some(ckR), nhkR := nhkR)
  }

  /** The DH ratchet step, second KDF: a new sending chain from a fresh secret. */
  function RatchetSending(s: Session, h: RatchetHeader, secret: Bytes32): Session {
    var (rk, ckS, nhkS) := KdfRk(s.rk, Dh(secret, h.dhPub));
    s.(rk := rk, ckS := Some(ckS), nhkS := nhkS, dhPair := secret, received := {})
  }

  /** The DH ratchet step, with mid the store of skipped keys at that point. */
  function Ratchet(s: Session, h: RatchetHeader, mid: SkippedMap, secret: Bytes32): Session {
    RatchetSending(RatchetReceiving(s.(mkskipped := mid), h), h, secret)
  }

  function ChainError(s: Session, h: RatchetHeader): Option<RatchetError> {
    if s.hkR.Some? then SkipError(s.nr, h.n) else None
  }

  /** Storing the skipped keys of the current chain, then advancing the chain by one. */
  ghost predicate Advances(s: Session, h: RatchetHeader, times: seq<int>,
                           s': Session, error: Option<RatchetError>, lost: set<SkipId>)
    requires s.ckR.Some?
  {
    && (if s.hkR.Some? then
          SkipsOrClears(s.mkskipped, s.ckR.value, s.hkR.value, s.nr, h.n, times, s'.mkskipped, lost)
        else s'.mkskipped == s.mkskipped && lost == {})
    && if ChainError(s, h).Some? then
         s' == s.(mkskipped := s'.mkskipped) && error == ChainError(s, h)
       else if s.nr == U32_MAX then
         s' == s.(mkskipped := s'.mkskipped, ckR := Some(CkNext(s.ckR.value))) && error == Some(CounterOverflow)
       else
         s' == s.(mkskipped := s'.mkskipped, ckR := Some(CkNext(s.ckR.value)), nr := s.nr + 1) && error == None
  }

  /** commit_state_changes with a DH ratchet step, through the store mid. */
  ghost predicate RatchetsThrough(s: Session, h: RatchetHeader, env: Env, mid: SkippedMap, lost1: set<SkipId>,
                                  lost2: set<SkipId>, s': Session, error: Option<RatchetError>) {
    && StoresOldChain(s, h, env.pnTimes, mid, lost1)
    && if OldChainError(s, h).Some? then
         s' == s.(mkskipped := mid) && error == OldChainError(s, h) && lost2 == {}
       else
         Advances(Ratchet(s, h, mid, env.secret), h, env.nTimes, s', error, lost2)
  }

  /** commit_state_changes */
  ghost predicate Commits(s: Session, h: RatchetHeader, dhRatchet: bool, env: Env,
                          s': Session, error: Option<RatchetError>, lost: set<SkipId>)
    requires dhRatchet || s.ckR.Some?
  {
    if dhRatchet then
      exists mid, lost1, lost2 ::
        RatchetsThrough(s, h, env, mid, lost1, lost2, s', error) && lost == lost1 + lost2
    else Advances(s, h, env.nTimes, s', error, lost)
  }

  /** The end of decrypt: recording the message after the commit. */
  ghost predicate Records(committed: Session, id: MsgId, plaintext: seq<byte>,
                          s': Session, r: Result<seq<byte>, RatchetError>) {
    if |committed.received| >= MAX_RECEIVED_TRACKING then s' == committed && r == Err(TooManyMessages)
    else s' == committed.(received := committed.received + {id}) && r == Ok(plaintext)
  }

  /** A live message is committed, then recorded. */
  ghost predicate Accepts(s: Session, h: RatchetHeader, dhRatchet: bool, plaintext: seq<byte>, env: Env,
                          committed: Session, error: Option<RatchetError>,
                          s': Session, r: Result<seq<byte>, RatchetError>, lost: set<SkipId>)
    requires dhRatchet || s.ckR.Some?
  {
    && Commits(s, h, dhRatchet, env, committed, error, lost)
    && if error.Some? then s' == committed && r == Err(error.value)
       else Records(committed, MsgId(h.dhPub, h.n), plaintext, s', r)
  }

  /** A live message always finds a receiving chain, so the expect in the commit is never reached. */
  lemma LiveHasChain(s: Session, enc: Wire, ct: Wire, ad: seq<byte>)
    requires Open(s, enc, ct, ad).Live?
    ensures Open(s, enc, ct, ad).dhRatchet || s.ckR.Some?
  {
  }

  /** decrypt; lost collects the ids whose stored keys the call threw away. */
  ghost predicate Decrypts(s: Session, enc: Wire, ct: Wire, ad: seq<byte>, env: Env,
                           s': Session, r: Result<seq<byte>, RatchetError>, lost: set<SkipId>) {
    match Open(s, enc, ct, ad)
    case Refused(e) => s' == s && r == Err(e) && lost == {}
    case Stored(id, plaintext) => s' == s.(mkskipped := s.mkskipped - {id}) && r == Ok(plaintext) && lost == {}
    case Live(h, dhRatchet, plaintext) =>
      && (dhRatchet || s.ckR.Some?)
      && exists committed, error :: Accepts(s, h, dhRatchet, plaintext, env, committed, error, s', r, lost)
  }

  // ---- Every derivation takes in the Diffie-Hellman value ----

  /** The initiator's first root, chain and next header key depend on its draw and on the responder's key. */
  lemma InitBinds(sk: Bytes32, remote: Bytes32, x: Bytes32, sk': Bytes32, remote': Bytes32, y: Bytes32)
    ensures var s, s' := InitSender(sk, remote, x), InitSender(sk', remote', y);
            var same := sk == sk' && {x, remote} == {y, remote'};
            (s.rk == s'.rk <==> same) && (s.ckS == s'.ckS <==> same) && (s.nhkS == s'.nhkS <==> same)
  {
  }

  /** The receiving half of a ratchet step depends on the key in the header. */
  lemma ReceivingBinds(s: Session, h: RatchetHeader, h': RatchetHeader)
    ensures var t, t' := RatchetReceiving(s, h), RatchetReceiving(s, h');
            var same := {s.dhPair, h.dhPub} == {s.dhPair, h'.dhPub};
            (t.rk == t'.rk <==> same) && (t.ckR == t'.ckR <==> same) && (t.nhkR == t'.nhkR <==> same)
  {
  }

  /** The sending half depends on the fresh draw. */
  lemma SendingBinds(s: Session, h: RatchetHeader, x: Bytes32, y: Bytes32)
    requires x != h.dhPub && y != h.dhPub
    ensures var t, t' := RatchetSending(s, h, x), RatchetSending(s, h, y);
            (t.rk == t'.rk <==> x == y) && (t.ckS == t'.ckS <==> x == y) && (t.nhkS == t'.nhkS <==> x == y)
  {
    assert Dh(x, h.dhPub) == Dh(y, h.dhPub) ==> x in {y, h.dhPub};
  }

  // ---- When encrypting fails ----

  /** The session has begun to send. */
  predicate CanEncrypt(s: Session) {
    s.ckS.Some? && s.hkS.Some? && s.dhRemote.Some?
  }

  /** encrypt fails in exactly four ways. Without a sending chain, or with more than 64 KiB of associated data, the
      session is unchanged. When the chain has no index left its key has moved on all the same; when the header nonces
      are used up, its index has been used as well. */
  lemma EncryptFailures(s: Session, plaintext: seq<byte>, ad: seq<byte>)
    ensures var (s', r) := Encrypt(s, plaintext, ad);
            && (!CanEncrypt(s) ==> r == Err(InvalidState) && s' == s)
            && (CanEncrypt(s) && |ad| > 65536 ==> r == Err(ADTooLarge) && s' == s)
            && (CanEncrypt(s) && |ad| <= 65536 ==>
                  && s'.ckS == Some(CkNext(s.ckS.value))
                  && s' == s.(ckS := s'.ckS, ns := s'.ns, headerNonceCounter := s'.headerNonceCounter)
                  && s'.ns == (if s.ns == 0xFFFF_FFFF then s.ns else s.ns + 1)
                  && (r.Ok? <==> s.ns < 0xFFFF_FFFF && s.headerNonceCounter < 0xFFFF_FFFF_FFFF_FFFF)
                  && s'.headerNonceCounter == s.headerNonceCounter + (if r.Ok? then 1 else 0)
                  && (r.Err? ==> r.error == CounterOverflow))
  {
    hide SealHeader, SealBody, ConcatAd, NonceBytes;
  }

  /** And decrypt refuses more than 64 KiB of associated data before anything else. */
  lemma LargeAdRefused(s: Session, enc: Wire, ct: Wire, ad: seq<byte>)
    ensures |ad| > 65536 ==> Open(s, enc, ct, ad) == Refused(ADTooLarge)
    ensures Open(s, enc, ct, ad) == Refused(ADTooLarge) ==> |ad| > 65536
  {
    hide StoredMatch, ConcatAd;
    if |ad| <= 65536 {
      var full := ConcatAd(ad, enc);
      if DecryptHeader(s, enc).Err? {
        HeaderErrors(s, enc);
      }
    }
  }

  lemma HeaderErrors(s: Session, enc: Wire)
    ensures DecryptHeader(s, enc).Err? ==> DecryptHeader(s, enc).error == HeaderDecryptionFailed
  {
  }

  // ---- Facts about any session ----

  /** Computing a message key takes at most MAX_SKIP chain steps. */
  lemma ComputationIsBounded(s: Session, h: RatchetHeader, dhRatchet: bool)
    requires ComputeMessageKey(s, h, dhRatchet).Ok?
    ensures h.n <= Position(s, dhRatchet) + MAX_SKIP
  {
  }

  /** The read-only computation and the commit walk the same chain: when a commit succeeds, the
      receiving chain it leaves starts where the computation started, the message key computed is
      the one at index n of that chain, and every key stored for a skipped index is the one the
      computation would have found for that index. */
  lemma SimulationMatchesCommit(s: Session, h: RatchetHeader, dhRatchet: bool, env: Env,
                                s': Session, lost: set<SkipId>)
    requires dhRatchet || (s.ckR.Some? && s.hkR.Some?)
    requires ComputeMessageKey(s, h, dhRatchet).Ok? && Position(s, dhRatchet) <= h.n
    requires Commits(s, h, dhRatchet, env, s', None, lost)
    ensures s'.ckR == Some(CkNext(ReceivingChain(s, h, dhRatchet).value))
    ensures s'.nr == Position(s, dhRatchet) + 1
    ensures ComputeMessageKey(s, h, dhRatchet) ==
            Ok(MkOf(Iter(ReceivingChain(s, h, dhRatchet).value, h.n - Position(s, dhRatchet))))
    ensures forall i: u32 | Position(s, dhRatchet) <= i < h.n && SkipId(s'.hkR.value, i) in s'.mkskipped ::
              Ok(s'.mkskipped[SkipId(s'.hkR.value, i)].mk) == ComputeMessageKey(s, h.(n := i), dhRatchet)
  {
    hide Skips, SkipsOrClears, StoresOldChain, Iter;
    var base, l := s, lost;
    if dhRatchet {
      var m, l1, l2 :| RatchetsThrough(s, h, env, m, l1, l2, s', None) && lost == l1 + l2;
      base, l := Ratchet(s, h, m, env.secret), l2;
    }
    assert Advances(base, h, env.nTimes, s', None, l);
    forall i: u32 | Position(s, dhRatchet) <= i < h.n && SkipId(s'.hkR.value, i) in s'.mkskipped
      ensures Ok(s'.mkskipped[SkipId(s'.hkR.value, i)].mk) == ComputeMessageKey(s, h.(n := i), dhRatchet)
    {
      AdvanceStores(base, h, env.nTimes, s', l, i);
    }
  }

  /** What a commit stores for a skipped index is the message key of that index. */
  lemma AdvanceStores(s: Session, h: RatchetHeader, times: seq<int>, s': Session, lost: set<SkipId>, i: nat)
    requires s.ckR.Some? && s.hkR.Some? && Advances(s, h, times, s', None, lost)
    requires s.nr <= i < h.n && SkipId(s.hkR.value, i) in s'.mkskipped
    ensures s'.mkskipped[SkipId(s.hkR.value, i)].mk == MkOf(Iter(s.ckR.value, i - s.nr))
  {
    hide Skips;
    SkipsContentsAt(s.mkskipped, s.ckR.value, s.hkR.value, s.nr, h.n, times, s'.mkskipped, lost,
                    SkipId(s.hkR.value, i));
  }
}
