/** Every run keeps the two parties in lockstep (Conversation.Inv). */
module Lockstep {
  import opened Wrappers
  import opened Bytes
  import opened Keys
  import opened Framing
  import opened SkippedKeys
  import opened RatchetSpec
  import opened Conversation
  import Authenticity

  lemma InitKeepsLockstep(seed: Seed, w: World)
    requires Init(seed, w)
    ensures Inv(seed, w)
  {
    assert Root(seed, 1) == RootOf(Root(seed, 0), Dh(seed.draws(0), seed.draws(1)));
    assert Dh(seed.draws(0), seed.draws(1)) == Dh(seed.draws(1), seed.draws(0));
  }

  /** Inv, seen from either party. */
  lemma InvFrom(seed: Seed, w: World, who: nat)
    requires |w.parties| == 2 && who < 2 && LogOk(seed, w.log)
    requires PartyOk(seed, w.log, who, w.parties[who])
    requires PartyOk(seed, w.log, 1 - who, w.parties[1 - who])
    requires w.parties[who].epoch + w.parties[1 - who].epoch == 2 * |w.log| - 3
    ensures Inv(seed, w)
  {
    hide PartyOk, LogOk;
    forall p | 0 <= p < 2 ensures PartyOk(seed, w.log, p, w.parties[p]) {
      assert p == who || p == 1 - who;
    }
  }

  lemma PartyBounds(seed: Seed, log: Log, who: nat, q: Party)
    requires PartyOk(seed, log, who, q)
    ensures -1 <= q.epoch < |log| && q.epoch % 2 == who
    ensures q.st.ns == if q.epoch < 0 then 0 else |log[q.epoch]|
  {
    hide StoreOk, ReceivingOk, Hdr, Root, Chain, Iter;
  }

  lemma InvFor(seed: Seed, w: World, who: nat)
    requires Inv(seed, w) && who < 2
    ensures PartyOk(seed, w.log, who, w.parties[who])
    ensures PartyOk(seed, w.log, 1 - who, w.parties[1 - who])
    ensures w.parties[who].epoch + w.parties[1 - who].epoch == 2 * |w.log| - 3
    ensures |w.log| - 2 <= w.parties[who].epoch < |w.log|
    ensures Shape(w)
  {
    hide PartyOk, LogOk;
    var p, q := w.parties[who], w.parties[1 - who];
    assert PartyOk(seed, w.log, who, p) && PartyOk(seed, w.log, 1 - who, q) by {
      if who == 1 {
        assert PartyOk(seed, w.log, 0, q);
      }
    }
    PartyBounds(seed, w.log, who, p);
    PartyBounds(seed, w.log, 1 - who, q);
  }

  /** A stored key belongs to a message the peer has used, of a chain before the party's own. */
  lemma StoredIsSent(seed: Seed, log: Log, who: nat, q: Party, j: nat, i: int)
    requires PartyOk(seed, log, who, q)
    ensures SkipId(Hdr(seed, j), i) in q.st.mkskipped ==> j < q.epoch && 0 <= i < |log[j]|
  {
    hide KeysOk, SendingOk, ReceivingOk, Hdr, MsgKey;
    var id := SkipId(Hdr(seed, j), i);
    HdrIndex(seed, j);
    if id in q.st.mkskipped {
      assert EntryOk(seed, log, q.epoch, id, q.st.mkskipped[id].mk);
    }
  }

  // ---- Sending ----

  lemma StoreOkGrows(seed: Seed, log: Log, log': Log, epoch: int, m: SkippedMap)
    requires epoch < |log| <= |log'| && StoreOk(seed, log, epoch, m)
    requires forall j | 0 <= j < |log| :: |log[j]| <= |log'[j]|
    ensures StoreOk(seed, log', epoch, m)
  {
    forall id: SkipId | id in m ensures EntryOk(seed, log', epoch, id, m[id].mk) {
      assert EntryOk(seed, log, epoch, id, m[id].mk);
    }
  }

  /** A party does not notice growth of chains other than its own sending chain and the one before. */
  lemma PartyOkGrows(seed: Seed, log: Log, log': Log, who: nat, q: Party)
    requires PartyOk(seed, log, who, q)
    requires |log| <= |log'| && forall j | 0 <= j < |log| :: |log[j]| <= |log'[j]|
    requires forall j | 0 <= j < |log| && (j == q.epoch || j == q.epoch - 2) :: |log[j]| == |log'[j]|
    ensures PartyOk(seed, log', who, q)
  {
    hide StoreOk, Hdr, Root, Chain, Iter;
    StoreOkGrows(seed, log, log', q.epoch, q.st.mkskipped);
  }

  function Appended(log: Log, e: nat, entry: Option<Sent>): Log
    requires e < |log|
  {
    log[e := log[e] + [entry]]
  }

  lemma LogOkAppends(seed: Seed, log: Log, e: nat, entry: Option<Sent>)
    requires LogOk(seed, log) && |log| - 2 <= e < |log| && |log[e]| < U32_MAX
    requires entry.Some? ==> Genuine(seed, log, e, |log[e]|, entry.value)
    ensures LogOk(seed, Appended(log, e, entry))
  {
    var log' := Appended(log, e, entry);
    forall j, i | IsSent(log', j, i) ensures Genuine(seed, log', j, i, log'[j][i].value) {
      assert HeaderAt(seed, log', j, i) == HeaderAt(seed, log, j, i);
      if j != e || i < |log[e]| {
        assert IsSent(log, j, i);
      }
    }
  }

  /** What encrypt returns is the next message of the party's sending chain. */
  lemma EncryptedIsGenuine(seed: Seed, log: Log, who: nat, q: Party, plaintext: seq<byte>, ad: seq<byte>)
    requires LogOk(seed, log) && PartyOk(seed, log, who, q)
    requires Encrypt(q.st, plaintext, ad).1.Ok?
    ensures q.epoch >= 0 && |log[q.epoch]| < U32_MAX
    ensures var sealed := Encrypt(q.st, plaintext, ad).1.value;
            Genuine(seed, log, q.epoch, |log[q.epoch]|,
                    Sent(q.st.headerNonceCounter, sealed.encHeader, sealed.ciphertext, ad, plaintext))
  {
    hide StoreOk, ReceivingOk, Hdr, Root, Chain, Iter, SealHeader, SealBody, ConcatAd, NonceBytes;
  }

  lemma SendingChainAdvances(seed: Seed, log: Log, q: Party, plaintext: seq<byte>, ad: seq<byte>, entry: Option<Sent>)
    requires Bounded(log) && -1 <= q.epoch < |log| && SendingOk(seed, log, q)
    ensures var st := Encrypt(q.st, plaintext, ad).0;
            if st.ns == q.st.ns then SendingOk(seed, log, q.(st := st))
            else
              && q.epoch >= 0 && |log[q.epoch]| < U32_MAX
              && SendingOk(seed, Appended(log, q.epoch, entry), q.(st := st))
  {
    hide Hdr, Root, Chain, SealHeader, SealBody, ConcatAd, NonceBytes;
  }

  lemma EncryptFrame(st: Session, plaintext: seq<byte>, ad: seq<byte>)
    ensures var st' := Encrypt(st, plaintext, ad).0;
            st' == st.(ckS := st'.ckS, ns := st'.ns, headerNonceCounter := st'.headerNonceCounter)
  {
    hide SealHeader, SealBody, ConcatAd, NonceBytes;
  }

  lemma SendingPartyOk(seed: Seed, log: Log, who: nat, q: Party, plaintext: seq<byte>, ad: seq<byte>,
                       entry: Option<Sent>)
    requires LogOk(seed, log) && PartyOk(seed, log, who, q)
    ensures var st := Encrypt(q.st, plaintext, ad).0;
            if st.ns == q.st.ns then PartyOk(seed, log, who, q.(st := st))
            else
              && q.epoch >= 0 && |log[q.epoch]| < U32_MAX
              && PartyOk(seed, Appended(log, q.epoch, entry), who, q.(st := st))
  {
    hide StoreOk, SendingOk, Hdr, Root, Chain, Iter, Encrypt;
    var st := Encrypt(q.st, plaintext, ad).0;
    SendingChainAdvances(seed, log, q, plaintext, ad, entry);
    EncryptFrame(q.st, plaintext, ad);
    if st.ns != q.st.ns {
      StoreOkGrows(seed, log, Appended(log, q.epoch, entry), q.epoch, st.mkskipped);
    }
  }

  lemma SendKeepsLockstep(seed: Seed, w: World, who: nat, plaintext: seq<byte>, ad: seq<byte>)
    requires Inv(seed, w) && who < 2
    ensures Inv(seed, AfterSend(w, who, plaintext, ad))
  {
    hide PartyOk, LogOk, Genuine, Encrypt;
    var q, peer := w.parties[who], w.parties[1 - who];
    var (st, r) := Encrypt(q.st, plaintext, ad);
    var entry := match r {
      case Ok(sealed) => Some(Sent(q.st.headerNonceCounter, sealed.encHeader, sealed.ciphertext, ad, plaintext))
      case Err(_) => None
    };
    InvFor(seed, w, who);
    SendingPartyOk(seed, w.log, who, q, plaintext, ad, entry);
    var w' := AfterSend(w, who, plaintext, ad);
    if st.ns != q.st.ns {
      if r.Ok? {
        EncryptedIsGenuine(seed, w.log, who, q, plaintext, ad);
      }
      LogOkAppends(seed, w.log, q.epoch, entry);
      PartyOkGrows(seed, w.log, w'.log, 1 - who, peer);
    }
    InvFrom(seed, w', who);
  }

  // ---- Delivering ----

  lemma EntryOkSkips(seed: Seed, log: Log, epoch: int, before: SkippedMap, c: nat, from: nat, until: nat,
                     times: seq<int>, after: SkippedMap, lost: set<SkipId>, id: SkipId)
    requires epoch < |log| && StoreOk(seed, log, epoch, before)
    requires c < epoch && c % 2 != epoch % 2 && from <= until <= |log[c]| && until <= from + |times|
    requires ContentsAt(before, Iter(Chain(seed, c), from), Hdr(seed, c), from, until, times, after, lost, id)
    requires id in after
    ensures EntryOk(seed, log, epoch, id, after[id].mk)
  {
    hide Hdr, Chain;
    if InRange(id, Hdr(seed, c), from, until) {
      HdrIndex(seed, c);
      IterAdd(Chain(seed, c), from, id.n - from);
    } else {
      assert EntryOk(seed, log, epoch, id, before[id].mk);
    }
  }

  /** Entering the keys of a range of a chain of the peer keeps the store sound. */
  lemma StoreOkSkips(seed: Seed, log: Log, epoch: int, before: SkippedMap, c: nat, from: nat, until: nat,
                     times: seq<int>, after: SkippedMap, lost: set<SkipId>)
    requires epoch < |log| && StoreOk(seed, log, epoch, before)
    requires c < epoch && c % 2 != epoch % 2 && (SkipError(from, until).None? ==> until <= |log[c]|)
    requires SkipsOrClears(before, Iter(Chain(seed, c), from), Hdr(seed, c), from, until, times, after, lost)
    ensures StoreOk(seed, log, epoch, after)
  {
    hide EntryOk, ContentsAt, Skips, Chain, Hdr, Iter;
    if SkipError(from, until).None? {
      SkipsSize(before, Iter(Chain(seed, c), from), Hdr(seed, c), from, until, times, after, lost);
      forall id: SkipId | id in after ensures EntryOk(seed, log, epoch, id, after[id].mk) {
        SkipsContentsAt(before, Iter(Chain(seed, c), from), Hdr(seed, c), from, until, times, after, lost, id);
        EntryOkSkips(seed, log, epoch, before, c, from, until, times, after, lost, id);
      }
    }
  }

  /** The party as the DH ratchet step leaves it. */
  function Ratcheted(q: Party, h: RatchetHeader, mid: SkippedMap, secret: Bytes32): Party {
    Party(Ratchet(q.st, h, mid, secret), q.epoch + 2)
  }

  lemma HdrStep(seed: Seed, j: nat)
    ensures Hdr(seed, j + 2) == NextHdrOf(Root(seed, j), Dh(seed.draws(j), seed.draws(j + 1)))
    ensures Root(seed, j + 1) == RootOf(Root(seed, j), Dh(seed.draws(j), seed.draws(j + 1)))
  {
  }

  lemma RatchetKeys(seed: Seed, q: Party, h: RatchetHeader, mid: SkippedMap, secret: Bytes32)
    requires KeysOk(seed, q)
    requires h.dhPub == seed.draws(q.epoch + 2) && secret == seed.draws(q.epoch + 3)
    ensures KeysOk(seed, Ratcheted(q, h, mid, secret))
    ensures var st := Ratchet(q.st, h, mid, secret);
            && st.ckR == Some(Chain(seed, q.epoch + 1)) && st.hkR == Some(Hdr(seed, q.epoch + 1))
            && st.ckS == Some(Chain(seed, q.epoch + 2)) && st.hkS == Some(Hdr(seed, q.epoch + 2))
  {
    hide Hdr, Root;
    var s := q.epoch;
    HdrStep(seed, s + 1);
    HdrStep(seed, s + 2);
    assert Dh(seed.draws(s + 3), seed.draws(s + 2)) == Dh(seed.draws(s + 2), seed.draws(s + 3));
  }

  lemma StoreOkNextEpoch(seed: Seed, log: Log, epoch: int, m: SkippedMap)
    requires epoch < |log| && StoreOk(seed, log, epoch, m)
    ensures epoch + 2 < |log| + 1 ==> StoreOk(seed, log + [[]], epoch + 2, m)
  {
    Authenticity.NeighbourParity(epoch);
    forall id: SkipId | id in m && epoch + 2 < |log| + 1 ensures EntryOk(seed, log + [[]], epoch + 2, id, m[id].mk) {
      assert EntryOk(seed, log, epoch, id, m[id].mk);
    }
  }

  lemma RatchetPartyOk(seed: Seed, log: Log, who: nat, q: Party, h: RatchetHeader, mid: SkippedMap, secret: Bytes32)
    requires Bounded(log) && PartyOk(seed, log, who, q) && q.epoch == |log| - 2
    requires h.dhPub == seed.draws(q.epoch + 2) && secret == seed.draws(q.epoch + 3)
    requires StoreOk(seed, log, q.epoch, mid)
    ensures PartyOk(seed, log + [[]], who, Ratcheted(q, h, mid, secret))
  {
    hide StoreOk, Hdr, Chain, KeysOk;
    assert KeysOk(seed, q);
    RatchetKeys(seed, q, h, mid, secret);
    Authenticity.NeighbourParity(q.epoch);
    StoreOkNextEpoch(seed, log, q.epoch, mid);
    assert Iter(Chain(seed, q.epoch + 1), 0) == Chain(seed, q.epoch + 1);
    assert Iter(Chain(seed, q.epoch + 2), 0) == Chain(seed, q.epoch + 2);
    assert SendingOk(seed, log, q);
    var log', q' := log + [[]], Ratcheted(q, h, mid, secret);
    assert SendingOk(seed, log', q');
    assert ReceivingOk(seed, log', q');
  }

  lemma StoreOkOldChain(seed: Seed, log: Log, who: nat, q: Party, h: RatchetHeader, times: seq<int>,
                        mid: SkippedMap, lost: set<SkipId>)
    requires PartyOk(seed, log, who, q) && q.epoch == |log| - 2
    requires h.pn == PrevLen(log, q.epoch + 1)
    requires StoresOldChain(q.st, h, times, mid, lost)
    ensures StoreOk(seed, log, q.epoch, mid)
    ensures OldChainError(q.st, h).Some? ==> q.epoch >= 1 && h.pn - q.st.nr > MAX_SKIP && mid == map[]
  {
    hide StoreOk, SendingOk, Hdr, Root, Chain, Iter, Skips;
    if q.epoch >= 1 {
      Authenticity.NeighbourParity(q.epoch);
      assert StoreOk(seed, log, q.epoch, q.st.mkskipped);
      StoreOkSkips(seed, log, q.epoch, q.st.mkskipped, q.epoch - 1, q.st.nr, h.pn, times, mid, lost);
    }
  }

  /** The last part of the commit cannot fail for a message at or within MAX_SKIP of the position. */
  lemma AdvancePartyOk(seed: Seed, log: Log, who: nat, q: Party, h: RatchetHeader, times: seq<int>,
                       committed: Session, error: Option<RatchetError>, lost: set<SkipId>)
    requires Bounded(log) && PartyOk(seed, log, who, q) && q.epoch >= 1
    requires q.st.nr <= h.n <= q.st.nr + MAX_SKIP && h.n < |log[q.epoch - 1]|
    requires Advances(q.st, h, times, committed, error, lost)
    ensures error == None
    ensures committed == q.st.(mkskipped := committed.mkskipped, ckR := committed.ckR, nr := q.st.nr + 1)
    ensures committed.ckR == Some(Iter(Chain(seed, q.epoch - 1), q.st.nr + 1))
    ensures StoreOk(seed, log, q.epoch, committed.mkskipped)
  {
    hide StoreOk, EntryOk, SkipsOrClears, Hdr, Chain, Root;
    Authenticity.NeighbourParity(q.epoch);
    assert StoreOk(seed, log, q.epoch, q.st.mkskipped);
    StoreOkSkips(seed, log, q.epoch, q.st.mkskipped, q.epoch - 1, q.st.nr, h.n, times, committed.mkskipped, lost);
  }

  lemma RecordPartyOk(seed: Seed, log: Log, who: nat, q: Party, i: nat, committed: Session, plaintext: seq<byte>,
                      st: Session, r: Result<seq<byte>, RatchetError>)
    requires PartyOk(seed, log, who, q) && q.epoch >= 1
    requires q.st.nr <= i < |log[q.epoch - 1]| && q.st.nr < U32_MAX
    requires committed == q.st.(mkskipped := committed.mkskipped, ckR := committed.ckR, nr := q.st.nr + 1)
    requires committed.ckR == Some(Iter(Chain(seed, q.epoch - 1), q.st.nr + 1))
    requires StoreOk(seed, log, q.epoch, committed.mkskipped)
    requires MsgId(seed.draws(q.epoch), i) !in q.st.received
    requires Records(committed, MsgId(seed.draws(q.epoch), i), plaintext, st, r)
    ensures PartyOk(seed, log, who, q.(st := st))
  {
    hide StoreOk, Hdr, Chain, Iter, Root;
    assert KeysOk(seed, q) && SendingOk(seed, log, q) && ReceivingOk(seed, log, q);
    assert ReceivingOk(seed, log, q.(st := st));
  }

  /** A live message opened by the next header key: the DH ratchet step succeeds and the message is
      accepted, or storing the old chain fails and nothing but the store changes. */
  lemma RatchetedLive(seed: Seed, log: Log, who: nat, q: Party, env: Env, h: RatchetHeader, plaintext: seq<byte>,
                      committed: Session, error: Option<RatchetError>,
                      st: Session, r: Result<seq<byte>, RatchetError>, lost: set<SkipId>)
    requires Bounded(log) && PartyOk(seed, log, who, q) && q.epoch == |log| - 2
    requires env.secret == seed.draws(|log| + 1)
    requires h.n <= MAX_SKIP && h.n < |log[q.epoch + 1]| && h == HeaderAt(seed, log, q.epoch + 1, h.n)
    requires Accepts(q.st, h, true, plaintext, env, committed, error, st, r, lost)
    ensures if OldChainError(q.st, h).None? then
              PartyOk(seed, log + [[]], who, Party(st, q.epoch + 2)) && r == Ok(plaintext)
              && st.nr == 1 && st.received == {MsgId(h.dhPub, h.n)} && st.hkR == Some(q.st.nhkR)
            else
              && PartyOk(seed, log, who, Party(st, q.epoch))
              && q.epoch >= 1 && h.pn - q.st.nr > MAX_SKIP
              && st == q.st.(mkskipped := map[]) && r == Err(OldMessageKeysLimitReached)
  {
    hide PartyOk, StoreOk, Ratchet, Advances, StoresOldChain;
    var mid, l1, l2 :| RatchetsThrough(q.st, h, env, mid, l1, l2, committed, error) && lost == l1 + l2;
    StoreOkOldChain(seed, log, who, q, h, env.pnTimes, mid, l1);
    var q' := Ratcheted(q, h, mid, env.secret);
    if OldChainError(q.st, h).None? {
      RatchetPartyOk(seed, log, who, q, h, mid, env.secret);
      RatchetedFields(q, h, mid, env.secret);
      AdvancePartyOk(seed, log + [[]], who, q', h, env.nTimes, committed, error, l2);
      RecordPartyOk(seed, log + [[]], who, q', h.n, committed, plaintext, st, r);
    } else {
      ClearedPartyOk(seed, log, who, q);
    }
  }

  lemma RatchetedFields(q: Party, h: RatchetHeader, mid: SkippedMap, secret: Bytes32)
    ensures var st := Ratchet(q.st, h, mid, secret);
            st.nr == 0 && st.received == {} && st.mkskipped == mid && st.ckR.Some? && st.hkR == Some(q.st.nhkR)
  {
  }

  lemma ClearedPartyOk(seed: Seed, log: Log, who: nat, q: Party)
    requires PartyOk(seed, log, who, q)
    ensures PartyOk(seed, log, who, q.(st := q.st.(mkskipped := map[])))
  {
    hide Hdr, Root, Chain, Iter, EntryOk;
  }

  /** A live message of the current receiving chain is accepted. */
  lemma DirectLive(seed: Seed, log: Log, who: nat, q: Party, env: Env, h: RatchetHeader, plaintext: seq<byte>,
                   committed: Session, error: Option<RatchetError>,
                   st: Session, r: Result<seq<byte>, RatchetError>, lost: set<SkipId>)
    requires Bounded(log) && PartyOk(seed, log, who, q) && q.epoch >= 1
    requires q.st.nr <= h.n <= q.st.nr + MAX_SKIP && h.n < |log[q.epoch - 1]| && h.dhPub == seed.draws(q.epoch)
    requires MsgId(h.dhPub, h.n) !in q.st.received
    requires q.st.ckR.Some? && Accepts(q.st, h, false, plaintext, env, committed, error, st, r, lost)
    ensures PartyOk(seed, log, who, Party(st, q.epoch))
    ensures r == if |q.st.received| >= MAX_RECEIVED_TRACKING then Err(TooManyMessages) else Ok(plaintext)
    ensures st.nr == q.st.nr + 1 && st.hkR == q.st.hkR
    ensures st.received == if r.Ok? then q.st.received + {MsgId(h.dhPub, h.n)} else q.st.received
  {
    hide PartyOk, StoreOk, Advances;
    AdvancePartyOk(seed, log, who, q, h, env.nTimes, committed, error, lost);
    RecordPartyOk(seed, log, who, q, h.n, committed, plaintext, st, r);
  }

  lemma RefusedOrStoredPartyOk(seed: Seed, log: Log, who: nat, q: Party, m: SkippedMap)
    requires PartyOk(seed, log, who, q)
    requires m.Keys <= q.st.mkskipped.Keys && forall id | id in m :: m[id] == q.st.mkskipped[id]
    ensures PartyOk(seed, log, who, q.(st := q.st.(mkskipped := m)))
  {
    hide EntryOk, Hdr, Chain, Root, Iter;
    assert |m.Keys| <= |q.st.mkskipped.Keys| by {
      SmallerSet(m.Keys, q.st.mkskipped.Keys);
    }
  }

  lemma LogOkNextChain(seed: Seed, log: Log)
    requires LogOk(seed, log)
    ensures LogOk(seed, log + [[]])
  {
    var log' := log + [[]];
    forall j, i | IsSent(log', j, i) ensures Genuine(seed, log', j, i, log'[j][i].value) {
      assert IsSent(log, j, i);
      assert HeaderAt(seed, log', j, i) == HeaderAt(seed, log, j, i);
    }
  }

  lemma LogOkBounded(seed: Seed, log: Log)
    requires LogOk(seed, log)
    ensures Bounded(log)
  {
  }

  /** The receiving party after any delivery. */
  lemma DeliveredPartyOk(seed: Seed, log: Log, who: nat, q: Party, enc: Wire, ct: Wire, ad: seq<byte>, env: Env,
                         st: Session, r: Result<seq<byte>, RatchetError>, lost: set<SkipId>)
    requires LogOk(seed, log) && PartyOk(seed, log, who, q) && |log| - 2 <= q.epoch
    requires Deliverable(log, enc, ct) && env.secret == seed.draws(|log| + 1)
    requires Decrypts(q.st, enc, ct, ad, env, st, r, lost)
    ensures if Ratchets(q.st, Open(q.st, enc, ct, ad))
            then q.epoch == |log| - 2 && PartyOk(seed, log + [[]], who, Party(st, q.epoch + 2))
            else PartyOk(seed, log, who, Party(st, q.epoch))
  {
    hide PartyOk, LogOk, Bounded, Accepts;
    LogOkBounded(seed, log);
    Authenticity.OpeningExplained(seed, log, who, q, enc, ct, ad);
    match Open(q.st, enc, ct, ad) {
      case Refused(_) =>
        assert Party(st, q.epoch) == q;
      case Stored(id, plaintext) =>
        RefusedOrStoredPartyOk(seed, log, who, q, q.st.mkskipped - {id});
      case Live(h, dhRatchet, plaintext) =>
        var committed, error :| Accepts(q.st, h, dhRatchet, plaintext, env, committed, error, st, r, lost);
        LiveIsFresh(q.st, enc, ct, ad);
        if dhRatchet {
          RatchetedLive(seed, log, who, q, env, h, plaintext, committed, error, st, r, lost);
        } else {
          DirectLive(seed, log, who, q, env, h, plaintext, committed, error, st, r, lost);
        }
    }
  }

  lemma LiveIsFresh(st: Session, enc: Wire, ct: Wire, ad: seq<byte>)
    requires Open(st, enc, ct, ad).Live?
    ensures var h := Open(st, enc, ct, ad).header;
            MsgId(h.dhPub, h.n) !in st.received
  {
  }

  lemma DeliverKeepsLockstep(seed: Seed, w: World, who: nat, enc: Wire, ct: Wire, ad: seq<byte>, env: Env,
                             st: Session, r: Result<seq<byte>, RatchetError>, lost: set<SkipId>, w': World)
    requires Inv(seed, w) && Shape(w) && who < 2 && Deliverable(w.log, enc, ct)
    requires DeliversTo(seed, w, who, enc, ct, ad, env, st, r, lost, w')
    ensures Inv(seed, w')
  {
    hide PartyOk, LogOk, Decrypts, Open, Deliverable, RefOf;
    InvFor(seed, w, who);
    var q, peer := w.parties[who], w.parties[1 - who];
    DeliveredPartyOk(seed, w.log, who, q, enc, ct, ad, env, st, r, lost);
    if Ratchets(q.st, Open(q.st, enc, ct, ad)) {
      LogOkNextChain(seed, w.log);
      PartyOkGrows(seed, w.log, w.log + [[]], 1 - who, peer);
    }
    InvFrom(seed, w', who);
  }

  lemma StepKeepsLockstep(seed: Seed, w: World, e: Event, w': World)
    requires Inv(seed, w) && Step(seed, w, e, w')
    ensures Inv(seed, w')
  {
    hide Inv, DeliversTo, Deliverable;
    match e {
      case Send(who, plaintext, ad) => SendKeepsLockstep(seed, w, who, plaintext, ad);
      case Deliver(who, enc, ct, ad, env) =>
        var st, r, lost :| DeliversTo(seed, w, who, enc, ct, ad, env, st, r, lost, w');
        DeliverKeepsLockstep(seed, w, who, enc, ct, ad, env, st, r, lost, w');
    }
  }

  /** Every state of every run is in lockstep, whatever the network does. */
  lemma {:induction false} RunKeepsLockstep(seed: Seed, ws: seq<World>, es: seq<Event>, k: nat)
    requires Run(seed, ws, es) && k < |ws|
    ensures Inv(seed, ws[k])
  {
    hide Inv, Step, Init;
    if k == 0 {
      InitKeepsLockstep(seed, ws[0]);
    } else {
      RunKeepsLockstep(seed, ws, es, k - 1);
      StepKeepsLockstep(seed, ws[k - 1], es[k - 1], ws[k - 1 + 1]);
    }
  }

  /** What lockstep means between two sessions, p ahead of its peer q: they hold matching header keys and root
      keys; p's receiving chain and q's sending chain are the chain that begins at start, each at its own
      position; and the receiving chain q will derive from p's public key is the chain that begins at next,
      on which p is sending. */
  ghost predicate Agree(p: Session, q: Session, start: Key, next: Key) {
    && p.hkR == q.hkS && p.nhkR == q.nhkS && p.hkS == Some(q.nhkR)
    && p.dhRemote == Some(q.dhPair)
    && p.rk == RootOf(q.rk, Dh(p.dhPair, q.dhPair))
    && (p.ckR.Some? <==> q.ckS.Some?)
    && (p.ckR.Some? ==> p.ckR == Some(Iter(start, p.nr)) && p.nr <= q.ns)
    && (q.ckS.Some? && q.ns < U32_MAX ==> q.ckS == Some(Iter(start, q.ns)))
    && (p.ns < U32_MAX ==> p.ckS == Some(Iter(next, p.ns)))
    && (forall h: RatchetHeader | h.dhPub == p.dhPair :: ReceivingChain(q, h, true) == Some(next))
  }

  lemma NeighboursAgree(seed: Seed, log: Log, p: Party, q: Party)
    requires 0 <= p.epoch < |log| && q.epoch == p.epoch - 1
    requires KeysOk(seed, p) && KeysOk(seed, q)
    requires SendingOk(seed, log, p) && SendingOk(seed, log, q)
    requires ReceivingOk(seed, log, p)
    ensures Agree(p.st, q.st, if q.epoch >= 0 then Chain(seed, q.epoch) else Shared(seed.sk), Chain(seed, p.epoch))
  {
    hide Hdr, Root, Iter;
    HdrStep(seed, p.epoch);
    assert Dh(p.st.dhPair, q.st.dhPair) == Dh(q.st.dhPair, p.st.dhPair);
  }

  /** In every state of every run the two parties agree. */
  lemma PartiesAgree(seed: Seed, ws: seq<World>, es: seq<Event>, k: nat, ahead: nat) returns (start: Key, next: Key)
    requires Run(seed, ws, es) && k < |ws|
    requires ahead < 2 && |ws[k].parties| == 2 && ws[k].parties[ahead].epoch == |ws[k].log| - 1
    ensures Agree(ws[k].parties[ahead].st, ws[k].parties[1 - ahead].st, start, next)
  {
    RunKeepsLockstep(seed, ws, es, k);
    hide Run, StoreOk, LogOk, Agree, SendingOk, ReceivingOk, KeysOk;
    var w := ws[k];
    var p, q := w.parties[ahead], w.parties[1 - ahead];
    InvFor(seed, w, ahead);
    NeighboursAgree(seed, w.log, p, q);
    start := if q.epoch >= 0 then Chain(seed, q.epoch) else Shared(seed.sk);
    next := Chain(seed, p.epoch);
  }
}
