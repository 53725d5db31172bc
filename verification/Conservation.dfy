/** No message is lost silently. */
module Conservation {
  import opened Wrappers
  import opened Bytes
  import opened Keys
  import opened Framing
  import opened SkippedKeys
  import opened RatchetSpec
  import opened Conversation
  import opened Lockstep
  import Authenticity
  import Delivery

  /** Message i of chain j has been delivered, or its key is stored, or it is still ahead in the current
      chain, or its key is among those known to have been thrown away. */
  ghost predicate Accounted(seed: Seed, w: World, q: Party, j: nat, i: nat) {
    || w.delivered[Ref(j, i)] > 0
    || SkipId(Hdr(seed, j), i) in q.st.mkskipped
    || (j == q.epoch - 1 && q.st.nr <= i)
    || SkipId(Hdr(seed, j), i) in w.discarded
  }

  /** Every message the peer sent in a chain up to the receiver's current one is accounted for. */
  ghost predicate Conserved(seed: Seed, w: World) {
    && |w.parties| == 2
    && forall p, j: nat, i: nat | 0 <= p < 2 && j < w.parties[p].epoch && j < |w.log| && j % 2 != p && i < |w.log[j]| ::
         Accounted(seed, w, w.parties[p], j, i)
  }

  // ---- What one delivery does to one key ----

  /** id is held in the store of s', or was thrown away. */
  ghost predicate Survives(id: SkipId, s': Session, lost: set<SkipId>) {
    id in s'.mkskipped || id in lost
  }

  lemma DirectKeeps(s: Session, h: RatchetHeader, env: Env, s': Session, error: Option<RatchetError>,
                    lost: set<SkipId>, id: SkipId)
    requires s.ckR.Some? && s.hkR.Some? && Commits(s, h, false, env, s', error, lost)
    ensures id in s.mkskipped ==> Survives(id, s', lost)
    ensures error.None? && InRange(id, s.hkR.value, s.nr, h.n) ==> Survives(id, s', lost)
  {
    hide Iter, Skips;
    if SkipError(s.nr, h.n).None? {
      SkipsContentsAt(s.mkskipped, s.ckR.value, s.hkR.value, s.nr, h.n, env.nTimes, s'.mkskipped, lost, id);
    }
  }

  lemma OldChainKeeps(s: Session, h: RatchetHeader, times: seq<int>, mid: SkippedMap, lost: set<SkipId>, id: SkipId)
    requires StoresOldChain(s, h, times, mid, lost)
    ensures id in s.mkskipped ==> id in mid || id in lost
    ensures s.ckR.Some? && s.hkR.Some? && OldChainError(s, h).None? && InRange(id, s.hkR.value, s.nr, h.pn) ==>
              id in mid || id in lost
  {
    hide Iter, Skips;
    if s.ckR.Some? && s.hkR.Some? && SkipError(s.nr, h.pn).None? {
      SkipsContentsAt(s.mkskipped, s.ckR.value, s.hkR.value, s.nr, h.pn, times, mid, lost, id);
    }
  }

  lemma RatchetKeeps(s: Session, h: RatchetHeader, env: Env, s': Session, error: Option<RatchetError>,
                     lost: set<SkipId>, id: SkipId)
    requires Commits(s, h, true, env, s', error, lost)
    ensures id in s.mkskipped ==> Survives(id, s', lost)
    ensures error.None? && s.ckR.Some? && s.hkR.Some? && InRange(id, s.hkR.value, s.nr, h.pn) ==> Survives(id, s', lost)
    ensures error.None? && InRange(id, s.nhkR, 0, h.n) ==> Survives(id, s', lost)
  {
    hide Iter, Skips, StoresOldChain, SkipsOrClears;
    var mid, l1, l2 :| RatchetsThrough(s, h, env, mid, l1, l2, s', error) && lost == l1 + l2;
    OldChainKeeps(s, h, env.pnTimes, mid, l1, id);
    if OldChainError(s, h).None? {
      var base := Ratchet(s, h, mid, env.secret);
      DirectKeeps(base, h, env, s', error, l2, id);
    }
  }

  // ---- Steps ----

  lemma SendConserves(seed: Seed, w: World, who: nat, plaintext: seq<byte>, ad: seq<byte>)
    requires Inv(seed, w) && Conserved(seed, w) && who < 2
    ensures Shape(w) && Conserved(seed, AfterSend(w, who, plaintext, ad))
  {
    hide LogOk, KeysOk, StoreOk, Hdr, Root, Iter, Chain;
    InvFor(seed, w, who);
    EncryptFrame(w.parties[who].st, plaintext, ad);
    var w' := AfterSend(w, who, plaintext, ad);
    forall p, j: nat, i: nat | 0 <= p < 2 && j < w'.parties[p].epoch && j < |w'.log| && j % 2 != p && i < |w'.log[j]|
      ensures Accounted(seed, w', w'.parties[p], j, i)
    {
      if i < |w.log[j]| {
        assert Accounted(seed, w, w.parties[p], j, i);
      } else {
        assert j == w.parties[who].epoch && p == 1 - who;
        assert ReceivingOk(seed, w.log, w.parties[p]);
      }
    }
  }

  /** The receiving party's side of Conserved, for one message. */
  ghost predicate Before(seed: Seed, w: World, q: Party, j: nat, i: nat) {
    j < |w.log| && i < |w.log[j]| && (j < q.epoch ==> Accounted(seed, w, q, j, i))
  }

  lemma StoredAccounts(seed: Seed, w: World, w': World, q: Party, q': Party, id: SkipId, j: nat, i: nat)
    requires j < q.epoch && Accounted(seed, w, q, j, i)
    requires q' == q.(st := q.st.(mkskipped := q.st.mkskipped - {id}))
    requires w'.delivered == w.delivered + multiset{Ref(ChainIndex(id.hk), id.n)} && w.discarded <= w'.discarded
    ensures Accounted(seed, w', q', j, i)
  {
    HdrIndex(seed, j);
  }

  lemma DirectAccounts(seed: Seed, w: World, w': World, who: nat, q: Party, q': Party, env: Env, h: RatchetHeader,
                       plaintext: seq<byte>, committed: Session, error: Option<RatchetError>,
                       r: Result<seq<byte>, RatchetError>, lost: set<SkipId>, j: nat, i: nat)
    requires Bounded(w.log) && PartyOk(seed, w.log, who, q) && q.epoch >= 1
    requires q.st.nr <= h.n <= q.st.nr + MAX_SKIP && h.n < |w.log[q.epoch - 1]| && h.dhPub == seed.draws(q.epoch)
    requires MsgId(h.dhPub, h.n) !in q.st.received
    requires q.st.ckR.Some? && Accepts(q.st, h, false, plaintext, env, committed, error, q'.st, r, lost)
    requires j < q.epoch && Accounted(seed, w, q, j, i) && q'.epoch == q.epoch
    requires w.delivered <= w'.delivered && w.discarded + lost <= w'.discarded
    requires r.Ok? ==> w'.delivered[Ref(q.epoch - 1, h.n)] > 0
    requires r == Err(TooManyMessages) ==> SkipId(q'.st.hkR.value, h.n) in w'.discarded
    ensures Accounted(seed, w', q', j, i)
  {
    hide PartyOk, Commits, Hdr;
    var id := SkipId(Hdr(seed, j), i);
    DirectLive(seed, w.log, who, q, env, h, plaintext, committed, error, q'.st, r, lost);
    AdvancesCleanly(seed, w.log, who, q, env, h, committed, error, lost);
    CurrentHeaderKey(seed, w.log, who, q);
    DirectKeeps(q.st, h, env, committed, error, lost, id);
    assert q'.st.mkskipped == committed.mkskipped;
    if j == q.epoch - 1 && q.st.nr <= i < h.n {
      assert InRange(id, q.st.hkR.value, q.st.nr, h.n);
    }
  }

  lemma AdvancesCleanly(seed: Seed, log: Log, who: nat, q: Party, env: Env, h: RatchetHeader,
                        committed: Session, error: Option<RatchetError>, lost: set<SkipId>)
    requires Bounded(log) && PartyOk(seed, log, who, q) && q.epoch >= 1
    requires q.st.nr <= h.n <= q.st.nr + MAX_SKIP && h.n < |log[q.epoch - 1]|
    requires q.st.ckR.Some? && Commits(q.st, h, false, env, committed, error, lost)
    ensures error.None?
  {
    hide PartyOk;
    AdvancePartyOk(seed, log, who, q, h, env.nTimes, committed, error, lost);
  }

  lemma CurrentHeaderKey(seed: Seed, log: Log, who: nat, q: Party)
    requires PartyOk(seed, log, who, q)
    ensures q.epoch >= 1 ==> q.st.hkR == Some(Hdr(seed, q.epoch - 1)) && q.st.ckR.Some? && q.st.nr <= |log[q.epoch - 1]|
    ensures q.st.nhkR == Hdr(seed, q.epoch + 1)
  {
    hide StoreOk, SendingOk, Hdr, Root, Chain, Iter;
  }

  lemma RatchetAccounts(seed: Seed, w: World, w': World, who: nat, q: Party, q': Party, env: Env, h: RatchetHeader,
                        plaintext: seq<byte>, committed: Session, error: Option<RatchetError>,
                        r: Result<seq<byte>, RatchetError>, lost: set<SkipId>, j: nat, i: nat)
    requires Bounded(w.log) && PartyOk(seed, w.log, who, q) && q.epoch == |w.log| - 2
    requires env.secret == seed.draws(|w.log| + 1)
    requires h.n <= MAX_SKIP && h.n < |w.log[q.epoch + 1]| && h == HeaderAt(seed, w.log, q.epoch + 1, h.n)
    requires Accepts(q.st, h, true, plaintext, env, committed, error, q'.st, r, lost)
    requires j < q'.epoch && j % 2 != who && Before(seed, w, q, j, i)
    requires q'.epoch == if OldChainError(q.st, h).None? then q.epoch + 2 else q.epoch
    requires w.delivered <= w'.delivered && w.discarded + lost <= w'.discarded
    requires r.Ok? ==> w'.delivered[Ref(q.epoch + 1, h.n)] > 0
    ensures Accounted(seed, w', q', j, i)
  {
    hide PartyOk, Commits, Hdr;
    var id := SkipId(Hdr(seed, j), i);
    RatchetedLive(seed, w.log, who, q, env, h, plaintext, committed, error, q'.st, r, lost);
    CurrentHeaderKey(seed, w.log, who, q);
    PartyBounds(seed, w.log, who, q);
    RatchetKeeps(q.st, h, env, committed, error, lost, id);
    assert q'.st.mkskipped == committed.mkskipped;
    if OldChainError(q.st, h).None? {
      assert j != q.epoch;
      if j == q.epoch - 1 && q.st.nr <= i {
        assert InRange(id, q.st.hkR.value, q.st.nr, h.pn);
      }
      if j == q.epoch + 1 && i < h.n {
        assert InRange(id, q.st.nhkR, 0, h.n);
      }
    }
  }

  /** The receiving party accounts for one message after any delivery. */
  lemma ReceiverAccounts(seed: Seed, w: World, who: nat, enc: Wire, ct: Wire, ad: seq<byte>, env: Env,
                         st: Session, r: Result<seq<byte>, RatchetError>, lost: set<SkipId>, w': World, j: nat, i: nat)
    requires Inv(seed, w) && Shape(w) && who < 2 && Deliverable(w.log, enc, ct)
    requires DeliversTo(seed, w, who, enc, ct, ad, env, st, r, lost, w')
    requires |w'.parties| == 2 && j < w'.parties[who].epoch && j % 2 != who
    requires Before(seed, w, w.parties[who], j, i)
    ensures Accounted(seed, w', w'.parties[who], j, i)
  {
    hide PartyOk, LogOk, Bounded, Open, Deliverable, Accepts, Hdr, Before;
    var q, q' := w.parties[who], w'.parties[who];
    var o := Open(q.st, enc, ct, ad);
    InvFor(seed, w, who);
    LogOkBounded(seed, w.log);
    Authenticity.OpeningExplained(seed, w.log, who, q, enc, ct, ad);
    match o {
      case Refused(_) =>
        assert q' == q;
        BeforeAccounted(seed, w, q, j, i);
        assert w'.delivered == w.delivered && w.discarded <= w'.discarded;
      case Stored(id, plaintext) =>
        BeforeAccounted(seed, w, q, j, i);
        StoredAccounts(seed, w, w', q, q', id, j, i);
      case Live(h, dhRatchet, plaintext) =>
        LiveIsFresh(q.st, enc, ct, ad);
        var committed, error :| Accepts(q.st, h, dhRatchet, plaintext, env, committed, error, st, r, lost);
        if dhRatchet {
          RatchetAccounts(seed, w, w', who, q, q', env, h, plaintext, committed, error, r, lost, j, i);
        } else {
          BeforeAccounted(seed, w, q, j, i);
          DirectLive(seed, w.log, who, q, env, h, plaintext, committed, error, st, r, lost);
          CurrentHeaderKey(seed, w.log, who, q);
          DirectAccounts(seed, w, w', who, q, q', env, h, plaintext, committed, error, r, lost, j, i);
        }
    }
  }

  lemma BeforeAccounted(seed: Seed, w: World, q: Party, j: nat, i: nat)
    requires Before(seed, w, q, j, i) && j < q.epoch
    ensures Accounted(seed, w, q, j, i)
  {
  }

  lemma DeliverFrame(seed: Seed, w: World, who: nat, enc: Wire, ct: Wire, ad: seq<byte>, env: Env,
                     st: Session, r: Result<seq<byte>, RatchetError>, lost: set<SkipId>, w': World)
    requires Shape(w) && who < 2 && DeliversTo(seed, w, who, enc, ct, ad, env, st, r, lost, w')
    ensures |w'.parties| == 2 && w'.parties[1 - who] == w.parties[1 - who]
    ensures w.delivered <= w'.delivered && w.discarded <= w'.discarded
    ensures w'.log == w.log || w'.log == w.log + [[]]
  {
    hide Decrypts, Open;
  }

  lemma DeliverConserves(seed: Seed, w: World, who: nat, enc: Wire, ct: Wire, ad: seq<byte>, env: Env,
                         st: Session, r: Result<seq<byte>, RatchetError>, lost: set<SkipId>, w': World)
    requires Inv(seed, w) && Shape(w) && Conserved(seed, w) && who < 2 && Deliverable(w.log, enc, ct)
    requires DeliversTo(seed, w, who, enc, ct, ad, env, st, r, lost, w')
    ensures Conserved(seed, w')
  {
    hide Inv, Deliverable, DeliversTo;
    DeliverFrame(seed, w, who, enc, ct, ad, env, st, r, lost, w');
    forall p, j: nat, i: nat | 0 <= p < 2 && j < w'.parties[p].epoch && j < |w'.log| && j % 2 != p && i < |w'.log[j]|
      ensures Accounted(seed, w', w'.parties[p], j, i)
    {
      assert j < |w.log| && i < |w.log[j]|;
      if p == who {
        ReceiverAccounts(seed, w, who, enc, ct, ad, env, st, r, lost, w', j, i);
      } else {
        assert Accounted(seed, w, w.parties[p], j, i);
      }
    }
  }

  lemma StepConserves(seed: Seed, w: World, e: Event, w': World)
    requires Inv(seed, w) && Conserved(seed, w) && Step(seed, w, e, w')
    ensures Conserved(seed, w')
  {
    hide Inv, DeliversTo, Deliverable, Conserved;
    match e {
      case Send(who, plaintext, ad) => SendConserves(seed, w, who, plaintext, ad);
      case Deliver(who, enc, ct, ad, env) =>
        var st, r, lost :| DeliversTo(seed, w, who, enc, ct, ad, env, st, r, lost, w');
        DeliverConserves(seed, w, who, enc, ct, ad, env, st, r, lost, w');
    }
  }

  /** No loss: in every state of every run, each message of the peer is accounted for. */
  lemma {:induction false} RunConserves(seed: Seed, ws: seq<World>, es: seq<Event>, k: nat)
    requires Run(seed, ws, es) && k < |ws|
    ensures Conserved(seed, ws[k])
  {
    hide Inv, Step;
    if k > 0 {
      RunConserves(seed, ws, es, k - 1);
      RunKeepsLockstep(seed, ws, es, k - 1);
      StepConserves(seed, ws[k - 1], es[k - 1], ws[k - 1 + 1]);
    }
  }

  // ---- When keys are thrown away ----

  /** How many keys a live message makes the party enter into its store. */
  function Backlog(log: Log, q: Party, h: RatchetHeader, dhRatchet: bool): int
    requires dhRatchet ==> 0 <= q.epoch + 1 < |log|
  {
    h.n - Position(q.st, dhRatchet) + if dhRatchet then PrevLen(log, q.epoch + 1) - q.st.nr else 0
  }

  lemma AdvanceLosesNothing(s: Session, h: RatchetHeader, times: seq<int>, s': Session, error: Option<RatchetError>,
                            lost: set<SkipId>)
    requires s.ckR.Some? && s.hkR.Some? && s.nr <= h.n <= s.nr + MAX_SKIP
    requires Advances(s, h, times, s', error, lost)
    requires |s.mkskipped| + (h.n - s.nr) <= MAX_SKIPPED_KEYS
    ensures lost == {}
  {
    hide Skips, Iter;
    SkipsSize(s.mkskipped, s.ckR.value, s.hkR.value, s.nr, h.n, times, s'.mkskipped, lost);
  }

  lemma OldChainLosesNothing(s: Session, h: RatchetHeader, times: seq<int>, mid: SkippedMap, lost: set<SkipId>)
    requires StoresOldChain(s, h, times, mid, lost) && OldChainError(s, h).None?
    requires s.ckR.Some? && s.hkR.Some? ==> |s.mkskipped| + (h.pn - s.nr) <= MAX_SKIPPED_KEYS
    ensures lost == {}
    ensures |mid| <= |s.mkskipped| + if s.ckR.Some? && s.hkR.Some? then h.pn - s.nr else 0
  {
    hide Skips, Iter;
    if s.ckR.Some? && s.hkR.Some? {
      SkipsSize(s.mkskipped, s.ckR.value, s.hkR.value, s.nr, h.pn, times, mid, lost);
    }
  }

  lemma RatchetLosesNothing(seed: Seed, log: Log, who: nat, q: Party, env: Env, h: RatchetHeader,
                            committed: Session, error: Option<RatchetError>, lost: set<SkipId>)
    requires Bounded(log) && PartyOk(seed, log, who, q) && q.epoch == |log| - 2
    requires h.n <= MAX_SKIP && h.n < |log[q.epoch + 1]| && h == HeaderAt(seed, log, q.epoch + 1, h.n)
    requires PrevLen(log, q.epoch + 1) - q.st.nr <= MAX_SKIP
    requires |q.st.mkskipped| + Backlog(log, q, h, true) <= MAX_SKIPPED_KEYS
    requires Commits(q.st, h, true, env, committed, error, lost)
    ensures lost == {}
  {
    hide PartyOk, Hdr, StoresOldChain, Advances;
    var mid, l1, l2 :| RatchetsThrough(q.st, h, env, mid, l1, l2, committed, error) && lost == l1 + l2;
    Delivery.OldChainErrorOfSent(seed, log, who, q, h.n);
    CurrentPosition(seed, log, who, q);
    OldChainLosesNothing(q.st, h, env.pnTimes, mid, l1);
    AdvanceLosesNothing(Ratchet(q.st, h, mid, env.secret), h, env.nTimes, committed, error, l2);
  }

  lemma CurrentPosition(seed: Seed, log: Log, who: nat, q: Party)
    requires PartyOk(seed, log, who, q)
    ensures if q.epoch < 1 then q.st.ckR == None && q.st.nr == 0
            else q.st.ckR.Some? && q.st.hkR.Some? && q.st.nr <= |log[q.epoch - 1]|
    ensures q.epoch + 1 < |log| ==> PrevLen(log, q.epoch + 1) == if q.epoch < 1 then 0 else |log[q.epoch - 1]|
  {
    hide StoreOk, SendingOk, Hdr, Root, Chain, Iter;
  }

  /** Below the limits nothing is ever thrown away: a delivery leaves the record of discarded keys as it was when
      there is room for the backlog in the store and, if the message starts a new chain, at most 1000 messages
      of the old one are missing, otherwise fewer than 10000 messages are tracked. */
  lemma NothingDiscardedBelowLimits(seed: Seed, w: World, who: nat, enc: Wire, ct: Wire, ad: seq<byte>, env: Env,
                                    st: Session, r: Result<seq<byte>, RatchetError>, lost: set<SkipId>, w': World)
    requires Inv(seed, w) && Shape(w) && who < 2 && Deliverable(w.log, enc, ct)
    requires DeliversTo(seed, w, who, enc, ct, ad, env, st, r, lost, w')
    requires var q, o := w.parties[who], Open(w.parties[who].st, enc, ct, ad);
             o.Live? ==>
               && (!o.dhRatchet ==> |q.st.received| < 10000)
               && (o.dhRatchet ==> q.epoch + 1 < |w.log| && PrevLen(w.log, q.epoch + 1) - q.st.nr <= 1000)
               && |q.st.mkskipped| + Backlog(w.log, q, o.header, o.dhRatchet) <= 2000
    ensures w'.discarded == w.discarded
  {
    hide PartyOk, LogOk, Bounded, Open, Deliverable, Commits, Accepts, Hdr, DecryptHeader, HeaderAt;
    var q, o := w.parties[who], Open(w.parties[who].st, enc, ct, ad);
    InvFor(seed, w, who);
    LogOkBounded(seed, w.log);
    Authenticity.OpeningExplained(seed, w.log, who, q, enc, ct, ad);
    if o.Live? {
      LiveIsFresh(q.st, enc, ct, ad);
      var committed, error :| Accepts(q.st, o.header, o.dhRatchet, o.plaintext, env, committed, error, st, r, lost);
      CurrentPosition(seed, w.log, who, q);
      Delivery.HeaderFields(seed, w.log, RefOf(q, o).chain, RefOf(q, o).index);
      AcceptsCommits(q.st, o.header, o.dhRatchet, o.plaintext, env, committed, error, st, r, lost);
      if o.dhRatchet {
        RatchetedLive(seed, w.log, who, q, env, o.header, o.plaintext, committed, error, st, r, lost);
        RatchetLosesNothing(seed, w.log, who, q, env, o.header, committed, error, lost);
      } else {
        DirectLive(seed, w.log, who, q, env, o.header, o.plaintext, committed, error, st, r, lost);
        DirectLosesNothing(q.st, o.header, env, committed, error, lost);
      }
    }
  }

  lemma AcceptsCommits(s: Session, h: RatchetHeader, dhRatchet: bool, plaintext: seq<byte>, env: Env,
                       committed: Session, error: Option<RatchetError>,
                       s': Session, r: Result<seq<byte>, RatchetError>, lost: set<SkipId>)
    requires dhRatchet || s.ckR.Some?
    requires Accepts(s, h, dhRatchet, plaintext, env, committed, error, s', r, lost)
    ensures Commits(s, h, dhRatchet, env, committed, error, lost)
    ensures s'.mkskipped == committed.mkskipped
    ensures r.Ok? || r.error == TooManyMessages ==> error.None?
  {
    hide SkipsOrClears, StoresOldChain, Ratchet;
  }

  lemma DirectLosesNothing(s: Session, h: RatchetHeader, env: Env, s': Session, error: Option<RatchetError>,
                           lost: set<SkipId>)
    requires s.ckR.Some? && s.hkR.Some? && s.nr <= h.n <= s.nr + MAX_SKIP
    requires Commits(s, h, false, env, s', error, lost)
    requires |s.mkskipped| + (h.n - s.nr) <= MAX_SKIPPED_KEYS
    ensures lost == {}
  {
    AdvanceLosesNothing(s, h, env.nTimes, s', error, lost);
  }
}
