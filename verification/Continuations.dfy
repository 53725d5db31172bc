/** What can happen next: every call has an outcome, and a run can be continued message by message. */
module Continuations {
  import opened Wrappers
  import opened Bytes
  import opened Keys
  import opened Framing
  import opened SkippedKeys
  import opened RatchetSpec
  import opened Conversation
  import opened Lockstep
  import Authenticity
  import Delivery
  import Conservation
  import Gaps
  import Replays
  import Nonces

  // ---- Every call has an outcome ----

  lemma AdvanceExists(s: Session, h: RatchetHeader, now: int)
    returns (times: seq<int>, s': Session, error: Option<RatchetError>, lost: set<SkipId>)
    requires s.ckR.Some?
    ensures Advances(s, h, times, s', error, lost)
    ensures forall t | t in times :: t == now
  {
    times, lost := [], {};
    var m := s.mkskipped;
    if s.hkR.Some? {
      if SkipError(s.nr, h.n).Some? {
        m, lost := map[], s.mkskipped.Keys;
      } else {
        times := seq(h.n - s.nr, _ => now);
        m, lost := SkipsExists(s.mkskipped, s.ckR.value, s.hkR.value, s.nr, h.n, times);
      }
    }
    if ChainError(s, h).Some? {
      s', error := s.(mkskipped := m), ChainError(s, h);
    } else if s.nr == U32_MAX {
      s', error := s.(mkskipped := m, ckR := Some(CkNext(s.ckR.value))), Some(CounterOverflow);
    } else {
      s', error := s.(mkskipped := m, ckR := Some(CkNext(s.ckR.value)), nr := s.nr + 1), None;
    }
  }

  lemma OldChainExists(s: Session, h: RatchetHeader, now: int)
    returns (times: seq<int>, mid: SkippedMap, lost: set<SkipId>)
    ensures StoresOldChain(s, h, times, mid, lost)
    ensures forall t | t in times :: t == now
  {
    times, mid, lost := [], s.mkskipped, {};
    if s.ckR.Some? && s.hkR.Some? {
      if SkipError(s.nr, h.pn).Some? {
        mid, lost := map[], s.mkskipped.Keys;
      } else {
        times := seq(h.pn - s.nr, _ => now);
        mid, lost := SkipsExists(s.mkskipped, s.ckR.value, s.hkR.value, s.nr, h.pn, times);
      }
    }
  }

  lemma CommitExists(s: Session, h: RatchetHeader, dhRatchet: bool, secret: Bytes32, past: int, now: int)
    returns (env: Env, s': Session, error: Option<RatchetError>, lost: set<SkipId>)
    requires dhRatchet || s.ckR.Some?
    ensures Commits(s, h, dhRatchet, env, s', error, lost)
    ensures env.secret == secret
    ensures (forall t | t in env.pnTimes :: t == past) && (forall t | t in env.nTimes :: t == now)
  {
    hide Advances, StoresOldChain;
    if dhRatchet {
      var pnTimes, mid, lost1 := OldChainExists(s, h, past);
      if OldChainError(s, h).Some? {
        env, s', error, lost := Env(secret, pnTimes, []), s.(mkskipped := mid), OldChainError(s, h), lost1;
        assert RatchetsThrough(s, h, env, mid, lost1, {}, s', error);
        assert lost1 == lost1 + {};
      } else {
        var nTimes, s2, e, lost2 := AdvanceExists(Ratchet(s, h, mid, secret), h, now);
        env, s', error, lost := Env(secret, pnTimes, nTimes), s2, e, lost1 + lost2;
        assert RatchetsThrough(s, h, env, mid, lost1, lost2, s', error);
      }
    } else {
      var nTimes, s2, e, l := AdvanceExists(s, h, now);
      env, s', error, lost := Env(secret, [], nTimes), s2, e, l;
    }
  }

  /** decrypt always returns: every input has an outcome, for every secret and clock. */
  lemma DecryptExists(s: Session, enc: Wire, ct: Wire, ad: seq<byte>, secret: Bytes32, past: int, now: int)
    returns (env: Env, s': Session, r: Result<seq<byte>, RatchetError>, lost: set<SkipId>)
    ensures Decrypts(s, enc, ct, ad, env, s', r, lost)
    ensures r.Ok? ==> !Open(s, enc, ct, ad).Refused?
    ensures env.secret == secret
    ensures (forall t | t in env.pnTimes :: t == past) && (forall t | t in env.nTimes :: t == now)
  {
    env, lost := Env(secret, [], []), {};
    match Open(s, enc, ct, ad) {
      case Refused(e) => s', r := s, Err(e);
      case Stored(id, plaintext) => s', r := s.(mkskipped := s.mkskipped - {id}), Ok(plaintext);
      case Live(h, dhRatchet, plaintext) =>
        LiveHasChain(s, enc, ct, ad);
        var committed, error;
        env, committed, error, lost := CommitExists(s, h, dhRatchet, secret, past, now);
        var id := MsgId(h.dhPub, h.n);
        if error.Some? {
          s', r := committed, Err(error.value);
        } else if |committed.received| >= MAX_RECEIVED_TRACKING {
          s', r := committed, Err(TooManyMessages);
        } else {
          s', r := committed.(received := committed.received + {id}), Ok(plaintext);
        }
        assert Accepts(s, h, dhRatchet, plaintext, env, committed, error, s', r, lost);
    }
  }

  // ---- Continuations ----

  /** ws are the states of a run that goes on from w to w', es the events between them. */
  ghost predicate Continues(seed: Seed, w: World, ws: seq<World>, es: seq<Event>, w': World) {
    && |ws| == |es| + 1
    && ws[0] == w && ws[|es|] == w'
    && forall k | 0 <= k < |es| :: Step(seed, ws[k], es[k], ws[k + 1])
  }

  /** A run can go on from w to w'. */
  ghost predicate Leads(seed: Seed, w: World, w': World) {
    exists ws, es :: Continues(seed, w, ws, es, w')
  }

  lemma LeadsToItself(seed: Seed, w: World)
    ensures Leads(seed, w, w)
  {
    assert Continues(seed, w, [w], [], w);
  }

  lemma LeadsOn(seed: Seed, w: World, w1: World, e: Event, w': World)
    requires Leads(seed, w, w1) && Step(seed, w1, e, w')
    ensures Leads(seed, w, w')
  {
    hide Step;
    var ws, es :| Continues(seed, w, ws, es, w1);
    assert Continues(seed, w, ws + [w'], es + [e], w');
  }

  lemma LeadsFirst(seed: Seed, w: World, e: Event, w1: World, w': World)
    requires Step(seed, w, e, w1) && Leads(seed, w1, w')
    ensures Leads(seed, w, w')
  {
    hide Step;
    var ws, es :| Continues(seed, w1, ws, es, w');
    assert Continues(seed, w, [w] + ws, [e] + es, w');
  }

  lemma LeadsThrough(seed: Seed, w: World, w1: World, w': World)
    requires Leads(seed, w, w1) && Leads(seed, w1, w')
    ensures Leads(seed, w, w')
  {
    hide Step;
    var ws, es :| Continues(seed, w, ws, es, w1);
    var ws', es' :| Continues(seed, w1, ws', es', w');
    var all, events := ws + ws'[1..], es + es';
    forall k | 0 <= k < |events| ensures Step(seed, all[k], events[k], all[k + 1]) {
      if k >= |es| {
        assert Step(seed, ws'[k - |es|], es'[k - |es|], ws'[k - |es| + 1]);
      }
    }
    assert Continues(seed, w, all, events, w');
  }

  // ---- More about reachable states ----

  /** Nothing tracked or stored of the current chain lies MAX_SKIP or more ahead of the position: the message at
      that distance is always still open. */
  ghost predicate InReach(st: Session) {
    && (forall id: MsgId | id in st.received :: id.n < st.nr + MAX_SKIP)
    && (forall id: SkipId | id in st.mkskipped && st.hkR == Some(id.hk) :: id.n < st.nr + MAX_SKIP)
  }

  /** An index goes unused only after its sender has run out of header nonces. */
  ghost predicate NoHoles(w: World)
    requires |w.parties| == 2
  {
    forall j: nat, i: nat | j < |w.log| && i < |w.log[j]| && w.log[j][i].None? ::
      w.parties[j % 2].st.headerNonceCounter == U64_MAX
  }

  /** Only messages of chains the receiver has reached have been delivered. */
  ghost predicate DeliveredBehind(w: World)
    requires |w.parties| == 2
  {
    forall ref: Ref | ref in w.delivered ::
      ref.chain >= 0 && ref.chain < w.parties[1 - ref.chain % 2].epoch && IsSent(w.log, ref.chain, ref.index)
  }

  ghost predicate Reached(seed: Seed, w: World) {
    && Inv(seed, w) && |w.parties| == 2
    && (forall p | 0 <= p < 2 :: InReach(w.parties[p].st))
    && NoHoles(w) && DeliveredBehind(w)
  }

  lemma InitIsReached(seed: Seed, w: World)
    requires Init(seed, w)
    ensures Reached(seed, w)
  {
    InitKeepsLockstep(seed, w);
  }

  lemma SendKeepsReached(seed: Seed, w: World, who: nat, plaintext: seq<byte>, ad: seq<byte>)
    requires Reached(seed, w) && who < 2
    ensures Shape(w) && Reached(seed, AfterSend(w, who, plaintext, ad))
  {
    hide Inv, InReach, SealHeader, SealBody, ConcatAd, NonceBytes;
    SendKeepsLockstep(seed, w, who, plaintext, ad);
    SenderParity(seed, w, who);
    var w' := AfterSend(w, who, plaintext, ad);
    EncryptFrame(w.parties[who].st, plaintext, ad);
    InReachFrame(w.parties[who].st, w'.parties[who].st);
    forall p | 0 <= p < 2 ensures InReach(w'.parties[p].st) {
      assert p == who || p == 1 - who;
    }
  }

  lemma SenderParity(seed: Seed, w: World, who: nat)
    requires Inv(seed, w) && who < 2
    ensures Shape(w) && w.parties[who].epoch % 2 == who
  {
    hide PartyOk, LogOk;
    InvFor(seed, w, who);
    PartyBounds(seed, w.log, who, w.parties[who]);
  }

  lemma InReachFrame(st: Session, st': Session)
    requires InReach(st) && st'.received == st.received && st'.mkskipped == st.mkskipped && st'.hkR == st.hkR
    requires st'.nr == st.nr
    ensures InReach(st')
  {
  }

  /** The receiver's part of Reached after any delivery. */
  lemma DeliveryKeepsInReach(seed: Seed, w: World, who: nat, enc: Wire, ct: Wire, ad: seq<byte>, env: Env,
                             st: Session, r: Result<seq<byte>, RatchetError>, lost: set<SkipId>, w': World)
    requires Inv(seed, w) && Shape(w) && who < 2 && Deliverable(w.log, enc, ct)
    requires DeliversTo(seed, w, who, enc, ct, ad, env, st, r, lost, w')
    requires InReach(w.parties[who].st)
    ensures InReach(st)
    ensures |w'.parties| == 2 && w'.parties[who].st == st
    ensures w.parties[who].epoch <= w'.parties[who].epoch
    ensures r.Ok? ==> !Open(w.parties[who].st, enc, ct, ad).Refused?
                      && RefOf(w.parties[who], Open(w.parties[who].st, enc, ct, ad)).chain < w'.parties[who].epoch
  {
    hide PartyOk, LogOk, Bounded, Open, Deliverable, Accepts, Hdr;
    var q, o := w.parties[who], Open(w.parties[who].st, enc, ct, ad);
    InvFor(seed, w, who);
    LogOkBounded(seed, w.log);
    Authenticity.OpeningExplained(seed, w.log, who, q, enc, ct, ad);
    if o.Live? {
      LiveIsFresh(q.st, enc, ct, ad);
      var committed, error :| Accepts(q.st, o.header, o.dhRatchet, o.plaintext, env, committed, error, st, r, lost);
      if o.dhRatchet {
        RatchetInReach(seed, w.log, who, q, env, o.header, o.plaintext, committed, error, st, r, lost);
      } else {
        DirectInReach(seed, w.log, who, q, env, o.header, o.plaintext, committed, error, st, r, lost);
      }
    }
  }

  lemma DirectInReach(seed: Seed, log: Log, who: nat, q: Party, env: Env, h: RatchetHeader, plaintext: seq<byte>,
                      committed: Session, error: Option<RatchetError>,
                      st: Session, r: Result<seq<byte>, RatchetError>, lost: set<SkipId>)
    requires Bounded(log) && PartyOk(seed, log, who, q) && q.epoch >= 1 && InReach(q.st)
    requires q.st.nr <= h.n <= q.st.nr + MAX_SKIP && h.n < |log[q.epoch - 1]| && h.dhPub == seed.draws(q.epoch)
    requires MsgId(h.dhPub, h.n) !in q.st.received
    requires q.st.ckR.Some? && Accepts(q.st, h, false, plaintext, env, committed, error, st, r, lost)
    ensures InReach(st)
  {
    hide PartyOk, Hdr, Commits;
    DirectLive(seed, log, who, q, env, h, plaintext, committed, error, st, r, lost);
    Conservation.AcceptsCommits(q.st, h, false, plaintext, env, committed, error, st, r, lost);
    Conservation.CurrentHeaderKey(seed, log, who, q);
    forall id: SkipId | id in st.mkskipped && st.hkR == Some(id.hk) ensures id.n < st.nr + MAX_SKIP {
      Replays.DirectEnters(q.st, h, env, committed, error, lost, id);
    }
  }

  lemma RatchetInReach(seed: Seed, log: Log, who: nat, q: Party, env: Env, h: RatchetHeader, plaintext: seq<byte>,
                       committed: Session, error: Option<RatchetError>,
                       st: Session, r: Result<seq<byte>, RatchetError>, lost: set<SkipId>)
    requires Bounded(log) && PartyOk(seed, log, who, q) && q.epoch == |log| - 2 && InReach(q.st)
    requires env.secret == seed.draws(|log| + 1)
    requires h.n <= MAX_SKIP && h.n < |log[q.epoch + 1]| && h == HeaderAt(seed, log, q.epoch + 1, h.n)
    requires Accepts(q.st, h, true, plaintext, env, committed, error, st, r, lost)
    ensures InReach(st) && (r.Ok? ==> OldChainError(q.st, h).None?)
  {
    hide PartyOk, Hdr, Commits, HeaderAt, ChainIndex;
    RatchetedLive(seed, log, who, q, env, h, plaintext, committed, error, st, r, lost);
    Conservation.AcceptsCommits(q.st, h, true, plaintext, env, committed, error, st, r, lost);
    Conservation.CurrentHeaderKey(seed, log, who, q);
    if OldChainError(q.st, h).None? {
      HdrIndex(seed, q.epoch + 1);
      forall id: SkipId | id in committed.mkskipped && st.hkR == Some(id.hk) ensures id.n < h.n {
        Replays.RatchetEnters(q.st, h, env, committed, error, lost, id);
        StoredIsSent(seed, log, who, q, q.epoch + 1, id.n);
        if q.epoch >= 1 {
          HdrIndex(seed, q.epoch - 1);
        } else {
          Conservation.CurrentPosition(seed, log, who, q);
        }
      }
    }
  }

  lemma DeliverKeepsReached(seed: Seed, w: World, who: nat, enc: Wire, ct: Wire, ad: seq<byte>, env: Env,
                            st: Session, r: Result<seq<byte>, RatchetError>, lost: set<SkipId>, w': World)
    requires Reached(seed, w) && Shape(w) && who < 2 && Deliverable(w.log, enc, ct)
    requires DeliversTo(seed, w, who, enc, ct, ad, env, st, r, lost, w')
    ensures Reached(seed, w')
  {
    hide Inv, InReach, Open, Deliverable, Decrypts, RefOf;
    DeliverKeepsLockstep(seed, w, who, enc, ct, ad, env, st, r, lost, w');
    DeliveryKeepsInReach(seed, w, who, enc, ct, ad, env, st, r, lost, w');
    Conservation.DeliverFrame(seed, w, who, enc, ct, ad, env, st, r, lost, w');
    Replays.AcceptsFromPeer(seed, w, who, enc, ct, ad, env, st, r, lost, w');
    Nonces.DecryptKeepsCounter(w.parties[who].st, enc, ct, ad, env, st, r, lost);
    forall p | 0 <= p < 2 ensures InReach(w'.parties[p].st) {
      assert p == who || p == 1 - who;
    }
    hide DeliversTo;
    forall j: nat, i: nat | j < |w'.log| && i < |w'.log[j]| && w'.log[j][i].None?
      ensures w'.parties[j % 2].st.headerNonceCounter == U64_MAX
    {
      assert w.log[j][i].None?;
      assert j % 2 == who || j % 2 == 1 - who;
    }
    forall ref: Ref | ref in w'.delivered
      ensures ref.chain >= 0 && ref.chain < w'.parties[1 - ref.chain % 2].epoch && IsSent(w'.log, ref.chain, ref.index)
    {
      assert 1 - ref.chain % 2 == who || 1 - ref.chain % 2 == 1 - who;
    }
  }

  lemma StepKeepsReached(seed: Seed, w: World, e: Event, w': World)
    requires Reached(seed, w) && Step(seed, w, e, w')
    ensures Reached(seed, w')
  {
    hide Inv, InReach, NoHoles, DeliveredBehind, DeliversTo, Deliverable;
    match e {
      case Send(who, plaintext, ad) => SendKeepsReached(seed, w, who, plaintext, ad);
      case Deliver(who, enc, ct, ad, env) =>
        var st, r, lost :| DeliversTo(seed, w, who, enc, ct, ad, env, st, r, lost, w');
        DeliverKeepsReached(seed, w, who, enc, ct, ad, env, st, r, lost, w');
    }
  }

  /** In every state of every run. */
  lemma {:induction false} RunIsReached(seed: Seed, ws: seq<World>, es: seq<Event>, k: nat)
    requires Run(seed, ws, es) && k < |ws|
    ensures Reached(seed, ws[k])
  {
    hide Reached, Step, Init;
    if k == 0 {
      InitIsReached(seed, ws[0]);
    } else {
      RunIsReached(seed, ws, es, k - 1);
      StepKeepsReached(seed, ws[k - 1], es[k - 1], ws[k - 1 + 1]);
    }
  }

  // ---- Making steps ----

  /** The key of message i of chain j is in the store. */
  predicate HasKey(seed: Seed, q: Party, j: nat, i: int) {
    SkipId(Hdr(seed, j), i) in q.st.mkskipped
  }

  /** One more message on the wire. */
  lemma SendAppends(seed: Seed, w: World, who: nat, plaintext: seq<byte>) returns (w': World)
    requires Reached(seed, w) && who < 2 && w.parties[who].epoch >= 0
    requires w.parties[who].st.ns < U32_MAX && w.parties[who].st.headerNonceCounter < U64_MAX
    ensures Step(seed, w, Send(who, plaintext, []), w') && Reached(seed, w')
    ensures var q, q' := w.parties[who], w'.parties[who];
            && q' == q.(st := q.st.(ckS := q'.st.ckS, ns := q.st.ns + 1,
                                    headerNonceCounter := q.st.headerNonceCounter + 1))
            && q.epoch < |w.log|
            && exists m :: w'.log == Appended(w.log, q.epoch, Some(m))
    ensures w'.parties[1 - who] == w.parties[1 - who] && w'.delivered == w.delivered
  {
    hide PartyOk, LogOk, Encrypt, InReach, NoHoles, DeliveredBehind;
    InvFor(seed, w, who);
    w' := AfterSend(w, who, plaintext, []);
    SendKeepsReached(seed, w, who, plaintext, []);
    SendingFields(seed, w.log, who, w.parties[who]);
    EncryptSucceeds(w.parties[who].st, plaintext);
    EncryptFrame(w.parties[who].st, plaintext, []);
    var e := w.parties[who].epoch;
    assert w'.log == Appended(w.log, e, Some(w'.log[e][|w.log[e]|].value));
  }

  lemma EncryptSucceeds(s: Session, plaintext: seq<byte>)
    requires s.ckS.Some? && s.hkS.Some? && s.dhRemote.Some? && s.ns < U32_MAX && s.headerNonceCounter < U64_MAX
    ensures var (s', r) := Encrypt(s, plaintext, []);
            r.Ok? && s'.ns == s.ns + 1 && s'.headerNonceCounter == s.headerNonceCounter + 1
  {
  }

  lemma SendingFields(seed: Seed, log: Log, who: nat, q: Party)
    requires PartyOk(seed, log, who, q) && q.epoch >= 0
    ensures q.st.ckS.Some? && q.st.hkS.Some? && q.st.dhRemote.Some?
  {
    hide StoreOk, ReceivingOk, Hdr, Root, Chain, Iter;
  }

  lemma {:induction false} ClockAhead(m: SkippedMap, ids: set<SkipId>) returns (now: int)
    requires ids <= m.Keys
    ensures forall id: SkipId | id in ids :: m[id].timestamp < now
  {
    if ids == {} {
      now := 0;
    } else {
      var id :| id in ids;
      now := ClockAhead(m, ids - {id});
      if now <= m[id].timestamp {
        now := m[id].timestamp + 1;
      }
    }
  }

  /** Delivering a message that was sent, with a clock that has moved on. */
  lemma DeliverSent(seed: Seed, w: World, who: nat, j: nat, i: nat)
    returns (e: Event, st: Session, r: Result<seq<byte>, RatchetError>, lost: set<SkipId>, w': World)
    requires Reached(seed, w) && who < 2 && IsSent(w.log, j, i)
    ensures Shape(w) && Step(seed, w, e, w') && Reached(seed, w')
    ensures var m := w.log[j][i].value;
            && e.Deliver? && e.who == who && e.encHeader == m.encHeader && e.ciphertext == m.ciphertext && e.ad == m.ad
            && Deliverable(w.log, m.encHeader, m.ciphertext)
            && DeliversTo(seed, w, who, m.encHeader, m.ciphertext, m.ad, e.env, st, r, lost, w')
            && Gaps.ClockMovedOn(w.parties[who].st, e.env)
  {
    hide PartyOk, LogOk, Open, Decrypts, Deliverable, RefOf, InReach, NoHoles, DeliveredBehind;
    InvFor(seed, w, who);
    var m := w.log[j][i].value;
    var now := ClockAhead(w.parties[who].st.mkskipped, w.parties[who].st.mkskipped.Keys);
    Delivery.SentIsDeliverable(seed, w.log, j, i);
    var env;
    env, st, r, lost := DecryptExists(w.parties[who].st, m.encHeader, m.ciphertext, m.ad, seed.draws(|w.log| + 1),
                                      now, now + 1);
    w' := AfterDeliver(w, who, Open(w.parties[who].st, m.encHeader, m.ciphertext, m.ad), st, r, lost);
    e := Deliver(who, m.encHeader, m.ciphertext, m.ad, env);
    assert DeliversTo(seed, w, who, m.encHeader, m.ciphertext, m.ad, env, st, r, lost, w');
    assert forall k: nat | k < |env.pnTimes| :: env.pnTimes[k] in env.pnTimes;
    assert forall k: nat | k < |env.nTimes| :: env.nTimes[k] in env.nTimes;
    hide Inv;
    DeliverKeepsReached(seed, w, who, m.encHeader, m.ciphertext, m.ad, env, st, r, lost, w');
  }

  /** Event e delivers something to p in state w, decrypt returns r, and w' is the state afterwards. */
  ghost predicate Returns(seed: Seed, w: World, e: Event, p: nat, r: Result<seq<byte>, RatchetError>, w': World) {
    && Shape(w) && p < 2 && e.Deliver? && e.who == p
    && exists st, lost :: DeliversTo(seed, w, p, e.encHeader, e.ciphertext, e.ad, e.env, st, r, lost, w')
  }

  ghost predicate HasKeys(seed: Seed, q: Party, j: nat, from: nat, until: nat) {
    forall i: nat | from <= i < until :: HasKey(seed, q, j, i)
  }

  /** Delivering a message of the current chain that is within reach and neither stored nor tracked. */
  lemma DirectDelivery(seed: Seed, w: World, p: nat, n: nat)
    returns (e: Event, r: Result<seq<byte>, RatchetError>, w': World)
    requires Reached(seed, w) && p < 2 && w.parties[p].epoch >= 1 && IsSent(w.log, w.parties[p].epoch - 1, n)
    requires var q := w.parties[p];
             && q.st.nr <= n <= q.st.nr + MAX_SKIP <= U32_MAX
             && !HasKey(seed, q, q.epoch - 1, n)
             && MsgId(seed.draws(q.epoch), n) !in q.st.received
    ensures Step(seed, w, e, w') && Returns(seed, w, e, p, r, w') && Reached(seed, w')
    ensures w'.log == w.log && w'.parties[1 - p] == w.parties[1 - p]
    ensures var q, q' := w.parties[p], w'.parties[p];
            && q'.epoch == q.epoch && q'.st.nr == q.st.nr + 1
            && HasKeys(seed, q', q.epoch - 1, q.st.nr, n)
            && q'.st.received == (if |q.st.received| < MAX_RECEIVED_TRACKING
                                  then q.st.received + {MsgId(seed.draws(q.epoch), n)} else q.st.received)
            && w'.delivered == (if |q.st.received| < MAX_RECEIVED_TRACKING
                                then w.delivered + multiset{Ref(q.epoch - 1, n)} else w.delivered)
            && (|q.st.received| >= MAX_RECEIVED_TRACKING ==> r == Err(TooManyMessages))
  {
    hide PartyOk, LogOk, Bounded, Open, Accepts, Hdr, HeaderAt, Deliverable, ConcatAd, InReach, NoHoles,
         DeliveredBehind, Gaps.ClockMovedOn, Step;
    var q := w.parties[p];
    InvFor(seed, w, p);
    LogOkBounded(seed, w.log);
    var m := w.log[q.epoch - 1][n].value;
    var st, lost;
    e, st, r, lost, w' := DeliverSent(seed, w, p, q.epoch - 1, n);
    Delivery.OpeningOfSent(seed, w.log, p, q, q.epoch - 1, n);
    Delivery.HeaderFields(seed, w.log, q.epoch - 1, n);
    var h := HeaderAt(seed, w.log, q.epoch - 1, n);
    assert Open(q.st, m.encHeader, m.ciphertext, m.ad) == Live(h, false, m.plaintext);
    LiveHasChain(q.st, m.encHeader, m.ciphertext, m.ad);
    var committed, error :| Accepts(q.st, h, false, m.plaintext, e.env, committed, error, st, r, lost);
    DirectLive(seed, w.log, p, q, e.env, h, m.plaintext, committed, error, st, r, lost);
    RatchetsWhen(q.st, Open(q.st, m.encHeader, m.ciphertext, m.ad));
    var c: nat := q.epoch - 1;
    forall i: nat | q.st.nr <= i < n ensures HasKey(seed, w'.parties[p], c, i) {
      Gaps.GapsAreRecoverable(seed, w, p, m.encHeader, m.ciphertext, m.ad, e.env, st, r, lost, w', i);
    }
  }

  lemma RatchetsWhen(st: Session, o: Opening)
    requires o.Live?
    ensures Ratchets(st, o) <==> o.dhRatchet && OldChainError(st, o.header).None?
  {
  }

  /** Delivering a message of the next chain: with at most MAX_SKIP messages of the old chain missing the party enters
      the next epoch, and if the message is the first of its chain the keys of all the missing ones are stored;
      otherwise the party loses its store. */
  lemma RatchetDelivery(seed: Seed, w: World, p: nat, n: nat)
    returns (e: Event, r: Result<seq<byte>, RatchetError>, w': World)
    requires Reached(seed, w) && p < 2 && w.parties[p].epoch == |w.log| - 2 && IsSent(w.log, w.parties[p].epoch + 1, n)
    requires n <= MAX_SKIP && MsgId(seed.draws(w.parties[p].epoch + 2), n) !in w.parties[p].st.received
    ensures Step(seed, w, e, w') && Returns(seed, w, e, p, r, w') && Reached(seed, w')
    ensures w'.parties[1 - p] == w.parties[1 - p]
    ensures w'.parties[p].st.headerNonceCounter == w.parties[p].st.headerNonceCounter
    ensures var q, q' := w.parties[p], w'.parties[p];
            if PrevLen(w.log, q.epoch + 1) - q.st.nr <= MAX_SKIP then
              && r.Ok? && w'.log == w.log + [[]] && q'.epoch == q.epoch + 2
              && q'.st.nr == 1 && q'.st.received == {MsgId(seed.draws(q.epoch + 2), n)}
              && HasKeys(seed, q', q.epoch + 1, 0, n)
              && w'.delivered == w.delivered + multiset{Ref(q.epoch + 1, n)}
            else
              && r == Err(OldMessageKeysLimitReached) && w'.log == w.log && w'.delivered == w.delivered
              && q' == q.(st := q.st.(mkskipped := map[]))
    ensures var q, q' := w.parties[p], w'.parties[p];
            n == 0 && q.epoch >= 1 && |w.log[q.epoch - 1]| - q.st.nr <= MAX_SKIP ==>
              HasKeys(seed, q', q.epoch - 1, q.st.nr, |w.log[q.epoch - 1]|)
  {
    hide PartyOk, LogOk, Bounded, Open, Accepts, Hdr, HeaderAt, Deliverable, ConcatAd, InReach, NoHoles,
         DeliveredBehind, Gaps.ClockMovedOn, Step;
    var q := w.parties[p];
    InvFor(seed, w, p);
    LogOkBounded(seed, w.log);
    var m := w.log[q.epoch + 1][n].value;
    var st, lost;
    e, st, r, lost, w' := DeliverSent(seed, w, p, q.epoch + 1, n);
    StoredIsSent(seed, w.log, p, q, q.epoch + 1, n);
    Nonces.DecryptKeepsCounter(q.st, m.encHeader, m.ciphertext, m.ad, e.env, st, r, lost);
    Delivery.OpeningOfSent(seed, w.log, p, q, q.epoch + 1, n);
    Delivery.HeaderFields(seed, w.log, q.epoch + 1, n);
    var h := HeaderAt(seed, w.log, q.epoch + 1, n);
    assert Open(q.st, m.encHeader, m.ciphertext, m.ad) == Live(h, true, m.plaintext);
    var committed, error :| Accepts(q.st, h, true, m.plaintext, e.env, committed, error, st, r, lost);
    RatchetedLive(seed, w.log, p, q, e.env, h, m.plaintext, committed, error, st, r, lost);
    Delivery.OldChainErrorOfSent(seed, w.log, p, q, n);
    RatchetsWhen(q.st, Open(q.st, m.encHeader, m.ciphertext, m.ad));
    Conservation.CurrentPosition(seed, w.log, p, q);
    if PrevLen(w.log, q.epoch + 1) - q.st.nr <= MAX_SKIP {
      var next: nat := q.epoch + 1;
      forall i: nat | i < n ensures HasKey(seed, w'.parties[p], next, i) {
        Gaps.GapsAreRecoverable(seed, w, p, m.encHeader, m.ciphertext, m.ad, e.env, st, r, lost, w', i);
      }
      if n == 0 && q.epoch >= 1 {
        var c: nat := q.epoch - 1;
        forall i: nat | q.st.nr <= i < |w.log[c]| ensures HasKey(seed, w'.parties[p], c, i)
        {
          Gaps.TailIsRecoverable(seed, w, p, m.encHeader, m.ciphertext, m.ad, e.env, st, r, lost, w', i);
        }
      }
    }
  }

  /** Delivering a message whose key is stored. */
  lemma StoredDelivery(seed: Seed, w: World, p: nat, j: nat, i: nat) returns (e: Event, w': World)
    requires Reached(seed, w) && p < 2 && IsSent(w.log, j, i) && HasKey(seed, w.parties[p], j, i)
    ensures Step(seed, w, e, w') && e.who == p && Reached(seed, w')
    ensures w'.log == w.log && w'.parties[1 - p] == w.parties[1 - p]
    ensures w'.delivered == w.delivered + multiset{Ref(j, i)}
    ensures var q, q' := w.parties[p], w'.parties[p];
            q' == q.(st := q.st.(mkskipped := q.st.mkskipped - {SkipId(Hdr(seed, j), i)}))
  {
    hide PartyOk, LogOk, Bounded, Open, Accepts, Hdr, HeaderAt, Deliverable, ConcatAd, InReach, NoHoles,
         DeliveredBehind, Gaps.ClockMovedOn, Step;
    var q := w.parties[p];
    InvFor(seed, w, p);
    LogOkBounded(seed, w.log);
    var m := w.log[j][i].value;
    var st, r, lost;
    e, st, r, lost, w' := DeliverSent(seed, w, p, j, i);
    Delivery.OpeningOfSent(seed, w.log, p, q, j, i);
    HdrIndex(seed, j);
  }
}
