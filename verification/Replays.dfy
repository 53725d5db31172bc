/**
 Replays: exactly which messages can be accepted again.

 A commit that skips ahead advances the receiving chain by one step only, so the keys of messages at or beyond the
 position, delivered ones included, are in the store or will be derived again.
 */
module Replays {
  import opened Wrappers
  import opened Bytes
  import opened Keys
  import opened Framing
  import opened SkippedKeys
  import opened RatchetSpec
  import opened Conversation
  import opened Lockstep
  import opened Conservation
  import Authenticity
  import Delivery

  // ---- What is finished stays finished ----

  /** The receiver has left message ref behind: its key is neither stored nor ahead. */
  ghost predicate Finished(seed: Seed, q: Party, ref: Ref)
    requires ref.chain >= 0
  {
    && ref.chain < q.epoch
    && SkipId(Hdr(seed, ref.chain), ref.index) !in q.st.mkskipped
    && (ref.chain == q.epoch - 1 ==> ref.index < q.st.nr)
  }

  /** A message of the current chain enters nothing but the keys of the messages it overtakes. */
  lemma DirectEnters(s: Session, h: RatchetHeader, env: Env, s': Session, error: Option<RatchetError>,
                     lost: set<SkipId>, id: SkipId)
    requires s.ckR.Some? && s.hkR.Some? && Commits(s, h, false, env, s', error, lost) && error.None?
    requires id in s'.mkskipped
    ensures id in s.mkskipped || InRange(id, s.hkR.value, s.nr, h.n)
  {
    hide Skips, Iter;
    SkipsContentsAt(s.mkskipped, s.ckR.value, s.hkR.value, s.nr, h.n, env.nTimes, s'.mkskipped, lost, id);
  }

  /** A message of the next chain enters the tail of the old one besides. */
  lemma RatchetEnters(s: Session, h: RatchetHeader, env: Env, s': Session, error: Option<RatchetError>,
                      lost: set<SkipId>, id: SkipId)
    requires Commits(s, h, true, env, s', error, lost) && error.None?
    requires id in s'.mkskipped
    ensures || id in s.mkskipped || InRange(id, s.nhkR, 0, h.n)
            || (s.ckR.Some? && s.hkR.Some? && InRange(id, s.hkR.value, s.nr, h.pn))
  {
    hide Skips, Iter, SkipsOrClears, StoresOldChain;
    var mid, l1, l2 :| RatchetsThrough(s, h, env, mid, l1, l2, s', error) && lost == l1 + l2;
    DirectEnters(Ratchet(s, h, mid, env.secret), h, env, s', error, l2, id);
    if id in mid {
      OldChainEnters(s, h, env.pnTimes, mid, l1, id);
    }
  }

  lemma OldChainEnters(s: Session, h: RatchetHeader, times: seq<int>, mid: SkippedMap, lost: set<SkipId>, id: SkipId)
    requires StoresOldChain(s, h, times, mid, lost) && OldChainError(s, h).None?
    requires id in mid
    ensures id in s.mkskipped || (s.ckR.Some? && s.hkR.Some? && InRange(id, s.hkR.value, s.nr, h.pn))
  {
    hide Skips, Iter;
    if s.ckR.Some? && s.hkR.Some? {
      SkipsContentsAt(s.mkskipped, s.ckR.value, s.hkR.value, s.nr, h.pn, times, mid, lost, id);
    }
  }

  lemma DirectKeepsFinished(seed: Seed, log: Log, who: nat, q: Party, env: Env, h: RatchetHeader, plaintext: seq<byte>,
                            committed: Session, error: Option<RatchetError>,
                            st: Session, r: Result<seq<byte>, RatchetError>, lost: set<SkipId>, ref: Ref)
    requires Bounded(log) && PartyOk(seed, log, who, q) && q.epoch >= 1
    requires q.st.nr <= h.n <= q.st.nr + MAX_SKIP && h.n < |log[q.epoch - 1]| && h.dhPub == seed.draws(q.epoch)
    requires MsgId(h.dhPub, h.n) !in q.st.received
    requires q.st.ckR.Some? && Accepts(q.st, h, false, plaintext, env, committed, error, st, r, lost)
    requires ref.chain >= 0 && Finished(seed, q, ref)
    ensures Finished(seed, q.(st := st), ref) && ref != Ref(q.epoch - 1, h.n)
  {
    hide PartyOk, Hdr, Commits;
    DirectLive(seed, log, who, q, env, h, plaintext, committed, error, st, r, lost);
    AcceptsCommits(q.st, h, false, plaintext, env, committed, error, st, r, lost);
    CurrentHeaderKey(seed, log, who, q);
    HdrIndex(seed, ref.chain);
    HdrIndex(seed, q.epoch - 1);
    var id := SkipId(Hdr(seed, ref.chain), ref.index);
    if id in committed.mkskipped {
      DirectEnters(q.st, h, env, committed, error, lost, id);
    }
  }

  lemma RatchetKeepsFinished(seed: Seed, log: Log, who: nat, q: Party, env: Env, h: RatchetHeader,
                             plaintext: seq<byte>, committed: Session, error: Option<RatchetError>,
                             st: Session, r: Result<seq<byte>, RatchetError>, lost: set<SkipId>, ref: Ref)
    requires Bounded(log) && PartyOk(seed, log, who, q) && q.epoch == |log| - 2
    requires env.secret == seed.draws(|log| + 1)
    requires h.n <= MAX_SKIP && h.n < |log[q.epoch + 1]| && h == HeaderAt(seed, log, q.epoch + 1, h.n)
    requires Accepts(q.st, h, true, plaintext, env, committed, error, st, r, lost)
    requires ref.chain >= 0 && Finished(seed, q, ref)
    ensures Finished(seed, Party(st, if OldChainError(q.st, h).None? then q.epoch + 2 else q.epoch), ref)
  {
    hide PartyOk, Hdr, Commits, HeaderAt;
    RatchetedLive(seed, log, who, q, env, h, plaintext, committed, error, st, r, lost);
    AcceptsCommits(q.st, h, true, plaintext, env, committed, error, st, r, lost);
    CurrentHeaderKey(seed, log, who, q);
    HdrIndex(seed, ref.chain);
    HdrIndex(seed, q.epoch + 1);
    var id := SkipId(Hdr(seed, ref.chain), ref.index);
    if OldChainError(q.st, h).None? && id in committed.mkskipped {
      RatchetEnters(q.st, h, env, committed, error, lost, id);
      if q.epoch >= 1 {
        HdrIndex(seed, q.epoch - 1);
      }
    }
  }

  lemma StoredKeepsFinished(seed: Seed, log: Log, who: nat, q: Party, id: SkipId, ref: Ref)
    requires PartyOk(seed, log, who, q) && id in q.st.mkskipped
    requires ref.chain >= 0 && Finished(seed, q, ref)
    ensures Finished(seed, q.(st := q.st.(mkskipped := q.st.mkskipped - {id})), ref)
    ensures ref != Ref(ChainIndex(id.hk), id.n)
  {
    hide KeysOk, SendingOk, ReceivingOk, MsgKey;
    assert EntryOk(seed, log, q.epoch, id, q.st.mkskipped[id].mk);
  }

  lemma StoredIsHeld(s: Session, enc: Wire, ct: Wire, ad: seq<byte>)
    requires Open(s, enc, ct, ad).Stored?
    ensures Open(s, enc, ct, ad).id in s.mkskipped
  {
  }

  /** Whatever is delivered to a party, in whatever order, a finished message stays finished and is not the one
      accepted. */
  lemma DeliveryKeepsFinished(seed: Seed, w: World, who: nat, enc: Wire, ct: Wire, ad: seq<byte>, env: Env,
                              st: Session, r: Result<seq<byte>, RatchetError>, lost: set<SkipId>, w': World, ref: Ref)
    requires Inv(seed, w) && Shape(w) && who < 2 && Deliverable(w.log, enc, ct)
    requires DeliversTo(seed, w, who, enc, ct, ad, env, st, r, lost, w')
    requires ref.chain >= 0 && Finished(seed, w.parties[who], ref)
    ensures |w'.parties| == 2 && Finished(seed, w'.parties[who], ref)
    ensures r.Ok? ==> RefOf(w.parties[who], Open(w.parties[who].st, enc, ct, ad)) != ref
  {
    hide PartyOk, LogOk, Bounded, Open, Deliverable, Accepts, Hdr, Finished;
    var q, o := w.parties[who], Open(w.parties[who].st, enc, ct, ad);
    InvFor(seed, w, who);
    LogOkBounded(seed, w.log);
    Authenticity.OpeningExplained(seed, w.log, who, q, enc, ct, ad);
    match o {
      case Refused(_) =>
        assert w'.parties[who] == q;
      case Stored(id, plaintext) =>
        StoredIsHeld(q.st, enc, ct, ad);
        StoredKeepsFinished(seed, w.log, who, q, id, ref);
        assert w'.parties[who] == q.(st := q.st.(mkskipped := q.st.mkskipped - {id}));
      case Live(h, dhRatchet, plaintext) =>
        LiveIsFresh(q.st, enc, ct, ad);
        var committed, error :| Accepts(q.st, h, dhRatchet, plaintext, env, committed, error, st, r, lost);
        if dhRatchet {
          RatchetKeepsFinished(seed, w.log, who, q, env, h, plaintext, committed, error, st, r, lost, ref);
          FinishedIsBehind(seed, q, ref);
        } else {
          DirectKeepsFinished(seed, w.log, who, q, env, h, plaintext, committed, error, st, r, lost, ref);
        }
    }
  }

  lemma FinishedIsBehind(seed: Seed, q: Party, ref: Ref)
    requires ref.chain >= 0 && Finished(seed, q, ref)
    ensures ref.chain < q.epoch
  {
  }

  lemma SendKeepsFinished(seed: Seed, w: World, who: nat, plaintext: seq<byte>, ad: seq<byte>, p: nat, ref: Ref)
    requires Shape(w) && who < 2 && p < 2 && ref.chain >= 0 && Finished(seed, w.parties[p], ref)
    ensures |AfterSend(w, who, plaintext, ad).parties| == 2
    ensures Finished(seed, AfterSend(w, who, plaintext, ad).parties[p], ref)
  {
    hide Hdr, Encrypt;
    EncryptFrame(w.parties[who].st, plaintext, ad);
  }

  /** One step, by anyone, keeps a message its receiver p has finished, and does not deliver it. */
  lemma StepKeepsFinished(seed: Seed, w: World, e: Event, w': World, p: nat, ref: Ref)
    requires Inv(seed, w) && Step(seed, w, e, w')
    requires p < 2 && ref.chain >= 0 && ref.chain % 2 != p && Finished(seed, w.parties[p], ref)
    ensures |w'.parties| == 2 && Finished(seed, w'.parties[p], ref)
    ensures w'.delivered[ref] == w.delivered[ref]
  {
    hide Inv, DeliversTo, Deliverable, Finished, Encrypt;
    match e {
      case Send(who, plaintext, ad) => SendKeepsFinished(seed, w, who, plaintext, ad, p, ref);
      case Deliver(who, enc, ct, ad, env) =>
        var st, r, lost :| DeliversTo(seed, w, who, enc, ct, ad, env, st, r, lost, w');
        DeliverFrame(seed, w, who, enc, ct, ad, env, st, r, lost, w');
        if who == p {
          DeliveryKeepsFinished(seed, w, who, enc, ct, ad, env, st, r, lost, w', ref);
        }
        AcceptsFromPeer(seed, w, who, enc, ct, ad, env, st, r, lost, w');
    }
  }

  /** What a delivery records: at most one more acceptance, of a message of the peer. */
  lemma AcceptsFromPeer(seed: Seed, w: World, who: nat, enc: Wire, ct: Wire, ad: seq<byte>, env: Env,
                        st: Session, r: Result<seq<byte>, RatchetError>, lost: set<SkipId>, w': World)
    requires Inv(seed, w) && Shape(w) && who < 2 && Deliverable(w.log, enc, ct)
    requires DeliversTo(seed, w, who, enc, ct, ad, env, st, r, lost, w')
    ensures var q, o := w.parties[who], Open(w.parties[who].st, enc, ct, ad);
            if r.Ok? then
              && !o.Refused? && RefOf(q, o).chain >= 0 && RefOf(q, o).chain % 2 != who
              && IsSent(w.log, RefOf(q, o).chain, RefOf(q, o).index)
              && w'.delivered == w.delivered + multiset{RefOf(q, o)}
            else w'.delivered == w.delivered
  {
    hide PartyOk, LogOk, Open, Deliverable, Decrypts;
    InvFor(seed, w, who);
    LogOkBounded(seed, w.log);
    Authenticity.OpeningExplained(seed, w.log, who, w.parties[who], enc, ct, ad);
  }

  // ---- At most once ----

  /** The acceptance of a message leaves it behind: it was at the very position of its chain, or it came from the
      store and belongs to an older chain or lies behind the position. */
  predicate Finishing(q: Party, o: Opening)
    requires !o.Refused?
  {
    match o
    case Stored(id, _) => ChainIndex(id.hk) == q.epoch - 1 ==> id.n < q.st.nr
    case Live(h, dhRatchet, _) => h.n == Position(q.st, dhRatchet)
  }

  lemma LiveIsNotStored(seed: Seed, log: Log, who: nat, q: Party, enc: Wire, ct: Wire, ad: seq<byte>)
    requires LogOk(seed, log) && PartyOk(seed, log, who, q) && Deliverable(log, enc, ct)
    requires Open(q.st, enc, ct, ad).Live?
    ensures RefOf(q, Open(q.st, enc, ct, ad)).chain >= 0
    ensures var ref := RefOf(q, Open(q.st, enc, ct, ad)); SkipId(Hdr(seed, ref.chain), ref.index) !in q.st.mkskipped
  {
    hide PartyOk, LogOk, Deliverable, Open, Hdr, Bounded, HeaderAt;
    Authenticity.OpeningExplained(seed, log, who, q, enc, ct, ad);
    var ref := RefOf(q, Open(q.st, enc, ct, ad));
    LogOkBounded(seed, log);
    Delivery.OpeningOfSent(seed, log, who, q, ref.chain, ref.index);
  }

  /** An accepted message is finished exactly when its acceptance was Finishing. */
  lemma AcceptanceFinishes(seed: Seed, w: World, who: nat, enc: Wire, ct: Wire, ad: seq<byte>, env: Env,
                           st: Session, r: Result<seq<byte>, RatchetError>, lost: set<SkipId>, w': World)
    requires Inv(seed, w) && Shape(w) && who < 2 && Deliverable(w.log, enc, ct)
    requires DeliversTo(seed, w, who, enc, ct, ad, env, st, r, lost, w') && r.Ok?
    ensures |w'.parties| == 2
    ensures var q, o := w.parties[who], Open(w.parties[who].st, enc, ct, ad);
            && !o.Refused? && RefOf(q, o).chain >= 0
            && (Finished(seed, w'.parties[who], RefOf(q, o)) <==> Finishing(q, o))
  {
    hide PartyOk, LogOk, Bounded, Open, Deliverable, Accepts, Hdr;
    var q, o := w.parties[who], Open(w.parties[who].st, enc, ct, ad);
    InvFor(seed, w, who);
    LogOkBounded(seed, w.log);
    Authenticity.OpeningExplained(seed, w.log, who, q, enc, ct, ad);
    var ref := RefOf(q, o);
    match o {
      case Stored(id, plaintext) =>
        assert w'.parties[who] == q.(st := q.st.(mkskipped := q.st.mkskipped - {id}));
      case Live(h, dhRatchet, plaintext) =>
        LiveIsFresh(q.st, enc, ct, ad);
        LiveIsNotStored(seed, w.log, who, q, enc, ct, ad);
        var committed, error :| Accepts(q.st, h, dhRatchet, plaintext, env, committed, error, st, r, lost);
        if dhRatchet {
          RatchetNotEntered(seed, w.log, who, q, env, h, plaintext, committed, error, st, r, lost);
        } else {
          DirectNotEntered(seed, w.log, who, q, env, h, plaintext, committed, error, st, r, lost);
        }
    }
  }

  lemma DirectNotEntered(seed: Seed, log: Log, who: nat, q: Party, env: Env, h: RatchetHeader, plaintext: seq<byte>,
                         committed: Session, error: Option<RatchetError>,
                         st: Session, r: Result<seq<byte>, RatchetError>, lost: set<SkipId>)
    requires Bounded(log) && PartyOk(seed, log, who, q) && q.epoch >= 1
    requires q.st.nr <= h.n <= q.st.nr + MAX_SKIP && h.n < |log[q.epoch - 1]| && h.dhPub == seed.draws(q.epoch)
    requires MsgId(h.dhPub, h.n) !in q.st.received && SkipId(Hdr(seed, q.epoch - 1), h.n) !in q.st.mkskipped
    requires q.st.ckR.Some? && Accepts(q.st, h, false, plaintext, env, committed, error, st, r, lost) && r.Ok?
    ensures SkipId(Hdr(seed, q.epoch - 1), h.n) !in st.mkskipped && st.nr == q.st.nr + 1
  {
    hide PartyOk, Hdr, Commits;
    DirectLive(seed, log, who, q, env, h, plaintext, committed, error, st, r, lost);
    AcceptsCommits(q.st, h, false, plaintext, env, committed, error, st, r, lost);
    CurrentHeaderKey(seed, log, who, q);
    var id := SkipId(Hdr(seed, q.epoch - 1), h.n);
    if id in committed.mkskipped {
      DirectEnters(q.st, h, env, committed, error, lost, id);
    }
  }

  lemma RatchetNotEntered(seed: Seed, log: Log, who: nat, q: Party, env: Env, h: RatchetHeader, plaintext: seq<byte>,
                          committed: Session, error: Option<RatchetError>,
                          st: Session, r: Result<seq<byte>, RatchetError>, lost: set<SkipId>)
    requires Bounded(log) && PartyOk(seed, log, who, q) && q.epoch == |log| - 2
    requires env.secret == seed.draws(|log| + 1)
    requires h.n <= MAX_SKIP && h.n < |log[q.epoch + 1]| && h == HeaderAt(seed, log, q.epoch + 1, h.n)
    requires SkipId(Hdr(seed, q.epoch + 1), h.n) !in q.st.mkskipped
    requires Accepts(q.st, h, true, plaintext, env, committed, error, st, r, lost) && r.Ok?
    ensures SkipId(Hdr(seed, q.epoch + 1), h.n) !in st.mkskipped && st.nr == 1 && OldChainError(q.st, h).None?
  {
    hide PartyOk, Hdr, Commits, HeaderAt;
    RatchetedLive(seed, log, who, q, env, h, plaintext, committed, error, st, r, lost);
    AcceptsCommits(q.st, h, true, plaintext, env, committed, error, st, r, lost);
    CurrentHeaderKey(seed, log, who, q);
    HdrIndex(seed, q.epoch + 1);
    var id := SkipId(Hdr(seed, q.epoch + 1), h.n);
    if id in committed.mkskipped {
      RatchetEnters(q.st, h, env, committed, error, lost, id);
      if q.epoch >= 1 {
        HdrIndex(seed, q.epoch - 1);
      } else {
        CurrentPosition(seed, log, who, q);
      }
    }
  }

  /** What a party has finished stays finished for the rest of every run, and is not accepted again. */
  lemma {:induction false} AtMostOnce(seed: Seed, ws: seq<World>, es: seq<Event>, k: nat, k': nat, p: nat, ref: Ref)
    requires Run(seed, ws, es) && k <= k' < |ws|
    requires p < 2 && ref.chain >= 0 && ref.chain % 2 != p
    requires |ws[k].parties| == 2 && Finished(seed, ws[k].parties[p], ref)
    ensures |ws[k'].parties| == 2 && Finished(seed, ws[k'].parties[p], ref)
    ensures ws[k'].delivered[ref] == ws[k].delivered[ref]
    decreases k'
  {
    hide Inv, Step, Init, Finished;
    if k < k' {
      AtMostOnce(seed, ws, es, k, k' - 1, p, ref);
      RunKeepsLockstep(seed, ws, es, k' - 1);
      StepKeepsFinished(seed, ws[k' - 1], es[k' - 1], ws[k' - 1 + 1], p, ref);
    }
  }

  /** Every delivery of a finished message, at any state of a run, is refused and changes nothing. */
  lemma ReplaysRefused(seed: Seed, ws: seq<World>, es: seq<Event>, k: nat, p: nat, j: nat, i: nat, env: Env,
                       st: Session, r: Result<seq<byte>, RatchetError>, lost: set<SkipId>)
    requires Run(seed, ws, es) && k < |ws| && IsSent(ws[k].log, j, i)
    requires p < 2 && |ws[k].parties| == 2 && Finished(seed, ws[k].parties[p], Ref(j, i))
    requires var m := ws[k].log[j][i].value;
             Decrypts(ws[k].parties[p].st, m.encHeader, m.ciphertext, m.ad, env, st, r, lost)
    ensures r.Err? && st == ws[k].parties[p].st
  {
    RunKeepsLockstep(seed, ws, es, k);
    hide Run, Inv, Open, Finished;
    FinishedIsRefused(seed, ws[k], p, j, i);
  }

  lemma FinishedIsRefused(seed: Seed, w: World, p: nat, j: nat, i: nat)
    requires Inv(seed, w) && p < 2 && IsSent(w.log, j, i) && Finished(seed, w.parties[p], Ref(j, i))
    ensures var m := w.log[j][i].value; Open(w.parties[p].st, m.encHeader, m.ciphertext, m.ad).Refused?
  {
    hide PartyOk, LogOk, Bounded, Open, Hdr, HeaderAt, ConcatAd;
    InvFor(seed, w, p);
    LogOkBounded(seed, w.log);
    Delivery.OpeningOfSent(seed, w.log, p, w.parties[p], j, i);
  }

  // ---- Runs without gaps ----

  /** Every message opened by the receiving chain itself arrives exactly at the chain's position; others
      may be lost at the end of a chain, and arrive late. */
  ghost predicate InOrder(w: World, e: Event)
    requires Shape(w) && e.who < 2
  {
    e.Deliver? ==>
      var st := w.parties[e.who].st;
      var o := Open(st, e.encHeader, e.ciphertext, e.ad);
      o.Live? ==> o.header.n == Position(st, o.dhRatchet)
  }

  /** A run in which no message overtakes another in its chain: messages may be lost at the end of a
      chain and recovered after the next one has begun, and anything may be replayed or forged. */
  ghost predicate RunsInOrder(seed: Seed, ws: seq<World>, es: seq<Event>) {
    && Run(seed, ws, es)
    && forall k | 0 <= k < |es| :: Shape(ws[k]) && es[k].who < 2 && InOrder(ws[k], es[k])
  }

  /** The store holds nothing at or beyond the position. */
  ghost predicate BehindOnly(q: Party) {
    forall id: SkipId | id in q.st.mkskipped ::
      ChainIndex(id.hk) < q.epoch && (ChainIndex(id.hk) == q.epoch - 1 ==> id.n < q.st.nr)
  }

  ghost predicate DeliveredOnce(seed: Seed, w: World) {
    && |w.parties| == 2
    && (forall p | 0 <= p < 2 :: BehindOnly(w.parties[p]))
    && (forall ref: Ref | ref in w.delivered ::
          w.delivered[ref] == 1 && ref.chain >= 0 && Finished(seed, w.parties[1 - ref.chain % 2], ref))
  }

  lemma StaysBehind(seed: Seed, w: World, who: nat, enc: Wire, ct: Wire, ad: seq<byte>, env: Env,
                    st: Session, r: Result<seq<byte>, RatchetError>, lost: set<SkipId>, w': World)
    requires Inv(seed, w) && Shape(w) && who < 2 && Deliverable(w.log, enc, ct)
    requires DeliversTo(seed, w, who, enc, ct, ad, env, st, r, lost, w')
    requires BehindOnly(w.parties[who]) && InOrder(w, Deliver(who, enc, ct, ad, env))
    ensures |w'.parties| == 2 && BehindOnly(w'.parties[who])
  {
    hide PartyOk, LogOk, Bounded, Open, Deliverable, Accepts, Hdr;
    var q, o := w.parties[who], Open(w.parties[who].st, enc, ct, ad);
    InvFor(seed, w, who);
    LogOkBounded(seed, w.log);
    Authenticity.OpeningExplained(seed, w.log, who, q, enc, ct, ad);
    if o.Live? {
      LiveIsFresh(q.st, enc, ct, ad);
      CurrentHeaderKey(seed, w.log, who, q);
      var committed, error :| Accepts(q.st, o.header, o.dhRatchet, o.plaintext, env, committed, error, st, r, lost);
      AcceptsCommits(q.st, o.header, o.dhRatchet, o.plaintext, env, committed, error, st, r, lost);
      if o.dhRatchet {
        RatchetStaysBehind(seed, w.log, who, q, env, o.header, o.plaintext, committed, error, st, r, lost);
      } else {
        DirectLive(seed, w.log, who, q, env, o.header, o.plaintext, committed, error, st, r, lost);
        forall id: SkipId | id in committed.mkskipped ensures id in q.st.mkskipped {
          DirectEnters(q.st, o.header, env, committed, error, lost, id);
        }
      }
    }
  }

  lemma RatchetStaysBehind(seed: Seed, log: Log, who: nat, q: Party, env: Env, h: RatchetHeader, plaintext: seq<byte>,
                           committed: Session, error: Option<RatchetError>,
                           st: Session, r: Result<seq<byte>, RatchetError>, lost: set<SkipId>)
    requires Bounded(log) && PartyOk(seed, log, who, q) && q.epoch == |log| - 2 && BehindOnly(q)
    requires env.secret == seed.draws(|log| + 1)
    requires h.n == 0 && h.n < |log[q.epoch + 1]| && h == HeaderAt(seed, log, q.epoch + 1, h.n)
    requires Accepts(q.st, h, true, plaintext, env, committed, error, st, r, lost)
    ensures BehindOnly(Party(st, if OldChainError(q.st, h).None? then q.epoch + 2 else q.epoch))
  {
    hide PartyOk, Hdr, Commits, HeaderAt, ChainIndex;
    RatchetedLive(seed, log, who, q, env, h, plaintext, committed, error, st, r, lost);
    AcceptsCommits(q.st, h, true, plaintext, env, committed, error, st, r, lost);
    CurrentHeaderKey(seed, log, who, q);
    if OldChainError(q.st, h).None? {
      forall id: SkipId | id in committed.mkskipped ensures ChainIndex(id.hk) < q.epoch {
        RatchetEnters(q.st, h, env, committed, error, lost, id);
        if q.epoch >= 1 {
          HdrIndex(seed, q.epoch - 1);
        } else {
          CurrentPosition(seed, log, who, q);
        }
      }
    }
  }

  lemma DeliverDeliveredOnce(seed: Seed, w: World, who: nat, enc: Wire, ct: Wire, ad: seq<byte>, env: Env,
                             st: Session, r: Result<seq<byte>, RatchetError>, lost: set<SkipId>, w': World)
    requires Inv(seed, w) && Shape(w) && who < 2 && Deliverable(w.log, enc, ct)
    requires DeliveredOnce(seed, w) && InOrder(w, Deliver(who, enc, ct, ad, env))
    requires DeliversTo(seed, w, who, enc, ct, ad, env, st, r, lost, w')
    ensures DeliveredOnce(seed, w')
  {
    hide Inv, Deliverable, DeliversTo, Open, Hdr, Finished, BehindOnly, RefOf;
    var q, o := w.parties[who], Open(w.parties[who].st, enc, ct, ad);
    StaysBehind(seed, w, who, enc, ct, ad, env, st, r, lost, w');
    DeliverFrame(seed, w, who, enc, ct, ad, env, st, r, lost, w');
    AcceptsFromPeer(seed, w, who, enc, ct, ad, env, st, r, lost, w');
    if r.Ok? {
      AcceptanceFinishes(seed, w, who, enc, ct, ad, env, st, r, lost, w');
      InOrderFinishes(w, who, enc, ct, ad, env);
    }
    forall p | 0 <= p < 2 ensures BehindOnly(w'.parties[p]) {
      assert p == who || p == 1 - who;
    }
    forall ref: Ref | ref in w'.delivered
      ensures w'.delivered[ref] == 1 && ref.chain >= 0 && Finished(seed, w'.parties[1 - ref.chain % 2], ref)
    {
      if ref in w.delivered && 1 - ref.chain % 2 == who {
        DeliveryKeepsFinished(seed, w, who, enc, ct, ad, env, st, r, lost, w', ref);
      }
    }
  }

  lemma InOrderFinishes(w: World, who: nat, enc: Wire, ct: Wire, ad: seq<byte>, env: Env)
    requires Shape(w) && who < 2 && BehindOnly(w.parties[who]) && InOrder(w, Deliver(who, enc, ct, ad, env))
    requires !Open(w.parties[who].st, enc, ct, ad).Refused?
    ensures Finishing(w.parties[who], Open(w.parties[who].st, enc, ct, ad))
  {
    if Open(w.parties[who].st, enc, ct, ad).Stored? {
      StoredIsHeld(w.parties[who].st, enc, ct, ad);
    }
  }

  lemma SendDeliveredOnce(seed: Seed, w: World, who: nat, plaintext: seq<byte>, ad: seq<byte>)
    requires Shape(w) && who < 2 && DeliveredOnce(seed, w)
    ensures DeliveredOnce(seed, AfterSend(w, who, plaintext, ad))
  {
    hide Hdr, ChainIndex, Encrypt;
    EncryptFrame(w.parties[who].st, plaintext, ad);
    var w' := AfterSend(w, who, plaintext, ad);
    assert forall p | 0 <= p < 2 :: BehindOnly(w.parties[p]) ==> BehindOnly(w'.parties[p]);
    assert forall p, ref: Ref | 0 <= p < 2 && ref.chain >= 0 ::
      Finished(seed, w.parties[p], ref) ==> Finished(seed, w'.parties[p], ref);
  }

  /** On a run without gaps every delivered message has been delivered once, and is finished. */
  lemma {:induction false} RunDeliversOnce(seed: Seed, ws: seq<World>, es: seq<Event>, k: nat)
    requires RunsInOrder(seed, ws, es) && k < |ws|
    ensures DeliveredOnce(seed, ws[k])
  {
    hide Inv, DeliversTo, Deliverable, InOrder;
    if k > 0 {
      RunDeliversOnce(seed, ws, es, k - 1);
      RunKeepsLockstep(seed, ws, es, k - 1);
      assert Step(seed, ws[k - 1], es[k - 1], ws[k - 1 + 1]);
      match es[k - 1] {
        case Send(who, plaintext, ad) => SendDeliveredOnce(seed, ws[k - 1], who, plaintext, ad);
        case Deliver(who, enc, ct, ad, env) =>
          var st, r, lost :| DeliversTo(seed, ws[k - 1], who, enc, ct, ad, env, st, r, lost, ws[k - 1 + 1]);
          DeliverDeliveredOnce(seed, ws[k - 1], who, enc, ct, ad, env, st, r, lost, ws[k - 1 + 1]);
      }
    }
  }
}
