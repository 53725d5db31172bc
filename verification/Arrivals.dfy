/** First arrivals: exactly when a message that has never been delivered is accepted. */
module Arrivals {
  import opened Wrappers
  import opened Bytes
  import opened Keys
  import opened Framing
  import opened SkippedKeys
  import opened RatchetSpec
  import opened Conversation
  import opened Lockstep
  import opened Delivery
  import opened Continuations
  import Authenticity
  import Conservation
  import Replays
  import Reopening
  import Stalls

  // ---- Only delivered messages are tracked ----

  /** Every id a party tracks stands for a message of its current receiving chain that was delivered to it. */
  ghost predicate TracksDelivered(w: World)
    requires |w.parties| == 2
  {
    forall p, id: MsgId | 0 <= p < 2 && id in w.parties[p].st.received ::
      w.delivered[Ref(w.parties[p].epoch - 1, id.n)] > 0
  }

  lemma SendTracks(w: World, who: nat, plaintext: seq<byte>, ad: seq<byte>)
    requires Shape(w) && who < 2 && TracksDelivered(w)
    ensures |AfterSend(w, who, plaintext, ad).parties| == 2 && TracksDelivered(AfterSend(w, who, plaintext, ad))
  {
    hide Encrypt;
    EncryptFrame(w.parties[who].st, plaintext, ad);
  }

  /** What the receiver tracks after a delivery: what it tracked before, or the message it has just accepted. */
  lemma ReceiverTracks(seed: Seed, w: World, who: nat, enc: Wire, ct: Wire, ad: seq<byte>, env: Env,
                       st: Session, r: Result<seq<byte>, RatchetError>, lost: set<SkipId>, w': World, id: MsgId)
    requires Inv(seed, w) && Shape(w) && who < 2 && Deliverable(w.log, enc, ct)
    requires DeliversTo(seed, w, who, enc, ct, ad, env, st, r, lost, w')
    ensures |w'.parties| == 2
    ensures var q, q', o := w.parties[who], w'.parties[who], Open(w.parties[who].st, enc, ct, ad);
            id in q'.st.received ==>
              || (id in q.st.received && q'.epoch == q.epoch)
              || (r.Ok? && !o.Refused? && RefOf(q, o) == Ref(q'.epoch - 1, id.n))
  {
    hide PartyOk, LogOk, Bounded, Open, Deliverable, Accepts, Hdr;
    var q, o := w.parties[who], Open(w.parties[who].st, enc, ct, ad);
    InvFor(seed, w, who);
    LogOkBounded(seed, w.log);
    Authenticity.OpeningExplained(seed, w.log, who, q, enc, ct, ad);
    if o.Live? {
      LiveIsFresh(q.st, enc, ct, ad);
      var committed, error :| Accepts(q.st, o.header, o.dhRatchet, o.plaintext, env, committed, error, st, r, lost);
      if o.dhRatchet {
        RatchetedLive(seed, w.log, who, q, env, o.header, o.plaintext, committed, error, st, r, lost);
      } else {
        DirectLive(seed, w.log, who, q, env, o.header, o.plaintext, committed, error, st, r, lost);
      }
    }
  }

  lemma DeliverTracks(seed: Seed, w: World, who: nat, enc: Wire, ct: Wire, ad: seq<byte>, env: Env,
                      st: Session, r: Result<seq<byte>, RatchetError>, lost: set<SkipId>, w': World)
    requires Inv(seed, w) && Shape(w) && who < 2 && Deliverable(w.log, enc, ct) && TracksDelivered(w)
    requires DeliversTo(seed, w, who, enc, ct, ad, env, st, r, lost, w')
    ensures |w'.parties| == 2 && TracksDelivered(w')
  {
    hide Inv, Deliverable, DeliversTo, Open, RefOf;
    Conservation.DeliverFrame(seed, w, who, enc, ct, ad, env, st, r, lost, w');
    Replays.AcceptsFromPeer(seed, w, who, enc, ct, ad, env, st, r, lost, w');
    forall p, id: MsgId | 0 <= p < 2 && id in w'.parties[p].st.received
      ensures w'.delivered[Ref(w'.parties[p].epoch - 1, id.n)] > 0
    {
      assert p == who || p == 1 - who;
      ReceiverTracks(seed, w, who, enc, ct, ad, env, st, r, lost, w', id);
    }
  }

  /** In every state of every run. */
  lemma {:induction false} RunTracksDelivered(seed: Seed, ws: seq<World>, es: seq<Event>, k: nat)
    requires Run(seed, ws, es) && k < |ws|
    ensures |ws[k].parties| == 2 && TracksDelivered(ws[k])
  {
    hide Inv, DeliversTo, Deliverable;
    if k > 0 {
      RunTracksDelivered(seed, ws, es, k - 1);
      RunKeepsLockstep(seed, ws, es, k - 1);
      assert Step(seed, ws[k - 1], es[k - 1], ws[k - 1 + 1]);
      match es[k - 1] {
        case Send(who, plaintext, ad) => SendTracks(ws[k - 1], who, plaintext, ad);
        case Deliver(who, enc, ct, ad, env) =>
          var st, r, lost :| DeliversTo(seed, ws[k - 1], who, enc, ct, ad, env, st, r, lost, ws[k - 1 + 1]);
          DeliverTracks(seed, ws[k - 1], who, enc, ct, ad, env, st, r, lost, ws[k - 1 + 1]);
      }
    }
  }

  // ---- The exact condition ----

  /** Message i of chain j is within the limits of party q: its key is stored; or it is of the current chain, at most
      1000 ahead of the position, and fewer than 10000 are tracked; or it is of the next chain, at most 1000 from
      its start, and at most 1000 messages of the current one are missing. */
  predicate WithinLimits(seed: Seed, log: Log, q: Party, j: nat, i: nat)
    requires j < |log|
  {
    || HasKey(seed, q, j, i)
    || (j == q.epoch - 1 && q.st.nr <= i <= q.st.nr + 1000 <= U32_MAX && |q.st.received| < 10000)
    || (j == q.epoch + 1 && i <= 1000 && PrevLen(log, j) - q.st.nr <= 1000)
  }

  /** The message is of the next chain, but that chain has the ratchet key of the current one and the current chain has
      a tracked message of the same index. */
  predicate TakenForDuplicate(seed: Seed, q: Party, j: nat, i: nat) {
    && j == q.epoch + 1 && q.epoch >= 1
    && seed.draws(q.epoch) == seed.draws(q.epoch + 2)
    && MsgId(seed.draws(q.epoch), i) in q.st.received
  }

  /** The verdict on a message that is not tracked as a message of the current chain. */
  lemma VerdictOnUntracked(seed: Seed, log: Log, who: nat, q: Party, j: nat, i: nat)
    requires Bounded(log) && PartyOk(seed, log, who, q) && |log| - 2 <= q.epoch && IsSent(log, j, i)
    requires j == q.epoch - 1 ==> MsgId(seed.draws(q.epoch), i) !in q.st.received
    ensures Verdict(seed, log, q, j, i).None? <==>
            WithinLimits(seed, log, q, j, i) && !TakenForDuplicate(seed, q, j, i)
    ensures TakenForDuplicate(seed, q, j, i) ==> Verdict(seed, log, q, j, i) == Some(DuplicateMessage)
  {
    assert i <= U32_MAX;
    hide PartyOk, Bounded, Hdr, PrevLen, HeaderAt, Verdict, WithinLimits, TakenForDuplicate;
    StoredIsSent(seed, log, who, q, j, i);
    TrackedDraw(seed, log, who, q, i);
    if j == q.epoch + 1 {
      OldChainErrorOfSent(seed, log, who, q, i);
      VerdictOnNext(seed, log, q, i);
    } else if j == q.epoch - 1 && !HasKey(seed, q, j, i) {
      VerdictOnCurrent(seed, log, q, i);
    } else {
      VerdictElsewhere(seed, log, q, j, i);
    }
  }

  /** A tracked id has the ratchet key of the current chain. */
  lemma TrackedDraw(seed: Seed, log: Log, who: nat, q: Party, i: nat)
    requires PartyOk(seed, log, who, q)
    ensures q.epoch >= -1
    ensures MsgId(seed.draws(q.epoch + 2), i) in q.st.received ==>
              q.epoch >= 1 && seed.draws(q.epoch) == seed.draws(q.epoch + 2)
  {
    Reopening.ReceivedBounds(seed, log, who, q);
  }

  lemma VerdictElsewhere(seed: Seed, log: Log, q: Party, j: nat, i: nat)
    requires Bounded(log) && IsSent(log, j, i) && j != q.epoch + 1
    requires HasKey(seed, q, j, i) || j != q.epoch - 1
    ensures Verdict(seed, log, q, j, i).None? <==> WithinLimits(seed, log, q, j, i)
    ensures !TakenForDuplicate(seed, q, j, i)
  {
    hide Bounded, Hdr, HeaderAt, PrevLen;
  }

  lemma VerdictOnCurrent(seed: Seed, log: Log, q: Party, i: nat)
    requires Bounded(log) && 1 <= q.epoch && IsSent(log, q.epoch - 1, i) && !HasKey(seed, q, q.epoch - 1, i)
    requires MsgId(seed.draws(q.epoch), i) !in q.st.received
    ensures Verdict(seed, log, q, q.epoch - 1, i).None? <==> WithinLimits(seed, log, q, q.epoch - 1, i)
    ensures !TakenForDuplicate(seed, q, q.epoch - 1, i)
  {
    hide HasKey, HeaderAt, ExpectedOpening, PrevLen;
    CurrentOpening(seed, log, q, i);
    WrappedLimit(q.st.nr, i);
  }

  lemma VerdictOnNext(seed: Seed, log: Log, q: Party, i: nat)
    requires Bounded(log) && -1 <= q.epoch == |log| - 2 && IsSent(log, q.epoch + 1, i)
    requires !HasKey(seed, q, q.epoch + 1, i)
    requires OldChainError(q.st, HeaderAt(seed, log, q.epoch + 1, i)) ==
             if PrevLen(log, q.epoch + 1) - q.st.nr > MAX_SKIP then Some(OldMessageKeysLimitReached) else None
    requires MsgId(seed.draws(q.epoch + 2), i) in q.st.received ==>
               q.epoch >= 1 && seed.draws(q.epoch) == seed.draws(q.epoch + 2)
    ensures var j := q.epoch + 1;
            && (Verdict(seed, log, q, j, i).None? <==>
                WithinLimits(seed, log, q, j, i) && !TakenForDuplicate(seed, q, j, i))
            && (TakenForDuplicate(seed, q, j, i) ==> Verdict(seed, log, q, j, i) == Some(DuplicateMessage))
  {
    hide Bounded, HasKey, OldChainError, HeaderAt, ExpectedOpening, PrevLen;
    NextOpening(seed, log, q, i);
  }

  lemma NextOpening(seed: Seed, log: Log, q: Party, i: nat)
    requires Bounded(log) && q.epoch >= -1 && IsSent(log, q.epoch + 1, i) && !HasKey(seed, q, q.epoch + 1, i)
    ensures ExpectedOpening(seed, log, q, q.epoch + 1, i) ==
            if MsgId(seed.draws(q.epoch + 2), i) in q.st.received then Refused(DuplicateMessage)
            else if i > MAX_SKIP then Refused(OldMessageKeysLimitReached)
            else Live(HeaderAt(seed, log, q.epoch + 1, i), true, log[q.epoch + 1][i].value.plaintext)
  {
    hide Hdr, HeaderAt;
  }

  lemma CurrentOpening(seed: Seed, log: Log, q: Party, i: nat)
    requires Bounded(log) && q.epoch >= 1 && IsSent(log, q.epoch - 1, i) && !HasKey(seed, q, q.epoch - 1, i)
    requires MsgId(seed.draws(q.epoch), i) !in q.st.received
    ensures ExpectedOpening(seed, log, q, q.epoch - 1, i) ==
            if (q.st.nr + MAX_SKIP) % 0x1_0000_0000 < i then Refused(OldMessageKeysLimitReached)
            else if i < q.st.nr then Refused(DecryptionFailed)
            else Live(HeaderAt(seed, log, q.epoch - 1, i), false, log[q.epoch - 1][i].value.plaintext)
  {
    hide Hdr, HeaderAt;
  }

  /** The 32-bit sum wraps only where no index is left to compare it with. */
  lemma WrappedLimit(nr: u32, i: u32)
    ensures nr <= i <= (nr + MAX_SKIP) % 0x1_0000_0000 <==> nr <= i <= nr + MAX_SKIP <= U32_MAX
  {
  }

  lemma UndeliveredExactly(seed: Seed, w: World, p: nat, j: nat, i: nat, env: Env,
                           st: Session, r: Result<seq<byte>, RatchetError>, lost: set<SkipId>)
    requires Inv(seed, w) && p < 2 && |w.parties| == 2 && TracksDelivered(w)
    requires IsSent(w.log, j, i) && j % 2 != p && w.delivered[Ref(j, i)] == 0
    requires env.secret == seed.draws(|w.log| + 1)
    requires var m := w.log[j][i].value;
             Decrypts(w.parties[p].st, m.encHeader, m.ciphertext, m.ad, env, st, r, lost)
    ensures if WithinLimits(seed, w.log, w.parties[p], j, i) && !TakenForDuplicate(seed, w.parties[p], j, i)
            then r == Ok(w.log[j][i].value.plaintext) else r.Err?
    ensures TakenForDuplicate(seed, w.parties[p], j, i) ==> r == Err(DuplicateMessage)
  {
    hide PartyOk, LogOk, Bounded, Decrypts, Hdr, WithinLimits, Verdict;
    InvFor(seed, w, p);
    LogOkBounded(seed, w.log);
    VerdictOnUntracked(seed, w.log, p, w.parties[p], j, i);
    VerdictIsExact(seed, w, p, j, i, env, st, r, lost);
  }

  /** First arrival: in every state of every run a message that has never been delivered is accepted, with exactly its
      plaintext, if and only if it is within the limits and not taken for a duplicate of another message. In particular
      one within the limits is refused only if its sender drew one ratchet secret twice in a row. */
  lemma FirstArrival(seed: Seed, ws: seq<World>, es: seq<Event>, k: nat, p: nat, j: nat, i: nat, env: Env,
                     st: Session, r: Result<seq<byte>, RatchetError>, lost: set<SkipId>)
    requires Run(seed, ws, es) && k < |ws| && p < 2 && |ws[k].parties| == 2
    requires IsSent(ws[k].log, j, i) && j % 2 != p && ws[k].delivered[Ref(j, i)] == 0
    requires env.secret == seed.draws(|ws[k].log| + 1)
    requires var m := ws[k].log[j][i].value;
             Decrypts(ws[k].parties[p].st, m.encHeader, m.ciphertext, m.ad, env, st, r, lost)
    ensures var q := ws[k].parties[p];
            if WithinLimits(seed, ws[k].log, q, j, i) && !TakenForDuplicate(seed, q, j, i)
            then r == Ok(ws[k].log[j][i].value.plaintext) else r.Err?
    ensures TakenForDuplicate(seed, ws[k].parties[p], j, i) ==> r == Err(DuplicateMessage)
  {
    hide Run, Decrypts, Inv, TracksDelivered, WithinLimits, TakenForDuplicate, HasKey, IsSent;
    RunKeepsLockstep(seed, ws, es, k);
    RunTracksDelivered(seed, ws, es, k);
    UndeliveredExactly(seed, ws[k], p, j, i, env, st, r, lost);
  }

  /** The mistake happens: from every seed in which the initiator draws one ratchet secret twice in a row there is a run
      after which its first message of the second chain, never delivered and within the limits, is refused. */
  lemma UndeliveredRefused(seed: Seed) returns (w: World, e: Event, r: Result<seq<byte>, RatchetError>, w': World)
    requires seed.draws(1) == seed.draws(3)
    ensures Init(seed, Reopening.Fresh(seed)) && Leads(seed, Reopening.Fresh(seed), w)
    ensures |w.parties| == 2 && IsSent(w.log, 2, 0) && w.delivered[Ref(2, 0)] == 0
    ensures WithinLimits(seed, w.log, w.parties[1], 2, 0) && TakenForDuplicate(seed, w.parties[1], 2, 0)
    ensures Returns(seed, w, e, 1, r, w') && r == Err(DuplicateMessage)
    ensures var m := w.log[2][0].value;
            e.Deliver? && e.encHeader == m.encHeader && e.ciphertext == m.ciphertext && e.ad == m.ad
  {
    Reopening.FreshIsReached(seed);
    hide Inv, InReach, NoHoles, Step, InitReceiver, InitSender, HasKey, Leads, Init, Deliverable;
    var w0 := Reopening.Fresh(seed);
    var w1 := Stalls.SendMany(seed, w0, 0, 1);
    var e2, w2 := Reopening.FirstDelivery(seed, w1, 1, 0);
    LeadsOn(seed, w0, w1, e2, w2);
    hide Reopening.Fresh, Reopening.SentOnly, HasKeys;
    w := Stalls.TwoChainsOn(seed, w2);
    LeadsThrough(seed, w0, w2, w);
    e, r, w' := RefusedAsDuplicate(seed, w);
  }

  lemma RefusedAsDuplicate(seed: Seed, w: World)
    returns (e: Event, r: Result<seq<byte>, RatchetError>, w': World)
    requires Reached(seed, w) && w.parties[1].epoch == 1 && w.parties[1].st.nr == 1 && |w.log| == 3 && |w.log[0]| == 1
    requires IsSent(w.log, 2, 0) && w.parties[1].st.received == {MsgId(seed.draws(1), 0)}
    requires seed.draws(1) == seed.draws(3)
    ensures w.delivered[Ref(2, 0)] == 0
    ensures WithinLimits(seed, w.log, w.parties[1], 2, 0) && TakenForDuplicate(seed, w.parties[1], 2, 0)
    ensures Returns(seed, w, e, 1, r, w') && r == Err(DuplicateMessage)
    ensures var m := w.log[2][0].value;
            e.Deliver? && e.encHeader == m.encHeader && e.ciphertext == m.ciphertext && e.ad == m.ad
  {
    hide PartyOk, LogOk, Bounded, InReach, NoHoles, Step, Decrypts, Hdr, Deliverable;
    InvFor(seed, w, 1);
    LogOkBounded(seed, w.log);
    var st, lost;
    e, st, r, lost, w' := DeliverSent(seed, w, 1, 2, 0);
    VerdictOnUntracked(seed, w.log, 1, w.parties[1], 2, 0);
    VerdictIsExact(seed, w, 1, 2, 0, e.env, st, r, lost);
  }
}
