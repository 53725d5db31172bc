/** When a party falls behind the end of a chain: what it takes to go on, and the runs in which an error leaves its
    mark. */
module Stalls {
  import opened Wrappers
  import opened Bytes
  import opened Keys
  import opened Framing
  import opened SkippedKeys
  import opened RatchetSpec
  import opened Conversation
  import opened Lockstep
  import opened Continuations
  import opened Reopening
  import Authenticity
  import Delivery
  import Conservation

  // ---- No session is stuck for good ----

  /** However far a party is behind when its peer begins a new chain, the network can bring it there by messages that
      were sent: in every state of every run there is a continuation that enters the new chain. */
  lemma NeverStuck(seed: Seed, ws: seq<World>, es: seq<Event>, k: nat, p: nat) returns (w': World)
    requires Run(seed, ws, es) && k < |ws| && p < 2 && FreshDraws(seed) && |ws[k].parties| == 2
    requires ws[k].parties[p].epoch == |ws[k].log| - 2 && IsSent(ws[k].log, ws[k].parties[p].epoch + 1, 0)
    requires ws[k].parties[1 - p].st.headerNonceCounter < U64_MAX
    ensures Leads(seed, ws[k], w') && |w'.parties| == 2
    ensures w'.parties[p].epoch == ws[k].parties[p].epoch + 2
    ensures w'.parties[1 - p] == ws[k].parties[1 - p] && w'.log == ws[k].log + [[]]
  {
    hide Step, Init;
    RunIsReached(seed, ws, es, k);
    hide Inv, InReach, NoHoles, DeliveredBehind, Run, Leads;
    w' := EnterNext(seed, ws[k], p);
  }

  /** p is more than 1000 messages behind the end of chain c. */
  ghost predicate FarBehind(w: World, p: nat, c: nat, nr: nat)
    requires p < 2
  {
    && |w.parties| == 2 && w.parties[p].epoch == c + 1 && w.parties[p].st.nr == nr
    && c < |w.log| && |w.log[c]| - nr > 1000
  }

  /** The event does not bring p one of the 1001 messages of chain c from index nr on. */
  ghost predicate Misses(w: World, e: Event, p: nat, c: nat, nr: nat) {
    e.Deliver? && e.who == p ==>
      forall n: nat | nr <= n <= nr + 1000 ::
        !Authenticity.IsMessage(w.log, Ref(c, n), e.encHeader, e.ciphertext, e.ad)
  }

  /** While they are missing, one step leaves p where it is. */
  lemma StepStaysBehind(seed: Seed, w: World, e: Event, w': World, p: nat, c: nat, nr: nat)
    requires Inv(seed, w) && Step(seed, w, e, w') && p < 2 && FarBehind(w, p, c, nr) && Misses(w, e, p, c, nr)
    ensures FarBehind(w', p, c, nr)
  {
    hide Inv, DeliversTo, Deliverable, Encrypt, Authenticity.IsMessage;
    match e {
      case Send(who, plaintext, ad) =>
        EncryptFrame(w.parties[who].st, plaintext, ad);
      case Deliver(who, enc, ct, ad, env) =>
        var st, r, lost :| DeliversTo(seed, w, who, enc, ct, ad, env, st, r, lost, w');
        Conservation.DeliverFrame(seed, w, who, enc, ct, ad, env, st, r, lost, w');
        if who == p {
          DeliveryStaysBehind(seed, w, who, enc, ct, ad, env, st, r, lost, w', c, nr);
        }
    }
  }

  lemma DeliveryStaysBehind(seed: Seed, w: World, who: nat, enc: Wire, ct: Wire, ad: seq<byte>, env: Env,
                            st: Session, r: Result<seq<byte>, RatchetError>, lost: set<SkipId>, w': World,
                            c: nat, nr: nat)
    requires Inv(seed, w) && Shape(w) && who < 2 && Deliverable(w.log, enc, ct)
    requires DeliversTo(seed, w, who, enc, ct, ad, env, st, r, lost, w')
    requires FarBehind(w, who, c, nr) && Misses(w, Deliver(who, enc, ct, ad, env), who, c, nr)
    ensures |w'.parties| == 2 && w'.parties[who].epoch == c + 1 && w'.parties[who].st.nr == nr
  {
    hide PartyOk, LogOk, Bounded, Open, Deliverable, Accepts, Hdr;
    var q, o := w.parties[who], Open(w.parties[who].st, enc, ct, ad);
    InvFor(seed, w, who);
    LogOkBounded(seed, w.log);
    Authenticity.OpeningExplained(seed, w.log, who, q, enc, ct, ad);
    if o.Live? {
      LiveIsFresh(q.st, enc, ct, ad);
      assert o.dhRatchet by {
        assert RefOf(q, o).index == o.header.n;
      }
      var committed, error :| Accepts(q.st, o.header, o.dhRatchet, o.plaintext, env, committed, error, st, r, lost);
      RatchetedLive(seed, w.log, who, q, env, o.header, o.plaintext, committed, error, st, r, lost);
      Delivery.OldChainErrorOfSent(seed, w.log, who, q, o.header.n);
    }
  }

  /** A party more than 1000 messages behind stays where it is for as long as none of the messages from its
      position to 1000 beyond it arrives: it enters no other epoch, whatever else is delivered. If the network has
      lost them, that is forever. */
  lemma {:induction false} StuckWhileLost(seed: Seed, ws: seq<World>, es: seq<Event>, k: nat, k': nat, p: nat,
                                          c: nat, nr: nat)
    requires Run(seed, ws, es) && k <= k' < |ws| && p < 2 && FarBehind(ws[k], p, c, nr)
    requires forall m | k <= m < k' :: Misses(ws[m], es[m], p, c, nr)
    ensures FarBehind(ws[k'], p, c, nr)
    decreases k'
  {
    hide Inv, Step, Init, FarBehind, Misses;
    if k < k' {
      StuckWhileLost(seed, ws, es, k, k' - 1, p, c, nr);
      RunKeepsLockstep(seed, ws, es, k' - 1);
      StepStaysBehind(seed, ws[k' - 1], es[k' - 1], ws[k' - 1 + 1], p, c, nr);
    }
  }

  // ---- Runs in which an error leaves its mark ----

  /** More messages on the first chain. */
  lemma {:induction false} SendMany(seed: Seed, w: World, m: nat, more: nat) returns (w': World)
    requires SentOnly(seed, w, m) && m + more <= U32_MAX
    ensures Leads(seed, w, w') && SentOnly(seed, w', m + more)
    decreases more
  {
    hide SentOnly, Leads, Step;
    if more == 0 {
      w' := w;
      LeadsToItself(seed, w);
    } else {
      var w1 := SendOneMore(seed, w, m);
      w' := SendMany(seed, w1, m + 1, more - 1);
      LeadsFirst(seed, w, Send(0, [], []), w1, w');
    }
  }

  /** From every seed there is a run whose last delivery returns an error and empties the store: 1002 messages are
      sent and only the second arrives; when the peer has begun its next chain, that chain's first message finds 1001
      messages of the old one missing. */
  lemma StoreIsEmptied(seed: Seed) returns (w: World, e: Event, r: Result<seq<byte>, RatchetError>, w': World)
    ensures Init(seed, Fresh(seed)) && Leads(seed, Fresh(seed), w) && Step(seed, w, e, w')
            && Returns(seed, w, e, 1, r, w')
    ensures |w.parties| == |w'.parties| == 2 && w.parties[1].st.mkskipped != map[]
    ensures r == Err(OldMessageKeysLimitReached)
    ensures w'.parties[1].st == w.parties[1].st.(mkskipped := map[]) && w'.delivered == w.delivered
  {
    FreshIsReached(seed);
    hide Inv, InReach, NoHoles, DeliveredBehind, Step, InitReceiver, InitSender, HasKey, Leads, Init, Returns;
    var w0 := Fresh(seed);
    var w1 := SendMany(seed, w0, 0, 1002);
    var e2, w2 := FirstDelivery(seed, w1, 1002, 1);
    LeadsOn(seed, w0, w1, e2, w2);
    HasKeysAt(seed, w2.parties[1], 0, 0, 1, 0);
    hide Fresh, SentOnly, HasKeys;
    w := TwoChainsOn(seed, w2);
    LeadsThrough(seed, w0, w2, w);
    e, r, w' := RatchetDelivery(seed, w, 1, 0);
    KeyMeansNotEmpty(seed, w.parties[1]);
  }

  lemma KeyMeansNotEmpty(seed: Seed, q: Party)
    requires HasKey(seed, q, 0, 0)
    ensures q.st.mkskipped != map[]
  {
  }

  /** Each party sends one message, the responder first; the responder's is delivered. */
  lemma TwoChainsOn(seed: Seed, w: World) returns (w': World)
    requires Reached(seed, w) && |w.log| == 2 && |w.log[1]| == 0
    requires w.parties[0].epoch == 0 && w.parties[1].epoch == 1
    requires w.parties[0].st.headerNonceCounter < U64_MAX && w.parties[1].st.headerNonceCounter < U64_MAX
    ensures Leads(seed, w, w') && Reached(seed, w') && |w'.log| == 3 && w'.log[0] == w.log[0] && IsSent(w'.log, 2, 0)
    ensures var q, q' := w.parties[1], w'.parties[1];
            q'.epoch == 1 && q'.st.nr == q.st.nr && q'.st.mkskipped == q.st.mkskipped && q'.st.received == q.st.received
  {
    hide Inv, InReach, NoHoles, DeliveredBehind, Step, Leads, Returns;
    SendingPosition(seed, w, 1);
    LeadsToItself(seed, w);
    var w1 := SendAppends(seed, w, 1, []);
    var m1 :| w1.log == Appended(w.log, 1, Some(m1));
    LeadsOn(seed, w, w, Send(1, [], []), w1);
    SendingPosition(seed, w1, 0);
    var e, r, w2 := RatchetDelivery(seed, w1, 0, 0);
    LeadsOn(seed, w, w1, e, w2);
    SendingPosition(seed, w2, 0);
    w' := SendAppends(seed, w2, 0, []);
    var m2 :| w'.log == Appended(w2.log, 2, Some(m2));
    LeadsOn(seed, w, w2, Send(0, [], []), w');
  }

  lemma SendingPosition(seed: Seed, w: World, p: nat)
    requires Reached(seed, w) && p < 2 && w.parties[p].epoch >= 0
    ensures w.parties[p].epoch < |w.log| && w.parties[p].st.ns == |w.log[w.parties[p].epoch]|
    ensures w.parties[p].epoch == 0 ==> w.parties[p].st.received == {}
  {
    hide PartyOk, LogOk, InReach, NoHoles, DeliveredBehind;
    InvFor(seed, w, p);
    PartyBounds(seed, w.log, p, w.parties[p]);
    ReceivedBounds(seed, w.log, p, w.parties[p]);
  }

  /** The initiator sends its next message and the responder, which has all the others, gets it. */
  ghost predicate InStep(seed: Seed, w: World, m: nat) {
    && Reached(seed, w) && |w.log| == 2 && |w.log[0]| == m
    && w.parties[0].epoch == 0 && w.parties[0].st.headerNonceCounter == m
    && w.parties[1].epoch == 1 && w.parties[1].st.nr == m
  }

  lemma OneMore(seed: Seed, w: World, m: nat)
    returns (w1: World, e: Event, r: Result<seq<byte>, RatchetError>, w': World)
    requires InStep(seed, w, m) && m + MAX_SKIP <= U32_MAX
    ensures Step(seed, w, Send(0, [], []), w1) && Step(seed, w1, e, w') && Returns(seed, w1, e, 1, r, w')
    ensures Reached(seed, w1) && w1.parties[1] == w.parties[1] && InStep(seed, w', m + 1)
    ensures |w.parties[1].st.received| >= MAX_RECEIVED_TRACKING ==> r == Err(TooManyMessages)
  {
    hide Inv, InReach, NoHoles, DeliveredBehind, Step, HasKey, Returns;
    UnsentIsOpen(seed, w, 1);
    w1 := SendAppends(seed, w, 0, []);
    var sent :| w1.log == Appended(w.log, 0, Some(sent));
    e, r, w' := DirectDelivery(seed, w1, 1, m);
  }

  lemma {:induction false} ManyMore(seed: Seed, w: World, m: nat, more: nat) returns (w': World)
    requires InStep(seed, w, m) && m + more + MAX_SKIP <= U32_MAX
    ensures Leads(seed, w, w') && InStep(seed, w', m + more)
    decreases more
  {
    hide InStep, Leads;
    if more == 0 {
      w' := w;
      LeadsToItself(seed, w);
    } else {
      var w1 := LeadsOneMore(seed, w, m);
      w' := ManyMore(seed, w1, m + 1, more - 1);
      LeadsThrough(seed, w, w1, w');
    }
  }

  lemma LeadsOneMore(seed: Seed, w: World, m: nat) returns (w': World)
    requires InStep(seed, w, m) && m + MAX_SKIP <= U32_MAX
    ensures Leads(seed, w, w') && InStep(seed, w', m + 1)
  {
    hide InStep, Reached, Leads, Step, Returns;
    var w1, e, r;
    w1, e, r, w' := OneMore(seed, w, m);
    LeadsToItself(seed, w);
    LeadsOn(seed, w, w, Send(0, [], []), w1);
    LeadsOn(seed, w, w1, e, w');
  }

  lemma TrackedCount(seed: Seed, w: World, m: nat)
    requires InStep(seed, w, m)
    ensures |w.parties[1].st.received| == if m <= MAX_RECEIVED_TRACKING then m else MAX_RECEIVED_TRACKING
  {
    hide LogOk, KeysOk, SendingOk, StoreOk, Hdr, Chain, Iter, InReach, NoHoles, DeliveredBehind;
    InvFor(seed, w, 1);
  }

  /** From every seed there is a run of a single chain delivered in order whose last delivery decrypts its message,
      commits, and returns an error: the 10001st. */
  lemma TrackingRunsOut(seed: Seed) returns (w: World, e: Event, r: Result<seq<byte>, RatchetError>, w': World)
    ensures Init(seed, Fresh(seed)) && Leads(seed, Fresh(seed), w) && Step(seed, w, e, w')
            && Returns(seed, w, e, 1, r, w')
    ensures |w.parties| == |w'.parties| == 2 && r == Err(TooManyMessages)
    ensures w.parties[1].st.nr == 10000 && w'.parties[1].st.nr == 10001
  {
    FreshIsReached(seed);
    hide Inv, InReach, NoHoles, DeliveredBehind, Step, InitReceiver, InitSender, HasKey, Leads, Init, Returns;
    var w0 := Fresh(seed);
    var w1 := SendMany(seed, w0, 0, 1);
    var e2, w2 := FirstDelivery(seed, w1, 1, 0);
    LeadsOn(seed, w0, w1, e2, w2);
    hide Fresh, SentOnly;
    var w3 := ManyMore(seed, w2, 1, MAX_RECEIVED_TRACKING - 1);
    LeadsThrough(seed, w0, w2, w3);
    TrackedCount(seed, w3, MAX_RECEIVED_TRACKING);
    w, e, r, w' := OneMore(seed, w3, MAX_RECEIVED_TRACKING);
    LeadsOn(seed, w0, w3, Send(0, [], []), w);
  }
}
