/**
 Exactly which messages a party can still be made to accept, once more or for the first time: all but the finished
 ones.
 */
module Reopening {
  import opened Wrappers
  import opened Bytes
  import opened Keys
  import opened Framing
  import opened SkippedKeys
  import opened RatchetSpec
  import opened Conversation
  import opened Lockstep
  import opened Replays
  import opened Continuations
  import Delivery
  import Conservation

  /** No party draws the same ratchet secret twice in a row. */
  ghost predicate FreshDraws(seed: Seed) {
    forall j: nat :: seed.draws(j) != seed.draws(j + 2)
  }

  /** The peer of p has not run out of header nonces, or come within MAX_SKIP of the longest possible chain. */
  predicate PeerCanSend(w: World, p: nat)
    requires |w.parties| == 2 && p < 2
  {
    var peer := w.parties[1 - p].st;
    peer.headerNonceCounter < U64_MAX && peer.ns + MAX_SKIP <= U32_MAX
  }

  // ---- The next message that gets through ----

  lemma SentInFull(seed: Seed, w: World, p: nat, j: nat, i: nat)
    requires Reached(seed, w) && p < 2 && j % 2 != p && j < |w.log| && i < |w.log[j]|
    requires w.parties[1 - p].st.headerNonceCounter < U64_MAX
    ensures IsSent(w.log, j, i)
  {
    hide Inv, InReach, DeliveredBehind;
  }

  /** The message MAX_SKIP ahead of the position is neither stored nor tracked. */
  lemma TopIsOpen(seed: Seed, w: World, p: nat)
    requires Reached(seed, w) && p < 2 && w.parties[p].epoch >= 1
    ensures var q := w.parties[p];
            && !HasKey(seed, q, q.epoch - 1, q.st.nr + MAX_SKIP)
            && MsgId(seed.draws(q.epoch), q.st.nr + MAX_SKIP) !in q.st.received
            && (q.epoch - 1) % 2 != p && q.epoch - 1 < |w.log| && q.st.nr <= |w.log[q.epoch - 1]| <= U32_MAX
  {
    hide PartyOk, LogOk, Hdr, NoHoles, DeliveredBehind;
    InvFor(seed, w, p);
    LogOkBounded(seed, w.log);
    Conservation.CurrentHeaderKey(seed, w.log, p, w.parties[p]);
    PartyBounds(seed, w.log, p, w.parties[p]);
  }

  /** More than MAX_SKIP messages behind, the party can always be moved on by one. */
  lemma DeliverTop(seed: Seed, w: World, p: nat) returns (e: Event, w': World)
    requires Reached(seed, w) && p < 2 && w.parties[p].epoch >= 1
    requires w.parties[1 - p].st.headerNonceCounter < U64_MAX
    requires w.parties[p].epoch - 1 < |w.log| && |w.log[w.parties[p].epoch - 1]| - w.parties[p].st.nr > MAX_SKIP
    ensures Step(seed, w, e, w') && Reached(seed, w')
    ensures w'.log == w.log && w'.parties[1 - p] == w.parties[1 - p]
    ensures var q, q' := w.parties[p], w'.parties[p];
            && q'.epoch == q.epoch && q'.st.nr == q.st.nr + 1
            && HasKeys(seed, q', q.epoch - 1, q.st.nr, q.st.nr + MAX_SKIP)
            && w'.delivered == (if |q.st.received| < MAX_RECEIVED_TRACKING
                                then w.delivered + multiset{Ref(q.epoch - 1, q.st.nr + MAX_SKIP)} else w.delivered)
  {
    hide Inv, InReach, NoHoles, DeliveredBehind, Step, HasKeys, HasKey, Returns;
    var q := w.parties[p];
    TopIsOpen(seed, w, p);
    SentInFull(seed, w, p, q.epoch - 1, q.st.nr + MAX_SKIP);
    var r;
    e, r, w' := DirectDelivery(seed, w, p, q.st.nr + MAX_SKIP);
  }

  /** A party can always be brought within MAX_SKIP of the end of its receiving chain. */
  lemma {:induction false} CatchUp(seed: Seed, w: World, p: nat) returns (w': World)
    requires Reached(seed, w) && p < 2 && w.parties[p].epoch >= 1 && w.parties[p].epoch - 1 < |w.log|
    requires w.parties[1 - p].st.headerNonceCounter < U64_MAX
    ensures Leads(seed, w, w') && Reached(seed, w') && w.delivered <= w'.delivered
    ensures w'.log == w.log && w'.parties[1 - p] == w.parties[1 - p] && w'.parties[p].epoch == w.parties[p].epoch
    ensures |w.log[w.parties[p].epoch - 1]| - w'.parties[p].st.nr <= MAX_SKIP
    decreases |w.log[w.parties[p].epoch - 1]| - w.parties[p].st.nr
  {
    hide Inv, InReach, NoHoles, DeliveredBehind, Leads, Step, Returns;
    if |w.log[w.parties[p].epoch - 1]| - w.parties[p].st.nr <= MAX_SKIP {
      w' := w;
      LeadsToItself(seed, w);
    } else {
      var e, w1 := DeliverTop(seed, w, p);
      w' := CatchUp(seed, w1, p);
      LeadsFirst(seed, w, e, w1, w');
    }
  }

  lemma NextIsUntracked(seed: Seed, w: World, p: nat)
    requires Reached(seed, w) && p < 2 && FreshDraws(seed) && w.parties[p].epoch == |w.log| - 2
    ensures MsgId(seed.draws(w.parties[p].epoch + 2), 0) !in w.parties[p].st.received
    ensures w.parties[p].epoch == -1 ==> PrevLen(w.log, 0) - w.parties[p].st.nr <= MAX_SKIP
    ensures w.parties[p].epoch >= -1 && (w.parties[p].epoch + 1) % 2 != p
  {
    hide LogOk, KeysOk, SendingOk, StoreOk, InReach, NoHoles, DeliveredBehind;
    InvFor(seed, w, p);
    ReceivedBounds(seed, w.log, p, w.parties[p]);
  }

  lemma ReceivedBounds(seed: Seed, log: Log, who: nat, q: Party)
    requires PartyOk(seed, log, who, q)
    ensures -1 <= q.epoch < |log| && q.epoch % 2 == who
    ensures forall id: MsgId | id in q.st.received ::
              q.epoch >= 1 && id.dhPub == seed.draws(q.epoch) && 0 <= id.n < |log[q.epoch - 1]|
  {
    hide StoreOk, KeysOk, SendingOk, Hdr, Chain, Iter;
  }

  /** Once the peer has begun a new chain the party can be brought into it by the first message of that chain, however
      far it is behind. */
  lemma EnterNext(seed: Seed, w: World, p: nat) returns (w': World)
    requires Reached(seed, w) && p < 2 && FreshDraws(seed) && w.parties[p].epoch == |w.log| - 2
    requires w.parties[1 - p].st.headerNonceCounter < U64_MAX && IsSent(w.log, w.parties[p].epoch + 1, 0)
    ensures Leads(seed, w, w') && Reached(seed, w') && w.delivered <= w'.delivered
    ensures w'.log == w.log + [[]] && w'.parties[1 - p] == w.parties[1 - p]
    ensures w'.parties[p].epoch == w.parties[p].epoch + 2 && w'.parties[p].st.nr == 1
    ensures w'.delivered[Ref(w.parties[p].epoch + 1, 0)] > w.delivered[Ref(w.parties[p].epoch + 1, 0)]
  {
    hide Inv, InReach, NoHoles, DeliveredBehind, Leads, Step, Returns;
    NextIsUntracked(seed, w, p);
    var w1 := w;
    if w.parties[p].epoch >= 1 {
      w1 := CatchUp(seed, w, p);
      NextIsUntracked(seed, w1, p);
    } else {
      LeadsToItself(seed, w);
    }
    var e, r;
    e, r, w' := RatchetDelivery(seed, w1, p, 0);
    LeadsOn(seed, w, w1, e, w');
  }

  // ---- Storing the key of a message that is not finished ----

  /** An index beyond the end of the current chain is neither stored nor tracked. */
  lemma UnsentIsOpen(seed: Seed, w: World, p: nat)
    requires Reached(seed, w) && p < 2 && w.parties[p].epoch >= 1
    ensures w.parties[p].epoch - 1 < |w.log|
    ensures var q := w.parties[p];
            && !HasKey(seed, q, q.epoch - 1, |w.log[q.epoch - 1]|)
            && MsgId(seed.draws(q.epoch), |w.log[q.epoch - 1]|) !in q.st.received
            && q.st.nr <= |w.log[q.epoch - 1]|
            && w.parties[1 - p].epoch == 2 * |w.log| - 3 - q.epoch
            && |w.log| - 2 <= q.epoch < |w.log|
            && (w.parties[1 - p].epoch >= 0 ==> w.parties[1 - p].st.ns == |w.log[w.parties[1 - p].epoch]|)
  {
    hide PartyOk, LogOk, Hdr, InReach, NoHoles, DeliveredBehind;
    var q := w.parties[p];
    InvFor(seed, w, p);
    Conservation.CurrentHeaderKey(seed, w.log, p, q);
    ReceivedBounds(seed, w.log, p, q);
    PartyBounds(seed, w.log, 1 - p, w.parties[1 - p]);
    StoredIsSent(seed, w.log, p, q, q.epoch - 1, |w.log[q.epoch - 1]|);
  }

  /** The message the peer would send next to keep things going: the first of its new chain, if it has begun one and
      not sent any, or one more of the chain p is receiving. */
  lemma PeerSends(seed: Seed, w: World, p: nat) returns (w': World)
    requires Reached(seed, w) && p < 2 && PeerCanSend(w, p) && w.parties[p].epoch >= 1
    requires w.parties[p].epoch - 1 < |w.log|
    requires w.parties[p].epoch == |w.log| - 2 ==> |w.log[w.parties[p].epoch + 1]| == 0
    ensures Leads(seed, w, w') && Reached(seed, w') && w'.delivered == w.delivered && w'.parties[p] == w.parties[p]
    ensures |w.log| == |w'.log|
    ensures forall j: nat, i: nat | IsSent(w.log, j, i) :: IsSent(w'.log, j, i)
    ensures var c, s := w.parties[p].epoch - 1, w.parties[p].epoch;
            if s == |w.log| - 2 then IsSent(w'.log, s + 1, 0) && w'.log[c] == w.log[c]
            else s == |w.log| - 1 && IsSent(w'.log, c, |w.log[c]|) && w.parties[p].st.nr + MAX_SKIP <= U32_MAX
  {
    hide Inv, InReach, NoHoles, DeliveredBehind, Leads, Step, HasKey, Returns;
    UnsentIsOpen(seed, w, p);
    w' := SendAppends(seed, w, 1 - p, []);
    var m :| w'.log == Appended(w.log, w.parties[1 - p].epoch, Some(m));
    LeadsToItself(seed, w);
    LeadsOn(seed, w, w, Send(1 - p, [], []), w');
  }

  /** Near the end of its chain: the first message of the next chain, or one more of this chain, makes the party store
      the key of every message at or beyond its position. */
  lemma ReopenNearEnd(seed: Seed, w: World, p: nat, i: nat) returns (w': World)
    requires Reached(seed, w) && p < 2 && FreshDraws(seed) && PeerCanSend(w, p)
    requires w.parties[p].epoch >= 1 && IsSent(w.log, w.parties[p].epoch - 1, i)
    requires w.parties[p].st.nr <= i && |w.log[w.parties[p].epoch - 1]| <= w.parties[p].st.nr + MAX_SKIP
    ensures Leads(seed, w, w') && Reached(seed, w') && w.delivered <= w'.delivered
    ensures HasKey(seed, w'.parties[p], w.parties[p].epoch - 1, i) && IsSent(w'.log, w.parties[p].epoch - 1, i)
  {
    hide Inv, InReach, NoHoles, DeliveredBehind, Leads, Step, HasKey, Returns;
    var q, c: nat := w.parties[p], w.parties[p].epoch - 1;
    UnsentIsOpen(seed, w, p);
    var w1 := w;
    if q.epoch == |w.log| - 2 && |w.log[q.epoch + 1]| > 0 {
      LeadsToItself(seed, w);
      NextIsUntracked(seed, w, p);
      SentInFull(seed, w, p, q.epoch + 1, 0);
    } else {
      w1 := PeerSends(seed, w, p);
    }
    var e, r;
    if q.epoch == |w.log| - 2 {
      NextIsUntracked(seed, w1, p);
      e, r, w' := RatchetDelivery(seed, w1, p, 0);
      HasKeysAt(seed, w'.parties[p], c, q.st.nr, |w.log[c]|, i);
    } else {
      e, r, w' := DirectDelivery(seed, w1, p, |w.log[c]|);
      HasKeysAt(seed, w'.parties[p], c, q.st.nr, |w.log[c]|, i);
    }
    LeadsOn(seed, w, w1, e, w');
  }

  lemma HasKeysAt(seed: Seed, q: Party, j: nat, from: nat, until: nat, i: nat)
    requires HasKeys(seed, q, j, from, until) && from <= i < until
    ensures HasKey(seed, q, j, i)
  {
  }

  /** A message at or beyond the position can be made to arrive, or its key to be stored. */
  lemma {:induction false} Reopen(seed: Seed, w: World, p: nat, i: nat) returns (w': World)
    requires Reached(seed, w) && p < 2 && FreshDraws(seed) && PeerCanSend(w, p)
    requires w.parties[p].epoch >= 1 && IsSent(w.log, w.parties[p].epoch - 1, i) && w.parties[p].st.nr <= i
    ensures Leads(seed, w, w') && Reached(seed, w') && w.delivered <= w'.delivered
    ensures var ref := Ref(w.parties[p].epoch - 1, i);
            || w'.delivered[ref] > w.delivered[ref]
            || (HasKey(seed, w'.parties[p], ref.chain, i) && IsSent(w'.log, ref.chain, i))
    decreases |w.log[w.parties[p].epoch - 1]| - w.parties[p].st.nr
  {
    hide Inv, InReach, NoHoles, DeliveredBehind, Leads, Step, HasKey, Returns;
    var q, c: nat := w.parties[p], w.parties[p].epoch - 1;
    if |w.log[c]| - q.st.nr <= MAX_SKIP {
      w' := ReopenNearEnd(seed, w, p, i);
    } else {
      var e, w1 := DeliverTop(seed, w, p);
      var n := q.st.nr + MAX_SKIP;
      if i < n {
        HasKeysAt(seed, w1.parties[p], c, q.st.nr, n, i);
      }
      if i < n || (i == n && w1.delivered != w.delivered) {
        w' := w1;
        LeadsToItself(seed, w);
        LeadsOn(seed, w, w, e, w');
      } else {
        w' := Reopen(seed, w1, p, i);
        LeadsFirst(seed, w, e, w1, w');
      }
    }
  }

  // ---- The exact condition ----

  /** The message can be accepted in some continuation: once more, if it has been accepted before. */
  ghost predicate CanBeAccepted(seed: Seed, w: World, ref: Ref) {
    exists w' :: Leads(seed, w, w') && w'.delivered[ref] > w.delivered[ref]
  }

  /** A message that is not finished can be accepted. */
  lemma UnfinishedCanBeAccepted(seed: Seed, w: World, p: nat, j: nat, i: nat)
    requires Reached(seed, w) && p < 2 && FreshDraws(seed) && PeerCanSend(w, p)
    requires IsSent(w.log, j, i) && j % 2 != p && !Finished(seed, w.parties[p], Ref(j, i))
    ensures CanBeAccepted(seed, w, Ref(j, i))
  {
    hide Inv, InReach, NoHoles, DeliveredBehind, Leads, Step, Returns;
    var q, ref := w.parties[p], Ref(j, i);
    EpochBound(seed, w, p, j);
    var w1 := w;
    LeadsToItself(seed, w);
    if j == q.epoch + 1 {
      SentInFull(seed, w, p, j, 0);
      w1 := EnterNext(seed, w, p);
    }
    if w1.delivered[ref] == w.delivered[ref] {
      var w2 := w1;
      if !HasKey(seed, w1.parties[p], j, i) {
        w2 := Reopen(seed, w1, p, i);
        LeadsThrough(seed, w, w1, w2);
      }
      if w2.delivered[ref] == w.delivered[ref] {
        var e, w3 := StoredDelivery(seed, w2, p, j, i);
        LeadsOn(seed, w, w2, e, w3);
        assert w3.delivered[ref] > w.delivered[ref];
      }
    }
  }

  lemma EpochBound(seed: Seed, w: World, p: nat, j: nat)
    requires Inv(seed, w) && p < 2 && j < |w.log| && j % 2 != p
    ensures j <= w.parties[p].epoch + 1 && j != w.parties[p].epoch
    ensures j == w.parties[p].epoch + 1 ==> w.parties[p].epoch == |w.log| - 2
  {
    hide PartyOk, LogOk;
    InvFor(seed, w, p);
    PartyBounds(seed, w.log, p, w.parties[p]);
  }

  lemma {:induction false} ContinuationKeepsFinished(seed: Seed, w: World, ws: seq<World>, es: seq<Event>, w': World,
                                                     p: nat, ref: Ref)
    requires Inv(seed, w) && Continues(seed, w, ws, es, w')
    requires p < 2 && ref.chain >= 0 && ref.chain % 2 != p && Finished(seed, w.parties[p], ref)
    ensures w'.delivered[ref] == w.delivered[ref]
    decreases |es|
  {
    hide Inv, Step, Finished;
    if es != [] {
      assert Step(seed, ws[0], es[0], ws[0 + 1]);
      StepKeepsLockstep(seed, w, es[0], ws[1]);
      StepKeepsFinished(seed, w, es[0], ws[1], p, ref);
      assert Continues(seed, ws[1], ws[1..], es[1..], w') by {
        forall k | 0 <= k < |es[1..]| ensures Step(seed, ws[1..][k], es[1..][k], ws[1..][k + 1]) {
          assert Step(seed, ws[k + 1], es[k + 1], ws[k + 1 + 1]);
        }
      }
      ContinuationKeepsFinished(seed, ws[1], ws[1..], es[1..], w', p, ref);
    }
  }

  lemma AcceptableIff(seed: Seed, w: World, p: nat, j: nat, i: nat)
    requires Reached(seed, w) && p < 2 && IsSent(w.log, j, i) && j % 2 != p
    requires FreshDraws(seed) && PeerCanSend(w, p)
    ensures CanBeAccepted(seed, w, Ref(j, i)) <==> !Finished(seed, w.parties[p], Ref(j, i))
  {
    hide Inv, InReach, NoHoles, DeliveredBehind, Finished, Step;
    var ref := Ref(j, i);
    if !Finished(seed, w.parties[p], ref) {
      UnfinishedCanBeAccepted(seed, w, p, j, i);
    } else if CanBeAccepted(seed, w, ref) {
      var w' :| Leads(seed, w, w') && w'.delivered[ref] > w.delivered[ref];
      var ws, es :| Continues(seed, w, ws, es, w');
      ContinuationKeepsFinished(seed, w, ws, es, w', p, ref);
    }
  }

  /** The exact theorem about replays and losses: in every state of every run, a message that was sent can be accepted
      in some continuation, once more if it has been accepted before, if and only if its receiver has not finished it.
      The condition is read off the receiver: the message belongs to a chain it has not reached, or its key is stored,
      or its index is at or beyond the position of the current chain. */
  lemma AcceptableExactly(seed: Seed, ws: seq<World>, es: seq<Event>, k: nat, p: nat, j: nat, i: nat)
    requires Run(seed, ws, es) && k < |ws| && p < 2 && IsSent(ws[k].log, j, i) && j % 2 != p
    requires FreshDraws(seed) && |ws[k].parties| == 2 && PeerCanSend(ws[k], p)
    ensures CanBeAccepted(seed, ws[k], Ref(j, i)) <==> !Finished(seed, ws[k].parties[p], Ref(j, i))
  {
    hide CanBeAccepted, Finished, Step, Init;
    RunIsReached(seed, ws, es, k);
    hide Reached;
    AcceptableIff(seed, ws[k], p, j, i);
  }

  // ---- Messages accepted twice ----

  /** The exact condition under which a message recovered from the store is accepted again: its index is
      still at or ahead of the position of the current chain, within reach, and not tracked. */
  ghost predicate ReplayOpen(seed: Seed, q: Party, j: nat, i: nat) {
    && j == q.epoch - 1
    && q.st.nr <= i <= (q.st.nr + MAX_SKIP) % 0x1_0000_0000
    && MsgId(seed.draws(j + 1), i) !in q.st.received
    && |q.st.received| < MAX_RECEIVED_TRACKING
  }

  lemma StoredReplay(seed: Seed, w: World, who: nat, j: nat, i: nat, env: Env,
                     st: Session, r: Result<seq<byte>, RatchetError>, lost: set<SkipId>, w': World)
    requires Inv(seed, w) && Shape(w) && who < 2 && IsSent(w.log, j, i)
    requires SkipId(Hdr(seed, j), i) in w.parties[who].st.mkskipped
    requires var m := w.log[j][i].value;
             DeliversTo(seed, w, who, m.encHeader, m.ciphertext, m.ad, env, st, r, lost, w')
    ensures |w'.parties| == 2 && w'.log == w.log && r == Ok(w.log[j][i].value.plaintext)
    ensures w'.delivered == w.delivered + multiset{Ref(j, i)}
    ensures w'.parties[who] == w.parties[who].(st := st)
    ensures st == w.parties[who].st.(mkskipped := w.parties[who].st.mkskipped - {SkipId(Hdr(seed, j), i)})
    ensures Delivery.Verdict(seed, w'.log, w'.parties[who], j, i).None? <==> ReplayOpen(seed, w.parties[who], j, i)
  {
    hide PartyOk, LogOk, Bounded, Open, Hdr, ConcatAd;
    var q := w.parties[who];
    InvFor(seed, w, who);
    LogOkBounded(seed, w.log);
    Delivery.OpeningOfSent(seed, w.log, who, q, j, i);
    HdrIndex(seed, j);
    StoredIsSent(seed, w.log, who, q, j, i);
  }

  ghost function Fresh(seed: Seed): World {
    World([Party(InitSender(seed.sk, seed.draws(0), seed.draws(1)), 0),
           Party(InitReceiver(seed.sk, seed.draws(0)), -1)], [[]], multiset{}, {})
  }

  /** m messages have been sent on the first chain and none delivered. */
  ghost predicate SentOnly(seed: Seed, w: World, m: nat) {
    && Reached(seed, w) && w.delivered == multiset{}
    && w.parties[1] == Party(InitReceiver(seed.sk, seed.draws(0)), -1)
    && |w.log| == 1 && |w.log[0]| == m && (forall i: nat | i < m :: IsSent(w.log, 0, i))
    && w.parties[0].epoch == 0 && w.parties[0].st.ns == m && w.parties[0].st.headerNonceCounter == m
  }

  lemma FreshIsReached(seed: Seed)
    ensures Init(seed, Fresh(seed)) && SentOnly(seed, Fresh(seed), 0)
  {
    InitIsReached(seed, Fresh(seed));
  }

  lemma SendOneMore(seed: Seed, w: World, m: nat) returns (w': World)
    requires SentOnly(seed, w, m) && m < U32_MAX
    ensures Step(seed, w, Send(0, [], []), w') && SentOnly(seed, w', m + 1)
  {
    hide Inv, InReach, NoHoles, DeliveredBehind, Step, InitReceiver;
    w' := SendAppends(seed, w, 0, []);
    var sent :| w'.log == Appended(w.log, 0, Some(sent));
    forall i: nat | i < m + 1 ensures IsSent(w'.log, 0, i) {
      if i < m {
        assert IsSent(w.log, 0, i);
      }
    }
  }

  /** The first delivery: message n of the first chain, the keys of the earlier ones are stored. */
  lemma FirstDelivery(seed: Seed, w: World, m: nat, n: nat) returns (e: Event, w': World)
    requires SentOnly(seed, w, m) && n < m && n <= MAX_SKIP
    ensures Step(seed, w, e, w') && Reached(seed, w')
    ensures w'.log == w.log + [[]] && w'.parties[0] == w.parties[0] && w'.delivered == multiset{Ref(0, n)}
    ensures w'.parties[1].epoch == 1 && w'.parties[1].st.nr == 1 && w'.parties[1].st.headerNonceCounter == 0
    ensures w'.parties[1].st.received == {MsgId(seed.draws(1), n)} && HasKeys(seed, w'.parties[1], 0, 0, n)
  {
    EmptyReceiver(seed);
    hide Inv, InReach, NoHoles, DeliveredBehind, Step, InitReceiver, HasKeys, Returns;
    var r;
    e, r, w' := RatchetDelivery(seed, w, 1, n);
  }

  lemma EmptyReceiver(seed: Seed)
    ensures var st := InitReceiver(seed.sk, seed.draws(0));
            st.nr == 0 && st.received == {} && st.headerNonceCounter == 0
  {
  }

  /** From every seed there is a run in which message 1 of the first chain is accepted twice: three messages
      are sent; the last arrives first, then the middle one, from the store, and then the middle one again, on the
      receiving chain. */
  lemma AcceptedTwice(seed: Seed) returns (ws: seq<World>, es: seq<Event>)
    ensures Run(seed, ws, es) && |es| == 6
    ensures ws[6].delivered[Ref(0, 1)] == 2
  {
    hide Inv, InReach, NoHoles, DeliveredBehind, Step, InitReceiver, InitSender, HasKey;
    FreshIsReached(seed);
    var w0 := Fresh(seed);
    var w1 := SendOneMore(seed, w0, 0);
    var w2 := SendOneMore(seed, w1, 1);
    var w3 := SendOneMore(seed, w2, 2);
    var e4, w4 := FirstDelivery(seed, w3, 3, 2);
    HasKeysAt(seed, w4.parties[1], 0, 0, 2, 1);
    assert IsSent(w3.log, 0, 1) && IsSent(w4.log, 0, 1);
    hide Init, Fresh, SentOnly, HasKeys;
    var e5, e6, w5, w6 := StoredThenLive(seed, w4);
    var s := Send(0, [], []);
    ws, es := [w0, w1, w2, w3, w4, w5, w6], [s, s, s, e4, e5, e6];
  }

  lemma StoredThenLive(seed: Seed, w: World) returns (e: Event, e': Event, w1: World, w': World)
    requires Reached(seed, w) && w.parties[1].epoch == 1 && w.parties[1].st.nr == 1 && HasKey(seed, w.parties[1], 0, 1)
    requires w.parties[1].st.received == {MsgId(seed.draws(1), 2)} && IsSent(w.log, 0, 1)
             && w.delivered == multiset{Ref(0, 2)}
    ensures Step(seed, w, e, w1) && Step(seed, w1, e', w') && w'.delivered[Ref(0, 1)] == 2
  {
    hide Inv, InReach, NoHoles, DeliveredBehind, Step, Hdr, Returns;
    e, w1 := StoredDelivery(seed, w, 1, 0, 1);
    var r;
    e', r, w' := DirectDelivery(seed, w1, 1, 1);
  }

  /** And a run in which it is accepted first on the receiving chain, is tracked, has its key stored by the next message
      although it is delivered already, and is accepted again from the store. */
  lemma AcceptedLiveTwice(seed: Seed) returns (ws: seq<World>, es: seq<Event>)
    ensures Run(seed, ws, es) && |es| == 6
    ensures ws[6].delivered[Ref(0, 1)] == 2
  {
    hide Inv, InReach, NoHoles, DeliveredBehind, Step, InitReceiver, InitSender, HasKey;
    FreshIsReached(seed);
    var w0 := Fresh(seed);
    var w1 := SendOneMore(seed, w0, 0);
    var w2 := SendOneMore(seed, w1, 1);
    var e3, w3 := FirstDelivery(seed, w2, 2, 1);
    assert IsSent(w2.log, 0, 1) && IsSent(w3.log, 0, 1);
    hide Init, Fresh, SentOnly, HasKeys;
    var e5, e6, w4, w5, w6 := LiveThenStored(seed, w3);
    var s := Send(0, [], []);
    ws, es := [w0, w1, w2, w3, w4, w5, w6], [s, s, e3, s, e5, e6];
  }

  lemma LiveThenStored(seed: Seed, w: World) returns (e: Event, e': Event, w1: World, w2: World, w': World)
    requires Reached(seed, w) && w.parties[1].epoch == 1 && w.parties[1].st.nr == 1 && |w.log| == 2 && |w.log[0]| == 2
    requires w.parties[1].st.received == {MsgId(seed.draws(1), 1)} && IsSent(w.log, 0, 1)
             && w.delivered == multiset{Ref(0, 1)}
    requires w.parties[0].epoch == 0 && w.parties[0].st.ns == 2 && w.parties[0].st.headerNonceCounter == 2
    ensures Step(seed, w, Send(0, [], []), w1) && Step(seed, w1, e, w2) && Step(seed, w2, e', w')
    ensures w'.delivered[Ref(0, 1)] == 2
  {
    hide Inv, InReach, NoHoles, DeliveredBehind, Step, HasKey, Returns;
    UnsentIsOpen(seed, w, 1);
    w1 := SendAppends(seed, w, 0, []);
    var sent :| w1.log == Appended(w.log, 0, Some(sent));
    var r;
    e, r, w2 := DirectDelivery(seed, w1, 1, 2);
    HasKeysAt(seed, w2.parties[1], 0, 1, 2, 1);
    e', w' := StoredDelivery(seed, w2, 1, 0, 1);
  }
}
