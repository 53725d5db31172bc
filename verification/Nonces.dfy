/** No header nonce is used twice in a whole conversation. */
module Nonces {
  import opened Wrappers
  import opened Bytes
  import opened Keys
  import opened Framing
  import opened SkippedKeys
  import opened RatchetSpec
  import opened Conversation
  import Lockstep

  /** Each party's counter is above every counter it has used, and has never been used twice. */
  ghost predicate CountersFresh(w: World) {
    && |w.parties| == 2
    && (forall j: nat, i: nat | IsSent(w.log, j, i) ::
          w.log[j][i].value.counter < w.parties[j % 2].st.headerNonceCounter)
    && (forall j: nat, i: nat, j': nat, i': nat |
          IsSent(w.log, j, i) && IsSent(w.log, j', i') && j % 2 == j' % 2 && (j != j' || i != i') ::
          w.log[j][i].value.counter != w.log[j'][i'].value.counter)
  }

  /** decrypt touches neither the counter nor the role, whatever it does to the rest. */
  lemma DecryptKeepsCounter(s: Session, enc: Wire, ct: Wire, ad: seq<byte>, env: Env,
                            s': Session, r: Result<seq<byte>, RatchetError>, lost: set<SkipId>)
    requires Decrypts(s, enc, ct, ad, env, s', r, lost)
    ensures s'.headerNonceCounter == s.headerNonceCounter && s'.isSender == s.isSender
  {
    hide SkipsOrClears, StoresOldChain, StoredMatch, DecryptHeader, ComputeMessageKey, OpenBody, ConcatAd;
    if Open(s, enc, ct, ad).Live? {
      var o := Open(s, enc, ct, ad);
      var committed, error :| Accepts(s, o.header, o.dhRatchet, o.plaintext, env, committed, error, s', r, lost);
      CommitKeepsCounter(s, o.header, o.dhRatchet, env, committed, error, lost);
    }
  }

  lemma CommitKeepsCounter(s: Session, h: RatchetHeader, dhRatchet: bool, env: Env,
                           s': Session, error: Option<RatchetError>, lost: set<SkipId>)
    requires dhRatchet || s.ckR.Some?
    requires Commits(s, h, dhRatchet, env, s', error, lost)
    ensures s'.headerNonceCounter == s.headerNonceCounter && s'.isSender == s.isSender
  {
    hide SkipsOrClears, StoresOldChain;
    if dhRatchet {
      var mid, l1, l2 :| RatchetsThrough(s, h, env, mid, l1, l2, s', error) && lost == l1 + l2;
    }
  }

  lemma EncryptUsesCounter(s: Session, plaintext: seq<byte>, ad: seq<byte>)
    ensures var (s', r) := Encrypt(s, plaintext, ad);
            && s.headerNonceCounter <= s'.headerNonceCounter
            && (r.Ok? ==> s'.headerNonceCounter == s.headerNonceCounter + 1 && s'.ns == s.ns + 1)
  {
    hide SealHeader, SealBody, ConcatAd, NonceBytes;
  }

  lemma SendKeepsFresh(seed: Seed, w: World, who: nat, plaintext: seq<byte>, ad: seq<byte>)
    requires Inv(seed, w) && CountersFresh(w) && who < 2
    ensures Shape(w) && CountersFresh(AfterSend(w, who, plaintext, ad))
  {
    hide PartyOk, LogOk, Encrypt;
    Lockstep.InvFor(seed, w, who);
    Lockstep.PartyBounds(seed, w.log, who, w.parties[who]);
    EncryptUsesCounter(w.parties[who].st, plaintext, ad);
    var w', e := AfterSend(w, who, plaintext, ad), w.parties[who].epoch;
    forall j: nat, i: nat | IsSent(w'.log, j, i)
      ensures IsSent(w.log, j, i) ==> w'.log[j][i] == w.log[j][i]
      ensures !IsSent(w.log, j, i) ==>
                j == e && i == |w.log[e]| && w'.log[j][i].value.counter == w.parties[who].st.headerNonceCounter
                && w'.parties[who].st.headerNonceCounter == w.parties[who].st.headerNonceCounter + 1
    {
    }
  }

  lemma DeliverKeepsFresh(seed: Seed, w: World, who: nat, enc: Wire, ct: Wire, ad: seq<byte>, env: Env,
                          st: Session, r: Result<seq<byte>, RatchetError>, lost: set<SkipId>, w': World)
    requires Shape(w) && CountersFresh(w) && who < 2
    requires DeliversTo(seed, w, who, enc, ct, ad, env, st, r, lost, w')
    ensures CountersFresh(w')
  {
    hide Decrypts, Open;
    DecryptKeepsCounter(w.parties[who].st, enc, ct, ad, env, st, r, lost);
    assert forall p | 0 <= p < 2 :: w'.parties[p].st.headerNonceCounter == w.parties[p].st.headerNonceCounter;
    forall j: nat, i: nat | IsSent(w'.log, j, i) ensures IsSent(w.log, j, i) && w'.log[j][i] == w.log[j][i] {
    }
  }

  lemma {:induction false} RunKeepsFresh(seed: Seed, ws: seq<World>, es: seq<Event>, k: nat)
    requires Run(seed, ws, es) && k < |ws|
    ensures CountersFresh(ws[k])
  {
    hide Inv, DeliversTo, Deliverable;
    if k > 0 {
      RunKeepsFresh(seed, ws, es, k - 1);
      Lockstep.RunKeepsLockstep(seed, ws, es, k - 1);
      assert Step(seed, ws[k - 1], es[k - 1], ws[k - 1 + 1]);
      match es[k - 1] {
        case Send(who, plaintext, ad) => SendKeepsFresh(seed, ws[k - 1], who, plaintext, ad);
        case Deliver(who, enc, ct, ad, env) =>
          var st, r, lost :| DeliversTo(seed, ws[k - 1], who, enc, ct, ad, env, st, r, lost, ws[k - 1 + 1]);
          DeliverKeepsFresh(seed, ws[k - 1], who, enc, ct, ad, env, st, r, lost, ws[k - 1 + 1]);
      }
    }
  }

  /** The 12 clear bytes at the front of two different encrypted headers of a run always differ, whichever
      parties sent them and however many DH ratchet steps lie between. */
  lemma NoncesNeverRepeat(seed: Seed, ws: seq<World>, es: seq<Event>, k: nat, j: nat, i: nat, j': nat, i': nat)
    requires Run(seed, ws, es) && k < |ws|
    requires IsSent(ws[k].log, j, i) && IsSent(ws[k].log, j', i') && (j != j' || i != i')
    ensures var h, h' := ws[k].log[j][i].value.encHeader, ws[k].log[j'][i'].value.encHeader;
            |h| == |h'| == 13 && h[..12] != h'[..12]
  {
    var w := ws[k];
    RunKeepsFresh(seed, ws, es, k);
    Lockstep.RunKeepsLockstep(seed, ws, es, k);
    hide Run, PartyOk, Hdr, HeaderAt;
    var m, m' := w.log[j][i].value, w.log[j'][i'].value;
    assert Genuine(seed, w.log, j, i, m) && Genuine(seed, w.log, j', i', m');
    var n, n' := NonceBytes(j % 2 == 0, m.counter), NonceBytes(j' % 2 == 0, m'.counter);
    assert m.encHeader[..12] == Octets(n) && m'.encHeader[..12] == Octets(n');
    if Octets(n) == Octets(n') {
      OctetsInjective(n, n');
      NonceBytesInjective(j % 2 == 0, m.counter, j' % 2 == 0, m'.counter);
    }
  }
}
