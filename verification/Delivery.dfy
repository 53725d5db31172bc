/** What happens to each message of the conversation when it arrives: the exact verdict. */
module Delivery {
  import opened Wrappers
  import opened Bytes
  import opened Keys
  import opened Framing
  import opened SkippedKeys
  import opened RatchetSpec
  import opened Conversation
  import opened Authenticity
  import opened Lockstep

  /** The network can always deliver a message that was sent. */
  lemma SentIsDeliverable(seed: Seed, log: Log, j: int, i: int)
    requires LogOk(seed, log) && IsSent(log, j, i)
    ensures Deliverable(log, log[j][i].value.encHeader, log[j][i].value.ciphertext)
  {
    var m := log[j][i].value;
    assert Genuine(seed, log, j, i, m);
    forall a | a in m.encHeader || a in m.ciphertext ensures Available(log, a) {
      match a {
        case Octet(_) =>
        case HeaderBox(_, _, _) => assert a in m.encHeader;
        case BodyBox(_, _, _) => assert a in m.ciphertext;
      }
    }
  }

  /** What a genuine message is found to be before anything is written. */
  function ExpectedOpening(seed: Seed, log: Log, q: Party, j: nat, i: nat): Opening
    requires Bounded(log) && IsSent(log, j, i)
  {
    var s, st, m := q.epoch, q.st, log[j][i].value;
    var pos := Position(st, j == s + 1);
    if SkipId(Hdr(seed, j), i) in st.mkskipped then Stored(SkipId(Hdr(seed, j), i), m.plaintext)
    else if j != s - 1 && j != s + 1 then Refused(HeaderDecryptionFailed)
    else if MsgId(seed.draws(j + 1), i) in st.received then Refused(DuplicateMessage)
    else if (pos + MAX_SKIP) % 0x1_0000_0000 < i then Refused(OldMessageKeysLimitReached)
    else if i < pos then Refused(DecryptionFailed)
    else Live(HeaderAt(seed, log, j, i), j == s + 1, m.plaintext)
  }

  /** The fate of message i of chain j at party q, read off q's state: None when it is accepted. */
  function Verdict(seed: Seed, log: Log, q: Party, j: nat, i: nat): Option<RatchetError>
    requires Bounded(log) && IsSent(log, j, i)
  {
    match ExpectedOpening(seed, log, q, j, i)
    case Refused(e) => Some(e)
    case Stored(_, _) => None
    case Live(h, dhRatchet, _) =>
      if dhRatchet then OldChainError(q.st, h)
      else if |q.st.received| >= MAX_RECEIVED_TRACKING then Some(TooManyMessages)
      else None
  }

  /** The store opens a genuine message exactly when it holds an entry for it. */
  lemma StoredMatchOfSent(seed: Seed, log: Log, who: nat, q: Party, j: nat, i: nat)
    requires LogOk(seed, log) && PartyOk(seed, log, who, q) && IsSent(log, j, i)
    ensures var m, id := log[j][i].value, SkipId(Hdr(seed, j), i);
            && |m.ad| <= MAX_AD_SIZE
            && StoredMatch(q.st.mkskipped, m.encHeader, m.ciphertext, ConcatAd(m.ad, m.encHeader)) ==
               if id in q.st.mkskipped then Some((id, m.plaintext)) else None
  {
    hide KeysOk, SendingOk, ReceivingOk, Root, Iter, Chain;
    var m, id := log[j][i].value, SkipId(Hdr(seed, j), i);
    SentHeaderOpens(seed, log, j, i, j);
    SentBodyOpens(seed, log, j, i, j, i);
    assert Genuine(seed, log, j, i, m);
    assert m.encHeader[12].key == Hdr(seed, j);
    if id in q.st.mkskipped {
      assert EntryOk(seed, log, q.epoch, id, q.st.mkskipped[id].mk);
      HdrIndex(seed, j);
    }
  }

  /** Which of the two header keys opens a genuine header. */
  lemma DecryptHeaderOfSent(seed: Seed, log: Log, who: nat, q: Party, j: nat, i: nat)
    requires LogOk(seed, log) && PartyOk(seed, log, who, q) && IsSent(log, j, i)
    ensures DecryptHeader(q.st, log[j][i].value.encHeader) ==
            if j == q.epoch - 1 || j == q.epoch + 1 then Ok((HeaderAt(seed, log, j, i), j == q.epoch + 1))
            else Err(HeaderDecryptionFailed)
  {
    hide StoreOk, SendingOk, Root, Iter, Chain, Hdr;
    if q.epoch >= 1 {
      SentHeaderOpens(seed, log, j, i, q.epoch - 1);
    }
    SentHeaderOpens(seed, log, j, i, q.epoch + 1);
  }

  lemma OpeningOfSent(seed: Seed, log: Log, who: nat, q: Party, j: nat, i: nat)
    requires LogOk(seed, log) && PartyOk(seed, log, who, q) && IsSent(log, j, i)
    ensures var m := log[j][i].value;
            Open(q.st, m.encHeader, m.ciphertext, m.ad) == ExpectedOpening(seed, log, q, j, i)
  {
    hide PartyOk, LogOk, Bounded, StoredMatch, DecryptHeader, OpenBody, Hdr, MsgKey, ConcatAd, ComputeMessageKey,
         HeaderAt;
    var m := log[j][i].value;
    LogOkBounded(seed, log);
    StoredMatchOfSent(seed, log, who, q, j, i);
    DecryptHeaderOfSent(seed, log, who, q, j, i);
    PartyBounds(seed, log, who, q);
    if j == q.epoch - 1 || j == q.epoch + 1 {
      ComputedKey(seed, log, who, q, i, j == q.epoch + 1);
      var pos := Position(q.st, j == q.epoch + 1);
      SentBodyOpens(seed, log, j, i, j, if pos < i then i else pos);
      HeaderFields(seed, log, j, i);
    }
  }

  lemma HeaderFields(seed: Seed, log: Log, j: nat, i: nat)
    requires Bounded(log) && j < |log| && i <= U32_MAX
    ensures var h := HeaderAt(seed, log, j, i);
            h.dhPub == seed.draws(j + 1) && h.n == i && h.pn == PrevLen(log, j)
  {
  }

  /** Whether the DH ratchet step a genuine message asks for can store the old chain. */
  lemma OldChainErrorOfSent(seed: Seed, log: Log, who: nat, q: Party, i: nat)
    requires Bounded(log) && PartyOk(seed, log, who, q) && q.epoch == |log| - 2 && i <= U32_MAX
    ensures OldChainError(q.st, HeaderAt(seed, log, q.epoch + 1, i)) ==
            if PrevLen(log, q.epoch + 1) - q.st.nr > MAX_SKIP then Some(OldMessageKeysLimitReached) else None
  {
    hide StoreOk, SendingOk, Root, Iter, Chain, Hdr;
  }

  /** Delivery: a genuine message is accepted, with exactly its plaintext, or refused with exactly the error
      its verdict names. This covers first deliveries in any order, replays, and messages of one's own. */
  lemma VerdictIsExact(seed: Seed, w: World, who: nat, j: nat, i: nat, env: Env,
                       st: Session, r: Result<seq<byte>, RatchetError>, lost: set<SkipId>)
    requires Inv(seed, w) && who < 2 && IsSent(w.log, j, i)
    requires env.secret == seed.draws(|w.log| + 1)
    requires var m := w.log[j][i].value;
             Decrypts(w.parties[who].st, m.encHeader, m.ciphertext, m.ad, env, st, r, lost)
    ensures r == match Verdict(seed, w.log, w.parties[who], j, i) {
                   case None => Ok(w.log[j][i].value.plaintext)
                   case Some(e) => Err(e)
                 }
  {
    hide PartyOk, LogOk, Bounded, Accepts, Open, ConcatAd, Hdr;
    var q, m := w.parties[who], w.log[j][i].value;
    InvFor(seed, w, who);
    LogOkBounded(seed, w.log);
    OpeningOfSent(seed, w.log, who, q, j, i);
    match ExpectedOpening(seed, w.log, q, j, i) {
      case Refused(_) =>
      case Stored(_, _) =>
      case Live(h, dhRatchet, plaintext) =>
        var committed, error :| Accepts(q.st, h, dhRatchet, plaintext, env, committed, error, st, r, lost);
        SentLive(seed, w.log, who, q, j, i, env, dhRatchet, committed, error, st, r, lost);
    }
  }

  lemma SentLive(seed: Seed, log: Log, who: nat, q: Party, j: nat, i: nat, env: Env, dhRatchet: bool,
                 committed: Session, error: Option<RatchetError>,
                 st: Session, r: Result<seq<byte>, RatchetError>, lost: set<SkipId>)
    requires Bounded(log) && PartyOk(seed, log, who, q) && |log| - 2 <= q.epoch && IsSent(log, j, i)
    requires env.secret == seed.draws(|log| + 1)
    requires ExpectedOpening(seed, log, q, j, i) ==
             Live(HeaderAt(seed, log, j, i), dhRatchet, log[j][i].value.plaintext)
    requires dhRatchet || q.st.ckR.Some?
    requires Accepts(q.st, HeaderAt(seed, log, j, i), dhRatchet, log[j][i].value.plaintext, env,
                     committed, error, st, r, lost)
    ensures r == match Verdict(seed, log, q, j, i) {
                   case None => Ok(log[j][i].value.plaintext)
                   case Some(e) => Err(e)
                 }
  {
    hide PartyOk, Accepts, Hdr;
    var h := HeaderAt(seed, log, j, i);
    if dhRatchet {
      RatchetedLive(seed, log, who, q, env, h, log[j][i].value.plaintext, committed, error, st, r, lost);
      OldChainErrorOfSent(seed, log, who, q, i);
    } else {
      DirectLive(seed, log, who, q, env, h, log[j][i].value.plaintext, committed, error, st, r, lost);
    }
  }

  /** Nothing else is accepted: an input that is not, header, body and associated data together, one message
      of the peer is refused, and the session stays as it was. */
  lemma ForgeriesChangeNothing(seed: Seed, w: World, who: nat, enc: Wire, ct: Wire, ad: seq<byte>, env: Env,
                               st: Session, r: Result<seq<byte>, RatchetError>, lost: set<SkipId>)
    requires Inv(seed, w) && who < 2 && Deliverable(w.log, enc, ct)
    requires Decrypts(w.parties[who].st, enc, ct, ad, env, st, r, lost)
    requires forall j, i | IsSent(w.log, j, i) && j % 2 != who :: !IsMessage(w.log, Ref(j, i), enc, ct, ad)
    ensures r.Err? && st == w.parties[who].st
  {
    hide PartyOk, LogOk, Deliverable, Accepts;
    InvFor(seed, w, who);
    OpeningExplained(seed, w.log, who, w.parties[who], enc, ct, ad);
  }

  /** The two ways in which an error of a message that authenticates leaves its mark: storing the old chain
      failed on a store that held something, or the message could not be tracked any more. */
  predicate ErrorLeavesMark(s: Session, h: RatchetHeader, dhRatchet: bool) {
    if dhRatchet then OldChainError(s, h).Some? && s.mkskipped != map[]
    else |s.received| >= 10000
  }

  /** Failure atomicity, exactly: an error changes the session if and only if the message authenticates and
      either it starts a new chain while more than 1000 messages of the old one are missing and the store
      is not empty, or it belongs to the current chain and no more messages can be tracked. In the first case
      the store is emptied and nothing else happens; in the second the whole commit has been made. */
  lemma FailuresAreAtomic(seed: Seed, w: World, who: nat, enc: Wire, ct: Wire, ad: seq<byte>, env: Env,
                          st: Session, r: Result<seq<byte>, RatchetError>, lost: set<SkipId>)
    requires Inv(seed, w) && who < 2 && Deliverable(w.log, enc, ct)
    requires env.secret == seed.draws(|w.log| + 1)
    requires Decrypts(w.parties[who].st, enc, ct, ad, env, st, r, lost)
    ensures var s, o := w.parties[who].st, Open(w.parties[who].st, enc, ct, ad);
            r.Err? && st != s <==> o.Live? && ErrorLeavesMark(s, o.header, o.dhRatchet)
    ensures var s, o := w.parties[who].st, Open(w.parties[who].st, enc, ct, ad);
            r.Err? && st != s && o.Live? ==>
              if o.dhRatchet then r == Err(OldMessageKeysLimitReached) && st == s.(mkskipped := map[])
              else r == Err(TooManyMessages) && s.ckR.Some? && Commits(s, o.header, false, env, st, None, lost)
  {
    hide PartyOk, LogOk, Bounded, Deliverable, Accepts, Commits, OldChainError;
    var q, o := w.parties[who], Open(w.parties[who].st, enc, ct, ad);
    InvFor(seed, w, who);
    LogOkBounded(seed, w.log);
    OpeningExplained(seed, w.log, who, q, enc, ct, ad);
    if o.Live? {
      LiveIsFresh(q.st, enc, ct, ad);
      var committed, error :| Accepts(q.st, o.header, o.dhRatchet, o.plaintext, env, committed, error, st, r, lost);
      if o.dhRatchet {
        RatchetedLive(seed, w.log, who, q, env, o.header, o.plaintext, committed, error, st, r, lost);
      } else {
        DirectLive(seed, w.log, who, q, env, o.header, o.plaintext, committed, error, st, r, lost);
        CommitsDirectly(q.st, o.header, o.plaintext, env, committed, error, st, r, lost);
      }
    }
  }

  lemma CommitsDirectly(s: Session, h: RatchetHeader, plaintext: seq<byte>, env: Env, committed: Session,
                        error: Option<RatchetError>, st: Session, r: Result<seq<byte>, RatchetError>, lost: set<SkipId>)
    requires s.ckR.Some? && Accepts(s, h, false, plaintext, env, committed, error, st, r, lost)
    ensures r == Err(TooManyMessages) ==> Commits(s, h, false, env, st, None, lost)
  {
  }
}
