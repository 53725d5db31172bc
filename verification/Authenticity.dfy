/** Whatever a party accepts is a message its peer sent, unaltered. */
module Authenticity {
  import opened Wrappers
  import opened Bytes
  import opened Keys
  import opened Framing
  import opened SkippedKeys
  import opened RatchetSpec
  import opened Conversation

  /** enc, ct and ad are, together, exactly message ref. */
  ghost predicate IsMessage(log: Log, ref: Ref, enc: Wire, ct: Wire, ad: seq<byte>) {
    && IsSent(log, ref.chain, ref.index)
    && var m := log[ref.chain][ref.index].value;
       enc == m.encHeader && ct == m.ciphertext && ad == m.ad
  }

  /** A header that opens under the header key of chain c was sealed for a message of chain c. */
  lemma HeaderIsSent(seed: Seed, log: Log, enc: Wire, ct: Wire, c: nat) returns (i: nat)
    requires LogOk(seed, log) && Deliverable(log, enc, ct)
    requires OpenHeader(Hdr(seed, c), enc).Ok?
    ensures IsSent(log, c, i)
    ensures OpenHeader(Hdr(seed, c), enc).value == HeaderAt(seed, log, c, i)
  {
    var a := enc[12];
    assert a in enc;
    assert !a.key.Outside?;
    var j, k :| IsSent(log, j, k) && a in log[j][k].value.encHeader;
    var m := log[j][k].value;
    assert Genuine(seed, log, j, k, m);
    var nonce := NonceBytes(j % 2 == 0, m.counter);
    assert a == HeaderBox(Hdr(seed, j), nonce, ToBytes(HeaderAt(seed, log, j, k)));
    HdrIndex(seed, j);
    HdrIndex(seed, c);
    HeaderRoundTrip(HeaderAt(seed, log, j, k));
    i := k;
  }

  /** A body that opens under a message key was sealed for that message, with its associated data. */
  lemma BodyIsSent(seed: Seed, log: Log, enc: Wire, ct: Wire, c: nat, i: nat, ad: seq<byte>)
    requires LogOk(seed, log) && Deliverable(log, enc, ct)
    requires |ad| <= MAX_AD_SIZE
    requires OpenBody(MsgKey(seed, c, i), ct, ConcatAd(ad, enc)).Ok?
    ensures IsMessage(log, Ref(c, i), enc, ct, ad)
    ensures OpenBody(MsgKey(seed, c, i), ct, ConcatAd(ad, enc)) == Ok(log[c][i].value.plaintext)
  {
    var a := ct[0];
    assert a in ct;
    var j, k :| IsSent(log, j, k) && a in log[j][k].value.ciphertext;
    var m := log[j][k].value;
    assert Genuine(seed, log, j, k, m);
    assert m.ciphertext == [a];
    MsgKeyInjective(seed, c, i, j, k);
    ConcatAdInjective(ad, enc, m.ad, m.encHeader);
  }

  /** A genuine header opens under the header key of its chain and no other. */
  lemma SentHeaderOpens(seed: Seed, log: Log, j: nat, i: nat, c: nat)
    requires LogOk(seed, log) && IsSent(log, j, i)
    ensures OpenHeader(Hdr(seed, c), log[j][i].value.encHeader) ==
            if c == j then Ok(HeaderAt(seed, log, j, i)) else Err(HeaderDecryptionFailed)
  {
    var m := log[j][i].value;
    assert Genuine(seed, log, j, i, m);
    OpenSealedHeader(Hdr(seed, j), Hdr(seed, c), NonceBytes(j % 2 == 0, m.counter), HeaderAt(seed, log, j, i));
    HdrIndex(seed, j);
    HdrIndex(seed, c);
  }

  /** A genuine body opens under its own message key and no other. */
  lemma SentBodyOpens(seed: Seed, log: Log, j: nat, i: nat, c: nat, k: nat)
    requires LogOk(seed, log) && IsSent(log, j, i)
    ensures var m := log[j][i].value;
            && |m.ad| <= MAX_AD_SIZE
            && OpenBody(MsgKey(seed, c, k), m.ciphertext, ConcatAd(m.ad, m.encHeader)) ==
               if c == j && k == i then Ok(m.plaintext) else Err(DecryptionFailed)
  {
    var m := log[j][i].value;
    assert Genuine(seed, log, j, i, m);
    if MsgKey(seed, c, k) == MsgKey(seed, j, i) {
      MsgKeyInjective(seed, c, k, j, i);
    }
  }

  /** The receiving chain a party works on is the peer's sending chain, at the party's position. */
  lemma ReceivingChainAt(seed: Seed, log: Log, who: nat, q: Party, h: RatchetHeader, dhRatchet: bool)
    requires PartyOk(seed, log, who, q)
    requires if dhRatchet then h.dhPub == seed.draws(q.epoch + 2) else q.epoch >= 1
    ensures ReceivingChain(q.st, h, dhRatchet) ==
            Some(Iter(Chain(seed, if dhRatchet then q.epoch + 1 else q.epoch - 1), Position(q.st, dhRatchet)))
  {
    hide StoreOk, SendingOk, Root, Hdr, Dh;
  }

  lemma ComputedFrom(st: Session, h: RatchetHeader, dhRatchet: bool, start: Key)
    requires ReceivingChain(st, h, dhRatchet) == Some(Iter(start, Position(st, dhRatchet)))
    ensures var pos: nat := Position(st, dhRatchet);
            ComputeMessageKey(st, h, dhRatchet) ==
            if (pos + MAX_SKIP) % 0x1_0000_0000 < h.n then Err(OldMessageKeysLimitReached)
            else Ok(MkOf(Iter(start, if pos < h.n then h.n else pos)))
  {
    var pos: nat := Position(st, dhRatchet);
    IterAdd(start, pos, if pos < h.n then h.n - pos else 0);
  }

  /** The message key computed for a header at or beyond the party's position is the one of that index in
      the chain the header key belongs to; a header behind the position yields the key at the position. */
  lemma ComputedKey(seed: Seed, log: Log, who: nat, q: Party, i: nat, dhRatchet: bool)
    requires Bounded(log) && PartyOk(seed, log, who, q)
    requires dhRatchet || q.epoch >= 1
    requires dhRatchet ==> q.epoch + 1 < |log|
    requires i < |log[if dhRatchet then q.epoch + 1 else q.epoch - 1]|
    ensures var c := if dhRatchet then q.epoch + 1 else q.epoch - 1;
            var pos := Position(q.st, dhRatchet);
            ComputeMessageKey(q.st, HeaderAt(seed, log, c, i), dhRatchet) ==
            if (pos + MAX_SKIP) % 0x1_0000_0000 < i then Err(OldMessageKeysLimitReached)
            else Ok(MsgKey(seed, c, if pos < i then i else pos))
  {
    hide StoreOk, SendingOk, ReceivingOk, KeysOk, Chain, Iter, ReceivingChain, ComputeMessageKey;
    var c: nat := if dhRatchet then q.epoch + 1 else q.epoch - 1;
    ReceivingChainAt(seed, log, who, q, HeaderAt(seed, log, c, i), dhRatchet);
    ComputedFrom(q.st, HeaderAt(seed, log, c, i), dhRatchet, Chain(seed, c));
  }

  /** Everything known about an opening in a reachable world. */
  ghost predicate Explained(seed: Seed, log: Log, who: nat, q: Party, enc: Wire, ct: Wire, ad: seq<byte>, o: Opening)
    requires Bounded(log)
  {
    !o.Refused? ==>
      && var ref := RefOf(q, o);
      && IsMessage(log, ref, enc, ct, ad)
      && ref.chain % 2 != who && ref.chain <= q.epoch + 1
      && o.plaintext == log[ref.chain][ref.index].value.plaintext
      && (o.Stored? ==> o.id == SkipId(Hdr(seed, ref.chain), ref.index) && ref.chain < q.epoch)
      && (o.Live? ==> o.header == HeaderAt(seed, log, ref.chain, ref.index))
      && (o.Live? ==> Position(q.st, o.dhRatchet) <= ref.index <= Position(q.st, o.dhRatchet) + MAX_SKIP)
      && (o.Live? ==> o.dhRatchet || q.epoch >= 1)
  }

  lemma NeighbourParity(s: int)
    ensures (s + 1) % 2 != s % 2 && (s - 1) % 2 != s % 2 && (s + 2) % 2 == s % 2
  {
  }

  lemma StoredExplained(seed: Seed, log: Log, who: nat, q: Party, enc: Wire, ct: Wire, ad: seq<byte>,
                        id: SkipId, plaintext: seq<byte>)
    requires LogOk(seed, log) && PartyOk(seed, log, who, q) && Deliverable(log, enc, ct) && |ad| <= MAX_AD_SIZE
    requires Opens(q.st.mkskipped, id, enc, ct, ConcatAd(ad, enc), plaintext)
    ensures Explained(seed, log, who, q, enc, ct, ad, Stored(id, plaintext))
  {
    hide KeysOk, SendingOk, ReceivingOk, LogOk, Deliverable, Hdr, MsgKey;
    assert EntryOk(seed, log, q.epoch, id, q.st.mkskipped[id].mk);
    BodyIsSent(seed, log, enc, ct, ChainIndex(id.hk), id.n, ad);
  }

  /** Which chain the header key tried belongs to. */
  lemma DecryptedHeader(seed: Seed, log: Log, who: nat, q: Party, enc: Wire, ct: Wire)
    returns (c: nat, i: nat)
    requires LogOk(seed, log) && PartyOk(seed, log, who, q) && Deliverable(log, enc, ct)
    requires DecryptHeader(q.st, enc).Ok?
    ensures IsSent(log, c, i)
    ensures var (h, dhRatchet) := DecryptHeader(q.st, enc).value;
            && h == HeaderAt(seed, log, c, i)
            && c == (if dhRatchet then q.epoch + 1 else q.epoch - 1)
            && (dhRatchet || q.epoch >= 1)
  {
    var (h, dhRatchet) := DecryptHeader(q.st, enc).value;
    c := if dhRatchet then q.epoch + 1 else q.epoch - 1;
    i := HeaderIsSent(seed, log, enc, ct, c);
  }

  /** The chain keys of the session open the message. */
  predicate OpensLive(st: Session, enc: Wire, ct: Wire, ad: seq<byte>, h: RatchetHeader, dhRatchet: bool,
                      plaintext: seq<byte>)
    requires |ad| <= MAX_AD_SIZE
  {
    && DecryptHeader(st, enc) == Ok((h, dhRatchet))
    && ComputeMessageKey(st, h, dhRatchet).Ok?
    && OpenBody(ComputeMessageKey(st, h, dhRatchet).value, ct, ConcatAd(ad, enc)) == Ok(plaintext)
  }

  lemma LiveMessage(seed: Seed, log: Log, who: nat, q: Party, enc: Wire, ct: Wire, ad: seq<byte>,
                    h: RatchetHeader, dhRatchet: bool, plaintext: seq<byte>)
    returns (c: nat, i: nat)
    requires LogOk(seed, log) && PartyOk(seed, log, who, q) && Deliverable(log, enc, ct) && |ad| <= MAX_AD_SIZE
    requires OpensLive(q.st, enc, ct, ad, h, dhRatchet, plaintext)
    ensures c == (if dhRatchet then q.epoch + 1 else q.epoch - 1) && (dhRatchet || q.epoch >= 1)
    ensures IsMessage(log, Ref(c, i), enc, ct, ad) && plaintext == log[c][i].value.plaintext
    ensures h == HeaderAt(seed, log, c, i)
    ensures Position(q.st, dhRatchet) <= i <= Position(q.st, dhRatchet) + MAX_SKIP
  {
    c, i := DecryptedHeader(seed, log, who, q, enc, ct);
    ComputedKey(seed, log, who, q, i, dhRatchet);
    ComputationIsBounded(q.st, h, dhRatchet);
    var k: nat := if Position(q.st, dhRatchet) < i then i else Position(q.st, dhRatchet);
    BodyIsSent(seed, log, enc, ct, c, k, ad);
    SentHeaderOpens(seed, log, c, k, c);
    SentHeaderOpens(seed, log, c, i, c);
  }

  lemma LiveExplained(seed: Seed, log: Log, who: nat, q: Party, enc: Wire, ct: Wire, ad: seq<byte>,
                      h: RatchetHeader, dhRatchet: bool, plaintext: seq<byte>)
    requires LogOk(seed, log) && PartyOk(seed, log, who, q) && Deliverable(log, enc, ct) && |ad| <= MAX_AD_SIZE
    requires OpensLive(q.st, enc, ct, ad, h, dhRatchet, plaintext)
    ensures Explained(seed, log, who, q, enc, ct, ad, Live(h, dhRatchet, plaintext))
  {
    hide StoreOk, SendingOk, ReceivingOk, KeysOk, LogOk, Deliverable, DecryptHeader, ComputeMessageKey, OpenBody, Hdr;
    var c, i := LiveMessage(seed, log, who, q, enc, ct, ad, h, dhRatchet, plaintext);
    NeighbourParity(q.epoch);
  }

  lemma OpeningExplained(seed: Seed, log: Log, who: nat, q: Party, enc: Wire, ct: Wire, ad: seq<byte>)
    requires LogOk(seed, log) && PartyOk(seed, log, who, q) && Deliverable(log, enc, ct)
    ensures Explained(seed, log, who, q, enc, ct, ad, Open(q.st, enc, ct, ad))
  {
    hide PartyOk, LogOk, Deliverable, StoredMatch, Opens, DecryptHeader, ComputeMessageKey, OpenBody, ConcatAd,
         IsMessage;
    match Open(q.st, enc, ct, ad) {
      case Refused(_) =>
      case Stored(id, plaintext) =>
        StoredMatchUnique(q.st.mkskipped, enc, ct, ConcatAd(ad, enc), id, plaintext);
        StoredExplained(seed, log, who, q, enc, ct, ad, id, plaintext);
      case Live(h, dhRatchet, plaintext) =>
        LiveExplained(seed, log, who, q, enc, ct, ad, h, dhRatchet, plaintext);
    }
  }
}
