/**
 Two honest parties and an unreliable network.

 Party 0 is the initiator, party 1 the responder. The network may drop, delay, reorder and repeat
 messages, combine a header, a body and associated data from different messages, and inject strings of
 its own; the only thing it cannot do is make a sealed box under a key of the session.
 */
module Conversation {
  import opened Wrappers
  import opened Bytes
  import opened Keys
  import opened Framing
  import opened SkippedKeys
  import opened RatchetSpec

  /** What an encrypt call returned, with its inputs and the nonce counter it used. */
  datatype Sent = Sent(counter: u64, encHeader: Wire, ciphertext: Wire, ad: seq<byte>, plaintext: seq<byte>)

  /** Sending chain by sending chain, what each message index was used for; None when the index was
      consumed by an encrypt call that failed afterwards. */
  type Log = seq<seq<Option<Sent>>>

  /** A message by the number of its sending chain and its index there. */
  datatype Ref = Ref(chain: int, index: int)

  /** A session together with the number of its current sending chain (-1 before the first). */
  datatype Party = Party(st: Session, epoch: int)

  /** discarded collects the ids of the message keys that were thrown away unused. */
  datatype World = World(parties: seq<Party>, log: Log, delivered: multiset<Ref>, discarded: set<SkipId>)

  datatype Event =
    | Send(who: nat, plaintext: seq<byte>, ad: seq<byte>)
    | Deliver(who: nat, encHeader: Wire, ciphertext: Wire, ad: seq<byte>, env: Env)

  // ---- Runs ----

  ghost predicate Init(seed: Seed, w: World) {
    && w.parties == [Party(InitSender(seed.sk, seed.draws(0), seed.draws(1)), 0),
                     Party(InitReceiver(seed.sk, seed.draws(0)), -1)]
    && w.log == [[]]
    && w.delivered == multiset{}
    && w.discarded == {}
  }

  ghost predicate Shape(w: World) {
    && |w.parties| == 2
    && forall p | 0 <= p < 2 :: -1 <= w.parties[p].epoch < |w.log|
  }

  function AfterSend(w: World, who: nat, plaintext: seq<byte>, ad: seq<byte>): World
    requires Shape(w) && who < 2
  {
    var q := w.parties[who];
    var (st, r) := Encrypt(q.st, plaintext, ad);
    var entry := match r {
      case Ok(sealed) => Some(Sent(q.st.headerNonceCounter, sealed.encHeader, sealed.ciphertext, ad, plaintext))
      case Err(_) => None
    };
    var log := if st.ns == q.st.ns || q.epoch < 0 then w.log else w.log[q.epoch := w.log[q.epoch] + [entry]];
    w.(parties := w.parties[who := q.(st := st)], log := log)
  }

  /** Boxes the network can put on the wire: those made outside the session, and copies. */
  ghost predicate Available(log: Log, a: Atom) {
    match a
    case Octet(_) => true
    case HeaderBox(key, _, _) => key.Outside? || exists j, i :: IsSent(log, j, i) && a in log[j][i].value.encHeader
    case BodyBox(key, _, _) => key.Outside? || exists j, i :: IsSent(log, j, i) && a in log[j][i].value.ciphertext
  }

  ghost predicate IsSent(log: Log, j: int, i: int) {
    0 <= j < |log| && 0 <= i < |log[j]| && log[j][i].Some?
  }

  ghost predicate Deliverable(log: Log, encHeader: Wire, ciphertext: Wire) {
    forall a | a in encHeader || a in ciphertext :: Available(log, a)
  }

  predicate Ratchets(st: Session, o: Opening) {
    o.Live? && o.dhRatchet && OldChainError(st, o.header).None?
  }

  /** The message an accepted opening stands for. */
  function RefOf(q: Party, o: Opening): Ref
    requires !o.Refused?
  {
    match o
    case Stored(id, _) => Ref(ChainIndex(id.hk), id.n)
    case Live(h, dhRatchet, _) => Ref(if dhRatchet then q.epoch + 1 else q.epoch - 1, h.n)
  }

  function AfterDeliver(w: World, who: nat, o: Opening, st: Session, r: Result<seq<byte>, RatchetError>,
                        lost: set<SkipId>): World
    requires Shape(w) && who < 2
    requires r.Ok? ==> !o.Refused?
  {
    var q := w.parties[who];
    var q' := Party(st, if Ratchets(q.st, o) then q.epoch + 2 else q.epoch);
    var overfull := if r == Err(TooManyMessages) && o.Live? && st.hkR.Some?
                    then {SkipId(st.hkR.value, o.header.n)} else {};
    World(w.parties[who := q'],
          if Ratchets(q.st, o) then w.log + [[]] else w.log,
          if r.Ok? then w.delivered + multiset{RefOf(q, o)} else w.delivered,
          w.discarded + lost + overfull)
  }

  ghost predicate DeliversTo(seed: Seed, w: World, who: nat, enc: Wire, ct: Wire, ad: seq<byte>, env: Env,
                             st: Session, r: Result<seq<byte>, RatchetError>, lost: set<SkipId>, w': World)
    requires Shape(w) && who < 2
  {
    var s := w.parties[who].st;
    && env.secret == seed.draws(|w.log| + 1)
    && Decrypts(s, enc, ct, ad, env, st, r, lost)
    && (r.Ok? ==> !Open(s, enc, ct, ad).Refused?)
    && w' == AfterDeliver(w, who, Open(s, enc, ct, ad), st, r, lost)
  }

  ghost predicate Step(seed: Seed, w: World, e: Event, w': World) {
    && Shape(w)
    && e.who < 2
    && match e
       case Send(who, plaintext, ad) => w' == AfterSend(w, who, plaintext, ad)
       case Deliver(who, enc, ct, ad, env) =>
         && Deliverable(w.log, enc, ct)
         && exists st, r, lost :: DeliversTo(seed, w, who, enc, ct, ad, env, st, r, lost, w')
  }

  /** ws are the successive states of a run from a fresh session, es the events between them. */
  ghost predicate Run(seed: Seed, ws: seq<World>, es: seq<Event>) {
    && |ws| == |es| + 1
    && Init(seed, ws[0])
    && forall k | 0 <= k < |es| :: Step(seed, ws[k], es[k], ws[k + 1])
  }

  // ---- The shared key schedule ----

  function PrevLen(log: Log, j: nat): nat
    requires j < |log|
  {
    if j < 2 then 0 else |log[j - 2]|
  }

  ghost predicate Bounded(log: Log) {
    |log| >= 1 && forall j | 0 <= j < |log| :: |log[j]| <= U32_MAX
  }

  /** Header of message i of chain j. */
  function HeaderAt(seed: Seed, log: Log, j: nat, i: nat): RatchetHeader
    requires Bounded(log) && j < |log| && i <= U32_MAX
  {
    RatchetHeader(seed.draws(j + 1), PrevLen(log, j), i)
  }

  /** m is message i of chain j, sealed under the keys of the schedule. */
  ghost predicate Genuine(seed: Seed, log: Log, j: nat, i: nat, m: Sent)
    requires Bounded(log) && j < |log| && i <= U32_MAX
  {
    && |m.ad| <= MAX_AD_SIZE
    && m.encHeader == SealHeader(Hdr(seed, j), NonceBytes(j % 2 == 0, m.counter), HeaderAt(seed, log, j, i))
    && m.ciphertext == SealBody(MsgKey(seed, j, i), ConcatAd(m.ad, m.encHeader), m.plaintext)
  }

  ghost predicate LogOk(seed: Seed, log: Log) {
    && Bounded(log)
    && forall j, i | IsSent(log, j, i) :: Genuine(seed, log, j, i, log[j][i].value)
  }

  /** The keys that depend on the epoch only. */
  ghost predicate KeysOk(seed: Seed, q: Party) {
    && q.epoch >= -1
    && q.st.dhPair == seed.draws(q.epoch + 1)
    && q.st.rk == Root(seed, q.epoch + 1)
    && q.st.nhkS == Hdr(seed, q.epoch + 2)
    && q.st.nhkR == Hdr(seed, q.epoch + 1)
  }

  /** The sending chain stands at the number of messages sent in it. */
  ghost predicate SendingOk(seed: Seed, log: Log, q: Party)
    requires -1 <= q.epoch < |log|
  {
    var s, st := q.epoch, q.st;
    if s < 0 then st.ckS == None && st.hkS == None && st.dhRemote == None && st.ns == 0 && st.pn == 0
    else
      && st.hkS == Some(Hdr(seed, s))
      && st.dhRemote == Some(seed.draws(s))
      && st.ckS.Some?
      && st.ns == |log[s]|
      && (st.ns < U32_MAX ==> st.ckS == Some(Iter(Chain(seed, s), st.ns)))
      && st.pn == PrevLen(log, s)
  }

  /** The receiving chain stands at nr, the number of messages accepted from it directly. */
  ghost predicate ReceivingOk(seed: Seed, log: Log, q: Party)
    requires -1 <= q.epoch < |log|
  {
    var s, st := q.epoch, q.st;
    && (forall id: MsgId | id in st.received :: s >= 1 && id.dhPub == seed.draws(s) && 0 <= id.n < |log[s - 1]|)
    && |st.received| == (if st.nr <= MAX_RECEIVED_TRACKING then st.nr else MAX_RECEIVED_TRACKING)
    && if s < 1 then st.ckR == None && st.hkR == None && st.nr == 0
       else
         && st.hkR == Some(Hdr(seed, s - 1))
         && st.ckR == Some(Iter(Chain(seed, s - 1), st.nr))
         && st.nr <= |log[s - 1]|
  }

  /** A stored key is the message key its sender used, of a chain of the peer up to the current one. */
  ghost predicate EntryOk(seed: Seed, log: Log, epoch: int, id: SkipId, key: Key)
    requires epoch < |log|
  {
    var c := ChainIndex(id.hk);
    && c < epoch && c % 2 != epoch % 2
    && id.hk == Hdr(seed, c)
    && 0 <= id.n < |log[c]|
    && key == MsgKey(seed, c, id.n)
  }

  ghost predicate StoreOk(seed: Seed, log: Log, epoch: int, m: SkippedMap)
    requires epoch < |log|
  {
    && |m| <= MAX_SKIPPED_KEYS
    && forall id: SkipId | id in m :: EntryOk(seed, log, epoch, id, m[id].mk)
  }

  ghost predicate PartyOk(seed: Seed, log: Log, who: nat, q: Party) {
    && -1 <= q.epoch < |log|
    && q.epoch % 2 == who
    && q.st.isSender == (who == 0)
    && KeysOk(seed, q)
    && SendingOk(seed, log, q)
    && ReceivingOk(seed, log, q)
    && StoreOk(seed, log, q.epoch, q.st.mkskipped)
  }

  /** Lockstep: both parties hold the matching elements of one key schedule, and their sending chains
      are the last two of the conversation (neither epoch exceeds |log| - 1, and they sum to
      2 * |log| - 3), so that each receives on the chain before its own or on the one after. */
  ghost predicate Inv(seed: Seed, w: World) {
    && |w.parties| == 2
    && LogOk(seed, w.log)
    && w.parties[0].epoch + w.parties[1].epoch == 2 * |w.log| - 3
    && forall p | 0 <= p < 2 :: PartyOk(seed, w.log, p, w.parties[p])
  }
}
