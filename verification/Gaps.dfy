/** Messages that are overtaken, or left behind at the end of a chain, can be recovered. */
module Gaps {
  import opened Wrappers
  import opened Bytes
  import opened Keys
  import opened Framing
  import opened SkippedKeys
  import opened RatchetSpec
  import opened Conversation
  import Authenticity
  import Lockstep
  import Delivery
  import Conservation

  /** The clock has moved on since every stored key was entered, and between the two skips of a call. */
  ghost predicate ClockMovedOn(s: Session, env: Env) {
    && (forall id: SkipId, k: nat | id in s.mkskipped && k < |env.pnTimes| ::
          s.mkskipped[id].timestamp < env.pnTimes[k])
    && (forall id: SkipId, k: nat | id in s.mkskipped && k < |env.nTimes| ::
          s.mkskipped[id].timestamp < env.nTimes[k])
    && (forall k: nat, k': nat | k < |env.pnTimes| && k' < |env.nTimes| :: env.pnTimes[k] < env.nTimes[k'])
  }

  lemma OldChainStamps(s: Session, h: RatchetHeader, env: Env, mid: SkippedMap, lost: set<SkipId>)
    requires StoresOldChain(s, h, env.pnTimes, mid, lost) && OldChainError(s, h).None? && ClockMovedOn(s, env)
    ensures forall id: SkipId, k: nat | id in mid && k < |env.nTimes| :: mid[id].timestamp < env.nTimes[k]
  {
    hide Skips, Iter;
    forall id: SkipId, k: nat | id in mid && k < |env.nTimes| ensures mid[id].timestamp < env.nTimes[k] {
      if s.ckR.Some? && s.hkR.Some? {
        SkipsContentsAt(s.mkskipped, s.ckR.value, s.hkR.value, s.nr, h.pn, env.pnTimes, mid, lost, id);
      }
    }
  }

  /** The call authenticated its message and got through the commit. */
  predicate Committed(o: Opening, r: Result<seq<byte>, RatchetError>) {
    o.Live? && (r.Ok? || r.error == TooManyMessages)
  }

  /** The store has room for every key the message makes the party enter, so that nothing is evicted. */
  predicate HasRoom(log: Log, q: Party, h: RatchetHeader, dhRatchet: bool) {
    && (dhRatchet ==> 0 <= q.epoch + 1 < |log|)
    && |q.st.mkskipped| + Conservation.Backlog(log, q, h, dhRatchet) <= 2000
  }

  /** After a message ahead of the position is committed, the key of every message it overtook in its chain
      is in the store, so each of them is accepted when it arrives: always if the store had room, and otherwise if the
      clock has moved on, so that evictions fall on older keys. */
  lemma GapsAreRecoverable(seed: Seed, w: World, who: nat, enc: Wire, ct: Wire, ad: seq<byte>, env: Env,
                           st: Session, r: Result<seq<byte>, RatchetError>, lost: set<SkipId>, w': World, i: nat)
    requires Inv(seed, w) && Shape(w) && who < 2 && Deliverable(w.log, enc, ct)
    requires DeliversTo(seed, w, who, enc, ct, ad, env, st, r, lost, w')
    requires Committed(Open(w.parties[who].st, enc, ct, ad), r)
    requires var q, o := w.parties[who], Open(w.parties[who].st, enc, ct, ad);
             && (ClockMovedOn(q.st, env) || HasRoom(w.log, q, o.header, o.dhRatchet))
             && Position(q.st, o.dhRatchet) <= i < o.header.n
    ensures |w'.parties| == 2 && LogOk(seed, w'.log)
    ensures var c := RefOf(w.parties[who], Open(w.parties[who].st, enc, ct, ad)).chain;
            && 0 <= c < |w'.log|
            && SkipId(Hdr(seed, c), i) in w'.parties[who].st.mkskipped
            && (IsSent(w'.log, c, i) ==> Delivery.Verdict(seed, w'.log, w'.parties[who], c, i).None?)
  {
    hide PartyOk, LogOk, Bounded, Open, Deliverable, Hdr, Accepts, HasRoom, ClockMovedOn, Commits;
    var q, o := w.parties[who], Open(w.parties[who].st, enc, ct, ad);
    Lockstep.InvFor(seed, w, who);
    Lockstep.LogOkBounded(seed, w.log);
    Lockstep.DeliverKeepsLockstep(seed, w, who, enc, ct, ad, env, st, r, lost, w');
    Authenticity.OpeningExplained(seed, w.log, who, q, enc, ct, ad);
    var committed, error :| Accepts(q.st, o.header, o.dhRatchet, o.plaintext, env, committed, error, st, r, lost);
    Conservation.AcceptsCommits(q.st, o.header, o.dhRatchet, o.plaintext, env, committed, error, st, r, lost);
    Lockstep.LogOkBounded(seed, w'.log);
    GapStored(seed, w.log, who, q, env, o.header, o.dhRatchet, committed, error, lost, i);
  }

  /** The commit of a message h ahead of the position stores the keys of the messages it overtook. */
  lemma GapStored(seed: Seed, log: Log, who: nat, q: Party, env: Env, h: RatchetHeader, dhRatchet: bool,
                  committed: Session, error: Option<RatchetError>, lost: set<SkipId>, i: nat)
    requires Bounded(log) && PartyOk(seed, log, who, q) && (dhRatchet || (q.epoch >= 1 && q.st.ckR.Some?))
    requires if dhRatchet then
               && q.epoch == |log| - 2 && h.n < |log[q.epoch + 1]| && h == HeaderAt(seed, log, q.epoch + 1, h.n)
               && h.n <= MAX_SKIP
             else q.st.nr <= h.n <= q.st.nr + MAX_SKIP
    requires Commits(q.st, h, dhRatchet, env, committed, error, lost) && error.None?
    requires Position(q.st, dhRatchet) <= i < h.n
    requires ClockMovedOn(q.st, env) || HasRoom(log, q, h, dhRatchet)
    ensures SkipId(Hdr(seed, if dhRatchet then q.epoch + 1 else q.epoch - 1), i) in committed.mkskipped
  {
    hide PartyOk, Hdr, Commits, HeaderAt, HasRoom;
    Conservation.CurrentHeaderKey(seed, log, who, q);
    if !ClockMovedOn(q.st, env) {
      RoomKeeps(seed, log, who, q, env, h, dhRatchet, committed, error, lost,
                SkipId(Hdr(seed, if dhRatchet then q.epoch + 1 else q.epoch - 1), i));
    } else if dhRatchet {
      RatchetStoresGap(q.st, h, env, committed, error, lost, i);
    } else {
      DirectStoresGap(q.st, h, env, committed, error, lost, i);
    }
  }

  /** With room in the store, every key of a message of the old chain from the position on, or of the new one before
      the message itself, is stored. */
  lemma RoomKeeps(seed: Seed, log: Log, who: nat, q: Party, env: Env, h: RatchetHeader, dhRatchet: bool,
                  committed: Session, error: Option<RatchetError>, lost: set<SkipId>, id: SkipId)
    requires Bounded(log) && PartyOk(seed, log, who, q) && HasRoom(log, q, h, dhRatchet) && error.None?
    requires dhRatchet || (q.epoch >= 1 && q.st.ckR.Some? && q.st.hkR.Some?)
    requires Commits(q.st, h, dhRatchet, env, committed, error, lost)
    requires if dhRatchet then
               && q.epoch == |log| - 2 && h.n < |log[q.epoch + 1]| && h == HeaderAt(seed, log, q.epoch + 1, h.n)
               && h.n <= MAX_SKIP
             else q.st.nr <= h.n <= q.st.nr + MAX_SKIP
    requires if dhRatchet then
               || InRange(id, q.st.nhkR, 0, h.n)
               || (q.st.ckR.Some? && q.st.hkR.Some? && InRange(id, q.st.hkR.value, q.st.nr, h.pn))
             else InRange(id, q.st.hkR.value, q.st.nr, h.n)
    ensures id in committed.mkskipped
  {
    hide PartyOk, Commits, Hdr;
    if dhRatchet {
      CommittedOldChain(q.st, h, env, committed, lost);
      Delivery.OldChainErrorOfSent(seed, log, who, q, h.n);
      Conservation.RatchetLosesNothing(seed, log, who, q, env, h, committed, error, lost);
      Conservation.RatchetKeeps(q.st, h, env, committed, error, lost, id);
    } else {
      Conservation.DirectLosesNothing(q.st, h, env, committed, error, lost);
      Conservation.DirectKeeps(q.st, h, env, committed, error, lost, id);
    }
  }

  lemma CommittedOldChain(s: Session, h: RatchetHeader, env: Env, s': Session, lost: set<SkipId>)
    requires Commits(s, h, true, env, s', None, lost)
    ensures OldChainError(s, h).None?
  {
    hide Skips, Iter, StoresOldChain, Advances;
  }

  lemma DirectStoresGap(s: Session, h: RatchetHeader, env: Env, s': Session, error: Option<RatchetError>,
                        lost: set<SkipId>, i: nat)
    requires s.ckR.Some? && s.hkR.Some? && Commits(s, h, false, env, s', error, lost) && error.None?
    requires forall id: SkipId, k: nat | id in s.mkskipped && k < |env.nTimes| ::
               s.mkskipped[id].timestamp < env.nTimes[k]
    requires s.nr <= i < h.n
    ensures SkipId(s.hkR.value, i) in s'.mkskipped
  {
    hide Skips, Iter;
    SkipsKeepsNewKeys(s.mkskipped, s.ckR.value, s.hkR.value, s.nr, h.n, env.nTimes, s'.mkskipped, lost);
  }

  lemma RatchetStoresGap(s: Session, h: RatchetHeader, env: Env, s': Session, error: Option<RatchetError>,
                         lost: set<SkipId>, i: nat)
    requires Commits(s, h, true, env, s', error, lost) && error.None? && ClockMovedOn(s, env)
    requires i < h.n
    ensures SkipId(s.nhkR, i) in s'.mkskipped
  {
    hide Skips, Iter, StoresOldChain, SkipsOrClears;
    var mid, l1, l2 :| RatchetsThrough(s, h, env, mid, l1, l2, s', error) && lost == l1 + l2;
    OldChainStamps(s, h, env, mid, l1);
    DirectStoresGap(Ratchet(s, h, mid, env.secret), h, env, s', error, l2, i);
  }

  // ---- The tail of a chain ----

  /** A DH ratchet step enters the keys of the tail of the old chain first and keeps them, as long as the keys it
      enters are at most MAX_SKIP in all: then an eviction for the new chain falls on older keys. */
  lemma RatchetStoresTail(s: Session, h: RatchetHeader, env: Env, s': Session, error: Option<RatchetError>,
                          lost: set<SkipId>, i: nat)
    requires Commits(s, h, true, env, s', error, lost) && error.None? && ClockMovedOn(s, env)
    requires s.ckR.Some? && s.hkR.Some? && s.nhkR != s.hkR.value
    requires s.nr <= i < h.pn && h.pn - s.nr + h.n <= MAX_SKIP
    ensures SkipId(s.hkR.value, i) in s'.mkskipped
  {
    hide Skips, Iter, StoresOldChain;
    var mid, l1, l2 :| RatchetsThrough(s, h, env, mid, l1, l2, s', error) && lost == l1 + l2;
    var base, x := Ratchet(s, h, mid, env.secret), SkipId(s.hkR.value, i);
    var tail := set k: nat | s.nr <= k < h.pn :: SkipId(s.hkR.value, k);
    TailFacts(s, h, env, mid, l1, tail, x);
    RangeSize(tail, s.hkR.value, s.nr, h.pn);
    assert base.ckR.Some? && base.hkR == Some(s.nhkR) && base.nr == 0 && base.mkskipped == mid;
    SkipsKeepsRecent(mid, base.ckR.value, s.nhkR, 0, h.n, env.nTimes, s'.mkskipped, l2, tail, x);
  }

  lemma TailFacts(s: Session, h: RatchetHeader, env: Env, mid: SkippedMap, lost: set<SkipId>, tail: set<SkipId>,
                  x: SkipId)
    requires StoresOldChain(s, h, env.pnTimes, mid, lost) && OldChainError(s, h).None? && ClockMovedOn(s, env)
    requires s.ckR.Some? && s.hkR.Some? && s.nr < h.pn
    requires tail == set k: nat | s.nr <= k < h.pn :: SkipId(s.hkR.value, k)
    requires x in tail
    ensures x in mid && forall id: SkipId | id in mid && id !in tail :: mid[id].timestamp < mid[x].timestamp
    ensures forall id | id in tail :: InRange(id, s.hkR.value, s.nr, h.pn)
  {
    hide Skips, Iter;
    SkipsKeepsNewKeys(s.mkskipped, s.ckR.value, s.hkR.value, s.nr, h.pn, env.pnTimes, mid, lost);
    SkipsContentsAt(s.mkskipped, s.ckR.value, s.hkR.value, s.nr, h.pn, env.pnTimes, mid, lost, x);
    forall id: SkipId | InRange(id, s.hkR.value, s.nr, h.pn) ensures id in tail {
      assert id == SkipId(s.hkR.value, id.n);
    }
    forall id: SkipId | id in mid && id !in tail ensures mid[id].timestamp < mid[x].timestamp {
      SkipsContentsAt(s.mkskipped, s.ckR.value, s.hkR.value, s.nr, h.pn, env.pnTimes, mid, lost, id);
    }
  }

  /** The commit of a message h of the next chain stores the tail of the old one. */
  lemma TailStored(seed: Seed, log: Log, who: nat, q: Party, env: Env, h: RatchetHeader,
                   committed: Session, error: Option<RatchetError>, lost: set<SkipId>, i: nat)
    requires Bounded(log) && PartyOk(seed, log, who, q) && 1 <= q.epoch == |log| - 2
    requires h.n <= MAX_SKIP && h.n < |log[q.epoch + 1]| && h == HeaderAt(seed, log, q.epoch + 1, h.n)
    requires Commits(q.st, h, true, env, committed, error, lost) && error.None?
    requires q.st.nr <= i < |log[q.epoch - 1]|
    requires || HasRoom(log, q, h, true)
             || (ClockMovedOn(q.st, env) && Conservation.Backlog(log, q, h, true) <= 1000)
    ensures SkipId(Hdr(seed, q.epoch - 1), i) in committed.mkskipped
  {
    hide PartyOk, Hdr, Commits, HeaderAt, ClockMovedOn;
    Delivery.HeaderFields(seed, log, q.epoch + 1, h.n);
    Conservation.CurrentHeaderKey(seed, log, who, q);
    Conservation.CurrentPosition(seed, log, who, q);
    HdrIndex(seed, q.epoch - 1);
    HdrIndex(seed, q.epoch + 1);
    if HasRoom(log, q, h, true) {
      RoomKeeps(seed, log, who, q, env, h, true, committed, error, lost, SkipId(Hdr(seed, q.epoch - 1), i));
    } else {
      RatchetStoresTail(q.st, h, env, committed, error, lost, i);
    }
  }

  /** After a message that starts a new chain is accepted, the key of every message of the old chain from the
      position on is in the store, so each of them is accepted when it arrives: always if the store had room, and
      otherwise if the clock has moved on and the call had at most MAX_SKIP keys to enter in all. */
  lemma TailIsRecoverable(seed: Seed, w: World, who: nat, enc: Wire, ct: Wire, ad: seq<byte>, env: Env,
                          st: Session, r: Result<seq<byte>, RatchetError>, lost: set<SkipId>, w': World, i: nat)
    requires Inv(seed, w) && Shape(w) && who < 2 && Deliverable(w.log, enc, ct)
    requires DeliversTo(seed, w, who, enc, ct, ad, env, st, r, lost, w')
    requires var o := Open(w.parties[who].st, enc, ct, ad); r.Ok? && o.Live? && o.dhRatchet
    requires var q, o := w.parties[who], Open(w.parties[who].st, enc, ct, ad);
             && 1 <= q.epoch < |w.log| - 1 && q.st.nr <= i < |w.log[q.epoch - 1]|
             && (HasRoom(w.log, q, o.header, true)
                 || (ClockMovedOn(q.st, env) && Conservation.Backlog(w.log, q, o.header, true) <= 1000))
    ensures |w'.parties| == 2 && LogOk(seed, w'.log)
    ensures var c := w.parties[who].epoch - 1;
            && c < |w'.log|
            && SkipId(Hdr(seed, c), i) in w'.parties[who].st.mkskipped
            && (IsSent(w'.log, c, i) ==> Delivery.Verdict(seed, w'.log, w'.parties[who], c, i).None?)
  {
    hide PartyOk, LogOk, Bounded, Open, Deliverable, Hdr, Accepts, HeaderAt, HasRoom, ClockMovedOn;
    var q, o := w.parties[who], Open(w.parties[who].st, enc, ct, ad);
    Lockstep.InvFor(seed, w, who);
    Lockstep.LogOkBounded(seed, w.log);
    Lockstep.DeliverKeepsLockstep(seed, w, who, enc, ct, ad, env, st, r, lost, w');
    Lockstep.LogOkBounded(seed, w'.log);
    Authenticity.OpeningExplained(seed, w.log, who, q, enc, ct, ad);
    var committed, error :| Accepts(q.st, o.header, o.dhRatchet, o.plaintext, env, committed, error, st, r, lost);
    Conservation.AcceptsCommits(q.st, o.header, o.dhRatchet, o.plaintext, env, committed, error, st, r, lost);
    TailStored(seed, w.log, who, q, env, o.header, committed, error, lost, i);
  }
}
