/** Registrations and exchanges interleaved statement by statement: each lock, each read and each commit is
    a step of its own, and a transaction may be cut off between any two of them. */
module IssuanceProtocol {
  import opened Wrappers
  import opened Ordering
  import opened LockOrder
  import opened Issuance

  /** Where a transaction stands, with what it has read so far. */
  datatype Phase =
    | Locking(contacts: Contacts, taken: nat)
    | Searched(contacts: Contacts, existing: Option<nat>)
    | Enrolled(contacts: Contacts, grant: nat)
    | Presenting(hash: Digest, claimed: nat)
    | Presented(g: nat, row: GrantRecord, claimed: nat)
    | Accepted(g: nat, row: GrantRecord, claimed: nat, checkedAt: nat)
    | Alone(g: nat, row: GrantRecord, claimed: nat, checkedAt: nat)
    | Clear(g: nat, row: GrantRecord, claimed: nat, checkedAt: nat)
    | Issued(g: nat, conversation: nat)
    | Unknown
    | Refused(g: nat, why: Refusal)
    | CutOff

  datatype World = World(rows: Registry, sessions: seq<Phase>)

  datatype Action =
    | BeginRegister(contacts: Contacts)
    | LockContact(s: nat)
    | Search(s: nat, existing: Option<nat>)
    | CommitRegister(s: nat, hash: Digest, publicId: nat)
    | BeginExchange(hash: Digest, claimed: nat)
    | LockGrant(s: nat)
    | CheckGrant(s: nat)
    | LockClient(s: nat)
    | LookForConversation(s: nat)
    | CommitExchange(s: nat)
    | Cut(s: nat)

  function Hashes(c: Contacts): seq<Digest> {
    (if c.email.Some? then [c.email.value] else []) + (if c.phone.Some? then [c.phone.value] else [])
  }

  function ContactLock(c: Contacts, i: nat): Lock
    requires i < |SortedHashes(Hashes(c))|
  {
    Advisory(AdvisoryKey(SortedHashes(Hashes(c))[i]))
  }

  /** The locks held in a phase; all are released at the end of the transaction. */
  function Holds(p: Phase): set<Lock> {
    match p
    case Locking(c, taken) => set i | 0 <= i < taken && i < |SortedHashes(Hashes(c))| :: ContactLock(c, i)
    case Searched(c, _) => set i | 0 <= i < |SortedHashes(Hashes(c))| :: ContactLock(c, i)
    case Presented(g, _, _) => {GrantRow(g)}
    case Accepted(g, _, _, _) => {GrantRow(g)}
    case Alone(g, row, _, _) => {GrantRow(g), ClientRow(row.client)}
    case Clear(g, row, _, _) => {GrantRow(g), ClientRow(row.client)}
    case _ => {}
  }

  predicate Free(w: World, s: nat, l: Lock) {
    forall o :: 0 <= o < |w.sessions| && o != s ==> l !in Holds(w.sessions[o])
  }

  predicate Finished(p: Phase) {
    p.Enrolled? || p.Issued? || p.Unknown? || p.Refused? || p.CutOff?
  }

  ghost predicate Enabled(w: World, a: Action) {
    match a
    case BeginRegister(c) => AnyContact(c)
    case BeginExchange(_, _) => true
    case _ => a.s < |w.sessions| && EnabledFor(w, w.sessions[a.s], a)
  }

  ghost predicate EnabledFor(w: World, p: Phase, a: Action)
    requires !a.BeginRegister? && !a.BeginExchange?
  {
    match a
    case LockContact(s) =>
      && p.Locking? && p.taken < |SortedHashes(Hashes(p.contacts))|
      && Free(w, s, ContactLock(p.contacts, p.taken))
    case Search(s, existing) =>
      && p.Locking? && p.taken == |SortedHashes(Hashes(p.contacts))|
      && Found(w.rows.clients, p.contacts, existing)
    case CommitRegister(s, hash, _) => p.Searched? && GrantByHash(w.rows.grants, hash).None?
    case LockGrant(s) =>
      p.Presenting? && var g := GrantByHash(w.rows.grants, p.hash); g.Some? ==> Free(w, s, GrantRow(g.value))
    case CheckGrant(s) => p.Presented?
    case LockClient(s) => p.Accepted? && Free(w, s, ClientRow(p.row.client))
    case LookForConversation(s) => p.Alone?
    case CommitExchange(s) => p.Clear? && p.g < |w.rows.grants|
    case Cut(s) => !Finished(p)
  }

  /** The session's next phase. */
  function After(r: Registry, p: Phase, a: Action, now: nat): Phase {
    match a
    case LockContact(_) => if p.Locking? then p.(taken := p.taken + 1) else p
    case Search(_, existing) => if p.Locking? then Searched(p.contacts, existing) else p
    case CommitRegister(_, _, _) => if p.Searched? then Enrolled(p.contacts, |r.grants|) else p
    case LockGrant(_) =>
      if !p.Presenting? then p else
      var g := GrantByHash(r.grants, p.hash);
      if g.None? then Unknown else Presented(g.value, r.grants[g.value], p.claimed)
    case CheckGrant(_) =>
      if !p.Presented? then p
      else if Usable(p.row, p.claimed, now) then Accepted(p.g, p.row, p.claimed, now) else Refused(p.g, GrantInvalid)
    case LockClient(_) => if p.Accepted? then Alone(p.g, p.row, p.claimed, p.checkedAt) else p
    case LookForConversation(_) =>
      if !p.Alone? then p
      else if HasConversation(r.conversations, p.row.client) then Refused(p.g, ConversationExists)
      else Clear(p.g, p.row, p.claimed, p.checkedAt)
    case CommitExchange(_) => if p.Clear? then Issued(p.g, |r.conversations|) else p
    case Cut(_) => CutOff
    case _ => p
  }

  function Written(r: Registry, p: Phase, a: Action, ttl: Lifetimes, now: nat): Registry {
    match a
    case CommitRegister(_, hash, publicId) =>
      if p.Searched? then Registered(r, p.contacts, p.existing, hash, publicId, ttl, now) else r
    case CommitExchange(_) => if p.Clear? && p.g < |r.grants| then Exchanged(r, p.g, ttl, now) else r
    case _ => r
  }

  function Next(w: World, a: Action, ttl: Lifetimes, now: nat): World
    requires Enabled(w, a)
  {
    match a
    case BeginRegister(c) => w.(sessions := w.sessions + [Locking(c, 0)])
    case BeginExchange(hash, claimed) => w.(sessions := w.sessions + [Presenting(hash, claimed)])
    case _ =>
      var p := w.sessions[a.s];
      World(Written(w.rows, p, a, ttl, now), w.sessions[a.s := After(w.rows, p, a, now)])
  }

  lemma ContactsHeldInOrder(c: Contacts, taken: nat)
    requires taken <= |SortedHashes(Hashes(c))|
    ensures |Locks(Registration(Hashes(c)))| == |SortedHashes(Hashes(c))|
    ensures Holds(Locking(c, taken)) == Elements(Locks(Registration(Hashes(c)))[..taken])
  {
    hide SortedHashes, AdvisoryKey;
    var planned := Locks(Registration(Hashes(c)));
    forall l | l in Elements(planned[..taken]) ensures l in Holds(Locking(c, taken)) {
      var i :| 0 <= i < taken && planned[..taken][i] == l;
      assert ContactLock(c, i) == l;
    }
    forall l | l in Holds(Locking(c, taken)) ensures l in Elements(planned[..taken]) {
      var i :| 0 <= i < taken && ContactLock(c, i) == l;
      assert planned[..taken][i] == l;
    }
  }

  lemma RowsHeldInOrder(g: nat, client: nat)
    ensures |Locks(Exchange(g, client))| == 2
    ensures Elements(Locks(Exchange(g, client))[..1]) == {GrantRow(g)}
    ensures Elements(Locks(Exchange(g, client))[..2]) == {GrantRow(g), ClientRow(client)}
  {
    assert Locks(Exchange(g, client))[..1] == [GrantRow(g)];
    assert Locks(Exchange(g, client))[..2] == [GrantRow(g), ClientRow(client)];
  }

  /** The transaction a phase belongs to, as far as its locks are known. */
  function Planned(p: Phase): Transaction
    requires !Finished(p) && !p.Presenting?
  {
    match p
    case Locking(c, _) => Registration(Hashes(c))
    case Searched(c, _) => Registration(Hashes(c))
    case Presented(g, row, _) => Exchange(g, row.client)
    case Accepted(g, row, _, _) => Exchange(g, row.client)
    case Alone(g, row, _, _) => Exchange(g, row.client)
    case Clear(g, row, _, _) => Exchange(g, row.client)
  }

  /** The locks held at any point are the first few of the transaction's place in the global lock order. */
  lemma HeldInGlobalOrder(p: Phase) returns (n: nat)
    requires !Finished(p) && !p.Presenting?
    requires p.Locking? ==> p.taken <= |SortedHashes(Hashes(p.contacts))|
    ensures n <= |Locks(Planned(p))| && Holds(p) == Elements(Locks(Planned(p))[..n])
    ensures p.Searched? || p.Alone? || p.Clear? ==> n == |Locks(Planned(p))|
  {
    hide Locks, SortedHashes, AdvisoryKey, Elements, Hashes;
    if p.Locking? {
      ContactsHeldInOrder(p.contacts, p.taken);
      return p.taken;
    }
    if p.Searched? {
      SearchedHolds(p.contacts, p.existing);
      ContactsHeldInOrder(p.contacts, |SortedHashes(Hashes(p.contacts))|);
      return |SortedHashes(Hashes(p.contacts))|;
    }
    RowsHeldInOrder(p.g, p.row.client);
    n := if p.Presented? || p.Accepted? then 1 else 2;
  }

  // ----- the invariant

  /** What a session has read is still so, and what it did is still there. */
  ghost predicate PhaseOk(r: Registry, p: Phase) {
    match p
    case Locking(c, taken) => AnyContact(c) && taken <= |SortedHashes(Hashes(c))|
    case Searched(c, existing) => AnyContact(c) && Found(r.clients, c, existing)
    case Enrolled(c, g) =>
      g < |r.grants| && r.grants[g].client < |r.clients| && Matches(r.clients[r.grants[g].client], c)
    case Presenting(_, _) => true
    case Presented(g, row, _) => g < |r.grants| && r.grants[g] == row
    case Accepted(g, row, claimed, checkedAt) => g < |r.grants| && r.grants[g] == row && Usable(row, claimed, checkedAt)
    case Alone(g, row, claimed, checkedAt) => g < |r.grants| && r.grants[g] == row && Usable(row, claimed, checkedAt)
    case Clear(g, row, claimed, checkedAt) =>
      && g < |r.grants| && r.grants[g] == row && Usable(row, claimed, checkedAt)
      && !HasConversation(r.conversations, row.client)
    case Issued(g, v) =>
      && g < |r.grants| && r.grants[g].consumedAt.Some?
      && v < |r.conversations| && r.conversations[v].client == r.grants[g].client
    case Refused(g, why) =>
      && g < |r.grants|
      && (why == ConversationExists ==>
            r.grants[g].consumedAt.None? && HasConversation(r.conversations, r.grants[g].client))
    case _ => true
  }

  ghost predicate Exclusive(w: World) {
    forall s, o :: 0 <= s < |w.sessions| && 0 <= o < |w.sessions| && s != o ==>
      Holds(w.sessions[s]) !! Holds(w.sessions[o])
  }

  /** No conversation was issued to two sessions. */
  ghost predicate OwnConversations(w: World) {
    forall s, o :: 0 <= s < o < |w.sessions| && w.sessions[s].Issued? && w.sessions[o].Issued?
      ==> w.sessions[s].conversation != w.sessions[o].conversation
  }

  ghost predicate PhasesOk(w: World) {
    forall s :: 0 <= s < |w.sessions| ==> PhaseOk(w.rows, w.sessions[s])
  }

  ghost predicate WorldOk(w: World) {
    RegistryOk(w.rows) && PhasesOk(w) && Exclusive(w) && OwnConversations(w)
  }

  /** A contact's lock is among those its registration holds. */
  lemma LocksContact(c: Contacts, h: Digest)
    requires h in Hashes(c)
    ensures Advisory(AdvisoryKey(h)) in Holds(Searched(c, None))
    ensures Advisory(AdvisoryKey(h)) in Holds(Locking(c, |SortedHashes(Hashes(c))|))
  {
    var sorted := SortedHashes(Hashes(c));
    assert h in multiset(Hashes(c));
    assert h in sorted;
    var i :| 0 <= i < |sorted| && sorted[i] == h;
    assert ContactLock(c, i) == Advisory(AdvisoryKey(h));
  }

  /** Two registrations that would find each other's client cannot both have searched. */
  lemma SharedContactExcludes(c: Contacts, d: Contacts, e: Option<nat>, f: Option<nat>)
    requires Holds(Searched(c, e)) !! Holds(Searched(d, f))
    ensures !Matches(ClientRecord(c), d)
  {
    if Matches(ClientRecord(c), d) {
      var h := if d.email.Some? && c.email == d.email then d.email.value else d.phone.value;
      assert h in Hashes(c) && h in Hashes(d);
      LocksContact(c, h);
      LocksContact(d, h);
    }
  }

  /** A registration that commits does not disturb what the others know. */
  lemma RegisterLeavesOthers(r: Registry, p: Phase, q: Phase, hash: Digest, publicId: nat, ttl: Lifetimes, now: nat)
    requires RegistryOk(r) && p.Searched? && PhaseOk(r, p) && PhaseOk(r, q) && Holds(p) !! Holds(q)
    ensures PhaseOk(Registered(r, p.contacts, p.existing, hash, publicId, ttl, now), q)
  {
    hide Holds, RegistryOk;
    if q.Searched? && p.existing.None? { SharedContactExcludes(p.contacts, q.contacts, p.existing, q.existing); }
  }

  /** Nor does an exchange: the row locks keep everyone else away from the grant and the client. */
  lemma ExchangeLeavesOthers(r: Registry, p: Phase, q: Phase, ttl: Lifetimes, now: nat)
    requires p.Clear? && PhaseOk(r, p) && PhaseOk(r, q) && Holds(p) !! Holds(q)
    ensures PhaseOk(Exchanged(r, p.g, ttl, now), q)
  {
    var s := Exchanged(r, p.g, ttl, now);
    assert GrantRow(p.g) in Holds(p) && ClientRow(p.row.client) in Holds(p);
    HasConversationNext(r.conversations, s.conversations[|r.conversations|]);
  }

  lemma HasConversationNext(rows: seq<ConversationRecord>, row: ConversationRecord)
    ensures forall c: nat :: HasConversation(rows + [row], c) <==> c == row.client || HasConversation(rows, c)
  {
    forall c: nat ensures HasConversation(rows + [row], c) <==> c == row.client || HasConversation(rows, c) {
      if c == row.client { assert (rows + [row])[|rows|].client == c; }
      if HasConversation(rows, c) {
        var v :| 0 <= v < |rows| && rows[v].client == c;
        assert (rows + [row])[v].client == c;
      }
    }
  }

  /** The rows after any step are in order and have only grown. */
  lemma WritesKeep(w: World, a: Action, ttl: Lifetimes, now: nat)
    requires WorldOk(w) && Enabled(w, a)
    ensures RegistryOk(Next(w, a, ttl, now).rows) && Grows(w.rows, Next(w, a, ttl, now).rows)
  {
    hide RegistryOk, Grows, Exclusive, OwnConversations, EnabledFor, PhaseOk, After, Written;
    GrowsFromItself(w.rows);
    if !a.BeginRegister? && !a.BeginExchange? {
      WrittenKeeps(w, w.sessions[a.s], a, ttl, now);
    }
  }

  lemma WrittenKeeps(w: World, p: Phase, a: Action, ttl: Lifetimes, now: nat)
    requires RegistryOk(w.rows) && !a.BeginRegister? && !a.BeginExchange? && EnabledFor(w, p, a) && PhaseOk(w.rows, p)
    ensures RegistryOk(Written(w.rows, p, a, ttl, now)) && Grows(w.rows, Written(w.rows, p, a, ttl, now))
  {
    hide RegistryOk, Grows, Free, Found, HasConversation, GrantByHash, Registered, Exchanged;
    GrowsFromItself(w.rows);
    if a.CommitRegister? {
      RegisteredKeeps(w.rows, p.contacts, p.existing, a.hash, a.publicId, ttl, now);
      RegisteredGrows(w.rows, p.contacts, p.existing, a.hash, a.publicId, ttl, now);
    }
    if a.CommitExchange? {
      ExchangedKeeps(w.rows, p.g, ttl, now);
      ExchangedGrows(w.rows, p.g, ttl, now);
    }
  }

  /** The moving session ends up in a phase that is true of the rows. */
  lemma OwnPhase(w: World, a: Action, ttl: Lifetimes, now: nat)
    requires WorldOk(w) && Enabled(w, a) && !a.BeginRegister? && !a.BeginExchange?
    ensures PhaseOk(Next(w, a, ttl, now).rows, Next(w, a, ttl, now).sessions[a.s])
  {
    hide RegistryOk, Exclusive, OwnConversations, EnabledFor, PhaseOk, After, Written;
    var p := w.sessions[a.s];
    if a.CommitRegister? { EnrolledPhase(w, p, a, ttl, now); }
    else if a.CommitExchange? { IssuedPhase(w, p, a, ttl, now); }
    else { ReadingPhase(w, p, a, ttl, now); }
  }

  lemma EnrolledPhase(w: World, p: Phase, a: Action, ttl: Lifetimes, now: nat)
    requires a.CommitRegister? && EnabledFor(w, p, a) && PhaseOk(w.rows, p)
    ensures PhaseOk(Written(w.rows, p, a, ttl, now), After(w.rows, p, a, now))
  {
    hide GrantByHash, HasConversation, SortedHashes;
  }

  lemma IssuedPhase(w: World, p: Phase, a: Action, ttl: Lifetimes, now: nat)
    requires a.CommitExchange? && EnabledFor(w, p, a) && PhaseOk(w.rows, p)
    ensures PhaseOk(Written(w.rows, p, a, ttl, now), After(w.rows, p, a, now))
  {
    hide GrantByHash, HasConversation, SortedHashes, Found;
  }

  lemma ReadingPhase(w: World, p: Phase, a: Action, ttl: Lifetimes, now: nat)
    requires !a.BeginRegister? && !a.BeginExchange? && !a.CommitRegister? && !a.CommitExchange?
    requires EnabledFor(w, p, a) && PhaseOk(w.rows, p)
    ensures PhaseOk(Written(w.rows, p, a, ttl, now), After(w.rows, p, a, now))
  {
    hide HasConversation, SortedHashes, Found, Free, Registered, Exchanged;
  }

  lemma OtherPhase(w: World, a: Action, o: nat, ttl: Lifetimes, now: nat)
    requires WorldOk(w) && Enabled(w, a) && o < |w.sessions|
    requires a.BeginRegister? || a.BeginExchange? || o != a.s
    ensures PhaseOk(Next(w, a, ttl, now).rows, w.sessions[o])
  {
    hide RegistryOk, OwnConversations, Holds, Free, Found, HasConversation, GrantByHash, PhaseOk, Registered, Exchanged;
    assert PhaseOk(w.rows, w.sessions[o]);
    if a.CommitRegister? {
      assert PhaseOk(w.rows, w.sessions[a.s]);
      RegisterLeavesOthers(w.rows, w.sessions[a.s], w.sessions[o], a.hash, a.publicId, ttl, now);
    } else if a.CommitExchange? {
      assert PhaseOk(w.rows, w.sessions[a.s]);
      ExchangeLeavesOthers(w.rows, w.sessions[a.s], w.sessions[o], ttl, now);
    }
  }

  lemma LockingHolds(c: Contacts, taken: nat)
    requires taken < |SortedHashes(Hashes(c))|
    ensures Holds(Locking(c, taken + 1)) <= Holds(Locking(c, taken)) + {ContactLock(c, taken)}
  {
    hide SortedHashes, AdvisoryKey;
  }

  lemma SearchedHolds(c: Contacts, existing: Option<nat>)
    ensures Holds(Searched(c, existing)) == Holds(Locking(c, |SortedHashes(Hashes(c))|))
  {
    hide SortedHashes, AdvisoryKey;
  }

  /** The lock a step takes. */
  function Gained(w: World, p: Phase, a: Action): set<Lock> {
    match a
    case LockContact(_) =>
      if p.Locking? && p.taken < |SortedHashes(Hashes(p.contacts))| then {ContactLock(p.contacts, p.taken)} else {}
    case LockGrant(_) =>
      if p.Presenting? && GrantByHash(w.rows.grants, p.hash).Some?
      then {GrantRow(GrantByHash(w.rows.grants, p.hash).value)} else {}
    case LockClient(_) => if p.Accepted? then {ClientRow(p.row.client)} else {}
    case _ => {}
  }

  lemma HoldsAfter(w: World, p: Phase, a: Action, now: nat)
    requires !a.BeginRegister? && !a.BeginExchange? && EnabledFor(w, p, a) && PhaseOk(w.rows, p)
    ensures Holds(After(w.rows, p, a, now)) <= Holds(p) + Gained(w, p, a)
  {
    hide SortedHashes, AdvisoryKey, Found, HasConversation, Usable, Free, GrantByHash, ContactLock;
    if a.LockContact? { LockingHolds(p.contacts, p.taken); }
    if a.Search? { SearchedHolds(p.contacts, a.existing); }
  }

  lemma GainedIsFree(w: World, a: Action, o: nat)
    requires !a.BeginRegister? && !a.BeginExchange? && Enabled(w, a) && o < |w.sessions| && o != a.s
    ensures Gained(w, w.sessions[a.s], a) !! Holds(w.sessions[o])
  {
    hide SortedHashes, AdvisoryKey, Found, HasConversation, GrantByHash, Holds, ContactLock;
  }

  /** A step adds at most a lock that nobody else holds. */
  lemma HoldsNext(w: World, a: Action, o: nat, ttl: Lifetimes, now: nat)
    requires PhasesOk(w) && Exclusive(w) && Enabled(w, a) && !a.BeginRegister? && !a.BeginExchange?
    requires o < |w.sessions| && o != a.s
    ensures Holds(Next(w, a, ttl, now).sessions[a.s]) !! Holds(w.sessions[o])
  {
    hide Holds, EnabledFor, PhaseOk, After, Written, Gained;
    HoldsAfter(w, w.sessions[a.s], a, now);
    GainedIsFree(w, a, o);
  }

  /** Every step of every interleaving keeps the rows in order, every session's knowledge true and the
      locks exclusive. */
  lemma StepKeeps(w: World, a: Action, ttl: Lifetimes, now: nat)
    requires WorldOk(w) && Enabled(w, a)
    ensures WorldOk(Next(w, a, ttl, now)) && Grows(w.rows, Next(w, a, ttl, now).rows)
  {
    hide RegistryOk, EnabledFor, PhaseOk, Holds, After, Written, Grows;
    var w' := Next(w, a, ttl, now);
    WritesKeep(w, a, ttl, now);
    forall s | 0 <= s < |w'.sessions| ensures PhaseOk(w'.rows, w'.sessions[s]) {
      if s == |w.sessions| { NewPhase(w, a, ttl, now); }
      else if !a.BeginRegister? && !a.BeginExchange? && s == a.s { OwnPhase(w, a, ttl, now); }
      else { OtherPhase(w, a, s, ttl, now); }
    }
    LocksStayExclusive(w, a, ttl, now);
    ConversationsStayOwn(w, a, ttl, now);
  }

  lemma NewPhase(w: World, a: Action, ttl: Lifetimes, now: nat)
    requires Enabled(w, a) && (a.BeginRegister? || a.BeginExchange?)
    ensures var p := Next(w, a, ttl, now).sessions[|w.sessions|];
            PhaseOk(Next(w, a, ttl, now).rows, p) && Holds(p) == {} && !p.Issued?
  {
  }

  lemma LocksStayExclusive(w: World, a: Action, ttl: Lifetimes, now: nat)
    requires WorldOk(w) && Enabled(w, a)
    ensures Exclusive(Next(w, a, ttl, now))
  {
    hide RegistryOk, EnabledFor, PhaseOk, Holds, After, Written;
    var w' := Next(w, a, ttl, now);
    if a.BeginRegister? || a.BeginExchange? {
      NewPhase(w, a, ttl, now);
    } else {
      forall o | 0 <= o < |w.sessions| && o != a.s ensures Holds(w'.sessions[a.s]) !! Holds(w.sessions[o]) {
        HoldsNext(w, a, o, ttl, now);
      }
    }
  }

  lemma NewlyIssued(w: World, p: Phase, a: Action, now: nat)
    requires !a.BeginRegister? && !a.BeginExchange? && EnabledFor(w, p, a) && After(w.rows, p, a, now).Issued?
    ensures After(w.rows, p, a, now).conversation == |w.rows.conversations|
  {
    hide GrantByHash, HasConversation, SortedHashes, Found, Free;
  }

  lemma ConversationsStayOwn(w: World, a: Action, ttl: Lifetimes, now: nat)
    requires WorldOk(w) && Enabled(w, a)
    ensures OwnConversations(Next(w, a, ttl, now))
  {
    hide RegistryOk, Exclusive, EnabledFor, Written, After, HasConversation, Found;
    forall s | 0 <= s < |w.sessions| && w.sessions[s].Issued?
      ensures w.sessions[s].conversation < |w.rows.conversations|
    {
      assert PhaseOk(w.rows, w.sessions[s]);
    }
    hide PhasesOk, PhaseOk;
    var p' := Next(w, a, ttl, now).sessions;
    if a.BeginRegister? || a.BeginExchange? {
    } else if p'[a.s].Issued? {
      NewlyIssued(w, w.sessions[a.s], a, now);
    }
  }

  // ----- whole runs

  /** A run, step i at time times[i]. */
  datatype Run = Run(worlds: seq<World>, actions: seq<Action>, times: seq<nat>, ttl: Lifetimes)

  ghost predicate RunStep(run: Run, i: nat)
    requires |run.worlds| == |run.actions| + 1 == |run.times| + 1 && i < |run.actions|
  {
    && Enabled(run.worlds[i], run.actions[i])
    && run.worlds[i + 1] == Next(run.worlds[i], run.actions[i], run.ttl, run.times[i])
  }

  ghost predicate IsRun(run: Run) {
    && |run.worlds| == |run.actions| + 1 == |run.times| + 1
    && run.worlds[0] == World(Registry([], [], []), [])
    && (forall i :: 0 <= i < |run.actions| ==> RunStep(run, i))
    && InOrder(run.times)
  }

  /** The clock does not run backwards. */
  ghost predicate InOrder(times: seq<nat>) {
    forall i, j :: 0 <= i < j < |times| ==> times[i] <= times[j]
  }

  lemma {:induction false} RunIsSafe(run: Run, n: nat)
    requires IsRun(run) && n < |run.worlds|
    ensures WorldOk(run.worlds[n])
  {
    if n == 0 {
      EmptyIsOk();
    } else {
      RunIsSafe(run, n - 1);
      assert RunStep(run, n - 1);
      StepKeeps(run.worlds[n - 1], run.actions[n - 1], run.ttl, run.times[n - 1]);
    }
  }

  lemma {:induction false} RunGrows(run: Run, i: nat, j: nat)
    requires IsRun(run) && i <= j < |run.worlds|
    ensures Grows(run.worlds[i].rows, run.worlds[j].rows)
    ensures |run.worlds[i].sessions| <= |run.worlds[j].sessions|
    ensures forall s :: 0 <= s < |run.worlds[i].sessions| && Finished(run.worlds[i].sessions[s])
              ==> run.worlds[j].sessions[s] == run.worlds[i].sessions[s]
    decreases j - i
  {
    hide WorldOk, Grows;
    if i == j {
      GrowsFromItself(run.worlds[i].rows);
    } else {
      RunGrows(run, i, j - 1);
      RunIsSafe(run, j - 1);
      assert RunStep(run, j - 1);
      StepKeeps(run.worlds[j - 1], run.actions[j - 1], run.ttl, run.times[j - 1]);
      GrowsOn(run.worlds[i].rows, run.worlds[j - 1].rows, run.worlds[j].rows);
    }
  }

  /** In every reachable state no two clients share a contact digest, no client has two conversations and no
      two grants of one client are consumed. */
  lemma NothingTwice(run: Run, n: nat)
    requires IsRun(run) && n < |run.worlds|
    ensures var r := run.worlds[n].rows;
            && (forall i, j :: 0 <= i < j < |r.clients| && r.clients[i].contacts.email.Some? ==>
                  r.clients[i].contacts.email != r.clients[j].contacts.email)
            && (forall i, j :: 0 <= i < j < |r.clients| && r.clients[i].contacts.phone.Some? ==>
                  r.clients[i].contacts.phone != r.clients[j].contacts.phone)
            && (forall v, w :: 0 <= v < w < |r.conversations| ==>
                  r.conversations[v].client != r.conversations[w].client)
            && (forall g, h :: 0 <= g < h < |r.grants| && r.grants[g].client == r.grants[h].client ==>
                  r.grants[g].consumedAt.None? || r.grants[h].consumedAt.None?)
  {
    hide PhasesOk, Exclusive, OwnConversations;
    RunIsSafe(run, n);
    var r := run.worlds[n].rows;
    forall i, j | 0 <= i < j < |r.clients|
      ensures r.clients[i].contacts.email.Some? ==> r.clients[i].contacts.email != r.clients[j].contacts.email
      ensures r.clients[i].contacts.phone.Some? ==> r.clients[i].contacts.phone != r.clients[j].contacts.phone
    {
      assert !Matches(r.clients[i], r.clients[j].contacts);
    }
  }

  /** Two sessions were answered with a conversation for grants of one client. */
  predicate SameClientIssued(w: World, s: nat, o: nat) {
    && s < |w.sessions| && o < |w.sessions| && w.sessions[s].Issued? && w.sessions[o].Issued?
    && w.sessions[s].g < |w.rows.grants| && w.sessions[o].g < |w.rows.grants|
    && w.rows.grants[w.sessions[s].g].client == w.rows.grants[w.sessions[o].g].client
  }

  /** Of all exchanges of one client's grants, in particular of one grant, at most one is answered with a
      conversation. */
  lemma OneExchangeWins(run: Run, n: nat, s: nat, o: nat)
    requires IsRun(run) && n < |run.worlds|
    requires SameClientIssued(run.worlds[n], s, o)
    ensures s == o
  {
    hide RegistryOk, Exclusive;
    RunIsSafe(run, n);
    var w := run.worlds[n];
    assert PhaseOk(w.rows, w.sessions[s]) && PhaseOk(w.rows, w.sessions[o]);
    SameClientSameConversation(w.rows, w.sessions[s].conversation, w.sessions[o].conversation);
  }

  lemma SameClientSameConversation(r: Registry, v: nat, w: nat)
    requires RegistryOk(r) && v < |r.conversations| && w < |r.conversations|
    requires r.conversations[v].client == r.conversations[w].client
    ensures v == w
  {
  }

  /** A grant whose exchange was refused because its client already has a conversation is not consumed, then
      or at any later time. */
  lemma RefusedGrantIsNeverConsumed(run: Run, i: nat, j: nat, s: nat)
    requires IsRun(run) && i <= j < |run.worlds| && s < |run.worlds[i].sessions|
    requires run.worlds[i].sessions[s].Refused? && run.worlds[i].sessions[s].why == ConversationExists
    ensures var g := run.worlds[i].sessions[s].g;
            g < |run.worlds[j].rows.grants| && run.worlds[j].rows.grants[g].consumedAt.None?
  {
    hide RegistryOk, Exclusive, OwnConversations, Grows;
    RunGrows(run, i, j);
    RunIsSafe(run, j);
    assert PhaseOk(run.worlds[j].rows, run.worlds[j].sessions[s]);
  }

  /** The rows change only when a registration or an exchange commits. A registration writes exactly what it
      would write run on its own at that moment. An exchange writes exactly what `create` writes for its grant,
      which passed every check at `checkedAt` and, but for its expiry, would pass them all again now: run on
      its own at that moment `create` would issue the conversation if and only if the grant has not expired
      since. */
  lemma CommitsAreAtomic(w: World, a: Action, ttl: Lifetimes, now: nat)
    requires WorldOk(w) && Enabled(w, a)
    ensures !a.CommitRegister? && !a.CommitExchange? ==> Next(w, a, ttl, now).rows == w.rows
    ensures a.CommitRegister? ==>
              var p := w.sessions[a.s];
              && Found(w.rows.clients, p.contacts, p.existing)
              && Next(w, a, ttl, now).rows == Registered(w.rows, p.contacts, p.existing, a.hash, a.publicId, ttl, now)
    ensures a.CommitExchange? ==>
              var p := w.sessions[a.s];
              && p.row == w.rows.grants[p.g] && Usable(p.row, p.claimed, p.checkedAt)
              && (Usable(p.row, p.claimed, now) <==> p.row.expiresAt > now)
              && !HasConversation(w.rows.conversations, p.row.client)
              && Next(w, a, ttl, now).rows == Exchanged(w.rows, p.g, ttl, now)
  {
    hide RegistryOk, Exclusive, OwnConversations, Holds, Free, Found, HasConversation, GrantByHash, Registered;
    if a.CommitRegister? || a.CommitExchange? {
      assert PhaseOk(w.rows, w.sessions[a.s]);
    }
  }

  // ----- grants and their expiry

  /** Step `i` checks grant `g`. */
  predicate Checks(run: Run, i: nat, g: nat)
    requires i < |run.actions| && i < |run.worlds|
  {
    var w, a := run.worlds[i], run.actions[i];
    a.CheckGrant? && a.s < |w.sessions| && w.sessions[a.s].Presented? && w.sessions[a.s].g == g
  }

  /** Some step before `n` checked the grant at time `at`, in its lifetime. */
  ghost predicate CheckedLive(run: Run, n: nat, g: nat, expiresAt: nat, at: nat) {
    && expiresAt - run.ttl.grant <= at < expiresAt
    && exists i: nat :: i < n && i < |run.actions| && i < |run.worlds| && i < |run.times|
         && Checks(run, i, g) && run.times[i] == at
  }

  ghost predicate PhaseChecked(run: Run, n: nat, p: Phase) {
    p.Accepted? || p.Alone? || p.Clear? ==> CheckedLive(run, n, p.g, p.row.expiresAt, p.checkedAt)
  }

  ghost predicate GrantChecked(run: Run, n: nat, g: nat, row: GrantRecord) {
    row.consumedAt.Some? ==> exists at: nat :: at <= row.consumedAt.value && CheckedLive(run, n, g, row.expiresAt, at)
  }

  /** No grant was issued later than the last step so far. */
  ghost predicate Registrable(run: Run, n: nat, row: GrantRecord) {
    0 < n <= |run.times| && row.expiresAt <= run.times[n - 1] + run.ttl.grant
  }

  ghost predicate RunChecked(run: Run, n: nat)
    requires n < |run.worlds|
  {
    var w := run.worlds[n];
    && (forall g :: 0 <= g < |w.rows.grants| ==> Registrable(run, n, w.rows.grants[g]))
    && (forall g :: 0 <= g < |w.rows.grants| ==> GrantChecked(run, n, g, w.rows.grants[g]))
    && (forall s :: 0 <= s < |w.sessions| ==> PhaseChecked(run, n, w.sessions[s]))
  }

  lemma CheckedStays(run: Run, n: nat, g: nat, expiresAt: nat, at: nat)
    requires CheckedLive(run, n, g, expiresAt, at)
    ensures CheckedLive(run, n + 1, g, expiresAt, at)
  {
  }

  /** What step `n` does to one session. */
  lemma PhaseStaysChecked(run: Run, n: nat, s: nat)
    requires IsRun(run) && n + 1 < |run.worlds| && RunChecked(run, n) && s < |run.worlds[n + 1].sessions|
    ensures PhaseChecked(run, n + 1, run.worlds[n + 1].sessions[s])
  {
    RunIsSafe(run, n);
    assert RunStep(run, n);
    var w, a, now := run.worlds[n], run.actions[n], run.times[n];
    var p' := run.worlds[n + 1].sessions[s];
    hide IsRun, RegistryOk, Exclusive, OwnConversations, Written, Holds, CheckedLive;
    if s < |w.sessions| {
      assert PhaseOk(w.rows, w.sessions[s]) && PhaseChecked(run, n, w.sessions[s]);
      SessionStaysChecked(run, n, w.rows, w.sessions[s], a, now, p');
    }
  }

  lemma SessionStaysChecked(run: Run, n: nat, r: Registry, p: Phase, a: Action, now: nat, p': Phase)
    requires PhaseChecked(run, n, p) && PhaseOk(r, p) && (p' == p || p' == After(r, p, a, now))
    requires forall g :: 0 <= g < |r.grants| ==> Registrable(run, n, r.grants[g])
    requires n < |run.actions| && n < |run.worlds| && n < |run.times| && now == run.times[n] && InOrder(run.times)
    requires p.Presented? && p'.Accepted? ==> Checks(run, n, p.g)
    ensures PhaseChecked(run, n + 1, p')
  {
    if p.Accepted? || p.Alone? || p.Clear? { CheckedStays(run, n, p.g, p.row.expiresAt, p.checkedAt); }
    if p.Presented? && p'.Accepted? {
      assert Registrable(run, n, r.grants[p.g]);
      assert run.times[n - 1] <= run.times[n];
      assert Checks(run, n, p.g);
    }
  }

  /** What step `n` does to the grants. */
  lemma GrantsStayChecked(run: Run, n: nat, g: nat)
    requires IsRun(run) && n + 1 < |run.worlds| && RunChecked(run, n) && g < |run.worlds[n + 1].rows.grants|
    ensures var row := run.worlds[n + 1].rows.grants[g];
            Registrable(run, n + 1, row) && GrantChecked(run, n + 1, g, row)
  {
    RunIsSafe(run, n);
    assert RunStep(run, n);
    var w, a, now := run.worlds[n], run.actions[n], run.times[n];
    var row := run.worlds[n + 1].rows.grants[g];
    assert n > 0 ==> run.times[n - 1] <= run.times[n];
    hide IsRun, RegistryOk, Exclusive, OwnConversations, After, Holds, CheckedLive, InOrder;
    if g < |w.rows.grants| {
      var before := w.rows.grants[g];
      assert Registrable(run, n, before) && GrantChecked(run, n, g, before);
      if row == before {
        SameGrant(run, n, g, row);
      } else {
        var p := w.sessions[a.s];
        assert PhaseOk(w.rows, p) && PhaseChecked(run, n, p);
        assert p.Clear? && p.g == g && row == before.(consumedAt := Some(now));
        CheckedBefore(run, n, g, row.expiresAt, p.checkedAt);
        CheckedStays(run, n, g, row.expiresAt, p.checkedAt);
      }
    }
  }

  lemma SameGrant(run: Run, n: nat, g: nat, row: GrantRecord)
    requires n < |run.times| && GrantChecked(run, n, g, row) && Registrable(run, n, row)
    requires n > 0 ==> run.times[n - 1] <= run.times[n]
    ensures GrantChecked(run, n + 1, g, row) && Registrable(run, n + 1, row)
  {
    hide CheckedLive;
    if row.consumedAt.Some? {
      var at: nat :| at <= row.consumedAt.value && CheckedLive(run, n, g, row.expiresAt, at);
      CheckedStays(run, n, g, row.expiresAt, at);
    }
  }

  lemma CheckedBefore(run: Run, n: nat, g: nat, expiresAt: nat, at: nat)
    requires CheckedLive(run, n, g, expiresAt, at) && n < |run.times| && InOrder(run.times)
    ensures at <= run.times[n]
  {
  }

  lemma {:induction false} RunStaysChecked(run: Run, n: nat)
    requires IsRun(run) && n < |run.worlds|
    ensures RunChecked(run, n)
  {
    if n > 0 {
      RunStaysChecked(run, n - 1);
      hide IsRun, RunChecked, PhaseChecked, GrantChecked, Registrable;
      forall g | 0 <= g < |run.worlds[n].rows.grants|
        ensures Registrable(run, n, run.worlds[n].rows.grants[g])
        ensures GrantChecked(run, n, g, run.worlds[n].rows.grants[g])
      {
        GrantsStayChecked(run, n - 1, g);
      }
      forall s | 0 <= s < |run.worlds[n].sessions| ensures PhaseChecked(run, n, run.worlds[n].sessions[s]) {
        PhaseStaysChecked(run, n - 1, s);
      }
      AllChecked(run, n);
    }
  }

  lemma AllChecked(run: Run, n: nat)
    requires n < |run.worlds|
    requires var w := run.worlds[n];
             && (forall g :: 0 <= g < |w.rows.grants| ==>
                   Registrable(run, n, w.rows.grants[g]) && GrantChecked(run, n, g, w.rows.grants[g]))
             && (forall s :: 0 <= s < |w.sessions| ==> PhaseChecked(run, n, w.sessions[s]))
    ensures RunChecked(run, n)
  {
    hide PhaseChecked, GrantChecked, Registrable;
  }

  /** Every consumed grant was checked in its lifetime by an earlier step, so what it is late by, if at all, is
      less than the exchange took from its check to its commit. */
  lemma ConsumedGrantWasLive(run: Run, n: nat, g: nat) returns (i: nat)
    requires IsRun(run) && n < |run.worlds| && g < |run.worlds[n].rows.grants|
    requires run.worlds[n].rows.grants[g].consumedAt.Some?
    ensures i < n && i < |run.actions| && i < |run.times| && Checks(run, i, g)
    ensures var row := run.worlds[n].rows.grants[g];
            row.expiresAt - run.ttl.grant <= run.times[i] < row.expiresAt && run.times[i] <= row.consumedAt.value
  {
    RunStaysChecked(run, n);
    var row := run.worlds[n].rows.grants[g];
    assert GrantChecked(run, n, g, row);
    var at: nat :| at <= row.consumedAt.value && CheckedLive(run, n, g, row.expiresAt, at);
    i :| i < n && i < |run.actions| && i < |run.worlds| && i < |run.times| && Checks(run, i, g) && run.times[i] == at;
  }

  /** In every run with these lifetimes grants are consumed before they expire. */
  ghost predicate ConsumedInTime(ttl: Lifetimes) {
    forall run: Run, n: nat, g: nat ::
      IsRun(run) && run.ttl == ttl && n < |run.worlds| && g < |run.worlds[n].rows.grants| ==>
        var row := run.worlds[n].rows.grants[g]; row.consumedAt.Some? ==> row.consumedAt.value < row.expiresAt
  }

  /** That is so exactly when grants do not live at all. */
  lemma ConsumedInTimeExactly(ttl: Lifetimes)
    ensures ConsumedInTime(ttl) <==> ttl.grant == 0
  {
    if ttl.grant == 0 {
      forall run: Run, n: nat, g: nat
        | IsRun(run) && run.ttl == ttl && n < |run.worlds| && g < |run.worlds[n].rows.grants|
        ensures run.worlds[n].rows.grants[g].consumedAt.None?
      {
        if run.worlds[n].rows.grants[g].consumedAt.Some? { var i := ConsumedGrantWasLive(run, n, g); }
      }
    } else {
      var run := ExpiredGrantExchanged(ttl);
      var n := |run.actions|;
      assert run.worlds[n].rows.grants[0].consumedAt.value == run.worlds[n].rows.grants[0].expiresAt;
    }
  }

  // ----- an exchange after expiry

  /** One more step at the end of a run. */
  lemma Extend(run: Run, a: Action, now: nat) returns (longer: Run)
    requires IsRun(run) && Enabled(run.worlds[|run.actions|], a)
    requires forall i :: 0 <= i < |run.times| ==> run.times[i] <= now
    ensures IsRun(longer) && |longer.worlds| == |run.worlds| + 1 && longer.ttl == run.ttl
    ensures longer.worlds[|longer.actions|] == Next(run.worlds[|run.actions|], a, run.ttl, now)
    ensures longer.times == run.times + [now]
  {
    hide Next, Enabled;
    var w := Next(run.worlds[|run.actions|], a, run.ttl, now);
    longer := Run(run.worlds + [w], run.actions + [a], run.times + [now], run.ttl);
    forall i | 0 <= i < |longer.actions| ensures RunStep(longer, i) {
      if i < |run.actions| { assert RunStep(run, i); }
    }
  }

  /** However long grants live, one that is checked as it is issued can be exchanged only as it expires. */
  lemma ExpiredGrantExchanged(ttl: Lifetimes) returns (run: Run)
    requires ttl.grant > 0
    ensures IsRun(run) && run.ttl == ttl
    ensures var r := run.worlds[|run.actions|].rows;
            && |r.grants| == 1 && r.grants[0].consumedAt == Some(r.grants[0].expiresAt)
            && |r.conversations| == 1
  {
    var email, secret: Digest := seq(64, _ => '0'), seq(64, _ => '1');
    var c := Contacts(Some(email), None);
    run := Run([World(Registry([], [], []), [])], [], [], ttl);
    run := Extend(run, BeginRegister(c), 0);
    run := Extend(run, LockContact(0), 0);
    assert SortedHashes(Hashes(c)) == [email];
    run := Extend(run, Search(0, None), 0);
    run := Extend(run, CommitRegister(0, secret, 7), 0);
    hide IsRun;
    var grant := GrantRecord(0, secret, Some(7), ttl.grant, None);
    assert run.worlds[|run.actions|] == World(Registry([ClientRecord(c)], [grant], []), [Enrolled(c, 0)]);
    run := Exchanging(run, c, grant);
  }

  lemma Exchanging(run: Run, c: Contacts, grant: GrantRecord) returns (longer: Run)
    requires IsRun(run) && run.ttl.grant > 0 && grant == GrantRecord(0, grant.hash, Some(7), run.ttl.grant, None)
    requires forall i :: 0 <= i < |run.times| ==> run.times[i] == 0
    requires run.worlds[|run.actions|] == World(Registry([ClientRecord(c)], [grant], []), [Enrolled(c, 0)])
    ensures IsRun(longer) && longer.ttl == run.ttl
    ensures var r := longer.worlds[|longer.actions|].rows;
            && |r.grants| == 1 && r.grants[0].consumedAt == Some(r.grants[0].expiresAt)
            && |r.conversations| == 1
  {
    longer := Extend(run, BeginExchange(grant.hash, 7), 0);
    longer := Extend(longer, LockGrant(1), 0);
    longer := Extend(longer, CheckGrant(1), 0);
    hide IsRun;
    assert longer.worlds[|longer.actions|].sessions == [Enrolled(c, 0), Accepted(0, grant, 7, 0)];
    longer := Extend(longer, LockClient(1), 0);
    longer := Extend(longer, LookForConversation(1), 0);
    longer := Extend(longer, CommitExchange(1), run.ttl.grant);
  }
}
