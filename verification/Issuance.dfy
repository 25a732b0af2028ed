/** Registration and the exchange of a registration grant for a conversation: the rows they work on and
    each transaction as one step. */
module Issuance {
  import opened Wrappers
  import opened LockOrder

  /** The keyed digests of a person's contacts. */
  datatype Contacts = Contacts(email: Option<Digest>, phone: Option<Digest>)

  datatype ClientRecord = ClientRecord(contacts: Contacts)
  datatype GrantRecord = GrantRecord(client: nat, hash: Digest, publicId: Option<nat>, expiresAt: nat,
                                     consumedAt: Option<nat>)
  datatype ConversationRecord = ConversationRecord(client: nat, issuedAt: nat, expiresAt: nat, quotaLimit: nat,
                                                   quotaUsed: nat)

  /** Row numbers stand for the drawn identifiers. */
  datatype Registry = Registry(clients: seq<ClientRecord>, grants: seq<GrantRecord>,
                               conversations: seq<ConversationRecord>)

  datatype Lifetimes = Lifetimes(grant: nat, token: nat)

  const QUOTA: nat := 100

  datatype Refusal = GrantInvalid | ConversationExists

  predicate AnyContact(c: Contacts) { c.email.Some? || c.phone.Some? }

  predicate Matches(row: ClientRecord, c: Contacts) {
    || (c.email.Some? && row.contacts.email == c.email)
    || (c.phone.Some? && row.contacts.phone == c.phone)
  }

  /** What `by_contact_hash` may return: some matching client, or nothing when none matches. */
  ghost predicate Found(clients: seq<ClientRecord>, c: Contacts, existing: Option<nat>) {
    match existing
    case Some(i) => i < |clients| && Matches(clients[i], c)
    case None => forall i :: 0 <= i < |clients| ==> !Matches(clients[i], c)
  }

  function GrantByHash(grants: seq<GrantRecord>, hash: Digest): (g: Option<nat>)
    ensures g.Some? ==> g.value < |grants| && grants[g.value].hash == hash
    ensures g.None? ==> forall i :: 0 <= i < |grants| ==> grants[i].hash != hash
  {
    if grants == [] then None
    else if grants[|grants| - 1].hash == hash then Some(|grants| - 1)
    else GrantByHash(grants[..|grants| - 1], hash)
  }

  predicate HasConversation(conversations: seq<ConversationRecord>, client: nat) {
    exists v :: 0 <= v < |conversations| && conversations[v].client == client
  }

  predicate ConsumedFor(grants: seq<GrantRecord>, client: nat) {
    exists g :: 0 <= g < |grants| && grants[g].client == client && grants[g].consumedAt.Some?
  }

  /** The checks of `create` on the locked grant. */
  predicate Usable(row: GrantRecord, claimed: nat, now: nat) {
    && (if row.publicId.Some? then row.publicId.value else row.client) == claimed
    && row.consumedAt.None?
    && row.expiresAt > now
  }

  /** The writes of `register`: the client unless one was found, and a new grant for it. */
  function Registered(r: Registry, c: Contacts, existing: Option<nat>, hash: Digest, publicId: nat, ttl: Lifetimes,
                      now: nat): Registry {
    var client := if existing.Some? then existing.value else |r.clients|;
    var clients := if existing.Some? then r.clients else r.clients + [ClientRecord(c)];
    r.(clients := clients, grants := r.grants + [GrantRecord(client, hash, Some(publicId), now + ttl.grant, None)])
  }

  /** The writes of `create`: the grant is consumed and a conversation is issued. */
  function Exchanged(r: Registry, g: nat, ttl: Lifetimes, now: nat): Registry
    requires g < |r.grants|
  {
    r.(grants := r.grants[g := r.grants[g].(consumedAt := Some(now))],
       conversations := r.conversations + [ConversationRecord(r.grants[g].client, now, now + ttl.token, QUOTA, 0)])
  }

  ghost predicate ClientsUnique(clients: seq<ClientRecord>) {
    forall i, j :: 0 <= i < j < |clients| ==> !Matches(clients[i], clients[j].contacts)
  }

  ghost predicate GrantsOk(r: Registry) {
    && (forall g :: 0 <= g < |r.grants| ==> r.grants[g].client < |r.clients|)
    && (forall g, h :: 0 <= g < h < |r.grants| ==> r.grants[g].hash != r.grants[h].hash)
  }

  /** A client's conversation and its one consumed grant come together. */
  ghost predicate IssuedOnce(r: Registry) {
    && (forall v, w :: 0 <= v < w < |r.conversations| ==> r.conversations[v].client != r.conversations[w].client)
    && (forall g, h :: 0 <= g < h < |r.grants| && r.grants[g].consumedAt.Some? && r.grants[h].consumedAt.Some?
          ==> r.grants[g].client != r.grants[h].client)
    && (forall c: nat :: HasConversation(r.conversations, c) <==> ConsumedFor(r.grants, c))
  }

  ghost predicate RegistryOk(r: Registry) {
    ClientsUnique(r.clients) && GrantsOk(r) && IssuedOnce(r)
  }

  lemma EmptyIsOk()
    ensures RegistryOk(Registry([], [], []))
  {
  }

  lemma RegisteredKeeps(r: Registry, c: Contacts, existing: Option<nat>, hash: Digest, publicId: nat, ttl: Lifetimes,
                        now: nat)
    requires RegistryOk(r) && Found(r.clients, c, existing) && GrantByHash(r.grants, hash).None?
    ensures RegistryOk(Registered(r, c, existing, hash, publicId, ttl, now))
  {
    var s := Registered(r, c, existing, hash, publicId, ttl, now);
    assert ClientsUnique(s.clients);
    assert IssuedOnce(s) by {
      hide GrantByHash;
      forall k: nat ensures ConsumedFor(r.grants, k) <==> ConsumedFor(s.grants, k) {
        if ConsumedFor(r.grants, k) {
          var g :| 0 <= g < |r.grants| && r.grants[g].client == k && r.grants[g].consumedAt.Some?;
          assert s.grants[g] == r.grants[g];
        }
      }
    }
  }

  lemma ExchangedKeeps(r: Registry, g: nat, ttl: Lifetimes, now: nat)
    requires RegistryOk(r) && g < |r.grants| && r.grants[g].consumedAt.None?
    requires !HasConversation(r.conversations, r.grants[g].client)
    ensures RegistryOk(Exchanged(r, g, ttl, now))
  {
    var s := Exchanged(r, g, ttl, now);
    var client := r.grants[g].client;
    assert !ConsumedFor(r.grants, client);
    forall k: nat ensures HasConversation(s.conversations, k) <==> k == client || HasConversation(r.conversations, k) {
      if k == client { assert s.conversations[|r.conversations|].client == k; }
      if HasConversation(r.conversations, k) {
        var v :| 0 <= v < |r.conversations| && r.conversations[v].client == k;
        assert s.conversations[v].client == k;
      }
    }
    forall k: nat ensures ConsumedFor(s.grants, k) <==> k == client || ConsumedFor(r.grants, k) {
      if k == client { assert s.grants[g].consumedAt.Some?; }
      if ConsumedFor(r.grants, k) {
        var h :| 0 <= h < |r.grants| && r.grants[h].client == k && r.grants[h].consumedAt.Some?;
        assert s.grants[h] == r.grants[h];
      }
    }
  }

  /** Nothing issued is ever lost or changed. */
  ghost predicate Grows(r: Registry, s: Registry) {
    && |r.clients| <= |s.clients| && s.clients[..|r.clients|] == r.clients
    && |r.conversations| <= |s.conversations| && s.conversations[..|r.conversations|] == r.conversations
    && |r.grants| <= |s.grants|
    && (forall g :: 0 <= g < |r.grants| ==>
          && s.grants[g].(consumedAt := None) == r.grants[g].(consumedAt := None)
          && (r.grants[g].consumedAt.Some? ==> s.grants[g] == r.grants[g]))
  }

  lemma RegisteredGrows(r: Registry, c: Contacts, existing: Option<nat>, hash: Digest, publicId: nat, ttl: Lifetimes,
                        now: nat)
    ensures Grows(r, Registered(r, c, existing, hash, publicId, ttl, now))
  {
  }

  lemma ExchangedGrows(r: Registry, g: nat, ttl: Lifetimes, now: nat)
    requires g < |r.grants| && r.grants[g].consumedAt.None?
    ensures Grows(r, Exchanged(r, g, ttl, now))
  {
  }

  lemma GrowsFromItself(r: Registry)
    ensures Grows(r, r)
  {
  }

  lemma GrowsOn(r: Registry, s: Registry, t: Registry)
    requires Grows(r, s) && Grows(s, t)
    ensures Grows(r, t)
  {
    assert t.clients[..|r.clients|] == s.clients[..|r.clients|] by {
      assert t.clients[..|r.clients|] == t.clients[..|s.clients|][..|r.clients|];
    }
    assert t.conversations[..|r.conversations|] == t.conversations[..|s.conversations|][..|r.conversations|];
    forall g | 0 <= g < |r.grants|
      ensures t.grants[g].(consumedAt := None) == r.grants[g].(consumedAt := None)
      ensures r.grants[g].consumedAt.Some? ==> t.grants[g] == r.grants[g]
    {
      assert s.grants[g].(consumedAt := None) == r.grants[g].(consumedAt := None);
    }
  }

  /** A conversation once issued stays its client's only one, and no other grant of that client can be
      consumed any more. */
  lemma IssuedForGood(r: Registry, s: Registry, v: nat, g: nat)
    requires RegistryOk(r) && RegistryOk(s) && Grows(r, s)
    requires v < |r.conversations| && g < |r.grants| && r.grants[g].client == r.conversations[v].client
    ensures s.conversations[v] == r.conversations[v]
    ensures forall w :: 0 <= w < |s.conversations| && s.conversations[w].client == r.conversations[v].client ==> w == v
    ensures s.grants[g].consumedAt == r.grants[g].consumedAt
  {
    var client := r.conversations[v].client;
    assert s.conversations[v] == s.conversations[..|r.conversations|][v];
    assert HasConversation(r.conversations, client);
    var h :| 0 <= h < |r.grants| && r.grants[h].client == client && r.grants[h].consumedAt.Some?;
    assert s.grants[h] == r.grants[h];
    assert s.grants[g].(consumedAt := None) == r.grants[g].(consumedAt := None);
    assert s.grants[g].client == client;
  }

  /** A recorded contact is recorded for one client only, so it always finds that client. */
  lemma RecordedContactFindsItsClient(r: Registry, client: nat, c: Contacts, existing: Option<nat>)
    requires RegistryOk(r) && client < |r.clients| && Found(r.clients, c, existing) && AnyContact(c)
    requires c.email.Some? ==> r.clients[client].contacts.email == c.email
    requires c.phone.Some? ==> r.clients[client].contacts.phone == c.phone
    ensures existing == Some(client)
  {
    assert Matches(r.clients[client], c);
  }

  /** A pair of contacts matches at most two clients, one for each contact. */
  lemma AtMostTwoMatch(r: Registry, c: Contacts)
    requires RegistryOk(r)
    ensures forall i, j, k :: 0 <= i < j < k < |r.clients| ==>
              !(Matches(r.clients[i], c) && Matches(r.clients[j], c) && Matches(r.clients[k], c))
  {
    forall i, j, k | 0 <= i < j < k < |r.clients|
      ensures !(Matches(r.clients[i], c) && Matches(r.clients[j], c) && Matches(r.clients[k], c))
    {
      assert !Matches(r.clients[i], r.clients[j].contacts) && !Matches(r.clients[i], r.clients[k].contacts);
      assert !Matches(r.clients[j], r.clients[k].contacts);
    }
  }
}
