/** Registration and grant exchange as the services run them, each transaction on its own. */
module RegistrationService {
  import opened Wrappers
  import opened LockOrder
  import opened Issuance

  datatype Exchange = Issued(conversation: nat) | Refused(why: Refusal)

  /** The client has one of the contacts. */
  predicate Knows(row: ClientRecord, c: Contacts) {
    (c.email.Some? && row.contacts.email == c.email) || (c.phone.Some? && row.contacts.phone == c.phone)
  }

  /** A registration adds a client with exactly these contacts if nobody has any of them, and in any case one
      unconsumed grant, for that client or for one that has one of the contacts. Nothing else changes. */
  ghost predicate RegisterRule(r: Registry, r': Registry, c: Contacts, hash: Digest, publicId: nat, expiresAt: nat) {
    var unknown := forall i :: 0 <= i < |r.clients| ==> !Knows(r.clients[i], c);
    && r'.conversations == r.conversations
    && r'.clients == (if unknown then r.clients + [ClientRecord(c)] else r.clients)
    && |r'.grants| == |r.grants| + 1
    && (exists client :: 0 <= client < |r'.clients| && Knows(r'.clients[client], c)
          && r'.grants == r.grants + [GrantRecord(client, hash, Some(publicId), expiresAt, None)])
  }

  /** The grant may be exchanged: it is presented with its public client id (or its client's, if it has none),
      has not been consumed and has not expired. */
  predicate Exchangeable(row: GrantRecord, hash: Digest, claimed: nat, now: nat) {
    && row.hash == hash && row.consumedAt == None && now < row.expiresAt
    && (row.publicId == Some(claimed) || (row.publicId == None && row.client == claimed))
  }

  ghost predicate AlreadyIssued(r: Registry, client: nat) {
    exists v :: 0 <= v < |r.conversations| && r.conversations[v].client == client
  }

  /** An exchange consumes the grant and issues one conversation with the full quota to its client. */
  ghost predicate ExchangeRule(r: Registry, r': Registry, g: nat, ttl: Lifetimes, now: nat)
    requires g < |r.grants|
  {
    var row := r.grants[g];
    && r'.clients == r.clients
    && r'.grants == r.grants[g := GrantRecord(row.client, row.hash, row.publicId, row.expiresAt, Some(now))]
    && r'.conversations == r.conversations + [ConversationRecord(row.client, now, now + ttl.token, 100, 0)]
  }

  lemma RegisteredFollowsRule(r: Registry, c: Contacts, existing: Option<nat>, hash: Digest, publicId: nat,
                              ttl: Lifetimes, now: nat)
    requires Found(r.clients, c, existing) && AnyContact(c)
    ensures var r' := Registered(r, c, existing, hash, publicId, ttl, now);
            RegisterRule(r, r', c, hash, publicId, now + ttl.grant) && Grows(r, r')
  {
    RegisteredGrows(r, c, existing, hash, publicId, ttl, now);
    var r' := Registered(r, c, existing, hash, publicId, ttl, now);
    var client := r'.grants[|r.grants|].client;
    assert Knows(r'.clients[client], c);
    if existing.Some? { assert Knows(r.clients[existing.value], c); }
  }

  class RegistryDatabase {
    var clients: seq<ClientRecord>
    var grants: seq<GrantRecord>
    var conversations: seq<ConversationRecord>

    ghost function Rows(): Registry
      reads this
    {
      Registry(clients, grants, conversations)
    }

    constructor ()
      ensures Rows() == Registry([], [], []) && RegistryOk(Rows())
    {
      clients, grants, conversations := [], [], [];
      new;
      EmptyIsOk();
    }

    /** `by_contact_hash`: any one of the matching rows. */
    method ByContactHash(c: Contacts) returns (existing: Option<nat>)
      ensures Found(clients, c, existing)
    {
      var i := 0;
      while i < |clients|
        invariant i <= |clients| && forall k :: 0 <= k < i ==> !Matches(clients[k], c)
      {
        if Matches(clients[i], c) { return Some(i); }
        i := i + 1;
      }
      existing := None;
    }

    /** `register` after the limit and the human check: `None` when the drawn grant secret is already taken,
        which the unique column refuses. */
    method Register(c: Contacts, hash: Digest, publicId: nat, ttl: Lifetimes, now: nat) returns (grant: Option<nat>)
      requires RegistryOk(Rows()) && AnyContact(c)
      modifies this
      ensures RegistryOk(Rows()) && Grows(old(Rows()), Rows())
      ensures grant.None? <==> exists g :: 0 <= g < |old(grants)| && old(grants)[g].hash == hash
      ensures grant.None? ==> Rows() == old(Rows())
      ensures grant.Some? ==>
                grant.value == |old(grants)| && RegisterRule(old(Rows()), Rows(), c, hash, publicId, now + ttl.grant)
      ensures grant.Some? ==>
                && grant.value == |old(grants)| && |grants| == |old(grants)| + 1
                && grants[grant.value]
                   == GrantRecord(grants[grant.value].client, hash, Some(publicId), now + ttl.grant, None)
                && grants[grant.value].client < |clients| && Matches(clients[grants[grant.value].client], c)
      ensures grant.Some? ==>
                exists existing ::
                  && Found(old(clients), c, existing)
                  && Rows() == Registered(old(Rows()), c, existing, hash, publicId, ttl, now)
    {
      hide RegistryOk, Grows, RegisterRule;
      GrowsFromItself(Rows());
      if GrantByHash(grants, hash).Some? { return None; }
      var existing := ByContactHash(c);
      RegisteredKeeps(Rows(), c, existing, hash, publicId, ttl, now);
      RegisteredFollowsRule(Rows(), c, existing, hash, publicId, ttl, now);
      var client;
      if existing.Some? {
        client := existing.value;
      } else {
        client := |clients|;
        clients := clients + [ClientRecord(c)];
      }
      grant := Some(|grants|);
      grants := grants + [GrantRecord(client, hash, Some(publicId), now + ttl.grant, None)];
      assert Rows() == Registered(old(Rows()), c, existing, hash, publicId, ttl, now);
    }

    /** `create`: the grant is spent exactly when a conversation is issued, and a refusal changes nothing. */
    method Create(hash: Digest, claimed: nat, ttl: Lifetimes, now: nat) returns (r: Exchange)
      requires RegistryOk(Rows())
      modifies this
      ensures RegistryOk(Rows()) && Grows(old(Rows()), Rows())
      ensures r.Refused? ==> Rows() == old(Rows())
      ensures r == Refused(GrantInvalid) <==>
              forall g :: 0 <= g < |old(grants)| ==> !Exchangeable(old(grants)[g], hash, claimed, now)
      ensures r == Refused(ConversationExists) <==>
              exists g :: 0 <= g < |old(grants)| && Exchangeable(old(grants)[g], hash, claimed, now)
                          && AlreadyIssued(old(Rows()), old(grants)[g].client)
      ensures r.Issued? ==>
                exists g :: 0 <= g < |old(grants)| && Exchangeable(old(grants)[g], hash, claimed, now)
                            && ExchangeRule(old(Rows()), Rows(), g, ttl, now) && r.conversation == |old(conversations)|
      ensures r == Refused(GrantInvalid) <==>
              forall g :: 0 <= g < |old(grants)| && old(grants)[g].hash == hash ==>
                !Usable(old(grants)[g], claimed, now)
      ensures r == Refused(ConversationExists) <==>
              exists g :: 0 <= g < |old(grants)| && old(grants)[g].hash == hash && Usable(old(grants)[g], claimed, now)
                          && HasConversation(old(conversations), old(grants)[g].client)
      ensures r.Issued? ==>
                exists g :: 0 <= g < |old(grants)| && old(grants)[g].hash == hash
                            && Rows() == Exchanged(old(Rows()), g, ttl, now) && r.conversation == |old(conversations)|
    {
      var found := GrantByHash(grants, hash);
      if found.None? || !Usable(grants[found.value], claimed, now) {
        return Refused(GrantInvalid);
      }
      var g := found.value;
      var grant := grants[g];
      if HasConversation(conversations, grant.client) {
        return Refused(ConversationExists);
      }
      ExchangedKeeps(Rows(), g, ttl, now);
      r := Issued(|conversations|);
      grants := grants[g := grant.(consumedAt := Some(now))];
      conversations := conversations + [ConversationRecord(grant.client, now, now + ttl.token, QUOTA, 0)];
      assert Rows() == Exchanged(old(Rows()), g, ttl, now);
    }
  }
}
