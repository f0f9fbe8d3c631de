/** The CRM's contact ids: when the upsert of a contact is refused by the unique index. */
module ContactIds {
  import opened Wrappers
  import opened Phone
  import opened Identity
  import opened AccountLifecycle

  /** The unique index on the contact id. */
  predicate UniqueContacts(users: seq<User>) {
    forall i, j :: 0 <= i < j < |users| && users[i].contactId.Some? ==> users[i].contactId != users[j].contactId
  }

  lemma StepKeepsUniqueContacts(cfg: Config, s: Store, op: Op)
    requires UniqueContacts(s.users)
    ensures UniqueContacts(Step(cfg, s, op).0.users)
  {
    match op
    case CrmUpsert(raw, contact, name) =>
      var found := FindUser(s.users, StoredPhone(raw));
      assert !ContactTakenBy(s.users, contact, found) ==>
        forall i :: 0 <= i < |s.users| && s.users[i].contactId == Some(contact) ==> found == Some(i);
    case _ =>
  }

  /** Every run keeps the contact ids unique. */
  lemma {:induction false} RunKeepsUniqueContacts(cfg: Config, s: Store, ops: seq<Op>)
    requires UniqueContacts(s.users)
    ensures UniqueContacts(Run(cfg, s, ops).users)
    decreases ops
  {
    if ops == [] {
    } else {
      StepKeepsUniqueContacts(cfg, s, ops[0]);
      RunKeepsUniqueContacts(cfg, Step(cfg, s, ops[0]).0, ops[1..]);
    }
  }

  predicate Holds(s: Store, u: int, contact: int) {
    0 <= u < |s.users| && s.users[u].contactId == Some(contact)
  }

  /** The upsert of a contact is refused exactly when an account other than the one with the
      contact's phone holds it: an anonymised account, or one whose contact has a new phone. */
  lemma RefusedIff(s: Store, raw: string, contact: int, name: Option<string>)
    requires Consistent(s)
    ensures CrmUpsertStep(s, raw, contact, name).1 == Failed(ContactTaken)
       <==> exists u :: Holds(s, u, contact) && s.users[u].phone != Some(StoredPhone(raw))
  {
    var found := FindUser(s.users, StoredPhone(raw));
    assert forall u :: Holds(s, u, contact) ==> (s.users[u].phone != Some(StoredPhone(raw)) <==> found != Some(u));
  }

  /** The account that holds a contact blocks it for every phone exactly when it has none. */
  lemma HolderBlocksIffPhoneless(s: Store, u: nat, contact: int, name: Option<string>)
    requires Consistent(s) && UniqueContacts(s.users) && Holds(s, u, contact)
    ensures (forall raw :: CrmUpsertStep(s, raw, contact, name).1 == Failed(ContactTaken)) <==> s.users[u].phone.None?
  {
    if s.users[u].phone.None? {
      forall raw ensures CrmUpsertStep(s, raw, contact, name).1 == Failed(ContactTaken) {
        RefusedIff(s, raw, contact, name);
      }
    } else {
      var own := s.users[u].phone.value;
      assert StoredPhone(own) == own;
      RefusedIff(s, own, contact, name);
      assert forall v :: Holds(s, v, contact) ==> v == u;
      assert CrmUpsertStep(s, own, contact, name).1 != Failed(ContactTaken);
    }
  }

  /** Anonymisation keeps the contact id, and so the CRM can never attach that contact again:
      in every continuation the upsert is refused, whatever phone the contact has. */
  lemma AnonymisedContactStaysBlocked(cfg: Config, s: Store, u: nat, contact: int, ops: seq<Op>,
                                      raw: string, name: Option<string>)
    requires Consistent(s) && Holds(s, u, contact)
    ensures CrmUpsertStep(Run(cfg, AnonymizeStep(s, u).0, ops), raw, contact, name).1 == Failed(ContactTaken)
  {
    AnonymizeKeepsConsistent(s, u);
    AnonymizeErases(s, u);
    ErasedContactStaysBlocked(cfg, AnonymizeStep(s, u).0, u, contact, ops, raw, name);
  }

  /** The second input: no account is anonymised, the contact has got another phone. */
  lemma ChangedPhoneIsRefused(s: Store, u: nat, contact: int, raw: string, name: Option<string>)
    requires Consistent(s) && Holds(s, u, contact)
    requires s.users[u].phone.Some? && s.users[u].phone != Some(StoredPhone(raw))
    ensures CrmUpsertStep(s, raw, contact, name) == (s, Failed(ContactTaken))
  {
    RefusedIff(s, raw, contact, name);
  }

  /** Both inputs are reached from the empty service: a contact is synced, and then either its
      phone changes or its account is anonymised. */
  lemma BothRefusalsReached(cfg: Config, now: int, first: string, second: string, contact: int, name: Option<string>)
    requires StoredPhone(first) != StoredPhone(second)
    ensures var s := Step(cfg, Store([], [], [], now), CrmUpsert(first, contact, name)).0;
      && CrmUpsertStep(s, second, contact, name).1 == Failed(ContactTaken)
      && CrmUpsertStep(AnonymizeStep(s, 0).0, first, contact, name).1 == Failed(ContactTaken)
  {
    var empty := Store([], [], [], now);
    var s := Step(cfg, empty, CrmUpsert(first, contact, name)).0;
    StepKeepsConsistent(cfg, empty, CrmUpsert(first, contact, name));
    assert Holds(s, 0, contact) && s.users[0].phone == Some(StoredPhone(first));
    ChangedPhoneIsRefused(s, 0, contact, second, name);
    AnonymisedContactStaysBlocked(cfg, s, 0, contact, [], first, name);
  }
}
