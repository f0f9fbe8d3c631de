/** Users, one-time codes and sessions: the tables behind auth.service.ts,
    users.service.ts, admin-users.service.ts and the user upsert of
    amocrm-sync.service.ts. A table is a sequence of rows, a row's id is its
    position, and each service method is one atomic step on the store. */
module Identity {
  import opened Wrappers
  import opened Phone

  datatype Role = Client | Admin | Partner

  datatype User = User(phone: Option<string>, role: Role, firstName: Option<string>, lastName: Option<string>,
                       contactId: Option<int>, lastLoginAt: Option<int>)

  datatype AuthCode = AuthCode(phone: string, codeHash: string, attempts: nat, expiresAt: int,
                               consumedAt: Option<int>, createdAt: int)

  datatype Session = Session(userId: nat, refreshHash: string, revokedAt: Option<int>, expiresAt: int)

  /** The environment schema admits positive settings only. */
  type Positive = n: nat | n > 0 witness 1

  /** Environment settings and the two libraries the service trusts: bcrypt (`hash` takes
      the salt as its second argument) and the token signer (`verifyRefresh` takes the
      current instant and returns the session id the token names). */
  datatype Config = Config(otpTtlMs: nat, maxAttempts: Positive, ratePerMin: Positive, refreshTtlMs: nat,
                           hash: (string, nat) -> string, compare: (string, string) -> bool,
                           signAccess: (nat, int) -> string, signRefresh: (nat, int) -> string,
                           verifyRefresh: (string, int) -> Option<nat>)

  datatype Store = Store(users: seq<User>, codes: seq<AuthCode>, sessions: seq<Session>, now: int)

  /** NoLiveCode and WrongCode both carry the code AUTH_CODE_INVALID in the source, and
      RefreshMismatch carries REFRESH_INVALID; the model keeps the branches apart. */
  datatype Error = PhoneInvalid | RateLimited | PhoneNotRegistered | NoLiveCode | CodeLocked | WrongCode
                 | RefreshInvalid | RefreshRevoked | RefreshMismatch | NotFound | PhoneTaken | ContactTaken

  datatype Reply =
    | CodeSent(retryAfterSec: nat)
    | LoggedIn(userId: nat, jti: nat, access: string, refresh: string)
    | Refreshed(oldJti: nat, jti: nat, access: string, refresh: string)
    | Done
    | Failed(error: Error)

  datatype Op =
    | RequestCode(rawPhone: string, code: string, salt: nat)
    | VerifyCode(rawPhone: string, code: string, salt: nat)
    | Refresh(token: string, salt: nat)
    | Logout(jti: nat)
    | Anonymize(userId: nat)
    | CreateUser(rawPhone: string, role: Role, firstName: Option<string>, lastName: Option<string>)
    | CrmUpsert(rawPhone: string, contactId: int, name: Option<string>)
    | Wait(ms: nat)

  ghost predicate ValidConfig(cfg: Config) {
    && (forall t, salt :: cfg.compare(t, cfg.hash(t, salt)))
    && (forall t, at, at' :: cfg.verifyRefresh(t, at).Some? && cfg.verifyRefresh(t, at').Some?
                             ==> cfg.verifyRefresh(t, at) == cfg.verifyRefresh(t, at'))
    && (forall jti: nat, at, at' :: cfg.verifyRefresh(cfg.signRefresh(jti, at), at').Some?
                               ==> cfg.verifyRefresh(cfg.signRefresh(jti, at), at') == Some(jti))
    && (forall jti: nat, jti': nat, at, at' :: cfg.signAccess(jti, at) == cfg.signAccess(jti', at') ==> jti == jti')
  }

  const DELETED_NAME := "Удалённый пользователь"

  function CeilDiv(a: nat, b: Positive): nat {
    (a + b - 1) / b
  }

  // ---------------------------------------------------------------- queries

  /** findUnique({ where: { phone } }) */
  function FindUser(users: seq<User>, phone: string): (r: Option<nat>)
    ensures r.Some? ==> r.value < |users| && users[r.value].phone == Some(phone)
    ensures r.None? ==> forall i :: 0 <= i < |users| ==> users[i].phone != Some(phone)
  {
    if users == [] then None
    else
      var last := |users| - 1;
      if users[last].phone == Some(phone) then Some(last) else FindUser(users[..last], phone)
  }

  /** The unique index on amocrm_contact_id rejects a row that takes another row's contact. */
  predicate ContactTakenBy(users: seq<User>, contactId: int, except: Option<nat>) {
    exists i :: 0 <= i < |users| && users[i].contactId == Some(contactId) && except != Some(i)
  }

  predicate LiveFor(c: AuthCode, phone: string, now: int) {
    c.phone == phone && c.consumedAt.None? && c.expiresAt > now
  }

  /** findFirst over live codes, newest first. Rows are appended as they are created. */
  function NewestLive(codes: seq<AuthCode>, phone: string, now: int): (r: Option<nat>)
    ensures r.Some? ==> r.value < |codes| && LiveFor(codes[r.value], phone, now)
    ensures r.Some? ==> forall i :: r.value < i < |codes| ==> !LiveFor(codes[i], phone, now)
    ensures r.None? ==> forall i :: 0 <= i < |codes| ==> !LiveFor(codes[i], phone, now)
  {
    if codes == [] then None
    else
      var last := |codes| - 1;
      if LiveFor(codes[last], phone, now) then Some(last) else NewestLive(codes[..last], phone, now)
  }

  /** new Date(Date.now() - (60 / rate) * 1000), which keeps whole milliseconds. */
  function RateCutoff(cfg: Config, now: int): int {
    now - CeilDiv(60_000, cfg.ratePerMin)
  }

  predicate RequestedSince(codes: seq<AuthCode>, phone: string, cutoff: int) {
    exists i :: 0 <= i < |codes| && codes[i].phone == phone && codes[i].createdAt >= cutoff
  }

  // ------------------------------------------------------------------ steps

  function RequestCodeStep(cfg: Config, s: Store, rawPhone: string, code: string, salt: nat): (Store, Reply) {
    match NormalizePhone(rawPhone)
    case None => (s, Failed(PhoneInvalid))
    case Some(phone) =>
      if RequestedSince(s.codes, phone, RateCutoff(cfg, s.now)) then (s, Failed(RateLimited))
      else if FindUser(s.users, phone).None? then (s, Failed(PhoneNotRegistered))
      else
        var row := AuthCode(phone, cfg.hash(code, salt), 0, s.now + cfg.otpTtlMs, None, s.now);
        (s.(codes := s.codes + [row]), CodeSent(CeilDiv(60, cfg.ratePerMin)))
  }

  function NewSession(cfg: Config, s: Store, userId: nat, salt: nat): Session {
    Session(userId, cfg.hash(cfg.signRefresh(|s.sessions|, s.now), salt), None, s.now + cfg.refreshTtlMs)
  }

  /** user.upsert({ where: { phone }, update: { lastLoginAt }, create: { phone, lastLoginAt } }) */
  function UpsertLogin(users: seq<User>, phone: string, now: int): (r: (seq<User>, nat))
    ensures r.1 < |r.0|
  {
    match FindUser(users, phone)
    case Some(u) => (users[u := users[u].(lastLoginAt := Some(now))], u)
    case None => (users + [User(Some(phone), Client, None, None, None, Some(now))], |users|)
  }

  function VerifyCodeStep(cfg: Config, s: Store, rawPhone: string, code: string, salt: nat): (Store, Reply) {
    match NormalizePhone(rawPhone)
    case None => (s, Failed(PhoneInvalid))
    case Some(phone) => VerifyPhoneStep(cfg, s, phone, code, salt)
  }

  /** verifyCode after the phone was normalised. */
  function VerifyPhoneStep(cfg: Config, s: Store, phone: string, code: string, salt: nat): (Store, Reply) {
    match NewestLive(s.codes, phone, s.now)
    case None => (s, Failed(NoLiveCode))
    case Some(i) =>
      var c := s.codes[i];
      if c.attempts >= cfg.maxAttempts then (s, Failed(CodeLocked))
      else if !cfg.compare(code, c.codeHash) then
        (s.(codes := s.codes[i := c.(attempts := c.attempts + 1)]), Failed(WrongCode))
      else
        var (users, u) := UpsertLogin(s.users, phone, s.now);
        var jti := |s.sessions|;
        (s.(users := users,
            codes := s.codes[i := c.(consumedAt := Some(s.now))],
            sessions := s.sessions + [NewSession(cfg, s, u, salt)]),
         LoggedIn(u, jti, cfg.signAccess(jti, s.now), cfg.signRefresh(jti, s.now)))
  }

  function RefreshStep(cfg: Config, s: Store, token: string, salt: nat): (Store, Reply) {
    match cfg.verifyRefresh(token, s.now)
    case None => (s, Failed(RefreshInvalid))
    case Some(id) =>
      if id >= |s.sessions| || s.sessions[id].revokedAt.Some? || s.sessions[id].expiresAt < s.now then
        (s, Failed(RefreshRevoked))
      else
        var revoked := s.sessions[id := s.sessions[id].(revokedAt := Some(s.now))];
        if !cfg.compare(token, s.sessions[id].refreshHash) then
          (s.(sessions := revoked), Failed(RefreshMismatch))
        else if s.sessions[id].userId >= |s.users| then (s, Failed(NotFound))
        else
          var jti := |s.sessions|;
          (s.(sessions := revoked + [NewSession(cfg, s, s.sessions[id].userId, salt)]),
           Refreshed(id, jti, cfg.signAccess(jti, s.now), cfg.signRefresh(jti, s.now)))
  }

  function LogoutStep(s: Store, jti: nat): (Store, Reply) {
    if jti >= |s.sessions| then (s, Failed(NotFound))
    else (s.(sessions := s.sessions[jti := s.sessions[jti].(revokedAt := Some(s.now))]), Done)
  }

  /** session.updateMany({ where: { userId, revokedAt: null }, data: { revokedAt: now } }) */
  function RevokeAll(sessions: seq<Session>, userId: nat, now: int): (r: seq<Session>)
    ensures |r| == |sessions|
    ensures forall i :: 0 <= i < |r| ==>
      r[i] == if sessions[i].userId == userId && sessions[i].revokedAt.None?
              then sessions[i].(revokedAt := Some(now)) else sessions[i]
  {
    if sessions == [] then []
    else
      var last := |sessions| - 1;
      var row := sessions[last];
      RevokeAll(sessions[..last], userId, now) +
      [if row.userId == userId && row.revokedAt.None? then row.(revokedAt := Some(now)) else row]
  }

  /** authCode.deleteMany({ where: { phone } }) */
  function DropPhone(codes: seq<AuthCode>, phone: string): seq<AuthCode> {
    if codes == [] then []
    else
      var last := |codes| - 1;
      DropPhone(codes[..last], phone) + (if codes[last].phone == phone then [] else [codes[last]])
  }

  function AnonymizeStep(s: Store, id: nat): (Store, Reply) {
    if id >= |s.users| then (s, Failed(NotFound))
    else
      var u := s.users[id];
      (s.(sessions := RevokeAll(s.sessions, id, s.now),
          codes := match u.phone { case Some(p) => DropPhone(s.codes, p) case None => s.codes },
          users := s.users[id := u.(phone := None, firstName := Some(DELETED_NAME), lastName := None)]),
       Done)
  }

  function CreateUserStep(s: Store, rawPhone: string, role: Role, firstName: Option<string>, lastName: Option<string>)
    : (Store, Reply)
  {
    match NormalizePhone(rawPhone)
    case None => (s, Failed(PhoneInvalid))
    case Some(phone) =>
      if FindUser(s.users, phone).Some? then (s, Failed(PhoneTaken))
      else (s.(users := s.users + [User(Some(phone), role, firstName, lastName, None, None)]), Done)
  }

  /** The user.upsert of syncDealById; a contact held by another row violates its unique index. */
  function CrmUpsertStep(s: Store, rawPhone: string, contactId: int, name: Option<string>): (Store, Reply) {
    var phone := StoredPhone(rawPhone);
    var found := FindUser(s.users, phone);
    if ContactTakenBy(s.users, contactId, found) then (s, Failed(ContactTaken))
    else match found
      case Some(u) =>
        var row := s.users[u];
        (s.(users := s.users[u := row.(contactId := Some(contactId),
                                       firstName := if name.Some? then name else row.firstName)]), Done)
      case None =>
        (s.(users := s.users + [User(Some(phone), Client, name, None, Some(contactId), None)]), Done)
  }

  function Step(cfg: Config, s: Store, op: Op): (Store, Reply) {
    match op
    case RequestCode(raw, code, salt) => RequestCodeStep(cfg, s, raw, code, salt)
    case VerifyCode(raw, code, salt) => VerifyCodeStep(cfg, s, raw, code, salt)
    case Refresh(token, salt) => RefreshStep(cfg, s, token, salt)
    case Logout(jti) => LogoutStep(s, jti)
    case Anonymize(id) => AnonymizeStep(s, id)
    case CreateUser(raw, role, first, last) => CreateUserStep(s, raw, role, first, last)
    case CrmUpsert(raw, contact, name) => CrmUpsertStep(s, raw, contact, name)
    case Wait(ms) => (s.(now := s.now + ms), Done)
  }

  function Run(cfg: Config, s: Store, ops: seq<Op>): Store
    decreases ops
  {
    if ops == [] then s else Run(cfg, Step(cfg, s, ops[0]).0, ops[1..])
  }

  // -------------------------------------------------------------- invariant

  predicate UniquePhones(users: seq<User>) {
    forall i, j :: 0 <= i < j < |users| && users[i].phone.Some? ==> users[i].phone != users[j].phone
  }

  /** Every stored phone is already in stored form, foreign numbers included. */
  predicate StoredForms(users: seq<User>) {
    forall i :: 0 <= i < |users| && users[i].phone.Some? ==> StoredPhone(users[i].phone.value) == users[i].phone.value
  }

  predicate Registered(users: seq<User>, phone: string) {
    exists i :: 0 <= i < |users| && users[i].phone == Some(phone)
  }

  predicate CodesOwned(users: seq<User>, codes: seq<AuthCode>) {
    forall i :: 0 <= i < |codes| ==> Registered(users, codes[i].phone)
  }

  predicate SessionsOwned(s: Store) {
    forall i :: 0 <= i < |s.sessions| ==> s.sessions[i].userId < |s.users|
  }

  /** The invariant of every reachable store. */
  predicate Consistent(s: Store) {
    UniquePhones(s.users) && StoredForms(s.users) && CodesOwned(s.users, s.codes) && SessionsOwned(s)
  }

  lemma DropPhoneKeepsOthers(codes: seq<AuthCode>, phone: string)
    ensures forall c :: c in DropPhone(codes, phone) <==> c in codes && c.phone != phone
  {
    if codes == [] {
    } else {
      DropPhoneKeepsOthers(codes[..|codes| - 1], phone);
      assert codes == codes[..|codes| - 1] + [codes[|codes| - 1]];
    }
  }

  lemma UsersStayRegistered(users: seq<User>, users': seq<User>, codes: seq<AuthCode>)
    requires CodesOwned(users, codes)
    requires |users| <= |users'|
    requires forall i :: 0 <= i < |users| ==> users'[i].phone == users[i].phone
    ensures CodesOwned(users', codes)
  {
    forall i | 0 <= i < |codes| ensures Registered(users', codes[i].phone) {
      var u :| 0 <= u < |users| && users[u].phone == Some(codes[i].phone);
      assert users'[u].phone == Some(codes[i].phone);
    }
  }

  lemma VerifyPhoneKeepsConsistent(cfg: Config, s: Store, phone: string, code: string, salt: nat)
    requires Consistent(s)
    ensures Consistent(VerifyPhoneStep(cfg, s, phone, code, salt).0)
  {
    var s' := VerifyPhoneStep(cfg, s, phone, code, salt).0;
    if NewestLive(s.codes, phone, s.now).Some? {
      assert Registered(s.users, s.codes[NewestLive(s.codes, phone, s.now).value].phone);
      UsersStayRegistered(s.users, s'.users, s.codes);
    }
  }

  lemma VerifyCodeKeepsConsistent(cfg: Config, s: Store, raw: string, code: string, salt: nat)
    requires Consistent(s)
    ensures Consistent(VerifyCodeStep(cfg, s, raw, code, salt).0)
  {
    if NormalizePhone(raw).Some? {
      VerifyPhoneKeepsConsistent(cfg, s, NormalizePhone(raw).value, code, salt);
    }
  }

  lemma CrmUpsertKeepsConsistent(s: Store, raw: string, contactId: int, name: Option<string>)
    requires Consistent(s)
    ensures Consistent(CrmUpsertStep(s, raw, contactId, name).0)
  {
    NormalizeIdempotent(raw);
    UsersStayRegistered(s.users, CrmUpsertStep(s, raw, contactId, name).0.users, s.codes);
  }

  lemma CreateUserKeepsConsistent(s: Store, raw: string, role: Role, first: Option<string>, last: Option<string>)
    requires Consistent(s)
    ensures Consistent(CreateUserStep(s, raw, role, first, last).0)
  {
    NormalizeIdempotent(raw);
    UsersStayRegistered(s.users, CreateUserStep(s, raw, role, first, last).0.users, s.codes);
  }

  lemma AnonymizeKeepsConsistent(s: Store, id: nat)
    requires Consistent(s)
    ensures Consistent(AnonymizeStep(s, id).0)
  {
    var s' := AnonymizeStep(s, id).0;
    if id < |s.users| {
      var held := s.users[id].phone;
      if held.Some? { DropPhoneKeepsOthers(s.codes, held.value); }
      forall i | 0 <= i < |s'.codes| ensures Registered(s'.users, s'.codes[i].phone) {
        assert s'.codes[i] in s.codes;
        var k :| 0 <= k < |s.codes| && s.codes[k] == s'.codes[i];
        var u :| 0 <= u < |s.users| && s.users[u].phone == Some(s.codes[k].phone);
        assert u != id;
        assert s'.users[u].phone == Some(s'.codes[i].phone);
      }
    }
  }

  lemma StepKeepsConsistent(cfg: Config, s: Store, op: Op)
    requires Consistent(s)
    ensures Consistent(Step(cfg, s, op).0)
  {
    match op
    case RequestCode(raw, code, salt) =>
    case VerifyCode(raw, code, salt) => VerifyCodeKeepsConsistent(cfg, s, raw, code, salt);
    case Refresh(token, salt) =>
    case Logout(jti) =>
    case Anonymize(id) => AnonymizeKeepsConsistent(s, id);
    case CreateUser(raw, role, first, last) => CreateUserKeepsConsistent(s, raw, role, first, last);
    case CrmUpsert(raw, contact, name) => CrmUpsertKeepsConsistent(s, raw, contact, name);
    case Wait(ms) =>
  }

  lemma {:induction false} RunKeepsConsistent(cfg: Config, s: Store, ops: seq<Op>)
    requires Consistent(s)
    ensures Consistent(Run(cfg, s, ops))
    decreases ops
  {
    if ops == [] {
    } else {
      StepKeepsConsistent(cfg, s, ops[0]);
      RunKeepsConsistent(cfg, Step(cfg, s, ops[0]).0, ops[1..]);
    }
  }

  /** No two stored users have phones with one normal form, in any reachable store. */
  lemma ReachablePhonesDiffer(cfg: Config, now: int, ops: seq<Op>)
    ensures var users := Run(cfg, Store([], [], [], now), ops).users;
      forall i, j :: 0 <= i < j < |users| && users[i].phone.Some? && users[j].phone.Some?
        ==> StoredPhone(users[i].phone.value) != StoredPhone(users[j].phone.value)
  {
    RunKeepsConsistent(cfg, Store([], [], [], now), ops);
  }

  /** The service object: its fields are the tables it reads and writes. */
  class IdentityService {
    const cfg: Config
    var users: seq<User>
    var codes: seq<AuthCode>
    var sessions: seq<Session>
    var now: int

    function Snapshot(): Store
      reads this
    {
      Store(users, codes, sessions, now)
    }

    constructor (cfg: Config, now: int)
      ensures this.cfg == cfg
      ensures Snapshot() == Store([], [], [], now) && Consistent(Snapshot())
    {
      this.cfg := cfg;
      users, codes, sessions, this.now := [], [], [], now;
    }

    method RequestCode(rawPhone: string, code: string, salt: nat) returns (r: Reply)
      modifies this`codes
      ensures (Snapshot(), r) == RequestCodeStep(cfg, old(Snapshot()), rawPhone, code, salt)
    {
      var normal := NormalizePhone(rawPhone);
      if normal.None? { return Failed(PhoneInvalid); }
      var phone := normal.value;
      if RequestedSince(codes, phone, RateCutoff(cfg, now)) { return Failed(RateLimited); }
      var codeHash := cfg.hash(code, salt);
      var expiresAt := now + cfg.otpTtlMs;
      if FindUser(users, phone).None? { return Failed(PhoneNotRegistered); }
      codes := codes + [AuthCode(phone, codeHash, 0, expiresAt, None, now)];
      r := CodeSent(CeilDiv(60, cfg.ratePerMin));
    }

    method VerifyCode(rawPhone: string, code: string, salt: nat) returns (r: Reply)
      modifies this`users, this`codes, this`sessions
      ensures (Snapshot(), r) == VerifyCodeStep(cfg, old(Snapshot()), rawPhone, code, salt)
    {
      var normal := NormalizePhone(rawPhone);
      if normal.None? { return Failed(PhoneInvalid); }
      var found := NewestLive(codes, normal.value, now);
      if found.None? { return Failed(NoLiveCode); }
      var i := found.value;
      var authCode := codes[i];
      if authCode.attempts >= cfg.maxAttempts { return Failed(CodeLocked); }
      if !cfg.compare(code, authCode.codeHash) {
        codes := codes[i := authCode.(attempts := authCode.attempts + 1)];
        return Failed(WrongCode);
      }
      codes := codes[i := authCode.(consumedAt := Some(now))];
      var upserted := UpsertLogin(users, normal.value, now);
      users := upserted.0;
      var u := upserted.1;
      var jti := |sessions|;
      var access, refresh := cfg.signAccess(jti, now), cfg.signRefresh(jti, now);
      sessions := sessions + [Session(u, cfg.hash(refresh, salt), None, now + cfg.refreshTtlMs)];
      r := LoggedIn(u, jti, access, refresh);
    }

    method Refresh(token: string, salt: nat) returns (r: Reply)
      modifies this`sessions
      ensures (Snapshot(), r) == RefreshStep(cfg, old(Snapshot()), token, salt)
    {
      var claims := cfg.verifyRefresh(token, now);
      if claims.None? { return Failed(RefreshInvalid); }
      var id := claims.value;
      if id >= |sessions| || sessions[id].revokedAt.Some? || sessions[id].expiresAt < now {
        return Failed(RefreshRevoked);
      }
      var session := sessions[id];
      if !cfg.compare(token, session.refreshHash) {
        sessions := sessions[id := session.(revokedAt := Some(now))];
        return Failed(RefreshMismatch);
      }
      if session.userId >= |users| { return Failed(NotFound); }
      var jti := |sessions|;
      var access, refresh := cfg.signAccess(jti, now), cfg.signRefresh(jti, now);
      var newHash := cfg.hash(refresh, salt);
      sessions := sessions[id := session.(revokedAt := Some(now))];
      sessions := sessions + [Session(session.userId, newHash, None, now + cfg.refreshTtlMs)];
      r := Refreshed(id, jti, access, refresh);
    }

    method Logout(jti: nat) returns (r: Reply)
      modifies this`sessions
      ensures (Snapshot(), r) == LogoutStep(old(Snapshot()), jti)
    {
      if jti >= |sessions| { return Failed(NotFound); }
      sessions := sessions[jti := sessions[jti].(revokedAt := Some(now))];
      r := Done;
    }

    method Anonymize(id: nat) returns (r: Reply)
      modifies this`users, this`codes, this`sessions
      ensures (Snapshot(), r) == AnonymizeStep(old(Snapshot()), id)
    {
      if id >= |users| { return Failed(NotFound); }
      var user := users[id];
      sessions := RevokeAll(sessions, id, now);
      if user.phone.Some? {
        codes := DropPhone(codes, user.phone.value);
      }
      users := users[id := user.(phone := None, firstName := Some(DELETED_NAME), lastName := None)];
      r := Done;
    }

    method CreateUser(rawPhone: string, role: Role, firstName: Option<string>, lastName: Option<string>)
      returns (r: Reply)
      modifies this`users
      ensures (Snapshot(), r) == CreateUserStep(old(Snapshot()), rawPhone, role, firstName, lastName)
    {
      var phone := NormalizePhone(rawPhone);
      if phone.None? { return Failed(PhoneInvalid); }
      if FindUser(users, phone.value).Some? { return Failed(PhoneTaken); }
      users := users + [User(phone, role, firstName, lastName, None, None)];
      r := Done;
    }
  }
}
