/** Rotation of sessions: every login starts a chain, every refresh replaces the chain's
    one live session. The ledger adds to the store which chain each session belongs to. */
module SessionChains {
  import opened Wrappers
  import opened Identity

  /** chain[j] is the login that session j descends from; logins[k] is the user of login k. */
  datatype Ledger = Ledger(store: Store, chain: seq<nat>, logins: seq<nat>)

  function Record(cfg: Config, l: Ledger, op: Op): Ledger {
    var (s', reply) := Step(cfg, l.store, op);
    match reply
    case LoggedIn(u, _, _, _) => Ledger(s', l.chain + [|l.logins|], l.logins + [u])
    case Refreshed(oldJti, _, _, _) =>
      Ledger(s', l.chain + [if oldJti < |l.chain| then l.chain[oldJti] else 0], l.logins)
    case _ => Ledger(s', l.chain, l.logins)
  }

  function RecordAll(cfg: Config, l: Ledger, ops: seq<Op>): Ledger
    decreases ops
  {
    if ops == [] then l else RecordAll(cfg, Record(cfg, l, ops[0]), ops[1..])
  }

  predicate Live(l: Ledger, j: int) {
    0 <= j < |l.store.sessions| && l.store.sessions[j].revokedAt.None?
  }

  ghost predicate Sound(l: Ledger) {
    && Consistent(l.store)
    && |l.chain| == |l.store.sessions|
    && (forall j :: 0 <= j < |l.chain| ==> l.chain[j] < |l.logins| && l.store.sessions[j].userId == l.logins[l.chain[j]])
    && (forall k :: 0 <= k < |l.logins| ==> HasMember(l, k))
    && NewestOnly(l)
  }

  ghost predicate HasMember(l: Ledger, k: nat) {
    exists j :: 0 <= j < |l.chain| && l.chain[j] == k
  }

  /** Only the newest session of a chain can be live. */
  ghost predicate NewestOnly(l: Ledger) {
    forall i, j :: 0 <= i < j < |l.chain| && l.chain[i] == l.chain[j] ==> !Live(l, i)
  }

  /** What one step can do to the ledger: age the sessions it has, and possibly append
      one that starts a new chain or continues the chain of a session it has just ended. */
  ghost predicate Grows(l: Ledger, l': Ledger) {
    var n := |l.chain|;
    && |l.store.sessions| == n
    && |l'.store.sessions| == |l'.chain| && n <= |l'.chain| <= n + 1 && l'.chain[..n] == l.chain
    && l.logins <= l'.logins
    && (forall j :: 0 <= j < n ==> l'.store.sessions[j].userId == l.store.sessions[j].userId
                                   && (Live(l', j) ==> Live(l, j)))
    && (|l'.chain| == n ==> l'.logins == l.logins)
    && (|l'.chain| == n + 1 ==>
          || StartsChain(l, l', n)
          || exists i :: ContinuesChain(l, l', i, n))
  }

  predicate StartsChain(l: Ledger, l': Ledger, n: nat) {
    && n < |l'.chain| == |l'.store.sessions|
    && l'.chain[n] == |l.logins| && l'.logins == l.logins + [l'.store.sessions[n].userId]
  }

  predicate ContinuesChain(l: Ledger, l': Ledger, i: int, n: nat) {
    && n == |l.chain| == |l.store.sessions| && n < |l'.chain| == |l'.store.sessions|
    && 0 <= i < n && Live(l, i) && !Live(l', i) && l'.logins == l.logins
    && l'.chain[n] == l.chain[i] && l'.store.sessions[n].userId == l.store.sessions[i].userId
  }

  lemma VerifyGrows(cfg: Config, l: Ledger, raw: string, code: string, salt: nat)
    requires |l.chain| == |l.store.sessions|
    ensures Grows(l, Record(cfg, l, VerifyCode(raw, code, salt)))
  {
  }

  lemma RefreshGrows(cfg: Config, l: Ledger, token: string, salt: nat)
    requires |l.chain| == |l.store.sessions|
    ensures Grows(l, Record(cfg, l, Refresh(token, salt)))
  {
    var reply := RefreshStep(cfg, l.store, token, salt).1;
    if reply.Refreshed? {
      assert ContinuesChain(l, Record(cfg, l, Refresh(token, salt)), reply.oldJti, |l.chain|);
    }
  }

  lemma RecordGrows(cfg: Config, l: Ledger, op: Op)
    requires |l.chain| == |l.store.sessions|
    ensures Grows(l, Record(cfg, l, op))
  {
    match op
    case VerifyCode(raw, code, salt) => VerifyGrows(cfg, l, raw, code, salt);
    case Refresh(token, salt) => RefreshGrows(cfg, l, token, salt);
    case _ =>
  }

  lemma GrowthKeepsMembers(l: Ledger, l': Ledger)
    requires Sound(l) && Grows(l, l')
    ensures forall k :: 0 <= k < |l'.logins| ==> HasMember(l', k)
  {
    forall k | 0 <= k < |l'.logins| ensures HasMember(l', k) {
      if k < |l.logins| {
        assert HasMember(l, k);
        var j :| 0 <= j < |l.chain| && l.chain[j] == k;
        assert l'.chain[j] == l'.chain[..|l.chain|][j] == k;
      } else {
        assert l'.chain[|l.chain|] == k;
      }
    }
  }

  lemma GrowthKeepsNewestOnly(l: Ledger, l': Ledger)
    requires Sound(l) && Grows(l, l')
    ensures NewestOnly(l')
  {
    var n := |l.chain|;
    assert forall j :: 0 <= j < n ==> l'.chain[j] == l'.chain[..n][j] == l.chain[j];
  }

  lemma GrowthKeepsSound(l: Ledger, l': Ledger)
    requires Sound(l) && Grows(l, l') && Consistent(l'.store)
    ensures Sound(l')
  {
    GrowthKeepsMembers(l, l');
    GrowthKeepsNewestOnly(l, l');
    assert forall j :: 0 <= j < |l.chain| ==> l'.chain[j] == l'.chain[..|l.chain|][j];
  }

  lemma RecordKeepsSound(cfg: Config, l: Ledger, op: Op)
    requires Sound(l)
    ensures Sound(Record(cfg, l, op))
  {
    StepKeepsConsistent(cfg, l.store, op);
    RecordGrows(cfg, l, op);
    GrowthKeepsSound(l, Record(cfg, l, op));
  }

  lemma {:induction false} RunKeepsSound(cfg: Config, l: Ledger, ops: seq<Op>)
    requires Sound(l)
    ensures Sound(RecordAll(cfg, l, ops))
    decreases ops
  {
    if ops == [] {
    } else {
      RecordKeepsSound(cfg, l, ops[0]);
      RunKeepsSound(cfg, Record(cfg, l, ops[0]), ops[1..]);
    }
  }

  /** In every run from an empty service, two sessions of one login are never both live. */
  lemma AtMostOneLivePerChain(cfg: Config, now: int, ops: seq<Op>, i: nat, j: nat)
    ensures var l := RecordAll(cfg, Ledger(Store([], [], [], now), [], []), ops);
      |l.chain| == |l.store.sessions| &&
      (i < |l.chain| && j < |l.chain| && l.chain[i] == l.chain[j] && Live(l, i) && Live(l, j) ==> i == j)
  {
    RunKeepsSound(cfg, Ledger(Store([], [], [], now), [], []), ops);
  }

  // ------------------------------------------------------------- conservation

  ghost function LiveOf(l: Ledger, u: nat): set<nat> {
    set j: nat | j < |l.store.sessions| && l.store.sessions[j].userId == u && Live(l, j)
  }

  ghost function LoginsOf(l: Ledger, u: nat): set<nat> {
    set k: nat | k < |l.logins| && l.logins[k] == u
  }

  /** All members of chain k are revoked. */
  ghost predicate Ended(l: Ledger, k: nat) {
    forall j :: 0 <= j < |l.chain| && l.chain[j] == k ==> !Live(l, j)
  }

  ghost function EndedOf(l: Ledger, u: nat): set<nat> {
    set k: nat | k in LoginsOf(l, u) && Ended(l, k)
  }

  /** Sessions in `js` belong to pairwise different chains, so there are as many chains. */
  lemma {:induction false} ImageSize(l: Ledger, js: set<nat>, ks: set<nat>)
    requires forall j :: j in js ==> j < |l.chain| && l.chain[j] in ks
    requires forall k :: k in ks ==> exists j :: j in js && l.chain[j] == k
    requires forall i, j :: i in js && j in js && l.chain[i] == l.chain[j] ==> i == j
    ensures |js| == |ks|
    decreases js
  {
    if js == {} {
      assert forall k :: k !in ks;
    } else {
      var j :| j in js;
      var js', ks' := js - {j}, ks - {l.chain[j]};
      forall k | k in ks' ensures exists i :: i in js' && l.chain[i] == k {
        var i :| i in js && l.chain[i] == k;
        assert i in js';
      }
      ImageSize(l, js', ks');
    }
  }

  /** A user's live sessions number the user's logins minus the chains that have ended. */
  lemma LiveEqualsLoginsMinusEnded(l: Ledger, u: nat)
    requires Sound(l)
    ensures |LiveOf(l, u)| == |LoginsOf(l, u)| - |EndedOf(l, u)|
  {
    var running := LoginsOf(l, u) - EndedOf(l, u);
    assert LoginsOf(l, u) == running + EndedOf(l, u);
    forall k | k in running ensures exists j :: j in LiveOf(l, u) && l.chain[j] == k {
      var j :| 0 <= j < |l.chain| && l.chain[j] == k && Live(l, j);
      assert j in LiveOf(l, u);
    }
    ImageSize(l, LiveOf(l, u), running);
  }

  /** Over every run from an empty service, the count is conserved in that form. */
  lemma RunConservesLiveCount(cfg: Config, now: int, ops: seq<Op>, u: nat)
    ensures var l := RecordAll(cfg, Ledger(Store([], [], [], now), [], []), ops);
      |l.chain| == |l.store.sessions| && |LiveOf(l, u)| == |LoginsOf(l, u)| - |EndedOf(l, u)|
  {
    RunKeepsSound(cfg, Ledger(Store([], [], [], now), [], []), ops);
    LiveEqualsLoginsMinusEnded(RecordAll(cfg, Ledger(Store([], [], [], now), [], []), ops), u);
  }

  /** An accepted refresh swaps exactly one session: the presented one ends, its
      successor in the same chain is live, and nothing else changes. */
  lemma RefreshSwapsOneSession(cfg: Config, l: Ledger, token: string, salt: nat)
    requires Sound(l)
    requires RefreshStep(cfg, l.store, token, salt).1.Refreshed?
    ensures var l' := Record(cfg, l, Refresh(token, salt));
      var reply := RefreshStep(cfg, l.store, token, salt).1;
      && reply.oldJti < |l.store.sessions| == reply.jti < |l'.store.sessions|
      && Live(l, reply.oldJti) && !Live(l', reply.oldJti) && Live(l', reply.jti)
      && l'.chain[reply.jti] == l'.chain[reply.oldJti]
      && l'.store.sessions[reply.jti].userId == l.store.sessions[reply.oldJti].userId
      && forall j :: 0 <= j < |l.store.sessions| && j != reply.oldJti ==> l'.store.sessions[j] == l.store.sessions[j]
  {
  }

  /** So an accepted refresh conserves every user's live count. */
  lemma RefreshConservesLiveCount(cfg: Config, l: Ledger, token: string, salt: nat, u: nat)
    requires Sound(l)
    requires RefreshStep(cfg, l.store, token, salt).1.Refreshed?
    ensures |LiveOf(Record(cfg, l, Refresh(token, salt)), u)| == |LiveOf(l, u)|
  {
    var l' := Record(cfg, l, Refresh(token, salt));
    var reply := RefreshStep(cfg, l.store, token, salt).1;
    RefreshSwapsOneSession(cfg, l, token, salt);
    SwapKeepsCount(l, l', reply.oldJti, reply.jti, u);
  }

  /** A logout ends exactly the session it names: its chain has ended, every other chain and
      session is as it was, and its user has one live session less. */
  lemma LogoutEndsChain(cfg: Config, l: Ledger, jti: nat, u: nat)
    requires Sound(l) && Live(l, jti)
    ensures var l' := Record(cfg, l, Logout(jti));
      && l'.chain == l.chain && l'.logins == l.logins && |l'.store.sessions| == |l.store.sessions|
      && (forall j :: Live(l', j) <==> Live(l, j) && j != jti)
      && Ended(l', l.chain[jti]) && !Ended(l, l.chain[jti])
      && (forall k :: k != l.chain[jti] ==> (Ended(l', k) <==> Ended(l, k)))
      && |LiveOf(l', u)| == |LiveOf(l, u)| - if l.store.sessions[jti].userId == u then 1 else 0
  {
    var l' := Record(cfg, l, Logout(jti));
    assert forall j :: 0 <= j < |l.chain| ==> l'.store.sessions[j].userId == l.store.sessions[j].userId;
    assert forall j :: Live(l', j) <==> Live(l, j) && j != jti;
    assert LiveOf(l', u) == LiveOf(l, u) - {jti};
    assert jti in LiveOf(l, u) <==> l.store.sessions[jti].userId == u;
  }

  lemma SwapKeepsCount(l: Ledger, l': Ledger, i: nat, n: nat, u: nat)
    requires i < |l.store.sessions| == n && |l'.store.sessions| == n + 1
    requires Live(l, i) && !Live(l', i) && Live(l', n)
    requires l'.store.sessions[n].userId == l.store.sessions[i].userId
    requires forall j :: 0 <= j < n && j != i ==> l'.store.sessions[j] == l.store.sessions[j]
    ensures |LiveOf(l', u)| == |LiveOf(l, u)|
  {
    var before, after := LiveOf(l, u), LiveOf(l', u);
    var swapped := if l.store.sessions[i].userId == u then before - {i} + {n} else before;
    forall j: nat ensures j in after <==> j in swapped {
      if j < n && j != i {
        assert l'.store.sessions[j] == l.store.sessions[j];
      }
    }
    assert after == swapped;
    assert n !in before;
    if l.store.sessions[i].userId == u {
      assert i in before;
      assert |swapped| == |before - {i}| + 1;
    }
  }
}
