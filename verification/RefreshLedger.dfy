/** The web client's session and the ledger of login chains: the session a tab refreshes is
    at every moment the one live session of its login. */
module RefreshLedger {
  import opened Wrappers
  import opened Identity
  import opened AccountLifecycle
  import opened RefreshProtocol
  import opened SessionChains

  /** What a step of the protocol makes the server do. */
  function ServerOp(cfg: Config, w: World, a: Action): Option<Op> {
    match a
    case Serve(i, salt) =>
      if i < |w.net| && w.net[i].ToServer? then Some(Op.Refresh(w.net[i].token, salt)) else None
    case Elsewhere(op) => if StillLive(Step(cfg, w.server, op).0, w.jti) then Some(op) else None
    case _ => None
  }

  function Follow(cfg: Config, l: Ledger, w: World, a: Action): Ledger {
    match ServerOp(cfg, w, a)
    case Some(op) => Record(cfg, l, op)
    case None => l
  }

  /** The ledger of a run of the protocol. */
  function FollowAll(cfg: Config, l: Ledger, w: World, actions: seq<Action>): Ledger
    decreases actions
  {
    if actions == [] then l
    else FollowAll(cfg, Follow(cfg, l, w, actions[0]), Next(cfg, w, actions[0]), actions[1..])
  }

  /** The ledger is about the client's server, and the client's session descends from login k. */
  ghost predicate Tied(cfg: Config, l: Ledger, w: World, k: nat) {
    && Inv(cfg, w) && Sound(l) && l.store == w.server
    && w.jti < |l.chain| && l.chain[w.jti] == k
  }

  lemma LoginTies(cfg: Config, l: Ledger, raw: string, code: string, salt: nat)
    requires ValidConfig(cfg) && Sound(l) && VerifyCodeStep(cfg, l.store, raw, code, salt).1.LoggedIn?
    ensures var (s', r) := VerifyCodeStep(cfg, l.store, raw, code, salt);
      Tied(cfg, Record(cfg, l, VerifyCode(raw, code, salt)),
           World(s', Tab(Some(r.access), Some(r.refresh), None, 0, map[]), [], r.jti, r.refresh), |l.logins|)
  {
    LoginEstablishesInv(cfg, l.store, raw, code, salt);
    RecordKeepsSound(cfg, l, VerifyCode(raw, code, salt));
  }

  lemma OldChainsStay(cfg: Config, l: Ledger, op: Op, j: nat)
    requires Sound(l) && j < |l.chain|
    ensures j < |Record(cfg, l, op).chain| && Record(cfg, l, op).chain[j] == l.chain[j]
  {
    RecordGrows(cfg, l, op);
    assert Record(cfg, l, op).chain[..|l.chain|][j] == l.chain[j];
  }

  /** The client's own refresh moves it to the successor in the same chain. */
  lemma ServeKeepsTied(cfg: Config, l: Ledger, w: World, k: nat, i: nat, salt: nat)
    requires ValidConfig(cfg) && Tied(cfg, l, w, k) && i < |w.net| && w.net[i].ToServer?
    ensures Tied(cfg, Follow(cfg, l, w, Serve(i, salt)), Next(cfg, w, Serve(i, salt)), k)
  {
    NextKeepsInv(cfg, w, Serve(i, salt));
    RecordKeepsSound(cfg, l, Op.Refresh(w.token, salt));
    ServeLiveToken(cfg, w.server, w.jti, w.token, salt);
    OldChainsStay(cfg, l, Op.Refresh(w.token, salt), w.jti);
    if RefreshStep(cfg, w.server, w.token, salt).1.Refreshed? {
      RefreshSwapsOneSession(cfg, l, w.token, salt);
    }
  }

  lemma FollowKeepsTied(cfg: Config, l: Ledger, w: World, k: nat, a: Action)
    requires ValidConfig(cfg) && Tied(cfg, l, w, k)
    ensures Tied(cfg, Follow(cfg, l, w, a), Next(cfg, w, a), k)
  {
    NextKeepsInv(cfg, w, a);
    match a
    case Serve(i, salt) =>
      if i < |w.net| && w.net[i].ToServer? { ServeKeepsTied(cfg, l, w, k, i, salt); }
    case Elsewhere(op) =>
      if ServerOp(cfg, w, a).Some? {
        RecordKeepsSound(cfg, l, op);
        OldChainsStay(cfg, l, op, w.jti);
      }
    case _ =>
  }

  lemma {:induction false} RunKeepsTied(cfg: Config, l: Ledger, w: World, k: nat, actions: seq<Action>)
    requires ValidConfig(cfg) && Tied(cfg, l, w, k)
    ensures Tied(cfg, FollowAll(cfg, l, w, actions), Execute(cfg, w, actions), k)
    decreases actions
  {
    if actions == [] {
    } else {
      FollowKeepsTied(cfg, l, w, k, actions[0]);
      RunKeepsTied(cfg, Follow(cfg, l, w, actions[0]), Next(cfg, w, actions[0]), k, actions[1..]);
    }
  }

  lemma OneLiveInChain(l: Ledger, i: nat, j: nat)
    requires NewestOnly(l) && |l.chain| == |l.store.sessions|
    requires i < |l.chain| && j < |l.chain| && l.chain[i] == l.chain[j] && Live(l, i)
    ensures Live(l, j) <==> j == i
  {
  }

  lemma TiedSessionIsLive(cfg: Config, l: Ledger, w: World, k: nat, j: nat)
    requires Tied(cfg, l, w, k) && j < |l.chain| && l.chain[j] == k
    ensures Live(l, j) <==> j == w.jti
  {
    OneLiveInChain(l, w.jti, j);
  }

  /** In every run of the protocol the session that the client's refresh token names is the
      one live session of the client's login. */
  lemma ClientHoldsTheLiveSession(cfg: Config, l: Ledger, w: World, k: nat, actions: seq<Action>, j: nat)
    requires ValidConfig(cfg) && Tied(cfg, l, w, k)
    ensures var l', w' := FollowAll(cfg, l, w, actions), Execute(cfg, w, actions);
      && l'.store == w'.server
      && (j < |l'.chain| && l'.chain[j] == k ==> (Live(l', j) <==> j == w'.jti))
  {
    RunKeepsTied(cfg, l, w, k, actions);
    var l', w' := FollowAll(cfg, l, w, actions), Execute(cfg, w, actions);
    if j < |l'.chain| && l'.chain[j] == k {
      TiedSessionIsLive(cfg, l', w', k, j);
    }
  }
}
