/**
 The requests waiting behind a tunnel (relay.rs), and the tokens that are rotated out: each request
 is handed out once, in the order of asking, and answered at most once; a rotated token is void.
 */
module CredentialQueues {
  import opened Bytes
  import opened Credentials
  import opened CredentialRuns
  import opened CredentialHello

  /** The request a poll is handed. */
  function Served(env: Env, shared: Token, s: State, e: Event): Option<nat> {
    if e.PollBy? && RelayOk(env, s, shared, e.id, e.tok) then Poll(s, e.id, AuthHash(env, e.tok)).1 else None
  }

  /** The pending request whose answer is taken. */
  predicate Taken(env: Env, shared: Token, s: State, e: Event, id: Id, req: nat) {
    e.ReplyBy? && e.id == id && e.req == req && RelayOk(env, s, shared, id, e.tok) && Reply(s, id, AuthHash(env, e.tok), req).1
  }

  /** How a step moves what waits behind a tunnel that outlives it. */
  ghost predicate Moved(env: Env, shared: Token, s: State, e: Event, t: Tunnel, t': Tunnel, id: Id) {
    if e == RequestTo(id) then
      t'.queue == t.queue + [t.nextId] && t'.pending == t.pending + {t.nextId} && t'.nextId == t.nextId + 1
    else
      && t'.nextId == t.nextId
      && (if e.PollBy? && e.id == id && Served(env, shared, s, e).Some? then |t.queue| > 0 && t'.queue == t.queue[1..] else t'.queue == t.queue)
      && (forall req | req in t'.pending :: req in t.pending)
      && (forall req | Taken(env, shared, s, e, id, req) :: req !in t'.pending)
  }

  lemma TunnelMoves(env: Env, shared: Token, s: State, e: Event, id: Id)
    requires id in s.tunnels && id in After(env, shared, s, e).tunnels
    ensures Moved(env, shared, s, e, s.tunnels[id], After(env, shared, s, e).tunnels[id], id)
  {
    hide HelloEp, RelayOk, AuthHash, Poll, Reply, Request;
    match e {
      case HelloFrom(h, luck) => HelloQueue(env, s, shared, h, luck, id);
      case PollBy(i, tok) => PollTunnel(s, i, AuthHash(env, tok), id);
      case ReplyBy(i, tok, req) => ReplyTunnel(s, i, AuthHash(env, tok), req, id);
      case RequestTo(i) => RequestTunnel(s, i, id);
      case _ =>
    }
  }

  lemma PollTunnel(s: State, i: Id, auth: Hash, id: Id)
    requires id in s.tunnels
    ensures var (s', r) := Poll(s, i, auth);
            id in s'.tunnels
            && var t, t' := s.tunnels[id], s'.tunnels[id];
               t'.nextId == t.nextId && t'.pending == t.pending
               && (if i == id && r.Some? then |t.queue| > 0 && t'.queue == t.queue[1..] else t'.queue == t.queue)
  {
  }

  lemma ReplyTunnel(s: State, i: Id, auth: Hash, req: nat, id: Id)
    requires id in s.tunnels
    ensures var (s', ok) := Reply(s, i, auth, req);
            id in s'.tunnels
            && var t, t' := s.tunnels[id], s'.tunnels[id];
               t'.nextId == t.nextId && t'.queue == t.queue && t'.pending <= t.pending && (i == id && ok ==> req !in t'.pending)
  {
  }

  lemma RequestTunnel(s: State, i: Id, id: Id)
    requires id in s.tunnels
    ensures var t := s.tunnels[id];
            id in Request(s, i).tunnels
            && var t' := Request(s, i).tunnels[id];
               if i == id then t'.queue == t.queue + [t.nextId] && t'.pending == t.pending + {t.nextId} && t'.nextId == t.nextId + 1
               else t' == t
  {
  }

  lemma ServedWaits(env: Env, shared: Token, s: State, e: Event)
    ensures Served(env, shared, s, e).Some? ==>
              e.id in s.tunnels && |s.tunnels[e.id].queue| > 0 && Served(env, shared, s, e).value == s.tunnels[e.id].queue[0]
    ensures forall id, req | Taken(env, shared, s, e, id, req) :: id in s.tunnels && req in s.tunnels[id].pending
  {
    hide RelayOk, AuthHash;
  }

  lemma HelloQueue(env: Env, s: State, shared: Token, h: Hello, luck: Luck, id: Id)
    requires id in s.tunnels && id in HelloEp(env, s, shared, h, luck).0.tunnels
    ensures var t, t' := s.tunnels[id], HelloEp(env, s, shared, h, luck).0.tunnels[id];
            t'.queue == t.queue && t'.pending == t.pending && t'.nextId == t.nextId
  {
    hide SecretHello, TokenHello, RelayOk, IsDeviceSecret;
    SecretHelloMoves(env, s, h);
    SecretHelloQueue(env, s, h);
    TokenHelloMoves(env, s, h, luck);
    TokenHelloQueue(env, s, h, luck);
  }

  // ---- numbers ----------------------------------------------------------------------------------

  /** The requests waiting are the last ones asked for, in order. */
  predicate Consecutive(t: Tunnel) {
    |t.queue| <= t.nextId && forall i | 0 <= i < |t.queue| :: t.queue[i] == t.nextId - |t.queue| + i
  }

  ghost predicate Ordered(s: State) {
    forall id | id in s.tunnels :: Consecutive(s.tunnels[id])
  }

  lemma NewTunnelEmpty(env: Env, shared: Token, s: State, e: Event, id: Id)
    requires id !in s.tunnels && id in After(env, shared, s, e).tunnels
    ensures After(env, shared, s, e).tunnels[id].queue == []
  {
    hide SecretHello, TokenHello, RelayOk, IsDeviceSecret;
    if e.HelloFrom? {
      SecretHelloMoves(env, s, e.h);
      SecretHelloQueue(env, s, e.h);
      TokenHelloMoves(env, s, e.h, e.luck);
      TokenHelloQueue(env, s, e.h, e.luck);
    }
  }

  lemma OrderKept(env: Env, shared: Token, s: State, e: Event)
    requires Ordered(s)
    ensures Ordered(After(env, shared, s, e))
  {
    hide After, Served;
    var s' := After(env, shared, s, e);
    ServedWaits(env, shared, s, e);
    forall id | id in s'.tunnels ensures Consecutive(s'.tunnels[id]) {
      if id in s.tunnels {
        TunnelMoves(env, shared, s, e, id);
      } else {
        NewTunnelEmpty(env, shared, s, e, id);
      }
    }
  }

  lemma {:induction false} OrderHolds(env: Env, shared: Token, ss: seq<State>, es: seq<Event>, n: nat)
    requires IsRun(env, shared, ss, es) && n <= |es|
    ensures Ordered(ss[n])
  {
    hide After, Allowed, Ordered;
    if n == 0 {
      NothingOrdered(ss[0]);
    } else {
      OrderHolds(env, shared, ss, es, n - 1);
      assert Step(env, shared, ss[n - 1], es[n - 1], ss[n]);
      OrderKept(env, shared, ss[n - 1], es[n - 1]);
    }
  }

  lemma NothingOrdered(s: State)
    requires s.tunnels == map[]
    ensures Ordered(s)
  {
  }

  /** How many polls of this id are handed a request from step m to step n. */
  ghost function Handed(env: Env, shared: Token, ss: seq<State>, es: seq<Event>, m: nat, n: nat, id: Id): nat
    requires m <= n <= |es| && |ss| == |es| + 1
  {
    if n == m then 0
    else Handed(env, shared, ss, es, m, n - 1, id) + if es[n - 1].PollBy? && es[n - 1].id == id && Served(env, shared, ss[n - 1], es[n - 1]).Some? then 1 else 0
  }

  /** The number of the next request to be handed out. */
  function NextOut(t: Tunnel): int {
    t.nextId - |t.queue|
  }

  lemma {:induction false} NextOutMoves(env: Env, shared: Token, ss: seq<State>, es: seq<Event>, m: nat, n: nat, id: Id)
    requires IsRun(env, shared, ss, es) && m <= n <= |es| && forall i | m <= i <= n :: id in ss[i].tunnels
    ensures NextOut(ss[n].tunnels[id]) == NextOut(ss[m].tunnels[id]) + Handed(env, shared, ss, es, m, n, id)
    decreases n
  {
    hide After, Allowed, Served;
    if m < n {
      NextOutMoves(env, shared, ss, es, m, n - 1, id);
      assert Step(env, shared, ss[n - 1], es[n - 1], ss[n]);
      ServedWaits(env, shared, ss[n - 1], es[n - 1]);
      TunnelMoves(env, shared, ss[n - 1], es[n - 1], id);
    }
  }

  /**
   Requests are handed out in the order they were asked for, none left out and none twice: while a
   tunnel stands, the poll at j is handed the number of the one at i, plus one for every poll that
   was handed a request in between.
   */
  lemma RequestsInOrder(env: Env, shared: Token, ss: seq<State>, es: seq<Event>, i: nat, j: nat, id: Id, x: nat, y: nat)
    requires IsRun(env, shared, ss, es) && i < j < |es| && forall k | i <= k <= j :: id in ss[k].tunnels
    requires es[i].PollBy? && es[i].id == id && Served(env, shared, ss[i], es[i]) == Some(x)
    requires es[j].PollBy? && es[j].id == id && Served(env, shared, ss[j], es[j]) == Some(y)
    ensures y == x + Handed(env, shared, ss, es, i, j, id) && y > x
  {
    hide After, Allowed, Served;
    OrderHolds(env, shared, ss, es, i);
    OrderHolds(env, shared, ss, es, j);
    ServedWaits(env, shared, ss[i], es[i]);
    ServedWaits(env, shared, ss[j], es[j]);
    NextOutMoves(env, shared, ss, es, i, j, id);
    HandedAtLeast(env, shared, ss, es, i, j, id);
  }

  lemma {:induction false} HandedAtLeast(env: Env, shared: Token, ss: seq<State>, es: seq<Event>, i: nat, j: nat, id: Id)
    requires i < j <= |es| && |ss| == |es| + 1
    requires es[i].PollBy? && es[i].id == id && Served(env, shared, ss[i], es[i]).Some?
    ensures Handed(env, shared, ss, es, i, j, id) >= 1
    decreases j
  {
    hide Served;
    if i < j - 1 {
      HandedAtLeast(env, shared, ss, es, i, j - 1, id);
    } else {
      assert Handed(env, shared, ss, es, i, i, id) == 0;
    }
  }

  // ---- answers --------------------------------------------------------------------------------------

  lemma {:induction false} NotPendingAgain(env: Env, shared: Token, ss: seq<State>, es: seq<Event>, m: nat, n: nat, id: Id, req: nat)
    requires IsRun(env, shared, ss, es) && m <= n <= |es| && forall i | m <= i <= n :: id in ss[i].tunnels
    requires req !in ss[m].tunnels[id].pending && req < ss[m].tunnels[id].nextId
    ensures req !in ss[n].tunnels[id].pending && req < ss[n].tunnels[id].nextId
    decreases n
  {
    hide After, Allowed, Served, Taken;
    if m < n {
      NotPendingAgain(env, shared, ss, es, m, n - 1, id, req);
      assert Step(env, shared, ss[n - 1], es[n - 1], ss[n]);
      ServedWaits(env, shared, ss[n - 1], es[n - 1]);
      TunnelMoves(env, shared, ss[n - 1], es[n - 1], id);
    }
  }

  ghost predicate PendingBelow(s: State) {
    forall id, req | id in s.tunnels && req in s.tunnels[id].pending :: req < s.tunnels[id].nextId
  }

  lemma PendingKept(env: Env, shared: Token, s: State, e: Event)
    requires PendingBelow(s)
    ensures PendingBelow(After(env, shared, s, e))
  {
    hide After, Served, Taken;
    var s' := After(env, shared, s, e);
    ServedWaits(env, shared, s, e);
    forall id, req | id in s'.tunnels && req in s'.tunnels[id].pending ensures req < s'.tunnels[id].nextId {
      if id in s.tunnels {
        TunnelMoves(env, shared, s, e, id);
      } else {
        NewTunnelIdle(env, shared, s, e, id);
      }
    }
  }

  lemma NewTunnelIdle(env: Env, shared: Token, s: State, e: Event, id: Id)
    requires id !in s.tunnels && id in After(env, shared, s, e).tunnels
    ensures After(env, shared, s, e).tunnels[id].pending == {}
  {
    hide SecretHello, TokenHello, RelayOk, IsDeviceSecret;
    if e.HelloFrom? {
      SecretHelloMoves(env, s, e.h);
      SecretHelloQueue(env, s, e.h);
      TokenHelloMoves(env, s, e.h, e.luck);
      TokenHelloQueue(env, s, e.h, e.luck);
    }
  }

  lemma {:induction false} PendingHolds(env: Env, shared: Token, ss: seq<State>, es: seq<Event>, n: nat)
    requires IsRun(env, shared, ss, es) && n <= |es|
    ensures PendingBelow(ss[n])
  {
    hide After, Allowed;
    if n > 0 {
      PendingHolds(env, shared, ss, es, n - 1);
      assert Step(env, shared, ss[n - 1], es[n - 1], ss[n]);
      PendingKept(env, shared, ss[n - 1], es[n - 1]);
    }
  }

  /** While a tunnel stands, the answer to a request is taken once. */
  lemma AnsweredOnce(env: Env, shared: Token, ss: seq<State>, es: seq<Event>, i: nat, j: nat, id: Id, req: nat)
    requires IsRun(env, shared, ss, es) && i < j < |es| && forall k | i <= k <= j :: id in ss[k].tunnels
    requires Taken(env, shared, ss[i], es[i], id, req)
    ensures !Taken(env, shared, ss[j], es[j], id, req)
  {
    hide After, Allowed, Served, Taken;
    assert Step(env, shared, ss[i], es[i], ss[i + 1]);
    PendingHolds(env, shared, ss, es, i);
    ServedWaits(env, shared, ss[i], es[i]);
    TakenIsReply(env, shared, ss[i], es[i], id, req);
    TunnelMoves(env, shared, ss[i], es[i], id);
    NotPendingAgain(env, shared, ss, es, i + 1, j, id, req);
    ServedWaits(env, shared, ss[j], es[j]);
  }

  lemma TakenIsReply(env: Env, shared: Token, s: State, e: Event, id: Id, req: nat)
    requires Taken(env, shared, s, e, id, req)
    ensures e.ReplyBy?
  {
  }

  // ---- rotation ---------------------------------------------------------------------------------------

  lemma TokensMove(env: Env, shared: Token, s: State, e: Event, tok: Token)
    requires tok !in s.tokens && !((e.RotateTokens? || e.Enroll?) && e.drawn == tok)
    ensures tok !in After(env, shared, s, e).tokens
  {
    hide HelloEp, Poll, Reply, Request, RelayOk;
    if e.HelloFrom? {
      HelloMoves(env, s, shared, e.h, e.luck);
    } else if Traffic(e) {
      TrafficMoves(env, shared, s, e);
    }
  }

  /**
   A rotation is final: from then on no token the owner had enrolls, polls or answers, unless the very
   same string is drawn again.
   */
  lemma {:induction false} RotationIsFinal(env: Env, shared: Token, ss: seq<State>, es: seq<Event>, m: nat, n: nat, tok: Token)
    requires IsRun(env, shared, ss, es) && m < n <= |es| && es[m].RotateTokens? && tok in ss[m].tokens && ss[m].tokens[tok] == es[m].owner
    requires forall i | m < i < n && (es[i].RotateTokens? || es[i].Enroll?) :: es[i].drawn != tok
    ensures tok !in ss[n].tokens
    ensures forall id | tok != shared :: !RelayOk(env, ss[n], shared, id, tok)
  {
    hide After, Allowed, Inv;
    assert Step(env, shared, ss[n - 1], es[n - 1], ss[n]);
    if m < n - 1 {
      RotationIsFinal(env, shared, ss, es, m, n - 1, tok);
      TokensMove(env, shared, ss[n - 1], es[n - 1], tok);
    } else {
      RotatedGoes(env, shared, ss[m], es[m], tok);
    }
    InvHolds(env, shared, ss, es, m);
    TokenIsNoSecret(env, ss[m], tok);
    assert forall id | tok != shared :: !RelayOk(env, ss[n], shared, id, tok);
  }

  lemma RotatedGoes(env: Env, shared: Token, s: State, e: Event, tok: Token)
    requires e.RotateTokens? && Allowed(s, e) && tok in s.tokens && s.tokens[tok] == e.owner
    ensures tok !in After(env, shared, s, e).tokens
  {
  }

  lemma TokenIsNoSecret(env: Env, s: State, tok: Token)
    requires Inv(env, s) && tok in s.tokens
    ensures !IsDeviceSecret(tok)
  {
  }

  // ---- told exactly ----------------------------------------------------------------------------------

  /**
   A rotation replaces exactly the owner's tokens by the one drawn, drops exactly the tunnels bound to
   the hash of one of them, and touches nothing else.
   */
  lemma RotatedExactly(env: Env, shared: Token, s: State, e: Event, tok: Token, id: Id)
    requires e.RotateTokens? && Allowed(s, e)
    ensures var s' := After(env, shared, s, e);
            && (tok in s'.tokens <==> tok == e.drawn || (tok in s.tokens && s.tokens[tok] != e.owner))
            && (tok in s'.tokens ==> s'.tokens[tok] == if tok == e.drawn then e.owner else s.tokens[tok])
            && (id in s'.tunnels <==>
                  id in s.tunnels && !exists t :: t in s.tokens && s.tokens[t] == e.owner && s.tunnels[id].auth == if t == "" then "" else env.sha(t))
            && (id in s'.tunnels ==> s'.tunnels[id] == s.tunnels[id])
            && s' == s.(tokens := s'.tokens, tunnels := s'.tunnels)
  {
  }

  /** A revocation takes the secret and, if there was one, the tunnel; the secret of no other id. */
  lemma RevokedExactly(env: Env, shared: Token, s: State, id: Id, saves: bool)
    ensures After(env, shared, s, RevokeSecret(id, saves))
         == if id == "" || id !in s.secrets then s
            else s.(secrets := s.secrets - {id}, tunnels := s.tunnels - {id},
                    saved := if saves then s.secrets - {id} else s.saved)
  {
  }

  /** A credential opens an id: the shared token, an enrollment token of anyone, or the id's own device secret. */
  predicate Opens(env: Env, s: State, shared: Token, id: Id, tok: Token) {
    if |tok| >= 5 && tok[..5] == "hdev_" then id != "" && id in s.secrets && s.secrets[id].hash == env.sha(tok)
    else tok == shared || tok in s.tokens
  }

  /**
   A poll is handed the oldest request waiting exactly if its credential opens the id and is the one
   the tunnel is bound to; an answer is taken exactly if, besides, the request is still open.
   */
  lemma ServedExactly(env: Env, shared: Token, s: State, id: Id, tok: Token, req: nat)
    ensures var hash := if tok == "" then "" else env.sha(tok);
            var bound := Opens(env, s, shared, id, tok) && id in s.tunnels && s.tunnels[id].auth == hash;
            && Served(env, shared, s, PollBy(id, tok))
               == (if bound && |s.tunnels[id].queue| > 0 then Some(s.tunnels[id].queue[0]) else None)
            && (Taken(env, shared, s, ReplyBy(id, tok, req), id, req) <==> bound && req in s.tunnels[id].pending)
  {
    assert PREFIX == "hdev_";
  }
}
