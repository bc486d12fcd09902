/**
 Runs of the credential protocol: hellos with any token, mints that may fail, revocations, devices
 forgotten, token rotations, polls and restarts, one after another, on a hub whose shared token is
 set.
 */
module CredentialRuns {
  import opened Bytes
  import opened Credentials

  datatype Event =
    | HelloFrom(h: Hello, luck: Luck)
    | RevokeSecret(id: Id, saves: bool)
    | Forget(id: Id, saves: bool)   // a device removed or dissolved: its secret goes, its tunnel stays
    | RotateTokens(owner: Owner, drawn: Token)
    | Enroll(owner: Owner, drawn: Token)
    | PollBy(id: Id, tok: Token)
    | ReplyBy(id: Id, tok: Token, req: nat)
    | RequestTo(id: Id)
    | Retire(gone: set<Id>)         // rows dropped as removed, stale or duplicate, whenever that happens
    | Restart

  /** Random draws have their prefix; a new enrollment token is not one already given out. */
  predicate Allowed(s: State, e: Event) {
    match e
    case HelloFrom(_, luck) => luck.drawn.Some? ==> IsDeviceSecret(luck.drawn.value)
    case RotateTokens(_, drawn) => drawn != "" && !IsDeviceSecret(drawn) && drawn !in s.tokens
    case Enroll(_, drawn) => drawn != "" && !IsDeviceSecret(drawn) && drawn !in s.tokens
    case _ => true
  }

  function After(env: Env, shared: Token, s: State, e: Event): State {
    match e
    case HelloFrom(h, luck) => HelloEp(env, s, shared, h, luck).0
    case RevokeSecret(id, saves) => RevokeEp(s, id, saves)
    case Forget(id, saves) => RemoveSecret(s, id, saves)
    case RotateTokens(owner, drawn) => Rotate(env, s, owner, drawn)
    case Enroll(owner, drawn) => s.(tokens := s.tokens[drawn := owner])
    case PollBy(id, tok) => if RelayOk(env, s, shared, id, tok) then Poll(s, id, AuthHash(env, tok)).0 else s
    case ReplyBy(id, tok, req) => if RelayOk(env, s, shared, id, tok) then Reply(s, id, AuthHash(env, tok), req).0 else s
    case RequestTo(id) => Request(s, id)
    case Retire(gone) => s.(rows := s.rows - gone)
    case Restart => s.(secrets := s.saved, tunnels := map[])
  }

  ghost predicate Step(env: Env, shared: Token, s: State, e: Event, s': State) {
    Allowed(s, e) && s' == After(env, shared, s, e)
  }

  ghost predicate IsRun(env: Env, shared: Token, ss: seq<State>, es: seq<Event>) {
    |ss| == |es| + 1
    && ss[0] == State(map[], map[], map[], map[], map[], map[])
    && forall i | 0 <= i < |es| :: Step(env, shared, ss[i], es[i], ss[i + 1])
  }

  function AnswerTo(env: Env, shared: Token, s: State, e: Event): Answer
    requires e.HelloFrom?
  {
    HelloEp(env, s, shared, e.h, e.luck).1
  }

  // ---- what holds at any point --------------------------------------------------------------------

  predicate SecretBound(s: State, id: Id, auth: Hash) {
    id in s.secrets && s.secrets[id].hash == auth
  }

  ghost predicate TokenBound(env: Env, s: State, id: Id, auth: Hash) {
    id in s.overrides && exists tok :: tok in s.tokens && s.tokens[tok] == s.overrides[id] && AuthHash(env, tok) == auth
  }

  /** `auth` is the hash of a credential that is valid now and belongs to the id's owner. */
  ghost predicate Credential(env: Env, s: State, id: Id, auth: Hash) {
    id in s.overrides && (SecretBound(s, id, auth) || TokenBound(env, s, id, auth))
  }

  /** Secret, saved secret and row all name the recorded owner, and every tunnel's id has one. */
  ghost predicate OwnersAgree(s: State) {
    && (forall id | id in s.secrets :: id in s.overrides && s.secrets[id].owner == s.overrides[id])
    && (forall id | id in s.saved :: id in s.overrides && s.saved[id].owner == s.overrides[id])
    && (forall id | id in s.rows && s.rows[id].Some? :: id in s.overrides && s.rows[id].value == s.overrides[id])
    && (forall id | id in s.tunnels :: id in s.overrides)
  }

  ghost predicate HashOfSecret(env: Env, hash: Hash) {
    exists t :: IsDeviceSecret(t) && env.sha(t) == hash
  }

  ghost predicate OnDisk(s: State) {
    forall id | id in s.secrets :: id in s.saved && s.saved[id] == s.secrets[id]
  }

  ghost predicate Inv(env: Env, s: State) {
    && OwnersAgree(s)
    && OnDisk(s)
    && (forall id | id in s.saved :: HashOfSecret(env, s.saved[id].hash))
    && (forall tok | tok in s.tokens :: tok != "" && !IsDeviceSecret(tok))
  }

  // ---- what a hello does ----------------------------------------------------------------------------

  predicate Refused(a: Answer) {
    a.Rejected? || a.NeedsToken? || a.InUse? || a.Unauthorized?
  }

  /** A hello up to its mint has registered the id, under its token's owner; none but that owner had it. */
  lemma UpToMintMoves(env: Env, s: State, h: Hello)
    ensures var id := BodyId(h);
            match UpToMint(env, s, h)
            case Ended(s', a) =>
              if Refused(a) then s' == s
              else
                && a == Done && h.tok in s.tokens && h.body.Some? && !OwnedByOther(s, id, s.tokens[h.tok])
                && id in s'.tunnels && s'.tunnels[id].auth == AuthHash(env, h.tok)
                && s' == s.(tunnels := s.tunnels[id := s'.tunnels[id]],
                            rows := s.rows[id := Some(s.tokens[h.tok])], overrides := s.overrides[id := s.tokens[h.tok]])
            case AtMint(s', owner) =>
              && h.tok in s.tokens && owner == s.tokens[h.tok] && h.body == Some(h.id) && !OwnedByOther(s, id, owner)
              && id in s'.tunnels && s'.tunnels[id].auth == AuthHash(env, h.tok)
              && id in s'.rows && s' == s.(tunnels := s.tunnels[id := s'.tunnels[id]], rows := s.rows[id := s'.rows[id]])
  {
  }

  /**
   The mint of an enrollment never meets another owner's secret: what `hello_ep` checks before has
   excluded it, so its answer to `OtherOwner` is never given.
   */
  lemma MintMeetsNoOtherOwner(env: Env, s: State, h: Hello, luck: Luck)
    ensures match UpToMint(env, s, h)
            case AtMint(s1, owner) => Mint(env, s1, h.id, owner, luck.drawn, luck.saves, luck.now).1 != OtherOwner
            case Ended(_, _) => true
  {
    hide UpToMint;
    UpToMintMoves(env, s, h);
  }

  /** An enrollment's effect: all other tunnels stay, this one is bound to the token or the new secret. */
  lemma TokenHelloMoves(env: Env, s: State, h: Hello, luck: Luck)
    ensures var s', a, id := TokenHello(env, s, h, luck).0, TokenHello(env, s, h, luck).1, BodyId(h);
            if Refused(a) then s' == s
            else
              && h.tok in s.tokens && h.body.Some? && !OwnedByOther(s, id, s.tokens[h.tok])
              && id in s'.tunnels && (a.Issued? || a == Done)
              && s' == s.(tunnels := s.tunnels[id := s'.tunnels[id]], secrets := s'.secrets, saved := s'.saved,
                          rows := s.rows[id := Some(s.tokens[h.tok])], overrides := s.overrides[id := s.tokens[h.tok]])
              && (if a.Issued? then
                    id == h.id && luck.drawn == Some(a.secret) && s'.tunnels[id].auth == AuthHash(env, a.secret)
                    && s'.secrets == s.secrets[id := Entry(env.sha(a.secret), s.tokens[h.tok], luck.now)]
                    && s'.saved == s'.secrets
                  else
                    s'.tunnels[id].auth == AuthHash(env, h.tok) && s'.secrets == s.secrets && s'.saved == s.saved)
  {
    hide UpToMint, MintAndBind;
    UpToMintMoves(env, s, h);
    var e := UpToMint(env, s, h);
    if e.AtMint? {
      MintAndBindMoves(env, e.before, h, e.owner, luck);
    }
  }

  lemma MintAndBindMoves(env: Env, s: State, h: Hello, owner: Owner, luck: Luck)
    requires h.body == Some(h.id) && h.id in s.tunnels && h.id in s.rows && (h.id in s.secrets ==> s.secrets[h.id].owner == owner)
    ensures var (s', a), id := MintAndBind(env, s, h, owner, luck), h.id;
            && (a.Issued? || a == Done) && id in s'.tunnels
            && s' == s.(tunnels := s.tunnels[id := s'.tunnels[id]], secrets := s'.secrets, saved := s'.saved,
                        rows := s.rows[id := Some(owner)], overrides := s.overrides[id := owner])
            && (if a.Issued? then
                  luck.drawn == Some(a.secret) && s'.tunnels[id].auth == AuthHash(env, a.secret)
                  && s'.secrets == s.secrets[id := Entry(env.sha(a.secret), owner, luck.now)] && s'.saved == s'.secrets
                else
                  s'.tunnels[id].auth == s.tunnels[id].auth && s'.secrets == s.secrets && s'.saved == s.saved)
  {
  }

  lemma SecretHelloMoves(env: Env, s: State, h: Hello)
    ensures var s', a, id := SecretHello(env, s, h).0, SecretHello(env, s, h).1, BodyId(h);
            if Refused(a) then s' == s
            else
              && a == Done && Verify(env, s, id, h.tok).Some? && id == h.id && h.body == Some(id)
              && id in s'.tunnels && s'.tunnels[id].auth == s.secrets[id].hash
              && s' == s.(tunnels := s.tunnels[id := s'.tunnels[id]],
                          rows := s.rows[id := Some(s.secrets[id].owner)], overrides := s.overrides[id := s.secrets[id].owner])
  {
  }

  /** A hello touches nothing but the id it registers, and secrets only if it issues one. */
  lemma HelloMoves(env: Env, s: State, shared: Token, h: Hello, luck: Luck)
    ensures var (s', a), id := HelloEp(env, s, shared, h, luck), BodyId(h);
            && s'.tokens == s.tokens
            && (Refused(a) ==> s' == s)
            && (!a.Issued? ==> s'.secrets == s.secrets && s'.saved == s.saved)
            && (a.Issued? ==> id == h.id && id in s'.secrets && s'.secrets == s.secrets[id := s'.secrets[id]] && s'.saved == s'.secrets)
            && (!Refused(a) ==>
                  && h.body == Some(id) && id in s'.tunnels && s'.tunnels == s.tunnels[id := s'.tunnels[id]]
                  && id in s'.overrides && s'.overrides == s.overrides[id := s'.overrides[id]])
  {
    hide SecretHello, TokenHello, RelayOk, IsDeviceSecret;
    SecretHelloMoves(env, s, h);
    TokenHelloMoves(env, s, h, luck);
  }

  /** A hello that is refused, for whatever reason, changes nothing at all. */
  lemma RefusedHelloChangesNothing(env: Env, s: State, shared: Token, h: Hello, luck: Luck)
    requires Refused(HelloEp(env, s, shared, h, luck).1)
    ensures HelloEp(env, s, shared, h, luck).0 == s
  {
    hide HelloEp;
    HelloMoves(env, s, shared, h, luck);
  }

  /** The owner behind the token a hello presents. */
  function Presented(env: Env, s: State, h: Hello): Option<Owner> {
    if IsDeviceSecret(h.tok) then Verify(env, s, h.id, h.tok) else Lookup(s.tokens, h.tok)
  }

  /** An accepted hello registers the id it names, under the owner of its credential and no one else. */
  lemma AcceptedHello(env: Env, s: State, shared: Token, h: Hello, luck: Luck)
    requires Inv(env, s) && !Refused(HelloEp(env, s, shared, h, luck).1)
    ensures var s', o := HelloEp(env, s, shared, h, luck).0, Presented(env, s, h);
            && o.Some? && h.body.Some? && BodyId(h) in s'.tunnels
            && BodyId(h) in s'.overrides && s'.overrides[BodyId(h)] == o.value
            && (BodyId(h) in s.overrides ==> s.overrides[BodyId(h)] == o.value)
  {
    hide SecretHello, TokenHello, RelayOk, IsDeviceSecret;
    SecretHelloMoves(env, s, h);
    TokenHelloMoves(env, s, h, luck);
  }

  // ---- every step keeps the invariant --------------------------------------------------------------

  lemma SecretHelloKeeps(env: Env, s: State, h: Hello)
    requires Inv(env, s)
    ensures Inv(env, SecretHello(env, s, h).0)
  {
    hide SecretHello, IsDeviceSecret, HashOfSecret;
    SecretHelloMoves(env, s, h);
  }

  lemma TokenHelloKeeps(env: Env, s: State, h: Hello, luck: Luck)
    requires Inv(env, s) && Allowed(s, HelloFrom(h, luck))
    ensures Inv(env, TokenHello(env, s, h, luck).0)
  {
    hide TokenHello, IsDeviceSecret, HashOfSecret;
    TokenHelloMoves(env, s, h, luck);
    if TokenHello(env, s, h, luck).1.Issued? {
      IssuedIsHash(env, TokenHello(env, s, h, luck).1.secret);
    }
  }

  lemma IssuedIsHash(env: Env, secret: Token)
    requires IsDeviceSecret(secret)
    ensures HashOfSecret(env, env.sha(secret))
  {
  }

  lemma HelloKeeps(env: Env, shared: Token, s: State, h: Hello, luck: Luck)
    requires Inv(env, s) && Allowed(s, HelloFrom(h, luck))
    ensures Inv(env, HelloEp(env, s, shared, h, luck).0)
  {
    hide Inv, SecretHello, TokenHello, RelayOk;
    if IsDeviceSecret(h.tok) {
      SecretHelloKeeps(env, s, h);
    } else {
      TokenHelloKeeps(env, s, h, luck);
    }
  }

  predicate Traffic(e: Event) {
    e.PollBy? || e.ReplyBy? || e.RequestTo?
  }

  ghost predicate QueueMoved(s: State, s': State) {
    s' == s.(tunnels := s'.tunnels) && s'.tunnels.Keys == s.tunnels.Keys
    && forall i | i in s.tunnels :: s'.tunnels[i].auth == s.tunnels[i].auth
  }

  lemma RotateMoves(env: Env, s: State, owner: Owner, drawn: Token)
    ensures var s' := Rotate(env, s, owner, drawn); s' == s.(tokens := s'.tokens, tunnels := s'.tunnels)
  {
  }

  /** Polls, replies and requests move only queues: no binding, owner or credential. */
  lemma TrafficMoves(env: Env, shared: Token, s: State, e: Event)
    requires Traffic(e)
    ensures QueueMoved(s, After(env, shared, s, e))
  {
    hide RelayOk, Poll, Reply, Request;
    match e {
      case PollBy(id, tok) => PollMoves(s, id, AuthHash(env, tok));
      case ReplyBy(id, tok, req) => ReplyMoves(s, id, AuthHash(env, tok), req);
      case RequestTo(id) => RequestMoves(s, id);
    }
  }

  lemma PollMoves(s: State, id: Id, auth: Hash)
    ensures QueueMoved(s, Poll(s, id, auth).0)
  {
  }

  lemma ReplyMoves(s: State, id: Id, auth: Hash, req: nat)
    ensures QueueMoved(s, Reply(s, id, auth, req).0)
  {
  }

  lemma RequestMoves(s: State, id: Id)
    ensures QueueMoved(s, Request(s, id))
  {
  }

  lemma TrafficKeeps(env: Env, shared: Token, s: State, e: Event)
    requires Inv(env, s) && Traffic(e)
    ensures Inv(env, After(env, shared, s, e))
  {
    hide After, IsDeviceSecret, HashOfSecret;
    TrafficMoves(env, shared, s, e);
  }

  lemma OtherStepKeeps(env: Env, shared: Token, s: State, e: Event)
    requires Inv(env, s) && Allowed(s, e) && !e.HelloFrom? && !Traffic(e)
    ensures Inv(env, After(env, shared, s, e))
  {
    hide HelloEp, Poll, Reply, Request, IsDeviceSecret, HashOfSecret;
  }

  lemma StepKeeps(env: Env, shared: Token, s: State, e: Event)
    requires Inv(env, s) && Allowed(s, e)
    ensures Inv(env, After(env, shared, s, e))
  {
    hide Inv, HelloEp, Rotate;
    if e.HelloFrom? {
      HelloKeeps(env, shared, s, e.h, e.luck);
    } else if Traffic(e) {
      TrafficKeeps(env, shared, s, e);
    } else {
      OtherStepKeeps(env, shared, s, e);
    }
  }

  lemma InitInv(env: Env, s: State)
    requires s == State(map[], map[], map[], map[], map[], map[])
    ensures Inv(env, s)
  {
  }

  lemma {:induction false} InvHolds(env: Env, shared: Token, ss: seq<State>, es: seq<Event>, n: nat)
    requires IsRun(env, shared, ss, es) && n <= |es|
    ensures Inv(env, ss[n])
  {
    hide Allowed, After, Inv;
    if n == 0 {
      InitInv(env, ss[0]);
    } else {
      InvHolds(env, shared, ss, es, n - 1);
      assert Step(env, shared, ss[n - 1], es[n - 1], ss[n]);
      StepKeeps(env, shared, ss[n - 1], es[n - 1]);
    }
  }

  /** Every secret in memory is on disk, in every run: a save may fail, but then nothing was added. */
  lemma SecretsOnDisk(env: Env, shared: Token, ss: seq<State>, es: seq<Event>, n: nat, id: Id)
    requires IsRun(env, shared, ss, es) && n <= |es| && id in ss[n].secrets
    ensures id in ss[n].saved && ss[n].saved[id] == ss[n].secrets[id]
  {
    InvHolds(env, shared, ss, es, n);
  }

  // ---- owners ----------------------------------------------------------------------------------------

  lemma OwnerKept(env: Env, shared: Token, s: State, e: Event, id: Id)
    requires Inv(env, s) && id in s.overrides
    ensures var s' := After(env, shared, s, e); id in s'.overrides && s'.overrides[id] == s.overrides[id]
  {
    hide SecretHello, TokenHello, RelayOk, IsDeviceSecret;
    if e.HelloFrom? {
      SecretHelloMoves(env, s, e.h);
      TokenHelloMoves(env, s, e.h, e.luck);
    }
  }

  /** An owned id never changes owner. */
  lemma {:induction false} OwnedForGood(env: Env, shared: Token, ss: seq<State>, es: seq<Event>, m: nat, n: nat, id: Id)
    requires IsRun(env, shared, ss, es) && m <= n <= |es| && id in ss[m].overrides
    ensures id in ss[n].overrides && ss[n].overrides[id] == ss[m].overrides[id]
  {
    hide After, Inv, Allowed;
    if m < n {
      OwnedForGood(env, shared, ss, es, m, n - 1, id);
      InvHolds(env, shared, ss, es, n - 1);
      assert Step(env, shared, ss[n - 1], es[n - 1], ss[n]);
      OwnerKept(env, shared, ss[n - 1], es[n - 1], id);
    }
  }

  // ---- what a tunnel is bound to ---------------------------------------------------------------------

  /** A hello the hub took registers or re-binds this id's tunnel. */
  predicate Binds(env: Env, shared: Token, s: State, e: Event, id: Id) {
    e.HelloFrom? && e.h.body == Some(id) && !Refused(AnswerTo(env, shared, s, e))
  }

  /** The device is forgotten while its tunnel is bound to its secret. */
  predicate Strands(s: State, e: Event, id: Id) {
    e.Forget? && e.id == id && id in s.tunnels && SecretBound(s, id, s.tunnels[id].auth)
  }

  /** At `m` the device was forgotten under its tunnel, which was neither dropped nor bound again up to `n`. */
  ghost predicate StrandedAt(env: Env, shared: Token, ss: seq<State>, es: seq<Event>, m: nat, n: nat, id: Id)
    requires |ss| == |es| + 1 && m < n <= |es|
  {
    Strands(ss[m], es[m], id)
    && (forall i | m <= i <= n :: id in ss[i].tunnels)
    && (forall i | m <= i < n :: !Binds(env, shared, ss[i], es[i], id))
  }

  ghost predicate Stranded(env: Env, shared: Token, ss: seq<State>, es: seq<Event>, n: nat, id: Id)
    requires |ss| == |es| + 1 && n <= |es|
  {
    exists m: nat | m < n :: StrandedAt(env, shared, ss, es, m, n, id)
  }

  lemma BindingIsCredential(env: Env, shared: Token, s: State, e: Event, id: Id)
    requires Inv(env, s) && Allowed(s, e) && Binds(env, shared, s, e, id)
    ensures var s' := After(env, shared, s, e); id in s'.tunnels && Credential(env, s', id, s'.tunnels[id].auth)
  {
    hide SecretHello, TokenHello, RelayOk;
    SecretHelloMoves(env, s, e.h);
    TokenHelloMoves(env, s, e.h, e.luck);
    var s' := After(env, shared, s, e);
    if !IsDeviceSecret(e.h.tok) && !AnswerTo(env, shared, s, e).Issued? {
      assert e.h.tok in s'.tokens;
    }
  }

  /** Without a hello for the id, its tunnel stays or goes, and what it is bound to stays the same. */
  lemma UnboundMoves(env: Env, shared: Token, s: State, e: Event, id: Id)
    requires Inv(env, s) && !Binds(env, shared, s, e, id)
    ensures var s' := After(env, shared, s, e);
            id in s'.tunnels ==>
              && id in s.tunnels && s'.tunnels[id].auth == s.tunnels[id].auth && !e.Restart?
              && (id in s'.secrets <==> id in s.secrets && !(e.Forget? && e.id == id))
              && (id in s'.secrets ==> s'.secrets[id] == s.secrets[id])
  {
    hide HelloEp, Poll, Reply, Request, RelayOk, Inv;
    if e.HelloFrom? {
      HelloMoves(env, s, shared, e.h, e.luck);
    } else if Traffic(e) {
      TrafficMoves(env, shared, s, e);
    }
  }

  /** Nor does a binding to a token of the owner break: when the token goes, the tunnel goes with it. */
  lemma TokenBindingKept(env: Env, shared: Token, s: State, e: Event, id: Id)
    requires Inv(env, s) && Allowed(s, e) && id in s.tunnels && TokenBound(env, s, id, s.tunnels[id].auth)
    requires id in After(env, shared, s, e).tunnels
    ensures TokenBound(env, After(env, shared, s, e), id, s.tunnels[id].auth)
  {
    hide After, Allowed, Inv, AuthHash;
    OwnerKept(env, shared, s, e, id);
    var tok :| tok in s.tokens && s.tokens[tok] == s.overrides[id] && AuthHash(env, tok) == s.tunnels[id].auth;
    TokenKept(env, shared, s, e, id, tok);
  }

  lemma TokenKept(env: Env, shared: Token, s: State, e: Event, id: Id, tok: Token)
    requires Allowed(s, e) && id in s.tunnels && tok in s.tokens && AuthHash(env, tok) == s.tunnels[id].auth
    requires id in After(env, shared, s, e).tunnels
    ensures var s' := After(env, shared, s, e); tok in s'.tokens && s'.tokens[tok] == s.tokens[tok]
  {
    hide HelloEp, Poll, Reply, Request, RelayOk, IsDeviceSecret;
    if e.HelloFrom? {
      HelloMoves(env, s, shared, e.h, e.luck);
    } else if Traffic(e) {
      TrafficMoves(env, shared, s, e);
    }
  }

  /** Each tunnel is bound to a valid credential of the id's owner, unless its device was forgotten under it. */
  lemma {:induction false} BoundOrStranded(env: Env, shared: Token, ss: seq<State>, es: seq<Event>, n: nat, id: Id)
    requires IsRun(env, shared, ss, es) && n <= |es| && id in ss[n].tunnels
    ensures Credential(env, ss[n], id, ss[n].tunnels[id].auth) || Stranded(env, shared, ss, es, n, id)
  {
    hide After, Inv, Allowed, Credential, Binds, TokenBound;
    assert n > 0;
    var s, e, s' := ss[n - 1], es[n - 1], ss[n];
    InvHolds(env, shared, ss, es, n - 1);
    assert Step(env, shared, s, e, s');
    if Binds(env, shared, s, e, id) {
      BindingIsCredential(env, shared, s, e, id);
    } else {
      UnboundMoves(env, shared, s, e, id);
      BoundOrStranded(env, shared, ss, es, n - 1, id);
      if Stranded(env, shared, ss, es, n - 1, id) {
        var m: nat :| m < n - 1 && StrandedAt(env, shared, ss, es, m, n - 1, id);
        assert StrandedAt(env, shared, ss, es, m, n, id);
      } else {
        CredentialMoves(env, shared, s, e, id);
        if !Credential(env, s', id, s'.tunnels[id].auth) {
          assert StrandedAt(env, shared, ss, es, n - 1, n, id);
        }
      }
    }
  }

  lemma CredentialMoves(env: Env, shared: Token, s: State, e: Event, id: Id)
    requires Inv(env, s) && Allowed(s, e) && !Binds(env, shared, s, e, id)
    requires id in s.tunnels && id in After(env, shared, s, e).tunnels && Credential(env, s, id, s.tunnels[id].auth)
    ensures Credential(env, After(env, shared, s, e), id, s.tunnels[id].auth) || Strands(s, e, id)
  {
    hide After, Inv, Allowed, Binds, TokenBound;
    UnboundMoves(env, shared, s, e, id);
    OwnerKept(env, shared, s, e, id);
    if TokenBound(env, s, id, s.tunnels[id].auth) {
      TokenBindingKept(env, shared, s, e, id);
    }
  }

  /** A stranded tunnel keeps the hash of the deleted secret, and the id has no secret. */
  lemma {:induction false} StrandedStays(env: Env, shared: Token, ss: seq<State>, es: seq<Event>, m: nat, n: nat, id: Id)
    requires IsRun(env, shared, ss, es) && m < n <= |es| && StrandedAt(env, shared, ss, es, m, n, id)
    ensures id !in ss[n].secrets && id in ss[n].tunnels && ss[n].tunnels[id].auth == ss[m].secrets[id].hash
  {
    hide After, Inv, Allowed, Binds;
    var s, e := ss[n - 1], es[n - 1];
    InvHolds(env, shared, ss, es, n - 1);
    assert Step(env, shared, s, e, ss[n]);
    UnboundMoves(env, shared, s, e, id);
    if m < n - 1 {
      StrandedStays(env, shared, ss, es, m, n - 1, id);
    }
  }

  /**
   At every point of every run, each tunnel is bound to the hash of a credential valid now and of
   the id's own owner, with one exception, and exactly that one: its device was forgotten while the
   tunnel was bound to its secret, and the tunnel has not been dropped or bound again since. (A
   stranded hash is no credential unless it is, by a collision, also that of a token of the owner.)
   Whatever names an owner for an id names the same one.
   */
  lemma CredentialsAndOwners(env: Env, shared: Token, ss: seq<State>, es: seq<Event>, n: nat)
    requires IsRun(env, shared, ss, es) && n <= |es|
    ensures forall id | id in ss[n].tunnels ::
              var auth := ss[n].tunnels[id].auth;
              Credential(env, ss[n], id, auth) <==> TokenBound(env, ss[n], id, auth) || !Stranded(env, shared, ss, es, n, id)
    ensures OwnersAgree(ss[n])
  {
    InvHolds(env, shared, ss, es, n);
    forall id | id in ss[n].tunnels
      ensures var auth := ss[n].tunnels[id].auth;
              Credential(env, ss[n], id, auth) <==> TokenBound(env, ss[n], id, auth) || !Stranded(env, shared, ss, es, n, id)
    {
      BoundOrStranded(env, shared, ss, es, n, id);
      if Stranded(env, shared, ss, es, n, id) {
        var m: nat :| m < n && StrandedAt(env, shared, ss, es, m, n, id);
        StrandedStays(env, shared, ss, es, m, n, id);
      }
    }
  }

  /** No enrollment token hashes to what this device's secret did. */
  ghost predicate NoTokenLike(env: Env, ss: seq<State>, m: nat, n: nat, hash: Hash)
    requires n < |ss|
  {
    forall i, tok | m <= i <= n && tok in ss[i].tokens :: AuthHash(env, tok) != hash
  }

  lemma HelloLockedOut(env: Env, s: State, shared: Token, h: Hello, luck: Luck, id: Id)
    requires id in s.tunnels && id !in s.secrets && h.body == Some(id)
    requires forall tok | tok in s.tokens :: AuthHash(env, tok) != s.tunnels[id].auth
    ensures Refused(HelloEp(env, s, shared, h, luck).1)
  {
    hide SecretHello, MintAndBind, RelayOk, IsDeviceSecret;
    SecretHelloMoves(env, s, h);
  }

  lemma LockedOutStep(env: Env, shared: Token, s: State, e: Event, id: Id)
    requires Inv(env, s) && id in s.tunnels && id !in s.secrets && !e.Restart?
    requires forall tok | tok in s.tokens :: AuthHash(env, tok) != s.tunnels[id].auth
    ensures !Binds(env, shared, s, e, id) && id in After(env, shared, s, e).tunnels
  {
    hide HelloEp, Poll, Reply, Request, RelayOk, Inv;
    if e.HelloFrom? {
      if e.h.body == Some(id) { HelloLockedOut(env, s, shared, e.h, e.luck, id); }
      HelloMoves(env, s, shared, e.h, e.luck);
    } else if Traffic(e) {
      TrafficMoves(env, shared, s, e);
    }
  }

  /**
   A device forgotten under its tunnel is locked out until the hub restarts: every hello for its id,
   its owner's included, is refused as a takeover, and the tunnel stays bound to the deleted secret.
   */
  lemma {:induction false} ForgottenIsLockedOut(env: Env, shared: Token, ss: seq<State>, es: seq<Event>, m: nat, n: nat, id: Id)
    requires IsRun(env, shared, ss, es) && m < n <= |es| && Strands(ss[m], es[m], id)
    requires forall i | m <= i < n :: !es[i].Restart?
    requires NoTokenLike(env, ss, m, n, ss[m].secrets[id].hash)
    ensures StrandedAt(env, shared, ss, es, m, n, id)
    ensures n < |es| && es[n].HelloFrom? && es[n].h.body == Some(id) ==> Refused(AnswerTo(env, shared, ss[n], es[n]))
  {
    hide After, Inv, Allowed, Binds;
    var s, e := ss[n - 1], es[n - 1];
    assert Step(env, shared, s, e, ss[n]);
    if m < n - 1 {
      ForgottenIsLockedOut(env, shared, ss, es, m, n - 1, id);
      StrandedStays(env, shared, ss, es, m, n - 1, id);
      InvHolds(env, shared, ss, es, n - 1);
      LockedOutStep(env, shared, s, e, id);
    } else {
      assert !Binds(env, shared, s, e, id) by { ForgetBindsNothing(env, shared, s, e, id); }
      ForgetKeepsTunnels(env, shared, s, e, id);
    }
    assert StrandedAt(env, shared, ss, es, m, n, id);
    StrandedStays(env, shared, ss, es, m, n, id);
    InvHolds(env, shared, ss, es, n);
    if n < |es| && es[n].HelloFrom? && es[n].h.body == Some(id) {
      LockedOutStep(env, shared, ss[n], es[n], id);
      RefusedUnlessBinds(env, shared, ss[n], es[n], id);
    }
  }

  lemma ForgetBindsNothing(env: Env, shared: Token, s: State, e: Event, id: Id)
    requires e.Forget?
    ensures !Binds(env, shared, s, e, id)
  {
  }

  lemma ForgetKeepsTunnels(env: Env, shared: Token, s: State, e: Event, id: Id)
    requires Strands(s, e, id)
    ensures id in After(env, shared, s, e).tunnels
  {
  }

  lemma RefusedUnlessBinds(env: Env, shared: Token, s: State, e: Event, id: Id)
    requires e.HelloFrom? && e.h.body == Some(id) && !Binds(env, shared, s, e, id)
    ensures Refused(AnswerTo(env, shared, s, e))
  {
  }

  /** Two different strings with one hash. */
  ghost predicate Collides(env: Env, tok: Token) {
    !IsDeviceSecret(tok) && HashOfSecret(env, AuthHash(env, tok))
  }

  lemma PollServes(env: Env, shared: Token, s: State, e: Event, id: Id)
    requires (e.PollBy? || e.ReplyBy?) && id in s.tunnels
    requires var s' := After(env, shared, s, e); id in s'.tunnels && s'.tunnels[id] != s.tunnels[id]
    ensures e.id == id && s.tunnels[id].auth == AuthHash(env, e.tok) && RelayOk(env, s, shared, id, e.tok)
  {
    hide RelayOk;
  }

  /**
   Requests leave a device's queue, and its answers are taken, only for a credential of its owner:
   a forgotten device's secret still matches its tunnel, but no longer passes the gate.
   */
  lemma PollsAreTheOwners(env: Env, shared: Token, ss: seq<State>, es: seq<Event>, n: nat, id: Id)
    requires IsRun(env, shared, ss, es) && n < |es| && (es[n].PollBy? || es[n].ReplyBy?)
    requires id in ss[n].tunnels && id in ss[n + 1].tunnels && ss[n + 1].tunnels[id] != ss[n].tunnels[id]
    ensures es[n].id == id && (Credential(env, ss[n], id, AuthHash(env, es[n].tok)) || Collides(env, es[n].tok))
  {
    hide After, Inv, Allowed, TokenBound, Binds;
    assert Step(env, shared, ss[n], es[n], ss[n + 1]);
    PollServes(env, shared, ss[n], es[n], id);
    BoundOrStranded(env, shared, ss, es, n, id);
    if Stranded(env, shared, ss, es, n, id) {
      var m: nat :| m < n && StrandedAt(env, shared, ss, es, m, n, id);
      StrandedStays(env, shared, ss, es, m, n, id);
      InvHolds(env, shared, ss, es, m);
      StoredIsHash(env, ss[m], id);
    }
  }

  lemma StoredIsHash(env: Env, s: State, id: Id)
    requires Inv(env, s) && id in s.secrets
    ensures HashOfSecret(env, s.secrets[id].hash)
  {
  }

  // ---- revocations and restarts ------------------------------------------------------------------------

  /** The step deletes the id's secret: a revocation, or the device forgotten. */
  predicate Deletes(s: State, e: Event, id: Id) {
    ((e.RevokeSecret? && id != "") || e.Forget?) && e.id == id && id in s.secrets
  }

  predicate Issues(env: Env, shared: Token, s: State, e: Event, id: Id) {
    e.HelloFrom? && e.h.id == id && AnswerTo(env, shared, s, e).Issued?
  }

  /** The step saves the secrets, whosever it was about: a deletion whose save works, or an issue. */
  predicate Saves(env: Env, shared: Token, s: State, e: Event) {
    || (e.RevokeSecret? && e.saves && e.id != "" && e.id in s.secrets)
    || (e.Forget? && e.saves && e.id in s.secrets)
    || (e.HelloFrom? && AnswerTo(env, shared, s, e).Issued?)
  }

  /** Memory and disk hold the same right after a save, and the disk moves at no other time. */
  lemma SavedMoves(env: Env, shared: Token, s: State, e: Event)
    ensures var s' := After(env, shared, s, e); s'.saved == if Saves(env, shared, s, e) then s'.secrets else s.saved
  {
    hide HelloEp, Poll, Reply, Request, RelayOk, Rotate;
    if e.HelloFrom? {
      HelloMoves(env, s, shared, e.h, e.luck);
    } else if Traffic(e) {
      TrafficMoves(env, shared, s, e);
    } else if e.RotateTokens? {
      RotateMoves(env, s, e.owner, e.drawn);
    }
  }

  /** How a step moves the id's secret in memory. */
  lemma SecretMoves(env: Env, shared: Token, s: State, e: Event, id: Id)
    ensures var s' := After(env, shared, s, e);
            && (e.Restart? ==> s'.secrets == s.saved)
            && (Deletes(s, e, id) ==> id !in s'.secrets)
            && (!e.Restart? && !Deletes(s, e, id) && !Issues(env, shared, s, e, id) ==>
                  && (id in s'.secrets <==> id in s.secrets)
                  && (id in s.secrets ==> s'.secrets[id] == s.secrets[id]))
  {
    hide HelloEp, Poll, Reply, Request, RelayOk, Rotate;
    if e.HelloFrom? {
      HelloMoves(env, s, shared, e.h, e.luck);
    } else if Traffic(e) {
      TrafficMoves(env, shared, s, e);
    } else if e.RotateTokens? {
      RotateMoves(env, s, e.owner, e.drawn);
    }
  }

  ghost predicate Unsaved(env: Env, shared: Token, ss: seq<State>, es: seq<Event>, m: nat, n: nat)
    requires |ss| == |es| + 1 && n <= |es|
  {
    forall i | m <= i < n :: !Saves(env, shared, ss[i], es[i])
  }

  /** A restart before anything was saved since `m`. */
  ghost predicate RestartedUnsaved(env: Env, shared: Token, ss: seq<State>, es: seq<Event>, m: nat, n: nat)
    requires |ss| == |es| + 1 && n <= |es|
  {
    exists r: nat | m < r < n :: es[r].Restart? && Unsaved(env, shared, ss, es, m, r)
  }

  /**
   Exactly when a deleted secret comes back, in every run: the hub restarted before the secrets were
   saved again, by the deletion itself or by any later deletion or issue, of whichever id. Until then
   it is gone from memory, and it stays on disk exactly as long as nothing is saved; what comes back
   is the entry that was deleted. (`m` is the last deletion, and no secret is issued for the id since.)
   */
  lemma {:induction false} DeletionUndoneExactly(env: Env, shared: Token, ss: seq<State>, es: seq<Event>, m: nat, n: nat, id: Id)
    requires IsRun(env, shared, ss, es) && m < n <= |es| && Deletes(ss[m], es[m], id)
    requires forall i | m < i < n :: !Deletes(ss[i], es[i], id) && !Issues(env, shared, ss[i], es[i], id)
    ensures id in ss[n].secrets <==> RestartedUnsaved(env, shared, ss, es, m, n)
    ensures id in ss[n].saved <==> Unsaved(env, shared, ss, es, m, n) || RestartedUnsaved(env, shared, ss, es, m, n)
    ensures id in ss[n].secrets ==> ss[n].secrets[id] == ss[m].secrets[id]
    ensures id in ss[n].saved ==> ss[n].saved[id] == ss[m].secrets[id]
  {
    hide After, Inv, Allowed, Saves, Deletes, Issues;
    var s, e := ss[n - 1], es[n - 1];
    assert Step(env, shared, s, e, ss[n]);
    SavedMoves(env, shared, s, e);
    SecretMoves(env, shared, s, e, id);
    UnsavedExtends(env, shared, ss, es, m, n);
    if m < n - 1 {
      DeletionUndoneExactly(env, shared, ss, es, m, n - 1, id);
    } else {
      DeletedWasPresent(ss[m], es[m], id);
      SecretsOnDisk(env, shared, ss, es, m, id);
    }
  }

  lemma DeletedWasPresent(s: State, e: Event, id: Id)
    requires Deletes(s, e, id)
    ensures id in s.secrets && !e.Restart?
  {
  }

  lemma UnsavedExtends(env: Env, shared: Token, ss: seq<State>, es: seq<Event>, m: nat, n: nat)
    requires |ss| == |es| + 1 && m < n <= |es|
    ensures Unsaved(env, shared, ss, es, m, n) <==> Unsaved(env, shared, ss, es, m, n - 1) && !Saves(env, shared, ss[n - 1], es[n - 1])
    ensures RestartedUnsaved(env, shared, ss, es, m, n) <==>
              || RestartedUnsaved(env, shared, ss, es, m, n - 1)
              || (m < n - 1 && es[n - 1].Restart? && Unsaved(env, shared, ss, es, m, n - 1))
  {
    hide Saves, Unsaved;
    UnsavedGrows(env, shared, ss, es, m, n);
    if r: nat :| m < r < n && es[r].Restart? && Unsaved(env, shared, ss, es, m, r) {
      assert r < n - 1 || r == n - 1;
    }
  }

  lemma UnsavedGrows(env: Env, shared: Token, ss: seq<State>, es: seq<Event>, m: nat, n: nat)
    requires |ss| == |es| + 1 && m < n <= |es|
    ensures Unsaved(env, shared, ss, es, m, n) <==> Unsaved(env, shared, ss, es, m, n - 1) && !Saves(env, shared, ss[n - 1], es[n - 1])
  {
  }

  /**
   Between a deletion and the next restart or issue for the id, the secret is gone from memory, and
   from disk exactly if some save has worked since, the deletion's own or another's.
   */
  lemma {:induction false} RevocationStands(env: Env, shared: Token, ss: seq<State>, es: seq<Event>, m: nat, n: nat, id: Id)
    requires IsRun(env, shared, ss, es) && m < n <= |es| && Deletes(ss[m], es[m], id)
    requires forall i | m < i < n :: !es[i].Restart? && !Issues(env, shared, ss[i], es[i], id)
    ensures forall i | m < i <= n :: id !in ss[i].secrets
    ensures id in ss[n].saved <==> Unsaved(env, shared, ss, es, m, n)
  {
    hide After, Inv, Allowed, Saves, Issues;
    if m < n - 1 {
      RevocationStands(env, shared, ss, es, m, n - 1, id);
    }
    DeletionUndoneExactly(env, shared, ss, es, m, n, id);
  }

  /** So the first restart after a deletion makes the secret verify again exactly if nothing was saved in between. */
  lemma UnsavedRevocationReturns(env: Env, shared: Token, ss: seq<State>, es: seq<Event>, m: nat, n: nat, id: Id, secret: Token)
    requires IsRun(env, shared, ss, es) && m < n < |es| && Deletes(ss[m], es[m], id) && es[n].Restart?
    requires forall i | m < i < n :: !es[i].Restart? && !Issues(env, shared, ss[i], es[i], id)
    ensures Verify(env, ss[n], id, secret).None?
    ensures Verify(env, ss[n + 1], id, secret) == if Unsaved(env, shared, ss, es, m, n) then Verify(env, ss[m], id, secret) else None
  {
    hide Inv, Allowed, Saves, Issues, IsDeviceSecret;
    RevocationStands(env, shared, ss, es, m, n, id);
    DeletionUndoneExactly(env, shared, ss, es, m, n, id);
    assert Step(env, shared, ss[n], es[n], ss[n + 1]);
  }
}
