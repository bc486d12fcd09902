/**
 devicesecrets.rs and the tunnel registry of relay.rs: enrollment tokens, device secrets, the
 tunnels bound to them, and who owns which relay id. Every operation is given as a function of the
 whole state and as a method that updates the fields one after another.
 */
module Credentials {
  import opened Bytes

  type Id = string
  type Token = string
  type Owner = string
  type Hash = string

  const PREFIX := "hdev_"

  /** SHA-256 in hex, and how an owner reported by a device is normalised; both opaque here. */
  datatype Env = Env(sha: Token -> Hash, canon: Owner -> Owner)

  /** A stored device secret: only its hash. */
  datatype Entry = Entry(hash: Hash, owner: Owner, issued: nat)

  /** A connected device: what its callers must hash to, and the requests waiting for it. */
  datatype Tunnel = Tunnel(auth: Hash, queue: seq<nat>, pending: set<nat>, nextId: nat)

  /**
   `secrets` in memory and `saved` on disk; `tunnels` in memory only; `overrides` the persisted
   owners, `rows` the owner each listed device shows; `tokens` the enrollment tokens.
   */
  datatype State = State(
    secrets: map<Id, Entry>,
    saved: map<Id, Entry>,
    tunnels: map<Id, Tunnel>,
    overrides: map<Id, Owner>,
    rows: map<Id, Option<Owner>>,
    tokens: map<Token, Owner>)

  predicate IsDeviceSecret(tok: Token) {
    |tok| >= |PREFIX| && tok[..|PREFIX|] == PREFIX
  }

  function AuthHash(env: Env, tok: Token): Hash {
    if tok == "" then "" else env.sha(tok)
  }

  function Lookup<K, V>(m: map<K, V>, k: K): Option<V> {
    if k in m then Some(m[k]) else None
  }

  function OwnerOf(s: State, id: Id): Option<Owner> {
    if id in s.secrets then Some(s.secrets[id].owner) else None
  }

  /** The owner a device secret proves, if it is the one issued for this id. */
  function Verify(env: Env, s: State, id: Id, secret: Token): Option<Owner> {
    if id == "" || !IsDeviceSecret(secret) then None
    else if id in s.secrets && s.secrets[id].hash == env.sha(secret) then Some(s.secrets[id].owner)
    else None
  }

  /** The gate in front of every /relay call, on a hub whose shared token is set. */
  predicate RelayOk(env: Env, s: State, shared: Token, id: Id, tok: Token) {
    if IsDeviceSecret(tok) then Verify(env, s, id, tok).Some? else tok == shared || tok in s.tokens
  }

  // ---- the parts of an enrollment ----------------------------------------------------------------

  datatype MintResult = Minted(secret: Token) | OtherOwner | NoEntropy | Persist

  /** Issues a secret under an owner; a secret that could not be saved is taken back. */
  function Mint(env: Env, s: State, id: Id, owner: Owner, drawn: Option<Token>, saves: bool, now: nat): (State, MintResult) {
    if drawn.None? then (s, NoEntropy)
    else if id in s.secrets && s.secrets[id].owner != owner then (s, OtherOwner)
    else
      var next := s.secrets[id := Entry(env.sha(drawn.value), owner, now)];
      if saves then (s.(secrets := next, saved := next), Minted(drawn.value)) else (s, Persist)
  }

  /** Deletes a secret; one that could not be saved is gone from memory only. */
  function RemoveSecret(s: State, id: Id, saves: bool): State {
    if id !in s.secrets then s
    else
      var next := s.secrets - {id};
      s.(secrets := next, saved := if saves then next else s.saved)
  }

  /** relay::hello: a new tunnel is bound to `auth`; a tunnel bound to anything else only with `rebind`. */
  function RelayHello(env: Env, s: State, id: Option<Id>, stamped: Option<Owner>, auth: Hash, rebind: bool): (State, bool) {
    if id.None? then (s, false)
    else if id.value in s.tunnels && s.tunnels[id.value].auth != auth && !rebind then (s, false)
    else
      var i := id.value;
      var t := if i in s.tunnels then s.tunnels[i].(auth := auth) else Tunnel(auth, [], {}, 1);
      var owner := if i in s.overrides then Some(s.overrides[i])
                   else if stamped.Some? then Some(env.canon(stamped.value)) else None;
      (s.(tunnels := s.tunnels[i := t], rows := s.rows[i := owner]), true)
  }

  /** set_owner, for an owner that is not empty. */
  function RecordOwner(s: State, id: Id, owner: Owner): State {
    s.(overrides := s.overrides[id := owner], rows := if id in s.rows then s.rows[id := Some(owner)] else s.rows)
  }

  predicate OwnedByOther(s: State, id: Id, owner: Owner) {
    (id in s.secrets && s.secrets[id].owner != owner)
    || (id in s.overrides && s.overrides[id] != owner)
    || (id in s.rows && s.rows[id].Some? && s.rows[id].value != owner)
  }

  function Rebind(s: State, id: Id, auth: Hash): State {
    if id in s.tunnels then s.(tunnels := s.tunnels[id := s.tunnels[id].(auth := auth)]) else s
  }

  function DropTunnel(s: State, id: Id): State {
    s.(tunnels := s.tunnels - {id})
  }

  function DropBoundTo(s: State, hashes: set<Hash>): State {
    s.(tunnels := map i | i in s.tunnels && s.tunnels[i].auth !in hashes :: s.tunnels[i])
  }

  // ---- hello ------------------------------------------------------------------------------------

  /** `id` and `tok` from the query, `wantSecret` for ds=1, `body` the payload's relay_id. */
  datatype Hello = Hello(id: Id, tok: Token, wantSecret: bool, body: Option<Id>)

  datatype Answer = Done | Issued(secret: Token) | Rejected | NeedsToken | InUse | Unauthorized

  /** What the hub has at hand while it mints: randomness, a disk, the time. */
  datatype Luck = Luck(drawn: Option<Token>, saves: bool, now: nat)

  function BodyId(h: Hello): Id {
    if h.body.Some? then h.body.value else ""
  }

  predicate SameId(h: Hello) {
    h.id != "" && BodyId(h) == h.id
  }

  function SecretHello(env: Env, s: State, h: Hello): (State, Answer) {
    var owner := Verify(env, s, h.id, h.tok);
    if owner.None? || !SameId(h) then (s, Rejected)
    else
      var (s1, ok) := RelayHello(env, s, h.body, owner, AuthHash(env, h.tok), true);
      (if ok then RecordOwner(s1, BodyId(h), owner.value) else s1, Done)
  }

  /** The owner to mint for: only for an enrollment token, when asked, and for the id registered. */
  function MintFor(s: State, h: Hello): Option<Owner> {
    if h.tok in s.tokens && h.wantSecret && SameId(h) then Some(s.tokens[h.tok]) else None
  }

  datatype Enrollment = Ended(after: State, answer: Answer) | AtMint(before: State, owner: Owner)

  /** An enrollment up to where it mints: answered already, or about to mint for this owner. */
  function UpToMint(env: Env, s: State, h: Hello): Enrollment {
    if h.tok !in s.tokens then Ended(s, NeedsToken)
    else
      var owner := s.tokens[h.tok];
      if OwnedByOther(s, BodyId(h), owner) then Ended(s, InUse)
      else
        var mintFor := MintFor(s, h);
        var held := if mintFor.Some? then OwnerOf(s, h.id) else None;
        if held.Some? && held.value != owner then Ended(s, InUse)
        else
          var (s1, ok) := RelayHello(env, s, h.body, Some(owner), AuthHash(env, h.tok), held.Some?);
          if !ok then Ended(s1, InUse)
          else if mintFor.None? then Ended(RecordOwner(s1, BodyId(h), owner), Done)
          else AtMint(s1, owner)
  }

  function MintAndBind(env: Env, s: State, h: Hello, owner: Owner, luck: Luck): (State, Answer) {
    var (s1, minted) := Mint(env, s, h.id, owner, luck.drawn, luck.saves, luck.now);
    match minted
    case Minted(secret) =>
      (Rebind(RecordOwner(s1, BodyId(h), owner), h.id, AuthHash(env, secret)), Issued(secret))
    case OtherOwner => (s1, InUse)
    case NoEntropy => (RecordOwner(s1, BodyId(h), owner), Done)
    case Persist => (RecordOwner(s1, BodyId(h), owner), Done)
  }

  function TokenHello(env: Env, s: State, h: Hello, luck: Luck): (State, Answer) {
    match UpToMint(env, s, h)
    case Ended(s1, a) => (s1, a)
    case AtMint(s1, owner) => MintAndBind(env, s1, h, owner, luck)
  }

  /** POST /relay/hello, behind its gate. */
  function HelloEp(env: Env, s: State, shared: Token, h: Hello, luck: Luck): (State, Answer) {
    if !RelayOk(env, s, shared, h.id, h.tok) then (s, Unauthorized)
    else if IsDeviceSecret(h.tok) then SecretHello(env, s, h)
    else TokenHello(env, s, h, luck)
  }

  // ---- the other operations ------------------------------------------------------------------------

  function RevokeEp(s: State, id: Id, saves: bool): State {
    if id == "" || id !in s.secrets then s else DropTunnel(RemoveSecret(s, id, saves), id)
  }

  /** rotate_enroll_token: every token of the owner goes, with the tunnels bound to it. */
  function Rotate(env: Env, s: State, owner: Owner, drawn: Token): State {
    var gone := set t | t in s.tokens && s.tokens[t] == owner :: AuthHash(env, t);
    var kept := map t | t in s.tokens && s.tokens[t] != owner :: s.tokens[t];
    DropBoundTo(s.(tokens := kept[drawn := owner]), gone)
  }

  /** relay::poll hands out the oldest request, to a caller that hashes to the tunnel's binding. */
  function Poll(s: State, id: Id, auth: Hash): (State, Option<nat>) {
    if id in s.tunnels && s.tunnels[id].auth == auth && |s.tunnels[id].queue| > 0 then
      var t := s.tunnels[id];
      (s.(tunnels := s.tunnels[id := t.(queue := t.queue[1..])]), Some(t.queue[0]))
    else (s, None)
  }

  /** relay::reply_stream answers a pending request, for such a caller only. */
  function Reply(s: State, id: Id, auth: Hash, req: nat): (State, bool) {
    if id in s.tunnels && s.tunnels[id].auth == auth && req in s.tunnels[id].pending then
      var t := s.tunnels[id];
      (s.(tunnels := s.tunnels[id := t.(pending := t.pending - {req})]), true)
    else (s, false)
  }

  /** relay::request queues one for a connected device. */
  function Request(s: State, id: Id): State {
    if id in s.tunnels then
      var t := s.tunnels[id];
      s.(tunnels := s.tunnels[id := Tunnel(t.auth, t.queue + [t.nextId], t.pending + {t.nextId}, t.nextId + 1)])
    else s
  }

  // ---- the registry, updated in place -----------------------------------------------------------------

  class Registry {
    var secrets: map<Id, Entry>
    var saved: map<Id, Entry>
    var tunnels: map<Id, Tunnel>
    var overrides: map<Id, Owner>
    var rows: map<Id, Option<Owner>>
    var tokens: map<Token, Owner>
    const env: Env
    const shared: Token

    function Now(): State
      reads this
    {
      State(secrets, saved, tunnels, overrides, rows, tokens)
    }

    constructor (env0: Env, shared0: Token)
      ensures Now() == State(map[], map[], map[], map[], map[], map[]) && env == env0 && shared == shared0
    {
      env, shared := env0, shared0;
      secrets, saved, tunnels, overrides, rows, tokens := map[], map[], map[], map[], map[], map[];
    }

    /** Inserts, saves, and puts the previous entry back when the save fails. */
    method MintSecret(id: Id, owner: Owner, luck: Luck) returns (r: MintResult)
      modifies this
      ensures (Now(), r) == Mint(env, old(Now()), id, owner, luck.drawn, luck.saves, luck.now)
    {
      if luck.drawn.None? { return NoEntropy; }
      if id in secrets && secrets[id].owner != owner { return OtherOwner; }
      ghost var before := secrets;
      var prev := Lookup(secrets, id);
      secrets := secrets[id := Entry(env.sha(luck.drawn.value), owner, luck.now)];
      if !luck.saves {
        match prev {
          case Some(p) => secrets := secrets[id := p];
          case None => secrets := secrets - {id};
        }
        assert secrets == before;
        return Persist;
      }
      saved := secrets;
      r := Minted(luck.drawn.value);
    }

    method RemoveEntry(id: Id, saves: bool) returns (removed: bool)
      modifies this
      ensures Now() == RemoveSecret(old(Now()), id, saves) && removed == (id in old(secrets))
    {
      if id !in secrets { return false; }
      secrets := secrets - {id};
      if saves { saved := secrets; }
      removed := true;
    }

    method Register(id: Option<Id>, stamped: Option<Owner>, auth: Hash, rebind: bool) returns (ok: bool)
      modifies this
      ensures (Now(), ok) == RelayHello(env, old(Now()), id, stamped, auth, rebind)
    {
      if id.None? { return false; }
      var i := id.value;
      if i in tunnels {
        if tunnels[i].auth != auth {
          if !rebind { return false; }
          tunnels := tunnels[i := tunnels[i].(auth := auth)];
        } else {
          assert tunnels == tunnels[i := tunnels[i].(auth := auth)];
        }
      } else {
        tunnels := tunnels[i := Tunnel(auth, [], {}, 1)];
      }
      var owner := Lookup(overrides, i);
      if owner.None? && stamped.Some? {
        owner := Some(env.canon(stamped.value));
      }
      rows := rows[i := owner];
      ok := true;
    }

    method SetOwner(id: Id, owner: Owner)
      modifies this
      ensures Now() == RecordOwner(old(Now()), id, owner)
    {
      overrides := overrides[id := owner];
      if id in rows {
        rows := rows[id := Some(owner)];
      }
    }

    method RebindTunnel(id: Id, auth: Hash) returns (ok: bool)
      modifies this
      ensures Now() == Rebind(old(Now()), id, auth) && ok == (id in tunnels)
    {
      if id !in tunnels { return false; }
      tunnels := tunnels[id := tunnels[id].(auth := auth)];
      ok := true;
    }

    /** The end of an enrollment that asked for a secret. */
    method IssueTo(h: Hello, owner: Owner, luck: Luck) returns (a: Answer)
      modifies this
      ensures (Now(), a) == MintAndBind(env, old(Now()), h, owner, luck)
    {
      var minted := MintSecret(h.id, owner, luck);
      match minted {
        case Minted(secret) =>
          SetOwner(BodyId(h), owner);
          var _ := RebindTunnel(h.id, AuthHash(env, secret));
          a := Issued(secret);
        case OtherOwner => a := InUse;
        case NoEntropy =>
          SetOwner(BodyId(h), owner);
          a := Done;
        case Persist =>
          SetOwner(BodyId(h), owner);
          a := Done;
      }
    }

    method HandleHello(h: Hello, luck: Luck) returns (a: Answer)
      modifies this
      ensures (Now(), a) == HelloEp(env, old(Now()), shared, h, luck)
    {
      if !RelayOk(env, Now(), shared, h.id, h.tok) { return Unauthorized; }
      var bodyId := BodyId(h);
      var sameId := h.id != "" && bodyId == h.id;
      if IsDeviceSecret(h.tok) {
        var owner := Verify(env, Now(), h.id, h.tok);
        if owner.None? || !sameId { return Rejected; }
        var ok := Register(h.body, owner, AuthHash(env, h.tok), true);
        if ok {
          SetOwner(bodyId, owner.value);
        }
        return Done;
      }
      if h.tok !in tokens { return NeedsToken; }
      var owner := tokens[h.tok];
      if OwnedByOther(Now(), bodyId, owner) { return InUse; }
      var minting := h.wantSecret && sameId;
      var held := if minting then OwnerOf(Now(), h.id) else None;
      if held.Some? && held.value != owner { return InUse; }
      var ok := Register(h.body, Some(owner), AuthHash(env, h.tok), held.Some?);
      if !ok { return InUse; }
      if !minting {
        SetOwner(bodyId, owner);
        return Done;
      }
      a := IssueTo(h, owner, luck);
    }

    method Revoke(id: Id, saves: bool) returns (revoked: bool)
      modifies this
      ensures Now() == RevokeEp(old(Now()), id, saves) && revoked == (id != "" && id in old(secrets))
    {
      if id == "" { return false; }
      revoked := RemoveEntry(id, saves);
      if revoked {
        tunnels := tunnels - {id};
      }
    }

    /** Drops every token of the owner, issues another, and drops the tunnels the old ones were bound to. */
    method RotateToken(owner: Owner, drawn: Token)
      modifies this
      ensures Now() == Rotate(env, old(Now()), owner, drawn)
    {
      var left, removed := tokens.Keys, {};
      var kept := tokens;
      while left != {}
        invariant left <= tokens.Keys
        invariant removed == set t | t in tokens && t !in left && tokens[t] == owner :: AuthHash(env, t)
        invariant kept == map t | t in tokens && (t in left || tokens[t] != owner) :: tokens[t]
        decreases |left|
      {
        var t :| t in left;
        left := left - {t};
        if tokens[t] == owner {
          removed := removed + {AuthHash(env, t)};
          kept := kept - {t};
        }
      }
      assert removed == set t | t in tokens && tokens[t] == owner :: AuthHash(env, t);
      assert kept == map t | t in tokens && tokens[t] != owner :: tokens[t];
      tokens := kept[drawn := owner];
      tunnels := map i | i in tunnels && tunnels[i].auth !in removed :: tunnels[i];
    }
  }
}
