/**
 When a hello is accepted (devicesecrets.rs, relay.rs), told by the hub's tables before it alone:
 who may register an id, who is issued a secret, and what is left behind.
 */
module CredentialHello {
  import opened Bytes
  import opened Credentials
  import opened CredentialRuns

  /** Neither its secret, nor its recorded owner, nor its row gives the id to anyone but `o`. */
  predicate NobodyElses(s: State, id: Id, o: Owner) {
    && (id in s.secrets ==> s.secrets[id].owner == o)
    && (id in s.overrides ==> s.overrides[id] == o)
    && (id in s.rows && s.rows[id].Some? ==> s.rows[id].value == o)
  }

  /** A secret is asked for, under the id that the payload registers. */
  predicate Wants(h: Hello) {
    h.wantSecret && h.id != "" && h.body == Some(h.id)
  }

  /**
   The enrollment token `h.tok`, of owner `o` and with hash `hash`, may register its id: the id is
   nobody else's, and it has no tunnel, or one bound to this very token, or the device asks for a
   secret and has one of `o` already, which it may have lost.
   */
  predicate MayEnroll(s: State, h: Hello, o: Owner, hash: Hash) {
    h.body.Some? && NobodyElses(s, h.body.value, o)
    && (|| h.body.value !in s.tunnels
        || s.tunnels[h.body.value].auth == hash
        || (Wants(h) && h.id in s.secrets && s.secrets[h.id].owner == o))
  }

  lemma UpToMintExactly(env: Env, s: State, h: Hello)
    requires h.tok in s.tokens
    ensures var o, hash := s.tokens[h.tok], if h.tok == "" then "" else env.sha(h.tok);
            match UpToMint(env, s, h)
            case Ended(_, a) => if MayEnroll(s, h, o, hash) then a == Done && !Wants(h) else a == InUse
            case AtMint(_, _) => MayEnroll(s, h, o, hash) && Wants(h)
  {
  }

  lemma MintsExactly(env: Env, s: State, h: Hello, o: Owner, luck: Luck)
    requires h.id in s.secrets ==> s.secrets[h.id].owner == o
    ensures var a := MintAndBind(env, s, h, o, luck).1;
            if luck.drawn.Some? && luck.saves then a == Issued(luck.drawn.value) else a == Done
  {
  }

  lemma TokenHelloExactly(env: Env, s: State, h: Hello, luck: Luck)
    requires h.tok in s.tokens
    ensures var o, hash := s.tokens[h.tok], if h.tok == "" then "" else env.sha(h.tok);
            TokenHello(env, s, h, luck).1
            == if !MayEnroll(s, h, o, hash) then InUse
               else if Wants(h) && luck.drawn.Some? && luck.saves then Issued(luck.drawn.value)
               else Done
  {
    hide UpToMint, MintAndBind, MayEnroll;
    UpToMintExactly(env, s, h);
    UpToMintMoves(env, s, h);
    var e := UpToMint(env, s, h);
    if e.AtMint? {
      MintsExactly(env, e.before, h, e.owner, luck);
    }
  }

  /**
   A hello with anything but a device secret. It passes the gate with the shared token or an
   enrollment token, and is answered further only with the latter. Then it is accepted exactly if
   its owner may enroll the id, and answered with a secret exactly if one was asked for, drawn and
   saved. Accepted, it leaves the id with its owner, its tunnel bound to the token or to the secret
   issued, and everything else as it was.
   */
  lemma EnrollmentExactly(env: Env, s: State, shared: Token, h: Hello, luck: Luck)
    requires |h.tok| < 5 || h.tok[..5] != "hdev_"
    requires luck.drawn.Some? ==> luck.drawn.value != ""
    ensures HelloEp(env, s, shared, h, luck).1
            == if h.tok !in s.tokens then (if h.tok == shared then NeedsToken else Unauthorized)
               else
                 var hash := if h.tok == "" then "" else env.sha(h.tok);
                 if !MayEnroll(s, h, s.tokens[h.tok], hash) then InUse
                 else if Wants(h) && luck.drawn.Some? && luck.saves then Issued(luck.drawn.value)
                 else Done
    ensures var (s', a) := HelloEp(env, s, shared, h, luck);
            if a == Done || a.Issued? then
              var id, o := h.body.value, s.tokens[h.tok];
              var auth := if a.Issued? then env.sha(luck.drawn.value) else if h.tok == "" then "" else env.sha(h.tok);
              var t := if id in s.tunnels then s.tunnels[id] else Tunnel(auth, [], {}, 1);
              var secrets := if a.Issued? then s.secrets[id := Entry(env.sha(luck.drawn.value), o, luck.now)] else s.secrets;
              s' == s.(tunnels := s.tunnels[id := t.(auth := auth)], rows := s.rows[id := Some(o)],
                       overrides := s.overrides[id := o], secrets := secrets, saved := if a.Issued? then secrets else s.saved)
            else s' == s
  {
    hide TokenHello, SecretHello, MayEnroll;
    if h.tok in s.tokens {
      TokenHelloExactly(env, s, h, luck);
    } else {
      NoToken(env, s, h, luck);
    }
    TokenHelloMoves(env, s, h, luck);
    TokenHelloQueue(env, s, h, luck);
    assert PREFIX == "hdev_";
  }

  lemma NoToken(env: Env, s: State, h: Hello, luck: Luck)
    requires h.tok !in s.tokens
    ensures TokenHello(env, s, h, luck) == (s, NeedsToken)
  {
  }

  /** An accepted hello keeps the requests waiting for the device. */
  lemma TokenHelloQueue(env: Env, s: State, h: Hello, luck: Luck)
    ensures var (s', a), id := TokenHello(env, s, h, luck), BodyId(h);
            !Refused(a) ==>
              id in s'.tunnels
              && s'.tunnels[id] == (if id in s.tunnels then s.tunnels[id] else Tunnel("", [], {}, 1)).(auth := s'.tunnels[id].auth)
  {
    hide UpToMint, MintAndBind;
    UpToMintMoves(env, s, h);
    UpToMintQueue(env, s, h);
    var e := UpToMint(env, s, h);
    if e.AtMint? {
      MintAndBindMoves(env, e.before, h, e.owner, luck);
      MintAndBindQueue(env, e.before, h, e.owner, luck);
    }
  }

  predicate SameQueue(s: State, s': State, id: Id) {
    id in s'.tunnels
    && s'.tunnels[id] == (if id in s.tunnels then s.tunnels[id] else Tunnel("", [], {}, 1)).(auth := s'.tunnels[id].auth)
  }

  lemma UpToMintQueue(env: Env, s: State, h: Hello)
    ensures match UpToMint(env, s, h)
            case Ended(s', a) => !Refused(a) ==> SameQueue(s, s', BodyId(h))
            case AtMint(s', _) => SameQueue(s, s', BodyId(h))
  {
  }

  lemma MintAndBindQueue(env: Env, s: State, h: Hello, o: Owner, luck: Luck)
    requires h.id in s.tunnels
    ensures SameQueue(s, MintAndBind(env, s, h, o, luck).0, h.id)
  {
  }

  /**
   A hello with a device secret: accepted exactly if it is the one stored for the id it names, and
   the payload registers that same id; it then binds the tunnel to itself and confirms the owner. A
   secret that is not the id's does not pass the gate.
   */
  lemma SecretHelloExactly(env: Env, s: State, shared: Token, h: Hello, luck: Luck)
    requires |h.tok| >= 5 && h.tok[..5] == "hdev_"
    ensures var valid := h.id != "" && h.id in s.secrets && s.secrets[h.id].hash == env.sha(h.tok);
            HelloEp(env, s, shared, h, luck).1
            == if !valid then Unauthorized else if h.body == Some(h.id) then Done else Rejected
    ensures var (s', a) := HelloEp(env, s, shared, h, luck);
            if a == Done then
              var t := if h.id in s.tunnels then s.tunnels[h.id] else Tunnel("", [], {}, 1);
              var o := s.secrets[h.id].owner;
              s' == s.(tunnels := s.tunnels[h.id := t.(auth := env.sha(h.tok))], rows := s.rows[h.id := Some(o)],
                       overrides := s.overrides[h.id := o])
            else s' == s
  {
    assert PREFIX == "hdev_";
    SecretHelloMoves(env, s, h);
    SecretHelloQueue(env, s, h);
  }

  lemma SecretHelloQueue(env: Env, s: State, h: Hello)
    ensures !Refused(SecretHello(env, s, h).1) ==> SameQueue(s, SecretHello(env, s, h).0, BodyId(h))
  {
  }
}
