/** What TransformConfig and CanRestore guarantee: the installed credentials are those of
    the runtime configuration, revocation comes first, failure closes, and rollbacks
    never widen what is admitted. */
module EgressGuarantees {
  import opened Base
  import opened DeviceConfig
  import opened DeviceCheck
  import opened Router
  import opened DeviceEgress

  // ----- Every declared device has a rate, and its bindings are well formed -----

  ghost predicate Bound(acc: Acc) {
    && (forall t | t in acc.sources :: !acc.sources[t].Is4In6())
    && (forall t | t in acc.tokens :: acc.tokens[t] != "" ==> IsSessionToken(acc.tokens[t]))
  }

  ghost predicate MatchedAreRated(devices: map<string, Device>, acc: Acc) {
    Bound(acc) && forall t | t in acc.matched :: t in devices && devices[t].id in acc.rates
  }

  lemma {:induction false} ScanBinds(ctx: Ctx, rules: seq<Rule>, i: nat, s: Scan)
    requires i <= |rules| && ScanFrom(ctx, rules, i, s).Ok? && Bound(s.acc)
    ensures Bound(ScanFrom(ctx, rules, i, s).value.acc)
    decreases |rules| - i
  {
    if i < |rules| {
      match StepRule(ctx, rules[i], s)
      case Continue(s1) => ScanBinds(ctx, rules, i + 1, s1);
      case Break(_) =>
      case Fail(_) =>
    }
  }

  lemma {:induction false} ScanMatchesOwn(ctx: Ctx, rules: seq<Rule>, i: nat, s: Scan)
    requires i <= |rules| && ScanFrom(ctx, rules, i, s).Ok?
    ensures var t := ScanFrom(ctx, rules, i, s).value.acc;
            && t.rates == s.acc.rates
            && forall tag | tag in t.matched && tag !in s.acc.matched ::
               tag in ctx.devices && ctx.devices[tag].id == ctx.client.id
    decreases |rules| - i
  {
    if i < |rules| {
      match StepRule(ctx, rules[i], s)
      case Continue(s1) => ScanMatchesOwn(ctx, rules, i + 1, s1);
      case Break(_) =>
      case Fail(_) =>
    }
  }

  lemma CheckKeepsRated(env: Env, inbound: Inbound, client: Client, acc: Acc)
    requires CheckClient(env, inbound, client, acc).Ok? && MatchedAreRated(env.devices, acc)
    ensures MatchedAreRated(env.devices, CheckClient(env, inbound, client, acc).value)
  {
    var acc1 := acc.(identities := acc.identities + {IdentityOf(inbound, client)});
    if CheckManaged(env, inbound, client, acc1).Ok? {
      ScanMatchesOwn(CtxFor(env, inbound, client), env.cfg.rules, 0, FreshScan(acc1));
      ScanBinds(CtxFor(env, inbound, client), env.cfg.rules, 0, FreshScan(acc1));
    }
  }

  lemma {:induction false} ClientsKeepRated(env: Env, inbound: Inbound, j: nat, acc: Acc)
    requires j <= |inbound.clients| && ClientsFrom(env, inbound, j, acc).Ok? && MatchedAreRated(env.devices, acc)
    ensures MatchedAreRated(env.devices, ClientsFrom(env, inbound, j, acc).value)
    decreases |inbound.clients| - j
  {
    if j < |inbound.clients| {
      CheckKeepsRated(env, inbound, inbound.clients[j], acc);
      ClientsKeepRated(env, inbound, j + 1, CheckClient(env, inbound, inbound.clients[j], acc).value);
    }
  }

  lemma {:induction false} InboundsKeepRated(env: Env, k: nat, acc: Acc)
    requires k <= |env.cfg.inbounds| && InboundsFrom(env, k, acc).Ok? && MatchedAreRated(env.devices, acc)
    ensures MatchedAreRated(env.devices, InboundsFrom(env, k, acc).value)
    decreases |env.cfg.inbounds| - k
  {
    if k < |env.cfg.inbounds| {
      ClientsKeepRated(env, env.cfg.inbounds[k], 0, acc);
      InboundsKeepRated(env, k + 1, ClientsFrom(env, env.cfg.inbounds[k], 0, acc).value);
    }
  }

  /** Every declared device of an accepted configuration has a known speed. */
  lemma DevicesAreRated(cfg: Config, tag: string)
    requires Parse(cfg).Ok? && tag in Parse(cfg).value.devices
    ensures Parse(cfg).value.devices[tag].id in Parse(cfg).value.rates
  {
    InboundsKeepRated(EnvOf(cfg), 0, EMPTY_ACC);
  }

  /** An accepted configuration binds no mapped address, and only real session tokens. */
  lemma BindingsAreWellFormed(cfg: Config, tag: string)
    requires Parse(cfg).Ok?
    ensures var p := Parse(cfg).value;
            && (tag in p.sources ==> !p.sources[tag].Is4In6())
            && (Token(p, tag) != "" ==> IsSessionToken(Token(p, tag)))
  {
    InboundsKeepRated(EnvOf(cfg), 0, EMPTY_ACC);
  }

  // ----- What the server takes -----

  /** The list of the second setCredentials call. */
  function FinalList(p: Parsed, passwords: map<string, string>, tokens: map<string, string>): Credentials {
    Credentialed(p, passwords, UpdatedTokens(tokens, p, p.devices.Keys))
  }

  lemma FinalEntry(p: Parsed, passwords: map<string, string>, tokens: map<string, string>, tag: string)
    requires tag in p.devices && passwords.Keys == p.devices.Keys
    ensures tag in FinalList(p, passwords, tokens)
    ensures FinalList(p, passwords, tokens)[tag] ==
            Credential(p.devices[tag].id, passwords[tag], Lookup(p.sources, tag), Token(p, tag))
  {
  }

  /** An open server takes the credentials of an accepted configuration exactly when every
      source it binds is a unicast address and no device has one password twice: the check
      also accepts multicast, broadcast and unspecified sources, which are never installed. */
  lemma InstallableExactly(cfg: Config, passwords: map<string, string>, tokens: map<string, string>)
    requires Parse(cfg).Ok? && passwords.Keys == Parse(cfg).value.devices.Keys
    requires forall t | t in passwords :: |passwords[t]| == 64
    ensures var p := Parse(cfg).value;
            Takes(FinalList(p, passwords, tokens)) <==>
              && (forall t | t in p.devices && t in p.sources :: p.sources[t].IsUnicast())
              && (forall s, t | s in p.devices && t in p.devices && s != t ::
                  p.devices[s].id != p.devices[t].id || passwords[s] != passwords[t])
  {
    var p := Parse(cfg).value;
    var list := FinalList(p, passwords, tokens);
    forall t | t in p.devices
      ensures t in list && list[t].uuid == p.devices[t].id && list[t].password == passwords[t]
      ensures TakesOne(list[t]) <==> (t in p.sources ==> p.sources[t].IsUnicast())
    {
      FinalEntry(p, passwords, tokens, t);
      DevicesAreDeclared(cfg, t);
      BindingsAreWellFormed(cfg, t);
    }
    assert list.Keys == p.devices.Keys;
  }

  // ----- A generation that was installed -----

  /** Every device has a secret to draw on, old or new. */
  predicate Supplied(e: Egress, p: Parsed, draw: map<string, string>) {
    p.devices.Keys <= Pruned(e, p).passwords.Keys + draw.Keys
  }

  function AdmittedPasswords(e: Egress, p: Parsed, draw: map<string, string>): map<string, string> {
    DrawnPasswords(Pruned(e, p).passwords, draw, p.devices.Keys)
  }

  lemma AdmittedState(e: Egress, cfg: Config, p: Parsed, draw: map<string, string>, o: Outcome, f: Egress)
    requires AdmitStep(e, cfg, p, draw, o, f) && o.Installed?
    ensures Supplied(e, p, draw) && f.passwords == AdmittedPasswords(e, p, draw)
    ensures f.installed == Credentialed(p, f.passwords, f.tokens)
    ensures f.managed == p.devices.Keys && f.count == |p.devices.Keys| && f.limits == Some(p.rates)
    ensures o.runtime == Materialize(cfg, f.passwords)
  {
  }

  lemma AdmittedPassword(e: Egress, p: Parsed, draw: map<string, string>, tag: string)
    requires Supplied(e, p, draw) && tag in p.devices
    ensures tag in AdmittedPasswords(e, p, draw) && (tag !in e.passwords ==> tag in draw)
    ensures AdmittedPasswords(e, p, draw)[tag] == if tag in e.passwords then e.passwords[tag] else draw[tag]
  {
    var q := Pruned(e, p).passwords;
    DrawnKeys(q, draw, p.devices.Keys);
    assert tag in q <==> tag in e.passwords;
    assert tag in q.Keys + draw.Keys;
  }

  lemma AdmittedKeys(e: Egress, p: Parsed, draw: map<string, string>)
    requires Supplied(e, p, draw)
    ensures AdmittedPasswords(e, p, draw).Keys == p.devices.Keys
  {
    DrawnKeys(Pruned(e, p).passwords, draw, p.devices.Keys);
  }

  /** The tag's credential is its client's, with the password it had or else a new one. */
  ghost predicate HasSecret(e: Egress, p: Parsed, draw: map<string, string>, f: Egress, tag: string)
    requires tag in p.devices
  {
    && tag in f.passwords && tag in f.installed
    && f.installed[tag].uuid == p.devices[tag].id && f.installed[tag].password == f.passwords[tag]
    && |f.passwords[tag]| == 64
    && (tag in e.passwords ==> f.passwords[tag] == e.passwords[tag])
    && (tag !in e.passwords ==> tag in draw && f.passwords[tag] == draw[tag])
  }

  lemma AdmittedTag(e: Egress, p: Parsed, draw: map<string, string>, f: Egress, tag: string)
    requires WellFormed(e) && AreSecrets(draw) && Supplied(e, p, draw) && tag in p.devices
    requires f.passwords == AdmittedPasswords(e, p, draw) && f.installed == Credentialed(p, f.passwords, f.tokens)
    ensures HasSecret(e, p, draw, f, tag)
  {
    AdmittedPassword(e, p, draw, tag);
    assert f.installed[tag] == CredentialOf(p, f.passwords, f.tokens, tag);
  }

  /** The secrets a successful admission ends with. */
  lemma AdmittedSecrets(e: Egress, cfg: Config, p: Parsed, draw: map<string, string>, o: Outcome, f: Egress)
    requires WellFormed(e) && AreSecrets(draw) && AdmitStep(e, cfg, p, draw, o, f) && o.Installed?
    ensures f.installed.Keys == p.devices.Keys == f.passwords.Keys && f.managed == p.devices.Keys
    ensures f.count == |p.devices.Keys| && f.limits == Some(p.rates) && o.runtime == Materialize(cfg, f.passwords)
    ensures forall t | t in p.devices :: HasSecret(e, p, draw, f, t)
  {
    AdmittedState(e, cfg, p, draw, o, f);
    AdmittedKeys(e, p, draw);
    forall t | t in p.devices ensures HasSecret(e, p, draw, f, t) {
      AdmittedTag(e, p, draw, f, t);
    }
  }

  /** What it admits for one tag, with the source and the token the generation binds it to. */
  lemma AdmittedEntry(e: Egress, cfg: Config, p: Parsed, draw: map<string, string>, o: Outcome, f: Egress, tag: string)
    requires AdmitStep(e, cfg, p, draw, o, f) && o.Installed? && tag in p.devices && f.passwords.Keys == p.devices.Keys
    ensures tag in f.installed
    ensures f.installed[tag] == Credential(p.devices[tag].id, f.passwords[tag], Lookup(p.sources, tag), Token(p, tag))
  {
    FieldsAfter(e, cfg, p, draw, o, f);
    FinalEntry(p, f.passwords, Pruned(e, p).tokens, tag);
  }

  /** One device outbound of the materialized configuration. */
  lemma MaterializedDevice(cfg: Config, passwords: map<string, string>, tag: string)
    requires Parse(cfg).Ok? && tag in Parse(cfg).value.devices && tag in passwords && |passwords[tag]| == 64
    ensures var d := Parse(cfg).value.devices[tag];
            && d.index < |cfg.outbounds| == |Materialize(cfg, passwords).outbounds|
            && IsRuntimeEgress(Materialize(cfg, passwords).outbounds[d.index], tag, d.id, passwords[tag])
  {
    DevicesAreDeclared(cfg, tag);
    var d := Parse(cfg).value.devices[tag];
    var o, r := cfg.outbounds[d.index], MaterializedOutbound(cfg.outbounds[d.index], passwords);
    assert o.servers[0].users == [SocksUser(d.id, PLACEHOLDER)];
    assert r.servers[0].users == [SocksUser(d.id, passwords[tag])];
    assert r.servers == [r.servers[0]];
  }

  /** MAIN RESULT. After a successful TransformConfig the local server admits exactly one
      credential for every declared device outbound; it is the very user name and
      password written into that outbound of the runtime configuration, and its device
      has a speed limit; a tag that had a password before keeps it. */
  lemma InstalledIsMaterialized(e: Egress, cfg: Config, ready: bool, draw: map<string, string>, o: Outcome, f: Egress)
    requires WellFormed(e) && AreSecrets(draw) && TransformStep(e, cfg, ready, draw, o, f) && o.Installed?
    ensures Parse(cfg).Ok?
    ensures var devices := Parse(cfg).value.devices;
            && f.installed.Keys == devices.Keys == f.managed && f.count == |devices.Keys|
            && f.limits.Some?
            && (forall tag | tag in devices ::
                  && devices[tag].index < |o.runtime.outbounds|
                  && IsRuntimeEgress(o.runtime.outbounds[devices[tag].index], tag, f.installed[tag].uuid,
                                     f.installed[tag].password)
                  && f.installed[tag].uuid in f.limits.value
                  && (tag in e.passwords ==> f.installed[tag].password == e.passwords[tag]))
  {
    var p := Parse(cfg).value;
    AdmittedSecrets(e, cfg, p, draw, o, f);
    forall tag | tag in p.devices
      ensures p.devices[tag].index < |o.runtime.outbounds|
      ensures IsRuntimeEgress(o.runtime.outbounds[p.devices[tag].index], tag, f.installed[tag].uuid,
                              f.installed[tag].password)
      ensures f.installed[tag].uuid in p.rates
    {
      MaterializedDevice(cfg, f.passwords, tag);
      DevicesAreRated(cfg, tag);
    }
  }

  /** The outbound logs in at the local egress with exactly this credential. */
  ghost predicate IsRuntimeEgress(o: Outbound, tag: string, user: string, password: string) {
    && o.tag == tag && o.protocol == "socks"
    && o.servers == [SocksServer(LISTEN_IP, SOCKS_PORT, [SocksUser(user, password)])]
    && password != "" && password != PLACEHOLDER
  }

  ghost predicate Injective<V>(m: map<string, V>) {
    forall s, t | s in m && t in m && m[s] == m[t] :: s == t
  }

  /** The random source repeats no password, neither among the new ones nor of the old. */
  ghost predicate FreshDraw(e: Egress, draw: map<string, string>) {
    Injective(draw) && forall s, t | s in e.passwords && t in draw :: e.passwords[s] != draw[t]
  }

  lemma DistinctPair(e: Egress, p: Parsed, draw: map<string, string>, f: Egress, s: string, t: string)
    requires s in p.devices && t in p.devices && HasSecret(e, p, draw, f, s) && HasSecret(e, p, draw, f, t)
    requires Injective(e.passwords) && FreshDraw(e, draw) && f.passwords[s] == f.passwords[t]
    ensures s == t
  {
  }

  /** With a random source that never repeats, no two outbounds share a credential, so
      credentials and declared tags are in bijection. */
  lemma CredentialsAreDistinct(e: Egress, cfg: Config, p: Parsed, draw: map<string, string>, o: Outcome, f: Egress)
    requires WellFormed(e) && AreSecrets(draw) && AdmitStep(e, cfg, p, draw, o, f) && o.Installed?
    requires Injective(e.passwords) && FreshDraw(e, draw)
    ensures Injective(f.passwords) && Injective(f.installed)
  {
    AdmittedSecrets(e, cfg, p, draw, o, f);
    forall s, t | s in f.passwords && t in f.passwords && f.passwords[s] == f.passwords[t] ensures s == t {
      DistinctPair(e, p, draw, f, s, t);
    }
    forall s, t | s in f.installed && t in f.installed && f.installed[s] == f.installed[t] ensures s == t {
      DistinctPair(e, p, draw, f, s, t);
    }
  }

  // ----- Revocation comes first -----

  /** The server admits the tag's remembered password, with its remembered session token. */
  ghost predicate SyncedAt(e: Egress, tag: string)
    requires tag in e.passwords
  {
    tag in e.installed && e.installed[tag].password == e.passwords[tag]
        && e.installed[tag].token == Lookup(e.tokens, tag).GetOr("")
  }

  /** So it does for every remembered tag. */
  ghost predicate InSync(e: Egress) { forall t | t in e.passwords :: SyncedAt(e, t) }

  /** Every credential on the list is admitted already, as it stands. */
  ghost predicate OnlyRevokes(e: Egress, list: Credentials) {
    forall t | t in list :: t in e.installed && e.installed[t] == list[t]
  }

  /** Admitted logins carry the device id of their tag. */
  ghost predicate OwnNames(e: Egress) {
    forall t | t in e.installed ::
      ParseLocalDeviceTag(t).Some? && e.installed[t].uuid == ParseLocalDeviceTag(t).value.id
  }

  /** MAIN RESULT. The first setCredentials call of a generation names the remembered tags
      that are still declared, and only takes credentials away exactly when the server admits
      each of them already with the remembered password and token, for the very source the new
      generation binds it to. From a state in sync that is: when no such tag changes its source. */
  lemma RevokesFirst(e: Egress, cfg: Config)
    requires Parse(cfg).Ok? && OwnNames(e)
    ensures var p := Parse(cfg).value;
            && Kept(e, p).Keys == e.passwords.Keys * p.devices.Keys
            && (OnlyRevokes(e, Kept(e, p)) <==>
                  forall t | t in e.passwords && t in p.devices ::
                      SyncedAt(e, t) && e.installed[t].source == Lookup(p.sources, t))
            && (InSync(e) ==>
                  (OnlyRevokes(e, Kept(e, p)) <==>
                     forall t | t in e.passwords && t in p.devices :: e.installed[t].source == Lookup(p.sources, t)))
  {
    var p := Parse(cfg).value;
    assert Kept(e, p).Keys == e.passwords.Keys * p.devices.Keys;
    forall t | t in e.passwords && t in p.devices
      ensures t in Kept(e, p)
      ensures t in e.installed && e.installed[t] == Kept(e, p)[t] <==>
                SyncedAt(e, t) && e.installed[t].source == Lookup(p.sources, t)
    {
      KeptEntry(e, cfg, t);
    }
  }

  lemma KeptEntry(e: Egress, cfg: Config, tag: string)
    requires Parse(cfg).Ok? && OwnNames(e) && tag in e.passwords && tag in Parse(cfg).value.devices
    ensures var p := Parse(cfg).value;
            && tag in Kept(e, p)
            && Kept(e, p)[tag] == Credential(p.devices[tag].id, e.passwords[tag], Lookup(p.sources, tag),
                                             Lookup(e.tokens, tag).GetOr(""))
            && (tag in e.installed ==> e.installed[tag].uuid == p.devices[tag].id)
  {
    DevicesAreDeclared(cfg, tag);
  }

  /** The tag has a password already, and keeps its session token. */
  predicate Unchanged(e: Egress, p: Parsed, tag: string) {
    tag in e.passwords && Token(p, tag) == Lookup(e.tokens, tag).GetOr("")
  }

  /** Exactly when serving a generation that parsed leaves a state in sync: always when it
      succeeds; if the first call is refused, when the kept tags were in sync before; and
      otherwise when it neither drew a password nor changed a token before it failed. */
  lemma WhenInSync(e: Egress, cfg: Config, p: Parsed, draw: map<string, string>, o: Outcome, f: Egress)
    requires WellFormed(e) && AdmitStep(e, cfg, p, draw, o, f)
    ensures match o
            case RevokeFailed => InSync(f) <==> forall t | t in e.passwords && t in p.devices :: SyncedAt(e, t)
            case NoEntropy(done) => InSync(f) <==> forall t | t in done :: Unchanged(e, p, t)
            case InstallFailed => InSync(f) <==> forall t | t in p.devices :: Unchanged(e, p, t)
            case _ => InSync(f)
  {
    if o.RevokeFailed? {
      forall t | t in f.passwords ensures SyncedAt(f, t) <==> SyncedAt(e, t) {
        assert Lookup(f.tokens, t) == Lookup(e.tokens, t);
      }
    } else {
      var done := if o.NoEntropy? then o.done else p.devices.Keys;
      FieldsAfter(e, cfg, p, draw, o, f);
      DrawnKeys(Pruned(e, p).passwords, draw, done);
      forall t | t in f.passwords
        ensures !o.Installed? ==> (SyncedAt(f, t) <==> t in done ==> Unchanged(e, p, t))
        ensures o.Installed? ==> SyncedAt(f, t)
      {
        if o.Installed? {
          SyncedAfterSuccess(p, f, t);
        } else {
          SyncedAfterFailure(e, p, draw, done, f, t);
        }
      }
    }
  }

  lemma FieldsAfter(e: Egress, cfg: Config, p: Parsed, draw: map<string, string>, o: Outcome, f: Egress)
    requires AdmitStep(e, cfg, p, draw, o, f) && !o.RevokeFailed?
    ensures var q, done := Pruned(e, p), if o.NoEntropy? then o.done else p.devices.Keys;
            && done <= p.devices.Keys
            && f.passwords == DrawnPasswords(q.passwords, draw, done) && f.tokens == UpdatedTokens(q.tokens, p, done)
            && f.installed == if o.Installed? then Credentialed(p, f.passwords, f.tokens) else Kept(e, p)
  {
  }

  lemma UpdatedToken(tokens: map<string, string>, p: Parsed, done: set<string>, tag: string)
    ensures Lookup(UpdatedTokens(tokens, p, done), tag).GetOr("") ==
            if tag in done then Token(p, tag) else Lookup(tokens, tag).GetOr("")
  {
  }

  lemma SyncedAfterFailure(e: Egress, p: Parsed, draw: map<string, string>, done: set<string>, f: Egress, tag: string)
    requires tag in f.passwords && done <= p.devices.Keys && f.installed == Kept(e, p)
    requires f.passwords == DrawnPasswords(Pruned(e, p).passwords, draw, done)
             && f.tokens == UpdatedTokens(Pruned(e, p).tokens, p, done)
    ensures SyncedAt(f, tag) <==> tag in done ==> Unchanged(e, p, tag)
  {
    var q := Pruned(e, p);
    UpdatedToken(q.tokens, p, done, tag);
    if tag in q.passwords {
      assert Lookup(q.tokens, tag) == Lookup(e.tokens, tag);
      assert f.installed[tag] == CredentialOf(p, q.passwords, q.tokens, tag);
    } else {
      assert tag in done && tag !in Kept(e, p);
    }
  }

  lemma SyncedAfterSuccess(p: Parsed, f: Egress, tag: string)
    requires tag in f.passwords && tag in p.devices && f.installed == Credentialed(p, f.passwords, f.tokens)
    ensures SyncedAt(f, tag)
  {
    assert f.installed[tag] == CredentialOf(p, f.passwords, f.tokens, tag);
  }

  /** A refused generation leaves one in sync only if nothing was remembered, or the server
      refused to be emptied. */
  lemma WhenInSyncAfterRefusal(e: Egress, cleared: bool)
    ensures InSync(Closed(e, cleared)) <==> if cleared then e.passwords.Keys == {} else InSync(e)
  {
    if !cleared {
      forall t | t in e.passwords ensures SyncedAt(Closed(e, cleared), t) <==> SyncedAt(e, t) {
      }
    }
  }

  /** One call of TransformConfig. */
  ghost predicate Called(e: Egress, f: Egress) {
    exists cfg, ready, draw, o :: AreSecrets(draw) && TransformStep(e, cfg, ready, draw, o, f)
  }

  lemma NamesStay(e: Egress, cfg: Config, ready: bool, draw: map<string, string>, o: Outcome, f: Egress)
    requires WellFormed(e) && OwnNames(e) && AreSecrets(draw) && TransformStep(e, cfg, ready, draw, o, f)
    ensures WellFormed(f) && OwnNames(f)
  {
    if Parse(cfg).Ok? && !o.NotReady? {
      var p := Parse(cfg).value;
      AdmitWellFormed(e, cfg, p, draw, o, f);
      forall t | t in f.installed && f.installed != e.installed
        ensures ParseLocalDeviceTag(t).Some? && f.installed[t].uuid == ParseLocalDeviceTag(t).value.id
      {
        assert t in p.devices && f.installed[t].uuid == p.devices[t].id;
        DevicesAreDeclared(cfg, t);
      }
    }
  }

  const NEW_EGRESS: Egress := Egress(map[], map[], None, {}, map[], 0, None, map[])

  /** In every state that calls lead to, the logins are named after their tags. */
  lemma {:induction false} CallsKeepNames(run: seq<Egress>)
    requires |run| > 0 && run[0] == NEW_EGRESS && forall n | 1 <= n < |run| :: Called(run[n - 1], run[n])
    ensures WellFormed(run[|run| - 1]) && OwnNames(run[|run| - 1])
  {
    var n := |run| - 1;
    if n > 0 {
      CallsKeepNames(run[..n]);
      assert Called(run[n - 1], run[n]);
      var cfg, ready, draw, o :| AreSecrets(draw) && TransformStep(run[n - 1], cfg, ready, draw, o, run[n]);
      NamesStay(run[n - 1], cfg, ready, draw, o, run[n]);
    }
  }

  // ----- Failure closes -----

  /** Whatever comes of a generation that parsed: it is authorized, with its rates and tags, and
      devices are reported only after success. */
  lemma EveryOutcome(e: Egress, cfg: Config, p: Parsed, draw: map<string, string>, o: Outcome, f: Egress)
    requires AdmitStep(e, cfg, p, draw, o, f)
    ensures f.authorized == Some(p.identities) && f.rates == p.rates && f.managed == p.devices.Keys
            && f.limits == Some(p.rates)
    ensures f.count == if o.Installed? then |p.devices.Keys| else 0
  {
  }

  lemma SecretsAfter(e: Egress, p: Parsed, draw: map<string, string>, done: set<string>)
    requires done <= p.devices.Keys
    ensures var passwords := DrawnPasswords(Pruned(e, p).passwords, draw, done);
            && passwords.Keys <= p.devices.Keys
            && forall t | t in e.passwords && t in p.devices :: t in passwords && passwords[t] == e.passwords[t]
    ensures UpdatedTokens(Pruned(e, p).tokens, p, done).Keys <= p.devices.Keys
  {
    forall t | t in DrawnPasswords(Pruned(e, p).passwords, draw, done) ensures t in p.devices {
      assert t in Pruned(e, p).passwords || t in done;
    }
  }

  /** No secret of a dropped tag is remembered, and every kept one is. */
  lemma DroppedTagsAreForgotten(e: Egress, cfg: Config, p: Parsed, draw: map<string, string>, o: Outcome, f: Egress)
    requires AdmitStep(e, cfg, p, draw, o, f)
    ensures f.passwords.Keys <= p.devices.Keys && f.tokens.Keys <= p.devices.Keys
    ensures forall t | t in e.passwords && t in p.devices :: t in f.passwords && f.passwords[t] == e.passwords[t]
  {
    if !o.RevokeFailed? {
      FieldsAfter(e, cfg, p, draw, o, f);
      SecretsAfter(e, p, draw, if o.NoEntropy? then o.done else p.devices.Keys);
    }
  }

  /** And the server admits no tag of another generation, unless it refused the first list. */
  lemma DroppedTagsAreRevoked(e: Egress, cfg: Config, p: Parsed, draw: map<string, string>, o: Outcome, f: Egress)
    requires AdmitStep(e, cfg, p, draw, o, f)
    ensures if o.RevokeFailed? then f.installed == e.installed else f.installed.Keys <= p.devices.Keys
  {
  }

  /** The runtime configuration is the generation, without its rate table, and with other
      credentials in its device outbounds only. */
  lemma RuntimeIsConfig(e: Egress, cfg: Config, ready: bool, draw: map<string, string>, o: Outcome, f: Egress)
    requires WellFormed(e) && AreSecrets(draw) && TransformStep(e, cfg, ready, draw, o, f) && o.Installed?
    ensures o.runtime == cfg.(outbounds := o.runtime.outbounds, rates := NoRates)
    ensures |o.runtime.outbounds| == |cfg.outbounds|
    ensures forall n | 0 <= n < |cfg.outbounds| && !IsDeclared(cfg.outbounds[n].tag) ::
              o.runtime.outbounds[n] == cfg.outbounds[n]
  {
    var p := Parse(cfg).value;
    AdmittedSecrets(e, cfg, p, draw, o, f);
    forall n | 0 <= n < |cfg.outbounds| && !IsDeclared(cfg.outbounds[n].tag)
      ensures o.runtime.outbounds[n] == cfg.outbounds[n]
    {
      DevicesAreOutbounds(cfg, n);
    }
  }

  /** A generation that does not parse, or whose listener is not up, authorizes nothing:
      no rate is known, nothing can be restored, and the server keeps at most what it
      refused to give up. */
  lemma RefusedClosesAll(e: Egress, cfg: Config, ready: bool, draw: map<string, string>, o: Outcome, f: Egress,
                         backup: Config)
    requires TransformStep(e, cfg, ready, draw, o, f) && (o.Rejected? || o.NotReady?)
    ensures f.authorized == None && f.managed == {} && f.limits == None && f.count == 0
    ensures f.installed == map[] || f.installed == e.installed
    ensures !Restorable(f, backup)
  {
  }

  // ----- Rollbacks only shrink -----

  /** f admits and manages no more than e. */
  ghost predicate Within(f: Egress, e: Egress) {
    && (f.authorized.Some? ==> e.authorized.Some? && f.authorized.value <= e.authorized.value)
    && (forall id | id in f.rates :: id in e.rates && f.rates[id] == e.rates[id])
    && f.managed <= e.managed
  }

  /** A rollback from e to f: the guard accepts a backup, which is then transformed. */
  ghost predicate RollbackStep(e: Egress, f: Egress) {
    exists backup, ready, draw, o :: Restorable(e, backup) && TransformStep(e, backup, ready, draw, o, f)
  }

  lemma TransformAuthorizes(e: Egress, cfg: Config, ready: bool, draw: map<string, string>, o: Outcome, f: Egress)
    requires TransformStep(e, cfg, ready, draw, o, f)
    ensures (f.authorized == None && f.rates == map[] && f.managed == {})
            || (Parse(cfg).Ok? && f.authorized == Some(Parse(cfg).value.identities)
                && f.rates == Parse(cfg).value.rates && f.managed == Parse(cfg).value.devices.Keys)
  {
  }

  lemma RollbackShrinks(e: Egress, f: Egress)
    requires RollbackStep(e, f)
    ensures Within(f, e)
  {
    var backup, ready, draw, o :| Restorable(e, backup) && TransformStep(e, backup, ready, draw, o, f);
    TransformAuthorizes(e, backup, ready, draw, o, f);
  }

  /** Along any chain of rollbacks between two control-plane generations the admitted
      identities, the known rates and the managed tags only shrink. */
  lemma {:induction false} RollbacksOnlyShrink(chain: seq<Egress>)
    requires |chain| > 0 && forall n | 0 <= n < |chain| - 1 :: RollbackStep(chain[n], chain[n + 1])
    ensures Within(chain[|chain| - 1], chain[0])
  {
    if |chain| > 1 {
      var shorter := chain[..|chain| - 1];
      RollbacksOnlyShrink(shorter);
      RollbackShrinks(chain[|chain| - 2], chain[|chain| - 1]);
    }
  }
}
