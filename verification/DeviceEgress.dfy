/** deviceEgress: the node-local credentials of a generation, and the guard that
    authorizes a rollback. */
module DeviceEgress {
  import opened Base
  import opened Sets
  import opened DeviceConfig
  import opened DeviceCheck
  import opened Router

  datatype Credential = Credential(uuid: string, password: string, source: Option<Addr>, token: string)

  /** A credential list, in no particular order: every entry under the outbound tag it
      is for. */
  type Credentials = map<string, Credential>

  datatype Egress = Egress(
    passwords: map<string, string>,      // outbound tag -> local SOCKS password
    tokens: map<string, string>,         // outbound tag -> session token
    authorized: Option<set<Identity>>,
    managed: set<string>,
    rates: map<string, int>,
    count: nat,
    limits: Option<map<string, int>>,    // what setRates was last given
    installed: Credentials)              // what the egress server admits

  datatype Outcome =
    | Rejected(error: ParseError)
    | NotReady
    | RevokeFailed
    | NoEntropy(done: set<string>)
    | InstallFailed
    | Installed(runtime: Config)

  function Lookup<V>(m: map<string, V>, k: string): Option<V> {
    if k in m then Some(m[k]) else None
  }

  function CredentialOf(p: Parsed, passwords: map<string, string>, tokens: map<string, string>, tag: string): Credential
    requires tag in p.devices && tag in passwords
  {
    Credential(p.devices[tag].id, passwords[tag], Lookup(p.sources, tag), Lookup(tokens, tag).GetOr(""))
  }

  /** What every call leaves: passwords of 64 hex digits, tokens only beside passwords. */
  ghost predicate WellFormed(e: Egress) { WellFormedSecrets(e.passwords, e.tokens) }

  ghost predicate WellFormedSecrets(passwords: map<string, string>, tokens: map<string, string>) {
    && (forall t | t in passwords :: |passwords[t]| == 64)
    && (forall t | t in tokens :: tokens[t] != "" && t in passwords)
  }

  // ----- What the egress server takes -----

  predicate TakesOne(c: Credential) {
    && 1 <= |c.uuid| <= 255 && 1 <= |c.password| <= 255
    && (c.source.Some? ==> c.source.value.IsUnicast() && !c.source.value.Is4In6())
    && (c.token != "" ==> IsSessionToken(c.token))
  }

  ghost predicate Takes(list: Credentials) {
    && (forall t | t in list :: TakesOne(list[t]))
    && NoDuplicates(list, list.Keys)
  }

  /** No two of the entries under these tags are the same login. */
  ghost predicate NoDuplicates(list: Credentials, tags: set<string>)
    requires tags <= list.Keys
  {
    forall s, t | s in tags && t in tags && s != t ::
        (list[s].uuid, list[s].password) != (list[t].uuid, list[t].password)
  }

  /** 32 random bytes in hex. */
  ghost predicate AreSecrets(draw: map<string, string>) {
    forall t | t in draw :: |draw[t]| == 64
  }

  // ----- The specification of TransformConfig -----

  /** Nothing is authorized any more; the server was told to admit nobody. */
  function Closed(e: Egress, cleared: bool): Egress {
    e.(authorized := None, managed := {}, rates := map[], count := 0, limits := None,
       installed := if cleared then map[] else e.installed)
  }

  /** The new generation is authorized and the secrets of dropped tags are forgotten. */
  function Pruned(e: Egress, p: Parsed): Egress {
    e.(limits := Some(p.rates), authorized := Some(p.identities), rates := p.rates, managed := p.devices.Keys,
       passwords := map t | t in e.passwords && t in p.devices :: e.passwords[t],
       tokens := map t | t in e.tokens && t in p.devices :: e.tokens[t])
  }

  /** The credentials of the tags that have a password. */
  function Credentialed(p: Parsed, passwords: map<string, string>, tokens: map<string, string>): Credentials {
    map t | t in p.devices && t in passwords :: CredentialOf(p, passwords, tokens, t)
  }

  /** The argument of the first, revoking setCredentials call. */
  function Kept(e: Egress, p: Parsed): Credentials {
    Credentialed(p, Pruned(e, p).passwords, Pruned(e, p).tokens)
  }

  /** After the tags in `done` have each kept their password or been given a new one. */
  function DrawnPasswords(passwords: map<string, string>, draw: map<string, string>,
                          done: set<string>): map<string, string> {
    passwords + (map t | t in done && t in draw && t !in passwords :: draw[t])
  }

  /** After the tags in `done` have been given the session tokens p has for them. */
  function UpdatedTokens(tokens: map<string, string>, p: Parsed, done: set<string>): map<string, string> {
    map t | t in tokens.Keys + done && (if t in done then Token(p, t) != "" else t in tokens) ::
      if t in done then Token(p, t) else tokens[t]
  }

  function Generated(e: Egress, p: Parsed, draw: map<string, string>, done: set<string>): Egress {
    e.(passwords := DrawnPasswords(e.passwords, draw, done), tokens := UpdatedTokens(e.tokens, p, done))
  }

  function Token(p: Parsed, tag: string): string { Lookup(p.tokens, tag).GetOr("") }

  function WithPassword(o: Outbound, password: string): Outbound {
    if |o.servers| > 0 && |o.servers[0].users| > 0 then
      var users := o.servers[0].users;
      o.(servers := o.servers[0 := o.servers[0].(users := users[0 := users[0].(pass := password)])])
    else o
  }

  /** The runtime form of an outbound: with its password, for a device outbound. */
  function MaterializedOutbound(o: Outbound, passwords: map<string, string>): Outbound {
    if o.tag in passwords then WithPassword(o, passwords[o.tag]) else o
  }

  function MaterializedAll(outs: seq<Outbound>, passwords: map<string, string>): (r: seq<Outbound>)
    ensures |r| == |outs|
    ensures forall n | 0 <= n < |outs| :: r[n] == MaterializedOutbound(outs[n], passwords)
  {
    if outs == [] then [] else [MaterializedOutbound(outs[0], passwords)] + MaterializedAll(outs[1..], passwords)
  }

  function Materialize(cfg: Config, passwords: map<string, string>): Config {
    cfg.(outbounds := MaterializedAll(cfg.outbounds, passwords), rates := NoRates)
  }

  /** What can come of admitting the new credentials, once the dropped ones are revoked. */
  ghost predicate CanEnd(e: Egress, cfg: Config, p: Parsed, draw: map<string, string>, o: Outcome) {
    var all := p.devices.Keys;
    match o
    case NoEntropy(done) =>
      && done < all && done <= e.passwords.Keys + draw.Keys
      && exists t | t in all - done :: t !in e.passwords && t !in draw
    case InstallFailed => all <= e.passwords.Keys + draw.Keys
    case Installed(runtime) =>
      && all <= e.passwords.Keys + draw.Keys
      && Takes(Credentialed(p, DrawnPasswords(e.passwords, draw, all), UpdatedTokens(e.tokens, p, all)))
      && runtime == Materialize(cfg, DrawnPasswords(e.passwords, draw, all))
    case _ => false
  }

  /** The state it leaves. */
  function AfterInstall(e: Egress, p: Parsed, draw: map<string, string>, o: Outcome): Egress {
    match o
    case NoEntropy(done) => Generated(e, p, draw, done).(count := 0)
    case Installed(_) =>
      var g := Generated(e, p, draw, p.devices.Keys);
      g.(count := |p.devices.Keys|, installed := Credentialed(p, g.passwords, g.tokens))
    case _ => Generated(e, p, draw, p.devices.Keys).(count := 0)
  }

  /** Serving a generation that parsed as p, from state e to state f: the dropped
      credentials are revoked before any new one is made. */
  ghost predicate AdmitStep(e: Egress, cfg: Config, p: Parsed, draw: map<string, string>, o: Outcome, f: Egress) {
    if o == RevokeFailed then f == Pruned(e, p).(count := 0)
    else
      var q := Pruned(e, p).(installed := Kept(e, p));
      Takes(Kept(e, p)) && CanEnd(q, cfg, p, draw, o) && f == AfterInstall(q, p, draw, o)
  }

  /** One call of TransformConfig, from state e to state f. */
  ghost predicate TransformStep(e: Egress, cfg: Config, ready: bool, draw: map<string, string>, o: Outcome, f: Egress) {
    match Parse(cfg)
    case Err(x) => o == Rejected(x) && (f == Closed(e, true) || f == Closed(e, false))
    case Ok(p) =>
      if p.devices != map[] && !ready then o == NotReady && (f == Closed(e, true) || f == Closed(e, false))
      else AdmitStep(e, cfg, p, draw, o, f)
  }

  // ----- The specification of CanRestore -----

  /** A backup may be restored: it parses, a generation is authorized, it names no
      identity and no rate the generation does not have, and manages the same tags. */
  ghost predicate Restorable(e: Egress, backup: Config) {
    && Parse(backup).Ok?
    && e.authorized.Some?
    && var p := Parse(backup).value;
    && p.identities <= e.authorized.value
    && (forall id | id in p.rates :: id in e.rates && e.rates[id] == p.rates[id])
    && p.devices.Keys == e.managed
  }

  datatype RestoreError =
    | Unparsable(error: ParseError) | NothingAuthorized | RevokedClient | ObsoleteRate | RevokedEgress | BypassesEgress

  // ----- The object -----

  class DeviceEgress {
    var passwords: map<string, string>
    var tokens: map<string, string>
    var authorized: Option<set<Identity>>
    var managed: set<string>
    var rates: map<string, int>
    var count: nat
    var limits: Option<map<string, int>>
    var installed: Credentials

    ghost function State(): Egress
      reads this
    {
      Egress(passwords, tokens, authorized, managed, rates, count, limits, installed)
    }

    constructor ()
      ensures State() == Egress(map[], map[], None, {}, map[], 0, None, map[])
    {
      passwords, tokens, authorized, managed := map[], map[], None, {};
      rates, count, limits, installed := map[], 0, None, map[];
    }

    /** The egress server takes a whole acceptable list, unless it is closed, or changes
        nothing. */
    method SetCredentials(credentials: Credentials) returns (ok: bool)
      modifies `installed
      ensures installed == if ok then credentials else old(installed)
      ensures ok ==> Takes(credentials)
    {
      var done: set<string> := {};
      var next: set<(string, string)> := {};
      while credentials.Keys - done != {}
        invariant done <= credentials.Keys && forall t | t in done :: TakesOne(credentials[t])
        invariant next == (set t | t in done :: (credentials[t].uuid, credentials[t].password))
        invariant NoDuplicates(credentials, done)
      {
        var t :| t in credentials.Keys - done;
        var c := credentials[t];
        if !TakesOne(c) || (c.uuid, c.password) in next {
          return false;
        }
        next := next + {(c.uuid, c.password)};
        done := done + {t};
      }
      NothingLeft(credentials.Keys, done);
      var closed := *;
      if closed {
        return false;
      }
      installed := credentials;
      return true;
    }

    method Close()
      modifies this
      ensures State() == Closed(old(State()), true) || State() == Closed(old(State()), false)
    {
      authorized, managed, rates, count, limits := None, {}, map[], 0, None;
      var cleared := SetCredentials(map[]);
    }

    method Prune(p: Parsed)
      requires WellFormed(State())
      modifies `passwords, `tokens
      ensures passwords == (map t | t in old(passwords) && t in p.devices :: old(passwords)[t])
      ensures tokens == (map t | t in old(tokens) && t in p.devices :: old(tokens)[t])
    {
      var todo := passwords.Keys;
      while todo != {}
        invariant todo <= passwords.Keys
        invariant passwords.Keys == todo + old(passwords).Keys * p.devices.Keys
        invariant forall t | t in passwords :: t in old(passwords) && passwords[t] == old(passwords)[t]
        invariant forall t | t in tokens :: t in old(tokens) && tokens[t] == old(tokens)[t]
        invariant forall t | t in old(tokens) :: t in tokens <==> t in passwords
      {
        var id :| id in todo;
        todo := todo - {id};
        if id !in p.devices {
          passwords := passwords - {id};
          tokens := tokens - {id};
        }
      }
    }

    method CollectKept(p: Parsed) returns (kept: Credentials)
      requires passwords.Keys <= p.devices.Keys
      ensures kept == Credentialed(p, passwords, tokens)
    {
      kept := map[];
      var todo := passwords.Keys;
      while todo != {}
        invariant todo <= passwords.Keys && kept.Keys == passwords.Keys - todo
        invariant forall t | t in kept :: kept[t] == CredentialOf(p, passwords, tokens, t)
      {
        var id :| id in todo;
        todo := todo - {id};
        kept := kept[id := CredentialOf(p, passwords, tokens, id)];
      }
    }

    /** One device keeps its password or is given a new one, and takes its session token. */
    method Secure(p: Parsed, draw: map<string, string>, id: string,
                  ghost passwords0: map<string, string>, ghost tokens0: map<string, string>, ghost done: set<string>)
      returns (c: Credential)
      requires id in p.devices && (id in passwords || id in draw) && id !in done
      requires passwords == DrawnPasswords(passwords0, draw, done) && tokens == UpdatedTokens(tokens0, p, done)
      requires forall t | t in tokens0 :: tokens0[t] != ""
      modifies `passwords, `tokens
      ensures passwords == DrawnPasswords(passwords0, draw, done + {id})
              && tokens == UpdatedTokens(tokens0, p, done + {id})
      ensures id in passwords && c == CredentialOf(p, passwords, tokens, id)
      ensures forall t | t != id ::
               Lookup(passwords, t) == Lookup(old(passwords), t)
               && Lookup(tokens, t) == Lookup(old(tokens), t)
    {
      MorePasswords(passwords0, draw, done, id);
      MoreTokens(tokens0, p, done, id);
      if id !in passwords {
        passwords := passwords[id := draw[id]];
      }
      var token := Token(p, id);
      if token != Lookup(tokens, id).GetOr("") {
        tokens := if token == "" then tokens - {id} else tokens[id := token];
      }
      c := CredentialOf(p, passwords, tokens, id);
    }

    /** Serves one more device: its secrets, its credential, its runtime outbound. */
    method ServeDevice(outs: seq<Outbound>, p: Parsed, draw: map<string, string>, id: string, all: Credentials,
                       outbounds: seq<Outbound>, ghost passwords0: map<string, string>,
                       ghost tokens0: map<string, string>, ghost done: set<string>)
      returns (all': Credentials, outbounds': seq<Outbound>)
      requires id in p.devices && (id in passwords || id in draw) && id !in done && DeclaredIn(outs, p.devices)
      requires passwords == DrawnPasswords(passwords0, draw, done) && tokens == UpdatedTokens(tokens0, p, done)
      requires forall t | t in tokens0 :: tokens0[t] != ""
      requires Served(outs, p, passwords, tokens, done, all, outbounds)
      modifies `passwords, `tokens
      ensures passwords == DrawnPasswords(passwords0, draw, done + {id})
              && tokens == UpdatedTokens(tokens0, p, done + {id})
      ensures passwords.Keys == old(passwords).Keys + {id}
      ensures Served(outs, p, passwords, tokens, done + {id}, all', outbounds')
    {
      ghost var passwords1, tokens1 := passwords, tokens;
      var c := Secure(p, draw, id, passwords0, tokens0, done);
      ServeOne(outs, p, passwords1, tokens1, passwords, tokens, done, all, outbounds, id);
      all' := all[id := c];
      outbounds' := outbounds[p.devices[id].index := MaterializedOutbound(outs[p.devices[id].index], passwords)];
    }

    /** Gives every declared device its secrets, collecting the credentials and the
        runtime outbounds; the result tells the devices served when entropy ran out. */
    method Generate(outs: seq<Outbound>, p: Parsed, draw: map<string, string>)
      returns (failed: Option<set<string>>, all: Credentials, outbounds: seq<Outbound>)
      requires DeclaredIn(outs, p.devices) && WellFormed(State()) && passwords.Keys <= p.devices.Keys
      modifies `passwords, `tokens
      ensures var done := if failed.Some? then failed.value else p.devices.Keys;
              && State() == Generated(old(State()), p, draw, done)
              && done <= old(passwords).Keys + draw.Keys
      ensures failed.Some? ==> failed.value < p.devices.Keys
                               && exists t | t in p.devices.Keys - failed.value :: t !in old(passwords) && t !in draw
      ensures failed == None ==>
                all == Credentialed(p, passwords, tokens)
                && outbounds == MaterializedAll(outs, passwords)
    {
      all, outbounds, failed := map[], outs, None;
      var done: set<string> := {};
      ServedNone(outs, p, passwords, tokens);
      while p.devices.Keys - done != {}
        invariant done <= p.devices.Keys && done <= old(passwords).Keys + draw.Keys && passwords.Keys <= p.devices.Keys
        invariant passwords == DrawnPasswords(old(passwords), draw, done)
                  && tokens == UpdatedTokens(old(tokens), p, done)
        invariant Served(outs, p, passwords, tokens, done, all, outbounds)
      {
        var id :| id in p.devices.Keys - done;
        if id !in passwords && id !in draw {
          failed := Some(done);
          return;
        }
        all, outbounds := ServeDevice(outs, p, draw, id, all, outbounds, old(passwords), old(tokens), done);
        done := done + {id};
      }
      NothingLeft(p.devices.Keys, done);
      ServedAll(outs, p, passwords, tokens, all, outbounds);
    }

    method Install(cfg: Config, p: Parsed, draw: map<string, string>) returns (o: Outcome)
      requires WellFormed(State()) && DeclaredIn(cfg.outbounds, p.devices) && passwords.Keys <= p.devices.Keys
      modifies this
      ensures CanEnd(old(State()), cfg, p, draw, o)
      ensures State() == AfterInstall(old(State()), p, draw, o)
    {
      var failed, all, outbounds := Generate(cfg.outbounds, p, draw);
      ghost var done := if failed.Some? then failed.value else p.devices.Keys;
      if failed.Some? {
        count := 0;
        return NoEntropy(failed.value);
      }
      DrawnKeys(old(passwords), draw, done);
      var admitted := Deploy(all);
      if !admitted {
        return InstallFailed;
      }
      assert all.Keys == p.devices.Keys;
      return Installed(cfg.(outbounds := outbounds, rates := NoRates));
    }

    method Deploy(all: Credentials) returns (admitted: bool)
      modifies `installed, `count
      ensures admitted ==> Takes(all)
      ensures State() == if admitted then old(State()).(installed := all, count := |all.Keys|)
              else old(State()).(count := 0)
    {
      admitted := SetCredentials(all);
      if admitted {
        assert |all| == |all.Keys|;
        count := |all|;
      } else {
        count := 0;
      }
    }

    method Admit(cfg: Config, p: Parsed, draw: map<string, string>) returns (o: Outcome)
      requires WellFormed(State()) && DeclaredIn(cfg.outbounds, p.devices)
      modifies this
      ensures AdmitStep(old(State()), cfg, p, draw, o, State())
    {
      ghost var e := State();
      limits, authorized, rates, managed := Some(p.rates), Some(p.identities), p.rates, p.devices.Keys;
      Prune(p);
      assert State() == Pruned(e, p);
      var kept := CollectKept(p);
      var revoked := SetCredentials(kept);
      if !revoked {
        count := 0;
        return RevokeFailed;
      }
      o := Install(cfg, p, draw);
    }

    method TransformConfig(cfg: Config, ready: bool, draw: map<string, string>) returns (o: Outcome)
      requires WellFormed(State()) && AreSecrets(draw)
      modifies this
      ensures WellFormed(State())
      ensures TransformStep(old(State()), cfg, ready, draw, o, State())
    {
      var parsed := ParseDeviceConfig(cfg);
      if parsed.Err? {
        Close();
        return Rejected(parsed.error);
      }
      var p := parsed.value;
      if p.devices != map[] && !ready {
        Close();
        return NotReady;
      }
      ParsedIsDeclared(cfg);
      ghost var e := State();
      o := Admit(cfg, p, draw);
      AdmitWellFormed(e, cfg, p, draw, o, State());
    }

    method CanRestore(backup: Config) returns (r: Option<RestoreError>)
      ensures r == None <==> Restorable(State(), backup)
    {
      var parsed := ParseDeviceConfig(backup);
      if parsed.Err? {
        return Some(Unparsable(parsed.error));
      }
      var p := parsed.value;
      if authorized == None {
        return Some(NothingAuthorized);
      }
      var ids := p.identities;
      while ids != {}
        invariant ids <= p.identities && p.identities - ids <= authorized.value
      {
        var id :| id in ids;
        if id !in authorized.value {
          return Some(RevokedClient);
        }
        ids := ids - {id};
      }
      var devs := p.rates.Keys;
      while devs != {}
        invariant devs <= p.rates.Keys
        invariant forall id | id in p.rates && id !in devs :: id in rates && rates[id] == p.rates[id]
      {
        var id :| id in devs;
        if id !in rates || rates[id] != p.rates[id] {
          return Some(ObsoleteRate);
        }
        devs := devs - {id};
      }
      var tags := p.devices.Keys;
      while tags != {}
        invariant tags <= p.devices.Keys && p.devices.Keys - tags <= managed
      {
        var tag :| tag in tags;
        if tag !in managed {
          return Some(RevokedEgress);
        }
        tags := tags - {tag};
      }
      if managed != {} {
        tags := managed;
        while tags != {}
          invariant tags <= managed && managed - tags <= p.devices.Keys
        {
          var tag :| tag in tags;
          if tag !in p.devices {
            return Some(BypassesEgress);
          }
          tags := tags - {tag};
        }
      }
      return None;
    }
  }

  lemma DrawnKeys(passwords: map<string, string>, draw: map<string, string>, done: set<string>)
    requires done <= passwords.Keys + draw.Keys
    ensures DrawnPasswords(passwords, draw, done).Keys == passwords.Keys + done
  {
  }

  lemma GeneratedWellFormed(e: Egress, p: Parsed, draw: map<string, string>, done: set<string>)
    requires WellFormed(e) && AreSecrets(draw) && done <= e.passwords.Keys + draw.Keys
    ensures WellFormed(Generated(e, p, draw, done))
  {
    var passwords := DrawnPasswords(e.passwords, draw, done);
    DrawnKeys(e.passwords, draw, done);
    forall t | t in passwords ensures |passwords[t]| == 64 {
      assert t !in e.passwords ==> |draw[t]| == 64;
    }
  }

  lemma AdmitWellFormed(e: Egress, cfg: Config, p: Parsed, draw: map<string, string>, o: Outcome, f: Egress)
    requires WellFormed(e) && AreSecrets(draw) && AdmitStep(e, cfg, p, draw, o, f)
    ensures WellFormed(f)
  {
    var q := Pruned(e, p).(installed := Kept(e, p));
    match o
    case NoEntropy(done) => GeneratedWellFormed(q, p, draw, done);
    case InstallFailed => GeneratedWellFormed(q, p, draw, p.devices.Keys);
    case Installed(_) => GeneratedWellFormed(q, p, draw, p.devices.Keys);
    case _ =>
  }

  lemma ServedNone(outs: seq<Outbound>, p: Parsed, passwords: map<string, string>, tokens: map<string, string>)
    ensures Served(outs, p, passwords, tokens, {}, map[], outs)
    ensures forall draw :: DrawnPasswords(passwords, draw, {}) == passwords
    ensures UpdatedTokens(tokens, p, {}) == tokens
  {
  }

  function Restrict(m: map<string, string>, keys: set<string>): map<string, string> {
    map t | t in m && t in keys :: m[t]
  }

  function CredentialsFor(p: Parsed, passwords: map<string, string>, tokens: map<string, string>,
                          done: set<string>): Credentials {
    map t | t in done && t in p.devices && t in passwords :: CredentialOf(p, passwords, tokens, t)
  }

  /** The credentials and outbounds collected once the tags in `done` have been served. */
  ghost predicate Served(outs: seq<Outbound>, p: Parsed, passwords: map<string, string>, tokens: map<string, string>,
                         done: set<string>, all: Credentials, outbounds: seq<Outbound>)
  {
    && all == CredentialsFor(p, passwords, tokens, done)
    && outbounds == MaterializedAll(outs, Restrict(passwords, done))
  }

  lemma ServedAll(outs: seq<Outbound>, p: Parsed, passwords: map<string, string>, tokens: map<string, string>,
                  all: Credentials, outbounds: seq<Outbound>)
    requires Served(outs, p, passwords, tokens, p.devices.Keys, all, outbounds) && passwords.Keys <= p.devices.Keys
    ensures all == Credentialed(p, passwords, tokens) && outbounds == MaterializedAll(outs, passwords)
  {
    assert Restrict(passwords, p.devices.Keys) == passwords;
  }

  lemma ServeOne(outs: seq<Outbound>, p: Parsed, passwords1: map<string, string>, tokens1: map<string, string>,
                 passwords: map<string, string>, tokens: map<string, string>,
                 done: set<string>, all: Credentials, outbounds: seq<Outbound>, id: string)
    requires DeclaredIn(outs, p.devices) && id in p.devices && id !in done && id in passwords
    requires Served(outs, p, passwords1, tokens1, done, all, outbounds)
    requires forall t | t != id ::
              Lookup(passwords, t) == Lookup(passwords1, t)
              && Lookup(tokens, t) == Lookup(tokens1, t)
    ensures Served(outs, p, passwords, tokens, done + {id}, all[id := CredentialOf(p, passwords, tokens, id)],
                   outbounds[p.devices[id].index := MaterializedOutbound(outs[p.devices[id].index], passwords)])
  {
    CredentialOne(p, passwords1, tokens1, passwords, tokens, done, id);
    RestrictOne(passwords1, passwords, done, id);
    MaterializeOne(outs, p.devices, Restrict(passwords1, done), id, passwords);
  }

  lemma RestrictOne(passwords1: map<string, string>, passwords: map<string, string>, done: set<string>, id: string)
    requires id in passwords && forall t | t != id :: Lookup(passwords, t) == Lookup(passwords1, t)
    ensures Restrict(passwords, done + {id}) == Restrict(passwords1, done)[id := passwords[id]]
  {
    forall t
      ensures t != id ==> (t in passwords <==> t in passwords1) && (t in passwords ==> passwords[t] == passwords1[t])
    {
      assert t != id ==> Lookup(passwords, t) == Lookup(passwords1, t);
    }
  }

  lemma CredentialOne(p: Parsed, passwords1: map<string, string>, tokens1: map<string, string>,
                      passwords: map<string, string>, tokens: map<string, string>, done: set<string>, id: string)
    requires id in p.devices && id in passwords
    requires forall t | t != id ::
              Lookup(passwords, t) == Lookup(passwords1, t)
              && Lookup(tokens, t) == Lookup(tokens1, t)
    ensures CredentialsFor(p, passwords, tokens, done + {id}) ==
            CredentialsFor(p, passwords1, tokens1, done)[id := CredentialOf(p, passwords, tokens, id)]
  {
    forall t | t != id
      ensures t in passwords <==> t in passwords1
      ensures t in passwords && t in p.devices ==>
                CredentialOf(p, passwords, tokens, t) == CredentialOf(p, passwords1, tokens1, t)
    {
      assert Lookup(passwords, t) == Lookup(passwords1, t) && Lookup(tokens, t) == Lookup(tokens1, t);
    }
  }

  lemma MorePasswords(passwords: map<string, string>, draw: map<string, string>, done: set<string>, id: string)
    requires id in passwords || id in draw
    ensures var now := DrawnPasswords(passwords, draw, done);
            DrawnPasswords(passwords, draw, done + {id}) == now[id := if id in now then now[id] else draw[id]]
  {
  }

  lemma MoreTokens(tokens: map<string, string>, p: Parsed, done: set<string>, id: string)
    requires id !in done && forall t | t in tokens :: tokens[t] != ""
    ensures var now := UpdatedTokens(tokens, p, done);
            UpdatedTokens(tokens, p, done + {id}) ==
            (if Token(p, id) == Lookup(now, id).GetOr("") then now
             else if Token(p, id) == "" then now - {id} else now[id := Token(p, id)])
  {
  }

  /** Every device tag belongs to the one outbound at its index. */
  ghost predicate DeclaredIn(outs: seq<Outbound>, devices: map<string, Device>) {
    forall id | id in devices ::
      && devices[id].index < |outs|
      && forall k | 0 <= k < |outs| :: outs[k].tag == id <==> k == devices[id].index
  }

  lemma ParsedIsDeclared(cfg: Config)
    requires Parse(cfg).Ok?
    ensures DeclaredIn(cfg.outbounds, Parse(cfg).value.devices)
  {
    var devices := Parse(cfg).value.devices;
    forall id | id in devices
      ensures devices[id].index < |cfg.outbounds|
              && forall k | 0 <= k < |cfg.outbounds| :: cfg.outbounds[k].tag == id <==> k == devices[id].index
    {
      DevicesAreDeclared(cfg, id);
      forall k | 0 <= k < |cfg.outbounds| ensures cfg.outbounds[k].tag == id <==> k == devices[id].index {
        DevicesAreOutbounds(cfg, k);
      }
    }
  }

  /** Giving one more device its password changes that device's outbound and no other. */
  lemma MaterializeOne(outs: seq<Outbound>, devices: map<string, Device>, shown: map<string, string>, id: string,
                       passwords: map<string, string>)
    requires DeclaredIn(outs, devices) && id in devices && id in passwords && id !in shown
    ensures MaterializedAll(outs, shown)[devices[id].index := MaterializedOutbound(outs[devices[id].index], passwords)]
            == MaterializedAll(outs, shown[id := passwords[id]])
  {
    var n, more := devices[id].index, shown[id := passwords[id]];
    var left := MaterializedAll(outs, shown)[n := MaterializedOutbound(outs[n], passwords)];
    forall k | 0 <= k < |outs| ensures left[k] == MaterializedOutbound(outs[k], more) {
      assert outs[k].tag == id <==> k == n;
    }
  }
}
