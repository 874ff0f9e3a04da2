/** Runs of TransformConfig in which the first setCredentials call of a generation offers a
    login that was never admitted, and configurations that can never be installed. The runs
    are for any configuration with one source-qualified device; SourceExample has some. */
module EgressExamples {
  import opened Base
  import opened Text
  import opened DeviceConfig
  import opened DeviceCheck
  import opened Router
  import opened DeviceEgress
  import opened EgressGuarantees
  import opened SourceExample

  /** The check accepts the configuration, with one device outbound, bound to this source and
      session token ("" for none). */
  ghost predicate OneDevice(cfg: Config, tag: string, a: Addr, token: string) {
    && Parse(cfg).Ok?
    && var p := Parse(cfg).value;
    && p.devices.Keys == {tag} && Lookup(p.sources, tag) == Some(a) && Token(p, tag) == token
  }

  lemma OneIsOneDevice(key: string, a: Addr, port: Option<string>, token: Option<string>)
    requires Declarable(key, a, port, token)
    ensures OneDevice(One(key, a, port, token), TagOf(key), a, token.GetOr(""))
  {
    OneParses(key, a, port, token);
    assert ParsedOne(key, a, port, token).devices.Keys == {TagOf(key)};
  }

  function Zeros(n: nat): (s: string)
    ensures |s| == n
  {
    seq(n, _ => '0')
  }

  function Draw(tag: string): (draw: map<string, string>)
    ensures AreSecrets(draw)
  {
    map[tag := Zeros(64)]
  }

  /** The server takes the first list, and refuses the second because it is closed by then. */
  lemma SecondCallFails(e: Egress, cfg: Config, draw: map<string, string>) returns (f: Egress)
    requires Parse(cfg).Ok? && Supplied(e, Parse(cfg).value, draw) && Takes(Kept(e, Parse(cfg).value))
    ensures TransformStep(e, cfg, true, draw, InstallFailed, f)
  {
    var p := Parse(cfg).value;
    f := AfterInstall(Pruned(e, p).(installed := Kept(e, p)), p, draw, InstallFailed);
  }

  /** An open server lets a generation in if it takes both lists. */
  lemma BothCallsSucceed(e: Egress, cfg: Config, draw: map<string, string>) returns (o: Outcome, f: Egress)
    requires Parse(cfg).Ok? && Supplied(e, Parse(cfg).value, draw) && Takes(Kept(e, Parse(cfg).value))
    requires var p := Parse(cfg).value; Takes(FinalList(p, AdmittedPasswords(e, p, draw), Pruned(e, p).tokens))
    ensures o.Installed? && TransformStep(e, cfg, true, draw, o, f)
  {
    var p := Parse(cfg).value;
    o := Installed(Materialize(cfg, AdmittedPasswords(e, p, draw)));
    f := AfterInstall(Pruned(e, p).(installed := Kept(e, p)), p, draw, o);
  }

  lemma NothingKept(p: Parsed)
    ensures Kept(NEW_EGRESS, p) == map[] && Takes(Kept(NEW_EGRESS, p))
  {
  }

  lemma NewPasswords(p: Parsed, tag: string)
    requires p.devices.Keys == {tag}
    ensures Supplied(NEW_EGRESS, p, Draw(tag)) && AdmittedPasswords(NEW_EGRESS, p, Draw(tag)) == Draw(tag)
  {
    assert Pruned(NEW_EGRESS, p).passwords == map[];
    assert AdmittedPasswords(NEW_EGRESS, p, Draw(tag)).Keys == {tag};
  }

  lemma OpenServerTakes(cfg: Config, tag: string, a: Addr, token: string, tokens: map<string, string>)
    requires OneDevice(cfg, tag, a, token) && a.IsUnicast()
    ensures Takes(FinalList(Parse(cfg).value, Draw(tag), tokens))
  {
    var p := Parse(cfg).value;
    InstallableExactly(cfg, Draw(tag), tokens);
    forall t | t in p.devices && t in p.sources ensures p.sources[t].IsUnicast() {
      assert t == tag;
    }
    forall s, t | s in p.devices && t in p.devices ensures s == t {
      assert s in p.devices.Keys && t in p.devices.Keys;
    }
  }

  /** A first generation with one unicast source is installed, under that very source. */
  lemma FirstInstall(cfg: Config, tag: string, a: Addr, token: string) returns (o: Outcome, f: Egress)
    requires OneDevice(cfg, tag, a, token) && a.IsUnicast()
    ensures o.Installed? && TransformStep(NEW_EGRESS, cfg, true, Draw(tag), o, f)
    ensures f.passwords == Draw(tag) && f.installed.Keys == {tag}
    ensures f.installed[tag].password == Zeros(64) && f.installed[tag].source == Some(a)
            && f.installed[tag].token == token
    ensures InSync(f) && OwnNames(f) && WellFormed(f)
  {
    var p := Parse(cfg).value;
    NothingKept(p);
    NewPasswords(p, tag);
    var tokens := Pruned(NEW_EGRESS, p).tokens;
    OpenServerTakes(cfg, tag, a, token, tokens);
    o, f := BothCallsSucceed(NEW_EGRESS, cfg, Draw(tag));
    FieldsAfter(NEW_EGRESS, cfg, p, Draw(tag), o, f);
    assert f.installed == FinalList(p, Draw(tag), tokens);
    FinalEntry(p, Draw(tag), tokens, tag);
    NamesStay(NEW_EGRESS, cfg, true, Draw(tag), o, f);
    SyncedAfterSuccess(p, f, tag);
  }

  /** A state in sync is not enough: when a kept tag moves to another source address, the
      first list offers a login for an address that was never admitted. */
  lemma RebindAdmitsFirst(cfg: Config, other: Config, tag: string, a: Addr, b: Addr) returns (o: Outcome, f: Egress)
    requires OneDevice(cfg, tag, a, "") && OneDevice(other, tag, b, "") && a.IsUnicast() && a != b
    ensures TransformStep(NEW_EGRESS, cfg, true, Draw(tag), o, f) && InSync(f)
    ensures !OnlyRevokes(f, Kept(f, Parse(other).value))
  {
    o, f := FirstInstall(cfg, tag, a, "");
    RevokesFirst(f, other);
    assert tag in f.passwords && tag in Parse(other).value.devices;
  }

  /** After the second list of a new device was refused, the next first list offers that
      device's login, though it was never admitted. */
  lemma RetryAdmitsFirst(cfg: Config, tag: string, a: Addr, token: string) returns (f: Egress)
    requires OneDevice(cfg, tag, a, token)
    ensures TransformStep(NEW_EGRESS, cfg, true, Draw(tag), InstallFailed, f) && f.installed == map[]
    ensures !OnlyRevokes(f, Kept(f, Parse(cfg).value))
  {
    var p := Parse(cfg).value;
    NothingKept(p);
    NewPasswords(p, tag);
    f := SecondCallFails(NEW_EGRESS, cfg, Draw(tag));
    FieldsAfter(NEW_EGRESS, cfg, p, Draw(tag), InstallFailed, f);
    assert tag in Kept(f, p);
  }

  /** The tag installed without a session token is kept by the generation that has one. */
  lemma KeptWhole(cfg: Config, tag: string, a: Addr, token: string, e: Egress)
    requires OneDevice(cfg, tag, a, token) && a.IsUnicast() && WellFormed(e) && OwnNames(e) && InSync(e)
    requires e.passwords == Draw(tag) && e.installed.Keys == {tag} && e.installed[tag].source == Some(a)
             && e.installed[tag].token == ""
    ensures var p := Parse(cfg).value; Supplied(e, p, map[]) && Takes(Kept(e, p))
  {
    var p := Parse(cfg).value;
    KeptEntry(e, cfg, tag);
    assert SyncedAt(e, tag);
    assert Kept(e, p).Keys == {tag} && Pruned(e, p).passwords.Keys == {tag};
    DevicesAreDeclared(cfg, tag);
    BindingsAreWellFormed(cfg, tag);
    assert TakesOne(Kept(e, p)[tag]);
  }

  /** So it is when a kept device got a session token in a generation whose second list was
      refused: its password is admitted, the login with that token is not. */
  lemma RetokenedAdmitsFirst(cfg: Config, other: Config, tag: string, a: Addr, token: string)
    returns (o: Outcome, e: Egress, f: Egress)
    requires OneDevice(cfg, tag, a, "") && OneDevice(other, tag, a, token) && token != "" && a.IsUnicast()
    ensures TransformStep(NEW_EGRESS, cfg, true, Draw(tag), o, e) && InSync(e)
    ensures TransformStep(e, other, true, map[], InstallFailed, f) && f.passwords.Keys <= f.installed.Keys
    ensures !OnlyRevokes(f, Kept(f, Parse(other).value))
  {
    o, e := FirstInstall(cfg, tag, a, "");
    KeptWhole(other, tag, a, token, e);
    f := SecondCallFails(e, other, map[]);
    StillOut(e, other, tag, a, token, f);
  }

  lemma OutOfSync(e: Egress, cfg: Config, tag: string, a: Addr, token: string, f: Egress)
    requires OneDevice(cfg, tag, a, token) && token != "" && WellFormed(e) && InSync(e)
    requires e.passwords == Draw(tag) && e.installed.Keys == {tag} && e.installed[tag].token == ""
    requires TransformStep(e, cfg, true, map[], InstallFailed, f)
    ensures f.passwords.Keys == f.installed.Keys == {tag} && !SyncedAt(f, tag)
  {
    var p := Parse(cfg).value;
    FieldsAfter(e, cfg, p, map[], InstallFailed, f);
    assert SyncedAt(e, tag) && !Unchanged(e, p, tag);
    assert tag in p.devices.Keys && Pruned(e, p).passwords.Keys == {tag};
    assert f.passwords.Keys == {tag};
    SyncedAfterFailure(e, p, map[], p.devices.Keys, f, tag);
  }

  lemma StillOut(e: Egress, cfg: Config, tag: string, a: Addr, token: string, f: Egress)
    requires OneDevice(cfg, tag, a, token) && token != "" && WellFormed(e) && OwnNames(e) && InSync(e)
    requires e.passwords == Draw(tag) && e.installed.Keys == {tag} && e.installed[tag].token == ""
    requires TransformStep(e, cfg, true, map[], InstallFailed, f)
    ensures f.passwords.Keys <= f.installed.Keys && !OnlyRevokes(f, Kept(f, Parse(cfg).value))
  {
    OutOfSync(e, cfg, tag, a, token, f);
    NamesStay(e, cfg, true, map[], InstallFailed, f);
    RevokesFirst(f, cfg);
    assert tag in f.passwords && tag in Parse(cfg).value.devices.Keys;
  }

  /** A source that is no unicast address is accepted by the check, and no call ever installs
      it. */
  lemma NeverInstalled(cfg: Config, tag: string, a: Addr, token: string, e: Egress, ready: bool,
                       draw: map<string, string>, o: Outcome, f: Egress)
    requires OneDevice(cfg, tag, a, token) && !a.IsUnicast() && WellFormed(e) && AreSecrets(draw)
    requires TransformStep(e, cfg, ready, draw, o, f)
    ensures !o.Installed?
  {
    var p := Parse(cfg).value;
    assert tag in p.devices.Keys && tag in p.sources;
    if Supplied(e, p, draw) {
      AdmittedPassword(e, p, draw, tag);
      NotTaken(p, AdmittedPasswords(e, p, draw), UpdatedTokens(Pruned(e, p).tokens, p, p.devices.Keys), tag);
    }
  }

  lemma NotTaken(p: Parsed, passwords: map<string, string>, tokens: map<string, string>, tag: string)
    requires tag in p.devices && tag in passwords && tag in p.sources && !p.sources[tag].IsUnicast()
    ensures !Takes(Credentialed(p, passwords, tokens))
  {
    assert !TakesOne(Credentialed(p, passwords, tokens)[tag]);
  }

  lemma PortOfText()
    ensures ExactPort("443") == Some(443)
  {
    assert Itoa(443) == "443" by {
      assert Digits(4) == "4" && Digits(44) == "44" && Digits(443) == "443";
    }
    AtoiItoa(443);
  }

  /** Such configurations exist: device "u" behind 192.0.2.1, then 192.0.2.2, or behind
      224.0.0.1. */
  lemma SourcesExist(key: string)
    requires IsSessionToken(key)
    ensures var a, b, m := Addr(0xc000_0201, false), Addr(0xc000_0202, false), Addr(0xe000_0001, false);
            && OneDevice(One(key, a, None, None), TagOf(key), a, "")
               && OneDevice(One(key, b, None, None), TagOf(key), b, "")
            && OneDevice(One(key, m, None, None), TagOf(key), m, "")
            && a != b && a.IsUnicast() && !m.IsUnicast()
  {
    OneIsOneDevice(key, Addr(0xc000_0201, false), None, None);
    OneIsOneDevice(key, Addr(0xc000_0202, false), None, None);
    OneIsOneDevice(key, Addr(0xe000_0001, false), None, None);
  }

  /** And the same device from port 443, without and then with a session token. */
  lemma SessionsExist(key: string)
    requires IsSessionToken(key)
    ensures var a := Addr(0xc000_0201, false);
            && OneDevice(One(key, a, Some("443"), None), TagOf(key), a, "")
            && OneDevice(One(key, a, Some("443"), Some(key)), TagOf(key), a, key)
            && a.IsUnicast() && key != ""
  {
    PortOfText();
    OneIsOneDevice(key, Addr(0xc000_0201, false), Some("443"), None);
    OneIsOneDevice(key, Addr(0xc000_0201, false), Some("443"), Some(key));
  }
}
