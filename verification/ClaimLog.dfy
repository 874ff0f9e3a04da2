/** Logs of claims, and the facts the static check has gathered when it has made them. */
module ClaimLog {
  import opened DeviceConfig
  import opened DeviceCheck
  import opened Acceptance

  // ----- Logs of claims -----

  lemma ConsistentPrefix(a: seq<Claim>, b: seq<Claim>)
    requires Consistent(a + b)
    ensures Consistent(a)
  {
    forall m, n | 0 <= m < n < |a| && a[m].tag == a[n].tag
      ensures a[m].addr == a[n].addr && (a[m].port != 0 ==> a[n].port == a[m].port)
    {
      assert (a + b)[m] == a[m] && (a + b)[n] == a[n];
    }
  }

  lemma ApartPrefix(a: seq<Claim>, b: seq<Claim>)
    requires Apart(a + b)
    ensures Apart(a)
  {
    forall m, n | 0 <= m < n < |a| && a[m].addr == a[n].addr
      ensures a[m].port != 0 && a[n].port != 0 && a[m].port != a[n].port
    {
      assert (a + b)[m] == a[m] && (a + b)[n] == a[n];
    }
  }

  /** The bindings gathered so far are those of the log. */
  ghost predicate Binds(acc: Acc, log: seq<Claim>) {
    && acc.sources.Keys == acc.ports.Keys == ClaimedTags(log)
    && BindsSources(acc.sources, log) && BindsPorts(acc.ports, log) && BindsTokens(acc.tokens, log)
  }

  ghost predicate BindsSources(sources: map<string, Addr>, log: seq<Claim>) {
    forall n | 0 <= n < |log| :: log[n].tag in sources && sources[log[n].tag] == log[n].addr
  }

  ghost predicate BindsPorts(ports: map<string, int>, log: seq<Claim>) {
    && (forall n | 0 <= n < |log| :: log[n].tag in ports && (log[n].port != 0 ==> ports[log[n].tag] == log[n].port))
    && (forall t | t in ports && ports[t] != 0 :: exists n :: IsAt(log, n, t) && log[n].port == ports[t])
  }

  ghost predicate BindsTokens(tokens: map<string, string>, log: seq<Claim>) {
    && (forall t | t in tokens :: exists n :: IsAt(log, n, t) && log[n].token != "")
    && (forall n | 0 <= n < |log| && log[n].token != "" :: log[n].tag in tokens && tokens[log[n].tag] == log[n].token)
  }

  ghost predicate IsAt(log: seq<Claim>, n: int, tag: string) { 0 <= n < |log| && log[n].tag == tag }

  /** A session's token is its tag's key. */
  ghost predicate IsProper(c: Claim) {
    c.token == "" || (ParseLocalDeviceTag(c.tag).Some? && ParseLocalDeviceTag(c.tag).value.key == c.token)
  }

  ghost predicate AreProper(log: seq<Claim>) { forall c | c in log :: IsProper(c) }

  /** What a claim adds. */
  function WithClaim(acc: Acc, c: Claim): Acc {
    acc.(sources := acc.sources[c.tag := c.addr], ports := acc.ports[c.tag := c.port],
         tokens := WithToken(acc.tokens, c),
         matched := acc.matched + {c.tag})
  }

  /** It contradicts what is bound already. */
  predicate Contradicts(acc: Acc, c: Claim) {
    || (c.tag in acc.sources && acc.sources[c.tag] != c.addr)
    || (PortOf(acc.ports, c.tag) != 0 && PortOf(acc.ports, c.tag) != c.port)
  }

  lemma ClaimedMore(log: seq<Claim>, c: Claim)
    ensures ClaimedTags(log + [c]) == ClaimedTags(log) + {c.tag}
  {
    forall t ensures t in ClaimedTags(log + [c]) <==> t in ClaimedTags(log) + {c.tag} {
      if t == c.tag {
        assert c in log + [c];
      } else if t in ClaimedTags(log) {
        var d :| d in log && d.tag == t;
        assert d in log + [c];
      }
    }
  }

  lemma ClaimedAt(log: seq<Claim>, tag: string) returns (n: nat)
    requires tag in ClaimedTags(log)
    ensures IsAt(log, n, tag)
  {
    var c :| c in log && c.tag == tag;
    n :| 0 <= n < |log| && log[n] == c;
  }

  lemma ContradictionShows(acc: Acc, log: seq<Claim>, c: Claim)
    requires Binds(acc, log) && Contradicts(acc, c)
    ensures !Consistent(log + [c])
  {
    var more := log + [c];
    if c.tag in acc.sources && acc.sources[c.tag] != c.addr {
      var m := ClaimedAt(log, c.tag);
      assert more[m] == log[m] && more[|log|] == c;
    } else {
      var m :| IsAt(log, m, c.tag) && log[m].port == acc.ports[c.tag];
      assert more[m] == log[m] && more[|log|] == c;
    }
  }

  lemma AgreementStays(acc: Acc, log: seq<Claim>, c: Claim)
    requires Binds(acc, log) && Consistent(log) && !Contradicts(acc, c)
    ensures Consistent(log + [c])
  {
    var more := log + [c];
    forall m, n | 0 <= m < n < |more| && more[m].tag == more[n].tag
      ensures more[m].addr == more[n].addr && (more[m].port != 0 ==> more[n].port == more[m].port)
    {
      assert more[m] == log[m];
      if n < |log| {
        assert more[n] == log[n];
      }
    }
  }

  lemma SourceIsBound(sources: map<string, Addr>, log: seq<Claim>, c: Claim)
    requires BindsSources(sources, log) && (c.tag in sources ==> sources[c.tag] == c.addr)
    ensures BindsSources(sources[c.tag := c.addr], log + [c])
  {
  }

  lemma PortIsBound(ports: map<string, int>, log: seq<Claim>, c: Claim)
    requires BindsPorts(ports, log) && (PortOf(ports, c.tag) != 0 ==> PortOf(ports, c.tag) == c.port)
    ensures BindsPorts(ports[c.tag := c.port], log + [c])
  {
    var r, more := ports[c.tag := c.port], log + [c];
    forall t | t in r && r[t] != 0 ensures exists n :: IsAt(more, n, t) && more[n].port == r[t] {
      if t == c.tag {
        assert IsAt(more, |log|, t);
      } else {
        var n :| IsAt(log, n, t) && log[n].port == ports[t];
        assert IsAt(more, n, t);
      }
    }
  }

  function WithToken(tokens: map<string, string>, c: Claim): map<string, string> {
    if c.token == "" then tokens else tokens[c.tag := c.token]
  }

  lemma TokenIsBound(tokens: map<string, string>, log: seq<Claim>, c: Claim)
    requires BindsTokens(tokens, log) && (c.token != "" && c.tag in tokens ==> tokens[c.tag] == c.token)
    ensures BindsTokens(WithToken(tokens, c), log + [c])
  {
    var r, more := WithToken(tokens, c), log + [c];
    forall t | t in r ensures exists n :: IsAt(more, n, t) && more[n].token != "" {
      if t in tokens {
        var n :| IsAt(log, n, t) && log[n].token != "";
        assert IsAt(more, n, t);
      } else {
        assert IsAt(more, |log|, t);
      }
    }
  }

  /** A session's token is its tag's key, so it never conflicts. */
  lemma TokenAgrees(tokens: map<string, string>, log: seq<Claim>, c: Claim)
    requires BindsTokens(tokens, log) && AreProper(log) && IsProper(c)
    ensures c.token != "" && c.tag in tokens ==> tokens[c.tag] == c.token
  {
    if c.token != "" && c.tag in tokens {
      var n :| IsAt(log, n, c.tag) && log[n].token != "";
      assert log[n] in log;
    }
  }

  lemma ClaimIsBound(acc: Acc, log: seq<Claim>, c: Claim)
    requires Binds(acc, log) && !Contradicts(acc, c) && AreProper(log) && IsProper(c)
    ensures Binds(WithClaim(acc, c), log + [c]) && AreProper(log + [c])
  {
    ClaimedMore(log, c);
    assert acc.sources[c.tag := c.addr].Keys == acc.sources.Keys + {c.tag};
    assert acc.ports[c.tag := c.port].Keys == acc.ports.Keys + {c.tag};
    SourceIsBound(acc.sources, log, c);
    PortIsBound(acc.ports, log, c);
    TokenAgrees(acc.tokens, log, c);
    TokenIsBound(acc.tokens, log, c);
  }

  /** The ports seen on each address are those claimed by this client. */
  ghost predicate Saw(seen: map<Addr, set<int>>, mine: seq<Claim>) {
    && (forall n | 0 <= n < |mine| :: mine[n].port in PortsAt(seen, mine[n].addr))
    && (forall a, p | p in PortsAt(seen, a) :: exists n :: Claims(mine, n, a, p))
  }

  ghost predicate Claims(cs: seq<Claim>, n: int, a: Addr, p: int) {
    0 <= n < |cs| && cs[n].addr == a && cs[n].port == p
  }

  lemma SomeMember<T>(s: set<T>) returns (x: T)
    requires s != {}
    ensures x in s
  {
    x :| x in s;
  }

  lemma OverlapsExactly(seen: map<Addr, set<int>>, mine: seq<Claim>, c: Claim)
    requires Saw(seen, mine) && Apart(mine)
    ensures Apart(mine + [c]) <==> !Overlaps(seen, c.addr, c.port)
  {
    var more := mine + [c];
    if Overlaps(seen, c.addr, c.port) {
      var p := 0;
      if c.port in PortsAt(seen, c.addr) {
        p := c.port;
      } else if c.port == 0 {
        p := SomeMember(PortsAt(seen, c.addr));
      }
      assert p in PortsAt(seen, c.addr);
      var m :| Claims(mine, m, c.addr, p);
      assert more[m] == mine[m] && more[|mine|] == c;
    } else {
      forall m, n | 0 <= m < n < |more| && more[m].addr == more[n].addr
        ensures more[m].port != 0 && more[n].port != 0 && more[m].port != more[n].port
      {
        assert more[m] == mine[m] && mine[m].port in PortsAt(seen, mine[m].addr);
        if n < |mine| {
          assert more[n] == mine[n];
        }
      }
    }
  }

  lemma SeesOneMore(seen: map<Addr, set<int>>, mine: seq<Claim>, c: Claim)
    requires Saw(seen, mine)
    ensures Saw(seen[c.addr := PortsAt(seen, c.addr) + {c.port}], mine + [c])
  {
    var r, more := seen[c.addr := PortsAt(seen, c.addr) + {c.port}], mine + [c];
    forall a, p | p in PortsAt(r, a) ensures exists n :: Claims(more, n, a, p) {
      if a == c.addr && p == c.port {
        assert Claims(more, |mine|, a, p);
      } else {
        assert p in PortsAt(seen, a);
        var n :| Claims(mine, n, a, p);
        assert Claims(more, n, a, p);
      }
    }
  }
}
