/** The canonical form behind a policy fingerprint: two policies share it exactly when they
    differ in the order of rules and relay addresses only (pkg/nodeprov/fingerprint.go). */
module Fingerprint {
  import opened Sorting

  datatype RelayRule = RelayRule(entryPort: int, transport: string, exitIP: string, exitPort: int)

  datatype ExitRule = ExitRule(exitPort: int, transport: string, relayIPs: seq<string>)

  /** An exit rule as callers hold it: the relay addresses are a slice of theirs. */
  datatype SharedExitRule = SharedExitRule(exitPort: int, transport: string, relayIPs: array<string>)

  /** What is marshalled and hashed. */
  datatype Canonical = Canonical(role: string, relay: seq<RelayRule>, exit: seq<ExitRule>)

  // ----- Orders -----

  /** Strings compare byte by byte. */
  predicate StringLe(a: string, b: string) {
    a == "" || (b != "" && (a[0] < b[0] || (a[0] == b[0] && StringLe(a[1..], b[1..]))))
  }

  lemma {:induction false} StringTotal(a: string, b: string)
    ensures StringLe(a, b) || StringLe(b, a)
    ensures StringLe(a, b) && StringLe(b, a) ==> a == b
  {
    if a != "" && b != "" && a[0] == b[0] {
      StringTotal(a[1..], b[1..]);
      assert a == [a[0]] + a[1..] && b == [b[0]] + b[1..];
    }
  }

  lemma {:induction false} StringTransitive(a: string, b: string, c: string)
    requires StringLe(a, b) && StringLe(b, c)
    ensures StringLe(a, c)
  {
    if a != "" && a[0] == b[0] == c[0] {
      StringTransitive(a[1..], b[1..], c[1..]);
    }
  }

  lemma StringOrder()
    ensures TotalPreorder(StringLe)
    ensures forall a, b | StringLe(a, b) && StringLe(b, a) :: a == b
  {
    forall a, b ensures StringLe(a, b) || StringLe(b, a) {
      StringTotal(a, b);
    }
    forall a, b, c | StringLe(a, b) && StringLe(b, c) ensures StringLe(a, c) {
      StringTransitive(a, b, c);
    }
    forall a, b | StringLe(a, b) && StringLe(b, a) ensures a == b {
      StringTotal(a, b);
    }
  }

  predicate KeyLe(port: int, transport: string, port': int, transport': string) {
    port < port' || (port == port' && StringLe(transport, transport'))
  }

  predicate RelayLe(a: RelayRule, b: RelayRule) { KeyLe(a.entryPort, a.transport, b.entryPort, b.transport) }

  predicate ExitLe(a: ExitRule, b: ExitRule) { KeyLe(a.exitPort, a.transport, b.exitPort, b.transport) }

  lemma RuleOrders()
    ensures TotalPreorder(RelayLe) && TotalPreorder(ExitLe)
  {
    StringOrder();
  }

  // ----- The canonical form -----

  function SortedIPs(rule: ExitRule): ExitRule {
    StringOrder();
    rule.(relayIPs := SortSeq(rule.relayIPs, StringLe))
  }

  function Mapped<T, U>(f: T -> U, s: seq<T>): (r: seq<U>)
    ensures |r| == |s| && forall n | 0 <= n < |r| :: r[n] == f(s[n])
  {
    seq(|s|, n requires 0 <= n < |s| => f(s[n]))
  }

  /** A canonical form of a policy: rules sorted by port and transport, addresses sorted. */
  ghost predicate CanonicalOf(role: string, relay: seq<RelayRule>, exit: seq<ExitRule>, f: Canonical) {
    && f.role == role
    && Sorted(f.relay, RelayLe) && multiset(f.relay) == multiset(relay)
    && Sorted(f.exit, ExitLe) && multiset(f.exit) == multiset(Mapped(SortedIPs, exit))
  }

  function ValueOf(r: SharedExitRule): ExitRule
    reads r.relayIPs
  {
    ExitRule(r.exitPort, r.transport, r.relayIPs[..])
  }

  ghost function ValuesOf(rules: seq<SharedExitRule>): (r: seq<ExitRule>)
    reads set e | e in rules :: e.relayIPs
    ensures |r| == |rules| && forall n | 0 <= n < |r| :: r[n] == ValueOf(rules[n])
  {
    if rules == [] then [] else [ValueOf(rules[0])] + ValuesOf(rules[1..])
  }

  method SortedAddresses(ips: array<string>) returns (sorted: seq<string>)
    ensures TotalPreorder(StringLe) && sorted == SortSeq(ips[..], StringLe)
  {
    StringOrder();
    var copied := new string[ips.Length](i requires 0 <= i < ips.Length reads ips => ips[i]);
    assert copied[..] == ips[..];
    SortInPlace(copied, StringLe);
    SortedForgetsOrder(ips[..], copied[..], ips[..], SortSeq(ips[..], StringLe), StringLe);
    return copied[..];
  }

  method SortedRelay(relay: array<RelayRule>) returns (sorted: seq<RelayRule>)
    ensures Sorted(sorted, RelayLe) && multiset(sorted) == multiset(relay[..])
  {
    RuleOrders();
    var copied := new RelayRule[relay.Length](i requires 0 <= i < relay.Length reads relay => relay[i]);
    assert copied[..] == relay[..];
    SortInPlace(copied, RelayLe);
    return copied[..];
  }

  method SortedRule(r: SharedExitRule, ghost value: ExitRule) returns (sorted: ExitRule)
    requires value == ValueOf(r)
    ensures sorted == SortedIPs(value)
  {
    var ips := SortedAddresses(r.relayIPs);
    return ExitRule(r.exitPort, r.transport, ips);
  }

  method FillOne(exit: array<SharedExitRule>, copied: array<ExitRule>, i: nat, ghost value: ExitRule,
                 ghost sorted: ExitRule)
    requires i < copied.Length == exit.Length && value == ValueOf(exit[i]) && sorted == SortedIPs(value)
    modifies copied
    ensures copied[i] == sorted && forall j | 0 <= j < copied.Length && j != i :: copied[j] == old(copied[j])
  {
    copied[i] := SortedRule(exit[i], value);
  }

  method FillExit(exit: array<SharedExitRule>, copied: array<ExitRule>, ghost given: seq<ExitRule>,
                  ghost sorted: seq<ExitRule>)
    requires copied.Length == exit.Length == |given| && forall j | 0 <= j < |given| :: given[j] == ValueOf(exit[j])
    requires sorted == Mapped(SortedIPs, given)
    modifies copied
    ensures copied[..] == sorted
  {
    var i := 0;
    while i < exit.Length
      invariant i <= exit.Length
      invariant forall j | 0 <= j < |given| :: given[j] == ValueOf(exit[j])
      invariant forall j | 0 <= j < i :: copied[j] == sorted[j]
    {
      FillOne(exit, copied, i, given[i], sorted[i]);
      i := i + 1;
    }
  }

  method CopyExit(exit: array<SharedExitRule>) returns (copied: array<ExitRule>)
    ensures fresh(copied) && copied[..] == Mapped(SortedIPs, ValuesOf(exit[..]))
  {
    copied := new ExitRule[exit.Length];
    ghost var given := ValuesOf(exit[..]);
    FillExit(exit, copied, given, Mapped(SortedIPs, given));
    assert ValuesOf(exit[..]) == given;
  }

  method SortedExit(exit: array<SharedExitRule>) returns (sorted: seq<ExitRule>)
    ensures Sorted(sorted, ExitLe) && multiset(sorted) == multiset(Mapped(SortedIPs, ValuesOf(exit[..])))
  {
    ghost var given := ValuesOf(exit[..]);
    var copied := CopyExit(exit);
    RuleOrders();
    SortInPlace(copied, ExitLe);
    assert ValuesOf(exit[..]) == given;
    return copied[..];
  }

  /** Modifies nothing: neither the rule slices nor the address slices inside the rules. */
  method PolicyCanonical(role: string, relay: array<RelayRule>, exit: array<SharedExitRule>) returns (f: Canonical)
    ensures CanonicalOf(role, relay[..], ValuesOf(exit[..]), f)
  {
    var relaySorted := SortedRelay(relay);
    var exitSorted := SortedExit(exit);
    return Canonical(role, relaySorted, exitSorted);
  }

  // ----- What the canonical form forgets -----

  /** An exit rule with its relay addresses in no particular order. */
  datatype LooseExitRule = LooseExitRule(exitPort: int, transport: string, relayIPs: multiset<string>)

  function Loose(r: ExitRule): LooseExitRule { LooseExitRule(r.exitPort, r.transport, multiset(r.relayIPs)) }

  /** The same rules up to the order of rules and of each exit rule's addresses. */
  ghost predicate SamePolicy(role: string, relay: seq<RelayRule>, exit: seq<ExitRule>,
                             role': string, relay': seq<RelayRule>, exit': seq<ExitRule>) {
    && role == role' && multiset(relay) == multiset(relay')
    && multiset(Mapped(Loose, exit)) == multiset(Mapped(Loose, exit'))
  }

  /** Rules of one kind with the same port and transport are one and the same rule. */
  ghost predicate OneRulePerKey(relay: seq<RelayRule>, exit: seq<ExitRule>) {
    && (forall x, y | x in relay && y in relay && x.entryPort == y.entryPort && x.transport == y.transport :: x == y)
    && (forall x, y | x in exit && y in exit && x.exitPort == y.exitPort && x.transport == y.transport ::
        Loose(x) == Loose(y))
  }

  lemma SortedAlike(x: ExitRule, y: ExitRule)
    ensures SortedIPs(x) == SortedIPs(y) <==> Loose(x) == Loose(y)
  {
    StringOrder();
    SortedForgetsOrder(x.relayIPs, SortSeq(x.relayIPs, StringLe), y.relayIPs, SortSeq(y.relayIPs, StringLe), StringLe);
  }

  function Without<T>(s: seq<T>, j: nat): seq<T>
    requires j < |s|
  {
    s[..j] + s[j + 1..]
  }

  lemma RemoveAt<T>(s: seq<T>, j: nat)
    requires j < |s|
    ensures multiset(s) == multiset(Without(s, j)) + multiset{s[j]}
  {
    assert s == s[..j] + [s[j]] + s[j + 1..];
  }

  lemma MappedWithout<T, U>(f: T -> U, s: seq<T>, j: nat)
    requires j < |s|
    ensures Mapped(f, Without(s, j)) == Without(Mapped(f, s), j)
  {
  }

  lemma Cancel<T>(a: multiset<T>, b: multiset<T>, x: T)
    ensures a + multiset{x} == b + multiset{x} <==> a == b
  {
    if a + multiset{x} == b + multiset{x} {
      assert a == (a + multiset{x}) - multiset{x} == (b + multiset{x}) - multiset{x} == b;
    }
  }

  /** Two maps that tell the same elements apart find the same lists alike. */
  lemma {:induction false} AlikeUnder(a: seq<ExitRule>, b: seq<ExitRule>)
    ensures multiset(Mapped(SortedIPs, a)) == multiset(Mapped(SortedIPs, b)) <==>
              multiset(Mapped(Loose, a)) == multiset(Mapped(Loose, b))
    decreases |a|
  {
    if j: nat :| a != [] && j < |b| && Loose(b[j]) == Loose(a[0]) {
      DropAlike(a, b, j);
      AlikeUnder(Without(a, 0), Without(b, j));
    } else {
      NothingAlike(a, b);
    }
  }

  lemma DropAlike(a: seq<ExitRule>, b: seq<ExitRule>, j: nat)
    requires a != [] && j < |b| && Loose(b[j]) == Loose(a[0])
    ensures multiset(Mapped(SortedIPs, a)) == multiset(Mapped(SortedIPs, b)) <==>
            multiset(Mapped(SortedIPs, Without(a, 0))) == multiset(Mapped(SortedIPs, Without(b, j)))
    ensures multiset(Mapped(Loose, a)) == multiset(Mapped(Loose, b)) <==>
            multiset(Mapped(Loose, Without(a, 0))) == multiset(Mapped(Loose, Without(b, j)))
  {
    SortedAlike(a[0], b[j]);
    DropBoth(SortedIPs, a, b, j);
    DropBoth(Loose, a, b, j);
  }

  lemma DropBoth<T, U>(f: T -> U, a: seq<T>, b: seq<T>, j: nat)
    requires a != [] && j < |b| && f(b[j]) == f(a[0])
    ensures multiset(Mapped(f, a)) == multiset(Mapped(f, b)) <==>
              multiset(Mapped(f, Without(a, 0))) == multiset(Mapped(f, Without(b, j)))
  {
    RemoveAt(Mapped(f, a), 0);
    RemoveAt(Mapped(f, b), j);
    MappedWithout(f, a, 0);
    MappedWithout(f, b, j);
    Cancel(multiset(Without(Mapped(f, a), 0)), multiset(Without(Mapped(f, b), j)), f(a[0]));
  }

  lemma NothingAlike(a: seq<ExitRule>, b: seq<ExitRule>)
    requires a == [] || forall j | 0 <= j < |b| :: Loose(b[j]) != Loose(a[0])
    ensures multiset(Mapped(SortedIPs, a)) == multiset(Mapped(SortedIPs, b)) <==>
              multiset(Mapped(Loose, a)) == multiset(Mapped(Loose, b))
  {
    forall j | a != [] && 0 <= j < |b| ensures SortedIPs(b[j]) != SortedIPs(a[0]) {
      SortedAlike(b[j], a[0]);
    }
    Unlike(SortedIPs, a, b);
    Unlike(Loose, a, b);
  }

  lemma Unlike<T, U>(f: T -> U, a: seq<T>, b: seq<T>)
    requires a == [] || forall j | 0 <= j < |b| :: f(b[j]) != f(a[0])
    ensures multiset(Mapped(f, a)) == multiset(Mapped(f, b)) <==> a == [] && b == []
  {
    assert |multiset(Mapped(f, a))| == |a| && |multiset(Mapped(f, b))| == |b|;
    if a != [] {
      assert f(a[0]) in multiset(Mapped(f, a)) by {
        assert Mapped(f, a)[0] in Mapped(f, a);
      }
      assert f(a[0]) !in Mapped(f, b);
      assert f(a[0]) !in multiset(Mapped(f, b));
    }
  }

  /** MAIN RESULT. Of two policies, the first without two rules for one key, the canonical
      forms are the same exactly when the roles agree, the relay rules are permutations of
      each other, and so are the exit rules up to the order of each rule's addresses. */
  lemma SameFormIsSamePolicy(role: string, relay: seq<RelayRule>, exit: seq<ExitRule>, f: Canonical,
                             role': string, relay': seq<RelayRule>, exit': seq<ExitRule>, f': Canonical)
    requires CanonicalOf(role, relay, exit, f) && CanonicalOf(role', relay', exit', f') && OneRulePerKey(relay, exit)
    ensures f == f' <==> SamePolicy(role, relay, exit, role', relay', exit')
  {
    RuleOrders();
    TellsApart(relay, exit);
    SortedForgetsOrder(relay, f.relay, relay', f'.relay, RelayLe);
    SortedForgetsOrder(Mapped(SortedIPs, exit), f.exit, Mapped(SortedIPs, exit'), f'.exit, ExitLe);
    AlikeUnder(exit, exit');
  }

  lemma KeyAntisymmetric(port: int, transport: string, port': int, transport': string)
    requires KeyLe(port, transport, port', transport') && KeyLe(port', transport', port, transport)
    ensures port == port' && transport == transport'
  {
    StringTotal(transport, transport');
  }

  lemma TellsApart(relay: seq<RelayRule>, exit: seq<ExitRule>)
    requires OneRulePerKey(relay, exit)
    ensures Distinguishes(RelayLe, relay) && Distinguishes(ExitLe, Mapped(SortedIPs, exit))
  {
    forall x, y | x in relay && y in relay && RelayLe(x, y) && RelayLe(y, x) ensures x == y {
      KeyAntisymmetric(x.entryPort, x.transport, y.entryPort, y.transport);
    }
    forall i, j | 0 <= i < |exit| && 0 <= j < |exit| && ExitLe(SortedIPs(exit[i]), SortedIPs(exit[j]))
        && ExitLe(SortedIPs(exit[j]), SortedIPs(exit[i]))
      ensures SortedIPs(exit[i]) == SortedIPs(exit[j])
    {
      KeyAntisymmetric(exit[i].exitPort, exit[i].transport, exit[j].exitPort, exit[j].transport);
      assert exit[i] in exit && exit[j] in exit;
      SortedAlike(exit[i], exit[j]);
    }
  }

  lemma SameKey(port: int, transport: string)
    ensures KeyLe(port, transport, port, transport)
  {
    StringTotal(transport, transport);
  }

  lemma SameKeySamePlace(relay: seq<RelayRule>, exit: seq<ExitRule>)
    requires Distinguishes(RelayLe, relay) && Distinguishes(ExitLe, Mapped(SortedIPs, exit))
    ensures OneRulePerKey(relay, exit)
  {
    forall x, y | x in relay && y in relay && x.entryPort == y.entryPort && x.transport == y.transport ensures x == y {
      SameKey(x.entryPort, x.transport);
    }
    var values := Mapped(SortedIPs, exit);
    forall x, y | x in exit && y in exit && x.exitPort == y.exitPort && x.transport == y.transport
      ensures Loose(x) == Loose(y)
    {
      SameKey(x.exitPort, x.transport);
      assert SortedIPs(x) in values && SortedIPs(y) in values by {
        var i := IndexOf(exit, x);
        var j := IndexOf(exit, y);
        assert values[i] == SortedIPs(x) && values[j] == SortedIPs(y);
      }
      assert ExitLe(SortedIPs(x), SortedIPs(y)) && ExitLe(SortedIPs(y), SortedIPs(x));
      SortedAlike(x, y);
    }
  }

  /** A policy has a single canonical form, whatever the sort does with equal keys, exactly
      when no two different rules share a key. */
  lemma FormIsUnique(role: string, relay: seq<RelayRule>, exit: seq<ExitRule>)
    ensures (forall f, g | CanonicalOf(role, relay, exit, f) && CanonicalOf(role, relay, exit, g) :: f == g)
            <==> OneRulePerKey(relay, exit)
  {
    RuleOrders();
    if OneRulePerKey(relay, exit) {
      forall f, g | CanonicalOf(role, relay, exit, f) && CanonicalOf(role, relay, exit, g) ensures f == g {
        SameFormIsSamePolicy(role, relay, exit, f, role, relay, exit, g);
      }
    } else {
      var f, g := TwoForms(role, relay, exit);
      assert CanonicalOf(role, relay, exit, f) && CanonicalOf(role, relay, exit, g);
    }
  }

  lemma TwoForms(role: string, relay: seq<RelayRule>, exit: seq<ExitRule>) returns (f: Canonical, g: Canonical)
    requires !OneRulePerKey(relay, exit)
    ensures f != g && CanonicalOf(role, relay, exit, f) && CanonicalOf(role, relay, exit, g)
  {
    RuleOrders();
    var values := Mapped(SortedIPs, exit);
    var u, v := SortSeq(relay, RelayLe), SortSeq(relay, RelayLe);
    var a, b := SortSeq(values, ExitLe), SortSeq(values, ExitLe);
    if !Distinguishes(RelayLe, relay) {
      u, v := TwoArrangements(relay, RelayLe);
    } else {
      if Distinguishes(ExitLe, values) {
        SameKeySamePlace(relay, exit);
        assert false;
      }
      a, b := TwoArrangements(values, ExitLe);
    }
    f, g := Canonical(role, u, a), Canonical(role, v, b);
  }
}
