/** Port specifications: validation, merging, and their text form
    (pkg/nodeprov/nodeprov.go). */
module Ports {
  import opened Base
  import opened Sorting

  /** One port, or an inclusive range. */
  datatype PortSpec = PortSpec(start: int, end: int)

  predicate ValidPort(p: int) { 1 <= p <= 65535 }

  predicate ValidSpec(s: PortSpec) { ValidPort(s.start) && ValidPort(s.end) && s.start <= s.end }

  predicate AllValid(specs: seq<PortSpec>) { forall s | s in specs :: ValidSpec(s) }

  predicate InSpec(p: int, s: PortSpec) { s.start <= p <= s.end }

  predicate Covers(specs: seq<PortSpec>, p: int) { exists s | s in specs :: InSpec(p, s) }

  ghost predicate SameCover(a: seq<PortSpec>, b: seq<PortSpec>) { forall p :: Covers(a, p) <==> Covers(b, p) }

  // ----- merge -----

  predicate SpecLe(a: PortSpec, b: PortSpec) {
    a.start < b.start || (a.start == b.start && a.end <= b.end)
  }

  lemma SpecOrder()
    ensures TotalPreorder(SpecLe)
  {
  }

  /** Takes one more spec in: it extends the last range, or starts a new one. */
  function Absorb(out: seq<PortSpec>, s: PortSpec): (r: seq<PortSpec>)
    requires out != []
    ensures r != []
  {
    var last := out[|out| - 1];
    if s.start <= last.end + 1 then
      if s.end > last.end then out[|out| - 1 := last.(end := s.end)] else out
    else out + [s]
  }

  function AbsorbFrom(out: seq<PortSpec>, sorted: seq<PortSpec>, i: nat): seq<PortSpec>
    requires out != [] && i <= |sorted|
    decreases |sorted| - i
  {
    if i == |sorted| then out else AbsorbFrom(Absorb(out, sorted[i]), sorted, i + 1)
  }

  function Coalesced(sorted: seq<PortSpec>): seq<PortSpec> {
    if sorted == [] then [] else AbsorbFrom([sorted[0]], sorted, 1)
  }

  function Merged(specs: seq<PortSpec>): seq<PortSpec> {
    SpecOrder();
    Coalesced(SortSeq(specs, SpecLe))
  }

  /** The specs are copied, and the copy is sorted. */
  method SortedCopy(specs: seq<PortSpec>) returns (sorted: array<PortSpec>)
    ensures TotalPreorder(SpecLe) && fresh(sorted) && sorted[..] == SortSeq(specs, SpecLe)
  {
    SpecOrder();
    sorted := new PortSpec[|specs|](i requires 0 <= i < |specs| => specs[i]);
    assert sorted[..] == specs;
    SortInPlace(sorted, SpecLe);
    SortedForgetsOrder(specs, sorted[..], specs, SortSeq(specs, SpecLe), SpecLe);
  }

  method Merge(specs: seq<PortSpec>) returns (out: seq<PortSpec>)
    ensures out == Merged(specs)
  {
    if specs == [] {
      return [];
    }
    var a := SortedCopy(specs);
    ghost var sorted := a[..];
    out := [a[0]];
    for i := 1 to a.Length
      invariant out != [] && AbsorbFrom(out, sorted, i) == Coalesced(sorted)
    {
      var last := out[|out| - 1];
      if a[i].start <= last.end + 1 {
        if a[i].end > last.end {
          out := out[|out| - 1 := last.(end := a[i].end)];
        }
      } else {
        out := out + [a[i]];
      }
    }
  }

  // ----- What merging gives -----

  /** Sorted ranges with at least one port between neighbours. */
  ghost predicate Gapped(specs: seq<PortSpec>) {
    && (forall i | 0 <= i < |specs| :: specs[i].start <= specs[i].end)
    && (forall i, j | 0 <= i < j < |specs| :: specs[i].end + 1 < specs[j].start)
  }

  /** What merging has kept so far, with a port's coverage by the specs still to come. */
  ghost predicate Sound(out: seq<PortSpec>, s: PortSpec, r: seq<PortSpec>) {
    && Gapped(r) && AllValid(r) && |r| <= |out| + 1 && r != [] && r[|r| - 1].start <= s.start
    && forall p :: Covers(r, p) <==> Covers(out, p) || InSpec(p, s)
  }

  lemma Replaced(out: seq<PortSpec>, last: PortSpec, p: int)
    requires out != []
    ensures Covers(out[|out| - 1 := last], p) <==> Covers(out[..|out| - 1], p) || InSpec(p, last)
  {
    var n, r := |out| - 1, out[|out| - 1 := last];
    if s :| s in out[..n] && InSpec(p, s) {
      var i :| 0 <= i < n && out[i] == s;
      assert r[i] == s;
    }
    assert r[n] == last;
    if s :| s in r && InSpec(p, s) {
      var i :| 0 <= i < |r| && r[i] == s;
      assert i == n || out[..n][i] == s;
    }
  }

  lemma AppendCovers(out: seq<PortSpec>, s: PortSpec, p: int)
    ensures Covers(out + [s], p) <==> Covers(out, p) || InSpec(p, s)
  {
    assert s in out + [s];
    if x :| x in out && InSpec(p, x) {
      assert x in out + [s];
    }
  }

  lemma TailCovers(specs: seq<PortSpec>, i: nat)
    requires i < |specs|
    ensures forall p :: Covers(specs[i..], p) <==> InSpec(p, specs[i]) || Covers(specs[i + 1..], p)
  {
    assert specs[i..] == [specs[i]] + specs[i + 1..];
    assert specs[i] in specs[i..];
  }

  lemma AbsorbIsSound(out: seq<PortSpec>, s: PortSpec)
    requires out != [] && Gapped(out) && AllValid(out) && ValidSpec(s) && out[|out| - 1].start <= s.start
    ensures Sound(out, s, Absorb(out, s))
  {
    var n := |out| - 1;
    var last := out[n];
    assert last in out;
    if s.start > last.end + 1 {
      assert forall i | 0 <= i < n :: out[i].end + 1 < out[n].start;
      forall p ensures Covers(out + [s], p) <==> Covers(out, p) || InSpec(p, s) {
        AppendCovers(out, s, p);
      }
    } else if s.end > last.end {
      var longer := last.(end := s.end);
      forall p ensures Covers(out[n := longer], p) <==> Covers(out, p) || InSpec(p, s) {
        Replaced(out, longer, p);
        Replaced(out, last, p);
        assert out[n := last] == out;
      }
    } else {
      forall p ensures InSpec(p, s) ==> Covers(out, p) {
        assert InSpec(p, s) ==> InSpec(p, last);
      }
    }
  }

  lemma {:induction false} AbsorbFromIsSound(out: seq<PortSpec>, sorted: seq<PortSpec>, i: nat)
    requires out != [] && i <= |sorted| && Gapped(out) && AllValid(out) && AllValid(sorted) && Sorted(sorted, SpecLe)
    requires i < |sorted| ==> out[|out| - 1].start <= sorted[i].start
    ensures var r := AbsorbFrom(out, sorted, i);
            && Gapped(r) && AllValid(r) && |r| <= |out| + |sorted| - i
            && forall p :: Covers(r, p) <==> Covers(out, p) || Covers(sorted[i..], p)
    decreases |sorted| - i
  {
    if i < |sorted| {
      AbsorbIsSound(out, sorted[i]);
      if i + 1 < |sorted| {
        assert SpecLe(sorted[i], sorted[i + 1]);
      }
      AbsorbFromIsSound(Absorb(out, sorted[i]), sorted, i + 1);
      TailCovers(sorted, i);
    }
  }

  lemma SortKeepsSpecs(specs: seq<PortSpec>)
    ensures TotalPreorder(SpecLe) && forall s :: s in SortSeq(specs, SpecLe) <==> s in specs
  {
    SpecOrder();
    SameElements(SortSeq(specs, SpecLe), specs);
  }

  /** MAIN RESULT. Merging valid specs gives sorted ranges with a gap between neighbours
      that cover exactly the same ports, in no more ranges than there were specs. */
  lemma MergedIsGapped(specs: seq<PortSpec>)
    requires AllValid(specs)
    ensures Gapped(Merged(specs)) && AllValid(Merged(specs)) && SameCover(Merged(specs), specs)
            && |Merged(specs)| <= |specs|
  {
    SortKeepsSpecs(specs);
    var sorted := SortSeq(specs, SpecLe);
    if sorted != [] {
      assert sorted[0] in sorted;
      AbsorbFromIsSound([sorted[0]], sorted, 1);
      TailCovers(sorted, 0);
      assert sorted[0..] == sorted;
      forall p ensures Covers(Merged(specs), p) <==> Covers(specs, p) {
        AppendCovers([], sorted[0], p);
      }
    }
  }

  // ----- Merged lists are canonical -----

  /** The first range starts at the least covered port and ends right before a gap. */
  lemma FirstPort(a: seq<PortSpec>)
    requires Gapped(a) && a != []
    ensures Covers(a, a[0].start) && !Covers(a, a[0].end + 1)
    ensures forall p | Covers(a, p) :: a[0].start <= p
  {
    assert a[0] in a && InSpec(a[0].start, a[0]);
    forall s | s in a ensures !InSpec(a[0].end + 1, s) && a[0].start <= s.start {
      var i :| 0 <= i < |a| && a[i] == s;
    }
  }

  lemma FirstAgrees(a: seq<PortSpec>, b: seq<PortSpec>)
    requires Gapped(a) && Gapped(b) && a != [] && b != [] && SameCover(a, b)
    ensures a[0].start == b[0].start && a[0].end <= b[0].end
  {
    FirstPort(a);
    FirstPort(b);
    assert Covers(b, a[0].start) && Covers(a, b[0].start);
    assert !Covers(a, b[0].end + 1) && a[0] in a;
    assert !InSpec(b[0].end + 1, a[0]);
  }

  lemma RestCovers(a: seq<PortSpec>, p: int)
    requires Gapped(a) && a != []
    ensures Covers(a[1..], p) <==> Covers(a, p) && p > a[0].end
  {
    if Covers(a[1..], p) {
      var s :| s in a[1..] && InSpec(p, s);
      var i :| 0 <= i < |a[1..]| && a[1..][i] == s;
      assert a[i + 1] == s && s in a;
    } else if Covers(a, p) {
      var s :| s in a && InSpec(p, s);
      assert s == a[0] || s in a[1..];
    }
  }

  lemma EmptyCovers(a: seq<PortSpec>)
    requires Gapped(a)
    ensures a == [] <==> forall p :: !Covers(a, p)
  {
    if a != [] {
      FirstPort(a);
    }
  }

  lemma RestAgrees(a: seq<PortSpec>, b: seq<PortSpec>)
    requires Gapped(a) && Gapped(b) && a != [] && b != [] && a[0] == b[0] && SameCover(a, b)
    ensures SameCover(a[1..], b[1..])
  {
    forall p ensures Covers(a[1..], p) <==> Covers(b[1..], p) {
      RestCovers(a, p);
      RestCovers(b, p);
    }
  }

  lemma HeadsAgree(a: seq<PortSpec>, b: seq<PortSpec>)
    requires Gapped(a) && Gapped(b) && SameCover(a, b)
    ensures a == [] <==> b == []
    ensures a != [] ==> a[0] == b[0]
  {
    EmptyCovers(a);
    EmptyCovers(b);
    if a != [] {
      FirstAgrees(a, b);
      FirstAgrees(b, a);
    }
  }

  lemma {:induction false} GappedIsCanonical(a: seq<PortSpec>, b: seq<PortSpec>)
    requires Gapped(a) && Gapped(b) && SameCover(a, b)
    ensures a == b
  {
    HeadsAgree(a, b);
    if a != [] {
      RestAgrees(a, b);
      GappedIsCanonical(a[1..], b[1..]);
      assert a == [a[0]] + a[1..] && b == [b[0]] + b[1..];
    }
  }

  /** MAIN RESULT. Two valid inputs merge to the same list exactly when they cover the same
      ports, and no list covering them is shorter than the merged one. */
  lemma MergedIsCanonical(a: seq<PortSpec>, b: seq<PortSpec>)
    requires AllValid(a) && AllValid(b)
    ensures Merged(a) == Merged(b) <==> SameCover(a, b)
    ensures SameCover(a, b) ==> |Merged(a)| <= |b|
  {
    MergedIsGapped(a);
    MergedIsGapped(b);
    if SameCover(a, b) {
      forall p ensures Covers(Merged(a), p) <==> Covers(Merged(b), p) {
        assert Covers(a, p) <==> Covers(b, p);
      }
      GappedIsCanonical(Merged(a), Merged(b));
    }
  }

  // ----- ResolvePorts -----

  datatype Role = ExitRole | RelayRole | BothRole | UnknownRole(name: string)

  datatype Preset = Standard | WebAlt | HighPort | Custom | UnknownPreset(name: string)

  datatype PortError =
    | UnknownNodeRole | UnknownFirewallPreset | BadServicePort | NoCustomPort | BadSpec | InvalidPort | InvalidRange

  const TIER_RANGE: PortSpec := PortSpec(20001, 22000)
  const RELAY_RANGE: PortSpec := PortSpec(23001, 24000)

  function PresetExtras(p: Preset): seq<PortSpec> {
    if p == WebAlt then [PortSpec(80, 80)] else []
  }

  /** The ports a node needs open: its service port, the speed tiers, and what its preset
      adds. Relay entry ports are not among them, whatever the role. */
  predicate Needed(preset: Preset, servicePort: int, custom: seq<PortSpec>, p: int) {
    || p == servicePort || InSpec(p, TIER_RANGE) || (preset == WebAlt && p == 80)
    || (preset == Custom && Covers(custom, p))
  }

  function SpecsFor(preset: Preset, servicePort: int, custom: seq<PortSpec>): seq<PortSpec> {
    [PortSpec(servicePort, servicePort), TIER_RANGE] + PresetExtras(preset) + (if preset == Custom then custom else [])
  }

  lemma NeededIsCovered(preset: Preset, servicePort: int, custom: seq<PortSpec>)
    requires ValidPort(servicePort) && (preset == Custom ==> AllValid(custom))
    ensures var specs := SpecsFor(preset, servicePort, custom);
            AllValid(specs) && forall p :: Covers(specs, p) <==> Needed(preset, servicePort, custom, p)
  {
    var specs := SpecsFor(preset, servicePort, custom);
    assert specs[0] in specs && specs[1] in specs;
    assert preset == WebAlt ==> specs[2] in specs;
    assert forall s :: s in specs <==>
             s == specs[0] || s == specs[1] || s in PresetExtras(preset) || (preset == Custom && s in custom);
    forall p ensures Covers(specs, p) <==> Needed(preset, servicePort, custom, p) {
      assert Covers(PresetExtras(preset), p) <==> preset == WebAlt && p == 80 by {
        assert preset == WebAlt ==> PresetExtras(preset)[0] in PresetExtras(preset);
      }
      if preset == Custom && Covers(custom, p) {
        var s :| s in custom && InSpec(p, s);
        assert s in specs;
      }
    }
  }

  method ValidateSpecs(specs: seq<PortSpec>) returns (ok: bool)
    ensures ok <==> AllValid(specs)
  {
    for i := 0 to |specs|
      invariant forall j | 0 <= j < i :: ValidSpec(specs[j])
    {
      if !ValidSpec(specs[i]) {
        return false;
      }
    }
    return true;
  }

  /** Succeeds exactly for a known role and preset and valid ports, and then opens exactly
      the needed ports, in merged form. */
  method ResolvePorts(role: Role, preset: Preset, servicePort: int, custom: seq<PortSpec>)
    returns (r: Result<seq<PortSpec>, PortError>)
    ensures r.Ok? <==> !role.UnknownRole? && !preset.UnknownPreset? && ValidPort(servicePort)
                       && (preset == Custom ==> custom != [] && AllValid(custom))
    ensures r.Ok? ==>
              Gapped(r.value) && AllValid(r.value)
              && forall p :: Covers(r.value, p) <==> Needed(preset, servicePort, custom, p)
    ensures r.Err? ==> r.error == if role.UnknownRole? then UnknownNodeRole
                                  else if preset.UnknownPreset? then UnknownFirewallPreset
                                  else if !ValidPort(servicePort) then BadServicePort
                                  else if custom == [] then NoCustomPort else BadSpec
  {
    if role.UnknownRole? {
      return Err(UnknownNodeRole);
    }
    if preset.UnknownPreset? {
      return Err(UnknownFirewallPreset);
    }
    if !ValidPort(servicePort) {
      return Err(BadServicePort);
    }
    var specs := [PortSpec(servicePort, servicePort), TIER_RANGE];
    specs := specs + PresetExtras(preset);
    if preset == Custom {
      if custom == [] {
        return Err(NoCustomPort);
      }
      var ok := ValidateSpecs(custom);
      if !ok {
        return Err(BadSpec);
      }
      specs := specs + custom;
    }
    assert specs == SpecsFor(preset, servicePort, custom);
    var merged := Merge(specs);
    NeededIsCovered(preset, servicePort, custom);
    MergedIsGapped(specs);
    return Ok(merged);
  }
}
