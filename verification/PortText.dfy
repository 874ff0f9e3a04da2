/** The text form of port specifications the install script reads: FormatPorts writes it,
    ParsePorts reads it back (pkg/nodeprov/nodeprov.go). */
module PortText {
  import opened Base
  import opened Text
  import opened TextFields
  import opened Ports

  function SpecText(s: PortSpec): string {
    if s.start == s.end then Itoa(s.start) else Itoa(s.start) + "-" + Itoa(s.end)
  }

  function SpecTexts(specs: seq<PortSpec>): (r: seq<string>)
    ensures |r| == |specs| && forall n | 0 <= n < |r| :: r[n] == SpecText(specs[n])
  {
    seq(|specs|, n requires 0 <= n < |specs| => SpecText(specs[n]))
  }

  function Formatted(specs: seq<PortSpec>): string { Join(SpecTexts(specs), ',') }

  method FormatPorts(specs: seq<PortSpec>) returns (s: string)
    ensures s == Formatted(specs)
  {
    var parts: seq<string> := [];
    for i := 0 to |specs|
      invariant parts == SpecTexts(specs[..i])
    {
      parts := parts + [SpecText(specs[i])];
    }
    assert specs[..|specs|] == specs;
    return Join(parts, ',');
  }

  /** One comma-separated field, trimmed and not empty: a port or a range. */
  function FieldSpec(field: string): Result<PortSpec, PortError> {
    var cut := Cut(field, '-');
    match Atoi(TrimSpace(cut.before))
    case None => Err(InvalidPort)
    case Some(lo) =>
      var end := if cut.found then Atoi(TrimSpace(cut.after)) else Some(lo);
      match end
      case None => Err(InvalidRange)
      case Some(hi) => if ValidSpec(PortSpec(lo, hi)) then Ok(PortSpec(lo, hi)) else Err(BadSpec)
  }

  /** What one field, as it stands, contributes: nothing if it is blank. */
  function ReadField(field: string): Result<Option<PortSpec>, PortError> {
    var trimmed := TrimSpace(field);
    if trimmed == "" then Ok(None)
    else match FieldSpec(trimmed)
         case Err(e) => Err(e)
         case Ok(spec) => Ok(Some(spec))
  }

  function ReadFields(fields: seq<string>): (r: seq<Result<Option<PortSpec>, PortError>>)
    ensures |r| == |fields| && forall n | 0 <= n < |r| :: r[n] == ReadField(fields[n])
  {
    seq(|fields|, n requires 0 <= n < |fields| => ReadField(fields[n]))
  }

  /** The specs read, in order, or else the first error. */
  function Collected(read: seq<Result<Option<PortSpec>, PortError>>): Result<seq<PortSpec>, PortError> {
    if read == [] then Ok([])
    else
      var n := |read| - 1;
      match Collected(read[..n])
      case Err(e) => Err(e)
      case Ok(specs) =>
        match read[n]
        case Err(e) => Err(e)
        case Ok(None) => Ok(specs)
        case Ok(Some(spec)) => Ok(specs + [spec])
  }

  function Parsed(s: string): Result<seq<PortSpec>, PortError> {
    var trimmed := TrimSpace(s);
    if trimmed == "" then Ok([])
    else AllMerged(ReadFields(Split(trimmed, ',')))
  }

  function AllMerged(read: seq<Result<Option<PortSpec>, PortError>>): Result<seq<PortSpec>, PortError> {
    match Collected(read)
    case Err(e) => Err(e)
    case Ok(specs) => Ok(Merged(specs))
  }

  lemma {:induction false} FailsFrom(read: seq<Result<Option<PortSpec>, PortError>>, n: nat)
    requires n <= |read| && Collected(read[..n]).Err?
    ensures Collected(read) == Collected(read[..n])
    decreases |read| - n
  {
    if n == |read| {
      assert read[..n] == read;
    } else {
      assert read[..n + 1][..n] == read[..n];
      FailsFrom(read, n + 1);
    }
  }

  lemma OneMore(read: seq<Result<Option<PortSpec>, PortError>>, n: nat, specs: seq<PortSpec>)
    requires n < |read| && Collected(read[..n]) == Ok(specs)
    ensures read[n] == Ok(None) ==> Collected(read[..n + 1]) == Ok(specs)
    ensures read[n].Ok? && read[n].value.Some? ==> Collected(read[..n + 1]) == Ok(specs + [read[n].value.value])
    ensures read[n].Err? ==> Collected(read) == Err(read[n].error)
  {
    assert read[..n + 1][..n] == read[..n];
    if read[n].Err? {
      FailsFrom(read, n + 1);
    }
  }

  method ParsePorts(s: string) returns (r: Result<seq<PortSpec>, PortError>)
    ensures r == Parsed(s)
  {
    var trimmed := TrimSpace(s);
    if trimmed == "" {
      return Ok([]);
    }
    var fields := Split(trimmed, ',');
    ghost var read := ReadFields(fields);
    var specs: seq<PortSpec> := [];
    for i := 0 to |fields|
      invariant Collected(read[..i]) == Ok(specs)
    {
      OneMore(read, i, specs);
      var field := TrimSpace(fields[i]);
      if field == "" {
        continue;
      }
      var spec := FieldSpec(field);
      if spec.Err? {
        return Err(spec.error);
      }
      specs := specs + [spec.value];
    }
    assert read[..|fields|] == read;
    var merged := Merge(specs);
    return Ok(merged);
  }

  // ----- The round trip -----

  /** A printed number consists of digits, after a sign at most. */
  lemma ItoaText(n: int)
    ensures var s := Itoa(n);
            && s != "" && ',' !in s && IsGraphic(s[0]) && IsGraphic(s[|s| - 1])
            && (n >= 0 ==> '-' !in s) && (n < 0 ==> s[0] == '-')
  {
    var digits := Digits(if n < 0 then -n else n);
    assert forall i | 0 <= i < |digits| :: IsDigit(digits[i]);
  }

  lemma NumberField(n: int)
    ensures TrimSpace(Itoa(n)) == Itoa(n)
    ensures Atoi(TrimSpace(Itoa(n))) == if MIN_INT64 <= n <= MAX_INT64 then Some(n) else None
  {
    ItoaText(n);
    TrimKeeps(Itoa(n));
    AtoiItoa(n);
  }

  lemma SpecTextShape(s: PortSpec)
    ensures var t := SpecText(s);
            && t != "" && ',' !in t && IsGraphic(t[0]) && IsGraphic(t[|t| - 1]) && TrimSpace(t) == t
  {
    ItoaText(s.start);
    ItoaText(s.end);
    TrimKeeps(SpecText(s));
  }

  /** Where the text of a spec is cut. */
  lemma SpecTextCut(s: PortSpec)
    ensures s.start < 0 ==> Cut(SpecText(s), '-').before == ""
    ensures s.start >= 0 ==> Cut(SpecText(s), '-') ==
                             if s.start == s.end then CutResult(Itoa(s.start), "", false)
                             else CutResult(Itoa(s.start), Itoa(s.end), true)
  {
    ItoaText(s.start);
    if s.start < 0 {
      var t := SpecText(s);
      assert t[0] == '-';
    } else if s.start == s.end {
      CutAbsent(Itoa(s.start), '-');
    } else {
      CutUnique(Itoa(s.start), '-', Itoa(s.end));
    }
  }

  /** A printed spec reads back as itself if it is valid, and is refused if not. */
  lemma FieldRoundTrip(s: PortSpec)
    ensures FieldSpec(SpecText(s)).Ok? <==> ValidSpec(s)
    ensures ValidSpec(s) ==> FieldSpec(SpecText(s)) == Ok(s)
  {
    SpecTextCut(s);
    if s.start < 0 {
      TrimKeeps("");
    } else {
      NumberField(s.start);
      NumberField(s.end);
    }
  }

  /** Fields that each read as a spec exactly when it is valid. */
  lemma {:induction false} CollectsValid(read: seq<Result<Option<PortSpec>, PortError>>, specs: seq<PortSpec>)
    requires |read| == |specs|
    requires forall n | 0 <= n < |specs| :: if ValidSpec(specs[n]) then read[n] == Ok(Some(specs[n])) else read[n].Err?
    ensures if AllValid(specs) then Collected(read) == Ok(specs) else Collected(read).Err?
  {
    if specs != [] {
      var n := |specs| - 1;
      CollectsValid(read[..n], specs[..n]);
      assert specs == specs[..n] + [specs[n]];
    }
  }

  lemma ReadRoundTrip(specs: seq<PortSpec>, n: nat)
    requires n < |specs|
    ensures var read := ReadField(SpecText(specs[n]));
            if ValidSpec(specs[n]) then read == Ok(Some(specs[n])) else read.Err?
  {
    SpecTextShape(specs[n]);
    FieldRoundTrip(specs[n]);
  }

  /** Texts between commas, with printing characters at the ends of the whole. */
  predicate Joinable(parts: seq<string>) {
    && parts != [] && (forall n | 0 <= n < |parts| :: ',' !in parts[n])
    && parts[0] != "" && IsGraphic(parts[0][0])
    && (var last := parts[|parts| - 1]; last != "" && IsGraphic(last[|last| - 1]))
  }

  lemma JoinIsTrim(parts: seq<string>)
    requires Joinable(parts)
    ensures IsTrim(Join(parts, ',')) && Join(parts, ',') != "" && Split(Join(parts, ','), ',') == parts
  {
    JoinLast(parts, ',');
    SplitJoin(parts, ',');
  }

  lemma ParsedJoin(parts: seq<string>, a: seq<string>, b: seq<string>)
    requires Joinable(parts) && AreBlank(a) && AreBlank(b)
    ensures Parsed(Concat(a) + Join(parts, ',') + Concat(b)) == AllMerged(ReadFields(parts))
  {
    JoinIsTrim(parts);
    TrimPadded(a, Join(parts, ','), b);
  }

  lemma ParsedPlain(parts: seq<string>)
    requires Joinable(parts)
    ensures Parsed(Join(parts, ',')) == AllMerged(ReadFields(parts))
  {
    JoinIsTrim(parts);
    TrimKeeps(Join(parts, ','));
  }

  /** MAIN RESULT. What FormatPorts prints, ParsePorts reads back as the merged list, for
      valid specs; printed invalid specs, and only those, are refused. */
  lemma ParseUndoesFormat(specs: seq<PortSpec>)
    ensures Parsed(Formatted(specs)).Ok? <==> AllValid(specs)
    ensures AllValid(specs) ==> Parsed(Formatted(specs)) == Ok(Merged(specs))
  {
    if specs == [] {
      TrimKeeps("");
    } else {
      var texts := SpecTexts(specs);
      forall n | 0 <= n < |texts| ensures texts[n] != "" && ',' !in texts[n] {
        SpecTextShape(specs[n]);
      }
      SpecTextShape(specs[0]);
      SpecTextShape(specs[|specs| - 1]);
      ParsedPlain(texts);
      TextsRead(specs);
    }
  }

  lemma TextsRead(specs: seq<PortSpec>)
    ensures var read := ReadFields(SpecTexts(specs));
            if AllValid(specs) then Collected(read) == Ok(specs) else Collected(read).Err?
  {
    var texts := SpecTexts(specs);
    forall n | 0 <= n < |specs|
      ensures if ValidSpec(specs[n]) then ReadFields(texts)[n] == Ok(Some(specs[n])) else ReadFields(texts)[n].Err?
    {
      ReadRoundTrip(specs, n);
    }
    CollectsValid(ReadFields(texts), specs);
  }

  // ----- Blanks -----

  /** What a range of these two texts is read as. */
  function RangeOf(x: string, y: string): Result<PortSpec, PortError> {
    match Atoi(x)
    case None => Err(InvalidPort)
    case Some(lo) =>
      match Atoi(y)
      case None => Err(InvalidRange)
      case Some(hi) => if ValidSpec(PortSpec(lo, hi)) then Ok(PortSpec(lo, hi)) else Err(BadSpec)
  }

  lemma RangeField(before: string, after: string)
    requires '-' !in before
    ensures FieldSpec(before + ['-'] + after) == RangeOf(TrimSpace(before), TrimSpace(after))
  {
    CutUnique(before, '-', after);
  }

  /** Blanks around the dash of a range do not matter. */
  lemma BoundBlanks(x: string, a: seq<string>, b: seq<string>, y: string)
    requires AreBlank(a) && AreBlank(b) && IsTrim(x) && IsTrim(y) && '-' !in x
    ensures FieldSpec(x + Concat(a) + ['-'] + (Concat(b) + y)) == FieldSpec(x + ['-'] + y)
  {
    BlanksHave(a, '-');
    RangeField(x + Concat(a), Concat(b) + y);
    RangeField(x, y);
    TrimAfter(x, a);
    TrimBefore(b, y);
    TrimKeeps(x);
    TrimKeeps(y);
  }

  /** A field as it may be written, with blanks around it. */
  datatype Padded = Padded(before: seq<string>, core: string, after: seq<string>) {
    function Text(): string { Concat(before) + core + Concat(after) }

    predicate Ok() { AreBlank(before) && AreBlank(after) && IsTrim(core) && ',' !in core }
  }

  function Texts(fs: seq<Padded>): (r: seq<string>)
    ensures |r| == |fs| && forall n | 0 <= n < |r| :: r[n] == fs[n].Text()
  {
    seq(|fs|, n requires 0 <= n < |fs| => fs[n].Text())
  }

  function Cores(fs: seq<Padded>): (r: seq<string>)
    ensures |r| == |fs| && forall n | 0 <= n < |r| :: r[n] == fs[n].core
  {
    seq(|fs|, n requires 0 <= n < |fs| => fs[n].core)
  }

  lemma FieldBlanks(f: Padded)
    requires f.Ok()
    ensures ReadField(f.Text()) == ReadField(f.core) && ',' !in f.Text()
  {
    TrimPadded(f.before, f.core, f.after);
    TrimKeeps(f.core);
    BlanksHave(f.before, ',');
    BlanksHave(f.after, ',');
  }

  /** Fields as they may be written: the outer blanks belong to the whole text. */
  predicate AreFields(fs: seq<Padded>) {
    && fs != [] && (forall n | 0 <= n < |fs| :: fs[n].Ok())
    && fs[0].before == [] && fs[0].core != "" && fs[|fs| - 1].after == [] && fs[|fs| - 1].core != ""
  }

  lemma FieldsBlanks(fs: seq<Padded>)
    requires AreFields(fs)
    ensures ReadFields(Texts(fs)) == ReadFields(Cores(fs))
  {
    forall n | 0 <= n < |fs| ensures ReadFields(Texts(fs))[n] == ReadFields(Cores(fs))[n] {
      FieldBlanks(fs[n]);
    }
  }

  lemma CoresJoin(fs: seq<Padded>)
    requires AreFields(fs)
    ensures Joinable(Cores(fs))
  {
    assert fs[0].Ok() && fs[|fs| - 1].Ok();
  }

  lemma TextsJoin(fs: seq<Padded>)
    requires AreFields(fs)
    ensures Joinable(Texts(fs))
  {
    forall n | 0 <= n < |fs| ensures ',' !in Texts(fs)[n] {
      FieldBlanks(fs[n]);
    }
    TextEnds(fs);
  }

  lemma ParsedTexts(a: seq<string>, fs: seq<Padded>, b: seq<string>)
    requires AreFields(fs) && AreBlank(a) && AreBlank(b)
    ensures Parsed(Concat(a) + Join(Texts(fs), ',') + Concat(b)) == AllMerged(ReadFields(Texts(fs)))
  {
    TextsJoin(fs);
    ParsedJoin(Texts(fs), a, b);
  }

  lemma ParsedCores(fs: seq<Padded>)
    requires AreFields(fs)
    ensures Parsed(Join(Cores(fs), ',')) == AllMerged(ReadFields(Cores(fs)))
  {
    CoresJoin(fs);
    ParsedPlain(Cores(fs));
  }

  /** MAIN RESULT. Blanks around the whole text, around a field, and empty fields in between
      make no difference to what is read. */
  lemma BlanksDoNotMatter(a: seq<string>, fs: seq<Padded>, b: seq<string>)
    requires AreFields(fs) && AreBlank(a) && AreBlank(b)
    ensures Parsed(Concat(a) + Join(Texts(fs), ',') + Concat(b)) == Parsed(Join(Cores(fs), ','))
  {
    FieldsBlanks(fs);
    ParsedTexts(a, fs, b);
    ParsedCores(fs);
  }

  lemma TextEnds(fs: seq<Padded>)
    requires AreFields(fs)
    ensures var parts, n := Texts(fs), |fs| - 1;
            && parts[0] != "" && IsGraphic(parts[0][0])
            && parts[n] != "" && IsGraphic(parts[n][|parts[n]| - 1])
  {
    var first, last := fs[0], fs[|fs| - 1];
    assert first.Text()[0] == first.core[0];
    assert last.Text() == Concat(last.before) + last.core;
  }

  /** A blank field is skipped. */
  lemma BlankFieldIsSkipped(ws: seq<string>)
    requires AreBlank(ws)
    ensures ReadField(Concat(ws)) == Ok(None)
  {
    assert Concat([]) + "" + Concat(ws) == Concat(ws);
    TrimPadded([], "", ws);
  }
}
