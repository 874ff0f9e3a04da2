/** strings.TrimSpace, strings.Split and strings.Join on UTF-8 byte strings. */
module TextFields {
  import opened Text

  /** The UTF-8 forms of the characters unicode.IsSpace accepts. */
  predicate IsSpace(w: string) {
    || (|w| == 1 && ('\t' <= w[0] <= '\r' || w[0] == ' '))
    || (|w| == 2 && w[0] == '\U{c2}' && (w[1] == '\U{85}' || w[1] == '\U{a0}'))
    || (|w| == 3 && w[0] == '\U{e1}' && w[1] == '\U{9a}' && w[2] == '\U{80}')
    || (|w| == 3 && w[0] == '\U{e2}' && w[1] == '\U{81}' && w[2] == '\U{9f}')
    || (|w| == 3 && w[0] == '\U{e3}' && w[1] == '\U{80}' && w[2] == '\U{80}')
    || (|w| == 3 && w[0] == '\U{e2}' && w[1] == '\U{80}'
        && ('\U{80}' <= w[2] <= '\U{8a}' || w[2] == '\U{a8}' || w[2] == '\U{a9}' || w[2] == '\U{af}'))
  }

  /** The size of the white space character s begins with, or else 0. */
  function LeadingSpace(s: string): (n: nat)
    ensures n <= |s| && (n > 0 ==> IsSpace(s[..n]))
  {
    if |s| >= 1 && IsSpace(s[..1]) then 1
    else if |s| >= 2 && IsSpace(s[..2]) then 2
    else if |s| >= 3 && IsSpace(s[..3]) then 3
    else 0
  }

  function TrailingSpace(s: string): (n: nat)
    ensures n <= |s| && (n > 0 ==> IsSpace(s[|s| - n..]))
  {
    if |s| >= 1 && IsSpace(s[|s| - 1..]) then 1
    else if |s| >= 2 && IsSpace(s[|s| - 2..]) then 2
    else if |s| >= 3 && IsSpace(s[|s| - 3..]) then 3
    else 0
  }

  function TrimLeft(s: string): string {
    var n := LeadingSpace(s);
    if n == 0 then s else TrimLeft(s[n..])
  }

  function TrimRight(s: string): string {
    var n := TrailingSpace(s);
    if n == 0 then s else TrimRight(s[..|s| - n])
  }

  function TrimSpace(s: string): string { TrimRight(TrimLeft(s)) }

  predicate IsGraphic(c: char) { '!' <= c <= '~' }

  lemma NoSpace(w: string)
    requires w != "" && (IsGraphic(w[0]) || IsGraphic(w[|w| - 1]))
    ensures !IsSpace(w)
  {
  }

  lemma NoEndIsSpace(s: string, n: nat)
    requires 1 <= n <= |s| && IsGraphic(s[|s| - 1])
    ensures !IsSpace(s[|s| - n..])
  {
    var end := s[|s| - n..];
    assert end[n - 1] == s[|s| - 1];
    NoSpace(end);
  }

  lemma NoLeading(s: string)
    requires s != "" && IsGraphic(s[0])
    ensures LeadingSpace(s) == 0
  {
    forall n | 1 <= n <= |s| ensures !IsSpace(s[..n]) {
      NoSpace(s[..n]);
    }
  }

  lemma NoTrailing(s: string)
    requires s != "" && IsGraphic(s[|s| - 1])
    ensures TrailingSpace(s) == 0
  {
    NoEndIsSpace(s, 1);
    if |s| >= 2 {
      NoEndIsSpace(s, 2);
    }
    if |s| >= 3 {
      NoEndIsSpace(s, 3);
    }
  }

  /** A printing character in front stops the trimming. */
  lemma StartsPrinting(s: string)
    requires s != "" && IsGraphic(s[0])
    ensures TrimLeft(s) == s
  {
    NoLeading(s);
  }

  lemma EndsPrinting(s: string)
    requires s != "" && IsGraphic(s[|s| - 1])
    ensures TrimRight(s) == s
  {
    NoTrailing(s);
  }

  /** Nothing is trimmed off a string with printing characters at both ends. */
  lemma TrimKeeps(s: string)
    requires s != "" ==> IsGraphic(s[0]) && IsGraphic(s[|s| - 1])
    ensures TrimSpace(s) == s
  {
    if s != "" {
      StartsPrinting(s);
      EndsPrinting(s);
    }
  }

  // ----- Blanks around a text -----

  function Concat(ws: seq<string>): string {
    if ws == [] then "" else ws[0] + Concat(ws[1..])
  }

  predicate AreBlank(ws: seq<string>) { forall n | 0 <= n < |ws| :: IsSpace(ws[n]) }

  /** Nothing to trim: empty, or with printing characters at both ends. */
  predicate IsTrim(s: string) { s != "" ==> IsGraphic(s[0]) && IsGraphic(s[|s| - 1]) }

  lemma LeadingOf(w: string, rest: string)
    requires IsSpace(w)
    ensures LeadingSpace(w + rest) == |w| && (w + rest)[|w|..] == rest
  {
    var s := w + rest;
    assert s[..|w|] == w;
    assert |w| >= 2 ==> s[..1] == [w[0]];
    assert |w| == 3 ==> s[..2] == [w[0], w[1]];
  }

  /** The later bytes of a white space character begin none. */
  lemma LaterBytes(w: string)
    requires IsSpace(w) && |w| >= 2
    ensures '\U{80}' <= w[|w| - 1] && (|w| == 3 ==> '\U{80}' <= w[1] <= '\U{9a}')
  {
  }

  lemma BeginsNone(w: string)
    requires (|w| == 1 && w[0] >= '\U{80}') || (|w| == 2 && '\U{80}' <= w[0] <= '\U{9a}')
    ensures !IsSpace(w)
  {
  }

  /** No shorter end of a white space character is one. */
  lemma NoTailIsSpace(w: string, n: nat)
    requires IsSpace(w) && 1 <= n < |w|
    ensures !IsSpace(w[|w| - n..])
  {
    LaterBytes(w);
    var end := w[|w| - n..];
    assert end[0] == w[|w| - n];
    BeginsNone(end);
  }

  lemma TailOf(rest: string, w: string, n: nat)
    requires n <= |w|
    ensures (rest + w)[|rest + w| - n..] == w[|w| - n..]
  {
  }

  lemma TrailingOf(rest: string, w: string)
    requires IsSpace(w)
    ensures TrailingSpace(rest + w) == |w| && (rest + w)[..|rest|] == rest
  {
    TailOf(rest, w, 1);
    assert w[0..] == w;
    if |w| > 1 {
      NoTailIsSpace(w, 1);
      TailOf(rest, w, 2);
    }
    if |w| > 2 {
      NoTailIsSpace(w, 2);
      TailOf(rest, w, 3);
    }
  }

  lemma {:induction false} TrimLeftBlanks(ws: seq<string>, s: string)
    requires AreBlank(ws)
    ensures TrimLeft(Concat(ws) + s) == TrimLeft(s)
  {
    if ws == [] {
      assert Concat(ws) + s == s;
    } else {
      assert Concat(ws) + s == ws[0] + (Concat(ws[1..]) + s);
      LeadingOf(ws[0], Concat(ws[1..]) + s);
      TrimLeftBlanks(ws[1..], s);
    }
  }

  lemma {:induction false} ConcatMore(ws: seq<string>, w: string)
    ensures Concat(ws + [w]) == Concat(ws) + w
  {
    if ws == [] {
      assert ws + [w] == [w] && [w][1..] == [];
    } else {
      assert (ws + [w])[1..] == ws[1..] + [w];
      ConcatMore(ws[1..], w);
    }
  }

  lemma {:induction false} TrimRightBlanks(s: string, ws: seq<string>)
    requires AreBlank(ws)
    ensures TrimRight(s + Concat(ws)) == TrimRight(s)
    decreases |ws|
  {
    if ws == [] {
      assert s + Concat(ws) == s;
    } else {
      var front, last := ws[..|ws| - 1], ws[|ws| - 1];
      assert front + [last] == ws;
      ConcatMore(front, last);
      assert s + Concat(ws) == s + Concat(front) + last;
      TrailingOf(s + Concat(front), last);
      TrimRightBlanks(s, front);
    }
  }

  lemma TrimAllBlank(a: seq<string>, b: seq<string>)
    requires AreBlank(a) && AreBlank(b)
    ensures TrimSpace(Concat(a) + Concat(b)) == ""
  {
    TrimLeftBlanks(a, Concat(b));
    assert Concat(b) + "" == Concat(b);
    TrimLeftBlanks(b, "");
  }

  lemma TrimAround(a: seq<string>, core: string, b: seq<string>)
    requires AreBlank(a) && AreBlank(b) && IsTrim(core) && core != ""
    ensures TrimSpace(Concat(a) + (core + Concat(b))) == core
  {
    TrimLeftBlanks(a, core + Concat(b));
    StartsPrinting(core + Concat(b));
    TrimRightBlanks(core, b);
    EndsPrinting(core);
  }

  lemma Associates(x: string, y: string, z: string)
    ensures x + y + z == x + (y + z)
  {
  }

  /** Blanks on both sides are trimmed off, and nothing else. */
  lemma TrimPadded(a: seq<string>, core: string, b: seq<string>)
    requires AreBlank(a) && AreBlank(b) && IsTrim(core)
    ensures TrimSpace(Concat(a) + core + Concat(b)) == core
  {
    Associates(Concat(a), core, Concat(b));
    if core == "" {
      assert core + Concat(b) == Concat(b);
      TrimAllBlank(a, b);
    } else {
      TrimAround(a, core, b);
    }
  }

  lemma NoBlanks(s: string)
    ensures Concat([]) + s == s && s + Concat([]) == s
  {
  }

  lemma TrimAfter(core: string, b: seq<string>)
    requires AreBlank(b) && IsTrim(core)
    ensures TrimSpace(core + Concat(b)) == core
  {
    NoBlanks(core);
    TrimPadded([], core, b);
  }

  lemma TrimBefore(a: seq<string>, core: string)
    requires AreBlank(a) && IsTrim(core)
    ensures TrimSpace(Concat(a) + core) == core
  {
    NoBlanks(Concat(a) + core);
    TrimPadded(a, core, []);
  }

  lemma {:induction false} BlanksHave(ws: seq<string>, c: char)
    requires AreBlank(ws) && IsGraphic(c)
    ensures c !in Concat(ws)
  {
    if ws != [] {
      BlanksHave(ws[1..], c);
    }
  }

  lemma {:induction false} JoinLast(parts: seq<string>, c: char)
    requires parts != [] && parts[|parts| - 1] != ""
    ensures var s, last := Join(parts, c), parts[|parts| - 1];
            s != "" && s[|s| - 1] == last[|last| - 1]
  {
    if |parts| > 1 {
      JoinLast(parts[1..], c);
    }
  }

  function Split(s: string, c: char): (parts: seq<string>)
    ensures parts != []
  {
    var cut := Cut(s, c);
    if cut.found then [cut.before] + Split(cut.after, c) else [s]
  }

  function Join(parts: seq<string>, c: char): string {
    if parts == [] then ""
    else if |parts| == 1 then parts[0]
    else parts[0] + [c] + Join(parts[1..], c)
  }

  /** Splitting undoes joining when no part contains the separator. */
  lemma {:induction false} SplitJoin(parts: seq<string>, c: char)
    requires parts != [] && forall n | 0 <= n < |parts| :: c !in parts[n]
    ensures Split(Join(parts, c), c) == parts
  {
    if |parts| == 1 {
      CutAbsent(parts[0], c);
    } else {
      CutUnique(parts[0], c, Join(parts[1..], c));
      SplitJoin(parts[1..], c);
    }
  }
}
