/** Laid out text, byte by byte: where each part stands in it, and what a line break looks like. */
module LineText {
  import opened Bytes
  import opened Printer
  import opened Lines

  /** How many bytes a part takes: a line break is a new line and one unit for each level. */
  function Width(p: Part, newline: Str, unit: Str): nat {
    if p.Line? then |newline| + p.level * |unit| else |p.s|
  }

  /** Where part `i` begins. */
  function Offset(parts: seq<Part>, i: nat, newline: Str, unit: Str): nat
    requires i <= |parts|
  {
    if i == 0 then 0 else Offset(parts, i - 1, newline, unit) + Width(parts[i - 1], newline, unit)
  }

  /** A new line, and then `n` units. */
  predicate BreakAt(out: Str, at: nat, newline: Str, unit: Str, n: nat) {
    && At(out, newline, at) && at + |newline| + n * |unit| <= |out|
    && forall k: nat | k < n :: At(out, unit, at + |newline| + k * |unit|)
  }

  predicate PartAt(out: Str, at: nat, p: Part, newline: Str, unit: Str) {
    if p.Line? then BreakAt(out, at, newline, unit, p.level) else At(out, p.s, at)
  }

  /** The text consists of the parts, each where the widths of those before it put it. */
  predicate PrintedAs(out: Str, parts: seq<Part>, newline: Str, unit: Str) {
    && |out| == Offset(parts, |parts|, newline, unit)
    && forall i: nat | i < |parts| :: PartAt(out, Offset(parts, i, newline, unit), parts[i], newline, unit)
  }

  // ---------------------------------------------------------------- line breaks

  lemma {:induction false} RepeatLength(unit: Str, n: nat)
    ensures |Repeat(unit, n)| == n * |unit|
  {
    if n > 0 {
      RepeatLength(unit, n - 1);
      assert n * |unit| == (n - 1) * |unit| + |unit|;
    }
  }

  lemma {:induction false} RepeatAt(unit: Str, n: nat, k: nat)
    requires k < n
    ensures k * |unit| + |unit| <= |Repeat(unit, n)| && At(Repeat(unit, n), unit, k * |unit|)
  {
    RepeatLength(unit, n - 1);
    RepeatLength(unit, n);
    var before := Repeat(unit, n - 1);
    if k == n - 1 {
      assert (before + unit)[|before|..|before| + |unit|] == unit;
    } else {
      RepeatAt(unit, n - 1, k);
      assert (before + unit)[k * |unit|..k * |unit| + |unit|] == before[k * |unit|..k * |unit| + |unit|];
    }
  }

  /** What an indenter prints for a line break of level `n`. */
  lemma BreakPrinted(newline: Str, unit: Str, n: nat)
    ensures |BreakText(newline, unit, n)| == |newline| + n * |unit|
    ensures BreakAt(BreakText(newline, unit, n), 0, newline, unit, n)
  {
    hide Repeat, At;
    var b := BreakText(newline, unit, n);
    RepeatLength(unit, n);
    AtLeft(newline, Repeat(unit, n));
    forall k: nat | k < n ensures At(b, unit, 0 + |newline| + k * |unit|) {
      RepeatAt(unit, n, k);
      AtShifted(newline, Repeat(unit, n), unit, k * |unit|);
    }
  }

  lemma AtLeft(a: Str, b: Str)
    ensures At(a + b, a, 0)
  {
    assert (a + b)[0..|a|] == a;
  }

  lemma AtShifted(a: Str, b: Str, sub: Str, i: nat)
    requires At(b, sub, i)
    ensures At(a + b, sub, |a| + i)
  {
    assert (a + b)[|a| + i..|a| + i + |sub|] == b[i..i + |sub|];
  }

  lemma AtExtended(a: Str, b: Str, sub: Str, i: nat)
    requires At(a, sub, i)
    ensures At(a + b, sub, i)
  {
    assert (a + b)[i..i + |sub|] == a[i..i + |sub|];
  }

  // ---------------------------------------------------------------- whole texts

  lemma PartStays(a: Str, b: Str, at: nat, p: Part, newline: Str, unit: Str)
    requires PartAt(a, at, p, newline, unit)
    ensures PartAt(a + b, at, p, newline, unit)
  {
    hide At;
    if p.Line? {
      AtExtended(a, b, newline, at);
      forall k: nat | k < p.level ensures At(a + b, unit, at + |newline| + k * |unit|) {
        AtExtended(a, b, unit, at + |newline| + k * |unit|);
      }
    } else {
      AtExtended(a, b, p.s, at);
    }
  }

  lemma PartAdded(a: Str, p: Part, newline: Str, unit: Str)
    ensures var s := if p.Line? then BreakText(newline, unit, p.level) else p.s;
      |s| == Width(p, newline, unit) && PartAt(a + s, |a|, p, newline, unit)
  {
    hide At, BreakText;
    if p.Line? {
      var s := BreakText(newline, unit, p.level);
      BreakPrinted(newline, unit, p.level);
      AtShifted(a, s, newline, 0);
      forall k: nat | k < p.level ensures At(a + s, unit, |a| + |newline| + k * |unit|) {
        AtShifted(a, s, unit, 0 + |newline| + k * |unit|);
      }
    } else {
      AtLeft(p.s, []);
      assert p.s + [] == p.s;
      AtShifted(a, p.s, p.s, 0);
    }
  }

  lemma {:induction false} OffsetPrefix(parts: seq<Part>, p: Part, i: nat, newline: Str, unit: Str)
    requires i <= |parts|
    ensures Offset(parts + [p], i, newline, unit) == Offset(parts, i, newline, unit)
  {
    hide Width;
    if i > 0 {
      OffsetPrefix(parts, p, i - 1, newline, unit);
    }
  }

  lemma PrintedSnoc(a: Str, parts: seq<Part>, p: Part, newline: Str, unit: Str)
    requires PrintedAs(a, parts, newline, unit)
    ensures PrintedAs(a + (if p.Line? then BreakText(newline, unit, p.level) else p.s), parts + [p], newline, unit)
  {
    hide PartAt, Width, BreakText, Offset;
    var s := if p.Line? then BreakText(newline, unit, p.level) else p.s;
    var all := parts + [p];
    PartAdded(a, p, newline, unit);
    OffsetNext(parts, p, newline, unit);
    forall i: nat | i < |all| ensures PartAt(a + s, Offset(all, i, newline, unit), all[i], newline, unit) {
      OffsetPrefix(parts, p, i, newline, unit);
      if i < |parts| {
        PartStays(a, s, Offset(parts, i, newline, unit), parts[i], newline, unit);
      }
    }
  }

  lemma OffsetNext(parts: seq<Part>, p: Part, newline: Str, unit: Str)
    ensures Offset(parts + [p], |parts| + 1, newline, unit) ==
      Offset(parts, |parts|, newline, unit) + Width(p, newline, unit)
  {
    hide Width;
    OffsetPrefix(parts, p, |parts|, newline, unit);
  }

  /** A laid out text is its parts one after the other. */
  lemma {:induction false} TextPrinted(parts: seq<Part>, newline: Str, unit: Str)
    ensures PrintedAs(TextOf(parts, newline, unit), parts, newline, unit)
  {
    hide PartAt, BreakText, PrintedAs;
    if parts == [] {
      NothingPrinted(newline, unit);
    } else {
      var n := |parts| - 1;
      TextPrinted(parts[..n], newline, unit);
      PrintedSnoc(TextOf(parts[..n], newline, unit), parts[..n], parts[n], newline, unit);
      assert parts[..n] + [parts[n]] == parts;
    }
  }

  lemma NothingPrinted(newline: Str, unit: Str)
    ensures PrintedAs([], [], newline, unit)
  {
  }
}
