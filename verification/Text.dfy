/** The string operations of Rust's standard library that the parsers use. */
module Text {
  import opened Wrappers

  /** Unicode White_Space. */
  predicate IsSpace(c: char) {
    || '\t' <= c <= '\r' || c == ' ' || c == '\U{85}' || c == '\U{A0}' || c == '\U{1680}'
    || '\U{2000}' <= c <= '\U{200A}' || c == '\U{2028}' || c == '\U{2029}' || c == '\U{202F}'
    || c == '\U{205F}' || c == '\U{3000}'
  }

  /** `trim_start_matches`: drop the leading characters that pass. */
  function DropStart(s: string, drop: char -> bool): string {
    if s != "" && drop(s[0]) then DropStart(s[1..], drop) else s
  }

  function DropEnd(s: string, drop: char -> bool): string {
    if s != "" && drop(s[|s| - 1]) then DropEnd(s[..|s| - 1], drop) else s
  }

  /** What is left starts with a character that stays, and all before it goes. */
  lemma {:induction false} StartDropped(s: string, drop: char -> bool)
    ensures var r := DropStart(s, drop);
            && |r| <= |s| && r == s[|s| - |r|..] && (r != "" ==> !drop(r[0]))
            && forall c | c in s[..|s| - |r|] :: drop(c)
  {
    if s != "" && drop(s[0]) {
      StartDropped(s[1..], drop);
      var n := |s| - |DropStart(s, drop)|;
      assert s[..n] == [s[0]] + s[1..][..n - 1];
    }
  }

  lemma {:induction false} EndDropped(s: string, drop: char -> bool)
    ensures var r := DropEnd(s, drop);
            && |r| <= |s| && r == s[..|r|] && (r != "" ==> !drop(r[|r| - 1]))
            && forall c | c in s[|r|..] :: drop(c)
  {
    if s != "" && drop(s[|s| - 1]) {
      var front := s[..|s| - 1];
      EndDropped(front, drop);
      var n := |DropEnd(s, drop)|;
      assert s[n..] == front[n..] + [s[|s| - 1]];
    }
  }

  /** `trim_matches`. */
  function DropBoth(s: string, drop: char -> bool): string {
    DropEnd(DropStart(s, drop), drop)
  }

  function Trim(s: string): string {
    DropBoth(s, IsSpace)
  }

  /** Nothing of the kind at either end. */
  predicate Bare(s: string, drop: char -> bool) {
    s != "" ==> !drop(s[0]) && !drop(s[|s| - 1])
  }

  predicate Trimmed(s: string) {
    Bare(s, IsSpace)
  }

  lemma BareStays(s: string, drop: char -> bool)
    requires Bare(s, drop)
    ensures DropBoth(s, drop) == s && DropStart(s, drop) == s && DropEnd(s, drop) == s
  {
  }

  /** Characters that go anyway, around a core that stays, are exactly what is dropped. */
  lemma {:induction false} DropAround(left: string, core: string, right: string, drop: char -> bool)
    requires core != "" && Bare(core, drop)
    requires forall c | c in left + right :: drop(c)
    ensures DropBoth(left + core + right, drop) == core
  {
    DropLeft(left, core + right, drop);
    assert left + core + right == left + (core + right);
    DropRight(core, right, drop);
  }

  lemma {:induction false} DropLeft(left: string, rest: string, drop: char -> bool)
    requires (forall c | c in left :: drop(c)) && (rest != "" ==> !drop(rest[0]))
    ensures DropStart(left + rest, drop) == rest
  {
    if left == "" {
      assert left + rest == rest;
    } else {
      assert (left + rest)[1..] == left[1..] + rest;
      assert (left + rest)[0] == left[0] && left[0] in left;
      DropLeft(left[1..], rest, drop);
    }
  }

  lemma {:induction false} DropRight(rest: string, right: string, drop: char -> bool)
    requires (forall c | c in right :: drop(c)) && (rest != "" ==> !drop(rest[|rest| - 1]))
    ensures DropEnd(rest + right, drop) == rest
  {
    if right == "" {
      assert rest + right == rest;
    } else {
      assert (rest + right)[..|rest + right| - 1] == rest + right[..|right| - 1];
      assert (rest + right)[|rest + right| - 1] == right[|right| - 1] && right[|right| - 1] in right;
      DropRight(rest, right[..|right| - 1], drop);
    }
  }

  /** The first position of `c`, or the length when there is none. */
  function Find(s: string, c: char): (i: nat)
    ensures i <= |s| && c !in s[..i]
    ensures i < |s| ==> s[i] == c
  {
    if s == "" || s[0] == c then 0
    else
      var i := 1 + Find(s[1..], c);
      assert s[..i] == [s[0]] + s[1..][..i - 1];
      i
  }

  lemma FindIs(s: string, c: char, i: nat)
    requires i < |s| && s[i] == c && c !in s[..i]
    ensures Find(s, c) == i
  {
  }

  function SplitOnce(s: string, c: char): (r: Option<(string, string)>)
    ensures r == None <==> c !in s
    ensures r.Some? ==> s == r.value.0 + [c] + r.value.1 && c !in r.value.0
  {
    var i := Find(s, c);
    if i < |s| then Some((s[..i], s[i + 1..])) else None
  }

  lemma SplitOnceIs(head: string, c: char, rest: string)
    requires c !in head
    ensures SplitOnce(head + [c] + rest, c) == Some((head, rest))
  {
    var s := head + [c] + rest;
    assert s[..|head|] == head && s[|head| + 1..] == rest;
    FindIs(s, c, |head|);
  }

  /** `lines`: pieces ended by LF or CR LF; no empty piece after the last LF. */
  function Lines(s: string): seq<string> {
    if s == "" then []
    else
      var i := Find(s, '\n');
      if i == |s| then [s]
      else [if i > 0 && s[i - 1] == '\r' then s[..i - 1] else s[..i]] + Lines(s[i + 1..])
  }

  // ---------- letter case ----------

  function LowerAscii(c: char): char {
    if 'A' <= c <= 'Z' then (c as int + 32) as char else c
  }

  function Lowercase(s: string): string {
    seq(|s|, i requires 0 <= i < |s| => LowerAscii(s[i]))
  }

  /** `u` is `l` as a capital, or both are the same and no letter of the Latin alphabet. */
  predicate Partners(l: char, u: char) {
    if 'a' <= l <= 'z' then u as int == l as int - 32 else l == u && !('A' <= l <= 'Z')
  }

  /** `s` is the word, each letter small or capital. */
  predicate InAnyCase(s: string, small: string, capital: string) {
    |s| == |small| == |capital| && forall i | 0 <= i < |s| :: s[i] == small[i] || s[i] == capital[i]
  }

  lemma LowerIs(c: char, l: char, u: char)
    requires Partners(l, u)
    ensures LowerAscii(c) == l <==> c == l || c == u
  {
  }

  /** Comparing in lower case is comparing letter by letter in either case. */
  lemma LowercaseIs(s: string, small: string, capital: string)
    requires |small| == |capital| && forall i | 0 <= i < |small| :: Partners(small[i], capital[i])
    ensures Lowercase(s) == small <==> InAnyCase(s, small, capital)
  {
    var lower := Lowercase(s);
    if |s| == |small| {
      forall i | 0 <= i < |s| ensures lower[i] == small[i] <==> s[i] == small[i] || s[i] == capital[i] {
        LowerIs(s[i], small[i], capital[i]);
      }
      assert lower == small <==> forall i | 0 <= i < |s| :: lower[i] == small[i];
    }
  }

  // ---------- pieces ----------

  /** `split`: the pieces between separators; always at least one. */
  function Split(s: string, sep: char -> bool): (r: seq<string>)
    ensures r != []
    ensures forall p | p in r :: (forall c | c in p :: !sep(c) && c in s)
  {
    if s == "" then [""]
    else
      var rest := Split(s[1..], sep);
      assert rest[0] in rest && forall p | p in rest[1..] :: p in rest;
      if sep(s[0]) then [""] + rest else [[s[0]] + rest[0]] + rest[1..]
  }

  function Join(parts: seq<string>, glue: string): string {
    if parts == [] then "" else if |parts| == 1 then parts[0] else parts[0] + glue + Join(parts[1..], glue)
  }

  lemma {:induction false} SplitOne(p: string, sep: char -> bool)
    requires forall c | c in p :: !sep(c)
    ensures Split(p, sep) == [p]
  {
    if p != "" {
      SplitOne(p[1..], sep);
      assert p == [p[0]] + p[1..];
    }
  }

  lemma {:induction false} SplitFirst(p: string, c: char, rest: string, sep: char -> bool)
    requires sep(c) && forall x | x in p :: !sep(x)
    ensures Split(p + [c] + rest, sep) == [p] + Split(rest, sep)
  {
    var s := p + [c] + rest;
    if p == "" {
      assert s == [c] + rest && s[1..] == rest;
    } else {
      assert s[1..] == p[1..] + [c] + rest && s[0] == p[0];
      SplitFirst(p[1..], c, rest, sep);
      assert p == [p[0]] + p[1..];
    }
  }

  /** Splitting undoes joining with one separator when no part contains a separator. */
  lemma {:induction false} SplitUndoesJoin(parts: seq<string>, c: char, sep: char -> bool)
    requires parts != [] && sep(c) && forall p | p in parts :: forall x | x in p :: !sep(x)
    ensures Split(Join(parts, [c]), sep) == parts
  {
    assert parts[0] in parts;
    if |parts| == 1 {
      SplitOne(parts[0], sep);
      assert parts == [parts[0]];
    } else {
      forall p | p in parts[1..] ensures p in parts {
      }
      SplitUndoesJoin(parts[1..], c, sep);
      SplitFirst(parts[0], c, Join(parts[1..], [c]), sep);
      assert parts == [parts[0]] + parts[1..];
    }
  }

  predicate IsLine(l: string) {
    l != "" && '\n' !in l && l[|l| - 1] != '\r'
  }

  lemma FirstLine(l: string, rest: string)
    requires IsLine(l)
    ensures Lines(l + "\n" + rest) == [l] + Lines(rest)
  {
    var s := l + "\n" + rest;
    assert s[|l|] == '\n' && s[..|l|] == l && s[|l| + 1..] == rest;
    FindIs(s, '\n', |l|);
    assert s[|l| - 1] == l[|l| - 1];
  }

  lemma OnlyLine(l: string)
    requires IsLine(l)
    ensures Lines(l) == [l]
  {
    assert Find(l, '\n') == |l|;
  }

  /** Lines that hold no line end of their own come back one by one. */
  lemma {:induction false} LinesUndoJoin(lines: seq<string>)
    requires forall l | l in lines :: IsLine(l)
    ensures Lines(Join(lines, "\n")) == lines
  {
    if lines != [] {
      assert lines[0] in lines;
      if |lines| == 1 {
        OnlyLine(lines[0]);
        assert lines == [lines[0]];
      } else {
        LinesUndoJoin(lines[1..]);
        FirstLine(lines[0], Join(lines[1..], "\n"));
        assert lines == [lines[0]] + lines[1..];
      }
    }
  }

  // ---------- decimal numbers ----------

  predicate IsDigit(c: char) {
    '0' <= c <= '9'
  }

  function Digit(d: nat): (c: char)
    requires d < 10
    ensures IsDigit(c)
  {
    "0123456789"[d]
  }

  function Value(c: char): nat
    requires IsDigit(c)
  {
    c as int - '0' as int
  }

  function Decimal(n: nat): (s: string)
    ensures s != "" && forall c | c in s :: IsDigit(c)
  {
    if n < 10 then [Digit(n)] else Decimal(n / 10) + [Digit(n % 10)]
  }

  /** The number a string of digits spells. */
  function Number(s: string): nat
    requires forall c | c in s :: IsDigit(c)
  {
    if s == "" then 0 else 10 * Number(s[..|s| - 1]) + Value(s[|s| - 1])
  }

  lemma {:induction false} NumberOfDecimal(n: nat)
    ensures Number(Decimal(n)) == n
  {
    if n >= 10 {
      NumberOfDecimal(n / 10);
      var s := Decimal(n);
      assert s[..|s| - 1] == Decimal(n / 10) && s[|s| - 1] == Digit(n % 10);
    } else {
      var s := Decimal(n);
      assert s[..|s| - 1] == "";
    }
  }

  lemma DecimalIsInjective(a: nat, b: nat)
    ensures Decimal(a) == Decimal(b) ==> a == b
  {
    NumberOfDecimal(a);
    NumberOfDecimal(b);
  }
}
