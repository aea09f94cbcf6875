/** Replies that say what they mean: whatever decoration a model adds, each line's phrases reach their item. */
module KeywordReplies {
  import opened FirstOccurrences
  import opened Keywords
  import opened Text
  import opened Wrappers

  // ---------- the left end of a line ----------

  predicate All(s: string, pass: char -> bool) {
    forall c | c in s :: pass(c)
  }

  /** Kinds of characters, in the order in which runs of them may follow each other. */
  datatype Kinds = End | Then(kind: char -> bool, later: Kinds)

  /** `s` is a run of characters of the first kind, then one of the second, and so on; runs may be empty. */
  ghost predicate Layered(s: string, kinds: Kinds) {
    match kinds
    case End => s == ""
    case Then(kind, later) => exists k | 0 <= k <= |s| :: All(s[..k], kind) && Layered(s[k..], later)
  }

  lemma {:induction false} SuffixIsLayered(s: string, j: nat, kinds: Kinds)
    requires j <= |s| && Layered(s, kinds)
    ensures Layered(s[j..], kinds)
  {
    match kinds
    case End =>
    case Then(kind, later) =>
      var k :| 0 <= k <= |s| && All(s[..k], kind) && Layered(s[k..], later);
      var t := s[j..];
      if j <= k {
        assert t[k - j..] == s[k..] && forall c | c in t[..k - j] :: c in s[..k];
        assert All(t[..k - j], kind);
      } else {
        SuffixIsLayered(s[k..], j - k, later);
        assert s[k..][j - k..] == t == t[0..] && All(t[..0], kind);
      }
  }

  lemma RunEnds(s: string, j: nat, k: nat, drop: char -> bool)
    requires j <= |s| && k <= |s| && (j < |s| ==> !drop(s[j]))
    ensures All(s[..k], drop) ==> k <= j
  {
    if j < k {
      assert s[..k][j] == s[j] && s[j] in s[..k];
    }
  }

  lemma LaterLayers(s: string, j: nat, kinds: Kinds)
    requires kinds.Then? && Layered(s, kinds) && j <= |s| && (j < |s| ==> !kinds.kind(s[j]))
    ensures Layered(s[j..], kinds.later)
  {
    var k := FirstRun(s, kinds);
    RunEnds(s, j, k, kinds.kind);
    SuffixIsLayered(s[k..], j - k, kinds.later);
    SuffixOfSuffix(s, k, j);
  }

  lemma FirstRun(s: string, kinds: Kinds) returns (k: nat)
    requires kinds.Then? && Layered(s, kinds)
    ensures k <= |s| && All(s[..k], kinds.kind) && Layered(s[k..], kinds.later)
  {
    k :| 0 <= k <= |s| && All(s[..k], kinds.kind) && Layered(s[k..], kinds.later);
  }

  lemma SuffixOfSuffix<T>(s: seq<T>, k: nat, j: nat)
    requires k <= j <= |s|
    ensures s[k..][j - k..] == s[j..]
  {
  }

  lemma DropBefore(s: string, core: string, drop: char -> bool)
    requires core != "" && !drop(core[0])
    ensures DropStart(s + core, drop) == DropStart(s, drop) + core
  {
    StartDropped(s, drop);
    var rest := DropStart(s, drop);
    var left := s[..|s| - |rest|];
    assert s + core == left + (rest + core);
    assert (rest + core)[0] == if rest == "" then core[0] else rest[0];
    DropLeft(left, rest + core, drop);
  }

  /** Dropping the first kind leaves the later ones, as long as the core starts with none of it. */
  lemma DropLayer(s: string, core: string, kinds: Kinds) returns (rest: string)
    requires kinds.Then? && Layered(s, kinds) && core != "" && !kinds.kind(core[0])
    ensures DropStart(s + core, kinds.kind) == rest + core && Layered(rest, kinds.later)
  {
    StartDropped(s, kinds.kind);
    rest := DropStart(s, kinds.kind);
    DropBefore(s, core, kinds.kind);
    LaterLayers(s, |s| - |rest|, kinds);
  }

  const QUOTES := Then(IsQuote, End)

  function Numbered(inner: Kinds): Kinds {
    Then(IsDigit, Then(IsDot, Then(IsSpace, inner)))
  }

  /** Space, bullets, space, a number, its dot, space; then what belongs to the line itself. */
  function Lead(inner: Kinds): Kinds {
    Then(IsSpace, Then(IsBullet, Then(IsSpace, Numbered(inner))))
  }

  predicate Drops(c: char) {
    IsSpace(c) || IsBullet(c) || IsDigit(c) || IsDot(c) || IsQuote(c)
  }

  /** A core that keeps both its ends. */
  predicate Solid(core: string) {
    core != "" && !Drops(core[0]) && !IsSpace(core[|core| - 1])
  }

  lemma BothLayer(s: string, core: string, drop: char -> bool, later: Kinds) returns (rest: string)
    requires Layered(s, Then(drop, later)) && core != "" && !drop(core[0]) && !drop(core[|core| - 1])
    ensures DropBoth(s + core, drop) == rest + core && Layered(rest, later)
  {
    rest := DropLayer(s, core, Then(drop, later));
    assert (rest + core)[|rest + core| - 1] == core[|core| - 1];
  }

  lemma Unbulleted(lead: string, core: string, inner: Kinds) returns (rest: string)
    requires Layered(lead, Lead(inner)) && Solid(core)
    ensures Trim(DropStart(Trim(lead + core), IsBullet)) == rest + core && Layered(rest, Numbered(inner))
  {
    var a := BothLayer(lead, core, IsSpace, Then(IsBullet, Then(IsSpace, Numbered(inner))));
    var b := DropLayer(a, core, Then(IsBullet, Then(IsSpace, Numbered(inner))));
    rest := BothLayer(b, core, IsSpace, Numbered(inner));
  }

  lemma Unnumbered(lead: string, core: string, inner: Kinds) returns (rest: string)
    requires Layered(lead, Numbered(inner)) && Solid(core)
    ensures Trim(DropStart(DropStart(lead + core, IsDigit), IsDot)) == rest + core && Layered(rest, inner)
  {
    var a := DropLayer(lead, core, Numbered(inner));
    var b := DropLayer(a, core, Then(IsDot, Then(IsSpace, inner)));
    rest := BothLayer(b, core, IsSpace, inner);
  }

  /** Cleaning takes all of a lead, and nothing of the line behind it. */
  lemma CleanedLead(lead: string, core: string, inner: Kinds) returns (rest: string)
    requires Layered(lead, Lead(inner)) && Solid(core)
    ensures CleanLine(lead + core) == rest + core && Layered(rest, inner)
  {
    var unbulleted := Unbulleted(lead, core, inner);
    rest := Unnumbered(unbulleted, core, inner);
  }

  lemma AllQuotes(s: string)
    requires Layered(s, QUOTES)
    ensures All(s, IsQuote)
  {
    var k :| 0 <= k <= |s| && All(s[..k], IsQuote) && Layered(s[k..], End);
    assert s[..k] == s;
  }

  // ---------- phrases ----------

  /** Something that neither space nor quotes can be taken from. */
  predicate Core(p: string) {
    p != "" && Bare(p, IsSpace) && Bare(p, IsQuote)
  }

  ghost predicate DressedBy(piece: string, p: string, a: string, b: string, c: string, d: string) {
    piece == a + (b + p + c) + d && All(a + d, IsSpace) && All(b + c, IsQuote)
  }

  /** `p` in quotes, or not, with space around it. */
  ghost predicate Dressed(piece: string, p: string) {
    Core(p) && exists a, b, c, d :: DressedBy(piece, p, a, b, c, d)
  }

  lemma Undressed(piece: string, p: string)
    requires Dressed(piece, p)
    ensures CleanPhrase(piece) == p && DropBoth(Trim(piece), IsQuote) == p
  {
    var a, b, c, d :| DressedBy(piece, p, a, b, c, d);
    QuotesHold(p, b, c);
    DropAround(a, b + p + c, d, IsSpace);
    DropAround(b, p, c, IsQuote);
    BareStays(p, IsSpace);
  }

  lemma QuotesHold(p: string, b: string, c: string)
    requires Core(p) && All(b + c, IsQuote)
    ensures b + p + c != "" && Bare(b + p + c, IsSpace)
  {
    var s := b + p + c;
    assert b != "" ==> b[0] in b + c;
    assert c != "" ==> c[|c| - 1] in b + c;
    assert s[0] == if b != "" then b[0] else p[0];
    assert s[|s| - 1] == if c != "" then c[|c| - 1] else p[|p| - 1];
  }

  ghost predicate SpelledBy(rest: string, pieces: seq<string>, ps: seq<string>) {
    && rest == Join(pieces, ",")
    && |pieces| == |ps|
    && (forall k | 0 <= k < |ps| :: Dressed(pieces[k], ps[k]))
    && (forall piece | piece in pieces :: All(piece, c => !IsComma(c)))
  }

  /** `rest` lists exactly the phrases `ps`, each dressed as the model likes. */
  ghost predicate Spells(rest: string, ps: seq<string>) {
    exists pieces :: SpelledBy(rest, pieces, ps)
  }

  lemma {:induction false} CleanedBack(pieces: seq<string>, ps: seq<string>, clean: string -> string)
    requires |pieces| == |ps| && forall k | 0 <= k < |ps| :: clean(pieces[k]) == ps[k] && ps[k] != ""
    ensures Cleaned(pieces, clean) == ps
  {
    if pieces != [] {
      var n := |ps| - 1;
      CleanedBack(pieces[..n], ps[..n], clean);
      assert ps == ps[..n] + [ps[n]];
    }
  }

  lemma SpelledBack(rest: string, ps: seq<string>)
    requires Spells(rest, ps)
    ensures Phrases(rest) == ps
  {
    var pieces :| SpelledBy(rest, pieces, ps);
    if pieces == [] {
      NothingSpelled();
    } else {
      SplitUndoesJoin(pieces, ',', IsComma);
      forall k | 0 <= k < |ps| ensures CleanPhrase(pieces[k]) == ps[k] && ps[k] != "" {
        Undressed(pieces[k], ps[k]);
      }
      CleanedBack(pieces, ps, CleanPhrase);
    }
  }

  lemma NothingSpelled()
    ensures Phrases("") == []
  {
    BareStays("", IsSpace);
    BareStays("", IsQuote);
    assert [""][..0] == [];
  }

  // ---------- one line ----------

  datatype Answer = Answer(owner: string, phrases: seq<string>)

  /** Names that fold alike are the same name. */
  ghost predicate FoldsApart(names: seq<string>, fold: string -> string) {
    forall a, b | a in names && b in names && fold(a) == fold(b) :: a == b
  }

  lemma {:induction false} NameIsFound(names: seq<string>, fold: string -> string, name: string)
    requires FoldsApart(names, fold) && name in names
    ensures fold(name) in ByName(names, fold) && ByName(names, fold)[fold(name)] == name
  {
    var front, last := names[..|names| - 1], names[|names| - 1];
    assert names == front + [last];
    if fold(name) != fold(last) {
      NameIsFound(front, fold, name);
    } else {
      assert last in names;
    }
  }

  /** The line names its item, quoted or not. */
  ghost predicate ByItsName(line: string, lead: string, b: string, d: string, rest: string, a: Answer,
                            names: seq<string>) {
    && line == lead + (a.owner + b + d + [':'] + rest)
    && Layered(lead, Lead(QUOTES)) && All(b, IsQuote) && All(d, IsSpace)
    && Core(a.owner) && ':' !in a.owner && a.owner in names
    && Solid(a.owner + b + d + [':'] + rest) && Spells(rest, a.phrases)
  }

  /** The line is a bare list, and its position says whose. */
  ghost predicate ByItsPlace(line: string, k: nat, lead: string, rest: string, a: Answer, names: seq<string>) {
    && line == lead + rest
    && Layered(lead, Lead(QUOTES)) && Solid(rest) && ':' !in rest
    && k < |names| && a.owner == names[k]
    && a.phrases != [] && Spells(rest, a.phrases)
  }

  /** The model made up a head of its own, and the line's position says whose it is. */
  ghost predicate ByMadeUpHead(line: string, k: nat, lead: string, head: string, rest: string, a: Answer,
                               names: seq<string>, fold: string -> string) {
    && line == lead + (head + [':'] + rest)
    && Layered(lead, Lead(End)) && Solid(head + [':'] + rest) && ':' !in head
    && IsLabel(head) && HeadKey(fold)(head) !in ByName(names, fold)
    && k < |names| && a.owner == names[k] && Spells(rest, a.phrases)
  }

  /** The head is nobody's name and no label either: all of the line is phrases, the head among them. */
  ghost predicate ByAllOfIt(line: string, k: nat, lead: string, head: string, rest: string, a: Answer,
                            names: seq<string>, fold: string -> string) {
    && line == lead + (head + [':'] + rest)
    && Layered(lead, Lead(End)) && Solid(head + [':'] + rest) && ':' !in head
    && !IsLabel(head) && HeadKey(fold)(head) !in ByName(names, fold)
    && k < |names| && a.owner == names[k] && Spells(head + [':'] + rest, a.phrases)
  }

  /** Line `k` gives the phrases of `a` to its owner. */
  ghost predicate Says(line: string, k: nat, a: Answer, names: seq<string>, fold: string -> string) {
    || (exists lead, b, d, rest :: ByItsName(line, lead, b, d, rest, a, names))
    || (exists lead, rest :: ByItsPlace(line, k, lead, rest, a, names))
    || (exists lead, head, rest :: ByMadeUpHead(line, k, lead, head, rest, a, names, fold))
    || (exists lead, head, rest :: ByAllOfIt(line, k, lead, head, rest, a, names, fold))
  }

  lemma NoColon(s: string, kind: char -> bool)
    requires All(s, kind) && !kind(':')
    ensures ':' !in s
  {
  }

  lemma NamedHead(quotes: string, name: string, b: string, d: string)
    requires All(quotes, IsQuote) && All(b, IsQuote) && All(d, IsSpace) && Core(name)
    ensures DropBoth(Trim(quotes + name + b + d), IsQuote) == name
  {
    var head := quotes + name + b + d;
    assert head == "" + (quotes + name + b) + d;
    assert "" + d == d;
    assert DressedBy(head, name, "", quotes, b, d);
    Undressed(head, name);
  }

  lemma NoColonInHead(quotes: string, name: string, b: string, d: string)
    requires All(quotes, IsQuote) && All(b, IsQuote) && All(d, IsSpace) && ':' !in name
    ensures ':' !in quotes + name + b + d
  {
    NoColon(quotes, IsQuote);
    NoColon(b, IsQuote);
    NoColon(d, IsSpace);
  }

  lemma HeadFound(head: string, rest: string, k: nat, names: seq<string>, byName: map<string, string>,
                  key: string -> string, isLabel: string -> bool)
    requires ':' !in head && (key(head) in byName || (k < |names| && isLabel(head)))
    ensures OwnerBy(head + [':'] + rest, k, names, byName, key, isLabel)
            == Some((if key(head) in byName then byName[key(head)] else names[k], rest))
  {
    SplitOnceIs(head, ':', rest);
  }

  lemma NoHead(clean: string, k: nat, names: seq<string>, byName: map<string, string>,
               key: string -> string, isLabel: string -> bool)
    requires ':' !in clean && k < |names|
    ensures OwnerBy(clean, k, names, byName, key, isLabel) == Some((names[k], clean))
  {
  }

  lemma QuotedCore(lead: string, core: string) returns (quotes: string)
    requires Layered(lead, Lead(QUOTES)) && Solid(core)
    ensures CleanLine(lead + core) == quotes + core && All(quotes, IsQuote)
  {
    quotes := CleanedLead(lead, core, QUOTES);
    AllQuotes(quotes);
  }

  lemma OwnedByName(quotes: string, name: string, b: string, d: string, rest: string, k: nat, names: seq<string>,
                    fold: string -> string)
    requires All(quotes, IsQuote) && All(b, IsQuote) && All(d, IsSpace) && Core(name) && ':' !in name
    requires name in names && FoldsApart(names, fold)
    ensures Owner(quotes + (name + b + d + [':'] + rest), k, names, fold) == Some((name, rest))
  {
    var head, key := quotes + name + b + d, HeadKey(fold);
    NamedHead(quotes, name, b, d);
    NoColonInHead(quotes, name, b, d);
    NameIsFound(names, fold, name);
    assert key(head) == fold(name);
    Regrouped(quotes, name, b, d, rest);
    HeadFound(head, rest, k, names, ByName(names, fold), key, IsLabel);
  }

  lemma Regrouped(quotes: string, name: string, b: string, d: string, rest: string)
    ensures quotes + (name + b + d + [':'] + rest) == (quotes + name + b + d) + [':'] + rest
  {
  }

  lemma NamedLine(line: string, lead: string, b: string, d: string, rest: string, a: Answer, k: nat,
                  names: seq<string>, fold: string -> string)
    requires ByItsName(line, lead, b, d, rest, a, names) && FoldsApart(names, fold)
    ensures CleanLine(line) != "" && Owner(CleanLine(line), k, names, fold) == Some((a.owner, rest))
  {
    var quotes := QuotedCore(lead, a.owner + b + d + [':'] + rest);
    OwnedByName(quotes, a.owner, b, d, rest, k, names, fold);
  }

  lemma OwnedByPlace(quotes: string, rest: string, k: nat, names: seq<string>, fold: string -> string)
    requires All(quotes, IsQuote) && ':' !in rest && k < |names|
    ensures Owner(quotes + rest, k, names, fold) == Some((names[k], quotes + rest))
  {
    NoColon(quotes, IsQuote);
    NoHead(quotes + rest, k, names, ByName(names, fold), HeadKey(fold), IsLabel);
  }

  lemma PlacedLine(line: string, k: nat, lead: string, rest: string, a: Answer, names: seq<string>,
                   fold: string -> string)
    returns (clean: string)
    requires ByItsPlace(line, k, lead, rest, a, names)
    ensures clean == CleanLine(line) != "" && Owner(clean, k, names, fold) == Some((a.owner, clean))
    ensures Spells(clean, a.phrases)
  {
    var quotes := QuotedCore(lead, rest);
    clean := quotes + rest;
    OwnedByPlace(quotes, rest, k, names, fold);
    QuotedRest(quotes, rest, a.phrases);
  }

  lemma StartsWithKind(s: string, rest: string, kind: char -> bool)
    requires All(s, kind) && s + rest != ""
    ensures s != "" ==> kind((s + rest)[0])
  {
    if s != "" {
      assert (s + rest)[0] == s[0] && s[0] in s;
    }
  }

  lemma QuotedPhrase(quotes: string, piece: string, p: string)
    requires All(quotes, IsQuote) && Dressed(piece, p) && !Drops(piece[0])
    ensures Dressed(quotes + piece, p)
  {
    var a, b, c, d :| DressedBy(piece, p, a, b, c, d);
    StartsWithKind(a, b + p + c + d, IsSpace);
    StartsWithKind(b, p + c + d, IsQuote);
    assert piece == a + (b + p + c + d) && b + p + c + d == b + (p + c + d);
    assert quotes + piece == "" + (quotes + p + c) + d;
    assert DressedBy(quotes + piece, p, "", quotes, c, d);
  }

  lemma NoCommaAdded(quotes: string, piece: string)
    requires All(quotes, IsQuote) && All(piece, c => !IsComma(c))
    ensures All(quotes + piece, c => !IsComma(c))
  {
  }

  /** Quotes before the first phrase belong to it. */
  lemma QuotedRest(quotes: string, rest: string, ps: seq<string>)
    requires All(quotes, IsQuote) && Solid(rest) && ps != [] && Spells(rest, ps)
    ensures Spells(quotes + rest, ps)
  {
    var pieces :| SpelledBy(rest, pieces, ps);
    var first := pieces[0];
    assert first in pieces && Dressed(first, ps[0]);
    assert first != "" && first[0] == rest[0];
    QuotedPhrase(quotes, first, ps[0]);
    NoCommaAdded(quotes, first);
    JoinFirst(quotes, pieces);
    SpelledFrom(quotes, rest, pieces, ps);
  }

  lemma SpelledFrom(quotes: string, rest: string, pieces: seq<string>, ps: seq<string>)
    requires SpelledBy(rest, pieces, ps) && ps != [] && Dressed(quotes + pieces[0], ps[0])
    requires All(quotes + pieces[0], c => !IsComma(c))
    requires Join([quotes + pieces[0]] + pieces[1..], ",") == quotes + Join(pieces, ",")
    ensures SpelledBy(quotes + rest, [quotes + pieces[0]] + pieces[1..], ps)
  {
    var pieces' := [quotes + pieces[0]] + pieces[1..];
    assert forall k | 1 <= k < |ps| :: pieces'[k] == pieces[k];
    assert forall piece | piece in pieces' :: piece == quotes + pieces[0] || piece in pieces;
  }

  lemma JoinFirst(prefix: string, pieces: seq<string>)
    requires pieces != []
    ensures Join([prefix + pieces[0]] + pieces[1..], ",") == prefix + Join(pieces, ",")
  {
    var pieces' := [prefix + pieces[0]] + pieces[1..];
    assert pieces'[1..] == pieces[1..];
    assert |pieces| > 1 ==>
             prefix + pieces[0] + "," + Join(pieces[1..], ",") == prefix + (pieces[0] + "," + Join(pieces[1..], ","));
  }

  lemma LabelledLine(line: string, k: nat, lead: string, head: string, rest: string, a: Answer, names: seq<string>,
                     fold: string -> string)
    requires ByMadeUpHead(line, k, lead, head, rest, a, names, fold)
    ensures CleanLine(line) != "" && Owner(CleanLine(line), k, names, fold) == Some((a.owner, rest))
  {
    var none := CleanedLead(lead, head + [':'] + rest, End);
    assert none == "";
    assert CleanLine(line) == head + [':'] + rest;
    HeadFound(head, rest, k, names, ByName(names, fold), HeadKey(fold), IsLabel);
  }

  lemma HeadKept(head: string, rest: string, k: nat, names: seq<string>, byName: map<string, string>,
                 key: string -> string, isLabel: string -> bool)
    requires ':' !in head && key(head) !in byName && k < |names| && !isLabel(head)
    ensures OwnerBy(head + [':'] + rest, k, names, byName, key, isLabel) == Some((names[k], head + [':'] + rest))
  {
    SplitOnceIs(head, ':', rest);
  }

  lemma UnlabelledLine(line: string, k: nat, lead: string, head: string, rest: string, a: Answer, names: seq<string>,
                       fold: string -> string)
    requires ByAllOfIt(line, k, lead, head, rest, a, names, fold)
    ensures CleanLine(line) != ""
    ensures Owner(CleanLine(line), k, names, fold) == Some((a.owner, head + [':'] + rest))
  {
    var none := CleanedLead(lead, head + [':'] + rest, End);
    assert none == "";
    assert CleanLine(line) == head + [':'] + rest;
    HeadKept(head, rest, k, names, ByName(names, fold), HeadKey(fold), IsLabel);
  }

  // ---------- labels ----------

  lemma {:induction false} JoinIsBare(ws: seq<string>)
    requires ws != [] && forall w | w in ws :: w != "" && All(w, c => !IsSpace(c))
    ensures Join(ws, " ") != "" && Bare(Join(ws, " "), IsSpace)
    ensures Join(ws, " ")[0] == ws[0][0]
  {
    assert ws[0] in ws && ws[0][0] in ws[0] && ws[0][|ws[0]| - 1] in ws[0];
    if |ws| > 1 {
      assert forall w | w in ws[1..] :: w in ws;
      JoinIsBare(ws[1..]);
      var rest := Join(ws[1..], " ");
      assert Join(ws, " ") == ws[0] + " " + rest;
      assert Join(ws, " ")[|Join(ws, " ")| - 1] == rest[|rest| - 1];
    }
  }

  lemma {:induction false} AllCount(ws: seq<string>)
    requires "" !in ws
    ensures Count(ws) == |ws|
  {
    if ws != [] {
      assert ws[0] in ws && forall w | w in ws[1..] :: w in ws;
      AllCount(ws[1..]);
    }
  }

  /**
   A head of words set apart by single spaces is a label exactly when it is short, of at most four
   words and without a Persian letter.
   */
  lemma LabelByWords(ws: seq<string>)
    requires ws != [] && forall w | w in ws :: w != "" && All(w, c => !IsSpace(c))
    ensures IsLabel(Join(ws, " ")) <==>
            |ws| <= 4 && |Join(ws, " ")| <= 40 && forall c | c in Join(ws, " ") :: !('\U{0600}' <= c <= '\U{06FF}')
  {
    WordsOfJoin(ws);
    LabelOfWords(Join(ws, " "), |ws|);
  }

  lemma WordsOfJoin(ws: seq<string>)
    requires ws != [] && forall w | w in ws :: w != "" && All(w, c => !IsSpace(c))
    ensures Join(ws, " ") != "" && Trim(Join(ws, " ")) == Join(ws, " ") && Words(Join(ws, " ")) == |ws|
  {
    JoinIsBare(ws);
    BareStays(Join(ws, " "), IsSpace);
    SplitUndoesJoin(ws, ' ', IsSpace);
    AllCount(ws);
  }

  lemma LabelOfWords(head: string, n: nat)
    requires head != "" && Trim(head) == head && Words(head) == n
    ensures IsLabel(head) <==> n <= 4 && |head| <= 40 && forall c | c in head :: !('\U{0600}' <= c <= '\U{06FF}')
  {
  }

  /** A head with a Persian letter anywhere is never a label. */
  lemma PersianIsNoLabel(head: string, i: nat)
    requires i < |head| && '\U{0600}' <= head[i] <= '\U{06FF}'
    ensures !IsLabel(head)
  {
    SpaceAloneGoes(head, head[i]);
  }

  lemma SpaceAloneGoes(s: string, c: char)
    requires c in s && !IsSpace(c)
    ensures c in Trim(s)
  {
    StartKeeps(s, IsSpace, c);
    EndKeeps(DropStart(s, IsSpace), IsSpace, c);
  }

  lemma StartKeeps(s: string, drop: char -> bool, c: char)
    requires c in s && !drop(c)
    ensures c in DropStart(s, drop)
  {
    StartDropped(s, drop);
    var r := DropStart(s, drop);
    assert s == s[..|s| - |r|] + r;
  }

  lemma EndKeeps(s: string, drop: char -> bool, c: char)
    requires c in s && !drop(c)
    ensures c in DropEnd(s, drop)
  {
    EndDropped(s, drop);
    var r := DropEnd(s, drop);
    assert s == r + s[|r|..];
  }

  /** Such a line does what it says. */
  lemma LineIsRead(line: string, st: State, a: Answer, names: seq<string>, fold: string -> string)
    requires Says(line, st.positional, a, names, fold) && FoldsApart(names, fold)
    ensures Reader(names, fold)(st, line) == Record(st, a.owner, a.phrases, fold)
  {
    if lead, b, d, rest :| ByItsName(line, lead, b, d, rest, a, names) {
      NamedLine(line, lead, b, d, rest, a, st.positional, names, fold);
      Lands(line, st, a, rest, names, fold);
    } else if lead, rest :| ByItsPlace(line, st.positional, lead, rest, a, names) {
      var clean := PlacedLine(line, st.positional, lead, rest, a, names, fold);
      Lands(line, st, a, clean, names, fold);
    } else if lead, head, rest :| ByMadeUpHead(line, st.positional, lead, head, rest, a, names, fold) {
      LabelledLine(line, st.positional, lead, head, rest, a, names, fold);
      Lands(line, st, a, rest, names, fold);
    } else if lead, head, rest :| ByAllOfIt(line, st.positional, lead, head, rest, a, names, fold) {
      UnlabelledLine(line, st.positional, lead, head, rest, a, names, fold);
      Lands(line, st, a, head + [':'] + rest, names, fold);
    }
  }

  lemma Lands(line: string, st: State, a: Answer, rest: string, names: seq<string>, fold: string -> string)
    requires CleanLine(line) != "" && Owner(CleanLine(line), st.positional, names, fold) == Some((a.owner, rest))
    requires Spells(rest, a.phrases)
    ensures Reader(names, fold)(st, line) == Record(st, a.owner, a.phrases, fold)
  {
    SpelledBack(rest, a.phrases);
    PlacedSome(st, a, rest, Phrases, fold);
    ReadsClean(line, st, names, fold);
  }

  lemma PlacedSome(st: State, a: Answer, rest: string, phrasesOf: string -> seq<string>, fold: string -> string)
    requires phrasesOf(rest) == a.phrases
    ensures Place(st, Some((a.owner, rest)), phrasesOf, fold) == Record(st, a.owner, a.phrases, fold)
  {
  }

  lemma ReadsClean(line: string, st: State, names: seq<string>, fold: string -> string)
    requires CleanLine(line) != ""
    ensures Reader(names, fold)(st, line) ==
            Place(st, Owner(CleanLine(line), st.positional, names, fold), Phrases, fold)
  {
  }

  // ---------- a whole reply ----------

  function RecordAll(answers: seq<Answer>, fold: string -> string): State {
    if answers == [] then State(map[], 0)
    else
      var last := answers[|answers| - 1];
      Record(RecordAll(answers[..|answers| - 1], fold), last.owner, last.phrases, fold)
  }

  lemma {:induction false} ReplyIsRead(lines: seq<string>, answers: seq<Answer>, names: seq<string>,
                                       fold: string -> string)
    requires |lines| == |answers| && FoldsApart(names, fold)
    requires forall k | 0 <= k < |lines| :: Says(lines[k], k, answers[k], names, fold)
    ensures ReadAll(lines, Reader(names, fold)) == RecordAll(answers, fold)
    ensures RecordAll(answers, fold).positional == |answers|
  {
    if lines != [] {
      var n := |lines| - 1;
      ReplyIsRead(lines[..n], answers[..n], names, fold);
      LineIsRead(lines[n], RecordAll(answers[..n], fold), answers[n], names, fold);
    }
  }

  /** No earlier answer gave this owner any phrases. */
  ghost predicate IsFirstAnswer(answers: seq<Answer>, k: nat)
    requires k < |answers|
  {
    && answers[k].phrases != []
    && forall j | 0 <= j < k && answers[j].owner == answers[k].owner :: answers[j].phrases == []
  }

  /** Every owner with an answer is in the result, under its first answer; nobody else is. */
  ghost predicate HoldsFirstAnswers(out: map<string, seq<string>>, answers: seq<Answer>, fold: string -> string) {
    && (forall name :: name in out <==>
          exists k :: 0 <= k < |answers| && answers[k].owner == name && answers[k].phrases != [])
    && (forall k: nat | k < |answers| && IsFirstAnswer(answers, k) ::
          answers[k].owner in out && out[answers[k].owner] == Kept(answers[k].phrases, fold))
  }

  lemma OneMoreAnswer(out: map<string, seq<string>>, answers: seq<Answer>, last: Answer, fold: string -> string)
    requires HoldsFirstAnswers(out, answers, fold)
    ensures HoldsFirstAnswers(Recorded(out, last.owner, last.phrases, fold), answers + [last], fold)
  {
    var all, n := answers + [last], |answers|;
    var out' := Recorded(out, last.owner, last.phrases, fold);
    assert all[n] == last && forall k | 0 <= k < n :: all[k] == answers[k];
    forall name
      ensures name in out' <==> exists k :: 0 <= k < |all| && all[k].owner == name && all[k].phrases != []
    {
      if name in out {
        var k :| 0 <= k < n && answers[k].owner == name && answers[k].phrases != [];
        assert all[k].owner == name;
      }
      if name == last.owner && last.phrases != [] {
        assert all[n].owner == name;
      }
    }
    forall k: nat | k < |all| && IsFirstAnswer(all, k)
      ensures all[k].owner in out' && out'[all[k].owner] == Kept(all[k].phrases, fold)
    {
      if k < n {
        assert IsFirstAnswer(answers, k);
      }
    }
  }

  lemma {:induction false} FirstAnswersHeld(answers: seq<Answer>, fold: string -> string)
    ensures HoldsFirstAnswers(RecordAll(answers, fold).out, answers, fold)
  {
    if answers != [] {
      var front, last := answers[..|answers| - 1], answers[|answers| - 1];
      FirstAnswersHeld(front, fold);
      OneMoreHeld(front, last, fold);
      assert answers == front + [last];
    }
  }

  lemma OneMoreHeld(front: seq<Answer>, last: Answer, fold: string -> string)
    requires HoldsFirstAnswers(RecordAll(front, fold).out, front, fold)
    ensures HoldsFirstAnswers(RecordAll(front + [last], fold).out, front + [last], fold)
  {
    OneMoreAnswer(RecordAll(front, fold).out, front, last, fold);
    RecordSnoc(front, last, fold);
  }

  lemma RecordSnoc(front: seq<Answer>, last: Answer, fold: string -> string)
    ensures RecordAll(front + [last], fold).out == Recorded(RecordAll(front, fold).out, last.owner, last.phrases, fold)
  {
    assert (front + [last])[..|front|] == front;
  }

  lemma SolidEnd(lead: string, core: string)
    requires Solid(core)
    ensures lead + core != "" && !IsSpace((lead + core)[|lead + core| - 1])
  {
    assert (lead + core)[|lead + core| - 1] == core[|core| - 1];
  }

  /** A line ends in something that is no space. */
  ghost predicate EndsSolid(line: string) {
    line != "" && !IsSpace(line[|line| - 1])
  }

  lemma NamedEnds(line: string, lead: string, b: string, d: string, rest: string, a: Answer, names: seq<string>)
    requires ByItsName(line, lead, b, d, rest, a, names)
    ensures EndsSolid(line)
  {
    SolidEnd(lead, a.owner + b + d + [':'] + rest);
  }

  lemma PlacedEnds(line: string, k: nat, lead: string, rest: string, a: Answer, names: seq<string>)
    requires ByItsPlace(line, k, lead, rest, a, names)
    ensures EndsSolid(line)
  {
    SolidEnd(lead, rest);
  }

  lemma HeadedEnds(line: string, k: nat, lead: string, head: string, rest: string, a: Answer, names: seq<string>,
                   fold: string -> string)
    requires ByMadeUpHead(line, k, lead, head, rest, a, names, fold) ||
             ByAllOfIt(line, k, lead, head, rest, a, names, fold)
    ensures EndsSolid(line)
  {
    SolidEnd(lead, head + [':'] + rest);
  }

  lemma LineEndsSolid(line: string, k: nat, a: Answer, names: seq<string>, fold: string -> string)
    requires Says(line, k, a, names, fold)
    ensures EndsSolid(line)
  {
    if lead, b, d, rest :| ByItsName(line, lead, b, d, rest, a, names) {
      NamedEnds(line, lead, b, d, rest, a, names);
    } else if lead, rest :| ByItsPlace(line, k, lead, rest, a, names) {
      PlacedEnds(line, k, lead, rest, a, names);
    } else if lead, head, rest :| ByMadeUpHead(line, k, lead, head, rest, a, names, fold) {
      HeadedEnds(line, k, lead, head, rest, a, names, fold);
    } else if lead, head, rest :| ByAllOfIt(line, k, lead, head, rest, a, names, fold) {
      HeadedEnds(line, k, lead, head, rest, a, names, fold);
    }
  }

  /**
   A reply of such lines, in any order the names allow, gives each item the first six different
   phrases of its first answer.
   */
  lemma ReplyReachesItsItems(lines: seq<string>, answers: seq<Answer>, items: seq<string>, fold: string -> string)
    requires |lines| == |answers| && FoldsApart(Trims(items), fold)
    requires forall k | 0 <= k < |lines| :: '\n' !in lines[k] && Says(lines[k], k, answers[k], Trims(items), fold)
    ensures HoldsFirstAnswers(ReadAll(Lines(Join(lines, "\n")), Reader(Trims(items), fold)).out, answers, fold)
  {
    var names := Trims(items);
    forall k | 0 <= k < |lines| ensures IsLine(lines[k]) {
      LineEndsSolid(lines[k], k, answers[k], names, fold);
    }
    LinesUndoJoin(lines);
    ReplyIsRead(lines, answers, names, fold);
    FirstAnswersHeld(answers, fold);
  }

  // ---------- the plain form ----------

  /** `name: phrase, phrase`. */
  function Plain(a: Answer): string {
    a.owner + ":" + if a.phrases == [] then "" else " " + Join(a.phrases, ", ")
  }

  predicate PlainAnswer(a: Answer) {
    && Core(a.owner) && !Drops(a.owner[0]) && ':' !in a.owner
    && forall p | p in a.phrases :: Core(p) && All(p, c => !IsComma(c))
  }

  lemma NoLead()
    ensures Layered("", Lead(QUOTES))
  {
    Empty(QUOTES, IsQuote, End);
    Empty(Then(IsSpace, QUOTES), IsSpace, QUOTES);
    Empty(Then(IsDot, Then(IsSpace, QUOTES)), IsDot, Then(IsSpace, QUOTES));
    Empty(Numbered(QUOTES), IsDigit, Then(IsDot, Then(IsSpace, QUOTES)));
    Empty(Then(IsSpace, Numbered(QUOTES)), IsSpace, Numbered(QUOTES));
    Empty(Then(IsBullet, Then(IsSpace, Numbered(QUOTES))), IsBullet, Then(IsSpace, Numbered(QUOTES)));
    Empty(Lead(QUOTES), IsSpace, Then(IsBullet, Then(IsSpace, Numbered(QUOTES))));
  }

  lemma Empty(kinds: Kinds, kind: char -> bool, later: Kinds)
    requires kinds == Then(kind, later) && Layered("", later)
    ensures Layered("", kinds)
  {
    assert ""[0..] == "" && All(""[..0], kind);
  }

  function Spaced(ps: seq<string>): seq<string> {
    seq(|ps|, i requires 0 <= i < |ps| => " " + ps[i])
  }

  lemma {:induction false} SpacedJoin(ps: seq<string>)
    requires ps != []
    ensures Join(Spaced(ps), ",") == " " + Join(ps, ", ")
  {
    if |ps| > 1 {
      SpacedJoin(ps[1..]);
      assert Spaced(ps)[1..] == Spaced(ps[1..]);
      assert (" " + ps[0]) + "," + (" " + Join(ps[1..], ", ")) == " " + (ps[0] + ", " + Join(ps[1..], ", "));
    }
  }

  lemma SpacedIsDressed(p: string)
    requires Core(p) && All(p, c => !IsComma(c))
    ensures Dressed(" " + p, p) && All(" " + p, c => !IsComma(c))
  {
    assert " " + p == " " + ("" + p + "") + "";
    assert DressedBy(" " + p, p, " ", "", "", "");
  }

  lemma PlainRestSpells(ps: seq<string>)
    requires forall p | p in ps :: Core(p) && All(p, c => !IsComma(c))
    ensures Spells(if ps == [] then "" else " " + Join(ps, ", "), ps)
  {
    var pieces := Spaced(ps);
    forall k | 0 <= k < |ps| ensures Dressed(pieces[k], ps[k]) && All(pieces[k], c => !IsComma(c)) {
      assert ps[k] in ps;
      SpacedIsDressed(ps[k]);
    }
    if ps == [] {
      assert SpelledBy("", pieces, ps);
    } else {
      SpacedJoin(ps);
      assert SpelledBy(" " + Join(ps, ", "), pieces, ps);
    }
  }

  lemma {:induction false} JoinEndsWithLast(ps: seq<string>, glue: string)
    requires ps != [] && ps[|ps| - 1] != ""
    ensures var s, last := Join(ps, glue), ps[|ps| - 1]; s != "" && s[|s| - 1] == last[|last| - 1]
  {
    if |ps| > 1 {
      JoinEndsWithLast(ps[1..], glue);
    }
  }

  lemma PlainLineIsSolid(name: string, rest: string, ps: seq<string>)
    requires name != "" && !Drops(name[0])
    requires rest == if ps == [] then "" else " " + Join(ps, ", ")
    requires forall p | p in ps :: Core(p)
    ensures Solid(name + "" + "" + [':'] + rest)
  {
    var s := name + "" + "" + [':'] + rest;
    assert s[0] == name[0];
    if ps == [] {
      assert s[|s| - 1] == ':';
    } else {
      assert ps[|ps| - 1] in ps;
      JoinEndsWithLast(ps, ", ");
      var list := Join(ps, ", ");
      assert s[|s| - 1] == list[|list| - 1];
    }
  }

  lemma PlainLineSays(a: Answer, k: nat, names: seq<string>, fold: string -> string)
    requires PlainAnswer(a) && a.owner in names
    ensures Says(Plain(a), k, a, names, fold)
  {
    var rest := if a.phrases == [] then "" else " " + Join(a.phrases, ", ");
    PlainRestSpells(a.phrases);
    NoLead();
    PlainLineIsSolid(a.owner, rest, a.phrases);
    Undecorated(a, rest, names);
  }

  lemma Undecorated(a: Answer, rest: string, names: seq<string>)
    requires Core(a.owner) && ':' !in a.owner && a.owner in names && Layered("", Lead(QUOTES))
    requires Solid(a.owner + "" + "" + [':'] + rest) && Spells(rest, a.phrases)
    ensures ByItsName(a.owner + ":" + rest, "", "", "", rest, a, names)
  {
    assert a.owner + ":" + rest == "" + (a.owner + "" + "" + [':'] + rest);
  }

  function Plains(answers: seq<Answer>): seq<string> {
    seq(|answers|, i requires 0 <= i < |answers| => Plain(answers[i]))
  }

  /** Printing answers as plain lines, in any order, and reading them back. */
  lemma PlainReplyReadsBack(answers: seq<Answer>, items: seq<string>, fold: string -> string)
    requires FoldsApart(Trims(items), fold)
    requires forall a | a in answers :: PlainAnswer(a) && a.owner in Trims(items) && '\n' !in Plain(a)
    ensures HoldsFirstAnswers(ReadAll(Lines(Join(Plains(answers), "\n")), Reader(Trims(items), fold)).out,
                              answers, fold)
  {
    forall k | 0 <= k < |answers| ensures Says(Plains(answers)[k], k, answers[k], Trims(items), fold) {
      assert answers[k] in answers;
      PlainLineSays(answers[k], k, Trims(items), fold);
    }
    ReplyReachesItsItems(Plains(answers), answers, items, fold);
  }
}
