/** Reading a model's reply of `name: phrase, phrase` lines back into phrases per item. */
module Keywords {
  import opened FirstOccurrences
  import opened Text
  import opened Wrappers

  const MAX_PER_PART: nat := 6

  predicate IsBullet(c: char) {
    c == '-' || c == '*' || c == '#' || c == ' '
  }

  predicate IsDot(c: char) {
    c == '.' || c == ')' || c == ' ' || c == ':'
  }

  predicate IsQuote(c: char) {
    c == '"' || c == '\'' || c == '`' || c == '*'
  }

  /** The Latin and the Arabic comma. */
  predicate IsComma(c: char) {
    c == ',' || c == '\U{060C}'
  }

  predicate IsArabic(c: char) {
    '\U{0600}' <= c <= '\U{06FF}'
  }

  /** A line without its bullet, its number and the space around it. */
  function CleanLine(line: string): string {
    var unbulleted := Trim(DropStart(Trim(line), IsBullet));
    Trim(DropStart(DropStart(unbulleted, IsDigit), IsDot))
  }

  function CleanPhrase(piece: string): string {
    Trim(DropBoth(Trim(piece), IsQuote))
  }

  function Words(s: string): nat {
    Count(Split(s, IsSpace))
  }

  function Count(pieces: seq<string>): nat {
    if pieces == [] then 0 else Count(pieces[1..]) + if pieces[0] == "" then 0 else 1
  }

  predicate IsLabel(head: string) {
    var head := Trim(head);
    0 < |head| <= 40 && Words(head) <= 4 && forall c | c in head :: !IsArabic(c)
  }

  /** The pieces cleaned; those that come out empty are dropped. */
  function Cleaned(pieces: seq<string>, clean: string -> string): seq<string> {
    if pieces == [] then []
    else
      var before, last := Cleaned(pieces[..|pieces| - 1], clean), clean(pieces[|pieces| - 1]);
      if last == "" then before else before + [last]
  }

  function Phrases(rest: string): seq<string> {
    Cleaned(Split(rest, IsComma), CleanPhrase)
  }

  /** The first phrases that differ when folded, at most six. */
  function Kept(phrases: seq<string>, fold: string -> string): seq<string> {
    var firsts := Firsts(phrases, fold);
    if |firsts| <= MAX_PER_PART then firsts else firsts[..MAX_PER_PART]
  }

  /** Items by folded name; of two that fold alike the later one counts. */
  function ByName(names: seq<string>, fold: string -> string): map<string, string> {
    if names == [] then map[]
    else
      var last := names[|names| - 1];
      ByName(names[..|names| - 1], fold)[fold(last) := last]
  }

  /** What a head is looked up by: folded, without space and quotes. */
  function HeadKey(fold: string -> string): string -> string {
    head => fold(DropBoth(Trim(head), IsQuote))
  }

  function NamedBy(clean: string, byName: map<string, string>, key: string -> string): Option<(string, string)> {
    match SplitOnce(clean, ':')
    case None => None
    case Some((head, rest)) => if key(head) in byName then Some((byName[key(head)], rest)) else None
  }

  function WithoutLabel(clean: string, isLabel: string -> bool): string {
    match SplitOnce(clean, ':')
    case Some((head, rest)) => if isLabel(head) then rest else clean
    case None => clean
  }

  /** Whose line this is, and the part of it that holds phrases: by name first, then by position. */
  function OwnerBy(clean: string, positional: nat, names: seq<string>, byName: map<string, string>,
                   key: string -> string, isLabel: string -> bool): Option<(string, string)> {
    match NamedBy(clean, byName, key)
    case Some(pair) => Some(pair)
    case None => if positional < |names| then Some((names[positional], WithoutLabel(clean, isLabel))) else None
  }

  function Owner(clean: string, positional: nat, names: seq<string>, fold: string -> string): Option<(string, string)> {
    OwnerBy(clean, positional, names, ByName(names, fold), HeadKey(fold), IsLabel)
  }

  datatype State = State(out: map<string, seq<string>>, positional: nat)

  /** A part answered twice keeps its first phrases. */
  function Recorded(out: map<string, seq<string>>, owner: string, phrases: seq<string>,
                    fold: string -> string): map<string, seq<string>> {
    if phrases == [] || owner in out then out else out[owner := Kept(phrases, fold)]
  }

  /** A line without phrases still takes its position. */
  function Record(st: State, owner: string, phrases: seq<string>, fold: string -> string): State {
    State(Recorded(st.out, owner, phrases, fold), st.positional + 1)
  }

  function Place(st: State, found: Option<(string, string)>, phrasesOf: string -> seq<string>,
                 fold: string -> string): State {
    match found
    case None => st
    case Some((owner, rest)) => Record(st, owner, phrasesOf(rest), fold)
  }

  /** One cleaned line that is not empty. */
  function Read(st: State, clean: string, names: seq<string>, fold: string -> string): State {
    Place(st, Owner(clean, st.positional, names, fold), Phrases, fold)
  }

  function Reader(names: seq<string>, fold: string -> string): (State, string) -> State {
    (st: State, line: string) => var clean := CleanLine(line); if clean == "" then st else Read(st, clean, names, fold)
  }

  function ReadAll(lines: seq<string>, read: (State, string) -> State): State {
    if lines == [] then State(map[], 0) else read(ReadAll(lines[..|lines| - 1], read), lines[|lines| - 1])
  }

  lemma ReadNext(lines: seq<string>, i: nat, read: (State, string) -> State)
    requires i < |lines|
    ensures ReadAll(lines[..i + 1], read) == read(ReadAll(lines[..i], read), lines[i])
  {
    assert lines[..i + 1][..i] == lines[..i];
  }

  function Trims(items: seq<string>): seq<string> {
    seq(|items|, i requires 0 <= i < |items| => Trim(items[i]))
  }

  method Parse(raw: string, items: seq<string>, fold: string -> string) returns (out: map<string, seq<string>>)
    ensures out == ReadAll(Lines(raw), Reader(Trims(items), fold)).out
  {
    var names := Trims(items);
    var byName := IndexNames(names, fold);
    var lines := Lines(raw);
    ghost var read := Reader(names, fold);
    var positional := 0;
    out := map[];
    for i := 0 to |lines|
      invariant State(out, positional) == ReadAll(lines[..i], read)
    {
      ReadNext(lines, i, read);
      out, positional := ReadLine(out, positional, lines[i], names, byName, fold);
    }
    assert lines[..|lines|] == lines;
  }

  method IndexNames(names: seq<string>, fold: string -> string) returns (byName: map<string, string>)
    ensures byName == ByName(names, fold)
  {
    byName := map[];
    for i := 0 to |names|
      invariant byName == ByName(names[..i], fold)
    {
      assert names[..i + 1][..i] == names[..i];
      byName := byName[fold(names[i]) := names[i]];
    }
    assert names[..|names|] == names;
  }

  /** The body of the loop over the lines. */
  method ReadLine(out: map<string, seq<string>>, positional: nat, line: string, names: seq<string>,
                  byName: map<string, string>, fold: string -> string)
    returns (out': map<string, seq<string>>, positional': nat)
    requires byName == ByName(names, fold)
    ensures State(out', positional') == Reader(names, fold)(State(out, positional), line)
  {
    var clean := CleanLine(line);
    if clean == "" {
      return out, positional;
    }
    out', positional' := ReadClean(out, positional, clean, names, byName, fold);
  }

  method ReadClean(out: map<string, seq<string>>, positional: nat, clean: string, names: seq<string>,
                   byName: map<string, string>, fold: string -> string)
    returns (out': map<string, seq<string>>, positional': nat)
    requires byName == ByName(names, fold)
    ensures State(out', positional') == Read(State(out, positional), clean, names, fold)
  {
    var found := FindOwner(clean, positional, names, byName, fold);
    out', positional' := PlaceFound(out, positional, found, Phrases, fold);
  }

  method PlaceFound(out: map<string, seq<string>>, positional: nat, found: Option<(string, string)>,
                    phrasesOf: string -> seq<string>, fold: string -> string)
    returns (out': map<string, seq<string>>, positional': nat)
    ensures State(out', positional') == Place(State(out, positional), found, phrasesOf, fold)
  {
    out', positional' := out, positional;
    if found.Some? {
      var (owner, rest) := found.value;
      positional' := positional + 1;
      var phrases := phrasesOf(rest);
      if phrases != [] && owner !in out {
        var kept := Keep(phrases, fold);
        out' := out[owner := kept];
      }
    }
  }

  method FindOwner(clean: string, positional: nat, names: seq<string>, byName: map<string, string>,
                   fold: string -> string)
    returns (owner: Option<(string, string)>)
    requires byName == ByName(names, fold)
    ensures owner == Owner(clean, positional, names, fold)
  {
    owner := NamedBy(clean, byName, HeadKey(fold));
    if owner.None? {
      if positional >= |names| {
        return None;
      }
      owner := Some((names[positional], WithoutLabel(clean, IsLabel)));
    }
  }

  method Keep(phrases: seq<string>, fold: string -> string) returns (kept: seq<string>)
    ensures kept == Kept(phrases, fold)
  {
    var seen: set<string> := {};
    kept := [];
    for i := 0 to |phrases|
      invariant |kept| <= MAX_PER_PART
      invariant kept == Firsts(phrases[..i], fold) && seen == Seen(phrases[..i], fold)
    {
      FirstsSnoc(phrases[..i], phrases[i], fold);
      assert phrases[..i + 1] == phrases[..i] + [phrases[i]];
      var key := fold(phrases[i]);
      if key !in seen {
        if |kept| == MAX_PER_PART {
          FirstsGrow(phrases, i + 1, fold);
          return;
        }
        seen := seen + {key};
        kept := kept + [phrases[i]];
      }
    }
    assert phrases[..|phrases|] == phrases;
  }

  lemma {:induction false} FirstsGrow<T, K>(xs: seq<T>, i: nat, key: T -> K)
    requires i <= |xs|
    ensures Firsts(xs[..i], key) <= Firsts(xs, key)
    decreases |xs| - i
  {
    if i == |xs| {
      assert xs[..i] == xs;
    } else {
      FirstsSnoc(xs[..i], xs[i], key);
      assert xs[..i + 1] == xs[..i] + [xs[i]];
      FirstsGrow(xs, i + 1, key);
    }
  }

  // ---------- any reply ----------

  /** One to six phrases, none empty, no two alike when folded. */
  ghost predicate GoodList(phrases: seq<string>, fold: string -> string) {
    && 1 <= |phrases| <= MAX_PER_PART
    && "" !in phrases
    && forall i, j :: 0 <= i < j < |phrases| ==> fold(phrases[i]) != fold(phrases[j])
  }

  ghost predicate Sound(st: State, names: seq<string>, fold: string -> string) {
    forall name | name in st.out :: name in names && GoodList(st.out[name], fold)
  }

  lemma {:induction false} CleanedAreNotEmpty(pieces: seq<string>, clean: string -> string)
    ensures "" !in Cleaned(pieces, clean)
  {
    if pieces != [] {
      CleanedAreNotEmpty(pieces[..|pieces| - 1], clean);
    }
  }

  lemma KeptIsGood(phrases: seq<string>, fold: string -> string)
    requires phrases != [] && "" !in phrases
    ensures GoodList(Kept(phrases, fold), fold)
  {
    var firsts := Firsts(phrases, fold);
    var at := FirstsArePicked(phrases, fold);
    StartsAtFirst(firsts, phrases, fold, at);
    PickedKeysAreDistinct(firsts, phrases, fold, at);
    FirstsAreMembers(phrases, fold);
    assert forall phrase | phrase in Kept(phrases, fold) :: phrase in firsts;
  }

  lemma {:induction false} NamesAreItems(names: seq<string>, fold: string -> string)
    ensures forall key | key in ByName(names, fold) :: ByName(names, fold)[key] in names
  {
    if names != [] {
      NamesAreItems(names[..|names| - 1], fold);
    }
  }

  lemma OwnerIsItem(clean: string, positional: nat, names: seq<string>, fold: string -> string)
    ensures var owner := Owner(clean, positional, names, fold); owner.Some? ==> owner.value.0 in names
  {
    NamesAreItems(names, fold);
  }

  lemma RecordIsSound(st: State, owner: string, phrases: seq<string>, names: seq<string>, fold: string -> string)
    requires Sound(st, names, fold) && owner in names && "" !in phrases
    ensures Sound(Record(st, owner, phrases, fold), names, fold)
  {
    if phrases != [] {
      KeptIsGood(phrases, fold);
    }
  }

  lemma ReadIsSound(st: State, clean: string, names: seq<string>, fold: string -> string)
    requires Sound(st, names, fold)
    ensures Sound(Read(st, clean, names, fold), names, fold)
  {
    OwnerIsItem(clean, st.positional, names, fold);
    var found := Owner(clean, st.positional, names, fold);
    if found.Some? {
      var (owner, rest) := found.value;
      CleanedAreNotEmpty(Split(rest, IsComma), CleanPhrase);
      RecordIsSound(st, owner, Phrases(rest), names, fold);
    }
  }

  /** Whatever the model replies, phrases land on items only, and every list is short and without repeats. */
  lemma {:induction false} AnyReplyIsSound(lines: seq<string>, names: seq<string>, fold: string -> string)
    ensures Sound(ReadAll(lines, Reader(names, fold)), names, fold)
  {
    if lines != [] {
      AnyReplyIsSound(lines[..|lines| - 1], names, fold);
      var st := ReadAll(lines[..|lines| - 1], Reader(names, fold));
      LineIsSound(st, lines[|lines| - 1], names, fold);
    }
  }

  lemma LineIsSound(st: State, line: string, names: seq<string>, fold: string -> string)
    requires Sound(st, names, fold)
    ensures Sound(Reader(names, fold)(st, line), names, fold)
  {
    if CleanLine(line) != "" {
      ReadIsSound(st, CleanLine(line), names, fold);
    }
  }
}
