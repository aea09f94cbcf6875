/** Model slots: which provider an entry means, and the chain of calls it stands for. */
module Slots {
  import opened Wrappers
  import opened FirstOccurrences
  import opened Sorting
  import opened Text

  datatype Json = Str(s: string) | Arr(items: seq<Json>) | Other

  /** A provider's row; a row that is not an object has no fields. */
  type Config = map<string, Json>

  type Providers = map<string, Config>

  /** What a call inherits when its slot names nothing of its own. */
  datatype Parent = Parent(model: string, base: string, keys: seq<string>, providerId: string, kind: string)

  datatype Target = Target(model: string, base: string, keys: seq<string>, providerId: string)

  datatype Rung = Rung(target: Target, kind: string)

  /** One order in which the hash map may be walked. */
  ghost predicate Walks(order: seq<string>, providers: Providers) {
    Distinct(order) && forall id :: id in order <==> id in providers
  }

  // ---------- attribution ----------

  predicate IsStr(value: Option<Json>, s: string) {
    value.Some? && value.value.Str? && Trim(value.value.s) == s
  }

  function Field(cfg: Config, name: string): Option<Json> {
    if name in cfg then Some(cfg[name]) else None
  }

  /** `get(a).or_else(get(b))`: the second name is read only when the first is absent. */
  function EitherField(cfg: Config, name: string, alias: string): Option<Json> {
    if name in cfg then Some(cfg[name]) else Field(cfg, alias)
  }

  function OfKind(providers: Providers, kind: string): string -> bool {
    id => id in providers && IsStr(Field(providers[id], "kind"), kind)
  }

  function Listing(providers: Providers, model: string): string -> bool {
    id => id in providers &&
          match Field(providers[id], "models")
          case Some(Arr(items)) => exists m | m in items :: IsStr(Some(m), model)
          case _ => false
  }

  /** The ids that pass, in walking order. */
  function Matching(order: seq<string>, passes: string -> bool): seq<string> {
    if order == [] then []
    else
      var last := order[|order| - 1];
      if passes(last) then Matching(order[..|order| - 1], passes) + [last] else Matching(order[..|order| - 1], passes)
  }

  lemma MatchingSnoc(order: seq<string>, i: nat, passes: string -> bool)
    requires i < |order|
    ensures Matching(order[..i + 1], passes) ==
              if passes(order[i]) then Matching(order[..i], passes) + [order[i]] else Matching(order[..i], passes)
  {
    assert order[..i + 1][..i] == order[..i];
  }

  lemma {:induction false} MatchingGrows(order: seq<string>, i: nat, passes: string -> bool)
    requires i <= |order|
    ensures Matching(order[..i], passes) <= Matching(order, passes)
    decreases |order| - i
  {
    if i == |order| {
      assert order[..i] == order;
    } else {
      MatchingSnoc(order, i, passes);
      MatchingGrows(order, i + 1, passes);
    }
  }

  function KindOwnerOf(order: seq<string>, providers: Providers, kind: string): Option<string> {
    var owners := Matching(order, OfKind(providers, kind));
    if |owners| == 1 then Some(owners[0]) else None
  }

  /** An empty id is taken for "no owner yet". */
  function Settle(owners: seq<string>): string {
    if |owners| == 1 then owners[0]
    else if |owners| == 2 && owners[0] == "" then owners[1]
    else ""
  }

  function ModelOwnerOf(order: seq<string>, providers: Providers, model: string): string {
    Settle(Matching(order, Listing(providers, model)))
  }

  method KindOwner(kind: string, providers: Providers, order: seq<string>) returns (owner: Option<string>)
    ensures owner == KindOwnerOf(order, providers, kind)
  {
    var passes := OfKind(providers, kind);
    owner := None;
    for i := 0 to |order|
      invariant Matching(order[..i], passes) == if owner.Some? then [owner.value] else []
    {
      MatchingSnoc(order, i, passes);
      if !passes(order[i]) {
        continue;
      }
      if owner.Some? {
        MatchingGrows(order, i + 1, passes);
        return None;
      }
      owner := Some(order[i]);
    }
    assert order[..|order|] == order;
  }

  method OwnerOfModel(model: string, providers: Providers, order: seq<string>) returns (owner: string)
    requires Walks(order, providers)
    ensures owner == ModelOwnerOf(order, providers, model)
  {
    owner := Settled(order, Listing(providers, model));
  }

  /** The loop of `OwnerOfModel`. */
  method Settled(order: seq<string>, passes: string -> bool) returns (owner: string)
    requires Distinct(order)
    ensures owner == Settle(Matching(order, passes))
  {
    owner := "";
    for i := 0 to |order|
      invariant OwnerSoFar(owner, Matching(order[..i], passes))
    {
      MatchingSnoc(order, i, passes);
      if !passes(order[i]) {
        continue;
      }
      MatchesAreDistinct(order, i, passes);
      if owner != "" {
        MatchingGrows(order, i + 1, passes);
        SecondOwner(owner, Matching(order[..i], passes), order[i], Matching(order, passes));
        return "";
      }
      owner := order[i];
    }
    assert order[..|order|] == order;
  }

  ghost predicate OwnerSoFar(owner: string, owners: seq<string>) {
    owners == [owner] || (owner == "" && owners == []) || (owner != "" && owners == ["", owner])
  }

  lemma SecondOwner(owner: string, owners: seq<string>, next: string, all: seq<string>)
    requires owner != "" && OwnerSoFar(owner, owners) && next !in owners && owners + [next] <= all
    ensures Settle(all) == ""
  {
    assert all[0] == (owners + [next])[0] && all[1] == (owners + [next])[1];
  }

  /** The matches are the ids that pass, each once. */
  lemma {:induction false} MatchingIs(order: seq<string>, passes: string -> bool)
    ensures forall id :: id in Matching(order, passes) <==> id in order && passes(id)
  {
    if order != [] {
      MatchingIs(order[..|order| - 1], passes);
      assert order == order[..|order| - 1] + [order[|order| - 1]];
    }
  }

  lemma MatchesAreDistinct(order: seq<string>, i: nat, passes: string -> bool)
    requires i < |order| && Distinct(order)
    ensures order[i] !in Matching(order[..i], passes)
  {
    MatchingIs(order[..i], passes);
  }

  lemma {:induction false} MatchingDistinct(order: seq<string>, passes: string -> bool)
    requires Distinct(order)
    ensures Distinct(Matching(order, passes))
  {
    if order != [] {
      MatchingDistinct(order[..|order| - 1], passes);
      MatchesAreDistinct(order, |order| - 1, passes);
    }
  }

  lemma OnlyOne(ids: seq<string>, id: string)
    requires Distinct(ids)
    ensures ids == [id] <==> forall x :: x in ids <==> x == id
  {
    if |ids| > 1 {
      var x := if ids[0] != id then ids[0] else ids[1];
      assert ids[0] != ids[1];
      assert x in ids && x != id;
    } else if |ids| == 1 {
      assert ids == [ids[0]] && ids[0] in ids;
      assert forall x :: x in ids <==> x == ids[0];
    } else {
      assert id !in ids;
    }
  }

  lemma OnlyTwo(ids: seq<string>, a: string, b: string)
    requires Distinct(ids) && a != b
    ensures (ids == [a, b] || ids == [b, a]) <==> forall x :: x in ids <==> x == a || x == b
  {
    if |ids| > 2 {
      var x := if ids[0] != a && ids[0] != b then ids[0] else if ids[1] != a && ids[1] != b then ids[1] else ids[2];
      assert ids[0] != ids[1] && ids[1] != ids[2] && ids[0] != ids[2];
      assert x in ids && x != a && x != b;
    } else if |ids| == 2 {
      assert ids == [ids[0], ids[1]] && ids[0] in ids && ids[1] in ids && ids[0] != ids[1];
    } else {
      assert a !in ids || b !in ids;
    }
  }

  /** `id` is the one provider that passes. */
  ghost predicate Sole(providers: Providers, passes: string -> bool, id: string) {
    forall other :: other in providers && passes(other) <==> other == id
  }

  lemma SoleMatch(order: seq<string>, providers: Providers, passes: string -> bool, id: string)
    requires Walks(order, providers)
    ensures Sole(providers, passes, id) <==> Matching(order, passes) == [id]
  {
    MatchingIs(order, passes);
    MatchingDistinct(order, passes);
    OnlyOne(Matching(order, passes), id);
  }

  /** A kind names a provider exactly when one and only one row has it, in whatever order the map is walked. */
  lemma KindNamesTheSoleRow(order: seq<string>, providers: Providers, kind: string, id: string)
    requires Walks(order, providers)
    ensures KindOwnerOf(order, providers, kind) == Some(id) <==> Sole(providers, OfKind(providers, kind), id)
  {
    SoleMatch(order, providers, OfKind(providers, kind), id);
  }

  lemma KindIgnoresOrder(order: seq<string>, order': seq<string>, providers: Providers, kind: string)
    requires Walks(order, providers) && Walks(order', providers)
    ensures KindOwnerOf(order, providers, kind) == KindOwnerOf(order', providers, kind)
  {
    var owner, owner' := KindOwnerOf(order, providers, kind), KindOwnerOf(order', providers, kind);
    if owner.Some? {
      KindNamesTheSoleRow(order, providers, kind, owner.value);
      KindNamesTheSoleRow(order', providers, kind, owner.value);
    } else if owner'.Some? {
      KindNamesTheSoleRow(order, providers, kind, owner'.value);
      KindNamesTheSoleRow(order', providers, kind, owner'.value);
    }
  }

  /** Besides `id` only a provider with an empty id passes, and it does. */
  ghost predicate EmptyIdBeside(providers: Providers, passes: string -> bool, id: string) {
    id != "" && forall other :: other in providers && passes(other) <==> other == id || other == ""
  }

  lemma BesideMatch(order: seq<string>, providers: Providers, passes: string -> bool, id: string)
    requires Walks(order, providers) && id != ""
    ensures EmptyIdBeside(providers, passes, id) <==> Matching(order, passes) in {["", id], [id, ""]}
  {
    MatchingIs(order, passes);
    MatchingDistinct(order, passes);
    OnlyTwo(Matching(order, passes), id, "");
  }

  /** A model names a provider when it alone lists it, or beside an empty id that is walked first. */
  lemma SettledOwner(order: seq<string>, providers: Providers, passes: string -> bool, id: string)
    requires Walks(order, providers) && id != ""
    ensures Settle(Matching(order, passes)) == id <==>
              Sole(providers, passes, id)
              || (EmptyIdBeside(providers, passes, id) && Matching(order, passes) == ["", id])
  {
    SoleMatch(order, providers, passes, id);
    BesideMatch(order, providers, passes, id);
    var owners := Matching(order, passes);
    if |owners| == 2 && owners[0] == "" && owners[1] == id {
      assert owners == ["", id];
    } else if |owners| == 1 {
      assert owners == [owners[0]];
    }
  }

  /** With no empty id beside it, a model names a provider exactly when one and only one lists it. */
  lemma ModelNamesTheSoleRow(order: seq<string>, providers: Providers, model: string, id: string)
    requires Walks(order, providers) && id != "" && !EmptyIdBeside(providers, Listing(providers, model), id)
    ensures ModelOwnerOf(order, providers, model) == id <==> Sole(providers, Listing(providers, model), id)
  {
    SettledOwner(order, providers, Listing(providers, model), id);
  }

  lemma {:induction false} MatchingAppends(a: seq<string>, b: seq<string>, passes: string -> bool)
    ensures Matching(a + b, passes) == Matching(a, passes) + Matching(b, passes)
  {
    if b == [] {
      assert a + b == a;
    } else {
      var last := b[|b| - 1];
      assert (a + b)[..|a + b| - 1] == a + b[..|b| - 1] && (a + b)[|a + b| - 1] == last;
      MatchingAppends(a, b[..|b| - 1], passes);
    }
  }

  lemma Moved(a: seq<string>, id: string, b: seq<string>)
    requires Distinct(a + [id] + b)
    ensures Distinct([id] + (a + b)) && Distinct((a + b) + [id])
  {
    var was, rest := a + [id] + b, a + b;
    assert forall k | 0 <= k < |rest| :: rest[k] == was[if k < |a| then k else k + 1];
    assert was[|a|] == id;
    forall i, j | 0 <= i < j < |rest| ensures rest[i] != rest[j] {
      assert was[if i < |a| then i else i + 1] != was[if j < |a| then j else j + 1];
    }
    forall i | 0 <= i < |rest| ensures rest[i] != id {
    }
  }

  /** Any walk can be turned into one that meets a given id first, or last. */
  lemma Reordered(order: seq<string>, providers: Providers, id: string) returns (rest: seq<string>)
    requires Walks(order, providers) && id in providers
    ensures Walks([id] + rest, providers) && Walks(rest + [id], providers)
  {
    var i :| 0 <= i < |order| && order[i] == id;
    var a, b := order[..i], order[i + 1..];
    rest := a + b;
    assert order == a + [id] + b;
    Moved(a, id, b);
    assert forall x :: x in order <==> x in a || x == id || x in b;
    assert forall x :: x in [id] + rest <==> x in a || x == id || x in b;
    assert forall x :: x in rest + [id] <==> x in a || x == id || x in b;
  }

  ghost predicate OrderMatters(providers: Providers, passes: string -> bool) {
    exists order, order' :: Walks(order, providers) && Walks(order', providers)
                            && Settle(Matching(order, passes)) != Settle(Matching(order', passes))
  }

  /** The other lister is named when the empty id is met first, and nobody when it is met last. */
  lemma EmptyIdFirstOrLast(rest: seq<string>, providers: Providers, passes: string -> bool, id: string)
    requires Walks([""] + rest, providers) && Walks(rest + [""], providers) && EmptyIdBeside(providers, passes, id)
    ensures Settle(Matching([""] + rest, passes)) == id && Settle(Matching(rest + [""], passes)) == ""
  {
    BesideMatch([""] + rest, providers, passes, id);
    BesideMatch(rest + [""], providers, passes, id);
    EdgeMatches(rest, passes);
  }

  lemma EdgeMatches(rest: seq<string>, passes: string -> bool)
    ensures passes("") ==> Matching([""] + rest, passes) == [""] + Matching(rest, passes)
    ensures passes("") ==> Matching(rest + [""], passes) == Matching(rest, passes) + [""]
  {
    MatchingAppends([""], rest, passes);
    MatchingAppends(rest, [""], passes);
    assert [""][..0] == [];
  }

  lemma EmptyIdMatters(providers: Providers, passes: string -> bool, walk: seq<string>, id: string)
    requires Walks(walk, providers) && EmptyIdBeside(providers, passes, id)
    ensures OrderMatters(providers, passes)
  {
    assert "" in providers && passes("");
    var rest := Reordered(walk, providers, "");
    EmptyIdFirstOrLast(rest, providers, passes, id);
  }

  /** Model attribution depends on the walking order exactly when one provider lists the model beside an empty id. */
  lemma OnlyAnEmptyIdMakesOrderMatter(providers: Providers, model: string, walk: seq<string>)
    requires Walks(walk, providers)
    ensures OrderMatters(providers, Listing(providers, model)) <==>
              exists id :: EmptyIdBeside(providers, Listing(providers, model), id)
  {
    var passes := Listing(providers, model);
    if OrderMatters(providers, passes) {
      var order, order' :| Walks(order, providers) && Walks(order', providers)
                           && Settle(Matching(order, passes)) != Settle(Matching(order', passes));
      var owner, owner' := Settle(Matching(order, passes)), Settle(Matching(order', passes));
      var id := if owner != "" then owner else owner';
      SettledOwner(order, providers, passes, id);
      SettledOwner(order', providers, passes, id);
    }
    if id :| EmptyIdBeside(providers, passes, id) {
      EmptyIdMatters(providers, passes, walk, id);
    }
  }

  // ---------- slot entries ----------

  predicate Blank(s: string) {
    Trim(s) == ""
  }

  /** Entries that stand for the parent's own model. */
  const ALIASES := ["", "main", "main_model", "main model"]

  predicate IsAlias(entry: string) {
    Trim(entry) in ALIASES
  }

  /** What stands before and after the first slash, when something does. */
  function HeadOf(entry: string): Option<(string, string)> {
    match SplitOnce(entry, '/')
    case None => None
    case Some((head, rest)) => if Blank(head) then None else Some((Trim(head), Trim(rest)))
  }

  /** The provider an entry names ("" for none) and the model it asks for, given who owns a kind and a model. */
  function SplitWith(entry: string, head: Option<(string, string)>, known: set<string>,
                     kindOwner: string -> Option<string>, modelOwner: string -> string): (string, string) {
    match head
    case None => (modelOwner(entry), entry)
    case Some((head, rest)) =>
      if head in known then (head, rest)
      else
        match kindOwner(head)
        case Some(id) => (id, rest)
        case None => (modelOwner(entry), entry)
  }

  function KindOwners(order: seq<string>, providers: Providers): string -> Option<string> {
    kind => KindOwnerOf(order, providers, kind)
  }

  function ModelOwners(order: seq<string>, providers: Providers): string -> string {
    model => ModelOwnerOf(order, providers, model)
  }

  function SplitEntry(entry: string, order: seq<string>, providers: Providers): (string, string) {
    var entry := Trim(entry);
    SplitWith(entry, HeadOf(entry), providers.Keys, KindOwners(order, providers), ModelOwners(order, providers))
  }

  /** `id/model` names its parts again, with any white space around it and any slashes in the model. */
  lemma EntrySplitsBack(id: string, model: string, left: string, right: string, order: seq<string>,
                        providers: Providers)
    requires id in providers && id != "" && '/' !in id && Trimmed(id) && Trimmed(model)
    requires forall c | c in left + right :: IsSpace(c)
    ensures SplitEntry(left + (id + "/" + model) + right, order, providers) == (id, model)
  {
    CoreIsBare(id, model);
    DropAround(left, id + "/" + model, right, IsSpace);
    HeadBack(id, model);
  }

  lemma CoreIsBare(id: string, model: string)
    requires id != "" && Trimmed(id) && Trimmed(model)
    ensures Bare(id + "/" + model, IsSpace)
  {
    var core := id + "/" + model;
    assert core[0] == id[0];
    assert core[|core| - 1] == if model == "" then '/' else model[|model| - 1];
  }

  lemma HeadBack(id: string, model: string)
    requires id != "" && '/' !in id && Trimmed(id) && Trimmed(model)
    ensures HeadOf(id + "/" + model) == Some((id, model))
  {
    SplitOnceIs(id, '/', model);
    BareStays(id, IsSpace);
    BareStays(model, IsSpace);
  }

  function Strings(value: Option<Json>): seq<string> {
    match value
    case Some(Arr(items)) => StrItems(items)
    case _ => []
  }

  function StrItems(items: seq<Json>): seq<string> {
    if items == [] then []
    else
      var rest := StrItems(items[..|items| - 1]);
      var last := items[|items| - 1];
      if last.Str? then rest + [last.s] else rest
  }

  function BaseOf(cfg: Config, parentBase: string): string {
    match EitherField(cfg, "baseUrl", "base_url")
    case Some(Str(s)) => s
    case _ => parentBase
  }

  function OwnKeys(cfg: Config): seq<string> {
    var keys := Strings(EitherField(cfg, "apiKeys", "api_keys"));
    if keys != [] then keys
    else
      match Field(cfg, "apiKey")
      case Some(Str(k)) => [k]
      case _ => []
  }

  function ResolveTarget(entry: string, parent: Parent, order: seq<string>, providers: Providers): Target {
    if IsAlias(entry) then Target(parent.model, parent.base, parent.keys, parent.providerId)
    else
      var (provider, model) := SplitEntry(entry, order, providers);
      TargetAt(model, provider, Trim(provider), parent, providers)
  }

  function TargetAt(model: string, provider: string, id: string, parent: Parent, providers: Providers): Target {
    if provider == "" || id !in providers then Target(model, parent.base, parent.keys, parent.providerId)
    else Routed(model, id, providers[id], parent)
  }

  function Routed(model: string, id: string, cfg: Config, parent: Parent): Target {
    var base, own := BaseOf(cfg, parent.base), OwnKeys(cfg);
    Target(model, base, if own == [] && base == parent.base then parent.keys else own, id)
  }

  function KindOr(cfg: Config, kind: string): string {
    match Field(cfg, "kind")
    case Some(Str(k)) => if Blank(k) then kind else Trim(k)
    case _ => kind
  }

  function KindFor(id: string, parentKind: string, providers: Providers): string {
    if id == "" || id !in providers then parentKind else KindOr(providers[id], parentKind)
  }

  function ResolveKind(entry: string, parentKind: string, order: seq<string>, providers: Providers): string {
    KindFor(Trim(SplitEntry(entry, order, providers).0), parentKind, providers)
  }

  function Resolve(entry: string, parent: Parent, order: seq<string>, providers: Providers): Rung {
    Rung(ResolveTarget(entry, parent, order, providers), ResolveKind(entry, parent.kind, order, providers))
  }

  /** An entry that names a configured provider is sent to that provider, for the model it names. */
  lemma NamedEntryIsRouted(id: string, model: string, left: string, right: string, parent: Parent,
                           order: seq<string>, providers: Providers)
    requires id in providers && id != "" && '/' !in id && Trimmed(id) && Trimmed(model)
    requires forall c | c in left + right :: IsSpace(c)
    ensures ResolveTarget(left + (id + "/" + model) + right, parent, order, providers) ==
            Routed(model, id, providers[id], parent)
  {
    EntrySplitsBack(id, model, left, right, order, providers);
    SlashIsNoAlias(id, model, left, right);
    BareStays(id, IsSpace);
  }

  lemma SlashIsNoAlias(id: string, model: string, left: string, right: string)
    requires id != "" && Trimmed(id) && Trimmed(model) && forall c | c in left + right :: IsSpace(c)
    ensures !IsAlias(left + (id + "/" + model) + right)
  {
    var core := id + "/" + model;
    CoreIsBare(id, model);
    DropAround(left, core, right, IsSpace);
    assert core[|id|] == '/';
    AliasHasNoSlash(core, |id|);
  }

  lemma AliasHasNoSlash(s: string, k: nat)
    requires k < |s| && s[k] == '/'
    ensures s !in ALIASES
  {
    assert forall i | 0 <= i < |ALIASES| :: forall j | 0 <= j < |ALIASES[i]| :: ALIASES[i][j] != '/';
  }

  // ---------- where keys and base URLs come from ----------

  /** `k` is written in this provider's own row. */
  ghost predicate HoldsKey(cfg: Config, k: string) {
    || Field(cfg, "apiKey") == Some(Str(k))
    || (exists name, items | name in ["apiKeys", "api_keys"] && Field(cfg, name) == Some(Arr(items)) :: Str(k) in items)
  }

  ghost predicate HoldsBase(cfg: Config, base: string) {
    Field(cfg, "baseUrl") == Some(Str(base)) || Field(cfg, "base_url") == Some(Str(base))
  }

  lemma {:induction false} StrItemsAreItems(items: seq<Json>)
    ensures forall k :: k in StrItems(items) <==> Str(k) in items
  {
    if items != [] {
      StrItemsAreItems(items[..|items| - 1]);
      assert items == items[..|items| - 1] + [items[|items| - 1]];
    }
  }

  lemma OwnKeysAreHeld(cfg: Config)
    ensures forall k | k in OwnKeys(cfg) :: HoldsKey(cfg, k)
  {
    var value := EitherField(cfg, "apiKeys", "api_keys");
    match value
    case Some(Arr(items)) =>
      StrItemsAreItems(items);
      var name := if "apiKeys" in cfg then "apiKeys" else "api_keys";
      assert name in ["apiKeys", "api_keys"] && Field(cfg, name) == Some(Arr(items));
    case _ =>
  }

  /** The row's base URL field is there and is a string. */
  ghost predicate NamesBase(cfg: Config) {
    var field := EitherField(cfg, "baseUrl", "base_url");
    field.Some? && field.value.Str?
  }

  /**
   Every key is its own row's, sent to that row's base URL or, when the row names none, to the
   parent's; or it is one of the parent's, sent to the parent's base URL.
   */
  ghost predicate KeysMatchBase(t: Target, parent: Parent, providers: Providers) {
    && (t.base != parent.base ==> t.providerId in providers && HoldsBase(providers[t.providerId], t.base))
    && (forall k | k in t.keys ::
          || (k in parent.keys && t.base == parent.base)
          || (t.providerId in providers && HoldsKey(providers[t.providerId], k)
              && (HoldsBase(providers[t.providerId], t.base)
                  || (t.base == parent.base && !NamesBase(providers[t.providerId])))))
  }

  lemma RoutedKeysMatchBase(model: string, id: string, parent: Parent, providers: Providers)
    requires id in providers
    ensures KeysMatchBase(Routed(model, id, providers[id], parent), parent, providers)
  {
    OwnKeysAreHeld(providers[id]);
  }

  lemma TargetKeysMatchBase(entry: string, parent: Parent, order: seq<string>, providers: Providers)
    ensures KeysMatchBase(ResolveTarget(entry, parent, order, providers), parent, providers)
  {
    var (provider, model) := SplitEntry(entry, order, providers);
    TargetAtKeysMatchBase(model, provider, Trim(provider), parent, providers);
  }

  lemma TargetAtKeysMatchBase(model: string, provider: string, id: string, parent: Parent, providers: Providers)
    ensures KeysMatchBase(TargetAt(model, provider, id, parent, providers), parent, providers)
  {
    if id in providers {
      RoutedKeysMatchBase(model, id, parent, providers);
    }
  }

  /** `k` is a key of the row where the resolver looks: in its key list, or else its single key. */
  ghost predicate ReadsKey(cfg: Config, k: string) {
    var list := EitherField(cfg, "apiKeys", "api_keys");
    || (list.Some? && list.value.Arr? && Str(k) in list.value.items)
    || (Field(cfg, "apiKey") == Some(Str(k))
        && !(list.Some? && list.value.Arr? && exists x :: Str(x) in list.value.items))
  }

  ghost predicate HasOwnKey(cfg: Config) {
    exists k :: ReadsKey(cfg, k)
  }

  lemma OwnKeysAreRead(cfg: Config)
    ensures forall k :: k in OwnKeys(cfg) <==> ReadsKey(cfg, k)
    ensures OwnKeys(cfg) != [] <==> HasOwnKey(cfg)
  {
    var list := EitherField(cfg, "apiKeys", "api_keys");
    match list {
      case Some(Arr(items)) =>
        StrItemsAreItems(items);
        ListedKeys(StrItems(items));
      case _ =>
    }
    ListedKeys(OwnKeys(cfg));
  }

  lemma ListedKeys(keys: seq<string>)
    ensures keys != [] <==> exists k :: k in keys
  {
    if keys != [] {
      assert keys[0] in keys;
    }
  }

  /**
   The parent's keys are borrowed exactly by a keyless row on the parent's endpoint; a keyless row
   elsewhere has none.
   */
  lemma KeysAreBorrowedIff(model: string, id: string, parent: Parent, providers: Providers)
    requires id in providers
    ensures var t, cfg := Routed(model, id, providers[id], parent), providers[id];
            && (HasOwnKey(cfg) ==> t.keys != [] && forall k | k in t.keys :: HoldsKey(cfg, k))
            && (!HasOwnKey(cfg) ==> t.keys == if t.base == parent.base then parent.keys else [])
  {
    OwnKeysAreRead(providers[id]);
    OwnKeysAreHeld(providers[id]);
  }

  /** The provider whose row decides where an entry is sent; none when it stays with the parent. */
  function Route(alias: bool, provider: string, id: string, providers: Providers): Option<string> {
    if alias || provider == "" || id !in providers then None else Some(id)
  }

  function RouteOf(entry: string, order: seq<string>, providers: Providers): Option<string> {
    var provider := SplitEntry(entry, order, providers).0;
    Route(IsAlias(entry), provider, Trim(provider), providers)
  }

  /** A row sent with keys of its own to the parent's endpoint: it names no base URL, or the parent's. */
  ghost predicate SharesEndpoint(route: Option<string>, parent: Parent, providers: Providers) {
    && route.Some? && route.value in providers && HasOwnKey(providers[route.value])
    && (NamesBase(providers[route.value]) ==>
          EitherField(providers[route.value], "baseUrl", "base_url") == Some(Str(parent.base)))
  }

  /** The target takes its keys from the row it is routed to, and its base URL is the parent's. */
  ghost predicate OwnKeysAtParent(t: Target, route: Option<string>, parent: Parent, providers: Providers) {
    && route.Some? && route.value in providers && t.providerId == route.value
    && t.base == parent.base && t.keys != [] && forall k :: k in t.keys <==> ReadsKey(providers[route.value], k)
  }

  /** The parent's endpoint is sent a key that is not the parent's. */
  ghost predicate StrangeKeyAtParent(t: Target, parent: Parent) {
    t.base == parent.base && exists k :: k in t.keys && k !in parent.keys
  }

  /**
   An entry takes its own row's keys to the parent's endpoint exactly when that row has keys and
   names no other base URL.
   */
  lemma OwnKeysReachParentIff(entry: string, parent: Parent, order: seq<string>, providers: Providers)
    ensures var t, route := ResolveTarget(entry, parent, order, providers), RouteOf(entry, order, providers);
            && (OwnKeysAtParent(t, route, parent, providers) <==>
                SharesEndpoint(route, parent, providers))
            && (StrangeKeyAtParent(t, parent) <==>
                SharesEndpoint(route, parent, providers)
                && exists k :: ReadsKey(providers[route.value], k) && k !in parent.keys)
  {
    var (provider, model) := SplitEntry(entry, order, providers);
    if !IsAlias(entry) && provider != "" && Trim(provider) in providers {
      RoutedKeysReachParentIff(model, Trim(provider), parent, providers);
    }
  }

  lemma RoutedKeysReachParentIff(model: string, id: string, parent: Parent, providers: Providers)
    requires id in providers
    ensures var t, route := Routed(model, id, providers[id], parent), Some(id);
            && (OwnKeysAtParent(t, route, parent, providers) <==> SharesEndpoint(route, parent, providers))
            && (StrangeKeyAtParent(t, parent) <==>
                SharesEndpoint(route, parent, providers) && exists k :: ReadsKey(providers[id], k) && k !in parent.keys)
  {
    var t, cfg := Routed(model, id, providers[id], parent), providers[id];
    OwnKeysAreRead(cfg);
    ListedKeys(t.keys);
    assert t.base == parent.base <==>
           (NamesBase(cfg) ==> EitherField(cfg, "baseUrl", "base_url") == Some(Str(parent.base)));
    if HasOwnKey(cfg) {
      assert t.keys == OwnKeys(cfg);
    }
  }

  /**
   The resolver guards only one direction: a row with a key and no base URL takes that key to the
   parent's endpoint.
   */
  lemma OwnKeyCanReachParent(id: string, model: string, k: string, parent: Parent)
    returns (order: seq<string>, providers: Providers)
    requires id != "" && '/' !in id && Trimmed(id) && Trimmed(model) && k !in parent.keys
    ensures Walks(order, providers)
    ensures ResolveTarget(id + "/" + model, parent, order, providers) == Target(model, parent.base, [k], id)
    ensures StrangeKeyAtParent(ResolveTarget(id + "/" + model, parent, order, providers), parent)
  {
    var row: Config := map["apiKey" := Str(k)];
    order, providers := [id], map[id := row];
    NamedEntryIsRouted(id, model, "", "", parent, order, providers);
    assert "" + (id + "/" + model) + "" == id + "/" + model;
    KeyOnlyRow(row, k, parent.base);
  }

  lemma KeyOnlyRow(row: Config, k: string, base: string)
    requires row == map["apiKey" := Str(k)]
    ensures OwnKeys(row) == [k] && BaseOf(row, base) == base
  {
    assert "apiKeys" !in row && "api_keys" !in row && "baseUrl" !in row && "base_url" !in row;
  }

  // ---------- the chain ----------

  function KeyOf(rung: Rung): (string, string, string) {
    (Trim(rung.target.providerId), Trim(rung.target.model), Trim(rung.target.base))
  }

  /** What a fallback adds to the chain: nothing when it is blank or resolves to a blank model. */
  function Offers(parent: Parent, order: seq<string>, providers: Providers): string -> Option<Rung> {
    fb => if Blank(fb) then None else Callable(Resolve(fb, parent, order, providers))
  }

  function Callable(rung: Rung): Option<Rung> {
    if Blank(rung.target.model) then None else Some(rung)
  }

  function Offered<T>(fallbacks: seq<string>, offer: string -> Option<T>): seq<T> {
    if fallbacks == [] then []
    else
      var before, last := Offered(fallbacks[..|fallbacks| - 1], offer), offer(fallbacks[|fallbacks| - 1]);
      if last.Some? then before + [last.value] else before
  }

  lemma OfferedSnoc<T>(fallbacks: seq<string>, i: nat, offer: string -> Option<T>)
    requires i < |fallbacks|
    ensures Offered(fallbacks[..i + 1], offer) ==
              if offer(fallbacks[i]).Some? then Offered(fallbacks[..i], offer) + [offer(fallbacks[i]).value]
              else Offered(fallbacks[..i], offer)
  {
    assert fallbacks[..i + 1][..i] == fallbacks[..i];
  }

  lemma {:induction false} NothingOffered<T>(fallbacks: seq<string>, offer: string -> Option<T>)
    requires forall fb | fb in fallbacks :: offer(fb) == None
    ensures Offered(fallbacks, offer) == []
  {
    if fallbacks != [] {
      assert fallbacks[|fallbacks| - 1] in fallbacks;
      NothingOffered(fallbacks[..|fallbacks| - 1], offer);
    }
  }

  lemma {:induction false} OfferedBySome<T>(fallbacks: seq<string>, offer: string -> Option<T>, x: T)
    requires x in Offered(fallbacks, offer)
    ensures exists fb | fb in fallbacks :: offer(fb) == Some(x)
  {
    var before, last := fallbacks[..|fallbacks| - 1], fallbacks[|fallbacks| - 1];
    if x in Offered(before, offer) {
      OfferedBySome(before, offer, x);
    } else {
      assert last in fallbacks && offer(last) == Some(x);
    }
  }

  lemma {:induction false} OfferedIfSome<T>(fallbacks: seq<string>, offer: string -> Option<T>, fb: string)
    requires fb in fallbacks && offer(fb).Some?
    ensures offer(fb).value in Offered(fallbacks, offer)
  {
    var before, last := fallbacks[..|fallbacks| - 1], fallbacks[|fallbacks| - 1];
    if last != fb {
      OfferedIfSome(before, offer, fb);
    }
  }

  lemma {:induction false} SameOffers<T>(fallbacks: seq<string>, offer: string -> Option<T>,
                                         offer': string -> Option<T>)
    requires forall fb :: offer(fb) == offer'(fb)
    ensures Offered(fallbacks, offer) == Offered(fallbacks, offer')
  {
    if fallbacks != [] {
      SameOffers(fallbacks[..|fallbacks| - 1], offer, offer');
    }
  }

  /** Every call the slot and its fallbacks stand for, repeats included. */
  function AllRungs(entry: string, fallbacks: seq<string>, parent: Parent, order: seq<string>,
                    providers: Providers): seq<Rung> {
    [Resolve(entry, parent, order, providers)] + Offered(fallbacks, Offers(parent, order, providers))
  }

  method ResolveChain(entry: string, fallbacks: seq<string>, parent: Parent, order: seq<string>, providers: Providers)
    returns (chain: seq<Rung>)
    ensures chain == Firsts(AllRungs(entry, fallbacks, parent, order, providers), KeyOf)
  {
    var primary := Resolve(entry, parent, order, providers);
    if Blank(entry) && forall fb | fb in fallbacks :: Blank(fb) {
      chain := [primary];
      BlanksOfferNothing(fallbacks, parent, order, providers);
      FirstOfOne(primary, KeyOf);
    } else {
      chain := WalkFallbacks(primary, fallbacks, parent, order, providers);
    }
  }

  lemma BlanksOfferNothing(fallbacks: seq<string>, parent: Parent, order: seq<string>, providers: Providers)
    requires forall fb | fb in fallbacks :: Blank(fb)
    ensures Offered(fallbacks, Offers(parent, order, providers)) == []
  {
    NothingOffered(fallbacks, Offers(parent, order, providers));
  }

  /** The state of the loop after the first `i` fallbacks. */
  ghost predicate Walked<T, K>(picked: seq<T>, seen: set<K>, first: T, fallbacks: seq<string>, i: nat,
                               offer: string -> Option<T>, key: T -> K)
    requires i <= |fallbacks|
  {
    var all := [first] + Offered(fallbacks[..i], offer);
    picked == Firsts(all, key) && seen == Seen(all, key)
  }

  lemma WalkOne<T, K>(picked: seq<T>, seen: set<K>, first: T, fallbacks: seq<string>, i: nat,
                      offer: string -> Option<T>, key: T -> K)
    requires i < |fallbacks| && Walked(picked, seen, first, fallbacks, i, offer, key)
    ensures var next := offer(fallbacks[i]);
            if next.None? then Walked(picked, seen, first, fallbacks, i + 1, offer, key)
            else if key(next.value) in seen then Walked(picked, seen, first, fallbacks, i + 1, offer, key)
            else Walked(picked + [next.value], seen + {key(next.value)}, first, fallbacks, i + 1, offer, key)
  {
    OfferedSnoc(fallbacks, i, offer);
    var all, next := [first] + Offered(fallbacks[..i], offer), offer(fallbacks[i]);
    if next.Some? {
      FirstsSnoc(all, next.value, key);
      assert [first] + (Offered(fallbacks[..i], offer) + [next.value]) == all + [next.value];
      if key(next.value) in seen {
        assert seen == seen + {key(next.value)};
      }
    }
  }

  lemma WalkNone<T, K>(first: T, fallbacks: seq<string>, offer: string -> Option<T>, key: T -> K)
    ensures Walked([first], {key(first)}, first, fallbacks, 0, offer, key)
  {
    FirstOfOne(first, key);
    assert [first] + Offered(fallbacks[..0], offer) == [first];
  }

  lemma WalkedAll<T, K>(picked: seq<T>, seen: set<K>, first: T, fallbacks: seq<string>, offer: string -> Option<T>,
                        key: T -> K)
    requires Walked(picked, seen, first, fallbacks, |fallbacks|, offer, key)
    ensures picked == Firsts([first] + Offered(fallbacks, offer), key)
  {
    assert fallbacks[..|fallbacks|] == fallbacks;
  }

  /** The loop over the fallbacks. */
  method WalkFallbacks(primary: Rung, fallbacks: seq<string>, parent: Parent, order: seq<string>, providers: Providers)
    returns (chain: seq<Rung>)
    ensures chain == Firsts([primary] + Offered(fallbacks, Offers(parent, order, providers)), KeyOf)
  {
    chain := [primary];
    var seen := {KeyOf(primary)};
    ghost var offer := Offers(parent, order, providers);
    WalkNone(primary, fallbacks, offer, KeyOf);
    for i := 0 to |fallbacks|
      invariant Walked(chain, seen, primary, fallbacks, i, offer, KeyOf)
    {
      WalkOne(chain, seen, primary, fallbacks, i, offer, KeyOf);
      var next := Offer(fallbacks[i], parent, order, providers);
      if next.Some? {
        var key := KeyOf(next.value);
        if key !in seen {
          seen := seen + {key};
          chain := chain + [next.value];
        }
      }
    }
    WalkedAll(chain, seen, primary, fallbacks, offer, KeyOf);
  }

  /** The checks one fallback passes before it is looked up among the rungs. */
  method Offer(fb: string, parent: Parent, order: seq<string>, providers: Providers) returns (rung: Option<Rung>)
    ensures rung == Offers(parent, order, providers)(fb)
  {
    if Blank(fb) {
      return None;
    }
    var target := ResolveTarget(fb, parent, order, providers);
    if Blank(target.model) {
      return None;
    }
    rung := Some(Rung(target, ResolveKind(fb, parent.kind, order, providers)));
  }

  /**
   The chain starts at the slot's own model, keeps each fallback's first rung in the user's order,
   and repeats no call.
   */
  lemma ChainIsFirsts(entry: string, fallbacks: seq<string>, parent: Parent, order: seq<string>, providers: Providers)
    returns (at: seq<nat>)
    ensures var rungs := AllRungs(entry, fallbacks, parent, order, providers);
            var chain := Firsts(rungs, KeyOf);
            && PicksFirsts(chain, rungs, KeyOf, at)
            && chain != [] && chain[0] == Resolve(entry, parent, order, providers)
            && forall i, j :: 0 <= i < j < |chain| ==> KeyOf(chain[i]) != KeyOf(chain[j])
  {
    var rungs := AllRungs(entry, fallbacks, parent, order, providers);
    at := FirstsArePicked(rungs, KeyOf);
    StartsAtFirst(Firsts(rungs, KeyOf), rungs, KeyOf, at);
    PickedKeysAreDistinct(Firsts(rungs, KeyOf), rungs, KeyOf, at);
  }

  /**
   The chain is the slot's own rung alone exactly when every fallback that offers a call offers one
   of that rung's key. Whether the entry is empty plays no part.
   */
  lemma ChainIsTheSlotAlone(entry: string, fallbacks: seq<string>, parent: Parent, order: seq<string>,
                            providers: Providers)
    ensures var own, offer := Resolve(entry, parent, order, providers), Offers(parent, order, providers);
            Firsts(AllRungs(entry, fallbacks, parent, order, providers), KeyOf) == [own] <==>
            forall fb | fb in fallbacks && offer(fb).Some? :: KeyOf(offer(fb).value) == KeyOf(own)
  {
    var own, offer := Resolve(entry, parent, order, providers), Offers(parent, order, providers);
    OnlyTheFirstStays(own, Offered(fallbacks, offer), KeyOf);
    EveryOffer(fallbacks, offer, KeyOf, KeyOf(own));
  }

  lemma EveryOffer<T, K>(fallbacks: seq<string>, offer: string -> Option<T>, key: T -> K, k: K)
    ensures (forall x | x in Offered(fallbacks, offer) :: key(x) == k) <==>
            forall fb | fb in fallbacks && offer(fb).Some? :: key(offer(fb).value) == k
  {
    forall fb | fb in fallbacks && offer(fb).Some? ensures offer(fb).value in Offered(fallbacks, offer) {
      OfferedIfSome(fallbacks, offer, fb);
    }
    forall x | x in Offered(fallbacks, offer) ensures exists fb | fb in fallbacks :: offer(fb) == Some(x) {
      OfferedBySome(fallbacks, offer, x);
    }
  }

  /** An empty entry whose one fallback is walked: the chain has two rungs. */
  lemma EmptyEntryIsWalkedOn(id: string, model: string, parent: Parent)
    returns (order: seq<string>, providers: Providers)
    requires id != "" && '/' !in id && Trimmed(id) && Trimmed(model) && model != "" && Trim(parent.model) != model
    ensures Walks(order, providers)
    ensures var own := Resolve("", parent, order, providers);
            var other := Resolve(id + "/" + model, parent, order, providers);
            Firsts(AllRungs("", [id + "/" + model], parent, order, providers), KeyOf) == [own, other]
  {
    order, providers := [id], map[id := map[]];
    var fb := id + "/" + model;
    NamedOffer(id, model, parent, order, providers);
    EmptyIsAlias();
    AliasIsTheParent("", parent, order, providers);
    var own, other := Resolve("", parent, order, providers), Resolve(fb, parent, order, providers);
    KeysDiffer(own, other);
    TwoRungs(own, other, fb, Offers(parent, order, providers), KeyOf);
  }

  lemma NamedOffer(id: string, model: string, parent: Parent, order: seq<string>, providers: Providers)
    requires id in providers && id != "" && '/' !in id && Trimmed(id) && Trimmed(model) && model != ""
    ensures var fb := id + "/" + model;
            && Resolve(fb, parent, order, providers).target.model == model
            && Offers(parent, order, providers)(fb) == Some(Resolve(fb, parent, order, providers))
  {
    NamedEntryIsRouted(id, model, "", "", parent, order, providers);
    assert "" + (id + "/" + model) + "" == id + "/" + model;
    BareStays(model, IsSpace);
    NamedIsNotBlank(id, model);
  }

  lemma EmptyIsAlias()
    ensures IsAlias("")
  {
    assert Trim("") == "" && ALIASES[0] == "";
  }

  lemma AliasIsTheParent(entry: string, parent: Parent, order: seq<string>, providers: Providers)
    requires IsAlias(entry)
    ensures ResolveTarget(entry, parent, order, providers).model == parent.model
  {
  }

  lemma KeysDiffer(own: Rung, other: Rung)
    requires Trimmed(other.target.model) && Trim(own.target.model) != other.target.model
    ensures KeyOf(own) != KeyOf(other)
  {
    BareStays(other.target.model, IsSpace);
    assert KeyOf(own).1 != KeyOf(other).1;
  }

  lemma TwoRungs<T, K>(own: T, other: T, fb: string, offer: string -> Option<T>, key: T -> K)
    requires offer(fb) == Some(other) && key(own) != key(other)
    ensures Firsts([own] + Offered([fb], offer), key) == [own, other]
  {
    assert [fb][..0] == [] && Offered([fb], offer) == [] + [other];
    FirstOfOne(own, key);
    FirstsSnoc([own], other, key);
    assert [own] + [other] == [own, other];
  }

  lemma NamedIsNotBlank(id: string, model: string)
    requires id != "" && Trimmed(id) && Trimmed(model)
    ensures !Blank(id + "/" + model)
  {
    CoreIsBare(id, model);
    BareStays(id + "/" + model, IsSpace);
  }

  /** Every key of every rung of any chain is accounted for. */
  lemma ChainKeysMatchBase(entry: string, fallbacks: seq<string>, parent: Parent, order: seq<string>,
                           providers: Providers)
    ensures forall rung | rung in Firsts(AllRungs(entry, fallbacks, parent, order, providers), KeyOf) ::
              KeysMatchBase(rung.target, parent, providers)
  {
    var rungs := AllRungs(entry, fallbacks, parent, order, providers);
    FirstsAreMembers(rungs, KeyOf);
    forall rung | rung in rungs
      ensures KeysMatchBase(rung.target, parent, providers)
    {
      RungIsResolved(entry, fallbacks, parent, order, providers, rung);
      var fb :| Resolve(fb, parent, order, providers) == rung;
      TargetKeysMatchBase(fb, parent, order, providers);
    }
  }

  lemma RungIsResolved(entry: string, fallbacks: seq<string>, parent: Parent, order: seq<string>, providers: Providers,
                       rung: Rung)
    requires rung in AllRungs(entry, fallbacks, parent, order, providers)
    ensures exists fb :: Resolve(fb, parent, order, providers) == rung
  {
    if rung != Resolve(entry, parent, order, providers) {
      OfferedBySome(fallbacks, Offers(parent, order, providers), rung);
      var fb :| fb in fallbacks && Offers(parent, order, providers)(fb) == Some(rung);
      OfferIsResolved(fb, parent, order, providers);
    }
  }

  lemma OfferIsResolved(fb: string, parent: Parent, order: seq<string>, providers: Providers)
    ensures var offer := Offers(parent, order, providers)(fb);
            offer.Some? ==> offer.value == Resolve(fb, parent, order, providers)
  {
  }

  // ---------- walking order ----------

  lemma ModelIgnoresOrder(order: seq<string>, order': seq<string>, providers: Providers, model: string)
    requires Walks(order, providers) && Walks(order', providers) && "" !in providers
    ensures ModelOwnerOf(order, providers, model) == ModelOwnerOf(order', providers, model)
  {
    var owner, owner' := ModelOwnerOf(order, providers, model), ModelOwnerOf(order', providers, model);
    var id := if owner != "" then owner else owner';
    if id != "" {
      assert !EmptyIdBeside(providers, Listing(providers, model), id);
      ModelNamesTheSoleRow(order, providers, model, id);
      ModelNamesTheSoleRow(order', providers, model, id);
    }
  }

  lemma SameOwnersSameSplit(entry: string, head: Option<(string, string)>, known: set<string>,
                            kindOwner: string -> Option<string>, modelOwner: string -> string,
                            kindOwner': string -> Option<string>, modelOwner': string -> string)
    requires forall kind :: kindOwner(kind) == kindOwner'(kind)
    requires forall model :: modelOwner(model) == modelOwner'(model)
    ensures SplitWith(entry, head, known, kindOwner, modelOwner) ==
            SplitWith(entry, head, known, kindOwner', modelOwner')
  {
  }

  /** Without an empty provider id an entry means the same provider in whatever order the map is walked. */
  lemma SplitIgnoresOrder(entry: string, order: seq<string>, order': seq<string>, providers: Providers)
    requires Walks(order, providers) && Walks(order', providers) && "" !in providers
    ensures SplitEntry(entry, order, providers) == SplitEntry(entry, order', providers)
  {
    var kindOwner, kindOwner' := KindOwners(order, providers), KindOwners(order', providers);
    var modelOwner, modelOwner' := ModelOwners(order, providers), ModelOwners(order', providers);
    forall kind ensures kindOwner(kind) == kindOwner'(kind) {
      KindIgnoresOrder(order, order', providers, kind);
    }
    forall model ensures modelOwner(model) == modelOwner'(model) {
      ModelIgnoresOrder(order, order', providers, model);
    }
    SameOwnersSameSplit(Trim(entry), HeadOf(Trim(entry)), providers.Keys,
                        kindOwner, modelOwner, kindOwner', modelOwner');
  }

  lemma ResolveIgnoresOrder(entry: string, parent: Parent, order: seq<string>, order': seq<string>,
                            providers: Providers)
    requires Walks(order, providers) && Walks(order', providers) && "" !in providers
    ensures Resolve(entry, parent, order, providers) == Resolve(entry, parent, order', providers)
  {
    SplitIgnoresOrder(entry, order, order', providers);
  }

  lemma OfferIgnoresOrder(fb: string, parent: Parent, order: seq<string>, order': seq<string>, providers: Providers)
    requires Resolve(fb, parent, order, providers) == Resolve(fb, parent, order', providers)
    ensures Offers(parent, order, providers)(fb) == Offers(parent, order', providers)(fb)
  {
  }

  lemma ChainIgnoresOrder(entry: string, fallbacks: seq<string>, parent: Parent,
                          order: seq<string>, order': seq<string>, providers: Providers)
    requires Walks(order, providers) && Walks(order', providers) && "" !in providers
    ensures Firsts(AllRungs(entry, fallbacks, parent, order, providers), KeyOf)
            == Firsts(AllRungs(entry, fallbacks, parent, order', providers), KeyOf)
  {
    var offer, offer' := Offers(parent, order, providers), Offers(parent, order', providers);
    forall fb ensures offer(fb) == offer'(fb) {
      ResolveIgnoresOrder(fb, parent, order, order', providers);
      OfferIgnoresOrder(fb, parent, order, order', providers);
    }
    SameOffers(fallbacks, offer, offer');
    ResolveIgnoresOrder(entry, parent, order, order', providers);
  }

  // ---------- the endpoint kind ----------

  /**
   An entry that stays with the parent although a provider claims it, or one routed to a provider
   with an empty id.
   */
  ghost predicate KindStrays(entry: string, parentKind: string, order: seq<string>, providers: Providers) {
    var provider := SplitEntry(entry, order, providers).0;
    var id := Trim(provider);
    && id in providers && KindOr(providers[id], parentKind) != parentKind
    && if IsAlias(entry) then id != "" else provider != "" && id == ""
  }

  /** The kind a rung should carry: that of the provider it is sent to, else the parent's. */
  ghost function KindOfRoute(route: Option<string>, parentKind: string, providers: Providers): string
    requires route.Some? ==> route.value in providers
  {
    if route.Some? then KindOr(providers[route.value], parentKind) else parentKind
  }

  lemma KindFollowsRoute(entry: string, parentKind: string, order: seq<string>, providers: Providers)
    ensures ResolveKind(entry, parentKind, order, providers)
            == KindOfRoute(RouteOf(entry, order, providers), parentKind, providers)
            <==> !KindStrays(entry, parentKind, order, providers)
  {
    var provider := SplitEntry(entry, order, providers).0;
    RoutedKind(IsAlias(entry), provider, Trim(provider), parentKind, providers);
  }

  lemma RoutedKind(alias: bool, provider: string, id: string, parentKind: string, providers: Providers)
    requires provider == "" ==> id == ""
    ensures KindFor(id, parentKind, providers) ==
            KindOfRoute(Route(alias, provider, id, providers), parentKind, providers)
            <==> !(&& id in providers && KindOr(providers[id], parentKind) != parentKind
                   && if alias then id != "" else provider != "" && id == "")
  {
  }

  /**
   A slot set to "main" whose name one provider alone lists as a model keeps that provider's kind for
   the parent's endpoint.
   */
  lemma ListedAliasStrays(parentKind: string, order: seq<string>, providers: Providers, id: string)
    requires Walks(order, providers) && Sole(providers, Listing(providers, "main"), id) && id != "" && Trimmed(id)
    requires KindOr(providers[id], parentKind) != parentKind
    ensures KindStrays("main", parentKind, order, providers)
  {
    MainIsBare();
    SoleMatch(order, providers, Listing(providers, "main"), id);
    BareStays(id, IsSpace);
  }

  lemma MainIsBare()
    ensures Trim("main") == "main" && SplitOnce("main", '/') == None
  {
    BareStays("main", IsSpace);
  }

  /** Any two kinds can be mixed up so. */
  lemma AliasCanStray(id: string, kind: string, parentKind: string) returns (order: seq<string>, providers: Providers)
    requires Trimmed(id) && id != "" && Trimmed(kind) && kind != "" && kind != parentKind
    ensures Walks(order, providers) && KindStrays("main", parentKind, order, providers)
  {
    var row := map["kind" := Str(kind), "models" := Arr([Str("main")])];
    order, providers := [id], map[id := row];
    assert Field(row, "kind") == Some(Str(kind));
    OwnKind(row, kind, parentKind);
    MainIsListed(id, row, providers);
    ListedAliasStrays(parentKind, order, providers, id);
  }

  lemma OwnKind(row: Config, kind: string, parentKind: string)
    requires Field(row, "kind") == Some(Str(kind)) && Trimmed(kind) && kind != ""
    ensures KindOr(row, parentKind) == kind
  {
    BareStays(kind, IsSpace);
  }

  lemma MainIsListed(id: string, row: Config, providers: Providers)
    requires providers == map[id := row] && Field(row, "models") == Some(Arr([Str("main")]))
    ensures Sole(providers, Listing(providers, "main"), id)
  {
    MainIsBare();
    assert [Str("main")][0] in [Str("main")];
    assert IsStr(Some(Str("main")), "main");
  }
}
