/** What a slot entry stands for, said of its text and of the provider rows alone. */
module SlotMeaning {
  import opened Wrappers
  import opened FirstOccurrences
  import opened Text
  import opened Slots

  // ---------- rows ----------

  ghost predicate HasKind(cfg: Config, kind: string) {
    exists s :: "kind" in cfg && cfg["kind"] == Str(s) && Trim(s) == kind
  }

  ghost predicate ListsModel(cfg: Config, model: string) {
    && "models" in cfg && cfg["models"].Arr?
    && exists s :: Str(s) in cfg["models"].items && Trim(s) == model
  }

  /** `id` is the one row of that kind. */
  ghost predicate SoleOfKind(providers: Providers, kind: string, id: string) {
    id in providers && forall other | other in providers :: HasKind(providers[other], kind) <==> other == id
  }

  /** `id` is the one row that lists the model. */
  ghost predicate SoleToList(providers: Providers, model: string, id: string) {
    id in providers && forall other | other in providers :: ListsModel(providers[other], model) <==> other == id
  }

  /** `id` and the row with the empty id list the model, and no other. */
  ghost predicate ListsBesideEmpty(providers: Providers, model: string, id: string) {
    && id in providers && "" in providers && id != ""
    && forall other | other in providers :: ListsModel(providers[other], model) <==> other == id || other == ""
  }

  // ---------- where a call goes ----------

  /** The row's key list is `keys`, all of them strings. */
  ghost predicate ListsKeys(cfg: Config, keys: seq<string>) {
    var list := EitherField(cfg, "apiKeys", "api_keys");
    && list.Some? && list.value.Arr? && |list.value.items| == |keys|
    && forall i | 0 <= i < |keys| :: list.value.items[i] == Str(keys[i])
  }

  /** To provider `id` for `model`: its base URL or else the parent's, its keys or else what may be borrowed. */
  ghost predicate SentTo(t: Target, model: string, id: string, parent: Parent, providers: Providers) {
    && id in providers && t.model == model && t.providerId == id
    && (var cfg := providers[id];
        && (if NamesBase(cfg) then EitherField(cfg, "baseUrl", "base_url") == Some(Str(t.base))
           else t.base == parent.base)
        && (HasOwnKey(cfg) ==> forall k :: k in t.keys <==> ReadsKey(cfg, k))
        && (!HasOwnKey(cfg) ==> t.keys == if t.base == parent.base then parent.keys else [])
        && (forall keys | keys != [] && ListsKeys(cfg, keys) :: t.keys == keys))
  }

  /** To the parent's endpoint, with the parent's keys, for `model`. */
  ghost predicate StaysWithParent(t: Target, model: string, parent: Parent) {
    t == Target(model, parent.base, parent.keys, parent.providerId)
  }

  /** The provider named `id`; an empty name, or one that is no row once trimmed, is the parent. */
  ghost predicate GoesTo(t: Target, model: string, id: string, parent: Parent, providers: Providers) {
    if id != "" && Trim(id) in providers then SentTo(t, model, Trim(id), parent, providers)
    else StaysWithParent(t, model, parent)
  }

  // ---------- what an entry says ----------

  /** The first slash, with something before it. */
  ghost predicate HeadAt(text: string, k: nat) {
    k < |text| && text[k] == '/' && '/' !in text[..k] && Trim(text[..k]) != ""
  }

  /** The head names a provider: a row's id, or the kind of exactly one row. */
  ghost predicate NamesProvider(head: string, providers: Providers) {
    head in providers || exists id :: SoleOfKind(providers, head, id)
  }

  /** An entry whose text is asked for as it stands: by the one provider that lists it, else by the parent. */
  ghost predicate AskedWhole(text: string, t: Target, parent: Parent, providers: Providers) {
    && t.model == text
    && (forall id | SoleToList(providers, text, id) :: GoesTo(t, text, id, parent, providers))
    && (forall id | ListsBesideEmpty(providers, text, id) ::
          GoesTo(t, text, id, parent, providers) || StaysWithParent(t, text, parent))
    && ((forall id :: !SoleToList(providers, text, id) && !ListsBesideEmpty(providers, text, id)) ==>
          StaysWithParent(t, text, parent))
  }

  /** A text that is no alias: its head's provider for the rest, or the text as it stands. */
  ghost predicate TextMeans(text: string, t: Target, parent: Parent, providers: Providers) {
    && (forall k: nat | HeadAt(text, k) && Trim(text[..k]) in providers ::
          GoesTo(t, Trim(text[k + 1..]), Trim(text[..k]), parent, providers))
    && (forall k: nat, id | HeadAt(text, k) && Trim(text[..k]) !in providers
                            && SoleOfKind(providers, Trim(text[..k]), id) ::
          GoesTo(t, Trim(text[k + 1..]), id, parent, providers))
    && ((forall k: nat | HeadAt(text, k) :: !NamesProvider(Trim(text[..k]), providers)) ==>
          AskedWhole(text, t, parent, providers))
  }

  /** The whole of it: `t` is what `entry` stands for. */
  ghost predicate Means(entry: string, t: Target, parent: Parent, providers: Providers) {
    if Trim(entry) in ["", "main", "main_model", "main model"]
    then t == Target(parent.model, parent.base, parent.keys, parent.providerId)
    else TextMeans(Trim(entry), t, parent, providers)
  }

  // ---------- the resolver gives that ----------

  lemma RowsOfKind(providers: Providers, kind: string)
    ensures forall id :: OfKind(providers, kind)(id) <==> id in providers && HasKind(providers[id], kind)
    ensures forall id :: Sole(providers, OfKind(providers, kind), id) <==> SoleOfKind(providers, kind, id)
  {
    forall id ensures OfKind(providers, kind)(id) <==> id in providers && HasKind(providers[id], kind) {
      if id in providers && "kind" in providers[id] && providers[id]["kind"].Str? {
        assert providers[id]["kind"] == Str(providers[id]["kind"].s);
      }
    }
  }

  lemma RowsThatList(providers: Providers, model: string)
    ensures forall id :: Sole(providers, Listing(providers, model), id) <==> SoleToList(providers, model, id)
    ensures forall id :: EmptyIdBeside(providers, Listing(providers, model), id) <==>
            ListsBesideEmpty(providers, model, id)
  {
    var passes := Listing(providers, model);
    forall id | id in providers ensures passes(id) <==> ListsModel(providers[id], model) {
      ListedModel(providers[id], model);
    }
    forall id ensures Sole(providers, passes, id) <==> SoleToList(providers, model, id)
              ensures EmptyIdBeside(providers, passes, id) <==> ListsBesideEmpty(providers, model, id) {
      SameRows(providers, passes, model, id);
    }
  }

  lemma SameRows(providers: Providers, passes: string -> bool, model: string, id: string)
    requires forall other | other in providers :: passes(other) <==> ListsModel(providers[other], model)
    ensures Sole(providers, passes, id) <==> SoleToList(providers, model, id)
    ensures EmptyIdBeside(providers, passes, id) <==> ListsBesideEmpty(providers, model, id)
  {
  }

  lemma ListedModel(cfg: Config, model: string)
    ensures ListsModel(cfg, model) <==>
            match Field(cfg, "models")
            case Some(Arr(items)) => exists m | m in items :: IsStr(Some(m), model)
            case _ => false
  {
    if "models" in cfg && cfg["models"].Arr? {
      var items := cfg["models"].items;
      if m :| m in items && IsStr(Some(m), model) {
        assert m == Str(m.s);
      }
      if s :| Str(s) in items && Trim(s) == model {
        assert IsStr(Some(Str(s)), model);
      }
    }
  }

  lemma {:induction false} AllStrings(items: seq<Json>, keys: seq<string>)
    requires |items| == |keys| && forall i | 0 <= i < |keys| :: items[i] == Str(keys[i])
    ensures StrItems(items) == keys
  {
    if items != [] {
      AllStrings(items[..|items| - 1], keys[..|keys| - 1]);
    }
  }

  lemma RoutedIsSent(model: string, id: string, parent: Parent, providers: Providers)
    requires id in providers
    ensures SentTo(Routed(model, id, providers[id], parent), model, id, parent, providers)
  {
    var cfg := providers[id];
    OwnKeysAreRead(cfg);
    forall keys | keys != [] && ListsKeys(cfg, keys) ensures OwnKeys(cfg) == keys {
      AllStrings(EitherField(cfg, "apiKeys", "api_keys").value.items, keys);
    }
  }

  lemma TargetGoesTo(model: string, id: string, parent: Parent, providers: Providers)
    ensures GoesTo(TargetAt(model, id, Trim(id), parent, providers), model, id, parent, providers)
  {
    if id != "" && Trim(id) in providers {
      RoutedIsSent(model, Trim(id), parent, providers);
    }
  }

  lemma HeadIsThere(text: string, k: nat)
    requires HeadAt(text, k)
    ensures HeadOf(text) == Some((Trim(text[..k]), Trim(text[k + 1..])))
  {
    var head, rest := text[..k], text[k + 1..];
    SplitOnceIs(head, '/', rest);
    assert text == head + ['/'] + rest;
  }

  lemma HeadIsFound(text: string) returns (k: nat)
    requires HeadOf(text).Some?
    ensures HeadAt(text, k)
  {
    var head := SplitOnce(text, '/').value.0;
    k := |head|;
    assert text[..k] == head;
  }

  lemma HeadByPosition(text: string)
    ensures forall k: nat | HeadAt(text, k) :: HeadOf(text) == Some((Trim(text[..k]), Trim(text[k + 1..])))
    ensures HeadOf(text) == None <==> forall k: nat :: !HeadAt(text, k)
  {
    forall k: nat | HeadAt(text, k) ensures HeadOf(text) == Some((Trim(text[..k]), Trim(text[k + 1..]))) {
      HeadIsThere(text, k);
    }
    if HeadOf(text).Some? {
      var k := HeadIsFound(text);
    }
  }

  /** An owner found by the loops is one the rows give, and none is missed. */
  lemma KindOwnerIsSole(order: seq<string>, providers: Providers, kind: string)
    requires Walks(order, providers)
    ensures forall id :: KindOwnerOf(order, providers, kind) == Some(id) <==> SoleOfKind(providers, kind, id)
  {
    RowsOfKind(providers, kind);
    forall id ensures KindOwnerOf(order, providers, kind) == Some(id) <==> SoleOfKind(providers, kind, id) {
      KindNamesTheSoleRow(order, providers, kind, id);
    }
  }

  lemma ModelOwnerIsSole(order: seq<string>, providers: Providers, model: string)
    requires Walks(order, providers)
    ensures var owner := ModelOwnerOf(order, providers, model);
            && (owner != "" ==> SoleToList(providers, model, owner) || ListsBesideEmpty(providers, model, owner))
            && (forall id | SoleToList(providers, model, id) :: owner == id)
            && (forall id | ListsBesideEmpty(providers, model, id) :: owner == id || owner == "")
  {
    RowsThatList(providers, model);
    var passes, owner := Listing(providers, model), ModelOwnerOf(order, providers, model);
    if owner != "" {
      SettledOwner(order, providers, passes, owner);
    }
    forall id | SoleToList(providers, model, id) ensures owner == id {
      SoleMatch(order, providers, passes, id);
    }
    forall id | ListsBesideEmpty(providers, model, id) ensures owner == id || owner == "" {
      BesideMatch(order, providers, passes, id);
    }
  }

  lemma WholeTextIsAsked(text: string, parent: Parent, order: seq<string>, providers: Providers)
    requires Walks(order, providers)
    ensures var owner := ModelOwnerOf(order, providers, text);
            AskedWhole(text, TargetAt(text, owner, Trim(owner), parent, providers), parent, providers)
  {
    var owner := ModelOwnerOf(order, providers, text);
    ModelOwnerIsSole(order, providers, text);
    TargetGoesTo(text, owner, parent, providers);
  }

  /** Where the head names a provider, that provider; else whoever the text belongs to. */
  ghost predicate SplitAs(text: string, provider: string, model: string, order: seq<string>, providers: Providers) {
    var head := HeadOf(text);
    if head.Some? && head.value.0 in providers then provider == head.value.0 && model == head.value.1
    else if head.Some? && KindOwnerOf(order, providers, head.value.0).Some?
    then provider == KindOwnerOf(order, providers, head.value.0).value && model == head.value.1
    else provider == ModelOwnerOf(order, providers, text) && model == text
  }

  lemma SplitIs(entry: string, order: seq<string>, providers: Providers)
    ensures var split := SplitEntry(entry, order, providers);
            SplitAs(Trim(entry), split.0, split.1, order, providers)
  {
  }

  lemma HeadedText(text: string, t: Target, k: nat, provider: string, parent: Parent, providers: Providers)
    requires HeadAt(text, k) && GoesTo(t, Trim(text[k + 1..]), provider, parent, providers)
    requires if Trim(text[..k]) in providers then provider == Trim(text[..k])
             else SoleOfKind(providers, Trim(text[..k]), provider)
    ensures TextMeans(text, t, parent, providers)
  {
    forall j: nat | HeadAt(text, j) ensures j == k {
      HeadsAgree(text, j, k);
    }
    forall id | SoleOfKind(providers, Trim(text[..k]), id) && SoleOfKind(providers, Trim(text[..k]), provider)
      ensures id == provider
    {
    }
    assert NamesProvider(Trim(text[..k]), providers);
  }

  lemma HeadsAgree(text: string, j: nat, k: nat)
    requires HeadAt(text, j) && HeadAt(text, k)
    ensures j == k
  {
    FindIs(text, '/', j);
    FindIs(text, '/', k);
  }

  lemma WholeText(text: string, t: Target, parent: Parent, providers: Providers)
    requires forall k: nat | HeadAt(text, k) :: !NamesProvider(Trim(text[..k]), providers)
    requires AskedWhole(text, t, parent, providers)
    ensures TextMeans(text, t, parent, providers)
  {
  }

  lemma SplitMeans(text: string, provider: string, model: string, parent: Parent, order: seq<string>,
                   providers: Providers)
    requires Walks(order, providers) && SplitAs(text, provider, model, order, providers)
    ensures TextMeans(text, TargetAt(model, provider, Trim(provider), parent, providers), parent, providers)
  {
    var t := TargetAt(model, provider, Trim(provider), parent, providers);
    HeadByPosition(text);
    TargetGoesTo(model, provider, parent, providers);
    if HeadOf(text) == None {
      WholeTextIsAsked(text, parent, order, providers);
      WholeText(text, t, parent, providers);
    } else {
      var k: nat :| HeadAt(text, k);
      KindOwnerIsSole(order, providers, Trim(text[..k]));
      if Trim(text[..k]) in providers || KindOwnerOf(order, providers, Trim(text[..k])).Some? {
        HeadedText(text, t, k, provider, parent, providers);
      } else {
        NoOtherHead(text, k, providers);
        WholeTextIsAsked(text, parent, order, providers);
        WholeText(text, t, parent, providers);
      }
    }
  }

  lemma NoOtherHead(text: string, k: nat, providers: Providers)
    requires HeadAt(text, k) && !NamesProvider(Trim(text[..k]), providers)
    ensures forall j: nat | HeadAt(text, j) :: !NamesProvider(Trim(text[..j]), providers)
  {
    forall j: nat | HeadAt(text, j) ensures j == k {
      HeadsAgree(text, j, k);
    }
  }

  lemma AliasesAre(text: string)
    ensures text in ALIASES <==> text in ["", "main", "main_model", "main model"]
  {
  }

  /** Every entry is resolved to what it stands for. */
  lemma EntryMeansItsTarget(entry: string, parent: Parent, order: seq<string>, providers: Providers)
    requires Walks(order, providers)
    ensures Means(entry, ResolveTarget(entry, parent, order, providers), parent, providers)
  {
    AliasesAre(Trim(entry));
    if !IsAlias(entry) {
      var (provider, model) := SplitEntry(entry, order, providers);
      SplitIs(entry, order, providers);
      SplitMeans(Trim(entry), provider, model, parent, order, providers);
    }
  }

  // ---------- chains ----------

  lemma FallbackMeans(fallbacks: seq<string>, parent: Parent, order: seq<string>, providers: Providers, rung: Rung)
    requires Walks(order, providers) && rung in Offered(fallbacks, Offers(parent, order, providers))
    ensures exists fb | fb in fallbacks :: Means(fb, rung.target, parent, providers)
  {
    OfferedBySome(fallbacks, Offers(parent, order, providers), rung);
    var fb :| fb in fallbacks && Offers(parent, order, providers)(fb) == Some(rung);
    OfferIsResolved(fb, parent, order, providers);
    EntryMeansItsTarget(fb, parent, order, providers);
  }

  /** A chain starts with what its entry stands for, and every other rung is what one of the fallbacks stands for. */
  lemma ChainMeansItsEntries(entry: string, fallbacks: seq<string>, parent: Parent, order: seq<string>,
                             providers: Providers)
    requires Walks(order, providers)
    ensures var chain := Firsts(AllRungs(entry, fallbacks, parent, order, providers), KeyOf);
            && chain != [] && Means(entry, chain[0].target, parent, providers)
            && forall rung | rung in chain[1..] :: exists fb | fb in fallbacks ::
               Means(fb, rung.target, parent, providers)
  {
    var rungs := AllRungs(entry, fallbacks, parent, order, providers);
    var chain := Firsts(rungs, KeyOf);
    var at := ChainIsFirsts(entry, fallbacks, parent, order, providers);
    EntryMeansItsTarget(entry, parent, order, providers);
    forall rung | rung in chain[1..]
      ensures exists fb | fb in fallbacks :: Means(fb, rung.target, parent, providers)
    {
      LaterIsOffered(chain, Resolve(entry, parent, order, providers),
                     Offered(fallbacks, Offers(parent, order, providers)), KeyOf, at, rung);
      FallbackMeans(fallbacks, parent, order, providers, rung);
    }
  }

  lemma LaterIsOffered<T, K>(chain: seq<T>, first: T, rest: seq<T>, key: T -> K, at: seq<nat>, x: T)
    requires PicksFirsts(chain, [first] + rest, key, at) && chain != [] && x in chain[1..]
    ensures x in rest
  {
    var j :| 0 <= j < |chain| - 1 && chain[1..][j] == x;
    assert chain[j + 1] == x && at[0] < at[j + 1];
    assert ([first] + rest)[at[j + 1]] == rest[at[j + 1] - 1];
  }

  /** The same model of the same provider at the same base URL. */
  ghost predicate SameCall(a: Target, b: Target) {
    Trim(a.providerId) == Trim(b.providerId) && Trim(a.model) == Trim(b.model) && Trim(a.base) == Trim(b.base)
  }

  ghost predicate NoCallTwice(chain: seq<Rung>) {
    forall i, j | 0 <= i < j < |chain| :: !SameCall(chain[i].target, chain[j].target)
  }

  ghost predicate MakesCall(chain: seq<Rung>, t: Target) {
    exists rung | rung in chain :: SameCall(rung.target, t)
  }

  ghost predicate NamesModels(rungs: seq<Rung>) {
    forall rung | rung in rungs :: Trim(rung.target.model) != ""
  }

  lemma DistinctKeysAreDistinctCalls(chain: seq<Rung>)
    requires forall i, j | 0 <= i < j < |chain| :: KeyOf(chain[i]) != KeyOf(chain[j])
    ensures NoCallTwice(chain)
  {
    forall i, j | 0 <= i < j < |chain| ensures !SameCall(chain[i].target, chain[j].target) {
      assert KeyOf(chain[i]) != KeyOf(chain[j]);
    }
  }

  lemma KeptIsCalled(rungs: seq<Rung>, x: Rung)
    requires x in rungs
    ensures MakesCall(Firsts(rungs, KeyOf), x.target)
  {
    var kept := KeptUnder(rungs, KeyOf, x);
    assert SameCall(kept.target, x.target);
  }

  lemma OfferedNamesModels(fallbacks: seq<string>, parent: Parent, order: seq<string>, providers: Providers)
    ensures NamesModels(Offered(fallbacks, Offers(parent, order, providers)))
  {
    var offer := Offers(parent, order, providers);
    forall rung: Rung | rung in Offered(fallbacks, offer) ensures Trim(rung.target.model) != "" {
      OfferedBySome(fallbacks, offer, rung);
      var fb :| fb in fallbacks && offer(fb) == Some(rung);
      OnlyNamedModels(fb, parent, order, providers);
    }
  }

  lemma OnlyNamedModels(fb: string, parent: Parent, order: seq<string>, providers: Providers)
    ensures var offer := Offers(parent, order, providers)(fb);
            && (offer.Some? ==> Trim(offer.value.target.model) != "")
            && (Trim(fb) != "" && Trim(Resolve(fb, parent, order, providers).target.model) != "" ==>
                  offer == Some(Resolve(fb, parent, order, providers)))
  {
  }

  /** A chain makes no call twice, and none without a model behind its first. */
  lemma ChainMakesNoCallTwice(entry: string, fallbacks: seq<string>, parent: Parent, order: seq<string>,
                              providers: Providers, chain: seq<Rung>)
    requires chain == Firsts(AllRungs(entry, fallbacks, parent, order, providers), KeyOf)
    ensures chain != [] && NoCallTwice(chain) && NamesModels(chain[1..])
  {
    var at := ChainIsFirsts(entry, fallbacks, parent, order, providers);
    DistinctKeysAreDistinctCalls(chain);
    OfferedNamesModels(fallbacks, parent, order, providers);
    var own, rest := Resolve(entry, parent, order, providers), Offered(fallbacks, Offers(parent, order, providers));
    forall rung | rung in chain[1..] ensures rung in rest {
      LaterIsOffered(chain, own, rest, KeyOf, at, rung);
    }
  }

  /** It leaves out no call its fallbacks stand for: one that is not blank, with a model that is not. */
  lemma ChainHoldsEveryCall(entry: string, fallbacks: seq<string>, parent: Parent, order: seq<string>,
                            providers: Providers, chain: seq<Rung>, fb: string)
    requires chain == Firsts(AllRungs(entry, fallbacks, parent, order, providers), KeyOf)
    requires fb in fallbacks && Trim(fb) != "" && Trim(Resolve(fb, parent, order, providers).target.model) != ""
    ensures MakesCall(chain, Resolve(fb, parent, order, providers).target)
  {
    OnlyNamedModels(fb, parent, order, providers);
    OfferedIfSome(fallbacks, Offers(parent, order, providers), fb);
    KeptIsCalled(AllRungs(entry, fallbacks, parent, order, providers), Resolve(fb, parent, order, providers));
  }

  /** Some kept element has the key of `x`. */
  lemma KeptUnder<T, K>(xs: seq<T>, key: T -> K, x: T) returns (kept: T)
    requires x in xs
    ensures kept in Firsts(xs, key) && key(kept) == key(x)
  {
    NoKeyIsLost(xs, key);
    var i :| 0 <= i < |xs| && xs[i] == x;
    assert key(xs[i]) in Seen(xs, key);
    var firsts := Firsts(xs, key);
    var j :| 0 <= j < |firsts| && key(firsts[j]) == key(x);
    kept := firsts[j];
  }

  /** The kind a row gives its calls: its own, without white space around it, else the parent's. */
  lemma KindOfARow(cfg: Config, parentKind: string)
    ensures forall kind | HasKind(cfg, kind) && kind != "" :: KindOr(cfg, parentKind) == kind
    ensures (forall kind | HasKind(cfg, kind) :: kind == "") ==> KindOr(cfg, parentKind) == parentKind
  {
    if "kind" in cfg && cfg["kind"].Str? {
      assert HasKind(cfg, Trim(cfg["kind"].s));
    }
  }
}
