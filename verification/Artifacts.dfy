/** One artifact's folder: version files, an index over a bounded window of them, and the assets. */
module Artifacts {
  import opened Wrappers
  import opened Sorting
  import opened Text

  const DEFAULT_KIND := "html"
  const MAX_VERSIONS := 20
  const MAX_ASSET_FILES := 40
  const MAX_ASSET_BYTES := 512 * 1024

  datatype Version = Version(number: nat, file: string)

  datatype Index = Index(
    title: string, kind: string, version: nat, file: string,
    versions: seq<Version>, assets: seq<string>)

  /** An attached file; `size` is its length in bytes. */
  datatype Asset = Asset(path: string, content: string, size: nat)

  /** The `files` field of a request: absent or null, something else, or a list. */
  datatype Attached = Omitted | NotAList | Files(list: seq<Asset>)

  datatype Body = Body(content: string, kind: Option<string>, title: Option<string>, files: Attached)

  datatype Folder = Folder(index: Option<Index>, files: map<string, string>, assets: map<string, string>)

  const EMPTY := Folder(None, map[], map[])

  // ---------- pure parts ----------

  function KindNamed(kind: string): string {
    var k := Lowercase(Trim(kind));
    if k == "md" || k == "markdown" then "md" else "html"
  }

  /** An update that names no kind keeps the stored one. */
  function KindFor(index: Option<Index>, body: Body): string {
    if body.kind == None || Trim(body.kind.value) == ""
    then (if index.Some? then index.value.kind else DEFAULT_KIND)
    else KindNamed(body.kind.value)
  }

  function TitleFor(index: Option<Index>, body: Body, id: string): string {
    if body.title.Some? && Trim(body.title.value) != "" then Trim(body.title.value)
    else if index.Some? then index.value.title
    else id
  }

  /** The request names a kind. */
  predicate NamesKind(body: Body) {
    body.kind.Some? && Trim(body.kind.value) != ""
  }

  /** The two words for prose, in any case and padding. */
  predicate IsProse(kind: string) {
    InAnyCase(Trim(kind), "md", "MD") || InAnyCase(Trim(kind), "markdown", "MARKDOWN")
  }

  predicate NamesProse(body: Body) {
    body.kind.Some? && IsProse(body.kind.value)
  }

  lemma ProseIsMd(kind: string)
    ensures KindNamed(kind) == if IsProse(kind) then "md" else "html"
  {
    LettersOfMd(Trim(kind));
    LettersOfMarkdown(Trim(kind));
  }

  lemma LettersOfMd(s: string)
    ensures Lowercase(s) == "md" <==> InAnyCase(s, "md", "MD")
  {
    LowercaseIs(s, "md", "MD");
  }

  lemma LettersOfMarkdown(s: string)
    ensures Lowercase(s) == "markdown" <==> InAnyCase(s, "markdown", "MARKDOWN")
  {
    LowercaseIs(s, "markdown", "MARKDOWN");
  }

  lemma NamedKind(index: Option<Index>, body: Body)
    ensures KindFor(index, body) == if NamesKind(body) then (if NamesProse(body) then "md" else "html")
                                    else if index.Some? then index.value.kind else "html"
  {
    if NamesKind(body) {
      ProseIsMd(body.kind.value);
    }
  }

  predicate NamesTitle(body: Body) {
    body.title.Some? && Trim(body.title.value) != ""
  }

  function FileName(version: nat, kind: string): string {
    "v" + Decimal(version) + "." + kind
  }

  lemma FileNameIsInjective(a: nat, k: string, b: nat, l: string)
    requires FileName(a, k) == FileName(b, l)
    ensures a == b && k == l
  {
    SplitOnceIs("v" + Decimal(a), '.', k);
    SplitOnceIs("v" + Decimal(b), '.', l);
    assert ("v" + Decimal(a))[1..] == Decimal(a) && ("v" + Decimal(b))[1..] == Decimal(b);
    DecimalIsInjective(a, b);
  }

  /** Some kind makes `file` the name of version `n`. */
  ghost predicate FileOf(file: string, n: nat) {
    exists kind :: file == FileName(n, kind)
  }

  lemma FilesOfDiffer(file: string, a: nat, b: nat)
    requires FileOf(file, a) && FileOf(file, b)
    ensures a == b
  {
    var k :| file == FileName(a, k);
    var l :| file == FileName(b, l);
    FileNameIsInjective(a, k, b, l);
  }

  // ---------- where an attached file may land ----------

  predicate Proper(segment: string) {
    segment != "" && segment != "." && segment != ".."
  }

  /** `filter`: the segments that pass, in their order. */
  function Passing(segments: seq<string>, passes: string -> bool): (r: seq<string>)
    ensures forall s | s in r :: s in segments && passes(s)
  {
    if segments == [] then []
    else if passes(segments[0]) then [segments[0]] + Passing(segments[1..], passes)
    else Passing(segments[1..], passes)
  }

  function Forward(s: string): (r: string)
    ensures |r| == |s| && '\\' !in r
  {
    seq(|s|, i requires 0 <= i < |s| => if s[i] == '\\' then '/' else s[i])
  }

  predicate IsSlash(c: char) {
    c == '/'
  }

  function AssetRelative(path: string): Option<string> {
    Cleared(Forward(Trim(path)))
  }

  /** What is left of a path with forward slashes. */
  function Cleared(path: string): Option<string> {
    var segments := Passing(Split(path, IsSlash), Proper);
    if segments == [] then None else Some(Join(segments, "/"))
  }

  /** Whatever the request says, an attached file lands below `assets/` and nowhere else. */
  lemma AssetsStayInside(path: string)
    ensures var r := AssetRelative(path);
            r.Some? ==> forall s | s in Split(r.value, IsSlash) :: Proper(s) && '/' !in s && '\\' !in s
  {
    var all := Split(Forward(Trim(path)), IsSlash);
    var segments := Passing(all, Proper);
    if segments != [] {
      forall s | s in segments ensures Proper(s) && (forall c | c in s :: !IsSlash(c)) && '\\' !in s {
        assert s in all;
      }
      SplitUndoesJoin(segments, '/', IsSlash);
    }
  }

  /** A part of a path: no slash of either kind in it. */
  predicate IsPart(s: string) {
    forall c | c in s :: c != '/' && c != '\\'
  }

  lemma {:induction false} AllPass(parts: seq<string>, more: seq<string>, passes: string -> bool)
    requires forall p | p in parts :: passes(p)
    ensures Passing(parts + more, passes) == parts + Passing(more, passes)
  {
    if parts == [] {
      assert parts + more == more;
    } else {
      assert parts[0] in parts && forall p | p in parts[1..] :: p in parts;
      AllPass(parts[1..], more, passes);
      assert (parts + more)[1..] == parts[1..] + more && parts == [parts[0]] + parts[1..];
    }
  }

  lemma AllOfThem(parts: seq<string>, passes: string -> bool)
    requires forall p | p in parts :: passes(p)
    ensures Passing(parts, passes) == parts
  {
    AllPass(parts, [], passes);
    assert parts + [] == parts;
  }

  lemma NotTheFirst(x: string, b: seq<string>, passes: string -> bool)
    requires !passes(x)
    ensures Passing([x] + b, passes) == Passing(b, passes)
  {
    assert ([x] + b)[1..] == b;
  }

  lemma OneDoesNotPass(a: seq<string>, x: string, b: seq<string>, passes: string -> bool)
    requires (forall p | p in a + b :: passes(p)) && !passes(x)
    ensures Passing(a + b, passes) == a + b && Passing(a + [x] + b, passes) == a + b
  {
    assert (forall p | p in a :: p in a + b) && forall p | p in b :: p in a + b;
    AllOfThem(a + b, passes);
    AllPass(a, [x] + b, passes);
    NotTheFirst(x, b, passes);
    AllOfThem(b, passes);
    assert a + ([x] + b) == a + [x] + b;
  }

  lemma {:induction false} NoBackslash(parts: seq<string>)
    requires forall p | p in parts :: IsPart(p)
    ensures '\\' !in Join(parts, "/")
  {
    if |parts| > 0 {
      assert parts[0] in parts && forall p | p in parts[1..] :: p in parts;
      NoBackslash(parts[1..]);
    }
  }

  /** Parts that go anywhere come back as they are; one that goes nowhere, between any of them, is left out. */
  lemma AssetNameIsKept(a: seq<string>, b: seq<string>, dots: string)
    requires a + b != [] && forall p | p in a + b :: Proper(p) && IsPart(p)
    requires dots in ["", ".", ".."] && Text.Trimmed(Join(a + b, "/")) && Text.Trimmed(Join(a + [dots] + b, "/"))
    ensures AssetRelative(Join(a + b, "/")) == Some(Join(a + b, "/"))
    ensures AssetRelative(Join(a + [dots] + b, "/")) == Some(Join(a + b, "/"))
  {
    OneDoesNotPass(a, dots, b, Proper);
    FromParts(a + b);
    DotsArePart(dots);
    assert forall p | p in a + [dots] + b :: p in a + b || p == dots;
    FromParts(a + [dots] + b);
  }

  lemma DotsArePart(dots: string)
    requires dots in ["", ".", ".."]
    ensures IsPart(dots) && !Proper(dots)
  {
  }

  lemma FromParts(parts: seq<string>)
    requires parts != [] && (forall p | p in parts :: IsPart(p)) && Text.Trimmed(Join(parts, "/"))
    ensures AssetRelative(Join(parts, "/")) ==
            var kept := Passing(parts, Proper); if kept == [] then None else Some(Join(kept, "/"))
  {
    var path := Join(parts, "/");
    BareStays(path, IsSpace);
    NoBackslash(parts);
    ForwardStays(path);
    SplitUndoesJoin(parts, '/', IsSlash);
  }

  lemma ForwardStays(s: string)
    requires '\\' !in s
    ensures Forward(s) == s
  {
    assert forall i | 0 <= i < |s| :: s[i] in s;
  }

  /** `q` is `p` with every backslash turned. */
  ghost predicate Turned(p: string, q: string) {
    |p| == |q| && forall i | 0 <= i < |p| :: q[i] == if p[i] == '\\' then '/' else p[i]
  }

  /** Which way the slashes lean makes no difference. */
  lemma SlashesAreAlike(p: string, q: string)
    requires Turned(p, q)
    ensures AssetRelative(p) == AssetRelative(q)
  {
    SpacesAreAlike(p, q);
    var i, n := SameTrim(p, q, IsSpace);
    TurnedPart(p, q, i, n);
    SameForward(p[i..i + n], q[i..i + n]);
    OnlyForwardCounts(p, q);
  }

  lemma OnlyForwardCounts(p: string, q: string)
    requires Forward(Trim(p)) == Forward(Trim(q))
    ensures AssetRelative(p) == AssetRelative(q)
  {
  }

  lemma TurnedPart(p: string, q: string, i: nat, n: nat)
    requires Turned(p, q) && i + n <= |p|
    ensures Turned(p[i..i + n], q[i..i + n])
  {
    var a, b := p[i..i + n], q[i..i + n];
    assert forall k | 0 <= k < n :: a[k] == p[i + k] && b[k] == q[i + k];
  }

  lemma SameForward(p: string, q: string)
    requires Turned(p, q)
    ensures Forward(p) == Forward(q)
  {
  }

  lemma SpacesAreAlike(p: string, q: string)
    requires Turned(p, q)
    ensures forall i | 0 <= i < |p| :: IsSpace(p[i]) == IsSpace(q[i])
  {
  }

  /** The same stretch is left of both. */
  lemma SameTrim(p: string, q: string, drop: char -> bool) returns (i: nat, n: nat)
    requires |p| == |q| && forall k | 0 <= k < |p| :: drop(p[k]) == drop(q[k])
    ensures i + n <= |p| && DropBoth(p, drop) == p[i..i + n] && DropBoth(q, drop) == q[i..i + n]
  {
    var p', q' := DropStart(p, drop), DropStart(q, drop);
    SameStart(p, q, drop);
    StartDropped(p, drop);
    StartDropped(q, drop);
    i := |p| - |p'|;
    SameEnd(p', q', drop);
    EndDropped(p', drop);
    EndDropped(q', drop);
    n := |DropEnd(p', drop)|;
    Stretch(p, i, n);
    Stretch(q, i, n);
  }

  lemma Stretch(s: string, i: nat, n: nat)
    requires i + n <= |s|
    ensures s[i..][..n] == s[i..i + n]
  {
  }

  lemma {:induction false} SameStart(p: string, q: string, drop: char -> bool)
    requires |p| == |q| && forall i | 0 <= i < |p| :: drop(p[i]) == drop(q[i])
    ensures |DropStart(p, drop)| == |DropStart(q, drop)|
  {
    if p != "" && drop(p[0]) {
      SameStart(p[1..], q[1..], drop);
    }
  }

  lemma {:induction false} SameEnd(p: string, q: string, drop: char -> bool)
    requires |p| == |q| && forall i | 0 <= i < |p| :: drop(p[i]) == drop(q[i])
    ensures |DropEnd(p, drop)| == |DropEnd(q, drop)|
  {
    if p != "" && drop(p[|p| - 1]) {
      SameEnd(p[..|p| - 1], q[..|q| - 1], drop);
    }
  }

  type Rename = string -> Option<string>

  function StoredNext(assets: map<string, string>, asset: Asset, rename: Rename): map<string, string> {
    match rename(asset.path)
    case Some(name) => assets[name := asset.content]
    case None => assets
  }

  /**
   What a list of attachments leaves in `assets/`: entries without a usable name are skipped, later
   ones overwrite.
   */
  function Stored(list: seq<Asset>, rename: Rename): map<string, string> {
    if list == [] then map[] else StoredNext(Stored(list[..|list| - 1], rename), list[|list| - 1], rename)
  }

  lemma StoredSnoc(list: seq<Asset>, i: nat, rename: Rename)
    requires i < |list|
    ensures Stored(list[..i + 1], rename) == StoredNext(Stored(list[..i], rename), list[i], rename)
  {
    assert list[..i + 1][..i] == list[..i];
  }

  /** `list[k]` is the last attachment that lands on `name`. */
  ghost predicate LandsLast(list: seq<Asset>, k: nat, name: string, rename: Rename)
    requires k < |list|
  {
    rename(list[k].path) == Some(name) && forall j | k < j < |list| :: rename(list[j].path) != Some(name)
  }

  /** Every attachment is stored under its own name, and of several with one name the last. */
  lemma {:induction false} LastAttachmentIsStored(list: seq<Asset>, name: string, rename: Rename)
    ensures name in Stored(list, rename) <==> exists k: nat :: k < |list| && LandsLast(list, k, name, rename)
    ensures forall k: nat | k < |list| && LandsLast(list, k, name, rename) ::
              name in Stored(list, rename) && Stored(list, rename)[name] == list[k].content
  {
    if list != [] {
      var n := |list| - 1;
      var front := list[..n];
      LastAttachmentIsStored(front, name, rename);
      if rename(list[n].path) == Some(name) {
        assert LandsLast(list, n, name, rename);
      } else {
        assert forall k: nat | k < n :: LandsLast(front, k, name, rename) <==> LandsLast(list, k, name, rename);
      }
    }
  }

  /** A write that failed at attachment `k`: the ones before it are stored, and perhaps a part of it. */
  ghost predicate BrokenOff(assets: map<string, string>, list: seq<Asset>, k: nat, rename: Rename)
    requires k <= |list|
  {
    || assets == Stored(list[..k], rename)
    || (k < |list| && rename(list[k].path).Some?
        && DifferAt(assets, Stored(list[..k], rename), rename(list[k].path).value))
  }

  /** `a` is `b` but for what it holds under `name`. */
  ghost predicate DifferAt(a: map<string, string>, b: map<string, string>, name: string) {
    a.Keys == b.Keys + {name} && forall other | other in b && other != name :: a[other] == b[other]
  }

  /** Entries of `b`, unchanged. */
  predicate PartOf(a: map<string, string>, b: map<string, string>) {
    forall name | name in a :: name in b && a[name] == b[name]
  }

  /** What a replacement that failed leaves: some of what was there, or a first part of what was to come. */
  ghost predicate BrokenWipe(was: map<string, string>, attached: Attached, now: map<string, string>) {
    || PartOf(now, was)
    || (attached.Files? && |attached.list| <= MAX_ASSET_FILES
        && exists k: nat :: k <= |attached.list| && BrokenOff(now, attached.list, k, AssetRelative))
  }

  /** The limits on attachments. */
  predicate Fits(attached: Attached) {
    attached.Files? ==>
      |attached.list| <= MAX_ASSET_FILES && forall a | a in attached.list :: a.size <= MAX_ASSET_BYTES
  }

  /** The assets folder after a finished save. */
  function AssetsFor(assets: map<string, string>, attached: Attached): map<string, string> {
    match attached
    case Omitted => assets
    case NotAList => map[]
    case Files(list) => Stored(list, AssetRelative)
  }

  // ---------- the history window ----------

  /** Every name is listed, and every listed name is stored. */
  ghost predicate Names(list: seq<string>, assets: map<string, string>) {
    forall name :: name in list <==> name in assets
  }

  ghost predicate WindowOk(ix: Index) {
    && ix.version >= 1
    && |ix.versions| == (if ix.version < MAX_VERSIONS then ix.version else MAX_VERSIONS)
    && (forall k | 0 <= k < |ix.versions| :: ix.versions[k].number == ix.version - |ix.versions| + 1 + k)
    && (forall k | 0 <= k < |ix.versions| :: FileOf(ix.versions[k].file, ix.versions[k].number))
    && ix.versions[|ix.versions| - 1].file == ix.file
  }

  /**
   `docs[n - 1]` is the content save number n was given. Every version the index lists is on disk with
   its own save's content, save perhaps the oldest, which an interrupted save may have dropped.
   */
  ghost predicate HistoryOk(f: Folder, docs: seq<string>) {
    match f.index
    case None => docs == []
    case Some(ix) =>
      && WindowOk(ix) && |docs| == ix.version
      && (forall k | 0 <= k < |ix.versions| ::
            && (k > 0 || |ix.versions| < MAX_VERSIONS ==> ix.versions[k].file in f.files)
            && (ix.versions[k].file in f.files ==> f.files[ix.versions[k].file] == docs[ix.versions[k].number - 1]))
  }

  /** The latest saved document: title, kind, version number and content. */
  datatype Document = Document(title: string, kind: string, version: nat, content: string)

  function Read(f: Folder): Option<Document> {
    if f.index == None || f.index.value.file !in f.files then None
    else
      var ix := f.index.value;
      Some(Document(ix.title, ix.kind, ix.version, f.files[ix.file]))
  }

  function DropOldest(files: map<string, string>, versions: seq<Version>): (map<string, string>, seq<Version>) {
    if |versions| > MAX_VERSIONS then DropOldest(files - {versions[0].file}, versions[1..]) else (files, versions)
  }

  function VersionsOf(f: Folder): seq<Version> {
    if f.index.Some? then f.index.value.versions else []
  }

  function NextVersion(f: Folder): nat {
    if f.index.Some? then f.index.value.version + 1 else 1
  }

  function NewFile(f: Folder, body: Body): string {
    FileName(NextVersion(f), KindFor(f.index, body))
  }

  /** Version files with the new one, and those and the window once every dropped version is removed. */
  function FilesWith(f: Folder, body: Body): map<string, string> {
    f.files[NewFile(f, body) := body.content]
  }

  function Trimmed(f: Folder, body: Body): (map<string, string>, seq<Version>) {
    DropOldest(FilesWith(f, body), VersionsOf(f) + [Version(NextVersion(f), NewFile(f, body))])
  }

  /** What a finished save makes of index and version files. A removal that fails is ignored: the file stays. */
  ghost predicate SavedFrom(f: Folder, body: Body, id: string, f': Folder) {
    var file := NewFile(f, body);
    var (files, versions) := Trimmed(f, body);
    && PartOf(files, f'.files) && PartOf(f'.files, FilesWith(f, body))
    && f'.index.Some? && Names(f'.index.value.assets, f'.assets)
    && f'.index.value == Index(TitleFor(f.index, body, id), KindFor(f.index, body), NextVersion(f), file,
                               versions, f'.index.value.assets)
    && f'.assets == AssetsFor(f.assets, body.files) && Fits(body.files)
  }

  /** Stopped while writing the version file: perhaps a part of it is there, and nothing else changed. */
  ghost predicate StoppedEarly(f: Folder, body: Body, f': Folder) {
    f'.assets == f.assets && (f'.files == f.files || DifferAt(f'.files, f.files, NewFile(f, body)))
  }

  /** Stopped while replacing the attachments, the version file written. */
  ghost predicate StoppedAttaching(f: Folder, body: Body, f': Folder) {
    f'.files == FilesWith(f, body) && !body.files.Omitted? && BrokenWipe(f.assets, body.files, f'.assets)
  }

  /** Stopped behind the attachments, the index not yet written. */
  ghost predicate StoppedLate(f: Folder, body: Body, f': Folder) {
    && PartOf(Trimmed(f, body).0, f'.files) && PartOf(f'.files, FilesWith(f, body))
    && f'.assets == AssetsFor(f.assets, body.files)
  }

  /** What a save stopped at any write may leave. */
  ghost predicate StoppedFrom(f: Folder, body: Body, f': Folder) {
    f'.index == f.index && (StoppedEarly(f, body, f') || StoppedAttaching(f, body, f') || StoppedLate(f, body, f'))
  }

  /** Of the version files a stop touches the new one, and the oldest of a full window. */
  ghost predicate FilesAtStop(f: Folder, body: Body, files: map<string, string>) {
    var file := NewFile(f, body);
    && (forall name | name in files :: name == file || (name in f.files && files[name] == f.files[name]))
    && (forall name | name in f.files && name != file ::
          name in files || (|VersionsOf(f)| >= MAX_VERSIONS && name == VersionsOf(f)[0].file))
  }

  // ---------- one save ----------

  datatype Refusal = NoContent | AlreadyExists | NotFound

  /** `Stopped` is an I/O error, an over-limit attachment, or the process dying, between two writes. */
  datatype Outcome = Saved | Refused(why: Refusal) | Stopped

  lemma DropsAtMostOne(files: map<string, string>, versions: seq<Version>)
    requires |versions| <= MAX_VERSIONS + 1
    ensures DropOldest(files, versions) ==
              if |versions| == MAX_VERSIONS + 1 then (files - {versions[0].file}, versions[1..]) else (files, versions)
  {
  }

  /** In a window, names of different versions differ, and so does any name of the next version. */
  lemma WindowNamesDiffer(ix: Index, j: nat, k: nat)
    requires WindowOk(ix) && j < k < |ix.versions|
    ensures ix.versions[j].file != ix.versions[k].file
  {
    if ix.versions[j].file == ix.versions[k].file {
      FilesOfDiffer(ix.versions[j].file, ix.versions[j].number, ix.versions[k].number);
    }
  }

  lemma NewNameDiffers(f: Folder, body: Body, k: nat)
    requires f.index.Some? && WindowOk(f.index.value) && k < |f.index.value.versions|
    ensures f.index.value.versions[k].file != NewFile(f, body)
  {
    NewFileIsNext(f, body);
    if f.index.value.versions[k].file == NewFile(f, body) {
      FilesOfDiffer(NewFile(f, body), f.index.value.versions[k].number, NextVersion(f));
    }
  }

  lemma NewFileIsNext(f: Folder, body: Body)
    ensures FileOf(NewFile(f, body), NextVersion(f))
  {
    var kind := KindFor(f.index, body);
    assert NewFile(f, body) == FileName(NextVersion(f), kind);
  }

  /** The versions a finished save lists: the old window and the new one, without the oldest when full. */
  ghost function NextWindow(f: Folder, body: Body): seq<Version> {
    var all := VersionsOf(f) + [Version(NextVersion(f), NewFile(f, body))];
    if |all| > MAX_VERSIONS then all[1..] else all
  }

  lemma SavedWindow(f: Folder, docs: seq<string>, body: Body, id: string, f': Folder)
    requires HistoryOk(f, docs) && SavedFrom(f, body, id, f')
    ensures f'.index.Some? && f'.index.value.versions == NextWindow(f, body) && f'.index.value.version == NextVersion(f)
    ensures f'.index.value.file == NewFile(f, body)
    ensures Trimmed(f, body).0 == if |VersionsOf(f)| == MAX_VERSIONS then FilesWith(f, body) - {VersionsOf(f)[0].file}
                                  else FilesWith(f, body)
  {
    DropsAtMostOne(FilesWith(f, body), VersionsOf(f) + [Version(NextVersion(f), NewFile(f, body))]);
  }

  lemma NextWindowOk(f: Folder, docs: seq<string>, body: Body, k: nat)
    requires HistoryOk(f, docs) && k < |NextWindow(f, body)|
    ensures var w := NextWindow(f, body);
            && |w| == (if NextVersion(f) < MAX_VERSIONS then NextVersion(f) else MAX_VERSIONS)
            && w[k].number == NextVersion(f) - |w| + 1 + k
            && FileOf(w[k].file, w[k].number)
            && w[|w| - 1] == Version(NextVersion(f), NewFile(f, body))
  {
    var all := VersionsOf(f) + [Version(NextVersion(f), NewFile(f, body))];
    var j := if |all| > MAX_VERSIONS then k + 1 else k;
    assert NextWindow(f, body)[k] == all[j];
    if j < |all| - 1 {
      assert all[j] == VersionsOf(f)[j];
    } else {
      NewFileIsNext(f, body);
    }
  }

  /** The file a save drops from a full window. */
  ghost function Dropped(f: Folder): set<string> {
    if |VersionsOf(f)| == MAX_VERSIONS then {VersionsOf(f)[0].file} else {}
  }

  /** Where an entry of the new window stood before. */
  lemma WindowShift(f: Folder, body: Body, k: nat)
    requires k < |NextWindow(f, body)| && |VersionsOf(f)| <= MAX_VERSIONS
    ensures |NextWindow(f, body)| == |VersionsOf(f)| + 1 - |Dropped(f)|
    ensures NextWindow(f, body)[k] ==
              if k + |Dropped(f)| < |VersionsOf(f)| then VersionsOf(f)[k + |Dropped(f)|]
              else Version(NextVersion(f), NewFile(f, body))
  {
  }

  /** Whatever is not dropped is on disk as the save left it. */
  lemma KeptOnDisk(f: Folder, docs: seq<string>, body: Body, id: string, f': Folder, name: string)
    requires HistoryOk(f, docs) && SavedFrom(f, body, id, f') && name in FilesWith(f, body) && name !in Dropped(f)
    ensures name in f'.files && f'.files[name] == FilesWith(f, body)[name]
  {
    SavedWindow(f, docs, body, id, f');
    assert name in Trimmed(f, body).0;
  }

  lemma NewOnDisk(f: Folder, docs: seq<string>, body: Body, id: string, f': Folder)
    requires HistoryOk(f, docs) && SavedFrom(f, body, id, f')
    ensures NewFile(f, body) in f'.files && f'.files[NewFile(f, body)] == body.content
  {
    if f.index.Some? {
      NewNameDiffers(f, body, 0);
    }
    KeptOnDisk(f, docs, body, id, f', NewFile(f, body));
  }

  /** The version's file holds what the save of its number was given. */
  ghost predicate OnDisk(v: Version, docs: seq<string>, files: map<string, string>) {
    1 <= v.number <= |docs| && v.file in files && files[v.file] == docs[v.number - 1]
  }

  lemma WasOnDisk(f: Folder, docs: seq<string>, j: nat)
    requires HistoryOk(f, docs) && |Dropped(f)| <= j < |VersionsOf(f)|
    ensures OnDisk(VersionsOf(f)[j], docs, f.files)
  {
    var ix := f.index.value;
    assert j > 0 || |ix.versions| < MAX_VERSIONS;
    assert ix.versions[j].file in f.files && 1 <= ix.versions[j].number <= |docs|;
  }

  lemma NotDropped(f: Folder, docs: seq<string>, j: nat)
    requires HistoryOk(f, docs) && |Dropped(f)| <= j < |VersionsOf(f)|
    ensures VersionsOf(f)[j].file !in Dropped(f)
  {
    if j > 0 {
      WindowNamesDiffer(f.index.value, 0, j);
    }
  }

  lemma NotNew(f: Folder, docs: seq<string>, body: Body, j: nat)
    requires HistoryOk(f, docs) && j < |VersionsOf(f)|
    ensures VersionsOf(f)[j].file != NewFile(f, body)
  {
    NewNameDiffers(f, body, j);
  }

  lemma OtherNamesStay(v: Version, docs: seq<string>, files: map<string, string>, name: string, content: string)
    requires OnDisk(v, docs, files) && v.file != name
    ensures OnDisk(v, docs, files[name := content])
  {
  }

  /** A version the window keeps is on disk with its own save's content. */
  lemma OldOnDisk(f: Folder, docs: seq<string>, body: Body, id: string, f': Folder, j: nat)
    requires HistoryOk(f, docs) && SavedFrom(f, body, id, f') && |Dropped(f)| <= j < |VersionsOf(f)|
    ensures OnDisk(VersionsOf(f)[j], docs, f'.files)
  {
    WasOnDisk(f, docs, j);
    NotDropped(f, docs, j);
    NotNew(f, docs, body, j);
    OtherNamesStay(VersionsOf(f)[j], docs, f.files, NewFile(f, body), body.content);
    KeptOnDisk(f, docs, body, id, f', VersionsOf(f)[j].file);
  }

  lemma NextIsLast(f: Folder, docs: seq<string>)
    requires HistoryOk(f, docs)
    ensures NextVersion(f) == |docs| + 1
  {
  }

  /** Each version the new window lists is on disk with its own save's content. */
  lemma SavedFile(f: Folder, docs: seq<string>, body: Body, id: string, f': Folder, k: nat)
    requires HistoryOk(f, docs) && SavedFrom(f, body, id, f') && k < |NextWindow(f, body)|
    ensures OnDisk(NextWindow(f, body)[k], docs + [body.content], f'.files)
  {
    var j := k + |Dropped(f)|;
    assert j < |VersionsOf(f)| ==> OnDisk(VersionsOf(f)[j], docs, f'.files) by {
      if j < |VersionsOf(f)| {
        OldOnDisk(f, docs, body, id, f', j);
      }
    }
    assert |VersionsOf(f)| <= MAX_VERSIONS && NextVersion(f) == |docs| + 1 by {
      WindowFits(f, docs);
      NextIsLast(f, docs);
    }
    NewOnDisk(f, docs, body, id, f');
    EntryOnDisk(f, docs, body, f'.files, k);
  }

  lemma WindowFits(f: Folder, docs: seq<string>)
    requires HistoryOk(f, docs)
    ensures |VersionsOf(f)| <= MAX_VERSIONS
  {
  }

  lemma EntryOnDisk(f: Folder, docs: seq<string>, body: Body, files: map<string, string>, k: nat)
    requires k < |NextWindow(f, body)| && |VersionsOf(f)| <= MAX_VERSIONS && NextVersion(f) == |docs| + 1
    requires NewFile(f, body) in files && files[NewFile(f, body)] == body.content
    requires k + |Dropped(f)| < |VersionsOf(f)| ==> OnDisk(VersionsOf(f)[k + |Dropped(f)|], docs, files)
    ensures OnDisk(NextWindow(f, body)[k], docs + [body.content], files)
  {
    WindowShift(f, body, k);
    var v := NextWindow(f, body)[k];
    if k + |Dropped(f)| < |VersionsOf(f)| {
      FrontStays(docs, body.content, v.number - 1);
    }
  }

  lemma FrontStays<T>(s: seq<T>, x: T, i: nat)
    requires i < |s|
    ensures (s + [x])[i] == s[i]
  {
  }

  /** A finished save leaves a proper window with the new document in front. */
  lemma SavedKeepsHistory(f: Folder, docs: seq<string>, body: Body, id: string, f': Folder)
    requires HistoryOk(f, docs) && SavedFrom(f, body, id, f')
    ensures HistoryOk(f', docs + [body.content])
  {
    SavedWindow(f, docs, body, id, f');
    NextWindowOk(f, docs, body, 0);
    forall k | 0 <= k < |NextWindow(f, body)|
      ensures var v := NextWindow(f, body)[k];
              && v.number == NextVersion(f) - |NextWindow(f, body)| + 1 + k && FileOf(v.file, v.number)
              && v.file in f'.files && f'.files[v.file] == (docs + [body.content])[v.number - 1]
    {
      NextWindowOk(f, docs, body, k);
      SavedFile(f, docs, body, id, f', k);
    }
  }

  /** A finished save takes the kind and the title it names, and keeps the stored ones where it names none. */
  lemma SavedNames(f: Folder, body: Body, id: string, f': Folder)
    requires SavedFrom(f, body, id, f')
    ensures f'.index.Some?
    ensures f'.index.value.kind == if NamesKind(body) then (if NamesProse(body) then "md" else "html")
                                   else if f.index.Some? then f.index.value.kind else "html"
    ensures f'.index.value.title == if NamesTitle(body) then Trim(body.title.value)
                                    else if f.index.Some? then f.index.value.title else id
    ensures f'.index.value.file == "v" + Decimal(f'.index.value.version) + "." + f'.index.value.kind
  {
    NamedKind(f.index, body);
  }

  lemma SavedIsRead(f: Folder, docs: seq<string>, body: Body, id: string, f': Folder)
    requires HistoryOk(f, docs) && SavedFrom(f, body, id, f')
    ensures Read(f').Some? && Read(f').value.content == body.content
    ensures Read(f').value.version == if f.index.Some? then f.index.value.version + 1 else 1
    ensures Read(f').value.kind == if NamesKind(body) then (if NamesProse(body) then "md" else "html")
                                   else if f.index.Some? then f.index.value.kind else "html"
    ensures Read(f').value.title == if NamesTitle(body) then Trim(body.title.value)
                                    else if f.index.Some? then f.index.value.title else id
  {
    SavedWindow(f, docs, body, id, f');
    SavedNames(f, body, id, f');
    var last := |NextWindow(f, body)| - 1;
    NextWindowOk(f, docs, body, last);
    SavedFile(f, docs, body, id, f', last);
  }

  lemma StopTouchesFew(f: Folder, docs: seq<string>, body: Body, f': Folder)
    requires HistoryOk(f, docs) && StoppedFrom(f, body, f')
    ensures FilesAtStop(f, body, f'.files)
  {
    if StoppedLate(f, body, f') {
      DropsAtMostOne(FilesWith(f, body), VersionsOf(f) + [Version(NextVersion(f), NewFile(f, body))]);
    }
  }

  /** Stopped at any write before the index, a save leaves the history sound and the old document in place. */
  lemma StoppedKeepsHistory(f: Folder, docs: seq<string>, body: Body, f': Folder)
    requires HistoryOk(f, docs) && StoppedFrom(f, body, f')
    ensures HistoryOk(f', docs) && Read(f') == Read(f)
  {
    StopTouchesFew(f, docs, body, f');
    if f.index.Some? {
      var ix := f.index.value;
      forall k | 0 <= k < |ix.versions|
        ensures ix.versions[k].file != NewFile(f, body)
        ensures k > 0 ==> ix.versions[k].file != ix.versions[0].file
      {
        NewNameDiffers(f, body, k);
        if k > 0 {
          WindowNamesDiffer(ix, 0, k);
        }
      }
      assert ix.versions[|ix.versions| - 1].file == ix.file;
    }
  }

  lemma StoppedBeforeTrimming(f: Folder, docs: seq<string>, body: Body, f': Folder)
    requires HistoryOk(f, docs) && f'.index == f.index
    requires f'.files == FilesWith(f, body) && f'.assets == AssetsFor(f.assets, body.files)
    ensures StoppedFrom(f, body, f') && HistoryOk(f', docs)
  {
    DropsAtMostOne(FilesWith(f, body), VersionsOf(f) + [Version(NextVersion(f), NewFile(f, body))]);
    assert StoppedLate(f, body, f');
    StoppedKeepsHistory(f, docs, body, f');
  }

  class ArtifactDir {
    const id: string
    var index: Option<Index>
    var files: map<string, string>
    var assets: map<string, string>
    ghost var docs: seq<string>

    function Now(): Folder
      reads this
    {
      Folder(index, files, assets)
    }

    constructor (id: string)
      ensures this.id == id && Now() == EMPTY && docs == [] && HistoryOk(Now(), docs)
    {
      this.id := id;
      index, files, assets, docs := None, map[], map[], [];
    }

    /**
     Replace the whole assets folder. A failure leaves some of what was there, or a first part of
     what was to come.
     */
    method WriteAssets(attached: Attached) returns (ok: bool, written: seq<string>)
      requires !attached.Omitted?
      modifies this`assets
      ensures ok ==> assets == AssetsFor(old(assets), attached) && Names(written, assets)
      ensures ok ==> Fits(attached)
      ensures !ok ==> BrokenWipe(old(assets), attached, assets)
    {
      var fault := *;
      if fault {
        RemoveSome();
        return false, [];
      }
      assets := map[];
      if attached.NotAList? || attached.list == [] {
        return true, [];
      }
      if |attached.list| > MAX_ASSET_FILES {
        return false, [];
      }
      ok, written := WriteList(attached.list);
    }

    /** A removal that fails on the way. */
    method RemoveSome()
      modifies this`assets
      ensures PartOf(assets, old(assets))
    {
      var kept: set<string> := *;
      assets := map name | name in assets && name in kept :: assets[name];
    }

    /** The loop over the attachments. */
    method WriteList(list: seq<Asset>) returns (ok: bool, written: seq<string>)
      requires assets == map[]
      modifies this`assets
      ensures ok ==> assets == Stored(list, AssetRelative) && Names(written, assets)
      ensures ok ==> forall a | a in list :: a.size <= MAX_ASSET_BYTES
      ensures !ok ==> exists k: nat :: k <= |list| && BrokenOff(assets, list, k, AssetRelative)
    {
      ghost var rename: Rename := AssetRelative;
      written := [];
      var i := 0;
      while i < |list|
        invariant 0 <= i <= |list|
        invariant assets == Stored(list[..i], rename) && Names(written, assets)
        invariant forall a | a in list[..i] :: a.size <= MAX_ASSET_BYTES
      {
        if list[i].size > MAX_ASSET_BYTES {
          assert BrokenOff(assets, list, i, rename);
          return false, written;
        }
        StoredSnoc(list, i, rename);
        ok, written := WriteOne(list[i], written);
        if !ok {
          assert BrokenOff(assets, list, i, rename);
          return false, written;
        }
        i := i + 1;
      }
      assert list[..i] == list;
      return true, written;
    }

    method WriteOne(asset: Asset, written: seq<string>) returns (ok: bool, written': seq<string>)
      requires Names(written, assets)
      modifies this`assets
      ensures ok ==> assets == StoredNext(old(assets), asset, AssetRelative) && Names(written', assets)
      ensures !ok ==> assets == old(assets)
                      || (AssetRelative(asset.path).Some?
                          && DifferAt(assets, old(assets), AssetRelative(asset.path).value))
    {
      ok, written' := WriteAt(AssetRelative(asset.path), asset.content, written);
    }

    method WriteAt(relative: Option<string>, content: string, written: seq<string>)
      returns (ok: bool, written': seq<string>)
      requires Names(written, assets)
      modifies this`assets
      ensures ok ==> assets == (if relative.Some? then old(assets)[relative.value := content] else old(assets))
                     && Names(written', assets)
      ensures !ok ==> assets == old(assets) || (relative.Some? && DifferAt(assets, old(assets), relative.value))
    {
      if relative == None {
        return true, written;
      }
      var fault := *;
      if fault {
        var created := *;
        if created {
          var part: string := *;
          assets := assets[relative.value := part];
        }
        return false, written;
      }
      assets := assets[relative.value := content];
      return true, written + [relative.value];
    }

    method ExistingAssets() returns (names: seq<string>)
      ensures Names(names, assets)
    {
      names := [];
      var todo := assets.Keys;
      while todo != {}
        invariant todo <= assets.Keys
        invariant forall name :: name in names <==> name in assets.Keys - todo
      {
        var name :| name in todo;
        todo := todo - {name};
        names := names + [name];
      }
    }

    /** Trim the history and the files it named. A removal that fails is ignored. */
    method Trim(versions0: seq<Version>) returns (versions: seq<Version>)
      modifies this`files
      ensures versions == DropOldest(old(files), versions0).1
      ensures PartOf(DropOldest(old(files), versions0).0, files) && PartOf(files, old(files))
    {
      versions := versions0;
      ghost var least := files;
      while |versions| > MAX_VERSIONS
        invariant DropOldest(least, versions) == DropOldest(old(files), versions0)
        invariant PartOf(least, files) && PartOf(files, old(files))
        decreases |versions|
      {
        var removed := *;
        if removed {
          files := files - {versions[0].file};
        }
        least := least - {versions[0].file};
        versions := versions[1..];
      }
    }

    /**
     Save a new version. Refused, it changes nothing; stopped anywhere before the index is written,
     the previous document is still the one that is read.
     */
    method Save(body: Body, create: bool) returns (r: Outcome)
      requires HistoryOk(Now(), docs)
      modifies this
      ensures HistoryOk(Now(), docs)
      ensures r.Refused? <==> Text.Trim(body.content) == "" || create == old(index).Some?
      ensures r.Refused? ==>
                r.why == if Text.Trim(body.content) == "" then NoContent else if create then AlreadyExists else NotFound
      ensures r.Refused? ==> Now() == old(Now()) && docs == old(docs)
      ensures r.Saved? ==> SavedFrom(old(Now()), body, id, Now())
      ensures r.Saved? ==> docs == old(docs) + [body.content]
      ensures r.Saved? ==>
                && index.Some?
                && index.value.kind == (if NamesKind(body) then (if NamesProse(body) then "md" else "html")
                                        else if old(index).Some? then old(index).value.kind else "html")
                && index.value.title == (if NamesTitle(body) then Text.Trim(body.title.value)
                                         else if old(index).Some? then old(index).value.title else id)
      ensures r.Stopped? ==> StoppedFrom(old(Now()), body, Now()) && docs == old(docs)
    {
      if Text.Trim(body.content) == "" {
        return Refused(NoContent);
      }
      if create && index.Some? {
        return Refused(AlreadyExists);
      }
      if !create && index == None {
        return Refused(NotFound);
      }
      ghost var before := Now();
      var kind := KindFor(index, body);
      var version := if index.Some? then index.value.version + 1 else 1;
      var file := FileName(version, kind);
      var ok := WriteVersion(file, body.content);
      if !ok {
        assert StoppedEarly(before, body, Now());
        StoppedKeepsHistory(before, docs, body, Now());
        return Stopped;
      }
      r := FinishSave(before, body, kind, version, file);
      if r.Saved? {
        SavedNames(before, body, id, Now());
      }
    }

    method WriteVersion(file: string, content: string) returns (ok: bool)
      modifies this`files
      ensures ok ==> files == old(files)[file := content]
      ensures !ok ==> files == old(files) || DifferAt(files, old(files), file)
    {
      var fault := *;
      if fault {
        var created := *;
        if created {
          var partial: string := *;
          files := files[file := partial];
        }
        return false;
      }
      files := files[file := content];
      return true;
    }

    /** From the written version file on: attachments, trimming, and the index last. */
    method FinishSave(ghost before: Folder, body: Body, kind: string, version: nat, file: string) returns (r: Outcome)
      requires HistoryOk(before, docs) && kind == KindFor(before.index, body) && version == NextVersion(before)
      requires file == NewFile(before, body)
      requires Now() == before.(files := before.files[file := body.content])
      modifies this
      ensures HistoryOk(Now(), docs) && !r.Refused?
      ensures r.Saved? ==> SavedFrom(before, body, id, Now()) && docs == old(docs) + [body.content]
      ensures r.Stopped? ==> StoppedFrom(before, body, Now()) && docs == old(docs)
    {
      var ok, names := StoreAttached(body.files);
      var fault := *;
      if !ok {
        assert StoppedAttaching(before, body, Now());
        StoppedKeepsHistory(before, docs, body, Now());
        return Stopped;
      }
      if fault {
        StoppedBeforeTrimming(before, docs, body, Now());
        return Stopped;
      }
      r := Commit(before, body, kind, version, file, names);
    }

    /** Trim, then write the index. */
    method Commit(ghost before: Folder, body: Body, kind: string, version: nat, file: string, names: seq<string>)
      returns (r: Outcome)
      requires HistoryOk(before, docs) && kind == KindFor(before.index, body) && version == NextVersion(before)
      requires file == NewFile(before, body) && index == before.index && files == FilesWith(before, body)
      requires Names(names, assets) && assets == AssetsFor(before.assets, body.files) && Fits(body.files)
      modifies this
      ensures HistoryOk(Now(), docs) && !r.Refused?
      ensures r.Saved? ==> SavedFrom(before, body, id, Now()) && docs == old(docs) + [body.content]
      ensures r.Stopped? ==> StoppedFrom(before, body, Now()) && docs == old(docs)
    {
      var versions := Trim((if index.Some? then index.value.versions else []) + [Version(version, file)]);
      var fault := *;
      if fault {
        assert StoppedLate(before, body, Now());
        StoppedKeepsHistory(before, docs, body, Now());
        return Stopped;
      }
      index := Some(Index(TitleFor(index, body, id), kind, version, file, versions, names));
      SavedKeepsHistory(before, docs, body, id, Now());
      docs := docs + [body.content];
      return Saved;
    }

    /** Omitting `files` keeps the stored ones. */
    method StoreAttached(attached: Attached) returns (ok: bool, names: seq<string>)
      modifies this`assets
      ensures ok ==> Names(names, assets) && assets == AssetsFor(old(assets), attached)
      ensures ok ==> Fits(attached)
      ensures !ok ==> !attached.Omitted? && BrokenWipe(old(assets), attached, assets)
    {
      if attached.Omitted? {
        names := ExistingAssets();
        return true, names;
      }
      ok, names := WriteAssets(attached);
    }

    method ReadLatest() returns (doc: Option<Document>)
      ensures doc == Read(Now())
    {
      if index == None {
        return None;
      }
      var ix := index.value;
      if ix.file !in files {
        return None;
      }
      return Some(Document(ix.title, ix.kind, ix.version, files[ix.file]));
    }
  }

  // ---------- runs ----------

  /** What one call of `save` was given and how it ended. */
  datatype Call = Call(body: Body, outcome: Outcome)

  /** One call made `f` into `f'`. */
  ghost predicate StepsTo(id: string, f: Folder, call: Call, f': Folder) {
    match call.outcome
    case Saved => SavedFrom(f, call.body, id, f')
    case Refused(_) => f' == f
    case Stopped => StoppedFrom(f, call.body, f')
  }

  /** Any sequence of calls on a fresh folder, each finished, refused or stopped somewhere. */
  ghost predicate IsRun(id: string, folders: seq<Folder>, calls: seq<Call>) {
    && |folders| == |calls| + 1 && folders[0] == EMPTY
    && forall k | 0 <= k < |calls| :: StepsTo(id, folders[k], calls[k], folders[k + 1])
  }

  lemma RunBefore(id: string, folders: seq<Folder>, calls: seq<Call>)
    requires IsRun(id, folders, calls) && calls != []
    ensures var k := |calls| - 1;
            && IsRun(id, folders[..k + 1], calls[..k]) && folders[..k + 1][|calls[..k]|] == folders[k]
            && StepsTo(id, folders[k], calls[k], folders[k + 1])
  {
    var k := |calls| - 1;
    assert forall j | 0 <= j < k :: folders[..k + 1][j] == folders[j] && calls[..k][j] == calls[j];
  }

  /** Contents of the finished saves, by version number. */
  ghost function Finished(calls: seq<Call>): seq<string> {
    if calls == [] then []
    else
      var rest, last := Finished(calls[..|calls| - 1]), calls[|calls| - 1];
      if last.outcome.Saved? then rest + [last.body.content] else rest
  }

  /** The folder agrees with the finished saves, and the newest of them is read. */
  ghost predicate AgreesWith(f: Folder, done: seq<string>) {
    && HistoryOk(f, done)
    && (f.index == None <==> done == [])
    && (done != [] ==> f.index.value.version == |done|
                       && Read(f).Some? && Read(f).value.version == |done|
                       && Read(f).value.content == done[|done| - 1])
  }

  lemma SaveAgrees(f: Folder, done: seq<string>, body: Body, id: string, f': Folder)
    requires HistoryOk(f, done) && SavedFrom(f, body, id, f')
    ensures AgreesWith(f', done + [body.content])
  {
    SavedKeepsHistory(f, done, body, id, f');
    SavedIsRead(f, done, body, id, f');
    SavedWindow(f, done, body, id, f');
  }

  lemma StopAgrees(f: Folder, done: seq<string>, body: Body, f': Folder)
    requires AgreesWith(f, done) && StoppedFrom(f, body, f')
    ensures AgreesWith(f', done)
  {
    StoppedKeepsHistory(f, done, body, f');
  }

  /** After any run, the history is sound and the newest finished save is the one that is read. */
  lemma {:induction false} ReadIsTheLastFinishedSave(id: string, folders: seq<Folder>, calls: seq<Call>)
    requires IsRun(id, folders, calls)
    ensures AgreesWith(folders[|calls|], Finished(calls))
  {
    if calls != [] {
      var k := |calls| - 1;
      ReadIsTheLastFinishedSave(id, folders[..k + 1], calls[..k]);
      assert folders[..k + 1][|calls[..k]|] == folders[k];
      var f, done := folders[k], Finished(calls[..k]);
      match calls[k].outcome {
        case Saved => SaveAgrees(f, done, calls[k].body, id, folders[k + 1]);
        case Refused(_) =>
        case Stopped => StopAgrees(f, done, calls[k].body, folders[k + 1]);
      }
    }
  }

  // ---------- kind and title over a run ----------

  /** Call `k` finished and `names` something, and no finished call after it did. */
  ghost predicate LastToName(calls: seq<Call>, k: nat, names: Body -> bool) {
    && k < |calls| && calls[k].outcome.Saved? && names(calls[k].body)
    && forall j | k < j < |calls| && calls[j].outcome.Saved? :: !names(calls[j].body)
  }

  ghost predicate NobodyNames(calls: seq<Call>, names: Body -> bool) {
    forall k | 0 <= k < |calls| && calls[k].outcome.Saved? :: !names(calls[k].body)
  }

  /** `v` is what the last finished save that named something gave, else `default`. */
  ghost predicate LastNamed(calls: seq<Call>, names: Body -> bool, given: Body -> string, default: string, v: string) {
    && (forall k: nat | LastToName(calls, k, names) :: v == given(calls[k].body))
    && (NobodyNames(calls, names) ==> v == default)
  }

  function KindGiven(body: Body): string {
    if NamesProse(body) then "md" else "html"
  }

  function TitleGiven(body: Body): string {
    if body.title.Some? then Trim(body.title.value) else ""
  }

  lemma NamesSnoc(calls: seq<Call>, names: Body -> bool)
    requires calls != []
    ensures var n := |calls| - 1;
            var named := calls[n].outcome.Saved? && names(calls[n].body);
            && (forall k: nat :: LastToName(calls, k, names) <==>
                  if named then k == n else LastToName(calls[..n], k, names))
            && (NobodyNames(calls, names) <==> NobodyNames(calls[..n], names) && !named)
  {
    var n := |calls| - 1;
    assert forall j | 0 <= j < n :: calls[..n][j] == calls[j];
    forall k: nat | k < n && LastToName(calls[..n], k, names) && !(calls[n].outcome.Saved? && names(calls[n].body))
      ensures LastToName(calls, k, names)
    {
    }
  }

  lemma LastNamedNext(calls: seq<Call>, names: Body -> bool, given: Body -> string, default: string,
                      before: string, after: string)
    requires calls != [] && LastNamed(calls[..|calls| - 1], names, given, default, before)
    requires var last := calls[|calls| - 1];
             after == if last.outcome.Saved? && names(last.body) then given(last.body) else before
    ensures LastNamed(calls, names, given, default, after)
  {
    NamesSnoc(calls, names);
    assert forall k | 0 <= k < |calls| - 1 :: calls[..|calls| - 1][k] == calls[k];
  }

  /** What the index holds, or what the first save will put there. */
  function KindIn(f: Folder): string {
    if f.index.Some? then f.index.value.kind else "html"
  }

  function TitleIn(f: Folder, id: string): string {
    if f.index.Some? then f.index.value.title else id
  }

  lemma NamesStep(id: string, f: Folder, call: Call, f': Folder)
    requires StepsTo(id, f, call, f')
    ensures KindIn(f') == if call.outcome.Saved? && NamesKind(call.body) then KindGiven(call.body) else KindIn(f)
    ensures TitleIn(f', id) ==
            if call.outcome.Saved? && NamesTitle(call.body) then TitleGiven(call.body) else TitleIn(f, id)
  {
    if call.outcome.Saved? {
      SavedNames(f, call.body, id, f');
    }
  }

  lemma {:induction false} NamesOverARun(id: string, folders: seq<Folder>, calls: seq<Call>)
    requires IsRun(id, folders, calls)
    ensures LastNamed(calls, NamesKind, KindGiven, "html", KindIn(folders[|calls|]))
    ensures LastNamed(calls, NamesTitle, TitleGiven, id, TitleIn(folders[|calls|], id))
  {
    if calls != [] {
      var n := |calls| - 1;
      NamesOverARun(id, folders[..n + 1], calls[..n]);
      var f, f' := folders[n], folders[n + 1];
      assert folders[..n + 1][|calls[..n]|] == f;
      NamesStep(id, f, calls[n], f');
      LastNamedNext(calls, NamesKind, KindGiven, "html", KindIn(f), KindIn(f'));
      LastNamedNext(calls, NamesTitle, TitleGiven, id, TitleIn(f, id), TitleIn(f', id));
    }
  }

  /**
   After any run with a finished save, the kind read is that of the last finished save that named
   one, "md" for the two words for prose in any case and padding and "html" for any other, and
   "html" if none did; the title is that of the last finished save that named one, else the id.
   */
  lemma ReadIsNamedByTheRun(id: string, folders: seq<Folder>, calls: seq<Call>)
    requires IsRun(id, folders, calls) && exists k :: 0 <= k < |calls| && calls[k].outcome.Saved?
    ensures Read(folders[|calls|]).Some?
    ensures var doc := Read(folders[|calls|]).value;
            && (forall k: nat | LastToName(calls, k, NamesKind) ::
                  doc.kind == if NamesProse(calls[k].body) then "md" else "html")
            && (NobodyNames(calls, NamesKind) ==> doc.kind == "html")
            && (forall k: nat | LastToName(calls, k, NamesTitle) :: doc.title == Trim(calls[k].body.title.value))
            && (NobodyNames(calls, NamesTitle) ==> doc.title == id)
  {
    ReadIsTheLastFinishedSave(id, folders, calls);
    NamesOverARun(id, folders, calls);
    SomethingFinished(calls);
    var doc := Read(folders[|calls|]).value;
    assert doc.kind == KindIn(folders[|calls|]) && doc.title == TitleIn(folders[|calls|], id);
  }

  lemma {:induction false} SomethingFinished(calls: seq<Call>)
    requires exists k :: 0 <= k < |calls| && calls[k].outcome.Saved?
    ensures Finished(calls) != []
  {
    var n := |calls| - 1;
    if !calls[n].outcome.Saved? {
      var k :| 0 <= k < |calls| && calls[k].outcome.Saved?;
      assert calls[..n][k] == calls[k];
      SomethingFinished(calls[..n]);
    }
  }

  // ---------- attachments over a run ----------

  /** The index lists exactly the stored attachments. */
  ghost predicate AssetsListed(f: Folder) {
    f.index.Some? ==> Names(f.index.value.assets, f.assets)
  }

  /** A save that brings no attachments, or never came to writing them. */
  ghost predicate Spares(f: Folder, body: Body, f': Folder) {
    body.files.Omitted? || StoppedEarly(f, body, f')
  }

  /**
   Such a save keeps the attachments when stopped; a stopped save unlists some exactly when it
   changes their names.
   */
  lemma StopKeepsAssets(f: Folder, body: Body, f': Folder)
    requires StoppedFrom(f, body, f')
    ensures Spares(f, body, f') ==> f'.assets == f.assets
    ensures f.index.Some? && AssetsListed(f) ==> (AssetsListed(f') <==> f'.assets.Keys == f.assets.Keys)
  {
    if f.index.Some? && AssetsListed(f) && AssetsListed(f') {
      assert forall name :: name in f'.assets <==> name in f.index.value.assets;
    }
  }

  /** The number of calls up to the last finished save; 0 without one. */
  ghost function LastFinished(calls: seq<Call>): (n: nat)
    ensures n <= |calls|
  {
    if calls == [] then 0
    else if calls[|calls| - 1].outcome.Saved? then |calls|
    else LastFinished(calls[..|calls| - 1])
  }

  /** The folder `now` after a run whose last finished save left `saved`. */
  ghost predicate SameAttachments(saved: Folder, now: Folder) {
    && AssetsListed(saved) && now.index == saved.index && saved.index.Some?
    && (AssetsListed(now) <==> now.assets.Keys == saved.assets.Keys)
  }

  /**
   After any run, the index lists the stored attachments exactly when their names are those the last
   finished save left. Their contents are that save's too unless a later save was stopped among its
   own attachments or behind them.
   */
  lemma {:induction false} AssetsOverARun(id: string, folders: seq<Folder>, calls: seq<Call>)
    requires IsRun(id, folders, calls)
    ensures LastFinished(calls) == 0 <==> folders[|calls|].index == None
    ensures LastFinished(calls) > 0 ==> SameAttachments(folders[LastFinished(calls)], folders[|calls|])
    ensures (forall k | LastFinished(calls) <= k < |calls| && calls[k].outcome.Stopped? ::
               Spares(folders[k], calls[k].body, folders[k + 1]))
            ==> folders[|calls|].assets == folders[LastFinished(calls)].assets
  {
    if calls != [] {
      var k := |calls| - 1;
      RunBefore(id, folders, calls);
      if calls[k].outcome.Saved? {
        SavedListsAssets(folders[k], calls[k].body, id, folders[k + 1]);
      } else {
        AssetsOverARun(id, folders[..k + 1], calls[..k]);
        AttachmentsStep(id, folders[LastFinished(calls)], folders[k], calls[k], folders[k + 1]);
        SoFar(folders, k, LastFinished(calls));
      }
    }
  }

  lemma SoFar<T>(s: seq<T>, k: nat, m: nat)
    requires m <= k < |s|
    ensures s[..k + 1][m] == s[m] && forall j | 0 <= j <= k :: s[..k + 1][j] == s[j]
  {
  }

  lemma SavedListsAssets(f: Folder, body: Body, id: string, f': Folder)
    requires SavedFrom(f, body, id, f')
    ensures f'.index.Some? && SameAttachments(f', f')
  {
  }

  /**
   A call that does not finish leaves the index, and, unless stopped among its attachments or behind
   them, those too.
   */
  lemma AttachmentsStep(id: string, saved: Folder, f: Folder, call: Call, f': Folder)
    requires StepsTo(id, f, call, f') && !call.outcome.Saved?
    ensures f'.index == f.index
    ensures SameAttachments(saved, f) ==> SameAttachments(saved, f')
    ensures (call.outcome.Stopped? ==> Spares(f, call.body, f')) ==> f'.assets == f.assets
  {
    if SameAttachments(saved, f) {
      ListedAgain(saved, f');
    }
  }

  lemma ListedAgain(saved: Folder, now: Folder)
    requires AssetsListed(saved) && saved.index.Some? && now.index == saved.index
    ensures SameAttachments(saved, now)
  {
    if AssetsListed(now) {
      assert forall name :: name in now.assets <==> name in saved.assets;
    }
  }

  /** A list over the limit ends every save it comes with; with the old attachments gone the index still names them. */
  lemma OverLimitLosesAssets(f: Folder, docs: seq<string>, body: Body, id: string)
    requires HistoryOk(f, docs) && f.index.Some? && AssetsListed(f) && f.assets != map[]
    requires body.files.Files? && |body.files.list| > MAX_ASSET_FILES
    ensures forall f' :: !SavedFrom(f, body, id, f')
    ensures var f' := Folder(f.index, FilesWith(f, body), map[]);
            StoppedFrom(f, body, f') && Read(f') == Read(f) && !AssetsListed(f')
  {
    var f' := Folder(f.index, FilesWith(f, body), map[]);
    assert StoppedAttaching(f, body, f');
    StoppedKeepsHistory(f, docs, body, f');
    StopKeepsAssets(f, body, f');
  }

  ghost predicate Listed(f: Folder, name: string) {
    exists k :: 0 <= k < |VersionsOf(f)| && VersionsOf(f)[k].file == name
  }

  /** Version files on disk that the index no longer lists. */
  ghost function Leftover(f: Folder): set<string> {
    set name | name in f.files && !Listed(f, name)
  }

  /** No file on disk is of a version still to come. */
  ghost predicate NothingAhead(f: Folder) {
    forall name | name in f.files :: exists m: nat :: m < NextVersion(f) && FileOf(name, m)
  }

  /** Versions max(1, n-19)..n in order, each on disk with its own content, for n finished saves. */
  ghost predicate Window(f: Folder, contents: seq<string>) {
    && f.index.Some? && f.index.value.version == |contents|
    && |VersionsOf(f)| == (if |contents| < MAX_VERSIONS then |contents| else MAX_VERSIONS)
    && (forall k | 0 <= k < |VersionsOf(f)| ::
          var v := VersionsOf(f)[k];
          && v.number == |contents| - |VersionsOf(f)| + 1 + k
          && 1 <= v.number && v.file in f.files && f.files[v.file] == contents[v.number - 1])
  }

  lemma NewNameIsNew(f: Folder, body: Body)
    requires NothingAhead(f)
    ensures NewFile(f, body) !in f.files
  {
    NewFileIsNext(f, body);
    if NewFile(f, body) in f.files {
      var m: nat :| m < NextVersion(f) && FileOf(NewFile(f, body), m);
      FilesOfDiffer(NewFile(f, body), m, NextVersion(f));
    }
  }

  lemma NewIsListed(f: Folder, body: Body)
    requires |VersionsOf(f)| <= MAX_VERSIONS
    ensures exists k :: 0 <= k < |NextWindow(f, body)| && NextWindow(f, body)[k].file == NewFile(f, body)
  {
    var last := |NextWindow(f, body)| - 1;
    WindowShift(f, body, last);
    assert NextWindow(f, body)[last].file == NewFile(f, body);
  }

  lemma StillListed(f: Folder, body: Body, j: nat)
    requires |VersionsOf(f)| <= MAX_VERSIONS && j < |VersionsOf(f)| && VersionsOf(f)[j].file !in Dropped(f)
    ensures exists k :: 0 <= k < |NextWindow(f, body)| && NextWindow(f, body)[k].file == VersionsOf(f)[j].file
  {
    assert j >= |Dropped(f)|;
    var k := j - |Dropped(f)|;
    WindowShift(f, body, 0);
    WindowShift(f, body, k);
    assert NextWindow(f, body)[k].file == VersionsOf(f)[j].file;
  }

  lemma WasListed(f: Folder, docs: seq<string>, body: Body, k: nat)
    requires HistoryOk(f, docs) && k < |NextWindow(f, body)|
    ensures var name := NextWindow(f, body)[k].file;
            name == NewFile(f, body) || (Listed(f, name) && name !in Dropped(f))
  {
    WindowShift(f, body, k);
    var j := k + |Dropped(f)|;
    if j < |VersionsOf(f)| {
      assert VersionsOf(f)[j].file == NextWindow(f, body)[k].file;
      if Dropped(f) != {} {
        WindowNamesDiffer(f.index.value, 0, j);
      }
    }
  }

  /** What the new window lists is what the old one listed, with the new file and without the dropped one. */
  lemma ListedNext(f: Folder, docs: seq<string>, body: Body, id: string, f': Folder, name: string)
    requires HistoryOk(f, docs) && SavedFrom(f, body, id, f')
    ensures Listed(f', name) <==> name == NewFile(f, body) || (Listed(f, name) && name !in Dropped(f))
  {
    SavedWindow(f, docs, body, id, f');
    assert VersionsOf(f') == NextWindow(f, body);
    if Listed(f', name) {
      var k :| 0 <= k < |NextWindow(f, body)| && NextWindow(f, body)[k].file == name;
      WasListed(f, docs, body, k);
    }
    if name == NewFile(f, body) {
      NewIsListed(f, body);
    } else if Listed(f, name) && name !in Dropped(f) {
      var j :| 0 <= j < |VersionsOf(f)| && VersionsOf(f)[j].file == name;
      StillListed(f, body, j);
    }
  }

  /** A finished save leaves behind what was left over before, and the dropped file when its removal failed. */
  lemma LeftoverNext(f: Folder, docs: seq<string>, body: Body, id: string, f': Folder)
    requires HistoryOk(f, docs) && NothingAhead(f) && SavedFrom(f, body, id, f')
    requires forall k | 0 <= k < |VersionsOf(f)| :: VersionsOf(f)[k].file in f.files
    ensures Leftover(f') == Leftover(f) + Dropped(f) * f'.files.Keys
    ensures f'.files == Trimmed(f, body).0 <==> Dropped(f) !! f'.files.Keys
    ensures NothingAhead(f')
  {
    SavedWindow(f, docs, body, id, f');
    NewNameIsNew(f, body);
    NewFileIsNext(f, body);
    var all, least := FilesWith(f, body), Trimmed(f, body).0;
    assert least.Keys == all.Keys - Dropped(f);
    forall name ensures name in Leftover(f') <==> name in Leftover(f) + Dropped(f) * f'.files.Keys {
      ListedNext(f, docs, body, id, f', name);
      DroppedIsListed(f, name);
    }
    if Dropped(f) !! f'.files.Keys {
      assert f'.files.Keys == least.Keys;
    }
  }

  lemma DroppedIsListed(f: Folder, name: string)
    ensures name in Dropped(f) ==> Listed(f, name)
  {
    if name in Dropped(f) {
      assert VersionsOf(f)[0].file == name;
    }
  }

  lemma WindowFromHistory(f: Folder, contents: seq<string>)
    requires HistoryOk(f, contents) && f.index.Some?
    requires forall k | 0 <= k < |VersionsOf(f)| :: VersionsOf(f)[k].file in f.files
    ensures Window(f, contents)
  {
  }

  lemma SavedWindowIsThere(f: Folder, contents: seq<string>, body: Body, id: string, f': Folder)
    requires HistoryOk(f, contents) && SavedFrom(f, body, id, f')
    ensures Window(f', contents + [body.content])
  {
    SavedKeepsHistory(f, contents, body, id, f');
    SavedWindow(f, contents, body, id, f');
    forall k | 0 <= k < |VersionsOf(f')| ensures VersionsOf(f')[k].file in f'.files {
      SavedFile(f, contents, body, id, f', k);
    }
    WindowFromHistory(f', contents + [body.content]);
  }

  type Step = (Folder, Body, Folder) -> bool

  /** Every removal of this save worked. */
  function Clean(f: Folder, body: Body, f': Folder): bool {
    f'.files == Trimmed(f, body).0
  }

  ghost predicate Every(folders: seq<Folder>, calls: seq<Call>, step: Step)
    requires |folders| == |calls| + 1
  {
    forall k | 0 <= k < |calls| :: step(folders[k], calls[k].body, folders[k + 1])
  }

  lemma EverySoFar(folders: seq<Folder>, calls: seq<Call>, step: Step)
    requires calls != [] && |folders| == |calls| + 1
    ensures var n := |calls| - 1;
            Every(folders, calls, step) <==>
            Every(folders[..n + 1], calls[..n], step) && step(folders[n], calls[n].body, folders[n + 1])
  {
    var n := |calls| - 1;
    var front, before := folders[..n + 1], calls[..n];
    assert forall k | 0 <= k < n :: before[k] == calls[k];
    assert forall k | 0 <= k <= n :: front[k] == folders[k];
  }

  /**
   After n finished saves in a row the index lists versions max(1, n-19)..n in order, each on disk
   with the content its own save was given; and those are all the version files on disk exactly
   when no removal of a dropped one failed.
   */
  lemma {:induction false} WindowAfterSaves(id: string, folders: seq<Folder>, calls: seq<Call>)
    requires IsRun(id, folders, calls) && calls != [] && forall c | c in calls :: c.outcome.Saved?
    ensures |Finished(calls)| == |calls| && Window(folders[|calls|], Finished(calls)) && NothingAhead(folders[|calls|])
    ensures Leftover(folders[|calls|]) == {} <==> Every(folders, calls, Clean)
  {
    var k := |calls| - 1;
    var front := calls[..k];
    assert calls[k] in calls && forall c | c in front :: c in calls;
    RunFront(id, folders, calls);
    ReadIsTheLastFinishedSave(id, folders[..k + 1], front);
    if k > 0 {
      WindowAfterSaves(id, folders[..k + 1], front);
    }
    WindowStep(folders[k], Finished(front), calls[k].body, id, folders[k + 1]);
    EverySoFar(folders, calls, Clean);
  }

  lemma RunFront(id: string, folders: seq<Folder>, calls: seq<Call>)
    requires IsRun(id, folders, calls) && calls != []
    ensures IsRun(id, folders[..|calls|], calls[..|calls| - 1])
    ensures folders[..|calls|][|calls| - 1] == folders[|calls| - 1]
    ensures |calls| == 1 ==> folders[0] == EMPTY && calls[..0] == []
    ensures calls[|calls| - 1].outcome.Saved? ==>
              SavedFrom(folders[|calls| - 1], calls[|calls| - 1].body, id, folders[|calls|])
  {
  }

  /** One more save in a row: the window moves on, and something is left over only if it was before or is now. */
  lemma WindowStep(f: Folder, contents: seq<string>, body: Body, id: string, f': Folder)
    requires HistoryOk(f, contents) && SavedFrom(f, body, id, f')
    requires f == EMPTY || (Window(f, contents) && NothingAhead(f))
    ensures Window(f', contents + [body.content]) && NothingAhead(f')
    ensures Leftover(f') == {} <==> Leftover(f) == {} && Clean(f, body, f')
  {
    SavedWindowIsThere(f, contents, body, id, f');
    AllThere(f, contents);
    LeftoverNext(f, contents, body, id, f');
    BothEmpty(Leftover(f), Dropped(f), f'.files.Keys);
  }

  lemma AllThere(f: Folder, contents: seq<string>)
    requires f == EMPTY || (Window(f, contents) && NothingAhead(f))
    ensures NothingAhead(f) && forall k | 0 <= k < |VersionsOf(f)| :: VersionsOf(f)[k].file in f.files
  {
  }

  lemma BothEmpty(a: set<string>, b: set<string>, c: set<string>)
    ensures a + b * c == {} <==> a == {} && b !! c
  {
    assert forall x :: x in a + b * c <==> x in a || (x in b && x in c);
  }
}
