/** The extension registry gate: which repository snapshots it accepts, which
    transitions between them, and what holds along every accepted history. */
module ExtensionRegistry {
  import opened Sequences
  import opened TextOrder

  type Bytes(==, !new)
  type Flag(==, !new)
  type Id = string

  /** The four registered artifact families, each with its own directory. */
  datatype Kind = Proposal | Plan | Contract | Implementation

  /** Repository paths by what the gate takes them for; `Spell` gives the text. */
  datatype Path =
    | Registry
    | Artifact(kind: Kind, id: Id)
    | Runtime(name: string)
    | Elsewhere(name: string)

  datatype Entry = Entry(
    id: Id, status: string, track: string, semanticClass: string,
    proposal: Path, plan: Path, contract: Path, link: Option<Path>)

  type Files = map<Path, Bytes>
  type Table = map<Id, Entry>

  /** What the gate reads out of file contents. */
  datatype Env = Env(
    entries: Bytes -> Option<seq<Entry>>,
    flagsIn: Bytes -> set<Flag>,
    approved: Bytes -> Option<Flag>,
    classAllowed: (string, string) -> bool,
    artifactsOk: (Files, Entry) -> bool)

  // ----- path spelling --------------------------------------------------------

  const RegistryPath := "deploy/extensions/registry.json"

  function Directory(kind: Kind): string {
    match kind
    case Proposal => "deploy/extensions/proposals/"
    case Plan => "deploy/extensions/plans/"
    case Contract => "benchmarks/extensions/contracts/"
    case Implementation => "deploy/extensions/implementations/"
  }

  function Extension(kind: Kind): string { if kind == Plan then ".md" else ".json" }

  function Spell(p: Path): string {
    match p
    case Registry => RegistryPath
    case Artifact(kind, id) => Directory(kind) + id + Extension(kind)
    case Runtime(name) => name
    case Elsewhere(name) => name
  }

  /** The last path component's suffix: nothing for a leading or trailing dot. */
  function LastIndexOf(c: char, s: string): (k: int)
    ensures -1 <= k < |s|
  {
    if s == [] then -1 else if Last(s) == c then |s| - 1 else LastIndexOf(c, DropLast(s))
  }

  function SuffixOf(path: string): string {
    var name := path[LastIndexOf('/', path) + 1..];
    var dot := LastIndexOf('.', name);
    if 0 < dot < |name| - 1 then name[dot..] else ""
  }

  lemma {:induction false} LastIndexOfIs(c: char, front: string, back: string)
    requires c !in back
    ensures LastIndexOf(c, front + [c] + back) == |front| && LastIndexOf(c, back) == -1
  {
    if back == [] {
      assert front + [c] + back == front + [c];
    } else {
      LastIndexOfIs(c, front, DropLast(back));
      assert DropLast(front + [c] + back) == front + [c] + DropLast(back);
    }
  }

  lemma {:induction false} DotOf(stem: string, ext: string, name: string)
    requires '.' !in ext && name == stem + "." + ext
    ensures LastIndexOf('.', name) == |stem| && name[|stem|..] == "." + ext && |name| == |stem| + 1 + |ext|
  {
    LastIndexOfIs('.', stem, ext);
  }

  /** `dir/stem.ext` has the suffix `.ext`. */
  lemma {:induction false} SuffixIs(dir: string, stem: string, ext: string, name: string)
    requires (dir == "" || Last(dir) == '/') && '/' !in name && '.' !in ext && name == stem + "." + ext
    ensures SuffixOf(dir + name) == if stem == "" || ext == "" then "" else "." + ext
  {
    NameOf(dir, name);
    DotOf(stem, ext, name);
  }

  /** `dir/name` without a dot in the name has no suffix. */
  lemma {:induction false} NoSuffix(dir: string, name: string)
    requires (dir == "" || Last(dir) == '/') && '/' !in name && '.' !in name
    ensures SuffixOf(dir + name) == ""
  {
    NameOf(dir, name);
    LastIndexOfIs('.', "", name);
  }

  lemma {:induction false} NameOf(dir: string, name: string)
    requires (dir == "" || Last(dir) == '/') && '/' !in name
    ensures (dir + name)[LastIndexOf('/', dir + name) + 1..] == name
  {
    if dir == "" {
      LastIndexOfIs('/', "", name);
      assert dir + name == name;
    } else {
      LastIndexOfIs('/', DropLast(dir), name);
      assert dir == DropLast(dir) + ['/'];
    }
  }

  const RuntimeSuffixes: set<string> :=
    {".rs", ".toml", ".c", ".cc", ".cpp", ".cu", ".cuh", ".h", ".hpp"}

  predicate IsRuntimeSource(path: string) {
    "crates/" <= path && SuffixOf(path) in RuntimeSuffixes
  }

  /** The classification is the text's own. */
  ghost predicate Classified(p: Path) {
    match p
    case Registry => true
    case Artifact(_, _) => true
    case Runtime(name) => IsRuntimeSource(name)
    case Elsewhere(name) =>
      && name != RegistryPath && !IsRuntimeSource(name)
      && forall kind, id :: name != Spell(Artifact(kind, id))
  }

  /** The four artifact paths of an identifier. */
  lemma {:induction false} ArtifactPaths(id: Id)
    ensures Spell(Artifact(Proposal, id)) == "deploy/extensions/proposals/" + id + ".json"
    ensures Spell(Artifact(Plan, id)) == "deploy/extensions/plans/" + id + ".md"
    ensures Spell(Artifact(Contract, id)) == "benchmarks/extensions/contracts/" + id + ".json"
    ensures Spell(Artifact(Implementation, id)) == "deploy/extensions/implementations/" + id + ".json"
  {
    assert Directory(Proposal) == "deploy/extensions/proposals/" && Directory(Plan) == "deploy/extensions/plans/";
    assert Directory(Contract) == "benchmarks/extensions/contracts/";
    assert Directory(Implementation) == "deploy/extensions/implementations/";
  }

  lemma {:induction false} DirectoriesDiffer(a: Kind, b: Kind, x: string, y: string)
    requires Directory(a) + x == Directory(b) + y
    ensures a == b && x == y
  {
    var l, r := Directory(a) + x, Directory(b) + y;
    assert l[0] == Directory(a)[0] && r[0] == Directory(b)[0];
    assert l[18] == Directory(a)[18] && r[18] == Directory(b)[18];
    assert l[19] == Directory(a)[19] && r[19] == Directory(b)[19];
    assert x == l[|Directory(a)|..] && y == r[|Directory(b)|..];
  }

  lemma {:induction false} ArtifactIsNotElse(kind: Kind, id: Id)
    ensures Spell(Artifact(kind, id)) != RegistryPath && !IsRuntimeSource(Spell(Artifact(kind, id)))
  {
    var s := Spell(Artifact(kind, id));
    assert s[0] == Directory(kind)[0];
    assert s[18] == Directory(kind)[18];
    assert s[19] == Directory(kind)[19];
  }

  lemma {:induction false} SameEnding(x: string, y: string, end: string)
    requires x + end == y + end
    ensures x == y
  {
    assert x == (x + end)[..|x|] && y == (y + end)[..|y|];
  }

  lemma {:induction false} Grouped(a: string, b: string, c: string)
    ensures a + b + c == a + (b + c)
  {
  }

  lemma {:induction false} ArtifactsDiffer(a: Kind, b: Kind, x: Id, y: Id)
    requires Directory(a) + x + Extension(a) == Directory(b) + y + Extension(b)
    ensures a == b && x == y
  {
    Grouped(Directory(a), x, Extension(a));
    Grouped(Directory(b), y, Extension(b));
    DirectoriesDiffer(a, b, x + Extension(a), y + Extension(b));
    SameEnding(x, y, Extension(a));
  }

  /** Different paths have different texts, so comparing paths compares texts. */
  lemma {:induction false} SpellInjective(p: Path, q: Path)
    requires Classified(p) && Classified(q) && Spell(p) == Spell(q)
    ensures p == q
  {
    if p.Artifact? && q.Artifact? {
      ArtifactsDiffer(p.kind, q.kind, p.id, q.id);
    } else if p.Artifact? {
      ArtifactIsNotElse(p.kind, p.id);
    } else if q.Artifact? {
      ArtifactIsNotElse(q.kind, q.id);
    } else {
      RegistryIsNotRuntime();
    }
  }

  lemma {:induction false} RegistryIsNotRuntime()
    ensures !IsRuntimeSource(RegistryPath)
  {
    assert RegistryPath[0] != 'c' && "crates/"[0] == 'c';
  }

  // ----- one snapshot -----------------------------------------------------------

  predicate Lower(a: char, b: char) { a < b }

  predicate SortedIds(entries: seq<Entry>) {
    forall i :: 0 < i < |entries| ==> Before(Lower, entries[i - 1].id, entries[i].id)
  }

  predicate DistinctIds(entries: seq<Entry>) {
    forall i, j :: 0 <= i < j < |entries| ==> entries[i].id != entries[j].id
  }

  /** The dictionary from identifier to entry. */
  function TableOf(entries: seq<Entry>): Table {
    if entries == [] then map[] else TableOf(DropLast(entries))[Last(entries).id := Last(entries)]
  }

  function RegistryOf(env: Env, files: Files): Option<seq<Entry>> {
    if Registry in files then env.entries(files[Registry]) else None
  }

  function TableIn(env: Env, files: Files): Table {
    var r := RegistryOf(env, files);
    if r.Some? then TableOf(r.value) else map[]
  }

  predicate EntryOk(env: Env, files: Files, e: Entry) {
    && e.status == "approved-for-implementation" && env.classAllowed(e.track, e.semanticClass)
    && e.proposal == Artifact(Proposal, e.id) && e.proposal in files
    && e.plan == Artifact(Plan, e.id) && e.plan in files
    && e.contract == Artifact(Contract, e.id) && e.contract in files
    && (e.link.Some? ==> e.link.value == Artifact(Implementation, e.id) && e.link.value in files)
  }

  /** The paths an entry registers in one family. */
  function Registered(kind: Kind, e: Entry): set<Path> {
    match kind
    case Proposal => {e.proposal}
    case Plan => {e.plan}
    case Contract => {e.contract}
    case Implementation => if e.link.Some? then {e.link.value} else {}
  }

  function AllRegistered(kind: Kind, entries: seq<Entry>): set<Path> {
    if entries == [] then {} else AllRegistered(kind, DropLast(entries)) + Registered(kind, Last(entries))
  }

  /** All files below one artifact directory. */
  function Inventory(kind: Kind, files: Files): set<Path> {
    set p | p in files && Directory(kind) <= Spell(p)
  }

  /** The runtime flag that the proposal of `e` declares. */
  function FlagOf(env: Env, files: Files, e: Entry): Option<Flag> {
    if e.proposal in files then env.approved(files[e.proposal]) else None
  }

  predicate DistinctFlags(env: Env, files: Files, entries: seq<Entry>) {
    forall i, j :: 0 <= i < j < |entries| ==> FlagOf(env, files, entries[i]) != FlagOf(env, files, entries[j])
  }

  predicate EntriesOk(env: Env, files: Files, entries: seq<Entry>) {
    forall i :: 0 <= i < |entries| ==> EntryOk(env, files, entries[i])
  }

  predicate ArtifactsOk(env: Env, files: Files, entries: seq<Entry>) {
    forall i :: 0 <= i < |entries| ==> FlagOf(env, files, entries[i]).Some? && env.artifactsOk(files, entries[i])
  }

  predicate Complete(files: Files, entries: seq<Entry>) {
    forall kind: Kind :: Inventory(kind, files) == AllRegistered(kind, entries)
  }

  /** What the gate demands of a snapshot by itself. */
  predicate WellFormed(env: Env, files: Files) {
    var r := RegistryOf(env, files);
    && r.Some? && EntriesOk(env, files, r.value)
    && DistinctIds(r.value) && SortedIds(r.value) && Complete(files, r.value)
    && ArtifactsOk(env, files, r.value) && DistinctFlags(env, files, r.value)
  }

  /** All experimental flags spelled in runtime sources. */
  function Flags(env: Env, files: Files): set<Flag> {
    set p, f | p in files && p.Runtime? && f in env.flagsIn(files[p]) :: f
  }

  // ----- one transition ---------------------------------------------------------

  function Changed(base: Files, files: Files): set<Path> {
    set p | p in base.Keys + files.Keys && !(p in base && p in files && base[p] == files[p])
  }

  /** The artifact is in the base and has the same bytes now. */
  predicate Unchanged(base: Files, files: Files, p: Path) {
    p in base && p in files && files[p] == base[p]
  }

  predicate SameButLink(a: Entry, b: Entry) { b == a.(link := b.link) }

  /** What an existing entry must keep. */
  predicate EntryKept(base: Files, files: Files, a: Entry, b: Entry) {
    && SameButLink(a, b) && (a.link.Some? ==> b.link == a.link && Unchanged(base, files, a.link.value))
    && Unchanged(base, files, a.proposal) && Unchanged(base, files, a.plan) && Unchanged(base, files, a.contract)
  }

  function NewlyLinked(a: Table, b: Table): set<Id> {
    set id | id in a && id in b && a[id].link.None? && b[id].link.Some?
  }

  /** What an admission may touch. */
  function Admission(e: Entry): set<Path> { {Registry, e.proposal, e.plan, e.contract} }

  predicate EntriesKept(base: Files, files: Files, a: Table, b: Table) {
    forall id :: id in a ==> id in b && EntryKept(base, files, a[id], b[id])
  }

  /** The comparison of two registry tables and the files around them. */
  predicate Step(env: Env, base: Files, files: Files, a: Table, b: Table) {
    var linked, added := NewlyLinked(a, b), b.Keys - a.Keys;
    var flags := Flags(env, files) - Flags(env, base);
    && a.Keys <= b.Keys && |linked| <= 1
    && (forall id :: id in linked ==> flags == FlagSet(FlagOf(env, files, b[id])))
    && (linked == {} ==> flags == {})
    && EntriesKept(base, files, a, b)
    && |added| <= 1
    && (forall id :: id in added ==> b[id].link.None? && Changed(base, files) == Admission(b[id]))
  }

  function FlagSet(f: Option<Flag>): set<Flag> { if f.Some? then {f.value} else {} }

  /** `_validate_transition`. */
  predicate Transition(env: Env, base: Files, files: Files) {
    if Registry !in base then TableIn(env, files) == map[]
    else
      && RegistryOf(env, base).Some? && DistinctIds(RegistryOf(env, base).value)
      && Step(env, base, files, TableIn(env, base), TableIn(env, files))
  }

  predicate Accepts(env: Env, base: Files, files: Files) {
    WellFormed(env, files) && Transition(env, base, files)
  }

  // ----- tables -----------------------------------------------------------------

  lemma {:induction false} TableOrigin(entries: seq<Entry>, id: Id) returns (i: nat)
    requires id in TableOf(entries)
    ensures i < |entries| && entries[i].id == id && TableOf(entries)[id] == entries[i]
  {
    if Last(entries).id == id { i := |entries| - 1; } else { i := TableOrigin(DropLast(entries), id); }
  }

  lemma {:induction false} TableSize(entries: seq<Entry>)
    requires DistinctIds(entries)
    ensures |TableOf(entries)| == |entries|
  {
    if entries != [] {
      TableSize(DropLast(entries));
      if Last(entries).id in TableOf(DropLast(entries)) {
        var i := TableOrigin(DropLast(entries), Last(entries).id);
        assert false;
      }
    }
  }

  /** What well-formedness says about a table. */
  predicate TableOk(env: Env, files: Files, t: Table) {
    && (forall id :: id in t ==> t[id].id == id && EntryOk(env, files, t[id]) && FlagOf(env, files, t[id]).Some?)
    && (forall x, y :: x in t && y in t && x != y ==> FlagOf(env, files, t[x]) != FlagOf(env, files, t[y]))
  }

  lemma {:induction false} TableIsOk(env: Env, files: Files)
    requires WellFormed(env, files)
    ensures TableOk(env, files, TableIn(env, files))
  {
    var entries := RegistryOf(env, files).value;
    var t := TableOf(entries);
    forall id | id in t ensures t[id].id == id && EntryOk(env, files, t[id]) && FlagOf(env, files, t[id]).Some? {
      var i := TableOrigin(entries, id);
    }
    forall x, y | x in t && y in t && x != y ensures FlagOf(env, files, t[x]) != FlagOf(env, files, t[y]) {
      var i := TableOrigin(entries, x);
      var j := TableOrigin(entries, y);
      assert i < j || j < i;
    }
  }

  /** With different identifiers the table holds exactly the entries. */
  lemma {:induction false} TableHoldsEntries(entries: seq<Entry>)
    requires DistinctIds(entries)
    ensures forall i :: 0 <= i < |entries| ==> entries[i].id in TableOf(entries) && TableOf(entries)[entries[i].id] == entries[i]
    ensures forall id :: id in TableOf(entries) ==> exists i :: 0 <= i < |entries| && entries[i].id == id
  {
    if entries != [] {
      TableHoldsEntries(DropLast(entries));
      forall id | id in TableOf(entries) ensures exists i :: 0 <= i < |entries| && entries[i].id == id {
        var i := TableOrigin(entries, id);
      }
    }
  }

  lemma {:induction false} RegisteredIn(kind: Kind, entries: seq<Entry>, p: Path)
    ensures p in AllRegistered(kind, entries) <==> exists i :: 0 <= i < |entries| && p in Registered(kind, entries[i])
  {
    if entries != [] {
      var front := DropLast(entries);
      RegisteredIn(kind, front, p);
      if i :| 0 <= i < |entries| && p in Registered(kind, entries[i]) {
        assert i < |front| ==> front[i] == entries[i];
      }
      if i :| 0 <= i < |front| && p in Registered(kind, front[i]) {
        assert entries[i] == front[i];
      }
    }
  }

  /** One entry as the registry must spell it, with its files. */
  predicate Spelled(env: Env, files: Files, e: Entry) {
    && e.status == "approved-for-implementation" && env.classAllowed(e.track, e.semanticClass)
    && e.proposal == Artifact(Proposal, e.id) && Artifact(Proposal, e.id) in files
    && e.plan == Artifact(Plan, e.id) && Artifact(Plan, e.id) in files
    && e.contract == Artifact(Contract, e.id) && Artifact(Contract, e.id) in files
    && (e.link == None || (e.link == Some(Artifact(Implementation, e.id)) && Artifact(Implementation, e.id) in files))
    && env.approved(files[Artifact(Proposal, e.id)]).Some? && env.artifactsOk(files, e)
  }

  /** A file below an artifact directory belongs to an entry; an implementation
      to a linked one. */
  ghost predicate Owned(entries: seq<Entry>, p: Path) {
    exists i :: 0 <= i < |entries| && p.Artifact? && p.id == entries[i].id
                && (p.kind == Implementation ==> entries[i].link.Some?)
  }

  predicate BelowArtifacts(text: string) {
    || "deploy/extensions/proposals/" <= text || "deploy/extensions/plans/" <= text
    || "benchmarks/extensions/contracts/" <= text || "deploy/extensions/implementations/" <= text
  }

  lemma {:induction false} BelowIsSome(text: string)
    ensures BelowArtifacts(text) <==> exists kind :: Directory(kind) <= text
  {
    assert Directory(Proposal) == "deploy/extensions/proposals/" && Directory(Plan) == "deploy/extensions/plans/";
    assert Directory(Contract) == "benchmarks/extensions/contracts/";
    assert Directory(Implementation) == "deploy/extensions/implementations/";
    if kind: Kind :| Directory(kind) <= text {
      match kind
      case Proposal =>
      case Plan =>
      case Contract =>
      case Implementation =>
    }
  }

  lemma {:induction false} ArtifactIsBelow(kind: Kind, other: Kind, id: Id)
    ensures Directory(kind) <= Spell(Artifact(kind, id))
    ensures Directory(other) <= Spell(Artifact(kind, id)) ==> other == kind
  {
    Grouped(Directory(kind), id, Extension(kind));
    var s := Spell(Artifact(kind, id));
    if Directory(other) <= s {
      DirectoriesDiffer(kind, other, id + Extension(kind), s[|Directory(other)|..]);
    }
  }

  lemma {:induction false} RegisteredIffOwned(env: Env, files: Files, entries: seq<Entry>, p: Path, kind: Kind)
    requires EntriesOk(env, files, entries)
    ensures p in AllRegistered(kind, entries) <==> p.Artifact? && p.kind == kind && Owned(entries, p)
  {
    RegisteredIn(kind, entries, p);
    forall i | 0 <= i < |entries|
      ensures p in Registered(kind, entries[i]) <==>
              p.Artifact? && p.kind == kind && p.id == entries[i].id && (p.kind == Implementation ==> entries[i].link.Some?)
    {
      assert EntryOk(env, files, entries[i]);
    }
  }

  lemma {:induction false} OwnedIsThere(env: Env, files: Files, entries: seq<Entry>, p: Path)
    requires EntriesOk(env, files, entries) && Owned(entries, p)
    ensures p in files
  {
    var i :| 0 <= i < |entries| && p.Artifact? && p.id == entries[i].id && (p.kind == Implementation ==> entries[i].link.Some?);
    assert EntryOk(env, files, entries[i]);
    assert p == Artifact(p.kind, p.id);
  }

  /** The inventories are complete exactly when no file below an artifact
      directory lacks an entry. */
  lemma {:induction false} CompleteIff(env: Env, files: Files, entries: seq<Entry>)
    requires EntriesOk(env, files, entries)
    ensures Complete(files, entries) <==> forall p :: p in files && BelowArtifacts(Spell(p)) ==> Owned(entries, p)
  {
    if Complete(files, entries) {
      forall p | p in files && BelowArtifacts(Spell(p)) ensures Owned(entries, p) {
        BelowIsSome(Spell(p));
        var kind :| Directory(kind) <= Spell(p);
        assert p in Inventory(kind, files);
        RegisteredIffOwned(env, files, entries, p, kind);
      }
    }
    if forall p :: p in files && BelowArtifacts(Spell(p)) ==> Owned(entries, p) {
      forall kind: Kind ensures Inventory(kind, files) == AllRegistered(kind, entries) {
        forall p ensures p in Inventory(kind, files) <==> p in AllRegistered(kind, entries) {
          RegisteredIffOwned(env, files, entries, p, kind);
          BelowIsSome(Spell(p));
          if p.Artifact? { ArtifactIsBelow(p.kind, kind, p.id); }
          if Owned(entries, p) { OwnedIsThere(env, files, entries, p); }
        }
      }
    }
  }

  /** `a` is a proper beginning of `b`, or has the smaller letter where they part. */
  ghost predicate Precedes(a: string, b: string) {
    exists k :: 0 <= k < |b| && k <= |a| && a[..k] == b[..k] && (k == |a| || a[k] < b[k])
  }

  lemma {:induction false} PrecedesIff(a: string, b: string)
    ensures Precedes(a, b) <==> Before(Lower, a, b)
  {
    BeforeIff(Lower, a, b);
  }

  /** Spelled entries in strictly ascending order, no unowned artifact, and no flag
      approved twice. */
  ghost predicate Admissible(env: Env, files: Files, entries: seq<Entry>) {
    && (forall i :: 0 <= i < |entries| ==> Spelled(env, files, entries[i]))
    && (forall i, j :: 0 <= i < j < |entries| ==> Precedes(entries[i].id, entries[j].id))
    && (forall p :: p in files && BelowArtifacts(Spell(p)) ==> Owned(entries, p))
    && (forall i, j :: 0 <= i < j < |entries| ==>
          env.approved(files[Artifact(Proposal, entries[i].id)]) != env.approved(files[Artifact(Proposal, entries[j].id)]))
  }

  /** The snapshots that the gate accepts. */
  lemma {:induction false} WellFormedIff(env: Env, files: Files)
    ensures WellFormed(env, files) <==>
            && Registry in files && env.entries(files[Registry]).Some?
            && Admissible(env, files, env.entries(files[Registry]).value)
  {
    if Registry in files && env.entries(files[Registry]).Some? {
      var entries := env.entries(files[Registry]).value;
      if WellFormed(env, files) { AcceptedIsAdmissible(env, files, entries); }
      if Admissible(env, files, entries) { AdmissibleIsAccepted(env, files, entries); }
    }
  }

  lemma {:induction false} AcceptedIsAdmissible(env: Env, files: Files, entries: seq<Entry>)
    requires WellFormed(env, files) && entries == RegistryOf(env, files).value
    ensures Admissible(env, files, entries)
  {
    SortedThroughout(entries);
    forall i, j | 0 <= i < j < |entries| ensures Precedes(entries[i].id, entries[j].id) {
      PrecedesIff(entries[i].id, entries[j].id);
    }
    CompleteIff(env, files, entries);
    forall i | 0 <= i < |entries| ensures Spelled(env, files, entries[i]) {
      assert EntryOk(env, files, entries[i]);
    }
    forall i, j | 0 <= i < j < |entries|
      ensures env.approved(files[Artifact(Proposal, entries[i].id)]) != env.approved(files[Artifact(Proposal, entries[j].id)])
    {
      assert FlagOf(env, files, entries[i]) != FlagOf(env, files, entries[j]);
    }
  }

  lemma {:induction false} AdmissibleIsAccepted(env: Env, files: Files, entries: seq<Entry>)
    requires Registry in files && env.entries(files[Registry]) == Some(entries) && Admissible(env, files, entries)
    ensures WellFormed(env, files)
  {
    SpelledIsOk(env, files, entries);
    forall i, j | 0 <= i < j < |entries| ensures Before(Lower, entries[i].id, entries[j].id) {
      PrecedesIff(entries[i].id, entries[j].id);
    }
    AscendingIsDistinct(entries);
    CompleteIff(env, files, entries);
    forall i, j | 0 <= i < j < |entries| ensures FlagOf(env, files, entries[i]) != FlagOf(env, files, entries[j]) {
      assert Spelled(env, files, entries[i]) && Spelled(env, files, entries[j]);
    }
  }

  lemma {:induction false} SpelledIsOk(env: Env, files: Files, entries: seq<Entry>)
    requires forall i :: 0 <= i < |entries| ==> Spelled(env, files, entries[i])
    ensures EntriesOk(env, files, entries) && ArtifactsOk(env, files, entries)
  {
    forall i | 0 <= i < |entries| ensures EntryOk(env, files, entries[i]) && FlagOf(env, files, entries[i]).Some? {
      assert Spelled(env, files, entries[i]);
    }
  }

  lemma {:induction false} SortedThroughout(entries: seq<Entry>)
    requires SortedIds(entries)
    ensures forall i, j :: 0 <= i < j < |entries| ==> Before(Lower, entries[i].id, entries[j].id)
  {
    forall i, j | 0 <= i < j < |entries| ensures Before(Lower, entries[i].id, entries[j].id) { SortedBetween(entries, i, j); }
  }

  lemma {:induction false} SortedBetween(entries: seq<Entry>, i: nat, j: nat)
    requires SortedIds(entries) && i < j < |entries|
    ensures Before(Lower, entries[i].id, entries[j].id)
    decreases j
  {
    if i < j - 1 {
      SortedBetween(entries, i, j - 1);
      BeforeTransitive(Lower, entries[i].id, entries[j - 1].id, entries[j].id);
    }
  }

  lemma {:induction false} AscendingIsDistinct(entries: seq<Entry>)
    requires forall i, j :: 0 <= i < j < |entries| ==> Before(Lower, entries[i].id, entries[j].id)
    ensures SortedIds(entries) && DistinctIds(entries)
  {
    forall i, j | 0 <= i < j < |entries| ensures entries[i].id != entries[j].id {
      BeforeTotal(Lower, entries[i].id, entries[j].id);
    }
  }

  // ----- an accepted transition is quiet, an admission, or a link -----------------

  /** A flag that is new sits in a changed runtime source. */
  lemma {:induction false} NewFlagIsAChange(env: Env, base: Files, files: Files, f: Flag) returns (p: Path)
    requires f in Flags(env, files) - Flags(env, base)
    ensures p.Runtime? && p in Changed(base, files)
  {
    p :| p in files && p.Runtime? && f in env.flagsIn(files[p]);
  }

  lemma {:induction false} AdmissionAddsNoFlag(env: Env, base: Files, files: Files, e: Entry)
    requires EntryOk(env, files, e) && Changed(base, files) == Admission(e)
    ensures Flags(env, files) - Flags(env, base) == {}
  {
    var flags := Flags(env, files) - Flags(env, base);
    if flags != {} {
      var f :| f in flags;
      var p := NewFlagIsAChange(env, base, files, f);
      assert false;
    }
  }

  /** No accepted transition both admits and links. */
  lemma {:induction false} NoAdmissionWithLink(env: Env, base: Files, files: Files, a: Table, b: Table)
    requires TableOk(env, files, b) && Step(env, base, files, a, b)
    ensures NewlyLinked(a, b) == {} || b.Keys == a.Keys
  {
    if y :| y in b.Keys - a.Keys {
      AdmissionAddsNoFlag(env, base, files, b[y]);
      if x :| x in NewlyLinked(a, b) { assert false; }
    }
  }

  /** The flag is spelled in a runtime source. */
  ghost predicate Occurs(env: Env, files: Files, f: Flag) {
    exists p :: p in files && p.Runtime? && f in env.flagsIn(files[p])
  }

  /** Every entry of `a` is in `b` with the same fields; its proposal, plan and
      benchmark contract, and its link if it had one, exist before and after with
      the same bytes. */
  ghost predicate Frozen(base: Files, files: Files, a: Table, b: Table) {
    forall id :: id in a ==>
      && id in b && b[id].id == a[id].id && b[id].status == a[id].status
      && b[id].track == a[id].track && b[id].semanticClass == a[id].semanticClass
      && b[id].proposal == a[id].proposal == Artifact(Proposal, id)
      && b[id].plan == a[id].plan == Artifact(Plan, id)
      && b[id].contract == a[id].contract == Artifact(Contract, id)
      && Artifact(Proposal, id) in base && Artifact(Proposal, id) in files
      && base[Artifact(Proposal, id)] == files[Artifact(Proposal, id)]
      && Artifact(Plan, id) in base && Artifact(Plan, id) in files
      && base[Artifact(Plan, id)] == files[Artifact(Plan, id)]
      && Artifact(Contract, id) in base && Artifact(Contract, id) in files
      && base[Artifact(Contract, id)] == files[Artifact(Contract, id)]
      && (a[id].link.Some? ==>
            && b[id].link == a[id].link == Some(Artifact(Implementation, id))
            && Artifact(Implementation, id) in base && Artifact(Implementation, id) in files
            && base[Artifact(Implementation, id)] == files[Artifact(Implementation, id)])
  }

  /** The same table, no new flag and the same registered bytes. */
  ghost predicate Quiet(env: Env, base: Files, files: Files, a: Table, b: Table) {
    b == a && (forall f :: Occurs(env, files, f) ==> Occurs(env, base, f)) && Frozen(base, files, a, b)
  }

  /** The files that differ are the registry and the three artifacts of `id`. */
  ghost predicate OnlyAdmitted(base: Files, files: Files, id: Id) {
    forall p: Path ::
      ((p in base <==> p in files) && (p in base && p in files ==> base[p] == files[p])) <==>
      !(p == Registry || p == Artifact(Proposal, id) || p == Artifact(Plan, id) || p == Artifact(Contract, id))
  }

  /** One new entry, not linked, and no other file touched. */
  ghost predicate Admits(base: Files, files: Files, a: Table, b: Table, e: Entry) {
    e.id !in a && b == a[e.id := e] && e.link.None? && OnlyAdmitted(base, files, e.id)
  }

  /** One existing entry gets its link and its approved flag; nothing registered
      changes. */
  ghost predicate Links(env: Env, base: Files, files: Files, a: Table, b: Table, id: Id, link: Path) {
    && id in a && a[id].link.None? && b == a[id := a[id].(link := Some(link))]
    && Frozen(base, files, a, b)
    && forall f :: (Occurs(env, files, f) && !Occurs(env, base, f)) <==> env.approved(files[Artifact(Proposal, id)]) == Some(f)
  }

  lemma {:induction false} KeptIffFrozen(env: Env, base: Files, files: Files, a: Table, b: Table)
    requires TableOk(env, files, b)
    ensures EntriesKept(base, files, a, b) <==> Frozen(base, files, a, b)
  {
    if EntriesKept(base, files, a, b) {
      assert forall id :: id in a ==> id in b && EntryKept(base, files, a[id], b[id]) && EntryOk(env, files, b[id]);
    } else if Frozen(base, files, a, b) {
      forall id | id in a ensures id in b && EntryKept(base, files, a[id], b[id]) {
        assert EntryOk(env, files, b[id]);
        assert SameButLink(a[id], b[id]);
      }
    }
  }

  lemma {:induction false} OccursIffFlag(env: Env, files: Files)
    ensures forall f :: f in Flags(env, files) <==> Occurs(env, files, f)
  {
  }

  lemma {:induction false} ChangedIffAdmitted(env: Env, base: Files, files: Files, e: Entry)
    requires EntryOk(env, files, e)
    ensures Changed(base, files) == Admission(e) <==> OnlyAdmitted(base, files, e.id)
  {
    assert Admission(e) == {Registry, Artifact(Proposal, e.id), Artifact(Plan, e.id), Artifact(Contract, e.id)};
    if Changed(base, files) == Admission(e) {
      forall p: Path
        ensures ((p in base <==> p in files) && (p in base && p in files ==> base[p] == files[p])) <==> p !in Admission(e)
      {
        assert p in Changed(base, files) <==> p in Admission(e);
      }
    } else if OnlyAdmitted(base, files, e.id) {
      forall p: Path ensures p in Changed(base, files) <==> p in Admission(e) {}
    }
  }

  lemma {:induction false} AtMostOne<T>(s: set<T>, x: T, y: T)
    requires |s| <= 1 && x in s && y in s
    ensures x == y
  {
    assert y !in s - {x} || |s - {x}| > 0;
  }

  /** An entry that is not newly linked keeps even its link. */
  lemma {:induction false} KeptWhole(base: Files, files: Files, a: Table, b: Table, id: Id)
    requires EntriesKept(base, files, a, b) && id in a && id !in NewlyLinked(a, b)
    ensures b[id] == a[id]
  {
  }

  ghost predicate SomeAdmission(base: Files, files: Files, a: Table, b: Table) {
    exists e :: Admits(base, files, a, b, e)
  }

  ghost predicate SomeLink(env: Env, base: Files, files: Files, a: Table, b: Table) {
    exists id, link :: Links(env, base, files, a, b, id, link)
  }

  lemma {:induction false} StepIsOneOfThree(env: Env, base: Files, files: Files, a: Table, b: Table)
    requires TableOk(env, files, b) && Step(env, base, files, a, b)
    ensures Quiet(env, base, files, a, b) || SomeAdmission(base, files, a, b) || SomeLink(env, base, files, a, b)
  {
    NoAdmissionWithLink(env, base, files, a, b);
    KeptIffFrozen(env, base, files, a, b);
    forall id | id in a && id !in NewlyLinked(a, b) ensures b[id] == a[id] { KeptWhole(base, files, a, b, id); }
    if y :| y in b.Keys - a.Keys {
      OneAdded(env, base, files, a, b, y);
    } else if x :| x in NewlyLinked(a, b) {
      OneLinked(env, base, files, a, b, x);
    } else {
      NothingNew(env, base, files, a, b);
    }
  }

  lemma {:induction false} NothingNew(env: Env, base: Files, files: Files, a: Table, b: Table)
    requires Frozen(base, files, a, b) && b.Keys - a.Keys == {} && forall id :: id in a ==> b[id] == a[id]
    requires Flags(env, files) - Flags(env, base) == {}
    ensures Quiet(env, base, files, a, b)
  {
    SameTables(a, b);
    OccursIffFlag(env, base);
    OccursIffFlag(env, files);
    forall f | Occurs(env, files, f) ensures Occurs(env, base, f) {
      assert f !in Flags(env, files) - Flags(env, base);
    }
  }

  lemma {:induction false} SameTables(a: Table, b: Table)
    requires b.Keys - a.Keys == {} && forall id :: id in a ==> id in b && b[id] == a[id]
    ensures b == a
  {
    forall id | id in b ensures id in a {
      assert id !in b.Keys - a.Keys;
    }
  }

  lemma {:induction false} OneMore(a: Table, b: Table, y: Id)
    requires y in b && y !in a && |b.Keys - a.Keys| <= 1 && forall id :: id in a ==> id in b && b[id] == a[id]
    ensures b == a[y := b[y]]
  {
    forall id | id in b ensures id in a || id == y {
      if id !in a { AtMostOne(b.Keys - a.Keys, id, y); }
    }
  }

  lemma {:induction false} OneAdded(env: Env, base: Files, files: Files, a: Table, b: Table, y: Id)
    requires y in b && y !in a && |b.Keys - a.Keys| <= 1 && b[y].id == y && b[y].link.None? && EntryOk(env, files, b[y])
    requires Changed(base, files) == Admission(b[y]) && forall id :: id in a ==> id in b && b[id] == a[id]
    ensures SomeAdmission(base, files, a, b)
  {
    OneMore(a, b, y);
    ChangedIffAdmitted(env, base, files, b[y]);
    assert Admits(base, files, a, b, b[y]);
  }

  lemma {:induction false} FlagsIntroduced(env: Env, base: Files, files: Files, flag: Option<Flag>)
    ensures Flags(env, files) - Flags(env, base) == FlagSet(flag) <==>
            forall f :: (Occurs(env, files, f) && !Occurs(env, base, f)) <==> flag == Some(f)
  {
    OccursIffFlag(env, base);
    OccursIffFlag(env, files);
    var introduced := Flags(env, files) - Flags(env, base);
    assert forall f :: f in introduced <==> Occurs(env, files, f) && !Occurs(env, base, f);
    assert forall f :: f in FlagSet(flag) <==> flag == Some(f);
    if introduced == FlagSet(flag) {
      forall f ensures (Occurs(env, files, f) && !Occurs(env, base, f)) <==> flag == Some(f) {
        assert f in introduced <==> f in FlagSet(flag);
      }
    } else if forall f :: (Occurs(env, files, f) && !Occurs(env, base, f)) <==> flag == Some(f) {
      forall f ensures f in introduced <==> f in FlagSet(flag) {
        assert (Occurs(env, files, f) && !Occurs(env, base, f)) <==> flag == Some(f);
      }
    }
  }

  lemma {:induction false} OneLinked(env: Env, base: Files, files: Files, a: Table, b: Table, x: Id)
    requires x in NewlyLinked(a, b) && |NewlyLinked(a, b)| <= 1 && b.Keys == a.Keys
    requires Frozen(base, files, a, b)
    requires forall id :: id in a && id !in NewlyLinked(a, b) ==> b[id] == a[id]
    requires Flags(env, files) - Flags(env, base) == FlagSet(FlagOf(env, files, b[x]))
    ensures SomeLink(env, base, files, a, b)
  {
    forall id | id in a && id != x ensures b[id] == a[id] {
      if id in NewlyLinked(a, b) { AtMostOne(NewlyLinked(a, b), id, x); }
    }
    assert SameButLink(a[x], b[x]);
    assert b == a[x := a[x].(link := Some(b[x].link.value))];
    FlagsIntroduced(env, base, files, FlagOf(env, files, b[x]));
    assert Links(env, base, files, a, b, x, b[x].link.value);
  }

  lemma {:induction false} QuietSteps(env: Env, base: Files, files: Files, a: Table, b: Table)
    requires TableOk(env, files, b) && Quiet(env, base, files, a, b)
    ensures Step(env, base, files, a, b)
  {
    KeptIffFrozen(env, base, files, a, b);
    OccursIffFlag(env, base);
    OccursIffFlag(env, files);
  }

  lemma {:induction false} Untouched(base: Files, files: Files, e: Entry, p: Path)
    requires Changed(base, files) == Admission(e) && p in base && p !in Admission(e)
    ensures Unchanged(base, files, p)
  {
  }

  lemma {:induction false} AdmissionKeepsOthers(env: Env, base: Files, files: Files, x: Entry, e: Entry)
    requires EntryOk(env, base, x) && EntryOk(env, files, e) && x.id != e.id && Changed(base, files) == Admission(e)
    ensures EntryKept(base, files, x, x)
  {
    Untouched(base, files, e, x.proposal);
    Untouched(base, files, e, x.plan);
    Untouched(base, files, e, x.contract);
    if x.link.Some? { Untouched(base, files, e, x.link.value); }
  }

  lemma {:induction false} AdmissionKeepsAll(env: Env, base: Files, files: Files, a: Table, b: Table, e: Entry)
    requires TableOk(env, base, a) && EntryOk(env, files, e) && Admits(base, files, a, b, e)
    ensures EntriesKept(base, files, a, b)
  {
    ChangedIffAdmitted(env, base, files, e);
    forall id | id in a ensures id in b && EntryKept(base, files, a[id], b[id]) {
      assert EntryOk(env, base, a[id]);
      AdmissionKeepsOthers(env, base, files, a[id], e);
    }
  }

  lemma {:induction false} OnlyThisKey(a: Table, b: Table, e: Entry)
    requires e.id !in a && b == a[e.id := e]
    ensures NewlyLinked(a, b) == {} && b.Keys - a.Keys == {e.id}
  {
  }

  lemma {:induction false} AdmissionSteps(env: Env, base: Files, files: Files, a: Table, b: Table, e: Entry)
    requires TableOk(env, base, a) && TableOk(env, files, b) && Admits(base, files, a, b, e)
    ensures Step(env, base, files, a, b)
  {
    assert b[e.id] == e;
    ChangedIffAdmitted(env, base, files, e);
    AdmissionAddsNoFlag(env, base, files, e);
    AdmissionKeepsAll(env, base, files, a, b, e);
    OnlyThisKey(a, b, e);
  }

  lemma {:induction false} LinkSteps(env: Env, base: Files, files: Files, a: Table, b: Table, id: Id, link: Path)
    requires TableOk(env, files, b) && Links(env, base, files, a, b, id, link)
    ensures Step(env, base, files, a, b)
  {
    KeptIffFrozen(env, base, files, a, b);
    FlagsIntroduced(env, base, files, FlagOf(env, files, a[id]));
    assert NewlyLinked(a, b) == {id} && b.Keys - a.Keys == {};
    assert FlagOf(env, files, b[id]) == FlagOf(env, files, a[id]);
  }

  /** Exactly three kinds of transition pass between two well-formed snapshots. */
  lemma {:induction false} TransitionKinds(env: Env, base: Files, files: Files)
    requires WellFormed(env, base) && WellFormed(env, files)
    ensures var a, b := TableIn(env, base), TableIn(env, files);
            Transition(env, base, files) <==>
            Quiet(env, base, files, a, b) || SomeAdmission(base, files, a, b) || SomeLink(env, base, files, a, b)
  {
    var a, b := TableIn(env, base), TableIn(env, files);
    TableIsOk(env, base);
    TableIsOk(env, files);
    if Transition(env, base, files) {
      StepIsOneOfThree(env, base, files, a, b);
    }
    if Quiet(env, base, files, a, b) { QuietSteps(env, base, files, a, b); }
    if e :| Admits(base, files, a, b, e) { AdmissionSteps(env, base, files, a, b, e); }
    if id, link :| Links(env, base, files, a, b, id, link) { LinkSteps(env, base, files, a, b, id, link); }
  }

  /** A first registry is empty; a base registry that cannot be read or names an
      identifier twice accepts nothing. */
  lemma {:induction false} TransitionFromOtherBases(env: Env, base: Files, files: Files)
    requires WellFormed(env, files)
    ensures Registry !in base ==> (Transition(env, base, files) <==> env.entries(files[Registry]) == Some([]))
    ensures Registry in base && Transition(env, base, files) ==>
            && env.entries(base[Registry]).Some?
            && var entries := env.entries(base[Registry]).value;
               forall i, j :: 0 <= i < j < |entries| ==> entries[i].id != entries[j].id
  {
    TableSize(RegistryOf(env, files).value);
  }

  // ----- whole histories ----------------------------------------------------------

  function LinkedIds(t: Table): set<Id> { set id | id in t && t[id].link.Some? }

  /** Entries plus links. */
  function Progress(t: Table): nat { |t.Keys| + |LinkedIds(t)| }

  lemma {:induction false} AdmissionGrows(a: Table, b: Table, e: Entry)
    requires e.id !in a && b == a[e.id := e] && e.link.None?
    ensures Progress(b) == Progress(a) + 1
  {
    assert b.Keys == a.Keys + {e.id} && LinkedIds(b) == LinkedIds(a);
  }

  lemma {:induction false} LinkGrows(a: Table, b: Table, id: Id, link: Path)
    requires id in a && a[id].link.None? && b == a[id := a[id].(link := Some(link))]
    ensures Progress(b) == Progress(a) + 1
  {
    assert b.Keys == a.Keys && LinkedIds(b) == LinkedIds(a) + {id};
  }

  lemma {:induction false} StepGrows(env: Env, base: Files, files: Files, a: Table, b: Table)
    requires TableOk(env, files, b) && Step(env, base, files, a, b)
    ensures Progress(a) <= Progress(b) <= Progress(a) + 1
  {
    StepIsOneOfThree(env, base, files, a, b);
    if Quiet(env, base, files, a, b) {
      assert b == a;
    } else if SomeAdmission(base, files, a, b) {
      var e :| Admits(base, files, a, b, e);
      AdmissionGrows(a, b, e);
    } else {
      var id, link :| Links(env, base, files, a, b, id, link);
      LinkGrows(a, b, id, link);
    }
  }

  /** Snapshots each accepted against the one before. */
  predicate Chain(env: Env, h: seq<Files>) {
    h != [] && WellFormed(env, h[0]) && forall i :: 0 < i < |h| ==> Accepts(env, h[i - 1], h[i])
  }

  lemma {:induction false} ChainEnd(env: Env, h: seq<Files>)
    requires Chain(env, h) && |h| > 1
    ensures var base, files := Last(DropLast(h)), Last(h);
            var a, b := TableIn(env, base), TableIn(env, files);
            && Chain(env, DropLast(h)) && DropLast(h)[0] == h[0]
            && TableOk(env, files, b) && Step(env, base, files, a, b)
  {
    assert Accepts(env, h[|h| - 2], h[|h| - 1]);
    TableIsOk(env, Last(h));
    var front := DropLast(h);
    forall i | 0 < i < |front| ensures Accepts(env, front[i - 1], front[i]) {
      assert Accepts(env, h[i - 1], h[i]);
    }
    HasRegistry(env, front);
  }

  lemma {:induction false} HasRegistry(env: Env, h: seq<Files>)
    requires Chain(env, h)
    ensures Registry in Last(h)
  {
    if |h| > 1 { assert Accepts(env, h[|h| - 2], h[|h| - 1]); }
  }

  lemma {:induction false} KeptTwice(x: Files, y: Files, z: Files, a: Table, b: Table, c: Table)
    requires EntriesKept(x, y, a, b) && EntriesKept(y, z, b, c)
    ensures EntriesKept(x, z, a, c)
  {
  }

  lemma {:induction false} KeptAtOnce(env: Env, files: Files)
    requires WellFormed(env, files)
    ensures EntriesKept(files, files, TableIn(env, files), TableIn(env, files))
  {
    TableIsOk(env, files);
    var t := TableIn(env, files);
    forall id | id in t ensures EntryKept(files, files, t[id], t[id]) {
      assert EntryOk(env, files, t[id]);
    }
  }

  lemma {:induction false} HistoryKeeps(env: Env, h: seq<Files>)
    requires Chain(env, h)
    ensures EntriesKept(h[0], Last(h), TableIn(env, h[0]), TableIn(env, Last(h)))
  {
    if |h| == 1 {
      KeptAtOnce(env, h[0]);
    } else {
      ChainEnd(env, h);
      HistoryKeeps(env, DropLast(h));
      var mid := Last(DropLast(h));
      KeptTwice(h[0], mid, Last(h), TableIn(env, h[0]), TableIn(env, mid), TableIn(env, Last(h)));
    }
  }

  /** Along every accepted history no entry is removed, its fields and artifact
      bytes stay equal, and a link once set stays with its bytes. */
  lemma {:induction false} HistoryKeepsEntries(env: Env, h: seq<Files>)
    requires Chain(env, h)
    ensures Frozen(h[0], Last(h), TableIn(env, h[0]), TableIn(env, Last(h)))
  {
    HistoryKeeps(env, h);
    ChainIsWellFormed(env, h);
    TableIsOk(env, Last(h));
    KeptIffFrozen(env, h[0], Last(h), TableIn(env, h[0]), TableIn(env, Last(h)));
  }

  lemma {:induction false} ChainIsWellFormed(env: Env, h: seq<Files>)
    requires Chain(env, h)
    ensures WellFormed(env, Last(h))
  {
    if |h| > 1 { assert Accepts(env, h[|h| - 2], h[|h| - 1]); }
  }

  /** Entries plus links never shrink and grow by at most one per transition. */
  lemma {:induction false} HistoryGrowsByOne(env: Env, h: seq<Files>)
    requires Chain(env, h)
    ensures Progress(TableIn(env, h[0])) <= Progress(TableIn(env, Last(h)))
    ensures Progress(TableIn(env, Last(h))) <= Progress(TableIn(env, h[0])) + |h| - 1
  {
    if |h| > 1 {
      ChainEnd(env, h);
      HistoryGrowsByOne(env, DropLast(h));
      var mid := Last(DropLast(h));
      StepGrows(env, mid, Last(h), TableIn(env, mid), TableIn(env, Last(h)));
    }
  }

  /** `f` is the approved flag of a linked extension. */
  ghost predicate LinkedFlag(env: Env, files: Files, t: Table, f: Flag) {
    exists id :: id in t && t[id].link.Some? && Artifact(Proposal, id) in files
                 && env.approved(files[Artifact(Proposal, id)]) == Some(f)
  }

  lemma {:induction false} LinkedFlagStays(env: Env, base: Files, files: Files, a: Table, b: Table, f: Flag)
    requires TableOk(env, files, b) && EntriesKept(base, files, a, b) && LinkedFlag(env, base, a, f)
    ensures LinkedFlag(env, files, b, f)
  {
    KeptIffFrozen(env, base, files, a, b);
  }

  lemma {:induction false} NewFlagIsLinked(env: Env, base: Files, files: Files, a: Table, b: Table, f: Flag)
    requires Step(env, base, files, a, b) && Occurs(env, files, f) && !Occurs(env, base, f)
    ensures exists id :: id in NewlyLinked(a, b) && FlagOf(env, files, b[id]) == Some(f)
  {
    var flags := Flags(env, files) - Flags(env, base);
    assert f in flags;
    var id :| id in NewlyLinked(a, b);
    assert f in FlagSet(FlagOf(env, files, b[id]));
  }

  /** Every flag in the current sources was in the first sources, or is the
      approved flag of a linked extension. */
  lemma {:induction false} FlagsAreApproved(env: Env, h: seq<Files>, f: Flag)
    requires Chain(env, h) && Occurs(env, Last(h), f) && !Occurs(env, h[0], f)
    ensures LinkedFlag(env, Last(h), TableIn(env, Last(h)), f)
  {
    ChainEnd(env, h);
    var mid, end := Last(DropLast(h)), Last(h);
    var a, b := TableIn(env, mid), TableIn(env, end);
    if Occurs(env, mid, f) {
      FlagsAreApproved(env, DropLast(h), f);
      LinkedFlagStays(env, mid, end, a, b, f);
    } else {
      NewFlagIsLinked(env, mid, end, a, b, f);
    }
  }

  lemma {:induction false} LostFlagStep(env: Env, base: Files, files: Files, a: Table, b: Table, f: Flag)
    requires TableOk(env, files, b) && Step(env, base, files, a, b)
    requires LinkedFlag(env, base, a, f) && !Occurs(env, base, f)
    ensures !Occurs(env, files, f)
  {
    KeptIffFrozen(env, base, files, a, b);
    var id :| id in a && a[id].link.Some? && Artifact(Proposal, id) in base
              && env.approved(base[Artifact(Proposal, id)]) == Some(f);
    assert FlagOf(env, files, b[id]) == Some(f) && id !in NewlyLinked(a, b);
    if Occurs(env, files, f) { NewFlagIsLinked(env, base, files, a, b, f); }
  }

  /** A linked extension's flag that has left the sources never comes back. */
  lemma {:induction false} LostFlagNeverReturns(env: Env, h: seq<Files>, f: Flag)
    requires Chain(env, h) && LinkedFlag(env, h[0], TableIn(env, h[0]), f) && !Occurs(env, h[0], f)
    ensures !Occurs(env, Last(h), f) && LinkedFlag(env, Last(h), TableIn(env, Last(h)), f)
  {
    if |h| > 1 {
      ChainEnd(env, h);
      LostFlagNeverReturns(env, DropLast(h), f);
      var mid := Last(DropLast(h));
      LostFlagStep(env, mid, Last(h), TableIn(env, mid), TableIn(env, Last(h)), f);
      LinkedFlagStays(env, mid, Last(h), TableIn(env, mid), TableIn(env, Last(h)), f);
    }
  }

  // ----- the gate itself ------------------------------------------------------------

  function Ids(entries: seq<Entry>): set<Id> {
    set i | 0 <= i < |entries| :: entries[i].id
  }

  /** All paths one entry registers. */
  function PathsOf(e: Entry): set<Path> {
    Registered(Proposal, e) + Registered(Plan, e) + Registered(Contract, e) + Registered(Implementation, e)
  }

  lemma {:induction false} PathsNameTheirEntry(env: Env, files: Files, e: Entry)
    requires EntryOk(env, files, e)
    ensures forall p :: p in PathsOf(e) ==> p.Artifact? && p.id == e.id
  {
  }

  lemma {:induction false} DistinctSnoc(entries: seq<Entry>, e: Entry)
    ensures DistinctIds(entries + [e]) <==> DistinctIds(entries) && e.id !in Ids(entries)
  {
    var all := entries + [e];
    if DistinctIds(all) {
      forall i, j | 0 <= i < j < |entries| ensures entries[i].id != entries[j].id {
        assert all[i].id != all[j].id;
      }
      forall i | 0 <= i < |entries| ensures entries[i].id != e.id { assert all[i].id != all[|entries|].id; }
    }
  }

  lemma {:induction false} IdsSnoc(entries: seq<Entry>, e: Entry)
    ensures Ids(entries + [e]) == Ids(entries) + {e.id}
  {
    var all := entries + [e];
    forall id | id in Ids(entries) + {e.id} ensures id in Ids(all) {
      if id in Ids(entries) {
        var i :| 0 <= i < |entries| && entries[i].id == id;
        assert all[i].id == id;
      } else {
        assert all[|entries|].id == id;
      }
    }
  }

  lemma {:induction false} PrefixDistinct(entries: seq<Entry>, i: nat)
    requires i <= |entries| && DistinctIds(entries)
    ensures DistinctIds(entries[..i])
  {
  }

  /** The first pass over the entries. Identifiers alone keep registered paths
      apart, so its duplicate-path check never fires. */
  method CheckEntries(env: Env, files: Files, entries: seq<Entry>) returns (ok: bool)
    ensures ok <==> EntriesOk(env, files, entries) && DistinctIds(entries)
  {
    var ids: set<Id>, used: set<Path>, apart := {}, {}, true;
    for i := 0 to |entries|
      invariant EntriesOk(env, files, entries[..i]) && DistinctIds(entries[..i]) && ids == Ids(entries[..i]) && apart
      invariant forall p :: p in used ==> p.Artifact? && p.id in ids
    {
      var e := entries[i];
      assert entries[..i + 1] == entries[..i] + [e];
      DistinctSnoc(entries[..i], e);
      IdsSnoc(entries[..i], e);
      if e.id in ids {
        if DistinctIds(entries) { PrefixDistinct(entries, i + 1); }
        return false;
      }
      if !EntryOk(env, files, e) { return false; }
      PathsNameTheirEntry(env, files, e);
      apart := apart && PathsOf(e) !! used;
      ids, used := ids + {e.id}, used + PathsOf(e);
    }
    assert entries[..|entries|] == entries;
    return apart;
  }

  function FlagsOf(env: Env, files: Files, entries: seq<Entry>): set<Option<Flag>> {
    set i | 0 <= i < |entries| :: FlagOf(env, files, entries[i])
  }

  lemma {:induction false} FlagsSnoc(env: Env, files: Files, entries: seq<Entry>, e: Entry)
    ensures FlagsOf(env, files, entries + [e]) == FlagsOf(env, files, entries) + {FlagOf(env, files, e)}
    ensures DistinctFlags(env, files, entries + [e]) <==>
            DistinctFlags(env, files, entries) && FlagOf(env, files, e) !in FlagsOf(env, files, entries)
  {
    var all := entries + [e];
    forall f | f in FlagsOf(env, files, entries) + {FlagOf(env, files, e)} ensures f in FlagsOf(env, files, all) {
      if f in FlagsOf(env, files, entries) {
        var i :| 0 <= i < |entries| && FlagOf(env, files, entries[i]) == f;
        assert all[i] == entries[i];
      } else {
        assert all[|entries|] == e;
      }
    }
    if DistinctFlags(env, files, all) {
      forall i, j | 0 <= i < j < |entries|
        ensures FlagOf(env, files, entries[i]) != FlagOf(env, files, entries[j])
      {
        assert FlagOf(env, files, all[i]) != FlagOf(env, files, all[j]);
      }
      forall i | 0 <= i < |entries| ensures FlagOf(env, files, entries[i]) != FlagOf(env, files, e) {
        assert FlagOf(env, files, all[i]) != FlagOf(env, files, all[|entries|]);
      }
    }
  }

  lemma {:induction false} PrefixFlags(env: Env, files: Files, entries: seq<Entry>, i: nat)
    requires i <= |entries| && DistinctFlags(env, files, entries)
    ensures DistinctFlags(env, files, entries[..i])
  {
  }

  /** The second pass: proposals, contracts and links, and no flag twice. */
  method CheckArtifacts(env: Env, files: Files, entries: seq<Entry>) returns (ok: bool)
    ensures ok <==> ArtifactsOk(env, files, entries) && DistinctFlags(env, files, entries)
  {
    var flags: set<Option<Flag>> := {};
    for i := 0 to |entries|
      invariant ArtifactsOk(env, files, entries[..i]) && DistinctFlags(env, files, entries[..i])
      invariant flags == FlagsOf(env, files, entries[..i])
    {
      var e := entries[i];
      assert entries[..i + 1] == entries[..i] + [e];
      FlagsSnoc(env, files, entries[..i], e);
      var f := FlagOf(env, files, e);
      if f in flags {
        if DistinctFlags(env, files, entries) { PrefixFlags(env, files, entries, i + 1); }
        return false;
      }
      if f.None? || !env.artifactsOk(files, e) { return false; }
      flags := flags + {f};
    }
    assert entries[..|entries|] == entries;
    return true;
  }

  /** `validate_repository`: the number of approved extensions, or rejection. */
  method ValidateRepository(env: Env, files: Files, base: Option<Files>) returns (r: Option<nat>)
    ensures var accepted := WellFormed(env, files) && (base.Some? ==> Transition(env, base.value, files));
            r == if accepted then Some(|TableIn(env, files)|) else None
  {
    var registry := RegistryOf(env, files);
    if registry.None? { return None; }
    var entries := registry.value;
    var ok := CheckEntries(env, files, entries);
    if !ok || !SortedIds(entries) || !Complete(files, entries) { return None; }
    ok := CheckArtifacts(env, files, entries);
    if !ok || (base.Some? && !Transition(env, base.value, files)) { return None; }
    TableSize(entries);
    return Some(|entries|);
  }
}
