/** The builder and the inspector agree, enumeration order is invisible, and manifests bind files. */
module AiPkgTheorems {
  import opened Wrappers
  import opened Utf8
  import opened Json
  import opened Names
  import opened AiPkg

  // ---- values json.loads can return ----

  function Keys(ms: seq<Member>): (ks: seq<string>)
    ensures |ks| == |ms| && forall i :: 0 <= i < |ks| ==> ks[i] == ms[i].key
  {
    seq(|ms|, i requires 0 <= i < |ms| => ms[i].key)
  }

  /** Every object's members are in key order, without repeats. */
  predicate WellFormed(v: Value)
    decreases v
  {
    match v
    case Arr(vs) => forall i :: 0 <= i < |vs| ==> WellFormed(vs[i])
    case Obj(ms) => Ascending(Keys(ms)) && forall i :: 0 <= i < |ms| ==> WellFormed(ms[i].value)
    case _ => true
  }

  /** The reader undoes the canonical writer, and digests are 64 lowercase hex digits. */
  ghost predicate Faithful(rt: Runtime) {
    && (forall v :: WellFormed(v) ==> rt.loads(Canonical(v)) == Some(v))
    && forall bs :: IsDigest(rt.sha(bs))
  }

  lemma CanonicalInjective(a: Value, b: Value)
    requires Canonical(a) == Canonical(b)
    ensures a == b
  {
    EncodeInjective(Print(a) + "\n", Print(b) + "\n");
    PrintPrefix(a, "\n", b, "\n");
  }

  ghost function Reader(bs: seq<Byte>): Option<Value> {
    if exists v :: Canonical(v) == bs then
      var v :| Canonical(v) == bs;
      Some(v)
    else None
  }

  /** A faithful runtime exists, because the canonical bytes determine the value. */
  lemma FaithfulRuntimeExists(isDigit: char -> bool)
    ensures exists rt :: Faithful(rt) && rt.isDigit == isDigit
  {
    hide Canonical, WellFormed;
    var zeros := seq(64, _ => '0');
    var rt := Runtime(Reader, (_: seq<Byte>) => zeros, isDigit);
    forall v | WellFormed(v) ensures rt.loads(Canonical(v)) == Some(v) {
      var w :| Canonical(w) == Canonical(v) && Reader(Canonical(v)) == Some(w);
      CanonicalInjective(v, w);
    }
    assert Faithful(rt);
  }

  // ---- what the walk collects ----

  ghost predicate ProperEntries(entries: seq<Entry>) {
    forall e :: e in entries ==> ProperPath(Below(e))
  }

  /** A directory holds one thing under one path. */
  ghost predicate OnePerPath(entries: seq<Entry>) {
    forall e, f :: e in entries && f in entries && Below(e) == Below(f) ==> e == f
  }

  lemma RelativeInjective(e: Entry, f: Entry)
    requires ProperPath(Below(e)) && ProperPath(Below(f)) && Relative(e) == Relative(f)
    ensures Below(e) == Below(f)
  {
    ComponentsOfJoin(Below(e));
    ComponentsOfJoin(Below(f));
  }

  lemma {:induction false} CollectedFrom(root: seq<string>, entries: seq<Entry>, name: string)
    requires name in Files(root, entries)
    ensures exists e :: e in entries && Kept(root, e) && Relative(e) == name && e.data == Files(root, entries)[name]
  {
    hide Kept, Relative;
    var last := entries[|entries| - 1];
    if Kept(root, last) && Relative(last) == name {
      assert last in entries;
    } else {
      CollectedFrom(root, entries[..|entries| - 1], name);
    }
  }

  lemma {:induction false} KeptIsCollected(root: seq<string>, entries: seq<Entry>, e: Entry)
    requires e in entries && Kept(root, e)
    ensures Relative(e) in Files(root, entries)
  {
    hide Kept, Relative;
    if e != entries[|entries| - 1] {
      KeptIsCollected(root, entries[..|entries| - 1], e);
    }
  }

  /** The dictionary holds exactly the kept entries' bytes under their relative paths. */
  lemma FilesExact(root: seq<string>, entries: seq<Entry>, name: string, data: seq<Byte>)
    requires ProperEntries(entries) && OnePerPath(entries)
    ensures (name in Files(root, entries) && Files(root, entries)[name] == data)
       <==> exists e :: e in entries && Kept(root, e) && Relative(e) == name && e.data == data
  {
    hide Kept, Relative, Below, ProperPath;
    if name in Files(root, entries) {
      CollectedFrom(root, entries, name);
      forall e | e in entries && Kept(root, e) && Relative(e) == name
        ensures e.data == Files(root, entries)[name]
      {
        var f :| f in entries && Kept(root, f) && Relative(f) == name && f.data == Files(root, entries)[name];
        RelativeInjective(e, f);
      }
    } else {
      forall e | e in entries && Kept(root, e) ensures Relative(e) != name {
        KeptIsCollected(root, entries, e);
      }
    }
  }

  lemma SameFiles(root: seq<string>, one: seq<Entry>, other: seq<Entry>)
    requires ProperEntries(one) && OnePerPath(one)
    requires forall e :: e in one <==> e in other
    ensures Files(root, one) == Files(root, other)
  {
    hide Kept, Relative, Below, ProperPath, Files;
    var m, n := Files(root, one), Files(root, other);
    forall name | name in m ensures name in n && n[name] == m[name] {
      FilesExact(root, one, name, m[name]);
      FilesExact(root, other, name, m[name]);
    }
    forall name | name in n ensures name in m {
      FilesExact(root, one, name, n[name]);
      FilesExact(root, other, name, n[name]);
    }
  }

  /** Neither the order in which a directory is walked nor repeats in the walk show in the package. */
  lemma EnumerationInvisible(rt: Runtime, isDir: bool, root: seq<string>, one: seq<Entry>, other: seq<Entry>, meta: Metadata)
    requires ProperEntries(one) && OnePerPath(one)
    requires forall e :: e in one <==> e in other
    ensures Built(rt, isDir, Files(root, one), meta) == Built(rt, isDir, Files(root, other), meta)
  {
    SameFiles(root, one, other);
  }

  // ---- the manifest that is built ----

  lemma {:induction false} FieldAt(ms: seq<Member>, i: nat)
    requires Ascending(Keys(ms)) && i < |ms|
    ensures Field(ms, ms[i].key) == Some(ms[i].value)
  {
    if i > 0 {
      assert Before(Keys(ms)[0], Keys(ms)[i]);
      BeforeIrreflexive(ms[0].key);
      assert Keys(ms[1..]) == Keys(ms)[1..];
      FieldAt(ms[1..], i - 1);
    }
  }

  lemma {:induction false} FieldFound(ms: seq<Member>, key: string)
    ensures Field(ms, key).Some? <==> key in Keys(ms)
  {
    if ms != [] {
      FieldFound(ms[1..], key);
      assert Keys(ms) == [ms[0].key] + Keys(ms[1..]);
    }
  }

  const MANIFEST_KEYS := ["capabilities", "description", "entrypoint", "files", "name", "package_id",
                          "permissions", "publisher", "schema_version", "type", "version"]

  lemma ManifestKeysAscend()
    ensures Ascending(MANIFEST_KEYS)
  {
    var ks := MANIFEST_KEYS;
    assert Before("capabilities", "description") && Before("description", "entrypoint") && Before("entrypoint", "files");
    assert Before("files", "name") && Before("name", "package_id") && Before("schema_version", "type") && Before("type", "version");
    assert "package_id"[1..] == "ackage_id" && "permissions"[1..] == "ermissions" && "publisher"[1..] == "ublisher";
    assert Before("package_id", "permissions") && Before("permissions", "publisher") && Before("publisher", "schema_version");
    AscendingFromNeighbours(ks);
  }

  ghost function Table(rt: Runtime, files: map<string, seq<Byte>>): seq<Member> {
    FileMembers(rt, Listing(files.Keys), files)
  }

  lemma ManifestKeys(rt: Runtime, files: map<string, seq<Byte>>, meta: Metadata)
    ensures ManifestFor(rt, files, meta).Obj? && Keys(ManifestFor(rt, files, meta).members) == MANIFEST_KEYS
  {
    hide Listing, FileMembers, Sorted, Default;
  }

  lemma ManifestShape(rt: Runtime, files: map<string, seq<Byte>>, meta: Metadata)
    ensures var m := ManifestFor(rt, files, meta);
      && m.Obj? && Keys(m.members) == MANIFEST_KEYS && Ascending(Keys(m.members))
      && m.members[0].value.Arr? && (forall v :: v in m.members[0].value.items ==> v.Str?)
      && m.members[1].value == Default(meta.description, Str(""))
      && m.members[2].value == Default(meta.entrypoint, Str("server.py"))
      && m.members[3].value == Obj(Table(rt, files))
      && m.members[4].value == Default(meta.name, Null)
      && m.members[5].value == Default(meta.packageId, Null)
      && m.members[6].value == Default(meta.permissions, DEFAULT_PERMISSIONS)
      && m.members[7].value == Default(meta.publisher, Obj([]))
      && m.members[8].value == Num(1) && m.members[9].value == Str("mcp")
      && m.members[10].value == Default(meta.version, Null)
  {
    hide Ascending, Listing, FileMembers, Sorted, Default;
    ManifestKeysAscend();
    ManifestKeys(rt, files, meta);
    hide Keys;
  }

  /** The fields the builder puts up for checking: the caller's metadata with the defaults. */
  ghost function Offered(rt: Runtime, files: map<string, seq<Byte>>, meta: Metadata): Fields {
    Fields(Num(1), Default(meta.packageId, Null), Default(meta.version, Null), Str("mcp"),
           Default(meta.entrypoint, Str("server.py")), Default(meta.publisher, Obj([])),
           Default(meta.permissions, DEFAULT_PERMISSIONS), Obj(Table(rt, files)))
  }

  lemma ManifestFields(rt: Runtime, files: map<string, seq<Byte>>, meta: Metadata)
    ensures var m := ManifestFor(rt, files, meta);
      m.Obj? && HasFields(m.members) && View(m.members) == Offered(rt, files, meta) && FileTable(m) == Table(rt, files)
  {
    ManifestShape(rt, files, meta);
    hide ManifestFor, Ascending, Table, Default, Field;
    var ms := ManifestFor(rt, files, meta).members;
    forall i: nat | i < |ms| ensures Field(ms, MANIFEST_KEYS[i]) == Some(ms[i].value) {
      FieldAt(ms, i);
    }
    assert MANIFEST_KEYS[2] == "entrypoint" && MANIFEST_KEYS[3] == "files" && MANIFEST_KEYS[4] == "name"
        && MANIFEST_KEYS[5] == "package_id" && MANIFEST_KEYS[6] == "permissions" && MANIFEST_KEYS[7] == "publisher"
        && MANIFEST_KEYS[8] == "schema_version" && MANIFEST_KEYS[9] == "type" && MANIFEST_KEYS[10] == "version";
  }

  lemma TableFacts(rt: Runtime, files: map<string, seq<Byte>>)
    ensures Keys(Table(rt, files)) == Listing(files.Keys)
    ensures forall m :: m in Table(rt, files) <==> m.key in files && m.value == Str(rt.sha(files[m.key]))
    ensures TableNames(Table(rt, files)) == files.Keys
    ensures Table(rt, files) == [] <==> files == map[]
  {
    hide Listing, Before;
    var names, table := Listing(files.Keys), Table(rt, files);
    assert Keys(table) == names;
    forall n | n in files ensures Member(n, Str(rt.sha(files[n]))) in table {
      var i :| 0 <= i < |names| && names[i] == n;
      assert table[i] == Member(n, Str(rt.sha(files[n])));
    }
    forall n | n in files ensures n in TableNames(table) {
      assert Member(n, Str(rt.sha(files[n]))) in table;
    }
    assert names != [] ==> names[0] in files.Keys;
    if names == [] {
      assert files.Keys == {};
    }
  }

  // ---- building succeeds exactly on sound metadata with the entrypoint among the files ----

  lemma CollectedPathsAreSafe(root: seq<string>, entries: seq<Entry>, name: string)
    requires ProperEntries(entries) && name in Files(root, entries)
    ensures name != "" && !UnsafePath(name) && IsFileName(name)
  {
    hide Suffix, UnsafePath, EndsWithSlash, ProperPath, Below, Join, Files;
    CollectedFrom(root, entries, name);
    var e :| e in entries && Kept(root, e) && Relative(e) == name && e.data == Files(root, entries)[name];
    ProperPathIsSafe(Below(e));
  }

  lemma TableProblem(rt: Runtime, root: seq<string>, entries: seq<Entry>, entrypoint: Value)
    requires Faithful(rt) && ProperEntries(entries) && entrypoint.Str?
    ensures FilesProblem(Obj(Table(rt, Files(root, entries))), entrypoint).None? <==> entrypoint.text in Files(root, entries)
  {
    hide Files, UnsafePath, IsDigest, Table, IsFileName;
    var files := Files(root, entries);
    TableFacts(rt, files);
    FieldFound(Table(rt, files), entrypoint.text);
    assert entrypoint.text in Keys(Table(rt, files)) <==> entrypoint.text in files;
    forall m | m in Table(rt, files) ensures GoodFileEntry(m) {
      CollectedPathsAreSafe(root, entries, m.key);
    }
  }

  ghost predicate EntrypointCollected(files: map<string, seq<Byte>>, meta: Metadata) {
    var e := Default(meta.entrypoint, Str("server.py"));
    e.Str? && e.text in files
  }

  /** Of the rules only the metadata's and the entrypoint's can refuse a build: the collected paths and digests never do. */
  lemma BuildSucceedsIff(rt: Runtime, root: seq<string>, entries: seq<Entry>, meta: Metadata)
    requires Faithful(rt) && ProperEntries(entries)
    ensures Built(rt, true, Files(root, entries), meta).0.Ok?
       <==> && HeaderProblem(rt, Offered(rt, Files(root, entries), meta)).None?
            && EntrypointCollected(Files(root, entries), meta)
  {
    var files := Files(root, entries);
    var fields := Offered(rt, files, meta);
    ManifestFields(rt, files, meta);
    HeaderNamesEntrypoint(rt, fields);
    hide HeaderProblem, FilesProblem, Files, ManifestFor, Table, Listing, Layout, Faithful, ProperEntries, HasFields;
    if fields.entrypoint.Str? {
      TableProblem(rt, root, entries, fields.entrypoint);
    }
  }

  lemma HeaderNamesEntrypoint(rt: Runtime, f: Fields)
    ensures HeaderProblem(rt, f).None? ==> f.entrypoint.Str?
  {
  }

  // ---- what is built is accepted ----

  ghost predicate Proper(o: Option<Value>) {
    o.Some? ==> WellFormed(o.value)
  }

  /** Metadata as Python can hold it: dictionaries have each key once. */
  ghost predicate ProperMeta(meta: Metadata) {
    && Proper(meta.packageId) && Proper(meta.name) && Proper(meta.version) && Proper(meta.description)
    && Proper(meta.entrypoint) && Proper(meta.publisher) && Proper(meta.permissions)
  }

  lemma TableWellFormed(rt: Runtime, files: map<string, seq<Byte>>)
    ensures WellFormed(Obj(Table(rt, files)))
  {
    hide Listing;
  }

  lemma ManifestWellFormed(rt: Runtime, files: map<string, seq<Byte>>, meta: Metadata)
    requires ProperMeta(meta)
    ensures WellFormed(ManifestFor(rt, files, meta))
  {
    ManifestShape(rt, files, meta);
    hide ManifestFor, Table, Ascending;
    var ms := ManifestFor(rt, files, meta).members;
    TableWellFormed(rt, files);
    DefaultsWellFormed();
    assert |ms| == |Keys(ms)| == 11;
    forall i | 0 <= i < |ms| ensures WellFormed(ms[i].value) {
      if i == 0 { TextsWellFormed(ms[0].value); }
    }
  }

  lemma TextsWellFormed(v: Value)
    requires v.Arr? && forall t :: t in v.items ==> t.Str?
    ensures WellFormed(v)
  {
  }

  lemma DefaultsWellFormed()
    ensures WellFormed(DEFAULT_PERMISSIONS) && WellFormed(Obj([])) && WellFormed(Str("")) && WellFormed(Null)
  {
  }

  lemma {:induction false} ReadDistinct(archive: seq<Archived>, i: nat)
    requires Distinct(NamesOf(archive)) && i < |archive|
    ensures ReadEntry(archive, archive[i].name) == Some(archive[i].data)
  {
    if i < |archive| - 1 {
      var front := archive[..|archive| - 1];
      assert NamesOf(front) == NamesOf(archive)[..|archive| - 1];
      assert NamesOf(archive)[i] != NamesOf(archive)[|archive| - 1];
      ReadDistinct(front, i);
    }
  }

  lemma ManifestNameIsSafe()
    ensures !UnsafePath("manifest.json")
  {
    ComponentsSplit("manifest.json", "");
  }

  lemma LayoutNames(files: map<string, seq<Byte>>, manifest: Value)
    requires forall n :: n in files ==> IsFileName(n) && !UnsafePath(n)
    ensures var archive := Layout(Listing(files.Keys), files, manifest);
      && NamesSafe(archive)
      && FileNames(archive) == files.Keys
      && ReadEntry(archive, "manifest.json") == Some(Canonical(manifest))
      && forall n :: n in files ==> ReadEntry(archive, n) == Some(files[n])
  {
    hide UnsafePath, EndsWithSlash, Canonical, Before, ReadEntry, Listing;
    var names := Listing(files.Keys);
    var archive := Layout(names, files, manifest);
    assert NamesOf(archive) == names + ["manifest.json"];
    forall i, j | 0 <= i < j < |names| ensures names[i] != names[j] {
      BeforeIrreflexive(names[i]);
      assert Before(names[i], names[j]);
    }
    ManifestNameIsSafe();
    ReadDistinct(archive, |names|);
    forall n | n in files ensures ReadEntry(archive, n) == Some(files[n]) {
      var i :| 0 <= i < |names| && names[i] == n;
      ReadDistinct(archive, i);
    }
    assert forall n :: n in files ==> n in names && n in NamesOf(archive);
  }

  /** What build_package writes, inspect_package accepts, giving back the manifest build_package returned. */
  lemma BuiltIsAccepted(rt: Runtime, root: seq<string>, entries: seq<Entry>, meta: Metadata)
    requires Faithful(rt) && ProperEntries(entries) && ProperMeta(meta)
    requires Built(rt, true, Files(root, entries), meta).0.Ok?
    ensures Inspected(rt, Built(rt, true, Files(root, entries), meta).1) == Built(rt, true, Files(root, entries), meta).0
  {
    hide UnsafePath, Files, ManifestFor, Table, Layout, Validate, FileTable, ReadEntry, FileNames, NamesSafe;
    var files := Files(root, entries);
    var manifest := ManifestFor(rt, files, meta);
    ManifestFields(rt, files, meta);
    ManifestWellFormed(rt, files, meta);
    TableFacts(rt, files);
    forall n | n in files ensures IsFileName(n) && !UnsafePath(n) {
      CollectedPathsAreSafe(root, entries, n);
    }
    LayoutNames(files, manifest);
  }

  // ---- manifests bind files ----

  function Read(archive: seq<Archived>, name: string): seq<Byte> {
    var data := ReadEntry(archive, name);
    if data.Some? then data.value else []
  }

  /** The archive's files: everything but the manifest and names that end in a slash. */
  ghost function Contents(archive: seq<Archived>): map<string, seq<Byte>> {
    map n | n in FileNames(archive) :: Read(archive, n)
  }

  /** The digest tells apart any two files of the two archives. */
  ghost predicate NoCollision(rt: Runtime, a: seq<Archived>, b: seq<Archived>) {
    forall m, n :: m in FileNames(a) && n in FileNames(b) && rt.sha(Read(a, m)) == rt.sha(Read(b, n)) ==>
      Read(a, m) == Read(b, n)
  }

  /** An accepted archive's table is exactly its files with their digests. */
  lemma TableIsContents(rt: Runtime, archive: seq<Archived>, m: Member)
    requires Inspected(rt, archive).Ok?
    ensures m in FileTable(Inspected(rt, archive).value)
       <==> m.key in Contents(archive) && m.value == Str(rt.sha(Contents(archive)[m.key]))
  {
    hide Validate, FileTable, ReadManifest, NamesSafe, ReadEntry, IsFileName;
    var table := FileTable(Inspected(rt, archive).value);
    if m in table {
      assert m.key in TableNames(table) && Matches(rt, archive, m);
    } else if m.key in FileNames(archive) {
      assert m.key in TableNames(table);
      var other :| other in table && other.key == m.key;
      assert Matches(rt, archive, other);
    }
  }

  /** Two accepted archives list the same files table exactly when they hold the same files. */
  lemma TableBindsFiles(rt: Runtime, a: seq<Archived>, b: seq<Archived>)
    requires Inspected(rt, a).Ok? && Inspected(rt, b).Ok? && NoCollision(rt, a, b)
    ensures (forall m :: m in FileTable(Inspected(rt, a).value) <==> m in FileTable(Inspected(rt, b).value))
       <==> Contents(a) == Contents(b)
  {
    hide Inspected, FileTable, FileNames, Read;
    var s, t := FileTable(Inspected(rt, a).value), FileTable(Inspected(rt, b).value);
    forall m ensures m in s <==> m.key in Contents(a) && m.value == Str(rt.sha(Contents(a)[m.key])) {
      TableIsContents(rt, a, m);
    }
    forall m ensures m in t <==> m.key in Contents(b) && m.value == Str(rt.sha(Contents(b)[m.key])) {
      TableIsContents(rt, b, m);
    }
    if forall m :: m in s <==> m in t {
      forall n | n in Contents(a) ensures n in Contents(b) && Contents(b)[n] == Contents(a)[n] {
        assert Member(n, Str(rt.sha(Contents(a)[n]))) in s;
        assert Member(n, Str(rt.sha(Contents(a)[n]))) in t;
      }
      forall n | n in Contents(b) ensures n in Contents(a) {
        assert Member(n, Str(rt.sha(Contents(b)[n]))) in t;
      }
    }
  }

  /** Equal manifests, identical files. */
  lemma ManifestBindsFiles(rt: Runtime, a: seq<Archived>, b: seq<Archived>)
    requires Inspected(rt, a).Ok? && Inspected(rt, a) == Inspected(rt, b) && NoCollision(rt, a, b)
    ensures Contents(a) == Contents(b)
  {
    TableBindsFiles(rt, a, b);
  }

  /** Names that end in a slash are outside the binding: any bytes may ride under them, the verdict is the same. */
  lemma FolderEntryUnseen(rt: Runtime, archive: seq<Archived>, extra: Archived)
    requires Inspected(rt, archive).Ok?
    requires EndsWithSlash(extra.name) && !UnsafePath(extra.name) && extra.name !in NamesOf(archive)
    ensures Inspected(rt, archive + [extra]) == Inspected(rt, archive)
  {
    hide Validate, FileTable, UnsafePath, Canonical;
    var longer := archive + [extra];
    assert NamesOf(longer) == NamesOf(archive) + [extra.name];
    assert longer[..|longer| - 1] == archive;
    assert !EndsWithSlash("manifest.json");
    assert FileNames(longer) == FileNames(archive);
    var table := FileTable(Inspected(rt, archive).value);
    forall m | m in table ensures Matches(rt, longer, m) {
      assert m.key in TableNames(table) && Matches(rt, archive, m);
    }
  }

  /** An accepted archive runs what it ships: its entrypoint is one of its files, every file stays below the
      installation directory, and only known permissions are asked for. */
  lemma AcceptedIsSound(rt: Runtime, archive: seq<Archived>)
    requires Inspected(rt, archive).Ok?
    ensures var m := Inspected(rt, archive).value;
      && m.Obj? && HasFields(m.members)
      && View(m.members).entrypoint.Str? && View(m.members).entrypoint.text in Contents(archive)
      && (forall n :: n in Contents(archive) ==> !UnsafePath(n))
      && View(m.members).permissions.Obj?
      && forall p :: p in View(m.members).permissions.members ==> p.key in PERMISSION_NAMES && p.value in PERMISSION_VALUES
  {
    hide UnsafePath, ReadManifest, ReadEntry, Read, IsFileName, Matches;
    var m := Inspected(rt, archive).value;
    AcceptedManifest(rt, m);
    hide Validate, Inspected;
    var table := FileTable(m);
    FieldFound(table, View(m.members).entrypoint.text);
    var i :| 0 <= i < |table| && table[i].key == View(m.members).entrypoint.text;
    TableIsContents(rt, archive, table[i]);
    forall n | n in Contents(archive) ensures !UnsafePath(n) {
      var member := Member(n, Str(rt.sha(Contents(archive)[n])));
      TableIsContents(rt, archive, member);
      assert member in table;
    }
  }

  /** What an accepted manifest promises: all fields, known permissions, relative paths with SHA-256 digests, and an
      entrypoint among them. */
  lemma AcceptedManifest(rt: Runtime, m: Value)
    requires Validate(rt, m).Ok?
    ensures m.Obj? && HasFields(m.members)
    ensures View(m.members).entrypoint.Str? && View(m.members).permissions.Obj?
    ensures forall p :: p in View(m.members).permissions.members ==> p.key in PERMISSION_NAMES && p.value in PERMISSION_VALUES
    ensures View(m.members).kind == Str("mcp")
    ensures forall f :: f in FileTable(m) ==> GoodFileEntry(f)
    ensures Field(FileTable(m), View(m.members).entrypoint.text).Some?
  {
    hide UnsafePath, IsDigest, IsPackageId, IsVersionRest, Truthy;
  }

  // ---- version numbers ----

  ghost predicate Digital(rt: Runtime, numbers: seq<string>) {
    forall i :: 0 <= i < |numbers| ==> AllDigits(rt, numbers[i])
  }

  predicate AllDigits(rt: Runtime, s: string) {
    s != "" && forall i :: 0 <= i < |s| ==> rt.isDigit(s[i])
  }

  /** The numbers with dots between them, then the tail. */
  function Spell(numbers: seq<string>, tail: string): string
    requires numbers != []
  {
    if |numbers| == 1 then numbers[0] + tail else numbers[0] + ("." + Spell(numbers[1..], tail))
  }

  ghost predicate Spells(rt: Runtime, s: string, more: nat, numbers: seq<string>, tail: string) {
    |numbers| == more + 1 && Digital(rt, numbers) && IsVersionTail(tail) && s == Spell(numbers, tail)
  }

  /** The run of digits in front ends where the digits end. */
  lemma {:induction false} RunOf(rt: Runtime, number: string, rest: string)
    requires forall i :: 0 <= i < |number| ==> rt.isDigit(number[i])
    requires rest == "" || !rt.isDigit(rest[0])
    ensures DigitRun(rt, number + rest) == |number|
    ensures (number + rest)[|number|..] == rest
  {
    if number == "" {
      assert number + rest == rest;
    } else {
      assert (number + rest)[1..] == number[1..] + rest;
      RunOf(rt, number[1..], rest);
    }
  }

  lemma {:induction false} RunIsDigits(rt: Runtime, s: string)
    ensures forall i :: 0 <= i < DigitRun(rt, s) ==> rt.isDigit(s[i])
  {
    if s != "" && rt.isDigit(s[0]) {
      RunIsDigits(rt, s[1..]);
      forall i | 0 <= i < DigitRun(rt, s) ensures rt.isDigit(s[i]) {
        assert i > 0 ==> s[i] == s[1..][i - 1];
      }
    }
  }

  lemma {:induction false} SpelledIsVersion(rt: Runtime, s: string, more: nat, numbers: seq<string>, tail: string)
    requires !rt.isDigit('.') && !rt.isDigit('-') && !rt.isDigit('+') && Spells(rt, s, more, numbers, tail)
    ensures IsVersionRest(rt, s, more)
    decreases more
  {
    hide IsVersionTail;
    if more == 0 {
      assert tail == "" || tail[0] in "-+" by { TailStart(tail); }
      RunOf(rt, numbers[0], tail);
    } else {
      var rest := Spell(numbers[1..], tail);
      RunOf(rt, numbers[0], "." + rest);
      assert s[|numbers[0]|] == ("." + rest)[0];
      assert s[|numbers[0]| + 1..] == rest;
      SpelledIsVersion(rt, rest, more - 1, numbers[1..], tail);
    }
  }

  lemma TailStart(tail: string)
    requires IsVersionTail(tail)
    ensures tail == "" || tail[0] in "-+"
  {
  }

  lemma {:induction false} VersionIsSpelled(rt: Runtime, s: string, more: nat) returns (numbers: seq<string>, tail: string)
    requires IsVersionRest(rt, s, more)
    ensures Spells(rt, s, more, numbers, tail)
    decreases more
  {
    hide IsVersionTail;
    var n := DigitRun(rt, s);
    RunIsDigits(rt, s);
    if more == 0 {
      numbers, tail := [s[..n]], s[n..];
      assert s == s[..n] + s[n..];
    } else {
      var rest: seq<string>;
      rest, tail := VersionIsSpelled(rt, s[n + 1..], more - 1);
      numbers := [s[..n]] + rest;
      assert numbers[1..] == rest;
      assert s == s[..n] + ("." + s[n + 1..]);
    }
  }

  /** The left-to-right reading accepts exactly what the version pattern describes, backtracking or not. */
  lemma VersionExact(rt: Runtime, s: string)
    requires !rt.isDigit('.') && !rt.isDigit('-') && !rt.isDigit('+')
    ensures IsVersionRest(rt, s, 2) <==> exists numbers, tail :: Spells(rt, s, 2, numbers, tail)
  {
    hide Spells, IsVersionRest;
    if IsVersionRest(rt, s, 2) {
      var numbers, tail := VersionIsSpelled(rt, s, 2);
    }
    if numbers, tail :| Spells(rt, s, 2, numbers, tail) {
      SpelledIsVersion(rt, s, 2, numbers, tail);
    }
  }
}
