/** The .aipkg format: manifest rules, the builder, the inspector, and what the one promises the other. */
module AiPkg {
  import opened Wrappers
  import opened Utf8
  import opened Json
  import opened Names

  /** The library calls the format rests on: json.loads, the SHA-256 hex digest, and which characters are decimal digits. */
  datatype Runtime = Runtime(loads: seq<Byte> -> Option<Value>, sha: seq<Byte> -> string, isDigit: char -> bool)

  datatype PackageError =
    | NotAMapping | MissingFields | BadSchemaVersion | BadPackageId | BadVersion | BadType | BadEntrypoint
    | NoPublisherId | BadPermissionName | BadPermissionValue | NoFiles | BadFileEntry | EntrypointNotListed
    | NoSourceDirectory | UnsafeNames | NoManifest | FilesDiffer | HashMismatch

  function Canonical(v: Value): seq<Byte> {
    Encode(Print(v) + "\n")
  }

  // ---- the manifest rules ----

  function Field(ms: seq<Member>, key: string): Option<Value> {
    if ms == [] then None
    else if ms[0].key == key then Some(ms[0].value)
    else Field(ms[1..], key)
  }

  const REQUIRED: seq<string> := ["schema_version", "package_id", "name", "version", "type", "entrypoint",
                                  "publisher", "permissions", "files"]

  const PERMISSION_NAMES := {"network", "filesystem", "secrets"}
  const PERMISSION_VALUES := {Str("none"), Str("read-only"), Str("read-write")}

  predicate IsLowerOrDigit(c: char) { 'a' <= c <= 'z' || '0' <= c <= '9' }

  predicate IsPackageId(s: string) {
    && 3 <= |s| <= 64
    && IsLowerOrDigit(s[0])
    && forall i :: 1 <= i < |s| ==> IsLowerOrDigit(s[i]) || s[i] in "._-"
  }

  /** The length of the run of digits s starts with. */
  function DigitRun(rt: Runtime, s: string): (n: nat)
    ensures n <= |s|
  {
    if s == "" || !rt.isDigit(s[0]) then 0 else 1 + DigitRun(rt, s[1..])
  }

  predicate IsVersionTail(s: string) {
    s == "" || (|s| >= 2 && s[0] in "-+" && forall i :: 1 <= i < |s| ==>
      IsLowerOrDigit(s[i]) || 'A' <= s[i] <= 'Z' || s[i] in ".-")
  }

  /** more further numbers, a dot before each, then the tail. */
  predicate IsVersionRest(rt: Runtime, s: string, more: nat) {
    var n := DigitRun(rt, s);
    n > 0 && if more == 0 then IsVersionTail(s[n..]) else n < |s| && s[n] == '.' && IsVersionRest(rt, s[n + 1..], more - 1)
  }

  predicate Truthy(v: Value) {
    match v
    case Null => false
    case Bool(b) => b
    case Num(n) => n != 0
    case Str(s) => s != ""
    case Arr(vs) => vs != []
    case Obj(ms) => ms != []
  }

  /** The checked fields, in the manifest's terms. */
  datatype Fields = Fields(schema: Value, id: Value, version: Value, kind: Value, entrypoint: Value,
                           publisher: Value, permissions: Value, files: Value)

  predicate HasFields(ms: seq<Member>) {
    forall k :: k in REQUIRED ==> Field(ms, k).Some?
  }

  function View(ms: seq<Member>): Fields
    requires HasFields(ms)
  {
    assert REQUIRED == ["schema_version", "package_id", "name", "version", "type", "entrypoint",
                        "publisher", "permissions", "files"];
    assert REQUIRED[0] in REQUIRED && REQUIRED[1] in REQUIRED && REQUIRED[3] in REQUIRED && REQUIRED[4] in REQUIRED
        && REQUIRED[5] in REQUIRED && REQUIRED[6] in REQUIRED && REQUIRED[7] in REQUIRED && REQUIRED[8] in REQUIRED;
    Fields(Field(ms, "schema_version").value, Field(ms, "package_id").value, Field(ms, "version").value,
           Field(ms, "type").value, Field(ms, "entrypoint").value, Field(ms, "publisher").value,
           Field(ms, "permissions").value, Field(ms, "files").value)
  }

  /** The checks up to the permissions, the first that fails. True equals 1 in Python. */
  function HeaderProblem(rt: Runtime, f: Fields): Option<PackageError> {
    if f.schema != Num(1) && f.schema != Bool(true) then Some(BadSchemaVersion)
    else if !(f.id.Str? && IsPackageId(f.id.text)) then Some(BadPackageId)
    else if !(f.version.Str? && IsVersionRest(rt, f.version.text, 2)) then Some(BadVersion)
    else if f.kind != Str("mcp") then Some(BadType)
    else if !f.entrypoint.Str? || f.entrypoint.text == "" || f.entrypoint.text[0] == '/' then Some(BadEntrypoint)
    else if !f.publisher.Obj? || Field(f.publisher.members, "id").None?
         || !Truthy(Field(f.publisher.members, "id").value) then Some(NoPublisherId)
    else if !f.permissions.Obj?
         || exists m :: m in f.permissions.members && m.key !in PERMISSION_NAMES then Some(BadPermissionName)
    else if exists m :: m in f.permissions.members && m.value !in PERMISSION_VALUES then Some(BadPermissionValue)
    else None
  }

  predicate IsDigest(s: string) {
    |s| == 64 && forall i :: 0 <= i < |s| ==> '0' <= s[i] <= '9' || 'a' <= s[i] <= 'f'
  }

  predicate GoodFileEntry(m: Member) {
    !UnsafePath(m.key) && m.value.Str? && IsDigest(m.value.text)
  }

  function FilesProblem(files: Value, entrypoint: Value): Option<PackageError>
    requires entrypoint.Str?
  {
    if !files.Obj? || files.members == [] then Some(NoFiles)
    else if exists m :: m in files.members && !GoodFileEntry(m) then Some(BadFileEntry)
    else if Field(files.members, entrypoint.text).None? then Some(EntrypointNotListed)
    else None
  }

  function Validate(rt: Runtime, manifest: Value): (r: Result<Value, PackageError>)
    ensures r.Ok? ==> r.value == manifest
  {
    if !manifest.Obj? then Err(NotAMapping)
    else if !HasFields(manifest.members) then Err(MissingFields)
    else
      var f := View(manifest.members);
      var header := HeaderProblem(rt, f);
      if header.Some? then Err(header.value)
      else
        var problem := FilesProblem(f.files, f.entrypoint);
        if problem.Some? then Err(problem.value) else Ok(manifest)
  }

  // ---- the builder ----

  /** One path rglob finds: the folders below the source directory, the last component, what the disk says of it. */
  datatype Entry = Entry(folders: seq<string>, name: string, isFile: bool, isSymlink: bool, data: seq<Byte>)

  function Below(e: Entry): seq<string> {
    e.folders + [e.name]
  }

  function Relative(e: Entry): string {
    Join(Below(e))
  }

  predicate Kept(root: seq<string>, e: Entry) {
    && e.isFile
    && Relative(e) != "manifest.json"
    && !e.isSymlink
    && "__pycache__" !in root + Below(e)
    && Suffix(e.name) != ".pyc" && Suffix(e.name) != ".pyo"
  }

  /** The dictionary the walk fills. */
  function Files(root: seq<string>, entries: seq<Entry>): map<string, seq<Byte>> {
    if entries == [] then map[]
    else
      var e := entries[|entries| - 1];
      var before := Files(root, entries[..|entries| - 1]);
      if Kept(root, e) then before[Relative(e) := e.data] else before
  }

  /** The caller's metadata; None where a key is absent. */
  datatype Metadata = Metadata(
    packageId: Option<Value>, name: Option<Value>, version: Option<Value>, description: Option<Value>,
    entrypoint: Option<Value>, publisher: Option<Value>, capabilities: Option<seq<string>>, permissions: Option<Value>)

  function Default(o: Option<Value>, d: Value): Value {
    if o.Some? then o.value else d
  }

  const DEFAULT_PERMISSIONS :=
    Obj([Member("filesystem", Str("read-only")), Member("network", Str("none")), Member("secrets", Str("none"))])

  function FileMembers(rt: Runtime, names: seq<string>, files: map<string, seq<Byte>>): (ms: seq<Member>)
    requires forall n :: n in names ==> n in files
    ensures |ms| == |names|
    ensures forall i :: 0 <= i < |ms| ==> ms[i] == Member(names[i], Str(rt.sha(files[names[i]])))
  {
    seq(|names|, i requires 0 <= i < |names| => Member(names[i], Str(rt.sha(files[names[i]]))))
  }

  /** The manifest, its keys sorted; names lists the files in sorted order. */
  function ManifestOf(rt: Runtime, names: seq<string>, files: map<string, seq<Byte>>, meta: Metadata): Value
    requires forall n :: n in names ==> n in files
  {
    Obj([Member("capabilities", Arr(Texts(Sorted(if meta.capabilities.Some? then meta.capabilities.value else [])))),
         Member("description", Default(meta.description, Str(""))),
         Member("entrypoint", Default(meta.entrypoint, Str("server.py"))),
         Member("files", Obj(FileMembers(rt, names, files))),
         Member("name", Default(meta.name, Null)),
         Member("package_id", Default(meta.packageId, Null)),
         Member("permissions", Default(meta.permissions, DEFAULT_PERMISSIONS)),
         Member("publisher", Default(meta.publisher, Obj([]))),
         Member("schema_version", Num(1)),
         Member("type", Str("mcp")),
         Member("version", Default(meta.version, Null))])
  }

  /** One member of the archive. */
  datatype Archived = Archived(name: string, data: seq<Byte>)

  function FilesInOrder(names: seq<string>, files: map<string, seq<Byte>>): (a: seq<Archived>)
    requires forall n :: n in names ==> n in files
    ensures |a| == |names| && forall i :: 0 <= i < |a| ==> a[i] == Archived(names[i], files[names[i]])
  {
    seq(|names|, i requires 0 <= i < |names| => Archived(names[i], files[names[i]]))
  }

  function Layout(names: seq<string>, files: map<string, seq<Byte>>, manifest: Value): seq<Archived>
    requires forall n :: n in names ==> n in files
  {
    FilesInOrder(names, files) + [Archived("manifest.json", Canonical(manifest))]
  }

  ghost function ManifestFor(rt: Runtime, files: map<string, seq<Byte>>, meta: Metadata): Value {
    ManifestOf(rt, Listing(files.Keys), files, meta)
  }

  /** What build_package returns and writes, from the files alone. */
  ghost function Built(rt: Runtime, isDir: bool, files: map<string, seq<Byte>>, meta: Metadata): (Result<Value, PackageError>, seq<Archived>) {
    if !isDir then (Err(NoSourceDirectory), [])
    else
      var r := Validate(rt, ManifestFor(rt, files, meta));
      (r, if r.Ok? then Layout(Listing(files.Keys), files, r.value) else [])
  }

  method BuildPackage(rt: Runtime, isDir: bool, root: seq<string>, entries: seq<Entry>, meta: Metadata)
      returns (r: Result<Value, PackageError>, archive: seq<Archived>)
    ensures (r, archive) == Built(rt, isDir, Files(root, entries), meta)
  {
    hide Validate, ManifestOf, Kept, Relative, Listing, Canonical;
    archive := [];
    if !isDir {
      r := Err(NoSourceDirectory);
      return;
    }
    var files: map<string, seq<Byte>> := map[];
    for i := 0 to |entries|
      invariant files == Files(root, entries[..i])
    {
      assert entries[..i + 1][..i] == entries[..i];
      var e := entries[i];
      if Kept(root, e) {
        files := files[Relative(e) := e.data];
      }
    }
    assert entries[..|entries|] == entries;
    var names := SortedNames(files.Keys);
    var manifest := ManifestOf(rt, names, files, meta);
    r := Validate(rt, manifest);
    if r.Err? {
      return;
    }
    for i := 0 to |names|
      invariant archive == FilesInOrder(names, files)[..i]
    {
      archive := archive + [Archived(names[i], files[names[i]])];
    }
    assert FilesInOrder(names, files)[..|names|] == FilesInOrder(names, files);
    archive := archive + [Archived("manifest.json", Canonical(manifest))];
  }

  // ---- the inspector ----

  function NamesOf(archive: seq<Archived>): (names: seq<string>)
    ensures |names| == |archive| && forall i :: 0 <= i < |names| ==> names[i] == archive[i].name
  {
    seq(|archive|, i requires 0 <= i < |archive| => archive[i].name)
  }

  predicate Distinct(names: seq<string>) {
    forall i, j :: 0 <= i < j < |names| ==> names[i] != names[j]
  }

  predicate NamesSafe(archive: seq<Archived>) {
    && Distinct(NamesOf(archive))
    && forall i :: 0 <= i < |archive| ==> !UnsafePath(archive[i].name)
  }

  /** archive.read(name); the last entry of a name wins. */
  function ReadEntry(archive: seq<Archived>, name: string): Option<seq<Byte>> {
    if archive == [] then None
    else if archive[|archive| - 1].name == name then Some(archive[|archive| - 1].data)
    else ReadEntry(archive[..|archive| - 1], name)
  }

  function ReadManifest(rt: Runtime, archive: seq<Archived>): Option<Value> {
    var data := ReadEntry(archive, "manifest.json");
    if data.None? then None else rt.loads(data.value)
  }

  predicate IsFileName(name: string) {
    name != "manifest.json" && !EndsWithSlash(name)
  }

  function FileNames(archive: seq<Archived>): set<string> {
    set n | n in NamesOf(archive) && IsFileName(n)
  }

  /** The members of the files table. */
  function FileTable(manifest: Value): seq<Member> {
    if manifest.Obj? && Field(manifest.members, "files").Some? && Field(manifest.members, "files").value.Obj?
    then Field(manifest.members, "files").value.members
    else []
  }

  function TableNames(table: seq<Member>): set<string> {
    set m | m in table :: m.key
  }

  predicate Matches(rt: Runtime, archive: seq<Archived>, m: Member) {
    var data := ReadEntry(archive, m.key);
    data.Some? && m.value == Str(rt.sha(data.value))
  }

  ghost function Inspected(rt: Runtime, archive: seq<Archived>): Result<Value, PackageError> {
    if !NamesSafe(archive) then Err(UnsafeNames)
    else
      match ReadManifest(rt, archive)
      case None => Err(NoManifest)
      case Some(manifest) =>
        if Validate(rt, manifest).Err? then Err(Validate(rt, manifest).error)
        else if FileNames(archive) != TableNames(FileTable(manifest)) then Err(FilesDiffer)
        else if exists m :: m in FileTable(manifest) && !Matches(rt, archive, m) then Err(HashMismatch)
        else Ok(manifest)
  }

  lemma {:induction false} DistinctCount(names: seq<string>)
    ensures |set n | n in names| <= |names|
    ensures |set n | n in names| == |names| <==> Distinct(names)
  {
    if names != [] {
      var last := names[|names| - 1];
      var front := names[..|names| - 1];
      DistinctCount(front);
      var s, t := set n | n in names, set n | n in front;
      assert names == front + [last];
      if last in front {
        assert s == t;
        var i :| 0 <= i < |front| && front[i] == last;
        assert names[i] == names[|names| - 1];
      } else {
        assert s == t + {last};
        forall i, j | 0 <= i < j < |names| && Distinct(front) ensures names[i] != names[j] {
          assert names[i] == front[i];
          assert j < |front| ==> names[j] == front[j];
        }
        assert Distinct(names) ==> Distinct(front);
      }
    }
  }

  lemma ReadsNamed(archive: seq<Archived>, name: string)
    ensures ReadEntry(archive, name).Some? <==> name in NamesOf(archive)
  {
  }

  method InspectPackage(rt: Runtime, archive: seq<Archived>) returns (r: Result<Value, PackageError>)
    ensures r == Inspected(rt, archive)
  {
    hide Validate, ReadManifest, UnsafePath, FileTable, ReadEntry, IsFileName;
    var names := NamesOf(archive);
    DistinctCount(names);
    if |names| != |set n | n in names| || exists i :: 0 <= i < |names| && UnsafePath(names[i]) {
      return Err(UnsafeNames);
    }
    var parsed := ReadManifest(rt, archive);
    if parsed.None? {
      return Err(NoManifest);
    }
    var manifest := parsed.value;
    var valid := Validate(rt, manifest);
    if valid.Err? {
      return valid;
    }
    var table := FileTable(manifest);
    if FileNames(archive) != TableNames(table) {
      return Err(FilesDiffer);
    }
    for i := 0 to |table|
      invariant forall j :: 0 <= j < i ==> Matches(rt, archive, table[j])
    {
      assert table[i].key in TableNames(table);
      ReadsNamed(archive, table[i].key);
      var data := ReadEntry(archive, table[i].key);
      if table[i].value != Str(rt.sha(data.value)) {
        assert !Matches(rt, archive, table[i]);
        return Err(HashMismatch);
      }
    }
    r := Ok(manifest);
  }
}
