/** What of a source directory reaches the archive, and which manifests and archives are accepted, rule by rule. */
module AiPkgArchives {
  import opened Wrappers
  import opened Utf8
  import opened Json
  import opened Names
  import opened AiPkg
  import opened AiPkgTheorems

  // ---- the archive against the directory ----

  ghost predicate EndsIn(name: string, ending: string) {
    exists stem :: stem != "" && name == stem + ending
  }

  lemma SuffixExact(name: string, ext: string)
    requires ext == ".pyc" || ext == ".pyo"
    ensures Suffix(name) == ext <==> EndsIn(name, ext)
  {
    var i := LastDot(name);
    if Suffix(name) == ext {
      assert name == name[..i] + ext;
    }
    if stem :| stem != "" && name == stem + ext {
      assert name[|stem|] == '.' && name[|stem| + 1] == 'p' && name[|stem| + 2] == 'y';
      assert name[|stem|..] == ext;
    }
  }

  /** A regular file of the walk, not a symbolic link, under no __pycache__ and not compiled. */
  ghost predicate ToShip(root: seq<string>, e: Entry, name: string, data: seq<Byte>) {
    && e.isFile && !e.isSymlink
    && Join(e.folders + [e.name]) == name && e.data == data && name != "manifest.json"
    && "__pycache__" !in root && "__pycache__" !in e.folders && e.name != "__pycache__"
    && !EndsIn(e.name, ".pyc") && !EndsIn(e.name, ".pyo")
  }

  lemma KeptExact(root: seq<string>, e: Entry)
    ensures Kept(root, e) <==> ToShip(root, e, Relative(e), e.data)
  {
    hide Suffix, EndsIn, Join;
    SuffixExact(e.name, ".pyc");
    SuffixExact(e.name, ".pyo");
  }

  lemma FilesShipped(root: seq<string>, entries: seq<Entry>, name: string, data: seq<Byte>)
    requires ProperEntries(entries) && OnePerPath(entries)
    ensures (name in Files(root, entries) && Files(root, entries)[name] == data)
       <==> exists e :: e in entries && ToShip(root, e, name, data)
  {
    FilesExact(root, entries, name, data);
    hide Files, Kept, ToShip, ProperEntries, OnePerPath, Relative;
    forall e | e in entries
      ensures Kept(root, e) && Relative(e) == name && e.data == data <==> ToShip(root, e, name, data)
    {
      KeptExact(root, e);
      ShipsAs(root, e, name, data);
    }
  }

  lemma ShipsAs(root: seq<string>, e: Entry, name: string, data: seq<Byte>)
    ensures ToShip(root, e, name, data) <==> ToShip(root, e, Relative(e), e.data) && Relative(e) == name && e.data == data
  {
    hide EndsIn, Join;
  }

  lemma LayoutHolds(files: map<string, seq<Byte>>, manifest: Value, name: string, data: seq<Byte>)
    requires name != "manifest.json"
    ensures Archived(name, data) in Layout(Listing(files.Keys), files, manifest) <==> name in files && files[name] == data
  {
    hide Listing, Canonical;
    var names := Listing(files.Keys);
    var listed := FilesInOrder(names, files);
    if name in files {
      var i :| 0 <= i < |names| && names[i] == name;
      assert listed[i] == Archived(name, files[name]);
    }
    if Archived(name, data) in listed {
      var i :| 0 <= i < |listed| && listed[i] == Archived(name, data);
      assert names[i] in names;
    }
  }

  /** Apart from its manifest, which comes last, the archive written holds exactly the directory's files to ship with their bytes,
      one member each, in the order of their names. */
  lemma ArchiveHolds(rt: Runtime, root: seq<string>, entries: seq<Entry>, meta: Metadata, name: string, data: seq<Byte>)
    requires ProperEntries(entries) && OnePerPath(entries)
    requires Built(rt, true, Files(root, entries), meta).0.Ok?
    ensures var (r, archive) := Built(rt, true, Files(root, entries), meta);
      && archive != [] && archive[|archive| - 1] == Archived("manifest.json", Canonical(r.value))
      && Ascending(NamesOf(archive)[..|archive| - 1])
      && "manifest.json" !in NamesOf(archive)[..|archive| - 1]
      && (name != "manifest.json" ==> (Archived(name, data) in archive <==> exists e :: e in entries && ToShip(root, e, name, data)))
  {
    hide Validate, ManifestFor, Listing, Canonical, Files, ToShip, Ascending;
    FilesShipped(root, entries, name, data);
    var files := Files(root, entries);
    var (r, archive) := Built(rt, true, files, meta);
    var names := Listing(files.Keys);
    assert NamesOf(archive)[..|archive| - 1] == names;
    if "manifest.json" in names {
      CollectedPathsAreSafe(root, entries, "manifest.json");
    }
    if name != "manifest.json" { LayoutHolds(files, r.value, name, data); }
  }

  /** The manifest built names the caller's capabilities, each as often as given, in order. */
  lemma CapabilitiesKept(rt: Runtime, files: map<string, seq<Byte>>, meta: Metadata)
    ensures var m := ManifestFor(rt, files, meta);
            m.Obj? &&
            exists texts :: Field(m.members, "capabilities") == Some(Arr(Texts(texts))) && NonDescending(texts)
                            && multiset(texts) == multiset(if meta.capabilities.Some? then meta.capabilities.value else [])
  {
    ManifestShape(rt, files, meta);
    var given := if meta.capabilities.Some? then meta.capabilities.value else [];
    SortedExact(given);
    hide Sorted, Table, Listing, Default, NonDescending, Ascending;
    var m := ManifestFor(rt, files, meta);
    FieldAt(m.members, 0);
    assert MANIFEST_KEYS[0] == "capabilities" == m.members[0].key;
    assert Field(m.members, "capabilities") == Some(Arr(Texts(Sorted(given))));
  }

  // ---- the rules of a manifest ----

  /** A field of the manifest, null where there is none. */
  function Get(m: Value, key: string): Value {
    if m.Obj? && Field(m.members, key).Some? then Field(m.members, key).value else Null
  }

  const LOWER := "abcdefghijklmnopqrstuvwxyz"
  const UPPER := "ABCDEFGHIJKLMNOPQRSTUVWXYZ"
  const DIGITS := "0123456789"

  /** Three numbers with dots between them, then nothing, or a sign and at least one more character. */
  ghost predicate VersionText(rt: Runtime, s: string) {
    exists a, b, c, tail ::
      && AllDigits(rt, a) && AllDigits(rt, b) && AllDigits(rt, c) && TailText(tail)
      && s == a + "." + b + "." + c + tail
  }

  ghost predicate TailText(s: string) {
    s == "" || (|s| > 1 && s[0] in "-+" && forall c :: c in s[1..] ==> c in LOWER + UPPER + DIGITS + ".-")
  }

  /** An absolute path, one that climbs, or a digest that is not 64 lowercase hex digits. */
  ghost predicate BadFile(f: Member) {
    || "/" <= f.key || ".." in Components(f.key)
    || !(f.value.Str? && |f.value.text| == 64 && forall c :: c in f.value.text ==> c in DIGITS + "abcdef")
  }

  /** The manifest breaks the rule that the error reports. */
  ghost predicate Breaks(rt: Runtime, m: Value, e: PackageError) {
    match e
    case NotAMapping => !m.Obj?
    case MissingFields =>
      m.Obj? && exists k :: k in REQUIRED && forall member :: member in m.members ==> member.key != k
    case BadSchemaVersion => Get(m, "schema_version") !in {Num(1), Bool(true)}
    case BadPackageId =>
      !(Get(m, "package_id").Str?
        && var s := Get(m, "package_id").text;
           3 <= |s| <= 64 && s[0] !in "._-" && forall c :: c in s ==> c in LOWER + DIGITS + "._-")
    case BadVersion =>
      !(Get(m, "version").Str? && VersionText(rt, Get(m, "version").text))
    case BadType => Get(m, "type") != Str("mcp")
    case BadEntrypoint => !(Get(m, "entrypoint").Str? && Get(m, "entrypoint").text != "" && !("/" <= Get(m, "entrypoint").text))
    case NoPublisherId =>
      !Get(m, "publisher").Obj? || Get(Get(m, "publisher"), "id") in {Null, Bool(false), Num(0), Str(""), Arr([]), Obj([])}
    case BadPermissionName =>
      !Get(m, "permissions").Obj? || exists p :: p in Get(m, "permissions").members && p.key !in PERMISSION_NAMES
    case BadPermissionValue =>
      Get(m, "permissions").Obj? && exists p :: p in Get(m, "permissions").members && p.value !in PERMISSION_VALUES
    case NoFiles => !Get(m, "files").Obj? || Get(m, "files").members == []
    case BadFileEntry =>
      Get(m, "files").Obj? && exists f :: f in Get(m, "files").members && BadFile(f)
    case EntrypointNotListed =>
      Get(m, "files").Obj? && Get(m, "entrypoint").Str?
      && forall f :: f in Get(m, "files").members ==> f.key != Get(m, "entrypoint").text
    case _ => false
  }

  /** The rules in the order they are checked. */
  function Rank(e: PackageError): nat {
    match e
    case NotAMapping => 0
    case MissingFields => 1
    case BadSchemaVersion => 2
    case BadPackageId => 3
    case BadVersion => 4
    case BadType => 5
    case BadEntrypoint => 6
    case NoPublisherId => 7
    case BadPermissionName => 8
    case BadPermissionValue => 9
    case NoFiles => 10
    case BadFileEntry => 11
    case EntrypointNotListed => 12
    case _ => 13
  }

  lemma Letters(c: char)
    ensures c in LOWER <==> 'a' <= c <= 'z'
    ensures c in UPPER <==> 'A' <= c <= 'Z'
    ensures c in DIGITS <==> '0' <= c <= '9'
    ensures c in "abcdef" <==> 'a' <= c <= 'f'
  {
  }

  lemma IdExact(s: string)
    ensures IsPackageId(s) <==> 3 <= |s| <= 64 && s[0] !in "._-" && forall c :: c in s ==> c in LOWER + DIGITS + "._-"
  {
    forall c: char ensures c in LOWER + DIGITS + "._-" <==> IsLowerOrDigit(c) || c in "._-" { Letters(c); }
    hide IsLowerOrDigit;
  }

  lemma DigestExact(s: string)
    ensures IsDigest(s) <==> |s| == 64 && forall c :: c in s ==> c in DIGITS + "abcdef"
  {
    forall c: char ensures c in DIGITS + "abcdef" <==> '0' <= c <= '9' || 'a' <= c <= 'f' { Letters(c); }
    assert forall i :: 0 <= i < |s| ==> s[i] in s;
  }

  lemma TailExact(s: string)
    ensures IsVersionTail(s) <==> TailText(s)
  {
    forall c: char ensures c in LOWER + UPPER + DIGITS + ".-" <==> IsLowerOrDigit(c) || 'A' <= c <= 'Z' || c in ".-" { Letters(c); }
    hide IsLowerOrDigit;
    if |s| > 1 { assert forall i :: 1 <= i < |s| ==> s[i] == s[1..][i - 1]; }
  }

  lemma VersionTextExact(rt: Runtime, s: string)
    requires !rt.isDigit('.') && !rt.isDigit('-') && !rt.isDigit('+')
    ensures IsVersionRest(rt, s, 2) <==> VersionText(rt, s)
  {
    VersionExact(rt, s);
    hide IsVersionRest, AllDigits, TailText, IsVersionTail;
    if numbers, tail :| Spells(rt, s, 2, numbers, tail) {
      TailExact(tail);
      SpellThree(numbers[0], numbers[1], numbers[2], tail);
      assert numbers == [numbers[0], numbers[1], numbers[2]];
      assert s == numbers[0] + "." + numbers[1] + "." + numbers[2] + tail;
    }
    if a, b, c, tail :| AllDigits(rt, a) && AllDigits(rt, b) && AllDigits(rt, c) && TailText(tail) && s == a + "." + b + "." + c + tail {
      TailExact(tail);
      SpellThree(a, b, c, tail);
      assert Spells(rt, s, 2, [a, b, c], tail);
    }
  }

  lemma SpellThree(a: string, b: string, c: string, tail: string)
    ensures Spell([a, b, c], tail) == a + "." + b + "." + c + tail
  {
    assert [a, b, c][1..] == [b, c] && [b, c][1..] == [c];
    assert Spell([c], tail) == c + tail;
    assert Spell([b, c], tail) == b + ("." + (c + tail));
    assert Spell([a, b, c], tail) == a + ("." + (b + ("." + (c + tail))));
    assert a + ("." + (b + ("." + (c + tail)))) == a + "." + b + "." + c + tail;
  }

  lemma {:induction false} FieldMissing(ms: seq<Member>, key: string)
    ensures Field(ms, key).None? <==> forall member :: member in ms ==> member.key != key
  {
    if ms != [] {
      FieldMissing(ms[1..], key);
      assert ms == [ms[0]] + ms[1..];
    }
  }

  lemma FileEntryExact(f: Member)
    ensures GoodFileEntry(f) <==> !BadFile(f)
  {
    if f.value.Str? { DigestExact(f.value.text); }
    hide IsDigest, Components;
  }

  lemma TruthyExact(v: Value)
    ensures Truthy(v) <==> v !in {Null, Bool(false), Num(0), Str(""), Arr([]), Obj([])}
  {
  }

  lemma HeaderExact(rt: Runtime, m: Value)
    requires !rt.isDigit('.') && !rt.isDigit('-') && !rt.isDigit('+')
    requires m.Obj? && HasFields(m.members)
    ensures var p := HeaderProblem(rt, View(m.members));
      && (p.Some? ==> 2 <= Rank(p.value) <= 9 && Breaks(rt, m, p.value))
      && (forall e :: 2 <= Rank(e) <= 9 && Breaks(rt, m, e) ==> p.Some? && Rank(p.value) <= Rank(e))
  {
    HeaderOrder(rt, m);
    HeaderRanks();
    hide HeaderProblem, Breaks, View, HasFields, Rank;
  }

  lemma HeaderRanks()
    ensures Rank(BadSchemaVersion) == 2 && Rank(BadPackageId) == 3 && Rank(BadVersion) == 4 && Rank(BadType) == 5
    ensures Rank(BadEntrypoint) == 6 && Rank(NoPublisherId) == 7 && Rank(BadPermissionName) == 8 && Rank(BadPermissionValue) == 9
    ensures forall e :: 2 <= Rank(e) <= 9 ==> e.BadSchemaVersion? || e.BadPackageId? || e.BadVersion? || e.BadType?
                                              || e.BadEntrypoint? || e.NoPublisherId? || e.BadPermissionName? || e.BadPermissionValue?
  {
  }

  lemma HeaderOrder(rt: Runtime, m: Value)
    requires !rt.isDigit('.') && !rt.isDigit('-') && !rt.isDigit('+')
    requires m.Obj? && HasFields(m.members)
    ensures HeaderProblem(rt, View(m.members)) ==
            if Breaks(rt, m, BadSchemaVersion) then Some(BadSchemaVersion)
            else if Breaks(rt, m, BadPackageId) then Some(BadPackageId)
            else if Breaks(rt, m, BadVersion) then Some(BadVersion)
            else if Breaks(rt, m, BadType) then Some(BadType)
            else if Breaks(rt, m, BadEntrypoint) then Some(BadEntrypoint)
            else if Breaks(rt, m, NoPublisherId) then Some(NoPublisherId)
            else if Breaks(rt, m, BadPermissionName) then Some(BadPermissionName)
            else if Breaks(rt, m, BadPermissionValue) then Some(BadPermissionValue)
            else None
  {
    NameRules(rt, m);
    PublisherRule(rt, m);
    PermissionRules(rt, m);
    hide Breaks, IsPackageId, IsVersionRest, Truthy, View, HasFields, Field;
  }

  lemma NameRules(rt: Runtime, m: Value)
    requires !rt.isDigit('.') && !rt.isDigit('-') && !rt.isDigit('+')
    requires m.Obj? && HasFields(m.members)
    ensures var f := View(m.members);
      && (Breaks(rt, m, BadSchemaVersion) <==> f.schema != Num(1) && f.schema != Bool(true))
      && (Breaks(rt, m, BadPackageId) <==> !(f.id.Str? && IsPackageId(f.id.text)))
      && (Breaks(rt, m, BadVersion) <==> !(f.version.Str? && IsVersionRest(rt, f.version.text, 2)))
      && (Breaks(rt, m, BadType) <==> f.kind != Str("mcp"))
      && (Breaks(rt, m, BadEntrypoint) <==> !f.entrypoint.Str? || f.entrypoint.text == "" || f.entrypoint.text[0] == '/')
  {
    ViewGets(m);
    var f := View(m.members);
    if f.id.Str? { IdExact(f.id.text); }
    if f.version.Str? { VersionTextExact(rt, f.version.text); }
    hide IsPackageId, IsVersionRest, VersionText, View, HasFields, Field, Get;
  }

  lemma PublisherRule(rt: Runtime, m: Value)
    requires m.Obj? && HasFields(m.members)
    ensures var p := View(m.members).publisher;
            Breaks(rt, m, NoPublisherId) <==> !p.Obj? || Field(p.members, "id").None? || !Truthy(Field(p.members, "id").value)
  {
    ViewGets(m);
    var p := View(m.members).publisher;
    if p.Obj? && Field(p.members, "id").Some? { TruthyExact(Field(p.members, "id").value); }
    hide Truthy, View, HasFields, Field;
  }

  lemma PermissionRules(rt: Runtime, m: Value)
    requires m.Obj? && HasFields(m.members)
    ensures var p := View(m.members).permissions;
      && (Breaks(rt, m, BadPermissionName) <==> !p.Obj? || exists q :: q in p.members && q.key !in PERMISSION_NAMES)
      && (Breaks(rt, m, BadPermissionValue) <==> p.Obj? && exists q :: q in p.members && q.value !in PERMISSION_VALUES)
  {
    ViewGets(m);
    hide View, HasFields, Get;
  }

  lemma ViewGets(m: Value)
    requires m.Obj? && HasFields(m.members)
    ensures View(m.members) == Fields(Get(m, "schema_version"), Get(m, "package_id"), Get(m, "version"), Get(m, "type"),
                                      Get(m, "entrypoint"), Get(m, "publisher"), Get(m, "permissions"), Get(m, "files"))
  {
    hide Field;
    assert REQUIRED[0] in REQUIRED && REQUIRED[1] in REQUIRED && REQUIRED[3] in REQUIRED && REQUIRED[4] in REQUIRED
        && REQUIRED[5] in REQUIRED && REQUIRED[6] in REQUIRED && REQUIRED[7] in REQUIRED && REQUIRED[8] in REQUIRED;
  }

  lemma FilesRulesExact(rt: Runtime, m: Value)
    requires m.Obj? && HasFields(m.members) && Get(m, "entrypoint").Str?
    ensures var p := FilesProblem(Get(m, "files"), Get(m, "entrypoint"));
      && (p.Some? ==> 10 <= Rank(p.value) <= 12 && Breaks(rt, m, p.value))
      && (forall e :: 10 <= Rank(e) <= 12 && Breaks(rt, m, e) ==> p.Some? && Rank(p.value) <= Rank(e))
  {
    var files := Get(m, "files");
    if files.Obj? {
      forall f | f in files.members ensures GoodFileEntry(f) <==> !BadFile(f) { FileEntryExact(f); }
      FieldMissing(files.members, Get(m, "entrypoint").text);
    }
    hide GoodFileEntry, BadFile, Field, HasFields, Get;
  }

  lemma EarlyRules(rt: Runtime, m: Value)
    ensures Breaks(rt, m, NotAMapping) <==> !m.Obj?
    ensures Breaks(rt, m, MissingFields) <==> m.Obj? && !HasFields(m.members)
    ensures Breaks(rt, m, BadEntrypoint) || Get(m, "entrypoint").Str?
    ensures forall e :: Breaks(rt, m, e) ==> Rank(e) <= 12
    ensures forall e :: (Rank(e) == 0 <==> e == NotAMapping) && (Rank(e) == 1 <==> e == MissingFields)
  {
    if m.Obj? {
      forall k | k in REQUIRED ensures Field(m.members, k).None? <==> forall member :: member in m.members ==> member.key != k {
        FieldMissing(m.members, k);
      }
    }
    hide Get, VersionText;
  }

  /** A manifest is refused exactly when it breaks a rule, and for the first it breaks. */
  lemma FirstRuleBroken(rt: Runtime, m: Value)
    requires !rt.isDigit('.') && !rt.isDigit('-') && !rt.isDigit('+')
    ensures Validate(rt, m).Ok? <==> forall e :: !Breaks(rt, m, e)
    ensures Validate(rt, m).Err? ==>
              Breaks(rt, m, Validate(rt, m).error) && forall e :: Breaks(rt, m, e) ==> Rank(Validate(rt, m).error) <= Rank(e)
  {
    EarlyRules(rt, m);
    if m.Obj? && HasFields(m.members) {
      HeaderExact(rt, m);
      ViewGets(m);
      if Get(m, "entrypoint").Str? { FilesRulesExact(rt, m); }
    }
    hide HeaderProblem, FilesProblem, View, Get, Field, Breaks, HasFields, Rank;
  }

  // ---- accepted archives ----

  /** With one member a name, an archive's files are its members but for the manifest and names that end in a slash. */
  lemma ContentsExact(archive: seq<Archived>, name: string, data: seq<Byte>)
    requires Distinct(NamesOf(archive))
    ensures (name in Contents(archive) && Contents(archive)[name] == data)
       <==> Archived(name, data) in archive && name != "manifest.json" && (name == "" || name[|name| - 1] != '/')
  {
    hide ReadEntry;
    if name in NamesOf(archive) {
      var i :| 0 <= i < |archive| && archive[i].name == name;
      ReadDistinct(archive, i);
      if Archived(name, data) in archive {
        var j :| 0 <= j < |archive| && archive[j] == Archived(name, data);
        ReadDistinct(archive, j);
      }
    }
    MemberNamed(archive, Archived(name, data));
  }

  lemma MemberNamed(archive: seq<Archived>, a: Archived)
    ensures a in archive ==> a.name in NamesOf(archive)
  {
    if a in archive {
      var i :| 0 <= i < |archive| && archive[i] == a;
      assert NamesOf(archive)[i] == a.name;
    }
  }

  ghost predicate SafeNames(archive: seq<Archived>) {
    && (forall i, j :: 0 <= i < j < |archive| ==> archive[i].name != archive[j].name)
    && forall i :: 0 <= i < |archive| ==> !("/" <= archive[i].name) && ".." !in Components(archive[i].name)
  }

  lemma SafeNamesExact(archive: seq<Archived>)
    ensures NamesSafe(archive) <==> SafeNames(archive)
  {
    hide Components;
  }

  /** The table of a manifest is the archive's files with their digests. */
  ghost predicate TableFits(rt: Runtime, archive: seq<Archived>, manifest: Value) {
    forall m :: m in FileTable(manifest) <==> m.key in Contents(archive) && m.value == Str(rt.sha(Contents(archive)[m.key]))
  }

  /** An archive is accepted, with the manifest it holds, exactly when its names are safe and single, that manifest breaks no rule
      and its table is the files with their digests; every refusal names the first of these to fail. */
  lemma AcceptedIff(rt: Runtime, archive: seq<Archived>)
    requires !rt.isDigit('.') && !rt.isDigit('-') && !rt.isDigit('+')
    ensures Inspected(rt, archive).Ok?
       <==> && SafeNames(archive) && ReadManifest(rt, archive).Some?
            && (forall e :: !Breaks(rt, ReadManifest(rt, archive).value, e))
            && TableFits(rt, archive, ReadManifest(rt, archive).value)
    ensures var r := Inspected(rt, archive);
      && (r == Err(UnsafeNames) <==> !SafeNames(archive))
      && (r == Err(NoManifest) <==> SafeNames(archive) && ReadManifest(rt, archive).None?)
      && (r.Ok? ==> Some(r.value) == ReadManifest(rt, archive))
      && (r == Err(FilesDiffer) ==> TableNames(FileTable(ReadManifest(rt, archive).value)) != Contents(archive).Keys)
      && (r == Err(HashMismatch) ==> TableNames(FileTable(ReadManifest(rt, archive).value)) == Contents(archive).Keys)
      && (r.Err? && Rank(r.error) <= 12 ==> Breaks(rt, ReadManifest(rt, archive).value, r.error))
  {
    InspectedInOrder(rt, archive);
    var read := ReadManifest(rt, archive);
    if read.Some? {
      FirstRuleBroken(rt, read.value);
      EarlyRules(rt, read.value);
      FitsExactly(rt, archive, read.value);
    }
    LateRanks();
    hide Inspected, ReadManifest, Validate, Breaks, SafeNames, TableFits, FileNames, FileTable, Contents, Rank;
  }

  lemma LateRanks()
    ensures Rank(UnsafeNames) == Rank(NoManifest) == Rank(FilesDiffer) == Rank(HashMismatch) == 13
  {
  }

  lemma InspectedInOrder(rt: Runtime, archive: seq<Archived>)
    ensures var read := ReadManifest(rt, archive);
            Inspected(rt, archive) ==
            if !SafeNames(archive) then Err(UnsafeNames)
            else if read.None? then Err(NoManifest)
            else if Validate(rt, read.value).Err? then Validate(rt, read.value)
            else if Contents(archive).Keys != TableNames(FileTable(read.value)) then Err(FilesDiffer)
            else if !TableFits(rt, archive, read.value) then Err(HashMismatch)
            else Ok(read.value)
  {
    SafeNamesExact(archive);
    var read := ReadManifest(rt, archive);
    if read.Some? { FitsExactly(rt, archive, read.value); }
    hide ReadManifest, Validate, NamesSafe, SafeNames, TableFits, FileNames, Matches, FileTable, Contents;
  }

  lemma FitsExactly(rt: Runtime, archive: seq<Archived>, manifest: Value)
    ensures Contents(archive).Keys == FileNames(archive)
    ensures TableFits(rt, archive, manifest)
       <==> FileNames(archive) == TableNames(FileTable(manifest)) && forall m :: m in FileTable(manifest) ==> Matches(rt, archive, m)
  {
    hide FileTable, IsFileName, ReadEntry;
    var table := FileTable(manifest);
    forall n | n in FileNames(archive) ensures ReadEntry(archive, n).Some? { ReadsNamed(archive, n); }
    if TableFits(rt, archive, manifest) {
      forall n | n in FileNames(archive) ensures n in TableNames(table) {
        assert Member(n, Str(rt.sha(Contents(archive)[n]))) in table;
      }
    } else if FileNames(archive) == TableNames(table) && forall m :: m in table ==> Matches(rt, archive, m) {
      forall m ensures m in table <==> m.key in Contents(archive) && m.value == Str(rt.sha(Contents(archive)[m.key])) {
        if m.key in Contents(archive) {
          assert m.key in TableNames(table);
          var other :| other in table && other.key == m.key;
          assert Matches(rt, archive, other);
        }
      }
    }
  }
}
