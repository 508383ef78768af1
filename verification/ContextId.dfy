/** The identity of a build context (mcuhome/model/context.py, context_id). */
module ContextId {
  import opened Wrappers
  import opened Strings
  import opened Utf8
  import opened CanonicalJson

  // ---- what is hashed ------------------------------------------------------------

  datatype Package = Package(name: Text, version: Text, sha256: Text, url: Text)

  datatype Environment = Pinned(workspace: Package, tools: Package) | Developer

  datatype File = File(path: Text, sha256: Text)

  datatype Context = Context(sdk: Text, environment: Environment, board: Text, files: seq<File>)

  datatype Refusal = BadEnvironment | BadSdkHash | NoBoard | BadPath(path: Text) | BadFileHash(path: Text)
                   | Reserved(path: Text) | Twice(path: Text) | NoEncoding

  function Word(s: string): (t: Text)
    ensures |t| == |s| && forall i :: 0 <= i < |s| ==> t[i] == s[i] as int
  {
    seq(|s|, i requires 0 <= i < |s| => s[i] as int)
  }

  // ---- the one spelling of each field -----------------------------------------------

  predicate IsDigit(c: int) { '0' as int <= c <= '9' as int }

  predicate IsLower(c: int) { 'a' as int <= c <= 'z' as int }

  predicate IsUpper(c: int) { 'A' as int <= c <= 'Z' as int }

  predicate IsSha256(t: Text) {
    |t| == 64 && forall i :: 0 <= i < 64 ==> IsDigit(t[i]) || 'a' as int <= t[i] <= 'f' as int
  }

  predicate IsLabel(t: Text) {
    && t != [] && (IsDigit(t[0]) || IsLower(t[0]))
    && forall i :: 0 <= i < |t| ==> IsDigit(t[i]) || IsLower(t[i]) || t[i] == '-' as int
  }

  /** Lowercase alphanumerics and `-`, with one architecture suffix at most. */
  predicate IsPackageName(t: Text) {
    var i := IndexOf(t, '_' as int);
    IsLabel(t[..i]) && (i < |t| ==> IsLabel(t[i + 1..]))
  }

  predicate IsVersion(t: Text) {
    && t != [] && (IsDigit(t[0]) || IsLower(t[0]) || IsUpper(t[0]))
    && forall i :: 0 <= i < |t| ==>
         IsDigit(t[i]) || IsLower(t[i]) || IsUpper(t[i])
         || t[i] in ['.' as int, '+' as int, '!' as int, '_' as int, '-' as int]
  }

  predicate IsPackage(p: Package) {
    IsPackageName(p.name) && IsVersion(p.version) && IsSha256(p.sha256)
  }

  predicate IsEnvironment(e: Environment) {
    e.Developer? || (IsPackage(e.workspace) && IsPackage(e.tools))
  }

  /** The SDK hash and the environment travel together. */
  predicate IsSdkHash(t: Text, e: Environment) {
    if e.Developer? then t == [] else IsSha256(t)
  }

  predicate IsBoard(t: Text) {
    exists i :: 0 <= i < |t| && !IsBlank(t[i])
  }

  predicate IsPath(t: Text) {
    && t != [] && '\\' as int !in t && t[0] != '/' as int
    && var parts := Split(t, '/' as int);
       forall i :: 0 <= i < |parts| ==> parts[i] != [] && parts[i] != Word(".") && parts[i] != Word("..")
  }

  predicate IsReserved(t: Text) {
    t == Word("manifest.yaml") || t == Word("context.yaml") || Split(t, '/' as int)[0] == Word(".mcuhome")
  }

  // ---- the integrity list -------------------------------------------------------------

  function Refused(f: File, seen: set<Text>): Option<Refusal> {
    if !IsPath(f.path) then Some(BadPath(f.path))
    else if !IsSha256(f.sha256) then Some(BadFileHash(f.path))
    else if IsReserved(f.path) then Some(Reserved(f.path))
    else if f.path in seen then Some(Twice(f.path))
    else None
  }

  function Paths(files: seq<File>): set<Text> {
    set f | f in files :: f.path
  }

  predicate IsFile(f: File) {
    IsPath(f.path) && IsSha256(f.sha256) && !IsReserved(f.path)
  }

  predicate Distinct(files: seq<File>) {
    forall i, k :: 0 <= i < k < |files| ==> files[i].path != files[k].path
  }

  predicate AllFiles(files: seq<File>) {
    (forall f :: f in files ==> IsFile(f)) && Distinct(files)
  }

  /** The first entry that is refused decides, and none is exactly when every
      entry is spelled right and no path is named twice. */
  method RequireFiles(files: seq<File>) returns (refused: Option<Refusal>)
    ensures refused.None? <==> AllFiles(files)
    ensures refused.Some? ==>
              exists n :: 0 <= n < |files| && AllFiles(files[..n]) && refused == Refused(files[n], Paths(files[..n]))
  {
    var seen := {};
    for n := 0 to |files|
      invariant seen == Paths(files[..n]) && AllFiles(files[..n])
    {
      refused := Refused(files[n], seen);
      NextFile(files, n);
      if refused.Some? {
        return;
      }
      seen := seen + {files[n].path};
    }
    assert files[..|files|] == files;
    refused := None;
  }

  lemma NextFile(files: seq<File>, n: nat)
    requires n < |files| && AllFiles(files[..n])
    ensures Refused(files[n], Paths(files[..n])).None? <==> AllFiles(files[..n + 1])
    ensures Refused(files[n], Paths(files[..n])).Some? ==> !AllFiles(files)
    ensures Paths(files[..n + 1]) == Paths(files[..n]) + {files[n].path}
  {
    hide IsPath;
    hide IsSha256;
    hide IsReserved;
    var front, more := files[..n], files[..n + 1];
    assert more == front + [files[n]];
    assert files[n] in more && files[n] in files;
    if k :| 0 <= k < n && front[k].path == files[n].path {
      assert more[k].path == more[n].path && files[k].path == files[n].path && front[k] in front;
    } else {
      NewPath(front, files[n]);
    }
  }

  lemma NewPath(front: seq<File>, f: File)
    requires Distinct(front) && forall k :: 0 <= k < |front| ==> front[k].path != f.path
    ensures Distinct(front + [f]) && f.path !in Paths(front)
  {
  }

  // ---- sorted by path -------------------------------------------------------------------

  function Insert(f: File, files: seq<File>): (r: seq<File>)
    ensures multiset(r) == multiset(files) + multiset{f}
  {
    if files == [] || !Less(files[0].path, f.path) then [f] + files
    else
      assert files == [files[0]] + files[1..];
      [files[0]] + Insert(f, files[1..])
  }

  /** sorted(entries, key=path), in code-point order. */
  function Sorted(files: seq<File>): (r: seq<File>)
    ensures multiset(r) == multiset(files)
  {
    if files == [] then []
    else
      assert files == [files[0]] + files[1..];
      Insert(files[0], Sorted(files[1..]))
  }

  /** The same sort by the bytes of the UTF-8 encoding, as another implementation has it. */
  function InsertByBytes(f: File, files: seq<File>): seq<File> {
    if files == [] || !Less(EncodeAll(files[0].path), EncodeAll(f.path)) then [f] + files
    else [files[0]] + InsertByBytes(f, files[1..])
  }

  function SortedByBytes(files: seq<File>): seq<File> {
    if files == [] then [] else InsertByBytes(files[0], SortedByBytes(files[1..]))
  }

  lemma {:induction false} InsertAgrees(f: File, files: seq<File>)
    ensures InsertByBytes(f, files) == Insert(f, files)
  {
    if files != [] {
      OrderIsByteOrder(files[0].path, f.path);
      InsertAgrees(f, files[1..]);
    }
  }

  /** Sorting bytes and sorting code points give one list: two implementations agree. */
  lemma {:induction false} SortsAgree(files: seq<File>)
    ensures SortedByBytes(files) == Sorted(files)
  {
    if files != [] {
      SortsAgree(files[1..]);
      InsertAgrees(files[0], Sorted(files[1..]));
    }
  }

  predicate Ascending(files: seq<File>) {
    forall i, k :: 0 <= i < k < |files| ==> Less(files[i].path, files[k].path)
  }

  lemma {:induction false} InsertAscends(f: File, files: seq<File>)
    requires Ascending(files) && forall g :: g in files ==> g.path != f.path
    ensures Ascending(Insert(f, files))
  {
    var r := Insert(f, files);
    if files != [] {
      Trichotomy(files[0].path, f.path);
      if Less(files[0].path, f.path) {
        InsertAscends(f, files[1..]);
        var rest := Insert(f, files[1..]);
        forall k | 0 <= k < |rest|
          ensures Less(files[0].path, rest[k].path)
        {
          assert rest[k] in multiset(rest);
          assert rest[k] == f || rest[k] in files[1..];
        }
      } else {
        forall k | 0 < k < |files|
          ensures Less(f.path, files[k].path)
        {
          LessTransitive(f.path, files[0].path, files[k].path);
        }
      }
    }
  }

  lemma {:induction false} SortAscends(files: seq<File>)
    requires Distinct(files)
    ensures Ascending(Sorted(files))
  {
    if files != [] {
      SortAscends(files[1..]);
      forall g | g in Sorted(files[1..])
        ensures g.path != files[0].path
      {
        assert g in multiset(files[1..]);
      }
      InsertAscends(files[0], Sorted(files[1..]));
    }
  }

  lemma SameHead(a: seq<File>, b: seq<File>)
    requires a != [] && b != [] && Ascending(a) && Ascending(b) && multiset(a) == multiset(b)
    ensures a[0] == b[0]
  {
    assert a[0] in multiset(b) && b[0] in multiset(a);
    var i :| 0 <= i < |b| && b[i] == a[0];
    var k :| 0 <= k < |a| && a[k] == b[0];
    Trichotomy(a[0].path, b[0].path);
  }

  lemma Tail(a: seq<File>)
    requires a != []
    ensures multiset(a[1..]) == multiset(a) - multiset{a[0]} && a == [a[0]] + a[1..]
    ensures Ascending(a) ==> Ascending(a[1..])
  {
    assert a == [a[0]] + a[1..];
  }

  /** There is one ascending list of given entries. */
  lemma {:induction false} AscendingUnique(a: seq<File>, b: seq<File>)
    requires Ascending(a) && Ascending(b) && multiset(a) == multiset(b)
    ensures a == b
  {
    hide Ascending;
    if a == [] || b == [] {
      assert |multiset(a)| == |a| && |multiset(b)| == |b|;
    } else {
      SameHead(a, b);
      Tail(a);
      Tail(b);
      AscendingUnique(a[1..], b[1..]);
    }
  }

  // ---- the order of the list is no part of the identity ---------------------------

  lemma {:induction false} AtMostOnce(a: seq<File>, f: File)
    requires Distinct(a)
    ensures multiset(a)[f] <= 1
  {
    if a != [] {
      assert a == [a[0]] + a[1..];
      AtMostOnce(a[1..], f);
      if f == a[0] {
        assert f !in a[1..];
      }
    }
  }

  /** What a permutation keeps: every entry usable, no path twice. */
  lemma PermutedFiles(a: seq<File>, b: seq<File>)
    requires multiset(a) == multiset(b) && AllFiles(a)
    ensures AllFiles(b)
  {
    hide IsFile;
    forall f | f in b
      ensures f in a
    {
      assert f in multiset(b);
    }
    forall i, k | 0 <= i < k < |b|
      ensures b[i].path != b[k].path
    {
      if b[i] == b[k] {
        TwoPlaces(b, i, k);
        AtMostOnce(a, b[i]);
      } else {
        assert b[i] in a && b[k] in a;
      }
    }
  }

  lemma TwoPlaces(b: seq<File>, i: nat, k: nat)
    requires i < k < |b| && b[i] == b[k]
    ensures multiset(b)[b[i]] >= 2
  {
    assert b == b[..i] + [b[i]] + b[i + 1..k] + [b[k]] + b[k + 1..];
  }

  // ---- the document ---------------------------------------------------------------------

  function Identity(p: Package): Json {
    Obj(Field(Word("name"), Str(p.name),
        Field(Word("sha256"), Str(p.sha256),
        Field(Word("version"), Str(p.version), NoFields))))
  }

  function EnvironmentJson(e: Environment): Json {
    match e
    case Developer => Str(Word("developer"))
    case Pinned(workspace, tools) =>
      Obj(Field(Word("tools"), Identity(tools), Field(Word("workspace"), Identity(workspace), NoFields)))
  }

  function FileJson(f: File): Json {
    Obj(Field(Word("path"), Str(f.path), Field(Word("sha256"), Str(f.sha256), NoFields)))
  }

  function FilesJson(files: seq<File>): Items {
    if files == [] then NoItems else Item(FileJson(files[0]), FilesJson(files[1..]))
  }

  function Document(c: Context): Json {
    Obj(Field(Word("build_environment"), EnvironmentJson(c.environment),
        Field(Word("files"), Arr(FilesJson(Sorted(c.files))),
        Field(Word("sdk"), Obj(Field(Word("sha256"), Str(c.sdk), NoFields)),
        Field(Word("target"), Obj(Field(Word("board"), Str(c.board), NoFields)), NoFields)))))
  }

  predicate Checked(c: Context) {
    IsEnvironment(c.environment) && IsSdkHash(c.sdk, c.environment) && IsBoard(c.board) && AllFiles(c.files)
  }

  lemma PermutedDocument(c: Context, files: seq<File>)
    requires multiset(files) == multiset(c.files)
    ensures Checked(c) <==> Checked(c.(files := files))
    ensures Checked(c) ==> Document(c.(files := files)) == Document(c)
  {
    hide IsFile;
    if AllFiles(c.files) {
      PermutedFiles(c.files, files);
    }
    if AllFiles(files) {
      PermutedFiles(files, c.files);
      SortAscends(files);
      SortAscends(c.files);
      AscendingUnique(Sorted(files), Sorted(c.files));
    }
  }

  /** context_id, with SHA-256 as a parameter. */
  method ComputeId(c: Context, sha256: seq<Byte> -> Text) returns (id: Result<Text, Refusal>)
    ensures id.Ok? <==> Checked(c) && Encode(Canonical(Document(c))).Some?
    ensures id.Ok? ==> id.value == Word("sha256:") + sha256(Encode(Canonical(Document(c))).value)
    ensures id.Err? ==>
              if !IsEnvironment(c.environment) then id == Err(BadEnvironment)
              else if !IsSdkHash(c.sdk, c.environment) then id == Err(BadSdkHash)
              else if !IsBoard(c.board) then id == Err(NoBoard)
              else if AllFiles(c.files) then id == Err(NoEncoding)
              else exists n :: 0 <= n < |c.files| && AllFiles(c.files[..n])
                               && Some(id.error) == Refused(c.files[n], Paths(c.files[..n]))
  {
    if !IsEnvironment(c.environment) {
      return Err(BadEnvironment);
    }
    if !IsSdkHash(c.sdk, c.environment) {
      return Err(BadSdkHash);
    }
    if !IsBoard(c.board) {
      return Err(NoBoard);
    }
    var refused := RequireFiles(c.files);
    if refused.Some? {
      return Err(refused.value);
    }
    var bytes := Encode(Canonical(Document(c)));
    return if bytes.None? then Err(NoEncoding) else Ok(Word("sha256:") + sha256(bytes.value));
  }

  // ---- what an identity says ----------------------------------------------------------

  lemma KeysAscend()
    ensures Less(Word("build_environment"), Word("files")) && Less(Word("files"), Word("sdk"))
        && Less(Word("sdk"), Word("target"))
    ensures Less(Word("name"), Word("sha256")) && Less(Word("sha256"), Word("version"))
    ensures Less(Word("tools"), Word("workspace")) && Less(Word("path"), Word("sha256"))
  {
  }

  lemma Ascends(k: Text, v: Json, rest: Fields)
    requires rest.Field? ==> Less(k, rest.key)
    ensures CanonicalJson.Insert(k, v, rest) == Field(k, v, rest)
  {
    if rest.Field? {
      Trichotomy(k, rest.key);
    }
  }

  lemma OneField(k: Text, v: Json)
    requires Normal(v) == v
    ensures Normal(Obj(Field(k, v, NoFields))) == Obj(Field(k, v, NoFields))
  {
    assert NormalFields(Field(k, v, NoFields)) == CanonicalJson.Insert(k, v, NormalFields(NoFields));
  }

  lemma MoreFields(k: Text, v: Json, rest: Fields)
    requires Normal(v) == v && rest.Field? && Less(k, rest.key) && NormalFields(rest) == rest
    ensures NormalFields(Field(k, v, rest)) == Field(k, v, rest)
  {
    Ascends(k, v, rest);
  }

  lemma IdentityIsNormal(p: Package)
    ensures Normal(Identity(p)) == Identity(p)
  {
    KeysAscend();
    OneField(Word("version"), Str(p.version));
    MoreFields(Word("sha256"), Str(p.sha256), Field(Word("version"), Str(p.version), NoFields));
    MoreFields(Word("name"), Str(p.name),
      Field(Word("sha256"), Str(p.sha256), Field(Word("version"), Str(p.version), NoFields)));
  }

  lemma EnvironmentIsNormal(e: Environment)
    ensures Normal(EnvironmentJson(e)) == EnvironmentJson(e)
  {
    if e.Pinned? {
      KeysAscend();
      IdentityIsNormal(e.tools);
      IdentityIsNormal(e.workspace);
      OneField(Word("workspace"), Identity(e.workspace));
      MoreFields(Word("tools"), Identity(e.tools), Field(Word("workspace"), Identity(e.workspace), NoFields));
    }
  }

  lemma {:induction false} FilesAreNormal(files: seq<File>)
    ensures NormalItems(FilesJson(files)) == FilesJson(files)
  {
    if files != [] {
      var f := files[0];
      KeysAscend();
      OneField(Word("sha256"), Str(f.sha256));
      MoreFields(Word("path"), Str(f.path), Field(Word("sha256"), Str(f.sha256), NoFields));
      FilesAreNormal(files[1..]);
    }
  }

  /** The document is written with its keys in order already. */
  lemma DocumentIsNormal(c: Context)
    ensures Normal(Document(c)) == Document(c)
  {
    hide EnvironmentJson;
    hide FilesJson;
    hide Sorted;
    KeysAscend();
    EnvironmentIsNormal(c.environment);
    FilesAreNormal(Sorted(c.files));
    OneField(Word("sha256"), Str(c.sdk));
    OneField(Word("board"), Str(c.board));
    var target := Obj(Field(Word("board"), Str(c.board), NoFields));
    var sdk := Obj(Field(Word("sha256"), Str(c.sdk), NoFields));
    var last := Field(Word("target"), target, NoFields);
    OneField(Word("target"), target);
    MoreFields(Word("sdk"), sdk, last);
    MoreFields(Word("files"), Arr(FilesJson(Sorted(c.files))), Field(Word("sdk"), sdk, last));
    MoreFields(Word("build_environment"), EnvironmentJson(c.environment),
               Field(Word("files"), Arr(FilesJson(Sorted(c.files))), Field(Word("sdk"), sdk, last)));
  }

  function WithoutUrls(e: Environment): Environment {
    match e
    case Developer => Developer
    case Pinned(workspace, tools) => Pinned(workspace.(url := []), tools.(url := []))
  }

  lemma EnvironmentUnique(a: Environment, b: Environment)
    ensures EnvironmentJson(a) == EnvironmentJson(b) <==> WithoutUrls(a) == WithoutUrls(b)
  {
  }

  lemma {:induction false} FilesUnique(a: seq<File>, b: seq<File>)
    requires FilesJson(a) == FilesJson(b)
    ensures a == b
  {
    if a != [] && b != [] {
      FilesUnique(a[1..], b[1..]);
      assert a == [a[0]] + a[1..] && b == [b[0]] + b[1..];
    }
  }

  /** The same inputs: the SDK's hash, both triples or the developer word, the
      board, and the same entries in any order. Locations of bytes are none. */
  predicate SameInputs(a: Context, b: Context) {
    a.sdk == b.sdk && WithoutUrls(a.environment) == WithoutUrls(b.environment) && a.board == b.board
    && multiset(a.files) == multiset(b.files)
  }

  /** The canonical document is uniquely decodable: one string for the same
      inputs, two for different ones. */
  lemma CanonicalIdentifies(a: Context, b: Context)
    requires Checked(a) && Checked(b)
    ensures Canonical(Document(a)) == Canonical(Document(b)) <==> SameInputs(a, b)
  {
    DocumentIsNormal(a);
    DocumentIsNormal(b);
    CanonicalUnique(Document(a), Document(b));
    EnvironmentUnique(a.environment, b.environment);
    hide EnvironmentJson;
    hide WithoutUrls;
    hide Normal;
    hide Canonical;
    if Canonical(Document(a)) == Canonical(Document(b)) {
      FilesUnique(Sorted(a.files), Sorted(b.files));
      assert multiset(Sorted(a.files)) == multiset(a.files);
    }
    if SameInputs(a, b) {
      PermutedDocument(a, b.files);
      assert Document(a.(files := b.files)) == Document(b);
    }
  }

  function Id(c: Context, sha256: seq<Byte> -> Text): Text
    requires Encode(Canonical(Document(c))).Some?
  {
    Word("sha256:") + sha256(Encode(Canonical(Document(c))).value)
  }

  /** Wherever SHA-256 does not collide, one ID means the same inputs, a pinned
      environment is never taken for a developer one, and the order of the
      list never matters. */
  lemma IdIdentifies(a: Context, b: Context, sha256: seq<Byte> -> Text)
    requires Checked(a) && Checked(b)
    requires Encode(Canonical(Document(a))).Some? && Encode(Canonical(Document(b))).Some?
    requires var x, y := Encode(Canonical(Document(a))).value, Encode(Canonical(Document(b))).value;
             sha256(x) == sha256(y) ==> x == y
    ensures Id(a, sha256) == Id(b, sha256) <==> SameInputs(a, b)
    ensures Id(a, sha256) == Id(b, sha256) ==> a.environment.Developer? == b.environment.Developer?
  {
    CanonicalIdentifies(a, b);
    var x, y := sha256(Encode(Canonical(Document(a))).value), sha256(Encode(Canonical(Document(b))).value);
    if Id(a, sha256) == Id(b, sha256) {
      var n := |Word("sha256:")|;
      assert x == Id(a, sha256)[n..] && y == Id(b, sha256)[n..];
      EncodeInjective(Canonical(Document(a)), Canonical(Document(b)));
    }
  }

  /** A permuted list has an ID exactly when the list has, and the same one. */
  lemma IdIgnoresOrder(c: Context, files: seq<File>, sha256: seq<Byte> -> Text)
    requires multiset(files) == multiset(c.files) && Checked(c) && Encode(Canonical(Document(c))).Some?
    ensures var p := c.(files := files);
            Checked(p) && Encode(Canonical(Document(p))).Some? && Id(p, sha256) == Id(c, sha256)
  {
    PermutedDocument(c, files);
  }
}
