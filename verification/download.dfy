/** Downloading a plan's files under one root, with a manifest in front as cache. */
module Download {
  import opened Wrappers
  import opened FileNames

  type Path = seq<string>

  datatype File = File(path: string, size: nat, sha256: string, map_: Option<string>, mimeType: string)

  /** What a path holds: fetched bytes, of which the length is known, or a manifest, which lists files. */
  datatype Content = Asset(size: nat) | Manifest(size: nat, files: seq<File>)

  type Disk = map<Path, Content>

  datatype Planned = Planned(filename: string, size: Option<nat>, map_: Option<string>)

  /** What fetching one file gives; none when the transfer, or making its directory, fails. */
  type Served = Option<Fetched>

  datatype Fetched = Fetched(size: nat, sha256: string, mimeType: string)

  datatype Failure = BadFilename | FileTooLarge | TotalTooLarge | FetchFailed

  datatype Result = Downloaded(files: seq<File>, fromCache: bool, total: nat) | Failed(why: Failure)

  datatype Limits = Limits(maxBytes: nat, maxTotal: nat)

  const MANIFEST := "manifest.json"

  // ---------------------------------------------------------------------------
  // Paths
  // ---------------------------------------------------------------------------

  ghost predicate Plain(parts: Path)
  {
    parts != [] && forall p | p in parts :: p != "" && '/' !in p
  }

  /** Relative to the root, with forward slashes. */
  function Relative(root: Path, path: Path): string
  {
    if root <= path then Join(path[|root|..], '/') else Join(path, '/')
  }

  function Resolve(root: Path, relative: string): Path
  {
    root + NonEmpty(Split(relative, '/'))
  }

  /** The root joined with what `relative` gives is the path again. */
  lemma RelativeLeadsBack(root: Path, parts: Path)
    requires Plain(parts)
    ensures Resolve(root, Relative(root, root + parts)) == root + parts
  {
    assert (root + parts)[|root|..] == parts;
    SplitUndoesJoin(parts, '/');
    NonEmptyAll(parts);
  }

  function Utf8Length(s: string): nat
  {
    if s == "" then 0
    else
      var n := s[0] as int;
      (if n < 0x80 then 1 else if n < 0x800 then 2 else if n < 0x10000 then 3 else 4) + Utf8Length(s[1..])
  }

  predicate ProviderIdOk(id: string)
  {
    && 1 <= |id| <= 32
    && forall i | 0 <= i < |id| :: 'a' <= id[i] <= 'z' || '0' <= id[i] <= '9' || id[i] == '_'
  }

  predicate AssetIdOk(id: string)
  {
    && 1 <= Utf8Length(id) <= 200
    && !('/' in id || '\\' in id || '\0' in id || DotDot(id))
  }

  predicate ComponentOk(name: string)
  {
    && 1 <= |name| <= 64 && name[0] != '.' && !DotDot(name)
    && forall i | 0 <= i < |name| :: Alphanumeric(name[i]) || name[i] == '.' || name[i] == '_' || name[i] == '-'
  }

  /** A character takes as many bytes as section 3 of RFC 3629 says: k of them hold numbers below the k-th bound. */
  lemma {:induction false} BytesOfText(c: char, s: string, k: nat)
    requires 1 <= k <= 4
    ensures 1 <= Utf8Length([c]) <= 4 && Utf8Length([c] + s) == Utf8Length([c]) + Utf8Length(s) && Utf8Length("") == 0
    ensures Utf8Length([c]) <= k <==> (c as int) < [0x80, 0x800, 0x10000, 0x110000][k - 1]
  {
    assert ([c] + s)[1..] == s && [c][1..] == [];
  }

  /** The ids and the names a directory is made of, letter by letter. */
  lemma ProviderIsAcceptedExactlyWhen(id: string)
    ensures ProviderIdOk(id) <==> id != "" && |id| <= 32 && forall c | c in id :: c in SMALL_LETTERS || c in DIGITS || c == '_'
  {
    forall c: char ensures c in SMALL_LETTERS <==> 'a' <= c <= 'z'
                   ensures c in DIGITS <==> '0' <= c <= '9' {
      OneByOne(c);
    }
    hide SMALL_LETTERS, DIGITS;
    assert forall c | c in id :: exists i :: 0 <= i < |id| && id[i] == c;
    assert forall i | 0 <= i < |id| :: id[i] in id;
  }

  lemma AssetIsAcceptedExactlyWhen(id: string)
    ensures AssetIdOk(id) <==>
              && id != "" && Utf8Length(id) <= 200 && '/' !in id && '\\' !in id && '\0' !in id
              && forall a, b :: id != a + ".." + b
  {
    DotDotExactlyWhen(id);
    hide DotDot;
    if id != "" { BytesOfText(id[0], id[1..], 1); assert id == [id[0]] + id[1..]; }
  }

  lemma VariantIsAcceptedExactlyWhen(name: string)
    ensures ComponentOk(name) <==>
              && name != "" && |name| <= 64 && name[0] != '.' && (forall a, b :: name != a + ".." + b)
              && forall c | c in name :: c in LETTERS || c in "._-"
  {
    DotDotExactlyWhen(name);
    forall c ensures Alphanumeric(c) <==> c in LETTERS { AlphanumericExactlyWhen(c); }
    forall c: char ensures c in "._-" <==> c == '.' || c == '_' || c == '-' {}
    hide DotDot, Alphanumeric;
    assert forall c | c in name :: exists i :: 0 <= i < |name| && name[i] == c;
  }

  /** `directory_for`, below the root. A path drops a part that is a single dot. */
  function DirectoryFor(provider: string, assetId: string, variant: string): Option<Path>
  {
    if ProviderIdOk(provider) && AssetIdOk(assetId) && ComponentOk(Trim(variant)) then
      Some([provider] + (if assetId == "." then [] else [assetId]) + [Trim(variant)])
    else None
  }

  /** One is given exactly when each of its three parts is acceptable, and is made of them. */
  lemma DirectoryIsGivenExactlyWhen(provider: string, assetId: string, variant: string)
    ensures var r := DirectoryFor(provider, assetId, variant);
            && (r.Some? <==> ProviderIdOk(provider) && AssetIdOk(assetId) && ComponentOk(Trim(variant)))
            && (r.Some? ==> r.value == if assetId == "." then [provider, Trim(variant)] else [provider, assetId, Trim(variant)])
  {
    hide ProviderIdOk, AssetIdOk, ComponentOk, Trim;
  }

  /** An accepted directory lies below the root: no part of it is empty, a dot, or leads upwards. */
  lemma DirectoryStaysInside(provider: string, assetId: string, variant: string)
    requires DirectoryFor(provider, assetId, variant).Some?
    ensures var dir := DirectoryFor(provider, assetId, variant).value;
            Plain(dir) && forall p | p in dir :: p != "." && p != ".."
  {
    var dir, name := DirectoryFor(provider, assetId, variant).value, Trim(variant);
    assert '/' !in provider && '/' !in name;
    assert !DotDot(assetId) && assetId != "" && DotDot("..") by { var up := ".."; assert up[0] == '.' && up[1] == '.'; }
    forall p | p in dir ensures p != "" && '/' !in p && p != "." && p != ".." {
      assert p == provider || p == name || p == assetId;
      assert !DotDot(p) || p == provider;
    }
  }

  /** Assets, and variants but for the space around them, never share a directory. */
  lemma DirectoryTellsApart(p: string, a: string, v: string, q: string, b: string, w: string)
    requires DirectoryFor(p, a, v).Some? && DirectoryFor(p, a, v) == DirectoryFor(q, b, w)
    ensures p == q && a == b && Trim(v) == Trim(w)
  {
    var dir := DirectoryFor(p, a, v).value;
    assert dir[0] == p && dir[0] == q && dir[|dir| - 1] == Trim(v) && dir[|dir| - 1] == Trim(w);
    assert a != "." ==> dir[1] == a;
    assert b != "." ==> dir[1] == b;
  }

  lemma DestinationIsPlain(dir: Path, parts: Path)
    requires Plain(dir) && Accepted(parts)
    ensures Plain(dir + parts)
  {
    AcceptedIsPlain(parts);
  }

  // ---------------------------------------------------------------------------
  // Fetching
  // ---------------------------------------------------------------------------

  datatype Progress = Progress(disk: Disk, files: seq<File>, total: nat)

  function Declared(plan: seq<Planned>): nat
  {
    if plan == [] then 0 else (if plan[0].size.Some? then plan[0].size.value else 0) + Declared(plan[1..])
  }

  /** One file of the plan; what was written stays written when the download fails. */
  function OneMore(root: Path, dir: Path, limits: Limits, p: Progress, planned: Planned, served: Served)
    : (Progress, Option<Failure>)
  {
    var parts := Parts(planned.filename);
    if parts.None? then (p, Some(BadFilename))
    else if planned.size.Some? && planned.size.value > limits.maxBytes then (p, Some(FileTooLarge))
    else if served.None? then (p, Some(FetchFailed))
    else
      var path, got := root + dir + parts.value, served.value;
      var disk := p.disk[path := Asset(got.size)];
      var total := p.total + got.size;
      if total > limits.maxTotal then (p.(disk := disk, total := total), Some(TotalTooLarge))
      else
        (Progress(disk, p.files + [File(Relative(root, path), got.size, got.sha256, planned.map_, got.mimeType)], total), None)
  }

  function FetchAll(root: Path, dir: Path, limits: Limits, p: Progress, plan: seq<Planned>, served: seq<Served>)
    : (Progress, Option<Failure>)
    requires |served| == |plan|
    decreases |plan|
  {
    if plan == [] then (p, None)
    else
      var (next, failure) := OneMore(root, dir, limits, p, plan[0], served[0]);
      if failure.Some? then (next, failure) else FetchAll(root, dir, limits, next, plan[1..], served[1..])
  }

  /** What one file of the plan needs, whatever came before it. */
  ghost predicate Fine(limits: Limits, planned: Planned, served: Served)
  {
    Parts(planned.filename).Some? && (planned.size.Some? ==> planned.size.value <= limits.maxBytes) && served.Some?
  }

  /** How much arrives. */
  ghost function Sizes(served: seq<Served>): nat
  {
    if served == [] then 0 else (if served[0].Some? then served[0].value.size else 0) + Sizes(served[1..])
  }

  lemma FetchFirst(root: Path, dir: Path, limits: Limits, p: Progress, plan: seq<Planned>, served: seq<Served>)
    requires |served| == |plan|
    ensures FetchAll(root, dir, limits, p, plan, served)
              == if plan == [] then (p, None)
                 else var (next, why) := OneMore(root, dir, limits, p, plan[0], served[0]);
                      if why.Some? then (next, why) else FetchAll(root, dir, limits, next, plan[1..], served[1..])
  {
    hide OneMore;
  }

  /** Fetching succeeds exactly when each file has an acceptable name, declares no more than a file may have and arrives, and all
      that arrives together is within the limit. */
  lemma {:induction false} FetchSucceedsExactlyWhen(
    root: Path, dir: Path, limits: Limits, p: Progress, plan: seq<Planned>, served: seq<Served>)
    requires |served| == |plan|
    ensures FetchAll(root, dir, limits, p, plan, served).1.None? <==>
              && (forall i | 0 <= i < |plan| :: Fine(limits, plan[i], served[i]))
              && (plan != [] ==> p.total + Sizes(served) <= limits.maxTotal)
    decreases |plan|
  {
    hide Parts, Relative, FetchAll;
    FetchFirst(root, dir, limits, p, plan, served);
    if plan != [] {
      var (next, why) := OneMore(root, dir, limits, p, plan[0], served[0]);
      assert why.None? <==> Fine(limits, plan[0], served[0]) && p.total + served[0].value.size <= limits.maxTotal;
      if why.None? {
        FetchSucceedsExactlyWhen(root, dir, limits, next, plan[1..], served[1..]);
        assert forall i | 0 < i < |plan| :: plan[i] == plan[1..][i - 1] && served[i] == served[1..][i - 1];
        assert forall i | 0 <= i < |plan| - 1 :: plan[1..][i] == plan[i + 1] && served[1..][i] == served[i + 1];
      }
    }
  }

  /** When fetching fails, it fails at one file, after all before it succeeded, for the first of four reasons; that file stays
      written only when it is the one that went over the total. */
  lemma {:induction false} FailureSaysWhereAndWhy(
    root: Path, dir: Path, limits: Limits, p: Progress, plan: seq<Planned>, served: seq<Served>)
    returns (i: nat)
    requires |served| == |plan|
    requires FetchAll(root, dir, limits, p, plan, served).1.Some?
    ensures i < |plan|
    ensures var (got, before) := FetchAll(root, dir, limits, p, plan[..i], served[..i]);
            var (z, why) := FetchAll(root, dir, limits, p, plan, served);
            var parts := Parts(plan[i].filename);
            && before.None? && z.files == got.files
            && (why == Some(BadFilename) <==> parts.None?)
            && (why == Some(FileTooLarge) <==> parts.Some? && plan[i].size.Some? && plan[i].size.value > limits.maxBytes)
            && (why == Some(FetchFailed) <==>
                  parts.Some? && (plan[i].size.Some? ==> plan[i].size.value <= limits.maxBytes) && served[i].None?)
            && (why == Some(TotalTooLarge) <==>
                  Fine(limits, plan[i], served[i]) && got.total + served[i].value.size > limits.maxTotal)
            && z == if why == Some(TotalTooLarge)
                    then Progress(got.disk[root + dir + parts.value := Asset(served[i].value.size)], got.files,
                                  got.total + served[i].value.size)
                    else got
    decreases |plan|
  {
    hide Parts, Relative;
    var (next, why) := OneMore(root, dir, limits, p, plan[0], served[0]);
    if why.Some? {
      i := 0;
    } else {
      var k := FailureSaysWhereAndWhy(root, dir, limits, next, plan[1..], served[1..]);
      i := k + 1;
      assert plan[..i][1..] == plan[1..][..k] && served[..i][1..] == served[1..][..k];
    }
  }

  /** A plan declares what its files with a size declare together. */
  lemma {:induction false} DeclaredAdds(plan: seq<Planned>, rest: seq<Planned>)
    ensures Declared(plan + rest) == Declared(plan) + Declared(rest)
    ensures forall p :: Declared([p]) == match p.size case Some(n) => n case None => 0
  {
    if plan == [] {
      assert plan + rest == rest;
    } else {
      DeclaredAdds(plan[1..], rest);
      assert (plan + rest)[1..] == plan[1..] + rest;
    }
  }

  /** The cached files, if each of them is still on disk with the size it had. */
  function CachedFiles(disk: Disk, root: Path, dir: Path): Option<seq<File>>
  {
    var at := root + dir + [MANIFEST];
    if at !in disk || !disk[at].Manifest? || disk[at].files == [] then None
    else if AllPresent(disk, root, disk[at].files) then Some(disk[at].files) else None
  }

  predicate AllPresent(disk: Disk, root: Path, files: seq<File>)
  {
    forall f | f in files :: Present(disk, root, f)
  }

  predicate Present(disk: Disk, root: Path, f: File)
  {
    Resolve(root, f.path) in disk && disk[Resolve(root, f.path)].size == f.size
  }

  function Total(files: seq<File>): nat
  {
    if files == [] then 0 else Total(files[..|files| - 1]) + files[|files| - 1].size
  }

  class Downloader {
    const root: Path
    const limits: Limits
    var disk: Disk

    constructor (root: Path, limits: Limits, disk: Disk)
      ensures this.root == root && this.limits == limits && this.disk == disk
    {
      this.root, this.limits, this.disk := root, limits, disk;
    }

    method Cached(dir: Path) returns (r: Option<seq<File>>)
      ensures r == CachedFiles(disk, root, dir)
    {
      var at := root + dir + [MANIFEST];
      if at !in disk || !disk[at].Manifest? {
        return None;
      }
      var files := disk[at].files;
      if files == [] {
        return None;
      }
      for i := 0 to |files|
        invariant AllPresent(disk, root, files[..i])
      {
        if !Present(disk, root, files[i]) {
          assert files[i] in files;
          return None;
        }
      }
      assert files[..|files|] == files;
      r := Some(files);
    }

    /** `run`. `served` is what the fetches give, `manifest` the manifest's length when writing it succeeds. */
    method Run(dir: Path, plan: seq<Planned>, served: seq<Served>, force: bool, manifest: Option<nat>) returns (r: Result)
      requires |served| == |plan|
      modifies this
      ensures var cached := CachedFiles(old(disk), root, dir);
              !force && cached.Some? ==> disk == old(disk) && r == Downloaded(cached.value, true, Total(cached.value))
      ensures (force || CachedFiles(old(disk), root, dir).None?) && Declared(plan) > 0 && Declared(plan) > limits.maxTotal ==>
                disk == old(disk) && r == Failed(TotalTooLarge)
      ensures (force || CachedFiles(old(disk), root, dir).None?) && Declared(plan) <= limits.maxTotal ==>
                var (p, failure) := FetchAll(root, dir, limits, Progress(old(disk), [], 0), plan, served);
                if failure.Some? then disk == p.disk && r == Failed(failure.value)
                else
                  && r == Downloaded(p.files, false, p.total)
                  && disk == if manifest.None? then p.disk
                             else p.disk[root + dir + [MANIFEST] := Manifest(manifest.value, p.files)]
    {
      hide Parts, Relative, CachedFiles;
      if !force {
        var cached := Cached(dir);
        if cached.Some? {
          var sum := SumOf(cached.value);
          return Downloaded(cached.value, true, sum);
        }
      }
      var declared := Declared(plan);
      if declared > 0 && declared > limits.maxTotal {
        return Failed(TotalTooLarge);
      }
      var files: seq<File>, total: nat := [], 0;
      ghost var start := Progress(disk, [], 0);
      for i := 0 to |plan|
        invariant FetchAll(root, dir, limits, start, plan, served) ==
                  FetchAll(root, dir, limits, Progress(disk, files, total), plan[i..], served[i..])
      {
        assert plan[i..][1..] == plan[i + 1..] && served[i..][1..] == served[i + 1..];
        var planned := plan[i];
        var parts := SafeRelativePath(planned.filename);
        if parts.None? {
          return Failed(BadFilename);
        }
        if planned.size.Some? && planned.size.value > limits.maxBytes {
          return Failed(FileTooLarge);
        }
        if served[i].None? {
          return Failed(FetchFailed);
        }
        var path, got := root + dir + parts.value, served[i].value;
        disk := disk[path := Asset(got.size)];
        total := total + got.size;
        if total > limits.maxTotal {
          return Failed(TotalTooLarge);
        }
        files := files + [File(Relative(root, path), got.size, got.sha256, planned.map_, got.mimeType)];
      }
      assert plan[|plan|..] == [] && served[|plan|..] == [];
      if manifest.Some? {
        disk := disk[root + dir + [MANIFEST] := Manifest(manifest.value, files)];
      }
      r := Downloaded(files, false, total);
    }

    method SumOf(files: seq<File>) returns (sum: nat)
      ensures sum == Total(files)
    {
      sum := 0;
      for i := 0 to |files|
        invariant sum == Total(files[..i])
      {
        assert files[..i + 1][..i] == files[..i];
        sum := sum + files[i].size;
      }
      assert files[..|files|] == files;
    }
  }

  // ---------------------------------------------------------------------------
  // What a download leaves behind
  // ---------------------------------------------------------------------------

  /** The disk after writing some files, a later one over an earlier one of the same path. */
  function Written(disk: Disk, root: Path, files: seq<File>): Disk
    decreases |files|
  {
    if files == [] then disk
    else
      Written(disk, root, files[..|files| - 1])[Resolve(root, files[|files| - 1].path) := Asset(files[|files| - 1].size)]
  }

  lemma {:induction false} WrittenJoins(disk: Disk, root: Path, one: seq<File>, f: File)
    ensures Written(disk, root, one + [f]) == Written(disk, root, one)[Resolve(root, f.path) := Asset(f.size)]
    ensures Total(one + [f]) == Total(one) + f.size
  {
    assert (one + [f])[..|one|] == one;
  }

  /** The path a planned file goes to, as its entry in the report says. */
  ghost predicate Matches(root: Path, dir: Path, planned: Planned, served: Served, f: File)
  {
    && Parts(planned.filename).Some? && served.Some?
    && Resolve(root, f.path) == root + dir + Parts(planned.filename).value
    && f.size == served.value.size && f.sha256 == served.value.sha256 && f.map_ == planned.map_
  }

  /** What a download has done by the time it stands at `p`, having begun at `disk`. */
  ghost predicate Honest(root: Path, disk: Disk, limits: Limits, p: Progress)
  {
    && p.disk == Written(disk, root, p.files) && p.total == Total(p.files)
    && (p.files != [] ==> p.total <= limits.maxTotal)
    && forall f | f in p.files :: Resolve(root, f.path) != [] && SafeName(LastOf(Resolve(root, f.path)))
  }

  function LastOf(path: Path): string
    requires path != []
  {
    path[|path| - 1]
  }

  lemma OneMoreIsHonest(root: Path, dir: Path, disk: Disk, limits: Limits, p: Progress, planned: Planned, served: Served)
    returns (f: File)
    requires Plain(dir) && Honest(root, disk, limits, p)
    requires OneMore(root, dir, limits, p, planned, served).1.None?
    ensures var next := OneMore(root, dir, limits, p, planned, served).0;
            && Honest(root, disk, limits, next) && next.files == p.files + [f] && Matches(root, dir, planned, served, f)
  {
    hide Parts, Resolve, Relative, Written, SafeName, Total;
    var parts := Parts(planned.filename).value;
    var next := OneMore(root, dir, limits, p, planned, served).0;
    f := next.files[|p.files|];
    PartsAreAccepted(planned.filename);
    DestinationIsPlain(dir, parts);
    RelativeLeadsBack(root, dir + parts);
    assert root + dir + parts == root + (dir + parts);
    assert LastOf(root + dir + parts) == parts[|parts| - 1];
    WrittenJoins(disk, root, p.files, f);
  }

  ghost predicate AllMatch(root: Path, dir: Path, plan: seq<Planned>, served: seq<Served>, files: seq<File>)
  {
    && |files| == |plan| == |served|
    && forall i | 0 <= i < |plan| :: Matches(root, dir, plan[i], served[i], files[i])
  }

  lemma AllMatchOneMore(root: Path, dir: Path, plan: seq<Planned>, served: seq<Served>, f: File, rest: seq<File>)
    requires plan != [] && served != [] && Matches(root, dir, plan[0], served[0], f)
    requires AllMatch(root, dir, plan[1..], served[1..], rest)
    ensures AllMatch(root, dir, plan, served, [f] + rest)
  {
    hide Matches;
    forall i | 0 <= i < |plan| ensures Matches(root, dir, plan[i], served[i], ([f] + rest)[i]) {
      if i > 0 { assert Matches(root, dir, plan[1..][i - 1], served[1..][i - 1], rest[i - 1]); }
    }
  }

  /** A download that succeeds reports one file for each planned one, in order, where and as it was written; the total
      is their sum, and within the limit. */
  lemma {:induction false} SuccessIsHonest(
    root: Path, dir: Path, disk: Disk, limits: Limits, p: Progress, plan: seq<Planned>, served: seq<Served>)
    returns (files: seq<File>)
    requires |served| == |plan| && Plain(dir) && Honest(root, disk, limits, p)
    requires FetchAll(root, dir, limits, p, plan, served).1.None?
    ensures var z := FetchAll(root, dir, limits, p, plan, served).0;
            && Honest(root, disk, limits, z) && z.files == p.files + files && AllMatch(root, dir, plan, served, files)
    decreases |plan|
  {
    hide Matches, Honest, OneMore;
    if plan == [] {
      files := [];
    } else {
      var next := OneMore(root, dir, limits, p, plan[0], served[0]).0;
      var f := OneMoreIsHonest(root, dir, disk, limits, p, plan[0], served[0]);
      var rest := SuccessIsHonest(root, dir, disk, limits, next, plan[1..], served[1..]);
      AllMatchOneMore(root, dir, plan, served, f, rest);
      files := [f] + rest;
    }
  }

  /** Whenever a path is listed twice, it is listed with the size it has the last time. */
  ghost predicate SizesAgree(root: Path, files: seq<File>)
  {
    forall i, j | 0 <= i < j < |files| && Resolve(root, files[i].path) == Resolve(root, files[j].path)
                  && (forall k | j < k < |files| :: Resolve(root, files[k].path) != Resolve(root, files[j].path)) ::
      files[i].size == files[j].size
  }

  /** The last of the files written to a path. */
  function LastTo(root: Path, files: seq<File>, path: Path): (j: int)
    ensures -1 <= j < |files|
    ensures j >= 0 ==> Resolve(root, files[j].path) == path
    ensures forall k | j < k < |files| :: Resolve(root, files[k].path) != path
  {
    if files == [] then -1
    else if Resolve(root, files[|files| - 1].path) == path then |files| - 1
    else LastTo(root, files[..|files| - 1], path)
  }

  lemma {:induction false} WrittenLast(disk: Disk, root: Path, files: seq<File>, path: Path)
    ensures var j := LastTo(root, files, path);
            if j < 0 then (path in Written(disk, root, files) <==> path in disk)
                          && (path in disk ==> Written(disk, root, files)[path] == disk[path])
            else path in Written(disk, root, files) && Written(disk, root, files)[path] == Asset(files[j].size)
    decreases |files|
  {
    if files != [] { WrittenLast(disk, root, files[..|files| - 1], path); }
  }

  /** After a successful download whose manifest was written, with nothing in between, the next unforced one answers
      from the cache exactly when there were files and no path was listed with two sizes; then it answers the same. */
  lemma NextRunHitsExactlyWhen(root: Path, dir: Path, disk: Disk, limits: Limits, p: Progress, size: nat)
    requires Honest(root, disk, limits, p)
    ensures var after := p.disk[root + dir + [MANIFEST] := Manifest(size, p.files)];
            && (CachedFiles(after, root, dir).Some? <==> p.files != [] && SizesAgree(root, p.files))
            && (CachedFiles(after, root, dir).Some? ==> CachedFiles(after, root, dir).value == p.files)
  {
    hide AllPresent, SizesAgree, Honest;
    AllPresentExactlyWhen(root, dir, disk, limits, p, size);
  }

  lemma AllPresentExactlyWhen(root: Path, dir: Path, disk: Disk, limits: Limits, p: Progress, size: nat)
    requires Honest(root, disk, limits, p)
    ensures AllPresent(p.disk[root + dir + [MANIFEST] := Manifest(size, p.files)], root, p.files) <==> SizesAgree(root, p.files)
  {
    hide Resolve, Present, LastTo, SafeName;
    var at := root + dir + [MANIFEST];
    var after := p.disk[at := Manifest(size, p.files)];
    forall i | 0 <= i < |p.files|
      ensures Present(after, root, p.files[i]) <==>
                p.files[i].size == p.files[LastTo(root, p.files, Resolve(root, p.files[i].path))].size
      ensures LastTo(root, p.files, Resolve(root, p.files[i].path)) >= i
    {
      PresentMeans(root, disk, p.files, i, at, Manifest(size, p.files));
    }
    PresentExactlyWhen(after, root, p.files);
  }

  lemma PresentMeans(root: Path, disk: Disk, files: seq<File>, i: nat, at: Path, manifest: Content)
    requires i < |files| && at != [] && LastOf(at) == MANIFEST
    requires Resolve(root, files[i].path) != [] && SafeName(LastOf(Resolve(root, files[i].path)))
    ensures var last := LastTo(root, files, Resolve(root, files[i].path));
            && last >= i
            && (Present(Written(disk, root, files)[at := manifest], root, files[i]) <==> files[i].size == files[last].size)
  {
    var path := Resolve(root, files[i].path);
    NoCollisions(LastOf(path), LastOf(path));
    WrittenLast(disk, root, files, path);
  }

  lemma PresentExactlyWhen(after: Disk, root: Path, files: seq<File>)
    requires forall i | 0 <= i < |files| ::
               && LastTo(root, files, Resolve(root, files[i].path)) >= i
               && (Present(after, root, files[i]) <==>
                     files[i].size == files[LastTo(root, files, Resolve(root, files[i].path))].size)
    ensures AllPresent(after, root, files) <==> SizesAgree(root, files)
  {
    if SizesAgree(root, files) {
      hide Resolve, Present, LastTo;
      forall f | f in files ensures Present(after, root, f) {
        var i :| 0 <= i < |files| && files[i] == f;
        var j := LastTo(root, files, Resolve(root, f.path));
        if i < j { assert files[i].size == files[j].size; }
      }
    }
    if AllPresent(after, root, files) { PresentAgree(after, root, files); }
  }

  lemma PresentAgree(after: Disk, root: Path, files: seq<File>)
    requires forall i | 0 <= i < |files| ::
               Present(after, root, files[i]) <==> files[i].size == files[LastTo(root, files, Resolve(root, files[i].path))].size
    requires forall i | 0 <= i < |files| :: LastTo(root, files, Resolve(root, files[i].path)) >= i
    requires AllPresent(after, root, files)
    ensures SizesAgree(root, files)
  {
    hide Resolve, Present, LastTo;
    forall i, j | 0 <= i < j < |files| && Resolve(root, files[i].path) == Resolve(root, files[j].path)
                  && (forall k | j < k < |files| :: Resolve(root, files[k].path) != Resolve(root, files[j].path))
      ensures files[i].size == files[j].size
    {
      assert files[i] in files;
      assert LastTo(root, files, Resolve(root, files[i].path)) == j;
    }
  }

  /** Distinct destinations are enough. */
  lemma DistinctPathsHit(root: Path, files: seq<File>)
    requires forall i, j | 0 <= i < j < |files| :: Resolve(root, files[i].path) != Resolve(root, files[j].path)
    ensures SizesAgree(root, files)
  {
  }

  /** Both runs together: a plan of distinct destinations, fetched once, is answered from the cache afterwards, with the
      same files and the same total. */
  lemma FetchedOnceIsReused(
    root: Path, dir: Path, disk: Disk, limits: Limits, plan: seq<Planned>, served: seq<Served>, size: nat)
    requires |served| == |plan| && plan != [] && Plain(dir)
    requires forall i, j | 0 <= i < j < |plan| :: Parts(plan[i].filename) != Parts(plan[j].filename)
    requires FetchAll(root, dir, limits, Progress(disk, [], 0), plan, served).1.None?
    ensures var p := FetchAll(root, dir, limits, Progress(disk, [], 0), plan, served).0;
            var after := p.disk[root + dir + [MANIFEST] := Manifest(size, p.files)];
            && CachedFiles(after, root, dir) == Some(p.files) && |p.files| == |plan|
            && p.total == Total(p.files) && p.total <= limits.maxTotal
  {
    var files, p := Landed(root, dir, disk, limits, plan, served);
    DistinctLandings(root, dir, plan, served, files);
    hide *;
    DistinctPathsHit(root, files);
    NextRunHitsExactlyWhen(root, dir, disk, limits, p, size);
  }

  lemma Landed(root: Path, dir: Path, disk: Disk, limits: Limits, plan: seq<Planned>, served: seq<Served>)
    returns (files: seq<File>, p: Progress)
    requires |served| == |plan| && plan != [] && Plain(dir)
    requires FetchAll(root, dir, limits, Progress(disk, [], 0), plan, served).1.None?
    ensures p == FetchAll(root, dir, limits, Progress(disk, [], 0), plan, served).0 && p.files == files != []
    ensures Honest(root, disk, limits, p) && AllMatch(root, dir, plan, served, files)
    ensures p.total == Total(files) && p.total <= limits.maxTotal && |files| == |plan|
  {
    var start := Progress(disk, [], 0);
    assert Honest(root, disk, limits, start);
    hide FetchAll, Resolve, Matches, Written;
    files := SuccessIsHonest(root, dir, disk, limits, start, plan, served);
    p := FetchAll(root, dir, limits, start, plan, served).0;
  }

  lemma DistinctLandings(root: Path, dir: Path, plan: seq<Planned>, served: seq<Served>, files: seq<File>)
    requires AllMatch(root, dir, plan, served, files)
    requires forall i, j | 0 <= i < j < |plan| :: Parts(plan[i].filename) != Parts(plan[j].filename)
    ensures forall i, j | 0 <= i < j < |files| :: Resolve(root, files[i].path) != Resolve(root, files[j].path)
  {
    hide Parts, Resolve;
    forall i, j | 0 <= i < j < |files| ensures Resolve(root, files[i].path) != Resolve(root, files[j].path) {
      assert Matches(root, dir, plan[i], served[i], files[i]) && Matches(root, dir, plan[j], served[j], files[j]);
      DistinctStay(root + dir, Parts(plan[i].filename).value, Parts(plan[j].filename).value);
    }
  }

  lemma DistinctStay(base: Path, a: Path, b: Path)
    requires a != b
    ensures base + a != base + b
  {
    assert (base + a)[|base|..] == a && (base + b)[|base|..] == b;
  }
}
