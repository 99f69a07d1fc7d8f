/** The store of edited libraries, with their ids (model/elf-cache.cc). */
module ElfCache {
  import opened Options

  datatype CachedFile = CachedFile(basename: string, id: nat, deps: seq<nat>)

  datatype Overriden = Overriden(from: string, to: string)

  const OVERRIDDEN: seq<Overriden> := [
    Overriden("libc.so.6", "libc-ns3.so"),
    Overriden("libpthread.so.0", "libpthread-ns3.so"),
    Overriden("librt.so.1", "librt-ns3.so"),
    Overriden("libm.so.6", "libm-ns3.so")]

  // ---------- names ----------

  /** What follows the last slash. */
  function GetBasename(filename: string): (r: string)
    ensures '/' !in r
    ensures r == filename || (|r| < |filename| && filename[|filename| - |r| - 1] == '/')
    ensures |r| <= |filename|
  {
    if filename == [] || filename[|filename| - 1] == '/' then []
    else GetBasename(filename[..|filename| - 1]) + [filename[|filename| - 1]]
  }

  lemma BasenameNext(filename: string, c: char)
    requires c != '/'
    ensures GetBasename(filename + [c]) == GetBasename(filename) + [c]
  {
    assert (filename + [c])[..|filename|] == filename;
  }

  lemma BasenameOfDirectory(directory: string)
    requires directory == [] || directory[|directory| - 1] == '/'
    ensures GetBasename(directory) == []
  {
  }

  /** A file found in a directory has the name that was looked for. */
  lemma {:induction false} BasenameInDirectory(directory: string, name: string)
    requires '/' !in name
    requires directory == [] || directory[|directory| - 1] == '/'
    ensures GetBasename(directory + name) == name
  {
    hide GetBasename;
    if name == [] {
      BasenameOfDirectory(directory);
      assert directory + name == directory;
    } else {
      var init, c := name[..|name| - 1], name[|name| - 1];
      BasenameInDirectory(directory, init);
      BasenameNext(directory + init, c);
      assert directory + init + [c] == directory + name && init + [c] == name;
    }
  }

  predicate Overrides(overridden: seq<Overriden>, name: string) {
    exists i :: 0 <= i < |overridden| && overridden[i].from == name
  }

  /** The replacement of a name, if there is one. */
  function Canon(overridden: seq<Overriden>, name: string): string {
    if overridden == [] then name
    else if overridden[0].from == name then overridden[0].to
    else Canon(overridden[1..], name)
  }

  /** Replacements are never replaced in turn. */
  ghost predicate OneStep(overridden: seq<Overriden>) {
    forall i, j | 0 <= i < |overridden| && 0 <= j < |overridden| :: overridden[i].to != overridden[j].from
  }

  /** The names in the table are told apart by their lengths. */
  lemma OverriddenLengths()
    ensures |OVERRIDDEN[0].from| == 9 && |OVERRIDDEN[1].from| == 15
    ensures |OVERRIDDEN[2].from| == 10 && |OVERRIDDEN[3].from| == 9
    ensures forall i | 0 <= i < |OVERRIDDEN| :: |OVERRIDDEN[i].to| !in {9, 10, 15}
  {
  }

  lemma OverriddenOneStep()
    ensures OneStep(OVERRIDDEN)
  {
    OverriddenLengths();
    LengthsDiffer(OVERRIDDEN, {9, 10, 15});
  }

  lemma LengthsDiffer(overridden: seq<Overriden>, lengths: set<nat>)
    requires forall i | 0 <= i < |overridden| :: |overridden[i].from| in lengths && |overridden[i].to| !in lengths
    ensures OneStep(overridden)
  {
  }

  /** A name of another length is not replaced. */
  lemma NotReplaced(overridden: seq<Overriden>, name: string)
    requires forall i | 0 <= i < |overridden| :: |overridden[i].from| != |name|
    ensures !Overrides(overridden, name) && Canon(overridden, name) == name
  {
    hide Canon;
    CanonCases(overridden, name);
  }

  lemma {:induction false} CanonCases(overridden: seq<Overriden>, name: string)
    ensures !Overrides(overridden, name) ==> Canon(overridden, name) == name
    ensures Overrides(overridden, name) ==>
              exists i :: 0 <= i < |overridden| && Canon(overridden, name) == overridden[i].to
  {
    if overridden != [] && overridden[0].from != name {
      var rest := overridden[1..];
      CanonCases(rest, name);
      if Overrides(overridden, name) {
        var i :| 0 <= i < |overridden| && overridden[i].from == name;
        assert rest[i - 1].from == name;
        var j :| 0 <= j < |rest| && Canon(rest, name) == rest[j].to;
        assert overridden[j + 1].to == rest[j].to;
      } else {
        forall i | 0 <= i < |rest|
          ensures rest[i].from != name
        {
          assert overridden[i + 1] == rest[i];
        }
      }
    } else if overridden != [] {
      assert overridden[0].from == name;
    }
  }

  lemma {:induction false} CanonFirst(overridden: seq<Overriden>, i: nat, name: string)
    requires i < |overridden| && overridden[i].from == name
    requires forall j | 0 <= j < i :: overridden[j].from != name
    ensures Canon(overridden, name) == overridden[i].to
  {
    if i > 0 {
      assert forall j | 0 <= j < i - 1 :: overridden[1..][j] == overridden[j + 1];
      CanonFirst(overridden[1..], i - 1, name);
    }
  }

  /** The four names that are replaced, and by what; no other name is. */
  lemma ReplacedNames(name: string)
    ensures Canon(OVERRIDDEN, "libc.so.6") == "libc-ns3.so" && Canon(OVERRIDDEN, "libm.so.6") == "libm-ns3.so"
    ensures Canon(OVERRIDDEN, "libpthread.so.0") == "libpthread-ns3.so"
    ensures Canon(OVERRIDDEN, "librt.so.1") == "librt-ns3.so"
    ensures name !in {"libc.so.6", "libpthread.so.0", "librt.so.1", "libm.so.6"} ==>
              Canon(OVERRIDDEN, name) == name && !Overrides(OVERRIDDEN, name)
  {
    hide Canon;
    OverriddenLengths();
    assert OVERRIDDEN[0].from[3] != OVERRIDDEN[3].from[3];
    CanonFirst(OVERRIDDEN, 0, "libc.so.6");
    CanonFirst(OVERRIDDEN, 1, "libpthread.so.0");
    CanonFirst(OVERRIDDEN, 2, "librt.so.1");
    CanonFirst(OVERRIDDEN, 3, "libm.so.6");
    CanonCases(OVERRIDDEN, name);
  }

  // ---------- the store ----------

  predicate Has(files: seq<CachedFile>, basename: string) {
    exists i :: 0 <= i < |files| && files[i].basename == basename
  }

  /** The id under which a basename is stored. */
  function IdOf(files: seq<CachedFile>, basename: string): (r: Option<nat>)
    ensures r.Some? <==> Has(files, basename)
    ensures r.Some? ==> exists i :: 0 <= i < |files| && files[i].basename == basename && files[i].id == r.value
  {
    if files == [] then None
    else if files[0].basename == basename then Some(files[0].id)
    else
      var r := IdOf(files[1..], basename);
      assert forall i | 1 <= i < |files| :: files[i] == files[1..][i - 1];
      assert forall i | 0 <= i < |files[1..]| :: files[1..][i] == files[i + 1];
      r
  }

  lemma {:induction false} IdOfAt(files: seq<CachedFile>, i: nat)
    requires i < |files| && forall j | 0 <= j < i :: files[j].basename != files[i].basename
    ensures IdOf(files, files[i].basename) == Some(files[i].id)
  {
    if i > 0 {
      assert files[1..][i - 1] == files[i];
      assert forall j | 0 <= j < i - 1 :: files[1..][j] == files[j + 1];
      IdOfAt(files[1..], i - 1);
    }
  }

  /** Names keep their ids as files are added. */
  lemma {:induction false} IdOfGrows(files: seq<CachedFile>, more: seq<CachedFile>, basename: string)
    requires Has(files, basename)
    ensures IdOf(files + more, basename) == IdOf(files, basename)
  {
    var i :| 0 <= i < |files| && files[i].basename == basename;
    if files[0].basename != basename {
      assert files[1..][i - 1].basename == basename;
      assert (files + more)[1..] == files[1..] + more;
      IdOfGrows(files[1..], more, basename);
    }
  }

  /** The dynamic linker itself is not a library to be edited. */
  predicate Linker(name: string) {
    name == "ld-linux-x86-64.so.2" || name == "ld-linux.so.2"
  }

  function Kept(needed: seq<string>): (r: seq<string>)
    ensures forall n :: n in r <==> n in needed && !Linker(n)
  {
    if needed == [] then []
    else if Linker(needed[|needed| - 1]) then Kept(needed[..|needed| - 1])
    else Kept(needed[..|needed| - 1]) + [needed[|needed| - 1]]
  }

  /** Name by name, in order; only the linker's are left out. */
  lemma KeptNext(needed: seq<string>, name: string)
    ensures Kept([]) == []
    ensures Kept(needed + [name]) ==
            if name == "ld-linux-x86-64.so.2" || name == "ld-linux.so.2" then Kept(needed) else Kept(needed) + [name]
  {
    assert (needed + [name])[..|needed|] == needed;
  }

  /** The recorded dependencies of a file are the ids of what it needs, in order. */
  ghost predicate Linked(files: seq<CachedFile>, overridden: seq<Overriden>, deps: seq<nat>, needed: seq<string>) {
    && |deps| == |Kept(needed)|
    && forall k | 0 <= k < |deps| :: IdOf(files, Canon(overridden, Kept(needed)[k])) == Some(deps[k])
  }

  /** Everything a file needs has been stored. */
  ghost predicate Editable(files: seq<CachedFile>, overridden: seq<Overriden>, needed: seq<string>) {
    forall n | n in Kept(needed) :: Has(files, Canon(overridden, n))
  }

  ghost predicate FileOk(files: seq<CachedFile>, overridden: seq<Overriden>, origin: map<string, seq<string>>,
                         last: nat, i: nat)
    requires i < |files|
  {
    && files[i].id <= last && !Overrides(overridden, files[i].basename)
    && (forall j | 0 <= j < i :: files[j].basename != files[i].basename && files[j].id < files[i].id)
    && files[i].basename in origin && Linked(files[..i], overridden, files[i].deps, origin[files[i].basename])
  }

  /** Basenames are distinct, ids increase, and the dependencies of every file are files
      stored before it.  `origin` remembers what each file needed when it was added. */
  ghost predicate StoreOk(files: seq<CachedFile>, overridden: seq<Overriden>, origin: map<string, seq<string>>,
                          last: nat) {
    && OneStep(overridden)
    && forall i: nat {:trigger FileOk(files, overridden, origin, last, i)} | i < |files| ::
         FileOk(files, overridden, origin, last, i)
  }

  lemma StoreGrows(files: seq<CachedFile>, overridden: seq<Overriden>, origin: map<string, seq<string>>, last: nat,
                   e: CachedFile, needed: seq<string>)
    requires StoreOk(files, overridden, origin, last)
    requires !Has(files, e.basename) && !Overrides(overridden, e.basename) && e.id == last + 1
    requires Linked(files, overridden, e.deps, needed)
    ensures StoreOk(files + [e], overridden, origin[e.basename := needed], last + 1)
  {
    var files' := files + [e];
    forall i: nat {:trigger FileOk(files', overridden, origin[e.basename := needed], last + 1, i)} | i < |files'|
      ensures FileOk(files', overridden, origin[e.basename := needed], last + 1, i)
    {
      if i < |files| {
        assert FileOk(files, overridden, origin, last, i) && files'[..i] == files[..i] && files'[i] == files[i];
      } else {
        assert files'[..i] == files;
        forall j | 0 <= j < i
          ensures files'[j].id < e.id
        {
          assert FileOk(files, overridden, origin, last, j) && files'[j] == files[j];
        }
      }
    }
  }

  /** What adding a file may do: find an entry under its name or its replacement's name,
      or append one when everything it needs is in store, or fail and leave the store. */
  ghost predicate AddOutcome(overridden: seq<Overriden>, files0: seq<CachedFile>, origin0: map<string, seq<string>>,
                             basename: string, needed: seq<string>,
                             files1: seq<CachedFile>, origin1: map<string, seq<string>>, r: Option<CachedFile>) {
    var name := Canon(overridden, basename);
    && (r.Some? <==> (Has(files0, name) || (!Overrides(overridden, basename) && Editable(files0, overridden, needed))))
    && (r.Some? ==> r.value in files1 && r.value.basename == name && IdOf(files1, name) == Some(r.value.id))
    && (if Has(files0, name) || r.None? then files1 == files0 && origin1 == origin0
        else files1 == files0 + [r.value] && origin1 == origin0[basename := needed])
  }

  lemma AddHit(overridden: seq<Overriden>, files: seq<CachedFile>, origin: map<string, seq<string>>, basename: string,
               needed: seq<string>, r: Option<CachedFile>)
    requires r.Some? || Overrides(overridden, basename)
    requires r.Some? <==> Has(files, Canon(overridden, basename))
    requires r.Some? ==>
               && r.value in files && r.value.basename == Canon(overridden, basename)
               && IdOf(files, r.value.basename) == Some(r.value.id)
    ensures AddOutcome(overridden, files, origin, basename, needed, files, origin, r)
  {
  }

  lemma AddFails(overridden: seq<Overriden>, files: seq<CachedFile>, origin: map<string, seq<string>>,
                 basename: string, needed: seq<string>)
    requires !Has(files, Canon(overridden, basename)) && !Editable(files, overridden, needed)
    ensures AddOutcome(overridden, files, origin, basename, needed, files, origin, None)
  {
  }

  lemma AddNew(overridden: seq<Overriden>, files: seq<CachedFile>, origin: map<string, seq<string>>, basename: string,
               needed: seq<string>, e: CachedFile)
    requires !Overrides(overridden, basename) && Canon(overridden, basename) == basename
    requires !Has(files, basename) && Editable(files, overridden, needed) && e.basename == basename
    ensures AddOutcome(overridden, files, origin, basename, needed, files + [e], origin[basename := needed], Some(e))
  {
    var files' := files + [e];
    assert files'[|files|] == e;
    assert forall j | 0 <= j < |files| :: files'[j] == files[j];
    IdOfAt(files', |files|);
  }

  lemma StoreFacts(files: seq<CachedFile>, overridden: seq<Overriden>, origin: map<string, seq<string>>, last: nat)
    requires StoreOk(files, overridden, origin, last)
    ensures OneStep(overridden)
  {
  }

  lemma StoreLast(files: seq<CachedFile>, overridden: seq<Overriden>, origin: map<string, seq<string>>, last: nat,
                  more: nat)
    requires StoreOk(files, overridden, origin, last) && last <= more
    ensures StoreOk(files, overridden, origin, more)
  {
    forall i: nat {:trigger FileOk(files, overridden, origin, more, i)} | i < |files|
      ensures FileOk(files, overridden, origin, more, i)
    {
      assert FileOk(files, overridden, origin, last, i);
    }
  }

  class ElfCache {
    const overridden: seq<Overriden>
    var files: seq<CachedFile>
    var last: nat
    ghost var origin: map<string, seq<string>>

    ghost predicate Valid()
      reads this
    {
      StoreOk(files, overridden, origin, last)
    }

    constructor ()
      ensures Valid() && overridden == OVERRIDDEN && files == [] && last == 0 && origin == map[]
    {
      overridden, files, last, origin := OVERRIDDEN, [], 0, map[];
      OverriddenOneStep();
    }

    method AllocateId() returns (id: nat)
      modifies this`last
      ensures id == last == old(last) + 1
    {
      last := last + 1;
      id := last;
    }

    method Search(basename: string) returns (found: Option<CachedFile>)
      ensures found.Some? <==> Has(files, basename)
      ensures found.Some? ==>
                && found.value in files && found.value.basename == basename
                && IdOf(files, basename) == Some(found.value.id)
    {
      for i := 0 to |files|
        invariant forall j | 0 <= j < i :: files[j].basename != basename
      {
        if files[i].basename == basename {
          IdOfAt(files, i);
          return Some(files[i]);
        }
      }
      return None;
    }

    /** The id of a dependency, after replacement; none if it was never added. */
    method GetDepId(name: string) returns (id: Option<nat>)
      requires OneStep(overridden)
      ensures id == IdOf(files, Canon(overridden, name))
    {
      var depname := name;
      CanonCases(overridden, name);
      for i := 0 to |overridden|
        invariant if forall j | 0 <= j < i :: overridden[j].from != name then depname == name
                  else depname == Canon(overridden, name)
      {
        if overridden[i].from == depname {
          if forall j | 0 <= j < i :: overridden[j].from != name {
            CanonFirst(overridden, i, name);
          }
          depname := overridden[i].to;
        }
      }
      var found := Search(depname);
      return if found.Some? then Some(found.value.id) else None;
    }

    /** Replaces the needed names of a file by ids. */
    method EditBuffer(needed: seq<string>) returns (deps: Option<seq<nat>>)
      requires OneStep(overridden)
      ensures deps.Some? <==> Editable(files, overridden, needed)
      ensures deps.Some? ==> Linked(files, overridden, deps.value, needed)
    {
      var r: seq<nat> := [];
      for cur := 0 to |needed|
        invariant Linked(files, overridden, r, needed[..cur])
        invariant forall n | n in Kept(needed[..cur]) :: Has(files, Canon(overridden, n))
      {
        var name := needed[cur];
        assert needed[..cur + 1][..cur] == needed[..cur];
        if !Linker(name) {
          var id := GetDepId(name);
          if id.None? {
            assert name in Kept(needed);
            return None;
          }
          r := r + [id.value];
        }
      }
      assert needed[..|needed|] == needed;
      return Some(r);
    }

    /** The entry of the replacement of a file, if there is a rule for it. */
    method SearchReplacement(basename: string) returns (replaced: bool, r: Option<CachedFile>)
      ensures replaced <==> Overrides(overridden, basename)
      ensures replaced ==> (r.Some? <==> Has(files, Canon(overridden, basename)))
      ensures replaced && r.Some? ==>
                && r.value in files && r.value.basename == Canon(overridden, basename)
                && IdOf(files, r.value.basename) == Some(r.value.id)
    {
      for i := 0 to |overridden|
        invariant forall j | 0 <= j < i :: overridden[j].from != basename
      {
        if overridden[i].from == basename {
          CanonFirst(overridden, i, basename);
          r := Search(overridden[i].to);
          return true, r;
        }
      }
      return false, None;
    }

    /** The entry of a file: that of its replacement, the one already in store, or a new
        one.  None stands for a failed assertion: a replacement or a dependency was never
        added. */
    method Add(filename: string, needed: seq<string>) returns (r: Option<CachedFile>)
      requires Valid()
      modifies this`files, this`last, this`origin
      ensures Valid()
      ensures AddOutcome(overridden, old(files), old(origin), GetBasename(filename), needed, files, origin, r)
    {
      StoreFacts(files, overridden, origin, last);
      hide StoreOk, Editable, Linked, Has, AddOutcome, Overrides, IdOf, Canon, GetBasename;
      var basename := GetBasename(filename);
      CanonCases(overridden, basename);
      var replaced, entry := SearchReplacement(basename);
      if replaced {
        AddHit(overridden, files, origin, basename, needed, entry);
        return entry;
      }
      r := Search(basename);
      if r.Some? {
        AddHit(overridden, files, origin, basename, needed, r);
        return;
      }
      var selfId := AllocateId();
      var deps := EditBuffer(needed);
      if deps.None? {
        StoreLast(files, overridden, origin, old(last), last);
        AddFails(overridden, files, origin, basename, needed);
        return None;
      }
      var cached := CachedFile(basename, selfId, deps.value);
      StoreGrows(files, overridden, origin, old(last), cached, needed);
      AddNew(overridden, files, origin, basename, needed, cached);
      files, origin := files + [cached], origin[basename := needed];
      return Some(cached);
    }
  }

  // ---------- a replaced library ----------

  /** The store with the replacement of the C library, added first. */
  method StoreReplacement(directory: string) returns (cache: ElfCache, replacement: CachedFile)
    requires directory != [] && directory[|directory| - 1] == '/'
    ensures fresh(cache) && cache.Valid() && cache.overridden == OVERRIDDEN && cache.files == [replacement]
    ensures replacement.basename == "libc-ns3.so"
  {
    hide Canon, Kept, GetBasename;
    ReplacedNames("libc-ns3.so");
    BasenameInDirectory(directory, "libc-ns3.so");
    cache := new ElfCache();
    var first := cache.Add(directory + "libc-ns3.so", []);
    replacement := first.value;
  }

  lemma FindsReplacement(e: CachedFile, origin: map<string, seq<string>>, files: seq<CachedFile>,
                         origin': map<string, seq<string>>, r: Option<CachedFile>)
    requires e.basename == "libc-ns3.so" && AddOutcome(OVERRIDDEN, [e], origin, "libc.so.6", [], files, origin', r)
    ensures files == [e] && r == Some(e)
  {
    hide Canon, IdOf, Kept;
    ReplacedNames("libc.so.6");
    OnlyOne(e);
  }

  const NEEDED := ["libc.so.6", "ld-linux-x86-64.so.2"]

  lemma NeededIsKept()
    ensures Kept(NEEDED) == ["libc.so.6"]
  {
    hide Kept;
    KeptNext(["libc.so.6"], "ld-linux-x86-64.so.2");
    KeptNext([], "libc.so.6");
    assert [] + ["libc.so.6"] == ["libc.so.6"];
    assert ["libc.so.6"] + ["ld-linux-x86-64.so.2"] == NEEDED;
  }

  lemma ProgramIsNew(e: CachedFile, origin: map<string, seq<string>>, files: seq<CachedFile>,
                     origin': map<string, seq<string>>, r: Option<CachedFile>)
    requires e.basename == "libc-ns3.so" && AddOutcome(OVERRIDDEN, [e], origin, "prog", NEEDED, files, origin', r)
    ensures r.Some? && files == [e, r.value] && r.value.basename == "prog" && origin' == origin["prog" := NEEDED]
  {
    hide Canon, IdOf, Kept;
    ReplacedNames("prog");
    OnlyOne(e);
    NeededIsKept();
    assert Editable([e], OVERRIDDEN, NEEDED);
    assert [e] + [r.value] == [e, r.value];
  }

  lemma LinkedToReplacement(e: CachedFile, origin: map<string, seq<string>>, files: seq<CachedFile>,
                            origin': map<string, seq<string>>, last: nat, r: Option<CachedFile>)
    requires e.basename == "libc-ns3.so" && StoreOk(files, OVERRIDDEN, origin', last)
    requires AddOutcome(OVERRIDDEN, [e], origin, "prog", NEEDED, files, origin', r)
    ensures r.Some? && r.value.basename == "prog" && r.value.deps == [e.id]
  {
    hide Canon, IdOf, Kept, AddOutcome;
    ProgramIsNew(e, origin, files, origin', r);
    ReplacedNames("prog");
    OnlyOne(e);
    NeededIsKept();
    assert FileOk(files, OVERRIDDEN, origin', last, 1);
    assert files[..1] == [e];
  }

  /** Once the replacement of the C library is in store, that is what its name stands for,
      for whoever looks it up, adds it, or needs it. */
  method ReplacedLibrary(directory: string)
    returns (replacement: CachedFile, found: Option<nat>, added: Option<CachedFile>, program: Option<CachedFile>)
    requires directory != [] && directory[|directory| - 1] == '/'
    ensures replacement.basename == "libc-ns3.so" && found == Some(replacement.id) && added == Some(replacement)
    ensures program.Some? && program.value.basename == "prog" && program.value.deps == [replacement.id]
  {
    var cache;
    cache, replacement := StoreReplacement(directory);
    hide *;
    BasenameInDirectory(directory, "libc.so.6");
    BasenameInDirectory(directory, "prog");
    ReplacedNames("libc.so.6");
    OnlyOne(replacement);
    OverriddenOneStep();
    found := cache.GetDepId("libc.so.6");
    ghost var origin := cache.origin;
    added := cache.Add(directory + "libc.so.6", []);
    FindsReplacement(replacement, origin, cache.files, cache.origin, added);
    origin := cache.origin;
    program := cache.Add(directory + "prog", NEEDED);
    StoreIsOk(cache);
    LinkedToReplacement(replacement, origin, cache.files, cache.origin, cache.last, program);
  }

  lemma StoreIsOk(cache: ElfCache)
    requires cache.Valid()
    ensures StoreOk(cache.files, cache.overridden, cache.origin, cache.last)
  {
  }

  lemma OnlyOne(e: CachedFile)
    ensures IdOf([e], e.basename) == Some(e.id) && forall name | name != e.basename :: !Has([e], name)
    ensures Has([e], e.basename)
  {
    assert [e][0] == e;
    IdOfAt([e], 0);
  }

  // ---------- the names written over the needed names ----------

  /** A digit in base 60.  For 60, which the assertion lets through, there is none. */
  function NumberToChar(c: nat): (r: nat)
    requires c <= 60
    ensures r == 0 <==> c == 60
  {
    if c < 10 then c + 0x30
    else if c < 35 then c - 10 + 0x41
    else if c < 60 then c - 35 + 0x61
    else 0
  }

  lemma DigitsDiffer(c: nat, d: nat)
    requires c <= 60 && d <= 60 && NumberToChar(c) == NumberToChar(d)
    ensures c == d
  {
  }

  const LIMIT := 60 * 60 * 60 * 60

  /** The four characters that stand for an id; none if there are too many ids. */
  function WriteString(uid: nat): (r: Option<(nat, nat, nat, nat)>)
    ensures r.Some? <==> uid < LIMIT
  {
    if uid >= LIMIT then None
    else Some((NumberToChar(uid / 216000 % 60), NumberToChar(uid / 3600 % 60), NumberToChar(uid / 60 % 60),
               NumberToChar(uid % 60)))
  }

  /** Different libraries get different names, and no name is cut short by a NUL. */
  lemma NamesAreUnique(a: nat, b: nat)
    requires a < LIMIT && b < LIMIT
    ensures WriteString(a) == WriteString(b) ==> a == b
    ensures var n := WriteString(a).value; n.0 != 0 && n.1 != 0 && n.2 != 0 && n.3 != 0
  {
    if WriteString(a) == WriteString(b) {
      DigitsDiffer(a / 216000 % 60, b / 216000 % 60);
      DigitsDiffer(a / 3600 % 60, b / 3600 % 60);
      DigitsDiffer(a / 60 % 60, b / 60 % 60);
      DigitsDiffer(a % 60, b % 60);
      FourDigits(a);
      FourDigits(b);
    }
  }

  lemma FourDigits(a: nat)
    requires a < LIMIT
    ensures a == 216000 * (a / 216000 % 60) + 3600 * (a / 3600 % 60) + 60 * (a / 60 % 60) + a % 60
  {
    assert a / 3600 == a / 60 / 60;
    assert a / 216000 == a / 3600 / 60;
  }
}
