/** The descriptor tables of the processes and the counts of the files behind them
    (model/dce-fd.cc, model/file-usage.cc, model/dce-manager.cc). */
module Descriptors {
  import opened FileRuns

  /** An entry of a table; `count` threads are using it, and `closing` says that it was
      closed meanwhile. */
  class FileUsage {
    const file: FileId
    var count: nat
    var closing: bool

    constructor (file: FileId)
      ensures this.file == file && count == 0 && !closing
    {
      this.file, count, closing := file, 0, false;
    }

    method IncUsage()
      modifies this`count
      ensures count == old(count) + 1
    {
      count := count + 1;
    }

    /** True if nobody is left who uses a closed entry. */
    method DecUsage() returns (last: bool)
      requires count > 0
      modifies this`count
      ensures count == old(count) - 1 && last == (count == 0 && closing)
    {
      count := count - 1;
      return count == 0 && closing;
    }

    /** Whether the entry can go at once; if not, it is marked to go with its last user. */
    method CanForget() returns (ok: bool)
      modifies this`closing
      ensures ok == (count == 0) && closing == (old(closing) || !ok)
    {
      if count == 0 {
        return true;
      }
      closing := true;
      return false;
    }

    method NullifyUsage()
      modifies this`count
      ensures count == 0
    {
      count := 0;
    }
  }

  /** A file; it is freed with its last reference. */
  datatype UnixFd = UnixFd(fdCount: int, refs: int)

  /** The tables of all processes. */
  type Tables = map<Key, FileUsage>

  const MAX_FDS := 1024

  ghost function EntrySet(open: Tables, f: FileId): set<Key> {
    set k | k in open && open[k].file == f
  }

  ghost function Entries(open: Tables, f: FileId): nat {
    |EntrySet(open, f)|
  }

  lemma EntriesInsert(open: Tables, k: Key, u: FileUsage, f: FileId)
    requires k !in open
    ensures Entries(open[k := u], f) == Entries(open, f) + (if u.file == f then 1 else 0)
  {
    if u.file == f {
      assert EntrySet(open[k := u], f) == EntrySet(open, f) + {k};
    } else {
      assert EntrySet(open[k := u], f) == EntrySet(open, f);
    }
  }

  lemma EntriesRemove(open: Tables, k: Key, f: FileId)
    requires k in open
    ensures Entries(open, f) == Entries(open - {k}, f) + (if open[k].file == f then 1 else 0)
  {
    if open[k].file == f {
      assert EntrySet(open, f) == EntrySet(open - {k}, f) + {k};
    } else {
      assert EntrySet(open, f) == EntrySet(open - {k}, f);
    }
  }

  ghost predicate FileOk(open: Tables, files: map<FileId, UnixFd>, f: FileId)
    requires f in files
  {
    files[f].fdCount == files[f].refs == Entries(open, f) && Entries(open, f) > 0
  }

  /** Both counts of every file are the number of entries, over all processes, that point
      to it; a file exists as long as there are any. */
  ghost predicate Counted(open: Tables, files: map<FileId, UnixFd>, next: FileId) {
    && (forall f {:trigger FileOk(open, files, f)} | f in files :: FileOk(open, files, f) && f < next)
    && forall k | k in open :: open[k].file in files
  }

  /** The files after the destructor of an entry. */
  function Dropped(files: map<FileId, UnixFd>, f: FileId): map<FileId, UnixFd>
    requires f in files
  {
    if files[f].refs == 1 then files - {f}
    else files[f := UnixFd(files[f].fdCount - 1, files[f].refs - 1)]
  }

  lemma DropKeepsCounted(open: Tables, files: map<FileId, UnixFd>, next: FileId, k: Key)
    requires Counted(open, files, next) && k in open
    ensures open[k].file in files && Counted(open - {k}, Dropped(files, open[k].file), next)
    ensures files[open[k].file].refs == 1 <==> Entries(open, open[k].file) == 1
  {
    var f := open[k].file;
    assert FileOk(open, files, f);
    forall g | g in Dropped(files, f)
      ensures FileOk(open - {k}, Dropped(files, f), g) && g < next
    {
      assert FileOk(open, files, g);
      EntriesRemove(open, k, g);
    }
    EntriesRemove(open, k, f);
    if files[f].refs == 1 {
      forall j | j in open - {k}
        ensures open[j].file != f
      {
        assert EntrySet(open - {k}, f) == {};
        assert j !in EntrySet(open - {k}, f);
      }
    }
  }

  lemma ShareKeepsCounted(open: Tables, files: map<FileId, UnixFd>, next: FileId, k: Key, u: FileUsage)
    requires Counted(open, files, next) && k !in open && u.file in files
    ensures Counted(open[k := u], files[u.file := UnixFd(files[u.file].fdCount + 1, files[u.file].refs + 1)], next)
  {
    var files' := files[u.file := UnixFd(files[u.file].fdCount + 1, files[u.file].refs + 1)];
    forall g | g in files'
      ensures FileOk(open[k := u], files', g) && g < next
    {
      assert FileOk(open, files, g);
      EntriesInsert(open, k, u, g);
    }
  }

  lemma NewKeepsCounted(open: Tables, files: map<FileId, UnixFd>, next: FileId, k: Key, u: FileUsage)
    requires Counted(open, files, next) && k !in open && u.file == next
    ensures Counted(open[k := u], files[next := UnixFd(1, 1)], next + 1)
  {
    var files' := files[next := UnixFd(1, 1)];
    forall j | j in open
      ensures open[j].file != next
    {
      assert FileOk(open, files, open[j].file);
    }
    assert EntrySet(open, next) == {};
    forall g | g in files'
      ensures FileOk(open[k := u], files', g) && g < next + 1
    {
      assert g in files ==> FileOk(open, files, g);
      EntriesInsert(open, k, u, g);
    }
  }

  /** The child has an entry for the file of each of the parent's entries not in `rest`;
      everything else is as it was. */
  ghost predicate ClonedTo(was: Tables, open: Tables, p: Pid, child: Pid, rest: set<Key>) {
    && (forall k: Key :: k in open <==>
         if k.pid == child then Key(p, k.fd) in was && Key(p, k.fd) !in rest else k in was)
    && (forall k: Key | k in open ::
         if k.pid == child then open[k].file == was[Key(p, k.fd)].file else open[k] == was[k])
  }

  lemma CloneStarts(open: Tables, p: Pid, child: Pid, rest: set<Key>)
    requires p != child && (forall k: Key :: k in rest <==> k in open && k.pid == p)
    requires forall k | k in open :: k.pid != child
    ensures ClonedTo(open, open, p, child, rest)
  {
    assert forall k: Key :: k in open && k.pid == p ==> k == Key(p, k.fd);
  }

  lemma CloneNext(was: Tables, open: Tables, p: Pid, child: Pid, rest: set<Key>, k: Key)
    requires ClonedTo(was, open, p, child, rest) && p != child && k in rest && k in was && k.pid == p
    ensures k in open && open[k] == was[k] && Key(child, k.fd) !in open
  {
    assert k == Key(p, k.fd);
  }

  lemma CloneStep(was: Tables, open: Tables, open': Tables, p: Pid, child: Pid, rest: set<Key>, k: Key)
    requires ClonedTo(was, open, p, child, rest) && p != child && k in rest && k in was && k.pid == p
    requires open'.Keys == open.Keys + {Key(child, k.fd)} && (forall j | j in open :: open'[j] == open[j])
    requires open'[Key(child, k.fd)].file == was[k].file
    ensures ClonedTo(was, open', p, child, rest - {k})
  {
    assert k == Key(p, k.fd);
    forall j: Key
      ensures j in open' <==> if j.pid == child then Key(p, j.fd) in was && Key(p, j.fd) !in rest - {k} else j in was
    {
      assert j in open' <==> j in open || j == Key(child, k.fd);
    }
  }

  lemma FileExists(open: Tables, files: map<FileId, UnixFd>, next: FileId, k: Key)
    requires Counted(open, files, next) && k in open
    ensures open[k].file in files && open[k].file < next
    ensures files[open[k].file].fdCount == Entries(open, open[k].file)
  {
    assert FileOk(open, files, open[k].file);
  }

  /** The entries as plain values. */
  ghost function Values(open: Tables): map<Key, Entry>
    reads open.Values
  {
    map k | k in open :: Entry(open[k].file, open[k].count, open[k].closing)
  }

  lemma ValuesAt(open: Tables, k: Key)
    requires k in open
    ensures k in Values(open) && Values(open)[k] == Entry(open[k].file, open[k].count, open[k].closing)
  {
  }

  lemma FileInTables(open: Tables, files: map<FileId, UnixFd>, next: FileId, f: FileId)
    requires Counted(open, files, next)
    ensures f in files <==> InTables(Values(open), f)
  {
    if f in files {
      assert FileOk(open, files, f);
      if EntrySet(open, f) != {} {
        var k :| k in EntrySet(open, f);
        assert k in Values(open) && Values(open)[k].file == f;
      }
    }
    if InTables(Values(open), f) {
      var k :| k in Values(open) && Values(open)[k].file == f;
    }
  }

  lemma OnlyEntry(open: Tables, k: Key)
    requires k in open
    ensures Only(Values(open), k) <==> Entries(open, open[k].file) == 1
  {
    var keys := EntrySet(open, open[k].file);
    assert k in keys;
    if Only(Values(open), k) {
      forall j | j in keys
        ensures j == k
      {
        assert Values(open)[j].file == Values(open)[k].file;
      }
      assert keys == {k};
    } else {
      var j :| j in Values(open) && Values(open)[j].file == Values(open)[k].file && j != k;
      assert j in keys && k in keys - {j} && |keys - {j}| == |keys| - 1;
    }
  }

  ghost predicate Distinct(open: Tables) {
    forall j, k | j in open && k in open && j != k :: open[j] != open[k]
  }

  /** A step on the tables, recorded: the rule survives unless the step spoils it. */
  lemma StepTaken(events: seq<Event>, was: State, e: Event, now: State)
    requires IsRun(events) && After(events) == was && Enabled(was, e) && Step(was, e) == now
    ensures IsRun(events + [e]) && After(events + [e]) == now
    ensures FileRuns.Tidy(was) ==> (FileRuns.Tidy(now) <==> !Spoils(was, e))
  {
    hide IsRun, After, Step, Enabled, Spoils, Inv;
    RunKeepsInv(events);
    RunNext(events, e);
    if FileRuns.Tidy(was) {
      TidinessLost(was, e);
    }
  }

  datatype Occasion = Fork | Exit | Stop

  /** What a process's tables go through on an occasion. */
  ghost predicate StepOf(e: Event, p: Pid, o: Occasion) {
    && e.k.pid == p
    && match o
       case Fork => e.Share?
       case Exit => e.Abandon? || e.Close?
       case Stop => e.Destroy?
  }

  ghost predicate StepsOf(before: seq<Event>, after: seq<Event>, p: Pid, o: Occasion) {
    before <= after && forall i | |before| <= i < |after| :: StepOf(after[i], p, o)
  }

  lemma NoStepsOf(events: seq<Event>, p: Pid, o: Occasion)
    ensures StepsOf(events, events, p, o)
  {
  }

  lemma OneMoreStep(before: seq<Event>, after: seq<Event>, p: Pid, o: Occasion, e: Event)
    requires StepsOf(before, after, p, o) && StepOf(e, p, o)
    ensures StepsOf(before, after + [e], p, o)
  {
  }

  lemma NotClosed(s: State, k: Key)
    requires k in s.open && s.open[k].file < s.next
    ensures FileRuns.Tidy(s) ==> s.closes[s.open[k].file] == 0
  {
    if FileRuns.Tidy(s) {
      assert TidyFile(s, s.open[k].file);
    }
  }

  datatype Outcome = Fd(fd: int) | Done | Badf | Mfile | HostError

  class FileTables {
    var open: Tables
    var files: map<FileId, UnixFd>
    var next: FileId
    // what was done to the files themselves, and by which steps
    ghost var closes: multiset<FileId>
    ghost var stopped: set<FileId>
    ghost var events: seq<Event>

    ghost function Now(): State
      reads this, open.Values
    {
      State(Values(open), next, closes, stopped)
    }

    ghost predicate Consistent()
      reads this
    {
      Counted(open, files, next) && Distinct(open)
    }

    /** The steps taken so far are a run, and lead to what is now. */
    ghost predicate Valid()
      reads this, open.Values
    {
      Consistent() && IsRun(events) && After(events) == Now()
    }

    ghost predicate Tidy()
      reads this, open.Values
    {
      FileRuns.Tidy(Now())
    }

    constructor ()
      ensures Valid() && Tidy() && open == map[] && next == 0 && closes == multiset{} && stopped == {} && events == []
    {
      open, files, next := map[], map[], 0;
      closes, stopped, events := multiset{}, {}, [];
    }

    ghost method Record(was: State, e: Event)
      requires Consistent() && IsRun(events) && After(events) == was && Enabled(was, e) && Step(was, e) == Now()
      modifies this`events
      ensures Valid() && events == old(events) + [e]
      ensures FileRuns.Tidy(was) ==> (Tidy() <==> !Spoils(was, e))
    {
      hide Counted, Distinct, IsRun, After, Step, Enabled, Spoils, FileRuns.Tidy, Values;
      StepTaken(events, was, e, Now());
      events := events + [e];
    }

    predicate CheckFdExists(p: Pid, fd: int, stillOpen: bool)
      reads this, open.Values
    {
      Key(p, fd) in open && (stillOpen ==> !open[Key(p, fd)].closing)
    }

    /** The least descriptor a process does not use, below the limit. */
    method AllocateFd(p: Pid) returns (fd: int)
      ensures fd == -1 || (0 <= fd < 1024 && Key(p, fd) !in open && forall i | 0 <= i < fd :: Key(p, i) in open)
      ensures fd == -1 <==> forall i | 0 <= i < 1024 :: Key(p, i) in open
    {
      for i := 0 to MAX_FDS
        invariant forall j | 0 <= j < i :: Key(p, j) in open
      {
        if Key(p, i) !in open {
          return i;
        }
      }
      return -1;
    }

    /** One more entry for a file: both of its counts go up. */
    method Share(k: Key, f: FileId)
      requires Valid() && k !in open && f in files
      modifies this`open, this`files, this`events
      ensures Valid() && open.Keys == old(open).Keys + {k} && fresh(open[k])
      ensures forall j | j in old(open) :: open[j] == old(open)[j]
      ensures open[k].file == f && open[k].count == 0 && !open[k].closing
      ensures events == old(events) + [Event.Share(k, f)] && (old(Tidy()) ==> Tidy())
    {
      hide Counted, FileOk, Entries, IsRun, After, Inv, FileRuns.Tidy, Only, InTables;
      FileInTables(open, files, next, f);
      var u := new FileUsage(f);
      ghost var was := Now();
      ShareKeepsCounted(open, files, next, k, u);
      files := files[f := UnixFd(files[f].fdCount + 1, files[f].refs + 1)];
      open := open[k := u];
      assert Values(open) == was.open[k := Entry(f, 0, false)];
      Record(was, Event.Share(k, f));
    }

    /** Takes an entry out of its table and destroys it; the file goes with its last one. */
    method Forget(k: Key)
      requires Consistent() && k in open
      modifies this`open, this`files
      ensures Consistent() && open == old(open) - {k}
      ensures var f := old(open)[k].file;
              files.Keys == old(files).Keys - (if Entries(old(open), f) == 1 then {f} else {})
    {
      DropKeepsCounted(open, files, next, k);
      var f := open[k].file;
      open := open - {k};
      files := Dropped(files, f);
    }

    /** A new file with one entry. */
    method NewFile(k: Key)
      requires Valid() && k !in open
      modifies this`open, this`files, this`next, this`events
      ensures Valid() && (old(Tidy()) ==> Tidy())
      ensures k in open && fresh(open[k]) && open[k].file == old(next) && open[k].count == 0 && !open[k].closing
      ensures open == old(open)[k := open[k]] && next == old(next) + 1 && events == old(events) + [Event.Open(k)]
    {
      hide Counted, FileOk, Entries, IsRun, After, Inv, FileRuns.Tidy, Only, InTables;
      ghost var was := Now();
      var u := new FileUsage(next);
      NewKeepsCounted(open, files, next, k, u);
      open, files := open[k := u], files[next := UnixFd(1, 1)];
      assert Values(open) == was.open[k := Entry(next, 0, false)];
      next := next + 1;
      Record(was, Event.Open(k));
    }

    /** Opens a file, if there is a free descriptor and the host agrees. */
    method Open(p: Pid, hostAgrees: bool) returns (r: Outcome)
      requires Valid()
      modifies this`open, this`files, this`next, this`events
      ensures Valid() && (old(Tidy()) ==> Tidy())
      ensures r == Mfile <==> forall i | 0 <= i < 1024 :: Key(p, i) in old(open)
      ensures !r.Fd? ==> open == old(open) && files == old(files) && next == old(next) && events == old(events)
      ensures r.Fd? || r == Mfile || (r == HostError && !hostAgrees)
      ensures r.Fd? ==> next == old(next) + 1 && events == old(events) + [Event.Open(Key(p, r.fd))]
      ensures r.Fd? ==>
                && 0 <= r.fd < 1024 && Key(p, r.fd) !in old(open)
                && (forall i | 0 <= i < r.fd :: Key(p, i) in old(open))
                && Key(p, r.fd) in open && var u := open[Key(p, r.fd)];
                   fresh(u) && u.file == old(next) && u.count == 0 && !u.closing && open == old(open)[Key(p, r.fd) := u]
    {
      hide *;
      var fd := AllocateFd(p);
      if fd == -1 {
        return Mfile;
      }
      if !hostAgrees {
        return HostError;
      }
      NewFile(Key(p, fd));
      return Fd(fd);
    }

    /** An entry goes if nobody uses it; otherwise it is marked as closed. */
    method GiveUp(k: Key)
      requires Consistent() && k in open
      modifies this`open, this`files, open.Values`closing
      ensures Consistent()
      ensures forall j | j in old(open) && j != k :: old(open)[j].closing == old(open[j].closing)
      ensures var u := old(open)[k];
              if u.count == 0 then open == old(open) - {k} && Values(open) == old(Values(open)) - {k}
              else
                && open == old(open) && u.closing
                && Values(open) == old(Values(open))[k := old(Values(open))[k].(closing := true)]
    {
      hide Counted;
      var ok := open[k].CanForget();
      if ok {
        Forget(k);
      }
    }

    /** Closes a descriptor.  The file itself is closed if this is its only entry; the
        entry is given up unless a thread is using it.  The rule that a file is closed
        once, when its last entry goes, survives unless that only entry is in use. */
    method Close(p: Pid, fd: int, hostAgrees: bool) returns (r: Outcome)
      requires Valid()
      modifies this`open, this`files, this`closes, this`events, open.Values`closing
      ensures Valid()
      ensures r == Badf <==> Key(p, fd) !in old(open)
      ensures r == Badf ==> open == old(open) && files == old(files) && closes == old(closes) && events == old(events)
      ensures forall j | j in old(open) && j != Key(p, fd) :: old(open)[j].closing == old(open[j].closing)
      ensures r != Badf ==>
                var k := Key(p, fd); var u := old(open)[k]; var last := Entries(old(open), u.file) == 1;
                && r == (if last && !hostAgrees then HostError else Done)
                && closes == (if last then old(closes) + multiset{u.file} else old(closes))
                && open == (if u.count == 0 then old(open) - {k} else old(open))
                && (u.count > 0 ==> u.closing)
                && events == old(events) + [Event.Close(k)]
                && (old(Tidy()) ==> (Tidy() <==> !(last && u.count > 0)))
    {
      hide Counted, FileOk, Entries, IsRun, After, Inv, FileRuns.Tidy, Only, InTables, Distinct, Values;
      var k := Key(p, fd);
      if k !in open {
        return Badf;
      }
      var u := open[k];
      ghost var was := Now();
      ValuesAt(open, k);
      FileExists(open, files, next, k);
      OnlyEntry(open, k);
      r := Done;
      if files[u.file].fdCount == 1 {
        closes := closes + multiset{u.file};
        r := if hostAgrees then Done else HostError;
      }
      GiveUp(k);
      Record(was, Event.Close(k));
    }

    method Dup(p: Pid, oldfd: int) returns (r: Outcome)
      requires Valid()
      modifies this`open, this`files, this`events
      ensures Valid() && (old(Tidy()) ==> Tidy())
      ensures r.Fd? || r == Badf || r == Mfile
      ensures r == Badf <==> !old(CheckFdExists(p, oldfd, true))
      ensures r == Mfile <==>
                old(CheckFdExists(p, oldfd, true)) && forall i | 0 <= i < MAX_FDS :: Key(p, i) in old(open)
      ensures !r.Fd? ==> open == old(open) && files == old(files) && events == old(events)
      ensures r.Fd? ==>
                && 0 <= r.fd < MAX_FDS && Key(p, r.fd) !in old(open)
                && (forall i | 0 <= i < r.fd :: Key(p, i) in old(open))
                && OneMore(old(open), Key(p, r.fd), old(open)[Key(p, oldfd)].file) && fresh(open[Key(p, r.fd)])
                && events == old(events) + [Event.Share(Key(p, r.fd), old(open)[Key(p, oldfd)].file)]
      ensures r.Fd? || r == Mfile <==> Key(p, oldfd) in old(open) && !old(open[Key(p, oldfd)].closing)
      ensures r.Fd? ==> Key(p, r.fd) in open && open[Key(p, r.fd)].file == old(open)[Key(p, oldfd)].file
      ensures forall j | j in old(open) :: j in open && open[j] == old(open)[j]
    {
      if !CheckFdExists(p, oldfd, true) {
        return Badf;
      }
      var fd := AllocateFd(p);
      if fd == -1 {
        return Mfile;
      }
      Share(Key(p, fd), open[Key(p, oldfd)].file);
      return Fd(fd);
    }

    /** The tables are as they were, but for an unused entry at k. */
    ghost predicate OneMore(was: Tables, k: Key, f: FileId)
      reads this, open.Values
    {
      && open.Keys == was.Keys + {k} && (forall j | j in was && j != k :: open[j] == was[j])
      && open[k].file == f && open[k].count == 0 && !open[k].closing
    }

    /** Whether dup2 gets as far as looking at its target. */
    predicate Duplicable(p: Pid, oldfd: int, newfd: int)
      reads this, open.Values
    {
      CheckFdExists(p, oldfd, true) && newfd <= MAX_FDS && oldfd != newfd
    }

    /** Makes newfd another entry for the file of oldfd, closing what it was before.  The
        target may be any number up to the limit, negative ones included.  It is refused
        if its old entry cannot be closed or is still in use. */
    method Dup2(p: Pid, oldfd: int, newfd: int, hostAgrees: bool) returns (r: Outcome)
      requires Valid()
      modifies this`open, this`files, this`closes, this`events, open.Values`closing
      ensures Valid()
      ensures !old(Duplicable(p, oldfd, newfd)) ==>
                && open == old(open) && files == old(files) && closes == old(closes) && events == old(events)
                && r == if old(CheckFdExists(p, oldfd, true)) && newfd <= MAX_FDS then Fd(newfd) else Badf
      ensures forall j | j in old(open) && j != Key(p, newfd) :: old(open)[j].closing == old(open[j].closing)
      ensures old(Duplicable(p, oldfd, newfd)) ==>
                var k := Key(p, newfd); var file := old(open)[Key(p, oldfd)].file; var before := old(events);
                if k !in old(open) then
                  r == Fd(newfd) && OneMore(old(open), k, file) && events == before + [Event.Share(k, file)]
                else
                  var u := old(open)[k];
                  if old(open[k].closing) then r == Badf && open == old(open) && events == before
                  else if u.count > 0 then
                    r == Badf && open == old(open) && u.closing && events == before + [Event.Close(k)]
                  else if Entries(old(open), u.file) == 1 && !hostAgrees then
                    r == Badf && open == old(open) - {k} && events == before + [Event.Close(k)]
                  else
                    && r == Fd(newfd) && OneMore(old(open), k, file)
                    && events == before + [Event.Close(k)] + [Event.Share(k, file)]
      ensures old(Tidy()) && (Key(p, newfd) in old(open) ==> old(open)[Key(p, newfd)].count == 0) ==> Tidy()
      ensures r == Badf || r == Fd(newfd)
      ensures r.Fd? ==> newfd <= 1024 && Key(p, oldfd) in old(open) && !old(open[Key(p, oldfd)].closing)
      ensures r.Fd? ==> Key(p, newfd) in open && open[Key(p, newfd)].file == old(open)[Key(p, oldfd)].file
      ensures forall j | j in old(open) && j != Key(p, newfd) :: j in open && open[j] == old(open)[j]
    {
      hide Counted, Distinct, FileOk, IsRun, After, FileRuns.Tidy;
      if !CheckFdExists(p, oldfd, true) || newfd > MAX_FDS {
        return Badf;
      }
      if oldfd == newfd {
        return Fd(newfd);
      }
      var k := Key(p, newfd);
      if CheckFdExists(p, newfd, true) {
        var closed := Close(p, newfd, hostAgrees);
        if closed != Done {
          return Badf;
        }
      }
      if CheckFdExists(p, newfd, false) {
        return Badf;
      }
      FileExists(open, files, next, Key(p, oldfd));
      Share(k, open[Key(p, oldfd)].file);
      return Fd(newfd);
    }

    /** A thread starts using a descriptor, if it is open. */
    method GetFileInc(p: Pid, fd: int) returns (r: Outcome)
      requires Valid()
      modifies this`events, open.Values`count
      ensures Valid() && (old(Tidy()) ==> Tidy())
      ensures r == if Key(p, fd) in open && !open[Key(p, fd)].closing then Done else Badf
      ensures forall j | j in open && (r == Badf || j != Key(p, fd)) :: open[j].count == old(open[j].count)
      ensures r == Done ==> open[Key(p, fd)].count == old(open[Key(p, fd)].count) + 1
      ensures events == old(events) + (if r == Done then [Event.Take(Key(p, fd))] else [])
    {
      hide Counted, FileOk, Entries, IsRun, After, Inv, FileRuns.Tidy, Only, InTables;
      if !CheckFdExists(p, fd, true) {
        return Badf;
      }
      var k := Key(p, fd);
      ghost var was := Now();
      open[k].IncUsage();
      assert Values(open) == was.open[k := was.open[k].(count := was.open[k].count + 1)];
      Record(was, Event.Take(k));
      return Done;
    }

    /** A thread stops using a descriptor; if it was closed meanwhile, the last one gives
        the entry up.  The file is not closed then, even if the entry was its last. */
    method DecUsage(p: Pid, fd: int)
      requires Valid() && Key(p, fd) in open && open[Key(p, fd)].count > 0
      modifies this`open, this`files, this`events, open.Values`count
      ensures Valid()
      ensures forall j | j in old(open) && j != Key(p, fd) :: old(open)[j].count == old(open[j].count)
      ensures events == old(events) + [Event.Release(Key(p, fd))]
      ensures var k := Key(p, fd); var u := old(open)[k];
              var gone := u.count == 0 && u.closing;
              && u.count == old(open[k].count) - 1
              && open == (if gone then old(open) - {k} else old(open))
              && (old(Tidy()) ==> (Tidy() <==> !(gone && Entries(old(open), u.file) == 1)))
    {
      hide Counted, FileOk, Entries, IsRun, After, Inv, FileRuns.Tidy, Only, InTables;
      var k := Key(p, fd);
      var u := open[k];
      ghost var was := Now();
      FileExists(open, files, next, k);
      OnlyEntry(open, k);
      NotClosed(was, k);
      var last := u.DecUsage();
      if last {
        Forget(k);
        assert Values(open) == was.open - {k};
      } else {
        assert Values(open) == was.open[k := was.open[k].(count := was.open[k].count - 1)];
      }
      Record(was, Event.Release(k));
    }

    /** What a fork has done so far: all but the entries in `rest` are copied. */
    ghost predicate Copying(was: Tables, p: Pid, child: Pid, rest: set<Key>, before: seq<Event>)
      reads this, open.Values
    {
      && Valid() && ClonedTo(was, open, p, child, rest) && Unused(child) && StepsOf(before, events, child, Fork)
      && forall k | k in rest :: k.pid == p && k in was
    }

    ghost predicate Unused(child: Pid)
      reads this, open.Values
    {
      forall k | k in open && k.pid == child :: open[k].count == 0 && !open[k].closing
    }

    method CopyEntry(k: Key, p: Pid, child: Pid, ghost was: Tables, ghost rest: set<Key>, ghost before: seq<Event>)
      requires Copying(was, p, child, rest, before) && p != child && k in rest
      modifies this`open, this`files, this`events
      ensures Copying(was, p, child, rest - {k}, before) && (old(Tidy()) ==> Tidy())
    {
      CloneNext(was, open, p, child, rest, k);
      FileExists(open, files, next, k);
      hide Counted, Distinct, FileOk, ClonedTo, StepsOf, IsRun, After, FileRuns.Tidy, Values;
      ghost var file := open[k].file;
      OneMoreStep(before, events, child, Fork, Event.Share(Key(child, k.fd), file));
      Share(Key(child, k.fd), open[k].file);
      CloneStep(was, old(open), open, p, child, rest, k);
    }

    /** A fork: the child gets an entry for every entry of its parent. */
    method Clone(p: Pid, child: Pid)
      requires Valid() && p != child && forall k | k in open :: k.pid != child
      modifies this`open, this`files, this`events
      ensures Valid() && (old(Tidy()) ==> Tidy())
      ensures ClonedTo(old(open), open, p, child, {})
      ensures Unused(child) && StepsOf(old(events), events, child, Fork)
      ensures forall fd :: Key(child, fd) in open <==> Key(p, fd) in old(open)
      ensures forall fd | Key(p, fd) in old(open) ::
                open[Key(child, fd)].file == old(open)[Key(p, fd)].file
                && open[Key(child, fd)].count == 0 && !open[Key(child, fd)].closing
      ensures forall k | k in old(open) :: k in open && open[k] == old(open)[k]
    {
      var rest: set<Key> := set k | k in open && k.pid == p;
      CloneStarts(open, p, child, rest);
      NoStepsOf(events, child, Fork);
      ghost var was, before := open, events;
      assert Copying(was, p, child, rest, before);
      hide Copying, FileRuns.Tidy;
      while rest != {}
        invariant Copying(was, p, child, rest, before) && (old(Tidy()) ==> Tidy())
      {
        var k :| k in rest;
        CopyEntry(k, p, child, was, rest, before);
        rest := rest - {k};
      }
      Copied(was, p, child, before);
    }

    lemma Copied(was: Tables, p: Pid, child: Pid, before: seq<Event>)
      requires Copying(was, p, child, {}, before)
      ensures Valid() && ClonedTo(was, open, p, child, {}) && Unused(child) && StepsOf(before, events, child, Fork)
    {
    }

    /** A process ends by itself: every descriptor is closed, whoever was using it. */
    method ExitProcess(p: Pid)
      requires Valid()
      modifies this`open, this`files, this`closes, this`events, open.Values
      ensures Valid() && (old(Tidy()) ==> Tidy())
      ensures forall k: Key :: k in open <==> k in old(open) && k.pid != p
      ensures forall k | k in open ::
                && open[k] == old(open)[k] && open[k].count == old(open[k].count)
                && open[k].closing == old(open[k].closing)
      ensures StepsOf(old(events), events, p, Exit)
    {
      var rest: set<Key> := set k | k in open && k.pid == p;
      NoStepsOf(events, p, Exit);
      hide Counted, FileOk, IsRun, After, FileRuns.Tidy, Entries, InTables, Only, Step, Enabled, Inv, StepsOf;
      while rest != {}
        invariant Valid() && (old(Tidy()) ==> Tidy())
        invariant forall k | k in rest :: k.pid == p
        invariant forall k: Key :: k in open <==> k in old(open) && (k.pid != p || k in rest)
        invariant forall k | k in open ::
                    && open[k] == old(open)[k] && open[k].count == old(open[k].count)
                    && open[k].closing == old(open[k].closing)
        invariant StepsOf(old(events), events, p, Exit)
      {
        var k :| k in rest;
        CloseAbandoned(p, k.fd, old(events));
        rest := rest - {k};
      }
    }

    /** An entry is closed, whoever was using it. */
    method CloseAbandoned(p: Pid, fd: int, ghost before: seq<Event>)
      requires Valid() && Key(p, fd) in open && StepsOf(before, events, p, Exit)
      modifies this`open, this`files, this`closes, this`events, open.Values
      ensures Valid() && (old(Tidy()) ==> Tidy()) && open == old(open) - {Key(p, fd)}
      ensures forall j | j in open :: open[j].count == old(open[j].count) && open[j].closing == old(open[j].closing)
      ensures StepsOf(before, events, p, Exit)
    {
      hide *;
      var k := Key(p, fd);
      OneMoreStep(before, events, p, Exit, Event.Abandon(k));
      OneMoreStep(before, events + [Event.Abandon(k)], p, Exit, Event.Close(k));
      Abandon(k);
      var closed := Close(p, fd, true);
    }

    /** The users of an entry are forgotten. */
    method Abandon(k: Key)
      requires Valid() && k in open
      modifies this`events, open.Values`count
      ensures Valid() && (old(Tidy()) ==> Tidy())
      ensures open[k].count == 0 && events == old(events) + [Event.Abandon(k)]
      ensures forall j | j in open && j != k :: open[j].count == old(open[j].count)
    {
      hide Counted, FileOk, Entries, IsRun, After, Inv, FileRuns.Tidy, Only, InTables;
      ghost var was := Now();
      open[k].NullifyUsage();
      assert Values(open) == was.open[k := was.open[k].(count := 0)];
      Record(was, Event.Abandon(k));
    }

    /** A process is stopped from outside: its entries are destroyed, and files whose last
        entries go this way are not closed. */
    method StopProcess(p: Pid)
      requires Valid()
      modifies this`open, this`files, this`stopped, this`events
      ensures Valid() && (old(Tidy()) ==> Tidy())
      ensures forall k: Key :: k in open <==> k in old(open) && k.pid != p
      ensures forall k | k in open :: open[k] == old(open)[k]
      ensures forall f | f in stopped && f !in old(stopped) :: f in old(files) && f !in files
      ensures StepsOf(old(events), events, p, Stop)
    {
      var rest: set<Key> := set k | k in open && k.pid == p;
      NoStepsOf(events, p, Stop);
      hide Counted, FileOk, IsRun, After, FileRuns.Tidy, Entries, InTables, Only, Step, Enabled, Inv, StepsOf;
      while rest != {}
        invariant Valid() && (old(Tidy()) ==> Tidy())
        invariant forall k | k in rest :: k.pid == p
        invariant forall k: Key :: k in open <==> k in old(open) && (k.pid != p || k in rest)
        invariant forall k | k in open :: open[k] == old(open)[k]
        invariant files.Keys <= old(files).Keys
        invariant forall f | f in stopped && f !in old(stopped) :: f in old(files) && f !in files
        invariant StepsOf(old(events), events, p, Stop)
      {
        var k :| k in rest;
        FileExists(open, files, next, k);
        ghost var sofar := events;
        Destroy(k);
        OneMoreStep(old(events), sofar, p, Stop, Event.Destroy(k));
        rest := rest - {k};
      }
    }

    /** An entry is destroyed without being closed. */
    method Destroy(k: Key)
      requires Valid() && k in open
      modifies this`open, this`files, this`stopped, this`events
      ensures Valid() && (old(Tidy()) ==> Tidy()) && open == old(open) - {k}
      ensures var f := old(open)[k].file;
              var last := Entries(old(open), f) == 1;
              && files.Keys == old(files).Keys - (if last then {f} else {})
              && stopped == old(stopped) + (if last then {f} else {})
      ensures events == old(events) + [Event.Destroy(k)]
    {
      hide Counted, FileOk, Entries, IsRun, After, Inv, FileRuns.Tidy, Only, InTables;
      ghost var was := Now();
      OnlyEntry(open, k);
      if Entries(open, open[k].file) == 1 {
        stopped := stopped + {open[k].file};
      }
      Forget(k);
      assert Values(open) == was.open - {k};
      Record(was, Event.Destroy(k));
    }
  }


  /** A file with one entry, which is in use. */
  method OpenUsed(p: Pid) returns (t: FileTables)
    ensures fresh(t) && t.Valid() && t.closes == multiset{} && t.stopped == {} && t.next == 1
    ensures t.events == [Event.Open(Key(p, 0)), Event.Take(Key(p, 0))] && t.open.Keys == {Key(p, 0)}
    ensures var u := t.open[Key(p, 0)]; fresh(u) && u.file == 0 && u.count == 1 && !u.closing
  {
    hide Counted, Distinct, FileOk, IsRun, After, FileRuns.Tidy, Values;
    t := new FileTables();
    assert Key(p, 0) !in t.open;
    var fd := t.Open(p, true);
    assert fd == Fd(0);
    var used := t.GetFileInc(p, 0);
  }

  /** A descriptor that is closed while a thread uses it can be closed again: the file is
      closed twice. */
  method CloseTwice(p: Pid) returns (t: FileTables)
    ensures fresh(t) && t.Valid() && t.open == map[] && t.closes == multiset{0, 0}
  {
    t := OpenUsed(p);
    hide *;
    OneEntry(t.open, Key(p, 0), 0);
    var first := t.Close(p, 0, true);
    var second := t.Close(p, 0, true);
    t.DecUsage(p, 0);
  }

  /** If it is not closed again, it was closed once, though not when its entry went. */
  method CloseEarly(p: Pid) returns (t: FileTables)
    ensures fresh(t) && t.Valid() && t.Tidy() && t.open == map[] && t.closes == multiset{0} && t.next == 1
    ensures var k := Key(p, 0); t.events == [Event.Open(k), Event.Take(k), Event.Close(k), Event.Release(k)]
  {
    t := OpenUsed(p);
    hide *;
    OneEntry(t.open, Key(p, 0), 0);
    var first := t.Close(p, 0, true);
    t.DecUsage(p, 0);
    OneFileClosed(t);
  }

  lemma OneFileClosed(t: FileTables)
    requires t.open == map[] && t.next == 1 && t.closes == multiset{0}
    ensures t.Tidy()
  {
  }

  /** A file with two entries, the first of them in use. */
  method DupUsed(p: Pid) returns (t: FileTables)
    ensures fresh(t) && t.Valid() && t.closes == multiset{} && t.stopped == {}
    ensures t.open.Keys == {Key(p, 0), Key(p, 1)} && Entries(t.open, 0) == 2
    ensures forall k | k in t.open :: fresh(t.open[k]) && t.open[k].file == 0 && !t.open[k].closing
    ensures t.open[Key(p, 0)].count == 1 && t.open[Key(p, 1)].count == 0
  {
    t := OpenUsed(p);
    hide Counted, Distinct, FileOk, IsRun, After, FileRuns.Tidy, Values, Entries;
    assert Key(p, 1) !in t.open;
    var copy := t.Dup(p, 0);
    assert copy == Fd(1) && t.open.Keys == {Key(p, 0), Key(p, 1)};
    TwoEntries(t.open, Key(p, 0), Key(p, 1), 0);
  }

  /** A file whose last entry was closed while in use, and while there was another one, is
      never closed. */
  method CloseNever(p: Pid) returns (t: FileTables)
    ensures fresh(t) && t.Valid() && t.open == map[] && t.closes == multiset{} && t.stopped == {}
  {
    t := DupUsed(p);
    hide *;
    var first := t.Close(p, 0, true);
    var second := t.Close(p, 1, true);
    assert t.open.Keys == {Key(p, 0)};
    t.DecUsage(p, 0);
  }

  lemma OneEntry(open: Tables, k: Key, f: FileId)
    requires open.Keys == {k} && open[k].file == f
    ensures Entries(open, f) == 1
  {
    assert EntrySet(open, f) == {k};
  }

  lemma TwoEntries(open: Tables, j: Key, k: Key, f: FileId)
    requires open.Keys == {j, k} && j != k && open[j].file == f && open[k].file == f
    ensures Entries(open, f) == 2
  {
    assert EntrySet(open, f) == {j, k};
  }
}
