/** The two walks over the storage tree: the recursive clean-up of unreferenced files and the
    worklist that measures usage.  The tree changes in place.
  */
module Cleanup {
  import opened Sets
  import opened Slots
  import opened Storage

  type Files = map<Path, Stat>

  // ---------------------------------------------------------------- trees

  /** Every proper prefix of a file and every prefix of a directory is a directory. */
  ghost predicate IsTree(files: Files, dirs: set<Path>) {
    && [] in dirs
    && (forall p, n: nat :: p in dirs && n <= |p| ==> p[..n] in dirs)
    && (forall p, n: nat :: p in files && n < |p| ==> p[..n] in dirs)
    && (forall p :: p in files ==> p !in dirs)
  }

  /** The entries of a directory. */
  function Entries(files: Files, dirs: set<Path>, d: Path): set<Path> {
    set p | p in files.Keys + dirs && |p| == |d| + 1 && d <= p
  }

  /** The bytes of some files. */
  ghost function Bytes(files: Files, some: set<Path>): nat
    requires some <= files.Keys
    decreases |some|
  {
    if some == {} then 0
    else
      var p :| p in some;
      files[p].size + Bytes(files, some - {p})
  }

  /** The bytes of the whole tree. */
  ghost function Usage(files: Files): nat {
    Bytes(files, files.Keys)
  }

  lemma {:induction false} BytesWithout(files: Files, some: set<Path>, p: Path)
    requires some <= files.Keys && p in some
    ensures Bytes(files, some) == files[p].size + Bytes(files, some - {p})
    decreases |some|
  {
    var q :| q in some && Bytes(files, some) == files[q].size + Bytes(files, some - {q});
    if p != q {
      BytesWithout(files, some - {q}, p);
      BytesWithout(files, some - {p}, q);
      assert some - {q} - {p} == some - {p} - {q};
    }
  }

  lemma {:induction false} BytesSame(files: Files, fewer: Files, some: set<Path>)
    requires some <= fewer.Keys <= files.Keys && forall p :: p in fewer ==> fewer[p] == files[p]
    ensures Bytes(files, some) == Bytes(fewer, some)
    decreases |some|
  {
    if some != {} {
      var p :| p in some;
      BytesWithout(files, some, p);
      BytesWithout(fewer, some, p);
      BytesSame(files, fewer, some - {p});
    }
  }

  lemma {:induction false} BytesGrow(files: Files, some: set<Path>, more: set<Path>)
    requires some <= more <= files.Keys
    ensures Bytes(files, some) <= Bytes(files, more)
    decreases |more|
  {
    if more != some {
      assert !(more <= some);
      var p :| p in more && p !in some;
      BytesWithout(files, more, p);
      BytesGrow(files, some, more - {p});
    }
  }

  /** Removing one file lowers the usage by its size. */
  lemma UsageWithout(files: Files, p: Path)
    requires p in files
    ensures Usage(files) == files[p].size + Usage(files - {p})
    ensures |files| == |files - {p}| + 1
  {
    BytesWithout(files, files.Keys, p);
    assert (files - {p}).Keys == files.Keys - {p};
    BytesSame(files, files - {p}, files.Keys - {p});
  }

  // ---------------------------------------------------------------- what the clean-up keeps

  /** A file goes when no reference and no prefix protects it and it is old enough. */
  predicate Protected(p: Path, references: set<string>, prefixes: seq<string>) {
    Render(p) in references || exists k :: 0 <= k < |prefixes| && Protects(prefixes[k], Render(p))
  }

  datatype Sweep = Sweep(references: set<string>, prefixes: seq<string>, cutoff: int)

  predicate Goes(s: Sweep, p: Path, file: Stat) {
    !Protected(p, s.references, s.prefixes) && file.modified <= s.cutoff
  }

  /** No file at or below a path stays. */
  ghost predicate Emptied(s: Sweep, files: Files, d: Path) {
    forall f :: f in files && d <= f ==> Goes(s, f, files[f])
  }

  /** At or below an entry of d that was already handled. */
  predicate Within(p: Path, d: Path, handled: set<Path>) {
    |p| > |d| && p[..|d| + 1] in handled
  }

  ghost function SweptFiles(s: Sweep, files: Files, d: Path, handled: set<Path>): Files {
    map p | p in files && !(Within(p, d, handled) && Goes(s, p, files[p])) :: files[p]
  }

  ghost function SweptDirs(s: Sweep, files: Files, dirs: set<Path>, d: Path, handled: set<Path>): set<Path> {
    set p | p in dirs && !(Within(p, d, handled) && |p| >= 2 && Emptied(s, files, p))
  }

  /** What a clean-up of directory d leaves: below d the files that do not go, and the directories
      that hold one of those; top-level directories always stay. */
  ghost function CleanedFiles(s: Sweep, files: Files, d: Path): Files {
    map p | p in files && !(d < p && Goes(s, p, files[p])) :: files[p]
  }

  ghost function CleanedDirs(s: Sweep, files: Files, dirs: set<Path>, d: Path): set<Path> {
    set p | p in dirs && !(d < p && |p| >= 2 && Emptied(s, files, p))
  }

  function Subtree(dirs: set<Path>, d: Path): set<Path> {
    set p | p in dirs && d <= p
  }

  class LocalStorage {
    var files: Files
    var dirs: set<Path>

    constructor ()
      ensures IsTree(files, dirs) && files == map[]
    {
      files, dirs := map[], {[], ["inputs"], ["outputs"]};
      new;
      assert forall p, n: nat :: p in dirs && n <= |p| ==> p[..n] == [] || p[..n] == p;
    }

    /** Cleans everything below one directory, entry by entry.  It fails only if the tree holds more
        bytes than u64 can count. */
    method CleanupDirectory(d: Path, s: Sweep) returns (r: Measured<Report>)
      requires IsTree(files, dirs) && d in dirs
      modifies this
      ensures r.Failed? ==> old(Usage(files)) > U64_MAX
      ensures r.Done? ==>
                && IsTree(files, dirs)
                && files == CleanedFiles(s, old(files), d)
                && dirs == CleanedDirs(s, old(files), old(dirs), d)
                && r.value.bytesRemoved == old(Usage(files)) - Usage(files)
                && r.value.filesRemoved == |old(files)| - |files|
      decreases |Subtree(dirs, d)|
    {
      hide IsTree, Entries, SweptFiles, SweptDirs, CleanedFiles, CleanedDirs, Usage, Goes, Subtree;
      ghost var files0, dirs0 := files, dirs;
      var report := Report(0, 0);
      var left := Entries(files, dirs, d);
      ghost var all := left;
      StartSweep(s, files, dirs, d);
      assert all - left == {};
      while left != {}
        invariant left <= all && IsTree(files, dirs)
        invariant files == SweptFiles(s, files0, d, all - left) && dirs == SweptDirs(s, files0, dirs0, d, all - left)
        invariant report.bytesRemoved + Usage(files) == Usage(files0) && report.filesRemoved + |files| == |files0|
        decreases |left|
      {
        var entry :| entry in left;
        EntryIsThere(s, files0, dirs0, d, all - left, entry);
        if entry in dirs {
          ghost var files1, dirs1 := files, dirs;
          var child := CleanupDirectory(entry, s);
          if child.Failed? {
            return child;
          }
          report := Report(report.filesRemoved + child.value.filesRemoved, report.bytesRemoved + child.value.bytesRemoved);
          ChildSwept(s, files0, dirs0, d, all - left, entry, files1, dirs1);
          if d != [] && Entries(files, dirs, entry) == {} {
            dirs := dirs - {entry};
          }
        } else {
          FileSwept(s, files0, dirs0, d, all - left, entry, files, dirs);
          if !Protected(entry, s.references, s.prefixes) && files[entry].modified <= s.cutoff {
            UsageWithout(files, entry);
            var size := files[entry].size;
            files := files - {entry};
            report := report.(filesRemoved := report.filesRemoved + 1);
            if report.bytesRemoved + size > U64_MAX {
              return Failed(UsageOverflow);
            }
            report := report.(bytesRemoved := report.bytesRemoved + size);
          }
        }
        assert all - (left - {entry}) == (all - left) + {entry};
        left := left - {entry};
      }
      assert all - left == all;
      EndSweep(s, files0, dirs0, d);
      r := Done(report);
    }

    /** Adds up the plain files with a stack of directories still to read.  It fails only when the
        whole sum does not fit u64. */
    method DirectoryUsage() returns (r: Measured<nat>)
      requires IsTree(files, dirs)
      ensures r == if Usage(files) <= U64_MAX then Done(Usage(files)) else Failed(UsageOverflow)
    {
      hide Bytes, IsTree, Walked, Entries, PartlyRead;
      var total := 0;
      var pending: seq<Path> := [[]];
      ghost var read: set<Path>, counted: set<Path> := {}, {};
      StartWalk(files, dirs);
      while pending != []
        invariant counted <= files.Keys && total == Bytes(files, counted) <= U64_MAX
        invariant Walked(files, dirs, pending, read, counted)
        decreases |dirs - read|
      {
        var directory := pending[|pending| - 1];
        ghost var stack, before := pending, counted;
        TopIsUnread(files, dirs, pending, read, counted);
        pending := pending[..|pending| - 1];
        var left := Entries(files, dirs, directory);
        StartDirectory(files, dirs, stack, read, before);
        while left != {}
          invariant counted <= files.Keys && total == Bytes(files, counted) <= U64_MAX
          invariant left <= Entries(files, dirs, directory)
          invariant PartlyRead(files, dirs, stack, pending, read, before, counted, left)
          decreases |left|
        {
          var entry :| entry in left;
          OneEntry(files, dirs, stack, pending, read, before, counted, left, entry);
          if entry in dirs {
            pending := pending + [entry];
          } else {
            BytesWithout(files, counted + {entry}, entry);
            assert counted + {entry} - {entry} == counted;
            counted := counted + {entry};
            total := total + files[entry].size;
            if total > U64_MAX {
              BytesGrow(files, counted, files.Keys);
              return Failed(UsageOverflow);
            }
          }
          left := left - {entry};
        }
        DirectoryRead(files, dirs, stack, pending, read, before, counted);
        read := read + {directory};
      }
      EverythingRead(files, dirs, read, counted);
      r := Done(total);
    }
  }

  // ---------------------------------------------------------------- the clean-up, entry by entry

  lemma StartSweep(s: Sweep, files: Files, dirs: set<Path>, d: Path)
    ensures SweptFiles(s, files, d, {}) == files && SweptDirs(s, files, dirs, d, {}) == dirs
  {
    hide Goes;
  }

  lemma EndSweep(s: Sweep, files: Files, dirs: set<Path>, d: Path)
    requires IsTree(files, dirs)
    ensures SweptFiles(s, files, d, Entries(files, dirs, d)) == CleanedFiles(s, files, d)
    ensures SweptDirs(s, files, dirs, d, Entries(files, dirs, d)) == CleanedDirs(s, files, dirs, d)
  {
    hide Goes;
    forall p | p in files || p in dirs
      ensures Within(p, d, Entries(files, dirs, d)) <==> d < p
    {
      BelowIsWithin(files, dirs, d, p);
    }
  }

  lemma BelowIsWithin(files: Files, dirs: set<Path>, d: Path, p: Path)
    requires IsTree(files, dirs) && (p in files || p in dirs)
    ensures Within(p, d, Entries(files, dirs, d)) <==> d < p
  {
    if |p| > |d| {
      var head := p[..|d| + 1];
      assert head in files || head in dirs by {
        if |p| == |d| + 1 {
          assert head == p;
        }
      }
      assert d <= head <==> d <= p;
    }
  }

  /** An entry that was not handled yet is as it was, and its subtree is smaller. */
  lemma EntryIsThere(s: Sweep, files: Files, dirs: set<Path>, d: Path, handled: set<Path>, entry: Path)
    requires entry in Entries(files, dirs, d) && entry !in handled && IsTree(files, dirs) && d in dirs
    ensures var files1, dirs1 := SweptFiles(s, files, d, handled), SweptDirs(s, files, dirs, d, handled);
            && (entry in dirs1 <==> entry in dirs)
            && (entry !in dirs ==> entry in files1 && files1[entry] == files[entry])
            && |Subtree(dirs1, entry)| < |Subtree(dirs, d)|
  {
    hide Goes, Emptied;
    var dirs1 := SweptDirs(s, files, dirs, d, handled);
    assert entry[..|d| + 1] == entry;
    assert Subtree(dirs1, entry) <= Subtree(dirs, d) - {d};
    SubsetSize(Subtree(dirs1, entry), Subtree(dirs, d) - {d});
    assert d in Subtree(dirs, d);
  }

  /** One plain file. */
  lemma FileSwept(s: Sweep, files: Files, dirs: set<Path>, d: Path, handled: set<Path>, entry: Path, files1: Files, dirs1: set<Path>)
    requires IsTree(files, dirs) && IsTree(files1, dirs1) && entry in Entries(files, dirs, d) && entry !in handled && entry !in dirs
    requires files1 == SweptFiles(s, files, d, handled) && dirs1 == SweptDirs(s, files, dirs, d, handled)
    ensures entry in files1
    ensures SweptFiles(s, files, d, handled + {entry}) == if Goes(s, entry, files1[entry]) then files1 - {entry} else files1
    ensures SweptDirs(s, files, dirs, d, handled + {entry}) == dirs1
    ensures IsTree(files1 - {entry}, dirs1)
    ensures Goes(s, entry, files1[entry]) <==> !Protected(entry, s.references, s.prefixes) && files1[entry].modified <= s.cutoff
  {
    assert entry[..|d| + 1] == entry;
    forall p | p in files || p in dirs
      ensures p == entry || (Within(p, d, handled + {entry}) <==> Within(p, d, handled))
    {
      assert |p| > |d| + 1 ==> p[..|d| + 1] in dirs;
    }
    hide Protected, Emptied;
  }

  lemma BelowEntry(d: Path, handled: set<Path>, entry: Path, p: Path)
    requires |entry| == |d| + 1 && entry !in handled
    ensures Within(p, d, handled + {entry}) <==> Within(p, d, handled) || entry <= p
    ensures entry <= p ==> !Within(p, d, handled)
  {
    assert entry <= p <==> |p| > |d| && p[..|d| + 1] == entry;
  }

  /** Below an entry that was not handled, the same files go. */
  lemma EmptiedAgrees(s: Sweep, files: Files, d: Path, handled: set<Path>, entry: Path, p: Path)
    requires |entry| == |d| + 1 && entry !in handled && entry <= p
    ensures Emptied(s, SweptFiles(s, files, d, handled), p) <==> Emptied(s, files, p)
  {
    hide Goes, Within;
    forall f | f in files && p <= f
      ensures f in SweptFiles(s, files, d, handled)
    {
      BelowEntry(d, handled, entry, f);
    }
  }

  /** A directory is left without entries exactly when no file below it stays. */
  lemma EmptyDirectory(s: Sweep, files: Files, dirs: set<Path>, d: Path)
    requires IsTree(files, dirs) && d in dirs && d != []
    ensures Entries(CleanedFiles(s, files, d), CleanedDirs(s, files, dirs, d), d) == {} <==> Emptied(s, files, d)
  {
    var files', dirs' := CleanedFiles(s, files, d), CleanedDirs(s, files, dirs, d);
    hide Goes;
    if Emptied(s, files, d) {
      forall p
        ensures p !in Entries(files', dirs', d)
      {
        assert d <= p && |p| == |d| + 1 ==> d < p;
      }
    } else {
      var f :| f in files && d <= f && !Goes(s, f, files[f]);
      assert |f| == |d| ==> f == d;
      var head := f[..|d| + 1];
      assert f in files' && d <= head <= f;
      if |f| > |d| + 1 {
        assert head in dirs && !Emptied(s, files, head);
        assert head in Entries(files', dirs', d);
      } else {
        assert head == f;
        assert f in Entries(files', dirs', d);
      }
    }
  }

  /** Removing a directory without entries leaves a tree. */
  lemma WithoutEmpty(files: Files, dirs: set<Path>, d: Path)
    requires IsTree(files, dirs) && d != [] && Entries(files, dirs, d) == {}
    ensures IsTree(files, dirs - {d})
  {
    forall p, n: nat | (p in files || p in dirs) && n < |p|
      ensures p[..n] != d
    {
      if n + 1 < |p| {
        assert p[..n + 1] in dirs;
      } else {
        assert p[..n + 1] == p;
      }
      assert p[..n + 1] !in Entries(files, dirs, d);
      assert p[..n] <= p[..n + 1];
    }
    hide Entries;
    forall p, n: nat | p in dirs - {d} && n <= |p|
      ensures p[..n] in dirs - {d}
    {
      if n == |p| {
        assert p[..n] == p;
      }
    }
  }

  /** One directory: what the recursive call left, and whether the directory itself is now empty. */
  lemma ChildSwept(s: Sweep, files: Files, dirs: set<Path>, d: Path, handled: set<Path>, entry: Path, files1: Files, dirs1: set<Path>)
    requires IsTree(files, dirs) && entry in Entries(files, dirs, d) && entry !in handled && entry in dirs
    requires files1 == SweptFiles(s, files, d, handled) && dirs1 == SweptDirs(s, files, dirs, d, handled)
    requires IsTree(files1, dirs1) && entry in dirs1
    requires IsTree(CleanedFiles(s, files1, entry), CleanedDirs(s, files1, dirs1, entry))
    ensures var files2, dirs2 := CleanedFiles(s, files1, entry), CleanedDirs(s, files1, dirs1, entry);
            && SweptFiles(s, files, d, handled + {entry}) == files2
            && SweptDirs(s, files, dirs, d, handled + {entry})
               == (if d != [] && Entries(files2, dirs2, entry) == {} then dirs2 - {entry} else dirs2)
            && (Entries(files2, dirs2, entry) == {} ==> IsTree(files2, dirs2 - {entry}))
  {
    var files2, dirs2 := CleanedFiles(s, files1, entry), CleanedDirs(s, files1, dirs1, entry);
    assert |entry| == |d| + 1;
    EmptyDirectory(s, files1, dirs1, entry);
    if Entries(files2, dirs2, entry) == {} {
      WithoutEmpty(files2, dirs2, entry);
    }
    hide Goes, Within, Emptied, IsTree, Entries;
    forall p
      ensures Within(p, d, handled + {entry}) <==> Within(p, d, handled) || entry <= p
      ensures entry <= p ==> !Within(p, d, handled) && (Emptied(s, files1, p) <==> Emptied(s, files, p))
    {
      BelowEntry(d, handled, entry, p);
      if entry <= p {
        EmptiedAgrees(s, files, d, handled, entry, p);
      }
    }
    SweptFilesChild(s, files, d, handled, entry);
    hide SweptFiles, CleanedFiles;
    forall p
      ensures p in SweptDirs(s, files, dirs, d, handled + {entry})
              <==> p in dirs2 && !(p == entry && |entry| >= 2 && Emptied(s, files1, entry))
    {
    }
  }

  lemma SweptFilesChild(s: Sweep, files: Files, d: Path, handled: set<Path>, entry: Path)
    requires |entry| == |d| + 1 && entry !in handled && entry !in files
    ensures SweptFiles(s, files, d, handled + {entry}) == CleanedFiles(s, SweptFiles(s, files, d, handled), entry)
  {
    hide Goes, Within;
    forall p | p in files
      ensures Within(p, d, handled + {entry}) <==> Within(p, d, handled) || entry < p
      ensures entry < p ==> !Within(p, d, handled)
    {
      BelowEntry(d, handled, entry, p);
      assert entry <= p && |p| == |entry| ==> p == entry;
    }
  }

  /** The keys and prefixes that the database hands over, rendered. */
  function SweepOf(references: set<Path>, prefixes: seq<Path>, cutoff: int): Sweep {
    Sweep(set q | q in references :: Render(q), seq(|prefixes|, k requires 0 <= k < |prefixes| => Render(prefixes[k])), cutoff)
  }

  /** Cleaning the whole tree keeps exactly the files that are referenced, lie under a protected
      prefix component by component, or are newer than the cutoff. */
  lemma KeepsExactly(files: Files, references: set<Path>, prefixes: seq<Path>, cutoff: int, p: Path)
    requires p in files && p != [] && Clean(p)
    requires forall q :: q in references ==> q != [] && Clean(q)
    requires forall k :: 0 <= k < |prefixes| ==> prefixes[k] != [] && Clean(prefixes[k])
    ensures p in CleanedFiles(SweepOf(references, prefixes, cutoff), files, [])
            <==> p in references || (exists k :: 0 <= k < |prefixes| && prefixes[k] <= p) || files[p].modified > cutoff
  {
    var s := SweepOf(references, prefixes, cutoff);
    assert [] < p;
    assert Render(p) in s.references <==> p in references by {
      forall q | q in references && Render(q) == Render(p)
        ensures q == p
      {
        RenderIsInjective(q, p);
      }
    }
    forall k | 0 <= k < |prefixes|
      ensures Protects(s.prefixes[k], Render(p)) <==> prefixes[k] <= p
    {
      ProtectsByComponents(prefixes[k], p);
    }
    hide Protects, Render;
    if k :| 0 <= k < |prefixes| && prefixes[k] <= p {
      assert Protects(s.prefixes[k], Render(p));
    }
  }

  // ---------------------------------------------------------------- the usage walk

  predicate NoRepeats(paths: seq<Path>) {
    forall i: nat, j: nat :: i < j < |paths| ==> paths[i] != paths[j]
  }

  function Parent(p: Path): Path
    requires p != []
  {
    p[..|p| - 1]
  }

  /** Some directories were read, the pending ones are exactly the unread ones whose parent was read,
      and the files of the directories read were counted. */
  ghost predicate Walked(files: Files, dirs: set<Path>, pending: seq<Path>, read: set<Path>, counted: set<Path>) {
    && IsTree(files, dirs) && read <= dirs && NoRepeats(pending)
    && (forall p :: p in pending <==> p in dirs && p !in read && (p == [] || Parent(p) in read))
    && (forall p :: p in read && p != [] ==> Parent(p) in read)
    && (forall p :: p in counted <==> p in files && p != [] && Parent(p) in read)
  }

  /** Inside one directory, the top of the stack: its entries outside `left` were pushed or counted. */
  ghost predicate PartlyRead(files: Files, dirs: set<Path>, stack: seq<Path>, pending: seq<Path>, read: set<Path>,
                             before: set<Path>, counted: set<Path>, left: set<Path>) {
    && Walked(files, dirs, stack, read, before) && stack != []
    && var d := stack[|stack| - 1];
       var seen := Entries(files, dirs, d) - left;
       && NoRepeats(pending)
       && (forall p :: p in pending <==> p in stack[..|stack| - 1] || (p in seen && p in dirs))
       && (forall p :: p in counted <==> p in before || (p in seen && p !in dirs))
  }

  lemma StartWalk(files: Files, dirs: set<Path>)
    requires IsTree(files, dirs)
    ensures Walked(files, dirs, [[]], {}, {}) && Bytes(files, {}) == 0
  {
  }

  lemma TopIsUnread(files: Files, dirs: set<Path>, pending: seq<Path>, read: set<Path>, counted: set<Path>)
    requires Walked(files, dirs, pending, read, counted) && pending != []
    ensures var d := pending[|pending| - 1]; |dirs - (read + {d})| < |dirs - read|
  {
    var d := pending[|pending| - 1];
    assert d in pending;
    assert dirs - (read + {d}) == (dirs - read) - {d};
  }

  lemma StartDirectory(files: Files, dirs: set<Path>, stack: seq<Path>, read: set<Path>, counted: set<Path>)
    requires Walked(files, dirs, stack, read, counted) && stack != []
    ensures PartlyRead(files, dirs, stack, stack[..|stack| - 1], read, counted, counted, Entries(files, dirs, stack[|stack| - 1]))
  {
  }

  lemma EntryParent(files: Files, dirs: set<Path>, d: Path, p: Path)
    ensures p in Entries(files, dirs, d) <==> (p in files || p in dirs) && p != [] && Parent(p) == d
  {
    if p != [] && Parent(p) == d {
      assert d <= p;
    }
  }

  lemma OneEntry(files: Files, dirs: set<Path>, stack: seq<Path>, pending: seq<Path>, read: set<Path>,
                 before: set<Path>, counted: set<Path>, left: set<Path>, entry: Path)
    requires PartlyRead(files, dirs, stack, pending, read, before, counted, left)
    requires left <= Entries(files, dirs, stack[|stack| - 1]) && entry in left
    ensures entry in dirs ==> PartlyRead(files, dirs, stack, pending + [entry], read, before, counted, left - {entry})
    ensures entry !in dirs ==>
              && entry in files && entry !in counted
              && PartlyRead(files, dirs, stack, pending, read, before, counted + {entry}, left - {entry})
  {
    var d := stack[|stack| - 1];
    EntryParent(files, dirs, d, entry);
    assert d in stack;
    assert entry !in stack;
    hide Entries;
  }

  lemma DirectoryRead(files: Files, dirs: set<Path>, stack: seq<Path>, pending: seq<Path>, read: set<Path>,
                      before: set<Path>, counted: set<Path>)
    requires PartlyRead(files, dirs, stack, pending, read, before, counted, {})
    ensures Walked(files, dirs, pending, read + {stack[|stack| - 1]}, counted)
  {
    var d := stack[|stack| - 1];
    assert d in stack;
    forall p
      ensures p in Entries(files, dirs, d) <==> (p in files || p in dirs) && p != [] && Parent(p) == d
    {
      EntryParent(files, dirs, d, p);
    }
    assert d !in stack[..|stack| - 1];
    assert forall p :: p in stack <==> p == d || p in stack[..|stack| - 1];
    hide Entries;
  }

  lemma {:induction false} ReachedDown(files: Files, dirs: set<Path>, read: set<Path>, counted: set<Path>, p: Path)
    requires Walked(files, dirs, [], read, counted) && p in dirs
    ensures p in read
    decreases |p|
  {
    assert [] in dirs;
    if p != [] {
      assert Parent(p) in dirs;
      ReachedDown(files, dirs, read, counted, Parent(p));
    }
  }

  lemma EverythingRead(files: Files, dirs: set<Path>, read: set<Path>, counted: set<Path>)
    requires Walked(files, dirs, [], read, counted)
    ensures counted == files.Keys
  {
    forall p | p in files
      ensures p in counted
    {
      assert p != [];
      assert Parent(p) in dirs;
      ReachedDown(files, dirs, read, counted, Parent(p));
    }
  }
}
