// internal/vfs: the in-memory file system.
//
// Entries live in one flat map keyed by cleaned path; the tree exists only in
// the strings. Methods take the path that filepath.Clean returned.

module Vfs {
  import opened Common

  // ---------- Paths ----------

  /** What filepath.Clean guarantees and the listing relies on: not empty, no
      doubled or trailing separator, no leading "./". */
  ghost predicate Cleaned(p: string) {
    && |p| >= 1
    && (|p| > 1 ==> p[|p| - 1] != '/')
    && (forall i, j | 0 <= i < j < |p| && j == i + 1 :: p[i] != '/' || p[j] != '/')
    && !(['.', '/'] <= p)
  }

  /** The position of the first separator, or -1. */
  function FirstSlash(s: string): (i: int)
    ensures -1 <= i < |s|
    ensures i >= 0 ==> s[i] == '/'
    ensures forall k | 0 <= k < (if i < 0 then |s| else i) :: s[k] != '/'
  {
    if s == [] then -1
    else if s[0] == '/' then 0
    else var i := FirstSlash(s[1..]); if i < 0 then -1 else i + 1
  }

  /** The position of the last separator, or -1. */
  function LastSlash(s: string): (i: int)
    ensures -1 <= i < |s|
    ensures i >= 0 ==> s[i] == '/'
    ensures forall k | i < k < |s| :: s[k] != '/'
  {
    if s == [] then -1
    else if s[|s| - 1] == '/' then |s| - 1
    else LastSlash(s[..|s| - 1])
  }

  /** filepath.Dir of a cleaned path. */
  function Dir(p: string): string {
    var i := LastSlash(p);
    if i < 0 then "." else if i == 0 then "/" else p[..i]
  }

  /** filepath.Base of a cleaned path other than "/". */
  function Base(p: string): string { p[LastSlash(p) + 1..] }

  predicate IsRoot(p: string) { p == "." || p == "/" }

  lemma DirIsCleaned(p: string)
    requires Cleaned(p)
    ensures Cleaned(Dir(p))
    ensures !IsRoot(p) ==> IsRoot(Dir(p)) || |Dir(p)| < |p|
  {
    var i := LastSlash(p);
    if i > 0 {
      assert p[i - 1] != '/';
    }
  }

  /** filepath.Dir never climbs past a root. */
  function Rank(p: string): nat { if IsRoot(p) then 0 else |p| }

  // ---------- The stored tree ----------

  datatype Node = File(data: seq<bv8>, perm: nat, modTime: int) | Directory(perm: nat, modTime: int)

  type Files = map<string, Node>

  datatype Error = NotExist | IsDirectory | NotDirectory | NotEmpty

  datatype Result<T> = Ok(value: T) | Err(error: Error)

  /** Every entry below the top level has its parent stored as a directory. */
  ghost predicate Tree(files: Files) {
    && "/" !in files
    && ("." in files ==> files["."].Directory?)
    && forall p | p in files ::
         Cleaned(p) && (p == "." || IsRoot(Dir(p)) || (Dir(p) in files && files[Dir(p)].Directory?))
  }

  /** p is an entry directly inside directory d. */
  ghost predicate ChildOf(files: Files, d: string, p: string) {
    p in files && p != d && Dir(p) == d
  }

  // ---------- Immediate children, found by prefix ----------

  function Prefix(d: string): string { if d == "." then "" else d + "/" }

  function RelativeChild(p: string, prefix: string): Option<string> {
    if prefix <= p then FirstName(p[|prefix|..]) else None
  }

  /** What comes before the first separator, if anything does. */
  function FirstName(rel: string): Option<string> {
    var i := FirstSlash(rel);
    var name := if i >= 0 then rel[..i] else rel;
    if name == "" then None else Some(name)
  }

  lemma FirstSlashUnique(s: string, i: int)
    requires -1 <= i < |s| && (i >= 0 ==> s[i] == '/')
    requires forall k | 0 <= k < (if i < 0 then |s| else i) :: s[k] != '/'
    ensures FirstSlash(s) == i
  {
  }

  lemma LastSlashUnique(s: string, i: int)
    requires -1 <= i < |s| && (i >= 0 ==> s[i] == '/')
    requires forall k | i < k < |s| :: s[k] != '/'
    ensures LastSlash(s) == i
  {
  }

  lemma DirSplitsPath(p: string)
    requires Cleaned(p)
    ensures Dir(p) == "." <==> LastSlash(p) < 0
    ensures Dir(p) == "/" <==> LastSlash(p) == 0
    ensures LastSlash(p) > 0 ==> Dir(p) == p[..LastSlash(p)]
  {
    var i := LastSlash(p);
    if i == 1 {
      assert p[..2] == [p[0], '/'];
    }
    assert i > 0 ==> p[i - 1] != '/';
  }

  lemma PlainNameIsFound(prefix: string, name: string)
    requires name != [] && forall k | 0 <= k < |name| :: name[k] != '/'
    ensures RelativeChild(prefix + name, prefix) == Some(name)
  {
    assert (prefix + name)[|prefix|..] == name;
    FirstSlashUnique(name, -1);
  }

  lemma BaseIsPlain(p: string)
    requires Cleaned(p) && p != "/"
    ensures p == p[..LastSlash(p) + 1] + Base(p)
    ensures Base(p) != [] && forall k | 0 <= k < |Base(p)| :: Base(p)[k] != '/'
  {
    var i := LastSlash(p);
    assert i + 1 < |p| by {
      assert i == 0 && |p| == 1 ==> p == "/";
    }
    assert p == p[..i + 1] + p[i + 1..];
  }

  /** The prefix of a path's directory is the path up to its last separator. */
  lemma PrefixOfDir(p: string)
    requires Cleaned(p) && Dir(p) != "/"
    ensures Prefix(Dir(p)) == p[..LastSlash(p) + 1]
  {
    DirSplitsPath(p);
    var i := LastSlash(p);
    if i > 0 {
      assert p[..i + 1] == p[..i] + [p[i]];
    }
  }

  /** A child of d is found under d's prefix, by its base name. */
  lemma ChildrenAreFound(d: string, p: string)
    requires Cleaned(d) && d != "/" && Cleaned(p) && p != d && Dir(p) == d
    ensures RelativeChild(p, Prefix(d)) == Some(Base(p))
  {
    PrefixOfDir(p);
    BaseIsPlain(p);
    PlainNameIsFound(Prefix(d), Base(p));
  }

  /** Cutting a path short keeps its first separator, unless it is cut off. */
  lemma FirstSlashOfStart(s: string, k: nat)
    requires k <= |s|
    ensures FirstSlash(s[..k]) == if FirstSlash(s) < k then FirstSlash(s) else -1
  {
    var i := FirstSlash(s);
    FirstSlashUnique(s[..k], if i < k then i else -1);
  }

  lemma CutStart(s: string, k: nat, i: nat)
    requires i <= k <= |s|
    ensures s[..k][..i] == s[..i]
  {
  }

  /** Behind its first name a path can be cut short without losing that name. */
  lemma CutKeepsFirstName(rel: string, k: nat)
    requires 0 <= FirstSlash(rel) <= k <= |rel|
    ensures FirstName(rel[..k]) == FirstName(rel)
  {
    FirstSlashOfStart(rel, k);
    CutStart(rel, k, FirstSlash(rel));
  }

  lemma CutTail(p: string, n: nat, last: nat)
    requires n <= last <= |p|
    ensures p[..last][n..] == p[n..][..last - n]
  {
  }

  lemma PrefixOfCut(p: string, prefix: string, last: nat)
    requires prefix <= p && |prefix| <= last <= |p|
    ensures prefix <= p[..last]
  {
  }

  /** Behind the first name and its separator comes the last separator. */
  lemma LastSlashFollows(p: string, n: nat)
    requires n <= |p| && FirstName(p[n..]).Some? && FirstSlash(p[n..]) >= 0
    ensures LastSlash(p) > n && LastSlash(p) - n >= FirstSlash(p[n..])
  {
    var i := FirstSlash(p[n..]);
    assert p[n + i] == '/';
    assert p[n..][..i] != "";
  }

  /** An entry deeper down is found under the same name as its parent. */
  lemma ParentIsFoundAlike(p: string, prefix: string)
    requires RelativeChild(p, prefix).Some? && FirstSlash(p[|prefix|..]) >= 0
    ensures LastSlash(p) > |prefix|
    ensures RelativeChild(p[..LastSlash(p)], prefix) == RelativeChild(p, prefix)
  {
    LastSlashFollows(p, |prefix|);
    CutIsFoundAlike(p, prefix, LastSlash(p));
  }

  lemma CutIsFoundAlike(p: string, prefix: string, last: nat)
    requires RelativeChild(p, prefix).Some? && |prefix| <= last <= |p|
    requires 0 <= FirstSlash(p[|prefix|..]) <= last - |prefix|
    ensures RelativeChild(p[..last], prefix) == RelativeChild(p, prefix)
  {
    PrefixOfCut(p, prefix, last);
    CutTail(p, |prefix|, last);
    CutKeepsFirstName(p[|prefix|..], last - |prefix|);
  }

  /** An entry right below the prefix of d has d as its parent. */
  lemma FoundPlainIsChild(d: string, p: string)
    requires Cleaned(d) && d != "/" && Cleaned(p)
    requires RelativeChild(p, Prefix(d)).Some? && FirstSlash(p[|Prefix(d)|..]) < 0
    ensures Dir(p) == d && Base(p) == RelativeChild(p, Prefix(d)).value
  {
    var n := |Prefix(d)|;
    LastSlashUnique(p, n - 1);
    assert d != "." ==> p[..n - 1] == d;
  }

  /** Whatever is found under d's prefix belongs to a child of d: climbing from
      p through stored parents ends at the child with the name that was found. */
  lemma {:induction false} FoundNamesAreChildren(files: Files, d: string, p: string) returns (child: string)
    requires Tree(files) && Cleaned(d) && d != "/" && p in files && p != d
    requires RelativeChild(p, Prefix(d)).Some?
    ensures ChildOf(files, d, child) && Base(child) == RelativeChild(p, Prefix(d)).value
    decreases |p|
  {
    if FirstSlash(p[|Prefix(d)|..]) < 0 {
      FoundPlainIsChild(d, p);
      child := p;
    } else {
      ParentIsFoundAlike(p, Prefix(d));
      DirSplitsPath(p);
      assert Dir(p) in files;
      child := FoundNamesAreChildren(files, d, Dir(p));
    }
  }

  /** A directory has a descendant, by prefix, exactly when it has a child. */
  lemma DescendantsMeanChildren(files: Files, d: string)
    requires Tree(files) && d in files && d != "."
    ensures (exists p | p in files :: p != d && d + "/" <= p) <==> exists p :: ChildOf(files, d, p)
  {
    forall p | p in files && p != d && d + "/" <= p
      ensures exists c :: ChildOf(files, d, c)
    {
      var n := |d| + 1;
      assert p[n - 1] == '/' && |p| > n;
      assert p[n..][0] != '/';
      var c := FoundNamesAreChildren(files, d, p);
    }
    forall p | ChildOf(files, d, p)
      ensures p in files && p != d && d + "/" <= p
    {
      ChildrenAreFound(d, p);
    }
  }

  // ---------- Missing parents ----------

  /** A path and everything above it, without the roots. */
  function Chain(p: string): set<string>
    requires Cleaned(p)
    decreases Rank(p)
  {
    DirIsCleaned(p);
    if IsRoot(p) then {} else {p} + Chain(Dir(p))
  }

  lemma {:induction false} StoredChain(files: Files, p: string)
    requires Tree(files) && Cleaned(p) && (IsRoot(p) || p in files)
    ensures forall q | q in Chain(p) && q != p :: q in files && files[q].Directory?
    decreases Rank(p)
  {
    DirIsCleaned(p);
    if !IsRoot(p) {
      StoredChain(files, Dir(p));
    }
  }

  /** q is p or a directory above it, by its text. */
  ghost predicate OnTheWay(q: string, p: string) { !IsRoot(p) && q != "" && (q == p || q + "/" <= p) }

  lemma {:induction false} ChainIsOnTheWay(p: string, q: string)
    requires Cleaned(p)
    ensures q in Chain(p) <==> OnTheWay(q, p)
    decreases Rank(p)
  {
    DirIsCleaned(p);
    DirSplitsPath(p);
    var i := LastSlash(p);
    if !IsRoot(p) {
      ChainIsOnTheWay(Dir(p), q);
      if i > 0 {
        UpToLastSlash(p, i, q);
      } else {
        SlashFollows(p, q);
      }
    }
  }

  lemma SlashFollows(p: string, q: string)
    ensures q + "/" <= p ==> |q| < |p| && p[|q|] == '/'
  {
    assert (q + "/")[|q|] == '/';
  }

  lemma UpToLastSlash(p: string, i: nat, q: string)
    requires i < |p| && p[i] == '/' && forall k | i < k < |p| :: p[k] != '/'
    ensures q + "/" <= p <==> q == p[..i] || q + "/" <= p[..i]
  {
    var s := q + "/";
    assert s[|q|] == '/';
    if s <= p {
      assert p[|q|] == '/';
      assert |q| <= i;
      assert s[..|q|] == q && p[..|q|] == q;
    }
    if q == p[..i] {
      assert s == p[..i + 1];
    }
  }

  lemma DirectoriesAreMade(files: Files, files': Files, p: string, ok: bool, perm: nat, now: int)
    requires Cleaned(p) && ok == NoFileAmong(files, Chain(p))
    requires files' == if ok then WithDirectories(files, Chain(p), perm, now) else files
    ensures ok <==> forall q | q in files && OnTheWay(q, p) :: files[q].Directory?
    ensures ok ==> MadeOnTheWay(files, files', p, perm, now)
  {
    forall q
      ensures q in Chain(p) <==> OnTheWay(q, p)
    {
      ChainIsOnTheWay(p, q);
    }
  }

  /** Exactly the directories missing on the way to p have been added. */
  ghost predicate MadeOnTheWay(files: Files, files': Files, p: string, perm: nat, now: int) {
    && (forall q :: q in files' <==> q in files || OnTheWay(q, p))
    && forall q | q in files' :: files'[q] == if q in files then files[q] else Directory(perm, now)
  }

  /** The files with the missing ones of these directories added. */
  ghost function WithDirectories(files: Files, paths: set<string>, perm: nat, now: int): Files {
    files + map q | q in paths && q !in files :: Directory(perm, now)
  }

  ghost predicate NoFileAmong(files: Files, paths: set<string>) {
    forall q | q in paths && q in files :: files[q].Directory?
  }

  /** One more directory below an existing one keeps the tree. */
  lemma AddKeepsTree(files: Files, p: string, node: Node)
    requires Tree(files) && Cleaned(p) && !IsRoot(p)
    requires p in files ==> files[p].File? || node.Directory?
    requires IsRoot(Dir(p)) || (Dir(p) in files && files[Dir(p)].Directory?)
    ensures Tree(files[p := node])
  {
  }

  /** Removing an entry without children keeps the tree; nothing hangs on ".". */
  lemma RemoveKeepsTree(files: Files, p: string)
    requires Tree(files) && p in files
    requires p == "." || files[p].File? || forall q :: !ChildOf(files, p, q)
    ensures Tree(files - {p})
  {
    forall q | q in files && q != p && !IsRoot(Dir(q)) && q != "."
      ensures Dir(q) != p
    {
      assert Dir(q) == p ==> ChildOf(files, p, q);
    }
  }

  lemma OneMoreDirectory(files: Files, paths: set<string>, p: string, perm: nat, now: int)
    requires p !in files
    ensures WithDirectories(files, paths, perm, now)[p := Directory(perm, now)]
         == WithDirectories(files, {p} + paths, perm, now)
  {
  }

  /** The last step of MkdirAll on p, once everything above p is there. */
  lemma MkdirLast(files: Files, p: string, perm: nat, now: int)
    requires Cleaned(p) && !IsRoot(p) && p !in files && Cleaned(Dir(p)) && NoFileAmong(files, Chain(Dir(p)))
    requires Tree(WithDirectories(files, Chain(Dir(p)), perm, now)) && p !in Chain(Dir(p))
    requires Chain(p) == {p} + Chain(Dir(p))
    ensures NoFileAmong(files, Chain(p))
    ensures WithDirectories(files, Chain(Dir(p)), perm, now)[p := Directory(perm, now)]
         == WithDirectories(files, Chain(p), perm, now)
    ensures Tree(WithDirectories(files, Chain(p), perm, now))
  {
    var parent, paths := Dir(p), Chain(Dir(p));
    var above := WithDirectories(files, paths, perm, now);
    OneMoreDirectory(files, paths, p, perm, now);
    assert !IsRoot(parent) ==> parent in paths;
    assert IsRoot(parent) || (parent in above && above[parent].Directory?);
    AddKeepsTree(above, p, Directory(perm, now));
  }

  lemma {:induction false} ChainIsNoLonger(p: string)
    requires Cleaned(p)
    ensures forall q | q in Chain(p) :: |q| <= |p|
    decreases Rank(p)
  {
    DirIsCleaned(p);
    if !IsRoot(p) {
      ChainIsNoLonger(Dir(p));
      if !IsRoot(Dir(p)) {
        assert |Dir(p)| < |p|;
      }
    }
  }

  lemma ChainLeavesPath(p: string)
    requires Cleaned(p) && !IsRoot(p)
    ensures p !in Chain(Dir(p))
  {
    DirIsCleaned(p);
    if !IsRoot(Dir(p)) {
      ChainIsNoLonger(Dir(p));
    }
  }

  // ---------- Names in order ----------

  predicate Less(a: string, b: string) {
    b != "" && (a == "" || a[0] < b[0] || (a[0] == b[0] && Less(a[1..], b[1..])))
  }

  lemma {:induction false} LessIsStrictOrder(a: string, b: string, c: string)
    ensures Less(a, b) && Less(b, c) ==> Less(a, c)
    ensures a != b ==> Less(a, b) || Less(b, a)
    ensures !Less(a, a)
  {
    if a != "" && b != "" && c != "" {
      LessIsStrictOrder(a[1..], b[1..], c[1..]);
      assert a == [a[0]] + a[1..] && b == [b[0]] + b[1..];
    } else if a != "" && b != "" {
      LessIsStrictOrder(a[1..], b[1..], c);
      assert a == [a[0]] + a[1..] && b == [b[0]] + b[1..];
    } else if a != "" {
      LessIsStrictOrder(a[1..], b, c);
    }
  }

  /** Before in the order of the characters: a proper start of the other name, or
      the smaller character at the first difference. */
  ghost predicate Before(a: string, b: string) {
    || a < b
    || exists k | 0 <= k < |a| && k < |b| :: a[..k] == b[..k] && a[k] < b[k]
  }

  lemma {:induction false} LessIsBefore(a: string, b: string)
    ensures Less(a, b) <==> Before(a, b)
  {
    if a != "" && b != "" && a[0] == b[0] {
      LessIsBefore(a[1..], b[1..]);
      assert a == [a[0]] + a[1..] && b == [b[0]] + b[1..];
      if k :| 0 <= k < |a[1..]| && k < |b[1..]| && a[1..][..k] == b[1..][..k] && a[1..][k] < b[1..][k] {
        assert a[..k + 1] == [a[0]] + a[1..][..k] && b[..k + 1] == [b[0]] + b[1..][..k];
        assert a[k + 1] < b[k + 1];
      }
      if k :| 0 <= k < |a| && k < |b| && a[..k] == b[..k] && a[k] < b[k] {
        assert a[1..][..k - 1] == a[..k][1..] && b[1..][..k - 1] == b[..k][1..];
        assert a[1..][k - 1] < b[1..][k - 1];
      }
    } else if a != "" && b != "" {
      assert a[..0] == b[..0];
      forall k | 0 <= k < |a| && k < |b| && a[..k] == b[..k]
        ensures k == 0
      {
        FirstAlike(a, b, k);
      }
    }
  }

  lemma SortedIsBefore(names: seq<string>)
    requires Sorted(names)
    ensures forall i, j | 0 <= i < j < |names| :: Before(names[i], names[j])
  {
    forall i, j | 0 <= i < j < |names|
      ensures Before(names[i], names[j])
    {
      LessIsBefore(names[i], names[j]);
    }
  }

  lemma FirstAlike(a: string, b: string, k: nat)
    requires k <= |a| && k <= |b| && a[..k] == b[..k]
    ensures k > 0 ==> a[0] == b[0]
  {
    if k > 0 {
      assert a[..k][0] == b[..k][0];
    }
  }

  ghost predicate Sorted(names: seq<string>) {
    forall i, j | 0 <= i < j < |names| :: Less(names[i], names[j])
  }

  /** A name put into its place among sorted other names. */
  function Insert(names: seq<string>, name: string): (r: seq<string>)
    ensures forall x :: x in r <==> x in names || x == name
  {
    if names == [] then [name]
    else if Less(name, names[0]) then [name] + names
    else
      assert names == [names[0]] + names[1..];
      [names[0]] + Insert(names[1..], name)
  }

  lemma {:induction false} InsertKeepsSorted(names: seq<string>, name: string)
    requires Sorted(names) && name !in names
    ensures Sorted(Insert(names, name))
  {
    if names != [] {
      var first := names[0];
      LessIsStrictOrder(name, first, name);
      if Less(name, first) {
        forall j | 0 <= j < |names|
          ensures Less(name, names[j])
        {
          LessIsStrictOrder(name, first, names[j]);
        }
      } else {
        var rest := Insert(names[1..], name);
        InsertKeepsSorted(names[1..], name);
        forall j | 0 <= j < |rest|
          ensures Less(first, rest[j])
        {
          assert rest[j] in rest;
          assert rest[j] != name ==> exists k | 1 <= k < |names| :: names[k] == rest[j];
        }
      }
    }
  }

  // ---------- The file system object ----------

  /** What reading a path returns. */
  function ReadAt(files: Files, p: string): Result<seq<bv8>> {
    if p !in files then Err(NotExist) else if files[p].Directory? then Err(IsDirectory) else Ok(files[p].data)
  }

  /** What removing a path returns, in terms of the tree. */
  ghost function RemoveOutcome(files: Files, p: string): Result<()> {
    if p !in files then Err(NotExist)
    else if p != "." && exists c :: ChildOf(files, p, c) then Err(NotEmpty)
    else Ok(())
  }

  /** The prefix test by which Remove refuses a directory finds something under
      every directory that has a child, but ".". */
  lemma NonEmptyIsRefusedIffNotDot(files: Files, d: string, c: string)
    requires Tree(files) && d in files && ChildOf(files, d, c)
    ensures (exists p | p in files :: p != d && d + "/" <= p) <==> d != "."
    ensures RemoveOutcome(files, d) == if d == "." then Ok(()) else Err(NotEmpty)
  {
    if exists p | p in files :: p != d && d + "/" <= p {
      NothingUnderDot(files, d);
    }
    if d != "." {
      DescendantsMeanChildren(files, d);
    }
  }

  /** Here "." is removed although it has a child, which then has no parent. */
  lemma DotIsRemovedWithChild()
    ensures var files := map["." := Directory(0x1ed, 0), "a" := File([], 0, 0)];
            && Tree(files) && ChildOf(files, ".", "a") && RemoveOutcome(files, ".") == Ok(())
            && "a" in files - {"."} && Dir("a") !in files - {"."}
  {
    LastSlashUnique("a", -1);
    LastSlashUnique(".", -1);
    assert Dir("a") == ".";
  }

  class Mem {
    var files: Files

    ghost predicate Valid() reads this { Tree(files) }

    constructor ()
      ensures Valid() && files == map["." := Directory(0x1ed, 0)]
    {
      files := map["." := Directory(0x1ed, 0)];
    }

    method ReadFile(clean: string) returns (r: Result<seq<bv8>>)
      requires Valid() && Cleaned(clean)
      ensures r == ReadAt(files, clean)
      ensures r.Ok? <==> clean in files && files[clean].File?
      ensures r.Ok? ==> r.value == files[clean].data
      ensures r.Err? ==> r.error == if clean in files then IsDirectory else NotExist
    {
      if clean !in files {
        return Err(NotExist);
      }
      if files[clean].Directory? {
        return Err(IsDirectory);
      }
      return Ok(files[clean].data);
    }

    /** WriteFile needs a parent directory and refuses to replace a directory. */
    method WriteFile(clean: string, data: seq<bv8>, perm: nat, now: int) returns (r: Result<()>)
      requires Valid() && Cleaned(clean)
      modifies this
      ensures Valid()
      ensures files == if r.Ok? then old(files)[clean := File(data, perm, now)] else old(files)
      ensures r == if IsRoot(clean) || (clean in old(files) && old(files)[clean].Directory?) then Err(IsDirectory)
                   else if || IsRoot(Dir(clean))
                            || (Dir(clean) in old(files) && old(files)[Dir(clean)].Directory?) then Ok(())
                   else Err(NotExist)
      ensures r.Ok? ==> ReadAt(files, clean) == Ok(data)
      ensures forall q | q != clean :: ReadAt(files, q) == ReadAt(old(files), q)
    {
      if clean == "." || clean == "/" {
        return Err(IsDirectory);
      }
      if clean in files && files[clean].Directory? {
        return Err(IsDirectory);
      }
      var parent := Dir(clean);
      if parent != "." && parent != "/" {
        if !(parent in files && files[parent].Directory?) {
          return Err(NotExist);
        }
      }
      AddKeepsTree(files, clean, File(data, perm, now));
      files := files[clean := File(data, perm, now)];
      return Ok(());
    }

    /** MkdirAll succeeds exactly when nothing on the way is a file. It then
        adds precisely the missing directories; otherwise it changes nothing. */
    method MkdirAllLocked(clean: string, perm: nat, now: int) returns (r: Result<()>)
      requires Valid() && Cleaned(clean)
      modifies this
      ensures Valid()
      ensures r == if NoFileAmong(old(files), Chain(clean)) then Ok(()) else Err(NotDirectory)
      ensures files == if r.Ok? then WithDirectories(old(files), Chain(clean), perm, now) else old(files)
      decreases Rank(clean)
    {
      if clean == "." || clean == "/" {
        return Ok(());
      }
      DirIsCleaned(clean);
      if clean in files {
        StoredChain(files, clean);
        assert clean in Chain(clean);
        if files[clean].Directory? {
          assert files == WithDirectories(files, Chain(clean), perm, now);
          return Ok(());
        }
        return Err(NotDirectory);
      }
      ghost var before := files;
      r := MkdirAllLocked(Dir(clean), perm, now);
      ChainLeavesPath(clean);
      assert Chain(clean) == {clean} + Chain(Dir(clean));
      if r.Err? {
        return;
      }
      MkdirLast(before, clean, perm, now);
      files := files[clean := Directory(perm, now)];
      return Ok(());
    }

    /** MkdirAll makes a path and everything above it a directory, unless a file
        is in the way. */
    method MkdirAll(clean: string, perm: nat, now: int) returns (r: Result<()>)
      requires Valid() && Cleaned(clean)
      modifies this
      ensures Valid()
      ensures r.Ok? <==> forall q | q in old(files) && OnTheWay(q, clean) :: old(files)[q].Directory?
      ensures if r.Ok? then MadeOnTheWay(old(files), files, clean, perm, now)
              else r == Err(NotDirectory) && files == old(files)
    {
      r := MkdirAllLocked(clean, perm, now);
      DirectoriesAreMade(old(files), files, clean, r.Ok?, perm, now);
    }

    /** Remove deletes one entry and refuses a directory that has a child,
        except that "." is never found to have any. */
    method Remove(clean: string) returns (r: Result<()>)
      requires Valid() && Cleaned(clean)
      modifies this
      ensures Valid()
      ensures files == if r.Ok? then old(files) - {clean} else old(files)
      ensures r == RemoveOutcome(old(files), clean)
      ensures clean !in old(files) ==> r == Err(NotExist)
      ensures r.Ok? ==> ReadAt(files, clean) == Err(NotExist)
    {
      if clean !in files {
        return Err(NotExist);
      }
      if clean != "." {
        DescendantsMeanChildren(files, clean);
      }
      if files[clean].Directory? {
        var prefix := clean + "/";
        if exists p | p in files :: p != clean && prefix <= p {
          NothingUnderDot(files, clean);
          return Err(NotEmpty);
        }
      } else {
        FilesHaveNoChildren(files, clean);
      }
      RemoveKeepsTree(files, clean);
      files := files - {clean};
      return Ok(());
    }

    /** ReadDir lists, in order and once each, exactly the base names of the
        entries whose parent is the directory. "/" is never stored, so that
        listing it always fails. */
    method ReadDir(clean: string) returns (r: Result<seq<string>>)
      requires Valid() && Cleaned(clean)
      ensures r.Err? <==> clean != "." && (clean !in files || files[clean].File?)
      ensures r.Err? ==> r.error == if clean in files then NotDirectory else NotExist
      ensures clean == "/" ==> r == Err(NotExist)
      ensures r.Ok? ==> Sorted(r.value)
      ensures r.Ok? ==> forall i, j | 0 <= i < j < |r.value| :: Before(r.value[i], r.value[j])
      ensures r.Ok? ==> forall name :: name in r.value <==> exists p :: ChildOf(files, clean, p) && Base(p) == name
    {
      if clean != "." {
        if clean !in files {
          return Err(NotExist);
        }
        if files[clean].File? {
          return Err(NotDirectory);
        }
      }
      var names := CollectNames(clean);
      ListedAreChildren(files, clean);
      SortedIsBefore(names);
      return Ok(names);
    }

    /** The loop of ReadDir over all entries. */
    method CollectNames(clean: string) returns (names: seq<string>)
      ensures ListsAll(names, files, clean, files.Keys)
    {
      var prefix := Prefix(clean);
      var all := files.Keys;
      var left := all;
      names := [];
      ghost var done: set<string> := {};
      while left != {}
        invariant done + left == all
        invariant ListsAll(names, files, clean, done)
        decreases left
      {
        var p :| p in left;
        names := AddListed(names, files, clean, done, p, prefix);
        left := left - {p};
        done := done + {p};
      }
      assert done == all;
    }
  }

  /** name is found for one of these paths under the prefix of d. */
  ghost predicate Listed(files: Files, d: string, paths: set<string>, name: string) {
    exists p :: p in paths && p != d && RelativeChild(p, Prefix(d)) == Some(name)
  }

  ghost predicate ListsAll(names: seq<string>, files: Files, d: string, paths: set<string>) {
    Sorted(names) && forall name :: name in names <==> Listed(files, d, paths, name)
  }

  /** One turn of ReadDir's loop: a name is added the first time it is found. */
  method AddListed(names: seq<string>, files: Files, d: string, ghost paths: set<string>, p: string, prefix: string)
    returns (r: seq<string>)
    requires ListsAll(names, files, d, paths) && prefix == Prefix(d)
    ensures ListsAll(r, files, d, paths + {p})
  {
    ListedGrows(files, d, paths, p);
    r := names;
    var rel := RelativeChild(p, prefix);
    if p != d && rel.Some? && rel.value !in names {
      InsertKeepsSorted(names, rel.value);
      r := Insert(names, rel.value);
    }
  }

  lemma ListedGrows(files: Files, d: string, paths: set<string>, p: string)
    ensures forall name :: Listed(files, d, paths + {p}, name) <==>
      Listed(files, d, paths, name) || (p != d && RelativeChild(p, Prefix(d)) == Some(name))
  {
    forall name
      ensures Listed(files, d, paths + {p}, name) <==>
        Listed(files, d, paths, name) || (p != d && RelativeChild(p, Prefix(d)) == Some(name))
    {
      if Listed(files, d, paths, name) {
        var q :| q in paths && q != d && RelativeChild(q, Prefix(d)) == Some(name);
        assert q in paths + {p};
      }
      if p != d && RelativeChild(p, Prefix(d)) == Some(name) {
        assert p in paths + {p};
      }
    }
  }

  lemma ListedAreChildren(files: Files, d: string)
    requires Tree(files) && Cleaned(d) && d != "/"
    ensures forall name :: Listed(files, d, files.Keys, name) <==> exists p :: ChildOf(files, d, p) && Base(p) == name
  {
    forall name
      ensures Listed(files, d, files.Keys, name) <==> exists p :: ChildOf(files, d, p) && Base(p) == name
    {
      if Listed(files, d, files.Keys, name) {
        var p :| p in files.Keys && p != d && RelativeChild(p, Prefix(d)) == Some(name);
        var c := FoundNamesAreChildren(files, d, p);
      }
      if p :| ChildOf(files, d, p) && Base(p) == name {
        ChildrenAreFound(d, p);
        assert p in files.Keys;
      }
    }
  }

  lemma FilesHaveNoChildren(files: Files, p: string)
    requires Tree(files) && p in files && files[p].File?
    ensures forall q :: !ChildOf(files, p, q)
  {
  }

  /** No cleaned path starts with "./". */
  lemma NothingUnderDot(files: Files, d: string)
    requires Tree(files) && exists p | p in files :: p != d && d + "/" <= p
    ensures d != "."
  {
    var p :| p in files && p != d && d + "/" <= p;
    assert Cleaned(p);
    assert "." + "/" == ['.', '/'];
  }
}
