// The two `-z` decoders of taskDiff in lib/git.ts: `git diff --name-status -z`
// and `git diff --numstat -z` into one list of changed files.
module DiffRecords {
  import opened Wrappers
  import opened JsText

  const NUL := '\0'
  const TAB := '\t'

  // What a DiffFile holds after decoding.  The status is undefined when a
  // malformed text has an empty field there.
  datatype Record = Record(path: string, status: Option<char>, additions: int, deletions: int, binary: bool)

  // ---------- the decoders as functions of the fields ----------

  function TwoPaths(field: string): bool {
    field != "" && (field[0] == 'R' || field[0] == 'C')
  }

  function NewRecord(field: string, path: string): Record {
    Record(path, if field == "" then None else Some(field[0]), 0, 0, false)
  }

  function StatusRecords(ns: seq<string>): seq<Record>
    decreases |ns|
  {
    if |ns| < 2 then []
    else
      var p := At(ns, if TwoPaths(ns[0]) then 2 else 1);
      (if p == "" then [] else [NewRecord(ns[0], p)])
      + StatusRecords(Drop(ns, if TwoPaths(ns[0]) then 3 else 2))
  }

  // byPath answers with the last file entered under a path.
  function LastAt(files: seq<Record>, path: string): (i: Option<nat>)
    ensures i.Some? ==> i.value < |files| && files[i.value].path == path
    ensures i.Some? ==> forall j :: i.value < j < |files| ==> files[j].path != path
    ensures i.None? ==> forall j :: 0 <= j < |files| ==> files[j].path != path
  {
    if files == [] then None
    else if files[|files| - 1].path == path then Some(|files| - 1)
    else LastAt(files[..|files| - 1], path)
  }

  function Count(r: Record, add: string, del: string): Record {
    if add == "-" || del == "-" then r.(binary := true)
    else r.(additions := ParseInt(add), deletions := ParseInt(del))
  }

  function CountAt(files: seq<Record>, path: string, add: string, del: string): (r: seq<Record>)
    ensures |r| == |files|
    ensures forall i :: 0 <= i < |files| ==> r[i].path == files[i].path && r[i].status == files[i].status
  {
    match LastAt(files, path)
    case None => files
    case Some(i) => files[i := Count(files[i], add, del)]
  }

  // The path an entry is about: written inline, or two fields further on.
  function EntryPath(num: seq<string>): string
    requires num != []
  {
    var inlinePath := At(Split(num[0], TAB), 2);
    if inlinePath != "" then inlinePath else At(num, 2)
  }

  function CountRecords(files: seq<Record>, num: seq<string>): seq<Record>
    decreases |num|
  {
    if num == [] then files
    else if num[0] == "" then CountRecords(files, num[1..])
    else
      var parts := Split(num[0], TAB);
      CountRecords(
        CountAt(files, EntryPath(num), parts[0], At(parts, 1)),
        Drop(num, if At(parts, 2) != "" then 1 else 3))
  }

  function Decoded(nameStatus: string, numstat: string): seq<Record> {
    CountRecords(StatusRecords(Split(nameStatus, NUL)), Split(numstat, NUL))
  }

  // ---------- the code ----------

  class DiffFile {
    const path: string
    const status: Option<char>
    var additions: int
    var deletions: int
    var binary: bool

    constructor (path: string, status: Option<char>)
      ensures Value() == Record(path, status, 0, 0, false)
    {
      this.path := path;
      this.status := status;
      additions := 0;
      deletions := 0;
      binary := false;
    }

    ghost function Value(): Record
      reads this
    {
      Record(path, status, additions, deletions, binary)
    }
  }

  ghost predicate Distinct(files: seq<DiffFile>) {
    forall i, j :: 0 <= i < j < |files| ==> files[i] != files[j]
  }

  ghost function Values(files: seq<DiffFile>): (rs: seq<Record>)
    reads files
    ensures |rs| == |files|
    ensures forall i :: 0 <= i < |files| ==> rs[i] == files[i].Value()
  {
    if files == [] then [] else Values(files[..|files| - 1]) + [files[|files| - 1].Value()]
  }

  // byPath shares its files with the list: it holds the last one of each path.
  ghost predicate Indexes(byPath: map<string, DiffFile>, files: seq<DiffFile>)
    reads files
  {
    && (forall p :: p in byPath <==> LastAt(Values(files), p).Some?)
    && (forall p :: p in byPath ==> byPath[p] == files[LastAt(Values(files), p).value])
  }

  method DecodeNameStatus(nameStatus: string) returns (files: seq<DiffFile>, byPath: map<string, DiffFile>)
    ensures fresh(files) && Distinct(files) && Indexes(byPath, files)
    ensures Values(files) == StatusRecords(Split(nameStatus, NUL))
  {
    var ns := Split(nameStatus, NUL);
    files, byPath := [], map[];
    var i := 0;
    while i + 1 < |ns|
      invariant 0 <= i
      invariant fresh(files) && Distinct(files) && Indexes(byPath, files)
      invariant Values(files) + StatusRecords(Drop(ns, i)) == StatusRecords(ns)
    {
      files, byPath, i := ReadStatus(ns, i, files, byPath);
    }
  }

  // One pass of the loop.
  method ReadStatus(ns: seq<string>, i: nat, files: seq<DiffFile>, byPath: map<string, DiffFile>)
    returns (files': seq<DiffFile>, byPath': map<string, DiffFile>, i': nat)
    requires i + 1 < |ns| && Distinct(files) && Indexes(byPath, files)
    ensures i' > i && Distinct(files') && Indexes(byPath', files')
    ensures forall k :: 0 <= k < |files'| ==> files'[k] in files || fresh(files'[k])
    ensures Values(files') + StatusRecords(Drop(ns, i')) == Values(files) + StatusRecords(Drop(ns, i))
  {
    var twoPaths := TwoPaths(ns[i]);
    var p := if twoPaths then At(ns, i + 2) else At(ns, i + 1);
    StatusStep(ns, i, Values(files));
    files', byPath' := files, byPath;
    if p != "" {
      var f := NewFile(files, byPath, p, if ns[i] == "" then None else Some(ns[i][0]));
      byPath' := byPath[p := f];
      files' := files + [f];
    }
    i' := i + if twoPaths then 3 else 2;
  }

  // What one pass of the loop moves from the fields to the list.
  lemma StatusStep(ns: seq<string>, i: nat, done: seq<Record>)
    requires i + 1 < |ns|
    ensures var two := TwoPaths(ns[i]);
            var p := At(ns, if two then i + 2 else i + 1);
            var more := StatusRecords(Drop(ns, if two then i + 3 else i + 2));
            && (p == "" ==> done + StatusRecords(Drop(ns, i)) == done + more)
            && (p != "" ==> done + StatusRecords(Drop(ns, i)) == done + [NewRecord(ns[i], p)] + more)
  {
    var rest := Drop(ns, i);
    var k := if TwoPaths(ns[i]) then 2 else 1;
    AtDrop(ns, i, k);
    DropDrop(ns, i, k + 1);
    var p := At(ns, i + k);
    var more := StatusRecords(Drop(ns, i + k + 1));
    calc {
      StatusRecords(rest);
    ==
      (if p == "" then [] else [NewRecord(ns[i], p)]) + more;
    }
    if p != "" {
      assert done + ([NewRecord(ns[i], p)] + more) == done + [NewRecord(ns[i], p)] + more;
    } else {
      assert [] + more == more;
    }
  }

  method NewFile(ghost files: seq<DiffFile>, ghost byPath: map<string, DiffFile>, p: string, status: Option<char>)
    returns (f: DiffFile)
    requires Distinct(files) && Indexes(byPath, files)
    ensures fresh(f) && Distinct(files + [f]) && Indexes(byPath[p := f], files + [f])
    ensures Values(files + [f]) == Values(files) + [Record(p, status, 0, 0, false)]
  {
    f := new DiffFile(p, status);
    AddFile(files, byPath, f);
  }

  lemma AddFile(files: seq<DiffFile>, byPath: map<string, DiffFile>, f: DiffFile)
    requires Indexes(byPath, files) && f !in files
    ensures Values(files + [f]) == Values(files) + [f.Value()]
    ensures Indexes(byPath[f.path := f], files + [f])
  {
    var more := files + [f];
    assert more[..|more| - 1] == files;
    var vs := Values(more);
    assert vs[..|vs| - 1] == Values(files);
  }

  method DecodeNumstat(files: seq<DiffFile>, byPath: map<string, DiffFile>, numstat: string)
    requires Distinct(files) && Indexes(byPath, files)
    modifies files
    ensures Values(files) == CountRecords(old(Values(files)), Split(numstat, NUL))
  {
    var num := Split(numstat, NUL);
    var i := 0;
    while i < |num|
      invariant 0 <= i
      invariant Indexes(byPath, files)
      invariant CountRecords(Values(files), Drop(num, i)) == CountRecords(old(Values(files)), num)
    {
      i := ReadCounts(files, byPath, num, i);
    }
  }

  // One pass of the loop.
  method ReadCounts(ghost files: seq<DiffFile>, byPath: map<string, DiffFile>, num: seq<string>, i: nat)
    returns (i': nat)
    requires i < |num| && Distinct(files) && Indexes(byPath, files)
    modifies files
    ensures i' > i && Indexes(byPath, files)
    ensures CountRecords(Values(files), Drop(num, i')) == CountRecords(old(Values(files)), Drop(num, i))
  {
    ghost var rest := Drop(num, i);
    var entry := num[i];
    i' := i + 1;
    if entry != "" {
      var parts := Split(entry, TAB);
      var p := At(parts, 2);
      if p == "" {
        p := At(num, i' + 1);
        i' := i' + 2;
      }
      assert p == EntryPath(rest);
      assert Drop(num, i') == Drop(rest, if At(parts, 2) != "" then 1 else 3);
      if p in byPath {
        SetCounts(files, byPath, byPath[p], parts[0], At(parts, 1));
      }
    } else {
      assert Drop(num, i') == rest[1..];
    }
  }

  method SetCounts(
    ghost files: seq<DiffFile>, ghost byPath: map<string, DiffFile>, f: DiffFile, add: string, del: string)
    requires Distinct(files) && Indexes(byPath, files)
    requires f.path in byPath && byPath[f.path] == f
    modifies f
    ensures Indexes(byPath, files)
    ensures Values(files) == CountAt(old(Values(files)), f.path, add, del)
  {
    ghost var was := Values(files);
    ghost var i := LastAt(was, f.path).value;
    if add == "-" || del == "-" {
      f.binary := true;
    } else {
      f.additions := ParseInt(add);
      f.deletions := ParseInt(del);
    }
    OneCounted(files, was, i, add, del);
    SamePathsSameLast(was, Values(files));
  }

  // File i has been counted, and the others are as they were.
  lemma OneCounted(files: seq<DiffFile>, was: seq<Record>, i: nat, add: string, del: string)
    requires |was| == |files| && i < |files| && LastAt(was, was[i].path) == Some(i)
    requires files[i].Value() == Count(was[i], add, del)
    requires forall k :: 0 <= k < |files| && k != i ==> files[k].Value() == was[k]
    ensures Values(files) == CountAt(was, was[i].path, add, del)
  {
  }

  lemma {:induction false} SamePathsSameLast(a: seq<Record>, b: seq<Record>)
    requires |a| == |b| && forall i :: 0 <= i < |a| ==> a[i].path == b[i].path
    ensures forall p :: LastAt(a, p) == LastAt(b, p)
  {
    if a != [] {
      SamePathsSameLast(a[..|a| - 1], b[..|b| - 1]);
    }
  }

  method Decode(nameStatus: string, numstat: string) returns (files: seq<DiffFile>)
    ensures fresh(files) && Values(files) == Decoded(nameStatus, numstat)
  {
    var byPath;
    files, byPath := DecodeNameStatus(nameStatus);
    DecodeNumstat(files, byPath, numstat);
  }
}
