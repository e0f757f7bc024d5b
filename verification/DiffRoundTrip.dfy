// The decoders of DiffRecords against the record formats git documents for
// `diff --name-status -z` and `diff --numstat -z`.
module DiffRoundTrip {
  import opened Wrappers
  import opened JsText
  import opened DiffRecords

  // ---------- what git prints ----------

  datatype Paths = One(path: string) | Two(src: string, dst: string)

  datatype Counts = Lines(add: nat, del: nat) | BinaryFile

  // status is a letter and, for renames and copies, a score: "M", "R087".
  datatype Change = Change(status: string, paths: Paths, counts: Counts)

  function Dst(c: Change): string {
    if c.paths.One? then c.paths.path else c.paths.dst
  }

  predicate WellFormed(c: Change) {
    && c.status != "" && NUL !in c.status
    && (c.paths.Two? <==> c.status[0] == 'R' || c.status[0] == 'C')
    && Dst(c) != "" && NUL !in Dst(c)
    && (c.paths.Two? ==> NUL !in c.paths.src)
  }

  // Numstat writes a single path inline, behind the second tab.
  predicate TabFree(c: Change) {
    c.paths.One? ==> TAB !in c.paths.path
  }

  predicate NoLeadingTab(c: Change) {
    c.paths.One? ==> c.paths.path != "" && c.paths.path[0] != TAB
  }

  predicate DistinctDst(cs: seq<Change>) {
    forall i, j :: 0 <= i < j < |cs| ==> Dst(cs[i]) != Dst(cs[j])
  }

  function StatusFields(c: Change): seq<string> {
    match c.paths
    case One(p) => [c.status, p]
    case Two(s, d) => [c.status, s, d]
  }

  function CountText(c: Counts): string {
    match c
    case Lines(a, d) => Decimal(a) + [TAB] + Decimal(d) + [TAB]
    case BinaryFile => "-" + [TAB] + "-" + [TAB]
  }

  function NumFields(c: Change): seq<string> {
    match c.paths
    case One(p) => [CountText(c.counts) + p]
    case Two(s, d) => [CountText(c.counts), s, d]
  }

  function AllStatus(cs: seq<Change>): seq<string> {
    if cs == [] then [] else StatusFields(cs[0]) + AllStatus(cs[1..])
  }

  function AllNum(cs: seq<Change>): seq<string> {
    if cs == [] then [] else NumFields(cs[0]) + AllNum(cs[1..])
  }

  function PrintStatus(cs: seq<Change>): string { Terminated(AllStatus(cs), NUL) }

  function PrintNum(cs: seq<Change>): string { Terminated(AllNum(cs), NUL) }

  // ---------- the name-status decoder inverts its format ----------

  function Fresh(c: Change): Record {
    Record(Dst(c), if c.status == "" then None else Some(c.status[0]), 0, 0, false)
  }

  function FreshAll(cs: seq<Change>): (rs: seq<Record>)
    ensures |rs| == |cs| && forall k :: 0 <= k < |cs| ==> rs[k] == Fresh(cs[k])
  {
    if cs == [] then [] else [Fresh(cs[0])] + FreshAll(cs[1..])
  }

  lemma StatusOne(c: Change, rest: seq<string>)
    requires WellFormed(c) && rest != []
    ensures StatusRecords(StatusFields(c) + rest) == [Fresh(c)] + StatusRecords(rest)
  {
    var ns := StatusFields(c) + rest;
    assert Drop(ns, |StatusFields(c)|) == rest;
  }

  lemma {:induction false} StatusInverts(cs: seq<Change>)
    requires forall c :: c in cs ==> WellFormed(c)
    ensures StatusRecords(AllStatus(cs) + [""]) == FreshAll(cs)
  {
    if cs != [] {
      StatusInverts(cs[1..]);
      StatusOne(cs[0], AllStatus(cs[1..]) + [""]);
      assert AllStatus(cs) + [""] == StatusFields(cs[0]) + (AllStatus(cs[1..]) + [""]);
    }
  }

  lemma {:induction false} StatusFieldsClean(cs: seq<Change>)
    requires forall c :: c in cs ==> WellFormed(c)
    ensures forall t :: t in AllStatus(cs) ==> NUL !in t
  {
    if cs != [] {
      StatusFieldsClean(cs[1..]);
      assert cs[0] in cs;
      forall t | t in AllStatus(cs) ensures NUL !in t {
        assert t in StatusFields(cs[0]) || t in AllStatus(cs[1..]);
      }
    }
  }

  // ---------- the numstat decoder ----------

  lemma {:induction false} DecimalClean(n: nat, c: char)
    requires !IsDigit(c)
    ensures c !in Decimal(n)
  {
  }

  lemma CountTextSplits(c: Counts, p: string)
    ensures var parts := Split(CountText(c) + p, TAB);
            && |parts| >= 3 && parts[2] == Split(p, TAB)[0]
            && (c.Lines? ==> parts[0] == Decimal(c.add) && parts[1] == Decimal(c.del))
            && (c.BinaryFile? ==> parts[0] == "-")
  {
    var a := if c.Lines? then Decimal(c.add) else "-";
    var d := if c.Lines? then Decimal(c.del) else "-";
    if c.Lines? {
      DecimalClean(c.add, TAB);
      DecimalClean(c.del, TAB);
    }
    SplitFirst(a, TAB, d + [TAB] + p);
    SplitFirst(d, TAB, p);
    assert CountText(c) + p == a + [TAB] + (d + [TAB] + p);
  }

  lemma CountTextClean(c: Counts)
    ensures NUL !in CountText(c) && CountText(c) != ""
  {
    if c.Lines? {
      DecimalClean(c.add, NUL);
      DecimalClean(c.del, NUL);
    }
  }

  function SetCounts(r: Record, c: Counts): Record {
    match c
    case Lines(a, d) => r.(additions := a, deletions := d)
    case BinaryFile => r.(binary := true)
  }

  lemma CountSets(r: Record, c: Counts, p: string)
    ensures var parts := Split(CountText(c) + p, TAB); Count(r, parts[0], At(parts, 1)) == SetCounts(r, c)
  {
    CountTextSplits(c, p);
    if c.Lines? {
      ParseDecimal(c.add);
      ParseDecimal(c.del);
      assert IsDigit(Decimal(c.add)[0]) && IsDigit(Decimal(c.del)[0]);
    }
  }

  // The path under which the decoder files a record's counts.
  function Key(c: Change): string {
    match c.paths
    case One(p) => Split(p, TAB)[0]
    case Two(_, d) => d
  }

  function SetAt(files: seq<Record>, key: string, c: Counts): (r: seq<Record>)
    ensures |r| == |files|
    ensures forall i :: 0 <= i < |files| ==> r[i] == if files[i].path == key then SetCounts(files[i], c) else files[i]
  {
    if files == [] then []
    else SetAt(files[..|files| - 1], key, c)
         + [if files[|files| - 1].path == key then SetCounts(files[|files| - 1], c) else files[|files| - 1]]
  }

  predicate DistinctPaths(files: seq<Record>) {
    forall i, j :: 0 <= i < j < |files| ==> files[i].path != files[j].path
  }

  lemma CountAtSets(files: seq<Record>, key: string, c: Counts, p: string)
    requires DistinctPaths(files)
    ensures var parts := Split(CountText(c) + p, TAB);
            CountAt(files, key, parts[0], At(parts, 1)) == SetAt(files, key, c)
  {
    var i := LastAt(files, key);
    if i.Some? { CountSets(files[i.value], c, p); }
  }

  lemma LeadingPiece(p: string)
    requires p != "" && p[0] != TAB
    ensures Split(p, TAB)[0] != ""
  {
  }

  lemma NumOne(files: seq<Record>, c: Change, rest: seq<string>)
    requires WellFormed(c) && NoLeadingTab(c) && DistinctPaths(files)
    ensures CountRecords(files, NumFields(c) + rest) == CountRecords(SetAt(files, Key(c), c.counts), rest)
  {
    var num := NumFields(c) + rest;
    var p := if c.paths.One? then c.paths.path else "";
    assert CountText(c.counts) + "" == CountText(c.counts);
    assert num[0] == CountText(c.counts) + p;
    CountTextClean(c.counts);
    CountTextSplits(c.counts, p);
    CountAtSets(files, Key(c), c.counts, p);
    assert Drop(num, |NumFields(c)|) == rest;
    if c.paths.One? { LeadingPiece(p); }
    assert EntryPath(num) == Key(c);
  }

  // Any text at all: a dash in either count marks the file binary and leaves its
  // numbers alone, anything else is read as two numbers.
  lemma DashMeansBinary(files: seq<Record>, add: string, del: string, p: string, rest: seq<string>)
    requires TAB !in add && TAB !in del && TAB !in p && p != "" && DistinctPaths(files)
    ensures var entry := add + [TAB] + (del + [TAB] + p);
            var counted := CountRecords(files, [entry] + rest);
            && (add == "-" || del == "-" ==> counted == CountRecords(SetAt(files, p, BinaryFile), rest))
            && (add != "-" && del != "-" ==>
                  counted == CountRecords(Numbered(files, p, ParseInt(add), ParseInt(del)), rest))
  {
    var entry := add + [TAB] + (del + [TAB] + p);
    SplitFirst(add, TAB, del + [TAB] + p);
    SplitFirst(del, TAB, p);
    SplitWithout(p, TAB);
    assert ([entry] + rest)[1..] == rest && Drop([entry] + rest, 1) == rest;
    assert Split(entry, TAB) == [add, del, p];
    CountAtIs(files, p, add, del);
  }

  function Numbered(files: seq<Record>, key: string, a: int, d: int): (r: seq<Record>)
    ensures |r| == |files|
    ensures forall i :: 0 <= i < |files| ==>
              r[i] == if files[i].path == key then files[i].(additions := a, deletions := d) else files[i]
  {
    seq(|files|, i requires 0 <= i < |files| =>
      if files[i].path == key then files[i].(additions := a, deletions := d) else files[i])
  }

  lemma CountAtIs(files: seq<Record>, key: string, add: string, del: string)
    requires DistinctPaths(files)
    ensures CountAt(files, key, add, del)
         == if add == "-" || del == "-" then SetAt(files, key, BinaryFile)
            else Numbered(files, key, ParseInt(add), ParseInt(del))
  {
  }

  function SetAll(files: seq<Record>, ds: seq<Change>): (r: seq<Record>)
    ensures |r| == |files|
    ensures forall i :: 0 <= i < |files| ==> r[i].path == files[i].path
    decreases |ds|
  {
    if ds == [] then files else SetAll(SetAt(files, Key(ds[0]), ds[0].counts), ds[1..])
  }

  lemma {:induction false} NumPrefix(files: seq<Record>, ds: seq<Change>, rest: seq<string>)
    requires DistinctPaths(files)
    requires forall d :: d in ds ==> WellFormed(d) && NoLeadingTab(d)
    ensures CountRecords(files, AllNum(ds) + rest) == CountRecords(SetAll(files, ds), rest)
    decreases |ds|
  {
    if ds == [] {
      assert AllNum(ds) + rest == rest;
    } else {
      NumPrefix(SetAt(files, Key(ds[0]), ds[0].counts), ds[1..], rest);
      assert ds[0] in ds;
      NumOne(files, ds[0], AllNum(ds[1..]) + rest);
      assert AllNum(ds) + rest == NumFields(ds[0]) + (AllNum(ds[1..]) + rest);
    }
  }

  lemma NumInverts(files: seq<Record>, ds: seq<Change>)
    requires DistinctPaths(files)
    requires forall d :: d in ds ==> WellFormed(d) && NoLeadingTab(d)
    ensures CountRecords(files, AllNum(ds) + [""]) == SetAll(files, ds)
  {
    NumPrefix(files, ds, [""]);
  }

  lemma {:induction false} NumFieldsClean(ds: seq<Change>)
    requires forall d :: d in ds ==> WellFormed(d)
    ensures forall t :: t in AllNum(ds) ==> NUL !in t
  {
    if ds != [] {
      NumFieldsClean(ds[1..]);
      CountTextClean(ds[0].counts);
      assert ds[0] in ds;
      forall t | t in AllNum(ds) ensures NUL !in t {
        assert t in NumFields(ds[0]) || t in AllNum(ds[1..]);
      }
    }
  }

  lemma DecodedFields(cs: seq<Change>, ds: seq<Change>)
    requires forall c :: c in cs ==> WellFormed(c)
    requires forall d :: d in ds ==> WellFormed(d)
    ensures Decoded(PrintStatus(cs), PrintNum(ds)) == CountRecords(FreshAll(cs), AllNum(ds) + [""])
  {
    StatusFieldsClean(cs);
    SplitTerminated(AllStatus(cs), NUL);
    StatusInverts(cs);
    NumFieldsClean(ds);
    SplitTerminated(AllNum(ds), NUL);
  }

  // Decoding printed records: every file in order, with the counts of the
  // numstat records filed under its path.
  lemma DecodedExactly(cs: seq<Change>, ds: seq<Change>)
    requires forall c :: c in cs ==> WellFormed(c)
    requires forall d :: d in ds ==> WellFormed(d) && NoLeadingTab(d)
    requires DistinctDst(cs)
    ensures Decoded(PrintStatus(cs), PrintNum(ds)) == SetAll(FreshAll(cs), ds)
  {
    DecodedFields(cs, ds);
    NumInverts(FreshAll(cs), ds);
  }

  // ---------- each file once, with its own counts ----------

  lemma {:induction false} NotSet(files: seq<Record>, ds: seq<Change>, k: nat)
    requires k < |files|
    requires forall d :: d in ds ==> Key(d) != files[k].path
    ensures SetAll(files, ds)[k] == files[k]
    decreases |ds|
  {
    if ds != [] { NotSet(SetAt(files, Key(ds[0]), ds[0].counts), ds[1..], k); }
  }

  lemma {:induction false} SetOnce(files: seq<Record>, ds: seq<Change>, k: nat, j: nat)
    requires k < |files| && j < |ds|
    requires forall i :: 0 <= i < |ds| ==> (Key(ds[i]) == files[k].path <==> i == j)
    ensures SetAll(files, ds)[k] == SetCounts(files[k], ds[j].counts)
    decreases |ds|
  {
    var now := SetAt(files, Key(ds[0]), ds[0].counts);
    if j == 0 {
      NotSet(now, ds[1..], k);
    } else {
      SetOnce(now, ds[1..], k, j - 1);
    }
  }

  lemma KeyIsDst(c: Change)
    requires TabFree(c)
    ensures Key(c) == Dst(c)
  {
    if c.paths.One? { SplitWithout(c.paths.path, TAB); }
  }

  // Printing any two lists of records, in whatever order numstat came, and
  // running both loops gives each file once, under its destination path, with
  // its own status and its own counts.
  lemma DecodersInvert(cs: seq<Change>, ds: seq<Change>, k: nat)
    requires forall c :: c in cs ==> WellFormed(c)
    requires forall d :: d in ds ==> WellFormed(d) && TabFree(d)
    requires DistinctDst(cs) && DistinctDst(ds)
    requires k < |cs|
    ensures var files := Decoded(PrintStatus(cs), PrintNum(ds));
            && |files| == |cs|
            && (forall j :: 0 <= j < |ds| && Dst(ds[j]) == Dst(cs[k])
                  ==> files[k] == SetCounts(Fresh(cs[k]), ds[j].counts))
            && ((forall j :: 0 <= j < |ds| ==> Dst(ds[j]) != Dst(cs[k])) ==> files[k] == Fresh(cs[k]))
  {
    forall d | d in ds ensures NoLeadingTab(d) && Key(d) == Dst(d) {
      KeyIsDst(d);
    }
    DecodedExactly(cs, ds);
    if j :| 0 <= j < |ds| && Dst(ds[j]) == Dst(cs[k]) {
      forall i | 0 <= i < |ds| ensures Key(ds[i]) == Dst(cs[k]) <==> i == j {
        assert ds[i] in ds;
      }
      SetOnce(FreshAll(cs), ds, k, j);
    } else {
      NotSet(FreshAll(cs), ds, k);
    }
  }

  ghost predicate AllOwn(cs: seq<Change>)
  {
    var files := Decoded(PrintStatus(cs), PrintNum(cs));
    |files| == |cs| && forall k :: 0 <= k < |cs| ==> files[k] == SetCounts(Fresh(cs[k]), cs[k].counts)
  }

  lemma TabLosesCounts(cs: seq<Change>, k: nat)
    requires forall c :: c in cs ==> WellFormed(c) && NoLeadingTab(c)
    requires DistinctDst(cs) && k < |cs| && !TabFree(cs[k])
    ensures SetAll(FreshAll(cs), cs)[k] == Fresh(cs[k])
  {
    forall d | d in cs ensures Key(d) != Dst(cs[k]) {
      if d.paths.One? {
        SplitHasNoSep(d.paths.path, TAB);
      } else {
        assert cs[k] != d;
        var i :| 0 <= i < |cs| && cs[i] == d;
        assert i != k;
      }
    }
    NotSet(FreshAll(cs), cs, k);
  }

  lemma OwnWhenTabFree(cs: seq<Change>)
    requires forall c :: c in cs ==> WellFormed(c) && TabFree(c)
    requires DistinctDst(cs)
    ensures AllOwn(cs)
  {
    DecodedExactly(cs, cs);
    forall k | 0 <= k < |cs|
      ensures Decoded(PrintStatus(cs), PrintNum(cs))[k] == SetCounts(Fresh(cs[k]), cs[k].counts)
    {
      DecodersInvert(cs, cs, k);
    }
  }

  lemma LosesOne(cs: seq<Change>, k: nat)
    requires forall c :: c in cs ==> WellFormed(c) && NoLeadingTab(c)
    requires DistinctDst(cs) && k < |cs| && !TabFree(cs[k]) && cs[k].counts != Lines(0, 0)
    ensures !AllOwn(cs)
  {
    DecodedExactly(cs, cs);
    TabLosesCounts(cs, k);
    assert SetCounts(Fresh(cs[k]), cs[k].counts) != Fresh(cs[k]);
  }

  // ---------- a path that starts with a tab ----------

  // Every count among the fields is below n.
  ghost predicate Below(num: seq<string>, n: nat) {
    forall f :: f in num ==> ParseInt(Split(f, TAB)[0]) < n
  }

  lemma {:induction false} Bound(num: seq<string>) returns (n: nat)
    ensures n > 0 && Below(num, n)
  {
    n := 1;
    if num != [] {
      var m := Bound(num[1..]);
      var here := ParseInt(Split(num[0], TAB)[0]);
      n := if here < m then m else here + 1;
      assert num == [num[0]] + num[1..];
    }
  }

  lemma {:induction false} StaysBelow(files: seq<Record>, num: seq<string>, i: nat, n: nat)
    requires i < |files| && files[i].additions < n && Below(num, n)
    ensures |CountRecords(files, num)| == |files| && CountRecords(files, num)[i].additions < n
    decreases |num|
  {
    if num != [] {
      assert num[0] in num;
      if num[0] == "" {
        StaysBelow(files, num[1..], i, n);
      } else {
        var parts := Split(num[0], TAB);
        StaysBelow(CountAt(files, EntryPath(num), parts[0], At(parts, 1)),
                   Drop(num, if At(parts, 2) != "" then 1 else 3), i, n);
      }
    }
  }

  lemma {:induction false} SetAllBelow(files: seq<Record>, ds: seq<Change>, i: nat, n: nat)
    requires i < |files| && files[i].additions < n && n > 0
    requires forall d :: d in ds ==> d.counts == Lines(0, 0)
    ensures SetAll(files, ds)[i].additions < n
    decreases |ds|
  {
    if ds != [] {
      assert ds[0] in ds;
      SetAllBelow(SetAt(files, Key(ds[0]), ds[0].counts), ds[1..], i, n);
    }
  }

  // Such a record is taken for a two-path one: its counts go to the path two
  // fields further on, and those two fields are never read as records.
  lemma LeadingTabStep(files: seq<Record>, c: Change, rest: seq<string>)
    requires WellFormed(c) && !NoLeadingTab(c) && DistinctPaths(files)
    ensures CountRecords(files, NumFields(c) + rest) == CountRecords(SetAt(files, At(rest, 1), c.counts), Drop(rest, 2))
  {
    var num := NumFields(c) + rest;
    CountTextClean(c.counts);
    CountTextSplits(c.counts, c.paths.path);
    CountAtSets(files, At(rest, 1), c.counts, c.paths.path);
    assert num == [CountText(c.counts) + c.paths.path] + rest;
    assert Split(c.paths.path, TAB)[0] == "";
    assert Drop(num, 3) == Drop(rest, 2);
  }

  lemma SkippedStaysBelow(files: seq<Record>, c: Change, rest: seq<string>, i: nat, n: nat)
    requires WellFormed(c) && !NoLeadingTab(c) && DistinctPaths(files)
    requires i < |files| && files[i].additions < n && files[i].path != At(rest, 1) && Below(Drop(rest, 2), n)
    ensures var after := CountRecords(files, NumFields(c) + rest); |after| == |files| && after[i].additions < n
  {
    LeadingTabStep(files, c, rest);
    StaysBelow(SetAt(files, At(rest, 1), c.counts), Drop(rest, 2), i, n);
  }

  lemma {:induction false} AllNumConcat(a: seq<Change>, b: seq<Change>)
    ensures AllNum(a + b) == AllNum(a) + AllNum(b)
  {
    if a == [] {
      assert a + b == b;
    } else {
      assert (a + b)[1..] == a[1..] + b;
      AllNumConcat(a[1..], b);
    }
  }

  // The fields behind record k.
  function Behind(cs: seq<Change>, k: nat): seq<string>
    requires k < |cs|
  {
    AllNum(cs[k + 1..]) + [""]
  }

  lemma FieldsAt(cs: seq<Change>, k: nat)
    requires k < |cs|
    ensures AllNum(cs) + [""] == AllNum(cs[..k]) + (NumFields(cs[k]) + Behind(cs, k))
  {
    assert cs == cs[..k] + cs[k..];
    AllNumConcat(cs[..k], cs[k..]);
    assert cs[k..][1..] == cs[k + 1..];
    Regroup(AllNum(cs[..k]), NumFields(cs[k]), AllNum(cs[k + 1..]), [""]);
  }

  lemma Regroup(a: seq<string>, b: seq<string>, c: seq<string>, d: seq<string>)
    ensures a + (b + c) + d == a + (b + (c + d))
  {
  }

  lemma AtRecord(cs: seq<Change>, k: nat)
    requires forall c :: c in cs ==> WellFormed(c)
    requires DistinctDst(cs) && k < |cs|
    requires forall j :: 0 <= j < k ==> NoLeadingTab(cs[j])
    ensures Decoded(PrintStatus(cs), PrintNum(cs))
         == CountRecords(SetAll(FreshAll(cs), cs[..k]), NumFields(cs[k]) + Behind(cs, k))
  {
    DecodedFields(cs, cs);
    FieldsAt(cs, k);
    NumPrefix(FreshAll(cs), cs[..k], NumFields(cs[k]) + Behind(cs, k));
  }

  // A file whose counts stand nowhere in the fields that are still read.
  lemma NeverRead(cs: seq<Change>, k: nat, i: nat, n: nat)
    requires forall c :: c in cs ==> WellFormed(c)
    requires DistinctDst(cs) && k < |cs| && i < |cs| && !NoLeadingTab(cs[k])
    requires forall j :: 0 <= j < k ==> NoLeadingTab(cs[j]) && cs[j].counts == Lines(0, 0)
    requires cs[i].counts == Lines(n, 0) && n > 0
    requires At(Behind(cs, k), 1) != Dst(cs[i]) && Below(Drop(Behind(cs, k), 2), n)
    ensures !AllOwn(cs)
  {
    ReadBelow(cs, k, i, n);
    TooFew(cs, i, n);
  }

  lemma ReadBelow(cs: seq<Change>, k: nat, i: nat, n: nat)
    requires forall c :: c in cs ==> WellFormed(c)
    requires DistinctDst(cs) && k < |cs| && i < |cs| && !NoLeadingTab(cs[k]) && n > 0
    requires forall j :: 0 <= j < k ==> NoLeadingTab(cs[j]) && cs[j].counts == Lines(0, 0)
    requires At(Behind(cs, k), 1) != Dst(cs[i]) && Below(Drop(Behind(cs, k), 2), n)
    ensures var files := Decoded(PrintStatus(cs), PrintNum(cs)); i < |files| && files[i].additions < n
  {
    AtRecord(cs, k);
    SkippedFresh(cs, k, i, n);
  }

  lemma SkippedFresh(cs: seq<Change>, k: nat, i: nat, n: nat)
    requires DistinctDst(cs) && k < |cs| && i < |cs| && WellFormed(cs[k]) && !NoLeadingTab(cs[k]) && n > 0
    requires forall j :: 0 <= j < k ==> cs[j].counts == Lines(0, 0)
    requires At(Behind(cs, k), 1) != Dst(cs[i]) && Below(Drop(Behind(cs, k), 2), n)
    ensures var files := CountRecords(SetAll(FreshAll(cs), cs[..k]), NumFields(cs[k]) + Behind(cs, k));
            i < |files| && files[i].additions < n
  {
    PrefixCountsNothing(cs, k);
    SkippedFrom(FreshAll(cs), cs[..k], cs[k], Behind(cs, k), i, n);
  }

  lemma PrefixCountsNothing(cs: seq<Change>, k: nat)
    requires k <= |cs| && forall j :: 0 <= j < k ==> cs[j].counts == Lines(0, 0)
    ensures forall d :: d in cs[..k] ==> d.counts == Lines(0, 0)
  {
  }

  lemma TooFew(cs: seq<Change>, i: nat, n: nat)
    requires i < |cs| && cs[i].counts == Lines(n, 0)
    requires var files := Decoded(PrintStatus(cs), PrintNum(cs)); i < |files| && files[i].additions < n
    ensures !AllOwn(cs)
  {
  }

  lemma SkippedFrom(
    files: seq<Record>, before: seq<Change>, c: Change, rest: seq<string>, i: nat, n: nat)
    requires WellFormed(c) && !NoLeadingTab(c) && DistinctPaths(files)
    requires forall d :: d in before ==> d.counts == Lines(0, 0)
    requires i < |files| && files[i].additions < n && n > 0
    requires files[i].path != At(rest, 1) && Below(Drop(rest, 2), n)
    ensures var after := CountRecords(SetAll(files, before), NumFields(c) + rest);
            |after| == |files| && after[i].additions < n
  {
    SetAllBelow(files, before, i, n);
    SkippedStaysBelow(SetAll(files, before), c, rest, i, n);
  }

  // ---------- exactly which paths the decoders can be trusted with ----------

  function WithCounts(cs: seq<Change>, counts: seq<Counts>): (r: seq<Change>)
    requires |counts| == |cs|
    ensures |r| == |cs| && forall i :: 0 <= i < |cs| ==> r[i] == cs[i].(counts := counts[i])
  {
    seq(|cs|, i requires 0 <= i < |cs| => cs[i].(counts := counts[i]))
  }

  lemma PathsStay(cs: seq<Change>, counts: seq<Counts>)
    requires |counts| == |cs|
    requires DistinctDst(cs) && forall c :: c in cs ==> WellFormed(c)
    ensures var ds := WithCounts(cs, counts);
            && DistinctDst(ds) && (forall d :: d in ds ==> WellFormed(d))
            && ((forall c :: c in cs ==> TabFree(c)) ==> forall d :: d in ds ==> TabFree(d))
            && ((forall c :: c in cs ==> NoLeadingTab(c)) ==> forall d :: d in ds ==> NoLeadingTab(d))
  {
    var ds := WithCounts(cs, counts);
    forall d | d in ds
      ensures exists c :: c in cs && c.status == d.status && c.paths == d.paths
    {
      var i :| 0 <= i < |ds| && ds[i] == d;
      assert cs[i] in cs;
    }
  }

  // Nothing but record i counts anything.
  function Only(size: nat, i: nat, n: nat): (r: seq<Counts>)
    ensures |r| == size && forall j :: 0 <= j < size ==> r[j] == if j == i then Lines(n, 0) else Lines(0, 0)
  {
    seq(size, j => if j == i then Lines(n, 0) else Lines(0, 0))
  }

  lemma {:induction false} FirstLeadingTab(cs: seq<Change>) returns (k: nat)
    requires exists c :: c in cs && !NoLeadingTab(c)
    ensures k < |cs| && !NoLeadingTab(cs[k]) && forall j :: 0 <= j < k ==> NoLeadingTab(cs[j])
  {
    k := 0;
    if NoLeadingTab(cs[0]) {
      var rest := FirstLeadingTab(cs[1..]);
      k := rest + 1;
      assert forall j :: 0 < j < k ==> cs[j] == cs[1..][j - 1];
    }
  }

  lemma FirstField(cs: seq<Change>)
    ensures var f := (AllNum(cs) + [""])[0]; f == "" || f[0] != TAB
  {
    if cs != [] { CountTextStarts(cs[0].counts); }
  }

  // The field two behind a record starts with a tab only if the next record is
  // a rename or copy.
  lemma FieldBehind(cs: seq<Change>, k: nat)
    requires k < |cs|
    ensures var f := At(Behind(cs, k), 1); f == "" || f[0] != TAB || (k + 1 < |cs| && cs[k + 1].paths.Two?)
  {
    var rest := cs[k + 1..];
    if rest != [] && rest[0].paths.One? {
      FirstField(rest[1..]);
      assert Behind(cs, k) == NumFields(rest[0]) + (AllNum(rest[1..]) + [""]);
    }
  }

  lemma CountTextStarts(c: Counts)
    ensures CountText(c) != "" && CountText(c)[0] != TAB
  {
    CountTextClean(c);
    if c.Lines? { assert IsDigit(Decimal(c.add)[0]); }
  }

  lemma BelowSuffix(a: seq<string>, b: seq<string>, n: nat)
    requires Below(a + b, n)
    ensures Below(b, n)
  {
    forall f | f in b ensures f in a + b {
    }
  }

  lemma BehindBelow(cs: seq<Change>, k: nat, n: nat)
    requires k < |cs| && Below(AllNum(cs) + [""], n)
    ensures Below(Drop(Behind(cs, k), 2), n)
  {
    FieldsAt(cs, k);
    var behind := Behind(cs, k);
    BelowSuffix(AllNum(cs[..k]), NumFields(cs[k]) + behind, n);
    BelowSuffix(NumFields(cs[k]), behind, n);
    DropBelow(behind, n);
  }

  lemma DropBelow(num: seq<string>, n: nat)
    requires Below(num, n)
    ensures Below(Drop(num, 2), n)
  {
    if |num| >= 2 {
      assert num == num[..2] + num[2..];
      BelowSuffix(num[..2], num[2..], n);
    }
  }

  // Counts of record k, or of a two-path record behind it, do not show in what
  // is still read.
  lemma SameBehind(a: seq<Change>, b: seq<Change>, k: nat)
    requires |a| == |b| && k < |a|
    requires forall j :: 0 <= j < |a| ==> a[j].paths == b[j].paths
    requires forall j :: k + 1 < j < |a| ==> a[j] == b[j]
    requires k + 1 < |a| ==> a[k + 1].paths.Two? || a[k + 1] == b[k + 1]
    ensures At(Behind(a, k), 1) == At(Behind(b, k), 1) && Drop(Behind(a, k), 2) == Drop(Behind(b, k), 2)
  {
    if k + 1 < |a| {
      assert a[k + 1..][1..] == a[k + 2..] == b[k + 2..] == b[k + 1..][1..];
      assert Behind(a, k) == NumFields(a[k + 1]) + Behind(a, k + 1);
      assert Behind(b, k) == NumFields(b[k + 1]) + Behind(b, k + 1);
    }
  }

  lemma LeadingTabFails(cs: seq<Change>) returns (counts: seq<Counts>)
    requires forall c :: c in cs ==> WellFormed(c)
    requires DistinctDst(cs) && exists c :: c in cs && !NoLeadingTab(c)
    ensures |counts| == |cs| && !AllOwn(WithCounts(cs, counts))
  {
    var k := FirstLeadingTab(cs);
    var i, n := Unread(cs, k);
    counts := Only(|cs|, i, n);
    OnlyBehind(cs, k, i, n);
    PathsStay(cs, counts);
    NeverRead(WithCounts(cs, counts), k, i, n);
  }

  lemma OnlyBehind(cs: seq<Change>, k: nat, i: nat, n: nat)
    requires k < |cs| && k <= i <= k + 1 && i < |cs| && (i == k + 1 ==> cs[i].paths.Two?)
    ensures var a := Behind(WithCounts(cs, Only(|cs|, i, n)), k);
            var b := Behind(WithCounts(cs, Only(|cs|, |cs|, 0)), k);
            At(a, 1) == At(b, 1) && Drop(a, 2) == Drop(b, 2)
  {
    SameBehind(WithCounts(cs, Only(|cs|, i, n)), WithCounts(cs, Only(|cs|, |cs|, 0)), k);
  }

  // Whose counts the decoder will not find behind record k, and a number none
  // of the other counts reach.
  lemma Unread(cs: seq<Change>, k: nat) returns (i: nat, n: nat)
    requires forall c :: c in cs ==> WellFormed(c)
    requires DistinctDst(cs) && k < |cs| && !NoLeadingTab(cs[k])
    ensures var behind := Behind(WithCounts(cs, Only(|cs|, |cs|, 0)), k);
            && k <= i <= k + 1 && i < |cs| && (i == k + 1 ==> cs[i].paths.Two?)
            && At(behind, 1) != Dst(cs[i]) && n > 0 && Below(Drop(behind, 2), n)
  {
    var none := WithCounts(cs, Only(|cs|, |cs|, 0));
    PathsStay(cs, Only(|cs|, |cs|, 0));
    n := Bound(AllNum(none) + [""]);
    BehindBelow(none, k, n);
    i := k;
    FieldBehind(none, k);
    assert cs[k] in cs;
    if At(Behind(none, k), 1) == Dst(cs[k]) { i := k + 1; }
  }

  // The files of a list get their own counts, whatever those are, exactly when
  // no inline path holds a tab.
  lemma InvertsExactlyWhenTabFree(cs: seq<Change>)
    requires forall c :: c in cs ==> WellFormed(c)
    requires DistinctDst(cs)
    ensures (forall counts :: |counts| == |cs| ==> AllOwn(WithCounts(cs, counts)))
       <==> (forall c :: c in cs ==> TabFree(c))
  {
    if forall c :: c in cs ==> TabFree(c) {
      forall counts: seq<Counts> | |counts| == |cs| ensures AllOwn(WithCounts(cs, counts)) {
        PathsStay(cs, counts);
        OwnWhenTabFree(WithCounts(cs, counts));
      }
    } else if exists c :: c in cs && !NoLeadingTab(c) {
      var counts := LeadingTabFails(cs);
    } else {
      var k :| 0 <= k < |cs| && !TabFree(cs[k]);
      var counts := Only(|cs|, k, 1);
      PathsStay(cs, counts);
      LosesOne(WithCounts(cs, counts), k);
    }
  }

  // One changed file on its own, whatever its path.
  lemma LoneFile(c: Change)
    requires WellFormed(c)
    ensures AllOwn([c]) <==> TabFree(c) || c.counts == Lines(0, 0)
  {
    var cs := [c];
    if NoLeadingTab(c) {
      DecodedExactly(cs, cs);
      if TabFree(c) {
        DecodersInvert(cs, cs, 0);
      } else {
        TabLosesCounts(cs, 0);
      }
    } else {
      LeadingTab(c);
    }
  }

  lemma LeadingTab(c: Change)
    requires WellFormed(c) && !NoLeadingTab(c)
    ensures Decoded(PrintStatus([c]), PrintNum([c])) == FreshAll([c])
  {
    DecodedFields([c], [c]);
    assert [c][1..] == [];
    assert AllNum([c]) + [""] == NumFields(c) + [""];
    LeadingTabAlone(FreshAll([c]), c);
  }

  lemma LeadingTabAlone(files: seq<Record>, c: Change)
    requires WellFormed(c) && !NoLeadingTab(c) && DistinctPaths(files)
    requires forall i :: 0 <= i < |files| ==> files[i].path != ""
    ensures CountRecords(files, NumFields(c) + [""]) == files
  {
    LeadingTabStep(files, c, [""]);
    assert SetAt(files, "", c.counts) == files;
  }
}
