// Patch text in taskDiff (lib/git.ts): the patch synthesized for an untracked
// file, and the whole-tree patch cut into one chunk per file.
module PatchText {
  import opened Wrappers
  import opened JsText

  const MAX_FILE_PATCH := 60000
  const NL := '\n'
  const NO_NEWLINE := "\\ No newline at end of file"

  datatype Untracked = Untracked(path: string, mode: string)

  datatype NewFile = NewFile(additions: nat, binary: bool, patch: string, truncated: bool)

  function Header(u: Untracked): string {
    "diff --git a/" + u.path + " b/" + u.path + "\nnew file mode " + u.mode
  }

  function Prologue(u: Untracked): string {
    Header(u) + "\n--- /dev/null\n+++ b/" + u.path + "\n"
  }

  function HunkHeader(lines: nat): string {
    "@@ -0,0 +1" + (if lines == 1 then "" else "," + Decimal(lines)) + " @@\n"
  }

  function EndsNl(text: string): bool {
    text != "" && text[|text| - 1] == NL
  }

  function Lines(text: string): (ls: seq<string>)
    ensures ls != []
  {
    Split(if EndsNl(text) then text[..|text| - 1] else text, NL)
  }

  function Plus(ls: seq<string>): (r: seq<string>)
    ensures |r| == |ls| && forall i :: 0 <= i < |ls| ==> r[i] == "+" + ls[i]
  {
    if ls == [] then [] else ["+" + ls[0]] + Plus(ls[1..])
  }

  function HunkBody(text: string): string {
    Join(Plus(Lines(text)), "\n") + if EndsNl(text) then "" else "\n" + NO_NEWLINE
  }

  function TextPatch(u: Untracked, text: string): string {
    if text == "" then Header(u)
    else Prologue(u) + HunkHeader(|Lines(text)|) + HunkBody(text)
  }

  function Clipped(patch: string): string {
    if |patch| > MAX_FILE_PATCH then patch[..MAX_FILE_PATCH] else patch
  }

  // untrackedFileDiff once the file was read: text is what was read of it, and
  // partial says that the file was too large to be read whole.
  function UntrackedFileDiff(u: Untracked, text: string, binary: bool, partial: bool): NewFile {
    var patch :=
      if binary then Header(u) + "\nBinary files /dev/null and b/" + u.path + " differ"
      else TextPatch(u, text);
    NewFile(
      if binary || text == "" then 0 else |Lines(text)|,
      binary, Clipped(patch), partial || |patch| > MAX_FILE_PATCH)
  }

  // ---------- applying a patch to an empty file ----------

  // Reads the hunk of a new file's patch: its line count, then that many added
  // lines, then the marker if the last of them has no newline.
  function ApplyToEmpty(u: Untracked, patch: string): Option<string> {
    var names := "diff --git a/" + u.path + " b/" + u.path + "\nnew file mode " + u.mode;
    var files := "\n--- /dev/null\n+++ b/" + u.path + "\n";
    if patch == names then Some("")
    else if !(names + files <= patch) then None
    else ApplyHunk(patch[|names + files|..])
  }

  function ApplyHunk(hunk: string): Option<string> {
    var start := "@@ -0,0 +1";
    if !(start <= hunk) then None
    else
      var t := hunk[|start|..];
      var digits := if t != "" && t[0] == ',' then LeadingDigits(t[1..]) else "";
      var count := if t != "" && t[0] == ',' then DigitsValue(digits) else 1;
      var t' := if t != "" && t[0] == ',' then t[1 + |digits|..] else t;
      if !(" @@\n" <= t') then None else ApplyLines(count, Split(t'[4..], NL))
  }

  function ApplyLines(count: nat, body: seq<string>): Option<string> {
    if count > |body| || count == 0 then None
    else if !AllAdded(body[..count]) then None
    else if body[count..] == [] then Some(Join(Unplus(body[..count]), "\n") + "\n")
    else if body[count..] == ["\\ No newline at end of file"] then Some(Join(Unplus(body[..count]), "\n"))
    else None
  }

  predicate AllAdded(ls: seq<string>) {
    forall i :: 0 <= i < |ls| ==> ls[i] != "" && ls[i][0] == '+'
  }

  function Unplus(ls: seq<string>): (r: seq<string>)
    requires AllAdded(ls)
    ensures |r| == |ls| && forall i :: 0 <= i < |ls| ==> r[i] == ls[i][1..]
  {
    if ls == [] then [] else [ls[0][1..]] + Unplus(ls[1..])
  }

  // ---------- the synthesized patch gives the file back ----------

  // How git counts lines: a last line without newline is a line too.
  function CountLines(text: string): nat {
    if text == "" then 0
    else CountLines(text[1..]) + if text[0] == NL || |text| == 1 then 1 else 0
  }

  lemma {:induction false} SplitCounts(s: string)
    ensures |Split(s, NL)| == |Split(s + "\n", NL)| - 1
    ensures |Split(s, NL)| == CountLines(s + "\n")
  {
    if s == "" {
      assert Split("\n", NL) == [""] + Split("\n"[1..], NL);
      assert s + "\n" == "\n";
    } else {
      assert (s + "\n")[1..] == s[1..] + "\n";
      SplitCounts(s[1..]);
    }
  }

  lemma {:induction false} UnterminatedCounts(s: string)
    requires s != "" && s[|s| - 1] != NL
    ensures |Split(s, NL)| == CountLines(s)
  {
    if |s| == 1 {
      assert Split(s[1..], NL) == [""];
    } else {
      UnterminatedCounts(s[1..]);
    }
  }

  lemma AdditionsAreLines(u: Untracked, text: string, partial: bool)
    ensures UntrackedFileDiff(u, text, false, partial).additions == CountLines(text)
  {
    if text != "" {
      if EndsNl(text) {
        assert text == text[..|text| - 1] + "\n";
        SplitCounts(text[..|text| - 1]);
      } else {
        UnterminatedCounts(text);
      }
    }
  }

  lemma {:induction false} SplitJoin(pieces: seq<string>, sep: char)
    requires pieces != [] && forall i :: 0 <= i < |pieces| ==> sep !in pieces[i]
    ensures Split(Join(pieces, [sep]), sep) == pieces
  {
    if |pieces| == 1 {
      SplitWithout(pieces[0], sep);
    } else {
      SplitJoin(pieces[1..], sep);
      SplitFirst(pieces[0], sep, Join(pieces[1..], [sep]));
      assert pieces == [pieces[0]] + pieces[1..];
    }
  }

  lemma {:induction false} JoinSnoc(pieces: seq<string>, last: string, sep: string)
    requires pieces != []
    ensures Join(pieces + [last], sep) == Join(pieces, sep) + (sep + last)
  {
    if |pieces| == 1 {
      assert (pieces + [last])[1..] == [last];
    } else {
      assert (pieces + [last])[1..] == pieces[1..] + [last];
      JoinSnoc(pieces[1..], last, sep);
      assert pieces[0] + sep + (Join(pieces[1..], sep) + (sep + last))
          == pieces[0] + sep + Join(pieces[1..], sep) + (sep + last);
    }
  }

  lemma BodySplits(text: string)
    ensures Split(HunkBody(text), NL) == Plus(Lines(text)) + if EndsNl(text) then [] else [NO_NEWLINE]
  {
    var ps := Plus(Lines(text));
    SplitHasNoSep(if EndsNl(text) then text[..|text| - 1] else text, NL);
    if EndsNl(text) {
      SplitJoin(ps, NL);
      assert HunkBody(text) == Join(ps, "\n");
      assert ps + [] == ps;
    } else {
      assert HunkBody(text) == Join(ps + [NO_NEWLINE], "\n") by { JoinSnoc(ps, NO_NEWLINE, "\n"); }
      SplitJoin(ps + [NO_NEWLINE], NL);
    }
  }

  lemma LinesGiveText(text: string)
    ensures EndsNl(text) ==> Join(Lines(text), "\n") + "\n" == text
    ensures !EndsNl(text) ==> Join(Lines(text), "\n") == text
  {
    if EndsNl(text) {
      JoinSplit(text[..|text| - 1], NL);
      assert text[..|text| - 1] + "\n" == text;
    } else {
      JoinSplit(text, NL);
    }
  }

  lemma LinesApply(text: string)
    ensures ApplyLines(|Lines(text)|, Split(HunkBody(text), NL)) == Some(text)
  {
    var ls := Lines(text);
    var body := Split(HunkBody(text), NL);
    BodySplits(text);
    assert body[..|ls|] == Plus(ls);
    assert body[|ls|..] == if EndsNl(text) then [] else [NO_NEWLINE];
    UnplusPlus(ls);
    LinesGiveText(text);
  }

  lemma UnplusPlus(ls: seq<string>)
    ensures AllAdded(Plus(ls)) && Unplus(Plus(ls)) == ls
  {
  }

  lemma CountApplies(n: nat, rest: string)
    requires n > 0
    ensures ApplyHunk(HunkHeader(n) + rest) == ApplyLines(n, Split(rest, NL))
  {
    var after := " @@\n" + rest;
    HunkSplits(n, rest);
    assert after[4..] == rest;
    if n != 1 { CountReads(n, (HunkHeader(n) + rest)[10..], after); }
  }

  lemma HunkSplits(n: nat, rest: string)
    ensures var hunk := HunkHeader(n) + rest;
            && "@@ -0,0 +1" <= hunk
            && hunk[10..] == (if n == 1 then "" else "," + Decimal(n)) + (" @@\n" + rest)
  {
    var count := if n == 1 then "" else "," + Decimal(n);
    assert HunkHeader(n) + rest == "@@ -0,0 +1" + (count + (" @@\n" + rest));
  }

  lemma CountReads(n: nat, t: string, after: string)
    requires t == "," + Decimal(n) + after && after != "" && !IsDigit(after[0])
    ensures LeadingDigits(t[1..]) == Decimal(n) && DigitsValue(Decimal(n)) == n && t[1 + |Decimal(n)|..] == after
  {
    assert t[1..] == Decimal(n) + after;
    AllDigits(Decimal(n), after);
    DecimalValue(n);
  }

  // A text patch that is not clipped, applied to an empty file, gives the text
  // back; a longer one is cut at the limit and marked.
  lemma PatchGivesText(u: Untracked, text: string, partial: bool)
    ensures var f := UntrackedFileDiff(u, text, false, partial);
            && !f.binary
            && (|TextPatch(u, text)| <= 60000 ==>
                  ApplyToEmpty(u, f.patch) == Some(text) && f.truncated == partial)
            && (|TextPatch(u, text)| > 60000 ==> |f.patch| == 60000 && f.truncated)
            && f.patch <= TextPatch(u, text)
  {
    NamesAndFiles(u);
    if text != "" {
      var hunk := HunkHeader(|Lines(text)|) + HunkBody(text);
      assert TextPatch(u, text) == Prologue(u) + hunk;
      assert TextPatch(u, text)[|Prologue(u)|..] == hunk;
      CountApplies(|Lines(text)|, HunkBody(text));
      LinesApply(text);
    }
  }

  lemma NamesAndFiles(u: Untracked)
    ensures var names := "diff --git a/" + u.path + " b/" + u.path + "\nnew file mode " + u.mode;
            && Header(u) == names
            && Prologue(u) == names + ("\n--- /dev/null\n+++ b/" + u.path + "\n")
  {
  }

  // A binary file has no text to give back: its patch names it, whatever was
  // read, and counts no lines.
  lemma BinaryNamesFile(u: Untracked, text: string, partial: bool)
    ensures var f := UntrackedFileDiff(u, text, true, partial);
            var whole := "diff --git a/" + u.path + " b/" + u.path + "\nnew file mode " + u.mode
                         + "\nBinary files /dev/null and b/" + u.path + " differ";
            && f.binary && f.additions == 0
            && f.patch == (if |whole| > 60000 then whole[..60000] else whole)
            && f.truncated == (partial || |whole| > 60000)
            && (|whole| <= 60000 ==> ApplyToEmpty(u, f.patch).None?)
  {
    var f := UntrackedFileDiff(u, text, true, partial);
    var names := "diff --git a/" + u.path + " b/" + u.path + "\nnew file mode " + u.mode;
    var files := "\n--- /dev/null\n+++ b/" + u.path + "\n";
    var rest := "\nBinary files /dev/null and b/" + u.path + " differ";
    NamesAndFiles(u);
    assert names + (rest) == Header(u) + "\nBinary files /dev/null and b/" + u.path + " differ";
    if names + files <= names + rest {
      assert (names + files)[|names| + 1] == '-' && (names + rest)[|names| + 1] == 'B';
    }
  }

  // ---------- one chunk per file ----------

  const MARK := "diff --git "

  // treePatch.split(/\n(?=diff --git )/)
  function Sections(s: string): (r: seq<string>)
    ensures r != []
  {
    if s == "" then [""] else Put(s[0], s[0] == NL && MARK <= s[1..], Sections(s[1..]))
  }

  // A character in front: it cuts, or belongs to the first section.
  function Put(c: char, cut: bool, rest: seq<string>): (r: seq<string>)
    requires rest != []
    ensures r != []
  {
    if cut then [""] + rest else [[c] + rest[0]] + rest[1..]
  }

  lemma PutJoin(c: char, cut: bool, rest: seq<string>)
    requires rest != [] && (cut ==> c == NL)
    ensures Join(Put(c, cut, rest), "\n") == [c] + Join(rest, "\n")
  {
    if cut {
      assert ([""] + rest)[1..] == rest;
    } else {
      assert ([[c] + rest[0]] + rest[1..])[1..] == rest[1..];
      if |rest| > 1 {
        assert [c] + rest[0] + "\n" + Join(rest[1..], "\n") == [c] + (rest[0] + "\n" + Join(rest[1..], "\n"));
      }
    }
  }

  lemma PutAppend(c: char, cut: bool, x: seq<string>, y: seq<string>)
    requires x != []
    ensures Put(c, cut, x + y) == Put(c, cut, x) + y
  {
    if cut {
      assert [""] + (x + y) == ([""] + x) + y;
    } else {
      assert (x + y)[1..] == x[1..] + y;
    }
  }

  lemma {:induction false} SectionsJoin(s: string)
    ensures Join(Sections(s), "\n") == s
  {
    if s != "" {
      SectionsJoin(s[1..]);
      PutJoin(s[0], s[0] == NL && MARK <= s[1..], Sections(s[1..]));
      assert [s[0]] + s[1..] == s;
    }
  }

  // No line after the first starts with the mark.
  predicate NoInnerHeader(s: string) {
    forall i :: 0 <= i < |s| && s[i] == NL ==> !(MARK <= s[i + 1..])
  }

  predicate AllStart(secs: seq<string>) {
    forall i :: 0 <= i < |secs| ==> MARK <= secs[i]
  }

  predicate AllOneHeader(secs: seq<string>) {
    forall i :: 0 <= i < |secs| ==> OneHeader(secs[i])
  }

  predicate OneHeader(s: string) {
    MARK <= s && NoInnerHeader(s)
  }

  lemma NoInnerStep(s: string)
    requires s != ""
    ensures NoInnerHeader(s) <==> !(s[0] == NL && MARK <= s[1..]) && NoInnerHeader(s[1..])
  {
    var t := s[1..];
    assert forall i :: 0 <= i < |t| ==> t[i] == s[i + 1] && t[i + 1..] == s[i + 2..];
    if NoInnerHeader(s) {
      assert s[0] == NL ==> !(MARK <= s[0 + 1..]);
      forall i | 0 <= i < |t| && t[i] == NL ensures !(MARK <= t[i + 1..]) {
        assert s[i + 1] == NL;
      }
    } else {
      var i :| 0 <= i < |s| && s[i] == NL && MARK <= s[i + 1..];
      if i > 0 { assert t[i - 1] == NL && MARK <= t[i - 1 + 1..]; }
    }
  }

  lemma {:induction false} WithoutHeader(s: string)
    ensures |Sections(s)| == 1 <==> NoInnerHeader(s)
    ensures |Sections(s)| == 1 ==> Sections(s) == [s]
  {
    if s != "" {
      WithoutHeader(s[1..]);
      NoInnerStep(s);
      assert [s[0]] + s[1..] == s;
    }
  }

  // The text of a section followed by a newline and a new header.
  lemma {:induction false} SectionsAppend(a: string, b: string)
    requires MARK <= b
    ensures Sections(a + ("\n" + b)) == Sections(a) + Sections(b)
  {
    var s := a + ("\n" + b);
    if a == "" {
      assert s == "\n" + b && s[1..] == b;
    } else {
      assert s[1..] == a[1..] + ("\n" + b) && s[0] == a[0];
      SectionsAppend(a[1..], b);
      MarkInside(a[1..], b);
      PutAppend(a[0], a[0] == NL && MARK <= a[1..], Sections(a[1..]), Sections(b));
    }
  }

  // The mark holds no newline, so it cannot run over the end of a section.
  lemma MarkInside(a: string, b: string)
    ensures MARK <= a + ("\n" + b) <==> MARK <= a
  {
    var s := a + ("\n" + b);
    assert forall i :: 0 <= i < |MARK| ==> MARK[i] != NL;
    if MARK <= s {
      assert s[|a|] == NL;
      assert |a| >= |MARK|;
      assert s[..|MARK|] == a[..|MARK|];
    }
  }

  lemma JoinKeepsMark(secs: seq<string>)
    requires secs != [] && MARK <= secs[0]
    ensures MARK <= Join(secs, "\n")
  {
    if |secs| > 1 {
      assert Join(secs, "\n") == secs[0] + ("\n" + Join(secs[1..], "\n"));
    }
  }

  function Flat(secs: seq<string>): (r: seq<string>)
    ensures |r| >= |secs|
  {
    if secs == [] then [] else Sections(secs[0]) + Flat(secs[1..])
  }

  lemma {:induction false} SectionsOfJoin(secs: seq<string>)
    requires secs != [] && AllStart(secs)
    ensures Sections(Join(secs, "\n")) == Flat(secs)
  {
    if |secs| == 1 {
      assert Flat(secs) == Sections(secs[0]) + [];
    } else {
      SectionsOfJoin(secs[1..]);
      JoinKeepsMark(secs[1..]);
      SectionsAppend(secs[0], Join(secs[1..], "\n"));
      assert Join(secs, "\n") == secs[0] + ("\n" + Join(secs[1..], "\n"));
    }
  }

  lemma {:induction false} FlatIsSame(secs: seq<string>)
    requires AllStart(secs)
    ensures |Flat(secs)| == |secs| <==> AllOneHeader(secs)
    ensures |Flat(secs)| == |secs| ==> Flat(secs) == secs
  {
    if secs != [] {
      FlatIsSame(secs[1..]);
      WithoutHeader(secs[0]);
      assert secs == [secs[0]] + secs[1..];
      assert AllOneHeader(secs) <==> OneHeader(secs[0]) && AllOneHeader(secs[1..]);
    }
  }

  // Cutting gives back one chunk per section exactly when only the sections'
  // own headers start a line with the mark.
  lemma OneChunkPerSection(secs: seq<string>)
    requires secs != [] && AllStart(secs)
    ensures Sections(Join(secs, "\n")) == secs <==> AllOneHeader(secs)
    ensures |Sections(Join(secs, "\n"))| == |secs| <==> AllOneHeader(secs)
  {
    SectionsOfJoin(secs);
    FlatIsSame(secs);
  }

  // A patch as it is shown.
  datatype Shown = Shown(patch: string, truncated: bool)

  // The patch texts taskDiff hands out by position; None means that it asks git
  // for each file on its own instead.
  function ByPosition(files: nat, treePatch: Option<string>): Option<seq<Shown>> {
    if treePatch.None? then None
    else
      var chunks := if treePatch.value == "" then [] else Sections(treePatch.value);
      if |chunks| == files && AllStart(chunks)
      then Some(ClipAll(chunks))
      else None
  }

  function ClipAll(chunks: seq<string>): (r: seq<Shown>)
    ensures |r| == |chunks|
    ensures forall i :: 0 <= i < |chunks| ==> r[i] == Shown(Clipped(chunks[i]), |chunks[i]| > 60000)
  {
    if chunks == [] then []
    else [Shown(Clipped(chunks[0]), |chunks[0]| > MAX_FILE_PATCH)] + ClipAll(chunks[1..])
  }

  // For sections that git wrote in file order, position never pairs a file
  // with another file's patch: it is each section's own text or the fallback,
  // and the fallback is taken exactly when the counts do not fit.
  lemma PatchesMatchFiles(files: nat, secs: seq<string>)
    requires AllOneHeader(secs)
    ensures ByPosition(files, Some(Join(secs, "\n"))) == if files == |secs| then Some(ClipAll(secs)) else None
  {
    assert AllStart(secs);
    if secs != [] {
      assert Join(secs, "\n") != "" by { JoinKeepsMark(secs); }
      assert Sections(Join(secs, "\n")) == secs by { OneChunkPerSection(secs); }
    }
  }

  // The lines, after the first, that start a section.
  function InnerHeaders(s: string): nat {
    if s == "" then 0
    else (if s[0] == '\n' && "diff --git " <= s[1..] then 1 else 0) + InnerHeaders(s[1..])
  }

  lemma {:induction false} SectionsCount(s: string)
    ensures |Sections(s)| == 1 + InnerHeaders(s)
  {
    if s != "" { SectionsCount(s[1..]); }
  }

  // The first section is the text up to its end or to a newline.
  lemma {:induction false} FirstSection(s: string)
    ensures var first := Sections(s)[0];
            first <= s && (first == s || s[|first|] == NL)
  {
    if s != "" {
      FirstSection(s[1..]);
      var first := Sections(s)[0];
      if first != "" {
        assert first == [s[0]] + Sections(s[1..])[0] && s == [s[0]] + s[1..];
      }
    }
  }

  lemma FirstStarts(s: string)
    ensures MARK <= Sections(s)[0] <==> MARK <= s
  {
    FirstSection(s);
    assert MARK <= s ==> forall i :: 0 <= i < |MARK| ==> s[i] == MARK[i] != NL;
  }

  lemma {:induction false} OthersStart(s: string)
    ensures forall i :: 0 < i < |Sections(s)| ==> MARK <= Sections(s)[i]
  {
    if s != "" {
      OthersStart(s[1..]);
      FirstStarts(s[1..]);
    }
  }

  // For any text at all: patches are handed out by position exactly if there is
  // one section for each file and the text starts with one.
  lemma ByPositionExactly(files: nat, treePatch: Option<string>)
    ensures ByPosition(files, treePatch).Some? <==>
              && treePatch.Some?
              && if treePatch.value == "" then files == 0
                 else "diff --git " <= treePatch.value && files == 1 + InnerHeaders(treePatch.value)
  {
    if treePatch.Some? {
      SectionsCount(treePatch.value);
      FirstStarts(treePatch.value);
      OthersStart(treePatch.value);
    }
  }
}
