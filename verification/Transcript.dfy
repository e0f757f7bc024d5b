// A task's message log cut down to a size that can be summarised
// (lib/transcript.ts).
module Transcript {
  import opened Basics
  import opened JsText

  const SEP := "\n\n"

  // ---------- numbers as toLocaleString("en-US") writes them ----------

  function Pad3(n: nat): string
    requires n < 1000
  {
    [DigitChar(n / 100), DigitChar(n / 10 % 10), DigitChar(n % 10)]
  }

  function Grouped(n: nat): string {
    if n < 1000 then Decimal(n) else Grouped(n / 1000) + "," + Pad3(n % 1000)
  }

  // A grouped number read back: commas skipped, digits accumulated.
  function GroupedValue(s: string): int {
    if s == "" then 0
    else
      var c := s[|s| - 1];
      if c == ',' then GroupedValue(s[..|s| - 1]) else GroupedValue(s[..|s| - 1]) * 10 + (c as int - '0' as int)
  }

  lemma {:induction false} DigitsGrouped(s: string)
    requires forall i :: 0 <= i < |s| ==> IsDigit(s[i])
    ensures GroupedValue(s) == DigitsValue(s)
  {
    if s != "" { DigitsGrouped(s[..|s| - 1]); }
  }

  lemma Snoc(s: string, c: char)
    ensures GroupedValue(s + [c])
         == if c == ',' then GroupedValue(s) else GroupedValue(s) * 10 + (c as int - '0' as int)
  {
    assert (s + [c])[..|s|] == s;
  }

  lemma FourMore(s: string, a: char, b: char, c: char)
    ensures s + "," + [a, b, c] == s + [','] + [a] + [b] + [c]
  {
  }

  lemma GroupAppends(s: string, m: nat)
    requires m < 1000
    ensures GroupedValue(s + "," + Pad3(m)) == GroupedValue(s) * 1000 + m
  {
    var a, b, c := DigitChar(m / 100), DigitChar(m / 10 % 10), DigitChar(m % 10);
    FourMore(s, a, b, c);
    Snoc(s, ',');
    Snoc(s + [','], a);
    Snoc(s + [','] + [a], b);
    Snoc(s + [','] + [a] + [b], c);
    ThreeDigits(m);
  }

  lemma ThreeDigits(m: nat)
    requires m < 1000
    ensures m / 100 * 100 + m / 10 % 10 * 10 + m % 10 == m
  {
  }

  lemma {:induction false} GroupedRoundTrip(n: nat)
    ensures GroupedValue(Grouped(n)) == n
  {
    if n < 1000 {
      DigitsGrouped(Decimal(n));
      DecimalValue(n);
    } else {
      GroupedRoundTrip(n / 1000);
      GroupAppends(Grouped(n / 1000), n % 1000);
    }
  }

  lemma ShortDecimal(n: nat)
    requires n < 1000
    ensures |Decimal(n)| <= 3
  {
    assert n / 10 < 100 && n / 10 / 10 < 10;
    assert |Decimal(n / 10 / 10)| == 1;
    assert |Decimal(n / 10)| <= 2;
  }

  ghost predicate GroupedAt(g: string, i: nat)
    requires i < |g|
  {
    var c := g[|g| - 1 - i];
    if i % 4 == 3 then c == ',' else IsDigit(c)
  }

  // A comma stands before every third digit from the right, and nowhere else.
  lemma {:induction false} GroupsOfThree(n: nat)
    ensures forall i :: 0 <= i < |Grouped(n)| ==> GroupedAt(Grouped(n), i)
  {
    if n < 1000 {
      ShortDecimal(n);
    } else {
      GroupsOfThree(n / 1000);
      var h, g := Grouped(n / 1000), Grouped(n);
      assert g == h + ("," + Pad3(n % 1000));
      forall i | 0 <= i < |g| ensures GroupedAt(g, i) {
        if i >= 4 {
          assert GroupedAt(h, i - 4);
          assert (i - 4) % 4 == i % 4;
        }
      }
    }
  }

  // ---------- one message ----------

  const MARK_OPEN := "\n\U{2026} ["
  const MARK_CLOSE := " chars clipped] \U{2026}\n"

  function ClipMark(n: nat): string {
    MARK_OPEN + Grouped(n) + MARK_CLOSE
  }

  function MarkValue(mark: string): int
    requires |mark| >= |MARK_OPEN| + |MARK_CLOSE|
  {
    GroupedValue(mark[|MARK_OPEN|..|mark| - |MARK_CLOSE|])
  }

  function ClipMessage(content: string, max: nat): string {
    if |content| <= max then content
    else
      var tail := Min(500, max / 8);
      var head := max - tail;
      var dropped := |content| - head - tail;
      content[..head] + ClipMark(dropped) + content[|content| - tail..]
  }

  // A message that fits is kept as it is.  A clipped one is an exact prefix and
  // an exact suffix, max characters together, around a mark that names how many
  // characters are missing.
  lemma ClipKeepsBothEnds(content: string, max: nat)
    ensures |content| <= max ==> ClipMessage(content, max) == content
    ensures |content| > max ==>
            var r, tail := ClipMessage(content, max), Min(500, max / 8);
            var head := max - tail;
            && |r| >= max + |MARK_OPEN| + |MARK_CLOSE|
            && r[..head] == content[..head]
            && r[|r| - tail..] == content[|content| - tail..]
            && r[head..|r| - tail] == "\n\U{2026} [" + Grouped(|content| - max) + " chars clipped] \U{2026}\n"
            && MarkValue(r[head..|r| - tail]) == |content| - max
  {
    if |content| > max {
      var r, tail := ClipMessage(content, max), Min(500, max / 8);
      var head := max - tail;
      var mark := ClipMark(|content| - max);
      assert r == content[..head] + mark + content[|content| - tail..];
      assert r[head..|r| - tail] == mark;
      assert mark[|MARK_OPEN|..|mark| - |MARK_CLOSE|] == Grouped(|content| - max);
      GroupedRoundTrip(|content| - max);
    }
  }

  // ---------- the whole log ----------

  datatype Msg = Msg(role: string, content: string)

  // upper is String.prototype.toUpperCase.
  function Lines(msgs: seq<Msg>, perMessageMax: nat, upper: string -> string): (ls: seq<string>)
    ensures |ls| == |msgs|
    ensures forall i ::
              0 <= i < |ls| ==> ls[i] == upper(msgs[i].role) + ": " + ClipMessage(msgs[i].content, perMessageMax)
  {
    if msgs == [] then []
    else
      [upper(msgs[0].role) + ": " + ClipMessage(msgs[0].content, perMessageMax)]
      + Lines(msgs[1..], perMessageMax, upper)
  }

  function JoinedLength(lines: seq<string>): nat {
    |Join(lines, SEP)|
  }

  // Where the kept messages start: drop from the front until the rest fits or
  // only one is left.
  function Start(lines: seq<string>, totalMax: nat): (k: nat)
    ensures k <= |lines|
  {
    if |lines| <= 1 || JoinedLength(lines) <= totalMax then 0 else 1 + Start(lines[1..], totalMax)
  }

  function Note(omitted: nat): string {
    "(" + Decimal(omitted) + " earlier message" + (if omitted == 1 then "" else "s") + " omitted)\n\n"
  }

  function Rendered(lines: seq<string>, k: nat): string
    requires k <= |lines|
  {
    (if k > 0 then Note(k) else "") + Join(lines[k..], SEP)
  }

  function Transcript(msgs: seq<Msg>, perMessageMax: nat, totalMax: nat, upper: string -> string): string {
    var lines := Lines(msgs, perMessageMax, upper);
    Rendered(lines, Start(lines, totalMax))
  }

  lemma JoinCons(line: string, rest: seq<string>)
    ensures JoinedLength([line] + rest) == |line| + (if rest == [] then 0 else |SEP| + JoinedLength(rest))
  {
    assert ([line] + rest)[1..] == rest;
  }

  lemma {:induction false} LongerSuffixIsLonger(lines: seq<string>, j: nat, k: nat)
    requires j <= k <= |lines|
    ensures JoinedLength(lines[j..]) >= JoinedLength(lines[k..])
    decreases k - j
  {
    if j < k {
      LongerSuffixIsLonger(lines, j + 1, k);
      assert lines[j..] == [lines[j]] + lines[j + 1..];
      JoinCons(lines[j], lines[j + 1..]);
    }
  }

  // The kept suffix fits, unless it is the last line alone, and no longer
  // suffix fits.
  lemma {:induction false} LongestSuffix(lines: seq<string>, totalMax: nat)
    ensures var k := Start(lines, totalMax);
            && (lines != [] ==> k < |lines|)
            && (JoinedLength(lines[k..]) <= totalMax || k == |lines| - 1)
            && forall j :: 0 <= j < k ==> JoinedLength(lines[j..]) > totalMax
  {
    assert lines[0..] == lines;
    if |lines| > 1 && JoinedLength(lines) > totalMax {
      LongestSuffix(lines[1..], totalMax);
      var k := Start(lines[1..], totalMax);
      assert lines[1..][k..] == lines[k + 1..];
      forall j | 0 <= j < k + 1 ensures JoinedLength(lines[j..]) > totalMax {
        if j > 0 { assert lines[1..][j - 1..] == lines[j..]; }
      }
    }
  }

  // At most the cap, or the last line where that alone is longer.
  lemma BodyIsBounded(lines: seq<string>, totalMax: nat)
    requires lines != []
    ensures JoinedLength(lines[Start(lines, totalMax)..]) <= Max(totalMax, |lines[|lines| - 1]|)
  {
    LongestSuffix(lines, totalMax);
    var k := Start(lines, totalMax);
    if k == |lines| - 1 { assert lines[k..] == [lines[k]]; }
  }

  lemma {:induction false} StartIs(lines: seq<string>, totalMax: nat, k: nat)
    requires k < |lines|
    requires JoinedLength(lines[k..]) <= totalMax || k == |lines| - 1
    requires forall j :: 0 <= j < k ==> JoinedLength(lines[j..]) > totalMax
    ensures Start(lines, totalMax) == k
  {
    assert lines[0..] == lines;
    if k > 0 {
      assert JoinedLength(lines[0..]) > totalMax;
      forall j | 0 <= j < k - 1 ensures JoinedLength(lines[1..][j..]) > totalMax {
        assert lines[1..][j..] == lines[j + 1..];
      }
      assert lines[1..][k - 1..] == lines[k..];
      StartIs(lines[1..], totalMax, k - 1);
    }
  }

  // The walk from the end: used is the length of what is kept, joined.
  method KeepRecent(lines: seq<string>, totalMax: nat) returns (kept: seq<string>, used: nat)
    ensures kept == lines[Start(lines, totalMax)..]
    ensures used == JoinedLength(kept)
  {
    kept, used := [], 0;
    var i := |lines| - 1;
    var done := false;
    while i >= 0 && !done
      invariant -1 <= i < |lines|
      invariant kept == lines[i + 1..]
      invariant used == JoinedLength(kept)
      invariant |kept| <= 1 || used <= totalMax
      invariant done ==> i >= 0 && kept != [] && JoinedLength(lines[i..]) > totalMax
      decreases i + (if done then 0 else 1)
    {
      var add := |lines[i]| + if |kept| > 0 then |SEP| else 0;
      JoinCons(lines[i], kept);
      assert lines[i..] == [lines[i]] + kept;
      if used + add > totalMax && |kept| > 0 {
        done := true;
      } else {
        kept := [lines[i]] + kept;
        used := used + add;
        i := i - 1;
      }
    }
    if lines != [] {
      forall j | 0 <= j < i + 1 ensures JoinedLength(lines[j..]) > totalMax {
        LongerSuffixIsLonger(lines, j, i);
      }
      StartIs(lines, totalMax, i + 1);
    }
  }

  method BuildClippedTranscript(msgs: seq<Msg>, perMessageMax: nat, totalMax: nat, upper: string -> string)
    returns (text: string)
    ensures text == Transcript(msgs, perMessageMax, totalMax, upper)
  {
    var lines := Lines(msgs, perMessageMax, upper);
    var kept, _ := KeepRecent(lines, totalMax);
    var omitted := |lines| - |kept|;
    var body := Join(kept, SEP);
    text := if omitted > 0
      then "(" + Decimal(omitted) + " earlier message" + (if omitted == 1 then "" else "s") + " omitted)\n\n" + body
      else body;
    assert omitted == Start(lines, totalMax);
    assert "" + body == body;
  }

  // What stands before the kept lines.
  function Omission(k: nat): string {
    if k == 0 then ""
    else "(" + Decimal(k) + (if k == 1 then " earlier message omitted)\n\n" else " earlier messages omitted)\n\n")
  }

  lemma Assoc(a: string, b: string, c: string, d: string)
    ensures a + b + c + d == a + (b + c + d)
  {
  }

  lemma NoteSays(k: nat)
    requires k > 0
    ensures Note(k) == Omission(k)
  {
    Assoc("(" + Decimal(k), " earlier message", if k == 1 then "" else "s", " omitted)\n\n");
    OneOrMore();
  }

  // The kept lines, with a blank line between them.
  function Kept(lines: seq<string>, k: nat): string
    requires k <= |lines|
  {
    Join(lines[k..], "\n\n")
  }

  lemma RenderedSays(lines: seq<string>, k: nat)
    requires k <= |lines|
    ensures Rendered(lines, k) == Omission(k) + Kept(lines, k)
  {
    if k > 0 { NoteSays(k); }
  }

  lemma OneOrMore()
    ensures " earlier message" + "" + " omitted)\n\n" == " earlier message omitted)\n\n"
    ensures " earlier message" + "s" + " omitted)\n\n" == " earlier messages omitted)\n\n"
  {
  }

  lemma TranscriptSays(lines: seq<string>, totalMax: nat)
    ensures Start(lines, totalMax) <= |lines|
    ensures Rendered(lines, Start(lines, totalMax))
         == Omission(Start(lines, totalMax)) + Kept(lines, Start(lines, totalMax))
  {
    RenderedSays(lines, Start(lines, totalMax));
  }

  // The text is what is omitted and then the kept lines ...
  lemma TranscriptEndsWithRecent(msgs: seq<Msg>, perMessageMax: nat, totalMax: nat, upper: string -> string)
    ensures var lines := Lines(msgs, perMessageMax, upper);
            var k := Start(lines, totalMax);
            Transcript(msgs, perMessageMax, totalMax, upper) == Omission(k) + Kept(lines, k)
  {
    TranscriptSays(Lines(msgs, perMessageMax, upper), totalMax);
  }

  // ... of which each is its own message's, in order, up to the last one.
  lemma KeptLineIs(msgs: seq<Msg>, perMessageMax: nat, totalMax: nat, upper: string -> string, i: nat)
    requires Start(Lines(msgs, perMessageMax, upper), totalMax) <= i < |msgs|
    ensures var lines := Lines(msgs, perMessageMax, upper);
            var k := Start(lines, totalMax);
            && |lines[k..]| == |msgs| - k
            && lines[k..][i - k] == upper(msgs[i].role) + ": " + ClipMessage(msgs[i].content, perMessageMax)
  {
  }
}
