// The best score a text can reach that does not hold the query itself, and so
// exactly when a text that does hold it outranks all of those.
module FuzzyBound {
  import opened Wrappers
  import opened JsText
  import opened Fuzzy

  // ---------- the bound ----------

  // The most a character found behind `prev` can add: next to it, 3 points, and
  // 6 if `prev` is a separator; one separator further on, 3.95.
  function StepMax(prev: char): real {
    if Separator(prev) then 6.0 else 3.95
  }

  function RestMax(prev: char, cs: string): real
    decreases cs
  {
    if cs == "" then 0.0 else StepMax(prev) + RestMax(cs[0], cs[1..])
  }

  function SumMax(cs: string): real
    requires cs != ""
  {
    4.0 + RestMax(cs[0], cs[1..])
  }

  // Everything before the last character is a separator, so the best places are
  // right behind each other.
  predicate Tight(cs: string) {
    |cs| <= 1 || (Separator(cs[0]) && Tight(cs[1..]))
  }

  // None: only texts that hold the query match it at all.
  function Best(q: string): Option<real>
    requires Wanted(q) != ""
  {
    var cs := Wanted(q);
    if cs != q || !Tight(cs) then Some(SumMax(cs))
    else if |cs| == 1 then None
    else Some(SumMax(cs) - 2.05)     // one gap, where it costs least
  }

  // ---------- no scattered match does better ----------

  lemma {:induction false} GainsAtMost(t: string, ps: seq<nat>, prev: nat, cs: string)
    requires Embeds(cs, t, ps) && prev < |t| && (ps != [] ==> ps[0] > prev)
    ensures Gains(t, ps, prev + 1, prev) <= RestMax(t[prev], cs)
    decreases |cs|
  {
    if cs != "" {
      assert Embeds(cs[1..], t, ps[1..]);
      GainsAtMost(t, ps[1..], ps[0], cs[1..]);
    }
  }

  // Each position right behind the one before it.
  predicate Contiguous(prev: nat, ps: seq<nat>)
    decreases ps
  {
    ps == [] || (ps[0] == prev + 1 && Contiguous(ps[0], ps[1..]))
  }

  lemma {:induction false} GapCosts(t: string, ps: seq<nat>, prev: nat, cs: string)
    requires Embeds(cs, t, ps) && prev < |t| && (ps != [] ==> ps[0] > prev)
    requires Tight([t[prev]] + cs) && !Contiguous(prev, ps)
    ensures Gains(t, ps, prev + 1, prev) <= RestMax(t[prev], cs) - 2.05
    decreases |cs|
  {
    assert ([t[prev]] + cs)[1..] == cs;
    assert Embeds(cs[1..], t, ps[1..]);
    if ps[0] == prev + 1 {
      assert [t[ps[0]]] + cs[1..] == cs;
      GapCosts(t, ps[1..], ps[0], cs[1..]);
    } else {
      GainsAtMost(t, ps[1..], ps[0], cs[1..]);
    }
  }

  lemma {:induction false} ContiguousAt(prev: nat, ps: seq<nat>, j: nat)
    requires Contiguous(prev, ps) && j < |ps|
    ensures ps[j] == prev + 1 + j
    decreases ps
  {
    if j > 0 { ContiguousAt(ps[0], ps[1..], j - 1); }
  }

  lemma ContiguousOccurs(t: string, ps: seq<nat>, prev: nat, cs: string)
    requires Embeds(cs, t, ps) && prev < |t| && Contiguous(prev, ps)
    ensures Occurs(t, [t[prev]] + cs, prev)
  {
    if cs != "" { ContiguousAt(prev, ps, |cs| - 1); }
    forall j | 0 <= j < |cs| ensures prev + 1 + j < |t| && t[prev + 1 + j] == cs[j] {
      ContiguousAt(prev, ps, j);
    }
    assert t[prev..prev + 1 + |cs|] == [t[prev]] + cs;
  }

  lemma MatchAtMost(t: string, ps: seq<nat>, cs: string)
    requires cs != "" && Embeds(cs, t, ps)
    ensures Gains(t, ps, 0, -2) <= SumMax(cs)
  {
    assert Embeds(cs[1..], t, ps[1..]);
    GainsAtMost(t, ps[1..], ps[0], cs[1..]);
  }

  lemma TightMatchAtMost(t: string, ps: seq<nat>, cs: string)
    requires cs != "" && Embeds(cs, t, ps) && Tight(cs) && !Occurs(t, cs, ps[0])
    ensures |cs| > 1 && Gains(t, ps, 0, -2) <= SumMax(cs) - 2.05
  {
    assert Embeds(cs[1..], t, ps[1..]);
    assert t[ps[0]] == cs[0] && [cs[0]] + cs[1..] == cs;
    if Contiguous(ps[0], ps[1..]) { ContiguousOccurs(t, ps[1..], ps[0], cs[1..]); }
    GapCosts(t, ps[1..], ps[0], cs[1..]);
  }

  lemma TotalAtMost(q: string, t: string)
    requires Wanted(q) != "" && IndexOf(t, q, 0).None? && Total(Wanted(q), t, 0, -2).Some?
    ensures Best(q).Some? && Total(Wanted(q), t, 0, -2).value <= Best(q).value
  {
    var cs := Wanted(q);
    MatchesInside(cs, t, 0);
    var ps := Matches(cs, t, 0).value;
    MatchAtMost(t, ps, cs);
    if cs == q && Tight(cs) { TightMatchAtMost(t, ps, cs); }
  }

  // Whatever lowering does: a text that does not hold the query scores at most
  // the bound.
  lemma ScatteredAtMost(query: string, other: string, lower: string -> string)
    requires Trim(lower(query)) != "" && Wanted(Trim(lower(query))) != ""
    requires IndexOf(lower(other), Trim(lower(query)), 0).None? && Score(query, other, lower).Some?
    ensures var best := Best(Trim(lower(query)));
            best.Some? && Score(query, other, lower).value <= best.value
  {
    TotalAtMost(Trim(lower(query)), lower(other));
  }

  // ---------- a text that reaches it ----------

  // A separator that is not the character looked for.
  function Filler(c: char, spaced: bool): (f: char)
    requires c != ' '
    ensures f != c && Separator(f) && (f == ' ' <==> spaced)
  {
    if spaced then ' ' else if c == '-' then '_' else '-'
  }

  // The characters in their best places behind `prev`.
  function Spread(prev: char, cs: string, spaced: bool): string
    requires ' ' !in cs
    decreases cs
  {
    if cs == "" then ""
    else (if Separator(prev) then "" else [Filler(cs[0], spaced)]) + [cs[0]] + Spread(cs[0], cs[1..], spaced)
  }

  lemma Mismatch(t: string, q: string, i: nat, k: nat)
    requires k < |q| && (i + k >= |t| || t[i + k] != q[k])
    ensures !Occurs(t, q, i)
  {
    if i + |q| <= |t| { assert t[i..i + |q|][k] == t[i + k]; }
  }

  lemma FoundAt(t: string, c: char, from: nat, at: nat)
    requires from <= at < |t| && t[at] == c && forall i :: from <= i < at ==> t[i] != c
    ensures IndexOf(t, [c], from) == Some(at)
  {
    assert Occurs(t, [c], at);
    forall i | from <= i < at ensures !Occurs(t, [c], i) {
      Mismatch(t, [c], i, 0);
    }
  }

  // The text up to and including the next wanted character.
  function Next(before: string, c: char, spaced: bool): (next: string)
    requires before != "" && c != ' '
    ensures before <= next && |next| >= |before| + 1 && next[|next| - 1] == c
  {
    before + (if Separator(before[|before| - 1]) then "" else [Filler(c, spaced)]) + [c]
  }

  lemma SpreadNext(before: string, cs: string, spaced: bool)
    requires before != "" && ' ' !in cs && cs != ""
    ensures before + Spread(before[|before| - 1], cs, spaced)
         == Next(before, cs[0], spaced) + Spread(cs[0], cs[1..], spaced)
  {
  }

  // The next character is found in its best place.
  lemma NextFound(before: string, c: char, more: string, spaced: bool)
    requires before != "" && c != ' '
    ensures var next := Next(before, c, spaced);
            var n := |before|;
            && IndexOf(next + more, [c], n) == Some(|next| - 1)
            && Gain(next + more, |next| - 1, n, n - 1) == StepMax(before[n - 1])
  {
    var next := Next(before, c, spaced);
    FoundAt(next + more, c, |before|, |next| - 1);
  }

  lemma SpreadStepTotal(before: string, c: char, cs: string, spaced: bool)
    requires before != "" && c != ' ' && ' ' !in cs
    requires var next := Next(before, c, spaced);
             Total(cs, next + Spread(c, cs, spaced), |next|, |next| - 1) == Some(RestMax(c, cs))
    ensures Total([c] + cs, Next(before, c, spaced) + Spread(c, cs, spaced), |before|, |before| - 1)
         == Some(StepMax(before[|before| - 1]) + RestMax(c, cs))
  {
    var next, more := Next(before, c, spaced), Spread(c, cs, spaced);
    NextFound(before, c, more, spaced);
    TotalOne(c, cs, next + more, |before|, |before| - 1, |next| - 1);
  }

  lemma {:induction false} SpreadTotal(before: string, cs: string, spaced: bool)
    requires before != "" && ' ' !in cs
    ensures Total(cs, before + Spread(before[|before| - 1], cs, spaced), |before|, |before| - 1)
         == Some(RestMax(before[|before| - 1], cs))
    decreases |cs|
  {
    if cs == "" {
      assert Matches(cs, before + "", |before|) == Some([]);
    } else {
      var c, rest := cs[0], cs[1..];
      assert cs == [c] + rest;
      calc {
        Total(cs, before + Spread(before[|before| - 1], cs, spaced), |before|, |before| - 1);
      == { SpreadNext(before, cs, spaced); }
        Total([c] + rest, Next(before, c, spaced) + Spread(c, rest, spaced), |before|, |before| - 1);
      == { SpreadTotal(Next(before, c, spaced), rest, spaced); SpreadStepTotal(before, c, rest, spaced); }
        Some(StepMax(before[|before| - 1]) + RestMax(c, rest));
      ==
        Some(RestMax(before[|before| - 1], cs));
      }
    }
  }

  // The total of a match whose first character is found at a known place.
  lemma TotalOne(c: char, cs: string, t: string, from: nat, prev: int, at: nat)
    requires IndexOf(t, [c], from) == Some(at) && Total(cs, t, at + 1, at).Some?
    ensures Total([c] + cs, t, from, prev) == Some(Gain(t, at, from, prev) + Total(cs, t, at + 1, at).value)
  {
    TotalStep(0.0, c, cs, t, from, prev);
  }

  lemma WholeTotal(c: char, cs: string, spaced: bool)
    requires ' ' !in cs
    ensures Total([c] + cs, [c] + Spread(c, cs, spaced), 0, -2) == Some(SumMax([c] + cs))
  {
    var t := [c] + Spread(c, cs, spaced);
    SpreadTotal([c], cs, spaced);
    FirstTotal(c, cs, t);
    assert ([c] + cs)[1..] == cs;
  }

  lemma FirstTotal(c: char, cs: string, t: string)
    requires t != "" && t[0] == c && Total(cs, t, 1, 0) == Some(RestMax(c, cs))
    ensures Total([c] + cs, t, 0, -2) == Some(4.0 + RestMax(c, cs))
  {
    FoundAt(t, c, 0, 0);
    TotalOne(c, cs, t, 0, -2, 0);
  }

  // ---------- ... and does not hold the query ----------

  lemma {:induction false} WantedConcat(a: string, b: string)
    ensures Wanted(a + b) == Wanted(a) + Wanted(b)
  {
    if a == "" {
      assert a + b == b;
    } else {
      assert (a + b)[1..] == a[1..] + b;
      WantedConcat(a[1..], b);
    }
  }

  lemma {:induction false} WantedNoSpace(q: string)
    ensures ' ' !in Wanted(q)
    ensures Wanted(q) == q <==> ' ' !in q
    ensures |Wanted(q)| <= |q|
  {
    if q != "" {
      WantedNoSpace(q[1..]);
      assert [q[0]] + q[1..] == q;
      if q[0] == ' ' { assert |Wanted(q)| == |Wanted(q[1..])|; }
    }
  }

  lemma {:induction false} NothingWanted(a: string)
    requires Wanted(a) == ""
    ensures forall i :: 0 <= i < |a| ==> a[i] == ' '
  {
    if a != "" {
      NothingWanted(a[1..]);
      assert forall i :: 0 < i < |a| ==> a[i] == a[1..][i - 1];
    }
  }

  lemma WantedCons(c: char, s: string)
    ensures Wanted([c] + s) == if c == ' ' then Wanted(s) else [c] + Wanted(s)
  {
    assert ([c] + s)[1..] == s;
  }

  // What stands around an occurrence of all that is wanted is blank.
  lemma AroundIsBlank(a: string, cs: string, b: string)
    requires Wanted(a + (cs + b)) == cs && ' ' !in cs
    ensures Wanted(a) == "" && Wanted(b) == ""
  {
    WantedConcat(a, cs + b);
    WantedConcat(cs, b);
    WantedNoSpace(cs);
    assert |Wanted(a)| + |cs| + |Wanted(b)| == |cs|;
  }

  // A longer text with the same wanted characters that begins and ends with one
  // of them does not hold them side by side.
  lemma NotHeld(t: string, cs: string)
    requires Wanted(t) == cs && ' ' !in cs && |t| > |cs| > 0
    requires t[0] != ' ' && t[|t| - 1] != ' '
    ensures IndexOf(t, cs, 0).None?
  {
    var i := IndexOf(t, cs, 0);
    if i.Some? { NotHeldAt(t, cs, i.value); }
  }

  lemma NotHeldAt(t: string, cs: string, i: nat)
    requires Wanted(t) == cs && ' ' !in cs && |t| > |cs| > 0
    requires t[0] != ' ' && t[|t| - 1] != ' '
    requires i + |cs| <= |t|
    ensures t[i..i + |cs|] != cs
  {
    if t[i..i + |cs|] == cs {
      CutOut(t, i, |cs|);
      NothingAround(t, t[..i], cs, t[i + |cs|..]);
    }
  }

  lemma NothingAround(t: string, a: string, cs: string, b: string)
    requires t == a + (cs + b) && Wanted(t) == cs && ' ' !in cs && cs != ""
    requires t[0] != ' ' && t[|t| - 1] != ' '
    ensures |t| == |cs|
  {
    assert a != "" ==> a[0] == t[0];
    assert b != "" ==> b[|b| - 1] == t[|t| - 1];
    Surrounded(a, cs, b);
  }

  lemma CutOut(t: string, i: nat, n: nat)
    requires i + n <= |t|
    ensures t == t[..i] + (t[i..i + n] + t[i + n..])
  {
  }

  lemma Surrounded(a: string, cs: string, b: string)
    requires Wanted(a + (cs + b)) == cs && ' ' !in cs
    requires (a != "" ==> a[0] != ' ') && (b != "" ==> b[|b| - 1] != ' ')
    ensures a == "" && b == ""
  {
    AroundIsBlank(a, cs, b);
    NothingWanted(a);
    NothingWanted(b);
  }

  lemma {:induction false} SpreadLength(prev: char, cs: string, spaced: bool)
    requires ' ' !in cs
    ensures |Spread(prev, cs, spaced)| >= |cs|
    ensures |Spread(prev, cs, spaced)| == |cs| ==> Tight([prev] + cs)
    decreases |cs|
  {
    assert ([prev] + cs)[1..] == cs;
    if cs != "" {
      SpreadLength(cs[0], cs[1..], spaced);
      assert [cs[0]] + cs[1..] == cs;
    }
  }

  lemma {:induction false} SpreadEnd(prev: char, cs: string, spaced: bool)
    requires ' ' !in cs && cs != ""
    ensures Spread(prev, cs, spaced) != ""
    ensures Spread(prev, cs, spaced)[|Spread(prev, cs, spaced)| - 1] == cs[|cs| - 1]
    decreases |cs|
  {
    if |cs| > 1 { SpreadEnd(cs[0], cs[1..], spaced); }
  }

  lemma {:induction false} SpreadSolid(prev: char, cs: string)
    requires ' ' !in cs
    ensures ' ' !in Spread(prev, cs, false)
    decreases |cs|
  {
    if cs != "" { SpreadSolid(cs[0], cs[1..]); }
  }

  lemma {:induction false} SpreadWanted(prev: char, cs: string)
    requires ' ' !in cs
    ensures Wanted(Spread(prev, cs, true)) == cs
    decreases |cs|
  {
    if cs != "" {
      SpreadWanted(cs[0], cs[1..]);
      var gap := if Separator(prev) then "" else " ";
      WantedConcat(gap + [cs[0]], Spread(cs[0], cs[1..], true));
      WantedConcat(gap, [cs[0]]);
      assert [cs[0]] + cs[1..] == cs;
    }
  }

  // ---------- the trimmed query ----------

  lemma {:induction false} SkipSpaceStarts(s: string)
    ensures SkipSpace(s) != "" ==> !IsSpace(SkipSpace(s)[0])
  {
    if s != "" { SkipSpaceStarts(s[1..]); }
  }

  lemma {:induction false} TrimEndKeepsStart(s: string)
    ensures TrimEnd(s) <= s
    ensures TrimEnd(s) != "" ==> !IsSpace(TrimEnd(s)[|TrimEnd(s)| - 1])
  {
    if s != "" && IsSpace(s[|s| - 1]) { TrimEndKeepsStart(s[..|s| - 1]); }
  }

  lemma TrimmedStarts(s: string)
    ensures Trim(s) != "" ==> Wanted(Trim(s)) != "" && Wanted(Trim(s))[0] == Trim(s)[0] != ' '
  {
    SkipSpaceStarts(s);
    TrimEndKeepsStart(SkipSpace(s));
  }

  // ---------- exactly when the hit wins ----------

  // A text that matches the query without holding it.
  predicate Scattered(query: string, other: string, lower: string -> string) {
    IndexOf(lower(other), Trim(lower(query)), 0).None? && Score(query, other, lower).Some?
  }

  predicate Mark(c: char) { c == ' ' || c == '-' || c == '_' }

  // Lowering leaves a text alone that is made of lowered characters and marks.
  ghost predicate LeavesLowered(lower: string -> string, q: string) {
    forall t :: (forall c :: c in t ==> c in q || Mark(c)) ==> lower(t) == t
  }

  lemma {:induction false} SpreadChars(prev: char, cs: string, spaced: bool)
    requires ' ' !in cs
    ensures forall c :: c in Spread(prev, cs, spaced) ==> c in cs || Mark(c)
    decreases |cs|
  {
    if cs != "" {
      SpreadChars(cs[0], cs[1..], spaced);
      assert forall c :: c in cs[1..] ==> c in cs;
    }
  }

  lemma {:induction false} WantedChars(q: string)
    ensures forall c :: c in Wanted(q) ==> c in q
  {
    if q != "" {
      WantedChars(q[1..]);
      assert forall c :: c in q[1..] ==> c in q;
    }
  }

  lemma LooseChars(q: string)
    requires Wanted(q) != "" && ' ' !in Wanted(q)
    ensures forall c :: c in Loose(q) ==> c in q || Mark(c)
  {
    var cs := Wanted(q);
    WantedChars(q);
    SpreadChars(cs[0], cs[1..], cs == q);
    assert forall c :: c in cs[1..] ==> c in cs;
  }

  lemma GappedChars(q: string)
    requires |q| > 1 && ' ' !in q
    ensures forall c :: c in Gapped(q) ==> c in q || Mark(c)
  {
    SpreadChars(q[1], q[2..], true);
    assert forall c :: c in q[2..] ==> c in q;
  }

  // Without spaces in the query, gaps of spaces; with some, gaps without any.
  function Loose(q: string): string
    requires Wanted(q) != "" && ' ' !in Wanted(q)
  {
    var cs := Wanted(q);
    [cs[0]] + Spread(cs[0], cs[1..], cs == q)
  }

  lemma LooseTotal(q: string)
    requires Wanted(q) != "" && ' ' !in Wanted(q)
    ensures Total(Wanted(q), Loose(q), 0, -2) == Some(SumMax(Wanted(q)))
  {
    var cs := Wanted(q);
    WholeTotal(cs[0], cs[1..], cs == q);
    assert [cs[0]] + cs[1..] == cs;
  }

  lemma SolidNotHeld(q: string)
    requires Wanted(q) == q != "" && ' ' !in q && !Tight(q)
    ensures IndexOf(Loose(q), q, 0).None?
  {
    SolidLonger(q[0], q[1..]);
    assert [q[0]] + q[1..] == q;
    NotHeld([q[0]] + Spread(q[0], q[1..], true), q);
  }

  lemma SolidLonger(c: char, cs: string)
    requires c != ' ' && ' ' !in cs && !Tight([c] + cs)
    ensures var t := [c] + Spread(c, cs, true);
            |t| > |[c] + cs| && t[|t| - 1] != ' ' && Wanted(t) == [c] + cs
  {
    SpreadLength(c, cs, true);
    if cs != "" { SpreadEnd(c, cs, true); }
    SpreadWanted(c, cs);
    WantedCons(c, Spread(c, cs, true));
  }

  lemma SpacedNotHeld(q: string)
    requires Wanted(q) != "" && ' ' !in Wanted(q) && ' ' in q
    ensures IndexOf(Loose(q), q, 0).None?
  {
    var cs := Wanted(q);
    SpreadSolid(cs[0], cs[1..]);
    WantedNoSpace(q);
    var k :| 0 <= k < |q| && q[k] == ' ';
    forall i: nat ensures !Occurs(Loose(q), q, i) { Mismatch(Loose(q), q, i, k); }
  }

  lemma LooseIsReached(q: string)
    requires Wanted(q) != "" && ' ' !in Wanted(q) && (Wanted(q) != q || !Tight(q))
    ensures IndexOf(Loose(q), q, 0).None? && Total(Wanted(q), Loose(q), 0, -2) == Some(SumMax(Wanted(q)))
  {
    LooseTotal(q);
    WantedNoSpace(q);
    if Wanted(q) == q { SolidNotHeld(q); } else { SpacedNotHeld(q); }
  }

  // With every place tight, one gap behind the first character costs 2.05.
  function Gapped(q: string): string
    requires |q| > 1 && ' ' !in q
  {
    [q[0], ' ', q[1]] + Spread(q[1], q[2..], true)
  }

  lemma GappedTotal(q: string)
    requires |q| > 1 && ' ' !in q && Separator(q[0])
    ensures Total(q, Gapped(q), 0, -2) == Some(SumMax(q) - 2.05)
  {
    var t, rest := Gapped(q), q[2..];
    assert q[1..] == [q[1]] + rest && q == [q[0]] + q[1..];
    SpreadTotal([q[0], ' ', q[1]], rest, true);
    FoundAt(t, q[0], 0, 0);
    FoundAt(t, q[1], 1, 2);
    TotalOne(q[1], rest, t, 1, 0, 2);
    assert Gain(t, 2, 1, 0) == 3.95;
    TotalOne(q[0], q[1..], t, 0, -2, 0);
    assert Gain(t, 0, 0, -2) == 4.0;
    assert q[1..][1..] == rest;
  }

  lemma GappedWanted(q: string)
    requires |q| > 1 && ' ' !in q
    ensures Wanted(Gapped(q)) == q
  {
    var rest := Spread(q[1], q[2..], true);
    SpreadWanted(q[1], q[2..]);
    assert Gapped(q) == [q[0]] + ([' '] + ([q[1]] + rest));
    WantedCons(q[1], rest);
    WantedCons(' ', [q[1]] + rest);
    WantedCons(q[0], [' '] + ([q[1]] + rest));
    assert [q[0]] + ([q[1]] + q[2..]) == q;
  }

  lemma GappedEnds(q: string)
    requires |q| > 1 && ' ' !in q
    ensures |Gapped(q)| > |q| && Gapped(q)[0] != ' ' && Gapped(q)[|Gapped(q)| - 1] != ' '
  {
    SpreadLength(q[1], q[2..], true);
    if |q| > 2 { SpreadEnd(q[1], q[2..], true); }
  }

  lemma TightIsReached(q: string)
    requires Wanted(q) == q && Tight(q) && |q| > 1 && ' ' !in q
    ensures IndexOf(Gapped(q), q, 0).None? && Total(q, Gapped(q), 0, -2) == Some(SumMax(q) - 2.05)
  {
    GappedTotal(q);
    GappedWanted(q);
    GappedEnds(q);
    NotHeld(Gapped(q), q);
  }

  lemma BestIsReached(query: string, lower: string -> string) returns (t: string)
    requires Trim(lower(query)) != "" && Wanted(Trim(lower(query))) != "" && Best(Trim(lower(query))).Some?
    requires LeavesLowered(lower, Trim(lower(query)))
    ensures Scattered(query, t, lower) && Score(query, t, lower) == Best(Trim(lower(query)))
  {
    var q := Trim(lower(query));
    WantedNoSpace(q);
    if Wanted(q) != q || !Tight(q) {
      t := Loose(q);
      LooseChars(q);
      LooseIsReached(q);
    } else {
      t := Gapped(q);
      GappedChars(q);
      TightIsReached(q);
    }
    assert lower(t) == t;
  }

  // A text that holds the query outranks every text that only matches it exactly
  // if its own score exceeds the bound.
  lemma HitBeatsAllExactly(query: string, hit: string, lower: string -> string)
    requires Trim(lower(query)) != "" && IndexOf(lower(hit), Trim(lower(query)), 0).Some?
    requires LeavesLowered(lower, Trim(lower(query)))
    ensures Wanted(Trim(lower(query))) != ""
    ensures var best := Best(Trim(lower(query)));
            (forall other :: Scattered(query, other, lower) ==>
               Score(query, hit, lower).value > Score(query, other, lower).value)
            <==> (best.None? || Score(query, hit, lower).value > best.value)
  {
    var q := Trim(lower(query));
    TrimmedStarts(lower(query));
    forall other | Scattered(query, other, lower)
      ensures Best(q).Some? && Score(query, other, lower).value <= Best(q).value
    {
      ScatteredAtMost(query, other, lower);
    }
    if Best(q).Some? {
      var t := BestIsReached(query, lower);
      assert Scattered(query, t, lower);
    }
  }

  // ---------- how hits compare ----------

  predicate AtWordStart(t: string, at: nat)
    requires at <= |t|
  {
    at == 0 || IsSpace(t[at - 1]) || t[at - 1] in {'-', '_', '/', '\U{00B7}', '.'}
  }

  // Of two texts that hold the query the one that holds it earlier comes first,
  // where the start of a word counts like fifty characters.  A blank query
  // tells no texts apart.
  lemma HitsCompare(query: string, a: string, b: string, lower: string -> string)
    ensures var q := Trim(lower(query));
            var i, j := IndexOf(lower(a), q, 0), IndexOf(lower(b), q, 0);
            && (q == "" ==> Score(query, a, lower) == Some(0.0))
            && (q != "" && i.Some? && j.Some? ==>
                  && Score(query, a, lower).Some? && Score(query, b, lower).Some?
                  && (Score(query, a, lower).value > Score(query, b, lower).value <==>
                        i.value + (if AtWordStart(lower(a), i.value) then 0 else 50)
                        < j.value + (if AtWordStart(lower(b), j.value) then 0 else 50)))
  {
  }

  // ---------- a hit that loses ----------

  // Lowering a text that is lower case already.
  function Same(s: string): string { s }

  function Padded(n: nat): string {
    seq(n, _ => 'x') + "ab"
  }

  lemma AbIsTrimmed()
    ensures Trim("ab") == "ab" && Wanted("ab") == "ab"
  {
    assert "ab"[1..] == "b";
  }

  lemma FoundBehindPadding(n: nat)
    ensures IndexOf(Padded(n), "ab", 0) == Some(n)
  {
    var t := Padded(n);
    assert Occurs(t, "ab", n);
    forall i: nat | i < n ensures !Occurs(t, "ab", i) { Mismatch(t, "ab", i, 0); }
  }

  lemma ScatteredAb()
    ensures IndexOf("a-b", "ab", 0).None? && Total("ab", "a-b", 0, -2) == Some(7.95)
  {
    Mismatch("a-b", "ab", 0, 1);
    Mismatch("a-b", "ab", 1, 0);
    forall i: nat ensures !Occurs("a-b", "ab", i) {}
    WholeTotal('a', "b", false);
    assert Spread('a', "b", false) == "-b";
    assert ['a'] + "-b" == "a-b" && ['a'] + "b" == "ab";
    assert RestMax('a', "b") == 3.95;
  }

  lemma PaddedScore(n: nat)
    requires n > 0
    ensures Score("ab", Padded(n), Same) == Some(1000.0 - n as real)
  {
    AbIsTrimmed();
    FoundBehindPadding(n);
    assert Padded(n)[n - 1] == 'x';
  }

  lemma ScatteredScore()
    ensures Scattered("ab", "a-b", Same) && Score("ab", "a-b", Same) == Some(7.95)
  {
    AbIsTrimmed();
    ScatteredAb();
  }

  // The query "ab" found at position 1000 scores 0, and "a-b" scores 7.95.
  lemma LateHitLoses()
    ensures IndexOf(Padded(1000), "ab", 0).Some? && Score("ab", Padded(1000), Same) == Some(0.0)
    ensures Scattered("ab", "a-b", Same) && Score("ab", "a-b", Same) == Some(7.95)
  {
    FoundBehindPadding(1000);
    PaddedScore(1000);
    ScatteredScore();
  }

  // ---------- what a gap costs ----------

  function Apart(n: nat): string {
    "a" + seq(n, _ => 'x') + "b"
  }

  lemma ApartNotHeld(n: nat)
    requires n > 0
    ensures IndexOf(Apart(n), "ab", 0).None?
  {
    var t := Apart(n);
    assert t[0] == 'a' && forall i :: 0 < i < |t| ==> t[i] != 'a';
    Mismatch(t, "ab", 0, 1);
    forall i: nat ensures !Occurs(t, "ab", i) {
      if i > 0 { Mismatch(t, "ab", i, 0); }
    }
  }

  // Each skipped character costs a twentieth of a point, and never more than ten
  // of them count: between "a" and "b" the score falls from 4.95 to 4.5.
  lemma GapScores(n: nat)
    requires n > 0
    ensures Score("ab", Apart(n), Same) == Some(5.0 - 0.05 * (if n <= 10 then n else 10) as real)
  {
    var t := Apart(n);
    AbIsTrimmed();
    ApartNotHeld(n);
    BehindGap(n);
    FoundAt(t, 'a', 0, 0);
    TotalOne('a', "b", t, 0, -2, 0);
    assert ['a'] + "b" == "ab";
  }

  lemma BehindGap(n: nat)
    requires n > 0
    ensures Total("b", Apart(n), 1, 0) == Some(1.0 - 0.05 * (if n <= 10 then n else 10) as real)
  {
    var t := Apart(n);
    assert t[n + 1] == 'b' && forall i :: 1 <= i < n + 1 ==> t[i] == 'x';
    FoundAt(t, 'b', 1, n + 1);
    assert Total("", t, n + 2, n + 1) == Some(0.0);
    TotalOne('b', "", t, 1, 0, n + 1);
    assert ['b'] + "" == "b";
  }
}
