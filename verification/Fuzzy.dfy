// The command palette's matcher: fuzzyScore in
// app/orchestrator/CommandPalette.tsx.  The score -Infinity is None.
module Fuzzy {
  import opened Wrappers
  import opened JsText

  function TrimEnd(s: string): string {
    if s == "" || !IsSpace(s[|s| - 1]) then s else TrimEnd(s[..|s| - 1])
  }

  function Trim(s: string): string {
    TrimEnd(SkipSpace(s))
  }

  predicate Occurs(t: string, q: string, i: nat) {
    i + |q| <= |t| && t[i..i + |q|] == q
  }

  // t.indexOf(q, from)
  function IndexOf(t: string, q: string, from: nat): (at: Option<nat>)
    ensures at.Some? ==> from <= at.value && Occurs(t, q, at.value)
    ensures at.Some? ==> forall i :: from <= i < at.value ==> !Occurs(t, q, i)
    ensures at.None? ==> forall i :: from <= i ==> !Occurs(t, q, i)
    decreases |t| - from
  {
    if from + |q| > |t| then None
    else if Occurs(t, q, from) then Some(from)
    else IndexOf(t, q, from + 1)
  }

  predicate Separator(c: char) {
    IsSpace(c) || c in {'-', '_', '/', '\U{00B7}', '.'}
  }

  // A word starts at the beginning and behind white space or one of - _ / . or
  // a middle dot.
  predicate WordStart(t: string, at: nat)
    requires at <= |t|
  {
    at == 0 || Separator(t[at - 1])
  }

  // Spaces in the query only separate words.
  function Wanted(q: string): string {
    if q == "" then "" else (if q[0] == ' ' then "" else [q[0]]) + Wanted(q[1..])
  }

  // ---------- the earliest match ----------

  // Where each wanted character is first found behind the one before it.
  function Matches(cs: string, t: string, from: nat): Option<seq<nat>>
    decreases |cs|
  {
    if cs == "" then Some([])
    else
      match IndexOf(t, [cs[0]], from)
      case None => None
      case Some(at) =>
        match Matches(cs[1..], t, at + 1)
        case None => None
        case Some(rest) => Some([at] + rest)
  }

  // What one found character adds: a point, a run, a word start, less the gap.
  function Gain(t: string, at: nat, from: nat, prev: int): real
    requires at <= |t|
  {
    1.0 + (if at == prev + 1 then 2.0 else 0.0) + (if WordStart(t, at) then 3.0 else 0.0)
    - (if at - from <= 10 then at - from else 10) as real * 0.05
  }

  function Gains(t: string, ps: seq<nat>, from: nat, prev: int): real
    requires forall i :: 0 <= i < |ps| ==> ps[i] < |t|
  {
    if ps == [] then 0.0 else Gain(t, ps[0], from, prev) + Gains(t, ps[1..], ps[0] + 1, ps[0])
  }

  lemma {:induction false} MatchesInside(cs: string, t: string, from: nat)
    ensures var m := Matches(cs, t, from);
            m.Some? ==>
              && |m.value| == |cs|
              && (forall i :: 0 <= i < |cs| ==> from <= m.value[i] < |t| && t[m.value[i]] == cs[i])
              && (forall i, j :: 0 <= i < j < |cs| ==> m.value[i] < m.value[j])
    decreases |cs|
  {
    if cs != "" {
      var at := IndexOf(t, [cs[0]], from);
      if at.Some? {
        MatchesInside(cs[1..], t, at.value + 1);
        assert t[at.value..at.value + 1][0] == cs[0];
      }
    }
  }

  // The score of the earliest match, if there is a match.
  function Total(cs: string, t: string, from: nat, prev: int): Option<real> {
    match Matches(cs, t, from)
    case None => None
    case Some(ps) =>
      MatchesInside(cs, t, from);
      Some(Gains(t, ps, from, prev))
  }

  function Score(query: string, text: string, lower: string -> string): Option<real> {
    var q := Trim(lower(query));
    var t := lower(text);
    if q == "" then Some(0.0)
    else
      match IndexOf(t, q, 0)
      case Some(sub) => Some(1000.0 - sub as real + (if WordStart(t, sub) then 50.0 else 0.0))
      case None => Total(Wanted(q), t, 0, -2)
  }

  // ---------- the code ----------

  method FuzzyScore(query: string, text: string, lower: string -> string) returns (r: Option<real>)
    ensures r == Score(query, text, lower)
  {
    var q := Trim(lower(query));
    if q == "" {
      return Some(0.0);
    }
    var t := lower(text);
    var sub := IndexOf(t, q, 0);
    if sub.Some? {
      return Some(1000.0 - sub.value as real + if sub.value == 0 || WordStart(t, sub.value) then 50.0 else 0.0);
    }
    r := EarliestMatch(q, t);
  }

  // The loop over the query's characters.
  method EarliestMatch(q: string, t: string) returns (r: Option<real>)
    ensures r == Total(Wanted(q), t, 0, -2)
  {
    var score: real := 0.0;
    var from: nat, prev: int := 0, -2;
    ghost var rest, whole := Wanted(q), Total(Wanted(q), t, 0, -2);
    var i := 0;
    assert q[0..] == q;
    while i < |q|
      invariant i <= |q|
      invariant rest == Wanted(q[i..])
      invariant whole == Plus(score, Total(rest, t, from, prev))
    {
      WantedStep(q, i);
      var ch := q[i];
      i := i + 1;
      if ch != ' ' {
        ghost var more := Wanted(q[i..]);
        assert rest == [ch] + more;
        rest := more;
        TotalStep(score, ch, more, t, from, prev);
        var at := IndexOf(t, [ch], from);
        if at.None? {
          return None;
        }
        score := score + Gain(t, at.value, from, prev);
        prev := at.value;
        from := at.value + 1;
      }
    }
    r := Some(score);
  }

  function Plus(score: real, rest: Option<real>): Option<real> {
    if rest.Some? then Some(score + rest.value) else None
  }

  lemma TotalStep(score: real, c: char, cs: string, t: string, from: nat, prev: int)
    ensures var at := IndexOf(t, [c], from);
            && (at.None? ==> Total([c] + cs, t, from, prev).None?)
            && (at.Some? ==> Plus(score, Total([c] + cs, t, from, prev))
                             == Plus(score + Gain(t, at.value, from, prev), Total(cs, t, at.value + 1, at.value)))
  {
    assert ([c] + cs)[1..] == cs;
    var at := IndexOf(t, [c], from);
    if at.Some? && Matches(cs, t, at.value + 1).Some? {
      var rest := Matches(cs, t, at.value + 1).value;
      assert Matches([c] + cs, t, from) == Some([at.value] + rest);
      assert ([at.value] + rest)[1..] == rest;
    }
  }

  lemma WantedStep(q: string, i: nat)
    requires i < |q|
    ensures q[i] == ' ' ==> Wanted(q[i..]) == Wanted(q[i + 1..])
    ensures q[i] != ' ' ==> Wanted(q[i..]) == [q[i]] + Wanted(q[i + 1..])
  {
    assert q[i..][0] == q[i] && q[i..][1..] == q[i + 1..];
  }

  // ---------- greedy is complete ----------

  // ps picks the characters of cs from t in order.
  ghost predicate Embeds(cs: string, t: string, ps: seq<nat>) {
    && |ps| == |cs|
    && (forall i :: 0 <= i < |cs| ==> ps[i] < |t| && t[ps[i]] == cs[i])
    && (forall i, j :: 0 <= i < j < |cs| ==> ps[i] < ps[j])
  }

  ghost predicate Subsequence(cs: string, t: string) {
    exists ps :: Embeds(cs, t, ps)
  }

  // The search finds a match whenever there is one, and none lies earlier.
  lemma {:induction false} MatchesEarliest(cs: string, t: string, from: nat, ps: seq<nat>)
    requires Embeds(cs, t, ps) && (ps != [] ==> ps[0] >= from)
    ensures Matches(cs, t, from).Some?
    ensures forall i :: 0 <= i < |cs| && i < |Matches(cs, t, from).value| ==> Matches(cs, t, from).value[i] <= ps[i]
    decreases |cs|
  {
    if cs != "" {
      var at := IndexOf(t, [cs[0]], from);
      assert Occurs(t, [cs[0]], ps[0]);
      assert at.Some? && at.value <= ps[0];
      assert Embeds(cs[1..], t, ps[1..]);
      MatchesEarliest(cs[1..], t, at.value + 1, ps[1..]);
    }
  }

  function Shifted(ps: seq<nat>, offset: nat): (r: seq<nat>)
    ensures |r| == |ps| && forall i :: 0 <= i < |ps| ==> r[i] == ps[i] + offset
  {
    seq(|ps|, i requires 0 <= i < |ps| => ps[i] + offset)
  }

  lemma EmbedsBehind(cs: string, before: string, t: string, ps: seq<nat>)
    requires Embeds(cs, t, ps)
    ensures Embeds(cs, before + t, Shifted(ps, |before|))
  {
  }

  lemma EmbedsMore(cs: string, t: string, ps: seq<nat>, more: string)
    requires Embeds(cs, t, ps)
    ensures Embeds(cs, t + more, ps)
  {
  }

  lemma EmbedsCons(c: char, cs: string, t: string, ps: seq<nat>)
    requires Embeds(cs, t, ps)
    ensures Embeds([c] + cs, [c] + t, [0] + Shifted(ps, 1))
  {
    EmbedsBehind(cs, [c], t, ps);
  }

  lemma {:induction false} WantedIsSubsequence(q: string)
    ensures Subsequence(Wanted(q), q)
  {
    if q == "" {
      assert Embeds(Wanted(q), q, []);
    } else {
      WantedIsSubsequence(q[1..]);
      var ps :| Embeds(Wanted(q[1..]), q[1..], ps);
      assert q == [q[0]] + q[1..];
      if q[0] == ' ' {
        assert Wanted(q) == Wanted(q[1..]);
        EmbedsBehind(Wanted(q[1..]), [q[0]], q[1..], ps);
      } else {
        EmbedsCons(q[0], Wanted(q[1..]), q[1..], ps);
      }
    }
  }

  lemma SubstringEmbeds(q: string, t: string, at: nat)
    requires Occurs(t, q, at)
    ensures Subsequence(Wanted(q), t)
  {
    WantedIsSubsequence(q);
    var ps :| Embeds(Wanted(q), q, ps);
    EmbedsBehind(Wanted(q), t[..at], q, ps);
    EmbedsMore(Wanted(q), t[..at] + q, Shifted(ps, |t[..at]|), t[at + |q|..]);
    assert t == t[..at] + q + t[at + |q|..];
  }

  // For a query that is not blank the score is finite exactly when the query's
  // characters other than spaces are a subsequence of the text, whichever
  // branch answered.
  lemma FiniteExactlyOnSubsequence(query: string, text: string, lower: string -> string)
    requires Trim(lower(query)) != ""
    ensures Score(query, text, lower).Some? <==> Subsequence(Wanted(Trim(lower(query))), lower(text))
  {
    var q, t := Trim(lower(query)), lower(text);
    var sub := IndexOf(t, q, 0);
    if sub.Some? {
      SubstringEmbeds(q, t, sub.value);
    } else {
      MatchesInside(Wanted(q), t, 0);
      var m := Matches(Wanted(q), t, 0);
      if m.Some? {
        assert Embeds(Wanted(q), t, m.value);
      }
      if ps :| Embeds(Wanted(q), t, ps) {
        MatchesEarliest(Wanted(q), t, 0, ps);
      }
    }
  }

  // ---------- exact hits dominate ----------

  lemma {:induction false} GainsBounded(t: string, ps: seq<nat>, from: nat, prev: int)
    requires forall i :: 0 <= i < |ps| ==> from <= ps[i] < |t|
    requires forall i, j :: 0 <= i < j < |ps| ==> ps[i] < ps[j]
    ensures Gains(t, ps, from, prev) <= 6.0 * |ps| as real
  {
    if ps != [] { GainsBounded(t, ps[1..], ps[0] + 1, ps[0]); }
  }

  lemma {:induction false} WantedIsShorter(q: string)
    ensures |Wanted(q)| <= |q|
  {
    if q != "" { WantedIsShorter(q[1..]); }
  }

  // A text that holds the query outranks one that only holds its characters,
  // as long as the hit comes early enough for the query's length.
  lemma ExactHitDominates(query: string, hit: string, other: string, lower: string -> string)
    requires Trim(lower(query)) != ""
    requires IndexOf(lower(hit), Trim(lower(query)), 0).Some?
    requires IndexOf(lower(other), Trim(lower(query)), 0).None? && Score(query, other, lower).Some?
    requires IndexOf(lower(hit), Trim(lower(query)), 0).value + 6 * |Trim(lower(query))| < 1000
    ensures Score(query, hit, lower).value > Score(query, other, lower).value
  {
    var q, t := Trim(lower(query)), lower(other);
    MatchesInside(Wanted(q), t, 0);
    GainsBounded(t, Matches(Wanted(q), t, 0).value, 0, -2);
    WantedIsShorter(q);
  }
}
