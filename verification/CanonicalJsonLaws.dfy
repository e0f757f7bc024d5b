// Why canonicalJson may stand for the value it prints: the text can be read
// back, it forgets nothing but the order of keys, and that order is fixed.
module CanonicalJsonLaws {
  import opened Wrappers
  import opened CanonicalJson
  import JsText

  // ---------- strings ----------

  // The parser's answer when the text read so far gives s.
  function Before(s: Text, p: Parsed<Text>): Parsed<Text> {
    match p
    case None => None
    case Some((more, rest)) => Some((s + more, rest))
  }

  lemma Assoc<T>(a: seq<T>, b: seq<T>, c: seq<T>)
    ensures a + b + c == a + (b + c)
  {
  }

  lemma Behind<T>(x: T, t: seq<T>)
    ensures ([x] + t)[0] == x && ([x] + t)[1..] == t
  {
  }

  lemma Enclosed(l: Unit, body: Text, r: Unit, rest: Text)
    ensures [l] + body + [r] + rest == [l] + (body + ([r] + rest))
  {
    Assoc([l] + body, [r], rest);
    Assoc([l], body, [r] + rest);
  }

  lemma HexDigitRoundTrip(n: Unit)
    requires n < 16
    ensures FromHex(HexDigit(n)) == Some(n)
  {
  }

  lemma FourHexDigits(n: int)
    requires 0 <= n < 0x10000
    ensures ((n / 4096 * 16 + n / 256 % 16) * 16 + n / 16 % 16) * 16 + n % 16 == n
  {
  }

  lemma HexRoundTrip(u: Unit, t: Text)
    ensures ParseEscape(HexEscape(u)[1..] + t) == Some((u, t))
  {
    var a, b, c, d := u / 4096, u / 256 % 16, u / 16 % 16, u % 16;
    var e := ['u' as Unit, HexDigit(a), HexDigit(b), HexDigit(c), HexDigit(d)] + t;
    assert HexEscape(u)[1..] + t == e;
    assert e[5..] == t;
    HexDigitRoundTrip(a);
    HexDigitRoundTrip(b);
    HexDigitRoundTrip(c);
    HexDigitRoundTrip(d);
    FourHexDigits(u as int);
    assert ((a * 16 + b) * 16 + c) * 16 + d == u;
  }

  lemma UnitRoundTrip(u: Unit, t: Text)
    ensures ParseString(EscapeUnit(u) + t) == Before([u], ParseString(t))
  {
    var e := EscapeUnit(u) + t;
    assert e[0] == EscapeUnit(u)[0];
    if EscapeUnit(u) == HexEscape(u) {
      assert e[1..] == HexEscape(u)[1..] + t;
      HexRoundTrip(u, t);
    } else if |EscapeUnit(u)| == 2 {
      assert e[1..][1..] == t;
    } else {
      assert e[1..] == t;
    }
  }

  lemma PlainRoundTrip(u: Unit, t: Text)
    requires u != '"' as Unit && u != '\\' as Unit
    ensures ParseString([u] + t) == Before([u], ParseString(t))
  {
    assert ([u] + t)[1..] == t;
  }

  lemma BeforeTwice(a: Text, b: Text, p: Parsed<Text>)
    ensures Before(a, Before(b, p)) == Before(a + b, p)
  {
    if p.Some? { Assoc(a, b, p.value.0); }
  }

  lemma PairRoundTrip(u: Unit, w: Unit, t: Text)
    requires IsLead(u) && IsTrail(w)
    ensures ParseString([u, w] + t) == Before([u, w], ParseString(t))
  {
    PairCons(u, w, t);
    PlainRoundTrip(u, [w] + t);
    PlainRoundTrip(w, t);
    BeforePair(u, w, ParseString(t));
  }

  lemma PairCons(u: Unit, w: Unit, t: Text)
    ensures [u, w] + t == [u] + ([w] + t)
  {
  }

  lemma BeforePair(u: Unit, w: Unit, p: Parsed<Text>)
    ensures Before([u], Before([w], p)) == Before([u, w], p)
  {
    BeforeTwice([u], [w], p);
    assert [u] + [w] == [u, w];
  }

  lemma {:induction false} EscapeRoundTrip(s: Text, t: Text)
    ensures ParseString(Escape(s) + t) == Before(s, ParseString(t))
    decreases |s|
  {
    if s == [] {
      assert Escape(s) + t == t;
      if ParseString(t).Some? { assert s + ParseString(t).value.0 == ParseString(t).value.0; }
    } else {
      var n := if |s| > 1 && IsLead(s[0]) && IsTrail(s[1]) then 2 else 1;
      var first := if n == 2 then s[..2] else EscapeUnit(s[0]);
      var more := Escape(s[n..]) + t;
      Assoc(first, Escape(s[n..]), t);
      assert ParseString(first + more) == Before(s[..n], ParseString(more)) by {
        if n == 2 {
          assert s[..2] == [s[0], s[1]];
          PairRoundTrip(s[0], s[1], more);
        } else {
          assert s[..1] == [s[0]];
          UnitRoundTrip(s[0], more);
        }
      }
      EscapeRoundTrip(s[n..], t);
      BeforeTwice(s[..n], s[n..], ParseString(t));
      assert s == s[..n] + s[n..];
    }
  }

  lemma ClosingQuote(rest: Text)
    ensures ParseString(['"' as Unit] + rest) == Some(([], rest))
  {
    Behind('"' as Unit, rest);
  }

  // What JSON.stringify makes of a string reads back as that string.
  lemma StringRoundTrip(s: Text, rest: Text)
    ensures ParseString(Escape(s) + (['"' as Unit] + rest)) == Some((s, rest))
  {
    EscapeRoundTrip(s, ['"' as Unit] + rest);
    ClosingQuote(rest);
    assert s + [] == s;
  }

  // ---------- which text a string is printed as ----------

  // Control characters and lone surrogates must be escaped (section 3.2.2.2 of
  // RFC 8785).
  predicate MustEscape(u: Unit) {
    u < 0x20 || IsLead(u) || IsTrail(u)
  }

  // Only the closing quote itself reads as nothing with nothing behind it.
  lemma MoreIsLeft(t: Text)
    requires t != []
    ensures ParseString(t + ['"' as Unit]) != Some(([], []))
  {
    assert (t + ['"' as Unit])[1..] == t[1..] + ['"' as Unit];
  }

  lemma RawOnce(u: Unit, t: Text)
    requires ParseString(t + ['"' as Unit]) == Some(([u], [])) && t != [] && t[0] != '\\' as Unit
    ensures t == [u] && u != '"' as Unit && u != '\\' as Unit
  {
    assert (t + ['"' as Unit])[1..] == t[1..] + ['"' as Unit];
    var p := ParseString(t[1..] + ['"' as Unit]).value;
    assert ([t[0]] + p.0)[0] == t[0] && |p.0| == 0;
    if t[1..] != [] { MoreIsLeft(t[1..]); }
  }

  lemma EscapedOnce(u: Unit, e: Text)
    requires ParseString(['\\' as Unit] + (e + ['"' as Unit])) == Some(([u], []))
    ensures ParseEscape(e + ['"' as Unit]) == Some((u, ['"' as Unit]))
  {
    var q := e + ['"' as Unit];
    Behind('\\' as Unit, q);
    var (v, rest) := ParseEscape(q).value;
    var p := ParseString(rest).value;
    assert ([v] + p.0)[0] == v && |p.0| == 0;
    EscapeLeaves(e, v, rest);
    if |rest| > 1 { MoreIsLeft(rest[..|rest| - 1]); }
  }

  // What an escape leaves still ends with the closing quote.
  lemma EscapeLeaves(e: Text, u: Unit, rest: Text)
    requires ParseEscape(e + ['"' as Unit]) == Some((u, rest)) && rest != []
    ensures rest == rest[..|rest| - 1] + ['"' as Unit]
  {
  }

  lemma HexDigitBack(x: Unit)
    requires FromHex(x).Some?
    ensures HexDigit(FromHex(x).value) == x
  {
  }

  lemma FourDigitsBack(a: int, b: int, c: int, d: int)
    requires 0 <= a < 16 && 0 <= b < 16 && 0 <= c < 16 && 0 <= d < 16
    ensures var u := ((a * 16 + b) * 16 + c) * 16 + d;
            u / 4096 == a && u / 256 % 16 == b && u / 16 % 16 == c && u % 16 == d
  {
  }

  // A \u escape is of one form, any other one of two characters.
  lemma EscapeForms(u: Unit, e: Text)
    requires ParseEscape(e + ['"' as Unit]) == Some((u, ['"' as Unit]))
    ensures (|e| == 1 && e[0] != 'u' as Unit) || ['\\' as Unit] + e == HexEscape(u)
  {
    var q := e + ['"' as Unit];
    if e != [] && e[0] == 'u' as Unit && |q| >= 5 {
      assert |q[5..]| == 1;
      HexDigitBack(e[1]);
      HexDigitBack(e[2]);
      HexDigitBack(e[3]);
      HexDigitBack(e[4]);
      var a, b, c, d := FromHex(e[1]).value, FromHex(e[2]).value, FromHex(e[3]).value, FromHex(e[4]).value;
      FourDigitsBack(a as int, b as int, c as int, d as int);
    } else {
      assert |q[1..]| == 1;
    }
  }

  lemma ShortForm(u: Unit, x: Unit)
    requires ParseEscape([x] + ['"' as Unit]) == Some((u, ['"' as Unit])) && x != 'u' as Unit
    ensures EscapeUnit(u) == ['\\' as Unit, x]
  {
  }

  lemma EscapedIsShortest(u: Unit, e: Text)
    requires ParseEscape(e + ['"' as Unit]) == Some((u, ['"' as Unit]))
    ensures |EscapeUnit(u)| <= |e| + 1
    ensures |EscapeUnit(u)| == |e| + 1 ==> ['\\' as Unit] + e == EscapeUnit(u)
  {
    EscapeForms(u, e);
    if |e| == 1 && e[0] != 'u' as Unit {
      assert e == [e[0]];
      ShortForm(u, e[0]);
    }
  }

  lemma PlainIsItself(u: Unit)
    requires !MustEscape(u) && u != '"' as Unit && u != '\\' as Unit
    ensures EscapeUnit(u) == [u]
  {
  }

  // Of the texts a unit can be written as, its escape is the shortest, and the
  // only one of its length.
  lemma EscapeIsShortest(u: Unit, t: Text)
    requires ParseString(t + ['"' as Unit]) == Some(([u], []))
    requires t != [] && (MustEscape(u) ==> t[0] == '\\' as Unit)
    ensures |Escape([u])| <= |t| && (|Escape([u])| == |t| ==> t == Escape([u]))
  {
    if t[0] != '\\' as Unit { RawIsShortest(u, t); } else { EscapedTextIsShortest(u, t); }
  }

  lemma RawIsShortest(u: Unit, t: Text)
    requires ParseString(t + ['"' as Unit]) == Some(([u], []))
    requires t != [] && t[0] != '\\' as Unit && !MustEscape(u)
    ensures t == Escape([u])
  {
    EscapeOne(u);
    RawOnce(u, t);
    PlainIsItself(u);
  }

  lemma EscapedTextIsShortest(u: Unit, t: Text)
    requires ParseString(t + ['"' as Unit]) == Some(([u], [])) && t != [] && t[0] == '\\' as Unit
    ensures |Escape([u])| <= |t| && (|Escape([u])| == |t| ==> t == Escape([u]))
  {
    EscapeOne(u);
    BehindBackslash(t);
    EscapedOnce(u, t[1..]);
    EscapedIsShortest(u, t[1..]);
  }

  lemma BehindBackslash(t: Text)
    requires t != [] && t[0] == '\\' as Unit
    ensures t + ['"' as Unit] == ['\\' as Unit] + (t[1..] + ['"' as Unit]) && t == ['\\' as Unit] + t[1..]
  {
  }

  lemma EscapeOne(u: Unit)
    ensures Escape([u]) == EscapeUnit(u)
  {
    assert [u][1..] == [];
  }

  // A whole string is printed unit by unit, but a surrogate pair as it is.
  lemma EscapeCons(u: Unit, s: Text)
    ensures !(IsLead(u) && s != [] && IsTrail(s[0])) ==> Escape([u] + s) == Escape([u]) + Escape(s)
    ensures IsLead(u) && s != [] && IsTrail(s[0]) ==> Escape([u] + s) == [u, s[0]] + Escape(s[1..])
  {
    Behind(u, s);
    EscapeOne(u);
    if s != [] {
      assert ([u] + s)[2..] == s[1..] && ([u] + s)[..2] == [u, s[0]];
    }
  }

  // ---------- the order of keys ----------

  lemma {:induction false} LessIsTotal(a: Text, b: Text)
    ensures a == b || Less(a, b) || Less(b, a)
    ensures !(Less(a, b) && Less(b, a)) && !Less(a, a)
    decreases |a|
  {
    if a != [] {
      LessIsTotal(a[1..], if b == [] then [] else b[1..]);
      if b != [] && a[0] == b[0] && a[1..] == b[1..] {
        assert a == [a[0]] + a[1..] == b;
      }
    }
  }

  lemma {:induction false} LessIsTransitive(a: Text, b: Text, c: Text)
    requires Less(a, b) && Less(b, c)
    ensures Less(a, c)
    decreases |a|
  {
    if a != [] && a[0] == b[0] == c[0] {
      LessIsTransitive(a[1..], b[1..], c[1..]);
    }
  }

  // They agree before unit i, and there `a` has the smaller one.
  predicate FirstSmaller(a: Text, b: Text, i: nat) {
    i < |a| && i < |b| && a[..i] == b[..i] && a[i] < b[i]
  }

  lemma FirstSmallerBehind(a: Text, b: Text, i: nat)
    requires a != [] && b != [] && a[0] == b[0]
    ensures FirstSmaller(a, b, i + 1) <==> FirstSmaller(a[1..], b[1..], i)
    ensures !FirstSmaller(a, b, 0)
  {
    if i < |a[1..]| && i < |b[1..]| {
      assert a[..i + 1] == [a[0]] + a[1..][..i] && b[..i + 1] == [b[0]] + b[1..][..i];
      assert a[..i + 1] == b[..i + 1] ==> a[1..][..i] == a[..i + 1][1..] == b[..i + 1][1..] == b[1..][..i];
    }
  }

  // Section 3.2.3 of RFC 8785: the first code unit that differs decides; if
  // there is none, the shorter string comes first.
  lemma {:induction false} LessIsFirstDifference(a: Text, b: Text)
    ensures Less(a, b) <==> a < b || exists i: nat :: FirstSmaller(a, b, i)
    decreases |a|
  {
    if a != [] && b != [] && a[0] == b[0] {
      LessIsFirstDifference(a[1..], b[1..]);
      assert a == [a[0]] + a[1..] && b == [b[0]] + b[1..];
      FirstSmallerBehind(a, b, 0);
      if i: nat :| FirstSmaller(a, b, i) {
        FirstSmallerBehind(a, b, i - 1);
        assert FirstSmaller(a[1..], b[1..], i - 1);
      }
      if i: nat :| FirstSmaller(a[1..], b[1..], i) {
        FirstSmallerBehind(a, b, i);
        assert FirstSmaller(a, b, i + 1);
      }
    } else if a != [] && b != [] {
      assert FirstSmaller(a, b, 0) <==> a[0] < b[0];
      if i: nat :| FirstSmaller(a, b, i) { assert i > 0 ==> a[..i][0] == b[..i][0]; }
    }
  }

  predicate HasKey(ps: seq<Pair>, k: Text) {
    exists i :: 0 <= i < |ps| && ps[i].key == k
  }

  predicate DistinctPairKeys(ps: seq<Pair>) {
    forall i, j :: 0 <= i < j < |ps| ==> ps[i].key != ps[j].key
  }

  lemma {:induction false} InsertKeeps(p: Pair, ps: seq<Pair>)
    ensures multiset(Insert(p, ps)) == multiset{p} + multiset(ps)
  {
    if ps != [] {
      assert ps == [ps[0]] + ps[1..];
      if !Less(p.key, ps[0].key) { InsertKeeps(p, ps[1..]); }
    }
  }

  lemma BelowAll(p: Pair, ps: seq<Pair>)
    requires Sorted(ps) && ps != [] && Less(p.key, ps[0].key)
    ensures Sorted([p] + ps)
  {
    forall j | 0 <= j < |ps| ensures Less(p.key, ps[j].key) {
      if j > 0 { LessIsTransitive(p.key, ps[0].key, ps[j].key); }
    }
  }

  lemma {:induction false} InsertSorts(p: Pair, ps: seq<Pair>)
    requires Sorted(ps) && !HasKey(ps, p.key)
    ensures Sorted(Insert(p, ps))
  {
    if ps != [] {
      if Less(p.key, ps[0].key) {
        BelowAll(p, ps);
      } else {
        LessIsTotal(p.key, ps[0].key);
        InsertSorts(p, ps[1..]);
        var rest := Insert(p, ps[1..]);
        forall j | 0 <= j < |rest| ensures Less(ps[0].key, rest[j].key) {
          InsertKeeps(p, ps[1..]);
          assert rest[j] in multiset(rest);
          assert rest[j] == p || rest[j] in ps[1..];
        }
        assert Insert(p, ps) == [ps[0]] + rest;
      }
    }
  }

  lemma KeysStay(a: seq<Pair>, b: seq<Pair>, k: Text)
    requires multiset(a) == multiset(b) && HasKey(a, k)
    ensures HasKey(b, k)
  {
    var i :| 0 <= i < |a| && a[i].key == k;
    assert a[i] in multiset(b);
    assert a[i] in b;
  }

  lemma {:induction false} SortSorts(ps: seq<Pair>)
    requires DistinctPairKeys(ps)
    ensures Sorted(Sort(ps))
    ensures multiset(Sort(ps)) == multiset(ps)
  {
    if ps != [] {
      assert ps == [ps[0]] + ps[1..];
      SortSorts(ps[1..]);
      var rest := Sort(ps[1..]);
      if HasKey(rest, ps[0].key) { KeysStay(rest, ps[1..], ps[0].key); }
      InsertSorts(ps[0], rest);
      InsertKeeps(ps[0], rest);
    }
  }

  // There is one way to put a set of pairs in order, so any sort will do.
  lemma {:induction false} SortedIsUnique(a: seq<Pair>, b: seq<Pair>)
    requires Sorted(a) && Sorted(b)
    requires forall p :: p in a <==> p in b
    ensures a == b
    decreases |a|
  {
    assert b == [] || b[0] in b;
    if a != [] {
      assert a[0] in a && a[0] in b;
      assert b[0] in a;
      SameHead(a, b);
      forall p ensures p in a[1..] <==> p in b[1..] {
        if p in a[1..] { OutsideHead(a, p); assert p in b; }
        if p in b[1..] { OutsideHead(b, p); assert p in a; }
      }
      SortedIsUnique(a[1..], b[1..]);
      assert a == [a[0]] + a[1..] && b == [b[0]] + b[1..];
    }
  }

  lemma SameHead(a: seq<Pair>, b: seq<Pair>)
    requires Sorted(a) && Sorted(b) && a != [] && b != []
    requires a[0] in b && b[0] in a
    ensures a[0] == b[0]
  {
    var i :| 0 <= i < |a| && a[i] == b[0];
    var j :| 0 <= j < |b| && b[j] == a[0];
    if i > 0 && j > 0 {
      assert Less(a[0].key, a[i].key) && Less(b[0].key, b[j].key);
      LessIsTotal(a[0].key, b[0].key);
    }
  }

  lemma OutsideHead(a: seq<Pair>, p: Pair)
    requires Sorted(a) && a != [] && p in a[1..]
    ensures p != a[0] && p in a
  {
    var i :| 0 <= i < |a[1..]| && a[1..][i] == p;
    assert a[i + 1] == p && Less(a[0].key, a[i + 1].key);
    LessIsTotal(p.key, p.key);
  }

  // The members of a printed object are exactly the object's, in key order.
  lemma MembersInOrder(ms: seq<Member>)
    requires DistinctKeys(ms)
    ensures Sorted(Sort(PrintMembers(ms)))
    ensures multiset(Sort(PrintMembers(ms))) == multiset(PrintMembers(ms))
  {
    SortSorts(PrintMembers(ms));
  }

  // ---------- reading a text back ----------

  predicate Ends(rest: Text) {
    rest == [] || !IsNumUnit(rest[0])
  }

  ghost predicate Decodes(t: Text, v: Value) {
    forall rest: Text | Ends(rest) :: ParseValue(t + rest) == Some((v, rest))
  }

  lemma {:induction false} NumPrefixIs(t: Text, rest: Text)
    requires forall u :: u in t ==> IsNumUnit(u)
    requires Ends(rest)
    ensures NumPrefix(t + rest) == |t|
  {
    if t == [] {
      assert t + rest == rest;
    } else {
      assert (t + rest)[1..] == t[1..] + rest;
      NumPrefixIs(t[1..], rest);
    }
  }

  // A printed value never starts like the end of an array.
  lemma FirstUnit(v: Json)
    requires Valid(v)
    ensures Print(v) != [] && Print(v)[0] != ']' as Unit
  {
  }

  // What ParseItems does once it has read an item.
  function AfterItem(v: Value, tail: Text): Parsed<seq<Value>> {
    if tail == [] then None
    else if tail[0] == ']' as Unit then Some(([v], tail[1..]))
    else if tail[0] == ',' as Unit then
      match ParseItems(tail[1..])
      case None => None
      case Some((vs, rest)) => Some(([v] + vs, rest))
    else None
  }

  lemma ItemStep(t: Text, v: Value, tail: Text)
    requires Decodes(t, v) && Ends(tail)
    ensures ParseItems(t + tail) == AfterItem(v, tail)
  {
    assert ParseValue(t + tail) == Some((v, tail));
  }

  // The whole text of an array without its opening bracket.
  lemma {:induction false} ItemsDecode(ts: seq<Text>, vs: seq<Value>, rest: Text)
    requires |ts| == |vs| > 0
    requires forall i :: 0 <= i < |ts| ==> Decodes(ts[i], vs[i])
    ensures ParseItems(JoinItems(ts) + ([']' as Unit] + rest)) == Some((vs, rest))
    decreases |ts|
  {
    var end := [']' as Unit] + rest;
    if |ts| == 1 {
      Behind(']' as Unit, rest);
      ItemStep(ts[0], vs[0], end);
      assert vs == [vs[0]];
    } else {
      var next := JoinItems(ts[1..]) + end;
      calc {
        ParseItems(JoinItems(ts) + end);
      == { Assoc(ts[0] + [',' as Unit], JoinItems(ts[1..]), end); Assoc(ts[0], [',' as Unit], next); }
        ParseItems(ts[0] + ([',' as Unit] + next));
      == { Behind(',' as Unit, next); ItemStep(ts[0], vs[0], [',' as Unit] + next); }
        AfterItem(vs[0], [',' as Unit] + next);
      == { Behind(',' as Unit, next); ItemsDecode(ts[1..], vs[1..], rest); }
        Some(([vs[0]] + vs[1..], rest));
      == { assert [vs[0]] + vs[1..] == vs; }
        Some((vs, rest));
      }
    }
  }

  // The part of m that the pairs name.
  function KeyedBy(ps: seq<Pair>, m: map<Text, Value>): (r: map<Text, Value>)
    requires forall i :: 0 <= i < |ps| ==> ps[i].key in m
    ensures forall k :: k in r <==> HasKey(ps, k)
    ensures forall k :: k in r ==> k in m && r[k] == m[k]
  {
    if ps == [] then map[]
    else
      assert forall i :: 0 <= i < |ps[1..]| ==> ps[1..][i] == ps[i + 1];
      var r := KeyedBy(ps[1..], m)[ps[0].key := m[ps[0].key]];
      assert forall k :: HasKey(ps, k) ==> k == ps[0].key || HasKey(ps[1..], k) by {
        forall k | HasKey(ps, k) && k != ps[0].key ensures HasKey(ps[1..], k) {
          var i :| 0 <= i < |ps| && ps[i].key == k;
          assert ps[1..][i - 1].key == k;
        }
      }
      r
  }

  // What ParseMembers does once it has read a key and its value.
  function AfterMember(k: Text, v: Value, tail: Text): Parsed<map<Text, Value>> {
    if tail == [] then None
    else if tail[0] == '}' as Unit then Some((map[k := v], tail[1..]))
    else if tail[0] == ',' as Unit then
      match ParseMembers(tail[1..])
      case None => None
      case Some((m, rest)) => Some((m[k := v], rest))
    else None
  }

  lemma PairText(p: Pair, tail: Text)
    ensures PrintPair(p) + tail
         == ['"' as Unit] + (Escape(p.key) + (['"' as Unit] + ([':' as Unit] + (p.text + tail))))
  {
    var q, c := ['"' as Unit], [':' as Unit];
    Assoc(Quote(p.key) + c, p.text, tail);
    Assoc(Quote(p.key), c, p.text + tail);
    Assoc(q + Escape(p.key), q, c + (p.text + tail));
    Assoc(q, Escape(p.key), q + (c + (p.text + tail)));
  }

  lemma MemberStep(p: Pair, v: Value, tail: Text)
    requires Decodes(p.text, v) && Ends(tail)
    ensures ParseMembers(PrintPair(p) + tail) == AfterMember(p.key, v, tail)
  {
    var after := [':' as Unit] + (p.text + tail);
    PairText(p, tail);
    Behind('"' as Unit, Escape(p.key) + (['"' as Unit] + after));
    StringRoundTrip(p.key, after);
    Behind(':' as Unit, p.text + tail);
    assert ParseValue(p.text + tail) == Some((v, tail));
  }

  lemma {:induction false} MembersDecode(ps: seq<Pair>, m: map<Text, Value>, rest: Text)
    requires ps != []
    requires forall i :: 0 <= i < |ps| ==> ps[i].key in m && Decodes(ps[i].text, m[ps[i].key])
    ensures ParseMembers(JoinPairs(ps) + (['}' as Unit] + rest)) == Some((KeyedBy(ps, m), rest))
    decreases |ps|
  {
    var end := ['}' as Unit] + rest;
    var k, v := ps[0].key, m[ps[0].key];
    Behind('}' as Unit, rest);
    if |ps| == 1 {
      MemberStep(ps[0], v, end);
      assert KeyedBy(ps, m) == map[k := v];
    } else {
      MembersDecode(ps[1..], m, rest);
      var next := JoinPairs(ps[1..]) + end;
      Behind(',' as Unit, next);
      MemberStep(ps[0], v, [',' as Unit] + next);
      Assoc(PrintPair(ps[0]) + [',' as Unit], JoinPairs(ps[1..]), end);
      Assoc(PrintPair(ps[0]), [',' as Unit], next);
    }
  }

  lemma WordDecodes(v: Json)
    requires v.Null? || v.Bool?
    ensures Decodes(Print(v), ToValue(v))
  {
    forall rest: Text | Ends(rest) ensures ParseValue(Print(v) + rest) == Some((ToValue(v), rest)) {
      var t := Print(v) + rest;
      assert Print(v) <= t && t[|Print(v)|..] == rest;
      assert t[0] == Print(v)[0];
    }
  }

  lemma NumDecodes(n: Text)
    requires IsNumText(n)
    ensures Decodes(n, VNum(n))
  {
    forall rest: Text | Ends(rest) ensures ParseValue(n + rest) == Some((VNum(n), rest)) {
      NumPrefixIs(n, rest);
      var t := n + rest;
      assert t[0] == n[0] && t[..|n|] == n && t[|n|..] == rest;
    }
  }

  lemma StrDecodes(s: Text)
    ensures Decodes(Quote(s), VStr(s))
  {
    forall rest: Text | Ends(rest) ensures ParseValue(Quote(s) + rest) == Some((VStr(s), rest)) {
      var after := Escape(s) + (['"' as Unit] + rest);
      Enclosed('"' as Unit, Escape(s), '"' as Unit, rest);
      Behind('"' as Unit, after);
      StringRoundTrip(s, rest);
    }
  }

  lemma ArrayBody(ts: seq<Text>, vs: seq<Value>, rest: Text)
    requires |ts| == |vs|
    requires forall i :: 0 <= i < |ts| ==> Decodes(ts[i], vs[i]) && ts[i] != [] && ts[i][0] != ']' as Unit
    ensures ParseValue(['[' as Unit] + (JoinItems(ts) + ([']' as Unit] + rest))) == Some((VArr(vs), rest))
  {
    var body := JoinItems(ts) + ([']' as Unit] + rest);
    if ts == [] {
      assert body == [']' as Unit] + rest && ([('[' as Unit)] + body)[2..] == rest;
      assert vs == [];
    } else {
      assert body[0] == ts[0][0];
      ItemsDecode(ts, vs, rest);
      OpensArray(body);
    }
  }

  lemma OpensArray(body: Text)
    requires body != [] && body[0] != ']' as Unit && ParseItems(body).Some?
    ensures var (vs, rest) := ParseItems(body).value;
            ParseValue(['[' as Unit] + body) == Some((VArr(vs), rest))
  {
    Behind('[' as Unit, body);
  }

  lemma ArrayDecodes(items: seq<Json>)
    requires forall i :: 0 <= i < |items| ==> Valid(items[i]) && Decodes(Print(items[i]), ToValue(items[i]))
    ensures Decodes(Print(Arr(items)), ToValue(Arr(items)))
  {
    var ts, vs := PrintItems(items), ToValues(items);
    forall i | 0 <= i < |ts| ensures Decodes(ts[i], vs[i]) && ts[i] != [] && ts[i][0] != ']' as Unit {
      FirstUnit(items[i]);
    }
    forall rest: Text | Ends(rest) ensures ParseValue(Print(Arr(items)) + rest) == Some((VArr(vs), rest)) {
      Enclosed('[' as Unit, JoinItems(ts), ']' as Unit, rest);
      ArrayBody(ts, vs, rest);
    }
  }

  // Every printed pair is a member's, and every member is printed.
  lemma SortedPairs(ms: seq<Member>)
    requires DistinctKeys(ms)
    ensures forall p :: p in Sort(PrintMembers(ms)) <==> p in PrintMembers(ms)
    ensures |Sort(PrintMembers(ms))| == |ms|
  {
    var ps := PrintMembers(ms);
    SortSorts(ps);
    assert |multiset(Sort(ps))| == |multiset(ps)|;
    forall p ensures p in Sort(ps) <==> p in ps {
      assert p in Sort(ps) <==> p in multiset(Sort(ps));
      assert p in ps <==> p in multiset(ps);
    }
  }

  lemma SortedPairsDecode(ms: seq<Member>, i: nat)
    requires DistinctKeys(ms) && i < |Sort(PrintMembers(ms))|
    requires forall i :: 0 <= i < |ms| ==> Decodes(Print(ms[i].val), ToValue(ms[i].val))
    ensures var p, m := Sort(PrintMembers(ms))[i], ToMembers(ms); p.key in m && Decodes(p.text, m[p.key])
  {
    var p := Sort(PrintMembers(ms))[i];
    SortedPairs(ms);
    assert p in PrintMembers(ms);
    var j :| 0 <= j < |ms| && PrintMembers(ms)[j] == p;
    MemberAt(ms, j);
  }

  lemma SortedPairsName(ms: seq<Member>, k: Text)
    requires DistinctKeys(ms) && k in ToMembers(ms)
    ensures HasKey(Sort(PrintMembers(ms)), k)
  {
    var i :| 0 <= i < |ms| && ms[i].key == k;
    var p := PrintMembers(ms)[i];
    SortedPairs(ms);
    assert p in PrintMembers(ms);
    var j :| 0 <= j < |Sort(PrintMembers(ms))| && Sort(PrintMembers(ms))[j] == p;
  }

  lemma ObjectBody(ps: seq<Pair>, m: map<Text, Value>, rest: Text)
    requires forall i :: 0 <= i < |ps| ==> ps[i].key in m && Decodes(ps[i].text, m[ps[i].key])
    requires KeyedBy(ps, m) == m
    ensures ParseValue(['{' as Unit] + (JoinPairs(ps) + (['}' as Unit] + rest))) == Some((VObj(m), rest))
  {
    if ps == [] {
      EmptyObject(rest);
      assert JoinPairs(ps) + (['}' as Unit] + rest) == ['}' as Unit] + rest && m == map[];
    } else {
      var body := JoinPairs(ps) + (['}' as Unit] + rest);
      assert body[0] == '"' as Unit;
      MembersDecode(ps, m, rest);
      OpensObject(body);
    }
  }

  lemma OpensObject(body: Text)
    requires body != [] && body[0] != '}' as Unit && ParseMembers(body).Some?
    ensures var (m, rest) := ParseMembers(body).value;
            ParseValue(['{' as Unit] + body) == Some((VObj(m), rest))
  {
    Behind('{' as Unit, body);
  }

  lemma EmptyObject(rest: Text)
    ensures ParseValue(['{' as Unit] + (['}' as Unit] + rest)) == Some((VObj(map[]), rest))
  {
    assert (['{' as Unit] + (['}' as Unit] + rest))[2..] == rest;
  }

  lemma KeyedByAll(ms: seq<Member>)
    requires DistinctKeys(ms)
    requires forall i :: 0 <= i < |Sort(PrintMembers(ms))| ==> Sort(PrintMembers(ms))[i].key in ToMembers(ms)
    ensures KeyedBy(Sort(PrintMembers(ms)), ToMembers(ms)) == ToMembers(ms)
  {
    forall k | k in ToMembers(ms) ensures HasKey(Sort(PrintMembers(ms)), k) { SortedPairsName(ms, k); }
    KeyedByEach(Sort(PrintMembers(ms)), ToMembers(ms));
  }

  lemma KeyedByEach(ps: seq<Pair>, m: map<Text, Value>)
    requires forall i :: 0 <= i < |ps| ==> ps[i].key in m
    requires forall k :: k in m ==> HasKey(ps, k)
    ensures KeyedBy(ps, m) == m
  {
    var r := KeyedBy(ps, m);
    assert forall k :: k in r <==> k in m;
    SameMap(r, m);
  }

  lemma SortedPairsCover(ms: seq<Member>)
    requires DistinctKeys(ms)
    requires forall i :: 0 <= i < |ms| ==> Decodes(Print(ms[i].val), ToValue(ms[i].val))
    ensures var ps, m := Sort(PrintMembers(ms)), ToMembers(ms);
            && (forall i :: 0 <= i < |ps| ==> ps[i].key in m && Decodes(ps[i].text, m[ps[i].key]))
            && KeyedBy(ps, m) == m
  {
    var ps, m := Sort(PrintMembers(ms)), ToMembers(ms);
    forall i | 0 <= i < |ps| ensures ps[i].key in m && Decodes(ps[i].text, m[ps[i].key]) {
      SortedPairsDecode(ms, i);
    }
    KeyedByAll(ms);
  }

  lemma ObjectDecodes(ms: seq<Member>)
    requires DistinctKeys(ms)
    requires forall i :: 0 <= i < |ms| ==> Decodes(Print(ms[i].val), ToValue(ms[i].val))
    ensures Decodes(Print(Obj(ms)), ToValue(Obj(ms)))
  {
    SortedPairsCover(ms);
    var ps, m := Sort(PrintMembers(ms)), ToMembers(ms);
    forall rest: Text | Ends(rest) ensures ParseValue(Print(Obj(ms)) + rest) == Some((VObj(m), rest)) {
      Enclosed('{' as Unit, JoinPairs(ps), '}' as Unit, rest);
      ObjectBody(ps, m, rest);
    }
  }

  // Reading back what was printed gives the value, whatever follows it.
  lemma {:induction false} PrintDecodes(v: Json)
    requires Valid(v)
    ensures Decodes(Print(v), ToValue(v))
    decreases v
  {
    match v
    case Arr(items) =>
      forall i | 0 <= i < |items| ensures Valid(items[i]) && Decodes(Print(items[i]), ToValue(items[i])) {
        PrintDecodes(items[i]);
      }
      ArrayDecodes(items);
    case Obj(ms) =>
      forall i | 0 <= i < |ms| ensures Decodes(Print(ms[i].val), ToValue(ms[i].val)) {
        PrintDecodes(ms[i].val);
      }
      ObjectDecodes(ms);
    case Num(n) => NumDecodes(n);
    case Str(s) => StrDecodes(s);
    case _ => WordDecodes(v);
  }

  lemma RoundTrip(v: Json)
    requires Valid(v)
    ensures ParseValue(Print(v)) == Some((ToValue(v), []))
  {
    PrintDecodes(v);
    var none: Text := [];
    assert Ends(none) && Print(v) + none == Print(v);
  }

  // ---------- one text per value ----------

  // Objects with the same members, printed alike, give the same pairs.
  lemma PairPrintedToo(ms: seq<Member>, ns: seq<Member>, p: Pair)
    requires DistinctKeys(ms) && DistinctKeys(ns) && ToMembers(ms) == ToMembers(ns)
    requires forall i, j :: 0 <= i < |ms| && 0 <= j < |ns| && ToValue(ms[i].val) == ToValue(ns[j].val)
                       ==> Print(ms[i].val) == Print(ns[j].val)
    requires p in PrintMembers(ms)
    ensures p in PrintMembers(ns)
  {
    var i :| 0 <= i < |ms| && PrintMembers(ms)[i] == p;
    MemberAt(ms, i);
    var j :| 0 <= j < |ns| && ns[j].key == ms[i].key;
    MemberAt(ns, j);
    assert PrintMembers(ns)[j] == p;
  }

  lemma SortAgrees(ps: seq<Pair>, qs: seq<Pair>)
    requires DistinctPairKeys(ps) && DistinctPairKeys(qs)
    requires forall p :: p in ps <==> p in qs
    ensures Sort(ps) == Sort(qs)
  {
    SortSorts(ps);
    SortSorts(qs);
    forall p ensures p in Sort(ps) <==> p in Sort(qs) {
      assert p in Sort(ps) <==> p in multiset(Sort(ps));
      assert p in multiset(ps) <==> p in ps;
      assert p in Sort(qs) <==> p in multiset(Sort(qs));
      assert p in multiset(qs) <==> p in qs;
    }
    SortedIsUnique(Sort(ps), Sort(qs));
  }

  lemma SameMembersSameText(ms: seq<Member>, ns: seq<Member>)
    requires DistinctKeys(ms) && DistinctKeys(ns) && ToMembers(ms) == ToMembers(ns)
    requires forall i, j :: 0 <= i < |ms| && 0 <= j < |ns| && ToValue(ms[i].val) == ToValue(ns[j].val)
                       ==> Print(ms[i].val) == Print(ns[j].val)
    ensures Print(Obj(ms)) == Print(Obj(ns))
  {
    forall p ensures p in PrintMembers(ms) <==> p in PrintMembers(ns) {
      if p in PrintMembers(ms) { PairPrintedToo(ms, ns, p); }
      if p in PrintMembers(ns) { PairPrintedToo(ns, ms, p); }
    }
    SortAgrees(PrintMembers(ms), PrintMembers(ns));
  }

  lemma {:induction false} SameValueSameText(v: Json, w: Json)
    requires Valid(v) && Valid(w) && ToValue(v) == ToValue(w)
    ensures Print(v) == Print(w)
    decreases v
  {
    match v
    case Arr(items) =>
      var others := w.items;
      forall i | 0 <= i < |items| ensures Print(items[i]) == Print(others[i]) {
        assert ToValues(items)[i] == ToValues(others)[i];
        SameValueSameText(items[i], others[i]);
      }
      assert PrintItems(items) == PrintItems(others);
    case Obj(ms) =>
      var ns := w.members;
      forall i, j | 0 <= i < |ms| && 0 <= j < |ns| && ToValue(ms[i].val) == ToValue(ns[j].val)
        ensures Print(ms[i].val) == Print(ns[j].val)
      {
        SameValueSameText(ms[i].val, ns[j].val);
      }
      SameMembersSameText(ms, ns);
    case _ =>
  }

  // Two values print the same exactly when they are equal up to key order.
  lemma Canonical(v: Json, w: Json)
    requires Valid(v) && Valid(w)
    ensures Print(v) == Print(w) <==> ToValue(v) == ToValue(w)
  {
    RoundTrip(v);
    RoundTrip(w);
    if ToValue(v) == ToValue(w) {
      SameValueSameText(v, w);
    }
  }

  // ---------- workstreamIdempotencyKey ----------

  function AsciiUnits(s: string): (t: Text)
    requires forall i :: 0 <= i < |s| ==> s[i] < 128 as char
    ensures |t| == |s| && forall i :: 0 <= i < |s| ==> t[i] == s[i] as Unit
  {
    if s == "" then [] else [s[0] as Unit] + AsciiUnits(s[1..])
  }

  function NatText(n: nat): (t: Text)
    ensures IsNumText(t)
  {
    AsciiUnits(JsText.Decimal(n))
  }

  lemma NatTextInjective(a: nat, b: nat)
    requires NatText(a) == NatText(b)
    ensures a == b
  {
    var x, y := JsText.Decimal(a), JsText.Decimal(b);
    forall i | 0 <= i < |x| ensures x[i] == y[i] {
      assert NatText(a)[i] == NatText(b)[i];
    }
    assert x == y;
    JsText.DecimalValue(a);
    JsText.DecimalValue(b);
  }

  const TASK_ID: Text := ['t' as Unit, 'a' as Unit, 's' as Unit, 'k' as Unit, '_' as Unit, 'i' as Unit, 'd' as Unit]
  const GENERATION: Text := ['g' as Unit, 'e' as Unit, 'n' as Unit, 'e' as Unit, 'r' as Unit, 'a' as Unit,
    't' as Unit, 'i' as Unit, 'o' as Unit, 'n' as Unit]
  const EVENT_TYPE: Text := ['e' as Unit, 'v' as Unit, 'e' as Unit, 'n' as Unit, 't' as Unit, '_' as Unit,
    't' as Unit, 'y' as Unit, 'p' as Unit, 'e' as Unit]
  const PAYLOAD: Text := ['p' as Unit, 'a' as Unit, 'y' as Unit, 'l' as Unit, 'o' as Unit, 'a' as Unit, 'd' as Unit]

  lemma FourKeys()
    ensures TASK_ID != GENERATION && TASK_ID != EVENT_TYPE && TASK_ID != PAYLOAD
    ensures GENERATION != EVENT_TYPE && GENERATION != PAYLOAD && EVENT_TYPE != PAYLOAD
  {
    assert TASK_ID[0] == 't' as Unit && GENERATION[0] == 'g' as Unit;
    assert EVENT_TYPE[0] == 'e' as Unit && PAYLOAD[0] == 'p' as Unit;
  }

  function FourMembers(a: Json, b: Json, c: Json, d: Json): seq<Member> {
    [Member(TASK_ID, a), Member(GENERATION, b), Member(EVENT_TYPE, c), Member(PAYLOAD, d)]
  }

  // The value whose canonical text is hashed into the key.
  function KeyRecord(taskId: Text, generation: nat, eventType: Text, payload: Json): Json {
    Obj(FourMembers(Str(taskId), Num(NatText(generation)), Str(eventType), payload))
  }

  lemma FourValues(a: Json, b: Json, c: Json, d: Json)
    ensures DistinctKeys(FourMembers(a, b, c, d))
    ensures ToMembers(FourMembers(a, b, c, d))
         == map[TASK_ID := ToValue(a), GENERATION := ToValue(b), EVENT_TYPE := ToValue(c), PAYLOAD := ToValue(d)]
  {
    FourKeys();
    var ms := FourMembers(a, b, c, d);
    var m := map[TASK_ID := ToValue(a), GENERATION := ToValue(b), EVENT_TYPE := ToValue(c), PAYLOAD := ToValue(d)];
    forall i | 0 <= i < 4 ensures ms[i].key in m && m[ms[i].key] == ToValue(ms[i].val) {
      assert i == 0 || i == 1 || i == 2 || i == 3;
    }
    forall k | k in m ensures HasMember(ms, k) {
      assert k == ms[0].key || k == ms[1].key || k == ms[2].key || k == ms[3].key;
    }
    MembersAre(ms, m);
  }

  lemma MembersAre(ms: seq<Member>, m: map<Text, Value>)
    requires DistinctKeys(ms)
    requires forall i :: 0 <= i < |ms| ==> ms[i].key in m && m[ms[i].key] == ToValue(ms[i].val)
    requires forall k :: k in m ==> HasMember(ms, k)
    ensures ToMembers(ms) == m
  {
    SameKeys(ms, m);
    forall k | k in m ensures k in ToMembers(ms) && ToMembers(ms)[k] == m[k] {
      var i :| 0 <= i < |ms| && ms[i].key == k;
      MemberAt(ms, i);
    }
    SameMap(ToMembers(ms), m);
  }

  lemma SameMap(a: map<Text, Value>, b: map<Text, Value>)
    requires a.Keys == b.Keys && forall k :: k in b ==> a[k] == b[k]
    ensures a == b
  {
  }

  lemma SameKeys(ms: seq<Member>, m: map<Text, Value>)
    requires forall i :: 0 <= i < |ms| ==> ms[i].key in m
    requires forall k :: k in m ==> HasMember(ms, k)
    ensures ToMembers(ms).Keys == m.Keys
  {
    forall k ensures k in ToMembers(ms) <==> k in m {
    }
  }

  lemma FourValuesDiffer(a: Value, b: Value, c: Value, d: Value, a': Value, b': Value, c': Value, d': Value)
    ensures map[TASK_ID := a, GENERATION := b, EVENT_TYPE := c, PAYLOAD := d]
         == map[TASK_ID := a', GENERATION := b', EVENT_TYPE := c', PAYLOAD := d']
       <==> a == a' && b == b' && c == c' && d == d'
  {
    FourKeys();
    var m := map[TASK_ID := a, GENERATION := b, EVENT_TYPE := c, PAYLOAD := d];
    var m' := map[TASK_ID := a', GENERATION := b', EVENT_TYPE := c', PAYLOAD := d'];
    if m == m' {
      assert m[TASK_ID] == m'[TASK_ID] && m[GENERATION] == m'[GENERATION];
      assert m[EVENT_TYPE] == m'[EVENT_TYPE] && m[PAYLOAD] == m'[PAYLOAD];
    }
  }

  lemma KeyRecordValue(task: Text, gen: nat, event: Text, payload: Json)
    requires Valid(payload)
    ensures Valid(KeyRecord(task, gen, event, payload))
    ensures ToValue(KeyRecord(task, gen, event, payload)) == VObj(map[
              TASK_ID := VStr(task), GENERATION := VNum(NatText(gen)), EVENT_TYPE := VStr(event),
              PAYLOAD := ToValue(payload)])
  {
    FourValues(Str(task), Num(NatText(gen)), Str(event), payload);
  }

  // Two events have the same pre-image exactly when task, generation, type and
  // payload all agree, payloads compared up to key order.
  lemma PreimageInjective(
    task: Text, gen: nat, event: Text, payload: Json,
    task': Text, gen': nat, event': Text, payload': Json)
    requires Valid(payload) && Valid(payload')
    ensures Print(KeyRecord(task, gen, event, payload)) == Print(KeyRecord(task', gen', event', payload'))
       <==> task == task' && gen == gen' && event == event' && ToValue(payload) == ToValue(payload')
  {
    KeyRecordValue(task, gen, event, payload);
    KeyRecordValue(task', gen', event', payload');
    Canonical(KeyRecord(task, gen, event, payload), KeyRecord(task', gen', event', payload'));
    FourValuesDiffer(
      VStr(task), VNum(NatText(gen)), VStr(event), ToValue(payload),
      VStr(task'), VNum(NatText(gen')), VStr(event'), ToValue(payload'));
    if NatText(gen) == NatText(gen') { NatTextInjective(gen, gen'); }
  }
}
