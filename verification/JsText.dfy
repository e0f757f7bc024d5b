// The pieces of JavaScript's string library that the modelled code leans on.
module JsText {
  // s.split(sep) for a one-character separator: always at least one piece.
  function Split(s: string, sep: char): (pieces: seq<string>)
    ensures pieces != []
  {
    if s == [] then [""]
    else if s[0] == sep then [""] + Split(s[1..], sep)
    else
      var rest := Split(s[1..], sep);
      [[s[0]] + rest[0]] + rest[1..]
  }

  lemma {:induction false} SplitWithout(s: string, sep: char)
    requires sep !in s
    ensures Split(s, sep) == [s]
  {
    if s != [] {
      SplitWithout(s[1..], sep);
      assert [s[0]] + s[1..] == s;
    }
  }

  // pieces.join(sep)
  function Join(pieces: seq<string>, sep: string): string {
    if pieces == [] then ""
    else if |pieces| == 1 then pieces[0]
    else pieces[0] + sep + Join(pieces[1..], sep)
  }

  // pieces[k], where reading past the end (undefined in JavaScript) is treated
  // like the empty string: the code only asks whether the piece is falsy.
  function At(pieces: seq<string>, k: nat): string {
    if k < |pieces| then pieces[k] else ""
  }

  function Drop<T>(s: seq<T>, k: nat): seq<T> {
    if k <= |s| then s[k..] else []
  }

  lemma DropDrop<T>(s: seq<T>, i: nat, k: nat)
    ensures Drop(Drop(s, i), k) == Drop(s, i + k)
  {
  }

  lemma AtDrop(s: seq<string>, i: nat, k: nat)
    ensures At(Drop(s, i), k) == At(s, i + k)
  {
  }

  // Each token followed by the separator, as `git -z` writes them.
  function Terminated(tokens: seq<string>, sep: char): string {
    if tokens == [] then "" else tokens[0] + [sep] + Terminated(tokens[1..], sep)
  }

  lemma {:induction false} SplitFirst(a: string, sep: char, rest: string)
    requires sep !in a
    ensures Split(a + [sep] + rest, sep) == [a] + Split(rest, sep)
  {
    if a == [] {
      assert a + [sep] + rest == [sep] + rest;
    } else {
      assert (a + [sep] + rest)[1..] == a[1..] + [sep] + rest;
      SplitFirst(a[1..], sep, rest);
      assert [a[0]] + a[1..] == a;
    }
  }

  lemma {:induction false} SplitTerminated(tokens: seq<string>, sep: char)
    requires forall t :: t in tokens ==> sep !in t
    ensures Split(Terminated(tokens, sep), sep) == tokens + [""]
  {
    if tokens != [] {
      SplitTerminated(tokens[1..], sep);
      SplitFirst(tokens[0], sep, Terminated(tokens[1..], sep));
      assert tokens == [tokens[0]] + tokens[1..];
    }
  }

  lemma {:induction false} SplitHasNoSep(s: string, sep: char)
    ensures forall i :: 0 <= i < |Split(s, sep)| ==> sep !in Split(s, sep)[i]
  {
    if s != [] {
      SplitHasNoSep(s[1..], sep);
    }
  }

  lemma {:induction false} JoinSplit(s: string, sep: char)
    ensures Join(Split(s, sep), [sep]) == s
  {
    if s != [] {
      JoinSplit(s[1..], sep);
      var rest := Split(s[1..], sep);
      if s[0] == sep {
        assert ([""] + rest)[1..] == rest;
      } else {
        assert ([[s[0]] + rest[0]] + rest[1..])[1..] == rest[1..];
        if |rest| > 1 {
          assert [s[0]] + rest[0] + [sep] + Join(rest[1..], [sep])
              == [s[0]] + (rest[0] + [sep] + Join(rest[1..], [sep]));
        }
      }
    }
  }

  // ---------- numbers ----------

  predicate IsDigit(c: char) { '0' <= c <= '9' }

  // White space and line terminators, as String.prototype.trim and parseInt
  // skip them.
  predicate IsSpace(c: char) {
    || '\t' <= c <= '\r' || c == ' ' || c == '\U{00A0}' || c == '\U{1680}'
    || '\U{2000}' <= c <= '\U{200A}' || c == '\U{2028}' || c == '\U{2029}' || c == '\U{202F}'
    || c == '\U{205F}' || c == '\U{3000}' || c == '\U{FEFF}'
  }

  function LeadingDigits(s: string): (ds: string)
    ensures |ds| <= |s| && ds == s[..|ds|]
    ensures forall i :: 0 <= i < |ds| ==> IsDigit(ds[i])
  {
    if s == [] || !IsDigit(s[0]) then [] else [s[0]] + LeadingDigits(s[1..])
  }

  function DigitValue(c: char): nat
    requires IsDigit(c)
  {
    c as int - '0' as int
  }

  function DigitsValue(ds: string): nat
    requires forall i :: 0 <= i < |ds| ==> IsDigit(ds[i])
  {
    if ds == [] then 0 else DigitsValue(ds[..|ds| - 1]) * 10 + DigitValue(ds[|ds| - 1])
  }

  function SkipSpace(s: string): string {
    if s == [] || !IsSpace(s[0]) then s else SkipSpace(s[1..])
  }

  // parseInt(s, 10) || 0
  function ParseInt(s: string): int {
    var t := SkipSpace(s);
    if t != [] && t[0] == '-' then 0 - DigitsValue(LeadingDigits(t[1..]))
    else if t != [] && t[0] == '+' then DigitsValue(LeadingDigits(t[1..]))
    else DigitsValue(LeadingDigits(t))
  }

  function DigitChar(d: nat): (c: char)
    requires d < 10
    ensures IsDigit(c) && c as int == '0' as int + d
  {
    '0' + d as char
  }

  // The decimal text of a number, as git and template literals print it.
  function Decimal(n: nat): (s: string)
    ensures s != ""
    ensures forall i :: 0 <= i < |s| ==> IsDigit(s[i])
  {
    if n < 10 then [DigitChar(n)] else Decimal(n / 10) + [DigitChar(n % 10)]
  }

  lemma {:induction false} DecimalValue(n: nat)
    ensures DigitsValue(Decimal(n)) == n
  {
    if n < 10 {
      assert [DigitChar(n)][..0] == [];
      assert DigitsValue([DigitChar(n)]) == DigitsValue([DigitChar(n)][..0]) * 10 + n;
    } else {
      var s := Decimal(n / 10);
      DecimalValue(n / 10);
      assert (s + [DigitChar(n % 10)])[..|s|] == s;
    }
  }

  lemma {:induction false} AllDigits(s: string, rest: string)
    requires forall i :: 0 <= i < |s| ==> IsDigit(s[i])
    requires rest == [] || !IsDigit(rest[0])
    ensures LeadingDigits(s + rest) == s
  {
    if s == [] {
      assert s + rest == rest;
    } else {
      assert (s + rest)[1..] == s[1..] + rest;
      AllDigits(s[1..], rest);
      assert [s[0]] + s[1..] == s;
    }
  }

  lemma ParseDecimal(n: nat)
    ensures ParseInt(Decimal(n)) == n
  {
    var s := Decimal(n);
    DecimalValue(n);
    AllDigits(s, "");
    assert s + "" == s;
    assert SkipSpace(s) == s;
  }
}
