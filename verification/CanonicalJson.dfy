// The canonical JSON text behind idempotency keys (canonicalJson and
// workstreamIdempotencyKey in lib/agentTools.ts).
//
// A JavaScript string is a sequence of UTF-16 code units, and so is a JSON
// text.  A number is represented by the text JSON.stringify gives it, which
// names it uniquely.
module CanonicalJson {
  import opened Wrappers

  newtype Unit = u: int | 0 <= u < 0x10000
  type Text = seq<Unit>

  // A value as the code meets it: object members in insertion order.
  datatype Json =
    | Null
    | Bool(b: bool)
    | Num(text: Text)
    | Str(s: Text)
    | Arr(items: seq<Json>)
    | Obj(members: seq<Member>)

  datatype Member = Member(key: Text, val: Json)

  // The same value with the order of object keys forgotten.
  datatype Value =
    | VNull
    | VBool(b: bool)
    | VNum(text: Text)
    | VStr(s: Text)
    | VArr(items: seq<Value>)
    | VObj(members: map<Text, Value>)

  // ---------- well-formed values ----------

  predicate IsNumUnit(u: Unit) {
    '0' as Unit <= u <= '9' as Unit || u == '-' as Unit || u == '+' as Unit || u == '.' as Unit || u == 'e' as Unit
  }

  // What JSON.stringify makes of a finite number.
  predicate IsNumText(t: Text) {
    t != [] && (t[0] == '-' as Unit || '0' as Unit <= t[0] <= '9' as Unit) && forall u :: u in t ==> IsNumUnit(u)
  }

  predicate DistinctKeys(ms: seq<Member>) {
    forall i, j :: 0 <= i < j < |ms| ==> ms[i].key != ms[j].key
  }

  predicate Valid(v: Json)
    decreases v
  {
    match v
    case Num(t) => IsNumText(t)
    case Arr(items) => forall i :: 0 <= i < |items| ==> Valid(items[i])
    case Obj(ms) => DistinctKeys(ms) && forall i :: 0 <= i < |ms| ==> Valid(ms[i].val)
    case _ => true
  }

  function ToValue(v: Json): Value
    decreases v, 1
  {
    match v
    case Null => VNull
    case Bool(b) => VBool(b)
    case Num(t) => VNum(t)
    case Str(s) => VStr(s)
    case Arr(items) => VArr(ToValues(items))
    case Obj(ms) => VObj(ToMembers(ms))
  }

  function ToValues(items: seq<Json>): (vs: seq<Value>)
    ensures |vs| == |items|
    ensures forall i :: 0 <= i < |items| ==> vs[i] == ToValue(items[i])
    decreases items, 0
  {
    if items == [] then [] else [ToValue(items[0])] + ToValues(items[1..])
  }

  function ToMembers(ms: seq<Member>): (m: map<Text, Value>)
    ensures forall k :: k in m <==> HasMember(ms, k)
    decreases ms, 0
  {
    if ms == [] then map[]
    else
      HasMemberSplit(ms);
      ToMembers(ms[1..])[ms[0].key := ToValue(ms[0].val)]
  }

  predicate HasMember(ms: seq<Member>, k: Text) {
    exists i :: 0 <= i < |ms| && ms[i].key == k
  }

  lemma HasMemberSplit(ms: seq<Member>)
    requires ms != []
    ensures forall k :: HasMember(ms, k) <==> k == ms[0].key || HasMember(ms[1..], k)
  {
    forall k | HasMember(ms, k) && k != ms[0].key ensures HasMember(ms[1..], k) {
      var i :| 0 <= i < |ms| && ms[i].key == k;
      assert ms[1..][i - 1].key == k;
    }
    forall k | HasMember(ms[1..], k) ensures HasMember(ms, k) {
      var i :| 0 <= i < |ms[1..]| && ms[1..][i].key == k;
      assert ms[i + 1].key == k;
    }
  }

  lemma {:induction false} MemberAt(ms: seq<Member>, i: nat)
    requires i < |ms| && DistinctKeys(ms)
    ensures ms[i].key in ToMembers(ms) && ToMembers(ms)[ms[i].key] == ToValue(ms[i].val)
    decreases |ms|
  {
    if i > 0 {
      MemberAt(ms[1..], i - 1);
    }
  }

  // ---------- JSON.stringify of a string ----------

  predicate IsLead(u: Unit) { 0xD800 <= u < 0xDC00 }
  predicate IsTrail(u: Unit) { 0xDC00 <= u < 0xE000 }

  function HexDigit(n: Unit): Unit
    requires n < 16
  {
    if n < 10 then '0' as Unit + n else 'a' as Unit + (n - 10)
  }

  function FromHex(u: Unit): (d: Option<Unit>)
    ensures d.Some? ==> d.value < 16
  {
    if '0' as Unit <= u <= '9' as Unit then Some(u - '0' as Unit)
    else if 'a' as Unit <= u <= 'f' as Unit then Some(u - 'a' as Unit + 10)
    else None
  }

  function HexEscape(u: Unit): Text {
    ['\\' as Unit, 'u' as Unit, HexDigit(u / 4096), HexDigit(u / 256 % 16), HexDigit(u / 16 % 16), HexDigit(u % 16)]
  }

  function EscapeUnit(u: Unit): Text {
    if u == '"' as Unit then ['\\' as Unit, '"' as Unit]
    else if u == '\\' as Unit then ['\\' as Unit, '\\' as Unit]
    else if u == 8 then ['\\' as Unit, 'b' as Unit]
    else if u == 9 then ['\\' as Unit, 't' as Unit]
    else if u == 10 then ['\\' as Unit, 'n' as Unit]
    else if u == 12 then ['\\' as Unit, 'f' as Unit]
    else if u == 13 then ['\\' as Unit, 'r' as Unit]
    else if u < 0x20 || IsLead(u) || IsTrail(u) then HexEscape(u)
    else [u]
  }

  // A surrogate pair is printed as it is, a lone surrogate is escaped.
  function Escape(s: Text): Text
    decreases |s|
  {
    if s == [] then []
    else if |s| > 1 && IsLead(s[0]) && IsTrail(s[1]) then s[..2] + Escape(s[2..])
    else EscapeUnit(s[0]) + Escape(s[1..])
  }

  function Quote(s: Text): Text {
    ['"' as Unit] + Escape(s) + ['"' as Unit]
  }

  // ---------- key order ----------

  // Array.prototype.sort on strings: by code units, which is the order section
  // 3.2.3 of RFC 8785 asks for.
  predicate Less(a: Text, b: Text)
    decreases |a|
  {
    if b == [] then false
    else if a == [] then true
    else a[0] < b[0] || (a[0] == b[0] && Less(a[1..], b[1..]))
  }

  datatype Pair = Pair(key: Text, text: Text)    // a key and the text of its value

  predicate Sorted(ps: seq<Pair>) {
    forall i, j :: 0 <= i < j < |ps| ==> Less(ps[i].key, ps[j].key)
  }

  function Insert(p: Pair, ps: seq<Pair>): seq<Pair> {
    if ps == [] then [p]
    else if Less(p.key, ps[0].key) then [p] + ps
    else [ps[0]] + Insert(p, ps[1..])
  }

  function Sort(ps: seq<Pair>): seq<Pair> {
    if ps == [] then [] else Insert(ps[0], Sort(ps[1..]))
  }

  // ---------- canonicalJson ----------

  const NULL: Text := ['n' as Unit, 'u' as Unit, 'l' as Unit, 'l' as Unit]
  const TRUE: Text := ['t' as Unit, 'r' as Unit, 'u' as Unit, 'e' as Unit]
  const FALSE: Text := ['f' as Unit, 'a' as Unit, 'l' as Unit, 's' as Unit, 'e' as Unit]

  function Print(v: Json): Text
    decreases v, 1
  {
    match v
    case Null => NULL
    case Bool(b) => if b then TRUE else FALSE
    case Num(t) => t
    case Str(s) => Quote(s)
    case Arr(items) => ['[' as Unit] + JoinItems(PrintItems(items)) + [']' as Unit]
    case Obj(ms) => ['{' as Unit] + JoinPairs(Sort(PrintMembers(ms))) + ['}' as Unit]
  }

  function PrintItems(items: seq<Json>): (ts: seq<Text>)
    ensures |ts| == |items|
    ensures forall i :: 0 <= i < |items| ==> ts[i] == Print(items[i])
    decreases items, 0
  {
    if items == [] then [] else [Print(items[0])] + PrintItems(items[1..])
  }

  function PrintMembers(ms: seq<Member>): (ps: seq<Pair>)
    ensures |ps| == |ms|
    ensures forall i :: 0 <= i < |ms| ==> ps[i] == Pair(ms[i].key, Print(ms[i].val))
    decreases ms, 0
  {
    if ms == [] then [] else [Pair(ms[0].key, Print(ms[0].val))] + PrintMembers(ms[1..])
  }

  function JoinItems(ts: seq<Text>): Text {
    if ts == [] then []
    else if |ts| == 1 then ts[0]
    else ts[0] + [',' as Unit] + JoinItems(ts[1..])
  }

  function PrintPair(p: Pair): Text {
    Quote(p.key) + [':' as Unit] + p.text
  }

  function JoinPairs(ps: seq<Pair>): Text {
    if ps == [] then []
    else if |ps| == 1 then PrintPair(ps[0])
    else PrintPair(ps[0]) + [',' as Unit] + JoinPairs(ps[1..])
  }

  // ---------- a decoder ----------

  type Parsed<T> = Option<(T, Text)>    // what was read, and the text behind it

  function ParseEscape(t: Text): Parsed<Unit>
    ensures ParseEscape(t).Some? ==> |ParseEscape(t).value.1| < |t|
  {
    if t == [] then None
    else if t[0] == '"' as Unit then Some(('"' as Unit, t[1..]))
    else if t[0] == '\\' as Unit then Some(('\\' as Unit, t[1..]))
    else if t[0] == 'b' as Unit then Some((8, t[1..]))
    else if t[0] == 't' as Unit then Some((9, t[1..]))
    else if t[0] == 'n' as Unit then Some((10, t[1..]))
    else if t[0] == 'f' as Unit then Some((12, t[1..]))
    else if t[0] == 'r' as Unit then Some((13, t[1..]))
    else if t[0] == 'u' as Unit && |t| >= 5 then
      match (FromHex(t[1]), FromHex(t[2]), FromHex(t[3]), FromHex(t[4]))
      case (Some(a), Some(b), Some(c), Some(d)) => Some((((a * 16 + b) * 16 + c) * 16 + d, t[5..]))
      case _ => None
    else None
  }

  // The text after an opening quote.
  function ParseString(t: Text): Parsed<Text>
    ensures ParseString(t).Some? ==> |ParseString(t).value.1| < |t|
    decreases |t|
  {
    if t == [] then None
    else if t[0] == '"' as Unit then Some(([], t[1..]))
    else if t[0] == '\\' as Unit then
      match ParseEscape(t[1..])
      case None => None
      case Some((u, rest)) =>
        (match ParseString(rest)
         case None => None
         case Some((s, rest')) => Some(([u] + s, rest')))
    else
      match ParseString(t[1..])
      case None => None
      case Some((s, rest)) => Some(([t[0]] + s, rest))
  }

  function NumPrefix(t: Text): (n: nat)
    ensures n <= |t|
    ensures forall i :: 0 <= i < n ==> IsNumUnit(t[i])
    ensures n < |t| ==> !IsNumUnit(t[n])
  {
    if t == [] || !IsNumUnit(t[0]) then 0 else 1 + NumPrefix(t[1..])
  }

  function ParseValue(t: Text): (r: Parsed<Value>)
    ensures r.Some? ==> |r.value.1| < |t|
    decreases |t|, 0
  {
    if t == [] then None
    else if NULL <= t then Some((VNull, t[4..]))
    else if TRUE <= t then Some((VBool(true), t[4..]))
    else if FALSE <= t then Some((VBool(false), t[5..]))
    else if t[0] == '"' as Unit then
      match ParseString(t[1..])
      case None => None
      case Some((s, rest)) => Some((VStr(s), rest))
    else if t[0] == '[' as Unit then
      if |t| > 1 && t[1] == ']' as Unit then Some((VArr([]), t[2..]))
      else
        match ParseItems(t[1..])
        case None => None
        case Some((vs, rest)) => Some((VArr(vs), rest))
    else if t[0] == '{' as Unit then
      if |t| > 1 && t[1] == '}' as Unit then Some((VObj(map[]), t[2..]))
      else
        match ParseMembers(t[1..])
        case None => None
        case Some((m, rest)) => Some((VObj(m), rest))
    else
      var n := NumPrefix(t);
      if n == 0 then None else Some((VNum(t[..n]), t[n..]))
  }

  function ParseItems(t: Text): (r: Parsed<seq<Value>>)
    ensures r.Some? ==> |r.value.1| < |t|
    decreases |t|, 1
  {
    match ParseValue(t)
    case None => None
    case Some((v, rest)) =>
      if rest == [] then None
      else if rest[0] == ']' as Unit then Some(([v], rest[1..]))
      else if rest[0] == ',' as Unit then
        match ParseItems(rest[1..])
        case None => None
        case Some((vs, rest')) => Some(([v] + vs, rest'))
      else None
  }

  function ParseMembers(t: Text): (r: Parsed<map<Text, Value>>)
    ensures r.Some? ==> |r.value.1| < |t|
    decreases |t|, 1
  {
    if t == [] || t[0] != '"' as Unit then None
    else
      match ParseString(t[1..])
      case None => None
      case Some((k, rest)) =>
        if rest == [] || rest[0] != ':' as Unit then None
        else
          match ParseValue(rest[1..])
          case None => None
          case Some((v, rest')) =>
            if rest' == [] then None
            else if rest'[0] == '}' as Unit then Some((map[k := v], rest'[1..]))
            else if rest'[0] == ',' as Unit then
              match ParseMembers(rest'[1..])
              case None => None
              case Some((m, rest'')) => Some((m[k := v], rest''))
            else None
  }
}
