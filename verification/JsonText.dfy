/** The canonical JSON text encoding/json writes for a decoded value: no whitespace, keys sorted,
    number literals as they came. No two values share a text. Characters are code points. */
module JsonText {
  import opened Common

  /** A decoded value; an object is a map, so its members have no order. */
  datatype Value =
    | Null
    | Bool(b: bool)
    | Num(literal: string)
    | Str(s: string)
    | Arr(items: seq<Value>)
    | Obj(fields: map<string, Value>)

  predicate NumberChar(c: char) {
    '0' <= c <= '9' || c == '-' || c == '+' || c == '.' || c == 'e' || c == 'E'
  }

  /** A non-empty run of number characters that starts like a number: all it takes to tell texts
      apart. */
  predicate NumberLiteral(s: string) {
    s != "" && (s[0] == '-' || '0' <= s[0] <= '9') && forall i :: 0 <= i < |s| ==> NumberChar(s[i])
  }

  predicate WellFormed(v: Value) {
    match v
    case Num(literal) => NumberLiteral(literal)
    case Arr(items) => forall i :: 0 <= i < |items| ==> WellFormed(items[i])
    case Obj(fields) => forall k :: k in fields ==> WellFormed(fields[k])
    case _ => true
  }

  // ----- what a decoder returns

  /** A run of digits, at least one. */
  predicate DigitRun(s: string) { s != "" && forall i :: 0 <= i < |s| ==> '0' <= s[i] <= '9' }

  /** Section 6 of RFC 8259: zero, or digits that do not start with one. */
  predicate IntPart(s: string) { DigitRun(s) && (s[0] == '0' ==> |s| == 1) }

  predicate FracPart(s: string) { s == "" || (s[0] == '.' && DigitRun(s[1..])) }

  predicate ExpPart(s: string) {
    s == "" || ((s[0] == 'e' || s[0] == 'E') && |s| > 1 && DigitRun(if s[1] == '+' || s[1] == '-' then s[2..] else s[1..]))
  }

  predicate Unsigned(s: string) {
    exists i, j | 0 <= i <= j <= |s| :: IntPart(s[..i]) && FracPart(s[i..j]) && ExpPart(s[j..])
  }

  /** The JSON number grammar: a sign or none, an integer, a fraction, an exponent. */
  predicate JsonNumber(s: string) { s != "" && Unsigned(if s[0] == '-' then s[1..] else s) }

  const MAX_NESTING: nat := 10_000

  /** A value encoding/json can hand back: its numbers are JSON numbers and its arrays and objects
      nest no deeper than depth. */
  predicate Decodable(v: Value, depth: nat)
    decreases v
  {
    match v
    case Num(literal) => JsonNumber(literal)
    case Arr(items) => depth > 0 && forall i :: 0 <= i < |items| ==> Decodable(items[i], depth - 1)
    case Obj(fields) => depth > 0 && forall k :: k in fields ==> Decodable(fields[k], depth - 1)
    case _ => true
  }

  lemma NumbersAreLiterals(s: string)
    requires JsonNumber(s)
    ensures NumberLiteral(s)
  {
    var u := if s[0] == '-' then s[1..] else s;
    var i, j :| 0 <= i <= j <= |u| && IntPart(u[..i]) && FracPart(u[i..j]) && ExpPart(u[j..]);
    assert u[0] == u[..i][0];
    forall k | 0 <= k < |u| ensures NumberChar(u[k]) { UnsignedChars(u, i, j, k); }
    assert forall k :: 0 <= k < |s| ==> s[k] == if s[0] != '-' then u[k] else if k == 0 then '-' else u[k - 1];
  }

  lemma UnsignedChars(u: string, i: nat, j: nat, k: nat)
    requires i <= j <= |u| && IntPart(u[..i]) && FracPart(u[i..j]) && ExpPart(u[j..]) && k < |u|
    ensures NumberChar(u[k])
  {
    if k < i {
      assert u[k] == u[..i][k];
    } else if k < j {
      var f := u[i..j];
      assert u[k] == f[k - i] && (k > i ==> f[k - i] == f[1..][k - i - 1]);
    } else {
      ExpChars(u[j..], k - j);
      assert u[k] == u[j..][k - j];
    }
  }

  lemma ExpChars(e: string, k: nat)
    requires ExpPart(e) && k < |e|
    ensures NumberChar(e[k])
  {
    if k > 0 && (e[1] == '+' || e[1] == '-') {
      if k > 1 { assert e[k] == e[2..][k - 2]; }
    } else if k > 0 {
      assert e[k] == e[1..][k - 1];
    }
  }

  lemma {:induction false} DecodableIsWellFormed(v: Value, depth: nat)
    requires Decodable(v, depth)
    ensures WellFormed(v)
    decreases v
  {
    match v
    case Num(literal) => NumbersAreLiterals(literal);
    case Arr(items) =>
      forall i | 0 <= i < |items| ensures WellFormed(items[i]) { DecodableIsWellFormed(items[i], depth - 1); }
    case Obj(fields) =>
      forall k | k in fields ensures WellFormed(fields[k]) { DecodableIsWellFormed(fields[k], depth - 1); }
    case _ =>
  }

  // ----- strings

  function Hex(n: nat): char
    requires n < 16
  {
    "0123456789abcdef"[n]
  }

  /** Characters written as a backslash and one letter. */
  function Short(c: char): Option<char> {
    if c == '"' then Some('"')
    else if c == '\\' then Some('\\')
    else if c as int == 8 then Some('b')
    else if c as int == 12 then Some('f')
    else if c == '\n' then Some('n')
    else if c == '\r' then Some('r')
    else if c == '\t' then Some('t')
    else None
  }

  /** Control characters, those with a meaning in HTML, and the two line separators. */
  predicate Long(c: char) {
    c as int < 0x20 || c == '<' || c == '>' || c == '&' || c as int == 0x2028 || c as int == 0x2029
  }

  function Escape(c: char): string {
    if Short(c).Some? then ['\\', Short(c).value]
    else if Long(c) then
      var n := c as int;
      ['\\', 'u', Hex(n / 16 / 16 / 16 % 16), Hex(n / 16 / 16 % 16), Hex(n / 16 % 16), Hex(n % 16)]
    else [c]
  }

  lemma HexIsInjective(m: nat, n: nat)
    requires m < 16 && n < 16 && Hex(m) == Hex(n)
    ensures m == n
  {
  }

  /** A number is its last digit and the rest. */
  lemma LastDigit(m: nat, n: nat)
    requires m / 16 == n / 16 && m % 16 == n % 16
    ensures m == n
  {
  }

  lemma LongIsInjective(c: char, d: char)
    requires Short(c).None? && Long(c) && Short(d).None? && Long(d) && Escape(c) == Escape(d)
    ensures c == d
  {
    var m, n := c as int, d as int;
    assert Escape(c)[2] == Escape(d)[2] && Escape(c)[3] == Escape(d)[3];
    assert Escape(c)[4] == Escape(d)[4] && Escape(c)[5] == Escape(d)[5];
    HexIsInjective(m / 16 / 16 / 16 % 16, n / 16 / 16 / 16 % 16);
    HexIsInjective(m / 16 / 16 % 16, n / 16 / 16 % 16);
    HexIsInjective(m / 16 % 16, n / 16 % 16);
    HexIsInjective(m % 16, n % 16);
    LastDigit(m / 16 / 16, n / 16 / 16);
    LastDigit(m / 16, n / 16);
    LastDigit(m, n);
  }

  /** One character's text is never the beginning of another's, and never starts like a quote. */
  lemma EscapeIsPrefixFree(c: char, d: char, x: string, y: string)
    requires Escape(c) + x == Escape(d) + y
    ensures c == d && x == y
  {
    var e, f := Escape(c), Escape(d);
    assert e[0] == (e + x)[0] == (f + y)[0] == f[0];
    if |e| == 1 || |f| == 1 {
      assert |e| == |f|;
    } else {
      assert e[1] == (e + x)[1] == (f + y)[1] == f[1];
      assert |e| == |f|;
    }
    assert e == (e + x)[..|e|] == (f + y)[..|f|] == f;
    assert x == (e + x)[|e|..] == (f + y)[|f|..] == y;
    if |e| == 6 { LongIsInjective(c, d); }
  }

  /** A string's text after its opening quote. */
  function Body(s: string): string {
    if s == "" then "\"" else Escape(s[0]) + Body(s[1..])
  }

  function Quoted(s: string): string { "\"" + Body(s) }

  /** A body starts with a quote exactly when it ends there. */
  lemma BodyHead(s: string)
    ensures Body(s) != "" && (Body(s)[0] == '"' <==> s == "")
  {
    if s != "" { assert Body(s)[0] == Escape(s[0])[0]; }
  }

  lemma BodyText(s: string, x: string)
    requires s != ""
    ensures Body(s) + x == Escape(s[0]) + (Body(s[1..]) + x)
  {
    Assoc(Escape(s[0]), Body(s[1..]), x);
  }

  lemma HeadsAgree(a: string, x: string, b: string, y: string)
    requires a + x == b + y && a != "" && b != ""
    ensures a[0] == b[0]
  {
    assert a[0] == (a + x)[0] == (b + y)[0] == b[0];
  }

  lemma {:induction false} BodyIsPrefixFree(s: string, t: string, x: string, y: string)
    requires Body(s) + x == Body(t) + y
    ensures s == t && x == y
    decreases |s| + |t|
  {
    BodyHead(s);
    BodyHead(t);
    HeadsAgree(Body(s), x, Body(t), y);
    if s == "" {
      SplitAt(Body(s), x, Body(t), y);
    } else {
      BodyText(s, x);
      BodyText(t, y);
      EscapeIsPrefixFree(s[0], t[0], Body(s[1..]) + x, Body(t[1..]) + y);
      BodyIsPrefixFree(s[1..], t[1..], x, y);
      assert s == [s[0]] + s[1..] && t == [t[0]] + t[1..];
    }
  }

  // ----- key order

  /** a comes before b, or is b. */
  predicate Below(a: string, b: string) {
    a == "" || (b != "" && (a[0] < b[0] || (a[0] == b[0] && Below(a[1..], b[1..]))))
  }

  lemma {:induction false} BelowTotal(a: string, b: string)
    ensures Below(a, b) || Below(b, a)
  {
    if a != "" && b != "" { BelowTotal(a[1..], b[1..]); }
  }

  lemma {:induction false} BelowAntisymmetric(a: string, b: string)
    requires Below(a, b) && Below(b, a)
    ensures a == b
  {
    if a != "" && b != "" {
      BelowAntisymmetric(a[1..], b[1..]);
      assert a == [a[0]] + a[1..] && b == [b[0]] + b[1..];
    }
  }

  lemma {:induction false} BelowTransitive(a: string, b: string, c: string)
    requires Below(a, b) && Below(b, c)
    ensures Below(a, c)
  {
    if a != "" && a[0] == b[0] == c[0] { BelowTransitive(a[1..], b[1..], c[1..]); }
  }

  ghost predicate IsLeast(keys: set<string>, k: string) { k in keys && forall j :: j in keys ==> Below(k, j) }

  lemma {:induction false} LeastExists(keys: set<string>) returns (least: string)
    requires keys != {}
    ensures IsLeast(keys, least)
    decreases keys
  {
    var k :| k in keys;
    BelowTotal(k, k);
    if keys == {k} {
      least := k;
    } else {
      var rest := keys - {k};
      least := LeastExists(rest);
      BelowTotal(k, least);
      if Below(k, least) {
        forall j | j in keys ensures Below(k, j) {
          if j != k { BelowTransitive(k, least, j); }
        }
        least := k;
      }
    }
  }

  ghost function Least(keys: set<string>): (k: string)
    requires keys != {}
    ensures IsLeast(keys, k)
  {
    var _ := LeastIs(keys);
    var k :| IsLeast(keys, k);
    k
  }

  ghost function LeastIs(keys: set<string>): (k: bool)
    requires keys != {}
    ensures exists l :: IsLeast(keys, l)
  {
    SomeLeast(keys);
    true
  }

  lemma SomeLeast(keys: set<string>)
    requires keys != {}
    ensures exists l :: IsLeast(keys, l)
  {
    var _ := LeastExists(keys);
  }

  /** The keys in order, each once. */
  ghost function Sorted(keys: set<string>): (ks: seq<string>)
    ensures forall k :: k in ks <==> k in keys
    decreases keys
  {
    if keys == {} then [] else [Least(keys)] + Sorted(keys - {Least(keys)})
  }

  // ----- texts

  ghost function Marshal(v: Value): string
    decreases v, 1, 0
  {
    match v
    case Null => "null"
    case Bool(b) => if b then "true" else "false"
    case Num(literal) => literal
    case Str(s) => Quoted(s)
    case Arr(items) => "[" + Items(v, 0)
    case Obj(fields) => "{" + Members(v, Sorted(fields.Keys), true)
  }

  /** The items from i on, and the closing bracket. */
  ghost function Items(v: Value, i: nat): string
    requires v.Arr? && i <= |v.items|
    decreases v, 0, |v.items| - i
  {
    if i == |v.items| then "]" else (if i == 0 then "" else ",") + Marshal(v.items[i]) + Items(v, i + 1)
  }

  /** The members under ks, and the closing brace. */
  ghost function Members(v: Value, ks: seq<string>, first: bool): string
    requires v.Obj? && forall k :: k in ks ==> k in v.fields
    decreases v, 0, |ks|
  {
    if ks == [] then "}"
    else (if first then "" else ",") + Quoted(ks[0]) + ":" + Marshal(v.fields[ks[0]]) + Members(v, ks[1..], false)
  }

  // ----- no two values share a text

  /** What can follow a value inside a text, or nothing at all. */
  predicate Stops(x: string) { x == "" || x[0] == ',' || x[0] == ']' || x[0] == '}' }

  predicate Agree(u: Value, x: string, v: Value, y: string) { u == v && x == y }

  lemma SplitAt(a: string, x: string, b: string, y: string)
    requires a + x == b + y && |a| == |b|
    ensures a == b && x == y
  {
    assert a == (a + x)[..|a|] == (b + y)[..|b|] == b;
    assert x == (a + x)[|a|..] == (b + y)[|b|..] == y;
  }

  lemma Assoc(a: string, b: string, c: string)
    ensures (a + b) + c == a + (b + c)
  {
  }

  /** A literal that another runs past is followed by a number character. */
  lemma LongerRunsOn(a: string, b: string, x: string, y: string)
    requires NumberLiteral(b) && a + x == b + y && |a| < |b|
    ensures !Stops(x)
  {
    assert x != "" && x[0] == (a + x)[|a|] == (b + y)[|a|] == b[|a|];
    assert NumberChar(b[|a|]);
  }

  lemma LiteralsPrefixFree(a: string, b: string, x: string, y: string)
    requires NumberLiteral(a) && NumberLiteral(b) && Stops(x) && Stops(y) && a + x == b + y
    ensures a == b && x == y
  {
    if |a| < |b| {
      LongerRunsOn(a, b, x, y);
    } else if |b| < |a| {
      LongerRunsOn(b, a, y, x);
    } else {
      SplitAt(a, x, b, y);
    }
  }

  /** The first character tells the kinds apart. */
  function Kind(c: char): nat {
    if c == 'n' then 0 else if c == 't' then 1 else if c == 'f' then 2 else if c == '-' || '0' <= c <= '9' then 3
    else if c == '"' then 4 else if c == '[' then 5 else 6
  }

  function KindOf(v: Value): nat {
    match v
    case Null => 0
    case Bool(b) => if b then 1 else 2
    case Num(_) => 3
    case Str(_) => 4
    case Arr(_) => 5
    case Obj(_) => 6
  }

  lemma MarshalHead(v: Value, x: string)
    requires WellFormed(v)
    ensures Marshal(v) != "" && Kind((Marshal(v) + x)[0]) == KindOf(v)
  {
    assert (Marshal(v) + x)[0] == Marshal(v)[0];
  }

  lemma OpensWith(head: string, a: string, x: string, b: string, y: string)
    requires (head + a) + x == (head + b) + y
    ensures a + x == b + y
  {
    Assoc(head, a, x);
    Assoc(head, b, y);
    SplitAt(head, a + x, head, b + y);
  }

  /** Read from the same text, two values are one and leave the same rest. */
  lemma {:induction false} MarshalIsPrefixFree(u: Value, v: Value, x: string, y: string)
    requires WellFormed(u) && WellFormed(v) && Stops(x) && Stops(y) && Marshal(u) + x == Marshal(v) + y
    ensures Agree(u, x, v, y)
    decreases u, 1, 0
  {
    MarshalHead(u, x);
    MarshalHead(v, y);
    assert KindOf(u) == KindOf(v);
    match u
    case Num(literal) => LiteralsPrefixFree(literal, v.literal, x, y);
    case Str(s) => StringsPrefixFree(s, v.s, x, y);
    case Arr(_) =>
      OpensWith("[", Items(u, 0), x, Items(v, 0), y);
      ItemsPrefixFree(u, v, 0, x, y);
      WholeItems(u.items, v.items);
    case Obj(_) =>
      var ks, ls := Sorted(u.fields.Keys), Sorted(v.fields.Keys);
      OpensWith("{", Members(u, ks, true), x, Members(v, ls, true), y);
      MembersPrefixFree(u, v, ks, ls, true, x, y);
      SameFields(u, v, ks);
    case _ => WordsPrefixFree(u, v, x, y);
  }

  lemma WordsPrefixFree(u: Value, v: Value, x: string, y: string)
    requires KindOf(u) == KindOf(v) < 3 && Marshal(u) + x == Marshal(v) + y
    ensures Agree(u, x, v, y)
  {
    SplitAt(Marshal(u), x, Marshal(v), y);
  }

  lemma WholeItems(a: seq<Value>, b: seq<Value>)
    requires a[0..] == b[0..]
    ensures a == b
  {
    assert a == a[0..] && b == b[0..];
  }

  lemma SameFields(u: Value, v: Value, ks: seq<string>)
    requires u.Obj? && v.Obj? && (forall k :: k in ks <==> k in u.fields) && (forall k :: k in ks <==> k in v.fields)
    requires forall k :: k in ks ==> u.fields[k] == v.fields[k]
    ensures u == v
  {
    assert u.fields == v.fields;
  }

  lemma StringsPrefixFree(s: string, t: string, x: string, y: string)
    requires Quoted(s) + x == Quoted(t) + y
    ensures s == t && x == y
  {
    OpensWith("\"", Body(s), x, Body(t), y);
    BodyIsPrefixFree(s, t, x, y);
  }

  lemma ItemsHead(v: Value, i: nat, x: string)
    requires WellFormed(v) && v.Arr? && i <= |v.items|
    ensures Items(v, i) != "" && ((Items(v, i) + x)[0] == ']' <==> i == |v.items|)
    ensures i > 0 ==> Stops(Items(v, i) + x)
  {
    if i < |v.items| {
      MarshalHead(v.items[i], "");
      assert Marshal(v.items[i]) + "" == Marshal(v.items[i]);
    }
    assert (Items(v, i) + x)[0] == Items(v, i)[0];
  }

  /** An item's text, taken apart. */
  lemma ItemText(v: Value, i: nat, x: string)
    requires v.Arr? && i < |v.items|
    ensures Items(v, i) + x == (if i == 0 then "" else ",") + (Marshal(v.items[i]) + (Items(v, i + 1) + x))
  {
    var comma, m, rest := if i == 0 then "" else ",", Marshal(v.items[i]), Items(v, i + 1);
    Assoc(comma + m, rest, x);
    Assoc(comma, m, rest + x);
  }

  lemma {:induction false} ItemsPrefixFree(u: Value, v: Value, i: nat, x: string, y: string)
    requires WellFormed(u) && WellFormed(v) && Stops(x) && Stops(y)
    requires u.Arr? && v.Arr? && i <= |u.items| && i <= |v.items| && Items(u, i) + x == Items(v, i) + y
    ensures u.items[i..] == v.items[i..] && x == y
    decreases u, 0, |u.items| - i
  {
    ItemsHead(u, i, x);
    ItemsHead(v, i, y);
    if i == |u.items| {
      SplitAt("]", x, "]", y);
    } else {
      var comma := if i == 0 then "" else ",";
      var a, b := Items(u, i + 1) + x, Items(v, i + 1) + y;
      ItemText(u, i, x);
      ItemText(v, i, y);
      SplitAt(comma, Marshal(u.items[i]) + a, comma, Marshal(v.items[i]) + b);
      ItemsHead(u, i + 1, x);
      ItemsHead(v, i + 1, y);
      MarshalIsPrefixFree(u.items[i], v.items[i], a, b);
      ItemsPrefixFree(u, v, i + 1, x, y);
      OneMoreItem(u.items, v.items, i);
    }
  }

  lemma OneMoreItem(a: seq<Value>, b: seq<Value>, i: nat)
    requires i < |a| && i < |b| && a[i] == b[i] && a[i + 1..] == b[i + 1..]
    ensures a[i..] == b[i..]
  {
    assert a[i..] == [a[i]] + a[i + 1..] && b[i..] == [b[i]] + b[i + 1..];
  }

  lemma MembersHead(v: Value, ks: seq<string>, first: bool, x: string)
    requires v.Obj? && forall k :: k in ks ==> k in v.fields
    ensures Members(v, ks, first) != "" && ((Members(v, ks, first) + x)[0] == '}' <==> ks == [])
    ensures !first ==> Stops(Members(v, ks, first) + x)
  {
    if ks != [] { assert Quoted(ks[0])[0] == '"'; }
    assert (Members(v, ks, first) + x)[0] == Members(v, ks, first)[0];
  }

  lemma {:induction false} MembersPrefixFree(u: Value, v: Value, ks: seq<string>, ls: seq<string>, first: bool, x: string, y: string)
    requires WellFormed(u) && WellFormed(v) && Stops(x) && Stops(y) && u.Obj? && v.Obj?
    requires (forall k :: k in ks ==> k in u.fields) && (forall k :: k in ls ==> k in v.fields)
    requires Members(u, ks, first) + x == Members(v, ls, first) + y
    ensures ks == ls && x == y && forall k :: k in ks ==> u.fields[k] == v.fields[k]
    decreases u, 0, |ks|
  {
    MembersHead(u, ks, first, x);
    MembersHead(v, ls, first, y);
    if ks == [] {
      SplitAt("}", x, "}", y);
    } else {
      var comma := if first then "" else ",";
      var a, b := Members(u, ks[1..], false) + x, Members(v, ls[1..], false) + y;
      var c, d := Marshal(u.fields[ks[0]]) + a, Marshal(v.fields[ls[0]]) + b;
      MemberText(u, ks, first, x, comma, a, c);
      MemberText(v, ls, first, y, comma, b, d);
      SplitAt(comma, Quoted(ks[0]) + (":" + c), comma, Quoted(ls[0]) + (":" + d));
      StringsPrefixFree(ks[0], ls[0], ":" + c, ":" + d);
      SplitAt(":", c, ":", d);
      MembersHead(u, ks[1..], false, x);
      MembersHead(v, ls[1..], false, y);
      MarshalIsPrefixFree(u.fields[ks[0]], v.fields[ls[0]], a, b);
      MembersPrefixFree(u, v, ks[1..], ls[1..], false, x, y);
      assert ks == [ks[0]] + ks[1..] && ls == [ls[0]] + ls[1..];
    }
  }

  /** A member's text, taken apart. */
  lemma MemberText(v: Value, ks: seq<string>, first: bool, x: string, comma: string, a: string, c: string)
    requires v.Obj? && ks != [] && forall k :: k in ks ==> k in v.fields
    requires comma == (if first then "" else ",") && a == Members(v, ks[1..], false) + x && c == Marshal(v.fields[ks[0]]) + a
    ensures Members(v, ks, first) + x == comma + (Quoted(ks[0]) + (":" + c))
  {
    FiveParts(comma, Quoted(ks[0]), Marshal(v.fields[ks[0]]), Members(v, ks[1..], false), x);
  }

  lemma FiveParts(comma: string, q: string, m: string, rest: string, x: string)
    ensures (comma + q + ":" + m + rest) + x == comma + (q + (":" + (m + (rest + x))))
  {
    Assoc(comma + q + ":" + m, rest, x);
    Assoc(comma + q + ":", m, rest + x);
    Assoc(comma + q, ":", m + (rest + x));
    Assoc(comma, q, ":" + (m + (rest + x)));
  }

  /** Values with the same text are the same value. */
  lemma MarshalIsInjective(u: Value, v: Value)
    requires WellFormed(u) && WellFormed(v)
    ensures Marshal(u) == Marshal(v) <==> u == v
  {
    if Marshal(u) == Marshal(v) {
      assert Marshal(u) + "" == Marshal(v) + "";
      MarshalIsPrefixFree(u, v, "", "");
    }
  }
}
