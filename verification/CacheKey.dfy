/** internal/cache/key.go: the canonical form of a request body and the preimage its key is hashed
    from. The JSON lexer and SHA-256 are parameters. */
module CacheKey {
  import opened Common
  import opened JsonText

  const HASH_SCHEME := "penstock/cache/exact/v1"
  const UNHASHED: set<string> := {"stream", "stream_options", "user", "metadata"}

  datatype KeyError = DecodeFailed | TrailingData | NotJSONObject | ReencodeFailed

  datatype Key = Key(tenant: string, model: string, hash: string)

  /** What a decoder makes of a body: its first value, and whether anything follows it. */
  datatype Decoded = Decoded(v: Value, trailing: bool)

  // ----- bodies as written

  /** A JSON text as a tree: object members in the order written, names possibly repeated. */
  datatype Raw =
    | RNull
    | RBool(b: bool)
    | RNum(literal: string)
    | RStr(s: string)
    | RArr(items: seq<Raw>)
    | RObj(members: seq<Member>)
  datatype Member = Member(name: string, value: Raw)

  /** Members go into a map as they come, so the last of a name wins. */
  function Decode(r: Raw): Value
    decreases r, 1, 0
  {
    match r
    case RNull => Null
    case RBool(b) => Bool(b)
    case RNum(literal) => Num(literal)
    case RStr(s) => Str(s)
    case RArr(items) => Arr(seq(|items|, i requires 0 <= i < |items| => Decode(items[i])))
    case RObj(_) => Obj(DecodeMembers(r, |r.members|))
  }

  /** The map after the first n members. */
  function DecodeMembers(r: Raw, n: nat): map<string, Value>
    requires r.RObj? && n <= |r.members|
    decreases r, 0, n
  {
    if n == 0 then map[] else DecodeMembers(r, n - 1)[r.members[n - 1].name := Decode(r.members[n - 1].value)]
  }

  /** The last of the first n members with this name, -1 if there is none. */
  function LastNamed(members: seq<Member>, name: string, n: nat): (i: int)
    requires n <= |members|
    ensures -1 <= i < n && (i >= 0 ==> members[i].name == name)
    ensures forall j :: i < j < n ==> members[j].name != name
  {
    if n == 0 then -1 else if members[n - 1].name == name then n - 1 else LastNamed(members, name, n - 1)
  }

  lemma {:induction false} DecodedMember(r: Raw, n: nat, name: string)
    requires r.RObj? && n <= |r.members|
    ensures var i := LastNamed(r.members, name, n);
            && (name in DecodeMembers(r, n) <==> i >= 0)
            && (i >= 0 ==> DecodeMembers(r, n)[name] == Decode(r.members[i].value))
  {
    if n > 0 { DecodedMember(r, n - 1, name); }
  }

  // ----- meaning

  /** The same request body, said without a decoder: literals as they are, arrays in order, and
      objects by name, whatever order their members come in and however often a name is repeated. */
  ghost predicate SameMeaning(a: Raw, b: Raw)
    decreases a
  {
    match a
    case RArr(items) =>
      b.RArr? && |items| == |b.items| && forall i :: 0 <= i < |items| ==> SameMeaning(items[i], b.items[i])
    case RObj(members) => b.RObj? && forall name :: SameUnder(a, b, name)
    case _ => a == b
  }

  /** Both have a member of this name and the last of each mean the same, or neither has one. */
  ghost predicate SameUnder(a: Raw, b: Raw, name: string)
    requires a.RObj? && b.RObj?
    decreases a, 0
  {
    var i, j := LastNamed(a.members, name, |a.members|), LastNamed(b.members, name, |b.members|);
    if i < 0 || j < 0 then i < 0 && j < 0 else SameMeaning(a.members[i].value, b.members[j].value)
  }

  predicate Literals(r: Raw)
    decreases r
  {
    match r
    case RNum(literal) => NumberLiteral(literal)
    case RArr(items) => forall i :: 0 <= i < |items| ==> Literals(items[i])
    case RObj(members) => forall i :: 0 <= i < |members| ==> Literals(members[i].value)
    case _ => true
  }

  lemma {:induction false} DecodeIsWellFormed(r: Raw)
    requires Literals(r)
    ensures WellFormed(Decode(r))
    decreases r
  {
    if r.RArr? {
      forall i | 0 <= i < |r.items| ensures WellFormed(Decode(r).items[i]) { DecodeIsWellFormed(r.items[i]); }
    } else if r.RObj? {
      forall k | k in Decode(r).fields ensures WellFormed(Decode(r).fields[k]) {
        DecodedMember(r, |r.members|, k);
        DecodeIsWellFormed(r.members[LastNamed(r.members, k, |r.members|)].value);
      }
    }
  }

  /** Two bodies decode to the same value exactly when they mean the same. */
  lemma {:induction false} DecodeIsMeaning(a: Raw, b: Raw)
    ensures Decode(a) == Decode(b) <==> SameMeaning(a, b)
    decreases a, 1
  {
    if a.RArr? && b.RArr? {
      DecodeItems(a, b);
    } else if a.RObj? && b.RObj? {
      forall name ensures SameUnder(a, b, name) <==> SameEntry(Decode(a).fields, Decode(b).fields, name) {
        DecodeUnder(a, b, name);
      }
      SameMaps(Decode(a).fields, Decode(b).fields);
    }
  }

  predicate SameEntry(m: map<string, Value>, n: map<string, Value>, name: string) {
    if name in m && name in n then m[name] == n[name] else name !in m && name !in n
  }

  lemma SameMaps(m: map<string, Value>, n: map<string, Value>)
    ensures m == n <==> forall name :: SameEntry(m, n, name)
  {
    if forall name :: SameEntry(m, n, name) {
      forall k ensures (k in m <==> k in n) && (k in m ==> m[k] == n[k]) { assert SameEntry(m, n, k); }
    }
  }

  lemma {:induction false} DecodeItems(a: Raw, b: Raw)
    requires a.RArr? && b.RArr?
    ensures Decode(a) == Decode(b) <==> SameMeaning(a, b)
    decreases a, 0
  {
    if |a.items| == |b.items| {
      forall i | 0 <= i < |a.items| ensures Decode(a).items[i] == Decode(b).items[i] <==> SameMeaning(a.items[i], b.items[i]) {
        DecodeIsMeaning(a.items[i], b.items[i]);
      }
      var x, y := Decode(a).items, Decode(b).items;
      assert x == y <==> forall i :: 0 <= i < |a.items| ==> x[i] == y[i];
    } else {
      assert |Decode(a).items| != |Decode(b).items|;
    }
  }

  lemma {:induction false} DecodeUnder(a: Raw, b: Raw, name: string)
    requires a.RObj? && b.RObj?
    ensures SameUnder(a, b, name) <==> SameEntry(Decode(a).fields, Decode(b).fields, name)
    decreases a, 0
  {
    DecodedMember(a, |a.members|, name);
    DecodedMember(b, |b.members|, name);
    var i, j := LastNamed(a.members, name, |a.members|), LastNamed(b.members, name, |b.members|);
    if i >= 0 && j >= 0 { DecodeIsMeaning(a.members[i].value, b.members[j].value); }
  }

  // ----- canonical form and preimage

  function Prune(fields: map<string, Value>): map<string, Value> { fields - UNHASHED }

  ghost function Canonical(fields: map<string, Value>): string { Marshal(Obj(Prune(fields))) }

  /** Bytes of a character in UTF-8. */
  function Width(c: char): nat {
    var n := c as int;
    if n < 0x80 then 1 else if n < 0x800 then 2 else if n < 0x1_0000 then 3 else 4
  }

  function ByteLen(s: string): nat { if s == "" then 0 else Width(s[0]) + ByteLen(s[1..]) }

  function Digit(n: nat): char
    requires n < 10
  {
    "0123456789"[n]
  }

  /** The decimal spelling of n. */
  function Itoa(n: nat): string { if n < 10 then [Digit(n)] else Itoa(n / 10) + [Digit(n % 10)] }

  const NUL: char := 0 as char

  function Preimage(model: string, canonical: string): string {
    HASH_SCHEME + Itoa(ByteLen(model)) + [NUL] + model + canonical
  }

  lemma DigitIsInjective(m: nat, n: nat)
    requires m < 10 && n < 10 && Digit(m) == Digit(n)
    ensures m == n
  {
  }

  lemma {:induction false} ItoaIsInjective(m: nat, n: nat)
    requires Itoa(m) == Itoa(n)
    ensures m == n
    decreases m
  {
    assert Itoa(m)[|Itoa(m)| - 1] == Digit(m % 10) && Itoa(n)[|Itoa(n)| - 1] == Digit(n % 10);
    DigitIsInjective(m % 10, n % 10);
    ItoaLength(m);
    ItoaLength(n);
    if m >= 10 && n >= 10 {
      assert Itoa(m)[..|Itoa(m)| - 1] == Itoa(m / 10) && Itoa(n)[..|Itoa(n)| - 1] == Itoa(n / 10);
      ItoaIsInjective(m / 10, n / 10);
    }
  }

  lemma {:induction false} ItoaLength(n: nat)
    ensures |Itoa(n)| >= 1 && (|Itoa(n)| == 1 <==> n < 10)
  {
    if n >= 10 { ItoaLength(n / 10); }
  }

  lemma {:induction false} ItoaHasNoNul(n: nat)
    ensures forall i :: 0 <= i < |Itoa(n)| ==> Itoa(n)[i] != NUL
  {
    if n >= 10 { ItoaHasNoNul(n / 10); }
  }

  /** Two texts cut at their first NUL. */
  lemma CutAtNul(a: string, x: string, b: string, y: string)
    requires a + [NUL] + x == b + [NUL] + y
    requires (forall i :: 0 <= i < |a| ==> a[i] != NUL) && (forall i :: 0 <= i < |b| ==> b[i] != NUL)
    ensures a == b && x == y
  {
    var l, r := a + [NUL] + x, b + [NUL] + y;
    assert l[|a|] == NUL && r[|b|] == NUL;
    Assoc(a, [NUL], x);
    Assoc(b, [NUL], y);
    SplitAt(a, [NUL] + x, b, [NUL] + y);
    SplitAt([NUL], x, [NUL], y);
  }

  lemma {:induction false} ByteLenAppend(a: string, b: string)
    ensures ByteLen(a + b) == ByteLen(a) + ByteLen(b)
  {
    if a == "" {
      assert a + b == b;
    } else {
      ByteLenAppend(a[1..], b);
      assert (a + b)[1..] == a[1..] + b;
    }
  }

  lemma {:induction false} ByteLenBounds(s: string)
    ensures ByteLen(s) >= |s|
  {
    if s != "" { ByteLenBounds(s[1..]); }
  }

  /** A name of known byte length is where its text ends. */
  lemma CutAtLength(m: string, x: string, n: string, y: string)
    requires m + x == n + y && ByteLen(m) == ByteLen(n)
    ensures m == n && x == y
  {
    if |m| < |n| {
      Beyond(m, x, n, y);
    } else if |n| < |m| {
      Beyond(n, y, m, x);
    } else {
      SplitAt(m, x, n, y);
    }
  }

  lemma Beyond(m: string, x: string, n: string, y: string)
    requires m + x == n + y && |m| < |n|
    ensures ByteLen(m) < ByteLen(n)
  {
    var tail := n[|m|..];
    assert m == (m + x)[..|m|] == (n + y)[..|m|] == n[..|m|];
    assert n == m + tail;
    ByteLenAppend(m, tail);
    ByteLenBounds(tail);
  }

  /** The length prefix keeps a model name from running into the body. */
  lemma PreimageIsInjective(m: string, c: string, n: string, d: string)
    ensures Preimage(m, c) == Preimage(n, d) <==> m == n && c == d
  {
    if Preimage(m, c) == Preimage(n, d) {
      var a, b := Itoa(ByteLen(m)), Itoa(ByteLen(n));
      PreimageParts(m, c);
      PreimageParts(n, d);
      SplitAt(HASH_SCHEME, a + [NUL] + (m + c), HASH_SCHEME, b + [NUL] + (n + d));
      ItoaHasNoNul(ByteLen(m));
      ItoaHasNoNul(ByteLen(n));
      CutAtNul(a, m + c, b, n + d);
      ItoaIsInjective(ByteLen(m), ByteLen(n));
      CutAtLength(m, c, n, d);
    }
  }

  lemma PreimageParts(m: string, c: string)
    ensures Preimage(m, c) == HASH_SCHEME + (Itoa(ByteLen(m)) + [NUL] + (m + c))
  {
    var a := Itoa(ByteLen(m));
    Assoc(HASH_SCHEME, a, [NUL]);
    Assoc(HASH_SCHEME, a + [NUL], m);
    Assoc(HASH_SCHEME, a + [NUL] + m, c);
    Assoc(a + [NUL], m, c);
  }

  /** Two requests have the same preimage exactly when the routed model is the same and, under
      every name but the four that do not change the answer, their bodies mean the same. */
  lemma SameKeySameQuestion(m: string, a: Raw, n: string, b: Raw)
    requires a.RObj? && b.RObj? && Literals(a) && Literals(b)
    ensures Preimage(m, Canonical(Decode(a).fields)) == Preimage(n, Canonical(Decode(b).fields))
       <==> m == n && forall name :: name !in UNHASHED ==> SameUnder(a, b, name)
  {
    var f, g := Decode(a).fields, Decode(b).fields;
    PreimageIsInjective(m, Canonical(f), n, Canonical(g));
    DecodeIsWellFormed(a);
    DecodeIsWellFormed(b);
    MarshalIsInjective(Obj(Prune(f)), Obj(Prune(g)));
    forall name ensures SameUnder(a, b, name) <==> SameEntry(f, g, name) { DecodeUnder(a, b, name); }
    SamePruned(f, g);
  }

  lemma SamePruned(f: map<string, Value>, g: map<string, Value>)
    ensures Prune(f) == Prune(g) <==> forall name :: name !in UNHASHED ==> SameEntry(f, g, name)
  {
    SameMaps(Prune(f), Prune(g));
    forall name ensures SameEntry(Prune(f), Prune(g), name) <==> (name !in UNHASHED ==> SameEntry(f, g, name)) { }
  }

  // ----- the code

  type Decoder = string -> Option<Decoded>

  /** encoding/json's Marshal; None is its error. */
  type Marshaler = Value -> Option<string>

  /** What canonicalize returns. */
  function Canonicalized(decode: Decoder, marshal: Marshaler, raw: string): Result<string, KeyError> {
    var d := decode(raw);
    if d.None? then Err(DecodeFailed)
    else if d.value.trailing then Err(TrailingData)
    else if !d.value.v.Obj? then Err(NotJSONObject)
    else
      var text := marshal(Obj(Prune(d.value.v.fields)));
      if text.None? then Err(ReencodeFailed) else Ok(text.value)
  }

  /** The fields left to marshal: one name after another is taken out, in whatever order. */
  method PruneFields(fields: map<string, Value>) returns (kept: map<string, Value>)
    ensures kept == Prune(fields)
  {
    kept := fields;
    var todo := UNHASHED;
    while todo != {}
      invariant todo <= UNHASHED && kept == fields - (UNHASHED - todo)
      decreases todo
    {
      var name :| name in todo;
      kept := kept - {name};
      todo := todo - {name};
    }
  }

  method Canonicalize(decode: Decoder, marshal: Marshaler, raw: string) returns (r: Result<string, KeyError>)
    ensures r == Canonicalized(decode, marshal, raw)
  {
    var d := decode(raw);
    if d.None? {
      return Err(DecodeFailed);
    }
    if d.value.trailing {
      return Err(TrailingData);
    }
    if !d.value.v.Obj? {
      return Err(NotJSONObject);
    }
    var fields := PruneFields(d.value.v.fields);
    var text := marshal(Obj(fields));
    r := if text.None? then Err(ReencodeFailed) else Ok(text.value);
  }

  method BuildKey(decode: Decoder, marshal: Marshaler, hash: string -> string, tenant: string, model: string, raw: string)
    returns (r: Result<Key, KeyError>)
    ensures match Canonicalized(decode, marshal, raw)
            case Err(e) => r == Err(e)
            case Ok(c) => r == Ok(Key(tenant, model, hash(Preimage(model, c))))
  {
    var canonical := Canonicalize(decode, marshal, raw);
    if canonical.Err? {
      return Err(canonical.error);
    }
    var preimage := "";
    preimage := preimage + HASH_SCHEME;
    preimage := preimage + Itoa(ByteLen(model));
    preimage := preimage + [NUL];
    preimage := preimage + model;
    preimage := preimage + canonical.value;
    assert preimage == Preimage(model, canonical.value);
    r := Ok(Key(tenant, model, hash(preimage)));
  }

  /** The library as the code uses it: decoding returns values with JSON numbers and bounded
      nesting, such a value marshals, and its text decodes to it. */
  ghost predicate Library(decode: Decoder, marshal: Marshaler) {
    && (forall raw :: decode(raw).Some? ==> Decodable(decode(raw).value.v, MAX_NESTING))
    && (forall v :: Decodable(v, MAX_NESTING) ==> marshal(v) == Some(Marshal(v)) && decode(Marshal(v)) == Some(Decoded(v, false)))
  }

  /** With such a library the only errors are the decoder's, and a canonical form is the text of
      what was kept. */
  lemma CanonicalOfDecoded(decode: Decoder, marshal: Marshaler, raw: string)
    requires Library(decode, marshal)
    ensures match Canonicalized(decode, marshal, raw)
            case Ok(c) => c == Canonical(decode(raw).value.v.fields) && decode(c) == Some(Decoded(Obj(Prune(decode(raw).value.v.fields)), false))
            case Err(e) => e != ReencodeFailed
  {
    if decode(raw).Some? && decode(raw).value.v.Obj? {
      var v := decode(raw).value.v;
      assert Decodable(Obj(Prune(v.fields)), MAX_NESTING);
    }
  }

  /** Canonicalizing a canonical form changes nothing. */
  lemma CanonicalizeTwice(decode: Decoder, marshal: Marshaler, raw: string)
    requires Library(decode, marshal)
    ensures match Canonicalized(decode, marshal, raw)
            case Ok(c) => Canonicalized(decode, marshal, c) == Ok(c)
            case Err(_) => true
  {
    CanonicalOfDecoded(decode, marshal, raw);
    var once := Canonicalized(decode, marshal, raw);
    if once.Ok? {
      CanonicalOfDecoded(decode, marshal, once.value);
      var f := decode(raw).value.v.fields;
      assert Prune(Prune(f)) == Prune(f);
    }
  }

  /** Two bodies have the same canonical form exactly when what is kept of them is equal. */
  lemma SameFormSameFields(decode: Decoder, marshal: Marshaler, raw: string, raw': string)
    requires Library(decode, marshal)
    requires Canonicalized(decode, marshal, raw).Ok? && Canonicalized(decode, marshal, raw').Ok?
    ensures Canonicalized(decode, marshal, raw) == Canonicalized(decode, marshal, raw')
       <==> Prune(decode(raw).value.v.fields) == Prune(decode(raw').value.v.fields)
  {
    CanonicalOfDecoded(decode, marshal, raw);
    CanonicalOfDecoded(decode, marshal, raw');
  }

  // ----- such a library exists

  ghost function ReadText(text: string): Option<Decoded> {
    if exists v :: Decodable(v, MAX_NESTING) && Marshal(v) == text
    then
      var v :| Decodable(v, MAX_NESTING) && Marshal(v) == text;
      Some(Decoded(v, false))
    else None
  }

  ghost function WriteText(v: Value): Option<string> {
    if Decodable(v, MAX_NESTING) then Some(Marshal(v)) else None
  }

  /** What is asked of the library can be met: no two decodable values share a text, so a decoder of
      canonical texts is one. */
  lemma LibraryExists()
    ensures exists decode: Decoder, marshal: Marshaler :: Library(decode, marshal)
  {
    ghost var decode: Decoder := text => ReadText(text);
    ghost var marshal: Marshaler := v => WriteText(v);
    forall v | Decodable(v, MAX_NESTING) ensures decode(Marshal(v)) == Some(Decoded(v, false)) {
      var u := ReadText(Marshal(v)).value.v;
      DecodableIsWellFormed(u, MAX_NESTING);
      DecodableIsWellFormed(v, MAX_NESTING);
      MarshalIsInjective(u, v);
    }
    assert Library(decode, marshal);
  }
}
