/**
 The canonical JSON hashed into a contract release digest
 (crates/deployment-registry/src/contract_release.rs), and a parser for the
 emitted grammar.  Strings follow section 7 of RFC 8259.
 */
module CanonicalJson {
  import opened Wire

  type Reading<T> = Parsed<T, ()>

  /** Release values.  An object's members are listed in key order, as the ordered map iterates them. */
  datatype Value =
    | Null
    | Bool(b: bool)
    | Unsigned(n: nat)
    | String(s: Bytes)
    | Array(items: seq<Value>)
    | Object(members: seq<Member>)
  datatype Member = Member(key: Bytes, value: Value)

  predicate IsAscii(s: Bytes) {
    forall i :: 0 <= i < |s| ==> s[i] < 128
  }

  /** What deserialization can produce: ASCII text, 64-bit numbers, strictly ordered keys. */
  predicate Strict(v: Value) {
    match v
    case Null => true
    case Bool(_) => true
    case Unsigned(n) => n < Pow256(8)
    case String(s) => IsAscii(s)
    case Array(items) => forall i :: 0 <= i < |items| ==> Strict(items[i])
    case Object(ms) =>
      && (forall i :: 0 <= i < |ms| ==> IsAscii(ms[i].key) && Strict(ms[i].value))
      && (forall i, j :: 0 <= i < j < |ms| ==> Less(ms[i].key, ms[j].key))
  }

  // ===== Emitting

  function Text(s: string): Bytes {
    ToAscii(s)
  }

  function Digits(n: nat): (d: Bytes)
    ensures d != [] && forall i :: 0 <= i < |d| ==> IsDigit(d[i])
  {
    if n < 10 then [48 + n] else Digits(n / 10) + [48 + n % 10]
  }

  predicate IsDigit(c: Byte) {
    48 <= c < 58
  }

  function HexDigit(n: nat): Byte
    requires n < 16
  {
    if n < 10 then 48 + n else 87 + n
  }

  /** One character of a string: the two-character escapes, \u00XX for other control characters, itself otherwise. */
  function Escape(c: Byte): (e: Bytes)
    ensures e != []
  {
    if c == 34 then [92, 34]
    else if c == 92 then [92, 92]
    else if c == 8 then [92, 98]
    else if c == 9 then [92, 116]
    else if c == 10 then [92, 110]
    else if c == 12 then [92, 102]
    else if c == 13 then [92, 114]
    else if c < 32 then [92, 117, 48, 48, HexDigit(c / 16), HexDigit(c % 16)]
    else [c]
  }

  function PutChars(s: Bytes, rest: Bytes): Bytes {
    if s == [] then [34] + rest else Escape(s[0]) + PutChars(s[1..], rest)
  }

  function PutString(s: Bytes, rest: Bytes): Bytes {
    [34] + PutChars(s, rest)
  }

  /** The canonical bytes of a value in front of `rest`. */
  function Put(v: Value, rest: Bytes): Bytes
    decreases v, 1
  {
    match v
    case Null => Text("null") + rest
    case Bool(b) => Text(if b then "true" else "false") + rest
    case Unsigned(n) => Digits(n) + rest
    case String(s) => PutString(s, rest)
    case Array(items) => [91] + PutItems(items, true, rest)
    case Object(ms) => [123] + PutMembers(ms, true, rest)
  }

  /** The items still to come, each after a comma unless it is the first, then the closing bracket. */
  function PutItems(items: seq<Value>, first: bool, rest: Bytes): Bytes
    decreases items, 0
  {
    if items == [] then [93] + rest
    else Comma(first, Put(items[0], PutItems(items[1..], false, rest)))
  }

  function PutMembers(ms: seq<Member>, first: bool, rest: Bytes): Bytes
    decreases ms, 0
  {
    if ms == [] then [125] + rest
    else Comma(first, PutString(ms[0].key, [58] + Put(ms[0].value, PutMembers(ms[1..], false, rest))))
  }

  function Comma(first: bool, rest: Bytes): Bytes {
    if first then rest else [44] + rest
  }

  function Canonical(v: Value): Bytes {
    Put(v, [])
  }

  lemma Texts()
    ensures Text("null") == [110, 117, 108, 108] && Text("true") == [116, 114, 117, 101] && Text("a") == [97]
  {
  }

  /** Escaped characters: a backslash and a letter or the character itself, and four hexadecimal digits for the rest. */
  lemma EscapeTable()
    ensures Escape(34) == [92, 34] && Escape(92) == [92, 92] && Escape(10) == [92, 'n' as int] && Escape(9) == [92, 't' as int]
    ensures Escape(8) == [92, 'b' as int] && Escape(12) == [92, 'f' as int] && Escape(13) == [92, 'r' as int]
    ensures Escape(31) == [92, 'u' as int, '0' as int, '0' as int, '1' as int, 'f' as int] && Escape(97) == [97]
    ensures Digits(190) == ['1' as int, '9' as int, '0' as int]
  {
    assert Digits(1) == [49] && Digits(19) == [49, 57];
  }

  /** The document {"a":[null,true],"b":"c"}, byte by byte. */
  lemma SmallDocument()
    ensures Canonical(Object([Member([97], Array([Null, Bool(true)])), Member([98], String([99]))]))
         == [123, 34, 97, 34, 58, 91] + Text("null") + [44] + Text("true") + [93, 44, 34, 98, 34, 58, 34, 99, 34, 125]
  {
    hide Text, Put, PutItems, PutString;
    var last := [Member([98], String([99]))];
    var list := Array([Null, Bool(true)]);
    var all := [Member([97], list)] + last;
    assert all == [Member([97], list), Member([98], String([99]))] && all[1..] == last;
    var b := PutMembers(last, false, []);
    LastMember();
    ListForm(b);
    OneChar(97, [58] + Put(list, b));
    assert PutMembers(all, true, []) == [34, 97, 34] + ([58] + Put(list, b));
    ObjectForm(all);
  }

  lemma ObjectForm(ms: seq<Member>)
    ensures Canonical(Object(ms)) == [123] + PutMembers(ms, true, [])
  {
  }

  lemma LastMember()
    ensures PutMembers([Member([98], String([99]))], false, []) == [44, 34, 98, 34, 58, 34, 99, 34, 125]
  {
    hide PutString;
    var last := [Member([98], String([99]))];
    assert last[1..] == [] && [125] + [] == [125];
    OneChar(99, [125]);
    OneChar(98, [58] + PutString([99], [125]));
    assert PutMembers(last, false, []) == [44] + PutString([98], [58] + PutString([99], [125]));
  }

  lemma ListForm(b: Bytes)
    ensures Put(Array([Null, Bool(true)]), b) == [91] + (Text("null") + ([44] + (Text("true") + ([93] + b))))
  {
    hide Text;
    var two := [Bool(true)];
    assert [Null, Bool(true)][1..] == two && two[1..] == [];
    assert PutItems(two, false, b) == [44] + (Text("true") + ([93] + b));
  }

  lemma OneChar(c: Byte, rest: Bytes)
    requires 97 <= c
    ensures PutString([c], rest) == [34, c, 34] + rest
  {
    assert [c][1..] == [];
    assert PutChars([], rest) == [34] + rest;
  }

  /** Appends the canonical bytes of a value to the output. */
  method Append(v: Value, w: Buffer, ghost todo: Bytes)
    modifies w
    ensures w.out + todo == old(w.out) + Put(v, todo)
    decreases v, 1
  {
    match v
    case Null => w.Extend(Text("null"), todo);
    case Bool(b) => w.Extend(Text(if b then "true" else "false"), todo);
    case Unsigned(n) => w.Extend(Digits(n), todo);
    case String(s) => AppendString(s, w, todo);
    case Array(items) =>
      w.Extend([91], PutItems(items, true, todo));
      for i := 0 to |items|
        invariant w.out + PutItems(items[i..], i == 0, todo) == old(w.out) + Put(v, todo)
      {
        ghost var after := PutItems(items[i + 1..], false, todo);
        assert items[i..][1..] == items[i + 1..];
        if i != 0 {
          w.Extend([44], Put(items[i], after));
        }
        Append(items[i], w, after);
      }
      assert items[|items|..] == [];
      w.Extend([93], todo);
    case Object(ms) =>
      w.Extend([123], PutMembers(ms, true, todo));
      for i := 0 to |ms|
        invariant w.out + PutMembers(ms[i..], i == 0, todo) == old(w.out) + Put(v, todo)
      {
        ghost var after := PutMembers(ms[i + 1..], false, todo);
        assert ms[i..][1..] == ms[i + 1..];
        ghost var value := Put(ms[i].value, after);
        if i != 0 {
          w.Extend([44], PutString(ms[i].key, [58] + value));
        }
        AppendString(ms[i].key, w, [58] + value);
        w.Extend([58], value);
        Append(ms[i].value, w, after);
      }
      assert ms[|ms|..] == [];
      w.Extend([125], todo);
  }

  method AppendString(s: Bytes, w: Buffer, ghost todo: Bytes)
    modifies w
    ensures w.out + todo == old(w.out) + PutString(s, todo)
  {
    w.Extend([34], PutChars(s, todo));
    for i := 0 to |s|
      invariant w.out + PutChars(s[i..], todo) == old(w.out) + PutString(s, todo)
    {
      assert s[i..][1..] == s[i + 1..];
      w.Extend(Escape(s[i]), PutChars(s[i + 1..], todo));
    }
    assert s[|s|..] == [];
    w.Extend([34], todo);
  }

  method CanonicalBytes(v: Value) returns (out: Bytes)
    ensures out == Canonical(v)
  {
    var w := new Buffer();
    Append(v, w, []);
    assert w.out == w.out + [];
    out := w.out;
  }

  // ===== Parsing what is emitted

  function Expect(t: Bytes, s: Bytes): Reading<()> {
    if t <= s then Good((), s[|t|..]) else Bad(())
  }

  function GetDigits(value: nat, s: Bytes): (nat, Bytes)
    decreases |s|
  {
    if s != [] && IsDigit(s[0]) then GetDigits(10 * value + (s[0] - 48), s[1..]) else (value, s)
  }

  function HexValue(c: Byte): Option<nat> {
    if 48 <= c < 58 then Some(c - 48) else if 97 <= c < 103 then Some(c - 87) else None
  }

  function Unescape(c: Byte): Option<Byte> {
    if c == 34 then Some(34) else if c == 92 then Some(92) else if c == 98 then Some(8) else if c == 116 then Some(9)
    else if c == 110 then Some(10) else if c == 102 then Some(12) else if c == 114 then Some(13) else None
  }

  function GetChars(s: Bytes, got: Bytes): (r: Reading<Bytes>)
    ensures r.Good? ==> |r.rest| < |s|
    decreases |s|
  {
    if s == [] then Bad(())
    else if s[0] == 34 then Good(got, s[1..])
    else if s[0] != 92 then GetChars(s[1..], got + [s[0]])
    else if |s| < 2 then Bad(())
    else if s[1] == 117 then
      if |s| < 6 || s[2] != 48 || s[3] != 48 then Bad(())
      else
        match (HexValue(s[4]), HexValue(s[5]))
        case (Some(hi), Some(lo)) => GetChars(s[6..], got + [16 * hi + lo])
        case _ => Bad(())
    else
      match Unescape(s[1])
      case Some(c) => GetChars(s[2..], got + [c])
      case None => Bad(())
  }

  function GetString(s: Bytes): (r: Reading<Bytes>)
    ensures r.Good? ==> |r.rest| < |s|
  {
    var (_, s) :- Expect([34], s);
    GetChars(s, [])
  }

  function Get(s: Bytes): (r: Reading<Value>)
    ensures r.Good? ==> |r.rest| < |s|
    decreases |s|, 1
  {
    if s == [] then Bad(())
    else if s[0] == 110 then (var (_, s) :- Expect(Text("null"), s); Good(Null, s))
    else if s[0] == 116 then (var (_, s) :- Expect(Text("true"), s); Good(Bool(true), s))
    else if s[0] == 102 then (var (_, s) :- Expect(Text("false"), s); Good(Bool(false), s))
    else if IsDigit(s[0]) then
      DigitsShorten(s[0] - 48, s[1..]);
      var (n, rest) := GetDigits(s[0] - 48, s[1..]);
      Good(Unsigned(n), rest)
    else if s[0] == 34 then (var (t, s) :- GetString(s); Good(String(t), s))
    else if s[0] == 91 then (var (items, s) :- GetItems(s[1..], true); Good(Array(items), s))
    else if s[0] == 123 then (var (ms, s) :- GetMembers(s[1..], true); Good(Object(ms), s))
    else Bad(())
  }

  function GetItems(s: Bytes, first: bool): (r: Reading<seq<Value>>)
    ensures r.Good? ==> |r.rest| < |s|
    decreases |s|, 2
  {
    if s == [] then Bad(())
    else if s[0] == 93 then Good([], s[1..])
    else if !first && s[0] != 44 then Bad(())
    else
      var (v, s) :- Get(if first then s else s[1..]);
      var (vs, s) :- GetItems(s, false);
      Good([v] + vs, s)
  }

  function GetMembers(s: Bytes, first: bool): (r: Reading<seq<Member>>)
    ensures r.Good? ==> |r.rest| < |s|
    decreases |s|, 2
  {
    if s == [] then Bad(())
    else if s[0] == 125 then Good([], s[1..])
    else if !first && s[0] != 44 then Bad(())
    else
      var (key, s) :- GetString(if first then s else s[1..]);
      var (_, s) :- Expect([58], s);
      var (v, s) :- Get(s);
      var (ms, s) :- GetMembers(s, false);
      Good([Member(key, v)] + ms, s)
  }

  lemma {:induction false} DigitsShorten(value: nat, s: Bytes)
    ensures |GetDigits(value, s).1| <= |s|
    decreases |s|
  {
    if s != [] && IsDigit(s[0]) {
      DigitsShorten(10 * value + (s[0] - 48), s[1..]);
    }
  }

  // ===== Parsing inverts emitting

  /** Nothing that could prolong a number follows. */
  predicate Delimited(rest: Bytes) {
    rest == [] || !IsDigit(rest[0])
  }

  lemma {:induction false} DigitsInverse(n: nat, rest: Bytes)
    ensures GetDigits(0, Digits(n) + rest) == GetDigits(n, rest)
  {
    if n < 10 {
      assert ([48 + n] + rest)[1..] == rest;
    } else {
      var tail := [48 + n % 10] + rest;
      DigitsInverse(n / 10, tail);
      assert Digits(n) + rest == Digits(n / 10) + tail;
      assert tail[1..] == rest;
    }
  }

  lemma EscapeInverse(c: Byte, rest: Bytes, got: Bytes)
    requires c < 128
    ensures GetChars(Escape(c) + rest, got) == GetChars(rest, got + [c])
  {
    var s := Escape(c) + rest;
    if c == 34 || c == 92 || c == 8 || c == 9 || c == 10 || c == 12 || c == 13 {
      assert s[2..] == rest;
    } else if c < 32 {
      assert s[6..] == rest;
      HexInverse(c / 16);
      HexInverse(c % 16);
      assert 16 * (c / 16) + c % 16 == c;
    } else {
      assert s[1..] == rest;
    }
  }

  lemma HexInverse(n: nat)
    requires n < 16
    ensures HexValue(HexDigit(n)) == Some(n)
  {
  }

  lemma QuoteEnds(rest: Bytes, got: Bytes)
    ensures GetChars([34] + rest, got) == Good(got, rest)
  {
    assert ([34] + rest)[1..] == rest;
  }

  lemma {:induction false} CharsInverse(s: Bytes, rest: Bytes, got: Bytes)
    requires IsAscii(s)
    ensures GetChars(PutChars(s, rest), got) == Good(got + s, rest)
  {
    hide GetChars, Escape;
    if s == [] {
      QuoteEnds(rest, got);
      assert got + s == got;
    } else {
      EscapeInverse(s[0], PutChars(s[1..], rest), got);
      CharsInverse(s[1..], rest, got + [s[0]]);
      assert got + [s[0]] + s[1..] == got + s;
    }
  }

  lemma StringInverse(s: Bytes, rest: Bytes)
    requires IsAscii(s)
    ensures GetString(PutString(s, rest)) == Good(s, rest)
  {
    CharsInverse(s, rest, []);
    assert ([34] + PutChars(s, rest))[1..] == PutChars(s, rest);
    assert [] + s == s;
  }

  lemma ExpectInverse(t: Bytes, rest: Bytes)
    ensures Expect(t, t + rest) == Good((), rest)
  {
    assert (t + rest)[|t|..] == rest;
  }

  /** No value starts with a comma or a closing bracket. */
  lemma FirstByte(v: Value, rest: Bytes)
    ensures var s := Put(v, rest); s != [] && s[0] != 93 && s[0] != 125 && s[0] != 44
  {
  }

  lemma NumberInverse(n: nat, rest: Bytes)
    requires Delimited(rest)
    ensures Get(Put(Unsigned(n), rest)) == Good(Unsigned(n), rest)
  {
    hide GetItems, GetMembers, GetString;
    var s := Digits(n) + rest;
    assert s[0] == Digits(n)[0];
    DigitsInverse(n, rest);
    assert GetDigits(0, s) == GetDigits(s[0] - 48, s[1..]);
  }

  lemma LiteralInverse(v: Value, rest: Bytes)
    requires v.Null? || v.Bool?
    ensures Get(Put(v, rest)) == Good(v, rest)
  {
    hide GetItems, GetMembers, GetString, Expect;
    var t := Text(if v.Null? then "null" else if v.b then "true" else "false");
    var s := t + rest;
    assert s[0] == t[0] == if v.Null? then 110 else if v.b then 116 else 102;
    ExpectInverse(t, rest);
  }

  lemma TextInverse(t: Bytes, rest: Bytes)
    requires IsAscii(t)
    ensures Get(Put(String(t), rest)) == Good(String(t), rest)
  {
    hide GetItems, GetMembers, GetString, PutChars;
    StringInverse(t, rest);
  }

  /** A bracket in front of what parses as items or members parses as the array or object. */
  lemma BracketInverse(v: Value, rest: Bytes)
    requires v.Array? ==> GetItems(PutItems(v.items, true, rest), true) == Good(v.items, rest)
    requires v.Object? ==> GetMembers(PutMembers(v.members, true, rest), true) == Good(v.members, rest)
    ensures v.Array? || v.Object? ==> Get(Put(v, rest)) == Good(v, rest)
  {
    hide GetItems, GetMembers, GetString, PutItems, PutMembers;
    if v.Array? {
      assert ([91] + PutItems(v.items, true, rest))[1..] == PutItems(v.items, true, rest);
    } else if v.Object? {
      assert ([123] + PutMembers(v.members, true, rest))[1..] == PutMembers(v.members, true, rest);
    }
  }

  /** The parser gives back every value, whatever follows it. */
  lemma {:induction false} ValueInverse(v: Value, rest: Bytes)
    requires Strict(v) && Delimited(rest)
    ensures Get(Put(v, rest)) == Good(v, rest)
    decreases v, 1
  {
    hide Get, Put, GetItems, GetMembers, PutItems, PutMembers;
    match v
    case Null => LiteralInverse(v, rest);
    case Bool(b) => LiteralInverse(v, rest);
    case Unsigned(n) => NumberInverse(n, rest);
    case String(s) => TextInverse(s, rest);
    case Array(items) =>
      ItemsInverse(items, true, rest);
      BracketInverse(v, rest);
    case Object(ms) =>
      MembersInverse(ms, true, rest);
      BracketInverse(v, rest);
  }

  lemma {:induction false} ItemsInverse(items: seq<Value>, first: bool, rest: Bytes)
    requires forall i :: 0 <= i < |items| ==> Strict(items[i])
    ensures GetItems(PutItems(items, first, rest), first) == Good(items, rest)
    ensures !first ==> Delimited(PutItems(items, first, rest))
    decreases items, 0
  {
    hide Put, Get;
    if items == [] {
      assert ([93] + rest)[1..] == rest;
    } else {
      var after := PutItems(items[1..], false, rest);
      ItemsInverse(items[1..], false, rest);
      var s := Put(items[0], after);
      FirstByte(items[0], after);
      ValueInverse(items[0], after);
      assert ([44] + s)[1..] == s;
      assert [items[0]] + items[1..] == items;
    }
  }

  lemma {:induction false} MembersInverse(ms: seq<Member>, first: bool, rest: Bytes)
    requires forall i :: 0 <= i < |ms| ==> IsAscii(ms[i].key) && Strict(ms[i].value)
    ensures GetMembers(PutMembers(ms, first, rest), first) == Good(ms, rest)
    ensures !first ==> Delimited(PutMembers(ms, first, rest))
    decreases ms, 0
  {
    hide Put, Get, GetString, PutChars;
    if ms == [] {
      assert ([125] + rest)[1..] == rest;
    } else {
      var after := PutMembers(ms[1..], false, rest);
      MembersInverse(ms[1..], false, rest);
      ValueInverse(ms[0].value, after);
      var value := Put(ms[0].value, after);
      ExpectInverse([58], value);
      StringInverse(ms[0].key, [58] + value);
      var s := PutString(ms[0].key, [58] + value);
      assert ([44] + s)[1..] == s;
      assert [Member(ms[0].key, ms[0].value)] + ms[1..] == ms;
    }
  }

  /** Unique decodability: distinct values never share canonical bytes. */
  lemma CanonicalInjective(a: Value, b: Value)
    requires Strict(a) && Strict(b) && Canonical(a) == Canonical(b)
    ensures a == b
  {
    ValueInverse(a, []);
    ValueInverse(b, []);
  }

  function Preimage(domain: Bytes, v: Value): Bytes {
    domain + ([0] + Canonical(v))
  }

  /** Unless its two preimages collide, the release digest fixes one record. */
  lemma DigestFixesRecord(hash: Bytes -> Bytes, domain: Bytes, a: Value, b: Value)
    requires Strict(a) && Strict(b)
    requires hash(Preimage(domain, a)) == hash(Preimage(domain, b)) ==> Preimage(domain, a) == Preimage(domain, b)
    ensures hash(Preimage(domain, a)) == hash(Preimage(domain, b)) <==> a == b
  {
    if hash(Preimage(domain, a)) == hash(Preimage(domain, b)) {
      SplitEqual(domain, [0] + Canonical(a), domain, [0] + Canonical(b));
      SplitEqual([0], Canonical(a), [0], Canonical(b));
      CanonicalInjective(a, b);
    }
  }
}
