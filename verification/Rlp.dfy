/**
 The RLP serialization behind contract addresses: Appendix B of the Ethereum
 Yellow Paper, as written in contracts/scripts/release_manifest.py.
 */
module Rlp {
  import opened Wire

  const MAX_LENGTH: nat := 0x1_0000_0000_0000_0000

  // ===== Minimal big-endian integers

  function BitLength(n: nat): nat {
    if n == 0 then 0 else 1 + BitLength(n / 2)
  }

  function ByteLength(n: nat): nat {
    (BitLength(n) + 7) / 8
  }

  function Minimal(n: nat): Bytes {
    ToBE(n, ByteLength(n))
  }

  lemma ByteStep(n: nat)
    requires n >= 256
    ensures BitLength(n) == 8 + BitLength(n / 256)
  {
    assert n / 2 / 2 / 2 / 2 / 2 / 2 / 2 / 2 == n / 256;
    assert BitLength(n) == 1 + BitLength(n / 2);
    assert BitLength(n / 2 / 2) == 1 + BitLength(n / 2 / 2 / 2);
    assert BitLength(n / 2 / 2 / 2 / 2) == 1 + BitLength(n / 2 / 2 / 2 / 2 / 2);
    assert BitLength(n / 2 / 2 / 2 / 2 / 2 / 2) == 1 + BitLength(n / 2 / 2 / 2 / 2 / 2 / 2 / 2);
  }

  lemma SmallByte(n: nat)
    requires 0 < n < 256
    ensures 1 <= BitLength(n) <= 8
  {
    assert BitLength(n) == 1 + BitLength(n / 2);
    assert n / 2 < 128 && n / 2 / 2 < 64 && n / 2 / 2 / 2 < 32 && n / 2 / 2 / 2 / 2 < 16;
    assert n / 2 / 2 / 2 / 2 / 2 < 8 && n / 2 / 2 / 2 / 2 / 2 / 2 < 4 && n / 2 / 2 / 2 / 2 / 2 / 2 / 2 < 2;
    assert BitLength(n / 2 / 2 / 2 / 2 / 2 / 2 / 2 / 2) == 0;
    assert BitLength(n / 2 / 2 / 2 / 2 / 2 / 2) <= 2;
    assert BitLength(n / 2 / 2 / 2 / 2) <= 4;
    assert BitLength(n / 2 / 2) <= 6;
  }

  /** The byte length is the least that holds the number. */
  lemma {:induction false} ByteLengthExact(n: nat)
    ensures n < Pow256(ByteLength(n))
    ensures n > 0 ==> ByteLength(n) > 0 && Pow256(ByteLength(n) - 1) <= n
  {
    if n >= 256 {
      ByteStep(n);
      ByteLengthExact(n / 256);
    } else if n > 0 {
      SmallByte(n);
      assert Pow256(1) == 256;
    }
  }

  lemma {:induction false} Pow256Grows(a: nat, b: nat)
    requires a <= b
    ensures Pow256(a) <= Pow256(b)
  {
    if a < b {
      Pow256Grows(a, b - 1);
    }
  }

  lemma LengthOfLength(n: nat)
    requires 0 < n < MAX_LENGTH
    ensures 1 <= ByteLength(n) <= 8
  {
    ByteLengthExact(n);
    Pow256Values();
    if ByteLength(n) > 8 {
      Pow256Grows(8, ByteLength(n) - 1);
    }
  }

  lemma MinimalInverse(n: nat)
    ensures FromBE(Minimal(n)) == n && |Minimal(n)| == ByteLength(n)
  {
    ByteLengthExact(n);
    ToBERoundTrip(n, ByteLength(n));
  }

  // ===== Serialization

  /** Prefix for a payload of `n` bytes: one byte up to 55, else the length of the length and the length. */
  function Prefix(short: nat, n: nat): Bytes
    requires short + 55 + 8 < 256 && n < MAX_LENGTH
  {
    if n <= 55 then [short + n] else LengthOfLength(n); [short + 55 + ByteLength(n)] + Minimal(n)
  }

  function PutBytes(value: Bytes, rest: Bytes): Bytes
    requires |value| < MAX_LENGTH
  {
    if |value| == 1 && value[0] < 0x80 then value + rest else Prefix(0x80, |value|) + (value + rest)
  }

  predicate AllShort(values: seq<Bytes>) {
    forall i :: 0 <= i < |values| ==> |values[i]| < MAX_LENGTH
  }

  function PutAll(values: seq<Bytes>): Bytes
    requires AllShort(values)
  {
    if values == [] then [] else PutBytes(values[0], PutAll(values[1..]))
  }

  predicate ListFits(values: seq<Bytes>) {
    AllShort(values) && |PutAll(values)| < MAX_LENGTH
  }

  function PutList(values: seq<Bytes>, rest: Bytes): Bytes
    requires ListFits(values)
  {
    Prefix(0xC0, |PutAll(values)|) + (PutAll(values) + rest)
  }

  // ===== Parsing

  /** The payload announced by a prefix whose short form starts at `short`. */
  function GetPayload(short: nat, s: Bytes): Parsed<Bytes, ()> {
    var (b, s) :- TakeU8(s, ());
    if b < short || b > short + 63 then Bad(())
    else if b <= short + 55 then Take(b - short, s, ())
    else
      var (n, s) :- TakeU(b - short - 55, s, ());
      Take(n, s, ())
  }

  function GetBytes(s: Bytes): Parsed<Bytes, ()> {
    if s != [] && s[0] < 0x80 then Good([s[0]], s[1..]) else GetPayload(0x80, s)
  }

  function GetAll(s: Bytes): Option<seq<Bytes>>
    decreases |s|
  {
    if s == [] then Some([])
    else
      match GetBytes(s)
      case Bad(_) => None
      case Good(v, rest) =>
        if |rest| >= |s| then None
        else
          match GetAll(rest)
          case None => None
          case Some(vs) => Some([v] + vs)
  }

  function GetList(s: Bytes): Parsed<seq<Bytes>, ()> {
    var (payload, s) :- GetPayload(0xC0, s);
    match GetAll(payload)
    case Some(vs) => Good(vs, s)
    case None => Bad(())
  }

  // ===== Unique decodability

  lemma PayloadInverse(short: nat, payload: Bytes, rest: Bytes)
    requires short + 63 < 256 && |payload| < MAX_LENGTH
    ensures GetPayload(short, Prefix(short, |payload|) + (payload + rest)) == Good(payload, rest)
  {
    hide Take, TakeU, ToBE, ByteLength, BitLength, Pow256;
    ReadsBack<()>();
    var n := |payload|;
    if n > 55 {
      LengthOfLength(n);
      MinimalInverse(n);
      ByteLengthExact(n);
      var l := short + 55 + ByteLength(n);
      assert [l] + Minimal(n) + (payload + rest) == [l] + (Minimal(n) + (payload + rest));
    }
  }

  lemma BytesInverse(value: Bytes, rest: Bytes)
    requires |value| < MAX_LENGTH
    ensures GetBytes(PutBytes(value, rest)) == Good(value, rest)
    ensures |PutBytes(value, rest)| > |rest| && PutBytes(value, rest)[0] < 0xC0
  {
    hide GetPayload;
    if |value| == 1 && value[0] < 0x80 {
      assert (value + rest)[1..] == rest && [value[0]] == value;
    } else {
      PayloadInverse(0x80, value, rest);
      if |value| > 55 {
        LengthOfLength(|value|);
      }
    }
  }

  lemma {:induction false} AllInverse(values: seq<Bytes>)
    requires AllShort(values)
    ensures GetAll(PutAll(values)) == Some(values)
  {
    hide GetBytes, PutBytes;
    if values != [] {
      BytesInverse(values[0], PutAll(values[1..]));
      AllInverse(values[1..]);
      assert [values[0]] + values[1..] == values;
    }
  }

  /** A parser gives back the list whatever follows, and no list starts like a byte string. */
  lemma ListInverse(values: seq<Bytes>, rest: Bytes)
    requires ListFits(values)
    ensures GetList(PutList(values, rest)) == Good(values, rest)
    ensures PutList(values, rest) != [] && PutList(values, rest)[0] >= 0xC0
  {
    hide GetPayload, GetAll, PutAll;
    PayloadInverse(0xC0, PutAll(values), rest);
    AllInverse(values);
    if |PutAll(values)| > 55 {
      LengthOfLength(|PutAll(values)|);
    }
  }

  /** Byte strings are prefix-free: equal beginnings mean equal values and equal remainders. */
  lemma BytesPrefixFree(a: Bytes, x: Bytes, b: Bytes, y: Bytes)
    requires |a| < MAX_LENGTH && |b| < MAX_LENGTH && PutBytes(a, x) == PutBytes(b, y)
    ensures a == b && x == y
  {
    hide GetBytes, PutBytes;
    BytesInverse(a, x);
    BytesInverse(b, y);
  }

  /** Lists are prefix-free too, and never confused with byte strings. */
  lemma ListsPrefixFree(a: seq<Bytes>, x: Bytes, b: seq<Bytes>, y: Bytes, c: Bytes)
    requires ListFits(a) && ListFits(b) && |c| < MAX_LENGTH
    ensures PutList(a, x) == PutList(b, y) ==> a == b && x == y
    ensures PutList(a, x) != PutBytes(c, y)
  {
    hide GetList, PutList, PutBytes, GetBytes;
    ListInverse(a, x);
    ListInverse(b, y);
    BytesInverse(c, y);
  }

  // ===== Contract addresses

  function NonceBytes(nonce: nat): Bytes {
    if nonce == 0 then [] else Minimal(nonce)
  }

  /** What is hashed into the address of a contract created by `sender` with `nonce`. */
  function CreatePreimage(sender: Bytes, nonce: nat): Bytes
    requires |sender| == 20 && nonce < MAX_LENGTH
  {
    CreateFits(sender, nonce);
    PutList([sender, NonceBytes(nonce)], [])
  }

  lemma CreateFits(sender: Bytes, nonce: nat)
    requires |sender| == 20 && nonce < MAX_LENGTH
    ensures ListFits([sender, NonceBytes(nonce)])
  {
    var values: seq<Bytes> := [sender, NonceBytes(nonce)];
    if nonce > 0 {
      LengthOfLength(nonce);
    }
    var tail: seq<Bytes> := [NonceBytes(nonce)];
    assert values[1..] == tail && tail[1..] == [];
    assert |PutAll(tail)| <= 1 + |NonceBytes(nonce)|;
    assert |PutAll(values)| == 21 + |PutAll(tail)|;
  }

  /** The preimage fixes the creator and the nonce. */
  lemma CreatePreimageInjective(a: Bytes, m: nat, b: Bytes, n: nat)
    requires |a| == 20 && |b| == 20 && m < MAX_LENGTH && n < MAX_LENGTH
    requires CreatePreimage(a, m) == CreatePreimage(b, n)
    ensures a == b && m == n
  {
    hide PutList, GetList, ToBE, Minimal;
    CreateFits(a, m);
    CreateFits(b, n);
    ListsPrefixFree([a, NonceBytes(m)], [], [b, NonceBytes(n)], [], []);
    assert [a, NonceBytes(m)][1] == [b, NonceBytes(n)][1] && [a, NonceBytes(m)][0] == [b, NonceBytes(n)][0];
    MinimalInverse(m);
    MinimalInverse(n);
    if m > 0 {
      LengthOfLength(m);
    }
    if n > 0 {
      LengthOfLength(n);
    }
  }

  // ===== What the bytes look like

  /** One byte for short payloads; else the length of the length, and the length without leading zeros. */
  lemma PrefixLayout(short: nat, n: nat)
    requires short + 55 + 8 < 256 && n < MAX_LENGTH
    ensures n <= 55 ==> Prefix(short, n) == [short + n]
    ensures n > 55 ==>
      var p := Prefix(short, n);
      && 2 <= |p| <= 9 && p[0] == short + 55 + (|p| - 1) && FromBE(p[1..]) == n && Pow256(|p| - 2) <= n
  {
    if n > 55 {
      LengthOfLength(n);
      ByteLengthExact(n);
      MinimalInverse(n);
      assert Prefix(short, n)[1..] == Minimal(n);
    }
  }

  /** A small byte stands for itself; every other string has a prefix from 0x80 on, and every list one from 0xC0 on. */
  lemma ItemLayout(value: Bytes, values: seq<Bytes>, rest: Bytes)
    requires |value| < MAX_LENGTH && ListFits(values)
    ensures |value| == 1 && value[0] < 0x80 ==> PutBytes(value, rest) == [value[0]] + rest
    ensures !(|value| == 1 && value[0] < 0x80) ==> PutBytes(value, rest) == Prefix(0x80, |value|) + (value + rest)
    ensures PutList(values, rest) == Prefix(0xC0, |PutAll(values)|) + (PutAll(values) + rest)
  {
    if |value| == 1 {
      assert value == [value[0]];
    }
  }

  /** A creation preimage: the list byte, 0x94 and the creator, and the nonce as the shortest string that holds it. */
  lemma CreateLayout(sender: Bytes, nonce: nat)
    requires |sender| == 20 && nonce < MAX_LENGTH
    ensures var m := CreatePreimage(sender, nonce);
      && |m| >= 23 && m[0] == 0xC0 + (|m| - 1) && m[1] == 0x94 && m[2..22] == sender
      && (nonce == 0 ==> m[22..] == [0x80]) && (0 < nonce < 0x80 ==> m[22..] == [nonce])
      && (nonce >= 0x80 ==> |m| == 23 + ByteLength(nonce) && m[22] == 0x80 + ByteLength(nonce) && FromBE(m[23..]) == nonce)
  {
    hide ToBE, FromBE;
    CreateFits(sender, nonce);
    NonceForm(nonce);
    var n := NonceBytes(nonce);
    var values: seq<Bytes> := [sender, n];
    var tail: seq<Bytes> := [n];
    assert values[1..] == tail && tail[1..] == [];
    var last := PutBytes(n, []);
    assert PutAll(tail) == last;
    assert PutAll(values) == [0x94] + (sender + last);
    var m := CreatePreimage(sender, nonce);
    assert m == [0xC0 + (21 + |last|)] + ([0x94] + (sender + last));
    assert m[2..22] == sender && m[22..] == last;
  }

  lemma NonceForm(nonce: nat)
    requires nonce < MAX_LENGTH
    ensures |NonceBytes(nonce)| <= 8
    ensures var last := PutBytes(NonceBytes(nonce), []);
      && (nonce == 0 ==> last == [0x80]) && (0 < nonce < 0x80 ==> last == [nonce])
      && (nonce >= 0x80 ==> |last| == 1 + ByteLength(nonce) && last[0] == 0x80 + ByteLength(nonce) && FromBE(last[1..]) == nonce)
  {
    var n := NonceBytes(nonce);
    if nonce > 0 {
      LengthOfLength(nonce);
      ByteLengthExact(nonce);
      MinimalInverse(nonce);
      if |n| == 1 {
        assert n[..0] == [] && FromBE(n) == n[0];
        assert n == [nonce];
      } else {
        Pow256Grows(1, ByteLength(nonce) - 1);
        assert Pow256(1) == 256;
      }
      assert n + [] == n;
      if nonce >= 0x80 {
        assert PutBytes(n, [])[1..] == n;
      }
    }
  }
}
