/**
 Bytes, fixed-width integers and the result of reading one field off the front
 of a byte string.  Every codec of the project is built on these.
 */
module Wire {

  type Byte = x: int | 0 <= x < 256
  type Bytes = seq<Byte>

  const MAX_U64: nat := 0xFFFF_FFFF_FFFF_FFFF
  const ZERO32: Bytes := Zeros(32)

  datatype Option<+T> = None | Some(value: T)

  /** What is left after one field has been read, or why it was refused. */
  datatype Parsed<+T, +E> = Bad(error: E) | Good(value: T, rest: Bytes)
  {
    predicate IsFailure() {
      Bad?
    }

    function PropagateFailure<U>(): Parsed<U, E>
      requires Bad?
    {
      Bad(error)
    }

    function Extract(): (T, Bytes)
      requires Good?
    {
      (value, rest)
    }
  }

  datatype Result<+T, +E> = Ok(value: T) | Err(error: E)
  {
    predicate IsFailure() {
      Err?
    }

    function PropagateFailure<U>(): Result<U, E>
      requires Err?
    {
      Err(error)
    }

    function Extract(): T
      requires Ok?
    {
      value
    }
  }

  /** An imperative read returned `r` and left `left` unread, just as `p` says. */
  ghost predicate Follows<T, E>(r: Result<T, E>, left: Bytes, p: Parsed<T, E>) {
    match p
    case Bad(e) => r == Err(e)
    case Good(v, rest) => r == Ok(v) && left == rest
  }

  // ----- Fixed-size pieces

  function Take<E>(n: nat, s: Bytes, short: E): Parsed<Bytes, E> {
    if n <= |s| then Good(s[..n], s[n..]) else Bad(short)
  }

  lemma TakePrefix<E>(x: Bytes, rest: Bytes, short: E)
    ensures Take(|x|, x + rest, short) == Good(x, rest)
  {
    assert (x + rest)[..|x|] == x;
    assert (x + rest)[|x|..] == rest;
  }

  function Zeros(n: nat): (z: Bytes)
    ensures |z| == n
    ensures forall i :: 0 <= i < n ==> z[i] == 0
  {
    seq(n, i => 0)
  }

  /** The bytes of a string of characters below 256. */
  function ToAscii(s: string): (b: Bytes)
    ensures |b| == |s|
  {
    seq(|s|, i requires 0 <= i < |s| => (s[i] as int) % 256)
  }

  // ----- Integers

  function Pow256(n: nat): (p: nat)
    ensures p > 0
  {
    if n == 0 then 1 else 256 * Pow256(n - 1)
  }

  lemma Pow256Values()
    ensures Pow256(1) == 0x100
    ensures Pow256(2) == 0x1_0000
    ensures Pow256(4) == 0x1_0000_0000
    ensures Pow256(8) == 0x1_0000_0000_0000_0000
    ensures Pow256(16) == 0x1_0000_0000_0000_0000_0000_0000_0000_0000
  {
    assert Pow256(3) == 0x100_0000;
    assert Pow256(4) == 0x1_0000_0000;
    assert Pow256(6) == 0x1_0000_0000_0000;
    assert Pow256(8) == 0x1_0000_0000_0000_0000;
    assert Pow256(10) == 0x1_0000_0000_0000_0000_0000;
    assert Pow256(12) == 0x1_0000_0000_0000_0000_0000_0000;
    assert Pow256(14) == 0x1_0000_0000_0000_0000_0000_0000_0000;
  }

  /** The unsigned integer a big-endian byte string stands for. */
  function FromBE(s: Bytes): (v: nat)
    ensures v < Pow256(|s|)
  {
    if s == [] then 0 else 256 * FromBE(s[..|s| - 1]) + s[|s| - 1]
  }

  /** The low `n` bytes of `v`, most significant first. */
  function ToBE(v: nat, n: nat): (s: Bytes)
    ensures |s| == n
  {
    if n == 0 then [] else ToBE(v / 256, n - 1) + [v % 256]
  }

  /** The least significant byte is the last of one order and the first of the other. */
  lemma ByteOrder(v: nat, n: nat, s: Bytes, b: Byte)
    ensures n > 0 ==> ToBE(v, n)[n - 1] == v % 256 && ToLE(v, n)[0] == v % 256
    ensures FromBE(s + [b]) == 256 * FromBE(s) + b && FromLE([b] + s) == 256 * FromLE(s) + b
  {
    assert (s + [b])[..|s|] == s && ([b] + s)[1..] == s;
  }

  lemma {:induction false} ToBERoundTrip(v: nat, n: nat)
    requires v < Pow256(n)
    ensures FromBE(ToBE(v, n)) == v
  {
    if n > 0 {
      ToBERoundTrip(v / 256, n - 1);
      var s := ToBE(v, n);
      assert s[..n - 1] == ToBE(v / 256, n - 1);
    }
  }

  lemma {:induction false} FromBERoundTrip(s: Bytes)
    ensures ToBE(FromBE(s), |s|) == s
  {
    if s != [] {
      FromBERoundTrip(s[..|s| - 1]);
      assert FromBE(s) / 256 == FromBE(s[..|s| - 1]);
      assert s == s[..|s| - 1] + [s[|s| - 1]];
    }
  }

  /** The unsigned integer a little-endian byte string stands for. */
  function FromLE(s: Bytes): (v: nat)
    ensures v < Pow256(|s|)
  {
    if s == [] then 0 else s[0] + 256 * FromLE(s[1..])
  }

  /** The low `n` bytes of `v`, least significant first. */
  function ToLE(v: nat, n: nat): (s: Bytes)
    ensures |s| == n
  {
    if n == 0 then [] else [v % 256] + ToLE(v / 256, n - 1)
  }

  lemma {:induction false} ToLERoundTrip(v: nat, n: nat)
    requires v < Pow256(n)
    ensures FromLE(ToLE(v, n)) == v
  {
    if n > 0 {
      ToLERoundTrip(v / 256, n - 1);
      assert ToLE(v, n)[1..] == ToLE(v / 256, n - 1);
    }
  }

  lemma {:induction false} FromLERoundTrip(s: Bytes)
    ensures ToLE(FromLE(s), |s|) == s
  {
    if s != [] {
      FromLERoundTrip(s[1..]);
      assert FromLE(s) / 256 == FromLE(s[1..]);
      assert s == [s[0]] + s[1..];
    }
  }

  lemma {:induction false} TimesMonotone(a: nat, b: nat, k: nat)
    requires a <= b
    ensures a * k <= b * k
  {
    if k > 0 {
      TimesMonotone(a, b, k - 1);
      assert a * k == a * (k - 1) + a && b * k == b * (k - 1) + b;
    }
  }

  // ----- Reading one field

  function TakeU8<E>(s: Bytes, short: E): Parsed<Byte, E> {
    if s == [] then Bad(short) else Good(s[0], s[1..])
  }

  /** A big-endian unsigned integer of `n` bytes. */
  function TakeU<E>(n: nat, s: Bytes, short: E): Parsed<nat, E> {
    var (b, s) :- Take(n, s, short);
    Good(FromBE(b), s)
  }

  /** Reading a field gives back what was written in front of `rest`. */
  lemma ReadsBack<E(!new)>()
    ensures forall n: nat, x: Bytes, rest: Bytes, e: E {:trigger Take(n, x + rest, e)} ::
              |x| == n ==> Take(n, x + rest, e) == Good(x, rest)
    ensures forall n: nat, v: nat, rest: Bytes, e: E {:trigger TakeU(n, ToBE(v, n) + rest, e)} ::
              v < Pow256(n) ==> TakeU(n, ToBE(v, n) + rest, e) == Good(v, rest)
    ensures forall b: Byte, rest: Bytes, e: E {:trigger TakeU8([b] + rest, e)} ::
              TakeU8([b] + rest, e) == Good(b, rest)
  {
    forall n: nat, x: Bytes, rest: Bytes, e: E | |x| == n
      ensures Take(n, x + rest, e) == Good(x, rest)
    {
      TakePrefix(x, rest, e);
    }
    forall n: nat, v: nat, rest: Bytes, e: E | v < Pow256(n)
      ensures TakeU(n, ToBE(v, n) + rest, e) == Good(v, rest)
    {
      TakePrefix(ToBE(v, n), rest, e);
      ToBERoundTrip(v, n);
    }
    forall b: Byte, rest: Bytes, e: E
      ensures TakeU8([b] + rest, e) == Good(b, rest)
    {
      assert ([b] + rest)[1..] == rest;
    }
  }

  /** What was read, written in front of what is left, is what was there. */
  lemma WritesBack<E(!new)>()
    ensures forall n: nat, s: Bytes, e: E {:trigger Take(n, s, e)} :: Take(n, s, e).Good? ==>
              |Take(n, s, e).value| == n && s == Take(n, s, e).value + Take(n, s, e).rest
    ensures forall n: nat, s: Bytes, e: E {:trigger TakeU(n, s, e)} :: TakeU(n, s, e).Good? ==>
              TakeU(n, s, e).value < Pow256(n) && s == ToBE(TakeU(n, s, e).value, n) + TakeU(n, s, e).rest
    ensures forall s: Bytes, e: E {:trigger TakeU8(s, e)} :: TakeU8(s, e).Good? ==>
              s == [TakeU8(s, e).value] + TakeU8(s, e).rest
  {
    forall n: nat, s: Bytes, e: E | TakeU(n, s, e).Good?
      ensures TakeU(n, s, e).value < Pow256(n) && s == ToBE(TakeU(n, s, e).value, n) + TakeU(n, s, e).rest
    {
      FromBERoundTrip(s[..n]);
    }
  }

  /**
   A growing byte buffer.  Each write says what the buffer holds once `todo` has been appended as
   well: what it held before, then the written bytes put in front of `todo`.
   */
  class Buffer {
    var out: Bytes

    constructor ()
      ensures out == []
    {
      out := [];
    }

    method Extend(x: Bytes, ghost todo: Bytes)
      modifies this
      ensures out + todo == old(out) + (x + todo)
    {
      out := out + x;
    }
  }

  /** A cursor that moves over fixed bytes. */
  class Cursor {
    const bytes: Bytes
    var position: nat

    ghost predicate Valid()
      reads this
    {
      position <= |bytes|
    }

    ghost function Rest(): Bytes
      requires Valid()
      reads this
    {
      bytes[position..]
    }

    constructor (bytes: Bytes)
      ensures Valid() && this.bytes == bytes && Rest() == bytes
    {
      this.bytes := bytes;
      position := 0;
    }

    method TakeBytes<E>(n: nat, short: E) returns (r: Result<Bytes, E>)
      requires Valid()
      modifies this
      ensures Valid() && old(position) <= position
      ensures Follows(r, Rest(), Take(n, old(Rest()), short))
    {
      if n > |bytes| - position {
        return Err(short);
      }
      r := Ok(bytes[position..position + n]);
      assert bytes[position..][..n] == r.value;
      position := position + n;
    }

    method ReadU8<E>(short: E) returns (r: Result<Byte, E>)
      requires Valid()
      modifies this
      ensures Valid() && old(position) <= position
      ensures Follows(r, Rest(), TakeU8(old(Rest()), short))
    {
      if position == |bytes| {
        return Err(short);
      }
      r := Ok(bytes[position]);
      position := position + 1;
    }

    method ReadU<E>(n: nat, short: E) returns (r: Result<nat, E>)
      requires Valid()
      modifies this
      ensures Valid() && old(position) <= position
      ensures Follows(r, Rest(), TakeU(n, old(Rest()), short))
    {
      hide Take;
      var b :- TakeBytes(n, short);
      r := Ok(FromBE(b));
    }
  }

  // ----- Concatenation

  /** A piece of a piece is a piece. */
  lemma Within(s: Bytes, a: nat, b: nat, c: nat, d: nat)
    requires a <= b <= |s| && c <= d <= b - a
    ensures s[a..b][c..d] == s[a + c..a + d]
  {
    var x, y := s[a..b][c..d], s[a + c..a + d];
    assert |x| == |y|;
    assert forall k :: 0 <= k < |x| ==> x[k] == s[a + c + k] && y[k] == s[a + c + k];
  }

  /** The field that stands at a position of a byte string, and what follows it. */
  lemma Peel(s: Bytes, at: nat, x: Bytes, rest: Bytes)
    requires at <= |s| && s[at..] == x + rest
    ensures at + |x| <= |s| && s[at..at + |x|] == x && s[at + |x|..] == rest
  {
    assert s[at..at + |x|] == s[at..][..|x|];
    assert s[at + |x|..] == s[at..][|x|..];
  }

  lemma PeelByte(m: Bytes, at: nat, b: Byte, rest: Bytes)
    requires at <= |m| && m[at..] == [b] + rest
    ensures at < |m| && m[at] == b && m[at + 1..] == rest
  {
    Peel(m, at, [b], rest);
    assert m[at..at + 1] == [m[at]];
  }

  lemma PeelNumber(m: Bytes, at: nat, v: nat, n: nat, rest: Bytes)
    requires at <= |m| && v < Pow256(n) && m[at..] == ToBE(v, n) + rest
    ensures at + n <= |m| && FromBE(m[at..at + n]) == v && m[at + n..] == rest
  {
    ToBERoundTrip(v, n);
    Peel(m, at, ToBE(v, n), rest);
  }

  lemma PeelZeros(m: Bytes, at: nat, n: nat, rest: Bytes)
    requires at <= |m| && m[at..] == [0] + (Zeros(n) + rest)
    ensures at + 1 + n <= |m| && m[at + 1 + n..] == rest && forall i :: at <= i < at + 1 + n ==> m[i] == 0
  {
    PeelByte(m, at, 0, Zeros(n) + rest);
    Peel(m, at + 1, Zeros(n), rest);
    forall i | at + 1 <= i < at + 1 + n
      ensures m[i] == 0
    {
      assert m[i] == m[at + 1..at + 1 + n][i - at - 1];
    }
  }

  /** Two equally long fronts of equal strings are equal, and so are the rests. */
  lemma SplitEqual(a: Bytes, x: Bytes, b: Bytes, y: Bytes)
    requires a + x == b + y
    requires |a| == |b|
    ensures a == b && x == y
  {
    assert a == (a + x)[..|a|];
    assert b == (b + y)[..|b|];
    assert x == (a + x)[|a|..];
    assert y == (b + y)[|b|..];
  }

  // ----- Order

  /** Lexicographic order on byte strings. */
  predicate Less(a: Bytes, b: Bytes) {
    if a == [] then b != [] else if b == [] then false
    else a[0] < b[0] || (a[0] == b[0] && Less(a[1..], b[1..]))
  }

  lemma {:induction false} LessTotal(a: Bytes, b: Bytes)
    ensures a != b ==> (Less(a, b) <==> !Less(b, a))
    ensures !Less(a, a)
  {
    if a != [] && b != [] {
      LessTotal(a[1..], b[1..]);
      assert a == [a[0]] + a[1..] && b == [b[0]] + b[1..];
    }
    LessIrreflexive(a);
  }

  lemma {:induction false} LessIrreflexive(a: Bytes)
    ensures !Less(a, a)
  {
    if a != [] {
      LessIrreflexive(a[1..]);
    }
  }

  // ----- Hashing

  /** No two of the byte strings `xs` collide: all that is ever asked of a hash. */
  predicate InjectiveOn(hash: Bytes -> Bytes, xs: set<Bytes>) {
    forall x, y :: x in xs && y in xs && hash(x) == hash(y) ==> x == y
  }
}
