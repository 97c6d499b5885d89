/** Base64 as in section 4 of RFC 4648, with the strict decoder `b64decode(…, validate=True)`.

    Blocks of three bytes and quads of four characters correspond through a `Coder`; encoding and
    decoding are defined over any coder, proved from its laws, and then used with the one of the
    RFC. */
module Base64 {
  import opened Prelude

  type Byte = x: int | 0 <= x < 256
  type Sextet = x: int | 0 <= x < 64

  datatype Block = Block(a: Byte, b: Byte, c: Byte)
  datatype Quad = Quad(p: char, q: char, r: char, s: char)

  /** `zero` is the character of an all-zero sextet. */
  datatype Coder = Coder(valid: char -> bool, zero: char, split: Block -> Quad, join: Quad -> Block)

  predicate Valid(k: Coder, q: Quad) {
    k.valid(q.p) && k.valid(q.q) && k.valid(q.r) && k.valid(q.s)
  }

  /** Blocks and valid quads correspond one to one, and a shorter input only leaves the later
      characters at zero. */
  ghost predicate Lawful(k: Coder) {
    && k.valid(k.zero) && !k.valid('=')
    && (forall x :: Valid(k, k.split(x)) && k.join(k.split(x)) == x)
    && (forall q | Valid(k, q) :: k.split(k.join(q)) == q)
    && (forall a, b :: k.split(Block(a, b, 0)).s == k.zero)
    && (forall a :: k.split(Block(a, 0, 0)).r == k.zero)
  }

  function EncodeWith(k: Coder, b: seq<Byte>): string {
    if b == [] then ""
    else if |b| == 1 then
      var q := k.split(Block(b[0], 0, 0));
      [q.p, q.q, '=', '=']
    else if |b| == 2 then
      var q := k.split(Block(b[0], b[1], 0));
      [q.p, q.q, q.r, '=']
    else
      var q := k.split(Block(b[0], b[1], b[2]));
      [q.p, q.q, q.r, q.s] + EncodeWith(k, b[3..])
  }

  /** Characters outside the alphabet, misplaced padding and incomplete quads are refused; unused
      bits of the last character are not looked at. */
  function DecodeWith(k: Coder, t: string): Option<seq<Byte>> {
    if t == "" then Some([])
    else if |t| < 4 || !k.valid(t[0]) || !k.valid(t[1]) then None
    else if k.valid(t[2]) && k.valid(t[3]) then
      var rest := DecodeWith(k, t[4..]);
      var x := k.join(Quad(t[0], t[1], t[2], t[3]));
      if rest.None? then None else Some([x.a, x.b, x.c] + rest.value)
    else if |t| == 4 && k.valid(t[2]) && t[3] == '=' then
      var x := k.join(Quad(t[0], t[1], t[2], k.zero));
      Some([x.a, x.b])
    else if |t| == 4 && t[2] == '=' && t[3] == '=' then
      var x := k.join(Quad(t[0], t[1], k.zero, k.zero));
      Some([x.a])
    else None
  }

  /** The bits that padding cuts off are zero. */
  predicate CanonicalWith(k: Coder, t: string) {
    |t| >= 4 ==>
      var q := t[|t| - 4..];
      && (q[2] != '=' && q[3] == '=' ==> k.join(Quad(q[0], q[1], q[2], k.zero)).c == 0)
      && (q[2] == '=' && q[3] == '=' ==> k.join(Quad(q[0], q[1], k.zero, k.zero)).b == 0
                                         && k.join(Quad(q[0], q[1], k.zero, k.zero)).c == 0)
  }

  lemma {:induction false} DecodeEncodeWith(k: Coder, b: seq<Byte>)
    requires Lawful(k)
    ensures DecodeWith(k, EncodeWith(k, b)) == Some(b)
  {
    if |b| > 2 {
      DecodeEncodeWith(k, b[3..]);
      var t := EncodeWith(k, b);
      assert t[4..] == EncodeWith(k, b[3..]);
      assert b == [b[0], b[1], b[2]] + b[3..];
    } else if |b| == 2 {
      var q := k.split(Block(b[0], b[1], 0));
      assert Valid(k, q) && q == Quad(q.p, q.q, q.r, k.zero);
      assert b == [b[0], b[1]];
    } else if |b| == 1 {
      var q := k.split(Block(b[0], 0, 0));
      assert Valid(k, q) && q == Quad(q.p, q.q, k.zero, k.zero);
      assert b == [b[0]];
    }
  }

  lemma PaddedTwo(k: Coder, t: string)
    requires Lawful(k) && |t| == 4 && k.valid(t[0]) && k.valid(t[1]) && t[2] == '=' && t[3] == '='
    ensures var x := k.join(Quad(t[0], t[1], k.zero, k.zero));
            EncodeWith(k, [x.a]) == t <==> x.b == 0 && x.c == 0
  {
  }

  lemma PaddedOne(k: Coder, t: string)
    requires Lawful(k) && |t| == 4 && k.valid(t[0]) && k.valid(t[1]) && k.valid(t[2]) && t[3] == '='
    ensures var x := k.join(Quad(t[0], t[1], t[2], k.zero));
            EncodeWith(k, [x.a, x.b]) == t <==> x.c == 0
  {
  }

  lemma FullQuadEncoded(k: Coder, t: string)
    requires DecodeWith(k, t).Some? && t != "" && k.valid(t[2]) && k.valid(t[3])
    requires var q := Quad(t[0], t[1], t[2], t[3]);
             k.split(k.join(q)) == q
    ensures var rest := DecodeWith(k, t[4..]);
            rest.Some? && (EncodeWith(k, DecodeWith(k, t).value) == t <==> EncodeWith(k, rest.value) == t[4..])
  {
    var b, rest := DecodeWith(k, t).value, DecodeWith(k, t[4..]).value;
    var q := Quad(t[0], t[1], t[2], t[3]);
    assert b[3..] == rest;
    assert EncodeWith(k, b) == [q.p, q.q, q.r, q.s] + EncodeWith(k, rest);
    assert t == [q.p, q.q, q.r, q.s] + t[4..];
    assert EncodeWith(k, b)[4..] == EncodeWith(k, rest);
  }

  lemma FullQuadCanonical(k: Coder, t: string)
    requires !k.valid('=') && DecodeWith(k, t).Some? && t != "" && k.valid(t[2]) && k.valid(t[3])
    ensures CanonicalWith(k, t) <==> CanonicalWith(k, t[4..])
  {
  }

  lemma {:induction false} EncodeDecodeWithIff(k: Coder, t: string)
    requires Lawful(k) && DecodeWith(k, t).Some?
    ensures EncodeWith(k, DecodeWith(k, t).value) == t <==> CanonicalWith(k, t)
  {
    if t == "" {
    } else if k.valid(t[2]) && k.valid(t[3]) {
      var q := Quad(t[0], t[1], t[2], t[3]);
      assert Valid(k, q) && k.split(k.join(q)) == q;
      FullQuadEncoded(k, t);
      FullQuadCanonical(k, t);
      EncodeDecodeWithIff(k, t[4..]);
    } else {
      assert t[|t| - 4..] == t;
      if k.valid(t[2]) {
        PaddedOne(k, t);
      } else {
        PaddedTwo(k, t);
      }
    }
  }

  // ---- The coder of RFC 4648 -----------------------------------------------------------

  function Char(v: Sextet): (c: char)
    ensures InAlphabet(c)
  {
    if v < 26 then ('A' as int + v) as char
    else if v < 52 then ('a' as int + v - 26) as char
    else if v < 62 then ('0' as int + v - 52) as char
    else if v == 62 then '+'
    else '/'
  }

  predicate InAlphabet(c: char) {
    'A' <= c <= 'Z' || 'a' <= c <= 'z' || '0' <= c <= '9' || c == '+' || c == '/'
  }

  function Value(c: char): Sextet {
    if 'A' <= c <= 'Z' then c as int - 'A' as int
    else if 'a' <= c <= 'z' then c as int - 'a' as int + 26
    else if '0' <= c <= '9' then c as int - '0' as int + 52
    else if c == '+' then 62
    else 63
  }

  function Sextets(x: Block): (Sextet, Sextet, Sextet, Sextet) {
    (x.a / 4, x.a % 4 * 16 + x.b / 16, x.b % 16 * 4 + x.c / 64, x.c % 64)
  }

  function Chars(v: (Sextet, Sextet, Sextet, Sextet)): Quad {
    Quad(Char(v.0), Char(v.1), Char(v.2), Char(v.3))
  }

  function Split(x: Block): Quad {
    Chars(Sextets(x))
  }

  function Bytes(v: (Sextet, Sextet, Sextet, Sextet)): Block {
    Block(v.0 * 4 + v.1 / 16, v.1 % 16 * 16 + v.2 / 4, v.2 % 4 * 64 + v.3)
  }

  function Join(q: Quad): Block {
    Bytes((Value(q.p), Value(q.q), Value(q.r), Value(q.s)))
  }

  const RFC4648: Coder := Coder(InAlphabet, 'A', Split, Join)

  lemma Mix4(h: int, l: int)
    requires 0 <= l < 4
    ensures (h * 4 + l) / 4 == h && (h * 4 + l) % 4 == l
  {
  }

  lemma Mix16(h: int, l: int)
    requires 0 <= l < 16
    ensures (h * 16 + l) / 16 == h && (h * 16 + l) % 16 == l
  {
  }

  lemma Mix64(h: int, l: int)
    requires 0 <= l < 64
    ensures (h * 64 + l) / 64 == h && (h * 64 + l) % 64 == l
  {
  }

  lemma ValueOfChar(v: Sextet)
    ensures Value(Char(v)) == v
  {
  }

  lemma CharOfValue(c: char)
    requires InAlphabet(c)
    ensures Char(Value(c)) == c
  {
  }

  lemma JoinOfSplit(x: Block)
    ensures Join(Split(x)) == x
  {
    ValueOfChar(x.a / 4);
    ValueOfChar(x.a % 4 * 16 + x.b / 16);
    ValueOfChar(x.b % 16 * 4 + x.c / 64);
    ValueOfChar(x.c % 64);
    Mix16(x.a % 4, x.b / 16);
    Mix4(x.b % 16, x.c / 64);
  }

  lemma SextetsBack(p: Sextet, q: Sextet, r: Sextet, s: Sextet)
    ensures Sextets(Bytes((p, q, r, s))) == (p, q, r, s)
  {
    Mix4(p, q / 16);
    Mix16(q % 16, r / 4);
    Mix64(r % 4, s);
  }

  /** The four sextets are the digits, to base 64, of the number whose base-256 digits are the
      three bytes. */
  lemma SextetsAreTheNumber(x: Block)
    ensures var v := Sextets(x);
            ((v.0 * 64 + v.1) * 64 + v.2) * 64 + v.3 == (x.a * 256 + x.b) * 256 + x.c
  {
  }

  lemma SplitOfJoin(q: Quad)
    requires Valid(RFC4648, q)
    ensures Split(Join(q)) == q
  {
    CharOfValue(q.p);
    CharOfValue(q.q);
    CharOfValue(q.r);
    CharOfValue(q.s);
    SextetsBack(Value(q.p), Value(q.q), Value(q.r), Value(q.s));
  }

  lemma Rfc4648IsLawful()
    ensures Lawful(RFC4648)
  {
    forall x ensures Valid(RFC4648, RFC4648.split(x)) && RFC4648.join(RFC4648.split(x)) == x {
      JoinOfSplit(x);
    }
    forall q | Valid(RFC4648, q) ensures RFC4648.split(RFC4648.join(q)) == q {
      SplitOfJoin(q);
    }
  }

  function Encode(b: seq<Byte>): string {
    EncodeWith(RFC4648, b)
  }

  function Decode(t: string): Option<seq<Byte>> {
    DecodeWith(RFC4648, t)
  }

  predicate Canonical(t: string) {
    CanonicalWith(RFC4648, t)
  }

  /** Decoding the encoding gives the bytes back, for every byte string. */
  lemma DecodeEncode(b: seq<Byte>)
    ensures Decode(Encode(b)) == Some(b)
  {
    Rfc4648IsLawful();
    DecodeEncodeWith(RFC4648, b);
  }

  /** A text that decodes is the encoding of what it decodes to, exactly when the bits its padding
      cuts off are zero. */
  lemma EncodeDecodeIff(t: string)
    requires Decode(t).Some?
    ensures Encode(Decode(t).value) == t <==> Canonical(t)
  {
    Rfc4648IsLawful();
    EncodeDecodeWithIff(RFC4648, t);
  }

  ghost predicate CodedWith(k: Coder, t: string) {
    forall i | 0 <= i < |t| :: k.valid(t[i]) || t[i] == '='
  }

  lemma {:induction false} EncodeIsCodedWith(k: Coder, b: seq<Byte>)
    requires Lawful(k)
    ensures CodedWith(k, EncodeWith(k, b)) && |EncodeWith(k, b)| == (|b| + 2) / 3 * 4
  {
    if |b| > 2 {
      EncodeIsCodedWith(k, b[3..]);
      assert Valid(k, k.split(Block(b[0], b[1], b[2])));
    } else if b != [] {
      assert Valid(k, k.split(Block(b[0], if |b| == 2 then b[1] else 0, 0)));
    }
  }

  /** A base64 character: of the alphabet, or padding. */
  predicate Plain(c: char) {
    InAlphabet(c) || c == '='
  }

  predicate Coded(t: string) {
    forall i | 0 <= i < |t| :: Plain(t[i])
  }

  lemma EncodeIsCoded(b: seq<Byte>)
    ensures Coded(Encode(b)) && |Encode(b)| == (|b| + 2) / 3 * 4
  {
    Rfc4648IsLawful();
    EncodeIsCodedWith(RFC4648, b);
  }
}
