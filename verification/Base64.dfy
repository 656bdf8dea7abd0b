/** Base64 (section 4 of RFC 4648) as libs/utils/src/b64.cpp:23-129 encodes and decodes it.  The
    decoder looks at up to six bytes from the start of the last block, and so beyond the text:
    `mem` is the text and the memory behind it. */
module Base64 {
  type Octet = bv8

  const PAD: Octet := 0x3d
  const BAD: Octet := 64
  const WORD: nat := 0x1_0000_0000_0000_0000

  // ----- The alphabet -----------------------------------------------------------------------

  /** `b64table`, for indices below 64. */
  function Char(v: Octet): Octet {
    if v < 26 then v + 65
    else if v < 52 then v + 71
    else if v < 62 then v - 4
    else if v == 62 then 0x2b
    else 0x2f
  }

  /** `ASCII_LOOKUP`. */
  function Value(c: Octet): Octet {
    if 65 <= c <= 90 then c - 65
    else if 97 <= c <= 122 then c - 71
    else if 48 <= c <= 57 then c + 4
    else if c == 0x2b then 62
    else if c == 0x2f then 63
    else BAD
  }

  /** Table 1 of RFC 4648, in ASCII: A to Z, a to z, 0 to 9, plus and slash; and the pad. */
  lemma Alphabet(v: Octet)
    requires v < 64
    ensures v < 26 ==> Char(v) == 0x41 + v
    ensures 26 <= v < 52 ==> Char(v) == 0x61 + (v - 26)
    ensures 52 <= v < 62 ==> Char(v) == 0x30 + (v - 52)
    ensures Char(62) == 0x2b && Char(63) == 0x2f && PAD == 0x3d
  {
  }

  /** A character has a value exactly if it is of the alphabet, namely its place there. */
  lemma ValueIffChar(c: Octet, v: Octet)
    requires v < 64
    ensures Value(c) == v <==> c == Char(v)
    ensures Value(c) < 64 || Value(c) == BAD
  {
  }

  lemma ValueOfChar(v: Octet)
    requires v < 64
    ensures Value(Char(v)) == v && Char(v) != PAD
  {
  }

  lemma ValueRange(c: Octet)
    ensures Value(c) <= BAD && Value(PAD) == BAD
  {
  }

  // ----- Groups -----------------------------------------------------------------------------

  function First(a: Octet): Octet { (a & 0xfc) >> 2 }

  function Second(a: Octet, b: Octet): Octet { ((a & 0x03) << 4) | ((b & 0xf0) >> 4) }

  function Third(b: Octet, c: Octet): Octet { ((b & 0x0f) << 2) | ((c & 0xc0) >> 6) }

  function Fourth(c: Octet): Octet { c & 0x3f }

  function Byte0(v: Octet, w: Octet): Octet { (v << 2) | (w >> 4) }

  function Byte1(w: Octet, x: Octet): Octet { (w << 4) | (x >> 2) }

  function Byte2(x: Octet, y: Octet): Octet { (x << 6) | y }

  /** The 24 bits of three bytes, in order, are those of the four indices, most significant first. */
  lemma GroupBits(a: Octet, b: Octet, c: Octet)
    ensures (a as bv24 << 16) | (b as bv24 << 8) | c as bv24
         == (First(a) as bv24 << 18) | (Second(a, b) as bv24 << 12) | (Third(b, c) as bv24 << 6) | Fourth(c) as bv24
  {
  }

  lemma GroupValues(a: Octet, b: Octet, c: Octet)
    ensures First(a) < 64 && Second(a, b) < 64 && Third(b, c) < 64 && Fourth(c) < 64
    ensures Byte0(First(a), Second(a, b)) == a
    ensures Byte1(Second(a, b), Third(b, c)) == b
    ensures Byte2(Third(b, c), Fourth(c)) == c
  {
  }

  // ----- Encoding ---------------------------------------------------------------------------

  function Encoded(b: seq<Octet>): seq<Octet> {
    if |b| >= 3 then
      [Char(First(b[0])), Char(Second(b[0], b[1])), Char(Third(b[1], b[2])), Char(Fourth(b[2]))] + Encoded(b[3..])
    else if |b| == 1 then [Char(First(b[0])), Char(Second(b[0], 0)), PAD, PAD]
    else if |b| == 2 then [Char(First(b[0])), Char(Second(b[0], b[1])), Char(Third(b[1], 0)), PAD]
    else []
  }

  method PutThree(a: Octet, b: Octet, c: Octet) returns (g: seq<Octet>)
    ensures g == [Char(First(a)), Char(Second(a, b)), Char(Third(b, c)), Char(Fourth(c))]
  {
    hide Char;
    g := [Char((a & 0xfc) >> 2)];
    var h := (a & 0x03) << 4;
    g := g + [Char(h | ((b & 0xf0) >> 4))];
    h := (b & 0x0f) << 2;
    g := g + [Char(h | ((c & 0xc0) >> 6))];
    g := g + [Char(c & 0x3f)];
  }

  method PutOne(a: Octet) returns (g: seq<Octet>)
    ensures g == [Char(First(a)), Char(Second(a, 0)), PAD, PAD]
  {
    g := [Char((a & 0xfc) >> 2)];
    var h := (a & 0x03) << 4;
    assert h == Second(a, 0);
    g := g + [Char(h), PAD, PAD];
  }

  method PutTwo(a: Octet, b: Octet) returns (g: seq<Octet>)
    ensures g == [Char(First(a)), Char(Second(a, b)), Char(Third(b, 0)), PAD]
  {
    g := [Char((a & 0xfc) >> 2)];
    var h := (a & 0x03) << 4;
    g := g + [Char(h | ((b & 0xf0) >> 4))];
    h := (b & 0x0f) << 2;
    assert h == Third(b, 0);
    g := g + [Char(h), PAD];
  }

  method Encode(data: seq<Octet>) returns (os: seq<Octet>)
    ensures os == Encoded(data)
  {
    hide Char, First, Second, Third, Fourth;
    os := [];
    var p: nat, sz: nat := 0, |data|;
    assert data[0..] == data;
    while sz >= 3
      invariant p + sz == |data|
      invariant os + Encoded(data[p..]) == Encoded(data)
    {
      assert data[p..][3..] == data[p + 3..];
      var g := PutThree(data[p], data[p + 1], data[p + 2]);
      assert os + (g + Encoded(data[p + 3..])) == os + g + Encoded(data[p + 3..]);
      os := os + g;
      p := p + 3;
      sz := sz - 3;
    }
    if sz == 1 {
      var g := PutOne(data[p]);
      os := os + g;
    } else if sz == 2 {
      var g := PutTwo(data[p], data[p + 1]);
      os := os + g;
    } else {
      assert os + [] == os;
    }
  }

  /** Four characters for every three bytes or part of them, all of them of the alphabet or
      padding. */
  lemma {:induction false} EncodedShape(b: seq<Octet>)
    ensures |Encoded(b)| == (|b| + 2) / 3 * 4
    ensures forall c | c in Encoded(b) :: Value(c) != BAD || c == PAD
  {
    hide Char, Value, First, Second, Third, Fourth;
    if |b| >= 3 {
      GroupChars(b[0], b[1], b[2]);
      EncodedShape(b[3..]);
    } else if |b| == 1 {
      GroupChars(b[0], 0, 0);
    } else if |b| == 2 {
      GroupChars(b[0], b[1], 0);
    }
  }

  lemma GroupChars(a: Octet, b: Octet, c: Octet)
    ensures Value(Char(First(a))) == First(a) != BAD && Value(Char(Second(a, b))) == Second(a, b) != BAD
    ensures Value(Char(Third(b, c))) == Third(b, c) != BAD && Value(Char(Fourth(c))) == Fourth(c) != BAD
    ensures Char(First(a)) != PAD && Char(Second(a, b)) != PAD && Char(Third(b, c)) != PAD && Char(Fourth(c)) != PAD
  {
    hide Char, Value, First, Second, Third, Fourth;
    GroupValues(a, b, c);
    ValueOfChar(First(a));
    ValueOfChar(Second(a, b));
    ValueOfChar(Third(b, c));
    ValueOfChar(Fourth(c));
  }

  // ----- Decoding ---------------------------------------------------------------------------

  datatype Result = Ok(bytes: seq<Octet>) | Invalid

  /** Where the scan of the last block stops: at the first character that is not of the
      alphabet, and after five characters at the latest. */
  function Scan(mem: seq<Octet>, it: nat, i: nat): (r: nat)
    requires it + 6 <= |mem| && i <= 4
    ensures i <= r <= 5
    decreases 5 - i
  {
    if mem[it + i] == PAD || Value(mem[it + i]) == BAD then i
    else if i < 4 then Scan(mem, it, i + 1)
    else 5
  }

  function If(c: bool, x: Octet): seq<Octet> { if c then [x] else [] }

  /** The last block, with `sz` characters left of the text; sizes wrap. */
  function LastBlock(mem: seq<Octet>, it: nat, sz: nat): Result
    requires it + 6 <= |mem| && sz <= 4
  {
    var i := Scan(mem, it, 0);
    if (sz - i) % WORD != 0 && mem[it + i] != PAD then Invalid
    else
      var left := (sz - (4 - i)) % WORD;
      var v, w, x, y := Value(mem[it]), Value(mem[it + 1]), Value(mem[it + 2]), Value(mem[it + 3]);
      Ok(LastBytes(left, Byte0(v, w), Byte1(w, x), Byte2(x, y)))
  }

  function LastBytes(left: nat, a: Octet, b: Octet, c: Octet): seq<Octet> {
    If(left > 1, a) + If(left > 2, b) + If(left > 3, c)
  }

  lemma LastBytesCases(left: nat, a: Octet, b: Octet, c: Octet)
    ensures LastBytes(left, a, b, c) ==
            if left <= 1 then [] else if left == 2 then [a] else if left == 3 then [a, b] else [a, b, c]
  {
  }

  function Decoded(mem: seq<Octet>, it: nat, sz: nat): Result
    requires it + sz + 6 <= |mem|
    decreases sz
  {
    if sz > 4 then
      var v, w, x, y := Value(mem[it]), Value(mem[it + 1]), Value(mem[it + 2]), Value(mem[it + 3]);
      if v == BAD || w == BAD || x == BAD || y == BAD then Invalid
      else
        match Decoded(mem, it + 4, sz - 4)
        case Invalid => Invalid
        case Ok(rest) => Ok([Byte0(v, w), Byte1(w, x), Byte2(x, y)] + rest)
    else LastBlock(mem, it, sz)
  }

  method Decode(mem: seq<Octet>, size: nat) returns (r: Result)
    requires size + 6 <= |mem| && size < WORD
    ensures r == Decoded(mem, 0, size)
  {
    hide Value, Byte0, Byte1, Byte2, Decoded, LastBlock;
    var os: seq<Octet> := [];
    var it: nat, sz: nat := 0, size;
    PrependNothing(Decoded(mem, 0, size));
    while sz > 4
      invariant it + sz == size
      invariant Decoded(mem, 0, size) == Prepend(os, Decoded(mem, it, sz))
    {
      DecodedStep(mem, it, sz);
      if Value(mem[it]) == BAD || Value(mem[it + 1]) == BAD || Value(mem[it + 2]) == BAD || Value(mem[it + 3]) == BAD {
        return Invalid;
      }
      var g := [Byte0(Value(mem[it]), Value(mem[it + 1]))];
      g := g + [Byte1(Value(mem[it + 1]), Value(mem[it + 2]))];
      g := g + [Byte2(Value(mem[it + 2]), Value(mem[it + 3]))];
      PrependTwice(os, g, Decoded(mem, it + 4, sz - 4));
      os := os + g;
      sz := sz - 4;
      it := it + 4;
    }
    DecodedLast(mem, it, sz);
    r := FinishBlock(mem, it, sz);
    if r.Ok? { r := Ok(os + r.bytes); }
  }

  function Prepend(os: seq<Octet>, r: Result): Result {
    match r
    case Invalid => Invalid
    case Ok(b) => Ok(os + b)
  }

  lemma PrependNothing(r: Result)
    ensures Prepend([], r) == r
  {
    if r.Ok? { assert [] + r.bytes == r.bytes; }
  }

  function BadGroup(mem: seq<Octet>, it: nat): bool
    requires it + 4 <= |mem|
  {
    Value(mem[it]) == BAD || Value(mem[it + 1]) == BAD || Value(mem[it + 2]) == BAD || Value(mem[it + 3]) == BAD
  }

  function Group(mem: seq<Octet>, it: nat): seq<Octet>
    requires it + 4 <= |mem|
  {
    [Byte0(Value(mem[it]), Value(mem[it + 1])), Byte1(Value(mem[it + 1]), Value(mem[it + 2])),
     Byte2(Value(mem[it + 2]), Value(mem[it + 3]))]
  }

  lemma DecodedStep(mem: seq<Octet>, it: nat, sz: nat)
    requires it + sz + 6 <= |mem| && sz > 4
    ensures Decoded(mem, it, sz) == if BadGroup(mem, it) then Invalid else Prepend(Group(mem, it), Decoded(mem, it + 4, sz - 4))
  {
    hide Value, Byte0, Byte1, Byte2, LastBlock;
  }

  lemma DecodedLast(mem: seq<Octet>, it: nat, sz: nat)
    requires it + sz + 6 <= |mem| && sz <= 4
    ensures Decoded(mem, it, sz) == LastBlock(mem, it, sz)
  {
  }

  lemma PrependTwice(os: seq<Octet>, g: seq<Octet>, r: Result)
    ensures Prepend(os, Prepend(g, r)) == Prepend(os + g, r)
  {
    if r.Ok? { assert os + (g + r.bytes) == os + g + r.bytes; }
  }

  lemma ScanTurn(mem: seq<Octet>, it: nat, i: nat)
    requires it + 6 <= |mem| && i <= 4
    ensures Scan(mem, it, i) ==
            if mem[it + i] == PAD || Value(mem[it + i]) == BAD then i else if i < 4 then Scan(mem, it, i + 1) else 5
  {
    hide Value;
  }

  /** The scan of the last block. */
  method ScanBlock(mem: seq<Octet>, it: nat) returns (i: nat)
    requires it + 6 <= |mem|
    ensures i == Scan(mem, it, 0)
  {
    hide Value, Scan;
    i := 0;
    while mem[it + i] != PAD && Value(mem[it + i]) != BAD
      invariant i <= 4 && Scan(mem, it, i) == Scan(mem, it, 0)
      decreases 5 - i
    {
      ScanTurn(mem, it, i);
      i := i + 1;
      if i > 4 { return; }
    }
    ScanTurn(mem, it, i);
  }

  method FinishBlock(mem: seq<Octet>, it: nat, size: nat) returns (r: Result)
    requires it + 6 <= |mem| && size <= 4
    ensures r == LastBlock(mem, it, size)
  {
    hide Value, Byte0, Byte1, Byte2, Scan, LastBytes;
    var sz := size;
    var i := ScanBlock(mem, it);
    if (sz - i) % WORD != 0 && mem[it + i] != PAD { return Invalid; }
    sz := (sz - (4 - i)) % WORD;
    LastBytesCases(sz, Byte0(Value(mem[it]), Value(mem[it + 1])), Byte1(Value(mem[it + 1]), Value(mem[it + 2])),
                   Byte2(Value(mem[it + 2]), Value(mem[it + 3])));
    var os := [];
    if sz > 1 { os := os + [Byte0(Value(mem[it]), Value(mem[it + 1]))]; }
    if sz > 2 { os := os + [Byte1(Value(mem[it + 1]), Value(mem[it + 2]))]; }
    if sz > 3 { os := os + [Byte2(Value(mem[it + 2]), Value(mem[it + 3]))]; }
    r := Ok(os);
  }

  // ----- Round trip -------------------------------------------------------------------------

  predicate Letter(c: Octet) { c != PAD && Value(c) != BAD }

  /** What must stand behind the text: nothing in particular after padding; after a full last
      group no letter, unless a padding character follows it; and for no data at all, four or
      five letters and a padding character. */
  predicate Readable(n: nat, after: seq<Octet>)
    requires |after| >= 6
  {
    if n == 0 then
      && Letter(after[0]) && Letter(after[1]) && Letter(after[2]) && Letter(after[3])
      && (after[4] == PAD || (Letter(after[4]) && after[5] == PAD))
    else n % 3 != 0 || !Letter(after[0]) || after[1] == PAD
  }

  lemma ScanFour(mem: seq<Octet>, it: nat)
    requires it + 6 <= |mem|
    ensures var i := Scan(mem, it, 0);
            && (i == 5 <==> Letter(mem[it]) && Letter(mem[it + 1]) && Letter(mem[it + 2]) && Letter(mem[it + 3]) && Letter(mem[it + 4]))
            && (i < 5 ==> !Letter(mem[it + i]))
            && forall p :: it <= p < it + i ==> Letter(mem[p])
  {
    ScanStops(mem, it, 0);
  }

  lemma {:induction false} ScanStops(mem: seq<Octet>, it: nat, i: nat)
    requires it + 6 <= |mem| && i <= 4
    ensures var r := Scan(mem, it, i);
            && (r < 5 ==> !Letter(mem[it + r]))
            && forall p :: it + i <= p < it + r ==> Letter(mem[p])
    decreases 5 - i
  {
    hide Value;
    if i < 4 { ScanStops(mem, it, i + 1); }
  }

  /** The last block of four characters, by where the scan stops. */
  lemma FullBlock(mem: seq<Octet>, it: nat)
    requires it + 6 <= |mem|
    ensures var i := Scan(mem, it, 0);
            var v, w, x, y := Value(mem[it]), Value(mem[it + 1]), Value(mem[it + 2]), Value(mem[it + 3]);
            LastBlock(mem, it, 4) ==
              if i != 4 && mem[it + i] != PAD then Invalid
              else if i <= 1 then Ok([])
              else if i == 2 then Ok([Byte0(v, w)])
              else if i == 3 then Ok([Byte0(v, w), Byte1(w, x)])
              else Ok([Byte0(v, w), Byte1(w, x), Byte2(x, y)])
  {
    hide Value, Byte0, Byte1, Byte2, Scan;
    var i := Scan(mem, it, 0);
    assert (4 - i) % WORD != 0 <==> i != 4;
    assert (4 - (4 - i)) % WORD == i;
  }

  lemma LastThree(a: Octet, b: Octet, c: Octet, mem: seq<Octet>, it: nat)
    requires it + 10 <= |mem| && mem[it] == Char(First(a)) && mem[it + 1] == Char(Second(a, b))
    requires mem[it + 2] == Char(Third(b, c)) && mem[it + 3] == Char(Fourth(c))
    ensures LastBlock(mem, it, 4) ==
            if !Letter(mem[it + 4]) || mem[it + 5] == PAD then Ok([a, b, c]) else Invalid
  {
    hide Char, Value, First, Second, Third, Fourth, Byte0, Byte1, Byte2, LastBlock, Scan;
    GroupChars(a, b, c);
    GroupValues(a, b, c);
    ScanFour(mem, it);
    FullBlock(mem, it);
  }

  lemma LastTwo(a: Octet, b: Octet, mem: seq<Octet>, it: nat)
    requires it + 10 <= |mem| && mem[it] == Char(First(a)) && mem[it + 1] == Char(Second(a, b))
    requires mem[it + 2] == Char(Third(b, 0)) && mem[it + 3] == PAD
    ensures LastBlock(mem, it, 4) == Ok([a, b])
  {
    hide Char, Value, First, Second, Third, Fourth, Byte0, Byte1, Byte2, LastBlock, Scan;
    GroupChars(a, b, 0);
    GroupValues(a, b, 0);
    ScanFour(mem, it);
    FullBlock(mem, it);
  }

  lemma LastOne(a: Octet, mem: seq<Octet>, it: nat)
    requires it + 10 <= |mem| && mem[it] == Char(First(a)) && mem[it + 1] == Char(Second(a, 0))
    requires mem[it + 2] == PAD && mem[it + 3] == PAD
    ensures LastBlock(mem, it, 4) == Ok([a])
  {
    hide Char, Value, First, Second, Third, Fourth, Byte0, Byte1, Byte2, LastBlock, Scan;
    GroupChars(a, 0, 0);
    GroupValues(a, 0, 0);
    ScanFour(mem, it);
    FullBlock(mem, it);
  }

  lemma ReadableLast(n: nat, after: seq<Octet>)
    requires 1 <= n <= 3 && |after| >= 6
    ensures Readable(n, after) <==> n < 3 || !Letter(after[0]) || after[1] == PAD
  {
    hide Letter;
  }

  lemma EncodedOnce(a: Octet, b: Octet, c: Octet)
    ensures Encoded([a, b, c]) == [Char(First(a)), Char(Second(a, b)), Char(Third(b, c)), Char(Fourth(c))]
    ensures Encoded([a, b]) == [Char(First(a)), Char(Second(a, b)), Char(Third(b, 0)), PAD]
    ensures Encoded([a]) == [Char(First(a)), Char(Second(a, 0)), PAD, PAD]
  {
    hide Char, First, Second, Third, Fourth;
    assert [a, b, c][3..] == [];
  }

  lemma FourAt(mem: seq<Octet>, it: nat, v: Octet, w: Octet, x: Octet, y: Octet)
    requires it + 4 <= |mem| && mem[it..it + 4] == [v, w, x, y]
    ensures mem[it] == v && mem[it + 1] == w && mem[it + 2] == x && mem[it + 3] == y
  {
    var t := mem[it..it + 4];
    assert mem[it] == t[0] && mem[it + 1] == t[1] && mem[it + 2] == t[2] && mem[it + 3] == t[3];
  }

  /** The last group of an encoding decodes to the last bytes, if what follows is readable. */
  lemma LastGroup(b: seq<Octet>, mem: seq<Octet>, it: nat)
    requires 1 <= |b| <= 3 && it + 10 <= |mem| && mem[it..it + 4] == Encoded(b)
    ensures LastBlock(mem, it, 4) == Ok(b) <==> Readable(|b|, mem[it + 4..])
  {
    hide Char, First, Second, Third, Fourth, LastBlock, Readable, Letter, Encoded;
    ReadableLast(|b|, mem[it + 4..]);
    var p := b[0];
    if |b| == 3 {
      var q, r := b[1], b[2];
      assert b == [p, q, r];
      EncodedOnce(p, q, r);
      FourAt(mem, it, Char(First(p)), Char(Second(p, q)), Char(Third(q, r)), Char(Fourth(r)));
      LastThree(p, q, r, mem, it);
    } else if |b| == 2 {
      var q := b[1];
      assert b == [p, q];
      EncodedOnce(p, q, 0);
      FourAt(mem, it, Char(First(p)), Char(Second(p, q)), Char(Third(q, 0)), PAD);
      LastTwo(p, q, mem, it);
    } else {
      assert b == [p];
      EncodedOnce(p, 0, 0);
      FourAt(mem, it, Char(First(p)), Char(Second(p, 0)), PAD, PAD);
      LastOne(p, mem, it);
    }
  }

  /** Without any text the decoder reads what happens to follow. */
  lemma NoText(mem: seq<Octet>, it: nat)
    requires it + 6 <= |mem|
    ensures LastBlock(mem, it, 0) == Ok([]) <==> Readable(0, mem[it..])
  {
    hide Value, Byte0, Byte1, Byte2;
    var a := mem[it..];
    assert a[0] == mem[it] && a[1] == mem[it + 1] && a[2] == mem[it + 2] && a[3] == mem[it + 3] && a[4] == mem[it + 4] && a[5] == mem[it + 5];
    ScanFour(mem, it);
    ValueRange(PAD);
  }

  lemma {:induction false} TextRoundTrip(b: seq<Octet>, mem: seq<Octet>, it: nat)
    requires it + |Encoded(b)| + 6 <= |mem| && mem[it..it + |Encoded(b)|] == Encoded(b)
    ensures Decoded(mem, it, |Encoded(b)|) == Ok(b) <==> Readable(|b|, mem[it + |Encoded(b)|..])
    decreases |b|
  {
    hide Char, Value, First, Second, Third, Fourth, Byte0, Byte1, Byte2, LastBlock, Readable, Decoded;
    var e, n := Encoded(b), |Encoded(b)|;
    EncodedShape(b);
    if |b| == 0 {
      DecodedLast(mem, it, 0);
      NoText(mem, it);
    } else if |b| <= 3 {
      DecodedLast(mem, it, 4);
      LastGroup(b, mem, it);
    } else {
      DecodedStep(mem, it, n);
      GroupBack(b, mem, it);
      var rest := b[3..];
      assert mem[it + 4..it + 4 + |Encoded(rest)|] == Encoded(rest) by { assert e[4..] == Encoded(rest); }
      TextRoundTrip(rest, mem, it + 4);
      ReadableLess(|b|, mem[it + n..]);
      assert b == b[..3] + rest;
    }
  }

  lemma GroupBack(b: seq<Octet>, mem: seq<Octet>, it: nat)
    requires |b| > 3 && it + |Encoded(b)| <= |mem| && mem[it..it + |Encoded(b)|] == Encoded(b)
    ensures it + 4 <= |mem| && !BadGroup(mem, it) && Group(mem, it) == b[..3]
  {
    hide Char, Value, First, Second, Third, Fourth, Byte0, Byte1, Byte2;
    var t := mem[it..it + |Encoded(b)|];
    assert mem[it] == t[0] && mem[it + 1] == t[1] && mem[it + 2] == t[2] && mem[it + 3] == t[3];
    GroupChars(b[0], b[1], b[2]);
    GroupValues(b[0], b[1], b[2]);
  }

  lemma ReadableLess(n: nat, after: seq<Octet>)
    requires n > 3 && |after| >= 6
    ensures Readable(n, after) <==> Readable(n - 3, after)
  {
    hide Value;
  }

  /** The text of some data, whatever stands behind it in memory, decodes to the data exactly if
      that is readable. */
  lemma RoundTripIff(b: seq<Octet>, after: seq<Octet>)
    requires |after| >= 6
    ensures Decoded(Encoded(b) + after, 0, |Encoded(b)|) == Ok(b) <==> Readable(|b|, after)
  {
    hide Decoded, Encoded, Readable;
    var mem := Encoded(b) + after;
    assert mem[0..0 + |Encoded(b)|] == Encoded(b) && mem[|Encoded(b)|..] == after;
    TextRoundTrip(b, mem, 0);
  }

  /** In particular the round trip holds for every string of at least one byte when the text is
      followed by a NUL, as the text of a string object is; it fails for the empty string. */
  lemma RoundTripInString(b: seq<Octet>, after: seq<Octet>)
    requires |after| >= 6 && after[0] == 0
    ensures Decoded(Encoded(b) + after, 0, |Encoded(b)|) == Ok(b) <==> b != []
  {
    hide Decoded, Encoded;
    RoundTripIff(b, after);
  }
}
