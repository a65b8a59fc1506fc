/** The base 64 encoding of section 4 of RFC 4648, with `=` padding, which
    `Buffer.toString('base64')` produces. */
module Base64 {
  import opened Wrappers
  import opened Utf8

  /** The symbol for the 6-bit value `i`: Table 1 of RFC 4648. */
  function Sym(i: int): char
    requires 0 <= i < 64
  {
    if i < 26 then ('A' as int + i) as char
    else if i < 52 then ('a' as int + i - 26) as char
    else if i < 62 then ('0' as int + i - 52) as char
    else if i == 62 then '+'
    else '/'
  }

  /** The 6-bit value of a symbol of the alphabet. */
  function Index(c: char): (r: Option<int>)
    ensures r.Some? ==> 0 <= r.value < 64 && Sym(r.value) == c
  {
    if 'A' <= c <= 'Z' then Some(c as int - 'A' as int)
    else if 'a' <= c <= 'z' then Some(c as int - 'a' as int + 26)
    else if '0' <= c <= '9' then Some(c as int - '0' as int + 52)
    else if c == '+' then Some(62)
    else if c == '/' then Some(63)
    else None
  }

  lemma IndexSym(i: int)
    requires 0 <= i < 64
    ensures Index(Sym(i)) == Some(i)
    ensures Sym(i) != '='
  {
  }

  /** Three bytes as four symbols. */
  function Group3(b0: byte, b1: byte, b2: byte): (g: string)
    ensures |g| == 4
  {
    [Sym(b0 / 4), Sym((b0 % 4) * 16 + b1 / 16), Sym((b1 % 16) * 4 + b2 / 64), Sym(b2 % 64)]
  }

  /** Two final bytes: three symbols and one `=`. */
  function Group2(b0: byte, b1: byte): (g: string)
    ensures |g| == 4
  {
    [Sym(b0 / 4), Sym((b0 % 4) * 16 + b1 / 16), Sym((b1 % 16) * 4), '=']
  }

  /** One final byte: two symbols and two `=`. */
  function Group1(b0: byte): (g: string)
    ensures |g| == 4
  {
    [Sym(b0 / 4), Sym((b0 % 4) * 16), '=', '=']
  }

  /** The encoding, group by group. */
  function Encode(bs: seq<byte>): (r: string)
    ensures |r| == 4 * ((|bs| + 2) / 3)
  {
    if bs == [] then []
    else if |bs| == 1 then Group1(bs[0])
    else if |bs| == 2 then Group2(bs[0], bs[1])
    else Group3(bs[0], bs[1], bs[2]) + Encode(bs[3..])
  }

  /** The bytes of one group of four symbols, of which the last `pad` are
      `=`. */
  function DecodeGroup(g: string, pad: nat): (r: Option<seq<byte>>)
    requires |g| == 4 && pad <= 2
  {
    var i0, i1 := Index(g[0]), Index(g[1]);
    var i2 := if pad == 2 then Some(0) else Index(g[2]);
    var i3 := if pad >= 1 then Some(0) else Index(g[3]);
    if i0.None? || i1.None? || i2.None? || i3.None? then None
    else
      var a, b, c, d := i0.value, i1.value, i2.value, i3.value;
      var bytes: seq<byte> := [a * 4 + b / 16, (b % 16) * 16 + c / 4, (c % 4) * 64 + d];
      Some(bytes[..3 - pad])
  }

  /** The bytes whose encoding is `s`, if `s` is one. */
  function Decode(s: string): Option<seq<byte>>
    decreases |s|
  {
    if s == [] then Some([])
    else if |s| < 4 then None
    else
      var pad := if |s| == 4 && s[2] == '=' && s[3] == '=' then 2
                 else if |s| == 4 && s[3] == '=' then 1
                 else 0;
      match DecodeGroup(s[..4], pad)
      case None => None
      case Some(head) =>
        match Decode(s[4..])
        case None => None
        case Some(tail) => Some(head + tail)
  }

  /** How two groups of bits share one symbol value `hi * 16 + lo`. */
  lemma Split16(hi: int, lo: int)
    requires 0 <= lo < 16 && 0 <= hi
    ensures (hi * 16 + lo) / 16 == hi && (hi * 16 + lo) % 16 == lo
  {
  }

  /** How two groups of bits share one symbol value `hi * 4 + lo`. */
  lemma Split4(hi: int, lo: int)
    requires 0 <= lo < 4 && 0 <= hi
    ensures (hi * 4 + lo) / 4 == hi && (hi * 4 + lo) % 4 == lo
  {
  }

  lemma Group3RoundTrip(b0: byte, b1: byte, b2: byte)
    ensures DecodeGroup(Group3(b0, b1, b2), 0) == Some([b0, b1, b2])
  {
    var a, b, c, d := b0 / 4, (b0 % 4) * 16 + b1 / 16, (b1 % 16) * 4 + b2 / 64, b2 % 64;
    IndexSym(a);
    IndexSym(b);
    IndexSym(c);
    IndexSym(d);
    Split16(b0 % 4, b1 / 16);
    Split4(b1 % 16, b2 / 64);
    assert a * 4 + b / 16 == b0;
    assert (b % 16) * 16 + c / 4 == b1;
    assert (c % 4) * 64 + d == b2;
    var g := Group3(b0, b1, b2);
    assert Index(g[0]) == Some(a) && Index(g[1]) == Some(b);
    assert Index(g[2]) == Some(c) && Index(g[3]) == Some(d);
    var bytes: seq<byte> := [b0, b1, b2];
    assert bytes[..3] == [b0, b1, b2];
  }

  lemma Group2RoundTrip(b0: byte, b1: byte)
    ensures DecodeGroup(Group2(b0, b1), 1) == Some([b0, b1])
  {
    var a, b, c := b0 / 4, (b0 % 4) * 16 + b1 / 16, (b1 % 16) * 4;
    IndexSym(a);
    IndexSym(b);
    IndexSym(c);
    Split16(b0 % 4, b1 / 16);
    Split4(b1 % 16, 0);
    assert a * 4 + b / 16 == b0;
    assert (b % 16) * 16 + c / 4 == b1;
    var g := Group2(b0, b1);
    assert Index(g[0]) == Some(a) && Index(g[1]) == Some(b) && Index(g[2]) == Some(c);
    var bytes: seq<byte> := [b0, b1, (c % 4) * 64];
    assert bytes[..2] == [b0, b1];
  }

  lemma Group1RoundTrip(b0: byte)
    ensures DecodeGroup(Group1(b0), 2) == Some([b0])
  {
    var a, b := b0 / 4, (b0 % 4) * 16;
    IndexSym(a);
    IndexSym(b);
    Split16(b0 % 4, 0);
    assert a * 4 + b / 16 == b0;
    var g := Group1(b0);
    assert Index(g[0]) == Some(a) && Index(g[1]) == Some(b);
    var bytes: seq<byte> := [b0, (b % 16) * 16, 0];
    assert bytes[..1] == [b0];
  }

  lemma DecodeFinal1(b0: byte)
    ensures Decode(Group1(b0)) == Some([b0])
  {
    var g := Group1(b0);
    Group1RoundTrip(b0);
    assert g[2] == '=' && g[3] == '=';
    assert g[..4] == g && g[4..] == [];
    assert [b0] + [] == [b0];
  }

  lemma DecodeFinal2(b0: byte, b1: byte)
    ensures Decode(Group2(b0, b1)) == Some([b0, b1])
  {
    var g := Group2(b0, b1);
    Group2RoundTrip(b0, b1);
    IndexSym((b1 % 16) * 4);
    assert g[2] != '=' && g[3] == '=';
    assert g[..4] == g && g[4..] == [];
    assert [b0, b1] + [] == [b0, b1];
  }

  lemma DecodeFull(b0: byte, b1: byte, b2: byte, rest: string)
    ensures Decode(Group3(b0, b1, b2) + rest)
         == match Decode(rest) case None => None case Some(t) => Some([b0, b1, b2] + t)
  {
    var g := Group3(b0, b1, b2);
    var s := g + rest;
    Group3RoundTrip(b0, b1, b2);
    IndexSym(b2 % 64);
    assert s[3] != '=';
    assert s[..4] == g && s[4..] == rest;
  }

  /** Decoding an encoding gives the bytes back. */
  lemma {:induction false} DecodeEncode(bs: seq<byte>)
    ensures Decode(Encode(bs)) == Some(bs)
  {
    if |bs| == 1 {
      DecodeFinal1(bs[0]);
      assert [bs[0]] == bs;
    } else if |bs| == 2 {
      DecodeFinal2(bs[0], bs[1]);
      assert [bs[0], bs[1]] == bs;
    } else if |bs| >= 3 {
      DecodeEncode(bs[3..]);
      DecodeFull(bs[0], bs[1], bs[2], Encode(bs[3..]));
      assert [bs[0], bs[1], bs[2]] + bs[3..] == bs;
    }
  }

  /** Whole groups of three bytes encode independently of what follows. */
  lemma {:induction false} EncodeAppend(a: seq<byte>, b: seq<byte>)
    requires |a| % 3 == 0
    ensures Encode(a + b) == Encode(a) + Encode(b)
    decreases |a|
  {
    if a == [] {
      assert a + b == b;
    } else {
      assert (a + b)[0] == a[0] && (a + b)[1] == a[1] && (a + b)[2] == a[2];
      assert (a + b)[3..] == a[3..] + b;
      EncodeAppend(a[3..], b);
      assert Encode(a + b) == Group3(a[0], a[1], a[2]) + (Encode(a[3..]) + Encode(b));
    }
  }
}
