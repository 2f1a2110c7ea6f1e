/** base64url with padding (section 5 of RFC 4648), over sequences of octets. */
module Base64Url {
  import opened Wrappers

  type Octet = n: int | 0 <= n < 256

  function ValueOf(c: char): Option<nat> {
    if 'A' <= c <= 'Z' then Some((c - 'A') as int)
    else if 'a' <= c <= 'z' then Some((c - 'a') as int + 26)
    else if '0' <= c <= '9' then Some((c - '0') as int + 52)
    else if c == '-' then Some(62)
    else if c == '_' then Some(63)
    else None
  }

  function CharOf(v: nat): char
    requires v < 64
  {
    if v < 26 then 'A' + v as char
    else if v < 52 then 'a' + (v - 26) as char
    else if v < 62 then '0' + (v - 52) as char
    else if v == 62 then '-'
    else '_'
  }

  lemma CharRoundTrip(v: nat)
    requires v < 64
    ensures ValueOf(CharOf(v)) == Some(v) && CharOf(v) != '='
  {
  }

  function Encode(b: seq<Octet>): string {
    if |b| == 0 then ""
    else if |b| == 1 then
      [CharOf(b[0] / 4), CharOf(b[0] % 4 * 16), '=', '=']
    else if |b| == 2 then
      [CharOf(b[0] / 4), CharOf(b[0] % 4 * 16 + b[1] / 16), CharOf(b[1] % 16 * 4), '=']
    else
      [CharOf(b[0] / 4), CharOf(b[0] % 4 * 16 + b[1] / 16),
       CharOf(b[1] % 16 * 4 + b[2] / 64), CharOf(b[2] % 64)] + Encode(b[3..])
  }

  function Join(hi: nat, lo: nat, weight: nat): Octet
    requires weight > 0
  {
    (hi * weight + lo) % 256
  }

  function Decode(s: string): Option<seq<Octet>> {
    if s == "" then Some([])
    else if |s| < 4 then None
    else
      match (ValueOf(s[0]), ValueOf(s[1]))
      case (Some(v), Some(w)) =>
        if s[2] == '=' then
          if |s| == 4 && s[3] == '=' then Some([Join(v, w / 16, 4)]) else None
        else
          (match ValueOf(s[2])
           case Some(x) =>
             if s[3] == '=' then
               if |s| == 4 then Some([Join(v, w / 16, 4), Join(w, x / 4, 16)]) else None
             else
               (match (ValueOf(s[3]), Decode(s[4..]))
                case (Some(y), Some(rest)) =>
                  Some([Join(v, w / 16, 4), Join(w, x / 4, 16), Join(x, y, 64)] + rest)
                case _ => None)
           case None => None)
      case _ => None
  }

  lemma JoinFirst(b: Octet, c: Octet)
    ensures Join(b / 4, (b % 4 * 16 + c / 16) / 16, 4) == b
  {
    assert (b % 4 * 16 + c / 16) / 16 == b % 4;
  }

  lemma JoinSecond(b: Octet, c: Octet, d: Octet)
    ensures Join(b % 4 * 16 + c / 16, (c % 16 * 4 + d / 64) / 4, 16) == c
  {
    assert (c % 16 * 4 + d / 64) / 4 == c % 16;
    assert (b % 4 * 16 + c / 16) * 16 + c % 16 == b % 4 * 256 + c;
  }

  lemma JoinThird(c: Octet, d: Octet)
    ensures Join(c % 16 * 4 + d / 64, d % 64, 64) == d
  {
    assert (c % 16 * 4 + d / 64) * 64 + d % 64 == c % 16 * 256 + d;
  }

  lemma OneOctet(b: Octet)
    ensures Decode(Encode([b])) == Some([b])
  {
    CharRoundTrip(b / 4);
    CharRoundTrip(b % 4 * 16);
    JoinFirst(b, 0);
  }

  lemma TwoOctets(b: Octet, c: Octet)
    ensures Decode(Encode([b, c])) == Some([b, c])
  {
    CharRoundTrip(b / 4);
    CharRoundTrip(b % 4 * 16 + c / 16);
    CharRoundTrip(c % 16 * 4);
    JoinFirst(b, c);
    JoinSecond(b, c, 0);
  }

  lemma DecodeFour(v: nat, w: nat, x: nat, y: nat, more: string, rest: seq<Octet>)
    requires v < 64 && w < 64 && x < 64 && y < 64
    requires Decode(more) == Some(rest)
    ensures Decode([CharOf(v), CharOf(w), CharOf(x), CharOf(y)] + more)
      == Some([Join(v, w / 16, 4), Join(w, x / 4, 16), Join(x, y, 64)] + rest)
  {
    CharRoundTrip(v);
    CharRoundTrip(w);
    CharRoundTrip(x);
    CharRoundTrip(y);
    assert ([CharOf(v), CharOf(w), CharOf(x), CharOf(y)] + more)[4..] == more;
  }

  predicate RoundTrips(b: seq<Octet>) {
    Decode(Encode(b)) == Some(b)
  }

  lemma ThreeOctets(b: Octet, c: Octet, d: Octet, rest: seq<Octet>)
    requires RoundTrips(rest)
    ensures RoundTrips([b, c, d] + rest)
  {
    DecodeFour(b / 4, b % 4 * 16 + c / 16, c % 16 * 4 + d / 64, d % 64, Encode(rest), rest);
    JoinFirst(b, c);
    JoinSecond(b, c, d);
    JoinThird(c, d);
    assert ([b, c, d] + rest)[3..] == rest;
  }

  lemma LastOctets(b: seq<Octet>)
    requires 1 <= |b| <= 2
    ensures RoundTrips(b)
  {
    if |b| == 1 {
      OneOctet(b[0]);
      assert b == [b[0]];
    } else {
      TwoOctets(b[0], b[1]);
      assert b == [b[0], b[1]];
    }
  }

  lemma {:induction false} AllRoundTrip(b: seq<Octet>)
    ensures RoundTrips(b)
  {
    if |b| > 2 {
      AllRoundTrip(b[3..]);
      ThreeOctets(b[0], b[1], b[2], b[3..]);
      assert [b[0], b[1], b[2]] + b[3..] == b;
    } else if b != [] {
      LastOctets(b);
    }
  }

  lemma DecodeEncode(b: seq<Octet>)
    ensures Decode(Encode(b)) == Some(b)
  {
    AllRoundTrip(b);
  }

  /** Section 10 of RFC 4648, and the two characters of section 5. */
  lemma Vectors()
    ensures Encode([]) == ""
    ensures Encode([102]) == "Zg==" && Encode([102, 111]) == "Zm8=" && Encode([102, 111, 111]) == "Zm9v"
    ensures Encode([251, 255]) == "-_8="
  {
    assert [102, 111, 111][3..] == [];
    assert Encode([102, 111, 111]) == [CharOf(25), CharOf(38), CharOf(61), CharOf(47)] + Encode([]);
  }
}
