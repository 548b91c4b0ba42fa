/** base64url text and the signed session token (api/auth.py).

    The text format is the URL-safe alphabet of section 5 of RFC 4648, its padding removed
    as section 3.2 allows. The MAC and the JSON codec are parameters. */
module SessionToken {
  import opened Helpers

  type Byte = x: int | 0 <= x < 256

  // ----- the alphabet -----

  function CharOf(v: int): char
    requires 0 <= v < 64
  {
    if v < 26 then ('A' as int + v) as char
    else if v < 52 then ('a' as int + v - 26) as char
    else if v < 62 then ('0' as int + v - 52) as char
    else if v == 62 then '-' else '_'
  }

  /** The value of a character. The decoder reads both alphabets: it maps `-_` to `+/`. */
  function ValueOf(c: char): Option<int> {
    if 'A' <= c <= 'Z' then Some(c as int - 'A' as int)
    else if 'a' <= c <= 'z' then Some(c as int - 'a' as int + 26)
    else if '0' <= c <= '9' then Some(c as int - '0' as int + 52)
    else if c == '-' || c == '+' then Some(62)
    else if c == '_' || c == '/' then Some(63)
    else None
  }

  lemma ValueOfChar(v: int)
    requires 0 <= v < 64
    ensures ValueOf(CharOf(v)) == Some(v)
    ensures CharOf(v) != '=' && CharOf(v) != '.'
  {
  }

  // ----- encode -----

  /** The library encoder, `base64.urlsafe_b64encode`, at the start of a group of three
      bytes, and after one and two bytes of it with the `left` bits still to write. */
  function Padded(data: seq<Byte>): string {
    if |data| == 0 then ""
    else [CharOf(data[0] / 4)] + PaddedAfterOne(data[1..], data[0] % 4)
  }

  function PaddedAfterOne(data: seq<Byte>, left: int): string
    requires 0 <= left < 4
  {
    if |data| == 0 then [CharOf(left * 16)] + "=="
    else [CharOf(left * 16 + data[0] / 16)] + PaddedAfterTwo(data[1..], data[0] % 16)
  }

  function PaddedAfterTwo(data: seq<Byte>, left: int): string
    requires 0 <= left < 16
  {
    if |data| == 0 then [CharOf(left * 4)] + "="
    else [CharOf(left * 4 + data[0] / 64)] + ([CharOf(data[0] % 64)] + Padded(data[1..]))
  }

  /** `rstrip("=")`. */
  function StripRight(s: string): string {
    if |s| > 0 && s[|s| - 1] == '=' then StripRight(s[..|s| - 1]) else s
  }

  /** `_b64url_encode`. */
  function Encode(data: seq<Byte>): string {
    StripRight(Padded(data))
  }

  // ----- decode -----

  /** The library decoder from a position: `quad` characters of the current group are
      read, `left` holds their spare bits, `pads` counts the padding. Characters outside
      the alphabet are skipped; padding that completes a group ends the text. */
  function Scan(s: string, quad: nat, left: int, pads: nat): Option<seq<int>>
    requires quad < 4
  {
    if |s| == 0 then (if quad == 0 then Some([]) else None)
    else if s[0] == '=' then
      if quad >= 2 && quad + pads + 1 >= 4 then Some([])
      else Scan(s[1..], quad, left, if quad >= 2 then pads + 1 else pads)
    else
      match ValueOf(s[0])
      case None => Scan(s[1..], quad, left, pads)
      case Some(v) =>
        match quad
        case 0 => Scan(s[1..], 1, v, 0)
        case 1 => Emit(left * 4 + v / 16, Scan(s[1..], 2, v % 16, 0))
        case 2 => Emit(left * 16 + v / 4, Scan(s[1..], 3, v % 4, 0))
        case _ => Emit(left * 64 + v, Scan(s[1..], 0, 0, 0))
  }

  function Emit(b: int, rest: Option<seq<int>>): Option<seq<int>> {
    if rest.None? then None else Some([b] + rest.value)
  }

  function Repeat(c: char, n: nat): string {
    seq(n, _ => c)
  }

  /** `_b64url_decode`: restore the padding, then decode; None is the library's error. */
  function Decode(s: string): Option<seq<int>> {
    var pad := 4 - |s| % 4;
    Scan(if pad != 4 then s + Repeat('=', pad) else s, 0, 0, 0)
  }

  // ----- the round trip -----

  /** One character of the alphabet. */
  lemma {:induction false} Shift(v: int, rest: string, quad: nat, left: int)
    requires 0 <= v < 64 && quad < 4
    ensures Scan([CharOf(v)] + rest, quad, left, 0)
         == match quad
            case 0 => Scan(rest, 1, v, 0)
            case 1 => Emit(left * 4 + v / 16, Scan(rest, 2, v % 16, 0))
            case 2 => Emit(left * 16 + v / 4, Scan(rest, 3, v % 4, 0))
            case _ => Emit(left * 64 + v, Scan(rest, 0, 0, 0))
  {
    ValueOfChar(v);
    var s := [CharOf(v)] + rest;
    assert s[0] == CharOf(v) && s[1..] == rest;
    hide CharOf, ValueOf, Emit;
  }

  lemma {:induction false} PaddingEnds(left: int)
    ensures Scan("==", 2, left, 0) == Some([])
    ensures Scan("=", 3, left, 0) == Some([])
  {
    assert "=="[1..] == "=";
    assert Scan("=", 2, left, 1) == Some([]);
  }

  /** The decoder reads back the encoder's output, from the start of a group and from
      after the first and the second byte of it, `b` being the byte still in progress. */
  lemma {:induction false} ScanPadded(data: seq<Byte>)
    ensures Scan(Padded(data), 0, 0, 0) == Some(data)
  {
    if |data| > 0 {
      Shift(data[0] / 4, PaddedAfterOne(data[1..], data[0] % 4), 0, 0);
      ScanAfterOne(data[1..], data[0]);
      assert data == [data[0]] + data[1..];
    }
    hide Scan;
  }

  lemma {:induction false} ScanAfterOne(data: seq<Byte>, b: Byte)
    ensures Scan(PaddedAfterOne(data, b % 4), 1, b / 4, 0) == Some([b] + data)
  {
    PaddingEnds(0);
    if |data| == 0 {
      Shift(b % 4 * 16, "==", 1, b / 4);
      FirstByte(b, 0);
    } else {
      var v := b % 4 * 16 + data[0] / 16;
      Shift(v, PaddedAfterTwo(data[1..], data[0] % 16), 1, b / 4);
      FirstByte(b, data[0]);
      ScanAfterTwo(data[1..], data[0]);
      assert data == [data[0]] + data[1..];
    }
    hide Scan;
  }

  lemma {:induction false} ScanAfterTwo(data: seq<Byte>, b: Byte)
    ensures Scan(PaddedAfterTwo(data, b % 16), 2, b / 16, 0) == Some([b] + data)
  {
    PaddingEnds(0);
    if |data| == 0 {
      Shift(b % 16 * 4, "=", 2, b / 16);
      SecondByte(b, 0);
    } else {
      var v, w := b % 16 * 4 + data[0] / 64, data[0] % 64;
      var rest := [CharOf(w)] + Padded(data[1..]);
      Shift(v, rest, 2, b / 16);
      Shift(w, Padded(data[1..]), 3, data[0] / 64);
      SecondByte(b, data[0]);
      ScanPadded(data[1..]);
      assert data == [data[0]] + data[1..];
    }
    hide Scan;
  }

  lemma FirstByte(b: Byte, c: Byte)
    ensures var v := b % 4 * 16 + c / 16; b / 4 * 4 + v / 16 == b && v % 16 == c / 16
  {
  }

  lemma SecondByte(b: Byte, c: Byte)
    ensures var v := b % 16 * 4 + c / 64; b / 16 * 16 + v / 4 == b && v % 4 == c / 64
  {
  }

  /** The text before the padding. */
  ghost predicate Plain(s: string) {
    forall k | 0 <= k < |s| :: s[k] != '=' && s[k] != '.'
  }

  /** Plain characters, then `pad` padding characters; `n` characters short of a
      multiple of four. */
  ghost predicate PadsTo(s: string, n: nat, pad: nat) {
    && pad < 3 && pad <= |s| && (|s| + n) % 4 == 0
    && Plain(s[..|s| - pad]) && s[|s| - pad..] == Repeat('=', pad)
  }

  lemma OneMore(v: int, s: string, n: nat, pad: nat)
    requires 0 <= v < 64 && n > 0 && PadsTo(s, n, pad)
    ensures PadsTo([CharOf(v)] + s, n - 1, pad)
  {
    ValueOfChar(v);
    hide CharOf;
    var t := [CharOf(v)] + s;
    assert t[..|t| - pad] == [CharOf(v)] + s[..|s| - pad];
    assert t[|t| - pad..] == s[|s| - pad..];
  }

  /** Two more characters, with a group boundary behind them. */
  lemma TwoMore(v: int, w: int, s: string, pad: nat)
    requires 0 <= v < 64 && 0 <= w < 64 && PadsTo(s, 0, pad)
    ensures PadsTo([CharOf(v)] + ([CharOf(w)] + s), 2, pad)
  {
    hide CharOf;
    assert PadsTo(s, 4, pad);
    OneMore(w, s, 4, pad);
    OneMore(v, [CharOf(w)] + s, 3, pad);
  }

  /** The padding of an encoding, by the bytes in the last group. */
  function PadCount(n: nat): nat {
    (3 - n % 3) % 3
  }

  lemma PadCycle(n: nat)
    ensures PadCount(0) == 0 && PadCount(1) == 2 && PadCount(2) == 1
    ensures n > 0 ==> PadCount(n + 2) == PadCount(n - 1)
  {
  }

  lemma {:induction false} PaddedPads(data: seq<Byte>)
    ensures PadsTo(Padded(data), 0, PadCount(|data|))
  {
    hide PadsTo, CharOf, PadCount;
    PadCycle(|data|);
    if |data| == 0 {
      Ends();
    } else {
      PaddedPadsAfterOne(data[1..], data[0] % 4);
      OneMore(data[0] / 4, PaddedAfterOne(data[1..], data[0] % 4), 1, PadCount(|data|));
    }
  }

  lemma {:induction false} PaddedPadsAfterOne(data: seq<Byte>, left: int)
    requires 0 <= left < 4
    ensures PadsTo(PaddedAfterOne(data, left), 1, PadCount(|data| + 1))
  {
    hide PadsTo, CharOf, PadCount;
    PadCycle(|data|);
    if |data| == 0 {
      Ends();
      OneMore(left * 16, "==", 2, 2);
    } else {
      PaddedPadsAfterTwo(data[1..], data[0] % 16);
      OneMore(left * 16 + data[0] / 16, PaddedAfterTwo(data[1..], data[0] % 16), 2, PadCount(|data| + 1));
    }
  }

  /** The end of a text whose last group has two bytes. */
  function LastOfTwo(left: int): string
    requires 0 <= left < 16
  {
    [CharOf(left * 4)] + "="
  }

  lemma LastOfTwoPads(left: int)
    requires 0 <= left < 16
    ensures PadsTo(LastOfTwo(left), 2, 1)
  {
    hide PadsTo, CharOf;
    Ends();
    OneMore(left * 4, "=", 3, 1);
  }

  /** The tail of a group: its last two characters before the text of the rest. */
  function GroupEnd(left: int, b: Byte, rest: string): string
    requires 0 <= left < 16
  {
    [CharOf(left * 4 + b / 64)] + ([CharOf(b % 64)] + rest)
  }

  lemma {:induction false} AfterTwoUnfolds(data: seq<Byte>, left: int)
    requires 0 <= left < 16
    ensures |data| == 0 ==> PaddedAfterTwo(data, left) == LastOfTwo(left)
    ensures |data| > 0 ==> PaddedAfterTwo(data, left) == GroupEnd(left, data[0], Padded(data[1..]))
  {
  }

  lemma GroupEndPads(left: int, b: Byte, rest: string, pad: nat)
    requires 0 <= left < 16 && PadsTo(rest, 0, pad)
    ensures PadsTo(GroupEnd(left, b, rest), 2, pad)
  {
    hide PadsTo, CharOf;
    TwoMore(left * 4 + b / 64, b % 64, rest, pad);
  }

  lemma {:induction false} PaddedPadsAfterTwo(data: seq<Byte>, left: int)
    requires 0 <= left < 16
    ensures PadsTo(PaddedAfterTwo(data, left), 2, PadCount(|data| + 2))
  {
    hide PadsTo, CharOf, PadCount, Padded, PaddedAfterTwo, GroupEnd, LastOfTwo;
    AfterTwoUnfolds(data, left);
    PadCycle(|data|);
    if |data| == 0 {
      LastOfTwoPads(left);
    } else {
      PaddedPads(data[1..]);
      GroupEndPads(left, data[0], Padded(data[1..]), PadCount(|data| - 1));
    }
  }

  lemma Ends()
    ensures PadsTo("", 0, 0) && PadsTo("=", 3, 1) && PadsTo("==", 2, 2)
  {
    assert ""[0..] == Repeat('=', 0);
    assert "="[0..] == Repeat('=', 1);
    assert "=="[0..] == Repeat('=', 2);
  }

  lemma {:induction false} StripPadding(s: string, n: nat)
    requires |s| > 0 ==> s[|s| - 1] != '='
    ensures StripRight(s + Repeat('=', n)) == s
  {
    if n == 0 {
      assert s + Repeat('=', n) == s;
    } else {
      assert (s + Repeat('=', n))[..|s| + n - 1] == s + Repeat('=', n - 1);
      StripPadding(s, n - 1);
    }
  }

  /** The text is the encoder's output without its padding, which its length gives back. */
  lemma {:induction false} EncodeShape(data: seq<Byte>)
    ensures Plain(Encode(data))
    ensures |Encode(data)| % 4 != 1
    ensures Padded(data) == Encode(data) + Repeat('=', (4 - |Encode(data)| % 4) % 4)
    ensures |Encode(data)| == |Padded(data)| - PadCount(|data|)
  {
    PaddedPads(data);
    StripShape(Padded(data), PadCount(|data|));
  }

  lemma {:induction false} StripShape(s: string, pad: nat)
    requires PadsTo(s, 0, pad)
    ensures var t := StripRight(s);
            && Plain(t) && |t| % 4 != 1 && s == t + Repeat('=', (4 - |t| % 4) % 4)
            && |t| == |s| - pad
  {
    var text := s[..|s| - pad];
    assert s == text + Repeat('=', pad);
    StripPadding(text, pad);
    PadFromLength(|text|, pad);
    hide StripRight, Repeat, Plain;
  }

  lemma PadFromLength(n: nat, pad: nat)
    requires (n + pad) % 4 == 0 && pad < 3
    ensures n % 4 != 1 && pad == (4 - n % 4) % 4
  {
  }

  /** The round trip, for every byte string. */
  lemma RoundTrip(data: seq<Byte>)
    ensures Decode(Encode(data)) == Some(data)
  {
    EncodeShape(data);
    ScanPadded(data);
    hide Scan, Padded, Encode;
    var s := Encode(data);
    assert s + Repeat('=', 0) == s;
  }

  /** Different bytes have different texts. */
  lemma EncodeInjective(a: seq<Byte>, b: seq<Byte>)
    requires Encode(a) == Encode(b)
    ensures a == b
  {
    RoundTrip(a);
    RoundTrip(b);
    hide Encode, Decode;
  }

  lemma EncodeHasNoDot(data: seq<Byte>)
    ensures '.' !in Encode(data)
  {
    EncodeShape(data);
    hide Encode;
  }

  // ----- which characters it writes -----

  const UPPER := "ABCDEFGHIJKLMNOPQRSTUVWXYZ"
  const LOWER := "abcdefghijklmnopqrstuvwxyz"
  const DIGITS := "0123456789"

  /** Table 2 of RFC 4648, section 5. */
  const ALPHABET := UPPER + LOWER + DIGITS + "-_"

  function ByteAt(data: seq<Byte>, i: nat): Byte {
    if i < |data| then data[i] else 0
  }

  /** The `k`-th six bits of the bytes, zeros after their end. */
  function Sextet(data: seq<Byte>, k: nat): (v: int)
    ensures 0 <= v < 64
  {
    var i := k / 4 * 3;
    match k % 4
    case 0 => ByteAt(data, i) / 4
    case 1 => ByteAt(data, i) % 4 * 16 + ByteAt(data, i + 1) / 16
    case 2 => ByteAt(data, i + 1) % 16 * 4 + ByteAt(data, i + 2) / 64
    case _ => ByteAt(data, i + 2) % 64
  }

  lemma UpperInOrder(i: nat)
    requires i < 26
    ensures |UPPER| == 26 && UPPER[i] == ('A' as int + i) as char
  {
    assert i < 13 || i >= 13;
  }

  lemma LowerInOrder(i: nat)
    requires i < 26
    ensures |LOWER| == 26 && LOWER[i] == ('a' as int + i) as char
  {
    assert i < 13 || i >= 13;
  }

  lemma DigitsInOrder(i: nat)
    requires i < 10
    ensures |DIGITS| == 10 && DIGITS[i] == ('0' as int + i) as char
  {
  }

  lemma CharIsOfAlphabet(v: int)
    requires 0 <= v < 64
    ensures |ALPHABET| == 64 && CharOf(v) == ALPHABET[v]
  {
    hide UPPER, LOWER, DIGITS;
    UpperInOrder(if v < 26 then v else 0);
    LowerInOrder(if 26 <= v < 52 then v - 26 else 0);
    DigitsInOrder(if 52 <= v < 62 then v - 52 else 0);
  }

  lemma SextetOfRest(data: seq<Byte>, k: nat)
    requires |data| >= 3
    ensures Sextet(data, k + 4) == Sextet(data[3..], k)
  {
    assert (k + 4) / 4 == k / 4 + 1 && (k + 4) % 4 == k % 4;
  }

  lemma FourInFront(a: char, b: char, c: char, d: char, rest: string)
    ensures [a] + ([b] + ([c] + ([d] + rest))) == [a, b, c, d] + rest
  {
  }

  lemma {:induction false} AfterOneUnfolds(data: seq<Byte>, left: int)
    requires 0 <= left < 4 && |data| > 0
    ensures PaddedAfterOne(data, left) == [CharOf(left * 16 + data[0] / 16)] + PaddedAfterTwo(data[1..], data[0] % 16)
  {
    hide CharOf, PaddedAfterTwo;
  }

  lemma {:induction false} GroupUnfolds(data: seq<Byte>)
    requires |data| >= 3
    ensures Padded(data) == [CharOf(data[0] / 4)] + ([CharOf(data[0] % 4 * 16 + data[1] / 16)]
              + GroupEnd(data[1] % 16, data[2], Padded(data[3..])))
  {
    hide CharOf, PaddedAfterOne, PaddedAfterTwo, GroupEnd;
    var one := data[1..];
    var two := one[1..];
    assert two[1..] == data[3..] && one[0] == data[1] && two[0] == data[2];
    AfterOneUnfolds(one, data[0] % 4);
    AfterTwoUnfolds(two, data[1] % 16);
  }

  lemma SextetsOfGroup(data: seq<Byte>)
    requires |data| >= 3
    ensures Sextet(data, 0) == data[0] / 4 && Sextet(data, 1) == data[0] % 4 * 16 + data[1] / 16
    ensures Sextet(data, 2) == data[1] % 16 * 4 + data[2] / 64 && Sextet(data, 3) == data[2] % 64
  {
  }

  lemma {:induction false} PaddedGroup(data: seq<Byte>)
    requires |data| >= 3
    ensures Padded(data) == [CharOf(Sextet(data, 0)), CharOf(Sextet(data, 1)),
                             CharOf(Sextet(data, 2)), CharOf(Sextet(data, 3))] + Padded(data[3..])
  {
    hide CharOf, Padded, Sextet;
    GroupUnfolds(data);
    SextetsOfGroup(data);
    FourInFront(CharOf(data[0] / 4), CharOf(data[0] % 4 * 16 + data[1] / 16),
                CharOf(data[1] % 16 * 4 + data[2] / 64), CharOf(data[2] % 64), Padded(data[3..]));
  }

  lemma {:induction false} PaddedEnd(data: seq<Byte>)
    requires |data| < 3
    ensures |Padded(data)| == (|data| + 2) / 3 * 4
    ensures forall k | 0 <= k < (4 * |data| + 2) / 3 :: Padded(data)[k] == CharOf(Sextet(data, k))
  {
    hide CharOf;
    if |data| > 0 {
      var one := data[1..];
      assert Padded(data) == [CharOf(data[0] / 4)] + PaddedAfterOne(one, data[0] % 4);
      if |data| == 2 {
        assert one[0] == data[1];
        assert PaddedAfterTwo(one[1..], data[1] % 16) == [CharOf(data[1] % 16 * 4)] + "=";
        assert PaddedAfterOne(one, data[0] % 4)
            == [CharOf(data[0] % 4 * 16 + data[1] / 16)] + ([CharOf(data[1] % 16 * 4)] + "=");
      } else {
        assert PaddedAfterOne(one, data[0] % 4) == [CharOf(data[0] % 4 * 16)] + "==";
      }
    }
  }

  lemma {:induction false} PaddedSpells(data: seq<Byte>, k: nat)
    ensures |Padded(data)| == (|data| + 2) / 3 * 4
    ensures k < (4 * |data| + 2) / 3 ==> k < |Padded(data)| && Padded(data)[k] == CharOf(Sextet(data, k))
  {
    hide Padded, CharOf, Sextet;
    if |data| < 3 {
      PaddedEnd(data);
    } else {
      PaddedGroup(data);
      if k >= 4 {
        PaddedSpells(data[3..], k - 4);
        SextetOfRest(data, k - 4);
      } else {
        PaddedSpells(data[3..], 0);
      }
    }
  }

  /** The text is the bytes, six bits a character, in the URL-safe alphabet. */
  lemma EncodeSpells(data: seq<Byte>, k: nat)
    ensures |Encode(data)| == (4 * |data| + 2) / 3
    ensures k < |Encode(data)| ==> |ALPHABET| == 64 && Encode(data)[k] == ALPHABET[Sextet(data, k)]
  {
    hide Padded, Encode, Repeat, Sextet;
    EncodeShape(data);
    PaddedSpells(data, k);
    CharIsOfAlphabet(Sextet(data, k));
  }

  // ----- the token -----

  datatype Payload = Payload(sub: string, iat: int, exp: Option<int>)

  /** `_mint_session_token`. `now` is the whole second the clock shows. */
  function Mint(key: string, mac: (string, string) -> seq<Byte>, dump: Payload -> seq<Byte>,
                subject: string, now: int, ttl: int): string
  {
    var body := Encode(dump(Payload(subject, now, Some(now + ttl))));
    body + "." + Encode(mac(key, body))
  }

  /** `token.rsplit(".", 1)`: the position of the last dot. */
  function LastDot(token: string): (r: Option<nat>)
    ensures r.None? ==> '.' !in token
    ensures r.Some? ==> r.value < |token| && token[r.value] == '.' && '.' !in token[r.value + 1..]
  {
    if |token| == 0 then None
    else if token[|token| - 1] == '.' then Some(|token| - 1)
    else
      var front := token[..|token| - 1];
      assert token == front + [token[|token| - 1]];
      var r := LastDot(front);
      assert r.Some? ==> token[r.value + 1..] == front[r.value + 1..] + [token[|token| - 1]];
      r
  }

  /** `_verify_session_token` at time `t`. */
  function Verify(key: string, mac: (string, string) -> seq<Byte>, load: seq<int> -> Option<Payload>,
                  token: string, t: real): Option<Payload>
  {
    match LastDot(token)
    case None => None
    case Some(dot) =>
      var body, sig := token[..dot], token[dot + 1..];
      if sig != Encode(mac(key, body)) then None
      else
        match Decode(body)
        case None => None
        case Some(bytes) =>
          match load(bytes)
          case None => None
          case Some(payload) =>
            if (if payload.exp.Some? then payload.exp.value else 0) as real < t then None
            else Some(payload)
  }

  lemma {:induction false} LastDotIs(token: string, k: nat)
    requires k < |token| && token[k] == '.' && '.' !in token[k + 1..]
    ensures LastDot(token) == Some(k)
  {
    if k < |token| - 1 {
      var tail := token[k + 1..];
      assert tail[|tail| - 1] == token[|token| - 1];
      var front := token[..|token| - 1];
      assert front[k + 1..] == tail[..|tail| - 1];
      LastDotIs(front, k);
    }
  }

  lemma {:induction false} SplitAtLastDot(body: string, sig: string)
    requires '.' !in sig
    ensures LastDot(body + "." + sig) == Some(|body|)
    ensures (body + "." + sig)[..|body|] == body
    ensures (body + "." + sig)[|body| + 1..] == sig
  {
    var token := body + "." + sig;
    assert token[|body| + 1..] == sig;
    LastDotIs(token, |body|);
    hide LastDot;
  }

  /** A minted token verifies to its own payload under the same key exactly until it
      expires, the last second included. */
  lemma MintedTokenVerifies(key: string, mac: (string, string) -> seq<Byte>, dump: Payload -> seq<Byte>,
                            load: seq<int> -> Option<Payload>, subject: string, now: int, ttl: int, t: real)
    requires forall p: Payload :: load(dump(p)) == Some(p)
    ensures Verify(key, mac, load, Mint(key, mac, dump, subject, now, ttl), t)
         == if t <= (now + ttl) as real then Some(Payload(subject, now, Some(now + ttl))) else None
  {
    var p := Payload(subject, now, Some(now + ttl));
    var body := Encode(dump(p));
    var sig := Encode(mac(key, body));
    EncodeHasNoDot(mac(key, body));
    SplitAtLastDot(body, sig);
    RoundTrip(dump(p));
    hide LastDot, Encode, Decode;
    assert load(dump(p)) == Some(p);
  }

  /** Exactly which tokens are accepted, and with what: a body with its own signature behind
      the last dot, that decodes to a payload which has not expired. */
  lemma AcceptsExactly(key: string, mac: (string, string) -> seq<Byte>, load: seq<int> -> Option<Payload>,
                       token: string, t: real, p: Payload)
    ensures Verify(key, mac, load, token, t) == Some(p) <==>
            exists body: string ::
              && token == body + "." + Encode(mac(key, body))
              && Decode(body).Some? && load(Decode(body).value) == Some(p)
              && (if p.exp.Some? then p.exp.value else 0) as real >= t
  {
    hide Encode, Decode;
    if Verify(key, mac, load, token, t) == Some(p) {
      AcceptedTokenIsSigned(key, mac, load, token, t);
    }
    if body: string :| token == body + "." + Encode(mac(key, body))
                       && Decode(body).Some? && load(Decode(body).value) == Some(p)
                       && (if p.exp.Some? then p.exp.value else 0) as real >= t {
      EncodeHasNoDot(mac(key, body));
      SplitAtLastDot(body, Encode(mac(key, body)));
    }
  }

  /** Every accepted token carries its body's own signature, decodes to the payload it
      returns, and has not expired. */
  lemma AcceptedTokenIsSigned(key: string, mac: (string, string) -> seq<Byte>, load: seq<int> -> Option<Payload>,
                              token: string, t: real)
    requires Verify(key, mac, load, token, t).Some?
    ensures exists body: string ::
              && token == body + "." + Encode(mac(key, body))
              && Decode(body).Some?
              && load(Decode(body).value) == Verify(key, mac, load, token, t)
    ensures var p := Verify(key, mac, load, token, t).value;
            (if p.exp.Some? then p.exp.value else 0) as real >= t
  {
    hide Encode, Decode;
    var dot := LastDot(token).value;
    var body := token[..dot];
    assert token == body + "." + token[dot + 1..];
  }

  /** Under another key the token is refused, unless the two keys sign its body alike. */
  lemma OtherKeyRefuses(key: string, other: string, mac: (string, string) -> seq<Byte>,
                        dump: Payload -> seq<Byte>, load: seq<int> -> Option<Payload>,
                        subject: string, now: int, ttl: int, t: real)
    requires var body := Encode(dump(Payload(subject, now, Some(now + ttl))));
             mac(key, body) != mac(other, body)
    ensures Verify(other, mac, load, Mint(key, mac, dump, subject, now, ttl), t) == None
  {
    var body := Encode(dump(Payload(subject, now, Some(now + ttl))));
    EncodeHasNoDot(mac(key, body));
    SplitAtLastDot(body, Encode(mac(key, body)));
    if Encode(mac(key, body)) == Encode(mac(other, body)) {
      EncodeInjective(mac(key, body), mac(other, body));
    }
    hide LastDot, Encode, Decode;
  }
}
