/** What the token decoder makes of any text, not only of an encoding: which characters it
    reads, which it skips, and which bytes it finds. */
module SessionDecode {
  import opened Helpers
  import opened SessionToken

  // ----- the characters that are read -----

  /** The position of a character in the alphabet; '+' and '/' read as '-' and '_'. */
  function SextetOf(c: char): Option<int> {
    if 'A' <= c <= 'Z' then Some(c as int - 65)
    else if 'a' <= c <= 'z' then Some(c as int - 71)
    else if '0' <= c <= '9' then Some(c as int + 4)
    else if c in "-+" then Some(62)
    else if c in "_/" then Some(63)
    else None
  }

  /** The text without the characters that stand for nothing. */
  function Read(s: string): string {
    if s == "" then ""
    else if SextetOf(s[0]).Some? || s[0] == '=' then [s[0]] + Read(s[1..])
    else Read(s[1..])
  }

  lemma ValueIsSextet(c: char)
    ensures ValueOf(c) == SextetOf(c)
    ensures ValueOf(c).Some? ==> 0 <= ValueOf(c).value < 64 && c != '='
  {
  }

  lemma {:induction false} ScanRead(s: string, quad: nat, left: int, pads: nat)
    requires quad < 4
    ensures Scan(Read(s), quad, left, pads) == Scan(s, quad, left, pads)
  {
    hide ValueOf, SextetOf;
    if s != "" {
      var c, rest := s[0], s[1..];
      ValueIsSextet(c);
      if SextetOf(c).Some? || c == '=' {
        var kept := [c] + Read(rest);
        assert kept[0] == c && kept[1..] == Read(rest);
        if c == '=' {
          ScanRead(rest, quad, left, if quad >= 2 then pads + 1 else pads);
        } else {
          var v := ValueOf(c).value;
          var over := match quad case 0 => v case 1 => v % 16 case 2 => v % 4 case _ => 0;
          ScanRead(rest, (quad + 1) % 4, over, 0);
        }
      } else {
        ScanRead(rest, quad, left, pads);
      }
    }
  }

  lemma {:induction false} ReadPadding(s: string, n: nat)
    ensures Read(s + Repeat('=', n)) == Read(s) + Repeat('=', n)
  {
    if s == "" {
      assert "" + Repeat('=', n) == Repeat('=', n);
      ReadAllPadding(n);
    } else {
      ReadPadding(s[1..], n);
      assert (s + Repeat('=', n))[1..] == s[1..] + Repeat('=', n);
    }
  }

  lemma {:induction false} ReadAllPadding(n: nat)
    ensures Read(Repeat('=', n)) == Repeat('=', n)
  {
    if n > 0 {
      ReadAllPadding(n - 1);
      assert Repeat('=', n)[1..] == Repeat('=', n - 1);
      assert [Repeat('=', n)[0]] + Repeat('=', n - 1) == Repeat('=', n);
    }
  }

  /** The decoder sees of a text only its length, by which it pads, and the characters that
      stand for something: two texts alike in these decode alike, or fail alike. */
  lemma {:induction false} JunkIsSkipped(s: string, t: string)
    requires Read(s) == Read(t) && |s| % 4 == |t| % 4
    ensures Decode(s) == Decode(t)
  {
    hide Scan, Read;
    var pad := 4 - |s| % 4;
    ScanRead(s, 0, 0, 0);
    ScanRead(t, 0, 0, 0);
    if pad != 4 {
      ReadPadding(s, pad);
      ReadPadding(t, pad);
      ScanRead(s + Repeat('=', pad), 0, 0, 0);
      ScanRead(t + Repeat('=', pad), 0, 0, 0);
    }
  }

  // ----- the bytes of a clean text -----

  ghost predicate Clean(s: string) {
    forall i | 0 <= i < |s| :: SextetOf(s[i]).Some?
  }

  function At(s: string, i: nat): int {
    if i < |s| && SextetOf(s[i]).Some? then SextetOf(s[i]).value else 0
  }

  /** Eight bits at position `8 * k` of the text, six bits a character. */
  function ByteOf(s: string, k: nat): int {
    var i := k / 3 * 4;
    match k % 3
    case 0 => At(s, i) * 4 + At(s, i + 1) / 16
    case 1 => At(s, i + 1) % 16 * 16 + At(s, i + 2) / 4
    case _ => At(s, i + 2) % 4 * 64 + At(s, i + 3)
  }

  /** One character of the alphabet. */
  lemma {:induction false} ScanOne(c: char, rest: string, quad: nat, left: int)
    requires quad < 4 && SextetOf(c).Some?
    ensures Scan([c] + rest, quad, left, 0)
         == match quad
            case 0 => Scan(rest, 1, SextetOf(c).value, 0)
            case 1 => Emit(left * 4 + SextetOf(c).value / 16, Scan(rest, 2, SextetOf(c).value % 16, 0))
            case 2 => Emit(left * 16 + SextetOf(c).value / 4, Scan(rest, 3, SextetOf(c).value % 4, 0))
            case _ => Emit(left * 64 + SextetOf(c).value, Scan(rest, 0, 0, 0))
  {
    ValueIsSextet(c);
    var s := [c] + rest;
    assert s[0] == c && s[1..] == rest;
    hide ValueOf, SextetOf, Emit;
  }

  ghost predicate Gives(bytes: seq<int>, s: string, n: nat) {
    |bytes| == n && forall k | 0 <= k < n :: bytes[k] == ByteOf(s, k)
  }

  lemma {:induction false} ScanGroup(s: string, pad: string)
    requires |s| >= 4 && Clean(s)
    ensures Scan(s + pad, 0, 0, 0)
         == Emit(ByteOf(s, 0), Emit(ByteOf(s, 1), Emit(ByteOf(s, 2), Scan(s[4..] + pad, 0, 0, 0))))
  {
    hide Scan, Emit, SextetOf;
    var rest := s[4..] + pad;
    var three, two, one := [s[3]] + rest, [s[2]] + ([s[3]] + rest), [s[1]] + ([s[2]] + ([s[3]] + rest));
    assert s + pad == [s[0]] + one;
    ScanOne(s[0], one, 0, 0);
    ScanOne(s[1], two, 1, At(s, 0));
    ScanOne(s[2], three, 2, At(s, 1) % 16);
    ScanOne(s[3], rest, 3, At(s, 2) % 4);
  }

  lemma {:induction false} ScanTwo(s: string)
    requires |s| == 2 && Clean(s)
    ensures Scan(s + "==", 0, 0, 0) == Some([ByteOf(s, 0)])
  {
    hide SextetOf, Scan;
    assert [ByteOf(s, 0)] + [] == [ByteOf(s, 0)];
    assert s + "==" == [s[0]] + ([s[1]] + "==");
    ScanOne(s[0], [s[1]] + "==", 0, 0);
    ScanOne(s[1], "==", 1, At(s, 0));
    PaddingEnds(At(s, 1) % 16);
  }

  lemma {:induction false} ScanThree(s: string)
    requires |s| == 3 && Clean(s)
    ensures Scan(s + "=", 0, 0, 0) == Some([ByteOf(s, 0), ByteOf(s, 1)])
  {
    hide SextetOf, Scan;
    assert [ByteOf(s, 0)] + ([ByteOf(s, 1)] + []) == [ByteOf(s, 0), ByteOf(s, 1)];
    assert s + "=" == [s[0]] + ([s[1]] + ([s[2]] + "="));
    ScanOne(s[0], [s[1]] + ([s[2]] + "="), 0, 0);
    ScanOne(s[1], [s[2]] + "=", 1, At(s, 0));
    ScanOne(s[2], "=", 2, At(s, 1) % 16);
    PaddingEnds(At(s, 2) % 4);
  }

  lemma {:induction false} ScanLone(s: string)
    requires |s| == 1 && Clean(s)
    ensures Scan(s + "===", 0, 0, 0).None?
  {
    hide SextetOf;
    assert s + "===" == [s[0]] + "===";
    ScanOne(s[0], "===", 0, 0);
    assert "==="[1..] == "==" && "=="[1..] == "=" && "="[1..] == "";
    assert Scan("=", 1, At(s, 0), 0).None?;
    assert Scan("==", 1, At(s, 0), 0).None?;
  }

  /** The padding that `Decode` restores. */
  function Padding(n: nat): string {
    if n % 4 == 0 then "" else Repeat('=', 4 - n % 4)
  }

  lemma PaddingIs(n: nat)
    ensures n % 4 == 1 ==> Padding(n) == "==="
    ensures n % 4 == 2 ==> Padding(n) == "=="
    ensures n % 4 == 3 ==> Padding(n) == "="
  {
  }

  lemma GivesMore(s: string, rest: seq<int>, n: nat)
    requires |s| >= 4 && Gives(rest, s[4..], n)
    ensures Gives([ByteOf(s, 0), ByteOf(s, 1), ByteOf(s, 2)] + rest, s, n + 3)
  {
    var all := [ByteOf(s, 0), ByteOf(s, 1), ByteOf(s, 2)] + rest;
    forall k | 0 <= k < n + 3 ensures all[k] == ByteOf(s, k) {
      if k >= 3 {
        var h: nat := k - 3;
        assert all[k] == rest[h];
        ByteMoves(s, h);
      }
    }
  }

  lemma ByteMoves(s: string, h: nat)
    requires |s| >= 4
    ensures ByteOf(s[4..], h) == ByteOf(s, h + 3)
  {
    hide SextetOf;
    assert (h + 3) / 3 * 4 == h / 3 * 4 + 4 && (h + 3) % 3 == h % 3;
    forall i: nat ensures At(s[4..], i) == At(s, i + 4) {
    }
  }

  lemma {:induction false} ScanBits(s: string)
    requires Clean(s)
    ensures |s| % 4 == 1 ==> Scan(s + Padding(|s|), 0, 0, 0).None?
    ensures |s| % 4 != 1 ==>
              var r := Scan(s + Padding(|s|), 0, 0, 0);
              r.Some? && Gives(r.value, s, |s| * 6 / 8)
  {
    hide Scan, ByteOf, Repeat;
    PaddingIs(|s|);
    if |s| >= 4 {
      var rest := s[4..];
      ScanBits(rest);
      ScanGroup(s, Padding(|s|));
      if |s| % 4 != 1 {
        var r := Scan(rest + Padding(|rest|), 0, 0, 0).value;
        GivesMore(s, r, |rest| * 6 / 8);
        assert [ByteOf(s, 0)] + ([ByteOf(s, 1)] + ([ByteOf(s, 2)] + r))
            == [ByteOf(s, 0), ByteOf(s, 1), ByteOf(s, 2)] + r;
      }
    } else if |s| == 3 {
      ScanThree(s);
    } else if |s| == 2 {
      ScanTwo(s);
    } else if |s| == 1 {
      ScanLone(s);
    } else {
      ScanNothing();
    }
  }

  lemma {:induction false} ScanNothing()
    ensures Scan("" + Padding(0), 0, 0, 0) == Some([])
  {
    assert "" + Padding(0) == "";
  }

  /** A text of alphabet characters alone decodes to its bits, eight to a byte, the odd ones
      left over dropped; only one character too many is refused. */
  lemma {:induction false} DecodesBits(s: string)
    requires forall i | 0 <= i < |s| :: SextetOf(s[i]).Some?
    ensures Decode(s).None? <==> |s| % 4 == 1
    ensures Decode(s).Some? ==>
              && |Decode(s).value| == |s| * 6 / 8
              && forall k | 0 <= k < |Decode(s).value| :: Decode(s).value[k] == ByteOf(s, k)
  {
    hide Scan, ByteOf, SextetOf;
    ScanBits(s);
    if |s| % 4 == 0 {
      assert s + Padding(|s|) == s;
    }
  }
}
