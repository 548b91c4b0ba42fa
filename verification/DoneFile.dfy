/** The loader's done-file (scripts/load_historical_odds.py): append, crash, resume.

    One line per finished game, appended and forced to disk. A crash inside an append leaves
    a torn line, and the next run appends right behind it. */
module DoneFile {
  import opened Helpers

  // ----- digits -----

  predicate IsDigit(c: char) { '0' <= c <= '9' }

  ghost predicate AllDigits(s: string) { forall i | 0 <= i < |s| :: IsDigit(s[i]) }

  function DigitOf(c: char): nat
    requires IsDigit(c)
  {
    c as nat - '0' as nat
  }

  function CharOf(d: nat): char
    requires d < 10
  {
    ('0' as nat + d) as char
  }

  function Pow10(k: nat): (p: nat)
    ensures p > 0
  {
    if k == 0 then 1 else 10 * Pow10(k - 1)
  }

  /** `int(text)` on digits. */
  function Number(s: string): nat
    requires AllDigits(s)
  {
    if s == "" then 0 else 10 * Number(s[..|s| - 1]) + DigitOf(s[|s| - 1])
  }

  /** `f"{int(game_pk)}"`. */
  function Digits(n: nat): (s: string)
    ensures |s| > 0 && AllDigits(s)
  {
    if n < 10 then [CharOf(n)] else Digits(n / 10) + [CharOf(n % 10)]
  }

  lemma {:induction false} NumberOfDigits(n: nat)
    ensures Number(Digits(n)) == n
    ensures n > 0 ==> Digits(n)[0] != '0'
  {
    if n >= 10 {
      NumberOfDigits(n / 10);
      assert Digits(n)[..|Digits(n)| - 1] == Digits(n / 10);
    }
  }

  /** Without a leading zero, a number's size tells its length. */
  lemma {:induction false} NumberBounds(s: string)
    requires |s| > 0 && AllDigits(s) && s[0] != '0'
    ensures Pow10(|s| - 1) <= Number(s) < Pow10(|s|)
  {
    if |s| > 1 {
      NumberBounds(s[..|s| - 1]);
    }
  }

  lemma {:induction false} PowRises(a: nat, b: nat)
    requires a <= b
    ensures Pow10(a) <= Pow10(b)
  {
    if a < b {
      PowRises(a, b - 1);
    }
  }

  /** An id of the fixed width. */
  ghost predicate Wide(width: nat, id: nat) {
    width > 0 && Pow10(width - 1) <= id < Pow10(width)
  }

  /** Digits without a leading zero spell an id of the width exactly when they are as long. */
  lemma {:induction false} WideIffLong(width: nat, s: string)
    requires width > 0 && |s| > 0 && AllDigits(s) && s[0] != '0'
    ensures Wide(width, Number(s)) <==> |s| == width
  {
    NumberBounds(s);
    if |s| < width {
      PowRises(|s|, width - 1);
    } else if |s| > width {
      PowRises(width, |s| - 1);
    }
  }

  lemma {:induction false} WideDigits(width: nat, id: nat)
    requires Wide(width, id)
    ensures |Digits(id)| == width && Digits(id)[0] != '0' && Number(Digits(id)) == id
  {
    NumberOfDigits(id);
    WideIffLong(width, Digits(id));
  }

  // ----- lines -----

  /** What `strip` takes off: the blanks of ASCII and of Unicode. */
  predicate IsSpace(c: char) {
    || c == ' ' || '\t' <= c <= '\r' || '\U{1C}' <= c <= '\U{1F}' || c == '\U{85}' || c == '\U{A0}'
    || c == '\U{1680}' || '\U{2000}' <= c <= '\U{200A}' || c == '\U{2028}' || c == '\U{2029}'
    || c == '\U{202F}' || c == '\U{205F}' || c == '\U{3000}'
  }

  /** A file opened as text ends its lines at either character. */
  predicate Breaks(c: char) {
    c == '\n' || c == '\r'
  }

  function Strip(s: string): string {
    if s != "" && IsSpace(s[0]) then Strip(s[1..])
    else if s != "" && IsSpace(s[|s| - 1]) then Strip(s[..|s| - 1])
    else s
  }

  predicate IsDigits(s: string) {
    s != "" && forall i | 0 <= i < |s| :: IsDigit(s[i])
  }

  /** The id on a line, if its stripped text is a whole number. */
  function IdOn(line: string): Option<nat> {
    if IsDigits(Strip(line)) then Some(Number(Strip(line))) else None
  }

  /** The lines that the text has closed, and the open rest after the last one. */
  function Closed(text: string): seq<string> {
    if text == "" then []
    else
      var before, c := text[..|text| - 1], text[|text| - 1];
      if Breaks(c) then Closed(before) + [Tail(before)] else Closed(before)
  }

  function Tail(text: string): string {
    if text == "" then ""
    else
      var before, c := text[..|text| - 1], text[|text| - 1];
      if Breaks(c) then "" else Tail(before) + [c]
  }

  ghost predicate Unbroken(s: string) {
    forall i | 0 <= i < |s| :: !Breaks(s[i])
  }

  function Adding(ids: set<nat>, line: string): set<nat> {
    match IdOn(line) case None => ids case Some(id) => ids + {id}
  }

  function IdsOn(lines: seq<string>): set<nat> {
    if lines == [] then {} else Adding(IdsOn(lines[..|lines| - 1]), lines[|lines| - 1])
  }

  /** What `read_done_file` returns. */
  function ReadIds(text: string): set<nat> {
    Adding(IdsOn(Closed(text)), Tail(text))
  }

  lemma {:induction false} AppendOpen(text: string, s: string)
    requires Unbroken(s)
    ensures Closed(text + s) == Closed(text) && Tail(text + s) == Tail(text) + s
  {
    if s == "" {
      assert text + s == text;
    } else {
      var before := s[..|s| - 1];
      AppendOpen(text, before);
      assert (text + s)[..|text + s| - 1] == text + before;
      assert s == before + [s[|s| - 1]];
      assert Tail(text) + s == Tail(text) + before + [s[|s| - 1]];
    }
  }

  lemma {:induction false} AppendLine(text: string, s: string)
    requires Unbroken(s)
    ensures Closed(text + (s + "\n")) == Closed(text) + [Tail(text) + s]
    ensures Tail(text + (s + "\n")) == ""
  {
    AppendOpen(text, s);
    var whole := text + (s + "\n");
    assert whole[..|whole| - 1] == text + s;
  }

  // ----- what reading a file means -----

  /** The text between `a` and `b` is digits, and all around it is blank. */
  ghost predicate DigitsBetween(s: string, a: nat, b: nat) {
    && a < b <= |s|
    && (forall i | 0 <= i < a || b <= i < |s| :: IsSpace(s[i]))
    && (forall i | a <= i < b :: '0' <= s[i] <= '9')
  }

  lemma {:induction false} StripMeans(s: string) returns (a: nat, b: nat)
    ensures a <= b <= |s| && Strip(s) == s[a..b]
    ensures forall i | 0 <= i < a || b <= i < |s| :: IsSpace(s[i])
    ensures a < b ==> !IsSpace(s[a]) && !IsSpace(s[b - 1])
  {
    hide IsSpace;
    if s != "" && IsSpace(s[0]) {
      var c, d := StripMeans(s[1..]);
      a, b := c + 1, d + 1;
      assert s[1..][c..d] == s[a..b];
      assert forall i | 0 < i < |s| :: s[i] == s[1..][i - 1];
    } else if s != "" && IsSpace(s[|s| - 1]) {
      a, b := StripMeans(s[..|s| - 1]);
      assert s[..|s| - 1][a..b] == s[a..b];
      assert forall i | 0 <= i < |s| - 1 :: s[i] == s[..|s| - 1][i];
    } else {
      a, b := 0, |s|;
      assert s[0..|s|] == s;
    }
  }

  /** A line counts exactly when it is one run of digits with nothing but blanks around it. */
  lemma IdOnMeans(line: string, id: nat)
    ensures IdOn(line) == Some(id) <==>
            exists a: nat, b: nat :: DigitsBetween(line, a, b) && AllDigits(line[a..b]) && Number(line[a..b]) == id
  {
    hide Strip, IsSpace, Number;
    var c, d := StripMeans(line);
    var text := Strip(line);
    assert forall i | 0 <= i < |text| :: text[i] == line[c + i];
    if IdOn(line) == Some(id) {
      assert DigitsBetween(line, c, d);
    }
    if a: nat, b: nat :| DigitsBetween(line, a, b) && AllDigits(line[a..b]) && Number(line[a..b]) == id {
      DigitsAreNoBlanks(line[a]);
      DigitsAreNoBlanks(line[b - 1]);
      assert c <= a && b <= d;
      assert !IsSpace(line[c]) && !IsSpace(line[d - 1]);
      assert a <= c && d <= b;
      assert text == line[a..b];
    }
  }

  lemma DigitsAreNoBlanks(c: char)
    ensures '0' <= c <= '9' ==> !IsSpace(c)
  {
  }

  /** From `a` to `b` is a line of the text: unbroken, and broken off or at an end on both sides. */
  ghost predicate IsLine(text: string, a: nat, b: nat) {
    && a <= b <= |text|
    && (a == 0 || Breaks(text[a - 1]))
    && (b == |text| || Breaks(text[b]))
    && forall i | a <= i < b :: !Breaks(text[i])
  }

  lemma {:induction false} TailIsLine(text: string) returns (a: nat)
    ensures IsLine(text, a, |text|) && Tail(text) == text[a..]
  {
    if text == "" {
      a := 0;
    } else {
      var before, c := text[..|text| - 1], text[|text| - 1];
      if Breaks(c) {
        a := |text|;
      } else {
        a := TailIsLine(before);
        assert text[a..] == before[a..] + [c];
      }
    }
  }

  /** The file gives back exactly the ids on its lines, the last one without its end included. */
  lemma {:induction false} ReadsLines(text: string, id: nat)
    ensures id in ReadIds(text) <==> exists a: nat, b: nat :: IsLine(text, a, b) && IdOn(text[a..b]) == Some(id)
  {
    hide IdOn, Breaks, Closed, Tail;
    var t := TailIsLine(text);
    assert text[t..] == text[t..|text|];
    ClosedAreLines(text, id);
    if a: nat, b: nat :| IsLine(text, a, b) && IdOn(text[a..b]) == Some(id) {
      LastLineIsOne(text, a, t);
    }
  }

  lemma LastLineIsOne(text: string, a: nat, t: nat)
    requires IsLine(text, t, |text|)
    ensures IsLine(text, a, |text|) ==> a == t
  {
  }

  lemma {:induction false} ClosedAreLines(text: string, id: nat)
    ensures id in IdsOn(Closed(text)) <==>
            exists a: nat, b: nat :: IsLine(text, a, b) && b < |text| && IdOn(text[a..b]) == Some(id)
  {
    hide IdOn, Tail;
    if text != "" {
      var n := |text| - 1;
      var before, c := text[..n], text[n];
      ClosedAreLines(before, id);
      var t := TailIsLine(before);
      if Breaks(c) {
        LastLine(Closed(before), Tail(before));
      }
      LinesGrow(text, id, t);
    }
  }

  /** One more character: the lines closed before it stay, and a break closes the open rest. */
  lemma LinesGrow(text: string, id: nat, t: nat)
    requires |text| > 0
    requires IsLine(text[..|text| - 1], t, |text| - 1)
    ensures var n := |text| - 1; var before := text[..n];
      (exists a: nat, b: nat :: IsLine(text, a, b) && b < |text| && IdOn(text[a..b]) == Some(id)) <==>
      (exists a: nat, b: nat :: IsLine(before, a, b) && b < n && IdOn(before[a..b]) == Some(id))
      || (Breaks(text[n]) && IdOn(before[t..]) == Some(id))
  {
    hide IdOn, Breaks;
    var n := |text| - 1;
    var before := text[..n];
    forall a: nat, b: nat | b < n ensures IsLine(text, a, b) <==> IsLine(before, a, b) {
    }
    forall a: nat, b: nat | a <= b < n ensures text[a..b] == before[a..b] {
    }
    assert text[t..n] == before[t..];
    if Breaks(text[n]) {
      assert IsLine(text, t, n);
    }
    if a: nat, b: nat :| IsLine(text, a, b) && b < |text| && IdOn(text[a..b]) == Some(id) {
      if b == n {
        assert IsLine(before, a, n);
        LastLineIsOne(before, a, t);
      }
    }
  }

  // ----- the file over a history of appends -----

  /** One append that reached the disk: whole, or its first `cut` characters. */
  datatype Piece = Full(id: nat) | Torn(id: nat, cut: nat)

  ghost predicate PieceOk(width: nat, p: Piece) {
    Wide(width, p.id) && (p.Torn? ==> 1 <= p.cut <= width)
  }

  ghost predicate HistoryOk(width: nat, h: seq<Piece>) {
    width > 0 && forall k | 0 <= k < |h| :: PieceOk(width, h[k])
  }

  ghost function Written(p: Piece): string {
    match p
    case Full(id) => Digits(id) + "\n"
    case Torn(id, cut) => if cut <= |Digits(id)| then Digits(id)[..cut] else Digits(id)
  }

  ghost function FileOf(h: seq<Piece>): string {
    if h == [] then "" else FileOf(h[..|h| - 1]) + Written(h[|h| - 1])
  }

  ghost predicate Recorded(h: seq<Piece>, id: nat) {
    exists k :: 0 <= k < |h| && h[k].id == id
  }

  lemma DigitsAreUnbroken(s: string)
    requires AllDigits(s)
    ensures Unbroken(s)
  {
  }

  /** What the last append did to the lines. */
  lemma LastAppend(width: nat, h: seq<Piece>)
    requires HistoryOk(width, h) && |h| > 0
    ensures var before, p := FileOf(h[..|h| - 1]), h[|h| - 1];
      if p.Full? then
        Closed(FileOf(h)) == Closed(before) + [Tail(before) + Digits(p.id)] && Tail(FileOf(h)) == ""
      else
        Closed(FileOf(h)) == Closed(before) && p.cut <= |Digits(p.id)|
        && Tail(FileOf(h)) == Tail(before) + Digits(p.id)[..p.cut]
  {
    var before, p := FileOf(h[..|h| - 1]), h[|h| - 1];
    WideDigits(width, p.id);
    DigitsAreUnbroken(Digits(p.id));
    if p.Full? {
      AppendLine(before, Digits(p.id));
    } else {
      AppendOpen(before, Digits(p.id)[..p.cut]);
    }
  }

  /** The open rest is digits without a leading zero, and is empty exactly when the last
      append was whole. */
  lemma {:induction false} TailShape(width: nat, h: seq<Piece>)
    requires HistoryOk(width, h)
    ensures var t := Tail(FileOf(h));
      AllDigits(t) && (t == "" <==> h == [] || h[|h| - 1].Full?) && (t != "" ==> t[0] != '0')
  {
    if h != [] {
      TailShape(width, h[..|h| - 1]);
      LastAppend(width, h);
      WideDigits(width, h[|h| - 1].id);
    }
  }

  lemma {:induction false} StripDigits(s: string)
    requires AllDigits(s)
    ensures Strip(s) == s
  {
  }

  /** A line of the file spells an id of the width exactly when it is that long. */
  lemma {:induction false} LineReads(width: nat, line: string, id: nat)
    requires width > 0 && AllDigits(line) && (line != "" ==> line[0] != '0') && Wide(width, id)
    ensures IdOn(line) == Some(id) <==> |line| == width && Number(line) == id
  {
    StripDigits(line);
    if line != "" {
      WideIffLong(width, line);
    }
  }

  /** An append that began a line of its own. */
  ghost predicate OwnLine(h: seq<Piece>, id: nat) {
    exists k :: 0 <= k < |h| && h[k] == Full(id) && (k > 0 ==> h[k - 1].Full?)
  }

  lemma OwnLineGrows(h: seq<Piece>, id: nat)
    requires |h| > 0
    ensures OwnLine(h, id) <==>
            OwnLine(h[..|h| - 1], id) || (h[|h| - 1] == Full(id) && (|h| > 1 ==> h[|h| - 2].Full?))
  {
    var before, last := h[..|h| - 1], |h| - 1;
    if OwnLine(before, id) {
      var k :| 0 <= k < |before| && before[k] == Full(id) && (k > 0 ==> before[k - 1].Full?);
      assert h[k] == Full(id) && (k > 0 ==> h[k - 1].Full?);
    }
    if OwnLine(h, id) {
      var k :| 0 <= k < |h| && h[k] == Full(id) && (k > 0 ==> h[k - 1].Full?);
      if k < last {
        assert before[k] == Full(id) && (k > 0 ==> before[k - 1].Full?);
      }
    }
    if h[last] == Full(id) && (|h| > 1 ==> h[|h| - 2].Full?) {
      assert h[last] == Full(id) && (last > 0 ==> h[last - 1].Full?);
    }
  }

  lemma {:induction false} ClosedLinesRead(width: nat, h: seq<Piece>, id: nat)
    requires HistoryOk(width, h) && Wide(width, id)
    ensures id in IdsOn(Closed(FileOf(h))) <==> OwnLine(h, id)
  {
    hide Closed, Tail, Digits, Wide, OwnLine, IdOn;
    if h == [] {
      EmptyFile(id);
    } else {
      var before, p := h[..|h| - 1], h[|h| - 1];
      ClosedLinesRead(width, before, id);
      LastAppend(width, h);
      OwnLineGrows(h, id);
      if p.Full? {
        var line := Tail(FileOf(before)) + Digits(p.id);
        TailShape(width, before);
        WideDigits(width, p.id);
        LineReads(width, line, id);
        assert IdsOn(Closed(FileOf(h))) == Adding(IdsOn(Closed(FileOf(before))), line) by {
          LastLine(Closed(FileOf(before)), line);
        }
        if |line| == width {
          assert Tail(FileOf(before)) == "";
          assert line == Digits(p.id);
        }
        assert IdOn(line) == Some(id) <==> Tail(FileOf(before)) == "" && p.id == id by {
          assert Tail(FileOf(before)) == "" ==> line == Digits(p.id);
        }
      }
    }
  }

  lemma EmptyFile(id: nat)
    ensures id !in IdsOn(Closed(FileOf([]))) && !OwnLine([], id)
  {
  }

  lemma {:induction false} LastLine(lines: seq<string>, line: string)
    ensures IdsOn(lines + [line]) == Adding(IdsOn(lines), line)
  {
    assert (lines + [line])[..|lines|] == lines;
  }

  /** Exactly which ids of the width the file gives back: each that was appended whole at
      the start of a line, and the open rest when it is as long as an id. */
  lemma {:induction false} ReadsExactly(width: nat, h: seq<Piece>, id: nat)
    requires HistoryOk(width, h) && Wide(width, id)
    ensures var t := Tail(FileOf(h));
      AllDigits(t)
      && (id in ReadIds(FileOf(h)) <==> OwnLine(h, id) || (|t| == width && Number(t) == id))
  {
    hide Closed, Tail, OwnLine, Wide;
    TailShape(width, h);
    ClosedLinesRead(width, h, id);
    LineReads(width, Tail(FileOf(h)), id);
  }

  // ----- when what is read is true -----

  /** Every id of the width that the file gives back was appended. */
  ghost predicate Truthful(width: nat, h: seq<Piece>) {
    forall id | Wide(width, id) && id in ReadIds(FileOf(h)) :: Recorded(h, id)
  }

  /** The file tells the truth exactly when its open rest, if as long as an id, is an
      appended id. */
  lemma {:induction false} TruthfulIff(width: nat, h: seq<Piece>)
    requires HistoryOk(width, h)
    ensures var t := Tail(FileOf(h));
      AllDigits(t) && (Truthful(width, h) <==> (|t| == width ==> Recorded(h, Number(t))))
  {
    hide Closed, Tail, Wide, ReadIds, FileOf;
    var t := Tail(FileOf(h));
    TailShape(width, h);
    forall id | Wide(width, id)
      ensures id in ReadIds(FileOf(h)) <==> OwnLine(h, id) || (|t| == width && Number(t) == id)
    {
      ReadsExactly(width, h, id);
    }
    forall id | OwnLine(h, id) ensures Recorded(h, id) {
    }
    if |t| == width {
      WideIffLong(width, t);
    }
  }

  /** The last two appends that reached the disk were not both torn. */
  ghost predicate LoneTear(h: seq<Piece>) {
    |h| >= 2 && h[|h| - 1].Torn? ==> h[|h| - 2].Full?
  }

  lemma LoneTearIsTruthful(width: nat, h: seq<Piece>)
    requires HistoryOk(width, h) && LoneTear(h)
    ensures Truthful(width, h)
  {
    hide Closed, Tail, Wide, Truthful;
    TruthfulIff(width, h);
    TailShape(width, h);
    var t := Tail(FileOf(h));
    if |t| == width {
      var before, p := h[..|h| - 1], h[|h| - 1];
      TailShape(width, before);
      LastAppend(width, h);
      WideDigits(width, p.id);
      assert Tail(FileOf(before)) == "";
      assert t == Digits(p.id)[..p.cut];
      assert t == Digits(p.id);
      assert h[|h| - 1].id == Number(t);
    }
  }

  lemma {:induction false} DigitsOfTwo(n: nat)
    requires 10 <= n < 100
    ensures Wide(2, n) && Digits(n)[..1] == [CharOf(n / 10)]
  {
    assert Pow10(1) == 10 && Pow10(2) == 100;
    assert Digits(n / 10) == [CharOf(n / 10)];
  }

  lemma TwoTearsTail()
    ensures HistoryOk(2, [Torn(12, 1), Torn(34, 1)])
    ensures Tail(FileOf([Torn(12, 1), Torn(34, 1)])) == [CharOf(1), CharOf(3)]
  {
    hide Digits, Wide, Closed, CharOf;
    var one, two := [Torn(12, 1)], [Torn(12, 1), Torn(34, 1)];
    DigitsOfTwo(12);
    DigitsOfTwo(34);
    assert one[..0] == [] && two[..1] == one;
    LastAppend(2, one);
    LastAppend(2, two);
    assert FileOf([]) == "" && Tail("") == "";
  }

  lemma SpellsThirteen()
    ensures Number([CharOf(1), CharOf(3)]) == 13
  {
    var t := [CharOf(1), CharOf(3)];
    assert t[..1] == [CharOf(1)] && [CharOf(1)][..0] == [];
    assert Number([CharOf(1)]) == 1;
  }

  /** Two torn appends behind each other can spell a game no run finished. */
  lemma TwoTearsCanLie()
    ensures HistoryOk(2, [Torn(12, 1), Torn(34, 1)])
    ensures !Truthful(2, [Torn(12, 1), Torn(34, 1)])
  {
    hide Closed, Tail, FileOf, Truthful, HistoryOk, Digits;
    TwoTearsTail();
    SpellsThirteen();
    TruthfulIff(2, [Torn(12, 1), Torn(34, 1)]);
  }

  // ----- the loader's runs -----

  /** One game's turn in a run: cut off by a crash, or ended with the failures counted over
      it and the characters of its append that reach the disk if it makes one. */
  datatype Attempt = CutOff | Ended(lostReads: nat, fetches: nat, writes: nat, reached: nat)

  predicate Clean(a: Attempt) {
    a.Ended? && a.lostReads == 0 && a.fetches == 0 && a.writes == 0
  }

  /** The games a run loads: those the done-file does not list. */
  function Todo(games: seq<nat>, done: set<nat>): seq<nat> {
    if games == [] then []
    else
      var rest := Todo(games[..|games| - 1], done);
      if games[|games| - 1] in done then rest else rest + [games[|games| - 1]]
  }

  lemma {:induction false} TodoKeeps(games: seq<nat>, done: set<nat>, game: nat)
    ensures game in Todo(games, done) <==> game in games && game !in done
  {
    if games != [] {
      TodoKeeps(games[..|games| - 1], done, game);
      assert games == games[..|games| - 1] + [games[|games| - 1]];
    }
  }

  /** The games of the list that are not done, in the list's order. */
  lemma {:induction false} TodoInOrder(games: seq<nat>, done: set<nat>)
    ensures Filters(games, Todo(games, done), game => game !in done)
  {
    hide Filters;
    var keep := (game: nat) => game !in done;
    if games == [] {
      FiltersNone(keep);
    } else {
      var front, last := games[..|games| - 1], games[|games| - 1];
      TodoInOrder(front, done);
      FiltersBack(front, Todo(front, done), last, keep);
      assert games == front + [last];
    }
  }

  /** The appends of a run's turns from turn `k` on; a crash ends the run. */
  ghost function RunPieces(width: nat, todo: seq<nat>, attempts: seq<Attempt>, k: nat): seq<Piece>
    decreases |todo| - k
  {
    if k >= |todo| || k >= |attempts| then []
    else
      match attempts[k]
      case CutOff => []
      case Ended(lostReads, fetches, writes, reached) =>
        if lostReads > 0 || fetches > 0 || writes > 0 then RunPieces(width, todo, attempts, k + 1)
        else if reached > width then [Full(todo[k])] + RunPieces(width, todo, attempts, k + 1)
        else if reached > 0 then [Torn(todo[k], reached)]
        else []
  }

  datatype Run = Run(games: seq<nat>, attempts: seq<Attempt>)

  ghost function TodoOf(h: seq<Piece>, run: Run): seq<nat> {
    Todo(run.games, ReadIds(FileOf(h)))
  }

  /** Every append of a history of runs, each reading the file before it starts. */
  ghost function History(width: nat, runs: seq<Run>): seq<Piece> {
    if runs == [] then []
    else
      var h, run := History(width, runs[..|runs| - 1]), runs[|runs| - 1];
      h + RunPieces(width, TodoOf(h, run), run.attempts, 0)
  }

  ghost predicate AllWide(width: nat, games: seq<nat>) {
    forall k | 0 <= k < |games| :: Wide(width, games[k])
  }

  /** A run appends a game only on a turn that ended with nothing counted against it. */
  lemma {:induction false} PiecesAreClean(width: nat, todo: seq<nat>, attempts: seq<Attempt>, k: nat, p: Piece)
    requires width > 0 && AllWide(width, todo)
    requires p in RunPieces(width, todo, attempts, k)
    ensures PieceOk(width, p)
    ensures exists t :: 0 <= t < |todo| && t < |attempts| && todo[t] == p.id && Clean(attempts[t])
    decreases |todo| - k
  {
    hide Wide;
    var a := attempts[k];
    if Clean(a) && (if a.reached > width then p == Full(todo[k]) else p == Torn(todo[k], a.reached)) {
      assert todo[k] == p.id;
    } else {
      PiecesAreClean(width, todo, attempts, k + 1, p);
    }
  }

  /** In some run the game had a turn that ended with nothing counted against it. */
  ghost predicate EndedClean(width: nat, runs: seq<Run>, game: nat) {
    exists r, t ::
      && 0 <= r < |runs|
      && 0 <= t < |TodoOf(History(width, runs[..r]), runs[r])| && t < |runs[r].attempts|
      && TodoOf(History(width, runs[..r]), runs[r])[t] == game && Clean(runs[r].attempts[t])
  }

  lemma {:induction false} HistoryIsClean(width: nat, runs: seq<Run>, p: Piece)
    requires width > 0 && forall r | 0 <= r < |runs| :: AllWide(width, runs[r].games)
    requires p in History(width, runs)
    ensures PieceOk(width, p) && EndedClean(width, runs, p.id)
  {
    hide RunPieces, AllWide;
    var before, last := runs[..|runs| - 1], |runs| - 1;
    var h, run := History(width, before), runs[last];
    if p in h {
      HistoryIsClean(width, before, p);
      EndedCleanGrows(width, runs, p.id);
    } else {
      TodoIsWide(width, run.games, ReadIds(FileOf(h)));
      PiecesAreClean(width, TodoOf(h, run), run.attempts, 0, p);
      var t :| 0 <= t < |TodoOf(h, run)| && t < |run.attempts| && TodoOf(h, run)[t] == p.id
               && Clean(run.attempts[t]);
      assert runs[..last] == before;
    }
  }

  lemma EndedCleanGrows(width: nat, runs: seq<Run>, game: nat)
    requires |runs| > 0 && EndedClean(width, runs[..|runs| - 1], game)
    ensures EndedClean(width, runs, game)
  {
    hide History, TodoOf;
    var before := runs[..|runs| - 1];
    var r, t :| 0 <= r < |before|
      && 0 <= t < |TodoOf(History(width, before[..r]), before[r])| && t < |before[r].attempts|
      && TodoOf(History(width, before[..r]), before[r])[t] == game && Clean(before[r].attempts[t]);
    assert before[..r] == runs[..r] && before[r] == runs[r];
  }

  lemma {:induction false} TodoIsWide(width: nat, games: seq<nat>, done: set<nat>)
    requires AllWide(width, games)
    ensures AllWide(width, Todo(games, done))
  {
    hide Wide;
    var todo := Todo(games, done);
    forall k | 0 <= k < |todo| ensures Wide(width, todo[k]) {
      TodoKeeps(games, done, todo[k]);
      var i :| 0 <= i < |games| && games[i] == todo[k];
    }
  }

  lemma {:induction false} RunsAreWide(width: nat, runs: seq<Run>)
    requires width > 0 && forall r | 0 <= r < |runs| :: AllWide(width, runs[r].games)
    ensures HistoryOk(width, History(width, runs))
    ensures forall p | p in History(width, runs) :: EndedClean(width, runs, p.id)
  {
    hide History, EndedClean, PieceOk;
    var h := History(width, runs);
    forall p | p in h ensures PieceOk(width, p) && EndedClean(width, runs, p.id) {
      HistoryIsClean(width, runs, p);
    }
  }

  /** The exact law, over every history of runs and crashes: the next run loads a game that no
      run ended cleanly exactly when the open rest of the file does not spell it. */
  lemma {:induction false} LoadedAgainIff(width: nat, runs: seq<Run>, next: Run, game: nat)
    requires width > 0 && forall r | 0 <= r < |runs| :: AllWide(width, runs[r].games)
    requires game in next.games && Wide(width, game) && !EndedClean(width, runs, game)
    ensures var h := History(width, runs);
      var t := Tail(FileOf(h));
      AllDigits(t) && (game in TodoOf(h, next) <==> !(|t| == width && Number(t) == game))
  {
    hide History, Wide, EndedClean, ReadIds, FileOf, HistoryOk, Tail;
    var h := History(width, runs);
    RunsAreWide(width, runs);
    assert !OwnLine(h, game) by {
      assert forall k | 0 <= k < |h| :: h[k] in h;
    }
    ReadsExactly(width, h, game);
    TodoKeeps(next.games, ReadIds(FileOf(h)), game);
  }

  /** So, when the last two appends were not both torn, such a game is always loaded again. */
  lemma {:induction false} AlwaysLoadedAgain(width: nat, runs: seq<Run>, next: Run, game: nat)
    requires width > 0 && forall r | 0 <= r < |runs| :: AllWide(width, runs[r].games)
    requires LoneTear(History(width, runs))
    requires game in next.games && Wide(width, game) && !EndedClean(width, runs, game)
    ensures game in TodoOf(History(width, runs), next)
  {
    hide History, Wide, EndedClean, ReadIds, FileOf, LoneTear, HistoryOk;
    var h := History(width, runs);
    RunsAreWide(width, runs);
    LoneTearIsTruthful(width, h);
    TodoKeeps(next.games, ReadIds(FileOf(h)), game);
  }

  // ----- what a history of runs records, from the attempts alone -----

  /** The turn ended the run: a crash in the game, or in the append of a game that ended clean. */
  predicate Crashes(width: nat, a: Attempt) {
    a.CutOff? || (a.lostReads == 0 && a.fetches == 0 && a.writes == 0 && a.reached <= width)
  }

  /** The turn puts text into the file: no turn of its run crashed before it, nothing was counted
      against its game, and something of its append reached the disk. */
  predicate AppendsAt(width: nat, todo: seq<nat>, attempts: seq<Attempt>, t: nat) {
    && t < |todo| && t < |attempts|
    && (forall u | 0 <= u < t :: !Crashes(width, attempts[u]))
    && attempts[t].Ended?
    && attempts[t].lostReads == 0 && attempts[t].fetches == 0 && attempts[t].writes == 0
    && attempts[t].reached > 0
  }

  /** What turn `t` puts there: its game's whole line, or the start of it. */
  function PieceAt(width: nat, todo: seq<nat>, attempts: seq<Attempt>, t: nat): Piece
    requires AppendsAt(width, todo, attempts, t)
  {
    if attempts[t].reached > width then Full(todo[t]) else Torn(todo[t], attempts[t].reached)
  }

  ghost predicate TurnsFrom(ts: seq<nat>, width: nat, todo: seq<nat>, attempts: seq<Attempt>, k: nat,
                            pieces: seq<Piece>)
  {
    && (forall a, b | 0 <= a < b < |ts| :: ts[a] < ts[b])
    && (forall t: nat :: t in ts <==> t >= k && AppendsAt(width, todo, attempts, t))
    && PiecesAt(ts, width, todo, attempts, pieces)
  }

  ghost predicate PiecesAt(ts: seq<nat>, width: nat, todo: seq<nat>, attempts: seq<Attempt>, pieces: seq<Piece>) {
    |ts| == |pieces|
    && forall a | 0 <= a < |ts| ::
         AppendsAt(width, todo, attempts, ts[a]) && pieces[a] == PieceAt(width, todo, attempts, ts[a])
  }

  lemma {:induction false} NoTurnsLeft(width: nat, todo: seq<nat>, attempts: seq<Attempt>, k: nat)
    requires k >= |todo| || k >= |attempts|
    ensures TurnsFrom([], width, todo, attempts, k, RunPieces(width, todo, attempts, k))
  {
  }

  lemma {:induction false} LastTurn(width: nat, todo: seq<nat>, attempts: seq<Attempt>, k: nat)
    requires k < |todo| && k < |attempts| && Crashes(width, attempts[k])
    requires forall u | 0 <= u < k :: !Crashes(width, attempts[u])
    ensures TurnsFrom(if AppendsAt(width, todo, attempts, k) then [k] else [],
                      width, todo, attempts, k, RunPieces(width, todo, attempts, k))
  {
  }

  lemma OnePieceMore(k: nat, ts: seq<nat>, width: nat, todo: seq<nat>, attempts: seq<Attempt>, pieces: seq<Piece>)
    requires PiecesAt(ts, width, todo, attempts, pieces) && AppendsAt(width, todo, attempts, k)
    ensures PiecesAt([k] + ts, width, todo, attempts, [PieceAt(width, todo, attempts, k)] + pieces)
  {
    hide AppendsAt, PieceAt;
  }

  lemma InFront(k: nat, rest: seq<nat>, t: nat)
    ensures t in [k] + rest <==> t == k || t in rest
  {
  }

  lemma RisesInFront(k: nat, rest: seq<nat>)
    requires forall a, b | 0 <= a < b < |rest| :: rest[a] < rest[b]
    requires forall t | t in rest :: t > k
    ensures forall a, b | 0 <= a < b < |[k] + rest| :: ([k] + rest)[a] < ([k] + rest)[b]
  {
    assert forall a | 0 <= a < |rest| :: rest[a] in rest;
  }

  lemma FirstTurn(width: nat, todo: seq<nat>, attempts: seq<Attempt>, k: nat, rest: seq<nat>, pieces: seq<Piece>)
    requires TurnsFrom(rest, width, todo, attempts, k + 1, pieces) && AppendsAt(width, todo, attempts, k)
    ensures TurnsFrom([k] + rest, width, todo, attempts, k, [PieceAt(width, todo, attempts, k)] + pieces)
  {
    hide AppendsAt, PieceAt, PiecesAt;
    RisesInFront(k, rest);
    OnePieceMore(k, rest, width, todo, attempts, pieces);
    forall t: nat ensures t in [k] + rest <==> t >= k && AppendsAt(width, todo, attempts, t) {
      InFront(k, rest, t);
    }
  }

  lemma NoFirstTurn(width: nat, todo: seq<nat>, attempts: seq<Attempt>, k: nat, rest: seq<nat>, pieces: seq<Piece>)
    requires TurnsFrom(rest, width, todo, attempts, k + 1, pieces) && !AppendsAt(width, todo, attempts, k)
    ensures TurnsFrom(rest, width, todo, attempts, k, pieces)
  {
    hide AppendsAt, PieceAt;
  }

  lemma PiecesFrom(width: nat, todo: seq<nat>, attempts: seq<Attempt>, k: nat)
    requires k < |todo| && k < |attempts| && !Crashes(width, attempts[k])
    requires forall u | 0 <= u < k :: !Crashes(width, attempts[u])
    ensures RunPieces(width, todo, attempts, k) ==
            if AppendsAt(width, todo, attempts, k)
            then [PieceAt(width, todo, attempts, k)] + RunPieces(width, todo, attempts, k + 1)
            else RunPieces(width, todo, attempts, k + 1)
  {
  }

  /** The appends of a run from turn `k` on are those of its appending turns, in order. */
  lemma {:induction false} RunTurns(width: nat, todo: seq<nat>, attempts: seq<Attempt>, k: nat) returns (ts: seq<nat>)
    requires forall u | 0 <= u < k && u < |attempts| :: !Crashes(width, attempts[u])
    ensures TurnsFrom(ts, width, todo, attempts, k, RunPieces(width, todo, attempts, k))
    decreases |todo| - k
  {
    hide RunPieces, TurnsFrom, AppendsAt, PieceAt, Crashes;
    if k >= |todo| || k >= |attempts| {
      ts := [];
      NoTurnsLeft(width, todo, attempts, k);
    } else if Crashes(width, attempts[k]) {
      ts := if AppendsAt(width, todo, attempts, k) then [k] else [];
      LastTurn(width, todo, attempts, k);
    } else {
      var rest := RunTurns(width, todo, attempts, k + 1);
      PiecesFrom(width, todo, attempts, k);
      if AppendsAt(width, todo, attempts, k) {
        ts := [k] + rest;
        FirstTurn(width, todo, attempts, k, rest, RunPieces(width, todo, attempts, k + 1));
      } else {
        ts := rest;
        NoFirstTurn(width, todo, attempts, k, rest, RunPieces(width, todo, attempts, k + 1));
      }
    }
  }

  /** A turn of the history: run `0`, turn `1`. */
  type Turn = (nat, nat)

  ghost predicate Before(a: Turn, b: Turn) {
    a.0 < b.0 || (a.0 == b.0 && a.1 < b.1)
  }

  /** What run `r` has to load. */
  ghost function TodoIn(width: nat, runs: seq<Run>, r: nat): seq<nat>
    requires r < |runs|
  {
    TodoOf(History(width, runs[..r]), runs[r])
  }

  ghost predicate Appends(width: nat, runs: seq<Run>, turn: Turn) {
    turn.0 < |runs| && AppendsAt(width, TodoIn(width, runs, turn.0), runs[turn.0].attempts, turn.1)
  }

  ghost function PieceOf(width: nat, runs: seq<Run>, turn: Turn): Piece
    requires Appends(width, runs, turn)
  {
    PieceAt(width, TodoIn(width, runs, turn.0), runs[turn.0].attempts, turn.1)
  }

  /** `turns` are the appending turns of all the runs, in order, and `h` what they append. */
  ghost predicate TurnsOf(turns: seq<Turn>, width: nat, runs: seq<Run>, h: seq<Piece>) {
    && (forall a, b | 0 <= a < b < |turns| :: Before(turns[a], turns[b]))
    && (forall turn :: turn in turns <==> Appends(width, runs, turn))
    && |turns| == |h|
    && forall a | 0 <= a < |turns| :: Appends(width, runs, turns[a]) && h[a] == PieceOf(width, runs, turns[a])
  }

  function InRun(ts: seq<nat>, r: nat): (turns: seq<Turn>)
    ensures |turns| == |ts| && forall a | 0 <= a < |ts| :: turns[a] == (r, ts[a])
  {
    seq(|ts|, a requires 0 <= a < |ts| => (r, ts[a]))
  }

  lemma EarlierRunsSame(width: nat, runs: seq<Run>, turn: Turn)
    requires |runs| > 0 && turn.0 < |runs| - 1
    ensures Appends(width, runs, turn) <==> Appends(width, runs[..|runs| - 1], turn)
    ensures Appends(width, runs, turn) ==> PieceOf(width, runs, turn) == PieceOf(width, runs[..|runs| - 1], turn)
  {
    hide History, TodoOf, AppendsAt, PieceAt;
    var before := runs[..|runs| - 1];
    assert before[..turn.0] == runs[..turn.0];
  }

  lemma JoinTurns(width: nat, runs: seq<Run>, before: seq<Turn>, ts: seq<nat>, h: seq<Piece>, pieces: seq<Piece>)
    requires |runs| > 0
    requires TurnsOf(before, width, runs[..|runs| - 1], h)
    requires TurnsFrom(ts, width, TodoIn(width, runs, |runs| - 1), runs[|runs| - 1].attempts, 0, pieces)
    ensures TurnsOf(before + InRun(ts, |runs| - 1), width, runs, h + pieces)
  {
    hide TodoIn, AppendsAt, PieceAt, InRun;
    var last := |runs| - 1;
    var mine := InRun(ts, last);
    var turns := before + mine;
    forall a | 0 <= a < |before|
      ensures before[a].0 < last && Appends(width, runs, before[a]) && h[a] == PieceOf(width, runs, before[a])
    {
      EarlierRunsSame(width, runs, before[a]);
    }
    forall turn: Turn ensures turn in turns <==> Appends(width, runs, turn) {
      if turn in mine {
        var a :| 0 <= a < |mine| && mine[a] == turn;
        assert ts[a] in ts;
      }
      if turn.0 == last && turn.1 in ts {
        var a :| 0 <= a < |ts| && ts[a] == turn.1;
        assert mine[a] == turn;
      }
      if turn.0 < last {
        EarlierRunsSame(width, runs, turn);
      }
      assert turn in turns <==> turn in before || turn in mine;
    }
  }

  /** The file's history is what the appending turns of the runs put there, in order. */
  lemma {:induction false} HistoryTurns(width: nat, runs: seq<Run>) returns (turns: seq<Turn>)
    ensures TurnsOf(turns, width, runs, History(width, runs))
  {
    hide TodoOf, RunPieces, AppendsAt, TurnsFrom;
    if runs == [] {
      turns := [];
    } else {
      var last := |runs| - 1;
      var before := HistoryTurns(width, runs[..last]);
      var ts := RunTurns(width, TodoIn(width, runs, last), runs[last].attempts, 0);
      JoinTurns(width, runs, before, ts, History(width, runs[..last]),
                RunPieces(width, TodoIn(width, runs, last), runs[last].attempts, 0));
      turns := before + InRun(ts, last);
    }
  }

  /** The turn's whole line reached the disk. */
  ghost predicate WholeTurn(width: nat, runs: seq<Run>, turn: Turn)
    requires Appends(width, runs, turn)
  {
    runs[turn.0].attempts[turn.1].reached > width
  }

  /** Turn `turn` loaded the game and recorded it on a line of its own: its whole line reached
      the disk, and so did that of the latest append before it, if there was one. */
  ghost predicate RecordsOnOwnLine(width: nat, runs: seq<Run>, turn: Turn, game: nat) {
    && Appends(width, runs, turn) && WholeTurn(width, runs, turn)
    && TodoIn(width, runs, turn.0)[turn.1] == game
    && forall earlier | Appends(width, runs, earlier) && Before(earlier, turn)
         && (forall between | Appends(width, runs, between) :: !(Before(earlier, between) && Before(between, turn))) ::
         WholeTurn(width, runs, earlier)
  }

  /** The exact law of the resume, over every history of runs and crashes: the next run skips a
      game exactly when some turn recorded it on a line of its own, or the open rest of the file
      spells it. */
  lemma {:induction false} SkippedIff(width: nat, runs: seq<Run>, next: Run, game: nat)
    requires width > 0 && forall r | 0 <= r < |runs| :: AllWide(width, runs[r].games)
    requires game in next.games && Wide(width, game)
    ensures var t := Tail(FileOf(History(width, runs)));
      && AllDigits(t)
      && (game !in TodoOf(History(width, runs), next) <==>
          (exists turn :: RecordsOnOwnLine(width, runs, turn, game)) || (|t| == width && Number(t) == game))
  {
    hide History, Wide, EndedClean, ReadIds, FileOf, HistoryOk, Tail, OwnLine, RecordsOnOwnLine, TurnsOf;
    var h := History(width, runs);
    RunsAreWide(width, runs);
    var turns := HistoryTurns(width, runs);
    OwnLineIsATurn(width, runs, turns, h, game);
    ReadsExactly(width, h, game);
    TodoKeeps(next.games, ReadIds(FileOf(h)), game);
  }

  lemma OwnLineIsATurn(width: nat, runs: seq<Run>, turns: seq<Turn>, h: seq<Piece>, game: nat)
    requires TurnsOf(turns, width, runs, h)
    ensures OwnLine(h, game) <==> exists turn :: RecordsOnOwnLine(width, runs, turn, game)
  {
    hide TodoIn;
    if OwnLine(h, game) {
      var k: nat :| k < |h| && h[k] == Full(game) && (k > 0 ==> h[k - 1].Full?);
      TurnOnOwnLine(width, runs, turns, h, game, k);
    }
    if exists turn :: RecordsOnOwnLine(width, runs, turn, game) {
      var turn :| RecordsOnOwnLine(width, runs, turn, game);
      assert turn in turns;
      var k: nat :| k < |turns| && turns[k] == turn;
      OwnLineOfTurn(width, runs, turns, h, game, k);
    }
  }

  lemma TurnOnOwnLine(width: nat, runs: seq<Run>, turns: seq<Turn>, h: seq<Piece>, game: nat, k: nat)
    requires TurnsOf(turns, width, runs, h)
    requires k < |h| && h[k] == Full(game) && (k > 0 ==> h[k - 1].Full?)
    ensures RecordsOnOwnLine(width, runs, turns[k], game)
  {
    hide TodoIn, AppendsAt;
    forall earlier | Appends(width, runs, earlier) && Before(earlier, turns[k])
      && (forall between | Appends(width, runs, between) :: !(Before(earlier, between) && Before(between, turns[k])))
      ensures WholeTurn(width, runs, earlier)
    {
      assert earlier in turns;
      var a: nat :| a < |turns| && turns[a] == earlier;
      NotAfter(turns, a, k);
      var latest := turns[k - 1];
      assert Appends(width, runs, latest) && Before(latest, turns[k]);
    }
  }

  lemma NotAfter(turns: seq<Turn>, a: nat, k: nat)
    requires forall i, j | 0 <= i < j < |turns| :: Before(turns[i], turns[j])
    requires a < |turns| && k < |turns| && Before(turns[a], turns[k])
    ensures a < k
  {
  }

  lemma OwnLineOfTurn(width: nat, runs: seq<Run>, turns: seq<Turn>, h: seq<Piece>, game: nat, k: nat)
    requires TurnsOf(turns, width, runs, h)
    requires k < |turns| && RecordsOnOwnLine(width, runs, turns[k], game)
    ensures OwnLine(h, game)
  {
    hide TodoIn, AppendsAt;
    assert h[k] == Full(game);
    if k > 0 {
      forall between | Appends(width, runs, between)
        ensures !(Before(turns[k - 1], between) && Before(between, turns[k]))
      {
        assert between in turns;
        var a: nat :| a < |turns| && turns[a] == between;
        if Before(turns[k - 1], between) && Before(between, turns[k]) {
          NotAfter(turns, k - 1, a);
          NotAfter(turns, a, k);
        }
      }
      assert WholeTurn(width, runs, turns[k - 1]);
      assert h[k - 1].Full?;
    }
  }

  // ----- two runs after which a game is skipped -----

  const SEASON: seq<nat> := [12, 34, 13]

  /** The first run is cut off in the append of game 12. The second counts a failure over game
      12 and is cut off in the append of game 34. */
  function TwoCrashes(): seq<Run> {
    [Run(SEASON, [Ended(0, 0, 0, 1)]), Run(SEASON, [Ended(0, 1, 0, 0), Ended(0, 0, 0, 1)])]
  }

  lemma {:induction false} NothingDone(games: seq<nat>, done: set<nat>)
    requires forall k | 0 <= k < |games| :: games[k] !in done
    ensures Todo(games, done) == games
  {
    if games != [] {
      NothingDone(games[..|games| - 1], done);
      assert games == games[..|games| - 1] + [games[|games| - 1]];
    }
  }

  lemma SeasonIsWide()
    ensures AllWide(2, SEASON)
  {
    hide Wide;
    DigitsOfTwo(12);
    DigitsOfTwo(34);
    DigitsOfTwo(13);
  }

  /** A file that is at most one torn append lists no game of the season. */
  lemma OneTearListsNone(h: seq<Piece>, run: Run)
    requires h == [] || h == [Torn(12, 1)]
    requires run.games == SEASON
    ensures TodoOf(h, run) == SEASON
  {
    hide Wide, ReadIds, FileOf, Tail, Closed, Digits;
    SeasonIsWide();
    forall k | 0 <= k < |SEASON| ensures SEASON[k] !in ReadIds(FileOf(h)) {
      TearIsShort(h);
      ReadsExactly(2, h, SEASON[k]);
    }
    NothingDone(SEASON, ReadIds(FileOf(h)));
  }

  lemma {:induction false} TearIsShort(h: seq<Piece>)
    requires h == [] || h == [Torn(12, 1)]
    ensures HistoryOk(2, h) && |Tail(FileOf(h))| < 2
  {
    hide Digits, Wide, Closed;
    DigitsOfTwo(12);
    assert FileOf([]) == "" && Tail("") == "";
    if h != [] {
      assert h[..0] == [];
      LastAppend(2, h);
    }
  }

  lemma TwoCrashesTear()
    ensures History(2, TwoCrashes()[..1]) == [Torn(12, 1)]
    ensures History(2, TwoCrashes()) == [Torn(12, 1), Torn(34, 1)]
  {
    hide TodoOf, Wide, ReadIds, FileOf;
    var runs := TwoCrashes();
    var first, second := runs[0], runs[1];
    assert runs[..1] == [first] && [first][..0] == [] && runs[..|runs| - 1] == [first];
    OneTearListsNone([], first);
    assert History(2, []) == [];
    FirstRunTears();
    assert History(2, [first]) == [] + [Torn(12, 1)];
    OneTearListsNone([Torn(12, 1)], second);
    SecondRunTears();
    assert [Torn(12, 1)] + [Torn(34, 1)] == [Torn(12, 1), Torn(34, 1)];
  }

  lemma FirstRunTears()
    ensures RunPieces(2, SEASON, TwoCrashes()[0].attempts, 0) == [Torn(12, 1)]
  {
  }

  lemma SecondRunTears()
    ensures RunPieces(2, SEASON, TwoCrashes()[1].attempts, 0) == [Torn(34, 1)]
  {
    var attempts := TwoCrashes()[1].attempts;
    assert RunPieces(2, SEASON, attempts, 1) == [Torn(34, 1)];
  }

  /** Both runs had game 13 to load and neither ended it cleanly, yet the next run skips it. */
  lemma TwoCrashesSkipAGame(next: Run)
    ensures forall r | 0 <= r < |TwoCrashes()| :: AllWide(2, TwoCrashes()[r].games) && 13 in TwoCrashes()[r].games
    ensures !EndedClean(2, TwoCrashes(), 13)
    ensures 13 !in TodoOf(History(2, TwoCrashes()), next)
  {
    hide TodoOf, History, Wide, ReadIds, FileOf, Tail, Closed, Digits, HistoryOk;
    var runs := TwoCrashes();
    var h := [Torn(12, 1), Torn(34, 1)];
    SeasonIsWide();
    assert SEASON[2] == 13;
    TwoCrashesTear();
    NeverReached();
    TwoTearsTail();
    SpellsThirteen();
    DigitsOfTwo(13);
    ReadsExactly(2, h, 13);
    NotLoaded(h, next, 13);
  }

  lemma {:induction false} NotLoaded(h: seq<Piece>, next: Run, game: nat)
    requires game in ReadIds(FileOf(h))
    ensures game !in TodoOf(h, next)
  {
    hide ReadIds, FileOf;
    TodoKeeps(next.games, ReadIds(FileOf(h)), game);
  }

  lemma NeverReached()
    ensures !EndedClean(2, TwoCrashes(), 13)
  {
    hide TodoOf, History;
    var runs := TwoCrashes();
    assert runs[..0] == [];
    NoRunsNoHistory();
    TwoCrashesTear();
    OneTearListsNone([], runs[0]);
    OneTearListsNone([Torn(12, 1)], runs[1]);
  }

  lemma NoRunsNoHistory()
    ensures History(2, []) == []
  {
  }

  /** A game appended whole on a line of its own is never loaded again, whatever crashes follow. */
  lemma FinishedStaysFinished(width: nat, h: seq<Piece>, later: seq<Piece>, run: Run, game: nat)
    requires HistoryOk(width, h + later) && Wide(width, game) && OwnLine(h, game)
    ensures game !in TodoOf(h + later, run)
  {
    hide Wide, ReadIds, FileOf, HistoryOk;
    var all := h + later;
    var k :| 0 <= k < |h| && h[k] == Full(game) && (k > 0 ==> h[k - 1].Full?);
    assert all[k] == Full(game) && (k > 0 ==> all[k - 1].Full?);
    ReadsExactly(width, all, game);
    TodoKeeps(run.games, ReadIds(FileOf(all)), game);
  }

  // ----- the functions of the source -----

  /** One of the first `n` turns, with no crash before it, ended with something counted against
      the game. */
  ghost predicate FailedTurn(width: nat, todo: seq<nat>, attempts: seq<Attempt>, n: nat, game: nat) {
    exists k :: 0 <= k < n && k < |todo| && k < |attempts| && todo[k] == game && FailsAt(width, attempts, k)
  }

  ghost predicate FailsAt(width: nat, attempts: seq<Attempt>, k: nat)
    requires k < |attempts|
  {
    && (forall u | 0 <= u < k :: !Crashes(width, attempts[u]))
    && attempts[k].Ended? && (attempts[k].lostReads > 0 || attempts[k].fetches > 0 || attempts[k].writes > 0)
  }

  /** The list names exactly the games that failed in the first `n` turns. */
  ghost predicate Lists(incomplete: seq<nat>, width: nat, todo: seq<nat>, attempts: seq<Attempt>, n: nat) {
    forall game :: (game in incomplete <==> FailedTurn(width, todo, attempts, n, game))
  }

  lemma FailsHere(width: nat, attempts: seq<Attempt>, k: nat)
    requires k < |attempts| && forall u | 0 <= u < k :: !Crashes(width, attempts[u])
    ensures FailsAt(width, attempts, k) <==>
            attempts[k].Ended? && (attempts[k].lostReads > 0 || attempts[k].fetches > 0 || attempts[k].writes > 0)
  {
  }

  lemma ListsNone(width: nat, todo: seq<nat>, attempts: seq<Attempt>)
    ensures Lists([], width, todo, attempts, 0)
  {
  }

  lemma ListsMore(incomplete: seq<nat>, width: nat, todo: seq<nat>, attempts: seq<Attempt>, n: nat)
    requires n < |todo| && n < |attempts| && Lists(incomplete, width, todo, attempts, n)
    ensures Lists(if FailsAt(width, attempts, n) then incomplete + [todo[n]] else incomplete,
                  width, todo, attempts, n + 1)
  {
    hide FailsAt;
    var more := if FailsAt(width, attempts, n) then incomplete + [todo[n]] else incomplete;
    forall game: nat ensures game in more <==> FailedTurn(width, todo, attempts, n + 1, game) {
      assert game in more <==> game in incomplete || (FailsAt(width, attempts, n) && game == todo[n]);
    }
  }

  /** A crash, or the end of either list, ends the run: no later turn counts. */
  lemma ListsAll(incomplete: seq<nat>, width: nat, todo: seq<nat>, attempts: seq<Attempt>, n: nat)
    requires Lists(incomplete, width, todo, attempts, n) && n <= |todo|
    requires n >= |todo| || n >= |attempts| || Crashes(width, attempts[n])
    ensures Lists(incomplete, width, todo, attempts, |todo|)
  {
  }

  lemma {:induction false} OnePieceOn(width: nat, h: seq<Piece>, p: Piece)
    requires HistoryOk(width, h) && PieceOk(width, p)
    ensures HistoryOk(width, h + [p]) && FileOf(h + [p]) == FileOf(h) + Written(p)
  {
    assert (h + [p])[..|h|] == h;
  }

  /** The done-file on disk, with the history of the appends that reached it. */
  class Disk {
    var text: string
    ghost var history: seq<Piece>

    ghost predicate Valid(width: nat)
      reads this
    {
      HistoryOk(width, history) && text == FileOf(history)
    }

    constructor ()
      ensures forall width: nat | width > 0 :: Valid(width)
      ensures text == "" && history == []
    {
      text, history := "", [];
    }

    /** `read_done_file`: line by line, a line that is not a whole number ignored. */
    method ReadDoneFile() returns (done: set<nat>)
      ensures done == ReadIds(text)
    {
      var line := "";
      done := {};
      var i := 0;
      while i < |text|
        invariant 0 <= i <= |text|
        invariant done == IdsOn(Closed(text[..i])) && line == Tail(text[..i])
      {
        var c := text[i];
        assert text[..i + 1][..i] == text[..i];
        if Breaks(c) {
          LastLine(Closed(text[..i]), line);
          done := Adding(done, line);
          line := "";
        } else {
          line := line + [c];
        }
        i := i + 1;
      }
      assert text[..i] == text;
      done := Adding(done, line);
    }

    /** `append_done`, of which `reached` characters get to the disk before a crash. */
    method AppendDone(width: nat, id: nat, reached: nat)
      requires Valid(width) && Wide(width, id)
      modifies this
      ensures Valid(width)
      ensures history == if reached > width then old(history) + [Full(id)]
                         else if reached > 0 then old(history) + [Torn(id, reached)]
                         else old(history)
    {
      hide FileOf, Digits, Wide;
      WideDigits(width, id);
      var entry := Digits(id) + "\n";
      if reached > width {
        OnePieceOn(width, history, Full(id));
        text, history := text + entry, history + [Full(id)];
      } else if reached > 0 {
        OnePieceOn(width, history, Torn(id, reached));
        text, history := text + entry[..reached], history + [Torn(id, reached)];
        assert entry[..reached] == Digits(id)[..reached];
      }
    }

    /** The per-game loop; `attempts` is what befalls each game. The counters only grow over
        a run, so each game's share is a difference. */
    method Load(width: nat, games: seq<nat>, attempts: seq<Attempt>) returns (incomplete: seq<nat>)
      requires Valid(width) && width > 0 && AllWide(width, games)
      modifies this
      ensures Valid(width)
      ensures history == old(history)
                + RunPieces(width, Todo(games, ReadIds(old(text))), attempts, 0)
      ensures var todo := Todo(games, ReadIds(old(text)));
              forall g :: g in incomplete <==> FailedTurn(width, todo, attempts, |todo|, g)
    {
      hide FileOf, Written, Closed, Tail, Digits, Wide, ReadIds, Todo, HistoryOk, FailedTurn, FailsAt, Disk.Valid;
      incomplete := [];
      var done := ReadDoneFile();
      var todo := Todo(games, done);
      TodoIsWide(width, games, done);
      var readFailures, fetchFailures, writeFailures := 0, 0, 0;
      var k := 0;
      ghost var pieces := RunPieces(width, todo, attempts, 0);
      ListsNone(width, todo, attempts);
      while k < |todo| && k < |attempts|
        invariant 0 <= k <= |todo| && k <= |attempts|
        invariant Valid(width)
        invariant history + RunPieces(width, todo, attempts, k) == old(history) + pieces
        invariant forall u | 0 <= u < k :: !Crashes(width, attempts[u])
        invariant Lists(incomplete, width, todo, attempts, k)
      {
        ListsMore(incomplete, width, todo, attempts, k);
        FailsHere(width, attempts, k);
        var readsBefore, fetchesBefore, writesBefore := readFailures, fetchFailures, writeFailures;
        match attempts[k] {
          case CutOff =>
            ListsAll(incomplete, width, todo, attempts, k);
            return;
          case Ended(lostReads, fetches, writes, reached) =>
            readFailures := readFailures + lostReads;
            fetchFailures := fetchFailures + fetches;
            writeFailures := writeFailures + writes;
            if readFailures - readsBefore > 0 || fetchFailures - fetchesBefore > 0
               || writeFailures - writesBefore > 0 {
              incomplete := incomplete + [todo[k]];
            } else {
              AppendDone(width, todo[k], reached);
              if reached <= width {
                ListsAll(incomplete, width, todo, attempts, k);
                return;
              }
            }
        }
        k := k + 1;
      }
      ListsAll(incomplete, width, todo, attempts, k);
    }
  }
}
