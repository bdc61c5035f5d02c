/**
 * src/components/AIMode.tsx: a game against the KataGo engine over a
 * websocket.  The user plays Black, the engine answers as White, and every
 * answer carries a win-rate estimate that classifies the user's move.
 *
 * Modelled here: the vertex encoding of the Go Text Protocol version 2
 * (draft section 2.11: letters A to T without I, row 19 - y, "pass"), the
 * scanning of the engine's response lines, the colouring of a principal
 * variation, and the component's state changes (placing stones with their
 * occupancy guards, undo, the first-sample baseline and the move
 * classification).  The component's state hooks are gathered in one
 * record; `parseAIInfo` (regular expressions and parseFloat) is a
 * parameter `info`; win rates are reals.
 */
module AiMode {
  import opened Wrappers
  import opened JsText
  import opened GoLogic

  // ---------------------------------------------------------------------
  // GTP vertices
  // ---------------------------------------------------------------------

  const ColLetters: string := "ABCDEFGHJKLMNOPQRST"

  lemma ColLettersAt()
    ensures |ColLetters| == 19
    ensures forall m :: 0 <= m < 19 ==> ColLetters[m] as int == if m < 8 then 65 + m else 66 + m
  {
    assert ColLetters == seq(19, m requires 0 <= m < 19 => (if m < 8 then 65 + m else 66 + m) as char);
  }

  /** `toGTP`: a board point as column letter and row 19 - y; anything off the board is "pass". */
  function ToGtp(x: int, y: int): string {
    if x < 0 || x >= 19 || y < 0 || y >= 19 then "pass"
    else [ColLetters[x]] + NatStr(19 - y)
  }

  function AsciiLower(c: char): char {
    if 'A' <= c <= 'Z' then (c as int + 32) as char else c
  }

  /**
   * `s.toLowerCase() === w` for a lower-case ASCII word w without the letter
   * k.  Outside ASCII only the Kelvin sign lowers to an ASCII letter (k),
   * and U+0130 lowers to two characters, so for such words comparing
   * character by character after ASCII lowering is exact.
   */
  predicate LowerEquals(s: string, w: string) {
    |s| == |w| && forall i :: 0 <= i < |s| ==> AsciiLower(s[i]) == w[i]
  }

  /**
   * `c.toUpperCase()` where the result can matter to `indexOf` on the column
   * letters: a-z, dotless i (to I), long s (to S), and the ligatures U+FB05
   * and U+FB06 (to "ST", which does occur in the column letters).  Every
   * other character either stays itself or becomes text that the column
   * letters do not contain, as itself does not either.
   */
  function Upper(c: char): string {
    if 'a' <= c <= 'z' then [(c as int - 32) as char]
    else if c == '\U{0131}' then "I"
    else if c == '\U{017F}' then "S"
    else if c == '\U{FB05}' || c == '\U{FB06}' then "ST"
    else [c]
  }

  /** `fromGTP`: empty, pass and resign (any case) are no point; then column and row, the row unchecked. */
  function FromGtp(g: string): Option<(int, int)> {
    if g == [] || LowerEquals(g, "pass") || LowerEquals(g, "resign") then None
    else
      var x := IndexFrom(ColLetters, Upper(g[0]), 0);
      var row := ParseInt(g[1..]);
      if x < 0 || row.None? then None else Some((x, 19 - row.value))
  }

  /** The column a first character names, stated without indexOf. */
  function ColumnOf(c: char): int {
    if 'A' <= c <= 'H' then c as int - 65
    else if 'J' <= c <= 'T' then c as int - 66
    else if 'a' <= c <= 'h' then c as int - 97
    else if 'j' <= c <= 't' then c as int - 98
    else if c == '\U{017F}' || c == '\U{FB05}' || c == '\U{FB06}' then 17
    else -1
  }

  lemma ColumnLetter(c: char)
    requires 'A' <= c <= 'T' && c != 'I'
    ensures IndexFrom(ColLetters, [c], 0) == ColumnOf(c)
  {
    ColLettersAt();
    var r := ColumnOf(c);
    assert ColLetters[r..r + 1] == [c];
    forall m | 0 <= m < r
      ensures !OccursAt(ColLetters, [c], m)
    {
      assert ColLetters[m..m + 1] == [ColLetters[m]];
    }
    IndexFromFirst(ColLetters, [c], 0, r);
  }

  lemma NoColumn(t: string, q: nat)
    requires q < |t| && !('A' <= t[q] <= 'T' && t[q] != 'I')
    ensures IndexFrom(ColLetters, t, 0) == -1
  {
    var r := IndexFrom(ColLetters, t, 0);
    if r >= 0 {
      OccursChar(ColLetters, t, r, q);
      ColLettersAt();
    }
  }

  /** indexOf on the upper-cased first character finds exactly ColumnOf. */
  lemma UpperColumn(c: char)
    ensures IndexFrom(ColLetters, Upper(c), 0) == ColumnOf(c)
  {
    if 'a' <= c <= 'z' {
      if c == 'i' || c > 't' {
        NoColumn(Upper(c), 0);
      } else {
        ColumnLetter((c as int - 32) as char);
      }
    } else if c == '\U{0131}' {
      NoColumn(Upper(c), 0);
    } else if c == '\U{017F}' {
      ColumnLetter('S');
    } else if c == '\U{FB05}' || c == '\U{FB06}' {
      ColLettersAt();
      assert ColLetters[17..19] == "ST";
      forall m | 0 <= m < 17
        ensures !OccursAt(ColLetters, "ST", m)
      {
        assert ColLetters[m..m + 2][0] == ColLetters[m];
      }
      IndexFromFirst(ColLetters, "ST", 0, 17);
    } else if 'A' <= c <= 'T' && c != 'I' {
      ColumnLetter(c);
    } else {
      NoColumn(Upper(c), 0);
    }
  }

  /**
   * fromGTP in plain terms: no point for empty text, pass or resign;
   * otherwise the first character's column and 19 minus the parsed rest,
   * when both exist.  The column is always on the board; the row is not
   * checked.
   */
  lemma FromGtpSpec(g: string)
    ensures g == [] || LowerEquals(g, "pass") || LowerEquals(g, "resign") ==> FromGtp(g).None?
    ensures !(g == [] || LowerEquals(g, "pass") || LowerEquals(g, "resign")) ==>
              FromGtp(g) == (if ColumnOf(g[0]) < 0 || ParseInt(g[1..]).None? then None
                             else Some((ColumnOf(g[0]), 19 - ParseInt(g[1..]).value)))
    ensures FromGtp(g).Some? ==> 0 <= FromGtp(g).value.0 < 19
  {
    if g != [] {
      UpperColumn(g[0]);
    }
  }

  /** Every board point survives the round trip through its GTP vertex. */
  lemma GtpRoundTrip(x: int, y: int)
    requires 0 <= x < 19 && 0 <= y < 19
    ensures FromGtp(ToGtp(x, y)) == Some((x, y))
  {
    var g := ToGtp(x, y);
    assert g == [ColLetters[x]] + NatStr(19 - y);
    NatStrTwoDigits(19 - y);
    assert g[0] == ColLetters[x] && g[1..] == NatStr(19 - y);
    LetterColumn(x);
    FromGtpSpec(g);
    ParseIntNatStr(19 - y);
  }

  lemma NatStrTwoDigits(n: nat)
    requires n < 100
    ensures |NatStr(n)| <= 2
  {
    if n >= 10 {
      assert n / 10 < 10;
    }
  }

  lemma LetterColumn(x: int)
    requires 0 <= x < 19
    ensures ColumnOf(ColLetters[x]) == x
  {
    ColLettersAt();
  }

  /** Off-board points are sent as "pass", which decodes to no point. */
  lemma ToGtpOffBoard(x: int, y: int)
    requires !(0 <= x < 19 && 0 <= y < 19)
    ensures ToGtp(x, y) == "pass" && FromGtp(ToGtp(x, y)).None?
  {
  }

  /** I is not a column, and the row is not range-checked. */
  lemma FromGtpExamples()
    ensures FromGtp("I5").None?
    ensures FromGtp("a25") == Some((0, -6))
  {
    UpperColumn('I');
    UpperColumn('a');
    assert "a25"[1..] == "25" == NatStr(25);
    ParseIntNatStr(25);
  }

  /** "pass" is recognised in any letter case. */
  lemma FromGtpPassAnyCase()
    ensures FromGtp("PaSs").None?
  {
    var p := "PaSs";
    assert AsciiLower(p[0]) == 'p' && AsciiLower(p[1]) == 'a' && AsciiLower(p[2]) == 's' && AsciiLower(p[3]) == 's';
    assert LowerEquals(p, "pass");
  }

  // ---------------------------------------------------------------------
  // Principal variations
  // ---------------------------------------------------------------------

  /** A stone of a principal variation, numbered from 1. */
  datatype PvStone = PvStone(x: int, y: int, c: int, order: nat)

  /** `moves.map(fromGTP).filter(p => p !== null)`. */
  function Decodable(tokens: seq<string>): (r: seq<(int, int)>)
    ensures |r| <= |tokens|
    ensures forall k :: 0 <= k < |r| ==> 0 <= r[k].0 < 19
  {
    if tokens == [] then []
    else
      var d := FromGtp(tokens[|tokens| - 1]);
      FromGtpSpec(tokens[|tokens| - 1]);
      Decodable(tokens[..|tokens| - 1]) + (if d.Some? then [d.value] else [])
  }

  /** The filter keeps the order of the tokens: it distributes over concatenation. */
  lemma {:induction false} DecodableAppend(a: seq<string>, b: seq<string>)
    ensures Decodable(a + b) == Decodable(a) + Decodable(b)
    decreases |b|
  {
    if b != [] {
      var b' := b[..|b| - 1];
      assert (a + b)[..|a + b| - 1] == a + b';
      DecodableAppend(a, b');
    } else {
      assert a + b == a;
    }
  }

  /** The PV stones: colours alternate from `first`, and orders run 1..n. */
  function Coloured(moves: seq<(int, int)>, first: int): (r: seq<PvStone>)
    ensures |r| == |moves|
  {
    seq(|moves|, i requires 0 <= i < |moves| =>
      PvStone(moves[i].0, moves[i].1, if i % 2 == 0 then first else -first, i + 1))
  }

  /** A PV text as the board shows it: decodable tokens only, alternately coloured from `first`. */
  function Pv(text: string, first: int): seq<PvStone> {
    Coloured(Decodable(Split(text, ' ')), first)
  }

  /** Colours alternate from `first`, and stone k is move k with order k + 1. */
  lemma ColouredSpec(moves: seq<(int, int)>, first: int)
    ensures var r := Coloured(moves, first);
            && (forall k :: 0 <= k < |r| ==> (r[k].x, r[k].y) == moves[k] && r[k].order == k + 1)
            && (|r| > 0 ==> r[0].c == first)
            && (forall k :: 0 <= k < |r| - 1 ==> r[k + 1].c == -r[k].c)
  {
    var r := Coloured(moves, first);
    forall k | 0 <= k < |r| - 1
      ensures r[k + 1].c == -r[k].c
    {
      assert (k + 1) % 2 == 0 <==> k % 2 != 0;
    }
  }

  /**
   * Undecodable tokens are dropped before numbering: the stones are exactly
   * the decodable tokens, in order, each on the board's columns; the first
   * stone has colour `first`, each next stone the other colour, and stone k
   * has order k + 1.
   */
  lemma PvSpec(text: string, first: int)
    ensures var r := Pv(text, first);
            var d := Decodable(Split(text, ' '));
            && |r| == |d| <= |Split(text, ' ')|
            && (forall k :: 0 <= k < |r| ==> (r[k].x, r[k].y) == d[k] && 0 <= r[k].x < 19 && r[k].order == k + 1)
            && (|r| > 0 ==> r[0].c == first)
            && (forall k :: 0 <= k < |r| - 1 ==> r[k + 1].c == -r[k].c)
  {
    ColouredSpec(Decodable(Split(text, ' ')), first);
  }

  // ---------------------------------------------------------------------
  // Scanning an engine response
  // ---------------------------------------------------------------------

  /** What `parseAIInfo` extracts from one line; its regular expressions and parseFloat are not modelled. */
  datatype Info = Info(winrate: Option<real>, scoreLead: Option<real>, pv: Option<string>)

  /** The mutable locals of the scanning loop, and the variation it hands to setBestSequence. */
  datatype Scan = Scan(moveStr: string, whiteWinrate: Option<real>, scoreLead: Option<real>,
                       best: Option<seq<PvStone>>)

  predicate IsPlay(line: string) {
    StartsWith(line, "play ")
  }

  predicate IsInfo(line: string, word: string) {
    StartsWith(line, "info") && Includes(line, word)
  }

  /** `line.split(' ')[1]` of a "play " line. */
  function Word1(line: string): string
    requires IsPlay(line)
  {
    assert line[4] == line[..5][4] == ' ';
    Split(line, ' ')[1]
  }

  /** An info line whose win rate is used, if no earlier one was. */
  predicate Rated(line: string, info: string -> Info) {
    !IsPlay(line) && IsInfo(line, "winrate") && info(line).winrate.Some?
  }

  /** A line that is only a vertex, which counts when no move is set yet. */
  predicate Bare(line: string) {
    !IsPlay(line) && !IsInfo(line, "winrate") && FromGtp(line).Some?
  }

  predicate HasPv(i: Info) {
    i.pv.Some? && i.pv.value != ""
  }

  /** One round of the loop over the lines of a `kata-genmove_analyze` answer. */
  function ScanLine(st: Scan, line: string, info: string -> Info): Scan {
    if IsPlay(line) then st.(moveStr := Word1(line))
    else if IsInfo(line, "winrate") then
      var i := info(line);
      if i.winrate.Some? && st.whiteWinrate.None? then
        st.(whiteWinrate := i.winrate, scoreLead := i.scoreLead,
            best := if HasPv(i) then Some(Pv(i.pv.value, -1)) else st.best)
      else st
    else if st.moveStr == "" && FromGtp(line).Some? then st.(moveStr := line)
    else st
  }

  const NoScan: Scan := Scan("", None, None, None)

  function ScanAll(lines: seq<string>, info: string -> Info): Scan {
    if lines == [] then NoScan
    else ScanLine(ScanAll(lines[..|lines| - 1], info), lines[|lines| - 1], info)
  }

  method ScanLines(lines: seq<string>, info: string -> Info) returns (st: Scan)
    ensures st == ScanAll(lines, info)
  {
    st := NoScan;
    var i := 0;
    while i < |lines|
      invariant 0 <= i <= |lines|
      invariant st == ScanAll(lines[..i], info)
    {
      var line := lines[i];
      assert lines[..i + 1][..i] == lines[..i];
      if IsPlay(line) {
        st := st.(moveStr := Word1(line));
      } else if IsInfo(line, "winrate") {
        var parsed := info(line);
        if parsed.winrate.Some? && st.whiteWinrate.None? {
          st := st.(whiteWinrate := parsed.winrate, scoreLead := parsed.scoreLead);
          if HasPv(parsed) {
            st := st.(best := Some(Pv(parsed.pv.value, -1)));
          }
        }
      } else if st.moveStr == "" && FromGtp(line).Some? {
        st := st.(moveStr := line);
      }
      i := i + 1;
    }
    assert lines[..i] == lines;
  }

  /** With no rated line, the scan keeps no win rate and no variation. */
  lemma {:induction false} NoRatedScan(lines: seq<string>, info: string -> Info)
    requires forall i :: 0 <= i < |lines| ==> !Rated(lines[i], info)
    ensures ScanAll(lines, info).whiteWinrate.None? && ScanAll(lines, info).best.None?
    decreases |lines|
  {
    if lines != [] {
      var front := lines[..|lines| - 1];
      assert forall i :: 0 <= i < |front| ==> front[i] == lines[i];
      NoRatedScan(front, info);
    }
  }

  /** Once a win rate is taken, later lines change neither it, the score nor the variation. */
  lemma {:induction false} RatedKept(a: seq<string>, b: seq<string>, info: string -> Info)
    requires ScanAll(a, info).whiteWinrate.Some?
    ensures var s, t := ScanAll(a + b, info), ScanAll(a, info);
            s.whiteWinrate == t.whiteWinrate && s.scoreLead == t.scoreLead && s.best == t.best
    decreases |b|
  {
    if b == [] {
      assert a + b == a;
    } else {
      var b' := b[..|b| - 1];
      assert (a + b)[..|a + b| - 1] == a + b';
      RatedKept(a, b', info);
    }
  }

  /** Any rated line gives the scan a win rate. */
  lemma {:induction false} RatedScan(lines: seq<string>, info: string -> Info, i: nat)
    requires i < |lines| && Rated(lines[i], info)
    ensures ScanAll(lines, info).whiteWinrate.Some?
    decreases |lines|
  {
    var front := lines[..|lines| - 1];
    if i < |front| {
      assert front[i] == lines[i];
      RatedScan(front, info, i);
      assert lines == front + [lines[|lines| - 1]];
      RatedKept(front, [lines[|lines| - 1]], info);
    }
  }

  /**
   * Only the first info line with a win rate is used: win rate, score and
   * variation (when its PV is not empty) all come from that line.
   */
  lemma FirstRatedUsed(lines: seq<string>, info: string -> Info, i: nat)
    requires i < |lines| && Rated(lines[i], info)
    requires forall j :: 0 <= j < i ==> !Rated(lines[j], info)
    ensures var st, l := ScanAll(lines, info), info(lines[i]);
            && st.whiteWinrate == l.winrate && st.scoreLead == l.scoreLead
            && st.best == (if HasPv(l) then Some(Pv(l.pv.value, -1)) else None)
  {
    var a, b := lines[..i + 1], lines[i + 1..];
    assert a[..|a| - 1] == lines[..i];
    NoRatedScan(lines[..i], info);
    assert lines == a + b;
    RatedKept(a, b, info);
  }

  /** The scan has a win rate exactly when some line is rated. */
  lemma WinrateIffRated(lines: seq<string>, info: string -> Info)
    ensures ScanAll(lines, info).whiteWinrate.None? <==> forall i :: 0 <= i < |lines| ==> !Rated(lines[i], info)
  {
    if exists i :: 0 <= i < |lines| && Rated(lines[i], info) {
      var i :| 0 <= i < |lines| && Rated(lines[i], info);
      RatedScan(lines, info, i);
    } else {
      NoRatedScan(lines, info);
    }
  }

  /** A line that is not a "play " line keeps a move already set. */
  lemma NonPlayStep(st: Scan, line: string, info: string -> Info)
    requires st.moveStr != "" && !IsPlay(line)
    ensures ScanLine(st, line, info).moveStr == st.moveStr
  {
  }

  /** A move set by the first j lines is kept by every later line that is not a "play " line. */
  lemma {:induction false} MoveKept(lines: seq<string>, j: nat, info: string -> Info)
    requires j <= |lines| && ScanAll(lines[..j], info).moveStr != ""
    requires forall k :: j <= k < |lines| ==> !IsPlay(lines[k])
    ensures ScanAll(lines, info).moveStr == ScanAll(lines[..j], info).moveStr
    decreases |lines|
  {
    if j == |lines| {
      assert lines[..j] == lines;
    } else {
      var front := lines[..|lines| - 1];
      assert front[..j] == lines[..j];
      assert forall k :: j <= k < |front| ==> front[k] == lines[k];
      MoveKept(front, j, info);
      NonPlayStep(ScanAll(front, info), lines[|lines| - 1], info);
    }
  }

  /** The scan after the first i + 1 lines, as the scan after i lines and one more step. */
  lemma ScanPrefix(lines: seq<string>, info: string -> Info, i: nat)
    requires i < |lines|
    ensures ScanAll(lines[..i + 1], info) == ScanLine(ScanAll(lines[..i], info), lines[i], info)
  {
    var a := lines[..i + 1];
    assert a[..|a| - 1] == lines[..i];
    assert a[|a| - 1] == lines[i];
  }

  /** A "play " line sets the move to its second word. */
  lemma PlayStep(st: Scan, line: string, info: string -> Info)
    requires IsPlay(line)
    ensures ScanLine(st, line, info).moveStr == Word1(line)
  {
  }

  /** The last "play " line decides the move when it names one. */
  lemma {:induction false} LastPlayWins(lines: seq<string>, info: string -> Info, k: nat)
    requires k < |lines| && IsPlay(lines[k]) && Word1(lines[k]) != ""
    requires forall j :: k < j < |lines| ==> !IsPlay(lines[j])
    ensures ScanAll(lines, info).moveStr == Word1(lines[k])
    decreases |lines|
  {
    var front := lines[..|lines| - 1];
    if k == |lines| - 1 {
      PlayStep(ScanAll(front, info), lines[k], info);
    } else {
      assert front[k] == lines[k];
      assert forall j :: k < j < |front| ==> front[j] == lines[j];
      LastPlayWins(front, info, k);
      NonPlayStep(ScanAll(front, info), lines[|lines| - 1], info);
    }
  }

  /** With no "play " line and no bare vertex line there is no move. */
  lemma {:induction false} NoBareScan(lines: seq<string>, info: string -> Info)
    requires forall j :: 0 <= j < |lines| ==> !IsPlay(lines[j]) && !Bare(lines[j])
    ensures ScanAll(lines, info).moveStr == ""
    decreases |lines|
  {
    if lines != [] {
      var front := lines[..|lines| - 1];
      assert forall i :: 0 <= i < |front| ==> front[i] == lines[i];
      NoBareScan(front, info);
    }
  }

  /** A bare vertex line sets a move that is not yet set. */
  lemma BareStep(st: Scan, line: string, info: string -> Info)
    requires st.moveStr == "" && Bare(line)
    ensures ScanLine(st, line, info).moveStr == line != ""
  {
  }

  /** With no "play " line the move is the first bare vertex line. */
  lemma {:induction false} FirstBareWins(lines: seq<string>, info: string -> Info, i: nat)
    requires forall j :: 0 <= j < |lines| ==> !IsPlay(lines[j])
    requires i < |lines| && Bare(lines[i]) && forall j :: 0 <= j < i ==> !Bare(lines[j])
    ensures ScanAll(lines, info).moveStr == lines[i]
    decreases |lines|
  {
    var front := lines[..|lines| - 1];
    assert forall j :: 0 <= j < |front| ==> front[j] == lines[j];
    if i == |lines| - 1 {
      NoBareScan(front, info);
      BareStep(ScanAll(front, info), lines[i], info);
    } else {
      FirstBareWins(front, info, i);
      NonPlayStep(ScanAll(front, info), lines[|lines| - 1], info);
    }
  }

  /** With no "play " line, there is a move exactly when some line is a bare vertex. */
  lemma MoveIffBare(lines: seq<string>, info: string -> Info)
    requires forall j :: 0 <= j < |lines| ==> !IsPlay(lines[j])
    ensures ScanAll(lines, info).moveStr == "" <==> forall j :: 0 <= j < |lines| ==> !Bare(lines[j])
  {
    if exists j :: 0 <= j < |lines| && Bare(lines[j]) {
      var j :| 0 <= j < |lines| && Bare(lines[j]);
      var st := ScanAll(lines[..j], info);
      if st.moveStr == "" {
        ScanPrefix(lines, info, j);
        BareStep(st, lines[j], info);
        MoveKept(lines, j + 1, info);
      } else {
        MoveKept(lines, j, info);
      }
    } else {
      NoBareScan(lines, info);
    }
  }

  /** The first line of a `kata-analyze` answer, from i on, that is an info line with a non-empty PV. */
  function FirstPv(lines: seq<string>, info: string -> Info, i: nat): (r: Option<nat>)
    requires i <= |lines|
    ensures r.Some? ==> i <= r.value < |lines| && IsInfo(lines[r.value], "pv") && HasPv(info(lines[r.value])) &&
                        forall j :: i <= j < r.value ==> !(IsInfo(lines[j], "pv") && HasPv(info(lines[j])))
    ensures r.None? ==> forall j :: i <= j < |lines| ==> !(IsInfo(lines[j], "pv") && HasPv(info(lines[j])))
    decreases |lines| - i
  {
    if i == |lines| then None
    else if IsInfo(lines[i], "pv") && HasPv(info(lines[i])) then Some(i)
    else FirstPv(lines, info, i + 1)
  }

  // ---------------------------------------------------------------------
  // The component's state
  // ---------------------------------------------------------------------

  datatype Tone = Good | Bad | Neutral

  /** A message; the blunder text is formatted from two numbers with toFixed, which is not modelled. */
  datatype Message = Text(text: string) | Blunder(delta: real, scoreDiff: real)

  datatype Feedback = Feedback(msg: Message, tone: Tone)

  datatype Review = NoReview | Alert | Hint | Solution

  datatype Winner = BlackWins | WhiteWins

  datatype HistoryEntry = HistoryEntry(moveNumber: nat, whiteWinrate: real)

  /**
   * The state hooks of the component.  `gameHistory` and `lastScoreLead`
   * stand for the refs the response handler reads (kept equal to the state
   * by effects); `timeoutPending` is the 15-second thinking timeout.
   */
  datatype AiState = AiState(connected: bool, stones: seq<Point>, lastMove: Option<(int, int)>,
                             isThinking: bool, provisionalMove: Option<(int, int)>,
                             lastPlayerWinrate: real, lastScoreLead: Option<real>, feedback: Option<Feedback>,
                             gameHistory: seq<HistoryEntry>, showResult: bool, winner: Winner, reason: string,
                             bestSequence: seq<PvStone>, reviewStep: Review, timeoutPending: bool)

  const Initial: AiState :=
    AiState(false, [], None, false, None, 0.5, None, None, [], false, WhiteWins, "Resignation", [], NoReview, false)

  predicate Occupied(stones: seq<Point>, x: int, y: int) {
    exists i :: 0 <= i < |stones| && stones[i].x == x && stones[i].y == y
  }

  /** `playStone`: an occupied point leaves the stones alone, but the last-move mark moves in any case. */
  ghost function Played(s: AiState, x: int, y: int, color: int): AiState {
    s.(stones := if Occupied(s.stones, x, y) then s.stones else Resolved(s.stones, Point(x, y, color)),
       lastMove := Some((x, y)))
  }

  function Say(text: string, tone: Tone): Option<Feedback> {
    Some(Feedback(Text(text), tone))
  }

  /**
   * The engine's move, with the occupancy check reading the board `seen`;
   * the move itself is played on the current stones.  The flag says whether
   * the handler returns.
   */
  ghost function EngineMoveChecked(s: AiState, seen: seq<Point>, m: string): (AiState, bool) {
    if m == "" then (s, false)
    else if LowerEquals(m, "resign") then
      (s.(feedback := Say("AI 认输!", Good), winner := BlackWins, reason := "AI 认输", showResult := true), true)
    else if LowerEquals(m, "pass") then (s.(feedback := Say("AI 停一手", Neutral)), true)
    else
      match FromGtp(m)
      case None => (s, false)
      case Some(p) =>
        if Occupied(seen, p.0, p.1) then (s.(feedback := Say("AI走棋错误，请重试", Bad)), true)
        else (Played(s, p.0, p.1, -1), false)
  }

  /**
   * What the engine's move does: resign ends the game for Black and pass
   * only says so, neither placing a stone; a vertex on an occupied point
   * is refused with a message and stops the handler; only a vertex on an
   * empty point, in White, changes the stones.
   */
  ghost function EngineMove(s: AiState, m: string): (r: (AiState, bool))
    ensures LowerEquals(m, "resign") || LowerEquals(m, "pass") ==> r.1 && r.0.stones == s.stones && r.0.lastMove == s.lastMove
    ensures FromGtp(m).Some? && Occupied(s.stones, FromGtp(m).value.0, FromGtp(m).value.1) ==>
              r.1 && r.0 == s.(feedback := Say("AI走棋错误，请重试", Bad))
    ensures r.0.stones != s.stones ==>
              !r.1 && FromGtp(m).Some? && !Occupied(s.stones, FromGtp(m).value.0, FromGtp(m).value.1) &&
              r.0.stones == Resolved(s.stones, Point(FromGtp(m).value.0, FromGtp(m).value.1, -1))
  {
    assert LowerEquals(m, "resign") || LowerEquals(m, "pass") ==> FromGtp(m).None?;
    EngineMoveChecked(s, s.stones, m)
  }

  /**
   * The win-rate step: the sample is appended to the history; the first one
   * (empty history) only sets the baseline and a warm-up message; later
   * ones classify the move by the drop in Black's win rate: more than 0.07
   * is a blunder and raises the review alert, otherwise the alert is
   * cleared.
   */
  function RateStep(s: AiState, w: real, lead: Option<real>): (r: AiState)
    ensures r.gameHistory == s.gameHistory + [HistoryEntry(|s.gameHistory| + 1, w)]
    ensures r.lastPlayerWinrate == 1.0 - w
    ensures |s.gameHistory| == 0 ==>
              r == s.(gameHistory := r.gameHistory, lastPlayerWinrate := 1.0 - w, feedback := Say("AI 预热完成", Neutral))
    ensures |s.gameHistory| > 0 ==>
              var delta := (1.0 - s.gameHistory[|s.gameHistory| - 1].whiteWinrate) - (1.0 - w);
              (r.reviewStep == Alert <==> delta > 0.07) && (r.reviewStep != Alert ==> r.reviewStep == NoReview)
    ensures r.stones == s.stones && r.lastMove == s.lastMove
  {
    var blackWinrate := 1.0 - w;
    var hist := s.gameHistory + [HistoryEntry(|s.gameHistory| + 1, w)];
    if |s.gameHistory| == 0 then
      s.(gameHistory := hist, lastPlayerWinrate := blackWinrate, feedback := Say("AI 预热完成", Neutral))
    else
      var prevBlackWinrate := 1.0 - s.gameHistory[|s.gameHistory| - 1].whiteWinrate;
      var delta := prevBlackWinrate - blackWinrate;
      var scoreDiff := if lead.Some? && s.lastScoreLead.Some? then s.lastScoreLead.value - lead.value else 0.0;
      var s1 := s.(gameHistory := hist, lastScoreLead := if lead.Some? then lead else s.lastScoreLead,
                   lastPlayerWinrate := blackWinrate);
      if delta > 0.07 then s1.(feedback := Some(Feedback(Blunder(delta, scoreDiff), Bad)), reviewStep := Alert)
      else s1.(feedback := if delta < -0.02 then Say("妙手!", Good) else Say("进行中...", Neutral),
               reviewStep := NoReview)
  }

  /** The whole handling of a successful `kata-genmove_analyze` answer, from the state after the scan's variation. */
  ghost function GenmoveDone(s: AiState, st: Scan): AiState {
    var (s1, stop) := EngineMove(s, st.moveStr);
    if stop || st.whiteWinrate.None? then s1 else RateStep(s1, st.whiteWinrate.value, st.scoreLead)
  }

  /**
   * The check as written reads the `stones` of the render in which the
   * socket handler was installed (at mount, an empty board), so an engine
   * move onto an occupied point is not refused with the message: playStone
   * then silently keeps the stones and only the last-move mark moves.
   */
  lemma StaleOccupiedCheck(s: AiState)
    requires s.stones == [Point(3, 15, 1)]
    ensures FromGtp("D4") == Some((3, 15))
    ensures var asWritten := EngineMoveChecked(s, Initial.stones, "D4");
            !asWritten.1 && asWritten.0.stones == s.stones && asWritten.0.lastMove == Some((3, 15)) &&
            asWritten.0.feedback == s.feedback
    ensures var intended := EngineMove(s, "D4");
            intended.1 && intended.0.feedback == Say("AI走棋错误，请重试", Bad) && intended.0.lastMove == s.lastMove
  {
    UpperColumn('D');
    assert "D4"[1..] == NatStr(4);
    ParseIntNatStr(4);
    assert !LowerEquals("D4", "pass") && !LowerEquals("D4", "resign");
    assert Occupied(s.stones, 3, 15) by { assert s.stones[0].x == 3 && s.stones[0].y == 15; }
    assert !Occupied(Initial.stones, 3, 15);
  }

  class AiGame {
    var state: AiState

    constructor()
      ensures state == Initial
    {
      state := Initial;
    }

    /** `playStone`. */
    method PlayStone(x: int, y: int, color: int)
      modifies this
      ensures state == Played(old(state), x, y, color)
    {
      var taken := false;
      var i := 0;
      while i < |state.stones|
        invariant 0 <= i <= |state.stones|
        invariant taken <==> exists j :: 0 <= j < i && state.stones[j].x == x && state.stones[j].y == y
      {
        if state.stones[i].x == x && state.stones[i].y == y {
          taken := true;
        }
        i := i + 1;
      }
      if !taken {
        var next := ResolveBoardState(state.stones, Point(x, y, color));
        state := state.(stones := next);
      }
      state := state.(lastMove := Some((x, y)));
    }

    /** The socket's open event. */
    method Opened()
      modifies this
      ensures state == old(state).(connected := true, feedback := Say("BOSS ENCOUNTER STARTED", Neutral))
    {
      state := state.(connected := true, feedback := Say("BOSS ENCOUNTER STARTED", Neutral));
    }

    /** The socket's close event. */
    method Closed()
      modifies this
      ensures state == old(state).(connected := false, feedback := Say("CONNECTION LOST - RECONNECTING...", Bad),
                                   isThinking := false)
    {
      state := state.(connected := false, feedback := Say("CONNECTION LOST - RECONNECTING...", Bad), isThinking := false);
    }

    /** `handleUserClick`: select an empty point, unless thinking, disconnected or reviewing. */
    method HandleUserClick(x: int, y: int)
      modifies this
      ensures var s := old(state);
              state == if s.isThinking || !s.connected || s.reviewStep != NoReview || Occupied(s.stones, x, y)
                       then s else s.(provisionalMove := Some((x, y)))
    {
      if state.isThinking || !state.connected || state.reviewStep != NoReview {
        return;
      }
      if Occupied(state.stones, x, y) {
        return;
      }
      state := state.(provisionalMove := Some((x, y)));
    }

    /** `confirmMove`: play the selected point as Black and wait for the engine, with the timeout armed. */
    method ConfirmMove()
      modifies this
      ensures var s := old(state);
              state == if s.provisionalMove.None? || s.isThinking || !s.connected || s.reviewStep != NoReview then s
                       else Played(s, s.provisionalMove.value.0, s.provisionalMove.value.1, 1)
                              .(isThinking := true, timeoutPending := true, provisionalMove := None)
    {
      if state.provisionalMove.None? {
        return;
      }
      var (x, y) := state.provisionalMove.value;
      if state.isThinking || !state.connected || state.reviewStep != NoReview {
        return;
      }
      PlayStone(x, y, 1);
      state := state.(isThinking := true, timeoutPending := true);
      state := state.(provisionalMove := None);
    }

    /** `cancelMove`. */
    method CancelMove()
      modifies this
      ensures state == old(state).(provisionalMove := None)
    {
      state := state.(provisionalMove := None);
    }

    /** The thinking timeout fires. */
    method ThinkingTimeout()
      modifies this
      ensures state == if !old(state).timeoutPending then old(state)
                       else old(state).(isThinking := false, feedback := Say("AI TIMEOUT - RETRY", Neutral),
                                        timeoutPending := false)
    {
      if !state.timeoutPending {
        return;
      }
      state := state.(isThinking := false, feedback := Say("AI TIMEOUT - RETRY", Neutral), timeoutPending := false);
    }

    /**
     * `undoLastMove`: a White stone on top goes together with the stone
     * under it, a Black one alone; one history entry goes; the engine is
     * asked for a hint.
     */
    method UndoLastMove()
      modifies this
      ensures var n := |old(state).stones|;
              var kept := if n == 0 then n
                          else if old(state).stones[n - 1].c == -1 then (if n >= 2 then n - 2 else 0)
                          else n - 1;
              var h := |old(state).gameHistory|;
              state == old(state).(stones := old(state).stones[..kept],
                                   gameHistory := old(state).gameHistory[..if h > 0 then h - 1 else 0],
                                   feedback := Say("已悔棋，AI 正在分析正解...", Neutral),
                                   reviewStep := NoReview, isThinking := true)
    {
      var newStones := state.stones;
      if |newStones| > 0 {
        var last := newStones[|newStones| - 1];
        if last.c == -1 {
          newStones := newStones[..|newStones| - 1];
          if |newStones| > 0 {
            newStones := newStones[..|newStones| - 1];
          }
        } else {
          newStones := newStones[..|newStones| - 1];
        }
      }
      var newHist := state.gameHistory;
      if |newHist| > 0 {
        newHist := newHist[..|newHist| - 1];
      }
      state := state.(stones := newStones, gameHistory := newHist, feedback := Say("已悔棋，AI 正在分析正解...", Neutral),
                      reviewStep := NoReview, isThinking := true);
    }

    /** The engine's answer to `kata-genmove_analyze` or `genmove`. */
    method HandleGenmove(success: bool, responseText: string, info: string -> Info)
      modifies this
      ensures var s0 := old(state).(isThinking := false, timeoutPending := false);
              var st := ScanAll(Split(responseText, '\n'), info);
              state == if !success then s0
                       else GenmoveDone(if st.best.Some? then s0.(bestSequence := st.best.value) else s0, st)
    {
      state := state.(isThinking := false, timeoutPending := false);
      if !success {
        return;
      }
      var lines := Split(responseText, '\n');
      var scan := ScanLines(lines, info);
      if scan.best.Some? {
        state := state.(bestSequence := scan.best.value);
      }
      ghost var s1 := state;
      var moveStr := scan.moveStr;
      if moveStr != "" {
        if LowerEquals(moveStr, "resign") {
          state := state.(feedback := Say("AI 认输!", Good), winner := BlackWins, reason := "AI 认输", showResult := true);
          return;
        }
        if LowerEquals(moveStr, "pass") {
          state := state.(feedback := Say("AI 停一手", Neutral));
          return;
        }
        var coords := FromGtp(moveStr);
        if coords.Some? {
          if Occupied(state.stones, coords.value.0, coords.value.1) {
            state := state.(feedback := Say("AI走棋错误，请重试", Bad));
            return;
          }
          PlayStone(coords.value.0, coords.value.1, -1);
        }
      }
      assert state == EngineMove(s1, moveStr).0;
      if scan.whiteWinrate.Some? {
        state := RateStep(state, scan.whiteWinrate.value, scan.scoreLead);
      }
    }

    /** The engine's answer to `kata-analyze` after an undo: the first non-empty PV, coloured from Black, becomes the hint. */
    method HandleAnalyze(success: bool, responseText: string, info: string -> Info)
      modifies this
      ensures var s0 := old(state).(isThinking := false);
              var lines := Split(responseText, '\n');
              var f := FirstPv(lines, info, 0);
              state == if !success || f.None? then s0
                       else s0.(bestSequence := Pv(info(lines[f.value]).pv.value, 1),
                                feedback := Say("正解已生成 (点击'提示'或'查看正解')", Neutral), reviewStep := Hint)
    {
      state := state.(isThinking := false);
      if !success {
        return;
      }
      var lines := Split(responseText, '\n');
      var i := 0;
      while i < |lines|
        invariant 0 <= i <= |lines|
        invariant FirstPv(lines, info, 0) == FirstPv(lines, info, i)
        invariant state == old(state).(isThinking := false)
      {
        var line := lines[i];
        if IsInfo(line, "pv") {
          var parsed := info(line);
          if HasPv(parsed) {
            state := state.(bestSequence := Pv(parsed.pv.value, 1),
                            feedback := Say("正解已生成 (点击'提示'或'查看正解')", Neutral), reviewStep := Hint);
            break;
          }
        }
        i := i + 1;
      }
    }

    /** `handleBackendResponse`: dispatch on the command the answer belongs to; `response || ""`. */
    method HandleBackendResponse(command: string, success: bool, response: Option<string>, info: string -> Info)
      modifies this
      ensures var text := if response.Some? then response.value else "";
              var s0 := old(state).(isThinking := false, timeoutPending := false);
              var st := ScanAll(Split(text, '\n'), info);
              var lines := Split(text, '\n');
              var f := FirstPv(lines, info, 0);
              state == if command == "kata-genmove_analyze" || command == "genmove" then
                         (if !success then s0
                          else GenmoveDone(if st.best.Some? then s0.(bestSequence := st.best.value) else s0, st))
                       else if command == "kata-analyze" then
                         (if !success || f.None? then old(state).(isThinking := false)
                          else old(state).(isThinking := false, bestSequence := Pv(info(lines[f.value]).pv.value, 1),
                                           feedback := Say("正解已生成 (点击'提示'或'查看正解')", Neutral),
                                           reviewStep := Hint))
                       else old(state)
    {
      var text := if response.Some? then response.value else "";
      if command == "kata-genmove_analyze" || command == "genmove" {
        HandleGenmove(success, text, info);
      } else if command == "kata-analyze" {
        HandleAnalyze(success, text, info);
      }
    }

    /** `resetGame`. */
    method ResetGame()
      modifies this
      ensures state == old(state).(stones := [], lastMove := None, lastPlayerWinrate := 0.5, gameHistory := [],
                                   showResult := false, feedback := Say("新对局开始", Neutral), isThinking := false,
                                   timeoutPending := false, lastScoreLead := None)
    {
      state := state.(stones := [], lastMove := None, lastPlayerWinrate := 0.5, gameHistory := [], showResult := false,
                      feedback := Say("新对局开始", Neutral), isThinking := false, timeoutPending := false,
                      lastScoreLead := None);
    }
  }
}
