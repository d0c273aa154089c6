/**
 * Reading a maze from its text (`Maze.__init__` with the file's contents in
 * hand): marker validation, line splitting, the wall grid and the start and
 * goal cells.
 */
module MazeText {
  import opened Wrappers
  import opened Grids

  /** The only way construction fails: 'A' or 'B' does not occur exactly once. */
  datatype ParseError = MarkerCount

  /** `str.count` for a single character. */
  function Count(s: string, ch: char): nat {
    if s == [] then 0 else (if s[0] == ch then 1 else 0) + Count(s[1..], ch)
  }

  function SumCount(lines: seq<string>, ch: char): nat {
    if lines == [] then 0 else Count(lines[0], ch) + SumCount(lines[1..], ch)
  }

  /** The pieces between '\n' separators: one more piece than there are separators. */
  function SplitOnNewline(s: string): (r: seq<string>)
    ensures |r| == 1 + Count(s, '\n')
    ensures forall i :: 0 <= i < |r| ==> '\n' !in r[i]
  {
    if s == [] then [[]]
    else
      var rest := SplitOnNewline(s[1..]);
      if s[0] == '\n' then [[]] + rest
      else [[s[0]] + rest[0]] + rest[1..]
  }

  /** The inverse of splitting: pieces joined with '\n' between them. */
  function Join(lines: seq<string>): string {
    if lines == [] then []
    else if |lines| == 1 then lines[0]
    else lines[0] + "\n" + Join(lines[1..])
  }

  /**
   * `str.splitlines` for text whose only line break is '\n': the text split at
   * each '\n', where a final '\n' ends the last line instead of starting an
   * empty one, and the empty text has no lines.
   */
  function Lines(text: string): seq<string> {
    if text == [] then []
    else
      var pieces := SplitOnNewline(text);
      if text[|text| - 1] == '\n' then pieces[..|pieces| - 1] else pieces
  }

  /** A character blocks movement unless it is a blank or one of the two markers. */
  predicate IsWallChar(ch: char) {
    ch != ' ' && ch != 'A' && ch != 'B'
  }

  function WallRow(line: string): (r: seq<bool>)
    ensures |r| == |line|
    ensures forall j :: 0 <= j < |line| ==> r[j] == IsWallChar(line[j])
  {
    seq(|line|, j requires 0 <= j < |line| => IsWallChar(line[j]))
  }

  function WallRows(lines: seq<string>): (r: seq<seq<bool>>)
    ensures |r| == |lines|
    ensures forall i :: 0 <= i < |lines| ==> r[i] == WallRow(lines[i])
  {
    seq(|lines|, i requires 0 <= i < |lines| => WallRow(lines[i]))
  }

  /** `max(len(line) for line in contents)`. */
  function MaxLen(lines: seq<string>): (m: nat)
    requires |lines| > 0
    ensures forall i :: 0 <= i < |lines| ==> |lines[i]| <= m
    ensures exists i :: 0 <= i < |lines| && |lines[i]| == m
  {
    if |lines| == 1 then |lines[0]|
    else
      var m := MaxLen(lines[1..]);
      assert forall i :: 1 <= i < |lines| ==> lines[i] == lines[1..][i - 1];
      if |lines[0]| >= m then |lines[0]| else m
  }

  /** Character `ch` stands at position p of the lines. */
  predicate IsAt(lines: seq<string>, p: Cell, ch: char) {
    0 <= p.row < |lines| && 0 <= p.col < |lines[p.row]| && lines[p.row][p.col] == ch
  }

  /** The first index of `ch` in s, as `line.index(ch)` finds it. */
  function IndexOf(s: string, ch: char): (r: Option<nat>)
    ensures r.Some? ==> r.value < |s| && s[r.value] == ch
    ensures r.Some? ==> forall j :: 0 <= j < r.value ==> s[j] != ch
    ensures r.None? ==> ch !in s && Count(s, ch) == 0
  {
    if s == [] then None
    else if s[0] == ch then Some(0)
    else match IndexOf(s[1..], ch)
      case Some(j) => Some(j + 1)
      case None => None
  }

  /** The first position of `ch`, rows top to bottom and each row left to right. */
  function Locate(lines: seq<string>, ch: char): (r: Option<Cell>)
    ensures r.Some? ==> IsAt(lines, r.value, ch)
    ensures r.Some? ==> forall q :: IsAt(lines, q, ch) ==>
      r.value.row < q.row || (r.value.row == q.row && r.value.col <= q.col)
    ensures r.None? ==> SumCount(lines, ch) == 0
  {
    if lines == [] then None
    else match IndexOf(lines[0], ch)
      case Some(j) => Some(Cell(0, j))
      case None =>
        assert forall q :: IsAt(lines, q, ch) ==> q.row > 0 && IsAt(lines[1..], Cell(q.row - 1, q.col), ch);
        match Locate(lines[1..], ch)
        case Some(c) => Some(Cell(c.row + 1, c.col))
        case None => None
  }

  /**
   * `Maze.__init__` on the file's text: fails unless 'A' and 'B' each occur
   * exactly once; otherwise one wall row per line, `width` the longest line,
   * and `start` and `goal` the positions of 'A' and 'B'.
   */
  function Parse(text: string): (r: Result<Grid, ParseError>)
    ensures r.Failure? <==> Count(text, 'A') != 1 || Count(text, 'B') != 1
    ensures r.Success? ==> Describes(Lines(text), r.value)
  {
    if Count(text, 'A') != 1 || Count(text, 'B') != 1 then Failure(MarkerCount)
    else
      var lines := Lines(text);
      LinesCount(text, 'A');
      LinesCount(text, 'B');
      var a := Locate(lines, 'A');
      var b := Locate(lines, 'B');
      var g := Grid(|lines|, MaxLen(lines), WallRows(lines), a.value, b.value);
      BuiltGridDescribes(lines, g);
      Success(g)
  }

  lemma BuiltGridDescribes(lines: seq<string>, g: Grid)
    requires SumCount(lines, 'A') == 1 && SumCount(lines, 'B') == 1 && |lines| > 0
    requires g.height == |lines| && g.width == MaxLen(lines) && g.walls == WallRows(lines)
    requires IsAt(lines, g.start, 'A') && IsAt(lines, g.goal, 'B')
    ensures Describes(lines, g)
  {
    OnlyPosition(lines, 'A', g.start);
    OnlyPosition(lines, 'B', g.goal);
    if Rectangular(g) {
      assert !g.walls[g.start.row][g.start.col];
      assert !g.walls[g.goal.row][g.goal.col];
    }
  }

  /**
   * What a parsed maze says about its lines: one wall row per line with one
   * entry per character, `width` the longest line, the start the only 'A'
   * and the goal the only 'B', and so a well-formed maze when rows are even.
   */
  ghost predicate Describes(lines: seq<string>, g: Grid) {
    g.height == |lines| &&
    (forall i :: 0 <= i < |lines| ==> |lines[i]| <= g.width) &&
    (exists i :: 0 <= i < |lines| && |lines[i]| == g.width) &&
    |g.walls| == |lines| &&
    (forall i :: 0 <= i < |lines| ==> |g.walls[i]| == |lines[i]|) &&
    (forall i, j :: 0 <= i < |lines| && 0 <= j < |lines[i]| ==> g.walls[i][j] == IsWallChar(lines[i][j])) &&
    IsAt(lines, g.start, 'A') && (forall p :: IsAt(lines, p, 'A') ==> p == g.start) &&
    IsAt(lines, g.goal, 'B') && (forall p :: IsAt(lines, p, 'B') ==> p == g.goal) &&
    (Rectangular(g) ==> WellFormed(g))
  }

  lemma {:induction false} CountPositive(s: string, ch: char, j: nat)
    requires j < |s| && s[j] == ch
    ensures Count(s, ch) >= 1
  {
    if j > 0 {
      CountPositive(s[1..], ch, j - 1);
    }
  }

  /** Two different indices holding `ch` make it occur at least twice. */
  lemma {:induction false} CountTwice(s: string, ch: char, j: nat, k: nat)
    requires j < k < |s| && s[j] == ch && s[k] == ch
    ensures Count(s, ch) >= 2
  {
    if j == 0 {
      CountPositive(s[1..], ch, k - 1);
    } else {
      CountTwice(s[1..], ch, j - 1, k - 1);
    }
  }

  lemma {:induction false} SumCountPositive(lines: seq<string>, ch: char, p: Cell)
    requires IsAt(lines, p, ch)
    ensures SumCount(lines, ch) >= 1
  {
    if p.row == 0 {
      CountPositive(lines[0], ch, p.col);
    } else {
      SumCountPositive(lines[1..], ch, Cell(p.row - 1, p.col));
    }
  }

  /** A character counted once in all the lines stands at one position only. */
  lemma {:induction false} OnlyPosition(lines: seq<string>, ch: char, p: Cell)
    requires SumCount(lines, ch) == 1 && IsAt(lines, p, ch)
    ensures forall q :: IsAt(lines, q, ch) ==> q == p
  {
    forall q | IsAt(lines, q, ch) ensures q == p {
      SamePosition(lines, ch, p, q);
    }
  }

  lemma {:induction false} SamePosition(lines: seq<string>, ch: char, p: Cell, q: Cell)
    requires SumCount(lines, ch) == 1 && IsAt(lines, p, ch) && IsAt(lines, q, ch)
    ensures p == q
  {
    if p.row == 0 && q.row == 0 {
      CountPositive(lines[0], ch, p.col);
      if p.col < q.col {
        CountTwice(lines[0], ch, p.col, q.col);
      } else if q.col < p.col {
        CountTwice(lines[0], ch, q.col, p.col);
      }
    } else if p.row == 0 {
      CountPositive(lines[0], ch, p.col);
      SumCountPositive(lines[1..], ch, Cell(q.row - 1, q.col));
    } else if q.row == 0 {
      CountPositive(lines[0], ch, q.col);
      SumCountPositive(lines[1..], ch, Cell(p.row - 1, p.col));
    } else {
      SumCountPositive(lines[1..], ch, Cell(p.row - 1, p.col));
      SamePosition(lines[1..], ch, Cell(p.row - 1, p.col), Cell(q.row - 1, q.col));
    }
  }

  /** Splitting at '\n' loses no other character. */
  lemma {:induction false} SplitCount(s: string, ch: char)
    requires ch != '\n'
    ensures SumCount(SplitOnNewline(s), ch) == Count(s, ch)
  {
    if s != [] {
      SplitCount(s[1..], ch);
      var rest := SplitOnNewline(s[1..]);
      if s[0] != '\n' {
        assert ([s[0]] + rest[0])[1..] == rest[0];
        assert ([[s[0]] + rest[0]] + rest[1..])[1..] == rest[1..];
      } else {
        assert ([[]] + rest)[1..] == rest;
      }
    }
  }

  lemma {:induction false} SumCountSnoc(lines: seq<string>, last: string, ch: char)
    ensures SumCount(lines + [last], ch) == SumCount(lines, ch) + Count(last, ch)
  {
    if lines != [] {
      assert (lines + [last])[1..] == lines[1..] + [last];
      SumCountSnoc(lines[1..], last, ch);
    }
  }

  /** The last piece after a final '\n' is empty. */
  lemma {:induction false} SplitEndsEmpty(s: string)
    requires s != [] && s[|s| - 1] == '\n'
    ensures |SplitOnNewline(s)| >= 2 && SplitOnNewline(s)[|SplitOnNewline(s)| - 1] == []
  {
    if |s| > 1 {
      SplitEndsEmpty(s[1..]);
    }
  }

  /** Markers other than '\n' are counted the same in the text and in its lines. */
  lemma {:induction false} LinesCount(text: string, ch: char)
    requires ch != '\n'
    ensures SumCount(Lines(text), ch) == Count(text, ch)
  {
    if text != [] {
      var pieces := SplitOnNewline(text);
      SplitCount(text, ch);
      if text[|text| - 1] == '\n' {
        SplitEndsEmpty(text);
        var kept := pieces[..|pieces| - 1];
        assert Lines(text) == kept;
        assert pieces == kept + [[]];
        SumCountSnoc(kept, [], ch);
        assert Count([], ch) == 0;
      } else {
        assert Lines(text) == pieces;
      }
    }
  }

  lemma {:induction false} SplitJoin(s: string)
    ensures Join(SplitOnNewline(s)) == s
  {
    if s != [] {
      SplitJoin(s[1..]);
      var rest := SplitOnNewline(s[1..]);
      if s[0] == '\n' {
        assert ([[]] + rest)[1..] == rest;
      } else {
        var r := [[s[0]] + rest[0]] + rest[1..];
        if |rest| > 1 {
          assert r[1..] == rest[1..];
          assert Join(rest) == rest[0] + "\n" + Join(rest[1..]);
        }
      }
    }
  }

  /** Splitting a newline-free prefix: it opens the first piece. */
  lemma {:induction false} SplitPrefix(l: string, s: string)
    requires '\n' !in l
    ensures SplitOnNewline(l + s) == [l + SplitOnNewline(s)[0]] + SplitOnNewline(s)[1..]
  {
    if l != [] {
      SplitPrefix(l[1..], s);
      assert (l + s)[0] == l[0] != '\n';
      assert (l + s)[1..] == l[1..] + s;
      var rest := SplitOnNewline(l[1..] + s);
      assert rest[0] == l[1..] + SplitOnNewline(s)[0];
      assert rest[1..] == SplitOnNewline(s)[1..];
      assert [l[0]] + (l[1..] + SplitOnNewline(s)[0]) == l + SplitOnNewline(s)[0];
    } else {
      var pieces := SplitOnNewline(s);
      assert l + s == s && l + pieces[0] == pieces[0];
      assert pieces == [pieces[0]] + pieces[1..];
    }
  }

  /** The converse round trip: joining newline-free lines and splitting again gives the lines back. */
  lemma {:induction false} JoinSplit(lines: seq<string>)
    requires lines != [] && forall i :: 0 <= i < |lines| ==> '\n' !in lines[i]
    ensures SplitOnNewline(Join(lines)) == lines
  {
    if |lines| == 1 {
      SplitPrefix(lines[0], []);
      assert lines[0] + [] == lines[0];
    } else {
      JoinSplit(lines[1..]);
      var tail := "\n" + Join(lines[1..]);
      assert tail[1..] == Join(lines[1..]);
      assert SplitOnNewline(tail) == [[]] + lines[1..];
      assert Join(lines) == lines[0] + tail;
      SplitPrefix(lines[0], tail);
      assert lines[0] + [] == lines[0];
    }
  }

  lemma {:induction false} JoinSnoc(lines: seq<string>, last: string)
    requires lines != []
    ensures Join(lines + [last]) == Join(lines) + "\n" + last
  {
    if |lines| > 1 {
      assert (lines + [last])[1..] == lines[1..] + [last];
      JoinSnoc(lines[1..], last);
    }
  }

  /**
   * Lines are a faithful reading of the text: no line holds a '\n', and joining
   * them with '\n' (plus the final '\n', if any) gives the text back.
   */
  lemma LinesRoundTrip(text: string)
    ensures forall i :: 0 <= i < |Lines(text)| ==> '\n' !in Lines(text)[i]
    ensures Join(Lines(text)) + (if text != [] && text[|text| - 1] == '\n' then "\n" else "") == text
  {
    if text != [] {
      var pieces := SplitOnNewline(text);
      SplitJoin(text);
      if text[|text| - 1] == '\n' {
        SplitEndsEmpty(text);
        var front := pieces[..|pieces| - 1];
        assert pieces == front + [[]];
        JoinSnoc(front, []);
      }
    }
  }
}
