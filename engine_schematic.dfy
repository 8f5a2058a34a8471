// Day 3, "Gear Ratios": the engine schematic is a grid of characters. Every
// cell that is neither '.' nor a digit is a symbol; the numbers written next
// to a symbol (on its own row and on the rows above and below) are part
// numbers, and the answer is their total.
//
// A read outside the grid (a Rust index panic) and a walk that never ends
// are both the outcome `None` of the reference functions; the methods
// that mirror the source's loops require that outcome not to happen.

module EngineSchematic {
  import opened Common
  import opened Text

  /** The column clamp used for every neighbouring column. */
  const LineLength: nat := 140

  /** `col_idx`: columns past `LineLength` are clamped to it. */
  function ColIdx(idx: nat): (r: nat)
    ensures r <= LineLength
    ensures idx <= LineLength ==> r == idx
  {
    if idx > LineLength then LineLength else idx
  }

  /** Clamping twice is clamping once, and a clamped column is the input exactly when it was in range. */
  lemma ColIdxIdempotent(idx: nat)
    ensures ColIdx(ColIdx(idx)) == ColIdx(idx)
    ensures ColIdx(idx) == idx <==> idx <= LineLength
  {
  }

  /** `usize::saturating_sub(1)`. */
  function SatSub1(n: nat): nat {
    if n == 0 then 0 else n - 1
  }

  /** A cell that is neither '.' nor a decimal digit. */
  predicate IsSymbol(c: char) {
    c != '.' && !IsDigit(c)
  }

  datatype Direction = Forward | Backwards

  /** The column `get_number` moves to next. */
  function Step(col: nat, dir: Direction): nat {
    ColIdx(if dir == Forward then col + 1 else SatSub1(col))
  }

  // ---------------------------------------------------------------------
  // get_number
  // ---------------------------------------------------------------------

  /**
   * The digits `get_number` pushes, in the order it meets them: starting at
   * `col`, while the cell is a digit, stopping after column 0 and before
   * the clamp column. `None` when a read leaves the line.
   */
  function Collect(line: string, col: nat, dir: Direction): Option<string>
    decreases if dir == Forward then (if col < LineLength then LineLength - col else 0) else col
  {
    if col >= |line| then None
    else if !IsDigit(line[col]) then Some([])
    else
      var next := Step(col, dir);
      if col == 0 || next == LineLength then Some([line[col]])
      else
        match Collect(line, next, dir)
        case None => None
        case Some(rest) => Some([line[col]] + rest)
  }

  function Reverse(s: string): (r: string)
    ensures |r| == |s|
  {
    if s == [] then [] else Reverse(s[1..]) + [s[0]]
  }

  /** `number_str.parse::<u32>().unwrap_or(0)`. */
  function ReadNumber(s: string): nat {
    match ParseUnsigned(s, U32Bound)
    case Some(n) => n
    case None => 0
  }

  /** `get_number`: the collected digits, put back in reading order when going backwards, as a `u32`. */
  function NumberAt(line: string, col: nat, dir: Direction): Option<nat> {
    match Collect(line, col, dir)
    case None => None
    case Some(s) => Some(ReadNumber(if dir == Backwards then Reverse(s) else s))
  }

  /** A string of digits reads as its value when it is non-empty and fits a `u32`, and as 0 otherwise. */
  lemma ReadNumberOfDigits(s: string)
    requires AllDigits(s)
    ensures ReadNumber(s) == if s != [] && DigitsValue(s) < U32Bound then DigitsValue(s) else 0
  {
  }

  /** A start cell that is not a digit gives 0. */
  lemma NumberAtNonDigit(line: string, col: nat, dir: Direction)
    requires col < |line| && !IsDigit(line[col])
    ensures NumberAt(line, col, dir) == Some(0)
  {
  }

  /** The characters of `s` are digits, and are the cells of `line` from `start` on. */
  predicate DigitsFrom(line: string, start: nat, s: string)
    decreases |s|
  {
    start + |s| <= |line| && (s == [] || (IsDigit(s[0]) && s[0] == line[start] && DigitsFrom(line, start + 1, s[1..])))
  }

  lemma {:induction false} DigitAt(line: string, start: nat, s: string, i: nat)
    requires DigitsFrom(line, start, s) && i < |s|
    ensures start + i < |line| && s[i] == line[start + i] && IsDigit(s[i])
    decreases i
  {
    if i > 0 {
      DigitAt(line, start + 1, s[1..], i - 1);
    }
  }

  /** Every cell covered by a digit string read from `start` holds a digit. */
  lemma DigitsFromAll(line: string, start: nat, s: string)
    requires DigitsFrom(line, start, s)
    ensures start + |s| <= |line| && forall k :: start <= k < start + |s| ==> IsDigit(line[k])
  {
    forall k | start <= k < start + |s| ensures IsDigit(line[k]) {
      DigitAt(line, start, s, k - start);
    }
  }

  /** Digits read off a line are the slice they came from. */
  lemma {:induction false} SliceOfDigits(line: string, start: nat, s: string)
    requires DigitsFrom(line, start, s)
    ensures line[start..start + |s|] == s && AllDigits(s)
    decreases |s|
  {
    if s != [] {
      SliceOfDigits(line, start + 1, s[1..]);
      assert line[start..start + |s|] == [line[start]] + line[start + 1..start + |s|];
      assert s == [s[0]] + s[1..];
    }
  }

  lemma {:induction false} DigitsFromSnoc(line: string, start: nat, u: string, x: char)
    requires DigitsFrom(line, start, u) && start + |u| < |line| && line[start + |u|] == x && IsDigit(x)
    ensures DigitsFrom(line, start, u + [x])
    decreases |u|
  {
    if u != [] {
      DigitsFromSnoc(line, start + 1, u[1..], x);
      assert (u + [x])[1..] == u[1..] + [x];
    }
  }

  /**
   * Reading forwards from a column past 0 collects the longest run of
   * digits starting there that ends before a non-digit or at the clamp
   * column.
   */
  lemma {:induction false} ForwardRunDigits(line: string, col: nat)
    requires 0 < col < LineLength && Collect(line, col, Forward).Some?
    ensures var s := Collect(line, col, Forward).value;
      DigitsFrom(line, col, s) &&
      (col + |s| == LineLength || (col + |s| < |line| && !IsDigit(line[col + |s|])))
    decreases LineLength - col
  {
    if IsDigit(line[col]) && col + 1 < LineLength {
      ForwardRunDigits(line, col + 1);
      var t := Collect(line, col + 1, Forward).value;
      var s := Collect(line, col, Forward).value;
      assert s == [line[col]] + t;
      assert s[1..] == t;
    }
  }

  /** The forward number is the value of the slice `col..j` it collected. */
  lemma ForwardValue(line: string, col: nat, j: nat)
    requires 0 < col < LineLength && Collect(line, col, Forward).Some?
    requires j == col + |Collect(line, col, Forward).value|
    ensures j <= |line| && NumberAt(line, col, Forward) == Some(ReadNumber(line[col..j]))
  {
    var s := Collect(line, col, Forward).value;
    ForwardRunDigits(line, col);
    SliceOfDigits(line, col, s);
    assert line[col..j] == s;
  }

  /** The digits from `start` up to `j`, followed by a non-digit or the clamp column. */
  predicate RunFrom(line: string, start: nat, j: nat) {
    start <= j <= |line| && (j == LineLength || (j < |line| && !IsDigit(line[j]))) &&
    forall k :: start <= k < j ==> IsDigit(line[k])
  }

  /** The digits from `i` up to `e`, preceded by a non-digit or the start of the line. */
  predicate RunEndingAt(line: string, i: nat, e: nat) {
    i <= e <= |line| && (i == 0 || !IsDigit(line[i - 1])) && forall k :: i <= k < e ==> IsDigit(line[k])
  }

  /**
   * Reading forwards from a column past 0 reads the longest run of digits
   * starting there, as a `u32`.
   */
  lemma ForwardRun(line: string, col: nat) returns (j: nat)
    requires 0 < col < LineLength && Collect(line, col, Forward).Some?
    ensures RunFrom(line, col, j) && NumberAt(line, col, Forward) == Some(ReadNumber(line[col..j]))
  {
    var s := Collect(line, col, Forward).value;
    ForwardRunDigits(line, col);
    j := col + |s|;
    forall k | col <= k < j ensures IsDigit(line[k]) {
      DigitAt(line, col, s, k - col);
    }
    ForwardValue(line, col, j);
  }

  /** Reading backwards from a column within the line collects the longest run of digits ending there. */
  lemma {:induction false} BackwardRunDigits(line: string, col: nat)
    requires col < |line| && col <= LineLength
    ensures Collect(line, col, Backwards).Some?
    ensures var s := Collect(line, col, Backwards).value;
      |s| <= col + 1 && DigitsFrom(line, col + 1 - |s|, Reverse(s)) &&
      (|s| == col + 1 || !IsDigit(line[col - |s|]))
  {
    if IsDigit(line[col]) {
      if col > 0 {
        BackwardRunDigits(line, col - 1);
        var t := Collect(line, col - 1, Backwards).value;
        var s := Collect(line, col, Backwards).value;
        assert s == [line[col]] + t;
        assert s[1..] == t;
        assert Reverse(s) == Reverse(t) + [line[col]];
        DigitsFromSnoc(line, col - |t|, Reverse(t), line[col]);
      } else {
        assert Reverse([line[0]]) == [line[0]];
      }
    }
  }

  /** The backward number is the value of the slice `i..col + 1` it collected, put back in reading order. */
  lemma BackwardValue(line: string, col: nat, i: nat)
    requires col < |line| && col <= LineLength && Collect(line, col, Backwards).Some?
    requires i + |Collect(line, col, Backwards).value| == col + 1
    ensures NumberAt(line, col, Backwards) == Some(ReadNumber(line[i..col + 1]))
  {
    var s := Collect(line, col, Backwards).value;
    BackwardRunDigits(line, col);
    var r := Reverse(s);
    SliceOfDigits(line, i, r);
    assert line[i..col + 1] == r;
  }

  /**
   * Reading backwards from a column inside the line reads the longest run of
   * digits ending there, put back in reading order, as a `u32`.
   */
  lemma BackwardRun(line: string, col: nat) returns (i: nat)
    requires col < |line| && col <= LineLength
    ensures RunEndingAt(line, i, col + 1) && NumberAt(line, col, Backwards) == Some(ReadNumber(line[i..col + 1]))
  {
    BackwardRunDigits(line, col);
    var s := Collect(line, col, Backwards).value;
    i := col + 1 - |s|;
    DigitsFromAll(line, i, Reverse(s));
    BackwardValue(line, col, i);
  }

  /** One step of the collecting walk: a digit cell ends the string or heads the rest of it. */
  lemma CollectStep(line: string, c: nat, dir: Direction)
    requires c < |line| && IsDigit(line[c]) && Collect(line, c, dir).Some?
    ensures c == 0 || Step(c, dir) == LineLength ==> Collect(line, c, dir).value == [line[c]]
    ensures c != 0 && Step(c, dir) != LineLength ==>
      Collect(line, Step(c, dir), dir).Some? && Collect(line, c, dir).value == [line[c]] + Collect(line, Step(c, dir), dir).value
  {
  }

  /** `get_number`: the digits collected from `col`, reversed when walking backwards, parsed. */
  method GetNumber(lines: seq<string>, row: nat, col: nat, dir: Direction) returns (n: nat)
    requires row < |lines| && NumberAt(lines[row], col, dir).Some?
    ensures n == NumberAt(lines[row], col, dir).value
  {
    var numberStr := CollectDigits(lines[row], col, dir);
    if dir == Backwards {
      numberStr := Reverse(numberStr);
    }
    n := ReadNumber(numberStr);
  }

  /** The digit-collecting loop of `get_number`. */
  method CollectDigits(line: string, col: nat, dir: Direction) returns (numberStr: string)
    requires Collect(line, col, dir).Some?
    ensures Collect(line, col, dir) == Some(numberStr)
  {
    ghost var whole := Collect(line, col, dir).value;
    numberStr := [];
    var c := col;
    var curr := line[c];
    while IsDigit(curr)
      invariant c < |line| && curr == line[c]
      invariant Collect(line, c, dir).Some?
      invariant whole == numberStr + Collect(line, c, dir).value
      decreases if dir == Forward then (if c < LineLength then LineLength - c else 0) else c
    {
      CollectStep(line, c, dir);
      numberStr := numberStr + [curr];
      var next := Step(c, dir);
      if c == 0 || next == LineLength {
        break;
      }
      c := next;
      curr := line[c];
    }
    assert numberStr == whole;
  }

  // ---------------------------------------------------------------------
  // backtracking_get_number
  // ---------------------------------------------------------------------

  /** Walking left from `col` over digits meets a non-digit inside the line. */
  predicate StopsLeft(line: string, col: nat)
    decreases col
  {
    col < |line| && (!IsDigit(line[col]) || (col > 0 && StopsLeft(line, col - 1)))
  }

  /** `StopsLeft` holds exactly when some cell at or left of `col` is not a digit. */
  lemma {:induction false} StopsLeftIff(line: string, col: nat)
    ensures StopsLeft(line, col) <==> col < |line| && exists j :: 0 <= j <= col && !IsDigit(line[j])
  {
    if col < |line| && IsDigit(line[col]) && col > 0 {
      StopsLeftIff(line, col - 1);
      if exists j :: 0 <= j <= col && !IsDigit(line[j]) {
        var j :| 0 <= j <= col && !IsDigit(line[j]);
        assert j <= col - 1;
      }
    }
  }

  /** The column where the left walk stops: the nearest non-digit at or left of `col`. */
  function LeftStop(line: string, col: nat): (j: nat)
    requires StopsLeft(line, col)
    ensures j <= col && j < |line| && !IsDigit(line[j])
    ensures forall k :: j < k <= col ==> IsDigit(line[k])
    decreases col
  {
    if !IsDigit(line[col]) then col else LeftStop(line, col - 1)
  }

  /**
   * `backtracking_get_number`: walk left to the first non-digit, then read
   * forwards from the column after it. `None` when the walk never stops
   * (the run reaches column 0) or a read leaves the line.
   */
  function BacktrackNumber(line: string, col: nat): Option<nat> {
    if StopsLeft(line, col) then NumberAt(line, LeftStop(line, col) + 1, Forward) else None
  }

  /** A run of digits bounded by a non-digit on the left and a non-digit or the clamp column on the right. */
  predicate MaximalRun(line: string, a: nat, b: nat) {
    0 < a && RunFrom(line, a, b) && !IsDigit(line[a - 1])
  }

  /** From a digit, backtracking reads the whole run of digits through it. */
  lemma BacktrackReadsWholeRun(line: string, col: nat)
    requires col < |line| && col < LineLength && IsDigit(line[col]) && BacktrackNumber(line, col).Some?
    ensures exists a: nat, b: nat :: (a <= col < b && MaximalRun(line, a, b) &&
      BacktrackNumber(line, col) == Some(ReadNumber(line[a..b])))
  {
    var a := LeftStop(line, col) + 1;
    assert BacktrackNumber(line, col) == NumberAt(line, a, Forward);
    var b := ForwardRun(line, a);
    assert b == LineLength || !IsDigit(line[b]);
    assert a <= col < b && MaximalRun(line, a, b);
  }

  /** `backtracking_get_number`, with its leftward walk. */
  method BacktrackingGetNumber(lines: seq<string>, row: nat, col: nat) returns (n: nat)
    requires row < |lines| && BacktrackNumber(lines[row], col).Some?
    ensures n == BacktrackNumber(lines[row], col).value
  {
    BacktrackIsForwardRead(lines[row], col);
    var currCol := WalkLeft(lines[row], col);
    n := GetNumber(lines, row, currCol + 1, Forward);
  }

  /** A backtracking read that succeeds walked left to a stop and read forwards after it. */
  lemma BacktrackIsForwardRead(line: string, col: nat)
    requires BacktrackNumber(line, col).Some?
    ensures StopsLeft(line, col) && BacktrackNumber(line, col) == NumberAt(line, LeftStop(line, col) + 1, Forward)
  {
  }

  /** The leftward loop of `backtracking_get_number`: it stops on the nearest non-digit. */
  method WalkLeft(line: string, col: nat) returns (currCol: nat)
    requires StopsLeft(line, col)
    ensures currCol == LeftStop(line, col)
  {
    currCol := col;
    var curr := line[col];
    while IsDigit(curr)
      invariant StopsLeft(line, currCol) && curr == line[currCol]
      invariant LeftStop(line, currCol) == LeftStop(line, col)
      decreases currCol
    {
      currCol := SatSub1(currCol);
      curr := line[currCol];
    }
  }

  // ---------------------------------------------------------------------
  // get_values_from_target_row and get_surrounding_numbers
  // ---------------------------------------------------------------------

  /** Appending a number to the found list, when neither has failed. */
  function Push(acc: Option<seq<nat>>, n: Option<nat>): (r: Option<seq<nat>>)
    ensures r.Some? <==> acc.Some? && n.Some?
    ensures r.Some? ==> r.value == acc.value + [n.value]
  {
    if acc.Some? && n.Some? then Some(acc.value + [n.value]) else None
  }

  /**
   * The numbers left and right of a non-digit cell: one backwards from the
   * left neighbour when it is a digit, then one forwards from the right
   * neighbour when it is a digit, appended to `found`.
   */
  function Neighbours(line: string, col: nat, found: seq<nat>): Option<seq<nat>>
    requires col == 0 && |line| > 0 ==> !IsDigit(line[0])
  {
    var lc := ColIdx(SatSub1(col));
    if lc >= |line| then None
    else
      var afterLeft := if IsDigit(line[lc]) then Push(Some(found), NumberAt(line, ColIdx(col - 1), Backwards)) else Some(found);
      var rc := ColIdx(col + 1);
      if rc >= |line| then None
      else if IsDigit(line[rc]) then Push(afterLeft, NumberAt(line, rc, Forward))
      else afterLeft
  }

  /**
   * `get_values_from_target_row`: `found` with the numbers of the row above
   * or below the symbol at `col` appended. A non-digit middle cell gives a
   * number per digit neighbour; a digit middle cell with a digit neighbour
   * gives the one number through it; a lone middle digit gives itself.
   */
  function TargetRowInto(line: string, col: nat, found: seq<nat>): Option<seq<nat>> {
    var lc, mc, rc := ColIdx(SatSub1(col)), ColIdx(col), ColIdx(col + 1);
    if lc >= |line| || mc >= |line| || rc >= |line| then None
    else if !IsDigit(line[mc]) then Neighbours(line, col, found)
    else if IsDigit(line[rc]) || IsDigit(line[lc]) then Push(Some(found), BacktrackNumber(line, mc))
    else Some(found + [DigitValue(line[mc])])
  }

  /** Above or below a digit, the target row gives the one whole run of digits through it. */
  lemma MiddleDigitReadsRun(line: string, col: nat, found: seq<nat>)
    requires col < |line| && col < LineLength && IsDigit(line[col])
    requires TargetRowInto(line, col, found).Some?
    ensures exists a: nat, b: nat :: (a <= col < b && MaximalRun(line, a, b) &&
      TargetRowInto(line, col, found) == Some(found + [ReadNumber(line[a..b])]))
  {
    if IsDigit(line[col + 1]) || IsDigit(line[SatSub1(col)]) {
      BacktrackReadsWholeRun(line, col);
      var a: nat, b: nat :| a <= col < b && MaximalRun(line, a, b) && BacktrackNumber(line, col) == Some(ReadNumber(line[a..b]));
      assert TargetRowInto(line, col, found) == Some(found + [ReadNumber(line[a..b])]);
    } else {
      assert ColIdx(col + 1) == col + 1 && col + 1 < |line|;
      var digit := line[col..col + 1];
      assert digit[0] == line[col];
      assert digit == [line[col]];
      ReadNumberOfDigits([line[col]]);
      assert MaximalRun(line, col, col + 1);
    }
  }

  /** The digits right of `col` up to `j`, followed by a non-digit or the clamp column. */
  predicate RunAfter(line: string, col: nat, j: nat) {
    RunFrom(line, col + 1, j)
  }

  /** Beside a cell, the row gives the whole runs of digits ending just left of it and starting just right of it. */
  lemma NeighboursReadRuns(line: string, col: nat, found: seq<nat>)
    requires 0 < col && col + 1 < LineLength && Neighbours(line, col, found).Some?
    ensures exists i: nat, j: nat :: (RunEndingAt(line, i, col) && RunAfter(line, col, j) &&
      Neighbours(line, col, found) ==
        Some(found + (if i < col then [ReadNumber(line[i..col])] else []) + (if col + 1 < j then [ReadNumber(line[col + 1..j])] else [])))
  {
    assert ColIdx(SatSub1(col)) == col - 1 && ColIdx(col - 1) == col - 1 && ColIdx(col + 1) == col + 1;
    assert col + 1 < |line|;
    if !IsDigit(line[col + 1]) {
      assert Collect(line, col + 1, Forward) == Some([]);
    }
    var i := BackwardRun(line, col - 1);
    var j := ForwardRun(line, col + 1);
    var leftPart := if i < col then [ReadNumber(line[i..col])] else [];
    var rightPart := if col + 1 < j then [ReadNumber(line[col + 1..j])] else [];
    var afterLeft := found + leftPart;
    if IsDigit(line[col - 1]) {
      assert i < col;
      assert Push(Some(found), NumberAt(line, col - 1, Backwards)) == Some(afterLeft);
    } else {
      assert i == col;
      assert afterLeft == found;
    }
    if IsDigit(line[col + 1]) {
      assert col + 1 < j;
      assert Neighbours(line, col, found) == Some(afterLeft + rightPart);
    } else {
      assert j == col + 1;
      assert Neighbours(line, col, found) == Some(afterLeft);
      assert afterLeft + rightPart == afterLeft;
    }
    assert Neighbours(line, col, found) == Some(found + leftPart + rightPart);
    assert RunEndingAt(line, i, col) && RunAfter(line, col, j);
  }

  /** Above or below a non-digit, the target row gives the whole runs of digits ending left of it and starting right of it. */
  lemma GapReadsNeighbourRuns(line: string, col: nat, found: seq<nat>)
    requires 0 < col && col + 1 < LineLength && col < |line| && !IsDigit(line[col])
    requires TargetRowInto(line, col, found).Some?
    ensures exists i: nat, j: nat :: (RunEndingAt(line, i, col) && RunAfter(line, col, j) &&
      TargetRowInto(line, col, found) ==
        Some(found + (if i < col then [ReadNumber(line[i..col])] else []) + (if col + 1 < j then [ReadNumber(line[col + 1..j])] else [])))
  {
    assert TargetRowInto(line, col, found) == Neighbours(line, col, found);
    NeighboursReadRuns(line, col, found);
  }

  /** `get_values_from_target_row`, pushing onto the found list. */
  method GetValuesFromTargetRow(lines: seq<string>, col: nat, row: nat, found: seq<nat>) returns (result: seq<nat>)
    requires row < |lines| && TargetRowInto(lines[row], col, found).Some?
    ensures result == TargetRowInto(lines[row], col, found).value
  {
    var line := lines[row];
    var l := line[ColIdx(SatSub1(col))];
    var m := line[ColIdx(col)];
    var r := line[ColIdx(col + 1)];
    result := found;
    if !IsDigit(m) {
      if IsDigit(l) {
        var n := GetNumber(lines, row, ColIdx(col - 1), Backwards);
        result := result + [n];
      }
      if IsDigit(r) {
        var n := GetNumber(lines, row, ColIdx(col + 1), Forward);
        result := result + [n];
      }
    } else if IsDigit(m) && (IsDigit(r) || IsDigit(l)) {
      var n := BacktrackingGetNumber(lines, row, ColIdx(col));
      result := result + [n];
    } else {
      result := result + [DigitValue(m)];
    }
  }

  /** The target row's numbers appended to a found list that has not failed. */
  function Then(acc: Option<seq<nat>>, line: string, col: nat): (r: Option<seq<nat>>)
    ensures r.Some? ==> acc.Some?
  {
    match acc
    case None => None
    case Some(found) => TargetRowInto(line, col, found)
  }

  /** The symbol's own row, then the row above when there is one. */
  function OwnAndAbove(lines: seq<string>, col: nat, row: nat): Option<seq<nat>>
    requires row < |lines| && col < |lines[row]| && IsSymbol(lines[row][col])
  {
    var own := Neighbours(lines[row], col, []);
    if row > 0 then Then(own, lines[row - 1], col) else own
  }

  /**
   * `get_surrounding_numbers` as written: the row below is visited when
   * `row + 1 <= row_count`, which always holds, so for a symbol on the last
   * row it indexes one row past the end.
   */
  function SurroundingAsWritten(lines: seq<string>, col: nat, row: nat): (r: Option<seq<nat>>)
    requires row < |lines| && col < |lines[row]| && IsSymbol(lines[row][col])
    ensures row + 1 == |lines| ==> r.None?
    ensures row + 1 < |lines| ==> r == Surrounding(lines, col, row)
  {
    var upper := OwnAndAbove(lines, col, row);
    if row + 1 <= |lines| then
      (if row + 1 < |lines| then Then(upper, lines[row + 1], col) else None)
    else upper
  }

  /** `get_surrounding_numbers` with the row below visited only when it exists. */
  function Surrounding(lines: seq<string>, col: nat, row: nat): Option<seq<nat>>
    requires row < |lines| && col < |lines[row]| && IsSymbol(lines[row][col])
  {
    var upper := OwnAndAbove(lines, col, row);
    if row + 1 < |lines| then Then(upper, lines[row + 1], col) else upper
  }

  /** As written, every symbol on the last row panics; on any other row the two agree. */
  lemma SurroundingLastRow(lines: seq<string>, col: nat, row: nat)
    requires row < |lines| && col < |lines[row]| && IsSymbol(lines[row][col])
    ensures row + 1 == |lines| ==> SurroundingAsWritten(lines, col, row) == None
    ensures row + 1 < |lines| ==> SurroundingAsWritten(lines, col, row) == Surrounding(lines, col, row)
  {
  }

  /** A symbol alone on the last row: as written the lookup fails, corrected it finds nothing. */
  lemma LastRowSymbolExample()
    ensures SurroundingAsWritten(["...", ".*."], 1, 1) == None
    ensures Surrounding(["...", ".*."], 1, 1) == Some([])
  {
    var lines := ["...", ".*."];
    assert lines[1][1] == '*' && lines[1][0] == '.' && lines[1][2] == '.';
    assert Neighbours(lines[1], 1, []) == Some([]);
    assert TargetRowInto(lines[0], 1, []) == Some([]);
  }

  /** `get_surrounding_numbers` (row below only when it exists), pushing as it goes. */
  method GetSurroundingNumbers(lines: seq<string>, col: nat, row: nat) returns (found: seq<nat>)
    requires row < |lines| && col < |lines[row]| && IsSymbol(lines[row][col])
    requires Surrounding(lines, col, row).Some?
    ensures found == Surrounding(lines, col, row).value
  {
    assert OwnAndAbove(lines, col, row).Some?;
    assert Neighbours(lines[row], col, []).Some?;
    found := OwnNeighbours(lines, row, col);
    if row > 0 {
      assert Then(Some(found), lines[row - 1], col) == TargetRowInto(lines[row - 1], col, found);
      found := GetValuesFromTargetRow(lines, col, row - 1, found);
    }
    assert Some(found) == OwnAndAbove(lines, col, row);
    if row + 1 < |lines| {
      assert Surrounding(lines, col, row) == TargetRowInto(lines[row + 1], col, found);
      found := GetValuesFromTargetRow(lines, col, row + 1, found);
    }
  }

  /** The left and right neighbours of the symbol on its own row, as `get_surrounding_numbers` pushes them. */
  method OwnNeighbours(lines: seq<string>, row: nat, col: nat) returns (found: seq<nat>)
    requires row < |lines| && col < |lines[row]| && IsSymbol(lines[row][col])
    requires Neighbours(lines[row], col, []).Some?
    ensures Some(found) == Neighbours(lines[row], col, [])
  {
    var line := lines[row];
    found := [];
    var l := line[ColIdx(SatSub1(col))];
    if IsDigit(l) {
      var n := GetNumber(lines, row, ColIdx(col - 1), Backwards);
      found := found + [n];
    }
    var r := line[ColIdx(col + 1)];
    if IsDigit(r) {
      var n := GetNumber(lines, row, ColIdx(col + 1), Forward);
      found := found + [n];
    }
  }

  // ---------------------------------------------------------------------
  // parse_engine_schematic
  // ---------------------------------------------------------------------

  /** The columns of the first `n` cells of `line` that hold a symbol, left to right. */
  function SymbolColsBelow(line: string, n: nat): (cols: seq<nat>)
    requires n <= |line|
    ensures forall i :: 0 <= i < |cols| ==> cols[i] < n && IsSymbol(line[cols[i]])
  {
    if n == 0 then [] else SymbolColsBelow(line, n - 1) + (if IsSymbol(line[n - 1]) then [n - 1] else [])
  }

  /** The `symbol_idxs` of a line. */
  function SymbolCols(line: string): (cols: seq<nat>)
    ensures forall i :: 0 <= i < |cols| ==> cols[i] < |line| && IsSymbol(line[cols[i]])
  {
    SymbolColsBelow(line, |line|)
  }

  /** Every symbol among the first `n` cells is listed. */
  lemma {:induction false} SymbolColsBelowHas(line: string, n: nat)
    requires n <= |line|
    ensures forall c: nat :: c < n ==> (IsSymbol(line[c]) ==> c in SymbolColsBelow(line, n))
  {
    if n > 0 {
      SymbolColsBelowHas(line, n - 1);
      var prev := SymbolColsBelow(line, n - 1);
      var cols := SymbolColsBelow(line, n);
      assert cols == prev + (if IsSymbol(line[n - 1]) then [n - 1] else []);
      forall c: nat | c < n && IsSymbol(line[c]) ensures c in cols {
        if c < n - 1 {
          assert c in prev;
        } else {
          assert cols[|cols| - 1] == c;
        }
      }
    }
  }

  /** The columns are listed in increasing order. */
  lemma {:induction false} SymbolColsBelowIncreasing(line: string, n: nat)
    requires n <= |line|
    ensures forall i, j :: 0 <= i < j < |SymbolColsBelow(line, n)| ==> SymbolColsBelow(line, n)[i] < SymbolColsBelow(line, n)[j]
  {
    if n > 0 {
      SymbolColsBelowIncreasing(line, n - 1);
      var prev := SymbolColsBelow(line, n - 1);
      var cols := SymbolColsBelow(line, n);
      assert cols == prev + (if IsSymbol(line[n - 1]) then [n - 1] else []);
      forall i, j | 0 <= i < j < |cols| ensures cols[i] < cols[j] {
        assert cols[i] == prev[i];
        if j < |prev| {
          assert cols[j] == prev[j];
        } else {
          assert cols[j] == n - 1;
        }
      }
    }
  }

  /** Every symbol of the line is listed, in increasing column order. */
  lemma SymbolColsBelowComplete(line: string, n: nat)
    requires n <= |line|
    ensures forall c: nat :: c < n ==> (IsSymbol(line[c]) ==> c in SymbolColsBelow(line, n))
    ensures forall i, j :: 0 <= i < j < |SymbolColsBelow(line, n)| ==> SymbolColsBelow(line, n)[i] < SymbolColsBelow(line, n)[j]
  {
    SymbolColsBelowHas(line, n);
    SymbolColsBelowIncreasing(line, n);
  }

  /** The symbol columns of a line are exactly its symbol cells, in increasing order. */
  lemma SymbolColsComplete(line: string)
    ensures forall c: nat :: c < |line| ==> (c in SymbolCols(line) <==> IsSymbol(line[c]))
    ensures forall i, j :: 0 <= i < j < |SymbolCols(line)| ==> SymbolCols(line)[i] < SymbolCols(line)[j]
  {
    SymbolColsBelowComplete(line, |line|);
  }

  function SumOf(s: seq<nat>): nat {
    if s == [] then 0 else SumOf(s[..|s| - 1]) + s[|s| - 1]
  }

  /** `found_numbers` for the symbols at `cols` of row `row`, appended in order. */
  function RowNumbers(lines: seq<string>, row: nat, cols: seq<nat>): Option<seq<nat>>
    requires row < |lines| && forall i :: 0 <= i < |cols| ==> cols[i] < |lines[row]| && IsSymbol(lines[row][cols[i]])
  {
    if cols == [] then Some([])
    else
      match RowNumbers(lines, row, cols[..|cols| - 1])
      case None => None
      case Some(found) =>
        match Surrounding(lines, cols[|cols| - 1], row)
        case None => None
        case Some(more) => Some(found + more)
  }

  /** The sum of a row's found numbers, `None` when a lookup on it fails. */
  function RowSum(lines: seq<string>, r: nat): Option<nat>
    requires r < |lines|
  {
    match RowNumbers(lines, r, SymbolCols(lines[r]))
    case None => None
    case Some(found) => Some(SumOf(found))
  }

  /** The row sums of the first `n` rows. */
  function RowSums(lines: seq<string>, n: nat): (sums: seq<Option<nat>>)
    requires n <= |lines|
    ensures |sums| == n
  {
    if n == 0 then [] else RowSums(lines, n - 1) + [RowSum(lines, n - 1)]
  }

  lemma {:induction false} RowSumsAt(lines: seq<string>, n: nat, r: nat)
    requires r < n <= |lines|
    ensures RowSums(lines, n)[r] == RowSum(lines, r)
  {
    if r < n - 1 {
      RowSumsAt(lines, n - 1, r);
    }
  }

  /** The running total: `None` as soon as one row fails. */
  function Total(sums: seq<Option<nat>>): Option<nat> {
    if sums == [] then Some(0)
    else
      match Total(sums[..|sums| - 1])
      case None => None
      case Some(total) =>
        match sums[|sums| - 1]
        case None => None
        case Some(x) => Some(total + x)
  }

  /** `parse_engine_schematic`: every number found next to every symbol, added up. */
  function SchematicTotal(lines: seq<string>): Option<nat> {
    Total(RowSums(lines, |lines|))
  }

  lemma {:induction false} RowNumbersPrefix(lines: seq<string>, row: nat, cols: seq<nat>, k: nat)
    requires row < |lines| && forall i :: 0 <= i < |cols| ==> cols[i] < |lines[row]| && IsSymbol(lines[row][cols[i]])
    requires k <= |cols| && RowNumbers(lines, row, cols).Some?
    ensures RowNumbers(lines, row, cols[..k]).Some?
    decreases |cols|
  {
    if k < |cols| {
      RowNumbersPrefix(lines, row, cols[..|cols| - 1], k);
      assert cols[..|cols| - 1][..k] == cols[..k];
    } else {
      assert cols[..k] == cols;
    }
  }

  /** Adding the next symbol of a row appends its surrounding numbers. */
  lemma RowNumbersNext(lines: seq<string>, row: nat, cols: seq<nat>, k: nat)
    requires row < |lines| && forall i :: 0 <= i < |cols| ==> cols[i] < |lines[row]| && IsSymbol(lines[row][cols[i]])
    requires k < |cols| && RowNumbers(lines, row, cols[..k + 1]).Some? && RowNumbers(lines, row, cols[..k]).Some?
    ensures Surrounding(lines, cols[k], row).Some?
    ensures RowNumbers(lines, row, cols[..k + 1]).value ==
      RowNumbers(lines, row, cols[..k]).value + Surrounding(lines, cols[k], row).value
  {
    assert cols[..k + 1][..k] == cols[..k];
  }

  /** A total that is read has every prefix read, and every row read. */
  lemma {:induction false} TotalPrefix(sums: seq<Option<nat>>, k: nat)
    requires k <= |sums| && Total(sums).Some?
    ensures Total(sums[..k]).Some?
    ensures k < |sums| ==> sums[k].Some?
    decreases |sums|
  {
    if k < |sums| {
      var init := sums[..|sums| - 1];
      if k < |init| {
        TotalPrefix(init, k);
        assert init[..k] == sums[..k] && init[k] == sums[k];
      } else {
        assert init == sums[..k];
      }
    } else {
      assert sums[..k] == sums;
    }
  }

  /** Adding the next row adds its sum to the total. */
  lemma TotalNext(sums: seq<Option<nat>>, n: nat, total: nat, x: nat)
    requires n < |sums| && Total(sums[..n]) == Some(total) && sums[n] == Some(x)
    ensures Total(sums[..n + 1]) == Some(total + x)
  {
    assert sums[..n + 1][..n] == sums[..n];
  }

  /** In `*1*.` the digit reads as 1 in both directions. */
  lemma OneReadsBothWays()
    ensures NumberAt("*1*.", 1, Forward) == Some(1) && NumberAt("*1*.", 1, Backwards) == Some(1)
  {
    var line := "*1*.";
    assert Step(1, Forward) == 2 && Step(1, Backwards) == 0;
    assert Collect(line, 2, Forward) == Some([]);
    assert Collect(line, 1, Forward) == Some([line[1]] + []);
    assert Collect(line, 0, Backwards) == Some([]);
    assert Collect(line, 1, Backwards) == Some([line[1]] + []);
    assert [line[1]] + [] == "1";
    assert Reverse("1") == "1";
    ReadNumberOfDigits("1");
  }

  /** The first `*` of `*1*.` finds the 1 to its right. */
  lemma LeftStarFindsOne()
    ensures Surrounding(["*1*."], 0, 0) == Some([1])
  {
    var line := "*1*.";
    OneReadsBothWays();
    assert ColIdx(SatSub1(0)) == 0 && ColIdx(0 + 1) == 1;
    assert !IsDigit(line[0]) && IsDigit(line[1]);
    assert NumberAt(line, 1, Forward) == Some(1);
    var none: seq<nat> := [];
    assert none + [1] == [1];
    assert Neighbours(line, 0, []) == Some([1]);
  }

  /** The second `*` of `*1*.` finds the 1 to its left. */
  lemma RightStarFindsOne()
    ensures Surrounding(["*1*."], 2, 0) == Some([1])
  {
    var line := "*1*.";
    OneReadsBothWays();
    assert ColIdx(SatSub1(2)) == 1 && ColIdx(2 - 1) == 1 && ColIdx(2 + 1) == 3;
    assert IsDigit(line[1]) && !IsDigit(line[3]);
    assert NumberAt(line, 1, Backwards) == Some(1);
    var none: seq<nat> := [];
    assert none + [1] == [1];
    assert Neighbours(line, 2, []) == Some([1]);
  }

  /** Both symbols of `*1*.` find the 1 between them. */
  lemma CountedTwiceRow()
    ensures RowNumbers(["*1*."], 0, [0, 2]) == Some([1, 1])
  {
    LeftStarFindsOne();
    RightStarFindsOne();
    assert IsSymbol("*1*."[0]) && IsSymbol("*1*."[2]);
    RowNumbersOfTwo(["*1*."], 0, 0, 2, [1], [1]);
    assert [1] + [1] == [1, 1];
  }

  /** Two symbols of a row find, in order, what each finds alone. */
  lemma RowNumbersOfTwo(lines: seq<string>, row: nat, a: nat, b: nat, x: seq<nat>, y: seq<nat>)
    requires row < |lines| && a < |lines[row]| && b < |lines[row]| && IsSymbol(lines[row][a]) && IsSymbol(lines[row][b])
    requires Surrounding(lines, a, row) == Some(x) && Surrounding(lines, b, row) == Some(y)
    ensures RowNumbers(lines, row, [a, b]) == Some(x + y)
  {
    var none: seq<nat> := [];
    assert [a][..0] == [];
    assert RowNumbers(lines, row, [a]) == Some(none + x);
    assert none + x == x;
    assert [a, b][..1] == [a];
  }

  /** A number next to two symbols is counted for each of them. */
  lemma CountedTwiceExample()
    ensures SchematicTotal(["*1*."]) == Some(2)
  {
    var line := "*1*.";
    var lines := [line];
    assert IsSymbol(line[0]) && !IsSymbol(line[1]) && IsSymbol(line[2]) && !IsSymbol(line[3]);
    assert SymbolColsBelow(line, 1) == [0];
    assert SymbolColsBelow(line, 2) == [0];
    assert SymbolColsBelow(line, 3) == [0, 2];
    assert SymbolCols(line) == [0, 2];
    CountedTwiceRow();
    assert SumOf([1, 1]) == 2;
    assert RowSums(lines, 0) == [] && RowSums(lines, 1) == [Some(2)];
    assert [Some(2)][..0] == [];
  }

  /** The inner loop of `parse_engine_schematic`: the numbers around each symbol of row `r`, in column order. */
  method FoundNumbers(lines: seq<string>, r: nat) returns (found: seq<nat>)
    requires r < |lines| && RowNumbers(lines, r, SymbolCols(lines[r])).Some?
    ensures RowNumbers(lines, r, SymbolCols(lines[r])) == Some(found)
  {
    var symbolIdxs := SymbolCols(lines[r]);
    found := [];
    for k := 0 to |symbolIdxs|
      invariant RowNumbers(lines, r, symbolIdxs[..k]) == Some(found)
    {
      RowNumbersPrefix(lines, r, symbolIdxs, k + 1);
      RowNumbersNext(lines, r, symbolIdxs, k);
      var more := GetSurroundingNumbers(lines, symbolIdxs[k], r);
      found := found + more;
    }
    assert symbolIdxs[..|symbolIdxs|] == symbolIdxs;
  }

  /** `parse_engine_schematic`: the found numbers of each row, summed and added to the total. */
  method ParseEngineSchematic(lines: seq<string>) returns (total: nat)
    requires SchematicTotal(lines).Some?
    ensures total == SchematicTotal(lines).value
  {
    ghost var sums := RowSums(lines, |lines|);
    total := 0;
    for r := 0 to |lines|
      invariant Total(sums[..r]) == Some(total)
    {
      total := AddRow(lines, sums, r, total);
    }
    assert sums[..|lines|] == sums;
  }

  /** One pass of the outer loop: row `r`'s found numbers are added to the running total. */
  method AddRow(lines: seq<string>, ghost sums: seq<Option<nat>>, r: nat, total: nat) returns (total': nat)
    requires sums == RowSums(lines, |lines|) && Total(sums).Some?
    requires r < |lines| && Total(sums[..r]) == Some(total)
    ensures Total(sums[..r + 1]) == Some(total')
  {
    TotalPrefix(sums, r);
    RowSumsAt(lines, |lines|, r);
    var found := FoundNumbers(lines, r);
    TotalNext(sums, r, total, SumOf(found));
    total' := total + SumOf(found);
  }
}
