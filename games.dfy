/** A game: a list of dice rolled together, with every outcome appended to a
    results table, and the wide and narrow views of that table
    (montecarlo.py, class Game). */
module Games {
  import opened Outcomes
  import opened Arith
  import opened Dice

  /** One line of the results table: roll number, die number (its index in
      the dice list) and the face rolled. */
  datatype Row<T> = Row(roll: int, die: int, face: T)

  /** What show returns: the pivoted table (one row per roll number, one
      column per die number) or the narrow series keyed by
      (roll number, die number). */
  datatype Table<T> = Wide(cells: seq<seq<T>>) | Narrow(entries: seq<Row<T>>)

  /** Rows in the order play appends them for w dice: position k holds
      roll number k / w + 1 and die number k % w. */
  ghost predicate PlayOrder<T>(rows: seq<Row<T>>, w: int)
  {
    0 < w && forall k :: 0 <= k < |rows| ==> rows[k].roll == k / w + 1 && rows[k].die == k % w
  }

  /** Complete rolls of w dice each, numbered from 1. */
  ghost predicate IsGrid<T>(rows: seq<Row<T>>, w: int)
  {
    PlayOrder(rows, w) && |rows| % w == 0
  }

  /** Some (roll number, die number) pair occurs twice: pivot refuses it. */
  predicate HasDuplicateKey<T>(rows: seq<Row<T>>)
  {
    exists i, j :: 0 <= i < j < |rows| && rows[i].roll == rows[j].roll && rows[i].die == rows[j].die
  }

  /** The shapes the results table can take: empty, holding a repeated key,
      or a grid of complete rolls. */
  ghost predicate Recorded<T>(rows: seq<Row<T>>)
  {
    rows == [] || HasDuplicateKey(rows) || exists w :: IsGrid(rows, w)
  }

  /** Wide cell (roll number - 1, die number) holds the row's face. */
  ghost predicate Holds<T>(wide: seq<seq<T>>, row: Row<T>)
  {
    1 <= row.roll <= |wide| && 0 <= row.die < |wide[row.roll - 1]| &&
    wide[row.roll - 1][row.die] == row.face
  }

  lemma GridHasNoDuplicate<T>(rows: seq<Row<T>>, w: int)
    requires IsGrid(rows, w)
    ensures !HasDuplicateKey(rows)
  {
    forall i, j | 0 <= i < j < |rows|
      ensures rows[i].roll != rows[j].roll || rows[i].die != rows[j].die
    {
      assert i == (i / w) * w + i % w && j == (j / w) * w + j % w;
    }
  }

  /** A nonempty grid's width is one more than its last die number. */
  lemma GridWidth<T>(rows: seq<Row<T>>, w: int)
    requires IsGrid(rows, w) && rows != []
    ensures rows[|rows| - 1].die + 1 == w
  {
    var q := |rows| / w;
    assert |rows| == q * w;
    if q < 1 {
      MultipleAtLeast(1 - q, w);
      assert false;
    }
    assert |rows| - 1 == (q - 1) * w + (w - 1);
    DivMod(q - 1, w, w - 1);
  }

  /** In a grid of width w, position k holds roll k / w + 1, die k % w,
      and k / w names one of the |rows| / w complete rolls. */
  lemma GridPosition<T>(rows: seq<Row<T>>, w: int, k: int)
    requires IsGrid(rows, w) && 0 <= k < |rows|
    ensures 0 <= k / w < |rows| / w && 0 <= k % w < w && k == (k / w) * w + k % w
    ensures rows[k].roll == k / w + 1 && rows[k].die == k % w
  {
    RowOf(k, |rows| / w, w);
  }

  /** In a grid of width w, roll i + 1 of die j sits at position i * w + j. */
  lemma GridCell<T>(rows: seq<Row<T>>, w: int, i: int, j: int)
    requires IsGrid(rows, w) && 0 <= i < |rows| / w && 0 <= j < w
    ensures 0 <= i * w + j < |rows|
    ensures rows[i * w + j].roll == i + 1 && rows[i * w + j].die == j
  {
    CellIndex(i, j, |rows| / w, w);
    DivMod(i, w, j);
  }

  /** The wide table of a grid of width w: one row of w faces per roll. */
  function Chunks<T>(rows: seq<Row<T>>, w: int): (wide: seq<seq<T>>)
    requires IsGrid(rows, w)
    ensures |wide| == |rows| / w
    ensures forall i :: 0 <= i < |wide| ==> |wide[i]| == w
    ensures forall k :: 0 <= k < |rows| ==> Holds(wide, rows[k])
    ensures forall i, j :: 0 <= i < |wide| && 0 <= j < |wide[i]| ==> Row(i + 1, j, wide[i][j]) in rows
  {
    var n := |rows| / w;
    assert |rows| == n * w;
    var wide := seq(n, i requires 0 <= i < n =>
                      seq(w, j requires 0 <= j < w => CellIndex(i, j, n, w); rows[i * w + j].face));
    forall k | 0 <= k < |rows|
      ensures Holds(wide, rows[k])
    {
      GridPosition(rows, w, k);
    }
    forall i, j | 0 <= i < n && 0 <= j < w
      ensures Row(i + 1, j, wide[i][j]) in rows
    {
      GridCell(rows, w, i, j);
    }
    wide
  }

  /** pivot(index='roll number', columns='die number', values='face'):
      fails on a repeated (roll number, die number) pair; otherwise every
      narrow entry sits in the wide cell of its key, and every wide cell is
      the narrow entry of its key. */
  function Pivot<T>(rows: seq<Row<T>>): (r: Result<seq<seq<T>>>)
    requires Recorded(rows)
    ensures r.Err? <==> HasDuplicateKey(rows)
    ensures r.Err? ==> r.error == DuplicateEntries
    ensures r.Ok? ==> forall k :: 0 <= k < |rows| ==> Holds(r.value, rows[k])
    ensures r.Ok? ==> forall i, j :: 0 <= i < |r.value| && 0 <= j < |r.value[i]| ==> Row(i + 1, j, r.value[i][j]) in rows
    ensures r.Ok? ==> forall w :: IsGrid(rows, w) ==> |r.value| == |rows| / w && forall i :: 0 <= i < |r.value| ==> |r.value[i]| == w
    ensures r.Ok? ==> (r.value == [] <==> rows == [])
  {
    if HasDuplicateKey(rows) then Err(DuplicateEntries)
    else if rows == [] then Ok([])
    else
      var w := rows[|rows| - 1].die + 1;
      assert IsGrid(rows, w) && forall w' :: IsGrid(rows, w') ==> w' == w by {
        var w0 :| IsGrid(rows, w0);
        GridWidth(rows, w0);
        forall w' | IsGrid(rows, w') ensures w' == w { GridWidth(rows, w'); }
      }
      Ok(Chunks(rows, w))
  }

  /** A first play on an empty table leaves a grid: of all the dice when
      every roll completed, of the dice rolled before the failure otherwise. */
  lemma FirstPlayIsGrid<T>(added: seq<Row<T>>, m: int)
    requires PlayOrder(added, m) && added != []
    requires |added| % m == 0 || |added| < m
    ensures |added| % m == 0 ==> IsGrid(added, m)
    ensures exists w :: IsGrid(added, w)
  {
    if |added| % m != 0 {
      var n := |added|;
      DivMod(1, n, 0);
      forall k | 0 <= k < n
        ensures added[k].roll == k / n + 1 && added[k].die == k % n
      {
        DivMod(0, m, k);
        DivMod(0, n, k);
      }
      assert IsGrid(added, n);
    } else {
      assert IsGrid(added, m);
    }
  }

  /** Playing again on a nonempty table repeats a key: the table starts with
      roll 1 of die 0 (or already repeats a key), and play numbers the new
      rows from roll 1, die 0 again. */
  lemma {:induction false} ReplayRepeatsKey<T>(before: seq<Row<T>>, added: seq<Row<T>>, m: int)
    requires Recorded(before) && before != [] && PlayOrder(added, m) && added != []
    ensures HasDuplicateKey(before + added)
  {
    var rows := before + added;
    DivMod(0, m, 0);
    if HasDuplicateKey(before) {
      var i, j :| 0 <= i < j < |before| && before[i].roll == before[j].roll && before[i].die == before[j].die;
      assert rows[i] == before[i] && rows[j] == before[j];
    } else {
      var w :| IsGrid(before, w);
      DivMod(0, w, 0);
      assert rows[0] == before[0] && rows[|before|] == added[0];
    }
  }

  /** What one call of play can append keeps the table in shape. */
  lemma AppendKeepsRecorded<T>(before: seq<Row<T>>, added: seq<Row<T>>, m: int)
    requires Recorded(before) && PlayOrder(added, m)
    requires |added| % m == 0 || |added| < m
    ensures Recorded(before + added)
    ensures before != [] && added != [] ==> HasDuplicateKey(before + added)
    ensures before == [] && added != [] && |added| % m == 0 ==> IsGrid(before + added, m)
  {
    if added == [] {
      assert before + added == before;
    } else if before == [] {
      assert before + added == added;
      FirstPlayIsGrid(added, m);
    } else {
      ReplayRepeatsKey(before, added, m);
    }
  }

  /** The weight arrays of a list of dice. */
  ghost function WeightColumns<T>(dice: seq<Die<T>>): set<object>
  {
    set x | 0 <= x < |dice| :: dice[x].weights
  }

  /** Every row names a die of the list and holds a face that die can show. */
  ghost predicate Showable<T>(rows: seq<Row<T>>, dice: seq<Die<T>>)
    reads WeightColumns(dice)
  {
    forall k :: 0 <= k < |rows| ==>
      0 <= rows[k].die < |dice| &&
      CanShow(dice[rows[k].die].faces, dice[rows[k].die].weights[..], rows[k].face)
  }

  lemma ShowableAppend<T>(a: seq<Row<T>>, b: seq<Row<T>>, dice: seq<Die<T>>)
    requires Showable(a, dice) && Showable(b, dice)
    ensures Showable(a + b, dice)
  {
    forall k | 0 <= k < |a + b|
      ensures 0 <= (a + b)[k].die < |dice|
      ensures CanShow(dice[(a + b)[k].die].faces, dice[(a + b)[k].die].weights[..], (a + b)[k].face)
    {
      if k >= |a| {
        assert (a + b)[k] == b[k - |a|];
      }
    }
  }

  /** Rows of one roll, die by die in list order from die number 0. */
  ghost predicate RollRows<T>(added: seq<Row<T>>, roll: int)
  {
    forall x :: 0 <= x < |added| ==> added[x].roll == roll && added[x].die == x
  }

  /** The rows of roll i + 1, die by die, after i complete rolls of m dice,
      extend the play order. */
  lemma {:induction false} AppendRoll<T>(rows: seq<Row<T>>, m: int, i: int, added: seq<Row<T>>)
    requires rows == [] || PlayOrder(rows, m)
    requires 0 <= i && |rows| == i * m && |added| <= m
    requires RollRows(added, i + 1)
    ensures rows + added == [] || PlayOrder(rows + added, m)
  {
    if added != [] {
      forall k | 0 <= k < |rows + added|
        ensures (rows + added)[k].roll == k / m + 1 && (rows + added)[k].die == k % m
      {
        if k >= |rows| {
          DivMod(i, m, k - |rows|);
        }
      }
    }
  }

  /** One more pass of the inner loop keeps the rows appended by the current
      call of play in play order, each a face its die can show. */
  lemma PlayStep<T>(before: seq<Row<T>>, done: seq<Row<T>>, next: seq<Row<T>>, m: int, i: int, dice: seq<Die<T>>)
    requires 0 <= i && |before| <= |done| && |done| == |before| + i * m && done[..|before|] == before
    requires done[|before|..] == [] || PlayOrder(done[|before|..], m)
    requires Showable(done[|before|..], dice) && Showable(next, dice)
    requires RollRows(next, i + 1) && |next| <= m
    ensures (done + next)[..|before|] == before
    ensures (done + next)[|before|..] == [] || PlayOrder((done + next)[|before|..], m)
    ensures Showable((done + next)[|before|..], dice)
  {
    assert (done + next)[|before|..] == done[|before|..] + next;
    AppendRoll(done[|before|..], m, i, next);
    ShowableAppend(done[|before|..], next, dice);
  }

  /** The rows one call of play has appended so far, in play order after
      the earlier table, leave the table in shape. */
  lemma KeepsShape<T>(before: seq<Row<T>>, rows: seq<Row<T>>, m: int)
    requires Recorded(before) && 0 < m && |before| <= |rows| && rows[..|before|] == before
    requires PlayOrder(rows[|before|..], m)
    requires (|rows| - |before|) % m == 0 || |rows| - |before| < m
    ensures Recorded(rows)
    ensures before != [] && |rows| > |before| ==> HasDuplicateKey(rows)
    ensures before == [] && rows != [] && |rows| % m == 0 ==> IsGrid(rows, m)
  {
    assert rows == before + rows[|before|..];
    AppendKeepsRecorded(before, rows[|before|..], m);
  }

  class Game<T(==)> {
    /** The dice, shared with the caller, in list order. */
    const dice: seq<Die<T>>
    /** results_df: every (roll number, die number, face) row recorded so far. */
    var results: seq<Row<T>>

    ghost predicate Valid()
      reads this
    {
      (forall x :: 0 <= x < |dice| ==> dice[x].Valid()) && Recorded(results)
    }

    /** The rows from position `base` on are what play appends: roll-major
        from roll number 1, die by die in list order, each face one that its
        die can show. */
    ghost predicate PlayedFrom(base: int)
      requires 0 <= base <= |results|
      reads this, WeightColumns(dice)
    {
      (base == |results| || PlayOrder(results[base..], |dice|)) && Showable(results[base..], dice)
    }

    /** Game(dice): stores the list as given, with an empty results table. */
    constructor (dice: seq<Die<T>>)
      requires forall x :: 0 <= x < |dice| ==> dice[x].Valid()
      ensures Valid()
      ensures this.dice == dice && results == []
    {
      this.dice := dice;
      results := [];
    }

    /** play(rolls): for roll i = 1..rolls and each die x in order, rolls the
        die once and appends (i, x, face). Earlier rows are kept, and roll
        numbers restart at 1 on every call. The first die that cannot be
        rolled raises during roll 1, after the rows of the dice before it
        have been appended. Returns the whole accumulated table. */
    method Play(rolls: int) returns (r: Result<seq<Row<T>>>)
      requires Valid()
      modifies this
      ensures Valid()
      ensures |old(results)| <= |results| && results[..|old(results)|] == old(results)
      ensures PlayedFrom(|old(results)|)
      ensures r.Ok? <==> rolls <= 0 || forall x :: 0 <= x < |dice| ==> Rollable(dice[x].weights[..])
      ensures r.Ok? ==> r.value == results && |results| == |old(results)| + (if rolls < 0 then 0 else rolls) * |dice|
      ensures r.Err? ==> r.error == DegenerateWeights && |results| - |old(results)| < |dice|
      ensures r.Err? ==> !Rollable(dice[|results| - |old(results)|].weights[..])
      ensures r.Err? ==> forall x :: 0 <= x < |results| - |old(results)| ==> Rollable(dice[x].weights[..])
      ensures old(results) != [] && |results| > |old(results)| ==> HasDuplicateKey(results)
      ensures old(results) == [] && r.Ok? && results != [] ==> IsGrid(results, |dice|)
    {
      ghost var before := results;
      var base := |results|;
      var m := |dice|;
      var i := 0;
      while i < rolls
        invariant 0 <= i <= (if rolls < 0 then 0 else rolls)
        invariant |results| == base + i * m
        invariant results[..base] == before
        invariant PlayedFrom(base)
        invariant i > 0 ==> forall y :: 0 <= y < m ==> Rollable(dice[y].weights[..])
      {
        ghost var done := results;
        var step := RollDice(i + 1);
        PlayStep(before, done, results[|done|..], m, i, dice);
        if step.Err? {
          assert i == 0 && done == before;
          KeepsShape(before, results, m);
          r := Err(step.error);
          return;
        }
        assert (i + 1) * m == i * m + m;
        i := i + 1;
      }
      assert i == (if rolls < 0 then 0 else rolls);
      if m > 0 {
        DivMod(i, m, 0);
        KeepsShape(before, results, m);
      } else {
        assert results == before;
      }
      r := Ok(results);
    }

    /** One pass of play's inner loop: rolls every die once, in list order,
        appending (roll, x, face) for die x. The first die that cannot be
        rolled raises, after the rows of the dice before it. */
    method RollDice(roll: int) returns (r: Result<()>)
      requires forall x :: 0 <= x < |dice| ==> dice[x].Valid()
      modifies this
      ensures |old(results)| <= |results| <= |old(results)| + |dice|
      ensures results == old(results) + results[|old(results)|..]
      ensures RollRows(results[|old(results)|..], roll)
      ensures Showable(results[|old(results)|..], dice)
      ensures r.Ok? <==> forall x :: 0 <= x < |dice| ==> Rollable(dice[x].weights[..])
      ensures r.Ok? ==> |results| == |old(results)| + |dice|
      ensures r.Err? ==> r.error == DegenerateWeights && |results| - |old(results)| < |dice|
      ensures r.Err? ==> !Rollable(dice[|results| - |old(results)|].weights[..])
      ensures forall x :: 0 <= x < |results| - |old(results)| ==> Rollable(dice[x].weights[..])
    {
      ghost var before := results;
      ghost var added: seq<Row<T>> := [];
      var x := 0;
      while x < |dice|
        invariant 0 <= x <= |dice|
        invariant results == before + added && |added| == x
        invariant RollRows(added, roll)
        invariant Showable(added, dice)
        invariant forall y :: 0 <= y < x ==> Rollable(dice[y].weights[..])
      {
        var face := dice[x].Roll(1);
        if face.Err? {
          assert results[|before|..] == added;
          return Err(face.error);
        }
        added := added + [Row(roll, x, face.value[0])];
        results := results + [Row(roll, x, face.value[0])];
        x := x + 1;
      }
      assert results[|before|..] == added;
      return Ok(());
    }

    /** show(form): "wide" pivots the table, "narrow" keys it by
        (roll number, die number); any other form raises. */
    method Show(form: string := "wide") returns (r: Result<Table<T>>)
      requires Valid()
      ensures form != "wide" && form != "narrow" ==> r == Err(InvalidForm)
      ensures form == "wide" && HasDuplicateKey(results) ==> r == Err(DuplicateEntries)
      ensures form == "wide" && !HasDuplicateKey(results) ==> r == Ok(Wide(Pivot(results).value))
      ensures form == "narrow" ==> r == Ok(Narrow(results))
    {
      if form != "wide" && form != "narrow" {
        return Err(InvalidForm);
      }
      if form == "wide" {
        var wide := Pivot(results);
        if wide.Err? {
          return Err(wide.error);
        }
        return Ok(Wide(wide.value));
      }
      return Ok(Narrow(results));
    }
  }

  /** Two dice with faces [1, 2, 3] and [4, 5, 6], played for 2 rolls: the
      wide table has 2 rows and 2 columns, and an unknown form is refused. */
  method WideShapeAfterTwoRolls() returns (rows: int, columns: int, bogus: Result<Table<int>>)
    ensures rows == 2 && columns == 2
    ensures bogus == Err(InvalidForm)
  {
    var d1 := new Die([1, 2, 3]);
    var d2 := new Die([4, 5, 6]);
    FreshDieRollable(d1.weights[..]);
    FreshDieRollable(d2.weights[..]);
    var game := new Game([d1, d2]);
    var played := game.Play(2);
    assert played.Ok?;
    assert |game.results| == 4;
    var shown := game.Show("wide");
    GridHasNoDuplicate(game.results, 2);
    assert shown.Ok? && shown.value.Wide?;
    var wide := shown.value.cells;
    rows, columns := |wide|, |wide[0]|;
    bogus := game.Show("bogus");
  }
}
