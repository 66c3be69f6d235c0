/** Statistics over a game's wide table, and the analyzer that caches them
    (montecarlo.py, class Analyzer). A wide table has one row per roll
    number, in order, and one column per die number. */
module Analysis {
  import opened Outcomes
  import opened Dice
  import opened Games

  // ---------------------------------------------------------------------
  // jackpot
  // ---------------------------------------------------------------------

  /** One flag per element of s: is it equal to x? */
  function Matches<T(==)>(s: seq<T>, x: T): (flags: seq<bool>)
    ensures |flags| == |s|
    ensures forall i :: 0 <= i < |s| ==> (flags[i] <==> s[i] == x)
  {
    if s == [] then [] else [s[0] == x] + Matches(s[1..], x)
  }

  /** Number of true flags (the sum of a boolean column). */
  function CountTrue(flags: seq<bool>): (n: nat)
    ensures n <= |flags|
    ensures n == |flags| <==> forall i :: 0 <= i < |flags| ==> flags[i]
    ensures n == 0 <==> forall i :: 0 <= i < |flags| ==> !flags[i]
  {
    if flags == [] then 0
    else
      assert forall i :: 1 <= i < |flags| ==> flags[1..][i - 1] == flags[i];
      (if flags[0] then 1 else 0) + CountTrue(flags[1..])
  }

  /** The jackpot column: roll i is flagged exactly when its whole row
      equals the row of the first roll, so the first roll is always flagged. */
  function JackpotMask<T(==)>(wide: seq<seq<T>>): (mask: seq<bool>)
    requires wide != []
    ensures |mask| == |wide| && mask[0]
    ensures forall i :: 0 <= i < |wide| ==> (mask[i] <==> wide[i] == wide[0])
  {
    Matches(wide, wide[0])
  }

  /** Counting the matches of x counts the occurrences of x. */
  lemma {:induction false} CountMatches<T>(s: seq<T>, x: T)
    ensures CountTrue(Matches(s, x)) == multiset(s)[x]
  {
    if s != [] {
      CountMatches(s[1..], x);
      assert s == [s[0]] + s[1..];
      assert Matches(s, x)[1..] == Matches(s[1..], x);
    }
  }

  /** The jackpot count is the number of rolls identical to the first roll;
      it is at least 1 and at most the number of rolls. */
  lemma JackpotCount<T>(wide: seq<seq<T>>)
    requires wide != []
    ensures CountTrue(JackpotMask(wide)) == multiset(wide)[wide[0]]
    ensures 1 <= CountTrue(JackpotMask(wide)) <= |wide|
  {
    CountMatches(wide, wide[0]);
  }

  /** All dice of a roll show the same face: what the class documentation
      calls a jackpot. */
  predicate Uniform<T(==)>(roll: seq<T>)
  {
    forall j, k :: 0 <= j < |roll| && 0 <= k < |roll| ==> roll[j] == roll[k]
  }

  /** One flag per roll: are all its faces the same? */
  function UniformFlags<T(==)>(wide: seq<seq<T>>): (flags: seq<bool>)
    ensures |flags| == |wide|
    ensures forall i :: 0 <= i < |wide| ==> (flags[i] <==> Uniform(wide[i]))
  {
    if wide == [] then [] else [Uniform(wide[0])] + UniformFlags(wide[1..])
  }

  /** When the first roll is uniform, every roll the code flags is uniform
      too, so the code never counts more jackpots than the documented
      definition does. */
  lemma {:induction false} JackpotWithinUniform<T>(wide: seq<seq<T>>)
    requires wide != [] && Uniform(wide[0])
    ensures CountTrue(JackpotMask(wide)) <= CountTrue(UniformFlags(wide))
  {
    CountImplied(JackpotMask(wide), UniformFlags(wide));
  }

  /** Pointwise implication between flag columns bounds their counts. */
  lemma {:induction false} CountImplied(a: seq<bool>, b: seq<bool>)
    requires |a| == |b| && forall i :: 0 <= i < |a| ==> a[i] ==> b[i]
    ensures CountTrue(a) <= CountTrue(b)
  {
    if a != [] {
      CountImplied(a[1..], b[1..]);
    }
  }

  /** The two definitions differ: two rolls [1, 2] count as two jackpots in
      the code and as none by the documented definition; rolls [1, 1] and
      [2, 2] count as one in the code and as two by the documentation. */
  lemma JackpotDiffersFromUniform()
    ensures CountTrue(JackpotMask([[1, 2], [1, 2]])) == 2
    ensures CountTrue(UniformFlags([[1, 2], [1, 2]])) == 0
    ensures CountTrue(JackpotMask([[1, 1], [2, 2]])) == 1
    ensures CountTrue(UniformFlags([[1, 1], [2, 2]])) == 2
  {
    var a: seq<seq<int>> := [[1, 2], [1, 2]];
    assert !Uniform(a[0]) && !Uniform(a[1]) by {
      assert a[0][0] != a[0][1];
    }
    var b: seq<seq<int>> := [[1, 1], [2, 2]];
    assert Uniform(b[0]) && Uniform(b[1]);
    var mb := JackpotMask(b);
    assert mb[1..] == [false];
  }

  // ---------------------------------------------------------------------
  // combo
  // ---------------------------------------------------------------------

  /** One line of the combination table: a per-roll tuple of faces (in die
      order) and the number of rolls that produced it. */
  datatype ComboCount<T> = ComboCount(faces: seq<T>, count: nat)

  /** The rolls a line stands for. */
  function Copies<T(==)>(e: ComboCount<T>): multiset<seq<T>>
  {
    multiset{}[e.faces := e.count]
  }

  /** The rolls a combination table stands for. */
  function Expand<T(==)>(t: seq<ComboCount<T>>): multiset<seq<T>>
  {
    if t == [] then multiset{} else Copies(t[0]) + Expand(t[1..])
  }

  /** The tuples a combination table lists. */
  function Keys<T(==)>(t: seq<ComboCount<T>>): set<seq<T>>
  {
    if t == [] then {} else {t[0].faces} + Keys(t[1..])
  }

  /** No tuple is listed twice. */
  predicate DistinctKeys<T(==)>(t: seq<ComboCount<T>>)
  {
    t == [] || (t[0].faces !in Keys(t[1..]) && DistinctKeys(t[1..]))
  }

  predicate Positive<T(==)>(t: seq<ComboCount<T>>)
  {
    forall i :: 0 <= i < |t| ==> t[i].count >= 1
  }

  /** Counts never increase down the table. */
  predicate ByCount<T(==)>(t: seq<ComboCount<T>>)
  {
    forall i, j :: 0 <= i < j < |t| ==> t[i].count >= t[j].count
  }

  function TotalCount<T(==)>(t: seq<ComboCount<T>>): nat
  {
    if t == [] then 0 else t[0].count + TotalCount(t[1..])
  }

  /** Records one more roll with tuple x: its line's count goes up by one,
      or a line with count 1 is added at the end. */
  function Bump<T(==)>(t: seq<ComboCount<T>>, x: seq<T>): seq<ComboCount<T>>
  {
    if t == [] then [ComboCount(x, 1)]
    else if t[0].faces == x then [ComboCount(x, t[0].count + 1)] + t[1..]
    else [t[0]] + Bump(t[1..], x)
  }

  /** Bump records exactly one more roll with tuple x. */
  lemma {:induction false} BumpExpand<T>(t: seq<ComboCount<T>>, x: seq<T>)
    ensures Expand(Bump(t, x)) == Expand(t) + multiset{x}
  {
    var r := Bump(t, x);
    if t == [] {
      assert Expand(r) == Copies(ComboCount(x, 1)) + Expand([]);
    } else if t[0].faces == x {
      assert r[1..] == t[1..];
      assert Copies(r[0]) == Copies(t[0]) + multiset{x};
    } else {
      BumpExpand(t[1..], x);
      assert r[1..] == Bump(t[1..], x);
    }
  }

  /** Bump lists x and keeps every other tuple. */
  lemma {:induction false} BumpKeys<T>(t: seq<ComboCount<T>>, x: seq<T>)
    ensures Keys(Bump(t, x)) == Keys(t) + {x}
  {
    var r := Bump(t, x);
    if t == [] {
    } else if t[0].faces == x {
      assert r[1..] == t[1..];
    } else {
      BumpKeys(t[1..], x);
      assert r[1..] == Bump(t[1..], x);
    }
  }

  /** Bump never lists a tuple twice, nor a zero count. */
  lemma {:induction false} BumpDistinct<T>(t: seq<ComboCount<T>>, x: seq<T>)
    requires DistinctKeys(t) && Positive(t)
    ensures DistinctKeys(Bump(t, x)) && Positive(Bump(t, x))
  {
    var r := Bump(t, x);
    if t == [] {
    } else if t[0].faces == x {
      assert r[1..] == t[1..];
    } else {
      BumpDistinct(t[1..], x);
      BumpKeys(t[1..], x);
      assert r[1..] == Bump(t[1..], x);
    }
  }

  /** Groups the rolls by tuple, lines in order of first appearance. */
  function Tally<T(==)>(wide: seq<seq<T>>): seq<ComboCount<T>>
  {
    if wide == [] then [] else Bump(Tally(wide[..|wide| - 1]), wide[|wide| - 1])
  }

  /** Tally stands for exactly the rolls of the table, lists each rolled
      tuple once and no other, with positive counts. */
  lemma {:induction false} TallySpec<T>(wide: seq<seq<T>>)
    ensures Expand(Tally(wide)) == multiset(wide)
    ensures Keys(Tally(wide)) == set roll | roll in wide
    ensures DistinctKeys(Tally(wide)) && Positive(Tally(wide))
  {
    if wide != [] {
      var n := |wide| - 1;
      assert wide == wide[..n] + [wide[n]];
      TallySpec(wide[..n]);
      BumpExpand(Tally(wide[..n]), wide[n]);
      BumpKeys(Tally(wide[..n]), wide[n]);
      BumpDistinct(Tally(wide[..n]), wide[n]);
    }
  }

  /** Inserts e before the first line whose count is not larger, so lines
      with equal counts keep their order. */
  function InsertByCount<T>(e: ComboCount<T>, t: seq<ComboCount<T>>): seq<ComboCount<T>>
  {
    if t == [] then [e]
    else if e.count >= t[0].count then [e] + t
    else [t[0]] + InsertByCount(e, t[1..])
  }

  /** Inserting adds e and nothing else. */
  lemma {:induction false} InsertPermutes<T>(e: ComboCount<T>, t: seq<ComboCount<T>>)
    ensures multiset(InsertByCount(e, t)) == multiset(t) + multiset{e}
  {
    if t != [] && e.count < t[0].count {
      var rest := InsertByCount(e, t[1..]);
      InsertPermutes(e, t[1..]);
      assert t == [t[0]] + t[1..];
      assert multiset(t) == multiset{t[0]} + multiset(t[1..]);
      assert multiset([t[0]] + rest) == multiset{t[0]} + multiset(rest);
    }
  }

  /** Inserting e adds the rolls and the tuple of e. */
  lemma {:induction false} InsertExpand<T>(e: ComboCount<T>, t: seq<ComboCount<T>>)
    ensures Expand(InsertByCount(e, t)) == Copies(e) + Expand(t)
    ensures Keys(InsertByCount(e, t)) == {e.faces} + Keys(t)
  {
    var r := InsertByCount(e, t);
    if t == [] {
      assert Expand(r) == Copies(e) + Expand([]);
    } else if e.count >= t[0].count {
      assert r[1..] == t;
    } else {
      InsertExpand(e, t[1..]);
      assert r[1..] == InsertByCount(e, t[1..]);
    }
  }

  /** Inserting a new tuple keeps the tuples distinct. */
  lemma {:induction false} InsertDistinct<T>(e: ComboCount<T>, t: seq<ComboCount<T>>)
    requires DistinctKeys(t) && e.faces !in Keys(t)
    ensures DistinctKeys(InsertByCount(e, t))
  {
    var r := InsertByCount(e, t);
    if t == [] {
    } else if e.count >= t[0].count {
      assert r[1..] == t;
    } else {
      InsertDistinct(e, t[1..]);
      InsertExpand(e, t[1..]);
      assert r[1..] == InsertByCount(e, t[1..]);
    }
  }

  /** Inserting keeps every count under a bound that e and t respect. */
  lemma {:induction false} InsertBound<T>(e: ComboCount<T>, t: seq<ComboCount<T>>, c: nat)
    requires e.count <= c && forall i :: 0 <= i < |t| ==> t[i].count <= c
    ensures forall i :: 0 <= i < |InsertByCount(e, t)| ==> InsertByCount(e, t)[i].count <= c
  {
    if t != [] && e.count < t[0].count {
      InsertBound(e, t[1..], c);
    }
  }

  /** Inserting into a table ordered by count keeps it ordered. */
  lemma {:induction false} InsertOrdered<T>(e: ComboCount<T>, t: seq<ComboCount<T>>)
    requires ByCount(t)
    ensures ByCount(InsertByCount(e, t))
  {
    if t != [] && e.count < t[0].count {
      var rest := InsertByCount(e, t[1..]);
      InsertOrdered(e, t[1..]);
      InsertBound(e, t[1..], t[0].count);
      var r := [t[0]] + rest;
      forall i, j | 0 <= i < j < |r| ensures r[i].count >= r[j].count {
        assert r[j] == rest[j - 1];
        if i > 0 {
          assert r[i] == rest[i - 1];
        }
      }
    }
  }

  /** Orders a combination table by count, largest first, keeping the
      order of lines with equal counts. */
  function SortByCount<T>(t: seq<ComboCount<T>>): seq<ComboCount<T>>
  {
    if t == [] then [] else InsertByCount(t[0], SortByCount(t[1..]))
  }

  /** Sorting reorders the lines only, and leaves them ordered by count. */
  lemma {:induction false} SortSpec<T>(t: seq<ComboCount<T>>)
    ensures multiset(SortByCount(t)) == multiset(t)
    ensures Expand(SortByCount(t)) == Expand(t) && Keys(SortByCount(t)) == Keys(t)
    ensures DistinctKeys(t) ==> DistinctKeys(SortByCount(t))
    ensures ByCount(SortByCount(t))
  {
    if t != [] {
      var rest := SortByCount(t[1..]);
      SortSpec(t[1..]);
      assert t == [t[0]] + t[1..];
      InsertPermutes(t[0], rest);
      InsertExpand(t[0], rest);
      InsertOrdered(t[0], rest);
      if DistinctKeys(t) {
        InsertDistinct(t[0], rest);
      }
    }
  }

  /** A tuple outside the table stands for no roll. */
  lemma {:induction false} ExpandOutside<T>(t: seq<ComboCount<T>>, x: seq<T>)
    requires x !in Keys(t)
    ensures Expand(t)[x] == 0
  {
    if t != [] {
      ExpandOutside(t[1..], x);
    }
  }

  /** In a table without repeated tuples, a line's count is the number of
      rolls its tuple stands for. */
  lemma {:induction false} ExpandAt<T>(t: seq<ComboCount<T>>, i: int)
    requires DistinctKeys(t) && 0 <= i < |t|
    ensures Expand(t)[t[i].faces] == t[i].count
  {
    if i == 0 {
      ExpandOutside(t[1..], t[0].faces);
    } else {
      ExpandAt(t[1..], i - 1);
      KeysAt(t[1..], i - 1);
    }
  }

  lemma {:induction false} KeysAt<T>(t: seq<ComboCount<T>>, i: int)
    requires 0 <= i < |t|
    ensures t[i].faces in Keys(t)
  {
    if i > 0 {
      KeysAt(t[1..], i - 1);
    }
  }

  lemma {:induction false} KeyIndex<T>(t: seq<ComboCount<T>>, x: seq<T>)
    requires x in Keys(t)
    ensures exists i :: 0 <= i < |t| && t[i].faces == x
  {
    if t[0].faces != x {
      KeyIndex(t[1..], x);
      var i :| 0 <= i < |t[1..]| && t[1..][i].faces == x;
      assert t[i + 1].faces == x;
    }
  }

  lemma {:induction false} DistinctAt<T>(t: seq<ComboCount<T>>, i: int, j: int)
    requires DistinctKeys(t) && 0 <= i < j < |t|
    ensures t[i].faces != t[j].faces
  {
    if i == 0 {
      KeysAt(t[1..], j - 1);
    } else {
      DistinctAt(t[1..], i - 1, j - 1);
    }
  }

  /** n copies of one tuple are n rolls. */
  lemma {:induction false} CopiesCard<T>(x: seq<T>, n: nat)
    ensures |multiset{}[x := n]| == n
  {
    if n > 0 {
      CopiesCard(x, n - 1);
      assert multiset{}[x := n] == multiset{}[x := n - 1] + multiset{x};
    }
  }

  /** The counts of a table add up to the number of rolls it stands for. */
  lemma {:induction false} TotalIsCard<T>(t: seq<ComboCount<T>>)
    ensures TotalCount(t) == |Expand(t)|
  {
    if t != [] {
      TotalIsCard(t[1..]);
      CopiesCard(t[0].faces, t[0].count);
    }
  }

  /** A table without repeated tuples that stands for the rolls of `wide`
      and lists exactly its tuples gives each rolled tuple's count. */
  lemma TableCounts<T>(t: seq<ComboCount<T>>, wide: seq<seq<T>>)
    requires DistinctKeys(t) && Expand(t) == multiset(wide) && Keys(t) == set roll | roll in wide
    ensures forall i :: 0 <= i < |t| ==> t[i].faces in wide && t[i].count == multiset(wide)[t[i].faces]
  {
    forall i | 0 <= i < |t|
      ensures t[i].faces in wide && t[i].count == multiset(wide)[t[i].faces]
    {
      KeysAt(t, i);
      ExpandAt(t, i);
    }
  }

  /** Every rolled tuple has a line. */
  lemma TableCovers<T>(t: seq<ComboCount<T>>, wide: seq<seq<T>>)
    requires Keys(t) == set roll | roll in wide
    ensures forall roll :: roll in wide ==> exists i :: 0 <= i < |t| && t[i].faces == roll
  {
    forall roll | roll in wide
      ensures exists i :: 0 <= i < |t| && t[i].faces == roll
    {
      KeyIndex(t, roll);
    }
  }

  lemma TableDistinct<T>(t: seq<ComboCount<T>>)
    requires DistinctKeys(t)
    ensures forall i, j :: 0 <= i < j < |t| ==> t[i].faces != t[j].faces
  {
    forall i, j | 0 <= i < j < |t|
      ensures t[i].faces != t[j].faces
    {
      DistinctAt(t, i, j);
    }
  }

  /** value_counts over the wide table: every distinct per-roll tuple
      (faces in die order, not sorted) listed once, with the number of
      rolls that produced it, counts non-increasing and adding up to the
      number of rolls. */
  function Combos<T(==)>(wide: seq<seq<T>>): (r: seq<ComboCount<T>>)
    ensures forall i :: 0 <= i < |r| ==> r[i].faces in wide && r[i].count == multiset(wide)[r[i].faces]
    ensures forall roll :: roll in wide ==> exists i :: 0 <= i < |r| && r[i].faces == roll
    ensures forall i, j :: 0 <= i < j < |r| ==> r[i].faces != r[j].faces
    ensures forall i, j :: 0 <= i < j < |r| ==> r[i].count >= r[j].count
    ensures TotalCount(r) == |wide|
  {
    var r := SortByCount(Tally(wide));
    TallySpec(wide);
    SortSpec(Tally(wide));
    TableCounts(r, wide);
    TableCovers(r, wide);
    TableDistinct(r);
    TotalIsCard(r);
    r
  }

  /** An element of a sequence without repeats occurs once. */
  lemma {:induction false} OccursOnce<T>(s: seq<T>, i: int)
    requires Distinct(s) && 0 <= i < |s|
    ensures multiset(s)[s[i]] == 1
  {
    assert s == s[..i] + [s[i]] + s[i + 1..];
    assert s[i] !in s[..i] && s[i] !in s[i + 1..] by {
      forall j | 0 <= j < |s| && j != i ensures s[j] != s[i] {
        if j < i { assert s[j] != s[i]; } else { assert s[i] != s[j]; }
      }
    }
  }

  /** When no two rolls are alike, each roll is a combination of its own:
      one line per roll, every count 1. */
  lemma CombosOfDistinctRolls<T>(wide: seq<seq<T>>)
    requires Distinct(wide)
    ensures |Combos(wide)| == |wide|
    ensures forall i :: 0 <= i < |Combos(wide)| ==> Combos(wide)[i].count == 1
  {
    var r := Combos(wide);
    forall i | 0 <= i < |r| ensures r[i].count == 1 {
      var k :| 0 <= k < |wide| && wide[k] == r[i].faces;
      OccursOnce(wide, k);
    }
    TotalOfOnes(r);
  }

  /** Rolls [1, 2] and [2, 1] are two different combinations to the code,
      although they hold the same faces. */
  lemma CombosKeepDieOrder(wide: seq<seq<int>>)
    requires wide == [[1, 2], [2, 1], [3, 3]]
    ensures |Combos(wide)| == 3
    ensures forall i :: 0 <= i < 3 ==> Combos(wide)[i].count == 1
  {
    assert wide[0] != wide[1] by { assert wide[0][0] != wide[1][0]; }
    assert wide[1] != wide[2] by { assert wide[1][0] != wide[2][0]; }
    assert wide[0] != wide[2] by { assert wide[0][0] != wide[2][0]; }
    CombosOfDistinctRolls(wide);
  }

  /** A table whose counts are all 1 has as many lines as its total. */
  lemma {:induction false} TotalOfOnes<T>(t: seq<ComboCount<T>>)
    requires forall i :: 0 <= i < |t| ==> t[i].count == 1
    ensures TotalCount(t) == |t|
  {
    if t != [] {
      assert forall i :: 1 <= i < |t| ==> t[1..][i - 1] == t[i];
      TotalOfOnes(t[1..]);
    }
  }

  // ---------------------------------------------------------------------
  // face counts per roll
  // ---------------------------------------------------------------------

  predicate Distinct<T(==)>(s: seq<T>)
  {
    forall i, j :: 0 <= i < j < |s| ==> s[i] != s[j]
  }

  /** Every face of every roll, row by row. */
  function Flatten<T(==)>(wide: seq<seq<T>>): (s: seq<T>)
    ensures forall x :: x in s ==> exists i :: 0 <= i < |wide| && x in wide[i]
    ensures forall i, x :: 0 <= i < |wide| && x in wide[i] ==> x in s
  {
    if wide == [] then []
    else
      assert forall i :: 1 <= i < |wide| ==> wide[1..][i - 1] == wide[i];
      wide[0] + Flatten(wide[1..])
  }

  /** The distinct elements of s in order of first appearance. */
  function Dedup<T(==)>(s: seq<T>): (r: seq<T>)
    ensures Distinct(r)
    ensures forall x :: x in r ==> x in s
    ensures forall x :: x in s ==> x in r
  {
    if s == [] then []
    else
      var n := |s| - 1;
      assert s == s[..n] + [s[n]];
      var d := Dedup(s[..n]);
      if s[n] in d then d else d + [s[n]]
  }

  /** The multiplicity in m of each face of `faces`, in order. */
  function CountsOf<T(==)>(faces: seq<T>, m: multiset<T>): (row: seq<nat>)
    ensures |row| == |faces|
    ensures forall j :: 0 <= j < |faces| ==> row[j] == m[faces[j]]
  {
    if faces == [] then [] else [m[faces[0]]] + CountsOf(faces[1..], m)
  }

  function Total(row: seq<nat>): nat
  {
    if row == [] then 0 else row[0] + Total(row[1..])
  }

  /** Removing every copy of x from m removes m[x] elements. */
  lemma {:induction false} DropAll<T>(m: multiset<T>, x: T)
    ensures |m| == m[x] + |m[x := 0]|
    decreases m[x]
  {
    if m[x] > 0 {
      var m' := m - multiset{x};
      assert m == m' + multiset{x};
      assert m'[x := 0] == m[x := 0];
      DropAll(m', x);
    } else {
      assert m[x := 0] == m;
    }
  }

  /** Multisets that agree on the listed faces give the same counts. */
  lemma {:induction false} CountsAgree<T>(faces: seq<T>, m: multiset<T>, m': multiset<T>)
    requires forall j :: 0 <= j < |faces| ==> m[faces[j]] == m'[faces[j]]
    ensures CountsOf(faces, m) == CountsOf(faces, m')
  {
    if faces != [] {
      assert forall j :: 1 <= j < |faces| ==> faces[1..][j - 1] == faces[j];
      CountsAgree(faces[1..], m, m');
    }
  }

  /** Counting each face of a list without repeats that covers m, and adding
      up, gives the size of m. */
  lemma {:induction false} TotalOfCounts<T>(faces: seq<T>, m: multiset<T>)
    requires Distinct(faces)
    requires forall x :: x in m ==> x in faces
    ensures Total(CountsOf(faces, m)) == |m|
  {
    if faces == [] {
      assert m == multiset{};
    } else {
      var x := faces[0];
      var rest := faces[1..];
      var m' := m[x := 0];
      assert Distinct(rest) by {
        forall i, j | 0 <= i < j < |rest| ensures rest[i] != rest[j] {
          assert rest[i] == faces[i + 1] && rest[j] == faces[j + 1];
        }
      }
      assert forall y :: y in m' ==> y in rest by {
        forall y | y in m' ensures y in rest {
          var j :| 0 <= j < |faces| && faces[j] == y;
          assert j != 0 && rest[j - 1] == y;
        }
      }
      TotalOfCounts(rest, m');
      assert forall j :: 0 <= j < |rest| ==> m[rest[j]] == m'[rest[j]] by {
        forall j | 0 <= j < |rest| ensures rest[j] != x {
          assert faces[0] != faces[j + 1];
        }
      }
      CountsAgree(rest, m, m');
      var c := CountsOf(faces, m);
      assert c[1..] == CountsOf(rest, m);
      DropAll(m, x);
    }
  }

  /** The per-roll face-count table: one column per face observed anywhere
      in the game, one row per roll. */
  datatype FaceTable<T> = FaceTable(faces: seq<T>, counts: seq<seq<nat>>)

  /** face_counts_roll over the wide table: the columns are exactly the
      faces observed in some roll, each once; the cell for roll i and a face
      is the number of dice showing that face in roll i (0 if none); so each
      row adds up to the number of dice. */
  function FaceCounts<T(==)>(wide: seq<seq<T>>): (t: FaceTable<T>)
    ensures Distinct(t.faces)
    ensures forall x :: x in t.faces ==> exists i :: 0 <= i < |wide| && x in wide[i]
    ensures forall i, x :: 0 <= i < |wide| && x in wide[i] ==> x in t.faces
    ensures |t.counts| == |wide|
    ensures forall i :: 0 <= i < |wide| ==> |t.counts[i]| == |t.faces|
    ensures forall i, j :: 0 <= i < |wide| && 0 <= j < |t.faces| ==> t.counts[i][j] == multiset(wide[i])[t.faces[j]]
    ensures forall i :: 0 <= i < |wide| ==> Total(t.counts[i]) == |wide[i]|
  {
    var faces := Dedup(Flatten(wide));
    var counts := seq(|wide|, i requires 0 <= i < |wide| => CountsOf(faces, multiset(wide[i])));
    forall i | 0 <= i < |wide|
      ensures Total(counts[i]) == |wide[i]|
    {
      forall x | x in multiset(wide[i]) ensures x in faces {
        assert x in wide[i];
      }
      TotalOfCounts(faces, multiset(wide[i]));
    }
    FaceTable(faces, counts)
  }

  /** One die, rolls showing 1 and then 3: the table has columns for the
      observed faces 1 and 3 only. */
  lemma FaceCountsOfTwoRolls()
    ensures FaceCounts([[1], [3]]) == FaceTable([1, 3], [[1, 0], [0, 1]])
  {
    var wide: seq<seq<int>> := [[1], [3]];
    var t := FaceCounts(wide);
    assert Flatten(wide) == [1, 3] by {
      assert Flatten(wide[1..]) == [3] + Flatten([]);
    }
    assert Dedup([1, 3]) == [1, 3] by {
      assert [1, 3][..1] == [1];
      assert Dedup([1]) == [1] by { assert [1][..0] == []; }
    }
    assert t.faces == [1, 3];
    assert t.counts[0] == [1, 0] && t.counts[1] == [0, 1];
  }

  /** A game with no rolls pivots to the empty wide table, whose
      combination table and face-count table are both empty. */
  lemma NoRollsEmptyTables<T>()
    ensures Pivot<T>([]) == Ok([])
    ensures Combos<T>([]) == []
    ensures FaceCounts<T>([]) == FaceTable([], [])
  {
  }

  // ---------------------------------------------------------------------
  // the analyzer
  // ---------------------------------------------------------------------

  class Analyzer<T(==)> {
    /** The analysed game; read, never changed. */
    const game: Game<T>
    /** jackpot_results_df: the last jackpot column computed. */
    var jackpotResults: Option<seq<bool>>
    /** combo_results_df: the last combination table computed. */
    var comboResults: Option<seq<ComboCount<T>>>
    /** value_counts: the last face-count table computed. */
    var valueCounts: Option<FaceTable<T>>

    /** Analyzer(game): stores the game; nothing is computed yet. */
    constructor (game: Game<T>)
      ensures this.game == game
      ensures jackpotResults == None && comboResults == None && valueCounts == None
    {
      this.game := game;
      jackpotResults := None;
      comboResults := None;
      valueCounts := None;
    }

    /** jackpot(): pivots the game's table (raising on a repeated key),
        compares every roll's row with the first roll's row (raising when
        there is no first roll), stores the column of flags and returns how
        many are set. */
    method Jackpot() returns (r: Result<nat>)
      requires game.Valid()
      modifies this
      ensures game.results == old(game.results)
      ensures comboResults == old(comboResults) && valueCounts == old(valueCounts)
      ensures HasDuplicateKey(game.results) ==> r == Err(DuplicateEntries) && jackpotResults == old(jackpotResults)
      ensures game.results == [] ==> r == Err(NoRolls) && jackpotResults == old(jackpotResults)
      ensures !HasDuplicateKey(game.results) && game.results != [] ==>
                var mask := JackpotMask(Pivot(game.results).value);
                jackpotResults == Some(mask) && r == Ok(CountTrue(mask))
    {
      var wide := Pivot(game.results);
      if wide.Err? {
        return Err(wide.error);
      }
      if wide.value == [] {
        return Err(NoRolls);
      }
      var mask := JackpotMask(wide.value);
      jackpotResults := Some(mask);
      r := Ok(CountTrue(mask));
    }

    /** combo(): pivots the game's table (raising on a repeated key) and
        stores and returns the count of each distinct per-roll tuple; a game
        with no rolls gives the empty table. */
    method Combo() returns (r: Result<seq<ComboCount<T>>>)
      requires game.Valid()
      modifies this
      ensures game.results == old(game.results)
      ensures jackpotResults == old(jackpotResults) && valueCounts == old(valueCounts)
      ensures HasDuplicateKey(game.results) ==> r == Err(DuplicateEntries) && comboResults == old(comboResults)
      ensures !HasDuplicateKey(game.results) ==>
                var table := Combos(Pivot(game.results).value);
                comboResults == Some(table) && r == Ok(table)
    {
      var wide := Pivot(game.results);
      if wide.Err? {
        return Err(wide.error);
      }
      var table := Combos(wide.value);
      comboResults := Some(table);
      r := Ok(table);
    }

    /** face_counts_roll(): pivots the game's table (raising on a repeated
        key) and stores and returns the per-roll face counts. */
    method FaceCountsRoll() returns (r: Result<FaceTable<T>>)
      requires game.Valid()
      modifies this
      ensures game.results == old(game.results)
      ensures jackpotResults == old(jackpotResults) && comboResults == old(comboResults)
      ensures HasDuplicateKey(game.results) ==> r == Err(DuplicateEntries) && valueCounts == old(valueCounts)
      ensures !HasDuplicateKey(game.results) ==>
                var table := FaceCounts(Pivot(game.results).value);
                valueCounts == Some(table) && r == Ok(table)
    {
      var wide := Pivot(game.results);
      if wide.Err? {
        return Err(wide.error);
      }
      var table := FaceCounts(wide.value);
      valueCounts := Some(table);
      r := Ok(table);
    }
  }

  /** Ten complete rolls of three dice that all show 2 are ten jackpots. */
  lemma ConstantTableJackpots(rows: seq<Row<int>>)
    requires IsGrid(rows, 3) && |rows| == 30
    requires forall k :: 0 <= k < |rows| ==> rows[k].face == 2
    ensures Recorded(rows) && Pivot(rows).Ok?
    ensures Pivot(rows).value != [] && CountTrue(JackpotMask(Pivot(rows).value)) == 10
  {
    GridHasNoDuplicate(rows, 3);
    var wide := Pivot(rows).value;
    assert |wide| == 10;
    forall i | 0 <= i < 10 ensures wide[i] == [2, 2, 2] {
      forall j | 0 <= j < 3 ensures wide[i][j] == 2 {
        assert Row(i + 1, j, wide[i][j]) in rows;
      }
    }
  }

  /** Only face 2 can come up on a die [1, 2, 3] weighted [0, 1, 0]. */
  lemma OnlyFaceTwo(f: int)
    requires CanShow([1, 2, 3], [0.0, 1.0, 0.0], f)
    ensures f == 2
  {
    var i :| 0 <= i < 3 && i < 3 && [1, 2, 3][i] == f && [0.0, 1.0, 0.0][i] != 0.0;
  }

  /** Rows rolled with dice that can only show 2 all show 2. */
  lemma OnlyTwos(rows: seq<Row<int>>, dice: seq<Die<int>>)
    requires Showable(rows, dice)
    requires forall x :: 0 <= x < |dice| ==> dice[x].faces == [1, 2, 3] && dice[x].weights[..] == [0.0, 1.0, 0.0]
    ensures forall k :: 0 <= k < |rows| ==> rows[k].face == 2
  {
    forall k | 0 <= k < |rows| ensures rows[k].face == 2 {
      OnlyFaceTwo(rows[k].face);
    }
  }

  /** Three references to one die [1, 2, 3] whose faces 1 and 3 are
      reweighted to 0: every roll shows 2, 2, 2, so ten rolls give ten
      jackpots. */
  method ForcedJackpot() returns (jackpots: Result<nat>)
    ensures jackpots == Ok(10)
  {
    var die := new Die([1, 2, 3]);
    var _ := die.ChangeWeight(1, 0.0);
    var _ := die.ChangeWeight(3, 0.0);
    assert die.weights[..] == [0.0, 1.0, 0.0];
    assert Rollable(die.weights[..]) by {
      assert Sum([0.0, 1.0, 0.0]) == 1.0;
    }
    var game := new Game([die, die, die]);
    var played := game.Play(10);
    assert played.Ok?;
    var rows := game.results;
    assert game.PlayedFrom(0) && rows[0..] == rows;
    OnlyTwos(rows, [die, die, die]);
    ConstantTableJackpots(rows);
    var analyzer := new Analyzer(game);
    jackpots := analyzer.Jackpot();
  }
}
