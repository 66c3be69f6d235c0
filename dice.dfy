/** A weighted die: a face column fixed at construction and a weight column
    that change_weight overwrites in place (montecarlo.py, class Die). */
module Dice {
  import opened Outcomes

  /** Sum of a weight column. */
  function Sum(w: seq<real>): real
  {
    if w == [] then 0.0 else w[0] + Sum(w[1..])
  }

  /** The die can be rolled: numpy draws with probabilities p = w / Sum(w),
      which it accepts exactly when the sum is nonzero and no p[i] is
      negative, i.e. when every weight is zero or has the sign of the sum. */
  predicate Rollable(w: seq<real>)
  {
    (Sum(w) > 0.0 && forall i :: 0 <= i < |w| ==> w[i] >= 0.0) ||
    (Sum(w) < 0.0 && forall i :: 0 <= i < |w| ==> w[i] <= 0.0)
  }

  /** Face f has nonzero probability: some row carrying f has a nonzero weight. */
  predicate CanShow<T(==)>(faces: seq<T>, w: seq<real>, f: T)
  {
    exists i :: 0 <= i < |faces| && i < |w| && faces[i] == f && w[i] != 0.0
  }

  /** The weight column after every row whose face is `face` gets `weight`. */
  function Reweighted<T(==)>(faces: seq<T>, w: seq<real>, face: T, weight: real): (r: seq<real>)
    requires |w| == |faces|
    ensures |r| == |w|
    ensures forall i :: 0 <= i < |w| && faces[i] == face ==> r[i] == weight
    ensures forall i :: 0 <= i < |w| && faces[i] != face ==> r[i] == w[i]
  {
    if w == [] then []
    else [if faces[0] == face then weight else w[0]] + Reweighted(faces[1..], w[1..], face, weight)
  }

  /** The (face, weight) table that show returns, in construction order. */
  function Snapshot<T>(faces: seq<T>, w: seq<real>): (table: seq<(T, real)>)
    requires |w| == |faces|
    ensures |table| == |faces|
    ensures forall i :: 0 <= i < |table| ==> table[i].0 == faces[i] && table[i].1 == w[i]
  {
    if faces == [] then [] else [(faces[0], w[0])] + Snapshot(faces[1..], w[1..])
  }

  /** A column of n weights 1.0 sums to n. */
  lemma {:induction false} SumOfOnes(w: seq<real>)
    requires forall i :: 0 <= i < |w| ==> w[i] == 1.0
    ensures Sum(w) == |w| as real
  {
    if w != [] {
      SumOfOnes(w[1..]);
    }
  }

  /** A freshly built die with at least one face can be rolled. */
  lemma FreshDieRollable(w: seq<real>)
    requires |w| > 0 && forall i :: 0 <= i < |w| ==> w[i] == 1.0
    ensures Rollable(w)
  {
    SumOfOnes(w);
  }

  /** A nonzero sum has a nonzero term. */
  lemma {:induction false} NonzeroWeight(w: seq<real>)
    requires Sum(w) != 0.0
    ensures exists i :: 0 <= i < |w| && w[i] != 0.0
  {
    if w[0] == 0.0 {
      NonzeroWeight(w[1..]);
      var i :| 0 <= i < |w[1..]| && w[1..][i] != 0.0;
      assert w[i + 1] != 0.0;
    }
  }

  /** A rollable die has a face that can come up. */
  lemma RollableCanShow<T>(faces: seq<T>, w: seq<real>)
    requires |w| == |faces| && Rollable(w)
    ensures exists i :: 0 <= i < |faces| && w[i] != 0.0
    ensures exists f :: CanShow(faces, w, f)
  {
    NonzeroWeight(w);
    var i :| 0 <= i < |w| && w[i] != 0.0;
    assert CanShow(faces, w, faces[i]);
  }

  /** change_weight with a face the die does not have would change nothing. */
  lemma {:induction false} ReweightUnknownFace<T>(faces: seq<T>, w: seq<real>, face: T, weight: real)
    requires |w| == |faces| && face !in faces
    ensures Reweighted(faces, w, face, weight) == w
  {
    if w != [] {
      ReweightUnknownFace(faces[1..], w[1..], face, weight);
    }
  }

  /** A later change_weight of the same face overrides an earlier one. */
  lemma ReweightOverrides<T>(faces: seq<T>, w: seq<real>, face: T, a: real, b: real)
    requires |w| == |faces|
    ensures Reweighted(faces, Reweighted(faces, w, face, a), face, b) == Reweighted(faces, w, face, b)
  {
  }

  /** Giving a face weight 0 makes it impossible to draw; a nonzero weight
      makes it drawable. */
  lemma ReweightedShows<T>(faces: seq<T>, w: seq<real>, face: T, weight: real)
    requires |w| == |faces| && face in faces
    ensures CanShow(faces, Reweighted(faces, w, face, weight), face) <==> weight != 0.0
  {
    var r := Reweighted(faces, w, face, weight);
    var i :| 0 <= i < |faces| && faces[i] == face;
    if weight != 0.0 {
      assert r[i] != 0.0;
    }
  }

  class Die<T(==)> {
    /** The face column; never changed after construction. */
    const faces: seq<T>
    /** The weight column, one weight per face row, updated in place. */
    const weights: array<real>

    /** One weight per face. */
    ghost predicate Valid()
    {
      weights.Length == |faces|
    }

    /** Die(faces): every face gets weight 1.0, faces keep their order.
        Empty and repeated face lists are accepted as they are. */
    constructor (faces: seq<T>)
      ensures Valid() && fresh(weights)
      ensures this.faces == faces
      ensures forall i :: 0 <= i < weights.Length ==> weights[i] == 1.0
    {
      this.faces := faces;
      weights := new real[|faces|](_ => 1.0);
    }

    /** change_weight(face, weight): fails when the face is not in the face
        column, leaving every weight as it was; otherwise overwrites the
        weight of every row whose face equals `face` and nothing else. */
    method ChangeWeight(face: T, weight: real) returns (r: Result<()>)
      requires Valid()
      modifies weights
      ensures face !in faces ==> r == Err(UnknownFace) && weights[..] == old(weights[..])
      ensures face in faces ==> r == Ok(()) && weights[..] == Reweighted(faces, old(weights[..]), face, weight)
    {
      if face !in faces {
        return Err(UnknownFace);
      }
      ghost var before := weights[..];
      var i := 0;
      while i < weights.Length
        invariant 0 <= i <= weights.Length
        invariant forall k :: 0 <= k < i ==> weights[k] == (if faces[k] == face then weight else before[k])
        invariant forall k :: i <= k < weights.Length ==> weights[k] == before[k]
      {
        if faces[i] == face {
          weights[i] := weight;
        }
        i := i + 1;
      }
      assert weights[..] == Reweighted(faces, before, face, weight);
      return Ok(());
    }

    /** roll(n): n draws with replacement. Only faces with a nonzero weight
        come up; the draw itself is left nondeterministic. Reads the die
        and changes nothing. */
    method Roll(n: int := 1) returns (r: Result<seq<T>>)
      requires Valid()
      ensures !Rollable(weights[..]) ==> r == Err(DegenerateWeights)
      ensures Rollable(weights[..]) && n < 0 ==> r == Err(NegativeCount)
      ensures Rollable(weights[..]) && n >= 0 ==> r.Ok? && |r.value| == n
      ensures r.Ok? ==> forall k :: 0 <= k < |r.value| ==> CanShow(faces, weights[..], r.value[k])
    {
      if !Rollable(weights[..]) {
        return Err(DegenerateWeights);
      }
      if n < 0 {
        return Err(NegativeCount);
      }
      RollableCanShow(faces, weights[..]);
      var outcomes: seq<T> := [];
      while |outcomes| < n
        invariant |outcomes| <= n
        invariant forall k :: 0 <= k < |outcomes| ==> CanShow(faces, weights[..], outcomes[k])
      {
        var i :| 0 <= i < |faces| && weights[i] != 0.0;
        assert CanShow(faces, weights[..], faces[i]);
        outcomes := outcomes + [faces[i]];
      }
      return Ok(outcomes);
    }

    /** show(): the current (face, weight) table. */
    method Show() returns (table: seq<(T, real)>)
      requires Valid()
      ensures |table| == |faces|
      ensures forall i :: 0 <= i < |table| ==> table[i] == (faces[i], weights[i])
    {
      table := Snapshot(faces, weights[..]);
    }
  }

  /** A die [1, 2, 3] whose face 1 is reweighted to 2.5 shows 2.5 for face 1
      and keeps 1.0 elsewhere; face 4 is refused and changes nothing. */
  method ChangeWeightScenario() returns (table: seq<(int, real)>, refused: Result<()>)
    ensures table == [(1, 2.5), (2, 1.0), (3, 1.0)]
    ensures refused == Err(UnknownFace)
  {
    var die := new Die([1, 2, 3]);
    var ok := die.ChangeWeight(1, 2.5);
    refused := die.ChangeWeight(4, 1.0);
    table := die.Show();
  }
}
