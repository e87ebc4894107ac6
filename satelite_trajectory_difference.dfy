/** The pairwise difference of two satellite trajectories, a parent run and a
    child run: records are paired position by position, as far as the shorter
    trajectory reaches, and a pair whose times differ aborts the computation. */
module TrajectoryDifference {
  import opened Wrappers
  import opened Records

  /** The error raised for the first pair whose time stamps disagree. */
  datatype TimeMismatch = TimeMismatch(parentTime: real, childTime: real)

  function Min(a: nat, b: nat): nat {
    if a <= b then a else b
  }

  /** One output record: the parent's time and the componentwise difference
      parent minus child. */
  function RecordDifference(parent: Record, child: Record): Record {
    Record(parent.time, parent.x - child.x, parent.y - child.y, parent.z - child.z)
  }

  /** Every pair that the pairing reaches carries the same time stamp. */
  ghost predicate TimesAgree(parent: seq<Record>, child: seq<Record>) {
    forall i :: 0 <= i < |parent| && i < |child| ==> parent[i].time == child[i].time
  }

  /** The whole computation as a value: the list of differences, or the
      mismatch found at the first disagreeing pair. */
  function Difference(parent: seq<Record>, child: seq<Record>): (r: Result<seq<Record>, TimeMismatch>)
    ensures r.Success? <==> TimesAgree(parent, child)
    ensures r.Success? ==>
              && |r.value| == Min(|parent|, |child|)
              && forall i :: 0 <= i < |r.value| ==> r.value[i] == RecordDifference(parent[i], child[i])
    ensures r.Failure? ==>
              exists i :: && 0 <= i < Min(|parent|, |child|)
                          && parent[i].time != child[i].time
                          && r.error == TimeMismatch(parent[i].time, child[i].time)
                          && (forall j :: 0 <= j < i ==> parent[j].time == child[j].time)
    decreases |parent|
  {
    if |parent| == 0 || |child| == 0 then Success([])
    else if parent[0].time != child[0].time then Failure(TimeMismatch(parent[0].time, child[0].time))
    else match Difference(parent[1..], child[1..])
      case Failure(e) => Failure(e)
      case Success(rest) => Success([RecordDifference(parent[0], child[0])] + rest)
  }

  /** The `for parent, child in zip(...)` loop, appending one
      difference record per pair and stopping at the first time mismatch. */
  method ComputeDifference(parent: seq<Record>, child: seq<Record>) returns (r: Result<seq<Record>, TimeMismatch>)
    ensures r == Difference(parent, child)
  {
    var differences: seq<Record> := [];
    var i := 0;
    while i < |parent| && i < |child|
      invariant 0 <= i <= Min(|parent|, |child|)
      invariant |differences| == i
      invariant forall j :: 0 <= j < i ==> parent[j].time == child[j].time
      invariant forall j :: 0 <= j < i ==> differences[j] == RecordDifference(parent[j], child[j])
    {
      if parent[i].time != child[i].time {
        return Failure(TimeMismatch(parent[i].time, child[i].time));
      }
      differences := differences + [RecordDifference(parent[i], child[i])];
      i := i + 1;
    }
    assert TimesAgree(parent, child);
    assert differences == Difference(parent, child).value;
    return Success(differences);
  }

  /** A trajectory compared with itself never mismatches and differs by zero
      everywhere. */
  lemma DifferenceWithSelfIsZero(trajectory: seq<Record>)
    ensures Difference(trajectory, trajectory).Success?
    ensures Difference(trajectory, trajectory).value
            == seq(|trajectory|, i requires 0 <= i < |trajectory| => Record(trajectory[i].time, 0.0, 0.0, 0.0))
  {
  }

  /** When the time stamps agree, swapping parent and child still succeeds
      and negates every difference. */
  lemma DifferenceAntisymmetric(parent: seq<Record>, child: seq<Record>)
    requires TimesAgree(parent, child)
    ensures Difference(child, parent).Success?
    ensures forall i :: 0 <= i < Min(|parent|, |child|) ==>
              && Difference(child, parent).value[i].time == Difference(parent, child).value[i].time
              && Difference(child, parent).value[i].x == -Difference(parent, child).value[i].x
              && Difference(child, parent).value[i].y == -Difference(parent, child).value[i].y
              && Difference(child, parent).value[i].z == -Difference(parent, child).value[i].z
  {
  }

  /** Only the common prefix matters: records past the end of the shorter
      trajectory are ignored, as with Python's `zip`. */
  lemma {:induction false} DifferenceIgnoresTail(parent: seq<Record>, child: seq<Record>, extra: seq<Record>)
    requires |parent| <= |child|
    ensures Difference(parent, child + extra) == Difference(parent, child)
    decreases |parent|
  {
    if |parent| > 0 {
      assert (child + extra)[0] == child[0];
      assert (child + extra)[1..] == child[1..] + extra;
      DifferenceIgnoresTail(parent[1..], child[1..], extra);
    }
  }

  /** The mirror case: parent records past the end of the child are ignored. */
  lemma {:induction false} DifferenceIgnoresParentTail(parent: seq<Record>, child: seq<Record>, extra: seq<Record>)
    requires |child| <= |parent|
    ensures Difference(parent + extra, child) == Difference(parent, child)
    decreases |child|
  {
    if |child| > 0 {
      assert (parent + extra)[0] == parent[0];
      assert (parent + extra)[1..] == parent[1..] + extra;
      DifferenceIgnoresParentTail(parent[1..], child[1..], extra);
    }
  }
}
