/**
 * The three ways the application rebuilds its list of experiences. Each one
 * returns a fresh list; positions are the only identity a record has.
 */
module ExperienceList {
  import opened Experience

  /**
   * `xs.filter((_, i) => i !== index)`: every record whose position is not
   * `index`, in order. An index that names no position matches nothing.
   */
  function DeleteAt(xs: seq<Record>, index: int): (r: seq<Record>)
    ensures |r| == if 0 <= index < |xs| then |xs| - 1 else |xs|
    decreases |xs|
  {
    if xs == [] then []
    else (if index == 0 then [] else [xs[0]]) + DeleteAt(xs[1..], index - 1)
  }

  /**
   * `xs.map((exp, i) => i === index ? rec : exp)`: the same list with the
   * record at position `index` replaced, if there is one.
   */
  function UpdateAt(xs: seq<Record>, index: int, rec: Record): (r: seq<Record>)
    ensures |r| == |xs|
    decreases |xs|
  {
    if xs == [] then []
    else [if index == 0 then rec else xs[0]] + UpdateAt(xs[1..], index - 1, rec)
  }

  /** `[...xs, rec]`. */
  function Append(xs: seq<Record>, rec: Record): (r: seq<Record>)
    ensures |r| == |xs| + 1
    ensures r[..|xs|] == xs && r[|xs|] == rec
  {
    xs + [rec]
  }

  /** After a delete, records before `index` stay put and later ones move down by one. */
  lemma {:induction false} DeleteAtShifts(xs: seq<Record>, index: int, k: int)
    requires 0 <= index < |xs|
    requires 0 <= k < |xs| - 1
    ensures DeleteAt(xs, index)[k] == if k < index then xs[k] else xs[k + 1]
  {
    if index == 0 {
      DeleteAtOutOfRange(xs[1..], -1);
    } else if k > 0 {
      DeleteAtShifts(xs[1..], index - 1, k - 1);
    }
  }

  /** A delete at a valid index removes exactly that record. */
  lemma DeleteAtRemoves(xs: seq<Record>, index: int)
    requires 0 <= index < |xs|
    ensures DeleteAt(xs, index) == xs[..index] + xs[index + 1..]
  {
    var r := DeleteAt(xs, index);
    forall k | 0 <= k < |r|
      ensures r[k] == (xs[..index] + xs[index + 1..])[k]
    {
      DeleteAtShifts(xs, index, k);
    }
  }

  /** A delete at an index outside the list keeps every record. */
  lemma {:induction false} DeleteAtOutOfRange(xs: seq<Record>, index: int)
    requires !(0 <= index < |xs|)
    ensures DeleteAt(xs, index) == xs
  {
    if xs != [] {
      DeleteAtOutOfRange(xs[1..], index - 1);
    }
  }

  /** Deleting the last position undoes an append. */
  lemma DeleteAtUndoesAppend(xs: seq<Record>, rec: Record)
    ensures DeleteAt(Append(xs, rec), |xs|) == xs
  {
    DeleteAtRemoves(Append(xs, rec), |xs|);
  }

  /** After an update, position `index` holds the new record and every other position is as before. */
  lemma {:induction false} UpdateAtPositions(xs: seq<Record>, index: int, rec: Record, k: int)
    requires 0 <= k < |xs|
    ensures UpdateAt(xs, index, rec)[k] == if k == index then rec else xs[k]
  {
    if k > 0 {
      UpdateAtPositions(xs[1..], index - 1, rec, k - 1);
    }
  }

  /** Updating a valid index is sequence update; any other index leaves the list unchanged. */
  lemma UpdateAtReplaces(xs: seq<Record>, index: int, rec: Record)
    ensures 0 <= index < |xs| ==> UpdateAt(xs, index, rec) == xs[index := rec]
    ensures !(0 <= index < |xs|) ==> UpdateAt(xs, index, rec) == xs
  {
    var r := UpdateAt(xs, index, rec);
    forall k | 0 <= k < |xs|
      ensures r[k] == if k == index then rec else xs[k]
    {
      UpdateAtPositions(xs, index, rec, k);
    }
  }

  /** Writing back the old record undoes an update. */
  lemma UpdateAtRestores(xs: seq<Record>, index: int, rec: Record)
    requires 0 <= index < |xs|
    ensures UpdateAt(UpdateAt(xs, index, rec), index, xs[index]) == xs
  {
    UpdateAtReplaces(xs, index, rec);
    UpdateAtReplaces(xs[index := rec], index, xs[index]);
  }

  /** Of two updates at one position, the later one wins. */
  lemma UpdateAtOverwrites(xs: seq<Record>, index: int, first: Record, second: Record)
    ensures UpdateAt(UpdateAt(xs, index, first), index, second) == UpdateAt(xs, index, second)
  {
    UpdateAtReplaces(xs, index, first);
    UpdateAtReplaces(UpdateAt(xs, index, first), index, second);
    UpdateAtReplaces(xs, index, second);
  }
}
