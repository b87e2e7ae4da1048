/**
 * The list view: deleting a record after the user confirms, and the path a
 * click on a record's card navigates to.
 */
module Home {
  import opened Experience
  import opened ExperienceList
  import Decimal

  /**
   * handleDeleteExperience: `confirmed` is the answer the confirmation dialog
   * gave. Only a confirmed delete of an existing position changes the list.
   */
  function HandleDelete(xs: seq<Record>, index: int, confirmed: bool): (r: seq<Record>)
    ensures !confirmed ==> r == xs
    ensures confirmed && 0 <= index < |xs| ==> r == xs[..index] + xs[index + 1..]
    ensures !(0 <= index < |xs|) ==> r == xs
  {
    if !confirmed then xs
    else if 0 <= index < |xs| then
      DeleteAtRemoves(xs, index);
      DeleteAt(xs, index)
    else
      DeleteAtOutOfRange(xs, index);
      DeleteAt(xs, index)
  }

  /** The route `/edit/${index}` a click on the card at `index` opens. */
  function EditPath(index: nat): (p: string)
    ensures |p| > 6 && p[..6] == "/edit/"
    ensures Decimal.AllDigits(p[6..]) && Decimal.Value(p[6..]) == index
  {
    var digits := Decimal.ToDecimal(index);
    Decimal.ValueOfToDecimal(index);
    assert ("/edit/" + digits)[6..] == digits;
    "/edit/" + digits
  }
}
