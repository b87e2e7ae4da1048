/**
 * The top-level component: it owns the list, which starts empty, and hands it
 * to the list view and the two form routes. The lemmas here follow a record
 * through the routes: a card click, the edit form, and a save.
 */
module App {
  import opened Wrappers
  import opened Experience
  import opened ExperienceList
  import Home
  import opened ExperienceForm
  import opened ExperienceEdit

  /** The list the application starts with. */
  const INITIAL_EXPERIENCES: seq<Record> := []

  /**
   * Clicking the card at `index` opens a form holding that record, and saving
   * whatever the form then holds replaces that record and no other.
   */
  lemma EditFromCard(xs: seq<Record>, index: nat, now: IsoTimestamp, edited: Record)
    requires index < |xs|
    ensures InitialForm(xs, true, EditIndex(Home.EditPath(index)), now) == xs[index]
    ensures Save(xs, edited, true, EditIndex(Home.EditPath(index))) == xs[index := NewExperience(edited)]
  {
    EditIndexOfEditPath(index);
  }

  /** Every stored record carries the `date` handleSave derives from its own two dates. */
  predicate DatesDerived(xs: seq<Record>) {
    forall k :: 0 <= k < |xs| ==> xs[k] == NewExperience(xs[k])
  }

  /** The empty initial list trivially has derived dates. */
  lemma InitialDatesDerived()
    ensures DatesDerived(INITIAL_EXPERIENCES)
  {
  }

  /** Saving keeps every stored date derived, since the saved record is built by NewExperience. */
  lemma SavePreservesDatesDerived(xs: seq<Record>, form: Record, isEditing: bool, editingIndex: Option<int>)
    requires DatesDerived(xs)
    ensures DatesDerived(Save(xs, form, isEditing, editingIndex))
  {
    var r := Save(xs, form, isEditing, editingIndex);
    NewExperienceIdempotent(form);
    forall k | 0 <= k < |r|
      ensures r[k] == NewExperience(r[k])
    {
      if k < |xs| && r[k] == xs[k] {
      } else {
        assert r[k] == NewExperience(form);
      }
    }
  }

  /** Deleting keeps every stored date derived: the remaining records are old ones. */
  lemma HandleDeletePreservesDatesDerived(xs: seq<Record>, index: int, confirmed: bool)
    requires DatesDerived(xs)
    ensures DatesDerived(Home.HandleDelete(xs, index, confirmed))
  {
    var r := Home.HandleDelete(xs, index, confirmed);
    forall k | 0 <= k < |r|
      ensures r[k] == NewExperience(r[k])
    {
      if confirmed && 0 <= index < |xs| {
        if k < index {
          assert r[k] == xs[k];
        } else {
          assert r[k] == xs[k + 1];
        }
      }
    }
  }

  /** Saving an edit form without touching it leaves a list with derived dates as it was. */
  lemma SaveUnchangedEdit(xs: seq<Record>, index: nat, now: IsoTimestamp)
    requires index < |xs|
    requires DatesDerived(xs)
    ensures Save(xs, InitialForm(xs, true, EditIndex(Home.EditPath(index)), now), true, EditIndex(Home.EditPath(index))) == xs
  {
    EditFromCard(xs, index, now, xs[index]);
  }

  /**
   * An edit path whose last segment does not parse (parseInt gives NaN) opens
   * an empty form, and saving it drops the form: no position equals NaN.
   */
  lemma EditUnparsablePath(xs: seq<Record>, pathname: string, now: IsoTimestamp, edited: Record)
    requires EditIndex(pathname).None?
    ensures InitialForm(xs, true, EditIndex(pathname), now) == DefaultForm(now)
    ensures Save(xs, edited, true, EditIndex(pathname)) == xs
  {
  }

  function Entry(title: string, start: IsoTimestamp, end: IsoTimestamp): Record {
    Record(title, start, end, "", "", "", "", "", "")
  }

  /** Add A, add B, delete position 0, edit position 0 to C: the list is just C. */
  lemma AddDeleteUpdateScenario(start: IsoTimestamp, end: IsoTimestamp)
    ensures
      var a := Entry("A", start, end);
      var b := Entry("B", start, end);
      var c := Entry("C", start, end);
      var s1 := Save(INITIAL_EXPERIENCES, a, false, None);
      var s2 := Save(s1, b, false, None);
      var s3 := Home.HandleDelete(s2, 0, true);
      var s4 := Save(s3, c, true, Some(0));
      && s1 == [NewExperience(a)]
      && s2 == [NewExperience(a), NewExperience(b)]
      && s3 == [NewExperience(b)]
      && s4 == [NewExperience(c)]
  {
  }

  /** A record saved with dates on 2024-01-05 and 2024-01-10 displays "2024-01-05 ~ 2024-01-10". */
  lemma DateScenario(form: Record)
    requires form.startDate == "2024-01-05" + "T" + "00:00:00.000Z"
    requires form.endDate == "2024-01-10" + "T" + "23:59:59.999Z"
    ensures NewExperience(form).date == "2024-01-05" + " ~ " + "2024-01-10"
  {
    var startDay, endDay := "2024-01-05", "2024-01-10";
    assert 'T' !in startDay && 'T' !in endDay;
    DatePartOfTimestamp(startDay, "00:00:00.000Z");
    DatePartOfTimestamp(endDay, "23:59:59.999Z");
  }
}
