/**
 * The form view shared by adding and editing: the record the form starts
 * from, a change to one field, and what saving does to the list.
 */
module ExperienceForm {
  import opened Wrappers
  import opened Experience
  import opened ExperienceList

  /** Whether `editingIndex` names an existing position of `xs`. */
  predicate Names(xs: seq<Record>, editingIndex: Option<int>) {
    editingIndex.Some? && 0 <= editingIndex.value < |xs|
  }

  /**
   * The record a new form starts from: every text field empty and both dates
   * `now`, the moment the form opens. The application's default object has
   * no `date` key at all; the model writes "" there.
   */
  function DefaultForm(now: IsoTimestamp): (r: Record)
    ensures r.startDate == now && r.endDate == now && r.date == ""
    ensures forall f :: f != StartDate && f != EndDate ==> Get(r, f) == ""
  {
    Record("", now, now, "", "", "", "", "", "")
  }

  /**
   * `existingExperience || default`: when editing, the record at
   * `editingIndex`; when that position does not exist (reading it gives
   * undefined), or when adding, the default record. `None` stands for NaN.
   */
  function InitialForm(xs: seq<Record>, isEditing: bool, editingIndex: Option<int>, now: IsoTimestamp): (r: Record)
    ensures isEditing && Names(xs, editingIndex) ==> r == xs[editingIndex.value]
    ensures !(isEditing && Names(xs, editingIndex)) ==>
      && r.startDate == now && r.endDate == now && r.date == ""
      && forall f :: f != StartDate && f != EndDate ==> Get(r, f) == ""
  {
    if isEditing && Names(xs, editingIndex) then xs[editingIndex.value] else DefaultForm(now)
  }

  /**
   * handleChange and the two date pickers' onChange: `{ ...form, [field]: value }`.
   */
  function HandleChange(form: Record, field: Field, value: string): (r: Record)
    ensures Get(r, field) == value
    ensures forall g :: g != field ==> Get(r, g) == Get(form, g)
    ensures r.date == form.date
  {
    match field
    case Title => form.(title := value)
    case StartDate => form.(startDate := value)
    case EndDate => form.(endDate := value)
    case Duration => form.(duration := value)
    case Summary => form.(summary := value)
    case Details => form.(details := value)
    case Keywords => form.(keywords := value)
    case Notes => form.(notes := value)
  }

  /** Two records that agree on every editable field and on `date` are the same record. */
  lemma RecordsAgree(a: Record, b: Record)
    requires forall f :: Get(a, f) == Get(b, f)
    requires a.date == b.date
    ensures a == b
  {
    assert Get(a, Title) == Get(b, Title) && Get(a, StartDate) == Get(b, StartDate);
    assert Get(a, EndDate) == Get(b, EndDate) && Get(a, Duration) == Get(b, Duration);
    assert Get(a, Summary) == Get(b, Summary) && Get(a, Details) == Get(b, Details);
    assert Get(a, Keywords) == Get(b, Keywords) && Get(a, Notes) == Get(b, Notes);
  }

  /** Typing a field's current value back into it changes nothing. */
  lemma HandleChangeSameValue(form: Record, field: Field)
    ensures HandleChange(form, field, Get(form, field)) == form
  {
    RecordsAgree(HandleChange(form, field, Get(form, field)), form);
  }

  /** Restoring a field's old value undoes a change to it. */
  lemma HandleChangeUndo(form: Record, field: Field, value: string)
    ensures HandleChange(HandleChange(form, field, value), field, Get(form, field)) == form
  {
    var changed := HandleChange(form, field, value);
    RecordsAgree(HandleChange(changed, field, Get(form, field)), form);
  }

  /** Changes to two different fields can be made in either order. */
  lemma HandleChangeCommutes(form: Record, f: Field, v: string, g: Field, w: string)
    requires f != g
    ensures HandleChange(HandleChange(form, f, v), g, w) == HandleChange(HandleChange(form, g, w), f, v)
  {
    RecordsAgree(HandleChange(HandleChange(form, f, v), g, w), HandleChange(HandleChange(form, g, w), f, v));
  }

  /**
   * `newExperience` in handleSave: the form with `date` set to the date parts
   * of its start and end timestamps joined by " ~ ".
   */
  function NewExperience(form: Record): (r: Record)
    ensures r.date == DatePart(form.startDate) + " ~ " + DatePart(form.endDate)
    ensures forall f :: Get(r, f) == Get(form, f)
  {
    form.(date := DateRange(form.startDate, form.endDate))
  }

  /** The saved `date` depends on the two dates alone, so saving a saved record again changes nothing. */
  lemma NewExperienceIdempotent(form: Record)
    ensures NewExperience(NewExperience(form)) == NewExperience(form)
  {
    RecordsAgree(NewExperience(NewExperience(form)), NewExperience(form));
  }

  /** Whatever `date` the form carried, the saved record's `date` is recomputed. */
  lemma NewExperienceIgnoresDate(form: Record, stale: string)
    ensures NewExperience(form.(date := stale)) == NewExperience(form)
  {
    RecordsAgree(NewExperience(form.(date := stale)), NewExperience(form));
  }

  /**
   * The list handleSave stores: when adding, the new record appended; when
   * editing, the record at `editingIndex` replaced, or the list unchanged
   * when no position matches (the map compares every index and none equals it).
   */
  function Save(xs: seq<Record>, form: Record, isEditing: bool, editingIndex: Option<int>): (r: seq<Record>)
    ensures !isEditing ==> r == xs + [NewExperience(form)]
    ensures isEditing && Names(xs, editingIndex) ==> r == xs[editingIndex.value := NewExperience(form)]
    ensures isEditing && !Names(xs, editingIndex) ==> r == xs
  {
    var rec := NewExperience(form);
    if isEditing then
      match editingIndex
      case Some(i) =>
        UpdateAtReplaces(xs, i, rec);
        UpdateAt(xs, i, rec)
      case None => xs
    else
      Append(xs, rec)
  }
}
