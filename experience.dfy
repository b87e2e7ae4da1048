/**
 * One experience entry as the form view holds it, and the derived display date.
 *
 * The start and end dates are JavaScript Date objects in the application; the
 * model keeps each one as the ISO 8601 text its toISOString() returns, such as
 * "2024-01-05T09:30:00.000Z", because that text is all the saved record uses.
 */
module Experience {

  /** ISO 8601 text of an instant, as returned by Date.prototype.toISOString. */
  type IsoTimestamp = string

  datatype Record = Record(
    title: string,
    startDate: IsoTimestamp,
    endDate: IsoTimestamp,
    date: string,
    duration: string,
    summary: string,
    details: string,
    keywords: string,
    notes: string)

  /**
   * The fields the form lets the user edit: the six text inputs (by their
   * `name` attribute) and the two date pickers. `date` is not among them.
   */
  datatype Field = Title | StartDate | EndDate | Duration | Summary | Details | Keywords | Notes

  /** The value a record holds in one editable field. */
  function Get(rec: Record, f: Field): string {
    match f
    case Title => rec.title
    case StartDate => rec.startDate
    case EndDate => rec.endDate
    case Duration => rec.duration
    case Summary => rec.summary
    case Details => rec.details
    case Keywords => rec.keywords
    case Notes => rec.notes
  }

  /**
   * `iso.split("T")[0]`: the text before the first "T", or all of `iso` when
   * it holds no "T".
   */
  function DatePart(iso: string): (d: string)
    ensures d <= iso
    ensures 'T' !in d
    ensures |d| < |iso| ==> iso[|d|] == 'T'
  {
    if iso == [] || iso[0] == 'T' then [] else [iso[0]] + DatePart(iso[1..])
  }

  /** The display text `<start date> ~ <end date>` of a saved record. */
  function DateRange(start: IsoTimestamp, end: IsoTimestamp): (r: string)
    ensures 'T' !in r
    ensures |DatePart(start)| + 3 <= |r| && r[..|DatePart(start)|] <= start
    ensures r[|DatePart(start)|..|DatePart(start)| + 3] == " ~ "
    ensures r[|DatePart(start)| + 3..] <= end
  {
    DatePart(start) + " ~ " + DatePart(end)
  }

  /** Of a timestamp `<day>T<time>`, the date part is exactly `<day>`. */
  lemma {:induction false} DatePartOfTimestamp(day: string, time: string)
    requires 'T' !in day
    ensures DatePart(day + "T" + time) == day
  {
    if day != [] {
      assert (day + "T" + time)[1..] == day[1..] + "T" + time;
      DatePartOfTimestamp(day[1..], time);
    }
  }

  /** The date part is determined by the three facts DatePart promises. */
  lemma DatePartUnique(iso: string, d: string)
    requires d <= iso && 'T' !in d
    requires |d| < |iso| ==> iso[|d|] == 'T'
    ensures d == DatePart(iso)
  {
  }

  /** A range built from two ISO timestamps shows their two calendar days. */
  lemma DateRangeOfTimestamps(startDay: string, startTime: string, endDay: string, endTime: string)
    requires 'T' !in startDay && 'T' !in endDay
    ensures DateRange(startDay + "T" + startTime, endDay + "T" + endTime) == startDay + " ~ " + endDay
  {
    DatePartOfTimestamp(startDay, startTime);
    DatePartOfTimestamp(endDay, endTime);
  }
}
