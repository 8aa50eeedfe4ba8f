/**
 * The training repository's own queries, as functions of the stored rows:
 * the upcoming-trainings query (date on or after today, ordered by date
 * and then time) and the projection of one training that the API and the
 * cache hand out.
 */
module TrainingRepository {
  import opened Base
  import opened Calendar
  import opened TrainingEntity

  /** `t.date >= :today`; a row without a date never satisfies it. */
  predicate IsUpcoming(t: TrainingData, today: CivilDate) {
    t.date.Some? && !DateBefore(t.date.value.date, today)
  }

  /** The value `ORDER BY t.date` sorts on. */
  function SortDate(t: TrainingData): CivilDate {
    if t.date.Some? then t.date.value.date else CivilDate(0, 0, 0)
  }

  /** The value `ORDER BY t.time` sorts on; a missing time sorts first. */
  function SortTime(t: TrainingData): int {
    if t.time.Some? then SecondOfDay(t.time.value.clock) else -1
  }

  /** `a` may come before `b`: earlier date, or same date and no later time. */
  predicate Precedes(a: TrainingData, b: TrainingData) {
    DateBefore(SortDate(a), SortDate(b))
    || (SortDate(a) == SortDate(b) && SortTime(a) <= SortTime(b))
  }

  predicate Sorted(s: seq<TrainingData>) {
    forall i, j :: 0 <= i < j < |s| ==> Precedes(s[i], s[j])
  }

  lemma PrecedesTotal(a: TrainingData, b: TrainingData)
    ensures Precedes(a, b) || Precedes(b, a)
  {
  }

  lemma PrecedesTransitive(a: TrainingData, b: TrainingData, c: TrainingData)
    requires Precedes(a, b) && Precedes(b, c)
    ensures Precedes(a, c)
  {
  }

  /** Inserts `x` ahead of the first row it may precede. */
  function Insert(x: TrainingData, s: seq<TrainingData>): seq<TrainingData> {
    if s == [] || Precedes(x, s[0]) then [x] + s else [s[0]] + Insert(x, s[1..])
  }

  /** Insertion sort by date, then time. */
  function SortByDateTime(s: seq<TrainingData>): seq<TrainingData> {
    if s == [] then [] else Insert(s[0], SortByDateTime(s[1..]))
  }

  /** The stored rows the WHERE clause keeps, in table order. */
  function Upcoming(rows: seq<TrainingData>, today: CivilDate): seq<TrainingData> {
    if rows == [] then []
    else (if IsUpcoming(rows[0], today) then [rows[0]] else []) + Upcoming(rows[1..], today)
  }

  /** `findUpcomingTrainings`: the rows the WHERE clause keeps, ordered
      by date and then time; it never returns a row more often than it is
      stored. */
  function FindUpcomingTrainings(rows: seq<TrainingData>, today: CivilDate): (r: seq<TrainingData>)
    ensures Sorted(r) && multiset(r) <= multiset(rows)
  {
    var u := Upcoming(rows, today);
    UpcomingKeeps(rows, today);
    SortByDateTimeSorted(u);
    SortByDateTime(u)
  }

  /** Inserting into a sorted list keeps it sorted and adds exactly `x`. */
  lemma {:induction false} InsertSorted(x: TrainingData, s: seq<TrainingData>)
    requires Sorted(s)
    ensures Sorted(Insert(x, s))
    ensures multiset(Insert(x, s)) == multiset(s) + multiset{x}
  {
    if s == [] {
    } else if Precedes(x, s[0]) {
      forall j | 0 <= j < |s| ensures Precedes(x, s[j]) {
        if j > 0 { PrecedesTransitive(x, s[0], s[j]); }
      }
      SortedCons(x, s);
    } else {
      PrecedesTotal(x, s[0]);
      var tail := s[1..];
      assert s == [s[0]] + tail;
      forall j | 0 <= j < |tail| ensures Precedes(s[0], tail[j]) {
        assert tail[j] == s[j + 1];
      }
      assert Sorted(tail);
      InsertSorted(x, tail);
      var rest := Insert(x, tail);
      LowerBoundKept(s[0], x, tail, rest);
      SortedCons(s[0], rest);
      assert Insert(x, s) == [s[0]] + rest;
    }
  }

  /** A row that may precede every row of a sorted list may head it. */
  lemma SortedCons(y: TrainingData, r: seq<TrainingData>)
    requires Sorted(r)
    requires forall j :: 0 <= j < |r| ==> Precedes(y, r[j])
    ensures Sorted([y] + r)
  {
    var w := [y] + r;
    forall i, j | 0 <= i < j < |w| ensures Precedes(w[i], w[j]) {
      assert w[j] == r[j - 1];
      if i > 0 {
        assert w[i] == r[i - 1];
      }
    }
  }

  /** A row that may precede `x` and every row of `s` may precede every
      row of any rearrangement of `s` with `x` added. */
  lemma LowerBoundKept(y: TrainingData, x: TrainingData, s: seq<TrainingData>, r: seq<TrainingData>)
    requires Precedes(y, x)
    requires forall j :: 0 <= j < |s| ==> Precedes(y, s[j])
    requires multiset(r) == multiset(s) + multiset{x}
    ensures forall j :: 0 <= j < |r| ==> Precedes(y, r[j])
  {
    forall j | 0 <= j < |r| ensures Precedes(y, r[j]) {
      assert r[j] in multiset(r);
      if r[j] != x {
        assert r[j] in multiset(s);
        var k :| 0 <= k < |s| && s[k] == r[j];
      }
    }
  }

  /** The sort orders by date and time and neither drops nor adds a row. */
  lemma {:induction false} SortByDateTimeSorted(s: seq<TrainingData>)
    ensures Sorted(SortByDateTime(s))
    ensures multiset(SortByDateTime(s)) == multiset(s)
  {
    if s != [] {
      SortByDateTimeSorted(s[1..]);
      InsertSorted(s[0], SortByDateTime(s[1..]));
      assert s == [s[0]] + s[1..];
    }
  }

  /** The WHERE clause keeps every copy of an upcoming row and no copy of
      any other. */
  lemma {:induction false} UpcomingCount(rows: seq<TrainingData>, today: CivilDate, y: TrainingData)
    ensures multiset(Upcoming(rows, today))[y] == if IsUpcoming(y, today) then multiset(rows)[y] else 0
  {
    if rows != [] {
      UpcomingCount(rows[1..], today, y);
      assert rows == [rows[0]] + rows[1..];
    }
  }

  /** The WHERE clause keeps each upcoming row as often as it is stored and
      nothing else. */
  lemma UpcomingKeeps(rows: seq<TrainingData>, today: CivilDate)
    ensures multiset(Upcoming(rows, today)) <= multiset(rows)
    ensures forall i :: 0 <= i < |Upcoming(rows, today)| ==> IsUpcoming(Upcoming(rows, today)[i], today)
    ensures forall i :: 0 <= i < |rows| && IsUpcoming(rows[i], today) ==>
              multiset(Upcoming(rows, today))[rows[i]] == multiset(rows)[rows[i]]
  {
    var u := Upcoming(rows, today);
    forall y ensures multiset(u)[y] == if IsUpcoming(y, today) then multiset(rows)[y] else 0 {
      UpcomingCount(rows, today, y);
    }
    forall i | 0 <= i < |u| ensures IsUpcoming(u[i], today) {
      assert u[i] in multiset(u);
      UpcomingCount(rows, today, u[i]);
    }
  }

  /** `findUpcomingTrainings` returns every stored training dated today or
      later, each exactly as often as it is stored, and nothing else,
      ordered by date and then by time. */
  lemma FindUpcomingTrainingsSpec(rows: seq<TrainingData>, today: CivilDate)
    ensures var r := FindUpcomingTrainings(rows, today);
            && multiset(r) <= multiset(rows)
            && (forall i :: 0 <= i < |r| ==> IsUpcoming(r[i], today))
            && (forall i :: 0 <= i < |rows| && IsUpcoming(rows[i], today) ==>
                  multiset(r)[rows[i]] == multiset(rows)[rows[i]])
            && Sorted(r)
  {
    var u := Upcoming(rows, today);
    var r := FindUpcomingTrainings(rows, today);
    UpcomingKeeps(rows, today);
    SortByDateTimeSorted(u);
    forall i | 0 <= i < |r| ensures IsUpcoming(r[i], today) {
      assert r[i] in multiset(u);
      var k :| 0 <= k < |u| && u[k] == r[i];
    }
  }

  /** One training as the API and the cache hand it out. */
  datatype Projection = Projection(
    id: Option<int>,
    title: Option<string>,
    description: Option<string>,
    date: string,
    time: string,
    duration: Option<int>,
    slots: Option<int>,
    slotsAvailable: Option<int>,
    price: Option<Float>)

  /** The projection formats the date and the time, so both must be set. */
  predicate Serializable(t: TrainingData) {
    t.date.Some? && t.time.Some?
  }

  /** `serializeTraining`: the date as 'Y-m-d' text and the time as 'H:i'
      text, both of which read back as what is stored. */
  function SerializeTraining(t: TrainingData): (p: Projection)
    requires Serializable(t)
    ensures ParseYmd(p.date) == Some(t.date.value.date)
    ensures ParseHi(p.time) == Some((t.time.value.clock.hour, t.time.value.clock.minute))
  {
    ParseYmdOfFormatYmd(t.date.value.date);
    ParseHiOfFormatHi(t.time.value.clock);
    Projection(t.id, t.title, t.description, FormatYmd(t.date.value.date),
               FormatHi(t.time.value.clock), t.duration, t.slots, t.slotsAvailable, t.price)
  }

  /** The projection carries the date as 'Y-m-d' text and the time as
      'H:i' text, which read back as the stored date and as the stored
      hour and minute; every other key is a copy of its field. */
  lemma SerializeTrainingFields(t: TrainingData)
    requires Serializable(t)
    ensures var p := SerializeTraining(t);
            ParseYmd(p.date) == Some(t.date.value.date)
            && ParseHi(p.time) == Some((t.time.value.clock.hour, t.time.value.clock.minute))
            && p.id == t.id && p.title == t.title && p.description == t.description
            && p.duration == t.duration && p.slots == t.slots
            && p.slotsAvailable == t.slotsAvailable && p.price == t.price
  {
    ParseYmdOfFormatYmd(t.date.value.date);
    ParseHiOfFormatHi(t.time.value.clock);
  }

  /** Two serializable trainings with the same projection agree on every
      projected field, on the date and on the hour and minute. */
  lemma SerializeTrainingDeterminesDate(a: TrainingData, b: TrainingData)
    requires Serializable(a) && Serializable(b)
    requires SerializeTraining(a) == SerializeTraining(b)
    ensures a.date.value.date == b.date.value.date
    ensures a.time.value.clock.hour == b.time.value.clock.hour
    ensures a.time.value.clock.minute == b.time.value.clock.minute
  {
    SerializeTrainingFields(a);
    SerializeTrainingFields(b);
  }
}
