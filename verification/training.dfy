/**
 * The `Training` entity: a mutable object whose setters overwrite one
 * field each, plus the two one-to-many collections (bookings, reviews)
 * whose add/remove methods keep the other side's back-reference in step.
 *
 * `Data()` is the abstract value of a training: every field at once.
 * Each mutator states the new abstract value in terms of the old one.
 */
module TrainingEntity {
  import opened Base
  import opened Calendar

  /** The owning side of a booking.  Only its back-reference to the
      training matters here. */
  class Booking {
    var training: Training?

    constructor ()
      ensures training == null
    {
      training := null;
    }

    method SetTraining(training: Training?)
      modifies this
      ensures this.training == training
    {
      this.training := training;
    }
  }

  /** The owning side of a review, shaped like Booking. */
  class TrainingReview {
    var training: Training?

    constructor ()
      ensures training == null
    {
      training := null;
    }

    method SetTraining(training: Training?)
      modifies this
      ensures this.training == training
    {
      this.training := training;
    }
  }

  /** Every field of a training at one moment. */
  datatype TrainingData = TrainingData(
    id: Option<int>,
    googleSheetId: Option<string>,
    date: Option<DateTime>,
    time: Option<DateTime>,
    title: Option<string>,
    description: Option<string>,
    duration: Option<int>,
    slots: Option<int>,
    slotsAvailable: Option<int>,
    price: Option<Float>,
    createdAt: Instant,
    updatedAt: Instant,
    bookings: seq<Booking>,
    trainingReviews: seq<TrainingReview>)

  /** A freshly constructed training at clock reading `now`. */
  function Blank(now: Instant): TrainingData {
    TrainingData(None, None, None, None, None, None, None, None, None, None, now, now, [], [])
  }

  /** The columns the `training` table declares NOT NULL are all set;
      only such a training can be written by a flush. */
  predicate Complete(t: TrainingData) {
    t.googleSheetId.Some? && t.date.Some? && t.time.Some? && t.title.Some?
    && t.slots.Some? && t.slotsAvailable.Some? && t.price.Some?
  }

  predicate AllComplete(rows: seq<TrainingData>) {
    forall i :: 0 <= i < |rows| ==> Complete(rows[i])
  }

  predicate NoDuplicates<T(==)>(s: seq<T>) {
    forall i, j :: 0 <= i < j < |s| ==> s[i] != s[j]
  }

  /** `Collection::removeElement`: drops the first occurrence of `x`. */
  function RemoveFirst<T(==)>(s: seq<T>, x: T): (r: seq<T>)
    ensures x !in s ==> r == s
    ensures x in s ==> |r| == |s| - 1
    ensures multiset(r) == multiset(s) - multiset{x}
    ensures forall y :: y in r ==> y in s
  {
    if s == [] then []
    else
      assert s == [s[0]] + s[1..];
      if s[0] == x then s[1..]
      else [s[0]] + RemoveFirst(s[1..], x)
  }

  /** Removing an element from a duplicate-free collection removes it
      entirely and keeps the collection duplicate-free. */
  lemma {:induction false} RemoveFirstNoDuplicates<T>(s: seq<T>, x: T)
    requires NoDuplicates(s)
    ensures NoDuplicates(RemoveFirst(s, x))
    ensures x !in RemoveFirst(s, x)
  {
    if s != [] {
      var t := s[1..];
      TailNoDuplicates(s);
      if s[0] != x {
        RemoveFirstNoDuplicates(t, x);
        ConsNoDuplicates(s[0], RemoveFirst(t, x));
      }
    }
  }

  /** The tail of a duplicate-free list is duplicate-free and lacks its head. */
  lemma TailNoDuplicates<T>(s: seq<T>)
    requires s != [] && NoDuplicates(s)
    ensures NoDuplicates(s[1..]) && s[0] !in s[1..]
  {
    forall i, j | 0 <= i < j < |s| - 1 ensures s[1..][i] != s[1..][j] {
      assert s[1..][i] == s[i + 1] && s[1..][j] == s[j + 1];
    }
    forall k | 0 <= k < |s| - 1 ensures s[1..][k] != s[0] {
      assert s[1..][k] == s[k + 1];
    }
  }

  /** Putting an absent element in front keeps a list duplicate-free. */
  lemma ConsNoDuplicates<T>(y: T, r: seq<T>)
    requires NoDuplicates(r) && y !in r
    ensures NoDuplicates([y] + r)
  {
    var w := [y] + r;
    forall i, j | 0 <= i < j < |w| ensures w[i] != w[j] {
      assert w[j] == r[j - 1];
      if i > 0 {
        assert w[i] == r[i - 1];
      }
    }
  }

  /** Adding an element that is absent and then removing it restores the
      collection. */
  lemma {:induction false} RemoveFirstOfAppend<T>(s: seq<T>, x: T)
    requires x !in s
    ensures RemoveFirst(s + [x], x) == s
  {
    if s != [] {
      assert (s + [x])[1..] == s[1..] + [x];
      RemoveFirstOfAppend(s[1..], x);
    }
  }

  /** The abstract values of a list of trainings, in order. */
  function Snapshot(ts: seq<Training>): (r: seq<TrainingData>)
    reads set t | t in ts
    ensures |r| == |ts|
    ensures forall i :: 0 <= i < |ts| ==> r[i] == ts[i].Data()
  {
    if ts == [] then [] else [ts[0].Data()] + Snapshot(ts[1..])
  }

  lemma SnapshotAppend(a: seq<Training>, b: seq<Training>)
    ensures Snapshot(a + b) == Snapshot(a) + Snapshot(b)
  {
    var l, r := Snapshot(a + b), Snapshot(a) + Snapshot(b);
    forall i | 0 <= i < |l| ensures l[i] == r[i] {
      if i < |a| {
        assert (a + b)[i] == a[i];
      } else {
        assert (a + b)[i] == b[i - |a|];
      }
    }
  }

  class Training {
    var id: Option<int>
    var googleSheetId: Option<string>
    var date: Option<DateTime>
    var time: Option<DateTime>
    var title: Option<string>
    var description: Option<string>
    var duration: Option<int>
    var slots: Option<int>
    var slotsAvailable: Option<int>
    var price: Option<Float>
    var createdAt: Instant
    var updatedAt: Instant
    var bookings: seq<Booking>
    var trainingReviews: seq<TrainingReview>

    function Data(): TrainingData
      reads this
    {
      TrainingData(id, googleSheetId, date, time, title, description, duration,
                   slots, slotsAvailable, price, createdAt, updatedAt, bookings, trainingReviews)
    }

    /** Neither collection holds an element twice. */
    ghost predicate Valid()
      reads this
    {
      NoDuplicates(bookings) && NoDuplicates(trainingReviews)
    }

    /** Both collections start empty and both timestamps read the clock. */
    constructor (now: Instant)
      ensures Data() == Blank(now)
      ensures Valid()
    {
      id, googleSheetId, date, time, title, description := None, None, None, None, None, None;
      duration, slots, slotsAvailable, price := None, None, None, None;
      createdAt, updatedAt := now, now;
      bookings, trainingReviews := [], [];
    }

    /** The pre-update lifecycle callback: touches `updatedAt` only. */
    method SetUpdatedAtValue(now: Instant)
      modifies this
      ensures Data() == old(Data()).(updatedAt := now)
    {
      updatedAt := now;
    }

    method SetGoogleSheetId(googleSheetId: string) returns (self: Training)
      modifies this
      ensures self == this
      ensures Data() == old(Data()).(googleSheetId := Some(googleSheetId))
    {
      this.googleSheetId := Some(googleSheetId);
      self := this;
    }

    method SetDate(date: DateTime) returns (self: Training)
      modifies this
      ensures self == this
      ensures Data() == old(Data()).(date := Some(date))
    {
      this.date := Some(date);
      self := this;
    }

    method SetTime(time: DateTime) returns (self: Training)
      modifies this
      ensures self == this
      ensures Data() == old(Data()).(time := Some(time))
    {
      this.time := Some(time);
      self := this;
    }

    method SetTitle(title: string) returns (self: Training)
      modifies this
      ensures self == this
      ensures Data() == old(Data()).(title := Some(title))
    {
      this.title := Some(title);
      self := this;
    }

    method SetDescription(description: Option<string>) returns (self: Training)
      modifies this
      ensures self == this
      ensures Data() == old(Data()).(description := description)
    {
      this.description := description;
      self := this;
    }

    method SetDuration(duration: int) returns (self: Training)
      modifies this
      ensures self == this
      ensures Data() == old(Data()).(duration := Some(duration))
    {
      this.duration := Some(duration);
      self := this;
    }

    method SetSlots(slots: int) returns (self: Training)
      modifies this
      ensures self == this
      ensures Data() == old(Data()).(slots := Some(slots))
    {
      this.slots := Some(slots);
      self := this;
    }

    method SetSlotsAvailable(slotsAvailable: int) returns (self: Training)
      modifies this
      ensures self == this
      ensures Data() == old(Data()).(slotsAvailable := Some(slotsAvailable))
    {
      this.slotsAvailable := Some(slotsAvailable);
      self := this;
    }

    method SetPrice(price: Float) returns (self: Training)
      modifies this
      ensures self == this
      ensures Data() == old(Data()).(price := Some(price))
    {
      this.price := Some(price);
      self := this;
    }

    method SetCreatedAt(createdAt: Instant) returns (self: Training)
      modifies this
      ensures self == this
      ensures Data() == old(Data()).(createdAt := createdAt)
    {
      this.createdAt := createdAt;
      self := this;
    }

    method SetUpdatedAt(updatedAt: Instant) returns (self: Training)
      modifies this
      ensures self == this
      ensures Data() == old(Data()).(updatedAt := updatedAt)
    {
      this.updatedAt := updatedAt;
      self := this;
    }

    /** Appends a booking that is not already there and points it back at
        this training; a booking already present changes nothing. */
    method AddBooking(booking: Booking) returns (self: Training)
      requires Valid()
      modifies this, booking
      ensures self == this && Valid()
      ensures old(booking in bookings) ==> Data() == old(Data()) && booking.training == old(booking.training)
      ensures old(booking !in bookings) ==>
                Data() == old(Data()).(bookings := old(bookings) + [booking]) && booking.training == this
    {
      if booking !in bookings {
        bookings := bookings + [booking];
        booking.SetTraining(this);
      }
      self := this;
    }

    /** Removes a booking; only a booking that was there and still points
        at this training has its back-reference cleared. */
    method RemoveBooking(booking: Booking) returns (self: Training)
      requires Valid()
      modifies this, booking
      ensures self == this && Valid()
      ensures Data() == old(Data()).(bookings := RemoveFirst(old(bookings), booking))
      ensures booking !in bookings
      ensures booking.training == if old(booking in bookings) && old(booking.training) == this
                                  then null else old(booking.training)
    {
      RemoveFirstNoDuplicates(bookings, booking);
      var removed := booking in bookings;
      bookings := RemoveFirst(bookings, booking);
      if removed {
        if booking.training == this {
          booking.SetTraining(null);
        }
      }
      self := this;
    }

    /** Same rules as AddBooking, for reviews. */
    method AddTrainingReview(review: TrainingReview) returns (self: Training)
      requires Valid()
      modifies this, review
      ensures self == this && Valid()
      ensures old(review in trainingReviews) ==> Data() == old(Data()) && review.training == old(review.training)
      ensures old(review !in trainingReviews) ==>
                Data() == old(Data()).(trainingReviews := old(trainingReviews) + [review]) && review.training == this
    {
      if review !in trainingReviews {
        trainingReviews := trainingReviews + [review];
        review.SetTraining(this);
      }
      self := this;
    }

    /** Same rules as RemoveBooking, for reviews. */
    method RemoveTrainingReview(review: TrainingReview) returns (self: Training)
      requires Valid()
      modifies this, review
      ensures self == this && Valid()
      ensures Data() == old(Data()).(trainingReviews := RemoveFirst(old(trainingReviews), review))
      ensures review !in trainingReviews
      ensures review.training == if old(review in trainingReviews) && old(review.training) == this
                                 then null else old(review.training)
    {
      RemoveFirstNoDuplicates(trainingReviews, review);
      var removed := review in trainingReviews;
      trainingReviews := RemoveFirst(trainingReviews, review);
      if removed {
        if review.training == this {
          review.SetTraining(null);
        }
      }
      self := this;
    }
  }
}
