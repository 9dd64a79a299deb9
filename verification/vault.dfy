/**
 * The booking vault of the portal page (src/app/page.tsx): the list of
 * bookings and the pet roster held in component state, the two entries of
 * the browser's key-value store they are loaded from, the toast message and
 * the service being scheduled. The list transformations are functions; the
 * page's handlers are methods of class Portal.
 */
module Vault {
  import opened Options

  /** The storage key of the booking list. */
  const VaultKey := "nexus_vault_data"
  /** The storage key of the pet roster. */
  const PetKey := "nexus_pet_data"
  /** The toast after a reschedule. */
  const UpdatedMessage := "Schedule Updated"
  /** The toast after a new booking. */
  const ConfirmedMessage := "Booking Confirmed"

  datatype Booking = Booking(id: int, service: string, price: string, date: string, time: string)

  datatype Pet = Pet(id: int, name: string, breed: string, notes: string)

  /**
   * The value of `isScheduling`: the service chosen (its name and price)
   * and, for a reschedule, the id of the booking to move.
   */
  datatype Scheduling = Scheduling(id: Option<int>, name: string, price: string)

  /** What a storage entry holds once parsed: a booking list or a pet roster. */
  datatype Record = BookingRecords(bookings: seq<Booking>) | PetRecords(pets: seq<Pet>)

  /** Each of the two keys, when present, holds the list the page stores under it. */
  predicate WellShaped(stored: map<string, Record>)
  {
    && (VaultKey in stored ==> stored[VaultKey].BookingRecords?)
    && (PetKey in stored ==> stored[PetKey].PetRecords?)
  }

  /**
   * `isScheduling.id` is tested for truthiness: a reschedule needs an id
   * that is present and not 0.
   */
  predicate IsReschedule(ctx: Scheduling)
  {
    ctx.id.Some? && ctx.id.value != 0
  }

  /**
   * The reschedule: every booking with the id takes the new date and
   * time, in place; the others are kept.
   */
  function Rescheduled(bs: seq<Booking>, id: int, date: string, time: string): (r: seq<Booking>)
    ensures |r| == |bs|
  {
    if bs == [] then []
    else
      [if bs[0].id == id then bs[0].(date := date, time := time) else bs[0]]
      + Rescheduled(bs[1..], id, date, time)
  }

  /** The delete: the bookings whose id differs from `id`, in order. */
  function WithoutId(bs: seq<Booking>, id: int): (r: seq<Booking>)
    ensures |r| <= |bs|
    ensures forall i :: 0 <= i < |r| ==> r[i].id != id
  {
    if bs == [] then []
    else if bs[0].id == id then WithoutId(bs[1..], id)
    else [bs[0]] + WithoutId(bs[1..], id)
  }

  /** The number of bookings with the id. */
  function CountId(bs: seq<Booking>, id: int): nat
  {
    if bs == [] then 0 else (if bs[0].id == id then 1 else 0) + CountId(bs[1..], id)
  }

  /** The booking created for `ctx` with the clock value `now` as its id. */
  function NewBooking(ctx: Scheduling, date: string, time: string, now: int): Booking
  {
    Booking(now, ctx.name, ctx.price, date, time)
  }

  /** The list `handleSaveBooking` stores: a reschedule of `bs`, or a new booking in front of it. */
  function Saved(bs: seq<Booking>, ctx: Scheduling, date: string, time: string, now: int): (r: seq<Booking>)
    ensures |r| == if IsReschedule(ctx) then |bs| else |bs| + 1
    ensures !IsReschedule(ctx) ==> r[1..] == bs && r[0].id == now
  {
    if IsReschedule(ctx) then Rescheduled(bs, ctx.id.value, date, time)
    else [NewBooking(ctx, date, time, now)] + bs
  }

  /**
   * A reschedule keeps every booking in its place: one with the id keeps
   * its id, service and price and takes the new date and time; any other
   * is left as it was.
   */
  lemma {:induction false} RescheduledAt(bs: seq<Booking>, id: int, date: string, time: string, i: int)
    requires 0 <= i < |bs|
    ensures var r := Rescheduled(bs, id, date, time);
      && r[i].id == bs[i].id && r[i].service == bs[i].service && r[i].price == bs[i].price
      && (bs[i].id == id ==> r[i].date == date && r[i].time == time)
      && (bs[i].id != id ==> r[i] == bs[i])
  {
    if i > 0 {
      RescheduledAt(bs[1..], id, date, time, i - 1);
    }
  }

  /** Rescheduling an id that no booking has leaves the list as it was. */
  lemma {:induction false} RescheduledAbsent(bs: seq<Booking>, id: int, date: string, time: string)
    requires forall i :: 0 <= i < |bs| ==> bs[i].id != id
    ensures Rescheduled(bs, id, date, time) == bs
  {
    if bs != [] {
      RescheduledAbsent(bs[1..], id, date, time);
      assert [bs[0]] + bs[1..] == bs;
    }
  }

  /** A booking survives the delete exactly when it was there and has another id. */
  lemma {:induction false} WithoutIdMembers(bs: seq<Booking>, id: int, b: Booking)
    ensures b in WithoutId(bs, id) <==> b in bs && b.id != id
  {
    if bs != [] {
      WithoutIdMembers(bs[1..], id, b);
      assert b in bs <==> b == bs[0] || b in bs[1..] by {
        assert bs == [bs[0]] + bs[1..];
      }
    }
  }

  /**
   * Deleting from a concatenation deletes from each part: the bookings
   * that remain keep their relative order.
   */
  lemma {:induction false} WithoutIdAppend(a: seq<Booking>, b: seq<Booking>, id: int)
    ensures WithoutId(a + b, id) == WithoutId(a, id) + WithoutId(b, id)
  {
    if a != [] {
      WithoutIdAppend(a[1..], b, id);
      assert (a + b)[1..] == a[1..] + b;
    } else {
      assert a + b == b;
    }
  }

  /** Exactly the bookings with the id are removed. */
  lemma {:induction false} WithoutIdLength(bs: seq<Booking>, id: int)
    ensures |WithoutId(bs, id)| == |bs| - CountId(bs, id)
  {
    if bs != [] {
      WithoutIdLength(bs[1..], id);
    }
  }

  /** Deleting an id that no booking has leaves the list as it was. */
  lemma {:induction false} WithoutIdAbsent(bs: seq<Booking>, id: int)
    requires forall i :: 0 <= i < |bs| ==> bs[i].id != id
    ensures WithoutId(bs, id) == bs
  {
    if bs != [] {
      WithoutIdAbsent(bs[1..], id);
      assert [bs[0]] + bs[1..] == bs;
    }
  }

  /** Deleting the same id twice is deleting it once. */
  lemma {:induction false} WithoutIdIdempotent(bs: seq<Booking>, id: int)
    ensures WithoutId(WithoutId(bs, id), id) == WithoutId(bs, id)
  {
    if bs != [] {
      WithoutIdIdempotent(bs[1..], id);
    }
  }

  /**
   * What a save stores: a reschedule keeps the length and the ids in order,
   * and leaves the list alone when no booking has the id; a new booking is
   * put in front, with the clock value as id, the service and price of the
   * context and the date and time given.
   */
  lemma SavedShape(bs: seq<Booking>, ctx: Scheduling, date: string, time: string, now: int)
    ensures IsReschedule(ctx) ==> |Saved(bs, ctx, date, time, now)| == |bs|
    ensures IsReschedule(ctx) ==>
      forall i :: 0 <= i < |bs| ==> Saved(bs, ctx, date, time, now)[i].id == bs[i].id
    ensures IsReschedule(ctx) && (forall i :: 0 <= i < |bs| ==> bs[i].id != ctx.id.value) ==>
      Saved(bs, ctx, date, time, now) == bs
    ensures !IsReschedule(ctx) ==>
      && Saved(bs, ctx, date, time, now) == [Booking(now, ctx.name, ctx.price, date, time)] + bs
      && |Saved(bs, ctx, date, time, now)| == |bs| + 1
  {
    if IsReschedule(ctx) {
      forall i | 0 <= i < |bs| ensures Saved(bs, ctx, date, time, now)[i].id == bs[i].id {
        RescheduledAt(bs, ctx.id.value, date, time, i);
      }
      if forall i :: 0 <= i < |bs| ==> bs[i].id != ctx.id.value {
        RescheduledAbsent(bs, ctx.id.value, date, time);
      }
    }
  }

  /** A context whose id is 0 is falsy: saving creates a new booking instead of moving booking 0. */
  lemma ZeroIdCreates(bs: seq<Booking>, name: string, price: string, date: string, time: string, now: int)
    ensures Saved(bs, Scheduling(Some(0), name, price), date, time, now)
      == [Booking(now, name, price, date, time)] + bs
  {
  }

  /**
   * Booking "Full Grooming" at the clock value t, moving it to another
   * slot and deleting it: one booking, then the same booking on the new
   * slot, then none. The move needs t to be truthy, that is, not 0.
   */
  lemma CreateMoveDelete(t: int, later: int)
    requires t != 0
    ensures var created := Saved([], Scheduling(None, "Full Grooming", "$95"), "Jan 5", "12:00", t);
      && created == [Booking(t, "Full Grooming", "$95", "Jan 5", "12:00")]
      && var moved := Saved(created, Scheduling(Some(t), "Full Grooming", "$95"), "Jan 6", "15:00", later);
      && moved == [Booking(t, "Full Grooming", "$95", "Jan 6", "15:00")]
      && WithoutId(moved, t) == []
  {
  }

  /** The page's state. */
  class Portal {
    var bookings: seq<Booking>
    var pets: seq<Pet>
    /** The browser's key-value store, each entry already parsed. */
    var stored: map<string, Record>
    var toast: Option<string>
    var scheduling: Option<Scheduling>
    var mounted: bool

    ghost predicate Valid()
      reads this
    {
      WellShaped(stored)
    }

    /** The initial `useState` values, over the store as the browser holds it. */
    constructor (storage: map<string, Record>)
      requires WellShaped(storage)
      ensures Valid()
      ensures bookings == [] && pets == [] && stored == storage
      ensures toast == None && scheduling == None && !mounted
    {
      bookings := [];
      pets := [];
      stored := storage;
      toast := None;
      scheduling := None;
      mounted := false;
    }

    /**
     * The mount effect: each collection takes the list stored under its key
     * when the key is present and is left alone otherwise; the two keys are
     * read independently and nothing is written.
     */
    method Mount()
      requires Valid()
      modifies this
      ensures Valid() && mounted
      ensures bookings == if VaultKey in stored then stored[VaultKey].bookings else old(bookings)
      ensures pets == if PetKey in stored then stored[PetKey].pets else old(pets)
      ensures stored == old(stored) && toast == old(toast) && scheduling == old(scheduling)
    {
      mounted := true;
      if VaultKey in stored {
        bookings := stored[VaultKey].bookings;
      }
      if PetKey in stored {
        pets := stored[PetKey].pets;
      }
    }

    /** A service card's `onSelect`: open the scheduler for the context. */
    method Schedule(ctx: Scheduling)
      requires Valid()
      modifies this
      ensures Valid() && scheduling == Some(ctx)
      ensures bookings == old(bookings) && pets == old(pets) && stored == old(stored)
      ensures toast == old(toast) && mounted == old(mounted)
    {
      scheduling := Some(ctx);
    }

    /**
     * `handleSaveBooking(date, time)`, with `now` the value of `Date.now()`.
     * Without a scheduling context nothing happens. Otherwise the saved list
     * replaces the bookings and the vault entry of the store, the toast says
     * which kind of save it was and the context is cleared; the pet entry of
     * the store is not touched.
     */
    method SaveBooking(date: string, time: string, now: int)
      requires Valid()
      modifies this
      ensures Valid()
      ensures old(scheduling).None? ==>
        && bookings == old(bookings) && stored == old(stored)
        && toast == old(toast) && scheduling == old(scheduling)
      ensures old(scheduling).Some? ==>
        && bookings == Saved(old(bookings), old(scheduling).value, date, time, now)
        && stored == old(stored)[VaultKey := BookingRecords(bookings)]
        && stored[VaultKey] == BookingRecords(bookings)
        && (PetKey in stored <==> PetKey in old(stored))
        && (PetKey in stored ==> stored[PetKey] == old(stored)[PetKey])
        && toast == Some(if IsReschedule(old(scheduling).value) then UpdatedMessage else ConfirmedMessage)
        && scheduling == None
      ensures pets == old(pets) && mounted == old(mounted)
    {
      if scheduling.None? {
        return;
      }
      var ctx := scheduling.value;
      var updated := Saved(bookings, ctx, date, time, now);
      bookings := updated;
      stored := stored[VaultKey := BookingRecords(updated)];
      toast := Some(if IsReschedule(ctx) then UpdatedMessage else ConfirmedMessage);
      scheduling := None;
    }

    /**
     * A vault card's delete button: the bookings with the id are removed.
     * The store is not written, so it may now differ from the bookings.
     */
    method Delete(id: int)
      requires Valid()
      modifies this
      ensures Valid()
      ensures bookings == WithoutId(old(bookings), id)
      ensures pets == old(pets) && stored == old(stored)
      ensures toast == old(toast) && scheduling == old(scheduling) && mounted == old(mounted)
    {
      bookings := WithoutId(bookings, id);
    }

    /** The timer that hides the toast three seconds after a save. */
    method ClearToast()
      requires Valid()
      modifies this
      ensures Valid() && toast == None
      ensures bookings == old(bookings) && pets == old(pets) && stored == old(stored)
      ensures scheduling == old(scheduling) && mounted == old(mounted)
    {
      toast := None;
    }
  }

  /**
   * The page as it first appears: the initial state followed by the mount
   * effect. A collection is what is stored under its key, and empty when
   * the key is absent, independently of the other key.
   */
  method Open(storage: map<string, Record>) returns (p: Portal)
    requires WellShaped(storage)
    ensures fresh(p) && p.Valid() && p.mounted
    ensures p.bookings == if VaultKey in storage then storage[VaultKey].bookings else []
    ensures p.pets == if PetKey in storage then storage[PetKey].pets else []
    ensures p.stored == storage && p.toast == None && p.scheduling == None
  {
    p := new Portal(storage);
    p.Mount();
  }
}
