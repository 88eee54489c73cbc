/** The appointment-slot board of the services page
    (frontend/src/components/Services.jsx): per service, a list of time slots that are
    either free or booked by some user, and `handleSlotAction`, which sends the user to
    the booking form for a free slot and lets the current user cancel their own booking.

    `window.confirm` becomes a boolean input; `navigate`, `alert` and the console
    message become the `Effect` the action reports. */
module Slots {
  import opened JsValues
  import ServiceCatalog

  /** The simulated signed-in user. */
  const CurrentUserId := "user123"

  datatype Status = Available | Booked

  /** One slot. `bookedBy` is `null` (here `None`) for a free slot. */
  datatype Slot = Slot(id: string, time: string, status: Status, bookedBy: Option<string>)

  /** Slot lists keyed by service id. */
  type Timings = map<int, seq<Slot>>

  /** What an action does besides (possibly) replacing the timings. */
  datatype Effect =
      /** `[...updatedTimings[serviceId]]` on a service without a slot list throws. */
    | NoSlotList
      /** No slot with that id: a console error and nothing else. */
    | SlotNotFound
      /** `services.find(...)` returns `undefined` and reading `.title` throws. */
    | NoSuchService
      /** A free slot: go to the booking form with the service and the slot's time. */
    | NavigateToBooking(serviceId: int, serviceTitle: string, selectedTime: string, serviceDescription: string)
      /** The current user confirmed: the slot is freed and an alert says so. */
    | Cancelled(serviceTitle: string, time: string)
      /** The current user declined the confirmation: nothing changes. */
    | KeptOnDecline
      /** Somebody else's booking: an alert refuses the cancellation. */
    | RefusedOthers

  datatype SlotResult = SlotResult(timings: Timings, effect: Effect)

  /** A slot is free exactly when nobody holds it. */
  predicate SlotConsistent(s: Slot) {
    s.status == Available <==> s.bookedBy.None?
  }

  predicate Consistent(t: Timings) {
    forall sid, k :: sid in t && 0 <= k < |t[sid]| ==> SlotConsistent(t[sid][k])
  }

  function Open(id: string, time: string): (s: Slot)
    ensures SlotConsistent(s) && s.status == Available
  {
    Slot(id, time, Available, None)
  }

  function Taken(id: string, time: string, user: string): (s: Slot)
    ensures SlotConsistent(s) && s.status == Booked && s.bookedBy == Some(user)
  {
    Slot(id, time, Booked, Some(user))
  }

  function HairSlots(): seq<Slot> {
    [Open("h1", "09:00 AM"), Taken("h2", "10:00 AM", "user123"), Open("h3", "11:00 AM"),
     Open("h4", "01:00 PM"), Taken("h5", "02:00 PM", "anotherUser456"), Open("h6", "03:00 PM")]
  }

  function NailSlots(): seq<Slot> {
    [Open("m1", "09:30 AM"), Open("m2", "10:30 AM"), Taken("m3", "11:30 AM", "user123"),
     Open("m4", "01:30 PM"), Open("m5", "02:30 PM")]
  }

  function FacialSlots(): seq<Slot> {
    [Taken("f1", "09:00 AM", "anotherUser789"), Open("f2", "10:00 AM"), Open("f3", "11:00 AM"),
     Taken("f4", "01:00 PM", "user123"), Open("f5", "02:00 PM")]
  }

  function MassageSlots(): seq<Slot> {
    [Open("mg1", "10:00 AM"), Open("mg2", "11:00 AM"), Taken("mg3", "12:00 PM", "user123"),
     Open("mg4", "02:00 PM"), Taken("mg5", "03:00 PM", "anotherUser456")]
  }

  function MakeupSlots(): seq<Slot> {
    [Open("mk1", "09:00 AM"), Open("mk2", "10:30 AM"), Open("mk3", "12:00 PM"),
     Taken("mk4", "01:30 PM", "user123"), Open("mk5", "03:00 PM")]
  }

  function WaxingSlots(): seq<Slot> {
    [Open("w1", "09:15 AM"), Taken("w2", "10:15 AM", "user123"), Open("w3", "11:15 AM"),
     Open("w4", "01:15 PM"), Taken("w5", "02:15 PM", "anotherUser789")]
  }

  /** The slot board the page starts with: one list for each seeded service. */
  function InitialTimings(): (t: Timings)
    ensures t.Keys == {1, 2, 3, 4, 5, 6}
  {
    map[1 := HairSlots(), 2 := NailSlots(), 3 := FacialSlots(),
        4 := MassageSlots(), 5 := MakeupSlots(), 6 := WaxingSlots()]
  }

  /** `findIndex(slot => slot.id === slotId)`: the first position with that id, or -1. */
  function FindSlot(slots: seq<Slot>, slotId: string): (i: int)
    ensures -1 <= i < |slots|
    ensures i == -1 <==> forall k :: 0 <= k < |slots| ==> slots[k].id != slotId
    ensures i >= 0 ==> slots[i].id == slotId && forall k :: 0 <= k < i ==> slots[k].id != slotId
  {
    if slots == [] then -1
    else if slots[0].id == slotId then 0
    else
      var j := FindSlot(slots[1..], slotId);
      assert forall k :: 1 <= k < |slots| ==> slots[k] == slots[1..][k - 1];
      if j == -1 then -1 else j + 1
  }

  /** The freed slot: same id and time, available, held by nobody. */
  function Release(s: Slot): Slot {
    s.(status := Available, bookedBy := None)
  }

  /** The slot list exists, holds the slot and the service is in the catalogue: the
      handler gets past its three lookups. */
  predicate Located(timings: Timings, services: seq<ServiceCatalog.Service>, serviceId: int, slotId: string) {
    && serviceId in timings
    && FindSlot(timings[serviceId], slotId) >= 0
    && ServiceCatalog.FindService(services, Some(serviceId)).Some?
  }

  /** The slot the handler acts on. */
  function Target(timings: Timings, serviceId: int, slotId: string): Slot
    requires serviceId in timings && FindSlot(timings[serviceId], slotId) >= 0
  {
    timings[serviceId][FindSlot(timings[serviceId], slotId)]
  }

  /** `handleSlotAction(serviceId, slotId)` with the answer the user would give to the
      confirmation prompt. The checks run in the source's order: the slot list, the
      slot, the service, then the slot's state. */
  function HandleSlotAction(timings: Timings, services: seq<ServiceCatalog.Service>,
                            serviceId: int, slotId: string, confirm: bool): (r: SlotResult)
    // only a confirmed cancellation of the current user's own booking changes anything
    ensures !r.effect.Cancelled? ==> r.timings == timings
    // the failures, in the order the handler meets them
    ensures r.effect == NoSlotList <==> serviceId !in timings
    ensures r.effect == SlotNotFound <==> serviceId in timings && FindSlot(timings[serviceId], slotId) == -1
    ensures r.effect == NoSuchService <==>
      && serviceId in timings && FindSlot(timings[serviceId], slotId) >= 0
      && ServiceCatalog.FindService(services, Some(serviceId)).None?
    // past the lookups, the slot's state and the user's answer decide
    ensures r.effect.NavigateToBooking? <==>
      Located(timings, services, serviceId, slotId) && Target(timings, serviceId, slotId).status == Available
    ensures r.effect.Cancelled? <==>
      && Located(timings, services, serviceId, slotId)
      && Target(timings, serviceId, slotId).status == Booked
      && Target(timings, serviceId, slotId).bookedBy == Some(CurrentUserId)
      && confirm
    ensures r.effect == KeptOnDecline <==>
      && Located(timings, services, serviceId, slotId)
      && Target(timings, serviceId, slotId).status == Booked
      && Target(timings, serviceId, slotId).bookedBy == Some(CurrentUserId)
      && !confirm
    ensures r.effect == RefusedOthers <==>
      && Located(timings, services, serviceId, slotId)
      && Target(timings, serviceId, slotId).status == Booked
      && Target(timings, serviceId, slotId).bookedBy != Some(CurrentUserId)
    // what the booking form and the cancellation notice are given
    ensures r.effect.NavigateToBooking? || r.effect.Cancelled? ==>
      var service := ServiceCatalog.FindService(services, Some(serviceId)).value;
      var slot := Target(timings, serviceId, slotId);
      r.effect == if r.effect.Cancelled? then Cancelled(service.title, slot.time)
                  else NavigateToBooking(serviceId, service.title, slot.time, service.description)
  {
    if serviceId !in timings then SlotResult(timings, NoSlotList)
    else
      var slots := timings[serviceId];
      var i := FindSlot(slots, slotId);
      if i == -1 then SlotResult(timings, SlotNotFound)
      else
        var slot := slots[i];
        assert slot == Target(timings, serviceId, slotId);
        var service := ServiceCatalog.FindService(services, Some(serviceId));
        if service.None? then SlotResult(timings, NoSuchService)
        else if slot.status == Available then
          SlotResult(timings, NavigateToBooking(serviceId, service.value.title, slot.time, service.value.description))
        else
          assert slot.status == Booked && Located(timings, services, serviceId, slotId);
          if slot.bookedBy == Some(CurrentUserId) then
            if confirm then
              SlotResult(timings[serviceId := slots[i := Release(slot)]], Cancelled(service.value.title, slot.time))
            else SlotResult(timings, KeptOnDecline)
          else SlotResult(timings, RefusedOthers)
  }

  /** The seeded board is consistent: every free slot has no holder and every booked
      slot has one. */
  lemma InitialConsistent()
    ensures Consistent(InitialTimings())
  {
    var t := InitialTimings();
    forall sid, k | sid in t && 0 <= k < |t[sid]|
      ensures SlotConsistent(t[sid][k])
    {
      if sid == 1 { assert t[sid] == HairSlots(); }
      else if sid == 2 { assert t[sid] == NailSlots(); }
      else if sid == 3 { assert t[sid] == FacialSlots(); }
      else if sid == 4 { assert t[sid] == MassageSlots(); }
      else if sid == 5 { assert t[sid] == MakeupSlots(); }
      else { assert t[sid] == WaxingSlots(); }
    }
  }

  /** Every seeded service has a slot list, so on the starting board the handler never
      fails on a missing list. */
  lemma EverySeededServiceHasSlots()
    ensures forall i :: 0 <= i < 6 ==> ServiceCatalog.InitialServices()[i].id.value in InitialTimings()
  {
    var services := ServiceCatalog.InitialServices();
    var keys := InitialTimings().Keys;
    assert forall i :: 0 <= i < 6 ==> services[i].id.value == i + 1;
    assert forall n :: 1 <= n <= 6 ==> n in keys;
  }

  /** A cancellation frees exactly the chosen slot: its id and time stay, it becomes
      available with no holder, every other slot of the service and every other
      service's list are untouched, and the slot count does not change. */
  lemma CancelChangesOnlyThatSlot(timings: Timings, services: seq<ServiceCatalog.Service>,
                                  serviceId: int, slotId: string, confirm: bool)
    requires HandleSlotAction(timings, services, serviceId, slotId, confirm).effect.Cancelled?
    ensures var t := HandleSlotAction(timings, services, serviceId, slotId, confirm).timings;
      && t.Keys == timings.Keys
      && (forall sid :: sid in timings && sid != serviceId ==> t[sid] == timings[sid])
      && |t[serviceId]| == |timings[serviceId]|
      && var i := FindSlot(timings[serviceId], slotId);
      && t[serviceId][i].id == slotId
      && t[serviceId][i].time == timings[serviceId][i].time
      && t[serviceId][i].status == Available && t[serviceId][i].bookedBy.None?
      && forall k :: 0 <= k < |t[serviceId]| && k != i ==> t[serviceId][k] == timings[serviceId][k]
  {
  }

  /** Every action keeps the board consistent. */
  lemma ActionPreservesConsistency(timings: Timings, services: seq<ServiceCatalog.Service>,
                                   serviceId: int, slotId: string, confirm: bool)
    requires Consistent(timings)
    ensures Consistent(HandleSlotAction(timings, services, serviceId, slotId, confirm).timings)
  {
    var r := HandleSlotAction(timings, services, serviceId, slotId, confirm);
    if r.effect.Cancelled? {
      CancelChangesOnlyThatSlot(timings, services, serviceId, slotId, confirm);
      var t := r.timings;
      forall sid, k | sid in t && 0 <= k < |t[sid]|
        ensures SlotConsistent(t[sid][k])
      {
        if sid != serviceId || k != FindSlot(timings[serviceId], slotId) {
          assert t[sid][k] == timings[sid][k];
        }
      }
    }
  }

  /** One click on the board: a service, a slot, and the answer to the prompt. */
  datatype Click = Click(serviceId: int, slotId: string, confirm: bool)

  function Replay(timings: Timings, services: seq<ServiceCatalog.Service>, clicks: seq<Click>): Timings
    decreases |clicks|
  {
    if clicks == [] then timings
    else
      var c := clicks[0];
      Replay(HandleSlotAction(timings, services, c.serviceId, c.slotId, c.confirm).timings, services, clicks[1..])
  }

  /** No sequence of clicks ever changes a slot that another user holds, or moves any
      slot, or adds or removes a slot list. */
  lemma {:induction false} OthersBookingsSurvive(timings: Timings, services: seq<ServiceCatalog.Service>,
                                                 clicks: seq<Click>, sid: int, k: int)
    requires sid in timings && 0 <= k < |timings[sid]|
    requires timings[sid][k].bookedBy.Some? && timings[sid][k].bookedBy != Some(CurrentUserId)
    ensures var t := Replay(timings, services, clicks);
      sid in t && |t[sid]| == |timings[sid]| && t[sid][k] == timings[sid][k]
    decreases |clicks|
  {
    if clicks != [] {
      var c := clicks[0];
      var r := HandleSlotAction(timings, services, c.serviceId, c.slotId, c.confirm);
      if r.effect.Cancelled? {
        CancelChangesOnlyThatSlot(timings, services, c.serviceId, c.slotId, c.confirm);
        if sid == c.serviceId {
          assert k != FindSlot(timings[sid], c.slotId);
        }
      }
      OthersBookingsSurvive(r.timings, services, clicks[1..], sid, k);
    }
  }

  /** After a confirmed cancellation, clicking the same slot again leads to the booking
      form with that slot's time. */
  lemma CancelThenBook(timings: Timings, services: seq<ServiceCatalog.Service>,
                       serviceId: int, slotId: string, confirm: bool, confirmAgain: bool)
    requires HandleSlotAction(timings, services, serviceId, slotId, confirm).effect.Cancelled?
    ensures var t := HandleSlotAction(timings, services, serviceId, slotId, confirm).timings;
      var e := HandleSlotAction(t, services, serviceId, slotId, confirmAgain).effect;
      && e.NavigateToBooking?
      && e.selectedTime == timings[serviceId][FindSlot(timings[serviceId], slotId)].time
  {
    var t := HandleSlotAction(timings, services, serviceId, slotId, confirm).timings;
    var i := FindSlot(timings[serviceId], slotId);
    CancelChangesOnlyThatSlot(timings, services, serviceId, slotId, confirm);
    assert FindSlot(t[serviceId], slotId) == i by {
      forall k | 0 <= k < i ensures t[serviceId][k].id != slotId {
        assert t[serviceId][k] == timings[serviceId][k];
      }
    }
  }
}
