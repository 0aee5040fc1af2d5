/** The reservation handlers of controllers/reservations.js. Each handler
    takes the caller's identity and role from the authentication middleware,
    answers with a status code, and either changes the store or leaves it
    alone. The decisions are pure functions (`AddStatus`, `UpdateStatus`,
    `DeleteStatus`), each proved equivalent to the booking rule `WithinHours`
    and the ownership rule `MayModify`; the handlers are methods that call
    them and then write to the store. */
module Reservations {
  import opened Records
  import opened Text
  import opened CoworkingModel
  import opened Store

  /** How many reservations a user who is not an admin may hold. */
  const MaxReservations: nat := 3

  /** The cap check at the heart of creation: a non-admin holding three or
      more reservations, in any spaces, may not book another. */
  predicate OverCap(held: nat, caller: Caller) {
    held >= MaxReservations && !IsAdmin(caller)
  }

  /** Only the owner of a reservation or an admin may change or delete it. */
  predicate MayModify(r: Reservation, caller: Caller) {
    r.user == caller.id || IsAdmin(caller)
  }

  /** The booking rule: the space is open when the reservation starts and
      still open when it ends, and it does not end before it starts. */
  predicate WithinHours(space: Coworking, start: string, end: string) {
    Compare(space.opentime, start) <= 0 && Compare(start, end) <= 0 && Compare(end, space.closetime) <= 0
  }

  /** On zero-padded "HH:MM" times the booking rule is the time-of-day order
      opentime <= start <= end <= closetime. */
  lemma WithinHoursIsClockOrder(space: Coworking, start: string, end: string)
    requires IsClockTime(space.opentime) && IsClockTime(space.closetime)
    requires IsClockTime(start) && IsClockTime(end)
    ensures WithinHours(space, start, end) <==>
              Minutes(space.opentime) <= Minutes(start) <= Minutes(end) <= Minutes(space.closetime)
  {
    ClockOrder(space.opentime, start);
    ClockOrder(start, end);
    ClockOrder(end, space.closetime);
  }

  /** The status `addReservation` answers: the space must exist (404), then
      the cap (400), then the opening hours (400), then start <= end (400).
      A `start` or `end` that is missing is dereferenced and throws (500),
      except that a `start` before opening time already settles the `||`. */
  function AddStatus(space: Option<Coworking>, held: nat, caller: Caller, start: Option<string>, end: Option<string>): (s: int)
    ensures s == CREATED || s == BAD_REQUEST || s == NOT_FOUND || s == SERVER_ERROR
    ensures s == NOT_FOUND <==> space.None?
    ensures space.Some? && OverCap(held, caller) ==> s == BAD_REQUEST
    ensures s == BAD_REQUEST <==>
              space.Some?
              && (OverCap(held, caller)
                  || (start.Some? && Compare(start.value, space.value.opentime) < 0)
                  || (start.Some? && end.Some? && !WithinHours(space.value, start.value, end.value)))
    ensures s == CREATED <==>
              space.Some? && !OverCap(held, caller) && start.Some? && end.Some?
              && WithinHours(space.value, start.value, end.value)
    ensures s == SERVER_ERROR <==>
              space.Some? && !OverCap(held, caller)
              && (start.None? || (end.None? && Compare(start.value, space.value.opentime) >= 0))
  {
    if space.None? then NOT_FOUND
    else if OverCap(held, caller) then BAD_REQUEST
    else if start.None? then SERVER_ERROR
    else
      CompareAntisymmetric(start.value, space.value.opentime);
      if Compare(start.value, space.value.opentime) < 0 then BAD_REQUEST
      else if end.None? then SERVER_ERROR
      else
        CompareAntisymmetric(end.value, space.value.closetime);
        if Compare(end.value, space.value.closetime) > 0 then BAD_REQUEST
        else if Compare(start.value, end.value) > 0 then BAD_REQUEST
        else CREATED
  }

  /** The cap never stops an admin, and stops a non-admin from the third
      reservation on, whatever the times. */
  lemma CapRule(space: Coworking, held: nat, caller: Caller, start: string, end: string)
    ensures IsAdmin(caller) && WithinHours(space, start, end) ==>
              AddStatus(Some(space), held, caller, Some(start), Some(end)) == CREATED
    ensures !IsAdmin(caller) && held >= MaxReservations ==>
              AddStatus(Some(space), held, caller, Some(start), Some(end)) == BAD_REQUEST
    ensures !IsAdmin(caller) && held < MaxReservations && WithinHours(space, start, end) ==>
              AddStatus(Some(space), held, caller, Some(start), Some(end)) == CREATED
  {
  }

  /** The status `updateReservation` answers. The reservation is dereferenced
      (to find its space) before the null check, so a missing reservation
      gives 500 and 404 is never answered. Then ownership (401), then the same
      time checks as creation against the reservation's current space, never
      the cap; a body `coworking` that is no ObjectId fails the write (500). */
  function UpdateStatus(found: Option<Reservation>, space: Option<Coworking>, caller: Caller, body: ReservationPatch): (s: int)
    ensures s == OK || s == BAD_REQUEST || s == UNAUTHORIZED || s == SERVER_ERROR
    ensures found.None? ==> s == SERVER_ERROR
    ensures s == UNAUTHORIZED <==> found.Some? && !MayModify(found.value, caller)
    ensures s == BAD_REQUEST <==>
              found.Some? && MayModify(found.value, caller) && space.Some? && body.start.Some?
              && (Compare(body.start.value, space.value.opentime) < 0
                  || (body.end.Some? && !WithinHours(space.value, body.start.value, body.end.value)))
    ensures s == OK <==>
              found.Some? && MayModify(found.value, caller) && space.Some?
              && body.start.Some? && body.end.Some?
              && WithinHours(space.value, body.start.value, body.end.value) && Castable(body)
  {
    if found.None? then SERVER_ERROR
    else if !MayModify(found.value, caller) then UNAUTHORIZED
    else if body.start.None? || space.None? then SERVER_ERROR
    else
      CompareAntisymmetric(body.start.value, space.value.opentime);
      if Compare(body.start.value, space.value.opentime) < 0 then BAD_REQUEST
      else if body.end.None? then SERVER_ERROR
      else
        CompareAntisymmetric(body.end.value, space.value.closetime);
        if Compare(body.end.value, space.value.closetime) > 0 then BAD_REQUEST
        else if Compare(body.start.value, body.end.value) > 0 then BAD_REQUEST
        else if !Castable(body) then SERVER_ERROR
        else OK
  }

  /** The status `deleteReservation` answers: a path id that does not cast
      throws (500), a missing reservation is 404, a stranger's is 401. */
  function DeleteStatus(p: IdParam, found: Option<Reservation>, caller: Caller): (s: int)
    ensures s == OK <==> p.Cast? && found.Some? && MayModify(found.value, caller)
    ensures p.Cast? && found.None? ==> s == NOT_FOUND
    ensures p.Cast? && found.Some? && !MayModify(found.value, caller) ==> s == UNAUTHORIZED
    ensures p.Uncastable? ==> s == SERVER_ERROR
  {
    if p.Uncastable? then SERVER_ERROR
    else if found.None? then NOT_FOUND
    else if !MayModify(found.value, caller) then UNAUTHORIZED
    else OK
  }

  /** A reservation with its space joined in: the space's selected fields, or
      `None` when the space no longer exists (`populate` gives null). */
  datatype Joined = Joined(reservation: Reservation, space: Option<map<string, string>>)

  function Join(r: Reservation, spaces: map<Id, Coworking>, fields: set<string>): Joined {
    Joined(r, if r.coworking in spaces then Some(Select(spaces[r.coworking], fields)) else None)
  }

  /** Adding a reservation for `user` raises the user's count by one. */
  lemma OwnedByInsert(user: UserId, table: map<Id, Reservation>, r: Reservation)
    requires r.id !in table && r.user == user
    ensures |OwnedBy(user, table[r.id := r])| == |OwnedBy(user, table)| + 1
  {
    assert OwnedBy(user, table[r.id := r]) == OwnedBy(user, table)[r.id := r];
  }

  // ---------------------------------------------------------------------------
  // Handlers

  /** `getReservations`: a non-admin sees only their own reservations, an
      admin those of the space in the path, or all of them. A path id that
      does not cast makes the admin's query throw (500). */
  method GetReservations(db: Store, caller: Caller, scope: Option<IdParam>)
    returns (status: int, count: nat, data: map<Id, Joined>)
    requires db.Valid()
    ensures status == OK <==> !(IsAdmin(caller) && scope == Some(Uncastable))
    ensures status != OK ==> status == SERVER_ERROR && data == map[]
    ensures count == |data|
    ensures status == OK && !IsAdmin(caller) ==>
              forall k :: k in data <==> k in db.reservations && db.reservations[k].user == caller.id
    ensures status == OK && IsAdmin(caller) && scope.Some? ==>
              forall k :: k in data <==> k in db.reservations && db.reservations[k].coworking == scope.value.id
    ensures status == OK && IsAdmin(caller) && scope.None? ==> data.Keys == db.reservations.Keys
    ensures forall k :: k in data ==> k in db.reservations && data[k] == Join(db.reservations[k], db.coworkings, ListJoin)
  {
    var selected: map<Id, Reservation>;
    if !IsAdmin(caller) {
      selected := OwnedBy(caller.id, db.reservations);
    } else if scope.Some? {
      if scope.value.Uncastable? {
        return SERVER_ERROR, 0, map[];
      }
      selected := ReservationsOf(scope.value.id, db.reservations);
    } else {
      selected := db.reservations;
    }
    data := map k | k in selected :: Join(selected[k], db.coworkings, ListJoin);
    count := |data|;
    status := OK;
  }

  /** `getReservation`: any caller may fetch any reservation by id. */
  method GetReservation(db: Store, p: IdParam) returns (status: int, data: Option<Joined>)
    requires db.Valid()
    ensures p.Uncastable? ==> status == SERVER_ERROR && data.None?
    ensures p.Cast? && p.id !in db.reservations ==> status == NOT_FOUND && data.None?
    ensures p.Cast? && p.id in db.reservations ==>
              status == OK && data == Some(Join(db.reservations[p.id], db.coworkings, OneJoin))
  {
    if p.Uncastable? {
      return SERVER_ERROR, None;
    }
    var found := db.FindReservation(p.id);
    if found.None? {
      return NOT_FOUND, None;
    }
    status, data := OK, Some(Join(found.value, db.coworkings, OneJoin));
  }

  /** `addReservation` on `POST /:coworkingId/reservations`. The new
      reservation belongs to the caller and to the space in the path,
      whatever `user` and `coworking` the body carries. */
  method AddReservation(db: Store, caller: Caller, p: IdParam, body: ReservationPatch)
    returns (status: int, created: Option<Reservation>)
    requires db.Valid()
    modifies db
    ensures db.Valid() && db.coworkings == old(db.coworkings)
    ensures old(db.Ordered()) ==> db.Ordered()
    ensures p.Uncastable? ==> status == SERVER_ERROR
    ensures p.Cast? ==>
              status == AddStatus(old(db.FindCoworking(p.id)), |old(OwnedBy(caller.id, db.reservations))|,
                                  caller, body.start, body.end)
    ensures status == CREATED ==>
              p.Cast? && body.start.Some? && body.end.Some?
              && created == Some(Reservation(old(db.nextId), caller.id, p.id, body.start.value, body.end.value))
              && created.value.id !in old(db.reservations)
              && db.reservations == old(db.reservations)[created.value.id := created.value]
              && db.nextId == old(db.nextId) + 1
    ensures status == CREATED && !IsAdmin(caller) ==> |OwnedBy(caller.id, db.reservations)| <= MaxReservations
    ensures status != CREATED ==> created.None? && db.reservations == old(db.reservations) && db.nextId == old(db.nextId)
  {
    if p.Uncastable? {
      return SERVER_ERROR, None;
    }
    var space := db.FindCoworking(p.id);
    var held := |OwnedBy(caller.id, db.reservations)|;
    status := AddStatus(space, held, caller, body.start, body.end);
    if status != CREATED {
      return status, None;
    }
    ghost var before := db.reservations;
    var r := db.CreateReservation(caller.id, p.id, body.start.value, body.end.value);
    OwnedByInsert(caller.id, before, r);
    created := Some(r);
  }

  /** `updateReservation`: the body's fields are written over the
      reservation, including any `user` or `coworking` it carries. */
  method UpdateReservation(db: Store, caller: Caller, p: IdParam, body: ReservationPatch)
    returns (status: int, updated: Option<Reservation>)
    requires db.Valid()
    modifies db
    ensures db.Valid() && db.coworkings == old(db.coworkings) && db.nextId == old(db.nextId)
    ensures old(db.Ordered()) ==> db.Ordered()
    ensures var found := if p.Cast? then old(db.FindReservation(p.id)) else None;
            var space := if found.Some? then old(db.FindCoworking(found.value.coworking)) else None;
            status == UpdateStatus(found, space, caller, body)
    ensures status == OK ==>
              p.Cast? && p.id in old(db.reservations) && Castable(body)
              && updated == Some(Patched(old(db.reservations)[p.id], body))
              && db.reservations == old(db.reservations)[p.id := updated.value]
    ensures status != OK ==> updated.None? && db.reservations == old(db.reservations)
  {
    var found := if p.Cast? then db.FindReservation(p.id) else None;
    var space := if found.Some? then db.FindCoworking(found.value.coworking) else None;
    status := UpdateStatus(found, space, caller, body);
    if status != OK {
      return status, None;
    }
    var r := db.UpdateReservation(p.id, body);
    updated := Some(r);
  }

  /** `deleteReservation`: the owner or an admin removes exactly that
      reservation; the response carries empty data. */
  method DeleteReservation(db: Store, caller: Caller, p: IdParam) returns (status: int)
    requires db.Valid()
    modifies db
    ensures db.Valid() && db.coworkings == old(db.coworkings) && db.nextId == old(db.nextId)
    ensures old(db.Ordered()) ==> db.Ordered()
    ensures status == DeleteStatus(p, if p.Cast? then old(db.FindReservation(p.id)) else None, caller)
    ensures status == OK ==> p.Cast? && p.id in old(db.reservations) && db.reservations == old(db.reservations) - {p.id}
    ensures status != OK ==> db.reservations == old(db.reservations)
  {
    var found := if p.Cast? then db.FindReservation(p.id) else None;
    status := DeleteStatus(p, found, caller);
    if status == OK {
      db.DeleteReservation(p.id);
    }
  }
}
