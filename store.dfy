/** The two collections the handlers work on, and the database operations
    they call: `findById`, `create`, `findByIdAndUpdate` (with
    `runValidators`), `deleteOne` on a loaded document (with the coworking
    schema's pre-`deleteOne` cascade hook) and `deleteMany`. Each operation is
    atomic; fresh ObjectIds come from one counter. */
module Store {
  import opened Records
  import opened Text
  import opened CoworkingModel

  /** A reservation update body after `req.body` is parsed: `start` and `end`
      as strings when present, and the `user` and `coworking` references the
      body may also carry (a `coworking` that is not an ObjectId fails the cast). */
  datatype ReservationPatch = ReservationPatch(
    start: Option<string>, end: Option<string>, user: Option<UserId>, coworking: Option<IdParam>)

  /** Every reference in the patch casts. */
  predicate Castable(patch: ReservationPatch) {
    patch.coworking != Some(Uncastable)
  }

  /** A reservation with the patch's fields written over it. */
  function Patched(r: Reservation, patch: ReservationPatch): (r': Reservation)
    requires Castable(patch)
    ensures r'.id == r.id
  {
    Reservation(r.id,
      if patch.user.Some? then patch.user.value else r.user,
      if patch.coworking.Some? then patch.coworking.value.id else r.coworking,
      if patch.start.Some? then patch.start.value else r.start,
      if patch.end.Some? then patch.end.value else r.end)
  }

  /** The result of `Coworking.create`. */
  datatype CreateResult = Inserted(doc: Coworking) | Refused(errors: set<SchemaError>)

  /** The result of `Coworking.findByIdAndUpdate` with validators. */
  datatype UpdateResult = Updated(doc: Coworking) | NoSuchDocument | Invalid(errors: set<SchemaError>)

  /** The reservations held by one user, in every space. */
  function OwnedBy(user: UserId, table: map<Id, Reservation>): (r: map<Id, Reservation>)
    ensures forall k :: k in r <==> k in table && table[k].user == user
    ensures forall k :: k in r ==> r[k] == table[k]
  {
    map k | k in table && table[k].user == user :: table[k]
  }

  /** Some other document of the table already has this name. */
  predicate NameTaken(table: map<Id, Coworking>, name: string, self: Id) {
    exists k :: k in table && k != self && table[k].name == name
  }

  /** Replacing a well-formed document by another well-formed one under the
      same identity, with a name no other document holds, keeps the table's
      schema invariant and its unique names. */
  lemma ReplaceKeepsSchema(table: map<Id, Coworking>, id: Id, doc: Coworking, bound: Id)
    requires forall k :: k in table ==> table[k].id == k && k < bound && WellFormed(table[k])
    requires UniqueNames(table)
    requires id in table && doc.id == id && WellFormed(doc) && !NameTaken(table, doc.name, id)
    ensures var t := table[id := doc];
            (forall k :: k in t ==> t[k].id == k && k < bound && WellFormed(t[k])) && UniqueNames(t)
  {
  }

  class Store {
    var coworkings: map<Id, Coworking>
    var reservations: map<Id, Reservation>
    var nextId: Id

    /** Documents sit under their own identity, identities come from the
        counter, coworkings meet the schema and no two share a name. */
    ghost predicate Valid()
      reads this
    {
      (forall k :: k in coworkings ==> coworkings[k].id == k && k < nextId && WellFormed(coworkings[k]))
      && (forall k :: k in reservations ==> reservations[k].id == k && k < nextId)
      && UniqueNames(coworkings)
    }

    /** Every stored reservation starts no later than it ends. */
    ghost predicate Ordered()
      reads this
    {
      forall k :: k in reservations ==> Compare(reservations[k].start, reservations[k].end) <= 0
    }

    constructor ()
      ensures Valid() && Ordered()
      ensures coworkings == map[] && reservations == map[]
    {
      coworkings := map[];
      reservations := map[];
      nextId := 0;
    }

    function FindCoworking(id: Id): (r: Option<Coworking>)
      reads this
      ensures r.Some? <==> id in coworkings
      ensures r.Some? ==> r.value == coworkings[id]
    {
      if id in coworkings then Some(coworkings[id]) else None
    }

    function FindReservation(id: Id): (r: Option<Reservation>)
      reads this
      ensures r.Some? <==> id in reservations
      ensures r.Some? ==> r.value == reservations[id]
    {
      if id in reservations then Some(reservations[id]) else None
    }

    /** `Coworking.create`: validation, then the unique index, then the insert. */
    method CreateCoworking(f: CoworkingFields) returns (result: CreateResult)
      requires Valid()
      modifies this
      ensures Valid()
      ensures reservations == old(reservations)
      ensures result.Inserted? <==> CreateErrors(f) == {} && !NameTaken(old(coworkings), Trim(f.name.value), old(nextId))
      ensures result.Inserted? ==>
                result.doc == Build(old(nextId), f) && result.doc.id !in old(coworkings)
                && coworkings == old(coworkings)[result.doc.id := result.doc] && nextId == old(nextId) + 1
      ensures result.Refused? ==> coworkings == old(coworkings) && nextId == old(nextId) && result.errors != {}
      ensures result.Refused? && CreateErrors(f) == {} ==> result.errors == {DuplicateName}
    {
      var errors := CreateErrors(f);
      if errors != {} {
        return Refused(errors);
      }
      var doc := Build(nextId, f);
      if NameTaken(coworkings, doc.name, nextId) {
        return Refused({DuplicateName});
      }
      coworkings := coworkings[nextId := doc];
      nextId := nextId + 1;
      result := Inserted(doc);
    }

    /** `Coworking.findByIdAndUpdate(id, body, {runValidators: true})`: the
        update validators run first, then the lookup, then the unique index. */
    method UpdateCoworking(id: Id, f: CoworkingFields) returns (result: UpdateResult)
      requires Valid()
      modifies this
      ensures Valid()
      ensures reservations == old(reservations) && nextId == old(nextId)
      ensures UpdateErrors(f) != {} ==> result == Invalid(UpdateErrors(f))
      ensures UpdateErrors(f) == {} && id !in old(coworkings) ==> result == NoSuchDocument
      ensures result.Updated? <==>
                UpdateErrors(f) == {} && id in old(coworkings)
                && !NameTaken(old(coworkings), Apply(old(coworkings)[id], f).name, id)
      ensures result.Updated? ==>
                result.doc == Apply(old(coworkings)[id], f) && coworkings == old(coworkings)[id := result.doc]
      ensures !result.Updated? ==> coworkings == old(coworkings)
    {
      var errors := UpdateErrors(f);
      if errors != {} {
        return Invalid(errors);
      }
      if id !in coworkings {
        return NoSuchDocument;
      }
      var doc := Apply(coworkings[id], f);
      if NameTaken(coworkings, doc.name, id) {
        return Invalid({DuplicateName});
      }
      ReplaceKeepsSchema(coworkings, id, doc, nextId);
      coworkings := coworkings[id := doc];
      result := Updated(doc);
    }

    /** The pre-`deleteOne` hook of a coworking: `deleteMany` of every
        reservation that points at the space. */
    method CascadeReservations(id: Id)
      requires Valid()
      modifies this`reservations
      ensures Valid()
      ensures reservations == WithoutSpace(id, old(reservations))
      ensures old(Ordered()) ==> Ordered()
    {
      reservations := WithoutSpace(id, reservations);
    }

    /** `deleteOne` on a loaded coworking: the hook runs first, then the
        document goes. */
    method DeleteCoworking(id: Id)
      requires Valid() && id in coworkings
      modifies this
      ensures Valid()
      ensures coworkings == old(coworkings) - {id} && nextId == old(nextId)
      ensures reservations == WithoutSpace(id, old(reservations))
      ensures old(Ordered()) ==> Ordered()
    {
      CascadeReservations(id);
      coworkings := coworkings - {id};
    }

    /** `Reservation.create` with the body the handler assembled. */
    method CreateReservation(user: UserId, coworking: Id, start: string, end: string) returns (r: Reservation)
      requires Valid()
      modifies this
      ensures Valid()
      ensures r == Reservation(old(nextId), user, coworking, start, end) && r.id !in old(reservations)
      ensures reservations == old(reservations)[r.id := r]
      ensures coworkings == old(coworkings) && nextId == old(nextId) + 1
      ensures old(Ordered()) && Compare(start, end) <= 0 ==> Ordered()
    {
      r := Reservation(nextId, user, coworking, start, end);
      reservations := reservations[nextId := r];
      nextId := nextId + 1;
    }

    /** `Reservation.findByIdAndUpdate` on a reservation the handler loaded. */
    method UpdateReservation(id: Id, patch: ReservationPatch) returns (r: Reservation)
      requires Valid() && id in reservations && Castable(patch)
      modifies this`reservations
      ensures Valid()
      ensures r == Patched(old(reservations)[id], patch)
      ensures reservations == old(reservations)[id := r]
      ensures old(Ordered()) && Compare(r.start, r.end) <= 0 ==> Ordered()
    {
      r := Patched(reservations[id], patch);
      reservations := reservations[id := r];
    }

    /** `deleteOne` on a loaded reservation. */
    method DeleteReservation(id: Id)
      requires Valid() && id in reservations
      modifies this`reservations
      ensures Valid()
      ensures reservations == old(reservations) - {id}
      ensures old(Ordered()) ==> Ordered()
    {
      reservations := reservations - {id};
    }
  }
}
