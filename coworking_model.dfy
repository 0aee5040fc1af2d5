/** The coworking schema of models/Coworking.js: the document's fields and
    their constraints (required paths, a trimmed name of at most 50
    characters), the validation run on create and on update, the reverse
    relation "reservations of this space" (the `reservations` virtual), the
    selection the cascade hook deletes, and the field projection `populate`
    applies. */
module CoworkingModel {
  import opened Records
  import opened Text

  /** A stored coworking document. `telephone` is the only optional path. */
  datatype Coworking = Coworking(
    id: Id,
    name: string,
    address: string,
    district: string,
    province: string,
    postalcode: int,
    telephone: Option<string>,
    region: string,
    opentime: string,
    closetime: string,
    picture: string)

  /** The fields of a create or update request body; `None` is an absent field. */
  datatype CoworkingFields = CoworkingFields(
    name: Option<string>,
    address: Option<string>,
    district: Option<string>,
    province: Option<string>,
    postalcode: Option<int>,
    telephone: Option<string>,
    region: Option<string>,
    opentime: Option<string>,
    closetime: Option<string>,
    picture: Option<string>)

  const MaxNameLength: nat := 50

  /** A reason Mongoose refuses a write: a required path missing or empty, a
      name over the length limit, or a name already held by another document
      (the unique index). */
  datatype SchemaError = Required(path: string) | NameTooLong | DuplicateName

  /** The schema's constraints, stated on a stored document: every required
      string path is non-empty, and the name is trimmed and at most 50
      characters long. */
  predicate WellFormed(c: Coworking) {
    c.name != [] && IsTrimmed(c.name) && |c.name| <= MaxNameLength
    && c.address != [] && c.district != [] && c.province != [] && c.region != []
    && c.opentime != [] && c.closetime != [] && c.picture != []
  }

  /** No two documents of the table share a name. */
  ghost predicate UniqueNames(table: map<Id, Coworking>) {
    forall a, b :: a in table && b in table && table[a].name == table[b].name ==> a == b
  }

  /** The name after the schema's `trim` setter. */
  function SetName(name: Option<string>): Option<string> {
    if name.Some? then Some(Trim(name.value)) else None
  }

  /** Mongoose's `required` check on a String path refuses a missing value
      and the empty string. */
  function RequiredString(path: string, v: Option<string>): (r: set<SchemaError>)
    ensures r == {} <==> v.Some? && v.value != []
    ensures forall e :: e in r ==> e == Required(path)
  {
    if v.None? || v.value == [] then {Required(path)} else {}
  }

  /** The `maxlength` validator on the (trimmed) name; it does not run on a missing name. */
  function NameLength(name: Option<string>): (r: set<SchemaError>)
    ensures r == {} <==> name.None? || |name.value| <= MaxNameLength
    ensures forall e :: e in r ==> e == NameTooLong
  {
    if name.Some? && |name.value| > MaxNameLength then {NameTooLong} else {}
  }

  /** Every path the schema requires is present in the body. */
  predicate Complete(f: CoworkingFields) {
    f.name.Some? && f.address.Some? && f.district.Some? && f.province.Some? && f.postalcode.Some?
    && f.region.Some? && f.opentime.Some? && f.closetime.Some? && f.picture.Some?
  }

  /** The validation errors of a create body, all reported together. A body
      that passes has every required path; the name is refused when missing
      or blank after trimming, and when over 50 characters after trimming.
      Uniqueness is the index's business, not validation's. */
  function CreateErrors(f: CoworkingFields): (r: set<SchemaError>)
    ensures r == {} ==> Complete(f)
    ensures Required("name") in r <==> f.name.None? || Trim(f.name.value) == []
    ensures NameTooLong in r <==> f.name.Some? && |Trim(f.name.value)| > MaxNameLength
    ensures DuplicateName !in r
  {
    NameErrors(SetName(f.name)) + OtherErrors(f)
  }

  /** The create errors of the (trimmed) name. */
  function NameErrors(name: Option<string>): (r: set<SchemaError>)
    ensures r == RequiredString("name", name) + NameLength(name)
    ensures Required("name") in r <==> name.None? || name.value == []
    ensures NameTooLong in r <==> name.Some? && |name.value| > MaxNameLength
    ensures forall e :: e in r ==> e == Required("name") || e == NameTooLong
  {
    RequiredString("name", name) + NameLength(name)
  }

  /** The create errors of the required paths other than the name. */
  function OtherErrors(f: CoworkingFields): (r: set<SchemaError>)
    ensures r == {} ==> f.address.Some? && f.district.Some? && f.province.Some? && f.postalcode.Some?
                        && f.region.Some? && f.opentime.Some? && f.closetime.Some? && f.picture.Some?
    ensures forall e :: e in r ==> e.Required? && e.path != "name"
  {
    RequiredString("address", f.address) + RequiredString("district", f.district)
    + RequiredString("province", f.province)
    + (if f.postalcode.None? then {Required("postalcode")} else {})
    + RequiredString("region", f.region) + RequiredString("opentime", f.opentime)
    + RequiredString("closetime", f.closetime) + RequiredString("picture", f.picture)
  }

  /** The document a complete body becomes under identity `id`, with the name
      trimmed. Validation passes exactly when that document is well-formed. */
  function Build(id: Id, f: CoworkingFields): (c: Coworking)
    requires Complete(f)
    ensures c.id == id
    ensures WellFormed(c) <==> CreateErrors(f) == {}
  {
    var name := SetName(f.name);
    Coworking(id, name.value, f.address.value, f.district.value, f.province.value,
              f.postalcode.value, f.telephone, f.region.value, f.opentime.value,
              f.closetime.value, f.picture.value)
  }

  /** A stored document written back as a request body. */
  function FieldsOf(c: Coworking): CoworkingFields {
    CoworkingFields(Some(c.name), Some(c.address), Some(c.district), Some(c.province),
                    Some(c.postalcode), c.telephone, Some(c.region), Some(c.opentime),
                    Some(c.closetime), Some(c.picture))
  }

  /** The schema accepts exactly the bodies of well-formed documents: a
      well-formed document passes validation and is rebuilt unchanged, and a
      body that passes builds a well-formed document (`Build`'s contract). */
  lemma WellFormedRoundTrip(c: Coworking)
    requires WellFormed(c)
    ensures CreateErrors(FieldsOf(c)) == {}
    ensures Build(c.id, FieldsOf(c)) == c
  {
    assert Trim(c.name) == c.name;
    assert SetName(FieldsOf(c).name) == Some(c.name);
  }

  /** A body whose name is blank (empty after trimming), or longer than 50
      characters after trimming, is refused. */
  lemma NameConstraints(f: CoworkingFields)
    requires f.name.None? || Trim(f.name.value) == [] || |Trim(f.name.value)| > MaxNameLength
    ensures CreateErrors(f) != {}
  {
    var name := SetName(f.name);
    if name.None? || name.value == [] {
      assert Required("name") in CreateErrors(f);
    } else {
      assert NameTooLong in CreateErrors(f);
    }
  }

  /** The validation errors of an update body. Update validators run only on
      the paths the body sets, so an absent field never fails; a required
      path set to the empty string does. An update is never stricter than a
      create, and on a complete body the two agree. */
  function UpdateErrors(f: CoworkingFields): (r: set<SchemaError>)
    ensures r <= CreateErrors(f)
    ensures Complete(f) ==> r == CreateErrors(f)
    ensures DuplicateName !in r
    ensures r == {} <==>
              (f.name.Some? ==> Trim(f.name.value) != [] && |Trim(f.name.value)| <= MaxNameLength)
              && SetPathsNonEmpty(f)
  {
    var name := SetName(f.name);
    WhenSet("name", name) + NameLength(name) + OtherUpdateErrors(f)
  }

  /** The `required` check of an update validator: it runs only when the path is set. */
  function WhenSet(path: string, v: Option<string>): (r: set<SchemaError>)
    ensures r <= RequiredString(path, v)
    ensures v.Some? ==> r == RequiredString(path, v)
    ensures r == {} <==> v.None? || v.value != []
  {
    if v.Some? then RequiredString(path, v) else {}
  }

  /** Every required string path other than the name that the body sets is
      non-empty; paths the body leaves out are not checked. */
  predicate SetPathsNonEmpty(f: CoworkingFields) {
    (f.address.Some? ==> f.address.value != []) && (f.district.Some? ==> f.district.value != [])
    && (f.province.Some? ==> f.province.value != []) && (f.region.Some? ==> f.region.value != [])
    && (f.opentime.Some? ==> f.opentime.value != []) && (f.closetime.Some? ==> f.closetime.value != [])
    && (f.picture.Some? ==> f.picture.value != [])
  }

  /** The update errors of the required paths other than the name. */
  function OtherUpdateErrors(f: CoworkingFields): (r: set<SchemaError>)
    ensures r <= OtherErrors(f)
    ensures Complete(f) ==> r == OtherErrors(f)
    ensures r == {} <==> SetPathsNonEmpty(f)
  {
    WhenSet("address", f.address) + WhenSet("district", f.district) + WhenSet("province", f.province)
    + WhenSet("region", f.region) + WhenSet("opentime", f.opentime)
    + WhenSet("closetime", f.closetime) + WhenSet("picture", f.picture)
  }

  /** The body's value for a path it sets, else the current one. */
  function Pick<T>(update: Option<T>, current: T): T {
    if update.Some? then update.value else current
  }

  /** The document after a partial update: every field the body sets is
      replaced (the name trimmed), the others and the identity are kept. */
  function Apply(c: Coworking, f: CoworkingFields): (d: Coworking)
    ensures d.id == c.id
    ensures d.name == if f.name.Some? then Trim(f.name.value) else c.name
    ensures d.address == Pick(f.address, c.address) && d.district == Pick(f.district, c.district)
    ensures d.province == Pick(f.province, c.province) && d.postalcode == Pick(f.postalcode, c.postalcode)
    ensures d.telephone == if f.telephone.Some? then f.telephone else c.telephone
    ensures d.region == Pick(f.region, c.region) && d.opentime == Pick(f.opentime, c.opentime)
    ensures d.closetime == Pick(f.closetime, c.closetime) && d.picture == Pick(f.picture, c.picture)
    ensures WellFormed(c) && UpdateErrors(f) == {} ==> WellFormed(d)
  {
    var name := SetName(f.name);
    assert name.Some? && UpdateErrors(f) == {} ==> RequiredString("name", name) == {} && NameLength(name) == {};
    Coworking(c.id, Pick(name, c.name), Pick(f.address, c.address), Pick(f.district, c.district),
              Pick(f.province, c.province), Pick(f.postalcode, c.postalcode),
              if f.telephone.Some? then f.telephone else c.telephone,
              Pick(f.region, c.region), Pick(f.opentime, c.opentime), Pick(f.closetime, c.closetime),
              Pick(f.picture, c.picture))
  }

  /** A complete body that also sets the telephone replaces the whole
      document: updating with it gives what creating with it under the same
      identity gives. */
  lemma ApplyCompleteBody(c: Coworking, f: CoworkingFields)
    requires Complete(f) && f.telephone.Some?
    ensures Apply(c, f) == Build(c.id, f)
  {
  }

  /** An update that sets only a non-empty address passes validation and
      changes only the address, although a create with that body is refused. */
  lemma AddressOnlyUpdate(c: Coworking, address: string)
    requires address != []
    ensures var f := CoworkingFields(None, Some(address), None, None, None, None, None, None, None, None);
            UpdateErrors(f) == {} && CreateErrors(f) != {} && Apply(c, f) == c.(address := address)
  {
  }

  /** An update body that sets nothing is accepted and changes nothing. */
  lemma EmptyUpdate(c: Coworking)
    ensures var none := CoworkingFields(None, None, None, None, None, None, None, None, None, None);
            UpdateErrors(none) == {} && Apply(c, none) == c
  {
  }

  // ---------------------------------------------------------------------------
  // The reverse relation and the cascade

  /** The `reservations` virtual: the reservations whose `coworking` is `id`. */
  function ReservationsOf(id: Id, table: map<Id, Reservation>): (r: map<Id, Reservation>)
    ensures forall k :: k in r <==> k in table && table[k].coworking == id
    ensures forall k :: k in r ==> r[k] == table[k]
  {
    map k | k in table && table[k].coworking == id :: table[k]
  }

  /** What the cascade hook leaves: the reservations of every other space. */
  function WithoutSpace(id: Id, table: map<Id, Reservation>): (r: map<Id, Reservation>)
    ensures forall k :: k in r <==> k in table && table[k].coworking != id
    ensures forall k :: k in r ==> r[k] == table[k]
  {
    map k | k in table && table[k].coworking != id :: table[k]
  }

  /** The cascade splits the table in two: the space's reservations, which it
      deletes, and the rest, which it keeps as they were. Afterwards no
      reservation points at the space, and every other space keeps exactly
      the reservations it had. */
  lemma CascadePartition(id: Id, table: map<Id, Reservation>)
    ensures ReservationsOf(id, table).Keys !! WithoutSpace(id, table).Keys
    ensures ReservationsOf(id, table).Keys + WithoutSpace(id, table).Keys == table.Keys
    ensures ReservationsOf(id, WithoutSpace(id, table)) == map[]
    ensures forall other :: other != id ==>
              ReservationsOf(other, WithoutSpace(id, table)) == ReservationsOf(other, table)
  {
    var kept := WithoutSpace(id, table);
    assert ReservationsOf(id, kept).Keys == {};
    forall other | other != id
      ensures ReservationsOf(other, kept) == ReservationsOf(other, table)
    {
      assert ReservationsOf(other, kept).Keys == ReservationsOf(other, table).Keys;
    }
  }

  // ---------------------------------------------------------------------------
  // Projection applied by populate

  /** The string-valued paths of a document, by path name. */
  function Paths(c: Coworking): map<string, string> {
    var required := map["name" := c.name, "address" := c.address, "district" := c.district,
                        "province" := c.province, "region" := c.region, "opentime" := c.opentime,
                        "closetime" := c.closetime, "picture" := c.picture];
    if c.telephone.Some? then required["telephone" := c.telephone.value] else required
  }

  /** The fields a `select` list keeps: those it names that the document has. */
  function Select(c: Coworking, fields: set<string>): (m: map<string, string>)
    ensures m.Keys <= fields
  {
    var p := Paths(c);
    map f | f in fields && f in p :: p[f]
  }

  /** The select list of the reservation listing's join, and of the single
      reservation's join. */
  const ListJoin: set<string> := {"name", "province", "tel"}
  const OneJoin: set<string> := {"name", "description", "tel"}

  /** The phone number is never joined: the select lists name `tel`, but the
      schema's path is `telephone`; `description` is no path either. So the
      listing carries the name and province, a single reservation only the name. */
  lemma JoinedPaths(c: Coworking)
    ensures Select(c, ListJoin) == map["name" := c.name, "province" := c.province]
    ensures Select(c, OneJoin) == map["name" := c.name]
  {
    var p := Paths(c);
    assert "tel" !in p && "description" !in p;
    assert Select(c, ListJoin).Keys == {"name", "province"};
    assert Select(c, OneJoin).Keys == {"name"};
  }
}
