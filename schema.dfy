/**
 * The record shapes of shared/schema.ts: the `users`, `medications` and
 * `appointments` tables as column lists, the insert schemas derived from them
 * by omitting columns, and the typed records the server handles.
 * Timestamps are integer milliseconds since the epoch.
 */
module Schema {
  import opened Wrappers

  // ---------------------------------------------------------------------
  // Table definitions, as column lists keyed by their property names

  datatype ColumnType = Serial | Text | Integer | Boolean | Timestamp

  datatype ColumnDefault = NoDefault | DefaultText(text: string) | DefaultBool(flag: bool) | DefaultNow

  /** `.primaryKey()`, `.unique()`, or neither; both make the column's values distinct across rows. */
  datatype Constraint = NoConstraint | PrimaryKey | Unique

  datatype Column = Column(key: string, ctype: ColumnType, notNull: bool, constraint: Constraint, default: ColumnDefault)

  const UserIdColumn := Column("id", Serial, true, PrimaryKey, NoDefault)
  const UsernameColumn := Column("username", Text, true, Unique, NoDefault)
  const PasswordColumn := Column("password", Text, true, NoConstraint, NoDefault)
  const FullNameColumn := Column("fullName", Text, true, NoConstraint, NoDefault)
  const RoleColumn := Column("role", Text, true, NoConstraint, DefaultText("user"))
  const IsBlockedColumn := Column("isBlocked", Boolean, true, NoConstraint, DefaultBool(false))
  const SubscriptionEndDateColumn := Column("subscriptionEndDate", Timestamp, true, NoConstraint, NoDefault)
  const CreatedAtColumn := Column("createdAt", Timestamp, true, NoConstraint, DefaultNow)

  /** The `users` table. */
  const UsersColumns: seq<Column> := [
    UserIdColumn, UsernameColumn, PasswordColumn, FullNameColumn,
    RoleColumn, IsBlockedColumn, SubscriptionEndDateColumn, CreatedAtColumn
  ]

  /** The `medications` table. */
  const MedicationsColumns: seq<Column> := [
    Column("id", Serial, true, PrimaryKey, NoDefault),
    Column("userId", Integer, true, NoConstraint, NoDefault),
    Column("name", Text, true, NoConstraint, NoDefault),
    Column("dosage", Text, true, NoConstraint, NoDefault),
    Column("time", Text, true, NoConstraint, NoDefault),
    Column("frequency", Text, true, NoConstraint, NoDefault),
    Column("active", Boolean, true, NoConstraint, DefaultBool(true))
  ]

  /** The `appointments` table. */
  const AppointmentsColumns: seq<Column> := [
    Column("id", Serial, true, PrimaryKey, NoDefault),
    Column("userId", Integer, true, NoConstraint, NoDefault),
    Column("title", Text, true, NoConstraint, NoDefault),
    Column("date", Timestamp, true, NoConstraint, NoDefault),
    Column("location", Text, false, NoConstraint, NoDefault),
    Column("notes", Text, false, NoConstraint, NoDefault)
  ]

  function Keys(cols: seq<Column>): set<string> {
    set c | c in cols :: c.key
  }

  /** `createInsertSchema(table).omit({...})`: the columns whose key is not omitted, in table order. */
  function Omit(cols: seq<Column>, omitted: set<string>): (r: seq<Column>)
    ensures |r| <= |cols|
    ensures forall k :: 0 <= k < |r| ==> r[k].key !in omitted
  {
    if cols == [] then []
    else if cols[0].key in omitted then Omit(cols[1..], omitted)
    else [cols[0]] + Omit(cols[1..], omitted)
  }

  /** Omitting keeps exactly the columns whose key is not omitted, so no omitted key survives. */
  lemma {:induction false} OmitMembers(cols: seq<Column>, omitted: set<string>)
    ensures forall c :: c in Omit(cols, omitted) <==> c in cols && c.key !in omitted
    ensures Keys(Omit(cols, omitted)) == Keys(cols) - omitted
  {
    if cols != [] {
      OmitMembers(cols[1..], omitted);
      assert cols == [cols[0]] + cols[1..];
    }
  }

  const UserOmitted: set<string> := {"id", "createdAt", "isBlocked", "role", "subscriptionEndDate"}
  const OwnedOmitted: set<string> := {"id", "userId"}

  const InsertUserSchema: seq<Column> := Omit(UsersColumns, UserOmitted)
  const InsertMedicationSchema: seq<Column> := Omit(MedicationsColumns, OwnedOmitted)
  const InsertAppointmentSchema: seq<Column> := Omit(AppointmentsColumns, OwnedOmitted)

  /**
   * A column an insert payload must supply: declared not-null and given no
   * value by the database (a serial, or a column with a default, may be left out).
   */
  predicate Required(c: Column) {
    c.notNull && c.ctype != Serial && c.default == NoDefault
  }

  /**
   * An insert schema is an object schema, which drops the keys it does not
   * declare: what reaches the database from a payload is its restriction to
   * the schema's keys.
   */
  function Strip<V>(payload: map<string, V>, schema: seq<Column>): (r: map<string, V>)
    ensures r.Keys == payload.Keys * Keys(schema)
    ensures forall k :: k in r ==> r[k] == payload[k]
  {
    map k | k in payload && k in Keys(schema) :: payload[k]
  }

  // ---------------------------------------------------------------------
  // Records

  const AdminRole := "admin"
  const UserRole := "user"

  /** A row of `users` (`User`, the table's select type). */
  datatype User = User(
    id: nat,
    username: string,
    password: string,
    fullName: string,
    role: string,
    isBlocked: bool,
    subscriptionEndDate: int,
    createdAt: int)

  /** `InsertUser`: what a registration may carry. */
  datatype InsertUser = InsertUser(username: string, password: string, fullName: string)

  /** `InsertMedication`: `active` may be absent, the column has a default. */
  datatype InsertMedication = InsertMedication(
    name: string, dosage: string, time: string, frequency: string, active: Option<bool>)

  /** `InsertAppointment`: `location` and `notes` are nullable. */
  datatype InsertAppointment = InsertAppointment(
    title: string, date: int, location: Option<string>, notes: Option<string>)

  /** The values a medication insert sends: the payload plus the owner. */
  datatype MedicationValues = MedicationValues(input: InsertMedication, userId: nat)

  /** The values an appointment insert sends: the payload plus the owner. */
  datatype AppointmentValues = AppointmentValues(input: InsertAppointment, userId: nat)

  datatype Medication = Medication(
    id: nat, userId: nat, name: string, dosage: string, time: string, frequency: string, active: bool)

  datatype Appointment = Appointment(
    id: nat, userId: nat, title: string, date: int, location: Option<string>, notes: Option<string>)

  /** The row the database stores for a medication insert under a fresh serial `id`. */
  function MedicationRow(id: nat, v: MedicationValues): (m: Medication)
    ensures m.active == (v.input.active != Some(false))
    ensures m.userId == v.userId && m.id == id
    ensures m.name == v.input.name && m.dosage == v.input.dosage
    ensures m.time == v.input.time && m.frequency == v.input.frequency
  {
    Medication(id, v.userId, v.input.name, v.input.dosage, v.input.time, v.input.frequency,
               v.input.active.GetOr(true))
  }

  /** The row the database stores for an appointment insert under a fresh serial `id`. */
  function AppointmentRow(id: nat, v: AppointmentValues): (a: Appointment)
    ensures a.userId == v.userId && a.id == id
    ensures a.title == v.input.title && a.date == v.input.date
    ensures a.location == v.input.location && a.notes == v.input.notes
  {
    Appointment(id, v.userId, v.input.title, v.input.date, v.input.location, v.input.notes)
  }

  // ---------------------------------------------------------------------
  // Properties of the schema

  /** A registration payload carries exactly a username, a password and a full name, all required. */
  lemma InsertUserSchemaFields()
    ensures InsertUserSchema == [UsernameColumn, PasswordColumn, FullNameColumn]
    ensures Keys(InsertUserSchema) == {"username", "password", "fullName"}
    ensures Required(UsernameColumn) && Required(PasswordColumn) && Required(FullNameColumn)
  {
    var u := UsersColumns;
    assert u[8..] == [];
    assert Omit(u[7..], UserOmitted) == [];
    assert Omit(u[6..], UserOmitted) == [];
    assert Omit(u[5..], UserOmitted) == [];
    assert Omit(u[4..], UserOmitted) == [];
    assert Omit(u[3..], UserOmitted) == [FullNameColumn];
    assert Omit(u[2..], UserOmitted) == [PasswordColumn, FullNameColumn];
    assert Omit(u[1..], UserOmitted) == [UsernameColumn, PasswordColumn, FullNameColumn];
  }

  /** A medication payload carries every column of `medications` but `id` and `userId`, in table order. */
  lemma InsertMedicationSchemaFields()
    ensures InsertMedicationSchema == MedicationsColumns[2..]
  {
    // The chain of slices keeps the literal evaluation small; it is there for solver cost.
    var m := MedicationsColumns;
    assert m[7..] == [];
    assert Omit(m[7..], OwnedOmitted) == [];
    assert Omit(m[6..], OwnedOmitted) == m[6..];
    assert Omit(m[5..], OwnedOmitted) == m[5..];
    assert Omit(m[4..], OwnedOmitted) == m[4..];
    assert Omit(m[3..], OwnedOmitted) == m[3..];
    assert Omit(m[2..], OwnedOmitted) == m[2..];
    assert Omit(m[1..], OwnedOmitted) == m[2..];
  }

  /** An appointment payload carries every column of `appointments` but `id` and `userId`, in table order. */
  lemma InsertAppointmentSchemaFields()
    ensures InsertAppointmentSchema == AppointmentsColumns[2..]
  {
    // The chain of slices keeps the literal evaluation small; it is there for solver cost.
    var a := AppointmentsColumns;
    assert a[6..] == [];
    assert Omit(a[6..], OwnedOmitted) == [];
    assert Omit(a[5..], OwnedOmitted) == a[5..];
    assert Omit(a[4..], OwnedOmitted) == a[4..];
    assert Omit(a[3..], OwnedOmitted) == a[3..];
    assert Omit(a[2..], OwnedOmitted) == a[2..];
    assert Omit(a[1..], OwnedOmitted) == a[2..];
  }

  /** Whatever a registration payload holds, none of the server-set fields survives into the insert. */
  lemma RegistrationCannotSetServerFields<V>(payload: map<string, V>)
    ensures forall k :: k in UserOmitted ==> k !in Strip(payload, InsertUserSchema)
  {
    OmitMembers(UsersColumns, UserOmitted);
  }

  /** Medication and appointment payloads never carry `id` or `userId`. */
  lemma OwnedPayloadsCannotSetOwner<V>(payload: map<string, V>)
    ensures "userId" !in Strip(payload, InsertMedicationSchema)
    ensures "userId" !in Strip(payload, InsertAppointmentSchema)
    ensures "id" !in Strip(payload, InsertMedicationSchema)
    ensures "id" !in Strip(payload, InsertAppointmentSchema)
  {
    OmitMembers(MedicationsColumns, OwnedOmitted);
    OmitMembers(AppointmentsColumns, OwnedOmitted);
  }

  /**
   * `role` and `isBlocked` default to `'user'` and false, no user column is
   * nullable, `id` is the primary key and `username` the only other column
   * declared unique.
   */
  lemma UserColumnDefaults()
    ensures forall c :: c in UsersColumns ==> c.notNull
    ensures UserIdColumn in UsersColumns && UserIdColumn.constraint == PrimaryKey
    ensures forall c :: c in UsersColumns && c.constraint == PrimaryKey ==> c.key == "id"
    ensures Column("role", Text, true, NoConstraint, DefaultText(UserRole)) in UsersColumns
    ensures Column("isBlocked", Boolean, true, NoConstraint, DefaultBool(false)) in UsersColumns
    ensures UsernameColumn in UsersColumns && UsernameColumn.constraint == Unique
    ensures forall c :: c in UsersColumns && c.constraint == Unique ==> c.key == "username"
  {
  }

  /** A medication inserted without `active` is active; the `active` column defaults to true. */
  lemma MedicationActiveDefault(id: nat, input: InsertMedication, userId: nat)
    requires input.active.None?
    ensures MedicationRow(id, MedicationValues(input, userId)).active
    ensures Column("active", Boolean, true, NoConstraint, DefaultBool(true)) in MedicationsColumns
  {
  }

  /**
   * `location` and `notes` are nullable columns without a default: an
   * appointment inserted without them stores no value, and its owner is the
   * given user.
   */
  lemma AppointmentOptionalFieldsStayNull(id: nat, input: InsertAppointment, userId: nat)
    requires input.location.None? && input.notes.None?
    ensures var a := AppointmentRow(id, AppointmentValues(input, userId));
      a.location.None? && a.notes.None? && a.userId == userId
    ensures Column("location", Text, false, NoConstraint, NoDefault) in AppointmentsColumns
    ensures Column("notes", Text, false, NoConstraint, NoDefault) in AppointmentsColumns
  {
  }
}
