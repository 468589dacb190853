/**
 * The `api` route table of shared/routes.ts: for every endpoint its HTTP
 * method, its path pattern (`:name` marks a placeholder), the input schema
 * a body must satisfy, and the response statuses it declares.
 */
module ApiTable {
  import opened Wrappers
  import opened Schema

  datatype HttpMethod = GET | POST | PATCH | DELETE

  datatype FieldKind = StringField | BooleanField | IntegerField | TimestampField

  /** One key of an object schema. */
  datatype Field = Field(key: string, kind: FieldKind, required: bool)

  /** The insert schemas of shared/schema.ts that a route can name as its input. */
  datatype InsertSchemaName = UserInsert | MedicationInsert | AppointmentInsert

  /** The table an insert schema is made from. */
  function SchemaTable(name: InsertSchemaName): seq<Column> {
    match name
    case UserInsert => UsersColumns
    case MedicationInsert => MedicationsColumns
    case AppointmentInsert => AppointmentsColumns
  }

  /** The keys its `.omit({...})` drops. */
  function SchemaOmitted(name: InsertSchemaName): set<string> {
    match name
    case UserInsert => UserOmitted
    case MedicationInsert => OwnedOmitted
    case AppointmentInsert => OwnedOmitted
  }

  /** The columns of a named insert schema: its table without the omitted keys. */
  function SchemaColumns(name: InsertSchemaName): (cols: seq<Column>)
    ensures cols == Omit(SchemaTable(name), SchemaOmitted(name))
  {
    match name
    case UserInsert => InsertUserSchema
    case MedicationInsert => InsertMedicationSchema
    case AppointmentInsert => InsertAppointmentSchema
  }

  /** A route's body contract: none, an object schema written out, or a named insert schema. */
  datatype Input = NoInput | ObjectInput(fields: seq<Field>) | InsertSchema(schema: InsertSchemaName)

  datatype Route = Route(group: string, name: string, verb: HttpMethod, path: string, input: Input, responses: set<int>)

  function KindOf(t: ColumnType): FieldKind {
    match t
    case Serial => IntegerField
    case Integer => IntegerField
    case Text => StringField
    case Boolean => BooleanField
    case Timestamp => TimestampField
  }

  /** The object schema of an insert schema: one field per column, required when the column must be supplied. */
  function InsertInput(cols: seq<Column>): (i: Input)
    ensures i.ObjectInput? && |i.fields| == |cols|
    ensures forall k :: 0 <= k < |cols| ==>
      i.fields[k] == Field(cols[k].key, KindOf(cols[k].ctype), Required(cols[k]))
  {
    ObjectInput(seq(|cols|, k requires 0 <= k < |cols| => Field(cols[k].key, KindOf(cols[k].ctype), Required(cols[k]))))
  }

  /** The object schema a route's input stands for, with a named insert schema resolved to its fields. */
  function Resolve(input: Input): (o: Input)
    ensures o.NoInput? <==> input.NoInput?
    ensures input.InsertSchema? ==> o == InsertInput(SchemaColumns(input.schema))
    ensures !input.InsertSchema? ==> o == input
  {
    if input.InsertSchema? then InsertInput(SchemaColumns(input.schema)) else input
  }

  /** The keys of an object schema. */
  function FieldKeys(fields: seq<Field>): set<string> {
    set f | f in fields :: f.key
  }

  /**
   * The object schema of `createInsertSchema(table).omit(omitted)` accepts
   * exactly the table's keys that are not omitted, each required exactly
   * when its column must be supplied.
   */
  lemma OmittedInsertInput(table: seq<Column>, omitted: set<string>)
    ensures InsertInput(Omit(table, omitted)).ObjectInput?
    ensures FieldKeys(InsertInput(Omit(table, omitted)).fields) == Keys(table) - omitted
    ensures forall f :: f in InsertInput(Omit(table, omitted)).fields ==>
      exists c :: c in table && c.key == f.key && c.key !in omitted && f.required == Required(c)
  {
    var cols := Omit(table, omitted);
    var fields := InsertInput(cols).fields;
    OmitMembers(table, omitted);
    assert FieldKeys(fields) == Keys(cols) by {
      forall key | key in Keys(cols) ensures key in FieldKeys(fields) {
        var c :| c in cols && c.key == key;
        var k :| 0 <= k < |cols| && cols[k] == c;
        assert fields[k].key == key;
      }
    }
    forall f | f in fields
      ensures exists c :: c in table && c.key == f.key && c.key !in omitted && f.required == Required(c)
    {
      var k :| 0 <= k < |fields| && fields[k] == f;
      assert cols[k] in table;
    }
  }

  /**
   * A route naming an insert schema accepts exactly the keys of its table
   * that `.omit` does not drop, each required exactly when its column must
   * be supplied.
   */
  lemma ResolvedInsertSchema(name: InsertSchemaName)
    ensures Resolve(InsertSchema(name)).ObjectInput?
    ensures FieldKeys(Resolve(InsertSchema(name)).fields) == Keys(SchemaTable(name)) - SchemaOmitted(name)
    ensures forall f :: f in Resolve(InsertSchema(name)).fields ==>
      exists c :: c in SchemaTable(name) && c.key == f.key && c.key !in SchemaOmitted(name) && f.required == Required(c)
  {
    OmittedInsertInput(SchemaTable(name), SchemaOmitted(name));
  }

  const Register := Route("auth", "register", POST, "/api/register", InsertSchema(UserInsert), {201, 400})
  const Login := Route("auth", "login", POST, "/api/login",
                       ObjectInput([Field("username", StringField, true), Field("password", StringField, true)]),
                       {200, 401})
  const Logout := Route("auth", "logout", POST, "/api/logout", NoInput, {200})
  const Me := Route("auth", "me", GET, "/api/user", NoInput, {200, 401})

  const ListMedications := Route("medications", "list", GET, "/api/medications", NoInput, {200})
  const CreateMedication := Route("medications", "create", POST, "/api/medications",
                                  InsertSchema(MedicationInsert), {201, 400})
  const DeleteMedication := Route("medications", "delete", DELETE, "/api/medications/:id", NoInput, {204, 404})

  const ListAppointments := Route("appointments", "list", GET, "/api/appointments", NoInput, {200})
  const CreateAppointment := Route("appointments", "create", POST, "/api/appointments",
                                   InsertSchema(AppointmentInsert), {201, 400})
  const DeleteAppointment := Route("appointments", "delete", DELETE, "/api/appointments/:id", NoInput, {204, 404})

  const TriggerPanic := Route("panic", "trigger", POST, "/api/panic", NoInput, {201})

  const ListUsers := Route("admin", "users", GET, "/api/admin/users", NoInput, {200, 401})
  const ToggleBlock := Route("admin", "toggleBlock", PATCH, "/api/admin/users/:id/block",
                             ObjectInput([Field("isBlocked", BooleanField, true)]), {200, 404})

  /** The table, in declaration order. */
  const Api: seq<Route> := [
    Register, Login, Logout, Me,
    ListMedications, CreateMedication, DeleteMedication,
    ListAppointments, CreateAppointment, DeleteAppointment,
    TriggerPanic,
    ListUsers, ToggleBlock
  ]

  /** The first entry for a method and a path pattern, if any. */
  function Find(routes: seq<Route>, m: HttpMethod, path: string): (r: Option<Route>)
    ensures r.Some? ==> r.value in routes && r.value.verb == m && r.value.path == path
    ensures r.None? ==> forall x :: x in routes ==> x.verb != m || x.path != path
  {
    if routes == [] then None
    else if routes[0].verb == m && routes[0].path == path then Some(routes[0])
    else Find(routes[1..], m, path)
  }

  /** No two entries of a table share a method and a path. */
  predicate Unambiguous(routes: seq<Route>) {
    forall i, j :: 0 <= i < j < |routes| ==>
      routes[i].verb != routes[j].verb || routes[i].path != routes[j].path
  }

  /** In an unambiguous table, looking up an entry's method and path finds that entry. */
  lemma {:induction false} FindEntry(routes: seq<Route>, k: nat)
    requires Unambiguous(routes) && k < |routes|
    ensures Find(routes, routes[k].verb, routes[k].path) == Some(routes[k])
  {
    // Follows from Find's contract and uniqueness; the induction keeps the proof cheap.
    if k > 0 {
      assert routes[0].verb != routes[k].verb || routes[0].path != routes[k].path;
      assert Unambiguous(routes[1..]) by {
        forall i, j | 0 <= i < j < |routes| - 1
          ensures routes[1..][i].verb != routes[1..][j].verb || routes[1..][i].path != routes[1..][j].path
        {
          assert routes[1..][i] == routes[i + 1] && routes[1..][j] == routes[j + 1];
        }
      }
      FindEntry(routes[1..], k - 1);
    }
  }
}
