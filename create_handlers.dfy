/**
 * The two create handlers of server/routes.ts (medications and
 * appointments). Once `checkAccess` has passed, a handler validates the body
 * against the route's input schema, adds the session user's id and inserts;
 * a validation failure is answered with 400 and the first issue's message,
 * any other failure with 500.
 */
module CreateHandlers {
  import opened Schema

  /** The outcome of validating a body: the typed payload, or a validation error listing at least one issue. */
  datatype Validation<T> = Valid(value: T) | Invalid(firstIssue: string, moreIssues: seq<string>)

  /** The outcome of the insert: the stored row, or a failure of the storage call. */
  datatype Stored<R> = Inserted(row: R) | StorageFailed

  /** The handler's answer: `Created(row)` is `res.status(201).json(row)`; a failure is that status with `{ message }`. */
  datatype Reply<R> = Created(row: R) | Failure(status: int, message: string)

  const InternalErrorMessage := "Erro interno no servidor"

  /** The try/catch common to both handlers: `insert` is reached only with a valid payload. */
  function HandleCreate<T, V, R>(v: Validation<T>, toValues: T -> V, insert: V -> Stored<R>): (r: Reply<R>)
    ensures r.Failure? ==> r.status in {400, 500}
    ensures r.Failure? && r.status == 400 <==> v.Invalid?
    ensures v.Invalid? ==> r == Failure(400, v.firstIssue)
    ensures r.Failure? && r.status == 500 <==> v.Valid? && insert(toValues(v.value)).StorageFailed?
    ensures r.Created? ==> v.Valid? && insert(toValues(v.value)) == Inserted(r.row)
    ensures v.Valid? && insert(toValues(v.value)).Inserted? ==> r == Created(insert(toValues(v.value)).row)
  {
    match v
    case Invalid(first, _) => Failure(400, first)
    case Valid(input) =>
      match insert(toValues(input))
      case Inserted(row) => Created(row)
      case StorageFailed => Failure(500, InternalErrorMessage)
  }

  /** `POST /api/medications`: the row is owned by the session user, never by the body. */
  function PostMedication(v: Validation<InsertMedication>, session: User, insert: MedicationValues -> Stored<Medication>): (r: Reply<Medication>)
    ensures v.Invalid? ==> r == Failure(400, v.firstIssue)
    ensures r.Created? ==> v.Valid? && insert(MedicationValues(v.value, session.id)) == Inserted(r.row)
    ensures r == Failure(500, InternalErrorMessage) <==>
      v.Valid? && insert(MedicationValues(v.value, session.id)).StorageFailed?
    ensures v.Valid? && insert(MedicationValues(v.value, session.id)).Inserted? ==>
      r == Created(insert(MedicationValues(v.value, session.id)).row)
  {
    HandleCreate(v, (input: InsertMedication) => MedicationValues(input, session.id), insert)
  }

  /** `POST /api/appointments`: likewise, with the session user as owner. */
  function PostAppointment(v: Validation<InsertAppointment>, session: User, insert: AppointmentValues -> Stored<Appointment>): (r: Reply<Appointment>)
    ensures v.Invalid? ==> r == Failure(400, v.firstIssue)
    ensures r.Created? ==> v.Valid? && insert(AppointmentValues(v.value, session.id)) == Inserted(r.row)
    ensures r == Failure(500, InternalErrorMessage) <==>
      v.Valid? && insert(AppointmentValues(v.value, session.id)).StorageFailed?
    ensures v.Valid? && insert(AppointmentValues(v.value, session.id)).Inserted? ==>
      r == Created(insert(AppointmentValues(v.value, session.id)).row)
  {
    HandleCreate(v, (input: InsertAppointment) => AppointmentValues(input, session.id), insert)
  }
}
