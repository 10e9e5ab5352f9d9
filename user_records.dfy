/** The user DB record and its transform (db/mongodb/user.go). */
module UserRecords {
  import opened Wrappers
  import opened Errors
  import opened Domain
  import opened ObjectIds

  datatype DbUser = DbUser(internalId: ObjectId, id: string, name: string)

  /** transformToDomainUser: nil is an invalid argument; otherwise id and name are copied. */
  function ToDomainUser(record: Option<DbUser>): (r: Result<User>)
    ensures r.Success? <==> record.Some?
    ensures record.None? ==> r == Failure(Base(DbInvalidArg))
    ensures r.Success? ==> r.value.id == record.value.id && r.value.name == record.value.name
  {
    match record
    case None => Failure(Base(DbInvalidArg))
    case Some(u) => Success(User(u.id, u.name))
  }

  /** The transform the listing loop applies to each decoded record. */
  function DomainUserOf(u: DbUser): Result<User> {
    ToDomainUser(Some(u))
  }
}
