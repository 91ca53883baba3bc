/**
 * The data-access object for users: registration of a user together with
 * the user's account, and the two user lookups.
 */
module UserStore {
  import opened Wrappers
  import opened Interfaces
  import opened Seqs
  import opened Database

  /** The prefix a failure inside the registration transaction is rethrown with. */
  const TransactionFailed: string := "Transaction failed: "

  /** The message of whichever of the two inserts failed first, if either did. */
  function FirstError(userInsert: Result<nat>, accountInsert: Result<nat>): (e: Option<string>)
    ensures e.None? <==> userInsert.Ok? && accountInsert.Ok?
    ensures userInsert.Err? ==> e == Some(userInsert.error)
    ensures userInsert.Ok? && accountInsert.Err? ==> e == Some(accountInsert.error)
  {
    match (userInsert, accountInsert)
    case (Err(m), _) => Some(m)
    case (_, Err(m)) => Some(m)
    case _ => None
  }

  class UserModel {
    const db: Db

    constructor (db: Db)
      ensures this.db == db
    {
      this.db := db;
    }

    /**
     * Inserts the user and then an account for the new user id inside one
     * database transaction and returns the new user id. If either insert
     * fails, the transaction is rolled back and the failure rethrown with the
     * "Transaction failed: " prefix; the id the refused user row took stays used.
     */
    method Insert(user: NewUser) returns (r: Result<nat>)
      requires db.Valid()
      modifies db
      ensures db.Valid()
      ensures r.Err? <==> EmailTaken(old(db.users), user.email)
      ensures r.Err? ==> r.error == TransactionFailed + DuplicateEmailError
      ensures r.Err? ==> db.State() == old(db.State()).(nextUserId := old(db.nextUserId) + 1)
      ensures r.Ok? ==> r.value == old(db.nextUserId)
      ensures r.Ok? ==> db.users == old(db.users) + [user.WithId(r.value)]
      ensures r.Ok? ==> db.accounts == old(db.accounts) + [Account(old(db.nextAccountId), r.value, 0)]
      ensures r.Ok? ==> forall a :: a in db.accounts && a.userId == r.value ==> a == Account(old(db.nextAccountId), r.value, 0)
      ensures r.Ok? ==> db.State() == old(db.State()).(users := db.users, accounts := db.accounts,
                                                       nextUserId := old(db.nextUserId) + 1,
                                                       nextAccountId := old(db.nextAccountId) + 1)
    {
      var saved := db.State();
      var userInsert := db.InsertUser(user);
      var accountInsert: Result<nat> := Err("");
      if userInsert.Ok? {
        assert db.users[|db.users| - 1].id == userInsert.value;
        accountInsert := db.InsertAccount(userInsert.value);
      }
      match FirstError(userInsert, accountInsert)
      case Some(m) =>
        db.Restore(saved);
        r := Err(TransactionFailed + m);
      case None =>
        r := Ok(userInsert.value);
        OwnersPrecedeNextUser(saved);
    }

    /** The first user with e-mail `email`, ignoring letter case. */
    function FindUserByEmail(email: string): (r: Option<User>)
      reads db
      ensures r.Some? ==> r.value in db.users && SameEmail(r.value.email, email)
      ensures r.None? <==> !EmailTaken(db.users, email)
    {
      FirstWhere(db.users, (u: User) => SameEmail(u.email, email))
    }

    /** The user with primary key `id`. */
    function FindUserById(id: nat): (r: Option<User>)
      reads db
      ensures r.Some? ==> r.value in db.users && r.value.id == id
      ensures r.None? <==> !HasUser(db.users, id)
    {
      FirstWhere(db.users, (u: User) => u.id == id)
    }
  }
}
