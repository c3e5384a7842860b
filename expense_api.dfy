/** The expense API: the two tables behind the handlers, as one store whose
    handlers read it (get_current_user, login, get_expenses) or change it in
    place (signup, create_expense, update_expense, delete_expense). Each
    handler that needs a caller takes the raw Authorization header and
    resolves it first, as the dependency on get_current_user does; when that
    fails the handler body never runs. */
module ExpenseApi {
  import opened Http
  import opened Crypto
  import opened AuthHeader
  import opened Tables

  /** The JSON body of /signup and /login. */
  datatype UserBody = UserBody(email: string, password: string)

  /** The JSON body of POST /expenses and PUT /expenses/{id}; `id` is accepted but never used. */
  datatype ExpenseBody = ExpenseBody(id: Option<int>, title: string, amount: Amount)

  /** `not authorization`: no header at all, or an empty one. */
  predicate Missing(authorization: Option<string>)
  {
    authorization.None? || authorization.value == []
  }

  class Store {
    var users: seq<UserRow>
    var expenses: seq<ExpenseRow>
    /** The sqlite_sequence entries: the largest id AUTOINCREMENT has handed out. */
    var lastUserId: nat
    var lastExpenseId: nat

    /** The table constraints: primary keys, UNIQUE email, AUTOINCREMENT ids
        that start at 1 and never exceed the sequence, and every expense owned
        by an existing user. */
    ghost predicate Valid()
      reads this
    {
      && UniqueUserIds(users)
      && UniqueEmails(users)
      && (forall u :: u in users ==> 0 < u.id <= lastUserId)
      && UniqueExpenseIds(expenses)
      && (forall e :: e in expenses ==> 0 < e.id <= lastExpenseId)
      && (forall e :: e in expenses ==> e.userId in UserIdsOf(users))
    }

    /** Freshly created, empty tables. */
    constructor ()
      ensures Valid()
      ensures users == [] && expenses == [] && lastUserId == 0 && lastExpenseId == 0
    {
      users := [];
      expenses := [];
      lastUserId := 0;
      lastExpenseId := 0;
    }

    /** get_current_user: the user row named by the "user_id" claim of the
        token in the second space-separated field of the header. */
    function GetCurrentUser(authorization: Option<string>, cfg: Config): (r: Result<UserRow>)
      reads this
      // The caller is always a row of user_info.
      ensures r.Ok? ==> r.value in users
      // Every failure is a 401, "Missing token" exactly when no header value came.
      ensures Missing(authorization) ==> r == Err(MissingToken)
      ensures !Missing(authorization) && r.Err? ==> r == Err(InvalidToken)
      // No second field (IndexError): rejected.
      ensures authorization.Some? && ' ' !in authorization.value ==> r.Err?
      // A token that does not decode, or whose payload lacks user_id, is
      // rejected; otherwise the caller is found exactly when that id is a row.
      ensures authorization.Some? && ' ' in authorization.value ==>
        var payload := cfg.jwt.decode(cfg.secretKey, TokenField(authorization.value).value);
        && (payload.None? || "user_id" !in payload.value ==> r.Err?)
        && (payload.Some? && "user_id" in payload.value ==>
              && (r.Ok? <==> payload.value["user_id"] in UserIdsOf(users))
              && (r.Ok? ==> r.value.id == payload.value["user_id"]))
    {
      if Missing(authorization) then Err(MissingToken)
      else match TokenField(authorization.value)
        case None => Err(InvalidToken)
        case Some(token) =>
          match cfg.jwt.decode(cfg.secretKey, token)
          case None => Err(InvalidToken)
          case Some(payload) =>
            if "user_id" !in payload then Err(InvalidToken)
            else match SelectUserById(users, payload["user_id"])
              case None => Err(InvalidToken)
              case Some(user) => Ok(user)
    }

    /** signup: refuse an email already present, otherwise insert one user
        with the next id and the bcrypt hash of the password. */
    method Signup(body: UserBody, salt: Salt, cfg: Config) returns (r: Result<string>)
      requires Valid()
      modifies this
      ensures Valid()
      ensures expenses == old(expenses) && lastExpenseId == old(lastExpenseId)
      ensures body.email in old(EmailsOf(users)) ==>
        && r == Err(EmailExists)
        && users == old(users) && lastUserId == old(lastUserId)
      ensures body.email !in old(EmailsOf(users)) ==>
        && r == Ok(UserCreated)
        && lastUserId == old(lastUserId) + 1
        && users == old(users) + [UserRow(lastUserId, body.email, cfg.bcrypt.hashpw(body.password, salt))]
      // A successful signup can be followed by a successful login.
      ensures r.Ok? && BcryptLaws(cfg.bcrypt) ==> Login(body, cfg).Ok?
    {
      var existing := SelectUserByEmail(users, body.email);
      if existing.Some? {
        return Err(EmailExists);
      }
      var hashed := cfg.bcrypt.hashpw(body.password, salt);
      ghost var before := users;
      lastUserId := lastUserId + 1;
      var user := UserRow(lastUserId, body.email, hashed);
      users := users + [user];
      r := Ok(UserCreated);
      assert forall u :: u in users ==> u in before || u == user;
      assert UserIdsOf(before) <= UserIdsOf(users) by {
        forall id | id in UserIdsOf(before) ensures id in UserIdsOf(users) {
          var u :| u in before && u.id == id;
          assert u in users;
        }
      }
      assert users[|users| - 1] == user;
    }

    /** login: the token for the user with this email, if the password checks
        against the stored hash; the same 401 whichever check fails. */
    function Login(body: UserBody, cfg: Config): (r: Result<string>)
      reads this
      ensures r.Err? ==> r == Err(BadCredentials)
      ensures body.email !in EmailsOf(users) ==> r.Err?
      ensures r.Ok? ==> exists u :: u in users && u.email == body.email
                                  && cfg.bcrypt.checkpw(body.password, u.passwordHash)
                                  && r.value == cfg.jwt.encode(cfg.secretKey, UserClaims(u.id))
      ensures UniqueEmails(users) ==>
        (r.Ok? <==> exists u :: u in users && u.email == body.email
                               && cfg.bcrypt.checkpw(body.password, u.passwordHash))
    {
      match SelectUserByEmail(users, body.email)
      case None => Err(BadCredentials)
      case Some(user) =>
        if !cfg.bcrypt.checkpw(body.password, user.passwordHash) then Err(BadCredentials)
        else
          assert UniqueEmails(users) ==> forall u :: u in users && u.email == body.email ==> u == user by {
            if UniqueEmails(users) {
              forall u | u in users && u.email == body.email ensures u == user {
                SelectUserByEmailUnique(users, u);
              }
            }
          }
          Ok(cfg.jwt.encode(cfg.secretKey, UserClaims(user.id)))
    }

    /** get_expenses: every expense row of the caller and no other row. */
    function GetExpenses(authorization: Option<string>, cfg: Config): (r: Result<seq<ExpenseRow>>)
      reads this
      ensures r.Err? <==> GetCurrentUser(authorization, cfg).Err?
      ensures r.Err? ==> r.error == GetCurrentUser(authorization, cfg).error
      ensures r.Ok? ==> forall e :: e in r.value <==> e in expenses && e.userId == GetCurrentUser(authorization, cfg).value.id
      ensures r.Ok? ==> forall e :: multiset(r.value)[e]
                                 == if e.userId == GetCurrentUser(authorization, cfg).value.id then multiset(expenses)[e] else 0
    {
      match GetCurrentUser(authorization, cfg)
      case Err(error) => Err(error)
      case Ok(user) => Ok(SelectExpensesByOwner(expenses, user.id))
    }

    /** create_expense: one new row owned by the caller, with the next id;
        the id in the body is ignored. */
    method CreateExpense(authorization: Option<string>, body: ExpenseBody, cfg: Config) returns (r: Result<string>)
      requires Valid()
      modifies this
      ensures Valid()
      ensures users == old(users) && lastUserId == old(lastUserId)
      ensures old(GetCurrentUser(authorization, cfg)).Err? ==>
        && r == Err(old(GetCurrentUser(authorization, cfg)).error)
        && expenses == old(expenses) && lastExpenseId == old(lastExpenseId)
      ensures old(GetCurrentUser(authorization, cfg)).Ok? ==>
        && r == Ok(ExpenseAdded)
        && lastExpenseId == old(lastExpenseId) + 1
        && lastExpenseId !in old(ExpenseIdsOf(expenses))
        && expenses == old(expenses)
                       + [ExpenseRow(lastExpenseId, body.title, body.amount, old(GetCurrentUser(authorization, cfg)).value.id)]
    {
      var caller := GetCurrentUser(authorization, cfg);
      if caller.Err? {
        return Err(caller.error);
      }
      ghost var before := expenses;
      lastExpenseId := lastExpenseId + 1;
      var row := ExpenseRow(lastExpenseId, body.title, body.amount, caller.value.id);
      expenses := expenses + [row];
      r := Ok(ExpenseAdded);
      assert forall e :: e in expenses ==> e in before || e == row;
      assert caller.value.id in UserIdsOf(users);
      assert expenses[|expenses| - 1] == row;
    }

    /** update_expense: new title and amount on the caller's row with this id;
        "Expense updated" whether or not such a row exists. */
    method UpdateExpense(authorization: Option<string>, expenseId: int, body: ExpenseBody, cfg: Config) returns (r: Result<string>)
      requires Valid()
      modifies this
      ensures Valid()
      ensures users == old(users) && lastUserId == old(lastUserId) && lastExpenseId == old(lastExpenseId)
      ensures old(GetCurrentUser(authorization, cfg)).Err? ==>
        r == Err(old(GetCurrentUser(authorization, cfg)).error) && expenses == old(expenses)
      ensures old(GetCurrentUser(authorization, cfg)).Ok? ==>
        var uid := old(GetCurrentUser(authorization, cfg)).value.id;
        && r == Ok(ExpenseUpdated)
        && expenses == UpdateRows(old(expenses), expenseId, uid, body.title, body.amount)
        && (forall other :: other != uid ==>
              SelectExpensesByOwner(expenses, other) == SelectExpensesByOwner(old(expenses), other))
    {
      var caller := GetCurrentUser(authorization, cfg);
      if caller.Err? {
        return Err(caller.error);
      }
      ghost var before := expenses;
      expenses := UpdateRows(expenses, expenseId, caller.value.id, body.title, body.amount);
      r := Ok(ExpenseUpdated);
      forall other | other != caller.value.id
        ensures SelectExpensesByOwner(expenses, other) == SelectExpensesByOwner(before, other)
      {
        UpdateRowsIsolation(before, expenseId, caller.value.id, body.title, body.amount, other);
      }
      forall e | e in expenses ensures 0 < e.id <= lastExpenseId && e.userId in UserIdsOf(users) {
        UpdateRowsKeys(before, expenseId, caller.value.id, body.title, body.amount, e);
      }
    }

    /** delete_expense: remove the caller's row with this id, if any;
        "Expense deleted" either way. */
    method DeleteExpense(authorization: Option<string>, expenseId: int, cfg: Config) returns (r: Result<string>)
      requires Valid()
      modifies this
      ensures Valid()
      ensures users == old(users) && lastUserId == old(lastUserId) && lastExpenseId == old(lastExpenseId)
      ensures old(GetCurrentUser(authorization, cfg)).Err? ==>
        r == Err(old(GetCurrentUser(authorization, cfg)).error) && expenses == old(expenses)
      ensures old(GetCurrentUser(authorization, cfg)).Ok? ==>
        var uid := old(GetCurrentUser(authorization, cfg)).value.id;
        && r == Ok(ExpenseDeleted)
        && expenses == DeleteRows(old(expenses), expenseId, uid)
        && |expenses| == (if exists e :: e in old(expenses) && Targets(e, expenseId, uid)
                          then |old(expenses)| - 1 else |old(expenses)|)
        && (forall other :: other != uid ==>
              SelectExpensesByOwner(expenses, other) == SelectExpensesByOwner(old(expenses), other))
    {
      var caller := GetCurrentUser(authorization, cfg);
      if caller.Err? {
        return Err(caller.error);
      }
      ghost var before := expenses;
      DeleteRowsCount(before, expenseId, caller.value.id);
      DeleteRowsUniqueIds(before, expenseId, caller.value.id);
      expenses := DeleteRows(expenses, expenseId, caller.value.id);
      r := Ok(ExpenseDeleted);
      forall other | other != caller.value.id
        ensures SelectExpensesByOwner(expenses, other) == SelectExpensesByOwner(before, other)
      {
        DeleteRowsIsolation(before, expenseId, caller.value.id, other);
      }
    }
  }

  /** The token a successful login returns resolves, in a header whose first
      word is anything without a space, back to the user who logged in. */
  lemma LoginThenResolve(store: Store, body: UserBody, cfg: Config, scheme: string)
    requires store.Valid()
    requires JwtLaws(cfg.jwt)
    requires ' ' !in scheme
    requires store.Login(body, cfg).Ok?
    ensures var caller := store.GetCurrentUser(Some(scheme + " " + store.Login(body, cfg).value), cfg);
            && caller.Ok?
            && caller.value in store.users
            && caller.value.email == body.email
            && cfg.bcrypt.checkpw(body.password, caller.value.passwordHash)
  {
    var token := store.Login(body, cfg).value;
    var u :| u in store.users && u.email == body.email
             && cfg.bcrypt.checkpw(body.password, u.passwordHash)
             && token == cfg.jwt.encode(cfg.secretKey, UserClaims(u.id));
    assert ' ' !in token;
    TokenAfterAnyScheme(scheme, token);
    assert cfg.jwt.decode(cfg.secretKey, token) == Some(UserClaims(u.id));
    SelectUserByIdUnique(store.users, u);
  }

  /** The first word of the header is never inspected: any two space-free
      words in front of the same rest resolve to the same caller. */
  lemma SchemeIgnored(store: Store, scheme1: string, scheme2: string, rest: string, cfg: Config)
    requires ' ' !in scheme1 && ' ' !in scheme2
    ensures store.GetCurrentUser(Some(scheme1 + " " + rest), cfg)
         == store.GetCurrentUser(Some(scheme2 + " " + rest), cfg)
  {
    TokenAfterAnyScheme(scheme1, rest);
    TokenAfterAnyScheme(scheme2, rest);
  }
}
