/** Result values of the HTTP handlers: the status and detail of every
    HTTPException the expense API raises, and the success messages it returns. */
module Http {

  datatype Option<T> = None | Some(value: T)

  /** An HTTPException(status_code, detail). */
  datatype HttpError = HttpError(status: int, detail: string)

  /** A handler either returns a value or raises an HTTPException. */
  datatype Result<T> = Ok(value: T) | Err(error: HttpError)

  const MissingToken := HttpError(401, "Missing token")
  const InvalidToken := HttpError(401, "Invalid token")
  const EmailExists := HttpError(400, "Email already exists")
  const BadCredentials := HttpError(401, "Invalid email or password")

  const UserCreated := "User created successfully"
  const ExpenseAdded := "Expense added"
  const ExpenseUpdated := "Expense updated"
  const ExpenseDeleted := "Expense deleted"
}
