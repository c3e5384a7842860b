/** The two SQLite tables of the API and the SQL statements the handlers run
    on them, read as operations on in-memory rows kept in rowid order.

    user_info(id INTEGER PRIMARY KEY AUTOINCREMENT, email TEXT UNIQUE NOT NULL,
              password TEXT NOT NULL)
    expenses(id INTEGER PRIMARY KEY AUTOINCREMENT, title TEXT NOT NULL,
             amount REAL NOT NULL, user_id INTEGER NOT NULL REFERENCES user_info(id)) */
module Tables {
  import opened Http

  /** The REAL amount column: copied through, never computed with. */
  type Amount = real

  datatype UserRow = UserRow(id: int, email: string, passwordHash: string)

  /** Every expense has exactly one owner, its `userId`. */
  datatype ExpenseRow = ExpenseRow(id: int, title: string, amount: Amount, userId: int)

  function UserIdsOf(users: seq<UserRow>): set<int>
  {
    set u | u in users :: u.id
  }

  function EmailsOf(users: seq<UserRow>): set<string>
  {
    set u | u in users :: u.email
  }

  function ExpenseIdsOf(rows: seq<ExpenseRow>): set<int>
  {
    set e | e in rows :: e.id
  }

  /** PRIMARY KEY on user_info.id. */
  ghost predicate UniqueUserIds(users: seq<UserRow>)
  {
    forall i, j :: 0 <= i < j < |users| ==> users[i].id != users[j].id
  }

  /** UNIQUE on user_info.email. */
  ghost predicate UniqueEmails(users: seq<UserRow>)
  {
    forall i, j :: 0 <= i < j < |users| ==> users[i].email != users[j].email
  }

  /** PRIMARY KEY on expenses.id. */
  ghost predicate UniqueExpenseIds(rows: seq<ExpenseRow>)
  {
    forall i, j :: 0 <= i < j < |rows| ==> rows[i].id != rows[j].id
  }

  /** The WHERE clause of the UPDATE and DELETE statements: id=:id AND user_id=:uid. */
  predicate Targets(e: ExpenseRow, id: int, uid: int)
  {
    e.id == id && e.userId == uid
  }

  /** SELECT * FROM user_info WHERE email=:email, then fetchone(). */
  function SelectUserByEmail(users: seq<UserRow>, email: string): (r: Option<UserRow>)
    ensures r.None? <==> email !in EmailsOf(users)
    ensures r.Some? ==> r.value in users && r.value.email == email
  {
    if users == [] then None
    else if users[0].email == email then Some(users[0])
    else
      var r := SelectUserByEmail(users[1..], email);
      assert EmailsOf(users) == {users[0].email} + EmailsOf(users[1..]) by {
        assert users == [users[0]] + users[1..];
      }
      r
  }

  /** SELECT * FROM user_info WHERE id=:id, then fetchone(). */
  function SelectUserById(users: seq<UserRow>, id: int): (r: Option<UserRow>)
    ensures r.None? <==> id !in UserIdsOf(users)
    ensures r.Some? ==> r.value in users && r.value.id == id
  {
    if users == [] then None
    else if users[0].id == id then Some(users[0])
    else
      var r := SelectUserById(users[1..], id);
      assert UserIdsOf(users) == {users[0].id} + UserIdsOf(users[1..]) by {
        assert users == [users[0]] + users[1..];
      }
      r
  }

  /** With emails unique, the lookup by email finds the one row that has it. */
  lemma {:induction false} SelectUserByEmailUnique(users: seq<UserRow>, u: UserRow)
    requires UniqueEmails(users)
    requires u in users
    ensures SelectUserByEmail(users, u.email) == Some(u)
  {
    if users[0] != u {
      assert u in users[1..];
      SelectUserByEmailUnique(users[1..], u);
    }
  }

  /** With ids unique, the lookup by id finds the one row that has it. */
  lemma {:induction false} SelectUserByIdUnique(users: seq<UserRow>, u: UserRow)
    requires UniqueUserIds(users)
    requires u in users
    ensures SelectUserById(users, u.id) == Some(u)
  {
    if users[0] != u {
      assert u in users[1..];
      SelectUserByIdUnique(users[1..], u);
    }
  }

  /** SELECT * FROM expenses WHERE user_id=:uid, then fetchall(): exactly the
      rows owned by uid, each as often as it occurs, in table order. */
  function SelectExpensesByOwner(rows: seq<ExpenseRow>, uid: int): (r: seq<ExpenseRow>)
    ensures forall e :: e in r <==> e in rows && e.userId == uid
    ensures forall e :: multiset(r)[e] == if e.userId == uid then multiset(rows)[e] else 0
  {
    if rows == [] then []
    else
      assert rows == [rows[0]] + rows[1..];
      var rest := SelectExpensesByOwner(rows[1..], uid);
      if rows[0].userId == uid then [rows[0]] + rest else rest
  }

  /** UPDATE expenses SET title=:title, amount=:amount WHERE id=:id AND user_id=:uid. */
  function UpdateRows(rows: seq<ExpenseRow>, id: int, uid: int, title: string, amount: Amount): (r: seq<ExpenseRow>)
    ensures |r| == |rows|
    ensures forall i :: 0 <= i < |rows| ==> r[i].id == rows[i].id && r[i].userId == rows[i].userId
  {
    if rows == [] then []
    else
      var head := if Targets(rows[0], id, uid) then rows[0].(title := title, amount := amount) else rows[0];
      [head] + UpdateRows(rows[1..], id, uid, title, amount)
  }

  /** DELETE FROM expenses WHERE id=:id AND user_id=:uid. */
  function DeleteRows(rows: seq<ExpenseRow>, id: int, uid: int): (r: seq<ExpenseRow>)
    ensures forall e :: e in r <==> e in rows && !Targets(e, id, uid)
    ensures |r| <= |rows|
  {
    if rows == [] then []
    else
      assert rows == [rows[0]] + rows[1..];
      var rest := DeleteRows(rows[1..], id, uid);
      if Targets(rows[0], id, uid) then rest else [rows[0]] + rest
  }

  /** The UPDATE rewrites title and amount of the targeted row and of no other. */
  lemma {:induction false} UpdateRowsAt(rows: seq<ExpenseRow>, id: int, uid: int, title: string, amount: Amount, i: int)
    requires 0 <= i < |rows|
    ensures UpdateRows(rows, id, uid, title, amount)[i]
         == if Targets(rows[i], id, uid) then rows[i].(title := title, amount := amount) else rows[i]
  {
    if i > 0 {
      UpdateRowsAt(rows[1..], id, uid, title, amount, i - 1);
    }
  }

  /** The UPDATE never touches a key: every row keeps its id and its owner, so
      whatever holds of the ids and owners before holds after. */
  lemma {:induction false} UpdateRowsKeys(rows: seq<ExpenseRow>, id: int, uid: int, title: string, amount: Amount, e: ExpenseRow)
    requires e in UpdateRows(rows, id, uid, title, amount)
    ensures exists f :: f in rows && f.id == e.id && f.userId == e.userId
  {
    var r := UpdateRows(rows, id, uid, title, amount);
    var i :| 0 <= i < |r| && r[i] == e;
    assert rows[i] in rows;
  }

  /** An UPDATE that targets no row leaves the table as it was. */
  lemma {:induction false} UpdateRowsMiss(rows: seq<ExpenseRow>, id: int, uid: int, title: string, amount: Amount)
    requires forall e :: e in rows ==> !Targets(e, id, uid)
    ensures UpdateRows(rows, id, uid, title, amount) == rows
  {
    if rows != [] {
      assert rows[0] in rows;
      assert forall e :: e in rows[1..] ==> e in rows;
      UpdateRowsMiss(rows[1..], id, uid, title, amount);
      assert rows == [rows[0]] + rows[1..];
    }
  }

  /** An UPDATE scoped to uid leaves every other user's listing unchanged. */
  lemma {:induction false} UpdateRowsIsolation(rows: seq<ExpenseRow>, id: int, uid: int, title: string, amount: Amount, other: int)
    requires other != uid
    ensures SelectExpensesByOwner(UpdateRows(rows, id, uid, title, amount), other) == SelectExpensesByOwner(rows, other)
  {
    if rows != [] {
      UpdateRowsIsolation(rows[1..], id, uid, title, amount, other);
      var r := UpdateRows(rows, id, uid, title, amount);
      assert r[1..] == UpdateRows(rows[1..], id, uid, title, amount);
      UpdateRowsAt(rows, id, uid, title, amount, 0);
    }
  }

  /** A DELETE that targets no row leaves the table as it was. */
  lemma {:induction false} DeleteRowsMiss(rows: seq<ExpenseRow>, id: int, uid: int)
    requires forall e :: e in rows ==> !Targets(e, id, uid)
    ensures DeleteRows(rows, id, uid) == rows
  {
    if rows != [] {
      assert rows[0] in rows;
      assert forall e :: e in rows[1..] ==> e in rows;
      DeleteRowsMiss(rows[1..], id, uid);
      assert rows == [rows[0]] + rows[1..];
    }
  }

  /** With ids unique, a DELETE removes one row if some row has that id and
      owner, and none otherwise. */
  lemma {:induction false} DeleteRowsCount(rows: seq<ExpenseRow>, id: int, uid: int)
    requires UniqueExpenseIds(rows)
    ensures |DeleteRows(rows, id, uid)|
         == if exists e :: e in rows && Targets(e, id, uid) then |rows| - 1 else |rows|
  {
    if rows == [] {
    } else {
      assert rows == [rows[0]] + rows[1..];
      var tail := rows[1..];
      assert UniqueExpenseIds(tail);
      if Targets(rows[0], id, uid) {
        forall e | e in tail ensures !Targets(e, id, uid) {
          var k :| 0 <= k < |tail| && tail[k] == e;
          assert rows[0].id != rows[k + 1].id;
        }
        DeleteRowsMiss(tail, id, uid);
      } else {
        DeleteRowsCount(tail, id, uid);
        assert (exists e :: e in rows && Targets(e, id, uid)) <==> (exists e :: e in tail && Targets(e, id, uid));
      }
    }
  }

  /** A DELETE scoped to uid leaves every other user's listing unchanged. */
  lemma {:induction false} DeleteRowsIsolation(rows: seq<ExpenseRow>, id: int, uid: int, other: int)
    requires other != uid
    ensures SelectExpensesByOwner(DeleteRows(rows, id, uid), other) == SelectExpensesByOwner(rows, other)
  {
    if rows != [] {
      DeleteRowsIsolation(rows[1..], id, uid, other);
      var rest := DeleteRows(rows[1..], id, uid);
      if !Targets(rows[0], id, uid) {
        assert ([rows[0]] + rest)[1..] == rest;
      }
    }
  }

  /** A DELETE keeps the primary key unique: it only drops rows and keeps the
      order of the rest. */
  lemma {:induction false} DeleteRowsUniqueIds(rows: seq<ExpenseRow>, id: int, uid: int)
    requires UniqueExpenseIds(rows)
    ensures UniqueExpenseIds(DeleteRows(rows, id, uid))
  {
    if rows != [] {
      var tail := rows[1..];
      assert UniqueExpenseIds(tail);
      DeleteRowsUniqueIds(tail, id, uid);
      var rest := DeleteRows(tail, id, uid);
      if !Targets(rows[0], id, uid) {
        var r := [rows[0]] + rest;
        forall j | 1 <= j < |r| ensures r[0].id != r[j].id {
          assert r[j] in rest;
          var k :| 0 <= k < |tail| && tail[k] == r[j];
          assert rows[0].id != rows[k + 1].id;
        }
      }
    }
  }
}
