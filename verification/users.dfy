/** The `users` table as the handlers see it: rows with distinct ids, looked up by id and updated
    field by field. */
module Users {
  import opened Common
  import opened Models

  /** The position of the row with the given id, as the primary-key query finds it. */
  function FindUser(rows: seq<UserRow>, id: int): (r: Option<nat>)
    ensures r.Some? ==> r.value < |rows| && rows[r.value].id == id
    ensures r.None? ==> forall i :: 0 <= i < |rows| ==> rows[i].id != id
    decreases |rows|
  {
    if rows == [] then None
    else if rows[0].id == id then Some(0)
    else
      match FindUser(rows[1..], id)
      case None => None
      case Some(i) => Some(i + 1)
  }

  /** No two rows share an id (the primary key). */
  ghost predicate UniqueIds(rows: seq<UserRow>)
  {
    forall i, j :: 0 <= i < |rows| && 0 <= j < |rows| && rows[i].id == rows[j].id ==> i == j
  }

  class UserTable {
    var rows: seq<UserRow>

    ghost predicate Valid()
      reads this
    {
      UniqueIds(rows)
    }

    constructor (initial: seq<UserRow>)
      requires UniqueIds(initial)
      ensures rows == initial && Valid()
    {
      rows := initial;
    }

    /** `get_user_from_db`: the row with the given id, if there is one. */
    function GetUserFromDb(userId: int): (r: Option<UserRow>)
      reads this
      ensures r.Some? <==> exists i :: 0 <= i < |rows| && rows[i].id == userId
      ensures r.Some? ==> r.value.id == userId && r.value == rows[FindUser(rows, userId).value]
    {
      match FindUser(rows, userId)
      case None => None
      case Some(i) => Some(rows[i])
    }

    /** Inserts a row for an id the table does not hold yet. */
    method AddUser(row: UserRow)
      requires Valid() && FindUser(rows, row.id).None?
      modifies this
      ensures Valid()
      ensures rows == old(rows) + [row]
    {
      rows := rows + [row];
    }

    /** Replaces a row by one with the same id (the ORM's attribute assignment and commit). */
    method SetRow(i: nat, row: UserRow)
      requires Valid() && i < |rows| && row.id == rows[i].id
      modifies this
      ensures Valid()
      ensures rows == old(rows)[i := row]
    {
      rows := rows[i := row];
    }
  }
}
