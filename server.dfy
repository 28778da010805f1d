/**
 * What the JSON endpoints under api/ answer, and the session-token check
 * that api/transactions.php and api/import.php run before anything else.
 */
module Server {
  import opened Wrappers
  import opened Store
  import opened BulkImport

  /** The JSON body an endpoint echoes (`Silent` when it prints nothing). */
  datatype Reply =
    | Silent
    | Failure(message: string)
    | Done(message: string)
    | Counted(counts: Counts)
    | Listing(income: seq<Row>, expenses: seq<Row>)
    | Session(user: int, name: string, email: string, token: string)

  /** An endpoint's reply together with the transaction tables it leaves behind. */
  datatype Response = Response(reply: Reply, tables: Ledger)

  /**
   * `empty($authToken)` fails with "Authentication required"; a token no
   * user holds fails with "Invalid authentication"; otherwise the id of the
   * first user holding it.
   */
  function Authenticate(users: seq<User>, token: string): (r: Result<int, string>)
    ensures r.Ok? <==> !Empty(token) && exists k :: 0 <= k < |users| && users[k].token == Some(token)
    ensures r.Ok? ==> exists k :: 0 <= k < |users| && users[k].token == Some(token) && users[k].id == r.value
    ensures r.Err? && Empty(token) ==> r.error == "Authentication required"
    ensures r.Err? && !Empty(token) ==> r.error == "Invalid authentication"
  {
    if Empty(token) then Err("Authentication required")
    else match TokenOwner(users, token)
      case None => Err("Invalid authentication")
      case Some(id) => Ok(id)
  }

  /** The rows of `user`, in table order (`SELECT * … WHERE user_id = ?`). */
  function Owned(rows: seq<Row>, user: int): (r: seq<Row>)
    ensures forall k :: 0 <= k < |r| ==> r[k].user == user && r[k] in rows
    ensures forall row :: row in rows && row.user == user ==> row in r
  {
    if rows == [] then []
    else if rows[0].user == user then [rows[0]] + Owned(rows[1..], user)
    else Owned(rows[1..], user)
  }
}
