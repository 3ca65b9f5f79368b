/**
 * The server side of the todo list: the four procedures of the todo router
 * (`all`, `add`, `toggleCompleted`, `delete`) over an in-memory Todo table.
 *
 * The database is replaced by a map from row id to row. Each persistence call
 * is a pure function that either yields the new table or throws, as the
 * database client does for a duplicate key or a missing row. A procedure's
 * `try` block is modelled by an `Attempt`, and its `catch` block by `Catch`.
 */
module TodoRouter {
  import opened Wrappers

  /** One row of the Todo table. */
  datatype Todo = Todo(id: string, title: string, completed: bool, userId: string)

  /** The error codes the router raises. */
  datatype Code = Unauthorized | InternalServerError

  /** A remote-procedure error as the client receives it: a code and a message. */
  datatype TrpcError = TrpcError(code: Code, message: string)

  /** The reply of a procedure: a value, or the error it was rejected with. */
  datatype Result<T> = Ok(value: T) | Err(error: TrpcError)

  /** What can be thrown inside a procedure's `try` block. */
  datatype Thrown =
    | Raised(error: TrpcError)   // an error the procedure throws itself
    | UniqueViolation            // the database refuses a duplicate id
    | RecordNotFound             // the database finds no row to update or delete

  /** The outcome of a `try` block: it completes with a value or throws. */
  datatype Attempt<T> = Done(value: T) | Threw(cause: Thrown)

  const NotLoggedIn := "You must be logged in to create a Todo."
  const CannotCreate := "Something went wrong, cannot create Todo."
  const CannotToggle := "Something went wrong, cannot mark Todo as done or undone."
  const CannotDelete := "Something went wrong, cannot delete the Todo."

  /** The persistent table: row id to row. */
  type Table = map<string, Todo>

  /** Every row is stored under its own id. */
  ghost predicate WellKeyed(t: Table) {
    forall id :: id in t ==> t[id].id == id
  }

  /** `!ctx.auth.userId` is JavaScript falsiness: an absent id and the empty id are both signed out. */
  predicate SignedIn(caller: Option<string>): (signedIn: bool)
    ensures !signedIn <==> caller == None || caller == Some("")
  {
    caller.Some? && caller.value != ""
  }

  // ---------------------------------------------------------------------------
  // The persistence layer (one call per mutating procedure)
  // ---------------------------------------------------------------------------

  /** `create`: adds one row; a row already stored under the same id makes it throw. */
  function Insert(t: Table, row: Todo): (r: Attempt<Table>)
    ensures r.Done? <==> row.id !in t
    ensures r.Threw? ==> r.cause == UniqueViolation
    ensures r.Done? ==> r.value.Keys == t.Keys + {row.id} && r.value[row.id] == row
    ensures r.Done? ==> forall id :: id in t ==> r.value[id] == t[id]
  {
    if row.id in t then Threw(UniqueViolation) else Done(t[row.id := row])
  }

  /** `update` with `completed: { set: completed }`: overwrites one flag; a missing row makes it throw. */
  function SetCompleted(t: Table, id: string, completed: bool): (r: Attempt<Table>)
    ensures r.Done? <==> id in t
    ensures r.Threw? ==> r.cause == RecordNotFound
    ensures r.Done? ==> r.value.Keys == t.Keys
    ensures r.Done? ==> r.value[id] == t[id].(completed := completed)
    ensures r.Done? ==> forall k :: k in t && k != id ==> r.value[k] == t[k]
  {
    if id in t then Done(t[id := t[id].(completed := completed)]) else Threw(RecordNotFound)
  }

  /** `delete`: removes one row; a missing row makes it throw. */
  function Remove(t: Table, id: string): (r: Attempt<Table>)
    ensures r.Done? <==> id in t
    ensures r.Threw? ==> r.cause == RecordNotFound
    ensures r.Done? ==> r.value.Keys == t.Keys - {id}
    ensures r.Done? ==> forall k :: k in r.value ==> r.value[k] == t[k]
  {
    if id in t then Done(t - {id}) else Threw(RecordNotFound)
  }

  /**
   * The `catch` block shared by the three mutating procedures: whatever was
   * thrown is discarded and replaced by one internal error with the
   * procedure's fixed message.
   */
  function Catch(a: Attempt<bool>, message: string): (r: Result<bool>)
    ensures r.Ok? <==> a.Done?
    ensures a.Done? ==> r.value == a.value
    ensures r.Err? ==> r.error.code == InternalServerError && r.error.message == message
  {
    match a
    case Done(v) => Ok(v)
    case Threw(_) => Err(TrpcError(InternalServerError, message))
  }

  // ---------------------------------------------------------------------------
  // The `all` query
  // ---------------------------------------------------------------------------

  /** `all`: the rows whose owner is the caller, and no other rows. */
  function All(t: Table, caller: string): (r: Table)
    ensures r.Keys <= t.Keys
    ensures forall id :: id in r ==> r[id] == t[id] && r[id].userId == caller
    ensures forall id :: id in t && t[id].userId == caller ==> id in r
    ensures WellKeyed(t) ==> WellKeyed(r)
  {
    map id | id in t && t[id].userId == caller :: t[id]
  }

  /** A row added for `owner` shows up in the owner's list, and in nobody else's. */
  lemma AllAfterInsert(t: Table, row: Todo, user: string)
    requires Insert(t, row).Done?
    ensures user == row.userId ==> All(Insert(t, row).value, user) == All(t, user)[row.id := row]
    ensures user != row.userId ==> All(Insert(t, row).value, user) == All(t, user)
  {
    var after := Insert(t, row).value;
    if user == row.userId {
      assert All(after, user).Keys == All(t, user).Keys + {row.id};
    } else {
      assert All(after, user).Keys == All(t, user).Keys;
    }
  }

  /** Overwriting a flag never moves a row between lists: each user's list keeps its ids. */
  lemma AllAfterSetCompleted(t: Table, id: string, completed: bool, user: string)
    requires SetCompleted(t, id, completed).Done?
    ensures All(SetCompleted(t, id, completed).value, user).Keys == All(t, user).Keys
    ensures forall k :: k in All(t, user) && k != id ==>
              All(SetCompleted(t, id, completed).value, user)[k] == All(t, user)[k]
  {
    var after := SetCompleted(t, id, completed).value;
    forall k | k in All(t, user)
      ensures k in All(after, user)
    {
      assert after[k].userId == t[k].userId;
    }
  }

  /** A removed row leaves every list, and nothing else does. */
  lemma AllAfterRemove(t: Table, id: string, user: string)
    requires Remove(t, id).Done?
    ensures All(Remove(t, id).value, user) == All(t, user) - {id}
  {
    var after := Remove(t, id).value;
    assert All(after, user).Keys == All(t, user).Keys - {id};
  }

  // ---------------------------------------------------------------------------
  // The store and its mutating procedures
  // ---------------------------------------------------------------------------

  /** The persistent Todo table the router reads and writes. */
  class TodoStore {
    var table: Table

    ghost predicate Valid()
      reads this
    {
      WellKeyed(table)
    }

    constructor ()
      ensures Valid() && table == map[]
    {
      table := map[];
    }

    /**
     * `add`: for a signed-in caller, inserts one row owned by the caller with
     * the given title and `completed = false`, under the id the database
     * assigns (`newId`), and replies `true`. Every failure, including the
     * UNAUTHORIZED error thrown inside the `try` for a signed-out caller,
     * reaches the caller as the one internal error.
     */
    method Add(caller: Option<string>, input: string, newId: string) returns (reply: Result<bool>)
      requires Valid()
      modifies this
      ensures Valid()
      ensures reply.Ok? <==> SignedIn(caller) && newId !in old(table)
      ensures reply.Ok? ==> reply.value
      ensures reply.Ok? ==> table == old(table)[newId := Todo(newId, input, false, caller.value)]
      ensures reply.Err? ==> reply.error == TrpcError(InternalServerError, CannotCreate)
      ensures reply.Err? ==> table == old(table)
    {
      var outcome: Attempt<bool>;
      // try
      if !SignedIn(caller) {
        outcome := Threw(Raised(TrpcError(Unauthorized, NotLoggedIn)));
      } else {
        var created := Insert(table, Todo(newId, input, false, caller.value));
        if created.Done? {
          table := created.value;
          outcome := Done(true);
        } else {
          outcome := Threw(created.cause);
        }
      }
      // catch
      reply := Catch(outcome, CannotCreate);
    }

    /**
     * `add` with the sign-in check moved in front of the `try`, so that a
     * signed-out caller receives the UNAUTHORIZED error the procedure raises.
     */
    method AddChecked(caller: Option<string>, input: string, newId: string) returns (reply: Result<bool>)
      requires Valid()
      modifies this
      ensures Valid()
      ensures !SignedIn(caller) ==> reply == Err(TrpcError(Unauthorized, NotLoggedIn)) && table == old(table)
      ensures SignedIn(caller) && newId !in old(table) ==>
                reply == Ok(true) && table == old(table)[newId := Todo(newId, input, false, caller.value)]
      ensures SignedIn(caller) && newId in old(table) ==>
                reply == Err(TrpcError(InternalServerError, CannotCreate)) && table == old(table)
    {
      if !SignedIn(caller) {
        reply := Err(TrpcError(Unauthorized, NotLoggedIn));
        return;
      }
      var outcome: Attempt<bool>;
      var created := Insert(table, Todo(newId, input, false, caller.value));
      if created.Done? {
        table := created.value;
        outcome := Done(true);
      } else {
        outcome := Threw(created.cause);
      }
      reply := Catch(outcome, CannotCreate);
    }

    /**
     * `toggleCompleted`: sets (does not flip) the flag of the row with the
     * given id and replies `true`. The caller is not consulted: any caller
     * may change any user's row. A missing row is the internal error.
     */
    method ToggleCompleted(caller: Option<string>, id: string, completed: bool) returns (reply: Result<bool>)
      requires Valid()
      modifies this
      ensures Valid()
      ensures reply.Ok? <==> id in old(table)
      ensures reply.Ok? ==> reply.value
      ensures reply.Ok? ==> table == old(table)[id := old(table)[id].(completed := completed)]
      ensures reply.Err? ==> reply.error == TrpcError(InternalServerError, CannotToggle)
      ensures reply.Err? ==> table == old(table)
    {
      var outcome: Attempt<bool>;
      // try
      var updated := SetCompleted(table, id, completed);
      if updated.Done? {
        table := updated.value;
        outcome := Done(true);
      } else {
        outcome := Threw(updated.cause);
      }
      // catch
      reply := Catch(outcome, CannotToggle);
    }

    /**
     * `delete`: removes the row with the given id and replies `true`, again
     * without consulting the caller. A missing row is the internal error.
     */
    method Delete(caller: Option<string>, id: string) returns (reply: Result<bool>)
      requires Valid()
      modifies this
      ensures Valid()
      ensures reply.Ok? <==> id in old(table)
      ensures reply.Ok? ==> reply.value
      ensures reply.Ok? ==> table == old(table) - {id}
      ensures reply.Err? ==> reply.error == TrpcError(InternalServerError, CannotDelete)
      ensures reply.Err? ==> table == old(table)
    {
      var outcome: Attempt<bool>;
      // try
      var removed := Remove(table, id);
      if removed.Done? {
        table := removed.value;
        outcome := Done(true);
      } else {
        outcome := Threw(removed.cause);
      }
      // catch
      reply := Catch(outcome, CannotDelete);
    }
  }

  /**
   * A signed-out `add`: the procedure throws UNAUTHORIZED, yet what the
   * caller receives is the internal error, and nothing is stored.
   */
  method SignedOutAddIsInternalError() returns (code: Code, message: string, rows: nat)
    ensures code == InternalServerError && message == CannotCreate && rows == 0
  {
    var store := new TodoStore();
    var reply := store.Add(None, "buy milk", "t1");
    code, message, rows := reply.error.code, reply.error.message, |store.table|;
  }

  /** The same call against the corrected procedure reports UNAUTHORIZED. */
  method SignedOutAddCheckedIsUnauthorized() returns (code: Code, message: string)
    ensures code == Unauthorized && message == NotLoggedIn
  {
    var store := new TodoStore();
    var reply := store.AddChecked(None, "buy milk", "t1");
    code, message := reply.error.code, reply.error.message;
  }
}
