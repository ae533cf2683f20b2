/** The admin's user-management page: the check on the stored admin record, the
    run-once initialisation, and the approve / reject / delete handlers that reload
    the user lists after each action. */
module StaffManagement {

  import opened Wrappers
  import opened Schema
  import opened UserActions

  /** The `role` and `email` fields of the parsed `adminUser` value; `None` when the
      field is absent (or the value is not an object at all, as for `null`). */
  datatype AdminRecord = AdminRecord(role: Option<string>, email: Option<string>)

  /** What `JSON.parse` makes of the stored text. */
  datatype ParseResult = ParseError | Parsed(record: AdminRecord)

  /** `localStorage.getItem("adminUser")` is truthy: present and not the empty string. */
  predicate Stored(item: Option<string>) {
    item.Some? && item.value != ""
  }

  /** The record passes `parsedAdmin?.role === "admin" && parsedAdmin?.email`. */
  predicate IsAdminRecord(r: AdminRecord) {
    r.role == Some("admin") && r.email.Some? && r.email.value != ""
  }

  /** The admin `checkAuth` lets in, given the stored item and the parser. */
  function AuthDecision(item: Option<string>, parse: string -> ParseResult): (r: Option<AdminRecord>)
    ensures r.Some? ==> Stored(item) && parse(item.value) == Parsed(r.value) && IsAdminRecord(r.value)
    ensures Stored(item) && parse(item.value).Parsed? && IsAdminRecord(parse(item.value).record) ==> r.Some?
  {
    if !Stored(item) then None
    else match parse(item.value)
      case ParseError => None
      case Parsed(record) => if IsAdminRecord(record) then Some(record) else None
  }

  class StaffManagementPage {
    /** The users table the server actions work on. */
    const store: UsersTable
    var admin: Option<AdminRecord>
    var pendingUsers: seq<User>
    var allUsers: seq<User>
    var isLoading: bool
    /** The `hasInitialized` ref. */
    var hasInitialized: bool
    /** `localStorage` entry `adminUser`. */
    var storedAdmin: Option<string>
    /** The last route pushed, if any. */
    var route: Option<string>
    /** How many times `fetchUsers` has been called. */
    var fetches: nat

    constructor (store: UsersTable, storedAdmin: Option<string>)
      ensures this.store == store && this.storedAdmin == storedAdmin
      ensures admin == None && pendingUsers == [] && allUsers == [] && isLoading
      ensures !hasInitialized && route == None && fetches == 0
    {
      this.store := store;
      this.storedAdmin := storedAdmin;
      admin := None;
      pendingUsers, allUsers := [], [];
      isLoading := true;
      hasInitialized := false;
      route := None;
      fetches := 0;
    }

    /** `loadUsers`: a failed fetch empties both lists; loading ends either way. */
    method LoadUsers(fetchError: Option<string>)
      modifies this`pendingUsers, this`allUsers, this`isLoading, this`fetches
      ensures fetches == old(fetches) + 1 && !isLoading
      ensures fetchError.None? ==>
                pendingUsers == PendingUsers(store.rows) && allUsers == NonPendingUsers(store.rows)
      ensures fetchError.Some? ==> pendingUsers == [] && allUsers == []
    {
      isLoading := true;
      var r := store.FetchUsers(fetchError);
      fetches := fetches + 1;
      match r {
        case Success(lists) =>
          pendingUsers, allUsers := lists.0, lists.1;
        case Failure(_) =>
          pendingUsers, allUsers := [], [];
      }
      isLoading := false;
    }

    /** `checkAuth`. */
    method CheckAuth(parse: string -> ParseResult) returns (r: Option<AdminRecord>)
      modifies this`storedAdmin, this`route
      ensures r == AuthDecision(old(storedAdmin), parse)
      ensures !Stored(old(storedAdmin)) ==> storedAdmin == old(storedAdmin) && route == Some("/loginAdmin")
      ensures Stored(old(storedAdmin)) && r.None? ==> storedAdmin == None && route == Some("/loginAdmin")
      ensures r.Some? ==> storedAdmin == old(storedAdmin) && route == old(route)
    {
      if !Stored(storedAdmin) {
        route := Some("/loginAdmin");
        return None;
      }
      var parsed := parse(storedAdmin.value);
      if parsed.ParseError? || !IsAdminRecord(parsed.record) {
        storedAdmin := None;
        route := Some("/loginAdmin");
        return None;
      }
      r := Some(parsed.record);
    }

    /** The mount effect: skipped once `hasInitialized` is set; otherwise the auth check,
        then one load of the users when it lets an admin in. */
    method Initialize(parse: string -> ParseResult, fetchError: Option<string>)
      modifies this`storedAdmin, this`route, this`admin, this`pendingUsers, this`allUsers
      modifies this`isLoading, this`fetches, this`hasInitialized
      ensures hasInitialized
      ensures old(hasInitialized) ==>
                && storedAdmin == old(storedAdmin) && route == old(route) && admin == old(admin)
                && pendingUsers == old(pendingUsers) && allUsers == old(allUsers)
                && isLoading == old(isLoading) && fetches == old(fetches)
      ensures !old(hasInitialized) && AuthDecision(old(storedAdmin), parse).None? ==>
                && admin == old(admin) && fetches == old(fetches) && isLoading == old(isLoading)
                && pendingUsers == old(pendingUsers) && allUsers == old(allUsers)
                && route == Some("/loginAdmin")
                && storedAdmin == (if Stored(old(storedAdmin)) then None else old(storedAdmin))
      ensures !old(hasInitialized) && AuthDecision(old(storedAdmin), parse).Some? ==>
                && admin == AuthDecision(old(storedAdmin), parse)
                && fetches == old(fetches) + 1 && !isLoading
                && storedAdmin == old(storedAdmin) && route == old(route)
                && (fetchError.None? ==>
                      pendingUsers == PendingUsers(store.rows) && allUsers == NonPendingUsers(store.rows))
                && (fetchError.Some? ==> pendingUsers == [] && allUsers == [])
    {
      if hasInitialized {
        return;
      }
      var authenticated := CheckAuth(parse);
      if authenticated.Some? {
        admin := authenticated;
        LoadUsers(fetchError);
      }
      hasInitialized := true;
    }

    /** `handleApproveUser`: on success exactly one reload; a failed action is swallowed. */
    method HandleApproveUser(userId: string, actionError: Option<string>, fetchError: Option<string>)
      modifies this`pendingUsers, this`allUsers, this`isLoading, this`fetches, store
      ensures actionError.Some? ==>
                && store.rows == old(store.rows) && fetches == old(fetches) && isLoading == old(isLoading)
                && pendingUsers == old(pendingUsers) && allUsers == old(allUsers)
      ensures actionError.None? ==>
                && store.rows == Approved(old(store.rows), userId)
                && fetches == old(fetches) + 1 && !isLoading
                && (fetchError.None? ==>
                      pendingUsers == PendingUsers(store.rows) && allUsers == NonPendingUsers(store.rows))
                && (fetchError.Some? ==> pendingUsers == [] && allUsers == [])
    {
      var r := store.ApproveUser(userId, actionError);
      if r.Success? {
        LoadUsers(fetchError);
      }
    }

    /** `handleRejectUser`. */
    method HandleRejectUser(userId: string, actionError: Option<string>, fetchError: Option<string>)
      modifies this`pendingUsers, this`allUsers, this`isLoading, this`fetches, store
      ensures actionError.Some? ==>
                && store.rows == old(store.rows) && fetches == old(fetches) && isLoading == old(isLoading)
                && pendingUsers == old(pendingUsers) && allUsers == old(allUsers)
      ensures actionError.None? ==>
                && store.rows == RemoveById(old(store.rows), userId)
                && fetches == old(fetches) + 1 && !isLoading
                && (fetchError.None? ==>
                      pendingUsers == PendingUsers(store.rows) && allUsers == NonPendingUsers(store.rows))
                && (fetchError.Some? ==> pendingUsers == [] && allUsers == [])
    {
      var r := store.RejectUser(userId, actionError);
      if r.Success? {
        LoadUsers(fetchError);
      }
    }

    /** `handleDeleteUser`. */
    method HandleDeleteUser(userId: string, actionError: Option<string>, fetchError: Option<string>)
      modifies this`pendingUsers, this`allUsers, this`isLoading, this`fetches, store
      ensures actionError.Some? ==>
                && store.rows == old(store.rows) && fetches == old(fetches) && isLoading == old(isLoading)
                && pendingUsers == old(pendingUsers) && allUsers == old(allUsers)
      ensures actionError.None? ==>
                && store.rows == RemoveById(old(store.rows), userId)
                && fetches == old(fetches) + 1 && !isLoading
                && (fetchError.None? ==>
                      pendingUsers == PendingUsers(store.rows) && allUsers == NonPendingUsers(store.rows))
                && (fetchError.Some? ==> pendingUsers == [] && allUsers == [])
    {
      var r := store.DeleteUser(userId, actionError);
      if r.Success? {
        LoadUsers(fetchError);
      }
    }

    /** `handleLogout`. */
    method HandleLogout()
      modifies this`storedAdmin, this`route
      ensures storedAdmin == None && route == Some("/loginAdmin")
    {
      storedAdmin := None;
      route := Some("/loginAdmin");
    }
  }

  /** Mounting the page twice (the effect re-running) fetches the users at most once:
      once when the stored record is an admin's, never otherwise. */
  method MountTwice(rows: seq<User>, item: Option<string>, parse: string -> ParseResult)
    returns (fetches: nat)
    ensures fetches == if AuthDecision(item, parse).Some? then 1 else 0
    ensures fetches <= 1
  {
    var store := new UsersTable(rows);
    var page := new StaffManagementPage(store, item);
    page.Initialize(parse, None);
    page.Initialize(parse, None);
    fetches := page.fetches;
  }

  /** An admin opens the page and deletes one user: two fetches in all, and the user
      is gone from both lists shown afterwards. */
  method MountThenDelete(rows: seq<User>, item: string, parse: string -> ParseResult, userId: string)
    returns (fetches: nat, pending: seq<User>, others: seq<User>)
    requires AuthDecision(Some(item), parse).Some?
    ensures fetches == 2
    ensures forall u | u in pending :: u.userId != userId && IsPending(u)
    ensures forall u | u in others :: u.userId != userId && !IsPending(u)
    ensures forall u | u in rows && u.userId != userId :: u in pending || u in others
  {
    var store := new UsersTable(rows);
    var page := new StaffManagementPage(store, Some(item));
    page.Initialize(parse, None);
    page.HandleDeleteUser(userId, None, None);
    fetches, pending, others := page.fetches, page.pendingUsers, page.allUsers;
    RemoveByIdContents(rows, userId);
    FetchPartition(store.rows);
  }
}
