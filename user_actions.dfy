/** The server actions on the `users` table: approve, reject, delete, and the fetch
    that splits the users into those awaiting approval and the rest. */
module UserActions {

  import opened Wrappers
  import opened Schema
  import Seqs

  /** `user.pending_approval` is truthy: only `true` is; `false` and null are not. */
  predicate IsPending(u: User) {
    u.pendingApproval == Some(true)
  }

  /** `data.filter((user) => user.pending_approval)`. */
  function PendingUsers(data: seq<User>): seq<User> {
    Seqs.Filter(data, IsPending)
  }

  /** `data.filter((user) => !user.pending_approval)`. */
  function NonPendingUsers(data: seq<User>): seq<User> {
    Seqs.Filter(data, (u: User) => !IsPending(u))
  }

  /** The two lists are disjoint, each keeps the original order, and together they hold
      every fetched row exactly as often as it was fetched. */
  lemma FetchPartition(data: seq<User>)
    ensures forall u | u in PendingUsers(data) :: IsPending(u) && u !in NonPendingUsers(data)
    ensures forall u | u in NonPendingUsers(data) :: !IsPending(u) && u !in PendingUsers(data)
    ensures forall u | u in data :: u in PendingUsers(data) || u in NonPendingUsers(data)
    ensures multiset(PendingUsers(data)) + multiset(NonPendingUsers(data)) == multiset(data)
    ensures Seqs.IsSubsequence(PendingUsers(data), data)
    ensures Seqs.IsSubsequence(NonPendingUsers(data), data)
  {
    Seqs.FilterPartition(data, IsPending, (u: User) => !IsPending(u));
    Seqs.FilterIsSubsequence(data, IsPending);
    Seqs.FilterIsSubsequence(data, (u: User) => !IsPending(u));
  }

  /** The table after `update({ pending_approval: false }).eq("user_id", userId)`. */
  function Approved(rows: seq<User>, userId: string): seq<User> {
    seq(|rows|, i requires 0 <= i < |rows| =>
      if rows[i].userId == userId then rows[i].(pendingApproval := Some(false)) else rows[i])
  }

  /** The table after `delete().eq("user_id", userId)`. */
  function RemoveById(rows: seq<User>, userId: string): seq<User> {
    Seqs.Filter(rows, (u: User) => u.userId != userId)
  }

  /** After approval no row of that user is pending, and every one of them lands in the
      non-pending list of the next fetch; the other rows are untouched. */
  lemma ApprovedNotPending(rows: seq<User>, userId: string)
    ensures |Approved(rows, userId)| == |rows|
    ensures forall u | u in PendingUsers(Approved(rows, userId)) :: u.userId != userId
    ensures forall i | 0 <= i < |rows| && rows[i].userId == userId ::
              Approved(rows, userId)[i] in NonPendingUsers(Approved(rows, userId))
    ensures forall i | 0 <= i < |rows| && rows[i].userId != userId :: Approved(rows, userId)[i] == rows[i]
    ensures forall i | 0 <= i < |rows| ::
              Approved(rows, userId)[i] == rows[i].(pendingApproval := Approved(rows, userId)[i].pendingApproval)
  {
  }

  /** Removing by id leaves no row of that user and every other row, in order. */
  lemma RemoveByIdContents(rows: seq<User>, userId: string)
    ensures forall u | u in RemoveById(rows, userId) :: u.userId != userId
    ensures forall u | u in rows && u.userId != userId :: u in RemoveById(rows, userId)
    ensures Seqs.IsSubsequence(RemoveById(rows, userId), rows)
  {
    Seqs.FilterIsSubsequence(rows, (u: User) => u.userId != userId);
  }

  /** Removing the same id twice leaves the table as removing it once. */
  lemma RemoveByIdIdempotent(rows: seq<User>, userId: string)
    ensures RemoveById(RemoveById(rows, userId), userId) == RemoveById(rows, userId)
  {
    var once := RemoveById(rows, userId);
    Seqs.FilterAll(once, (u: User) => u.userId != userId);
  }

  /** The hosted `users` table, reached through the service-role client. */
  class UsersTable {
    var rows: seq<User>

    constructor (rows: seq<User>)
      ensures this.rows == rows
    {
      this.rows := rows;
    }

    /** `approveUser`; on success returns the updated rows. */
    method ApproveUser(userId: string, backendError: Option<string>) returns (r: Result<seq<User>, string>)
      modifies this
      ensures backendError.Some? ==>
                rows == old(rows) && r == Failure("Failed to approve user: " + backendError.value)
      ensures backendError.None? ==>
                && rows == Approved(old(rows), userId)
                && r == Success(Seqs.Filter(rows, (u: User) => u.userId == userId))
    {
      if backendError.Some? {
        return Failure("Failed to approve user: " + backendError.value);
      }
      rows := Approved(rows, userId);
      r := Success(Seqs.Filter(rows, (u: User) => u.userId == userId));
    }

    /** `rejectUser`. */
    method RejectUser(userId: string, backendError: Option<string>) returns (r: Result<(), string>)
      modifies this
      ensures backendError.Some? ==>
                rows == old(rows) && r == Failure("Failed to reject user: " + backendError.value)
      ensures backendError.None? ==> rows == RemoveById(old(rows), userId) && r == Success(())
    {
      if backendError.Some? {
        return Failure("Failed to reject user: " + backendError.value);
      }
      rows := RemoveById(rows, userId);
      r := Success(());
    }

    /** `deleteUser`: the same query as `rejectUser`, with its own message. */
    method DeleteUser(userId: string, backendError: Option<string>) returns (r: Result<(), string>)
      modifies this
      ensures backendError.Some? ==>
                rows == old(rows) && r == Failure("Failed to delete user: " + backendError.value)
      ensures backendError.None? ==> rows == RemoveById(old(rows), userId) && r == Success(())
    {
      if backendError.Some? {
        return Failure("Failed to delete user: " + backendError.value);
      }
      rows := RemoveById(rows, userId);
      r := Success(());
    }

    /** `fetchUsers`: the pending users and all the others, or the error. */
    method FetchUsers(backendError: Option<string>) returns (r: Result<(seq<User>, seq<User>), string>)
      ensures backendError.Some? ==> r == Failure("Failed to fetch users: " + backendError.value)
      ensures backendError.None? ==>
                && r.Success?
                && (forall u | u in r.value.0 :: IsPending(u) && u !in r.value.1)
                && (forall u | u in r.value.1 :: !IsPending(u))
                && multiset(r.value.0) + multiset(r.value.1) == multiset(rows)
                && Seqs.IsSubsequence(r.value.0, rows) && Seqs.IsSubsequence(r.value.1, rows)
      ensures backendError.None? ==> r == Success((PendingUsers(rows), NonPendingUsers(rows)))
    {
      if backendError.Some? {
        return Failure("Failed to fetch users: " + backendError.value);
      }
      FetchPartition(rows);
      r := Success((PendingUsers(rows), NonPendingUsers(rows)));
    }
  }
}
