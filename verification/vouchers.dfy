/** The payment-voucher table and what the dashboard does to it: the list query for one
    status tab, the row-to-voucher transform, and the approve, reject and insert statements.
    The table is a map from voucher id to row; the backend round trip, its errors and the
    signed-in user lookup are outside the model (the user is a parameter, absent when nobody
    is signed in). */
module Vouchers {
  import opened Wrappers
  import opened Schema

  /** One row of `payment_vouchers`. */
  datatype Row = Row(
    id: string,
    voucherNumber: string,
    date: Timestamp,
    payee: string,
    accountHeadId: string,
    description: string,
    amount: Amount,
    status: Status,
    requestedBy: UserId,
    requestedDate: Timestamp,
    approvedBy: Option<UserId>,
    approvedDate: Option<Timestamp>,
    rejectedBy: Option<UserId>,
    rejectedDate: Option<Timestamp>,
    createdAt: Timestamp,
    updatedAt: Timestamp)

  type Table = map<string, Row>

  /** Every row is stored under its own id. */
  predicate WellKeyed(t: Table) {
    forall k | k in t :: t[k].id == k
  }

  /* ---------- list query and transform ---------- */

  /** A row as the list query returns it: with the joined account-head name and requester
      profile name, each absent when the join found nothing. */
  datatype Joined = Joined(row: Row, accountHeadName: Option<string>, requesterName: Option<string>)

  /** The voucher shape the screens use. */
  datatype Voucher = Voucher(
    id: string,
    voucherNumber: string,
    date: Timestamp,
    payee: string,
    accountHead: string,
    description: string,
    amount: Amount,
    status: Status,
    requestedBy: string,
    requestedDate: Timestamp,
    approvedBy: Option<UserId>,
    approvedDate: Option<Timestamp>,
    rejectedBy: Option<UserId>,
    rejectedDate: Option<Timestamp>)

  /** `name || ''`: a missing join and an empty name both give ''. */
  function NameOrEmpty(name: Option<string>): string {
    name.GetOr("")
  }

  /** The per-row mapping of `fetchVouchers`. */
  function ToVoucher(j: Joined): (v: Voucher)
    ensures v.id == j.row.id && v.voucherNumber == j.row.voucherNumber && v.date == j.row.date
    ensures v.payee == j.row.payee && v.description == j.row.description && v.amount == j.row.amount
    ensures v.status == j.row.status && v.requestedDate == j.row.requestedDate
    ensures v.approvedBy == j.row.approvedBy && v.approvedDate == j.row.approvedDate
    ensures v.rejectedBy == j.row.rejectedBy && v.rejectedDate == j.row.rejectedDate
    ensures v.accountHead == NameOrEmpty(j.accountHeadName)
    ensures v.requestedBy == NameOrEmpty(j.requesterName)
  {
    var r := j.row;
    Voucher(r.id, r.voucherNumber, r.date, r.payee, NameOrEmpty(j.accountHeadName), r.description,
            r.amount, r.status, NameOrEmpty(j.requesterName), r.requestedDate, r.approvedBy,
            r.approvedDate, r.rejectedBy, r.rejectedDate)
  }

  /** `data?.map(...) || []`: no data gives the empty list. */
  function Transform(data: Option<seq<Joined>>): (vs: seq<Voucher>)
    ensures data.None? ==> vs == []
    ensures data.Some? ==> |vs| == |data.value|
    ensures data.Some? ==> forall i | 0 <= i < |vs| :: vs[i] == ToVoucher(data.value[i])
  {
    match data
    case None => []
    case Some(rows) => seq(|rows|, i requires 0 <= i < |rows| => ToVoucher(rows[i]))
  }

  /** What the list query answered: an error, or data (possibly null). */
  datatype Response = QueryFailed | QueryOk(data: Option<seq<Joined>>)

  /** The list the dashboard shows after a fetch: an error is logged and the previous list
      stays; otherwise the transformed data replaces it. */
  function ApplyFetch(shown: seq<Voucher>, response: Response): (vs: seq<Voucher>)
    ensures response.QueryFailed? ==> vs == shown
    ensures response.QueryOk? ==> vs == Transform(response.data)
  {
    match response
    case QueryFailed => shown
    case QueryOk(data) => Transform(data)
  }

  /** The join the query performs, from the account-head names and profile names by id. */
  function Join(r: Row, heads: map<string, string>, names: map<UserId, string>): (j: Joined)
    ensures j.row == r
    ensures j.accountHeadName.Some? <==> r.accountHeadId in heads
    ensures j.requesterName.Some? <==> r.requestedBy in names
    ensures r.accountHeadId in heads ==> j.accountHeadName.value == heads[r.accountHeadId]
    ensures r.requestedBy in names ==> j.requesterName.value == names[r.requestedBy]
  {
    Joined(r,
           if r.accountHeadId in heads then Some(heads[r.accountHeadId]) else None,
           if r.requestedBy in names then Some(names[r.requestedBy]) else None)
  }

  /** `.eq('status', tab)`: the rows with that status, in scan order. */
  function WithStatus(rows: seq<Row>, tab: Status): (r: seq<Row>)
    ensures forall i | 0 <= i < |r| :: r[i].status == tab
    ensures forall x :: multiset(r)[x] == if x.status == tab then multiset(rows)[x] else 0
  {
    if rows == [] then []
    else
      assert rows == [rows[0]] + rows[1..];
      if rows[0].status == tab then [rows[0]] + WithStatus(rows[1..], tab)
      else WithStatus(rows[1..], tab)
  }

  predicate NewestFirst(rows: seq<Row>) {
    forall i, j | 0 <= i < j < |rows| :: rows[i].createdAt >= rows[j].createdAt
  }

  /** Places `x` before the first row that is not newer than it. */
  function InsertNewestFirst(x: Row, rows: seq<Row>): (r: seq<Row>)
    ensures multiset(r) == multiset(rows) + multiset{x}
    ensures |r| == |rows| + 1
    ensures r[0] == x || (rows != [] && r[0] == rows[0])
  {
    if rows == [] || x.createdAt >= rows[0].createdAt then [x] + rows
    else
      assert rows == [rows[0]] + rows[1..];
      [rows[0]] + InsertNewestFirst(x, rows[1..])
  }

  /** Inserting into a newest-first list keeps it newest first. */
  lemma {:induction false} InsertKeepsOrder(x: Row, rows: seq<Row>)
    requires NewestFirst(rows)
    ensures NewestFirst(InsertNewestFirst(x, rows))
    decreases |rows|
  {
    if rows != [] && x.createdAt < rows[0].createdAt {
      var rest := InsertNewestFirst(x, rows[1..]);
      InsertKeepsOrder(x, rows[1..]);
      var r := [rows[0]] + rest;
      assert rows[0].createdAt >= rest[0].createdAt;
      forall i, j | 0 <= i < j < |r| ensures r[i].createdAt >= r[j].createdAt {
        if i > 0 {
          assert r[i] == rest[i - 1] && r[j] == rest[j - 1];
        } else {
          assert r[j] == rest[j - 1];
        }
      }
    }
  }

  /** `.order('created_at', { ascending: false })`. */
  function SortNewestFirst(rows: seq<Row>): (r: seq<Row>)
    ensures multiset(r) == multiset(rows)
    ensures NewestFirst(r)
  {
    if rows == [] then []
    else
      assert rows == [rows[0]] + rows[1..];
      InsertKeepsOrder(rows[0], SortNewestFirst(rows[1..]));
      InsertNewestFirst(rows[0], SortNewestFirst(rows[1..]))
  }

  /** The list query for tab `tab` over the rows in scan order: exactly the rows with that
      status, each as often as it is scanned, newest first. */
  function Query(rows: seq<Row>, tab: Status): (r: seq<Row>)
    ensures forall i | 0 <= i < |r| :: r[i].status == tab
    ensures forall x :: multiset(r)[x] == if x.status == tab then multiset(rows)[x] else 0
    ensures NewestFirst(r)
  {
    SortNewestFirst(WithStatus(rows, tab))
  }

  /** `scan` lists every row of the table exactly once. */
  ghost predicate Enumerates(scan: seq<Row>, t: Table) {
    && (forall x :: x in scan <==> x in t.Values)
    && (forall i, j | 0 <= i < j < |scan| :: scan[i] != scan[j])
  }

  /** `fetchVouchers` for the active tab: query, join, transform. */
  function FetchVouchers(scan: seq<Row>, tab: Status, heads: map<string, string>,
                         names: map<UserId, string>): (vs: seq<Voucher>)
    ensures |vs| == |Query(scan, tab)|
    ensures forall i | 0 <= i < |vs| :: vs[i] == ToVoucher(Join(Query(scan, tab)[i], heads, names))
    ensures forall i | 0 <= i < |vs| :: vs[i].status == tab
  {
    var rows := Query(scan, tab);
    Transform(Some(seq(|rows|, i requires 0 <= i < |rows| => Join(rows[i], heads, names))))
  }

  /** Over a scan of the whole table, a row is listed on a tab exactly when the table holds
      it with that status, and it is listed once. */
  lemma FetchedRowsAreTabRows(t: Table, scan: seq<Row>, tab: Status, x: Row)
    requires Enumerates(scan, t)
    ensures x in Query(scan, tab) <==> x in t.Values && x.status == tab
    ensures x in Query(scan, tab) ==> multiset(Query(scan, tab))[x] == 1
  {
    var q := Query(scan, tab);
    if x in scan {
      DistinctCountsOnce(scan, x);
    }
    assert x in q <==> multiset(q)[x] > 0;
    assert x in scan <==> multiset(scan)[x] > 0;
  }

  lemma {:induction false} DistinctCountsOnce(s: seq<Row>, x: Row)
    requires forall i, j | 0 <= i < j < |s| :: s[i] != s[j]
    requires x in s
    ensures multiset(s)[x] == 1
    decreases |s|
  {
    assert s == [s[0]] + s[1..];
    if s[0] == x {
      assert x !in s[1..] by {
        forall i | 0 <= i < |s[1..]| ensures s[1..][i] != x { assert s[1..][i] == s[i + 1]; }
      }
    } else {
      DistinctCountsOnce(s[1..], x);
    }
  }

  /* ---------- statements ---------- */

  /** Everything but the approval columns and status agrees. */
  predicate SameOutsideApproval(a: Row, b: Row) {
    a.(status := Pending, approvedBy := None, approvedDate := None)
      == b.(status := Pending, approvedBy := None, approvedDate := None)
  }

  /** Everything but the rejection columns and status agrees. */
  predicate SameOutsideRejection(a: Row, b: Row) {
    a.(status := Pending, rejectedBy := None, rejectedDate := None)
      == b.(status := Pending, rejectedBy := None, rejectedDate := None)
  }

  /** `handleApprove(id)`: with a signed-in user, the row with that id (whatever its status)
      becomes approved by that user at `now`; no other row or column changes. */
  function Approve(t: Table, id: string, user: Option<UserId>, now: Timestamp): (r: Table)
    ensures r.Keys == t.Keys
    ensures user.None? || id !in t ==> r == t
    ensures forall k | k in t && k != id :: r[k] == t[k]
    ensures user.Some? && id in t ==>
              && r[id].status == Approved
              && r[id].approvedBy == Some(user.value)
              && r[id].approvedDate == Some(now)
              && SameOutsideApproval(r[id], t[id])
  {
    if user.None? || id !in t then t
    else t[id := t[id].(status := Approved, approvedBy := Some(user.value), approvedDate := Some(now))]
  }

  /** `handleReject(id)`: as `Approve`, with the rejection columns. */
  function Reject(t: Table, id: string, user: Option<UserId>, now: Timestamp): (r: Table)
    ensures r.Keys == t.Keys
    ensures user.None? || id !in t ==> r == t
    ensures forall k | k in t && k != id :: r[k] == t[k]
    ensures user.Some? && id in t ==>
              && r[id].status == Rejected
              && r[id].rejectedBy == Some(user.value)
              && r[id].rejectedDate == Some(now)
              && SameOutsideRejection(r[id], t[id])
  {
    if user.None? || id !in t then t
    else t[id := t[id].(status := Rejected, rejectedBy := Some(user.value), rejectedDate := Some(now))]
  }

  /** The payload the new-payment form hands to the dashboard. */
  datatype Payment = Payment(payee: string, accountHead: string, description: string, amount: Amount)

  /** The column values the database fills in on insert (its defaults are not part of the
      model, so they are parameters). */
  datatype Defaults = Defaults(
    id: string, voucherNumber: string, date: Timestamp, status: Status,
    requestedDate: Timestamp, createdAt: Timestamp, updatedAt: Timestamp)

  /** `handleNewPayment(p)`: with a signed-in user, one row is inserted carrying the form's
      payee, account head id, description and amount, requested by that user. An id already
      in use violates the primary key and inserts nothing. */
  function NewPayment(t: Table, p: Payment, user: Option<UserId>, d: Defaults): (r: Table)
    ensures user.None? || d.id in t ==> r == t
    ensures user.Some? && d.id !in t ==>
              && r.Keys == t.Keys + {d.id}
              && r[d.id].id == d.id
              && r[d.id].payee == p.payee
              && r[d.id].accountHeadId == p.accountHead
              && r[d.id].description == p.description
              && r[d.id].amount == p.amount
              && r[d.id].requestedBy == user.value
              && r[d.id].approvedBy.None? && r[d.id].rejectedBy.None?
    ensures forall k | k in t :: k in r && r[k] == t[k]
  {
    if user.None? || d.id in t then t
    else
      t[d.id := Row(d.id, d.voucherNumber, d.date, p.payee, p.accountHead, p.description, p.amount,
                    d.status, user.value, d.requestedDate, None, None, None, None, d.createdAt,
                    d.updatedAt)]
  }

  /* ---------- properties of the statements ---------- */

  /** The three statements keep every row under its own id. */
  lemma StatementsKeepKeys(t: Table, id: string, user: Option<UserId>, now: Timestamp,
                           p: Payment, d: Defaults)
    requires WellKeyed(t)
    ensures WellKeyed(Approve(t, id, user, now))
    ensures WellKeyed(Reject(t, id, user, now))
    ensures WellKeyed(NewPayment(t, p, user, d))
  {
  }

  /** No gate on the current status: rejecting an approved voucher leaves its approval
      columns in place beside the new rejection. */
  lemma RejectAfterApprove(t: Table, id: string, u1: UserId, t1: Timestamp, u2: UserId, t2: Timestamp)
    requires id in t
    ensures var r := Reject(Approve(t, id, Some(u1), t1), id, Some(u2), t2);
            && r[id].status == Rejected
            && r[id].approvedBy == Some(u1) && r[id].approvedDate == Some(t1)
            && r[id].rejectedBy == Some(u2) && r[id].rejectedDate == Some(t2)
  {
  }

  /** Approving the same voucher twice with the same user and clock is the same as once. */
  lemma ApproveIdempotent(t: Table, id: string, user: Option<UserId>, now: Timestamp)
    ensures Approve(Approve(t, id, user, now), id, user, now) == Approve(t, id, user, now)
  {
  }

  /** After approval, the voucher moves from the pending tab to the approved tab. */
  lemma ApproveMovesTab(t: Table, id: string, user: UserId, now: Timestamp)
    requires WellKeyed(t) && id in t && t[id].status == Pending
    ensures var r := Approve(t, id, Some(user), now);
            r[id] in r.Values && r[id].status == Approved && r[id] != t[id]
            && t[id] !in r.Values
  {
    var r := Approve(t, id, Some(user), now);
    assert r[id] in r.Values;
  }
}
