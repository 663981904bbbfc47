/** Which controls the voucher list offers for one voucher, given the viewer's role. */
module PaymentList {
  import opened Wrappers
  import opened Schema
  import Vouchers

  datatype Icon = CheckIcon | CrossIcon | ClockIcon

  /** `getStatusIcon(status)`. */
  function StatusIcon(s: Status): (i: Icon)
    ensures s == Approved <==> i == CheckIcon
    ensures s == Rejected <==> i == CrossIcon
    ensures s == Pending <==> i == ClockIcon
  {
    match s
    case Approved => CheckIcon
    case Rejected => CrossIcon
    case _ => ClockIcon
  }

  /** The controls rendered for one voucher. `statusLabel` is the icon-and-name badge. */
  datatype Controls = Controls(
    approve: bool, reject: bool, download: bool, statusLabel: Option<Icon>, approvedByLine: bool)

  function ControlsFor(v: Vouchers.Voucher, role: Role): (c: Controls)
    ensures c.approve <==> v.status == Pending && role == Approver
    ensures c.reject == c.approve
    ensures c.download <==> v.status == Approved && role == Requester
    ensures c.statusLabel.Some? <==> v.status != Pending
    ensures c.statusLabel.Some? ==> c.statusLabel.value == StatusIcon(v.status)
    ensures c.approvedByLine <==> v.approvedBy.Some? && v.approvedBy.value != ""
  {
    var decide := v.status == Pending && role == Approver;
    Controls(
      decide, decide,
      v.status == Approved && role == Requester,
      if v.status != Pending then Some(StatusIcon(v.status)) else None,
      v.approvedBy.Some? && v.approvedBy.value != "")
  }

  /** No voucher offers a decision and a download at once, and an admin is offered neither. */
  lemma ActionsExclusive(v: Vouchers.Voucher, role: Role)
    ensures !(ControlsFor(v, role).approve && ControlsFor(v, role).download)
    ensures role == Admin ==> !ControlsFor(v, role).approve && !ControlsFor(v, role).download
  {
  }

  /** On the tab a fetch lists, an approver is offered decisions on every voucher of the
      pending tab and on none of the other tabs; a requester can download exactly on the
      approved tab. */
  lemma ControlsOnTab(scan: seq<Vouchers.Row>, tab: Status, heads: map<string, string>,
                      names: map<UserId, string>, i: nat, role: Role)
    requires i < |Vouchers.FetchVouchers(scan, tab, heads, names)|
    ensures var v := Vouchers.FetchVouchers(scan, tab, heads, names)[i];
            && (ControlsFor(v, role).approve <==> tab == Pending && role == Approver)
            && (ControlsFor(v, role).download <==> tab == Approved && role == Requester)
  {
  }

  /** Once a pending voucher is approved, an approver is no longer offered a decision on it
      and its requester can download it; once rejected, nobody is offered anything. */
  lemma DecisionsAreFinalInTheList(t: Vouchers.Table, id: string, user: UserId, now: Timestamp,
                                   head: Option<string>, name: Option<string>)
    requires id in t && t[id].status == Pending
    ensures var a := Vouchers.ToVoucher(Vouchers.Joined(Vouchers.Approve(t, id, Some(user), now)[id], head, name));
            && !ControlsFor(a, Approver).approve
            && ControlsFor(a, Requester).download
            && ControlsFor(a, Approver).approvedByLine == (user != "")
    ensures var r := Vouchers.ToVoucher(Vouchers.Joined(Vouchers.Reject(t, id, Some(user), now)[id], head, name));
            forall role :: !ControlsFor(r, role).approve && !ControlsFor(r, role).download
  {
  }
}
