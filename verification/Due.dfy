/** Which orders each hourly job selects. */
module Due {
  import opened Basics
  import opened Types

  datatype Job = CancelUnshipped | EscalateShipments | ConfirmDelivered | ReleaseHeld

  predicate CancelDue(row: Order, now: int) {
    row.status == Paid && row.createdAt < now - SHIPPING_DEADLINE && row.shippedAt == None
  }

  predicate EscalateDue(row: Order, now: int) {
    row.status == Shipped && row.shippedAt.Some? && row.shippedAt.value < now - SHIPPED_STUCK && row.dispute == None
  }

  predicate ConfirmDue(row: Order, now: int) {
    row.status == Delivered && row.disputeDeadline.Some? && row.disputeDeadline.value < now
  }

  predicate ReleaseDue(row: Order, now: int) {
    row.status == Held && row.escrowReleasesAt.Some? && row.escrowReleasesAt.value <= now && row.dispute == None
  }

  predicate IsDue(job: Job, row: Order, now: int) {
    match job
    case CancelUnshipped => CancelDue(row, now)
    case EscalateShipments => EscalateDue(row, now)
    case ConfirmDelivered => ConfirmDue(row, now)
    case ReleaseHeld => ReleaseDue(row, now)
  }
}
