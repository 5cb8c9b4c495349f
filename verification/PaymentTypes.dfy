/** The rows of the payment tables. */
module PaymentTypes {
  import opened Common

  datatype PaymentStatus = PENDING | SUCCEEDED | FAILED | CANCELLED | EXPIRED

  datatype Payment =
    Payment(userId: nat, amount: int, purpose: string, status: PaymentStatus, providerReference: Option<string>)

  predicate Terminal(status: PaymentStatus) {
    status != PENDING
  }

  // The one purpose that moves money in the ledger.
  predicate IsTopup(p: Payment) {
    p.purpose == "wallet_topup"
  }
}
