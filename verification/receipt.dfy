/**
 What a receipt is rendered from: the order, the payment facts and the
 fixed business header.
 */
module Receipts {
  import opened Orders
  import opened Calendar

  const BusinessName: string := "secondcourse."
  const Slogan: string := "'CAUSE FIRST IS NEVER ENOUGH'"
  const Instagram: string := "@secondcourse.id"
  const Phone: string := "0123456789"

  /**
   A receipt. The fields are what the getters return; there are no setters.
   `dateTime` is the clock reading taken when the receipt was built.
   `ePayment` records the payment method, which the printer asks for.
   */
  datatype Receipt = Receipt(order: Order, dateTime: DateTime, cashGiven: real, change: real, ePayment: bool)

  /** Every header text is shorter than a 32-character line, so centring
      always pads it. */
  lemma HeaderFitsLine()
    ensures |BusinessName| == 13 && |Slogan| == 29 && |Instagram| == 16
    ensures |"Instagram: " + Instagram| == 27
    ensures |Phone| == 10
  {
  }
}
