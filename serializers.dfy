/** Field validators of the credit serializers (credits/serializers.py). */
module CreditsSerializers {
  import opened Base
  import opened CreditsModels

  /** CreditRequestSerializer.validate_amount, with the DecimalField's own
      digit limit: a positive whole number of at most twelve digits. */
  predicate ValidRequestAmount(amount: int) {
    0 < amount <= MaxMoney
  }

  /** `reference_id`, once trimmed, is a required, non-blank
      CharField(max_length=255) without NUL characters. */
  predicate ValidReference(reference: string) {
    0 < |reference| <= MaxReferenceLength && NoNul(reference)
  }

  /** AdminCreditRequestSerializer.validate_status on an existing request:
      a request that is no longer pending keeps its status. */
  predicate ValidStatusChange(current: RequestStatus, value: RequestStatus) {
    !(current != Pending && value != current)
  }

  /** TransactionSerializer.validate_amount: a ledger amount is never zero. */
  predicate ValidLedgerAmount(amount: int) {
    amount != 0
  }
}

/** Field validators of the charge serializers (charge/serializers.py). */
module ChargeSerializers {
  import opened Base
  import opened ChargeModels

  /** PhoneNumberSerializer.validate_number on the trimmed number
      (`str.isdigit`, read as ASCII digits; a blank number is refused before
      it), with the model's max_length. */
  predicate ValidNumber(number: string) {
    && 0 < |number| <= MaxNumberLength
    && forall i | 0 <= i < |number| :: IsDigit(number[i])
  }

  /** `transaction_uuid`, once trimmed, is a required, non-blank
      CharField(max_length=255) without NUL characters. */
  predicate ValidUuid(uuid: string) {
    0 < |uuid| <= MaxUuidLength && NoNul(uuid)
  }

  /** ChargeSaleSerializer.validate_amount, with the DecimalField's own
      digit limit. */
  predicate ValidChargeAmount(amount: int) {
    0 < amount <= MaxMoney
  }
}
