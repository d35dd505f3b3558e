/** The ticket verification page (app/verify/page.tsx): a text field, a
    submit button, and a mock check that accepts any ticket number with the
    `TKT-` prefix. The page's 1.5-second delay is split into the step that
    starts a verification and the step that completes it. */
module VerifyPage {
  import opened Wrappers
  import opened Strings
  import Checkout

  const TicketPrefix := "TKT-"
  const ValidMessage := "Ticket is valid and confirmed"
  const NotFoundMessage := "Invalid ticket number format or ticket not found"

  /** The details the mock check reports for every accepted number. */
  const SampleTitle := "Summer Music Festival 2024"
  const SampleArtist := "The Electric Waves"
  const SampleDate := "Saturday, July 20, 2024"
  const SampleVenue := "Madison Square Garden"
  const SampleType := "VIP"
  const SampleHolder := "John Doe"
  const ConfirmedStatus := "confirmed"

  datatype TicketDetails = TicketDetails(
    id: string,
    concertTitle: string,
    artist: string,
    date: string,
    venue: string,
    ticketType: string,
    holderName: string,
    paymentStatus: string)

  /** `VerificationResult`: a flag, the ticket (only when valid) and a message. */
  datatype VerificationResult = VerificationResult(valid: bool, ticket: Option<TicketDetails>, message: string)

  /** The page's three pieces of state. */
  datatype VerifyState = VerifyState(ticketNumber: string, result: Option<VerificationResult>, isLoading: bool)

  const Initial := VerifyState("", None, false)

  /** The timer callback's decision for the number that was submitted. */
  function Verdict(ticketNumber: string): (r: VerificationResult)
    ensures r.valid <==> TicketPrefix <= ticketNumber
    ensures r.valid <==> r.ticket.Some?
    ensures r.valid ==> r.ticket == Some(TicketDetails(ticketNumber, SampleTitle, SampleArtist, SampleDate, SampleVenue,
                                                       SampleType, SampleHolder, ConfirmedStatus))
    ensures r.message == if r.valid then ValidMessage else NotFoundMessage
  {
    if TicketPrefix <= ticketNumber then
      VerificationResult(true,
        Some(TicketDetails(ticketNumber, SampleTitle, SampleArtist, SampleDate, SampleVenue,
                           SampleType, SampleHolder, ConfirmedStatus)),
        ValidMessage)
    else
      VerificationResult(false, None, NotFoundMessage)
  }

  /** The submit button is enabled for a non-blank number while no check is
      running. */
  predicate SubmitEnabled(s: VerifyState) {
    !IsBlank(s.ticketNumber) && !s.isLoading
  }

  /** The synchronous part of `verifyTicket()`: a blank number changes
      nothing; any other starts loading and leaves the shown result alone. */
  function StartVerification(s: VerifyState): (r: VerifyState)
    ensures IsBlank(s.ticketNumber) ==> r == s
    ensures !IsBlank(s.ticketNumber) ==> r.isLoading && r.ticketNumber == s.ticketNumber && r.result == s.result
  {
    if IsBlank(s.ticketNumber) then s else s.(isLoading := true)
  }

  /** The timer firing: the verdict for the number captured when the check
      started is shown and loading stops; the field keeps whatever it holds
      now. */
  function FinishVerification(s: VerifyState, submitted: string): (r: VerifyState)
    ensures !r.isLoading && r.ticketNumber == s.ticketNumber
    ensures r.result.Some? && (r.result.value.valid <==> TicketPrefix <= submitted)
  {
    s.(result := Some(Verdict(submitted)), isLoading := false)
  }

  /** Typing into the field replaces the number and nothing else. */
  function EditNumber(s: VerifyState, value: string): (r: VerifyState)
    ensures r.ticketNumber == value && r.result == s.result && r.isLoading == s.isLoading
  {
    s.(ticketNumber := value)
  }

  /** A submission the button allows always starts a check, and a completed
      check on the same number reports exactly the verdict for it. */
  lemma EnabledSubmissionVerifies(s: VerifyState)
    requires SubmitEnabled(s)
    ensures StartVerification(s).isLoading
    ensures FinishVerification(StartVerification(s), s.ticketNumber).result == Some(Verdict(s.ticketNumber))
    ensures SubmitEnabled(FinishVerification(StartVerification(s), s.ticketNumber))
  {
  }

  /** The rule looks only at the prefix: a valid number stays valid with
      anything appended. */
  lemma ValidityIsPrefixClosed(ticketNumber: string, more: string)
    requires Verdict(ticketNumber).valid
    ensures Verdict(ticketNumber + more).valid
  {
    assert (ticketNumber + more)[..|TicketPrefix|] == ticketNumber[..|TicketPrefix|];
  }

  /** The number is not trimmed before the prefix test: a leading space
      makes an otherwise valid number invalid. */
  lemma LeadingSpaceIsInvalid()
    ensures Verdict("TKT-1").valid
    ensures !Verdict(" TKT-1").valid
  {
    assert !(TicketPrefix <= " TKT-1") by {
      assert " TKT-1"[0] != TicketPrefix[0];
    }
  }

  /** Every ticket the checkout page issues passes the check. */
  lemma IssuedTicketsVerify(tk: Checkout.Ticket, issue: Checkout.Issue)
    requires Checkout.IssuedFor(tk, issue)
    ensures Verdict(tk.id).valid
    ensures Verdict(tk.id).ticket == Some(TicketDetails(tk.id, SampleTitle, SampleArtist, SampleDate, SampleVenue,
                                                       SampleType, SampleHolder, ConfirmedStatus))
  {
  }
}
