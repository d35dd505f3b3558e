/** The ticket list shown after checkout (components/ticket-display.tsx):
    the payment-status badge drawn on a downloaded ticket, the badge on each
    ticket card, the download file name, and the link behind the
    "Complete Payment" button. */
module TicketDisplay {
  import opened Wrappers
  import opened Strings
  import PaymentTypes
  import PaymentActions
  import UserInfoForm
  import Checkout

  /** The two states the downloaded ticket's badge can show. */
  datatype Badge = Paid | Pending
  {
    /** The badge's text, text colour and background colour. */
    function Text(): string {
      if Paid? then "PAID" else "PENDING"
    }

    function Color(): string {
      if Paid? then "#059669" else "#d97706"
    }

    function Background(): string {
      if Paid? then "#d1fae5" else "#fef3c7"
    }
  }

  /** `paymentStatus?.toLowerCase()` compared with `"completed"` and
      `"paid"`; a missing status compares unequal to both. */
  function PaymentBadge(status: Option<string>): (b: Badge)
    ensures status.None? ==> b == Pending
    ensures status.Some? ==> (b == Paid <==> ToLower(status.value) in {"completed", "paid"})
  {
    match status
    case None => Pending
    case Some(s) =>
      var lower := ToLower(s);
      if lower == "completed" || lower == "paid" then Paid else Pending
  }

  /** Statuses that differ only in letter case get the same badge. */
  lemma CaseInsensitive(s: string, t: string)
    requires ToLower(s) == ToLower(t)
    ensures PaymentBadge(Some(s)) == PaymentBadge(Some(t))
  {
  }

  /** `"Paid"`, `"PAID"` and `"paid"` are all paid; so is `"Completed"`. */
  lemma PaidSpellings()
    ensures PaymentBadge(Some("Paid")) == Paid
    ensures PaymentBadge(Some("PAID")) == Paid
    ensures PaymentBadge(Some("paid")) == Paid
    ensures PaymentBadge(Some("Completed")) == Paid
  {
    assert ToLower("Paid") == "paid";
    assert ToLower("PAID") == "paid";
    assert ToLower("paid") == "paid";
    assert ToLower("Completed") == "completed";
  }

  /** The card badge's `variant` and `className`: only the exact text
      `"pending"` gets the pending look. */
  datatype CardBadge = CardBadge(variant: string, className: string)

  function CardBadgeFor(status: string): (r: CardBadge)
    ensures r.variant == "secondary" <==> status == "pending"
    ensures r.className != "" <==> status == "pending"
  {
    if status == "pending" then CardBadge("secondary", "bg-yellow-100 text-yellow-800")
    else CardBadge("default", "")
  }

  /** The card badge, unlike the drawn one, is case-sensitive: `"Pending"`
      is drawn as pending but its card does not get the pending look. */
  lemma CardBadgeIsCaseSensitive()
    ensures PaymentBadge(Some("Pending")) == Pending
    ensures CardBadgeFor("Pending").variant == "default"
  {
  }

  /** A freshly issued ticket is drawn as pending and its card gets the
      pending look. */
  lemma IssuedTicketsArePending(tickets: seq<Checkout.Ticket>, issue: Checkout.Issue)
    requires forall tk <- tickets :: Checkout.IssuedFor(tk, issue)
    ensures forall tk <- tickets :: PaymentBadge(Some(tk.paymentStatus)) == Pending
    ensures forall tk <- tickets :: CardBadgeFor(tk.paymentStatus) == CardBadge("secondary", "bg-yellow-100 text-yellow-800")
  {
    assert ToLower("pending") == "pending";
  }

  /* ------------------------------------------------------ download name */

  /** `${concertTitle.replace(/\s+/g, '-')}-ticket-${id}.png`. */
  function DownloadName(tk: Checkout.Ticket): string {
    HyphenateSpaces(tk.concertTitle) + "-ticket-" + tk.id + ".png"
  }

  /** The file name starts with a whitespace-free form of the title, no
      longer than the title and equal to it when the title has no
      whitespace, and ends with the ticket's id and `.png`. */
  lemma DownloadNameShape(tk: Checkout.Ticket) returns (titlePart: string)
    ensures DownloadName(tk) == titlePart + "-ticket-" + tk.id + ".png"
    ensures NoSpace(titlePart) && |titlePart| <= |tk.concertTitle|
    ensures NoSpace(tk.concertTitle) ==> titlePart == tk.concertTitle
    ensures NoSpace(tk.id) ==> NoSpace(DownloadName(tk))
  {
    titlePart := HyphenateSpaces(tk.concertTitle);
    HyphenateSpacesShape(tk.concertTitle);
    var name := DownloadName(tk);
    if NoSpace(tk.id) {
      assert NoSpace("-ticket-") && NoSpace(".png");
      forall i | 0 <= i < |name| ensures !IsSpace(name[i]) {
        if i < |titlePart| {
          assert name[i] == titlePart[i];
        } else if i < |titlePart| + 8 {
          assert name[i] == "-ticket-"[i - |titlePart|];
        } else if i < |titlePart| + 8 + |tk.id| {
          assert name[i] == tk.id[i - |titlePart| - 8];
        } else {
          assert name[i] == ".png"[i - |titlePart| - 8 - |tk.id|];
        }
      }
    }
  }

  /** A run of several spaces becomes one hyphen, like a single space. */
  lemma SpaceRunsCollapse(a: string, b: string)
    requires a != [] && NoSpace(a) && b != [] && NoSpace(b)
    ensures HyphenateSpaces(a + "   " + b) == HyphenateSpaces(a + " " + b) == a + "-" + b
  {
    assert AllSpace("   ") && AllSpace(" ");
    HyphenateRun(a, "   ", b);
    HyphenateRun(a, " ", b);
    HyphenateSpacesShape(a);
    HyphenateSpacesShape(b);
  }

  /* ------------------------------------------------------- payment link */

  /** `tickets[0]?.paymentLink`: absent for an empty list. */
  function PaymentLink(tickets: seq<Checkout.Ticket>): (r: Option<string>)
    ensures r.Some? <==> tickets != []
  {
    if tickets == [] then None else Some(tickets[0].paymentLink)
  }

  /** For the tickets of one order the button opens the order's payment
      link, which is every ticket's link. */
  lemma SharedPaymentLink(tickets: seq<Checkout.Ticket>, issue: Checkout.Issue)
    requires tickets != []
    requires forall tk <- tickets :: Checkout.IssuedFor(tk, issue)
    ensures PaymentLink(tickets) == Some(issue.paymentLink)
    ensures forall tk <- tickets :: PaymentLink(tickets) == Some(tk.paymentLink)
  {
    assert tickets[0] in tickets;
  }

  /** Whatever the page shows after a payment, the button opens the
      gateway's `redirect_url`. */
  lemma ShownTicketsOpenRedirect(
    sel: Checkout.Selection, order: PaymentTypes.PaymentOrderRequest, buyer: UserInfoForm.FormData,
    entropy: Checkout.Entropy, reply: Option<PaymentActions.ActionResult>)
    requires Checkout.AfterPayment(sel, order, buyer, entropy, reply).ShowTickets?
    requires Checkout.AfterPayment(sel, order, buyer, entropy, reply).tickets != []
    ensures PaymentLink(Checkout.AfterPayment(sel, order, buyer, entropy, reply).tickets) == Some(reply.value.redirect_url)
  {
    var shown := Checkout.AfterPayment(sel, order, buyer, entropy, reply);
    SharedPaymentLink(shown.tickets, Checkout.Issue(order.id, buyer, reply.value.redirect_url, entropy));
  }
}
