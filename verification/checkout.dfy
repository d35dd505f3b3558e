/** The storefront page (app/page.tsx): the ticket catalogue, the ordered
    selection of quantities per ticket type with its +/- controls and totals,
    the order built from the selection and the buyer's details, and the
    ticket records created once the gateway has accepted the order.

    A selection is a sequence of entries in the order `Object.entries` lists
    the keys of the page's selection object (insertion order: the ticket ids
    are not integer-like). Clock readings and random suffixes come in as an
    `Entropy` value. */
module Checkout {
  import opened Wrappers
  import opened Strings
  import opened PaymentTypes
  import opened PaymentService
  import opened PaymentActions
  import opened UserInfoForm

  datatype TicketType = TicketType(id: string, name: string, price: int, description: string, available: int)

  const TicketTypes: seq<TicketType> := [
    TicketType("regular", "Regular", 10000, "General admission with standard seating", 500),
    TicketType("vip", "VIP", 100000, "Premium seating, meet & greet, exclusive merchandise", 100),
    TicketType("gate", "At Gate", 15000, "Purchase at venue entrance (subject to availability)", 50)
  ]

  const ConcertTitle := "Summer Music Festival 2024"
  const ConcertArtist := "The Electric Waves"
  const ConcertDate := "Saturday, July 20, 2024"
  const ConcertTime := "7:00 PM - 11:00 PM"
  const ConcertVenue := "Madison Square Garden"
  const ConcertLocation := "New York, NY"

  const Currency := "UGX"
  const CountryCode := "UG"
  const Branch := "Concert Tickets"
  const DefaultAddressLine := "Kampala, Uganda"
  const CallbackPath := "/payment/callback"
  const PaymentFailedFallback := "Payment processing failed"
  /** The page's own text for a server-action call that rejects. */
  const PageUnexpectedMessage := "An unexpected error occurred. Please try again."

  /* ---------------------------------------------------------- catalogue */

  function FindIn(types: seq<TicketType>, id: string): (r: Option<TicketType>)
    ensures r.Some? ==> r.value in types && r.value.id == id
    ensures r.None? <==> forall t <- types :: t.id != id
  {
    if types == [] then None
    else if types[0].id == id then Some(types[0])
    else FindIn(types[1..], id)
  }

  /** `ticketTypes.find(t => t.id === id)`, unrolled over the three types. */
  function FindType(id: string): Option<TicketType> {
    if id == TicketTypes[0].id then Some(TicketTypes[0])
    else if id == TicketTypes[1].id then Some(TicketTypes[1])
    else if id == TicketTypes[2].id then Some(TicketTypes[2])
    else None
  }

  /** The unrolled lookup is the first-match search over the catalogue. */
  lemma FindTypeIsFind(id: string)
    ensures FindType(id) == FindIn(TicketTypes, id)
  {
    assert TicketTypes[1..][1..][1..] == [];
  }

  /** The price of one ticket of the type `id`; an unknown id is worth 0. */
  function UnitPrice(id: string): int {
    match FindType(id)
    case Some(t) => t.price
    case None => 0
  }

  /** Every catalogue price lies between the regular and the VIP price. */
  lemma CataloguePrices(id: string)
    ensures FindType(id).Some? ==> 10000 <= UnitPrice(id) <= 100000
    ensures FindType(id).None? ==> UnitPrice(id) == 0
  {
  }

  /* ---------------------------------------------------------- selection */

  datatype Entry = Entry(ticketId: string, quantity: int)

  type Selection = seq<Entry>

  /** `id` is one of the selection's keys. */
  predicate Lists(sel: Selection, id: string) {
    sel != [] && (sel[0].ticketId == id || Lists(sel[1..], id))
  }

  /** One entry per key, as in a JavaScript object. */
  predicate DistinctIds(sel: Selection) {
    sel == [] || (!Lists(sel[1..], sel[0].ticketId) && DistinctIds(sel[1..]))
  }

  predicate Positive(sel: Selection) {
    forall i :: 0 <= i < |sel| ==> sel[i].quantity >= 1
  }

  /** What the page's updates maintain: one entry per id, none of them zero. */
  predicate WellFormed(sel: Selection) {
    DistinctIds(sel) && Positive(sel)
  }

  /** `selectedTickets[id] || 0`. */
  function Quantity(sel: Selection, id: string): int {
    if sel == [] then 0
    else if sel[0].ticketId == id then sel[0].quantity
    else Quantity(sel[1..], id)
  }

  lemma {:induction false} UnlistedQuantity(sel: Selection, id: string)
    requires !Lists(sel, id)
    ensures Quantity(sel, id) == 0
  {
    if sel != [] {
      UnlistedQuantity(sel[1..], id);
    }
  }

  /** In a selection of positive quantities, a listed id has a positive quantity. */
  lemma {:induction false} ListedQuantity(sel: Selection, id: string)
    requires Positive(sel) && Lists(sel, id)
    ensures Quantity(sel, id) >= 1
  {
    if sel[0].ticketId != id {
      ListedQuantity(sel[1..], id);
    }
  }

  /** `const { [id]: removed, ...rest } = prev`: every entry for `id` goes,
      the rest keep their order (`RemoveQuantity` and `RemoveLists` state
      what remains). */
  function Remove(sel: Selection, id: string): Selection {
    if sel == [] then []
    else if sel[0].ticketId == id then Remove(sel[1..], id)
    else [sel[0]] + Remove(sel[1..], id)
  }

  /** `{ ...prev, [id]: q }`: an existing key keeps its place and takes the
      new value; a new key goes last. */
  function Put(sel: Selection, id: string, q: int): Selection {
    if sel == [] then [Entry(id, q)]
    else if sel[0].ticketId == id then [Entry(id, q)] + sel[1..]
    else [sel[0]] + Put(sel[1..], id, q)
  }

  lemma {:induction false} RemoveQuantity(sel: Selection, id: string, other: string)
    ensures Quantity(Remove(sel, id), other) == if other == id then 0 else Quantity(sel, other)
  {
    if sel != [] {
      RemoveQuantity(sel[1..], id, other);
    }
  }

  lemma {:induction false} RemoveLists(sel: Selection, id: string, other: string)
    ensures Lists(Remove(sel, id), other) <==> Lists(sel, other) && other != id
  {
    if sel != [] {
      RemoveLists(sel[1..], id, other);
    }
  }

  /** Removing an id that is not listed changes nothing. */
  lemma {:induction false} RemoveAbsent(sel: Selection, id: string)
    requires !Lists(sel, id)
    ensures Remove(sel, id) == sel
  {
    if sel != [] {
      RemoveAbsent(sel[1..], id);
    }
  }

  /** Putting an id that is not listed appends it as the last entry. */
  lemma {:induction false} PutAbsent(sel: Selection, id: string, q: int)
    requires !Lists(sel, id)
    ensures Put(sel, id, q) == sel + [Entry(id, q)]
  {
    if sel != [] {
      PutAbsent(sel[1..], id, q);
      assert sel == [sel[0]] + sel[1..];
    }
  }

  lemma {:induction false} RemoveWellFormed(sel: Selection, id: string)
    requires WellFormed(sel)
    ensures WellFormed(Remove(sel, id))
  {
    if sel != [] {
      assert Positive(sel[1..]) by {
        forall i | 0 <= i < |sel| - 1 ensures sel[1..][i].quantity >= 1 {
          assert sel[1..][i] == sel[i + 1];
        }
      }
      RemoveWellFormed(sel[1..], id);
      if sel[0].ticketId != id {
        RemoveLists(sel[1..], id, sel[0].ticketId);
        var r := [sel[0]] + Remove(sel[1..], id);
        assert r[1..] == Remove(sel[1..], id);
        forall i | 0 <= i < |r| ensures r[i].quantity >= 1 {
          if i > 0 {
            assert r[i] == r[1..][i - 1];
          }
        }
      }
    }
  }

  lemma {:induction false} PutQuantity(sel: Selection, id: string, q: int, other: string)
    ensures Quantity(Put(sel, id, q), other) == if other == id then q else Quantity(sel, other)
  {
    if sel != [] && sel[0].ticketId != id {
      PutQuantity(sel[1..], id, q, other);
    }
  }

  lemma {:induction false} PutLists(sel: Selection, id: string, q: int, other: string)
    ensures Lists(Put(sel, id, q), other) <==> Lists(sel, other) || other == id
  {
    if sel != [] && sel[0].ticketId != id {
      PutLists(sel[1..], id, q, other);
    }
  }

  lemma {:induction false} PutWellFormed(sel: Selection, id: string, q: int)
    requires WellFormed(sel) && q >= 1
    ensures WellFormed(Put(sel, id, q))
  {
    if sel != [] {
      assert Positive(sel[1..]) by {
        forall i | 0 <= i < |sel| - 1 ensures sel[1..][i].quantity >= 1 {
          assert sel[1..][i] == sel[i + 1];
        }
      }
      var r := Put(sel, id, q);
      if sel[0].ticketId == id {
        assert r[1..] == sel[1..];
      } else {
        PutWellFormed(sel[1..], id, q);
        PutLists(sel[1..], id, q, sel[0].ticketId);
        assert r[1..] == Put(sel[1..], id, q);
      }
      forall i | 0 <= i < |r| ensures r[i].quantity >= 1 {
        if i > 0 {
          assert r[i] == r[1..][i - 1];
        }
      }
    }
  }

  /** Over distinct ids, putting and then removing `id` is removing it. */
  lemma {:induction false} PutThenRemove(sel: Selection, id: string, q: int)
    requires DistinctIds(sel)
    ensures Remove(Put(sel, id, q), id) == Remove(sel, id)
  {
    if sel != [] {
      if sel[0].ticketId == id {
        RemoveAbsent(sel[1..], id);
      } else {
        PutThenRemove(sel[1..], id, q);
      }
    }
  }

  function Max(a: int, b: int): int {
    if a >= b then a else b
  }

  /** `updateTicketQuantity(id, change)`: the quantity for `id` becomes
      `max(0, current + change)`, and an entry that reaches 0 is deleted; no
      other id's quantity changes, the other entries keep their order, and
      one positive entry per id is maintained. */
  function UpdateTicketQuantity(sel: Selection, id: string, change: int): (r: Selection)
    ensures Quantity(r, id) == Max(0, Quantity(sel, id) + change)
    ensures forall other | other != id :: Quantity(r, other) == Quantity(sel, other)
    ensures Lists(r, id) <==> Max(0, Quantity(sel, id) + change) != 0
    ensures !Lists(sel, id) && change > 0 ==> r == sel + [Entry(id, change)]
    ensures DistinctIds(sel) ==> Remove(r, id) == Remove(sel, id)
    ensures WellFormed(sel) ==> WellFormed(r)
  {
    assert !Lists(sel, id) ==> Quantity(sel, id) == 0 by {
      if !Lists(sel, id) {
        UnlistedQuantity(sel, id);
      }
    }
    var newQuantity := Max(0, Quantity(sel, id) + change);
    if newQuantity == 0 then
      var r := Remove(sel, id);
      RemoveQuantity(sel, id, id);
      RemoveLists(sel, id, id);
      assert forall other | other != id :: Quantity(r, other) == Quantity(sel, other) by {
        forall other | other != id ensures Quantity(r, other) == Quantity(sel, other) {
          RemoveQuantity(sel, id, other);
        }
      }
      RemoveAbsent(r, id);
      assert WellFormed(sel) ==> WellFormed(r) by {
        if WellFormed(sel) {
          RemoveWellFormed(sel, id);
        }
      }
      r
    else
      var r := Put(sel, id, newQuantity);
      assert !Lists(sel, id) && change > 0 ==> r == sel + [Entry(id, change)] by {
        if !Lists(sel, id) && change > 0 {
          PutAbsent(sel, id, newQuantity);
        }
      }
      PutQuantity(sel, id, newQuantity, id);
      PutLists(sel, id, newQuantity, id);
      assert forall other | other != id :: Quantity(r, other) == Quantity(sel, other) by {
        forall other | other != id ensures Quantity(r, other) == Quantity(sel, other) {
          PutQuantity(sel, id, newQuantity, other);
        }
      }
      assert DistinctIds(sel) ==> Remove(r, id) == Remove(sel, id) by {
        if DistinctIds(sel) {
          PutThenRemove(sel, id, newQuantity);
        }
      }
      assert WellFormed(sel) ==> WellFormed(r) by {
        if WellFormed(sel) {
          PutWellFormed(sel, id, newQuantity);
        }
      }
      r
  }

  /* ----------------------------------------------------------- controls */

  /** A press of one of the two buttons beside a ticket type. */
  datatype Press = Minus(ticket: TicketType) | Plus(ticket: TicketType)

  /** The minus button is disabled while the type has no (truthy) quantity. */
  predicate MinusEnabled(sel: Selection, t: TicketType) {
    Quantity(sel, t.id) != 0
  }

  /** The plus button is disabled once the quantity reaches what is available. */
  predicate PlusEnabled(sel: Selection, t: TicketType) {
    !(Quantity(sel, t.id) >= t.available)
  }

  /** What a press does: a disabled button does nothing. */
  function Click(sel: Selection, p: Press): Selection {
    match p
    case Minus(t) => if MinusEnabled(sel, t) then UpdateTicketQuantity(sel, t.id, -1) else sel
    case Plus(t) => if PlusEnabled(sel, t) then UpdateTicketQuantity(sel, t.id, 1) else sel
  }

  /** The selection after a sequence of presses on the catalogue's buttons,
      starting from the empty selection. */
  function Clicks(presses: seq<Press>): Selection {
    if presses == [] then []
    else Click(Clicks(presses[..|presses| - 1]), presses[|presses| - 1])
  }

  /** How many tickets of the type `id` are available; none of an unknown id. */
  function Available(id: string): int {
    match FindType(id)
    case Some(t) => t.available
    case None => 0
  }

  /** One positive entry per id, none above what is available. */
  ghost predicate InStock(sel: Selection) {
    WellFormed(sel) && forall id :: Quantity(sel, id) <= Available(id)
  }

  /** In an in-stock selection every listed id is a catalogue type, with a
      quantity from 1 to what that type has available. */
  lemma InStockBounds(sel: Selection, id: string)
    requires InStock(sel) && Lists(sel, id)
    ensures FindType(id).Some?
    ensures 1 <= Quantity(sel, id) <= FindType(id).value.available
  {
    ListedQuantity(sel, id);
    assert Quantity(sel, id) <= Available(id);
  }

  /** A press on a catalogue button keeps the selection in stock. */
  lemma ClickInStock(sel: Selection, p: Press)
    requires InStock(sel)
    requires p.ticket in TicketTypes
    ensures InStock(Click(sel, p))
  {
    var t := p.ticket;
    assert FindType(t.id) == Some(t) by {
      assert t == TicketTypes[0] || t == TicketTypes[1] || t == TicketTypes[2];
    }
    var r := Click(sel, p);
    forall id ensures Quantity(r, id) <= Available(id) {
      assert Quantity(sel, id) <= Available(id);
    }
  }

  /** Every selection the buttons can produce is in stock. */
  lemma {:induction false} ReachableInStock(presses: seq<Press>)
    requires forall p <- presses :: p.ticket in TicketTypes
    ensures InStock(Clicks(presses))
  {
    if presses == [] {
      forall id ensures Quantity([], id) <= Available(id) {
        CatalogueAvailability(id);
      }
    } else {
      var front := presses[..|presses| - 1];
      assert forall p <- front :: p in presses;
      ReachableInStock(front);
      ClickInStock(Clicks(front), presses[|presses| - 1]);
    }
  }

  lemma CatalogueAvailability(id: string)
    ensures Available(id) >= 0
  {
  }

  /* ------------------------------------------------------------- totals */

  /** The `reduce` over the entries, weighting each quantity by `unit(id)`. */
  function Total(sel: Selection, unit: string -> int): int {
    if sel == [] then 0 else unit(sel[0].ticketId) * sel[0].quantity + Total(sel[1..], unit)
  }

  function OneEach(id: string): int {
    1
  }

  /** `getTotalTickets()`. */
  function TotalTickets(sel: Selection): int {
    Total(sel, OneEach)
  }

  /** `getTotalPrice()`: unknown ids contribute nothing. */
  function TotalPrice(sel: Selection): int {
    Total(sel, UnitPrice)
  }

  /** Over distinct ids, a total splits into the entry for `id` and the rest. */
  lemma {:induction false} TotalWithout(sel: Selection, id: string, unit: string -> int)
    requires DistinctIds(sel)
    ensures Total(sel, unit) == Total(Remove(sel, id), unit) + unit(id) * Quantity(sel, id)
  {
    if sel != [] {
      TotalWithout(sel[1..], id, unit);
      if sel[0].ticketId == id {
        RemoveAbsent(sel[1..], id);
        UnlistedQuantity(sel[1..], id);
      }
    }
  }

  /** An update moves each total by the unit weight of the id times the
      change in its quantity. */
  lemma TotalAfterUpdate(sel: Selection, id: string, change: int, unit: string -> int)
    requires DistinctIds(sel)
    ensures Total(UpdateTicketQuantity(sel, id, change), unit)
         == Total(sel, unit) + unit(id) * (Max(0, Quantity(sel, id) + change) - Quantity(sel, id))
  {
    UpdateKeepsDistinct(sel, id, change);
    TotalAfterChange(sel, UpdateTicketQuantity(sel, id, change), id, unit, Max(0, Quantity(sel, id) + change));
  }

  /** Two distinct-id selections that agree except on `id` have totals that
      differ by the weight of `id` times the change in its quantity. */
  lemma TotalAfterChange(sel: Selection, r: Selection, id: string, unit: string -> int, after: int)
    requires DistinctIds(sel) && DistinctIds(r) && Remove(r, id) == Remove(sel, id)
    requires Quantity(r, id) == after
    ensures Total(r, unit) == Total(sel, unit) + unit(id) * (after - Quantity(sel, id))
  {
    TotalWithout(sel, id, unit);
    TotalWithout(r, id, unit);
    Shift(Total(Remove(sel, id), unit), unit(id), after, Quantity(sel, id), Total(r, unit), Total(sel, unit));
  }

  /** Two totals sharing a base differ by the weight times the change. */
  lemma Shift(base: int, u: int, a: int, b: int, x: int, y: int)
    requires x == base + u * a && y == base + u * b
    ensures x == y + u * (a - b)
  {
    Distribute(u, a, b);
  }

  /** An update keeps the ids distinct and leaves the other entries as they
      were. */
  lemma UpdateKeepsDistinct(sel: Selection, id: string, change: int)
    requires DistinctIds(sel)
    ensures var r := UpdateTicketQuantity(sel, id, change);
      && DistinctIds(r)
      && Remove(r, id) == Remove(sel, id)
      && Quantity(r, id) == Max(0, Quantity(sel, id) + change)
  {
    var newQuantity := Max(0, Quantity(sel, id) + change);
    if newQuantity == 0 {
      RemoveDistinct(sel, id);
    } else {
      PutDistinct(sel, id, newQuantity);
    }
  }

  lemma {:induction false} RemoveDistinct(sel: Selection, id: string)
    requires DistinctIds(sel)
    ensures DistinctIds(Remove(sel, id))
  {
    if sel != [] {
      RemoveDistinct(sel[1..], id);
      RemoveLists(sel[1..], id, sel[0].ticketId);
      assert sel[0].ticketId != id ==> ([sel[0]] + Remove(sel[1..], id))[1..] == Remove(sel[1..], id);
    }
  }

  lemma {:induction false} PutDistinct(sel: Selection, id: string, q: int)
    requires DistinctIds(sel)
    ensures DistinctIds(Put(sel, id, q))
  {
    if sel != [] {
      if sel[0].ticketId == id {
        assert ([Entry(id, q)] + sel[1..])[1..] == sel[1..];
      } else {
        PutDistinct(sel[1..], id, q);
        PutLists(sel[1..], id, q, sel[0].ticketId);
        assert ([sel[0]] + Put(sel[1..], id, q))[1..] == Put(sel[1..], id, q);
      }
    }
  }

  /** A well-formed selection has tickets exactly when it has an entry. */
  lemma {:induction false} TicketsIffEntries(sel: Selection)
    requires WellFormed(sel)
    ensures TotalTickets(sel) >= |sel|
    ensures TotalTickets(sel) > 0 <==> sel != []
  {
    if sel != [] {
      assert sel[0].quantity >= 1;
      assert WellFormed(sel[1..]) by {
        forall i | 0 <= i < |sel| - 1 ensures sel[1..][i].quantity >= 1 {
          assert sel[1..][i] == sel[i + 1];
        }
      }
      TicketsIffEntries(sel[1..]);
    }
  }

  lemma Distribute(u: int, a: int, b: int)
    ensures u * a == u * b + u * (a - b)
  {
  }

  lemma MulMonotone(a: int, b: int, c: int)
    requires a <= b && c >= 0
    ensures a * c <= b * c
  {
  }

  /** The tail of an in-stock selection is in stock. */
  lemma InStockTail(sel: Selection)
    requires InStock(sel) && sel != []
    ensures InStock(sel[1..])
  {
    assert Positive(sel[1..]) by {
      forall i | 0 <= i < |sel| - 1 ensures sel[1..][i].quantity >= 1 {
        assert sel[1..][i] == sel[i + 1];
      }
    }
    forall id ensures Quantity(sel[1..], id) <= Available(id) {
      assert Quantity(sel, id) <= Available(id);
      if id == sel[0].ticketId {
        UnlistedQuantity(sel[1..], id);
        CatalogueAvailability(id);
      }
    }
  }

  /** The price of an in-stock selection lies between the regular and the VIP
      price per ticket. */
  lemma {:induction false} PriceBounds(sel: Selection)
    requires InStock(sel)
    ensures 10000 * TotalTickets(sel) <= TotalPrice(sel) <= 100000 * TotalTickets(sel)
  {
    if sel != [] {
      var e := sel[0];
      InStockTail(sel);
      PriceBounds(sel[1..]);
      InStockBounds(sel, e.ticketId);
      CataloguePrices(e.ticketId);
      MulMonotone(10000, UnitPrice(e.ticketId), e.quantity);
      MulMonotone(UnitPrice(e.ticketId), 100000, e.quantity);
    }
  }

  /** `handleProceedToCheckout()`: the buyer form opens only when at least
      one ticket is selected; otherwise nothing changes. */
  function ProceedToCheckout(sel: Selection, showUserForm: bool): (r: bool)
    ensures !showUserForm ==> (r <==> TotalTickets(sel) > 0)
    ensures showUserForm ==> r
  {
    if TotalTickets(sel) > 0 then true else showUserForm
  }

  /** From the selection screen, the form opens exactly when the selection
      has an entry. */
  lemma CheckoutNeedsTickets(sel: Selection)
    requires WellFormed(sel)
    ensures ProceedToCheckout(sel, false) <==> sel != []
  {
    TicketsIffEntries(sel);
  }

  /* -------------------------------------------------------- description */

  /** `ticket?.name || ticketId`. */
  function DisplayName(id: string): string {
    var t := FindType(id);
    if t.Some? && t.value.name != "" then t.value.name else id
  }

  /** `${quantity}x ${name}`. */
  function SummaryItem(e: Entry): string {
    IntToString(e.quantity) + "x " + DisplayName(e.ticketId)
  }

  /** One summary item per entry, in selection order. */
  function SummaryItems(sel: Selection): seq<string> {
    seq(|sel|, i requires 0 <= i < |sel| => SummaryItem(sel[i]))
  }

  /** `generateTicketDescription()`. */
  function Description(sel: Selection): string {
    ConcertTitle + " - " + Join(", ", SummaryItems(sel))
  }

  /** The description names every entry, as `<quantity>x <name>`. */
  lemma DescriptionMentions(sel: Selection, i: int)
    requires 0 <= i < |sel|
    ensures Contains(Description(sel), SummaryItem(sel[i]))
  {
    JoinMentions(ConcertTitle + " - ", ", ", SummaryItems(sel), i);
  }

  /** A single entry is described after the concert's title and a dash.
      With `DescriptionExtends` this fixes the description of every
      non-empty selection. */
  lemma DescriptionOfOne(e: Entry)
    ensures Description([e]) == ConcertTitle + " - " + SummaryItem(e)
  {
    assert SummaryItems([e]) == [SummaryItem(e)];
  }

  /** The entries are described in selection order: a later entry is
      described after the earlier ones, separated by a comma. */
  lemma DescriptionExtends(sel: Selection, e: Entry)
    requires sel != []
    ensures Description(sel + [e]) == Description(sel) + ", " + SummaryItem(e)
  {
    assert SummaryItems(sel + [e]) == SummaryItems(sel) + [SummaryItem(e)];
    JoinAppend(", ", SummaryItems(sel), SummaryItem(e));
  }

  /** Two VIP tickets are described as `Summer Music Festival 2024 - 2x VIP`. */
  lemma DescriptionOfTwoVip()
    ensures Description([Entry("vip", 2)]) == "Summer Music Festival 2024 - 2x VIP"
  {
    assert FindType("vip") == Some(TicketTypes[1]);
    assert DisplayName("vip") == "VIP";
    assert IntToString(2) == "2" by {
      assert NatToString(2) == [DigitChar(2)];
    }
    assert SummaryItem(Entry("vip", 2)) == "2x VIP";
    assert SummaryItems([Entry("vip", 2)]) == ["2x VIP"];
  }

  /* ---------------------------------------------------------- the order */

  /** `name.split(' ')[0] || name` and `name.split(' ').slice(1).join(' ') || name`. */
  function SplitName(name: string): (string, string) {
    var parts := Split(name, ' ');
    var first := if parts[0] != "" then parts[0] else name;
    var rest := Join(" ", parts[1..]);
    (first, if rest != "" then rest else name)
  }

  /** A name without a space is used as both first and last name. */
  lemma SingleWordName(name: string)
    requires ' ' !in name
    ensures SplitName(name) == (name, name)
  {
    SplitWithout(name, ' ');
  }

  /** When the text before the first space and the text after it are both
      non-empty, the two names put back together with a space give the
      original; the first name never holds a space. */
  lemma NameSplitRejoins(name: string)
    requires var parts := Split(name, ' '); parts[0] != "" && Join(" ", parts[1..]) != ""
    ensures var (first, last) := SplitName(name); first + " " + last == name && ' ' !in first
  {
    var parts := Split(name, ' ');
    assert parts[0] in parts;
    assert |parts| >= 2;
  }

  /** A leading space leaves the first name empty, so the whole name is used. */
  lemma LeadingSpaceName()
    ensures SplitName(" Jane") == (" Jane", "Jane")
  {
    SplitWithout("Jane", ' ');
    assert " Jane"[1..] == "Jane";
    assert Split(" Jane", ' ') == ["", "Jane"];
  }

  /** `userInfo.address || "Kampala, Uganda"`. */
  function AddressLine(address: Option<string>): string {
    if address.Some? && address.value != "" then address.value else DefaultAddressLine
  }

  /** The clock readings and random suffixes the page draws: for the order id,
      the notification id, and the id and QR code of the `k`-th ticket. */
  datatype Entropy = Entropy(
    orderSuffix: string,
    notificationSuffix: string,
    ticketSuffix: nat -> string,
    qrSuffix: nat -> string)

  /** The order `handleUserInfoSubmit` submits. The form hands over only name,
      email and phone, so the address is always missing and the default line
      is used. */
  function BuildOrder(sel: Selection, buyer: FormData, origin: string, entropy: Entropy): (order: PaymentOrderRequest)
    ensures order.amount == TotalPrice(sel)
    ensures order.description == Description(sel)
    ensures "ORD-" <= order.id && "NOTIF-" <= order.notification_id
    ensures order.callback_url == origin + CallbackPath
    ensures order.currency == Currency && order.branch == Branch
    ensures order.billing_address.email_address == buyer.email && order.billing_address.phone_number == buyer.phone
    ensures (order.billing_address.first_name, order.billing_address.last_name) == SplitName(buyer.name)
    ensures order.billing_address.country_code == CountryCode && order.billing_address.line_1 == DefaultAddressLine
  {
    var (first, last) := SplitName(buyer.name);
    PaymentOrderRequest(
      "ORD-" + entropy.orderSuffix,
      Currency,
      TotalPrice(sel),
      Description(sel),
      origin + CallbackPath,
      "NOTIF-" + entropy.notificationSuffix,
      Branch,
      BillingAddress(buyer.email, buyer.phone, CountryCode, first, last, AddressLine(None)))
  }

  /* ------------------------------------------------------------ tickets */

  /** One ticket record as the page creates it. */
  datatype Ticket = Ticket(
    id: string,
    orderId: string,
    concertTitle: string,
    artist: string,
    date: string,
    time: string,
    venue: string,
    location: string,
    ticketType: string,
    price: int,
    holderName: string,
    holderEmail: string,
    holderPhone: string,
    paymentStatus: string,
    paymentLink: string,
    qrCode: string)

  /** What every ticket of one order shares. */
  datatype Issue = Issue(orderId: string, buyer: FormData, paymentLink: string, entropy: Entropy)

  /** The `k`-th ticket created for the order, of type `t`. */
  function MakeTicket(t: TicketType, issue: Issue, k: nat): Ticket {
    Ticket(
      "TKT-" + issue.entropy.ticketSuffix(k), issue.orderId,
      ConcertTitle, ConcertArtist, ConcertDate, ConcertTime, ConcertVenue, ConcertLocation,
      t.name, t.price,
      issue.buyer.name, issue.buyer.email, issue.buyer.phone,
      "pending", issue.paymentLink,
      "QR-" + issue.entropy.qrSuffix(k))
  }

  /** A ticket as issued for the order: pending, with the order's payment
      link and id, the buyer as holder, and a `TKT-` id. */
  predicate IssuedFor(tk: Ticket, issue: Issue) {
    && tk.paymentStatus == "pending"
    && tk.paymentLink == issue.paymentLink
    && tk.orderId == issue.orderId
    && tk.holderName == issue.buyer.name
    && "TKT-" <= tk.id
    && tk.concertTitle == ConcertTitle
  }

  /** The sum of the tickets' prices. */
  function Value(tickets: seq<Ticket>): int {
    if tickets == [] then 0 else tickets[0].price + Value(tickets[1..])
  }

  lemma {:induction false} ValueAppend(a: seq<Ticket>, b: seq<Ticket>)
    ensures Value(a + b) == Value(a) + Value(b)
  {
    if a != [] {
      assert (a + b)[0] == a[0];
      assert (a + b)[1..] == a[1..] + b;
      ValueAppend(a[1..], b);
    } else {
      assert a + b == b;
    }
  }

  /** `n` tickets of type `t`, numbered from `start`. */
  function Copies(t: TicketType, n: nat, issue: Issue, start: nat): (r: seq<Ticket>)
    ensures |r| == n
  {
    seq(n, i requires 0 <= i < n => MakeTicket(t, issue, start + i))
  }

  lemma {:induction false} CopiesValue(t: TicketType, n: nat, issue: Issue, start: nat)
    ensures Value(Copies(t, n, issue, start)) == t.price * n
  {
    if n > 0 {
      var r := Copies(t, n, issue, start);
      assert r[0] == MakeTicket(t, issue, start);
      assert r[1..] == Copies(t, n - 1, issue, start + 1);
      CopiesValue(t, n - 1, issue, start + 1);
      assert Value(r) == t.price + t.price * (n - 1);
    }
  }

  /** The tickets created for one entry: `quantity` tickets of its type
      (none for an unknown type; a negative quantity runs the loop zero
      times), numbered from `start`. */
  function Batch(e: Entry, issue: Issue, start: nat): seq<Ticket> {
    match FindType(e.ticketId)
    case None => []
    case Some(t) => Copies(t, Max(0, e.quantity), issue, start)
  }

  /** 1 for a catalogue id, 0 for any other. */
  function Known(id: string): int {
    if FindType(id).Some? then 1 else 0
  }

  lemma BatchSize(e: Entry, issue: Issue, start: nat)
    requires e.quantity >= 0
    ensures |Batch(e, issue, start)| == Known(e.ticketId) * e.quantity
    ensures Value(Batch(e, issue, start)) == UnitPrice(e.ticketId) * e.quantity
  {
    match FindType(e.ticketId)
    case None =>
    case Some(t) => CopiesValue(t, e.quantity, issue, start);
  }

  /** The ticket loop of `handleUserInfoSubmit`: the batches of the entries,
      in selection order. */
  function Materialise(sel: Selection, issue: Issue, start: nat): seq<Ticket> {
    if sel == [] then []
    else
      var here := Batch(sel[0], issue, start);
      here + Materialise(sel[1..], issue, start + |here|)
  }

  /** Every ticket created for the order is issued for it: pending, with the
      order's payment link and id, the buyer as holder, and a `TKT-` id. */
  lemma {:induction false} MaterialiseIssued(sel: Selection, issue: Issue, start: nat)
    ensures forall tk <- Materialise(sel, issue, start) :: IssuedFor(tk, issue)
  {
    if sel != [] {
      var here := Batch(sel[0], issue, start);
      MaterialiseIssued(sel[1..], issue, start + |here|);
      assert forall tk <- here :: IssuedFor(tk, issue) by {
        match FindType(sel[0].ticketId)
        case None =>
        case Some(t) =>
          assert forall i | 0 <= i < |here| :: here[i] == MakeTicket(t, issue, start + i);
      }
    }
  }

  predicate NonNegative(sel: Selection) {
    forall i :: 0 <= i < |sel| ==> sel[i].quantity >= 0
  }

  lemma NonNegativeTail(sel: Selection)
    requires NonNegative(sel) && sel != []
    ensures NonNegative(sel[1..])
  {
    forall i | 0 <= i < |sel| - 1 ensures sel[1..][i].quantity >= 0 {
      assert sel[1..][i] == sel[i + 1];
    }
  }

  /** One ticket is created per selected unit of a known type. */
  lemma {:induction false} MaterialiseCount(sel: Selection, issue: Issue, start: nat)
    requires NonNegative(sel)
    ensures |Materialise(sel, issue, start)| == Total(sel, Known)
  {
    if sel != [] {
      var here := Batch(sel[0], issue, start);
      NonNegativeTail(sel);
      MaterialiseCount(sel[1..], issue, start + |here|);
      BatchSize(sel[0], issue, start);
    }
  }

  /** The tickets are worth the selection's total price. */
  lemma {:induction false} MaterialiseValue(sel: Selection, issue: Issue, start: nat)
    requires NonNegative(sel)
    ensures Value(Materialise(sel, issue, start)) == TotalPrice(sel)
  {
    if sel != [] {
      var here := Batch(sel[0], issue, start);
      NonNegativeTail(sel);
      var rest := Materialise(sel[1..], issue, start + |here|);
      assert Materialise(sel, issue, start) == here + rest;
      MaterialiseValue(sel[1..], issue, start + |here|);
      BatchSize(sel[0], issue, start);
      ValueAppend(here, rest);
      var line := UnitPrice(sel[0].ticketId) * sel[0].quantity;
      assert Value(here) == line;
      assert TotalPrice(sel) == line + TotalPrice(sel[1..]);
    }
  }

  /** In an in-stock selection every id is a catalogue type, so the ticket
      count is the number of tickets selected. */
  lemma {:induction false} InStockAllKnown(sel: Selection)
    requires InStock(sel)
    ensures Total(sel, Known) == TotalTickets(sel)
  {
    if sel != [] {
      InStockBounds(sel, sel[0].ticketId);
      InStockTail(sel);
      InStockAllKnown(sel[1..]);
    }
  }

  /* ------------------------------------------------------ after payment */

  /** What the page shows once the order action has answered: the tickets,
      or the form again with an error. `isProcessing` is cleared either way. */
  datatype Shown = ShowTickets(tickets: seq<Ticket>) | ShowError(message: string)

  /** The tail of `handleUserInfoSubmit`. `reply` is the action's answer, or
      `None` when the call to the server action itself rejects. Tickets are
      created only when the action succeeded with a truthy `redirect_url`;
      otherwise the action's error is shown, or `'Payment processing failed'`
      when it has none. */
  function AfterPayment(sel: Selection, order: PaymentOrderRequest, buyer: FormData, entropy: Entropy,
                        reply: Option<ActionResult>): (r: Shown)
    ensures r.ShowTickets? <==> reply.Some? && reply.value.Submitted? && reply.value.redirect_url != ""
    ensures r.ShowTickets? ==> forall tk <- r.tickets ::
      IssuedFor(tk, Issue(order.id, buyer, reply.value.redirect_url, entropy))
    ensures r.ShowTickets? && NonNegative(sel) ==>
      |r.tickets| == Total(sel, Known) && Value(r.tickets) == TotalPrice(sel)
    ensures reply.None? ==> r == ShowError(PageUnexpectedMessage)
    ensures reply.Some? && reply.value.Submitted? && reply.value.redirect_url == "" ==>
      r == ShowError(PaymentFailedFallback)
    ensures reply.Some? && reply.value.Rejected? ==>
      r == ShowError(if reply.value.error != "" then reply.value.error else PaymentFailedFallback)
  {
    match reply
    case None => ShowError(PageUnexpectedMessage)
    case Some(result) =>
      if result.Success() && result.redirect_url != "" then
        var issue := Issue(order.id, buyer, result.redirect_url, entropy);
        MaterialiseIssued(sel, issue, 0);
        assert NonNegative(sel) ==>
          |Materialise(sel, issue, 0)| == Total(sel, Known) && Value(Materialise(sel, issue, 0)) == TotalPrice(sel) by {
          if NonNegative(sel) {
            MaterialiseCount(sel, issue, 0);
            MaterialiseValue(sel, issue, 0);
          }
        }
        ShowTickets(Materialise(sel, issue, 0))
      else
        var error := if result.Rejected? then result.error else "";
        ShowError(if error != "" then error else PaymentFailedFallback)
  }

  /** The page's state after the buyer submits the form, with the gateway
      client's next state. */
  datatype Submission = Submission(client: Client, order: PaymentOrderRequest, shown: Shown)

  /** `handleUserInfoSubmit(userInfo)`: build the order, hand it to the order
      action, and show tickets or an error. */
  function HandleUserInfoSubmit(
    c: Client, clock: Clock, env: Environment, sel: Selection, buyer: FormData, origin: string, entropy: Entropy,
    authReply: Outcome<PaymentAuth>, reply: Outcome<PaymentOrderResponse>): (s: Submission)
    ensures s.order == BuildOrder(sel, buyer, origin, entropy)
    ensures s.shown.ShowTickets? ==> HasCredentials(env) && reply.Ok? && reply.body.redirect_url != ""
    ensures s.shown.ShowTickets? ==> forall tk <- s.shown.tickets ::
      tk.paymentLink == reply.body.redirect_url && tk.orderId == s.order.id && tk.paymentStatus == "pending"
    ensures !HasCredentials(env) ==> s.shown == ShowError(MissingCredentialsMessage) && s.client == c
  {
    var order := BuildOrder(sel, buyer, origin, entropy);
    var action := HandlePaymentRequest(c, clock, env, order, authReply, reply);
    Submission(action.client, order, AfterPayment(sel, order, buyer, entropy, Some(action.result)))
  }

  /** The happy path: with credentials, a usable or freshly obtained token
      and a gateway answer carrying a `redirect_url`, the page shows the
      tickets, each linking to that `redirect_url`. */
  lemma AcceptedOrderShowsTickets(
    c: Client, clock: Clock, env: Environment, sel: Selection, buyer: FormData, origin: string, entropy: Entropy,
    authReply: Outcome<PaymentAuth>, answer: PaymentOrderResponse)
    requires HasCredentials(env)
    requires !IsTokenExpired(c, clock.now) || authReply.Ok?
    requires answer.redirect_url != ""
    ensures var s := HandleUserInfoSubmit(c, clock, env, sel, buyer, origin, entropy, authReply, Ok(answer));
      && s.shown.ShowTickets?
      && forall tk <- s.shown.tickets :: tk.paymentLink == answer.redirect_url
  {
  }

  /** The action's success alone does not produce tickets: a successful
      submission whose answer has no `redirect_url` shows
      `'Payment processing failed'`. */
  lemma MissingRedirectShowsFailure(
    c: Client, clock: Clock, env: Environment, sel: Selection, buyer: FormData, origin: string, entropy: Entropy,
    authReply: Outcome<PaymentAuth>, answer: PaymentOrderResponse)
    requires HasCredentials(env)
    requires !IsTokenExpired(c, clock.now) || authReply.Ok?
    requires answer.redirect_url == ""
    ensures HandleUserInfoSubmit(c, clock, env, sel, buyer, origin, entropy, authReply, Ok(answer)).shown
      == ShowError(PaymentFailedFallback)
  {
  }

  /** For a selection made with the buttons, an accepted order shows one
      ticket per selected unit, together worth the order's amount. */
  lemma AcceptedOrderTickets(
    c: Client, clock: Clock, env: Environment, presses: seq<Press>, buyer: FormData, origin: string, entropy: Entropy,
    authReply: Outcome<PaymentAuth>, reply: Outcome<PaymentOrderResponse>)
    requires forall p <- presses :: p.ticket in TicketTypes
    ensures var s := HandleUserInfoSubmit(c, clock, env, Clicks(presses), buyer, origin, entropy, authReply, reply);
      s.shown.ShowTickets? ==>
        && |s.shown.tickets| == TotalTickets(Clicks(presses))
        && Value(s.shown.tickets) == s.order.amount
  {
    var sel := Clicks(presses);
    ReachableInStock(presses);
    InStockAllKnown(sel);
    assert NonNegative(sel);
  }
}
