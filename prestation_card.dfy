/**
  The display decisions of app/components/PrestationCard.tsx: the duration
  text, the status badge, the price line and whether a delete button is
  offered. The markup, the icons and the confirmation dialog are not modelled.
 */
module PrestationCard {
  import opened PrestationService

  /** A duration part counts as given unless it is empty, "0" or "00". */
  predicate IsPresent(part: string)
  {
    part != "" && part != "0" && part != "00"
  }

  /** `getDurationText`: "Xh", "Ymin", "XhYmin" or nothing. The result is
      fixed by its length, its prefix and its suffix. */
  function DurationText(d: Duration): (r: string)
    ensures |r| == (if IsPresent(d.hours) then |d.hours| + 1 else 0)
                 + (if IsPresent(d.minutes) then |d.minutes| + 3 else 0)
    ensures IsPresent(d.hours) ==> r[..|d.hours| + 1] == d.hours + "h"
    ensures IsPresent(d.minutes) ==> r[|r| - |d.minutes| - 3..] == d.minutes + "min"
  {
    var hasHours := IsPresent(d.hours);
    var hasMinutes := IsPresent(d.minutes);
    if !hasHours && !hasMinutes then ""
    else if hasHours && !hasMinutes then d.hours + "h"
    else if !hasHours && hasMinutes then d.minutes + "min"
    else d.hours + "h" + d.minutes + "min"
  }

  /** The duration is shown exactly when at least one part is given. */
  lemma DurationTextEmptyIff(d: Duration)
    ensures DurationText(d) == "" <==> !IsPresent(d.hours) && !IsPresent(d.minutes)
  {
  }

  /** The three absent spellings are interchangeable. */
  lemma AbsentSpellingsAgree(a: string, b: string, other: string)
    requires a == "" || a == "0" || a == "00"
    requires b == "" || b == "0" || b == "00"
    ensures DurationText(Duration(a, other)) == DurationText(Duration(b, other))
    ensures DurationText(Duration(other, a)) == DurationText(Duration(other, b))
  {
  }

  /** "000" is not one of the absent spellings. */
  lemma TripleZeroIsPresent()
    ensures DurationText(Duration("000", "")) == "000h"
    ensures DurationText(Duration("0", "000")) == "000min"
  {
  }

  /** The badge text. */
  function StatusLabel(status: Status): (r: string)
    ensures r == "En attente" <==> status == Pending
    ensures r == "Validée" <==> status == Active
  {
    match status
    case Pending => "En attente"
    case Active => "Validée"
  }

  const StartingPriceSuffix: string := " (à partir de)"

  /** The price line: the price, the euro sign, and the suffix for a starting
      price. */
  function PriceText(p: Prestation): (r: string)
    ensures |r| >= |p.price| + 1 && r[..|p.price| + 1] == p.price + "€"
    ensures p.startingPrice <==> |r| > |p.price| + 1
    ensures p.startingPrice ==> r[|p.price| + 1..] == StartingPriceSuffix
  {
    p.price + "€" + (if p.startingPrice then StartingPriceSuffix else "")
  }

  /** The delete button (tested on 'active') appears exactly on the cards whose
      badge (tested on 'pending') reads "Validée", and only when the card was
      given a delete handler. */
  function ShowsDelete(status: Status, hasDeleteHandler: bool): (r: bool)
    ensures r <==> StatusLabel(status) == "Validée" && hasDeleteHandler
  {
    status == Active && hasDeleteHandler
  }

  /** With a handler given, the card offers deletion exactly when its badge
      does not read "En attente": the badge's test and the button's test agree. */
  lemma DeleteOnlyOnValidated(status: Status)
    ensures ShowsDelete(status, true) <==> StatusLabel(status) != "En attente"
    ensures !ShowsDelete(status, false)
  {
  }

  /** A record added from a flyer shows as pending and cannot be deleted from
      its card; a manual one shows as validated. */
  lemma NewRecordOnCard(d: Draft, id: string, source: Source, hasDeleteHandler: bool)
    ensures var p := NewPrestation(d, id, source);
            (source == Flyer ==> StatusLabel(p.status) == "En attente" && !ShowsDelete(p.status, hasDeleteHandler))
            && (source == Manual ==> StatusLabel(p.status) == "Validée"
                                     && ShowsDelete(p.status, hasDeleteHandler) == hasDeleteHandler)
  {
  }

  /** Setting a stored record's status to active makes its card validated and
      deletable when a handler is given. */
  lemma ActivatedRecordOnCard(ps: seq<Prestation>, id: string, hasDeleteHandler: bool)
    requires exists k :: 0 <= k < |ps| && ps[k].id == id
    ensures SetStatusFirst(ps, id, Active).Some?
    ensures var p := Lookup(SetStatusFirst(ps, id, Active).value, id).value;
            StatusLabel(p.status) == "Validée" && ShowsDelete(p.status, hasDeleteHandler) == hasDeleteHandler
  {
  }
}
