/** The tracker object: the list `tracked_products` that the add form appends to, the
    remove button reassigns, and `check_price` updates entry by entry. */
module PriceTracker {
  import opened Text
  import opened Products
  import opened Catalog

  /** What pressing "Remove Selected" leads to. */
  datatype RemoveOutcome =
    | NothingSelected        // "Please select a product to remove"
    | Cancelled              // the confirmation dialog was answered "No"
    | Removed(selected: nat) // the status line reports this many selected products

  /** What pressing "Refresh Prices" leads to. */
  datatype RefreshOutcome =
    | NothingToRefresh       // "No products to refresh"
    | Refreshed(alerts: seq<Alert>)

  class Tracker {
    var products: seq<Product>

    /** Start-up: the list read from the data file, or an empty list when the file is
        absent or cannot be read. */
    constructor (stored: Option<seq<Product>>)
      ensures products == (if stored.Some? then stored.value else [])
    {
      products := if stored.Some? then stored.value else [];
    }

    /** The duplicate scan of the add form. */
    method IsTracked(url: string) returns (found: bool)
      ensures found <==> Tracked(products, url)
    {
      for i := 0 to |products|
        invariant forall k :: 0 <= k < i ==> products[k].url != url
      {
        if products[i].url == url {
          return true;
        }
      }
      return false;
    }

    /** "Add Product": validate the form, then append the new record. */
    method AddProduct(urlText: string, nameText: string, targetText: string,
                      parsed: Option<Float>, d: Draw, now: string) returns (outcome: AddOutcome)
      modifies this
      ensures (outcome, products) == Add(old(products), urlText, nameText, targetText, parsed, d, now)
      ensures ValidDraw(d) && WellFormed(old(products)) ==> WellFormed(products)
    {
      var url := Strip(urlText);
      var name := Strip(nameText);
      var target := Strip(targetText);
      if url == [] || name == [] || target == [] {
        return Rejected(MissingField);
      }
      if !AcceptTarget(parsed) {
        return Rejected(InvalidTarget);
      }
      var dup := IsTracked(url);
      if dup {
        return Rejected(AlreadyTracked);
      }
      var p := NewProduct(name, url, parsed.value, d, now);
      products := products + [p];
      outcome := Added(if p.status == TargetReached then Some(AlertOf(p)) else None);
    }

    /** "Remove Selected": `selection` holds the name of each selected row. */
    method RemoveProducts(selection: seq<string>, confirmed: bool) returns (outcome: RemoveOutcome)
      modifies this
      ensures selection == [] ==> outcome == NothingSelected
      ensures selection != [] && !confirmed ==> outcome == Cancelled
      ensures selection != [] && confirmed ==> outcome == Removed(|selection|)
      ensures products == if outcome.Removed? then KeepUnselected(old(products), selection)
                          else old(products)
      ensures WellFormed(old(products)) ==> WellFormed(products)
    {
      if selection == [] {
        return NothingSelected;
      }
      if !confirmed {
        return Cancelled;
      }
      ghost var wf := WellFormed(products);
      if wf {
        KeepUnselectedWellFormed(products, selection);
      }
      products := KeepUnselected(products, selection);
      outcome := Removed(|selection|);
    }

    /** `check_price` on the product at position `i`. */
    method CheckPrice(i: nat, s: Sample) returns (alert: Option<Alert>)
      requires i < |products|
      modifies this
      ensures products == old(products)[i := Check(old(products)[i], s)]
      ensures alert == CheckAlert(old(products)[i], s)
    {
      var p := products[i];
      alert := None;
      match s {
        case Failed(msg, t) =>
          p := p.(status := Error(msg), lastChecked := t);
        case Sampled(x, dropped, today, t) =>
          if dropped {
            p := p.(lastDrop := today);
          }
          p := p.(current := x);
          if x < p.lowest {
            p := p.(lowest := x);
          }
          if AtMost(x, p.target) {
            p := p.(status := TargetReached);
            alert := Some(AlertOf(p));
          } else {
            p := p.(status := Tracking);
          }
          p := p.(lastChecked := t);
      }
      products := products[i := p];
    }

    /** One pass of the monitoring loop: check every product in list order. */
    method Tick(samples: seq<Sample>) returns (alerts: seq<Alert>)
      requires |samples| == |products|
      modifies this
      ensures products == TickAll(old(products), samples)
      ensures alerts == TickAlerts(old(products), samples)
    {
      alerts := [];
      ghost var before := products;
      for i := 0 to |products|
        invariant |products| == |before|
        invariant forall k :: 0 <= k < i ==> products[k] == Check(before[k], samples[k])
        invariant forall k :: i <= k < |products| ==> products[k] == before[k]
        invariant alerts == TickAlerts(before[..i], samples[..i])
      {
        var a := CheckPrice(i, samples[i]);
        TickAlertsPrefix(before, samples, i);
        assert AlertsOf(before[i], samples[i]) == if a.Some? then [a.value] else [];
        if a.Some? {
          alerts := alerts + [a.value];
        }
      }
      assert before[..|before|] == before && samples[..|samples|] == samples;
    }

    /** "Refresh Prices": one pass, unless the list is empty. */
    method RefreshPrices(samples: seq<Sample>) returns (outcome: RefreshOutcome)
      requires |samples| == |products|
      modifies this
      ensures old(products) == [] ==> outcome == NothingToRefresh && products == old(products)
      ensures old(products) != [] ==>
                outcome == Refreshed(TickAlerts(old(products), samples))
                && products == TickAll(old(products), samples)
    {
      if products == [] {
        return NothingToRefresh;
      }
      var alerts := Tick(samples);
      outcome := Refreshed(alerts);
    }

    /** The background monitoring loop, for the rounds it runs before monitoring stops. */
    method Monitor(rounds: seq<seq<Sample>>) returns (alerts: seq<seq<Alert>>)
      requires Fits(products, rounds)
      modifies this
      ensures products == Rounds(old(products), rounds)
      ensures alerts == RoundAlerts(old(products), rounds)
      ensures WellFormed(old(products)) ==> WellFormed(products)
    {
      alerts := [];
      ghost var start := products;
      var i := 0;
      while i < |rounds|
        invariant 0 <= i <= |rounds|
        invariant Fits(products, rounds[i..])
        invariant Rounds(products, rounds[i..]) == Rounds(start, rounds)
        invariant alerts + RoundAlerts(products, rounds[i..]) == RoundAlerts(start, rounds)
      {
        ghost var rest := rounds[i..];
        assert rest[0] == rounds[i] && rest[1..] == rounds[i + 1..];
        RoundsStep(products, rest);
        ghost var later := RoundAlerts(TickAll(products, rounds[i]), rounds[i + 1..]);
        var a := Tick(rounds[i]);
        assert alerts + [a] + later == alerts + ([a] + later);
        alerts := alerts + [a];
        i := i + 1;
      }
      assert rounds[i..] == [];
      if WellFormed(start) {
        RoundsWellFormed(start, rounds);
      }
    }
  }
}
