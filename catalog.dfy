/** The tracked-product list as a value: what adding, removing by name and
    re-pricing every product do to it, and the properties those operations keep. */
module Catalog {
  import opened Text
  import opened Products

  /** Some tracked product has exactly this URL (case-sensitive string equality). */
  predicate Tracked(ps: seq<Product>, url: string) {
    exists k :: 0 <= k < |ps| && ps[k].url == url
  }

  /** No two tracked products share a URL. */
  predicate UniqueUrls(ps: seq<Product>) {
    forall i, j :: 0 <= i < j < |ps| ==> ps[i].url != ps[j].url
  }

  /** The list invariant the tracker's operations keep: distinct URLs, positive targets,
      and no lowest price above its current price. */
  predicate WellFormed(ps: seq<Product>) {
    UniqueUrls(ps) && forall k :: 0 <= k < |ps| ==> GoodRecord(ps[k])
  }

  // ---------------------------------------------------------------- adding

  /** The three error dialogs of the add form. */
  datatype AddError =
    | MissingField    // "Please fill in all fields"
    | InvalidTarget   // "Target price must be a positive number"
    | AlreadyTracked  // "This product is already being tracked"

  /** A successful add, with the popup it raises when the target is already met. */
  datatype AddOutcome = Added(alert: Option<Alert>) | Rejected(error: AddError)

  /** One press of "Add Product": the three raw form fields, `float()` of the stripped
      target text (None when it raises ValueError), the random draws and the time stamp. */
  function Add(ps: seq<Product>, urlText: string, nameText: string, targetText: string,
               parsed: Option<Float>, d: Draw, now: string): (res: (AddOutcome, seq<Product>))
    ensures res.0 == Rejected(MissingField) <==> Blank(urlText) || Blank(nameText) || Blank(targetText)
    ensures res.0 == Rejected(InvalidTarget) <==>
              !Blank(urlText) && !Blank(nameText) && !Blank(targetText) && !AcceptTarget(parsed)
    ensures res.0 == Rejected(AlreadyTracked) <==>
              !Blank(urlText) && !Blank(nameText) && !Blank(targetText) && AcceptTarget(parsed)
              && Tracked(ps, Strip(urlText))
    ensures res.0.Rejected? ==> res.1 == ps
    ensures res.0.Added? ==>
              && |res.1| == |ps| + 1 && res.1[..|ps|] == ps
              && res.1[|ps|].name == Strip(nameText) && res.1[|ps|].url == Strip(urlText)
              && parsed.Some? && res.1[|ps|].target == parsed.value
              && res.1[|ps|] == NewProduct(Strip(nameText), Strip(urlText), parsed.value, d, now)
              && res.1[|ps|].current == d.price
              && (res.1[|ps|].status == Tracking <==> Above(d.price, parsed.value))
              && (res.1[|ps|].status == TargetReached <==> !Above(d.price, parsed.value))
              && (res.0.alert.Some? <==> res.1[|ps|].status == TargetReached)
              && (res.0.alert.Some? ==> res.0.alert.value == AlertOf(res.1[|ps|]))
    ensures ValidDraw(d) && WellFormed(ps) ==> WellFormed(res.1)
  {
    var url, name, target := Strip(urlText), Strip(nameText), Strip(targetText);
    if url == [] || name == [] || target == [] then (Rejected(MissingField), ps)
    else if !AcceptTarget(parsed) then (Rejected(InvalidTarget), ps)
    else if Tracked(ps, url) then (Rejected(AlreadyTracked), ps)
    else
      var p := NewProduct(name, url, parsed.value, d, now);
      var ps' := ps + [p];
      assert ps'[..|ps|] == ps;
      assert ValidDraw(d) && WellFormed(ps) ==> WellFormed(ps') by {
        if ValidDraw(d) && WellFormed(ps) {
          forall i, j | 0 <= i < j < |ps'| ensures ps'[i].url != ps'[j].url {
            if j == |ps| { assert ps'[i] == ps[i]; }
          }
        }
      }
      (Added(if p.status == TargetReached then Some(AlertOf(p)) else None), ps')
  }

  // ---------------------------------------------------------------- removing

  /** The products whose name is not among the selected names, in list order. */
  function KeepUnselected(ps: seq<Product>, names: seq<string>): (r: seq<Product>)
    ensures |r| <= |ps|
    ensures forall p :: p in r <==> p in ps && p.name !in names
  {
    if ps == [] then []
    else (if ps[0].name in names then [] else [ps[0]]) + KeepUnselected(ps[1..], names)
  }

  /** Filtering distributes over concatenation, so it keeps the relative order of what it keeps. */
  lemma {:induction false} KeepUnselectedConcat(a: seq<Product>, b: seq<Product>, names: seq<string>)
    ensures KeepUnselected(a + b, names) == KeepUnselected(a, names) + KeepUnselected(b, names)
  {
    if a != [] {
      assert (a + b)[0] == a[0];
      assert (a + b)[1..] == a[1..] + b;
      KeepUnselectedConcat(a[1..], b, names);
    } else {
      assert a + b == b;
    }
  }

  /** Each product occurs in the result as often as in the input if its name is not
      selected, and not at all otherwise: same-named entries go together. */
  lemma {:induction false} KeepUnselectedCount(ps: seq<Product>, names: seq<string>, x: Product)
    ensures multiset(KeepUnselected(ps, names))[x] ==
              if x.name in names then 0 else multiset(ps)[x]
  {
    if ps != [] {
      KeepUnselectedCount(ps[1..], names, x);
      var head := if ps[0].name in names then [] else [ps[0]];
      var rest := KeepUnselected(ps[1..], names);
      assert KeepUnselected(ps, names) == head + rest;
      assert multiset(head + rest) == multiset(head) + multiset(rest);
      assert ps == [ps[0]] + ps[1..];
      assert multiset(ps) == multiset([ps[0]]) + multiset(ps[1..]);
    }
  }

  /** The list shrinks exactly when some product carries a selected name. */
  lemma {:induction false} KeepUnselectedLength(ps: seq<Product>, names: seq<string>)
    ensures |KeepUnselected(ps, names)| == |ps| <==> forall k :: 0 <= k < |ps| ==> ps[k].name !in names
  {
    if ps != [] {
      KeepUnselectedLength(ps[1..], names);
      if ps[0].name !in names {
        assert forall k :: 1 <= k < |ps| ==> ps[k] == ps[1..][k - 1];
      }
    }
  }

  /** Dropping the first product keeps the list invariant. */
  lemma TailWellFormed(ps: seq<Product>)
    requires ps != [] && WellFormed(ps)
    ensures WellFormed(ps[1..])
  {
    var tail := ps[1..];
    forall i, j | 0 <= i < j < |tail| ensures tail[i].url != tail[j].url {
      assert tail[i] == ps[i + 1] && tail[j] == ps[j + 1];
    }
  }

  /** Putting a good record with an untracked URL in front keeps the list invariant. */
  lemma ConsWellFormed(p: Product, rest: seq<Product>)
    requires WellFormed(rest) && GoodRecord(p) && !Tracked(rest, p.url)
    ensures WellFormed([p] + rest)
  {
    var r := [p] + rest;
    forall i, j | 0 <= i < j < |r| ensures r[i].url != r[j].url {
      assert r[j] == rest[j - 1];
      if i > 0 { assert r[i] == rest[i - 1]; }
    }
    forall k | 0 <= k < |r| ensures GoodRecord(r[k]) {
      if k > 0 { assert r[k] == rest[k - 1]; }
    }
  }

  /** Removal keeps the list invariant. */
  lemma {:induction false} KeepUnselectedWellFormed(ps: seq<Product>, names: seq<string>)
    requires WellFormed(ps)
    ensures WellFormed(KeepUnselected(ps, names))
  {
    if ps != [] {
      var tail := ps[1..];
      TailWellFormed(ps);
      KeepUnselectedWellFormed(tail, names);
      var rest := KeepUnselected(tail, names);
      if ps[0].name !in names {
        assert !Tracked(rest, ps[0].url) by {
          forall j | 0 <= j < |rest| ensures rest[j].url != ps[0].url {
            assert rest[j] in tail;
            var k :| 0 <= k < |tail| && tail[k] == rest[j];
            assert tail[k] == ps[k + 1];
          }
        }
        ConsWellFormed(ps[0], rest);
      }
    }
  }

  // ---------------------------------------------------------------- re-pricing

  /** Every product re-priced by its own sample, in list order. */
  function TickAll(ps: seq<Product>, ss: seq<Sample>): (qs: seq<Product>)
    requires |ss| == |ps|
    ensures |qs| == |ps|
    ensures forall k :: 0 <= k < |ps| ==> qs[k] == Check(ps[k], ss[k])
  {
    if ps == [] then [] else [Check(ps[0], ss[0])] + TickAll(ps[1..], ss[1..])
  }

  /** The popups one pass over the list raises, in list order. */
  function TickAlerts(ps: seq<Product>, ss: seq<Sample>): (r: seq<Alert>)
    requires |ss| == |ps|
    ensures |r| <= |ps|
  {
    if ps == [] then []
    else
      AlertsOf(ps[0], ss[0]) + TickAlerts(ps[1..], ss[1..])
  }

  /** A pass raises no popup at all exactly when no product's sampled price is at or
      below its target. */
  lemma {:induction false} TickAlertsNone(ps: seq<Product>, ss: seq<Sample>)
    requires |ss| == |ps|
    ensures TickAlerts(ps, ss) == []
            <==> forall k :: 0 <= k < |ps| ==> !(ss[k].Sampled? && AtMost(ss[k].price, ps[k].target))
  {
    if ps != [] {
      TickAlertsNone(ps[1..], ss[1..]);
      assert forall k :: 1 <= k < |ps| ==> ps[k] == ps[1..][k - 1] && ss[k] == ss[1..][k - 1];
    }
  }

  /** The popups of one product's check, as a sequence of zero or one. */
  function AlertsOf(p: Product, s: Sample): (r: seq<Alert>)
    ensures |r| <= 1
    ensures r != [] <==> s.Sampled? && AtMost(s.price, p.target)
  {
    match CheckAlert(p, s) case Some(a) => [a] case None => []
  }

  /** Checking one more product at the end of the list adds its popups at the end. */
  lemma {:induction false} TickAlertsSnoc(ps: seq<Product>, ss: seq<Sample>, p: Product, s: Sample)
    requires |ss| == |ps|
    ensures TickAlerts(ps + [p], ss + [s]) == TickAlerts(ps, ss) + AlertsOf(p, s)
  {
    if ps == [] {
      assert ps + [p] == [p] && ss + [s] == [s];
    } else {
      assert (ps + [p])[1..] == ps[1..] + [p];
      assert (ss + [s])[1..] == ss[1..] + [s];
      TickAlertsSnoc(ps[1..], ss[1..], p, s);
    }
  }

  /** The popups of the first `i + 1` checks are those of the first `i` and then the next one's. */
  lemma TickAlertsPrefix(ps: seq<Product>, ss: seq<Sample>, i: nat)
    requires |ss| == |ps| && i < |ps|
    ensures TickAlerts(ps[..i + 1], ss[..i + 1]) == TickAlerts(ps[..i], ss[..i]) + AlertsOf(ps[i], ss[i])
  {
    assert ps[..i + 1] == ps[..i] + [ps[i]];
    assert ss[..i + 1] == ss[..i] + [ss[i]];
    TickAlertsSnoc(ps[..i], ss[..i], ps[i], ss[i]);
  }

  /** One alert for each product whose status is "Target Reached!", in list order. */
  function ReachedAlerts(qs: seq<Product>): (r: seq<Alert>)
    ensures |r| <= |qs|
    ensures r == [] <==> forall k :: 0 <= k < |qs| ==> qs[k].status != TargetReached
  {
    if qs == [] then []
    else
      var rest := ReachedAlerts(qs[1..]);
      assert forall k :: 1 <= k < |qs| ==> qs[k] == qs[1..][k - 1];
      (if qs[0].status == TargetReached then [AlertOf(qs[0])] else []) + rest
  }

  /** The alerts of a pass are exactly those of the products the pass left at
      "Target Reached!", one per product, in list order. */
  lemma {:induction false} TickAlertsAreReached(ps: seq<Product>, ss: seq<Sample>)
    requires |ss| == |ps|
    ensures TickAlerts(ps, ss) == ReachedAlerts(TickAll(ps, ss))
  {
    if ps != [] {
      TickAlertsAreReached(ps[1..], ss[1..]);
      var qs := TickAll(ps, ss);
      assert qs[1..] == TickAll(ps[1..], ss[1..]);
    }
  }

  /** A pass keeps the list invariant. */
  lemma TickAllWellFormed(ps: seq<Product>, ss: seq<Sample>)
    requires |ss| == |ps| && WellFormed(ps)
    ensures WellFormed(TickAll(ps, ss))
  {
    var qs := TickAll(ps, ss);
    forall k | 0 <= k < |qs| ensures GoodRecord(qs[k]) {
      CheckKeepsGoodRecord(ps[k], ss[k]);
    }
  }

  /** Every round holds one sample per product. */
  predicate Fits(ps: seq<Product>, rounds: seq<seq<Sample>>) {
    forall i :: 0 <= i < |rounds| ==> |rounds[i]| == |ps|
  }

  /** The list after the given monitoring rounds, one pass over the list per round. */
  function Rounds(ps: seq<Product>, rounds: seq<seq<Sample>>): (qs: seq<Product>)
    requires Fits(ps, rounds)
    ensures |qs| == |ps|
    decreases |rounds|
  {
    if rounds == [] then ps else Rounds(TickAll(ps, rounds[0]), rounds[1..])
  }

  /** One more round at the end is one more pass over the list. */
  lemma {:induction false} RoundsSnoc(ps: seq<Product>, rounds: seq<seq<Sample>>, last: seq<Sample>)
    requires Fits(ps, rounds) && |last| == |ps|
    ensures Fits(ps, rounds + [last])
    ensures Rounds(ps, rounds + [last]) == TickAll(Rounds(ps, rounds), last)
    decreases |rounds|
  {
    var all := rounds + [last];
    assert Fits(ps, all) by {
      forall i | 0 <= i < |all| ensures |all[i]| == |ps| {
        if i < |rounds| { assert all[i] == rounds[i]; }
      }
    }
    if rounds != [] {
      var ps' := TickAll(ps, rounds[0]);
      assert all[0] == rounds[0] && all[1..] == rounds[1..] + [last];
      RoundsSnoc(ps', rounds[1..], last);
    }
  }

  /** The popups of each monitoring round, one sequence per round. */
  function RoundAlerts(ps: seq<Product>, rounds: seq<seq<Sample>>): (r: seq<seq<Alert>>)
    requires Fits(ps, rounds)
    ensures |r| == |rounds|
    ensures rounds != [] ==> r[0] == TickAlerts(ps, rounds[0])
    decreases |rounds|
  {
    if rounds == [] then []
    else [TickAlerts(ps, rounds[0])] + RoundAlerts(TickAll(ps, rounds[0]), rounds[1..])
  }

  /** Running the first round, then the rest. */
  lemma RoundsStep(ps: seq<Product>, rounds: seq<seq<Sample>>)
    requires Fits(ps, rounds) && rounds != []
    ensures |rounds[0]| == |ps|
    ensures Fits(TickAll(ps, rounds[0]), rounds[1..])
    ensures Rounds(ps, rounds) == Rounds(TickAll(ps, rounds[0]), rounds[1..])
    ensures RoundAlerts(ps, rounds) == [TickAlerts(ps, rounds[0])] + RoundAlerts(TickAll(ps, rounds[0]), rounds[1..])
  {
    assert forall i :: 0 <= i < |rounds[1..]| ==> rounds[1..][i] == rounds[i + 1];
  }

  /** Any run of rounds keeps the list invariant. */
  lemma {:induction false} RoundsWellFormed(ps: seq<Product>, rounds: seq<seq<Sample>>)
    requires Fits(ps, rounds) && WellFormed(ps)
    ensures WellFormed(Rounds(ps, rounds))
    decreases |rounds|
  {
    if rounds != [] {
      RoundsStep(ps, rounds);
      TickAllWellFormed(ps, rounds[0]);
      RoundsWellFormed(TickAll(ps, rounds[0]), rounds[1..]);
    }
  }

  /** Across any number of rounds, each product keeps its name, URL and target, and its
      lowest price is the minimum of the recorded lowest price and every price sampled for it. */
  lemma {:induction false} RoundsRunningMinimum(ps: seq<Product>, rounds: seq<seq<Sample>>, k: nat)
    requires Fits(ps, rounds) && k < |ps|
    ensures var q := Rounds(ps, rounds)[k];
      && q.name == ps[k].name && q.url == ps[k].url && q.target == ps[k].target
      && q.lowest <= ps[k].lowest
      && (forall i :: 0 <= i < |rounds| && rounds[i][k].Sampled? ==> q.lowest <= rounds[i][k].price)
      && (q.lowest == ps[k].lowest
          || exists i :: 0 <= i < |rounds| && rounds[i][k].Sampled? && q.lowest == rounds[i][k].price)
    decreases |rounds|
  {
    if rounds != [] {
      var ps' := TickAll(ps, rounds[0]);
      var tail := rounds[1..];
      assert Fits(ps', tail);
      RoundsRunningMinimum(ps', tail, k);
      var q := Rounds(ps, rounds)[k];
      assert q == Rounds(ps', tail)[k];
      var c := Check(ps[k], rounds[0][k]);
      assert ps'[k] == c;
      forall i | 0 <= i < |rounds| && rounds[i][k].Sampled? ensures q.lowest <= rounds[i][k].price {
        if i > 0 { assert rounds[i] == tail[i - 1]; }
      }
      if q.lowest != ps[k].lowest {
        if q.lowest == c.lowest {
          assert rounds[0][k].Sampled? && q.lowest == rounds[0][k].price;
        } else {
          var i :| 0 <= i < |tail| && tail[i][k].Sampled? && q.lowest == tail[i][k].price;
          assert rounds[i + 1] == tail[i];
        }
      }
    }
  }
}
