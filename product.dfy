/** One tracked product record and the rules that create and re-price it:
    the record built by `add_product` and the per-product update of `check_price`. */
module Products {

  datatype Option<T> = None | Some(value: T)

  /** A Python float as far as the tracker's comparisons can tell.
      `float()` of the form's text may yield an infinity or NaN as well as a finite value. */
  datatype Float = Finite(r: real) | PosInf | NegInf | NaN

  /** Python's `x <= t` for a finite price `x`. */
  predicate AtMost(x: real, t: Float) {
    match t
    case Finite(r) => x <= r
    case PosInf => true
    case NegInf => false
    case NaN => false
  }

  /** Python's `x > t` for a finite price `x`. */
  predicate Above(x: real, t: Float) {
    match t
    case Finite(r) => x > r
    case PosInf => false
    case NegInf => true
    case NaN => false
  }

  /** Python's `t <= 0`. */
  predicate NotPositive(t: Float) {
    match t
    case Finite(r) => r <= 0.0
    case NegInf => true
    case _ => false
  }

  /** A positive number: a positive finite value or positive infinity. */
  predicate IsPositive(t: Float) {
    match t
    case Finite(r) => r > 0.0
    case PosInf => true
    case _ => false
  }

  /** The `status` field: "Tracking", "Target Reached!" or "Error: <message>". */
  datatype Status = Tracking | TargetReached | Error(msg: string)

  /** One entry of the tracked list, with the eight keys the add form writes. */
  datatype Product = Product(
    name: string,
    url: string,
    current: real,
    lowest: real,
    target: Float,
    lastDrop: string,
    status: Status,
    lastChecked: string)

  /** The content of one price-alert popup: name, current price, target price, last drop date. */
  datatype Alert = Alert(name: string, price: real, target: Float, lastDrop: string)

  /** The popup showing product `p` as it now stands. */
  function AlertOf(p: Product): (a: Alert) {
    Alert(p.name, p.current, p.target, p.lastDrop)
  }

  /** The random draws made when a product is added: the current price, the factor
      that gives the recorded lowest price, and the date string of the last drop. */
  datatype Draw = Draw(price: real, lowestFactor: real, dropDate: string)

  /** The ranges `random.uniform(10000, 25000)` and `random.uniform(0.7, 0.95)` draw from. */
  predicate ValidDraw(d: Draw) {
    10000.0 <= d.price <= 25000.0 && 0.7 <= d.lowestFactor <= 0.95
  }

  /** What one call of `check_price` observes: a new price (and whether the simulated
      drop branch ran, with the date it stamps), or the message of the exception raised
      while sampling; either way, the time stamp written to `last_checked`. */
  datatype Sample =
    | Sampled(price: real, dropped: bool, today: string, checkedAt: string)
    | Failed(msg: string, checkedAt: string)
  {
    function CheckedAt(): (t: string) {
      match this
      case Sampled(_, _, _, t) => t
      case Failed(_, t) => t
    }
  }

  /** The status a new product is given: "Tracking" if its price is above the target,
      otherwise "Target Reached!". */
  function InitialStatus(price: real, target: Float): (st: Status)
    ensures st == Tracking || st == TargetReached
    ensures st == Tracking <==> Above(price, target)
    ensures IsPositive(target) ==> (st == TargetReached <==> AtMost(price, target))
  {
    if Above(price, target) then Tracking else TargetReached
  }

  /** The record `add_product` appends, from validated fields and the random draws. */
  function NewProduct(name: string, url: string, target: Float, d: Draw, now: string): (p: Product)
    ensures p.name == name && p.url == url && p.target == target
    ensures p.current == d.price && p.lastDrop == d.dropDate && p.lastChecked == now
    ensures p.status == TargetReached <==> !Above(d.price, target)
    ensures p.status == Tracking <==> Above(d.price, target)
    ensures ValidDraw(d) ==> 0.0 < p.lowest < p.current
  {
    Product(name, url, d.price, LowestAtCreation(d), target, d.dropDate, InitialStatus(d.price, target), now)
  }

  /** The recorded lowest price of a new product: the drawn price times the drawn factor,
      which under the source's ranges is positive and strictly below the drawn price. */
  function LowestAtCreation(d: Draw): (lowest: real)
    ensures ValidDraw(d) ==> 0.0 < lowest < d.price
  {
    var lowest := d.price * d.lowestFactor;
    assert ValidDraw(d) ==> 0.0 < lowest < d.price by {
      if ValidDraw(d) {
        var g := 1.0 - d.lowestFactor;
        assert lowest + d.price * g == d.price;
        assert d.price * g > 0.0;
        assert lowest > 0.0;
      }
    }
    lowest
  }

  /** The record after one `check_price` call. */
  function Check(p: Product, s: Sample): (q: Product)
    ensures q.name == p.name && q.url == p.url && q.target == p.target
    ensures q.lastChecked == s.CheckedAt()
    ensures s.Sampled? ==> q.current == s.price
    ensures s.Sampled? ==> q.lowest <= p.lowest && q.lowest <= q.current
                           && (q.lowest == p.lowest || q.lowest == s.price)
    ensures s.Sampled? ==> (q.status == TargetReached <==> AtMost(s.price, p.target))
                           && (q.status == Tracking <==> !AtMost(s.price, p.target))
    ensures q.lastDrop != p.lastDrop ==> s.Sampled? && s.dropped && q.lastDrop == s.today
    ensures s.Sampled? && s.dropped ==> q.lastDrop == s.today
    ensures s.Failed? ==> q.current == p.current && q.lowest == p.lowest
                          && q.lastDrop == p.lastDrop && q.status == Error(s.msg)
  {
    match s
    case Failed(msg, t) =>
      p.(status := Error(msg), lastChecked := t)
    case Sampled(x, dropped, today, t) =>
      p.(
        current := x,
        lowest := if x < p.lowest then x else p.lowest,
        lastDrop := if dropped then today else p.lastDrop,
        status := if AtMost(x, p.target) then TargetReached else Tracking,
        lastChecked := t)
  }

  /** The popup `check_price` raises: one exactly when the new price is at or below the
      target, showing the product as just updated. */
  function CheckAlert(p: Product, s: Sample): (a: Option<Alert>)
    ensures a.Some? <==> Check(p, s).status == TargetReached
    ensures a.Some? <==> s.Sampled? && AtMost(s.price, p.target)
    ensures a.Some? ==> a.value == AlertOf(Check(p, s))
  {
    var q := Check(p, s);
    if q.status == TargetReached then Some(AlertOf(q)) else None
  }

  /** The target-price test of `add_product` as written: `float()` succeeded and the
      value is not `<= 0`. */
  function TargetAcceptedAsWritten(parsed: Option<Float>): (ok: bool)
    ensures ok <==> parsed.Some? && (IsPositive(parsed.value) || parsed.value == NaN)
  {
    parsed.Some? && !NotPositive(parsed.value)
  }

  /** The target-price test as intended ("must be a positive number"): the as-written
      test, also refusing NaN. */
  function AcceptTarget(parsed: Option<Float>): (ok: bool)
    ensures ok <==> parsed.Some? && IsPositive(parsed.value)
    ensures ok ==> TargetAcceptedAsWritten(parsed)
  {
    TargetAcceptedAsWritten(parsed) && parsed.value != NaN
  }

  /** As written, a NaN target passes validation; the new product is then announced
      as "Target Reached!" (with an alert) at a price that every later check, at that
      same price, reports as "Tracking" without an alert. */
  lemma NaNTargetAcceptedAsWritten(p: Product, s: Sample)
    requires p.target == NaN && s.Sampled?
    ensures TargetAcceptedAsWritten(Some(NaN)) && !AcceptTarget(Some(NaN))
    ensures InitialStatus(s.price, p.target) == TargetReached
    ensures Check(p, s).status == Tracking && CheckAlert(p, s) == None
  {
  }

  /** For every target the corrected test accepts, the add-time rule and the check-time
      rule agree: a price gets "Target Reached!" from one exactly when it does from the other. */
  lemma AcceptedTargetRulesAgree(t: Float, x: real)
    requires AcceptTarget(Some(t))
    ensures InitialStatus(x, t) == TargetReached <==> AtMost(x, t)
  {
  }

  /** The per-record invariant that adding and checking keep: a positive target and a
      lowest price not above the current one. */
  predicate GoodRecord(p: Product) {
    IsPositive(p.target) && p.lowest <= p.current
  }

  /** Checking keeps a good record good, and makes it satisfy `lowest <= current` whenever
      a price was sampled, whatever the record held before. */
  lemma CheckKeepsGoodRecord(p: Product, s: Sample)
    ensures GoodRecord(p) ==> GoodRecord(Check(p, s))
    ensures s.Sampled? && IsPositive(p.target) ==> GoodRecord(Check(p, s))
  {
  }
}
