/** The marketing wallet and what ads spend from it. Money is in centavos. */
module Wallet {
  import opened Common

  type AdId = string
  type Centavos = int

  const AD_COST_PER_CLICK := 50
  const AD_COST_PER_IMPRESSION := 5

  datatype Entry =
    | Deposit(amount: Centavos, balanceAfter: Centavos)
    | AdSpend(amount: Centavos, balanceAfter: Centavos, adId: AdId)

  datatype EventType = Impression | Click | Conversion

  datatype Ad = Ad(
    totalBudget: Option<Centavos>, isActive: bool, spent: Centavos, impressions: nat, clicks: nat, conversions: nat,
    revenue: Centavos)

  datatype DepositError = NotPositive | DuplicateKey

  // ---- what the rows say --------------------------------------------------------------

  function Deposits(rows: seq<Entry>): Centavos {
    if rows == [] then 0 else
      Deposits(rows[..|rows| - 1]) + if rows[|rows| - 1].Deposit? then rows[|rows| - 1].amount else 0
  }

  function Spend(rows: seq<Entry>): Centavos {
    if rows == [] then 0 else
      Spend(rows[..|rows| - 1]) + if rows[|rows| - 1].AdSpend? then rows[|rows| - 1].amount else 0
  }

  function SpendOn(rows: seq<Entry>, ad: AdId): Centavos {
    if rows == [] then 0 else
      var last := rows[|rows| - 1];
      SpendOn(rows[..|rows| - 1], ad) + if last.AdSpend? && last.adId == ad then last.amount else 0
  }

  /** Every row records the balance that the rows up to it add up to, and never a negative one. */
  ghost predicate Running(rows: seq<Entry>) {
    rows != [] ==>
      var last := rows[|rows| - 1];
      last.amount > 0 && last.balanceAfter == Deposits(rows) - Spend(rows) >= 0 && Running(rows[..|rows| - 1])
  }

  lemma OneMoreRow(rows: seq<Entry>, row: Entry, ad: AdId)
    ensures Deposits(rows + [row]) == Deposits(rows) + if row.Deposit? then row.amount else 0
    ensures Spend(rows + [row]) == Spend(rows) + if row.AdSpend? then row.amount else 0
    ensures SpendOn(rows + [row], ad) == SpendOn(rows, ad) + if row.AdSpend? && row.adId == ad then row.amount else 0
  {
    assert (rows + [row])[..|rows|] == rows;
  }

  lemma RunningOneMore(rows: seq<Entry>, row: Entry)
    requires Running(rows) && row.amount > 0
    requires row.balanceAfter == Deposits(rows) - Spend(rows) + (if row.Deposit? then row.amount else -row.amount)
    requires row.balanceAfter >= 0
    ensures Running(rows + [row])
  {
    OneMoreRow(rows, row, "");
    assert (rows + [row])[..|rows|] == rows;
  }

  /** Each row's balance is the running total of the rows up to it. */
  lemma {:induction false} BalanceAfterIsPrefix(rows: seq<Entry>, k: nat)
    requires Running(rows) && k < |rows|
    ensures rows[k].balanceAfter == Deposits(rows[..k + 1]) - Spend(rows[..k + 1]) >= 0
    decreases |rows|
  {
    if k == |rows| - 1 {
      assert rows[..k + 1] == rows;
    } else {
      BalanceAfterIsPrefix(rows[..|rows| - 1], k);
      assert rows[..|rows| - 1][..k + 1] == rows[..k + 1];
    }
  }

  // ---- spending -----------------------------------------------------------------------

  function CostOf(e: EventType): Centavos {
    match e
    case Click => AD_COST_PER_CLICK
    case Impression => AD_COST_PER_IMPRESSION
    case Conversion => 0
  }

  /** A budget of nothing counts as no budget. */
  predicate Budgeted(ad: Ad) {
    ad.totalBudget.Some? && ad.totalBudget.value != 0
  }

  predicate OverBudget(ad: Ad, cost: Centavos) {
    Budgeted(ad) && ad.spent + cost > ad.totalBudget.value
  }

  /** What one event is charged: its cost, unless the budget or the wallet does not stretch to it. */
  function Charge(ad: Ad, e: EventType, balance: Centavos): Centavos {
    if OverBudget(ad, CostOf(e)) || balance < CostOf(e) then 0 else CostOf(e)
  }

  /** Whether an event switches its ad off: it could not be paid for, or it used the budget up. */
  predicate SwitchesOff(ad: Ad, e: EventType, balance: Centavos) {
    CostOf(e) > 0 &&
    (OverBudget(ad, CostOf(e)) || balance < CostOf(e) || (Budgeted(ad) && ad.spent + CostOf(e) >= ad.totalBudget.value))
  }

  /**
   * A click costs fifty centavos, an impression five, anything else nothing. The cost is charged when
   * the budget has room for it and the balance covers it; a priced event that is not charged, or that
   * takes the spend up to the budget, switches the ad off.
   */
  lemma ChargeIs(ad: Ad, e: EventType, balance: Centavos)
    ensures var cost := if e == Click then 50 else if e == Impression then 5 else 0;
      var budgeted := ad.totalBudget != None && ad.totalBudget.value != 0;
      var paid := (budgeted ==> ad.spent + cost <= ad.totalBudget.value) && balance >= cost;
      Charge(ad, e, balance) == (if paid then cost else 0) &&
      (SwitchesOff(ad, e, balance) <==> cost > 0 && (!paid || (budgeted && ad.spent + cost >= ad.totalBudget.value)))
  {
  }

  /** The counters after an event. */
  function Counted(ad: Ad, e: EventType, revenue: Centavos, spend: Centavos): Ad {
    ad.(impressions := if e.Impression? then ad.impressions + 1 else ad.impressions,
        clicks := if e.Click? then ad.clicks + 1 else ad.clicks,
        conversions := if e.Conversion? then ad.conversions + 1 else ad.conversions,
        revenue := ad.revenue + revenue, spent := ad.spent + spend)
  }

  function Tracked(ad: Ad, e: EventType, balance: Centavos, revenue: Centavos): Ad {
    Counted(ad.(isActive := ad.isActive && !SwitchesOff(ad, e, balance)), e, revenue, Charge(ad, e, balance))
  }

  ghost predicate WithinBudget(ad: Ad) {
    Budgeted(ad) && ad.totalBudget.value > 0 ==> ad.spent <= ad.totalBudget.value
  }

  /** An ad's spend never passes a fixed positive budget, whatever events it is charged for. */
  lemma TrackedWithinBudget(ad: Ad, e: EventType, balance: Centavos, revenue: Centavos)
    requires WithinBudget(ad)
    ensures WithinBudget(Tracked(ad, e, balance, revenue))
  {
  }

  // ---- the books of one seller --------------------------------------------------------

  /** `keys` are the reference keys in the transaction table, which are unique across all wallets. */
  datatype State = State(
    balance: Centavos, deposited: Centavos, spent: Centavos, rows: seq<Entry>, keys: set<string>, ads: map<AdId, Ad>)

  /** The wallet's columns are what its rows add up to. */
  ghost predicate Agree(s: State) {
    s.balance == s.deposited - s.spent >= 0 && s.deposited == Deposits(s.rows) && s.spent == Spend(s.rows) && Running(s.rows)
  }

  /**
   * What always holds: the balance is never negative, and every centavo spent is in the rows, under
   * the ad it was spent on. Deposits may be missing from the rows; if none is, the columns agree.
   */
  ghost predicate Sound(s: State) {
    s.balance == s.deposited - s.spent >= 0 && s.spent == Spend(s.rows) && s.deposited >= Deposits(s.rows) &&
    (s.deposited == Deposits(s.rows) ==> Running(s.rows)) &&
    (forall id :: id in s.ads ==> s.ads[id].spent == SpendOn(s.rows, id))
  }

  predicate Names(rows: seq<Entry>, id: AdId) {
    exists k :: 0 <= k < |rows| && rows[k].AdSpend? && rows[k].adId == id
  }

  lemma {:induction false} UnnamedSpendsNothing(rows: seq<Entry>, id: AdId)
    requires !Names(rows, id)
    ensures SpendOn(rows, id) == 0
  {
    if rows != [] {
      var n := |rows| - 1;
      assert forall k :: 0 <= k < n ==> rows[..n][k] == rows[k];
      UnnamedSpendsNothing(rows[..n], id);
    }
  }

  /** An empty reference key is no key. */
  function KeysOf(referenceKey: Option<string>): set<string> {
    if referenceKey.Some? && referenceKey.value != "" then {referenceKey.value} else {}
  }

  /** The columns take any positive amount; the row is refused when its reference key is in use. */
  function AfterDeposit(s: State, amount: Centavos, referenceKey: Option<string>): State {
    if amount <= 0 then s else
      var paid := s.(balance := s.balance + amount, deposited := s.deposited + amount);
      if KeysOf(referenceKey) * s.keys != {} then paid else
        paid.(rows := s.rows + [Deposit(amount, paid.balance)], keys := s.keys + KeysOf(referenceKey))
  }

  function NewAd(totalBudget: Option<Centavos>): Ad {
    Ad(totalBudget, true, 0, 0, 0, 0, 0)
  }

  function SpendRow(charge: Centavos, balance: Centavos, id: AdId): seq<Entry> {
    if charge > 0 then [AdSpend(charge, balance - charge, id)] else []
  }

  function AfterEvent(s: State, id: AdId, e: EventType, revenue: Centavos): State {
    if id !in s.ads then s else
      var charge := Charge(s.ads[id], e, s.balance);
      s.(balance := s.balance - charge, spent := s.spent + charge, rows := s.rows + SpendRow(charge, s.balance, id),
         ads := s.ads[id := Tracked(s.ads[id], e, s.balance, revenue)])
  }

  lemma DepositKeepsSound(s: State, amount: Centavos, referenceKey: Option<string>)
    requires Sound(s)
    ensures Sound(AfterDeposit(s, amount, referenceKey))
    ensures Agree(AfterDeposit(s, amount, referenceKey)) <==> Agree(s) && !(amount > 0 && KeysOf(referenceKey) * s.keys != {})
  {
    var row := Deposit(amount, s.balance + amount);
    if amount > 0 && KeysOf(referenceKey) * s.keys == {} {
      forall id
        ensures SpendOn(s.rows + [row], id) == SpendOn(s.rows, id) && Deposits(s.rows + [row]) == Deposits(s.rows) + amount
        ensures Spend(s.rows + [row]) == Spend(s.rows)
      {
        OneMoreRow(s.rows, row, id);
      }
      assert Deposits(s.rows + [row]) == Deposits(s.rows) + amount by { OneMoreRow(s.rows, row, ""); }
      if s.deposited == Deposits(s.rows) {
        RunningOneMore(s.rows, row);
      }
    }
  }

  lemma SpendKeepsSound(s: State, id: AdId, charge: Centavos, ads: map<AdId, Ad>)
    requires Sound(s) && id in s.ads && ads.Keys == s.ads.Keys && 0 < charge <= s.balance
    requires forall other :: other in ads ==> ads[other].spent == s.ads[other].spent + if other == id then charge else 0
    ensures var row := AdSpend(charge, s.balance - charge, id);
      var after := s.(balance := s.balance - charge, spent := s.spent + charge, rows := s.rows + [row], ads := ads);
      Sound(after) && (Agree(after) <==> Agree(s))
  {
    hide SpendOn, Spend, Deposits, Running;
    var row := AdSpend(charge, s.balance - charge, id);
    OneMoreRow(s.rows, row, id);
    if s.deposited == Deposits(s.rows) {
      RunningOneMore(s.rows, row);
    }
    forall other | other in ads
      ensures ads[other].spent == SpendOn(s.rows + [row], other)
    {
      OneMoreRow(s.rows, row, other);
    }
  }

  lemma EventKeepsSound(s: State, id: AdId, e: EventType, revenue: Centavos)
    requires Sound(s)
    ensures Sound(AfterEvent(s, id, e, revenue))
    ensures Agree(AfterEvent(s, id, e, revenue)) <==> Agree(s)
  {
    if id in s.ads {
      hide SwitchesOff, SpendOn, Spend, Deposits, Running;
      var charge := Charge(s.ads[id], e, s.balance);
      var ads := s.ads[id := Tracked(s.ads[id], e, s.balance, revenue)];
      if charge > 0 {
        SpendKeepsSound(s, id, charge, ads);
      } else {
        assert s.rows + SpendRow(charge, s.balance, id) == s.rows;
      }
    }
  }

  // ---- one seller's books, imperatively ------------------------------------------------

  class Books {
    var balance: Centavos
    var lifetimeDeposited: Centavos
    var lifetimeSpent: Centavos
    var rows: seq<Entry>
    var keys: set<string>
    var ads: map<AdId, Ad>

    constructor (keys: set<string>)
      ensures Valid() && Value() == Opened(keys)
    {
      balance, lifetimeDeposited, lifetimeSpent, rows, ads := 0, 0, 0, [], map[];
      this.keys := keys;
    }

    function Value(): State
      reads this
    {
      State(balance, lifetimeDeposited, lifetimeSpent, rows, keys, ads)
    }

    ghost predicate Valid()
      reads this
    {
      Sound(Value())
    }

    /**
     * Deposit. The wallet's columns are written before the row, and the two are not one
     * transaction: a reference key already used makes the row fail after the money was added.
     */
    method DepositFunds(amount: Centavos, referenceKey: Option<string>) returns (result: Result<Entry, DepositError>)
      requires Valid()
      modifies this`balance, this`lifetimeDeposited, this`rows, this`keys
      ensures Valid() && Value() == AfterDeposit(old(Value()), amount, referenceKey)
      ensures var repeats := KeysOf(referenceKey) * old(keys) != {};
        (result.Ok? <==> amount > 0 && !repeats) && (Agree(Value()) <==> Agree(old(Value())) && !(amount > 0 && repeats))
      ensures result.Ok? ==> rows == old(rows) + [result.value]
    {
      DepositKeepsSound(Value(), amount, referenceKey);
      if amount <= 0 {
        return Err(NotPositive);
      }
      balance := balance + amount;
      lifetimeDeposited := lifetimeDeposited + amount;
      var key := if referenceKey == Some("") then None else referenceKey;
      if key.Some? && key.value in keys {
        assert key.value in KeysOf(referenceKey) * keys;
        return Err(DuplicateKey);
      }
      var row := Deposit(amount, balance);
      rows := rows + [row];
      if key.Some? {
        keys := keys + {key.value};
      }
      result := Ok(row);
    }

    /** Spend on an ad, if the balance covers it. */
    method DeductSpend(adId: AdId, amount: Centavos) returns (success: bool)
      requires balance >= 0 && amount > 0
      modifies this`balance, this`lifetimeSpent, this`rows
      ensures balance >= 0 && lifetimeSpent - old(lifetimeSpent) == old(balance) - balance
      ensures success <==> old(balance) >= amount
      ensures balance == if success then old(balance) - amount else old(balance)
      ensures rows == if success then old(rows) + [AdSpend(amount, old(balance) - amount, adId)] else old(rows)
    {
      if balance < amount {
        return false;
      }
      balance := balance - amount;
      lifetimeSpent := lifetimeSpent + amount;
      rows := rows + [AdSpend(amount, balance, adId)];
      success := true;
    }

    /** A new ad has spent nothing; its id is generated, so no row names it. */
    method AddAd(adId: AdId, totalBudget: Option<Centavos>)
      requires Valid() && adId !in ads && !Names(rows, adId)
      modifies this`ads
      ensures Valid() && ads == old(ads)[adId := Ad(totalBudget, true, 0, 0, 0, 0, 0)]
    {
      UnnamedSpendsNothing(rows, adId);
      ads := ads[adId := NewAd(totalBudget)];
    }

    method SetBudget(adId: AdId, totalBudget: Option<Centavos>)
      requires Valid() && adId in ads
      modifies this`ads
      ensures Valid() && ads == old(ads)[adId := old(ads)[adId].(totalBudget := totalBudget)]
    {
      ads := ads[adId := ads[adId].(totalBudget := totalBudget)];
    }

    method SetActive(adId: AdId, isActive: bool)
      requires adId in ads
      modifies this`ads
      ensures ads == old(ads)[adId := old(ads)[adId].(isActive := isActive)]
    {
      ads := ads[adId := ads[adId].(isActive := isActive)];
    }

    method IncrementAdMetrics(adId: AdId, e: EventType, revenue: Centavos, spend: Centavos)
      requires adId in ads
      modifies this`ads
      ensures ads == old(ads)[adId := Counted(old(ads)[adId], e, revenue, spend)]
    {
      var ad := ads[adId];
      var counted := ad.(revenue := ad.revenue + revenue, spent := ad.spent + spend);
      if e.Impression? {
        counted := counted.(impressions := ad.impressions + 1);
      } else if e.Click? {
        counted := counted.(clicks := ad.clicks + 1);
      } else {
        counted := counted.(conversions := ad.conversions + 1);
      }
      assert counted == Counted(ad, e, revenue, spend);
      ads := ads[adId := counted];
    }

    /** Charge an event to the wallet within the ad's budget, switching the ad off when that fails or uses it up. */
    method ChargeEvent(adId: AdId, e: EventType) returns (spendAmount: Centavos)
      requires balance >= 0 && adId in ads
      modifies this`balance, this`lifetimeSpent, this`rows, this`ads
      ensures spendAmount == Charge(old(ads)[adId], e, old(balance))
      ensures balance == old(balance) - spendAmount && lifetimeSpent == old(lifetimeSpent) + spendAmount
      ensures rows == old(rows) + SpendRow(spendAmount, old(balance), adId)
      ensures var was := old(ads)[adId];
        ads == old(ads)[adId := was.(isActive := was.isActive && !SwitchesOff(was, e, old(balance)))]
    {
      var ad := ads[adId];
      assert ads == ads[adId := ad];
      assert rows == rows + [];
      if e.Click? {
        spendAmount := AD_COST_PER_CLICK;
      } else if e.Impression? {
        spendAmount := AD_COST_PER_IMPRESSION;
      } else {
        return 0;
      }
      if Budgeted(ad) && ad.spent + spendAmount > ad.totalBudget.value {
        SetActive(adId, false);
        return 0;
      }
      var success := DeductSpend(adId, spendAmount);
      if !success {
        SetActive(adId, false);
        return 0;
      }
      if Budgeted(ad) && ad.spent + spendAmount >= ad.totalBudget.value {
        SetActive(adId, false);
      }
    }

    /** Count an event and charge it to the ad's seller; `revenue` is what a paid order is worth. */
    method TrackEvent(adId: AdId, e: EventType, revenue: Centavos) returns (found: bool)
      requires Valid()
      modifies this`balance, this`lifetimeSpent, this`rows, this`ads
      ensures Valid() && (Agree(Value()) <==> Agree(old(Value())))
      ensures found <==> adId in old(ads)
      ensures Value() == AfterEvent(old(Value()), adId, e, revenue)
    {
      if adId !in ads {
        return false;
      }
      hide Sound, Agree, SwitchesOff, Charge, CostOf;
      ghost var before := Value();
      ghost var ad := ads[adId];
      var spendAmount := ChargeEvent(adId, e);
      IncrementAdMetrics(adId, e, revenue, spendAmount);
      assert ads[adId] == Tracked(ad, e, before.balance, revenue);
      assert ads == before.ads[adId := Tracked(ad, e, before.balance, revenue)];
      hide Tracked, Counted, SpendRow;
      assert Value() == AfterEvent(before, adId, e, revenue);
      EventKeepsSound(before, adId, e, revenue);
      found := true;
    }
  }

  // ---- whole runs -----------------------------------------------------------------------

  datatype Request =
    | Fund(amount: Centavos, referenceKey: Option<string>)
    | Advertise(id: AdId, totalBudget: Option<Centavos>)
    | Rebudget(id: AdId, totalBudget: Option<Centavos>)
    | Switch(id: AdId, isActive: bool)
    | Track(id: AdId, event: EventType, revenue: Centavos)

  function Opened(keys: set<string>): State {
    State(0, 0, 0, [], keys, map[])
  }

  /** What one request leaves. An id in use is never generated again. */
  function AfterOne(s: State, request: Request): State {
    match request
    case Fund(amount, referenceKey) => AfterDeposit(s, amount, referenceKey)
    case Advertise(id, totalBudget) =>
      if id in s.ads || Names(s.rows, id) then s else s.(ads := s.ads[id := NewAd(totalBudget)])
    case Rebudget(id, totalBudget) =>
      if id in s.ads then s.(ads := s.ads[id := s.ads[id].(totalBudget := totalBudget)]) else s
    case Switch(id, isActive) =>
      if id in s.ads then s.(ads := s.ads[id := s.ads[id].(isActive := isActive)]) else s
    case Track(id, event, revenue) => AfterEvent(s, id, event, revenue)
  }

  /** The books after requests served one after the other; `keys` are what other wallets have used. */
  function After(keys: set<string>, requests: seq<Request>): State {
    if requests == [] then Opened(keys) else
      AfterOne(After(keys, requests[..|requests| - 1]), requests[|requests| - 1])
  }

  /** A deposit whose row is refused: a positive amount under a reference key in use. */
  predicate Refused(s: State, request: Request) {
    request.Fund? && request.amount > 0 && KeysOf(request.referenceKey) * s.keys != {}
  }

  lemma OneKeepsSound(s: State, request: Request)
    requires Sound(s)
    ensures Sound(AfterOne(s, request))
    ensures Agree(AfterOne(s, request)) <==> Agree(s) && !Refused(s, request)
  {
    match request
    case Fund(amount, referenceKey) => DepositKeepsSound(s, amount, referenceKey);
    case Advertise(id, totalBudget) =>
      if !Names(s.rows, id) {
        UnnamedSpendsNothing(s.rows, id);
      }
    case Track(id, event, revenue) => EventKeepsSound(s, id, event, revenue);
    case _ =>
  }

  /** A positive deposit under a key. */
  predicate Brings(request: Request, key: string) {
    request.Fund? && request.amount > 0 && key in KeysOf(request.referenceKey)
  }

  /** A positive deposit repeats a reference key: of another wallet, or of a positive deposit before it. */
  ghost predicate RepeatsKey(keys: set<string>, requests: seq<Request>, k: nat)
    requires k < |requests|
  {
    exists key :: Brings(requests[k], key) && (key in keys || exists j :: 0 <= j < k && Brings(requests[j], key))
  }

  /** A key is in use exactly when another wallet used it or an earlier positive deposit brought it. */
  lemma {:induction false} KeysInUse(keys: set<string>, requests: seq<Request>, key: string)
    ensures key in After(keys, requests).keys <==> key in keys || exists j :: 0 <= j < |requests| && Brings(requests[j], key)
    decreases |requests|
  {
    if requests != [] {
      var n := |requests| - 1;
      KeysInUse(keys, requests[..n], key);
      assert forall j :: 0 <= j < n ==> requests[..n][j] == requests[j];
      if Brings(requests[n], key) && KeysOf(requests[n].referenceKey) * After(keys, requests[..n]).keys != {} {
        assert key in After(keys, requests[..n]).keys;
      }
    }
  }

  lemma RefusedIsRepeat(keys: set<string>, requests: seq<Request>, k: nat)
    requires k < |requests|
    ensures Refused(After(keys, requests[..k]), requests[k]) <==> RepeatsKey(keys, requests, k)
  {
    var before := requests[..k];
    var used := After(keys, before).keys;
    forall key
      ensures key in used <==> key in keys || exists j :: 0 <= j < k && Brings(requests[j], key)
    {
      KeysInUse(keys, before, key);
      assert forall j :: 0 <= j < k ==> before[j] == requests[j];
    }
    if Refused(After(keys, before), requests[k]) {
      var key :| key in KeysOf(requests[k].referenceKey) * used;
      assert Brings(requests[k], key);
    }
    if key :| Brings(requests[k], key) && (key in keys || exists j :: 0 <= j < k && Brings(requests[j], key)) {
      assert key in KeysOf(requests[k].referenceKey) * used;
    }
  }

  /**
   * After any deposits, new ads, budget changes, pauses and events: the balance is deposits less
   * spend and never negative, and each ad's spend is what the rows charge to it. The columns are
   * the totals of the rows exactly when no positive deposit repeated a reference key.
   */
  lemma {:induction false} BooksAfter(keys: set<string>, requests: seq<Request>)
    ensures Sound(After(keys, requests))
    ensures Agree(After(keys, requests)) <==> (forall k :: 0 <= k < |requests| ==> !RepeatsKey(keys, requests, k))
    decreases |requests|
  {
    if requests != [] {
      hide Sound, Agree, AfterOne, RepeatsKey, Refused;
      var n := |requests| - 1;
      BooksAfter(keys, requests[..n]);
      OneKeepsSound(After(keys, requests[..n]), requests[n]);
      RefusedIsRepeat(keys, requests, n);
      forall k | 0 <= k < n
        ensures RepeatsKey(keys, requests[..n], k) <==> RepeatsKey(keys, requests, k)
      {
        SamePrefix(keys, requests, n, k);
      }
    }
  }

  lemma SamePrefix(keys: set<string>, requests: seq<Request>, n: nat, k: nat)
    requires k < n <= |requests|
    ensures RepeatsKey(keys, requests[..n], k) <==> RepeatsKey(keys, requests, k)
  {
    assert requests[..n][..k] == requests[..k];
    RefusedIsRepeat(keys, requests[..n], k);
    RefusedIsRepeat(keys, requests, k);
  }

  /** Request `k` set the ad's present, positive budget when its present spend was already above it. */
  ghost predicate LoweredBelow(keys: set<string>, requests: seq<Request>, id: AdId, k: nat) {
    k < |requests| && id in After(keys, requests).ads && id in After(keys, requests[..k]).ads &&
    var ad, was := After(keys, requests).ads[id], After(keys, requests[..k]).ads[id];
    requests[k] == Rebudget(id, ad.totalBudget) && was.spent == ad.spent &&
    ad.totalBudget.Some? && was.spent > ad.totalBudget.value > 0
  }

  /**
   * An ad is over a positive budget exactly where its seller put it: some request set the budget
   * below what the ad had spent by then, and it has spent nothing since.
   */
  lemma {:induction false} OverspentOnlyByRebudget(keys: set<string>, requests: seq<Request>, id: AdId)
    requires id in After(keys, requests).ads
    ensures !WithinBudget(After(keys, requests).ads[id]) <==> exists k :: 0 <= k < |requests| && LoweredBelow(keys, requests, id, k)
    decreases |requests|
  {
    var n, ad := |requests| - 1, After(keys, requests).ads[id];
    var s := After(keys, requests[..n]);
    if WithinBudget(ad) {
    } else if requests[n].Rebudget? && requests[n].id == id {
      assert LoweredBelow(keys, requests, id, n);
    } else if id in s.ads {
      if requests[n].Track? && requests[n].id == id && WithinBudget(s.ads[id]) {
        TrackedWithinBudget(s.ads[id], requests[n].event, s.balance, requests[n].revenue);
      }
      OverspentOnlyByRebudget(keys, requests[..n], id);
      var k :| 0 <= k < n && LoweredBelow(keys, requests[..n], id, k);
      assert requests[..n][..k] == requests[..k];
      assert LoweredBelow(keys, requests, id, k);
    }
  }

  method Serve(keys: set<string>, requests: seq<Request>) returns (books: Books)
    ensures fresh(books) && books.Valid() && books.Value() == After(keys, requests)
  {
    books := new Books(keys);
    for k := 0 to |requests|
      invariant fresh(books) && books.Valid() && books.Value() == After(keys, requests[..k])
    {
      assert requests[..k + 1][..k] == requests[..k];
      match requests[k]
      case Fund(amount, referenceKey) =>
        var _ := books.DepositFunds(amount, referenceKey);
      case Advertise(id, totalBudget) =>
        if id !in books.ads && !Names(books.rows, id) {
          books.AddAd(id, totalBudget);
        }
      case Rebudget(id, totalBudget) =>
        if id in books.ads {
          books.SetBudget(id, totalBudget);
        }
      case Switch(id, isActive) =>
        if id in books.ads {
          books.SetActive(id, isActive);
        }
      case Track(id, event, revenue) =>
        var _ := books.TrackEvent(id, event, revenue);
    }
    assert requests[..|requests|] == requests;
  }
}
