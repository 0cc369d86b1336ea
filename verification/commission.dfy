/** Recruiter commissions: account balances against the rows they are made of. Money is in centavos. */
module Commission {
  import opened Common
  import opened Sums

  type AgentId = string
  type OrderId = string
  type TxnId = string
  type PayoutId = string
  type Instant = int
  type Centavos = int

  const RATE_SCALE := 100_000
  const DAY_MS := 24 * 60 * 60 * 1000

  datatype Kind = SaleCommission | CommissionReversal

  datatype TxnStatus = Pending | Matured | Cancelled

  datatype PayoutStatus = PayoutPending | PayoutProcessing | PayoutCompleted | PayoutFailed

  datatype Account = Account(pending: Centavos, available: Centavos, lifetimeEarned: Centavos, lifetimePaid: Centavos)

  datatype Txn = Txn(agentId: AgentId, orderId: OrderId, kind: Kind, status: TxnStatus, amount: Centavos, maturesAt: Option<Instant>)

  datatype Payout = Payout(agentId: AgentId, amount: Centavos, status: PayoutStatus)

  type Accounts = map<AgentId, Account>
  type Txns = map<TxnId, Txn>
  type Payouts = map<PayoutId, Payout>

  /** The order as crediting reads it; `agentId` is the seller's recruiter, if there is one. */
  datatype OrderInfo = OrderInfo(agentId: Option<AgentId>, subtotal: Centavos, discount: Centavos)

  /** The rate counts hundred-thousandths. */
  datatype Config = Config(rate: nat, holdDays: nat, payoutMinimum: Centavos, isEnabled: bool)

  const NEW_ACCOUNT := Account(0, 0, 0, 0)

  // ---- what the rows say --------------------------------------------------------------

  function PendingPart(t: Txn, a: AgentId): int { if t.agentId == a && t.status.Pending? then t.amount else 0 }

  function EarnedPart(t: Txn, a: AgentId): int { if t.agentId == a then t.amount else 0 }

  predicate IsOpen(p: Payout) { p.status.PayoutPending? || p.status.PayoutProcessing? }

  function OpenPart(p: Payout, a: AgentId): int {
    if p.agentId == a && IsOpen(p) then p.amount else 0
  }

  function PaidPart(p: Payout, a: AgentId): int { if p.agentId == a && p.status.PayoutCompleted? then p.amount else 0 }

  ghost function PendingOf(txns: Txns, a: AgentId): int { Sum(map t | t in txns :: PendingPart(txns[t], a)) }

  ghost function EarnedOf(txns: Txns, a: AgentId): int { Sum(map t | t in txns :: EarnedPart(txns[t], a)) }

  ghost function OpenOf(payouts: Payouts, a: AgentId): int { Sum(map p | p in payouts :: OpenPart(payouts[p], a)) }

  ghost function PaidOf(payouts: Payouts, a: AgentId): int { Sum(map p | p in payouts :: PaidPart(payouts[p], a)) }

  function AccountOf(accounts: Accounts, a: AgentId): Account {
    if a in accounts then accounts[a] else NEW_ACCOUNT
  }

  /** An account agrees with the rows of its agent; an agent without one has nothing. */
  ghost predicate Agrees(accounts: Accounts, txns: Txns, payouts: Payouts, a: AgentId) {
    var acc := AccountOf(accounts, a);
    acc.pending == PendingOf(txns, a) &&
    acc.lifetimeEarned == EarnedOf(txns, a) &&
    acc.lifetimePaid == PaidOf(payouts, a) &&
    acc.lifetimeEarned == acc.pending + acc.available + OpenOf(payouts, a) + acc.lifetimePaid
  }

  ghost predicate AllAgree(accounts: Accounts, txns: Txns, payouts: Payouts) {
    forall a :: Agrees(accounts, txns, payouts, a)
  }

  predicate For(t: Txn, o: OrderId, kind: Kind) {
    t.orderId == o && t.kind == kind
  }

  predicate Has(txns: Txns, o: OrderId, kind: Kind) {
    exists t :: t in txns && For(txns[t], o, kind)
  }

  /** One commission and one reversal an order, and a commission is cancelled exactly when it was reversed. */
  ghost predicate OneEach(txns: Txns) {
    (forall s, t :: s in txns && t in txns && s != t ==> !For(txns[s], txns[t].orderId, txns[t].kind)) &&
    (forall t :: t in txns && txns[t].kind.SaleCommission? ==>
      (txns[t].status.Cancelled? <==> Has(txns, txns[t].orderId, CommissionReversal)) && txns[t].amount > 0) &&
    (forall t :: t in txns && txns[t].kind.CommissionReversal? ==> txns[t].status.Cancelled?)
  }

  ghost predicate AccountsExist(accounts: Accounts, txns: Txns, payouts: Payouts) {
    (forall t :: t in txns ==> txns[t].agentId in accounts) &&
    (forall p :: p in payouts ==> payouts[p].agentId in accounts)
  }

  // ---- how sums move ------------------------------------------------------------------

  lemma TxnUpdate(txns: Txns, t: TxnId, row: Txn, a: AgentId)
    ensures PendingOf(txns[t := row], a)
         == PendingOf(txns, a) + PendingPart(row, a) - (if t in txns then PendingPart(txns[t], a) else 0)
    ensures EarnedOf(txns[t := row], a)
         == EarnedOf(txns, a) + EarnedPart(row, a) - (if t in txns then EarnedPart(txns[t], a) else 0)
  {
    hide Sum;
    var after := txns[t := row];
    var pending: map<TxnId, int> := map x | x in txns :: PendingPart(txns[x], a);
    var earned: map<TxnId, int> := map x | x in txns :: EarnedPart(txns[x], a);
    assert (map x | x in after :: PendingPart(after[x], a)) == pending[t := PendingPart(row, a)];
    assert (map x | x in after :: EarnedPart(after[x], a)) == earned[t := EarnedPart(row, a)];
    SumUpdate(pending, t, PendingPart(row, a));
    SumUpdate(earned, t, EarnedPart(row, a));
  }

  lemma PayoutUpdate(payouts: Payouts, p: PayoutId, row: Payout, a: AgentId)
    ensures OpenOf(payouts[p := row], a)
         == OpenOf(payouts, a) + OpenPart(row, a) - (if p in payouts then OpenPart(payouts[p], a) else 0)
    ensures PaidOf(payouts[p := row], a)
         == PaidOf(payouts, a) + PaidPart(row, a) - (if p in payouts then PaidPart(payouts[p], a) else 0)
  {
    hide Sum;
    var after := payouts[p := row];
    var open: map<PayoutId, int> := map x | x in payouts :: OpenPart(payouts[x], a);
    var paid: map<PayoutId, int> := map x | x in payouts :: PaidPart(payouts[x], a);
    assert (map x | x in after :: OpenPart(after[x], a)) == open[p := OpenPart(row, a)];
    assert (map x | x in after :: PaidPart(after[x], a)) == paid[p := PaidPart(row, a)];
    SumUpdate(open, p, OpenPart(row, a));
    SumUpdate(paid, p, PaidPart(row, a));
  }

  /** An account moved by `pending`, `available` and `earned`. */
  function Moved(acc: Account, pending: int, available: int, earned: int): Account {
    acc.(pending := acc.pending + pending, available := acc.available + available, lifetimeEarned := acc.lifetimeEarned + earned)
  }

  /** A row written together with the matching move of its agent's account keeps the agreement. */
  lemma TxnKeepsAgreement(accounts: Accounts, txns: Txns, payouts: Payouts, t: TxnId, row: Txn, pending: int, available: int, earned: int)
    requires AllAgree(accounts, txns, payouts)
    requires t in txns ==> txns[t].agentId == row.agentId
    requires pending == PendingPart(row, row.agentId) - (if t in txns then PendingPart(txns[t], row.agentId) else 0)
    requires earned == EarnedPart(row, row.agentId) - (if t in txns then EarnedPart(txns[t], row.agentId) else 0)
    requires earned == pending + available
    ensures AllAgree(accounts[row.agentId := Moved(AccountOf(accounts, row.agentId), pending, available, earned)], txns[t := row], payouts)
  {
    hide PendingOf, EarnedOf, OpenOf, PaidOf;
    var accounts' := accounts[row.agentId := Moved(AccountOf(accounts, row.agentId), pending, available, earned)];
    var txns' := txns[t := row];
    forall a: AgentId
      ensures Agrees(accounts', txns', payouts, a)
    {
      assert Agrees(accounts, txns, payouts, a);
      TxnUpdate(txns, t, row, a);
    }
  }

  lemma PayoutKeepsAgreement(accounts: Accounts, txns: Txns, payouts: Payouts, p: PayoutId, row: Payout, acc: Account)
    requires AllAgree(accounts, txns, payouts)
    requires p in payouts ==> payouts[p].agentId == row.agentId
    requires var was, a := AccountOf(accounts, row.agentId), row.agentId;
      var open := OpenPart(row, a) - (if p in payouts then OpenPart(payouts[p], a) else 0);
      var paid := PaidPart(row, a) - (if p in payouts then PaidPart(payouts[p], a) else 0);
      acc == was.(available := was.available - open - paid, lifetimePaid := was.lifetimePaid + paid)
    ensures AllAgree(accounts[row.agentId := acc], txns, payouts[p := row])
  {
    hide PendingOf, EarnedOf, OpenOf, PaidOf;
    var accounts', payouts' := accounts[row.agentId := acc], payouts[p := row];
    forall a: AgentId
      ensures Agrees(accounts', txns, payouts', a)
    {
      assert Agrees(accounts, txns, payouts, a);
      PayoutUpdate(payouts, p, row, a);
    }
  }

  // ---- the amount ---------------------------------------------------------------------

  /** The rate applied to what the goods cost after discount, to the nearest centavo. */
  function CommissionFor(order: OrderInfo, config: Config): Centavos {
    var eligibleBase := Max(0, order.subtotal - order.discount);
    (eligibleBase * config.rate + RATE_SCALE / 2) / RATE_SCALE
  }

  /** The amount is within half a centavo of the exact rate on what the goods cost, and never negative. */
  lemma NearestCentavo(order: OrderInfo, config: Config)
    ensures var exact := Max(0, order.subtotal - order.discount) * config.rate;
      0 <= CommissionFor(order, config) &&
      2 * exact - 100_000 < 2 * 100_000 * CommissionFor(order, config) <= 2 * exact + 100_000
  {
    var eligibleBase := Max(0, order.subtotal - order.discount);
    RateOf(eligibleBase, config.rate);
  }

  lemma RateOf(base: nat, rate: nat)
    ensures base * rate >= 0
  {
  }

  /** Whether an order earns a commission at all. */
  predicate Earns(order: Option<OrderInfo>, config: Config) {
    order.Some? && order.value.agentId.Some? && config.isEnabled && CommissionFor(order.value, config) > 0
  }

  // ---- maturation ---------------------------------------------------------------------

  predicate IsDue(t: Txn, now: Instant) {
    t.status.Pending? && t.maturesAt.Some? && t.maturesAt.value <= now
  }

  function Due(txns: Txns, now: Instant): set<TxnId> {
    set t | t in txns && IsDue(txns[t], now)
  }

  function MaturedRows(txns: Txns, rows: set<TxnId>): Txns {
    map t | t in txns :: if t in rows then txns[t].(status := Matured) else txns[t]
  }

  /** A sweep repeated at the same instant, with nothing new, has nothing to move. */
  lemma MatureTwice(txns: Txns, now: Instant)
    ensures Due(MaturedRows(txns, Due(txns, now)), now) == {}
    ensures MaturedRows(MaturedRows(txns, Due(txns, now)), {}) == MaturedRows(txns, Due(txns, now))
  {
    var after := MaturedRows(txns, Due(txns, now));
    forall t | t in after
      ensures !IsDue(after[t], now)
    {
      assert t in Due(txns, now) <==> IsDue(txns[t], now);
    }
  }

  lemma MaturingKeepsOneEach(txns: Txns, t: TxnId)
    requires OneEach(txns) && t in txns && txns[t].status.Pending?
    ensures OneEach(txns[t := txns[t].(status := Matured)])
  {
    var after := txns[t := txns[t].(status := Matured)];
    forall o
      ensures Has(after, o, CommissionReversal) == Has(txns, o, CommissionReversal)
    {
      if s :| s in txns && For(txns[s], o, CommissionReversal) {
        assert For(after[s], o, CommissionReversal);
      }
      if s :| s in after && For(after[s], o, CommissionReversal) {
        assert For(txns[s], o, CommissionReversal);
      }
    }
  }

  /** A first commission for its order. */
  lemma CreditKeepsOneEach(txns: Txns, t: TxnId, row: Txn)
    requires OneEach(txns) && t !in txns && row.kind.SaleCommission? && !row.status.Cancelled? && row.amount > 0
    requires !Has(txns, row.orderId, SaleCommission) && !Has(txns, row.orderId, CommissionReversal)
    ensures OneEach(txns[t := row])
  {
    var after := txns[t := row];
    forall s | s in txns
      ensures !For(txns[s], row.orderId, row.kind)
    {
    }
    forall o
      ensures Has(after, o, CommissionReversal) == Has(txns, o, CommissionReversal)
    {
      if s :| s in txns && For(txns[s], o, CommissionReversal) {
        assert For(after[s], o, CommissionReversal);
      }
      if s :| s in after && For(after[s], o, CommissionReversal) {
        assert For(txns[s], o, CommissionReversal);
      }
    }
  }

  /** The commission cancelled and its reversal written. */
  function Reversed(txns: Txns, sale: TxnId, reversal: TxnId): Txns
    requires sale in txns
  {
    txns[sale := txns[sale].(status := Cancelled)]
        [reversal := txns[sale].(kind := CommissionReversal, status := Cancelled, amount := -txns[sale].amount, maturesAt := None)]
  }

  lemma ReverseKeepsOneEach(txns: Txns, sale: TxnId, reversal: TxnId)
    requires OneEach(txns) && sale in txns && txns[sale].kind.SaleCommission? && reversal !in txns
    requires !Has(txns, txns[sale].orderId, CommissionReversal)
    ensures OneEach(Reversed(txns, sale, reversal))
  {
    var o, after := txns[sale].orderId, Reversed(txns, sale, reversal);
    forall s | s in txns
      ensures !For(txns[s], o, CommissionReversal)
    {
    }
    assert For(after[reversal], o, CommissionReversal);
    forall other | other != o
      ensures Has(after, other, CommissionReversal) == Has(txns, other, CommissionReversal)
    {
      if s :| s in txns && For(txns[s], other, CommissionReversal) {
        assert For(after[s], other, CommissionReversal);
      }
      if s :| s in after && For(after[s], other, CommissionReversal) {
        assert For(txns[s], other, CommissionReversal);
      }
    }
  }

  /** The order has a commission that has not been reversed. */
  predicate Reversible(txns: Txns, o: OrderId) {
    Has(txns, o, SaleCommission) && !Has(txns, o, CommissionReversal)
  }

  /** The amount taken back from the balance it is in. */
  function Debited(acc: Account, sale: Txn): Account {
    if sale.status.Pending? then Moved(acc, -sale.amount, 0, -sale.amount)
    else if sale.status.Matured? then Moved(acc, 0, -sale.amount, -sale.amount)
    else acc
  }

  ghost predicate ReversesSale(txns: Txns, txns': Txns, accounts: Accounts, accounts': Accounts, o: OrderId, sale: TxnId, reversal: TxnId) {
    sale in txns && For(txns[sale], o, SaleCommission) && txns[sale].agentId in accounts &&
    txns' == Reversed(txns, sale, reversal) &&
    accounts' == accounts[txns[sale].agentId := Debited(accounts[txns[sale].agentId], txns[sale])]
  }

  lemma ReversalStarts(txns: Txns, sale: TxnId)
    requires OneEach(txns) && sale in txns && txns[sale].kind.SaleCommission?
    requires !Has(txns, txns[sale].orderId, CommissionReversal)
    ensures !txns[sale].status.Cancelled?
  {
  }

  lemma HasItself(txns: Txns, t: TxnId)
    requires t in txns
    ensures Has(txns, txns[t].orderId, txns[t].kind)
  {
    assert For(txns[t], txns[t].orderId, txns[t].kind);
  }

  /** Nothing but a shift between pending and available. */
  ghost predicate SameTotals(before: Accounts, after: Accounts) {
    after.Keys == before.Keys && forall a :: a in after ==>
      after[a] == before[a].(pending := after[a].pending, available := before[a].available + before[a].pending - after[a].pending)
  }

  lemma StartTotals(accounts: Accounts)
    ensures SameTotals(accounts, accounts)
  {
  }

  lemma ShiftKeepsTotals(before: Accounts, after: Accounts, a: AgentId, amount: Centavos)
    requires SameTotals(before, after) && a in after
    ensures SameTotals(before, after[a := Moved(after[a], -amount, amount, 0)])
  {
  }

  lemma MatureOneMore(txns: Txns, rows: set<TxnId>, t: TxnId)
    requires t in txns && t !in rows
    ensures t in MaturedRows(txns, rows) && MaturedRows(txns, rows)[t] == txns[t]
    ensures MaturedRows(txns, rows + {t}) == MaturedRows(txns, rows)[t := txns[t].(status := Matured)]
  {
  }

  ghost predicate Sound(accounts: Accounts, txns: Txns, payouts: Payouts) {
    OneEach(txns) && AccountsExist(accounts, txns, payouts) && AllAgree(accounts, txns, payouts) &&
    forall t :: t in txns && txns[t].kind.CommissionReversal? ==> Has(txns, txns[t].orderId, SaleCommission)
  }

  lemma MatureKeepsSound(accounts: Accounts, txns: Txns, payouts: Payouts, t: TxnId)
    requires Sound(accounts, txns, payouts) && t in txns && txns[t].status.Pending?
    ensures txns[t].agentId in accounts
    ensures Sound(accounts[txns[t].agentId := Moved(accounts[txns[t].agentId], -txns[t].amount, txns[t].amount, 0)],
      txns[t := txns[t].(status := Matured)], payouts)
  {
    hide OneEach, AllAgree, Has;
    var row := txns[t].(status := Matured);
    TxnKeepsAgreement(accounts, txns, payouts, t, row, -row.amount, row.amount, 0);
    MaturingKeepsOneEach(txns, t);
    SalesStay(txns, txns[t := row]);
  }

  lemma ReverseKeepsSound(accounts: Accounts, txns: Txns, payouts: Payouts, sale: TxnId, reversal: TxnId)
    requires Sound(accounts, txns, payouts) && reversal !in txns && sale in txns && txns[sale].kind.SaleCommission?
    requires !Has(txns, txns[sale].orderId, CommissionReversal)
    ensures txns[sale].agentId in accounts && !txns[sale].status.Cancelled?
    ensures Sound(accounts[txns[sale].agentId := Debited(accounts[txns[sale].agentId], txns[sale])], Reversed(txns, sale, reversal), payouts)
  {
    hide OneEach, AllAgree, Has, Debited;
    ReversalStarts(txns, sale);
    ReverseKeepsOneEach(txns, sale, reversal);
    ReversalAgrees(accounts, txns, payouts, sale, reversal);
    SalesStay(txns, Reversed(txns, sale, reversal));
    HasItself(txns, sale);
  }

  // ---- one call at a time ---------------------------------------------------------------

  datatype State = State(accounts: Accounts, txns: Txns, payouts: Payouts)

  /** The calls, each one transaction; the sweep is one `Mature` for each row it gets to. */
  datatype Call =
    | Credit(orderId: OrderId, newId: TxnId, order: Option<OrderInfo>, config: Config, now: Instant)
    | Reverse(orderId: OrderId, newId: TxnId)
    | Mature(t: TxnId, now: Instant)
    | Request(agentId: AgentId, amount: Centavos, payoutId: PayoutId, config: Config)
    | Approve(payoutId: PayoutId)

  predicate Credits(txns: Txns, orderId: OrderId, order: Option<OrderInfo>, config: Config) {
    !Has(txns, orderId, SaleCommission) && Earns(order, config)
  }

  function SaleRow(orderId: OrderId, order: OrderInfo, config: Config, now: Instant): Txn
    requires order.agentId.Some?
  {
    Txn(order.agentId.value, orderId, SaleCommission, Pending, CommissionFor(order, config), Some(now + config.holdDays * DAY_MS))
  }

  predicate MayRequest(s: State, agentId: AgentId, amount: Centavos, config: Config) {
    amount >= config.payoutMinimum && amount <= AccountOf(s.accounts, agentId).available
  }

  /** What a call leaves. Ids are generated, so a new one is not in use; a refused call changes nothing. */
  ghost predicate Next(s: State, s': State, call: Call) {
    match call
    case Credit(orderId, newId, order, config, now) =>
      newId !in s.txns &&
      if !Credits(s.txns, orderId, order, config) then s' == s else
        var row := SaleRow(orderId, order.value, config, now);
        s' == s.(txns := s.txns[newId := row],
                 accounts := s.accounts[row.agentId := Moved(AccountOf(s.accounts, row.agentId), row.amount, 0, row.amount)])
    case Reverse(orderId, newId) =>
      newId !in s.txns &&
      if !Reversible(s.txns, orderId) then s' == s else
        s'.payouts == s.payouts && exists sale :: ReversesSale(s.txns, s'.txns, s.accounts, s'.accounts, orderId, sale, newId)
    case Mature(t, now) =>
      t in s.txns && IsDue(s.txns[t], now) &&
      var row := s.txns[t];
      s' == s.(txns := s.txns[t := row.(status := Matured)],
               accounts := s.accounts[row.agentId := Moved(AccountOf(s.accounts, row.agentId), -row.amount, row.amount, 0)])
    case Request(agentId, amount, payoutId, config) =>
      payoutId !in s.payouts &&
      if !MayRequest(s, agentId, amount, config) then s' == s else
        var was := AccountOf(s.accounts, agentId);
        s' == s.(payouts := s.payouts[payoutId := Payout(agentId, amount, PayoutPending)],
                 accounts := s.accounts[agentId := was.(available := was.available - amount)])
    case Approve(payoutId) =>
      if payoutId !in s.payouts || !IsOpen(s.payouts[payoutId]) then s' == s else
        var was := s.payouts[payoutId];
        var acc := AccountOf(s.accounts, was.agentId);
        s' == s.(payouts := s.payouts[payoutId := was.(status := PayoutCompleted)],
                 accounts := s.accounts[was.agentId := acc.(lifetimePaid := acc.lifetimePaid + was.amount)])
  }

  // ---- the ledger ---------------------------------------------------------------------

  datatype PayoutError = BelowMinimum | Insufficient(available: Centavos) | PayoutNotFound | NotOpen(status: PayoutStatus)

  class Ledger {
    var accounts: Accounts
    var txns: Txns
    var payouts: Payouts

    constructor ()
      ensures Valid() && txns == map[] && payouts == map[] && accounts == map[]
    {
      accounts, txns, payouts := map[], map[], map[];
      NothingAgrees();
    }

    ghost predicate Valid()
      reads this
    {
      Sound(accounts, txns, payouts)
    }

    function Value(): State
      reads this
    {
      State(accounts, txns, payouts)
    }

    /** Credit an order once. An order that earns nothing, and one already credited, change nothing. */
    method CreditOrderCommission(orderId: OrderId, newId: TxnId, order: Option<OrderInfo>, config: Config, now: Instant)
        returns (result: Option<TxnId>)
      requires Valid() && newId !in txns
      modifies this
      ensures Valid() && Next(old(Value()), Value(), Credit(orderId, newId, order, config, now))
      ensures Credits(old(txns), orderId, order, config) ==> result == Some(newId)
      ensures Has(old(txns), orderId, SaleCommission) ==>
        result.Some? && result.value in txns && For(txns[result.value], orderId, SaleCommission)
    {
      var existing := FindFirst(orderId, SaleCommission);
      if existing.Some? {
        return existing;
      }
      if order.None? || order.value.agentId.None? || !config.isEnabled {
        return None;
      }
      var eligibleBase := Max(0, order.value.subtotal - order.value.discount);
      if eligibleBase <= 0 {
        assert CommissionFor(order.value, config) == 0;
        return None;
      }
      var amount := CommissionFor(order.value, config);
      if amount <= 0 {
        return None;
      }
      var agentId := order.value.agentId.value;
      var row := Txn(agentId, orderId, SaleCommission, Pending, amount, Some(now + config.holdDays * DAY_MS));
      hide Sound, Has;
      CreditKeepsSound(Value(), agentId, newId, row);
      accounts := accounts[agentId := Moved(AccountOf(accounts, agentId), amount, 0, amount)];
      txns := txns[newId := row];
      result := Some(newId);
    }

    method FindFirst(orderId: OrderId, kind: Kind) returns (found: Option<TxnId>)
      ensures found.Some? <==> Has(txns, orderId, kind)
      ensures found.Some? ==> found.value in txns && For(txns[found.value], orderId, kind)
    {
      var rows := set t | t in txns && For(txns[t], orderId, kind);
      if rows == {} {
        assert forall t :: t in txns && For(txns[t], orderId, kind) ==> t in rows;
        return None;
      }
      var t :| t in rows;
      found := Some(t);
    }

    /** Reverse an order's commission once, out of whichever balance it is in. */
    method ReverseOrderCommission(orderId: OrderId, newId: TxnId) returns (result: Option<TxnId>)
      requires Valid() && newId !in txns
      modifies this
      ensures Valid() && Next(old(Value()), Value(), Reverse(orderId, newId))
      ensures result.Some? <==> Has(old(txns), orderId, SaleCommission)
      ensures result.Some? ==> result.value in txns && For(txns[result.value], orderId, CommissionReversal)
      ensures Reversible(old(txns), orderId) ==> result == Some(newId)
    {
      var original := FindFirst(orderId, SaleCommission);
      if original.None? {
        return None;
      }
      var existingReversal := FindFirst(orderId, CommissionReversal);
      if existingReversal.Some? {
        return existingReversal;
      }
      ReverseSale(original.value, newId);
      assert ReversesSale(old(txns), txns, old(accounts), accounts, orderId, original.value, newId);
      result := Some(newId);
    }

    method ReverseSale(sale: TxnId, newId: TxnId)
      requires Valid() && newId !in txns && sale in txns && txns[sale].kind.SaleCommission?
      requires !Has(txns, txns[sale].orderId, CommissionReversal)
      modifies this`accounts, this`txns
      ensures Valid() && txns == Reversed(old(txns), sale, newId)
      ensures old(txns)[sale].agentId in old(accounts) &&
        accounts == old(accounts)[old(txns)[sale].agentId := Debited(old(accounts)[old(txns)[sale].agentId], old(txns)[sale])]
    {
      hide Sound;
      ReverseKeepsSound(accounts, txns, payouts, sale, newId);
      var was := txns[sale];
      var account := accounts[was.agentId];
      if was.status.Pending? {
        account := Moved(account, -was.amount, 0, -was.amount);
      } else if was.status.Matured? {
        account := Moved(account, 0, -was.amount, -was.amount);
      }
      accounts := accounts[was.agentId := account];
      txns := txns[sale := was.(status := Cancelled)];
      txns := txns[newId := was.(kind := CommissionReversal, status := Cancelled, amount := -was.amount, maturesAt := None)];
    }

    /** Move exactly the due commissions from pending to available. */
    method MaturePendingCommissions(now: Instant) returns (maturedCount: nat)
      requires Valid()
      modifies this
      ensures Valid() && payouts == old(payouts)
      ensures txns == MaturedRows(old(txns), Due(old(txns), now)) && maturedCount == |Due(old(txns), now)|
      ensures txns.Keys == old(txns).Keys
      ensures forall t :: t in old(txns) ==>
        var row := old(txns)[t];
        txns[t] == if row.status == Pending && row.maturesAt.Some? && row.maturesAt.value <= now then row.(status := Matured) else row
      ensures SameTotals(old(accounts), accounts)
    {
      hide Sound, SameTotals;
      assert SameTotals(accounts, accounts) by { StartTotals(accounts); }
      var due := Due(txns, now);
      var todo := due;
      ghost var before := txns;
      maturedCount := 0;
      while todo != {}
        invariant todo <= due && due <= before.Keys && Valid() && payouts == old(payouts)
        invariant txns == MaturedRows(before, due - todo)
        invariant maturedCount == |due| - |todo|
        invariant SameTotals(old(accounts), accounts)
      {
        var t :| t in todo;
        assert due - (todo - {t}) == due - todo + {t};
        MatureOneMore(before, due - todo, t);
        todo := todo - {t};
        var current := txns[t];
        if current.status.Pending? {
          MatureKeepsSound(accounts, txns, payouts, t);
          ShiftKeepsTotals(old(accounts), accounts, current.agentId, current.amount);
          MatureOne(t, now);
          maturedCount := maturedCount + 1;
        }
      }
      assert due - todo == due;
    }

    /** One commission's maturation. */
    method MatureOne(t: TxnId, now: Instant)
      requires Valid() && t in txns && IsDue(txns[t], now)
      modifies this`accounts, this`txns
      ensures Valid() && Next(old(Value()), Value(), Mature(t, now))
      ensures txns == old(txns)[t := old(txns)[t].(status := Matured)]
      ensures old(txns)[t].agentId in old(accounts)
      ensures var current := old(txns)[t];
        accounts == old(accounts)[current.agentId := Moved(old(accounts)[current.agentId], -current.amount, current.amount, 0)]
    {
      hide Sound;
      MatureKeepsSound(accounts, txns, payouts, t);
      var current := txns[t];
      accounts := accounts[current.agentId := Moved(accounts[current.agentId], -current.amount, current.amount, 0)];
      txns := txns[t := current.(status := Matured)];
    }

    method RequestPayout(agentId: AgentId, amount: Centavos, newId: PayoutId, config: Config)
        returns (result: Result<PayoutId, PayoutError>)
      requires Valid() && newId !in payouts
      modifies this
      ensures Valid() && Next(old(Value()), Value(), Request(agentId, amount, newId, config))
      ensures result.Ok? <==> amount >= config.payoutMinimum && amount <= AccountOf(old(accounts), agentId).available
      ensures result.Ok? ==> result.value == newId
    {
      if amount < config.payoutMinimum {
        return Err(BelowMinimum);
      }
      var account := AccountOf(accounts, agentId);
      if account.available < amount {
        return Err(Insufficient(account.available));
      }
      var row := Payout(agentId, amount, PayoutPending);
      PayoutKeepsSound(Value(), newId, row, account.(available := account.available - amount));
      accounts := accounts[agentId := account.(available := account.available - amount)];
      payouts := payouts[newId := row];
      result := Ok(newId);
    }

    method ApprovePayout(payoutId: PayoutId) returns (result: Result<Payout, PayoutError>)
      requires Valid()
      modifies this
      ensures Valid() && Next(old(Value()), Value(), Approve(payoutId))
      ensures result.Ok? <==> payoutId in old(payouts) && IsOpen(old(payouts)[payoutId])
      ensures result.Ok? ==> payoutId in payouts && result.value == payouts[payoutId]
    {
      if payoutId !in payouts {
        return Err(PayoutNotFound);
      }
      var payout := payouts[payoutId];
      if !payout.status.PayoutPending? && !payout.status.PayoutProcessing? {
        return Err(NotOpen(payout.status));
      }
      var account := accounts[payout.agentId];
      PayoutKeepsSound(Value(), payoutId, payout.(status := PayoutCompleted),
        account.(lifetimePaid := account.lifetimePaid + payout.amount));
      accounts := accounts[payout.agentId := account.(lifetimePaid := account.lifetimePaid + payout.amount)];
      payouts := payouts[payoutId := payout.(status := PayoutCompleted)];
      result := Ok(payouts[payoutId]);
    }
  }

  lemma NothingFor(txns: Txns, payouts: Payouts, a: AgentId)
    requires forall t :: t in txns ==> txns[t].agentId != a
    requires forall p :: p in payouts ==> payouts[p].agentId != a
    ensures PendingOf(txns, a) == 0 && EarnedOf(txns, a) == 0 && OpenOf(payouts, a) == 0 && PaidOf(payouts, a) == 0
  {
    var none: map<string, int> := map[];
    SumIgnoresZeros(map t | t in txns :: PendingPart(txns[t], a), none);
    SumIgnoresZeros(map t | t in txns :: EarnedPart(txns[t], a), none);
    SumIgnoresZeros(map p | p in payouts :: OpenPart(payouts[p], a), none);
    SumIgnoresZeros(map p | p in payouts :: PaidPart(payouts[p], a), none);
  }

  lemma NothingAgrees()
    ensures AllAgree(map[], map[], map[])
  {
    hide PendingOf, EarnedOf, OpenOf, PaidOf;
    forall a
      ensures Agrees(map[], map[], map[], a)
    {
      NothingFor(map[], map[], a);
    }
  }

  /** Rows keep their order and kind, so an order once credited stays so. */
  lemma SalesStay(before: Txns, after: Txns)
    requires forall t :: t in before ==> t in after && after[t].orderId == before[t].orderId && after[t].kind == before[t].kind
    ensures forall o, kind :: Has(before, o, kind) ==> Has(after, o, kind)
  {
    forall o, kind | Has(before, o, kind)
      ensures Has(after, o, kind)
    {
      var t :| t in before && For(before[t], o, kind);
      assert For(after[t], o, kind);
    }
  }

  /** Cancelling a commission and writing its reversal, with the account moved once, agrees. */
  lemma ReversalAgrees(accounts: Accounts, txns: Txns, payouts: Payouts, sale: TxnId, reversal: TxnId)
    requires AllAgree(accounts, txns, payouts) && sale in txns && reversal !in txns && !txns[sale].status.Cancelled?
    requires txns[sale].agentId in accounts
    ensures AllAgree(accounts[txns[sale].agentId := Debited(accounts[txns[sale].agentId], txns[sale])], Reversed(txns, sale, reversal), payouts)
  {
    var was := txns[sale];
    var pending := if was.status.Pending? then -was.amount else 0;
    var step := accounts[was.agentId := Moved(AccountOf(accounts, was.agentId), pending, -pending, 0)];
    var cancelled := txns[sale := was.(status := Cancelled)];
    TxnKeepsAgreement(accounts, txns, payouts, sale, was.(status := Cancelled), pending, -pending, 0);
    TxnKeepsAgreement(step, cancelled, payouts, reversal,
      was.(kind := CommissionReversal, status := Cancelled, amount := -was.amount, maturesAt := None), 0, -was.amount, -was.amount);
    assert step[was.agentId := Moved(AccountOf(step, was.agentId), 0, -was.amount, -was.amount)] ==
      accounts[was.agentId := Moved(accounts[was.agentId], pending, -pending - was.amount, -was.amount)];
  }

  // ---- whole runs -----------------------------------------------------------------------

  ghost predicate IsRun(run: seq<State>, calls: seq<Call>) {
    |run| == |calls| + 1 && run[0] == State(map[], map[], map[]) &&
    forall k :: 0 <= k < |calls| ==> Next(run[k], run[k + 1], calls[k])
  }

  lemma ReversedWasSold(s: State, o: OrderId)
    requires Sound(s.accounts, s.txns, s.payouts)
    ensures Has(s.txns, o, CommissionReversal) ==> Has(s.txns, o, SaleCommission)
  {
    if t :| t in s.txns && For(s.txns[t], o, CommissionReversal) {
      assert s.txns[t].kind.CommissionReversal?;
    }
  }

  lemma CreditKeepsSound(s: State, agentId: AgentId, newId: TxnId, row: Txn)
    requires Sound(s.accounts, s.txns, s.payouts) && newId !in s.txns && row.agentId == agentId
    requires row.kind.SaleCommission? && row.status.Pending? && row.amount > 0 && !Has(s.txns, row.orderId, SaleCommission)
    ensures Sound(s.accounts[agentId := Moved(AccountOf(s.accounts, agentId), row.amount, 0, row.amount)], s.txns[newId := row], s.payouts)
  {
    hide AllAgree, OneEach;
    TxnKeepsAgreement(s.accounts, s.txns, s.payouts, newId, row, row.amount, 0, row.amount);
    ReversedWasSold(s, row.orderId);
    CreditKeepsOneEach(s.txns, newId, row);
    SalesStay(s.txns, s.txns[newId := row]);
    HasItself(s.txns[newId := row], newId);
  }

  lemma PayoutKeepsSound(s: State, p: PayoutId, row: Payout, acc: Account)
    requires Sound(s.accounts, s.txns, s.payouts)
    requires p in s.payouts ==> s.payouts[p].agentId == row.agentId
    requires var was, a := AccountOf(s.accounts, row.agentId), row.agentId;
      var open := OpenPart(row, a) - (if p in s.payouts then OpenPart(s.payouts[p], a) else 0);
      var paid := PaidPart(row, a) - (if p in s.payouts then PaidPart(s.payouts[p], a) else 0);
      acc == was.(available := was.available - open - paid, lifetimePaid := was.lifetimePaid + paid)
    ensures Sound(s.accounts[row.agentId := acc], s.txns, s.payouts[p := row])
  {
    hide AllAgree, OneEach;
    PayoutKeepsAgreement(s.accounts, s.txns, s.payouts, p, row, acc);
  }

  lemma NextKeepsSound(s: State, s': State, call: Call)
    requires Sound(s.accounts, s.txns, s.payouts) && Next(s, s', call)
    ensures Sound(s'.accounts, s'.txns, s'.payouts)
  {
    hide Sound, OneEach, AllAgree;
    match call
    case Credit(orderId, newId, order, config, now) =>
      if Credits(s.txns, orderId, order, config) {
        CreditKeepsSound(s, order.value.agentId.value, newId, SaleRow(orderId, order.value, config, now));
      }
    case Reverse(orderId, newId) =>
      if Reversible(s.txns, orderId) {
        var sale :| ReversesSale(s.txns, s'.txns, s.accounts, s'.accounts, orderId, sale, newId);
        ReverseKeepsSound(s.accounts, s.txns, s.payouts, sale, newId);
      }
    case Mature(t, now) => MatureKeepsSound(s.accounts, s.txns, s.payouts, t);
    case Request(agentId, amount, newId, config) =>
      if MayRequest(s, agentId, amount, config) {
        var was := AccountOf(s.accounts, agentId);
        PayoutKeepsSound(s, newId, Payout(agentId, amount, PayoutPending), was.(available := was.available - amount));
      }
    case Approve(p) =>
      if p in s.payouts && IsOpen(s.payouts[p]) {
        assert s.payouts[p].agentId in s.accounts by { PayoutHasAccount(s, p); }
        var was, acc := s.payouts[p], s.accounts[s.payouts[p].agentId];
        PayoutKeepsSound(s, p, was.(status := PayoutCompleted), acc.(lifetimePaid := acc.lifetimePaid + was.amount));
      }
  }

  lemma PayoutHasAccount(s: State, p: PayoutId)
    requires Sound(s.accounts, s.txns, s.payouts) && p in s.payouts
    ensures s.payouts[p].agentId in s.accounts
  {
  }

  /** What an order still earns: a reversed commission and its reversal earn nothing together. */
  function StandingPart(t: Txn, a: AgentId): int { if t.agentId == a && !t.status.Cancelled? then t.amount else 0 }

  ghost function StandingOf(txns: Txns, a: AgentId): int { Sum(map t | t in txns :: StandingPart(txns[t], a)) }

  lemma StandingUpdate(txns: Txns, t: TxnId, row: Txn, a: AgentId)
    ensures StandingOf(txns[t := row], a)
         == StandingOf(txns, a) + StandingPart(row, a) - (if t in txns then StandingPart(txns[t], a) else 0)
  {
    hide Sum;
    var after := txns[t := row];
    var standing: map<TxnId, int> := map x | x in txns :: StandingPart(txns[x], a);
    assert (map x | x in after :: StandingPart(after[x], a)) == standing[t := StandingPart(row, a)];
    SumUpdate(standing, t, StandingPart(row, a));
  }

  lemma ReversalStands(txns: Txns, sale: TxnId, reversal: TxnId, a: AgentId)
    requires sale in txns && reversal !in txns && !txns[sale].status.Cancelled?
    ensures EarnedOf(Reversed(txns, sale, reversal), a) - EarnedOf(txns, a)
         == StandingOf(Reversed(txns, sale, reversal), a) - StandingOf(txns, a)
  {
    hide EarnedOf, StandingOf, PendingOf;
    var cancelled := txns[sale].(status := Cancelled);
    var row := cancelled.(kind := CommissionReversal, amount := -txns[sale].amount, maturesAt := None);
    TxnUpdate(txns, sale, cancelled, a);
    StandingUpdate(txns, sale, cancelled, a);
    TxnUpdate(txns[sale := cancelled], reversal, row, a);
    StandingUpdate(txns[sale := cancelled], reversal, row, a);
  }

  lemma NextStands(s: State, s': State, call: Call, a: AgentId)
    requires Sound(s.accounts, s.txns, s.payouts) && Next(s, s', call) && EarnedOf(s.txns, a) == StandingOf(s.txns, a)
    ensures EarnedOf(s'.txns, a) == StandingOf(s'.txns, a)
  {
    hide Sound, EarnedOf, StandingOf, PendingOf;
    match call
    case Credit(orderId, newId, order, config, now) =>
      if Credits(s.txns, orderId, order, config) {
        TxnUpdate(s.txns, newId, SaleRow(orderId, order.value, config, now), a);
        StandingUpdate(s.txns, newId, SaleRow(orderId, order.value, config, now), a);
      }
    case Reverse(orderId, newId) =>
      if Reversible(s.txns, orderId) {
        var sale :| ReversesSale(s.txns, s'.txns, s.accounts, s'.accounts, orderId, sale, newId);
        ReverseKeepsSound(s.accounts, s.txns, s.payouts, sale, newId);
        ReversalStands(s.txns, sale, newId, a);
      }
    case Mature(t, now) =>
      TxnUpdate(s.txns, t, s.txns[t].(status := Matured), a);
      StandingUpdate(s.txns, t, s.txns[t].(status := Matured), a);
    case _ =>
  }

  lemma {:induction false} RunsStaySound(run: seq<State>, calls: seq<Call>, k: nat, a: AgentId)
    requires IsRun(run, calls) && k < |run|
    ensures Sound(run[k].accounts, run[k].txns, run[k].payouts) && EarnedOf(run[k].txns, a) == StandingOf(run[k].txns, a)
    decreases k
  {
    hide Sound, Next, EarnedOf, StandingOf;
    if k == 0 {
      NothingIsSound(a);
    } else {
      RunsStaySound(run, calls, k - 1, a);
      assert Next(run[k - 1], run[k], calls[k - 1]);
      NextKeepsSound(run[k - 1], run[k], calls[k - 1]);
      NextStands(run[k - 1], run[k], calls[k - 1], a);
    }
  }

  lemma NothingIsSound(a: AgentId)
    ensures Sound(map[], map[], map[]) && EarnedOf(map[], a) == StandingOf(map[], a)
  {
    NothingAgrees();
  }

  /**
   * Conservation over whole runs: after any credits, reversals, maturations, payout requests and
   * approvals, an agent's commissions that stand unreversed are pending, available, being paid out
   * or paid; and the account's own columns are those totals.
   */
  lemma EarningsConserved(run: seq<State>, calls: seq<Call>, k: nat, a: AgentId)
    requires IsRun(run, calls) && k < |run|
    ensures var s := run[k];
      var acc := AccountOf(s.accounts, a);
      StandingOf(s.txns, a) == PendingOf(s.txns, a) + acc.available + OpenOf(s.payouts, a) + PaidOf(s.payouts, a) &&
      acc.pending == PendingOf(s.txns, a) && acc.lifetimePaid == PaidOf(s.payouts, a) && acc.lifetimeEarned == StandingOf(s.txns, a)
  {
    hide PendingOf, EarnedOf, OpenOf, PaidOf, StandingOf;
    RunsStaySound(run, calls, k, a);
    assert Agrees(run[k].accounts, run[k].txns, run[k].payouts, a);
  }

  // ---- the hold -------------------------------------------------------------------------

  /** Call `j` credits the order under row `t`, at `now` and for `holdDays`. */
  ghost predicate CreditsAt(run: seq<State>, calls: seq<Call>, j: nat, t: TxnId) {
    IsRun(run, calls) && j < |calls| && calls[j].Credit? && calls[j].newId == t && t in run[j + 1].txns
  }

  /** When the hold of the row that call `j` credits is over. */
  function HoldEnds(call: Call): Instant
    requires call.Credit?
  {
    call.now + call.config.holdDays * 24 * 60 * 60 * 1000
  }

  /** A credited commission stays, and keeps the instant its hold ends. */
  lemma {:induction false} HoldStays(run: seq<State>, calls: seq<Call>, j: nat, k: nat, t: TxnId)
    requires CreditsAt(run, calls, j, t) && j < k < |run|
    ensures t in run[k].txns && run[k].txns[t].kind == SaleCommission && run[k].txns[t].maturesAt == Some(HoldEnds(calls[j]))
    decreases k
  {
    assert Next(run[k - 1], run[k], calls[k - 1]);
    if k > j + 1 {
      HoldStays(run, calls, j, k - 1, t);
      KindsStay(run[k - 1], run[k], calls[k - 1], t);
    }
  }

  lemma KindsStay(s: State, s': State, call: Call, t: TxnId)
    requires Next(s, s', call) && t in s.txns
    ensures t in s'.txns && s'.txns[t].kind == s.txns[t].kind && s'.txns[t].maturesAt == s.txns[t].maturesAt
    ensures s'.txns[t].status == s.txns[t].status || s'.txns[t].status == Cancelled || (call.Mature? && call.t == t)
  {
    if call.Reverse? && Reversible(s.txns, call.orderId) {
      var sale :| ReversesSale(s.txns, s'.txns, s.accounts, s'.accounts, call.orderId, sale, call.newId);
    }
  }

  /** A commission is Matured only after a maturation at an instant when its hold was over. */
  lemma {:induction false} MaturedAfterItsHold(run: seq<State>, calls: seq<Call>, j: nat, k: nat, t: TxnId)
    requires CreditsAt(run, calls, j, t) && j < k < |run| && t in run[k].txns && run[k].txns[t].status == Matured
    ensures exists m :: j < m < k && calls[m].Mature? && calls[m].t == t && calls[m].now >= HoldEnds(calls[j])
    decreases k
  {
    assert Next(run[k - 1], run[k], calls[k - 1]);
    if k > j + 1 {
      HoldStays(run, calls, j, k - 1, t);
      KindsStay(run[k - 1], run[k], calls[k - 1], t);
      if run[k - 1].txns[t].status == Matured {
        MaturedAfterItsHold(run, calls, j, k - 1, t);
      }
    }
  }

  /** And a sweep once the hold is over leaves no credited commission Pending. */
  lemma SweepEndsTheHold(run: seq<State>, calls: seq<Call>, j: nat, k: nat, t: TxnId, now: Instant)
    requires CreditsAt(run, calls, j, t) && j < k < |run| && now >= HoldEnds(calls[j])
    ensures t in MaturedRows(run[k].txns, Due(run[k].txns, now))
    ensures MaturedRows(run[k].txns, Due(run[k].txns, now))[t].status ==
      if run[k].txns[t].status == Pending then Matured else run[k].txns[t].status
  {
    HoldStays(run, calls, j, k, t);
  }
}
