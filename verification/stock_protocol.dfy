/**
 * Every path that touches stock, as statements of transactions that interleave.
 *
 * A transaction keeps the rows it has written in an overlay `w` until it commits, as Postgres
 * keeps uncommitted row versions. A row in an overlay is locked: no other transaction may write
 * it. Reads see the committed rows and the transaction's own writes (READ COMMITTED).
 */
module StockProtocol {
  import opened Common
  import opened Stock
  import opened OrderState

  type TxId = nat

  // ---- operations and their statements ------------------------------------------------

  datatype Op =
    | Checkout(orderId: OrderId, lines: seq<Line>)
    | ReserveStock(line: Line, forOrder: Option<OrderId>)
    | ConsumeHold(reservationId: ReservationId, orderId: OrderId)
    | ReleaseHold(reservationId: ReservationId)
    | SweepHold(reservationId: ReservationId)
    | GatewayFailure(orderId: OrderId)
    | PaymentSucceeded(orderId: OrderId)
    | PaymentFailed(orderId: OrderId)
    | Advance(orderId: OrderId, to: OrderStatus)
    | CancelOrder(orderId: OrderId)
    | CompleteOrder(orderId: OrderId, items: seq<Line>)
    | ExpireOrder(orderId: OrderId)
    | Restock(inventoryId: InventoryId, added: nat)
    | Adjust(inventoryId: InventoryId, target: int)

  datatype Stmt =
    | TryReserve(line: Line)
    | InsertHold(line: Line, forOrder: Option<OrderId>)
    | InsertOrder(orderId: OrderId, lines: seq<Line>)
    | CheckTransition(orderId: OrderId, to: OrderStatus)
    | SetStatus(orderId: OrderId, to: OrderStatus)
    | SetStatusWhere(orderId: OrderId, from: OrderStatus, to: OrderStatus)
    | ProceedIf(orderId: OrderId, status: OrderStatus)
    | ClaimOrder(orderId: OrderId, next: ReservationStatus)
    | ClaimHold(reservationId: ReservationId, next: ReservationStatus, must: bool)
    | CreditClaimed
    | SellClaimed
    | AttachOrder(reservationId: ReservationId, orderId: OrderId)
    | TakeFromShelf(line: Line)
    | AddToShelf(inventoryId: InventoryId, added: nat)
    | SetOnHand(inventoryId: InventoryId, onHand: int)
    | Done

  /** The statement an operation runs at position `pc`; Done past its end. */
  function StmtAt(op: Op, pc: nat): Stmt {
    match op
    case Checkout(o, lines) =>
      if pc < 2 * |lines| then
        if pc % 2 == 0 then TryReserve(lines[pc / 2]) else InsertHold(lines[pc / 2], None)
      else if pc == 2 * |lines| then InsertOrder(o, lines)
      else Done
    case ReserveStock(line, forOrder) =>
      if pc == 0 then TryReserve(line) else if pc == 1 then InsertHold(line, forOrder) else Done
    case ConsumeHold(r, o) =>
      if pc == 0 then ClaimHold(r, Consumed, true) else if pc == 1 then SellClaimed
      else if pc == 2 then AttachOrder(r, o) else Done
    case ReleaseHold(r) =>
      if pc == 0 then ClaimHold(r, Released, false) else if pc == 1 then CreditClaimed else Done
    case SweepHold(r) =>
      if pc == 0 then ClaimHold(r, Expired, false) else if pc == 1 then CreditClaimed else Done
    case GatewayFailure(o) =>
      if pc == 0 then SetStatus(o, Failed) else if pc == 1 then ClaimOrder(o, Released)
      else if pc == 2 then CreditClaimed else Done
    case PaymentSucceeded(o) =>
      if pc == 0 then SetStatusWhere(o, Pending, Processing) else Done
    case PaymentFailed(o) =>
      if pc == 0 then ClaimOrder(o, Released) else if pc == 1 then CreditClaimed
      else if pc == 2 then ProceedIf(o, Pending) else if pc == 3 then SetStatus(o, Failed) else Done
    case Advance(o, to) =>
      if pc == 0 then CheckTransition(o, to) else if pc == 1 then SetStatus(o, to) else Done
    case CancelOrder(o) =>
      if pc == 0 then CheckTransition(o, Cancelled) else if pc == 1 then ClaimOrder(o, Released)
      else if pc == 2 then CreditClaimed else if pc == 3 then SetStatus(o, Cancelled) else Done
    case CompleteOrder(o, items) =>
      if pc == 0 then CheckTransition(o, Completed)
      else if pc <= |items| then TakeFromShelf(items[pc - 1])
      else if pc == |items| + 1 then ClaimOrder(o, Consumed)
      else if pc == |items| + 2 then CreditClaimed
      else if pc == |items| + 3 then SetStatus(o, Completed) else Done
    case ExpireOrder(o) =>
      if pc == 0 then SetStatusWhere(o, Pending, Cancelled) else if pc == 1 then ClaimOrder(o, Expired)
      else if pc == 2 then CreditClaimed else Done
    case Restock(i, added) =>
      if pc == 0 then AddToShelf(i, added) else Done
    case Adjust(i, target) =>
      if pc == 0 then SetOnHand(i, Max(0, target)) else Done
  }

  /** Where an operation stands when it returns early. */
  function EndOf(op: Op): nat
    ensures StmtAt(op, EndOf(op)).Done?
  {
    match op
    case Checkout(_, lines) => 2 * |lines| + 1
    case CompleteOrder(_, items) => |items| + 4
    case _ => 4
  }

  // ---- transactions -------------------------------------------------------------------

  /**
   * `owed` is what claimed rows still have to be credited, `unrecorded` an increment whose
   * reservation row is not inserted yet, `made` the reservation ids inserted so far.
   */
  datatype Tx = Tx(op: Op, pc: nat, w: Db, owed: map<InventoryId, int>, unrecorded: Option<Line>,
                   made: seq<ReservationId>)

  datatype World = World(db: Db, txs: map<TxId, Tx>)

  const NOTHING := Db(map[], map[], map[])

  /** What a transaction sees: the committed rows under its own writes. */
  function View(db: Db, w: Db): Db {
    Db(db.stock + w.stock, db.reservations + w.reservations, db.orders + w.orders)
  }

  /** No row is written by both: the row locks. */
  ghost predicate DisjointWrites(a: Db, b: Db) {
    a.stock.Keys !! b.stock.Keys && a.reservations.Keys !! b.reservations.Keys && a.orders.Keys !! b.orders.Keys
  }

  function WriteStock(w: Db, i: InventoryId, row: StockRow): Db {
    w.(stock := w.stock[i := row])
  }

  function WriteHold(w: Db, r: ReservationId, row: Reservation): Db {
    w.(reservations := w.reservations[r := row])
  }

  function WriteOrder(w: Db, o: OrderId, row: Order): Db {
    w.(orders := w.orders[o := row])
  }

  /** The inventory rows that the claimed rows sit on: the keys of the fold. */
  function RowsOf(rs: Reservations, claimed: set<ReservationId>): set<InventoryId> {
    set r | r in claimed && r in rs :: rs[r].inventoryId
  }

  /** The rows `ids` linked to order `o`. */
  function Linked(rs: Reservations, ids: seq<ReservationId>, o: OrderId): Reservations {
    map r | r in rs && r in ids :: rs[r].(orderId := Some(o))
  }

  /** The rows `claimed` with their new status. */
  function Claimed(rs: Reservations, claimed: set<ReservationId>, next: ReservationStatus): Reservations {
    map r | r in rs && r in claimed :: rs[r].(status := next)
  }

  /**
   * One statement of a transaction. None when it throws, which aborts the transaction.
   * `pick` is the generated row id for an insert and the row to credit next for a credit.
   */
  ghost function Exec(db: Db, tx: Tx, pick: string): Option<Tx> {
    ExecStmt(db, tx, StmtAt(tx.op, tx.pc), pick)
  }

  ghost function ExecStmt(db: Db, tx: Tx, stmt: Stmt, pick: string): Option<Tx> {
    var v := View(db, tx.w);
    match stmt
    case TryReserve(line) => DoTryReserve(v, tx, line)
    case InsertHold(line, forOrder) => DoInsertHold(v, tx, line, forOrder, pick)
    case InsertOrder(o, lines) => DoInsertOrder(v, tx, o, lines)
    case CheckTransition(o, to) => DoCheckTransition(v, tx, o, to)
    case SetStatus(o, to) => DoSetStatus(v, tx, o, to)
    case SetStatusWhere(o, from, to) => DoSetStatusWhere(v, tx, o, from, to)
    case ProceedIf(o, status) => DoProceedIf(v, tx, o, status)
    case ClaimOrder(o, next) => DoClaimOrder(v, tx, o, next)
    case ClaimHold(r, next, must) => DoClaimHold(v, tx, r, next, must)
    case CreditClaimed => DoCredit(v, tx, pick)
    case SellClaimed => DoSell(v, tx, pick)
    case AttachOrder(r, o) => DoAttach(v, tx, r, o)
    case TakeFromShelf(line) => DoShelf(v, tx, line.inventoryId, 0 - line.quantity)
    case AddToShelf(i, added) => if i in v.stock then DoShelf(v, tx, i, added) else Some(tx.(pc := tx.pc + 1))
    case SetOnHand(i, n) => DoSetOnHand(v, tx, i, n)
    case Done => None
  }

  function DoTryReserve(v: Db, tx: Tx, line: Line): Option<Tx> {
    var i := line.inventoryId;
    if i in v.stock && Available(v.stock[i]) >= line.quantity then
      Some(tx.(pc := tx.pc + 1, unrecorded := Some(line),
               w := WriteStock(tx.w, i, AddReserved(v.stock[i], line.quantity))))
    else None
  }

  function NewHold(line: Line, forOrder: Option<OrderId>): Reservation {
    Reservation(line.inventoryId, line.quantity, Reserved, forOrder, 0)
  }

  function DoInsertHold(v: Db, tx: Tx, line: Line, forOrder: Option<OrderId>, pick: string): Option<Tx> {
    if pick in v.reservations then None else
      Some(tx.(pc := tx.pc + 1, unrecorded := None, made := tx.made + [pick],
               w := WriteHold(tx.w, pick, NewHold(line, forOrder))))
  }

  function DoInsertOrder(v: Db, tx: Tx, o: OrderId, lines: seq<Line>): Option<Tx> {
    if o in v.orders then None else
      Some(tx.(pc := tx.pc + 1,
               w := Db(tx.w.stock, tx.w.reservations + Linked(v.reservations, tx.made, o),
                       tx.w.orders[o := Order(Pending, lines, tx.made)])))
  }

  function DoCheckTransition(v: Db, tx: Tx, o: OrderId, to: OrderStatus): Option<Tx> {
    if o in v.orders && TransitionAllowed(v.orders[o].status, to) then Some(tx.(pc := tx.pc + 1)) else None
  }

  function DoSetStatus(v: Db, tx: Tx, o: OrderId, to: OrderStatus): Option<Tx> {
    if o in v.orders then
      Some(tx.(pc := tx.pc + 1, w := WriteOrder(tx.w, o, v.orders[o].(status := to))))
    else None
  }

  function DoSetStatusWhere(v: Db, tx: Tx, o: OrderId, from: OrderStatus, to: OrderStatus): Option<Tx> {
    if o in v.orders && v.orders[o].status == from then DoSetStatus(v, tx, o, to)
    else Some(tx.(pc := EndOf(tx.op)))
  }

  /** A status read that decides whether the operation goes on; the write it guards comes later. */
  function DoProceedIf(v: Db, tx: Tx, o: OrderId, status: OrderStatus): Option<Tx> {
    if o in v.orders && v.orders[o].status == status then Some(tx.(pc := tx.pc + 1))
    else Some(tx.(pc := EndOf(tx.op)))
  }

  ghost function DoClaimOrder(v: Db, tx: Tx, o: OrderId, next: ReservationStatus): Option<Tx> {
    var claimed := Outstanding(v.reservations, o);
    Some(tx.(pc := tx.pc + 1, owed := OwedFor(v.reservations, claimed, RowsOf(v.reservations, claimed)),
             w := tx.w.(reservations := tx.w.reservations + Claimed(v.reservations, claimed, next))))
  }

  function DoClaimHold(v: Db, tx: Tx, r: ReservationId, next: ReservationStatus, must: bool): Option<Tx> {
    if r in v.reservations && v.reservations[r].status.Reserved? then
      var row := v.reservations[r];
      Some(tx.(pc := tx.pc + 1, owed := map[row.inventoryId := row.quantity],
               w := WriteHold(tx.w, r, row.(status := next))))
    else if must then None
    else Some(tx.(pc := EndOf(tx.op)))
  }

  function DoCredit(v: Db, tx: Tx, pick: string): Option<Tx> {
    if tx.owed == map[] then Some(tx.(pc := tx.pc + 1))
    else if pick in tx.owed && pick in v.stock then
      Some(tx.(owed := tx.owed - {pick},
               w := WriteStock(tx.w, pick, AddReserved(v.stock[pick], -tx.owed[pick]))))
    else None
  }

  function DoSell(v: Db, tx: Tx, pick: string): Option<Tx> {
    if pick in tx.owed && pick in v.stock then
      Some(tx.(pc := tx.pc + 1, owed := tx.owed - {pick},
               w := WriteStock(tx.w, pick,
                      AddOnHand(AddReserved(v.stock[pick], -tx.owed[pick]), -tx.owed[pick]))))
    else None
  }

  function DoAttach(v: Db, tx: Tx, r: ReservationId, o: OrderId): Option<Tx> {
    if r in v.reservations then
      Some(tx.(pc := tx.pc + 1, w := WriteHold(tx.w, r, v.reservations[r].(orderId := Some(o)))))
    else None
  }

  function DoShelf(v: Db, tx: Tx, i: InventoryId, d: int): Option<Tx> {
    if i in v.stock then
      Some(tx.(pc := tx.pc + 1, w := WriteStock(tx.w, i, AddOnHand(v.stock[i], d))))
    else None
  }

  function DoSetOnHand(v: Db, tx: Tx, i: InventoryId, n: int): Option<Tx> {
    if i in v.stock then
      Some(tx.(pc := tx.pc + 1, w := WriteStock(tx.w, i, v.stock[i].(onHand := n))))
    else Some(tx.(pc := tx.pc + 1))
  }

  // ---- runs ---------------------------------------------------------------------------

  datatype Event = Begin(t: TxId, op: Op) | Run(t: TxId, pick: string) | Commit(t: TxId) | Abort(t: TxId)

  /** The order an operation acts on. */
  function OrderOf(op: Op): Option<OrderId> {
    match op
    case Checkout(o, _) => Some(o)
    case GatewayFailure(o) => Some(o)
    case PaymentSucceeded(o) => Some(o)
    case PaymentFailed(o) => Some(o)
    case Advance(o, _) => Some(o)
    case CancelOrder(o) => Some(o)
    case CompleteOrder(o, _) => Some(o)
    case ExpireOrder(o) => Some(o)
    case _ => None
  }

  /**
   * Operations on an order start once it is committed: each is given, or first reads, the order.
   * A completion works on that order's items, and accepting moves it forward only.
   */
  ghost predicate CanBegin(db: Db, op: Op) {
    (OrderOf(op).Some? && !op.Checkout? ==> OrderOf(op).value in db.orders) &&
    (op.CompleteOrder? ==> db.orders[op.orderId].items == op.items) &&
    (op.Advance? ==> op.to.Processing? || op.to.ReadyForPickup?)
  }

  ghost predicate Next(s: World, s': World, e: Event) {
    match e
    case Begin(t, op) =>
      t !in s.txs && CanBegin(s.db, op) && s' == s.(txs := s.txs[t := Tx(op, 0, NOTHING, map[], None, [])])
    case Run(t, pick) =>
      t in s.txs &&
      var after := Exec(s.db, s.txs[t], pick);
      after.Some? &&
      (forall u :: u in s.txs && u != t ==> DisjointWrites(after.value.w, s.txs[u].w)) &&
      s' == s.(txs := s.txs[t := after.value])
    case Commit(t) =>
      t in s.txs && StmtAt(s.txs[t].op, s.txs[t].pc).Done? &&
      s' == World(View(s.db, s.txs[t].w), s.txs - {t})
    case Abort(t) =>
      t in s.txs && s' == s.(txs := s.txs - {t})
  }

  /** Nothing reserved, no orders, no transactions: the state every run starts from. */
  ghost predicate Init(s: World) {
    s.txs == map[] && s.db.reservations == map[] && s.db.orders == map[] &&
    forall i :: i in s.db.stock ==> s.db.stock[i].reserved == 0 && s.db.stock[i].onHand >= 0
  }

  /** `run` goes through the events `es` one by one. */
  ghost predicate IsRun(run: seq<World>, es: seq<Event>) {
    |run| == |es| + 1 && Init(run[0]) && forall k :: 0 <= k < |es| ==> Next(run[k], run[k + 1], es[k])
  }
}
