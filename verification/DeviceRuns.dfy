// Serial runs of the device API.
module DeviceRuns {
  import opened DeviceOrders

  datatype Op =
    | Create(dto: OrderDto)
    | Pay(order: nat, amount: int)
    | Split(order: nat, amount: int, items: seq<SplitItem>)
    | Cancel(order: nat, signed: nat -> bool)
  {
    // What the request validation guarantees; split requests are not validated.
    predicate Valid() {
      match this
      case Create(dto) => dto.Valid()
      case Pay(_, amount) => amount >= 1
      case _ => true
    }
  }

  function Apply(db: Db, op: Op): Db {
    match op
    case Create(dto) => AfterCreateOrder(db, dto).0
    case Pay(o, amount) => AfterPayment(db, o, amount).0
    case Split(o, amount, items) => AfterSplitPayment(db, o, amount, items).0
    case Cancel(o, signed) => AfterCancel(db, o, signed).0
  }

  function Run(db: Db, ops: seq<Op>): Db {
    if ops == [] then db else Apply(Run(db, ops[..|ops| - 1]), ops[|ops| - 1])
  }

  lemma RunAppend(db: Db, ops: seq<Op>, op: Op)
    ensures Run(db, ops + [op]) == Apply(Run(db, ops), op)
  {
    assert (ops + [op])[..|ops|] == ops;
  }

  function Start(products: map<nat, Product>): Db {
    Db(products, [], [])
  }

  predicate AllValid(ops: seq<Op>) {
    forall i :: 0 <= i < |ops| ==> ops[i].Valid()
  }
}
