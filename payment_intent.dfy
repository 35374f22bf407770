/**
 * The payment-intent ledger of `something.py`: a list of merchant entries
 * (id, balance) and a list of payment intents (id, merchant id, amount,
 * state), updated in place by seven operations, and the command loop that
 * reads command lines and dispatches them.
 *
 * Ids are compared as strings, as the command loop passes them; amounts
 * are unbounded integers (Python's `int`). `int(...)` is the `parseInt`
 * parameter.
 */
module Ledger {
  import opened Wrappers
  import opened Text

  /** A merchant entry `[merchant_id, balance]`. */
  datatype Merchant = Merchant(id: string, balance: int)

  /** A payment-intent entry `[payment_intent_id, merchant_id, amount, state]`. */
  datatype Intent = Intent(id: string, merchant: string, amount: int, state: string)

  /** The contents of the two lists. */
  datatype Books = Books(merchants: seq<Merchant>, intents: seq<Intent>)

  /** Some intent carries this id. */
  predicate HasIntent(intents: seq<Intent>, paymentIntentId: string) {
    exists k :: 0 <= k < |intents| && intents[k].id == paymentIntentId
  }

  /** What the intents with this id owe the merchant with id `merchantId`: the sum of their amounts. */
  function Owed(intents: seq<Intent>, paymentIntentId: string, merchantId: string): int {
    if intents == [] then 0
    else
      var last := intents[|intents| - 1];
      Owed(intents[..|intents| - 1], paymentIntentId, merchantId)
      + (if last.id == paymentIntentId && last.merchant == merchantId then last.amount else 0)
  }

  /** Every merchant entry moved by `sign` times what the intents with this id owe it. */
  function Settle(merchants: seq<Merchant>, intents: seq<Intent>, paymentIntentId: string, sign: int): seq<Merchant> {
    seq(|merchants|, j requires 0 <= j < |merchants| =>
      merchants[j].(balance := merchants[j].balance + sign * Owed(intents, paymentIntentId, merchants[j].id)))
  }

  /** Every intent with this id put in `states[k]`; `states[k]` is read only where one matches. */
  function Restate(intents: seq<Intent>, paymentIntentId: string, states: seq<string>, k: nat): seq<Intent>
    requires HasIntent(intents, paymentIntentId) ==> k < |states|
  {
    seq(|intents|, i requires 0 <= i < |intents| =>
      if intents[i].id == paymentIntentId then intents[i].(state := states[k]) else intents[i])
  }

  /** Every intent with this id given the new amount. */
  function Reprice(intents: seq<Intent>, paymentIntentId: string, newAmount: int): seq<Intent> {
    seq(|intents|, i requires 0 <= i < |intents| =>
      if intents[i].id == paymentIntentId then intents[i].(amount := newAmount) else intents[i])
  }

  // ---------------------------------------------------------------------
  // The seven operations on the contents

  function InitOf(b: Books, merchantId: string, startingBalance: int): Books {
    b.(merchants := b.merchants + [Merchant(merchantId, startingBalance)])
  }

  function CreateOf(b: Books, paymentIntentId: string, merchantId: string, amount: int, states: seq<string>): Books
    requires |states| > 0
  {
    b.(intents := b.intents + [Intent(paymentIntentId, merchantId, amount, states[0])])
  }

  function AttemptOf(b: Books, paymentIntentId: string, states: seq<string>): Books
    requires HasIntent(b.intents, paymentIntentId) ==> |states| > 1
  {
    Books(Settle(b.merchants, b.intents, paymentIntentId, 1), Restate(b.intents, paymentIntentId, states, 1))
  }

  function SucceedOf(b: Books, paymentIntentId: string, states: seq<string>): Books
    requires HasIntent(b.intents, paymentIntentId) ==> |states| > 2
  {
    b.(intents := Restate(b.intents, paymentIntentId, states, 2))
  }

  function UpdateOf(b: Books, paymentIntentId: string, newAmount: int): Books {
    b.(intents := Reprice(b.intents, paymentIntentId, newAmount))
  }

  function FailOf(b: Books, paymentIntentId: string, states: seq<string>): Books
    requires HasIntent(b.intents, paymentIntentId) ==> |states| > 0
  {
    b.(intents := Restate(b.intents, paymentIntentId, states, 0))
  }

  function RefundOf(b: Books, paymentIntentId: string, states: seq<string>): Books
    requires HasIntent(b.intents, paymentIntentId) ==> |states| > 0
  {
    Books(Settle(b.merchants, b.intents, paymentIntentId, -1), Restate(b.intents, paymentIntentId, states, 0))
  }

  /** `PaymentIntent`: the two lists it updates in place and the state names it was given. */
  class PaymentIntent {
    var merchants: seq<Merchant>
    var intents: seq<Intent>
    const states: seq<string>

    constructor (merchants: seq<Merchant>, intents: seq<Intent>, states: seq<string>)
      ensures this.merchants == merchants && this.intents == intents && this.states == states
    {
      this.merchants := merchants;
      this.intents := intents;
      this.states := states;
    }

    function Contents(): Books
      reads this
    {
      Books(merchants, intents)
    }

    /** `init`: the look-up loop does nothing, so an entry is appended even for a known id. */
    method Init(merchantId: string, startingBalance: int)
      modifies this
      ensures Contents() == InitOf(old(Contents()), merchantId, startingBalance)
    {
      for k := 0 to |merchants| {
        if merchants[k].id == merchantId {
          // `pass`
        }
      }
      merchants := merchants + [Merchant(merchantId, startingBalance)];
    }

    /** `create`: one intent appended in the first state. */
    method Create(paymentIntentId: string, merchantId: string, amount: int)
      requires |states| > 0
      modifies this
      ensures Contents() == CreateOf(old(Contents()), paymentIntentId, merchantId, amount, states)
    {
      intents := intents + [Intent(paymentIntentId, merchantId, amount, states[0])];
    }

    /** `attempt`: matching intents to `states[1]`, and their amounts credited to their merchants. */
    method Attempt(paymentIntentId: string)
      requires HasIntent(intents, paymentIntentId) ==> |states| > 1
      modifies this
      ensures Contents() == AttemptOf(old(Contents()), paymentIntentId, states)
    {
      Transfer(paymentIntentId, 1, 1);
    }

    /** `succeed`: matching intents to `states[2]`. */
    method Succeed(paymentIntentId: string)
      requires HasIntent(intents, paymentIntentId) ==> |states| > 2
      modifies this
      ensures Contents() == SucceedOf(old(Contents()), paymentIntentId, states)
    {
      Mark(paymentIntentId, 2);
    }

    /** `update`: matching intents given the new amount. */
    method Update(paymentIntentId: string, newAmount: int)
      modifies this
      ensures Contents() == UpdateOf(old(Contents()), paymentIntentId, newAmount)
    {
      var i := 0;
      while i < |intents|
        invariant 0 <= i <= |intents| == |old(intents)|
        invariant forall q :: 0 <= q < i ==> intents[q] == Reprice(old(intents), paymentIntentId, newAmount)[q]
        invariant forall q :: i <= q < |intents| ==> intents[q] == old(intents)[q]
        invariant merchants == old(merchants)
      {
        if intents[i].id == paymentIntentId {
          intents := intents[i := intents[i].(amount := newAmount)];
        }
        i := i + 1;
      }
    }

    /** `fail`: matching intents back to `states[0]`. */
    method Fail(paymentIntentId: string)
      requires HasIntent(intents, paymentIntentId) ==> |states| > 0
      modifies this
      ensures Contents() == FailOf(old(Contents()), paymentIntentId, states)
    {
      Mark(paymentIntentId, 0);
    }

    /** `refund`: matching intents back to `states[0]`, and their amounts debited from their merchants. */
    method Refund(paymentIntentId: string)
      requires HasIntent(intents, paymentIntentId) ==> |states| > 0
      modifies this
      ensures Contents() == RefundOf(old(Contents()), paymentIntentId, states)
    {
      Transfer(paymentIntentId, 0, -1);
    }

    /** The loop of `succeed` and `fail`: matching intents put in `states[k]`. */
    method Mark(paymentIntentId: string, k: nat)
      requires HasIntent(intents, paymentIntentId) ==> k < |states|
      modifies this
      ensures merchants == old(merchants)
      ensures intents == Restate(old(intents), paymentIntentId, states, k)
    {
      var i := 0;
      while i < |intents|
        invariant 0 <= i <= |intents| == |old(intents)|
        invariant forall q :: 0 <= q < i ==> intents[q] == Restate(old(intents), paymentIntentId, states, k)[q]
        invariant forall q :: i <= q < |intents| ==> intents[q] == old(intents)[q]
        invariant merchants == old(merchants)
      {
        if intents[i].id == paymentIntentId {
          intents := intents[i := intents[i].(state := states[k])];
        }
        i := i + 1;
      }
    }

    /**
     * The nested loops of `attempt` and `refund`: each matching intent is
     * put in `states[k]`, then every merchant entry with its merchant id is
     * moved by `sign` times its amount.
     */
    method Transfer(paymentIntentId: string, k: nat, sign: int)
      requires HasIntent(intents, paymentIntentId) ==> k < |states|
      modifies this
      ensures merchants == Settle(old(merchants), old(intents), paymentIntentId, sign)
      ensures intents == Restate(old(intents), paymentIntentId, states, k)
    {
      var i := 0;
      SettleNone(merchants, old(intents), paymentIntentId, sign);
      while i < |intents|
        invariant 0 <= i <= |intents| == |old(intents)|
        invariant forall q :: 0 <= q < i ==> intents[q] == Restate(old(intents), paymentIntentId, states, k)[q]
        invariant forall q :: i <= q < |intents| ==> intents[q] == old(intents)[q]
        invariant merchants == Settle(old(merchants), old(intents)[..i], paymentIntentId, sign)
      {
        SettleStep(old(merchants), old(intents), i, paymentIntentId, sign);
        if intents[i].id == paymentIntentId {
          intents := intents[i := intents[i].(state := states[k])];
          Credit(intents[i].merchant, sign * intents[i].amount);
        }
        i := i + 1;
      }
      assert old(intents)[..i] == old(intents);
    }

    /** The inner loop of `attempt` and `refund`: every merchant entry with this id moved by `delta`. */
    method Credit(merchantId: string, delta: int)
      modifies this`merchants
      ensures merchants == Credited(old(merchants), merchantId, delta)
    {
      var j := 0;
      while j < |merchants|
        invariant 0 <= j <= |merchants| == |old(merchants)|
        invariant forall q :: 0 <= q < j ==> merchants[q] == Credited(old(merchants), merchantId, delta)[q]
        invariant forall q :: j <= q < |merchants| ==> merchants[q] == old(merchants)[q]
      {
        if merchants[j].id == merchantId {
          merchants := merchants[j := merchants[j].(balance := merchants[j].balance + delta)];
        }
        j := j + 1;
      }
    }

    /** One pass of the dispatch loop of `main`: the arguments are read before the operation runs. */
    method Execute(command: string, parseInt: IntParser) returns (ok: bool)
      requires states == MainStates
      modifies this
      ensures ok == StepOf(old(Contents()), command, parseInt).Some?
      ensures ok ==> Contents() == StepOf(old(Contents()), command, parseInt).value
      ensures !ok ==> Contents() == old(Contents())
    {
      var j := Words(command);
      if |j| == 0 {
        return false;
      }
      if j[0] == "INIT" {
        if |j| < 3 { return false; }
        var n := parseInt(j[2]);
        if n.None? { return false; }
        Init(j[1], n.value);
      } else if j[0] == "CREATE" {
        if |j| < 4 { return false; }
        var n := parseInt(j[3]);
        if n.None? { return false; }
        Create(j[1], j[2], n.value);
      } else if j[0] == "ATTEMPT" {
        if |j| < 2 { return false; }
        Attempt(j[1]);
      } else if j[0] == "SUCCEED" {
        if |j| < 2 { return false; }
        Succeed(j[1]);
      } else if j[0] == "UPDATE" {
        if |j| < 3 { return false; }
        var n := parseInt(j[2]);
        if n.None? { return false; }
        Update(j[1], n.value);
      } else if j[0] == "FAIL" {
        if |j| < 2 { return false; }
        Fail(j[1]);
      } else if j[0] == "REFUND" {
        if |j| < 2 { return false; }
        Refund(j[1]);
      }
      return true;
    }
  }

  /** Every merchant entry with this id moved by `delta`. */
  function Credited(merchants: seq<Merchant>, merchantId: string, delta: int): seq<Merchant> {
    seq(|merchants|, j requires 0 <= j < |merchants| =>
      if merchants[j].id == merchantId then merchants[j].(balance := merchants[j].balance + delta) else merchants[j])
  }

  /** Before any intent is read, no merchant entry has moved. */
  lemma SettleNone(merchants: seq<Merchant>, intents: seq<Intent>, paymentIntentId: string, sign: int)
    ensures merchants == Settle(merchants, intents[..0], paymentIntentId, sign)
  {
    assert intents[..0] == [];
  }

  /** Reading one more intent moves the entries of its merchant by its amount, where its id matches. */
  lemma SettleStep(merchants: seq<Merchant>, intents: seq<Intent>, i: nat, paymentIntentId: string, sign: int)
    requires i < |intents|
    ensures Settle(merchants, intents[..i + 1], paymentIntentId, sign)
            == if intents[i].id == paymentIntentId
               then Credited(Settle(merchants, intents[..i], paymentIntentId, sign), intents[i].merchant, sign * intents[i].amount)
               else Settle(merchants, intents[..i], paymentIntentId, sign)
  {
    OwedStep(intents, i, paymentIntentId);
    var before := Settle(merchants, intents[..i], paymentIntentId, sign);
    forall j | 0 <= j < |merchants|
      ensures Settle(merchants, intents[..i + 1], paymentIntentId, sign)[j]
              == if intents[i].id == paymentIntentId
                 then Credited(before, intents[i].merchant, sign * intents[i].amount)[j]
                 else before[j]
    {
      var o := Owed(intents[..i], paymentIntentId, merchants[j].id);
      var extra := if intents[i].id == paymentIntentId && intents[i].merchant == merchants[j].id then intents[i].amount else 0;
      assert sign * (o + extra) == sign * o + sign * extra;
    }
  }

  lemma OwedStep(intents: seq<Intent>, i: nat, paymentIntentId: string)
    requires i < |intents|
    ensures forall m :: Owed(intents[..i + 1], paymentIntentId, m)
                        == Owed(intents[..i], paymentIntentId, m)
                           + (if intents[i].id == paymentIntentId && intents[i].merchant == m then intents[i].amount else 0)
  {
    assert intents[..i + 1][..i] == intents[..i];
  }

  // ---------------------------------------------------------------------
  // What the operations promise

  /** Amounts owed depend only on the ids, merchants and amounts of the intents, not on their states. */
  lemma {:induction false} SameCharges(xs: seq<Intent>, ys: seq<Intent>, paymentIntentId: string, merchantId: string)
    requires |xs| == |ys|
    requires forall k :: 0 <= k < |xs| ==>
               xs[k].id == ys[k].id && xs[k].merchant == ys[k].merchant && xs[k].amount == ys[k].amount
    ensures Owed(xs, paymentIntentId, merchantId) == Owed(ys, paymentIntentId, merchantId)
  {
    if xs != [] {
      var n := |xs| - 1;
      assert forall k :: 0 <= k < n ==> xs[..n][k] == xs[k] && ys[..n][k] == ys[k];
      SameCharges(xs[..n], ys[..n], paymentIntentId, merchantId);
    }
  }

  /** Without an intent of this id, nothing is owed. */
  lemma {:induction false} NothingOwed(intents: seq<Intent>, paymentIntentId: string, merchantId: string)
    requires !HasIntent(intents, paymentIntentId)
    ensures Owed(intents, paymentIntentId, merchantId) == 0
  {
    if intents != [] {
      var n := |intents| - 1;
      assert forall k :: 0 <= k < n ==> intents[..n][k] == intents[k];
      NothingOwed(intents[..n], paymentIntentId, merchantId);
      assert intents[n].id != paymentIntentId;
    }
  }

  /** `attempt` followed by `refund` of the same id restores every balance. */
  lemma AttemptThenRefund(b: Books, paymentIntentId: string, states: seq<string>)
    requires |states| > 1
    ensures RefundOf(AttemptOf(b, paymentIntentId, states), paymentIntentId, states).merchants == b.merchants
    ensures RefundOf(AttemptOf(b, paymentIntentId, states), paymentIntentId, states).intents
            == Restate(b.intents, paymentIntentId, states, 0)
  {
    var attempted := AttemptOf(b, paymentIntentId, states);
    forall m {
      SameCharges(b.intents, attempted.intents, paymentIntentId, m);
    }
    var refunded := RefundOf(attempted, paymentIntentId, states);
    assert forall j :: 0 <= j < |b.merchants| ==> refunded.merchants[j] == b.merchants[j];
  }

  /** `attempt` has no guard on the state: attempting twice credits the amount twice. */
  lemma AttemptTwice(b: Books, paymentIntentId: string, states: seq<string>, j: nat)
    requires |states| > 1 && j < |b.merchants|
    ensures AttemptOf(AttemptOf(b, paymentIntentId, states), paymentIntentId, states).merchants[j].balance
            == b.merchants[j].balance + 2 * Owed(b.intents, paymentIntentId, b.merchants[j].id)
  {
    var attempted := AttemptOf(b, paymentIntentId, states);
    SameCharges(b.intents, attempted.intents, paymentIntentId, b.merchants[j].id);
  }

  /** An operation on an id no intent carries changes nothing (and reads no state name). */
  lemma NoMatchNoChange(b: Books, paymentIntentId: string, states: seq<string>, newAmount: int)
    requires !HasIntent(b.intents, paymentIntentId)
    ensures AttemptOf(b, paymentIntentId, states) == b
    ensures RefundOf(b, paymentIntentId, states) == b
    ensures SucceedOf(b, paymentIntentId, states) == b
    ensures FailOf(b, paymentIntentId, states) == b
    ensures UpdateOf(b, paymentIntentId, newAmount) == b
  {
    forall m {
      NothingOwed(b.intents, paymentIntentId, m);
    }
    assert Settle(b.merchants, b.intents, paymentIntentId, 1) == b.merchants;
    assert Settle(b.merchants, b.intents, paymentIntentId, -1) == b.merchants;
    assert forall k :: 0 <= k < |b.intents| ==> b.intents[k].id != paymentIntentId;
    assert Restate(b.intents, paymentIntentId, states, 0) == b.intents;
  }

  /**
   * `succeed`, `update` and `fail` leave every balance alone; each changes
   * one field of the intents with this id and leaves the others as they were.
   */
  lemma IntentFieldsOnly(b: Books, paymentIntentId: string, states: seq<string>, newAmount: int, k: nat)
    requires |states| > 2 && k < |b.intents|
    ensures SucceedOf(b, paymentIntentId, states).merchants == b.merchants
    ensures UpdateOf(b, paymentIntentId, newAmount).merchants == b.merchants
    ensures FailOf(b, paymentIntentId, states).merchants == b.merchants
    ensures |SucceedOf(b, paymentIntentId, states).intents| == |b.intents|
    ensures |UpdateOf(b, paymentIntentId, newAmount).intents| == |b.intents|
    ensures |FailOf(b, paymentIntentId, states).intents| == |b.intents|
    ensures SucceedOf(b, paymentIntentId, states).intents[k]
            == if b.intents[k].id == paymentIntentId then b.intents[k].(state := states[2]) else b.intents[k]
    ensures UpdateOf(b, paymentIntentId, newAmount).intents[k]
            == if b.intents[k].id == paymentIntentId then b.intents[k].(amount := newAmount) else b.intents[k]
    ensures FailOf(b, paymentIntentId, states).intents[k]
            == if b.intents[k].id == paymentIntentId then b.intents[k].(state := states[0]) else b.intents[k]
  {
  }

  /** The number of merchant entries with this id. */
  function Entries(merchants: seq<Merchant>, merchantId: string): nat {
    if merchants == [] then 0
    else Entries(merchants[..|merchants| - 1], merchantId) + (if merchants[|merchants| - 1].id == merchantId then 1 else 0)
  }

  /** `init` adds an entry even for an id that already has one. */
  lemma InitAlwaysAppends(b: Books, merchantId: string, startingBalance: int)
    ensures Entries(InitOf(b, merchantId, startingBalance).merchants, merchantId) == Entries(b.merchants, merchantId) + 1
  {
    var ms := InitOf(b, merchantId, startingBalance).merchants;
    assert ms[..|ms| - 1] == b.merchants;
  }

  // ---------------------------------------------------------------------
  // The command loop of `main`

  /** `int(...)`: `None` where it raises `ValueError`. */
  type IntParser = string -> Option<int>

  const MainStates := ["REQUIRES_ACTION", "PROCESSING", "COMPLETED"]

  /**
   * One command: its first word selects the operation, the arguments are
   * the following words; `None` where a word is missing (IndexError) or an
   * amount is not an integer (ValueError). An unknown first word changes
   * nothing.
   */
  function StepOf(b: Books, command: string, parseInt: IntParser): Option<Books> {
    var j := Words(command);
    if |j| == 0 then None
    else if j[0] == "INIT" then
      if |j| < 3 then None
      else match parseInt(j[2])
        case None => None
        case Some(n) => Some(InitOf(b, j[1], n))
    else if j[0] == "CREATE" then
      if |j| < 4 then None
      else match parseInt(j[3])
        case None => None
        case Some(n) => Some(CreateOf(b, j[1], j[2], n, MainStates))
    else if j[0] == "ATTEMPT" then
      if |j| < 2 then None else Some(AttemptOf(b, j[1], MainStates))
    else if j[0] == "SUCCEED" then
      if |j| < 2 then None else Some(SucceedOf(b, j[1], MainStates))
    else if j[0] == "UPDATE" then
      if |j| < 3 then None
      else match parseInt(j[2])
        case None => None
        case Some(n) => Some(UpdateOf(b, j[1], n))
    else if j[0] == "FAIL" then
      if |j| < 2 then None else Some(FailOf(b, j[1], MainStates))
    else if j[0] == "REFUND" then
      if |j| < 2 then None else Some(RefundOf(b, j[1], MainStates))
    else Some(b)
  }

  /** The first words the dispatch loop recognises. */
  const Operations := {"INIT", "CREATE", "ATTEMPT", "SUCCEED", "UPDATE", "FAIL", "REFUND"}

  /** A command whose first word names no operation is reported and leaves both lists as they were. */
  lemma UnknownCommand(b: Books, command: string, parseInt: IntParser)
    requires Words(command) != [] && Words(command)[0] !in Operations
    ensures StepOf(b, command, parseInt) == Some(b)
  {
  }

  /** A command argument as `split()` yields it: non-empty, without whitespace. */
  predicate IsWord(w: string) {
    w != "" && NoSpace(w)
  }

  /** The words of the operation names, which hold no whitespace. */
  lemma OperationIsWord(op: string)
    requires op in Operations
    ensures IsWord(op)
  {
  }

  /** `ATTEMPT`, `SUCCEED`, `FAIL` or `REFUND` followed by an id runs that operation on the id. */
  lemma IdCommand(b: Books, op: string, id: string, parseInt: IntParser)
    requires op in {"ATTEMPT", "SUCCEED", "FAIL", "REFUND"} && IsWord(id)
    ensures var r := StepOf(b, op + " " + id, parseInt);
            && (op == "ATTEMPT" ==> r == Some(AttemptOf(b, id, MainStates)))
            && (op == "SUCCEED" ==> r == Some(SucceedOf(b, id, MainStates)))
            && (op == "FAIL" ==> r == Some(FailOf(b, id, MainStates)))
            && (op == "REFUND" ==> r == Some(RefundOf(b, id, MainStates)))
  {
    OperationIsWord(op);
    assert Join([op, id], ' ') == op + " " + id;
    WordsOfJoin([op, id]);
  }

  /**
   * `INIT merchant balance` and `UPDATE id amount` run their operation
   * on the parsed number, and raise where `int()` does.
   */
  lemma AmountCommand(b: Books, op: string, id: string, amount: string, parseInt: IntParser)
    requires op in {"INIT", "UPDATE"} && IsWord(id) && IsWord(amount)
    ensures var r := StepOf(b, op + " " + id + " " + amount, parseInt);
            && (parseInt(amount).None? ==> r.None?)
            && (parseInt(amount).Some? && op == "INIT" ==> r == Some(InitOf(b, id, parseInt(amount).value)))
            && (parseInt(amount).Some? && op == "UPDATE" ==> r == Some(UpdateOf(b, id, parseInt(amount).value)))
  {
    OperationIsWord(op);
    assert [op, id, amount][1..] == [id, amount] && [id, amount][1..] == [amount];
    assert Join([id, amount], ' ') == id + " " + amount;
    assert Join([op, id, amount], ' ') == op + " " + id + " " + amount;
    WordsOfJoin([op, id, amount]);
  }

  /** `CREATE id merchant amount` creates the intent for the parsed amount, and raises where `int()` does. */
  lemma CreateCommand(b: Books, id: string, merchantId: string, amount: string, parseInt: IntParser)
    requires IsWord(id) && IsWord(merchantId) && IsWord(amount)
    ensures var r := StepOf(b, "CREATE " + id + " " + merchantId + " " + amount, parseInt);
            && (parseInt(amount).None? ==> r.None?)
            && (parseInt(amount).Some? ==> r == Some(CreateOf(b, id, merchantId, parseInt(amount).value, MainStates)))
  {
    OperationIsWord("CREATE");
    var words := ["CREATE", id, merchantId, amount];
    assert words[1..] == [id, merchantId, amount];
    assert words[1..][1..] == [merchantId, amount] && [merchantId, amount][1..] == [amount];
    assert Join([merchantId, amount], ' ') == merchantId + " " + amount;
    assert Join(words[1..], ' ') == id + " " + merchantId + " " + amount;
    assert Join(["CREATE", id, merchantId, amount], ' ') == "CREATE " + id + " " + merchantId + " " + amount;
    WordsOfJoin(["CREATE", id, merchantId, amount]);
  }

  /** An operation name on its own lacks its arguments: `j[1]` raises IndexError. */
  lemma MissingArgument(b: Books, op: string, parseInt: IntParser)
    requires op in Operations
    ensures StepOf(b, op, parseInt).None?
  {
    OperationIsWord(op);
    SingleWord(op);
    if op in {"INIT", "CREATE", "UPDATE"} {
      MissingAmount(b, op, parseInt);
    }
  }

  /** The operations that take a number raise on a name alone. */
  lemma MissingAmount(b: Books, op: string, parseInt: IntParser)
    requires op in {"INIT", "CREATE", "UPDATE"} && Words(op) == [op]
    ensures StepOf(b, op, parseInt).None?
  {
  }

  /** A command that goes through changes only the list its operation touches. */
  lemma CommandTouchesOneList(b: Books, command: string, parseInt: IntParser)
    requires StepOf(b, command, parseInt).Some?
    ensures var r := StepOf(b, command, parseInt).value;
            var w := Words(command)[0];
            && (w == "INIT" ==> r.intents == b.intents && |r.merchants| == |b.merchants| + 1)
            && (w == "CREATE" ==> r.merchants == b.merchants && |r.intents| == |b.intents| + 1)
            && (w in {"SUCCEED", "UPDATE", "FAIL"} ==> r.merchants == b.merchants && |r.intents| == |b.intents|)
            && (w in {"ATTEMPT", "REFUND"} ==> |r.merchants| == |b.merchants| && |r.intents| == |b.intents|)
  {
  }

  /** The commands in order; `None` once one raises, which ends the program. */
  function Session(b: Books, commands: seq<string>, parseInt: IntParser): Option<Books>
    decreases |commands|
  {
    if commands == [] then Some(b)
    else match StepOf(b, commands[0], parseInt)
      case None => None
      case Some(next) => Session(next, commands[1..], parseInt)
  }

  /** The input loop: stripped lines up to an empty line or `DONE`; `None` where the input ends first (EOFError). */
  function CommandsOf(inputs: seq<string>): Option<seq<string>> {
    if inputs == [] then None
    else
      var hello := Strip(inputs[0]);
      if Terminates(hello) then Some([])
      else Prepended([hello], CommandsOf(inputs[1..]))
  }

  /** The three tests that end the input loop. */
  predicate Terminates(hello: string) {
    hello == "\n" || hello == "" || hello == "DONE"
  }

  /** `main` without its printing: the contents of the two lists at the end, or `None` where it raises. */
  function MainOf(inputs: seq<string>, parseInt: IntParser): Option<Books> {
    match CommandsOf(inputs)
    case None => None
    case Some(commands) => Session(Books([], []), commands, parseInt)
  }

  /** The input loop of `main`. */
  method CollectCommands(inputs: seq<string>) returns (commands: Option<seq<string>>)
    ensures commands == CommandsOf(inputs)
  {
    var collected: seq<string> := [];
    var rest := inputs;
    PrependedNothing(inputs);
    while rest != []
      invariant CommandsOf(inputs) == Prepended(collected, CommandsOf(rest))
    {
      var hello := Strip(rest[0]);
      if Terminates(hello) {
        assert collected + [] == collected;
        return Some(collected);
      }
      PrependedTwice(collected, hello, CommandsOf(rest[1..]));
      collected := collected + [hello];
      rest := rest[1..];
    }
    return None;
  }

  /** The commands collected so far, before what the rest of the input gives. */
  function Prepended(collected: seq<string>, rest: Option<seq<string>>): (r: Option<seq<string>>)
    ensures r.Some? <==> rest.Some?
  {
    match rest
    case None => None
    case Some(r) => Some(collected + r)
  }

  /** Before the loop nothing is collected. */
  lemma PrependedNothing(inputs: seq<string>)
    ensures CommandsOf(inputs) == Prepended([], CommandsOf(inputs))
  {
    if CommandsOf(inputs).Some? {
      assert [] + CommandsOf(inputs).value == CommandsOf(inputs).value;
    }
  }

  lemma PrependedTwice(collected: seq<string>, hello: string, rest: Option<seq<string>>)
    ensures Prepended(collected, Prepended([hello], rest)) == Prepended(collected + [hello], rest)
  {
    if rest.Some? {
      assert collected + ([hello] + rest.value) == (collected + [hello]) + rest.value;
    }
  }

  /** The dispatch loop of `main`, on a fresh ledger with the three state names. */
  method RunCommands(commands: seq<string>, parseInt: IntParser) returns (result: Option<Books>)
    ensures result == Session(Books([], []), commands, parseInt)
  {
    var ledger := new PaymentIntent([], [], MainStates);
    var rest := commands;
    while rest != []
      invariant ledger.states == MainStates
      invariant Session(Books([], []), commands, parseInt) == Session(ledger.Contents(), rest, parseInt)
    {
      var ok := ledger.Execute(rest[0], parseInt);
      if !ok {
        return None;
      }
      rest := rest[1..];
    }
    return Some(ledger.Contents());
  }

  /** `main`: the input loop, then the dispatch loop. */
  method Run(inputs: seq<string>, parseInt: IntParser) returns (result: Option<Books>)
    ensures result == MainOf(inputs, parseInt)
  {
    var commands := CollectCommands(inputs);
    if commands.None? {
      return None;
    }
    result := RunCommands(commands.value, parseInt);
  }

  /** Every collected command has a first word, so `j[0]` never raises. */
  lemma {:induction false} CommandsHaveWords(inputs: seq<string>)
    ensures CommandsOf(inputs).Some? ==>
              forall i :: 0 <= i < |CommandsOf(inputs).value| ==> Words(CommandsOf(inputs).value[i]) != []
  {
    if inputs != [] {
      var hello := Strip(inputs[0]);
      var rest := CommandsOf(inputs[1..]);
      if !Terminates(hello) && rest.Some? {
        CommandsHaveWords(inputs[1..]);
        var commands := [hello] + rest.value;
        assert CommandsOf(inputs) == Some(commands);
        assert !IsSpace(hello[0]);
        forall i | 0 <= i < |commands|
          ensures Words(commands[i]) != []
        {
          if i > 0 {
            assert commands[i] == rest.value[i - 1];
          }
        }
      }
    }
  }

  /** A stripped line is never a newline: the first test of the input loop never holds. */
  lemma NewlineNeverSeen(line: string)
    ensures Strip(line) != "\n"
  {
    assert IsSpace("\n"[0]);
  }

  /** A session over two lists of commands runs the first, then the second from where it stopped. */
  lemma {:induction false} SessionAppend(b: Books, first: seq<string>, second: seq<string>, parseInt: IntParser)
    ensures Session(b, first + second, parseInt)
            == match Session(b, first, parseInt)
               case None => None
               case Some(mid) => Session(mid, second, parseInt)
    decreases |first|
  {
    if first == [] {
      assert first + second == second;
    } else {
      assert (first + second)[0] == first[0] && (first + second)[1..] == first[1..] + second;
      match StepOf(b, first[0], parseInt)
      case None =>
      case Some(next) => SessionAppend(next, first[1..], second, parseInt);
    }
  }
}
