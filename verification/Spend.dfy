/**
 * How a spend becomes a transaction: value and change (bsv-regtest/wallet/raw.go, Spend) and how a
 * requested amount becomes outputs (internal/api/server.go, Server.Spend). Amounts are unsigned 64-bit
 * and wrap around. Keys, scripts and signatures are reduced to whether they can be had.
 */
module Spend {
  import opened Basics

  const TWO_64: nat := 0x1_0000_0000_0000_0000
  const DUST: nat := 546
  const DEFAULT_FEE: nat := 500

  type Uint64 = n: nat | n < TWO_64

  function Wrap(n: int): Uint64 { n % TWO_64 }

  datatype Payee = Key | Script(valid: bool) | Nobody

  datatype Output = Output(payee: Payee, satoshis: Uint64)

  // An outpoint of a source transaction, given by its outputs' values, and whether its key is at hand.
  datatype Input = Input(source: Option<seq<Uint64>>, vout: nat, keyed: bool)

  datatype Tx = Tx(spent: seq<Uint64>, outputs: seq<Output>)

  predicate Usable(i: Input) { i.source.Some? && i.keyed && i.vout < |i.source.value| }

  function Value(i: Input): Uint64
    requires Usable(i)
  {
    i.source.value[i.vout]
  }

  predicate Payable(o: Output) { o.payee.Key? || (o.payee.Script? && o.payee.valid) }

  ghost predicate AllUsable(inputs: seq<Input>) { forall k | 0 <= k < |inputs| :: Usable(inputs[k]) }

  ghost predicate AllPayable(outputs: seq<Output>) { forall k | 0 <= k < |outputs| :: Payable(outputs[k]) }

  function ValuesOf(inputs: seq<Input>): seq<Uint64>
    requires AllUsable(inputs)
  {
    if inputs == [] then [] else ValuesOf(inputs[..|inputs| - 1]) + [Value(inputs[|inputs| - 1])]
  }

  // Sums without wrapping.
  function Total(values: seq<Uint64>): nat {
    if values == [] then 0
    else
      var last: nat := values[|values| - 1];
      Total(values[..|values| - 1]) + last
  }

  function Paid(outputs: seq<Output>): nat {
    if outputs == [] then 0
    else
      var last: nat := outputs[|outputs| - 1].satoshis;
      Paid(outputs[..|outputs| - 1]) + last
  }

  // ---- one spend -------------------------------------------------------------------------

  // The balance as it is computed, in 64 bits.
  predicate Balances(input: nat, output: nat, fee: Uint64) { Wrap(output + fee) <= Wrap(input) }

  function Change(input: nat, output: nat, fee: Uint64): Uint64 { Wrap(input - output - fee) }

  function WithChange(outputs: seq<Output>, change: Uint64): seq<Output> {
    outputs + if change > DUST then [Output(Key, change)] else []
  }

  method SumInputs(inputs: seq<Input>) returns (r: Result<(seq<Uint64>, Uint64)>)
    ensures r.Ok? <==> AllUsable(inputs)
    ensures r.Ok? <==> forall k | 0 <= k < |inputs| ::
      inputs[k].source.Some? && inputs[k].keyed && inputs[k].vout < |inputs[k].source.value|
    ensures r.Ok? ==> r.value.0 == ValuesOf(inputs) && r.value.1 == Wrap(Total(ValuesOf(inputs)))
  {
    var spent: seq<Uint64>, sum: Uint64 := [], 0;
    for k := 0 to |inputs|
      invariant AllUsable(inputs[..k])
      invariant spent == ValuesOf(inputs[..k]) && sum == Wrap(Total(spent))
    {
      var i := inputs[k];
      if i.source.None? || !i.keyed { return Err("source tx and key required"); }
      if i.vout >= |i.source.value| { return Err("vout out of range"); }
      assert inputs[..k + 1][..k] == inputs[..k];
      assert (spent + [Value(i)])[..|spent|] == spent;
      WrapSum(Total(spent), Value(i));
      spent, sum := spent + [Value(i)], Wrap(sum + Value(i));
    }
    assert inputs[..|inputs|] == inputs;
    r := Ok((spent, sum));
  }

  method SumOutputs(outputs: seq<Output>) returns (r: Result<Uint64>)
    ensures r.Ok? <==> AllPayable(outputs)
    ensures r.Ok? <==> forall k | 0 <= k < |outputs| :: outputs[k].payee == Key || outputs[k].payee == Script(true)
    ensures r.Ok? ==> r.value == Wrap(Paid(outputs))
  {
    var sum: Uint64 := 0;
    for k := 0 to |outputs|
      invariant AllPayable(outputs[..k]) && sum == Wrap(Paid(outputs[..k]))
    {
      var o := outputs[k];
      if !Payable(o) { return Err("output needs a key or a script"); }
      assert outputs[..k + 1][..k] == outputs[..k];
      WrapSum(Paid(outputs[..k]), o.satoshis);
      sum := Wrap(sum + o.satoshis);
    }
    assert outputs[..|outputs|] == outputs;
    r := Ok(sum);
  }

  method SpendTx(inputs: seq<Input>, outputs: seq<Output>, fee: Uint64) returns (r: Result<Tx>)
    ensures r.Ok? <==>
      inputs != [] && AllUsable(inputs) && AllPayable(outputs) && Balances(Total(ValuesOf(inputs)), Paid(outputs), fee)
    ensures r.Ok? ==> r.value == Tx(ValuesOf(inputs), WithChange(outputs, Change(Total(ValuesOf(inputs)), Paid(outputs), fee)))
  {
    if |inputs| == 0 { return Err("spend needs at least one input"); }
    var ins := SumInputs(inputs);
    if ins.Err? { return Err(ins.message); }
    var outs := SumOutputs(outputs);
    if outs.Err? { return Err(outs.message); }
    var input, output := ins.value.1, outs.value;
    WrapSum(Paid(outputs), fee);
    if Wrap(output + fee) > input { return Err("outputs and fee exceed inputs"); }
    WrapLess(Total(ins.value.0), Paid(outputs), fee);
    var change := Wrap(input - output - fee);
    var tx := Tx(ins.value.0, outputs);
    if change > DUST { tx := tx.(outputs := tx.outputs + [Output(Key, change)]); }
    r := Ok(tx);
  }

  lemma {:induction false} WrapTurns(n: int, k: int)
    ensures Wrap(n + k * TWO_64) == Wrap(n)
  {
    var d, m := n / TWO_64, n % TWO_64;
    assert n + k * TWO_64 == (d + k) * TWO_64 + m;
  }

  lemma {:induction false} WrapSum(a: nat, b: nat)
    ensures Wrap(Wrap(a) + b) == Wrap(a + b)
  {
    WrapTurns(Wrap(a) + b, a / TWO_64);
  }

  lemma {:induction false} WrapLess(a: nat, b: nat, c: nat)
    ensures Wrap(Wrap(a) - Wrap(b) - c) == Wrap(a - b - c)
  {
    WrapTurns(Wrap(a) - Wrap(b) - c, a / TWO_64 - b / TWO_64);
  }

  lemma {:induction false} PaidMore(outputs: seq<Output>, o: Output)
    ensures Paid(outputs + [o]) == Paid(outputs) + o.satoshis
  {
    assert (outputs + [o])[..|outputs|] == outputs;
  }

  lemma {:induction false} ValuesAre(inputs: seq<Input>)
    requires AllUsable(inputs)
    ensures |ValuesOf(inputs)| == |inputs|
    ensures forall k | 0 <= k < |inputs| :: ValuesOf(inputs)[k] == inputs[k].source.value[inputs[k].vout]
  {
    if inputs != [] { ValuesAre(inputs[..|inputs| - 1]); }
  }

  // The requested outputs stand first, at most one is added, and it is worth more than dust.
  lemma {:induction false} RequestedFirst(outputs: seq<Output>, change: Uint64)
    ensures outputs <= WithChange(outputs, change)
    ensures |WithChange(outputs, change)| == |outputs| + if change > DUST then 1 else 0
    ensures change > DUST ==> WithChange(outputs, change)[|outputs|] == Output(Key, change)
    ensures Paid(WithChange(outputs, change)) == Paid(outputs) + if change > DUST then change else 0
  {
    if change > DUST {
      PaidMore(outputs, Output(Key, change));
    } else {
      assert outputs + [] == outputs;
    }
  }

  // What a built transaction leaves to the miner is the fee asked for plus at most the dust limit, exactly
  // when the sums to either side of the balance pass 2^64 equally often.
  lemma {:induction false} FeeIsAsAsked(spent: seq<Uint64>, outputs: seq<Output>, fee: Uint64)
    requires Balances(Total(spent), Paid(outputs), fee)
    ensures var left := Total(spent) - Paid(WithChange(outputs, Change(Total(spent), Paid(outputs), fee)));
      fee <= left <= fee + DUST <==> Total(spent) / TWO_64 == (Paid(outputs) + fee) / TWO_64
  {
    var a, b := Total(spent), Paid(outputs);
    RequestedFirst(outputs, Change(a, b, fee));
    ChangeIs(a, b + fee);
    assert a - b - fee == a - (b + fee);
  }

  lemma {:induction false} ChangeIs(a: nat, b: nat)
    requires Wrap(b) <= Wrap(a)
    ensures Wrap(a - b) == Wrap(a) - Wrap(b)
    ensures a - b == Wrap(a - b) + (a / TWO_64 - b / TWO_64) * TWO_64
  {
    WrapTurns(Wrap(a) - Wrap(b), a / TWO_64 - b / TWO_64);
  }

  // 1000 satoshis in, one output of all but one of 2^64, and a fee of 500: it balances, and pays out more than
  // went in.
  lemma {:induction false} WrapMintsValue(payee: Payee)
    ensures var spent, outputs := [1000], [Output(payee, TWO_64 - 1)];
      Balances(Total(spent), Paid(outputs), 500) && Paid(WithChange(outputs, Change(Total(spent), Paid(outputs), 500))) > Total(spent)
  {
    var spent: seq<Uint64>, outputs := [1000], [Output(payee, TWO_64 - 1)];
    assert spent[..0] == [] && outputs[..0] == [];
    assert Total(spent) == 1000 && Paid(outputs) == TWO_64 - 1;
    assert Wrap(Paid(outputs) + 500) == 499;
    RequestedFirst(outputs, Change(Total(spent), Paid(outputs), 500));
  }

  // So no sum that stays below 2^64 can create value or lose more than dust.
  lemma {:induction false} SmallSumsConserve(spent: seq<Uint64>, outputs: seq<Output>, fee: Uint64)
    requires Total(spent) < TWO_64 && Paid(outputs) + fee < TWO_64
    ensures Balances(Total(spent), Paid(outputs), fee) <==> Paid(outputs) + fee <= Total(spent)
    ensures Balances(Total(spent), Paid(outputs), fee) ==>
      var left := Total(spent) - Paid(WithChange(outputs, Change(Total(spent), Paid(outputs), fee)));
      fee <= left <= fee + DUST
  {
    if Balances(Total(spent), Paid(outputs), fee) { FeeIsAsAsked(spent, outputs, fee); }
  }

  // ---- a request -------------------------------------------------------------------------

  // Who is to be paid: the spender, a key that is found or not, or a script that can be read or not.
  datatype Target = Self | Other(found: bool) | Locked(valid: bool)

  datatype Wanted = Wanted(target: Target, satoshis: Uint64)

  datatype Request = Request(fee: Uint64, satoshis: Uint64, outputs: int, target: Target, outs: seq<Wanted>)

  predicate Found(t: Target) { t.Other? ==> t.found }

  function PayeeOf(t: Target): Payee { if t.Locked? then Script(t.valid) else Key }

  function FeeOf(r: Request): Uint64 { if r.fee == 0 then DEFAULT_FEE else r.fee }

  function Repeated(o: Output, n: nat): (s: seq<Output>)
    ensures |s| == n && forall k | 0 <= k < n :: s[k] == o
  {
    if n == 0 then [] else Repeated(o, n - 1) + [o]
  }

  function Explicit(outs: seq<Wanted>): seq<Output> {
    if outs == [] then []
    else
      var w := outs[|outs| - 1];
      Explicit(outs[..|outs| - 1]) + [Output(PayeeOf(w.target), w.satoshis)]
  }

  function Count(r: Request): nat { if r.outputs <= 0 then 1 else r.outputs }

  // The amount to divide: what was asked, or all that the fee leaves.
  function Amount(r: Request, available: Uint64): Uint64
    requires r.satoshis == 0 ==> available > FeeOf(r)
  {
    if r.satoshis == 0 then available - FeeOf(r) else r.satoshis
  }

  predicate Accepted(r: Request, available: Uint64) {
    if r.outs != [] then forall k | 0 <= k < |r.outs| :: Found(r.outs[k].target)
    else (r.satoshis == 0 ==> available > FeeOf(r)) && Found(r.target)
  }

  function OutputsOf(r: Request, available: Uint64): seq<Output>
    requires Accepted(r, available)
  {
    if r.outs != [] then Explicit(r.outs)
    else Repeated(Output(PayeeOf(r.target), Share(Amount(r, available), Count(r))), Count(r))
  }

  function Share(amount: Uint64, n: nat): Uint64
    requires n > 0
  {
    DivideLess(amount, n);
    amount / n
  }

  lemma {:induction false} DivideLess(a: nat, n: nat)
    requires n > 0
    ensures 0 <= a / n <= a
    ensures (a / n) * n <= a
  {
    var q := a / n;
    assert q * n + a % n == a;
    if q > 0 { assert q * n >= q; }
  }

  // Explicit outputs are paid as listed: each to its target, with its amount, in their order.
  lemma {:induction false} ExplicitAre(outs: seq<Wanted>)
    ensures |Explicit(outs)| == |outs|
    ensures forall k | 0 <= k < |outs| ::
      Explicit(outs)[k] == Output(match outs[k].target case Locked(valid) => Script(valid) case _ => Key, outs[k].satoshis)
  {
    if outs != [] { ExplicitAre(outs[..|outs| - 1]); }
  }

  // Without them, as many outputs as asked for, at least one, share the amount alike: what was asked for, or all
  // that the fee leaves.
  lemma {:induction false} SharedAre(r: Request, available: Uint64)
    requires r.outs == [] && Accepted(r, available)
    ensures var outputs := OutputsOf(r, available);
      var n, fee := if r.outputs <= 0 then 1 else r.outputs, if r.fee == 0 then 500 else r.fee;
      var amount := if r.satoshis == 0 then available - fee else r.satoshis;
      && |outputs| == n
      && (forall o | o in outputs :: o == outputs[0])
      && outputs[0].payee == (match r.target case Locked(valid) => Script(valid) case _ => Key)
      && n * outputs[0].satoshis <= amount < n * outputs[0].satoshis + n
  {
    SharesFit(r, available);
    RepeatedPays(OutputsOf(r, available)[0], Count(r));
  }

  // A request is refused for an unknown target, and for asking for all when the fee leaves nothing.
  lemma {:induction false} AcceptedIff(r: Request, available: Uint64)
    ensures Accepted(r, available) <==>
      if r.outs != [] then forall w | w in r.outs :: w.target != Other(false)
      else r.target != Other(false) && (r.satoshis == 0 ==> available > if r.fee == 0 then 500 else r.fee)
  {
    if forall w | w in r.outs :: w.target != Other(false) {
      assert forall k | 0 <= k < |r.outs| :: r.outs[k] in r.outs;
    }
  }

  method PlanOutputs(r: Request, available: Uint64) returns (plan: Result<seq<Output>>)
    ensures plan.Ok? <==> Accepted(r, available)
    ensures plan.Ok? ==> plan.value == OutputsOf(r, available)
  {
    var outs: seq<Output> := [];
    if |r.outs| > 0 {
      for k := 0 to |r.outs|
        invariant forall j | 0 <= j < k :: Found(r.outs[j].target)
        invariant outs == Explicit(r.outs[..k])
      {
        assert r.outs[..k + 1][..k] == r.outs[..k];
        var w := r.outs[k];
        if w.target.Other? && !w.target.found { return Err("unknown key"); }
        outs := outs + [Output(PayeeOf(w.target), w.satoshis)];
      }
      assert r.outs[..|r.outs|] == r.outs;
      return Ok(outs);
    }
    var total := r.satoshis;
    if total == 0 {
      if available <= FeeOf(r) { return Err("output too small for fee"); }
      total := available - FeeOf(r);
    }
    var n := if r.outputs <= 0 then 1 else r.outputs;
    if r.target.Other? && !r.target.found { return Err("unknown key"); }
    var each := Share(total, n);
    for k := 0 to n
      invariant outs == Repeated(Output(PayeeOf(r.target), each), k)
    {
      outs := outs + [Output(PayeeOf(r.target), each)];
    }
    plan := Ok(outs);
  }

  // Server.Spend, with the source transaction and the key at hand.
  method ServerSpend(source: seq<Uint64>, vout: nat, r: Request) returns (tx: Result<Tx>)
    ensures tx.Ok? <==>
      && vout < |source| && Accepted(r, source[vout]) && AllPayable(OutputsOf(r, source[vout]))
      && Balances(source[vout], Paid(OutputsOf(r, source[vout])), FeeOf(r))
    ensures tx.Ok? ==>
      var value, outputs := source[vout], OutputsOf(r, source[vout]);
      tx.value == Tx([value], WithChange(outputs, Change(value, Paid(outputs), FeeOf(r))))
  {
    if vout >= |source| { return Err("vout out of range"); }
    var plan := PlanOutputs(r, source[vout]);
    if plan.Err? { return Err(plan.message); }
    var inputs := [Input(Some(source), vout, true)];
    OneValue(inputs[0]);
    tx := SpendTx(inputs, plan.value, FeeOf(r));
  }

  lemma {:induction false} OneValue(i: Input)
    requires Usable(i)
    ensures ValuesOf([i]) == [Value(i)] && Total([Value(i)]) == Value(i)
  {
    assert [i][..0] == [] && [Value(i)][..0] == [];
  }

  lemma {:induction false} RepeatedPays(o: Output, n: nat)
    ensures Paid(Repeated(o, n)) == n * o.satoshis
    ensures Payable(o) ==> AllPayable(Repeated(o, n))
  {
    if n > 0 {
      RepeatedPays(o, n - 1);
      PaidMore(Repeated(o, n - 1), o);
      assert (n - 1) * o.satoshis + o.satoshis == n * o.satoshis;
    }
  }

  // Shares never add up to more than the amount, and what division leaves over is less than one each.
  lemma {:induction false} SharesFit(r: Request, available: Uint64)
    requires r.outs == [] && Accepted(r, available)
    ensures Amount(r, available) - Count(r) < Paid(OutputsOf(r, available)) <= Amount(r, available)
  {
    var a, n := Amount(r, available), Count(r);
    RepeatedPays(Output(PayeeOf(r.target), Share(a, n)), n);
    DivideFits(a, n);
  }

  lemma {:induction false} DivideFits(a: nat, n: nat)
    requires n > 0
    ensures a - n < n * (a / n) <= a
  {
    assert a == n * (a / n) + a % n;
  }

  // "All minus the fee" is refused only for want of a target or of an input above the fee: split over any
  // number of outputs it always balances, and the miner gets the fee and no more than dust beside it.
  lemma {:induction false} SpendAllBalances(r: Request, available: Uint64)
    requires r.outs == [] && r.satoshis == 0 && Accepted(r, available)
    ensures Balances(available, Paid(OutputsOf(r, available)), FeeOf(r))
    ensures var outputs := OutputsOf(r, available);
      var left := available - Paid(WithChange(outputs, Change(available, Paid(outputs), FeeOf(r))));
      FeeOf(r) <= left <= FeeOf(r) + DUST
  {
    SharesFit(r, available);
    assert [available][..0] == [];
    assert Total([available]) == available;
    SmallSumsConserve([available], OutputsOf(r, available), FeeOf(r));
  }
}
