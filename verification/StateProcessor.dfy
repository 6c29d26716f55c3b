/** Application of all transactions of a block (core/state_processor.go). */
module StateProcessors {
  import opened Chain
  import opened Gas
  import opened Balances
  import opened StateTransitions

  datatype Receipt = Receipt(failed: bool, gasUsed: nat, cumulativeGasUsed: nat)

  /** A transaction together with what the EVM does when it runs it. */
  datatype Job = Job(tx: Transaction, evm: (World, nat) -> EvmResult)

  /** What happened to one transaction: the world before it and after its finalisation, and what the EVM
      handed back in between. */
  datatype Step = Step(before: World, after: World, out: EvmResult)

  ghost predicate SaneJob(job: Job) {
    && job.tx.gasLimit <= MAX_UINT64 && job.tx.nonce <= MAX_UINT64 && |job.tx.data| <= MAX_UINT64
    && WellBehaved(job.evm, job.tx.sender, job.tx.to.None?, job.tx.value)
  }

  /** The gas used by the first `n` transactions. */
  function CumulativeGas(receipts: seq<Receipt>, n: nat): nat
    requires n <= |receipts|
  {
    if n == 0 then 0 else CumulativeGas(receipts, n - 1) + receipts[n - 1].gasUsed
  }

  lemma {:induction false} CumulativeGasPrefix(receipts: seq<Receipt>, r: Receipt, n: nat)
    requires n <= |receipts|
    ensures CumulativeGas(receipts + [r], n) == CumulativeGas(receipts, n)
  {
    if n > 0 {
      CumulativeGasPrefix(receipts, r, n - 1);
    }
  }

  /** The ether burnt as fees or destroyed in the EVM by the first `n` transactions. */
  ghost function BurntBy(jobs: seq<Job>, receipts: seq<Receipt>, steps: seq<Step>, env: Env, n: nat): nat
    requires n <= |jobs| && n <= |receipts| && n <= |steps|
  {
    if n == 0 then 0
    else BurntBy(jobs, receipts, steps, env, n - 1)
         + Burnt(receipts[n - 1].gasUsed, TransactionToMessage(jobs[n - 1].tx, env), env)
         + DestroyedIn(steps[n - 1].out)
  }

  /** The tip of a transaction that was deleted together with the block's producer. */
  function LostTip(job: Job, receipt: Receipt, step: Step, env: Env): nat {
    TipLost(receipt.gasUsed, TransactionToMessage(job.tx, env), env, step.out.destructed)
  }

  /** The tips lost by the first `n` transactions. */
  function TipsLost(jobs: seq<Job>, receipts: seq<Receipt>, steps: seq<Step>, env: Env, n: nat): nat
    requires n <= |jobs| && n <= |receipts| && n <= |steps|
  {
    if n == 0 then 0
    else TipsLost(jobs, receipts, steps, env, n - 1) + LostTip(jobs[n - 1], receipts[n - 1], steps[n - 1], env)
  }

  /** The transaction was acceptable with `pool` gas left in the block, ran, was settled, and had its
      flagged accounts deleted. What is missing from the total supply afterwards is what it burnt, what
      the EVM destroyed, and the tip if the block's producer was deleted. */
  ghost predicate Done(job: Job, env: Env, pool: nat, gasUsed: nat, step: Step) {
    var msg := TransactionToMessage(job.tx, env);
    && Acceptable(msg, step.before, pool, env)
    && Ran(msg, env, step.before, job.evm, step.out, gasUsed)
    && step.after == Finalised(Settled(step.out.world, msg, env, gasUsed), step.out.destructed)
    && Total(step.after.balances) + Burnt(gasUsed, msg, env) + DestroyedIn(step.out)
       + TipLost(gasUsed, msg, env, step.out.destructed) == Total(step.before.balances)
  }

  /** Each of the first `n` transactions was done in its turn, with the gas its predecessors left. */
  ghost predicate AllDone(jobs: seq<Job>, receipts: seq<Receipt>, steps: seq<Step>, env: Env, gasLimit: nat,
                          start: World)
    requires |receipts| == |steps| <= |jobs|
  {
    forall i :: 0 <= i < |receipts| ==> DoneInTurn(jobs[i], receipts, steps, env, gasLimit, start, i)
  }

  ghost predicate DoneInTurn(job: Job, receipts: seq<Receipt>, steps: seq<Step>, env: Env, gasLimit: nat, start: World,
                             i: nat)
    requires i < |receipts| == |steps|
  {
    && steps[i].before == WorldAfter(start, steps, i)
    && receipts[i].cumulativeGasUsed == CumulativeGas(receipts, i + 1) <= gasLimit
    && receipts[i].failed == steps[i].out.failed
    && Done(job, env, gasLimit - CumulativeGas(receipts, i), receipts[i].gasUsed, steps[i])
  }

  /** The world after the first `n` transactions. */
  function WorldAfter(start: World, steps: seq<Step>, n: nat): World
    requires n <= |steps|
  {
    if n == 0 then start else steps[n - 1].after
  }

  /** Over a whole block ether is conserved up to what is burnt, destroyed, or lost as a tip. */
  lemma {:induction false} BlockConserves(jobs: seq<Job>, receipts: seq<Receipt>, steps: seq<Step>, env: Env,
                                          gasLimit: nat, start: World, n: nat)
    requires |receipts| == |steps| <= |jobs| && n <= |receipts|
    requires AllDone(jobs, receipts, steps, env, gasLimit, start)
    ensures Total(WorldAfter(start, steps, n).balances) + BurntBy(jobs, receipts, steps, env, n)
            + TipsLost(jobs, receipts, steps, env, n) == Total(start.balances)
  {
    hide Burnt, Acceptable, IntrinsicOf, Ran, Settled, Finalised, TipLost, DestroyedIn;
    if n > 0 {
      BlockConserves(jobs, receipts, steps, env, gasLimit, start, n - 1);
      assert DoneInTurn(jobs[n - 1], receipts, steps, env, gasLimit, start, n - 1);
    }
  }

  /** A transaction's tip reaches somebody, or there is none: the block's producer is not deleted with
      it, or the effective tip for the gas used is zero. */
  predicate TipKept(job: Job, receipt: Receipt, step: Step, env: Env) {
    var msg := TransactionToMessage(job.tx, env);
    env.coinbase !in step.out.destructed || (env.rules.london && msg.gasFeeCap < env.baseFee)
    || receipt.gasUsed * EffectiveTip(msg, env) == 0
  }

  lemma {:induction false} NoTipLost(jobs: seq<Job>, receipts: seq<Receipt>, steps: seq<Step>, env: Env, n: nat)
    requires n <= |jobs| && n <= |receipts| && n <= |steps|
    ensures TipsLost(jobs, receipts, steps, env, n) == 0 <==>
            forall i :: 0 <= i < n ==> TipKept(jobs[i], receipts[i], steps[i], env)
  {
    if n > 0 {
      hide EffectiveTip, TransactionToMessage;
      NoTipLost(jobs, receipts, steps, env, n - 1);
      assert LostTip(jobs[n - 1], receipts[n - 1], steps[n - 1], env) == 0 <==>
             TipKept(jobs[n - 1], receipts[n - 1], steps[n - 1], env);
    }
  }

  /** Nothing is missing besides fees and what the EVM destroyed exactly if every tip is kept. */
  lemma BlockExact(jobs: seq<Job>, receipts: seq<Receipt>, steps: seq<Step>, env: Env, gasLimit: nat, start: World,
                   n: nat)
    requires |receipts| == |steps| <= |jobs| && n <= |receipts|
    requires AllDone(jobs, receipts, steps, env, gasLimit, start)
    ensures (Total(WorldAfter(start, steps, n).balances) + BurntBy(jobs, receipts, steps, env, n)
             == Total(start.balances)) <==>
            forall i :: 0 <= i < n ==> TipKept(jobs[i], receipts[i], steps[i], env)
  {
    hide AllDone, TipKept;
    BlockConserves(jobs, receipts, steps, env, gasLimit, start, n);
    NoTipLost(jobs, receipts, steps, env, n);
  }

  lemma {:induction false} DoneExtends(jobs: seq<Job>, receipts: seq<Receipt>, steps: seq<Step>, env: Env,
                                       gasLimit: nat, start: World, r: Receipt, s: Step)
    requires |receipts| == |steps| < |jobs| && AllDone(jobs, receipts, steps, env, gasLimit, start)
    requires var n := |receipts|;
      && s.before == WorldAfter(start, steps, n)
      && r.cumulativeGasUsed == CumulativeGas(receipts, n) + r.gasUsed <= gasLimit && r.failed == s.out.failed
      && Done(jobs[n], env, gasLimit - CumulativeGas(receipts, n), r.gasUsed, s)
    ensures AllDone(jobs, receipts + [r], steps + [s], env, gasLimit, start)
    ensures CumulativeGas(receipts + [r], |receipts| + 1) == r.cumulativeGasUsed
  {
    hide Done;
    forall i | 0 <= i <= |receipts| ensures DoneInTurn(jobs[i], receipts + [r], steps + [s], env, gasLimit, start, i) {
      CumulativeGasPrefix(receipts, r, i);
      if i < |receipts| {
        assert DoneInTurn(jobs[i], receipts, steps, env, gasLimit, start, i);
        CumulativeGasPrefix(receipts, r, i + 1);
      }
    }
  }

  // ---- a block's producer that self-destructs ----

  const SENDER: Address := 1
  const PRODUCER: Address := 7
  const HEIR: Address := 8

  /** Code of the block's producer that spends 5000 gas to self-destruct in favour of an heir. */
  function SelfDestruct(w: World, gas: nat): EvmResult {
    if gas < 5000 then EvmResult(w, 0, 0, 0, true, {})
    else
      var emptied := w.balances[PRODUCER := 0];
      var moved := emptied[HEIR := Get(emptied, HEIR) + Get(w.balances, PRODUCER)];
      EvmResult(w.(balances := moved), gas - 5000, 0, 0, false, {PRODUCER})
  }

  lemma SelfDestructBehaves()
    ensures WellBehaved(SelfDestruct, SENDER, false, 0)
  {
    forall w: World, g: nat
      ensures Executable(w, SENDER, false, 0) ==> Behaves(w, g, SelfDestruct(w, g), SENDER, false)
    {
      var emptied := w.balances[PRODUCER := 0];
      TotalSet(w.balances, PRODUCER, 0);
      TotalSet(emptied, HEIR, Get(emptied, HEIR) + Get(w.balances, PRODUCER));
    }
  }

  const OLD_RULES: Rules := Rules(false, false, false, false, false)
  const DOOMED: Env := Env(PRODUCER, 0, 0, OLD_RULES)
  const CALL: Transaction := Transaction(Some(PRODUCER), SENDER, 0, 0, 30000, Legacy(1), [], None, 0, None)
  const POOR: World := World(map[SENDER := 30000], map[], {PRODUCER})

  /** The sender calls the producer for a gas price of one. The tip of 26000 is paid to the flagged
      account and deleted with it: neither the fees burnt nor the EVM account for the loss. */
  lemma ProducerDeleted()
    ensures SaneJob(Job(CALL, SelfDestruct)) && SaneWorld(POOR)
    ensures var msg := TransactionToMessage(CALL, DOOMED);
      var out := SelfDestruct(Called(Debited(POOR, SENDER, 30000), msg), 9000);
      var after := Finalised(Settled(out.world, msg, DOOMED, 26000), out.destructed);
      && Acceptable(msg, POOR, 30000, DOOMED) && Ran(msg, DOOMED, POOR, SelfDestruct, out, 26000)
      && TipLost(26000, msg, DOOMED, out.destructed) == 26000
      && Total(after.balances) + Burnt(26000, msg, DOOMED) + DestroyedIn(out) + 26000 == Total(POOR.balances)
  {
    SelfDestructBehaves();
    var msg := TransactionToMessage(CALL, DOOMED);
    var bought := Debited(POOR, SENDER, 30000);
    var out := SelfDestruct(Called(bought, msg), 9000);
    TotalWithout(POOR.balances, SENDER);
    assert POOR.balances - {SENDER} == map[];
    assert IntrinsicOf(msg, OLD_RULES) == Some(21000);
    assert Prepaid(msg, DOOMED) == 30000;
    DebitedTotal(POOR, SENDER, 30000);
    BoughtExecutable(msg, POOR, bought);
    assert Behaves(Called(bought, msg), 9000, out, SENDER, false);
    EtherConserved(POOR, bought, out, msg, DOOMED, 26000);
    FinalisedTotal(out, msg, DOOMED, 26000);
  }

  class StateProcessor {
    const env: Env
    const gasLimit: nat

    constructor (env: Env, gasLimit: nat)
      ensures this.env == env && this.gasLimit == gasLimit
    {
      this.env, this.gasLimit := env, gasLimit;
    }

    /** Applies one transaction, deletes the accounts it flagged, and writes its receipt. */
    method ApplyTransaction(job: Job, gp: GasPool, state: StateDB, usedGas: nat)
      returns (receipt: Receipt, err: Option<StateTransitions.Error>, ghost step: Step)
      requires SaneJob(job) && SaneWorld(state.world) && gp.gas + usedGas == gasLimit <= MAX_UINT64
      modifies gp, state
      ensures err.None? <==> Acceptable(TransactionToMessage(job.tx, env), old(state.world), old(gp.gas), env)
      ensures Refuses(job, old(state.world), old(gp.gas), err)
      ensures err.None? ==> SaneWorld(state.world) && gp.gas + receipt.cumulativeGasUsed == gasLimit
      ensures err.None? ==> receipt.cumulativeGasUsed == usedGas + receipt.gasUsed
      ensures err.None? ==> receipt.failed == step.out.failed
      ensures err.None? ==>
        step.before == old(state.world) && step.after == state.world
          && Done(job, env, old(gp.gas), receipt.gasUsed, step)
    {
      var msg := TransactionToMessage(job.tx, env);
      var st := new StateTransition(gp, state, msg, env);
      ghost var before := state.world;
      var result; ghost var out;
      result, err, out := st.TransitionDb(job.evm);
      receipt := Receipt(result.failed, result.usedGas, usedGas + result.usedGas);
      if err.None? {
        FinalisedSane(state.world, state.destructed);
        FinalisedTotal(out, msg, env, result.usedGas);
        state.Finalise();
      }
      step := Step(before, state.world, out);
    }

    /** The error is that of the first check the transaction fails. */
    ghost predicate Refuses(job: Job, w: World, pool: nat, err: Option<StateTransitions.Error>) {
      var msg := TransactionToMessage(job.tx, env);
      Judged(EarlyChecks(msg, w, pool, env) + RunChecks(msg, env), err)
    }

    lemma FinalisedSane(w: World, gone: set<Address>)
      requires SaneWorld(w)
      ensures SaneWorld(Finalised(w, gone))
    {
      TotalSplit(w.balances, gone);
    }

    /** Applies the transactions of a block in order. It fails at the first one that is not acceptable;
        otherwise the receipts carry the running total of gas, which the pool mirrors. */
    method Process(jobs: seq<Job>, state: StateDB)
      returns (receipts: seq<Receipt>, usedGas: nat, err: Option<(nat, StateTransitions.Error)>, ghost steps: seq<Step>)
      requires gasLimit <= MAX_UINT64 && SaneWorld(state.world) && forall job :: job in jobs ==> SaneJob(job)
      modifies state
      ensures |receipts| == |steps| <= |jobs| && AllDone(jobs, receipts, steps, env, gasLimit, old(state.world))
      ensures err.None? ==> |receipts| == |jobs| && usedGas == CumulativeGas(receipts, |jobs|) <= gasLimit
      ensures err.None? ==> state.world == WorldAfter(old(state.world), steps, |jobs|)
      ensures err.None? ==>
        Total(state.world.balances) + BurntBy(jobs, receipts, steps, env, |jobs|)
          + TipsLost(jobs, receipts, steps, env, |jobs|)
        == Total(old(state.world).balances)
      ensures err.Some? ==>
        var k := |receipts|;
        && err.value.0 == k < |jobs| && CumulativeGas(receipts, k) <= gasLimit
        && !Acceptable(TransactionToMessage(jobs[k].tx, env), WorldAfter(old(state.world), steps, k),
                       gasLimit - CumulativeGas(receipts, k), env)
        && Refuses(jobs[k], WorldAfter(old(state.world), steps, k), gasLimit - CumulativeGas(receipts, k),
                   Some(err.value.1))
    {
      hide Acceptable, Refuses, Done, SaneJob, SaneWorld, TransactionToMessage, Burnt, AllDone;
      receipts, usedGas, err, steps := [], 0, None, [];
      ghost var start := state.world;
      var gp := new GasPool();
      var panicked := gp.AddGas(gasLimit);
      assert !panicked;
      NothingDone(jobs, gasLimit, start);
      var i := 0;
      while i < |jobs|
        invariant 0 <= i <= |jobs| && i == |receipts| == |steps| && err.None?
        invariant gp.gas + usedGas == gasLimit && SaneWorld(state.world)
        invariant usedGas == CumulativeGas(receipts, i)
        invariant state.world == WorldAfter(start, steps, i)
        invariant AllDone(jobs, receipts, steps, env, gasLimit, start)
      {
        assert jobs[i] in jobs;
        var receipt, error; ghost var step;
        receipt, error, step := ApplyTransaction(jobs[i], gp, state, usedGas);
        if error.Some? {
          err := Some((i, error.value));
          return;
        }
        DoneExtends(jobs, receipts, steps, env, gasLimit, start, receipt, step);
        usedGas := receipt.cumulativeGasUsed;
        receipts, steps := receipts + [receipt], steps + [step];
        i := i + 1;
      }
      BlockConserves(jobs, receipts, steps, env, gasLimit, start, |jobs|);
    }

    lemma NothingDone(jobs: seq<Job>, gasLimit: nat, start: World)
      ensures AllDone(jobs, [], [], env, gasLimit, start)
    {
    }
  }
}
