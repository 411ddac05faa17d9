/** The depositor accounts as the program runs them: each instruction realizes one account in place,
    takes a fresh snapshot and moves the pool's total. */
module ReactorAccounts {
  import opened FixedPoint
  import opened ReactorLedger
  import opened ReactorMath
  import opened ReactorPool

  class DepositAccount {
    var deposited: nat
    var snapP: nat
    var snapS: nat
    var snapScale: nat
    var snapEpoch: nat
    var pending: nat

    constructor (pool: Pool)
      ensures View() == ReactorDeposit(0, Snapshot(pool.p, 0, pool.scale, pool.epoch), 0)
    {
      deposited, pending := 0, 0;
      snapP, snapS, snapScale, snapEpoch := pool.p, 0, pool.scale, pool.epoch;
    }

    function View(): ReactorDeposit
      reads this
    {
      ReactorDeposit(deposited, Snapshot(snapP, snapS, snapScale, snapEpoch), pending)
    }

    /** Account `who` of reactor `w` is this account, beside this pool. */
    ghost predicate Within(w: Reactor, who: nat, pool: Pool)
      reads this, pool, pool.sGrid
    {
      && w.st == pool.State() && w.grid == pool.sGrid[..] && w.stride == pool.stride
      && who < |w.deps| && w.deps[who] == View()
    }

    /** Fold the accrued gain into the pending balance and return the compounded deposit. */
    method Realize(pool: Pool, ghost w: Reactor, ghost who: nat) returns (r: Result<nat, FusdError>)
      requires Within(w, who, pool)
      modifies this`pending
      ensures match ReactorLedger.Realize(w, w.deps[who])
              case Ok(z) => r == Ok(z.compounded) && pending == old(pending) + z.gain
              case Err(e) => r == Err(e) && pending == old(pending)
    {
      var snap := Snapshot(snapP, snapS, snapScale, snapEpoch);
      var compounded := CompoundedDeposit(pool.State(), deposited, snap);
      if compounded.None? {
        return Err(MathOverflow);
      }
      var gain := CollateralGain(pool.sGrid[..], pool.stride, deposited, snap);
      if gain.Err? {
        return Err(MapErr(gain.error));
      }
      if gain.value > U64_MAX || pending + gain.value > U64_MAX {
        return Err(MathOverflow);
      }
      pending := pending + gain.value;
      return Ok(compounded.value);
    }

    method SetSnapshot(pool: Pool)
      modifies this`snapP, this`snapS, this`snapScale, this`snapEpoch
      ensures View() == ReactorDeposit(deposited, TakeSnapshot(pool.State(), pool.sGrid[..], pool.stride), pending)
    {
      var snap := TakeSnapshot(pool.State(), pool.sGrid[..], pool.stride);
      snapP, snapS, snapScale, snapEpoch := snap.p, snap.s, snap.scale, snap.epoch;
    }

    method Provide(pool: Pool, amount: nat, ghost w: Reactor, ghost who: nat) returns (r: Result<(), FusdError>)
      requires Within(w, who, pool)
      modifies this, pool`totalDeposits
      ensures match Apply(w, Op.Provide(who, amount))
              case Ok(w') => r == Ok(()) && Within(w', who, pool)
              case Err(e) => r == Err(e) && pool.State() == old(pool.State())
    {
      hide CompoundedDeposit, CollateralGain, TakeSnapshot;
      if amount == 0 {
        return Err(ZeroAmount);
      }
      var compounded := Realize(pool, w, who);
      if compounded.Err? {
        return Err(compounded.error);
      }
      SetSnapshot(pool);
      if compounded.value + amount > U64_MAX || pool.totalDeposits + amount > U128_MAX {
        return Err(MathOverflow);
      }
      pool.totalDeposits := pool.totalDeposits + amount;
      deposited := compounded.value + amount;
      return Ok(());
    }

    method Withdraw(pool: Pool, amount: nat, ghost w: Reactor, ghost who: nat) returns (r: Result<nat, FusdError>)
      requires Within(w, who, pool)
      modifies this, pool`totalDeposits
      ensures match Apply(w, Op.Withdraw(who, amount))
              case Ok(w') => r == Ok(w.st.totalDeposits - w'.st.totalDeposits) && Within(w', who, pool)
              case Err(e) => r == Err(e)
    {
      hide CompoundedDeposit, CollateralGain, TakeSnapshot;
      if amount == 0 {
        return Err(ZeroAmount);
      }
      var compounded := Realize(pool, w, who);
      if compounded.Err? {
        return Err(compounded.error);
      }
      SetSnapshot(pool);
      var out := Min(amount, compounded.value);
      if pool.totalDeposits < out {
        return Err(MathOverflow);
      }
      pool.totalDeposits := pool.totalDeposits - out;
      if compounded.value - out > U64_MAX {
        return Err(MathOverflow);
      }
      deposited := compounded.value - out;
      return Ok(out);
    }

    /** Pay out the pending collateral. The recorded deposit may shrink; the pool's total does not move. */
    method ClaimGains(pool: Pool, ghost w: Reactor, ghost who: nat) returns (r: Result<nat, FusdError>)
      requires Within(w, who, pool)
      modifies this
      ensures match Apply(w, Op.ClaimGains(who))
              case Ok(w') =>
                && r == Ok(old(pending) + ReactorLedger.Realize(w, w.deps[who]).value.gain)
                && Within(w', who, pool)
              case Err(e) => r == Err(e)
    {
      hide CompoundedDeposit, CollateralGain, TakeSnapshot;
      var compounded := Realize(pool, w, who);
      if compounded.Err? {
        return Err(compounded.error);
      }
      SetSnapshot(pool);
      if compounded.value > U64_MAX {
        return Err(MathOverflow);
      }
      deposited := compounded.value;
      var amount := pending;
      pending := 0;
      return Ok(amount);
    }
  }
}
