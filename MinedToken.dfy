/**
 * The Opdex mined token: a balance and allowance ledger whose supply is minted
 * period by period, from two equal-length schedules, into the owner's and the
 * mining governance's balances.
 *
 * Each entry point takes its environment as parameters: the calling address
 * (`sender`), the current block height (`block`) and, where the contract makes
 * an outbound call, the success flag the host reports for that call. A failed
 * assertion aborts the whole call; every method here then returns `Fail(..)` and
 * leaves the object as it was.
 */
module MinedToken {
  import opened Common

  /** The named reasons for which a token call aborts. */
  datatype Error =
    | Unauthorized
    /** The owner-only assertion on the first distribution, which carries no message. */
    | FirstDistributionNotByOwner
    | DistributionNotReady
    | FailedDistributionNotification
    | InvalidSender

  /** The records the contract emits. */
  datatype TokenLog =
    | DistributionLog(ownerAddress: Address, miningAddress: Address, ownerAmount: nat, miningAmount: nat, periodIndex: nat)
    | TransferLog(from: Address, to: Address, amount: nat)
    | ApprovalLog(owner: Address, spender: Address, amount: nat, oldAmount: nat)
    | OwnerChangeLog(from: Address, to: Address)

  /** The nomination call `NominateLiquidityPool` forwards to the mining governance. */
  datatype Nomination = Nomination(pool: Address, weight: nat)

  /** Deployment accepts the two schedules only when they have equal length and at least two entries. */
  predicate SchedulesAccepted(ownerSchedule: seq<nat>, miningSchedule: seq<nat>)
  {
    |ownerSchedule| > 1 && |ownerSchedule| == |miningSchedule|
  }

  /**
   * The schedule slot that period `periodIndex` mints: the period itself while it is
   * inside the schedule, and the last slot (the inflation tail) from then on.
   */
  function ScheduleIndex(periodIndex: nat, length: nat): (i: nat)
    requires length > 0
    ensures i < length
    ensures i <= periodIndex
    ensures i == periodIndex || i == length - 1
  {
    var inflationIndex := length - 1;
    if periodIndex < inflationIndex then periodIndex else inflationIndex
  }

  /** Every period at or past the last slot mints the last slot; every earlier period mints its own. */
  lemma ScheduleTail(periodIndex: nat, length: nat)
    requires length > 0
    ensures periodIndex >= length - 1 <==> ScheduleIndex(periodIndex, length) == length - 1
    ensures periodIndex < length - 1 ==> ScheduleIndex(periodIndex, length) == periodIndex
  {
  }

  /** The earliest block at which period `periodIndex` may be distributed. */
  function MinBlock(genesis: nat, periodDuration: nat, periodIndex: nat): (b: nat)
    ensures periodIndex == 0 ==> b == genesis
    ensures b >= genesis
  {
    if periodIndex == 0 then genesis else periodDuration * periodIndex + genesis
  }

  /** Successive distribution gates lie exactly one period duration apart. */
  lemma MinBlockStep(genesis: nat, periodDuration: nat, periodIndex: nat)
    ensures MinBlock(genesis, periodDuration, periodIndex + 1) == MinBlock(genesis, periodDuration, periodIndex) + periodDuration
  {
  }

  /** The gates never move backwards: a later period never opens before an earlier one. */
  lemma {:induction false} MinBlockMonotonic(genesis: nat, periodDuration: nat, p: nat, q: nat)
    requires p <= q
    ensures MinBlock(genesis, periodDuration, p) <= MinBlock(genesis, periodDuration, q)
    decreases q - p
  {
    if p < q {
      MinBlockMonotonic(genesis, periodDuration, p, q - 1);
      MinBlockStep(genesis, periodDuration, q - 1);
    }
  }

  /**
   * Moves `amount` from `from` to `to` the way the contract does it: first the
   * debit is written, then the recipient's (possibly just written) balance is
   * read back and credited, so a transfer to oneself changes nothing.
   */
  function Move(m: map<Address, nat>, from: Address, to: Address, amount: nat): (r: map<Address, nat>)
    requires amount <= Get(m, from)
    ensures MapSum(r) == MapSum(m)
    ensures from != to ==> Get(r, from) == Get(m, from) - amount && Get(r, to) == Get(m, to) + amount
    ensures from == to ==> Get(r, from) == Get(m, from)
    ensures forall a :: a != from && a != to ==> Get(r, a) == Get(m, a)
  {
    var debited := m[from := Get(m, from) - amount];
    MapSumUpdate(m, from, Get(m, from) - amount);
    MapSumUpdate(debited, to, Get(debited, to) + amount);
    Credit(debited, to, amount)
  }

  /** Crediting `v` to one balance raises the sum of all balances by exactly `v`. */
  lemma CreditSum(m: map<Address, nat>, k: Address, v: nat)
    ensures MapSum(Credit(m, k, v)) == MapSum(m) + v
  {
    MapSumUpdate(m, k, Get(m, k) + v);
  }

  class OpdexMinedToken {
    const name: string
    const symbol: string
    const decimals: nat
    /** The block at which the contract was deployed. */
    const genesis: nat
    /** The number of blocks between two distributions. */
    const periodDuration: nat
    const ownerSchedule: seq<nat>
    const miningSchedule: seq<nat>
    /** The address the host assigned to the mining governance created at deployment. */
    const miningGovernance: Address

    var owner: Address
    var totalSupply: nat
    /** The number of distributions made so far. */
    var periodIndex: nat
    var balances: map<Address, nat>
    /** Keyed by (owner, spender). */
    var allowances: map<(Address, Address), nat>
    /** The records emitted so far, oldest first. */
    var log: seq<TokenLog>

    /** The schedules are well formed and the balances add up to the total supply. */
    ghost predicate Valid()
      reads this
    {
      && SchedulesAccepted(ownerSchedule, miningSchedule)
      && MapSum(balances) == totalSupply
    }

    /**
     * Deployment by `sender` at block `block`, once the two schedules have been found
     * to have equal length and at least two entries; `miningGovernance` is the address of the governance contract
     * the host created for it.
     */
    constructor (sender: Address, block: nat, ownerSchedule: seq<nat>, miningSchedule: seq<nat>,
                 periodDuration: nat, miningGovernance: Address)
      requires SchedulesAccepted(ownerSchedule, miningSchedule)
      ensures Valid()
      ensures this.name == "Opdex" && this.symbol == "OPDX" && this.decimals == 8
      ensures this.owner == sender && this.genesis == block
      ensures this.ownerSchedule == ownerSchedule && this.miningSchedule == miningSchedule
      ensures this.periodDuration == periodDuration && this.miningGovernance == miningGovernance
      ensures totalSupply == 0 && periodIndex == 0
      ensures balances == map[] && allowances == map[] && log == []
    {
      name := "Opdex";
      symbol := "OPDX";
      decimals := 8;
      owner := sender;
      genesis := block;
      this.ownerSchedule := ownerSchedule;
      this.miningSchedule := miningSchedule;
      this.periodDuration := periodDuration;
      this.miningGovernance := miningGovernance;
      totalSupply := 0;
      periodIndex := 0;
      balances := map[];
      allowances := map[];
      log := [];
    }

    /** Deployment: aborts (no contract) unless the schedules are accepted. */
    static method Deploy(sender: Address, block: nat, ownerSchedule: seq<nat>, miningSchedule: seq<nat>,
                         periodDuration: nat, miningGovernance: Address)
      returns (token: Option<OpdexMinedToken>)
      ensures token.Some? <==> SchedulesAccepted(ownerSchedule, miningSchedule)
      ensures token.Some? ==> fresh(token.value) && token.value.Valid()
      ensures token.Some? ==> token.value.owner == sender && token.value.genesis == block
      ensures token.Some? ==> token.value.totalSupply == 0 && token.value.periodIndex == 0
      ensures token.Some? ==> token.value.balances == map[] && token.value.allowances == map[] && token.value.log == []
      ensures token.Some? ==> token.value.name == "Opdex" && token.value.symbol == "OPDX" && token.value.decimals == 8
      ensures token.Some? ==> token.value.ownerSchedule == ownerSchedule && token.value.miningSchedule == miningSchedule
      ensures token.Some? ==> token.value.periodDuration == periodDuration && token.value.miningGovernance == miningGovernance
    {
      if !SchedulesAccepted(ownerSchedule, miningSchedule) {
        return None;
      }
      var t := new OpdexMinedToken(sender, block, ownerSchedule, miningSchedule, periodDuration, miningGovernance);
      token := Some(t);
    }

    function GetBalance(address: Address): nat
      reads this
    {
      Get(balances, address)
    }

    function Allowance(owner: Address, spender: Address): nat
      reads this
    {
      Get(allowances, (owner, spender))
    }

    /**
     * Mints the current period. Period 0 may only be started by the owner; every
     * later period by anyone, once `block` has reached the period's gate. The owner
     * and the mining governance are credited from the clamped schedule slot, and the
     * mining governance is notified (with `data` on period 0, with nothing after);
     * `notificationSucceeded` is what the host reports for that call. The result
     * `notification` is the payload of the call, when the call is made.
     */
    method Distribute(sender: Address, block: nat, data: seq<byte>, notificationSucceeded: bool)
      returns (r: Outcome<Error>, notification: Option<seq<byte>>)
      requires Valid()
      modifies this
      ensures Valid()
      ensures old(periodIndex) == 0 && sender != old(owner) ==> r == Fail(FirstDistributionNotByOwner)
      ensures !(old(periodIndex) == 0 && sender != old(owner)) && block < MinBlock(genesis, periodDuration, old(periodIndex))
              ==> r == Fail(DistributionNotReady)
      ensures r.Pass? || r == Fail(FailedDistributionNotification) <==>
              !(old(periodIndex) == 0 && sender != old(owner)) && block >= MinBlock(genesis, periodDuration, old(periodIndex))
      ensures notification.Some? <==> r.Pass? || r == Fail(FailedDistributionNotification)
      ensures r.Pass? || r == Fail(FailedDistributionNotification) ==>
              notification == Some(if old(periodIndex) == 0 then data else [])
      ensures r.Pass? || r == Fail(FailedDistributionNotification) ==> (r.Pass? <==> notificationSucceeded)
      ensures r.Fail? ==> unchanged(this)
      ensures r.Pass? ==>
                var i := ScheduleIndex(old(periodIndex), |ownerSchedule|);
                && balances == Credit(Credit(old(balances), owner, ownerSchedule[i]), miningGovernance, miningSchedule[i])
                && totalSupply == old(totalSupply) + ownerSchedule[i] + miningSchedule[i]
                && periodIndex == old(periodIndex) + 1
                && log == old(log) + [DistributionLog(owner, miningGovernance, ownerSchedule[i], miningSchedule[i], old(periodIndex))]
                && owner == old(owner) && allowances == old(allowances)
    {
      notification := None;
      var period := periodIndex;
      if period == 0 && sender != owner {
        return Fail(FirstDistributionNotByOwner), notification;
      }
      var minBlock := MinBlock(genesis, periodDuration, period);
      if block < minBlock {
        return Fail(DistributionNotReady), notification;
      }
      var scheduleIndex := ScheduleIndex(period, |ownerSchedule|);
      var ownerTokens := ownerSchedule[scheduleIndex];
      var miningTokens := miningSchedule[scheduleIndex];
      // The credits are staged and committed only once the notification has succeeded.
      var staged := Credit(balances, owner, ownerTokens);
      staged := Credit(staged, miningGovernance, miningTokens);
      notification := Some(if period == 0 then data else []);
      if !notificationSucceeded {
        return Fail(FailedDistributionNotification), notification;
      }
      CreditSum(balances, owner, ownerTokens);
      CreditSum(Credit(balances, owner, ownerTokens), miningGovernance, miningTokens);
      balances := staged;
      totalSupply := totalSupply + (miningTokens + ownerTokens);
      periodIndex := period + 1;
      log := log + [DistributionLog(owner, miningGovernance, ownerTokens, miningTokens, period)];
      r := Pass;
    }

    /** Hands ownership to `newOwner`; only the current owner may. */
    method SetOwner(sender: Address, newOwner: Address) returns (r: Outcome<Error>)
      requires Valid()
      modifies this
      ensures Valid()
      ensures r.Pass? <==> sender == old(owner)
      ensures r.Fail? ==> r.error == Unauthorized && unchanged(this)
      ensures r.Pass? ==> owner == newOwner && log == old(log) + [OwnerChangeLog(sender, newOwner)]
      ensures r.Pass? ==> balances == old(balances) && allowances == old(allowances)
      ensures r.Pass? ==> totalSupply == old(totalSupply) && periodIndex == old(periodIndex)
    {
      if sender != owner {
        return Fail(Unauthorized);
      }
      owner := newOwner;
      log := log + [OwnerChangeLog(sender, newOwner)];
      r := Pass;
    }

    /**
     * Moves `amount` of the sender's tokens to `to`. A zero amount always succeeds
     * and changes nothing but the log; an amount above the sender's balance is a
     * soft failure (false, nothing changes, nothing is logged).
     */
    method TransferTo(sender: Address, to: Address, amount: nat) returns (success: bool)
      requires Valid()
      modifies this`balances, this`log
      ensures Valid()
      ensures success <==> amount == 0 || amount <= old(GetBalance(sender))
      ensures !success ==> balances == old(balances) && log == old(log)
      ensures success ==> log == old(log) + [TransferLog(sender, to, amount)]
      ensures amount == 0 ==> balances == old(balances)
      ensures success && amount > 0 ==> balances == Move(old(balances), sender, to, amount)
      ensures success && sender != to ==>
                GetBalance(sender) == old(GetBalance(sender)) - amount && GetBalance(to) == old(GetBalance(to)) + amount
      ensures forall a :: a != sender && a != to ==> GetBalance(a) == old(GetBalance(a))
    {
      if amount == 0 {
        log := log + [TransferLog(sender, to, 0)];
        return true;
      }
      var senderBalance := GetBalance(sender);
      if senderBalance < amount {
        return false;
      }
      balances := Move(balances, sender, to, amount);
      log := log + [TransferLog(sender, to, amount)];
      success := true;
    }

    /**
     * Moves `amount` of `from`'s tokens to `to` on the sender's allowance, which
     * is lowered by `amount`. Soft failure when the allowance or the balance is short.
     */
    method TransferFrom(sender: Address, from: Address, to: Address, amount: nat) returns (success: bool)
      requires Valid()
      modifies this`balances, this`allowances, this`log
      ensures Valid()
      ensures success <==> amount == 0 || (amount <= old(Allowance(from, sender)) && amount <= old(GetBalance(from)))
      ensures !success ==> balances == old(balances) && allowances == old(allowances) && log == old(log)
      ensures success ==> log == old(log) + [TransferLog(from, to, amount)]
      ensures amount == 0 ==> balances == old(balances) && allowances == old(allowances)
      ensures success && amount > 0 ==>
                && balances == Move(old(balances), from, to, amount)
                && allowances == old(allowances)[(from, sender) := old(Allowance(from, sender)) - amount]
      ensures success && from != to ==>
                GetBalance(from) == old(GetBalance(from)) - amount && GetBalance(to) == old(GetBalance(to)) + amount
      ensures forall a :: a != from && a != to ==> GetBalance(a) == old(GetBalance(a))
    {
      if amount == 0 {
        log := log + [TransferLog(from, to, 0)];
        return true;
      }
      var senderAllowance := Allowance(from, sender);
      var fromBalance := GetBalance(from);
      if senderAllowance < amount || fromBalance < amount {
        return false;
      }
      allowances := allowances[(from, sender) := senderAllowance - amount];
      balances := Move(balances, from, to, amount);
      log := log + [TransferLog(from, to, amount)];
      success := true;
    }

    /**
     * Compare-and-swap of the allowance the sender grants `spender`: it is
     * overwritten with `amount` only when it currently equals `currentAmount`.
     */
    method Approve(sender: Address, spender: Address, currentAmount: nat, amount: nat) returns (success: bool)
      requires Valid()
      modifies this`allowances, this`log
      ensures Valid()
      ensures success <==> old(Allowance(sender, spender)) == currentAmount
      ensures !success ==> allowances == old(allowances) && log == old(log)
      ensures success ==> allowances == old(allowances)[(sender, spender) := amount]
      ensures success ==> log == old(log) + [ApprovalLog(sender, spender, amount, currentAmount)]
      ensures success ==> Allowance(sender, spender) == amount
    {
      if Allowance(sender, spender) != currentAmount {
        return false;
      }
      allowances := allowances[(sender, spender) := amount];
      log := log + [ApprovalLog(sender, spender, amount, currentAmount)];
      success := true;
    }

    /**
     * The guard and forwarding decision of `NominateLiquidityPool`: only a contract
     * may nominate itself; a zero balance returns silently with no call; otherwise
     * the governance is called with the sender and its balance as weight. The
     * governance call's result is not inspected by the token, so it is not an input.
     */
    method NominateLiquidityPool(sender: Address, senderIsContract: bool)
      returns (r: Result<Option<Nomination>, Error>)
      ensures !senderIsContract ==> r == Err(InvalidSender)
      ensures senderIsContract && GetBalance(sender) == 0 ==> r == Ok(None)
      ensures senderIsContract && GetBalance(sender) > 0 ==> r == Ok(Some(Nomination(sender, GetBalance(sender))))
    {
      if !senderIsContract {
        return Err(InvalidSender);
      }
      var balance := GetBalance(sender);
      if balance == 0 {
        return Ok(None);
      }
      r := Ok(Some(Nomination(sender, balance)));
    }
  }
}
