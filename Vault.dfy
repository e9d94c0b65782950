/**
 * The Opdex vault: an allocatable pool of tokens (fed by the token contract's
 * distribution notifications) from which the owner earmarks vesting
 * certificates, at most ten per holder. A holder redeems the certificates that
 * have matured; the owner may revoke the unvested part of the others, pro rata
 * to the blocks elapsed, returning the difference to the pool.
 *
 * As for the token, the caller, the block height and the outcome of the one
 * outbound call (the token's `TransferTo` on redemption) are parameters, and
 * an aborted call returns `Fail(..)` and leaves the vault as it was.
 */
module Vault {
  import opened Common

  /** The most certificates a holder may have at once. */
  const MaximumCertificates: nat := 10

  /** The scale of the two-step percentage computation of a revocation. */
  const PercentageOffset: nat := 100

  datatype VaultCertificate = VaultCertificate(amount: nat, vestedBlock: nat, revoked: bool)

  /** The named reasons for which a vault call aborts. */
  datatype Error =
    | Unauthorized
    | InvalidCertificateHolder
    | InvalidAmount
    | TokensBurned
    | CertificateLimitReached
    | InvalidTransferTo
    /** The host's division-by-zero fault, when a revocation falls on a certificate's creation block. */
    | DivideByZero

  /** The records the vault emits. */
  datatype VaultLog =
    | CreateVaultCertificateLog(owner: Address, amount: nat, vestedBlock: nat)
    | RedeemVaultCertificateLog(owner: Address, amount: nat, vestedBlock: nat)
    | RevokeVaultCertificateLog(owner: Address, oldAmount: nat, newAmount: nat, vestedBlock: nat)
    | ChangeVaultOwnerLog(from: Address, to: Address)

  /** What the host reports of an outbound call: whether it ran, and the boolean it returned. */
  datatype CallResult = CallResult(success: bool, returnValue: bool)

  /** An outbound `TransferTo(to, amount)` call on the token contract. */
  datatype TransferCall = TransferCall(token: Address, to: Address, amount: nat)

  // ----- Certificate lists ---------------------------------------------------

  /** The sum of the amounts of a list of certificates. */
  function Total(certs: seq<VaultCertificate>): nat
  {
    if certs == [] then 0 else Total(certs[..|certs| - 1]) + certs[|certs| - 1].amount
  }

  /**
   * The list grown by one entry at its end (the `Array.Resize` of the source):
   * the old entries keep their places.
   */
  function InsertCertificate(certs: seq<VaultCertificate>, amount: nat, vestedBlock: nat, revoked: bool)
    : (r: seq<VaultCertificate>)
    ensures |r| == |certs| + 1
    ensures r[..|certs|] == certs
    ensures r[|certs|] == VaultCertificate(amount, vestedBlock, revoked)
    ensures Total(r) == Total(certs) + amount
  {
    var r := certs + [VaultCertificate(amount, vestedBlock, revoked)];
    assert r[..|certs|] == certs;
    r
  }

  /** The certificates of a list that are still locked at `block`, in their original order. */
  function Unmatured(certs: seq<VaultCertificate>, block: nat): (r: seq<VaultCertificate>)
    ensures |r| <= |certs|
    ensures forall i | 0 <= i < |r| :: r[i].vestedBlock > block
  {
    if certs == [] then []
    else
      var rest := Unmatured(certs[..|certs| - 1], block);
      var last := certs[|certs| - 1];
      if last.vestedBlock > block then rest + [last] else rest
  }

  /** The sum of the amounts of the certificates that have matured at `block`, revoked ones included. */
  function MaturedTotal(certs: seq<VaultCertificate>, block: nat): (r: nat)
    ensures r <= Total(certs)
  {
    if certs == [] then 0
    else
      var rest := MaturedTotal(certs[..|certs| - 1], block);
      var last := certs[|certs| - 1];
      if last.vestedBlock > block then rest else rest + last.amount
  }

  /** One redemption record per matured certificate, in list order. */
  function RedeemLogs(holder: Address, certs: seq<VaultCertificate>, block: nat): (r: seq<VaultLog>)
    ensures |r| + |Unmatured(certs, block)| == |certs|
    ensures forall i | 0 <= i < |r| :: r[i].RedeemVaultCertificateLog? && r[i].owner == holder && r[i].vestedBlock <= block
  {
    if certs == [] then []
    else
      var rest := RedeemLogs(holder, certs[..|certs| - 1], block);
      var last := certs[|certs| - 1];
      if last.vestedBlock > block then rest else rest + [RedeemVaultCertificateLog(holder, last.amount, last.vestedBlock)]
  }

  /** Redemption splits a list's total exactly into what stays locked and what is paid out. */
  lemma {:induction false} RedeemSplitsTotal(certs: seq<VaultCertificate>, block: nat)
    ensures Total(certs) == Total(Unmatured(certs, block)) + MaturedTotal(certs, block)
  {
    if certs != [] {
      var init := certs[..|certs| - 1];
      var last := certs[|certs| - 1];
      RedeemSplitsTotal(init, block);
      if last.vestedBlock > block {
        assert Total(Unmatured(certs, block)) == Total(Unmatured(init, block)) + last.amount by {
          var u := Unmatured(init, block);
          assert (u + [last])[..|u|] == u;
        }
      }
    }
  }

  /**
   * Redemption keeps exactly the entries still locked: each certificate stays as
   * many times as it occurs when it is locked, and not at all when it has matured.
   */
  lemma {:induction false} UnmaturedKeepsExactly(certs: seq<VaultCertificate>, block: nat, c: VaultCertificate)
    ensures multiset(Unmatured(certs, block))[c] == if c.vestedBlock > block then multiset(certs)[c] else 0
  {
    if certs != [] {
      var init := certs[..|certs| - 1];
      var last := certs[|certs| - 1];
      assert certs == init + [last];
      UnmaturedKeepsExactly(init, block, c);
    }
  }

  /** Redemption preserves relative order: it distributes over concatenation. */
  lemma {:induction false} UnmaturedAppend(a: seq<VaultCertificate>, b: seq<VaultCertificate>, block: nat)
    ensures Unmatured(a + b, block) == Unmatured(a, block) + Unmatured(b, block)
    decreases |b|
  {
    if b == [] {
      assert a + b == a;
    } else {
      var init := b[..|b| - 1];
      var last := b[|b| - 1];
      assert (a + b)[..|a + b| - 1] == a + init;
      UnmaturedAppend(a, init, block);
    }
  }

  /** Redemption keeps a list well formed and never lengthens it. */
  lemma {:induction false} UnmaturedWellFormed(certs: seq<VaultCertificate>, block: nat, vestingDuration: nat)
    requires WellFormed(certs, vestingDuration)
    ensures WellFormed(Unmatured(certs, block), vestingDuration)
  {
    if certs != [] {
      var init := certs[..|certs| - 1];
      assert forall i | 0 <= i < |init| :: init[i] == certs[i];
      UnmaturedWellFormed(init, block, vestingDuration);
    }
  }

  /** A second redemption at the same block pays nothing and keeps the list. */
  lemma {:induction false} RedeemIdempotent(certs: seq<VaultCertificate>, block: nat)
    ensures Unmatured(Unmatured(certs, block), block) == Unmatured(certs, block)
    ensures MaturedTotal(Unmatured(certs, block), block) == 0
  {
    if certs != [] {
      var init := certs[..|certs| - 1];
      var last := certs[|certs| - 1];
      RedeemIdempotent(init, block);
      if last.vestedBlock > block {
        var u := Unmatured(init, block);
        assert (u + [last])[..|u|] == u;
      }
    }
  }

  /**
   * The guarded token transfer of a redemption: no call at all for a zero amount;
   * otherwise the call must both succeed and return true, or the redemption aborts
   * with INVALID_TRANSFER_TO.
   */
  function SafeTransferTo(amount: nat, transfer: CallResult): (r: Outcome<Error>)
    ensures amount == 0 ==> r == Pass
    ensures amount > 0 ==> (r == Pass <==> transfer.success && transfer.returnValue)
    ensures r == Pass || r == Fail(InvalidTransferTo)
  {
    if amount == 0 then Pass
    else if transfer.success && transfer.returnValue then Pass
    else Fail(InvalidTransferTo)
  }

  // ----- Revocation ------------------------------------------------------------

  /** When at most the whole vesting duration has elapsed, the first division yields at least 100. */
  lemma DivisorAtLeastHundred(vestingDuration: nat, vestedBlocks: nat)
    requires 0 < vestedBlocks <= vestingDuration
    ensures vestingDuration * PercentageOffset / vestedBlocks >= PercentageOffset
  {
    var x := vestingDuration * PercentageOffset;
    var d := x / vestedBlocks;
    assert x == d * vestedBlocks + x % vestedBlocks;
  }

  /**
   * The revoked amount of a certificate of `amount` after `vestedBlocks` of its
   * `vestingDuration` have elapsed, by the contract's two truncating divisions:
   * first the inverse of the elapsed percentage, then the amount scaled by it.
   * It never exceeds the original amount.
   */
  function RevokedAmount(amount: nat, vestingDuration: nat, vestedBlocks: nat): (r: nat)
    requires 0 < vestedBlocks <= vestingDuration
    ensures r <= amount
  {
    DivisorAtLeastHundred(vestingDuration, vestedBlocks);
    var divisor := vestingDuration * PercentageOffset / vestedBlocks;
    ScaledQuotientAtMost(amount, divisor);
    amount * PercentageOffset / divisor
  }

  /** Scaling by 100 and dividing by at least 100 never increases an amount. */
  lemma ScaledQuotientAtMost(amount: nat, divisor: nat)
    requires divisor >= PercentageOffset
    ensures amount * PercentageOffset / divisor <= amount
  {
    var x := amount * PercentageOffset;
    var r := x / divisor;
    assert r * divisor <= x;
    assert r * PercentageOffset <= r * divisor;
  }

  /** The revoked amount is the largest whole number of the scaled amount per divisor. */
  lemma RevokedAmountIsTruncation(amount: nat, vestingDuration: nat, vestedBlocks: nat)
    requires 0 < vestedBlocks <= vestingDuration
    ensures var divisor := vestingDuration * PercentageOffset / vestedBlocks;
            var r := RevokedAmount(amount, vestingDuration, vestedBlocks);
            divisor >= PercentageOffset
            && r * divisor <= amount * PercentageOffset < (r + 1) * divisor
  {
    DivisorAtLeastHundred(vestingDuration, vestedBlocks);
  }

  /** A certificate revocation acts on: neither revoked yet nor matured at `block`. */
  predicate Eligible(c: VaultCertificate, block: nat)
  {
    !c.revoked && block < c.vestedBlock
  }

  /**
   * An eligible certificate whose vesting start is not before `block` (zero
   * elapsed blocks): the source divides by zero on it.
   */
  predicate Faults(c: VaultCertificate, vestingDuration: nat, block: nat)
  {
    Eligible(c, block) && block + vestingDuration <= c.vestedBlock
  }

  /**
   * Every certificate matures at least one vesting duration after block 0, as
   * every certificate the vault creates does; so its vesting start is a block.
   */
  predicate WellFormed(certs: seq<VaultCertificate>, vestingDuration: nat)
  {
    forall i | 0 <= i < |certs| :: vestingDuration <= certs[i].vestedBlock
  }

  /** No certificate of the list makes a revocation at `block` divide by zero. */
  predicate Revocable(certs: seq<VaultCertificate>, vestingDuration: nat, block: nat)
  {
    forall i | 0 <= i < |certs| :: !Faults(certs[i], vestingDuration, block)
  }

  /** One certificate after revocation at `block`: eligible ones are cut and marked revoked. */
  function RevokeOne(c: VaultCertificate, vestingDuration: nat, block: nat): (r: VaultCertificate)
    requires vestingDuration <= c.vestedBlock && !Faults(c, vestingDuration, block)
    ensures r.vestedBlock == c.vestedBlock && r.amount <= c.amount
    ensures Eligible(c, block) ==> r.revoked
    ensures !Eligible(c, block) ==> r == c
  {
    if !Eligible(c, block) then c
    else
      var vestingBlock := c.vestedBlock - vestingDuration;
      var vestedBlocks := block - vestingBlock;
      c.(amount := RevokedAmount(c.amount, vestingDuration, vestedBlocks), revoked := true)
  }

  /** A whole list after revocation at `block`. */
  function Revoked(certs: seq<VaultCertificate>, vestingDuration: nat, block: nat): (r: seq<VaultCertificate>)
    requires WellFormed(certs, vestingDuration) && Revocable(certs, vestingDuration, block)
    ensures |r| == |certs|
    ensures forall i | 0 <= i < |certs| :: r[i] == RevokeOne(certs[i], vestingDuration, block)
  {
    if certs == [] then []
    else
      var init := certs[..|certs| - 1];
      assert forall i | 0 <= i < |init| :: init[i] == certs[i];
      Revoked(init, vestingDuration, block) + [RevokeOne(certs[|certs| - 1], vestingDuration, block)]
  }

  /** What a revocation at `block` returns to the pool: the sum of the cuts. */
  function Refund(certs: seq<VaultCertificate>, vestingDuration: nat, block: nat): (r: nat)
    requires WellFormed(certs, vestingDuration) && Revocable(certs, vestingDuration, block)
    ensures r <= Total(certs)
  {
    if certs == [] then 0
    else
      var init := certs[..|certs| - 1];
      var last := certs[|certs| - 1];
      assert forall i | 0 <= i < |init| :: init[i] == certs[i];
      Refund(init, vestingDuration, block) + (last.amount - RevokeOne(last, vestingDuration, block).amount)
  }

  /** One revocation record per eligible certificate, in list order. */
  function RevokeLogs(wallet: Address, certs: seq<VaultCertificate>, vestingDuration: nat, block: nat): (r: seq<VaultLog>)
    requires WellFormed(certs, vestingDuration) && Revocable(certs, vestingDuration, block)
    ensures |r| <= |certs|
    ensures forall i | 0 <= i < |r| ::
              && r[i].RevokeVaultCertificateLog? && r[i].owner == wallet
              && r[i].newAmount <= r[i].oldAmount && r[i].vestedBlock > block
  {
    if certs == [] then []
    else
      var init := certs[..|certs| - 1];
      var last := certs[|certs| - 1];
      assert forall i | 0 <= i < |init| :: init[i] == certs[i];
      var rest := RevokeLogs(wallet, init, vestingDuration, block);
      if Eligible(last, block)
      then rest + [RevokeVaultCertificateLog(wallet, last.amount, RevokeOne(last, vestingDuration, block).amount, last.vestedBlock)]
      else rest
  }

  /** Revocation moves value, it does not create it: the cut amounts are exactly the refund. */
  lemma {:induction false} RevokeConserves(certs: seq<VaultCertificate>, vestingDuration: nat, block: nat)
    requires WellFormed(certs, vestingDuration) && Revocable(certs, vestingDuration, block)
    ensures Total(Revoked(certs, vestingDuration, block)) + Refund(certs, vestingDuration, block) == Total(certs)
  {
    if certs != [] {
      var init := certs[..|certs| - 1];
      var last := certs[|certs| - 1];
      assert forall i | 0 <= i < |init| :: init[i] == certs[i];
      RevokeConserves(init, vestingDuration, block);
      var r := Revoked(certs, vestingDuration, block);
      assert r[..|r| - 1] == Revoked(init, vestingDuration, block);
    }
  }

  /** Revocation keeps every maturation block, hence well-formedness. */
  lemma RevokedWellFormed(certs: seq<VaultCertificate>, vestingDuration: nat, block: nat)
    requires WellFormed(certs, vestingDuration) && Revocable(certs, vestingDuration, block)
    ensures WellFormed(Revoked(certs, vestingDuration, block), vestingDuration)
    ensures Revocable(Revoked(certs, vestingDuration, block), vestingDuration, block)
    ensures forall i | 0 <= i < |certs| :: !Eligible(Revoked(certs, vestingDuration, block)[i], block)
  {
  }

  /** A second revocation at the same block changes nothing, returns nothing and logs nothing. */
  lemma {:induction false} RevokeIdempotent(wallet: Address, certs: seq<VaultCertificate>, vestingDuration: nat, block: nat)
    requires WellFormed(certs, vestingDuration) && Revocable(certs, vestingDuration, block)
    ensures var once := Revoked(certs, vestingDuration, block);
            WellFormed(once, vestingDuration) && Revocable(once, vestingDuration, block)
            && Revoked(once, vestingDuration, block) == once
            && Refund(once, vestingDuration, block) == 0
            && RevokeLogs(wallet, once, vestingDuration, block) == []
  {
    RevokedWellFormed(certs, vestingDuration, block);
    var once := Revoked(certs, vestingDuration, block);
    NothingEligibleIsFixed(wallet, once, vestingDuration, block);
  }

  /** On a list with nothing eligible, revocation is the identity. */
  lemma NothingEligibleIsFixed(wallet: Address, certs: seq<VaultCertificate>, vestingDuration: nat, block: nat)
    requires WellFormed(certs, vestingDuration)
    requires forall i | 0 <= i < |certs| :: !Eligible(certs[i], block)
    ensures Revocable(certs, vestingDuration, block)
    ensures Revoked(certs, vestingDuration, block) == certs
    ensures Refund(certs, vestingDuration, block) == 0
    ensures RevokeLogs(wallet, certs, vestingDuration, block) == []
  {
    assert Revocable(certs, vestingDuration, block);
    var r := Revoked(certs, vestingDuration, block);
    assert forall i | 0 <= i < |certs| :: r[i] == certs[i];
    NothingEligibleRefundsNothing(wallet, certs, vestingDuration, block);
  }

  lemma {:induction false} NothingEligibleRefundsNothing(wallet: Address, certs: seq<VaultCertificate>, vestingDuration: nat, block: nat)
    requires WellFormed(certs, vestingDuration) && Revocable(certs, vestingDuration, block)
    requires forall i | 0 <= i < |certs| :: !Eligible(certs[i], block)
    ensures Refund(certs, vestingDuration, block) == 0
    ensures RevokeLogs(wallet, certs, vestingDuration, block) == []
  {
    if certs != [] {
      var init := certs[..|certs| - 1];
      var last := certs[|certs| - 1];
      assert forall i | 0 <= i < |init| :: init[i] == certs[i];
      NothingEligibleRefundsNothing(wallet, init, vestingDuration, block);
      assert !Eligible(last, block);
    }
  }

  /**
   * The contract's expected values: a certificate of 100 maturing at a four-year
   * vesting duration V (1971000 blocks a year) revoked after 1%, 25%, 50%, 75%
   * and 99% of V keeps 1, 25, 50, 75 and 99.
   */
  lemma RevokeSingleVectors()
    ensures RevokedAmount(100, 7884000, 78840) == 1
    ensures RevokedAmount(100, 7884000, 1971000) == 25
    ensures RevokedAmount(100, 7884000, 3942000) == 50
    ensures RevokedAmount(100, 7884000, 5913000) == 75
    ensures RevokedAmount(100, 7884000, 7805160) == 99
  {
  }

  /**
   * Two certificates of 100 maturing at years five and seven, revoked at year
   * four, keep 75 and 25 and return 100 to the pool.
   */
  lemma RevokeMultipleVector()
    ensures var certs := [VaultCertificate(100, 9855000, false), VaultCertificate(100, 13797000, false)];
            WellFormed(certs, 7884000) && Revocable(certs, 7884000, 7884000)
            && Revoked(certs, 7884000, 7884000) == [VaultCertificate(75, 9855000, true), VaultCertificate(25, 13797000, true)]
            && Refund(certs, 7884000, 7884000) == 100
  {
    var certs := [VaultCertificate(100, 9855000, false), VaultCertificate(100, 13797000, false)];
    assert RevokedAmount(100, 7884000, 5913000) == 75;
    assert RevokedAmount(100, 7884000, 1971000) == 25;
    assert certs[..1] == [certs[0]];
    assert [certs[0]][..0] == [];
  }

  /** The two truncations differ from the one-step pro-rata rounding (10000 after 300 of 400 blocks). */
  lemma TwoStepDiffersFromOneStep()
    ensures RevokedAmount(10000, 400, 300) == 7518
    ensures 10000 * 300 / 400 == 7500
  {
  }

  /**
   * The loop of `RedeemCertificates`: walks the holder's list once, appending each
   * still-locked certificate to a new list and adding each matured one to the
   * payout, with one redemption record per matured certificate.
   */
  method SweepMatured(holder: Address, certs: seq<VaultCertificate>, block: nat)
    returns (lockedCertificates: seq<VaultCertificate>, amountToTransfer: nat, logs: seq<VaultLog>)
    ensures lockedCertificates == Unmatured(certs, block)
    ensures amountToTransfer == MaturedTotal(certs, block)
    ensures logs == RedeemLogs(holder, certs, block)
  {
    lockedCertificates := [];
    amountToTransfer := 0;
    logs := [];
    for i := 0 to |certs|
      invariant lockedCertificates == Unmatured(certs[..i], block)
      invariant amountToTransfer == MaturedTotal(certs[..i], block)
      invariant logs == RedeemLogs(holder, certs[..i], block)
    {
      var certificate := certs[i];
      assert certs[..i + 1][..i] == certs[..i];
      if certificate.vestedBlock > block {
        lockedCertificates := InsertCertificate(lockedCertificates, certificate.amount, certificate.vestedBlock, certificate.revoked);
        continue;
      }
      amountToTransfer := amountToTransfer + certificate.amount;
      logs := logs + [RedeemVaultCertificateLog(holder, certificate.amount, certificate.vestedBlock)];
    }
    assert certs[..|certs|] == certs;
  }

  /**
   * The loop of `RevokeCertificates`: copies the wallet's list into an array and
   * rewrites each eligible entry in place, adding each cut to the refund, with one
   * revocation record per rewritten entry. `fault` is the division by zero that
   * aborts the call.
   */
  method RevokeList(wallet: Address, certs: seq<VaultCertificate>, vestingDuration: nat, block: nat)
    returns (fault: bool, revoked: seq<VaultCertificate>, refund: nat, logs: seq<VaultLog>)
    requires WellFormed(certs, vestingDuration)
    ensures fault <==> !Revocable(certs, vestingDuration, block)
    ensures !fault ==> revoked == Revoked(certs, vestingDuration, block)
    ensures !fault ==> refund == Refund(certs, vestingDuration, block)
    ensures !fault ==> logs == RevokeLogs(wallet, certs, vestingDuration, block)
  {
    var certificates := new VaultCertificate[|certs|](i requires 0 <= i < |certs| => certs[i]);
    refund := 0;
    logs := [];
    for i := 0 to certificates.Length
      invariant certificates.Length == |certs|
      invariant WellFormed(certs[..i], vestingDuration)
      invariant Revocable(certs[..i], vestingDuration, block)
      invariant certificates[..i] == Revoked(certs[..i], vestingDuration, block)
      invariant forall j | i <= j < |certs| :: certificates[j] == certs[j]
      invariant refund == Refund(certs[..i], vestingDuration, block)
      invariant logs == RevokeLogs(wallet, certs[..i], vestingDuration, block)
    {
      var vestingAmount := certificates[i].amount;
      var vestedBlock := certificates[i].vestedBlock;
      var isRevoked := certificates[i].revoked;
      if !(isRevoked || vestedBlock <= block) && block <= vestedBlock - vestingDuration {
        assert Faults(certs[i], vestingDuration, block);
        return true, [], 0, [];
      }
      RevokeStep(wallet, certs, vestingDuration, block, i);
      if isRevoked || vestedBlock <= block {
        assert certificates[..i + 1] == certificates[..i] + [certs[i]];
        continue;
      }
      var vestingBlock := vestedBlock - vestingDuration;
      var vestedBlocks := block - vestingBlock;
      var newAmount := RevokedAmount(vestingAmount, vestingDuration, vestedBlocks);
      certificates[i] := certificates[i].(amount := newAmount, revoked := true);
      assert certificates[..i + 1] == certificates[..i] + [RevokeOne(certs[i], vestingDuration, block)];
      refund := refund + (vestingAmount - newAmount);
      logs := logs + [RevokeVaultCertificateLog(wallet, vestingAmount, newAmount, vestedBlock)];
    }
    assert certs[..|certs|] == certs;
    fault := false;
    revoked := certificates[..];
  }

  /** One more certificate revoked: how the specification functions grow by one entry. */
  lemma RevokeStep(wallet: Address, certs: seq<VaultCertificate>, vestingDuration: nat, block: nat, i: nat)
    requires i < |certs| && WellFormed(certs, vestingDuration) && WellFormed(certs[..i], vestingDuration)
    requires Revocable(certs[..i], vestingDuration, block) && !Faults(certs[i], vestingDuration, block)
    ensures WellFormed(certs[..i + 1], vestingDuration)
    ensures Revocable(certs[..i + 1], vestingDuration, block)
    ensures Revoked(certs[..i + 1], vestingDuration, block)
            == Revoked(certs[..i], vestingDuration, block) + [RevokeOne(certs[i], vestingDuration, block)]
    ensures Refund(certs[..i + 1], vestingDuration, block)
            == Refund(certs[..i], vestingDuration, block) + (certs[i].amount - RevokeOne(certs[i], vestingDuration, block).amount)
    ensures RevokeLogs(wallet, certs[..i + 1], vestingDuration, block)
            == RevokeLogs(wallet, certs[..i], vestingDuration, block)
               + (if Eligible(certs[i], block)
                  then [RevokeVaultCertificateLog(wallet, certs[i].amount, RevokeOne(certs[i], vestingDuration, block).amount, certs[i].vestedBlock)]
                  else [])
  {
    assert certs[..i + 1][..i] == certs[..i];
    assert certs[..i + 1] == certs[..i] + [certs[i]];
  }

  // ----- Pool accounting across holders ----------------------------------------

  /** The list stored for `holder`, or none. */
  function CertificatesOf(certificates: map<Address, seq<VaultCertificate>>, holder: Address): seq<VaultCertificate>
  {
    if holder in certificates then certificates[holder] else []
  }

  /** Each holder's earmarked total. */
  ghost function Totals(certificates: map<Address, seq<VaultCertificate>>): map<Address, nat>
  {
    map h | h in certificates :: Total(certificates[h])
  }

  /** Replacing one holder's list changes the earmarked sum by the difference of the two totals. */
  lemma TotalsUpdate(certificates: map<Address, seq<VaultCertificate>>, holder: Address, certs: seq<VaultCertificate>)
    ensures MapSum(Totals(certificates[holder := certs])) + Total(CertificatesOf(certificates, holder))
            == MapSum(Totals(certificates)) + Total(certs)
  {
    assert Totals(certificates[holder := certs]) == Totals(certificates)[holder := Total(certs)];
    assert Get(Totals(certificates), holder) == Total(CertificatesOf(certificates, holder));
    MapSumUpdate(Totals(certificates), holder, Total(certs));
  }

  /**
   * The vault's accounting invariant over its stored state: every holder has at
   * most ten well-formed certificates, and every deposited token is either in the
   * pool, earmarked by a certificate, or paid out.
   */
  ghost predicate Accounted(certificates: map<Address, seq<VaultCertificate>>, pool: nat, redeemed: nat,
                            deposited: nat, vestingDuration: nat)
  {
    && (forall h | h in certificates ::
          |certificates[h]| <= MaximumCertificates && WellFormed(certificates[h], vestingDuration))
    && pool + MapSum(Totals(certificates)) + redeemed == deposited
  }

  /** Replacing one holder's list keeps the invariant when the other counters absorb the change of total. */
  lemma ReplaceList(certificates: map<Address, seq<VaultCertificate>>, holder: Address, certs: seq<VaultCertificate>,
                    pool: nat, pool': nat, redeemed: nat, redeemed': nat, deposited: nat, vestingDuration: nat)
    requires Accounted(certificates, pool, redeemed, deposited, vestingDuration)
    requires |certs| <= MaximumCertificates && WellFormed(certs, vestingDuration)
    requires pool' + Total(certs) + redeemed' == pool + Total(CertificatesOf(certificates, holder)) + redeemed
    ensures Accounted(certificates[holder := certs], pool', redeemed', deposited, vestingDuration)
  {
    TotalsUpdate(certificates, holder, certs);
  }

  class OpdexVault {
    /** The token contract, the only caller allowed to announce deposits. */
    const token: Address
    /** The lock length of every certificate, in blocks. */
    const vestingDuration: nat

    var owner: Address
    /** The block of the first deposit; 0 until then. */
    var genesis: nat
    /** The allocatable pool: deposited tokens not earmarked by any certificate. */
    var totalSupply: nat
    var certificates: map<Address, seq<VaultCertificate>>
    /** The records emitted so far, oldest first. */
    var log: seq<VaultLog>

    /** Everything ever deposited, and everything ever paid out by redemptions. */
    ghost var deposited: nat
    ghost var redeemed: nat

    /** The accounting invariant holds of the vault's state. */
    ghost predicate Valid()
      reads this
    {
      Accounted(certificates, totalSupply, redeemed, deposited, vestingDuration)
    }

    constructor (token: Address, owner: Address, vestingDuration: nat)
      ensures Valid()
      ensures this.token == token && this.owner == owner && this.vestingDuration == vestingDuration
      ensures genesis == 0 && totalSupply == 0 && certificates == map[] && log == []
      ensures deposited == 0 && redeemed == 0
    {
      this.token := token;
      this.owner := owner;
      this.vestingDuration := vestingDuration;
      genesis := 0;
      totalSupply := 0;
      certificates := map[];
      log := [];
      deposited := 0;
      redeemed := 0;
    }

    function GetCertificates(wallet: Address): seq<VaultCertificate>
      reads this
    {
      CertificatesOf(certificates, wallet)
    }

    /** A holder's list is well formed and within the limit. */
    lemma ValidList(wallet: Address)
      requires Valid()
      ensures |GetCertificates(wallet)| <= MaximumCertificates
      ensures WellFormed(GetCertificates(wallet), vestingDuration)
    {
    }

    /**
     * Stores `certs` as `holder`'s list (the source's `SetCertificates`), sets the
     * pool to `pool`, counts `paidOut` as redeemed and emits `entries`, for a
     * change that keeps every token accounted for.
     */
    method Commit(holder: Address, certs: seq<VaultCertificate>, pool: nat, paidOut: nat, entries: seq<VaultLog>)
      requires Valid()
      requires |certs| <= MaximumCertificates && WellFormed(certs, vestingDuration)
      requires pool + Total(certs) + paidOut == totalSupply + Total(GetCertificates(holder))
      modifies this
      ensures Valid()
      ensures certificates == old(certificates)[holder := certs]
      ensures totalSupply == pool && redeemed == old(redeemed) + paidOut && log == old(log) + entries
      ensures owner == old(owner) && genesis == old(genesis) && deposited == old(deposited)
    {
      ReplaceList(certificates, holder, certs, totalSupply, pool, redeemed, redeemed + paidOut, deposited, vestingDuration);
      certificates := certificates[holder := certs];
      totalSupply := pool;
      redeemed := redeemed + paidOut;
      log := log + entries;
    }

    /**
     * The token announces a deposit of `amount`: the pool grows by it, and the
     * first deposit (at a non-zero block) fixes the genesis block for good.
     */
    method NotifyDistribution(sender: Address, block: nat, amount: nat) returns (r: Outcome<Error>)
      requires Valid()
      modifies this
      ensures Valid()
      ensures r.Pass? <==> sender == token
      ensures r.Fail? ==> r.error == Unauthorized && unchanged(this)
      ensures r.Pass? ==> totalSupply == old(totalSupply) + amount && deposited == old(deposited) + amount
      ensures r.Pass? ==> genesis == if old(genesis) == 0 then block else old(genesis)
      ensures r.Pass? ==> certificates == old(certificates) && owner == old(owner)
      ensures r.Pass? ==> log == old(log) && redeemed == old(redeemed)
    {
      if sender != token {
        return Fail(Unauthorized);
      }
      totalSupply := totalSupply + amount;
      deposited := deposited + amount;
      if genesis == 0 {
        genesis := block;
      }
      r := Pass;
    }

    /**
     * The owner earmarks `amount` of the pool for `to`, vesting one vesting
     * duration from now. The checks, in this order: the sender is the owner, the
     * holder is not, the amount is positive and within the pool, the allocation
     * window (genesis plus one vesting duration) is still open, and the holder has
     * fewer than ten certificates.
     */
    method CreateCertificate(sender: Address, block: nat, to: Address, amount: nat) returns (r: Outcome<Error>)
      requires Valid()
      modifies this
      ensures Valid()
      ensures sender != old(owner) ==> r == Fail(Unauthorized)
      ensures sender == old(owner) && to == old(owner) ==> r == Fail(InvalidCertificateHolder)
      ensures sender == old(owner) && to != old(owner) && !(0 < amount <= old(totalSupply)) ==> r == Fail(InvalidAmount)
      ensures (&& sender == old(owner) && to != old(owner) && 0 < amount <= old(totalSupply)
               && block >= old(genesis) + vestingDuration)
              ==> r == Fail(TokensBurned)
      ensures (&& sender == old(owner) && to != old(owner) && 0 < amount <= old(totalSupply)
               && block < old(genesis) + vestingDuration && |old(GetCertificates(to))| >= MaximumCertificates)
              ==> r == Fail(CertificateLimitReached)
      ensures r.Pass? <==>
                && sender == old(owner) && to != old(owner) && 0 < amount <= old(totalSupply)
                && block < old(genesis) + vestingDuration && |old(GetCertificates(to))| < MaximumCertificates
      ensures r.Fail? ==> unchanged(this)
      ensures r.Pass? ==>
                && certificates == old(certificates)[to := old(GetCertificates(to)) + [VaultCertificate(amount, block + vestingDuration, false)]]
                && totalSupply == old(totalSupply) - amount
                && totalSupply + Total(GetCertificates(to)) == old(totalSupply) + Total(old(GetCertificates(to)))
                && log == old(log) + [CreateVaultCertificateLog(to, amount, block + vestingDuration)]
                && owner == old(owner) && genesis == old(genesis)
                && deposited == old(deposited) && redeemed == old(redeemed)
    {
      if sender != owner {
        return Fail(Unauthorized);
      }
      if to == owner {
        return Fail(InvalidCertificateHolder);
      }
      if !(amount > 0 && amount <= totalSupply) {
        return Fail(InvalidAmount);
      }
      if !(block < genesis + vestingDuration) {
        return Fail(TokensBurned);
      }
      var certs := GetCertificates(to);
      if |certs| >= MaximumCertificates {
        return Fail(CertificateLimitReached);
      }
      var vestedBlock := block + vestingDuration;
      var updated := InsertCertificate(certs, amount, vestedBlock, false);
      assert updated == certs + [VaultCertificate(amount, vestedBlock, false)];
      Commit(to, updated, totalSupply - amount, 0, [CreateVaultCertificateLog(to, amount, vestedBlock)]);
      r := Pass;
    }

    /**
     * The sender redeems its matured certificates: the list keeps exactly the
     * certificates still locked at `block`, in order, and the sum of the others
     * is transferred to the sender by one `TransferTo` call on the token (none
     * when the sum is 0), whose reported result is `transfer`. The result `call`
     * is that outbound call, when it is made.
     */
    method RedeemCertificates(sender: Address, block: nat, transfer: CallResult)
      returns (r: Outcome<Error>, call: Option<TransferCall>)
      requires Valid()
      modifies this
      ensures Valid()
      ensures var payout := MaturedTotal(old(GetCertificates(sender)), block);
              call == if payout == 0 then None else Some(TransferCall(token, sender, payout))
      ensures r.Fail? <==> call.Some? && !(transfer.success && transfer.returnValue)
      ensures r.Fail? ==> r.error == InvalidTransferTo && unchanged(this)
      ensures r.Pass? ==>
                var certs := old(GetCertificates(sender));
                && certificates == old(certificates)[sender := Unmatured(certs, block)]
                && redeemed == old(redeemed) + MaturedTotal(certs, block)
                && log == old(log) + RedeemLogs(sender, certs, block)
                && totalSupply == old(totalSupply) && owner == old(owner) && genesis == old(genesis)
                && deposited == old(deposited)
    {
      var certs := GetCertificates(sender);
      var lockedCertificates, amountToTransfer, logs := SweepMatured(sender, certs, block);
      call := if amountToTransfer == 0 then None else Some(TransferCall(token, sender, amountToTransfer));
      r := SafeTransferTo(amountToTransfer, transfer);
      if r.Fail? {
        return;
      }
      ValidList(sender);
      RedeemSplitsTotal(certs, block);
      UnmaturedWellFormed(certs, block, vestingDuration);
      Commit(sender, lockedCertificates, totalSupply, amountToTransfer, logs);
    }

    /**
     * The owner revokes the unvested part of `wallet`'s certificates: every
     * certificate neither revoked nor matured at `block` keeps the share of its
     * amount given by the two-step formula, is marked revoked, and the cut goes
     * back to the pool. A certificate revoked on its creation block makes the
     * division fault and the whole call abort.
     */
    method RevokeCertificates(sender: Address, block: nat, wallet: Address) returns (r: Outcome<Error>)
      requires Valid()
      modifies this
      ensures Valid()
      ensures sender != old(owner) ==> r == Fail(Unauthorized)
      ensures sender == old(owner) ==>
                (r.Pass? <==> WellFormed(old(GetCertificates(wallet)), vestingDuration)
                              && Revocable(old(GetCertificates(wallet)), vestingDuration, block))
      ensures sender == old(owner) && r.Fail? ==> r.error == DivideByZero
      ensures r.Fail? ==> unchanged(this)
      ensures r.Pass? ==>
                var certs := old(GetCertificates(wallet));
                && WellFormed(certs, vestingDuration) && Revocable(certs, vestingDuration, block)
                && certificates == old(certificates)[wallet := Revoked(certs, vestingDuration, block)]
                && totalSupply == old(totalSupply) + Refund(certs, vestingDuration, block)
                && log == old(log) + RevokeLogs(wallet, certs, vestingDuration, block)
                && owner == old(owner) && genesis == old(genesis)
                && deposited == old(deposited) && redeemed == old(redeemed)
    {
      if sender != owner {
        return Fail(Unauthorized);
      }
      var certs := GetCertificates(wallet);
      ValidList(wallet);
      var fault, revokedList, refund, logs := RevokeList(wallet, certs, vestingDuration, block);
      if fault {
        return Fail(DivideByZero);
      }
      RevokeConserves(certs, vestingDuration, block);
      RevokedWellFormed(certs, vestingDuration, block);
      Commit(wallet, revokedList, totalSupply + refund, 0, logs);
      r := Pass;
    }

    /** Hands ownership to `newOwner`; only the current owner may. */
    method SetOwner(sender: Address, newOwner: Address) returns (r: Outcome<Error>)
      requires Valid()
      modifies this
      ensures Valid()
      ensures r.Pass? <==> sender == old(owner)
      ensures r.Fail? ==> r.error == Unauthorized && unchanged(this)
      ensures r.Pass? ==> owner == newOwner && log == old(log) + [ChangeVaultOwnerLog(sender, newOwner)]
      ensures r.Pass? ==> certificates == old(certificates) && totalSupply == old(totalSupply) && genesis == old(genesis)
      ensures r.Pass? ==> deposited == old(deposited) && redeemed == old(redeemed)
    {
      if sender != owner {
        return Fail(Unauthorized);
      }
      owner := newOwner;
      log := log + [ChangeVaultOwnerLog(sender, newOwner)];
      r := Pass;
    }
  }
}
