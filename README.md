# Opdex mined token and vesting vault, modelled in Dafny

This project models two accounting contracts of the Opdex governance suite.

- **OpdexMinedToken** is a token ledger with balances, allowances, `TransferTo`, `TransferFrom` and a compare-and-swap `Approve`.
  - Its supply is minted one period at a time by `Distribute`.
  - Each period credits the owner and the mining governance from two equal-length schedules.
  - Once the period index passes the end of the schedules, every period mints the last entry.
  - Period 0 may only be started by the owner. Each later period opens `PeriodDuration` blocks after the previous one.
- **OpdexVault** holds an allocatable pool of tokens, fed by `NotifyDistribution`.
  - The owner earmarks parts of the pool as vesting certificates, at most ten per holder (`CreateCertificate`).
  - A holder redeems its matured certificates and is paid their sum through the token's `TransferTo` (`RedeemCertificates`).
  - The owner may revoke the unvested part of a holder's certificates (`RevokeCertificates`). The two-step truncating pro-rata formula returns the cut to the pool.

Files:

- `Common.dfy`: addresses, bytes, the outcomes of a call, and map sums.
- `MinedToken.dfy`: the token as a class whose map fields the methods update.
- `Vault.dfy`: the vault as a class, the pure certificate-list functions that specify its loops, and the two loops as methods over a sequence and an array.

Modelling conventions:

- The calling address, the block height and the host's report on the one outbound call are parameters of each entry point. The outbound calls are the governance notification of `Distribute` and the token transfer of a redemption.
- A failed assertion in a contract aborts the whole call. In the model an aborted entry point leaves the object unchanged (`unchanged(this)`) and reports the abort as follows:
  - most entry points return `Fail(e)`;
  - `NominateLiquidityPool` returns `Err(InvalidSender)`;
  - `Deploy` returns `None` when the schedule check, which has no message, fails.
- The error `e` names the assertion's message, with two exceptions:
  - for the message-less owner check of the first distribution it names the checked condition (`FirstDistributionNotByOwner`);
  - `DivideByZero` stands for the host's division fault in a revocation, not for a contract message.
- The token keeps the invariant that the balances sum to `TotalSupply`.
- The vault keeps the invariant that every deposited token is in exactly one of three places:
  - the pool;
  - a certificate;
  - paid out by a redemption.
  It also keeps every holder at no more than ten certificates, each maturing no earlier than one vesting duration.
- The source and its unit tests disagree in places; the model follows the source:
  - `Distribute` credits the owner directly and calls only the mining governance (src/Contracts/OpdexMinedToken.cs:169-173). The token tests expect a separate vault schedule and a vault notification.
  - The vault constructor takes the token, the owner and the vesting duration (src/Contracts/OpdexVault.cs:18), not the shorter argument list the test base uses.
  - The token symbol is `OPDX` (src/Contracts/OpdexMinedToken.cs:26).

## Model

| member | source | states |
|---|---|---|
| MinedToken.ScheduleIndex | src/Contracts/OpdexMinedToken.cs:159-166 | The slot minted is within the schedule, never past the period index, and is either the period index itself or the last slot |
| MinedToken.ScheduleTail | src/Contracts/OpdexMinedToken.cs:159-164 | A period mints the last slot exactly when its index is at or past the last slot; every earlier period mints its own slot |
| MinedToken.MinBlock | src/Contracts/OpdexMinedToken.cs:160 | The distribution gate of period 0 is the genesis block, and no gate lies before genesis |
| MinedToken.MinBlockStep | src/Contracts/OpdexMinedToken.cs:160 | Consecutive gates are exactly one period duration apart |
| MinedToken.MinBlockMonotonic | src/Contracts/OpdexMinedToken.cs:160-162 | A later period never opens before an earlier one |
| MinedToken.Move | src/Contracts/OpdexMinedToken.cs:214-215 | A debit followed by a read-back credit preserves the sum of all balances; it moves `amount` between two distinct accounts, leaves a self-transfer without effect, and touches no other account |
| Common.Credit | src/Contracts/OpdexMinedToken.cs:169-170 | A read-modify-write credit (`SetBalance(a, GetBalance(a) + v)`) raises the stored value of one key by `v`, an absent key reading as 0, and leaves every other key's value alone |
| MinedToken.SchedulesAccepted | src/Contracts/OpdexMinedToken.cs:23 | Defines the deployment check: the owner schedule has more than one entry and both schedules have the same length |
| MinedToken.CreditSum | src/Contracts/OpdexMinedToken.cs:169-170 | Crediting one balance raises the sum of balances by exactly the credited amount |
| MinedToken.OpdexMinedToken.constructor | src/Contracts/OpdexMinedToken.cs:17-36 | Deployment stores name Opdex, symbol OPDX, 8 decimals, the deployer as owner, the deployment block as genesis, the schedules, the period duration and the governance address, with zero supply and no balances |
| MinedToken.OpdexMinedToken.Deploy | src/Contracts/OpdexMinedToken.cs:17-36 | A token is created exactly when the owner schedule has more than one entry and both schedules have equal length; the created token holds everything the constructor stores (name, symbol, decimals, owner, genesis, schedules, period duration, governance address) with zero supply, no balances, no allowances and an empty log |
| MinedToken.OpdexMinedToken.Distribute | src/Contracts/OpdexMinedToken.cs:150-188 | Period 0 fails with FirstDistributionNotByOwner (the source's assertion here has no message) unless the owner calls it. A block before the period's gate fails with DistributionNotReady. The notification is sent exactly when both checks pass, with `data` on period 0 and empty data after, and a failed notification aborts with no change. On success the owner and the governance are credited the clamped slot's amounts, the supply rises by their sum, the index rises by one, the log records the old index, and the balances still sum to the supply |
| MinedToken.OpdexMinedToken.SetOwner | src/Contracts/OpdexMinedToken.cs:191-198 | Only the owner may hand over ownership; it changes nothing but the owner and the log |
| MinedToken.OpdexMinedToken.TransferTo | src/Contracts/OpdexMinedToken.cs:201-220 | Succeeds exactly when the amount is 0 or within the sender's balance. A zero amount changes no balance. A failure changes nothing and logs nothing. A success moves the amount from sender to recipient, leaves every other balance alone, preserves the sum of balances and logs the transfer |
| MinedToken.OpdexMinedToken.TransferFrom | src/Contracts/OpdexMinedToken.cs:223-244 | Succeeds exactly when the amount is 0 or within both the sender's allowance and `from`'s balance. A failure changes nothing. A non-zero success lowers the allowance by the amount and moves it from `from` to `to`, preserving the sum of balances |
| MinedToken.OpdexMinedToken.Approve | src/Contracts/OpdexMinedToken.cs:247-256 | Succeeds exactly when the stored allowance equals `currentAmount`. It then overwrites that allowance with `amount` and logs both values; otherwise nothing changes |
| MinedToken.OpdexMinedToken.NominateLiquidityPool | src/Contracts/OpdexMinedToken.cs:138-147 | A non-contract sender fails with InvalidSender. A contract with zero balance returns without a call. Otherwise the governance is asked to nominate the sender with its balance as weight |
| Vault.InsertCertificate | src/Contracts/OpdexVault.cs:174-183 | The list grows by one; the old entries keep their places, the new entry is last, and the list total rises by its amount |
| Vault.Unmatured | src/Contracts/OpdexVault.cs:114-120 | The entries kept by a redemption are no more than the input's, and every kept entry is still locked at the block |
| Vault.RedeemSplitsTotal | src/Contracts/OpdexVault.cs:114-126 | A list's total equals the total of its still-locked entries plus the payout of its matured ones, revoked entries included |
| Vault.UnmaturedKeepsExactly | src/Contracts/OpdexVault.cs:116-119 | A redemption keeps each locked certificate as many times as it occurs and drops every matured one |
| Vault.UnmaturedAppend | src/Contracts/OpdexVault.cs:114-120 | A redemption distributes over concatenation, so the kept entries keep their relative order |
| Vault.UnmaturedWellFormed | src/Contracts/OpdexVault.cs:114-127 | The list a redemption stores stays well formed |
| Vault.RedeemIdempotent | src/Contracts/OpdexVault.cs:108-129 | A second redemption at the same block keeps the list and pays nothing |
| Vault.MaturedTotal | src/Contracts/OpdexVault.cs:116-122 | Defines the payout of a redemption: the sum of the amounts of the entries with `VestedBlock <= block`, revoked ones included; it never exceeds the list's total |
| Vault.RedeemLogs | src/Contracts/OpdexVault.cs:116-124 | Defines the redemption records: one per matured entry, in list order, for the holder. Their number plus the number of kept entries is the list's length, and each names the holder and a maturation block at or before the current block |
| Vault.SafeTransferTo | src/Contracts/OpdexVault.cs:185-192 | A zero amount passes without a call. Any other amount passes exactly when the call succeeded and returned true; otherwise it fails with InvalidTransferTo |
| Vault.DivisorAtLeastHundred | src/Contracts/OpdexVault.cs:147-150 | When the elapsed blocks are positive and at most the vesting duration, the first division yields at least 100 |
| Vault.RevokedAmount | src/Contracts/OpdexVault.cs:147-151 | The revoked amount from the two truncating divisions never exceeds the original amount |
| Vault.ScaledQuotientAtMost | src/Contracts/OpdexVault.cs:151 | Scaling an amount by 100 and dividing by a divisor of at least 100 does not increase it |
| Vault.RevokedAmountIsTruncation | src/Contracts/OpdexVault.cs:150-151 | The revoked amount is the truncated quotient of the scaled amount by a divisor of at least 100, the largest whole number that fits |
| Vault.Eligible | src/Contracts/OpdexVault.cs:145 | Defines the entries a revocation acts on: not yet revoked and maturing after the current block (the complement of the `continue` test) |
| Vault.Faults | src/Contracts/OpdexVault.cs:147-150 | Defines the division fault: an eligible entry whose elapsed block count `block - (VestedBlock - V)` is zero or negative. At zero the first division divides by zero; the negative case, where the source's subtraction wraps, is described under "Left out" |
| Vault.RevokeOne | src/Contracts/OpdexVault.cs:141-154 | Revocation keeps the maturation block and never raises the amount. An eligible entry comes out revoked; an already revoked or matured one comes out unchanged |
| Vault.Revoked | src/Contracts/OpdexVault.cs:139-159 | A revoked list has the input's length, and each entry is the revocation of the entry in the same position |
| Vault.Refund | src/Contracts/OpdexVault.cs:156 | Defines what a revocation returns to the pool: the sum over eligible entries of old amount minus new amount; it never exceeds the list's total |
| Vault.RevokeLogs | src/Contracts/OpdexVault.cs:158 | Defines the revocation records: one per eligible entry, in list order. There are at most as many as entries, and each names the wallet, an old and a new amount with the new at most the old, and a maturation block after the current block |
| Vault.RevokeConserves | src/Contracts/OpdexVault.cs:153-156 | The revoked list's total plus the refund equals the original total, so the pool gains exactly the sum of the cuts |
| Vault.RevokedWellFormed | src/Contracts/OpdexVault.cs:139-161 | A revoked list is still well formed and revocable, and has no eligible entries left |
| Vault.RevokeIdempotent | src/Contracts/OpdexVault.cs:145 | A second revocation at the same block leaves the list, refunds nothing and logs nothing |
| Vault.NothingEligibleIsFixed | src/Contracts/OpdexVault.cs:145 | A list with no eligible entry cannot fault and is left as it is, with no refund and no records |
| Vault.NothingEligibleRefundsNothing | src/Contracts/OpdexVault.cs:145 | Skipped entries contribute no refund and no records |
| Vault.RevokeSingleVectors | test/OpdexVaultTests.cs:422-458 | With a four-year vesting duration, a certificate of 100 revoked after 1, 25, 50, 75 or 99 percent of it keeps 1, 25, 50, 75 or 99 |
| Vault.RevokeMultipleVector | test/OpdexVaultTests.cs:460-514 | Certificates of 100 maturing in years five and seven, revoked in year four, keep 75 and 25 and refund 100 to the pool |
| Vault.TwoStepDiffersFromOneStep | src/Contracts/OpdexVault.cs:150-151 | The two truncations keep 7518 of 10000 after 300 of 400 blocks, where a one-step pro-rata division gives 7500 |
| Vault.SweepMatured | src/Contracts/OpdexVault.cs:110-126 | The redemption loop produces exactly `Unmatured` (the still-locked list), `MaturedTotal` (the payout) and `RedeemLogs` (the records) |
| Vault.RevokeList | src/Contracts/OpdexVault.cs:136-159 | The in-place revocation loop faults exactly when some eligible entry has no elapsed block. Otherwise it returns exactly `Revoked` (the revoked list), `Refund` (the pool's gain) and `RevokeLogs` (the records) |
| Vault.RevokeStep | src/Contracts/OpdexVault.cs:139-159 | Revoking one more entry extends the revoked list, the refund and the records by that entry's contribution |
| Vault.TotalsUpdate | src/Contracts/OpdexVault.cs:66-69 | Storing a new list for one holder changes the sum over all holders by the difference of the two list totals |
| Vault.ReplaceList | src/Contracts/OpdexVault.cs:66-69 | Storing a list in bounds keeps every token accounted for, provided the pool and payout absorb the change of that holder's total |
| Vault.OpdexVault.constructor | src/Contracts/OpdexVault.cs:18-23 | A new vault stores the token, the owner and the vesting duration, and has an empty pool, no certificates and genesis 0 |
| Vault.OpdexVault.ValidList | src/Contracts/OpdexVault.cs:9 | In a consistent vault each holder's list has at most ten entries, each maturing no earlier than one vesting duration |
| Vault.OpdexVault.Commit | src/Contracts/OpdexVault.cs:66-69 | Storing a holder's list and the pool keeps the accounting invariant and changes nothing else |
| Vault.OpdexVault.NotifyDistribution | src/Contracts/OpdexVault.cs:72-79 | Only the token may call it, otherwise it fails with Unauthorized and nothing changes. The pool grows by the amount. Genesis is set to the block only while it is still 0 |
| Vault.OpdexVault.CreateCertificate | src/Contracts/OpdexVault.cs:82-105 | The checks fail in this order: Unauthorized, InvalidCertificateHolder, InvalidAmount unless 0 < amount <= pool, TokensBurned once the block reaches genesis plus the vesting duration, and CertificateLimitReached at ten certificates. It passes exactly when all hold, and a failure changes nothing. A success appends the certificate (amount, block + duration, not revoked) after the unchanged earlier entries, lowers the pool by the amount so that pool plus the holder's total is unchanged, and logs it |
| Vault.OpdexVault.RedeemCertificates | src/Contracts/OpdexVault.cs:108-129 | The transfer call carries exactly the matured total and is not made when that is 0. It aborts with InvalidTransferTo and restores everything exactly when a call is made and does not both succeed and return true. Otherwise the holder keeps exactly the still-locked list, the payout is counted as redeemed, the pool is untouched and every token stays accounted for |
| Vault.OpdexVault.RevokeCertificates | src/Contracts/OpdexVault.cs:132-162 | Only the owner may revoke. The call aborts with DivideByZero exactly when an eligible certificate has no elapsed block. Otherwise the holder's list becomes its revocation, the pool rises by exactly the refund, one record per revoked certificate is logged, and every token stays accounted for |
| Vault.OpdexVault.SetOwner | src/Contracts/OpdexVault.cs:165-172 | Only the owner may hand over ownership; it changes nothing but the owner and the log |

## Left out

- Deserialisation of the two schedules from bytes: the schedules are sequences of naturals.
- Creating the mining-governance contract at deployment: its address is a constructor parameter. The `periodDuration / 12` mining duration passed to it is not part of this model.
- The mining governance and the token as callees: each outbound call is represented only by its reported outcome, taken as input. Reentrancy is not modelled.
- The governance's handling of `NominateLiquidityPool` and that call's result: the token ignores the result, so the model returns only the call it would make.
- Host storage and its key strings: balances, allowances and certificate lists are maps held in fields. The token's name, symbol, decimals, genesis block, schedules and period duration, which are written once, are constants; so are the vault's token and vesting duration. The vault's genesis is a field, set by the first deposit.
- Fixed-width integers: UInt256, ulong and uint are modelled as unbounded naturals. Additions that could wrap in the source (supply, balances, `PeriodIndex++`, `PeriodDuration * PeriodIndex + Genesis`) do not wrap here.
- Vault.OpdexVault.CreateCertificate: `Genesis + VestingDuration` and `Block.Number + VestingDuration` are computed without 64-bit wrap-around, so the rare overflowing inputs the source would let through or reject differently behave as if unbounded.
- Vault.OpdexVault.RevokeCertificates: a revocation at or before an eligible certificate's creation block is modelled as the division-by-zero abort `DivideByZero`. At the creation block the source divides by zero. Before it, the source's unsigned subtraction wraps to a huge elapsed count, `2^64 - (creation block - block)`. The first division then yields 0, and the second divides by zero, unless `100 * VestingDuration` reaches that wrapped count (a vesting duration of about 2^64 / 100 or more), in which case the source computes a small positive divisor and does not abort.
- The `vestedBlock - vestingDuration` subtraction cannot underflow in the model, because the vault invariant keeps every maturation block at least one vesting duration.
- Events are modelled as an appended log of records; the unused `VaultCertificateCreatedLog` struct is not part of this model.
- The read-only getters (`GetBalance`, `Allowance`, `GetCertificates` and the properties) are plain functions over the fields with no contract of their own.
