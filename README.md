# solanapdas: the bank-account program, modelled in Dafny

`solanapdas` is an Anchor program on Solana. It keeps one "bank" record per
user: a `Bank { name, balance, owner }` stored at the program-derived address
for the seeds `("bankaccount", user key)`. It has three instructions:

- `create(name)` allocates the record at that address, paid for by the user
  (the `init` constraint). It then writes `name`, `balance = 0` and
  `owner = user`.
- `deposit(amount)` makes a System-program transfer of `amount` lamports from
  the signer to the bank account, then adds `amount` to `balance`.
- `withdraw(amount)` checks that the signer is `owner`, then checks the bank
  account's lamports above the rent-exempt minimum against `amount`. It moves
  the lamports to the signer directly and subtracts `amount` from `balance`.

The model has four modules:

- `Accounts` ([accounts.dfy](accounts.dfy)) holds the Solana vocabulary:
  `U64`, public keys, addresses and the program-derived-address function, the
  `Bank` record, and the errors an instruction can end with.
- `Instructions` ([instructions.dfy](instructions.dfy)) holds each instruction
  as a pure function from the accounts before to an `Outcome` (the `Result`
  and the accounts after). It also holds the custody invariant `Inv`:
  - each record sits at the address derived from its owner's key;
  - `lamports(bank) == rent + balance`;
  - a derived address with no record holds no lamports.
- `Properties` ([properties.dfy](properties.dfy)) holds the lemmas: effects
  and error cases of each instruction, preservation of `Inv`, and facts about
  whole runs of transactions.
- `Solanapdas` ([program.dfy](program.dfy)) holds the class `Ledger`. Its
  fields are the lamport map and the address-to-record map. Its methods follow
  the Rust code step by step, with early `return Err`. Each method works on
  copies of the accounts and writes them back only on `Ok`, as the runtime
  does. Its `ensures` say that it computes exactly the matching
  `Instructions` function and that it keeps `Inv`.

Modelling choices:

- `rent` is a constant: every record has `space = 5000`, so
  `Rent::minimum_balance` always gives the same value.
- An address is either `Wallet(key)`, a key someone can sign for, or
  `Derived(seed, key)`, a program-derived address. Derivation is injective,
  and no derived address is ever a wallet. This stands for the
  off-curve search.
- Arithmetic is u64. The program's own `+=`, `-=` and `-` are
  overflow-checked: an overflow panics (`Panic`) and aborts the instruction.
  This is Anchor's default workspace profile (`overflow-checks = true`). The
  System-program transfer fails with `ResultWithNegativeLamports` when the
  sender is short, and with `ArithmeticOverflow` when the receiver would pass
  u64.
- `rent` is positive, as the rent-exempt minimum of a 5000-byte account
  always is; so every record holds lamports and is never purged.
- In `create`, the `init` constraint first checks the seeds
  (`ConstraintSeeds`). Then it follows Anchor's two paths:
  - at an address with no lamports, `create_account` refuses an occupied
    address (`AccountAlreadyInUse`), then takes `rent` from the payer
    (`ResultWithNegativeLamports` if the payer is short);
  - at an address that already holds lamports, the payer first tops it up to
    `rent` (`ResultWithNegativeLamports` if short), then `allocate` refuses an
    occupied address (`AccountAlreadyInUse`).

  The body then sees a zero-filled record.
- An `Account<'info, Bank>` argument with no record behind it fails with
  `AccountNotInitialized` when the address holds no lamports, and with
  `AccountOwnedByWrongProgram` when it does (a wallet, or a derived address
  that someone funded).

What is proved:

- `Inv` holds initially and is preserved by `create`, `deposit` and
  `withdraw`, and so by every run of transactions.
- Under `Inv`, withdraw's lamport check at `lib.rs:53` is the same as
  `balance >= amount`. So `bank.balance -= amount` at `lib.rs:62` never
  underflows, and `bank.balance += amount` at `lib.rs:36` never overflows.
- Without `Inv` the check is not enough. `SurplusLamportsReachUnderflow`
  builds a record holding lamports beyond `rent + balance`. There the
  owner's withdrawal gets past the check and then underflows `balance`.

Some behaviour of the code is worth stating because a reader might expect otherwise:

- `deposit` checks neither `amount > 0` nor the signer. An amount of 0, and a
  deposit by anyone, both succeed.
- `withdraw` checks lamports, not `balance`. The two checks agree only because
  of `Inv`.
- The body's check `bank.name.len() > 0` (`lib.rs:11-12`) can never fire,
  because `init` rejects an occupied address first. So a second `create` fails
  with the System program's "already in use" error, not with
  `AccountAlreadyInitialized`.
- The fee a client sees on a withdrawal is the cluster's transaction fee,
  not program logic.

## Model

| member | source | states |
|---|---|---|
| `Properties.BankAddressInjective` | programs/solanapdas/src/lib.rs:72 | Two users share a bank address only if they are the same user. |
| `Properties.BankAddressNotAWallet` | programs/solanapdas/src/lib.rs:72 | A bank address is never a signable wallet key. |
| `Instructions.Create` | programs/solanapdas/src/lib.rs:9-18 | `create` is all or nothing: on `Err` the accounts are unchanged; on `Ok` exactly one record is added, at `bank`. |
| `Instructions.Deposit` | programs/solanapdas/src/lib.rs:21-38 | `deposit` is all or nothing. It never adds or removes a record. On `Ok` a record was at `bank`, and only that record's `balance` changed. |
| `Instructions.Withdraw` | programs/solanapdas/src/lib.rs:41-65 | `withdraw` is all or nothing. It never adds or removes a record. On `Ok` a record was at `bank`, and only that record's `balance` changed. |
| `Instructions.Execute` | programs/solanapdas/src/lib.rs:5-68 | Every instruction of the program leaves the accounts unchanged when it returns `Err`. |
| `Properties.CreateSucceedsIff` | programs/solanapdas/src/lib.rs:70-77 | `create` succeeds exactly when `bank` is the user's derived address, no record is there yet, and the payer can cover the rent top-up. |
| `Properties.CreateEffect` | programs/solanapdas/src/lib.rs:14-16 | A successful `create` stores `{name, 0, user}` at `BankAddress(user)`. It moves exactly the rent top-up from the payer to the bank, leaves the bank with at least `rent`, and changes no other account. |
| `Properties.CreateOnExistingRecordFails` | programs/solanapdas/src/lib.rs:72 | `create` on an occupied address always fails and changes nothing. The error is `ConstraintSeeds` away from the user's own address; there it is `AccountAlreadyInUse`, unless the record holds less than `rent` and the payer cannot top it up, which gives `ResultWithNegativeLamports`. Under `Inv` it is always `AccountAlreadyInUse` or `ConstraintSeeds`. |
| `Properties.CreateNameCheckUnreachable` | programs/solanapdas/src/lib.rs:11-12 | `create` never returns `AccountAlreadyInitialized`, because the body only ever sees a zeroed record. |
| `Properties.CreateAddressIgnoresName` | programs/solanapdas/src/lib.rs:72 | The outcome, the lamports written and the address written do not depend on `name`. |
| `Properties.CreateTwiceFails` | programs/solanapdas/src/lib.rs:72 | After a user's successful `create`, every further `create` by that user fails with no change: with `AccountAlreadyInUse` at the user's bank address and `ConstraintSeeds` anywhere else. The first record stays `{n1, 0, user}`. |
| `Properties.OneBankPerUser` | programs/solanapdas/src/lib.rs:72 | Under `Inv`, two records with the same owner are the same record. |
| `Properties.DepositEffect` | programs/solanapdas/src/lib.rs:22-36 | A successful deposit takes exactly `amount` from the user, adds it to the bank's lamports and to `balance`, keeps `name`, `owner` and the pair's lamport total, and changes no other account. |
| `Properties.DepositFailsWhenShort` | programs/solanapdas/src/lib.rs:27-33 | A deposit with no record at `bank` fails with Anchor's account error; one by a user holding fewer than `amount` lamports fails with `ResultWithNegativeLamports`. Neither changes anything. |
| `Properties.MissingRecordFails` | programs/solanapdas/src/lib.rs:88-98 | A `deposit` or `withdraw` at an address with no record fails with no change, for every signer and amount: with `AccountNotInitialized` when the address holds no lamports, and `AccountOwnedByWrongProgram` when it holds some. |
| `Properties.DepositSucceedsIff` | programs/solanapdas/src/lib.rs:86-93 | Under `Inv`, a deposit succeeds exactly when a record exists, the user can pay, and the bank's lamports stay within u64. Any signer and any amount, 0 included, are accepted, and the overflow check on `balance` never fires. |
| `Properties.WithdrawByNonOwnerFails` | programs/solanapdas/src/lib.rs:46-48 | A withdrawal by anyone other than `owner` fails with `IncorrectProgramId` and changes nothing, whatever the amount. |
| `Properties.WithdrawFailsWhenShort` | programs/solanapdas/src/lib.rs:51-55 | The owner's withdrawal of more than the lamports above rent fails with `InsufficientFunds` and changes nothing. |
| `Properties.WithdrawBeyondBalanceFails` | programs/solanapdas/src/lib.rs:51-55 | Under `Inv`, the owner's withdrawal of more than `balance` fails with `InsufficientFunds` and changes nothing. |
| `Properties.WithdrawEffect` | programs/solanapdas/src/lib.rs:57-62 | A successful withdrawal was by the owner for at most `balance`. It moves exactly `amount` from the bank to the user and takes it off `balance`. The bank keeps at least `rent`, and no other account or field changes. |
| `Properties.WithdrawGuardIsBalanceCheck` | programs/solanapdas/src/lib.rs:51-53 | Under `Inv`, `lamports(bank) >= rent`, and `lamports(bank) - rent < amount` holds exactly when `balance < amount`. |
| `Properties.WithdrawSucceedsIff` | programs/solanapdas/src/lib.rs:41-65 | Under `Inv`, a withdrawal succeeds exactly when the signer is the owner, `amount <= balance`, and the user's lamports stay within u64. The only `Panic` left is the user-side overflow, so `balance -= amount` never underflows. |
| `Properties.SurplusLamportsReachUnderflow` | programs/solanapdas/src/lib.rs:53-62 | Take a record whose lamports exceed `rent + balance`. The owner's withdrawal of 50 from a balance of 0 passes the lamport check and then fails on the underflow of `balance`. |
| `Properties.RecordsHoldLamports` | programs/solanapdas/src/lib.rs:72 | Under `Inv`, every record holds at least `rent`, which is positive, so no record is ever left with 0 lamports. |
| `Properties.InitialInv` | programs/solanapdas/src/lib.rs:70-77 | With a positive `rent`, a cluster with no records, where only wallets hold lamports, satisfies `Inv`. |
| `Properties.CreatePreservesInv` | programs/solanapdas/src/lib.rs:9-18 | `create` keeps `Inv`. The new record sits at its owner's address and holds exactly `rent + 0` lamports. |
| `Properties.DepositPreservesInv` | programs/solanapdas/src/lib.rs:21-38 | `deposit` keeps `Inv`: lamports and `balance` rise together. |
| `Properties.WithdrawPreservesInv` | programs/solanapdas/src/lib.rs:41-65 | `withdraw` keeps `Inv`: lamports and `balance` fall together. |
| `Properties.ExecutePreservesInv` | programs/solanapdas/src/lib.rs:5-68 | Every instruction keeps `Inv`. |
| `Properties.RunPreservesInv` | programs/solanapdas/src/lib.rs:5-68 | `Inv` holds after any sequence of transactions, each applied atomically. |
| `Properties.ExecuteKeepsRecords` | programs/solanapdas/src/lib.rs:79-84 | No instruction removes a record or changes its `name` or `owner`. |
| `Properties.RunKeepsRecords` | programs/solanapdas/src/lib.rs:79-84 | Over any run of transactions, records persist with the same `name` and `owner`. |
| `Properties.DepositsAddUp` | programs/solanapdas/src/lib.rs:36 | A run of deposits that the user can pay for adds their sum to `balance` and to the bank's lamports, takes it from the user, and keeps `Inv`. |
| `Properties.CreateDepositWithdrawScenario` | tests/solanapdas.ts:32-143 | The tests' walk through one account: `create("MyBank")` gives `{MyBank, 0, u}`; depositing 1000 gives a balance of 1000; the owner withdrawing 500 gives 500, with the user down by `rent + 500`. A fourth step, not in the tests, follows lib.rs:46-48: a withdrawal by someone else then fails with `IncorrectProgramId` and changes nothing. |
| `Solanapdas.Ledger.constructor` | programs/solanapdas/src/lib.rs:70-77 | The starting ledger, for a positive `rent`, has no records and only wallets hold lamports. It satisfies `Inv`. |
| `Solanapdas.Ledger.Create` | programs/solanapdas/src/lib.rs:9-18 | The imperative `create` computes exactly `Instructions.Create` on the old accounts and keeps `Inv`. |
| `Solanapdas.Ledger.Deposit` | programs/solanapdas/src/lib.rs:21-38 | The imperative `deposit` computes exactly `Instructions.Deposit` on the old accounts and keeps `Inv`. |
| `Solanapdas.Ledger.Withdraw` | programs/solanapdas/src/lib.rs:41-65 | The imperative `withdraw` computes exactly `Instructions.Withdraw` on the old accounts and keeps `Inv`. |

## Left out

- The test harness (`tests/solanapdas.ts`) is not part of this model: RPC calls, confirmation, logging and the fee-tolerance check. Its scenario is restated as `CreateDepositWithdrawScenario`.
- The hashing and bump search of `find_program_address` are abstracted to an injective `Derived(seed, key)`. Failure to find a bump cannot happen in the model.
- The account discriminator, Borsh (de)serialisation and the `space = 5000` layout are not modelled. So the failure to serialise a name too long for 5000 bytes is not modelled either.
- `Rent::get()` and how it computes the minimum are not modelled, and neither is its failure. `rent` is a constant.
- Lamports sent to a bank address by plain System transfers from outside the program are not an operation of the model. `Inv` assumes there are none; `SurplusLamportsReachUnderflow` shows what such lamports would allow.
- The runtime's checks after an instruction, such as a user wallet falling below its own rent-exempt minimum after paying for `create`, are not modelled.
- Anchor's `init` raises the rent minimum to at least 1 lamport; since `rent` is positive in every state satisfying `Inv`, the model leaves that out.
- The runtime's purge of an account left with 0 lamports is not modelled. `RecordsHoldLamports` shows it never applies to a record under `Inv`.
- A failure of `try_borrow_mut_lamports` is not modelled (the accounts are never borrowed twice).
- Consensus ordering, concurrency, signature verification and transaction fees are not modelled. A signer is just the `user` key given to each instruction.
- Properties.DepositEffect: assumes the record is not stored at the signer's own wallet address. `Inv` guarantees this in every state the program reaches.
- Properties.WithdrawEffect: assumes the record is not stored at the signer's own wallet address. `Inv` guarantees this in every state the program reaches.
