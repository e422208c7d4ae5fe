/** What the three instructions guarantee: their effects and error cases one
    call at a time, the custody invariant `lamports(bank) == rent + balance`
    that makes `withdraw`'s lamport check a balance check, and what follows
    for whole runs of transactions. */
module Properties {
  import opened Accounts
  import opened Instructions

  // ---------------------------------------------------------------- addresses

  /** Distinct users have distinct bank addresses. */
  lemma BankAddressInjective(u: Pubkey, v: Pubkey)
    ensures BankAddress(u) == BankAddress(v) <==> u == v
  {
  }

  /** No bank address is a key anyone can sign for. */
  lemma BankAddressNotAWallet(u: Pubkey, k: Pubkey)
    ensures BankAddress(u) != Wallet(k)
  {
  }

  // ------------------------------------------------------------------- create

  lemma CreateSucceedsIff(s: State, rent: U64, bank: Address, user: Pubkey, name: string)
    ensures Create(s, rent, bank, user, name).result.Ok?
        <==> && bank == BankAddress(user)
             && bank !in s.banks
             && RentTopUp(rent, Lamports(s, bank)) <= Lamports(s, Wallet(user))
  {
  }

  /** A successful `create` stores `{name, balance: 0, owner: user}` at the
      user's bank address, moves the rent top-up from the payer to it, and
      touches nothing else. */
  lemma CreateEffect(s: State, rent: U64, bank: Address, user: Pubkey, name: string)
    requires Create(s, rent, bank, user, name).result.Ok?
    ensures var t := Create(s, rent, bank, user, name).post;
      var topUp := RentTopUp(rent, Lamports(s, bank));
      && bank == BankAddress(user)
      && t.banks == s.banks[bank := Bank(name, 0, user)]
      && Lamports(t, bank) == Lamports(s, bank) + topUp
      && Lamports(t, bank) >= rent
      && Lamports(t, Wallet(user)) == Lamports(s, Wallet(user)) - topUp
      && (forall a :: a != bank && a != Wallet(user) ==> Lamports(t, a) == Lamports(s, a))
  {
  }

  /** `create` on an address that already holds a record fails, whatever
      the name, and changes nothing: the `init` constraint rejects it
      before the body runs. Outside the invariant a record can hold less
      than `rent`; then `init` tries the top-up first, and a payer who
      cannot afford it gets that error instead. Under the invariant it is
      always the seeds check or "already in use". */
  lemma CreateOnExistingRecordFails(s: State, rent: U64, bank: Address, user: Pubkey, name: string)
    requires bank in s.banks
    ensures var o := Create(s, rent, bank, user, name);
      && o.post == s
      && o.result == Err(
           if bank != BankAddress(user) then ConstraintSeeds
           else if Lamports(s, bank) > 0 && Lamports(s, Wallet(user)) < RentTopUp(rent, Lamports(s, bank))
           then ResultWithNegativeLamports
           else AccountAlreadyInUse)
    ensures Inv(s, rent) ==>
      Create(s, rent, bank, user, name).result
        == Err(if bank == BankAddress(user) then AccountAlreadyInUse else ConstraintSeeds)
  {
    if Inv(s, rent) {
      assert Lamports(s, bank) == rent + s.banks[bank].balance;
    }
  }

  /** The body's own check of `bank.name` never fires: `init` only hands it a
      freshly zeroed record, whose name is empty. */
  lemma CreateNameCheckUnreachable(s: State, rent: U64, bank: Address, user: Pubkey, name: string)
    ensures Create(s, rent, bank, user, name).result != Err(AccountAlreadyInitialized)
  {
  }

  /** Where `create` writes, and whether it succeeds, does not depend on
      the name. */
  lemma CreateAddressIgnoresName(s: State, rent: U64, bank: Address, user: Pubkey, n1: string, n2: string)
    ensures var o1 := Create(s, rent, bank, user, n1);
      var o2 := Create(s, rent, bank, user, n2);
      && o1.result == o2.result
      && o1.post.lamports == o2.post.lamports
      && o1.post.banks.Keys == o2.post.banks.Keys
      && (o1.result.Ok? ==> o1.post.banks.Keys == s.banks.Keys + {BankAddress(user)})
  {
  }

  /** Once a user's `create` has succeeded, every later `create` by that
      user fails, whatever address and name it names. */
  lemma {:induction false} CreateTwiceFails(s: State, rent: U64, bank: Address, user: Pubkey,
                                            n1: string, bank2: Address, n2: string)
    requires Create(s, rent, bank, user, n1).result.Ok?
    ensures var t := Create(s, rent, bank, user, n1).post;
      && Create(t, rent, bank2, user, n2)
         == Outcome(Err(if bank2 == BankAddress(user) then AccountAlreadyInUse else ConstraintSeeds), t)
      && t.banks[bank] == Bank(n1, 0, user)
  {
    CreateEffect(s, rent, bank, user, n1);
    var t := Create(s, rent, bank, user, n1).post;
    if bank2 == BankAddress(user) {
      CreateOnExistingRecordFails(t, rent, bank2, user, n2);
    }
  }

  /** Under the invariant a user holds at most one bank record. */
  lemma OneBankPerUser(s: State, rent: U64, a: Address, b: Address)
    requires Inv(s, rent)
    requires a in s.banks && b in s.banks
    requires s.banks[a].owner == s.banks[b].owner
    ensures a == b
  {
  }

  // ------------------------------------------------------------------ deposit

  /** A successful deposit moves exactly `amount` from the user to the bank
      and adds it to `balance`; name, owner, the pair's lamport total and
      every other account are unchanged. (A record never sits at the
      signer's own wallet in a state the program reaches: see `Inv`.) */
  lemma DepositEffect(s: State, bank: Address, user: Pubkey, amount: U64)
    requires bank != Wallet(user)
    requires Deposit(s, bank, user, amount).result.Ok?
    ensures var t := Deposit(s, bank, user, amount).post;
      && bank in s.banks
      && t.banks == s.banks[bank := s.banks[bank].(balance := s.banks[bank].balance + amount)]
      && Lamports(t, Wallet(user)) == Lamports(s, Wallet(user)) - amount
      && Lamports(t, bank) == Lamports(s, bank) + amount
      && Lamports(t, Wallet(user)) + Lamports(t, bank) == Lamports(s, Wallet(user)) + Lamports(s, bank)
      && (forall a :: a != bank && a != Wallet(user) ==> Lamports(t, a) == Lamports(s, a))
  {
  }

  /** A deposit fails with no change when there is no record or the user
      holds fewer than `amount` lamports. */
  lemma DepositFailsWhenShort(s: State, bank: Address, user: Pubkey, amount: U64)
    requires bank !in s.banks || Lamports(s, Wallet(user)) < amount
    ensures var o := Deposit(s, bank, user, amount);
      && o.result == Err(if bank !in s.banks then NotABank(s, bank) else ResultWithNegativeLamports)
      && o.post == s
  {
  }

  /** A `deposit` or `withdraw` naming an address that holds no record fails
      with no change, whoever signs and whatever the amount: Anchor reports
      `AccountNotInitialized` when the address holds no lamports and
      `AccountOwnedByWrongProgram` when it does (a wallet, say). */
  lemma MissingRecordFails(s: State, rent: U64, bank: Address, user: Pubkey, amount: U64)
    requires bank !in s.banks
    ensures var o := Outcome(Err(if Lamports(s, bank) == 0 then AccountNotInitialized
                                 else AccountOwnedByWrongProgram), s);
      && Deposit(s, bank, user, amount) == o
      && Withdraw(s, rent, bank, user, amount) == o
  {
  }

  /** Under the invariant a deposit succeeds exactly when there is a record,
      the user can pay, and the bank's lamports stay within u64. Any signer
      may deposit, and `amount == 0` is accepted. The overflow check on
      `bank.balance += amount` is then never what rejects it. */
  lemma DepositSucceedsIff(s: State, rent: U64, bank: Address, user: Pubkey, amount: U64)
    requires Inv(s, rent)
    ensures Deposit(s, bank, user, amount).result.Ok?
        <==> && bank in s.banks
             && amount <= Lamports(s, Wallet(user))
             && Lamports(s, bank) + amount <= U64_MAX
    ensures Deposit(s, bank, user, amount).result != Err(Panic)
  {
    if bank in s.banks {
      assert Lamports(s, bank) == rent + s.banks[bank].balance;
    }
  }

  // ----------------------------------------------------------------- withdraw

  /** A signer who is not the record's owner can never withdraw. */
  lemma WithdrawByNonOwnerFails(s: State, rent: U64, bank: Address, user: Pubkey, amount: U64)
    requires bank in s.banks && s.banks[bank].owner != user
    ensures Withdraw(s, rent, bank, user, amount) == Outcome(Err(IncorrectProgramId), s)
  {
  }

  /** The owner's withdrawal of more than the lamports above rent fails with
      no change. */
  lemma WithdrawFailsWhenShort(s: State, rent: U64, bank: Address, user: Pubkey, amount: U64)
    requires bank in s.banks && s.banks[bank].owner == user
    requires rent <= Lamports(s, bank) && Lamports(s, bank) - rent < amount
    ensures Withdraw(s, rent, bank, user, amount) == Outcome(Err(InsufficientFunds), s)
  {
  }

  /** Under the invariant the owner's withdrawal of more than `balance` fails
      with `InsufficientFunds` and no change. */
  lemma WithdrawBeyondBalanceFails(s: State, rent: U64, bank: Address, user: Pubkey, amount: U64)
    requires Inv(s, rent)
    requires bank in s.banks && s.banks[bank].owner == user
    requires s.banks[bank].balance < amount
    ensures Withdraw(s, rent, bank, user, amount) == Outcome(Err(InsufficientFunds), s)
  {
    WithdrawGuardIsBalanceCheck(s, rent, bank, amount);
  }

  /** A successful withdrawal moves exactly `amount` from the bank to the
      user and takes it off `balance`; name, owner and every other account
      are unchanged, and the bank keeps its rent-exempt minimum. */
  lemma WithdrawEffect(s: State, rent: U64, bank: Address, user: Pubkey, amount: U64)
    requires bank != Wallet(user)
    requires Withdraw(s, rent, bank, user, amount).result.Ok?
    ensures var t := Withdraw(s, rent, bank, user, amount).post;
      && bank in s.banks && s.banks[bank].owner == user
      && amount <= s.banks[bank].balance
      && t.banks == s.banks[bank := s.banks[bank].(balance := s.banks[bank].balance - amount)]
      && Lamports(t, bank) == Lamports(s, bank) - amount
      && Lamports(t, bank) >= rent
      && Lamports(t, Wallet(user)) == Lamports(s, Wallet(user)) + amount
      && (forall a :: a != bank && a != Wallet(user) ==> Lamports(t, a) == Lamports(s, a))
  {
  }

  /** Under the invariant the lamport check of `withdraw` is a check of the
      `balance` field, and `bank_balance - rent` cannot underflow. */
  lemma WithdrawGuardIsBalanceCheck(s: State, rent: U64, bank: Address, amount: U64)
    requires Inv(s, rent) && bank in s.banks
    ensures rent <= Lamports(s, bank)
    ensures Lamports(s, bank) - rent < amount <==> s.banks[bank].balance < amount
  {
    assert Lamports(s, bank) == rent + s.banks[bank].balance;
  }

  /** Under the invariant the owner's withdrawal succeeds exactly when
      `amount <= balance` and the user's lamports stay within u64; in
      particular `bank.balance -= amount` never underflows. */
  lemma WithdrawSucceedsIff(s: State, rent: U64, bank: Address, user: Pubkey, amount: U64)
    requires Inv(s, rent)
    ensures Withdraw(s, rent, bank, user, amount).result.Ok?
        <==> && bank in s.banks
             && s.banks[bank].owner == user
             && amount <= s.banks[bank].balance
             && Lamports(s, Wallet(user)) + amount <= U64_MAX
    ensures Withdraw(s, rent, bank, user, amount).result == Err(Panic)
        ==> Lamports(s, Wallet(user)) + amount > U64_MAX
  {
    if bank in s.banks {
      WithdrawGuardIsBalanceCheck(s, rent, bank, amount);
    }
  }

  /** Without the invariant the lamport check is not enough: a record whose
      account holds lamports beyond `rent + balance` lets the owner past the
      check at the amount that then underflows `balance`. */
  lemma SurplusLamportsReachUnderflow(user: Pubkey)
    ensures var bank := BankAddress(user);
      var s := State(map[bank := 110], map[bank := Bank("MyBank", 0, user)]);
      && !Inv(s, 10)
      && !(Lamports(s, bank) - 10 < 50)
      && Withdraw(s, 10, bank, user, 50) == Outcome(Err(Panic), s)
  {
  }

  // ---------------------------------------------------------------- invariant

  /** Under the invariant every record holds at least the (positive) rent,
      so the runtime's purge of accounts left with no lamports never removes
      one. */
  lemma RecordsHoldLamports(s: State, rent: U64, a: Address)
    requires Inv(s, rent) && a in s.banks
    ensures 0 < rent <= Lamports(s, a)
  {
  }

  /** Before any bank exists, holding lamports only in wallets satisfies the
      invariant. */
  lemma InitialInv(lamports: map<Address, U64>, rent: U64)
    requires rent > 0
    requires forall a :: a in lamports ==> a.Wallet?
    ensures Inv(State(lamports, map[]), rent)
  {
  }

  lemma CreatePreservesInv(s: State, rent: U64, bank: Address, user: Pubkey, name: string)
    requires Inv(s, rent)
    ensures Inv(Create(s, rent, bank, user, name).post, rent)
  {
    var o := Create(s, rent, bank, user, name);
    if o.result.Ok? {
      assert Lamports(s, bank) == 0 by {
        assert bank.Derived? && bank !in s.banks;
      }
      CreateEffect(s, rent, bank, user, name);
    }
  }

  lemma DepositPreservesInv(s: State, rent: U64, bank: Address, user: Pubkey, amount: U64)
    requires Inv(s, rent)
    ensures Inv(Deposit(s, bank, user, amount).post, rent)
  {
    if Deposit(s, bank, user, amount).result.Ok? {
      assert bank == BankAddress(s.banks[bank].owner);
      DepositEffect(s, bank, user, amount);
    }
  }

  lemma WithdrawPreservesInv(s: State, rent: U64, bank: Address, user: Pubkey, amount: U64)
    requires Inv(s, rent)
    ensures Inv(Withdraw(s, rent, bank, user, amount).post, rent)
  {
    if Withdraw(s, rent, bank, user, amount).result.Ok? {
      assert bank == BankAddress(s.banks[bank].owner);
      WithdrawEffect(s, rent, bank, user, amount);
    }
  }

  lemma ExecutePreservesInv(s: State, rent: U64, ix: Instruction)
    requires Inv(s, rent)
    ensures Inv(Execute(s, rent, ix).post, rent)
  {
    match ix
    case CreateIx(bank, user, name) => CreatePreservesInv(s, rent, bank, user, name);
    case DepositIx(bank, user, amount) => DepositPreservesInv(s, rent, bank, user, amount);
    case WithdrawIx(bank, user, amount) => WithdrawPreservesInv(s, rent, bank, user, amount);
  }

  /** The invariant holds after any sequence of transactions. */
  lemma {:induction false} RunPreservesInv(s: State, rent: U64, txs: seq<Instruction>)
    requires Inv(s, rent)
    ensures Inv(Run(s, rent, txs), rent)
    decreases |txs|
  {
    if txs != [] {
      ExecutePreservesInv(s, rent, txs[0]);
      RunPreservesInv(Execute(s, rent, txs[0]).post, rent, txs[1..]);
    }
  }

  /** No instruction removes a record or changes its name or owner. */
  lemma ExecuteKeepsRecords(s: State, rent: U64, ix: Instruction, a: Address)
    requires a in s.banks
    ensures var t := Execute(s, rent, ix).post;
      a in t.banks && t.banks[a].name == s.banks[a].name && t.banks[a].owner == s.banks[a].owner
  {
    match ix
    case CreateIx(bank, user, name) =>
      if Create(s, rent, bank, user, name).result.Ok? {
        CreateEffect(s, rent, bank, user, name);
      }
    case DepositIx(_, _, _) =>
    case WithdrawIx(_, _, _) =>
  }

  /** Records are never destroyed, and `name` and `owner` never change, over
      any sequence of transactions. */
  lemma {:induction false} RunKeepsRecords(s: State, rent: U64, txs: seq<Instruction>, a: Address)
    requires a in s.banks
    ensures var t := Run(s, rent, txs);
      a in t.banks && t.banks[a].name == s.banks[a].name && t.banks[a].owner == s.banks[a].owner
    decreases |txs|
  {
    if txs != [] {
      ExecuteKeepsRecords(s, rent, txs[0], a);
      RunKeepsRecords(Execute(s, rent, txs[0]).post, rent, txs[1..], a);
    }
  }

  // -------------------------------------------------------- runs of deposits

  function Sum(amounts: seq<U64>): nat
  {
    if amounts == [] then 0 else amounts[0] + Sum(amounts[1..])
  }

  /** One deposit transaction per amount, all by `user` into `bank`. */
  function DepositTxs(bank: Address, user: Pubkey, amounts: seq<U64>): (txs: seq<Instruction>)
    ensures |txs| == |amounts|
  {
    if amounts == [] then [] else [DepositIx(bank, user, amounts[0])] + DepositTxs(bank, user, amounts[1..])
  }

  /** A run of deposits that the user can pay for adds their sum to the
      balance, takes it from the user and adds it to the bank's lamports. */
  lemma {:induction false} DepositsAddUp(s: State, rent: U64, bank: Address, user: Pubkey, amounts: seq<U64>)
    requires Inv(s, rent) && bank in s.banks
    requires Sum(amounts) <= Lamports(s, Wallet(user))
    requires Lamports(s, bank) + Sum(amounts) <= U64_MAX
    ensures var t := Run(s, rent, DepositTxs(bank, user, amounts));
      && Inv(t, rent)
      && bank in t.banks
      && t.banks[bank].balance == s.banks[bank].balance + Sum(amounts)
      && Lamports(t, Wallet(user)) == Lamports(s, Wallet(user)) - Sum(amounts)
      && Lamports(t, bank) == Lamports(s, bank) + Sum(amounts)
    decreases |amounts|
  {
    if amounts != [] {
      var txs := DepositTxs(bank, user, amounts);
      assert txs[0] == DepositIx(bank, user, amounts[0]);
      assert txs[1..] == DepositTxs(bank, user, amounts[1..]);
      DepositSucceedsIff(s, rent, bank, user, amounts[0]);
      DepositEffect(s, bank, user, amounts[0]);
      DepositPreservesInv(s, rent, bank, user, amounts[0]);
      var s1 := Deposit(s, bank, user, amounts[0]).post;
      DepositsAddUp(s1, rent, bank, user, amounts[1..]);
    }
  }

  // ---------------------------------------------------------------- scenario

  /** The life of one account: `create("MyBank")`, a deposit of 1000 and a
      withdrawal of 500 by the owner, then an attempt by someone else. */
  lemma {:induction false} CreateDepositWithdrawScenario(s: State, rent: U64, u: Pubkey, v: Pubkey)
    requires Inv(s, rent) && BankAddress(u) !in s.banks && u != v
    requires rent + 1000 <= Lamports(s, Wallet(u))
    ensures var b := BankAddress(u);
      var s1 := Create(s, rent, b, u, "MyBank");
      var s2 := Deposit(s1.post, b, u, 1000);
      var s3 := Withdraw(s2.post, rent, b, u, 500);
      var s4 := Withdraw(s3.post, rent, b, v, 500);
      && s1.result == Ok && s1.post.banks[b] == Bank("MyBank", 0, u)
      && s2.result == Ok && s2.post.banks[b].balance == 1000
      && s3.result == Ok && s3.post.banks[b].balance == 500
      && Lamports(s3.post, Wallet(u)) == Lamports(s, Wallet(u)) - rent - 500
      && s4 == Outcome(Err(IncorrectProgramId), s3.post)
  {
    var b := BankAddress(u);
    CreatePreservesInv(s, rent, b, u, "MyBank");
    assert Lamports(s, b) == 0 by {
      assert b.Derived? && b !in s.banks;
    }
    CreateEffect(s, rent, b, u, "MyBank");
    var t1 := Create(s, rent, b, u, "MyBank").post;
    DepositSucceedsIff(t1, rent, b, u, 1000);
    DepositEffect(t1, b, u, 1000);
    DepositPreservesInv(t1, rent, b, u, 1000);
    var t2 := Deposit(t1, b, u, 1000).post;
    WithdrawSucceedsIff(t2, rent, b, u, 500);
    WithdrawEffect(t2, rent, b, u, 500);
    var t3 := Withdraw(t2, rent, b, u, 500).post;
    WithdrawByNonOwnerFails(t3, rent, b, v, 500);
  }
}
