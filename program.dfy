/** The `solanapdas` program as it runs: one object holding the accounts it
    can touch, and one method per instruction. Each method works on copies
    of the accounts, as the runtime hands them to the program, and writes
    them back only when the instruction returns `Ok`; an early `Err` leaves
    every account as it was. Each method is proved to compute exactly the
    corresponding function of `Instructions` and to keep the custody
    invariant. */
module Solanapdas {
  import opened Accounts
  import Instructions
  import Properties

  class Ledger {
    /** `Rent::get()?.minimum_balance(data_len)`: the same for every record,
        since each is allocated with `space = 5000`. */
    const rent: U64
    /** The lamports of every address; an address not in the map holds 0. */
    var lamports: map<Address, U64>
    /** The `Bank` records, by the address of the account that stores them. */
    var banks: map<Address, Bank>

    function State(): Instructions.State
      reads this
    {
      Instructions.State(lamports, banks)
    }

    ghost predicate Valid()
      reads this
    {
      Instructions.Inv(State(), rent)
    }

    /** A cluster on which only wallets hold lamports and no bank exists.
        The rent-exempt minimum of a 5000-byte account is positive. */
    constructor (rent: U64, wallets: map<Address, U64>)
      requires rent > 0
      requires forall a :: a in wallets ==> a.Wallet?
      ensures Valid()
      ensures this.rent == rent && lamports == wallets && banks == map[]
    {
      this.rent := rent;
      lamports := wallets;
      banks := map[];
      new;
      Properties.InitialInv(wallets, rent);
    }

    /** `create(ctx, name)` with its `Create` accounts. */
    method Create(bank: Address, user: Pubkey, name: string) returns (r: Result)
      modifies this
      ensures Instructions.Create(old(State()), rent, bank, user, name) == Instructions.Outcome(r, State())
      ensures old(Valid()) ==> Valid()
    {
      ghost var before := State();
      // `init`: `bank` must be the address derived from "bankaccount" and the user's key
      if bank != FindProgramAddress(BANK_SEED, user) {
        return Err(ConstraintSeeds);
      }
      var accounts := lamports;
      var current := LamportsOf(accounts, bank);
      var required := Instructions.RentTopUp(rent, current);
      var payer := LamportsOf(accounts, Wallet(user));
      if current == 0 {
        // create_account: refuse an occupied address, then take `rent` from the payer
        if bank in banks {
          return Err(AccountAlreadyInUse);
        }
        if payer < required {
          return Err(ResultWithNegativeLamports);
        }
      } else {
        // top the address up to `rent`, then allocate, which refuses an occupied address
        if payer < required {
          return Err(ResultWithNegativeLamports);
        }
        if bank in banks {
          return Err(AccountAlreadyInUse);
        }
      }
      accounts := accounts[Wallet(user) := payer - required];
      accounts := accounts[bank := current + required];
      var record := ZEROED_BANK;

      // the instruction body
      if |record.name| > 0 {
        return Err(AccountAlreadyInitialized);
      }
      record := record.(name := name);
      record := record.(balance := 0);
      record := record.(owner := user);

      lamports, banks := accounts, banks[bank := record];
      r := Ok;
      if Instructions.Inv(before, rent) {
        Properties.CreatePreservesInv(before, rent, bank, user, name);
      }
    }

    /** `deposit(ctx, amount)` with its `Deposit` accounts. */
    method Deposit(bank: Address, user: Pubkey, amount: U64) returns (r: Result)
      modifies this
      ensures Instructions.Deposit(old(State()), bank, user, amount) == Instructions.Outcome(r, State())
      ensures old(Valid()) ==> Valid()
    {
      ghost var before := State();
      // `bank: Account<'info, Bank>` must hold a record
      if bank !in banks {
        return Err(Instructions.NotABank(State(), bank));
      }
      var accounts := lamports;

      // invoke(&system_instruction::transfer(user, bank, amount), ...)?
      var from := LamportsOf(accounts, Wallet(user));
      if from < amount {
        return Err(ResultWithNegativeLamports);
      }
      var to := LamportsOf(accounts, bank);
      if to + amount > U64_MAX {
        return Err(ArithmeticOverflow);
      }
      accounts := accounts[Wallet(user) := from - amount];
      accounts := accounts[bank := to + amount];

      // bank.balance += amount
      var record := banks[bank];
      if record.balance + amount > U64_MAX {
        return Err(Panic);
      }
      record := record.(balance := record.balance + amount);

      lamports, banks := accounts, banks[bank := record];
      r := Ok;
      if Instructions.Inv(before, rent) {
        Properties.DepositPreservesInv(before, rent, bank, user, amount);
      }
    }

    /** `withdraw(ctx, amount)` with its `Withdraw` accounts. */
    method Withdraw(bank: Address, user: Pubkey, amount: U64) returns (r: Result)
      modifies this
      ensures Instructions.Withdraw(old(State()), rent, bank, user, amount) == Instructions.Outcome(r, State())
      ensures old(Valid()) ==> Valid()
    {
      ghost var before := State();
      // `bank: Account<'info, Bank>` must hold a record
      if bank !in banks {
        return Err(Instructions.NotABank(State(), bank));
      }
      var record := banks[bank];
      if record.owner != user {
        return Err(IncorrectProgramId);
      }

      // bank_balance - rent < amount, in overflow-checked u64
      var bankLamports := LamportsOf(lamports, bank);
      if bankLamports < rent {
        return Err(Panic);
      }
      if bankLamports - rent < amount {
        return Err(InsufficientFunds);
      }

      // the two lamport moves, each overflow-checked
      var accounts := lamports;
      accounts := accounts[bank := bankLamports - amount];
      var userLamports := LamportsOf(accounts, Wallet(user));
      if userLamports + amount > U64_MAX {
        return Err(Panic);
      }
      accounts := accounts[Wallet(user) := userLamports + amount];

      // bank.balance -= amount
      if record.balance < amount {
        return Err(Panic);
      }
      record := record.(balance := record.balance - amount);

      lamports, banks := accounts, banks[bank := record];
      r := Ok;
      if Instructions.Inv(before, rent) {
        Properties.WithdrawPreservesInv(before, rent, bank, user, amount);
      }
    }
  }
}
