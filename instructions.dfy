/** The three instructions of the program as functions from the accounts
    before to the result and the accounts after. An instruction is all or
    nothing: when it ends in `Err`, the runtime discards every write it made,
    so the accounts after are the accounts before. */
module Instructions {
  import opened Accounts

  /** What the program can see and change: the lamports of every address and
      the `Bank` records stored at the addresses that hold one. */
  datatype State = State(lamports: map<Address, U64>, banks: map<Address, Bank>)

  datatype Outcome = Outcome(result: Result, post: State)

  function Lamports(s: State, a: Address): U64
  {
    LamportsOf(s.lamports, a)
  }

  /** What the payer must add for the new record to hold the rent-exempt
      minimum: `rent` less what already sits at the address, never below 0. */
  function RentTopUp(rent: U64, current: U64): U64
  {
    if current < rent then rent - current else 0
  }

  /** `create(ctx, name)`. The `init` constraint first checks that `bank` is
      the user's derived address. Then, as Anchor's `init` does:
      - at an address with no lamports, `create_account` refuses an address
        already in use, then takes `rent` from the payer;
      - at an address that already holds lamports, the payer first tops it
        up to `rent`, then `allocate` refuses an address already in use.
      The body then checks the freshly zeroed record and writes `name`,
      `balance = 0` and `owner = user`. */
  function Create(s: State, rent: U64, bank: Address, user: Pubkey, name: string): (o: Outcome)
    ensures o.result.Err? ==> o.post == s
    ensures o.result.Ok? ==> o.post.banks.Keys == s.banks.Keys + {bank}
  {
    if bank != BankAddress(user) then Outcome(Err(ConstraintSeeds), s)
    else
      var current := Lamports(s, bank);
      var required := RentTopUp(rent, current);
      var payer := Lamports(s, Wallet(user));
      if current == 0 then
        if bank in s.banks then Outcome(Err(AccountAlreadyInUse), s)
        else if payer < required then Outcome(Err(ResultWithNegativeLamports), s)
        else Initialise(s, bank, user, name, required)
      else
        if payer < required then Outcome(Err(ResultWithNegativeLamports), s)
        else if bank in s.banks then Outcome(Err(AccountAlreadyInUse), s)
        else Initialise(s, bank, user, name, required)
  }

  /** What `create` does once `init` has found `bank` free and the payer able
      to pay `required`: move the lamports, allocate a zeroed record, and run
      the instruction body on it. */
  function Initialise(s: State, bank: Address, user: Pubkey, name: string, required: U64): (o: Outcome)
    requires bank != Wallet(user) && bank !in s.banks
    requires required <= Lamports(s, Wallet(user)) && Lamports(s, bank) + required <= U64_MAX
    ensures o.result.Err? ==> o.post == s
    ensures o.result.Ok? ==> o.post.banks.Keys == s.banks.Keys + {bank}
  {
    var payer := Lamports(s, Wallet(user));
    var lamports := s.lamports[Wallet(user) := payer - required][bank := Lamports(s, bank) + required];
    var record := ZEROED_BANK;
    if |record.name| > 0 then Outcome(Err(AccountAlreadyInitialized), s)
    else
      var record := record.(name := name, balance := 0, owner := user);
      Outcome(Ok, State(lamports, s.banks[bank := record]))
  }

  /** The check Anchor makes of an `Account<'info, Bank>` argument that holds
      no record: an empty address is not initialised; a funded one (a wallet,
      or a derived address someone sent lamports to) belongs to another
      program. */
  function NotABank(s: State, bank: Address): ProgramError
  {
    if Lamports(s, bank) == 0 then AccountNotInitialized else AccountOwnedByWrongProgram
  }

  /** `deposit(ctx, amount)`: a System-program transfer of `amount` lamports
      from `user` to `bank`, then `bank.balance += amount`. */
  function Deposit(s: State, bank: Address, user: Pubkey, amount: U64): (o: Outcome)
    ensures o.result.Err? ==> o.post == s
    ensures o.post.banks.Keys == s.banks.Keys
    ensures o.result.Ok? ==>
      && bank in s.banks
      && o.post.banks == s.banks[bank := s.banks[bank].(balance := o.post.banks[bank].balance)]
  {
    if bank !in s.banks then Outcome(Err(NotABank(s, bank)), s)
    else
      var from := Lamports(s, Wallet(user));
      var to := Lamports(s, bank);
      if from < amount then Outcome(Err(ResultWithNegativeLamports), s)
      else if to + amount > U64_MAX then Outcome(Err(ArithmeticOverflow), s)
      else
        var lamports := s.lamports[Wallet(user) := from - amount][bank := to + amount];
        var record := s.banks[bank];
        if record.balance + amount > U64_MAX then Outcome(Err(Panic), s)
        else
          var record := record.(balance := record.balance + amount);
          Outcome(Ok, State(lamports, s.banks[bank := record]))
  }

  /** `withdraw(ctx, amount)`: the owner check, the check of the bank's
      lamports above `rent` against `amount`, the two lamport moves, then
      `bank.balance -= amount`. */
  function Withdraw(s: State, rent: U64, bank: Address, user: Pubkey, amount: U64): (o: Outcome)
    ensures o.result.Err? ==> o.post == s
    ensures o.post.banks.Keys == s.banks.Keys
    ensures o.result.Ok? ==>
      && bank in s.banks
      && o.post.banks == s.banks[bank := s.banks[bank].(balance := o.post.banks[bank].balance)]
  {
    if bank !in s.banks then Outcome(Err(NotABank(s, bank)), s)
    else
      var record := s.banks[bank];
      if record.owner != user then Outcome(Err(IncorrectProgramId), s)
      else
        var bankLamports := Lamports(s, bank);
        if bankLamports < rent then Outcome(Err(Panic), s)
        else if bankLamports - rent < amount then Outcome(Err(InsufficientFunds), s)
        else
          var lamports := s.lamports[bank := bankLamports - amount];
          var userLamports := LamportsOf(lamports, Wallet(user));
          if userLamports + amount > U64_MAX then Outcome(Err(Panic), s)
          else
            var lamports := lamports[Wallet(user) := userLamports + amount];
            if record.balance < amount then Outcome(Err(Panic), s)
            else
              var record := record.(balance := record.balance - amount);
              Outcome(Ok, State(lamports, s.banks[bank := record]))
  }

  /** One instruction as a client submits it, with the signer it carries. */
  datatype Instruction =
    | CreateIx(bank: Address, user: Pubkey, name: string)
    | DepositIx(bank: Address, user: Pubkey, amount: U64)
    | WithdrawIx(bank: Address, user: Pubkey, amount: U64)

  function Execute(s: State, rent: U64, ix: Instruction): (o: Outcome)
    ensures o.result.Err? ==> o.post == s
  {
    match ix
    case CreateIx(bank, user, name) => Create(s, rent, bank, user, name)
    case DepositIx(bank, user, amount) => Deposit(s, bank, user, amount)
    case WithdrawIx(bank, user, amount) => Withdraw(s, rent, bank, user, amount)
  }

  /** Transactions applied one at a time in the order the cluster settles
      them; a failing one leaves the accounts as they were. */
  function Run(s: State, rent: U64, txs: seq<Instruction>): State
    decreases |txs|
  {
    if txs == [] then s else Run(Execute(s, rent, txs[0]).post, rent, txs[1..])
  }

  /** The custody invariant. Every record sits at the address derived from
      its owner's key; the lamports at a record are exactly the rent-exempt
      minimum plus its `balance`; and a derived address that holds no record
      holds no lamports (nothing outside the program sends lamports there).
      The rent-exempt minimum of a 5000-byte account is positive, so every
      record holds lamports and the runtime never purges it. */
  ghost predicate Inv(s: State, rent: U64)
  {
    && rent > 0
    && (forall a :: a in s.banks ==> a == BankAddress(s.banks[a].owner))
    && (forall a :: a in s.banks ==> Lamports(s, a) == rent + s.banks[a].balance)
    && (forall a :: a in s.lamports && a.Derived? && a !in s.banks ==> s.lamports[a] == 0)
  }
}
