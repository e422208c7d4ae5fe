/** The Solana vocabulary the bank program is written against: u64 amounts,
    public keys, account addresses (wallets and program-derived addresses),
    the `Bank` record the program stores, and the errors an instruction can
    end with. */
module Accounts {

  const U64_MAX: nat := 0xFFFF_FFFF_FFFF_FFFF

  /** Rust's `u64`: lamport amounts and the `balance` field. */
  type U64 = x: nat | x <= U64_MAX

  /** An ed25519 public key, as its bytes. */
  type Pubkey = seq<bv8>

  /** The all-zero key: what `owner` reads as in a freshly allocated account. */
  const DEFAULT_PUBKEY: Pubkey :=
    [0, 0, 0, 0, 0, 0, 0, 0, 0, 0, 0, 0, 0, 0, 0, 0,
     0, 0, 0, 0, 0, 0, 0, 0, 0, 0, 0, 0, 0, 0, 0, 0]

  /** An account address. `Wallet` addresses are ed25519 keys that someone can
      sign for. `Derived` addresses are program-derived addresses of this
      program: the derivation only accepts results off the ed25519 curve, so
      no derived address is ever a wallet, and distinct inputs give distinct
      addresses. The hash and the bump search are abstracted away. */
  datatype Address = Wallet(key: Pubkey) | Derived(seed: string, base: Pubkey)

  /** The fixed seed of every bank record (`b"bankaccount"`). */
  const BANK_SEED: string := "bankaccount"

  /** `Pubkey::find_program_address([seed, key], program_id)`. */
  function FindProgramAddress(seed: string, key: Pubkey): Address
  {
    Derived(seed, key)
  }

  /** The one address a user's bank record may live at. */
  function BankAddress(user: Pubkey): Address
  {
    FindProgramAddress(BANK_SEED, user)
  }

  /** A lamport map read the way the runtime reads it: an address that holds
      no account holds 0 lamports. */
  function LamportsOf(m: map<Address, U64>, a: Address): U64
  {
    if a in m then m[a] else 0
  }

  /** The record `#[account] pub struct Bank`. */
  datatype Bank = Bank(name: string, balance: U64, owner: Pubkey)

  /** What a zero-filled account deserialises to: the state an `init`ed
      record is in when the instruction body first sees it. */
  const ZEROED_BANK: Bank := Bank("", 0, DEFAULT_PUBKEY)

  /** The ways an instruction of this program can abort. */
  datatype ProgramError =
    | AccountAlreadyInitialized   // the body's own check on `bank.name`
    | IncorrectProgramId          // withdraw by someone other than `owner`
    | InsufficientFunds           // withdraw beyond lamports minus rent
    | ConstraintSeeds             // Anchor: `bank` is not the derived address
    | AccountAlreadyInUse         // System program: allocating an address that holds a record
    | AccountNotInitialized       // Anchor: `Account<Bank>` on an empty address (0 lamports)
    | AccountOwnedByWrongProgram  // Anchor: `Account<Bank>` on a funded address with no record
    | ResultWithNegativeLamports  // System program: the payer or sender is short
    | ArithmeticOverflow          // System program: the receiver would exceed u64
    | Panic                       // overflow-checked u64 arithmetic in the program

  /** Rust's `Result<()>`. */
  datatype Result = Ok | Err(error: ProgramError)
}
