/**
 Account, storage and code reads on top of a key lookup: the account comes first, and its
 incarnation chooses the storage key. Stated once, for any reader.
 */
module StateReads {
  import opened Bytes
  import opened Versions
  import opened Keys

  /** A key lookup at one block. */
  type Lookups = Bytes -> Option<Bytes>

  /** `read` is the answer over `rs` for every key. */
  ghost predicate ReadsAs(rs: set<Record>, block: int, read: Lookups)
  {
    UniqueVersions(rs) && forall key :: IsAnswer(rs, key, block, read(key))
  }

  lemma SameAnswer(rs: set<Record>, block: int, read: Lookups, key: Bytes, answer: Option<Bytes>)
    requires ReadsAs(rs, block, read) && IsAnswer(rs, key, block, answer)
    ensures answer == read(key)
  {
    AnswerUnique(rs, key, block, answer, read(key));
  }

  /** The account version visible at the block, tombstones included. */
  function AccountOf(read: Lookups, address: Hash20): Result<Option<AccountState>>
  {
    match read(AccountKey(address))
    case None => Ok(None)
    case Some(value) =>
      match DecodeState(value)
      case Err => Err
      case Ok(state) => Ok(Some(state))
  }

  /** The account, with tombstones filtered out. */
  function LiveAccountOf(read: Lookups, address: Hash20): Result<Option<AccountState>>
  {
    match AccountOf(read, address)
    case Ok(Some(state)) => Ok(if state.live then Some(state) else None)
    case other => other
  }

  function StorageOf(read: Lookups, address: Hash20, slot: Hash32): Result<Hash32>
  {
    match LiveAccountOf(read, address)
    case Err => Err
    case Ok(None) => Ok(ZERO32)
    case Ok(Some(state)) =>
      match read(StorageKey(address, state.incarnation, slot))
      case None => Ok(ZERO32)
      case Some(value) => if |value| == 32 then Ok(value) else Err
  }

  function CodeOf(read: Lookups, keccak: Bytes -> Hash32, limit: nat, address: Hash20): Result<Bytes>
  {
    match LiveAccountOf(read, address)
    case Err => Err
    case Ok(None) => Ok([])
    case Ok(Some(state)) =>
      if state.codeHash == keccak([]) then Ok([])
      else
        match read(CodeKey(state.codeHash))
        case None => Err
        case Some(bytes) => if |bytes| > limit || keccak(bytes) != state.codeHash then Err else Ok(bytes)
  }

  /** The account can be read, and if it is live with code of its own, that code is recorded under its hash. */
  ghost predicate CodeThere(read: Lookups, keccak: Bytes -> Hash32, limit: nat, address: Hash20)
  {
    && LiveAccountOf(read, address).Ok?
    && forall s: AccountState :: LiveAccountOf(read, address) == Ok(Some(s)) && s.codeHash != keccak([]) ==>
         exists b :: read(CodeKey(s.codeHash)) == Some(b) && |b| <= limit && keccak(b) == s.codeHash
  }

  /** Code of an absent account is empty; code of a live one hashes to its code hash, and is what is recorded there. */
  ghost predicate CodeMeans(read: Lookups, keccak: Bytes -> Hash32, address: Hash20, code: Bytes)
  {
    && (LiveAccountOf(read, address) == Ok(None) ==> code == [])
    && forall s: AccountState :: LiveAccountOf(read, address) == Ok(Some(s)) ==>
         && keccak(code) == s.codeHash && (s.codeHash == keccak([]) ==> code == [])
         && (s.codeHash != keccak([]) ==> read(CodeKey(s.codeHash)) == Some(code))
  }

  /** Code is read exactly when it is there, and then is the account's. */
  lemma CodeOfIff(read: Lookups, keccak: Bytes -> Hash32, limit: nat, address: Hash20)
    ensures CodeOf(read, keccak, limit, address).Ok? <==> CodeThere(read, keccak, limit, address)
    ensures CodeOf(read, keccak, limit, address).Ok? ==>
              CodeMeans(read, keccak, address, CodeOf(read, keccak, limit, address).value)
  {
    hide LiveAccountOf, CodeKey;
  }
}
