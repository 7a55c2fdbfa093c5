/**
 Key layouts and account values: one tag byte per kind of record, fixed-width fields.
 Different records get different keys, and account values have one encoding.
 */
module Keys {
  import opened Bytes

  type Hash20 = b: Bytes | |b| == 20 witness
    [0, 0, 0, 0, 0, 0, 0, 0, 0, 0, 0, 0, 0, 0, 0, 0, 0, 0, 0, 0]

  const ZERO32: Bytes :=
    [0, 0, 0, 0, 0, 0, 0, 0, 0, 0, 0, 0, 0, 0, 0, 0, 0, 0, 0, 0, 0, 0, 0, 0, 0, 0, 0, 0, 0, 0, 0, 0]

  type Hash32 = b: Bytes | |b| == 32 witness ZERO32

  function AccountKey(address: Hash20): Bytes { [1] + address }

  function StorageKey(address: Hash20, incarnation: U64, slot: Hash32): Bytes
  {
    [2] + address + U64Bytes(incarnation) + slot
  }

  function CodeKey(hash: Hash32): Bytes { [3] + hash }

  /** What a key stands for. */
  datatype Name =
    | Account(address: Hash20)
    | Storage(address: Hash20, incarnation: U64, slot: Hash32)
    | Code(hash: Hash32)

  function KeyOf(name: Name): Bytes
  {
    match name
    case Account(a) => AccountKey(a)
    case Storage(a, i, s) => StorageKey(a, i, s)
    case Code(h) => CodeKey(h)
  }

  lemma StorageFields(a: Hash20, i: U64, s: Hash32)
    ensures
      var k := StorageKey(a, i, s);
      |k| == 61 && k[0] == 2 && k[1..21] == a && k[21..29] == U64Bytes(i) && k[29..] == s
  {
    hide U64Bytes;
  }

  /** Keys are injective across all kinds of records. */
  lemma KeysInjective(m: Name, n: Name)
    requires KeyOf(m) == KeyOf(n)
    ensures m == n
  {
    match m
    case Account(a) => assert KeyOf(m)[1..] == a; assert n.Account? ==> KeyOf(n)[1..] == n.address;
    case Code(h) => assert KeyOf(m)[1..] == h; assert n.Code? ==> KeyOf(n)[1..] == n.hash;
    case Storage(a, i, s) =>
      StorageFields(a, i, s);
      if n.Storage? {
        StorageFields(n.address, n.incarnation, n.slot);
        assert FromBigEndian(U64Bytes(i)) == i && FromBigEndian(U64Bytes(n.incarnation)) == n.incarnation;
      }
  }

  // ---------------------------------------------------------------- account values

  datatype AccountState = AccountState(live: bool, incarnation: U64, nonce: U64, balance: Hash32, codeHash: Hash32)

  /** Tombstones carry nothing but their incarnation. */
  predicate StateOk(s: AccountState)
  {
    !s.live ==> s.nonce == 0 && s.balance == ZERO32 && s.codeHash == ZERO32
  }

  function EncodeState(s: AccountState): (b: Bytes)
    ensures |b| == 81
  {
    [if s.live then 1 else 0] + U64Bytes(s.incarnation) + U64Bytes(s.nonce) + s.balance + s.codeHash
  }

  function DecodeState(value: Bytes): Result<AccountState>
  {
    if |value| != 81 || value[0] > 1 then Err
    else
      Widths();
      var s := AccountState(value[0] == 1, FromBigEndian(value[1..9]), FromBigEndian(value[9..17]),
                            value[17..49], value[49..81]);
      if !s.live && (s.nonce != 0 || s.balance != ZERO32 || s.codeHash != ZERO32) then Err else Ok(s)
  }

  lemma StateFields(s: AccountState)
    ensures
      var b := EncodeState(s);
      && b[0] == (if s.live then 1 else 0) && b[1..9] == U64Bytes(s.incarnation) && b[9..17] == U64Bytes(s.nonce)
      && b[17..49] == s.balance && b[49..81] == s.codeHash
  {
    hide U64Bytes;
  }

  /** Decoding inverts encoding, accepts nothing else, and refuses dirty tombstones. */
  lemma StateExact(value: Bytes, s: AccountState)
    ensures DecodeState(value) == Ok(s) <==> StateOk(s) && value == EncodeState(s)
  {
    hide U64Bytes, FromBigEndian, BigEndian;
    if StateOk(s) && value == EncodeState(s) {
      StateFields(s);
      assert FromBigEndian(U64Bytes(s.incarnation)) == s.incarnation && FromBigEndian(U64Bytes(s.nonce)) == s.nonce;
    }
    if DecodeState(value) == Ok(s) {
      Rewrites(value[1..9], s.incarnation);
      Rewrites(value[9..17], s.nonce);
      assert value == [value[0]] + value[1..9] + value[9..17] + value[17..49] + value[49..81];
    }
  }

  lemma Rewrites(raw: Bytes, x: U64)
    requires |raw| == 8 && FromBigEndian(raw) == x
    ensures U64Bytes(x) == raw
  {
    WriteRead(raw);
  }
}
