/**
 * Account rows and their journal records: a mode byte followed by the fields that mode
 * covers, with 48-bit balances written as a low 32-bit and a high 16-bit half.
 */
module AccountRecord {
  import opened BigEndian

  const TWO_16 := 0x1_0000
  const TWO_32 := 0x1_0000_0000
  const TWO_47 := 0x8000_0000_0000
  const TWO_48 := 0x1_0000_0000_0000
  const BALANCE_MAX := TWO_47 - 1
  const BALANCE_MIN := -TWO_47

  const TAIL_BYTES := 24
  const PREFIX_BYTES := 8

  datatype Account = Account(
    keyTail: seq<byte>,
    balance: int,
    nonce: nat,
    lastXferDest: seq<byte>,
    lastXferAmount: nat,
    lastXferTime: nat,
    aliasId: nat)

  /** Every field is in the range of its storage. */
  predicate Fits(a: Account)
  {
    && |a.keyTail| == TAIL_BYTES
    && BALANCE_MIN <= a.balance <= BALANCE_MAX
    && a.nonce < TWO_32
    && |a.lastXferDest| == PREFIX_BYTES
    && a.lastXferAmount < TWO_48
    && a.lastXferTime < TWO_32
    && a.aliasId < TWO_32
  }

  function Zeros(n: nat): (s: seq<byte>)
    ensures |s| == n
  {
    seq(n, _ => 0)
  }

  function NewAccount(): Account
  {
    Account(Zeros(TAIL_BYTES), 0, 0, Zeros(PREFIX_BYTES), 0, 0, 0)
  }

  predicate IsEmpty(a: Account)
  {
    a.keyTail == Zeros(TAIL_BYTES) && a.balance == 0 && a.nonce == 0
  }

  datatype SerMode = Full | BalanceNonce | Erased | Transfer

  function Header(mode: SerMode): byte
  {
    match mode
    case Full => 0
    case BalanceNonce => 1
    case Erased => 2
    case Transfer => 3
  }

  // ---- 48-bit codec ----

  /** The six bytes stored for `v`, as an unsigned number. */
  function Low48(v: int): (r: nat)
    ensures r < TWO_48
  {
    v % TWO_48
  }

  /** Sign extension of bit 47. */
  function SignExtend48(raw: nat): int
  {
    if raw % TWO_48 >= TWO_47 then raw % TWO_48 - TWO_48 else raw % TWO_48
  }

  /** Storing a value keeps it exactly when it is in the 48-bit range. */
  lemma Int48Exact(v: int)
    ensures SignExtend48(Low48(v)) == v <==> BALANCE_MIN <= v <= BALANCE_MAX
  {
  }

  function Write48(v: nat): (s: seq<byte>)
    ensures |s| == 6
  {
    Put(v % TWO_32, 4) + Put(v / TWO_32 % TWO_16, 2)
  }

  function Read48(s: seq<byte>): nat
    requires |s| == 6
  {
    Get(s[..4]) + Get(s[4..]) * TWO_32
  }

  lemma Read48Write48(v: nat)
    requires v < TWO_48
    ensures Read48(Write48(v)) == v
  {
    Widths();
    GetPut(v % TWO_32, 4);
    GetPut(v / TWO_32 % TWO_16, 2);
    assert Write48(v)[..4] == Put(v % TWO_32, 4);
    assert Write48(v)[4..] == Put(v / TWO_32 % TWO_16, 2);
  }

  // ---- Field groups ----

  function WriteBalanceNonce(a: Account): (s: seq<byte>)
    ensures |s| == 10
  {
    Write48(Low48(a.balance)) + Put(a.nonce, 4)
  }

  function WriteXfer(a: Account): (s: seq<byte>)
    requires |a.lastXferDest| == PREFIX_BYTES
    ensures |s| == 18
  {
    a.lastXferDest + Write48(Low48(a.lastXferAmount)) + Put(a.lastXferTime, 4)
  }

  /** All fields, as in a Full record or a snapshot row. */
  function WriteAll(a: Account): (s: seq<byte>)
    requires |a.keyTail| == TAIL_BYTES && |a.lastXferDest| == PREFIX_BYTES
    ensures |s| == 56
  {
    a.keyTail + WriteBalanceNonce(a) + WriteXfer(a) + Put(a.aliasId, 4)
  }

  function ReadBalanceNonce(s: seq<byte>, a: Account): Account
    requires |s| == 10
  {
    a.(balance := SignExtend48(Read48(s[..6])), nonce := Get(s[6..]))
  }

  function ReadXfer(s: seq<byte>, a: Account): Account
    requires |s| == 18
  {
    a.(lastXferDest := s[..8], lastXferAmount := Low48(Read48(s[8..14])), lastXferTime := Get(s[14..]))
  }

  function ReadAll(s: seq<byte>, a: Account): Account
    requires |s| == 56
  {
    var b := ReadBalanceNonce(s[24..34], a.(keyTail := s[..24]));
    ReadXfer(s[34..52], b).(aliasId := Get(s[52..]))
  }

  // ---- Records ----

  function Write(mode: SerMode, a: Account): seq<byte>
    requires Fits(a)
  {
    if IsEmpty(a) then [Header(Erased)]
    else [Header(mode)] + match mode
      case Full => WriteAll(a)
      case BalanceNonce => WriteBalanceNonce(a)
      case Transfer => WriteBalanceNonce(a) + WriteXfer(a)
      case Erased => []
  }

  datatype ReadResult = Got(account: Account, used: nat) | Short | BadHeader

  /** Applies the record at the front of `src` to `a`. */
  function Read(src: seq<byte>, a: Account): ReadResult
  {
    if src == [] then Short
    else if src[0] == Header(Erased) then Got(NewAccount(), 1)
    else if src[0] == Header(Full) then
      if |src| < 57 then Short else Got(ReadAll(src[1..57], a), 57)
    else if src[0] == Header(BalanceNonce) then
      if |src| < 11 then Short else Got(ReadBalanceNonce(src[1..11], a), 11)
    else if src[0] == Header(Transfer) then
      if |src| < 29 then Short else Got(ReadXfer(src[11..29], ReadBalanceNonce(src[1..11], a)), 29)
    else BadHeader
  }

  /** What a record written from `a` in this mode means for a reader that holds `prev`. */
  function Patch(mode: SerMode, a: Account, prev: Account): Account
  {
    if IsEmpty(a) || mode == Erased then NewAccount()
    else match mode
      case Full => a
      case BalanceNonce => prev.(balance := a.balance, nonce := a.nonce)
      case _ => prev.(balance := a.balance, nonce := a.nonce, lastXferDest := a.lastXferDest,
                     lastXferAmount := a.lastXferAmount, lastXferTime := a.lastXferTime)
  }

  lemma BalanceNonceBack(a: Account, prev: Account)
    requires Fits(a)
    ensures ReadBalanceNonce(WriteBalanceNonce(a), prev) == prev.(balance := a.balance, nonce := a.nonce)
  {
    var s := WriteBalanceNonce(a);
    assert s[..6] == Write48(Low48(a.balance)) && s[6..] == Put(a.nonce, 4);
    Read48Write48(Low48(a.balance));
    Int48Exact(a.balance);
    Widths();
    GetPut(a.nonce, 4);
  }

  lemma XferBack(a: Account, prev: Account)
    requires Fits(a)
    ensures ReadXfer(WriteXfer(a), prev)
            == prev.(lastXferDest := a.lastXferDest, lastXferAmount := a.lastXferAmount, lastXferTime := a.lastXferTime)
  {
    XferFields(a);
    AmountBack(a.lastXferAmount);
    Widths();
    GetPut(a.lastXferTime, 4);
  }

  lemma AmountBack(amount: nat)
    requires amount < TWO_48
    ensures Low48(Read48(Write48(Low48(amount)))) == amount
  {
    LowSame(amount);
    Read48Write48(amount);
  }

  lemma LowSame(v: nat)
    requires v < TWO_48
    ensures Low48(v) == v
  {
  }

  lemma XferFields(a: Account)
    requires Fits(a)
    ensures var s := WriteXfer(a);
      s[..8] == a.lastXferDest && s[8..14] == Write48(Low48(a.lastXferAmount)) && s[14..] == Put(a.lastXferTime, 4)
  {
  }

  /** A snapshot row reads back to the same account, whatever it is read over. */
  lemma AllBack(a: Account, prev: Account)
    requires Fits(a)
    ensures ReadAll(WriteAll(a), prev) == a
  {
    var s := WriteAll(a);
    assert s[..24] == a.keyTail && s[24..34] == WriteBalanceNonce(a);
    assert s[34..52] == WriteXfer(a) && s[52..] == Put(a.aliasId, 4);
    BalanceNonceBack(a, prev.(keyTail := a.keyTail));
    XferBack(a, prev.(keyTail := a.keyTail, balance := a.balance, nonce := a.nonce));
    Widths();
    GetPut(a.aliasId, 4);
  }

  lemma FullBack(a: Account, prev: Account, rest: seq<byte>)
    requires Fits(a) && !IsEmpty(a)
    ensures Read(Write(Full, a) + rest, prev) == Got(a, |Write(Full, a)|)
  {
    assert (Write(Full, a) + rest)[1..57] == WriteAll(a);
    AllBack(a, prev);
  }

  lemma TransferBack(a: Account, prev: Account, rest: seq<byte>)
    requires Fits(a) && !IsEmpty(a)
    ensures Read(Write(Transfer, a) + rest, prev) == Got(Patch(Transfer, a, prev), |Write(Transfer, a)|)
  {
    var s := Write(Transfer, a) + rest;
    assert s[1..11] == WriteBalanceNonce(a) && s[11..29] == WriteXfer(a);
    BalanceNonceBack(a, prev);
    XferBack(a, prev.(balance := a.balance, nonce := a.nonce));
  }

  /** Reading back what was written is the mode's patch, and consumes the whole record. */
  lemma RecordMeans(mode: SerMode, a: Account, prev: Account, rest: seq<byte>)
    requires Fits(a)
    ensures Read(Write(mode, a) + rest, prev) == Got(Patch(mode, a, prev), |Write(mode, a)|)
  {
    if !IsEmpty(a) {
      match mode
      case Full => FullBack(a, prev, rest);
      case BalanceNonce =>
        assert (Write(mode, a) + rest)[1..11] == WriteBalanceNonce(a);
        BalanceNonceBack(a, prev);
      case Transfer => TransferBack(a, prev, rest);
      case Erased =>
    }
  }
}
