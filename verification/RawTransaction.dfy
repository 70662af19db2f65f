/** EIP-155 legacy transfers (src/raw_transaction.rs): from hex text to a ledger
    transaction and back to its embedded proof. Key recovery is foreign code. */
module RawTransaction {
  import opened Basics
  import opened Bytes
  import opened Messages
  import opened Ledger
  import opened Rlp

  // ---------- Hex ----------

  function HexChar(n: nat): char
    requires n < 16
  {
    if n < 10 then ('0' as int + n) as char else ('a' as int + (n - 10)) as char
  }

  function HexEncode(bytes: seq<byte>): string {
    if bytes == [] then "" else [HexChar(bytes[0] / 16), HexChar(bytes[0] % 16)] + HexEncode(bytes[1..])
  }

  function HexValue(c: char): (r: Option<nat>)
    ensures r.Some? ==> r.value < 16
  {
    if '0' <= c <= '9' then Some(c as int - '0' as int)
    else if 'a' <= c <= 'f' then Some(c as int - 'a' as int + 10)
    else if 'A' <= c <= 'F' then Some(c as int - 'A' as int + 10)
    else None
  }

  function HexDecode(text: string): Option<seq<byte>> {
    if text == "" then Some([])
    else if |text| == 1 then None
    else
      var high, low, rest := HexValue(text[0]), HexValue(text[1]), HexDecode(text[2..]);
      if high.None? || low.None? || rest.None? then None
      else Some([16 * high.value + low.value] + rest.value)
  }

  lemma {:induction false} HexRoundTrip(bytes: seq<byte>)
    ensures HexDecode(HexEncode(bytes)) == Some(bytes)
  {
    if bytes != [] {
      HexRoundTrip(bytes[1..]);
      assert HexEncode(bytes)[2..] == HexEncode(bytes[1..]);
      assert bytes == [bytes[0]] + bytes[1..];
    }
  }

  function LowerText(text: string): string {
    if text == "" then "" else [Lower(text[0])] + LowerText(text[1..])
  }

  lemma DigitIff(c: char, n: nat)
    requires n < 16
    ensures HexValue(c) == Some(n) <==> Lower(c) == HexChar(n)
  {
  }

  lemma LowerPair(text: string)
    requires |text| >= 2
    ensures LowerText(text) == [Lower(text[0]), Lower(text[1])] + LowerText(text[2..])
  {
    assert text[1..][1..] == text[2..];
  }

  /** Text decodes to bytes exactly when it is their encoding up to the case of its letters. */
  lemma {:induction false} HexDecodesIff(text: string, bytes: seq<byte>)
    ensures HexDecode(text) == Some(bytes) <==> LowerText(text) == HexEncode(bytes)
    decreases |text|
  {
    if |text| >= 2 {
      LowerPair(text);
      if bytes != [] {
        HexDecodesIff(text[2..], bytes[1..]);
        DigitIff(text[0], bytes[0] / 16);
        DigitIff(text[1], bytes[0] % 16);
        PairIff(text, bytes);
      }
    } else if |text| == 1 {
      assert LowerText(text[1..]) == "";
    }
  }

  lemma PairIff(text: string, bytes: seq<byte>)
    requires |text| >= 2 && bytes != []
    requires HexDecode(text[2..]) == Some(bytes[1..]) <==> LowerText(text[2..]) == HexEncode(bytes[1..])
    requires HexValue(text[0]) == Some(bytes[0] / 16) <==> Lower(text[0]) == HexChar(bytes[0] / 16)
    requires HexValue(text[1]) == Some(bytes[0] % 16) <==> Lower(text[1]) == HexChar(bytes[0] % 16)
    requires LowerText(text) == [Lower(text[0]), Lower(text[1])] + LowerText(text[2..])
    ensures HexDecode(text) == Some(bytes) <==> LowerText(text) == HexEncode(bytes)
  {
    DecodeStep(text, bytes);
    SamePair(Lower(text[0]), Lower(text[1]), LowerText(text[2..]), HexChar(bytes[0] / 16), HexChar(bytes[0] % 16),
             HexEncode(bytes[1..]));
  }

  lemma DecodeStep(text: string, bytes: seq<byte>)
    requires |text| >= 2 && bytes != []
    ensures HexDecode(text) == Some(bytes) <==>
      && HexValue(text[0]) == Some(bytes[0] / 16) && HexValue(text[1]) == Some(bytes[0] % 16)
      && HexDecode(text[2..]) == Some(bytes[1..])
  {
    assert bytes == [bytes[0]] + bytes[1..];
    if HexDecode(text).Some? {
      var value, high, low := HexDecode(text).value, HexValue(text[0]).value, HexValue(text[1]).value;
      assert value[0] == 16 * high + low && value[1..] == HexDecode(text[2..]).value;
      assert value[0] / 16 == high && value[0] % 16 == low;
    }
  }

  lemma SamePair(a: char, b: char, rest: string, c: char, d: char, more: string)
    ensures [a, b] + rest == [c, d] + more <==> a == c && b == d && rest == more
  {
    var x, y := [a, b] + rest, [c, d] + more;
    assert x[0] == a && x[1] == b && x[2..] == rest && y[0] == c && y[1] == d && y[2..] == more;
  }

  /** Encoded bytes never look like they carry a `0x` prefix. */
  lemma HexHasNoPrefix(bytes: seq<byte>)
    ensures TrimHexPrefix(HexEncode(bytes)) == HexEncode(bytes)
  {
    var text := HexEncode(bytes);
    if bytes != [] {
      assert text[1] == HexChar(bytes[0] % 16) != 'x';
      assert text[..2][1] == text[1];
    }
  }

  // ---------- Legacy transactions ----------

  /** `scalars` is `Signature::from_scalars`; `address` recovers the sender's 20 bytes from
      the signed bytes, r, s and the recovery id. */
  datatype Recovery = Recovery(
    scalars: (seq<byte>, seq<byte>) -> bool,
    address: (seq<byte>, seq<byte>, seq<byte>, nat) -> Option<seq<byte>>)

  datatype RawError =
    | BadHex | BadRlp(rlp: RlpError) | FieldCount | NumberRange | BadRecipient | CallData
    | NoChainId | WrongChain | ScalarRange | BadScalars | Unrecoverable | FeeRange
    | NoMarker | FieldsDiffer

  /** What the sender signs. */
  datatype Order = Order(nonce: u64, gasPrice: u64, gasLimit: u64, to: seq<byte>, amount: u128)

  /** The first six fields of every legacy transaction. */
  function OrderItems(o: Order): seq<seq<byte>>
    requires |o.to| == 20
  {
    [EncodeUint(o.nonce, 8), EncodeUint(o.gasPrice, 8), EncodeUint(o.gasLimit, 8), EncodeBytes(o.to),
     EncodeUint(o.amount, 16), EncodeBytes([])]
  }

  function OrderFields(o: Order): seq<seq<byte>> {
    [Minimal(o.nonce), Minimal(o.gasPrice), Minimal(o.gasLimit), o.to, Minimal(o.amount), []]
  }

  lemma OrderItemsAreBytes(o: Order)
    requires |o.to| == 20
    ensures Small(OrderFields(o))
    ensures OrderItems(o) == EncodeAll(OrderFields(o))
  {
    Spans();
    EncodeUintIsBytes(o.nonce, 8);
    EncodeUintIsBytes(o.gasPrice, 8);
    EncodeUintIsBytes(o.gasLimit, 8);
    EncodeUintIsBytes(o.amount, 16);
  }

  predicate Small(items: seq<seq<byte>>) {
    forall i :: 0 <= i < |items| ==> |items[i]| <= 32
  }

  lemma SmallFit(fields: seq<seq<byte>>)
    requires |fields| == 9 && Small(fields)
    ensures |Flatten(EncodeAll(fields))| <= 297
    ensures |EncodeList(EncodeAll(fields))| <= 306
  {
    FlattenBound(EncodeAll(fields), 33);
    DropZerosShorter(BigEndian(|Flatten(EncodeAll(fields))|, 8));
  }

  lemma EncodeAllConcat(a: seq<seq<byte>>, b: seq<seq<byte>>)
    requires Small(a) && Small(b)
    ensures Small(a + b) && EncodeAll(a + b) == EncodeAll(a) + EncodeAll(b)
  {
  }

  /** What goes into the digest: the order, the chain id and two empty strings. */
  function SigningBytes(o: Order, chainId: u64): seq<byte>
    requires |o.to| == 20
  {
    SigningFields(o, chainId);
    EncodeList(OrderItems(o) + [EncodeUint(chainId, 8), EncodeBytes([]), EncodeBytes([])])
  }

  lemma SigningFields(o: Order, chainId: u64)
    requires |o.to| == 20
    ensures var fields := OrderFields(o) + [Minimal(chainId), [], []];
      && Small(fields)
      && OrderItems(o) + [EncodeUint(chainId, 8), EncodeBytes([]), EncodeBytes([])] == EncodeAll(fields)
      && |Flatten(EncodeAll(fields))| <= 297
  {
    Spans();
    OrderItemsAreBytes(o);
    EncodeUintIsBytes(chainId, 8);
    var tail := [Minimal(chainId), [], []];
    assert EncodeAll(tail) == [EncodeUint(chainId, 8), EncodeBytes([]), EncodeBytes([])];
    EncodeAllConcat(OrderFields(o), tail);
    SmallFit(OrderFields(o) + tail);
  }

  function PadScalar(value: seq<byte>): (r: Option<seq<byte>>)
    ensures r.Some? <==> |value| <= 32
    ensures r.Some? ==> |r.value| == 32 && r.value[32 - |value|..] == value
  {
    if |value| > 32 then None else Some(seq(32 - |value|, i => 0) + value)
  }

  const MARKER: string := "ethraw:"

  /** The transaction once all fields have been read. */
  function Assemble(k: Recovery, raw: seq<byte>, o: Order, chainId: u64, parity: nat, r: seq<byte>,
                    s: seq<byte>): (tx: Result<Transaction, RawError>)
    requires |o.to| == 20
    ensures tx.Ok? ==> tx.value.signature == MARKER + HexEncode(raw)
  {
    if |r| > 32 || |s| > 32 then Err(ScalarRange)
    else
      var r32, s32 := PadScalar(r).value, PadScalar(s).value;
      if !k.scalars(r32, s32) then Err(BadScalars)
      else
        match k.address(SigningBytes(o, chainId), r32, s32, parity)
        case None => Err(Unrecoverable)
        case Some(sender) =>
          if o.gasPrice * o.gasLimit > U128_MAX then Err(FeeRange)
          else Ok(Transaction("0x" + HexEncode(sender), "0x" + HexEncode(o.to), o.amount, o.gasPrice * o.gasLimit,
                              o.nonce, MARKER + HexEncode(raw)))
  }

  function ReadU64(value: seq<byte>): (r: Option<u64>) {
    Spans();
    ReadUint(value, 8)
  }

  function ReadU128(value: seq<byte>): (r: Option<u128>) {
    Spans();
    ReadUint(value, 16)
  }

  function FromFields(k: Recovery, raw: seq<byte>, f: seq<seq<byte>>, chainId: u64): (tx: Result<Transaction, RawError>)
    requires |f| == 9
    ensures tx.Ok? ==> tx.value.signature == MARKER + HexEncode(raw)
  {
    if ReadU64(f[0]).None? || ReadU64(f[1]).None? || ReadU64(f[2]).None? then Err(NumberRange)
    else if |f[3]| != 20 then Err(BadRecipient)
    else if ReadU128(f[4]).None? then Err(NumberRange)
    else if f[5] != [] then Err(CallData)
    else if ReadU64(f[6]).None? then Err(NumberRange)
    else
      var v := ReadU64(f[6]).value;
      if v < 35 then Err(NoChainId)
      else if (v - 35) / 2 != chainId then Err(WrongChain)
      else
        var o := Order(ReadU64(f[0]).value, ReadU64(f[1]).value, ReadU64(f[2]).value, f[3], ReadU128(f[4]).value);
        Assemble(k, raw, o, chainId, (v - 35) % 2, f[7], f[8])
  }

  function FromBytes(k: Recovery, raw: seq<byte>, chainId: u64): Result<Transaction, RawError> {
    match Decoded(raw)
    case Err(e) => Err(BadRlp(e))
    case Ok(f) => if |f| != 9 then Err(FieldCount) else FromFields(k, raw, f, chainId)
  }

  function DecodeLegacy(k: Recovery, text: string, chainId: u64): Result<Transaction, RawError> {
    match HexDecode(TrimHexPrefix(text))
    case None => Err(BadHex)
    case Some(raw) => FromBytes(k, raw, chainId)
  }

  function VerifyEmbedded(k: Recovery, tx: Transaction, chainId: u64): Result<(), RawError> {
    if |tx.signature| < |MARKER| || tx.signature[..|MARKER|] != MARKER then Err(NoMarker)
    else
      var text := tx.signature[|MARKER|..];
      match HexDecode(text)
      case None => Err(BadHex)
      case Some(raw) =>
        match Decoded(raw)
        case Err(e) => Err(BadRlp(e))
        case Ok(f) =>
          if |f| != 9 then Err(FieldCount)
          else if ReadU64(f[6]).None? then Err(NumberRange)
          else if ReadU64(f[6]).value < 35 then Err(NoChainId)
          else
            match DecodeLegacy(k, text, chainId)
            case Err(e) => Err(e)
            case Ok(decoded) => if decoded == tx then Ok(()) else Err(FieldsDiffer)
  }

  lemma {:induction false} FlattenBound(items: seq<seq<byte>>, bound: nat)
    requires forall i :: 0 <= i < |items| ==> |items[i]| <= bound
    ensures |Flatten(items)| <= |items| * bound
  {
    if items != [] {
      FlattenBound(items[1..], bound);
    }
  }

  // ---------- What is accepted ----------

  /** The nine fields are an order for this chain without call data, with an EIP-155 v of 35
      or 36 plus twice the chain id, and r and s from which the sender can be recovered. */
  ghost predicate SignedOrder(k: Recovery, f: seq<seq<byte>>, o: Order, chainId: u64, parity: nat, sender: seq<byte>) {
    && |f| == 9 && |f[0]| <= 8 && |f[1]| <= 8 && |f[2]| <= 8 && |f[4]| <= 16 && |f[6]| <= 8
    && Value(f[0]) == o.nonce && Value(f[1]) == o.gasPrice && Value(f[2]) == o.gasLimit
    && f[3] == o.to && |o.to| == 20 && Value(f[4]) == o.amount && f[5] == []
    && parity < 2 && Value(f[6]) == 35 + 2 * chainId + parity
    && |f[7]| <= 32 && |f[8]| <= 32
    && var r, s := PadScalar(f[7]).value, PadScalar(f[8]).value;
    k.scalars(r, s) && k.address(SigningBytes(o, chainId), r, s, parity) == Some(sender)
  }

  function LedgerForm(o: Order, sender: seq<byte>, raw: seq<byte>): Transaction {
    Transaction("0x" + HexEncode(sender), "0x" + HexEncode(o.to), o.amount, Fee(o), o.nonce, MARKER + HexEncode(raw))
  }

  lemma ReadIs(value: seq<byte>)
    ensures ReadU64(value).Some? <==> |value| <= 8
    ensures ReadU64(value).Some? ==> ReadU64(value).value == Value(value)
    ensures ReadU128(value).Some? <==> |value| <= 16
    ensures ReadU128(value).Some? ==> ReadU128(value).value == Value(value)
  {
  }

  lemma SignedIsAccepted(k: Recovery, raw: seq<byte>, f: seq<seq<byte>>, o: Order, chainId: u64, parity: nat,
                         sender: seq<byte>)
    requires SignedOrder(k, f, o, chainId, parity, sender)
    ensures FromFields(k, raw, f, chainId) == Ok(LedgerForm(o, sender, raw))
  {
    FeeFits(o);
    ReadFields(f);
    assert (Value(f[6]) - 35) / 2 == chainId && (Value(f[6]) - 35) % 2 == parity;
  }

  lemma ReadFields(f: seq<seq<byte>>)
    requires |f| == 9
    ensures ReadU64(f[0]).Some? <==> |f[0]| <= 8
    ensures ReadU64(f[1]).Some? <==> |f[1]| <= 8
    ensures ReadU64(f[2]).Some? <==> |f[2]| <= 8
    ensures ReadU128(f[4]).Some? <==> |f[4]| <= 16
    ensures ReadU64(f[6]).Some? <==> |f[6]| <= 8
  {
    ReadIs(f[0]);
    ReadIs(f[1]);
    ReadIs(f[2]);
    ReadIs(f[4]);
    ReadIs(f[6]);
  }

  lemma AcceptedIsSigned(k: Recovery, raw: seq<byte>, f: seq<seq<byte>>, chainId: u64)
    returns (o: Order, parity: nat, sender: seq<byte>)
    requires |f| == 9 && FromFields(k, raw, f, chainId).Ok?
    ensures SignedOrder(k, f, o, chainId, parity, sender)
    ensures FromFields(k, raw, f, chainId) == Ok(LedgerForm(o, sender, raw))
  {
    ReadFields(f);
    o := Order(Value(f[0]), Value(f[1]), Value(f[2]), f[3], Value(f[4]));
    parity := (Value(f[6]) - 35) % 2;
    var r, s := PadScalar(f[7]).value, PadScalar(f[8]).value;
    sender := k.address(SigningBytes(o, chainId), r, s, parity).value;
  }

  /** A `0x` in front of the text makes no difference. */
  lemma PrefixIgnored(k: Recovery, text: string, chainId: u64)
    ensures DecodeLegacy(k, "0x" + text, chainId) == DecodeLegacy(k, text, chainId)
  {
    assert ("0x" + text)[2..] == text;
  }

  /** Raw bytes are accepted as a transaction exactly when their fields are a signed order for
      this chain that reads as that transaction; call data, a contract creation, a wrong or
      missing chain id, oversized numbers and bad signatures are all refused. */
  lemma AcceptedIff(k: Recovery, raw: seq<byte>, chainId: u64, tx: Transaction)
    ensures FromBytes(k, raw, chainId) == Ok(tx) <==>
      && Decoded(raw).Ok?
      && (exists o, parity, sender ::
            SignedOrder(k, Decoded(raw).value, o, chainId, parity, sender) && tx == LedgerForm(o, sender, raw))
  {
    if Decoded(raw).Ok? {
      var f := Decoded(raw).value;
      if FromBytes(k, raw, chainId) == Ok(tx) {
        var o, parity, sender := AcceptedIsSigned(k, raw, f, chainId);
      }
      if o, parity, sender :| SignedOrder(k, f, o, chainId, parity, sender) && tx == LedgerForm(o, sender, raw) {
        SignedIsAccepted(k, raw, f, o, chainId, parity, sender);
      }
    }
  }

  // ---------- Embedded proofs ----------

  lemma DecodedShape(k: Recovery, raw: seq<byte>, chainId: u64)
    requires FromBytes(k, raw, chainId).Ok?
    ensures FromBytes(k, raw, chainId).value.signature == MARKER + HexEncode(raw)
    ensures Decoded(raw).Ok? && |Decoded(raw).value| == 9
    ensures ReadU64(Decoded(raw).value[6]).Some? && ReadU64(Decoded(raw).value[6]).value >= 35
  {
  }

  lemma DecodedPasses(k: Recovery, text: string, chainId: u64)
    requires DecodeLegacy(k, text, chainId).Ok?
    ensures VerifyEmbedded(k, DecodeLegacy(k, text, chainId).value, chainId) == Ok(())
  {
    var raw := HexDecode(TrimHexPrefix(text)).value;
    var tx := DecodeLegacy(k, text, chainId).value;
    DecodedShape(k, raw, chainId);
    HexRoundTrip(raw);
    HexHasNoPrefix(raw);
    assert tx.signature[..|MARKER|] == MARKER && tx.signature[|MARKER|..] == HexEncode(raw);
  }

  lemma ProofText(k: Recovery, tx: Transaction, chainId: u64) returns (text: string)
    requires VerifyEmbedded(k, tx, chainId) == Ok(())
    ensures DecodeLegacy(k, text, chainId) == Ok(tx)
  {
    text := tx.signature[|MARKER|..];
  }

  /** A ledger transaction carries a valid embedded proof for a chain exactly when it is what
      some raw text decodes to on that chain. */
  lemma EmbeddedIff(k: Recovery, tx: Transaction, chainId: u64)
    ensures VerifyEmbedded(k, tx, chainId) == Ok(())
       <==> exists text :: DecodeLegacy(k, text, chainId) == Ok(tx)
  {
    if VerifyEmbedded(k, tx, chainId) == Ok(()) {
      var text := ProofText(k, tx, chainId);
    }
    if text :| DecodeLegacy(k, text, chainId) == Ok(tx) {
      DecodedPasses(k, text, chainId);
    }
  }

  /** A proof is good for one chain only. */
  lemma OneChainOnly(k: Recovery, tx: Transaction, a: u64, b: u64)
    requires VerifyEmbedded(k, tx, a) == Ok(()) && VerifyEmbedded(k, tx, b) == Ok(())
    ensures a == b
  {
  }

  // ---------- What a wallet sends ----------

  /** The raw bytes of a signed order: the order, v, r and s. */
  function WalletBytes(o: Order, v: u64, r: seq<byte>, s: seq<byte>): seq<byte>
    requires |o.to| == 20 && |r| <= 32 && |s| <= 32
  {
    WalletFields(o, v, r, s);
    EncodeList(OrderItems(o) + [EncodeUint(v, 8), EncodeBytes(r), EncodeBytes(s)])
  }

  lemma WalletFields(o: Order, v: u64, r: seq<byte>, s: seq<byte>)
    requires |o.to| == 20 && |r| <= 32 && |s| <= 32
    ensures var fields := OrderFields(o) + [Minimal(v), r, s];
      && Small(fields)
      && OrderItems(o) + [EncodeUint(v, 8), EncodeBytes(r), EncodeBytes(s)] == EncodeAll(fields)
      && |Flatten(EncodeAll(fields))| <= 297
  {
    Spans();
    OrderItemsAreBytes(o);
    EncodeUintIsBytes(v, 8);
    var tail := [Minimal(v), r, s];
    assert EncodeAll(tail) == [EncodeUint(v, 8), EncodeBytes(r), EncodeBytes(s)];
    EncodeAllConcat(OrderFields(o), tail);
    SmallFit(OrderFields(o) + tail);
  }

  lemma ReadMinimal(value: nat, width: nat)
    requires value < Span(width)
    ensures ReadUint(Minimal(value), width) == Some(value)
  {
    MinimalShape(value, width);
    ValueOfMinimal(value);
  }

  lemma FieldsReadBack(k: Recovery, raw: seq<byte>, f: seq<seq<byte>>, o: Order, v: u64, chainId: u64)
    requires |f| == 9 && f[3] == o.to && |o.to| == 20 && f[5] == []
    requires ReadUint(f[0], 8) == Some(o.nonce) && ReadUint(f[1], 8) == Some(o.gasPrice)
      && ReadUint(f[2], 8) == Some(o.gasLimit)
    requires ReadUint(f[4], 16) == Some(o.amount) && ReadUint(f[6], 8) == Some(v)
    requires v >= 35 && (v - 35) / 2 == chainId
    ensures FromFields(k, raw, f, chainId) == Assemble(k, raw, o, chainId, (v - 35) % 2, f[7], f[8])
  {
  }

  lemma OrderReadsBack(o: Order, v: u64, tail: seq<seq<byte>>)
    ensures var f := OrderFields(o) + ([Minimal(v)] + tail);
      && ReadUint(f[0], 8) == Some(o.nonce) && ReadUint(f[1], 8) == Some(o.gasPrice)
        && ReadUint(f[2], 8) == Some(o.gasLimit)
      && ReadUint(f[4], 16) == Some(o.amount) && ReadUint(f[6], 8) == Some(v)
  {
    var f := OrderFields(o) + ([Minimal(v)] + tail);
    Spans();
    ReadMinimal(o.nonce, 8);
    ReadMinimal(o.gasPrice, 8);
    ReadMinimal(o.gasLimit, 8);
    ReadMinimal(o.amount, 16);
    ReadMinimal(v, 8);
    assert f[0] == Minimal(o.nonce) && f[1] == Minimal(o.gasPrice) && f[2] == Minimal(o.gasLimit);
    assert f[4] == Minimal(o.amount) && f[6] == Minimal(v);
  }

  lemma WalletDecodes(k: Recovery, o: Order, v: u64, r: seq<byte>, s: seq<byte>, chainId: u64)
    requires |o.to| == 20 && |r| <= 32 && |s| <= 32 && v >= 35 && (v - 35) / 2 == chainId
    ensures var raw := WalletBytes(o, v, r, s);
      FromBytes(k, raw, chainId) == Assemble(k, raw, o, chainId, (v - 35) % 2, r, s)
  {
    var raw := WalletBytes(o, v, r, s);
    var fields := OrderFields(o) + [Minimal(v), r, s];
    WalletFields(o, v, r, s);
    SmallFit(fields);
    ListRoundTrip(fields);
    OrderReadsBack(o, v, [r, s]);
    assert [Minimal(v), r, s] == [Minimal(v)] + [r, s];
    FieldsReadBack(k, raw, fields, o, v, chainId);
  }

  lemma HexDecodes(k: Recovery, raw: seq<byte>, chainId: u64)
    ensures DecodeLegacy(k, HexEncode(raw), chainId) == FromBytes(k, raw, chainId)
  {
    HexRoundTrip(raw);
    HexHasNoPrefix(raw);
  }

  lemma FeeFits(o: Order)
    ensures o.gasPrice * o.gasLimit <= U128_MAX
  {
    assert o.gasPrice * o.gasLimit <= U64_MAX * o.gasLimit <= U64_MAX * U64_MAX;
  }

  function Fee(o: Order): u128 {
    FeeFits(o);
    o.gasPrice * o.gasLimit
  }

  lemma Assembled(k: Recovery, raw: seq<byte>, o: Order, chainId: u64, parity: nat, r: seq<byte>, s: seq<byte>,
                  sender: seq<byte>)
    requires |o.to| == 20 && |r| <= 32 && |s| <= 32
    requires k.scalars(PadScalar(r).value, PadScalar(s).value)
    requires k.address(SigningBytes(o, chainId), PadScalar(r).value, PadScalar(s).value, parity) == Some(sender)
    ensures Assemble(k, raw, o, chainId, parity, r, s)
        == Ok(Transaction("0x" + HexEncode(sender), "0x" + HexEncode(o.to), o.amount, Fee(o), o.nonce,
                          MARKER + HexEncode(raw)))
  {
    FeeFits(o);
  }

  /** Whatever order a wallet signs for a chain, the node reads back the same nonce,
      recipient, amount and fee and recovers the sender from the same signed bytes. The fee
      product always fits. */
  lemma WalletRoundTrip(k: Recovery, o: Order, chainId: u64, parity: nat, r: seq<byte>, s: seq<byte>, sender: seq<byte>)
    requires |o.to| == 20 && |r| <= 32 && |s| <= 32 && parity < 2 && 35 + 2 * chainId + parity <= U64_MAX
    requires k.scalars(PadScalar(r).value, PadScalar(s).value)
    requires k.address(SigningBytes(o, chainId), PadScalar(r).value, PadScalar(s).value, parity) == Some(sender)
    ensures var raw := WalletBytes(o, 35 + 2 * chainId + parity, r, s);
      DecodeLegacy(k, HexEncode(raw), chainId)
        == Ok(Transaction("0x" + HexEncode(sender), "0x" + HexEncode(o.to), o.amount, Fee(o), o.nonce,
                          MARKER + HexEncode(raw)))
  {
    var v := 35 + 2 * chainId + parity;
    assert (v - 35) / 2 == chainId && (v - 35) % 2 == parity;
    var raw := WalletBytes(o, v, r, s);
    WalletDecodes(k, o, v, r, s, chainId);
    HexDecodes(k, raw, chainId);
    Assembled(k, raw, o, chainId, parity, r, s, sender);
  }

  /** The signed bytes determine the order and the chain, so a signature cannot be carried
      over to another order or another chain. */
  lemma SigningBytesInjective(o: Order, a: u64, p: Order, b: u64)
    requires |o.to| == 20 == |p.to| && SigningBytes(o, a) == SigningBytes(p, b)
    ensures o == p && a == b
  {
    var x, y := OrderFields(o) + [Minimal(a), [], []], OrderFields(p) + [Minimal(b), [], []];
    SigningFields(o, a);
    SigningFields(p, b);
    SmallFit(x);
    SmallFit(y);
    ListRoundTrip(x);
    ListRoundTrip(y);
    SameFields(x, o, a, p, b);
  }

  lemma MinimalInjective(a: nat, b: nat)
    requires Minimal(a) == Minimal(b)
    ensures a == b
  {
    ValueOfMinimal(a);
    ValueOfMinimal(b);
  }

  lemma FieldsOf(f: seq<seq<byte>>, o: Order, a: u64)
    requires f == OrderFields(o) + [Minimal(a), [], []]
    ensures |f| == 9 && f[3] == o.to
    ensures f[0] == Minimal(o.nonce) && f[1] == Minimal(o.gasPrice) && f[2] == Minimal(o.gasLimit)
    ensures f[4] == Minimal(o.amount) && f[6] == Minimal(a)
  {
  }

  lemma SameFields(f: seq<seq<byte>>, o: Order, a: u64, p: Order, b: u64)
    requires f == OrderFields(o) + [Minimal(a), [], []] && f == OrderFields(p) + [Minimal(b), [], []]
    ensures o == p && a == b
  {
    FieldsOf(f, o, a);
    FieldsOf(f, p, b);
    MinimalInjective(o.nonce, p.nonce);
    MinimalInjective(o.gasPrice, p.gasPrice);
    MinimalInjective(o.gasLimit, p.gasLimit);
    MinimalInjective(o.amount, p.amount);
    MinimalInjective(a, b);
  }
}
