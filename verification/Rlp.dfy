/** The RLP codec (src/raw_transaction.rs, Appendix B of the Ethereum Yellow Paper) over
    byte strings, with `usize` of 64 bits. */
module Rlp {
  import opened Basics
  import opened Bytes

  datatype RlpError = EmptyInput | BadLengthField | WrongKind | LengthOverflow | TooShort | TrailingBytes

  // ---------- Decoding ----------

  datatype Header = Header(isList: bool, start: nat, length: nat)
  datatype Item = Item(payload: seq<byte>, end: nat)

  function ReadLength(input: seq<byte>, start: nat, width: nat): Result<nat, RlpError> {
    if width == 0 || width > 8 || start + width > |input| then Err(BadLengthField)
    else Ok(Value(input[start..start + width]))
  }

  function ReadHeader(input: seq<byte>): Result<Header, RlpError> {
    if input == [] then Err(EmptyInput)
    else
      var prefix := input[0];
      if prefix <= 0x7f then Ok(Header(false, 0, 1))
      else if prefix <= 0xb7 then Ok(Header(false, 1, prefix - 0x80))
      else if prefix <= 0xbf then LongHeader(input, false, prefix - 0xb7)
      else if prefix <= 0xf7 then Ok(Header(true, 1, prefix - 0xc0))
      else LongHeader(input, true, prefix - 0xf7)
  }

  function LongHeader(input: seq<byte>, isList: bool, width: nat): Result<Header, RlpError> {
    match ReadLength(input, 1, width)
    case Err(e) => Err(e)
    case Ok(length) => Ok(Header(isList, 1 + width, length))
  }

  /** Every decoded item consumes at least one byte and no more than there are. */
  function DecodeItem(input: seq<byte>, requireList: bool): (r: Result<Item, RlpError>)
    ensures r.Ok? ==> 0 < r.value.end <= |input| && |r.value.payload| <= r.value.end
  {
    match ReadHeader(input)
    case Err(e) => Err(e)
    case Ok(h) =>
      if requireList != h.isList then Err(WrongKind)
      else if h.start + h.length > U64_MAX then Err(LengthOverflow)
      else if h.start + h.length > |input| then Err(TooShort)
      else Ok(Item(input[h.start..h.start + h.length], h.start + h.length))
  }

  function DecodeFields(payload: seq<byte>): Result<seq<seq<byte>>, RlpError>
    decreases |payload|
  {
    if payload == [] then Ok([])
    else
      match DecodeItem(payload, false)
      case Err(e) => Err(e)
      case Ok(item) =>
        match DecodeFields(payload[item.end..])
        case Err(e) => Err(e)
        case Ok(fields) => Ok([item.payload] + fields)
  }

  function Decoded(input: seq<byte>): Result<seq<seq<byte>>, RlpError> {
    match DecodeItem(input, true)
    case Err(e) => Err(e)
    case Ok(list) => if list.end != |input| then Err(TrailingBytes) else DecodeFields(list.payload)
  }

  function Prefixed(fields: seq<seq<byte>>, r: Result<seq<seq<byte>>, RlpError>): Result<seq<seq<byte>>, RlpError> {
    if r.Err? then r else Ok(fields + r.value)
  }

  lemma PrefixedByNothing(r: Result<seq<seq<byte>>, RlpError>)
    ensures Prefixed([], r) == r
  {
    assert r.Ok? ==> [] + r.value == r.value;
  }

  lemma FieldsStep(payload: seq<byte>, offset: nat, fields: seq<seq<byte>>)
    requires offset < |payload|
    ensures var item := DecodeItem(payload[offset..], false);
      Prefixed(fields, DecodeFields(payload[offset..])) ==
        if item.Err? then Err(item.error)
        else Prefixed(fields + [item.value.payload], DecodeFields(payload[offset + item.value.end..]))
  {
    var item := DecodeItem(payload[offset..], false);
    if item.Ok? {
      var x, end := item.value.payload, item.value.end;
      assert payload[offset..][end..] == payload[offset + end..];
      var rest := DecodeFields(payload[offset + end..]);
      if rest.Ok? {
        assert fields + ([x] + rest.value) == (fields + [x]) + rest.value;
      }
    }
  }

  /** `decode_list`: the offset grows on every turn, so the loop ends. */
  method DecodeList(input: seq<byte>) returns (r: Result<seq<seq<byte>>, RlpError>)
    ensures r == Decoded(input)
  {
    var list := DecodeItem(input, true);
    if list.Err? {
      return Err(list.error);
    }
    if list.value.end != |input| {
      return Err(TrailingBytes);
    }
    var payload := list.value.payload;
    var fields: seq<seq<byte>> := [];
    var offset := 0;
    assert payload[0..] == payload;
    PrefixedByNothing(DecodeFields(payload));
    while offset < |payload|
      invariant 0 <= offset <= |payload|
      invariant DecodeFields(payload) == Prefixed(fields, DecodeFields(payload[offset..]))
    {
      var item := DecodeItem(payload[offset..], false);
      FieldsStep(payload, offset, fields);
      if item.Err? {
        return Err(item.error);
      }
      fields := fields + [item.value.payload];
      offset := offset + item.value.end;
    }
    assert payload[offset..] == [] && fields + [] == fields;
    r := Ok(fields);
  }

  // ---------- Encoding ----------

  function DropZeros(s: seq<byte>): seq<byte> {
    if s != [] && s[0] == 0 then DropZeros(s[1..]) else s
  }

  function EncodeLength(length: nat, shortBase: byte, longBase: byte): (s: seq<byte>)
    requires length <= U64_MAX && shortBase <= 0xc0 && longBase <= 0xf7
    ensures |s| >= 1
  {
    if length <= 55 then [shortBase + length]
    else
      var digits := DropZeros(BigEndian(length, 8));
      DropZerosShorter(BigEndian(length, 8));
      [longBase + |digits|] + digits
  }

  lemma {:induction false} DropZerosShorter(s: seq<byte>)
    ensures |DropZeros(s)| <= |s|
  {
    if s != [] && s[0] == 0 {
      DropZerosShorter(s[1..]);
    }
  }

  function EncodeBytes(value: seq<byte>): seq<byte>
    requires |value| <= U64_MAX
  {
    if |value| == 1 && value[0] < 0x80 then value else EncodeLength(|value|, 0x80, 0xb7) + value
  }

  function Flatten(items: seq<seq<byte>>): seq<byte> {
    if items == [] then [] else items[0] + Flatten(items[1..])
  }

  function EncodeList(items: seq<seq<byte>>): seq<byte>
    requires |Flatten(items)| <= U64_MAX
  {
    EncodeLength(|Flatten(items)|, 0xc0, 0xf7) + Flatten(items)
  }

  /** `encode_u64` and `encode_u128` with their width in bytes. */
  function EncodeUint(value: nat, width: nat): seq<byte>
    requires width <= 16
  {
    DropZerosShorter(BigEndian(value, width));
    if value == 0 then EncodeBytes([]) else EncodeBytes(DropZeros(BigEndian(value, width)))
  }

  /** `value_u64` and `value_u128`. */
  function ReadUint(value: seq<byte>, width: nat): (r: Option<nat>)
    ensures r.Some? ==> r.value < Span(width)
  {
    if |value| > width then None
    else
      ValueBound(value);
      SpanGrows(|value|, width);
      Some(Value(value))
  }

  lemma {:induction false} SpanGrows(a: nat, b: nat)
    requires a <= b
    ensures Span(a) <= Span(b)
    decreases b
  {
    if a < b {
      SpanGrows(a, b - 1);
    }
  }

  // ---------- Minimal digits ----------

  lemma {:induction false} DropZerosSnoc(s: seq<byte>, x: byte)
    ensures DropZeros(s + [x]) == if DropZeros(s) == [] then (if x == 0 then [] else [x]) else DropZeros(s) + [x]
  {
    if s == [] {
      assert s + [x] == [x] && [x][1..] == [];
    } else if s[0] == 0 {
      assert (s + [x])[1..] == s[1..] + [x];
      DropZerosSnoc(s[1..], x);
    }
  }

  lemma {:induction false} DroppedIsMinimal(value: nat, width: nat)
    requires value < Span(width)
    ensures DropZeros(BigEndian(value, width)) == Minimal(value)
  {
    if width > 0 {
      DroppedIsMinimal(value / 256, width - 1);
      DropZerosSnoc(BigEndian(value / 256, width - 1), value % 256);
      if value / 256 > 0 {
        MinimalShape(value / 256, width - 1);
      }
    }
  }

  /** A long length takes one to eight digits and reads back. */
  lemma LengthDigits(length: nat)
    requires 0 < length <= U64_MAX
    ensures var digits := DropZeros(BigEndian(length, 8));
      1 <= |digits| <= 8 && Value(digits) == length && digits[0] != 0
  {
    Spans();
    DroppedIsMinimal(length, 8);
    MinimalShape(length, 8);
    ValueOfMinimal(length);
  }

  // ---------- Round trips ----------

  lemma HeaderRoundTrip(length: nat, isList: bool, rest: seq<byte>)
    requires length <= U64_MAX
    ensures var head := EncodeLength(length, if isList then 0xc0 else 0x80, if isList then 0xf7 else 0xb7);
      ReadHeader(head + rest) == Ok(Header(isList, |head|, length))
  {
    if length > 55 {
      LengthDigits(length);
      var digits := DropZeros(BigEndian(length, 8));
      var head := EncodeLength(length, if isList then 0xc0 else 0x80, if isList then 0xf7 else 0xb7);
      assert (head + rest)[1..1 + |digits|] == digits;
      assert (head + rest)[0] == head[0];
    }
  }

  lemma BytesRoundTrip(value: seq<byte>, rest: seq<byte>)
    requires |value| <= U64_MAX && |EncodeBytes(value)| <= U64_MAX
    ensures DecodeItem(EncodeBytes(value) + rest, false) == Ok(Item(value, |EncodeBytes(value)|))
  {
    var all := EncodeBytes(value) + rest;
    if |value| == 1 && value[0] < 0x80 {
      assert all[0..1] == value;
    } else {
      var head := EncodeLength(|value|, 0x80, 0xb7);
      HeaderRoundTrip(|value|, false, value + rest);
      assert all == head + (value + rest);
      assert all[|head|..|head| + |value|] == value;
    }
  }

  predicate Fits(items: seq<seq<byte>>) {
    forall i :: 0 <= i < |items| ==> |items[i]| <= U64_MAX
  }

  function EncodeAll(items: seq<seq<byte>>): seq<seq<byte>>
    requires Fits(items)
  {
    seq(|items|, i requires 0 <= i < |items| => EncodeBytes(items[i]))
  }

  lemma {:induction false} FieldsRoundTrip(items: seq<seq<byte>>)
    requires Fits(items) && |Flatten(EncodeAll(items))| <= U64_MAX
    ensures DecodeFields(Flatten(EncodeAll(items))) == Ok(items)
  {
    if items != [] {
      var first, rest := EncodeBytes(items[0]), Flatten(EncodeAll(items[1..]));
      assert EncodeAll(items)[1..] == EncodeAll(items[1..]);
      assert Flatten(EncodeAll(items)) == first + rest;
      FieldsRoundTrip(items[1..]);
      BytesRoundTrip(items[0], rest);
      assert (first + rest)[|first|..] == rest;
      assert first != [];
      assert items == [items[0]] + items[1..];
    }
  }

  lemma ListItem(payload: seq<byte>)
    requires |payload| <= U64_MAX && |EncodeLength(|payload|, 0xc0, 0xf7)| + |payload| <= U64_MAX
    ensures var all := EncodeLength(|payload|, 0xc0, 0xf7) + payload;
      DecodeItem(all, true) == Ok(Item(payload, |all|))
  {
    var head := EncodeLength(|payload|, 0xc0, 0xf7);
    HeaderRoundTrip(|payload|, true, payload);
    assert (head + payload)[|head|..|head| + |payload|] == payload;
  }

  /** Decoding the list encoding of any byte strings gives them back, whenever the encoding
      fits in memory at all. */
  lemma ListRoundTrip(items: seq<seq<byte>>)
    requires Fits(items) && |Flatten(EncodeAll(items))| <= U64_MAX && |EncodeList(EncodeAll(items))| <= U64_MAX
    ensures Decoded(EncodeList(EncodeAll(items))) == Ok(items)
  {
    FieldsRoundTrip(items);
    Wrapped(Flatten(EncodeAll(items)));
  }

  lemma Wrapped(payload: seq<byte>)
    requires |payload| <= U64_MAX && |EncodeLength(|payload|, 0xc0, 0xf7)| + |payload| <= U64_MAX
    ensures Decoded(EncodeLength(|payload|, 0xc0, 0xf7) + payload) == DecodeFields(payload)
  {
    ListItem(payload);
  }

  /** Integers survive their minimal encoding, whatever follows it. */
  lemma UintRoundTrip(value: nat, width: nat, rest: seq<byte>)
    requires width <= 16 && value < Span(width)
    ensures var encoded := EncodeUint(value, width);
      && DecodeItem(encoded + rest, false) == Ok(Item(Minimal(value), |encoded|))
      && ReadUint(Minimal(value), width) == Some(value)
  {
    DroppedIsMinimal(value, width);
    MinimalShape(value, width);
    ValueOfMinimal(value);
    BytesRoundTrip(Minimal(value), rest);
  }

  lemma EncodeUintIsBytes(value: nat, width: nat)
    requires width <= 16 && value < Span(width)
    ensures |Minimal(value)| <= width && EncodeUint(value, width) == EncodeBytes(Minimal(value))
  {
    DroppedIsMinimal(value, width);
    MinimalShape(value, width);
  }

  // ---------- Which inputs are in canonical form ----------

  /** The shortest form was used: a small byte stands for itself, a long header only for a
      payload of more than 55 bytes, and its length has no leading zero. */
  predicate Canonical(input: seq<byte>)
    requires input != []
  {
    var prefix := input[0];
    && (prefix == 0x81 && |input| > 1 ==> input[1] >= 0x80)
    && (0xb8 <= prefix <= 0xbf && |input| > prefix - 0xb7 ==>
          input[1] != 0 && Value(input[1..1 + (prefix - 0xb7)]) > 55)
  }

  lemma {:induction false} MinimalOfValue(s: seq<byte>)
    requires s == [] || s[0] != 0
    ensures Minimal(Value(s)) == s
  {
    if s != [] {
      var front := s[..|s| - 1];
      MinimalOfValue(front);
      if front != [] {
        ValuePositive(front);
      }
    }
  }

  lemma {:induction false} ValuePositive(s: seq<byte>)
    requires s != [] && s[0] != 0
    ensures Value(s) > 0
  {
    if |s| > 1 {
      ValuePositive(s[..|s| - 1]);
    }
  }

  lemma LongForm(digits: seq<byte>)
    requires 1 <= |digits| <= 8 && Value(digits) <= U64_MAX
    ensures EncodeLength(Value(digits), 0x80, 0xb7) == [0xb7 + |digits|] + digits
       <==> digits[0] != 0 && Value(digits) > 55
  {
    var length := Value(digits);
    if length > 55 {
      LengthDigits(length);
      Spans();
      DroppedIsMinimal(length, 8);
      var coded := EncodeLength(length, 0x80, 0xb7);
      assert coded[1..] == Minimal(length);
      if digits[0] != 0 {
        MinimalOfValue(digits);
      } else {
        assert ([0xb7 + |digits|] + digits)[1] == 0;
        assert coded[1] == Minimal(length)[0] != 0;
      }
    } else {
      assert |EncodeLength(length, 0x80, 0xb7)| == 1;
    }
  }

  /** The decoder also accepts longer forms: encoding a decoded string again gives the bytes
      it was read from exactly when they were canonical. */
  lemma ReencodesIff(input: seq<byte>)
    requires input != [] && DecodeItem(input, false).Ok?
    ensures var item := DecodeItem(input, false).value;
      |item.payload| <= U64_MAX && (EncodeBytes(item.payload) == input[..item.end] <==> Canonical(input))
  {
    var item := DecodeItem(input, false).value;
    var prefix, payload := input[0], item.payload;
    if prefix <= 0x7f {
      assert input[0..1] == input[..1];
    } else if prefix <= 0xb7 {
      var length := prefix - 0x80;
      assert input[..item.end] == [prefix] + payload;
      if length == 1 {
        assert payload[0] == input[1];
      }
    } else {
      var width := prefix - 0xb7;
      var digits := input[1..1 + width];
      assert |payload| == Value(digits);
      assert input[..item.end] == ([prefix] + digits) + payload;
      LongForm(digits);
      LongPayload(prefix, digits, payload);
    }
  }

  lemma LongPayload(prefix: byte, digits: seq<byte>, payload: seq<byte>)
    requires 1 <= |digits| <= 8 && prefix == 0xb7 + |digits| && |payload| == Value(digits) <= U64_MAX
    ensures EncodeBytes(payload) == ([prefix] + digits) + payload
       <==> EncodeLength(|payload|, 0x80, 0xb7) == [prefix] + digits
  {
    var head := EncodeLength(|payload|, 0x80, 0xb7);
    if |payload| == 1 && payload[0] < 0x80 {
      assert |EncodeBytes(payload)| < |([prefix] + digits) + payload|;
      assert |head| < |[prefix] + digits|;
    } else if head + payload == ([prefix] + digits) + payload {
      assert |head| == 1 + |digits|;
      assert head == (head + payload)[..|head|];
      assert [prefix] + digits == (([prefix] + digits) + payload)[..1 + |digits|];
    }
  }
}
