/** Big-endian integers: the fixed-width form used in signing payloads and the
    minimal form used by RLP, with the fold that reads either of them back. */
module Bytes {

  type byte = b: nat | b < 256

  /** 256 to the power of width. */
  function Span(width: nat): (r: nat)
    ensures r >= 1
  {
    if width == 0 then 1 else 256 * Span(width - 1)
  }

  /** The fold `(acc << 8) | byte` over a slice. */
  function Value(s: seq<byte>): nat {
    if s == [] then 0 else 256 * Value(s[..|s| - 1]) + s[|s| - 1]
  }

  /** `to_be_bytes` for an integer of the given width. */
  function BigEndian(value: nat, width: nat): (s: seq<byte>)
    ensures |s| == width
  {
    if width == 0 then [] else BigEndian(value / 256, width - 1) + [value % 256]
  }

  /** `to_be_bytes` without its leading zero bytes. */
  function Minimal(value: nat): seq<byte> {
    if value == 0 then [] else Minimal(value / 256) + [value % 256]
  }

  lemma {:induction false} ValueBound(s: seq<byte>)
    ensures Value(s) < Span(|s|)
  {
    if s != [] {
      ValueBound(s[..|s| - 1]);
    }
  }

  lemma {:induction false} ValueOfBigEndian(value: nat, width: nat)
    requires value < Span(width)
    ensures Value(BigEndian(value, width)) == value
  {
    if width > 0 {
      ValueOfBigEndian(value / 256, width - 1);
      var s := BigEndian(value, width);
      assert s[..|s| - 1] == BigEndian(value / 256, width - 1);
    }
  }

  lemma BigEndianInjective(a: nat, b: nat, width: nat)
    requires a < Span(width) && b < Span(width)
    requires BigEndian(a, width) == BigEndian(b, width)
    ensures a == b
  {
    ValueOfBigEndian(a, width);
    ValueOfBigEndian(b, width);
  }

  lemma {:induction false} ValueOfMinimal(value: nat)
    ensures Value(Minimal(value)) == value
  {
    if value > 0 {
      ValueOfMinimal(value / 256);
      var s := Minimal(value);
      assert s[..|s| - 1] == Minimal(value / 256);
    }
  }

  /** The minimal form is as short as the value allows and never starts with zero. */
  lemma {:induction false} MinimalShape(value: nat, width: nat)
    requires value < Span(width)
    ensures |Minimal(value)| <= width
    ensures value > 0 ==> |Minimal(value)| > 0 && Minimal(value)[0] != 0
  {
    if value > 0 {
      assert width > 0;
      MinimalShape(value / 256, width - 1);
      if value < 256 {
        assert Minimal(value / 256) == [];
      }
    }
  }

  lemma Spans()
    ensures Span(1) == 0x100
    ensures Span(4) == 0x1_0000_0000
    ensures Span(8) == 0x1_0000_0000_0000_0000
    ensures Span(16) == 0x1_0000_0000_0000_0000_0000_0000_0000_0000
  {
    assert Span(2) == 0x1_0000;
    assert Span(3) == 0x100_0000;
    assert Span(4) == 0x1_0000_0000;
    assert Span(5) == 0x100_0000_0000;
    assert Span(6) == 0x1_0000_0000_0000;
    assert Span(7) == 0x100_0000_0000_0000;
    assert Span(8) == 0x1_0000_0000_0000_0000;
    assert Span(9) == 0x100_0000_0000_0000_0000;
    assert Span(10) == 0x1_0000_0000_0000_0000_0000;
    assert Span(11) == 0x100_0000_0000_0000_0000_0000;
    assert Span(12) == 0x1_0000_0000_0000_0000_0000_0000;
    assert Span(13) == 0x100_0000_0000_0000_0000_0000_0000;
    assert Span(14) == 0x1_0000_0000_0000_0000_0000_0000_0000;
    assert Span(15) == 0x100_0000_0000_0000_0000_0000_0000_0000;
  }
}
