/** The byte field of the secret-sharing code: table-driven arithmetic and its field laws.

    Addition is exclusive or; multiplication and division go through a table of powers of
    the generator 0xe5 and a table of logarithms.  The laws are derived from three facts
    about the tables: consecutive powers differ by one multiplication by 0xe5, the
    logarithm of a power is its exponent, and the power of exponent 255 is 1.
 */
module Gf256 {
  import opened Wrappers

  type Byte = bv8

  /** Entry `k` of the power table; the table is laid out by the bits of its index. */
  function Exp(k: Byte): Byte {
    var x, y, z := k & 0x04 == 0, k & 0x02 == 0, k & 0x01 == 0;
    if k & 0x80 == 0 then (
      if k & 0x40 == 0 then (
        if k & 0x20 == 0 then (
          if k & 0x10 == 0 then (
            if k & 0x08 == 0 then (
              if x then (if y then (if z then 0x01 else 0xe5) else if z then 0x4c else 0xb5)
              else if y then (if z then 0xfb else 0x9f) else if z then 0xfc else 0x12
            ) else (
              if x then (if y then (if z then 0x03 else 0x34) else if z then 0xd4 else 0xc4)
              else if y then (if z then 0x16 else 0xba) else if z then 0x1f else 0x36
            )
          ) else (
            if k & 0x08 == 0 then (
              if x then (if y then (if z then 0x05 else 0x5c) else if z then 0x67 else 0x57)
              else if y then (if z then 0x3a else 0xd5) else if z then 0x21 else 0x5a
            ) else (
              if x then (if y then (if z then 0x0f else 0xe4) else if z then 0xa9 else 0xf9)
              else if y then (if z then 0x4e else 0x64) else if z then 0x63 else 0xee
            )
          )
        ) else (
          if k & 0x10 == 0 then (
            if k & 0x08 == 0 then (
              if x then (if y then (if z then 0x11 else 0x37) else if z then 0xe0 else 0x10)
              else if y then (if z then 0xd2 else 0xac) else if z then 0xa5 else 0x29
            ) else (
              if x then (if y then (if z then 0x33 else 0x59) else if z then 0x3b else 0x30)
              else if y then (if z then 0x6d else 0xef) else if z then 0xf4 else 0x7b
            )
          ) else (
            if k & 0x08 == 0 then (
              if x then (if y then (if z then 0x55 else 0xeb) else if z then 0x4d else 0x50)
              else if y then (if z then 0xb7 else 0x2a) else if z then 0x07 else 0x8d
            ) else (
              if x then (if y then (if z then 0xff else 0x26) else if z then 0xd7 else 0xf0)
              else if y then (if z then 0xc2 else 0x7e) else if z then 0x09 else 0x8c
            )
          )
        )
      ) else (
        if k & 0x20 == 0 then (
          if k & 0x10 == 0 then (
            if k & 0x08 == 0 then (
              if x then (if y then (if z then 0x1a else 0x6a) else if z then 0x62 else 0x0b)
              else if y then (if z then 0x5d else 0x82) else if z then 0x1b else 0x8f
            ) else (
              if x then (if y then (if z then 0x2e else 0xbe) else if z then 0xa6 else 0x1d)
              else if y then (if z then 0xe7 else 0x9d) else if z then 0x2d else 0x8a
            )
          ) else (
            if k & 0x08 == 0 then (
              if x then (if y then (if z then 0x72 else 0xd9) else if z then 0xf1 else 0x27)
              else if y then (if z then 0x32 else 0xbc) else if z then 0x77 else 0x85
            ) else (
              if x then (if y then (if z then 0x96 else 0x70) else if z then 0x08 else 0x69)
              else if y then (if z then 0x56 else 0xdf) else if z then 0x99 else 0x94
            )
          )
        ) else (
          if k & 0x10 == 0 then (
            if k & 0x08 == 0 then (
              if x then (if y then (if z then 0xa1 else 0x90) else if z then 0x18 else 0xbb)
              else if y then (if z then 0xfa else 0x7a) else if z then 0xb0 else 0xa7
            ) else (
              if x then (if y then (if z then 0xf8 else 0xab) else if z then 0x28 else 0xd6)
              else if y then (if z then 0x15 else 0x8e) else if z then 0xcb else 0xf2
            )
          ) else (
            if k & 0x08 == 0 then (
              if x then (if y then (if z then 0x13 else 0xe6) else if z then 0x78 else 0x61)
              else if y then (if z then 0x3f else 0x89) else if z then 0x46 else 0x0d
            ) else (
              if x then (if y then (if z then 0x35 else 0x31) else if z then 0x88 else 0xa3)
              else if y then (if z then 0x41 else 0x80) else if z then 0xca else 0x17
            )
          )
        )
      )
    ) else (
      if k & 0x40 == 0 then (
        if k & 0x20 == 0 then (
          if k & 0x10 == 0 then (
            if k & 0x08 == 0 then (
              if x then (if y then (if z then 0x5f else 0x53) else if z then 0x83 else 0xfe)
              else if y then (if z then 0xc3 else 0x9b) else if z then 0x45 else 0x39
            ) else (
              if x then (if y then (if z then 0xe1 else 0xf5) else if z then 0x9e else 0x19)
              else if y then (if z then 0x5e else 0xb6) else if z then 0xcf else 0x4b
            )
          ) else (
            if k & 0x08 == 0 then (
              if x then (if y then (if z then 0x38 else 0x04) else if z then 0xb9 else 0x2b)
              else if y then (if z then 0xe2 else 0xc1) else if z then 0x4a else 0xdd
            ) else (
              if x then (if y then (if z then 0x48 else 0x0c) else if z then 0xd0 else 0x7d)
              else if y then (if z then 0x3d else 0x58) else if z then 0xde else 0x7c
            )
          )
        ) else (
          if k & 0x10 == 0 then (
            if k & 0x08 == 0 then (
              if x then (if y then (if z then 0xd8 else 0x14) else if z then 0x6b else 0x87)
              else if y then (if z then 0x47 else 0xe8) else if z then 0x79 else 0x84
            ) else (
              if x then (if y then (if z then 0x73 else 0x3c) else if z then 0xbd else 0x92)
              else if y then (if z then 0xc9 else 0x23) else if z then 0x8b else 0x97
            )
          ) else (
            if k & 0x08 == 0 then (
              if x then (if y then (if z then 0x95 else 0x44) else if z then 0xdc else 0xad)
              else if y then (if z then 0x40 else 0x65) else if z then 0x86 else 0xa2
            ) else (
              if x then (if y then (if z then 0xa4 else 0xcc) else if z then 0x7f else 0xec)
              else if y then (if z then 0xc0 else 0xaf) else if z then 0x91 else 0xfd
            )
          )
        )
      ) else (
        if k & 0x20 == 0 then (
          if k & 0x10 == 0 then (
            if k & 0x08 == 0 then (
              if x then (if y then (if z then 0xf7 else 0x4f) else if z then 0x81 else 0x2f)
              else if y then (if z then 0x5b else 0xea) else if z then 0xa8 else 0x1c
            ) else (
              if x then (if y then (if z then 0x02 else 0xd1) else if z then 0x98 else 0x71)
              else if y then (if z then 0xed else 0x25) else if z then 0xe3 else 0x24
            )
          ) else (
            if k & 0x08 == 0 then (
              if x then (if y then (if z then 0x06 else 0x68) else if z then 0xb3 else 0x93)
              else if y then (if z then 0x2c else 0x6f) else if z then 0x3e else 0x6c
            ) else (
              if x then (if y then (if z then 0x0a else 0xb8) else if z then 0xce else 0xae)
              else if y then (if z then 0x74 else 0xb1) else if z then 0x42 else 0xb4
            )
          )
        ) else (
          if k & 0x10 == 0 then (
            if k & 0x08 == 0 then (
              if x then (if y then (if z then 0x1e else 0xd3) else if z then 0x49 else 0xe9)
              else if y then (if z then 0x9c else 0xc8) else if z then 0xc6 else 0xc7
            ) else (
              if x then (if y then (if z then 0x22 else 0x6e) else if z then 0xdb else 0x20)
              else if y then (if z then 0xbf else 0x43) else if z then 0x51 else 0x52
            )
          ) else (
            if k & 0x08 == 0 then (
              if x then (if y then (if z then 0x66 else 0xb2) else if z then 0x76 else 0x60)
              else if y then (if z then 0xda else 0xc5) else if z then 0xf3 else 0xf6
            ) else (
              if x then (if y then (if z then 0xaa else 0xcd) else if z then 0x9a else 0xa0)
              else if y then (if z then 0x75 else 0x54) else if z then 0x0e else 0x01
            )
          )
        )
      )
    )
  }

  /** Entry `a` of the logarithm table. */
  function Log(a: Byte): Byte {
    var x, y, z := a & 0x04 == 0, a & 0x02 == 0, a & 0x01 == 0;
    if a & 0x80 == 0 then (
      if a & 0x40 == 0 then (
        if a & 0x20 == 0 then (
          if a & 0x10 == 0 then (
            if a & 0x08 == 0 then (
              if x then (if y then (if z then 0x00 else 0xff) else if z then 0xc8 else 0x08)
              else if y then (if z then 0x91 else 0x10) else if z then 0xd0 else 0x36
            ) else (
              if x then (if y then (if z then 0x5a else 0x3e) else if z then 0xd8 else 0x43)
              else if y then (if z then 0x99 else 0x77) else if z then 0xfe else 0x18
            )
          ) else (
            if a & 0x08 == 0 then (
              if x then (if y then (if z then 0x23 else 0x20) else if z then 0x07 else 0x70)
              else if y then (if z then 0xa1 else 0x6c) else if z then 0x0c else 0x7f
            ) else (
              if x then (if y then (if z then 0x62 else 0x8b) else if z then 0x40 else 0x46)
              else if y then (if z then 0xc7 else 0x4b) else if z then 0xe0 else 0x0e
            )
          )
        ) else (
          if a & 0x10 == 0 then (
            if a & 0x08 == 0 then (
              if x then (if y then (if z then 0xeb else 0x16) else if z then 0xe8 else 0xad)
              else if y then (if z then 0xcf else 0xcd) else if z then 0x39 else 0x53
            ) else (
              if x then (if y then (if z then 0x6a else 0x27) else if z then 0x35 else 0x93)
              else if y then (if z then 0xd4 else 0x4e) else if z then 0x48 else 0xc3
            )
          ) else (
            if a & 0x08 == 0 then (
              if x then (if y then (if z then 0x2b else 0x79) else if z then 0x54 else 0x28)
              else if y then (if z then 0x09 else 0x78) else if z then 0x0f else 0x21
            ) else (
              if x then (if y then (if z then 0x90 else 0x87) else if z then 0x14 else 0x2a)
              else if y then (if z then 0xa9 else 0x9c) else if z then 0xd6 else 0x74
            )
          )
        )
      ) else (
        if a & 0x20 == 0 then (
          if a & 0x10 == 0 then (
            if a & 0x08 == 0 then (
              if x then (if y then (if z then 0xb4 else 0x7c) else if z then 0xde else 0xed)
              else if y then (if z then 0xb1 else 0x86) else if z then 0x76 else 0xa4
            ) else (
              if x then (if y then (if z then 0x98 else 0xe2) else if z then 0x96 else 0x8f)
              else if y then (if z then 0x02 else 0x32) else if z then 0x1c else 0xc1
            )
          ) else (
            if a & 0x08 == 0 then (
              if x then (if y then (if z then 0x33 else 0xee) else if z then 0xef else 0x81)
              else if y then (if z then 0xfd else 0x30) else if z then 0x5c else 0x13
            ) else (
              if x then (if y then (if z then 0x9d else 0x29) else if z then 0x17 else 0xc4)
              else if y then (if z then 0x11 else 0x44) else if z then 0x8c else 0x80
            )
          )
        ) else (
          if a & 0x10 == 0 then (
            if a & 0x08 == 0 then (
              if x then (if y then (if z then 0xf3 else 0x73) else if z then 0x42 else 0x1e)
              else if y then (if z then 0x1d else 0xb5) else if z then 0xf0 else 0x12
            ) else (
              if x then (if y then (if z then 0xd1 else 0x5b) else if z then 0x41 else 0xa2)
              else if y then (if z then 0xd7 else 0x2c) else if z then 0xe9 else 0xd5
            )
          ) else (
            if a & 0x08 == 0 then (
              if x then (if y then (if z then 0x59 else 0xcb) else if z then 0x50 else 0xa8)
              else if y then (if z then 0xdc else 0xfc) else if z then 0xf2 else 0x56
            ) else (
              if x then (if y then (if z then 0x72 else 0xa6) else if z then 0x65 else 0x2f)
              else if y then (if z then 0x9f else 0x9b) else if z then 0x3d else 0xba
            )
          )
        )
      )
    ) else (
      if a & 0x40 == 0 then (
        if a & 0x20 == 0 then (
          if a & 0x10 == 0 then (
            if a & 0x08 == 0 then (
              if x then (if y then (if z then 0x7d else 0xc2) else if z then 0x45 else 0x82)
              else if y then (if z then 0xa7 else 0x57) else if z then 0xb6 else 0xa3
            ) else (
              if x then (if y then (if z then 0x7a else 0x75) else if z then 0x4f else 0xae)
              else if y then (if z then 0x3f else 0x37) else if z then 0x6d else 0x47
            )
          ) else (
            if a & 0x08 == 0 then (
              if x then (if y then (if z then 0x61 else 0xbe) else if z then 0xab else 0xd3)
              else if y then (if z then 0x5f else 0xb0) else if z then 0x58 else 0xaf
            ) else (
              if x then (if y then (if z then 0xca else 0x5e) else if z then 0xfa else 0x85)
              else if y then (if z then 0xe4 else 0x4d) else if z then 0x8a else 0x05
            )
          )
        ) else (
          if a & 0x10 == 0 then (
            if a & 0x08 == 0 then (
              if x then (if y then (if z then 0xfb else 0x60) else if z then 0xb7 else 0x7b)
              else if y then (if z then 0xb8 else 0x26) else if z then 0x4a else 0x67
            ) else (
              if x then (if y then (if z then 0xc6 else 0x1a) else if z then 0xf8 else 0x69)
              else if y then (if z then 0x25 else 0xb3) else if z then 0xdb else 0xbd
            )
          ) else (
            if a & 0x08 == 0 then (
              if x then (if y then (if z then 0x66 else 0xdd) else if z then 0xf1 else 0xd2)
              else if y then (if z then 0xdf else 0x03) else if z then 0x8d else 0x34
            ) else (
              if x then (if y then (if z then 0xd9 else 0x92) else if z then 0x0d else 0x63)
              else if y then (if z then 0x55 else 0xaa) else if z then 0x49 else 0xec
            )
          )
        )
      ) else (
        if a & 0x20 == 0 then (
          if a & 0x10 == 0 then (
            if a & 0x08 == 0 then (
              if x then (if y then (if z then 0xbc else 0x95) else if z then 0x3c else 0x84)
              else if y then (if z then 0x0b else 0xf5) else if z then 0xe6 else 0xe7
            ) else (
              if x then (if y then (if z then 0xe5 else 0xac) else if z then 0x7e else 0x6e)
              else if y then (if z then 0xb9 else 0xf9) else if z then 0xda else 0x8e
            )
          ) else (
            if a & 0x08 == 0 then (
              if x then (if y then (if z then 0x9a else 0xc9) else if z then 0x24 else 0xe1)
              else if y then (if z then 0x0a else 0x15) else if z then 0x6b else 0x3a
            ) else (
              if x then (if y then (if z then 0xa0 else 0x51) else if z then 0xf4 else 0xea)
              else if y then (if z then 0xb2 else 0x97) else if z then 0x9e else 0x5d
            )
          )
        ) else (
          if a & 0x10 == 0 then (
            if a & 0x08 == 0 then (
              if x then (if y then (if z then 0x22 else 0x88) else if z then 0x94 else 0xce)
              else if y then (if z then 0x19 else 0x01) else if z then 0x71 else 0x4c
            ) else (
              if x then (if y then (if z then 0xa5 else 0xe3) else if z then 0xc5 else 0x31)
              else if y then (if z then 0xbb else 0xcc) else if z then 0x1f else 0x2d
            )
          ) else (
            if a & 0x08 == 0 then (
              if x then (if y then (if z then 0x3b else 0x52) else if z then 0x6f else 0xf6)
              else if y then (if z then 0x2e else 0x89) else if z then 0xf7 else 0xc0
            ) else (
              if x then (if y then (if z then 0x68 else 0x1b) else if z then 0x64 else 0x04)
              else if y then (if z then 0x06 else 0xbf) else if z then 0x83 else 0x38
            )
          )
        )
      )
    )
  }

  /** The logarithm as a number. */
  function LogN(a: Byte): nat { Log(a) as nat }

  /** The power table at a number below 256. */
  function Power(n: nat): Byte
    requires n < 256
  {
    Exp(n as Byte)
  }

  function Add(a: Byte, b: Byte): Byte { a ^ b }

  function Mul(a: Byte, b: Byte): Byte {
    if a == 0 || b == 0 then 0 else Power((LogN(a) + LogN(b)) % 255)
  }

  function CheckedDiv(a: Byte, b: Byte): Option<Byte> {
    if a == 0 then Some(0)
    else if b == 0 then None
    else
      var diff := LogN(a) - LogN(b);
      var wrapped := if diff < 0 then diff + 255 else diff;
      Some(Power(wrapped % 255))
  }

  // ---------- Multiplication without tables ----------

  /** Multiplication by x modulo x^8 + x^4 + x^3 + x + 1 (section 4.2.1 of FIPS 197). */
  function XTime(a: Byte): Byte { (a << 1) ^ (if a & 0x80 == 0 then 0 else 0x1b) }

  /** The product of the low `n` bits of `b` with `a`, one bit at a time. */
  function ShiftMul(a: Byte, b: Byte, n: nat): Byte
    decreases n
  {
    if n == 0 then 0 else Add(if b & 1 == 0 then 0 else a, ShiftMul(XTime(a), b >> 1, n - 1))
  }

  /** Multiplication by the generator 0xe5 = 1 + x^2 (1 + x^3 (1 + x (1 + x))). */
  function TimesGenerator(a: Byte): Byte {
    var a1 := Add(a, XTime(a));
    var a2 := Add(a, XTime(a1));
    var a3 := Add(a, XTime(XTime(XTime(a2))));
    Add(a, XTime(XTime(a3)))
  }

  lemma AddInterchange(a: Byte, b: Byte, c: Byte, d: Byte)
    ensures Add(Add(a, b), Add(c, d)) == Add(Add(a, c), Add(b, d))
  {
    assert (a ^ b) ^ (c ^ d) == (a ^ c) ^ (b ^ d);
  }

  lemma XTimeLinear(a: Byte, b: Byte)
    ensures XTime(Add(a, b)) == Add(XTime(a), XTime(b))
  {
    assert (a ^ b) << 1 == (a << 1) ^ (b << 1);
    assert (a ^ b) & 0x80 == (a & 0x80) ^ (b & 0x80);
    assert a & 0x80 == 0 || a & 0x80 == 0x80;
    assert b & 0x80 == 0 || b & 0x80 == 0x80;
  }

  lemma TimesGeneratorLinear(a: Byte, b: Byte)
    ensures TimesGenerator(Add(a, b)) == Add(TimesGenerator(a), TimesGenerator(b))
  {
    hide XTime, Add;
    var x1, y1 := XTime(a), XTime(b);
    XTimeLinear(a, b);
    AddInterchange(a, b, x1, y1);
    var a1, b1 := Add(a, x1), Add(b, y1);
    XTimeLinear(a1, b1);
    AddInterchange(a, b, XTime(a1), XTime(b1));
    var a2, b2 := Add(a, XTime(a1)), Add(b, XTime(b1));
    XTimeLinear(a2, b2);
    XTimeLinear(XTime(a2), XTime(b2));
    var x3, y3 := XTime(XTime(a2)), XTime(XTime(b2));
    XTimeLinear(x3, y3);
    AddInterchange(a, b, XTime(x3), XTime(y3));
    var a3, b3 := Add(a, XTime(x3)), Add(b, XTime(y3));
    XTimeLinear(a3, b3);
    XTimeLinear(XTime(a3), XTime(b3));
    AddInterchange(a, b, XTime(XTime(a3)), XTime(XTime(b3)));
  }

  lemma TimesGeneratorXTime(a: Byte)
    ensures TimesGenerator(XTime(a)) == XTime(TimesGenerator(a))
  {
    hide XTime, Add;
    var a1 := Add(a, XTime(a));
    XTimeLinear(a, XTime(a));
    var a2 := Add(a, XTime(a1));
    XTimeLinear(a, XTime(a1));
    var a3 := Add(a, XTime(XTime(XTime(a2))));
    XTimeLinear(a, XTime(XTime(XTime(a2))));
    XTimeLinear(a, XTime(XTime(a3)));
  }

  // ---------- The tables ----------

  /** The generator times each bit of a byte, added up. */
  function GeneratorBits(a: Byte): Byte {
    (if a & 0x01 == 0 then 0 else 0xe5) ^ (if a & 0x02 == 0 then 0 else 0xd1) ^ (if a & 0x04 == 0 then 0 else 0xb9)
    ^ (if a & 0x08 == 0 then 0 else 0x69) ^ (if a & 0x10 == 0 then 0 else 0xd2) ^ (if a & 0x20 == 0 then 0 else 0xbf)
    ^ (if a & 0x40 == 0 then 0 else 0x65) ^ (if a & 0x80 == 0 then 0 else 0xca)
  }

  lemma TimesGeneratorBits(a: Byte)
    ensures TimesGenerator(a) == GeneratorBits(a)
  {
    var a1 := Add(a, XTime(a));
    var a2 := Add(a, XTime(a1));
    var b2 := XTime(XTime(XTime(a2)));
    var a3 := Add(a, b2);
    assert Add(a, XTime(XTime(a3))) == GeneratorBits(a);
  }

  lemma ExpStep(k: Byte)
    requires k < 255
    ensures Exp(k + 1) == TimesGenerator(Exp(k))
  {
    hide TimesGenerator;
    assert Exp(k + 1) == GeneratorBits(Exp(k));
    TimesGeneratorBits(Exp(k));
  }

  lemma LogExp(k: Byte)
    requires k != 0
    ensures Log(Exp(k)) == k
  {
  }

  lemma ExpLog(a: Byte)
    requires a != 0
    ensures Log(a) != 0 && Exp(Log(a)) == a
  {
  }

  // ---------- Powers of the generator ----------

  lemma NatOfByte(a: Byte)
    ensures 0 <= a as nat < 256 && (a as nat) as Byte == a
  {
  }

  lemma NextByte(a: Byte)
    requires a < 255
    ensures (a + 1) as nat == a as nat + 1
  {
  }

  lemma TopByte()
    ensures (255 as Byte) as nat == 255
  {
  }

  lemma {:induction false} ByteOfNat(n: nat)
    requires n < 256
    ensures (n as Byte) as nat == n
  {
    if n == 0 {
      NatOfByte(0);
    } else {
      ByteOfNat(n - 1);
      var k := (n - 1) as Byte;
      TopByte();
      assert k != 255;
      NextByte(k);
      NatOfByte(k + 1);
    }
  }

  lemma PowerStep(n: nat)
    requires n < 255
    ensures Power(n + 1) == TimesGenerator(Power(n))
  {
    hide Exp, TimesGenerator;
    var k := n as Byte;
    ByteOfNat(n);
    assert (k + 1) as nat == n + 1;
    NatOfByte(k + 1);
    ExpStep(k);
  }

  lemma LogPower(n: nat)
    requires 0 < n < 256
    ensures Power(n) != 0 && LogN(Power(n)) == n
  {
    hide Exp, Log;
    ByteOfNat(n);
    LogExp(n as Byte);
    LogOfZero();
  }

  lemma LogOfZero()
    ensures Log(0) == 0
  {
  }

  lemma PowerWraps()
    ensures Power(0) == 1 && Power(255) == 1
  {
  }

  lemma PowerLog(a: Byte)
    requires a != 0
    ensures 0 < LogN(a) < 256 && Power(LogN(a)) == a
  {
    hide Exp, Log;
    ExpLog(a);
    NatOfByte(Log(a));
  }

  /** `k` multiplications by the generator. */
  function TimesPower(k: nat, a: Byte): Byte {
    if k == 0 then a else TimesGenerator(TimesPower(k - 1, a))
  }

  lemma {:induction false} TimesPowerLinear(k: nat, a: Byte, b: Byte)
    ensures TimesPower(k, Add(a, b)) == Add(TimesPower(k, a), TimesPower(k, b))
  {
    hide Add, TimesGenerator;
    if k != 0 {
      TimesPowerLinear(k - 1, a, b);
      TimesGeneratorLinear(TimesPower(k - 1, a), TimesPower(k - 1, b));
    }
  }

  lemma {:induction false} TimesPowerZero(k: nat)
    ensures TimesPower(k, 0) == 0
  {
    if k != 0 {
      TimesPowerZero(k - 1);
    }
  }

  lemma {:induction false} TimesPowerXTime(k: nat, a: Byte)
    ensures TimesPower(k, XTime(a)) == XTime(TimesPower(k, a))
  {
    hide XTime, TimesGenerator;
    if k != 0 {
      TimesPowerXTime(k - 1, a);
      TimesGeneratorXTime(TimesPower(k - 1, a));
    }
  }

  /** Exponents add modulo 255. */
  lemma {:induction false} TimesPowerOfPower(k: nat, j: nat)
    ensures TimesPower(k, Power(j % 255)) == Power((k + j) % 255)
  {
    hide Power, TimesGenerator;
    if k != 0 {
      TimesPowerOfPower(k - 1, j);
      PowerStep((k - 1 + j) % 255);
      PowerWraps();
    }
  }

  lemma PowerMod(n: nat)
    requires n < 256
    ensures Power(n % 255) == Power(n)
  {
    hide Power;
    PowerWraps();
  }

  // ---------- Field laws ----------

  /** Multiplying by a non-zero byte is multiplying by the generator as often as its logarithm says. */
  lemma MulIsTimesPower(a: Byte, b: Byte)
    requires a != 0
    ensures Mul(a, b) == TimesPower(LogN(a), b)
  {
    hide Power, LogN, TimesGenerator;
    if b == 0 {
      TimesPowerZero(LogN(a));
    } else {
      PowerLog(b);
      PowerMod(LogN(b));
      TimesPowerOfPower(LogN(a), LogN(b));
    }
  }

  lemma MulCommutes(a: Byte, b: Byte)
    ensures Mul(a, b) == Mul(b, a)
  {
    hide Power, LogN;
  }

  lemma MulDistributes(a: Byte, b: Byte, c: Byte)
    ensures Mul(a, Add(b, c)) == Add(Mul(a, b), Mul(a, c))
    ensures Mul(Add(b, c), a) == Add(Mul(b, a), Mul(c, a))
  {
    hide Power, LogN, TimesGenerator;
    if a != 0 {
      MulIsTimesPower(a, b);
      MulIsTimesPower(a, c);
      MulIsTimesPower(a, Add(b, c));
      TimesPowerLinear(LogN(a), b, c);
    }
    MulCommutes(a, b);
    MulCommutes(a, c);
    MulCommutes(a, Add(b, c));
  }

  /** The logarithm of a product is the sum of the logarithms, modulo 255. */
  lemma LogOfMul(a: Byte, b: Byte)
    requires a != 0 && b != 0
    ensures Mul(a, b) != 0
    ensures LogN(Mul(a, b)) % 255 == (LogN(a) + LogN(b)) % 255
  {
    hide Power, LogN;
    LogOfPowerMod((LogN(a) + LogN(b)) % 255);
  }

  lemma LogOfPowerMod(n: nat)
    requires n < 256
    ensures Power(n) != 0 && LogN(Power(n)) % 255 == n % 255
  {
    hide Power, LogN;
    PowerWraps();
    LogPower(if n == 0 then 255 else n);
  }

  lemma MulAssociates(a: Byte, b: Byte, c: Byte)
    ensures Mul(Mul(a, b), c) == Mul(a, Mul(b, c))
  {
    hide Power, LogN;
    if a != 0 && b != 0 && c != 0 {
      LogOfMul(a, b);
      LogOfMul(b, c);
      ModAdd(LogN(Mul(a, b)), LogN(a) + LogN(b), LogN(c));
      ModAdd(LogN(Mul(b, c)), LogN(b) + LogN(c), LogN(a));
    }
  }

  lemma ModAdd(x: nat, y: nat, z: nat)
    requires x % 255 == y % 255
    ensures (x + z) % 255 == (y + z) % 255
  {
  }

  lemma MulOne(a: Byte)
    ensures Mul(1, a) == a && Mul(a, 1) == a
  {
    hide Power, LogN;
    if a != 0 {
      PowerLog(a);
      PowerMod(LogN(a));
      PowerWraps();
      LogPower(255);
      ModAdd(255, 0, LogN(a));
    }
    MulCommutes(1, a);
  }

  lemma MulNonZero(a: Byte, b: Byte)
    ensures Mul(a, b) == 0 <==> a == 0 || b == 0
  {
    hide Power, LogN;
    if a != 0 && b != 0 {
      LogOfMul(a, b);
    }
  }

  /** Division fails exactly on a non-zero dividend over zero, and otherwise undoes multiplication. */
  lemma DivCorrect(a: Byte, b: Byte)
    ensures CheckedDiv(a, b).None? <==> a != 0 && b == 0
    ensures b != 0 ==> CheckedDiv(a, b).Some? && Mul(CheckedDiv(a, b).value, b) == a
  {
    hide Power, LogN;
    if a != 0 && b != 0 {
      var la: int, lb: int := LogN(a), LogN(b);
      PowerLog(a);
      PowerLog(b);
      var d := (if la - lb < 0 then la - lb + 255 else la - lb) % 255;
      LogOfPowerMod(d);
      ModAdd(LogN(Power(d)), d, lb);
      assert (d + lb) % 255 == la % 255;
      PowerMod(la);
    }
  }

  lemma AddLaws(a: Byte, b: Byte, c: Byte)
    ensures Add(a, b) == Add(b, a)
    ensures Add(Add(a, b), c) == Add(a, Add(b, c))
    ensures Add(a, 0) == a && Add(0, a) == a
    ensures Add(a, b) == 0 <==> a == b
  {
    assert (a ^ b) ^ c == a ^ (b ^ c);
  }

  /** Multiplying by x is one shift-and-reduce. */
  lemma MulByX(a: Byte)
    ensures Mul(2, a) == XTime(a)
  {
    hide Power, LogN, TimesGenerator, XTime;
    XTimeSmall();
    if a == 0 {
    } else {
      MulIsTimesPower(a, 2);
      TimesPowerXTime(LogN(a), 1);
      MulIsTimesPower(a, 1);
      MulOne(a);
      MulCommutes(2, a);
    }
  }

  lemma XTimeSmall()
    ensures XTime(0) == 0 && XTime(1) == 2
  {
  }

  /** A byte is its lowest bit plus x times the rest. */
  lemma LowBitSplit(b: Byte)
    ensures b == Add(b & 1, XTime(b >> 1)) && (b & 1 == 0 || b & 1 == 1)
  {
  }

  /** The table product is the product of the field of FIPS 197. */
  lemma {:induction false} MulIsShiftMul(a: Byte, b: Byte, n: nat)
    requires n <= 8 && b >> n == 0
    ensures Mul(a, b) == ShiftMul(a, b, n)
    decreases n
  {
    hide Mul, Add, XTime;
    if n == 0 {
      MulNonZero(a, b);
    } else {
      LowBitSplit(b);
      ShiftTwice(b, n);
      MulIsShiftMul(XTime(a), b >> 1, n - 1);
      MulDistributes(a, b & 1, XTime(b >> 1));
      MulByX(b >> 1);
      MulByX(a);
      MulAssociates(a, 2, b >> 1);
      MulCommutes(a, 2);
      MulOne(a);
      MulNonZero(a, 0);
    }
  }

  lemma MulIsFieldProduct(a: Byte, b: Byte)
    ensures Mul(a, b) == ShiftMul(a, b, 8)
  {
    MulIsShiftMul(a, b, 8);
  }

  lemma ShiftTwice(b: Byte, n: nat)
    requires 0 < n <= 8 && b >> n == 0
    ensures (b >> 1) >> (n - 1) == 0
  {
  }
}
