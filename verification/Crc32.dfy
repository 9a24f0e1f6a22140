// The 32-bit cyclic redundancy check, by the bit and by the two tables.
module Crc32 {
  // The reversed polynomial.
  const Poly: bv32 := 0xedb88320

  function Xor(a: bv32, b: bv32): bv32 { a ^ b }

  // One bit of the division.
  function Bit(c: bv32): bv32 { if c & 1 == 1 then Xor(c >> 1, Poly) else c >> 1 }

  function Step4(c: bv32): bv32 { Bit(Bit(Bit(Bit(c)))) }

  function Step8(c: bv32): bv32 { Step4(Step4(c)) }

  function Wide(b: bv8): bv32 { b as bv32 }

  // A byte enters at the low end.
  function CrcFrom(c: bv32, data: seq<bv8>): bv32 {
    if data == [] then c else Step8(Xor(CrcFrom(c, data[..|data| - 1]), Wide(data[|data| - 1])))
  }

  // The check of the data, bit by bit.
  function Crc(data: seq<bv8>): bv32 { Xor(CrcFrom(0xffff_ffff, data), 0xffff_ffff) }

  // ----- the tables

  function Table16(i: bv32): bv32 {
    if i == 0 then 0x00000000 else if i == 1 then 0x1db71064 else if i == 2 then 0x3b6e20c8 else if i == 3 then 0x26d930ac else
    if i == 4 then 0x76dc4190 else if i == 5 then 0x6b6b51f4 else if i == 6 then 0x4db26158 else if i == 7 then 0x5005713c else
    if i == 8 then 0xedb88320 else if i == 9 then 0xf00f9344 else if i == 10 then 0xd6d6a3e8 else if i == 11 then 0xcb61b38c else
    if i == 12 then 0x9b64c2b0 else if i == 13 then 0x86d3d2d4 else if i == 14 then 0xa00ae278 else 0xbdbdf21c
  }

  function Row0(i: bv32): bv32 {
    if i == 0 then 0x00000000 else if i == 1 then 0x77073096 else if i == 2 then 0xee0e612c else if i == 3 then 0x990951ba else
    if i == 4 then 0x076dc419 else if i == 5 then 0x706af48f else if i == 6 then 0xe963a535 else if i == 7 then 0x9e6495a3 else
    if i == 8 then 0x0edb8832 else if i == 9 then 0x79dcb8a4 else if i == 10 then 0xe0d5e91e else if i == 11 then 0x97d2d988 else
    if i == 12 then 0x09b64c2b else if i == 13 then 0x7eb17cbd else if i == 14 then 0xe7b82d07 else 0x90bf1d91
  }

  function Row1(i: bv32): bv32 {
    if i == 0 then 0x1db71064 else if i == 1 then 0x6ab020f2 else if i == 2 then 0xf3b97148 else if i == 3 then 0x84be41de else
    if i == 4 then 0x1adad47d else if i == 5 then 0x6ddde4eb else if i == 6 then 0xf4d4b551 else if i == 7 then 0x83d385c7 else
    if i == 8 then 0x136c9856 else if i == 9 then 0x646ba8c0 else if i == 10 then 0xfd62f97a else if i == 11 then 0x8a65c9ec else
    if i == 12 then 0x14015c4f else if i == 13 then 0x63066cd9 else if i == 14 then 0xfa0f3d63 else 0x8d080df5
  }

  function Row2(i: bv32): bv32 {
    if i == 0 then 0x3b6e20c8 else if i == 1 then 0x4c69105e else if i == 2 then 0xd56041e4 else if i == 3 then 0xa2677172 else
    if i == 4 then 0x3c03e4d1 else if i == 5 then 0x4b04d447 else if i == 6 then 0xd20d85fd else if i == 7 then 0xa50ab56b else
    if i == 8 then 0x35b5a8fa else if i == 9 then 0x42b2986c else if i == 10 then 0xdbbbc9d6 else if i == 11 then 0xacbcf940 else
    if i == 12 then 0x32d86ce3 else if i == 13 then 0x45df5c75 else if i == 14 then 0xdcd60dcf else 0xabd13d59
  }

  function Row3(i: bv32): bv32 {
    if i == 0 then 0x26d930ac else if i == 1 then 0x51de003a else if i == 2 then 0xc8d75180 else if i == 3 then 0xbfd06116 else
    if i == 4 then 0x21b4f4b5 else if i == 5 then 0x56b3c423 else if i == 6 then 0xcfba9599 else if i == 7 then 0xb8bda50f else
    if i == 8 then 0x2802b89e else if i == 9 then 0x5f058808 else if i == 10 then 0xc60cd9b2 else if i == 11 then 0xb10be924 else
    if i == 12 then 0x2f6f7c87 else if i == 13 then 0x58684c11 else if i == 14 then 0xc1611dab else 0xb6662d3d
  }

  function Row4(i: bv32): bv32 {
    if i == 0 then 0x76dc4190 else if i == 1 then 0x01db7106 else if i == 2 then 0x98d220bc else if i == 3 then 0xefd5102a else
    if i == 4 then 0x71b18589 else if i == 5 then 0x06b6b51f else if i == 6 then 0x9fbfe4a5 else if i == 7 then 0xe8b8d433 else
    if i == 8 then 0x7807c9a2 else if i == 9 then 0x0f00f934 else if i == 10 then 0x9609a88e else if i == 11 then 0xe10e9818 else
    if i == 12 then 0x7f6a0dbb else if i == 13 then 0x086d3d2d else if i == 14 then 0x91646c97 else 0xe6635c01
  }

  function Row5(i: bv32): bv32 {
    if i == 0 then 0x6b6b51f4 else if i == 1 then 0x1c6c6162 else if i == 2 then 0x856530d8 else if i == 3 then 0xf262004e else
    if i == 4 then 0x6c0695ed else if i == 5 then 0x1b01a57b else if i == 6 then 0x8208f4c1 else if i == 7 then 0xf50fc457 else
    if i == 8 then 0x65b0d9c6 else if i == 9 then 0x12b7e950 else if i == 10 then 0x8bbeb8ea else if i == 11 then 0xfcb9887c else
    if i == 12 then 0x62dd1ddf else if i == 13 then 0x15da2d49 else if i == 14 then 0x8cd37cf3 else 0xfbd44c65
  }

  function Row6(i: bv32): bv32 {
    if i == 0 then 0x4db26158 else if i == 1 then 0x3ab551ce else if i == 2 then 0xa3bc0074 else if i == 3 then 0xd4bb30e2 else
    if i == 4 then 0x4adfa541 else if i == 5 then 0x3dd895d7 else if i == 6 then 0xa4d1c46d else if i == 7 then 0xd3d6f4fb else
    if i == 8 then 0x4369e96a else if i == 9 then 0x346ed9fc else if i == 10 then 0xad678846 else if i == 11 then 0xda60b8d0 else
    if i == 12 then 0x44042d73 else if i == 13 then 0x33031de5 else if i == 14 then 0xaa0a4c5f else 0xdd0d7cc9
  }

  function Row7(i: bv32): bv32 {
    if i == 0 then 0x5005713c else if i == 1 then 0x270241aa else if i == 2 then 0xbe0b1010 else if i == 3 then 0xc90c2086 else
    if i == 4 then 0x5768b525 else if i == 5 then 0x206f85b3 else if i == 6 then 0xb966d409 else if i == 7 then 0xce61e49f else
    if i == 8 then 0x5edef90e else if i == 9 then 0x29d9c998 else if i == 10 then 0xb0d09822 else if i == 11 then 0xc7d7a8b4 else
    if i == 12 then 0x59b33d17 else if i == 13 then 0x2eb40d81 else if i == 14 then 0xb7bd5c3b else 0xc0ba6cad
  }

  function Row8(i: bv32): bv32 {
    if i == 0 then 0xedb88320 else if i == 1 then 0x9abfb3b6 else if i == 2 then 0x03b6e20c else if i == 3 then 0x74b1d29a else
    if i == 4 then 0xead54739 else if i == 5 then 0x9dd277af else if i == 6 then 0x04db2615 else if i == 7 then 0x73dc1683 else
    if i == 8 then 0xe3630b12 else if i == 9 then 0x94643b84 else if i == 10 then 0x0d6d6a3e else if i == 11 then 0x7a6a5aa8 else
    if i == 12 then 0xe40ecf0b else if i == 13 then 0x9309ff9d else if i == 14 then 0x0a00ae27 else 0x7d079eb1
  }

  function Row9(i: bv32): bv32 {
    if i == 0 then 0xf00f9344 else if i == 1 then 0x8708a3d2 else if i == 2 then 0x1e01f268 else if i == 3 then 0x6906c2fe else
    if i == 4 then 0xf762575d else if i == 5 then 0x806567cb else if i == 6 then 0x196c3671 else if i == 7 then 0x6e6b06e7 else
    if i == 8 then 0xfed41b76 else if i == 9 then 0x89d32be0 else if i == 10 then 0x10da7a5a else if i == 11 then 0x67dd4acc else
    if i == 12 then 0xf9b9df6f else if i == 13 then 0x8ebeeff9 else if i == 14 then 0x17b7be43 else 0x60b08ed5
  }

  function Row10(i: bv32): bv32 {
    if i == 0 then 0xd6d6a3e8 else if i == 1 then 0xa1d1937e else if i == 2 then 0x38d8c2c4 else if i == 3 then 0x4fdff252 else
    if i == 4 then 0xd1bb67f1 else if i == 5 then 0xa6bc5767 else if i == 6 then 0x3fb506dd else if i == 7 then 0x48b2364b else
    if i == 8 then 0xd80d2bda else if i == 9 then 0xaf0a1b4c else if i == 10 then 0x36034af6 else if i == 11 then 0x41047a60 else
    if i == 12 then 0xdf60efc3 else if i == 13 then 0xa867df55 else if i == 14 then 0x316e8eef else 0x4669be79
  }

  function Row11(i: bv32): bv32 {
    if i == 0 then 0xcb61b38c else if i == 1 then 0xbc66831a else if i == 2 then 0x256fd2a0 else if i == 3 then 0x5268e236 else
    if i == 4 then 0xcc0c7795 else if i == 5 then 0xbb0b4703 else if i == 6 then 0x220216b9 else if i == 7 then 0x5505262f else
    if i == 8 then 0xc5ba3bbe else if i == 9 then 0xb2bd0b28 else if i == 10 then 0x2bb45a92 else if i == 11 then 0x5cb36a04 else
    if i == 12 then 0xc2d7ffa7 else if i == 13 then 0xb5d0cf31 else if i == 14 then 0x2cd99e8b else 0x5bdeae1d
  }

  function Row12(i: bv32): bv32 {
    if i == 0 then 0x9b64c2b0 else if i == 1 then 0xec63f226 else if i == 2 then 0x756aa39c else if i == 3 then 0x026d930a else
    if i == 4 then 0x9c0906a9 else if i == 5 then 0xeb0e363f else if i == 6 then 0x72076785 else if i == 7 then 0x05005713 else
    if i == 8 then 0x95bf4a82 else if i == 9 then 0xe2b87a14 else if i == 10 then 0x7bb12bae else if i == 11 then 0x0cb61b38 else
    if i == 12 then 0x92d28e9b else if i == 13 then 0xe5d5be0d else if i == 14 then 0x7cdcefb7 else 0x0bdbdf21
  }

  function Row13(i: bv32): bv32 {
    if i == 0 then 0x86d3d2d4 else if i == 1 then 0xf1d4e242 else if i == 2 then 0x68ddb3f8 else if i == 3 then 0x1fda836e else
    if i == 4 then 0x81be16cd else if i == 5 then 0xf6b9265b else if i == 6 then 0x6fb077e1 else if i == 7 then 0x18b74777 else
    if i == 8 then 0x88085ae6 else if i == 9 then 0xff0f6a70 else if i == 10 then 0x66063bca else if i == 11 then 0x11010b5c else
    if i == 12 then 0x8f659eff else if i == 13 then 0xf862ae69 else if i == 14 then 0x616bffd3 else 0x166ccf45
  }

  function Row14(i: bv32): bv32 {
    if i == 0 then 0xa00ae278 else if i == 1 then 0xd70dd2ee else if i == 2 then 0x4e048354 else if i == 3 then 0x3903b3c2 else
    if i == 4 then 0xa7672661 else if i == 5 then 0xd06016f7 else if i == 6 then 0x4969474d else if i == 7 then 0x3e6e77db else
    if i == 8 then 0xaed16a4a else if i == 9 then 0xd9d65adc else if i == 10 then 0x40df0b66 else if i == 11 then 0x37d83bf0 else
    if i == 12 then 0xa9bcae53 else if i == 13 then 0xdebb9ec5 else if i == 14 then 0x47b2cf7f else 0x30b5ffe9
  }

  function Row15(i: bv32): bv32 {
    if i == 0 then 0xbdbdf21c else if i == 1 then 0xcabac28a else if i == 2 then 0x53b39330 else if i == 3 then 0x24b4a3a6 else
    if i == 4 then 0xbad03605 else if i == 5 then 0xcdd70693 else if i == 6 then 0x54de5729 else if i == 7 then 0x23d967bf else
    if i == 8 then 0xb3667a2e else if i == 9 then 0xc4614ab8 else if i == 10 then 0x5d681b02 else if i == 11 then 0x2a6f2b94 else
    if i == 12 then 0xb40bbe37 else if i == 13 then 0xc30c8ea1 else if i == 14 then 0x5a05df1b else 0x2d02ef8d
  }

  function Table256(i: bv32): bv32 {
    var h, l := i >> 4, i & 0xf;
    if h == 0 then Row0(l) else if h == 1 then Row1(l) else if h == 2 then Row2(l) else if h == 3 then Row3(l) else
    if h == 4 then Row4(l) else if h == 5 then Row5(l) else if h == 6 then Row6(l) else if h == 7 then Row7(l) else
    if h == 8 then Row8(l) else if h == 9 then Row9(l) else if h == 10 then Row10(l) else if h == 11 then Row11(l) else
    if h == 12 then Row12(l) else if h == 13 then Row13(l) else if h == 14 then Row14(l) else Row15(l)
  }

  // ----- the tables are steps of the division

  lemma Table16Is(i: bv32)
    requires i < 16
    ensures Table16(i) == Step4(i)
  {
  }

  lemma Row0Is(i: bv32)
    requires i < 16
    ensures Row0(i) == Step8(0 ^ i)
  {
  }

  lemma Row1Is(i: bv32)
    requires i < 16
    ensures Row1(i) == Step8(16 ^ i)
  {
  }

  lemma Row2Is(i: bv32)
    requires i < 16
    ensures Row2(i) == Step8(32 ^ i)
  {
  }

  lemma Row3Is(i: bv32)
    requires i < 16
    ensures Row3(i) == Step8(48 ^ i)
  {
  }

  lemma Row4Is(i: bv32)
    requires i < 16
    ensures Row4(i) == Step8(64 ^ i)
  {
  }

  lemma Row5Is(i: bv32)
    requires i < 16
    ensures Row5(i) == Step8(80 ^ i)
  {
  }

  lemma Row6Is(i: bv32)
    requires i < 16
    ensures Row6(i) == Step8(96 ^ i)
  {
  }

  lemma Row7Is(i: bv32)
    requires i < 16
    ensures Row7(i) == Step8(112 ^ i)
  {
  }

  lemma Row8Is(i: bv32)
    requires i < 16
    ensures Row8(i) == Step8(128 ^ i)
  {
  }

  lemma Row9Is(i: bv32)
    requires i < 16
    ensures Row9(i) == Step8(144 ^ i)
  {
  }

  lemma Row10Is(i: bv32)
    requires i < 16
    ensures Row10(i) == Step8(160 ^ i)
  {
  }

  lemma Row11Is(i: bv32)
    requires i < 16
    ensures Row11(i) == Step8(176 ^ i)
  {
  }

  lemma Row12Is(i: bv32)
    requires i < 16
    ensures Row12(i) == Step8(192 ^ i)
  {
  }

  lemma Row13Is(i: bv32)
    requires i < 16
    ensures Row13(i) == Step8(208 ^ i)
  {
  }

  lemma Row14Is(i: bv32)
    requires i < 16
    ensures Row14(i) == Step8(224 ^ i)
  {
  }

  lemma Row15Is(i: bv32)
    requires i < 16
    ensures Row15(i) == Step8(240 ^ i)
  {
  }

  lemma Table256Is(i: bv32)
    requires i < 256
    ensures Table256(i) == Step8(i)
  {
    hide Row0, Row1, Row2, Row3, Row4, Row5, Row6, Row7, Row8, Row9, Row10, Row11, Row12, Row13, Row14, Row15, Step8;
    var h, l := i >> 4, i & 0xf;
    Halves(i);
    if h == 0 { Row0Is(l); }
    if h == 1 { Row1Is(l); }
    if h == 2 { Row2Is(l); }
    if h == 3 { Row3Is(l); }
    if h == 4 { Row4Is(l); }
    if h == 5 { Row5Is(l); }
    if h == 6 { Row6Is(l); }
    if h == 7 { Row7Is(l); }
    if h == 8 { Row8Is(l); }
    if h == 9 { Row9Is(l); }
    if h == 10 { Row10Is(l); }
    if h == 11 { Row11Is(l); }
    if h == 12 { Row12Is(l); }
    if h == 13 { Row13Is(l); }
    if h == 14 { Row14Is(l); }
    if h == 15 { Row15Is(l); }
  }

  lemma Halves(i: bv32)
    requires i < 256
    ensures i >> 4 < 16 && i & 0xf < 16 && i == (i >> 4 << 4) ^ (i & 0xf)
  {
  }

  // ----- the division is linear

  lemma ShiftXorBits(a: bv32, b: bv32)
    ensures (a ^ b) >> 1 == (a >> 1) ^ (b >> 1)
  {
  }

  lemma XorIs(a: bv32, b: bv32)
    ensures Xor(a, b) == a ^ b
  {
  }

  lemma ShiftXor(a: bv32, b: bv32)
    ensures Xor(a, b) >> 1 == Xor(a >> 1, b >> 1)
  {
    hide Xor;
    ShiftXorBits(a, b);
    XorIs(a, b);
    XorIs(a >> 1, b >> 1);
  }

  lemma LowXor(a: bv32, b: bv32)
    ensures Xor(a, b) & 1 == 1 <==> (a & 1 == 1) != (b & 1 == 1)
  {
  }

  lemma XorRules(x: bv32, y: bv32, p: bv32)
    ensures Xor(Xor(x, p), y) == Xor(Xor(x, y), p)
    ensures Xor(x, Xor(y, p)) == Xor(Xor(x, y), p)
    ensures Xor(Xor(x, p), Xor(y, p)) == Xor(x, y)
  {
  }

  lemma BitXor(a: bv32, b: bv32)
    ensures Bit(Xor(a, b)) == Xor(Bit(a), Bit(b))
  {
    hide Xor;
    ShiftXor(a, b);
    LowXor(a, b);
    XorRules(a >> 1, b >> 1, Poly);
  }

  lemma Step4Xor(a: bv32, b: bv32)
    ensures Step4(Xor(a, b)) == Xor(Step4(a), Step4(b))
  {
    hide Bit, Xor;
    BitXor(a, b);
    BitXor(Bit(a), Bit(b));
    BitXor(Bit(Bit(a)), Bit(Bit(b)));
    BitXor(Bit(Bit(Bit(a))), Bit(Bit(Bit(b))));
  }

  // The parts of a word.
  function Low4(c: bv32): bv32 { c & 0xf }

  function High4(c: bv32): bv32 { c & 0xffff_fff0 }

  function Low8(c: bv32): bv32 { c & 0xff }

  function Shift4(c: bv32): bv32 { c >> 4 }

  function Shift8(c: bv32): bv32 { c >> 8 }

  lemma Low4Small(c: bv32)
    ensures Low4(c) < 16
  {
  }

  lemma SplitWord(c: bv32)
    ensures c == Xor(Low4(c), High4(c))
  {
  }

  lemma High4Clear(c: bv32)
    ensures Low4(High4(c)) == 0
  {
  }

  lemma High4Shifts(c: bv32)
    ensures Shift4(High4(c)) == Shift4(c)
  {
  }

  // Bits that do not reach the low end are only shifted.
  lemma Step4Shifts(c: bv32)
    requires Low4(c) == 0
    ensures Step4(c) == Shift4(c)
  {
  }

  // Four bits by the table of 16.
  lemma Step4ByTable(c: bv32)
    ensures Step4(c) == Xor(Table16(Low4(c)), Shift4(c))
  {
    hide Table16, Step4, Xor, Low4, High4, Shift4;
    SplitWord(c);
    Step4Xor(Low4(c), High4(c));
    Low4Small(c);
    Table16Is(Low4(c));
    High4Clear(c);
    Step4Shifts(High4(c));
    High4Shifts(c);
  }

  function High8(c: bv32): bv32 { c & 0xffff_ff00 }

  lemma Low8Small(c: bv32)
    ensures Low8(c) < 256
  {
  }

  lemma SplitByte(c: bv32)
    ensures c == Xor(Low8(c), High8(c))
  {
  }

  lemma High8Clear(c: bv32)
    ensures Low4(High8(c)) == 0
  {
  }

  lemma High8ClearTwice(c: bv32)
    ensures Low4(Shift4(High8(c))) == 0
  {
  }

  lemma High8Shifts(c: bv32)
    ensures Shift4(Shift4(High8(c))) == Shift8(c)
  {
  }

  // Eight bits by the table of 256.
  lemma Step8ByTable(c: bv32)
    ensures Step8(c) == Xor(Table256(Low8(c)), Shift8(c))
  {
    hide Table256, Step4, Xor, Low4, Low8, High8, Shift4, Shift8;
    SplitByte(c);
    Step4Xor(Low8(c), High8(c));
    High8Clear(c);
    Step4Shifts(High8(c));
    Step4Xor(Step4(Low8(c)), Shift4(High8(c)));
    High8ClearTwice(c);
    Step4Shifts(Shift4(High8(c)));
    High8Shifts(c);
    Low8Small(c);
    Table256Is(Low8(c));
  }

  // ----- a byte at a time, or half a byte

  function Long(c: bv32, b: bv32): bv32 { Xor(Table256(Low8(Xor(c, b))), Shift8(c)) }

  lemma LongStep(c: bv32, b: bv32)
    requires b < 256
    ensures Step8(Xor(c, b)) == Long(c, b)
  {
    hide Table256, Step8, Xor, Low8, Shift8;
    Step8ByTable(Xor(c, b));
    ShiftedOut(c, b);
  }

  lemma ShiftedOut(c: bv32, b: bv32)
    requires b < 256
    ensures Shift8(Xor(c, b)) == Shift8(c)
  {
  }

  // Half a byte h.
  function Short(c: bv32, h: bv32): bv32 { Xor(Table16(Low4(Xor(c, h))), Shift4(c)) }

  lemma HalfStep(c: bv32, h: bv32)
    requires h < 16
    ensures Short(c, h) == Step4(Xor(c, h))
  {
    hide Table16, Step4, Xor, Low4, Shift4;
    HalfShifted(c, h);
    Step4ByTable(Xor(c, h));
  }

  lemma HalfShifted(c: bv32, h: bv32)
    requires h < 16
    ensures Shift4(Xor(c, h)) == Shift4(c)
  {
  }

  function Up4(h: bv32): bv32 { h << 4 }

  lemma ByteHalves(b: bv32)
    requires b < 256
    ensures Low4(b) < 16 && Shift4(b) < 16
  {
  }

  lemma ByteJoins(b: bv32)
    requires b < 256
    ensures b == Xor(Low4(b), Up4(Shift4(b)))
  {
  }

  lemma UpClear(h: bv32)
    requires h < 16
    ensures Low4(Up4(h)) == 0
  {
  }

  lemma UpShifts(h: bv32)
    requires h < 16
    ensures Shift4(Up4(h)) == h
  {
  }

  lemma ShortStep(c: bv32, b: bv32)
    requires b < 256
    ensures Step8(Xor(c, b)) == Short(Short(c, Low4(b)), Shift4(b))
  {
    hide Table16, Step4, Xor, Low4, Shift4, Up4, Short;
    var lo, hi := Low4(b), Shift4(b);
    ByteHalves(b);
    ByteJoins(b);
    HalfStep(c, lo);
    HalfStep(Short(c, lo), hi);
    XorRules(c, lo, Up4(hi));
    Step4Xor(Xor(c, lo), Up4(hi));
    UpClear(hi);
    Step4Shifts(Up4(hi));
    UpShifts(hi);
  }

  // ----- the functions

  // ngx_crc32_short
  method CrcShort(p: seq<bv8>) returns (crc: bv32)
    ensures crc == Crc(p)
  {
    hide Table16, Step8, Xor, Low4, Shift4, Wide;
    crc := 0xffff_ffff;
    var i := 0;
    while i < |p|
      invariant 0 <= i <= |p| && crc == CrcFrom(0xffff_ffff, p[..i])
    {
      var c := Wide(p[i]);
      NextByte(0xffff_ffff, p, i);
      ShortStep(crc, c);
      crc := Xor(Table16(Low4(Xor(crc, Low4(c)))), Shift4(crc));
      crc := Xor(Table16(Low4(Xor(crc, Shift4(c)))), Shift4(crc));
      i := i + 1;
    }
    assert p[..i] == p;
    crc := Xor(crc, 0xffff_ffff);
  }

  // ngx_crc32_long
  method CrcLong(p: seq<bv8>) returns (crc: bv32)
    ensures crc == Crc(p)
  {
    hide Xor;
    crc := Update(0xffff_ffff, p);
    crc := Xor(crc, 0xffff_ffff);
  }

  // ngx_crc32_update
  method Update(c: bv32, p: seq<bv8>) returns (crc: bv32)
    ensures crc == CrcFrom(c, p)
  {
    hide Table256, Step8, Xor, Low8, Shift8, Wide;
    crc := c;
    var i := 0;
    while i < |p|
      invariant 0 <= i <= |p| && crc == CrcFrom(c, p[..i])
    {
      NextByte(c, p, i);
      LongStep(crc, Wide(p[i]));
      crc := Xor(Table256(Low8(Xor(crc, Wide(p[i])))), Shift8(crc));
      i := i + 1;
    }
    assert p[..i] == p;
  }

  lemma WideSmall(b: bv8)
    ensures Wide(b) < 256
  {
  }

  lemma NextByte(c: bv32, p: seq<bv8>, i: nat)
    requires i < |p|
    ensures CrcFrom(c, p[..i + 1]) == Step8(Xor(CrcFrom(c, p[..i]), Wide(p[i]))) && Wide(p[i]) < 256
  {
    hide Step8, Xor, Wide;
    WideSmall(p[i]);
    assert p[..i + 1][..i] == p[..i];
  }

  // Updating by two pieces is updating by both in one.
  lemma {:induction false} UpdatesJoin(c: bv32, a: seq<bv8>, b: seq<bv8>)
    ensures CrcFrom(CrcFrom(c, a), b) == CrcFrom(c, a + b)
  {
    hide Step8, Xor, Wide;
    if b == [] {
      assert a + b == a;
    } else {
      assert (a + b)[..|a + b| - 1] == a + b[..|b| - 1];
      UpdatesJoin(c, a, b[..|b| - 1]);
    }
  }
}
