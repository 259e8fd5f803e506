/** How a device is named: the bus and device numbers of its devid, and its printed busid. */
module Identity {
  import opened Bytes

  // Hashed and printed bytes are bit vectors; numbers that end up in wire fields are integers.
  type Text = seq<bv8>

  const U32_MAX := 0xFFFF_FFFF

  // ----- decimal numbers -----

  predicate IsDigit(b: bv8) {
    0x30 <= b <= 0x39
  }

  function Digit(d: nat): (b: bv8)
    requires d < 10
    ensures IsDigit(b) && DigitValue(b) == d
  {
    match d
    case 0 => 0x30
    case 1 => 0x31
    case 2 => 0x32
    case 3 => 0x33
    case 4 => 0x34
    case 5 => 0x35
    case 6 => 0x36
    case 7 => 0x37
    case 8 => 0x38
    case 9 => 0x39
  }

  function DigitValue(b: bv8): nat {
    (b - 0x30) as nat
  }

  function Decimal(n: nat): (s: Text)
    ensures s != [] && forall b | b in s :: IsDigit(b)
  {
    if n < 10 then [Digit(n)] else Decimal(n / 10) + [Digit(n % 10)]
  }

  function Value(s: Text): nat {
    if s == [] then 0 else 10 * Value(s[..|s| - 1]) + DigitValue(s[|s| - 1])
  }

  lemma {:induction false} ValueOfDecimal(n: nat)
    ensures Value(Decimal(n)) == n
  {
    hide DigitValue;
    var s := Decimal(n);
    if n < 10 {
      assert s[..0] == [];
    } else {
      ValueOfDecimal(n / 10);
      assert s[..|s| - 1] == Decimal(n / 10);
    }
  }

  /** An unsigned 32-bit number: digits, at least one, with an optional plus sign. */
  function ParseU32(s: Text): Option<nat> {
    var digits := if s != [] && s[0] == 0x2B then s[1..] else s;
    if digits == [] || (exists b | b in digits :: !IsDigit(b)) || Value(digits) > U32_MAX then None
    else Some(Value(digits))
  }

  // ----- bus and device number -----

  const BASIS: bv32 := 0x811C_9DC5
  const PRIME: bv32 := 0x0100_0193

  /** Multiplication wraps at 32 bits. */
  function Scaled(h: bv32): bv32 {
    h * PRIME
  }

  function Mix(h: bv32, b: bv8): bv32 {
    Scaled(h) ^ (b as bv32)
  }

  function Hash(s: Text): bv32 {
    if s == [] then BASIS else Mix(Hash(s[..|s| - 1]), s[|s| - 1])
  }

  function Fold(h: bv32): bv8 {
    ((h & 0xFF) ^ ((h >> 8) & 0xFF) ^ ((h >> 16) & 0xFF) ^ (h >> 24)) as bv8
  }

  function AtLeastOne(f: bv8): (r: byte)
    ensures 1 <= r
  {
    if f == 0 then 1 else f as int
  }

  function BusNumber(bus: Text): (r: byte)
    ensures 1 <= r
  {
    match ParseU32(bus)
    case Some(n) => if n < 1 then 1 else if n > 0xFF then 0xFF else n
    case None => AtLeastOne(Fold(Hash(bus)))
  }

  function DeviceNumber(chain: Text, address: bv8): (r: byte)
    ensures 1 <= r
  {
    AtLeastOne(Fold(Hash(chain + [address])))
  }

  method HashLoop(s: Text) returns (h: bv32)
    ensures h == Hash(s)
  {
    h := BASIS;
    var n := 0;
    while n < |s|
      invariant n <= |s| && h == Hash(s[..n])
    {
      assert s[..n + 1][..n] == s[..n];
      h := Mix(h, s[n]);
      n := n + 1;
    }
    assert s[..n] == s;
  }

  method ParseBusId(bus: Text) returns (r: byte)
    ensures r == BusNumber(bus)
  {
    var parsed := ParseU32(bus);
    if parsed.Some? {
      return if parsed.value < 1 then 1 else if parsed.value > 0xFF then 0xFF else parsed.value;
    }
    var h := HashLoop(bus);
    r := AtLeastOne(Fold(h));
  }

  method DeriveBusDev(bus: Text, chain: Text, address: bv8) returns (busnum: byte, devnum: byte)
    ensures busnum == BusNumber(bus) && devnum == DeviceNumber(chain, address)
  {
    busnum := ParseBusId(bus);
    var h := HashLoop(chain);
    assert (chain + [address])[..|chain|] == chain;
    h := Mix(h, address);
    devnum := AtLeastOne(Fold(h));
  }

  /** A bus whose id is a number from 1 to 255 keeps that number. */
  lemma NumberedBusKept(n: nat)
    requires 1 <= n <= 0xFF
    ensures BusNumber(Decimal(n)) == n
  {
    ValueOfDecimal(n);
    assert IsDigit(Decimal(n)[0]);
  }

  /** A numeric bus id is its own number, forced into 1 to 255; one beyond 32 bits is hashed like a name. */
  lemma NumberedBusClamped(n: nat)
    ensures n <= 0xFFFF_FFFF ==> BusNumber(Decimal(n)) == if n < 1 then 1 else if n > 255 then 255 else n
    ensures n > 0xFFFF_FFFF ==> BusNumber(Decimal(n)) == AtLeastOne(Fold(Hash(Decimal(n))))
  {
    hide AtLeastOne, Fold, Hash;
    ValueOfDecimal(n);
    assert IsDigit(Decimal(n)[0]);
  }

  lemma DigitsExactly(b: bv8)
    ensures IsDigit(b) <==> b in [0x30, 0x31, 0x32, 0x33, 0x34, 0x35, 0x36, 0x37, 0x38, 0x39]
  {
  }

  /** Signs, blanks and letters: only a leading plus and digits make a number. */
  lemma NumberSyntax(n: nat)
    requires n <= 0xFFFF_FFFF
    ensures ParseU32([0x2B] + Decimal(n)) == Some(n) && ParseU32(Decimal(n)) == Some(n)
    ensures ParseU32([]) == None && ParseU32([0x2B]) == None
    ensures ParseU32([0x2D] + Decimal(n)) == None && ParseU32([0x20] + Decimal(n)) == None
  {
    ValueOfDecimal(n);
    var d := Decimal(n);
    assert IsDigit(d[0]) && ([0x2B] + d)[1..] == d;
    assert !IsDigit(([0x2D] + d)[0]) && !IsDigit(([0x20] + d)[0]);
    assert [0x2B][1..] == [];
  }

  /** Known values of the 32-bit FNV-1 hash: of nothing, of "a" and of "b". */
  lemma KnownHashes()
    ensures Hash([]) == 0x811C_9DC5 && Hash([0x61]) == 0x050C_5D7E && Hash([0x62]) == 0x050C_5D7D
  {
    assert [0x61 as bv8][..0] == [] && [0x62 as bv8][..0] == [];
  }

  /** The fold is the exclusive or of all four bytes. */
  lemma FoldBytes(a: bv8, b: bv8, c: bv8, d: bv8)
    ensures Fold(((a as bv32) << 24) | ((b as bv32) << 16) | ((c as bv32) << 8) | (d as bv32)) == a ^ b ^ c ^ d
  {
  }

  lemma FoldXor(h: bv32, b: bv8)
    ensures Fold(h ^ (b as bv32)) == Fold(h) ^ b
  {
  }

  lemma BitsByte(f: bv8)
    ensures (f as int) as bv8 == f
  {
  }

  /** What one port chain contributes: the address is then mixed in by exclusive or. */
  function ChainFold(chain: Text): bv8 {
    Fold(Scaled(Hash(chain)))
  }

  lemma HashSnoc(chain: Text, address: bv8)
    ensures Hash(chain + [address]) == Mix(Hash(chain), address)
  {
    hide Mix;
    assert (chain + [address])[..|chain|] == chain;
  }

  lemma MixFold(h: bv32, address: bv8)
    ensures Fold(Mix(h, address)) == Fold(Scaled(h)) ^ address
  {
    hide Fold, Scaled;
    FoldXor(Scaled(h), address);
  }

  lemma DeviceNumberOf(chain: Text, address: bv8)
    ensures DeviceNumber(chain, address) == AtLeastOne(ChainFold(chain) ^ address)
  {
    hide Mix, Fold, Scaled, Hash, AtLeastOne;
    HashSnoc(chain, address);
    MixFold(Hash(chain), address);
  }

  lemma SameAtLeastOne(f: bv8, g: bv8)
    ensures AtLeastOne(f) == AtLeastOne(g) <==> f == g || (f == 0 && g == 1) || (f == 1 && g == 0)
  {
    BitsByte(f);
    BitsByte(g);
  }

  lemma ClashBits(c: bv8, x: bv8, y: bv8)
    ensures (c ^ x == 0 && c ^ y == 1) <==> (x == c && y == c ^ 1)
    ensures c ^ x == c ^ y <==> x == y
  {
  }

  lemma Clash(c: bv8, a: bv8, b: bv8)
    requires a != b
    ensures (AtLeastOne(c ^ a) == AtLeastOne(c ^ b)) == ((a == c && b == c ^ 1) || (b == c && a == c ^ 1))
  {
    hide AtLeastOne;
    SameAtLeastOne(c ^ a, c ^ b);
    ClashBits(c, a, b);
    ClashBits(c, b, a);
  }

  /**
   * On one port chain two addresses share a device number exactly when their folds are 0 and 1,
   * that is, when they are one particular pair of addresses that differ in the lowest bit.
   */
  lemma DeviceNumberClash(chain: Text, a: bv8, b: bv8)
    requires a != b
    ensures var c := ChainFold(chain);
            (DeviceNumber(chain, a) == DeviceNumber(chain, b)) == ((a == c && b == c ^ 1) || (b == c && a == c ^ 1))
  {
    hide ChainFold, DeviceNumber, AtLeastOne;
    DeviceNumberOf(chain, a);
    DeviceNumberOf(chain, b);
    Clash(ChainFold(chain), a, b);
  }

  // ----- devid -----

  /** Bus number in the upper half, device number in the lower; a shift by 16 drops what exceeds it. */
  function Devid(busnum: u32, devnum: u32): u32
    requires devnum < 0x1_0000
  {
    busnum % 0x1_0000 * 0x1_0000 + devnum
  }

  function UpperHalf(devid: u32): u32 {
    devid / 0x1_0000
  }

  function LowerHalf(devid: u32): u32 {
    devid % 0x1_0000
  }

  /** The devid a client puts together after keeping 8 bits of each number. */
  function RebuiltDevid(busnum: u32, devnum: u32): u32 {
    Devid(busnum % 0x100, devnum % 0x100)
  }

  lemma HalvesOfDevid(busnum: u32, devnum: u32)
    requires busnum < 0x1_0000 && devnum < 0x1_0000
    ensures UpperHalf(Devid(busnum, devnum)) == busnum && LowerHalf(Devid(busnum, devnum)) == devnum
  {
    assert busnum % 0x1_0000 == busnum;
    assert (busnum * 0x1_0000 + devnum) / 0x1_0000 == busnum;
  }

  /** Such a client meets the devid check exactly if both numbers are below 256. */
  lemma RebuiltExactly(busnum: u32, devnum: u32)
    requires busnum < 0x1_0000 && devnum < 0x1_0000
    ensures RebuiltDevid(busnum, devnum) == Devid(busnum, devnum) <==> busnum <= 0xFF && devnum <= 0xFF
  {
    HalvesOfDevid(busnum, devnum);
    HalvesOfDevid(busnum % 0x100, devnum % 0x100);
  }

  // ----- busid -----

  datatype Location = Location(bus: Text, chain: Text, address: bv8)

  function Join(ports: Text): Text
    requires ports != []
  {
    if |ports| == 1 then Decimal(ports[0] as nat) else Decimal(ports[0] as nat) + [0x2E] + Join(ports[1..])
  }

  /** The bus id, a hyphen and the ports joined by dots; devices without a port chain print 0 and their address. */
  function Busid(l: Location): Text {
    if l.chain == [] then l.bus + [0x2D, 0x30, 0x2E] + Decimal(l.address as nat)
    else l.bus + [0x2D] + Join(l.chain)
  }

  function PrintedPorts(l: Location): (r: Text)
    ensures r != []
  {
    if l.chain == [] then [0, l.address] else l.chain
  }

  lemma BusidIsJoin(l: Location)
    ensures Busid(l) == l.bus + [0x2D] + Join(PrintedPorts(l))
  {
    if l.chain == [] {
      assert Decimal(0) == [0x30] && [0, l.address][1..] == [l.address];
      var a := Decimal(l.address as nat);
      assert l.bus + [0x2D, 0x30, 0x2E] + a == l.bus + [0x2D] + ([0x30] + [0x2E] + a);
    }
  }

  lemma {:induction false} JoinHasNoHyphen(ports: Text)
    requires ports != []
    ensures 0x2D !in Join(ports)
  {
    if |ports| > 1 {
      JoinHasNoHyphen(ports[1..]);
    }
  }

  function First(t: Text, sep: bv8): nat {
    if t == [] || t[0] == sep then 0 else 1 + First(t[1..], sep)
  }

  function Last(t: Text, sep: bv8): nat {
    if t == [] || t[|t| - 1] == sep then |t| else Last(t[..|t| - 1], sep)
  }

  lemma {:induction false} FirstAfter(a: Text, r: Text, sep: bv8)
    requires sep !in a
    ensures First(a + [sep] + r, sep) == |a|
  {
    var t := a + [sep] + r;
    if a != [] {
      assert t[0] == a[0] && t[1..] == a[1..] + [sep] + r;
      FirstAfter(a[1..], r, sep);
    }
  }

  lemma {:induction false} LastBefore(a: Text, r: Text, sep: bv8)
    requires sep !in r
    ensures Last(a + [sep] + r, sep) == |a| + 1
  {
    var t := a + [sep] + r;
    if r != [] {
      assert t[|t| - 1] == r[|r| - 1] && t[..|t| - 1] == a + [sep] + r[..|r| - 1];
      LastBefore(a, r[..|r| - 1], sep);
    }
  }

  lemma SameCut(a: Text, b: Text, r: Text, s: Text, sep: bv8)
    requires |a| == |b| && a + [sep] + r == b + [sep] + s
    ensures a == b && r == s
  {
    var t := a + [sep] + r;
    assert a == t[..|a|] == b && r == t[|a| + 1..] == s;
  }

  lemma JoinDotted(ports: Text)
    requires ports != []
    ensures |ports| > 1 <==> 0x2E in Join(ports)
  {
  }

  lemma {:induction false} JoinInjective(p: Text, q: Text)
    requires p != [] && q != [] && Join(p) == Join(q)
    ensures p == q
  {
    hide Decimal;
    BitsByte(p[0]);
    BitsByte(q[0]);
    ValueOfDecimal(p[0] as nat);
    ValueOfDecimal(q[0] as nat);
    JoinDotted(p);
    JoinDotted(q);
    if |p| == 1 {
      assert p == [p[0]] && q == [q[0]];
    } else {
      FirstAfter(Decimal(p[0] as nat), Join(p[1..]), 0x2E);
      FirstAfter(Decimal(q[0] as nat), Join(q[1..]), 0x2E);
      SameCut(Decimal(p[0] as nat), Decimal(q[0] as nat), Join(p[1..]), Join(q[1..]), 0x2E);
      JoinInjective(p[1..], q[1..]);
      assert p == [p[0]] + p[1..] && q == [q[0]] + q[1..];
    }
  }

  /** Two devices print the same busid exactly when they are on one bus and print the same ports. */
  lemma BusidDetermines(l: Location, m: Location)
    ensures Busid(l) == Busid(m) <==> l.bus == m.bus && PrintedPorts(l) == PrintedPorts(m)
  {
    BusidIsJoin(l);
    BusidIsJoin(m);
    JoinHasNoHyphen(PrintedPorts(l));
    JoinHasNoHyphen(PrintedPorts(m));
    if Busid(l) == Busid(m) {
      LastBefore(l.bus, Join(PrintedPorts(l)), 0x2D);
      LastBefore(m.bus, Join(PrintedPorts(m)), 0x2D);
      SameCut(l.bus, m.bus, Join(PrintedPorts(l)), Join(PrintedPorts(m)), 0x2D);
      JoinInjective(PrintedPorts(l), PrintedPorts(m));
    }
  }

  /** With port numbers from 1, as USB has them, the busid gives bus and chain, and a chainless device's address. */
  lemma BusidInjective(l: Location, m: Location)
    requires 0 !in l.chain && 0 !in m.chain
    ensures Busid(l) == Busid(m) <==> l.bus == m.bus && l.chain == m.chain && (l.chain == [] ==> l.address == m.address)
  {
    BusidDetermines(l, m);
    assert PrintedPorts(l)[0] == 0 <==> l.chain == [];
    assert PrintedPorts(m)[0] == 0 <==> m.chain == [];
    if l.chain == [] && m.chain == [] {
      assert PrintedPorts(l)[1] == l.address && PrintedPorts(m)[1] == m.address;
    }
  }

  /** A port numbered 0 would break that, in one way only. */
  lemma BusidClash(l: Location, m: Location)
    requires l.bus == m.bus && l.chain != m.chain
    ensures Busid(l) == Busid(m) <==>
            (l.chain == [] && m.chain == [0, l.address]) || (m.chain == [] && l.chain == [0, m.address])
  {
    BusidDetermines(l, m);
  }

  /** As printed: "1-2.3", and "1-0.5" for a device without a port chain. */
  lemma BusidExamples()
    ensures Busid(Location([0x31], [2, 3], 9)) == [0x31, 0x2D, 0x32, 0x2E, 0x33]
    ensures Busid(Location([0x31], [], 5)) == [0x31, 0x2D, 0x30, 0x2E, 0x35]
  {
    assert [2, 3][1..] == [3];
    assert Decimal(2) == [0x32] && Decimal(3) == [0x33] && Decimal(5) == [0x35];
  }
}
