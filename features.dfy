// CPU feature flags (src/platform/Features.h) and the feature-detection
// program (src/platform/Features.cpp) that prints the supported features
// and returns their bit mask.

module Features {

  // ---------------------------------------------------------------------
  // Build-time feature bits.

  const F_MMX: bv32 := 1 << 0
  const F_SSE: bv32 := 1 << 1
  const F_SSE2: bv32 := 1 << 2
  const F_SSE3: bv32 := 1 << 3
  const F_SSSE3: bv32 := 1 << 4
  const F_SSE4_1: bv32 := 1 << 5
  const F_SSE4_2: bv32 := 1 << 6
  const F_FMA: bv32 := 1 << 7
  const F_AVX: bv32 := 1 << 8
  const F_AVX2: bv32 := 1 << 9

  /** The ten feature bits in declaration order. */
  const AllFeatureBits: seq<bv32> :=
    [F_MMX, F_SSE, F_SSE2, F_SSE3, F_SSSE3, F_SSE4_1, F_SSE4_2, F_FMA, F_AVX, F_AVX2]

  /** When the build does not define the feature bits, every feature is assumed. */
  const DefaultBits: bv32 := 0xffff_ffff

  /** `_HAS_FEATURE(x)`: whether the build's feature bits include `x`. */
  predicate HasFeature(bits: bv32, x: bv32)
  {
    bits & x != 0
  }

  /**
   * Each `_HAS_*` test sees exactly its own bit: the feature bits are
   * distinct single bits, and the default bits contain all of them.
   */
  lemma FeatureBitsDistinct()
    ensures forall i, j :: 0 <= i < |AllFeatureBits| && 0 <= j < |AllFeatureBits| ==>
              (HasFeature(AllFeatureBits[i], AllFeatureBits[j]) <==> i == j)
    ensures forall i :: 0 <= i < |AllFeatureBits| ==> HasFeature(DefaultBits, AllFeatureBits[i])
  {
    FeatureBitsAreShifts();
    forall i, j | 0 <= i < |AllFeatureBits| && 0 <= j < |AllFeatureBits|
      ensures HasFeature(AllFeatureBits[i], AllFeatureBits[j]) <==> i == j
    {
      SingleBits(i, j);
    }
  }

  /** Feature bit `i` is bit `i`. */
  lemma FeatureBitsAreShifts()
    ensures |AllFeatureBits| == 10
    ensures forall i :: 0 <= i < 10 ==> AllFeatureBits[i] == (1 as bv32) << i
  {
  }

  lemma SingleBits(i: nat, j: nat)
    requires i < 10 && j < 10
    ensures ((1 as bv32) << i) & ((1 as bv32) << j) != 0 <==> i == j
  {
  }

  // ---------------------------------------------------------------------
  // Run-time detection.

  datatype Register = EAX | EBX | ECX | EDX

  /** One row of the feature table. */
  datatype Feature = Feature(featureBits: int, name: string, functionIndex: int,
                             register: Register, registerBits: bv32)

  /** The four registers `__cpuidex` fills. */
  datatype Registers = Registers(eax: bv32, ebx: bv32, ecx: bv32, edx: bv32)

  function RegisterValue(regs: Registers, r: Register): bv32
  {
    match r
    case EAX => regs.eax
    case EBX => regs.ebx
    case ECX => regs.ecx
    case EDX => regs.edx
  }

  /**
   * The processor as the detection sees it: the highest cpuid function it
   * supports (leaf 0, EAX) and the registers each leaf returns.
   */
  datatype CpuId = CpuId(maxFunction: int, leaf: int -> Registers)

  /**
   * The compiler branches of `check_feature`: on Windows the cpuid leaves are
   * queried directly; under GCC the answer comes from `__builtin_cpu_supports`.
   */
  datatype Platform = Windows(cpu: CpuId) | Gcc(supports: string -> bool)

  /**
   * `operator<` of the table orders features by their feature bits, which are
   * held in an `int`; for masks below 2^31 that is the unsigned order.
   */
  predicate FeatureLess(a: Feature, b: Feature)
  {
    a.featureBits < b.featureBits
  }

  /** The feature table, in the order it is written. */
  const FeatureList: seq<Feature> := [
    Feature(1, "mmx", 1, EDX, 1 << 23),
    Feature(2, "sse", 1, EDX, 1 << 25),
    Feature(4, "sse2", 1, EDX, 1 << 26),
    Feature(8, "sse3", 1, ECX, 1 << 0),
    Feature(16, "ssse3", 1, ECX, 1 << 9),
    Feature(32, "sse4.1", 1, ECX, 1 << 19),
    Feature(64, "sse4.2", 1, ECX, 1 << 20),
    Feature(128, "fma", 1, ECX, 1 << 12),
    Feature(256, "avx", 1, ECX, 1 << 28),
    Feature(512, "avx2", 7, EBX, 1 << 5)
  ]

  /** The table's feature bits are the `_F_*` bits, in the same order. */
  lemma FeatureListBits()
    ensures |FeatureList| == |AllFeatureBits|
    ensures forall i :: 0 <= i < |FeatureList| ==> FeatureList[i].featureBits == AllFeatureBits[i] as int
  {
  }

  /** A sequence ordered strictly by `operator<`, as a `std::set` iterates. */
  predicate StrictlyOrdered(s: seq<Feature>)
  {
    forall i, j :: 0 <= i < j < |s| ==> FeatureLess(s[i], s[j])
  }

  /**
   * `std::set::insert`: the element goes to its ordered place; an element
   * that is neither less nor greater than one already present is dropped.
   */
  function SetInsert(s: seq<Feature>, f: Feature): (r: seq<Feature>)
    requires StrictlyOrdered(s)
    ensures StrictlyOrdered(r)
    ensures forall g :: g in s ==> g in r
    ensures forall g :: g in r ==> g in s || g == f
    ensures (forall g :: g in s ==> FeatureLess(g, f)) ==> r == s + [f]
  {
    if |s| == 0 then [f]
    else
      assert s[0] in s;
      if FeatureLess(f, s[0]) then
      assert forall j :: 0 <= j < |s| ==> FeatureLess(f, s[j]);
      [f] + s
    else if !FeatureLess(s[0], f) then s
    else
      var rest := SetInsert(s[1..], f);
      assert forall g :: g in s[1..] ==> FeatureLess(s[0], g);
      [s[0]] + rest
  }

  /** The set built from an initializer list, one insertion at a time. */
  function SetFromList(l: seq<Feature>): (r: seq<Feature>)
    ensures StrictlyOrdered(r)
  {
    if |l| == 0 then [] else SetInsert(SetFromList(l[..|l| - 1]), l[|l| - 1])
  }

  /** A list already strictly ordered by feature bits loses nothing and keeps its order. */
  lemma {:induction false} OrderedListIsItsSet(l: seq<Feature>)
    requires StrictlyOrdered(l)
    ensures SetFromList(l) == l
  {
    if |l| > 0 {
      var init := l[..|l| - 1];
      InitOrdered(l);
      OrderedListIsItsSet(init);
      assert init + [l[|l| - 1]] == l;
      LastIsGreatest(init, l[|l| - 1]);
    }
  }

  /** Dropping the last element keeps a sequence ordered. */
  lemma InitOrdered(l: seq<Feature>)
    requires StrictlyOrdered(l) && |l| > 0
    ensures StrictlyOrdered(l[..|l| - 1])
  {
  }

  /** The last element of an ordered sequence is greater than every other. */
  lemma LastIsGreatest(init: seq<Feature>, last: Feature)
    requires StrictlyOrdered(init + [last])
    ensures forall g :: g in init ==> FeatureLess(g, last)
  {
    forall g | g in init ensures FeatureLess(g, last) {
      var i :| 0 <= i < |init| && init[i] == g;
      assert (init + [last])[i] == g && (init + [last])[|init|] == last;
    }
  }

  /** All ten features reach the set, in declaration order. */
  lemma FeatureSetIsTable()
    ensures SetFromList(FeatureList) == FeatureList
  {
    assert StrictlyOrdered(FeatureList);
    OrderedListIsItsSet(FeatureList);
  }

  /** `check_feature`: whether the running processor supports `f`. */
  function CheckFeature(f: Feature, platform: Platform): (r: bool)
    ensures platform.Windows? ==>
              (r <==> platform.cpu.maxFunction >= f.functionIndex &&
                      RegisterValue(platform.cpu.leaf(f.functionIndex), f.register) & f.registerBits != 0)
  {
    if platform.Gcc? then platform.supports(f.name)
    else if platform.cpu.maxFunction < f.functionIndex then false
    else RegisterValue(platform.cpu.leaf(f.functionIndex), f.register) & f.registerBits != 0
  }

  /** `std::toupper` in the "C" locale. */
  function UpperChar(c: char): (r: char)
    ensures 'a' <= c <= 'z' ==> 'A' <= r <= 'Z' && r as int == c as int - 'a' as int + 'A' as int
    ensures !('a' <= c <= 'z') ==> r == c
  {
    if 'a' <= c <= 'z' then (c as int - 'a' as int + 'A' as int) as char else c
  }

  /** `to_upper`: copies the string and converts it in place, character by character. */
  method ToUpper(str: string) returns (out: string)
    ensures |out| == |str|
    ensures forall i :: 0 <= i < |str| ==> out[i] == UpperChar(str[i])
  {
    var buf := new char[|str|](i requires 0 <= i < |str| => str[i]);
    var k := 0;
    while k < buf.Length
      invariant 0 <= k <= buf.Length
      invariant forall i :: 0 <= i < k ==> buf[i] == UpperChar(str[i])
      invariant forall i :: k <= i < buf.Length ==> buf[i] == str[i]
    {
      buf[k] := UpperChar(buf[k]);
      k := k + 1;
    }
    out := buf[..];
  }

  /** The upper-cased names of the supported features, in set order. */
  function SupportedNames(fs: seq<Feature>, platform: Platform): (r: seq<string>)
    ensures |r| <= |fs|
  {
    if |fs| == 0 then []
    else
      var init := SupportedNames(fs[..|fs| - 1], platform);
      var f := fs[|fs| - 1];
      if CheckFeature(f, platform) then init + [UpperString(f.name)] else init
  }

  function UpperString(s: string): (r: string)
    ensures |r| == |s| && forall i :: 0 <= i < |s| ==> r[i] == UpperChar(s[i])
  {
    seq(|s|, i requires 0 <= i < |s| => UpperChar(s[i]))
  }

  /** Bitwise or of two non-negative integers, bit by bit from the lowest. */
  function BitOr(a: nat, b: nat): (r: nat)
    ensures a == 0 ==> r == b
    ensures b == 0 ==> r == a
  {
    if a == 0 then b
    else if b == 0 then a
    else 2 * BitOr(a / 2, b / 2) + (if a % 2 == 1 || b % 2 == 1 then 1 else 0)
  }

  /** A non-zero operand leaves a non-zero or. */
  lemma {:induction false} BitOrNonZero(a: nat, b: nat)
    requires b != 0
    ensures BitOr(a, b) != 0
  {
    if a != 0 && b % 2 == 0 {
      BitOrNonZero(a / 2, b / 2);
    }
  }

  /** The bits of the supported features, or-ed together. */
  function SupportedBits(fs: seq<Feature>, platform: Platform): nat
    requires NonZeroBits(fs)
  {
    if |fs| == 0 then 0
    else
      var init := SupportedBits(fs[..|fs| - 1], platform);
      var f := fs[|fs| - 1];
      if CheckFeature(f, platform) then BitOr(init, f.featureBits) else init
  }

  /** The names separated by ", ". */
  function JoinComma(names: seq<string>): string
  {
    if |names| == 0 then []
    else if |names| == 1 then names[0] + []
    else JoinComma(names[..|names| - 1]) + ", " + names[|names| - 1]
  }

  /** Every feature of the table has a non-empty mask that fits a non-negative `int`. */
  predicate NonZeroBits(fs: seq<Feature>)
  {
    forall i :: 0 <= i < |fs| ==> 0 < fs[i].featureBits < 0x8000_0000
  }

  /**
   * The program's body: walk the set, print each supported feature in upper
   * case with ", " before every one but the first, and collect the bits.
   */
  method DetectFeatures(fs: seq<Feature>, platform: Platform) returns (bits: nat, output: string)
    requires NonZeroBits(fs)
    ensures bits == SupportedBits(fs, platform)
    ensures output == JoinComma(SupportedNames(fs, platform))
  {
    bits := 0;
    output := "";
    var k := 0;
    while k < |fs|
      invariant 0 <= k <= |fs|
      invariant bits == SupportedBits(fs[..k], platform)
      invariant output == JoinComma(SupportedNames(fs[..k], platform))
      invariant bits != 0 <==> SupportedNames(fs[..k], platform) != []
    {
      var f := fs[k];
      DetectAdvance(fs, k, platform, bits, output);
      if CheckFeature(f, platform) {
        var name := ToUpper(f.name);
        assert name == UpperString(f.name);
        if bits != 0 {
          output := output + ", ";
        }
        output := output + name;
        bits := BitOr(bits, f.featureBits);
      }
      k := k + 1;
    }
    assert fs[..k] == fs;
  }

  /** The loop invariants of `DetectFeatures` carry over from `k` features to `k + 1`. */
  lemma DetectAdvance(fs: seq<Feature>, k: nat, platform: Platform, bits: nat, output: string)
    requires k < |fs| && NonZeroBits(fs)
    requires bits == SupportedBits(fs[..k], platform)
    requires output == JoinComma(SupportedNames(fs[..k], platform))
    requires bits != 0 <==> SupportedNames(fs[..k], platform) != []
    ensures var f := fs[k];
            var bits' := if CheckFeature(f, platform) then BitOr(bits, f.featureBits) else bits;
            var output' := if CheckFeature(f, platform) then (if bits != 0 then output + ", " else output) + UpperString(f.name)
                           else output;
            && bits' == SupportedBits(fs[..k + 1], platform)
            && output' == JoinComma(SupportedNames(fs[..k + 1], platform))
            && (bits' != 0 <==> SupportedNames(fs[..k + 1], platform) != [])
  {
    DetectStep(fs, k, platform);
    if CheckFeature(fs[k], platform) {
      JoinCommaSnoc(SupportedNames(fs[..k], platform), UpperString(fs[k].name));
      BitOrNonZero(bits, fs[k].featureBits);
    }
  }

  /** One more feature of the set extends the names and bits by that feature alone. */
  lemma DetectStep(fs: seq<Feature>, k: nat, platform: Platform)
    requires k < |fs| && NonZeroBits(fs)
    ensures SupportedNames(fs[..k + 1], platform) ==
            if CheckFeature(fs[k], platform) then SupportedNames(fs[..k], platform) + [UpperString(fs[k].name)]
            else SupportedNames(fs[..k], platform)
    ensures SupportedBits(fs[..k + 1], platform) ==
            if CheckFeature(fs[k], platform) then BitOr(SupportedBits(fs[..k], platform), fs[k].featureBits)
            else SupportedBits(fs[..k], platform)
  {
    assert fs[..k + 1][..k] == fs[..k];
  }

  /** Appending a name adds a separator exactly when there were names before. */
  lemma JoinCommaSnoc(names: seq<string>, n: string)
    ensures JoinComma(names + [n]) == if names == [] then n else JoinComma(names) + ", " + n
  {
    assert (names + [n])[..|names|] == names;
  }

  /** Every feature of the table has a mask the detection can accumulate. */
  lemma TableBitsNonZero()
    ensures NonZeroBits(FeatureList)
  {
    forall i | 0 <= i < |FeatureList| ensures 0 < FeatureList[i].featureBits < 0x8000_0000 {
    }
  }

  /** The or-ed bits are zero exactly when no feature of the list is supported. */
  lemma {:induction false} SupportedBitsZero(fs: seq<Feature>, platform: Platform)
    requires NonZeroBits(fs)
    ensures SupportedBits(fs, platform) == 0 <==> forall i :: 0 <= i < |fs| ==> !CheckFeature(fs[i], platform)
  {
    if |fs| > 0 {
      var init, f := fs[..|fs| - 1], fs[|fs| - 1];
      assert NonZeroBits(init);
      SupportedBitsZero(init, platform);
      if CheckFeature(f, platform) {
        BitOrNonZero(SupportedBits(init, platform), f.featureBits);
      }
      assert forall i :: 0 <= i < |init| ==> fs[i] == init[i];
    }
  }

  /** The total length of the names. */
  function TotalLength(names: seq<string>): nat
  {
    if |names| == 0 then 0 else TotalLength(names[..|names| - 1]) + |names[|names| - 1]|
  }

  /** The joined text is the names plus two characters for each separator. */
  lemma {:induction false} JoinCommaLength(names: seq<string>)
    ensures |names| > 0 ==> |JoinComma(names)| == TotalLength(names) + 2 * (|names| - 1)
    ensures |names| == 0 ==> JoinComma(names) == ""
  {
    if |names| > 1 {
      JoinCommaLength(names[..|names| - 1]);
    } else if |names| == 1 {
      assert names[..0] == [];
    }
  }
}
