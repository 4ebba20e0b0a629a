/** `RuntimeEffect`, a reference-counted handle around `SkRuntimeEffect`,
    and the small rules of its wrapper: construction as a `Result`, the
    uniform flag set, lookups whose "not found" is a null pointer or a
    negative index, the borrowed `Uniform`/`Varying` views that must never
    be dropped as owned values, and the transfer of child references into
    `make_shader`.

    Native calls are parameters: `Compiler` stands for
    `C_SkRuntimeEffect_Make`, `ShaderFactory` for
    `C_SkRuntimeEffect_makeShader` and `FilterFactory` for
    `C_SkRuntimeEffect_makeColorFilter`. The lookups follow Skia's
    `findUniform`/`findChild`, which return the first entry with the name.
 */
module RuntimeEffects {
  import opened Wrappers
  import opened Ownership

  // ---------------------------------------------------------------------
  // Construction
  // ---------------------------------------------------------------------

  /** `runtime_effect::Options`. */
  datatype Options = Options(forceNoInline: bool)

  /** What the native compiler hands back: the released effect pointer,
      null when compilation failed, and the error text it wrote. */
  datatype MakeReport = MakeReport(effect: Ptr, error: string)

  type Compiler = (string, Options) -> MakeReport

  /** `options.into().copied().unwrap_or_default()`. */
  function ResolveOptions(options: Option<Options>): (o: Options)
    ensures options.Some? ==> o == options.value
    ensures options.None? ==> !o.forceNoInline
  {
    options.GetOr(Options(false))
  }

  /** `new_with_options`: the compiled effect, adopted without an extra
      reference, or the compiler's error text when it returned null. */
  function NewWithOptions(sksl: string, options: Option<Options>, make: Compiler): (r: Result<RCHandle, string>)
    ensures var report := make(sksl, ResolveOptions(options));
      && (r.Failure? <==> report.effect.Null?)
      && (r.Failure? ==> r.error == report.error)
      && (r.Success? ==> IntoPtr(r.value) == report.effect)
  {
    var report := make(sksl, ResolveOptions(options));
    match FromPtr(report.effect)
    case Some(effect) => Success(effect)
    case None => Failure(report.error)
  }

  /** `new`: compile with the default options, `force_no_inline` off. */
  function New(sksl: string, make: Compiler): (r: Result<RCHandle, string>)
    ensures r == NewWithOptions(sksl, Some(Options(false)), make)
  {
    NewWithOptions(sksl, None, make)
  }

  /** A compiled effect fresh from the native factory has one reference,
      which the new handle takes over: dropping it destroys the effect. */
  lemma NewAdoptsTheReference(h: Heap, id: Id, sksl: string, options: Option<Options>, make: Compiler)
    requires id !in h
    requires make(sksl, ResolveOptions(options)).effect == Produce(h, id).1
    ensures NewWithOptions(sksl, options, make) == Success(RCHandle(id))
    ensures var h1 := Produce(h, id).0;
      Count(h1, id) == 1 && DropHandle(h1, RCHandle(id)) == h
  {
    AdoptThenDropDestroys(h, id);
  }

  // ---------------------------------------------------------------------
  // Uniforms, varyings and their flags
  // ---------------------------------------------------------------------

  /** The bits of `SkRuntimeEffect::Uniform::Flags`. */
  datatype Flag = Array | Marker | MarkerNormals | SrgbUnpremul

  function FlagBit(f: Flag): bv32 {
    match f
    case Array => 0x1
    case Marker => 0x2
    case MarkerNormals => 0x4
    case SrgbUnpremul => 0x8
  }

  const AllFlags: set<Flag> := {Array, Marker, MarkerNormals, SrgbUnpremul}

  /** The union of all declared flag bits. */
  const KnownBits: bv32 := 0xF

  /** `Flags::from_bits`: absent when any undeclared bit is set. */
  function FromBits(bits: bv32): (r: Option<set<Flag>>)
    ensures r.None? <==> bits & !KnownBits != 0
    ensures r.Some? ==> forall f :: f in r.value <==> bits & FlagBit(f) != 0
  {
    if bits & !KnownBits != 0 then None
    else Some(set f | f in AllFlags && bits & FlagBit(f) != 0)
  }

  /** `Flags::bits`: the bit pattern of a flag set. */
  function ToBits(flags: set<Flag>): (bits: bv32)
    ensures bits & !KnownBits == 0
  {
    (if Array in flags then 0x1 else 0)
    | (if Marker in flags then 0x2 else 0)
    | (if MarkerNormals in flags then 0x4 else 0)
    | (if SrgbUnpremul in flags then 0x8 else 0)
  }

  /** Flag sets and their declared bit patterns correspond one to one. */
  lemma FlagsRoundTrip(flags: set<Flag>, bits: bv32)
    ensures FromBits(ToBits(flags)) == Some(flags)
    ensures FromBits(bits).Some? ==> ToBits(FromBits(bits).value) == bits
  {
    var back := FromBits(ToBits(flags)).value;
    forall f ensures f in back <==> f in flags {
      match f
      case Array =>
      case Marker =>
      case MarkerNormals =>
      case SrgbUnpremul =>
    }
    assert back == flags;
    if FromBits(bits).Some? {
      var fs := FromBits(bits).value;
      assert Array in fs <==> bits & 0x1 != 0;
      assert Marker in fs <==> bits & 0x2 != 0;
      assert MarkerNormals in fs <==> bits & 0x4 != 0;
      assert SrgbUnpremul in fs <==> bits & 0x8 != 0;
    }
  }

  /** `SkRuntimeEffect::Uniform`, as far as the wrapper reads it. */
  datatype Uniform = Uniform(name: string, offset: nat, count: int, flags: bv32, marker: bv32)

  /** `SkRuntimeEffect::Varying`. */
  datatype Varying = Varying(name: string, width: int)

  const UnwrapNone := "called `Option::unwrap()` on a `None` value"

  /** `Uniform::flags`: `from_bits(..).unwrap()`, a panic on undeclared bits. */
  function Flags(u: Uniform): (r: Result<set<Flag>, string>)
    ensures r.Failure? <==> u.flags & !KnownBits != 0
    ensures r.Failure? ==> r.error == UnwrapNone
    ensures r.Success? ==> forall f :: f in r.value <==> u.flags & FlagBit(f) != 0
  {
    match FromBits(u.flags)
    case Some(flags) => Success(flags)
    case None => Failure(UnwrapNone)
  }

  /** `Uniform::is_array`: whether the flag set contains `ARRAY`; panics
      where `flags()` does. */
  function IsArray(u: Uniform): (r: Result<bool, string>)
    ensures r.Failure? <==> Flags(u).Failure?
    ensures r.Success? ==> (r.value <==> Array in Flags(u).value)
    ensures r.Success? ==> (r.value <==> u.flags & 0x1 != 0)
  {
    match Flags(u)
    case Success(flags) => Success(Array in flags)
    case Failure(e) => Failure(e)
  }

  /** The drop glue of the two never-owned native types. */
  const UniformGlue: DropGlue := NeverOwned("native type SkRuntimeEffect::Uniform can't be owned by Rust")
  const VaryingGlue: DropGlue := NeverOwned("native type SkRuntimeEffect::Varying can't be owned by Rust")

  /** The native state of a compiled effect the wrapper reads. */
  datatype Effect = Effect(uniforms: seq<Uniform>, children: seq<string>, varyings: seq<Varying>)

  /** A value-owned handle as the wrapper hands it out. */
  datatype Lent<T> = Lent(access: Access, value: T)

  /** `uniforms()`: a borrowed slice over the native uniforms. */
  function Uniforms(e: Effect): (vs: seq<Lent<Uniform>>)
    ensures |vs| == |e.uniforms|
    ensures forall i | 0 <= i < |vs| :: vs[i] == Lent(Borrowed, e.uniforms[i])
  {
    seq(|e.uniforms|, i requires 0 <= i < |e.uniforms| => Lent(Borrowed, e.uniforms[i]))
  }

  /** `varyings()`: a borrowed slice over the native varyings. */
  function Varyings(e: Effect): (vs: seq<Lent<Varying>>)
    ensures |vs| == |e.varyings|
    ensures forall i | 0 <= i < |vs| :: vs[i] == Lent(Borrowed, e.varyings[i])
  {
    seq(|e.varyings|, i requires 0 <= i < |e.varyings| => Lent(Borrowed, e.varyings[i]))
  }

  /** Uniforms and varyings are only lent out, so their lifetimes end
      without running the panicking drop glue; an owned one would panic. */
  lemma ViewsAreNeverDropped(e: Effect)
    ensures forall v | v in Uniforms(e) :: EndLifetime(UniformGlue, v.access) == Pass
    ensures forall v | v in Varyings(e) :: EndLifetime(VaryingGlue, v.access) == Pass
    ensures EndLifetime(UniformGlue, Owned)
            == Fail("native type SkRuntimeEffect::Uniform can't be owned by Rust")
    ensures EndLifetime(VaryingGlue, Owned)
            == Fail("native type SkRuntimeEffect::Varying can't be owned by Rust")
  {
  }

  // ---------------------------------------------------------------------
  // Lookups
  // ---------------------------------------------------------------------

  /** Skia's `findChild`: the index of the first child with the name, or -1. */
  function NativeFindChild(children: seq<string>, name: string): (i: int)
    ensures -1 <= i < |children|
    ensures i == -1 <==> name !in children
    ensures i >= 0 ==> children[i] == name && forall j | 0 <= j < i :: children[j] != name
  {
    if |children| == 0 then -1
    else if children[0] == name then 0
    else
      var k := NativeFindChild(children[1..], name);
      assert children == [children[0]] + children[1..];
      if k < 0 then -1 else k + 1
  }

  /** `i32::try_into::<usize>().ok()`: negative indices do not convert. */
  function ToUsize(i: int): (r: Option<nat>)
    ensures r.None? <==> i < 0
    ensures r.Some? ==> r.value == i
  {
    if i < 0 then None else Some(i)
  }

  /** `find_child`: absent exactly when no child has the name; otherwise the
      position of the first one that does. */
  function FindChild(e: Effect, name: string): (r: Option<nat>)
    ensures r.None? <==> name !in e.children
    ensures r.Some? ==> r.value < |e.children| && e.children[r.value] == name
    ensures r.Some? ==> forall j | 0 <= j < r.value :: e.children[j] != name
  {
    ToUsize(NativeFindChild(e.children, name))
  }

  /** What Skia's `findUniform` returns: null, or the address of a uniform. */
  datatype UniformPtr = NullUniform | UniformAt(index: nat)

  /** Skia's `findUniform`: the first uniform with the name, or null. */
  function NativeFindUniform(us: seq<Uniform>, name: string): (p: UniformPtr)
    ensures p.NullUniform? <==> forall j | 0 <= j < |us| :: us[j].name != name
    ensures p.UniformAt? ==> p.index < |us| && us[p.index].name == name
    ensures p.UniformAt? ==> forall j | 0 <= j < p.index :: us[j].name != name
  {
    if |us| == 0 then NullUniform
    else if us[0].name == name then UniformAt(0)
    else
      match NativeFindUniform(us[1..], name)
      case NullUniform => NullUniform
      case UniformAt(k) => UniformAt(k + 1)
  }

  /** `find_uniform`: `None` exactly when the native lookup returns null;
      otherwise a borrowed view of the uniform found. */
  function FindUniform(e: Effect, name: string): (r: Option<Lent<Uniform>>)
    ensures r.None? <==> NativeFindUniform(e.uniforms, name).NullUniform?
    ensures r.None? <==> forall j | 0 <= j < |e.uniforms| :: e.uniforms[j].name != name
    ensures r.Some? ==> r.value.access == Borrowed && r.value.value.name == name
    ensures r.Some? ==> r.value in Uniforms(e)
    ensures r.Some? ==> r.value == Uniforms(e)[NativeFindUniform(e.uniforms, name).index]
  {
    match NativeFindUniform(e.uniforms, name)
    case NullUniform => None
    case UniformAt(i) => Some(Uniforms(e)[i])
  }

  // ---------------------------------------------------------------------
  // Making shaders and color filters
  // ---------------------------------------------------------------------

  /** The arguments the wrapper passes to the native shader factory. */
  datatype ShaderCall = ShaderCall(uniforms: Ptr, children: seq<Ptr>, childCount: nat, isOpaque: bool)

  type ShaderFactory = ShaderCall -> Ptr

  type FilterFactory = Ptr -> Ptr

  /** `children.into_iter().map(|shader| shader.into_ptr()).collect()`. */
  function IntoPtrs(children: seq<RCHandle>): (ps: seq<Ptr>)
    ensures |ps| == |children|
    ensures forall i | 0 <= i < |ps| :: ps[i] == IntoPtr(children[i])
    ensures Refs(ps) == HandlesRefs(children)
  {
    if |children| == 0 then []
    else
      var rest := IntoPtrs(children[1..]);
      assert ([IntoPtr(children[0])] + rest)[1..] == rest;
      [IntoPtr(children[0])] + rest
  }

  /** The call `make_shader` issues: every child's reference is transferred,
      in order, with a count equal to the number of children, and the
      uniform data's reference is transferred as well. The heap does not
      change: the references the caller's handles held are exactly the ones
      the call carries. */
  function ShaderArguments(uniforms: RCHandle, children: seq<RCHandle>, isOpaque: bool): (c: ShaderCall)
    ensures c.childCount == |c.children| == |children|
    ensures forall i | 0 <= i < |children| :: c.children[i] == IntoPtr(children[i])
    ensures Refs(c.children) == HandlesRefs(children)
    ensures PtrRefs(c.uniforms) == multiset{uniforms.id}
    ensures c.isOpaque == isOpaque
  {
    var ptrs := IntoPtrs(children);
    ShaderCall(IntoPtr(uniforms), ptrs, |ptrs|, isOpaque)
  }

  /** `make_shader`: the shader the native factory made, adopted, or `None`
      when it returned null. */
  function MakeShader(uniforms: RCHandle, children: seq<RCHandle>, isOpaque: bool, native: ShaderFactory)
    : (r: Option<RCHandle>)
    ensures var result := native(ShaderArguments(uniforms, children, isOpaque));
      && (r.None? <==> result.Null?)
      && (r.Some? ==> IntoPtr(r.value) == result)
  {
    FromPtr(native(ShaderArguments(uniforms, children, isOpaque)))
  }

  /** `make_color_filter`: the input data's reference is transferred; the
      filter made is adopted, or `None` when the factory returned null. */
  function MakeColorFilter(inputs: RCHandle, native: FilterFactory): (r: Option<RCHandle>)
    ensures r.None? <==> native(IntoPtr(inputs)).Null?
    ensures r.Some? ==> IntoPtr(r.value) == native(IntoPtr(inputs))
  {
    FromPtr(native(IntoPtr(inputs)))
  }
}
