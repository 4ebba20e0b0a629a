/** `Paint`, a value-owned handle around `SkPaint`, seen as a record of
    independent attributes.

    The flags, enums and the five effect slots are modelled; the colour,
    alpha, stroke width and miter (floating point) are not. An effect slot
    holds one native reference (or null): reading a slot shares that
    reference (`from_unshared_ptr`), writing one transfers the caller's
    handle into it (`into_ptr_or_null`) and releases the reference it held.

    `Get` views a paint attribute by attribute; every setter changes the one
    attribute it names and leaves all the others alone (`OnlyChanged`), and
    `Extensionality` shows that the attributes are the whole state.
 */
module Paints {
  import W = Wrappers
  import opened Ownership

  datatype FilterQuality = None | Low | Medium | High

  datatype Style = Fill | Stroke | StrokeAndFill

  datatype Cap = Butt | RoundCap | Square

  datatype Join = Miter | RoundJoin | Bevel

  datatype BlendMode =
    | Clear | Src | Dst | SrcOver | DstOver | SrcIn | DstIn | SrcOut | DstOut
    | SrcATop | DstATop | Xor | Plus | Modulate | Screen | Overlay | Darken
    | Lighten | ColorDodge | ColorBurn | HardLight | SoftLight | Difference
    | Exclusion | Multiply | Hue | Saturation | Color | Luminosity

  datatype Paint = Paint(
    antiAlias: bool,
    dither: bool,
    filterQuality: FilterQuality,
    style: Style,
    blendMode: BlendMode,
    cap: Cap,
    join: Join,
    shader: Ptr,
    colorFilter: Ptr,
    pathEffect: Ptr,
    maskFilter: Ptr,
    imageFilter: Ptr)

  // ---------------------------------------------------------------------
  // The attribute view
  // ---------------------------------------------------------------------

  datatype Attr =
    | AntiAliasBit | DitherBit | FilterQualityField | StyleField | BlendModeField
    | CapField | JoinField
    | ShaderSlot | ColorFilterSlot | PathEffectSlot | MaskFilterSlot | ImageFilterSlot

  datatype Value =
    | FlagValue(flag: bool)
    | QualityValue(quality: FilterQuality)
    | StyleValue(style: Style)
    | ModeValue(mode: BlendMode)
    | CapValue(cap: Cap)
    | JoinValue(join: Join)
    | SlotValue(ptr: Ptr)

  predicate IsSlot(a: Attr) {
    a.ShaderSlot? || a.ColorFilterSlot? || a.PathEffectSlot? || a.MaskFilterSlot? || a.ImageFilterSlot?
  }

  /** The attribute view: the getters `filter_quality`, `style`,
      `blend_mode`, `stroke_cap` and `stroke_join`, the two bitfields and the
      five slots, each read as a value of its attribute's kind. */
  function Get(p: Paint, a: Attr): (v: Value)
    ensures Fits(a, v)
  {
    match a
    case AntiAliasBit => FlagValue(p.antiAlias)
    case DitherBit => FlagValue(p.dither)
    case FilterQualityField => QualityValue(p.filterQuality)
    case StyleField => StyleValue(p.style)
    case BlendModeField => ModeValue(p.blendMode)
    case CapField => CapValue(p.cap)
    case JoinField => JoinValue(p.join)
    case ShaderSlot => SlotValue(p.shader)
    case ColorFilterSlot => SlotValue(p.colorFilter)
    case PathEffectSlot => SlotValue(p.pathEffect)
    case MaskFilterSlot => SlotValue(p.maskFilter)
    case ImageFilterSlot => SlotValue(p.imageFilter)
  }

  /** `v` is a value of the kind attribute `a` holds. */
  predicate Fits(a: Attr, v: Value) {
    match a
    case AntiAliasBit => v.FlagValue?
    case DitherBit => v.FlagValue?
    case FilterQualityField => v.QualityValue?
    case StyleField => v.StyleValue?
    case BlendModeField => v.ModeValue?
    case CapField => v.CapValue?
    case JoinField => v.JoinValue?
    case _ => v.SlotValue?
  }

  /** `q` differs from `p` at most in attribute `a`. */
  ghost predicate OnlyChanged(p: Paint, q: Paint, a: Attr) {
    forall b :: b != a ==> Get(q, b) == Get(p, b)
  }

  /** The pointer an effect slot holds. */
  function SlotPtr(p: Paint, slot: Attr): Ptr
    requires IsSlot(slot)
  {
    Get(p, slot).ptr
  }

  /** Paints that agree on every attribute are the same paint. */
  lemma Extensionality(p: Paint, q: Paint)
    requires forall a :: Get(p, a) == Get(q, a)
    ensures p == q
  {
    assert Get(p, AntiAliasBit) == Get(q, AntiAliasBit);
    assert Get(p, DitherBit) == Get(q, DitherBit);
    assert Get(p, FilterQualityField) == Get(q, FilterQualityField);
    assert Get(p, StyleField) == Get(q, StyleField);
    assert Get(p, BlendModeField) == Get(q, BlendModeField);
    assert Get(p, CapField) == Get(q, CapField);
    assert Get(p, JoinField) == Get(q, JoinField);
    assert Get(p, ShaderSlot) == Get(q, ShaderSlot);
    assert Get(p, ColorFilterSlot) == Get(q, ColorFilterSlot);
    assert Get(p, PathEffectSlot) == Get(q, PathEffectSlot);
    assert Get(p, MaskFilterSlot) == Get(q, MaskFilterSlot);
    assert Get(p, ImageFilterSlot) == Get(q, ImageFilterSlot);
  }

  /** Writing one attribute, the shape every setter has. */
  function Set(p: Paint, a: Attr, v: Value): (r: Paint)
    requires Fits(a, v)
    ensures Get(r, a) == v
    ensures OnlyChanged(p, r, a)
  {
    match a
    case AntiAliasBit => p.(antiAlias := v.flag)
    case DitherBit => p.(dither := v.flag)
    case FilterQualityField => p.(filterQuality := v.quality)
    case StyleField => p.(style := v.style)
    case BlendModeField => p.(blendMode := v.mode)
    case CapField => p.(cap := v.cap)
    case JoinField => p.(join := v.join)
    case ShaderSlot => p.(shader := v.ptr)
    case ColorFilterSlot => p.(colorFilter := v.ptr)
    case PathEffectSlot => p.(pathEffect := v.ptr)
    case MaskFilterSlot => p.(maskFilter := v.ptr)
    case ImageFilterSlot => p.(imageFilter := v.ptr)
  }

  /** Writing the same attribute twice: the last write wins. */
  lemma SetLastWins(p: Paint, a: Attr, v: Value, w: Value)
    requires Fits(a, v) && Fits(a, w)
    ensures Set(Set(p, a, v), a, w) == Set(p, a, w)
  {
    var l, r := Set(Set(p, a, v), a, w), Set(p, a, w);
    forall b ensures Get(l, b) == Get(r, b) {
      if b != a {
        assert Get(l, b) == Get(Set(p, a, v), b) == Get(p, b);
      }
    }
    Extensionality(l, r);
  }

  /** Writes to different attributes commute. */
  lemma SetCommutes(p: Paint, a: Attr, v: Value, b: Attr, w: Value)
    requires Fits(a, v) && Fits(b, w) && a != b
    ensures Set(Set(p, a, v), b, w) == Set(Set(p, b, w), a, v)
  {
    var l, r := Set(Set(p, a, v), b, w), Set(Set(p, b, w), a, v);
    forall c ensures Get(l, c) == Get(r, c) {
      if c == a {
        assert Get(l, c) == Get(Set(p, a, v), c) == v;
      } else if c == b {
        assert Get(r, c) == Get(Set(p, b, w), c) == w;
      } else {
        assert Get(l, c) == Get(Set(p, a, v), c) == Get(p, c);
        assert Get(r, c) == Get(Set(p, b, w), c) == Get(p, c);
      }
    }
    Extensionality(l, r);
  }

  // ---------------------------------------------------------------------
  // Default construction, equality and hash glue
  // ---------------------------------------------------------------------

  /** `Paint::default()`: a default-constructed `SkPaint`. */
  function Default(): (p: Paint)
    ensures forall a | IsSlot(a) :: Get(p, a) == SlotValue(Null)
    ensures SlotRefs(p) == multiset{}
  {
    Paint(false, false, None, Fill, SrcOver, Butt, Miter, Null, Null, Null, Null, Null)
  }

  /** A default paint is not anti-aliased, not dithered, unfiltered, filled
      and drawn with `SrcOver`, and holds no effect. */
  lemma DefaultAttributes()
    ensures !IsAntiAlias(Default()) && !IsDither(Default())
    ensures Default().filterQuality == None && Default().style == Fill
    ensures IsSrcOver(Default())
    ensures forall a | IsSlot(a) :: SlotPtr(Default(), a).Null?
    ensures SlotRefs(Default()) == multiset{}
  {
  }

  /** `NativePartialEq for SkPaint`: native `operator==`, field by field. */
  function Equals(a: Paint, b: Paint): (r: bool)
    ensures r <==> forall x :: Get(a, x) == Get(b, x)
  {
    var same :=
      && a.antiAlias == b.antiAlias && a.dither == b.dither
      && a.filterQuality == b.filterQuality && a.style == b.style
      && a.blendMode == b.blendMode && a.cap == b.cap && a.join == b.join
      && a.shader == b.shader && a.colorFilter == b.colorFilter
      && a.pathEffect == b.pathEffect && a.maskFilter == b.maskFilter
      && a.imageFilter == b.imageFilter;
    assert same ==> forall x :: Get(a, x) == Get(b, x);
    assert (forall x :: Get(a, x) == Get(b, x)) ==> same by {
      if forall x :: Get(a, x) == Get(b, x) {
        Extensionality(a, b);
      }
    }
    same
  }

  function PtrCode(p: Ptr): nat {
    if p.Null? then 0 else p.id + 1
  }

  /** `NativeHash for SkPaint`: the native hash is computed inside Skia; the
      model uses a fixed function of the modelled fields. */
  function Hash(p: Paint): int {
    var flags := (if p.antiAlias then 1 else 0) + (if p.dither then 2 else 0);
    var slots := [PtrCode(p.shader), PtrCode(p.colorFilter), PtrCode(p.pathEffect),
                  PtrCode(p.maskFilter), PtrCode(p.imageFilter)];
    flags + 31 * (slots[0] + 31 * (slots[1] + 31 * (slots[2] + 31 * (slots[3] + 31 * slots[4]))))
  }

  /** The equality glue is an equivalence that coincides with identity of
      the record, and equal paints hash alike. */
  lemma EqualsAndHashAgree(a: Paint, b: Paint)
    ensures Equals(a, b) <==> a == b
    ensures Equals(a, b) ==> Hash(a) == Hash(b)
    ensures Equals(a, a)
    ensures Equals(a, b) == Equals(b, a)
  {
    if Equals(a, b) {
      Extensionality(a, b);
    }
  }

  // ---------------------------------------------------------------------
  // Bitfield, filter quality, style, blend mode, cap and join
  // ---------------------------------------------------------------------

  /** `is_anti_alias`: the `fAntiAlias` bitfield. */
  function IsAntiAlias(p: Paint): (b: bool)
    ensures b <==> Get(p, AntiAliasBit) == FlagValue(true)
  {
    p.antiAlias
  }

  /** `set_anti_alias`. */
  function SetAntiAlias(p: Paint, b: bool): (r: Paint)
    ensures IsAntiAlias(r) == b
    ensures OnlyChanged(p, r, AntiAliasBit)
  {
    Set(p, AntiAliasBit, FlagValue(b))
  }

  /** `is_dither`: the `fDither` bitfield. */
  function IsDither(p: Paint): (b: bool)
    ensures b <==> Get(p, DitherBit) == FlagValue(true)
  {
    p.dither
  }

  /** `set_dither`. */
  function SetDither(p: Paint, b: bool): (r: Paint)
    ensures IsDither(r) == b
    ensures OnlyChanged(p, r, DitherBit)
  {
    Set(p, DitherBit, FlagValue(b))
  }

  /** `set_filter_quality`. */
  function SetFilterQuality(p: Paint, q: FilterQuality): (r: Paint)
    ensures r.filterQuality == q
    ensures OnlyChanged(p, r, FilterQualityField)
  {
    Set(p, FilterQualityField, QualityValue(q))
  }

  /** `set_style`. */
  function SetStyle(p: Paint, s: Style): (r: Paint)
    ensures r.style == s
    ensures OnlyChanged(p, r, StyleField)
  {
    Set(p, StyleField, StyleValue(s))
  }

  /** `set_stroke`: Skia's `setStroke` selects `Stroke` for true and `Fill`
      for false. */
  function SetStroke(p: Paint, stroke: bool): (r: Paint)
    ensures r.style == (if stroke then Stroke else Fill)
    ensures OnlyChanged(p, r, StyleField)
  {
    Set(p, StyleField, StyleValue(if stroke then Stroke else Fill))
  }

  /** `is_src_over`: whether `blend_mode()` is `SrcOver`. */
  function IsSrcOver(p: Paint): (b: bool)
    ensures b <==> Get(p, BlendModeField) == ModeValue(SrcOver)
  {
    p.blendMode == SrcOver
  }

  /** `set_blend_mode`: writes the `fBlendMode` bitfield. */
  function SetBlendMode(p: Paint, mode: BlendMode): (r: Paint)
    ensures r.blendMode == mode
    ensures IsSrcOver(r) <==> mode == SrcOver
    ensures OnlyChanged(p, r, BlendModeField)
  {
    Set(p, BlendModeField, ModeValue(mode))
  }

  /** `set_stroke_cap`. */
  function SetStrokeCap(p: Paint, cap: Cap): (r: Paint)
    ensures r.cap == cap
    ensures OnlyChanged(p, r, CapField)
  {
    Set(p, CapField, CapValue(cap))
  }

  /** `set_stroke_join`. */
  function SetStrokeJoin(p: Paint, join: Join): (r: Paint)
    ensures r.join == join
    ensures OnlyChanged(p, r, JoinField)
  {
    Set(p, JoinField, JoinValue(join))
  }

  /** The flag test of the paint module: starting from a default paint,
      each setter moves only its own attribute, and undoing it restores the
      default. */
  lemma UnionFlagsScenario()
    ensures var p1 := SetAntiAlias(Default(), true);
      IsAntiAlias(p1) && !IsDither(p1) && p1.filterQuality == None && p1.style == Fill &&
      SetAntiAlias(p1, false) == Default()
    ensures var p2 := SetFilterQuality(Default(), High);
      !IsAntiAlias(p2) && !IsDither(p2) && p2.filterQuality == High && p2.style == Fill &&
      SetFilterQuality(p2, None) == Default()
    ensures var p3 := SetStyle(Default(), StrokeAndFill);
      !IsAntiAlias(p3) && !IsDither(p3) && p3.filterQuality == None && p3.style == StrokeAndFill &&
      SetStyle(p3, Fill) == Default()
  {
  }

  // ---------------------------------------------------------------------
  // Effect slots and the references they hold
  // ---------------------------------------------------------------------

  function Slots(p: Paint): seq<Ptr> {
    [p.shader, p.colorFilter, p.pathEffect, p.maskFilter, p.imageFilter]
  }

  /** The native references a paint holds through its effect slots. */
  function SlotRefs(p: Paint): multiset<Id> {
    PtrRefs(p.shader) + PtrRefs(p.colorFilter) + PtrRefs(p.pathEffect)
    + PtrRefs(p.maskFilter) + PtrRefs(p.imageFilter)
  }

  /** The slot list carries exactly the paint's slot references. */
  lemma SlotsCarrySlotRefs(p: Paint)
    ensures forall x :: Refs(Slots(p))[x] == SlotRefs(p)[x]
  {
    var s := Slots(p);
    assert s[4..][1..] == [];
    assert s[3..][1..] == s[4..];
    assert s[2..][1..] == s[3..];
    assert s[1..][1..] == s[2..];
    assert Refs(s) == PtrRefs(s[0]) + Refs(s[1..]);
    assert Refs(s[1..]) == PtrRefs(s[1]) + Refs(s[2..]);
    assert Refs(s[2..]) == PtrRefs(s[2]) + Refs(s[3..]);
    assert Refs(s[3..]) == PtrRefs(s[3]) + Refs(s[4..]);
    assert Refs(s[4..]) == PtrRefs(s[4]) + Refs(s[4..][1..]);
  }

  /** The reference of each slot is among the paint's references. */
  lemma SlotIsHeld(p: Paint, slot: Attr)
    requires IsSlot(slot)
    ensures forall x :: PtrRefs(SlotPtr(p, slot))[x] <= SlotRefs(p)[x]
  {
    match slot
    case ShaderSlot =>
    case ColorFilterSlot =>
    case PathEffectSlot =>
    case MaskFilterSlot =>
    case ImageFilterSlot =>
  }

  /** Replacing the pointer of one slot replaces its reference and only it. */
  lemma SlotRefsAfterWrite(p: Paint, slot: Attr, q: Ptr)
    requires IsSlot(slot)
    ensures forall x :: SlotRefs(Set(p, slot, SlotValue(q)))[x] + PtrRefs(SlotPtr(p, slot))[x]
                        == SlotRefs(p)[x] + PtrRefs(q)[x]
  {
    match slot
    case ShaderSlot => assert Set(p, slot, SlotValue(q)) == p.(shader := q);
    case ColorFilterSlot => assert Set(p, slot, SlotValue(q)) == p.(colorFilter := q);
    case PathEffectSlot => assert Set(p, slot, SlotValue(q)) == p.(pathEffect := q);
    case MaskFilterSlot => assert Set(p, slot, SlotValue(q)) == p.(maskFilter := q);
    case ImageFilterSlot => assert Set(p, slot, SlotValue(q)) == p.(imageFilter := q);
  }

  /** The paint's slot pointers all name live objects. */
  predicate SlotsLive(h: Heap, p: Paint) {
    AllLive(h, Slots(p))
  }

  /** Reading a slot (`shader()`, `color_filter()`, `path_effect()`,
      `mask_filter()`, `image_filter()`): absent exactly when the slot is
      null; otherwise a new handle sharing the slot's object, whose count
      goes up by one while the paint keeps its own reference. */
  function GetSlot(h: Heap, p: Paint, slot: Attr): (r: (Heap, W.Option<RCHandle>))
    requires IsSlot(slot)
    requires SlotPtr(p, slot).Addr? ==> SlotPtr(p, slot).id in h
    ensures r.1.None? <==> SlotPtr(p, slot).Null?
    ensures r.1.Some? ==> IntoPtr(r.1.value) == SlotPtr(p, slot)
    ensures forall x :: Count(r.0, x) == Count(h, x) + HandleRefs(r.1)[x]
  {
    FromUnsharedPtr(h, SlotPtr(p, slot))
  }

  /** Writing a slot (`set_shader(o)` and the other four setters): the
      handle's reference moves into the slot, null when `o` is `None`, and
      the reference the slot held before is released. No other attribute
      changes. */
  function SetSlot(h: Heap, p: Paint, slot: Attr, o: W.Option<RCHandle>): (r: (Heap, Paint))
    requires IsSlot(slot)
    requires SlotPtr(p, slot).Addr? ==> SlotPtr(p, slot).id in h
    ensures SlotPtr(r.1, slot).Null? <==> o.None?
    ensures o.Some? ==> SlotPtr(r.1, slot) == IntoPtr(o.value)
    ensures OnlyChanged(p, r.1, slot)
    ensures forall x :: Count(r.0, x) == Count(h, x) - PtrRefs(SlotPtr(p, slot))[x]
  {
    (UnrefPtr(h, SlotPtr(p, slot)), Set(p, slot, SlotValue(IntoPtrOrNull(o))))
  }

  /** Reading a slot keeps the books: the new handle joins the holders. */
  lemma GetSlotKeepsAccounted(h: Heap, held: multiset<Id>, p: Paint, slot: Attr)
    requires IsSlot(slot)
    requires Accounted(h, held + SlotRefs(p))
    ensures SlotPtr(p, slot).Addr? ==> SlotPtr(p, slot).id in h
    ensures Accounted(GetSlot(h, p, slot).0, held + SlotRefs(p) + HandleRefs(GetSlot(h, p, slot).1))
  {
    SlotIsHeld(p, slot);
    HeldIsLive(h, held + SlotRefs(p), SlotPtr(p, slot));
    var r := GetSlot(h, p, slot);
    AddKeepsAccounted(h, r.0, held + SlotRefs(p), HandleRefs(r.1));
  }

  /** Writing a slot keeps the books: the caller's handle is no longer a
      holder, the slot's new reference is, and the old one is gone. */
  lemma SetSlotKeepsAccounted(h: Heap, held: multiset<Id>, p: Paint, slot: Attr, o: W.Option<RCHandle>)
    requires IsSlot(slot)
    requires Accounted(h, held + SlotRefs(p) + HandleRefs(o))
    ensures SlotPtr(p, slot).Addr? ==> SlotPtr(p, slot).id in h
    ensures Accounted(SetSlot(h, p, slot, o).0, held + SlotRefs(SetSlot(h, p, slot, o).1))
  {
    SlotIsHeld(p, slot);
    HeldIsLive(h, held + SlotRefs(p) + HandleRefs(o), SlotPtr(p, slot));
    var r := SetSlot(h, p, slot, o);
    var q := IntoPtrOrNull(o);
    SlotRefsAfterWrite(p, slot, q);
    ReplaceKeepsAccounted(h, r.0, held, SlotRefs(p), SlotRefs(r.1), SlotPtr(p, slot), q);
  }

  // ---------------------------------------------------------------------
  // Clone, drop and reset
  // ---------------------------------------------------------------------

  /** `NativeClone for SkPaint`: the native copy constructor gives an equal
      paint that holds its own reference to every effect of the original. */
  function Clone(h: Heap, p: Paint): (r: (Heap, Paint))
    requires SlotsLive(h, p)
    ensures Equals(r.1, p)
    ensures SlotRefs(r.1) == SlotRefs(p)
    ensures forall x :: Count(r.0, x) == Count(h, x) + SlotRefs(p)[x]
  {
    SlotsCarrySlotRefs(p);
    (RefAll(h, Slots(p)), p)
  }

  /** `NativeDrop for SkPaint`: the native destructor releases the
      reference of every non-null slot. */
  function Drop(h: Heap, p: Paint): (h': Heap)
    requires Holds(h, SlotRefs(p))
    ensures forall x :: Count(h', x) == Count(h, x) - SlotRefs(p)[x]
  {
    SlotsCarrySlotRefs(p);
    UnrefAll(h, Slots(p))
  }

  /** `reset`: the paint becomes a default paint, releasing its effects. */
  function Reset(h: Heap, p: Paint): (r: (Heap, Paint))
    requires Holds(h, SlotRefs(p))
    ensures r.1 == Default()
    ensures forall x :: Count(r.0, x) == Count(h, x) - SlotRefs(p)[x]
  {
    (Drop(h, p), Default())
  }

  /** Cloning a paint and dropping the clone leaves every count unchanged,
      and so does constructing a default paint and dropping it. */
  lemma CloneThenDropRestores(h: Heap, p: Paint)
    requires SlotsLive(h, p)
    ensures Holds(Clone(h, p).0, SlotRefs(p))
    ensures Drop(Clone(h, p).0, Clone(h, p).1) == h
    ensures Drop(h, Default()) == h
  {
    SlotsCarrySlotRefs(p);
    RefAllThenUnrefAll(h, Slots(p));
    HeapExtensionality(Drop(h, Default()), h);
  }

  /** Clone keeps the books: the clone's slots join the holders. */
  lemma CloneKeepsAccounted(h: Heap, held: multiset<Id>, p: Paint)
    requires Accounted(h, held + SlotRefs(p))
    ensures SlotsLive(h, p)
    ensures Accounted(Clone(h, p).0, held + SlotRefs(p) + SlotRefs(Clone(h, p).1))
  {
    HeldSlotsAreLive(h, held, p);
    var (h1, q) := Clone(h, p);
    AddKeepsAccounted(h, h1, held + SlotRefs(p), SlotRefs(p));
    assert SlotRefs(q) == SlotRefs(p);
  }

  /** Under the bookkeeping invariant, the slots of a paint that holds its
      references are live. */
  lemma HeldSlotsAreLive(h: Heap, held: multiset<Id>, p: Paint)
    requires Accounted(h, held + SlotRefs(p))
    ensures SlotsLive(h, p)
  {
    SlotsCarrySlotRefs(p);
    forall x ensures Refs(Slots(p))[x] <= Count(h, x) {
      assert Count(h, x) == (held + SlotRefs(p))[x];
    }
    HeldAreLive(h, Slots(p));
  }

  /** Drop keeps the books: the paint's slots leave the holders. */
  lemma DropKeepsAccounted(h: Heap, held: multiset<Id>, p: Paint)
    requires Accounted(h, held + SlotRefs(p))
    ensures Holds(h, SlotRefs(p))
    ensures Accounted(Drop(h, p), held)
  {
    forall x ensures SlotRefs(p)[x] <= Count(h, x) {
      assert Count(h, x) == (held + SlotRefs(p))[x];
    }
    forall x ensures Count(Drop(h, p), x) == held[x] {
      assert Count(h, x) == (held + SlotRefs(p))[x];
    }
  }

  /** Reset keeps the books: the released references leave the holders and
      the default paint holds none. */
  lemma ResetKeepsAccounted(h: Heap, held: multiset<Id>, p: Paint)
    requires Accounted(h, held + SlotRefs(p))
    ensures Holds(h, SlotRefs(p))
    ensures Accounted(Reset(h, p).0, held + SlotRefs(Reset(h, p).1))
  {
    DropKeepsAccounted(h, held, p);
    assert held + SlotRefs(Default()) == held;
  }
}
