# rust-skia: handles, Paint, runtime effects, target triples and EncodedOrigin

A Dafny model of five small pieces of rust-skia's safe wrapper layer and
its build helper, with their properties proved.

- **Ownership** (`ownership.dfy`, module `Ownership`). A heap maps each
  live native object's id to its reference count, and a missing id is a
  destroyed object. A native pointer is `Null` or an address. A
  reference-counted handle (`RCHandle`) is a non-null id that owns one
  reference. The model covers:
  - adopting a pointer that a factory released (`from_ptr`), where null
    becomes `None`;
  - sharing a pointer that someone else still owns (`from_unshared_ptr`);
  - cloning and dropping a handle;
  - transferring a handle's reference to native code (`into_ptr`,
    `into_ptr_or_null`).

  The bookkeeping invariant `Accounted(h, held)` says that every object's
  count equals the number of references held to it. Every operation keeps
  it. Drop glue is modelled as well, including the glue of the native types
  that Rust must never own, whose drop panics.
- **Paint** (`paint.dfy`, module `Paints`). `Paint = Handle<SkPaint>` is a
  value-owned record of independent attributes:
  - anti-alias and dither bits;
  - filter quality, style, blend mode, stroke cap and stroke join;
  - five effect slots: shader, color filter, path effect, mask filter and
    image filter.

  Each attribute can be read through one view, `Get(p, a)`. Every setter is
  a write of one attribute that leaves all the others unchanged. A slot
  holds one reference to its effect. Reading a slot shares that reference.
  Writing a slot transfers the new handle's reference and releases the old
  one. Cloning a paint refs every slot, and dropping or resetting it unrefs
  every slot.
- **Runtime effects** (`runtime_effect.dfy`, module `RuntimeEffects`):
  - construction returns a `Result` holding either the adopted effect or
    the compiler's error text;
  - the uniform flag set and `is_array`;
  - `find_child`, where a negative native index means "not found", and
    `find_uniform`, where a null pointer means "not found";
  - the borrowed `Uniform`/`Varying` views;
  - the transfer of the child and data references into `make_shader` and
    `make_color_filter`.
- **Build helper** (`cargo.dfy`, module `Cargo`). Target-triple parsing
  splits on `-` and keeps empty pieces, as Rust's `str::split` does. The
  module also covers `Display for Target`, `is_windows`,
  `library_to_filename`, `as_strs` and the `build_release` profile match.
  Two round trips are proved:
  - parsing a string of three or four pieces and formatting it gives the
    string back;
  - formatting a target whose fields contain no `-` and parsing it gives
    the target back.
- **EncodedOrigin** (`encoded_origin.dfy`, module `Codec`). The eight
  orientations of the Orientation tag (0x0112) of Exif 2.2, section 4.6.4,
  carry their native codes 1 to 8. The module covers the defaults, `LAST`
  and `swaps_width_height`, and connects each orientation to the transform
  its documentation names.

`wrappers.dfy` (module `Wrappers`) holds `Option`, `Result` and `Outcome`.

How the model treats the source:
- A Rust panic is a `Failure`/`Fail` value that carries the panic message.
- A call into native Skia is a function-typed parameter:
  - `Compiler` is `C_SkRuntimeEffect_Make`;
  - `ShaderFactory` is `C_SkRuntimeEffect_makeShader`;
  - `FilterFactory` is `C_SkRuntimeEffect_makeColorFilter`.
- The environment variables read by the build helper (`TARGET`, `HOST`,
  `PROFILE`) become plain string arguments.

## Model

| member | source | states |
|---|---|---|
| Ownership.Produce | skia-bindings/src/gpu.cpp:23-29 | the success case of a factory that ends in `.release()`: a fresh object with exactly one reference, every other count unchanged (a null result goes through `Ownership.FromPtr`) |
| Ownership.FromPtr | skia-safe/src/effects/runtime_effect.rs:139-142 | adopting a pointer gives `None` exactly for null; the handle owns exactly the reference the pointer carried, so no count changes |
| Ownership.NullIsAbsent | skia-safe/src/effects/runtime_effect.rs:139-142 | a null pointer adopts or shares to `None` and leaves the heap unchanged |
| Ownership.FromUnsharedPtr | skia-safe/src/core/paint.rs:239-241 | sharing a pointer gives `None` exactly for null; otherwise the pointee's count rises by one and nothing else changes |
| Ownership.IntoPtr | skia-safe/src/effects/runtime_effect.rs:163-166 | `into_ptr` yields a non-null pointer that carries the handle's single reference |
| Ownership.IntoPtrOrNull | skia-safe/src/core/paint.rs:243-245 | `into_ptr_or_null` is null exactly for `None` and carries the handle's reference otherwise |
| Ownership.AdoptTransferRoundTrip | skia-safe/src/core/paint.rs:239-245 | adopting what was transferred gives the optional handle back, and transferring what was adopted gives the pointer back |
| Ownership.CloneHandle | skia-safe/src/effects/runtime_effect.rs:114-118 | cloning an `RCHandle` returns the same object with its count one higher; every other count is unchanged |
| Ownership.DropHandle | skia-safe/src/effects/runtime_effect.rs:114-118 | dropping an `RCHandle` lowers its count by one and destroys the object exactly when that was the last reference |
| Ownership.Ref | skia-safe/src/core/paint.rs:39-43 | a ref keeps the live set and raises exactly one count by one |
| Ownership.Unref | skia-safe/src/core/paint.rs:33-37 | an unref lowers exactly one count by one and removes the object exactly when its count was one |
| Ownership.RefPtr | skia-safe/src/core/paint.rs:39-43 | ref of an optional pointer: counts rise by the references the pointer carries |
| Ownership.UnrefPtr | skia-safe/src/core/paint.rs:33-37 | unref of an optional pointer: counts fall by the references the pointer carries |
| Ownership.RefAll | skia-safe/src/core/paint.rs:39-43 | reffing a sequence of pointers raises each count by that object's multiplicity in the sequence |
| Ownership.UnrefAll | skia-safe/src/core/paint.rs:33-37 | unreffing a sequence whose references are held lowers each count by that object's multiplicity in the sequence |
| Ownership.HeldAreLive | skia-safe/src/core/paint.rs:33-37 | every pointer whose reference is held points at a live object |
| Ownership.RefAllThenUnrefAll | skia-safe/src/core/paint.rs:33-43 | unreffing what was just reffed restores the heap exactly |
| Ownership.ShareThenDropRestores | skia-safe/src/core/paint.rs:239-241 | dropping a shared handle restores the heap, and the owner's reference keeps the object alive |
| Ownership.CloneThenDropRestores | skia-safe/src/effects/runtime_effect.rs:114-118 | clone followed by drop is the identity on the heap |
| Ownership.AdoptThenDropDestroys | skia-bindings/src/gpu.cpp:23-29 | dropping the handle that adopted a released object destroys the object and restores the heap from before the factory ran |
| Ownership.AdoptCloneDropScenario | skia-safe/src/effects/runtime_effect.rs:139-142 | an adopted object with one reference survives dropping its clone and is destroyed by dropping the original |
| Ownership.AdoptKeepsAccounted | skia-bindings/src/gpu.cpp:23-29 | adopting a released object keeps every count equal to the references held, with the new handle holding one |
| Ownership.ShareKeepsAccounted | skia-safe/src/core/paint.rs:239-241 | sharing keeps the books: the new handle holds the added reference |
| Ownership.CloneKeepsAccounted | skia-safe/src/effects/runtime_effect.rs:114-118 | cloning keeps the books: the clone holds the added reference |
| Ownership.DropKeepsAccounted | skia-safe/src/effects/runtime_effect.rs:114-118 | a held handle is live, and dropping it keeps the books without its reference |
| Ownership.HeapExtensionality | skia-safe/src/core/paint.rs:33-43 | two heaps with the same count for every id are equal |
| Ownership.HeldIsLive | skia-safe/src/core/paint.rs:239-241 | under the bookkeeping invariant, a pointer whose reference is held is live |
| Ownership.AddKeepsAccounted | skia-safe/src/core/paint.rs:39-43 | raising counts by a multiset of new references keeps the books with those references held |
| Ownership.ReplaceKeepsAccounted | skia-safe/src/core/paint.rs:243-245 | releasing one reference and moving another in keeps the books |
| Ownership.EndLifetime | skia-safe/src/effects/runtime_effect.rs:20-24 | ending a value's lifetime fails exactly for an owned value of a never-owned type, with that type's panic message |
| Paints.Get | skia-safe/src/core/paint.rs:106-116 | the getters `filter_quality`, `style`, `blend_mode`, `stroke_cap`, `stroke_join` and the slot reads see each attribute as a value of its own kind |
| Paints.Default | skia-safe/src/core/paint.rs:57-61 | a default paint has every effect slot null and so holds no references |
| Paints.IsAntiAlias | skia-safe/src/core/paint.rs:78-80 | `is_anti_alias` holds exactly when the anti-alias attribute is set |
| Paints.IsDither | skia-safe/src/core/paint.rs:92-94 | `is_dither` holds exactly when the dither attribute is set |
| Paints.IsSrcOver | skia-safe/src/core/paint.rs:263-265 | `is_src_over` holds exactly when the blend-mode attribute is `SrcOver` |
| Paints.Hash | skia-safe/src/core/paint.rs:51-55 | a fixed stand-in for Skia's `getHash`; `Paints.EqualsAndHashAgree` proves that equal paints hash alike |
| Paints.Extensionality | skia-safe/src/core/paint.rs:29-61 | a paint is determined by its attributes |
| Paints.Set | skia-safe/src/core/paint.rs:82-308 | writing an attribute makes it read back the written value and leaves every other attribute unchanged |
| Paints.SetLastWins | skia-safe/src/core/paint.rs:321-325 | of two writes to one attribute, the second wins |
| Paints.SetCommutes | skia-safe/src/core/paint.rs:327-367 | writes to different attributes commute, because the attributes are independent |
| Paints.DefaultAttributes | skia-safe/src/core/paint.rs:329-333 | the default paint has anti-alias and dither off, quality `None`, style `Fill`, blend mode `SrcOver` and all slots null, so it holds no references |
| Paints.Equals | skia-safe/src/core/paint.rs:45-49 | two paints are equal exactly when every attribute agrees |
| Paints.EqualsAndHashAgree | skia-safe/src/core/paint.rs:45-55 | equality is reflexive, symmetric and coincides with identity of the record, and equal paints hash alike |
| Paints.SetAntiAlias | skia-safe/src/core/paint.rs:78-90 | afterwards `is_anti_alias` returns the value written, and no other attribute changes |
| Paints.SetDither | skia-safe/src/core/paint.rs:92-104 | afterwards `is_dither` returns the value written, and no other attribute changes |
| Paints.SetFilterQuality | skia-safe/src/core/paint.rs:106-113 | afterwards the filter quality is the value written, and no other attribute changes |
| Paints.SetStyle | skia-safe/src/core/paint.rs:115-122 | afterwards the style is the value written, and no other attribute changes |
| Paints.SetStroke | skia-safe/src/core/paint.rs:124-127 | `true` selects `Stroke` and `false` selects `Fill`, and no other attribute changes |
| Paints.SetBlendMode | skia-safe/src/core/paint.rs:259-275 | afterwards the blend mode is the value written, `is_src_over` holds exactly when that value is `SrcOver`, and no other attribute changes |
| Paints.SetStrokeCap | skia-safe/src/core/paint.rs:198-205 | afterwards the cap is the value written, and no other attribute changes |
| Paints.SetStrokeJoin | skia-safe/src/core/paint.rs:207-214 | afterwards the join is the value written, and no other attribute changes |
| Paints.UnionFlagsScenario | skia-safe/src/core/paint.rs:327-367 | each assertion of the `union_flags` test holds, and each block's final write restores the default paint |
| Paints.SlotsCarrySlotRefs | skia-safe/src/core/paint.rs:239-308 | the references a paint's slots hold are the multiset of its non-null slots |
| Paints.SlotIsHeld | skia-safe/src/core/paint.rs:239-308 | each slot's reference is among those the paint holds |
| Paints.SlotRefsAfterWrite | skia-safe/src/core/paint.rs:243-308 | writing a slot swaps the old pointer's reference for the new one's in the paint's holdings |
| Paints.GetSlot | skia-safe/src/core/paint.rs:239-301 | reading a slot gives `None` exactly when it is null; otherwise it gives a handle to that pointer and adds one reference, leaving the paint's own |
| Paints.SetSlot | skia-safe/src/core/paint.rs:243-308 | writing a slot stores null for `None` and the transferred pointer otherwise, changes no other attribute, and releases the previous slot's reference |
| Paints.GetSlotKeepsAccounted | skia-safe/src/core/paint.rs:239-301 | reading a slot, empty or not, keeps the books: the paint still holds its reference and the returned handle holds the new one |
| Paints.SetSlotKeepsAccounted | skia-safe/src/core/paint.rs:243-308 | writing a slot, empty or not, keeps the books: the paint holds the moved-in reference and the old one, if any, is released |
| Paints.Clone | skia-safe/src/core/paint.rs:39-43 | a clone equals the original, holds the same slot references, and each of those references is added to the heap |
| Paints.Drop | skia-safe/src/core/paint.rs:33-37 | dropping a paint releases exactly the references its slots hold |
| Paints.Reset | skia-safe/src/core/paint.rs:73-76 | reset yields the default paint and releases exactly the references the slots held |
| Paints.CloneThenDropRestores | skia-safe/src/core/paint.rs:33-43 | dropping a fresh clone restores the heap, and dropping a default paint changes nothing |
| Paints.CloneKeepsAccounted | skia-safe/src/core/paint.rs:39-43 | under the bookkeeping invariant, a paint's slots are live and cloning keeps the books with the clone's references added |
| Paints.HeldSlotsAreLive | skia-safe/src/core/paint.rs:39-43 | under the bookkeeping invariant, every slot pointer of a paint names a live object, so the copy constructor can ref them |
| Paints.ResetKeepsAccounted | skia-safe/src/core/paint.rs:73-76 | under the bookkeeping invariant, reset keeps the books: the released references leave the holders and the default paint holds none |
| Paints.DropKeepsAccounted | skia-safe/src/core/paint.rs:33-37 | under the bookkeeping invariant, dropping a paint keeps the books without its references |
| RuntimeEffects.ResolveOptions | skia-safe/src/effects/runtime_effect.rs:120-137 | options that were given are used as given, and missing options default to `force_no_inline` off |
| RuntimeEffects.NewWithOptions | skia-safe/src/effects/runtime_effect.rs:132-143 | the result is an error exactly when the compiler returned null, and then it carries the compiler's error text; otherwise the handle adopts exactly the returned pointer |
| RuntimeEffects.New | skia-safe/src/effects/runtime_effect.rs:128-130 | `new` behaves as `new_with_options` with `force_no_inline` off |
| RuntimeEffects.NewAdoptsTheReference | skia-safe/src/effects/runtime_effect.rs:139-142 | a freshly released effect is adopted without an extra reference, so dropping the handle destroys it |
| RuntimeEffects.FromBits | skia-safe/src/effects/runtime_effect.rs:75-82 | `from_bits` fails exactly when a bit outside the four declared flags is set; otherwise a flag is in the set exactly when its bit is |
| RuntimeEffects.ToBits | skia-safe/src/effects/runtime_effect.rs:75-82 | the bit pattern of a flag set uses only declared bits |
| RuntimeEffects.FlagsRoundTrip | skia-safe/src/effects/runtime_effect.rs:75-82 | flag sets and valid bit patterns convert into each other without loss, in both directions |
| RuntimeEffects.Flags | skia-safe/src/effects/runtime_effect.rs:49-51 | `flags()` panics with the `unwrap` message exactly on undeclared bits, and otherwise holds exactly the flags whose bits are set |
| RuntimeEffects.IsArray | skia-safe/src/effects/runtime_effect.rs:57-59 | `is_array` panics where `flags()` does; otherwise it holds exactly when the flag set contains `ARRAY` |
| RuntimeEffects.Uniforms | skia-safe/src/effects/runtime_effect.rs:232-238 | `uniforms()` lends every native uniform, in order, as a borrowed view |
| RuntimeEffects.Varyings | skia-safe/src/effects/runtime_effect.rs:249-255 | `varyings()` lends every native varying, in order, as a borrowed view |
| RuntimeEffects.ViewsAreNeverDropped | skia-safe/src/effects/runtime_effect.rs:89-93 | the lent views end without running drop glue, while owning one would panic with the `Uniform`/`Varying` message |
| RuntimeEffects.NativeFindChild | skia-safe/src/effects/runtime_effect.rs:268-275 | the native lookup gives -1 exactly when no child has the name, and otherwise the index of the first child that does |
| RuntimeEffects.ToUsize | skia-safe/src/effects/runtime_effect.rs:268-275 | converting to `usize` fails exactly for negative indices and keeps the others |
| RuntimeEffects.FindChild | skia-safe/src/effects/runtime_effect.rs:268-275 | `find_child` is `None` exactly when no child has the name, and otherwise the position of the first child that does |
| RuntimeEffects.NativeFindUniform | skia-safe/src/effects/runtime_effect.rs:262-266 | the native lookup gives null exactly when no uniform has the name, and otherwise the first uniform that does |
| RuntimeEffects.FindUniform | skia-safe/src/effects/runtime_effect.rs:262-266 | `find_uniform` is `None` exactly when the native lookup is null; otherwise it is the borrowed view, from `uniforms()`, of exactly the uniform the native lookup returned, which has the name |
| RuntimeEffects.IntoPtrs | skia-safe/src/effects/runtime_effect.rs:163-166 | every child is transferred, in order, and the pointers carry exactly the references the handles held |
| RuntimeEffects.ShaderArguments | skia-safe/src/effects/runtime_effect.rs:163-176 | the native call receives every child's reference in order, a count equal to the number of children, the data's reference and the opacity flag |
| RuntimeEffects.MakeShader | skia-safe/src/effects/runtime_effect.rs:156-177 | `make_shader` is `None` exactly when the factory returns null, and otherwise adopts the returned pointer |
| RuntimeEffects.MakeColorFilter | skia-safe/src/effects/runtime_effect.rs:208-212 | the input data's reference is transferred; the result is `None` exactly when the factory returns null, and otherwise adopts the returned pointer |
| Cargo.DashIndex | skia-bindings/build_support/cargo.rs:113 | the first dash of a string, or its length when it has none |
| Cargo.Split | skia-bindings/build_support/cargo.rs:113 | splitting on `-` gives at least one piece, no piece contains a dash, and the pieces joined with `-` are the input |
| Cargo.SplitJoin | skia-bindings/build_support/cargo.rs:113 | splitting the join of dash-free pieces gives the pieces back, so the split is the unique such list |
| Cargo.ParseTarget | skia-bindings/build_support/cargo.rs:111-130 | parsing panics with "Failed to parse TARGET …" exactly when there are fewer than three pieces; otherwise the fields are pieces 0, 1 and 2, and the ABI is piece 3 when there is one |
| Cargo.ParsedIsWellFormed | skia-bindings/build_support/cargo.rs:113-129 | no field of a parsed target contains a dash |
| Cargo.ExtraComponentsDropped | skia-bindings/build_support/cargo.rs:118-122 | pieces after the fourth are dropped, so the parsed target formats to a strict prefix of the input |
| Cargo.JoinPrefix | skia-bindings/build_support/cargo.rs:113 | joining all pieces is joining a prefix, a dash, then the rest |
| Cargo.Format | skia-bindings/build_support/cargo.rs:80-94 | formatting writes the three fields, then the ABI only when present, each separated by `-` |
| Cargo.ParseFormatRoundTrip | skia-bindings/build_support/cargo.rs:111-130 | a string of three or four pieces parses, and the parsed target formats back to that string |
| Cargo.FormatParseRoundTrip | skia-bindings/build_support/cargo.rs:80-94 | a target whose fields contain no dash parses back from its formatting |
| Cargo.IsWindows | skia-bindings/build_support/cargo.rs:56-58 | a target is a Windows target exactly when its system is `windows` (`Cargo.ParsedWindows` connects it to the parsed string) |
| Cargo.ParsedWindows | skia-bindings/build_support/cargo.rs:56-58 | a parsed target is a Windows target exactly when its third piece is `windows` |
| Cargo.LibraryToFilename | skia-bindings/build_support/cargo.rs:61-68 | the name followed by `.lib` on Windows, and `lib`, the name and `.a` elsewhere |
| Cargo.LibraryToFilenameInjective | skia-bindings/build_support/cargo.rs:61-68 | different library names give different file names |
| Cargo.AsStrs | skia-bindings/build_support/cargo.rs:70-77 | the four views rebuild the target exactly |
| Cargo.BuildRelease | skia-bindings/build_support/cargo.rs:136-145 | `release` maps to true and `debug` to false; any other profile panics with the "PROFILE '…' is not supported" message |
| Cargo.BuildReleaseRoundTrip | skia-bindings/build_support/cargo.rs:136-145 | each build mode's profile name maps back to that mode, and every accepted profile is one of those names |
| Codec.ToNative | skia-safe/src/codec/encoded_origin.rs:10-30 | each orientation's native code lies in 1..8 and is its position in Exif order |
| Codec.FromNative | skia-safe/src/codec/encoded_origin.rs:32 | reinterpreting a native code gives the orientation with that code |
| Codec.NativeRoundTrip | skia-safe/src/codec/encoded_origin.rs:11-32 | conversion to and from the native code is a bijection between the enum and 1..8 |
| Codec.DeclarationOrder | skia-safe/src/codec/encoded_origin.rs:13-30 | the i-th declared variant has code i + 1 |
| Codec.DefaultOrigin | skia-safe/src/codec/encoded_origin.rs:34-38 | `Default::default()` is the orientation with code 1, the least code of all |
| Codec.DefaultsAgree | skia-safe/src/codec/encoded_origin.rs:34-42 | `Default::default()` and `DEFAULT` agree and have the least code, 1 |
| Codec.LastIsGreatest | skia-safe/src/codec/encoded_origin.rs:41 | `LAST` has the greatest code, and no other variant has it |
| Codec.SwapsWidthHeight | skia-safe/src/codec/encoded_origin.rs:61-65 | `swaps_width_height` holds exactly for `LeftTop`, `RightTop`, `RightBottom` and `LeftBottom` |
| Codec.SwapsMonotone | skia-safe/src/codec/encoded_origin.rs:64 | if it holds for one code, it holds for every greater code |
| Codec.DescribeInjective | skia-safe/src/codec/encoded_origin.rs:14-29 | the documented transforms of different variants differ |
| Codec.SwapsMeansQuarterTurn | skia-safe/src/codec/encoded_origin.rs:22-29 | for a non-square source, `swaps_width_height` holds exactly when the documented transform exchanges width and height |

## Left out

- The generic `Handle`/`RCHandle`/`RefHandle` definitions and their
  traits are not part of this model. They are modelled only as far as the
  modules above use them: adopt, share, clone, drop and transfer over a
  refcount heap.
- Skia's own behaviour is not part of this model. Where the wrapper
  depends on it, the model states an assumption:
  - `findUniform`/`findChild` return the first entry with the name;
  - the uniform flag bits are 1, 2, 4 and 8;
  - `setStroke(true)` selects `Stroke` and `false` selects `Fill`;
  - the `C_SkPaint_set*` shims take the transferred reference and release
    the slot's previous one, as `sk_sp` assignment does;
  - the copy constructor refs every slot and the destructor unrefs every
    slot.
- Paints.Hash: `getHash` lives in Skia, so the model's hash is an
  arbitrary fixed function of the flags and slots. Only its agreement with
  equality is stated.
- Paints.Equals: equality compares the modelled attributes. The
  floating-point attributes (colour, alpha, stroke width, miter) are not
  modelled, so they take no part in it.
- Paint floating-point state: `new(color, color_space)`, `color`,
  `color4f`, `set_color`, `set_color4f`, `alpha`, `alpha_f`, `set_alpha`,
  `set_alpha_f`, `set_argb`, `stroke_width`, `stroke_miter` and their
  setters. These are floats and colour conversion.
- The `Paint` getters `filter_quality`, `style`, `blend_mode`,
  `stroke_cap` and `stroke_join` are field reads in the model (`Get`).
  `is_anti_alias` and `is_dither` are the bit reads `IsAntiAlias` and
  `IsDither`.
- `get_fill_path` and `nothing_to_draw` are geometry and policy inside
  Skia.
- `EncodedOrigin::to_matrix` is a foreign call that produces a float
  matrix. The transform table in `Codec.Describe` stands in for its
  meaning.
- The `EncodedOrigin` layout test, the `Options` layout test and the
  `Send`/`Sync` markers concern memory layout and threads.
- RuntimeEffects.MakeShader: the `local_matrix` argument is not modelled.
  It is a borrowed, optional float matrix passed through unchanged.
- The remaining runtime-effect members are left out:
  - `make_image`, `source`, `uniform_size`, `size_in_bytes` and the `Debug`
    output are foreign data or presentation;
  - the uniform type `ty` is an opaque native enum;
  - the deprecated aliases `input_size`, `inputs` and `find_input` forward
    unchanged to `uniform_size`, `uniforms` and `find_uniform`, and the
    deprecated type alias `Variable` names `Uniform`;
  - `children()` returns the native name list unchanged, which is
    `Effect.children` in the model.
- The build helper's environment and I/O functions are left out:
  `warning`, `output_directory`, `rerun_if_*`, `env_var`, `add_link_*`,
  `target`, `host`, `target_crt_static`, `crate_repository_hash`,
  `package_version`, `get_metadata` and `is_crate`. They read the process environment
  or files, or print. `target`/`host` are `parse_target` applied to an
  environment variable, and `build_release` is modelled over the profile
  string.
- Codec.FromNative: it is defined only for the codes 1..8. The Rust
  reinterpretation of any other value would be undefined behaviour, not a
  checked error.
