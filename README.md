# v8kit binding layer, modelled in Dafny

v8kit binds C++ classes, enums, functions and values to the V8 JavaScript
engine. This project models the part of it that decides things, without
the V8 API underneath:

- **Metadata and its builders.** `ClassMetaBuilder` validates a dotted class
  name and collects static members in call order. Its `build()` decides which
  equals and clone hooks a class gets. `EnumMetaBuilder` collects entries.
  `ClassMeta::isA` walks the single-parent base chain.
- **The engine.** It keeps the class, type and enum registries, with their
  duplicate and base-class checks. It provides the constructor callback, with
  its native sentinel path and its script `new` path. It keeps the external
  memory counter and the managed-resource registry. The garbage collector
  drives that registry through a two-pass weak callback, and `~Engine`
  tears it down.
- **Value converters.** These cover bool, the integer types (64-bit becomes
  BigInt), strings, enums, optionals, vectors, string-keyed maps, variants
  (the first alternative that converts), monostate and pairs. The native
  instance unwrap is modelled as well.
- **Binding-class `toJs`.** The return-value policy is resolved from the
  value's static shape. Each policy is turned into a holder: an owned copy, a
  moved object, a taken-over pointer or a borrowed reference. Polymorphic
  resolution prefers the dynamic type's class when it is registered.
- **The adapter.** It covers the exact-arity check of wrapped functions,
  first-match overload dispatch, the setter rules for static members, the
  arity guard of bound constructors, and identity or value `equals`.
- **The holder and the payload.** `NativeInstanceImpl` provides `cast`,
  `clone`, ownership and constness. `InstancePayload` provides `finalize` and
  `unwrap`.

Script values are the datatype `Common.JsVal`. A native object is
`Instance(handle)`, and its payload lives in the engine's `objects` map. A
type identity is `TypeId`, and a native address is a `nat`. The code the
binding calls but does not define takes the form of parameters:

- the users' callbacks (`Adapter.Natives`);
- `ClassMeta::castTo`;
- `factory::createNativeInstance` and `detail::resolveAutomaticPolicy`;
- the class constructor callback.

The engine is a class whose maps are fields. Its methods state the new
state outright and keep the invariant `Engine.Engine.Valid`. The converters
are functions, and the lemmas of `ConvertProperties` state their properties.

## Model

| member | source | states |
|---|---|---|
| Convert.Wrap | src/v8kit/binding/TypeConverter.h:189-201 | The integral conversion always lands in the target type's range, differs from its input by a multiple of 2^bits, and leaves in-range values unchanged. |
| Convert.WrapCongruent | src/v8kit/binding/TypeConverter.h:189-201 | A value that differs from an in-range value by a multiple of 2^bits converts to that value. |
| Convert.ToJs | src/v8kit/binding/TypeConverter.h:172-351 | `toJs` never yields undefined, and yields null only for optional, variant and monostate types. |
| Convert.ToCpp | src/v8kit/binding/TypeConverter.h:172-351 | null and undefined are refused by every type except optional, variant and monostate. |
| Convert.TryToCpp | src/v8kit/binding/TypeConverter.h:302-317 | A successful variant holds an alternative at or after the one tried first, and that alternative converts the value to what is held. |
| Convert.NumberToJsAsWritten | src/v8kit/binding/TypeConverter.h:182-188 | As written, a 64-bit value becomes a BigInt in the `int64_t` range and every other value a Number. Off `uint64_t` it agrees with the corrected `toJs`. |
| Convert.Assign | src/v8kit/binding/TypeConverter.h:276-280 | After `result[key] = value` the entry `(key, value)` is present. The length grows by one exactly when `key` was absent. |
| ConvertProperties.RoundTrip | src/v8kit/binding/TypeConverter.h:172-351 | `toCpp(toJs(x)) == x` holds for every value of bool, integer, string, enum of at most 32 bits, optional (of a non-nullable type), vector, map, monostate and pair types. |
| ConvertProperties.ItemsRoundTrip | src/v8kit/binding/TypeConverter.h:239-257 | A vector converted to an array and back is the same vector, element by element, in order. |
| ConvertProperties.EntriesRoundTrip | src/v8kit/binding/TypeConverter.h:261-282 | A map with distinct keys converted to an object and back gives the same entries, appended after what was already read. |
| ConvertProperties.ToCppWellTyped | src/v8kit/binding/TypeConverter.h:189-351 | Whatever `toCpp` accepts is a value of the requested type: integers are in range and map keys are distinct. |
| ConvertProperties.AssignReplaces | src/v8kit/binding/TypeConverter.h:278 | `result[key] = value` on a key already present replaces that entry in place and keeps the length. |
| ConvertProperties.AssignKeys | src/v8kit/binding/TypeConverter.h:276-280 | `result[key] = value` keeps the keys distinct and adds exactly `key` to the key set. |
| ConvertProperties.NestedOptionalCollapses | src/v8kit/binding/TypeConverter.h:222-235 | An engaged optional holding an empty optional becomes null and comes back as an empty outer optional. |
| ConvertProperties.NumberToJsKeepsValue | src/v8kit/binding/TypeConverter.h:182-188 | A value becomes a BigInt exactly for the 64-bit types, and a Number otherwise, holding the same integer either way. |
| ConvertProperties.NumberToCppAccepts | src/v8kit/binding/TypeConverter.h:189-201 | The number converter accepts exactly a Number or a BigInt, yields a value in range, and otherwise throws TypeError "Cannot convert value to NumberLike<T>". |
| ConvertProperties.Uint64AsWrittenIsNegative | src/v8kit/binding/TypeConverter.h:183-184 | As written, `uint64_t` 2^64-1 reaches script as BigInt -1, while the corrected converter gives 2^64-1. |
| ConvertProperties.NumberAsWrittenDiffersIff | src/v8kit/binding/TypeConverter.h:183-184 | The written and the corrected `toJs` differ exactly on `uint64_t` values from 2^63 up. |
| ConvertProperties.Uint64AsWrittenRoundTrips | src/v8kit/binding/TypeConverter.h:183-199 | The written `uint64_t` path still round-trips, because `getUint64` undoes the reinterpretation. |
| ConvertProperties.EnumCastsBack | src/v8kit/binding/TypeConverter.h:214-218 | An enum of at most 32 bits survives `static_cast<int>` and the cast back; a `uint32_t` value above `INT32_MAX` travels as a negative number and wraps back. |
| ConvertProperties.WideEnumTruncated | src/v8kit/binding/TypeConverter.h:214-218 | An enum value of 2^32 does not survive `static_cast<int>` and comes back as 0. |
| ConvertProperties.ScalarShapes | src/v8kit/binding/TypeConverter.h:172-210 | bool becomes Boolean and string becomes String, each with the same content, and each converts back to itself. |
| ConvertProperties.MonostateAcceptsOnlyNullish | src/v8kit/binding/TypeConverter.h:321-331 | monostate is null, and `toCpp` accepts exactly null or undefined, throwing TypeError otherwise. |
| ConvertProperties.OptionalToCpp | src/v8kit/binding/TypeConverter.h:229-234 | null and undefined give an empty optional; any other value is the inner conversion, success or failure. |
| ConvertProperties.VectorElementwise | src/v8kit/binding/TypeConverter.h:247-256 | A vector converts iff every element does. Result element i comes from array element i. On failure the error is that of the first failing element. |
| ConvertProperties.PairNeedsTwoElements | src/v8kit/binding/TypeConverter.h:345-348 | Anything but an array of exactly two elements is refused with "Invalid argument type, expected array with 2 elements". |
| ConvertProperties.PairToJsShape | src/v8kit/binding/TypeConverter.h:339-344 | A pair becomes the two-element array [first, second], each converted. |
| ConvertProperties.VariantPicksFirstAccepting | src/v8kit/binding/TypeConverter.h:302-317 | When earlier alternatives all throw a v8kit Exception, the first alternative that converts is the one held. |
| ConvertProperties.VariantPropagatesForeignFailure | src/v8kit/binding/TypeConverter.h:311-315 | A failure that is not a v8kit Exception is not caught and becomes the variant's result. |
| ConvertProperties.VariantNoMatch | src/v8kit/binding/TypeConverter.h:303-309 | When every alternative throws a v8kit Exception, the variant throws TypeError "no matching type found". |
| ConvertProperties.VariantResultIsFirstAccepting | src/v8kit/binding/TypeConverter.h:302-317 | Conversely, a successful variant names an alternative that accepts, and every earlier alternative threw. |
| ConvertProperties.VariantToJs | src/v8kit/binding/TypeConverter.h:293-298 | A valueless variant is null; otherwise the held alternative is converted on its own. |
| ConvertProperties.OnlyExceptions | src/v8kit/binding/TypeConverter.h:172-351 | The value converters throw nothing but v8kit Exceptions. |
| ConvertProperties.VariantRoundTrip | src/v8kit/binding/TypeConverter.h:293-317 | A held alternative converted to script and back lands on itself iff no earlier alternative accepts the script value, and otherwise on an earlier one. |
| MetaInfo.HasConstructor | src/v8kit/core/MetaInfo.h:88 | Whether the class has a constructor callback. |
| MetaInfo.Ancestry | src/v8kit/core/MetaInfo.h:90-99 | The chain of type identities starts with the class's own. |
| MetaInfo.Lineage | src/v8kit/core/MetaInfo.h:85 | The classes of the base chain carry, position by position, the identities of `Ancestry`. |
| MetaInfo.IsA | src/v8kit/core/MetaInfo.h:90-108 | The chain walk answers true iff `t` is the class's own identity, or `recursion` is set and `t` is an ancestor's identity. |
| MetaInfo.IsAMeta | src/v8kit/core/MetaInfo.h:101-103 | `isA(meta, r)` is `isA(meta.typeId_, r)`. |
| MetaInfo.LineageIsAncestry | src/v8kit/core/MetaInfo.h:90-99 | Every class on the chain is an ancestor in the `isA` sense, and its own chain is the rest of the chain. |
| MetaInfo.AncestryTransitive | src/v8kit/core/MetaInfo.h:90-99 | Whatever an ancestor is-a, the class is-a too. |
| MetaBuilder.ValidateClassName | src/v8kit/binding/MetaBuilder.h:64-82 | A name is accepted iff it is non-empty, has no dot at either end and has no two adjacent dots. The first failing check names the error. |
| MetaBuilder.ClassMetaBuilder.Init | src/v8kit/binding/MetaBuilder.h:64 | A new builder holds the name and has empty member lists. |
| MetaBuilder.ClassMetaBuilder.Create | src/v8kit/binding/MetaBuilder.h:64-82 | `defClass` succeeds iff the name is well formed, and otherwise throws `invalid_argument`. |
| MetaBuilder.ClassMetaBuilder.Func | src/v8kit/binding/MetaBuilder.h:92-95 | Appends exactly one static function, as given; every other list is unchanged. |
| MetaBuilder.ClassMetaBuilder.FuncNative | src/v8kit/binding/MetaBuilder.h:97-104 | Appends the C++ function wrapped with the policy; every other list is unchanged. |
| MetaBuilder.ClassMetaBuilder.FuncOverloads | src/v8kit/binding/MetaBuilder.h:106-113 | Appends one overload set whose candidate i is function i wrapped with the single given policy, or Automatic when none is given. |
| MetaBuilder.ClassMetaBuilder.Var | src/v8kit/binding/MetaBuilder.h:115-118 | Appends exactly one static property with the getter and setter as given. |
| MetaBuilder.ClassMetaBuilder.VarNative | src/v8kit/binding/MetaBuilder.h:120-128 | Appends one property with the getter wrapped with the policy, and the given setter wrapped, or no setter when none is given. |
| MetaBuilder.ClassMetaBuilder.VarMember | src/v8kit/binding/MetaBuilder.h:130-137 | Appends one property for a static member, writable iff it is a pointer to non-const, and then its setter stores at the member's address. |
| MetaBuilder.ClassMetaBuilder.VarReadonlyMember | src/v8kit/binding/MetaBuilder.h:139-146 | Appends one property for a static member, always with a null setter. |
| MetaBuilder.ClassMetaBuilder.VarReadonlyGetter | src/v8kit/binding/MetaBuilder.h:148-159 | Appends one property with the getter kept or wrapped, and a null setter. |
| MetaBuilder.ClassMetaBuilder.Build | src/v8kit/binding/MetaBuilder.h:223-256 | The collected members are kept unchanged and in order. A static class has size 0 and no hooks. An instance class has an equals hook (by value iff `T` has `==`), a copy hook iff `T` is copy constructible, and a move hook iff it is move constructible. |
| MetaBuilder.EnumMetaBuilder.constructor | src/v8kit/binding/MetaBuilder.h:267 | The name is kept unvalidated, with no entries. |
| MetaBuilder.EnumMetaBuilder.Value | src/v8kit/binding/MetaBuilder.h:269-272 | Appends `(name, int64_t(e))` after the earlier entries. |
| MetaBuilder.EnumMetaBuilder.Build | src/v8kit/binding/MetaBuilder.h:274 | The name and the entries, unchanged. |
| MetaBuilder.EnumEntryValue | src/v8kit/binding/MetaBuilder.h:270 | An enumerator keeps its value through `static_cast<int64_t>`, except a `uint64_t` one from 2^63 up. |
| NativeInstanceImpl.MakeOwned | src/v8kit/binding/NativeInstanceImpl.h:31-35 | The two-argument constructor makes an owned `unique_ptr` holder with the given metadata and pointer. |
| NativeInstanceImpl.Make | src/v8kit/binding/NativeInstanceImpl.h:37-40 | The three-argument constructor makes a holder whose `is_owned()` is exactly the flag given. |
| NativeInstanceImpl.Cast | src/v8kit/binding/NativeInstanceImpl.h:46-63 | A null pointer gives null. The holder's own type gives the held address. Any other type is the metadata's `castTo`, or null without metadata. |
| NativeInstanceImpl.TypeIdOf | src/v8kit/binding/NativeInstanceImpl.h:42 | The element type without cv-qualifiers. |
| NativeInstanceImpl.IsConst | src/v8kit/binding/NativeInstanceImpl.h:44 | Whether the element type is const. |
| NativeInstanceImpl.IsOwned | src/v8kit/binding/NativeInstanceImpl.h:85 | The ownership flag fixed at construction. |
| NativeInstanceImpl.GetSharedPtr | src/v8kit/binding/NativeInstanceImpl.h:65-70 | Non-null only for a `shared_ptr` holder, and then the held pointer. |
| NativeInstanceImpl.Clone | src/v8kit/binding/NativeInstanceImpl.h:72-83 | Succeeds iff the type is copy constructible and the pointer is non-null, giving an owned `unique_ptr` copy with the same metadata. Otherwise it throws "Object is not copy constructible". |
| NativeInstanceImpl.CloneIsIndependentCopy | src/v8kit/binding/NativeInstanceImpl.h:72-83 | The clone lives at a new address holding what the original holds, casts to its own type at that address, and changes nothing else. |
| InstancePayload.InstancePayload.FromHolder | src/v8kit/core/InstancePayload.h:61 | The one-argument constructor has no metadata, no engine, and `constructFromJs` false. |
| InstancePayload.InstancePayload.constructor | src/v8kit/core/InstancePayload.h:63-72 | The four-argument constructor stores exactly what it is given. |
| InstancePayload.InstancePayload.GetHolder | src/v8kit/core/InstancePayload.h:32 | The holder, or null once finalized. |
| InstancePayload.InstancePayload.Finalize | src/v8kit/core/InstancePayload.h:43-47 | The holder is gone afterwards, a second call changes nothing, and every later `unwrap` is null. |
| InstancePayload.InstancePayload.Unwrap | src/v8kit/core/InstancePayload.h:49-55 | Null without a holder. A non-null result comes from a live holder with a pointer. The holder's own type gives its pointer. |
| Polymorphic.HookGet | src/v8kit/binding/traits/Polymorphic.h:12-31 | The non-polymorphic hook returns the pointer as is and reports `T` iff non-null. The polymorphic hook returns the most-derived address and the dynamic type, or null and nothing. |
| Polymorphic.ResolveCastSource | src/v8kit/binding/traits/Polymorphic.h:52-75 | A registered static type never fails. Without a downcast the result is the static class with the original pointer. A failure means the static type is unregistered. |
| Polymorphic.ResolveNeverMixes | src/v8kit/binding/traits/Polymorphic.h:52-75 | The most-derived address goes only with the dynamic class and the original pointer only with the static class. The function fails, with "Class not registered", iff neither type is registered. |
| Polymorphic.DynamicTypeWins | src/v8kit/binding/traits/Polymorphic.h:61-65 | A registered dynamic type yields `{most-derived address, dynamic class, true}`. |
| Polymorphic.FallbackKeepsOriginalPointer | src/v8kit/binding/traits/Polymorphic.h:68-74 | An unregistered dynamic type falls back to `{original pointer, static class, false}`. |
| Polymorphic.NonPolymorphicReportsDowncast | src/v8kit/binding/traits/Polymorphic.h:56-65 | For a non-polymorphic registered type the hook reports `T`, so the result is flagged as a downcast. |
| PolicyResolver.HandleAutomaticPolicy | src/v8kit/binding/TypeConverter.inl:231-243 | Automatic becomes TakeOwnership for a pointer, Copy for an lvalue reference and Move for an rvalue reference. It stays Automatic exactly for a plain value. Other policies are kept. |
| PolicyResolver.HandleAutomaticPolicyIdempotent | src/v8kit/binding/TypeConverter.inl:231-243 | Resolving twice is resolving once. |
| PolicyResolver.Materialise | src/v8kit/binding/TypeConverter.inl:300-350 | The policy switch throws exactly for Copy of a non-copyable type or TakeOwnership of a non-pointer. It yields no instance exactly for Automatic or Move of a non-movable type. Otherwise the holder is owned iff the policy is Copy, Move or TakeOwnership, and it is a new object iff Copy or Move. |
| Adapter.ConvertArgs | src/v8kit/binding/Adapter.inl:32-36 | Argument i converts to parameter type i. On failure the error is that of the first failing argument. |
| Adapter.ConvertArgsRoundTrip | src/v8kit/binding/Adapter.inl:32-36 | Script arguments made from C++ values of round-tripping types convert back to exactly those values. |
| Adapter.WrapFunction | src/v8kit/binding/Adapter.inl:67-90 | A `FunctionCallback` is kept; anything else is wrapped together with the policy. |
| Adapter.WrappedCallPassesArguments | src/v8kit/binding/Adapter.inl:72-89 | A wrapped function receives exactly the caller's values. Its error is passed on, and its result is undefined for void or else converted. |
| Adapter.CallWrapped | src/v8kit/binding/Adapter.inl:72-89 | A wrong argument count throws TypeError "argument count mismatch" before any conversion. A void function yields undefined. With the right count, the result is the first failing argument's conversion error, else what the function threw, else its return value converted by `ToJs`. |
| Adapter.CallFunction | src/v8kit/binding/Adapter.inl:67-108 | A wrapped function checks the argument count first. An overload set lets out no v8kit Exception except "no overload found". |
| Adapter.Dispatch | src/v8kit/binding/Adapter.inl:93-108 | The only v8kit Exception dispatch throws is "no overload found". A result is some candidate's result. |
| Adapter.DispatchOverloadImpl | src/v8kit/binding/Adapter.inl:93-108 | Candidates run in order, and later ones are never invoked. The first that does not throw a v8kit Exception decides. An Exception from the last candidate becomes TypeError "no overload found". |
| Adapter.WrapOverloadFuncAndExtraPolicy | src/v8kit/binding/Adapter.inl:123-158 | One candidate per function, in order, each wrapped with the single given policy, or with Automatic when none is given. |
| Adapter.GivenPolicyIsTheOne | src/v8kit/binding/Adapter.inl:128-138 | With one policy argument, that argument's policy is the one used. |
| Adapter.NoPolicyMeansAutomatic | src/v8kit/binding/Adapter.inl:128 | With no policy argument, the policy is Automatic. |
| Adapter.WrapGetter | src/v8kit/binding/Adapter.inl:162-176 | A `GetterCallback` is kept with its identity; a C++ getter is wrapped with the policy. |
| Adapter.WrapSetter | src/v8kit/binding/Adapter.inl:177-192 | A null setter stays null. A `SetterCallback` is kept with its identity, and a C++ setter is wrapped. |
| Adapter.WrapStaticMember | src/v8kit/binding/Adapter.inl:194-224 | There is always a getter. There is a setter iff the member is a pointer to non-const and not forced read-only. |
| Adapter.CallGetter | src/v8kit/binding/Adapter.inl:203-206 | A pointer member's getter fails iff the pointer is null, with "Accessing null static member pointer"; a non-null one reads the member's current value, a value member its value, converted by `ToJs`. A wrapped C++ getter gives what `CallWrapped` gives with no arguments. |
| Adapter.CallSetter | src/v8kit/binding/Adapter.inl:209-212 | A member setter throws on a null pointer. Otherwise it stores the converted value at the address, or passes on the conversion error leaving memory as it was. A wrapped C++ setter passes on the conversion error or what the setter threw, and a raw setter what it threw; neither changes the modelled memory. |
| Adapter.SetThenGet | src/v8kit/binding/Adapter.inl:203-212 | A value stored through the member setter is what the getter reads back; for round-tripping types that is the very script value written. |
| Adapter.BindConstructorCall | src/v8kit/binding/Adapter.inl:227-254 | A wrong argument count is "not constructed" (null). Otherwise the result is exactly the converted arguments, or the first failing argument's conversion error. |
| Adapter.BindInstanceEquals | src/v8kit/binding/Adapter.inl:267-271 | Value comparison exactly when the class has `operator==`. |
| Adapter.CallEquals | src/v8kit/binding/Adapter.inl:257-266 | The address version compares addresses. The value version is false when either side is null, and otherwise the class's `==`. |
| Engine.EnumObjectOf | src/v8kit/core/Engine.cc:210-219 | One Number property per entry name, where the last entry of a name wins, plus a hidden read-only `$name` holding the enum's name. |
| Engine.Engine.constructor | src/v8kit/core/Engine.cc:35-47 | A fresh engine has every registry empty and a zero counter. |
| Engine.Engine.CounterNonNegative | src/v8kit/core/Engine.cc:375-389 | While the books balance, the external memory counter is never negative. |
| Engine.Engine.GetClassMeta | src/v8kit/core/Engine.cc:152-156 | A class exactly for the registered type identities, and it is that type's class. |
| Engine.Engine.RegistrationError | src/v8kit/core/Engine.cc:158-191 | The checks of `registerClass`, in order: a taken name is a `logic_error`, then a base without a constructor, then an unregistered base. |
| Engine.Engine.RegisterClass | src/v8kit/core/Engine.cc:158-203 | On a failed check nothing changes. Otherwise the class is recorded under its name, gets a constructor and is mounted on `globalThis`. Its type maps to it unless an earlier class holds the type. |
| Engine.Engine.RecordClass | src/v8kit/core/Engine.cc:196-201 | The three emplaces and the global keep the registries consistent. |
| Engine.Engine.RegisterEnum | src/v8kit/core/Engine.cc:205-228 | A taken name is a `logic_error` and changes nothing. Otherwise the enum object is recorded and mounted, holding every entry and a hidden `$name`. |
| Engine.Engine.GetInstancePayload | src/v8kit/core/Engine.cc:265-275 | The payload exactly for a native object, and null for any other value. |
| Engine.Engine.IsInstanceOf | src/v8kit/core/Engine.cc:231-238 | False for a class without a constructor template. When true, the object is native and its class is-a the given class. |
| Engine.Engine.TrySetReferenceInternal | src/v8kit/core/Engine.cc:276-289 | Succeeds iff both are native objects, and then links the child to the parent; otherwise nothing changes. |
| Engine.Engine.AddManagedResource | src/v8kit/core/Engine.cc:126-151 | Adds exactly one new entry under a fresh key. |
| Engine.Engine.Construct | src/v8kit/core/Engine.cc:343-392 | A plain call throws. The native path is the sentinel symbol plus an external. A null instance throws a message naming the path. On success the object gets a payload, the counter rises by the class size only for a script `new`, and the payload is registered. |
| Engine.Engine.Attach | src/v8kit/core/Engine.cc:369-389 | The successful end of the constructor callback: a fresh payload, the counter change, and one managed entry. |
| Engine.Engine.NewInstance | src/v8kit/core/Engine.cc:240-263 | An unregistered class is a `logic_error`. A non-constructible one gives a TypeError. A null instance is refused. Otherwise a native-path object with that class whose payload is registered as one new managed resource, and the counter is unchanged. A failure leaves the objects, the resources and the counter unchanged. |
| Engine.Engine.Externalize | src/v8kit/core/Engine.cc:255-258 | The external carries exactly the given instance, or is null. |
| Engine.Engine.GcFirstPass | src/v8kit/core/Engine.cc:132-140 | The entry is erased from the registry, once, and waits for the second pass. |
| Engine.Engine.GcSecondPass | src/v8kit/core/Engine.cc:141-145 | The corrected second pass runs the deleter: the payload is deleted and the counter falls by what it was charged. |
| Engine.Engine.GcSecondPassAsWritten | src/v8kit/core/Engine.cc:141-145 | As written the deleter never runs: the resource is neither live, pending nor deleted, and a charged payload leaves the counter too high for good. |
| Engine.Engine.Teardown | src/v8kit/core/Engine.cc:55-81 | A no-op once destruction has begun. Otherwise every registered resource's deleter runs once, the counter falls by their charge, and the constructors, classes and resources are cleared. |
| Engine.Engine.DeleteResources | src/v8kit/core/Engine.cc:64-68 | Every registered resource is deleted, and what remains charged is exactly the pending resources. |
| Engine.Engine.ClearClasses | src/v8kit/core/Engine.cc:69-75 | The constructors and the class registry are emptied, and the registries stay consistent. |
| Engine.WriteStaticProperty | src/v8kit/core/Engine.cc:416-430 | A property without a setter throws TypeError "Cannot write to read-only native property"; a member setter throws "Accessing null static member pointer" on a null address, leaving memory as it was, and otherwise stores the converted value. A raw or wrapped C++ setter succeeds or fails as the setter does, after the argument converts. |
| Registry.RunDeleters | src/v8kit/core/Engine.cc:64-68 | The teardown loop runs every resource's deleter once and lowers the counter by their total charge. |
| Registry.ClassAddedConsistent | src/v8kit/core/Engine.cc:196-198 | Registering a class under a free name keeps the registries consistent, and the class had no constructor before. |
| Binding.BindingMeta | src/v8kit/binding/TypeConverter.inl:264-282 | The reported type's class if registered, else the static type's, else "Class not registered" naming the reported type. |
| Binding.BindingMetaAgreesWithResolveCastSource | src/v8kit/binding/TypeConverter.inl:264-282 | The bound-class `toJs` and `resolveCastSource` choose the same class and fail on the same inputs. |
| Binding.BindingClassToJs | src/v8kit/binding/TypeConverter.inl:246-371 | A null pointer is null with nothing created, and a lookup error is passed on. An unresolved Automatic policy fails, as do Move of a non-movable type, Copy of a non-copyable type ("Object is not copy constructible") and TakeOwnership of a non-pointer. For a registered, constructible class whose policy yields a holder, the result is a native object, unless ReferenceInternal meets a non-object parent. On success the object has the chosen class, is owned iff the policy owns, and holds a new object for Copy or Move. |
| Binding.GenericToJs | src/v8kit/binding/TypeConverter.h:107-143 | A null pointer or a null created instance is null, and a resolution error is passed on. For a registered, constructible class the result is a native object, unless ReferenceInternal meets a parent that is not a native object. That object has the resolved class and the created instance, and ReferenceInternal links it to its parent. |
| Binding.GenericToCpp | src/v8kit/binding/TypeConverter.h:146-155 | A non-object fails in `asObject`, and an object without payload is "Argument is not a native instance". A released holder or a failed cast is "Type mismatch or cast failed". A returned pointer is never null. |
| Binding.GenericToCppAsWritten | src/v8kit/binding/TypeConverter.h:146-155 | As written, a live holder behaves like the null-safe unwrap. |
| Binding.FinalizedInstanceAsWritten | src/v8kit/binding/TypeConverter.h:152 | Converting an object whose payload was finalized dereferences a null holder as written; the null-safe unwrap reports a mismatch. |
| Binding.ToCppRef | src/v8kit/binding/TypeConverter.h:389-396 | The converter's error is passed on, a null pointer is a `runtime_error`, and a non-null pointer is the reference. |
| Binding.ToCppRefNeverNull | src/v8kit/binding/TypeConverter.h:389-396 | Over the generic converter the null-pointer `runtime_error` is unreachable. |

## Left out

- V8 plumbing is not modelled: function templates, accessors, handles, `eval`, `loadFile`, `gc`, `setToStringTag` and `EngineScope`. A script object of a native class is a handle with its payload.
- Concurrency is not modelled. The `v8::Locker` in the weak callbacks becomes two sequential events, erase then delete.
- Floating point is not modelled. A script Number is an integer, and float and double are not among the arithmetic types.
- The checked accessors (`asBoolean`, `asString`, `asNumber`, `asArray`, `asObject`) are defined outside the modelled files. Their kind mismatch is taken to be a v8kit `Exception` of type TypeError.
- `ClassMeta::castTo`, `NativeInstance::unwrap`, `factory::createNativeInstance` and `detail::resolveAutomaticPolicy` are not defined in any modelled file. They are parameters, and `unwrap<T>` is taken to be `cast(typeid(T))`. The const check that `unwrap<T>` performs (test/binding_test.cc:266-272 expects "Cannot unwrap const instance to mutable pointer" for a const instance unwrapped to a mutable pointer) is not in any modelled file, so `InstancePayload.Unwrap` and `Binding.GenericToCpp` return the held pointer in that case.
- Compile-time machinery is not modelled. The type traits become the `ValueShape` and `TypeInfo` tags, and the `static_assert`s become preconditions.
- ConvertProperties.RoundTrip: a C++ `std::string` is bytes, handed to `v8::String::NewFromUtf8` (src/v8kit/core/Value.cc:75) and read back as UTF-8 (src/v8kit/binding/TypeConverter.h:208). The model takes strings and map keys to be valid UTF-8 text, a sequence of characters; a byte string that is not valid UTF-8 is not round-tripped, since V8 replaces its bad sequences with U+FFFD. ConvertProperties.ScalarShapes and ConvertProperties.EntriesRoundTrip rest on the same reading.
- Convert.ToCpp: a pair is built by `std::make_pair(toCpp<Ty1>(array.get(0)), toCpp<Ty2>(array.get(1)))` (src/v8kit/binding/TypeConverter.h:350), whose argument evaluation order C++ leaves unspecified. The model converts the first element first, so when both fail it reports the first element's error; a compiler that evaluates right to left reports the second's.
- MetaBuilder.ClassMetaBuilder.Build: `build()` moves the name and every member list out of the builder (src/v8kit/binding/MetaBuilder.h:241-247), so a second `build()` on the same builder sees moved-from (in practice empty) name and lists. The model's `Build` only reads the builder, so it does not capture this one-shot behaviour.
- PolicyResolver.Materialise: for Reference and ReferenceInternal the source calls `createImpl` (src/v8kit/binding/TypeConverter.inl:287-296, 341-345), which always uses the two-argument `NativeInstanceImpl` constructor; that constructor sets `takeOwnership_` to true (src/v8kit/binding/NativeInstanceImpl.h:31-35), and its `is_unique_ptr_v<T>` requirement on the element type cannot hold, so as written no holder can be built this way at all. The model gives the evident meaning, a borrowed holder built with ownership false (the three-argument constructor), so `Materialise` and Binding.BindingClassToJs state "owned iff Copy, Move or TakeOwnership", not the owning reference holder the code would make if it compiled.
- ConvertProperties.RoundTrip: map `toJs` writes each entry with `Object::set` on a fresh object (src/v8kit/binding/TypeConverter.h:264-268), and `Object::set` is not part of this model. It is taken to create an own data property for every key. Under V8's ordinary `[[Set]]` the key `"__proto__"` would instead run the `Object.prototype.__proto__` setter and create no own property, so a map with that key would not round-trip; ConvertProperties.EntriesRoundTrip rests on the same reading.
- Convert.ToJs: `TypeConverter<uint32_t>::toJs` calls `Number::newNumber(value)` (src/v8kit/binding/TypeConverter.h:186), whose only overloads take `double`, `int` and `float` (src/v8kit/core/Value.h:55-57); for `uint32_t` the call is ambiguous and does not compile. The model gives it `Number(x)`, so the `UInt32` cases of `ToJs` and `ConvertProperties.RoundTrip` describe no compiled code. A Number out of range for its C++ type is modelled as wrapping around (`Convert.Wrap`), because `getValueAs<T>` (src/v8kit/binding/TypeConverter.h:191) is not defined in any modelled file.
- `wrapScriptCallback` is not modelled, because it calls back into script.
- Binding-class `toCpp` and `$equals` are stubs in the source and are not modelled.
- Adapter.BindConstructorCall: object creation is commented out in the source, so it states only the arity guard and argument conversion.
- The `ctor` and `inherit` builders are commented out in the source. The builder therefore never sets a base or a constructor, and `Init` leaves both empty.
- MetaBuilder.ClassMetaBuilder.VarMember: `var(name, value, policy)` calls `wrapStaticMember` without its `forceReadonly` argument. The model passes `false`.
- MetaBuilder.ClassMetaBuilder.Build: `build()` passes clone hooks and an upcaster that `InstanceMemberMeta` and `ClassMeta` do not declare. The model follows the builder and keeps the clone hooks as flags.
- NativeInstanceImpl.MakeOwned: the two-argument constructor's requirement `is_unique_ptr_v<T>` tests the element type, which cannot hold. The model takes the evident meaning: a `unique_ptr` holder owns its object.
- Binding.BindingClassToJs: `mostDerivedPtr` is computed but never used by the holder, so the holder keeps the original address. `new` on a class without a constructor (a template made with `ConstructorBehavior::kThrow`, src/v8kit/core/Engine.cc:170) fails with V8's "is not a constructor" TypeError; the model keeps only that suffix of the message, since V8 prefixes it with the function's name.
- Binding.BindingClassToJs: the `ReferenceInternal` keep-alive link is a TODO in the bound-class converter, so only the parent check is modelled.
- Engine.Engine.Teardown: `~Engine` clears the constructors, the class registry and the resource registry. The type and enum registries are left as they are, as in the code.
- Engine.Engine.NewInstance: the failures of the constructor call are rethrown through V8's `TryCatch` (src/v8kit/core/Engine.cc:252 and 260). The rethrown exception has the default type and a message formatted by V8, so the model's exact failure values stand for what V8 reports, not for what reaches the caller.
- Adapter.CallWrapped: only value-typed arguments and results are modelled. The policy and `this` that the wrapper hands to `toJs` (src/v8kit/binding/Adapter.inl:87) are dropped, since the value converters ignore them. Adapter.WrappedCallPassesArguments is stated under the same restriction.
- Convert.OwnProperties: V8's `getOwnPropertyNames` is not part of this model. A native instance is taken to have no own enumerable properties, and an array's names are its indices in decimal.
- Engine.Engine.NewInstance: the payload leak when the constructor throws after `instance.release()` is not modelled.
- `Function::newFunction` (src/v8kit/core/Value.cc:129) registers each script function's callback with `addManagedResource` and a plain `delete` as deleter. Value.cc is not part of this model, so only instance payloads are managed resources here.

## Findings

| source | as written | input that shows it | evidently intended | confidence | as-written member | corrected member |
|---|---|---|---|---|---|---|
| src/v8kit/binding/TypeConverter.h:183-184 | `uint64_t` is passed to `BigInt::newBigInt(int64_t)` | `uint64_t` 2^64-1 reaches script as BigInt -1 | a BigInt holding the same unsigned value | not executed | ConvertProperties.Uint64AsWrittenIsNegative | ConvertProperties.RoundTrip |
| src/v8kit/core/Engine.cc:141-145 | the second pass runs `delete managed` without calling `managed->deleter` | any object made by script `new` and collected: its payload is never deleted and its class size stays on the counter | the second pass runs the deleter, then frees the record | not executed | Engine.Engine.GcSecondPassAsWritten | Engine.Engine.GcSecondPass |
| src/v8kit/binding/TypeConverter.h:152 | `payload->getHolder()->unwrap<T>()` | passing an object whose payload was `finalize()`d: `getHolder()` is null and is dereferenced | `payload->unwrap<T>()`, which is null-safe, so the conversion throws "Type mismatch or cast failed" | not executed | Binding.FinalizedInstanceAsWritten | Binding.GenericToCpp |
