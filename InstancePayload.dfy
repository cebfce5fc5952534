/**
 * `InstancePayload`: what a script object created by a native class keeps
 * in its internal field. Its holder can be released early with
 * `finalize()`; the metadata, the engine and the construction origin are
 * fixed when it is made.
 */
module InstancePayload {
  import opened Common
  import opened MetaInfo
  import opened NativeInstanceImpl

  class InstancePayload {
    /** `holder_`: `None` once released. */
    var holder: Option<NativeInstance>
    /** `define_`: the class the object was constructed as. */
    const define: Option<ClassMeta>
    /** `engine_`: the identity of the owning engine. */
    const engine: Option<nat>
    /** `constructFromJs_`: whether a script `new` made it. */
    const constructFromJs: bool

    /** The one-argument constructor: no metadata, no engine, not from script. */
    constructor FromHolder(holder: Option<NativeInstance>)
      ensures this.holder == holder
      ensures define.None? && engine.None? && !constructFromJs
    {
      this.holder := holder;
      define := None;
      engine := None;
      constructFromJs := false;
    }

    /** The four-argument constructor used by the class constructor callback. */
    constructor (holder: Option<NativeInstance>, define: Option<ClassMeta>, engine: Option<nat>, constructFromJs: bool)
      ensures this.holder == holder
      ensures this.define == define && this.engine == engine && this.constructFromJs == constructFromJs
    {
      this.holder := holder;
      this.define := define;
      this.engine := engine;
      this.constructFromJs := constructFromJs;
    }

    /** `getHolder()`. */
    function GetHolder(): Option<NativeInstance>
      reads this
    {
      holder
    }

    /**
     * `finalize()`: drops the holder, whether or not one is still there.
     * Calling it again changes nothing, and the fixed fields are untouched
     * (they are constants).
     */
    method Finalize()
      modifies this
      ensures GetHolder() == None
      ensures old(holder) == None ==> holder == old(holder)
      ensures forall t, castTo :: Unwrap(t, castTo) == None
    {
      if holder.Some? {
        holder := None;
      }
    }

    /**
     * `unwrap<T>()`: null when the holder is gone, otherwise the holder's
     * answer for `T`. `NativeInstance::unwrap<T>` is not part of this model;
     * it is taken to be `cast(typeid(T))`.
     */
    function Unwrap(target: TypeId, castTo: (ClassMeta, nat, TypeId) -> Option<nat>): (r: Option<nat>)
      reads this
      ensures holder.None? ==> r.None?
      ensures r.Some? ==> holder.Some? && holder.value.ptr.Some?
      ensures holder.Some? && TypeIdOf(holder.value) == target ==> r == holder.value.ptr
    {
      if holder.Some? then Cast(holder.value, target, castTo) else None
    }
  }
}
