/** `QuakeEntity` of Unity/Assets/Scripts/QuakeEntity.cs: the game object of one
    entity, which changes only when what it is told differs from what it remembers.
    `SetModel` compares the model and frame, `SetFlags` the solidity bits, and a
    model with the rocket flag carries a dynamic light.

    The Unity side is reduced to the fields the script touches: whether the object is
    active, its layer, its collider's three switches, the mesh and materials
    `LoadEntity` put on it, and its dynamic light. The constants of `SnapEntry` are not
    in the sources modelled here; the two solidity flags are taken to be the distinct
    bits 1 and 2, and `EF_ROCKET` is Quake's model flag 1. */
module Entities {
  import opened Results
  import opened Client

  const LayerDefault := 0
  const LayerNoBlock := 8

  /** `SnapEntry.SOLID_NOT`. */
  const SolidNot: bv32 := 1
  /** `SnapEntry.SOLID_TRIGGER`. */
  const SolidTrigger: bv32 := 2
  /** `QModel.EF_ROCKET`. */
  const EfRocket: bv32 := 1

  /** The level of the light of a rocket. */
  const RocketLight := 200.0
  /** The range factor the entity passes to `AddLight`. */
  const LightRange := 1.5

  /** The switches of the object's `MeshCollider`. */
  datatype Collider = Collider(enabled: bool, convex: bool, isTrigger: bool)

  /** A light made by `AddLight` for an entity: its level and range factor. */
  datatype DynamicLight = DynamicLight(level: real, range: real)

  /** The solidity state of the object: the remembered masked flags, the layer and
      the collider. */
  datatype Solidity = Solidity(flags: bv32, layer: int, collider: Collider)

  /** The solidity bits of an entity's flags. */
  function Masked(flags: bv32): (m: bv32)
    ensures m == 0 || m == SolidNot || m == SolidTrigger || m == SolidNot | SolidTrigger
  {
    flags & (SolidNot | SolidTrigger)
  }

  /** `SetFlags(m_flags)` on the solidity state. */
  function FlagsApplied(s: Solidity, flags: bv32): (r: Solidity)
  {
    var solid := Masked(flags);
    if solid == s.flags then s
    else if solid == SolidNot then
      Solidity(solid, LayerNoBlock, s.collider.(enabled := false))
    else if solid == SolidTrigger then
      Solidity(solid, LayerNoBlock, s.collider.(convex := true, isTrigger := true))
    else
      Solidity(solid, LayerDefault, s.collider.(isTrigger := false, convex := false))
  }

  /** Setting the same flags twice is setting them once. */
  lemma FlagsIdempotent(s: Solidity, flags: bv32)
    ensures FlagsApplied(FlagsApplied(s, flags), flags) == FlagsApplied(s, flags)
  {
  }

  /** The flags that reach the object: exactly `SOLID_NOT` puts it on the no-block
      layer with its collider off; exactly `SOLID_TRIGGER` on the no-block layer with a
      convex trigger; anything else, both bits included, on the default layer with a
      solid, concave collider. Only the solidity bits matter. */
  lemma FlagsMapping(s: Solidity, flags: bv32)
    requires Masked(flags) != s.flags
    ensures var t := FlagsApplied(s, flags);
            t.flags == Masked(flags) &&
            (t.layer == LayerNoBlock <==> Masked(flags) == SolidNot || Masked(flags) == SolidTrigger) &&
            (Masked(flags) == SolidNot ==> !t.collider.enabled &&
                                           t.collider.convex == s.collider.convex &&
                                           t.collider.isTrigger == s.collider.isTrigger) &&
            (Masked(flags) == SolidTrigger ==> t.collider.convex && t.collider.isTrigger &&
                                               t.collider.enabled == s.collider.enabled) &&
            (Masked(flags) != SolidNot && Masked(flags) != SolidTrigger ==>
               !t.collider.convex && !t.collider.isTrigger && t.collider.enabled == s.collider.enabled)
  {
  }

  /** No flags ever switch a collider back on: once `SOLID_NOT` has turned it off, it
      stays off whatever flags follow. */
  lemma {:induction false} DisabledStaysDisabled(s: Solidity, flags: seq<bv32>)
    requires !s.collider.enabled
    ensures !FlagsAppliedAll(s, flags).collider.enabled
    decreases |flags|
  {
    if flags != [] {
      DisabledStaysDisabled(s, flags[..|flags| - 1]);
    }
  }

  /** `SetFlags` called with each of `flags` in turn. */
  function FlagsAppliedAll(s: Solidity, flags: seq<bv32>): (r: Solidity)
    decreases |flags|
  {
    if flags == [] then s else FlagsApplied(FlagsAppliedAll(s, flags[..|flags| - 1]), flags[|flags| - 1])
  }

  /** As written, an entity made solid again after `SOLID_NOT` keeps its collider off:
      it is on the default layer with a solid collider that collides with nothing. */
  lemma SolidAgainStaysOff(c: Collider)
    ensures var s := FlagsApplied(Solidity(0, LayerDefault, c), SolidNot);
            var t := FlagsApplied(s, 0);
            t.flags == 0 && t.layer == LayerDefault && !t.collider.enabled
  {
  }

  /** The collider is on exactly when the remembered flags are not `SOLID_NOT`. */
  predicate CollidesUnlessNot(s: Solidity)
  {
    s.collider.enabled <==> s.flags != SolidNot
  }

  /** `SetFlags` as evidently intended: as written, except that flags other than
      `SOLID_NOT` switch the collider back on. */
  function FlagsAppliedIntended(s: Solidity, flags: bv32): (r: Solidity)
  {
    var t := FlagsApplied(s, flags);
    if Masked(flags) != s.flags && Masked(flags) != SolidNot then
      t.(collider := t.collider.(enabled := true))
    else t
  }

  /** `SetFlags` as intended, called with each of `flags` in turn. */
  function FlagsIntendedAll(s: Solidity, flags: seq<bv32>): (r: Solidity)
    decreases |flags|
  {
    if flags == [] then s else FlagsAppliedIntended(FlagsIntendedAll(s, flags[..|flags| - 1]), flags[|flags| - 1])
  }

  /** The intended `SetFlags` differs from the written one only in the collider's
      switch, and keeps the collider on exactly while the flags are not `SOLID_NOT`. */
  lemma IntendedStep(s: Solidity, flags: bv32)
    requires CollidesUnlessNot(s)
    ensures var t, u := FlagsApplied(s, flags), FlagsAppliedIntended(s, flags);
            u.flags == t.flags && u.layer == t.layer &&
            u.collider.convex == t.collider.convex && u.collider.isTrigger == t.collider.isTrigger
    ensures CollidesUnlessNot(FlagsAppliedIntended(s, flags))
  {
  }

  /** Whatever flags follow, an entity whose collider starts on exactly when it is not
      `SOLID_NOT` keeps it so: after any flags other than `SOLID_NOT` it collides. */
  lemma {:induction false} IntendedCollides(s: Solidity, flags: seq<bv32>)
    requires CollidesUnlessNot(s)
    ensures CollidesUnlessNot(FlagsIntendedAll(s, flags))
    ensures FlagsIntendedAll(s, flags).flags == FlagsAppliedAll(s, flags).flags
    decreases |flags|
  {
    if flags != [] {
      var init := flags[..|flags| - 1];
      IntendedCollides(s, init);
      IntendedStep(FlagsIntendedAll(s, init), flags[|flags| - 1]);
    }
  }

  /** The light level `SetModel` asks for: 200 for a model with the rocket flag, 0
      otherwise. */
  function LightLevel(modelFlags: bv32): (r: real)
  {
    if modelFlags & EfRocket != 0 then RocketLight else 0.0
  }

  /** The light `SetDynamicLight(level)` leaves: none for level 0. */
  function LightFor(level: real): (r: Option<DynamicLight>)
  {
    if level != 0.0 then Some(DynamicLight(level, LightRange)) else None
  }

  /** A model carries a light, of level 200, exactly when it has the rocket flag. */
  lemma RocketCarriesLight(modelFlags: bv32)
    ensures LightFor(LightLevel(modelFlags)).Some? <==> modelFlags & EfRocket != 0
    ensures LightFor(LightLevel(modelFlags)).Some? ==>
              LightFor(LightLevel(modelFlags)).value == DynamicLight(200.0, 1.5)
  {
  }

  function OptionSeq<T>(o: Option<T>): (r: seq<T>)
  {
    if o.Some? then [o.value] else []
  }

  class QuakeEntity {
    var qmodel: QModel?
    var qframeindex: int
    var qsolidflags: bv32
    var qmanager: NetworkImporter?
    var dynamicLight: Option<DynamicLight>
    /** The game object's state. */
    var active: bool
    var layer: int
    var collider: Collider
    var shown: Option<Shown>
    /** Every light made for this entity, and those destroyed, in order. */
    ghost var created: seq<DynamicLight>
    ghost var destroyed: seq<DynamicLight>

    /** No light is leaked: every light made is destroyed, except the current one. */
    ghost predicate Valid()
      reads this
    {
      created == destroyed + OptionSeq(dynamicLight)
    }

    function SolidityOf(): (r: Solidity)
      reads this
    {
      Solidity(qsolidflags, layer, collider)
    }

    /** A new entity, from a prefab object in the given state: no model, frame -1 and
        no solidity flags remembered. */
    constructor (active: bool, layer: int, collider: Collider)
      ensures Valid()
      ensures qmodel == null && qframeindex == -1 && qsolidflags == 0 && qmanager == null
      ensures dynamicLight == None && shown == None
      ensures this.active == active && this.layer == layer && this.collider == collider
    {
      qmodel := null;
      qframeindex := -1;
      qsolidflags := 0;
      qmanager := null;
      dynamicLight := None;
      this.active := active;
      this.layer := layer;
      this.collider := collider;
      shown := None;
      created := [];
      destroyed := [];
    }

    /** `Setup(manager)`: the entity remembers its importer and is hidden. */
    method Setup(manager: NetworkImporter)
      modifies this`qmanager, this`active
      ensures qmanager == manager && !active
    {
      qmanager := manager;
      active := false;
    }

    /** `SetDynamicLight(lightlevel)`: the previous light is destroyed, and a new one
        made only for a nonzero level. */
    method SetDynamicLight(level: real)
      requires Valid() && qmanager != null
      modifies this`dynamicLight, this`created, this`destroyed
      ensures Valid()
      ensures destroyed == old(destroyed) + OptionSeq(old(dynamicLight))
      ensures dynamicLight == LightFor(level)
    {
      if dynamicLight.Some? {
        destroyed := destroyed + [dynamicLight.value];
      }
      dynamicLight := None;
      if level != 0.0 {
        dynamicLight := Some(DynamicLight(level, LightRange));
        created := created + [dynamicLight.value];
      }
    }

    /** `SetModel(model, frameindex)`: nothing happens when both equal the remembered
        ones. Otherwise they are remembered, the object is active exactly when there is
        a model, and a model is loaded onto the object and given the light its flags
        call for. Loading a frame the model lacks, or loading before `Setup`, fails
        after the model has been remembered. */
    method SetModel(model: QModel?, frameindex: int) returns (r: Result<()>)
      requires Valid()
      modifies this`qmodel, this`qframeindex, this`active, this`shown, this`dynamicLight,
               this`created, this`destroyed
      ensures Valid()
      ensures model == old(qmodel) && frameindex == old(qframeindex) ==>
                r.Ok? && unchanged(this)
      ensures !(model == old(qmodel) && frameindex == old(qframeindex)) ==>
                qmodel == model && qframeindex == frameindex && active == (model != null)
      ensures !(model == old(qmodel) && frameindex == old(qframeindex)) && model == null ==>
                r.Ok? && shown == old(shown) && dynamicLight == old(dynamicLight)
      ensures !(model == old(qmodel) && frameindex == old(qframeindex)) && model != null ==>
                if qmanager == null then
                  r == Err(NullReference) && shown == old(shown) && dynamicLight == old(dynamicLight)
                else
                  match LoadEntity(model, frameindex)
                  case Err(e) => r == Err(e) && shown == old(shown) && dynamicLight == old(dynamicLight)
                  case Ok(s) => r.Ok? && shown == Some(s) &&
                                dynamicLight == LightFor(LightLevel(model.flags)) &&
                                destroyed == old(destroyed) + OptionSeq(old(dynamicLight))
    {
      if model != qmodel || frameindex != qframeindex {
        qmodel := model;
        qframeindex := frameindex;
        active := model != null;
        if model != null {
          if qmanager == null {
            return Err(NullReference);
          }
          var s := LoadEntity(model, frameindex);
          if s.Err? {
            return Err(s.error);
          }
          shown := Some(s.value);
          if model.flags & EfRocket != 0 {
            SetDynamicLight(RocketLight);
          } else {
            SetDynamicLight(0.0);
          }
        }
      }
      r := Ok(());
    }

    /** `SetFlags(m_flags)`. */
    method SetFlags(flags: bv32)
      modifies this`qsolidflags, this`layer, this`collider
      ensures SolidityOf() == FlagsApplied(old(SolidityOf()), flags)
    {
      var solidflags := flags & (SolidNot | SolidTrigger);
      if solidflags != qsolidflags {
        qsolidflags := solidflags;
        if solidflags == SolidNot {
          layer := LayerNoBlock;
          collider := collider.(enabled := false);
        } else if solidflags == SolidTrigger {
          layer := LayerNoBlock;
          collider := collider.(convex := true, isTrigger := true);
        } else {
          layer := LayerDefault;
          collider := collider.(isTrigger := false, convex := false);
        }
      }
    }
  }
}
