/**
 * Active effects owned by an item embedded in an actor
 * (active-effect-manager-lib/scripts/effects/effect-owned-item.js): deleting
 * or updating such an effect rewrites the parent item's array of effects,
 * and a new effect's default duration is derived from the item's dnd5e
 * duration record.
 */
module OwnedItemEffects {
  import opened Wrappers

  /** An effect's source data: its `_id` and the rest of its fields. */
  datatype EffectData = EffectData(id: string, fields: map<string, string>)

  /** What kind of document an effect's parent, or that parent's parent, is. */
  datatype DocumentKind = ItemDocument | ActorDocument | OtherDocument

  /** `foundry.utils.mergeObject(target, changes)`, left abstract. */
  type Merge = (EffectData, map<string, string>) -> EffectData

  // ---------------------------------------------------------------------------
  // Default durations
  // ---------------------------------------------------------------------------

  /** The dnd5e `system.duration` record of an item: `value` is absent when the item has none. */
  datatype ItemDuration = ItemDuration(value: Option<real>, units: string)

  /** An active effect duration; the unset fields are absent. */
  datatype Duration = Duration(seconds: Option<real>, turns: Option<real>, rounds: Option<real>)

  const SECONDS_PER_MINUTE: real := 60.0
  const SECONDS_PER_HOUR: real := 3600.0
  const SECONDS_PER_DAY: real := 86400.0
  const SECONDS_PER_MONTH: real := 2419200.0
  const SECONDS_PER_YEAR: real := 31536000.0

  /** The calendar units the conversion turns into seconds, with their length in seconds. */
  function SecondsPerUnit(units: string): (r: Option<real>)
    ensures units == "month" ==> r == Some(28.0 * SECONDS_PER_DAY)
    ensures units == "year" ==> r == Some(365.0 * SECONDS_PER_DAY)
  {
    match units
    case "minute" => Some(SECONDS_PER_MINUTE)
    case "hour" => Some(SECONDS_PER_HOUR)
    case "day" => Some(SECONDS_PER_DAY)
    case "month" => Some(SECONDS_PER_MONTH)
    case "year" => Some(SECONDS_PER_YEAR)
    case _ => None
  }

  /** JavaScript truthiness of `item?.system?.duration?.value`: present and non-zero. */
  predicate HasDurationValue(duration: Option<ItemDuration>) {
    duration.Some? && duration.value.value.Some? && duration.value.value.value != 0.0
  }

  predicate ExactlyOneField(d: Duration) {
    (if d.seconds.Some? then 1 else 0) + (if d.turns.Some? then 1 else 0) + (if d.rounds.Some? then 1 else 0) == 1
  }

  const ONE_ROUND: Duration := Duration(None, None, Some(1.0))

  /** `getDurationFromItem`: `None` is JavaScript's `undefined`. */
  function GetDurationFromItem(duration: Option<ItemDuration>, passive: bool): (r: Option<Duration>)
    ensures passive <==> r.None?
    ensures r.Some? ==> ExactlyOneField(r.value)
    ensures !passive && !HasDurationValue(duration) ==> r == Some(ONE_ROUND)
    ensures !passive && HasDurationValue(duration) ==>
      var d := duration.value;
      var v := d.value.value;
      match SecondsPerUnit(d.units)
      case Some(factor) => r == Some(Duration(Some(v * factor), None, None))
      case None =>
        if d.units == "turn" then r == Some(Duration(None, Some(v), None))
        else if d.units == "round" then r == Some(Duration(None, None, Some(v)))
        else r == Some(ONE_ROUND)
  {
    if passive then None
    else if HasDurationValue(duration) then
      var value := duration.value.value.value;
      match duration.value.units
      case "hour" => Some(Duration(Some(value * 60.0 * 60.0), None, None))
      case "minute" => Some(Duration(Some(value * 60.0), None, None))
      case "day" => Some(Duration(Some(value * 60.0 * 60.0 * 24.0), None, None))
      case "month" => Some(Duration(Some(value * 60.0 * 60.0 * 24.0 * 28.0), None, None))
      case "year" => Some(Duration(Some(value * 60.0 * 60.0 * 24.0 * 365.0), None, None))
      case "turn" => Some(Duration(None, Some(value), None))
      case "round" => Some(Duration(None, None, Some(value)))
      case _ => Some(ONE_ROUND)
    else Some(ONE_ROUND)
  }

  // ---------------------------------------------------------------------------
  // Deleting and updating an effect on its parent item
  // ---------------------------------------------------------------------------

  /** The parent document of an owned-item effect, holding the effects array. */
  class EffectParent {
    var kind: DocumentKind
    var parentKind: Option<DocumentKind>
    var effects: seq<EffectData>

    constructor (kind: DocumentKind, parentKind: Option<DocumentKind>, effects: seq<EffectData>)
      ensures this.kind == kind && this.parentKind == parentKind && this.effects == effects
    {
      this.kind := kind;
      this.parentKind := parentKind;
      this.effects := effects;
    }
  }

  /** The parent's effects with every effect carrying `id` filtered out, in order. */
  function WithoutEffect(effects: seq<EffectData>, id: string): (r: seq<EffectData>)
    ensures |r| <= |effects|
    ensures forall i :: 0 <= i < |r| ==> r[i].id != id && r[i] in effects
  {
    if effects == [] then []
    else
      var init := WithoutEffect(effects[..|effects| - 1], id);
      var last := effects[|effects| - 1];
      assert forall e :: e in effects[..|effects| - 1] ==> e in effects;
      if last.id != id then init + [last] else init
  }

  /** The filter works entry by entry, so it distributes over concatenation: order is kept. */
  lemma {:induction false} WithoutEffectConcat(a: seq<EffectData>, b: seq<EffectData>, id: string)
    ensures WithoutEffect(a + b, id) == WithoutEffect(a, id) + WithoutEffect(b, id)
    decreases |b|
  {
    if b != [] {
      var n := |b| - 1;
      assert (a + b)[..|a + b| - 1] == a + b[..n];
      assert (a + b)[|a + b| - 1] == b[n];
      WithoutEffectConcat(a, b[..n], id);
      var wa, wb := WithoutEffect(a, id), WithoutEffect(b[..n], id);
      assert a + b != [];
      assert WithoutEffect(a + b, id) == if b[n].id != id then WithoutEffect(a + b[..n], id) + [b[n]] else WithoutEffect(a + b[..n], id);
      assert WithoutEffect(b, id) == if b[n].id != id then wb + [b[n]] else wb;
      assert wa + wb + [b[n]] == wa + (wb + [b[n]]);
    } else {
      assert a + b == a;
    }
  }

  /** A single effect is kept exactly when its id differs. */
  lemma WithoutEffectSingle(e: EffectData, id: string)
    ensures WithoutEffect([e], id) == if e.id != id then [e] else []
  {
    assert [e][..0] == [];
  }

  /** Every effect whose id differs is kept. */
  lemma {:induction false} WithoutEffectKeepsOthers(effects: seq<EffectData>, id: string, e: EffectData)
    requires e in effects && e.id != id
    ensures e in WithoutEffect(effects, id)
    decreases |effects|
  {
    var n := |effects| - 1;
    if effects[n] != e {
      assert effects == effects[..n] + [effects[n]];
      WithoutEffectKeepsOthers(effects[..n], id, e);
    }
  }

  /** `delete`: the parent's effects are replaced by the filtered copy, built in a loop. */
  method DeleteEffect(parent: EffectParent, effectIdToDelete: string)
    modifies parent
    ensures parent.effects == WithoutEffect(old(parent.effects), effectIdToDelete)
    ensures parent.kind == old(parent.kind) && parent.parentKind == old(parent.parentKind)
  {
    var effects := parent.effects;
    var newParentEffectsData: seq<EffectData> := [];
    for i := 0 to |effects|
      invariant newParentEffectsData == WithoutEffect(effects[..i], effectIdToDelete)
    {
      assert effects[..i + 1][..i] == effects[..i];
      if effects[i].id != effectIdToDelete {
        newParentEffectsData := newParentEffectsData + [effects[i]];
      }
    }
    assert effects[..|effects|] == effects;
    parent.effects := newParentEffectsData;
  }

  /** `Array#findIndex` on `_id`: the first position with that id, or -1. */
  function FindEffectIndex(effects: seq<EffectData>, id: string): (r: int)
    ensures -1 <= r < |effects|
    ensures r == -1 <==> forall i :: 0 <= i < |effects| ==> effects[i].id != id
    ensures r >= 0 ==> effects[r].id == id && forall i :: 0 <= i < r ==> effects[i].id != id
  {
    if effects == [] then -1
    else if effects[0].id == id then 0
    else
      var r := FindEffectIndex(effects[1..], id);
      assert forall i :: 0 < i < |effects| ==> effects[i] == effects[1..][i - 1];
      if r < 0 then -1 else r + 1
  }

  /** The guard of `update` as written: it returns early only for a non-item parent owned by an actor. */
  predicate SkipsUpdateAsWritten(kind: DocumentKind, parentKind: Option<DocumentKind>)
    ensures kind == ItemDocument ==> !SkipsUpdateAsWritten(kind, parentKind)
    ensures parentKind != Some(ActorDocument) ==> !SkipsUpdateAsWritten(kind, parentKind)
  {
    kind != ItemDocument && parentKind == Some(ActorDocument)
  }

  /** The guard its log message describes: return early unless the parent is an item owned by an actor. */
  predicate SkipsUpdate(kind: DocumentKind, parentKind: Option<DocumentKind>)
    ensures kind != ItemDocument ==> SkipsUpdate(kind, parentKind)
    ensures parentKind != Some(ActorDocument) ==> SkipsUpdate(kind, parentKind)
  {
    !(kind == ItemDocument && parentKind == Some(ActorDocument))
  }

  /** A world item, owned by no actor, passes the guard as written. */
  lemma UnownedItemPassesGuardAsWritten()
    ensures !SkipsUpdateAsWritten(ItemDocument, None) && SkipsUpdate(ItemDocument, None)
  {
  }

  /** The corrected guard lets through exactly the items owned by an actor; the
      two guards disagree exactly when the parent is not owned by an actor. */
  lemma SkipsUpdateIff(kind: DocumentKind, parentKind: Option<DocumentKind>)
    ensures !SkipsUpdate(kind, parentKind) <==> kind == ItemDocument && parentKind == Some(ActorDocument)
    ensures SkipsUpdateAsWritten(kind, parentKind) ==> SkipsUpdate(kind, parentKind)
    ensures SkipsUpdateAsWritten(kind, parentKind) != SkipsUpdate(kind, parentKind) <==>
      parentKind != Some(ActorDocument)
  {
  }

  /** The parent's effects after `update`, or the unchanged array when the update is skipped. */
  function UpdatedEffects(effects: seq<EffectData>, id: string, data: map<string, string>, merge: Merge)
    : (r: seq<EffectData>)
    ensures |r| == |effects|
    ensures FindEffectIndex(effects, id) < 0 ==> r == effects
    ensures forall i :: 0 <= i < |effects| && effects[i].id != id ==> r[i] == effects[i]
  {
    var idx := FindEffectIndex(effects, id);
    if idx < 0 then effects else effects[idx := merge(effects[idx], data)]
  }

  /** With distinct ids, exactly the effect with the updated id receives the merged value. */
  lemma UpdatedEffectsMergesTarget(effects: seq<EffectData>, id: string, data: map<string, string>,
                                   merge: Merge, i: nat)
    requires i < |effects| && effects[i].id == id
    requires forall j, k :: 0 <= j < k < |effects| ==> effects[j].id != effects[k].id
    ensures UpdatedEffects(effects, id, data, merge)[i] == merge(effects[i], data)
  {
  }

  /** How the promise returned by `update` settles: `undefined` after an early
      return, the effect itself, or a rejection by the `ReferenceError` that
      the undeclared `transfer` raises when the effect's own `transfer` is false. */
  datatype UpdateOutcome = ReturnedUndefined | ReturnedEffect | RejectedReferenceError

  /** `update`, with its guard as written: merge the data into the effect's
      entry of the parent's array and persist the array. `transfer` is the
      effect's own `transfer` flag. */
  method UpdateEffect(parent: EffectParent, effectId: string, data: map<string, string>, merge: Merge,
                      transfer: bool)
    returns (outcome: UpdateOutcome)
    modifies parent
    ensures SkipsUpdateAsWritten(old(parent.kind), old(parent.parentKind)) ==>
      parent.effects == old(parent.effects) && outcome == ReturnedUndefined
    ensures !SkipsUpdateAsWritten(old(parent.kind), old(parent.parentKind)) ==>
      parent.effects == UpdatedEffects(old(parent.effects), effectId, data, merge)
    ensures !SkipsUpdateAsWritten(old(parent.kind), old(parent.parentKind)) ==>
      outcome == if FindEffectIndex(old(parent.effects), effectId) < 0 then ReturnedUndefined
                 else if transfer then ReturnedEffect
                 else RejectedReferenceError
    ensures parent.kind == old(parent.kind) && parent.parentKind == old(parent.parentKind)
  {
    if SkipsUpdateAsWritten(parent.kind, parent.parentKind) {
      return ReturnedUndefined;
    }
    var newEffects := parent.effects;
    var originalEffectIndex := FindEffectIndex(newEffects, effectId);
    if originalEffectIndex < 0 {
      return ReturnedUndefined;
    }
    newEffects := newEffects[originalEffectIndex := merge(newEffects[originalEffectIndex], data)];
    parent.effects := newEffects;
    if !transfer {
      return RejectedReferenceError;
    }
    outcome := ReturnedEffect;
  }
}
