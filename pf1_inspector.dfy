/**
 * The Pathfinder 1e hooks of the data inspector
 * (data-inspector/systems/pf1.mjs): a filter that hides the secret fields
 * of unidentified physical items from players, and the copy of an item's
 * subtype fields into the temporary document the inspector builds for it.
 */
module Pf1Inspector {
  import opened Wrappers

  /** The document class a hook receives. */
  datatype DocumentClass = ActorClass | ItemClass | OtherClass

  /** A value stored in a document's `system` data. */
  datatype Value = Bool(b: bool) | Str(s: string)

  /** A document: its class, its `type`, and its `system` data (an absent key reads as `undefined`). */
  datatype Doc = Doc(cls: DocumentClass, docType: string, system: map<string, Value>)

  /** `system.identified === true`. */
  predicate IsIdentified(doc: Doc) {
    "identified" in doc.system && doc.system["identified"] == Bool(true)
  }

  /** The item types whose identification hides data. */
  const SECRET_TYPES: set<string> := {"weapon", "equipment", "consumable", "loot", "container"}

  /** The data paths that may give away an unidentified item. */
  const SECRET_PATHS: seq<string> := [
    "system.identified",
    "system.identifiedName",
    "system.unidentifiedName",
    "system.description.unidentified",
    "system.description.value",
    "system.unidentified.name",
    "system.unidentified.price"
  ]

  /** The hook's verdict: `undefined` leaves the path shown, `false` hides it. */
  datatype Verdict = Show | Hide

  /** `filterData`. */
  function FilterData(doc: Doc, path: string, mode: string, isGM: bool): (r: Verdict)
    ensures r == Hide <==>
      !isGM && mode != "rolldata" && doc.cls == ItemClass && !IsIdentified(doc)
      && doc.docType in SECRET_TYPES && path in SECRET_PATHS
  {
    if isGM then Show
    else if mode == "rolldata" then Show
    else if doc.cls == ItemClass then
      var isIdentified := IsIdentified(doc);
      match doc.docType
      case "weapon" | "equipment" | "consumable" | "loot" | "container" =>
        if !isIdentified && path in SECRET_PATHS then Hide else Show
      case _ => Show
    else Show
  }

  /** The `system` key an item's type copies into its temporary data, besides `subType`. */
  function TypeSubtypeKey(docType: string): (r: Option<string>)
    ensures r.Some? <==> docType in {"weapon", "spell", "equipment"}
  {
    match docType
    case "weapon" => Some("weaponSubtype")
    case "spell" => Some("spellbook")
    case "equipment" => Some("equipmentSubtype")
    case _ => None
  }

  /** `docData[key]`: `undefined` when the key is absent. */
  function Read(system: map<string, Value>, key: string): Option<Value> {
    if key in system then Some(system[key]) else None
  }

  /** The temporary document's `system` after `supplementTemporaryData`. */
  function Supplemented(doc: Doc, system: map<string, Option<Value>>): (r: map<string, Option<Value>>)
    ensures doc.cls != ItemClass ==> r == system
    ensures doc.cls == ItemClass ==> "subType" in r && r["subType"] == Read(doc.system, "subType")
    ensures doc.cls == ItemClass && TypeSubtypeKey(doc.docType).Some? ==>
      var k := TypeSubtypeKey(doc.docType).value; k in r && r[k] == Read(doc.system, k)
    ensures forall k :: k in system && k != "subType" && Some(k) != TypeSubtypeKey(doc.docType) ==>
      k in r && r[k] == system[k]
    ensures forall k :: k in r ==> k in system || k == "subType" || Some(k) == TypeSubtypeKey(doc.docType)
  {
    if doc.cls != ItemClass then system
    else
      var withSubType := system["subType" := Read(doc.system, "subType")];
      match TypeSubtypeKey(doc.docType)
      case Some(k) => withSubType[k := Read(doc.system, k)]
      case None => withSubType
  }

  /** Supplementing a second time changes nothing. */
  lemma SupplementedIdempotent(doc: Doc, system: map<string, Option<Value>>)
    ensures Supplemented(doc, Supplemented(doc, system)) == Supplemented(doc, system)
  {
  }

  /** The temporary document the inspector builds, whose `system` the hook writes. */
  class TemporaryData {
    var system: map<string, Option<Value>>

    constructor (system: map<string, Option<Value>>)
      ensures this.system == system
    {
      this.system := system;
    }
  }

  /** `supplementTemporaryData`: actors are left as they are; items get their subtype fields. */
  method SupplementTemporaryData(doc: Doc, data: TemporaryData)
    modifies data
    ensures data.system == Supplemented(doc, old(data.system))
  {
    var docData := doc.system;
    if doc.cls == ActorClass {
      // the character and npc cases add nothing
    } else if doc.cls == ItemClass {
      data.system := data.system["subType" := Read(docData, "subType")];
      match doc.docType {
        case "weapon" =>
          data.system := data.system["weaponSubtype" := Read(docData, "weaponSubtype")];
        case "spell" =>
          data.system := data.system["spellbook" := Read(docData, "spellbook")];
        case "equipment" =>
          data.system := data.system["equipmentSubtype" := Read(docData, "equipmentSubtype")];
        case _ =>
      }
    }
  }
}
