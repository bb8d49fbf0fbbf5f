/**
 * Query helpers of the active effect manager
 * (active-effect-manager-lib/scripts/effects/foundry-helpers.js): which
 * actors an effect applies to, given the controlled and targeted tokens and
 * the user's character; how a UUID is resolved to an actor, a token or a
 * document, including the `Compendium.<scope>.<pack>.<id>` form.
 *
 * Foundry's own lookups (`fromUuidSync`, `fromUuid`, `game.actors.get`,
 * `game.packs.get`, `pack.getDocument`) are parameters.
 */
module FoundryHelpers {
  import opened Wrappers

  /** A placeable token: its id, its UUID and the UUID of its actor, if it has one. */
  datatype Token = Token(id: string, uuid: string, actorUuid: Option<string>)

  /** `tokens.map((token) => token.actor?.uuid)`. */
  function ActorUuidsOf(tokens: seq<Token>): (r: seq<Option<string>>)
    ensures |r| == |tokens|
    ensures forall i :: 0 <= i < |tokens| ==> r[i] == tokens[i].actorUuid
  {
    if tokens == [] then [] else [tokens[0].actorUuid] + ActorUuidsOf(tokens[1..])
  }

  /**
   * `getActorUuids`: with no controlled token, no target and no character,
   * nothing; else the targets' actors when targets are prioritised and
   * present; else the controlled tokens' actors; else the user's character.
   */
  function GetActorUuids(controlled: seq<Token>, targets: seq<Token>, character: Option<string>,
                         prioritizeTargets: bool): (r: seq<Option<string>>)
    ensures r == [] <==> controlled == [] && targets == [] && character.None?
    ensures prioritizeTargets && targets != [] ==> r == ActorUuidsOf(targets)
    ensures !(prioritizeTargets && targets != []) && controlled != [] ==> r == ActorUuidsOf(controlled)
    ensures controlled == [] && !(prioritizeTargets && targets != []) && r != [] ==> r == [character]
  {
    if |controlled| == 0 && |targets| == 0 && character.None? then []
    else if prioritizeTargets && |targets| != 0 then ActorUuidsOf(targets)
    else if |controlled| != 0 then ActorUuidsOf(controlled)
    else [character]
  }

  /** `getActorUuidsFromCanvas`: the early return for no selection and no target. */
  function GetActorUuidsFromCanvas(controlled: seq<Token>, targets: seq<Token>): (r: seq<Option<string>>)
    ensures |r| == |controlled|
  {
    if |controlled| == 0 && |targets| == 0 then [] else ActorUuidsOf(controlled)
  }

  /** The early return changes nothing: the result is always the controlled tokens' actors. */
  lemma FromCanvasIgnoresTargets(controlled: seq<Token>, targets: seq<Token>)
    ensures GetActorUuidsFromCanvas(controlled, targets) == ActorUuidsOf(controlled)
  {
  }

  /** A document found by UUID: a token carries the actor it represents. */
  datatype Document = Document(uuid: string, actor: Option<Document>)

  /**
   * `getActorByUuid`: the actor of the document the UUID names, else that
   * document itself, else the world actor whose id is the given string.
   */
  function GetActorByUuid(uuid: string, fromUuidSync: string -> Option<Document>,
                          actorsGet: string -> Option<Document>): (r: Option<Document>)
    ensures fromUuidSync(uuid).Some? && fromUuidSync(uuid).value.actor.Some? ==>
      r == fromUuidSync(uuid).value.actor
    ensures fromUuidSync(uuid).Some? && fromUuidSync(uuid).value.actor.None? ==> r == fromUuidSync(uuid)
    ensures fromUuidSync(uuid).None? ==> r == actorsGet(uuid)
  {
    var actorToken := fromUuidSync(uuid);
    var actor := if actorToken.Some? && actorToken.value.actor.Some? then actorToken.value.actor else actorToken;
    if actor.None? then actorsGet(uuid) else actor
  }

  // ---------------------------------------------------------------------------
  // UUID strings
  // ---------------------------------------------------------------------------

  const SEPARATOR: char := '.'

  /** `parts.join(sep)`. */
  function Join(parts: seq<string>, sep: char): string {
    if parts == [] then ""
    else if |parts| == 1 then parts[0]
    else parts[0] + [sep] + Join(parts[1..], sep)
  }

  /** `s.split(sep)`: the pieces between separators; joining them back gives `s`. */
  function Split(s: string, sep: char): (r: seq<string>)
    ensures |r| >= 1
    ensures forall i :: 0 <= i < |r| ==> sep !in r[i]
    ensures Join(r, sep) == s
    decreases |s|
  {
    if s == [] then [""]
    else if s[0] == sep then
      var rest := Split(s[1..], sep);
      assert s == [sep] + s[1..];
      [""] + rest
    else
      var rest := Split(s[1..], sep);
      var r := [[s[0]] + rest[0]] + rest[1..];
      assert r[1..] == rest[1..];
      assert s == [s[0]] + s[1..];
      r
  }

  lemma {:induction false} JoinCons(part: string, parts: seq<string>, sep: char)
    requires parts != []
    ensures Join([part] + parts, sep) == part + [sep] + Join(parts, sep)
  {
    assert ([part] + parts)[1..] == parts;
  }

  /** A leading separator closes an empty first piece. */
  lemma SplitAfterSeparator(t: string, sep: char)
    ensures Split([sep] + t, sep) == [""] + Split(t, sep)
  {
    assert ([sep] + t)[1..] == t;
  }

  /** Any other leading character opens the first piece. */
  lemma SplitAfterChar(c: char, t: string, sep: char)
    requires c != sep
    ensures Split([c] + t, sep) == [[c] + Split(t, sep)[0]] + Split(t, sep)[1..]
  {
    assert ([c] + t)[1..] == t;
  }

  /** Splitting a join of separator-free pieces gives the pieces back. */
  lemma {:induction false} SplitJoin(parts: seq<string>, sep: char)
    requires |parts| >= 1
    requires forall i :: 0 <= i < |parts| ==> sep !in parts[i]
    ensures Split(Join(parts, sep), sep) == parts
    decreases |parts|, if parts == [] then 0 else |parts[0]|
  {
    var rest := parts[1..];
    if |parts| == 1 {
      SplitFree(parts[0], sep);
    } else if parts[0] == [] {
      assert [parts[0]] + rest == parts;
      JoinCons(parts[0], rest, sep);
      assert Join(parts, sep) == [sep] + Join(rest, sep);
      SplitJoin(rest, sep);
      SplitAfterSeparator(Join(rest, sep), sep);
    } else {
      var head := parts[0];
      var shorter := [head[1..]] + rest;
      assert sep !in head[1..] by {
        assert forall c :: c in head[1..] ==> c in head;
      }
      assert forall i :: 1 <= i < |shorter| ==> shorter[i] == parts[i];
      SplitJoin(shorter, sep);
      assert [head] + rest == parts;
      JoinCons(head, rest, sep);
      JoinCons(head[1..], rest, sep);
      assert shorter[1..] == rest;
      assert Join(parts, sep) == [head[0]] + Join(shorter, sep) by {
        assert head == [head[0]] + head[1..];
      }
      SplitAfterChar(head[0], Join(shorter, sep), sep);
      assert [head[0]] + head[1..] == head;
    }
  }

  /** A string without separator splits into itself. */
  lemma {:induction false} SplitFree(s: string, sep: char)
    requires sep !in s
    ensures Split(s, sep) == [s]
    decreases |s|
  {
    if s != [] {
      assert sep !in s[1..] by {
        assert forall c :: c in s[1..] ==> c in s;
      }
      SplitFree(s[1..], sep);
      assert s == [s[0]] + s[1..];
    }
  }

  /** `parts[i]` as a string operand: out of range it is `undefined`, which `+` renders as "undefined". */
  function PartAsString(parts: seq<string>, i: nat): (r: string)
    ensures i < |parts| ==> r == parts[i]
    ensures i >= |parts| ==> r == "undefined"
  {
    if i < |parts| then parts[i] else "undefined"
  }

  /** `parts[i]` as an argument: out of range it is `undefined`. */
  function Part(parts: seq<string>, i: nat): (r: Option<string>)
    ensures r.Some? <==> i < |parts|
  {
    if i < |parts| then Some(parts[i]) else None
  }

  /** What a Foundry lookup resolves to: a document, `null`, or `undefined`. */
  datatype Lookup = Found(document: Document) | Null | Undefined

  /** The key `game.packs.get` is called with for a compendium UUID. */
  function PackKey(parts: seq<string>): (r: string)
    ensures |parts| >= 3 ==> r == parts[1] + "." + parts[2]
  {
    PartAsString(parts, 1) + "." + PartAsString(parts, 2)
  }

  /** Why `uuidToDocument` throws. */
  function NotFoundMessage(uuid: string): string {
    "Document not found by uuid : " + uuid
  }

  /**
   * `uuidToDocument`: a `Compendium.` UUID is looked up in its pack (no pack
   * leaves `null`), any other through `fromUuid`; a `null` result throws.
   */
  function UuidToDocument(uuid: string, packs: string -> bool, getDocument: (string, Option<string>) -> Lookup,
                          fromUuid: string -> Lookup): (r: Result<Lookup, string>)
    ensures r.Err? ==> r.error == NotFoundMessage(uuid)
    ensures r.Ok? ==> !r.value.Null?
    ensures Split(uuid, SEPARATOR)[0] != "Compendium" ==>
      r == if fromUuid(uuid).Null? then Err(NotFoundMessage(uuid)) else Ok(fromUuid(uuid))
  {
    var parts := Split(uuid, SEPARATOR);
    var result :=
      if parts[0] == "Compendium" then
        var key := PackKey(parts);
        if packs(key) then getDocument(key, Part(parts, 3)) else Null
      else fromUuid(uuid);
    if result.Null? then Err(NotFoundMessage(uuid)) else Ok(result)
  }

  /** A well-formed compendium UUID is looked up as document `id` of pack `scope.pack`. */
  lemma CompendiumUuid(scope: string, pack: string, id: string, packs: string -> bool,
                       getDocument: (string, Option<string>) -> Lookup, fromUuid: string -> Lookup)
    requires SEPARATOR !in scope && SEPARATOR !in pack && SEPARATOR !in id
    ensures var uuid := "Compendium." + scope + "." + pack + "." + id;
      var found := if packs(scope + "." + pack) then getDocument(scope + "." + pack, Some(id)) else Null;
      UuidToDocument(uuid, packs, getDocument, fromUuid)
        == if found.Null? then Err(NotFoundMessage(uuid)) else Ok(found)
  {
    var parts := ["Compendium", scope, pack, id];
    var uuid := "Compendium." + scope + "." + pack + "." + id;
    JoinCons(pack, [id], SEPARATOR);
    JoinCons(scope, [pack, id], SEPARATOR);
    JoinCons("Compendium", [scope, pack, id], SEPARATOR);
    assert [scope] + [pack, id] == [scope, pack, id];
    assert ["Compendium"] + [scope, pack, id] == parts;
    assert Join(parts, SEPARATOR) == uuid;
    SplitJoin(parts, SEPARATOR);
  }

  /** `getTokenByUuid`: the first placeable whose UUID or id is the given string. */
  function GetTokenByUuid(tokens: seq<Token>, uuid: string): (r: Option<Token>)
    ensures r.None? <==> forall i :: 0 <= i < |tokens| ==> tokens[i].uuid != uuid && tokens[i].id != uuid
    ensures r.Some? ==> (exists i :: 0 <= i < |tokens| && tokens[i] == r.value
                                && forall j :: 0 <= j < i ==> tokens[j].uuid != uuid && tokens[j].id != uuid)
    ensures r.Some? ==> r.value.uuid == uuid || r.value.id == uuid
  {
    if tokens == [] then None
    else if tokens[0].uuid == uuid || tokens[0].id == uuid then Some(tokens[0])
    else
      var r := GetTokenByUuid(tokens[1..], uuid);
      assert forall i :: 0 < i < |tokens| ==> tokens[i] == tokens[1..][i - 1];
      r
  }
}
