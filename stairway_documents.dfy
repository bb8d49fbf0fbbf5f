/**
 * The stairway document store: stairways live in a scene flag as a list of
 * records keyed by `_id`, and the socket dispatch for `modifyDocument`
 * requests of type `Stairway` is answered locally by creating, updating or
 * deleting entries of that list.
 *
 * `randomID` and `mergeObject` are parameters: `randomId(i)` is the id drawn
 * for the i-th created entry and `merge(old, update)` is the merged record.
 */
module StairwayDocuments {
  import opened Wrappers

  /** A stairway record: its `_id` and its other fields. */
  datatype Stairway = Stairway(id: string, fields: map<string, string>)

  datatype Action = Create | Update | Delete | UnknownAction(name: string)

  /** A `modifyDocument` request: `data` for create, `updates` (partial
      records carrying the target `_id`) for update, `ids` for delete. */
  datatype Request = Request(
    docType: string,
    parentId: string,
    action: Action,
    data: seq<Stairway>,
    updates: seq<Stairway>,
    ids: seq<string>)

  /** Create and update report records, delete reports the removed ids. */
  datatype ResultEntry = Record(stairway: Stairway) | DeletedId(id: string)

  datatype Response = Response(request: Request, result: seq<ResultEntry>, userId: string)

  /** What the hooked dispatch does with an event: hand it to the original
      dispatch, reject (the promise executor throws), report an error (the
      promise never settles) or resolve with a response. */
  datatype Outcome = Delegated | Rejected | Reported(message: string) | Resolved(response: Response)

  const MODIFY_DOCUMENT: string := "modifyDocument"
  const STAIRWAY_TYPE: string := "Stairway"
  const MISSING_UPDATE: string := "missing stairway to update"
  const MISSING_DELETE: string := "missing stairway to delete"
  const UNKNOWN_ACTION: string := "unknown request action"

  predicate IsStairwayEvent(eventName: string, request: Request) {
    eventName == MODIFY_DOCUMENT && request.docType == STAIRWAY_TYPE
  }

  predicate UniqueIds(list: seq<Stairway>) {
    forall i, j :: 0 <= i < j < |list| ==> list[i].id != list[j].id
  }

  predicate HasId(list: seq<Stairway>, id: string) {
    exists j :: 0 <= j < |list| && list[j].id == id
  }

  /** `Array.prototype.findIndex` on `_id`: the first matching index, or -1. */
  function FindIndex(list: seq<Stairway>, id: string): (r: int)
    ensures -1 <= r < |list|
    ensures r == -1 <==> !HasId(list, id)
    ensures r >= 0 ==> list[r].id == id && forall j :: 0 <= j < r ==> list[j].id != id
  {
    if |list| == 0 then -1
    else if list[0].id == id then 0
    else
      var k := FindIndex(list[1..], id);
      assert forall j :: 1 <= j < |list| ==> list[1..][j - 1] == list[j];
      if k < 0 then -1 else k + 1
  }

  /** The entries of a create request: copies of the given entries, each with the id drawn for it. */
  function Created(data: seq<Stairway>, randomId: nat -> string): (r: seq<Stairway>)
    ensures |r| == |data|
    ensures forall i :: 0 <= i < |data| ==> r[i].id == randomId(i) && r[i].fields == data[i].fields
  {
    seq(|data|, i requires 0 <= i < |data| => data[i].(id := randomId(i)))
  }

  function Records(list: seq<Stairway>): seq<ResultEntry> {
    seq(|list|, i requires 0 <= i < |list| => Record(list[i]))
  }

  /** Positions that all lie inside a list of length `n`. */
  predicate PositionsBelow(positions: seq<nat>, n: nat) {
    forall k :: 0 <= k < |positions| ==> positions[k] < n
  }

  /** The updates applied in order: the new list and, for each update, the
      position of the entry it was merged into. The first update whose id is
      missing aborts. An update batch never moves an entry, so a position
      identifies the same object from start to end. */
  function ApplyUpdates(list: seq<Stairway>, updates: seq<Stairway>, merge: (Stairway, Stairway) -> Stairway)
    : (r: Result<(seq<Stairway>, seq<nat>), string>)
    ensures r.Err? ==> r.error == MISSING_UPDATE
    ensures r.Ok? ==> |r.value.0| == |list| && |r.value.1| == |updates| && PositionsBelow(r.value.1, |list|)
  {
    if updates == [] then Ok((list, []))
    else
      match ApplyUpdates(list, updates[..|updates| - 1], merge)
      case Err(msg) => Err(msg)
      case Ok(prev) =>
        var update := updates[|updates| - 1];
        var idx := FindIndex(prev.0, update.id);
        if idx < 0 then Err(MISSING_UPDATE)
        else Ok((prev.0[idx := merge(prev.0[idx], update)], prev.1 + [idx]))
  }

  /** The records an update reports. `mergeObject` changes the found entry in
      place and the result holds that same object, so each reported record is
      the entry as it stands once the whole batch is applied. */
  function UpdateRecords(final: seq<Stairway>, positions: seq<nat>): seq<ResultEntry>
    requires PositionsBelow(positions, |final|)
  {
    seq(|positions|, k requires 0 <= k < |positions| => Record(final[positions[k]]))
  }

  /** The new list and the result of an update request, or its error. */
  function UpdateOutcome(list: seq<Stairway>, updates: seq<Stairway>, merge: (Stairway, Stairway) -> Stairway)
    : (r: Result<(seq<Stairway>, seq<ResultEntry>), string>)
    ensures r.Err? <==> ApplyUpdates(list, updates, merge).Err?
    ensures r.Ok? ==> r.value.0 == ApplyUpdates(list, updates, merge).value.0 && |r.value.1| == |updates|
  {
    match ApplyUpdates(list, updates, merge)
    case Err(msg) => Err(msg)
    case Ok(res) => Ok((res.0, UpdateRecords(res.0, res.1)))
  }

  /** The deletions applied in order; the first id that is missing aborts. */
  function ApplyDeletes(list: seq<Stairway>, ids: seq<string>): (r: Result<(seq<Stairway>, seq<ResultEntry>), string>)
    ensures r.Err? ==> r.error == MISSING_DELETE
    ensures r.Ok? ==> |r.value.1| == |ids|
  {
    if ids == [] then Ok((list, []))
    else
      match ApplyDeletes(list, ids[..|ids| - 1])
      case Err(msg) => Err(msg)
      case Ok(prev) =>
        var id := ids[|ids| - 1];
        var idx := FindIndex(prev.0, id);
        if idx < 0 then Err(MISSING_DELETE)
        else Ok((prev.0[..idx] + prev.0[idx + 1..], prev.1 + [DeletedId(id)]))
  }

  /** The new list and the result of a request, or the error it reports. */
  function Process(current: seq<Stairway>, request: Request, randomId: nat -> string,
                   merge: (Stairway, Stairway) -> Stairway): (r: Result<(seq<Stairway>, seq<ResultEntry>), string>)
    ensures request.action == Create ==> r.Ok?
    ensures r == Err(UNKNOWN_ACTION) <==> request.action.UnknownAction?
    ensures r.Err? ==> r.error == MISSING_UPDATE || r.error == MISSING_DELETE || r.error == UNKNOWN_ACTION
  {
    match request.action
    case Create =>
      var created := Created(request.data, randomId);
      Ok((current + created, Records(created)))
    case Update => UpdateOutcome(current, request.updates, merge)
    case Delete => ApplyDeletes(current, request.ids)
    case UnknownAction(_) => Err(UNKNOWN_ACTION)
  }

  /** A scene: `stairways` is the embedded collection read by the dispatch,
      `flagStairways` the `flags.stairways` value it persists. */
  class Scene {
    var stairways: Option<seq<Stairway>>
    var flagStairways: Option<seq<Stairway>>

    constructor (stairways: Option<seq<Stairway>>, flagStairways: Option<seq<Stairway>>)
      ensures this.stairways == stairways && this.flagStairways == flagStairways
    {
      this.stairways := stairways;
      this.flagStairways := flagStairways;
    }
  }

  lemma {:induction false} UpdatesErrPersists(list: seq<Stairway>, updates: seq<Stairway>, k: nat,
                                              merge: (Stairway, Stairway) -> Stairway)
    requires k <= |updates|
    requires ApplyUpdates(list, updates[..k], merge).Err?
    ensures ApplyUpdates(list, updates, merge) == ApplyUpdates(list, updates[..k], merge)
    decreases |updates| - k
  {
    if k == |updates| {
      assert updates[..k] == updates;
    } else {
      assert updates[..k + 1][..k] == updates[..k];
      UpdatesErrPersists(list, updates, k + 1, merge);
    }
  }

  lemma {:induction false} DeletesErrPersists(list: seq<Stairway>, ids: seq<string>, k: nat)
    requires k <= |ids|
    requires ApplyDeletes(list, ids[..k]).Err?
    ensures ApplyDeletes(list, ids) == ApplyDeletes(list, ids[..k])
    decreases |ids| - k
  {
    if k == |ids| {
      assert ids[..k] == ids;
    } else {
      assert ids[..k + 1][..k] == ids[..k];
      DeletesErrPersists(list, ids, k + 1);
    }
  }

  /** The create branch: each entry is copied, given the id drawn for it and pushed. */
  method CreateEntries(current: seq<Stairway>, data: seq<Stairway>, randomId: nat -> string)
    returns (stairways: seq<Stairway>, result: seq<ResultEntry>)
    ensures stairways == current + Created(data, randomId)
    ensures result == Records(Created(data, randomId))
  {
    ghost var created := Created(data, randomId);
    stairways, result := current, [];
    var i := 0;
    while i < |data|
      invariant 0 <= i <= |data|
      invariant stairways == current + created[..i]
      invariant result == Records(created[..i])
    {
      var stairway := data[i].(id := randomId(i));
      stairways := stairways + [stairway];
      result := result + [Record(stairway)];
      assert created[..i + 1] == created[..i] + [stairway];
      i := i + 1;
    }
    assert created[..i] == created;
  }

  /** The update branch: each update is merged into the entry found by id; a
      missing id aborts the request. The result holds references to the
      merged entries, modelled as their positions, and is read once the loop ends. */
  method UpdateEntries(current: seq<Stairway>, updates: seq<Stairway>, merge: (Stairway, Stairway) -> Stairway)
    returns (r: Result<(seq<Stairway>, seq<ResultEntry>), string>)
    ensures r == UpdateOutcome(current, updates, merge)
  {
    var stairways: seq<Stairway>, result: seq<nat> := current, [];
    var i := 0;
    while i < |updates|
      invariant 0 <= i <= |updates|
      invariant ApplyUpdates(current, updates[..i], merge) == Ok((stairways, result))
    {
      var update := updates[i];
      assert updates[..i + 1][..i] == updates[..i];
      var idx := FindIndex(stairways, update.id);
      if idx < 0 {
        UpdatesErrPersists(current, updates, i + 1, merge);
        return Err(MISSING_UPDATE);
      }
      stairways := stairways[idx := merge(stairways[idx], update)];
      result := result + [idx];
      i := i + 1;
    }
    assert updates[..i] == updates;
    return Ok((stairways, UpdateRecords(stairways, result)));
  }

  /** One more id: the deletion so far, then that id's entry spliced out, or the error. */
  lemma DeleteStep(current: seq<Stairway>, ids: seq<string>, i: nat)
    requires i < |ids|
    ensures ApplyDeletes(current, ids[..i + 1]) ==
      match ApplyDeletes(current, ids[..i])
      case Err(msg) => Err(msg)
      case Ok(prev) =>
        var idx := FindIndex(prev.0, ids[i]);
        if idx < 0 then Err(MISSING_DELETE) else Ok((prev.0[..idx] + prev.0[idx + 1..], prev.1 + [DeletedId(ids[i])]))
  {
    assert ids[..i + 1][..i] == ids[..i];
  }

  /** The delete branch: each id's entry is spliced out; a missing id aborts the request. */
  method DeleteEntries(current: seq<Stairway>, ids: seq<string>)
    returns (r: Result<(seq<Stairway>, seq<ResultEntry>), string>)
    ensures r == ApplyDeletes(current, ids)
  {
    var stairways, result := current, [];
    var i := 0;
    while i < |ids|
      invariant 0 <= i <= |ids|
      invariant ApplyDeletes(current, ids[..i]) == Ok((stairways, result))
    {
      var id := ids[i];
      DeleteStep(current, ids, i);
      var idx := FindIndex(stairways, id);
      if idx < 0 {
        DeletesErrPersists(current, ids, i + 1);
        return Err(MISSING_DELETE);
      }
      stairways := stairways[..idx] + stairways[idx + 1..];
      result := result + [DeletedId(id)];
      i := i + 1;
    }
    assert ids[..i] == ids;
    return Ok((stairways, result));
  }

  /** The hooked `SocketInterface.dispatch`. Stairway events are answered from
      a copy of the scene's stairways; the copy is persisted to the scene flag
      only when every entry of the request succeeded. */
  method Dispatch(eventName: string, request: Request, scene: Scene?, userId: string,
                  randomId: nat -> string, merge: (Stairway, Stairway) -> Stairway)
    returns (outcome: Outcome)
    modifies scene
    ensures !IsStairwayEvent(eventName, request) ==> outcome == Delegated
    ensures IsStairwayEvent(eventName, request) && scene == null ==> outcome == Rejected
    ensures scene != null ==> scene.stairways == old(scene.stairways)
    ensures scene != null && !IsStairwayEvent(eventName, request) ==> scene.flagStairways == old(scene.flagStairways)
    ensures scene != null && IsStairwayEvent(eventName, request) ==>
      match Process(old(scene.stairways).GetOr([]), request, randomId, merge)
      case Err(msg) => outcome == Reported(msg) && scene.flagStairways == old(scene.flagStairways)
      case Ok(res) => outcome == Resolved(Response(request, res.1, userId)) && scene.flagStairways == Some(res.0)
  {
    if !(eventName == MODIFY_DOCUMENT && request.docType == STAIRWAY_TYPE) {
      return Delegated;
    }
    if scene == null {
      return Rejected;
    }
    var stairways := scene.stairways.GetOr([]);
    var processed: Result<(seq<Stairway>, seq<ResultEntry>), string>;
    match request.action {
      case Create =>
        var list, result := CreateEntries(stairways, request.data, randomId);
        processed := Ok((list, result));
      case Update =>
        processed := UpdateEntries(stairways, request.updates, merge);
      case Delete =>
        processed := DeleteEntries(stairways, request.ids);
      case UnknownAction(_) =>
        processed := Err(UNKNOWN_ACTION);
    }
    if processed.Err? {
      return Reported(processed.error);
    }
    scene.flagStairways := Some(processed.value.0);
    outcome := Resolved(Response(request, processed.value.1, userId));
  }

  // ---------------------------------------------------------------------------
  // Properties of the request semantics
  // ---------------------------------------------------------------------------

  /** Create appends every entry, in order, with the id drawn for it and the
      entry's other fields; the result lists exactly the new entries. */
  lemma CreateAppends(current: seq<Stairway>, request: Request, randomId: nat -> string,
                      merge: (Stairway, Stairway) -> Stairway)
    requires request.action == Create
    ensures Process(current, request, randomId, merge).Ok?
    ensures var res := Process(current, request, randomId, merge).value;
      && |res.0| == |current| + |request.data|
      && res.0[..|current|] == current
      && (forall i :: 0 <= i < |request.data| ==>
            res.0[|current| + i].id == randomId(i) && res.0[|current| + i].fields == request.data[i].fields)
      && res.1 == Records(res.0[|current|..])
  {
    var res := Process(current, request, randomId, merge).value;
    assert res.0[|current|..] == Created(request.data, randomId);
  }

  function Ids(list: seq<Stairway>): seq<string> {
    seq(|list|, i requires 0 <= i < |list| => list[i].id)
  }

  /** When the drawn ids differ from each other and from the stored ones,
      creating keeps the ids of the list unique. */
  lemma CreateKeepsUniqueIds(current: seq<Stairway>, data: seq<Stairway>, randomId: nat -> string)
    requires UniqueIds(current)
    requires forall i, j :: 0 <= i < j < |data| ==> randomId(i) != randomId(j)
    requires forall i, j :: 0 <= i < |data| && 0 <= j < |current| ==> randomId(i) != current[j].id
    ensures UniqueIds(current + Created(data, randomId))
  {
    var all := current + Created(data, randomId);
    forall i, j | 0 <= i < j < |all|
      ensures all[i].id != all[j].id
    {
      if j >= |current| {
        assert all[j].id == randomId(j - |current|);
        if i >= |current| {
          assert all[i].id == randomId(i - |current|);
        } else {
          assert all[i] == current[i];
        }
      }
    }
  }

  /** Updates keep the length, and every entry whose id no update names is
      unchanged in place. */
  lemma {:induction false} UpdatesTouchOnlyNamed(list: seq<Stairway>, updates: seq<Stairway>,
                                                 merge: (Stairway, Stairway) -> Stairway)
    requires ApplyUpdates(list, updates, merge).Ok?
    ensures var after := ApplyUpdates(list, updates, merge).value.0;
      && |after| == |list|
      && forall j :: 0 <= j < |list| && (forall k :: 0 <= k < |updates| ==> updates[k].id != list[j].id) ==>
           after[j] == list[j]
  {
    if updates != [] {
      var init := updates[..|updates| - 1];
      UpdatesTouchOnlyNamed(list, init, merge);
      var prev := ApplyUpdates(list, init, merge).value.0;
      var update := updates[|updates| - 1];
      var idx := FindIndex(prev, update.id);
      forall j | 0 <= j < |list| && (forall k :: 0 <= k < |updates| ==> updates[k].id != list[j].id)
        ensures ApplyUpdates(list, updates, merge).value.0[j] == list[j]
      {
        assert forall k :: 0 <= k < |init| ==> init[k] == updates[k];
        assert prev[j] == list[j];
        assert j != idx;
      }
    }
  }

  /** A single update replaces exactly the entry found by id with the merged
      record; every other entry is unchanged. */
  lemma SingleUpdate(list: seq<Stairway>, update: Stairway, merge: (Stairway, Stairway) -> Stairway)
    requires HasId(list, update.id)
    ensures UpdateOutcome(list, [update], merge).Ok?
    ensures var idx := FindIndex(list, update.id);
      var res := UpdateOutcome(list, [update], merge).value;
      && list[idx].id == update.id
      && |res.0| == |list|
      && res.0[idx] == merge(list[idx], update)
      && (forall j :: 0 <= j < |list| && j != idx ==> res.0[j] == list[j])
      && res.1 == [Record(merge(list[idx], update))]
  {
    ApplyOneUpdate(list, update, merge);
  }

  /** A single update merges into the entry it names and records that entry's position. */
  lemma ApplyOneUpdate(list: seq<Stairway>, update: Stairway, merge: (Stairway, Stairway) -> Stairway)
    requires HasId(list, update.id)
    ensures var idx := FindIndex(list, update.id);
      ApplyUpdates(list, [update], merge) == Ok((list[idx := merge(list[idx], update)], [idx as nat]))
  {
    var idx := FindIndex(list, update.id);
    assert [update][..0] == [];
    var none: seq<nat> := [];
    assert ApplyUpdates(list, [], merge) == Ok((list, none));
    assert none + [idx as nat] == [idx as nat];
  }

  /** One more update whose id is present merges into the entry it names and
      records that entry's position. */
  lemma ApplyUpdatesStep(list: seq<Stairway>, updates: seq<Stairway>, u: Stairway,
                         merge: (Stairway, Stairway) -> Stairway)
    requires ApplyUpdates(list, updates, merge).Ok?
    requires HasId(ApplyUpdates(list, updates, merge).value.0, u.id)
    ensures var prev := ApplyUpdates(list, updates, merge).value;
      var idx := FindIndex(prev.0, u.id);
      ApplyUpdates(list, updates + [u], merge) == Ok((prev.0[idx := merge(prev.0[idx], u)], prev.1 + [idx as nat]))
  {
    assert (updates + [u])[..|updates|] == updates;
  }

  /** Replacing the first entry with a given id by one with the same id keeps it the first. */
  lemma FindIndexAfterReplace(list: seq<Stairway>, id: string, s: Stairway)
    requires HasId(list, id) && s.id == id
    ensures FindIndex(list[FindIndex(list, id) := s], id) == FindIndex(list, id)
  {
    var idx := FindIndex(list, id);
    var after := list[idx := s];
    assert after[idx].id == id;
  }

  /** Two updates of one entry in the same request both report that entry as
      it stands after the second: the result holds the same object twice. */
  lemma UpdateTwiceReportsFinal(list: seq<Stairway>, u1: Stairway, u2: Stairway,
                                merge: (Stairway, Stairway) -> Stairway)
    requires HasId(list, u1.id) && u2.id == u1.id
    requires forall s: Stairway, u: Stairway :: s.id == u.id ==> merge(s, u).id == s.id
    ensures UpdateOutcome(list, [u1, u2], merge).Ok?
    ensures var idx := FindIndex(list, u1.id);
      var last := merge(merge(list[idx], u1), u2);
      UpdateOutcome(list, [u1, u2], merge).value.1 == [Record(last), Record(last)]
  {
    var idx := FindIndex(list, u1.id);
    var after := list[idx := merge(list[idx], u1)];
    ApplyOneUpdate(list, u1, merge);
    assert merge(list[idx], u1).id == u1.id;
    FindIndexAfterReplace(list, u1.id, merge(list[idx], u1));
    assert HasId(after, u2.id) by { assert after[idx].id == u2.id; }
    ApplyUpdatesStep(list, [u1], u2, merge);
    var final := after[idx := merge(after[idx], u2)];
    var positions: seq<nat> := [idx as nat, idx as nat];
    assert [u1] + [u2] == [u1, u2] && [idx as nat] + [idx as nat] == positions;
    assert ApplyUpdates(list, [u1, u2], merge) == Ok((final, positions));
    assert UpdateRecords(final, positions) == [Record(final[idx]), Record(final[idx])];
  }

  /** When `mergeObject` keeps the `_id` of matching records, updates keep the list of ids. */
  lemma {:induction false} UpdatesKeepIds(list: seq<Stairway>, updates: seq<Stairway>,
                                          merge: (Stairway, Stairway) -> Stairway)
    requires forall s: Stairway, u: Stairway :: s.id == u.id ==> merge(s, u).id == s.id
    requires ApplyUpdates(list, updates, merge).Ok?
    ensures Ids(ApplyUpdates(list, updates, merge).value.0) == Ids(list)
  {
    if updates != [] {
      UpdatesKeepIds(list, updates[..|updates| - 1], merge);
    }
  }

  /** All or nothing: an update naming an id absent from the list fails the
      whole request (when `mergeObject` keeps the ids of matching records). */
  lemma UpdateOfMissingIdFails(list: seq<Stairway>, updates: seq<Stairway>, k: nat,
                               merge: (Stairway, Stairway) -> Stairway)
    requires forall s: Stairway, u: Stairway :: s.id == u.id ==> merge(s, u).id == s.id
    requires k < |updates| && !HasId(list, updates[k].id)
    ensures ApplyUpdates(list, updates, merge).Err?
  {
    var prefix := updates[..k];
    assert updates[..k + 1][..k] == prefix;
    match ApplyUpdates(list, prefix, merge)
    case Err(msg) =>
      UpdatesErrPersists(list, updates, k, merge);
    case Ok(prev) =>
      UpdatesKeepIds(list, prefix, merge);
      assert Ids(prev.0) == Ids(list);
      assert forall j :: 0 <= j < |prev.0| ==> prev.0[j].id == Ids(prev.0)[j] == list[j].id;
      assert !HasId(prev.0, updates[k].id);
      assert ApplyUpdates(list, updates[..k + 1], merge).Err?;
      UpdatesErrPersists(list, updates, k + 1, merge);
  }

  /** The list without the entries carrying `id`, order kept. */
  function Without(list: seq<Stairway>, id: string): (r: seq<Stairway>)
    ensures forall j :: 0 <= j < |r| ==> r[j].id != id
  {
    if list == [] then []
    else if list[0].id == id then Without(list[1..], id)
    else [list[0]] + Without(list[1..], id)
  }

  lemma {:induction false} WithoutConcat(xs: seq<Stairway>, ys: seq<Stairway>, id: string)
    ensures Without(xs + ys, id) == Without(xs, id) + Without(ys, id)
  {
    if xs != [] {
      assert (xs + ys)[1..] == xs[1..] + ys;
      WithoutConcat(xs[1..], ys, id);
    } else {
      assert xs + ys == ys;
    }
  }

  lemma {:induction false} WithoutAbsent(xs: seq<Stairway>, id: string)
    requires !HasId(xs, id)
    ensures Without(xs, id) == xs
  {
    if xs != [] {
      assert forall j :: 0 <= j < |xs[1..]| ==> xs[1..][j] == xs[j + 1];
      WithoutAbsent(xs[1..], id);
      assert xs == [xs[0]] + xs[1..];
    }
  }

  /** Deleting one present id splices out its first entry. */
  lemma DeleteOne(list: seq<Stairway>, id: string)
    requires HasId(list, id)
    ensures var idx := FindIndex(list, id);
      ApplyDeletes(list, [id]) == Ok((list[..idx] + list[idx + 1..], [DeletedId(id)]))
  {
    assert [id][..0] == [];
    assert ApplyDeletes(list, []) == Ok((list, []));
    assert [] + [DeletedId(id)] == [DeletedId(id)];
  }

  lemma WithoutSplit(before: seq<Stairway>, x: Stairway, after: seq<Stairway>, id: string)
    requires !HasId(before, id) && !HasId(after, id) && x.id == id
    ensures Without(before + [x] + after, id) == before + after
  {
    WithoutConcat(before + [x], after, id);
    WithoutConcat(before, [x], id);
    assert Without([x], id) == [] by {
      assert [x][1..] == [];
    }
    WithoutAbsent(before, id);
    WithoutAbsent(after, id);
  }

  lemma NoIdBeforeFirst(list: seq<Stairway>, id: string, idx: nat)
    requires idx <= |list| && forall j :: 0 <= j < idx ==> list[j].id != id
    ensures !HasId(list[..idx], id)
  {
    assert forall j :: 0 <= j < idx ==> list[..idx][j] == list[j];
  }

  lemma NoIdAfterUnique(list: seq<Stairway>, id: string, idx: nat)
    requires UniqueIds(list) && idx < |list| && list[idx].id == id
    ensures !HasId(list[idx + 1..], id)
  {
    var after := list[idx + 1..];
    forall k | 0 <= k < |after|
      ensures after[k].id != id
    {
      assert after[k] == list[idx + 1 + k];
    }
  }

  /** With unique ids, filtering out a present id is splicing out its entry. */
  lemma WithoutUnique(list: seq<Stairway>, id: string)
    requires UniqueIds(list) && HasId(list, id)
    ensures var idx := FindIndex(list, id);
      Without(list, id) == list[..idx] + list[idx + 1..]
  {
    var idx := FindIndex(list, id);
    NoIdBeforeFirst(list, id, idx);
    NoIdAfterUnique(list, id, idx);
    WithoutAtOnly(list, id, idx);
  }

  /** Filtering out the id of the only entry that carries it splices that entry out. */
  lemma WithoutAtOnly(list: seq<Stairway>, id: string, idx: nat)
    requires idx < |list| && list[idx].id == id
    requires !HasId(list[..idx], id) && !HasId(list[idx + 1..], id)
    ensures Without(list, id) == list[..idx] + list[idx + 1..]
  {
    assert list == list[..idx] + [list[idx]] + list[idx + 1..];
    WithoutSplit(list[..idx], list[idx], list[idx + 1..], id);
  }

  /** With unique ids, deleting an id that is present is filtering it out,
      every other entry kept in order, and the result records the id. */
  lemma DeleteIsFilter(list: seq<Stairway>, id: string)
    requires UniqueIds(list) && HasId(list, id)
    ensures ApplyDeletes(list, [id]) == Ok((Without(list, id), [DeletedId(id)]))
  {
    DeleteOne(list, id);
    WithoutUnique(list, id);
  }

  /** With unique ids, a request deleting the same id twice fails. */
  lemma DeleteTwiceFails(list: seq<Stairway>, id: string)
    requires UniqueIds(list)
    ensures ApplyDeletes(list, [id, id]) == Err(MISSING_DELETE)
  {
    assert [id, id][..1] == [id];
    assert [id][..0] == [];
    if HasId(list, id) {
      DeleteIsFilter(list, id);
      assert !HasId(Without(list, id), id);
    } else {
      assert ApplyDeletes(list, [id]) == Err(MISSING_DELETE);
    }
  }

  /** Deleting k ids removes exactly k entries and reports the ids in order. */
  lemma {:induction false} DeletesShrink(list: seq<Stairway>, ids: seq<string>)
    requires ApplyDeletes(list, ids).Ok?
    ensures |ApplyDeletes(list, ids).value.0| == |list| - |ids|
    ensures ApplyDeletes(list, ids).value.1 == seq(|ids|, i requires 0 <= i < |ids| => DeletedId(ids[i]))
  {
    if ids != [] {
      DeletesShrink(list, ids[..|ids| - 1]);
    }
  }

  // ---------------------------------------------------------------------------
  // handleModifyEmbeddedDocument
  // ---------------------------------------------------------------------------

  /** Which database-backend handler a remote response is routed to. */
  datatype Route = Ignored | HandleCreate | HandleUpdate | HandleDelete

  function RouteResponse(response: Response, localUserId: string): (r: Route)
    ensures response.userId == localUserId ==> r == Ignored
    ensures response.userId != localUserId ==>
      (r == HandleCreate <==> response.request.action == Create) &&
      (r == HandleUpdate <==> response.request.action == Update) &&
      (r == HandleDelete <==> response.request.action == Delete)
  {
    if response.userId == localUserId then Ignored
    else
      match response.request.action
      case Create => HandleCreate
      case Update => HandleUpdate
      case Delete => HandleDelete
      case UnknownAction(_) => Ignored
  }
}
