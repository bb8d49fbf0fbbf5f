# FoundryVTT module cores, modelled in Dafny

This project models the decision logic of several FoundryVTT add-on modules
and proves properties of it:

- **tokenvisibility** (`Area2d`). It decides whether a viewer has line of sight
  to a target token by the percentage of the target's area that is visible.
  The model covers:
  - which elevation planes of the target are tested;
  - how the visible fraction is summed over solid and hole pieces;
  - the centre-point shortcut and the zero-threshold boundary test;
  - which walls and tokens cast shadows;
  - when the vision polygon must be rebuilt;
  - how tiles are combined with the drawings that cut holes in them.
  File: `token_visibility.dfy`.
- **elevatedvision** (`lighting.js`). It is the shader side of elevation-aware
  lighting. The model covers:
  - the 2-D orientation and segment-intersection predicates;
  - the perpendicular foot;
  - the pixel-to-elevation map;
  - the light-circle coordinate transform and its inverse;
  - how walls are packed into the uniform arrays, with their padding;
  - the per-pixel shadow depth loops.
  File: `ev_lighting.dfy`.
- **stairways**.
  - `dataQuirks.js`: the socket hook answers stairway create, update and
    delete requests from a copy of the scene's stairways, and routes remote
    responses. File: `stairway_documents.dfy`.
  - `injection.js`: inserting the stairway layer after the walls layer,
    the embedded-name lookup, the schema field injected once, and the copy of
    stored flags into scenes. File: `stairway_injection.dfy`.
- **active-effect-manager-lib**.
  - Owned-item effects: delete by filter, update by index with its guard,
    and the duration derived from an item. File: `owned_item_effects.dfy`.
  - The status-effect name list kept in the settings. File: `status_effects.dfy`.
  - The query helpers: actor UUIDs from the canvas, lookup by UUID, and
    splitting of compendium UUIDs. File: `foundry_helpers.dfy`.
- **data-inspector** (`pf1.mjs`): the Pathfinder 1e filter that hides the
  secret fields of unidentified items from players, and the copy of subtype
  fields into temporary data. File: `pf1_inspector.dfy`.

`wrappers.dfy` holds the `Option` and `Result` types.

JavaScript objects that the source updates in place are classes with
`modifies` clauses: the scene, the canvas layer configuration, the schema,
the effect parent, the settings, the uniforms and the tiles. Their methods
are proved against specification functions. Foundry's own services are
parameters of the model: polygon clipping, shadow construction, `fromUuid`,
`mergeObject` and random ids.

## Model

| member | source | states |
|---|---|---|
| TokenVisibility.BuildShadowLOS | Data/modules/tokenvisibility/scripts/Area2d.js:212-240 | At least one plane is tested. A flat target tests only its top. A viewer below tests the bottom only, one above tests the top only, and one in between tests both. Each tested plane is the line of sight built at that plane's elevation. |
| TokenVisibility.ProperPieces | Data/modules/tokenvisibility/scripts/Area2d.js:404-422 | Keeps exactly the clipped pieces with more than five coordinates, and no others. |
| TokenVisibility.ProperPiecesConcat | Data/modules/tokenvisibility/scripts/Area2d.js:404-422 | The piece filter distributes over concatenation, so the kept pieces stay in their clipped order. |
| TokenVisibility.PercentSeen | Data/modules/tokenvisibility/scripts/Area2d.js:317-341 | A non-zero percentage needs a visible piece, a token area not within epsilon of 0 and a net seen area above epsilon. |
| TokenVisibility.CalculatePercentSeen | Data/modules/tokenvisibility/scripts/Area2d.js:317-341 | The loop over the visible pieces computes the percentage the specification function defines. |
| TokenVisibility.AreaOfAppend | Data/modules/tokenvisibility/scripts/Area2d.js:328-331 | Area summation extends piece by piece. |
| TokenVisibility.NetSeenAreaIsSolidMinusHoles | Data/modules/tokenvisibility/scripts/Area2d.js:328-331 | The running signed sum equals the area of the solid pieces minus the area of the holes. |
| TokenVisibility.PercentSeenCases | Data/modules/tokenvisibility/scripts/Area2d.js:317-341 | The percentage is never negative. It is 0 with no visible piece, a zero token area, or a net seen area within epsilon of 0. Otherwise percentage × token area = solid − holes. |
| TokenVisibility.PercentAreaVisible | Data/modules/tokenvisibility/scripts/Area2d.js:191-202 | The result is the larger of the tested planes' percentages: it is at least each one and equals one of them, or 0 when none is larger than 0. |
| TokenVisibility.PercentAreaVisibleNonNegative | Data/modules/tokenvisibility/scripts/Area2d.js:191-202 | The visible percentage is never negative. |
| TokenVisibility.TargetBoundsTest | Data/modules/tokenvisibility/scripts/Area2d.js:144-152 | The boundary test is undefined exactly for Clipper paths. |
| TokenVisibility.ZeroThresholdVerdict | Data/modules/tokenvisibility/scripts/Area2d.js:120-131 | At threshold 0: true iff some tested plane's boundary is breached; undecided iff neither tested plane has a polygon to test. |
| TokenVisibility.HasLOS | Data/modules/tokenvisibility/scripts/Area2d.js:91-137 | A visible centre with a threshold below 0.5 grants line of sight. A hidden centre with a threshold of 0.5 or more denies it. Otherwise, for a non-zero threshold, line of sight holds iff the visible fraction is non-zero and exceeds the threshold or is within epsilon of it. |
| TokenVisibility.ZeroThresholdPath | Data/modules/tokenvisibility/scripts/Area2d.js:120-136 | With threshold 0 and a hidden centre: a breached boundary on a tested plane grants sight; defined tests that all fail deny it; with no defined test the area decides. |
| TokenVisibility.HasLOSMonotone | Data/modules/tokenvisibility/scripts/Area2d.js:91-137 | For non-zero thresholds, lowering the required percentage never takes away line of sight. |
| TokenVisibility.FilterBlockingTokens | Data/modules/tokenvisibility/scripts/Area2d.js:449-456 | When live and dead tokens block alike, every token is kept. Otherwise exactly the tokens whose liveness blocks are kept. |
| TokenVisibility.KeepTokens | Data/modules/tokenvisibility/scripts/Area2d.js:449-456 | A token is in the result iff it is in the input and passes the blocking test. |
| TokenVisibility.KeepTokensConcat | Data/modules/tokenvisibility/scripts/Area2d.js:449-456 | The HP filter distributes over concatenation, so the kept tokens stay in order. |
| TokenVisibility.IsConstrained | Data/modules/tokenvisibility/scripts/Area2d.js:543-552 | No boundary shape means not constrained, and two or more always mean constrained. A single shape constrains unless it is a limited angle of full radius. |
| TokenVisibility.Somes | Data/modules/tokenvisibility/scripts/Area2d.js:505-509 | There are never more shadows than inputs. |
| TokenVisibility.SomesFrom | Data/modules/tokenvisibility/scripts/Area2d.js:505-509 | Every collected shadow comes from some input element. |
| TokenVisibility.PlanLos | Data/modules/tokenvisibility/scripts/Area2d.js:429-539 | Tokens are candidates only when tokens block at all. Shadows are built iff the walls or blocking tokens force a redo, or Perfect Vision is active and the sense type differs or the source is constrained. The source's own polygon is used only under Perfect Vision, and a recreated polygon only without it. |
| TokenVisibility.PlanLosWithoutBlockingTokens | Data/modules/tokenvisibility/scripts/Area2d.js:432-445 | When tokens do not block, the plan does not depend on the tokens, and any shadows are the wall shadows alone. |
| TokenVisibility.PushShadows | Data/modules/tokenvisibility/scripts/Area2d.js:505-509 | The loop appends the present shadows of its inputs, in order. |
| TokenVisibility.TokenShadowsSnoc | Data/modules/tokenvisibility/scripts/Area2d.js:510-532 | One more blocking token appends the shadows of its sides, after those of the earlier tokens. |
| TokenVisibility.CollectShadows | Data/modules/tokenvisibility/scripts/Area2d.js:505-532 | The wall shadows come first, then the token-side shadows, in order. |
| TokenVisibility.ShadowLOSForElevation | Data/modules/tokenvisibility/scripts/Area2d.js:429-539 | The method returns the plan the specification function defines. |
| TokenVisibility.TilePolygon | Data/modules/tokenvisibility/scripts/Area2d.js:254-261 | The corrected tile rectangle has four corners and shoelace area width × height. |
| TokenVisibility.TilePolygonAsWritten | Data/modules/tokenvisibility/scripts/Area2d.js:258 | The polygon as written has the rectangle's coordinates except the sixth, which is y + width where the rectangle has y + height. |
| TokenVisibility.TilePolygonAsWrittenOnlyForSquares | Data/modules/tokenvisibility/scripts/Area2d.js:258 | The polygon as written equals the tile rectangle iff the tile is square. |
| TokenVisibility.TilePolygonAsWrittenCounterexample | Data/modules/tokenvisibility/scripts/Area2d.js:254-261 | For a 2 × 1 tile at the origin, the polygon as written has twice the area 6 instead of 4. |
| TokenVisibility.Between | Data/modules/tokenvisibility/scripts/Area2d.js:283 | Inclusive betweenness in either order of the bounds. |
| TokenVisibility.DrawingCutsTileAsWritten | Data/modules/tokenvisibility/scripts/Area2d.js:277-283 | The hole test as written: a drawing cuts a tile only when one of its range flags holds a number and neither flag is unset, because `between` with an unset flag compares against `NaN`. |
| TokenVisibility.DrawingCutsTileAsWrittenIff | Data/modules/tokenvisibility/scripts/Area2d.js:277-283 | As written, a drawing cuts a tile iff it has a number top and a null bottom and the tile sits at the top, or the reverse, or it has two numbers and the tile's elevation lies between them. |
| TokenVisibility.NullIfUnset | Data/modules/tokenvisibility/scripts/Area2d.js:280 | Reading an unset flag as null, which the `== null` tests intend: the result is never unset and keeps a number flag. |
| TokenVisibility.DrawingCutsTile | Data/modules/tokenvisibility/scripts/Area2d.js:277-283 | The intended hole test, with an unset flag read as null: a drawing that cuts a tile has at least one number flag. |
| TokenVisibility.DrawingCutsTileIff | Data/modules/tokenvisibility/scripts/Area2d.js:277-283 | Intended test: a drawing with no number flag never cuts a tile. With one number flag (the other null or unset) the tile must sit exactly at it, and with two the tile's elevation must lie between them. |
| TokenVisibility.DrawingCutsTileAgreement | Data/modules/tokenvisibility/scripts/Area2d.js:277-283 | Every cut as written is an intended cut, and the two tests agree on every drawing with no unset flag. |
| TokenVisibility.DrawingCutsTileAsWrittenCounterexample | Data/modules/tokenvisibility/scripts/Area2d.js:279-283 | A drawing with top 5 and an unset bottom does not cut a tile at 5 as written, although it does with a null bottom and under the intended test. |
| TokenVisibility.DrawingCutsTileSymmetric | Data/modules/tokenvisibility/scripts/Area2d.js:277-283 | Exchanging the top and bottom of a drawing's range changes neither the test as written nor the intended test. |
| TokenVisibility.Tile.constructor | Data/modules/tokenvisibility/scripts/Area2d.js:250-261 | A tile starts with its geometry and elevation and no polygon. |
| TokenVisibility.HolesFor | Data/modules/tokenvisibility/scripts/Area2d.js:277-283 | A drawing is a hole of the tile iff it is one of the drawings and cuts the tile under the test as written. |
| TokenVisibility.HoledTiles | Data/modules/tokenvisibility/scripts/Area2d.js:285-293 | Every listed tile is an input tile, paired with its non-empty list of holes. |
| TokenVisibility.UnholedTiles | Data/modules/tokenvisibility/scripts/Area2d.js:289-293 | Exactly the tiles that no drawing cuts. |
| TokenVisibility.HoledTilesComplete | Data/modules/tokenvisibility/scripts/Area2d.js:285-293 | Every input tile that some drawing cuts is listed, with its holes. |
| TokenVisibility.HoledTilesConcat | Data/modules/tokenvisibility/scripts/Area2d.js:285-293 | The holed-tile list distributes over concatenation, so it keeps the order of the tiles. |
| TokenVisibility.UnholedTilesConcat | Data/modules/tokenvisibility/scripts/Area2d.js:285-293 | The unholed-tile list distributes over concatenation, so it keeps the order of the tiles. |
| TokenVisibility.HoledTilesPartition | Data/modules/tokenvisibility/scripts/Area2d.js:285-293 | Each tile lands in exactly one of the two lists: their lengths add up to the number of tiles. |
| TokenVisibility.CombineTilesWithDrawingHoles | Data/modules/tokenvisibility/scripts/Area2d.js:250-306 | Every tile gets the corrected rectangle as its polygon, not the polygon as written (see Findings). No tiles gives nothing, and no drawings gives the tiles alone. Otherwise the result is the holed tiles with their holes plus the unholed tiles. |
| EVLighting.Orient2d | Data/modules/elevatedvision/scripts/lighting.js:40-49 | Two coinciding points give orientation 0. |
| EVLighting.Orient2dSwapNegates | Data/modules/elevatedvision/scripts/lighting.js:47 | Exchanging the first two points negates the orientation. |
| EVLighting.Orient2dOnLine | Data/modules/elevatedvision/scripts/lighting.js:47 | Every point on line AB has orientation 0. |
| EVLighting.Orient2dExchange | Data/modules/elevatedvision/scripts/lighting.js:47 | An algebraic identity linking the orientations of the two segments. |
| EVLighting.LineSegmentIntersects | Data/modules/elevatedvision/scripts/lighting.js:51-65 | AB meets CD iff C and D are not both on line AB, C and D are not strictly on the same side of AB, and A and B are not strictly on the same side of CD. |
| EVLighting.LineSegmentIntersectsSymmetric | Data/modules/elevatedvision/scripts/lighting.js:59-65 | Whether AB meets CD does not depend on the order of the two segments. |
| EVLighting.LineSegmentIntersectsReversal | Data/modules/elevatedvision/scripts/lighting.js:59-65 | Reversing either segment does not change the answer. |
| EVLighting.SharedEndpointIntersects | Data/modules/elevatedvision/scripts/lighting.js:59-65 | Non-collinear segments that share an endpoint intersect, because the test uses `<= 0`. |
| EVLighting.ProperCrossingIntersects | Data/modules/elevatedvision/scripts/lighting.js:59-65 | Segments that strictly straddle each other intersect. |
| EVLighting.FootIsOrthogonal | Data/modules/elevatedvision/scripts/lighting.js:76-83 | For distinct A and B, C minus the computed foot is orthogonal to AB. |
| EVLighting.PerpendicularPoint | Data/modules/elevatedvision/scripts/lighting.js:76-83 | Equal endpoints give no foot. A foot that exists lies on line AB, and the vector from it to C is orthogonal to AB. |
| EVLighting.CanvasElevationFromPixel | Data/modules/elevatedvision/scripts/lighting.js:92-100 | Texture value 0 gives the minimum elevation times the canvas multiplier. |
| EVLighting.CanvasElevationStep | Data/modules/elevatedvision/scripts/lighting.js:99 | One pixel step raises the canvas elevation by step × multiplier. |
| EVLighting.CanvasElevationMonotone | Data/modules/elevatedvision/scripts/lighting.js:99 | With positive step, maximum and multiplier, a larger pixel value gives a strictly higher elevation. |
| EVLighting.CircleCoord | Data/modules/elevatedvision/scripts/lighting.js:608-610 | The light's centre maps to 0.5, and for a non-zero inverse radius only the centre does. |
| EVLighting.RevCircleCoord | Data/modules/elevatedvision/scripts/lighting.js:619-625 | 0.5 maps back to the centre, and for a non-zero radius only 0.5 does. |
| EVLighting.CircleCoordAnchors | Data/modules/elevatedvision/scripts/lighting.js:581-610 | The centre maps to 0.5, and the left and right edges of the light circle map to 0 and 1. |
| EVLighting.CircleCoordRoundTrip | Data/modules/elevatedvision/scripts/lighting.js:608-625 | For a non-zero radius, the coordinate transform and its reverse are inverse in both directions. |
| EVLighting.CircleZ | Data/modules/elevatedvision/scripts/lighting.js:595 | For a positive inverse radius the light-local elevation has the sign of the canvas elevation. |
| EVLighting.PointCircleCoord | Data/modules/elevatedvision/scripts/lighting.js:591-597 | The light's centre maps to the shader centre (0.5, 0.5). |
| EVLighting.PointCircleCoordRoundTrip | Data/modules/elevatedvision/scripts/lighting.js:591-625 | For a non-zero radius the canvas x and y come back from the light-local point, and its elevation times twice the radius is the canvas elevation. |
| EVLighting.WallData | Data/modules/elevatedvision/scripts/lighting.js:560-578 | A wall that yields data yields exactly six coordinates. |
| EVLighting.PackWalls | Data/modules/elevatedvision/scripts/lighting.js:484-509 | Six coordinates per distance; at most one distance per wall. |
| EVLighting.PackWallsSkipsDegenerate | Data/modules/elevatedvision/scripts/lighting.js:572-573 | A wall whose two corners coincide in plan adds nothing. |
| EVLighting.PackWallsSnoc | Data/modules/elevatedvision/scripts/lighting.js:484-509 | One more wall appends its coordinates and distance, or nothing when it has no packed data. |
| EVLighting.PackWallsConcat | Data/modules/elevatedvision/scripts/lighting.js:484-509 | Packing distributes over concatenated wall lists, so the walls keep their order. |
| EVLighting.WallArrays.constructor | Data/modules/elevatedvision/scripts/lighting.js:485-486 | The arrays start empty. |
| EVLighting.AddWallDataToShaderArrays | Data/modules/elevatedvision/scripts/lighting.js:560-578 | A degenerate wall leaves both arrays unchanged. Any other wall appends its distance and its six coordinates. |
| EVLighting.LightUniforms.constructor | Data/modules/elevatedvision/scripts/lighting.js:390-398 | The default uniforms: no walls, zero placeholder arrays, source at the centre. |
| EVLighting.LightUniforms.PackInto | Data/modules/elevatedvision/scripts/lighting.js:484-509 | The loop over a wall set builds exactly the packing that the specification function defines. |
| EVLighting.LightUniforms.PackPadded | Data/modules/elevatedvision/scripts/lighting.js:484-509 | The count is the number of packed distances before padding; the arrays are the packing, padded when empty. |
| EVLighting.LightUniforms.HeightWall | Data/modules/elevatedvision/scripts/lighting.js:249-258 | The shader's reads of height wall i: two corners and a distance, inside the uploaded arrays whenever the uniforms are valid and i is below the count. |
| EVLighting.LightUniforms.TerrainWall | Data/modules/elevatedvision/scripts/lighting.js:276-286 | The same reads for terrain wall j. |
| EVLighting.LightUniforms.UpdateEVLightUniforms | Data/modules/elevatedvision/scripts/lighting.js:470-558 | Wall counts are the packed distance counts; empty arrays are padded; the source location and scene rectangle are in circle coordinates. |
| EVLighting.ShadePixel | Data/modules/elevatedvision/scripts/lighting.js:207-305 | Outside the scene a pixel is never in shadow. Above the light the depth is 0 and the shadow flag is the vision flag. Otherwise the pixel is in shadow iff some processed wall hits it or at least two processed terrain walls do. |
| EVLighting.HitCount | Data/modules/elevatedvision/scripts/lighting.js:248-304 | The number of hits never exceeds the number of walls tested. |
| EVLighting.DepthCalculation | Data/modules/elevatedvision/scripts/lighting.js:207-305 | The shader loops produce the depth and shadow flag that the pixel specification defines. |
| EVLighting.MinHitBelow | Data/modules/elevatedvision/scripts/lighting.js:263-268 | The minimum is at most the start and every hit, and it is either the start or one of the hits. |
| EVLighting.DepthIsMinimum | Data/modules/elevatedvision/scripts/lighting.js:248-304 | Inside the scene and below the source, the depth is at most the smoothed depth. With a height-wall hit it is the minimum of the smoothed depth and the shadowing walls' distances. With none and fewer than two terrain hits it is the smoothed depth. With none and at least two terrain hits it is at most 1 and every terrain hit's distance, and it is the smoothed depth, 1 or one of those distances. |
| EVLighting.MinHitNoHits | Data/modules/elevatedvision/scripts/lighting.js:248-270 | A wall loop with no hit leaves the depth at its start value. |
| EVLighting.HitCountSingle | Data/modules/elevatedvision/scripts/lighting.js:272-304 | Exactly one hit counts 1. |
| EVLighting.HitCountNone | Data/modules/elevatedvision/scripts/lighting.js:248-270 | No hit counts 0. |
| EVLighting.TerrainWallsNeedTwo | Data/modules/elevatedvision/scripts/lighting.js:272-304 | With no height-wall hit, a pixel is in shadow iff at least two terrain walls hit it, so one terrain wall alone never shadows. |
| StairwayDocuments.FindIndex | Data/modules/stairways/src/dataQuirks.js:32 | -1 iff no entry has the id; otherwise the index of the first entry that has it. |
| StairwayDocuments.Created | Data/modules/stairways/src/dataQuirks.js:22-29 | One entry per given entry, with the id drawn for its position and its own fields. |
| StairwayDocuments.ApplyUpdates | Data/modules/stairways/src/dataQuirks.js:30-38 | A failure is always the missing-update error. On success the list keeps its length and there is one recorded position per update, each inside the list. |
| StairwayDocuments.UpdateOutcome | Data/modules/stairways/src/dataQuirks.js:30-38 | Fails exactly when the updates fail. On success the list is the updated list and there is one record per update. |
| StairwayDocuments.ApplyDeletes | Data/modules/stairways/src/dataQuirks.js:39-47 | A failure is always the missing-delete error. On success there is one recorded id per deleted id. |
| StairwayDocuments.Process | Data/modules/stairways/src/dataQuirks.js:22-50 | A create always succeeds. Exactly an unknown action gives the unknown-action error. Any other error is the missing-update or missing-delete error. |
| StairwayDocuments.Scene.constructor | Data/modules/stairways/src/dataQuirks.js:19 | A scene holds its stairways and its stored flag. |
| StairwayDocuments.UpdatesErrPersists | Data/modules/stairways/src/dataQuirks.js:31-35 | Once an update fails, the later updates change nothing: the error is returned. |
| StairwayDocuments.DeletesErrPersists | Data/modules/stairways/src/dataQuirks.js:40-44 | Once a delete fails, the later deletes change nothing. |
| StairwayDocuments.CreateEntries | Data/modules/stairways/src/dataQuirks.js:22-29 | The loop appends every created entry and records it. |
| StairwayDocuments.UpdateEntries | Data/modules/stairways/src/dataQuirks.js:30-38 | The loop computes the update outcome, including its error. Its result holds the entries at the recorded positions in the final list, because `mergeObject` changes the entry in place. |
| StairwayDocuments.DeleteEntries | Data/modules/stairways/src/dataQuirks.js:39-47 | The loop computes the delete specification, including its error. |
| StairwayDocuments.Dispatch | Data/modules/stairways/src/dataQuirks.js:5-65 | Other events are delegated. A stairway event without a scene is rejected. Otherwise the request is processed on a copy: an error is reported and the flag is untouched, while success persists the new list to the flag and resolves with the result and the user id. |
| StairwayDocuments.CreateAppends | Data/modules/stairways/src/dataQuirks.js:22-29 | A create always succeeds. It keeps the old entries and appends each new one with the id drawn for it and its own fields, and the result lists exactly the new entries. |
| StairwayDocuments.CreateKeepsUniqueIds | Data/modules/stairways/src/dataQuirks.js:22-29 | When the drawn ids differ from each other and from the existing ids, the ids stay unique after a create. |
| StairwayDocuments.UpdatesTouchOnlyNamed | Data/modules/stairways/src/dataQuirks.js:30-38 | A successful update keeps the length, and entries that no update names stay unchanged. |
| StairwayDocuments.SingleUpdate | Data/modules/stairways/src/dataQuirks.js:30-38 | A single update of a present id merges into its first entry only and records the merged entry. |
| StairwayDocuments.ApplyOneUpdate | Data/modules/stairways/src/dataQuirks.js:31-37 | One update of a present id merges into its first entry and records that position. |
| StairwayDocuments.ApplyUpdatesStep | Data/modules/stairways/src/dataQuirks.js:31-37 | One more update of a present id merges into the entry it names and records that position. |
| StairwayDocuments.FindIndexAfterReplace | Data/modules/stairways/src/dataQuirks.js:32-36 | Replacing the first entry with an id by one with the same id keeps it the first. |
| StairwayDocuments.UpdateTwiceReportsFinal | Data/modules/stairways/src/dataQuirks.js:36-37 | Two updates of one entry in one request both report the entry as it stands after the second update: the result holds the same object twice. |
| StairwayDocuments.UpdatesKeepIds | Data/modules/stairways/src/dataQuirks.js:36 | When merging an update into an entry with the same id keeps that id, the ids of the list are unchanged. |
| StairwayDocuments.UpdateOfMissingIdFails | Data/modules/stairways/src/dataQuirks.js:33-35 | When merging keeps ids, an update that names an id absent from the list makes the whole request fail. |
| StairwayDocuments.Without | Data/modules/stairways/src/dataQuirks.js:39-47 | No entry with the id remains. |
| StairwayDocuments.WithoutConcat | Data/modules/stairways/src/dataQuirks.js:39-47 | Removal distributes over concatenation. |
| StairwayDocuments.WithoutAbsent | Data/modules/stairways/src/dataQuirks.js:39-47 | Removing an absent id changes nothing. |
| StairwayDocuments.DeleteOne | Data/modules/stairways/src/dataQuirks.js:41-46 | Deleting a present id splices out its first entry and records the id. |
| StairwayDocuments.WithoutSplit | Data/modules/stairways/src/dataQuirks.js:45 | Removal around the only entry with the id leaves the entries before and after it. |
| StairwayDocuments.NoIdBeforeFirst | Data/modules/stairways/src/dataQuirks.js:41 | No entry before the first match has the id. |
| StairwayDocuments.NoIdAfterUnique | Data/modules/stairways/src/dataQuirks.js:41 | With unique ids, no entry after the match has the id. |
| StairwayDocuments.WithoutUnique | Data/modules/stairways/src/dataQuirks.js:45 | With unique ids, the splice equals removing every entry with the id. |
| StairwayDocuments.DeleteIsFilter | Data/modules/stairways/src/dataQuirks.js:39-47 | With unique ids, deleting a present id is the filter that drops it. |
| StairwayDocuments.DeleteTwiceFails | Data/modules/stairways/src/dataQuirks.js:39-47 | With unique ids, deleting the same id twice in one request fails. |
| StairwayDocuments.DeletesShrink | Data/modules/stairways/src/dataQuirks.js:39-47 | A successful delete removes exactly one entry per id and records each id in order. |
| StairwayDocuments.RouteResponse | Data/modules/stairways/src/dataQuirks.js:68-87 | Own responses are ignored. Others go to the handler for their action, and to that handler only. |
| StairwayInjection.HasKeyAppend | Data/modules/stairways/src/injection.js:35-37 | A key is in a concatenation iff it is in one of the parts. |
| StairwayInjection.Get | Data/modules/stairways/src/injection.js:36 | No value iff the key is absent; a value found is stored under that key. |
| StairwayInjection.Put | Data/modules/stairways/src/injection.js:36-43 | A new key is appended at the end, and an existing key keeps the length. |
| StairwayInjection.PutGet | Data/modules/stairways/src/injection.js:36-43 | Reading back gives the stored value for that key and the old value for any other key. |
| StairwayInjection.PutInPlace | Data/modules/stairways/src/injection.js:36-43 | Overwriting a key keeps every key in place and leaves the other entries unchanged. |
| StairwayInjection.PutKeys | Data/modules/stairways/src/injection.js:36-43 | After writing a key, the keys present are the old keys plus that key. |
| StairwayInjection.WallsIndex | Data/modules/stairways/src/injection.js:39 | -1 iff there is no walls layer; otherwise the position of the walls layer. |
| StairwayInjection.InjectStep | Data/modules/stairways/src/injection.js:35-44 | One reduce step stores its entry, and at walls it also stores the stairway layer. |
| StairwayInjection.InjectLayers | Data/modules/stairways/src/injection.js:34-47 | The reduce over the original layers, one step per entry. Its properties are stated by InjectLayersInsertsAfterWalls, InjectLayersKeepsValues and InjectLayersKeys. |
| StairwayInjection.StairwaysAfterWalls | Data/modules/stairways/src/injection.js:39-44 | The intended layer list: the original one with the stairway layer right after walls. Its shape is stated by StairwaysAfterWallsShape and StairwaysAfterWallsWithoutWalls. |
| StairwayInjection.StairwaysAfterWallsWithoutWalls | Data/modules/stairways/src/injection.js:39-44 | Without a walls layer the layer list is unchanged. |
| StairwayInjection.StairwaysAfterWallsShape | Data/modules/stairways/src/injection.js:39-44 | With a walls layer exactly one entry is added: the stairway layer, right after walls; everything before and after is kept in order. |
| StairwayInjection.CanvasConfig.constructor | Data/modules/stairways/src/injection.js:34 | The configuration holds the given layers. |
| StairwayInjection.CanvasConfig.HookCanvas | Data/modules/stairways/src/injection.js:34-47 | The reduce loop leaves the layers as the injection specification defines them. |
| StairwayInjection.LastKeyIsNew | Data/modules/stairways/src/injection.js:35 | In a key-unique list, the last key does not occur before it. |
| StairwayInjection.WallsIndexAppend | Data/modules/stairways/src/injection.js:39 | Appending keeps the walls position, or finds walls at the new last entry. |
| StairwayInjection.InjectStepBeforeWalls | Data/modules/stairways/src/injection.js:35-44 | Before walls are seen, each step appends the entry, and at walls it adds stairways right after. |
| StairwayInjection.InjectStepAppends | Data/modules/stairways/src/injection.js:35-37 | After the insertion, a new key is appended at the end. |
| StairwayInjection.StairwaysAfterWallsAppend | Data/modules/stairways/src/injection.js:39-44 | The insertion after walls commutes with appending a later entry. |
| StairwayInjection.InjectStepAfterWalls | Data/modules/stairways/src/injection.js:35-44 | A step after walls preserves the inserted-after-walls shape. |
| StairwayInjection.InjectLayersInsertsAfterWalls | Data/modules/stairways/src/injection.js:34-47 | For unique keys without a stairways layer, the reduce gives the original layers in order with the stairways layer right after walls, or unchanged if there is no walls layer. |
| StairwayInjection.GetAppend | Data/modules/stairways/src/injection.js:36 | Reading a concatenation finds the first occurrence. |
| StairwayInjection.InjectStepGet | Data/modules/stairways/src/injection.js:35-44 | One step sets its own key and leaves every other key except stairways unchanged. |
| StairwayInjection.InjectLayersKeepsValues | Data/modules/stairways/src/injection.js:34-47 | Every layer other than stairways keeps its configuration. |
| StairwayInjection.InjectLayersKeys | Data/modules/stairways/src/injection.js:34-47 | The injected layers have exactly the original keys, plus stairways when there is a walls layer. |
| StairwayInjection.GetLayerByEmbeddedName | Data/modules/stairways/src/injection.js:62-69 | "Stairway" answers the stairway layer, and every other name goes to the original lookup. |
| StairwayInjection.WithStairwaysField | Data/modules/stairways/src/injection.js:92-101 | The stairways field is present afterwards and is set only if it was absent. Other fields are kept, and nothing else is added. |
| StairwayInjection.WithStairwaysFieldIdempotent | Data/modules/stairways/src/injection.js:95-98 | Injecting twice is the same as injecting once. |
| StairwayInjection.Schema.constructor | Data/modules/stairways/src/injection.js:93 | The schema holds the given fields. |
| StairwayInjection.Schema.InjectStairwaysField | Data/modules/stairways/src/injection.js:95-98 | The fields become the injected schema. |
| StairwayInjection.CopyStairwaysFromFlags | Data/modules/stairways/src/injection.js:26-29 | Every scene gets its stored flag list, or an empty list, and the flags are not changed. |
| OwnedItemEffects.SecondsPerUnit | Data/modules/active-effect-manager-lib/scripts/effects/effect-owned-item.js:164-179 | A month is 28 days and a year is 365 days. |
| OwnedItemEffects.GetDurationFromItem | Data/modules/active-effect-manager-lib/scripts/effects/effect-owned-item.js:152-195 | Passive gives nothing. Any other result sets exactly one field. No duration value gives one round. Calendar units give seconds by unit, "turn" and "round" pass the value through, and unknown units give one round. |
| OwnedItemEffects.EffectParent.constructor | Data/modules/active-effect-manager-lib/scripts/effects/effect-owned-item.js:80 | The parent holds its kind, its own parent's kind and its effects. |
| OwnedItemEffects.WithoutEffect | Data/modules/active-effect-manager-lib/scripts/effects/effect-owned-item.js:57 | Never longer than the input, and every kept effect is an input effect with another id. |
| OwnedItemEffects.WithoutEffectConcat | Data/modules/active-effect-manager-lib/scripts/effects/effect-owned-item.js:57 | The filter distributes over concatenation, so order is kept. |
| OwnedItemEffects.WithoutEffectSingle | Data/modules/active-effect-manager-lib/scripts/effects/effect-owned-item.js:57 | One effect is kept iff its id differs. |
| OwnedItemEffects.WithoutEffectKeepsOthers | Data/modules/active-effect-manager-lib/scripts/effects/effect-owned-item.js:57 | Every effect with another id survives. |
| OwnedItemEffects.DeleteEffect | Data/modules/active-effect-manager-lib/scripts/effects/effect-owned-item.js:48-73 | The parent's effects become the filtered list, and nothing else changes. |
| OwnedItemEffects.FindEffectIndex | Data/modules/active-effect-manager-lib/scripts/effects/effect-owned-item.js:89 | -1 iff no effect has the id; otherwise the first index with it. |
| OwnedItemEffects.SkipsUpdateAsWritten | Data/modules/active-effect-manager-lib/scripts/effects/effect-owned-item.js:82-85 | The guard as written never skips an item, and never skips a parent whose own parent is not an actor. |
| OwnedItemEffects.SkipsUpdate | Data/modules/active-effect-manager-lib/scripts/effects/effect-owned-item.js:82-85 | The corrected guard skips every parent that is not an item, and every parent not owned by an actor. |
| OwnedItemEffects.UnownedItemPassesGuardAsWritten | Data/modules/active-effect-manager-lib/scripts/effects/effect-owned-item.js:82-85 | The guard as written lets an item without an owning actor through; the corrected guard stops it. |
| OwnedItemEffects.SkipsUpdateIff | Data/modules/active-effect-manager-lib/scripts/effects/effect-owned-item.js:82-85 | The corrected guard proceeds iff the parent is an item owned by an actor. It skips whenever the guard as written skips, and the two differ exactly when the parent is not owned by an actor. |
| OwnedItemEffects.UpdatedEffects | Data/modules/active-effect-manager-lib/scripts/effects/effect-owned-item.js:87-96 | Keeps the length and leaves other effects unchanged; an absent id changes nothing. |
| OwnedItemEffects.UpdatedEffectsMergesTarget | Data/modules/active-effect-manager-lib/scripts/effects/effect-owned-item.js:89-96 | With unique ids, the effect with the id becomes the merge of it and the data. |
| OwnedItemEffects.UpdateEffect | Data/modules/active-effect-manager-lib/scripts/effects/effect-owned-item.js:78-132 | Uses the guard as written. A skipped parent keeps its effects and the call returns nothing. Otherwise the effects become the updated list. The call returns nothing for an absent id; for a present id it returns the effect when `this.transfer` is set and is rejected with a ReferenceError otherwise. Kinds are unchanged. |
| StatusEffects.Dedup | Data/modules/active-effect-manager-lib/scripts/api.js:34 | The result has no duplicates, the same names, and no more entries. |
| StatusEffects.DedupIdentity | Data/modules/active-effect-manager-lib/scripts/api.js:34 | A duplicate-free list is left as it is. |
| StatusEffects.DedupAppend | Data/modules/active-effect-manager-lib/scripts/api.js:31-36 | Adding a name to a duplicate-free list appends it unless it is present. |
| StatusEffects.WithoutName | Data/modules/active-effect-manager-lib/scripts/api.js:44 | A name remains iff it was stored and differs from the removed one. |
| StatusEffects.WithoutAbsentName | Data/modules/active-effect-manager-lib/scripts/api.js:44 | Removing an absent name changes nothing. |
| StatusEffects.WithoutNameConcat | Data/modules/active-effect-manager-lib/scripts/api.js:44 | The filter distributes over concatenation, so order is kept. |
| StatusEffects.WithoutNameNoDuplicates | Data/modules/active-effect-manager-lib/scripts/api.js:44 | Removal keeps a duplicate-free list duplicate-free. |
| StatusEffects.StatusEffectSettings.constructor | Data/modules/active-effect-manager-lib/scripts/api.js:22-24 | The settings hold the given names. |
| StatusEffects.StatusEffectSettings.IsStatusEffect | Data/modules/active-effect-manager-lib/scripts/api.js:61-63 | Membership in the stored names. Its behaviour across changes is stated by AddStatusEffect, RemoveStatusEffect and ResetStatusEffects. |
| StatusEffects.StatusEffectSettings.AddStatusEffect | Data/modules/active-effect-manager-lib/scripts/api.js:31-36 | The name becomes a status effect and the list stays duplicate-free. A name is a status effect afterwards iff it is the added one or was one before. |
| StatusEffects.StatusEffectSettings.RemoveStatusEffect | Data/modules/active-effect-manager-lib/scripts/api.js:43-46 | The name is no longer a status effect, and every other name keeps its status. |
| StatusEffects.StatusEffectSettings.ResetStatusEffects | Data/modules/active-effect-manager-lib/scripts/api.js:12-16 | The defaults are stored, and they name no status effect. |
| FoundryHelpers.ActorUuidsOf | Data/modules/active-effect-manager-lib/scripts/effects/foundry-helpers.js:42 | One entry per token: that token's actor UUID. |
| FoundryHelpers.GetActorUuids | Data/modules/active-effect-manager-lib/scripts/effects/foundry-helpers.js:32-47 | Empty iff there are no controlled tokens, no targets and no character. Prioritised non-empty targets give the targets' actors; else controlled tokens give theirs; else the character. |
| FoundryHelpers.GetActorUuidsFromCanvas | Data/modules/active-effect-manager-lib/scripts/effects/foundry-helpers.js:15-24 | One entry per controlled token. |
| FoundryHelpers.FromCanvasIgnoresTargets | Data/modules/active-effect-manager-lib/scripts/effects/foundry-helpers.js:15-24 | The early return is redundant: the result is always the controlled tokens' actors, whatever the targets. |
| FoundryHelpers.GetActorByUuid | Data/modules/active-effect-manager-lib/scripts/effects/foundry-helpers.js:54-63 | A found document with an actor gives that actor. A found document without one gives the document itself. A missing document falls back to the world actor lookup. |
| FoundryHelpers.Split | Data/modules/active-effect-manager-lib/scripts/effects/foundry-helpers.js:77 | At least one piece, no piece contains the separator, and joining the pieces gives back the string. |
| FoundryHelpers.JoinCons | Data/modules/active-effect-manager-lib/scripts/effects/foundry-helpers.js:77 | Joining a head onto a non-empty list puts one separator between them. |
| FoundryHelpers.SplitJoin | Data/modules/active-effect-manager-lib/scripts/effects/foundry-helpers.js:77 | Splitting a join of separator-free pieces gives the pieces back. |
| FoundryHelpers.SplitFree | Data/modules/active-effect-manager-lib/scripts/effects/foundry-helpers.js:77 | A string without the separator splits into itself. |
| FoundryHelpers.PartAsString | Data/modules/active-effect-manager-lib/scripts/effects/foundry-helpers.js:80 | A piece in range is itself, and one out of range reads as "undefined". |
| FoundryHelpers.Part | Data/modules/active-effect-manager-lib/scripts/effects/foundry-helpers.js:82 | A piece is present iff its index is in range. |
| FoundryHelpers.PackKey | Data/modules/active-effect-manager-lib/scripts/effects/foundry-helpers.js:80 | With three or more pieces, the key is scope "." pack. |
| FoundryHelpers.UuidToDocument | Data/modules/active-effect-manager-lib/scripts/effects/foundry-helpers.js:76-92 | It throws exactly when the lookup gives null, with the not-found message, and never returns null. A non-compendium UUID goes through `fromUuid`. |
| FoundryHelpers.CompendiumUuid | Data/modules/active-effect-manager-lib/scripts/effects/foundry-helpers.js:79-84 | `Compendium.scope.pack.id` looks up document id in pack "scope.pack"; a missing pack throws. |
| FoundryHelpers.GetTokenByUuid | Data/modules/active-effect-manager-lib/scripts/effects/foundry-helpers.js:99-104 | Nothing iff no token matches by UUID or id; otherwise the first match. |
| Pf1Inspector.FilterData | Data/modules/data-inspector/systems/pf1.mjs:42-74 | A path is hidden iff the user is not a GM, the mode is not roll data, the document is an unidentified item of a secret type, and the path is one of the secret paths. |
| Pf1Inspector.TypeSubtypeKey | Data/modules/data-inspector/systems/pf1.mjs:23-33 | Only weapons, spells and equipment copy an extra subtype key. |
| Pf1Inspector.Supplemented | Data/modules/data-inspector/systems/pf1.mjs:9-35 | Non-items are unchanged. Items get `subType` and their type's subtype key copied from the document, with absent keys read as undefined. Nothing else is changed or added. |
| Pf1Inspector.SupplementedIdempotent | Data/modules/data-inspector/systems/pf1.mjs:9-35 | Supplementing twice is the same as once. |
| Pf1Inspector.TemporaryData.constructor | Data/modules/data-inspector/systems/pf1.mjs:9 | The temporary data holds the given system data. |
| Pf1Inspector.SupplementTemporaryData | Data/modules/data-inspector/systems/pf1.mjs:9-35 | The temporary data's system becomes the supplemented one. |

## Left out

- EVLighting.PerpendicularPoint: proves only that equal endpoints give no foot, not the converse. The converse needs nonlinear real arithmetic that the solver does not decide reliably. `EVLighting.FootIsOrthogonal` states the geometry for distinct endpoints.
- EVLighting.LightUniforms.UpdateEVLightUniforms: requires a non-zero radius. The source divides by the radius, and JavaScript's `Infinity` and `NaN` are not modelled.
- Polygon clipping, shadow construction, the wall-constrained token border, the line-of-sight sweep and the boundary-breach test: these are Foundry or library geometry. They enter the model as function-valued parameters (`Clipper`, `ShadowOracle`, `losAt`).
- Square roots, trigonometry, `smoothstep`, `locationInWallShadow` and the ray–quad intersection of the shader: they enter as inputs (the smoothed depth, the per-wall hit distances).
- Debug drawing, settings lookup, notifications, console logging and localisation are not modelled.
- Persistence is modelled as its effect on state: `scene.update`, `game.settings.set` and `embeddedItem.update`. Promises are modelled by their outcome. The broadcast `game.socket.emit` at `dataQuirks.js:60` is not modelled: it only notifies other clients and changes no state here.
- The database-backend handlers that a remote response is routed to are not part of this model.
- `foundry.utils.mergeObject` and `foundry.utils.randomID` are parameters of the model, so their own behaviour is not modelled.
- The stairways metadata merge (`injection.js:72-83`) and the `Canvas.layers` getter workaround (`injection.js:49-59`) are left out. The ControlsLayer and TokenLayer hooks are left out too. All of these patch Foundry internals whose behaviour is not part of this model.
- The order of JavaScript object keys is modelled as insertion order. Integer-like keys, which JavaScript lists first, are not modelled.
- `transferToActor` and `ActiveEffect.create` are not modelled. Neither are `_preDelete`, `_onDelete`, `_preUpdate`, `_onUpdate`, `diffObject` and the sheet render: they are Foundry lifecycle calls.
- The undeclared identifier `transfer` at `effect-owned-item.js:128` raises a ReferenceError whenever `this.transfer` is false, after the update is persisted. The promise `update` returns is then rejected. `OwnedItemEffects.UpdateEffect` models this outcome as `RejectedReferenceError`; the notifications themselves are not modelled.
- OwnedItemEffects.UpdateEffect: models one pass of the update. At `effect-owned-item.js:121` the method calls itself again with the diff, without awaiting it and without any bound, so each call starts another; that unbounded recursion is not modelled.
- OwnedItemEffects.UpdateEffect: follows the guard as written (`SkipsUpdateAsWritten`), so an item with no owning actor is updated; the corrected guard `SkipsUpdate` is stated separately (see Findings).
- TokenVisibility.HolesFor: follows the hole test as written (`DrawingCutsTileAsWritten`), so a drawing with one flag set and the other never set is not a hole; the intended test `DrawingCutsTile` is stated separately (see Findings). `CombineTilesWithDrawingHoles` uses the same test.
- TokenVisibility.CombineTilesWithDrawingHoles: stores the corrected tile rectangle in each tile, not the polygon as written at `Area2d.js:258`; the polygon as written is `TilePolygonAsWritten` (see Findings).
- TokenVisibility.PlanLos and TokenVisibility.ShadowLOSForElevation: `Area3d.filterSceneObjectsByVisionPolygon` is not part of this model. Its token result is the `tokens` parameter when tokens block, and is taken to be empty when they do not (`filterTokens: tokensBlock` at `Area2d.js:439`).
- StairwayDocuments.UpdateEntries: the result of an update request holds references to the merged objects. The model records the positions of those objects and reads them in the final list, which is what the shared references show; aliasing in general is not modelled.
- EVLighting: all shader and JavaScript arithmetic is modelled over the reals, not over GLSL or JavaScript floating point. `CircleCoordRoundTrip`, `PointCircleCoordRoundTrip`, `Orient2dExchange` and `LineSegmentIntersectsSymmetric` hold exactly only over the reals; rounding can break them for floats.
- EVLighting.PerpendicularPoint: the squared length uses the dot product where the shader calls `pow(x, 2.0)`. GLSL leaves `pow` undefined for a negative base, so the model gives the intended square, not the shader's undefined value.
- OwnedItemEffects.DeleteEffect: assumes the effect has a parent. Without one, the source's loop over `undefined` throws.
- `canvas.tokens` and `game.user` are assumed present in the helpers and the inspector. `canvas.tokens?.placeables` may be undefined in the source, and that case is not modelled.
- Item durations use JavaScript truthiness: a zero or absent value means no duration. `NaN` is not modelled.
- The segment-intersection test counts a shared endpoint as an intersection, because it uses `<= 0`. The final line-of-sight comparison accepts a percentage within epsilon of the threshold. The model follows the code in both cases, where a prose description could read as strict.

## Findings

| source | as written | input that shows it | evidently intended | confidence | as-written member | corrected member |
|---|---|---|---|---|---|---|
| Data/modules/tokenvisibility/scripts/Area2d.js:258 | The third corner of the tile polygon is `x + width, y + width`. | A tile at (0, 0) of width 2 and height 1: the polygon has twice-area 6 instead of 4. | `x + width, y + height`: the tile's rectangle. | high; not executed | TokenVisibility.TilePolygonAsWrittenCounterexample | TokenVisibility.TilePolygon |
| Data/modules/tokenvisibility/scripts/Area2d.js:280-283 | An unset flag passes the `== null` tests only when the other flag is also unset or null; otherwise it reaches `between`, where `undefined` becomes `NaN` and every comparison fails. | A drawing with `rangeTop` 5 and no `rangeBottom` flag, and a tile at elevation 5: not a hole, although with `rangeBottom` null it is. | An unset flag behaves like null, as the comment on the first test says. | medium; not executed | TokenVisibility.DrawingCutsTileAsWrittenCounterexample | TokenVisibility.DrawingCutsTile |
| Data/modules/active-effect-manager-lib/scripts/effects/effect-owned-item.js:82-85 | The guard skips only when the parent is not an Item and that parent's parent is an Actor. `OwnedItemEffects.UpdateEffect` follows this guard as written. | An effect on a world Item with no owning Actor passes the guard and is updated, although the message says non-owned item effects are rejected. | Skip unless the parent is an Item owned by an Actor. | medium; not executed | OwnedItemEffects.UnownedItemPassesGuardAsWritten | OwnedItemEffects.SkipsUpdate |
