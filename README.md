# plyMapEd editor core in Dafny

plyMapEd is a Unity editor extension for building levels from prefabs. This
project models its core: the prefab browser window, its settings, the
thumbnail generator's camera placement, the grid and snap arithmetic of the
transform tool, the model-to-prefab maker, and the two list controls the
browser's tiles live in. Each source file becomes one Dafny module:

| module | file | models |
|---|---|---|
| `Options` | `options.dfy` | `Option<T>`, standing in for C# `null` |
| `Vectors` | `vectors.dfy` | Unity's `Vector3` over `real`: dot, cross, magnitude and their algebra |
| `Boxes` | `boxes.dfy` | `Bounds`: padding, the eight corners, the bounds of all enabled renderers |
| `IconCamera` | `camera.dfy` | `MapEdIconsGen`'s camera placement: outermost corners, plane intersections, closest points on two lines, the orthographic and perspective fits |
| `TransformTool` | `transformtool.dfy` | `MapEdTransformTool`: `Mathf.Round`, value snapping, the modifier-key fraction, the grid level and the tool's state |
| `Paths` | `paths.dfy` | the string and path helpers the window and the prefab maker use (`Split`, `GetLastDirInPath`, relative/root paths, `Path.*`) |
| `Thumbs` | `thumbitem.dfy` | `ThumbItem`, one tile: its status glyph, its thumbnail and the textures it destroys |
| `GroupedView` | `groupedview.dfy` | `GroupedItemsView`, a list of foldout groups of tiles |
| `Settings` | `settings.dfy` | `MapEdSettings`: per-project preference keys, load on `Init`, setters that persist and raise events, the colour codec |
| `FabMaker` | `fabmaker.dfy` | `MapEdFabMakerWindow`: `CheckPath`, the model-to-prefab path mapping, `Process`, the buttons |
| `Window` | `window.dfy` | `MapEdWindow`: the folder tree walk, the folders drop-down, the de-duplicated guid list, the tile groups, the generator callbacks |

Code that computes values (path helpers, snapping, camera geometry) is
written as functions with lemmas. Code that updates objects is written as
classes whose methods have `modifies` clauses and contracts stating the new
state: `ThumbItem`, `GroupedItemsView`, `Foldout`, `MapEdSettings`,
`MapEdWindow`, `MapEdFabMakerWindow`, the transform tool and the render camera.
`MapEdSettings` keeps all of its state in static fields, and the transform tool
keeps its grid level and rotation in static fields. Here each is one object,
which the window and the tool's callers are given.

The environment becomes parameters:
- the asset database's folder tree is a `Folder` value;
- `AssetDatabase.FindAssets` and `GUIDToAssetPath` are the functions `findAssets` and `assetPath`;
- the folder panel's answer is an argument, and so is the hit of a ray cast;
- `EditorPrefs` is a map from key to typed value;
- float formatting and parsing are a `fmt`/`parse` pair of functions.

The thumbnail generator is a request record. The window stores the last
request it made (`lastRequest`), and the generator's answers arrive
through `OnThumbGenerated` and `OnThumbsGenCompleted`. Geometry uses `real`.
The camera's orientation (its right, up and forward axes) and the sine and
cosine of half the field of view are inputs, so no trigonometry is modelled.

One behaviour of the code looks unintended: the prefab maker's labels do
not show a root kept from an earlier session (see Findings).

## Model

| member | source | states |
|---|---|---|
| Boxes.Pad | Assets/Plugins/plyMapEd/Editor/MapEdIconsGen.cs:261-262 | padding keeps the centre and scales the extents by 1 + 2·padding; a zero padding leaves the box as it was |
| Boxes.PadContains | Assets/Plugins/plyMapEd/Editor/MapEdIconsGen.cs:261-262 | with a non-negative padding the padded box contains the original one |
| Boxes.Encapsulate | Assets/Plugins/plyMapEd/Editor/MapEdIconsGen.cs:246 | Bounds.Encapsulate grows the box by the other box's two corners, so the result reaches below both minima and above both maxima |
| Boxes.EncapsulateIsUnion | Assets/Plugins/plyMapEd/Editor/MapEdIconsGen.cs:244-246 | encapsulating a box gives a well-formed box whose min/max are the componentwise min/max of the two |
| Boxes.Corners | Assets/Plugins/plyMapEd/Editor/MapEdIconsGen.cs:264-284 | eight points, the i-th being the centre plus the extents with the i-th sign pattern |
| Boxes.CornerSigns | Assets/Plugins/plyMapEd/Editor/MapEdIconsGen.cs:266-284 | the eight sign patterns are ±1 in every axis and pairwise different, so the corners are all eight combinations |
| Boxes.CornerOpposite | Assets/Plugins/plyMapEd/Editor/MapEdIconsGen.cs:266-284 | each corner and its opposite corner average to the centre |
| Boxes.CornersInside | Assets/Plugins/plyMapEd/Editor/MapEdIconsGen.cs:266-284 | every corner lies within the box's min and max |
| Boxes.FillCorners | Assets/Plugins/plyMapEd/Editor/MapEdIconsGen.cs:264-284 | the array written in place holds exactly the eight corners |
| Boxes.CalculateBounds | Assets/Plugins/plyMapEd/Editor/MapEdIconsGen.cs:228-250 | returns true iff some renderer is enabled, with the union of the enabled renderers' boxes; otherwise the zero box |
| Boxes.CombinedNone | Assets/Plugins/plyMapEd/Editor/MapEdIconsGen.cs:228-250 | the combination is absent exactly when no renderer is enabled |
| Boxes.CombinedIsUnion | Assets/Plugins/plyMapEd/Editor/MapEdIconsGen.cs:228-250 | the combined box contains every enabled box, and each of its faces is attained by one of them, so it is the smallest such box |
| IconCamera.OutermostIsMaximal | Assets/Plugins/plyMapEd/Editor/MapEdIconsGen.cs:344-354 | a point is outermost in a direction iff its dot product with that direction is maximal over the point set |
| IconCamera.IsOutermostPointInDirection | Assets/Plugins/plyMapEd/Editor/MapEdIconsGen.cs:344-354 | the loop returns true iff no other point lies farther in the direction |
| IconCamera.FirstOutermostBelowSpec | Assets/Plugins/plyMapEd/Editor/MapEdIconsGen.cs:325-332 | the search result is -1 iff no index below n is outermost, and otherwise the lowest outermost index |
| IconCamera.FirstOutermostFound | Assets/Plugins/plyMapEd/Editor/MapEdIconsGen.cs:325-335 | on a non-empty point set the search always finds an in-range index of an outermost point, so the four indices used later exist |
| IconCamera.FindExtremes | Assets/Plugins/plyMapEd/Editor/MapEdIconsGen.cs:325-332 | the loop finds the first outermost corner for each of the four frustum normals |
| IconCamera.PlaneThrough | Assets/Plugins/plyMapEd/Editor/MapEdIconsGen.cs:334-335 | a plane built from a normal and a point keeps the normal, has the point at signed distance zero, and measures any point's distance along the normal from that point |
| IconCamera.GetPlanesIntersection | Assets/Plugins/plyMapEd/Editor/MapEdIconsGen.cs:357-364 | the line's origin lies on both planes and its direction, the cross product of the normals, is orthogonal to both normals |
| IconCamera.IntersectionOnPlanes | Assets/Plugins/plyMapEd/Editor/MapEdIconsGen.cs:360-363 | the closed-form origin satisfies both plane equations |
| IconCamera.FindClosestPointsOnTwoLines | Assets/Plugins/plyMapEd/Editor/MapEdIconsGen.cs:367-388 | each returned point lies on its own line, and their difference is orthogonal to both directions |
| IconCamera.LineParameters | Assets/Plugins/plyMapEd/Editor/MapEdIconsGen.cs:373-384 | the two line parameters solve the normal equations of the closest-points problem |
| IconCamera.ClosestPointsOrthogonal | Assets/Plugins/plyMapEd/Editor/MapEdIconsGen.cs:373-387 | the dot product of each direction with the segment joining the two line points is the corresponding normal-equation expression in the parameters |
| IconCamera.LineOnPlane | Assets/Plugins/plyMapEd/Editor/MapEdIconsGen.cs:357-364 | every point of an intersection line lies on both planes |
| IconCamera.FrameOrthogonal | Assets/Plugins/plyMapEd/Editor/MapEdIconsGen.cs:257-258 | the camera's right, up and forward axes are pairwise orthogonal |
| IconCamera.NormalsUnit | Assets/Plugins/plyMapEd/Editor/MapEdIconsGen.cs:314-317 | the four frustum normals are unit vectors |
| IconCamera.FrustumEdges | Assets/Plugins/plyMapEd/Editor/MapEdIconsGen.cs:334-335 | the left/right cross product is the camera's down axis and the top/bottom one its right axis, each scaled by a non-zero factor, so both plane intersections are defined |
| IconCamera.EdgesNotParallel | Assets/Plugins/plyMapEd/Editor/MapEdIconsGen.cs:337 | the two intersection directions are orthogonal and their closest-points determinant is positive, so the closest points are defined |
| IconCamera.PerspectiveLines | Assets/Plugins/plyMapEd/Editor/MapEdIconsGen.cs:334-335 | the horizontal intersection runs along the camera's up axis and the vertical one along its right axis |
| IconCamera.FartherBack | Assets/Plugins/plyMapEd/Editor/MapEdIconsGen.cs:339 | the choice is one of the two points and lies no farther forward than either; it is the first iff that one is strictly farther back or they are equal |
| IconCamera.OutermostBoundsAll | Assets/Plugins/plyMapEd/Editor/MapEdIconsGen.cs:325-335 | every corner lies on the inner side of a plane through the outermost corner for that normal |
| IconCamera.LinesFit | Assets/Plugins/plyMapEd/Editor/MapEdIconsGen.cs:334-337 | from any point of the horizontal line every corner is inside the left and right planes, and from the vertical line inside the top and bottom planes |
| IconCamera.PerspectiveFits | Assets/Plugins/plyMapEd/Editor/MapEdIconsGen.cs:306-340 | every corner is inside the perspective camera's frustum at the chosen position |
| IconCamera.LocalPoints | Assets/Plugins/plyMapEd/Editor/MapEdIconsGen.cs:292-293 | the loop converts every corner to the camera's local coordinates |
| IconCamera.ExtentsBelowSpec | Assets/Plugins/plyMapEd/Editor/MapEdIconsGen.cs:290-300 | the running min/max bound every local x and y seen so far and are attained by some corner |
| IconCamera.LocalExtents | Assets/Plugins/plyMapEd/Editor/MapEdIconsGen.cs:290-300 | the loop computes the min/max of the corners' local x and y |
| IconCamera.OrthographicSize | Assets/Plugins/plyMapEd/Editor/MapEdIconsGen.cs:303 | twice the size covers the height, twice the size times the aspect covers the width, and one of the two is tight |
| IconCamera.OrthographicFits | Assets/Plugins/plyMapEd/Editor/MapEdIconsGen.cs:286-305 | every corner lies within the orthographic view volume from the chosen position |
| IconCamera.RenderCamera.constructor | Assets/Plugins/plyMapEd/Editor/MapEdIconsGen.cs:252-259 | a camera with the given frame, field of view, aspect and projection |
| IconCamera.CalculateCameraPosition | Assets/Plugins/plyMapEd/Editor/MapEdIconsGen.cs:252-341 | computes the padded box's corners; orthographic: behind the centre by the extents' length plus one, with all corners in view; perspective: at the chosen intersection point, with all corners in the frustum |
| IconCamera.PlaceOrthographic | Assets/Plugins/plyMapEd/Editor/MapEdIconsGen.cs:286-305 | places the camera behind the centre by the extents' length plus one, with the size from the local extents, and every corner is in the orthographic view |
| IconCamera.PlacePerspective | Assets/Plugins/plyMapEd/Editor/MapEdIconsGen.cs:306-340 | sets the position to the intersection-line point farther back, and every corner is in the frustum |
| IconCamera.FindPerspectiveLines | Assets/Plugins/plyMapEd/Editor/MapEdIconsGen.cs:325-335 | returns the two intersection lines through the first outermost corners |
| TransformTool.Round | Assets/Plugins/plyMapEd/Editor/MapEdTransformTool.cs:407-408 | Mathf.Round: an integer within one half of x, the even one on a tie |
| TransformTool.RoundUnique | Assets/Plugins/plyMapEd/Editor/MapEdTransformTool.cs:407-408 | any integer within one half of x that is even on a tie equals Round(x) |
| TransformTool.SnapToCell | Assets/Plugins/plyMapEd/Editor/MapEdTransformTool.cs:371 | snapping to a cell (round the quotient, multiply back) gives an integer multiple of the cell within half a cell of the value |
| TransformTool.NearestMultiple | Assets/Plugins/plyMapEd/Editor/MapEdTransformTool.cs:371 | any multiple whose quotient rounds within one half stays within half a cell of the value |
| TransformTool.CalculateSnappedValue | Assets/Plugins/plyMapEd/Editor/MapEdTransformTool.cs:194-207 | no snap gives (value, 0); a value within one snap gives (0, 0); otherwise a non-zero multiple of the snap with the value's sign, where the multiple's size plus the remainder is the value's size and 0 ≤ remainder < snap |
| TransformTool.SnappedMultiple | Assets/Plugins/plyMapEd/Editor/MapEdTransformTool.cs:202-203 | snap times sign times a whole count is a non-zero multiple of the snap with the value's sign and size snap times count |
| TransformTool.SnapFraction | Assets/Plugins/plyMapEd/Editor/MapEdTransformTool.cs:342-349 | a quarter step iff shift, control and alt are all held; a half step iff control is held without both shift and alt; a whole step iff control is not held |
| TransformTool.SnappedDelta | Assets/Plugins/plyMapEd/Editor/MapEdTransformTool.cs:351-354 | each component of the move is a multiple of the step and no larger than the handle's move; with no step the handle's move is taken as is |
| TransformTool.PreviewPosition | Assets/Plugins/plyMapEd/Editor/MapEdTransformTool.cs:403-409 | the preview sits at the grid level, with x and z multiples of the step within half a step of the hit |
| TransformTool.GridPosition | Assets/Plugins/plyMapEd/Editor/MapEdTransformTool.cs:371 | the grid is placed on a cell in x and z at the grid level |
| TransformTool.NextGridLevel | Assets/Plugins/plyMapEd/Editor/MapEdTransformTool.cs:488-512 | the new grid level of ChangeGridLevel; in mode 0 it is always a whole multiple of the cell size |
| TransformTool.NextGridLevelModes | Assets/Plugins/plyMapEd/Editor/MapEdTransformTool.cs:488-510 | mode 0 moves by a whole cell and lands on a cell multiple within half a cell of that; modes 1 and 2 add half and a quarter of a cell; other modes leave the level alone |
| TransformTool.WholeStepsReturn | Assets/Plugins/plyMapEd/Editor/MapEdTransformTool.cs:492-498 | one whole step up and one down return a level on a multiple to where it was |
| TransformTool.SnapOnMultiple | Assets/Plugins/plyMapEd/Editor/MapEdTransformTool.cs:497 | snapping a level already on a multiple of the cell leaves it unchanged |
| TransformTool.GridPlaneHeight | Assets/Plugins/plyMapEd/Editor/MapEdTransformTool.cs:510-512 | the placement plane at a level points up and measures a point's height above that level |
| TransformTool.Tool.constructor | Assets/Plugins/plyMapEd/Editor/MapEdTransformTool.cs:443-448 | a fresh tool has level 0, rotation 0 and no grid; its plane is the level-0 plane ShowGrid sets before any placement reads it |
| TransformTool.Tool.RotateObjects | Assets/Plugins/plyMapEd/Editor/MapEdTransformTool.cs:175-192 | the accumulator grows by rotate snap times the fraction even when nothing is turned; when the tool is active every selected object's yaw grows by the same amount, and the grid state is untouched |
| TransformTool.Tool.ResetRotation | Assets/Plugins/plyMapEd/Editor/MapEdTransformTool.cs:159-173 | the accumulator is cleared even when inactive; when active every selected yaw becomes zero |
| TransformTool.Tool.ResetGridLevel | Assets/Plugins/plyMapEd/Editor/MapEdTransformTool.cs:475-486 | the level, the plane and a shown grid all go back to height 0 |
| TransformTool.Tool.ChangeGridLevel | Assets/Plugins/plyMapEd/Editor/MapEdTransformTool.cs:488-520 | the level moves as the mode says, and the plane and grid follow it |
| TransformTool.Tool.MoveSelectedObjects | Assets/Plugins/plyMapEd/Editor/MapEdTransformTool.cs:326-374 | when the handle moved, every selected object moves by the handle's move snapped to the modifier-scaled step; on a repaint with a positive snap a shown grid moves to the cell under the mouse ray |
| TransformTool.Tool.MovePreviewObject | Assets/Plugins/plyMapEd/Editor/MapEdTransformTool.cs:376-423 | on a hit the preview moves to the snapped position at the grid level, otherwise it stays; on a repaint a shown grid moves to the cell under the mouse ray |
| TransformTool.MoveAll | Assets/Plugins/plyMapEd/Editor/MapEdTransformTool.cs:358-361 | every position in the array is shifted by the same delta |
| Paths.Split | Assets/Plugins/plyMapEd/Editor/MapEdWindow.cs:386 | string.Split yields at least one part |
| Paths.JoinSplit | Assets/Plugins/plyMapEd/Editor/MapEdWindow.cs:386 | joining the parts of a split with the separator gives the string back |
| Paths.SplitJoin | Assets/Plugins/plyMapEd/Editor/MapEdWindow.cs:386 | splitting a join of separator-free parts gives the parts back |
| Paths.NonEmpty | Assets/Plugins/plyMapEd/Editor/MapEdWindow.cs:386 | removing empty entries keeps every non-empty part, in order, and nothing else |
| Paths.NonEmptyConcat | Assets/Plugins/plyMapEd/Editor/MapEdWindow.cs:386 | removing empty entries from two joined lists is removing them from each and joining, so the order of the parts is kept |
| Paths.NonEmptySingle | Assets/Plugins/plyMapEd/Editor/MapEdWindow.cs:386 | a single non-empty part is kept unchanged |
| Paths.GetLastDirInPath | Assets/Plugins/plyMapEd/Editor/MapEdWindow.cs:384-388 | the last directory is one of the path's non-empty '/'-segments, so it is non-empty and has no '/' |
| Paths.LastDirShape | Assets/Plugins/plyMapEd/Editor/MapEdWindow.cs:384-388 | the last directory is non-empty, has no '/', and ends the path (trailing slashes removed) right after a '/' or at its start |
| Paths.LastDirTrailingSlash | Assets/Plugins/plyMapEd/Editor/MapEdWindow.cs:384-388 | a trailing slash does not change the last directory |
| Paths.FullPathToRelativePath | Assets/Plugins/plyMapEd/Editor/MapEdWindow.cs:379-382 | the result starts with "Assets", and the data path followed by the rest of it is the full path |
| Paths.GetProjectRootPath | Assets/Plugins/plyMapEd/Editor/MapEdWindow.cs:390-394 | the data path minus its last seven characters; for a data path ending in "/Assets" the root followed by "/Assets" is the data path |
| Paths.RelativePathRoundTrip | Assets/Plugins/plyMapEd/Editor/MapEdWindow.cs:379-394 | the project root, a slash and the relative path give back the full path |
| Paths.Replace | Assets/Plugins/plyMapEd/Editor/MapEdFabMakerWindow.cs:157 | every occurrence of the character is replaced and every other character kept in place |
| Paths.ReplaceConcat | Assets/Plugins/plyMapEd/Editor/MapEdFabMakerWindow.cs:157 | replacement distributes over concatenation |
| Paths.ReplaceAbsent | Assets/Plugins/plyMapEd/Editor/MapEdFabMakerWindow.cs:157 | a string without the character is left unchanged |
| Paths.GetFileName | Assets/Plugins/plyMapEd/Editor/MapEdWindow.cs:396-400 | Path.GetFileName: a suffix of the path with no separator in it |
| Paths.GetFileNameWithoutExtension | Assets/Plugins/plyMapEd/Editor/MapEdWindow.cs:396-400 | a prefix of the file name, with no separator in it |
| Paths.FileNameWithoutExtensionParts | Assets/Plugins/plyMapEd/Editor/MapEdWindow.cs:396-400 | only the last '.' of the file name and what follows it are dropped: a name without '.' is returned whole, any other is the result, a '.' and an extension with no '.' in it |
| Paths.GetDirectoryName | Assets/Plugins/plyMapEd/Editor/MapEdFabMakerWindow.cs:155-156 | Path.GetDirectoryName: the path before its last separator, which the separator and the file name follow; with no separator, empty, and the file name is the whole path |
| Paths.PathConcat | Assets/Plugins/plyMapEd/Editor/MapEdFabMakerWindow.cs:155-157 | putting a prefix before a path that has a separator keeps its file name and its name without extension, and prefixes its directory |
| Thumbs.Third | Assets/Plugins/plyMapEd/Editor/Controls/ThumbItem.cs:153 | C# integer division by 3, truncating toward zero for both signs |
| Thumbs.ThumbItem.Empty | Assets/Plugins/plyMapEd/Editor/Controls/ThumbItem.cs:34-43 | a 50-wide tile with an empty visible label, no glyphs, no status and no thumbnail |
| Thumbs.ThumbItem.WithIcons | Assets/Plugins/plyMapEd/Editor/Controls/ThumbItem.cs:45-47 | a tile with the given glyphs and a hidden label, showing the loading glyph |
| Thumbs.ThumbItem.constructor | Assets/Plugins/plyMapEd/Editor/Controls/ThumbItem.cs:49-66 | a tile showing its loading glyph at a third of its size, with no thumbnail; the label is visible iff a text is given, and then shows it |
| Thumbs.ThumbItem.Dispose | Assets/Plugins/plyMapEd/Editor/Controls/ThumbItem.cs:68-72 | the status and the thumbnail are removed, an owned thumbnail is destroyed, and every other field is kept: the new state is Disposed() of the old |
| Thumbs.DisposedTwice | Assets/Plugins/plyMapEd/Editor/Controls/ThumbItem.cs:68-72 | disposing a tile a second time changes nothing, since nothing is left to hide or destroy |
| Thumbs.ThumbItem.SetSize | Assets/Plugins/plyMapEd/Editor/Controls/ThumbItem.cs:74-81 | width, height and size become the new size, a shown glyph is resized to a third of it, and what the tile shows is kept: the new state is Resized(s) of the old |
| Thumbs.ResizedTwice | Assets/Plugins/plyMapEd/Editor/Controls/ThumbItem.cs:74-81 | resizing a tile a second time to the same size changes nothing |
| Thumbs.ThumbItem.ShowThumb | Assets/Plugins/plyMapEd/Editor/Controls/ThumbItem.cs:83-122 | with a texture, the thumbnail is shown and the status hidden; without one, the error glyph is shown; hiding removes the thumbnail; an owned old texture is destroyed first; the new state is Shown(texture) or Unshown() of the old, every other field kept |
| Thumbs.ShownAgain | Assets/Plugins/plyMapEd/Editor/Controls/ThumbItem.cs:83-122 | showing a texture n times leaves the state of showing it once, except that an owned texture is logged as destroyed once more each further time |
| Thumbs.ThumbItem.HideStatus | Assets/Plugins/plyMapEd/Editor/Controls/ThumbItem.cs:124-131 | the status glyph is gone and nothing else changes |
| Thumbs.ThumbItem.ShowStatus | Assets/Plugins/plyMapEd/Editor/Controls/ThumbItem.cs:133-147 | the glyph is shown at a third of the size and any thumbnail is removed, so the two are never shown together; the new state is Flagged(ico) of the old |
| Thumbs.FlaggedTwice | Assets/Plugins/plyMapEd/Editor/Controls/ThumbItem.cs:133-147 | showing the same glyph a second time changes nothing |
| Thumbs.ThumbItem.UpdateContentSize | Assets/Plugins/plyMapEd/Editor/Controls/ThumbItem.cs:149-156 | the status font size becomes a third of the tile size when a status is shown |
| GroupedView.Foldout.constructor | Assets/Plugins/plyMapEd/Editor/Controls/GroupedItemsView.cs:49 | a group with the given title and open state and no items |
| GroupedView.ConcatMembers | Assets/Plugins/plyMapEd/Editor/Controls/GroupedItemsView.cs:115-127 | an item is in the flattened list iff it is in some group |
| GroupedView.GroupItemsIn | Assets/Plugins/plyMapEd/Editor/Controls/GroupedItemsView.cs:115-127 | every group's items are in the flattened list |
| GroupedView.GroupedItemsView.Default | Assets/Plugins/plyMapEd/Editor/Controls/GroupedItemsView.cs:28-30 | an empty view with item size 120 that neither expands new groups nor owns textures |
| GroupedView.GroupedItemsView.constructor | Assets/Plugins/plyMapEd/Editor/Controls/GroupedItemsView.cs:32-40 | an empty view with the given item size |
| GroupedView.GroupedItemsView.AddGroup | Assets/Plugins/plyMapEd/Editor/Controls/GroupedItemsView.cs:47-62 | a fresh empty group with the given title is appended and returned, open iff the view expands new groups; the count grows by one |
| GroupedView.GroupedItemsView.AddItemToGroup | Assets/Plugins/plyMapEd/Editor/Controls/GroupedItemsView.cs:78-84 | the item is appended to the group and takes the view's item size and texture ownership; what it shows is kept |
| GroupedView.GroupedItemsView.SetItemsSize | Assets/Plugins/plyMapEd/Editor/Controls/GroupedItemsView.cs:86-97 | the view's size and every existing item's size become the new size, so later items get it too; each item's whole state is what SetSize alone would leave, so glyph, thumbnail, label, data and destroyed textures are kept |
| GroupedView.GroupedItemsView.CollapseAllGroups | Assets/Plugins/plyMapEd/Editor/Controls/GroupedItemsView.cs:99-105 | every group is folded, keeping its title and items |
| GroupedView.GroupedItemsView.ExpandAllGroups | Assets/Plugins/plyMapEd/Editor/Controls/GroupedItemsView.cs:107-113 | every group is opened, keeping its title and items |
| GroupedView.GroupedItemsView.GetAllItems | Assets/Plugins/plyMapEd/Editor/Controls/GroupedItemsView.cs:115-127 | the items of all groups, group by group, in order |
| GroupedView.GroupedItemsView.RemoveAllGroups | Assets/Plugins/plyMapEd/Editor/Controls/GroupedItemsView.cs:64-76 | no groups remain, and every item that was in the view is in exactly the state one Dispose leaves: nothing shown, an owned thumbnail logged as destroyed, every other field kept, even for an item listed more than once |
| GroupedView.GroupedItemsView.Dispose | Assets/Plugins/plyMapEd/Editor/Controls/GroupedItemsView.cs:42-45 | disposing the view removes all its groups, and every item ends in the state one Dispose leaves, its owned thumbnail destroyed and its other fields kept |
| GroupedView.ResizeGroups | Assets/Plugins/plyMapEd/Editor/Controls/GroupedItemsView.cs:89-96 | the outer loop over the groups: every tile of every group is in the state SetSize alone would leave it in, even a tile listed more than once |
| GroupedView.DisposeGroups | Assets/Plugins/plyMapEd/Editor/Controls/GroupedItemsView.cs:66-72 | the outer loop over the groups: every tile of every group is in the state one Dispose leaves, even a tile listed more than once |
| GroupedView.SetGroupItemsSize | Assets/Plugins/plyMapEd/Editor/Controls/GroupedItemsView.cs:89-96 | every item of one group is in the state SetSize alone would leave it in |
| GroupedView.DisposeGroupItems | Assets/Plugins/plyMapEd/Editor/Controls/GroupedItemsView.cs:66-72 | every item of one group is in the state one Dispose leaves: nothing shown, an owned thumbnail logged as destroyed, every other field kept |
| Settings.KeyInjective | Assets/Plugins/plyMapEd/Editor/MapEdSettings.cs:120-130 | two different dot-free names give different preference keys in the same project |
| Settings.UpToDotOf | Assets/Plugins/plyMapEd/Editor/MapEdSettings.cs:120-130 | a key's name part is recovered from the key |
| Settings.KeysDistinct | Assets/Plugins/plyMapEd/Editor/MapEdSettings.cs:120-130 | the eleven settings have pairwise different keys |
| Settings.KeysForDistinct | Assets/Plugins/plyMapEd/Editor/MapEdSettings.cs:117-130 | the key table Init builds has no two equal keys, so no setting overwrites another |
| Settings.NamesWithoutDots | Assets/Plugins/plyMapEd/Editor/MapEdSettings.cs:120-130 | none of the setting names contains a dot |
| Settings.ProjectNameOf | Assets/Plugins/plyMapEd/Editor/MapEdSettings.cs:117-118 | for a data path root/project/Assets the project name is the project folder |
| Settings.ColorToString | Assets/Plugins/plyMapEd/Editor/MapEdSettings.cs:165-168 | the four channels, formatted, joined by ';' |
| Settings.StringToColor | Assets/Plugins/plyMapEd/Editor/MapEdSettings.cs:170-185 | a missing value gives the default, and any other result comes from a value with exactly four ';'-separated fields |
| Settings.StringToColorCases | Assets/Plugins/plyMapEd/Editor/MapEdSettings.cs:170-185 | a missing value, a value without four ';'-separated parts or a part that does not parse gives the default; otherwise the four parsed channels |
| Settings.ColorRoundTrip | Assets/Plugins/plyMapEd/Editor/MapEdSettings.cs:165-185 | decoding an encoded colour gives the colour back when parse inverts fmt |
| Settings.LoadedDefaults | Assets/Plugins/plyMapEd/Editor/MapEdSettings.cs:132-142 | with no stored keys, loading gives the defaults: link on, move snap 1, rotate snap 90, no root, size 120, grid style 0, the default colours, light on, intensity 1 |
| Settings.WriteKeepPrefabLink | Assets/Plugins/plyMapEd/Editor/MapEdSettings.cs:9-13 | a new session reading the store after the write gets the written value for that setting and the old value for every other |
| Settings.WriteMoveSnap | Assets/Plugins/plyMapEd/Editor/MapEdSettings.cs:15-19 | a new session reading the store after the write gets the written value for that setting and the old value for every other |
| Settings.WriteRotateSnap | Assets/Plugins/plyMapEd/Editor/MapEdSettings.cs:21-25 | a new session reading the store after the write gets the written value for that setting and the old value for every other |
| Settings.WritePrefabsRoot | Assets/Plugins/plyMapEd/Editor/MapEdSettings.cs:27-31 | a new session reading the store after the write gets the written value for that setting and the old value for every other |
| Settings.WriteThumbsSize | Assets/Plugins/plyMapEd/Editor/MapEdSettings.cs:33-37 | a new session reading the store after the write gets the written value for that setting and the old value for every other |
| Settings.WriteGridStyle | Assets/Plugins/plyMapEd/Editor/MapEdSettings.cs:39-43 | a new session reading the store after the write gets the written value for that setting and the old value for every other |
| Settings.WriteGridFrontColor | Assets/Plugins/plyMapEd/Editor/MapEdSettings.cs:45-49 | a new session reading the store after the write gets the written colour for that setting and the old value for every other, when parse inverts fmt |
| Settings.WriteGridBackColor | Assets/Plugins/plyMapEd/Editor/MapEdSettings.cs:51-55 | a new session reading the store after the write gets the written colour for that setting and the old value for every other, when parse inverts fmt |
| Settings.WriteGridFillColor | Assets/Plugins/plyMapEd/Editor/MapEdSettings.cs:57-61 | a new session reading the store after the write gets the written colour for that setting and the old value for every other, when parse inverts fmt |
| Settings.WriteIcoGenUseLight | Assets/Plugins/plyMapEd/Editor/MapEdSettings.cs:63-67 | a new session reading the store after the write gets the written value for that setting and the old value for every other |
| Settings.WriteLightIntensity | Assets/Plugins/plyMapEd/Editor/MapEdSettings.cs:69-73 | a new session reading the store after the write gets the written value for that setting and the old value for every other |
| Settings.WriteBackRotateSnap | Assets/Plugins/plyMapEd/Editor/MapEdSettings.cs:133-134 | writing the loaded rotate snap back during Init does not change what loads |
| Settings.MapEdSettings.constructor | Assets/Plugins/plyMapEd/Editor/MapEdSettings.cs:79-103 | settings start uninitialised with no events raised |
| Settings.MapEdSettings.Init | Assets/Plugins/plyMapEd/Editor/MapEdSettings.cs:112-143 | a second call changes nothing; the first derives the project keys, loads every value from the stored preferences, writes the rotate snap back, and leaves values and preferences in agreement |
| Settings.MapEdSettings.SetProject | Assets/Plugins/plyMapEd/Editor/MapEdSettings.cs:117-130 | the project name comes from the data path and the keys are built from it, pairwise distinct |
| Settings.MapEdSettings.LoadAll | Assets/Plugins/plyMapEd/Editor/MapEdSettings.cs:132-142 | every value is loaded from the preferences and the rotate snap is written back |
| Settings.MapEdSettings.SetKeepPrefabLink | Assets/Plugins/plyMapEd/Editor/MapEdSettings.cs:9-13 | the value is set and stored under its key; values and preferences stay in agreement |
| Settings.MapEdSettings.SetMoveSnap | Assets/Plugins/plyMapEd/Editor/MapEdSettings.cs:15-19 | the value is set and stored under its key; values and preferences stay in agreement |
| Settings.MapEdSettings.SetRotateSnap | Assets/Plugins/plyMapEd/Editor/MapEdSettings.cs:21-25 | the value is set and stored under its key; values and preferences stay in agreement |
| Settings.MapEdSettings.SetPrefabsRoot | Assets/Plugins/plyMapEd/Editor/MapEdSettings.cs:27-31 | the root is set and stored under its key; values and preferences stay in agreement |
| Settings.MapEdSettings.SetThumbsSize | Assets/Plugins/plyMapEd/Editor/MapEdSettings.cs:33-37 | the value is set and stored under its key; values and preferences stay in agreement |
| Settings.MapEdSettings.SetGridStyle | Assets/Plugins/plyMapEd/Editor/MapEdSettings.cs:39-43 | the value is set, stored under its key and announced once to listeners |
| Settings.MapEdSettings.SetGridFrontColor | Assets/Plugins/plyMapEd/Editor/MapEdSettings.cs:45-49 | the colour is set, stored encoded under its key and announced once |
| Settings.MapEdSettings.SetGridBackColor | Assets/Plugins/plyMapEd/Editor/MapEdSettings.cs:51-55 | the colour is set, stored encoded under its key and announced once |
| Settings.MapEdSettings.SetGridFillColor | Assets/Plugins/plyMapEd/Editor/MapEdSettings.cs:57-61 | the colour is set, stored encoded under its key and announced once |
| Settings.MapEdSettings.SetIcoGenUseLight | Assets/Plugins/plyMapEd/Editor/MapEdSettings.cs:63-67 | the value is set and stored under its key; values and preferences stay in agreement |
| Settings.MapEdSettings.SetLightIntensity | Assets/Plugins/plyMapEd/Editor/MapEdSettings.cs:69-73 | the value is set and stored under its key; values and preferences stay in agreement |
| Settings.MapEdSettings.SetColor | Assets/Plugins/plyMapEd/Editor/MapEdSettings.cs:154-157 | only the preference under the key changes, to the encoded colour |
| Settings.MapEdSettings.ResetGridColors | Assets/Plugins/plyMapEd/Editor/MapEdSettings.cs:145-150 | the three grid colours return to their defaults, each announced once, in front, back, fill order |
| FabMaker.FolderStore.CreateFolder | Assets/Plugins/plyMapEd/Editor/MapEdFabMakerWindow.cs:221 | the folder parent/name now exists and is logged as created |
| FabMaker.CheckedPathInside | Assets/Plugins/plyMapEd/Editor/MapEdFabMakerWindow.cs:213-223 | each checked path extends the previous one by a slash and a segment |
| FabMaker.PrefixesMembers | Assets/Plugins/plyMapEd/Editor/MapEdFabMakerWindow.cs:213-223 | the folders CheckPath visits are exactly its checked paths after the first |
| FabMaker.MissingMembers | Assets/Plugins/plyMapEd/Editor/MapEdFabMakerWindow.cs:219-221 | the folders created are exactly the visited ones that did not exist |
| FabMaker.MissingIncreasing | Assets/Plugins/plyMapEd/Editor/MapEdFabMakerWindow.cs:213-223 | folders are created in strictly increasing depth |
| FabMaker.MissingParentsFirst | Assets/Plugins/plyMapEd/Editor/MapEdFabMakerWindow.cs:219-223 | every created folder's parent existed already or was created before it |
| FabMaker.CheckPathIdempotent | Assets/Plugins/plyMapEd/Editor/MapEdFabMakerWindow.cs:211-227 | a second CheckPath of the same path creates nothing and adds no folder |
| FabMaker.CheckedPathJoin | Assets/Plugins/plyMapEd/Editor/MapEdFabMakerWindow.cs:213-223 | the i-th checked path is the first i+1 segments of the path joined by '/' |
| FabMaker.CheckPathReachesPath | Assets/Plugins/plyMapEd/Editor/MapEdFabMakerWindow.cs:211-227 | a path whose first segment is Assets exists as a folder after CheckPath |
| FabMaker.CheckPath | Assets/Plugins/plyMapEd/Editor/MapEdFabMakerWindow.cs:211-227 | the folders gain every prefix of the path, and the log gains the missing ones in order |
| FabMaker.PrefabLocation | Assets/Plugins/plyMapEd/Editor/MapEdFabMakerWindow.cs:154-157 | no location iff the model path is shorter than the source root, where Substring throws; otherwise a folder without '\\' and a file name ending in .prefab |
| FabMaker.PrefabMapping | Assets/Plugins/plyMapEd/Editor/MapEdFabMakerWindow.cs:154-160 | a model at the source root plus a relative path maps to the destination root plus that path's folder, '\\' turned into '/', and the model's name with .prefab |
| FabMaker.SavedExactly | Assets/Plugins/plyMapEd/Editor/MapEdFabMakerWindow.cs:144-191 | a prefab is saved iff the model loads, its path is as long as the root, its instance is a game object and saving works; the outcome names the prefab path |
| FabMaker.FoldersAfterGrows | Assets/Plugins/plyMapEd/Editor/MapEdFabMakerWindow.cs:127-200 | processing never removes a folder |
| FabMaker.PrefabFolderExists | Assets/Plugins/plyMapEd/Editor/MapEdFabMakerWindow.cs:159 | once a model has been processed, its prefab's folder exists, and still exists at the end |
| FabMaker.FoldersAfterLater | Assets/Plugins/plyMapEd/Editor/MapEdFabMakerWindow.cs:134-197 | folders present after some models are still present after more models |
| FabMaker.MakePrefab | Assets/Plugins/plyMapEd/Editor/MapEdFabMakerWindow.cs:144-191 | one model: reports its outcome, and the folders and creation log grow exactly as checking its prefab folder makes them, when it gets that far |
| FabMaker.ProcessNext | Assets/Plugins/plyMapEd/Editor/MapEdFabMakerWindow.cs:134-197 | one loop step: the outcomes so far gain the next model's, and the folders and log match processing one more model |
| FabMaker.OutcomesSnoc | Assets/Plugins/plyMapEd/Editor/MapEdFabMakerWindow.cs:134-197 | the outcomes of one more model are the earlier outcomes followed by the new one |
| FabMaker.Process | Assets/Plugins/plyMapEd/Editor/MapEdFabMakerWindow.cs:127-200 | one outcome per model in order, and the folders are those left by checking each model's prefab folder in turn |
| FabMaker.ChosenRootsCanProcess | Assets/Plugins/plyMapEd/Editor/MapEdFabMakerWindow.cs:93-121 | roots chosen through the two buttons always pass the Process button's guard |
| FabMaker.EnabledLabelAsWritten | Assets/Plugins/plyMapEd/Editor/MapEdFabMakerWindow.cs:48-49 | the label as the source builds it: the prefix followed by the label field's text, so a still-null field leaves just the prefix |
| FabMaker.EnabledLabelHidesRoot | Assets/Plugins/plyMapEd/Editor/MapEdFabMakerWindow.cs:48-49 | the label built as written does not show a stored root |
| FabMaker.EnabledLabel | Assets/Plugins/plyMapEd/Editor/MapEdFabMakerWindow.cs:48-49 | a label is its prefix followed by the root's text |
| FabMaker.FabMakerWindow.constructor | Assets/Plugins/plyMapEd/Editor/MapEdFabMakerWindow.cs:36-49 | the window keeps the given roots, and its labels are the corrected ones, each showing its root (see Findings) |
| FabMaker.FabMakerWindow.OnSrcButtonClicked | Assets/Plugins/plyMapEd/Editor/MapEdFabMakerWindow.cs:93-101 | a non-empty panel path inside the data folder becomes the source root as a relative path, shown on its label; anything else changes nothing |
| FabMaker.FabMakerWindow.OnDstButtonClicked | Assets/Plugins/plyMapEd/Editor/MapEdFabMakerWindow.cs:103-111 | the same for the destination root |
| FabMaker.FabMakerWindow.OnPrcButtonClicked | Assets/Plugins/plyMapEd/Editor/MapEdFabMakerWindow.cs:113-121 | processing runs iff neither root is blank, with Process's outcomes and folders; otherwise nothing changes |
| Window.SubtreeBlock | Assets/Plugins/plyMapEd/Editor/MapEdWindow.cs:369-377 | each sub-folder is listed immediately before all its own descendants, as one contiguous block |
| Window.DescendantsMembers | Assets/Plugins/plyMapEd/Editor/MapEdWindow.cs:369-377 | a path is listed iff it is the path of some folder below the node |
| Window.DescendantsInside | Assets/Plugins/plyMapEd/Editor/MapEdWindow.cs:369-377 | every listed path lies under the node's path and has a segment |
| Window.RootFirstIff | Assets/Plugins/plyMapEd/Editor/MapEdWindow.cs:356-367 | the root heads the list iff it is asked for, and is never among its own descendants |
| Window.FolderList.Add | Assets/Plugins/plyMapEd/Editor/MapEdWindow.cs:374 | the path is appended to the list |
| Window.GetSubFoldersRecursively | Assets/Plugins/plyMapEd/Editor/MapEdWindow.cs:369-377 | the list gains the node's descendants in depth-first order |
| Window.GetPrefabFolders | Assets/Plugins/plyMapEd/Editor/MapEdWindow.cs:356-367 | the optional root and then its descendants in depth-first order |
| Window.AddNewMembers | Assets/Plugins/plyMapEd/Editor/MapEdWindow.cs:289-296 | the gathered list holds exactly the earlier entries and the new guids |
| Window.AddNewDistinct | Assets/Plugins/plyMapEd/Editor/MapEdWindow.cs:289-296 | gathering never repeats a guid |
| Window.AddNewPrefix | Assets/Plugins/plyMapEd/Editor/MapEdWindow.cs:289-296 | gathering keeps the earlier entries in place |
| Window.AddNewAppend | Assets/Plugins/plyMapEd/Editor/MapEdWindow.cs:283-297 | gathering folder by folder equals gathering all their guids at once |
| Window.FirstIndex | Assets/Plugins/plyMapEd/Editor/MapEdWindow.cs:289-296 | the first position of a member, before which it does not occur |
| Window.DedupSpec | Assets/Plugins/plyMapEd/Editor/MapEdWindow.cs:283-297 | the guid list has no repeats, the same members as all guids found, and keeps the order in which each was first found |
| Window.FolderEntriesSpec | Assets/Plugins/plyMapEd/Editor/MapEdWindow.cs:229-240 | one menu entry per folder, the i-th with index i and a name that, after the root and a slash, is the folder |
| Window.ActiveLabelNamesFolder | Assets/Plugins/plyMapEd/Editor/MapEdWindow.cs:246-266 | a chosen folder is labelled with its last directory; otherwise the root is shown, labelled "Choose folder ->" iff there is no root |
| Window.GatheredGuidsDedup | Assets/Plugins/plyMapEd/Editor/MapEdWindow.cs:283-297 | gathering over the shown folders gives the de-duplicated concatenation of what each folder holds |
| Window.ShownFoldersSpec | Assets/Plugins/plyMapEd/Editor/MapEdWindow.cs:274-281 | at least one folder is shown, each being the path or below it; the path itself is shown iff it is not the root or the root has no sub-folders |
| Window.Labels | Assets/Plugins/plyMapEd/Editor/MapEdWindow.cs:291 | one label per guid |
| Window.LabelsSpec | Assets/Plugins/plyMapEd/Editor/MapEdWindow.cs:291 | each tile's label is its asset's file name without extension |
| Window.AddTile | Assets/Plugins/plyMapEd/Editor/MapEdWindow.cs:291-294 | a fresh tile for the guid is appended, labelled, loading, and sized as the view's tiles are |
| Window.FillGroup | Assets/Plugins/plyMapEd/Editor/MapEdWindow.cs:288-296 | the group holds one fresh tile per guid, in order |
| Window.AddNewGuids | Assets/Plugins/plyMapEd/Editor/MapEdWindow.cs:295 | appends the guids not already gathered, in order |
| Window.GatherGuids | Assets/Plugins/plyMapEd/Editor/MapEdWindow.cs:283-297 | all guids found in the folders, once each, in first-found order |
| Window.DeliverThumb | Assets/Plugins/plyMapEd/Editor/MapEdWindow.cs:322-334 | the tiles of that guid show the texture, or the error glyph if it is missing; their state is Shown(texture) of the old, or that texture shown once per listing when a tile is listed more than once; every other tile keeps its whole state |
| Window.ShowGuidTiles | Assets/Plugins/plyMapEd/Editor/MapEdWindow.cs:324-333 | the foreach loop: a tile of the guid ends in ShownTimes for the number of times it is listed, and every other tile keeps its state |
| Window.MarkMissing | Assets/Plugins/plyMapEd/Editor/MapEdWindow.cs:339-349 | tiles still without a thumbnail end in Flagged(warning glyph) of their old state; the others keep their whole state |
| Window.InitSettings | Assets/Plugins/plyMapEd/Editor/MapEdWindow.cs:60 | settings are initialised and persisted, and the stored root is usable |
| Window.MapEdWindow.constructor | Assets/Plugins/plyMapEd/Editor/MapEdWindow.cs:58-127 | the thumbnail folder sits under the project root; with no stored root the list is empty and the drop-down asks for a folder; with one the list is populated for it |
| Window.MapEdWindow.OpenStoredRoot | Assets/Plugins/plyMapEd/Editor/MapEdWindow.cs:126 | opens the stored root, or changes nothing when none is stored |
| Window.MapEdWindow.AddFolderGroup | Assets/Plugins/plyMapEd/Editor/MapEdWindow.cs:283-297 | a fresh group titled with the folder's last directory holds a tile per guid found there |
| Window.MapEdWindow.AddFolderGroups | Assets/Plugins/plyMapEd/Editor/MapEdWindow.cs:283-297 | one such group per folder, in order |
| Window.MapEdWindow.BuildGroups | Assets/Plugins/plyMapEd/Editor/MapEdWindow.cs:283-303 | one group per folder, expanded when new groups expand or when it is the only one |
| Window.MapEdWindow.ExpandSingle | Assets/Plugins/plyMapEd/Editor/MapEdWindow.cs:299-303 | a single group is opened |
| Window.MapEdWindow.LoadThumbs | Assets/Plugins/plyMapEd/Editor/MapEdWindow.cs:313-318 | the generator is asked for the guids, with the thumbnail folder and the light settings |
| Window.MapEdWindow.PopulateThumbsList | Assets/Plugins/plyMapEd/Editor/MapEdWindow.cs:268-307 | old tiles are disposed, each ending in Disposed() of its old state; an empty path leaves the list empty; otherwise one group per shown folder, and the generator asked for every guid once |
| Window.MapEdWindow.ClearList | Assets/Plugins/plyMapEd/Editor/MapEdWindow.cs:270-272 | all tiles are disposed, each ending in Disposed() of its old state; no groups remain and nothing waits for thumbnails |
| Window.MapEdWindow.GetShownFolders | Assets/Plugins/plyMapEd/Editor/MapEdWindow.cs:274-281 | the folders to show for a path |
| Window.MapEdWindow.FillThumbsList | Assets/Plugins/plyMapEd/Editor/MapEdWindow.cs:274-306 | populates the list for a non-empty path |
| Window.MapEdWindow.ShowList | Assets/Plugins/plyMapEd/Editor/MapEdWindow.cs:305-306 | the tiles of all groups wait for thumbnails and the generator is asked for the guids |
| Window.MapEdWindow.ListShown | Assets/Plugins/plyMapEd/Editor/MapEdWindow.cs:268-307 | groups, delivery list and request as built make the list populated for the path |
| Window.MapEdWindow.SetActivePrefabsFolder | Assets/Plugins/plyMapEd/Editor/MapEdWindow.cs:246-266 | a valid index shows that folder, labelled with its last directory; any other index shows the root; the old tiles end in Disposed() |
| Window.MapEdWindow.ShowFolder | Assets/Plugins/plyMapEd/Editor/MapEdWindow.cs:250-264 | sets the drop-down text and shows the path's list, the old tiles ending in Disposed() |
| Window.MapEdWindow.ClearMenu | Assets/Plugins/plyMapEd/Editor/MapEdWindow.cs:221-226 | the menu is emptied and nothing else changes |
| Window.MapEdWindow.BuildFoldersDropdown | Assets/Plugins/plyMapEd/Editor/MapEdWindow.cs:219-244 | the folders are the root's descendants; the menu is "All Prefabs", a separator and one entry per folder; the root's list is shown and the old tiles end in Disposed() |
| Window.MapEdWindow.FillFoldersMenu | Assets/Plugins/plyMapEd/Editor/MapEdWindow.cs:221-240 | builds the folder list and the menu for a root |
| Window.MapEdWindow.AppendFolderEntries | Assets/Plugins/plyMapEd/Editor/MapEdWindow.cs:229-240 | one entry per folder is appended to the menu |
| Window.MapEdWindow.SetPrefabsRoot | Assets/Plugins/plyMapEd/Editor/MapEdWindow.cs:206-217 | an empty path changes nothing; otherwise the root is stored in the settings and the drop-down and list are rebuilt for it |
| Window.MapEdWindow.StoreRoot | Assets/Plugins/plyMapEd/Editor/MapEdWindow.cs:213-214 | the root is set on the window and in the settings |
| Window.MapEdWindow.OnSetFolderButtonClicked | Assets/Plugins/plyMapEd/Editor/MapEdWindow.cs:153-162 | the panel opens at the stored root or the data path; a non-empty answer inside the data folder becomes the root as a relative path, which leads back to the answer; anything else changes nothing |
| Window.MapEdWindow.OnCollapseButtonClicked | Assets/Plugins/plyMapEd/Editor/MapEdWindow.cs:164-178 | flips whether groups expand, folds or opens every group to match, and swaps the button glyph; the tiles stay |
| Window.MapEdWindow.SetExpanded | Assets/Plugins/plyMapEd/Editor/MapEdWindow.cs:166-177 | every group and new groups take the given state |
| Window.MapEdWindow.OnRefreshThumbsButtonClicked | Assets/Plugins/plyMapEd/Editor/MapEdWindow.cs:180-188 | with a stored root, rebuilds the drop-down and the list, forcing new thumbnails; otherwise nothing changes |
| Window.MapEdWindow.OnThumbsSizeSliderValueChanged | Assets/Plugins/plyMapEd/Editor/MapEdWindow.cs:190-195 | the size is stored in the settings and every tile takes it, each ending in Resized(sz) of its old state |
| Window.MapEdWindow.OnThumbGenerated | Assets/Plugins/plyMapEd/Editor/MapEdWindow.cs:320-335 | while a list waits, the tiles of that guid show the texture or the error glyph, each ending in the texture shown once per listing; every other tile keeps its whole state |
| Window.MapEdWindow.OnThumbsGenCompleted | Assets/Plugins/plyMapEd/Editor/MapEdWindow.cs:337-350 | while a list waits, every tile still without a thumbnail ends in Flagged(warning glyph) of its old state; every other tile keeps its whole state |
| Window.MapEdWindow.OnDisable | Assets/Plugins/plyMapEd/Editor/MapEdWindow.cs:129-137 | all tiles are disposed, each ending in Disposed() of its old state, and no list waits for thumbnails |

## Left out

- Rendering: GenerateIcon, LoadIcon, SaveIcon, DeleteAllFiles, Initialize, Dispose and GenerateIcons, which lays out the preview scene and renders, reads and writes PNG files. The window records what it asks the generator for as `lastRequest`.
- Trigonometry and quaternions: the camera's axes and the sines and cosines of the vertical and horizontal half fields of view are inputs. `Quaternion.AngleAxis` is written as its closed form on those inputs. The camera's Valid ties the two half angles as line 311 of MapEdIconsGen.cs does, by tan H == aspect * tan V, written without division.
- Floating point: geometry is exact `real`. Plane and ray direction normalisation is not modelled, since it does not change which side of a plane a point is on.
- IconCamera.GetPlanesIntersection: requires a non-zero determinant. The source divides unguarded, and FrustumEdges proves the condition holds at both calls.
- IconCamera.FindClosestPointsOnTwoLines: requires non-parallel lines (a non-zero `a*e - b*b`). The source divides by it unguarded, giving NaN for parallel lines, which is not modelled; EdgesNotParallel proves the condition holds at the only call.
- IconCamera.LocalExtents: the loop's ±infinity seeds are replaced by the first corner's coordinates, which gives the same min/max on the eight corners.
- TransformTool.Tool.MovePreviewObject: requires a non-zero move snap. The source divides by it unguarded, giving NaN, which is not modelled.
- TransformTool.Tool.ChangeGridLevel: requires a non-zero cell size in snapping mode 0. The source divides by the cell size unguarded there, giving NaN, which is not modelled.
- The editor services (Undo, Selection, Handles drawing, scene-view ray casts, SetActiveObject) are not modelled. The ray cast's hit and the selection's positions and yaws are arguments.
- SetLayersRecursively, and the layer and shadow options the prefab maker copies onto instances: they set Unity object properties the model does not carry.
- The UI construction in OnEnable and CreateGUI, the progress bar and its cancel button, OnGUI's Escape key and OnItemClicked, which only selects the clicked asset in the editor.
- The try/catch in Process: a model whose load throws is reported like a model that does not load.
- Paths.GetFileNameWithoutExtension: GetFileNameInPath's catch is not modelled, since the path functions are total here.
- Paths.GetDirectoryName: .NET's root and empty-path special cases are not modelled; only the paths Process builds reach it.
- Paths.GetLastDirInPath: requires a path with a non-empty segment, since the source indexes an empty array otherwise. The window's callers prove it.
- Paths.FullPathToRelativePath: requires the path to be at least as long as the data path, since Substring throws otherwise. The callers check StartsWith first.
- Paths.GetProjectRootPath: requires a data path of at least seven characters, so that dropping seven is defined. That the data path ends in "/Assets", as Unity's always does, is not required here: it is required by Window.MapEdWindow.constructor (and kept in the window's Valid), and Paths.RelativePathRoundTrip states it as its own requirement.
- Window.MapEdWindow.constructor: requires a stored root that is empty or has a segment (RootOk). A stored root made only of '/' characters would make the source index an empty array.
- Settings.MapEdSettings.Init: requires a data path with at least two segments, since the source indexes the split path otherwise.
- The settings setters require Init to have run, since before it the keys are null in the source. Reading a preference stored with a different type than asked for is not modelled either.
- C# culture-dependent float formatting: the colour codec takes a fmt/parse pair, and the round trip is proved under the law that parse inverts fmt. C#'s culture-sensitive StartsWith is modelled as ordinal.
- CreateFolder on a name that already exists, where Unity would pick a new name: CheckPath only creates folders that are missing. AssetDatabase.Refresh is not modelled.
- GroupedItemsView's reparenting of items in Unity's visual tree, the Foldout's userData and its value-changed callback. One item added to two groups, which Unity's reparenting would prevent, is allowed here; RemoveAllGroups, Dispose and SetItemsSize still state each item's final state then, since disposing or resizing an item twice leaves it as once (DisposedTwice, ResizedTwice). The window's delivery loops state it too: a glyph shown twice is shown once (FlaggedTwice), and a tile listed n times is shown the texture n times (ShownTimes, ShownAgain).
- Unity's destroyed-object null is not modelled. OnThumbGenerated hands one texture to every tile of the guid, and disposing those tiles logs that texture as destroyed in each of them, where Unity destroys it once and the later tiles see a null image. No reachable flow shows anything different: each guid is requested once per list, and the whole list is disposed before the next request.
- FabMaker.FabMakerWindow.constructor: builds the labels as intended, with EnabledLabel, so that the window keeps LabelsShowRoots from the start. The source builds them from the still-null label fields (EnabledLabelAsWritten), which shows no root until a button is used; see Findings.
- Where MapEdWindow's methods each do several things, the model splits them into helper methods (ClearList, ShowFolder, StoreRoot, FillFoldersMenu, AppendFolderEntries, BuildGroups, ShowList, OpenStoredRoot, InitSettings). Each helper has its own contract, and they run in the source's order.
- The window's guid list is gathered in a second pass over the shown folders, after the groups are built. This gives the same list as the source's single interleaved pass, because FindAssets is a function.
- IconsGen.Dispose and the new-objects container in OnDisable are not modelled. Setting the thumbnail container to null is modelled as `thumbItems := None`.

## Findings

| source | as written | input that shows it | evidently intended | confidence | as-written member | corrected member |
|---|---|---|---|---|---|---|
| Assets/Plugins/plyMapEd/Editor/MapEdFabMakerWindow.cs:48-49 | the labels interpolate the label fields themselves, which are still null at that point, instead of the roots | a source root "Assets/Models" kept from an earlier session: the label reads "Models: " | the label reads "Models: Assets/Models", the prefix followed by the root | not executed | FabMaker.EnabledLabelAsWritten, FabMaker.EnabledLabelHidesRoot | FabMaker.EnabledLabel, FabMaker.FabMakerWindow.constructor |
