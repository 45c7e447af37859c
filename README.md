# Work-order UI: a verified model of its state logic

The repository is a React interface for field work orders, written in
Croatian, with no backend. All data is mock data held in component state.
This project models the parts of it that carry logic, and proves what each
part promises:

- **Bulk operations on the work-order table.** The page has select-all,
  select-one, delete-selected and complete-selected. The dialog shares only
  select-all and select-one: its "Akcija" button has no actions.
  `WorkOrderList` holds the list transforms. `WorkOrdersPage` and
  `WorkOrdersDialog` hold the state each view keeps: the orders, the search
  text and the two filter chips.
- **Document rows** (`DocumentModal`): edit a field by id, append a blank row
  whose id is `length + 1`, delete by id, and reset.
- **Water-meter details** (`WaterMeterDetails`): split the text into lines,
  drop blank lines, and cut each line at its first colon.
- **Sidebar** (`MainSidebar`): decide which route is active, and close the
  mobile sheet on navigation.
- **Work-order detail** (`WorkOrderDetail`): update a form field, edit an
  item's executed quantity, and decide which quantities are editable and
  which rows show a check mark.
- **Signature pad** (`SignatureModal`): the drawing state machine over a log
  of 2D-context operations. `Render` gives the log its meaning: the ink on
  the bitmap and the path being built.

`Seqs` gives JavaScript's `map` and `filter` a meaning, together with
`Subseq` ("keeps the relative order") and a uniqueness lemma for filters.
`Text` does the same for `trim`, `split`, `join` and the decimal `toString`.

The signature pad commits no dot when a stroke starts. It keeps no flag
recording whether anything was drawn, and saving checks nothing. It does not
scale event coordinates to the bitmap, and it draws with line width 2. A
resize wipes the drawing, and opening the dialog does not reset `isDrawing`.
`TapLeavesNoInk` shows that a tap leaves no ink. `EndToEndScenario` shows
that a save still succeeds after the canvas is cleared.

## Model

| member | source | states |
|---|---|---|
| `WorkOrderList.SelectedCount` | src/pages/WorkOrders.tsx:116-117 | the count of selected orders is zero exactly when no order is selected |
| `WorkOrderList.SelectAll` | src/pages/WorkOrders.tsx:92-94 | same length; every order's `selected` is the flag, and every other field is unchanged |
| `WorkOrderList.SelectOne` | src/pages/WorkOrders.tsx:96-100 | same length; orders with the id get the flag and keep all other fields; every other order is identical |
| `WorkOrderList.RemoveSelected` | src/pages/WorkOrders.tsx:122 | length drops by the selected count; every unselected order is kept, no selected one is kept, and the relative order is preserved |
| `WorkOrderList.Complete` | src/pages/WorkOrders.tsx:134 | the completed order is unselected and, if it was selected, has status "Završeno"; restoring its old status and flag gives back the original order; an unselected order is returned unchanged |
| `WorkOrderList.CompleteSelected` | src/pages/WorkOrders.tsx:133-135 | same length; previously selected orders become "Završeno" and unselected, with no other field changed; unselected orders are identical; nothing is selected afterwards |
| `WorkOrderList.SelectAllIdempotent` | src/components/WorkOrdersDialog.tsx:101-103 | select-all twice with the same flag equals select-all once |
| `WorkOrderList.SelectAllCount` | src/components/WorkOrdersDialog.tsx:101-103 | after select-all, the selected count is the whole list or zero |
| `WorkOrderList.SelectionKeepsRecords` | src/components/WorkOrdersDialog.tsx:101-109 | neither selection handler changes any field other than `selected` |
| `WorkOrderList.RemoveNoneSelected` | src/pages/WorkOrders.tsx:115-122 | with nothing selected, the delete filter returns the list unchanged |
| `WorkOrderList.CompleteNoneSelected` | src/pages/WorkOrders.tsx:126-135 | with nothing selected, the complete map returns the list unchanged |
| `WorkOrderList.RemoveSelectedUnique` | src/pages/WorkOrders.tsx:116-122 | any order-preserving sublist with no selected order and length = length − selected count IS the delete result |
| `WorkOrderList.RemoveLeavesNoneSelected` | src/pages/WorkOrders.tsx:122 | no order is selected after a delete |
| `WorkOrdersPage.WorkOrdersPage.constructor` | src/pages/WorkOrders.tsx:41-90 | empty search, status chip "Status", no type filter, the four initial orders |
| `WorkOrdersPage.WorkOrdersPage.HandleSelectAllChange` | src/pages/WorkOrders.tsx:92-94 | the orders become `SelectAll` of the old orders |
| `WorkOrdersPage.WorkOrdersPage.HandleSelectChange` | src/pages/WorkOrders.tsx:96-100 | the orders become `SelectOne` of the old orders |
| `WorkOrdersPage.WorkOrdersPage.HandleSearchChange` | src/pages/WorkOrders.tsx:172 | the search text becomes the input value |
| `WorkOrdersPage.WorkOrdersPage.HandleRemoveStatusFilter` | src/pages/WorkOrders.tsx:102-104 | the status chip becomes null |
| `WorkOrdersPage.WorkOrdersPage.HandleRemoveFilterType` | src/pages/WorkOrders.tsx:106-108 | the type filter becomes null |
| `WorkOrdersPage.WorkOrdersPage.HandleFilterTypeSelect` | src/pages/WorkOrders.tsx:110-113 | the type filter becomes exactly the chosen type |
| `WorkOrdersPage.WorkOrdersPage.HandleDelete` | src/pages/WorkOrders.tsx:115-124 | with nothing selected: reports NoneSelected and changes nothing; otherwise it removes exactly the selected orders, reports their count, and leaves none selected with the length reduced by that count |
| `WorkOrdersPage.WorkOrdersPage.HandleComplete` | src/pages/WorkOrders.tsx:126-137 | with nothing selected: reports NoneSelected and changes nothing; otherwise it completes the selected orders and reports their count, and none stays selected |
| `WorkOrdersDialog.WorkOrdersDialog.constructor` | src/components/WorkOrdersDialog.tsx:50-99 | empty search, status chip "Status", no type filter, the four initial orders |
| `WorkOrdersDialog.WorkOrdersDialog.HandleSelectAllChange` | src/components/WorkOrdersDialog.tsx:101-103 | the orders become `SelectAll` of the old orders |
| `WorkOrdersDialog.WorkOrdersDialog.HandleSelectChange` | src/components/WorkOrdersDialog.tsx:105-109 | the orders become `SelectOne` of the old orders |
| `WorkOrdersDialog.WorkOrdersDialog.HandleSearchChange` | src/components/WorkOrdersDialog.tsx:147 | the search text becomes the input value |
| `WorkOrdersDialog.WorkOrdersDialog.HandleRemoveStatusFilter` | src/components/WorkOrdersDialog.tsx:111-113 | the status chip becomes null; this is the only handler that writes it |
| `WorkOrdersDialog.WorkOrdersDialog.HandleRemoveFilterType` | src/components/WorkOrdersDialog.tsx:115-117 | the type filter becomes null |
| `WorkOrdersDialog.WorkOrdersDialog.HandleFilterTypeSelect` | src/components/WorkOrdersDialog.tsx:119-121 | the type filter becomes exactly the chosen type |
| `DocumentModal.With` | src/components/DocumentModal.tsx:46 | the spread update sets the named key and leaves every other key as it was |
| `DocumentModal.UpdateField` | src/components/DocumentModal.tsx:39-49 | same length; rows with the id get the field set and keep their other fields; every other row is identical |
| `DocumentModal.AddBlank` | src/components/DocumentModal.tsx:51-54 | the old rows are unchanged, followed by one blank row whose id is exactly the decimal rendering of old length + 1 (digits only, no leading zero), which parses back to old length + 1 |
| `DocumentModal.DeleteById` | src/components/DocumentModal.tsx:56-58 | every row with the id is removed, every other row is kept, and the relative order is preserved |
| `DocumentModal.DeleteAbsentId` | src/components/DocumentModal.tsx:56-58 | deleting an id that no row has changes nothing |
| `DocumentModal.SequentialIdsUnique` | src/components/DocumentModal.tsx:52 | rows numbered 1..n in order have pairwise distinct ids |
| `DocumentModal.AddKeepsSequentialIds` | src/components/DocumentModal.tsx:51-54 | adding to rows numbered 1..n gives rows numbered 1..n+1, so their ids are unique |
| `DocumentModal.DuplicateIdAfterDeleteThenAdd` | src/components/DocumentModal.tsx:52-57 | id uniqueness is not an invariant: rows "1","2", delete "1", add gives two rows with id "2" |
| `DocumentModal.DocumentModal.constructor` | src/components/DocumentModal.tsx:35-37 | starts with one blank row with id "1" |
| `DocumentModal.DocumentModal.HandleInputChange` | src/components/DocumentModal.tsx:39-49 | the rows become `UpdateField` of the old rows |
| `DocumentModal.DocumentModal.HandleAddDocument` | src/components/DocumentModal.tsx:51-54 | the rows become `AddBlank` of the old rows |
| `DocumentModal.DocumentModal.HandleDeleteDocument` | src/components/DocumentModal.tsx:56-58 | the rows become `DeleteById` of the old rows |
| `DocumentModal.DocumentModal.HandleDelete` | src/components/DocumentModal.tsx:65-67 | the rows reset to exactly the initial single blank row with id "1" |
| `WaterMeterDetails.DetailLines` | src/components/WaterMeterDetailsModal.tsx:20 | the newline-separated pieces that are not all whitespace, in their original order, and no others |
| `WaterMeterDetails.ParseLine` | src/components/WaterMeterDetailsModal.tsx:35-39 | a line is shown as one cell exactly when it holds no ':', and then unchanged; a label never contains ':' |
| `WaterMeterDetails.DetailRows` | src/components/WaterMeterDetailsModal.tsx:34-47 | one row per detail line, in order |
| `WaterMeterDetails.ParseLineNoColon` | src/components/WaterMeterDetailsModal.tsx:35-36 | a line without ':' is shown unchanged as a single cell |
| `WaterMeterDetails.ParseLineFirstColon` | src/components/WaterMeterDetailsModal.tsx:35-39 | the label is the trimmed text before the first ':' and the value is the trimmed text after it |
| `WaterMeterDetails.LaterColonsKept` | src/components/WaterMeterDetailsModal.tsx:39 | rejoining the parts after the first with ':' keeps later colons in the value |
| `WaterMeterDetails.EmptyStateIff` | src/components/WaterMeterDetailsModal.tsx:20-52 | there are zero lines, which selects the empty-state message, exactly when the text is empty or all whitespace |
| `Text.Trim` | src/components/WaterMeterDetailsModal.tsx:20 | the result is a contiguous slice of the input with only whitespace cut off on either side, and it neither starts nor ends with whitespace |
| `Text.Split` | src/components/WaterMeterDetailsModal.tsx:20 | at least one piece; two or more exactly when the separator occurs; no piece contains the separator |
| `Text.Join` | src/components/WaterMeterDetailsModal.tsx:39 | a single piece joins to itself (with `Text.JoinSplit`: join undoes split) |
| `Text.NatToString` | src/components/DocumentModal.tsx:52 | the rendering is non-empty, all decimal digits, and has no leading zero |
| `Seqs.Map` | src/pages/WorkOrders.tsx:93 | same length, and each element is the function applied to the element at the same index |
| `Seqs.Filter` | src/pages/WorkOrders.tsx:122 | the length is the count of elements that satisfy the predicate, and exactly those elements are kept |
| `Text.TrimEmptyIff` | src/components/WaterMeterDetailsModal.tsx:20 | a line trims to "" exactly when it is all whitespace |
| `Text.SplitAtFirst` | src/components/WaterMeterDetailsModal.tsx:35-39 | the first split piece is the text before the first separator, and the other pieces rejoined are the text after it |
| `Text.JoinSplit` | src/components/WaterMeterDetailsModal.tsx:39 | joining a split with the same separator gives the string back |
| `Text.ParseNatToString` | src/components/DocumentModal.tsx:52 | the decimal rendering of a number parses back to that number |
| `MainSidebar.IsActive` | src/components/MainSidebar.tsx:24-26 | active when the location equals the route; if active, the route is a prefix of the location |
| `MainSidebar.IsActiveIff` | src/components/MainSidebar.tsx:25 | active exactly when the route is a prefix and the location ends there or continues with '/' |
| `MainSidebar.DetailRouteIsActive` | src/components/MainSidebar.tsx:25 | "/work-orders/3" makes "/work-orders" active |
| `MainSidebar.SiblingRouteIsNotActive` | src/components/MainSidebar.tsx:25 | "/work-orders-x" does not make "/work-orders" active |
| `MainSidebar.MainSidebar.constructor` | src/components/MainSidebar.tsx:22 | the sheet starts closed |
| `MainSidebar.MainSidebar.HandleOpenChange` | src/components/MainSidebar.tsx:38 | the sheet's toggle sets the open flag |
| `MainSidebar.MainSidebar.HandleNavigation` | src/components/MainSidebar.tsx:28-33 | the sheet is closed when on mobile and left as it was otherwise |
| `WorkOrderDetail.UpdateForm` | src/pages/WorkOrderDetail.tsx:85-88 | the named field holds the value; every other field keeps its presence and its value |
| `WorkOrderDetail.IsEditable` | src/pages/WorkOrderDetail.tsx:242 | the executed quantity gets an editable number input exactly when it is not a text value |
| `WorkOrderDetail.ShowsCheckMark` | src/pages/WorkOrderDetail.tsx:265 | the amount cell shows a check mark exactly for the statuses "Paid" and "Unpaid", an X otherwise |
| `WorkOrderDetail.SetExecutedQuantity` | src/pages/WorkOrderDetail.tsx:247-250 | succeeds exactly when 1 <= id <= length; then only the executed quantity of item id-1 changes, to the new number |
| `WorkOrderDetail.InitialItemsAligned` | src/pages/WorkOrderDetail.tsx:38-83 | the initial items carry ids 1..4 at positions 0..3, so each edit hits its own row |
| `WorkOrderDetail.InitialItemsDisplay` | src/pages/WorkOrderDetail.tsx:242-269 | numeric quantities are editable and text ones read-only; the check mark shows for "Paid"/"Unpaid" only |
| `WorkOrderDetail.EditPreservesLayout` | src/pages/WorkOrderDetail.tsx:242-269 | an edit keeps ids aligned with positions, keeps the edited item editable, and changes no check mark |
| `WorkOrderDetail.WorkOrderDetail.constructor` | src/pages/WorkOrderDetail.tsx:27-83 | the initial form and the four initial items |
| `WorkOrderDetail.WorkOrderDetail.HandleInputChange` | src/pages/WorkOrderDetail.tsx:85-88 | the form becomes `UpdateForm` of the old form |
| `WorkOrderDetail.WorkOrderDetail.HandleQuantityChange` | src/pages/WorkOrderDetail.tsx:247-250 | with an id in range, the items become the edited items; otherwise the handler fails and nothing changes |
| `SignatureModal.EventPosition` | src/components/SignatureModal.tsx:99-123 | no position exactly for a touch event with no touches; otherwise the position plus the box origin is the mouse point or the first touch |
| `SignatureModal.FirstTouchOnly` | src/components/SignatureModal.tsx:108-111 | only the first touch counts, and it is placed as a mouse event would be |
| `SignatureModal.Apply` | src/components/SignatureModal.tsx:36-129 | a stroke adds the path's non-degenerate segments to the ink; only a clear or a resize removes ink; only a resize changes the size |
| `SignatureModal.Render` | src/components/SignatureModal.tsx:36-129 | the picture the issued context operations produce: ink exists only if some stroke was issued, and the bitmap keeps the default 300×150 size until a resize |
| `SignatureModal.RenderAppend` | src/components/SignatureModal.tsx:64-129 | rendering a log extended by one operation applies that operation to the rendered log |
| `SignatureModal.ClearIdempotent` | src/components/SignatureModal.tsx:129 | clearing the full width × height leaves no ink and keeps the size; a second clear gives the same canvas |
| `SignatureModal.TapLeavesNoInk` | src/components/SignatureModal.tsx:60-96 | press-and-release without moving adds no ink, because no start dot is drawn |
| `SignatureModal.DragInksSegment` | src/components/SignatureModal.tsx:64-87 | press at a, then move to b ≠ a, adds exactly the segment a→b to the ink |
| `SignatureModal.LineThenStrokeInks` | src/components/SignatureModal.tsx:86-87 | a draw step keeps all ink and adds the segment from the current point to the new one |
| `SignatureModal.SignaturePad.constructor` | src/components/SignatureModal.tsx:22-24 | not drawing, no context, no listener, default canvas size and settings, empty log |
| `SignatureModal.SignaturePad.ResizeCanvas` | src/components/SignatureModal.tsx:36-48 | with a container: width = container width, height 300, pen settings (2, round, round, black), and the bitmap wiped; without one, nothing changes |
| `SignatureModal.SignaturePad.OnOpenChange` | src/components/SignatureModal.tsx:27-57 | the old listener is dropped; when open with a canvas and a context, the canvas is resized, the listener registered and the context stored; `isDrawing` is untouched |
| `SignatureModal.SignaturePad.HandleWindowResize` | src/components/SignatureModal.tsx:36-56 | a resize reaches `ResizeCanvas` only while the listener is registered |
| `SignatureModal.SignaturePad.StartDrawing` | src/components/SignatureModal.tsx:60-74 | with no context, nothing happens; otherwise drawing starts and a path begins even without a position, and with a position it moves there and suppresses the default |
| `SignatureModal.SignaturePad.Draw` | src/components/SignatureModal.tsx:76-88 | nothing happens unless drawing; when drawing with a position it appends a lineTo that position and a stroke |
| `SignatureModal.SignaturePad.EndDrawing` | src/components/SignatureModal.tsx:90-96 | with no context, nothing happens; otherwise drawing stops and the path is closed |
| `SignatureModal.SignaturePad.HandleClear` | src/components/SignatureModal.tsx:126-131 | with a canvas and a context it clears the full width × height and no ink is left; otherwise nothing happens |
| `SignatureModal.SignaturePad.HandleSave` | src/components/SignatureModal.tsx:134-149 | no emptiness check: with a canvas, it saves on a successful encoding and reports an error on failure; the pad is unchanged |
| `SignatureModal.EndToEndScenario` | src/components/SignatureModal.tsx:60-149 | press (50,50), move (80,50), release and save: the segment is inked after the release and the save succeeds; after a clear no ink is left, and the save still succeeds |

## Left out

- Rendering, CSS classes, layout, icons and `useIsMobile`/`useIsSmallMobile`. The mobile flag is a parameter of `HandleNavigation`.
- Toasts and console logging. A bulk action's toast becomes a `BulkOutcome` tag. The outcome of clear and save is returned.
- Router navigation: `handleEditOrder`, the navigation inside `handleNavigation`, and `handleFinishOrder`/`handlePutOnHold`. The route table, the login and index pages are left out too. `IsActive` takes the current location as a parameter.
- `handleEditOrder` in the dialog also closes the dialog through the host's `onOpenChange`. That callback belongs to the host and is not modelled.
- The document dialog's `handleSave` and `handleTakePicture`, and the detail page's `handleAddNewItem`, `handleDocuments` and `handleSignatures`. They only log, toast or call the host.
- The pagination controls and the search box's effect on the table. Both are inert in the source: only the search text is stored.
- The work-order modal and the new-item modal. They copy form state into a host callback, and the modal draws ids from a random source.
- `WorkOrderDetail.SetExecutedQuantity`: the new value is taken as an already-parsed number. `parseFloat` and its NaN result are not modelled.
- `WorkOrderDetail.SetExecutedQuantity`: the source copies the array but then writes into the shared item object. The old state's item is therefore changed too. Items are values here, so that aliasing is not captured; the new state is the same.
- `SignatureModal.Render`: bitmap pixels, line width, caps and colours are not modelled. The picture is the set of stroked segments, and a zero-length segment leaves no ink. `ClearRect` always starts at the origin. A clear that does not cover the bitmap is treated as removing nothing, since the component never issues one.
- `SignatureModal.SignaturePad`: the dialog mounting and unmounting the canvas element is not modelled; `hasCanvas` is fixed when the pad is created. Removing the listener on unmount is modelled only as far as `OnOpenChange` drops it.
- `SignatureModal.EventPosition`: the canvas box comes in as a parameter instead of being measured. `getEventPosition`'s own missing-canvas check is not modelled; it cannot fire, because both callers check the canvas first.
- `SignatureModal.SignaturePad.HandleSave`: the PNG encoding comes in as a parameter. A successful encoding is `Some(dataUrl)` and an exception is `None`.
- `SignatureModal.EventPosition`: JavaScript numbers are exact reals here, and so is `WorkOrderDetail.Quantity`. Double rounding is not modelled, so the round trip from position back to client point (`p.x + rect.left == clientX`) holds exactly only in the model.
- Calling `preventDefault` is a returned flag, and the dialog's close request is the `Saved` outcome.
- React's batching of state updates: each handler is one atomic step on the current state.
- `selected?` is optional in the source's type. Every order in the data sets it, so it is a plain boolean here.
