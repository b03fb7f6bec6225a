# Orbit transformer management, modelled in Dafny

Orbit manages power-distribution transformers and their thermal
inspections. An inspector uploads a thermal image. A vision model returns
predicted hot spots, which are stored as detections. Inspectors then edit or
delete detections, and every such change is written to an annotation
timeline. Maintenance records collect the inspections they cover.

This project models the following parts:

- **The Orbit backend.**
  - The detection lifecycle: ingesting a model batch, adding, editing and deleting detections, and the timeline those edits append to (`Detections`, `Timeline`, `DetectionService`).
  - The inspection service: responses, partial updates, comments, and the URL and path of an inspection image (`InspectionStore`, `Inspections`, `FileUrls`).
  - The transformer entity with its two-way inspection link, and the transformer service (`Transformers`).
  - Saving a maintenance record (`MaintenanceRecords`).
- **The older `manage-transformers` service.** Its search queries and its add, update and delete of transformers (`ManageTransformers`).
- **Four pieces of front-end logic:**
  - the page selector (`Pagination`);
  - the numbering and colouring of predictions on the upload page, and the choice of upload URL (`InspectionUpload`);
  - the filter, favourite star and status badge of the inspection history table (`InspectionHistoryPage`);
  - loading and submitting the maintenance-record form (`MaintenanceForm`).

How the model is built:

- **Repositories** are classes whose fields are the table contents:
  - a map keyed by the primary key;
  - or, for the timeline, a sequence in insertion order, with a counter for the generated ids.
- **Services** are classes that share those repository objects. Every service method states its error cases and the complete new state of the stores it may modify.
- **The wall clock** is a counter. Each operation that reads the clock takes an `elapsed` argument that advances it.
- **Nullable Java values** are `Option`.
- **Exceptions:**
  - a dereference of an unguarded null is `Err(NullPointer)`;
  - a thrown "not found" is `Err(NotFound)`.

## Model

| member | source | states |
|---|---|---|
| Detections.FlattenMembers | Backend/src/main/java/com/orbit/Orbit/service/DetectsService.java:30-32 | a raw prediction is in the flattened batch iff it belongs to the present prediction group of some output; outputs whose group is null contribute nothing |
| Detections.FlattenLength | Backend/src/main/java/com/orbit/Orbit/service/DetectsService.java:30-32 | the flattened batch is as long as the present groups put together |
| Detections.FlattenAppend | Backend/src/main/java/com/orbit/Orbit/service/DetectsService.java:30-32 | handling one more output appends exactly that output's predictions, in order |
| Detections.RowsSnoc | Backend/src/main/java/com/orbit/Orbit/service/DetectsService.java:32-44 | each ingested prediction adds one row under the next generated id, carrying the prediction's fields and the inspection |
| Detections.OfInspection | Backend/src/main/java/com/orbit/Orbit/repo/InspectionModelDetectsRepo.java:14 | the lookup returns exactly the rows of the inspection, with their stored values |
| Detections.RemoveInspection | Backend/src/main/java/com/orbit/Orbit/repo/InspectionModelDetectsRepo.java:16-18 | the bulk delete keeps exactly the rows of other inspections, unchanged |
| Detections.PartitionByInspection | Backend/src/main/java/com/orbit/Orbit/repo/InspectionModelDetectsRepo.java:14-18 | the lookup and the bulk delete split the table into two disjoint parts that together make up the whole table |
| Detections.OfInspectionAfterRemove | Backend/src/main/java/com/orbit/Orbit/repo/InspectionModelDetectsRepo.java:14-18 | after the bulk delete, the deleted inspection has no rows and every other inspection has the rows it had |
| Detections.RemoveInspectionIdempotent | Backend/src/main/java/com/orbit/Orbit/repo/InspectionModelDetectsRepo.java:16-18 | deleting twice is deleting once; deleting an inspection without rows changes nothing |
| Detections.DetectionRepo.Insert | Backend/src/main/java/com/orbit/Orbit/service/DetectsService.java:67 | saving a new detection stores it under a fresh id that was not used before, and touches no other row |
| Detections.DetectionRepo.Put | Backend/src/main/java/com/orbit/Orbit/service/DetectsService.java:100 | saving an existing detection overwrites that row only |
| Detections.DetectionRepo.DeleteById | Backend/src/main/java/com/orbit/Orbit/service/DetectsService.java:77 | exactly that row is removed |
| Detections.DetectionRepo.DeleteByInspectionNumber | Backend/src/main/java/com/orbit/Orbit/repo/InspectionModelDetectsRepo.java:16-18 | the table becomes RemoveInspection of the old table |
| Detections.IngestGroup | Backend/src/main/java/com/orbit/Orbit/service/DetectsService.java:32-45 | the inner loop adds one row per prediction of the group under the next consecutive ids |
| Detections.Ingest | Backend/src/main/java/com/orbit/Orbit/service/DetectsService.java:30-46 | the table gains exactly one row per prediction of the flattened batch, in batch order, under consecutive ids; existing rows are kept |
| DetectionService.EditedKeepsIdentity | Backend/src/main/java/com/orbit/Orbit/service/DetectsService.java:90-95 | an edit changes only geometry, confidence and class id; inspection, class name, parent, detection id and name survive; editing twice with the same request is editing once |
| DetectionService.DetectsService.Record | Backend/src/main/java/com/orbit/Orbit/service/DetectsService.java:98-99 | exactly one event is appended to the timeline, stamped with the current clock and the next id |
| DetectionService.DetectsService.Save | Backend/src/main/java/com/orbit/Orbit/service/DetectsService.java:29-47 | a null output list fails before storing anything; otherwise one row per prediction of the batch is added, and no timeline event |
| DetectionService.DetectsService.Get | Backend/src/main/java/com/orbit/Orbit/service/DetectsService.java:49-51 | returns exactly the inspection's detections |
| DetectionService.DetectsService.Add | Backend/src/main/java/com/orbit/Orbit/service/DetectsService.java:53-68 | fails with NotFound for an unknown inspection and with NullPointer when a number is missing, storing nothing; otherwise stores the new detection under a fresh id; the "add" event is never saved |
| DetectionService.DetectsService.Update | Backend/src/main/java/com/orbit/Orbit/service/DetectsService.java:86-101 | fails with NotFound or NullPointer and changes no store; otherwise replaces that detection with its edit and appends exactly one "edit" event with the request's author and comment |
| DetectionService.DetectsService.DeleteByDetectId | Backend/src/main/java/com/orbit/Orbit/service/DetectsService.java:71-78 | fails with NotFound and changes nothing; otherwise appends one event of type "edit" and removes only that detection |
| DetectionService.DetectsService.DeleteByInspectionNumber | Backend/src/main/java/com/orbit/Orbit/service/DetectsService.java:80-82 | removes exactly the inspection's detections and leaves the timeline as it was |
| DetectionService.DetectsService.TimelineGet | Backend/src/main/java/com/orbit/Orbit/service/DetectsService.java:103-105 | returns the inspection's events, newest first |
| DetectionService.DetectsService.DeleteTimelineByInspection | Backend/src/main/java/com/orbit/Orbit/repo/InspectionDetectsTimelineRepo.java:21-24 | removes exactly the inspection's events |
| Timeline.TimelineEntity.constructor | Backend/src/main/java/com/orbit/Orbit/model/InspectionDetectsTimeline.java:30-36 | the event takes its inspection from the detection, and its author, comment and type from the arguments; it has no id and no timestamp yet |
| Timeline.TimelineEntity.OnCreate | Backend/src/main/java/com/orbit/Orbit/model/InspectionDetectsTimeline.java:38-41 | the persist hook sets the timestamp to now and changes nothing else |
| Timeline.EventsOfInspection | Backend/src/main/java/com/orbit/Orbit/repo/InspectionDetectsTimelineRepo.java:15-16 | newest first, and a permutation of exactly the inspection's events |
| Timeline.EventsOfDetect | Backend/src/main/java/com/orbit/Orbit/repo/InspectionDetectsTimelineRepo.java:18-19 | newest first, and a permutation of exactly the detection's events |
| Timeline.DetectEventsAfterAppend | Backend/src/main/java/com/orbit/Orbit/repo/InspectionDetectsTimelineRepo.java:18-19 | a new event joins the listing of its own detection once, and no other detection's listing |
| Timeline.InspectionEventsAfterAppend | Backend/src/main/java/com/orbit/Orbit/repo/InspectionDetectsTimelineRepo.java:15-16 | a new event joins the listing of its own inspection once, and no other inspection's listing |
| Timeline.EventsWithoutInspectionKeeps | Backend/src/main/java/com/orbit/Orbit/repo/InspectionDetectsTimelineRepo.java:21-24 | the bulk delete leaves the inspection no events and keeps every other inspection's events, in order |
| Timeline.EventsWithoutInspectionIdempotent | Backend/src/main/java/com/orbit/Orbit/repo/InspectionDetectsTimelineRepo.java:21-24 | repeating the bulk delete changes nothing |
| Timeline.TimelineRepo.Save | Backend/src/main/java/com/orbit/Orbit/model/InspectionDetectsTimeline.java:11-41 | the entity gets the next id and the current time; the saved event carries its fields and is appended at the end |
| Timeline.TimelineRepo.DeleteByInspectionNumber | Backend/src/main/java/com/orbit/Orbit/repo/InspectionDetectsTimelineRepo.java:21-24 | the events become EventsWithoutInspection of the old events |
| FileUrls.StoredFilename | Backend/src/main/java/com/orbit/Orbit/service/InspectionService.java:173-174 | a null or blank original name becomes "image"; any other name is kept; the result is never blank |
| FileUrls.StorageKeyOfPublicUrl | Backend/src/main/java/com/orbit/Orbit/service/TransformerService.java:89-106 | removing "/files/" from a public URL gives back dir/id/filename when none of the three parts holds a slash |
| FileUrls.ResourcePathOfPublicUrl | Backend/src/main/java/com/orbit/Orbit/service/InspectionService.java:229 | a public URL resolves to the file under uploads/dir/id/filename |
| Inspections.ResponseOf | Backend/src/main/java/com/orbit/Orbit/dto/InspectionResponse.java:19-35 | the response copies the number, status, branch, dates and times; an inspection without a transformer shows "N/A" |
| Inspections.ResponseHidesImage | Backend/src/main/java/com/orbit/Orbit/dto/InspectionResponse.java:19-35 | two inspections that differ only in image URL or prediction JSON get the same response |
| Inspections.PatchedLaws | Backend/src/main/java/com/orbit/Orbit/service/InspectionService.java:91-121 | an update sets each non-null field and keeps each null one; the number, transformer, image and predictions never change; updating twice with the same request is updating once |
| Inspections.ImagePath | Backend/src/main/java/com/orbit/Orbit/service/InspectionService.java:224-232 | no date gives no path; a date without an image URL is a null dereference; otherwise the path under uploads |
| Inspections.ImagePathRoundTrip | Backend/src/main/java/com/orbit/Orbit/service/InspectionService.java:173-229 | an inspection image saved under its stored name is found again at uploads/inspections/number/name |
| Inspections.CommentsOf | Backend/src/main/java/com/orbit/Orbit/service/InspectionService.java:248-254 | one response per comment of the inspection, newest first |
| Inspections.CommentsOfMembers | Backend/src/main/java/com/orbit/Orbit/service/InspectionService.java:248-254 | each of the inspection's comments is listed, and only those |
| Inspections.Rewritten | Backend/src/main/java/com/orbit/Orbit/service/InspectionService.java:256-272 | the comment with that id gets the new topic, text, author and time; every other comment is unchanged |
| Inspections.InspectionService.Get | Backend/src/main/java/com/orbit/Orbit/service/InspectionService.java:85-89 | the response of a stored inspection, or null when it is absent |
| Inspections.InspectionService.InspectionsOfTransformer | Backend/src/main/java/com/orbit/Orbit/service/InspectionService.java:159-164 | exactly the responses of the transformer's inspections |
| Inspections.InspectionService.Update | Backend/src/main/java/com/orbit/Orbit/service/InspectionService.java:91-121 | NotFound leaves the store as it was; otherwise the row becomes Patched and its response is returned |
| Inspections.InspectionService.Delete | Backend/src/main/java/com/orbit/Orbit/service/InspectionService.java:153-157 | reports whether the inspection existed; afterwards it is gone and the other rows are unchanged |
| Inspections.InspectionService.AddComment | Backend/src/main/java/com/orbit/Orbit/service/InspectionService.java:235-246 | NotFound adds nothing; otherwise one comment with the next id and the current time is appended |
| Inspections.InspectionService.GetComments | Backend/src/main/java/com/orbit/Orbit/service/InspectionService.java:248-254 | returns CommentsOf the stored comments |
| Inspections.InspectionService.UpdateComment | Backend/src/main/java/com/orbit/Orbit/service/InspectionService.java:256-272 | NotFound leaves the comments as they were; otherwise the comments become Rewritten |
| Inspections.InspectionService.DeleteComment | Backend/src/main/java/com/orbit/Orbit/service/InspectionService.java:274-282 | NotFound leaves the comments as they were; otherwise exactly the comments with that id are removed |
| Inspections.InspectionService.SaveInspectionImage | Backend/src/main/java/com/orbit/Orbit/service/InspectionService.java:166-222 | an unknown inspection is a null dereference and changes nothing; otherwise its image URL is set, the prediction JSON and every other field of the row are left unchanged, and the analysis is ingested as detections |
| Inspections.InspectionService.GetInspectionImage | Backend/src/main/java/com/orbit/Orbit/service/InspectionService.java:224-232 | an unknown inspection is a null dereference; otherwise ImagePath of the row |
| Transformers.RemoveFirst | Backend/src/main/java/com/orbit/Orbit/model/Transformer.java:41-42 | an absent element leaves the list as it is; a present one is removed once |
| Transformers.RemoveFirstRemovesFirst | Backend/src/main/java/com/orbit/Orbit/model/Transformer.java:41-42 | the copy removed is the one at the first position holding the element: the result is the list without that position, everything before and after it kept in order |
| Transformers.RemoveFirstMultiset | Backend/src/main/java/com/orbit/Orbit/model/Transformer.java:41-42 | exactly one copy of the element is removed |
| Transformers.RemoveFirstSubsequence | Backend/src/main/java/com/orbit/Orbit/model/Transformer.java:41-42 | the remaining entries keep their order |
| Transformers.RemoveFirstDistinct | Backend/src/main/java/com/orbit/Orbit/model/Transformer.java:41-44 | in a list without repeats, the element is gone afterwards and the rest stay distinct |
| Transformers.Transformer.Empty | Backend/src/main/java/com/orbit/Orbit/model/Transformer.java:24-26 | every field is null and the inspection list is empty |
| Transformers.Transformer.constructor | Backend/src/main/java/com/orbit/Orbit/model/Transformer.java:28-34 | stores its five arguments; content type and base image are null; the inspection list is empty |
| Transformers.Transformer.AddInspection | Backend/src/main/java/com/orbit/Orbit/model/Transformer.java:36-39 | appends the inspection and links it back to this transformer; every inspection still links back |
| Transformers.Transformer.RemoveInspection | Backend/src/main/java/com/orbit/Orbit/model/Transformer.java:41-44 | drops the first equal entry and clears its link; the back-links and the absence of repeats are kept |
| Transformers.BaseImagePath | Backend/src/main/java/com/orbit/Orbit/service/TransformerService.java:102-108 | a path exactly when a base image URL is present |
| Transformers.BaseImageRoundTrip | Backend/src/main/java/com/orbit/Orbit/service/TransformerService.java:83-106 | a baseline image saved under its stored name is found again at uploads/transformers/number/name |
| Transformers.TransformerService.Get | Backend/src/main/java/com/orbit/Orbit/service/TransformerService.java:65-67 | the stored transformer, or null |
| Transformers.TransformerService.Update | Backend/src/main/java/com/orbit/Orbit/service/TransformerService.java:32-59 | NotFound for an unknown number; otherwise each non-null field of the request is set, each null field is kept, and the number and inspections do not change |
| Transformers.TransformerService.Delete | Backend/src/main/java/com/orbit/Orbit/service/TransformerService.java:69-73 | reports whether the transformer existed; afterwards it is gone |
| Transformers.TransformerService.SaveBaseImage | Backend/src/main/java/com/orbit/Orbit/service/TransformerService.java:76-100 | an unknown transformer is a null dereference; otherwise its base image URL becomes /files/transformers/number/stored-name, which is returned, and nothing else changes |
| Transformers.TransformerService.GetBaseImage | Backend/src/main/java/com/orbit/Orbit/service/TransformerService.java:102-109 | an unknown transformer is a null dereference; otherwise the path of its base image |
| MaintenanceRecords.Resolved | Backend/src/main/java/com/orbit/Orbit/service/MaintenanceRecordService.java:42-46 | never more inspections than requested ids |
| MaintenanceRecords.ResolvedAppend | Backend/src/main/java/com/orbit/Orbit/service/MaintenanceRecordService.java:42-46 | resolving a concatenation resolves each part, in order |
| MaintenanceRecords.ResolvedIsKnownIds | Backend/src/main/java/com/orbit/Orbit/service/MaintenanceRecordService.java:42-46 | the result is the requested known ids, in request order, each mapped to its inspection; unknown ids are skipped |
| MaintenanceRecords.ResolvedMembers | Backend/src/main/java/com/orbit/Orbit/service/MaintenanceRecordService.java:42-46 | an inspection is in the result iff some requested id names it |
| MaintenanceRecords.ResolveInspections | Backend/src/main/java/com/orbit/Orbit/service/MaintenanceRecordService.java:42-46 | the lookup loop returns Resolved of the ids |
| MaintenanceRecords.MaintenanceRecordService.Save | Backend/src/main/java/com/orbit/Orbit/service/MaintenanceRecordService.java:40-57 | a null list of numbers throws and saves nothing; otherwise one record is appended carrying the resolved inspections, the looked-up transformer (null when unknown) and the request's fields; the transformer status stays null |
| ManageTransformers.TextFilter | Backend/manage-transformers/src/main/java/com/transformer/manage_transformers/transformer/TransformerService.java:40-58 | a null field in any row throws; otherwise keeps exactly the rows whose field contains the text, ignoring case |
| ManageTransformers.TextFilterLaws | Backend/manage-transformers/src/main/java/com/transformer/manage_transformers/transformer/TransformerService.java:40-58 | the result keeps table order, and an empty search text keeps every row |
| ManageTransformers.TextFilterIgnoresCase | Backend/manage-transformers/src/main/java/com/transformer/manage_transformers/transformer/TransformerService.java:40-58 | searching for the text and for its lower-case form give the same result |
| ManageTransformers.ByName | Backend/manage-transformers/src/main/java/com/transformer/manage_transformers/transformer/TransformerService.java:26-30 | exactly the transformers whose number contains the text, ignoring case |
| ManageTransformers.ByNameLaws | Backend/manage-transformers/src/main/java/com/transformer/manage_transformers/transformer/TransformerService.java:26-30 | the result keeps table order, and an empty text returns every transformer |
| ManageTransformers.ByPole | Backend/manage-transformers/src/main/java/com/transformer/manage_transformers/transformer/TransformerService.java:33-37 | exactly the transformers whose pole number equals the given one; a null pole never matches |
| ManageTransformers.SearchIgnoresCase | Backend/manage-transformers/src/main/java/com/transformer/manage_transformers/transformer/TransformerService.java:26-44 | the number and region searches do not depend on the case of the search text |
| ManageTransformers.InspectionsByNumber | Backend/manage-transformers/src/main/java/com/transformer/manage_transformers/transformer/TransformerInspectionService.java:25-29 | exactly the inspections whose number contains the text, ignoring case |
| ManageTransformers.InspectionsByTransformer | Backend/manage-transformers/src/main/java/com/transformer/manage_transformers/transformer/TransformerInspectionService.java:33-38 | exactly the inspections whose transformer number contains the text, ignoring case |
| ManageTransformers.InspectionsByDate | Backend/manage-transformers/src/main/java/com/transformer/manage_transformers/transformer/TransformerInspectionService.java:41-45 | exactly the inspections with a date equal to the given one; an undated inspection never matches |
| ManageTransformers.InspectionsByStatus | Backend/manage-transformers/src/main/java/com/transformer/manage_transformers/transformer/TransformerInspectionService.java:47-51 | exactly the inspections with a status that contains the text, ignoring case |
| ManageTransformers.InspectionQueriesAreSubsequences | Backend/manage-transformers/src/main/java/com/transformer/manage_transformers/transformer/TransformerInspectionService.java:25-51 | every inspection query keeps table order |
| ManageTransformers.UpdatedLosesType | Backend/manage-transformers/src/main/java/com/transformer/manage_transformers/transformer/TransformerService.java:72-77 | after an update the type is the request's content type, the request's own type is dropped, and the content type is unchanged |
| ManageTransformers.TransformerCatalogue.AddTransformer | Backend/manage-transformers/src/main/java/com/transformer/manage_transformers/transformer/TransformerService.java:61-64 | returns its argument; a row with the same number is replaced, otherwise the row is appended; numbers stay unique |
| ManageTransformers.TransformerCatalogue.UpdateTransformer | Backend/manage-transformers/src/main/java/com/transformer/manage_transformers/transformer/TransformerService.java:67-83 | an unknown number returns null and changes nothing; otherwise only that row is replaced by its update, which is returned |
| ManageTransformers.TransformerCatalogue.DeleteTransformer | Backend/manage-transformers/src/main/java/com/transformer/manage_transformers/transformer/TransformerService.java:87-90 | removes every row with the number and keeps the others in order |
| Pagination.PageNumbers | frontend/src/components/common/Pagination.tsx:8-17 | at most five consecutive pages, all between 1 and the page count |
| Pagination.WindowAroundPage | frontend/src/components/common/Pagination.tsx:8-17 | for an existing page, the window holds it, has min(5, page count) entries and starts at max(1, min(page-2, count-4)) |
| Pagination.NavigationStaysInRange | frontend/src/components/common/Pagination.tsx:22-64 | Prev and Next, when enabled, lead to a page that exists |
| Pagination.LastPageLinkWhenManyPages | frontend/src/components/common/Pagination.tsx:46-56 | with more than five pages, the shortcut is shown iff the last page is not in the window |
| Pagination.LastPageShownTwice | frontend/src/components/common/Pagination.tsx:46-56 | with four pages, page 1's window is 1..4 and the shortcut to page 4 is still shown |
| Pagination.ShowsLastPageLink | frontend/src/components/common/Pagination.tsx:46 | the corrected shortcut is shown only when there are more than five pages or the page lies beyond the last one |
| Pagination.ShortcutNeverRepeats | frontend/src/components/common/Pagination.tsx:46-56 | the corrected shortcut is shown iff the last page is not in the window |
| Pagination.ShortcutAgreesWhenManyPages | frontend/src/components/common/Pagination.tsx:46 | with more than five pages, the corrected shortcut and the shortcut as written agree |
| InspectionUpload.Tagged | frontend/src/pages/InspectionUploadPage.tsx:82-106 | one box per flattened prediction, in order |
| InspectionUpload.TaggedSnoc | frontend/src/pages/InspectionUploadPage.tsx:84-104 | a further prediction appends one box and leaves the earlier boxes and their numbers alone |
| InspectionUpload.TagStep | frontend/src/pages/InspectionUploadPage.tsx:85-103 | one loop step: "f" raises the error counter and is tagged "Error n", "pf" raises the fault counter and is tagged "Fault n", any other class is tagged normal |
| InspectionUpload.TagsDistinct | frontend/src/pages/InspectionUploadPage.tsx:86-92 | Error numbers strictly increase along the list, and so do Fault numbers |
| InspectionUpload.FirstErrorIsOne | frontend/src/pages/InspectionUploadPage.tsx:86-88 | the first "f" prediction is Error 1 |
| InspectionUpload.TagGroup | frontend/src/pages/InspectionUploadPage.tsx:84-104 | the inner loop extends the boxes and both counters to cover one more group |
| InspectionUpload.TagPredictions | frontend/src/pages/InspectionUploadPage.tsx:82-106 | the loop's boxes are Tagged of the flattened outputs; missing outputs count as none |
| InspectionUpload.ColorMatchesTag | frontend/src/pages/InspectionUploadPage.tsx:376-475 | an Error box is orange and labelled "Potentially Faulty", a Fault box is red, and every other box is "Normal" |
| InspectionUpload.UploadUrl | frontend/src/pages/InspectionUploadPage.tsx:177-195 | a baseline upload without a transformer number is refused; otherwise the inspection image URL or the transformer image URL |
| InspectionUpload.UploadPage.FetchPredictions | frontend/src/pages/InspectionUploadPage.tsx:70-115 | no inspection number: nothing happens; a failed request clears the boxes; otherwise the boxes become Tagged of the response; analysing ends false |
| InspectionHistoryPage.FilteredInspections | frontend/src/pages/TransformersListPage.tsx:160-169 | a row is shown iff its number and date contain the boxes' texts, ignoring case, and the status box is empty or equals its status |
| InspectionHistoryPage.MissingFieldPassesOnlyEmptyFilter | frontend/src/pages/TransformersListPage.tsx:162-167 | a missing number or date passes only an empty box |
| InspectionHistoryPage.FilterLaws | frontend/src/pages/TransformersListPage.tsx:160-169 | the filter keeps table order; with every box empty it shows every row |
| InspectionHistoryPage.StatusNarrows | frontend/src/pages/TransformersListPage.tsx:165 | choosing a status only removes rows |
| InspectionHistoryPage.ToggleFavorite | frontend/src/pages/TransformersListPage.tsx:179-185 | rows with the number flip their star; every other row is unchanged |
| InspectionHistoryPage.FromFetched | frontend/src/pages/TransformersListPage.tsx:79-82 | every fetched row starts unstarred |
| InspectionHistoryPage.ToggleTwice | frontend/src/pages/TransformersListPage.tsx:179-185 | toggling the same number twice restores the fetched rows |
| InspectionHistoryPage.ToggleCommutesWithFilter | frontend/src/pages/TransformersListPage.tsx:160-185 | filtering after a toggle equals toggling the filtered rows |
| InspectionHistoryPage.StatusIconsDistinct | frontend/src/pages/TransformersListPage.tsx:147-158 | the three known statuses get pairwise different icons; every other status gets the default icon, which differs from all three |
| InspectionHistoryPage.StatusClassesDistinct | frontend/src/pages/TransformersListPage.tsx:134-145 | the three known statuses get pairwise different badge classes; every other status gets the default class, which differs from all three |
| MaintenanceForm.ColorsAgreeWithUploadPage | frontend/src/components/MaintenanceRecordForm.tsx:99-102 | the report's box colours match the upload page's, with limegreen for green |
| MaintenanceForm.BoxLabel | frontend/src/components/MaintenanceRecordForm.tsx:110 | the detect name if non-empty, else the class name if non-empty, else "Unknown"; never empty |
| MaintenanceForm.PdfLabelMatchesBox | frontend/src/components/MaintenanceRecordForm.tsx:600 | the PDF list and the box name a detection alike whenever it has some name |
| MaintenanceForm.FalsyToBlank | frontend/src/components/MaintenanceRecordForm.tsx:302-303 | a loaded number becomes an empty field iff it is null or 0 |
| MaintenanceForm.ToRequestNumber | frontend/src/components/MaintenanceRecordForm.tsx:766-767 | an empty field is sent as null, and only an empty field |
| MaintenanceForm.SubmitBody | frontend/src/components/MaintenanceRecordForm.tsx:763-772 | sends every available inspection number, null for each empty number field, and the form's transformer number |
| MaintenanceForm.SubmitIgnoresSelection | frontend/src/components/MaintenanceRecordForm.tsx:771 | the selected inspections have no effect on the request |
| MaintenanceForm.ZeroVoltageLost | frontend/src/components/MaintenanceRecordForm.tsx:302 | a saved voltage of 0 loads as an empty field and is resubmitted as null |
| MaintenanceForm.NonZeroVoltageKept | frontend/src/components/MaintenanceRecordForm.tsx:302-303 | any other saved voltage survives a load and a resubmit |
| MaintenanceForm.MissingToBlank | frontend/src/components/MaintenanceRecordForm.tsx:302-303 | the corrected load leaves a field empty iff the number is null |
| MaintenanceForm.LoadThenSubmitRoundTrip | frontend/src/components/MaintenanceRecordForm.tsx:297-307 | with the corrected load, loading a record and submitting it sends back its readings and texts unchanged |

## Left out

- File storage and I/O are not modelled: writing and reading the image files, creating directories, and Path.of normalisation. Only the URL and path strings are modelled.
- Calls to the vision model (RoboflowService) and the front end's HTTP requests are not modelled. Their responses are parameters: an `AnalysisResult`, or `None` for a failed request.
- Controllers, request validation and HTTP status codes are not modelled.
- Database behaviour is not modelled: foreign keys, cascades, transactions and the order of `findAll` on keyed tables. Keyed tables are maps.
- The wall clock is a counter advanced by each operation's `elapsed` argument. Dates and times are otherwise uninterpreted strings or a plain `Date` triple.
- The detection repository is keyed by the `nat` id the database generates. Its declared key type, String, is not modelled.
- Case folding covers ASCII letters only. Unicode case mapping is not modelled.
- The manage-transformers Transformer.java is not part of this model. The fields of that entity are taken from the getters and setters the service calls.
- `getTransformers` and `getInspections` in manage-transformers only return `findAll`. They are the identity on the modelled table.
- MaintenanceRecords.MaintenanceRecordService.Save does not model a null transformer number reaching the repository lookup. The number is a plain string.
- The front end's parsing of `Number(...)` is not modelled. Fields hold reals, and NaN is not modelled.
- The `String(...)` rendering of a missing PDF label is not modelled. PdfLabel returns the Option.
- Drawing on the canvas and producing the PDF are not modelled.
- React state, effects, asynchronous ordering, timers and console logging are not modelled. UploadPage models only the prediction state and the analysing flag, not the upload progress bar.
- FileUrls.StoredFilename: only ASCII whitespace counts as blank. Java's `String.isBlank` also accepts Unicode whitespace such as U+2003 or U+3000, and the source stores such a name as "image"; the model keeps the name.
- Null elements inside lists are not modelled, because sequence elements are never null. The source throws a NullPointerException for a null output or a null raw prediction in the ingest loops (DetectsService.java:30-32, InspectionService.java:198-200). It also throws for a null id among a maintenance record's requested inspection numbers (MaintenanceRecordService.java:44-45).
- Text fields that TypeScript types as string but that can be null at run time are modelled as Option.
- `Double` values are modelled as `real`. They are only copied, so rounding never matters.

## Findings

| source | as written | input that shows it | evidently intended | confidence | as-written member | corrected member |
|---|---|---|---|---|---|---|
| frontend/src/components/common/Pagination.tsx:46 | the "... last page" shortcut is shown while `currentPage < totalPages - 2` | totalPages = 4, currentPage = 1: the window is 1, 2, 3, 4 and the shortcut shows page 4 a second time | show the shortcut only when the last page is not in the window | medium, not executed | Pagination.LastPageShownTwice | Pagination.ShortcutNeverRepeats |
| frontend/src/components/MaintenanceRecordForm.tsx:302-303 | `record.voltage \|\| ''` (likewise for current) turns a measured 0 into an empty field | a saved record with voltage 0: the form shows it empty and resubmitting sends null | keep 0, and blank only a missing reading (`??`) | high, not executed | MaintenanceForm.ZeroVoltageLost | MaintenanceForm.LoadThenSubmitRoundTrip |
