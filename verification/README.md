# Infinity Station: verified cores

A Dafny model of the parts of Infinity Station that carry real state, interleaving or arithmetic, one module per part.
Concurrent parts are transition systems with one action per atomic access or locked section; theorems about them hold
of every run, with any number of threads where the source allows it. Beside each transition system stands a class with
the source's fields and the place where each thread stands. Its smallest methods take single steps, and its larger ones
are the source's functions with their loops, other threads running in between where they can. Loops of the source are
loops here, proved against a specification function or an outright property.

| file | what it models |
|---|---|
| Common.dfy | what several modules share |
| ObjectPool.dfy | the lock-free object pool: a stack behind an atomic head, a lagging counter, a deleter that refills it |
| PolygonTest.dfy | point in polygon by ray casting, over exact reals, with the source's tolerance and guard as parameters |
| ScanSegmentation.dfy | one-pass segmentation of a radar scan into regions |
| OverrunTracker.dfy | frame-to-frame matching on the circle of angles, the index table, the histories |
| SharedRegions.dfy | the same tracker as it meets the scans, whose regions are all one object |
| ClipRecorder.dfy | the pre/post-roll clip recorder, a producer against a saver thread, both variants |
| RecordWriter.dfy | the double-buffered record writer: queues, ready buffers, asynchronous writes |
| YuvConverter.dfy | YV12 to RGB conversion |
| SelectBuilder.dfy | the SELECT builder against the meaning of the clause it prints |
| LocationWorker.dfy | the location-change worker behind a condition variable |
| AdjustmentFilter.dfy | the image-position edge filter composed with its consumer |
| ConfigTree.dfy | conversion between YAML nodes and variant trees |
| StationGroups.dfy | grouping rows by station and sending one object per station |
| LoopMonitor.dfy | event-loop accounting and its alarms |

## What was found

Proofs that needed a condition, and places where code and comment disagree; the code is modelled as it stands.

- Object pool. The stack is safe when the allocator does not reissue an address that a popping thread still holds
  (`NotReissued`, a premise of the push's allocation step). `ReissueBreaksStack` gives a run from the start, two stacked
  nodes and two threads, that breaks without it, and `ExchangeExactly` says which exchanges are legal pops without it.
  The bound `max - 1 + threads` is reached for every capacity and thread count, and the counter can be read as 2^64 - 1.
- Polygon test. The literal 1e-20 added to the divisor is not harmless: `GuardMovesIntercept` gives a point two units
  right of a triangle that is classified inside. `EdgeExactly` says for every edge, higher or lower than the guard,
  exactly when it decides all points outside its range rightly, and the box theorem rests on that. Reversing the vertex
  list is harmless exactly for reversible edges (`ReversibleExactly`): any edge that is not nearly level when the guard
  is zero, and otherwise only level and vertical ones.
- Segmentation. All regions of one scan are the same object, which also starts with 600 points at the origin. So the
  size filter never fires, and the stored angle is the bearing of the origin unless more than 601 points are inside.
- Shared regions. A scan with k regions takes k indices for its one object, which remembers the last; the other k - 1
  stay in use, with their histories, for good.
- Index table. The comment on growing the table says "largest index + 1", the code takes the key that happens to come
  first. `ExpandKeepsUse` says exactly when an arbitrary key is safe, and `FirstKeyForgets` gives a table where it is
  not; the class uses the largest.
- Tracker. When two old regions choose the same new one, the earlier one's index and history stay behind for the rest
  of the run; the indices in use are exactly the live ones exactly when this never happened.
- Clip recorder. A frame is lost between the halves of a clip exactly when its push reads both flags between the two
  stores of the snapshot. One is repeated exactly when the second store comes between its push's adding to the rolling
  buffer and its read of the second flag, or when a frame left over from an earlier recording is still in the rolling
  buffer (`LeftoverExample`).
- Record writer. Records of a kind are overwritten exactly when a swap that brings some is followed by another swap
  before a writer of that kind takes them; two calls in a row with a maximum of one do it. Writers insert after they
  release the lock, so the table can be out of order although nothing is lost (`LaterBatchFirst`).
- SELECT builder. Two conditions on one field share a placeholder, so both see the last value; the offline query for a
  time range puts two bounds on `created_time` and selects only rows at the upper bound.
- Location worker. The reset clears the recorded location outside the lock. A waiting worker with no update in progress
  is up to date exactly when the run does not end with a reset's store that found a location set after the reset began;
  with updates made one at a time that cannot happen, with two callers it can.
- Edge filter. It loses an adjustment's close exactly when its consumer starts to listen after the falling edge.
- Station groups. Rows that arrive for a station already superseded by a newer one are collected and never sent.
- Loop monitor. With a dispatcher that alternates, the awake/block alarm (ratio above 3) can never fire. The reported
  times lose up to a millisecond per event, because the timer drops the part of a millisecond it has not reported.

## Model

Paths are relative to the root of the repository's sources.

| member | source | states |
|---|---|---|
| ObjectPool.ShapeStep | src/kits/common/object_pool/ObjectPool.h:127-158 | each atomic step keeps the chain from the head acyclic and apart from what threads hold, and changes the abstract stack only at a successful compare-exchange or in the destructor |
| ObjectPool.RunKeeps | src/kits/common/object_pool/ObjectPool.h:60-158 | shape, placement of every object and counter equation hold after every run of any number of threads, and its operations replay on a sequential stack |
| ObjectPool.Linearizable | src/kits/common/object_pool/ObjectPool.h:127-158 | the successful compare-exchanges of every run and the loads that find the stack empty, in order, are a legal history of one last-in first-out stack whose content is the chain's objects |
| ObjectPool.EveryObjectInOnePlace | src/kits/common/object_pool/ObjectPool.h:60-143 | in every reachable state each constructed object is in exactly one of: stack, one thread, a client, destroyed |
| ObjectPool.ChainUnique | src/kits/common/object_pool/ObjectPool.h:31-40 | the chain from the head is determined by the state |
| ObjectPool.StackBounded | src/kits/common/object_pool/ObjectPool.h:127-158 | the stack never exceeds max - 1 + threads, and the counter is its length whenever nobody is between compare-exchange and counter update |
| ObjectPool.BoundReached | src/kits/common/object_pool/ObjectPool.h:129-142 | that bound is reached for every capacity and number of threads |
| ObjectPool.CounterWraps | src/kits/common/object_pool/ObjectPool.h:121-158 | the counter can be read as 2^64 - 1 |
| ObjectPool.ReissueBreaksStack | src/kits/common/object_pool/ObjectPool.h:145-158 | from a reachable state with two threads, reissuing a freed address that a popping thread still holds leads to a head that points to no node |
| ObjectPool.ExchangeExactly | src/kits/common/object_pool/ObjectPool.h:149-154 | whatever the allocator does, a pop's successful exchange removes just the top node exactly when the remembered successor is still the node's |
| ObjectPool.Pool.PopNode | src/kits/common/object_pool/ObjectPool.h:145-158 | the retry loop with other threads running between its accesses performs exactly one stack operation however often it retries: the pop of the object in the node it returns, or a pop that finds the stack empty |
| ObjectPool.Pool.PushNode | src/kits/common/object_pool/ObjectPool.h:127-143 | reads the pool as full and destroys the object, or its retry loop performs exactly one stack operation, the push of that object |
| ObjectPool.Pool.GetObject | src/kits/common/object_pool/ObjectPool.h:60-86 | gives the client the popped object, or a new one when the pop found the stack empty |
| ObjectPool.Pool.Deleter | src/kits/common/object_pool/ObjectPool.h:76-85 | hands the object to a living pool by one push, or destroys it |
| ObjectPool.Pool.Destroy | src/kits/common/object_pool/ObjectPool.h:47-56 | the destructor's loop destroys exactly the objects in the stack |
| PolygonTest.IsPointInPolygon | src/modules/radar_online/RadarOverrun.cpp:256-294 | the loop answers yes exactly for a point on some edge or with an odd number of crossings, and no for fewer than three vertices |
| PolygonTest.OnEdgeExactly | src/modules/radar_online/RadarOverrun.cpp:267-285 | on an edge higher than the tolerance means within it, to the side, of some point of the segment; on a lower one, within it of the first end's level and in the segment's range |
| PolygonTest.RotationInvariant | src/modules/radar_online/RadarOverrun.cpp:262-293 | starting the vertex list at any vertex changes no answer, for every polygon, tolerance and guard |
| PolygonTest.ReversalInvariant | src/modules/radar_online/RadarOverrun.cpp:262-293 | reversing the vertex list changes no answer when every edge is reversible, for every guard |
| PolygonTest.ReversibleExactly | src/modules/radar_online/RadarOverrun.cpp:267-289 | an edge decides every point alike in both directions exactly when it is reversible: not nearly level, and read without a guard, level, or vertical of another height than the guard |
| PolygonTest.CrossesByLiftedSide | src/modules/radar_online/RadarOverrun.cpp:287-291 | a crossing is decided by which side of the edge, with its far end lifted by the guard, the point is on |
| PolygonTest.CrossesBySide | src/modules/radar_online/RadarOverrun.cpp:287-291 | with guard zero, by the side of the edge itself |
| PolygonTest.InterceptInRange | src/modules/radar_online/RadarOverrun.cpp:289 | a straddling edge is met within its x-range up to a margin, divisor guard included |
| PolygonTest.EdgeExactly | src/modules/radar_online/RadarOverrun.cpp:287-289 | an edge decides every point farther than a margin outside its range rightly exactly when it is steady: rising, level, stretched by at most the margin, or lower than the guard and turned over by at most the margin |
| PolygonTest.CrossingOutside | src/modules/radar_online/RadarOverrun.cpp:287-291 | for steady edges the crossings of a point outside the box are the sign changes when it is left of the box, and none elsewhere |
| PolygonTest.CrossingParity | src/modules/radar_online/RadarOverrun.cpp:262-293 | crossings that are the sign changes around a cycle, or none, are even in number |
| PolygonTest.OutsideBoxIsOutside | src/modules/radar_online/RadarOverrun.cpp:256-294 | a point farther from the bounding box than the tolerance is outside when every edge is steady for its distance |
| PolygonTest.OutsideBoxExact | src/modules/radar_online/RadarOverrun.cpp:256-294 | with guard zero this holds of every polygon |
| PolygonTest.GuardMovesIntercept | src/modules/radar_online/RadarOverrun.cpp:287-289 | with the source's literals a point two units outside its triangle is classified inside |
| PolygonTest.TriangleExact | src/modules/radar_online/RadarOverrun.cpp:256-294 | on every non-degenerate triangle yes means in the closed three-half-plane triangle or within the tolerance of an edge |
| ScanSegmentation.Segment | src/modules/radar_online/RadarOverrun.cpp:20-96 | one pass over the scan returns one entry per kept closing and per open end, all the same object, holding its starting points and all inside points |
| ScanSegmentation.ValidExactly | src/modules/radar_online/RadarOverrun.cpp:39-42 | just the points at the origin are skipped |
| ScanSegmentation.Visit | src/modules/radar_online/RadarOverrun.cpp:44-84 | one point: flag, miss count, points, angle and closing follow the marks seen so far |
| ScanSegmentation.RisesExactly | src/modules/radar_online/RadarOverrun.cpp:44-58 | the flag rises exactly at an inside point that is the first or has five valid outside points between it and the previous one |
| ScanSegmentation.FallsExactly | src/modules/radar_online/RadarOverrun.cpp:59-84 | it falls exactly on the fifth outside point in a row after an inside point |
| ScanSegmentation.EveryRiseReported | src/modules/radar_online/RadarOverrun.cpp:63-96 | with the object's starting points the size filter never fires and every rise is reported once |
| ScanSegmentation.FreshAngleIsPadding | src/modules/radar_online/RadarOverrun.cpp:68-77 | with 600 starting points at the origin the angle is that of the origin unless more than 601 points are inside |
| ScanSegmentation.AngleExactly | src/modules/radar_online/RadarOverrun.cpp:68-77 | the angle is that of the middle point of all the object held when the last kept region closed |
| ScanSegmentation.FreshAngleExactly | src/modules/radar_online/RadarOverrun.cpp:68-77 | with 600 starting points it is that of the origin as long as at most 601 points are inside by then, and otherwise that of a known inside point |
| OverrunTracker.CircularIsMetric | src/modules/radar_online/RadarOverrun.cpp:140-142 | the circular difference is a metric on [0,360) with values up to 180 |
| OverrunTracker.BestIsNearest | src/modules/radar_online/RadarOverrun.cpp:132-150 | the match is the first nearest region, and there is none exactly when all are beyond ten degrees |
| OverrunTracker.Match | src/modules/radar_online/RadarOverrun.cpp:127-168 | the nested loop inherits index and start to the nearest region, adds the point counts of all old regions that chose it, and lists the indices that ended |
| OverrunTracker.ClaimedSize | src/modules/radar_online/RadarOverrun.cpp:152-160 | a region's point count is its own plus those of exactly the old regions whose nearest it is |
| OverrunTracker.ItemContents | src/modules/radar_online/RadarOverrun.cpp:185-215 | a recorded region has that point count, and starts when the last old region to choose it did, or now |
| OverrunTracker.SortByAngle | src/modules/radar_online/RadarOverrun.cpp:109-119 | a sorted permutation |
| OverrunTracker.ExpandKeepsUse | src/modules/radar_online/RadarOverrun.cpp:332-343 | growing the table from an arbitrary key forgets no used index exactly when none of the next ten keys is in use |
| OverrunTracker.FirstKeyForgets | src/modules/radar_online/RadarOverrun.cpp:332-343 | with keys 0 to 9 in use and 0 listed first, growing the table frees the nine other indices |
| OverrunTracker.LedgerAppend | src/modules/radar_online/RadarOverrun.cpp:213-214 | recording a detection gives it one place and keeps every history consecutive and within ten degrees |
| OverrunTracker.LedgerEmit | src/modules/radar_online/RadarOverrun.cpp:218-236 | emitting a history moves its detections and keeps one place for each |
| OverrunTracker.ClosedStamps | src/modules/radar_online/RadarOverrun.cpp:225 | closing a history stamps its last entry with the time and changes nothing else |
| OverrunTracker.HistoryConsecutive | src/modules/radar_online/RadarOverrun.cpp:140-168 | neighbours in a history are one frame and at most ten degrees apart and share index and start |
| OverrunTracker.DistinctHistories | src/modules/radar_online/RadarOverrun.cpp:182-238 | no detection is in two histories, none is emitted twice, none is both live and emitted |
| OverrunTracker.LiveIndicesExactly | src/modules/radar_online/RadarOverrun.cpp:127-238 | after every frame of every run the indices in use are exactly the live ones exactly when in no frame so far two old regions matched the same new one |
| OverrunTracker.OldIndexKept | src/modules/radar_online/RadarOverrun.cpp:127-168 | a matched region's index survives exactly when it was the last to choose its match |
| OverrunTracker.LeakedForever | src/modules/radar_online/RadarOverrun.cpp:152-238 | a history whose index lost its match is not extended, emitted or reused in any later frame of the run |
| OverrunTracker.RadarOverrun.GetHashIndex | src/modules/radar_online/RadarOverrun.cpp:304-330 | the index returned was free and is the only one newly in use |
| OverrunTracker.RadarOverrun.ExpandHashTable | src/modules/radar_online/RadarOverrun.cpp:332-343 | enters ten slots behind the first listed key, or from 0, as free and nothing else |
| OverrunTracker.RadarOverrun.ReturnIndex | src/modules/radar_online/RadarOverrun.cpp:345-351 | the index is no longer in use, the others stay as they were, and no slot appears or goes |
| OverrunTracker.RadarOverrun.FinishEnded | src/modules/radar_online/RadarOverrun.cpp:217-238 | emits each ended history once with the closing time on its last entry, and frees its index |
| OverrunTracker.RadarOverrun.Track | src/modules/radar_online/RadarOverrun.cpp:98-239 | every frame keeps: distinct live indices, used indices equal to history keys, one place per detection, histories consecutive, and the run so far; each live history ends in its region with the gathered point count, each finished one carries the closing time |
| SharedRegions.Tracker.Match | src/modules/radar_online/RadarOverrun.cpp:127-168 | when the regions of a scan are one object, the entries of the last scan all choose alike: all inherit to it or all end |
| SharedRegions.Tracker.Record | src/modules/radar_online/RadarOverrun.cpp:185-215 | k entries for one object take k indices, one of them inherited if it was matched, and the object keeps only the last |
| SharedRegions.Tracker.Finish | src/modules/radar_online/RadarOverrun.cpp:217-238 | an index listed several times finishes one history |
| SharedRegions.Tracker.Track | src/modules/radar_online/RadarOverrun.cpp:98-239 | after every scan of every run the indices in use are one for the live object and one for each region beyond the first of every scan so far; those out of reach keep their histories and are never given again |
| ClipRecorder.CoarseRun | src/kits/common/save_video_by_ffmpeg/SaveVideoCache.cpp:203-234 | after any run of undivided pushes the rolling buffer is the last at most cap frames pushed while it was not frozen |
| ClipRecorder.ClipExact | src/kits/common/save_video_by_ffmpeg/SaveVideoCache.cpp:80-173 | a finished clip is exactly those frames followed by all frames pushed from the snapshot until the close |
| ClipRecorder.ClipInOrder | src/kits/common/save_video_by_ffmpeg/SaveVideoCache.cpp:80-173 | in order, without repeats |
| ClipRecorder.FineRun | src/kits/camera_service/SaveVideoCache.cpp:84-155 | the invariant of buffers, flags and clip halves over every interleaving of single accesses |
| ClipRecorder.TraceRun | src/kits/camera_service/SaveVideoCache.cpp:84-215 | over every interleaving the rolling buffer's log is the frames whose push found the first flag down, but for one not yet added |
| ClipRecorder.FineClip | src/kits/camera_service/SaveVideoCache.cpp:84-155 | over every interleaving a clip's first half is the last frames that found the first flag down and read the second before its store (and the one at the seam), its second half every later frame whose push was over at the close, behind the at most one frame left over from an earlier recording |
| ClipRecorder.LostExactly | src/kits/camera_service/SaveVideoCache.cpp:90-94 | a frame read after the first store is in neither half exactly when it read the second flag before the second store |
| ClipRecorder.NoGap | src/kits/camera_service/SaveVideoCache.cpp:90-94 | nothing is lost between the halves exactly when no push read both flags between the two stores |
| ClipRecorder.GapExample | src/kits/camera_service/SaveVideoCache.cpp:90-94 | if it does, a frame is in no buffer |
| ClipRecorder.SeamExactly | src/kits/camera_service/SaveVideoCache.cpp:84-155 | a frame is in both halves exactly when the second store came between its push's adding and its read of the second flag and the push was over at the close, or when the leftover frame is still among the last of the rolling buffer |
| ClipRecorder.LeftoverExample | src/kits/camera_service/SaveVideoCache.cpp:203-215 | a push that reads the second flag in one recording and adds after its clearing has its frame in both halves of the next clip |
| ClipRecorder.SeamExample | src/kits/camera_service/SaveVideoCache.cpp:181-215 | a push across the snapshot is on both sides of the seam |
| ClipRecorder.FlagTracksSaver | src/kits/common/save_video_by_ffmpeg/SaveVideoCache.cpp:43-80 | in every run of either variant the recording flag is up exactly while the saver works and no resetting stop came after the last start |
| ClipRecorder.Recorder.PushOriginalImage | src/kits/common/save_video_by_ffmpeg/SaveVideoCache.cpp:203-234 | the two halves of a push, with the trimming loop, are the undivided push |
| ClipRecorder.Recorder.StartRecord | src/kits/common/save_video_by_ffmpeg/SaveVideoCache.cpp:59-80 | refuses with code 3 while the flag is up, otherwise starts |
| ClipRecorder.Recorder.RecordClip | src/kits/common/save_video_by_ffmpeg/SaveVideoCache.cpp:80-173 | the saver thread with undivided pushes in between: the clip is what the rolling buffer held followed by every frame pushed up to the close |
| ClipRecorder.Recorder.OneRecording | src/kits/common/save_video_by_ffmpeg/SaveVideoCache.cpp:43-192 | from start to stop one clip is recorded, none when the encoder does not start, and none with code 3 while the flag is up |
| RecordWriter.RecordsConserved | src/modules/radar_online/RadarRecord.cpp:81-163 | over every interleaving of callers and writers each copy of a record is in exactly one of queue, a caller's batch, ready buffer, a writer's batch, table, overwritten |
| RecordWriter.PushesRead | src/modules/radar_online/RadarRecord.cpp:65-99 | the records of a kind are exactly those the run pushes with that kind |
| RecordWriter.LostExactly | src/modules/radar_online/RadarRecord.cpp:124-163 | records of a kind are overwritten exactly when a swap that brings some is followed by another swap before a writer of that kind takes them |
| RecordWriter.SecondFlushLoses | src/modules/radar_online/RadarRecord.cpp:102-136 | two calls in a row with a maximum of one lose the first record |
| RecordWriter.NothingStranded | src/modules/radar_online/RadarRecord.cpp:124-163 | a non-empty ready buffer always has a writer queued or a caller about to queue one |
| RecordWriter.FewAtRest | src/modules/radar_online/RadarRecord.cpp:102-136 | for any number of callers, once all have returned the queues hold at most the counter, which is below the maximum |
| RecordWriter.CounterOverstates | src/modules/radar_online/RadarRecord.cpp:81-122 | with two callers the counter can exceed the queued records |
| RecordWriter.OneCallerExact | src/modules/radar_online/RadarRecord.cpp:81-163 | with one caller the counter is the number queued and below the maximum between calls, and with nothing overwritten the batches taken, ready, batch and queue concatenate to the pushes in order |
| RecordWriter.FlushExactly | src/modules/radar_online/RadarRecord.cpp:102-136 | with one caller every flush takes exactly the maximum number of records, and between calls the counter is the number queued and below the maximum |
| RecordWriter.TableOrderExactly | src/modules/radar_online/RadarRecord.cpp:140-163 | with one caller and nothing overwritten the table is in push order exactly when batches that hold records are inserted in the order in which they were taken |
| RecordWriter.InsertedAsTaken | src/modules/radar_online/RadarRecord.cpp:140-163 | when they are inserted strictly as taken, table, writers' batches, ready, batch and queue concatenate to the pushes |
| RecordWriter.LaterBatchFirst | src/modules/radar_online/RadarRecord.cpp:140-149 | one caller, two calls, nothing overwritten, and the table holds the second record before the first |
| RecordWriter.CallIsRun | src/modules/radar_online/RadarRecord.cpp:102-163 | a whole call has the effect of one particular run of the small steps |
| RecordWriter.RadarRecord.WriteBatchToVector | src/modules/radar_online/RadarRecord.cpp:65-99 | the queue of the given kind gets the record at its end, the other stays, and the count grows by one |
| RecordWriter.RadarRecord.CheckMemorySizeAndWriteToDatabase | src/modules/radar_online/RadarRecord.cpp:102-136 | below the maximum nothing; otherwise both queues become the ready buffers, the old ones are lost, writers are queued for the non-empty ones |
| RecordWriter.RadarRecord.RunTask | src/modules/radar_online/RadarRecord.cpp:142-149 | a writer that no other writer overtakes appends the ready records to the table |
| YuvConverter.YV12toRGB | src/kits/camera_service/hik/HikConvertRGB.cpp:39-91 | refuses a null frame, a zero first luma and an empty size; otherwise every pixel has its colour and no byte behind the image changes |
| YuvConverter.EveryPixel | src/kits/camera_service/hik/HikConvertRGB.cpp:64-86 | the pixel numbered j * w + i has the clamped colour, by the real formulas, of its own luma and its block's bytes in the first and the second chroma plane |
| YuvConverter.ColourExactly | src/kits/camera_service/hik/HikConvertRGB.cpp:74-81 | the integer arithmetic gives the one colour that meets the formulas with their decimal factors |
| YuvConverter.ColourDependsOn | src/kits/camera_service/hik/HikConvertRGB.cpp:74-77 | red depends on the second chroma only and blue on the first, no chroma is grey, and one colour in numbers |
| YuvConverter.TowardZero | src/kits/camera_service/hik/HikConvertRGB.cpp:74-77 | each product is cut by less than one, toward zero |
| YuvConverter.ReadsInside | src/kits/camera_service/hik/HikConvertRGB.cpp:61-72 | for every size all reads lie below the read bound, in the order of the planes |
| YuvConverter.OutputOnce | src/kits/camera_service/hik/HikConvertRGB.cpp:83-85 | each of the 3wh output bytes belongs to exactly one channel of one pixel |
| YuvConverter.EvenReads | src/kits/camera_service/hik/HikConvertRGB.cpp:61-72 | for even sizes the planes are read in disjoint ranges inside 3wh/2 bytes, and the bound is reached |
| YuvConverter.PlanesExactly | src/kits/camera_service/hik/HikConvertRGB.cpp:61-72 | V stays out of U and blocks do not share chroma exactly for even width and height |
| YuvConverter.RoundingHarmless | src/kits/camera_service/hik/HikConvertRGB.cpp:74-77 | any value within 1e-9 of a factor's product truncates like the exact product, so double rounding does not matter |
| SelectBuilder.WhereWords | src/kits/common/database/SqlSelect.h:151-164 | splitting the printed clause at spaces gives the intended words |
| SelectBuilder.PrintedMeans | src/kits/common/database/SqlTypes.h:33-39 | the word printed for an operator is read by SQL as that operator, nulls included |
| SelectBuilder.PrintedAs | src/kits/common/database/SqlSelect.h:151-164 | one condition as it is printed, for each operator |
| SelectBuilder.Unambiguous | src/kits/common/database/SqlSelect.h:151-164 | a sequence of words has at most one reading by the grammar |
| SelectBuilder.OneReading | src/kits/common/database/SqlSelect.h:151-164 | the printed clause has exactly one reading |
| SelectBuilder.WhereMeans | src/kits/common/database/SqlSelect.h:75-78 | that reading, bound by name, selects a row exactly when some longest stretch joined by AND holds, each condition with its field's last value; nulls are three-valued |
| SelectBuilder.WhereMeansOwn | src/kits/common/database/SqlSelect.h:75-78 | each with its own value when conditions of one field agree |
| SelectBuilder.OwnValueExactly | src/kits/common/database/SqlSelect.h:75-78 | every condition is compared with its own value exactly when no two of one field disagree |
| SelectBuilder.RangeCollapses | src/modules/radar_offline/OfflineSqlOp.cpp:83-87 | a range on one column selects exactly the rows at its upper end |
| SelectBuilder.PrecedenceExactly | src/kits/common/database/SqlSelect.h:27-41 | the grammar and the order of the calls agree on all truth values exactly when no AND comes after an OR |
| SelectBuilder.SelectsIsSearch | src/kits/common/database/SqlSelect.h:151-164 | the truth-value reading used there is the reading of the printed clause |
| SelectBuilder.PagesConcatenate | src/kits/common/database/SqlSelect.h:141-145 | pages 1 to k concatenate to the first k page sizes of rows |
| SelectBuilder.WhereAdds | src/kits/common/database/SqlSelect.h:27-41 | a condition on a new field added with OR widens the selection by its rows; added with AND it narrows the last stretch, and the whole selection when there is no OR |
| SelectBuilder.SqlSelect.Where | src/kits/common/database/SqlSelect.h:27-41 | the first condition selects its rows whatever its logical operator; a later one on a new field widens the selection with OR and narrows it with AND when there is no OR |
| SelectBuilder.SqlSelect.BuildWhereClause | src/kits/common/database/SqlSelect.h:151-164 | the loop prints the clause whose words are the conditions' tokens |
| SelectBuilder.SqlSelect.Bind | src/kits/common/database/SqlSelect.h:75-78 | after binding, each field's placeholder holds the field's last value |
| LocationWorker.ChangesChain | src/kits/camera/tools/LocationCtrl.cpp:35-62 | with any number of callers each announced change starts where the previous ended, or from empty after a reset, and leads somewhere else unless a reset landed |
| LocationWorker.SerialUpToDate | src/kits/camera/tools/LocationCtrl.cpp:20-62 | with updates made one after the other, a worker that waits with no update in progress has recorded and announced the latest location |
| LocationWorker.UndisturbedUpToDate | src/kits/camera/tools/LocationCtrl.cpp:20-62 | the same for any number of callers whose resets find the empty location still the latest |
| LocationWorker.WaitingExactly | src/kits/camera/tools/LocationCtrl.cpp:20-62 | for any number of callers, a worker that waits with no update in progress knows the latest location exactly when the run does not end with a reset's store that found a location set, and then has announced it |
| LocationWorker.OnlyUpdateFollows | src/kits/camera/tools/LocationCtrl.cpp:38-43 | nothing but an update or a spurious wake-up ends such a wait |
| LocationWorker.OvertakenReset | src/kits/camera/tools/LocationCtrl.cpp:20-33 | with two callers the worker can wait for good on a cleared location although a later one was set |
| LocationWorker.EmptyChange | src/kits/camera/tools/LocationCtrl.cpp:46-60 | a reset can make the worker announce a change from empty to empty |
| LocationWorker.CatchesUp | src/kits/camera/tools/LocationCtrl.cpp:38-61 | left alone, the worker waits up to date after at most six steps and two more announcements |
| LocationWorker.LocationCtrl.UpdateLocation | src/kits/camera/tools/LocationCtrl.cpp:20-33 | after an update the location is reset or the worker is awake, and the announced changes still chain |
| LocationWorker.LocationCtrl.RecordByLocation | src/kits/camera/tools/LocationCtrl.cpp:35-62 | the worker's loop left alone ends waiting on the latest location, announced, after at most two more changes that chain with the earlier ones |
| LocationWorker.LocationCtrl.Emit | src/kits/camera/tools/LocationCtrl.cpp:53-56 | the unlocked part announces the recorded and the copied location with the time |
| AdjustmentFilter.FilterExact | src/modules/jihe_service/JiHeService.cpp:308-322 | the consumer makes the same adjustments with and without the filter exactly when it never starts to listen after a falling edge it missed |
| AdjustmentFilter.ListeningThroughout | src/modules/location_service/LocationService.cpp:266-306 | while it listens throughout, both runs agree completely and an adjustment is open exactly when the last type was an image |
| AdjustmentFilter.OpenIffHeard | src/modules/location_service/LocationService.cpp:275-283 | an adjustment is open exactly when the last sample heard was an image position |
| AdjustmentFilter.AdjustmentsRemember | src/modules/location_service/LocationService.cpp:275-286 | over any ticks, filtered or not, an adjustment closes with the distance read at its opening, every event carries the distance read at its own tick, and the correction applies exactly within the limits |
| AdjustmentFilter.LateDiffers | src/modules/location_service/LocationService.cpp:281-286 | at such a late start only the unfiltered consumer closes |
| AdjustmentFilter.JiHeService.OnDataToLocationTimer | src/modules/jihe_service/JiHeService.cpp:297-323 | forwards image samples and the one after them |
| AdjustmentFilter.LocationService.RecvImageData | src/modules/location_service/LocationService.cpp:266-306 | opens and closes adjustments; adjusts, by the pole's kilometre and the distance covered, exactly when an adjustment closes within the limits near a known pole |
| ConfigTree.TripStringifies | src/kits/common/config_operations/ConfigOperations.cpp:51-127 | saving and loading a tree of any depth stringifies its leaves and changes nothing else |
| ConfigTree.SaveThenLoad | src/kits/common/config_operations/ConfigOperations.cpp:79-127 | the root: a list comes back as itself, a map as a list of one, a scalar as an empty list |
| ConfigTree.LoadedTrip | src/kits/common/config_operations/ConfigOperations.cpp:20-127 | load after save is the identity on a loaded model exactly when it has no null in it |
| ConfigTree.SecondTrip | src/kits/common/config_operations/ConfigOperations.cpp:51-127 | whatever was saved first, a second round trip changes nothing |
| ConfigTree.LoadedProper | src/kits/common/config_operations/ConfigOperations.cpp:51-77 | loaded maps are sorted by key at every depth and leaves are text or null |
| ConfigTree.LoadedAs | src/kits/common/config_operations/ConfigOperations.cpp:51-77 | a null loads as an invalid variant, a scalar as its text, a sequence item by item, a map key by key with the last entry |
| ConfigTree.UnreadableFails | src/kits/common/config_operations/ConfigOperations.cpp:34-44 | a load fails, and leaves the model empty, exactly when some key anywhere in the tree cannot be read |
| ConfigTree.SavedLeaves | src/kits/common/config_operations/ConfigOperations.cpp:122-126 | an invalid variant comes back as the empty text, any other leaf as the text it converts to |
| ConfigTree.LessExactly | src/kits/common/config_operations/ConfigOperations.cpp:66-75 | keys are ordered by the first differing character, a prefix first |
| ConfigTree.LastEntryWins | src/kits/common/config_operations/ConfigOperations.cpp:66-75 | under a duplicate key the last entry is loaded |
| ConfigTree.YamlNodeToVariant | src/kits/common/config_operations/ConfigOperations.cpp:51-77 | the recursive conversion with its loops; an unreadable key fails the whole load |
| ConfigTree.VariantToYamlNode | src/kits/common/config_operations/ConfigOperations.cpp:100-127 | the inverse conversion with its loops |
| StationGroups.ConvertLinedata | src/modules/task_service/TaskService.cpp:110-158 | the sent groups flatten to the kept rows, their stations are the named ones in first-appearance order, and everything is sent exactly when all rows have a station and stations are contiguous |
| StationGroups.SentExactly | src/modules/task_service/TaskService.cpp:128-142 | a row is not sent exactly when it has no station or arrives after a newer station first appeared |
| StationGroups.AllSentExactly | src/modules/task_service/TaskService.cpp:110-158 | all rows are kept exactly when stations are contiguous and named |
| StationGroups.NamedOnce | src/modules/task_service/TaskService.cpp:128-155 | no station is sent twice and every named one is sent |
| LoopMonitor.TimeConserved | src/kits/common/eventloop_monitor/EventLoopMonitor.cpp:58-84 | on a nanosecond clock, reported plus current milliseconds, what slips between reading and restarting the timer and what the readings drop add up to the time from init to the last event; less than a millisecond per event is dropped, and nothing is lost exactly when every event comes on a whole millisecond and restarts at once |
| LoopMonitor.PeriodExact | src/kits/common/eventloop_monitor/EventLoopMonitor.cpp:58-84 | sums, counts, heavy counts and maxima are those of the durations since the last report |
| LoopMonitor.PeriodRead | src/kits/common/eventloop_monitor/EventLoopMonitor.cpp:58-84 | busy stretches are the whole milliseconds before block events of the period, sleeps those before wake events |
| LoopMonitor.HeavyExactly | src/kits/common/eventloop_monitor/EventLoopMonitor.cpp:66-67 | the heavy alarm holds exactly when at least ten busy stretches of the period exceed 200 ms |
| LoopMonitor.AlarmsExactly | src/kits/common/eventloop_monitor/EventLoopMonitor.cpp:110-123 | the ratio alarms in whole numbers |
| LoopMonitor.RatioAlarmSilent | src/kits/common/eventloop_monitor/EventLoopMonitor.cpp:110-115 | with an alternating dispatcher the awake/block ratio is at most two in every period and its alarm never fires |
| LoopMonitor.RatioTwoReached | src/kits/common/eventloop_monitor/EventLoopMonitor.cpp:110-115 | two is reached |
| LoopMonitor.HeavyMeansBusy | src/kits/common/eventloop_monitor/EventLoopMonitor.cpp:125-129 | the heavy alarm means more than two seconds of busy time |
| LoopMonitor.EventLoopMonitor.OnAboutToBlock | src/kits/common/eventloop_monitor/EventLoopMonitor.cpp:58-70 | measures one busy stretch in whole milliseconds and keeps the figures those of the period's durations |
| LoopMonitor.EventLoopMonitor.OnAwake | src/kits/common/eventloop_monitor/EventLoopMonitor.cpp:72-84 | the same for one sleep |
| LoopMonitor.EventLoopMonitor.ReportStatistics | src/kits/common/eventloop_monitor/EventLoopMonitor.cpp:86-152 | asks for the emergency exactly when an alarm holds, and resets the period |

## Left out

- Memory order: atomic accesses are sequentially consistent, and unsynchronised accesses of the source (the reset of the recorded location, the emptiness tests of the ready buffers) are single atomic steps.
- PolygonTest.ReversalInvariant: needs reversible edges, because with a guard a crossing depends on the direction of the edge.
- PolygonTest.TriangleExact: guard zero instead of 1e-20, for the reason `GuardMovesIntercept` shows.
- PolygonTest.OutsideBoxIsOutside: needs steady edges, for the same reason; two edges that decide wrongly can still cancel out, so the condition is exact for an edge and sufficient for a polygon.
- Floating point: the polygon test, angles, distances and ratios are exact reals; only the YV12 products are related to doubles.
- `atan2` and `fmod` in the angle of a point, the clock and the database lookup of a new overrun: parameters or left out.
- OverrunTracker.RadarOverrun.Track: takes pairwise distinct detections; `SharedRegions` has the tracker with the one object that a scan's regions are in the source.
- OverrunTracker.RadarOverrun.GetHashIndex: grows the table from the largest key; `ExpandKeepsUse` covers any other and `FirstKeyForgets` shows one that fails. The key is returned by value, while the source reads it through an erased iterator.
- The 32-bit width of indices, sizes, page offsets and event counts.
- Encoding, muxing and the five-second wait of the clip recorder: encoding appends frames, the wait may end at any time. A stop is its flag reset; ending the encoder under a running saver thread is not modelled.
- ClipRecorder.Recorder.StartRecord: the file name; the time between the store of the flag and the join of the last saver thread, so a start during a failed saver's clean-up is not covered; and the path without an encoder, which raises the flag and starts no saver thread.
- RecordWriter.RadarRecord.WriteBatchToVector: the record's columns are one value.
- Database failures of the record writer; `SetMaxMemorySize`, so the maximum is fixed during a run; and the destructor, which queues writers but leaves what is still in the active queues unwritten.
- The drop-oldest queue around the YV12 conversion: only easy members.
- SelectBuilder.WhereWords: field names have no space, as column names do. Field list, DISTINCT, ORDER BY and the whole statement's text are not modelled.
- Shutdown of the location worker.
- The database behind the pole lookup, and the other adjustments of the location service.
- The YAML emitter and parser, and map keys that are null, whose text depends on the parser's version.
- The JSON columns of a station's items and the query behind them.
- The emergency handler, which the source has commented out, and the log output.
- Camera, radar and other device modules, sockets, the user interface, module registration.
