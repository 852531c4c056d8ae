# Models of the hardware services

Dafny models of the algorithms, state machines and protocols behind the camera, sensor, audio and
graphics services and two of their libraries, with proofs of what they guarantee. One file stands
for one component; `dafny verify dfyconfig.toml` checks them all.

| file | component |
|---|---|
| `MediaGraph.dfy`, `CapturePaths.dfy`, `MediaPipeline.dfy` | the search for capture paths through a media controller graph, what such a path is, the pipeline made of one, and setting up its links |
| `CaptureSession.dfy`, `CaptureRequests.dfy`, `CaptureBuffers.dfy`, `CaptureAnswers.dfy`, `SessionRegions.dfy` | the capture session: submitting threads, worker, flush and close over one lock, as steps; what becomes of a request, its buffers and its answer; and the same regions as methods |
| `FlashControl.dfy`, `FlashPlans.dfy`, `CaptureStream.dfy` | the flash of a session, and the loop that gets one usable frame |
| `BufferLayout.dfy`, `BufferAcceptance.dfy`, `BufferSamples.dfy`, `BufferChannels.dfy`, `BufferHandle.dfy` | buffer layouts, which there are, the samples and channels in them, and the integers of a buffer handle |
| `Bayer.dfy`, `BayerFormats.dfy`, `Demosaic.dfy`, `Crop.dfy`, `CropRequests.dfy`, `Planner.dfy` | raw formats and rows, demosaicing, the crop of a request, the choice of a capture mode |
| `CameraIds.dfy`, `CameraReturns.dfy`, `CameraProvider.dfy` | camera IDs under hotplug, and which cameras keep theirs |
| `Sensors.dfy`, `SensorRequests.dfy`, `SensorManager.dfy`, `WakeLock.dfy` | arbitration between sensor requests, what they come to over a run, and the wake lock |
| `Ucm.dfy`, `AudioRouting.dfy`, `AudioStreams.dfy` | use case devices with conflicts, and reference counted routing shared by streams |
| `AudioRoles.dfy`, `AudioConfiguration.dfy`, `AudioExposure.dfy`, `AudioPorts.dfy`, `ChannelMasks.dfy`, `ConfigurationBuilder.dfy` | roles of audio paths, and the ports, profiles and routes built from them |
| `Hwdb.dfy`, `UdevSanitize.dfy`, `UdevText.dfy`, `Smbios.dfy` | the hwdb format and its merge, udev's sanitizing, and the SMBIOS structure walk |
| `Common.dfy` | shared datatypes and sequence facts |

Code that changes things step by step is a class or a method with loops, proved equal to a function
of its inputs or of its old state; what the component promises is proved of that function. Threads
are interleaved at the regions their locks protect. Calls into the kernel, alsa-lib, libyuv and the
framework are parameters that may answer anything; a property that needs them to succeed says so.

## Where the code and its comments differ

The models follow the code.

- `interfaces/camera/mainline/provider/CameraProvider.cpp:72-74` says a replugged camera keeps its
  ID. It does unless a camera sorted before it takes that in the same scan
  (`CameraIds.RepluggedMayLoseId`). It keeps it if and only if those sorted before it need no more
  IDs than are free below its own, and none of them comes back to that (`CameraReturns.ReplugKeepsIff`).
- `interfaces/audio/mainline/routing/RoutingController.h:18-22` says a device is on from the first
  acquisition to the last release. A conflicting device may switch it off in between
  (`AudioRouting.CountedMayBeOff`): over a whole hold it stays on if and only if nobody takes a
  conflicting device that nobody held (`AudioRouting.HeldStaysOnIff`).
- `libraries/smbios-parser/README.md:63` calls `string_count` the number of strings. It is that if
  and only if there are any (`Smbios.StringCountIff`), and 1 otherwise (`Smbios.NoStringsCountOne`).
- `interfaces/sensors/mainline/SensorManager.h:66-68` promises 0 on success only. An Activate call that
  works hides a Batch call that failed (`Sensors.EnableHides`): for hardware sensors exactly on the
  first enable (`Sensors.ZeroStatusHidesIff`), for composites exactly when that happens to an input
  (`Sensors.ZeroStatusOfCompositeIff`). Of the operations that report an error only enables are undone
  (`Sensors.ErrorKeepsIff`); repeating a failed disable answers 0 (`Sensors.FailedDisableSticks`).
- `interfaces/audio/mainline/ucm/UcmManager.cpp:247-249` means to keep conflicting devices apart. With
  calls that succeed it does if and only if the lists of conflicts go both ways
  (`Ucm.AlwaysExclusiveIff`, `Ucm.AsymmetricNotExclusive`).
- `interfaces/camera/mainline/isp/SoftIsp.cpp:80-85` asks for the bytes of a frame that are read. For
  packed ten-bit rows of half a group those are two more (`Bayer.FrameReadsBehindIff`).
- `interfaces/camera/mainline/session/FlashControl.h:60-63` means the brightness of frames without
  flash. A frame the flash fired for alone is measured too (`FlashControl.LitFrameMeasuredIff`,
  `FlashControl.DarkAsMeantIff`), so a second still capture in the dark goes unlit exactly when the
  first brought a bright frame (`FlashControl.SecondStillLitIff`, `FlashControl.SecondStillUnlit`).
- A request accepted by the capture session is answered unless it is pushed after the worker left
  (`CaptureSession.AnsweredUnlessPushedLate`, `CaptureSession.LatePushHappens`); such a push also
  blocks a flush for good (`CaptureSession.FlushReturnsIff`).
- `libraries/smbios-parser/README.md:125` says a parser that failed cannot be reset. That holds if
  and only if a complete structure could not be decoded (`Smbios.ResetFailsIff`, `Smbios.NeverOkAgain`);
  after data that ends too early it starts over (`Smbios.ResetStartsOver`).

## Model

| member | source | states |
|---|---|---|
| MediaGraph.PathFinder.FindPaths | interfaces/camera/mainline/provider/MediaPipeline.cpp:74-100 | one activation of the backtracking search appends exactly what the search from there yields, and puts `visited` and `current` back as they were |
| MediaGraph.PathFinder.FollowLinks | interfaces/camera/mainline/provider/MediaPipeline.cpp:79-99 | the loop over the links of one pad, with the push and pop around the recursive call undone at its end |
| MediaGraph.SearchMember | interfaces/camera/mainline/provider/MediaPipeline.cpp:74-100 | a path is found below an entity exactly when some usable data link out of one of its source pads leads to it |
| MediaGraph.SearchFindsRoutes | interfaces/camera/mainline/provider/MediaPipeline.cpp:74-100 | below a partial path exactly its completions to routes of at most 8 links are found: sound and complete |
| MediaGraph.SearchDistinct | interfaces/camera/mainline/provider/MediaPipeline.cpp:74-100 | with unique pad and link IDs no path is found twice |
| MediaGraph.SearchIsExact | interfaces/camera/mainline/provider/MediaPipeline.cpp:74-100 | from a sensor: all simple usable data-link paths of 1 to 8 links to a video node with neither sensor nor video node inside, nothing else, each once |
| MediaGraph.PathsFrom | interfaces/camera/mainline/provider/MediaPipeline.cpp:310-313 | the call that starts the search returns that set of paths |
| CapturePaths.FoundIff | interfaces/camera/mainline/provider/MediaPipeline.cpp:37-100 | with unique IDs a path is found iff its links, data links that are on or can be switched on, lead from the sensor over at most 7 stages with device nodes, no sensor, none twice, to a video device |
| CapturePaths.VideoIff | interfaces/camera/mainline/provider/MediaPipeline.cpp:61-64 | a video node is one by its function or by a device name that begins with video behind its last slash |
| MediaPipeline.HopSource | interfaces/camera/mainline/provider/MediaPipeline.cpp:103-123 | the pad lookups that are dereferenced unchecked succeed on a path the search found |
| MediaPipeline.HopWired | interfaces/camera/mainline/provider/MediaPipeline.cpp:103-123 | consecutive hops of a built pipeline meet in one entity with a sub-device node |
| MediaPipeline.LastHop | interfaces/camera/mainline/provider/MediaPipeline.cpp:103-123 | the last hop of a found path enters a video node |
| MediaPipeline.BuiltFromPath | interfaces/camera/mainline/provider/MediaPipeline.cpp:103-123 | hops made link by link from a found path are a connected pipeline from the sensor to the video node |
| MediaPipeline.BuildPipeline | interfaces/camera/mainline/provider/MediaPipeline.cpp:103-123 | building from a found path yields such a pipeline |
| MediaPipeline.Pick | interfaces/camera/mainline/provider/MediaPipeline.cpp:322-355 | none without formats; otherwise the first offer that no other one beats |
| MediaPipeline.PreferenceSpelled | interfaces/camera/mainline/provider/MediaPipeline.cpp:340-350 | more formats are preferred; with as many, fewer hops; with as many, more links set up already, counted |
| MediaPipeline.PickedIsBest | interfaces/camera/mainline/provider/MediaPipeline.cpp:340-350 | nothing offered beats the picked one in that order, and nothing before it is as good |
| MediaPipeline.EnableLinks | interfaces/camera/mainline/session/PipelineController.cpp:61-85 | a set-up failure is reported iff a call was refused, a missing link iff it is the first one missing; then and on success every link is on exactly as the links before it demand, and pads off the path are never touched |
| MediaPipeline.DisableCompeting | interfaces/camera/mainline/session/PipelineController.cpp:72-79 | the inner loop switches off exactly the links that compete for the pad, until a call is refused |
| MediaPipeline.CapturePathMatches | interfaces/camera/mainline/provider/MediaPipeline.cpp:41-43 | immutable links of a found path are on, so a snapshot with the same links agrees with it |
| MediaPipeline.CapturePathSeparates | interfaces/camera/mainline/provider/MediaPipeline.cpp:74-100 | the links of a simple path enter pairwise different pads |
| MediaPipeline.SetupEffect | interfaces/camera/mainline/session/PipelineController.cpp:61-85 | what one turn of the loop changes: its own link goes on, competing mutable ones go off, nothing else |
| MediaPipeline.PathConfigured | interfaces/camera/mainline/session/PipelineController.cpp:61-85 | afterwards every hop is on, every other link into its sink pad is off or immutable, and other pads are untouched |
| MediaPipeline.SetupPath | interfaces/camera/mainline/session/PipelineController.cpp:87-93 | for a path the search found and a snapshot with the same links: it fails iff a call was refused, else succeeds iff all its links are there; then every link of it is on and nothing else into its pads that can be off |
| CaptureSession.AnswerFits | interfaces/camera/mainline/session/CameraDeviceSession.cpp:431-502 | every answer names each output buffer of its request once, in order; discarded, lost and failed requests fail as a whole |
| CaptureAnswers.AnswerTells | interfaces/camera/mainline/session/CameraDeviceSession.cpp:431-502 | an answer is complete iff the request was not discarded, the device not lost before, and a frame captured; then buffer i is filled iff output i was written |
| CaptureAnswers.ReplyStands | interfaces/camera/mainline/session/CameraDeviceSession.cpp:402-502 | in every run each answer tells that of its own request, and keeps telling it |
| CaptureAnswers.TakeDiscardsIff | interfaces/camera/mainline/session/CameraDeviceSession.cpp:402-415 | in every run a request is taken for discarding iff a close has begun, or a flush since the last one ended |
| CaptureAnswers.TakenAndAnswered | interfaces/camera/mainline/session/CameraDeviceSession.cpp:402-502 | from the head of the queue to the end of the run: complete iff no close and no flush was under way when taken, the device not lost before the reply, and a frame captured |
| CaptureRequests.PreparedIff | interfaces/camera/mainline/session/CameraDeviceSession.cpp:294-363 | a request is taken iff it is no reprocessing, has outputs, its own or earlier settings, and each buffer is for a known stream and cached, or imported by the request up to there; then it keeps its frame, settings and buffers in order |
| CaptureRequests.OneHandlePerBuffer | interfaces/camera/mainline/session/CameraDeviceSession.cpp:331-361 | two buffers of a request share a handle iff they are of one stream with one ID |
| CaptureRequests.RunPrepares | interfaces/camera/mainline/session/CameraDeviceSession.cpp:294-363 | in every run: which request is taken, and that it runs with the settings it brings or those brought last, by a request taken or not |
| CaptureRequests.PushedInOrder | interfaces/camera/mainline/session/CameraDeviceSession.cpp:278-291 | in every run each thread pushes the requests it had taken once each and in order, with at most one still to be pushed |
| CaptureSession.StepHistory | interfaces/camera/mainline/session/CameraDeviceSession.cpp:267-292 | only a push accepts and only a reply answers, one request each, at the end |
| CaptureSession.StepKeepsInv | interfaces/camera/mainline/session/CameraDeviceSession.cpp:400-429 | each step of each thread keeps conservation, the buffer ledger, the phase of the worker and the single loss report |
| CaptureSession.RunKeepsInv | interfaces/camera/mainline/session/CameraDeviceSession.cpp:267-429 | in every interleaving the accepted requests are answered ++ in flight ++ queued, and every imported buffer is cached or freed once |
| CaptureSession.SessionConserves | interfaces/camera/mainline/session/CameraDeviceSession.cpp:267-429 | so it is from the opening of the session on |
| CaptureSession.HistoryGrows | interfaces/camera/mainline/session/CameraDeviceSession.cpp:267-429 | accepted requests and answers are only appended to |
| CaptureSession.FlushAnswersEverything | interfaces/camera/mainline/session/CameraDeviceSession.cpp:237-245 | when flush returns, everything accepted before it began is answered |
| CaptureSession.SessionFlushes | interfaces/camera/mainline/session/CameraDeviceSession.cpp:237-245 | so it is for a flush at any point of a session |
| CaptureSession.PendingAreDiscarded | interfaces/camera/mainline/session/CameraDeviceSession.cpp:409-421 | while a flush or close is under way every request but the one in flight comes back failed |
| CaptureSession.ExitOnlyWhenAnswered | interfaces/camera/mainline/session/CameraDeviceSession.cpp:406-412 | the worker leaves only with nothing accepted left unanswered |
| CaptureSession.AnsweredUnlessPushedLate | interfaces/camera/mainline/session/CameraDeviceSession.cpp:272-286 | after the worker left, all accepted requests are answered if and only if none was pushed since |
| CaptureSession.LatePushHappens | interfaces/camera/mainline/session/CameraDeviceSession.cpp:272-286 | a run in which the check and the push, in two critical sections, leave a request nobody answers |
| CaptureSession.FlushReturnsIff | interfaces/camera/mainline/session/CameraDeviceSession.cpp:237-245 | after the worker left, a waiting flush can return if and only if nothing was pushed since; a late push blocks it for good |
| CaptureSession.ClosedFreesAll | interfaces/camera/mainline/session/CameraDeviceSession.cpp:146-164 | a closed session has freed every buffer it imported exactly once |
| CaptureSession.StepLosesOnce | interfaces/camera/mainline/session/CameraDeviceSession.cpp:455-463 | the device is reported lost at most once |
| CaptureBuffers.GoneIffFreed | interfaces/camera/mainline/session/CameraDeviceSession.cpp:146-374 | over any run an imported buffer is given back iff some step frees it: a check that names it, an accepted configuration without its stream, or the end of close |
| CaptureBuffers.UsableIffNeverFreed | interfaces/camera/mainline/session/CameraDeviceSession.cpp:272-363 | from its preparation to any later moment, all buffers of a request are still imported iff no such step came for one of them |
| CaptureBuffers.OnlyCheckFrees | interfaces/camera/mainline/session/CameraDeviceSession.cpp:178-181 | while a request the worker will answer is queued or in flight, neither configuring nor closing frees buffers |
| CaptureBuffers.FreedInFlight | interfaces/camera/mainline/session/CameraDeviceSession.cpp:272-286 | a run in which a later check frees the buffer of the request in flight |
| SessionRegions.CameraDeviceSession.Check | interfaces/camera/mainline/session/CameraDeviceSession.cpp:267-275 | the first critical section of a submission is the Check step |
| SessionRegions.CameraDeviceSession.Prepare | interfaces/camera/mainline/session/CameraDeviceSession.cpp:294-363 | preparing a request is the Prepare step: rejection paths, cache imports and inherited settings included |
| SessionRegions.CameraDeviceSession.GatherOutputs | interfaces/camera/mainline/session/CameraDeviceSession.cpp:331-361 | the output loop stops at the first bad buffer and keeps what it imported before |
| SessionRegions.CameraDeviceSession.FreeBuffersLocked | interfaces/camera/mainline/session/CameraDeviceSession.cpp:365-374 | freeing by cache key frees each cached buffer named, once |
| SessionRegions.CameraDeviceSession.Take | interfaces/camera/mainline/session/CameraDeviceSession.cpp:402-415 | the head of the worker loop is the Take or the Exit step |
| SessionRegions.CameraDeviceSession.Answer | interfaces/camera/mainline/session/CameraDeviceSession.cpp:431-502 | what the worker does with a request is the Reply step |
| SessionRegions.Fail | interfaces/camera/mainline/session/CameraDeviceSession.cpp:569-583 | a failed request returns all its buffers with errors |
| SessionRegions.CameraDeviceSession.CloseEnd | interfaces/camera/mainline/session/CameraDeviceSession.cpp:153-164 | the second half of close, once the worker is gone |
| SessionRegions.CameraDeviceSession.Configure | interfaces/camera/mainline/session/CameraDeviceSession.cpp:166-219 | reconfiguring is refused while requests are pending, and drops the buffers of streams that go |
| FlashControl.ControlKnowsLeds | interfaces/camera/mainline/session/CameraDeviceSession.cpp:431-452 | the control and the session agree on whether the flash is lit; without a flash nothing ever is |
| FlashControl.LitBetweenRequests | interfaces/camera/mainline/session/CameraDeviceSession.cpp:447-451 | between requests the flash is lit only as a torch or as a pre-flash |
| FlashControl.PreflashEnds | interfaces/camera/mainline/session/FlashControl.cpp:25-44 | a frame is lit ahead only within the precapture time and the timeout after the last trigger |
| FlashControl.StillEndsPreflash | interfaces/camera/mainline/session/FlashControl.cpp:48-54 | the still capture a pre-flash was for ends it |
| FlashControl.WaitsForFlash | interfaces/camera/mainline/session/FlashControl.cpp:67-70 | a frame the flash fires for alone has to start after it has been on for the settling time |
| FlashControl.StillIsLit | interfaces/camera/mainline/session/FlashControl.cpp:21-54 | still captures are lit always, or when the scene was dark, whatever the flash mode |
| FlashControl.LitFrameMeasuredIff | interfaces/camera/mainline/session/FlashControl.cpp:84-86 | the brightness is taken of a lit frame iff that is a still capture in automatic mode that found the scene dark |
| FlashControl.DarkIffLastReading | interfaces/camera/mainline/session/CameraDeviceSession.cpp:447-467 | in every run the scene counts as dark iff the last reading was below the threshold, both told from the requests alone, and the pre-flash is on iff started in time and not used up |
| FlashControl.StillLitIff | interfaces/camera/mainline/session/FlashControl.cpp:21-65 | in every run a still capture in automatic mode is lit iff the last reading was dark or a pre-flash is on |
| FlashControl.SecondStillLitIff | interfaces/camera/mainline/session/FlashControl.cpp:46-58 | of two stills of which the first found it dark, the second is lit iff the first brought no frame or one dark in spite of its flash |
| FlashControl.DarkAsMeantIff | interfaces/camera/mainline/session/FlashControl.h:60-64 | dark agrees with the last frame without flash unless the reading that counts is a bright one of a lit frame |
| FlashControl.SecondStillUnlit | interfaces/camera/mainline/session/CameraDeviceSession.cpp:447-467 | two still captures in the dark of which the second is not lit |
| FlashPlans.LitNow | interfaces/camera/mainline/session/FlashControl.cpp:46-65 | in every run which frames are lit, and stay lit: by torch or single mode, a still in the dark, or a pre-flash |
| FlashPlans.RunningIffSequencing | interfaces/camera/mainline/session/FlashControl.cpp:21-44 | in every run the precapture sequence runs iff started and since then not cancelled, used up, or over in time |
| FlashPlans.ReportedState | interfaces/camera/mainline/session/FlashControl.cpp:72-80 | which exposure state is reported: locked, precapture, flash required, told from the requests |
| FlashControl.Controller.BeginFrame | interfaces/camera/mainline/session/FlashControl.cpp:12-82 | the method makes the plan |
| FlashControl.Controller.ProcessFrame | interfaces/camera/mainline/session/CameraDeviceSession.cpp:437-467 | the flash part of processing a request |
| CaptureStream.CaptureOutcome | interfaces/camera/mainline/session/CaptureStream.cpp:120-158 | a usable frame converts and starts late enough, unless the patience for early ones is used up; none only after five bad ones |
| CaptureStream.CaptureEnds | interfaces/camera/mainline/session/CaptureStream.cpp:127-158 | at most 35 frames are taken |
| CaptureStream.BuffersInOrder | interfaces/camera/mainline/session/CaptureStream.cpp:127-158 | the buffers queued back are those of the frames, one each |
| CaptureStream.CaptureFrame | interfaces/camera/mainline/session/CaptureStream.cpp:127-158 | the loop; every frame taken has been queued back once, in order |
| BufferLayout.RoundUpIsLeast | interfaces/graphics/allocator/fb/Buffer.cpp:60-63 | alignment gives the least multiple that is large enough |
| BufferLayout.MaskIsRounding64 | interfaces/graphics/allocator/fb/Buffer.cpp:60-63 | masking with the complement of a power of two is that rounding |
| BufferLayout.ShapeIsIdeal | interfaces/graphics/allocator/fb/Buffer.cpp:219-330 | the checked 64-bit arithmetic accepts exactly when unbounded arithmetic fits, and computes the same |
| BufferLayout.BuildLayoutIsIdeal | interfaces/graphics/allocator/fb/Buffer.cpp:174-348 | accepted are exactly the valid descriptors whose unbounded layout fits, and they get that layout |
| BufferLayout.TileOrdered | interfaces/graphics/allocator/fb/Buffer.cpp:219-330 | tiling planes lie in range and in order |
| BufferLayout.TileCovers | interfaces/graphics/allocator/fb/Buffer.cpp:219-330 | every byte of a tiled range is in exactly one plane |
| BufferLayout.StackTiles | interfaces/graphics/allocator/fb/Buffer.cpp:219-330 | planes stacked one behind the other tile the range |
| BufferLayout.LayoutTiles | interfaces/graphics/allocator/fb/Buffer.cpp:174-348 | the planes of every accepted layout tile [0, allocation size) without gap or overlap |
| BufferLayout.NameAndOptionsAside | interfaces/graphics/allocator/fb/Buffer.cpp:174-348 | name and options reach the layout only in the fields that repeat them |
| BufferAcceptance.AcceptedIff | interfaces/graphics/allocator/fb/Buffer.cpp:174-348 | a descriptor gets a layout iff its numbers, usage and options are sound, its format made of whole cells and its planes fit; the layout then repeats it |
| BufferAcceptance.LayoutIsTight | interfaces/graphics/allocator/fb/Buffer.cpp:219-330 | the stride is the least multiple of 64 bytes that holds a row, chroma strides follow it, planes have no row to spare, and the pixel stride is the whole pixels of a row |
| BufferSamples.SpotInRow | interfaces/graphics/allocator/fb/Buffer.cpp:509-585 | a component lies in its row and the row in its plane |
| BufferSamples.SpotsDisjoint | interfaces/graphics/allocator/fb/Buffer.cpp:509-585 | no two components of well laid planes share a bit |
| BufferSamples.SubsamplingCovers | interfaces/graphics/allocator/fb/Buffer.cpp:509-585 | samples times subsampling is the image size |
| BufferSamples.LayoutWellLaid | interfaces/graphics/allocator/fb/Buffer.cpp:509-585 | the plane layouts of every accepted descriptor are well laid, at the planes of its layout |
| BufferSamples.SamplesAreSeparate | interfaces/graphics/allocator/fb/Buffer.cpp:509-585 | in every accepted buffer each component of each sample is in its row, plane and allocation, apart from all others |
| BufferChannels.FourccNames | interfaces/graphics/allocator/fb/Buffer.cpp:216-330 | the FourCC of every layout names its channels, the bits of a sample, and its planes |
| BufferChannels.ChannelsInOrder | interfaces/graphics/allocator/fb/Buffer.cpp:509-585 | in every accepted buffer each component of the first sample is one of the channels its FourCC names, no two the same, and they lie in the order it names them in |
| BufferChannels.ChannelThere | interfaces/graphics/allocator/fb/Buffer.cpp:509-585 | and each of those channels is there, with its bits |
| BufferChannels.BitsPlaced | interfaces/graphics/allocator/fb/Buffer.cpp:509-585 | packed channels follow each other from the first bit; ten-bit ones take the high end of their 16 bits |
| BufferHandle.SplitJoins | interfaces/graphics/allocator/fb/Buffer.cpp:132-139 | splitting and joining 64-bit values through two signed ints is the identity |
| BufferHandle.JoinSplits | interfaces/graphics/allocator/fb/Buffer.cpp:132-139 | and so is joining and splitting |
| BufferHandle.WriteInts | interfaces/graphics/allocator/fb/Buffer.cpp:385-408 | the int array a handle gets is the encoding of the layout |
| BufferHandle.SlotReadsBack | interfaces/graphics/allocator/fb/Buffer.cpp:399-408 | a plane slot reads back as the plane that was written |
| BufferHandle.AllocatedIff | interfaces/graphics/allocator/fb/Buffer.cpp:350-384 | a handle is made iff both files can have their sizes, with the header before the reserved bytes |
| BufferHandle.ValidateHandle | interfaces/graphics/allocator/fb/Buffer.cpp:412-507 | the checks in order: header, sizes, planes, rebuilt layout, backing files |
| BufferHandle.AllocatedHandleValidates | interfaces/graphics/allocator/fb/Buffer.cpp:350-507 | every handle made for a built layout validates and restores every transported field |
| BufferHandle.AcceptedIsBuilt | interfaces/graphics/allocator/fb/Buffer.cpp:412-507 | conversely what an accepted handle carries is exactly what building gives for it, in files that hold it |
| BufferHandle.SomethingIsAccepted | interfaces/graphics/allocator/fb/Buffer.cpp:174-507 | there are accepted descriptors and handles: a small image and its own handle |
| BufferHandle.AcceptedIsCanonical | interfaces/graphics/allocator/fb/Buffer.cpp:350-507 | its ints are the encoding of that, up to unused plane slots |
| Bayer.StaysInRow | interfaces/camera/mainline/isp/BayerFormat.cpp:35-47 | unpacking stays inside the row bytes if and only if the width is whole groups (4 for MIPI10, 2 for MIPI12) |
| BayerFormats.NameTells | interfaces/camera/mainline/isp/BayerFormat.cpp:14-94 | each raw format has the colours, bits and packing its name says |
| BayerFormats.EveryFormatNamed | interfaces/camera/mainline/isp/BayerFormat.cpp:49-94 | all four orders come with every number of bits in every packing for that |
| BayerFormats.GreensNamed | interfaces/camera/mainline/isp/BayerFormat.cpp:19-31 | a green is named after the other colour of its row |
| Bayer.FrameReadsBehindIff | interfaces/camera/mainline/isp/SoftIsp.cpp:74-99 | of a frame that is processed a row is read behind its bytes iff it is packed ten-bit with a width 2 modulo 4 and has less than 2 bytes more than asked of it |
| Bayer.UnpackBayerRow | interfaces/camera/mainline/isp/BayerFormat.cpp:96-126 | writes exactly the samples of the row, and nothing behind them |
| Bayer.SampleInTable | interfaces/camera/mainline/isp/SoftIsp.cpp:75-106 | an unpacked sample indexes the lookup table |
| Bayer.Unpacks10 | interfaces/camera/mainline/isp/BayerFormat.cpp:107-115 | packing ten-bit samples and unpacking them is the identity |
| Bayer.Unpacks12 | interfaces/camera/mainline/isp/BayerFormat.cpp:116-124 | packing twelve-bit samples and unpacking them is the identity |
| BayerFormats.Unpacks16 | interfaces/camera/mainline/isp/BayerFormat.cpp:100-106 | unpacking two bytes a sample gives the sample modulo two to its bits |
| Demosaic.SamplesByRow | interfaces/camera/mainline/isp/SoftIsp.cpp:98-106 | every sample of the mosaic is the one of its column and row |
| Demosaic.ReflectKeepsParity | interfaces/camera/mainline/isp/SoftIsp.cpp:29-31 | mirroring stays in range and keeps parity |
| Demosaic.ColorsAround | interfaces/camera/mainline/isp/BayerFormat.cpp:19-31 | the colour at any distance follows from the colour here and the parities |
| Demosaic.TapColor | interfaces/camera/mainline/isp/SoftIsp.cpp:159-203 | every mirrored neighbour has the colour it would have without an edge |
| Demosaic.InterpolateIsConvolution | interfaces/camera/mainline/isp/SoftIsp.cpp:159-203 | in all four orders, edges included, each channel is the standard bilinear convolution of the samples of its colour, rounded |
| Demosaic.ChannelBounded | interfaces/camera/mainline/isp/SoftIsp.cpp:159-203 | each channel lies between any bounds on the neighbouring samples of its colour, of which there always is one |
| Demosaic.NativeKept | interfaces/camera/mainline/isp/SoftIsp.cpp:159-203 | a native sample is kept |
| Demosaic.FlatReproduced | interfaces/camera/mainline/isp/SoftIsp.cpp:159-203 | a flat-colour mosaic comes back exactly |
| Demosaic.DemosaicPixel | interfaces/camera/mainline/isp/SoftIsp.cpp:164-196 | the body of the inner loop computes that colour |
| Demosaic.DemosaicRow | interfaces/camera/mainline/isp/SoftIsp.cpp:161-202 | one turn of the outer loop paints one row and keeps those before |
| Demosaic.Demosaic | interfaces/camera/mainline/isp/SoftIsp.cpp:159-203 | the nested loops paint the whole picture |
| Demosaic.RenderedPixel | interfaces/camera/mainline/isp/SoftIsp.cpp:198-201 | pixel (x, y) is the four bytes at 4 * (y * width + x): blue, green, red, 255 |
| Crop.RegionInside | interfaces/camera/mainline/session/RequestSettings.cpp:54-82 | whatever zoom or crop is asked for, the region lies in the array |
| CropRequests.ZoomTakesOver | interfaces/camera/mainline/session/RequestSettings.cpp:54-65 | beyond the threshold the region is the middle of the array, each side divided by the ratio, at most the largest; the crop region does not matter |
| CropRequests.CropTakesOver | interfaces/camera/mainline/session/RequestSettings.cpp:67-79 | up to it each side is as long as asked for, and where asked for, as near as the array and the largest zoom let it; without a region the whole array |
| CropRequests.ReportedAsksTheSame | interfaces/camera/mainline/session/RequestSettings.cpp:58-81 | asking for the crop region and ratio that were reported gives the same region and report again |
| Crop.NeverBeyondMaxZoom | interfaces/camera/mainline/session/RequestSettings.cpp:54-82 | no side gets shorter than the largest zoom makes it |
| Crop.CaptureInside | interfaces/camera/mainline/session/RequestSettings.cpp:85-100 | any region from any array ends up inside the frame and at least 2x2 |
| Crop.ScaledExactly | interfaces/camera/mainline/session/RequestSettings.cpp:85-100 | a region inside the array is scaled side by side without clamping |
| Crop.CutSides | interfaces/camera/mainline/convert/FormatConverter.cpp:200-213 | cutting to aspect shortens at most one side, to the exact value rounded down |
| Crop.CropInside | interfaces/camera/mainline/convert/FormatConverter.cpp:200-219 | the crop is even, at least 2x2 and inside the frame cut to even |
| Crop.AspectWithinTwo | interfaces/camera/mainline/convert/FormatConverter.cpp:200-219 | the shortened side is within 2 pixels of the exact aspect, the other loses at most one |
| Crop.CropCentered | interfaces/camera/mainline/convert/FormatConverter.cpp:214-219 | what is cut off comes from both sides alike up to rounding |
| Crop.ComposedCrop | interfaces/camera/mainline/session/CameraDeviceSession.cpp:478-545 | the composed crop is even and inside the frame, and inside the even frame of the software ISP |
| Crop.CropPlanesInside | interfaces/camera/mainline/convert/FormatConverter.cpp:227-231 | luma and chroma rectangles of such a crop stay in their planes |
| Planner.PreferenceOrder | interfaces/camera/mainline/device/StreamPlanner.cpp:110-115 | what the score prefers, in order: faster up to 30 frames per second, smaller, no ISP, uncompressed, not emulated |
| Planner.MinDurationIsLeast | interfaces/camera/mainline/device/StreamPlanner.cpp:39-41 | of intervals that come shortest first the duration of a mode is the shortest, in whole nanoseconds |
| Planner.ServesIffNeeded | interfaces/camera/mainline/device/StreamPlanner.cpp:104-107 | containing the box of all outputs is containing each |
| Planner.PlanIsLeast | interfaces/camera/mainline/device/StreamPlanner.cpp:103-124 | a mode is planned iff one serves all outputs, and it has the lexicographically least score |
| Planner.FewerOutputs | interfaces/camera/mainline/device/StreamPlanner.cpp:103-124 | fewer outputs never make planning fail nor the score worse |
| Planner.OffersTruthful | interfaces/camera/mainline/device/StreamPlanner.cpp:70-78 | each size is offered once, with the shortest duration of the modes that contain it |
| Planner.OfferedIff | interfaces/camera/mainline/device/StreamPlanner.cpp:64-78 | a size is offered iff it is a capture or fitting standard size with a valid duration |
| Planner.OfferedCanBePlanned | interfaces/camera/mainline/device/StreamPlanner.cpp:64-124 | every offered size without negative sides can be planned alone at no more than max(offered duration, 1/30 s); exactly when another can |
| Planner.SortSorts | interfaces/camera/mainline/device/StreamPlanner.cpp:79-83 | sizes are offered largest first |
| Planner.StreamPlanner.constructor | interfaces/camera/mainline/device/StreamPlanner.cpp:43-84 | the loops of the constructor collect exactly these modes and sizes |
| Planner.StreamPlanner.PlanOutputs | interfaces/camera/mainline/device/StreamPlanner.cpp:103-124 | the loop of Plan returns the planned mode |
| Sensors.DesiredIsMinimum | interfaces/sensors/mainline/SensorManager.cpp:428-436 | with positive periods the period asked of the backend is the minimum of all requests |
| Sensors.NoRateIsClients | interfaces/sensors/mainline/SensorManager.cpp:428-436 | if nobody names a rate the last one of the client is used |
| Sensors.AppliedInSync | interfaces/sensors/mainline/SensorManager.cpp:409-472 | the backend ends up in step iff every call that was needed succeeded |
| Sensors.ZeroStatusHidesIff | interfaces/sensors/mainline/SensorManager.cpp:502-554 | from sensors in step, a hardware operation answers 0 and leaves one out of step iff it enables a sensor nobody needed, a needed Batch fails and the Activate then works; Batch and disable hide nothing |
| Sensors.ErrorKeepsIff | interfaces/sensors/mainline/SensorManager.cpp:502-554 | one that answers an error leaves all in step iff it was invalid or an enable |
| Sensors.CompositeInSyncIff | interfaces/sensors/mainline/SensorManager.cpp:474-500 | switching a composite leaves all sensors in step iff every call its inputs need succeeds |
| Sensors.ZeroStatusOfCompositeIff | interfaces/sensors/mainline/SensorManager.cpp:474-500 | it answers 0 and leaves one out of step iff all inputs exist and answer 0, and for one a needed Batch fails and the Activate then works |
| Sensors.EnableHides | interfaces/sensors/mainline/SensorManager.cpp:444-471 | an enable that answers 0 with the sensor at the wrong rate |
| Sensors.RollbackInSync | interfaces/sensors/mainline/SensorManager.cpp:518-523 | taking back a failed enable leaves a sensor that was in step in step |
| Sensors.RecordedKept | interfaces/sensors/mainline/SensorManager.cpp:474-500 | a composite is recorded at a sensor iff it is active and consumes it, whatever the backend answers |
| Sensors.InSyncKept | interfaces/sensors/mainline/SensorManager.cpp:474-554 | every control operation keeps all sensors in step when its backend calls succeed |
| Sensors.FailedEnableKeeps | interfaces/sensors/mainline/SensorManager.cpp:502-525 | a hardware enable that reports an error keeps them in step, whatever was answered |
| Sensors.FollowingKept | interfaces/sensors/mainline/SensorManager.cpp:409-472 | which sensors are on never depends on a Batch call |
| Sensors.RunKeepsConsistent | interfaces/sensors/mainline/SensorManager.cpp:474-675 | over every run of such operations |
| Sensors.SensorRunsAsAsked | interfaces/sensors/mainline/SensorManager.cpp:409-675 | a sensor is on iff the client or an active composite needs it, and runs at the smallest period asked by those who do |
| Sensors.SensorRunsFromStart | interfaces/sensors/mainline/SensorManager.cpp:409-675 | so it is in every run from registration on |
| SensorRequests.BatchStores | interfaces/sensors/mainline/SensorManager.cpp:527-554 | a valid Batch stores the clamped period and the latency at its sensor, and nothing else anywhere |
| SensorRequests.BatchRuns | interfaces/sensors/mainline/SensorManager.cpp:527-554 | with calls that succeed a sensor only its client has on then runs at exactly that rate |
| SensorRequests.BatchLeavesBackend | interfaces/sensors/mainline/SensorManager.cpp:527-554 | of a sensor the client has off, or a composite one, Batch asks the backend nothing |
| SensorRequests.ClampIsNearest | interfaces/sensors/mainline/utils/common/SensorTypes.cpp:218-228 | the clamped period is the nearest the sensor allows |
| SensorRequests.HardwareStatus | interfaces/sensors/mainline/SensorManager.cpp:502-554 | invalid requests change nothing and answer an error; others succeed if the calls do |
| SensorRequests.CompositeStatus | interfaces/sensors/mainline/SensorManager.cpp:474-500 | with calls that succeed a composite is refused nothing but inputs that do not exist |
| SensorRequests.ClientTold | interfaces/sensors/mainline/SensorManager.cpp:502-554 | in every run the stored client requests are the last switch that was not refused and the last valid rate |
| SensorRequests.SensorRunsAsRequested | interfaces/sensors/mainline/SensorManager.cpp:409-675 | in every run from registration on a sensor is on iff the last request of its client or of a composite on it says so, and runs at the smallest period the last valid requests ask for |
| Sensors.FailedDisableSticks | interfaces/sensors/mainline/SensorManager.cpp:513-524 | a failed disable leaves a sensor nobody needs on, and repeating it answers 0 without asking the backend |
| SensorManager.SensorManager.ComputePeriod | interfaces/sensors/mainline/SensorManager.cpp:428-436 | the loop over the composite periods, in key order |
| SensorManager.SensorManager.ApplyHardwareState | interfaces/sensors/mainline/SensorManager.cpp:409-472 | the method does to its maps what the model of one application says |
| SensorManager.SensorManager.ActivateComposite | interfaces/sensors/mainline/SensorManager.cpp:474-500 | marks all inputs, then applies each, the last error returned |
| SensorManager.SensorManager.Activate | interfaces/sensors/mainline/SensorManager.cpp:502-525 | is the Activate operation |
| SensorManager.SensorManager.Batch | interfaces/sensors/mainline/SensorManager.cpp:527-554 | is the Batch operation |
| SensorManager.SensorManager.DeactivateAll | interfaces/sensors/mainline/SensorManager.cpp:653-675 | is the DeactivateAll operation |
| WakeLock.OutstandingIsLargestSuffix | interfaces/sensors/mainline/EventDispatcher.cpp:155-159 | in any order of posts and acknowledgements the count is the largest suffix sum, since the last reset, of written - handled less what 32 bits lose |
| WakeLock.NothingLost | interfaces/sensors/mainline/EventDispatcher.cpp:155-159 | nothing is lost as long as no count reaches 2^32 |
| WakeLock.CountExact | interfaces/sensors/mainline/EventDispatcher.cpp:157-159 | one update keeps the true count iff that fits in 32 bits |
| WakeLock.HeldIffOutstanding | interfaces/sensors/mainline/EventDispatcher.cpp:166-183 | one update whose calls succeed makes held and outstanding agree again, from any state |
| WakeLock.HeldIffSuffixPositive | interfaces/sensors/mainline/EventDispatcher.cpp:155-184 | the lock is held iff some suffix wrote more than it handled |
| WakeLock.HeldByCalls | interfaces/sensors/mainline/EventDispatcher.cpp:166-183 | only an acquire that succeeds with something outstanding, or a release that succeeds with nothing, changes whether the lock is held |
| WakeLock.DeadlineFollowsLastWrite | interfaces/sensors/mainline/EventDispatcher.cpp:161-164 | the deadline is the timeout after the last write |
| WakeLock.TimeoutReleases | interfaces/sensors/mainline/EventDispatcher.cpp:174-183 | the first update without a write after the timeout releases the lock and forgets the count |
| WakeLock.NeverReleasedEarly | interfaces/sensors/mainline/EventDispatcher.cpp:173-183 | before the timeout only acknowledging everything outstanding releases it |
| WakeLock.EventDispatcher.UpdateWakeLock | interfaces/sensors/mainline/EventDispatcher.cpp:155-184 | the method is one update |
| WakeLock.EventDispatcher.ResetWakeLock | interfaces/sensors/mainline/EventDispatcher.cpp:66-73 | the reset of Initialize and Shutdown |
| AudioRouting.KeyInjective | interfaces/audio/mainline/routing/RoutingController.cpp:19-21 | different endpoints have different keys |
| AudioRouting.HoldsChange | interfaces/audio/mainline/stream/StreamMainline.cpp:98-100 | each step of a stream changes its holds by the endpoint it acquires or releases |
| AudioRouting.ReleaseMeetsCount | interfaces/audio/mainline/routing/RoutingController.cpp:44-51 | a release always meets a count |
| AudioRouting.RunKeepsCounted | interfaces/audio/mainline/routing/RoutingController.cpp:23-66 | in every interleaving of streams each count is the number of holds on its key |
| AudioRouting.OnlySwitchesReachCards | interfaces/audio/mainline/routing/RoutingController.cpp:23-66 | only the first hold and the last release reach the use case manager |
| AudioRouting.HeldNotSwitched | interfaces/audio/mainline/stream/StreamMainline.cpp:92-100 | a key held before and after a step is not switched by it |
| AudioRouting.SharedNeverSwitched | interfaces/audio/mainline/stream/StreamMainline.cpp:92-100 | a device in the old and the new set is never switched, by any stream, in any interleaving |
| AudioRouting.RunKeepsSound | interfaces/audio/mainline/ucm/UcmManager.cpp:244-266 | with calls that succeed: what is on is held, conflicting devices exclude each other, and without conflicts exactly the held devices are on |
| AudioRouting.StartIsSound | interfaces/audio/mainline/routing/RoutingController.cpp:23-66 | the state at start is such a state |
| AudioRouting.AcquireKeepsOnIff | interfaces/audio/mainline/ucm/UcmManager.cpp:250-258 | a device goes off on an acquisition iff the newly enabled one conflicts with it |
| AudioRouting.ReleaseKeepsOnIff | interfaces/audio/mainline/routing/RoutingController.cpp:44-66 | a release switches a device off iff it was the last hold of that very endpoint |
| AudioRouting.HeldStaysOnIff | interfaces/audio/mainline/routing/RoutingController.cpp:23-66 | over any run a device that is on and held all along is on at the end iff nobody took an endpoint nobody held whose device lists it as conflicting |
| AudioRouting.CountedMayBeOff | interfaces/audio/mainline/ucm/UcmManager.cpp:250-258 | a held device can be off, and stays off after the conflicting one is released |
| AudioStreams.RoutingController.Acquire | interfaces/audio/mainline/routing/RoutingController.cpp:23-42 | the method is one acquisition |
| AudioStreams.RoutingController.Release | interfaces/audio/mainline/routing/RoutingController.cpp:44-66 | the method is one release |
| AudioStreams.StreamMainline.SetConnectedDevices | interfaces/audio/mainline/stream/StreamMainline.cpp:81-108 | acquires all new endpoints in order, then releases all old ones |
| AudioStreams.StreamMainline.ReleaseRouting | interfaces/audio/mainline/stream/StreamMainline.cpp:75-79 | releases everything connected |
| AudioStreams.UninterruptedSwitch | interfaces/audio/mainline/stream/StreamMainline.cpp:98-101 | that call, run alone, is a run of the interleaved model with the same effect |
| Ucm.EnableExclusive | interfaces/audio/mainline/ucm/UcmManager.cpp:244-260 | with symmetric lists, enabling keeps conflicting devices apart |
| Ucm.EnableExclusiveIff | interfaces/audio/mainline/ucm/UcmManager.cpp:244-260 | one enable keeps conflicting devices apart iff the device was on, or lists in turn every device that is on and lists it |
| Ucm.AlwaysExclusiveIff | interfaces/audio/mainline/ucm/UcmManager.cpp:244-266 | with calls that succeed, conflicting devices are apart in every run from nothing on iff the lists go both ways |
| Ucm.AsymmetricNotExclusive | interfaces/audio/mainline/ucm/UcmManager.cpp:244-260 | two devices of which only one lists the other end up on together |
| Ucm.OnIff | interfaces/audio/mainline/ucm/UcmManager.cpp:244-266 | in every run, whatever calls fail, a device is on iff it was turned on, or on from the start, and no successful call turned it off since |
| Ucm.UcmManager.EnableDevice | interfaces/audio/mainline/ucm/UcmManager.cpp:244-260 | the conflict loop and the enable |
| Ucm.UcmManager.DisableDevice | interfaces/audio/mainline/ucm/UcmManager.cpp:262-266 | disabling what is on |
| AudioRoles.StableSortSorts | interfaces/audio/mainline/routing/DeviceInventory.cpp:428-435 | primary card first, then higher priority |
| AudioRoles.DemoteRight | interfaces/audio/mainline/routing/DeviceInventory.cpp:436-485 | after the role loop exactly the taken roles are played, once each, and the extra heads are known |
| AudioRoles.FirstKeepsRole | interfaces/audio/mainline/routing/DeviceInventory.cpp:444-485 | an endpoint keeps its role iff it may have it and no earlier one that may does |
| AudioRoles.ChoiceIsBest | interfaces/audio/mainline/routing/DeviceInventory.cpp:490-519 | some path is promoted iff one may be: of the primary card if there is any, then the most preferred, then the first |
| AudioRoles.MissingIffNonePromotable | interfaces/audio/mainline/routing/DeviceInventory.cpp:520-524 | no real path becomes the speaker iff none may be promoted |
| AudioRoles.PromoteKeeps | interfaces/audio/mainline/routing/DeviceInventory.cpp:490-519 | a promotion adds one player of the target role and takes away none of another |
| AudioRoles.RolesRight | interfaces/audio/mainline/routing/DeviceInventory.cpp:425-553 | exactly one speaker, at most one endpoint per other non-bus role, no HDMI head as speaker |
| AudioRoles.DeviceInventory.DemoteRoles | interfaces/audio/mainline/routing/DeviceInventory.cpp:436-485 | the loop with its flags and sets |
| AudioRoles.DeviceInventory.PromoteRole | interfaces/audio/mainline/routing/DeviceInventory.cpp:490-519 | the three nested loops of a promotion |
| AudioRoles.DeviceInventory.AssignRoles | interfaces/audio/mainline/routing/DeviceInventory.cpp:425-531 | the whole assignment |
| AudioRoles.DeviceInventory.AddNullEndpointsIfNeeded | interfaces/audio/mainline/routing/DeviceInventory.cpp:533-553 | the null endpoints |
| AudioConfiguration.IntersectionExact | interfaces/audio/mainline/routing/ConfigurationBuilder.cpp:122-147 | the intersection supports exactly what every endpoint supports, within its window of channels |
| AudioConfiguration.FilterNarrows | interfaces/audio/mainline/routing/ConfigurationBuilder.cpp:170-193 | the high resolution filter only takes out; the primary output keeps such formats or rates only if there are no others |
| AudioConfiguration.PrimaryFilterKeepsProfile | interfaces/audio/mainline/routing/ConfigurationBuilder.cpp:170-193 | that filter never takes away the last configuration |
| ChannelMasks.MasksExact | interfaces/audio/mainline/alsa/AlsaFormat.cpp:225-239 | the masks are exactly the listed positional layouts and the low index masks of 1 to 8 channels within the capabilities |
| ChannelMasks.AdvertisedInMasks | interfaces/audio/mainline/alsa/AlsaFormat.cpp:225-266 | profiles advertise a format, a rate and a mask of so many channels iff the capabilities support them, with 1 to 8 channels |
| ChannelMasks.ChannelMasksFor | interfaces/audio/mainline/alsa/AlsaFormat.cpp:225-239 | the loop over the channel counts |
| AudioConfiguration.CommonHasProfiles | interfaces/audio/mainline/routing/ConfigurationBuilder.cpp:162-165 | a common configuration is never left without a profile |
| AudioConfiguration.ConfigurationGood | interfaces/audio/mainline/routing/ConfigurationBuilder.cpp:223-365 | whatever the endpoints: consecutive port IDs, routes between ports, no mix port without profiles but the USB ones, and along every route the device port supports all that is advertised |
| AudioExposure.SharedExact | interfaces/audio/mainline/routing/ConfigurationBuilder.cpp:122-193 | what the endpoints of a port share is exactly what all of them can do, in its window of channels |
| AudioExposure.AdvertisesMeant | interfaces/audio/mainline/routing/ConfigurationBuilder.cpp:291-345 | every mix port advertises exactly what is meant for it: what all its endpoints can do, high resolution left to its own port, or the fallback |
| AudioPorts.PortsExposed | interfaces/audio/mainline/routing/ConfigurationBuilder.cpp:223-365 | the mix ports are exactly those the endpoints call for, once each, every route belongs to one and is there once |
| AudioPorts.InputExposedIff | interfaces/audio/mainline/routing/ConfigurationBuilder.cpp:337-346 | there is a primary input iff there is an input endpoint |
| AudioPorts.InputRouted | interfaces/audio/mainline/routing/ConfigurationBuilder.cpp:337-346 | it has profiles, and its one route comes from exactly the input device ports |
| AudioPorts.MultichannelExposedIff | interfaces/audio/mainline/routing/ConfigurationBuilder.cpp:323-327 | there is a multichannel output iff asked for, some output has six channels, and all such share a configuration of 3 to 8 |
| AudioPorts.HiresExposedIff | interfaces/audio/mainline/routing/ConfigurationBuilder.cpp:329-335 | there is a high resolution output iff some output can do that and all such share such a configuration of 1 or 2 channels |
| AudioPorts.OutputRouted | interfaces/audio/mainline/routing/ConfigurationBuilder.cpp:291-335 | an output is routed to exactly the device ports it is for, one by one |
| AudioPorts.DevicesThere | interfaces/audio/mainline/routing/ConfigurationBuilder.cpp:237-289 | the device ports come first, in the order of the endpoints, then the four for USB devices |
| AudioPorts.DevicePortsRight | interfaces/audio/mainline/routing/ConfigurationBuilder.cpp:237-248 | a device port has the direction and profiles of its endpoint; none for a device that may connect |
| AudioConfiguration.PrimaryReachesAll | interfaces/audio/mainline/routing/ConfigurationBuilder.cpp:291-301 | the primary output always has a profile and is routed to every output |
| AudioConfiguration.SpeakerIsRouted | interfaces/audio/mainline/routing/ConfigurationBuilder.cpp:223-302 | there is a speaker on every device and the primary output plays to it |
| ConfigurationBuilder.Intersect | interfaces/audio/mainline/routing/ConfigurationBuilder.cpp:122-147 | the narrowing loops compute the intersection |
| ConfigurationBuilder.Builder.AddDevicePorts | interfaces/audio/mainline/routing/ConfigurationBuilder.cpp:237-265 | the device loop numbers the ports and sorts them into groups |
| ConfigurationBuilder.Builder.BuildConfiguration | interfaces/audio/mainline/routing/ConfigurationBuilder.cpp:223-365 | the steps together build the configuration |
| Hwdb.ParseConcat | libraries/libhwdb/Hwdb.cpp:73-188 | texts joined by an empty line parse to the records of one followed by those of the other |
| Hwdb.CollectedConcat | libraries/libhwdb/Hwdb.cpp:190-207 | a lookup in joined records is the first result overridden by the second |
| Hwdb.CollectedIff | libraries/libhwdb/Hwdb.cpp:190-207 | a lookup yields a key iff a record with a matching pattern sets it |
| Hwdb.LastOneCounts | libraries/libhwdb/Hwdb.cpp:190-207 | and the value the last such record gives |
| Hwdb.TrailingIgnored | libraries/libhwdb/Hwdb.cpp:118-125 | a comment behind a line, and the space before it, change nothing |
| Hwdb.MergedLookup | interfaces/camera/mainline/config/CameraHwdb.cpp:60-79 | a lookup in the merged text is that of each file, the last file that sets a property winning |
| Hwdb.PropertyRead | libraries/libhwdb/Hwdb.cpp:101-123 | a property line adds exactly its key and value |
| Hwdb.Quirks | libraries/libhwdb/Hwdb.cpp:125-179 | a comment changes nothing, a property outside a record is ignored, a pattern after properties is read as an empty line |
| Hwdb.RoundTrip | libraries/libhwdb/Hwdb.cpp:73-188 | writing well-formed records and parsing the text gives the same records |
| Hwdb.ParsedGood | libraries/libhwdb/Hwdb.cpp:73-188 | whatever the text, every parsed entry could have been written as a record |
| Hwdb.ParsedIffGood | libraries/libhwdb/Hwdb.cpp:73-188 | exactly the lists of such entries are what some text parses to |
| Hwdb.Hwdb.StripTrailingWhitespace | libraries/libhwdb/Hwdb.cpp:48-52 | the loop strips all trailing space |
| Hwdb.Hwdb.InsertProperty | libraries/libhwdb/Hwdb.cpp:101-123 | the blank collapsing loop leaves the key after all leading blanks |
| Hwdb.Hwdb.Parse | libraries/libhwdb/Hwdb.cpp:73-188 | the line loop with its three states |
| Hwdb.Hwdb.MatchAndCollect | libraries/libhwdb/Hwdb.cpp:190-207 | the lookup loop |
| Hwdb.Hwdb.GetProperty | libraries/libhwdb/Hwdb.cpp:215-223 | the property or the default |
| Hwdb.Merge | interfaces/camera/mainline/config/CameraHwdb.cpp:63-73 | the merge loop |
| UdevSanitize.SanitizedIsClean | libraries/libhwdb/UdevSanitize.cpp:70-96 | the result is made of allowed bytes, escapes and UTF-8 sequences only |
| UdevSanitize.UnchangedIffClean | libraries/libhwdb/UdevSanitize.cpp:70-96 | exactly such values come back unchanged |
| UdevSanitize.Idempotent | libraries/libhwdb/UdevSanitize.cpp:70-96 | twice is once |
| UdevSanitize.OnlyReplacements | libraries/libhwdb/UdevSanitize.cpp:70-96 | a byte changes only if not allowed, to a space or an underscore |
| UdevSanitize.CleanBytes | libraries/libhwdb/UdevSanitize.cpp:70-96 | what is not allowed in the result is a backslash before an x or a byte of a sequence |
| UdevText.TextKept | libraries/libhwdb/UdevSanitize.cpp:33-96 | text of allowed characters, escapes and encoded code points is kept, whatever follows |
| UdevText.Replaced | libraries/libhwdb/UdevSanitize.cpp:76-96 | a byte nothing kept begins with becomes a space or an underscore, and those around it what they would be without it |
| UdevText.CleanUpTo | libraries/libhwdb/UdevSanitize.cpp:76-96 | every value is clean up to such a byte |
| UdevSanitize.Utf8Length | libraries/libhwdb/UdevSanitize.cpp:33-55 | the structural test of a sequence |
| UdevSanitize.Sanitize | libraries/libhwdb/UdevSanitize.cpp:70-96 | the in-place loop |
| Smbios.DecodingFailsIff | libraries/smbios-parser/smbios.c:136-213 | decoding a list of fields fails iff they do not all end before the last byte of the structure |
| Smbios.SuccessAdvances | libraries/smbios-parser/smbios.c:706-756 | each successful step moves the end strictly on, within the data |
| Smbios.PositionedIff | libraries/smbios-parser/smbios.c:706-723 | only a first step on data too short for a header leaves no position to go on from |
| Smbios.FailureStays | libraries/smbios-parser/smbios.c:706-756 | what fails keeps failing |
| Smbios.NeverOkAgain | libraries/smbios-parser/smbios.c:126-134 | after a decoding failure no sequence of further calls and resets ever answers Ok |
| Smbios.ResetFailsIff | libraries/smbios-parser/smbios.c:700-756 | after a step a reset fails iff the structure is complete but its decoded fields do not all end before its last byte |
| Smbios.ResetStartsOver | libraries/smbios-parser/smbios.c:126-134 | after any other failure a reset makes the walk the one of a new parser |
| Smbios.ScanWords | libraries/smbios-parser/smbios.c:732-744 | the scan counts the strings and stops behind the null after the last |
| Smbios.StepReads | libraries/smbios-parser/smbios.c:706-756 | a serialised structure is yielded iff its decoded fields end before its last byte; its entry shows header, body and every string under its number, and for none an empty one |
| Smbios.FieldsReachStringsIff | libraries/smbios-parser/smbios.c:136-213 | exactly when decoded fields run past the formatted part into the strings of a structure that is yielded all the same |
| Smbios.WalkYields | libraries/smbios-parser/smbios.c:706-756 | walking a serialised table yields its structures up to the first whose fields do not fit; all of them and then the end exactly when there is none |
| Smbios.StringsStayInside | libraries/smbios-parser/smbios.c:111-123 | whatever the data, a string of a returned entry lies in its structure |
| Smbios.NoStringsCountOne | libraries/smbios-parser/smbios.c:732-744 | whatever the data, an entry with two nulls in place of strings counts one, which reads as empty |
| Smbios.StringCountIff | libraries/smbios-parser/smbios.c:732-744 | the count of a serialised structure is the number of its strings iff it has any |
| Smbios.Parser.ScanStrings | libraries/smbios-parser/smbios.c:732-744 | the scanning loop |
| Smbios.Parser.NextEntry | libraries/smbios-parser/smbios.c:706-756 | the method is one step |
| Smbios.Parser.FindString | libraries/smbios-parser/smbios.c:111-123 | the string loop |
| CameraIds.LeastFree | interfaces/camera/mainline/provider/CameraIdAllocator.cpp:19-20 | the search ends at the least free ID from its base |
| CameraIds.AddedId | interfaces/camera/mainline/provider/CameraProvider.cpp:107-132 | the ID a new camera gets |
| CameraIds.RunsKeepIdsApart | interfaces/camera/mainline/provider/CameraProvider.cpp:61-131 | in every run of rescans live cameras have different IDs, external ones from the offset on |
| CameraIds.LiveKeepsId | interfaces/camera/mainline/provider/CameraProvider.cpp:75-92 | a camera that is still there keeps its ID |
| CameraIds.AllKeepTheirIds | interfaces/camera/mainline/provider/CameraProvider.cpp:107-132 | when only cameras with free old IDs come back, each keeps its own |
| CameraIds.RepluggedMayLoseId | interfaces/camera/mainline/provider/CameraProvider.cpp:72-92 | a replugged camera loses its ID to a new one that sorts before it |
| CameraReturns.PrefixTracks | interfaces/camera/mainline/provider/CameraProvider.cpp:107-131 | after any candidates sorted before a camera, its old ID is free iff they need no more IDs than are free below it and nobody comes back to it |
| CameraReturns.KeepsIdIff | interfaces/camera/mainline/provider/CameraProvider.cpp:72-131 | a camera a rescan adds gets the ID it had before iff nobody has it or comes back to it earlier and those sorted before it that take one from below are no more than the IDs free there |
| CameraReturns.ReplugKeepsIff | interfaces/camera/mainline/provider/CameraProvider.cpp:72-92 | in every run: a live camera found again at another node keeps its ID iff so |
| CameraReturns.NoneLeft | interfaces/camera/mainline/provider/CameraProvider.cpp:72-92 | the replugged camera that loses its ID violates that condition |
| CameraIds.SortSorts | interfaces/camera/mainline/provider/CameraProvider.cpp:100-105 | new cameras are added in order: internal, back facing, key |
| CameraIds.OrderSpelled | interfaces/camera/mainline/provider/CameraProvider.cpp:100-105 | new cameras in that order: internal ones, of those back facing ones, and then by the first difference of keys |
| CameraIds.ProbeOrderDoesNotMatter | interfaces/camera/mainline/provider/CameraProvider.cpp:94-106 | IDs do not depend on the order of discovery |
| CameraProvider.CameraIdAllocator.Allocate | interfaces/camera/mainline/provider/CameraIdAllocator.cpp:10-27 | the method is one allocation |
| CameraProvider.CameraIdAllocator.Release | interfaces/camera/mainline/provider/CameraIdAllocator.cpp:29-31 | the method is one release |
| CameraProvider.CameraProvider.Rescan | interfaces/camera/mainline/provider/CameraProvider.cpp:61-131 | the method is one rescan |

## Left out

- The values of the interface definitions and kernel headers: buffer usage masks, pixel formats
  beyond the modelled ones, function codes of media entities. They are not in this repository and are
  parameters or uninterpreted; the FourCC codes in `BufferLayout.dfy` are spelt out by their letters.
- Kernel calls (ioctl, mmap, poll, sysfs), binder, message queues and the `CameraDeviceSession`
  metadata queues: they answer what the parameters say.
- `EvaluateFormats`, format propagation in `PipelineController::Configure`, and the probing of
  cameras: they only relay what sub-devices answer.
- `CaptureStream` before its loop (formats, frame intervals, timeouts), time stamps of results, and
  `Flash`, which scales LED levels and serves the torch while no session is open.
- Statistics, gains, gamma and lookup tables of the software ISP, and `Isp3A`: floating point.
- `ConvertToI420` and scaling, which call libyuv, JPEG encoding and metadata: their code is elsewhere.
- Composite sensors beyond their active flag, inputs and period, which is constant in the only one
  there is; registration and renaming of sensors; event delivery and flush.
- 32-bit reference counts of routing, port IDs and camera IDs are unbounded integers.
- PCM devices, gain and sample conversion of streams (`AlsaFormat`), the worker side of
  `StreamMainline`, and collecting candidates from cards and profiles: alsa-lib decides them. What
  collection guarantees about roles is the precondition `Collected` of `AudioRoles.RolesRight`.
- Names and addresses of audio ports, what a detachable device port advertises once connected, and the bits of positional layouts, which the interface defines.
- Per-type SMBIOS fields: decoding reads any list of widths, which may depend on the structure. The value
  of a 64-bit field, which is shifted as an `int`, is not modelled.
- `fnmatch` is an uninterpreted predicate of pattern and query.
- Smbios.Parser.NextEntry: requires a position to go on from; after a first call on at most four
  bytes of data the source has none (`Smbios.PositionedIff`).
- Sensors.RunKeepsConsistent: assumes periods that are positive after clamping; a sensor without a
  minimum delay can be asked for period 0.
- Crop.RegionInside: for an array whose sides are exact in floating point, as they are up to 2^24, and a
  zoom ratio that is a number.
- SessionRegions.CameraDeviceSession.Configure: opening the device and its buffers is one answer of the planner.
- AudioConfiguration.ConfigurationGood: the primary ports are covered only when their endpoints have
  something in common; otherwise they advertise the fallback.
