# video-application, modelled in Dafny

A model of the core of a self-hosted video service, with proofs about it. The service has three parts:

- **The API (C#).** It takes resumable chunked uploads into object storage: start an upload, upload one chunk at a time, then finish by assembling the chunks into the source blob. It manages channels and shows videos to their owners and to the public. It records the worker's transcoding events on the video rows and their track tables.
- **The worker (C#).** It probes an uploaded source with ffprobe and plans an HLS ladder of video renditions and audio tracks. It builds the single ffmpeg invocation that produces them, reads ffmpeg's progress output and uploads the produced files.
- **The UI (TypeScript/Svelte).** It hashes each 10 MiB slice of a file with a hand-written SHA-256, skips slices the server already holds, and keeps the session in two cookies. It also keeps per-request stores while rendering on the server.

Each modelled source file has a Dafny module of its own, named after its class or its file. Three modules cover pieces shared by several files. Database holds the tables and the object store. UploadRules holds the upload rules. FfmpegProgress holds the progress-reading part of FfmpegConverter.cs.

**State the source updates in place is a class.**
- The database context: tables as maps with the unique indexes the schema declares. The rule of one chunk row per (upload, position) is also an invariant, but no index declares it. The upload actions keep it only because they run one after another.
- The object store.
- The message-bus outbox.
- TeeReaderStream and the streams it connects.
- The ffmpeg argument builder.
- The browser hasher, over its 64-byte buffer and eight-word hash value.
- The request-scoped store map.
- The auth-state store and a response's Headers.

**Pure logic is functions and lemmas.** This covers the storage keys, the transcode planner, the ffmpeg argument, filter-graph and stream-map strings, the probe mapping, cookie parsing and Set-Cookie headers, and slice arithmetic.

**Loops are methods with invariants, proved against a specification function.** Examples are the progress reader, the upload slicing loop, the chunk assembly and the cookie parser.

SHA-256 is defined once, from FIPS 180-4, in `Sha256Spec`. It plays two roles:
- It is the reference the browser hasher is proved against.
- It stands for .NET's `SHA256` when the API records the hash of a chunk.

`Hex.BrowserAndServerHexAgree` relates the browser's lower-case digest string to the API's upper-case `Convert.ToHexString`.

## Model

| member | source | states |
|---|---|---|
| Errors.StatusCode | VideoApplication.Api/Middleware/ExceptionStatusMiddleware.cs:22-60 | an unhandled exception answers 500; the not-found errors answer 404, the duplicate channel 409 |
| Guids.Format | VideoApplication.Api/Services/StorageStructureHelper.cs:7 | a Guid is written in 36 characters with hyphens at 8, 13, 18 and 23 |
| Guids.UnformatFormat | VideoApplication.Api/Services/StorageStructureHelper.cs:7 | the written form of a Guid gives the Guid back |
| Guids.FormatInjective | VideoApplication.Api/Services/StorageStructureHelper.cs:7 | distinct Guids are written differently |
| Guids.FormatCharacters | VideoApplication.Api/Services/StorageStructureHelper.cs:7 | a written Guid holds only hyphens and lower-case hex digits, so never a `/` |
| ApiStorageStructure.VideoFolder | VideoApplication.Api/Services/StorageStructureHelper.cs:7 | the folder `channels/{c}/videos/{v}/` is 90 characters long |
| ApiStorageStructure.GetSourcePath | VideoApplication.Api/Services/StorageStructureHelper.cs:5-8 | the source key is the video folder followed by `source` |
| ApiStorageStructure.GetSourceChunkPath | VideoApplication.Api/Services/StorageStructureHelper.cs:10-13 | the chunk key is the video folder followed by `chunks/{chunkId}` |
| ApiStorageStructure.VideoFolderInjective | VideoApplication.Api/Services/StorageStructureHelper.cs:5-13 | the folder determines its channel and video |
| ApiStorageStructure.ChunkPathInjective | VideoApplication.Api/Services/StorageStructureHelper.cs:10-13 | distinct (channel, upload, chunk) triples get distinct chunk keys |
| ApiStorageStructure.SourcePathInjective | VideoApplication.Api/Services/StorageStructureHelper.cs:5-8 | distinct (channel, video) pairs get distinct source keys |
| ApiStorageStructure.SourceIsNotAChunk | VideoApplication.Api/Services/StorageStructureHelper.cs:5-13 | no source key equals any chunk key |
| SharedStorageStructure.GetSourcePath | VideoApplication.Shared/Storage/StorageStructureHelper.cs:5-8 | the worker's source key has the same 96-character shape |
| SharedStorageStructure.GetVideoStreamPath | VideoApplication.Shared/Storage/StorageStructureHelper.cs:10-13 | the stream key is the video folder, `streams/`, then the relative path with every `\` replaced by `/` |
| SharedStorageStructure.SourcePathMatchesApi | VideoApplication.Shared/Storage/StorageStructureHelper.cs:5-8 | the worker reads exactly the key the API assembled the source into |
| SharedStorageStructure.StreamPathIsNotSourceOrChunk | VideoApplication.Shared/Storage/StorageStructureHelper.cs:10-13 | a stream key never equals a source key or a chunk key |
| SharedStorageStructure.StreamPathHasNoBackslash | VideoApplication.Shared/Storage/StorageStructureHelper.cs:12 | the relative part of a stream key holds no `\` |
| SharedStorageStructure.BackslashReplacementIdempotent | VideoApplication.Shared/Storage/StorageStructureHelper.cs:12 | replacing `\` by `/` twice is replacing it once, and a path without `\` is kept as it is |
| SharedStorageStructure.StreamPathInjective | VideoApplication.Shared/Storage/StorageStructureHelper.cs:10-13 | backslash-free relative paths of different outputs or videos give different keys |
| TypeExtensions.RootTypeName | VideoApplication.Api/Extensions/TypeExtensions.cs:9-10 | the name up to its first backtick; fails (Substring throws) exactly when there is none |
| TypeExtensions.PrettyNames | VideoApplication.Api/Extensions/TypeExtensions.cs:13-14 | one pretty name per type argument, in order |
| TypeExtensions.PrettyNameDefinedIffWellNamed | VideoApplication.Api/Extensions/TypeExtensions.cs:5-24 | the pretty name exists exactly when every generic type in the tree has a backtick in its name |
| TypeExtensions.PrettyNamesDefinedIffWellNamed | VideoApplication.Api/Extensions/TypeExtensions.cs:13-14 | the argument names exist exactly when every argument is well named |
| TypeExtensions.PlainName | VideoApplication.Api/Extensions/TypeExtensions.cs:23 | a non-generic type is written as its Name |
| TypeExtensions.JoinEmpties | VideoApplication.Api/Extensions/TypeExtensions.cs:19 | joining n empty strings with `,` gives n - 1 commas |
| TypeExtensions.DefinitionName | VideoApplication.Api/Extensions/TypeExtensions.cs:16-20 | an open generic definition is written `Root<,,>` with one comma fewer than its parameters |
| TypeExtensions.ConstructedName | VideoApplication.Api/Extensions/TypeExtensions.cs:11-15 | a constructed generic type is written `Root<A, B>` from its arguments' pretty names; the root holds no backtick |
| TypeExtensions.PrettyNamesPointwise | VideoApplication.Api/Extensions/TypeExtensions.cs:13-14 | the i-th argument name is the pretty name of the i-th argument |
| Claims.TryParseGuid | VideoApplication.Api/Extensions/ClaimsPrincipalExtensions.cs:11 | the "N" and "D" forms only: a parse succeeds only on 36- or 32-character text, and on 32 characters exactly when all are hex digits |
| Claims.ParseFormat | VideoApplication.Api/Extensions/ClaimsPrincipalExtensions.cs:11 | a written Guid parses back to itself |
| Claims.FindFirst | VideoApplication.Api/Extensions/ClaimsPrincipalExtensions.cs:38 | the index of the first claim whose type matches, ignoring case, or none when no claim matches |
| Claims.GetClaimValueOrNull | VideoApplication.Api/Extensions/ClaimsPrincipalExtensions.cs:44-48 | null exactly when there is no matching claim, otherwise the first matching claim's value |
| Claims.GetClaimValue | VideoApplication.Api/Extensions/ClaimsPrincipalExtensions.cs:36-42 | throws NullReferenceException exactly when there is no matching claim |
| Claims.ClaimLookupsAgree | VideoApplication.Api/Extensions/ClaimsPrincipalExtensions.cs:36-48 | the throwing and the null-returning lookups succeed together and give the same value |
| Claims.GetId | VideoApplication.Api/Extensions/ClaimsPrincipalExtensions.cs:7-17 | a missing claim throws NullReferenceException, an unparseable one ArgumentException with the message, otherwise the parsed Guid |
| Claims.GetIdOrNull | VideoApplication.Api/Extensions/ClaimsPrincipalExtensions.cs:19-29 | throws exactly when the claim is missing; otherwise the parse result, null when it does not parse |
| Claims.GetAccessKey | VideoApplication.Api/Extensions/ClaimsPrincipalExtensions.cs:31-34 | the first `accessKey` claim's value; throws exactly when there is none |
| Claims.GetIdAgrees | VideoApplication.Api/Extensions/ClaimsPrincipalExtensions.cs:7-29 | GetIdOrNull returns GetId's Guid when GetId succeeds, and null when GetId throws ArgumentException |
| Claims.AnonymousGetIdOrNullThrows | VideoApplication.Api/Extensions/ClaimsPrincipalExtensions.cs:21 | a principal with no claims makes GetIdOrNull throw instead of returning null |
| Claims.GetIdOrNullFixedMeaning | VideoApplication.Api/Extensions/ClaimsPrincipalExtensions.cs:19-29 | the corrected lookup is null exactly when GetId fails, and agrees with GetId and GetIdOrNull elsewhere |
| Claims.GetIdOfIssuedClaim | VideoApplication.Api/Extensions/ClaimsPrincipalExtensions.cs:7-17 | a principal whose first claim carries a written user id yields that id |
| TeeReader.TeeReaderStream.Create | VideoApplication.Api/Helpers/TeeReaderStream.cs:8-22 | an unreadable source is refused first, then an unwritable sink; otherwise a tee over the two that has delivered nothing |
| TeeReader.TeeReaderStream.Flush | VideoApplication.Api/Helpers/TeeReaderStream.cs:24-34 | the source and the sink are each flushed once, and nothing is read or written |
| TeeReader.TeeReaderStream.Read | VideoApplication.Api/Helpers/TeeReaderStream.cs:36-66 | returns the source's count; the sink gets exactly `buffer[offset..offset + read]`, nothing on 0; the rest of the buffer is untouched; the sink keeps equal to all bytes delivered |
| TeeReader.TeeReaderStream.ReadByte | VideoApplication.Api/Helpers/TeeReaderStream.cs:68-77 | -1 exactly at the end of the source; any other result is the next byte and is written to the sink, -1 writes nothing |
| TeeReader.ForwardOnly | VideoApplication.Api/Helpers/TeeReaderStream.cs:80-107 | the tee cannot seek or be written; Seek, SetLength, the Position setter and Write throw NotSupportedException |
| TeeReader.ReadToEnd | VideoApplication.Api/Controllers/UploadVideoController.cs:191-193 | reading the tee to its end delivers the rest of the source and the sink then holds exactly those bytes |
| Database.VideoApplicationDb.ChunksOfUpload | VideoApplication.Api/Controllers/UploadVideoController.cs:140-143 | the chunk rows of the upload, each exactly once, in an order the database leaves open |
| Database.VideosOfChannel | VideoApplication.Api/Controllers/VideoController.cs:42 | the video rows of the channel, each exactly once, in an order the database leaves open |
| UploadRules.ServerHash | VideoApplication.Api/Controllers/UploadVideoController.cs:192-195 | the recorded hash is 64 characters: the SHA-256 digest of the bytes in upper-case hex |
| UploadRules.ChunkKeyInjective | VideoApplication.Api/Controllers/UploadVideoController.cs:189 | two chunk rows never share a blob: the key determines channel, upload and chunk |
| UploadRules.ChunkKeyIgnoresHash | VideoApplication.Api/Controllers/UploadVideoController.cs:130-189 | re-uploading a chunk writes the same blob, whatever hash its row held |
| UploadRules.SourceKeyIsNotAChunkKey | VideoApplication.Api/Controllers/UploadVideoController.cs:155-166 | the assembled source never overwrites a chunk blob |
| UploadRules.HashedChunks | VideoApplication.Api/Controllers/UploadVideoController.cs:198-209 | the start response lists exactly the chunks with a hash, as (Position, hash) |
| UploadRules.ChunkKeys | VideoApplication.Api/Controllers/UploadVideoController.cs:163-170 | the deleted keys are the chunk keys, one per chunk, in enumeration order |
| UploadRules.SourceBlobOfSlices | VideoApplication.Api/Controllers/UploadVideoController.cs:164-170 | when chunk i holds slice i, the assembled source is the concatenation of the slices |
| UploadRules.SortByPosition | VideoApplication.Api/Controllers/UploadVideoController.cs:164 | the corrected enumeration: sorted by position and a permutation of the chunks |
| UploadRules.SortedMembers | VideoApplication.Api/Controllers/UploadVideoController.cs:164 | sorting adds no chunk |
| UploadRules.SortedIsUnique | VideoApplication.Api/Controllers/UploadVideoController.cs:164 | two position-sorted orders of the same chunks, no two sharing a position, are equal |
| UploadRules.SortIgnoresEnumeration | VideoApplication.Api/Controllers/UploadVideoController.cs:164 | sorted by position, any two database enumerations of the chunks agree |
| UploadRules.SourceBlobOfTwo | VideoApplication.Api/Controllers/UploadVideoController.cs:164-170 | two chunks assemble to the first's bytes then the second's |
| UploadRules.EnumerationOrderReachesSource | VideoApplication.Api/Controllers/UploadVideoController.cs:164 | a database order that puts the later position first puts its bytes first in the source; the position order does not |
| UploadVideoController.ChunksWithout | VideoApplication.Api/Controllers/UploadVideoController.cs:179-180 | deleting the upload row cascades to exactly its chunk rows; the other rows are unchanged |
| UploadVideoController.InsertUploadKeepsValid | VideoApplication.Api/Controllers/UploadVideoController.cs:70-81 | inserting a new upload for an owned channel, with no upload of that hash yet, keeps every key, index and recorded hash |
| UploadVideoController.ReserveChunkKeepsValid | VideoApplication.Api/Controllers/UploadVideoController.cs:118-128 | reserving a hash-less row at a free position keeps every key, index and recorded hash |
| UploadVideoController.RecordChunkKeepsTables | VideoApplication.Api/Controllers/UploadVideoController.cs:130-131 | recording a chunk's hash keeps every key and index |
| UploadVideoController.RecordChunkKeepsHashes | VideoApplication.Api/Controllers/UploadVideoController.cs:130-195 | storing the bytes under the chunk key and recording their hash keeps every recorded hash equal to its blob's hash |
| UploadVideoController.RemoveUploadKeepsTables | VideoApplication.Api/Controllers/UploadVideoController.cs:179-180 | deleting an upload with its chunk rows keeps every key and index |
| UploadVideoController.RemoveUploadKeepsHashes | VideoApplication.Api/Controllers/UploadVideoController.cs:155-180 | writing the source, deleting the chunk blobs and the rows keeps the other uploads' hashes true |
| UploadVideoController.HashedChunksStored | VideoApplication.Api/Controllers/UploadVideoController.cs:150-170 | once no chunk lacks a hash, every chunk blob the finish reads exists |
| UploadVideoController.EnumerationIdentifiesPositions | VideoApplication.Api/Controllers/UploadVideoController.cs:114-128 | the at-most-one-row-per-position rule means no two enumerated chunks share a position |
| UploadVideoController.SortedEnumerationsAgree | VideoApplication.Api/Controllers/UploadVideoController.cs:164 | any two database enumerations of an upload's chunks sort by position to the same sequence |
| UploadVideoController.EnumerationShowsUnfinished | VideoApplication.Api/Controllers/UploadVideoController.cs:150-153 | the Any check over the loaded chunks sees an unfinished chunk exactly when the upload has one |
| UploadVideoController.ListedChunks | VideoApplication.Api/Controllers/UploadVideoController.cs:198-204 | the start response lists exactly the upload's chunks that have a hash |
| UploadVideoController.UploadVideoController.StartVideoUpload | VideoApplication.Api/Controllers/UploadVideoController.cs:34-93 | a non-mp4 name fails validation; a missing channel gives ChannelNotFound, a foreign one NotChannelOwner, and both leave the uploads alone; an existing (channel, hash) upload is returned and no row added; otherwise exactly one new row with no chunks |
| UploadVideoController.UploadVideoController.DoUpload | VideoApplication.Api/Controllers/UploadVideoController.cs:183-196 | the chunk blob receives exactly the rest of the body and the result is its upper-case hex SHA-256; an unreadable body stores nothing |
| UploadVideoController.UploadVideoController.FindOrReserveChunk | VideoApplication.Api/Controllers/UploadVideoController.cs:114-128 | the existing row at (upload, position) is reused unchanged; otherwise exactly one hash-less row is added; a taken id fails and adds nothing |
| UploadVideoController.UploadVideoController.UploadChunk | VideoApplication.Api/Controllers/UploadVideoController.cs:95-134 | a position outside [0, 10000] or an unowned upload fails and changes nothing; otherwise the row at the position is reused or reserved, its blob overwritten with the body and its hash recorded and returned |
| UploadVideoController.UploadVideoController.StoreChunk | VideoApplication.Api/Controllers/UploadVideoController.cs:130-133 | the chunk's blob becomes the body and its row's hash the body's hash; nothing else changes |
| UploadVideoController.UploadVideoController.CompleteUpload | VideoApplication.Api/Controllers/UploadVideoController.cs:155-180 | the source blob becomes the chunk blobs concatenated in the given order, the chunk blobs are deleted and the upload row goes with its chunk rows |
| UploadVideoController.UploadVideoController.FinishUpload | VideoApplication.Api/Controllers/UploadVideoController.cs:136-181 | an unowned upload gives UploadNotFound, an unfinished chunk UploadChunksNotFinished, both changing nothing; otherwise the source is the chunks in database enumeration order and the rows and chunk blobs are gone |
| UploadVideoController.UploadVideoController.FinishUploadFixed | VideoApplication.Api/Controllers/UploadVideoController.cs:164 | the same, with the chunks sorted by position before they are concatenated |
| ChannelController.NewChannel | VideoApplication.Api/Controllers/ChannelController.cs:39-47 | the inserted row carries the new id, the request's names and description, the caller as owner and the clock's instant |
| ChannelController.CreateResponse | VideoApplication.Api/Controllers/ChannelController.cs:101-104 | the response copies the channel's id, identifier name, display name and description |
| ChannelController.InsertChannelKeepsValid | VideoApplication.Api/Controllers/ChannelController.cs:49-52 | inserting a channel that clashes with no row keeps every key, unique index and foreign key |
| ChannelController.MarkChannelKeepsValid | VideoApplication.Api/Controllers/ChannelController.cs:94-96 | marking a channel for deletion keeps every key, unique index and foreign key |
| ChannelController.CreatedNamesAreTaken | VideoApplication.Api/Controllers/ChannelController.cs:58-62 | after a channel is created, any request reusing its identifier or display name clashes |
| ChannelController.OwnedListing | VideoApplication.Api/Controllers/ChannelController.cs:71-73 | responses built from the owned rows, each once, list exactly the caller's channels |
| ChannelController.ChannelController.CreateChannel | VideoApplication.Api/Controllers/ChannelController.cs:35-63 | an invalid name fails validation, with lengths counted in UTF-16 code units; a clash answers ChannelAlreadyExists and changes and publishes nothing; otherwise exactly one row is added and ChannelCreated published after it |
| ChannelController.ValidIdentifierNameLength | VideoApplication.Api/Controllers/Channels/Requests/CreateChannelRequest.cs:6-8 | an identifier name that matches its pattern is ASCII, so its code-unit length is its character count |
| ChannelController.DisplayNameCountsCodeUnits | VideoApplication.Api/Controllers/Channels/Requests/CreateChannelRequest.cs:11-13 | three emoji (six code units) are a valid display name; fifty-one (102 code units) are too long |
| Text.Utf16Length | VideoApplication.Api/Controllers/Channels/Requests/CreateChannelRequest.cs:6-13 | string.Length: between one and two units per character, equal to the character count exactly when no character is above U+FFFF |
| ChannelController.ChannelController.GetMyChannels | VideoApplication.Api/Controllers/ChannelController.cs:65-74 | the responses are exactly the caller's channels, each once |
| ChannelController.ChannelController.DeleteChannel | VideoApplication.Api/Controllers/ChannelController.cs:76-99 | an unknown id returns quietly; a foreign channel gives NotChannelOwner; both change and send nothing; otherwise the channel is marked and DeleteChannelAsync sent |
| VideoController.ToResponse | VideoApplication.Api/Controllers/VideoController.cs:52 | the response copies id, name, upload date and publish date |
| VideoController.SortByUploadDate | VideoApplication.Api/Controllers/VideoController.cs:51 | the list is sorted by upload date and a permutation of its input |
| VideoController.VisibleResponses | VideoApplication.Api/Controllers/VideoController.cs:42-52 | exactly the responses of the videos the caller may see |
| VideoController.VisibleResponsesDistinct | VideoApplication.Api/Controllers/VideoController.cs:42-52 | no video is listed twice |
| VideoController.ListAgreesWithVisibility | VideoApplication.Api/Controllers/VideoController.cs:44-69 | for whatever caller id the lookup gives, a channel's video is in the list exactly when the single-video rule shows it. This holds for the as-written actions when the lookup succeeds, and for the corrected ones always |
| VideoController.OwnerSeesEverything | VideoApplication.Api/Controllers/VideoController.cs:44 | the owner's list holds every video of the channel |
| VideoController.UnpublishedHidden | VideoApplication.Api/Controllers/VideoController.cs:47-69 | nobody but the owner sees a video without a publish date |
| VideoController.SortedListIsAnswer | VideoApplication.Api/Controllers/VideoController.cs:42-53 | filtering then sorting any enumeration of the channel's rows answers the request |
| VideoController.VideoController.GetChannelVideos | VideoApplication.Api/Controllers/VideoController.cs:29-54 | as written: an unknown slug answers ChannelNotFound; a found channel with a caller lacking an id claim answers the unhandled NullReferenceException (500); otherwise the videos the caller may see, in ascending upload date |
| VideoController.VideoController.GetChannelVideosFixed | VideoApplication.Api/Controllers/VideoController.cs:29-54 | with the non-throwing lookup: ChannelNotFound exactly for an unknown slug, otherwise the visible videos, anonymous callers included |
| VideoController.VideoController.ChannelVideosFor | VideoApplication.Api/Controllers/VideoController.cs:42-53 | the query's answer is exactly the channel's videos visible to the caller, each once, in ascending upload date |
| VideoController.VideoController.GetVideo | VideoApplication.Api/Controllers/VideoController.cs:56-75 | as written: a missing video answers VideoNotFound; an existing one with a caller lacking an id claim answers the unhandled NullReferenceException (500), published or not; otherwise a hidden video answers VideoNotFound and a visible one its response |
| VideoController.VideoController.GetVideoFixed | VideoApplication.Api/Controllers/VideoController.cs:56-75 | with the non-throwing lookup: a missing or hidden video answers VideoNotFound, a visible one its response, anonymous callers included |
| VideoController.VideoController.VideoFor | VideoApplication.Api/Controllers/VideoController.cs:69-74 | the owner-or-published test: the response exactly when visible, VideoNotFound otherwise |
| VideoController.AnonymousReaderOfPublishedVideo | VideoApplication.Api/Controllers/VideoController.cs:69 | for a published video and a principal with no claims, the as-written lookup fails (a 500) while the corrected one makes the video visible |
| WorkerEvents.AudioTranscodings | VideoApplication.Api/Handlers/VideoTranscodeFinishedHandler.cs:39 | the audio entries of the plan, in order, no more of them than the plan has |
| WorkerEvents.VideoTranscodings | VideoApplication.Api/Handlers/VideoTranscodeFinishedHandler.cs:49 | the video entries of the plan, in order, no more of them than the plan has |
| WorkerEvents.TranscodingsSplit | VideoApplication.Api/Handlers/VideoTranscodeFinishedHandler.cs:39-57 | the two OfType filters share every entry of the plan out between them |
| WorkerEvents.OnlyVideo | VideoApplication.Api/Handlers/VideoTranscodeFinishedHandler.cs:39-57 | a list of video entries has no audio entries and its video entries are itself |
| WorkerEvents.TranscodingsOfParts | VideoApplication.Api/Handlers/VideoTranscodeFinishedHandler.cs:39-57 | on audio entries followed by video entries the two filters give back the two parts |
| VideoTranscodeFinishedHandler.FindVideo | VideoApplication.Api/Handlers/VideoTranscodeFinishedHandler.cs:72-81 | the row with the id when there is one, otherwise VideoNotFound for that id |
| VideoTranscodeFinishedHandler.AudioTracksOf | VideoApplication.Api/Handlers/VideoTranscodeFinishedHandler.cs:39-45 | one audio track row per audio transcoding with its name and stream index, each under a new id |
| VideoTranscodeFinishedHandler.VideoTracksOf | VideoApplication.Api/Handlers/VideoTranscodeFinishedHandler.cs:49-55 | one video track row per video transcoding with its height and frame rate, each under a new id |
| VideoTranscodeFinishedHandler.VideoTranscodeFinishedHandler.GetVideo | VideoApplication.Api/Handlers/VideoTranscodeFinishedHandler.cs:72-81 | the lookup of the video row, failing with VideoNotFound |
| VideoTranscodeFinishedHandler.VideoTranscodeFinishedHandler.HandleTranscodingFinished | VideoApplication.Api/Handlers/VideoTranscodeFinishedHandler.cs:21-31 | an unknown video fails and changes nothing; otherwise only that row changes: ready, processed duration set to its duration |
| VideoTranscodeFinishedHandler.VideoTranscodeFinishedHandler.HandleTranscodingsIdentified | VideoApplication.Api/Handlers/VideoTranscodeFinishedHandler.cs:33-60 | an unknown video fails and changes nothing; otherwise the duration is set and the audio rows, then the video rows, are appended |
| VideoTranscodeFinishedHandler.VideoTranscodeFinishedHandler.HandleTranscodeProgress | VideoApplication.Api/Handlers/VideoTranscodeFinishedHandler.cs:62-69 | an unknown video fails and changes nothing; otherwise only its processed duration becomes the reported time |
| VideoTranscodeFinishedHandler.UpdateKeepsTables | VideoApplication.Api/Handlers/VideoTranscodeFinishedHandler.cs:30-68 | saving a row with the same id and channel keeps every key, unique index and foreign key |
| VideoTranscodeFinishedHandler.UpdatesKeepIdentity | VideoApplication.Api/Handlers/VideoTranscodeFinishedHandler.cs:27-66 | none of the three updates changes a row's id or channel |
| VideoTranscodeFinishedHandler.IdentifiedThenFinished | VideoApplication.Api/Handlers/VideoTranscodeFinishedHandler.cs:27-37 | identified then finished: ready, and fully processed at the identified duration |
| VideoTranscodeFinishedHandler.LateProgressAfterFinished | VideoApplication.Api/Handlers/VideoTranscodeFinishedHandler.cs:66 | progress arriving after the finish leaves the video ready but with its processed duration below its duration |
| VideoTranscodeFinishedHandler.AudioTrackCount | VideoApplication.Api/Handlers/VideoTranscodeFinishedHandler.cs:47 | a video has no more audio rows than the table |
| VideoTranscodeFinishedHandler.AudioTrackCountAppend | VideoApplication.Api/Handlers/VideoTranscodeFinishedHandler.cs:47 | appending rows adds their count |
| VideoTranscodeFinishedHandler.AudioTracksCount | VideoApplication.Api/Handlers/VideoTranscodeFinishedHandler.cs:39-47 | the new rows all belong to the video: exactly one per audio transcoding |
| VideoTranscodeFinishedHandler.RedeliveryDuplicatesTracks | VideoApplication.Api/Handlers/VideoTranscodeFinishedHandler.cs:33-60 | the handler is not idempotent: a second delivery adds a second row per audio stream |
| VideoTranscodeFinishedHandler.IdentifiedTracksMirrorPlan | VideoApplication.Api/Handlers/VideoTranscodeFinishedHandler.cs:39-57 | for a plan of audio entries then video entries, the rows mirror the plan entry by entry |
| TranscodeVideoHandler.AudioStreams | VideoApplication.Worker/Handlers/TranscodeVideoHandler.cs:53 | exactly the audio streams of the probe |
| TranscodeVideoHandler.AudioPlan | VideoApplication.Worker/Handlers/TranscodeVideoHandler.cs:54-57 | one audio transcoding per audio stream, in order, with its title and stream index |
| TranscodeVideoHandler.MaxHeight | VideoApplication.Worker/Handlers/TranscodeVideoHandler.cs:59 | the greatest height of a non-empty stream list, attained by one of them |
| TranscodeVideoHandler.MaxFrameRate | VideoApplication.Worker/Handlers/TranscodeVideoHandler.cs:60 | the greatest frame rate of a non-empty stream list, attained by one of them |
| TranscodeVideoHandler.TakeWhileAtMost | VideoApplication.Worker/Handlers/TranscodeVideoHandler.cs:62 | the longest prefix of rungs not above the bound |
| TranscodeVideoHandler.AtMost | VideoApplication.Worker/Handlers/TranscodeVideoHandler.cs:62 | a rung is kept exactly when it is not above the bound |
| TranscodeVideoHandler.VideoPlan | VideoApplication.Worker/Handlers/TranscodeVideoHandler.cs:64-72 | one video transcoding per rung, with the rung's frame rate |
| TranscodeVideoHandler.Plan | VideoApplication.Worker/Handlers/TranscodeVideoHandler.cs:51-72 | the plan exists exactly when the probe found a stream; an empty list fails as Max does |
| TranscodeVideoHandler.PlanTranscodings | VideoApplication.Worker/Handlers/TranscodeVideoHandler.cs:51-72 | the two loops build exactly the plan |
| TranscodeVideoHandler.TakeWhileIsFilter | VideoApplication.Worker/Handlers/TranscodeVideoHandler.cs:21-62 | on the ascending ladder, TakeWhile equals a filter |
| TranscodeVideoHandler.PlannedRenditionsAre | VideoApplication.Worker/Handlers/TranscodeVideoHandler.cs:59-72 | the video part of the plan is the rungs up to the tallest stream, each with its frame rate |
| TranscodeVideoHandler.PlannedHeights | VideoApplication.Worker/Handlers/TranscodeVideoHandler.cs:21-62 | the planned heights are exactly the ladder rungs not above the tallest stream |
| TranscodeVideoHandler.PlannedHeightsAscend | VideoApplication.Worker/Handlers/TranscodeVideoHandler.cs:62-72 | the planned heights ascend |
| TranscodeVideoHandler.PlannedFrameRates | VideoApplication.Worker/Handlers/TranscodeVideoHandler.cs:26-72 | every rendition gets the highest frame rate, except 480, which gets half of it, rounded down, above 30 |
| TranscodeVideoHandler.ResolutionsAscending | VideoApplication.Worker/Handlers/TranscodeVideoHandler.cs:21-24 | the ladder ascends |
| TranscodeVideoHandler.PlannedAudio | VideoApplication.Worker/Handlers/TranscodeVideoHandler.cs:53-57 | one audio transcoding per audio stream, in probe order, with its title and index |
| TranscodeVideoHandler.AudioBeforeVideo | VideoApplication.Worker/Handlers/TranscodeVideoHandler.cs:51-72 | in the plan every audio entry precedes every video entry |
| TranscodeVideoHandler.BelowLowestRungNoVideo | VideoApplication.Worker/Handlers/TranscodeVideoHandler.cs:59-62 | a source below 480 lines gets no video rendition |
| TranscodeVideoHandler.EmptyStreamsFail | VideoApplication.Worker/Handlers/TranscodeVideoHandler.cs:59 | an empty stream list fails the way Max does |
| TranscodeVideoHandler.PlanAlwaysConverts | VideoApplication.Worker/Handlers/TranscodeVideoHandler.cs:21-24 | every planned height has an audio bit rate, so converting a plan always yields a command line |
| TranscodeVideoHandler.PlanOf1080p60 | VideoApplication.Worker/Handlers/TranscodeVideoHandler.cs:51-72 | a 1080p, 60 fps source with one audio stream gets that stream, 480p at 30 and 720p and 1080p at 60 |
| TranscodeVideoHandler.OutputKey | VideoApplication.Worker/Handlers/TranscodeVideoHandler.cs:87-90 | a file's key is its stream path, from its path below the output directory |
| TranscodeVideoHandler.TranscodeVideoHandler.HandleVideoUploadFinished | VideoApplication.Worker/Handlers/TranscodeVideoHandler.cs:44-75 | a missing source fails before anything is published; otherwise the plan is published exactly once as VideoTranscodingsIdentified, or the planning error returned |
| TranscodeVideoHandler.TranscodeVideoHandler.HandleTranscodingsIdentified | VideoApplication.Worker/Handlers/TranscodeVideoHandler.cs:77-97 | a missing source or a failed conversion uploads and publishes nothing; otherwise every file is uploaded under its stream key and only then VideoTranscodingFinished is published |
| TranscodeVideoHandler.UploadedHasEveryFile | VideoApplication.Worker/Handlers/TranscodeVideoHandler.cs:85-94 | every output file has an object under its stream key, holding the last file uploaded to it |
| TranscodeVideoHandler.UploadedKeepsOtherKeys | VideoApplication.Worker/Handlers/TranscodeVideoHandler.cs:85-94 | a key that is no file's stream key is untouched |
| TranscodeVideoHandler.UploadsKeepSources | VideoApplication.Worker/Handlers/TranscodeVideoHandler.cs:85-94 | the uploads never touch a source or chunk object of any video |
| FfmpegConverter.GetBitRate | VideoApplication.Worker/Ffmpeg/FfmpegConverter.cs:218-226 | the width is 16h/9 truncated and the bit rate is 0.3 times width times height, truncated |
| FfmpegConverter.PaddedWidth | VideoApplication.Worker/Ffmpeg/FfmpegConverter.cs:158 | the padded width is 16h/9 rounded up |
| FfmpegConverter.WidthsDiffer | VideoApplication.Worker/Ffmpeg/FfmpegConverter.cs:158-221 | the bit rate's width and the padded width agree exactly when the height is a multiple of 9, otherwise the padded one is one more |
| FfmpegConverter.LadderRates | VideoApplication.Worker/Ffmpeg/FfmpegConverter.cs:64-226 | the kbit/s rates and padded widths of the six ladder heights (122k at 854 wide for 480, up to 9953k at 7680 for 4320) |
| FfmpegConverter.SplitLabels | VideoApplication.Worker/Ffmpeg/FfmpegConverter.cs:145-150 | one split label `[v{h}p]` per rendition, in order |
| FfmpegConverter.Clauses | VideoApplication.Worker/Ffmpeg/FfmpegConverter.cs:155-177 | one scale-and-pad clause per rendition, in order |
| FfmpegConverter.BuildFilterCommand | VideoApplication.Worker/Ffmpeg/FfmpegConverter.cs:136-180 | the string builder produces exactly the filter graph: the split, then the clauses joined by `; ` |
| FfmpegConverter.EmptyFilterCommand | VideoApplication.Worker/Ffmpeg/FfmpegConverter.cs:136-180 | with no rendition the graph is `[0]split=0; ` and nothing more |
| FfmpegConverter.FilterLabelsMatch | VideoApplication.Worker/Ffmpeg/FfmpegConverter.cs:147-171 | clause i reads split output i and ends with the label video output i maps; distinct heights give distinct labels |
| FfmpegConverter.SortByHeightDescending | VideoApplication.Worker/Ffmpeg/FfmpegConverter.cs:53-54 | the renditions tallest first, a permutation of the input |
| FfmpegConverter.InsertByHeightStable | VideoApplication.Worker/Ffmpeg/FfmpegConverter.cs:53-54 | an inserted rendition goes in front of the others of its height |
| FfmpegConverter.SortByHeightStable | VideoApplication.Worker/Ffmpeg/FfmpegConverter.cs:53-54 | OrderByDescending is stable: for every height, the renditions of that height keep their input order |
| FfmpegConverter.GroupIndexes | VideoApplication.Worker/Ffmpeg/FfmpegConverter.cs:188-199 | video output i goes with audio outputs i*A to i*A + A - 1 |
| FfmpegConverter.AudioGroup | VideoApplication.Worker/Ffmpeg/FfmpegConverter.cs:92-104 | the audio outputs of rendition i: one per input audio stream, numbered from i*A, at the rendition's bit rate |
| FfmpegConverter.AudioOutputsFailureExtends | VideoApplication.Worker/Ffmpeg/FfmpegConverter.cs:90-105 | once a rendition's lookup throws, the whole loop fails the same way |
| FfmpegConverter.AudioOutputsDefined | VideoApplication.Worker/Ffmpeg/FfmpegConverter.cs:94 | the audio loop succeeds exactly when there is no audio or every rendition's height has an audio bit rate |
| FfmpegConverter.AudioOutputsLength | VideoApplication.Worker/Ffmpeg/FfmpegConverter.cs:89-105 | there are V*A audio outputs |
| FfmpegConverter.AudioOutputAt | VideoApplication.Worker/Ffmpeg/FfmpegConverter.cs:89-105 | output i*A + j maps audio stream j at the bit rate of rendition i's height |
| FfmpegConverter.AudioOutputsNumbered | VideoApplication.Worker/Ffmpeg/FfmpegConverter.cs:89-105 | the audio outputs are numbered 0 to V*A - 1 in order |
| FfmpegConverter.AudioOutputsEmptyAudio | VideoApplication.Worker/Ffmpeg/FfmpegConverter.cs:92 | with no audio stream there is no audio output |
| FfmpegConverter.AudioRefs | VideoApplication.Worker/Ffmpeg/FfmpegConverter.cs:193-199 | `,a:k` for each audio output index of the group |
| FfmpegConverter.StreamGroups | VideoApplication.Worker/Ffmpeg/FfmpegConverter.cs:188-213 | one stream-map group per rendition, in order |
| FfmpegConverter.BuildStreamMap | VideoApplication.Worker/Ffmpeg/FfmpegConverter.cs:182-216 | the nested loops with a running counter produce exactly the stream map |
| FfmpegConverter.AppendAudioRefs | VideoApplication.Worker/Ffmpeg/FfmpegConverter.cs:193-199 | the inner loop appends `,a:k` for each audio output of the variant and leaves the counter at the start of the next variant |
| FfmpegConverter.StreamGroupParts | VideoApplication.Worker/Ffmpeg/FfmpegConverter.cs:191-212 | group i is `v:i`, the `,a:k` of its block, `,name:{h}p` with `{fps}fps` above 30 fps, then a space |
| FfmpegConverter.IndexBlocks | VideoApplication.Worker/Ffmpeg/FfmpegConverter.cs:188-199 | the blocks of audio indexes the groups name, one per rendition |
| FfmpegConverter.StreamMapCoversAudioOutputs | VideoApplication.Worker/Ffmpeg/FfmpegConverter.cs:188-199 | every audio output index 0 to V*A - 1 is named by exactly one group, in order |
| FfmpegConverter.StreamMapMatchesAudioOutputs | VideoApplication.Worker/Ffmpeg/FfmpegConverter.cs:89-199 | the j-th index of group i is the output that carries audio stream j at rendition i's bit rate |
| FfmpegConverter.ConvertPrefix | VideoApplication.Worker/Ffmpeg/FfmpegConverter.cs:44-51 | seven global and input arguments ending in `-i` and the input file |
| FfmpegConverter.VideoOutputArguments | VideoApplication.Worker/Ffmpeg/FfmpegConverter.cs:63-86 | twenty arguments per video output |
| FfmpegConverter.VideoOutputArgumentsParts | VideoApplication.Worker/Ffmpeg/FfmpegConverter.cs:63-86 | the map of `[v{h}pOut]`, x264 at constant bit rate, the same rate for all four rate options, and keyint_min of frame rate times 10 |
| FfmpegConverter.VideoArguments | VideoApplication.Worker/Ffmpeg/FfmpegConverter.cs:61-87 | twenty arguments for each rendition |
| FfmpegConverter.AudioOutputArguments | VideoApplication.Worker/Ffmpeg/FfmpegConverter.cs:95-102 | eight arguments per audio output |
| FfmpegConverter.AudioOutputArgumentsParts | VideoApplication.Worker/Ffmpeg/FfmpegConverter.cs:95-102 | the map of `a:{stream}`, AAC numbered by the running index, the bit rate in k, two channels |
| FfmpegConverter.AudioArguments | VideoApplication.Worker/Ffmpeg/FfmpegConverter.cs:89-105 | eight arguments for each audio output |
| FfmpegConverter.HlsArguments | VideoApplication.Worker/Ffmpeg/FfmpegConverter.cs:107-125 | seventeen HLS arguments, the segment length being SecondsPerFileSplit and the variant map the stream map |
| FfmpegConverter.Convert | VideoApplication.Worker/Ffmpeg/FfmpegConverter.cs:39-126 | the argument list built by the loops is exactly the specified command line, or the failed lookup |
| FfmpegConverter.AppendVideoOutputs | VideoApplication.Worker/Ffmpeg/FfmpegConverter.cs:61-87 | the rendition loop appends exactly the video arguments |
| FfmpegConverter.AppendAudioOutputs | VideoApplication.Worker/Ffmpeg/FfmpegConverter.cs:89-105 | the nested audio loops append exactly the audio arguments, or fail with the missing height |
| FfmpegConverter.AppendAudioGroup | VideoApplication.Worker/Ffmpeg/FfmpegConverter.cs:92-104 | the inner loop advances the counter by A and appends the group's arguments, or fails on a height without a bit rate |
| FfmpegConverter.AudioArgumentsAppend | VideoApplication.Worker/Ffmpeg/FfmpegConverter.cs:89-105 | the arguments of two runs of audio outputs are the two argument lists concatenated |
| FfmpegConverter.VideoArgumentsAt | VideoApplication.Worker/Ffmpeg/FfmpegConverter.cs:61-87 | video output i occupies the twenty arguments from 20*i on |
| FfmpegConverter.AudioArgumentsAt | VideoApplication.Worker/Ffmpeg/FfmpegConverter.cs:89-105 | audio output k occupies the eight arguments from 8*k on |
| FfmpegConverter.ConvertDefined | VideoApplication.Worker/Ffmpeg/FfmpegConverter.cs:94 | Convert fails exactly when there is audio and some rendition's height has no bit rate, and the failure names such a height |
| FfmpegConverter.AudioOutputsFailure | VideoApplication.Worker/Ffmpeg/FfmpegConverter.cs:94 | a failure of the audio loop names a rendition whose height is not in the table |
| FfmpegConverter.ConvertArgumentsParts | VideoApplication.Worker/Ffmpeg/FfmpegConverter.cs:39-126 | a successful Convert is the command line of the sorted renditions and their audio outputs |
| FfmpegConverter.ConvertLayout | VideoApplication.Worker/Ffmpeg/FfmpegConverter.cs:44-134 | the command is the prefix, the filter graph, 20 per rendition, 8 per audio output and the 17 HLS arguments, whose segment length is 10 and whose map is the stream map |
| FfmpegConverter.ConvertVideoOutput | VideoApplication.Worker/Ffmpeg/FfmpegConverter.cs:53-87 | rendition i, tallest first, sits at arguments 9 + 20*i onwards |
| FfmpegConverter.ConvertAudioOutput | VideoApplication.Worker/Ffmpeg/FfmpegConverter.cs:89-105 | audio output i*A + j carries stream j at rendition i's audio bit rate and sits after the video outputs at 8*(i*A + j) |
| FfmpegProgress.ReadLine | VideoApplication.Worker/Ffmpeg/FfmpegConverter.cs:235 | the next line, or null once the output is used up |
| FfmpegProgress.SplitKeyValue | VideoApplication.Worker/Ffmpeg/FfmpegConverter.cs:241-243 | the key before the first `=` and the rest after it; no part where the line has no `=` |
| FfmpegProgress.SplitKeyValueOf | VideoApplication.Worker/Ffmpeg/FfmpegConverter.cs:241-243 | a key without `=` and any value split back apart |
| FfmpegProgress.ParseProgressOutput | VideoApplication.Worker/Ffmpeg/FfmpegConverter.cs:228-262 | the loop over the lines reports exactly the specified times and stops with the specified error |
| FfmpegProgress.BlankLineStops | VideoApplication.Worker/Ffmpeg/FfmpegConverter.cs:235-239 | a blank line, or the end of the output, ends the reading with nothing more reported |
| FfmpegProgress.OutTimeUpdates | VideoApplication.Worker/Ffmpeg/FfmpegConverter.cs:247-249 | `out_time=v` sets the time the next reports carry, or fails when v does not parse |
| FfmpegProgress.ProgressReports | VideoApplication.Worker/Ffmpeg/FfmpegConverter.cs:250-259 | `progress=v` reports the current time; `progress=end` then stops, any other value goes on |
| FfmpegProgress.OtherKeysIgnored | VideoApplication.Worker/Ffmpeg/FfmpegConverter.cs:245-260 | any other key is skipped |
| FfmpegProgress.MissingSeparatorFails | VideoApplication.Worker/Ffmpeg/FfmpegConverter.cs:241-243 | a non-blank line with no `=` fails the reading, as `parts[1]` is out of range |
| FfmpegProgress.ReportedTimesComeFromOutTime | VideoApplication.Worker/Ffmpeg/FfmpegConverter.cs:231-259 | every reported time is zero or the parsed value of an `out_time` line, and there are never more reports than lines |
| FfmpegProgress.ProgressEvents | VideoApplication.Worker/Ffmpeg/FfmpegConverter.cs:273 | one progress event per report, for the video, in order |
| FfmpegProgress.PublishProgress | VideoApplication.Worker/Ffmpeg/FfmpegConverter.cs:264-277 | each report is published as the video's progress, in order, and nothing is sent |
| FfmpegCommandBuilder.ScaleFilter | VideoApplication.Worker/Ffmpeg/FfmpegCommandBuilder.cs:26-33 | the filter reads `scale=`, the height, then `:-2` |
| FfmpegCommandBuilder.ScaleFilterInjective | VideoApplication.Worker/Ffmpeg/FfmpegCommandBuilder.cs:26-33 | different heights give different scale filters |
| FfmpegCommandBuilder.FfmpegCommandBuilder.constructor | VideoApplication.Worker/Ffmpeg/FfmpegCommandBuilder.cs:5-13 | a fresh builder holds the seven default arguments in order |
| FfmpegCommandBuilder.FfmpegCommandBuilder.WithInput | VideoApplication.Worker/Ffmpeg/FfmpegCommandBuilder.cs:15-19 | appends exactly `-i` and the path |
| FfmpegCommandBuilder.FfmpegCommandBuilder.WithVideoOnlyOutput | VideoApplication.Worker/Ffmpeg/FfmpegCommandBuilder.cs:21-28 | appends exactly `-map 0:v -vf scale={h}:-2` and the path |
| FfmpegCommandBuilder.FfmpegCommandBuilder.WithVideoFullOutput | VideoApplication.Worker/Ffmpeg/FfmpegCommandBuilder.cs:30-35 | appends exactly `-vf scale={h}:-2` and the path |
| FfmpegCommandBuilder.FfmpegCommandBuilder.WithAudioOutput | VideoApplication.Worker/Ffmpeg/FfmpegCommandBuilder.cs:37-42 | appends exactly `-map 0:{n}` and the path |
| FfmpegCommandBuilder.FfmpegCommandBuilder.Build | VideoApplication.Worker/Ffmpeg/FfmpegCommandBuilder.cs:44-47 | returns the builder's own list, not a copy |
| FfmpegCommandBuilder.BuildSingleOutput | VideoApplication.Worker/Ffmpeg/FfmpegCommandBuilder.cs:5-47 | defaults, then the input, then one video output's five arguments, fourteen in all |
| FfmpegCommandBuilder.BuildIsLive | VideoApplication.Worker/Ffmpeg/FfmpegCommandBuilder.cs:44-47 | a list taken from Build shows later additions |
| FfprobeWrapper.ProbeArguments | VideoApplication.Worker/Ffmpeg/FfprobeWrapper.cs:27-34 | eight arguments ending in `-i` and the file path |
| FfprobeWrapper.ParseStreamType | VideoApplication.Worker/Ffmpeg/FfprobeWrapper.cs:59 | the two member names, `Video` and `Audio`, are recognised in any letter case; other names fail |
| FfprobeWrapper.MapStreams | VideoApplication.Worker/Ffmpeg/FfprobeWrapper.cs:56-61 | exactly when every stream has a known type, one description per stream in order; otherwise the error names an unknown type |
| FfprobeWrapper.MaxDuration | VideoApplication.Worker/Ffmpeg/FfprobeWrapper.cs:63 | the longest stream duration, attained by one of them |
| FfprobeWrapper.MissingFileNeverProbed | VideoApplication.Worker/Ffmpeg/FfprobeWrapper.cs:22-25 | a missing file fails with FileNotFound whatever ffprobe would have said |
| FfprobeWrapper.InformationDefined | VideoApplication.Worker/Ffmpeg/FfprobeWrapper.cs:43-61 | there is a result exactly when the probe parses to a non-empty stream list of known types |
| FfprobeWrapper.ProbedStreamsNonEmpty | VideoApplication.Worker/Ffmpeg/FfprobeWrapper.cs:49-53 | a successful probe has at least one stream |
| FfprobeWrapper.OneInfoPerStream | VideoApplication.Worker/Ffmpeg/FfprobeWrapper.cs:56-61 | one description per stream, in order, with its codec and its title or the `{type}-stream-{index}` fallback |
| FfprobeWrapper.DurationRule | VideoApplication.Worker/Ffmpeg/FfprobeWrapper.cs:63 | the duration is the format's whenever there is a format, otherwise the longest stream's |
| FfprobeWrapper.SubtitleStreamRejected | VideoApplication.Worker/Ffmpeg/FfprobeWrapper.cs:59 | a subtitle stream makes the whole probe fail |
| Hex.ToRadix16 | VideoApplication.UI/src/helpers/sha256.ts:8 | toString(16) gives at least one lower-case hex digit |
| Hex.PadStart | VideoApplication.UI/src/helpers/sha256.ts:8 | padStart keeps the string at the end and fills the front up to the width |
| Hex.ToRadix16Padded | VideoApplication.UI/src/helpers/sha256.ts:8 | a word written by toString(16) and padded to eight is its fixed-width hex form |
| Hex.WordHex | VideoApplication.UI/src/helpers/sha256.ts:8 | each word becomes eight lower-case hex digits |
| Hex.WordsHex | VideoApplication.UI/src/helpers/sha256.ts:5-11 | the digest string has eight lower-case hex digits per word |
| Hex.UpperHexBigEndian | VideoApplication.Api/Controllers/UploadVideoController.cs:195 | Convert.ToHexString of a number's big-endian bytes is its fixed-width upper-case hex |
| Hex.BrowserAndServerHexAgree | VideoApplication.Api/Controllers/UploadVideoController.cs:192-195 | the browser's lower-case digest string and the server's upper-case one differ only in letter case |
| Sha256Spec.MessageWords | VideoApplication.UI/src/helpers/sha256.ts:127-129 | the sixteen big-endian words of a block, in order |
| Sha256Spec.HashBlocksSnoc | VideoApplication.UI/src/helpers/sha256.ts:120-177 | compressing one more block extends the hashed prefix by that block |
| Sha256Spec.PadZeros | VideoApplication.UI/src/helpers/sha256.ts:69-78 | the zero count brings the marker, the zeros and the length field to a whole number of blocks |
| Sha256Spec.Pad | VideoApplication.UI/src/helpers/sha256.ts:59-81 | the padded message starts with the message, then 0x80, and is a whole number of blocks at most 72 bytes longer |
| Sha256Spec.PadSplits | VideoApplication.UI/src/helpers/sha256.ts:59-81 | padding only touches the last partial block |
| BrowserSha256.Sigma0Shifts | VideoApplication.UI/src/helpers/sha256.ts:152 | the shift-and-or form is the FIPS 180-4 big sigma 0 |
| BrowserSha256.Sigma1Shifts | VideoApplication.UI/src/helpers/sha256.ts:153 | the shift-and-or form is the FIPS 180-4 big sigma 1 |
| BrowserSha256.Gamma0Shifts | VideoApplication.UI/src/helpers/sha256.ts:134-138 | the shift-and-or form is the FIPS 180-4 small sigma 0 |
| BrowserSha256.Gamma1Shifts | VideoApplication.UI/src/helpers/sha256.ts:140-144 | the shift-and-or form is the FIPS 180-4 small sigma 1 |
| BrowserSha256.BitFunctions | VideoApplication.UI/src/helpers/sha256.ts:149-150 | the inline ch and maj are Ch and Maj of FIPS 180-4 |
| BrowserSha256.ConvertToHex | VideoApplication.UI/src/helpers/sha256.ts:5-11 | the loop builds the lower-case hex of the words, eight digits each |
| BrowserSha256.MarkedBlock | VideoApplication.UI/src/helpers/sha256.ts:60-66 | the buffer keeps the tail, then 0x80 and zeros; a full buffer gets no marker |
| BrowserSha256.AsWrittenFinalBlocks | VideoApplication.UI/src/helpers/sha256.ts:67-81 | the final blocks start with the tail and are one or two whole blocks |
| BrowserSha256.FinalBlocks | VideoApplication.UI/src/helpers/sha256.ts:67-81 | the corrected final blocks start with the tail and are whole blocks |
| BrowserSha256.FinalBlocksArePadding | VideoApplication.UI/src/helpers/sha256.ts:67-81 | the corrected final blocks are the padded tail of FIPS 180-4 section 5.1.1 |
| BrowserSha256.AsWrittenPadded | VideoApplication.UI/src/helpers/sha256.ts:59-85 | what the as-written finalize hashes starts with the message and is whole blocks |
| BrowserSha256.PaddedIsPad | VideoApplication.UI/src/helpers/sha256.ts:59-85 | the corrected finalize pads exactly as FIPS 180-4 section 5.1.1 does |
| BrowserSha256.AsWrittenPaddingAgrees | VideoApplication.UI/src/helpers/sha256.ts:59-85 | the as-written padding is correct unless 55 or 64 bytes are pending |
| BrowserSha256.AsWrittenExtraBlock | VideoApplication.UI/src/helpers/sha256.ts:69 | with 55 bytes pending the `>=` adds a whole extra block |
| BrowserSha256.AsWrittenLosesMarker | VideoApplication.UI/src/helpers/sha256.ts:62-66 | with a full block pending the 0x80 marker is lost |
| BrowserSha256.ProcessedRemaining | VideoApplication.UI/src/helpers/sha256.ts:87-118 | _process leaves fewer than a block, except a full block exactly when line 108 skips it |
| BrowserSha256.RemainingAfterProcess | VideoApplication.UI/src/helpers/sha256.ts:108-116 | the count left is what is past the last compressed block |
| BrowserSha256.SplitChangesPadding | VideoApplication.UI/src/helpers/sha256.ts:108 | one update of 64 bytes and two of 32 leave different buffers, so the digest depends on the split |
| BrowserSha256.Sha256.constructor | VideoApplication.UI/src/helpers/sha256.ts:38-43 | a new hasher has seen nothing and buffers nothing |
| BrowserSha256.Sha256.Hash | VideoApplication.UI/src/helpers/sha256.ts:45-47 | the static hash is the as-written padding of the data, compressed, in hex |
| BrowserSha256.Sha256.HashFixed | VideoApplication.UI/src/helpers/sha256.ts:45-47 | the corrected static hash is the FIPS 180-4 digest in lower-case hex |
| BrowserSha256.Sha256.Update | VideoApplication.UI/src/helpers/sha256.ts:49-57 | the message grows by the data and the buffer count is the one _process leaves |
| BrowserSha256.Sha256.UpdateFixed | VideoApplication.UI/src/helpers/sha256.ts:49-57 | the corrected update leaves the message length modulo 64 buffered |
| BrowserSha256.Sha256.Finalize | VideoApplication.UI/src/helpers/sha256.ts:59-85 | the digest is the hash of the as-written padding of everything updated |
| BrowserSha256.Sha256.FinalizeFixed | VideoApplication.UI/src/helpers/sha256.ts:59-85 | the corrected digest is SHA-256 of everything updated |
| BrowserSha256.Sha256.MarkEnd | VideoApplication.UI/src/helpers/sha256.ts:60-67 | the buffer becomes the marked block and the count goes up by one |
| BrowserSha256.Sha256.CompressLengthBlock | VideoApplication.UI/src/helpers/sha256.ts:74-84 | the length field goes into bytes 56-63, the block is compressed and written in hex |
| BrowserSha256.Sha256.Process | VideoApplication.UI/src/helpers/sha256.ts:87-118 | whole blocks are compressed and the rest buffered, keeping the hash value that of every compressed byte |
| BrowserSha256.Sha256.ProcessFixed | VideoApplication.UI/src/helpers/sha256.ts:87-118 | without line 108's test, every whole block is compressed and fewer than 64 bytes stay |
| BrowserSha256.Sha256.Buffer | VideoApplication.UI/src/helpers/sha256.ts:95-99 | a short update joins the buffer |
| BrowserSha256.Sha256.CompleteBuffer | VideoApplication.UI/src/helpers/sha256.ts:102-105 | the buffer is topped up and compressed, extending the hashed prefix |
| BrowserSha256.Sha256.KeepRest | VideoApplication.UI/src/helpers/sha256.ts:116-117 | the bytes after the last compressed block go to the front of the buffer |
| BrowserSha256.Sha256.ProcessWholeBlocks | VideoApplication.UI/src/helpers/sha256.ts:109-113 | the loop compresses every whole block of the data and stops with less than a block left |
| BrowserSha256.Sha256.CompressBlockAt | VideoApplication.UI/src/helpers/sha256.ts:111 | one block of the data is compressed into the hash value |
| BrowserSha256.Sha256.AddInto | VideoApplication.UI/src/helpers/sha256.ts:168-176 | the working variables are added into the hash value word by word |
| BrowserSha256.Sha256.DoProcessBlock | VideoApplication.UI/src/helpers/sha256.ts:120-177 | the hash value becomes the FIPS 180-4 compression of the block |
| BrowserSha256.Sha256.ExtendSchedule | VideoApplication.UI/src/helpers/sha256.ts:133-147 | schedule word i is FIPS 180-4's, the others unchanged |
| BrowserSha256.Sha256.CompressRounds | VideoApplication.UI/src/helpers/sha256.ts:132-166 | the 64 rounds give FIPS 180-4's working variables |
| UploadChunks.SliceAt | VideoApplication.UI/src/services/upload/upload-chunks.ts:92-95 | slice i starts at i times the chunk size |
| UploadChunks.CalculateSlices | VideoApplication.UI/src/services/upload/upload-chunks.ts:89-99 | the loop yields exactly the slices SliceAt describes, SliceCount of them |
| UploadChunks.SliceCountExact | VideoApplication.UI/src/services/upload/upload-chunks.ts:91 | the count is the least number of chunks covering the total |
| UploadChunks.SlicesPartition | VideoApplication.UI/src/services/upload/upload-chunks.ts:82-99 | the slices are contiguous, non-empty, full chunks but the last, from 0 to the total; none for an empty file |
| UploadChunks.SlicedBytesArePrefix | VideoApplication.UI/src/services/upload/upload-chunks.ts:22 | the first n slices joined are a prefix of the file |
| UploadChunks.SlicesCoverFile | VideoApplication.UI/src/services/upload/upload-chunks.ts:18-22 | all slices joined are the whole file |
| UploadChunks.SizeSumIsEnd | VideoApplication.UI/src/services/upload/upload-chunks.ts:29-41 | progress after a slice is where it ends, and the file size at the end |
| UploadChunks.FindChunk | VideoApplication.UI/src/services/upload/upload-chunks.ts:27 | the first reported chunk at the position, present exactly when one exists |
| UploadChunks.ClientHash | VideoApplication.UI/src/services/upload/upload-chunks.ts:25 | the chunk hash is 64 lower-case hex digits |
| UploadChunks.SliceBytes | VideoApplication.UI/src/services/upload/upload-chunks.ts:22-24 | a slice's bytes are non-empty and at most a chunk |
| UploadChunks.StepAt | VideoApplication.UI/src/services/upload/upload-chunks.ts:20-42 | each step is at its own position |
| UploadChunks.StepAtParts | VideoApplication.UI/src/services/upload/upload-chunks.ts:20-42 | a slice is skipped when the reported chunk's hash matches, otherwise sent with its bytes and hash |
| UploadChunks.HashSlice | VideoApplication.UI/src/services/upload/upload-chunks.ts:25 | hashing a slice gives the client hash |
| UploadChunks.UploadChunks | VideoApplication.UI/src/services/upload/upload-chunks.ts:15-43 | one step per slice, in order, each the one StepAt gives, and the progress ends at the file size |
| UploadChunks.SentSlicesCarryTheirHash | VideoApplication.UI/src/services/upload/upload-chunks.ts:25-41 | a sent chunk carries its own bytes and their hash; a skip happens exactly on a matching report |
| UploadChunks.LowerHexUpperEqual | VideoApplication.UI/src/services/upload/upload-chunks.ts:28 | a lower-case hex string equals its upper case exactly when it has no letter |
| UploadChunks.UnchangedChunkSkippedOnlyWithoutLetters | VideoApplication.UI/src/services/upload/upload-chunks.ts:28 | as written, an unchanged chunk is skipped only if its digest has no letter |
| UploadChunks.UnchangedChunkSkippedFixed | VideoApplication.UI/src/services/upload/upload-chunks.ts:28 | with the case-blind comparison an unchanged chunk is always skipped |
| UploadChunks.FixedSkipNeedsMatchingChunk | VideoApplication.UI/src/services/upload/upload-chunks.ts:27-28 | a corrected skip still needs a chunk at the position with a matching hash |
| Hooks.ParseCookie | VideoApplication.UI/src/hooks.ts:4-16 | the loop builds the record CookieRecord specifies from the pieces split on `; ` |
| Hooks.FailureSticks | VideoApplication.UI/src/hooks.ts:12 | once a decode throws, the whole parse throws |
| Hooks.GetSession | VideoApplication.UI/src/hooks.ts:37-53 | the session exists exactly when parsing succeeds, and is the user's exactly when both cookies are non-empty |
| Hooks.Handle | VideoApplication.UI/src/hooks.ts:19-34 | with both cookies the store gets them, otherwise it is unchanged; resolved unless a decode throws |
| Hooks.ItemWithoutEquals | VideoApplication.UI/src/hooks.ts:11 | an item with no `=` is its own key, with value "undefined" |
| Hooks.ItemWithEquals | VideoApplication.UI/src/hooks.ts:11 | in `key=value=rest` the key and value are the first two pieces |
| Hooks.RecordStep | VideoApplication.UI/src/hooks.ts:8-13 | an empty item changes nothing; another sets its key to its decoded value |
| Hooks.CookiePresent | VideoApplication.UI/src/hooks.ts:8-13 | a key is present exactly when some non-empty item carries it |
| Hooks.CookieLastValue | VideoApplication.UI/src/hooks.ts:8-13 | a present key holds the decoded value of the last item carrying it |
| Hooks.CookieRecordFails | VideoApplication.UI/src/hooks.ts:12 | the parse throws exactly when some non-empty item's value fails to decode |
| Hooks.NoCookieNoSession | VideoApplication.UI/src/hooks.ts:39 | a missing or empty Cookie header reads as logged out |
| AuthSsr.Headers.constructor | VideoApplication.UI/src/routes/auth/ssr.ts:12 | a new Headers is empty |
| AuthSsr.Headers.Append | VideoApplication.UI/src/routes/auth/ssr.ts:13-20 | append adds one entry at the end |
| AuthSsr.Post | VideoApplication.UI/src/routes/auth/ssr.ts:9-26 | status 200 and the token then the name cookie, encoded, with Max-Age 2147483647 |
| AuthSsr.Del | VideoApplication.UI/src/routes/auth/ssr.ts:29-39 | status 200 and the token then the name cookie, empty, with Max-Age 0 |
| AuthSsr.SetCookieSyntax | VideoApplication.UI/src/routes/auth/ssr.ts:15-19 | each Set-Cookie splits into the cookie-pair and its four attributes, as RFC 6265 section 4.1.1 lays out |
| AuthSsr.EchoedItems | VideoApplication.UI/src/routes/auth/ssr.ts:15-19 | the cookies sent back split into the two items, whose keys and values are the cookie's |
| AuthSsr.PostCookiesRoundTrip | VideoApplication.UI/src/routes/auth/ssr.ts:9-26 | the cookies post sets, sent back, parse to the original token and name and make the user's session exactly when both are non-empty |
| AuthSsr.ClearedCookiesLogOut | VideoApplication.UI/src/routes/auth/ssr.ts:29-39 | the cookies del sets, sent back or dropped, read as logged out |
| RequestScopedStore.GetRequestScope | VideoApplication.UI/src/stores/request-scoped-store.ts:27-38 | a set store symbol is the scope; otherwise the global key in the browser, an error on the server |
| RequestScopedStore.GetOrCreate | VideoApplication.UI/src/stores/request-scoped-store.ts:7-21 | the returned store is stored under the request key and store key |
| RequestScopedStore.GetOrCreateOnce | VideoApplication.UI/src/stores/request-scoped-store.ts:7-21 | a second lookup returns the first store and changes nothing |
| RequestScopedStore.GetOrCreateCreates | VideoApplication.UI/src/stores/request-scoped-store.ts:14-18 | an existing store is returned as is; a missing one is created and added alone |
| RequestScopedStore.GetOrCreateLocal | VideoApplication.UI/src/stores/request-scoped-store.ts:7-21 | other requests and other stores of the request are untouched |
| RequestScopedStore.RemoveThenRecreate | VideoApplication.UI/src/stores/request-scoped-store.ts:87-89 | after removal the next lookup creates afresh |
| RequestScopedStore.RequestScopedStores.constructor | VideoApplication.UI/src/stores/request-scoped-store.ts:5 | the map of scopes starts empty |
| RequestScopedStore.RequestScopedStores.ScopedStore | VideoApplication.UI/src/stores/request-scoped-store.ts:40-48 | a new symbol unlike any before is bound to a writable store |
| RequestScopedStore.RequestScopedStores.DerivedScopeStore | VideoApplication.UI/src/stores/request-scoped-store.ts:66-85 | a new symbol unlike any before is bound to a store derived from earlier ones |
| RequestScopedStore.RequestScopedStores.RemoveScopedStores | VideoApplication.UI/src/stores/request-scoped-store.ts:87-89 | exactly the request's stores are dropped |
| RequestScopedStore.RequestScopedStores.GetOrCreateStore | VideoApplication.UI/src/stores/request-scoped-store.ts:7-21 | the store is found or created under both keys; only this request's map grows; a writable one follows GetOrCreate |
| RequestScopedStore.RequestScopedStores.RequestStores | VideoApplication.UI/src/stores/request-scoped-store.ts:8-12 | the request's inner map is created when missing |
| RequestScopedStore.RequestScopedStores.AddEntry | VideoApplication.UI/src/stores/request-scoped-store.ts:17 | exactly one entry is added |
| RequestScopedStore.RequestScopedStores.ResolveDependencies | VideoApplication.UI/src/stores/request-scoped-store.ts:77 | each dependency is read under the same request key, in order |
| RequestScopedStore.RequestScopedStores.ReadStore | VideoApplication.UI/src/stores/request-scoped-store.ts:43-84 | the store fails exactly when the scope does; otherwise it is the request's store for the symbol, only that request's map grew, and a store already there comes back unchanged with nothing else changed |

## Left out

- I/O and cancellation are not modelled. Running ffmpeg and ffprobe, reading and writing files, HTTP, and `CancellationToken`s are all out. What the model keeps is their inputs and outputs: the probe record, the progress lines, the files ffmpeg writes, and the bytes each stream hands out.
- Asynchronous methods are folded into their synchronous counterparts: `ReadAsync` into `Read`, `FlushAsync` into `Flush`, and awaited calls into plain calls. Concurrency between requests is not modelled.
- Foreign functions are parameters of the operations that call them:
  - `Guid.NewGuid` (a fresh id; a collision shows up as the database error it would cause);
  - `TimeSpan.Parse`;
  - `encodeURIComponent` and `decodeURIComponent`;
  - `Directory.EnumerateFiles` (every file it yields must have a path longer than the output directory's).
- .NET's `SHA256` is the FIPS 180-4 function of `Sha256Spec`, not an uninterpreted one. The two are the same algorithm.
- Floating point is not modelled:
  - `GetBitRate`'s `0.30d` factor is exact 3/10 with truncation;
  - the filter width `h * 16 / 9` is rounded up as an integer ceiling;
  - durations are whole ticks.
- FfprobeWrapper builds the three-field `StreamInfo` of its own file (FfprobeWrapper.cs:127). The planner takes the seven-field record of StreamInfo.cs. The model keeps both shapes, and does not reconcile them beyond the fields the probe fills.
- `Path.Join` is a string join over `/` with no normalisation. An output file's relative name is the text after the directory path and one separator, cut as the source cuts it.
- Claims.TryParseGuid: `Guid.TryParse` is a concrete function that accepts only the "N" form (32 hex digits) and the "D" form (8-4-4-4-12 with hyphens), digits in either letter case. It rejects forms .NET also accepts: "B" (`{…}`), "P" (`(…)`), "X" (`{0x…,…}`) and text with surrounding white space. A claim holding one of those gives an ArgumentException in the model where .NET gives the Guid. Every id the application issues is written in the "D" form (Guids.Format), so the issued claims parse alike in both.
- Letter case is ASCII only: `ToUpper` and ignore-case comparisons touch `a`-`z` and nothing else.
- The XHR that sends a slice, and its progress events, are left out (upload-chunks.ts:36-40, 45-80). `UploadChunks.UploadChunks` records what would be sent. The model does not cover a failed request rejecting and ending the loop.
- In `parseCookie` the record is a plain object, so a cookie named `__proto__` would not become a key. The model treats every key alike.
- The JSON body of `post` is taken as already holding the two strings. A body without them is not modelled.
- Svelte `writable` and `derived` stores are `Store` values: a serial number and, for a derived store, its source stores. Their subscriptions and values are not modelled.
- Track ids in the planner are not checked for collisions.
- `Bus.Outbox`, `Streams.ReadStream`, `Streams.WriteStream` and `Database.BlobStore` stand in for MassTransit, `System.IO.Stream` and the S3 wrapper. They record what is published, sent, read, written and stored, and nothing more.
- Logging (`console.log`, `ILogger`) and the browser's `debugger` statement are left out.
- FfprobeWrapper.ParseStreamType: only the two member names are recognised. `Enum.Parse<StreamType>(s, true)` also accepts a numeric string (any integer, even one naming no member), whitespace around a name, and comma-joined names. The model rejects those. ffprobe's `codec_type` is a plain word such as `video`, `audio` or `subtitle`.
- Database.UniqueChunkPositions is an invariant of the model, not a database constraint. The chunk table has only a non-unique index on UploadId. Two concurrent uploads of the same position can both miss the lookup and insert two rows; the model, which runs requests one at a time, does not capture that.
- TranscodeVideoHandler.TranscodeVideoHandler.HandleTranscodingsIdentified: its outbox contract lists only the VideoTranscodingFinished event the handler publishes itself. While ffmpeg runs, the converter's output handler also publishes one VideoTranscodeProgress per progress report (FfmpegConverter.cs:264-276). That is modelled on its own by FfmpegProgress.PublishProgress. The program runner that interleaves it with the process is not part of this model, so the two are not composed.

## Findings

| source | as written | input that shows it | evidently intended | confidence | as-written member | corrected member |
|---|---|---|---|---|---|---|
| VideoApplication.UI/src/helpers/sha256.ts:69 | finalize compresses the buffer early when `remainingBytes >= 56` after the marker | a message of 55 bytes: padding of 128 bytes instead of 64, so the digest is not SHA-256 | `>` 56: a second block only when the marker leaves no room for the length | high, not executed | BrowserSha256.AsWrittenExtraBlock | BrowserSha256.Sha256.FinalizeFixed |
| VideoApplication.UI/src/helpers/sha256.ts:108 | the block loop is entered only when more than one block is left, so exactly 64 leftover bytes stay buffered; finalize's write of 0x80 at offset 64 then throws and is swallowed (lines 62-66) | a single update of 64 bytes (versus two of 32): the buffers differ and the 0x80 marker is lost | every whole block compressed in `_process`, leaving fewer than 64 bytes | high, not executed | BrowserSha256.SplitChangesPadding | BrowserSha256.Sha256.ProcessFixed |
| VideoApplication.UI/src/services/upload/upload-chunks.ts:28 | the browser's lower-case hex hash is compared exactly with the upper-case hash the API reports | any slice whose digest has a letter, such as a file holding the three bytes `abc` (one slice, digest `ba7816bf…`): never skipped, though the server holds it | the comparison ignores letter case | high, not executed | UploadChunks.UnchangedChunkSkippedOnlyWithoutLetters | UploadChunks.UnchangedChunkSkippedFixed |
| VideoApplication.Api/Extensions/ClaimsPrincipalExtensions.cs:21 | GetIdOrNull reads the claim with GetClaimValue, which throws when the claim is missing | an anonymous caller of the [AllowAnonymous] video actions (`[]` claims) asking for an existing video, even a published one: NullReferenceException and a 500 instead of the video | use GetClaimValueOrNull and return null | high, not executed | VideoController.AnonymousReaderOfPublishedVideo | VideoController.VideoController.GetVideoFixed |
| VideoApplication.Api/Controllers/UploadVideoController.cs:164 | chunks are concatenated in the order the database enumerates them | chunks holding [1] at position 0 and [2] at position 1, enumerated position 1 first: the source is [2, 1] | concatenation in position order | medium, not executed | UploadRules.EnumerationOrderReachesSource | UploadVideoController.SortedEnumerationsAgree |
