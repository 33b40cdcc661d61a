# AI travel guide: a verified model of the itinerary stream and its pages

This project models, in Dafny, the logic of a Next.js travel planner.

The centre of the model is the stream that carries a generated itinerary from
the server to the browser.

- **The generation route** (`app/api/generate-itinerary/route.ts`):
  - computes the trip duration in whole days;
  - builds seven fixed status lines (the "chain of thought");
  - answers at once with an event-stream response;
  - in the background, writes one `data: <JSON>` frame per status line, then
    one frame per non-empty fragment from the completion provider, then
    either `data: [DONE]` or a single error frame;
  - closes the writer on every path.
- **The itinerary page** (`app/itinerary/page.tsx`):
  - reads the stream chunk by chunk and splits each chunk on line feeds on
    its own, keeping no partial line between chunks;
  - keeps the lines that start with `data: ` and skips `[DONE]`;
  - parses the rest as JSON, appending `thought` payloads to a list and
    concatenating `content` payloads into the itinerary text.

Frames are encoded as `JSON.stringify` writes them, with string escaping as in
RFC 8259 section 7. They are decoded by a JSON parser for objects with string
members.

The headline theorem is `RoundTrip.ItineraryRoundTrip`. Whenever every chunk
the page reads holds whole frames, the page ends with:

- the seven status lines, in order, as its thoughts;
- the concatenation of the provider's fragments as its itinerary.

This holds after a provider failure as well. Beside it the model proves the
limits of that claim:

- a content frame cut between two chunks anywhere within its first seven characters (`data: {`) is lost (`StreamDecoder.SplitFrameIsLost`), while one cut before its first character or inside its `\n\n` terminator is still read (`StreamDecoder.CutBeforeFrameKeepsIt`, `StreamDecoder.CutInTerminatorKeepsFrame`); cuts deeper inside the data line are not covered by a lemma;
- the page's decoder has no carry-over buffer, and the model follows the code
  in that, not an idealised buffering reader;
- when the client goes away mid-stream, the page shows a prefix of the steps
  and a prefix of the text (`RoundTrip.DeliveredStreamDecodes`).

Around the stream, the model covers:

- the three-step form wizard of the itinerary page;
- the list route, which filters by owner and sorts newest first in place;
- the save route's checks and the record it builds;
- the delete and fetch logic of the saved-itineraries page;
- the signup form's password checks and message states.

Modules, one per file:

- `Wrappers` (wrappers.dfy): `Option`.
- `JsonString` (json_string.dfy): quoting and parsing of JSON strings.
- `JsonPayload` (json_payload.dfy): string-valued JSON objects, `JSON.stringify` and `JSON.parse`.
- `EventFrame` (event_frame.dfy): the frames and their text.
- `GenerateItinerary` (generate_itinerary.dfy): the generation route, with its writer as a class.
- `StreamDecoder` (stream_decoder.dfy): the page's decoding as functions.
- `RoundTrip` (round_trip.dfy): the theorems joining the two ends.
- `ItineraryPage` (itinerary_page.dfy): the wizard and the imperative reader loop, proved against `StreamDecoder`.
- `Records` (records.dfy): record shapes and the session guard.
- `ListItineraries` (list_itineraries.dfy): the list route.
- `SaveItinerary` (save_itinerary.dfy): the save route.
- `MyItineraries` (my_itineraries.dfy): the saved-itineraries page.
- `Signup` (signup.dfy): the signup form.

## Model

| member | source | states |
|---|---|---|
| GenerateItinerary.TripDuration | app/api/generate-itinerary/route.ts:22-24 | the ceiling of the whole days between start and end: (days−1)·86 400 000 < end−start ≤ days·86 400 000; the same instant gives 0; an end before the start gives a value ≤ 0, which is not rejected; an end after the start gives ≥ 1 |
| GenerateItinerary.RomeTripIsThreeDays | app/api/generate-itinerary/route.ts:24 | 1 June to 4 June 2025, both at midnight UTC, is a 3-day trip |
| GenerateItinerary.ThoughtSteps | app/api/generate-itinerary/route.ts:66-74 | there are exactly seven status lines |
| GenerateItinerary.NonEmpty | app/api/generate-itinerary/route.ts:116-117 | the deltas the relay loop writes, in provider order; what that means is stated by `NonEmptyAppend`, `NonEmptyHasNoEmpty` and `NonEmptyKeepsText` |
| GenerateItinerary.Planned | app/api/generate-itinerary/route.ts:94-132 | the frames the background task writes when every write is accepted; their shape is stated by `PlannedShape` |
| GenerateItinerary.Deliverable | app/api/generate-itinerary/route.ts:91-136 | what reaches the client is a prefix of the planned frames: all of them when the client stays, otherwise those written before it left |
| GenerateItinerary.PlannedShape | app/api/generate-itinerary/route.ts:94-132 | the frames written are the seven thoughts in order, then one content frame per non-empty delta in provider order, then `[DONE]` on success or one error frame with the fixed message on failure, and nothing after |
| GenerateItinerary.NonEmptyAppend | app/api/generate-itinerary/route.ts:115-122 | the deltas are relayed in provider order: the filter of written deltas distributes over concatenation |
| GenerateItinerary.NonEmptyHasNoEmpty | app/api/generate-itinerary/route.ts:116-117 | no content frame carries an empty or missing delta |
| GenerateItinerary.NonEmptyKeepsText | app/api/generate-itinerary/route.ts:115-122 | skipping empty and missing deltas loses no text: the relayed deltas concatenate to the whole provider text |
| GenerateItinerary.PlannedPrefixContents | app/api/generate-itinerary/route.ts:115-122 | after reading j provider chunks the frames written are the thoughts and then the content frames of the non-empty deltas among those j |
| GenerateItinerary.CatchDelivers | app/api/generate-itinerary/route.ts:126-132 | the error frame of the catch block goes out exactly when the client has not gone away; then it follows what was written; otherwise what reached the client stops where the client left |
| GenerateItinerary.EventStreamWriter.constructor | app/api/generate-itinerary/route.ts:77-79 | a new writer has delivered nothing and has not been closed |
| GenerateItinerary.EventStreamWriter.Write | app/api/generate-itinerary/route.ts:95-97 | a write is accepted exactly when the writer is open and the client is still there, and then appends its chunk; otherwise nothing changes |
| GenerateItinerary.EventStreamWriter.Close | app/api/generate-itinerary/route.ts:133-135 | closing counts one close and delivers nothing; it resolves exactly when the writer is still open and the client has not gone away, and rejects on an errored stream |
| GenerateItinerary.SendFrame | app/api/generate-itinerary/route.ts:95-97 | writing the text of one frame appends exactly that frame's encoding when the write fits, and nothing otherwise |
| GenerateItinerary.WritePrelude | app/api/generate-itinerary/route.ts:94-99 | the thought frames go out in order, one per step, until a write rejects; on success all seven were written |
| GenerateItinerary.WriteDeltas | app/api/generate-itinerary/route.ts:115-122 | after the prelude, the content frames of the non-empty deltas go out in provider order, up to the first rejected write |
| GenerateItinerary.StreamItinerary | app/api/generate-itinerary/route.ts:91-136 | the client receives the encoding of the planned frames, or of the prefix written before it left; the writer is closed exactly once on every path; one 500 ms wait follows each written thought; the provider is called only once all seven thoughts are written; the closure settles exactly when the client is still there after the last frame, and rejects when the catch block's write or the final close rejects, including when the client leaves right after the last frame |
| GenerateItinerary.Post | app/api/generate-itinerary/route.ts:16-148 | a body that does not parse gives the 500 JSON reply `{"error":"Failed to generate itinerary"}` and no stream; otherwise the 200 event-stream response with the no-cache and keep-alive headers, and a writer closed once that carries the deliverable frames |
| EventFrame.Payload | app/api/generate-itinerary/route.ts:96 | the `{type, content}` object of a frame, with the type `thought`, `content` or `error` (lines 96, 119, 130); `StreamDecoder.PayloadLookups` states that the page reads both members back |
| EventFrame.Data | app/api/generate-itinerary/route.ts:96 | the text after `data: `: the stringified payload, or `[DONE]` for the terminator (line 125); it holds no line feed by `EventFrame.LineIsOneLine` |
| EventFrame.Line | app/api/generate-itinerary/route.ts:96 | the frame's data line `data: <payload>`; `EventFrame.LineIsOneLine` states that it is one line |
| EventFrame.Encode | app/api/generate-itinerary/route.ts:96 | what one write carries: the data line and a blank line (lines 96, 119, 125, 130); decoded by `StreamDecoder.FrameLineDecodes` |
| EventFrame.EncodeAll | app/api/generate-itinerary/route.ts:94-132 | the writes of several frames, one after the other; `EventFrame.EncodeAllAppend` states that it distributes over concatenation |
| EventFrame.LineIsOneLine | app/api/generate-itinerary/route.ts:96 | every frame's line is `data: ` followed by its payload, and holds no line feed whatever the content |
| EventFrame.EncodeAllAppend | app/api/generate-itinerary/route.ts:94-125 | the text of a frame sequence is the concatenation of the frames' texts |
| JsonString.EscapeChar | app/api/generate-itinerary/route.ts:96 | JSON.stringify's escape of one character: one to six characters, two-character escapes for quote, backslash and the named controls, `\u00XX` for the other control characters, the character itself otherwise |
| JsonString.Escape | app/api/generate-itinerary/route.ts:96 | the text JSON.stringify writes between the quotes; `JsonString.EscapeHasNoControl` states that it holds no control character |
| JsonString.Quote | app/api/generate-itinerary/route.ts:96 | a string as JSON.stringify writes it; `JsonString.QuoteRoundTrip` states that it parses back |
| JsonString.ParseEscape | app/itinerary/page.tsx:136 | the escape after a backslash, as JSON.parse reads it: a character and a length of at least one that does not run past the input, or a failure |
| JsonString.ParseString | app/itinerary/page.tsx:136 | a string literal as JSON.parse reads it; on success the rest is strictly shorter than the input |
| JsonString.HexRoundTrip | app/api/generate-itinerary/route.ts:96 | a hex digit written by the escaper reads back as its value |
| JsonString.EscapeHasNoControl | app/api/generate-itinerary/route.ts:96 | an escaped string holds no control character |
| JsonString.QuoteRoundTrip | app/api/generate-itinerary/route.ts:96 | parsing a quoted string gives back the string and leaves what follows it untouched |
| JsonPayload.StringifyObject | app/api/generate-itinerary/route.ts:96 | JSON.stringify of an object with string members; `JsonPayload.StringifyRoundTrip` states that JSON.parse gives the members back |
| JsonPayload.ParseObject | app/itinerary/page.tsx:136 | JSON.parse of a data line, None where it throws or yields something other than an object with string members |
| JsonPayload.Lookup | app/itinerary/page.tsx:137-140 | `parsed.type` and `parsed.content`: undefined exactly when no member has the key, and otherwise the value of a member with that key (the last one, by `JsonPayload.LastIndexOf`) |
| JsonPayload.LastIndexOf | app/itinerary/page.tsx:137 | a property lookup finds the last member with that key, or reports that no member has it |
| JsonPayload.StringifyNoControl | app/api/generate-itinerary/route.ts:96 | a stringified object is one line, with no control character |
| JsonPayload.MemberListRoundTrip | app/api/generate-itinerary/route.ts:96 | the members of a stringified object parse back in order, up to and including the closing brace |
| JsonPayload.StringifyRoundTrip | app/api/generate-itinerary/route.ts:96 | `JSON.parse(JSON.stringify(o))` gives back the members of o |
| StreamDecoder.ApplyPayload | app/itinerary/page.tsx:137-141 | the dispatch on `parsed.type`: it only appends, adds at most one thought, and a type other than `thought` or `content` changes nothing |
| StreamDecoder.HandleLine | app/itinerary/page.tsx:131-145 | one line of a chunk only appends and adds at most one thought; a line not starting with `data: ` changes nothing |
| StreamDecoder.HandleLines | app/itinerary/page.tsx:130-146 | the lines of a chunk, in order: they only append, adding at most one thought per line |
| StreamDecoder.HandleChunk | app/itinerary/page.tsx:127-146 | one chunk, split on its own with no carry-over: the page only appends |
| StreamDecoder.HandleChunks | app/itinerary/page.tsx:123-147 | the chunks in the order read: the page only appends |
| StreamDecoder.Decode | app/itinerary/page.tsx:121-148 | what the page shows after the chunks, from a fresh start; `StreamDecoder.FramedChunksDecode` states what whole frames decode to |
| StreamDecoder.DecodeGrows | app/itinerary/page.tsx:123-147 | reading more chunks never takes back a thought or any itinerary text already shown |
| StreamDecoder.Split | app/itinerary/page.tsx:128 | splitting a chunk yields at least one piece |
| StreamDecoder.SplitJoin | app/itinerary/page.tsx:128 | the pieces of a split hold no line feed and join back to the chunk |
| StreamDecoder.SplitNoNewline | app/itinerary/page.tsx:128 | a chunk without a line feed is a single piece |
| StreamDecoder.HandleLinesAppend | app/itinerary/page.tsx:130-146 | the lines of a chunk are handled one after another, left to right |
| StreamDecoder.HandleChunksAppend | app/itinerary/page.tsx:123-147 | chunks are handled one after another, in the order read |
| StreamDecoder.PayloadLookups | app/itinerary/page.tsx:137-140 | the page reads back a frame's `type` and `content` |
| StreamDecoder.FrameLineDecodes | app/itinerary/page.tsx:130-142 | the data line of any frame has that frame's intended effect: a thought is appended, content is concatenated, and error and `[DONE]` change nothing |
| StreamDecoder.ChunkOfFrames | app/itinerary/page.tsx:127-147 | a chunk made of whole frames has the frames' effects, in order |
| StreamDecoder.FramedChunksDecode | app/itinerary/page.tsx:123-147 | chunks that each hold whole frames, grouped in any way, have the effect of all the frames in order |
| StreamDecoder.NonDataLineIgnored | app/itinerary/page.tsx:131 | a line not starting with `data: `, such as the blank separator line, changes nothing, and later lines are still handled |
| StreamDecoder.DoneSkipped | app/itinerary/page.tsx:133 | `data: [DONE]` changes nothing and does not stop the loop |
| StreamDecoder.MalformedSkipped | app/itinerary/page.tsx:135-145 | a data line that does not parse changes nothing, and the later lines of the chunk are still handled |
| StreamDecoder.OtherTypesIgnored | app/itinerary/page.tsx:137-142 | a payload whose type is neither `thought` nor `content` (an error frame, say) changes neither the thoughts nor the text |
| StreamDecoder.JsonBodyIgnored | app/itinerary/page.tsx:130-131 | a JSON error body read as a chunk changes nothing |
| StreamDecoder.WholeFrameIsRead | app/itinerary/page.tsx:127-142 | a content frame read in one chunk puts its delta in the text |
| StreamDecoder.FrameHeadIgnored | app/itinerary/page.tsx:127-131 | the first seven characters of a content frame, read as a chunk, change nothing |
| StreamDecoder.FrameTailIgnored | app/itinerary/page.tsx:127-131 | the rest of that frame, read as a chunk, changes nothing |
| StreamDecoder.EarlyHeadIgnored | app/itinerary/page.tsx:127-134 | the first one to seven characters of a content frame, read as a chunk, change nothing: too short for a data line, `data: ` with nothing to parse, or `data: {` |
| StreamDecoder.EarlyTailIgnored | app/itinerary/page.tsx:127-131 | the rest of a content frame after its first one to seven characters starts with a character of `ata: {"`, so it changes nothing |
| StreamDecoder.SplitFrameIsLost | app/itinerary/page.tsx:127-128 | a content frame cut into two chunks anywhere within its first seven characters (`data: {`) is lost: with no carry-over buffer the page shows nothing of it |
| StreamDecoder.CutBeforeFrameKeepsIt | app/itinerary/page.tsx:127-142 | a content frame whose first chunk is empty is read whole from the second chunk |
| StreamDecoder.CutInTerminatorKeepsFrame | app/itinerary/page.tsx:127-142 | a content frame cut at the end of its data line or inside its `\n\n` terminator is read: the first chunk holds the whole data line, and the line feeds left over change nothing |
| RoundTrip.ApplyThoughts | app/itinerary/page.tsx:138 | thought frames append their texts to the thoughts, in order |
| RoundTrip.ApplyContents | app/itinerary/page.tsx:139-141 | content frames append their deltas to the text, in order |
| RoundTrip.ApplyAllExtends | app/itinerary/page.tsx:136-142 | reading frames only appends: the earlier thoughts and text are prefixes of the later ones |
| RoundTrip.ApplyPlanned | app/api/generate-itinerary/route.ts:94-132 | the planned frames are meant to leave the page with the steps as its thoughts and the relayed deltas as its text |
| RoundTrip.ItineraryRoundTrip | app/itinerary/page.tsx:127-142 | when every chunk holds whole frames of the route's output, the page's thoughts are the seven status lines in order and its itinerary is the concatenation of the non-empty deltas, which is the whole provider text |
| RoundTrip.OneChunkPerWrite | app/itinerary/page.tsx:123-147 | reading each write as its own chunk has the frames' intended effect |
| RoundTrip.PlannedPrefixDecodes | app/itinerary/page.tsx:136-142 | after any prefix of the planned frames, the thoughts are a prefix of the steps, the text is a prefix of the relayed text, and text appears only once all seven thoughts are in |
| RoundTrip.DeliveredStreamDecodes | app/itinerary/page.tsx:121-148 | whatever reaches the page, when the client stays or when it leaves early, shows a prefix of the steps and of the provider text, text only after all steps, and exactly the steps and the text when every frame gets through |
| ItineraryPage.WithField | app/itinerary/page.tsx:87-92 | an input change sets the named field and leaves every other field as it was |
| ItineraryPage.CanProceedStep1 | app/itinerary/page.tsx:157 | `canProceedStep1`: destination, start date and end date all non-empty, as `ItineraryPage.GuardsReadTheirFields` states |
| ItineraryPage.CanProceedStep2 | app/itinerary/page.tsx:158 | `canProceedStep2`: budget, travelers and accommodation all non-empty, as `ItineraryPage.GuardsReadTheirFields` states |
| ItineraryPage.NextDisabled | app/itinerary/page.tsx:330 | the Next button is disabled on step 1 unless step 1's guard holds, and otherwise unless step 2's guard holds |
| ItineraryPage.SubmitDisabled | app/itinerary/page.tsx:339 | the submit button is disabled exactly while interests is empty |
| ItineraryPage.NextStep | app/itinerary/page.tsx:94-96 | the guarded increment `if (step < 3) setStep(step + 1)`: one more below 3, unchanged otherwise; `ItineraryPage.StepStaysInRange` states its range and its inverse |
| ItineraryPage.PrevStep | app/itinerary/page.tsx:98-100 | the guarded decrement `if (step > 1) setStep(step - 1)`: one less above 1, unchanged otherwise; `ItineraryPage.StepStaysInRange` states its range and its inverse |
| ItineraryPage.GuardsReadTheirFields | app/itinerary/page.tsx:157-158 | Next on step 1 needs destination, start date and end date all non-empty; on step 2 it needs budget, travelers and accommodation; submit needs interests |
| ItineraryPage.EditOutsideGuardKeepsIt | app/itinerary/page.tsx:87-92 | editing a field that a guard does not read leaves that guard unchanged |
| ItineraryPage.StepStaysInRange | app/itinerary/page.tsx:94-100 | next and previous keep the step within 1..3, move it by one where they can, and undo each other |
| ItineraryPage.Page.constructor | app/itinerary/page.tsx:59-74 | the page starts on step 1 with an empty form, nothing generated and the form shown |
| ItineraryPage.Page.PrefillDestination | app/itinerary/page.tsx:77-85 | a non-empty `destination` URL parameter fills the destination; an absent or empty one changes nothing |
| ItineraryPage.Page.HandleInputChange | app/itinerary/page.tsx:87-92 | an input change updates only the form, and only the named field |
| ItineraryPage.Page.HandleNextStep | app/itinerary/page.tsx:94-96 | the step advances by one below 3 and stays put at 3 |
| ItineraryPage.Page.HandlePrevStep | app/itinerary/page.tsx:98-100 | the step goes back by one above 1 and stays put at 1 |
| ItineraryPage.Page.ClickNext | app/itinerary/page.tsx:326-334 | a Next click advances the step exactly when the form is shown, the step is below 3 and the current step's guard holds |
| ItineraryPage.Page.NewItinerary | app/itinerary/page.tsx:361-366 | the new-itinerary action returns to step 1 and the form, with the itinerary `''` and the thoughts `[]`, and keeps the form data |
| ItineraryPage.Page.UpdateItinerary | app/itinerary/page.tsx:367-369 | an edit in the result view replaces the itinerary text and nothing else |
| ItineraryPage.Page.ReadLine | app/itinerary/page.tsx:130-145 | the imperative handling of one line, with its state setters, has exactly the effect of the decoder's line function, and keeps the itinerary equal to `fullResponse` |
| ItineraryPage.Page.HandleSubmit | app/itinerary/page.tsx:102-155 | submit resets the itinerary and thoughts and shows the result; with a readable body the read loop leaves exactly what the decoder gives for the chunks read; with a fetch error or no body nothing is shown; generation is over afterwards; step and form are kept |
| Records.AuthorizedUser | app/api/itineraries/route.ts:11-16 | a request is authorised exactly when there is a session with a user, and then acts for that user's id |
| ListItineraries.FindByOwner | app/api/itineraries/route.ts:20-23 | the query returns only the owner's documents, and each of them as often as it occurs |
| ListItineraries.SortNewestFirst | app/api/itineraries/route.ts:26 | the in-place sort leaves the array ordered newest first, as a permutation of what it held |
| ListItineraries.ListItineraries | app/api/itineraries/route.ts:7-36 | a failed session lookup gives 500 `Failed to fetch itineraries` without a query; no signed-in user gives 401 without a query; a database failure gives the same 500; otherwise 200 with exactly the user's documents, newest first |
| SaveItinerary.BuildRecord | app/api/itineraries/save/route.ts:42-58 | the record's owner comes from the session, its chat history is empty, `createdAt` and `updatedAt` are the route's first and second clock reads, every descriptive field is copied unchanged, and the title is the body's truthy title or `<destination> Trip`, so it is never empty |
| SaveItinerary.BuildRecordDependsOnFieldsOnly | app/api/itineraries/save/route.ts:19-58 | two bodies that agree on the eleven destructured properties give the same record even when they carry different `userId`, `chatHistory`, `createdAt` or `updatedAt` of their own: the client cannot choose the owner, the chat or the dates |
| SaveItinerary.Save | app/api/itineraries/save/route.ts:7-76 | a failed session lookup gives 500; no user gives 401 before the body is read; an unreadable body gives 500; a falsy destination or content gives 400; an unreachable database gives 500; none of these inserts anything; otherwise the built record is inserted, giving 201 with the new id, or 500 if the insert fails; 500 always carries `Failed to save itinerary` |
| SaveItinerary.SavedRecordOwnedBySession | app/api/itineraries/save/route.ts:43 | any inserted record belongs to the session's user and starts with an empty chat |
| MyItineraries.RemoveById | app/my-itineraries/page.tsx:66 | no entry with the deleted id remains |
| MyItineraries.RemoveByIdCounts | app/my-itineraries/page.tsx:66 | every other entry is kept as often as it occurred, and nothing is added |
| MyItineraries.RemoveByIdAppend | app/my-itineraries/page.tsx:66 | the kept entries stay in their original order: the filter distributes over concatenation |
| MyItineraries.RemoveAbsentId | app/my-itineraries/page.tsx:66 | a list without the id is left unchanged |
| MyItineraries.RemoveByIdIdempotent | app/my-itineraries/page.tsx:66 | deleting the same id twice is deleting it once |
| MyItineraries.RemoveByIdCommutes | app/my-itineraries/page.tsx:66 | deleting two ids gives the same list in either order |
| MyItineraries.RemoveDistinct | app/my-itineraries/page.tsx:66 | with distinct ids a delete removes exactly one entry when the id is listed, and never more than one |
| MyItineraries.DeleteDisabled | app/my-itineraries/page.tsx:167 | a delete button is disabled exactly when its id is the one in flight; `MyItineraries.OnlyDeletingEntryDisabled` states the consequence for the list |
| MyItineraries.OnlyDeletingEntryDisabled | app/my-itineraries/page.tsx:167 | with distinct ids at most one delete button is disabled, the one whose id is being deleted, and none when no delete is in flight |
| MyItineraries.MyItinerariesPage.constructor | app/my-itineraries/page.tsx:23-25 | the page starts with an empty list, loading, and no delete in flight |
| MyItineraries.MyItinerariesPage.FetchItineraries | app/my-itineraries/page.tsx:38-51 | the list is replaced only by an ok response, and loading is over on every outcome |
| MyItineraries.MyItinerariesPage.OnSessionStatus | app/my-itineraries/page.tsx:27-36 | an unauthenticated status redirects to the login page without a fetch; an authenticated one fetches; a loading one does nothing |
| MyItineraries.MyItinerariesPage.BeginDelete | app/my-itineraries/page.tsx:53-58 | a declined confirmation changes nothing and sends nothing; a confirmed one marks the id as in flight and sends one request |
| MyItineraries.MyItinerariesPage.FinishDeleteAsWritten | app/my-itineraries/page.tsx:60-75 | as written: on success the list becomes the list captured when the delete began, without the id; otherwise one alert and the list is kept; nothing is in flight afterwards |
| MyItineraries.MyItinerariesPage.FinishDelete | app/my-itineraries/page.tsx:60-75 | corrected: on success the id is removed from the current list; otherwise one alert and the list is kept; nothing is in flight afterwards |
| MyItineraries.MyItinerariesPage.HandleDelete | app/my-itineraries/page.tsx:53-76 | declined, nothing changes; confirmed, one request, the entry leaves the list exactly when the request succeeds (an alert otherwise), and no delete is in flight afterwards |
| MyItineraries.MyItinerariesPage.OverlappingDeletesAsWritten | app/my-itineraries/page.tsx:53-76 | as written, two overlapping successful deletes leave `AfterOverlapAsWritten` of the list: only the second id removed |
| MyItineraries.MyItinerariesPage.FirstCompletionEnablesSecond | app/my-itineraries/page.tsx:53-76 | with two overlapping deletes, the first completion clears the in-flight mark while the second request is pending, so the second entry's delete button (line 167) is enabled again |
| MyItineraries.MyItinerariesPage.OverlappingDeletes | app/my-itineraries/page.tsx:53-76 | corrected, two overlapping successful deletes leave `AfterOverlap` of the list: both ids removed |
| MyItineraries.OverlapResurrectsEntry | app/my-itineraries/page.tsx:66 | the list `OverlappingDeletesAsWritten` leaves from `[a, b]`, deleting `a` and then `b` with overlapping requests, shows `a` again |
| MyItineraries.OverlapRemovesBoth | app/my-itineraries/page.tsx:66 | the list `OverlappingDeletes` leaves has both ids gone, whichever request ends first, and every other entry kept |
| Signup.Utf16Length | app/signup/page.tsx:32 | JavaScript's `length` counts between one and two code units per character |
| Signup.ValidatePasswords | app/signup/page.tsx:27-35 | mismatched passwords report "Passwords do not match"; matching passwords under 6 code units report the length error; everything else passes |
| Signup.MismatchReportedFirst | app/signup/page.tsx:27-35 | mismatched short passwords report the mismatch, not the length |
| Signup.LengthCheckBounds | app/signup/page.tsx:32-35 | six characters always pass the length check, and fewer than three never do |
| Signup.AstralCharactersCountTwice | app/signup/page.tsx:32 | four characters outside the basic plane count as eight code units and pass |
| Signup.FailureMessage | app/signup/page.tsx:50-70 | a failure shows the server's `error` if it is non-empty, otherwise "Failed to create account"; a thrown error shows its message, or "An error occurred. Please try again." when that is empty; never an empty message |
| Signup.SubmitDisabled | app/signup/page.tsx:208 | the submit button is disabled while loading or once a success message is shown; `Signup.SignupForm.HandleSubmit` states when it becomes disabled |
| Signup.SignupForm.constructor | app/signup/page.tsx:13-19 | the form starts empty, with no message and not loading |
| Signup.SignupForm.BeginSubmit | app/signup/page.tsx:21-37 | both messages are cleared; a failed check shows its message and sends nothing; loading starts and the request goes out only when both checks pass |
| Signup.SignupForm.FinishSubmit | app/signup/page.tsx:39-73 | an ok response shows the success message; any failure shows its failure message; loading is over on every path |
| Signup.SignupForm.HandleSubmit | app/signup/page.tsx:21-74 | from an enabled button: afterwards nothing is loading and exactly one message is shown; a request went out only if the checks passed; the button, disabled while loading or after a success (line 208), stays disabled exactly after a success |

## Left out

- The completion provider (the OpenAI client and `chat.completions.create`) is not modelled. It becomes `Provider`: the sequence of optional deltas it yields, and whether it throws after them.
- The system and user prompt strings (route.ts:27-63) are not modelled. Only the provider reads them.
- MongoDB, `getServerSession` and `fetch` are parameters. Each is the record list, the session, the insert result or the response it yields, or its failure (`Database.Unreachable`, `SessionLookup.LookupFailed`, `InsertResult.DatabaseUnreachable` and `InsertFailed`, `StreamResponse.FetchFailed`).
- `new ObjectId(session.user.id)` may throw on a malformed id. The model treats ids as valid.
- GenerateItinerary.TripDuration: divides integers exactly, while the route divides doubles (`Math.ceil((end - start) / 86400000)`). The two differ only for spans beyond 2^53 ms, where the double subtraction rounds: a span of 2^27 days plus 1 ms gives 134217728 in the route and 134217729 in the model.
- `new Date(...)` parsing is not modelled. Dates are integer milliseconds, so an unparsable date, which gives NaN days in the source, is outside the model.
- `setTimeout` is not modelled. The 500 ms waits of the prelude are counted, not timed.
- The signup page's delayed `signIn` and redirect are not modelled.
- `TextEncoder` and `TextDecoder` are not modelled. Chunks are strings.
- The background closure runs concurrently with the returned response. The model runs it to completion, in order, after the response is built.
- JSON is modelled only for objects whose members are all strings, with white space and repeated keys (the last one wins).
  - Non-object JSON and objects with other member types count as lines that do not parse.
  - For non-object JSON and for `null` the page's effect is the same: nothing changes.
- StreamDecoder.HandleLine: does not model a `content` or `type` member that holds a number, a boolean or an object. JavaScript would use such a value; the model skips the line.
- StreamDecoder.ApplyPayload: does not model a `thought` frame that has no `content`. JavaScript appends `undefined` to the thought list; the model adds nothing. A `content` frame without `content` is modelled: it appends the text `undefined`.
- ItineraryPage.Page.ReadLine: has the same `thought` limitation as `StreamDecoder.ApplyPayload`.
- JsonString.ParseEscape: does not model `\u` escapes of UTF-16 surrogates. A Dafny character is a Unicode scalar value. The stringifier never writes such an escape.
- GenerateItinerary.ThoughtSteps: its contract states only that there are seven steps. The texts of the steps are its body.
- ListItineraries.SortNewestFirst: does not state that the sort is stable. It states that the result is ordered and a permutation.
- Intermediate renders while a handler awaits are not modelled. Examples are `isGenerating` during the read loop and `deletingId` during the request. Each handler's state is modelled where the awaits split it: begin and finish of a delete, begin and finish of a signup.
- The chat relay and chat-history persistence are not modelled. No route for them is among the files modelled.
- The weather route, the suggestions page, the login page, the result view's download and share actions, and the presentational components are not modelled.

## Findings

| source | as written | input that shows it | evidently intended | confidence | as-written member | corrected member |
|---|---|---|---|---|---|---|
| app/my-itineraries/page.tsx:66 | on success the handler sets the list to `itineraries.filter(...)`, a filter of the list its closure captured when the delete began | list `[a, b]`; confirm delete of `a`, then of `b` while the first request is in flight; both succeed, `a` first | each completed delete removes its id from the list as it is then, so both disappear | medium (not executed) | MyItineraries.OverlapResurrectsEntry | MyItineraries.OverlapRemovesBoth |

In the as-written run, `a` reappears: the second completion writes back `[a, b]` without `b`.

The same interleaving shows a second effect. The first completion sets `deletingId` to `null` while the second request is still in flight, which enables that entry's delete button again. `MyItineraries.MyItinerariesPage.FirstCompletionEnablesSecond` exhibits it; the corrected handler keeps this effect, since a single `deletingId` cannot mark two requests.

The as-written handler is `MyItineraries.MyItinerariesPage.FinishDeleteAsWritten`, with the scenario `OverlappingDeletesAsWritten`. The corrected handler, `FinishDelete`, filters the current list, as a functional `setItineraries(prev => ...)` update would. The rest of the model (`HandleDelete`, `OverlappingDeletes`) uses the corrected handler.
