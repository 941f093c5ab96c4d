# Food styling assistant: a Dafny model of its logic

The food styling assistant is a Next.js chat application. A user describes
a product, and a hosted language model proposes dishes, plates and props for
a photo shoot. The model's replies may embed one JSON "action" block, and
the page turns that block into UI state: dish choices, proposals, a recipe,
a summary table, an equipment list or an image prompt.

This project models the application's deterministic logic as pure Dafny
functions over immutable datatypes and proves properties about it:

- the two session stores: the browser list store, and the database table
  keyed by session id;
- the response-action extractor in both page variants: first accepted kind
  wins, the block is cut out, failures fall through;
- what the two pages do around it: the transcript, the pending image prompt,
  the three-dish progression and the choice of the next session on delete;
- the three chat endpoints, including the bounded retry on rate-limit errors;
- the small UI state machines: dish selection, the equipment checklist, the
  send guard and the revision form;
- the clipboard texts, bold-marker splitting and the image-prompt phrase test;
- credential authorisation and the auth form's error messages.

Ids, clock readings, the network, the upstream model and the regular
expressions are parameters. The block finders and `JSON.parse` are fields
of a `Scanner` record of functions. Upstream calls are a function from
attempt number to `Outcome`. A `fetch` followed by `response.json()` is its
result, `Fetch`. Each module follows one source file; `Text`, `Json`,
`Grouping`, `Types` and `DbTypes` hold the JavaScript string, JSON and
record semantics they share.

## Model

| member | source | states |
|---|---|---|
| Storage.FindIndex | src/lib/storage.ts:33 | `findIndex`: -1 exactly when no session has the id, otherwise the first position holding it |
| Storage.SaveSession | src/lib/storage.ts:29-42 | an id already present replaces the first session with that id in place, leaving the length and every other entry as they were; a new id is put in front, one longer |
| Storage.SaveKeepsUniqueAndFinds | src/lib/storage.ts:29-48 | saving keeps ids unique when they were unique, and reading the id back returns the saved session |
| Storage.SaveThenGet | src/lib/storage.ts:29-48 | whatever the list held, reading the saved id back returns the saved session |
| Storage.GetSession | src/lib/storage.ts:45-48 | `null` exactly when no session has the id, otherwise the first session with that id |
| Storage.FirstIndexUnique | src/lib/storage.ts:33 | in a list with unique ids, looking up the id at position i finds position i |
| Storage.DeleteSession | src/lib/storage.ts:51-56 | afterwards no session has the id, and a session remains exactly when it was there and has another id |
| Storage.DeleteIsOrderedFilter | src/lib/storage.ts:54 | deletion keeps the surviving sessions in their original relative order |
| Storage.DeleteAppend | src/lib/storage.ts:54 | deleting from a list with one more session at the end deletes from the prefix and keeps that session only if its id differs |
| Storage.DeleteAbsentIsNoOp | src/lib/storage.ts:51-56 | deleting an id no session has returns the list unchanged |
| Storage.CreateSession | src/lib/storage.ts:59-70 | a new session has no products or messages, is not completed, has equal creation and update times and a title built from the date label |
| Storage.AddMessage | src/lib/storage.ts:73-85 | exactly one message is appended, with the given role, content and images, the fresh id and the first clock reading; earlier messages, id, title and products are unchanged and the update time is the second, separate clock reading |
| Storage.AddProduct | src/lib/storage.ts:88-99 | exactly one product is appended carrying the draft's fields and the fresh id; messages, id and title are unchanged |
| Storage.UpdateProduct | src/lib/storage.ts:102-110 | product count and order are preserved; only products whose id matches are merged with the update, all others are unchanged |
| SessionTable.ToDbSession | src/lib/db.ts:8-21 | a row read back carries its id, owner, title, mode, theme, products, messages and completion flag unchanged, and both times rendered as ISO instants that read back as the stored times |
| SessionTable.ReadThenInsert | src/lib/db.ts:8-21 | a row read back and inserted again is the same row |
| SessionTable.SaveSession | src/lib/db.ts:39-72 | the upsert adds the id and touches no other row; a new id stores the session as given; on conflict title, products, messages, completion flag and update time are overwritten, the owner, mode and creation time are kept, and a missing theme keeps the old one |
| SessionTable.DeleteSession | src/lib/db.ts:74-81 | exactly the row with that id is removed and every other row is unchanged |
| SessionTable.SaveNewThenRead | src/lib/db.ts:8-21 | saving a session under a new id and reading its row back gives the same session |
| SessionTable.Insert | src/lib/db.ts:30 | inserting into a list sorted by update time, newest first, adds exactly that row and keeps the list sorted |
| SessionTable.InsertKeepsIdsDistinct | src/lib/db.ts:30 | inserting a row with a fresh id keeps ids distinct |
| SessionTable.FetchStep | src/lib/db.ts:26-32 | one step of the query: taking one more owned id keeps the collected rows sorted, distinct and exactly the rows read so far |
| SessionTable.FetchDone | src/lib/db.ts:26-32 | once every owned id is taken, the result holds exactly the owner's rows |
| SessionTable.FetchSessions | src/lib/db.ts:24-37 | the result is exactly the owner's rows, each read back from the table, with distinct ids, sorted newest first; a failed query gives the empty list |
| LegacySession.SessionRoundTrip | src/app_legacy/page.tsx:71-139 | converting a session to its database record and back gives the same session: every field, product, proposal and message |
| LegacySession.DbSessionRoundTrip | src/app_legacy/page.tsx:71-139 | converting a database record to a session and back, with its own user id, gives the same record |
| LegacySession.ToDbSession | src/app_legacy/page.tsx:106-139 | the record is owned by the given user and keeps id, title, mode, theme, completion flag and both times; each product and message is converted in place, the message timestamps reading back as the originals |
| LegacySession.FromDbSession | src/app_legacy/page.tsx:71-104 | the session drops the owner and keeps id, title, mode, theme, completion flag and both times; each product and message is converted in place |
| LegacySession.AddMessage | src/app_legacy/page.tsx:525-536 | exactly one message is appended with the fresh id and the first clock reading; every other field is kept and the update time is the second, separate clock reading |
| LegacySession.ReplaceById | src/app_legacy/page.tsx:229-231 | the session list keeps its length, and entries with the saved id become the saved session |
| LegacySession.ReplaceListsOnlyKnownIds | src/app_legacy/page.tsx:229-231 | the list update brings in no session but the saved one, and a session whose id is not listed stays unlisted |
| LegacySession.Remaining | src/app_legacy/page.tsx:334 | exactly the sessions with another id remain |
| LegacySession.DeleteSession | src/app_legacy/page.tsx:331-347 | a failed delete changes nothing; deleting another session keeps the current one; deleting the current session selects the first remaining one, or the new session when none remain |
| LegacySession.DeleteCurrentFallsBack | src/app_legacy/page.tsx:331-347 | after deleting the current session a current session still exists, has another id and is in the list, and no listed session has the deleted id |
| LegacyPage.ApplyAction | src/app_legacy/page.tsx:361-519 | each accepted action sets only its own piece of UI state: dish options, the confirmed dishes stored as given with the index reset to 0, proposals, one more recipe, the summary, the pending image prompt or the equipment list; the title is replaced by the theme for a dish selection, or for proposals in a session whose title mentions the coop letter |
| LegacyPage.LengthOf | src/app_legacy/page.tsx:710 | `length` of the stored selection: an array's item count, a string's length, an object's numeric `length` field, and undefined for numbers, booleans and null |
| LegacyPage.ElementAt | src/app_legacy/page.tsx:712 | `selection[i]`: an array's item or a string's character in range, an object's field named by the decimal index, undefined otherwise |
| LegacyPage.NextDish | src/app_legacy/page.tsx:720-730 | without a session nothing happens; the index advances only while it is before the last dish, and the message asks for the next dish or, at the last or when the selection has no length, for the layout |
| LegacyPage.NextDishStopsAtLast | src/app_legacy/page.tsx:720-730 | for a selection with a positive length, after n presses the index is the start plus n, capped at the last dish, and the dishes are unchanged |
| LegacyPage.DishImageGenerated | src/app_legacy/page.tsx:709-717 | a zero length or an index at or past the length leaves the state unchanged; an undefined or null current dish throws and records nothing; otherwise one image is recorded under the current dish's order and name |
| LegacyPage.DishImageRecordsCurrentDish | src/app_legacy/page.tsx:709-717 | on an array of dish objects with the index inside it, the image is recorded under that dish and nothing throws |
| LegacyPage.SelectionStoredAsGiven | src/app_legacy/page.tsx:387-389 | a confirmed selection is kept whatever its kind: the string "abc" walks three dishes before the layout is requested, and an array holding `null` makes the image handler throw |
| LegacyPage.ActionsKeepDishIndex | src/app_legacy/page.tsx:380-397 | no action can move the dish index out of range |
| LegacyPage.DishSelectionMessage | src/app_legacy/page.tsx:694-705 | the message sent for a selection ends with " を選びます"; DishSelectionReadBack shows it names exactly the chosen ids, in order |
| LegacyPage.ReadIds | src/app_legacy/page.tsx:704 | reading a selection message back always gives at least one id |
| LegacyPage.DishSelectionReadBack | src/app_legacy/page.tsx:704 | for ids without commas, reading the message back gives the chosen ids in order |
| LegacyPage.UpdateSession | src/app_legacy/page.tsx:225-231 | the session becomes current and every listed entry with its id is replaced by it, the list keeping its length |
| LegacyPage.Prefixed | src/app_legacy/page.tsx:591-594 | a message that already starts with the marker is kept, any other gets the prefix |
| LegacyPage.PrefixedIdempotent | src/app_legacy/page.tsx:591-594 | prefixing twice is the same as prefixing once, and the result always starts with the marker |
| LegacyPage.ImageDraft | src/app_legacy/page.tsx:648-687 | a delivered image gives the fixed "ready" message, with the image attached except in the ohisama mode; an undelivered one gives the retry message; a thrown error gives the image-error-prefixed text |
| LegacyPage.GenerateImage | src/app_legacy/page.tsx:634-691 | without a prompt or a session nothing changes; otherwise one assistant message is saved, and the pending prompt is cleared exactly when the image was delivered |
| LegacyPage.PendingPromptLifecycle | src/app_legacy/page.tsx:493-495 | a generate_image action arms the prompt, a failed image call keeps it, and a later delivered one clears it |
| LegacyPage.SendMessage | src/app_legacy/page.tsx:539-603 | without a session or mode nothing happens; otherwise the user message and exactly one assistant message are appended, the request lists the whole transcript, and the assistant text is the prefixed error or the parsed display text, whose action alone changes the UI |
| LegacyPage.ServerErrorNotDoubled | src/app_legacy/page.tsx:589-599 | a 500 error text from the server already carries the prefix, so the page does not add it again |
| CurrentPage.ReplaceById | src/app/page.tsx:63-65 | the session list keeps its length, and entries with the saved id become the saved session |
| CurrentPage.ReplaceAgreesWithSave | src/app/page.tsx:60-66 | for a listed session and unique ids, the sidebar list update and the store's saveSession give the same list |
| CurrentPage.UpdateSession | src/app/page.tsx:60-66 | the session becomes current, reading its id from the store gives it back, and every listed entry with its id is replaced by it |
| CurrentPage.ShowAction | src/app/page.tsx:105-148 | accepted proposals replace the proposals, an accepted summary replaces the summary, and nothing else changes |
| CurrentPage.ImageFollowUp | src/app/page.tsx:220-246 | a delivered image appends one "ready" message carrying the image; a thrown error appends the prefixed error; an answered but undelivered request leaves the session unchanged |
| CurrentPage.Classify | src/app/page.tsx:202-216 | a failed request yields its error text; otherwise the reply is parsed, and the stored text is the display text or the raw reply when that is empty |
| CurrentPage.Extend | src/app/page.tsx:209-246 | after the user message, one assistant message is appended for an error or plain reply, and for an image prompt also the image follow-up; earlier messages are unchanged |
| CurrentPage.SendMessage | src/app/page.tsx:169-250 | without a session nothing happens; otherwise the user message is appended, the request lists the transcript, proposals are cleared unless new ones arrive, the selection is cleared and the session grows as Extend states |
| CurrentPage.CurrentImagePrompt | src/app/page.tsx:156-158 | an image prompt is returned exactly when a generate_image block was accepted, together with the display text |
| CurrentPage.ImageMessageOnlyWhenDelivered | src/app/page.tsx:220-238 | the image message is appended exactly when the reply carried an image prompt and the image was delivered; otherwise two messages are added |
| CurrentPage.SendSavesToStore | src/app/page.tsx:60-66 | after a send, the stored copy of the session equals the page's current session |
| CurrentPage.DeleteSession | src/app/page.tsx:90-102 | deleting another session keeps the current one; deleting the current session selects the first remaining one, or a new session when none remain |
| CurrentPage.DeleteCurrentFallsBack | src/app/page.tsx:90-102 | after deleting the current session a current session exists, has another id and is listed, and neither the list nor the store has the deleted id |
| ResponseParser.Locate | src/app_legacy/page.tsx:357-358 | the fenced match is used when present; the current page has no fallback, and the legacy page falls back to the bare-brace match |
| ResponseParser.FormatProposals | src/app/page.tsx:113-125 | copying fails exactly when an item is `null`; otherwise one entry per item, each field read from the item |
| ResponseParser.Interpret | src/app_legacy/page.tsx:361-519 | a parsed block is accepted as its own kind exactly when it passes the kind's field check; proposals need an array without `null` items |
| ResponseParser.Try | src/app_legacy/page.tsx:361-379 | a kind is accepted only when its block was found, its payload parsed, and the parsed value passed the kind's check |
| ResponseParser.Dispatch | src/app_legacy/page.tsx:361-521 | no action exactly when every kind fails, and then the reply is returned unchanged; otherwise the first accepted kind in the given order wins and its block is cut out |
| ResponseParser.DispatchAccepted | src/app_legacy/page.tsx:361-521 | an accepted action is of one of the given kinds, that kind's attempt built it, and its block is cut out of the display text |
| ResponseParser.ParseLegacy | src/app_legacy/page.tsx:350-522 | no action and the reply unchanged exactly when no kind of the legacy order is accepted; otherwise an accepted legacy kind's action, with its block cut out |
| ResponseParser.ParseCurrent | src/app/page.tsx:105-166 | the same for the current order of proposals, summary and image prompt |
| ResponseParser.Excise | src/app_legacy/page.tsx:373 | the display text is the reply with the first occurrence of the block removed and then trimmed, or the trimmed reply when the block does not occur |
| ResponseParser.AssistantContent | src/app_legacy/page.tsx:584-587 | the stored content is the display text, or the raw reply when the display text is empty |
| ResponseParser.NoBlockUnchanged | src/app_legacy/page.tsx:521 | when no kind finds a block, the reply comes back unchanged with no action |
| ResponseParser.FailureFallsThrough | src/app_legacy/page.tsx:375-377 | a kind whose block fails to parse or to pass its check is skipped: the result is the dispatch over the remaining kinds |
| ResponseParser.AcceptedBlockExcised | src/app_legacy/page.tsx:350-522 | with an accepted action, the display text is the reply with the first occurrence of the matched block removed, then trimmed |
| ResponseParser.CurrentReplyShape | src/app/page.tsx:156-165 | the current variant returns a (prompt, text) pair exactly for an accepted generate_image block, and plain text otherwise |
| ResponseParser.CurrentImageOnlyAfterOthers | src/app/page.tsx:105-163 | a generate_image result means the proposals and summary kinds both failed first |
| ResponseParser.DispatchStep | src/app_legacy/page.tsx:361-521 | an accepted first kind decides the action; a rejected one passes the reply on to the remaining kinds |
| ResponseParser.ProposalsCopied | src/app/page.tsx:112-126 | accepted proposals have one entry per array item, copying id, title, description, menu material and equipment field for field |
| ChatClient.Field | src/app/page.tsx:205 | a property of the answer object is defined exactly when the key is present, and is then its value |
| ChatClient.ReplyOf | src/app/page.tsx:209 | the reply is read exactly when `message` is a string |
| ChatClient.ChatFailure | src/app/page.tsx:196-209 | a thrown fetch error gives its message; a non-ok answer gives its `error` text or "API error"; an ok answer fails exactly when it has no string message |
| ChatClient.DataUrl | src/app/page.tsx:229-230 | a delivered image becomes a PNG data URL ending in the delivered text |
| ChatClient.ApiMessages | src/app/page.tsx:190-194 | one request entry per message, with its role and content, carrying the current image only for messages with an image URL |
| ChatClient.OkReplyIsNotAFailure | src/app/page.tsx:202-209 | an ok answer with a string message is read as that reply, with no error |
| ChatClient.HandlerAnswersRead | src/pages/api/chat.ts:36-58 | a chat answer from the handler is read back as its message, an image answer counts as delivered exactly when the image is non-empty, and a 500 body is read back as its error text |
| ChatApi.CallFor | src/pages/api/chat.ts:32-53 | a truthy image prompt makes an image call; otherwise an array of messages makes a chat call with the mode, defaulted where the route defaults it; neither gives no call |
| ChatApi.Answer | src/pages/api/chat.ts:35-58 | every answer has status 200; a non-empty image gives success with the image, an empty one success:false with the fixed text, and a chat reply success with the message |
| ChatApi.ServerError | src/pages/api/chat.ts:81-97 | status 500; an error mentioning API_KEY gives the fixed diagnostic, any other the prefixed message |
| ChatApi.Attempts | src/pages/api/chat.ts:30-80 | the loop makes 1 to 3 attempts, waits the listed delays between them, retries only after rate-limit errors, and ends rate-limited only on the last allowed attempt |
| ChatApi.Finish | src/pages/api/chat.ts:32-78 | the last attempt's result becomes the answer, a 429 with the busy message after a rate-limit error, or an escaping error otherwise |
| ChatApi.Handler | src/pages/api/chat.ts:16-98 | a non-POST request gets 405 with Allow: POST and no call; a failed client gives the 500 mapping; at most 3 attempts with the waits taken from the delay list; a 429 only after three rate-limited attempts |
| ChatApi.RetryDelaysIncrease | src/pages/api/chat.ts:8-30 | there are 3 attempts in all, and the delays strictly increase |
| ChatApi.ImagePromptTakesPrecedence | src/pages/api/chat.ts:32-51 | a truthy image prompt is handled as an image call and never rejected for missing messages |
| ChatApi.MissingMessagesRejected | src/pages/api/chat.ts:49-51 | without an image prompt and without a messages array the answer is 400 with no upstream call |
| ChatApi.NullImageNotRetried | src/pages/api/chat.ts:42-47 | an image call that yields nothing is answered 200 with success:false after one attempt |
| ChatApi.OtherErrorsNotRetried | src/pages/api/chat.ts:71-96 | an error that is not a rate-limit error ends after one attempt, with no wait, in the 500 mapping |
| ChatApi.PersistentRateLimitIsBusy | src/pages/api/chat.ts:63-76 | three rate-limited attempts wait 700 then 1400 ms and end in 429 with the busy message |
| ChatApi.RetryThenSuccess | src/pages/api/chat.ts:63-69 | one rate-limit error then success waits 700 ms and answers from the second attempt |
| ChatApi.RateLimitIgnoresCase | src/pages/api/chat.ts:12-14 | the rate-limit test gives the same answer on the lowercased message |
| ChatApi.IsRateLimitError | src/pages/api/chat.ts:12-14 | a message mentioning 429, or "resource exhausted" in lower case, is a rate-limit error |
| ChatApi.LegacyPost | src/app_legacy/api/chat/route.ts:8-68 | an unparsable or null body and a failed client give the prefixed 500; the image prompt is checked before messages; no call means 400; the upstream result becomes the answer or the prefixed 500 |
| ChatApi.LegacyModeDefaults | src/app_legacy/api/chat/route.ts:11 | a chat body without a mode calls upstream with "ohisama" |
| ChatApi.HandlerAgreesWithLegacyRoute | src/pages/api/chat.ts:16-98 | when the first attempt is not rate-limited, the pages handler and the legacy route give the same response and call for the same object body |
| ChatApi.CurrentPost | src/app/api/chat/route.ts:8-49 | the image prompt comes first; messages are validated before the client exists, so a bad body gets 400 even when the client would fail; a chat answer carries only the message; every error is the raw 500 |
| ChatApi.ValidationOrderDiffers | src/app/api/chat/route.ts:30-39 | for a body without messages and a failing client the current route answers 400, the legacy route 500 |
| Grouping.Filter | src/components/DishSelector.tsx:60-70 | the items under a key are exactly the input items with that key |
| Grouping.FindKey | src/components/DishSelector.tsx:63 | -1 exactly when no group has the key, otherwise the position of a group with it |
| Grouping.AddNewKey | src/components/DishSelector.tsx:63-66 | appending an item whose key is new keeps the groups a partition of the items by key |
| Grouping.AddExistingKey | src/components/DishSelector.tsx:66 | appending an item whose key exists keeps the groups a partition of the items by key |
| Grouping.GroupBy | src/components/DishSelector.tsx:60-70 | there are at most as many groups as items, and none exactly when there are no items |
| Grouping.GroupByIsFilter | src/components/DishSelector.tsx:60-70 | the group keys are distinct and are exactly the keys that occur, and each group holds the items with its key in input order |
| Grouping.EachElementInOneGroup | src/components/EquipmentList.tsx:62-71 | every item is in exactly one group, the one with its key |
| DishSelector.Pos | src/components/DishSelector.tsx:104 | the first position of a selected id |
| DishSelector.Without | src/components/DishSelector.tsx:44 | exactly the other ids remain; an absent id changes nothing |
| DishSelector.WithoutNoDup | src/components/DishSelector.tsx:44 | removing an id keeps a duplicate-free selection duplicate-free |
| DishSelector.WithoutAt | src/components/DishSelector.tsx:44 | in a duplicate-free selection, removing an id cuts out its one position and keeps the others' order |
| DishSelector.Toggle | src/components/DishSelector.tsx:41-51 | a selected id is removed keeping the others' order; an unselected id is appended below capacity and ignored at capacity; a duplicate-free selection within capacity stays so |
| DishSelector.ToggleAll | src/components/DishSelector.tsx:37-51 | any sequence of clicks leaves a duplicate-free selection within capacity |
| DishSelector.ToggleTwiceRestores | src/components/DishSelector.tsx:41-51 | below capacity, selecting an unselected dish and toggling it again restores the selection |
| DishSelector.Confirm | src/components/DishSelector.tsx:53-57 | the selection is handed on, unchanged and in order, exactly when it is full |
| DishSelector.OrderNumber | src/components/DishSelector.tsx:104 | 0 exactly for an unselected dish, otherwise its position in the selection plus one |
| DishSelector.DisabledIffToggleIsNoOp | src/components/DishSelector.tsx:105-106 | a dish button is disabled exactly when clicking it would leave the selection unchanged |
| DishSelector.CategoryOf | src/components/DishSelector.tsx:62 | an empty category becomes "その他", any other is kept |
| DishSelector.GroupedPresent | src/components/DishSelector.tsx:60-70 | a category has a group exactly when some dish has it, and the group holds those dishes in order |
| DishSelector.ShownGroups | src/components/DishSelector.tsx:72-89 | the shown groups are the occupied categories of the fixed order, in that order, each holding its dishes |
| DishSelector.ShownDish | src/components/DishSelector.tsx:72-89 | a dish is shown exactly when its category is one of the four fixed ones |
| EquipmentList.ToggleItem | src/components/EquipmentList.tsx:51-59 | the clicked index flips membership and every other index keeps it |
| EquipmentList.ToggleItemTwice | src/components/EquipmentList.tsx:51-59 | clicking the same item twice restores the checked set |
| EquipmentList.TagAll | src/components/EquipmentList.tsx:67 | every tag names a real position of the list holding that item |
| EquipmentList.GroupedPartition | src/components/EquipmentList.tsx:62-71 | each item is in exactly one group, that of its category, tagged with its position; groups keep input order |
| EquipmentList.CheckedInRange | src/components/EquipmentList.tsx:114 | checked indices are always positions of the list |
| EquipmentList.ItemLine | src/components/EquipmentList.tsx:42 | "□ name：quantity", with the description in brackets appended only when it is non-empty |
| EquipmentList.ItemLines | src/components/EquipmentList.tsx:39-44 | one line per item, in input order |
| EquipmentList.CopyTextLines | src/components/EquipmentList.tsx:39-46 | read back line by line, the copy text is the header and then one line per item in order |
| EquipmentList.CopyText | src/components/EquipmentList.tsx:38-46 | the text starts with the header line; an empty list gives the header line alone, and one item gives the header and that item's line |
| MessageBubble.RunEnd | src/components/MessageBubble.tsx:15 | a bold run at a position is "**", at least one non-'*' character and "**"; -1 exactly when none starts there |
| MessageBubble.Scan | src/components/MessageBubble.tsx:15 | the split alternates text and bold runs, with runs at odd positions |
| MessageBubble.Parts | src/components/MessageBubble.tsx:15 | the split has an odd number of parts, with a bold run at every odd position |
| MessageBubble.ScanConcat | src/components/MessageBubble.tsx:15 | joining the parts of a scan gives back the scanned text |
| MessageBubble.ScanTextRunFree | src/components/MessageBubble.tsx:15 | the text parts between runs contain no bold run |
| MessageBubble.PartsProperties | src/components/MessageBubble.tsx:15 | the split loses nothing, alternates text and runs, and no text part holds a run |
| MessageBubble.FormatAsWritten | src/components/MessageBubble.tsx:15-26 | every part starting and ending with "**" is shown bold without its markers, any other part as plain text |
| MessageBubble.Format | src/components/MessageBubble.tsx:15-26 | text parts are shown plain; each run is shown bold, and its piece with the markers put back is the run, free of '*' |
| MessageBubble.FormatRoundTrip | src/components/MessageBubble.tsx:15-26 | putting the markers back around bold pieces gives the original text, and every bold piece is non-empty and free of '*' |
| MessageBubble.SourceFormat | src/components/MessageBubble.tsx:15-26 | restoring markers on the pieces of an alternating split gives the joined parts |
| MessageBubble.AsWrittenAgreesOnRuns | src/components/MessageBubble.tsx:17-25 | the component and the corrected formatter agree on every bold run and on every text part not wrapped in "**" |
| MessageBubble.LoneMarkersVanish | src/components/MessageBubble.tsx:15-22 | the message "**" is one text part that the component shows as an empty bold piece |
| MessageBubble.ShowGenerateButton | src/components/MessageBubble.tsx:30-44 | the button shows exactly for an assistant message containing one of the two phrases, when a handler is given |
| ChatInput.OrUndefined | src/components/ChatInput.tsx:43-44 | an image field is forwarded exactly when it is set and non-empty |
| ChatInput.Submit | src/components/ChatInput.tsx:25-46 | nothing is sent for blank text with no image, or while loading; otherwise the trimmed text, or the default request when it is blank, is sent with the images set, and the input is cleared |
| ChatInput.SentMessageIsTrimmed | src/components/ChatInput.tsx:30 | the sent text is non-empty with no surrounding whitespace, and it is part of the typed text unless only an image was given |
| ChatInput.NoDoubleSend | src/components/ChatInput.tsx:35-38 | the cleared input cannot be sent again |
| ChatInput.ClearImage | src/components/ChatInput.tsx:53-56 | both image fields are cleared, the text and panel kept |
| ChatInput.ClearedImageNeedsText | src/components/ChatInput.tsx:27-56 | after clearing the image, blank text cannot be sent |
| ChatInput.KeyDown | src/components/ChatInput.tsx:115-125 | composing, any other key or Shift+Enter does nothing; plain Enter prevents the default |
| ChatInput.EnterIsSubmit | src/components/ChatInput.tsx:120-124 | plain Enter does exactly what the submit button does |
| ImageConfirmation.SubmitRevision | src/components/ImageConfirmation.tsx:37-46 | no type chosen emits nothing and changes nothing; otherwise the type and the trimmed description are emitted and the form closes empty |
| ImageConfirmation.Cancel | src/components/ImageConfirmation.tsx:138-142 | cancel closes the form empty |
| ImageConfirmation.EnabledSubmitEmits | src/components/ImageConfirmation.tsx:37-149 | an enabled submit button always emits, the description has no surrounding whitespace, and it leaves the form as cancel does |
| ImageConfirmation.ChooseTypeSubmit | src/components/ImageConfirmation.tsx:37-46 | opening, choosing a type, typing and submitting emits that type and the trimmed text |
| RecipeCard.IngredientLines | src/components/RecipeCard.tsx:25-27 | one "・name：amount" line per ingredient, in order |
| RecipeCard.StepLines | src/components/RecipeCard.tsx:29-31 | step i, counted from zero, is shown as i + 1, a dot and the step |
| RecipeCard.CopyTextLines | src/components/RecipeCard.tsx:21-34 | read back line by line: title in brackets, servings, blank, ingredients, blank, numbered steps, then the tips section last, or a final empty line when there are no tips |
| RecipeCard.CopyText | src/components/RecipeCard.tsx:21-34 | the text opens with the bracketed title, the servings and a blank line, and ends with the tips section when there are tips, with a newline otherwise |
| RecipeCard.StepNumbering | src/components/RecipeCard.tsx:30 | the number before the dot of step line i reads back as i + 1 |
| SummaryTable.RowLines | src/components/SummaryTable.tsx:26-28 | one markdown table row per entry, in order, with the product, menu and equipment cells inserted verbatim |
| SummaryTable.Checkboxes | src/components/SummaryTable.tsx:32-34 | one "- [ ] item" line per item, in order |
| SummaryTable.CopyTextLines | src/components/SummaryTable.tsx:20-40 | read back line by line: title, blank, two header lines, the rows, then the shopping and the equipment sections, each a heading after a blank line and its items |
| SummaryTable.CopyText | src/components/SummaryTable.tsx:20-40 | the text opens with the title and a blank line and ends with a newline |
| Auth.NameFor | src/auth.ts:37 | the name is the text before the first '@', the whole email when it has none |
| Auth.Authorize | src/auth.ts:15-58 | missing credentials or a wrong password give no user and no change; an unknown email adds exactly one user named from the email and returns it; a matching password returns the stored user |
| Auth.AuthorizeKeepsIdsUnique | src/auth.ts:30-46 | registering with a fresh id keeps user ids distinct |
| Auth.AuthorizeIdempotent | src/auth.ts:24-57 | signing in again with credentials that just succeeded returns the same user and changes nothing |
| Auth.Jwt | src/auth.ts:62-67 | the token takes the user's id only when a user is given |
| Auth.SessionOf | src/auth.ts:68-73 | the session takes the token's id only when it is non-empty |
| Auth.SignInReachesSession | src/auth.ts:49-73 | a successful sign-in puts the user's id into the session, and later token refreshes keep it |
| AuthForm.Explain | src/components/AuthForm.tsx:34-45 | the first known phrase found picks its fixed message, in the source's order; an error with none is shown as it is |
| AuthForm.ExplainIdempotent | src/components/AuthForm.tsx:34-45 | a shown message, thrown again, is shown the same way |
| AuthForm.NonErrorShowsDefault | src/components/AuthForm.tsx:34 | a thrown value that is not an Error shows the default text |
| AuthForm.Submit | src/components/AuthForm.tsx:19-48 | loading ends; only a sign-in that goes through signs in; a sign-up that goes through shows only the confirmation; a failure shows only the explained error |
| AuthForm.SubmitForgetsEarlierFeedback | src/components/AuthForm.tsx:22-23 | what the form shows after a submit depends only on the mode and the outcome, not on earlier feedback |
| Text.Trim | src/components/ChatInput.tsx:30 | `trim()`: a slice of the text with only whitespace before and after it in the text, and no whitespace at either end |
| Text.TrimUnique | src/components/ChatInput.tsx:30 | any slice with only whitespace around it and none at its ends is the trimmed text, so trimming keeps exactly the inner text |
| Text.RemoveFirst | src/app_legacy/page.tsx:373 | `replace` with a string: the first occurrence is cut out, and a missing one leaves the text unchanged |
| Text.SplitJoin | src/components/EquipmentList.tsx:44 | splitting lines joined by a separator they do not contain gives them back |
| Text.JoinWider | src/app_legacy/page.tsx:704 | joining on a two-character separator is joining on its first character after putting the second in front of every piece but the first |
| Text.NatToStringRoundTrip | src/components/RecipeCard.tsx:30 | a number printed in decimal reads back as itself |

## Left out

- Browser storage: `localStorage` reads and writes, and the JSON encoding of the session list. The store is a `seq<Session>` passed in and returned.
- Supabase, the Drizzle query builder and the sign-in page: foreign clients. The table is a map from session id to row, and the user table a map from email.
- Database failures in `saveSessionToDb` and `deleteSessionFromDb`: they rethrow and the pages only log them. A failed `fetchSessions` is the `failed` flag.
- The ordering of rows with equal update times: SQL leaves it open, so only the descending order is stated.
- The textual ISO format of timestamps: an instant is its millisecond count, so conversions round-trip exactly.
- Time and randomness: `Date`, `toLocaleDateString`, `crypto.randomUUID` and the sleeps. Ids, instants and the date label are parameters; a sleep is the delay value it would wait.
- The regular expressions and `JSON.parse`: they are oracles in `Scanner`. The only fact assumed is that a match occurs in the reply. The bold-run pattern in MessageBubble is small enough to model exactly.
- Numbers in JSON are integers (`JNum`): no value the application reads is fractional, and floating point is out of scope.
- `toLowerCase` is modelled on ASCII letters only. That is exact for the "resource exhausted" test, since no non-ASCII character lowercases to one of its letters.
- The V8 `TypeError` wording for a `null` request body and for calling `match` on a non-string reply. It is a fixed stand-in text, because the exact wording depends on the engine.
- `fetch`, `await` interleaving, React state batching and stale closures. Each handler is one atomic step from the state it reads, so `sessions` captured by `handleDeleteSession` is the current list.
- The legacy page's auto-generate effect, `handleNewSession` UI resets, `handleGenerateLayoutImage`, the proposal and layout components, HistorySidebar, ModeSelector and ImageUpload: presentation and glue without logic of their own.
- The language-model wrapper `src/lib/gemini.ts` is not part of this model. Its calls are upstream outcomes indexed by attempt.
- The clipboard, `alert`, `setTimeout` for the "copied" badge, and the floating-point progress bar of the equipment list.
- EquipmentList renders groups with `Object.entries`, whose order for integer-like keys differs from insertion order. Category keys are fixed words, so insertion order is modelled.
- Grouping.GroupBy: keys inherited from `Object.prototype` (such as "constructor") would find an existing property in the accumulator object; the model treats every key as absent until added, which is exact for the category names in use.
- LegacyPage.LengthOf: an object whose `length` field holds a non-number is treated as having no length. JavaScript would coerce that value to a number in the comparisons, and `null` would read as 0.
- LegacyPage.LengthOf: a string's length counts characters. JavaScript counts UTF-16 code units, so a character outside the Basic Multilingual Plane counts twice there.
- ChatApi.Handler: its own contract fixes only the 405, client-failure and 429 outcomes and the retry bookkeeping. The remaining outcomes are stated by the lemmas beside it (ImagePromptTakesPrecedence, MissingMessagesRejected, NullImageNotRetried, OtherErrorsNotRetried, PersistentRateLimitIsBusy, RetryThenSuccess).

## Findings

| source | as written | input that shows it | evidently intended | confidence | as-written member | corrected member |
|---|---|---|---|---|---|---|
| src/components/MessageBubble.tsx:15-22 | any split part that starts and ends with "**" is rendered bold with `slice(2, -2)`, including text parts the bold pattern did not match | the message `**`: the split yields the single text part "**", which is shown as an empty bold element, so the two asterisks vanish | only parts the bold pattern matched (the odd positions of the split) are bold; other text is shown as typed | low, not executed | MessageBubble.LoneMarkersVanish | MessageBubble.FormatRoundTrip |
