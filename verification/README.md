# GMediaRender: verified model of eventing, transport and metadata

GMediaRender is a UPnP/DLNA media renderer. This project models the parts of it where state, order and
text editing interact, and proves what controllers and the playback engine can rely on:

- **Eventing** (`src/variable-container.c`, with its uses in `src/upnp_device.c`): a variable store calls
  its listeners; one of them, the collector, gathers changes into a LastChange document and writes that
  document back into the same store. Documents are held back while a transaction is open and dropped when
  they repeat the previous one. The state machine is in `LastChangeEngine.dfy`; the objects that refine it
  are in `VariableContainer.dfy` and `UpnpDevice.dfy`; threads that share it are in `ServiceLocking.dfy`.
- **Transport** (`src/upnp_transport.c` with the URI bookkeeping of `src/output_gstreamer.c`): actions,
  events of the output, stream tags and the position poll. The state machine is in `TransportSteps.dfy`,
  the objects in `UpnpTransport.dfy`, its connection to eventing in `TransportEventing.dfy` and
  `DeclaredVariables.dfy`, and threads in `TransportThreads.dfy`.
- **Metadata** (`src/song-meta-data.c`, `src/xmlescape.c`): XML escaping and the editing of DIDL-Lite
  documents by searching for tags.
- **Times, MIME types, volume** (`src/upnp_transport.c`, `src/upnp_connmgr.c`, `src/upnp_control.c`).

Code that changes state step by step is modelled by classes and loops. Their contracts equate the new state
with a function of the old one, or say outright what holds; the lemmas are about those functions, over
every run, every interleaving and every text.

## Main results

1. *Replay.* However changes, nested transactions and ignored variables interleave, a controller that
   applies every event in order agrees with the store whenever no transaction is open
   (`LastChangeReplay.ReplayAgreement`), also under any thread schedule (`ServiceLocking.QuietMeansAgreement`)
   and also if it joins later with the snapshot (`LateSubscriber.LateSubscriberAgrees`). Joining in the
   middle of a transaction is different: `SnapshotHazard.StaleIffHazard` says exactly when such a controller
   can be left stale, and `TransportHazard.HazardFromBoot` that the service gets there from every state of
   rest, by two overlapping SetNextAVTransportURI actions, at a moment when the mutex is free for the
   subscriber.
2. *Conservation.* Every effective change is in exactly one document, in order
   (`LastChangeHistory.Conservation`), and an outermost transaction sends at most one event.
3. *The transport as a controller sees it.* For every run of actions and output events the state variables
   are coherent (`TransportInvariants.AlwaysCoherent`), the queue of the output and the announced next URI
   agree exactly as long as no URI is taken before a play has installed the callback
   (`TransportQueue.AlwaysAgreesIff`). For every schedule of actions, polls and callbacks, what a controller
   reconstructs from the events is the current state whenever nothing is under way
   (`TransportThreads.ControllerSeesThreads`). Tags of the stream are turned into a document before the lock
   is taken: `DraftThreads.WhatAnUpdateReplaces` says for every schedule what that document is edited from
   and what it replaces, `StreamMetaRace.UpdateLaterIff` when this is harmless.
   `TransportAnswers` says for every reachable state what each action comes to, in texts and codes.
4. *Metadata.* Replacing the text between two tags is a lens with exact side conditions (`ReplaceRange`).
   Announcing the same song again is a fixed point exactly if the new identifier was written without damage
   to an element of the song (`SongMetaData.FixedPointIff`); `QuotedTitles` shows titles with which it goes wrong.
   While a stream keeps naming titles, the announced document always shows the latest of each field
   (`RadioTitles.RadioShowsLatest`).

Where a hoped-for property is false of the code, the code is kept and the exact condition is proved:
`SnapshotHazard.StaleIffHazard`, `TransportInvariants.AlwaysMatchesIff`, `StreamMetaRace.UpdateLaterIff`,
`TransportTimes.StepShowsPosition`, `SongMetaData.FixedPointIff`, `SongMetaData.AnnouncedReadsBackIff`,
`StreamMetaData.ComposerShowsIff`, `XmlEscape.AttributeModeCollisions`, `MimeTypes.TypesReadBackIff`,
`Volume.AlwaysCoherent`, `Volume.ReportedValueSetsIff`. Two more conditions are exact but fail only beyond
what the service produces: `TransportQueue.AlwaysAgreesIff`, since a real output takes no URI before a play,
and `ReplaceRange.PutGet`, since escaped values and identifiers hold no end tag.

Where code and comment disagree, the code is followed. `src/song-meta-data.c:44-56` frees every tag but the
composer, so a composer outlives its song. `src/upnp_control.c:609-619` takes the desired VolumeDB in whole
decibels although `src/upnp_control.c:599-600` reports it in 1/256 dB. The comment at
`src/upnp_transport.c:464` says a write sends no event; the collector listens to every write.
`src/upnp_device.c:302-315` wants the event to follow the action; as the same comment admits, it leaves from
the action's own closing bracket.

## Model

| member | source | states |
|---|---|---|
| VariableMeta.SortedMetaIsIndexed | src/variable-container.c:59-94 | rows in any order whose ids are 0..n-1 are sorted so that row i has id i, which the construction asserts |
| VariableMeta.CreateSortedMetaSorts | src/variable-container.c:63-70 | the sorted copy is strictly increasing by id and has exactly the given rows |
| VariableContainer.VariableContainer.constructor | src/variable-container.c:72-97 | after construction value i is the default of the row with id i and nobody listens |
| VariableContainer.VariableContainer.Get | src/variable-container.c:124-132 | value and name inside the range of numbers, nothing outside |
| VariableContainer.VariableContainer.Change | src/variable-container.c:135-151 | reports a change exactly if the text differs; the whole state moves as the engine's SetValue does, including a nested write of LastChange, and the listeners' calls are exactly those of the change and of at most one nested change |
| VariableContainer.VariableContainer.CallListeners | src/variable-container.c:144-148 | after the loop over the list all listeners have been told, with the nested wave where the collector stands |
| VariableContainer.VariableContainer.Invoke | src/variable-container.c:145-147 | a passive listener gets one delivery; the collector answers with its own step |
| VariableContainer.VariableContainer.Register | src/variable-container.c:153-162 | a listener is put in front of the others |
| VariableContainer.CallsAreShallow | src/variable-container.c:135-151 | a change reaches every passive listener once, and once more if and only if an event was sent; the nested change is always of LastChange, never deeper |
| VariableContainer.TellOnce | src/variable-container.c:144-148 | one change is one delivery per passive listener, with the old and new value of that change |
| VariableContainer.LastChangeBuilder.Add | src/variable-container.c:187-220 | the document under construction grows by one element at its end, with the channel attribute for volume-like names |
| VariableContainer.LastChangeBuilder.ToXml | src/variable-container.c:222-231 | nothing without a document, else its text, and the builder is empty afterwards |
| VariableContainer.LastChangeCollector.constructor | src/variable-container.c:250-295 | a new collector finds LastChange, excludes it, has announced every other variable and listens in front of all others |
| VariableContainer.LastChangeCollector.CollectInitial | src/variable-container.c:263-288 | the loop collects all variables but LastChange in order and remembers the number of that one |
| VariableContainer.LastChangeCollector.AddIgnore | src/variable-container.c:297-300 | the 32-bit mask, read as a set of numbers, gains exactly that number |
| VariableContainer.LastChangeCollector.Start | src/variable-container.c:302-304 | opens one more transaction and changes nothing else |
| VariableContainer.LastChangeCollector.Finish | src/variable-container.c:306-310 | closes one and flushes if it was the last |
| VariableContainer.LastChangeCollector.Notify | src/variable-container.c:314-344 | sends the pending document unless a transaction is open, there is none, or LastChange already holds it; terminates although it writes the store it listens to |
| VariableContainer.LastChangeCollector.Publish | src/variable-container.c:322-341 | the event goes out, escaped, exactly if the write of LastChange changed it |
| VariableContainer.LastChangeCollector.Callback | src/variable-container.c:349-362 | an ignored variable is passed over, any other is queued and flushed |
| IgnoreMask.OrBitAddsIndex | src/variable-container.c:297-300 | or-ing in a shifted one adds exactly that index to the set the mask stands for |
| IgnoreMask.OrBitSetsOne | src/variable-container.c:299 | or-ing in a bit sets that bit and leaves all others, tested or not |
| IgnoreMask.OrBitFits | src/variable-container.c:270-299 | with fewer than 32 variables the mask never leaves its word |
| LastChangeDocument.ReadPrint | src/variable-container.c:187-231 | the text of a document read back gives the same list of elements |
| LastChangeDocument.PrintInjective | src/variable-container.c:322-325 | two documents have the same text exactly if they are the same list, so comparing texts compares documents |
| LastChangeDocument.ReceiveWire | src/variable-container.c:333-336 | escaping the document text for sending loses nothing |
| LastChangeDocument.ElementText | src/variable-container.c:201-219 | the printed element of a variable: its name, its value as the attribute val, and the channel Master exactly for Volume, VolumeDB, Mute and Loudness |
| LastChangeDocument.DocumentText | src/variable-container.c:192-204 | the printed document: one Event of the namespace with one InstanceID of value 0 that holds the elements in order |
| LastChangeDocument.AttributeTextOfOne | src/variable-container.c:205-206 | in a value the five special characters of XML stand as their entities, every other as itself |
| LastChangeDocument.AttributeTextConcat | src/variable-container.c:205-206 | and values are written character by character |
| LastChangeEngine.SetValue | src/variable-container.c:135-151 | a change keeps the engine valid: with no transaction open nothing stays pending |
| LastChangeEngine.Step | src/variable-container.c:297-362 | every step keeps the engine valid and never takes back an event or an exclusion |
| LastChangeEngine.NotifyEffect | src/variable-container.c:314-344 | after a flush LastChange records exactly the flushed document, sent or not |
| LastChangeEngine.ObserveOne | src/variable-container.c:322-341 | a controller that receives one event applies exactly its elements |
| LastChangeReplay.ReplayAgreement | src/variable-container.c:135-151 | after any run from construction, whenever no transaction is open, replaying all events gives the store's value of every variable not ignored, despite dropped repeats |
| LastChangeReplay.StepKeepsInStep | src/variable-container.c:302-362 | each step keeps a controller one pending document away from the store, and deaf to a repeat of the last one |
| LastChangeReplay.NotifyKeepsInStep | src/variable-container.c:314-344 | so does a flush, whether it sends or drops |
| LastChangeReplay.BuildInStep | src/variable-container.c:265-289 | the first document puts a controller in step |
| LastChangeReplay.DeclaredValueAnnounces | src/upnp_transport.c:984 | the declared initial LastChange is not the text of a document, so the first one is really sent |
| LastChangeReplay.SilentBuild | src/variable-container.c:268-289 | the first document stays unsent exactly if LastChange already held it or there is no other variable |
| LastChangeHistory.Conservation | src/variable-container.c:302-362 | what was pending plus all effective changes is the completed documents plus what is pending now: nothing lost, doubled or reordered at any nesting |
| LastChangeHistory.EventsAreCompletedDocs | src/variable-container.c:314-344 | the events of a run are its completed documents with immediate repeats dropped |
| LastChangeHistory.StepHistory | src/variable-container.c:302-362 | both of these for one step, which completes at most one document |
| LastChangeHistory.OpenCollects | src/variable-container.c:315-316 | as long as a transaction stays open nothing is sent and the builder holds exactly the effective changes |
| LastChangeHistory.OneEventPerTransaction | src/variable-container.c:302-344 | an outermost transaction sends one event listing its effective changes, or none if there are none or they repeat the last document |
| LateSubscriber.LateSubscriberAgrees | src/upnp_device.c:194-217 | a controller that takes the snapshot when no transaction is open and hears all later events agrees at every later quiet moment on all variables in the snapshot and not ignored |
| LateSubscriber.RunKeepsFaithful | src/variable-container.c:314-362 | in every reachable state the last document followed by the pending one never contradicts the store |
| LateSubscriber.SnapshotHolds | src/upnp_device.c:196-217 | the snapshot gives the current value of every variable it reports |
| LateSubscriber.SnapshotListsIff | src/upnp_device.c:200-211 | the snapshot lists a name exactly if it is a variable of the service, is not LastChange and does not begin with A_ARG_TYPE_ |
| DeclaredVariables.FourAreLeftOut | src/upnp_device.c:205-210 | of the thirty declared variables of the transport it leaves out LastChange and the three argument types |
| DeclaredVariables.TimesAndCountersAreUnevented | src/upnp_transport.c:1013-1023 | what the service takes out of eventing are its relative and absolute times and counters |
| UpnpDevice.HandleSubscriptionRequest | src/upnp_device.c:194-217 | the loop builds the snapshot of all variables but LastChange and the argument types and escapes it |
| SnapshotHazard.StaleIffHazard | src/variable-container.c:314-344 | a controller joining in a state can be left stale exactly if the pending document is a beginning of the last one whose rest can come up again and moves a reported variable |
| SnapshotHazard.HazardStrikes | src/variable-container.c:322-325 | from such a state there is a run after which the dropped repeat leaves the controller stale |
| SnapshotHazard.RunWhileWaiting | src/upnp_device.c:194-217 | from any other state every run leaves the joined controller in agreement |
| SnapshotHazard.HazardReachable | src/variable-container.c:302-362 | for clients of the collector that may write anything: from every quiet state each reported variable can be driven into a hazard by changing it there and back and joining within the next transaction |
| ServiceLocking.AloneCanGo | src/upnp_transport.c:411-430 | with the mutex free or its own a thread can follow its program to the end of any section |
| ServiceLocking.FinishNeverUnderflows | src/variable-container.c:306-308 | in every reachable state of any number of threads the assertion of finish holds |
| ServiceLocking.MovedKeepsInv | src/upnp_device.c:316-389 | the open transactions are the sum of all threads' brackets, and only the mutex holder is inside, after every move of every thread |
| ServiceLocking.OnlyTheHolderTouches | src/upnp_transport.c:411-430 | whoever touches collector or variables holds the mutex |
| ServiceLocking.EventsOnlyWhenNobodyIsInside | src/upnp_device.c:302-320 | an event leaves only from a finish after which no thread has a bracket open, and then exactly one |
| ServiceLocking.InterleavingIsARun | src/upnp_transport.c:411-430 | every interleaving is, for the collector, a run of its operations one at a time |
| ServiceLocking.QuietMeansAgreement | src/upnp_device.c:286-391 | for every interleaving, whenever the mutex is free and no action is under way, nothing is pending and a replaying controller agrees |
| ServiceLocking.CanComeToRest | src/upnp_device.c:316-389 | from every reachable state the threads can be scheduled to rest: the protocol has no deadlock |
| ServiceLocking.WayOutWorks | src/upnp_transport.c:411-430 | the holder of the mutex, or with the mutex free any thread in an action, can always move on and has less left to do |
| XmlEscape.MeasurePass | src/xmlescape.c:61-79 | the pass without a target computes the length of the escaped text |
| XmlEscape.WritePass | src/xmlescape.c:37-60 | the pass with a target writes the escaped text and its terminator and nothing beyond |
| XmlEscape.XmlEscape | src/xmlescape.c:82-91 | the allocated buffer is filled exactly |
| XmlEscape.DecodeEscape | src/xmlescape.c:34-91 | decoding the escaped text gives the text back |
| XmlEscape.EscapeOfOne | src/xmlescape.c:42-55 | the texts of the single characters: three entities, %22 for a quote in attribute mode, and every other character as itself |
| XmlEscape.EscapeConcat | src/xmlescape.c:42-55 | escaping goes character by character in either mode |
| XmlEscape.EscapeInjective | src/xmlescape.c:34-91 | so two texts escape alike exactly if they are equal |
| XmlEscape.EscapedIsCharacterData | src/xmlescape.c:41-55 | escaped text has no angle bracket, and every ampersand starts one of three entities (section 2.4 of XML 1.0) |
| XmlEscape.AttributeModeCollisions | src/xmlescape.c:44-46 | in attribute mode texts collide exactly if they agree once quotes are written %22 |
| XmlEscape.AttributeModeNotInjective | src/xmlescape.c:44-46 | such a pair exists |
| ReplaceRange.ReplaceRange | src/song-meta-data.c:91-125 | in place or in a new buffer that is exactly filled, the text is that of the simple form; the count rises by one exactly if the text changed; the buffer is kept exactly if the length is |
| ReplaceRange.EditRange | src/song-meta-data.c:104-124 | both branches give front, new content and rest |
| ReplaceRange.PutGet | src/song-meta-data.c:91-125 | what was written reads back exactly if it does not contain the end tag |
| ReplaceRange.PutPut | src/song-meta-data.c:91-125 | a second write leaves no trace of the first under exactly the same condition |
| ReplaceRange.GetPut | src/song-meta-data.c:91-125 | writing back what was read changes nothing; without the tag pair no write does |
| ReplaceRange.PutChanges | src/song-meta-data.c:116-121 | a write changes the document exactly if it changes the content |
| MarkupEditing.PutKeepsOther | src/song-meta-data.c:185-197 | writing text into one element changes no other element that holds text |
| MarkupEditing.GetAroundText | src/song-meta-data.c:98-103 | what an element reads as around a stretch of text is told by the parts before and after it |
| MarkupTokens.SearchTokens | src/song-meta-data.c:98 | in a text made of tags and plain text the search for a tag finds the first token that is this tag |
| MarkupTokens.GetElement | src/song-meta-data.c:71-77 | an element written once reads back as its text whatever stands around it |
| SongMetaData.EditReadsBack | src/song-meta-data.c:182-197 | after the five edits every known field that has an element reads back as its escaped value and everything else reads as before |
| SongMetaData.NoEdits | src/song-meta-data.c:185-198 | no edit is counted exactly if every known field with an element already reads as it should, and then the document is unchanged |
| SongMetaData.FixedPointIff | src/song-meta-data.c:182-204 | announcing the same song on top of its own result edits nothing exactly if nothing was edited the first time, or the identifier was already there or is written without damage to an element of a known field |
| SongMetaData.AnnouncedReadsBackIff | src/song-meta-data.c:182-204 | a known field with an element reads back from the announced document exactly if nothing was edited, or no identifier is written, or writing it does not lose the element |
| SongMetaData.AnnouncedReadsBack | src/song-meta-data.c:182-204 | from documents whose identifier comes first, or without one, every field reads back as it should |
| QuotedTitles.QuotedIdInTitle | src/song-meta-data.c:198-203 | a title that holds a quoted identifier attribute is no fixed point: the new identifier is written into the title |
| QuotedTitles.OpenIdInTitle | src/song-meta-data.c:198-203 | without the closing quote the identifier is written over the end tag, and the announced document has no title any more |
| SongMetaData.FixedPoint | src/song-meta-data.c:182-204 | that is the case for documents whose identifier comes before the edited elements, or in which nothing looks like one |
| SongMetaData.IdChanges | src/song-meta-data.c:198-203 | what writing the identifier does to an element, whatever stands between the quotes: one that reaches up to it takes it in up to the next end tag or is lost, one that opens within the old identifier is replaced by the next one behind, any other reads as before |
| MarkupSeams.EffectIsKnown | src/song-meta-data.c:91-125 | the same for any quoted value and any element |
| SongMetaData.GeneratedReadsBack | src/song-meta-data.c:66-84 | in a generated document every field reads back as its escaped value, an unknown one as empty |
| SongMetaData.GeneratedFields | src/song-meta-data.c:66-83 | under their element names the five fields of the song read back from a generated document |
| SongMetaData.FixedPointFresh | src/song-meta-data.c:178-204 | announcing the same song on top of a generated document changes nothing |
| FreshDidl.FreshText | src/song-meta-data.c:58-86 | the whole text of a document made from nothing: the header with its three namespaces, the item with its identifier, and a line for each of the five fields in order, escaped, an unknown one empty |
| FreshDidl.NamespacesReadBack | src/song-meta-data.c:58-61 | a reader finds the DIDL-Lite, Dublin Core and UPnP namespaces bound to the default prefix, dc and upnp, and the identifier given |
| DidlWriter.Writer.ToDidl | src/song-meta-data.c:161-211 | generating or editing in buffers gives the document of the simple form, with the identifier of the counter, which advances by one |
| DidlWriter.EditOriginalIn | src/song-meta-data.c:182-204 | the five edits in sequence and the conditional new identifier |
| DidlWriter.EditField | src/song-meta-data.c:185-197 | one edit in the buffer leaves the remaining edits and their count on course |
| DidlWriter.EscapeIfKnown | src/song-meta-data.c:173-177 | a known field is escaped, an unknown one stays unknown |
| DidlWriter.UniqueIdInjective | src/song-meta-data.c:168-169 | the eight hexadecimal digits determine the 32-bit counter |
| DidlWriter.UniqueIdReadsBack | src/song-meta-data.c:168-169 | the identifier is gmr- and eight lower-case digits that give the counter in base sixteen |
| DidlWriter.IdsRepeatIff | src/song-meta-data.c:167-169 | two announcements share an identifier exactly if a multiple of 2^32 lies between them |
| UpnpTransport.GstOutput.Play | src/output_gstreamer.c:146-162 | the callback is remembered even if playing fails |
| UpnpTransport.GstOutput.SetNextUri | src/output_gstreamer.c:191-195 | an empty URI empties the queue |
| UpnpTransport.GstOutput.SetUri | src/output_gstreamer.c:197-208 | URI and meta callback are replaced and the song is cleared but for its composer |
| UpnpTransport.GstOutput.EndOfStream | src/output_gstreamer.c:281-298 | the next URI moves up; the transport hears of it, or of the end, if a callback is known |
| UpnpTransport.GstOutput.PrepareNextStream | src/output_gstreamer.c:479-497 | the next URI moves up even if there is none; only a real one is reported |
| UpnpTransport.GstOutput.AddTags | src/output_gstreamer.c:236-264 | tags are merged; a report is due exactly if one of them changed |
| UpnpTransport.AvTransport.constructor | src/upnp_transport.c:933-1004 | the service starts STOPPED with its declared values |
| UpnpTransport.AvTransport.ReplaceVar | src/upnp_transport.c:464-467 | one variable is replaced, reported exactly if its text changed |
| UpnpTransport.AvTransport.ReplaceTransportUriAndMeta | src/upnp_transport.c:477-491 | URI, meta data and number of tracks are written in that order; stream meta data is wanted without meta data or for an audio item |
| UpnpTransport.AvTransport.ReplaceCurrentUriAndMeta | src/upnp_transport.c:494-499 | track number, URI and meta data of the current track are written in that order |
| UpnpTransport.AvTransport.ChangeTransportState | src/upnp_transport.c:501-535 | the state is entered, its name written, and the actions only if the name changed |
| UpnpTransport.AvTransport.Play | src/upnp_transport.c:785-833 | the handler carries out exactly the step of the state machine, returns its code and reports its error number |
| UpnpTransport.AvTransport.PauseStream | src/upnp_transport.c:835-867 | likewise for pause, refused outside PLAYING and PAUSED |
| UpnpTransport.AvTransport.StopPlaying | src/upnp_transport.c:730-761 | likewise for stop |
| UpnpTransport.AvTransport.SetAvTransportUri | src/upnp_transport.c:553-583 | likewise for a new URI, which while playing is also the current track's |
| UpnpTransport.AvTransport.SetNextAvTransportUri | src/upnp_transport.c:585-612 | likewise for the next URI, which is set even if its meta data is missing |
| UpnpTransport.AvTransport.SeekTo | src/upnp_transport.c:869-892 | likewise for seek, of which only REL_TIME does anything |
| UpnpTransport.AvTransport.InformPlayTransition | src/upnp_transport.c:763-783 | the end clears both URI pairs and enters STOPPED; a next stream moves the next pair up and clears it |
| UpnpTransport.AvTransport.OnEndOfStream | src/output_gstreamer.c:281-298 | end of stream with its callback is one step of the state machine |
| UpnpTransport.AvTransport.OnAboutToFinish | src/output_gstreamer.c:479-497 | so is about-to-finish |
| UpnpTransport.AvTransport.OnTags | src/output_gstreamer.c:327-345 | tags whose document is put in place with nothing in between are the two events of the state machine, one after the other |
| UpnpTransport.AvTransport.CollectTags | src/output_gstreamer.c:327-345 | what comes before the lock is the first event: the output's song changes, and a document is returned exactly if there is a change and a title |
| UpnpTransport.AvTransport.DraftMeta | src/upnp_transport.c:539-543 | without a title nothing happens, else the document read is edited for the song and the identifier counter advances |
| UpnpTransport.AvTransport.PutMeta | src/upnp_transport.c:544-547 | what is done under the lock is the second event: both meta data variables become that document |
| UpnpTransport.AvTransport.UpdateTrackTime | src/upnp_transport.c:679-697 | one round of the polling loop is one step of the state machine |
| TransportInvariants.StepLeaves | src/upnp_transport.c:477-892 | the writes of an event, carried out in order, leave exactly the listed value in every variable |
| TransportInvariants.AlwaysCoherent | src/upnp_transport.c:477-867 | in every reachable state: only STOPPED, PLAYING and PAUSED occur, the variable names the state, the actions are that state's, the track numbers are 1 exactly for a non-empty URI, and while PLAYING the current track is what was set |
| TransportInvariants.AlwaysNamed | src/upnp_transport.c:117-126 | in every reachable state TransportState is STOPPED, PLAYING or PAUSED_PLAYBACK, each for its own state |
| TransportInvariants.StepKeepsPlaying | src/upnp_transport.c:538-833 | PLAYING implies that the transport's URI and meta data are the current track's, kept by every event |
| TransportInvariants.StepKeepsActions | src/upnp_transport.c:501-535 | the actions stay those of the state although they are only written when the state's name changes |
| TransportInvariants.Transitions | src/upnp_transport.c:730-867 | exactly which events change the state, and to what: PAUSED is entered only from PLAYING |
| TransportInvariants.StoppedActionsOnEntry | src/upnp_transport.c:510-517 | on entering STOPPED, seeking is announced exactly if there is a URI |
| TransportInvariants.StoppedActionsAreFrozen | src/upnp_transport.c:505-508 | while STOPPED no event changes the announced actions |
| TransportInvariants.StepMatchesIff | src/upnp_transport.c:505-517 | after an event the actions announced in STOPPED fit the URI exactly if STOPPED was entered or left, or they fitted before and the URI did not come or go, or neither; a URI comes or goes by a set URI, a next stream or a late end of stream |
| TransportInvariants.AlwaysMatchesIff | src/upnp_transport.c:501-583 | they fit in every state of a run exactly if the URI never comes or goes while STOPPED |
| TransportInvariants.AlwaysMatchesFromBoot | src/upnp_transport.c:405 | in particular from the start of the service |
| TransportInvariants.StaleActions | src/upnp_transport.c:553-583 | for instance a URI set in STOPPED is not followed by the action list |
| TransportAnswers.PlayAnswers | src/upnp_transport.c:785-833 | in every reachable state: play succeeds unless the output fails, which gives -1 and 704; then PLAYING with its actions and the set URI as current track; from STOPPED the time becomes 0:00:00 even on failure; nothing else is written |
| TransportAnswers.PauseAnswers | src/upnp_transport.c:835-867 | pause is refused with -1 and 701 in STOPPED and with 704 if the output fails; from PLAYING it gives PAUSED_PLAYBACK with its actions and writes nothing else |
| TransportAnswers.StopAnswers | src/upnp_transport.c:730-761 | stop gives STOPPED and the actions by whether there is a URI, writes nothing else and is never refused |
| TransportAnswers.OtherStatesRefuse | src/upnp_transport.c:748-858 | in the four states that are never entered play and pause are refused with 701, stop only without media and then with code 0 |
| TransportAnswers.SetUriAnswers | src/upnp_transport.c:477-583 | URI, meta data and track count are those given, for the current track too exactly while playing; stream meta data are wanted exactly without meta data or if they contain object.item.audioItem |
| TransportAnswers.SetNextUriAnswers | src/upnp_transport.c:585-612 | the next URI is set in the variable and in the output, its meta data if given, else the code is -1 |
| TransportAnswers.SeekAnswers | src/upnp_transport.c:869-892 | a seek writes its target exactly if the unit is REL_TIME and the output follows, and nothing else |
| TransportAnswers.EndAnswers | src/upnp_transport.c:763-771 | the end of a stream with nothing queued empties both URI pairs, counts no track and gives STOPPED |
| TransportAnswers.NextStreamAnswers | src/upnp_transport.c:772-780 | a queued stream that starts becomes the transport's and the current track with meta data and counts, the queue is emptied, nothing else is written |
| TransportAnswers.OutputMovesUp | src/output_gstreamer.c:281-497 | at the end of a stream what is queued moves up; shortly before the end the current URI goes even if nothing is queued |
| TransportAnswers.SilentOutput | src/output_gstreamer.c:281-497 | without a callback, or with nothing queued shortly before the end, the transport hears nothing |
| TransportAnswers.OthersKeep | src/upnp_transport.c:538-699 | a poll writes the two times only, a document for tags the two meta data only |
| TransportQueue.StepAgreesIff | src/output_gstreamer.c:191-195 | from agreement of the queue with the announced next URI, an event keeps it exactly if it does not take a URI before a callback is known |
| TransportQueue.AlwaysAgreesIff | src/upnp_transport.c:585-612 | the same for every state of a run |
| TransportQueue.AgreesFromBoot | src/output_gstreamer.c:280-298 | with output events only after a play, the queue is empty exactly if NextAVTransportURI is and otherwise equal to it, in every reachable state |
| TransportQueue.NextStreamTakesOver | src/upnp_transport.c:772-780 | a stream from the queue becomes AVTransportURI and CurrentTrackURI and what the output plays; the queue is empty on both sides |
| TransportQueue.StartsAtMostOnce | src/output_gstreamer.c:280-298 | in every run each queued URI starts at most once and the starts are in queueing order |
| TransportTimes.DurationIsLatest | src/upnp_transport.c:685-689 | after any run CurrentTrackDuration is the print of the latest duration polled |
| TransportTimes.StepShowsDuration | src/upnp_transport.c:685-689 | no event leaves the track duration other than the print of the last one polled |
| TransportTimes.StepShowsPosition | src/upnp_transport.c:690-694 | after which steps RelativeTimePosition is that of the second last polled, exactly |
| TransportTimes.PositionIsLatest | src/upnp_transport.c:674-699 | in any state, after a poll that brings a new second and as long as there is no play from STOPPED and no seek, RelativeTimePosition is the print of the latest position polled |
| TransportTimes.SeekSticks | src/upnp_transport.c:881-887 | a seek the output does not follow stays on display through any run whose polls report the second last seen |
| StreamMetaData.TagsSettle | src/upnp_transport.c:538-549 | a reported tag list makes both meta data variables a document on which the same song edits nothing |
| StreamMetaData.EchoIsQuiet | src/upnp_transport.c:538-549 | tags that lead to such a song change no variable, so no event is sent |
| StreamMetaData.ControllerEcho | src/upnp_transport.c:553-583 | a controller may send the announced document back and the stream may repeat its tags: nothing changes |
| RadioTitles.TagsReplace | src/output_gstreamer.c:222-264 | every field a tag list names is replaced, the others stay; without the wish for meta data all stay |
| RadioTitles.DueIff | src/output_gstreamer.c:327-345 | a document is due exactly if meta data is wanted, some field is named anew and the song has a title |
| RadioTitles.NewTitleShows | src/upnp_transport.c:538-549 | a reported title reads as its escape from the announced document, whatever editable document with a title it is put into |
| RadioTitles.RadioShowsLatest | src/upnp_transport.c:538-583 | after a URI and any sequence of tag lists, once there is a title, every element of the announced document reads as the latest value the stream has named for it |
| StreamMetaData.MergeForgetsIff | src/song-meta-data.c:47-56 | after a new URI the song is what its tags say exactly if there was no composer or the tags name one |
| StreamMetaData.AnnouncedIs | src/upnp_transport.c:538-583 | the document announced after a new URI and a tag list is that of the tags with the old composer if they name none; without a title it is the meta data set |
| StreamMetaData.ComposerShowsIff | src/song-meta-data.c:47-56 | for every meta data and tag list that can be edited, the announced document is that of an output with nothing to remember exactly if nothing is announced, the tags name a composer, there was none, or its element is missing or reads the same |
| StreamMetaData.ComposerStays | src/song-meta-data.c:47-56 | for instance a new stream without meta data that names only a title is announced with the composer of the song before it |
| StreamMetaRace.UpdateLater | src/upnp_transport.c:538-549 | putting a document in place after any other events instead of before them changes the two meta data variables and nothing else |
| StreamMetaRace.UpdateLaterIff | src/upnp_transport.c:543-547 | the URI is then announced with the same meta data exactly if no meta data was taken in between or the last taken is that document; if none was taken the whole transport is the same |
| StreamMetaRace.UriInBetween | src/upnp_transport.c:553-583 | a URI set between the reading and the writing is left with meta data edited from that of the URI before it, and this makes no difference exactly if that document is what was set |
| DraftThreads.WhatAnUpdateReplaces | src/upnp_transport.c:542-546 | under any schedule the document is the one edited from what the store showed when the tags came, and it replaces the last meta data given to the URI since then, by later sections or the rest of the one under way, or if there is none what was read |
| DraftThreads.UriComesBetween | src/upnp_transport.c:542-578 | from every state of rest in which tags would be reported there is a schedule in which an action sets a URI between the reading and the writing |
| DraftThreads.OldTitleForNewUri | src/upnp_transport.c:538-583 | so from the start of the service all can come to rest with every controller knowing a URI with the title of the stream before it |
| DeclaredVariables.TableIsDeclared | src/upnp_transport.c:933-996 | in the declared table names are distinct and without blanks, every variable of the transport stands at its number with its name and initial value, and the first document is really sent |
| TransportThreads.TurnKeepsGood | src/upnp_transport.c:411-430 | with any number of actions, polls and callbacks interleaved, the store with the writes still to be made is the transport's state after every move |
| TransportThreads.ControllerSeesThreads | src/upnp_device.c:316-389 | for every schedule, whenever the mutex is free and no action's outer bracket is open, a controller holds every variable's current value, the relative time excepted; its picture is coherent: the name of the state, the actions of that state, the current track while playing, and the track counts |
| TransportThreads.LateControllerSeesThreads | src/upnp_device.c:194-217 | so does one that joins at such a moment with the snapshot |
| TransportActions.EventCanBeHandled | src/upnp_transport.c:411-430 | with the mutex free any idle thread can handle any event that locks, to the end of its section |
| TransportActions.ActionCanBeDone | src/upnp_device.c:316-389 | from rest every action can be carried out, outer bracket and all, to rest again |
| TransportHazard.SectionSetsNext | src/upnp_transport.c:585-612 | inside an open outer bracket the section of SetNextAVTransportURI queues exactly one change and flushes nothing |
| TransportHazard.HazardByActions | src/upnp_device.c:316-389 | from rest two overlapping SetNextAVTransportURI actions lead to a moment at which the mutex is free and a subscriber joins in a hazard; when they set the URI back, all comes to rest with that subscriber stale |
| TransportHazard.HazardFromBoot | src/upnp_device.c:194-217 | this can happen after every schedule from the start of the service that has come to rest |
| TransportHazard.HazardInService | src/upnp_transport.c:933-1010 | in particular with the declared variables, right after the start, and every URI that is not empty |
| UpnpTime.DivideLeaveRemainder | src/upnp_transport.c:650-654 | quotient and remainder with the sign of the dividend |
| UpnpTime.PrintUpnpTime | src/upnp_transport.c:655-661 | the three divisions print the whole seconds, for negative times too |
| UpnpTime.PrintedClock | src/upnp_transport.c:655-661 | h hours, m minutes and s seconds are printed as the decimal digits of h, a colon, and m and s on two digits each |
| UpnpTime.ScanPrinted | src/upnp_transport.c:663-667 | the conversions of sscanf find hour, minute and second in a printed time |
| UpnpTime.ParsePrint | src/upnp_transport.c:655-671 | parsing a printed time gives it rounded down to the second; below 2^31 seconds nothing overflows |
| UpnpTime.PrintParse | src/upnp_transport.c:655-671 | printing a parsed canonical H:MM:SS gives the string back |
| UpnpTime.PrintSameIff | src/upnp_transport.c:655-661 | two times print alike exactly if they agree in whole seconds, which is what the poll compares |
| MimeTypes.InsertKeepsSorted | src/upnp_connmgr.c:155 | sorted insertion keeps the list strictly sorted and adds exactly the new type |
| MimeTypes.LessIff | src/upnp_connmgr.c:155 | the order is that of strcmp: a proper beginning first, else by the characters where the texts first differ |
| MimeTypes.SortedUnique | src/upnp_connmgr.c:146-158 | a sorted list is determined by its elements, so what is said of the set is said of the list |
| MimeTypes.CompareIsCompatible | src/upnp_connmgr.c:181-190 | comparing up to the shorter length means that one is a prefix of the other |
| MimeTypes.TokensAreSplit | src/upnp_connmgr.c:262-283 | strtok_r yields the non-empty pieces between commas, in order |
| MimeTypes.AdvertisedListIsUnique | src/upnp_connmgr.c:311-325 | the advertised list depends only on the set of registered types and the set of tokens, not on any order |
| MimeTypes.SplitRecoversIff | src/upnp_connmgr.c:327-338 | splitting the protocol information at commas recovers the list exactly if no type contains a comma |
| MimeTypes.EntryFields | src/upnp_connmgr.c:330-333 | an entry split at colons is http-get, *, the type and * |
| MimeTypes.TypesReadBackIff | src/upnp_connmgr.c:327-338 | a controller that splits the protocol information at commas and colons gets the list of types exactly if no type contains either |
| MimeTypes.AdvertisedNoCommas | src/upnp_connmgr.c:262-338 | that is so whenever no registered type contains one |
| ConnMgr.ConnectionManager.AddMimeType | src/upnp_connmgr.c:148-158 | the list stays strictly sorted and gains the type, reported exactly if it was new |
| ConnMgr.ConnectionManager.RemoveMimeType | src/upnp_connmgr.c:160-179 | the list stays sorted and loses the type, reported exactly if it was there |
| ConnMgr.ConnectionManager.RegisterMimeType | src/upnp_connmgr.c:206-247 | the type is added, for audio/mpeg also audio/x-mpeg, audio/x-scpls and 16-bit linear audio, for alac, aiff and m4a with x- the names without it and audio/mp4 |
| ConnMgr.ConnectionManager.FilterMimeTypeRoot | src/upnp_connmgr.c:290-309 | the loop keeps exactly the types some root is compatible with, or all without roots |
| ConnMgr.FindRoot | src/upnp_connmgr.c:301 | a root is found exactly if one is compatible with the type |
| ConnMgr.ConnectionManager.AddAll | src/upnp_connmgr.c:322 | all added types are in the sorted list |
| ConnMgr.ConnectionManager.RemoveAll | src/upnp_connmgr.c:325 | no removed type is |
| ConnMgr.ParseMimeFilterString | src/upnp_connmgr.c:249-288 | the three lists hold exactly the tokens of each kind |
| ConnMgr.ConnectionManager.Announce | src/upnp_connmgr.c:327-339 | the variable becomes the entries joined by commas, or stays without any |
| ConnMgr.ConnectionManager.Init | src/upnp_connmgr.c:311-339 | a type is advertised exactly if it was registered and allowed by the roots, or added, and not removed |
| Volume.LevelRoundTrip | src/upnp_control.c:562-587 | a level survives the way to decibel and back |
| Volume.LevelIsMonotone | src/upnp_control.c:577-587 | a louder input never gives a lower level, over all reals |
| Volume.DecibelIsStrictlyMonotone | src/upnp_control.c:562-575 | decibels grow strictly with the level in range |
| Volume.QuantiseIdempotent | src/upnp_control.c:591-607 | quantising twice is quantising once |
| Volume.QuantiseRoundsDown | src/upnp_control.c:591-607 | it rounds down by less than one step, 0.8 dB in the lower half and 0.4 dB in the upper |
| Volume.AlwaysCoherent | src/upnp_control.c:782-788 | in every run from the start of the service VolumeDB is the decibel value of Volume, and the output plays at it exactly if its initial volume was on the scale or a volume has been set |
| Volume.StartAgrees | src/upnp_control.c:782-788 | at the start the variables agree, and the output with them exactly if quantising leaves its volume alone |
| Volume.StartsBetweenSteps | src/upnp_control.c:782-788 | an output that starts at -10.1 dB is announced at -10.4 dB |
| Volume.StartReplacesDeclared | src/upnp_control.c:759-788 | the declared pair, level 0 with the decibel value of level 100, does not agree; the start replaces it before anything is announced |
| Volume.ReportedRange | src/upnp_control.c:599-600 | the reported value lies in -15360..0 |
| Volume.ReportedIs | src/upnp_control.c:599-600 | VolumeDB is 256 times the decibel value with its fraction cut off |
| Volume.ReportedValueSetsIff | src/upnp_control.c:609-619 | setting VolumeDB to what it reports keeps the volume exactly at the two ends of the scale |
| Volume.VolumeIsSet | src/upnp_control.c:621-640 | after SetVolume the volume is the text asked for, the output plays at the decibel value of its clamped number, VolumeDB gives that value, and the device is muted exactly for zero or below |
| Volume.DecibelIsSet | src/upnp_control.c:609-619 | after SetVolumeDB within -60..0 the output plays at most as loud as asked for and less than one step below, outside at the end of the scale; the variables are those of that level and mute stays |
| Volume.MuteIsSet | src/upnp_control.c:540-553 | SetMute mutes for every number but zero and changes nothing else |
| Volume.MuteAgreesFromStart | src/upnp_control.c:540-640 | in every run Mute is what the output was last told |
| Volume.AtoiReads | src/upnp_control.c:548-625 | numbers are read as atoi does: white space, a sign, digits up to the first other character |
| Volume.RenderingControl.Init | src/upnp_control.c:782-788 | the volume variables take over the output's volume, which stays as it is |
| Volume.RenderingControl.ChangeVolumeDecibel | src/upnp_control.c:591-607 | both volume variables are those of the quantised value, which is returned |
| Volume.RenderingControl.SetVolume | src/upnp_control.c:621-640 | the text is stored as given, the decibel value is that of its clamped number |
| Volume.RenderingControl.SetVolumeDb | src/upnp_control.c:609-619 | the handler is the step of the model |
| Volume.RenderingControl.SetMuteToggle | src/upnp_control.c:540-543 | variable and output are set alike |
| Volume.RenderingControl.SetMute | src/upnp_control.c:540-553 | any number but zero mutes |

## Left out

- The XML library behind the builder is not part of the repository. `LastChangeDocument.dfy` has a small printer and reader of the same documents instead; what the eventing results use of it is that it is injective and that it starts with an XML declaration.
- libupnp, GLib and GStreamer: sending an event appends to a history, a `GSList` is a sequence, `qsort` is an insertion sort, an output call succeeds or fails as a parameter says. What playbin itself plays, and its buffering, is not modelled.
- Memory failure, logging, option handling, device and service descriptions, the web server, getter actions, DIDL parsing through the XML library: nothing stateful to prove.
- Start-up races: the collector is installed before actions arrive, and missing arguments of actions are not modelled except the next URI's meta data.
- VariableContainer.VariableContainer.Change: the listeners other than the collector are taken not to write the store, which is true of those registered.
- VariableContainer.VariableContainer.CallListeners: the list is the one at the start of the loop; the source registers listeners only at start-up.
- IgnoreMask.OrBitAddsIndex: the mask is a number below 2^32 with its binary digits, not a bit-vector type.
- LateSubscriber.LateSubscriberAgrees: assumes at least one variable besides LastChange, as both services have.
- ServiceLocking.QuietMeansAgreement: threads move atomically between lock, single writes and unlock; the state after initialisation is the start.
- VariableContainer.VariableContainer.constructor: names are distinct and without blanks, as in the tables of the services; the source does not check that.
- LastChangeDocument.ReadPrint: is about the project's own printer of these documents.
- LastChangeDocument.PrintInjective: likewise.
- SnapshotHazard.HazardReachable: is about arbitrary writers; what handlers of the service do is in `TransportHazard.dfy`, for the next URI.
- TransportThreads.LateControllerSeesThreads: a join while an action's outer bracket is open is the hazard of `TransportHazard.dfy`.
- TransportThreads.TurnKeepsGood: the text of the document is taken as a value when it is read, and the output's song changes in one step.
- UpnpTransport.AvTransport.SeekTo: the position handed to the output, the parsed target, is not part of the state.
- UpnpTransport.AvTransport.CollectTags: all texts are C strings without a zero character.
- UpnpTransport.AvTransport.OnEndOfStream: an output event and its callback are one step, although the output changes its next URI outside the transport's lock.
- SongMetaData.FixedPointIff: the elements of the original that are edited hold plain text. Nothing is asked of the text that looks like an identifier, which may run across tags since quotes are legal in character data.
- StreamMetaData.ComposerShowsIff: the meta data is empty or a document whose identifier comes before the edited elements or that, like the tags, holds nothing that looks like one.
- UpnpTime.ParsePrint: integers are unbounded with the overflow condition stated; hours of a 64-bit nanosecond time always fit an int.
- ConnMgr.ConnectionManager.Init: the freeing of the lists at its end is not modelled.
- Volume.AlwaysCoherent: floating point is idealised as real numbers, the exponential that turns decibels into a gain and back is left out, and a silent output, minus infinity in decibels, counts as one below the scale.
- Volume.RenderingControl.SetVolumeDb: the number read by `atof` is a parameter.
