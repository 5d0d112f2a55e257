# Event Hubs client: a verified model

This project models the logic of the Azure Event Hubs C client and proves what it keeps: the sender and receiver
engines, the token lifecycle under both of them, the two threaded wrappers, the SAS token printer and parser, and
the encoding of batches. `dafny verify dfyconfig.toml` checks all of it.

## How the model is built

Each engine is described twice. A *specification* gives its state as a value and its operations as functions; a
*class* has the same fields as the C structure and changes them in place, and each of its methods is proved to act as
the specification function that its contract names. The theorems are about the specification, over every input, every
failure and every run, and so hold of the classes; the methods of each API carry the invariant in their contracts, as
`Valid()`, and Destroy states what the theorems promise at the end.

| part | specification | theorems | in place |
|---|---|---|---|
| token lifecycle (`eventhubauth.c`) | `EventHubAuth` | `TokenLifecycle`, `TokenOutcomes` | `EventHubAuth.EventHubAuthCBS` |
| AMQP handles of both engines | `AmqpStack` | `AmqpStack` | `AmqpStack.HandleStack` |
| outgoing queue (`eventhubclient_ll.c`) | `SendQueue` | `SendQueue`, `SendQueueInvariant` | `DLists`, `OutgoingEvents.OutgoingQueue` |
| sender engine (`eventhubclient_ll.c`) | `SenderSpec` | `SenderInvariant`, `SenderGuarantees`, `SenderLogs`, `SenderPaths`, `SenderOutcomes`, `EntryFates` | `EventHubClientLL.Client` |
| batch encoding (`eventhubclient_ll.c`) | `BatchEncoding` | `BatchEncoding` | `BatchEncoding.EventDataBinary` |
| receiver engine (`eventhubreceiver_ll.c`) | `ReceiverSpec` | `ReceiverInvariant`, `ReceiverGuarantees`, `ReceiverOutcomes` | `EventHubReceiverLL.ReceiverLL` |
| threaded receiver (`eventhubreceiver.c`) | `ReceiverThreadSpec` | `ReceiverThreadInvariant`, `ReceiverThreadGuarantees`, `ReceiverThreadOutcomes` | `EventHubReceiver.DispatchList`, `EventHubReceiver.ThreadedReceiver` |
| threaded sender (`eventhubclient.c`) | `ClientThreadSpec` | `ClientThreadInvariant`, `ClientThreadGuarantees`, `ClientThreadOutcomes`, `StaleContext` | - |
| SAS tokens (`eventhubauth.c`, `kvp_parser.c`) | `SasToken` | `SasToken`, `SasTokenOutcomes` | `SasToken.StringTokenizer` and the parsing methods |

The theorems are of two kinds. Most say what every run keeps, and when something cannot happen. Those of the modules
named `...Outcomes` and of `EntryFates` say what each operation does come to, in terms of the state before it and of what
it meets - readings, ages, answers, arguments - and without the operations themselves.

What the C code gets from outside is a parameter of the operation that meets it: whether a library call succeeds, what
the clock or the tick counter reads (`None` when the read fails), what `connection_dowork` delivers. The assumptions
about the hidden AMQP library are:

- a put-token operation completes in `connection_dowork`, never inside `cbs_put_token_async`, and not after the CBS
  handle is destroyed;
- `messagesender_send_async` returning NULL means that no completion follows; while it runs only the entry being sent
  may complete; a send completes at most once, and not after `messagesender_destroy`;
- destroying a message receiver makes no callbacks;
- the sender's user callbacks do not call the client; the receiver's may call its API, but not DoWork or Destroy.

`AmqpStack.Library` watches the library calls: a call with a NULL or destroyed handle, a double destroy, or a parent
destroyed before its child makes it unsound. A log in each state records what was handed over, answered, confirmed or
called back. A call of a NULL callback is an event in these logs, not a precondition.

In the threaded wrappers what a thread does to the state that the lock protects is one step, and the theorems are about
every interleaving of steps; a failed `Lock` is a step of its own. What the lock does not protect is finer: the
receiver's worker drains its queue one callback a step, and the results of a synchronous send, which live in contexts of
their own, are written and posted by the sender's worker one a step, so that contexts are allocated, read and freed also
in the middle of a pass.

## What was found

The code departs from its documentation, or from what one would expect of it, in the places below. The model follows
the code; each has a lemma that states exactly when it goes well, or exhibits how it does not.

- The URI of a token is split at any of the characters `%`, `2`, `f`, because the delimiter argument of the tokenizer is
  a set. A configuration survives printing and parsing if and only if its ids fit its mode and every component is
  non-empty, kept as it is by the URL encoder, and free of these three characters; the default consumer group
  `$Default` does not survive (`RoundTripExactly`, `DefaultConsumerGroupIsLost`).
- A user's own token is put exactly when it has already expired (`ExternalTokenIsPutOnceExpired`).
- The auth module alone keeps to one put at a time unless a handle whose put has timed out unanswered is put again
  (`AloneOnePutExactly`, `AloneOnePutRefreshedExactly`), and dates its handle by the installed token unless a refresh
  wrote a new one down whose put does not go out or is refused (`AloneDateExactly`). Both failures happen
  (`AloneTwoPutsOutstanding`, `AloneFailedRefreshLosesTheDate`). The callers' tear-down rules them out
  (`RunOnePutOutstanding`, `HandOverUnderLiveToken`).
- Error and timeout paths of the sender call a NULL confirmation callback (`NullCallsExactly`, `DoWorkCallsNullExactly`).
- An entry times out only after a full second more than the timeout (`DoWorkTimesOutExactly`).
- The receiver loses the agreement between its handles and its AMQP state exactly in a pass whose link creation fails
  (`DoWorkAgreesExactly`, `RunAgreesThroughoutExactly`). The next creation then gets a NULL session
  (`FailedLinkThenNullSession`), or is made over a live link, which nothing destroys any more, Destroy included
  (`FailedTickThenLostLink`). Both happen (`NullSessionHappens`, `LostLinkHappens`).
- The threaded receiver's state and the lower receiver's agree after a run exactly if no authorization failed or timed
  out in it and no worker could not be created (`RunAgreesExactly`). After the first failure the threaded receiver stays
  active above and inactive below, and refuses every later call (`AuthFailureParts`, `PartedIsStuck`,
  `RunPartedStaysParted`). After the second it stays inactive above and active below, and refuses every later Receive
  and ReceiveEnd; only a token refresh may still succeed (`FailedThreadParts`, `FailedThreadIsStuck`,
  `RunThreadlessStaysThreadless`).
- A synchronous send that is woken spuriously frees a context that its entry still refers to. A later send whose context
  gets that address can return OK for an event that was not sent, exactly as long as OK may still be written for the
  older entry: while it is unsent or unanswered, or the running pass has yet to write it (`AddressConditionExact`,
  `StaleAddressLies`, `SpuriousWakeLies`, `MidPassLies`). Otherwise OK means sent (`SendOkMeansSent`), and without
  spurious wake-ups it always does (`SendOkMeansSentWithoutSpuriousWakes`).
- A payload of 4 GiB or more loses its upper part in a batch (`EventRoundTripExactly`).

## Model

| member | source | states |
|---|---|---|
| DLists.DList.InsertTail | eventhub_client/src/eventhubclient_ll.c:1390 | An entry is linked in at the tail; the ring stays well formed in both directions and the contents grow by it. |
| DLists.DList.RemoveEntry | eventhub_client/src/eventhubclient_ll.c:772 | Unlinking one entry leaves a well-formed ring of exactly the others, in order. |
| DLists.DList.RemoveHead | eventhub_client/src/eventhubclient_ll.c:1248 | The first entry is unlinked and returned; the head itself when the list is empty. |
| DLists.LinkedWithout | eventhub_client/src/eventhubclient_ll.c:772 | Once its two neighbours are linked to each other, the remaining entries form a ring. |
| SasToken.KvpParse | eventhub_client/src/kvp_parser.c:11-125 | The loop returns exactly the key/value pairs of the text, and fails on a missing value or a repeated key. |
| SasToken.ScanToken | eventhub_client/src/eventhubauth.c:329-411 | One turn of the scan's switch either fails because no continuation fits, finishes with exactly the fields of the segments, or accepts one segment more. |
| SasToken.ScanUri | eventhub_client/src/eventhubauth.c:287-427 | The scan accepts exactly host, path, prefix of "publishers", id, or host, path, prefix of "ConsumerGroups", group, prefix of "Partitions", id, ignores the rest, and returns those segments. |
| SasToken.SasTokenParse | eventhub_client/src/eventhubauth.c:111-220 | Parsing a token succeeds exactly when its four values are there, the resource starts as token URIs do, the expiry fits 64 bits and the URI has one of the two shapes; the result holds its fields, URI and expiry. |
| SasToken.KvpRoundTrip | eventhub_client/src/kvp_parser.c:11-125 | Printing any list of pairs with distinct non-empty keys, non-empty values and no delimiters inside, and parsing it, gives the pairs back. |
| SasToken.DecimalRoundTrip | eventhub_client/src/eventhubauth.c:186-198 | The expiry is read back as printed, for every number, whatever text follows. |
| SasToken.ParsePrinted | eventhub_client/src/eventhubauth.c:111-220 | Parsing a printed token yields the encoded path and the printed expiry, for every configuration. |
| SasToken.SegmentsOfJoined | eventhub_client/src/eventhubauth.c:287-322 | Segments free of the delimiter characters, joined by "%2f", are split back into exactly themselves. |
| SasToken.RoundTripExactly | eventhub_client/src/eventhubauth.c:651-727 | Printing a configuration as a token and parsing it gives it back if and only if its ids fit its mode and every component is non-empty, kept by the encoder and free of '%', '2' and 'f'. |
| SasToken.DefaultConsumerGroupIsLost | eventhub_client/src/eventhubauth.c:287-427 | No configuration with consumer group "$Default" survives the round trip. |
| SasTokenOutcomes.KvpAcceptsExactly | eventhub_client/src/kvp_parser.c:11-125 | Any list of key/value pairs is read back if no key is repeated, and refused if one is. |
| SasTokenOutcomes.MissingValueRefused | eventhub_client/src/kvp_parser.c:11-125 | A key without a value makes a text malformed. |
| SasTokenOutcomes.TokenAcceptedExactly | eventhub_client/src/eventhubauth.c:111-220 | A token made of any pairs is accepted if and only if no key is repeated, resource, signature, key name and expiry are there, the resource starts as token URIs do, and the expiry is below 2^64; the result is the rest of the resource and the expiry. |
| SasTokenOutcomes.OtherTextRefused | eventhub_client/src/eventhubauth.c:111-220 | A text that does not start as tokens do is refused. |
| SasTokenOutcomes.UriIsSpelled | eventhub_client/src/eventhubauth.c:651-727 | The URI of a configuration, spelled out for both modes. |
| SasTokenOutcomes.SenderUriIsRead | eventhub_client/src/eventhubauth.c:287-427 | Host, path, "publishers" and id are read as these, whatever follows. |
| SasTokenOutcomes.ReceiverUriIsRead | eventhub_client/src/eventhubauth.c:287-427 | Host, path, "ConsumerGroups", group, "Partitions" and id likewise. |
| EventHubAuth.EventHubAuthCBS.Update | eventhub_client/src/eventhubauth.c:1155-1213 | A status check leaves exactly the status that the clock calls for, and fails without a change when the clock cannot be read. |
| EventHubAuth.EventHubAuthCBS.GetStatus | eventhub_client/src/eventhubauth.c:1128-1153 | The reported status is the one the check left; the result is an error when the check failed. |
| EventHubAuth.EventHubAuthCBS.Authenticate | eventhub_client/src/eventhubauth.c:872-994 | A put starts only outside IN_PROGRESS, for a token dated now or the user's own; every failure point leaves exactly what the code has written by then, the time of the put included. |
| EventHubAuth.EventHubAuthCBS.Refresh | eventhub_client/src/eventhubauth.c:996-1126 | AUTO refreshes only when a refresh is required, EXT only with a token for the same URI. |
| EventHubAuth.EventHubAuthCBS.OnPutComplete | eventhub_client/src/eventhubauth.c:493-518 | The answer to the oldest put installs its token or fails the handle. |
| TokenLifecycle.StatusTracksAge | eventhub_client/src/eventhubauth.c:547-575 | With a clock that does not run backwards the polled status of an installed token is a function of its age alone, through any polls and failed readings; the refresh window is not empty. |
| TokenLifecycle.PutTimeoutTracksAge | eventhub_client/src/eventhubauth.c:520-545 | An unanswered put is reported timed out from the first reading on that is the timeout or more after it, through any polls and failed readings, and never with a timeout of 0. |
| TokenLifecycle.ExpiredAbsorbs | eventhub_client/src/eventhubauth.c:1087-1109 | An expired handle is changed by no sequence of polls and no refresh. |
| TokenLifecycle.PassSettles | eventhub_client/src/eventhubreceiver_ll.c:251-359 | The authorization pass of either engine leaves at most one put outstanding, for the current token, exactly while IN_PROGRESS, or asks for a tear-down. |
| TokenLifecycle.ReadyMeansTokenInForce | eventhub_client/src/eventhubclient_ll.c:387-496 | A pass that lets work go on found the installed token unexpired at every reading it made, also when it starts a refresh itself. |
| TokenLifecycle.AnswerSettles | eventhub_client/src/eventhubauth.c:493-518 | The answer to the outstanding put leaves a settled handle, OK or FAILURE. |
| TokenLifecycle.AloneOnePutExactly | eventhub_client/src/eventhubauth.c:872-994 | However often a settled handle has been polled, Authenticate leaves at most one put outstanding if and only if it is not the case that the put has timed out and the new one goes out. |
| TokenLifecycle.AloneOnePutRefreshedExactly | eventhub_client/src/eventhubauth.c:996-1126 | The same for Refresh; only a user's own token can be put in that state. |
| TokenLifecycle.AloneDateExactly | eventhub_client/src/eventhubauth.c:996-1126 | After a refresh and the answer to it the handle is dated by the installed token if and only if the refresh wrote down no other token, or its put went out (clock read, token minted or expired, library accepting) and was answered with success. |
| TokenLifecycle.AloneTwoPutsOutstanding | eventhub_client/src/eventhubauth.c:872-994 | An input of the first kind: two puts are outstanding. |
| TokenLifecycle.AloneFailedRefreshLosesTheDate | eventhub_client/src/eventhubauth.c:872-994 | An input of the second kind: the handle is dated by a token other than the installed one, and may be authenticated again. |
| TokenLifecycle.ExternalTokenIsPutOnceExpired | eventhub_client/src/eventhubauth.c:900-916 | A user's own token is accepted if and only if its expiry has been reached (and the clock and the library do not fail). |
| TokenOutcomes.AuthenticatesExactly | eventhub_client/src/eventhubauth.c:872-994 | Authenticate succeeds if and only if no put is waited for, the clock is read, the token is minted or expired and the library accepts; then exactly one put is added, for a token dated by this reading or the user's own. |
| TokenOutcomes.FirstPutExactly | eventhub_client/src/eventhubauth.c:872-994 | A new handle waits for nothing; its first put succeeds if and only if clock, signer and library do, for a user's token only once that has expired, and is for the token of its own configuration. |
| TokenOutcomes.AutoRefreshesExactly | eventhub_client/src/eventhubauth.c:1087-1109 | An AUTO refresh succeeds if and only if its reading finds the token unexpired and due, and its put goes out; it is NOT_PERMITTED if and only if the reading finds otherwise. |
| TokenOutcomes.ExtRefreshesExactly | eventhub_client/src/eventhubauth.c:1018-1086 | An EXT refresh succeeds if and only if a token for the same URI is passed, no put is waited for, and its put goes out; each other result has its own exact case. |
| TokenOutcomes.PutIsTimedFromItsReading | eventhub_client/src/eventhubauth.c:520-545 | Through any polls, a put made by Authenticate is found timed out if and only if there is a timeout and the last reading is that much or more after the reading at which it was made. |
| TokenOutcomes.RefreshPutIsTimedFromItsReading | eventhub_client/src/eventhubauth.c:520-545 | So is one made by Refresh. |
| TokenOutcomes.TokenLivesFromItsReading | eventhub_client/src/eventhubauth.c:547-575 | From the answer on, the status of a minted token is a function of the time since the reading at which it was minted. |
| TokenOutcomes.RefreshedTokenLivesFromItsReading | eventhub_client/src/eventhubauth.c:547-575 | So is that of one minted by a refresh; until its put is answered the old token stays installed. |
| TokenOutcomes.PassVerdictExactly | eventhub_client/src/eventhubclient_ll.c:387-496 | The authorization pass of either engine is ready, waits, or times out, each if and only if status, ages and put call for it, and fails in all other cases; a token due for refresh is ready exactly if its refresh goes out. |
| TokenOutcomes.PassPutsExactly | eventhub_client/src/eventhubreceiver_ll.c:251-359 | The puts of a pass: the first token, a minted one when a refresh is due, the user's new one, and nothing else; the user's is used up whatever becomes of it. |
| TokenOutcomes.AuthorizesExactly | eventhub_client/src/eventhubclient_ll.c:387-496 | The same for the engines, with the step out of PENDING_AUTHORIZATION and the fate of the refresh token. |
| AmqpStack.CommonBuiltAgrees | eventhub_client/src/eventhubclient_ll.c:498-616 | Wherever bring-up stops, the non-NULL fields are exactly the live handles in creation order, no live handle was overwritten and no call got a NULL; success means six of them. |
| AmqpStack.EndpointBuiltAgrees | eventhub_client/src/eventhubclient_ll.c:618-699 | The same for the link and the message sender or receiver on top of the six. |
| AmqpStack.CommonBuiltExactly | eventhub_client/src/eventhubclient_ll.c:498-616 | The common part is built if and only if every library call succeeds and the token configuration is accepted. |
| AmqpStack.EndpointBuiltExactly | eventhub_client/src/eventhubclient_ll.c:618-699 | The link and the message sender or receiver are built if and only if every call succeeds. |
| AmqpStack.TearDownAgrees | eventhub_client/src/eventhubclient_ll.c:246-304 | From any stage tear-down destroys every live handle once, children before parents, and leaves all fields NULL. |
| AmqpStack.HandleStack.BuildCommon | eventhub_client/src/eventhubreceiver_ll.c:715-830 | Bring-up of the common part, in place, for every combination of failures; fields and live handles stay in step. |
| AmqpStack.HandleStack.BuildEndpoint | eventhub_client/src/eventhubreceiver_ll.c:832-991 | Creation of the link and the message receiver or sender, in place; fields and live handles stay in step. |
| AmqpStack.HandleStack.TearDown | eventhub_client/src/eventhubreceiver_ll.c:659-713 | The eight guarded destroys, in place, leave every field NULL and, from any stage, no handle alive. |
| AmqpStack.HandleStack.HandleSasTokenAuth | eventhub_client/src/eventhubclient_ll.c:387-496 | The authorization pass, in place: status check, authenticate, refresh, and the step out of PENDING_AUTHORIZATION, as `AuthorizesExactly` decides it. |
| SendQueue.WalkIsAFilter | eventhub_client/src/eventhubclient_ll.c:1803-1932 | The pass that unlinks entries while it advances treats every entry of the old queue once and in order: what is left is a filter of it, what is logged the concatenation of each entry's part. |
| SendQueue.SurvivorsWaitForAck | eventhub_client/src/eventhubclient_ll.c:1803-1932 | No entry is left waiting to be sent after a pass. |
| SenderLogs.PassTimesOutExactly | eventhub_client/src/eventhubclient_ll.c:1878-1886 | A pass over the whole queue confirms an entry as timed out if and only if the queue holds it unsent, it can be built, the timeout t is set and it has waited at least 1000(t+1) ms. |
| SenderLogs.DoWorkTimesOutExactly | eventhub_client/src/eventhubclient_ll.c:1742-1939 | What DoWork adds to the log confirms an entry as timed out if and only if DoWork reaches the pass and the entry is such a one. |
| SenderOutcomes.UpExactly | eventhub_client/src/eventhubclient_ll.c:498-699 | Bring-up in DoWork succeeds if and only if the calls of its stage do; a new CBS handle has lifetime 3600 s, refresh period 2880 s and the message timeout, at most INT_MAX, or is for the user's token. |
| SenderOutcomes.SendsExactly | eventhub_client/src/eventhubclient_ll.c:1768-1799 | The pass over the queue is reached if and only if the stack is or gets complete, no failed message sender is found, the token is ready, and the sender is open or opened. |
| SenderOutcomes.DoWorkReportsExactly | eventhub_client/src/eventhubclient_ll.c:1742-1939 | The error callback is told exactly the failure of bring-up, of authorization, or of the message sender, with its own code. |
| SenderOutcomes.DoWorkStatesExactly | eventhub_client/src/eventhubclient_ll.c:1742-1939 | The AMQP state and the message sender's state after a DoWork, in every case. |
| SenderOutcomes.DoWorkTokenExactly | eventhub_client/src/eventhubclient_ll.c:387-496 | What authorization puts is outstanding until connection work brings its answer, which installs it or fails the handle. |
| EntryFates.PassConfirmsExactly | eventhub_client/src/eventhubclient_ll.c:1803-1932 | Over the whole queue: what a pass confirms, and how, and what it hands over. |
| EntryFates.AnswersConfirmExactly | eventhub_client/src/eventhubclient_ll.c:741-775 | A send that is waited for is confirmed as its first answer says; no other answer confirms anything. |
| EntryFates.DoWorkHandsOverExactly | eventhub_client/src/eventhubclient_ll.c:1803-1888 | A queued entry is handed over if and only if the pass is reached and it is unsent, can be built and is in time. |
| EntryFates.DoWorkConfirmsExactly | eventhub_client/src/eventhubclient_ll.c:1742-1939 | DoWork confirms each queued entry with exactly the result that its construction, its age, the send and the library's answers call for, and no other. |
| EntryFates.DoWorkKeepsQueuedExactly | eventhub_client/src/eventhubclient_ll.c:1742-1939 | It stays queued if and only if that is not to be confirmed. |
| EntryFates.DoWorkKeepsEntries | eventhub_client/src/eventhubclient_ll.c:1803-1932 | What stays queued is as it was, but for being marked as sent. |
| EntryFates.DestroyConfirmsExactly | eventhub_client/src/eventhubclient_ll.c:1208-1269 | Destroy confirms what the library still answers as it says, and everything else DESTROY. |
| SendQueueInvariant.WalkKeeps | eventhub_client/src/eventhubclient_ll.c:1803-1932 | The pass keeps exactly-once confirmation, FIFO order and clone accounting, completions inside messagesender_send_async included. |
| SendQueueInvariant.CompleteKeeps | eventhub_client/src/eventhubclient_ll.c:741-775 | So does every completion. |
| SendQueueInvariant.AcceptKeeps | eventhub_client/src/eventhubclient_ll.c:1341-1399 | So does accepting an entry. |
| SendQueueInvariant.DestroyAllConfirmsAll | eventhub_client/src/eventhubclient_ll.c:1248-1265 | The loop of Destroy confirms each remaining entry once and leaves no clone. |
| OutgoingEvents.OutgoingQueue.SendAll | eventhub_client/src/eventhubclient_ll.c:1800-1932 | The loop on the intrusive list, which saves Flink and may unlink and free the current node, terminates and is exactly the pass on the sequence; the list stays a well-formed ring of nodes not freed, and every other node ever allocated has been freed, once. |
| OutgoingEvents.OutgoingQueue.SendEntry | eventhub_client/src/eventhubclient_ll.c:1803-1932 | Its body: build, time out, send, and the outcome of the send. |
| OutgoingEvents.OutgoingQueue.AnswerSends | eventhub_client/src/eventhubclient_ll.c:741-775 | Completions confirm and unlink exactly the entries they are for. |
| OutgoingEvents.OutgoingQueue.CloneAll | eventhub_client/src/eventhubclient_ll.c:1441-1461 | Either all events are cloned, or those already made are destroyed again. |
| OutgoingEvents.OutgoingQueue.Enqueue | eventhub_client/src/eventhubclient_ll.c:1462-1474 | The new entry is linked in last. |
| OutgoingEvents.OutgoingQueue.DestroyEntries | eventhub_client/src/eventhubclient_ll.c:1248-1265 | The loop that empties the list in Destroy: each remaining entry is confirmed, and in the end all nodes have been freed. |
| EventHubClientLL.Client.DoWork | eventhub_client/src/eventhubclient_ll.c:1742-1939 | DoWork, in place: bring-up, authorization, the pass over the queue, connection work and every tear-down; a valid client stays valid. |
| EventHubClientLL.Client.SendAsync | eventhub_client/src/eventhubclient_ll.c:1341-1399 | One event is cloned and queued, or nothing changes, as `SendAcceptsExactly` says. |
| EventHubClientLL.Client.ValidateEventDataList | eventhub_client/src/eventhubclient_ll.c:197-244 | The loop accepts exactly lists without NULL whose partition keys are all equal or all absent. |
| EventHubClientLL.Client.SendBatchAsync | eventhub_client/src/eventhubclient_ll.c:1401-1480 | Validation, allocation and cloning in place meet the all-or-nothing specification. |
| EventHubClientLL.Client.RefreshSasTokenAsync | eventhub_client/src/eventhubclient_ll.c:826-889 | A refresh token is kept only for an initialized EXT client without one, and for the same URI. |
| EventHubClientLL.Client.Destroy | eventhub_client/src/eventhubclient_ll.c:1208-1269 | Tear-down, then the remaining entries: every entry ever accepted has been confirmed once, no clone, list node or handle is left. |
| SenderInvariant.DoWorkKeeps | eventhub_client/src/eventhubclient_ll.c:1742-1939 | Every DoWork keeps queue, handle and token invariants, whatever fails and whatever the library answers. |
| SenderInvariant.StepKeeps | eventhub_client/src/eventhubclient_ll.c:1208-1939 | So does every operation of the client. |
| SenderInvariant.RunKeeps | eventhub_client/src/eventhubclient_ll.c:1208-1939 | Every reachable sender state satisfies them. |
| SenderGuarantees.RunConfirmsAtMostOnce | eventhub_client/src/eventhubclient_ll.c:741-775 | In every reachable state accepted entries are the disjoint union of queued and confirmed ones; none is confirmed twice. |
| SenderGuarantees.RunThenDestroy | eventhub_client/src/eventhubclient_ll.c:1208-1269 | After any run and Destroy every accepted entry has been confirmed exactly once, all clones and all handles are gone. |
| SenderGuarantees.RunSendsInOrder | eventhub_client/src/eventhubclient_ll.c:1803-1888 | The calls to messagesender_send_async over a run follow acceptance order without repetition. |
| SenderGuarantees.RunConfirmsOkOnlyWhenSent | eventhub_client/src/eventhubclient_ll.c:750-764 | A confirmation OK is preceded by AMQP's report for that very entry. |
| SenderGuarantees.RunHandlesAgree | eventhub_client/src/eventhubclient_ll.c:246-304 | In every reachable state the AMQP state determines which of the eight handles are non-NULL, and every library call so far was sound. |
| SenderGuarantees.RunOnePutOutstanding | eventhub_client/src/eventhubclient_ll.c:397-492 | Between calls a live CBS handle is IN_PROGRESS, OK or FAILURE, with one put outstanding exactly in the first case. |
| SenderGuarantees.RunHandsOverInForce | eventhub_client/src/eventhubclient_ll.c:1768-1888 | Every hand-over of every run passed a message sender under an installed token that had not expired when checked. |
| SenderGuarantees.HandOverUnderLiveToken | eventhub_client/src/eventhubclient_ll.c:1768-1888 | When a DoWork hands an entry over, the last put that succeeded was for a token minted at `created`, and the clock read in this very pass is less than 3600 s later, also when the pass starts a refresh. |
| SenderLogs.NullCallsExactly | eventhub_client/src/eventhubclient_ll.c:1899-1928 | A pass calls a NULL callback if and only if an entry queued without one cannot be built, has timed out or is refused. |
| SenderLogs.DoWorkCallsNullExactly | eventhub_client/src/eventhubclient_ll.c:1742-1939 | What DoWork adds to the log calls a NULL callback if and only if DoWork reaches the pass and there is such an entry. |
| SenderGuarantees.RunWithCallbacksCallsNoNull | eventhub_client/src/eventhubclient_ll.c:1899-1928 | A user who always passes a callback never has a NULL one called. |
| SenderGuarantees.SendAcceptsExactly | eventhub_client/src/eventhubclient_ll.c:1341-1399 | One entry is queued, last, unsent, with a clone of this event, this callback and this reading, if and only if there is an event, a context comes with a callback, and allocation and clone succeed; otherwise nothing changes. |
| SenderGuarantees.RefreshIsKeptExactly | eventhub_client/src/eventhubclient_ll.c:826-889 | A refresh token is kept if and only if the client is an initialized EXT one without a pending token, and it parses and is for the same URI. |
| SenderGuarantees.SendBatchIsAtomic | eventhub_client/src/eventhubclient_ll.c:1401-1480 | One entry with all events, in order, this callback and this reading is queued if and only if arguments, keys, allocation and clones are all right; otherwise nothing changes. |
| BatchEncoding.EventDataBinary.EncodeCallback | eventhub_client/src/eventhubclient_ll.c:1482-1488 | A chunk is copied behind what the buffer holds and the rest is left alone. |
| BatchEncoding.SizesAreExact | eventhub_client/src/eventhubclient_ll.c:1639-1678 | The sizes computed beforehand are those of the encodings. |
| BatchEncoding.FillBuffer | eventhub_client/src/eventhubclient_ll.c:1668-1695 | However the library splits its output, the buffer is filled exactly and holds properties, if any, then data. |
| BatchEncoding.CreateBatchMessage | eventhub_client/src/eventhubclient_ll.c:1581-1740 | The batch succeeds exactly when nothing fails for any event, and then has one body section per event, in order. |
| BatchEncoding.PairsRoundTrip | eventhub_client/src/eventhubclient_ll.c:1490-1579 | The encoded keys and values of a map are read back in order, whatever follows them. |
| BatchEncoding.MapRoundTrip | eventhub_client/src/eventhubclient_ll.c:1490-1579 | A property map is read back from either width of its encoding, whatever follows it. |
| BatchEncoding.EventRoundTripExactly | eventhub_client/src/eventhubclient_ll.c:1612-1695 | Decoding a section gives the properties and the payload; they are the event's own if and only if it is below 4 GiB. |
| BatchEncoding.BatchRoundTripExactly | eventhub_client/src/eventhubclient_ll.c:1581-1740 | Every event of a batch is recovered if and only if every payload is below 4 GiB. |
| BatchEncoding.EventBytes | eventhub_client/src/eventhubclient_ll.c:1490-1695 | The very bytes of a section with and without properties, as sections 1.6.19, 1.6.20, 1.6.23, 3.2.5 and 3.2.6 of AMQP 1.0 have them. |
| BatchEncoding.LengthBytes | eventhub_client/src/eventhubclient_ll.c:1490-1695 | A length of 256 or more takes four bytes in network order. |
| EventHubReceiverLL.ReceiverLL.ReceiveAsync | eventhub_client/src/eventhubreceiver_ll.c:1422-1486 | A session begins only from INACTIVE with both callbacks; each failure leaves exactly what was written by then. |
| EventHubReceiverLL.ReceiverLL.ReceiveEndAsync | eventhub_client/src/eventhubreceiver_ll.c:1387-1420 | An active session is marked for tear-down; otherwise nothing changes. |
| EventHubReceiverLL.ReceiverLL.RefreshSasTokenAsync | eventhub_client/src/eventhubreceiver_ll.c:1276-1343 | A refresh token is kept only for an active EXT receiver without one, and for the same URI. |
| EventHubReceiverLL.ReceiverLL.ReceiverInitialize | eventhub_client/src/eventhubreceiver_ll.c:1005-1071 | Both stages of bring-up in place, with the failures that keep the AMQP state. |
| EventHubReceiverLL.ReceiverLL.ConnectionDoWork | eventhub_client/src/eventhubreceiver_ll.c:1079-1085 | Messages, link errors and put answers are delivered in order, each user callback with the calls it makes; `DoWorkExactly` says what comes of it. |
| EventHubReceiverLL.ReceiverLL.CheckActivity | eventhub_client/src/eventhubreceiver_ll.c:1854-1885 | The inactivity check: a timeout is reported when the wait time has passed without a message; the activity clock is set to the reading then and after messages, not otherwise. |
| EventHubReceiverLL.ReceiverLL.DoWork | eventhub_client/src/eventhubreceiver_ll.c:1789-1890 | DoWork, in place, for all three session states: a valid receiver stays valid, and fields and live handles stay in step if and only if the link creation of this pass does not fail. |
| EventHubReceiverLL.ReceiverLL.Destroy | eventhub_client/src/eventhubreceiver_ll.c:1371-1385 | Destroy tears the session down; if handles and fields were in step no handle is left. |
| ReceiverInvariant.DoWorkKeeps | eventhub_client/src/eventhubreceiver_ll.c:1789-1890 | Every DoWork keeps the session, order, activity and token invariants, whatever the user's callbacks call. |
| ReceiverInvariant.RunKeeps | eventhub_client/src/eventhubreceiver_ll.c:1345-1890 | Every reachable receiver state satisfies them. |
| ReceiverOutcomes.UpExactly | eventhub_client/src/eventhubreceiver_ll.c:1005-1071 | Bring-up succeeds if and only if the calls of its stage do, and sets the activity clock when the link is created; a new CBS handle waits as long as a message may, in seconds. |
| ReceiverOutcomes.DoWorkExactly | eventhub_client/src/eventhubreceiver_ll.c:1789-1890 | The pass of an active receiver adds exactly this to the log: the mark of a new link, the failure of authorization with its code, each readable message and link error in order, and the finding of the inactivity check; the activity clock and the message flag afterwards are exactly those this calls for. |
| ReceiverOutcomes.TimeoutReportedExactly | eventhub_client/src/eventhubreceiver_ll.c:1854-1885 | An inactivity timeout is reported, once and last, if and only if the check is reached, there is a wait time, the counter is read, no message came in since the last check, and the wait time has passed since activity was last noted. |
| ReceiverOutcomes.MessagesDeliveredExactly | eventhub_client/src/eventhubreceiver_ll.c:1738-1787 | Every readable message of a pass that gets to connection work with a message receiver is delivered, in order, with its own event; no other pass delivers one. |
| ReceiverOutcomes.DoWorkReactsExactly | eventhub_client/src/eventhubreceiver_ll.c:1738-1890 | The calls that the user's callbacks make during a pass take effect one after the other, in the order of the callbacks. |
| ReceiverOutcomes.ReactsInOrder | eventhub_client/src/eventhubreceiver_ll.c:1276-1486 | The calls of a callback are the API calls, in order. |
| ReceiverOutcomes.DoWorkTokenExactly | eventhub_client/src/eventhubreceiver_ll.c:251-359 | The AMQP state after such a pass, and the token: what was put is outstanding until its answer installs it or fails the handle. |
| ReceiverOutcomes.ReceivesExactly | eventhub_client/src/eventhubreceiver_ll.c:1422-1486 | A session begins if and only if both callbacks are there, none is running, counter and filter do not fail; it has the next number, the start time in milliseconds modulo 2^64 as its filter, and the given wait time. |
| ReceiverOutcomes.EndsExactly | eventhub_client/src/eventhubreceiver_ll.c:1387-1420 | ReceiveEnd is accepted if and only if a session is active, and notes whether there is an end callback. |
| ReceiverOutcomes.FinishesExactly | eventhub_client/src/eventhubreceiver_ll.c:1798-1811 | The next pass tears the session down and calls the end callback if and only if there is one. |
| ReceiverOutcomes.RefreshIsKeptExactly | eventhub_client/src/eventhubreceiver_ll.c:1276-1343 | A refresh token is kept if and only if the receiver is an active EXT one without a pending token, and it parses and is for the same URI. |
| ReceiverOutcomes.RunKeepsEndpoint | eventhub_client/src/eventhubreceiver_ll.c:1005-1071 | Every reachable receiver satisfies what these results ask of one, also after failed link creations. |
| ReceiverGuarantees.RunKeepsSessions | eventhub_client/src/eventhubreceiver_ll.c:1345-1369 | INACTIVE always means no handles, callbacks, filter or refresh token; the other states always mean both callbacks; no NULL callback is ever called. |
| ReceiverGuarantees.RunOrdersCallbacks | eventhub_client/src/eventhubreceiver_ll.c:1798-1811 | Callbacks come session by session, a session's end callback last and at most once. |
| ReceiverGuarantees.RunOnePutOutstanding | eventhub_client/src/eventhubreceiver_ll.c:251-359 | The same bound on puts as for the sender, also after failed link creations. |
| ReceiverGuarantees.TimeoutsAreSpaced | eventhub_client/src/eventhubreceiver_ll.c:1846-1887 | With tick readings that do not run backwards, a timeout comes at least the wait time after every earlier timeout, after the session's start and after every pass that accounted for messages. |
| ReceiverGuarantees.MessagesAreAttended | eventhub_client/src/eventhubreceiver_ll.c:1779-1887 | Between a message and a later timeout a pass accounted for the message or failed to read the counter, also for messages received during a token refresh. |
| ReceiverGuarantees.DoWorkAgreesExactly | eventhub_client/src/eventhubreceiver_ll.c:1031-1062 | A pass keeps handles and AMQP state in step if and only if it is not one whose link creation, or the tick reading after it, fails. |
| ReceiverGuarantees.RunAgrees | eventhub_client/src/eventhubreceiver_ll.c:659-713 | Over runs without such passes they agree, and Destroy releases every handle in order. |
| ReceiverGuarantees.RunAgreesThroughoutExactly | eventhub_client/src/eventhubreceiver_ll.c:1031-1062 | They agree after every prefix of a run if and only if the link creation, with the tick reading after it, fails in no pass of it. |
| ReceiverGuarantees.FailedLinkThenNullSession | eventhub_client/src/eventhubreceiver_ll.c:985-988 | After a failed link creation the next one passes a NULL session to the library. |
| ReceiverGuarantees.FailedTickThenLostLink | eventhub_client/src/eventhubreceiver_ll.c:1049-1061 | After a failed tick reading the next pass that creates a link makes it over a live one, which is then held by no field and destroyed by nothing that follows, Destroy included. |
| ReceiverGuarantees.NullSessionHappens | eventhub_client/src/eventhubreceiver_ll.c:985-988 | A complete run from creation that passes the library a NULL session. |
| ReceiverGuarantees.LostLinkHappens | eventhub_client/src/eventhubreceiver_ll.c:1049-1061 | A complete run from creation that loses a link for good. |
| EventHubReceiver.DispatchList.Add | eventhub_client/src/eventhubreceiver.c:345-408 | A callback of the lower receiver is queued with a clone of its event. |
| EventHubReceiver.DispatchList.DispatchHead | eventhub_client/src/eventhubreceiver.c:606-632 | A turn of the drain calls the matching callback of the copy, or none, and destroys exactly the clone the code destroys. |
| EventHubReceiver.DispatchList.DeInit | eventhub_client/src/eventhubreceiver.c:586-599 | What is left in the list is freed, each with its own clone. |
| EventHubReceiver.ThreadedReceiver.Tick | eventhub_client/src/eventhubreceiver.c:312-337 | A turn of the worker up to Unlock, in place: the pass, its dispatches, the copy of the callbacks; a valid receiver stays valid. |
| EventHubReceiver.ThreadedReceiver.AsyncDispatchCallbackListProcess | eventhub_client/src/eventhubreceiver.c:606-632 | The drain loop on the intrusive list is the repetition of its step; it empties the list and keeps a valid receiver valid. |
| EventHubReceiver.ThreadedReceiver.ReceiveFromStartTimestampAsync | eventhub_client/src/eventhubreceiver.c:410-509 | Receive, in place, with a failing lock, lower receiver or thread creation; a valid receiver stays valid. |
| EventHubReceiver.ThreadedReceiver.ReceiveEnd | eventhub_client/src/eventhubreceiver.c:246-310 | ReceiveEnd is refused without the lock or a session; when the lower receiver accepts it, receive and error callbacks are dropped, the end callback is recorded and the state leaves ACTIVE. |
| EventHubReceiver.ThreadedReceiver.DestroyAfterJoin | eventhub_client/src/eventhubreceiver.c:221-244 | After the join Destroy leaves nothing queued: all has been delivered to its own session, and each clone has been destroyed once. |
| ReceiverThreadInvariant.TickKeeps | eventhub_client/src/eventhubreceiver.c:312-343 | Every turn of the worker keeps callbacks, queue, order and delivery invariants, also when Lock fails. |
| ReceiverThreadInvariant.DrainOneKeeps | eventhub_client/src/eventhubreceiver.c:606-632 | Every turn of the drain delivers the head to its own session's callback. |
| ReceiverThreadInvariant.ThreadStepKeeps | eventhub_client/src/eventhubreceiver.c:246-509 | So does every step of any thread. |
| ReceiverThreadInvariant.InterleavedKeeps | eventhub_client/src/eventhubreceiver.c:221-632 | Every state reachable by any interleaving satisfies the invariant. |
| ReceiverThreadGuarantees.RunCallbackTrace | eventhub_client/src/eventhubreceiver.c:246-343 | Over all interleavings each callback is delivered to its own session's user callback, messages and timeouts to the one for events, errors to the one for errors, ends to the one for the end; sessions in order, an end once and last, also when a new Receive comes between unlock and drain. |
| ReceiverThreadGuarantees.RunDeliversInOrder | eventhub_client/src/eventhubreceiver.c:606-632 | Dispatches are delivered in queuing order, none twice, none skipped. |
| ReceiverThreadGuarantees.RunEmitsEveryCallback | eventhub_client/src/eventhubreceiver.c:345-408 | While allocation succeeds, what is queued is exactly what the lower receiver called back, in its order. |
| ReceiverThreadGuarantees.RunConfinesQueue | eventhub_client/src/eventhubreceiver.c:312-343 | The queue is empty whenever the worker is not draining with a good copy, so an uninitialized copy is never read; the clones not yet destroyed are exactly those of the events queued. |
| ReceiverThreadGuarantees.RunThenDestroy | eventhub_client/src/eventhubreceiver.c:221-244 | After Destroy everything queued has been delivered, and the clone of each received event has been destroyed once, no other. |
| ReceiverThreadOutcomes.ReceiveAcceptsExactly | eventhub_client/src/eventhubreceiver.c:410-509 | A Receive is accepted if and only if the lock is taken, the handle is free, the lower receiver begins a session and a worker is there or can be created; then the callbacks are those of the new session and the worker is to run. |
| ReceiverThreadOutcomes.ReceiveEndAcceptsExactly | eventhub_client/src/eventhubreceiver.c:246-310 | A ReceiveEnd is accepted if and only if the lock is taken and a session is on, above and below. |
| ReceiverThreadOutcomes.RefreshAcceptsExactly | eventhub_client/src/eventhubreceiver.c:183-219 | A refresh is accepted if and only if the lock is taken and the lower receiver keeps the token. |
| ReceiverThreadOutcomes.RunHasWorker | eventhub_client/src/eventhubreceiver.c:312-343 | In every reachable state an active receiver has a worker that runs. |
| ReceiverThreadOutcomes.DrainsToLoopTop | eventhub_client/src/eventhubreceiver.c:606-632 | The worker takes one dispatch a step, and once the queue is empty goes back to the top of its loop. |
| ReceiverThreadOutcomes.TurnDeliversExactly | eventhub_client/src/eventhubreceiver.c:312-343 | A turn of the worker of an active receiver, with its drain, delivers exactly the failure of authorization, each readable message and link error in order, and an inactivity timeout if it is due, to the running session's callbacks. |
| ReceiverThreadOutcomes.TurnEndsExactly | eventhub_client/src/eventhubreceiver.c:312-343 | A turn after a ReceiveEnd delivers the end of the session to its end callback, if there is one. |
| ReceiverThreadGuarantees.StepAgreesExactly | eventhub_client/src/eventhubreceiver.c:246-509 | A step keeps the wrapper's state and the lower receiver's in agreement if and only if it is neither a worker's pass whose authorization fails or times out nor a first Receive whose thread cannot be created. |
| ReceiverThreadGuarantees.RunAgreesExactly | eventhub_client/src/eventhubreceiver.c:246-509 | Over every interleaving they agree at the end if and only if no step was one of these. |
| ReceiverThreadGuarantees.AuthFailureParts | eventhub_client/src/eventhubreceiver_ll.c:1830-1838 | A complete run from creation to an active wrapper over an inactive lower receiver. |
| ReceiverThreadGuarantees.FailedThreadParts | eventhub_client/src/eventhubreceiver.c:463-480 | A complete run from creation to an inactive wrapper over an active lower receiver. |
| ReceiverThreadGuarantees.PartedIsStuck | eventhub_client/src/eventhubreceiver.c:246-310 | In the first of these states every Receive, ReceiveEnd and refresh is refused and nothing leaves it. |
| ReceiverThreadGuarantees.RunPartedStaysParted | eventhub_client/src/eventhubreceiver.c:410-509 | Once a run is in that state it stays there, whatever is done. |
| ReceiverThreadGuarantees.FailedThreadIsStuck | eventhub_client/src/eventhubreceiver.c:463-480 | In the second every Receive and ReceiveEnd is refused and nothing leaves it; a refresh succeeds if and only if the lock is taken and the token is fit for an EXT receiver without a pending one. |
| ReceiverThreadGuarantees.RunThreadlessStaysThreadless | eventhub_client/src/eventhubreceiver.c:410-509 | Once a run is in that state it stays there, whatever is done. |
| ClientThreadInvariant.TellKeeps | eventhub_client/src/eventhubclient.c:67-76 | Each write of a result keeps the link between calls, contexts and entries: an OK reaches the call that waits for the entry, which has been reported by then. |
| ClientThreadInvariant.ClientStepKeeps | eventhub_client/src/eventhubclient.c:47-585 | Every step of any thread keeps that link - the setters, the token refresh, and wake-ups and allocations in the middle of a pass included - unless it allocates a context at an address which an entry refers to for which OK may still be written, by the running pass or a later one. |
| ClientThreadGuarantees.SendOkMeansSent | eventhub_client/src/eventhubclient.c:405-457 | Under any interleaving of all API calls with the worker, spurious wake-ups and steps in the middle of a pass included, Send or SendBatch returning OK means AMQP had by then reported that very entry sent, provided no context was allocated at such an address. |
| ClientThreadGuarantees.NoSpuriousMeansFresh | eventhub_client/src/eventhubclient.c:432-450 | Without spurious wake-ups that never happens, and no context that has been freed is written to or posted. |
| ClientThreadGuarantees.SendOkMeansSentWithoutSpuriousWakes | eventhub_client/src/eventhubclient.c:486-536 | So without them OK means sent, unconditionally. |
| ClientThreadOutcomes.EnqueuesExactly | eventhub_client/src/eventhubclient.c:127-201 | A synchronous call queues its own events, with a confirmation callback, if and only if it gets the lock and a worker and the arguments, keys, allocations and clones are all right; otherwise it returns an error and frees its context. |
| ClientThreadOutcomes.UserSendsExactly | eventhub_client/src/eventhubclient.c:459-562 | A send with the user's own callback queues its events under the same conditions. |
| ClientThreadOutcomes.SettingsExactly | eventhub_client/src/eventhubclient.c:282-388 | Timeout, error callback and refresh token reach the lower sender if and only if the lock is taken. |
| ClientThreadOutcomes.SendReturnsExactly | eventhub_client/src/eventhubclient.c:405-457 | Without spurious wake-ups a synchronous call that wakes returns OK if and only if its own entry was confirmed OK. |
| StaleContext.AddressConditionExact | eventhub_client/src/eventhubclient.c:67-99 | After any run with fresh addresses a further context, allocated between passes or in the middle of one, can make no call return OK unsent, whatever follows without another allocation, if and only if no entry refers to its address for which OK may still be written. |
| StaleContext.StaleAddressLies | eventhub_client/src/eventhubclient.c:67-99 | From every reachable state in which an unsent or unanswered entry refers to the address, or the running pass will leave OK there, there are steps of the client after which the new call has returned OK for an entry that was not reported. |
| SenderPaths.CanConfirm | eventhub_client/src/eventhubclient_ll.c:1742-1939 | From every reachable state of the lower sender each unanswered entry, and each unsent one if the client's credential is one the auth module accepts, can be confirmed OK by some passes of DoWork before anything else is confirmed or answered. |
| StaleContext.SpuriousWakeLies | eventhub_client/src/eventhubclient.c:405-457 | A complete run from creation at whose end a call has returned OK for an entry that was not reported. |
| StaleContext.MidPassLies | eventhub_client/src/eventhubclient.c:67-99 | Another, in which the address is allocated in the middle of a pass, when no entry is unsent or unanswered any more. |

## Left out

- SendOkMeansSent: holds only of runs in which no context is allocated at an address that an entry refers to for which OK may still be written; `AddressConditionExact` shows that this is exact, `SpuriousWakeLies` and `MidPassLies` that it happens.
- The construction of an entry's message is a flag in the pass over the queue; `CreateBatchMessage` says when that of a batch succeeds, but the two are not composed.
- The course of a pass, that is what the library answers and in which order, is fixed when the pass starts; the other threads cannot see the lower sender while it runs.
- TimeoutsAreSpaced: assumes that the tick readings of a session do not run backwards.
- The threaded sender is modelled on values, not as a class: its contexts are reused addresses, which objects of the language never share. What this leaves out is only the update in place of its few fields.
- Progress of a blocking Send: it waits once without testing a flag, so a return is not guaranteed by the code.
- End-callback delivery when ReceiveEndAsync is called from inside the error callback of an authorization failure: the tear-down that follows drops it.
- TLS, SASL, connection, session, link and AMQP value internals; HMAC signing and Base64. The choice of the compact encoding whenever it fits is the library's.
- Repeated library calls on one live handle within a function are recorded once; interface lookups and terminus construction are success flags.
- The sender's eight handle fields are grouped in one object, as the receiver's are in the source, so that both share one proof.
- The doubly linked list, the tokenizer, the string map, URL encoding and number parsing are library code outside this repository, given the behaviour their users rely on; the URL encoder is any that keeps letters and digits and escapes the rest it does not keep with lower-case digits.
- Ownership of strings, and failures to allocate strings, in the parsers and in the refresh path; strings are values.
- Connection-string parsing and the other construction of clients; the state-change callback, tracing, logging, and the completion timestamp of a put, which nothing reads.
- The data body, message annotations and property reading of a received message: a message is read or rejected as a whole.
- Message contents of the single-event path, and the partition key, which only that path attaches.
- A failing ThreadAPI_Join, and API calls made while Destroy runs.
- The compiler's and the processor's ordering of unlocked reads of the thread-state flag: each test of it is part of one worker step.
