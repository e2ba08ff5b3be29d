# fxconfig: a verified model

`fxconfig` is the administration tool of Hyperledger Fabric-X: it creates, endorses, merges
and submits namespace transactions and waits until they are final. This project models the
parts of it in which correctness depends on more than one function, and proves what they
promise. `dafny verify dfyconfig.toml` checks everything.

- **Notification client** (`Subscribers`, `Hub`, `PubSub`, `Multiplexer`, `Delivery`,
  `Requests`, `Goroutines`). `Subscribers` has the critical sections of the client as methods of a class,
  proved against functions on the subscriber table. `Hub` and `Multiplexer` make each locked
  section, each channel operation and each send one step of a state machine; callers, stream
  receiver, sender, dispatcher, listener, cancellation and shutdown may take steps in any
  order. A caller's context may end at any step at which the code looks at it. `PubSub`
  states the atomic publish/subscribe topic that the client refines.
- **Endorsing and merging** (`Sequences`, `Transactions`, `FirstWins`, `Merge`, `MergeLaws`, `Endorse`,
  `TxMerge`). The loops work on message objects on the heap and are proved against a meaning
  on message contents; the laws are about that meaning. The meaning of a list of endorsements
  is the map `First` from MSP IDs to their first endorsement.
- **Commands** (`App`, `Finality`). Every external call has an arbitrary outcome and is
  recorded in a trace; the promises are predicates on the trace. `Finality` joins the trace
  of a command with a run of the notification client.
- **Namespace versions** (`NamespaceTx`). Prepared transactions, submissions and config
  updates in any order, under the committer rule stated at `namespace.go:17-19`.
- **Configuration** (`Separators`, `EnvNames`, `LoaderKeys`, `TlsConfig`,
  `Provider`): variable names that
  `info` prints and the loader reads, TLS inheritance, lazy initialization.

Where the code does not do what one would expect, the lemmas say so:

- An entry of the subscriber map need not have an upstream request behind it. A second
  caller joins without sending one, and the first may then roll back; `Requests.BackedIff`
  says exactly when an entry is backed, `Requests.OrphanedEntry` gives a run in which one is not.
  The comment at `notifications.go:105` ("already have an active subscription") is wrong there.
- The map need not stay empty after shutdown. `Requests.StaysEmptyIff` says exactly when it
  does. It fails when a call passed the error check before (`Requests.LateRegistration`), and
  after every clean close, because only other errors are stored
  (`Requests.RegistrationAfterClose`).
- Merging in two stages fails when a namespace has no endorsement within the block merged
  first, because validation rejects the empty entry that results: exactly when in
  `MergeLaws.MergeNests` and `MergeLaws.MergeIdempotent`, an input in
  `MergeLaws.StagedMergeFails`.
- Two kinds of input that validation accepts make `Merge` panic: more endorsement entries
  than namespaces, and a missing identity that the sort compares. The model returns
  `IndexOutOfRangePanic` and `NilIdentityPanic` for them; `MergeLaws.PanicsIff` has the exact
  conditions, `MergeLaws.EntryWithoutNamespace` and `MergeLaws.EndorsementWithoutIdentity` an
  input each. `Endorse` panics when it meets some entries but fewer than namespaces
  (`Endorse.EntryMissingIff`, `Endorse.SecondEntryMissing`).
- `tools/fxconfig/docs/README.md:172` promises that environment variables override any
  configuration parameter, and `info --format env` prints one for each that is set. But the loader
  registers no keys for structs behind a pointer, and each service has its TLS section behind
  one: `FXCONFIG_ORDERER_TLS_ENABLED` is printed and has no effect unless a config file has the
  key (`LoaderKeys.ServiceTlsIsNotRead`). `LoaderKeys.LeafIsReadIff` says exactly which printed
  variables are read, `LoaderKeys.ConfigIsReadIff` for the configuration as it is.
- Names alone: the printed name of a path and the variable of its key are equal exactly when
  no segment contains a dot, which no tag of the configuration does
  (`EnvNames.PrintedNameMatchesKey`, `EnvNames.DottedNamesDiffer`). Two paths share a printed name exactly when their
  converted segments give the same pieces between underscores
  (`EnvNames.PrintedNamesCollideIff`); so among paths without `_` and `-` a name determines the
  upper-cased path (`EnvNames.NamesDecode`), but not against paths that have them
  (`EnvNames.UnderscoreCollides`).

## Model

| member | source | states |
|---|---|---|
| `Subscribers.SubscriberTable.Register` | tools/fxconfig/internal/client/notifications.go:94-102 | the locked section appends the channel to the list of its transaction, leaves every other list alone, and reports whether the list was empty or absent |
| `Subscribers.SubscriberTable.Rollback` | tools/fxconfig/internal/client/notifications.go:109-136 | the loop removes the first occurrence of its own channel and nothing else, drops the entry when it was the last one, and does nothing when entry or channel is gone |
| `Subscribers.SubscriberTable.CollectOne` | tools/fxconfig/internal/client/notifications.go:261-268 | one transaction of a response: its entry goes, and one notification per registered channel is appended, in order |
| `Subscribers.SubscriberTable.Collect` | tools/fxconfig/internal/client/notifications.go:259-270 | for some iteration order of the response map, the notifications are the fan-out over the table as it was, and exactly the keys of the response leave the table |
| `Subscribers.SubscriberTable.TrySend` | tools/fxconfig/internal/client/notifications.go:272-278 | the non-blocking send fills an empty one-slot channel and drops the message on a full one |
| `Subscribers.SubscriberTable.Clear` | tools/fxconfig/internal/client/notifications.go:289-292 | the cleanup empties the table and touches no channel |
| `Subscribers.ParseResponse` | tools/fxconfig/internal/client/notifications.go:299-316 | a transaction is a key exactly when it timed out or some event names it; its status is that of the last such event by position, and unspecified without one |
| `Subscribers.ParsedUnique` | tools/fxconfig/internal/client/notifications.go:299-316 | no other map meets that promise |
| `Subscribers.LastEventIff` | tools/fxconfig/internal/client/notifications.go:308-313 | a transaction has no last event exactly when none names it, and otherwise it is the one at the last position that does |
| `Subscribers.WithoutSplit` | tools/fxconfig/internal/client/notifications.go:122-134 | removal takes out the first occurrence and keeps what stands before and after it in order |
| `Subscribers.DispatchConfluent` | tools/fxconfig/internal/client/notifications.go:252-270 | two iteration orders of the response map yield the same multiset of (channel, status) sends |
| `Hub.JoinKeeps` | tools/fxconfig/internal/client/notifications.go:93-102 | registering keeps the invariant: lists never empty or repeating, members enrolled and unanswered, every message owed to its receiver, nobody forgotten |
| `Hub.LeaveKeeps` | tools/fxconfig/internal/client/notifications.go:109-136 | rolling back keeps the invariant, and the caller is in no list afterwards |
| `Hub.SendKeeps` | tools/fxconfig/internal/client/notifications.go:272-278 | a send keeps the invariant, and the channel it goes to is empty, so the drop branch is not taken |
| `Hub.TakeKeeps` | tools/fxconfig/internal/client/notifications.go:173-187 | receiving the status keeps the invariant, and the status received is the one owed |
| `Hub.DropKeeps` | tools/fxconfig/internal/client/notifications.go:289-292 | clearing the table keeps the invariant |
| `Hub.DispatchKeeps` | tools/fxconfig/internal/client/notifications.go:252-270 | collecting under the lock, in any order of the response map, keeps the invariant |
| `Hub.WithoutMembers` | tools/fxconfig/internal/client/notifications.go:122-134 | a list without one channel has exactly the other members and no repetition |
| `Hub.NotificationsIff` | tools/fxconfig/internal/client/notifications.go:260-268 | a notification is collected exactly when its receiver is registered for a transaction of the response and it carries the status of that transaction |
| `PubSub.TopicUnique` | tools/fxconfig/internal/client/notifications.go:83-316 | a state of the client represents at most one state of the atomic topic |
| `PubSub.ReadyIsOwed` | tools/fxconfig/internal/client/notifications.go:237-280 | a status that lies ready for a caller is the one in the first response about its transaction since it registered, and it is ready exactly when it is pending or in the channel |
| `PubSub.JoinSimulates` | tools/fxconfig/internal/client/notifications.go:93-102 | the locked registration is one atomic subscription that the topic allows |
| `PubSub.LeaveSimulates` | tools/fxconfig/internal/client/notifications.go:109-136 | the rollback is one atomic unsubscription |
| `PubSub.DispatchSimulates` | tools/fxconfig/internal/client/notifications.go:252-270 | collecting under the lock is one atomic publication to exactly the channels registered for the transactions of the response, whatever the map order |
| `PubSub.SendSimulates` | tools/fxconfig/internal/client/notifications.go:272-278 | each single send is invisible to the topic |
| `PubSub.TakeSimulates` | tools/fxconfig/internal/client/notifications.go:173-187 | a wait that returns takes from the topic the status that lay ready, once |
| `PubSub.DropSimulates` | tools/fxconfig/internal/client/notifications.go:289-292 | the cleanup is one atomic shutdown |
| `Multiplexer.WakeOnce` | tools/fxconfig/internal/client/notifications.go:173-187 | whenever a status lies in a channel, its caller has received nothing yet |
| `Multiplexer.HubKept` | tools/fxconfig/internal/client/notifications.go:83-295 | every step of every goroutine keeps the invariant of the shared state |
| `Multiplexer.ThreadsKept` | tools/fxconfig/internal/client/notifications.go:193-295 | sends are pending only while the dispatcher delivers, goroutines run only between opening and joining, and the table counts as cleared only once the listener is done |
| `Multiplexer.RunSafe` | tools/fxconfig/internal/client/notifications.go:83-295 | the invariants hold in every state that any interleaving of callers, receiver, sender, dispatcher, listener, cancellation and shutdown reaches |
| `Goroutines.ResponsesPassOn` | tools/fxconfig/internal/client/notifications.go:204-252 | the dispatcher handles the responses received from the stream, unchanged and in order; at most the last one is lost, when the receiver stops |
| `Goroutines.GroupErrIsFirst` | tools/fxconfig/internal/client/notifications.go:204-282 | the error of the group is the first one that any of its goroutines returned |
| `Goroutines.StoredIff` | tools/fxconfig/internal/client/notifications.go:282-287 | after listen has returned, an error is stored exactly when the stream did not open or the first error a goroutine returned is not the cancellation of the context |
| `Goroutines.ShutdownCompletes` | tools/fxconfig/internal/client/notifications.go:200-294 | from every reachable state in which the group has been told to stop, the goroutines can exit and the listener can return without any step of a caller |
| `Goroutines.SubscribeCanReturn` | tools/fxconfig/internal/client/notifications.go:83-163 | from every reachable state a call of Subscribe can return by steps of its own, with its channel or the error of its context |
| `Goroutines.NeverOpened` | tools/fxconfig/internal/client/notifications.go:194-198 | a concrete run in which the stream cannot be opened and a later call is rejected |
| `Goroutines.StatusArrives` | tools/fxconfig/internal/client/notifications.go:83-280 | a concrete run in which a status goes all the way from the stream to the waiting caller |
| `Delivery.RefinesPubSub` | tools/fxconfig/internal/client/notifications.go:83-316 | forward simulation: every run of the client is a run of the atomic publish/subscribe topic |
| `Delivery.ActionsPossible` | tools/fxconfig/internal/client/notifications.go:83-316 | and each of its actions is one the topic allows: a channel subscribes once and takes only what was published to it |
| `Delivery.ExactlyOnce` | tools/fxconfig/internal/client/notifications.go:259-278 | in every run each channel is sent at most one message and none is dropped |
| `Delivery.ChannelInOnePlace` | tools/fxconfig/internal/client/notifications.go:93-102 | in every reachable state a channel occurs at most once across all lists and the pending sends, and a channel that still occurs there has an empty buffer |
| `Delivery.CallerFate` | tools/fxconfig/internal/client/notifications.go:83-187 | what a caller receives, has on its way, or still waits for is determined by the first response about its transaction dispatched since it registered; a refused caller is in no list |
| `Delivery.RollbackExact` | tools/fxconfig/internal/client/notifications.go:109-136 | rollback removes exactly its own channel, keeps the others in order, drops an emptied entry, and changes nothing when dispatcher or shutdown were faster, even if a newer list exists |
| `Delivery.RefusedForever` | tools/fxconfig/internal/client/notifications.go:88-91 | after Subscribe returned an error to a caller, its channel is in no list, now and in every later state |
| `Requests.RunRequests` | tools/fxconfig/internal/client/notifications.go:94-107 | in every run the creators of entries and the requests handed over are logged once each, and what was sent is what was handed over, up to the one in the hands of the sender |
| `Requests.RequestsConserved` | tools/fxconfig/internal/client/notifications.go:94-107 | per transaction the requests that went upstream never exceed the number of times its entry was created; each creation has one first caller, and each request belongs to a creation |
| `Requests.BackedIff` | tools/fxconfig/internal/client/notifications.go:94-160 | in every reachable state an entry has a request being pushed or handed over in its current lifetime, if and only if its first member is the call that created it and that call is not about to roll back |
| `Requests.AlwaysBacked` | tools/fxconfig/internal/client/notifications.go:94-160 | in a run in which no first caller for the transaction is cancelled, its entry is backed by a request, whatever happens to other transactions |
| `Requests.OrphanedEntry` | tools/fxconfig/internal/client/notifications.go:104-160 | without that hypothesis the claim fails: a concrete run in which the first caller rolls back after a second one has joined |
| `Requests.NothingAfterExit` | tools/fxconfig/internal/client/notifications.go:194-294 | once the goroutines of the listener have exited, or the stream could not be opened, no channel receives another value, nothing more goes upstream, and no first caller returns success any more |
| `Requests.StaysEmptyIff` | tools/fxconfig/internal/client/notifications.go:88-102 | after listen has returned, at its end or early, the table stays empty in every continuation if and only if it is empty, an error has been stored, and no call stands between the error check and its registration |
| `Requests.ErrStoredIff` | tools/fxconfig/internal/client/notifications.go:194-198 | after listen has returned, an error is stored exactly when the stream did not open or the goroutines ended with an error other than the cancellation by Close |
| `Requests.LateRegistration` | tools/fxconfig/internal/client/notifications.go:282-292 | a concrete run with a failed stream: a call passed the error check before and registers after the table was cleared |
| `Requests.RegistrationAfterClose` | tools/fxconfig/internal/client/notifications.go:284-292 | a concrete run with a clean close: no error is stored, so a call that starts after the table was cleared registers in it |
| `Finality.ReceivedMeansReported` | tools/fxconfig/internal/client/notifications.go:173-187 | a status other than unspecified that a wait returned is that of the last event, by position, for the transaction in the first response about it dispatched after this call registered |
| `Finality.AwaitedIsFinal` | tools/fxconfig/internal/app/submit.go:63-77 | a command whose trace awaited COMMITTED has seen such a response, for its own transaction and after its own registration |
| `Finality.TxSubmitIsFinal` | tools/fxconfig/internal/cli/v1/tx_submit.go:63-72 | tx submit --wait exits without error only if, in whatever run of the notification client its trace records, a response received from the stream settled its transaction as COMMITTED after its registration |
| `Finality.NamespaceIsFinal` | tools/fxconfig/internal/cli/v1/namespace.go:45-50 | namespace create and update with endorse and wait: the same |
| `Merge.Validate` | tools/fxconfig/internal/transaction/merge.go:55-78 | the nested loops return the first failing check, in the order of the source: at its transaction and namespace, with every earlier check passed |
| `Merge.CheckIff` | tools/fxconfig/internal/transaction/merge.go:55-78 | validation passes exactly when all namespaces equal those of the first transaction and no entry is empty |
| `Merge.CollectEntry` | tools/fxconfig/internal/transaction/merge.go:95-104 | the inner loop keeps an endorsement exactly when no earlier one of the namespace has its MSP ID |
| `Merge.CollectTransaction` | tools/fxconfig/internal/transaction/merge.go:94-105 | the middle loop adds one transaction to what each namespace has collected, or runs past the namespaces exactly when there are more entries than namespaces |
| `Merge.CollectAll` | tools/fxconfig/internal/transaction/merge.go:93-106 | the outer loop collects all transactions, or runs past the namespaces exactly when one has more entries than namespaces |
| `Merge.MergeEndorsements` | tools/fxconfig/internal/transaction/merge.go:80-109 | the triple loop leaves, per namespace, the deduplication of all endorsements over the transactions in order |
| `Merge.SortAll` | tools/fxconfig/internal/transaction/merge.go:43-53 | every list is replaced by some permutation in which no MSP ID precedes an earlier one, by first differing character or proper prefix, stable or not, unless a comparison meets a missing identity |
| `Merge.Merge` | tools/fxconfig/internal/transaction/merge.go:24-41 | on message objects: the error, or a transaction made of new messages with the merged contents, each list strictly increasing in MSP ID by first differing character or proper prefix; no input is modified |
| `FirstWins.DedupCorrect` | tools/fxconfig/internal/transaction/merge.go:93-106 | deduplication keeps distinct MSP IDs and exactly the first endorsement of each |
| `FirstWins.SortingDistinct` | tools/fxconfig/internal/transaction/merge.go:43-53 | any sorting of a list with distinct MSP IDs is strictly increasing, by first differing character or proper prefix, and keeps the first endorsements |
| `StringOrder.BelowIff` | tools/fxconfig/internal/transaction/merge.go:47-50 | the comparison, character by character, decides exactly the order by first differing position or proper prefix |
| `StringOrder.FirstDifference` | tools/fxconfig/internal/transaction/merge.go:47-50 | strings that differ first in one character compare as those characters do |
| `StringOrder.ProperPrefix` | tools/fxconfig/internal/transaction/merge.go:47-50 | a string compares below its proper extensions, and never above one |
| `FirstWins.IncreasingUnique` | tools/fxconfig/internal/transaction/merge.go:43-53 | a strictly increasing list is determined by its first endorsements |
| `FirstWins.CanonDetermined` | tools/fxconfig/internal/transaction/merge.go:43-109 | two lists merge to the same result exactly when they have the same first endorsement per MSP ID |
| `FirstWins.AnySortingIsCanon` | tools/fxconfig/internal/transaction/merge.go:43-53 | whichever sort runs after deduplication, the outcome is the same |
| `MergeLaws.SuccessIff` | tools/fxconfig/internal/transaction/merge.go:24-78 | Merge succeeds if and only if there are two transactions, the first is not nil, all namespaces agree, no entry is empty, none exceeds the namespaces, and no identity to be compared is missing |
| `MergeLaws.FailureMeans` | tools/fxconfig/internal/transaction/merge.go:24-78 | what each failure of Merge means: the first check that fails, in the order of the source, with every earlier one passed |
| `MergeLaws.PanicsIff` | tools/fxconfig/internal/transaction/merge.go:33-109 | on inputs that pass validation Merge runs past the namespaces exactly when a transaction has more entries than namespaces, and otherwise meets a missing identity exactly when a namespace has several organisations and the first endorsement of one carries none; else it succeeds |
| `MergeLaws.EntryWithoutNamespace` | tools/fxconfig/internal/transaction/merge.go:93-102 | a concrete input that passes validation and runs past the namespaces |
| `MergeLaws.EndorsementWithoutIdentity` | tools/fxconfig/internal/transaction/merge.go:46-51 | a concrete input that passes validation and makes the comparator meet a missing identity |
| `MergeLaws.MergeIsCanonical` | tools/fxconfig/internal/transaction/merge.go:43-109 | each merged list is the one list of first endorsements that is strictly increasing in MSP ID, by first differing character or proper prefix, of length the number of distinct MSP IDs; no other list qualifies |
| `MergeLaws.MergeKeepsFirst` | tools/fxconfig/internal/transaction/merge.go:93-106 | an endorsement is in the result exactly when it stands first for its MSP ID, over the transactions and their entries in order |
| `MergeLaws.MergeUnitesOrganisations` | tools/fxconfig/internal/transaction/merge.go:93-106 | the MSP IDs of a merged list are the union of those of the inputs |
| `MergeLaws.MergeNests` | tools/fxconfig/internal/transaction/merge.go:24-41 | merging a block first gives the same result exactly when something is left to merge it with and every namespace is endorsed within the block |
| `MergeLaws.ReorderKeepsOrganisations` | tools/fxconfig/internal/transaction/merge.go:24-53 | reordering the inputs never changes the MSP IDs of any merged list, nor their order |
| `MergeLaws.ReorderMergesIff` | tools/fxconfig/internal/transaction/merge.go:24-53 | inputs that merge still merge in another order exactly when a nil transaction does not come first and no identity that the comparator meets is missing |
| `MergeLaws.ReorderPanics` | tools/fxconfig/internal/transaction/merge.go:46-51 | a concrete pair that merges in one order and panics in the other |
| `MergeLaws.MergePermutes` | tools/fxconfig/internal/transaction/merge.go:24-53 | when endorsements of one namespace and MSP ID are equal, the result is invariant under permutation, except that a nil transaction must not come first |
| `MergeLaws.MergeTwiceOver` | tools/fxconfig/internal/transaction/merge.go:80-109 | merging the inputs twice over adds nothing |
| `MergeLaws.MergeIdempotent` | tools/fxconfig/internal/transaction/merge.go:24-41 | a result merged with itself is itself, exactly when every namespace has an endorsement |
| `MergeLaws.StagedMergeFails` | tools/fxconfig/internal/transaction/merge.go:70-74 | a concrete input that merges at once but not in two stages, and whose result does not merge with itself |
| `Endorse.CopyEntries` | tools/fxconfig/internal/transaction/endorse.go:32-37 | the clone has the existing entries, or one empty entry per namespace when there are none, in fresh storage |
| `Endorse.EndorseTx` | tools/fxconfig/internal/transaction/endorse.go:27-78 | on message objects: the first failing step with its index, or a fresh transaction that has, at the end of the entry of each namespace, one endorsement with the identity of the signer and its signature over the encoding of that namespace under the transaction ID; the input is not modified |
| `Endorse.SignFromAppends` | tools/fxconfig/internal/transaction/endorse.go:45-75 | the loop appends the endorsement of the signer to the entry of every remaining namespace and touches no other entry; it succeeds when each namespace has an entry and can be signed |
| `Endorse.EndorseMeans` | tools/fxconfig/internal/transaction/endorse.go:45-77 | after a successful endorsement the entry of each namespace ends in an endorsement with the identity of the signer and its signature over the encoding of that namespace under the transaction ID, after what was there; further entries are unchanged |
| `Endorse.EndorseFailsIff` | tools/fxconfig/internal/transaction/endorse.go:28-58 | each failure is reported exactly in its own case, at the first namespace that cannot be encoded, or not signed, or has no entry |
| `Endorse.EndorsesIff` | tools/fxconfig/internal/transaction/endorse.go:27-78 | endorsing succeeds if and only if there is a transaction, the signer has an identity, each namespace has an entry (or there are none yet), and each can be encoded and signed |
| `Endorse.EntryMissingIff` | tools/fxconfig/internal/transaction/endorse.go:66-74 | a signer that can sign everything fails exactly on transactions with some entries but fewer than namespaces, by indexing past them |
| `Endorse.SecondEntryMissing` | tools/fxconfig/internal/transaction/endorse.go:68-68 | a concrete transaction of that kind |
| `Endorse.EndorseOnce` | tools/fxconfig/internal/transaction/endorse.go:27-78 | one endorsement appends exactly one signature per namespace and leaves further entries alone |
| `Endorse.InTurnAppends` | tools/fxconfig/internal/transaction/endorse.go:45-77 | endorsing one after another appends the endorsements of the organisations in their order to the entry of every namespace, and touches no further entry |
| `Endorse.ParallelIsSequential` | tools/fxconfig/internal/transaction/endorse.go:27-78 | merging separately endorsed copies, in any order, equals endorsing in turn, in any order, deduplicated and sorted by MSP ID; sorted only, when no organisation occurs twice; the merge succeeds exactly when there is no entry without a namespace |
| `TxMerge.OneIDIff` | tools/fxconfig/internal/cli/v1/tx_merge.go:99-103 | the set of decoded IDs has one element exactly when there is an input and all IDs are equal |
| `TxMerge.ResolveInputs` | tools/fxconfig/internal/cli/v1/tx_merge.go:74-106 | succeeds exactly when every input decodes, there is one, and all IDs are equal; then returns that ID and the transactions in order |
| `TxMerge.TxMergeCommand` | tools/fxconfig/internal/cli/v1/tx_merge.go:20-72 | produces a transaction exactly when the IDs agree and the contents merge, with that ID and the merged contents |
| `App.AdminApp.ConfigVersion` | tools/fxconfig/internal/app/create.go:45-55 | opens, asks and closes the query client, and nothing else; a version exactly when all went well, and then the one the client answered |
| `App.AdminApp.CreateNamespace` | tools/fxconfig/internal/app/create.go:25-42 | uses only the query client; on success the transaction writes, for the namespace of the input at its version, the policy that was loaded, under the config version that was queried |
| `App.AdminApp.EndorseTransaction` | tools/fxconfig/internal/app/endorse.go:17-44 | on success the result is the transaction with the endorsements of some signer appended; a failure has no other effect |
| `App.AdminApp.SubmitTransaction` | tools/fxconfig/internal/app/submit.go:25-40 | broadcasts at most once, only this transaction, closes what it opened; no error exactly when the broadcast was accepted |
| `App.AdminApp.SubmitTransactionWithWait` | tools/fxconfig/internal/app/submit.go:43-78 | as above, with a successful subscription before the broadcast; success means the status came on that subscription after an accepted broadcast, and it is the only one the run received; both clients are closed exactly once, after their last use |
| `App.AdminApp.DeployNamespace` | tools/fxconfig/internal/app/deploy.go:53-96 | for all flags and all outcomes of external calls: at most one broadcast, of a transaction created from the input and endorsed before, only if endorse and (submit or wait); subscribe first when waiting; every client closed once after its last use; no output and no error exactly when a broadcast was accepted and all went well; an output carries the transaction ID and the created transaction, endorsed when that was asked for |
| `App.SubmittedDeploy` | tools/fxconfig/internal/app/deploy.go:83-95 | the promises of a deployment hold for a query part, an endorsement and any submission after them |
| `App.BracketedRun` | tools/fxconfig/internal/app/submit.go:49-72 | opening both clients, a prefix of subscribe, broadcast, wait, and the deferred closes make a tidy run |
| `App.AdminApp.TxSubmitCommand` | tools/fxconfig/internal/cli/v1/tx_submit.go:63-74 | tx submit --wait, on a decoded file, exits without error if and only if all went well and it awaited COMMITTED; without --wait, exactly when the broadcast was accepted |
| `App.AdminApp.NamespaceCommand` | tools/fxconfig/internal/cli/v1/namespace_create.go:67-101 | namespace create and update: the promises of the deployment; with endorse and wait no error if and only if all went well and COMMITTED was awaited; with endorse and submit only, no error exactly when all went well |
| `NamespaceTx.RunSound` | tools/fxconfig/internal/transaction/namespace.go:15-40 | under the committer rule, in every run the commits to one namespace write ever higher versions and are counted by the version |
| `NamespaceTx.VersionCountsCommits` | tools/fxconfig/internal/transaction/namespace.go:34-40 | a namespace exists exactly when a transaction for it committed, and its version rises by exactly one per further commit |
| `NamespaceTx.OneCommitPerVersion` | tools/fxconfig/internal/transaction/namespace.go:34-40 | of all transactions prepared against one version (or the absence) of a namespace at most one commits, and once |
| `NamespaceTx.ConfigUpdateInvalidates` | tools/fxconfig/internal/transaction/namespace.go:17-25 | nothing prepared before a channel config update commits after it |
| `NamespaceTx.FreshTransactionCommits` | tools/fxconfig/internal/transaction/namespace.go:17-40 | a transaction prepared and submitted at once commits and installs its policy exactly when it names the present version, or -1 for a new namespace; otherwise it changes nothing |
| `EnvNames.Flatten` | tools/fxconfig/internal/cli/v1/info.go:89-111 | prints, for some order of the maps, one line per leaf of the tree, with the name of its path and its text, each leaf once and none left out |
| `EnvNames.SameLines` | tools/fxconfig/internal/cli/v1/info.go:89-111 | two orders of the maps print the same multiset of lines |
| `EnvNames.SortedOutputUnique` | tools/fxconfig/internal/cli/v1/info.go:49-54 | the sorted output does not depend on the order in which maps are ranged over |
| `EnvNames.PrintedNameMatchesKey` | tools/fxconfig/internal/config/load.go:50-53 | the printed name of a path and the variable that belongs to its key are equal names, if and only if no segment contains a dot |
| `EnvNames.KeyMatchesIff` | tools/fxconfig/internal/config/load.go:50-53 | the variable that belongs to any key is the one printed for any path exactly when their converted segments, split at underscores, give the same pieces |
| `EnvNames.PrintedNamesCollideIff` | tools/fxconfig/internal/cli/v1/info.go:92-95 | any two paths are printed under one name exactly when their converted segments, split at underscores, give the same pieces |
| `EnvNames.DottedNamesDiffer` | tools/fxconfig/internal/config/load.go:50-53 | a concrete path with a dot, for which the two names differ |
| `EnvNames.LineReads` | tools/fxconfig/internal/cli/v1/info.go:89-111 | a printed line, cut at its first `=`, gives the name and the text; the text of a list, cut at commas, gives the items back |
| `EnvNames.UpperCharIs` | tools/fxconfig/internal/cli/v1/info.go:92-92 | upper-casing moves each ASCII letter to its place among the capitals and changes nothing else |
| `EnvNames.KeySplits` | tools/fxconfig/internal/config/load.go:189-194 | a key splits at its dots back into the path of tags |
| `Separators.JoinedSplit` | tools/fxconfig/internal/cli/v1/info.go:92-95 | a string is recovered from its pieces, so different pieces mean different names |
| `Separators.SplitJoined` | tools/fxconfig/internal/cli/v1/info.go:100-105 | pieces without the separator are recovered from the joined string |
| `EnvNames.DecodesIff` | tools/fxconfig/internal/cli/v1/info.go:92-95 | a printed name splits back into the prefix and the upper-cased path if and only if no segment contains `_` or `-` |
| `EnvNames.UnderscoreCollides` | tools/fxconfig/internal/cli/v1/info.go:92-95 | two concrete paths with one name, one of them with an underscore in a segment |
| `EnvNames.NamesDecode` | tools/fxconfig/internal/cli/v1/info.go:92-95 | without `_` and `-` in segments, names are equal exactly when the upper-cased paths are |
| `EnvNames.SplitTail` | tools/fxconfig/internal/cli/v1/info.go:92-95 | the part of a name after the prefix splits into the pieces of the converted segments |
| `LoaderKeys.Viper.RegisterStructKeys` | tools/fxconfig/internal/config/load.go:103-146 | the recursive loop registers exactly the keys of the tagged paths: squashed structs inline, structs behind pointers and unsupported kinds not at all |
| `LoaderKeys.PathsTagged` | tools/fxconfig/internal/config/load.go:115-126 | no registered or printed path is empty or has an empty segment |
| `LoaderKeys.RegisteredNamesArePrinted` | tools/fxconfig/internal/config/load.go:103-194 | every registered key belongs to a path, and its variable is the printed one exactly when the path has no dots |
| `LoaderKeys.RegisteredIff` | tools/fxconfig/internal/config/load.go:126-144 | a setting exists exactly when a route of fields leads to it, and is registered exactly when some such route crosses no struct behind a pointer (squashed ones aside) and ends in a field of a supported kind |
| `LoaderKeys.PrintedIsReadIff` | tools/fxconfig/internal/config/load.go:50-53 | the variable printed for a path is read exactly when the loader knows a key with the same pieces |
| `LoaderKeys.LeafIsReadIff` | tools/fxconfig/internal/config/load.go:103-146 | for settings without separators in their paths: the variable printed for one is read exactly when a direct route leads to it, up to case, or a config file has a key of the same name |
| `LoaderKeys.ConfigIsReadIff` | tools/fxconfig/internal/config/config.go:20-27 | of the settings of the configuration exactly those outside the TLS sections of services are read from the variables printed for them, and those inside once a config file has the key |
| `LoaderKeys.ServiceTlsIsNotRead` | tools/fxconfig/internal/config/config.go:140-144 | a concrete setting that is printed but not read, until a config file has its key |
| `TlsConfig.TLSConfig.Normalize` | tools/fxconfig/internal/config/config.go:72-77 | the flag becomes explicit, on exactly if it was on; nothing else changes |
| `TlsConfig.InheritFrom` | tools/fxconfig/internal/config/config.go:80-103 | with a parent, a fresh section that has, setting by setting, the value of the child if it has one and that of the parent if not, and a root list of its own; without one, the receiver itself |
| `TlsConfig.InheritIff` | tools/fxconfig/internal/config/config.go:80-103 | taking each setting from the child if it has one and from the parent if not is exactly the inherited value |
| `TlsConfig.InheritLaws` | tools/fxconfig/internal/config/config.go:80-103 | inheritance is associative with the empty section as identity, and a flag the child set, false included, wins |
| `TlsConfig.Config.ResolveTLS` | tools/fxconfig/internal/config/config.go:32-43 | the parent gets an explicit flag and keeps all else, and every service gets a fresh section with explicit flag that has, setting by setting, its own value if it had one and that of the parent if not, and a fresh root list; no two of the sections are one object or share a root list |
| `TlsConfig.Config.ResolveTwice` | tools/fxconfig/internal/config/config.go:32-43 | calling ResolveTLS twice leaves every section with the value that one call gives it |
| `Provider.Lazy.Get` | tools/fxconfig/internal/provider/provider.go:43-52 | one call of Get is a run of the concurrent machine in which only that caller moves; it stores an outcome if there was none and returns the stored one |
| `Provider.GetOnce` | tools/fxconfig/internal/provider/provider.go:43-52 | for any number and interleaving of callers: validation at most once, the factory at most once and only after successful validation, and all callers get the same outcome |
| `Provider.OutcomeStays` | tools/fxconfig/internal/provider/provider.go:43-52 | the stored outcome never changes again and nothing is validated or built anew |
| `Provider.OutcomeIsBrought` | tools/fxconfig/internal/provider/provider.go:44-49 | the stored outcome is the error of the failing validation, or else the instance and error that the factory returned; one step of a run brings it |

## Left out

- gRPC and TLS connections, envelopes and the streams themselves: opening, receiving, sending
  and failing are steps with arbitrary outcome.
- Real time: a timeout or a cancellation is a step that may happen wherever the code checks
  for it. A wait that times out changes nothing and is not a step.
- Progress: the proofs are about safety, and about what can be reached
  (`Goroutines.ShutdownCompletes`, `Goroutines.StatusArrives`). Nothing is said about how long
  a request or a notification takes, or that a goroutine is scheduled.
- Cryptography, MSP loading and policy parsing: a signer is a partial function from messages
  to signatures, marshalling a partial function of namespace and transaction ID, a policy is
  bytes or a failure.
- Protobuf: `proto.Equal` is equality of contents, `proto.CloneOf` a copy, and nil entries
  read as empty, as the getters do. A list of entries without members is the nil one, as
  decoding produces it. Identities are values, so that the model does not show
  that merged transactions share the messages of single endorsements with their inputs.
- `App.AdminApp.NamespaceCommand`: writing the output file may fail at will, so without a
  broadcast only one direction of its exit status is stated.
- `Merge.MergeEndorsements`: the lists are collected in an array and become messages only
  when the result is built.
- `Subscribers.SubscriberTable.Rollback`: lists of channels are sequence values; that the
  source shifts the backing array of a slice in place is not shown.
- `sort.Slice` and `slices.Sort`: any outcome without inversions, not the algorithms.
- `App`: a client is obtained from its provider and closed by one command; reusing a closed
  client in a second command is outside the model. That `Close` may report an error is
  ignored, as in the source. Loading the signing identity fails or succeeds anew each time.
- `Finality.AwaitedIsFinal`: the number of the status COMMITTED is defined in
  fabric-x-common, which is not part of this model; it is a parameter other than the
  unspecified status. Without `--endorse` a waiting deployment returns before submitting, so
  nothing is promised for it.
- `NamespaceTx.RunSound`: the committer is not part of this model, its rule is taken from the
  comment in `namespace.go`; a first policy gets version 0, as `tools/fxconfig/integration/single_org_test.go:222-237` expects.
  Versions are unbounded, without the wrap-around of `uint64`.
- `EnvNames.Flatten`: scalars are their printed text. Upper-casing covers ASCII letters only.
  Lower-casing of keys and precedence of sources inside viper are not modelled.
- `LoaderKeys.Viper.RegisterStructKeys`: which keys are registered, not the default values.
- `LoaderKeys.ConfigIsReadIff`: the loader knows the keys it registered and those of config
  files, given as a set of paths; how viper finds and parses the files is not modelled. A field
  has one tag for both the loader and the printer, as every field of the configuration does.
- `TlsConfig.Config.ResolveTLS`: requires that no service section is the parent section,
  which holds in the source because the parent is embedded by value. The flag objects may be
  shared with the parent, as in the source.
- `Provider.GetOnce`: a factory that calls `Get` again on its own provider, or panics.
- The JSON codec, file and path validators, flags, printing, version commands, `namespace
  list`, the other tools of the repository and the Arma protocols described in `docs/`:
  wrappers over code that is elsewhere, or independent of the above.
