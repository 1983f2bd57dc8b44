# Ardos, modelled and proved in Dafny

This project models the parts of the Ardos distributed-object server whose behaviour is
decided by its own code, and proves what that behaviour promises. `dafny verify
dfyconfig.toml` checks all of it.

Pure functions state what an operation does to a state. Where the original works by
updating fields, a class does the same in place, each method proved against the function
it is named after; theorems about runs are proved about the functions, and so hold of the
classes.

**The client interest protocol.** `InterestModel` is one client participant as a state and
one function per handler; `ClientParticipant` is the class. `InterestMirror`,
`InterestLanguage`, `InterestSubscriptions` and `InterestOperations` are the theorems over
all runs: the client's view is the agent's, objects enter and leave in a regular language,
subscriptions are exactly the open interests, operations finish once and never dangle.
`InterestEffects` says what each event does to the client's view, in terms of sets and
messages alone. `ParentingRule` has the zone window of a Cartesian parent.

**Channel routing.** `Routing` has the reference counts, the channel and bucket index and
the broker bindings as functions; `MessageDirector` the subscribers and the process as
classes; `Cluster` several processes and their broker queues as steps, with delivery
exactly once to whoever stays interested; `ClusterEffects` says who becomes interested, and
follows a message from subscribing to handling it.

**The DC wire codec.** `DcBytes` and `DcSchema` have the wire format as a recursive
encoder and decoder, `DcCodec` their round trips and the promise of fixed sizes,
`DcLayout` the format byte by byte. `DcMachine` is the packer's stack machine as
functions, `DcPacker` the class; `DcReaders`, `DcWalk` and `DcPacking` prove that its
loops compute the wire format; `DcAudit` settles what its validation misses,
`DcValidation` what it looks at and `DcErrors` which errors are noted. `DcParameters` has
the size flags of the parameter constructors. `DcField` adds names; `DcLexer`, `DcText`
and `DcParser` are the printed form, the value grammar and its actions, and the two undo
each other; `PrintedText`, `ParsedText` and `TextTokens` say what the characters are.
`DatabaseCodec` is the second encoding, as BSON, and `DatabaseLayout` what it looks like.
`DcSwitch` builds switches, and `DcSwitchWire` shows that the packer selects what they do;
`DcClass` and `DcInheritance` resolve inheritance; `PackInt` and `PackIntLayout` have
divisors and moduli; `PrimeNumberGenerator` the primes behind the file hash, with `Primes`
and `PrimeGaps` for their arithmetic.

**The WebSocket decoder.** `WebSocket` decodes frames and assembles messages as functions
and proves that chunk boundaries do not matter; `WebSocketEffects` says what the bytes mean
and what each frame does; `WebSocketClient` is the class.

`Common` has what several parts share.

Ardos is C++; its integers are modelled as numbers, with widths, truncation and wrap-around
written out where they matter. Line numbers below are those of the repository.

Where the code does not do what it seems meant to do, the model follows the code and a
lemma says exactly when the intended property holds and gives inputs on which it fails:

- Unsubscribing a range drops its buckets from the index although another range of the same
  subscriber may touch them (`Routing.LosesIffShares`, `Routing.LostBucketMisses`).
- A location that is pending in two operations keeps the older one, so a message can look
  up an operation that is gone (`InterestOperations.OverlapDangles`).
- Validation does not look into fixed-count arrays of variable-size elements without
  limits, nor at the key of an equal-size switch without limits. It is exact if and only if
  no record leads it there (`DcAudit.ExactIffNeverReached`), and whenever a value contains
  such a field something wrong validates (`DcAudit.UsedFieldsEscape`).
- Variable-size blobs, strings of fixed length, fixed arrays of fixed-size elements, arrays
  of arrays, switches and uint32uint8arrays do not survive the database, and what contains
  none of these does (`DatabaseCodec.ComesBackIff`, `DatabaseCodec.EveryValueComesBackIff`);
  but losses and gains can cancel (`DatabaseCodec.LossesAndGainsCancel`).
- The lexer misses overflows: exactly those in no prefix of which the product exceeds a
  multiple of 2^64 by little (`DcLexer.ScannedExactlyIfItFits`, `DcLexer.NoticedIff`). In
  its quoted strings a decimal escape drops its first digit, and the digit 7 ends an octal
  one (`DcLexer.DecimalEscapesDropADigit`, `DcLexer.OctalEscapesIff`). The printer uses
  neither.
- The upper half of a 64-bit WebSocket length is lost when bit 31 is set
  (`WebSocket.FramesAreRead`), the size limit depends on chunk boundaries
  (`WebSocket.LimitDependsOnChunks`), and a close frame with a reason lacks its code
  (`WebSocket.CloseFramesAreCutShort`).
- pack_int and pack_int64 disagree when the modulus is above 2^31
  (`PackInt.PathsAgreeIffModulusIsSmall`). Through a divisor, negative numbers do not come
  back, nor those whose product does not fit 32 bits (`PackInt.NumbersComeBackIff`).
- A constructor is found by name but is not among the inherited fields
  (`DcClass.NamesAgreeIff`).

## Model

| member | source | states |
|---|---|---|
| InterestMirror.ClientMirrorsAgent | src/clientagent/client_participant.cpp:423-666 | Over every run of a client (messages from the cluster and the client, timeouts, in any order), each message sent made sense when it was sent (no entrance of an object that is already there, no update or leaving of one that is not), and while connected the set of objects the client has been told of is exactly `_seenObjects`, which is exactly the keys of `_visibleObjects`; the same holds for owned objects |
| InterestMirror.StepMirrors | src/clientagent/client_participant.cpp:250-705 | One event keeps that agreement, whatever state satisfies it |
| InterestMirror.CloseZonesMirrors | src/clientagent/client_participant_interest.cpp:321-364 | Closing zones tells the client of exactly the objects it forgets; when a session object stops the loop half way the client is disconnected, and only then may the two views differ |
| InterestMirror.EnterMirrors | src/clientagent/client_participant.cpp:823-853 | An entrance reaches the client only for an object it does not have |
| InterestMirror.ReplayMirrors | src/clientagent/interest_operation.cpp:82-104 | Replaying the held-back messages keeps the agreement |
| InterestLanguage.ObjectsComeAndGo | src/clientagent/client_participant.cpp:423-666 | For every object that is never owned, declared or an UberDOG, the messages about it over any run are a prefix of (ENTER (SET_FIELD, SET_FIELDS or LOCATION)* LEAVING)*, and while connected the last visit is open exactly if the object is in `_seenObjects`; pending operations may overlap |
| InterestSubscriptions.SubscribedToInterests | src/clientagent/client_participant_interest.cpp:136-219 | After any run that leaves the client connected, the location channels it is subscribed to are exactly those of the (parent, zone) pairs covered by an open interest: re-used ids, changed parents and overlapping interests included |
| InterestSubscriptions.AddInterestSubscribes | src/clientagent/client_participant_interest.cpp:136-206 | Opening or re-opening an interest keeps the subscriptions exact |
| InterestSubscriptions.AddInterestEffect | src/clientagent/client_participant_interest.cpp:136-206 | What one AddInterest changes: exactly the new locations are subscribed, and of a re-used id exactly the locations are dropped that no other interest covers |
| InterestSubscriptions.RemoveInterestSubscribes | src/clientagent/client_participant_interest.cpp:295-319 | Removing an interest keeps the subscriptions exact |
| InterestSubscriptions.RemoveInterestEffect | src/clientagent/client_participant_interest.cpp:295-319 | Removing an interest drops exactly the locations that no other interest covers |
| InterestSubscriptions.WindowFollowsAvatar | src/clientagent/client_participant_interest.cpp:557-599 | When the avatar moves, the subscriptions change by exactly the difference of the old and the new window, less what other interests cover |
| InterestOperations.OperationsAreOrderly | src/clientagent/client_participant.cpp:528-590 | The invariant of pending operations over every run; its part about pending objects holds as long as no two pending operations covered one location |
| InterestOperations.PendingObjectsAreLoading | src/clientagent/client_participant.cpp:528-590 | If no two operations ever covered one location at once, no lookup of an operation that is gone ever happens, and every pending object points to a live operation that will introduce it |
| InterestOperations.OperationsFinishOnce | src/clientagent/interest_operation.cpp:53-104 | On every run each operation finishes at most once, and one that is still pending has not finished |
| InterestOperations.FinishKeeps | src/clientagent/interest_operation.cpp:53-104 | Finishing keeps that invariant; no replayed message refers to the operation that was just erased (which generates the client is told of, `InterestEffects.FinishedOperationsEnter` says) |
| InterestOperations.OverlapDangles | src/clientagent/client_participant.cpp:534-541 | The condition is needed: from every connected state in which two operations load one location and the one that would hold back an entrance there holds nothing yet, three events make the client look up an operation that is gone |
| InterestOperations.OverlapsCanDangle | src/clientagent/client_participant.cpp:534-541 | In every valid configuration a run gets there: the cluster can open two interests over one location, which the permissions of the client do not touch |
| InterestModel.ConfigsExist | src/clientagent/parenting_rule.cpp:65-108 | Any settings whose grid rules are accepted are those of a valid configuration: some order of iteration enumerates every finite set |
| ClientParticipant.AllocationFindsFreeId | src/clientagent/client_participant_interest.cpp:487-510 | The internal id that is allocated is in use only if all ids are |
| ClientParticipant.InterestOperation.SetExpected | src/clientagent/interest_operation.cpp:110-115 | The first total is kept; later ones change nothing |
| ClientParticipant.InterestOperation.QueueExpected | src/clientagent/interest_operation.cpp:117-119 | One more generate, at the end |
| ClientParticipant.InterestOperation.QueueDatagram | src/clientagent/interest_operation.cpp:121-123 | One more held-back message, at the end |
| ClientParticipant.ClientParticipant.Shutdown | src/clientagent/client_participant.cpp:122-222 | The whole state after a disconnect, and what is still published: an answer to whoever asked for a pending operation, and the deletion of session objects |
| ClientParticipant.ClientParticipant.SendDisconnect | src/clientagent/client_participant.cpp:713-737 | A disconnect that tells the client why |
| ClientParticipant.ClientParticipant.LookupObject | src/clientagent/client_participant.cpp:781-801 | The class of an object that is an UberDOG, owned, visible or declared, in this order |
| ClientParticipant.ClientParticipant.LookupInterests | src/clientagent/client_participant_interest.cpp:208-219 | Exactly the open interests that cover a location |
| ClientParticipant.ClientParticipant.IsSeenByOther | src/clientagent/client_participant_interest.cpp:142-160 | Whether another open interest covers the zone |
| ClientParticipant.ClientParticipant.NewZones | src/clientagent/client_participant_interest.cpp:136-160 | Exactly the zones that no open interest covers yet |
| ClientParticipant.ClientParticipant.KilledZones | src/clientagent/client_participant_interest.cpp:161-180 | Exactly the zones that a re-opened interest gives up and no other covers |
| ClientParticipant.ClientParticipant.SoleZones | src/clientagent/client_participant_interest.cpp:295-312 | Exactly the zones that only the removed interest covers |
| ClientParticipant.ClientParticipant.CloseZones | src/clientagent/client_participant_interest.cpp:321-364 | The loop over visible objects against its specification: who is told, who is forgotten, and that a session object ends it with a disconnect |
| ClientParticipant.ClientParticipant.AddInterest | src/clientagent/client_participant_interest.cpp:136-206 | The whole new state and all messages of AddInterest |
| ClientParticipant.ClientParticipant.RemoveInterest | src/clientagent/client_participant_interest.cpp:295-319 | The whole new state and all messages of RemoveInterest |
| ClientParticipant.ClientParticipant.RequestParentClass | src/clientagent/client_participant_interest.cpp:366-392 | A parent class is asked for once |
| ClientParticipant.ClientParticipant.AllocateInternalInterestId | src/clientagent/client_participant_interest.cpp:487-510 | The loop finds the first free id after the last one |
| ClientParticipant.ClientParticipant.ApplyAvatarParentRule | src/clientagent/client_participant_interest.cpp:512-555 | The window of a rule becomes an internal interest |
| ClientParticipant.ClientParticipant.UpdateAvatarParentRule | src/clientagent/client_participant_interest.cpp:557-599 | The internal interest follows the window |
| ClientParticipant.ClientParticipant.ClearAvatarParentRule | src/clientagent/client_participant_interest.cpp:601-613 | The internal interest goes away with the rule |
| ClientParticipant.ClientParticipant.HandleObjectEntrance | src/clientagent/client_participant.cpp:823-853 | An object becomes visible and seen, and the client is told, unless it was seen already or is an owned session object |
| ClientParticipant.ClientParticipant.HandleRemoveOwnership | src/clientagent/client_participant.cpp:810-821 | Ownership ends, and the avatar with it |
| ClientParticipant.ClientParticipant.HandleChangeLocation | src/clientagent/client_participant.cpp:954-988 | The client is told a new location; an avatar takes its rule along |
| ClientParticipant.ClientParticipant.TryQueuePending | src/clientagent/client_participant.cpp:877-888 | A message about a pending object is held back by its operation |
| ClientParticipant.ClientParticipant.HandleDelete | src/clientagent/client_participant.cpp:463-505 | Deleting an object: a session object disconnects the client, and seen and owned objects are reported and forgotten |
| ClientParticipant.ClientParticipant.HandleMove | src/clientagent/client_participant.cpp:594-666 | A move keeps, loads, hides or disconnects, in all branches |
| ClientParticipant.ClientParticipant.HandleEnterLocation | src/clientagent/client_participant.cpp:528-551 | An entrance into a location that is still loading is held back by that operation, and its object is pending; any other is handled at once |
| ClientParticipant.ClientParticipant.HandleUpdate | src/clientagent/client_participant.cpp:423-461 | A field update is delivered, held back, or dropped |
| ClientParticipant.ClientParticipant.FinishOperation | src/clientagent/interest_operation.cpp:53-104 | Generates in order, DONE, erase, replay: the whole effect of Finish |
| ClientParticipant.ClientParticipant.HandleEnterInterest | src/clientagent/client_participant.cpp:553-571 | A generate that completes an operation finishes it |
| ClientParticipant.ClientParticipant.HandleZonesCount | src/clientagent/client_participant.cpp:573-589 | A total that completes an operation finishes it |
| ClientParticipant.ClientParticipant.HandleDeclaration | src/clientagent/client_participant.cpp:342-410 | Declared and session objects |
| ClientParticipant.ClientParticipant.HandleAddInterest | src/clientagent/client_participant.cpp:280-296 | Interests that the cluster opens |
| ClientParticipant.ClientParticipant.HandleRemoveInterest | src/clientagent/client_participant.cpp:298-313 | Interests that the cluster removes |
| ClientParticipant.ClientParticipant.HandleGetClassResp | src/clientagent/client_participant_interest.cpp:394-463 | The answer about a parent class starts its rule |
| ClientParticipant.ClientParticipant.HandleEnterOwner | src/clientagent/client_participant.cpp:507-526 | Ownership begins |
| ClientParticipant.ClientParticipant.HandleChangingOwner | src/clientagent/client_participant.cpp:668-686 | Ownership ends when another owner takes over |
| ClientParticipant.ClientParticipant.HandleDatagram | src/clientagent/client_participant.cpp:250-705 | Every message of the cluster, dispatched |
| ClientParticipant.ClientParticipant.HandleClientAddInterest | src/clientagent/client_participant_interest.cpp:22-79 | Interests that the client opens, within its permissions |
| ClientParticipant.ClientParticipant.HandleClientRemoveInterest | src/clientagent/client_participant_interest.cpp:81-111 | Interests that the client removes, within its permissions |
| ClientParticipant.Serve | src/clientagent/client_participant.cpp:250-705 | A client that handles a sequence of events ends in the state the specification gives, so all the theorems about runs are about it |
| ParentingRule.AcceptCartesian | src/clientagent/parenting_rule.cpp:65-108 | The 64-bit check of a rule accepts exactly the grids with a cell whose last cell is a 32-bit zone |
| ParentingRule.SquareFits | src/clientagent/parenting_rule.cpp:85-106 | The product in the check does not overflow 64 bits |
| ParentingRule.CartesianGridZones | src/clientagent/parenting_rule.cpp:218-260 | For every accepted rule and every avatar zone, exactly the cells of the grid within Chebyshev distance radius, none of them computed with overflow |
| ParentingRule.WindowIsSymmetric | src/clientagent/parenting_rule.cpp:218-260 | A cell is in the window of another exactly if the other is in its own |
| Routing.SubscribeChannelKeeps | src/messagedirector/channel_subscriber.cpp:92-121 | Counts, index and bindings after a subscription, and that they still agree with the subscribers |
| Routing.UnsubscribeChannelKeeps | src/messagedirector/channel_subscriber.cpp:123-156 | The same after an unsubscription; the count was positive |
| Routing.SubscribeRangeKeeps | src/messagedirector/channel_subscriber.cpp:158-192 | The same for every bucket of a range |
| Routing.UnsubscribeRangeKeeps | src/messagedirector/channel_subscriber.cpp:194-240 | The same; no count underflows, and the buckets lost to the index are named |
| Routing.NewcomerKeeps | src/messagedirector/channel_subscriber.cpp:44-48 | A new subscriber disturbs nothing |
| Routing.LosesIffShares | src/messagedirector/channel_subscriber.cpp:213-228 | Unsubscribing a range loses a bucket to the index exactly if another range of the same subscriber touches the bucket too |
| Routing.LostBucketMisses | src/messagedirector/channel_subscriber.cpp:213-228 | Then there is a channel that a scan of all subscribers would deliver and the index does not |
| Routing.DisjointRangesLoseNothing | src/messagedirector/channel_subscriber.cpp:213-228 | Ranges in different buckets lose nothing |
| Routing.NothingLostNothingMissed | src/messagedirector/message_director.cpp:335-357 | With nothing lost, the index finds exactly whom a scan of all initialised subscribers finds |
| Routing.ReceiversAreBound | src/messagedirector/channel_subscriber.cpp:92-192 | The queue is bound for every channel that somebody here is interested in |
| MessageDirector.BindingsMatchHolders | src/messagedirector/channel_subscriber.cpp:92-240 | A binding exists exactly if a subscriber holds the channel or a range in its bucket |
| MessageDirector.MessageDirector.Construct | src/messagedirector/channel_subscriber.cpp:44-48 | A subscriber before Init is in no index |
| MessageDirector.MessageDirector.Init | src/messagedirector/channel_subscriber.cpp:50-68 | Init puts what was subscribed before into the index |
| MessageDirector.MessageDirector.SubscribeChannel | src/messagedirector/channel_subscriber.cpp:92-121 | Keeps `Valid()`: counts, index and bindings agree with the subscribers |
| MessageDirector.MessageDirector.UnsubscribeChannel | src/messagedirector/channel_subscriber.cpp:123-156 | Keeps `Valid()` |
| MessageDirector.MessageDirector.SubscribeRange | src/messagedirector/channel_subscriber.cpp:158-192 | Keeps `Valid()` |
| MessageDirector.MessageDirector.UnsubscribeRange | src/messagedirector/channel_subscriber.cpp:194-240 | Keeps `Valid()`; states what is lost |
| MessageDirector.MessageDirector.Shutdown | src/messagedirector/channel_subscriber.cpp:70-90 | Releases everything the subscriber held, once each |
| MessageDirector.MessageDirector.DeliverLocally | src/messagedirector/message_director.cpp:335-375 | Every receiver handles the message once, and nobody else does |
| MessageDirector.MessageDirector.OnReceived | src/messagedirector/message_director.cpp:454-527 | The same for a copy from the broker, unless this process published it |
| MessageDirector.ChannelSubscriber.IsWithinLocalRange | src/messagedirector/channel_subscriber.cpp:271-275 | True exactly if a range contains the channel |
| Cluster.StepAtMostOnce | src/messagedirector/message_director.cpp:454-527 | No step of the cluster delivers a message twice to one subscriber |
| Cluster.RunAtMostOnce | src/messagedirector/message_director.cpp:335-527 | Nor does any run |
| Cluster.PublishOnce | src/messagedirector/channel_subscriber.cpp:242-269 | A published channel has at most one copy on the way or delivered, per subscriber |
| Cluster.ExactlyOnce | src/messagedirector/channel_subscriber.cpp:242-269 | Whoever stays interested, in the publisher's process or another, has the message exactly once as soon as its process has no copy of it left; locally at once |
| Cluster.OnlyInterestedHandle | src/messagedirector/message_director.cpp:335-375 | Whoever handles a message is interested in it at that moment |
| Cluster.TidyRunsLoseNothing | src/messagedirector/channel_subscriber.cpp:194-240 | If no range is dropped that shares a bucket with another of its subscriber, the index never loses anything |
| Cluster.InterestedIsScanned | src/messagedirector/message_director.cpp:335-357 | Then those interested are exactly those a scan would find |
| DcCodec.RoundTrip | libs/dclass/dcPacker.cxx:407-541 | For every legal schema and fitting value, decoding the encoding gives the value and consumes exactly its bytes, whatever follows them |
| DcCodec.Canonical | libs/dclass/dcPacker.cxx:407-541 | What decodes is the only encoding of its value |
| DcCodec.DecodesIffEncodes | libs/dclass/dcPacker.cxx:407-541 | Encoding and decoding are one relation |
| DcCodec.FixedSizeIsExact | libs/dclass/dcPackerInterface.cxx:343-378 | A field with a fixed byte size has exactly that many bytes in every encoding, through structs, atomic fields, arrays and switches |
| DcParameters.AtomicField.AddElement | libs/dclass/dcAtomicField.cxx:222-240 | The flags that are updated per element are those of the whole field |
| DcParameters.ClassSizes | libs/dclass/dcClassParameter.cxx:22-61 | The loop over the fields finds the fixed size and the limits of the struct |
| DcParameters.SwitchSizes | libs/dclass/dcSwitchParameter.cxx:24-79 | The loop over the cases finds the fixed size and the limits of the switch |
| DcParameters.ArraySizes | libs/dclass/dcArrayParameter.cxx:25-72 | The flags and the length prefix of an array |
| DcPacker.DCPacker.Advance | libs/dclass/dcPacker.I:1076-1102 | The next field, the end of the record, or the case a key selects |
| DcPacker.DCPacker.HandleSwitch | libs/dclass/dcPacker.cxx:808-841 | The selected case takes the place of the switch, or a range error |
| DcPacker.DCPacker.Push | libs/dclass/dcPacker.cxx:407-485 | The whole state inside a nested record, packing and unpacking |
| DcPacker.DCPacker.Pop | libs/dclass/dcPacker.cxx:491-541 | The whole state after a nested record; errors for what was left open or has the wrong count |
| DcPacker.DCPacker.PackNum | libs/dclass/dcSimpleParameter.cxx:864-943 | An integer with divisor 1 and no modulus |
| DcPacker.DCPacker.PackText | libs/dclass/dcSimpleParameter.cxx:1030-1116 | A string or blob |
| DcPacker.DCPacker.PackLiteral | libs/dclass/dcPacker.I:238-246 | Bytes as they are |
| DcPacker.DCPacker.Pack | libs/dclass/dcPacker.cxx:407-541 | Packing a value through push, pack and pop appends its encoding if it fits, and fails if it does not |
| DcPacker.DCPacker.Walk | libs/dclass/dcPacker.cxx:574-619 | Unpacking, skipping and validating as one walk: each accepts exactly what decodes as what it takes the field for (unpacking: the field itself), and ends where that ends |
| DcPacker.PackField | libs/dclass/dcPacker.cxx:69-141 | begin_pack, a value, end_pack: succeeds exactly on the values that fit and gives exactly their encoding |
| DcPacker.UnpackField | libs/dclass/dcPacker.cxx:149-200 | begin_unpack, a value, end_unpack: succeeds exactly on the records that decode, with that value |
| DcPacker.SkipField | libs/dclass/dcPacker.cxx:600-619 | Skipping a record that unpacks ends where unpacking ends; on all other byte strings too, it stays within the buffer exactly if they decode as what skipping takes the field for, and ends where that ends |
| DcPacker.ValidateRanges | libs/dclass/dcField.cxx:193-203 | Accepts exactly the byte strings of what validation takes the field for (fields without limits are leapt over by their size or prefix), for every legal schema; every complete encoding is among them, and on an auditable schema nothing else |
| DcAudit.CompleteEncoding | libs/dclass/dcField.cxx:193-203 | A byte string is an encoding exactly if it decodes with nothing left over |
| DcAudit.ExactIffNeverReached | libs/dclass/dcPackerInterface.cxx:330-373 | Validation accepts encodings only, exactly if no record it accepts leads it over one of these unseen: a field of fixed size in which some switch key selects no case; an array of a fixed number of variable-size elements, unless that number is 0 and there are no bytes; or a switch key whose bytes are no encoding of the key |
| DcAudit.AuditableValidatesOnlyEncodings | libs/dclass/dcPackerInterface.cxx:330-373 | A schema with neither kind of field leads nowhere of that sort |
| DcAudit.UsedFieldsEscape | libs/dclass/dcPackerInterface.cxx:330-373 | Conversely, for every legal schema and every fitting value that contains one of the two kinds of field, at any depth (of an array, at least one element), some byte string validates and is no encoding |
| DcAudit.NoElementsNothingMissed | libs/dclass/dcPackerInterface.cxx:330-373 | What is left over: such fields that no accepted record contains are harmless, as elements of an array of 0 |
| DcAudit.FlawedRejects | libs/dclass/dcPackerInterface.cxx:343-378 | A field of fixed size without limits in which some key selects no case rejects some byte string of its size |
| DcAudit.UnflawedDecodes | libs/dclass/dcPackerInterface.cxx:343-378 | And otherwise accepts all of them, so that nothing is lost by skipping it |
| DcAudit.FixedCountArraysEscape | libs/dclass/dcPackerInterface.cxx:330-373 | For every array of a fixed number of variable-size elements without limits there is a byte string that validates and is no encoding |
| DcAudit.UnknownKeysEscape | libs/dclass/dcPackerInterface.cxx:330-373 | So there is for every equal-size switch without limits and every key that selects no case, and it starts with that key |
| DcLexer.DecimalAccumulates | libs/dclass/dcLexer.cxx:1568-1590 | A printed 64-bit number is scanned back |
| DcLexer.ScannedExactlyIfItFits | libs/dclass/dcLexer.cxx:1568-1590 | Of every digit string: it is scanned as the number it stands for exactly if that is below 2^64; it is an error exactly if the check fires on one of its prefixes; otherwise it is scanned as its remainder |
| DcLexer.NoticedIff | libs/dclass/dcLexer.cxx:1568-1590 | The check fires on v exactly if the product of v and the radix exceeds the multiple of 2^64 below it by less than v: for decimals, if 9v is less than that multiple |
| DcLexer.OverflowIsMissed | libs/dclass/dcLexer.cxx:1568-1590 | The digit itself is added unchecked: 2^64 and the numbers behind it with the same leading digits are scanned as 0, 1, 2 and so on |
| DcLexer.OctalEscapesIff | libs/dclass/dcLexer.cxx:845-857 | An escape of a zero and up to three octal digits stands for these exactly if none of them is 7 |
| DcLexer.DecimalEscapesDropADigit | libs/dclass/dcLexer.cxx:859-878 | An escape that starts with a digit from 1 to 9 stands for the digits behind it, and never for all of them |
| DcLexer.NumberScans | libs/dclass/dcLexer.cxx:1568-1640 | A printed number is one token, signed exactly if it is negative, whatever separator follows |
| DcLexer.QuotedScans | libs/dclass/dcLexer.cxx:785-903 | A quoted string is scanned back, with every byte escaped that needs it, whatever follows |
| DcLexer.HexScans | libs/dclass/dcLexer.cxx:907-963 | A hex string is scanned back |
| DcLexer.NameScans | libs/dclass/dcLexer.cxx:1714-1727 | A field name is one identifier |
| DcLexer.Lexer.ScanQuotedString | libs/dclass/dcLexer.cxx:785-902 | The character loop against its recursive specification, with all escapes and their quirks |
| DcLexer.Lexer.ScanEscape | libs/dclass/dcLexer.cxx:806-878 | The escapes |
| DcLexer.Lexer.ScanNumeral | libs/dclass/dcLexer.cxx:832-878 | Up to two or three digits of an escape |
| DcLexer.Lexer.ScanHexString | libs/dclass/dcLexer.cxx:907-963 | The digit loop against its recursive specification |
| DcLexer.ScanDigits | libs/dclass/dcLexer.cxx:1568-1590 | The digits of a number, in 64 bits |
| DcLexer.EnquoteString | libs/dclass/dcPacker.cxx:764-783 | The printing loop |
| DcLexer.OutputHexString | libs/dclass/dcPacker.cxx:788-798 | The printing loop |
| DcText.TextParses | libs/dclass/dcParser.cxx:2545-2698 | The text of every value that fits its field, with or without names, parses as that value |
| DcText.TreeParses | libs/dclass/dcPacker.cxx:667-759 | The same inside a longer text: what was printed is parsed and nothing more |
| DcParser.ShownDenotes | libs/dclass/dcPacker.cxx:667-759 | What is parsed packs back to the value, and every printed name is right |
| DcParser.PackLeaf | libs/dclass/dcParser.cxx:2572-2610 | The actions of numbers, strings and hex strings |
| DcParser.PackGroup | libs/dclass/dcParser.cxx:2612-2658 | The actions of a bracketed value: push, the items, pop; it packs the value that the tree denotes, and it notices wrong names |
| DcParser.PackItem | libs/dclass/dcParser.cxx:2545-2570 | A value with a name in front |
| DcParser.ParseString | libs/dclass/dcField.cxx:172-186 | For a text that denotes a value, with or without repetitions: the encoding exactly if it fits the field and the names are right, otherwise nothing |
| DcParser.FormatData | libs/dclass/dcField.cxx:154-165 | The text of a record that unpacks, and of one that does not, nothing. Without field names nothing in the tree it parses to has a name, at any depth; with them, every value has the name of its parameter in front of it |
| DcParser.PrintThenParse | libs/dclass/dcField.cxx:154-186 | parse_string(format_data(b)) is b without what follows the record, for every record that unpacks, with and without field names |
| DatabaseCodec.BytesComeBack | src/database/database_utils.cpp:100-445 | Storing a supported field and packing it adds its original bytes to the datagram, or overflows it |
| DatabaseCodec.EchoIsPacked | src/database/database_utils.cpp:100-445 | What storing and packing a value adds, without the document in between: strings and arrays with a length of two bytes, blobs without, arrays of arrays not at all, uint32uint8arrays only if empty; or the datagram overflows |
| DatabaseCodec.ComesBackIff | src/database/database_utils.cpp:100-445 | Of every field, exactly the values come back whose bytes of this kind are their encoding; those without an unsupported part do (of an array, the elements count that are there), and no others if the field does not both lose and gain bytes |
| DatabaseCodec.EveryValueComesBackIff | src/database/database_utils.cpp:100-445 | Of a supported field every value comes back; of one that does not both lose and gain, every value does exactly if none has an unsupported part, which means, if some value has no empty array, exactly if the field is supported |
| DatabaseCodec.LossesAndGainsCancel | src/database/database_utils.cpp:246-251 | For fields that do both this is false: of the unsupported `uint16(5)[1][1] a; string(5) b` every value comes back, and of neither member any |
| DatabaseCodec.EmptyTextsCancel | src/database/database_utils.cpp:246-258 | And in some fields some values do: an empty blob in front of an empty string(0) |
| DatabaseCodec.SwitchesAreRefused | src/database/database_utils.cpp:100-209 | Of the values that fit, exactly those are not stored that reach a switch, at any depth |
| DatabaseCodec.RoundTrip | src/database/database_utils.cpp:369-445 | The same per value, for every value without an unsupported part |
| DatabaseCodec.NumberReturns | src/database/database_utils.h:107-169 | Every integer type comes back, 64-bit unsigned ones through the sign |
| DatabaseCodec.BlobsLoseTheirLength | src/database/database_utils.cpp:252-258 | No variable-size blob comes back |
| DatabaseCodec.FixedStringsGainALength | src/database/database_utils.cpp:246-251 | No string of fixed length does |
| DatabaseCodec.FixedArraysGainALength | src/database/database_utils.cpp:404-433 | Nor an array of a fixed number of fixed-size elements |
| DatabaseCodec.PairsAreRefused | src/database/database_utils.cpp:336-352 | A non-empty uint32uint8array is refused |
| DatabaseCodec.ArraysOfArraysVanish | src/database/database_utils.cpp:404-433 | Arrays of arrays, and of other elements that are neither simple nor structs, add nothing to the datagram, so their bytes are missing from it |
| DatabaseCodec.UnnamedShareAValue | src/database/database_utils.cpp:436-445 | Unnamed members of a struct (named ones cannot share a name), wherever they are in it, are all packed from what was stored for the first of them |
| DatabaseCodec.UnnamedComeBackIff | src/database/database_utils.cpp:436-445 | So a struct of supported members, those of one name being of one type, comes back exactly if those of one name are equal |
| DatabaseCodec.Datagram.Append | src/net/datagram.cpp:251-265 | Bytes are added, or the datagram would grow too long |
| DatabaseCodec.Datagram.AppendSimple | src/database/database_utils.cpp:211-363 | BsonToField against its specification |
| DatabaseCodec.Datagram.PackField | src/database/database_utils.cpp:369-434 | PackField against its specification |
| DatabaseCodec.Datagram.PackClass | src/database/database_utils.cpp:436-445 | BsonToClass against its specification |
| DcClass.NamesAgreeIff | libs/dclass/dcClass.cxx:488-547 | For every class, the named fields of its list of inherited fields are exactly what get_field_by_name finds, if and only if no constructor, of the class or of one above it, is what that search finds for its name |
| DcClass.InheritedAreFound | libs/dclass/dcClass.cxx:488-547 | For every class the list is strictly sorted by number, no name is in it twice and its unnamed fields are the class's own; list and search agree if there is no constructor in the class or above it, and never if the class has its own |
| DcClass.ListedAreFoundByNumber | libs/dclass/dcClass.cxx:209-231 | Every listed field is found by its number |
| DcClass.FoundForever | libs/dclass/dcClass.cxx:209-231 | A number that was found is found again as the same field after any later add_class, add_field and add_parent: remembering it is safe |
| DcClass.DCFile.AddClass | libs/dclass/dcFile.cxx:448-488 | Keeps names and numbers unique and everything remembered right |
| DcClass.DCFile.AddParent | libs/dclass/dcClass.cxx:632-636 | The same |
| DcClass.DCFile.AddField | libs/dclass/dcClass.cxx:576-626 | The same; which fields are accepted |
| DcClass.DCFile.FieldByName | libs/dclass/dcClass.cxx:183-202 | The depth-first search |
| DcClass.DCFile.FieldByNumber | libs/dclass/dcClass.cxx:210-231 | The search that remembers its results finds what the search without memory finds |
| DcClass.DCFile.Rebuild | libs/dclass/dcClass.cxx:498-547 | A class and, where needed, its parents are rebuilt |
| DcClass.DCFile.RebuildAll | libs/dclass/dcFile.cxx:636-646 | All lists are right, in whatever order the classes are rebuilt |
| DcClass.DCFile.InheritedFields | libs/dclass/dcClass.cxx:237-290 | The list is right whenever it is asked for |
| DcSwitch.DCSwitch.AddCase | libs/dclass/dcSwitch.cxx:195-213 | A label; the value was not used before, or nothing happens |
| DcSwitch.DCSwitch.AddDefault | libs/dclass/dcSwitch.cxx:225-237 | The default label |
| DcSwitch.DCSwitch.AddField | libs/dclass/dcSwitch.cxx:244-261 | A field goes to every set of fields that is open, shared ones once |
| DcSwitch.DCSwitch.AddBreak | libs/dclass/dcSwitch.cxx:267-272 | Closes what is open |
| DcSwitch.DCSwitch.StartNewCase | libs/dclass/dcSwitch.cxx:528-550 | The set of fields a new label starts with, or shares |
| DcSwitch.DCSwitch.ApplySwitch | libs/dclass/dcSwitch.cxx:278-293 | After any sequence of events, a value selects the key and all fields from its label to the next break, as in C; a field whose name is taken is refused |
| DcSwitch.Build | libs/dclass/dcSwitch.cxx:195-272 | Every sequence of events builds such a switch |
| DcSwitch.DistinctNamesAllKept | libs/dclass/dcSwitch.cxx:598-627 | With distinct names no field is refused, so each case is the key followed by all fields from its label to the next break |
| DcSwitch.SwitchFields.AddField | libs/dclass/dcSwitch.cxx:598-627 | A field whose name is new is appended, and its size counted |
| PackInt.OverflowIsDetected | libs/dclass/dcSimpleParameter.cxx:694-712 | Dividing back detects exactly the products that do not fit 32 bits |
| PackInt.ReduceIsRemainder | libs/dclass/dcSimpleParameter.cxx:694-712 | Both branches compute the Euclidean remainder |
| PackInt.PackIntIsPackInt64 | libs/dclass/dcSimpleParameter.cxx:694-943 | With a modulus of at most 2^31, or none, the two calls report an error for the same values and otherwise append the same bytes |
| PackInt.PathsAgreeIffModulusIsSmall | libs/dclass/dcSimpleParameter.cxx:308-374 | With divisor 1, without ranges and with a modulus of at most 2^63 or none, the two agree on all 32-bit values exactly if the modulus is at most 2^31 |
| PackInt.NumbersComeBackIff | libs/dclass/dcSimpleParameter.cxx:1352-1490 | Without modulus a 32-bit number that is packed without error comes back exactly if its product with the divisor fits 32 bits and, unless the divisor is 1, it is not negative |
| PackInt.RemaindersComeBack | libs/dclass/dcSimpleParameter.cxx:1352-1490 | With a modulus of M whole units, at most 2^31 when scaled, every number v that is packed without error comes back as v mod M, also if its product does not fit 32 bits |
| PackInt.OverflowIsReadBack | libs/dclass/dcSimpleParameter.cxx:694-712 | A product that does not fit 32 bits is stored by the 64-bit path: what is read back is that product, or its remainder |
| PackInt.PackData.AppendInt | libs/dclass/dcSimpleParameter.cxx:694-779 | pack_int in place |
| PackInt.PackData.AppendInt64 | libs/dclass/dcSimpleParameter.cxx:864-943 | pack_int64 in place |
| Primes.Euclid | libs/dclass/primeNumberGenerator.cxx:35-55 | There is a larger prime, so the search ends |
| PrimeGaps.PrimeBelowSquare | libs/dclass/primeNumberGenerator.cxx:38-49 | Between every number from 2 on and its square there is a prime |
| PrimeNumberGenerator.LastSquareIsAbove | libs/dclass/primeNumberGenerator.cxx:42-49 | So the square of the last prime in the table is above the candidate, and trial division stops before the table ends: the assertion on the index never trips |
| PrimeNumberGenerator.TableCounts | libs/dclass/primeNumberGenerator.cxx:30-57 | Before the entry n of the table there are exactly n primes |
| PrimeNumberGenerator.PrimeNumberGenerator.TestCandidate | libs/dclass/primeNumberGenerator.cxx:38-52 | Trial division up to the square root decides primality, within the table |
| PrimeNumberGenerator.PrimeNumberGenerator.At | libs/dclass/primeNumberGenerator.cxx:30-57 | The nth prime; the table stays the first primes in order |
| WebSocket.ChunksDoNotMatter | libs/ws28/Client.cpp:425-476 | After the handshake, every way of cutting a byte stream of any length into chunks gives the same frames, messages, replies and rest as one pass over the whole, unless a call trips the size limit (what was left over and the new chunk, together); then as one pass over what came before, and the connection is closed with 1009 |
| WebSocket.CutsAgree | libs/ws28/Client.cpp:425-476 | So any two cuts of one stream that do not trip the limit agree |
| WebSocket.TwoChunks | libs/ws28/Client.cpp:425-476 | One pass over two parts one after the other is one pass over both, from any state |
| WebSocket.LimitDependsOnChunks | libs/ws28/Client.cpp:425-434 | For every limit that lets any frame through, messages that all pass one by one are all refused when they come in one chunk |
| WebSocket.FramesAreRead | libs/ws28/Client.cpp:697-797 | A client frame in the format of RFC 6455, sections 5.2 and 5.3, is read back unmasked, whatever follows, exactly if bit 31 of its length is clear; otherwise the length is sign-extended and the frame is never read |
| WebSocket.SentFramesAreRead | libs/ws28/Client.cpp:346-388 | Every frame header that is written is the one of RFC 6455, section 5.2 |
| WebSocket.CloseFramesAreCutShort | libs/ws28/Client.cpp:878-908 | A close with a reason of any length writes a frame whose header announces two bytes more than follow |
| WebSocket.MessagesArriveWhole | libs/ws28/Client.cpp:755-795 | Any number of messages, each in any number of frames (RFC 6455, section 5.4) with pings and pongs between them, in chunks cut anywhere that do not trip the limit: each arrives once, whole and in order, and every ping is answered |
| WebSocket.ParseIsStable | libs/ws28/Client.cpp:706-741 | A frame that was found stays the same when more bytes arrive |
| WebSocketClient.Client.OnSocketData | libs/ws28/Client.cpp:425-476 | The buffer handling, against the specification |
| WebSocketClient.Client.DrainView | libs/ws28/Client.cpp:697-797 | The frame loop over the view |
| WebSocketClient.Client.HandleFrame | libs/ws28/Client.cpp:755-795 | One frame: control, data or fragment |
| WebSocketClient.Client.HandleClose | libs/ws28/Client.cpp:803-860 | A close frame and its reply |
| WebSocketClient.ReadFrame | libs/ws28/Client.cpp:706-753 | The header, byte by byte |
| WebSocketClient.Unmask | libs/ws28/Client.cpp:742-753 | Unmasking in place: each byte of the payload has exactly the bits flipped that are set in its byte of the key, and no other byte changes |
| WebSocketClient.WriteDataFrameHeader | libs/ws28/Client.cpp:346-376 | Writing a header in place |
| InterestEffects.EntrancesReachTheClient | src/clientagent/client_participant.cpp:823-853 | An entrance into a location that nothing is loading sends the client exactly one message if it neither has seen the object nor owns it as a session object; the object is then seen, and visible at the place and with the class of the entrance unless it was visible already. Otherwise nothing is sent |
| InterestEffects.EntrancesWait | src/clientagent/client_participant.cpp:528-551 | An entrance into a location that is loading is held back by an operation that is loading it, and the object is pending there unless it was pending already |
| InterestEffects.GeneratesEnter | src/clientagent/interest_operation.cpp:53-66 | Of the generates of an operation, each distinct object that the client does not have is announced once, in the order of the generates |
| InterestEffects.FinishedOperationsEnter | src/clientagent/interest_operation.cpp:53-80 | When an operation finishes, those entrances are sent, then DONE (unless the interest is internal), and the answer is published to whoever asked; all objects are seen and none is pending before anything is replayed, and the operation is gone |
| InterestEffects.HeldBackArrives | src/clientagent/interest_operation.cpp:82-104 | Replaying is the run of the held-back messages, in the order in which they were held back |
| InterestEffects.TimeOutsFinish | src/clientagent/interest_operation.cpp:44-51 | A time-out finishes a pending operation as it is, and nothing else |
| InterestEffects.GeneratesAreCounted | src/clientagent/client_participant.cpp:553-571 | A generate is pending and kept; the operation finishes exactly when the total is known and reached |
| InterestEffects.TotalsAreTaken | src/clientagent/client_participant.cpp:573-589 | So does a total, which counts only if none was known |
| InterestEffects.OwnMessagesAreIgnored | src/clientagent/client_participant.cpp:250-262 | Messages that the client itself sent change nothing |
| InterestEffects.GoneIsGone | src/clientagent/client_participant.cpp:122-222 | After the end of the connection no message and no request changes anything |
| InterestEffects.FieldsReachTheClient | src/clientagent/client_participant.cpp:423-461 | Field updates reach the client if it knows the object (UberDOG, owned, seen and visible, or declared, with a class that exists); those of a pending object are held back at the end of its operation's queue; others are dropped |
| InterestEffects.DeletedObjectsLeave | src/clientagent/client_participant.cpp:463-505 | A deleted object leaves: the client hears that it left if it was seen and that it is no longer the owner if it was, in this order, and nothing of it is left; a session object ends the connection |
| InterestEffects.ConnectionsEnd | src/clientagent/client_participant.cpp:713-737 | Eject, Drop and the end of the connection leave nothing open |
| InterestEffects.MovedObjectsStayOrLeave | src/clientagent/client_participant.cpp:594-666 | A moved object that the client knows of leaves if no open interest covers its new location, it is visible and it is not an owned session object; a session object ends the connection instead. Otherwise the client hears the new location |
| InterestEffects.OwnersAreTold | src/clientagent/client_participant.cpp:507-526 | A new owner is told, and an avatar is tracked from then on |
| InterestEffects.OwnersChange | src/clientagent/client_participant.cpp:668-686 | When somebody else becomes the owner, the client is told and owns it no more; if it is a session object the connection ends |
| InterestEffects.DeclarationsCount | src/clientagent/client_participant.cpp:342-410 | Declared and session objects come and go, and a class declared first is kept |
| InterestEffects.ZonesAreClosed | src/clientagent/client_participant_interest.cpp:321-364 | Closing zones tells the client of every visible object in them, in the order in which they are kept, and forgets these; the zones are unsubscribed. A session object among them ends the connection when those in front of it have left |
| InterestEffects.InterestsAreOpened | src/clientagent/client_participant_interest.cpp:136-206 | An interest is widened by the Auto rule of its parent's class, the zones that only the interest of the same id covered and that it does not are closed, it is recorded, and an operation asks for exactly the zones that no open interest covered; if there are none it is done at once |
| InterestEffects.InterestsAreRemoved | src/clientagent/client_participant_interest.cpp:295-319 | The zones that only the interest covered are closed, whoever asked is told, and it is gone |
| InterestEffects.ClientsOpenInterests | src/clientagent/client_participant_interest.cpp:22-79 | The client may open an interest if its permission allows it for the parent, in zones that are all allowed; otherwise it is disconnected |
| InterestEffects.ClientsRemoveInterests | src/clientagent/client_participant_interest.cpp:81-111 | It may remove one that is open, if its permission allows it |
| InterestEffects.ClusterOpensInterests | src/clientagent/client_participant.cpp:280-296 | The cluster opens any interest, and the client is told first |
| InterestEffects.ClusterRemovesInterests | src/clientagent/client_participant.cpp:298-313 | It removes any that is open; the client is told first |
| InterestEffects.IdsAreAllocated | src/clientagent/client_participant_interest.cpp:487-510 | The id is the first free one from the cursor on, going around from 0xFFFF to 0xF000, and 0 if none of those tried is free |
| InterestEffects.RulesAreApplied | src/clientagent/client_participant_interest.cpp:512-555 | The window around the avatar becomes an internal interest in the parent |
| InterestEffects.ClassesGiveRules | src/clientagent/client_participant_interest.cpp:394-463 | The class of the avatar's current parent gives it its rule; outdated and repeated answers change nothing |
| InterestEffects.RulesFollow | src/clientagent/client_participant_interest.cpp:557-599 | The internal interest gets the new window |
| InterestEffects.RulesAreCleared | src/clientagent/client_participant_interest.cpp:601-613 | The rule is forgotten and its interest removed |
| InterestEffects.AvatarsMove | src/clientagent/client_participant.cpp:960-983 | An avatar that changes its parent drops its rule and asks for the new parent's class; within its parent, the rule follows it |
| InterestEffects.MovedAvatarsAreFollowed | src/clientagent/client_participant.cpp:954-988 | So it does when a message moves the avatar, before the client is told |
| ParentingRule.WindowCells | src/clientagent/parenting_rule.cpp:218-260 | By rows and columns: the cell in row s and column d is in the window of the one in row r and column c exactly if neither differs by more than the radius |
| ParentingRule.WindowsAreOnTheGrid | src/clientagent/parenting_rule.cpp:218-260 | And nothing else is in a window |
| ClusterEffects.NewcomersHearNothing | src/messagedirector/channel_subscriber.cpp:44-48 | A new subscriber hears no channel |
| ClusterEffects.KnownSubscribersHear | src/messagedirector/channel_subscriber.cpp:50-68 | From Init on it hears whatever it asked for |
| ClusterEffects.SubscribersHear | src/messagedirector/channel_subscriber.cpp:92-121 | A known subscriber that subscribes to a channel hears it from then on, and nothing else changes for anybody |
| ClusterEffects.UnsubscribersStopHearing | src/messagedirector/channel_subscriber.cpp:123-156 | After an unsubscription it hears the channel only within a range that has not been lost |
| ClusterEffects.RangesAreHeard | src/messagedirector/channel_subscriber.cpp:158-192 | A known subscriber that subscribes to a range hears every channel in it |
| ClusterEffects.DroppedRangesAreNotHeard | src/messagedirector/channel_subscriber.cpp:194-240 | After dropping a range it hears what it asked for otherwise, and within other ranges only in buckets that the dropped range does not reach into |
| ClusterEffects.NobodyHearsAfterwards | src/messagedirector/channel_subscriber.cpp:70-90 | After shutting down it hears nothing |
| ClusterEffects.InterestedHear | src/messagedirector/message_director.cpp:335-357 | A message is handed to exactly those who hear its channel |
| ClusterEffects.PublishedMessagesAreCopied | src/messagedirector/channel_subscriber.cpp:242-269 | A published message is handed to those in the publisher's process at once, and a copy is queued for every process in which anybody asked for the channel or a range in its bucket |
| ClusterEffects.CopiesAreHandedOut | src/messagedirector/message_director.cpp:454-527 | The oldest copy is taken from the queue and handed to those who hear it, unless the process published it |
| ClusterEffects.SubscribersHandleEverythingOnce | src/messagedirector/channel_subscriber.cpp:92-269 | A subscriber that is made, known and subscribed to a channel handles every message published on it later exactly once, as long as it does not unsubscribe or shut down, whatever else happens before and after: at once in the publisher's process, and otherwise as soon as no copy is queued |
| DcLayout.NumLayout | libs/dclass/dcSimpleParameter.cxx:864-943 | A number that its type and its limits allow is its low-order bytes in two's complement, the lowest first; no other value fits |
| DcLayout.TextLayout | libs/dclass/dcSimpleParameter.cxx:1030-1116 | A string or blob is its length and its bytes; the length is left out when only one is allowed |
| DcLayout.RecordLayout | libs/dclass/dcPacker.cxx:407-541 | A record is its fields one after the other |
| DcLayout.ArrayLayout | libs/dclass/dcArrayParameter.cxx:25-72 | An array is its elements one after the other, behind the number of their bytes; that is left out when the elements have a fixed size and only one number of them is allowed |
| DcLayout.SwitchLayout | libs/dclass/dcSwitch.cxx:278-293 | A switch is its key and the fields of the first case with the key's bytes as its value, or else the default fields; if there are none, nothing fits |
| DcLayout.SwitchPacks | libs/dclass/dcPacker.cxx:808-841 | So packing a switch succeeds exactly if the values behind the key fit the case of its bytes, or the default, and gives their bytes behind the key's |
| DcLayout.SwitchUnpacks | libs/dclass/dcPacker.cxx:808-841 | And unpacking reads the key, and what is behind it as those fields |
| DcLayout.FieldsOfFixedSize | libs/dclass/dcClassParameter.cxx:22-61 | A record has a fixed size exactly if all its fields have |
| DcLayout.ArraysOfFixedSize | libs/dclass/dcArrayParameter.cxx:25-72 | An array has one exactly if its elements have and only one number of them is allowed |
| DcLayout.SwitchesOfFixedSize | libs/dclass/dcSwitchParameter.cxx:24-79 | A switch has one exactly if its key has and all cases and the default come to the same |
| DcSwitchWire.ValuesSelect | libs/dclass/dcSwitch.cxx:278-293 | A value selects what its first label falls through to; a value without a label what the default does; without a default nothing |
| DcSwitchWire.DeclaredUpToBreak | libs/dclass/dcSwitch.cxx:244-272 | A label falls through to exactly the fields declared behind it and before the next break, in order |
| DcSwitchWire.FirstOfEachName | libs/dclass/dcSwitch.cxx:598-627 | Of these, the first of each name is kept, and all without a name |
| DcSwitchWire.PacksWhatIsApplied | libs/dclass/dcPacker.cxx:808-841 | For every switch that is built, packing it with a key comes to the same as packing the record of the fields that apply_switch() returns for that key |
| DcValidation.FixedSizesArePassed | libs/dclass/dcPackerInterface.cxx:330-378 | A field of fixed size is skipped, and validated if nothing in it has limits, whatever its bytes are |
| DcValidation.LengthsAreBelieved | libs/dclass/dcPackerInterface.cxx:330-378 | Of other strings, blobs and arrays the length in front is believed |
| DcValidation.OthersAreWalkedInto | libs/dclass/dcPackerInterface.cxx:330-378 | Everything else is walked into, field by field |
| DcValidation.LimitsOfRecords | libs/dclass/dcClassParameter.cxx:22-61 | A record has limits exactly if one of its fields has |
| DcValidation.LimitsOfSwitches | libs/dclass/dcSwitchParameter.cxx:24-79 | A switch has limits exactly if its key has, or a field of a case or of the default |
| DcErrors.AdvanceErrors | libs/dclass/dcPacker.I:1076-1102 | Going on is a range error exactly behind a key that selects nothing |
| DcErrors.NumberErrors | libs/dclass/dcSimpleParameter.cxx:864-943 | A number is appended in any case, and is a range error exactly if its type or its limits do not allow it |
| DcErrors.TextErrors | libs/dclass/dcSimpleParameter.cxx:1030-1116 | So is a string or blob, by its length |
| DcErrors.PushErrors | libs/dclass/dcPacker.cxx:407-485 | Entering is a pack error exactly if there are no nested fields or the length is cut off |
| DcErrors.PopErrors | libs/dclass/dcPacker.cxx:491-541 | Leaving is a pack error exactly if something is missing, left over or too much, and a range error if the bytes are more than 65535 |
| PrintedText.NamesArePrinted | libs/dclass/dcPacker.cxx:667-759 | A value printed without names parses to a tree without any, at any depth; printed with names, to one in which each value, the root included, has its member's name exactly if the member is a named parameter, and array elements have none |
| PrintedText.GroupText | libs/dclass/dcPacker.cxx:667-759 | A group is its items with commas in between: in braces for a struct, in parentheses for an atomic field or a switch, in brackets for an array |
| PrintedText.NumberText | libs/dclass/dcPacker.cxx:667-759 | An integer is its decimal digits, behind a minus sign if it is negative |
| PrintedText.StringText | libs/dclass/dcPacker.cxx:764-783 | A string is its characters in quotation marks, with escapes for the mark, the backslash and what cannot be printed |
| PrintedText.BlobText | libs/dclass/dcPacker.cxx:788-798 | A blob is all of its bytes on the wire, in hexadecimal |
| ParsedText.RepeatsAreParsed | libs/dclass/dcParser.cxx:2660-2698 | `x * n` is x repeated, for n of 32 bits, and no value otherwise |
| ParsedText.GroupsAreWrittenOut | libs/dclass/dcParser.cxx:2660-2698 | A group with repeated values means what it means with these written out |
| ParsedText.WrongNamesAreNoticed | libs/dclass/dcParser.cxx:2560-2568 | A name that is not the field's is an error |
| ParsedText.NamesInGroups | libs/dclass/dcParser.cxx:2560-2568 | And so is one inside a group: names are right exactly if each item's is that of the member it is packed into |
| TextTokens.Words | libs/dclass/dcLexer.cxx:1714-1727 | A longest run of letters, digits and underscores is a keyword or an identifier |
| TextTokens.Escapes | libs/dclass/dcLexer.cxx:809-831 | What a backslash makes of each character that is no digit |
| TextTokens.HexEscapes | libs/dclass/dcLexer.cxx:832-843 | Two hexadecimal digits behind \x are one byte |
| TextTokens.HexPairsAreRead | libs/dclass/dcLexer.cxx:907-963 | Two hexadecimal digits in a hex string are one byte |
| DatabaseLayout.LeavesInDocuments | src/database/database_utils.cpp:100-209 | Signed integers of up to 32 bits are stored as such, all others in 64 bits, where the upper half of the unsigned ones is negative; strings as text, blobs as binary, switches never |
| DatabaseLayout.IntArraysInDocuments | src/database/database_utils.cpp:100-209 | An array of integers is an array of such numbers |
| DatabaseLayout.PairsInDocuments | src/database/database_utils.cpp:100-209 | A uint32uint8array is an array of documents of two numbers without names |
| DatabaseLayout.ArraysInDocuments | src/database/database_utils.cpp:100-209 | An array is an array of its elements in order |
| DatabaseLayout.StructsInDocuments | src/database/database_utils.cpp:100-209 | A struct is a document with its members in order, under their names |
| DatabaseLayout.AtomicsInDocuments | src/database/database_utils.cpp:100-209 | The arguments of an atomic field are an array |
| DatabaseLayout.NumbersAreAdded | src/database/database_utils.h:107-169 | A number is added in the integer's width exactly if it is in range, or the integer is a 64-bit unsigned one, and the datagram does not grow too long |
| DatabaseLayout.TextsAreAdded | src/database/database_utils.cpp:246-258 | A string is added with its length in two bytes in front, a blob without |
| DatabaseLayout.ArraysAreAdded | src/database/database_utils.cpp:404-433 | An array of simple elements or structs is packed for itself and added with its length in front; any other adds nothing |
| DatabaseLayout.IntArraysAreAdded | src/database/database_utils.cpp:259-335 | So are arrays of integers |
| DatabaseLayout.PairsAreAdded | src/database/database_utils.cpp:336-352 | A uint32uint8array is expected flat, and gets the number of its values in front |
| DatabaseLayout.AtomicsAreAdded | src/database/database_utils.cpp:369-383 | The arguments of an atomic field are added in order; none may be missing |
| DatabaseLayout.StructsAreAdded | src/database/database_utils.cpp:436-445 | The members of a struct are added in their order, each from the first entry with its name; none may be missing |
| DcInheritance.FoundByName | libs/dclass/dcClass.cxx:183-202 | What a class declares under a name is found; otherwise what the first of its parents finds that finds anything; and otherwise nothing |
| DcInheritance.FoundByNumber | libs/dclass/dcClass.cxx:210-231 | The same by number |
| DcInheritance.ListedFields | libs/dclass/dcClass.cxx:488-547 | A class lists its own fields, and of each other name the one that the first of its parents lists that has it; fields without a name are not inherited |
| PackIntLayout.Stored64 | libs/dclass/dcSimpleParameter.cxx:864-943 | pack_int64 stores the product with the divisor, reduced by the modulus, in two's complement, and it is an error exactly if that is not in the type or not in the limits (moduli up to 2^63) |
| PackIntLayout.Stored32 | libs/dclass/dcSimpleParameter.cxx:694-779 | So does pack_int, with the lower half of the modulus, a remainder of 2^31 or more becoming negative; it is pack_int64 exactly when the product does not fit 32 bits |
| WebSocket.XorSetsTheBitsThatDiffer | libs/ws28/Client.cpp:742-753 | Unmasking sets exactly the bits in which byte and key differ (RFC 6455, section 5.3) |
| WebSocketEffects.FramesAreFound | libs/ws28/Client.cpp:706-753 | Byte by byte, when a buffer starts with a frame: refused with reserved bits or without a mask; incomplete; or there, with its flag, opcode, length (sign-extended if bit 31 of a long one is set) and each byte of its payload unmasked |
| WebSocketEffects.HeaderBytes | libs/ws28/Client.cpp:346-376 | The bytes of the header that is written |
| WebSocketEffects.PingsAndPongs | libs/ws28/Client.cpp:755-795 | Pings are answered with their payload, pongs ignored; neither may be fragmented or long |
| WebSocketEffects.CloseFramesAreAnswered | libs/ws28/Client.cpp:803-860 | A close frame is sent back as it is, unless its code or reason must not be sent |
| WebSocketEffects.MessagesAreHandedOn | libs/ws28/Client.cpp:755-876 | A whole message is handed on if it is binary, or text that is text |
| WebSocketEffects.FirstFramesAreKept | libs/ws28/Client.cpp:755-795 | The first frame of a message is kept with its opcode |
| WebSocketEffects.FurtherFramesAreAdded | libs/ws28/Client.cpp:755-795 | Further frames have opcode 0 and are added, up to the limit; the last completes the message |
| WebSocketEffects.ChunksAreHandled | libs/ws28/Client.cpp:425-476 | A chunk is handled frame by frame, behind what was left over, as long as the connection is open |

## Left out

Client protocol
- Requests CLIENTAGENT_SET_CLIENT_ID, SET_STATE, SEND_DATAGRAM, OPEN_CHANNEL, CLOSE_CHANNEL, the post-removes, fields-sendable and the network address: they do not touch objects or interests.
- Contexts are unbounded; the 32-bit counter does not wrap around.
- Timers: a timeout is an event that may happen at any time. The table of historical objects and its clean-up are not modelled.
- ClientParticipant.ClientParticipant.Shutdown: the objects that pending operations still enter on the way down are not recorded as seen; the client is not told of them, and the theorems about what it knows speak of connected clients. The order of the answers is left open.
- Object id 0 is no object: it stands for "no avatar".
- Looking up an operation that is gone is undefined in the code; the model records it and drops the message.
- The text of a parenting rule, and its splitting at colons; the numbers in it are parameters.
- InterestMirror.ClientMirrorsAgent: messages are compared by object, not by the bytes of their fields.

Routing
- Broker I/O: a binding is live at once, handlers do not interrupt each other, and routing keys are the numbers they spell.
- Cluster.ExactlyOnce: broker queues neither lose messages nor stop being consumed, which the broker promises and not this code; the statement is about the moment when no copy is left in the queue.
- Participants' post-removes and the web panel of the message director.

DC codec
- Floating-point types, and the divisors and moduli of the packer's own codec (they are in PackInt).
- char and char arrays, strings packed into arrays of 8-bit integers, and strings packed byte by byte through push and pop.
- Texts longer than 2^32 bytes, and arrays whose elements are empty (the code divides by their size).
- Reads of a switch key behind the end of a truncated buffer; they are undefined in the code and clipped in the model.
- Default values, catalogs, seek and repack, molecular fields, typedefs, keywords, the file hash, `check_match`.
- DcPacker.ValidateRanges: that only encodings are accepted holds exactly where no record leads to the two kinds of field. The condition is about records because such a field is harmless where none can contain it: as the element of an array of 0, in a case that no key selects, beside a field that accepts nothing, or in a list that cannot fit its length prefix.
- DcParser.FormatData and DatabaseCodec.ToBson print and store while they unpack; they are modelled on the unpacked value. What they leave behind when a record does not unpack is not modelled, nor that blobs out of range are printed and stored all the same.
- DcParser.ParseString: comments and floating-point numbers count as text that does not parse; hex strings that are no encoding of their field are packed as they are, and nothing is said about the result, nor about strings and brackets where the field takes none.
- The lexer's floating-point numbers and comments, and the error recovery and tables of the generated parser; its value grammar is written as recursive descent.
- DatabaseCodec.BytesComeBack: divisors and doubles are not part of it.
- DatabaseCodec.ComesBackIff: not of values with unnamed members beside each other, which have lemmas of their own.
- DatabaseCodec.UnnamedComeBackIff: not of unnamed members of different types, for which DatabaseCodec.UnnamedShareAValue says what is packed.
- DcPacker.SkipField: int8array and its like are arrays here; the code walks over them where it leaps over other arrays, so which byte strings it skips that do not unpack is not modelled for them, nor are ranges on these types.
- VerifyFields, and the exceptions' lists of field names.
- Cyclic inheritance: a class's parents are declared before it.

WebSocket
- The handshake, bytes that arrive with it, TLS, the alternative protocol, and sending queues.
- Whether a text is UTF-8 is a parameter; callbacks do not close the connection themselves.

Arithmetic
- PackInt.PackData.AppendInt64: a signed overflow of the 64-bit product, undefined in C++, is taken to wrap around; 32-bit values never reach it.
- PrimeNumberGenerator.PrimeNumberGenerator.At: squares do not overflow.
