# A verified model of the judgment-pack gateway

The gateway acquires inputs and performs actions for an agent under one signing identity,
and signs what happened. This project models the parts of it whose promises are hardest to keep and
proves those promises for all inputs and all runs:

- **The keyed-action journal.** A write is bound to a key. Requests of any number of
  processes race over a shared directory with exclusive creates and renames; processes die
  anywhere and the machine may lose power. `Journal.dfy` is the protocol as a state
  machine, one file operation a step; `JournalSafety.dfy` is the invariant and what each
  step may do to the others; `JournalTheorems.dfy` is what holds over every run, and
  `JournalAnswers.dfy` what each verdict says of the store; `Claim.dfy` is an opened
  reservation with its looping operations, and ties them to the machine's steps;
  `JournalReference.dfy` decides an undisturbed request at once from the store it finds, and
  the machine comes to that answer; `JournalRuns.dfy` goes on from any run to that answer.
- **Canonical JSON.** `Utf8.dfy`, `Json.dfy`, `Sorting.dfy` (values, their bytes, the order
  of members), `Parser.dfy` (what the parser reads, as functions), `Reading.dfy` (one step of
  it), `TextParser.dfy` (the parser object with its position), `Grammar.dfy` (JSON text as a
  relation, without a reader), `GrammarReads.dfy`, `GrammarTheorems.dfy`, `RoundTrip.dfy`,
  `CanonTheorems.dfy`, `ParserTheorems.dfy`, `Shortest.dfy` (which of a value's texts is the
  canonical one).
- **Decision policies.** `Pointers.dfy` (JSON pointers), `Policy.dfy` (bind, fix, shape and
  closed), `PolicyTheorems.dfy`, `PolicyExact.dfy`, `PolicyMeaning.dfy` (what passes, position
  by position).
- **Delegation.** `Delegation.dfy`, `DelegationTheorems.dfy` (chains), `Credentials.dfy`
  (live credentials, proofs seen), `ProofMemory.dfy` (runs of the proof memory).
- **Descriptor serving and the gate.** `Schema.dfy`, `SchemaNames.dfy` (the keywords by name),
  `SchemaTheorems.dfy`, `ServedSchemas.dfy` (the schema as served, and as its bytes read back),
  `Listing.dfy` (the bounded listing), `Fence.dfy` (count, then write), `Gate.dfy` (draining).

## How the source is read

- Text is a sequence of Unicode scalar values; bytes are integers below 256. Integers are
  unbounded: the safe-integer range, the nesting bound and every other limit is written out.
- An object keeps its members in the order set. `Json.Same` is equality of JSON values, in
  which that order does not count.
- A refusal carries no text. Errors of input and output end a request: in the journal that is
  the event `Die`, which may come at any step.
- In the journal, namespaces, fingerprints and index file names are the scopes and contents
  themselves, so hashes are injective by construction. `maker`, `started`, `freed`, `replies`
  and `late` are history: no step reads them.
- A loss of power (`Recovers`) keeps every name in a directory that was synced and every byte
  that was synced, and of the rest any part. It ends every request.
- A source program is taken by its contract: an error that says it was not started means it
  never ran; any other outcome counts as started.
- A schema's text is decoded by the same grammar with every number kept as spelled (the setting
  `WRITTEN`), which is how `encoding/json` is taken to read it; what number a spelling names is a
  parameter, and the results about schemas hold for every such reading.
- Times are integers of nanoseconds. Clocks, random tokens and signatures are parameters or
  have already been checked where a model begins.

## Two results about the code

- *A closed policy need not determine the arguments.* Where no shape holds a container and the
  policy's pointers go on from it by exactly the indices below some number, an array and an
  object with members "0", "1", ... both pass. `PolicyExact.DeterminedExactly` proves that this
  is the only way: a closed policy that admits some arguments on a record's facts admits no
  others if and only if it has no such place.
- *The proof memory needs a clock that does not go back.* The time of a check is taken before
  the lock. `ProofMemory.BackwardClockReplays` is a proof accepted twice when a later time
  prunes in between; `ProofMemory.ReplayExactly` says exactly when that happens, and
  `ProofMemory.NoProofTwice` that it never does while times in the order of the lock do not
  decrease.

## Model

| member | source | states |
|---|---|---|
| `JournalSafety.EveryStep` | go/act.go:278-544 | Every step of every request, whatever the others did before, keeps the store's invariant and the request's own, and changes the store only in ways that leave every other request's standing facts true; what the verdict of a step says is `JournalAnswers.VerdictMeans` |
| `JournalTheorems.RunSafe` | go/act.go:278-697 | Every state of every run, with any interleaving, deaths and losses of power, meets the invariant on which the results over runs rest |
| `JournalTheorems.AtMostOneProgram` | go/action_journal.go:502-559 | In every run at most one write program is ever started under one reservation |
| `JournalTheorems.StartsOnAnsweredAttempts` | go/action_journal.go:507-525 | When attempt n's program starts, every attempt below n holds a complete not-dispatched answer and is never started, before or after |
| `JournalTheorems.NotDispatchedIsForever` | go/action_key_index.go:196-211 | Once a request is answered not-dispatched, no program was or will be started under the key in that scope, nor in any scope by a request that sends keyScope or comes under a delegation |
| `JournalTheorems.ClosedAnswerIsForever` | go/act.go:353-367 | A key answered closed is never dispatched in its scope, before or after the answer |
| `JournalTheorems.OneScopeDispatches` | go/action_key_index.go:158-189 | When every request sends keyScope or is made under a delegation, one scope alone ever dispatches the key, and once |
| `JournalTheorems.ForeignNeverActs` | go/act.go:278-345 | A request that found the first scope another's adds no reservation, marker or answer, and stays so |
| `JournalTheorems.PowerLossKeeps` | go/action_journal.go:356-368 | A loss of power that drops every name and byte not synced keeps the invariant |
| `JournalTheorems.RecoveryKeepsWhatWasSaid` | go/action_journal.go:413-469 | After a loss of power each started program's reservation and dispatch marker are there, markers are a prefix 1..k, and each closed or not-dispatched answer given still rests on a close, the latter on the first scope |
| `JournalTheorems.NoCloseBesideResponse` | go/act.go:519-525 | No state holds both a close and a retained action whose outcome is a response |
| `JournalTheorems.ClosedKeyNeverConsultsAction` | go/act.go:350-402 | A request that begins after its key is closed never reads action.json and is never answered from retained evidence, whatever is recorded since |
| `JournalAnswers.VerdictMeans` | go/act.go:278-544 | In every run, the step that gives a request its verdict finds or leaves the store as the verdict says: another scope first, another content reserved, sixteen complete answers, a close answered, a retained record of that outcome, an answer that frees the attempt and no program of this request |
| `JournalAnswers.ReplayedWasRetained` | go/act.go:386-398 | In every run, a request answered a retained outcome ran in a state in which its own scope's reservation held its own content and a record of that outcome |
| `JournalAnswers.RecordedIsRetained` | go/act.go:674-696 | In every run, a request answered with the outcome it recorded ran in a state in which its reservation, of its content, retained that outcome |
| `JournalAnswers.OutcomeStands` | go/act.go:674-696 | In every run, through losses of power too, a retained outcome and its content do not change while the record's name stands |
| `JournalAnswers.ResponseWasRead` | go/act.go:527-544 | In every run, a request that records or recorded a response ran a program whose result read as one |
| `JournalAnswers.ReadIsTold` | go/act.go:527-544 | In every run, a request whose program's result read is never answered anything but that response, or a refusal where it could not be recorded |
| `JournalReference.UndisturbedAnswer` | go/act.go:278-544 | Whatever the store holds, a request that arrives and is not disturbed comes to the verdict decided at once from the first scope, the reservation's content, its closes, its record and its attempts, and to that program started or none; a recorded outcome is retained and a close's answer is given |
| `JournalReference.RetainedIsReplayed` | go/act.go:386-398 | Undisturbed, a request for content whose outcome is retained under a key not closed is answered that outcome and starts nothing |
| `JournalReference.LostScopeEnds` | go/action_key_index.go:158-189 | A request that finds another's scope first as it comes to hold its own starts nothing and is answered from its own scope's reservation as a request that the first scope is not |
| `JournalReference.LostEntryEnds` | go/action_journal.go:413-469 | A reservation another request published first is opened, and answered from, as one that was there |
| `JournalReference.LostNameEnds` | go/act.go:421-434 | A request that finds the name it was to claim or close taken starts nothing: it is answered a close, if there is one, and else records uncertainty |
| `Journal.ParseKeyScope` | go/action_key_index.go:44-77 | A request is read exactly when each member given is valid and has a key, keyScope comes under no delegation, and reconcile comes with keyScope or a delegation; then it is read as sent |
| `JournalRuns.EveryRunGoesOn` | go/act.go:278-544 | Every run goes on to one in which a request that arrives at its end has the answer of the reference, the other requests where they were |
| `JournalRuns.SomeRunReplays` | go/act.go:386-398 | There is a run in which a request starts its program and is answered the response it records, and its retry is answered that response with no second program |
| `JournalRuns.SomeRunCloses` | go/act.go:316-328 | There is a run in which a reconciling request on an unused key closes it and is answered not-dispatched, no program started |
| `Claim.ActionClaim.Attempt` | go/action_journal.go:507-522 | The loop over attempts gives the first that is not answered, and says whether it is free, begun or closed |
| `Claim.AttemptMeans` | go/action_journal.go:502-522 | An attempt is free exactly when it is the first without a marker and every marker below is beside a complete answer |
| `Claim.ActionClaim.IsClosed` | go/action_journal.go:593-602 | The scan says closed exactly when some attempt's marker is a complete close |
| `Claim.ActionClaim.ClaimDispatch` | go/action_journal.go:532-559 | Claiming the free attempt makes it begun for every later request; a taken name is told to be a close or a claim, and nothing changes |
| `Claim.ClaimBegins` | go/action_journal.go:502-559 | After a claim of the free attempt no request finds an attempt free until it is answered |
| `Claim.ClaimAlone` | go/act.go:496-518 | Undisturbed, the machine's steps of a claim are that operation: the marker whole under a delegation, torn and then written and synced without one, or a name found taken |
| `Claim.ActionClaim.CloseDispatch` | go/action_journal.go:604-625 | Closing the free attempt is what every later request finds there; with a marker there or above nothing changes |
| `Claim.CloseIsFound` | go/action_journal.go:604-625 | After a close of the free attempt every scan finds the key closed at it |
| `Claim.ActionClaim.ReleaseDispatch` | go/action_journal.go:655-660 | Answering a begun attempt leaves the dispatch state to the attempts above it; an answer already there is left alone |
| `Claim.ReleaseFrees` | go/action_journal.go:507-522 | Claiming the free attempt and releasing it frees the next one, or exhausts the attempts |
| `Claim.ReleaseAlone` | go/act.go:535-544 | Undisturbed, the machine's steps of a release are that operation: the answer created, written and synced, or one found there, which leaves uncertainty to record |
| `Claim.AttemptAlone` | go/act.go:403-434 | Undisturbed, the machine's steps through the attempts are the loop of attempt and lead where its answer leads |
| `Claim.RescanAlone` | go/act.go:519-525 | Undisturbed, the scan before recording uncertainty is the loop of closed |
| `Claim.RescannedMeans` | go/action_journal.go:593-602 | That scan finds the key closed exactly when a close stands among the attempts looked at |
| `Claim.CloseAlone` | go/act.go:421-434 | Undisturbed, the machine's steps of a close are closeDispatch on every path: a marker above, a name taken by a close or a claim, or the close linked and synced |
| `Utf8.DecodeEncode` | go/canon.go:484-491 | Decoding the bytes of a scalar value gives it back with its length |
| `Utf8.EncodeDecode` | go/canon.go:484-491 | What decodes is exactly the encoding of the scalar it decodes to |
| `Utf8.EncodeForms` | go/canon.go:484-491 | A scalar takes one to four bytes by its range, each after the first carrying six bits, and is what they spell |
| `Utf8.ByteOrderIsCodePointOrder` | go/canon.go:83-102 | The byte order of UTF-8 is code-point order, for all texts |
| `Utf8.LessExactly` | go/canon.go:83-102 | One text is before another exactly when it is the lesser where they first differ, or is a proper part of it from the start |
| `Utf8.PrefixBytes` | go/decision_policy.go:637-656 | A byte prefix of UTF-8 text is a prefix of its scalars, so encoding is injective |
| `Sorting.SortAscends` | go/canon.go:83-102 | Sorted members stand in strictly ascending code-point order |
| `Sorting.AscendingWithin` | go/canon.go:83-102 | There is only one such order of a set of members |
| `ParserTheorems.ParsesExactly` | go/canon.go:271-626 | The parser, under any setting without a budget, accepts exactly the texts of a grammar of RFC 8259 stated without a reader, whose value has no name twice, safe integers and nesting within bounds, each as the value it is a text of |
| `ParserTheorems.ParsesDomainTexts` | go/canon.go:236-240 | For canonical JSON: exactly the texts of values of the domain |
| `GrammarReads.ValueReads` | go/canon.go:295-337 | Wherever a text of a value stands, followed by nothing that goes on a number, reading gives that value and stops at its end |
| `GrammarTheorems.StringIsText` | go/canon.go:434-544 | Every string read is a text of its characters: plain, short escape, unit or surrogate pair |
| `Grammar.UnitDigits` | go/canon.go:522-544 | A unit escape is of the number its four hex digits spell, in either case |
| `GrammarTheorems.NumberIsText` | go/canon.go:546-626 | Every number read is one of the grammar, and is kept as an integer or as spelled as the setting says |
| `RoundTrip.StringText` | go/canon.go:155-182 | A written string is a text of its characters, escapes included |
| `RoundTrip.IntText` | go/canon.go:117 | A written safe integer is a text of it |
| `RoundTrip.CanonIsText` | go/canon.go:83-182 | Canonical bytes, wherever they stand, are a text of the value with its members sorted |
| `Shortest.ShortestCharacter` | go/canon.go:155-182 | The bytes of a character are no longer than any text of it, and any text as short is those bytes but for the case of hex letters: plain where it may stand plain, the short escape where there is one, lower-case hex |
| `Shortest.ShortestText` | go/canon.go:83-182 | Every text of a member-sorted value is at least as long as its canonical bytes, and one as long is those bytes but for the case of hex letters |
| `Shortest.CanonIsShortest` | go/canon.go:83-189 | Of all texts of a value with its members sorted, the canonical bytes are the shortest one |
| `Shortest.CanonHasNoSpace` | go/canon.go:83-182 | No byte of canonical bytes that stands outside a string is white space |
| `RoundTrip.WrittenReadsBack` | go/canon.go:83-190 | Under any setting without a budget, what is written of a value whose numbers the setting reads is read back as that value, members sorted, numbers kept as spelled included |
| `RoundTrip.CanonRoundTrip` | go/canon.go:83-199 | Parsing the canonical bytes of any value of the domain gives that value with its members in canonical order |
| `CanonTheorems.CanonReadsSame` | go/canon.go:185-199 | What is read back is the same JSON value |
| `CanonTheorems.CanonNormal` | go/canon.go:83-102 | The order members were set in changes no byte |
| `CanonTheorems.CanonInjective` | go/canon.go:185-189 | Two values of the domain have the same canonical bytes if and only if they are the same JSON value |
| `CanonTheorems.MembersInCodePointOrder` | go/canon.go:83-102 | An object's members are written in ascending code-point order, none lost and none added |
| `ParserTheorems.ParseInDomain` | go/canon.go:271-587 | Whatever the bytes, what the parser accepts is a value of the domain |
| `ParserTheorems.CanonTextIdempotent` | go/canon.go:191-199 | Canonical text is its own canonical form |
| `ParserTheorems.CanonTextDecides` | go/canon.go:191-199 | Two texts have one canonical form if and only if they spell the same value |
| `ParserTheorems.SettingsKeep` | go/canon.go:205-268 | Under any setting the parser accepts exactly what the loosest accepts that is canonical, where asked, and within the value budget, and gives the same value |
| `ParserTheorems.WithinAgrees` | go/canon.go:242-250 | The parser with a budget accepts exactly what the parser without accepts in at most that many values |
| `ParserTheorems.RecordAgrees` | go/canon.go:252-260 | The record parser gives a canonical value exactly where the canonical parser accepts, and the same value |
| `TextParsers.TextParser.Document` | go/canon.go:271-282 | The parser object reads what the reading function says |
| `TextParsers.TextParser.ParseValue` | go/canon.go:295-337 | The value, the position, the values counted and the depth restored are the reading function's |
| `TextParsers.TextParser.ParseMembers` | go/canon.go:354-401 | The loop over members reads them as the function does, refusing a name twice |
| `TextParsers.TextParser.ParseItems` | go/canon.go:403-432 | The loop over elements reads them as the function does |
| `TextParsers.TextParser.ParseString` | go/canon.go:434-493 | The loop over characters reads them as the function does |
| `TextParsers.TextParser.ReadHex4` | go/canon.go:522-544 | The loop over four hex digits gives their value or refuses |
| `TextParsers.TextParser.ParseNumber` | go/canon.go:546-587 | A number is read, refused or kept as spelled as the function says |
| `Pointers.CheckPointer` | go/decision_policy.go:328-344 | A text is a valid pointer if and only if it is the spelling of some list of tokens |
| `Pointers.UnescapeFirst` | go/decision_policy.go:354-355 | Replacing ~1 and then ~0 undoes a character's spelling, whatever follows it |
| `Pointers.EscapeByLetter` | go/decision_policy.go:671-677 | A name is escaped letter by letter, ~ as ~0 and / as ~1 |
| `Pointers.UnescapeEscape` | go/decision_policy.go:671-677 | Every name is read back from its escaped token |
| `Pointers.EscapeUnescape` | go/decision_policy.go:354-355 | Every valid token is the escaped form of what it is read as |
| `Pointers.TokensOfSpell` | go/decision_policy.go:350-355 | Every list of tokens is read back from its pointer |
| `Pointers.SpellOfTokens` | go/decision_policy.go:350-355 | Every valid pointer is the spelling of its tokens |
| `Pointers.ProperPrefix` | go/decision_policy.go:636-656 | One pointer followed by a slash is a prefix of another exactly when its tokens are a proper prefix of the other's |
| `Pointers.IndexSpelling` | go/decision_policy.go:363-370 | A token names an array index exactly when it is that index in decimal |
| `Pointers.ResolvePointer` | go/decision_policy.go:346-377 | The loop over tokens gives the value the tokens lead to, or none |
| `Pointers.ResolvesToItsSpelling` | go/decision_policy.go:346-377 | A valid pointer resolves to a position if and only if it is that position's escaped spelling |
| `PolicyTheorems.WalkTests` | go/decision_policy.go:637-656 | The walk's string-prefix tests are prefix tests of token lists |
| `PolicyTheorems.WalkExact` | go/decision_policy.go:636-694 | The walk answers none if and only if every position below the root is at or under a named pointer, or is a container on the way to a named or shaped pointer or shaped itself; otherwise it answers the pointer of a position that is not |
| `Policy.HoldBindings` | go/decision_policy.go:538-558 | All bindings hold: the argument and a canonical fact are there with the same canonical bytes |
| `Policy.HoldFixed` | go/decision_policy.go:559-569 | All fixed values hold; which values hold one is `PolicyMeaning.HoldsExactly` |
| `Policy.HoldShapes` | go/decision_policy.go:570-585 | All shapes hold; which values hold one is `PolicyMeaning.HoldsExactly` |
| `PolicyMeaning.HoldArguments` | go/decision_policy.go:538-592 | The arguments pass if and only if every bound argument stands at a position its pointer spells and is the same JSON value as a canonical fact, every fixed one has the bytes fixed, every shaped one is an object or an array of at most its bound, and, closed, no position is out of every pointer's reach |
| `PolicyMeaning.HoldsExactly` | go/decision_policy.go:538-592 | The same of the tests themselves, for every policy, facts and arguments of the domain |
| `PolicyMeaning.WrongShapeRefused` | go/decision_policy.go:570-585 | Arguments with an array over its bound at a shape's pointer, a value of another kind, or nothing, are refused |
| `PolicyMeaning.FixedIsValue` | go/decision_policy.go:559-569 | An argument fixed to the canonical bytes of a value passes exactly when it is that value |
| `PolicyTheorems.PolicyDetermines` | go/decision_policy.go:538-592 | A closed policy with no ambiguous place admits, on one record's facts, at most one arguments object, as a value and as canonical bytes |
| `PolicyTheorems.ShapedIsUnambiguous` | go/decision_policy.go:621-626 | Shaping every uncovered container the pointers pass through leaves no ambiguous place |
| `PolicyExact.AmbiguousAdmitsTwo` | go/decision_policy.go:614-636 | Where there is an ambiguous place, beside any arguments that pass others pass that are not the same |
| `PolicyExact.DeterminedExactly` | go/decision_policy.go:538-592 | Arguments that pass are the only ones if and only if the closed policy has no ambiguous place |
| `PolicyExact.TwoReadings` | go/decision_policy.go:350-377 | The closed policy that fixes /x/0 to 1 and shapes nothing admits both {"x":[1]} and {"x":{"0":1}}, which are not the same |
| `Delegation.CheckTexts` | go/delegation_statement.go:251-271 | Comparing neighbours decides whether the whole list is in strictly ascending code-point order |
| `Delegation.CheckEffects` | go/delegation_statement.go:305-317 | Comparing neighbours decides whether effects strictly strengthen |
| `Delegation.OneEntry` | go/delegation_statement.go:335-346 | A link has at most one entry for an audience and a source |
| `DelegationTheorems.EntryOrder` | go/delegation_statement.go:335-346 | Entries are ordered by the texts of audience kind, audience name and source, each by code point |
| `DelegationTheorems.EffectOrder` | go/delegation_statement.go:305-317 | The five effects strengthen in the order pure, read, read-external, propose, act, and in no other |
| `Delegation.CheckNarrows` | go/delegation_statement.go:550-592 | The child keeps the subject, lies within the parent's validity, every entry within the parent's, and the parent permits a child |
| `DelegationTheorems.NarrowsExactly` | go/delegation_statement.go:550-592 | What it decides, entry by entry: the same audience and source above, every tool and effect there, and every limit there kept with a value no larger |
| `Delegation.VerifyChain` | go/delegation_statement.go:525-548 | A chain is accepted, refused as broken or refused as widened exactly as steps 6 and 7 say, in that order |
| `DelegationTheorems.WholeExactly` | go/delegation_statement.go:525-541 | A chain is whole exactly when it has one to five links, the first with no parent, each other with the identifier and digest of the one above, all of one host, depth being the position |
| `DelegationTheorems.AuthorityNarrows` | go/delegation_statement.go:550-592 | On an accepted chain every entry of a link has, in every link above, an entry of its audience and source with all its tools and effects, every limit named there being named below with a value at most as large; subject, host and validity narrow too |
| `DelegationTheorems.WideningRefused` | go/delegation_statement.go:550-592 | In an otherwise whole chain a link that changes the subject, outlives its parent, adds a source, a tool or an effect, or drops or raises a limit is not accepted |
| `DelegationTheorems.WithinAncestors` | go/delegation_statement.go:525-592 | On an accepted chain each link lies within every ancestor; entry by entry that is `DelegationTheorems.AuthorityNarrows` |
| `DelegationTheorems.DepthCounts` | go/delegation_statement.go:525-541 | On an accepted chain depth counts the links above, and every link but the leaf permits a child |
| `Delegation.CheckTime` | go/delegation_statement.go:594-608 | Not yet valid before expired, over all links |
| `DelegationTheorems.LeafDecidesTime` | go/delegation_statement.go:594-608 | On an accepted chain step 8 over all links answers as on the leaf alone: not yet valid before it is issued, expired from its expiry on |
| `Delegation.CheckScope` | go/delegation_statement.go:616-651 | The first link's first reason against the call |
| `DelegationTheorems.LeafDecidesScope` | go/delegation_statement.go:616-651 | On an accepted chain step 11 admits a call if and only if the leaf has an entry for the gateway and the source that names the tool and, unless only those are asked, the effect and no limit but calls |
| `DelegationTheorems.ReasonMeans` | go/delegation_statement.go:616-651 | Which of the four reasons a link gives against a call, by its entry for the gateway and the source |
| `DelegationTheorems.RootDecidesReadOnly` | go/delegation_statement.go:131-146 | On an accepted chain no link admits a write if and only if the root's entries name only pure, read and read-external |
| `Credentials.UnexpiredIsInForce` | go/delegation_credential.go:161-166 | A credential unexpired at a time no earlier than its binding is never refused for time, by any link |
| `Credentials.CheckBind` | go/delegation_credential.go:117-156 | A chain may be bound if and only if it is accepted, its host's, in force, for the run's software, admitted by the issuing host, and read-only where the credential is a bearer's |
| `Credentials.MayBindExactly` | go/delegation_credential.go:117-156 | That is: the chain is accepted, every link names the asking host, the leaf is in force and for the run's software, the host admits it, and without a key the gateway allows bearers and the root grants reading alone |
| `Credentials.DelegationService.Bind` | go/delegation_credential.go:144-173 | A credential is bound exactly when the chain may be and the pruned table has room, with what was asked and an expiry that is the earlier of five minutes on and the leaf's; refused otherwise, with nothing changed or with the tables pruned; the table stays within its bound |
| `Credentials.DelegationService.PruneLocked` | go/delegation_credential.go:191-203 | A credential is kept exactly while the time is before its expiry, a proof exactly while it is not after its last moment |
| `Credentials.DelegationService.Revoke` | go/delegation_credential.go:205-250 | Exactly the host's credentials of the digest named, or with a link of the delegation's identifier or of the agent named, are ended, and their number is told |
| `Credentials.DelegationService.Live` | go/delegation_credential.go:314-321 | Live means bound and unexpired, and then no link refuses for time unless the clock stands before the binding |
| `Credentials.DelegationService.VerifyProof` | go/delegation_credential.go:450-473 | A proof is accepted exactly when its time is within sixty seconds either way, its identifier is not remembered to this time and fewer than 65536 are; it is then remembered to sixty seconds past its time; the memory stays within its bound |
| `ProofMemory.RememberedUntil` | go/delegation_credential.go:191-203 | An accepted proof is remembered until an event prunes past its last moment |
| `ProofMemory.NoProofTwice` | go/delegation_credential.go:450-473 | With check times that do not decrease in the order of the lock, no proof is accepted twice, over any run |
| `ProofMemory.ReplayNeedsEarlierClock` | go/delegation_credential.go:450-473 | Over any run, a proof accepted twice means the memory was pruned in between at a later time than the second acceptance was given |
| `ProofMemory.ReplayExactly` | go/delegation_credential.go:450-473 | Until another of its identifier is accepted, a proof presented again is accepted if and only if its time is in the window, the memory has room, and the memory was pruned past its last moment since, whatever was presented and refused in between |
| `ProofMemory.BackwardClockReplays` | go/delegation_credential.go:275-300 | With times out of order a proof is accepted twice |
| `ProofMemory.MemoryBounded` | go/delegation_credential.go:464-471 | The proof memory never passes its bound, over any run |
| `Schema.JudgeSchema` | go/descriptor_schema.go:241-256 | A text is accepted if and only if it is within its bound, one strict JSON value, every location conforms to the grammar at its depth and the locations are within their bound |
| `Schema.GrammarWalk.Schema` | go/descriptor_schema.go:288-316 | Walking a location counts its locations, and refuses exactly when it does not conform or they do not fit |
| `Schema.GrammarWalk.Keyword` | go/descriptor_schema.go:318-574 | The same for one keyword's value, those that hold no schema included: type names, required names, enumerations of distinct scalars, numbers and lengths as written, strings, data |
| `SchemaNames.SchemaConforms` | go/descriptor_schema.go:288-316 | A schema is an object at most 32 deep whose members each conform, the root's with a type |
| `SchemaTheorems.CountsLocations` | go/descriptor_schema.go:288-299 | What the walk counts is how many positions of the schema are schema locations, told by the names that lead to them |
| `SchemaNames.TypeRule` | go/descriptor_schema.go:320-341 | type is object at the root, and elsewhere one of the seven names or some of them, each once |
| `SchemaNames.RequiredRule` | go/descriptor_schema.go:357-378 | required is at most 256 distinct strings of at most 1024 bytes |
| `SchemaNames.EnumRule` | go/descriptor_schema.go:389-410 | enum is one to 256 scalars, no two of one value |
| `SchemaNames.ConstRule` | go/descriptor_schema.go:411-414 | const is a scalar |
| `SchemaNames.NumberRule` | go/descriptor_schema.go:415-420 | A limit on a number is a number, its spelling within bounds |
| `SchemaNames.MultipleRule` | go/descriptor_schema.go:421-430 | multipleOf is a number above zero |
| `SchemaNames.ExponentRule` | go/descriptor_schema.go:543-560 | A number with an exponent is within bounds exactly when it is at most 32 characters long and the exponent is at most 308 either way, leading zeros or not |
| `SchemaNames.PlainRule` | go/descriptor_schema.go:543-560 | One without an exponent, exactly when it is at most 32 characters long |
| `SchemaNames.SizeRule` | go/descriptor_schema.go:431-434 | A limit on a size is a number spelled in digits, without a leading zero, at most 2^53-1 |
| `SchemaNames.AnnotationRule` | go/descriptor_schema.go:448-465 | Annotations are texts of at most 1024 bytes, lists of examples, data or booleans, each by its name |
| `SchemaNames.DialectRule` | go/descriptor_schema.go:466-473 | $schema stands at the root alone and names 2020-12 or draft-07 |
| `SchemaNames.OtherNames` | go/descriptor_schema.go:474-476 | A member of any other name is refused |
| `SchemaNames.PropertiesRule` | go/descriptor_schema.go:342-356 | properties is at most 256 schemas one deeper, by names of at most 128 bytes |
| `SchemaNames.BranchRule` | go/descriptor_schema.go:435-445 | anyOf, oneOf and allOf are one to 16 schemas one deeper |
| `SchemaNames.OneSchemaRule` | go/descriptor_schema.go:379-388 | items and not are a schema one deeper, additionalProperties one or a boolean |
| `SchemaNames.AnnotationNames` | go/descriptor_schema.go:577-579 | A keyword is an annotation exactly when its name is one of the eight |
| `SchemaNames.ShapeKeywords` | go/descriptor_schema.go:318-430 | Each of the first eleven keywords is spelled by its one name, and by no other |
| `SchemaNames.LimitKeywords` | go/descriptor_schema.go:421-447 | The same of the limits on sizes and of the keywords that combine schemas |
| `SchemaNames.TypeNames` | go/descriptor_schema.go:320-341 | Each type name is its own type, and no other text is one |
| `SchemaTheorems.WriteIsCanon` | go/descriptor_schema.go:668-757 | The bytes written while walking are the canonical bytes of the schema without its annotations |
| `SchemaTheorems.StripValidates` | go/descriptor_schema.go:577-579 | For every schema, instance and reading of number spellings, removing the annotations changes nothing of what is admitted |
| `SchemaTheorems.OnlyAnnotationsRemoved` | go/descriptor_schema.go:668-757 | A position survives exactly when the way to it goes by none of the eight names at a schema location, schema locations told by the names of their members: a property of such a name, and all data, stays |
| `SchemaTheorems.OnlyEightGone` | go/descriptor_schema.go:577-579 | A member of a schema location is gone exactly when its name is one of the eight, and one that holds no schema is otherwise there unchanged |
| `SchemaTheorems.RestrictionsStay` | go/descriptor_schema.go:668-757 | enum, const, type, required and every limit are there unchanged |
| `ServedSchemas.ServedReads` | go/descriptor_schema.go:668-757 | The bytes served of any schema read from text decode to that schema without its annotations, members sorted, each number as it was spelled |
| `ServedSchemas.NormalValidates` | go/descriptor_schema.go:681-700 | The order of a schema's members bears on no instance, constants compared as JSON values at every depth |
| `ServedSchemas.ServedAdmits` | go/descriptor_schema.go:577-579 | For every schema, instance and reading of number spellings, the schema read back from the served bytes admits the instance if and only if the schema does |
| `ServedSchemas.ServedSchema` | go/descriptor_schema.go:241-477 | A schema the judge accepts is served as bytes that read back as one it accepts, with as many locations, admitting the same instances |
| `ServedSchemas.ProjectTwice` | go/descriptor_schema.go:668-757 | Serving what the served bytes read back as gives the same bytes |
| `Listing.ListingCount.Add` | go/descriptor_start.go:293-308 | One entry and its comma are counted, and the bound decides |
| `Listing.CountListing` | go/descriptor_start.go:271-308 | The count is the real size of the answer with no snapshot, and the start is refused exactly when that passes the bound |
| `Listing.Describe` | go/descriptor_start.go:347-360 | A platform's tools fit one by one, in the room left, if and only if they fit together |
| `Listing.ServePlatform` | go/descriptor_start.go:346-368 | A platform is served whole if the answer then fits, or not at all |
| `Listing.BuildListing` | go/descriptor_start.go:310-376 | The greedy pass keeps exactly the platforms left by dropping from the table's end until the answer fits; the total is the answer's real size, within the bound; the entries and the names dropped are those |
| `Listing.LongestRun` | go/descriptor_start.go:323-327 | When described entries are never shorter, the longest run that fits is what dropping from the end leaves |
| `Listing.KeptIsMost` | go/descriptor_start.go:323-327 | What dropping from the end leaves fits, unless nothing is left, and leaving more of the start would not |
| `Listing.AnswerIsJoined` | go/descriptor_start.go:293-308 | The size counted is the length of the answer's bytes, the entries joined by commas |
| `Fence.BlockWriter.AddPart` | go/descriptor_render.go:185-209 | Counting gives the size and the runs of exactly the bytes that writing writes, across parts |
| `Fence.IndentedByTwo` | go/descriptor_render.go:185-209 | Every line feed of a part is followed by two spaces, and exactly those were put in |
| `Fence.BodyIsLines` | go/descriptor_render.go:156-183 | The body is the items' texts on lines of their own, however the feed parts them |
| `Fence.BlockWriter.Take` | go/descriptor_render.go:121-126 | A feed is taken whole, or stops only when the count has passed the limit |
| `Fence.Fenced` | go/descriptor_render.go:116-154 | The unbounded block is returned exactly when its length is within the limit |
| `Fence.NothingInsideCloses` | go/descriptor_render.go:101-105 | No run of backticks in the body is as long as the fence |
| `Fence.FenceIsShortest` | go/descriptor_render.go:121-130 | The fence is three backticks, or one more than a run the body holds |
| `Fence.LongestRunOf` | go/descriptor_render.go:211-223 | The loop gives the longest run |
| `Fence.LongestRunIsLongest` | go/descriptor_render.go:211-223 | No run of backticks in a text is longer than that |
| `Fence.LongestRunIsThere` | go/descriptor_render.go:211-223 | There is a run that long |
| `Fence.CodeSpanCloses` | go/descriptor_render.go:225-238 | For every identifier but the empty one, and for no other, the result opens with a run of exactly its delimiter's length and the first such run after it is its end |
| `Fence.SpanShows` | go/descriptor_render.go:225-238 | What a renderer shows of the span, stripping a space inside each end, is the identifier |
| `Gate.AdmissionGate.CloseLocked` | go/gate.go:53-69 | A fresh closure, drained at once exactly when nothing is pending, or the current one; the closing channel of an opening is closed once |
| `Gate.AdmissionGate.OpenLocked` | go/gate.go:71-85 | Reopening ends a closure that has not drained, and no other, so its channel is closed once |
| `Gate.AdmissionGate.AdmitLocked` | go/gate.go:87-94 | Nothing is admitted while closed |
| `Gate.AdmissionGate.FinishLocked` | go/gate.go:96-110 | The last finish drains the closure that waited, and returns it |
| `Gate.Operate` | go/gate.go:55-110 | Over any sequence of operations pending is admitted less finished, a closed gate's closure is drained exactly when nothing is pending, and every closure but one still waiting ended exactly once |

## Left out

- Cryptography: signatures, digests and base64 are not modelled; a chain's links and a proof come with signatures verified.
- HTTP, tokens, JSON Web Keys, the admission and standing reads: input and output around the logic modelled.
- Files damaged by anything but the modelled operations, and file owners, modes and links: the journal's refusals of them only refuse more.
- The subject-key record of a delegated actor (go/action_journal.go:306-337): it only refuses more requests before they touch the reservation.
- Requests that send neither keyScope nor come under a delegation are in the machine, but `OneScopeDispatches` does not cover them: they read the index without holding it.
- The receipt of an action, its session chain and the read-back after uncertainty: a journal step records only whether the outcome is a response or uncertain.
- The texts and names of refusals, apart from those a property distinguishes.
- `encoding/json`: its decoder is taken to read the grammar, so the stack of go/descriptor_schema.go:69-154 is not modelled, and listing entries start as their sizes.
- Policy parsing, and the checks of a record before its arguments are held (outcome, handoff, packs, reviewed, citations): an ordered list of simple tests.
- PolicyMeaning.HoldArguments: says whether the arguments pass, not which pointer the refusal names.
- Delegation.VerifyChain: begins at step 6; the members' forms before it are a predicate on links, and the scope's size caps are not in it.
- Schema.JudgeSchema: says whether a schema is accepted, not which code and pointer refuse it; which texts display policy 1 shows is a parameter, and the values of keywords that hold no schema are judged by predicates, not by the loops that collect what was seen.
- Schema.Validates: an annotation's or an unknown keyword's value admits everything; `$schema` selects nothing, since the two dialects agree on these keywords.
- Labels of descriptions in a schema (go/descriptor_schema.go:600-650): would only add an easier walk.
- Listing.BuildListing: snapshots are not read or verified, and an entry's two sizes are given; that a described entry is never shorter is the source's own assumption, stated as a precondition.
- Fence.CodeSpanCloses: takes the identifier already escaped; the escape of control characters is not modelled.
- Gate: the text of its reports and the diagnostics stream.
- Connections, the document reader, provider adapters, the conformance runners, export and the witness log.
