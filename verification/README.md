# A model of Guardrail, and what it proves

Guardrail decides what happens to an agent's tool call before it runs, records the decision in a hash chain, and holds
some calls for a human. This project models the components that carry that promise and proves their properties for every
input, every interleaving and every reachable state.

## How it is built

The services share one key-value table. It is modelled as an atomic map with a strongly consistent read, a conditional
put and a conditional update, split by the disjoint shapes of its keys into the audit chain, the held decisions, the
policy versions and the idempotent responses. A repository method that talks to the table is a small program; one step is
one table operation, and a run is any sequence of events, so every interleaving of any number of callers is a run. What
the surroundings decide (clock readings, throttling, errors, lost replies, the jitter of back-off) comes with the event.
Code that updates its own state in place is a class or a loop, proved against a function; the theorems are about that
function.

| file | models |
|---|---|
| `Order.dfy`, `Reals.dfy` | code-point order on strings, sorting by a key; a little real arithmetic |
| `Json.dfy`, `JsonText.dfy` | documents, the canonical writer, the reader; the text by value |
| `Slots.dfy` | zero-padded sort keys and the queries over them |
| `HashChain.dfy` | records, storage form, the verifier, the tamper-evidence reduction |
| `AuditLog.dfy`, `AuditProtocol.dfy` | one append, and any number of them; verification of the stored chain |
| `InMemoryAudit.dfy` | the in-memory audit repository |
| `Decisions.dfy`, `ReviewProtocol.dfy` | held decisions, and concurrent reviewers |
| `ReviewQueue.dfy` | the paged queue, the in-memory decision repository |
| `Policy.dfy`, `Facts.dfy`, `Engine.dfy` | effects, operators, bundles; the extractors and the fact tree; evaluation, UNKNOWN |
| `PolicyStore.dfy`, `PolicyProvider.dfy` | versions and the active pointer, the hot-reload cache |
| `RateLimit.dfy` | token bucket and limiter |
| `Sdk.dfy` | breaker, retries, fail-open switch, the wait for a human |
| `Evaluation.dfy` | one evaluation, its record, its response; the record of a judgement |
| `EndToEnd.dfy` | endpoints and enforcement point over the chain, the decision store and the policy providers |

The hash is a parameter, an arbitrary function to texts of 64 characters; no proof assumes it injective. Tamper evidence
is a reduction: a function returns the broken hash. `dafny verify dfyconfig.toml` checks everything.

## Where the code and its descriptions part

- The zero padding holds 10^12 - 1 numbers in order. A chain that reaches 10^12 records stays linked and sound, but the
  head query then returns the record before the last, and no further append ever succeeds
  (`Slots.KeyOrderEnds`, `AuditLog.LatestIsLast`, `AuditProtocol.FullChainFinal`).
- UNKNOWN is handled soundly: a bundle the loader accepts permits nothing on the facts the service builds that it would not
  permit on the full facts (`Engine.UnknownSound`). This rests on the extractors, which return UNKNOWN as a whole or not at
  all, and on path validation; an extractor that returned an UNKNOWN inside a list would break it
  (`Engine.ExtractorContractExact`). "Resolves in whichever direction restricts" does not mean the effect never becomes less
  strict: it does in exactly two ways, neither of which gains permission (`Engine.EffectLoweredIff`,
  `Engine.LoweringOccurs`).
- An expired decision can become approved if a review captured its clock before the expiry and writes after it; in no other
  case (`ReviewProtocol.ExpiryFinalIff`), and it does occur (`ReviewProtocol.ExpiryRaceOccurs`).
- The queue walk stops after 1000 index entries, so it can miss live decisions behind stale ones
  (`ReviewQueue.QueueEquivalence` says exactly when, `ReviewQueue.StaleEntriesHide` gives such a queue).
- A policy may be served for up to `refresh_seconds` plus the time a refresh takes (`PolicyProvider.Freshness`), and not
  only `refresh_seconds`, unless refreshes take no time (`PolicyProvider.StalenessIff`). "Last known good" reaches back to
  the last invalidation only (`PolicyProvider.KeepsLastServed`).
- A policy item's tenant is recovered by splitting the partition key at the first `#POLICY#`, which is wrong for a tenant
  whose name makes that occur earlier (`PolicyStore.VersionRoundTrip`, `PolicyStore.TenantMisread`).
- A bucket's rate bound holds exactly while the clock does not run backwards (`RateLimit.BoundIff`); `now` is read before
  the lock is taken, so it can. Evicting a tenant never costs it calls in total, and changes nothing for a tenant that was
  never evicted itself; but a later single call can be refused, after at least one more was allowed
  (`RateLimit.CapNeverCosts`, `RateLimit.NeverEvictedSame`, `RateLimit.HarsherWasPaid`, `RateLimit.HarsherIff`).

## Model

| member | source | states |
|---|---|---|
| Json.LoadsWrite | packages/guardrail-service/src/guardrail_service/storage/audit.py:117-123 | Reading the canonical text of any well-formed document with the JSON reader gives that document back |
| Json.CanonicalRoundTrip | packages/guardrail-service/src/guardrail_service/storage/audit.py:117-129 | Storing a payload's canonical text and reading it back loses nothing but the order of dictionary entries, and printing again gives the same text, so the recomputed hash is the stored one |
| Json.CanonicalTextIdentifies | packages/guardrail-service/src/guardrail_service/storage/audit.py:117-123 | Two documents have one canonical text if and only if they are the same document up to the order of dictionary entries |
| Json.LoadsWellFormed | packages/guardrail-service/src/guardrail_service/storage/audit.py:243-251 | Whatever the reader accepts is a well-formed document: distinct keys, numbers that are numbers |
| JsonText.DocumentText | packages/guardrail-service/src/guardrail_service/storage/audit.py:117-123 | The text of a document, by value: its parts' texts joined by commas, keys and values by a colon, nothing else |
| JsonText.CanonicalText | packages/guardrail-service/src/guardrail_service/storage/audit.py:117-123 | The canonical text is that of the same document with the keys strictly increasing at every depth, and holds no space outside its string literals |
| JsonText.PlainQuoted | packages/guardrail-service/src/guardrail_service/storage/audit.py:117-123 | A text without quote, backslash or control character stands between its quotes as it is, a slash and everything beyond ASCII included |
| JsonText.Escapes | packages/guardrail-service/src/guardrail_service/storage/audit.py:117-123 | The seven escapes of two characters, and for the other control characters four hexadecimal digits in lower case, by value |
| JsonText.NumberGrammar | packages/guardrail-service/src/guardrail_service/storage/audit.py:243-251 | The reader takes for numbers exactly the tokens of the grammar in RFC 8259 section 6, and Python's three |
| JsonText.EscapesRead | packages/guardrail-service/src/guardrail_service/storage/audit.py:243-251 | The reader knows the eight escapes of two characters, by value, and hexadecimal digits of either case |
| JsonText.UnicodeRead | packages/guardrail-service/src/guardrail_service/storage/audit.py:243-251 | Four hexadecimal digits name the character of that code |
| JsonText.SpaceSkipped | packages/guardrail-service/src/guardrail_service/storage/audit.py:243-251 | White space in front of a value is skipped |
| JsonText.LastValueCounts | packages/guardrail-service/src/guardrail_service/storage/audit.py:243-251 | Of several entries under one key the last counts |
| Slots.KeyOrder | packages/guardrail-service/src/guardrail_service/storage/audit.py:226-228 | For numbers below 10^12 the zero-padded sort keys compare lexicographically exactly as the numbers do |
| Slots.KeyOrderEnds | packages/guardrail-service/src/guardrail_service/storage/audit.py:226-228 | Exactly at 10^12 that stops: the key is still new, but sorts before its predecessor's |
| Slots.SlotKeyInjective | packages/guardrail-service/src/guardrail_service/storage/policies.py:128-131 | Different numbers never share a sort key, at any size |
| Slots.NewestSlot | packages/guardrail-service/src/guardrail_service/storage/audit.py:439-459 | Over keys numbered 1 to n the descending query with limit 1 finds number n, for every n below the capacity, and number n - 1 at the capacity |
| Slots.AscendingSlots | packages/guardrail-service/src/guardrail_service/storage/audit.py:636-648 | Over keys numbered 1 to n the ascending query walks them in number order |
| HashChain.ItemRoundTrip | packages/guardrail-service/src/guardrail_service/storage/audit.py:206-251 | A stored record is read back as it was, payload entries in key order, and its hash recomputes to the stored one |
| HashChain.StoredUnder | packages/guardrail-service/src/guardrail_service/storage/audit.py:206-240 | A record is stored under its tenant and its number in twelve digits, with the hashed text, its hash being that of the previous hash followed by that text |
| HashChain.Genesis | packages/guardrail-service/src/guardrail_service/storage/audit.py:56 | The hash before the first is 64 zeros |
| HashChain.VerifyRecords | packages/guardrail-service/src/guardrail_service/storage/audit.py:265-323 | The verifier's loop accepts a run exactly when every record follows its predecessor in number, names its hash and hashes to its own, and otherwise reports the first record that does not, and the first applicable reason |
| HashChain.FaultRejects | packages/guardrail-service/src/guardrail_service/storage/audit.py:283-318 | A first fault means the run is rejected while everything before it is sound |
| HashChain.TamperEvidence | packages/guardrail-service/src/guardrail_service/storage/audit.py:126-129 | Two accepted chains from seq 1 with one head hash have equal length and agree in seq, prev_hash, hash and canonical payload at every position, or the search returns two different texts with one hash or a text that hashes to the genesis value |
| HashChain.TamperEvidenceDocuments | packages/guardrail-service/src/guardrail_service/storage/audit.py:265-323 | The same on the payloads as documents: short of a broken hash they are the same documents |
| HashChain.VerifierBlindSpots | packages/guardrail-service/src/guardrail_service/storage/audit.py:276-280 | What the verifier cannot see: changing the outer timestamps and tenant ids, or renumbering a window that does not reach back to seq 1, keeps any accepted run accepted |
| HashChain.PrefixAccepted | packages/guardrail-service/src/guardrail_service/storage/audit.py:265-323 | Cutting records off the end keeps a run accepted, so truncation shows only against a known head hash |
| HashChain.HonestAccepted | packages/guardrail-service/src/guardrail_service/storage/audit.py:265-323 | Every window from the start of an honestly built chain is accepted, whether its payloads were read back or not |
| HashChain.HonestExtends | packages/guardrail-service/src/guardrail_service/storage/audit.py:361-368 | Building the next record on an honest chain's head keeps the chain honest |
| AuditLog.LatestIsLast | packages/guardrail-service/src/guardrail_service/storage/audit.py:439-459 | On a chain numbered 1 to n the head query returns record n, except that a full chain of 10^12 hides its last record behind the one before |
| AuditLog.SlotTaken | packages/guardrail-service/src/guardrail_service/storage/audit.py:490-504 | A sequence slot is taken exactly when its number is one of the chain's |
| AuditLog.PutExtends | packages/guardrail-service/src/guardrail_service/storage/audit.py:490-504 | A conditional put that succeeds extends the chain by exactly the next number, correctly linked, however many records others appended since the read |
| AuditLog.StepKeepsChain | packages/guardrail-service/src/guardrail_service/storage/audit.py:488-530 | One table operation of one append keeps every tenant's chain numbered and linked, changes no stored record, and adds a record only when it completes the append |
| AuditLog.FullChainRefuses | packages/guardrail-service/src/guardrail_service/storage/audit.py:488-530 | On a chain of 10^12 records no step of any append succeeds or changes the table, whatever its writer had read and however the service answers |
| AuditLog.StoredField | packages/guardrail-service/src/guardrail_service/storage/audit.py:147-204 | Every entry put into a payload, nested or not, is what the stored record says when it is read back, dictionaries in key order |
| AuditProtocol.AppendSafety | packages/guardrail-service/src/guardrail_service/storage/audit.py:461-545 | For any number of appends and any interleaving of their reads, puts, throttles, errors and deadlines: each tenant's table holds exactly records 1 to n, each linked to the one before; every success names a record in the table for its decision; every record belongs to exactly one call, which was told so, and so any failed call wrote nothing |
| AuditProtocol.RunKeepsInv | packages/guardrail-service/src/guardrail_service/storage/audit.py:461-545 | From any state that satisfies the invariant every run keeps it, and no stored record ever changes |
| AuditProtocol.AppendProgress | packages/guardrail-service/src/guardrail_service/storage/audit.py:488-545 | An append ends within 12 of its own steps; it raises exactly if an operation met an error; otherwise it succeeds, or gives up after 6 puts refused or throttled, or earlier past its deadline, and reports truly which occurred; below capacity every refused put is charged to a record another call committed meanwhile |
| AuditProtocol.AppendAlone | packages/guardrail-service/src/guardrail_service/storage/audit.py:488-530 | With nobody in between, an append succeeds and takes the number after the last |
| AuditProtocol.FullChainFinal | packages/guardrail-service/src/guardrail_service/storage/audit.py:488-530 | Once a chain is full it stays full, and in every further run no append to it that had not succeeded ever does |
| AuditProtocol.NoFalseAlarm | packages/guardrail-service/src/guardrail_service/storage/audit.py:636-654 | In every reachable table, for every tenant and limit, the stored chain reads back completely and verifies |
| AuditProtocol.VerifyChain | packages/guardrail-service/src/guardrail_service/storage/audit.py:636-654 | Given what the query returned, the chain is reported valid exactly when the records read are sound, and an empty chain is valid |
| InMemoryAudit.InMemoryAuditRepository.Append | packages/guardrail-service/src/guardrail_service/storage/audit.py:361-368 | The in-memory append keeps every chain honest and builds the very record the table-backed append builds on the same last record |
| InMemoryAudit.InMemoryAuditRepository.VerifyChain | packages/guardrail-service/src/guardrail_service/storage/audit.py:378-379 | Every chain built in memory verifies, for every limit |
| InMemoryAudit.InMemoryAuditRepository.StoreIdempotent | packages/guardrail-service/src/guardrail_service/storage/audit.py:384-385 | The first response stored for a key stands |
| Decisions.WholeSeconds | packages/guardrail-service/src/guardrail_service/storage/decisions.py:121-124 | The update's comparison of whole seconds agrees with the comparison of clock readings, because expiries are whole |
| Decisions.ShownAndAllowed | packages/guardrail-service/src/guardrail_service/storage/decisions.py:121-144 | What a reader is shown at every status and time; execution is allowed exactly for an approved decision, or an unanswered one past its expiry whose rule allows it |
| Decisions.LoneReviewer | packages/guardrail-service/src/guardrail_service/storage/decisions.py:434-493 | Left alone, the conditional update judges a pending decision while its window is open, recording status, reviewer, reason and time and changing nothing else; otherwise it changes nothing and names the expiry, or who decided what |
| Decisions.StepTouches | packages/guardrail-service/src/guardrail_service/storage/decisions.py:434-493 | Only the conditional update touches the table; an error of the service ends the call and writes nothing |
| ReviewProtocol.ReviewSafety | packages/guardrail-service/src/guardrail_service/storage/decisions.py:434-493 | Over any interleaving of reviewers under a clock that never runs backwards: a decision is resolved exactly when one call was told it succeeded, and by no other; it holds what that reviewer ruled, captured before expiry; a conflict names the outcome and who is behind it, or an expiry that has passed; an item carries index keys exactly while pending |
| ReviewProtocol.RunKeepsInv | packages/guardrail-service/src/guardrail_service/storage/decisions.py:434-493 | Every run keeps the review invariant; a decision changes only from pending to resolved, and its expiry never changes |
| ReviewProtocol.ResolutionFinal | packages/guardrail-service/src/guardrail_service/storage/decisions.py:121-144 | Approved and denied are final, with reviewer and reason, for every later read |
| ReviewProtocol.ExpiryFinalIff | packages/guardrail-service/src/guardrail_service/storage/decisions.py:454-480 | A decision read as expired can later be read as resolved if and only if a review is in flight whose captured clock precedes the expiry |
| ReviewProtocol.ExpiryRaceOccurs | packages/guardrail-service/src/guardrail_service/storage/decisions.py:454-480 | Such a state is reachable: a decision read as expired with a review in flight that captured its clock in time |
| ReviewProtocol.SilenceIsNotConsent | packages/guardrail-service/src/guardrail_service/storage/decisions.py:136-144 | In every reachable state a decision permits execution if and only if a reviewer approved it, or nobody resolved it, it expired and its rule allows that |
| ReviewQueue.ListPending | packages/guardrail-service/src/guardrail_service/storage/decisions.py:372-432 | The paged walk returns the first `limit` live entries among the first 1000 entries of the index, in index order |
| ReviewQueue.LiveIndexIsSortedWaiting | packages/guardrail-service/src/guardrail_service/storage/decisions.py:286-292 | The live entries of the sparse index, in order, are the in-memory filter and sort |
| ReviewQueue.QueueEquivalence | packages/guardrail-service/src/guardrail_service/storage/decisions.py:372-432 | The paged walk equals the in-memory filter, sort and limit if and only if each of the first `limit` live entries has its place among the first 1000 entries of the index |
| ReviewQueue.StaleEntriesHide | packages/guardrail-service/src/guardrail_service/storage/decisions.py:372-432 | For every limit there is a queue where it does not: 1000 expired entries hide the one live decision behind them |
| ReviewQueue.ReachableIndexed | packages/guardrail-service/src/guardrail_service/storage/decisions.py:150-182 | In every table that creators and reviewers can reach, an item carries its index keys exactly while it is pending |
| ReviewQueue.SortKeyOrder | packages/guardrail-service/src/guardrail_service/storage/decisions.py:150-182 | The queue's sort key orders by creation time first |
| ReviewQueue.InMemoryDecisionRepository.Create | packages/guardrail-service/src/guardrail_service/storage/decisions.py:277-278 | A dictionary write: a known key keeps its place, a new one goes last |
| ReviewQueue.InMemoryDecisionRepository.Resolve | packages/guardrail-service/src/guardrail_service/storage/decisions.py:294-320 | The in-memory repository settles a decision exactly as the conditional update left alone does |
| Policy.EffectOrder | packages/guardrail-core/src/guardrail_core/effects.py:14-30 | The four effects in their order; the upper two restrict, the lower two permit |
| Policy.EqualTransitive | packages/guardrail-core/src/guardrail_core/operators.py:77-82 | Equality is transitive across kinds, True being 1 and False 0 (with EqualReflexive, EqualSymmetric and EqualScalars: an equivalence that tells all other kinds apart) |
| Policy.EqualScalars | packages/guardrail-core/src/guardrail_core/operators.py:77-82 | Numbers and texts equal only themselves, lists and dictionaries what equals them part by part |
| Policy.TextOperators | packages/guardrail-core/src/guardrail_core/operators.py:77-155 | `ne` negates `eq`; `matches`, `glob` and `icontains` ask of texts only, with the pattern and the text in their places, folded for `icontains` |
| Policy.Containment | packages/guardrail-core/src/guardrail_core/operators.py:126-130 | `contains` looks for a part of a text, an element of a list, and takes any other value for a list of one |
| Policy.Listed | packages/guardrail-core/src/guardrail_core/operators.py:101-103 | `in` looks for the value among the listed ones, and takes any other value for a list of one |
| Policy.Existence | packages/guardrail-core/src/guardrail_core/operators.py:157-161 | `exists` compares presence with the truth value of what is expected, for which exactly None, False, zero and the empty text, list and dictionary are false |
| Policy.Thresholds | packages/guardrail-core/src/guardrail_core/operators.py:63-98 | Threshold operators match numbers only, never booleans, move monotonically with the actual value, and are each other's negations on numbers |
| Policy.AnyOperators | packages/guardrail-core/src/guardrail_core/operators.py:101-123 | `any_in` fails only when no element is listed, `any_not_in` only when all are; `not_in` is the negation of `in` |
| Policy.MixedList | packages/guardrail-core/src/guardrail_core/operators.py:115-123 | A list of one listed and one other element matches both `any_in` and `any_not_in` |
| Policy.SubstringOccurs | packages/guardrail-core/src/guardrail_core/operators.py:126-136 | `contains` on text holds exactly when the part occurs somewhere in the whole |
| Engine.ResolvePath | packages/guardrail-core/src/guardrail_core/engine.py:27-45 | The loop over the path's components is the recursive lookup: UNKNOWN absorbs, absence gives None |
| Engine.LookupInDictionaries | packages/guardrail-core/src/guardrail_core/engine.py:27-45 | A lookup goes down nested dictionaries key by key, finds UNKNOWN where the way leads through it, and None where a key is missing |
| Engine.LookupAttribute | packages/guardrail-core/src/guardrail_core/engine.py:27-45 | Anything but a dictionary is asked for an attribute, and gives None where it has none |
| Engine.AppliesIff | packages/guardrail-core/src/guardrail_core/engine.py:65-114 | A rule fires if and only if it is enabled, its pattern is absent, equals the tool or as a glob matches it, every condition of `all` holds and, where there is any, one of `any`; it reports the UNKNOWN paths met while the answer was open |
| Engine.Evaluate | packages/guardrail-core/src/guardrail_core/engine.py:153-198 | The matches are the rules that fire, in file order, with their ids, effects and severities; the effect is the strictest of theirs, or the default when none fires; the UNKNOWN paths are exactly those met, without repetition |
| Engine.StrictestIsMax | packages/guardrail-core/src/guardrail_core/effects.py:43-52 | The resolved effect bounds every match's effect and is the effect of one of them |
| Engine.ResolveHides | packages/guardrail-core/src/guardrail_core/engine.py:27-45 | Looking a path up commutes with hiding parts of the facts |
| Facts.BuildFacts | packages/guardrail-core/src/guardrail_core/engine.py:48-62 | The facts of every request form a tree with the roots a path may name; a derived fact is UNKNOWN as a whole or not at all, and nothing else holds an UNKNOWN |
| Facts.FactsSay | packages/guardrail-core/src/guardrail_core/engine.py:48-62 | Which root holds the tool, tenant, agent, arguments, context, principal and each derived fact |
| Facts.DocumentSays | packages/guardrail-core/src/guardrail_core/engine.py:48-62 | A document keeps its kind and contents as facts, value by value |
| Facts.RecordCountSays | packages/guardrail-core/src/guardrail_core/extractors.py:32-66 | The record count is the first whole number under five keys, else the length of the first list under six, else UNKNOWN |
| Facts.RecipientsSay | packages/guardrail-core/src/guardrail_core/extractors.py:77-92 | Recipients are the texts under six keys, alone or in lists, copies included |
| Facts.RecipientDomainsSay | packages/guardrail-core/src/guardrail_core/extractors.py:95-116 | UNKNOWN where there are recipients but no address in them, else every folded domain once in order of first occurrence; and the number of addresses |
| Facts.PathSays | packages/guardrail-core/src/guardrail_core/extractors.py:126-132 | The path is the first non-empty text under seven keys with forward slashes, else UNKNOWN |
| Engine.ValidPathClear | packages/guardrail-core/src/guardrail_core/policy.py:41-53 | A path that passed validation finds, in such facts, UNKNOWN itself or a value with no UNKNOWN inside |
| Engine.FiringHides | packages/guardrail-core/src/guardrail_core/operators.py:183-195 | On such facts, for every bundle the loader accepts: hiding facts keeps every restrictive rule that fired, and makes no permissive rule fire |
| Engine.UnknownSound | packages/guardrail-core/src/guardrail_core/engine.py:74-114 | An action that a loaded bundle permits on the facts the service built is permitted on the full facts, for every bundle, default, tool and way of filling in what was UNKNOWN |
| Engine.EffectLoweredIff | packages/guardrail-core/src/guardrail_core/engine.py:153-185 | Hiding makes the effect less strict exactly when a noteworthy permission becomes a plain one, or a blocked-by-default call that no rule fires for comes to need review |
| Engine.LoweringOccurs | packages/guardrail-core/src/guardrail_core/engine.py:153-185 | Both of these do occur, for every call whose record count the extractors cannot tell |
| Engine.ExtractorContractExact | packages/guardrail-core/src/guardrail_core/extractors.py:13-16 | What soundness rests on: on a fact tree it holds for every bundle the loader accepts if and only if each derived fact is UNKNOWN as a whole or not at all |
| Engine.ClearIsExact | packages/guardrail-core/src/guardrail_core/operators.py:198-213 | On arbitrary facts, which the service never builds: soundness holds for every bundle looking at a path if and only if the value found there is UNKNOWN as a whole or has no UNKNOWN inside it |
| Engine.OrderIrrelevant | packages/guardrail-core/src/guardrail_core/engine.py:153-185 | Permuting the rules changes neither the effect, nor the multiset of matched rules, nor the set of UNKNOWN paths |
| Engine.AddedRuleLowersIff | packages/guardrail-core/src/guardrail_core/engine.py:178-185 | Adding a rule anywhere lowers the effect if and only if nothing fired before, the new rule fires, and it is laxer than the default |
| Engine.WinningRuleExact | packages/guardrail-core/src/guardrail_core/engine.py:201-206 | With unique ids the winning rule is the first in the file that fires with the result's effect, and there is none exactly when nothing fires |
| PolicyStore.StoreSafety | packages/guardrail-service/src/guardrail_service/storage/policies.py:357-423 | Under racing publish and activate calls versions are exactly 1 to n, the active pointer names one of them, each version is the one exactly one call was told of, and reads back as that call's document |
| PolicyStore.VersionsImmutable | packages/guardrail-service/src/guardrail_service/storage/policies.py:357-410 | No published version ever changes, whatever else runs |
| PolicyStore.ActivateExact | packages/guardrail-service/src/guardrail_service/storage/policies.py:456-483 | Activation takes effect exactly when the version exists, older or newer alike, and otherwise changes nothing |
| PolicyStore.PublishProgress | packages/guardrail-service/src/guardrail_service/storage/policies.py:357-410 | A publish that loads ends within 10 of its own steps; unless the service errs it gets a number past all that were there, or, below capacity, fails only because five others were published meanwhile; one that does not load is rejected at once |
| PolicyStore.StoredUnder | packages/guardrail-service/src/guardrail_service/storage/policies.py:128-154 | The partition and sort keys of versions and of the active pointer, by value |
| PolicyStore.VersionRoundTrip | packages/guardrail-service/src/guardrail_service/storage/policies.py:128-154 | A stored version reads back as published exactly when the tenant's name, joined to the separator, does not contain the separator earlier |
| PolicyStore.TenantMisread | packages/guardrail-service/src/guardrail_service/storage/policies.py:128-154 | For a tenant named x#POLICY it does not |
| PolicyStore.ServedVersion | packages/guardrail-service/src/guardrail_service/storage/policies.py:114-126 | What is served names the store's version number whatever the author wrote, and differs in nothing else |
| PolicyStore.VersionTaken | packages/guardrail-service/src/guardrail_service/storage/policies.py:412-423 | A version can be fetched exactly when it is a number of the history; no other number, negative or too large, has its key |
| PolicyStore.InMemoryPolicyRepository.GetVersion | packages/guardrail-service/src/guardrail_service/storage/policies.py:269-273 | The search returns the version of that number, or raises exactly when there is none |
| PolicyStore.InMemoryPolicyRepository.Publish | packages/guardrail-service/src/guardrail_service/storage/policies.py:245-267 | The next number; every earlier version and the active one stay as they were |
| PolicyStore.InMemoryPolicyRepository.SetActive | packages/guardrail-service/src/guardrail_service/storage/policies.py:284-296 | Takes effect exactly when the version exists |
| PolicyProvider.ActivePolicyProvider.State | packages/guardrail-service/src/guardrail_service/policy_provider.py:97-122 | The served state and the new cache are those of the specification the theorems are about: cached while recent, else refreshed, else degraded |
| PolicyProvider.ActivePolicyProvider.Invalidate | packages/guardrail-service/src/guardrail_service/policy_provider.py:236-247 | Drops one tenant's entry and no other, or all of them |
| PolicyProvider.ServeSays | packages/guardrail-service/src/guardrail_service/policy_provider.py:97-233 | One call of `state` case by case: a recent answer is repeated, a confirmed version kept without a fetch, a new one taken over, the packaged bundle served where there is no store or no pointer; a failure keeps the bundle and marks it degraded, and nothing else does |
| PolicyProvider.CacheRefinement | packages/guardrail-service/src/guardrail_service/policy_provider.py:97-185 | In every reachable state a cached published bundle is what the store gives for that version from then on, a packaged one is the fallback, and a confirmed one was in force when its pointer was read |
| PolicyProvider.ShortcutExact | packages/guardrail-service/src/guardrail_service/policy_provider.py:125-185 | Skipping the fetch for an unchanged version returns exactly what an empty cache and a full fetch would |
| PolicyProvider.Freshness | packages/guardrail-service/src/guardrail_service/policy_provider.py:97-122 | A confirmed answer was in force at an instant less than refresh_seconds plus the length of a refresh before the call, and no later than its end |
| PolicyProvider.StalenessIff | packages/guardrail-service/src/guardrail_service/policy_provider.py:12-16 | No unmarked answer is ever staler than refresh_seconds if and only if refreshes take no time or refresh_seconds is not positive; for every loader that gives some publishable document a bundle other than the packaged one |
| PolicyProvider.KeepsLastServed | packages/guardrail-service/src/guardrail_service/policy_provider.py:187-233 | Whenever a refresh raises, at the pointer read, the fetch or the loading, the bundle served last since the tenant's last invalidation is served, or the packaged one, marked as degraded |
| PolicyProvider.OnceInForce | packages/guardrail-service/src/guardrail_service/policy_provider.py:187-233 | However long the store fails, what is served is the packaged bundle or was in force at an earlier instant |
| RateLimit.TokenBucket.Consume | packages/guardrail-service/src/guardrail_service/ratelimit.py:82-97 | Refill, grant or refusal, and wait time are those of the function the bounds are proved about |
| RateLimit.TakeSays | packages/guardrail-service/src/guardrail_service/ratelimit.py:82-97 | The bucket refills for the time that passed and no more, grants exactly what it holds, takes only what it grants, and says what is left |
| RateLimit.LimitsSay | packages/guardrail-service/src/guardrail_service/ratelimit.py:128-132 | Rate, burst and cap by the settings, with five seconds' worth but at least ten as the default burst |
| RateLimit.FirstCheck | packages/guardrail-service/src/guardrail_service/ratelimit.py:135-151 | A limit that is not positive is none; a tenant not seen before starts with a full burst |
| RateLimit.Conservation | packages/guardrail-service/src/guardrail_service/ratelimit.py:82-97 | Tokens granted plus tokens left never exceed the capacity plus what flowed in while the clock moved forward |
| RateLimit.ForwardIsSpan | packages/guardrail-service/src/guardrail_service/ratelimit.py:86-89 | The clock's forward movement is the window's length if and only if it never ran backwards in it |
| RateLimit.RateBound | packages/guardrail-service/src/guardrail_service/ratelimit.py:75-97 | In any window of calls with nondecreasing `now` the tokens granted are at most capacity + rate * T, and tokens stay between 0 and capacity |
| RateLimit.BoundIff | packages/guardrail-service/src/guardrail_service/ratelimit.py:86-89 | At given times the bound holds, for every bucket of no negative capacity or rate and all requests of no negative amount, if and only if the times never run backwards |
| RateLimit.RetryAfterExact | packages/guardrail-service/src/guardrail_service/ratelimit.py:95-97 | After a refusal waiting `retry_after` succeeds and waiting any less is refused; a request above the capacity succeeds after no wait |
| RateLimit.InProcessRateLimiter.Admit | packages/guardrail-service/src/guardrail_service/ratelimit.py:141-149 | The locked section: find or create, move to the end, evict the first when there are too many |
| RateLimit.InProcessRateLimiter.Check | packages/guardrail-service/src/guardrail_service/ratelimit.py:135-151 | One check on the heap of buckets is one step of the table the theorems are about |
| RateLimit.OrderIsRecency | packages/guardrail-service/src/guardrail_service/ratelimit.py:141-149 | Dictionary order is recency order: the limiter holds exactly the `max_tenants` tenants checked last |
| RateLimit.EvictedIff | packages/guardrail-service/src/guardrail_service/ratelimit.py:141-149 | A tenant is still held if and only if it was checked and fewer than `max_tenants` distinct others were checked since |
| RateLimit.CapTransparent | packages/guardrail-service/src/guardrail_service/ratelimit.py:109-114 | On a run touching at most `max_tenants` tenants every verdict is that of an unbounded map of buckets |
| RateLimit.CapNeverCosts | packages/guardrail-service/src/guardrail_service/ratelimit.py:109-114 | At every moment each tenant has had at least as many calls allowed as without the cap |
| RateLimit.HarsherWasPaid | packages/guardrail-service/src/guardrail_service/ratelimit.py:109-114 | A call refused that would have been allowed without the cap comes only after the cap has given its tenant at least one call more |
| RateLimit.NeverEvictedSame | packages/guardrail-service/src/guardrail_service/ratelimit.py:109-114 | A tenant that was never evicted gets every verdict it would get without the cap, however many others there are |
| RateLimit.HarsherIff | packages/guardrail-service/src/guardrail_service/ratelimit.py:109-114 | Such a harsher verdict exists if and only if the limiter is enabled, its burst admits a request, and it holds at least one tenant |
| Sdk.OpenIff | packages/guardrail-sdk/src/guardrail_sdk/client.py:47-85 | The breaker is open exactly while the current streak of failures has reached the threshold and its last failure is more recent than the cooldown |
| Sdk.CircuitBreaker.IsOpen | packages/guardrail-sdk/src/guardrail_sdk/client.py:63-74 | Open until the cooldown has passed since the last failure that tripped it; asked after that, it closes and forgets its failures |
| Sdk.CircuitBreaker.RecordFailure | packages/guardrail-sdk/src/guardrail_sdk/client.py:81-85 | A failure at or past the threshold opens it, or keeps it open for another cooldown; one below leaves it as it was |
| Sdk.PostWithRetries | packages/guardrail-sdk/src/guardrail_sdk/client.py:199-221 | Returns the first reply that is neither a transport error nor one of five statuses, among at most max_retries + 1 attempts, and raises exactly when there is none |
| Sdk.GuardrailClient.Evaluate | packages/guardrail-sdk/src/guardrail_sdk/client.py:172-196 | An open breaker sends nothing and the switch decides; otherwise the caller fails open if and only if the switch is on and no final reply came or its status is at least 400 and not 401; a 401 raises and leaves the breaker alone, an answer below 400 is the decision or malformed and resets it, everything else is one failure more |
| Sdk.InterpretYields | packages/guardrail-sdk/src/guardrail_sdk/client.py:172-196 | The interpretation the end-to-end model uses gives that answer and that tally for every final reply |
| Sdk.FailClosed | packages/guardrail-sdk/src/guardrail_sdk/client.py:223-241 | Without fail_open a caller gets a decision only from a response with a status below 400 |
| Sdk.WaitForDecision | packages/guardrail-sdk/src/guardrail_sdk/client.py:254-300 | The wait terminates and returns the status of its last poll, the first settled one or one made past the deadline; sleeps total at most the timeout, polls at most k + timeout/max_interval + 2 |
| Evaluation.VerdictTells | packages/guardrail-service/src/guardrail_service/routers/evaluate.py:113-136 | The decision told is the engine's effect on the request's facts, but LOG_AND_ALLOW for a restrictive one of a shadow bundle; the wait and its outcome are those of the first rule that fired with it, or 900 seconds and denial |
| Evaluation.StoredEntry | packages/guardrail-service/src/guardrail_service/storage/audit.py:160-195 | A record read back says, key by key, the tool, agent, arguments, context, principal, dry run, effect by its name, bundle and version |
| Evaluation.StoredJudgement | packages/guardrail-service/src/guardrail_service/routers/decisions.py:188-238 | The record of a judgement says, key by key, what was decided by whom, why and when, about which decision and record, and allows exactly what was approved |
| Evaluation.VerdictReproducible | packages/guardrail-core/src/guardrail_core/engine.py:48-62 | Judged again under the same bundle, the call as its record says it gets the same verdict |
| EndToEnd.FailClosed | packages/guardrail-sdk/src/guardrail_sdk/decorator.py:143-204 | In every run a tool body ran only outside a dry run and, unless the client chose to fail open, only on a recorded response, for this very call, of a bundle the policy provider served: either the engine's effect on the call's facts permits it or the bundle is a shadow; or that effect is REQUIRE_HITL, the bundle is no shadow, and a reviewer shown this call approved it, or it expired with on_timeout allow |
| EndToEnd.GovernedByPolicy | packages/guardrail-service/src/guardrail_service/routers/evaluate.py:110-114 | The bundle behind an executed call's verdict was its tenant's active policy within refresh_seconds plus the length of a refresh before it was asked for; or the store had failed that container, and it is an earlier policy of the tenant or the packaged one |
| EndToEnd.RunKeeps | packages/guardrail-service/src/guardrail_service/routers/evaluate.py:83-215 | Every run of handlers, callers, reviewers and appends keeps the composed invariant and loses nothing established |
| EndToEnd.MadeIsRecorded | packages/guardrail-service/src/guardrail_service/routers/evaluate.py:113-204 | A response exists only after its audit record does: the chain holds the number and hash it names, for its decision id, tenant and time, and says key by key the call, the engine's effect, the dry-run flag and the bundle; the response tells that effect as its bundle's mode has it |
| EndToEnd.AppendEnds | packages/guardrail-service/src/guardrail_service/routers/evaluate.py:217-262 | A handler responds only from the record its append was told of, holding the call first where the response says so; if the append fails the request fails |
| EndToEnd.IdempotentReplay | packages/guardrail-service/src/guardrail_service/routers/evaluate.py:96-108 | A stored response never changes and is a recorded verdict in the chain; a request arriving later with its key begins no append and is answered, if at all, with exactly that response |
| EndToEnd.HeldBeforeAnswered | packages/guardrail-service/src/guardrail_service/routers/evaluate.py:138-173 | A response that says to wait, first hand or replayed, names a decision already in the store, with the record's number, the policy's timeout rule, an expiry that many seconds after it was held, and the call that was evaluated |
| EndToEnd.SavedIdem | packages/guardrail-service/src/guardrail_service/routers/evaluate.py:206-213 | Saving keeps every stored response, and what it adds is the handler's own response under its own key, where none was stored |
| EndToEnd.DeliveredIsGiven | packages/guardrail-sdk/src/guardrail_sdk/client.py:140-170 | Whatever is delivered to an SDK call, replays included, was made for that call |
| EndToEnd.ResolutionRecorded | packages/guardrail-service/src/guardrail_service/routers/decisions.py:174-264 | A judgement whose append succeeded is a record of its own in its tenant's chain: for this decision's resolution, with what was decided by whom, why and when, about which decision and record; effect allow exactly when the reviewer approved, else block |
| EndToEnd.ResolutionNamesCall | packages/guardrail-service/src/guardrail_service/routers/decisions.py:188-218 | And it says the tool, agent and arguments of the evaluation whose response sent the caller to wait |
| EndToEnd.JudgementAppended | packages/guardrail-service/src/guardrail_service/routers/decisions.py:174-186 | A resolve that succeeded is followed by an append for its tenant under the decision's id with the suffix `:resolution` |
| EndToEnd.UndisturbedCall | packages/guardrail-service/src/guardrail_service/routers/evaluate.py:83-215 | From any reachable world an undisturbed call runs, is blocked, waits or raises as the served bundle tells, recorded under the tenant's next number |
| EndToEnd.FinishEnds | packages/guardrail-sdk/src/guardrail_sdk/decorator.py:152-204 | An attempt that delivers an answer ends the call as that says; a transient failure is tried again while attempts are left; a rejected key raises even where the client fails open; otherwise the switch decides |
| EndToEnd.CallStarts | packages/guardrail-sdk/src/guardrail_sdk/client.py:165-170 | A call stopped by an open breaker is decided by the switch to fail open; any other is posted |
| EndToEnd.WaitEnds | packages/guardrail-sdk/src/guardrail_sdk/decorator.py:166-198 | A waiting caller always finds its decision: approved it runs, denied it is blocked, past the expiry the timeout rule decides, before it only the wait's deadline ends it |

## Left out

- SHA-256 and the UTF-8 encoding of its input: an arbitrary function on texts; lone surrogates and `\u` escapes of surrogate pairs are not modelled.
- Numbers in JSON: opaque tokens that print as they were read; that Python prints a float as it parses it is assumed.
- Lost acknowledgements: a put either happens and is acknowledged or does not happen. Secondary-index lag, reclamation by TTL (held decisions, stored responses) and DynamoDB's 1 MB page limit: not modelled; a queue page names a continuation exactly when it was full; the queue index and the pointer read are taken as current, version lookups may be stale.
- Decision ids, idempotency keys and call identifiers are UUIDs in the original; the model takes them as fresh, so an unconditional create never meets an existing decision.
- One clock, nondecreasing, for reviewers and pollers; `build_pending` and its put happen at one reading of it.
- Durations of back-off and jitter: any; the deadline of an append is a flag that its failed attempts see.
- `fnmatch`, `re`, the extractors' e-mail pattern, case folding, the value of a number's text, and attribute access on values that are not mappings: parameters of the engine; of attribute access it is assumed that it finds no UNKNOWN. NaN and Python sets as fact values are not modelled.
- Load-time validation of bundles: of its outcome the model uses that rule ids are unique and that paths start at a known root and name an extractor behind `derived`; unknown operators, regexes and severities are taken as rejected. `load_bundle` is a parameter of the policy store and its cache.
- `render_message`, messages and winners' messages: substitution into text, no clean property.
- `list_records`, `list_versions`, `content_hash` comparisons, `semantic_hash`, listing endpoints: projections and slices.
- `_json_safe` and `_bind_arguments`: the model starts from the JSON documents they produce; a principal with no fields stands for none.
- The rest of a payload (session, request, derived facts, matched rules, message, timings) and of a held decision (session, matched rules, message, reviewers): in the end-to-end model any valid entries, or none.
- An empty reviewer or reason is stored as given; that reading it back shows none is not modelled.
- API keys, roles and rate limiting in front of the endpoints: in the end-to-end model any attempt may end in any error status, which covers their refusals.
- Threads inside one bucket, limiter or breaker: each locked section is one step.
- Console, stacks, scripts, demo agent, reports, adapters, MCP pumping, metrics and logging.
- AuditProtocol.NoFalseAlarm: for chains below 10^12 records, where the query's order is the numbers' order.
- AuditProtocol.AppendProgress: the charge to other calls' commits is for chains below 10^12 records.
- ReviewQueue.QueueEquivalence: for timestamps of one length, as the code writes them, and no two decisions of a tenant created in the same millisecond, where the in-memory order is otherwise insertion order.
- Engine.Evaluate: says which UNKNOWN paths are reported and that none is repeated, not their order.
- PolicyStore.PublishProgress: the charge to other publishes is for histories below 10^12 versions.
- PolicyProvider.Freshness: the bound includes the length of a refresh, because without it the property is false (PolicyProvider.StalenessIff).
- EndToEnd.GovernedByPolicy: for containers whose requests follow one another, as their event loop makes them, on a clock that does not run backwards.
- RateLimit.RateBound: for requests of no negative amount and buckets of no negative capacity or rate; the service only ever asks for one token.
- Sdk.WaitForDecision: for positive intervals, as its callers pass; with an interval of zero the original polls without pause.
- EndToEnd.IdempotentReplay: within the retention of the stored response, since expiry is not modelled.
- EndToEnd.ResolutionRecorded: an append of a resolution that fails is only logged, so not every resolution has a record.
