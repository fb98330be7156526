# Pikopod, modelled in Dafny

Pikopod stands between a program and the APIs it calls. It records traffic, learns what each
endpoint usually answers, alerts when an answer drifts, replays recordings, and imports API
descriptions. This project models the engines that decide those things and proves what they
promise, for every input, every run and every interleaving.

`dafny verify dfyconfig.toml` checks everything.

## The engines

| files | engine |
|---|---|
| `utf16`, `js_number`, `json_tree`, `json_parser`, `json_roundtrip`, `json_spelling`, `json_accepted`, `json_reader`, `json_writer` | JSON text: UTF-16 order, number printing and reading, the texts that spell a value, the bounded parser and the writer, as functions and as the objects with a cursor or a builder that compute them |
| `canonical`, `canonical_laws`, `canonical_theorem` | the canonical form and the equivalence it stands for |
| `balanced`, `batching` | cutting objects out of a page; batching pages and choosing them under a budget |
| `ordmap` | the insertion-ordered map, JavaScript key order, JSON pointer segments |
| `flatten`, `flatten_meaning` | flattening `allOf` and what acceptance makes of it |
| `capture_queue`, `capture_reasons` | the capture queue as interleaved atomic steps of producers, consumer and closer, and why it lets an exchange go |
| `alerter` | per-fingerprint windows, latches, eviction and the delivery ceiling |
| `path_guard`, `baseline`, `learner`, `family_history`, `tallies`, `merged_history`, `family_object`, `learner_object`, `drift`, `founding`, `training` | templates, baselines, freezing, merging, judging by what was observed, fingerprints |
| `replay` | recordings in three indexes with a cursor per scope |
| `contract`, `proposing`, `resolving`, `observing`, `overlay_counts`, `journal_keys`, `admissions`, `refiner` | the traffic overlay: observing, proposing and admitting, resolving at a version |
| `graphql`, `graphql_typeref`, `graphql_grammar`, `graphql_meaning`, `graphql_spelling`, `graphql_accepted`, `graphql_written`, `graphql_openapi`, `graphql_document`, `graphql_refs` | the GraphQL schema front end, the texts it reads and what they declare, its OpenAPI document and the references in it |
| `text`, `totals`, `names` | shared helpers |

Code that changes state is modelled twice: as a transition function, about which the theorems
are, and as methods with the loops and fields of the source, proved to compute that function.
Choices the source leaves to the iteration order of a map are arguments of the transition
function, bounded by what that order allows, and the theorems hold for all of them. What a
function gives is stated a second time without it: as a relation to the text, the observations,
the journal or the schema it was made from (`SpellingsParse`, `DiffIs`, `ProposedIff`,
`ResolvedIs`, `ReplyIs`, `DocumentIs` and others of that kind).

## What the proofs found

Where the code does not do what its documentation says or what one would expect, the model
follows the code, a lemma gives an input that shows it, and it is proved when the code does.

- Flattening rejects values that every member accepts, in three cases. For null: the merged
  node takes the type of one member and loses nullability to another that has no type. For
  strings: an enum that mixes strings with other values is not checked on its own, yet takes
  strings away from the intersection. And for depth: the walk of a response is cut after 12
  levels, a reference takes one, and the flattened node has no references left, so it looks
  further than its members do. With the levels of their references given to the members, the
  members accept exactly what the node and the schemas lost in merging accept, under stated
  conditions on null and enums, which are necessary (`AllOfExactly`, `AllOfForwardExact`,
  `AllOfBackExact`). With one level less the statement fails for every number of levels and
  every chain of references (`LevelsRunOut`, `WalkRunsOut`); with the same number of levels it
  holds for members that are no references and for schemas the walk gets through
  (`AllOfForwardWithin`). A member that is not nullable and whose type is "unknown" rejects
  null; when all members are such, the merged node has no type and accepts it.
- A reference in the document of a GraphQL schema leads to the component of the type it names
  exactly if that name has no slash and no tilde before a 0 or a 1, as the emitter does not
  escape it. Every name in a schema text is of that kind, a name given by introspection need
  not be (`RefLeadsHome`, `IntrospectedDocumentResolves`, `BadNameBreaks`).
- An alert may come twice for one fingerprint, against "one alert per fingerprint, forever"
  (docs/config-reference.md:340-349): eviction forgets the latch. Each of a set of
  non-empty fingerprints alerts at most once in every run exactly if there is room to track
  them all (`OnceIffRoom`).
- The delivery ceiling of 60 an hour is per tumbling window: any 60 minutes may see 119
  (`HourlyCeiling`, `CeilingReached`).
- 2k-2 reports in a window always alert, which is one better than two full windows would
  suggest, and 2k-3 may not (`EnoughReportsAlert`, `TwoWindowsHide`).
- The drop counters of captures and webhooks are told apart by the caller that evicts, not by
  the exchange that is lost (`EvictionCountedByEvictor`). They tell the kinds apart exactly
  when as many captures were evicted by webhooks as webhooks by captures, and always where all
  traffic is of one kind (`CountersByKind`, `OneKindCounted`). Their sum is right (`NothingLost`).
- The byte limit of the queue can be exceeded by one exchange for every producer but one, and
  by no more (`ByteBound`, `BoundReached`).
- A spent sequence of recordings repeats its first one forever, and before that every answer is
  new (`SpentSticks`, `FreshWhileThereIsOne`); docs/config-reference.md:517 says the next
  unserved one.
- A merge of families forgets the strings of a field for which the receiver holds no values and
  has not given them up, and nothing else (`AbsorbRemembers`). So a value seen in training is
  reported as new in a run that merges (`MergeForgets`), and never where no merge on the way to
  the reference took over strings in that way (`MergedTrainingReplays`).
- The presence rate of an observed field is its sightings over the records since the first, and
  exceeds 1 exactly if they are more; a record that sights a new field twice is enough, and
  fields inside arrays are sighted once per element (`PresenceIs`, `PresenceAboveOne`).
- The journal's keys are joined unescaped, so an admission can be lost to a different one of the
  same key, different, that is, in one of the seven joined parts. Among the admissions that
  `Admit` makes for one method, those of endpoints and status codes never share a key. Those of
  fields and types do exactly if, cut at its bars, the template has a status class among its
  pieces after the first or the field one among those before its last, as with template "/a",
  class 2xx and field "2xx|f" against template "/a|2xx", class 2xx and field "f". Those of values
  do exactly if a bar stands in the field or the value, or the template has a status class in
  that way (`KeyShared`). For any two of one key there is an
  `Admit` that proposes both, for fields after one record of each, and no run journals both
  (`OneLost`, `FieldLost`, `NeverBoth`). Nothing else is lost but what the cap refuses
  (`NothingElseLost`).
- In the path guard the segment that tips the threshold has been seen once, so its own pinning
  branch is never taken (`SparedSegments`).
- The brace scanner gives up on an object longer than 2 MiB that the parser reads
  (`ScannerAgrees`).

## Model

| member | source | states |
|---|---|---|
| `Utf16.CompareJs` | internal/ir/canonical.go:203-214 | the byte comparison of two ASCII strings and the comparison of UTF-16 code units decide one and the same order, over all pairs of strings; `JsLessIs` says which |
| `Utf16.JsLessIs` | internal/ir/canonical.go:203-214 | of two strings the one comes first that has the smaller UTF-16 code unit where they first differ, or that ends there; stated on the units, without the comparison |
| `Utf16.JsLessStrictTotal` | internal/ir/canonical.go:203-214 | the order canonical JSON is sorted by is a strict total order on strings: irreflexive, transitive, asymmetric, and two strings it does not separate are equal |
| `Utf16.DecodeEncode` | internal/ir/canonical.go:207 | no string is lost in UTF-16: decoding its code units gives the string back, so two strings with the same units are the same string |
| `Utf16.EncodeCharIs` | internal/ir/canonical.go:207 | a character is its own code unit, or from U+10000 on the pair of a high and a low surrogate whose twenty bits give it |
| `Utf16.DecodeIs` | internal/importer/safejson.go:164-230 | a unit or a surrogate pair at the front is decoded for itself, a lone surrogate as U+FFFD |
| `JsNumber.FormatReadsBack` | internal/ir/canonical.go:184-200 | each of the four number layouts is read by the number scanner in full, up to any delimiter, and stands for the number printed; only the sign of zero is lost |
| `JsNumber.LayoutIs` | internal/ir/canonical.go:184-200 | which layout is chosen: numbers from a millionth up to and without 10 to the 21st in full, filled up with zeros or with the point in its place, all others as one digit, point, digits and an exponent with its sign |
| `JsNumber.FormatInjective` | internal/ir/canonical.go:164-201 | two numbers print alike exactly when they are the same number or both are zero; all non-finite values share `null` |
| `JsNumber.FormatDenotes` | internal/ir/canonical.go:184-200 | the text of a number, read as a decimal literal, denotes exactly the rational its digits and exponent denote |
| `JsNumber.ExactDenotes` | internal/importer/safejson.go:233-273 | the normalised decimal that a scanned literal is turned into denotes the same rational as the literal |
| `JsonRoundTrip.RoundTrip` | internal/importer/safejson.go:18-37 | parsing the printed text of any tree within the byte, depth and node limits whose numbers are finite, not -0 and kept by the rounding gives back exactly that tree, consumes the whole text and counts exactly its nodes |
| `JsonRoundTrip.QuoteReads` | internal/ir/canonical.go:135-162 | every string, written as a literal with its escapes, is read back as itself, wherever it stands in a text |
| `JsonSpelling.DigitReads` | internal/importer/safejson.go:198-203 | the sixteen hexadecimal digits have the values 0 to 15 in lower and in upper case, and four of them the number they spell |
| `JsonSpelling.SpellingsParse` | internal/importer/safejson.go:18-37 | every text that spells a tree, with any blanks between tokens, any escape for a character, either case of digits and of the exponent letter, parses to exactly that tree, if it is within the limits and its numbers are rounded as configured |
| `JsonAccepted.AcceptedSpells` | internal/importer/safejson.go:18-37 | and nothing else is accepted: what parses is a text that spells the tree it parses to, within the limits, with its nodes counted |
| `JsonAccepted.ReadExactly` | internal/importer/safejson.go:18-37 | the two together: a text parses to a tree exactly if it spells it within the limits |
| `JsonAccepted.WrittenAs` | internal/ir/canonical.go:135-162 | of the spellings of a string the writer chooses this one: the seven short escapes, four lower-case digits for the other control characters, and every other character as it is |
| `JsonReader.BoundedParser.ReadText` | internal/importer/safejson.go:151-231 | the one-pass loop that keeps a pending high surrogate reads a string literal as its code units decoded as UTF-16, each lone surrogate becoming U+FFFD, and fails exactly where the grammar of section 7 of RFC 8259 does; what the spellings of a string are, digits and escapes included, is in `SpellingsParse` and `ReadExactly` |
| `JsonReader.BoundedParser.ReadNumeral` | internal/importer/safejson.go:233-273 | the cursor loops accept exactly the numbers of section 6 of RFC 8259 and give the decimal they spell, rounded by the configured rounding |
| `JsonReader.BoundedParser.ReadValue` | internal/importer/safejson.go:39-73 | value, error, cursor and node count are those of the grammar with its depth and node budget |
| `JsonReader.BoundedParser.ReadObject` | internal/importer/safejson.go:75-119 | the member loop reads an object as the grammar does, refusing a repeated key |
| `JsonReader.BoundedParser.ReadArray` | internal/importer/safejson.go:121-149 | the item loop reads an array as the grammar does |
| `JsonReader.ParseJsonSafely` | internal/importer/safejson.go:18-37 | the parser object, run on a text, gives the value or error of the grammar, trailing text and size limit included |
| `JsonWriter.WriteJson` | internal/ir/canonical.go:93-133 | writing a tree into a shared builder appends exactly its printed text to what was there |
| `JsonWriter.WriteJsonString` | internal/ir/canonical.go:135-162 | the escaping loop appends exactly the quoted literal |
| `CanonicalLaws.SortTreesSorts` | internal/ir/canonical.go:58 | sorting an array by its items’ texts leaves a sorted list with the same multiset of texts |
| `CanonicalLaws.ObjectAscends` | internal/ir/canonical.go:66-77 | the members of a canonical object are those of the object but the volatile ones, each with its canonical value, and their keys ascend by code units |
| `CanonicalLaws.ArrayAscends` | internal/ir/canonical.go:46-65 | the items of a canonical array are the canonical items in some order, and their printed texts ascend by code units |
| `CanonicalLaws.EquivalentPrintAlike` | internal/ir/canonical.go:44-86 | values equal up to array order, volatile keys and the sign of zero have one canonical text |
| `CanonicalTheorem.PrintInjective` | internal/ir/canonical.go:93-133 | two different trees without repeated keys never print to the same text |
| `CanonicalTheorem.CanonicalIff` | internal/ir/canonical.go:29-86 | two values have the same canonical string if and only if they are equal up to reordering array items at every level, dropping the volatile keys and identifying -0 with 0 |
| `CanonicalTheorem.CanonicalTextParses` | internal/ir/canonical.go:29-33 | the canonical text is JSON the bounded parser accepts, and reading it gives the canonical value |
| `CanonicalTheorem.CanonicalIdempotent` | internal/ir/canonical.go:29-86 | canonicalising what was read from a canonical text gives that text again: it is a normal form |
| `Balanced.BalancedJson` | internal/docimport/docimport.go:585-616 | the scanning loop returns the slice up to the brace that closes the one it starts on, or nothing within the page limit |
| `Balanced.ScannerAgrees` | internal/docimport/docimport.go:585-616 | wherever the parser reads an object from p to q, the brace scanner returns exactly that slice and q if it fits 2 MiB and nothing otherwise, braces and quotes inside strings and escapes notwithstanding |
| `OrderedMap.IndexLessIs` | internal/importer/ordmap.go:71-76 | on array-index keys the comparison by length and text is the comparison of the numbers |
| `OrderedMap.IndexKeyIs` | internal/importer/ordmap.go:78-98 | the array-index keys are the numbers below 2^32 - 1 in decimal as they are written, without leading zeros |
| `OrderedMap.SortIndexes` | internal/importer/ordmap.go:63-67 | the swap loop leaves the same keys in ascending numeric order |
| `OrderedMap.OrdMap.Set` | internal/importer/ordmap.go:33-38 | a new key goes to the end, an old one keeps its place; keys and values stay in step |
| `OrderedMap.OrdMap.Delete` | internal/importer/ordmap.go:40-51 | exactly the one key and value go, the other keys keep their order |
| `OrderedMap.OrdMap.Keys` | internal/importer/ordmap.go:53-69 | each key once, in the order JavaScript gives them: array indexes before all others and by number, the others as inserted |
| `OrderedMap.PointerRoundTrip` | internal/importer/ordmap.go:116-122 | unescaping undoes escaping for every JSON pointer segment (section 4 of RFC 6901), in the two-pass form the code uses |
| `OrderedMap.EscapedHasNoSlash` | internal/importer/ordmap.go:116-118 | an escaped segment contains no slash |
| `Flatten.FlattenInPlace` | internal/ir/flatten.go:11-25 | the hop loop and the recursion compute the flattening function, hop and depth limits and dangling references included |
| `Flatten.FlattenMembers` | internal/ir/flatten.go:26-86 | the loop over members, with its property table, order list and early returns, gives the original node when members conflict and otherwise the merged node |
| `Flatten.IntersectEnums` | internal/ir/flatten.go:89-101 | the loop keeps the values of the first list that the second has, in order |
| `Flatten.EnumOfIs` | internal/ir/flatten.go:57-63 | a value is in the merged enum exactly if every member that declares an enum declares it |
| `Flatten.TypeOfIs` | internal/ir/flatten.go:38-43 | without a conflict every declared member type is the merged type, and no member is a choice |
| `Flatten.ConflictIff` | internal/ir/flatten.go:35-43 | members cannot be merged exactly if one of them is a choice or two declare different types |
| `Flatten.FirstType` | internal/ir/flatten.go:38-43 | the type of the members so far is the first that one declares |
| `Flatten.FirstItems` | internal/ir/flatten.go:54-56 | the merged items are the first that a member declares |
| `Flatten.PropsAre` | internal/ir/flatten.go:65-85 | each property the members list is there once, in the order of first mention, with the schema of its last mention, and required if any mention is |
| `Flatten.MismatchIs` | internal/conformance/conformance.go:128-138 | a value is at odds with a type exactly if the type is one of the six, the value is not null and not of it, integers and numbers being one |
| `Flatten.PassesIs` | internal/conformance/conformance.go:140-150 | a string fails an enum exactly if that lists strings, only strings, and not this one |
| `Flatten.FewerLevels` | internal/conformance/conformance.go:97-193 | a value accepted with some number of levels of walking left is accepted with fewer: the depth cut never adds a violation |
| `FlattenMeaning.MemberMeets` | internal/ir/flatten.go:11-25 | at every number of levels: a member given the levels of its references on top accepts a value exactly if its flattened form does, through references and nested allOfs, when no limit cuts the flattening short |
| `FlattenMeaning.AllOfForward` | internal/ir/flatten.go:26-86 | at every number of levels, flattening adds no violation: what every member of an allOf accepts with the levels of its references on top, the node accepts, if the members cannot be merged or the stated conditions on null and enums hold |
| `FlattenMeaning.AllOfForwardExact` | internal/ir/flatten.go:45-63 | those conditions are necessary: whenever the members merge and one fails, there is a value that every member accepts and the node rejects, at every number of levels |
| `FlattenMeaning.AllOfBack` | internal/ir/flatten.go:26-86 | under the converse conditions on null and enums, of what the node accepts the members accept exactly that which the properties declared again later and the items declared before accept as well |
| `FlattenMeaning.AllOfExactly` | internal/ir/flatten.go:26-86 | the two together: the members accept, with the levels of their references on top, exactly what the node and the schemas forgotten in merging accept |
| `FlattenMeaning.AllOfBackWithin` | internal/ir/flatten.go:26-86 | with no property and no items declared twice, the node accepts only what every member accepts with the same number of levels |
| `FlattenMeaning.AllOfForwardWithin` | internal/conformance/conformance.go:97-180 | flattening adds no violation at the same number of levels if each member is no reference or is a schema that every walk gets through |
| `FlattenMeaning.WithinExactly` | internal/conformance/conformance.go:97-180 | of a value every member accepts with some number of levels, the node with as many accepts exactly what they still accept with the levels of their references on top, where nothing is declared twice |
| `FlattenMeaning.LevelsRunOut` | internal/conformance/conformance.go:98-105 | the levels are needed: for every number of them and every chain of references that flattening follows, with one level less a member accepts what the node rejects |
| `FlattenMeaning.WalkRunsOut` | internal/conformance/conformance.go:34-34 | so it is at the 12 levels of the source, with one reference |
| `FlattenMeaning.AllOfBackExact` | internal/ir/flatten.go:45-63 | the converse conditions are necessary: whenever one fails, the node accepts a value that some member rejects, at every number of levels |
| `FlattenMeaning.RepeatForgets` | internal/ir/flatten.go:65-72 | a property declared twice keeps only its last schema: an allOf node accepts a value its first member rejects |
| `FlattenMeaning.SecondItemsForgotten` | internal/ir/flatten.go:54-56 | of items declared twice only the first count: an allOf node accepts a value its second member rejects |
| `FlattenMeaning.ConflictLoosens` | internal/ir/flatten.go:35-43 | members that cannot be merged leave a choice: a value one of them rejects is accepted |
| `CaptureQueue.StepConserves` | internal/proxy/proxy.go:269-303 | every atomic step of a producer, the consumer or the closer keeps each exchange in exactly as many places as it arrived |
| `CaptureQueue.StepKeepsBytes` | internal/proxy/proxy.go:271-276 | every step keeps the byte counter equal to the bytes added and not yet released |
| `CaptureQueue.StepKeepsBound` | internal/proxy/proxy.go:271-275 | every step keeps the counter plus all checked but unadded sizes within 256 MiB and one exchange for every other producer |
| `CaptureQueue.ReachableInv` | internal/proxy/proxy.go:269-303 | the invariants of places, bytes, queue order and close hold in every state any interleaving reaches; when an exchange is rejected, evicted or refused is in `EveryDropHasItsReason` |
| `CaptureQueue.ExactlyOnePlace` | internal/proxy/proxy.go:269-303 | in every reachable state each exchange that arrived is in exactly one of: a producer’s hands, queue, consumer, consumed, or one of the three drops |
| `CaptureQueue.ReleasedAtMostOnce` | internal/proxy/proxy.go:41-46 | no interleaving releases an exchange twice |
| `CaptureReasons.EveryDropHasItsReason` | internal/proxy/proxy.go:269-303 | over every interleaving: what was rejected found the byte limit passed; what was evicted was the oldest in the queue when another exchange, whose first send had found the queue full, took it out; what was refused found the server closed or, on its second send, the queue full again; what was sent found room; and a queue is never fuller than its capacity |
| `CaptureReasons.NewestStays` | internal/proxy/proxy.go:289-301 | with one producer, room for one exchange and no close nothing is ever refused: between calls what was sent is exactly what arrived within the byte limit, in order, so that the oldest drop and the newest stays |
| `CaptureReasons.ReachableRuns` | internal/proxy/proxy.go:269-303 | every state any interleaving reaches comes at the end of such a run |
| `CaptureQueue.ByteBound` | internal/proxy/proxy.go:74-98 | the counter is exactly the bytes added and not released, at most 256 MiB plus 2 MiB for every producer but one; the channel is first in first out, within capacity, and never used once closed |
| `CaptureQueue.BoundReached` | internal/proxy/proxy.go:271-275 | for every number of producers an interleaving reaches that bound, so the check and the addition being apart costs exactly that much |
| `CaptureQueue.NothingLost` | internal/proxy/recorder.go:162-176 | once all has drained the counter is zero and every arrival was consumed or counted by one of the two drop counters |
| `CaptureQueue.EvictionCountedByEvictor` | internal/proxy/proxy.go:228-234 | the two drop counters do not split by kind of exchange: a webhook that evicts a captured call counts a dropped webhook |
| `CaptureQueue.CountersByKind` | internal/proxy/proxy.go:228-234 | in every reachable state the webhook counter is off by the captures webhooks evicted less the webhooks captures evicted, and the capture counter by as much the other way; so they count by kind exactly if the two numbers agree |
| `CaptureQueue.OneKindCounted` | internal/proxy/proxy.go:228-234 | where all arrivals are of one kind both counters are right |
| `CaptureQueue.CappedBuffer.Write` | internal/proxy/proxy.go:306-323 | the buffer holds the first 1 MiB of all that was written, every write reports success, and the flag tells whether something was left out or an empty write came too late |
| `Alerting.AlertNeedsReports` | internal/alert/alert.go:180-228 | with a clock that never goes back, a report alerts only if at least MinOccurrences reports of its fingerprint, itself included, lie within one window |
| `Alerting.EnoughReportsAlert` | internal/alert/alert.go:180-228 | 2k-2 reports of a tracked, unacknowledged fingerprint within one window leave it alerted, whatever else is reported, acknowledged or evicted meanwhile |
| `Alerting.TwoWindowsHide` | internal/alert/alert.go:202-207 | 2k-3 reports one nanosecond apart can pass without an alert, for every k of at least 2: the bound is the least |
| `Alerting.OthersKeep` | internal/alert/alert.go:456-483 | a state that is neither alerted nor acknowledged is never evicted nor changed by another fingerprint |
| `Alerting.StepKeepsInv` | internal/alert/alert.go:180-273 | every event keeps a tracked, quiet fingerprint at a window count from 1 to k-1 |
| `Alerting.LatchHolds` | internal/alert/alert.go:207-210 | an alerted fingerprint stays tracked and alerted until it is itself evicted |
| `Alerting.AlertsOnce` | internal/alert/alert.go:180-273 | a second alert for a fingerprint happens only after an eviction of it |
| `Alerting.OnceIffRoom` | internal/alert/alert.go:456-483 | each of a set of fingerprints alerts at most once in every run exactly if the set fits the tracking limit |
| `Alerting.SightingsCounted` | internal/alert/alert.go:180-201 | over every run, unless it is evicted, a fingerprint is tracked exactly from its first report that is not refused, and its state counts all of them and has the times of the first and the last |
| `Alerting.AlertsTwice` | internal/alert/alert.go:456-483 | for every tracking limit and any one fingerprint more there is a run that alerts twice for the first of them |
| `Alerting.HourlyCeiling` | internal/alert/alert.go:304-309 | at most 119 alerts are delivered in any hour, and at most 60 in an hour that starts with a delivery window |
| `Alerting.FloorFilters` | internal/alert/alert.go:294-303 | over every run, what is below the floor might as well not have been emitted: the alerts delivered from any time to any other are those of the emissions from the floor up, and so is the window |
| `Alerting.BelowFloor` | internal/alert/alert.go:298-303 | an emission below the floor is silent and leaves the window as it was |
| `Alerting.MessageIs` | internal/alert/alert.go:304-318 | in every run an emission from the floor up is delivered exactly if fewer than 60 of the floor or above came before it in its window, the next is the one notice and the rest is silence; a window starts where none is open and takes all within the hour |
| `Alerting.CeilingReached` | internal/alert/alert.go:304-309 | 119 deliveries in one hour do happen |
| `Alerting.Alerter.EvictOneLocked` | internal/alert/alert.go:456-483 | in whatever order the map is walked, the one evicted is acknowledged if any is, and among those the longest unreported; nothing is evicted only if nothing may be |
| `Alerting.MayEvictIs` | internal/alert/alert.go:456-483 | who may be chosen: nobody exactly if none is acknowledged or alerted, else an acknowledged one if there is any, else an alerted one, and of those one reported longest ago; a state under the empty fingerprint hides others |
| `Alerting.Alerter.Report` | internal/alert/alert.go:180-228 | the object’s states, delivery window, messages and saturation flag after a report are those of the transition system |
| `Alerting.Alerter.ReportFirst` | internal/alert/alert.go:238-273 | the same for reports that alert at once |
| `Alerting.Alerter.Emit` | internal/alert/alert.go:276-318 | what is handed to delivery: the alert up to the ceiling, one notice past it, nothing below the floor, and there the window and what was handed over stay as they were |
| `Alerting.Alerter.Ack` | internal/alert/alert.go:396-407 | acknowledging marks exactly that fingerprint, if tracked |
| `Alerting.Defaulted` | internal/alert/alert.go:145-154 | options at or below zero become 3 reports, 15 minutes and 10000 fingerprints, so the options are always usable |
| `PathGuard.LiteralsBounded` | internal/pathtmpl/pathtmpl.go:93-150 | over all runs a position emits at most `threshold` different segments besides `{id}` |
| `PathGuard.LiteralsReached` | internal/pathtmpl/pathtmpl.go:119-125 | that many distinct segments do come out as they went in |
| `PathGuard.PromotionIsFinal` | internal/pathtmpl/pathtmpl.go:109-118 | once a position is promoted it stays so, and what a segment becomes there never changes again |
| `PathGuard.SparedSegments` | internal/pathtmpl/pathtmpl.go:125-146 | from promotion on exactly the segments that had come at least three times before are spared |
| `PathGuard.KeyTextInjective` | internal/pathtmpl/pathtmpl.go:108 | the text key of a position stands for one list of preceding segments |
| `PathGuard.ApplyIsVisits` | internal/pathtmpl/pathtmpl.go:93-150 | applying a path visits exactly its unclassified segments in turn, each under what the ones before it became; an empty segment stays, a recognised one becomes its placeholder, any other what its visit gives; and the promotion reported is the last position that went beyond the threshold of different segments |
| `PathGuard.PromotedIff` | internal/pathtmpl/pathtmpl.go:119-134 | over every run a position is promoted exactly if more different segments than the threshold came to it |
| `PathGuard.OutputIs` | internal/pathtmpl/pathtmpl.go:109-146 | up to the threshold every segment comes out as it is, beyond it as it is or as `{id}` |
| `PathGuard.Guard.Apply` | internal/pathtmpl/pathtmpl.go:93-150 | the rewriting loop over the guard’s maps gives the rewritten path, the last promotion and the state of the visits |
| `PathGuard.Guard.Place` | internal/pathtmpl/pathtmpl.go:108-146 | one unclassified segment: counted, promoted at the threshold, replaced unless pinned |
| `Baseline.RecordOk` | internal/baseline/baseline.go:163-206 | an observation keeps a family’s books: status codes add up to samples, each field is counted once per type and at most once per sample |
| `Baseline.AbsorbOk` | internal/baseline/baseline.go:296-333 | merging two families keeps the books |
| `Baseline.AbsorbTimes` | internal/baseline/baseline.go:303-308 | a merged family was last seen when the later of the two was and first seen when the earlier was, a receiver with the zero time aside; it is not frozen and keeps its key |
| `Baseline.StatusClassIs` | internal/baseline/baseline.go:100-111 | the class is the first digit of the status, and 5xx for all that is not 2, 3 or 4 hundred |
| `Learning.EveryObservationCountedOnce` | internal/baseline/baseline.go:141-209 | over every run, with merges in any map order, the families’ samples add up to the observations made, and every family is filed under its own key with its books in order |
| `Learning.MergeKeeps` | internal/baseline/baseline.go:281-294 | regrouping the families in any order keeps the total of samples, the keys and the books |
| `FamilyHistory.LearnerIsHistories` | internal/baseline/baseline.go:141-209 | without merges every family is the fold of exactly the events that concern it |
| `FamilyHistory.FamilyIsFold` | internal/baseline/baseline.go:257-279 | the live table folds all observations and the frozen reference exactly the first `frozenSamples` of them |
| `FamilyHistory.FrozenIffRipe` | internal/baseline/baseline.go:156-160 | over every history a family is frozen exactly if some observation had at least the minimum of samples before it and came at least the minimum of age after the first |
| `FamilyHistory.FreezePoint` | internal/baseline/baseline.go:156-160 | without a refreeze it froze at the first such observation, before counting it |
| `FamilyHistory.RefreezeTakesAll` | internal/baseline/baseline.go:244-255 | a refreeze takes all observed so far as the reference, of a frozen family only |
| `FamilyHistory.FrozenUntouched` | internal/baseline/baseline.go:156-160 | once a family is frozen, later observations leave its reference, reference codes, freezing time and sample count as they were |
| `FamilyHistory.LearntRemembers` | internal/baseline/baseline.go:170-206 | under the field cap each observation stays remembered, field by field: its types and, while values are tracked, its strings |
| `FamilyHistory.AbsorbRemembers` | internal/baseline/baseline.go:309-330 | a merge keeps what the receiver remembers, and of the other family everything but strings in a field where the receiver holds no values |
| `FamilyObject.FieldStats.Record` | internal/baseline/baseline.go:179-205 | the update of one field’s counters in place |
| `FamilyObject.FieldStats.Absorb` | internal/baseline/baseline.go:315-329 | the in-place sum of two fields’ counters, with the value cap |
| `FamilyObject.FamilyCell.Freeze` | internal/baseline/baseline.go:257-279 | the reference is a deep copy: equal to the live table, in cells shared with nothing |
| `FamilyObject.FamilyCell.Record` | internal/baseline/baseline.go:163-206 | an observation updates the live cells in any map order, admits new fields up to the cap, and leaves the reference’s cells alone |
| `FamilyObject.FamilyCell.Absorb` | internal/baseline/baseline.go:296-333 | the in-place merge, which takes over some of the other family’s cells, computes the sum of the two families and shares no cell twice |
| `LearnerObject.Learner.MergeFamiliesLocked` | internal/baseline/baseline.go:281-294 | the loop visits every family once, in some order, and leaves the families and the guard as merging in that order does |
| `LearnerObject.Learner.Observe` | internal/baseline/baseline.go:141-209 | the whole observation is one step of the learner’s transition system |
| `LearnerObject.Learner.NewFields` | internal/baseline/baseline.go:173-178 | the loop admits new fields exactly up to the cap |
| `LearnerObject.Learner.RefreezeTemplate` | internal/baseline/baseline.go:244-255 | refreezes exactly the frozen families of that method and template and returns how many |
| `Drift.DiffEmptyIffFits` | internal/drift/drift.go:89-162 | a diff is empty if and only if the status class and code are known, every field fits the reference, and nothing almost always present is missing; in terms of the observations see `DiffIs` |
| `Drift.TrainingReplays` | internal/drift/drift.go:89-162 | in every run without merges and under the field cap, judging any observation a frozen family was built from finds nothing but missing fields |
| `FoundedJudgement.RunsFound` | internal/baseline/baseline.go:141-333 | in every run, merges included, a frozen family under the field cap is founded on the observations its reference was built from: its tables count exactly what they show |
| `FoundedJudgement.HistoriesFound` | internal/baseline/baseline.go:141-279 | in every run without merges those are its first ones, and nothing is forgotten |
| `FoundedJudgement.PresenceIs` | internal/baseline/baseline.go:54-77 | the presence rate of a field of a frozen family, times the number of founding observations, is the number of those that hold the field |
| `FoundedJudgement.PresenceStays` | internal/baseline/baseline.go:54-77 | whatever is observed after the freeze leaves the rate as it was |
| `FoundedJudgement.MissingIs` | internal/drift/drift.go:145-150 | a field is reported missing exactly if it is absent, two of the founding observations at least hold it, and 98 in a hundred do |
| `FoundedJudgement.DiffIs` | internal/drift/drift.go:89-162 | a judgement makes exactly the findings called for by what the founding observations showed, for each of the eight kinds: a field none held, a type none had, a null none had, a string none of at most 24 was, a missing field, a new class or code, and for errors a change of shape in place of added and removed fields; with what each shows as before and after |
| `FoundedJudgement.DiffInOrder` | internal/drift/drift.go:152-162 | status findings first, then added fields or the change of shape, changed fields and removed fields, each in the order of their names, none twice |
| `MergedHistory.EveryObservationHeld` | internal/baseline/baseline.go:281-333 | however families merge, each observation of a run is among those some family was built from |
| `MergedHistory.RunFits` | internal/baseline/baseline.go:281-333 | in every run, each family’s samples number the observations it was built from, a frozen reference stands for the first of them, and status codes are counted exactly; under the field cap each field and type is counted exactly, and where no merge on the way forgot any, each string is listed with its number, unless the field is volatile or took more than 24 |
| `MergedHistory.FiledUnder` | internal/baseline/baseline.go:145-155 | in every run the newest observation is the last one of the family of its verb, its guarded path and its status class |
| `Training.MergedTrainingReplays` | internal/drift/drift.go:89-162 | in every run, under the field cap, judging any observation a frozen family was built from finds nothing but missing fields, if no merge on the way to its reference took over strings without values for them |
| `Training.MergeForgets` | internal/baseline/baseline.go:320-329 | and it fails beyond: a run of four observations with a promotion after which judging one of them reports exactly a new value |
| `Drift.DiffInPlace` | internal/drift/drift.go:89-162 | the loops over the sorted paths give the findings of the definition, in order |
| `Drift.JudgeFields` | internal/drift/drift.go:111-135 | the field loop gives the added and the changed findings |
| `Drift.JudgeMissing` | internal/drift/drift.go:137-151 | the loop over the reference gives the removed findings; which fields those are is in `MissingIs` and `DiffIs` |
| `Drift.DominantType` | internal/drift/drift.go:182-190 | the dominant type is the commonest, ties going to the first in the alphabet, whatever order the map is walked in |
| `Drift.FpEscapeIs` | internal/drift/drift.go:82-87 | the two replacement passes with their shortcut are one pass that puts a backslash before each backslash and bar |
| `Drift.PreimageInjective` | internal/drift/drift.go:75-87 | two lists of fields of one length have the same joined text only if they are equal |
| `Names.ListingUnique` | internal/contract/contract.go:341-343 | there is one sorted list of a set of names, so what is built from it does not depend on map order |
| `Names.LessIs` | internal/contract/contract.go:341-343 | of two names the one comes first that has the smaller character where they first differ, or that ends there |
| `Names.SortedNames` | internal/contract/contract.go:341-343 | picking least names one by one gives that list |
| `Replay.ScopesDoNotInterfere` | internal/replay/replay.go:154-202 | a scope gets the same recordings and tiers in any interleaving with other scopes as when it runs alone |
| `Replay.ForgottenIsFresh` | internal/replay/replay.go:320-328 | after it is forgotten a scope is answered as by a freshly loaded set |
| `Replay.ExactInOrder` | internal/replay/replay.go:163-180 | repeated exact matches are served in file order, then the last one is held, with position and held flag accordingly |
| `Replay.ReplyIs` | internal/replay/replay.go:154-202 | for every request and whatever was served: if recordings of the same exact key are allowed, the first in the file not served yet with its place among them, else the newest, held; if not, the first unserved one of the request’s shape key; if none, the first unserved one of its sequence key, else the oldest of them, which then counts as not served; and a miss exactly if there is none |
| `Replay.FreshWhileThereIsOne` | internal/replay/replay.go:182-198 | without an exact match every request gets a recording not served yet, those of its shape first, while there is one; which one is in `ReplyIs` |
| `Replay.SpentSticks` | internal/replay/replay.go:192-195 | a spent sequence does not start over: it answers with its first recording ever after |
| `Replay.Set.constructor` | internal/replay/replay.go:62-100 | loading files every recording in all three indexes, in file order, with nothing served |
| `Replay.Set.MatchValueScoped` | internal/replay/replay.go:154-202 | the answer and the scope’s marks on the shared recordings are those of the definition, and no other scope’s marks change |
| `Replay.Set.ForgetScope` | internal/replay/replay.go:320-328 | the nested loops clear exactly that scope’s marks on every recording |
| `Replay.TakeUnserved` | internal/replay/replay.go:307-318 | marks the first recording not served to the scope, and only for that scope |
| `Replay.EveryRecordingFiled` | internal/replay/replay.go:91-94 | every recording is in the list of its own sequence key |
| `Contract.HistoryIsPinned` | internal/contract/resolve.go:301-352 | in every run the journal is in order, and what was resolved at a version when it was reached is what is resolved at it ever after, live values and contradictions aside |
| `Contract.HistoryIsWhole` | internal/contract/resolve.go:301-352 | in every run, what was resolved at a version reached is wholly the same later exactly if no contradiction was added and each added field that no later entry replaces has the live values it had |
| `Contract.RunKeeps` | internal/contract/resolve.go:17-53 | over any run the version counts the journal, entry i carries version i+1, keys stay distinct, both caps hold, and both lists only grow at the end |
| `Contract.AdmitTwice` | internal/contract/resolve.go:17-129 | a second Admit at the same time changes nothing at all |
| `Contract.ResolveReadsPrefix` | internal/contract/resolve.go:301-352 | resolving at a version reads exactly the journal’s first entries up to it |
| `Resolving.ResolvedIs` | internal/contract/resolve.go:301-352 | at a version reached, for each kind: an added field, a type override and an added endpoint is that of the latest of the first entries of its kind and place, value unions and added statuses list all of theirs in order, and there is nothing for a place no entry names |
| `Resolving.LiveValuesAre` | internal/contract/resolve.go:322-330 | the values of an added field are those now observed of it at the endpoint the entry came from |
| `Contract.SpecPreferred` | internal/contract/resolve.go:84-103 | where the specification is preferred no admission overrides a declared type |
| `Proposing.DominantIs` | internal/contract/resolve.go:260-273 | the dominant type is the one seen most often, the first in the alphabet of equals, with its count and the count of all; none exactly if none was seen |
| `Proposing.ProposedIff` | internal/contract/resolve.go:56-129 | `Admit` proposes of an endpoint exactly what is called for: of one with samples and age enough, the endpoint or its new status codes, each field present often enough that has no declared type, a type or a contradiction where traffic shows another type, and each new value of a declared enum, all with the parts they are written with |
| `Proposing.AllInOrder` | internal/contract/resolve.go:56-129 | the proposals come endpoint by endpoint in the order of their keys: the endpoint, its fields by name, each with its type, its contradiction and its values by name, and the status codes by name, none twice |
| `Proposing.AdmitsOnlyWanted` | internal/contract/resolve.go:29-53 | every entry and every contradiction that `Admit` adds is called for by some endpoint |
| `Proposing.ContestsKept` | internal/contract/resolve.go:43-53 | every contradiction called for is on the list afterwards, or one of its place is, or the list is full |
| `Admissions.ValuesNotPinned` | internal/contract/resolve.go:320-330 | the exception, in a run from the empty overlay: the values of an added field are read from the live endpoint, so a later record changes what is resolved at a version |
| `JournalKeys.KeyShared` | internal/contract/resolve.go:131-133 | an admission shares its journal key with one that differs in a joined part and that `Admit` could make for the same method, exactly if: never, for endpoints and status codes; for fields and types, if the template cut at bars has a status class after its first piece or the field one before its last; for values, if a bar stands in the field or the value or the template has such a class |
| `JournalKeys.ProposedReal` | internal/contract/resolve.go:56-129 | every admission proposed for observed endpoints is of that shape: a status class, a type and a status code without bars, and the parts its kind leaves empty |
| `JournalKeys.RunPlausible` | internal/contract/contract.go:158-237 | over every run of records with methods and JSON types without a bar, observing gives such endpoints |
| `JournalKeys.NothingElseLost` | internal/contract/resolve.go:29-40 | in every run an `Admit` journals each of its proposals under its own parts unless the journal is full or holds a different entry of the same key, and a proposal that cannot be cut otherwise always, short of the cap |
| `JournalKeys.NeverBoth` | internal/contract/resolve.go:29-40 | of two different admissions of one key no run ever journals both |
| `Admissions.FieldLost` | internal/contract/resolve.go:17-53 | for every two different field entries of one key there is a run from the empty overlay, of one record for each, after which one `Admit` proposes both and journals exactly one |
| `Admissions.OneLost` | internal/contract/resolve.go:17-129 | for every two different entries of one key, of whatever kind, there are endpoints and a specification for which one `Admit` proposes both and journals at most one |
| `RefinerObject.Refiner.Admit` | internal/contract/resolve.go:17-129 | the nested loops over sorted endpoints, fields, values and status codes leave the overlay of the definition and report the number of new entries |
| `RefinerObject.Refiner.Offer` | internal/contract/resolve.go:29-53 | the two closures: an entry is journaled once, under the cap, with the next version; a contradiction once per place |
| `RefinerObject.Refiner.DominantOf` | internal/contract/resolve.go:260-273 | the counting loop gives the first of the commonest types, its count and the total |
| `RefinerObject.Refiner.Observe` | internal/contract/contract.go:158-237 | a record changes only its endpoint, and that as the definition says |
| `Observing.ObserveKeepsBooks` | internal/contract/contract.go:158-250 | status codes add up to samples, no field has more samples than its endpoint, types and redactions never exceed sightings, and both caps hold |
| `Observing.PresenceIs` | internal/contract/contract.go:158-237 | over every run of records, the presence rate of every field of every endpoint is its sightings over the endpoint’s records since the first of them, and at most 1 exactly if they are no more |
| `Observing.EndpointIsItsRecords` | internal/contract/contract.go:158-181 | over every run an endpoint is made of all its records, or there are too many endpoints |
| `OverlayCounts.FieldCounts` | internal/contract/contract.go:158-237 | over every run each field of each endpoint counts exactly the sightings in that endpoint’s records: by type those that may be kept as they are, by mode those cut, and each text with its number, given up exactly if there were more than 24; and it has as many samples as there were records from the first sighting on |
| `OverlayCounts.EndpointCounts` | internal/contract/contract.go:170-191 | over every run each endpoint counts its records, in all and by status code, with method, template and class of the first and the times of the first and the last |
| `OverlayCounts.StatusClassIs` | internal/contract/contract.go:275-286 | the class is the first digit of the status, 2xx for all below and 5xx for all above |
| `OverlayCounts.CodeTextIs` | internal/contract/contract.go:288-293 | codes of three digits are told apart by their texts, all others count as 0 |
| `Observing.PresenceAtMostOne` | internal/contract/contract.go:193-237 | where every record visits a path at most once, or redacts it at most once without a visit, the rate is at most 1 |
| `Observing.PresenceAboveOne` | internal/contract/contract.go:193-237 | every record that sights a field new to its endpoint more than once takes its rate above 1, to the number of sightings |
| `Observing.ItemsSightedTwice` | internal/contract/contract.go:295-314 | a path inside an array is visited once per element: of two elements, twice |
| `Batching.BatchPages` | internal/docimport/docimport.go:224-245 | the batches keep the pages in order, each fits the limit or is a single page, and no other such cut has fewer batches |
| `Batching.StaysAhead` | internal/docimport/docimport.go:232-240 | starting later never takes the greedy cut more batches |
| `Batching.GreedyIsLeast` | internal/docimport/docimport.go:224-245 | every cut of that shape has at least as many batches as the greedy one |
| `Batching.PlanCorpus` | internal/docimport/docimport.go:313-364 | every page is chosen once or skipped; first each group has the pages at its head while its reserve and the budget last, then the others have their turn in order and one is passed over only if it does not fit; the budget holds, nothing skipped would still fit, and if the shares fit the budget each group gets the pages at its head that fit its share |
| `Batching.TakeHead` | internal/docimport/docimport.go:327-343 | the first pass over one group: its first pages, as many as its reserve and the budget do for |
| `Batching.TakeRest` | internal/docimport/docimport.go:344-355 | the second pass over one group: whatever fits, in turn |
| `Batching.LeftIs` | internal/docimport/docimport.go:356-362 | the names given as skipped are those of exactly the pages that were not taken, in the order of groups and pages |
| `Batching.ReserveIs` | internal/docimport/docimport.go:324-327 | a reserve is the whole number next to budget times share on the side of zero, and the whole budget for a group without a share |
| `Batching.SharesHonoured` | internal/docimport/docimport.go:323-343 | shares of at most the whole, one for each group, fit every budget, so each group has all the pages at its head whose size in all is within its part |
| `GraphQL.LexFrom` | internal/importer/graphql.go:185-244 | the lexer ends on every input with one end token, at the end, or fails |
| `GraphQL.LexInPlace` | internal/importer/graphql.go:185-244 | the loop computes the lexing function, token limit included |
| `GraphQL.ParseTypeRef` | internal/importer/graphql.go:606-631 | the parser of a type reference ends on every input with the cursor advanced and inside the tokens, or fails |
| `GraphQL.SkipValue` | internal/importer/graphql.go:633-672 | the same for default values of any nesting |
| `GraphQL.ParseFields` | internal/importer/graphql.go:537-573 | the same for field blocks; what is read is in `DocumentParses` |
| `GraphQL.ParseDefinition` | internal/importer/graphql.go:407-446 | the same for definitions and extensions; what is read is in `DocumentParses` |
| `GraphQL.RegisterKeepsStep` | internal/importer/graphql.go:448-468 | registering or extending a type keeps the name table and the type list in step |
| `GraphQL.ParsedInStep` | internal/importer/graphql.go:393-405 | in every accepted schema each name leads to the type of that name and each type has one |
| `GraphQL.ParsedNames` | internal/importer/graphql.go:185-244 | the type names of every accepted schema consist of the lexer’s name characters |
| `GraphQLTypeRef.TypeRefRoundTrip` | internal/importer/graphql.go:1270-1284 | printing, lexing and parsing a type reference gives it back if it nests at most 32 lists (section 2.11 of the GraphQL specification, October 2021) and is refused beyond |
| `GraphQLTypeRef.PrintLexes` | internal/importer/graphql.go:185-244 | the printed reference lexes to its tokens wherever it stands before something that is not a name |
| `GraphQLTypeRef.TokensParse` | internal/importer/graphql.go:606-631 | those tokens parse to the reference at any depth that leaves room, and to a refusal otherwise |
| `GraphQLGrammar.DocumentParses` | internal/importer/graphql.go:393-468 | the tokens of every document of schema, type, interface, input, enum, union, scalar and directive definitions and extensions, with any descriptions, arguments, default values and directives, parse to what it declares, or are refused if a definition is |
| `GraphQLMeaning.MeaningIs` | internal/importer/graphql.go:448-504 | of every document accepted: its types are those its definitions declare, in the order of first mention, each with the fields, values and members of all definitions of its name, of one kind, the later ones all extensions; and the root types are the names given last |
| `GraphQLSpelling.TextParses` | internal/importer/graphql.go:185-345 | every text that spells such a document, with any blanks, commas and comments between tokens, plain and block strings, and a byte order mark, parses to what the document declares if that has a query or mutation field |
| `GraphQLAccepted.CharsAre` | internal/importer/graphql.go:177-183 | the characters of names and numbers, listed |
| `GraphQLAccepted.LexedIff` | internal/importer/graphql.go:184-312 | a text is lexed exactly if such pieces spell it with no more tokens than the limit, and into their tokens |
| `GraphQLWritten.DocumentRead` | internal/importer/graphql.go:393-468 | tokens the parser accepts are those of a document |
| `GraphQLWritten.ParsesExactly` | internal/importer/graphql.go:185-468 | a text is accepted as a schema exactly if it spells, within the limits, a document that declares that schema, with a query or mutation field; nothing else is accepted |
| `GraphQLOpenApi.AcceptedDocumentSound` | internal/importer/graphql.go:976-1021 | in the document of every accepted schema text each name that is referenced has its component |
| `GraphQLOpenApi.DocumentSound` | internal/importer/graphql.go:1083-1343 | every name that the emitters of operations, webhooks and components write a reference to is a name of the schema, and every such name has its component |
| `GraphQLDocument.TypeRefSpells` | internal/importer/graphql.go:1221-1246 | a type reference becomes as many arrays as it nests lists, around the JSON type of a built-in scalar, a reference to a type of the schema, or a string with the name as its format |
| `GraphQLDocument.ComponentShapeIs` | internal/importer/graphql.go:1286-1343 | the component of a type by its kind: an object with one property for each field name, of its last field, and for inputs the names that may not be null as required, in order; the values of an enum; the members of a union that the schema has; a formatted string |
| `GraphQLDocument.QueryOperationIs` | internal/importer/graphql.go:1083-1129 | a query field becomes an operation whose parameters are its arguments of scalar and enum types, in order and required if not null, and whose response is its type; a subscription field a webhook that sends its type |
| `GraphQLDocument.MutationOperationIs` | internal/importer/graphql.go:1131-1213 | a mutation field has no body without arguments, the input type as body if that is its only argument, and else an object of its arguments, required as they are |
| `GraphQLDocument.DocumentIs` | internal/importer/graphql.go:976-1021 | the document has the catch-all, one path for each name of a query and a mutation field, one webhook for each of a subscription field and one component for each type, and nothing else |
| `GraphQLRefs.RefLeadsHome` | internal/importer/refresolver.go:92-114 | the reference text written for a name, split and unescaped as it is read, leads to the component of that name exactly if the name has no slash and no escape; with a slash it leads to no component |
| `GraphQLRefs.AcceptedDocumentResolves` | internal/importer/graphql.go:1215-1219 | in the document of every accepted schema text each reference text leads to the component of the type it names |
| `GraphQLRefs.IntrospectedDocumentResolves` | internal/importer/graphql.go:802-894 | the document of introspected types has that property exactly if no referenced name has a slash or an escape |
| `GraphQLRefs.BadNameBreaks` | internal/importer/graphql.go:827-833 | and for every name that has one there is an introspection result, accepted by the front end, whose document has not |
| `GraphQLRefs.UnescapeSame` | internal/importer/ordmap.go:120-122 | unescaping leaves a text alone exactly if it holds no escape |

## Left out

- Text is a sequence of Unicode scalar values; invalid UTF-8, which Go's decoder replaces, is not modelled. Byte limits count UTF-8 bytes.
- Numbers are decimals: the shortest digits of a double are given, and rounding a parsed literal to a double is a parameter of the parser. Ratios are exact reals.
- Error positions, messages and codes beyond the kind of failure; log lines, digests and rendered findings.
- SHA-256, the regular expressions that classify path segments, volatile-field matchers and key functions of the replay set are parameters. `Fingerprint` is proved injective up to the text that is hashed; the hash is cut to 12 hex digits.
- Reading and writing state files; loaded state is taken to satisfy the invariants.
- Locks are atomic sections. The read-write lock's preference for a waiting writer only removes interleavings.
- Alerting.Alerter.Report: the source takes its lock twice, once to track and once to deliver; the method does both in one piece. The tracking and delivery theorems are stated over separate runs, so they hold for any interleaving of the two halves, with the clock of each non-decreasing.
- Alerting.Alerter.Emit: the delivery queue of 256 messages, the digest counters and the sinks are not modelled; the outbox is what the alerter hands over.
- Alerting.EnoughReportsAlert: starts from a fingerprint already tracked; one that saturation refuses is never tracked.
- CaptureReasons.NewestStays: with several producers a second send can find the queue full again, and the exchange is refused; `EveryDropHasItsReason` has that case.
- CaptureQueue.ByteBound: recovered panics of the capture section are not modelled; the only send that could panic, on a closed channel, is proved not to happen.
- Baseline: the churn marks of volatile fields (`Churned`, `lastValue`) and the persisted copies are not modelled; a body is taken as its flattened map of fields, because flattening can map two keys to one path (internal/baseline/baseline.go:461-467). Paths and templates are lists of segments and a family key is a triple rather than a joined text.
- LearnerObject.Learner.Observe: the learner's map holds families as values; sharing and copying of cells inside a family is modelled in `FamilyObject`. So the family that `Observe` hands out, which later observations change, is not modelled as a shared object; the model returns whether it is frozen. `Reset` and `Persist` are left out.
- Drift.TrainingReplays: without merges and under the cap of 2000 fields; `Training.MergedTrainingReplays` has merges.
- Training.MergedTrainingReplays: that no merge on the way forgot strings is sufficient; a string forgotten and then seen again is known again. The cap of 2000 fields stays.
- Drift.Diff: the `before` text of a finding is kept as the set or list it renders; `Note` and `Documented` are set elsewhere. Finding kinds of other components, risk and levels are left out.
- FlattenMeaning.AllOfForward: nodes deeper than 32 levels or reached by more than 32 references are cut by the source and excluded; a reference that leads nowhere carries nothing but its name, as the importer builds it. Format and constraints do not take part in acceptance. Redacted, dropped and volatile places are parameters.
- FlattenMeaning.AllOfBack: a redacted place that holds another type than documented is not looked into, so the converse says nothing there.
- FoundedJudgement.DiffIs: for frozen families under the cap of 2000 fields to whose reference no merge forgot strings; `MissingIs` and `PresenceIs` need the cap only.
- Replay.Set.MatchValueScoped: the report of served requests, the explanation of degraded matches and the closest-recording hint, whose ties depend on map order, are left out.
- Replay.Set.constructor: reading lines and decoding records; the gate over recordings and its deduplication of findings are left out.
- Contract: matching templates, flattening the specification into field types, and upper-casing are parameters of `Definition`; `Confidence`, `Evidence` and persistence are left out.
- JournalKeys.NothingElseLost: methods are taken to hold no bar; `KeyShared` compares admissions of one method, whatever it holds.
- Contract.HistoryIsPinned: live values of added fields and the list of contradictions are not pinned by the source.
- GraphQL: the parser's position and the schema it fills are passed along as values rather than fields; descriptions, line numbers and summaries are left out. Introspection starts from the types already decoded.
- GraphQLRefs.IntrospectedDocumentResolves: a reference text with further segments counts as leading to no component, whether or not something is found inside one; cycles of references and the budget of resolutions are left out.
- GraphQLTypeRef.TypeRefRoundTrip: the refusal of deeper references is stated for texts within the limit of a million tokens.
- OrderedMap: `deepClone` and the YAML and Swagger 2 importers.
- The command line, HTTP serving, TLS, reverse proxying, the MCP server, repository clients, Slack delivery, LLM extraction, the sanitizer, the scenario runner, the sandbox and the spec differ.
