# errx, verified

A Dafny model of the Go error library errx and proofs of what it promises. `dafny verify dfyconfig.toml`
checks everything. The model covers:

- the per-fingerprint rate limiter (`SamplerModel`, `SamplerProofs`, `Sampler`): a state machine over a map of
  bucket objects, with clock readings that may arrive out of order, and the slices its reports share;
- the error graph (`Errors`, `Tree`, `Inspect`, `Messages`): objects updated in place, the searches that loop and
  recurse over what Unwrap returns, and the one list they all read;
- what in-place updates deep in that graph do (`Suppression`, `ErrDefer`, `Wrapping`, `Edits`);
- the projections (`Projection`, `NonInterference`, `Codec`, `Migration`, `Hashing`): redaction as a two-run property,
  the wire form over any number of hops, code migration, the fingerprint and its cache;
- the directive scanner (`Directive`), source spans and carets (`Diag`), stack text (`Otel`, `Decimal`, `Text`),
  localized messages (`Locale`);
- concurrent accumulation (`Accumulation`), and fan-out to sinks, limited ones among them (`FanOut`, `Delivery`).

## How the code is represented

An error value is `Errors.Err`. A nil interface is `Nil`, an *Error is a reference to an object of class
`Errors.Error`, and bundles and foreign errors, which never change, are values. A `Graph` is the content of the heap,
from objects to records; `Inspect.Mirrors(g)` says that the heap holds g, and every method that walks or updates
errors is specified by functions of g. Its depth-first list `Tree.Pre` exists for acyclic graphs, is shown to be
reachability along Unwrap calls, and does not depend on the ranking that witnesses acyclicity. The methods require an
acyclic graph because the searches of the source do not return on a cyclic one.

Integers are unbounded, so clock differences do not saturate and label arithmetic does not wrap; `Otel.AppendInt`
states the machine bound it needs. Clock readings, stack frames, extractor results and closer results are parameters.
Strings are sequences of characters: bytes in `Hashing`, `Diag` and `Locale`, code points in `Directive`. Durations on the wire
are the numbers themselves. A text field of Go and an empty string are the same thing; so are nil and empty slices.

## Where the code and its documentation differ

The model follows the code.

- sample.go:9-12 announces at most `burst` reports per `window`. The windows are fixed, so an interval of one window
  can see 2B - 1; `AnnouncedRateNeedsBurstOne` shows that the announced rate holds in every run with ordered readings if
  and only if B = 1 or W = 1, `ForwardingBoundIsExact` and `UnitWindowBound` what the maximum is for every skew.
- construct.go:41-42 says that Wrap with an empty message does not nest; it always does. A wrapped bare context
  cancellation becomes an expected failure (`WrapsPreserveClass` has the exact condition).
- stack.go:41-44 calls the return trace innermost-first; it is outermost-first (`TraceOfWraps`), and both only if its
  frames read the same both ways (`DocumentedTraceOrder`).
- codec.go:43-50 promises that Code and HasCode keep working after a hop. They then answer with the sent object's own
  code, migrated, and nothing else (`IdentityAfterHop`). `HasCodeSurvives` and `CodeSurvives` have the exact conditions,
  `SuppressedCodeIsLost` and `OuterCodeIsLost` errors for which they fail, `EnvelopeAfterHop` those for errors without
  an *Error. An opaque cause becomes visible in the text (`TextAfterHop`). The fingerprint stays the sender's even if
  the code is rewritten; it is then out of date unless the hash merges the two codes (`FingerprintSurvives`,
  `MigratedKeyIsStale`).
- codec.go:32 calls the bound of eight steps a cycle guard; it also cuts chains that end (`NineEntriesAreNotFinal`).
  `FinalityIsChainFree` has the exact condition.
- errx.go:311-312 promises Localized one same-language match; with several variants it is whichever the map yields
  first (`OrderDoesNotMatter` has the exact condition).
- A suppressed error can decide what Code returns when nothing up to the nearest *Error resolved a code
  (`SuppressIsConservative` has the exact condition).
- diag/diag_test.go:99 says that a label past the end is skipped; it lands on the last line (`PastTheEnd`).

## Model

| member | source | states |
|---|---|---|
| SamplerProofs.FingerprintsAreIndependent | sample.go:64-86 | In any interleaving, the decisions for one fingerprint and its bucket equal those of a limiter fed only that fingerprint's calls in lock order |
| SamplerProofs.UnsampledCallsPass | sample.go:65-67 | A report without a fingerprint, or under a policy that is off, always passes and leaves every bucket as it was |
| SamplerProofs.ForwardingBound | sample.go:64-86 | With readings that go back by at most d <= kW + 1, at most nB + (k+1)(B-1) reports of a fingerprint are forwarded in a half-open interval of length nW, in every run |
| SamplerProofs.ForwardingBoundInOrder | sample.go:64-86 | With an orderly clock the bound is (n+1)B - 1 |
| SamplerProofs.ForwardingBoundForGoroutines | sample.go:68-70 | Reading the clock at most d before the lock is granted keeps that bound, whatever the interleaving |
| SamplerProofs.ForwardingBoundIsReached | sample.go:64-86 | For every n, k and window of at least 2 some run reaches the bound, with readings that go back by 0 if k = 0 and by (k-1)W + 2 else |
| SamplerProofs.ForwardingBoundIsExact | sample.go:64-86 | So for every skew d the bound with the least k is the maximum over all runs |
| SamplerProofs.UnitWindowBound | sample.go:64-86 | For a window of 1 and readings that go back by at most k the maximum is nB + k(B-1) |
| SamplerProofs.AnnouncedRateNeedsBurstOne | sample.go:9-12 | The announced rate of B per window holds in every ordered run if and only if B = 1 or W = 1 |
| SamplerProofs.ReachableBucketsAreSound | sample.go:72-85 | In every reachable state 1 <= count <= B, and something was dropped only if the bucket is full |
| SamplerProofs.WindowStartsAreSpacedInRun | sample.go:72-79 | Between any two moments of any run a fingerprint's window start stays or moves forward by at least W |
| SamplerProofs.StaleReadingsAreCharged | sample.go:72-85 | Any number of readings before the window's end, stale ones included, is charged to that window: exact count and exact drops |
| SamplerProofs.DroppedReportsAreAccounted | sample.go:73-85 | Drops handed over plus drops pending equal the reports dropped, per fingerprint and run |
| Sampler.AnnouncedDropsAreExact | sample.go:92-104 | The drop counts that reached the inner sink as fields, plus those pending, equal the reports dropped |
| Sampler.SampledSink.constructor | sample.go:47-54 | A new sink has no buckets |
| Sampler.SampledSink.Allow | sample.go:64-86 | With sampling off or no fingerprint a report passes and no bucket changes. Else a missing or expired bucket is replaced by one with a count of 1 that starts now, the report passes, and the drops of the old one are handed over; an open bucket counts the report if it has room, else drops it. That is one step of the state machine; no other bucket changes and buckets stay unshared |
| Sampler.Append | sample.go:99-100 | append: in place exactly if the array has room, else into a fresh longer array and the old one is not written |
| Sampler.SampledSink.Emit | sample.go:92-104 | The inner sink gets nothing, the caller's own report, or a fresh copy on a fresh array. Whatever arrives has the caller's head and trail and its fields as a prefix; there is one more field, safe, with key errx.sampled_dropped and that number, if and only if the decision carries drops. The caller's report and the whole array behind its fields, spare room included, are not written |
| Sampler.OutgoingIsSent | sample.go:92-104 | A receipt that Emit describes in this way has one possible report, for every decision |
| Delivery.ReportAll | report.go:125-129 | Report over any list of plain and limited sinks, repeats allowed: each plain one gets and reads the very report handed in, each limited one what its state machine lets through, and that report and its array are never written |
| Delivery.PlainSinkReadsOriginal | report.go:125-129 | Wherever it stands, and whatever limiters came before it, a plain sink reads the original report |
| Delivery.MailArrives | report.go:125-129 | An inner sink receives exactly what is sent to it, in order |
| Delivery.LimitersRunAlone | sample.go:92-104 | Each limiter's state after the fan-out is the run of the calls meant for it |
| Tree.PreIsReachability | errx.go:139-157 | An error is listed under x exactly if a walk leads from x to it, each step to the cause or a suppressed error of an object that is not opaque, a bundled error, or what a foreign error wraps |
| Tree.PreIgnoresRanking | errx.go:139-157 | The list does not depend on the witness of acyclicity |
| Tree.SearchesAgree | inspect.go:34-108 | A code that Code returns satisfies HasCode; Code is empty exactly if no error has a non-empty code; FindByCode hits exactly if a listed *Error has the code, and then HasCode confirms it |
| Tree.CarriedIsReachable | inspect.go:62-85 | HasCode is true if and only if a walk leads to an *Error with the code or to a foreign error whose Code method returns it |
| Tree.CodeOfFirst | inspect.go:34-57 | Code is that of the first listed error whose code is not empty, whatever stands before and after it |
| Tree.FoundIsFirst | inspect.go:88-108 | FindByCode returns the first listed *Error with the code, whatever stands before and after it |
| Tree.ClassOfNearest | inspect.go:113-116 | If an *Error is listed, the class is the class field of the first one listed |
| Tree.ClassWithoutObject | inspect.go:117-120 | If no walk leads to an *Error, the class is cancelled if and only if some walk leads to the Canceled or the DeadlineExceeded sentinel, and expected otherwise |
| Tree.OpaqueIsALeaf | errx.go:144-147 | An opaque error contributes only itself to every search |
| Inspect.Get | inspect.go:22-28 | Returns the first *Error of the list |
| Inspect.Code | inspect.go:34-57 | Returns the first non-empty code of the list, of an *Error or of a Code method |
| Inspect.HasCode | inspect.go:62-85 | True exactly if some error of the list has this very code |
| Inspect.FindByCode | inspect.go:88-108 | Returns the first *Error of the list with the code |
| Inspect.ClassOf | inspect.go:113-121 | The class field of the nearest *Error, else cancelled exactly if a context sentinel is listed, else expected |
| Inspect.IsRetryable | inspect.go:131-136 | The flag of the nearest *Error, false without one |
| Inspect.RetryAfter | inspect.go:139-144 | The delay of the nearest *Error, 0 without one |
| Errors.Error.Suppress | errx.go:232-239 | Appends every non-nil error in order and changes nothing else |
| Errors.Error.Context | ctx.go:34-55 | A nil context changes nothing. Else ids already set win, then the first non-empty one found; all found fields are appended in order; the cached fingerprint is dropped |
| Errors.MergedIDs | ctx.go:44-49 | The merged id is the one already set, else the first non-empty one extracted, else empty |
| Errors.ExtractedAt | ctx.go:42-49 | The ids considered are those the extractors returned, in their order |
| Errors.FlattenMiddle | ctx.go:50-52 | The fields of every extractor are appended between those of the extractors before and after it |
| Errors.Error.Fingerprint | fingerprint.go:14-32 | Returns the key of the record streamed into the hash, or the cached one, and caches it |
| Errors.KeyHashes | fingerprint.go:14-32 | The key is the cached one, else the hash in hexadecimal of domain, code, and function and line of the first frame, separated by NULs; the captured stack comes before one carried over the wire, and without frames the line is 0 |
| Locale.Localized | errx.go:313-329 | The exact locale, else the first variant of its language in the order the map is visited, else the public message or the fallback |
| Locale.AnswerIs | errx.go:311-329 | The exact locale wins; else the first key met that is the language before the first dash, alone or followed by a dash; else the public message, or the fallback if that is empty |
| Locale.OrderDoesNotMatter | errx.go:311-329 | The answer is the same for every visiting order if and only if the exact locale is there, or there is no dash after the first character, or all variants of the language carry one message |
| Edits.Perform | errx.go:198-244 | The builders, Note, Context, Suppress, Opaque and Fingerprint act on an object as the edits do on its record |
| Edits.EditsKeepCache | errx.go:198-244 | After any sequence of those operations the cached fingerprint is empty or equals recomputation, and domain and code are the last ones set |
| Edits.FingerprintIsIdentity | fingerprint.go:8-13 | Fingerprint depends only on the last domain, the last code, and function and line of the first frame, not on message, fields, causes or order |
| Hashing.WriteAppend | fingerprint.go:21-29 | The hash is a stream: two writes are one write of the concatenation |
| Hashing.XorBits | fingerprint.go:21-29 | The exclusive or of the hash step flips exactly the bits that are set in the byte |
| Hashing.HexReadsBack | fingerprint.go:30 | The hexadecimal key reads back as the hash, in lower case and without a leading zero |
| Hashing.FramingIsInjective | fingerprint.go:21-29 | The hashed bytes determine domain, code, function and line if the strings hold no NUL |
| Hashing.FramingCollidesWithNul | fingerprint.go:21-29 | Another identity hashes the same bytes if and only if some component holds a NUL |
| Hashing.KeyTellsCodes | fingerprint.go:21-30 | Two codes give one key if and only if the hash merges them right after the code is written: function and line neither separate nor merge |
| Hashing.OneByteChangesKey | fingerprint.go:21-30 | Codes that differ in exactly one byte never share a key |
| Suppression.AcyclicAfterSuppress | errx.go:232-239 | Attaching secondary errors keeps the graph acyclic if and only if the object is opaque or not visible from them |
| Suppression.ObjectAfterSuppress | errx.go:144-157 | A transparent object then lists what it listed followed by what the new errors list |
| Suppression.SuppressIsConservative | errdefer.go:37-51 | The old list stays a subsequence, the nearest *Error stays, new errors are visible unless it is opaque, and Code changes exactly if nothing up to it resolved a code and the new errors resolve another |
| Suppression.CodeAfterSuppress | errdefer.go:37-51 | The exact code returned after attaching to a transparent nearest *Error |
| ErrDefer.Join | construct.go:124-146 | Nil, the sole error, or a bundle of the non-nil errors in order |
| ErrDefer.AppendSuppressed | errdefer.go:37-51 | Updates variable and heap as one abstract step; without it: a nil error changes nothing, a nil variable becomes the error itself, a variable over an *Error keeps its value, any other becomes the bundle of both |
| ErrDefer.CloseSuppressing | errdefer.go:58-65 | The same with what Close returned; without a closer or an error nothing changes |
| ErrDefer.StepKeepsSound | errdefer.go:37-51 | A safe call leaves a graph and an error on which the next call may be made |
| ErrDefer.CloseAll | errdefer.go:53-65 | Any number of deferred closers on one variable are one abstract run, and the graph stays sound; if the variable was nil and one closer failed, its error is the result |
| ErrDefer.RunIsConservative | errdefer.go:37-65 | Over any safe run from any start the graph stays acyclic, nothing visible is lost or reordered, and a recorded error stays recorded |
| ErrDefer.FirstErrorIsRecorded | errdefer.go:37-51 | From a nil variable, nil errors change nothing and the first non-nil one becomes the value of the variable |
| ErrDefer.SoleErrorIsResult | errdefer.go:37-65 | If exactly one error of a run from nil is not nil, the result is that error, and no object has changed |
| ErrDefer.RunShowsErrors | errdefer.go:37-65 | Over any safe run from any start, all that is visible from each non-nil error is visible at the end unless it was attached to an opaque object |
| ErrDefer.RunAttachesInOrder | errdefer.go:37-65 | Over a structured error the whole run appends the non-nil errors, in order, to the suppressed list of the nearest *Error |
| ErrDefer.RunKeepsIdentity | errdefer.go:37-65 | After any number of failing closers Code and the nearest *Error are kept and every close error is visible |
| Wrapping.Wrap | construct.go:43-67 | Nil for nil; else a fresh object with the cause, the message, the site and the stack it was given, the identity of the nearest *Error or the default one, and nothing else |
| Wrapping.Note | construct.go:101-119 | A breadcrumb in place on the nearest *Error, dropping its cached key, or on a fresh thin wrapper with the cause, site and stack it was given and nothing else |
| Wrapping.WrapExtendsChain | construct.go:43-67 | Errors built by nested Wrap calls form the chains of the next lemmas, and the graph stays sound |
| Wrapping.EditsKeepChain | errx.go:198-244 | They stay such chains when any object is given fields, breadcrumbs, hints, ids, context data or a cached fingerprint |
| Wrapping.ChainList | construct.go:43-67 | A nest of wraps lists the wrappers outermost first, then the innermost error's list, all with one identity |
| Wrapping.WrapsPreserveCodes | construct.go:57-65 | HasCode for every non-empty code and the retry data are those of the innermost error, at any depth |
| Wrapping.WrapsPreserveClass | inspect.go:113-121 | ClassOf survives wrapping if and only if the innermost error holds an *Error or no context sentinel |
| Wrapping.CodeOfWraps | inspect.go:34-57 | Code of a wrapped error is the inherited code, or what the innermost error resolved if that is empty |
| Wrapping.TextOfWraps | errx.go:126-137 | Error() of nested wraps is the non-empty messages outermost first, then the innermost text, joined by ": " |
| Messages.ErrorString | errx.go:126-137 | Error() on the heap is the text of the graph: cause shown unless opaque |
| Messages.BundleString | construct.go:152-163 | A bundle of one is that error's text, else a count and one line per error |
| Messages.BundleText | construct.go:152-163 | The text of a bundle is that of its only error, else the count line and the texts of all errors in order, joined by a newline, a tab and a dash |
| Projection.Snapshot | report.go:45-86 | The report on the nearest *Error, and only its cached key changes |
| Projection.TraceOf | stack.go:45-61 | The loop collects the wrap sites along the causes, opaque or not (order: the next two rows) |
| Wrapping.TraceOfWraps | stack.go:45-61 | The trace of nested wraps is the list of the sites handed to the Wrap calls, the last call first, then the trace of the innermost error |
| Wrapping.TraceAfterWrap | construct.go:47-55 | What Wrap returns has the stack handed to it, and its trace is the site handed to it followed by the trace its cause had before the call |
| Projection.DocumentedTraceOrder | stack.go:41-44 | The documented order is the reverse; the trace has it if and only if its frames read the same both ways |
| Projection.CausesAlwaysDescend | errx.go:198-244 | In every history of making errors and changing them in place, causes lead to older errors: a return trace is finite even where suppressed errors closed a cycle |
| Projection.LogValue | slog.go:13-51 | The attribute group is that of the object graph, and only the cached key changes |
| Projection.LogSays | slog.go:17-50 | An attribute is in the group exactly if it is one the record calls for: each key with the value that is set, class and severity by name, retry data only if retryable |
| Projection.LogIsOrdered | slog.go:17-50 | Each key occurs at most once, in one fixed order |
| Projection.FieldAttrsAt | slog.go:40-48 | The nested group has every field in its place, with a marker for the value of one that is not safe |
| Projection.RedactAt | report.go:75-81 | Redaction keeps every field in its place and shows no value that is not safe |
| NonInterference.SnapshotIgnoresUnsafeValues | report.go:45-86 | Graphs that differ only in unsafe field values give equal reports |
| NonInterference.LogIgnoresUnsafeValues | slog.go:13-51 | They give equal log groups |
| NonInterference.WireIgnoresUnsafeValues | codec.go:95-99 | They give equal wire values and decode to equal records |
| NonInterference.WireIgnoresUnsafeFields | codec.go:95-99 | The wire value does not even tell whether unsafe fields are there |
| NonInterference.SearchesIgnoreUnsafeValues | errx.go:126-157 | They give equal lists, messages and fingerprints |
| Migration.Registry.RegisterCodeMigration | codec.go:20-24 | Maps the old code to the new one |
| Migration.Registry.MigrateCode | codec.go:26-41 | Equals eight steps of the one-step map on a non-empty code, the empty code on the empty one |
| Migration.ChainSettles | codec.go:32-39 | Without cycles a chain settles within as many steps as there are changing entries |
| Migration.FinalUnlessNineChanges | codec.go:26-41 | A migrated code is final if and only if no chain of nine changes starts at the code |
| Migration.FinalityIsChainFree | codec.go:26-41 | Migration ends on a final code for every code if and only if the table holds no chain of nine changes |
| Migration.IdempotentUnlessNineChanges | codec.go:26-41 | Migrating twice is migrating once for every code if and only if no chain of nine changes ends on a non-empty code that is on no cycle of length 1, 2, 4 or 8 |
| Migration.MigrationIsIdempotent | codec.go:32-39 | In particular with no cycle and at most eight changing entries |
| Codec.MarshalJSON | codec.go:73-107 | The wire value of the object graph (field by field: the next two rows); only the cached key changes |
| Codec.SafeFieldsAreSent | codec.go:95-99 | Each safe field is sent as often as it stands in the record and between what is sent of the fields before and after it, and no field that is not safe is sent |
| Codec.ProjectionsAgree | report.go:45-86 | Snapshot, MarshalJSON and the record agree on identity, owner, ids, key, stack, causes and suppressed errors; the safe fields of the report are those sent; a missing hint or address comes from the documentation of the code, in the report only |
| Codec.Encode | codec.go:111-119 | The nearest *Error's wire value, null for nil, else an envelope with the message, class expected, severity error and nothing else |
| Codec.Decode | codec.go:126-159 | A fresh transparent object with the record the wire value stands for, its code migrated: the stack as decoded frames, the cause and suppressed errors as plain errors with the texts sent, nothing of what is not sent |
| Codec.HopKeepsWire | codec.go:73-159 | Encoding what was decoded gives back every projected wire value, except that the code is migrated |
| Codec.ManyHops | codec.go:73-159 | Any number of hops changes the code only, by migrating it that often |
| Codec.LaterHopsAreIdle | codec.go:73-159 | Hops after the first change nothing if and only if migration is idempotent on the code sent |
| Codec.WireIsProjected | codec.go:73-107 | What is sent has safe fields only, a positive delay or none, and a key |
| Codec.FingerprintSurvives | codec.go:145 | The decoded fingerprint is the sender's; it equals recomputation if and only if the hash merges the two codes |
| Codec.MigratedKeyIsStale | codec.go:145 | So it is current if the code is kept, and stale whenever migration changes exactly one byte of it |
| Codec.TextAfterHop | codec.go:152-157 | Exactly when Error() is the same text after a hop |
| Codec.IdentityAfterHop | codec.go:121-125 | After a hop Code and HasCode know exactly the migrated code of the object sent, and no context sentinel is visible; class, retry flag and any positive delay are the sender's |
| Codec.HasCodeSurvives | codec.go:43-50 | HasCode answers as before the hop, for every code, if and only if the object's code is final and nothing visible carried another |
| Codec.CodeSurvives | codec.go:43-50 | For any error sent, Code answers as before if and only if the migrated code of the object is the one an outer error had resolved, or without such the object's own, or there was no code at all |
| Codec.SuppressedCodeIsLost | codec.go:43-50 | The code of a suppressed error under an object without one is lost |
| Codec.OuterCodeIsLost | codec.go:43-50 | The code of a foreign error around an object with another is replaced by the object's |
| Codec.EnvelopeKeepsText | codec.go:111-119 | The text of an error that holds no *Error survives a hop |
| Codec.EnvelopeAfterHop | codec.go:111-119 | For such an error Code survives if and only if nothing visible had a code, HasCode if and only if exactly the empty code was carried, ClassOf if and only if no context sentinel was visible |
| Directive.ParseKV | cmd/errxgen/main.go:144-178 | On every string the scanner stays in bounds, terminates, and stores the pairs of the text in order |
| Directive.LastPairWins | cmd/errxgen/main.go:175 | The map holds exactly the keys read, each with its last value |
| Directive.PairReads | cmd/errxgen/main.go:147-176 | What stands before the first = is the key, without white space around it; a quoted value ends at the next quote or with the text, a bare one at the next space; without a = nothing is read |
| Directive.ParsePrint | cmd/errxgen/main.go:143-178 | Printing pairs, bare or quoted, and reading them back is the identity |
| Directive.ParsedListsArePrintable | cmd/errxgen/main.go:143-178 | A list of pairs is the reading of some text if and only if each pair is printable; printing what was read and reading again changes nothing |
| Directive.ParseDirective | cmd/errxgen/main.go:114-141 | The first comment line with the directive decides |
| Directive.FirstDirectiveDecides | cmd/errxgen/main.go:115-140 | Lines without the directive are passed over, the first line that has it, after its marker and any white space, decides alone, and without one there is no specification |
| Directive.FillSpec | cmd/errxgen/main.go:120-137 | For every order in which the map is visited: code and unwrap are the values of their keys or empty, the message is its value or the type name if that is empty, the arguments are the parts between the commas of a non-empty value |
| Directive.PrintedDirective | cmd/errxgen/main.go:114-141 | A printed directive, with any list of printable pairs, is read as the specification of its pairs, a last bare value without the white space it ends in; so of exactly these pairs if and only if the printed text does not end in white space |
| Directive.ArgsComeBack | cmd/errxgen/main.go:125-128 | A list of arguments comes back from the string it is written as if and only if none holds a comma and it is not a single empty one |
| Diag.IndexLines | diag/diag.go:156-165 | The lines of the text and the start of each |
| Diag.LineIsAtStart | diag/diag.go:156-165 | Each line sits at its start in the text, followed by a newline unless it is the last |
| Diag.StartsIncrease | diag/diag.go:156-165 | Starts increase strictly, by at least the line and its newline |
| Diag.Locate | diag/diag.go:168-181 | The loop finds the line and column of the offset, -1 before the text |
| Diag.LocateInvertsIndex | diag/diag.go:156-181 | Every offset of the text has exactly one line and column, and the line is the number of newlines before it |
| Diag.PositionIs | diag/diag.go:168-181 | An offset is charged to the line around it: numbered by the newlines before the line, its column the distance from the line's start |
| Diag.EveryOffsetIsOnALine | diag/diag.go:156-181 | Every text has such a line for every offset that is not negative |
| Diag.PastTheEnd | diag/diag.go:168-181 | An offset past the end lands on the last line, right of its text |
| Diag.Graphical | diag/diag.go:97-123 | The source part of the graphical report: nothing without source or labels, else the heading with the name or a default, the blocks of the labels and the closing rule |
| Diag.BlockIs | diag/diag.go:101-121 | What is printed for a label, told from the text alone: a rule as wide as the line number, the numbered line, and in the label's column as many carets as it is long, cut at the end of the line but at least one, with its message; nothing for a label before the text |
| Diag.BlocksMiddle | diag/diag.go:101-121 | The block of each label is printed between those of the labels before and after it |
| Diag.MaxLabelLine | diag/diag.go:183-191 | At least 1 and at least every label's line number, and 1 or one of them |
| Diag.ClosingRuleFits | diag/diag.go:122 | The rule that closes the section is at least as wide as every label's gutter |
| Diag.Narrate | diag/diag.go:139-147 | The position sentences of the narrated report |
| Diag.SentenceIs | diag/diag.go:141-146 | The sentence for a label, told from the text alone; a label before the text is put in line 0, column 1 |
| Diag.SentencesMiddle | diag/diag.go:141-146 | The sentence of each label stands between those of the labels before and after it |
| Diag.CaretsCoverSpan | diag/diag.go:111-121 | At least one caret; carets cover exactly the span's bytes on its line if and only if the span is non-empty and starts before the line's end |
| Diag.BytesAreAligned | diag/diag.go:107-121 | Each byte is printed in the column in which its caret is drawn |
| Accumulation.Accumulator.Add | accumulate.go:32-39 | Appends a failure with its path; nothing for nil |
| Accumulation.Accumulator.ErrorOrNil | accumulate.go:54-76 | Nil exactly if nothing was collected, else one fresh VALIDATION error of class expected and severity error whose suppressed errors and safe fields match the entries index by index, and which has nothing else but its message and stack |
| Accumulation.Accumulate | accumulate.go:81-87 | Nil exactly if no function failed, else one fresh error whose suppressed errors and fields are all failures, in order |
| Accumulation.StepKeepsInv | accumulate.go:90-102 | Every step of every goroutine keeps: exactly the due failures are collected, and the wait counter is exact |
| Accumulation.ReturnsAllFailures | accumulate.go:90-102 | In every interleaving the collected failures are, as a multiset, all non-nil results when ParAccumulate returns |
| Accumulation.ParAccumulate | accumulate.go:90-102 | Under any interleaving that returns: nil exactly if nothing failed, else one fresh error that lists the failures in the order collected, each as often as it was returned |
| Accumulation.NeverStuck | accumulate.go:90-102 | Before the return some step is enabled, and every step brings the return closer |
| FanOut.Registry.Add | report.go:108-113 | Appends the sink and never touches the elements an older slice can see |
| FanOut.Interleave | report.go:117-130 | Whatever Adds interleave, a Report emits to exactly the sinks registered when it read the slice, in order |
| Otel.AppendInt | contrib/otel/otel.go:87-99 | Appends the numeral of n to an untouched prefix, nothing for a negative n; the index stays inside the 20-byte buffer |
| Otel.DigitsReadBack | contrib/otel/otel.go:87-99 | The numeral reads back as n and has no leading zero |
| Otel.StackString | contrib/otel/otel.go:74-85 | The text of all frames (each: function, newline, tab, file, colon, line, newline) |
| Otel.StackTextIsInjective | contrib/otel/otel.go:74-85 | For names without a newline two lists have one text if and only if they agree frame by frame, all negative line numbers being alike |

## Left out

- Foreign errors with their own As or Is methods, and a nil *Error stored in an error interface: not modelled.
- Foreign errors whose message changes with their children: a foreign message is fixed.
- JSON text, duration text and symbolization: a wire value is assumed to come back as sent, and stacks are lists of frames.
- The Go scheduler and memory model: a run of the limiter is a list of calls in lock order, a run of ParAccumulate a list of atomic steps.
- Sampler.SampledSink.Emit: the inner sink is one that records what it gets and reads; what it returns, and a limiter inside a limiter, are not modelled.
- FanOut.Registry.Add: sinks are identities there (`Delivery` has their effects); errors returned by a sink's Emit and OnSinkError are not modelled.
- Otel.StackTextIsInjective: says nothing about frames whose names hold a newline.
- The severity word, the head line, help and documentation lines, and colour of the diagnostics: only the source part is modelled.
- Sources and labels attached to an error (WithSource, WithLabel): parameters of the diagnostics here.
- Newf, Wrapf, Recover, OnError, OnSuccess, the Format verbs: one-branch or formatting code.
- Go syntax trees, file output and the generated text of errxgen.
- The contrib adapters other than the stack text, the result and errtest packages: field copying, tables and helpers.
