# A Dafny model of nvim-dbee's core

The project models the parts of nvim-dbee where several pieces of code have to
agree, and proves that they do.

**Oracle bind rewriter.** A hand-written lexer finds the code of a statement, a
scan finds cursor markers, and a transform replaces bind names by names the
driver accepts and strips the markers. A table keeps the names in step, a planner
matches placeholders with arguments, a cheap flag scan avoids the work, and error
texts are turned back. `SqlLexer`, `LexerReference`, `BindTokens`,
`CursorMarkers`, `BindTransform`, `BindNames`, `NameMap` and `Ordering` hold the
code, `NamesDecoded` reads driver names back, `ByteTables` spells the byte classes
out; `Lookahead`, `Relex`, `RelexQuery`, `QueryMeaning` and `RewriteExact` show
when the rewritten query reads as the driver should read it; `FastPath` and
`FastPathExact` are about the flag scan, `RewritePlan` about the plan, and
`ReverseNames`, `BareTemplates`, `PhraseSearch`, `PhrasesRestored`,
`NamesRestored`, `QueryRestored` and `MarksReversed` about the way back.

**Calls.** `CallMachine` is a step relation over the executor, the event handler,
any number of cancellers and any number of GetResult callers. `CallProtocol`,
`CallProgress`, `CallOutcome`, `CancelEffect`, `FillOnce` and `RefillExact` prove
what holds in every run.
`CallObject`, `ResultCache`, `RowPipe` and `Archive` hold the objects: the handler,
the row cache with its readers, the channel pipe behind an iterator, and the
archive.

**Oracle session gate.** `SessionGate` is the mutex that a statement takes and
that a stream may keep until it is closed; `GateProgress` shows that every run
of unfinished statements ends, `GateStreams` which of them leave a stream.

**Oracle wallets.** `WalletQuery` is the connection URL's query string (escaping
of section 2.1 of RFC 3986, with `+` for a space). `WalletCache` is the directory
of extracted wallets that processes share, `CacheProgress` shows that its runs end,
`WalletStore` is the code of one process, and `WalletSolo` shows that a process
that is alone does just that.

**Two translators.** `SchemaFilter` compares a filter as SQL text (`SqlCondition`,
read back by `SqlText`) with the same filter in the client (`GlobPattern`; LIKE is
that of section 8.5 of ISO/IEC 9075:1992, without an escape character).
`RedisCommand` is the command tokenizer.

Index loops and objects are methods and classes, each proved against functions on
the suffix of the text or on the state. Goroutines and processes are step
relations; a theorem about them quantifies over every list of steps. The rewrite
of binds is stated on segments (code runs and skipped texts) and on tokens inside
a run, because no pass looks past the end of its region.

A byte string of the source is a `string` whose characters stand for bytes; the
theorems hold for all characters, so for all bytes. Cursor parameters and options
are compared after `Upper` and `Trim`, which are the ASCII forms; that covers all
names that pass validation.

Where the code falls short of what its design suggests, the code is modelled as it
is, and an if-and-only-if says when it happens:

- the fast path can let a bind through (`FastPathMissesBind`): it is right exactly
  when what it took for comments hides no code that matters (`FastPathIsExact`);
- dropping a marker can join a bind to what follows (`MarkerJoinsBind`,
  `MeaningKeptExactly`, and `RewriteReadsBack` with leftover marks counted);
- a cursor comment directly followed by `*` lexes differently from a token-wise
  reading (`ClosingSlashOpensComment`, `ScannerMeetsReference`);
- a phrase in an error text can be passed over when a key ends the way the phrase
  begins (`PhraseIsPassedOver`, `FindsAllExactly`);
- a GetResult that looked before the fill can fill a live result again
  (`LiveCallFillsTwice`, `RefillExactly`);
- a page with a non-negative start and a negative end can cross its bounds
  (`MixedBounds`);
- a row source that fails can lose rows it had sent, and its consumer is never
  told (`FailureDropsRows`, `DeliveredWholeExactly`, `ErrorNeverSeen`);
- a damaged archive file ends a restored result early, readable rows in front of
  it can be lost too, and no error is reported (`DamageLosesRow`,
  `RestoredWholeExactly`);
- an error text need not give back the query, with markers or without
  (`ReverseUndoesRewrite`, `ReverseGivesStripped`);
- two bind names can share a driver name when a sentinel overlaps a seam
  (`EncodeIsNotInjective`, `DecodesExactly`);
- server and client filters differ about schemas with new lines
  (`NewlineTellsThemApart`) and about schemas that the fold changes
  (`FoldTellsThemApart`, `AgreementIsExact`).

`dafny verify dfyconfig.toml` checks everything.

## Model

| member | source | states |
|---|---|---|
| BindNames.EncodedIsValidDriver | dbee/adapters/oracle_bind_rewrite.go:115-143 | a name that passes the user check also passes the driver check once encoded, given that no reserved word holds a sentinel |
| BindNames.RewriteName | dbee/adapters/oracle_bind_rewrite.go:115-143 | succeeds exactly on valid user names and then returns the encoding and whether it changed the name; `DecodesExactly` and `EncodesWhatItReads` say what the encoding is |
| BindNames.EncodeIsNotInjective | dbee/adapters/oracle_bind_rewrite.go:115-143 | two different valid names share one driver name, so the encoding alone cannot be undone |
| NamesDecoded.DecodesExactly | dbee/adapters/oracle_bind_rewrite.go:115-143 | reading `_x24_` as `$` and `_x23_` as `#` gives a name back from its encoding if and only if nowhere in it `_x24` or `_x23` stands in front of an underscore, a `$` or a `#` |
| NamesDecoded.ValidReadable | dbee/adapters/oracle_bind_rewrite.go:54-75 | for names that users may write only the `$` and `#` are left to avoid there; `a_x24$` is such a name |
| NamesDecoded.EncodesWhatItReads | dbee/adapters/oracle_bind_rewrite.go:115-143 | conversely every text without `$` and `#` is the encoding of what is read from it |
| NamesDecoded.CollideExactly | dbee/adapters/oracle_bind_rewrite.go:160-186 | names without such overlaps, in any letter case, collide if and only if they differ in case only |
| NamesDecoded.MarksKeepApart | dbee/adapters/oracle_bind_rewrite.go:160-186 | names that differ only in `$` against `#` never collide |
| BindNames.ValidityIgnoresCase | dbee/adapters/oracle_bind_rewrite.go:54-75 | two names that differ in case only are both valid or both not |
| BindNames.EncodeChanged | dbee/adapters/oracle_bind_rewrite.go:54-75 | every changed name carries a sentinel, which no user name may contain |
| BindNames.SafeSuggestion | dbee/adapters/oracle_bind_rewrite.go:77-113 | the loop builds the suggestion, which is a valid user name for every input, given that no reserved word starts with `P_` |
| BindNames.SuggestionKeeps | dbee/adapters/oracle_bind_rewrite.go:77-113 | a name of good bytes without outer underscores is its own suggestion, or gets the prefix `p_` when it is reserved or does not start like a name |
| BindNames.StrayByteIsUnderscore | dbee/adapters/oracle_bind_rewrite.go:77-113 | behind the first byte, a byte that names may not hold counts as an underscore |
| BindNames.UnderscoresGo | dbee/adapters/oracle_bind_rewrite.go:77-113 | outer underscores make no difference to the suggestion |
| ByteTables.NameClasses | dbee/adapters/oracle_bind_rewrite.go:1017-1057 | the byte classes of names, spelled out byte by byte |
| ByteTables.SpaceClasses | dbee/adapters/oracle_bind_rewrite.go:1047-1061 | the same for white space and for the wide names in front of a marker |
| ByteTables.LetterCases | dbee/adapters/oracle_bind_rewrite.go:1063-1077 | capital and small letters pair up, and no other byte is changed by folding |
| NameMap.RewriteMap.AddName | dbee/adapters/oracle_bind_rewrite.go:160-186 | succeeds exactly when the name is valid and collides with no registered name, ignoring case; the table stays consistent, and is unchanged on failure |
| NameMap.RewriteMap.Finalize | dbee/adapters/oracle_bind_rewrite.go:188-203 | the key list is sorted longest first and holds exactly the changed driver names |
| NameMap.NamesAreInverse | dbee/adapters/oracle_bind_rewrite.go:160-186 | in every table so built, distinct users have distinct drivers, the two lookups are inverse, and the reverse table holds exactly the changed names |
| NameMap.AddAllMeaning | dbee/adapters/oracle_bind_rewrite.go:160-186 | a list of names can be added exactly when all are valid and no two collide, in whatever order; the table then holds just those names |
| Ordering.SortedUnique | dbee/adapters/oracle_bind_rewrite.go:188-203 | a set of names has one sorted listing, so map iteration order leaves no trace |
| Ordering.LexLessIs | dbee/adapters/oracle_bind_rewrite.go:384-395 | names sort by the first byte in which they differ, and in front of their continuations |
| Ordering.LongerFirst | dbee/adapters/oracle_bind_rewrite.go:188-203 | in the key list a name stands behind all names that continue it |
| SqlLexer.SkipQuoted | dbee/adapters/oracle_bind_rewrite.go:611-639 | the index loop ends behind the closing quote, doubled quotes being content |
| SqlLexer.SkipQQuote | dbee/adapters/oracle_bind_rewrite.go:641-669 | q-quotes: bracket pairing, refused delimiters, inner quotes and missing ends |
| SqlLexer.ScanCursorComment | dbee/adapters/oracle_bind_rewrite.go:671-692 | finds exactly the cursor comments, in any letter case and with white space inside |
| SqlLexer.ScanCodeRegions | dbee/adapters/oracle_bind_rewrite.go:397-474 | the scanner's loop lists the maximal code runs described by the look-ahead functions, or the first quoting error |
| SqlLexer.RegionsOrdered | dbee/adapters/oracle_bind_rewrite.go:397-474 | the regions are non-empty, in order, disjoint and inside the query |
| LexerReference.ScannerMeetsReference | dbee/adapters/oracle_bind_rewrite.go:397-474 | whenever the scan or a token-by-token reference lexer succeeds, the regions are the reference's if and only if no cursor comment's closing slash opens another comment; without such a comment they always agree |
| LexerReference.ClosingSlashOpensComment | dbee/adapters/oracle_bind_rewrite.go:425-449 | a query on which the two differ |
| LexerReference.QuotedTokenLexes | dbee/adapters/oracle_bind_rewrite.go:611-639 | any text, quoted with its quotes doubled, is one skipped token and reads back as the text |
| LexerReference.QuotedTokenShape | dbee/adapters/oracle_bind_rewrite.go:611-639 | conversely every skipped quoted token is such a text, or runs to the end of the query |
| LexerReference.LineCommentLexes | dbee/adapters/oracle_bind_rewrite.go:414-424 | a line comment is skipped up to its new line |
| LexerReference.BlockCommentLexes | dbee/adapters/oracle_bind_rewrite.go:425-449 | a block comment is skipped up to its first end mark |
| LexerReference.OpenBlockCommentLexes | dbee/adapters/oracle_bind_rewrite.go:425-449 | a block comment without an end mark reaches to the end of the query |
| LexerReference.QLiteralLexes | dbee/adapters/oracle_bind_rewrite.go:641-669 | a q-quote whose body holds no quote is one skipped token |
| LexerReference.BracketsClose | dbee/adapters/oracle_bind_rewrite.go:641-669 | `q'(`..`)'`, `q'{`..`}'`, `q'[`..`]'` and `q'<`..`>'` around any text without a quote are each one skipped token |
| LexerReference.OthersCloseThemselves | dbee/adapters/oracle_bind_rewrite.go:641-669 | every other accepted delimiter closes itself |
| LexerReference.CursorCommentIsCode | dbee/adapters/oracle_bind_rewrite.go:671-692 | a cursor comment in any letter case, with any white space around the word, is recognised and is code |
| LexerReference.QQuoteMeaning | dbee/adapters/oracle_bind_rewrite.go:641-669 | every q-quote: what is skipped, and exactly when the delimiter is refused, a quote stands inside, or the end is missing |
| BindTokens.RenderTokens | dbee/adapters/oracle_bind_rewrite.go:476-552 | splitting a code run into binds, markers and plain bytes loses nothing |
| BindTokens.MarkedBindIsToken | dbee/adapters/oracle_bind_rewrite.go:554-593 | a bind, any white space and `/*CURSOR*/` are one token with that name and that mark, whatever follows |
| BindTokens.MarkerIsScanned | dbee/adapters/oracle_bind_rewrite.go:554-593 | a name in front of a cursor marker, even an empty one, is scanned as a marker when it is valid and reported when it is not |
| BindTokens.BadAreMarked | dbee/adapters/oracle_bind_rewrite.go:554-593 | every name reported as bad stands between a colon and a cursor marker and is no valid name |
| BindTokens.MarkersAreTokens | dbee/adapters/oracle_bind_rewrite.go:554-593 | when no marker has an invalid name, the marker scan and the bind scan agree on every marker |
| CursorMarkers.ScanCursorMarkers | dbee/adapters/oracle_bind_rewrite.go:554-593 | returns the markers of all regions, which are the marks of the binds, or all names that are invalid in front of a marker |
| BindTransform.TransformBinds | dbee/adapters/oracle_bind_rewrite.go:476-552 | fails exactly on a bad bind start or a name that cannot be registered, and then names something that stands behind a colon of the code; else returns the rewritten text, the names referenced and the extended table |
| QueryMeaning.TransformMeaning | dbee/adapters/oracle_bind_rewrite.go:476-552 | the text that the region loop writes is the query with each code run rewritten and all other segments kept |
| RelexQuery.SegmentsStable | dbee/adapters/oracle_bind_rewrite.go:476-552 | lexing the rewritten query gives the same literals, comments and runs in order if and only if no dropped marker lets a bind run into a quote |
| Relex.RunReadsBack | dbee/adapters/oracle_bind_rewrite.go:476-552 | inside a run the rewritten binds read back as the driver's binds if and only if what follows each dropped marker neither extends the name nor forms a marker |
| Relex.MarkerJoinsBind | dbee/adapters/oracle_bind_rewrite.go:495-506 | a dropped marker in front of a name byte: the bind swallows the byte |
| QueryMeaning.RewriteReadsBack | dbee/adapters/oracle_bind_rewrite.go:476-552 | both together, for whole queries: meaning is preserved exactly under those conditions |
| QueryMeaning.RewriteKeepsMeaning | dbee/adapters/oracle_bind_rewrite.go:476-552 | when each marker is followed by white space, `,`, `)`, `;` or the end, the literals and comments are the same and the binds are the query's binds, name by name |
| RewriteExact.MeaningKeptExactly | dbee/adapters/oracle_bind_rewrite.go:476-552 | for every query: literals and comments stay and the binds are the query's binds name by name if and only if no name byte stands behind a dropped marker and no bind runs into a quote |
| RewriteExact.RunKeepsNames | dbee/adapters/oracle_bind_rewrite.go:476-552 | the same for the binds of one code run |
| RewriteExact.GluedDiffers | dbee/adapters/oracle_bind_rewrite.go:476-552 | a bind that runs into a quote always changes the literals |
| RewriteExact.GuardedIsSpaced | dbee/adapters/oracle_bind_rewrite.go:495-506 | separators behind the markers are enough |
| FastPath.ScanRewriteFlags | dbee/adapters/oracle_bind_rewrite.go:907-944 | the flag scan computes the flags of its reading of comments, cursor words and sentinels |
| FastPath.FastPathRefinesFullScan | dbee/adapters/oracle_bind_rewrite.go:216-230 | a sufficient condition that shows in the segments: no comment mark opens inside a quoted token or line comment; then the full scan of a query that is let through succeeds, finds nothing and changes nothing |
| FastPath.FastPathMissesBind | dbee/adapters/oracle_bind_rewrite.go:907-936 | the query `'/*':x` is let through although it has a bind |
| FastPathExact.FastPathIsExact | dbee/adapters/oracle_bind_rewrite.go:216-230 | for every query that is let through, the full scan succeeds, finds nothing and changes nothing if and only if no stretch that the flag scan took for a comment covers code with a bind, a rejected bind, a marked name or a broken q-quote |
| FastPathExact.QuietExactly | dbee/adapters/oracle_bind_rewrite.go:907-944 | a query is let through if and only if no position at which the flag scan stops holds `$`, `#`, a colon in front of anything but `=`, a q-quote, a sentinel or a comment with the cursor word |
| FastPathExact.VisitedIsHarmless | dbee/adapters/oracle_bind_rewrite.go:907-936 | at no position where the flag scan of such a query stops could the full scan find anything |
| FastPathExact.FastPathMissesExactly | dbee/adapters/oracle_bind_rewrite.go:907-936 | such a query has a bind if and only if one is hidden in that way |
| FastPathExact.AlignedHidesNothing | dbee/adapters/oracle_bind_rewrite.go:907-936 | the sufficient condition implies the exact one |
| RewritePlan.FilterCursorBinds | dbee/adapters/oracle_refcursor.go:25-43 | drops exactly the options that a cursor parameter names, ignoring case and outer white space, and keeps the values of the others |
| RewritePlan.FoldIs | dbee/adapters/oracle_refcursor.go:25-43 | white space around a name and its case are what the comparison ignores |
| RewritePlan.ValuesReachArguments | dbee/adapters/oracle_bind_rewrite.go:263-348 | when options and placeholders balance, every placeholder that no cursor parameter names comes with the value of its own option, and no other argument is there |
| RewritePlan.NamedArgs | dbee/adapters/oracle_bind_rewrite.go:362-395 | the arguments are the encoded names with their values in sorted order; on failure the result lists, in that order, the names that could not be added to what the table held by then |
| RewritePlan.Plan.BuildBindArgs | dbee/adapters/oracle_bind_rewrite.go:263-302 | registers options and cursor parameters, fills both argument lists, and lines cursor names up with cursor parameters |
| RewritePlan.Plan.ReconcileBindRefs | dbee/adapters/oracle_bind_rewrite.go:304-348 | succeeds exactly when options and placeholders balance; otherwise lists what is missing and what is extra, each sorted |
| RewritePlan.ArgumentsCoverPlaceholders | dbee/adapters/oracle_bind_rewrite.go:263-348 | then arguments and cursors carry exactly the driver names of the placeholders, with no overlap, and the argument names differ in more than case |
| RewritePlan.Transform | dbee/adapters/oracle_bind_rewrite.go:229-252 | scan, markers and rewrite: succeeds exactly when the query scans and its markers, starts and names are acceptable, and then registers exactly the placeholders |
| RewritePlan.Prepare | dbee/adapters/oracle_bind_rewrite.go:209-261 | succeeds exactly on plannable queries; every plan handed out is complete and carries the values of the options, in the cursor arguments as well; every error says truly what is wrong: quotes, markers, a bind, the options, or the sorted names that are missing and extra |
| RewritePlan.PlaceholdersReachDriver | dbee/adapters/oracle_bind_rewrite.go:209-261 | under the exact guard of `MeaningKeptExactly`, the placeholders read from the rewritten text are the encoded placeholders of the query |
| RewritePlan.BindsGoThroughTable | dbee/adapters/oracle_bind_rewrite.go:476-552 | under that guard the binds read from the rewritten text are, in order, the query's binds looked up in the table |
| RewritePlan.FastPlanIsExact | dbee/adapters/oracle_bind_rewrite.go:216-230 | a query let through by the fast path holds no placeholder if and only if none is hidden in what was taken for a comment |
| RewritePlan.FastPlanHasNoPlaceholder | dbee/adapters/oracle_bind_rewrite.go:216-230 | in particular under the sufficient condition |
| RewritePlan.FastPlanCanMissPlaceholder | dbee/adapters/oracle_bind_rewrite.go:216-230 | a plan that leaves a placeholder unbound |
| ReverseNames.ReverseAfterColons | dbee/adapters/oracle_bind_rewrite.go:765-798 | the colon pass over any listing of the keys computes one function of the table, so the order of the keys does not matter |
| NamesRestored.ColonsReversed | dbee/adapters/oracle_bind_rewrite.go:765-798 | the colon pass undoes the rewrite if and only if no skipped text holds a changed driver name after a colon and no changed bind runs into a q-quote (unless the longer name is registered too) |
| BareTemplates.ReplaceBare | dbee/adapters/oracle_bind_rewrite.go:800-879 | the three phrase searches, the sort and the replacement loop compute one function of the message and the table, whatever the order of the keys |
| BareTemplates.Apply | dbee/adapters/oracle_bind_rewrite.go:857-878 | the replacement loop writes the replacements from left to right, passing over those inside an earlier one |
| BareTemplates.HitsAreQuoted | dbee/adapters/oracle_bind_rewrite.go:809-848 | every replaced name is a whole driver name inside a genuine phrase |
| BareTemplates.PhraseIsFound | dbee/adapters/oracle_bind_rewrite.go:809-848 | a genuine phrase is found if and only if no place at which the search stops overlaps its start |
| PhraseSearch.FindsAllExactly | dbee/adapters/oracle_bind_rewrite.go:809-848 | the search finds every genuine phrase for a key, in every text, if and only if the key does not end in the way the phrase begins; the quoted phrase is safe for every key |
| PhraseSearch.AllPhrasesFound | dbee/adapters/oracle_bind_rewrite.go:809-848 | with such keys the names replaced are just those in genuine phrases |
| PhrasesRestored.PhrasesNameTheUser | dbee/adapters/oracle_bind_rewrite.go:800-879 | the texts `parameter X is not defined`, `bind X invalid` and `parameter "X" not found` are shown with the user's name in place of the driver's |
| PhraseSearch.PhraseIsPassedOver | dbee/adapters/oracle_bind_rewrite.go:809-835 | a text in which a genuine phrase is passed over |
| BareTemplates.NoPhraseNoHits | dbee/adapters/oracle_bind_rewrite.go:849-851 | a text without such phrases passes the first pass unchanged |
| BareTemplates.ReverseDriverNames | dbee/adapters/oracle_bind_rewrite.go:765-798 | both passes in sequence, for any listing of the keys |
| MarksReversed.AloneIsBack | dbee/adapters/oracle_bind_rewrite.go:765-798 | a bind behind which no name byte comes to stand always comes back |
| MarksReversed.NameBackMeaning | dbee/adapters/oracle_bind_rewrite.go:765-798 | the driver name of a bind with name bytes joined to it gives back name and bytes: for an unchanged name, unless the longer word is a driver name; for a changed one, only if the longer word is the driver name of the longer bind |
| MarksReversed.ColonsGiveStripped | dbee/adapters/oracle_bind_rewrite.go:765-798 | the colon pass gives the query without its markers if and only if no skipped text holds a changed driver name after a colon and every bind comes back together with the name bytes that come to stand behind it |
| MarksReversed.ReverseGivesStripped | dbee/adapters/oracle_bind_rewrite.go:765-798 | the same for the error text of every accepted query, markers or not, whose rewritten text has none of the phrases |
| QueryRestored.TransformRegisters | dbee/adapters/oracle_bind_rewrite.go:476-552 | what the transform accepted is what the reverse theorem asks for |
| QueryRestored.ReverseUndoesRewrite | dbee/adapters/oracle_bind_rewrite.go:765-798 | for an accepted query without markers and a rewritten text without the phrases, the error text restores the query if and only if the two conditions hold |
| CallProtocol.MoveKeeps | dbee/core/call.go:143-250 | every step of executor, handler, cancellers and readers keeps the protocol invariant |
| CallProtocol.CallbacksInOrder | dbee/core/call.go:169-250 | in every interleaving the callbacks are Executing, at most one Retrieving, at most one terminal state; once the handler has left, exactly one terminal state, which the call keeps |
| CallProtocol.QueueHasRoom | dbee/core/call.go:143-164 | at most four events are ever sent, so the ten-slot queue never fills |
| CallProtocol.SendsNeverBlock | dbee/core/call.go:143-164 | a send of the executor neither blocks nor is dropped, the Retrieving event included |
| CallProtocol.DeliveredIsValid | dbee/core/call.go:172-185 | whatever prefix of sendable events is delivered, the callbacks are valid, and complete once Canceled or the last event is among them |
| CallProtocol.CancellerFrame | dbee/core/call.go:167-173 | the body of cancel runs once, and only after the call was seen running |
| CancelEffect.CancelTakesEffect | dbee/core/call.go:328-342 | in every run, when a canceller that found the call executing or retrieving has left, Canceled has been sent exactly once or the call is done |
| CancelEffect.OnlyLookersCancel | dbee/core/call.go:328-342 | and only a canceller that found it so ever sends Canceled |
| CancelEffect.DoneSilencesCancels | dbee/core/call.go:143-173 | once the done flag is set nothing more is sent, except by a canceller that was already at its send |
| CancelEffect.FirstTerminalIsLast | dbee/core/call.go:177-206 | in every run that the handler has left, the callbacks are the events sent up to the first terminal one, and its state is the call's |
| CancelEffect.CancelSends | dbee/core/call.go:167-173 | from every such state a canceller gets Canceled sent by its own steps alone, the once being fresh and the call not done |
| CancelEffect.CancelCanWin | dbee/core/call.go:167-173 | there is a run to the end in which Canceled is the last callback, unless another terminal event was sent before it |
| CancelEffect.ServedCancelsOnce | dbee/core/call.go:167-173 | a canceller inside the once before the done flag is set, whose select takes the send, has Canceled sent exactly once, whatever the others do |
| CallProgress.MoveDescends | dbee/core/call.go:143-250 | every step uses up part of a finite rank |
| CallProgress.NeverStuck | dbee/core/call.go:143-250 | until executor, handler, cancellers and readers have all finished, one of them can move |
| CallProgress.EveryCallEnds | dbee/core/call.go:143-250 | every run has bounded length, and a run that cannot go on has everybody finished and one terminal callback, the last |
| CallOutcome.OutcomeIsReported | dbee/core/call.go:212-285 | the executor's events and the error it keeps follow from how executing, retrieving and archiving went, and without a cancellation they are what is reported |
| CallObject.LiveCall.EmitEvent | dbee/core/call.go:144-164 | queues the event unless the call is done or the queue is full, also when the call is marked done between the check and the send and the select may pick either case |
| CallObject.LiveCall.ProcessState | dbee/core/call.go:177-191 | ignores events behind a terminal state; stores and reports all others |
| CallObject.LiveCall.DrainEvents | dbee/core/call.go:197-206 | empties the queue, and ends in a terminal state when the executor's events are complete |
| CallObject.LiveCall.MarkDone | dbee/core/call.go:279-284 | the call is marked done for senders and for the handler |
| FillOnce.FilledWhenVisible | dbee/core/call.go:229-249 | in every run of a live call, whenever Retrieving, RetrievingFailed, Archived or ArchiveFailed can be seen, the executor has filled the result |
| FillOnce.LiveCallFills | dbee/core/call.go:344-374 | a live result is filled by the executor first and at most once more |
| FillOnce.LateReaderNeverFills | dbee/core/call.go:344-374 | after the fill, a GetResult that is not already past its emptiness check never fills again |
| RefillExact.RefillExactly | dbee/core/call.go:344-374 | in every run, a live call that was filled once stays filled once in all continuations if and only if no GetResult is past its emptiness check, or the call can no longer come to be archived |
| RefillExact.ArchivingRun | dbee/core/call.go:212-249 | unless it failed or was canceled first, a filled call comes to be archived in some run in which the readers stand still |
| FillOnce.LiveCallFillsTwice | dbee/core/call.go:344-374 | a concrete run in which a live call is filled twice |
| FillOnce.RestoredFillsOnce | dbee/core/call.go:87-124 | a restored call keeps its state and error in every run, reports nothing, and is filled at most once and only if it was archived and its archive exists |
| FillOnce.RestoredIsServed | dbee/core/call.go:344-374 | and if so, whoever asks first can be served from it |
| CallOutcome.VisibleResultIsServed | dbee/core/call.go:344-374 | a GetResult that starts when Retrieving or a state behind it can be seen is never refused |
| CallOutcome.LoaderIsTold | dbee/core/call.go:344-374 | a GetResult that loads the archive is served if and only if loading and filling go well |
| ResultCache.Result.SetIter | dbee/core/result.go:27-76 | the cache ends drained, with the rows in front of the first failure, and reports the failure |
| ResultCache.Result.Wipe | dbee/core/result.go:78-92 | the cache is as new |
| ResultCache.Result.GetRows | dbee/core/result.go:156-225 | one look of a reader: the page, the reason for none, or the case in which the slice bounds cross |
| ResultCache.OrderedBounds | dbee/core/result.go:190-225 | ordered bounds of one sign always give an ordered range inside the rows |
| ResultCache.MixedBounds | dbee/core/result.go:190-225 | exactly when a non-negative start with a negative end makes the slice bounds cross |
| ResultCache.RefusedExactly | dbee/core/result.go:156-175 | a range is refused if and only if its bounds would cross for some number of rows, except that a non-negative start with a negative end is never refused |
| ResultCache.BoundsFromEnd | dbee/core/result.go:203-216 | negative bounds count from the end of the rows |
| ResultCache.PageIsFinal | dbee/core/result.go:156-225 | whatever page a reader is given during a fill is the page of the final rows, for all bounds and all moments of looking and copying |
| ResultCache.ServedExactly | dbee/core/result.go:156-225 | for 0 <= from <= to a reader waits exactly while fewer than `to` rows have arrived and the fill goes on, is sent away exactly when the fill has failed, and else is served |
| ResultCache.PageIsSlice | dbee/core/result.go:156-225 | for 0 <= from <= to it is that slice of the final rows |
| ResultCache.FillEnds | dbee/core/result.go:27-76 | the fill ends drained with the rows in front of the first failure, after which no reader waits |
| Archive.AnyOrderWritesSame | dbee/core/call_archive.go:109-145 | the concurrent chunk writers leave the same files in whatever order they finish |
| Archive.FilesHold500 | dbee/core/call_archive.go:109-145 | the files hold 500 rows each, and the last one what is left |
| Archive.StoredFrom | dbee/core/call_archive.go:268-296 | reading the files from any number on yields the rows from that chunk on |
| Archive.Archive.SetResult | dbee/core/call_archive.go:61-150 | writes the chunks of a result, keeps a filled archive, and fails when the fill failed |
| Archive.Archive.GetResult | dbee/core/call_archive.go:244-303 | streams file after file up to the first one that is missing or damaged |
| Archive.StoredCall.GetResult | dbee/core/call.go:344-374 | returns the filled result and refuses when there is no archive; else it fills the result with what the reading pipe delivers, for any run of the pipe, and reports no error even when a damaged file has cut the rows short |
| Archive.RestoredWholeExactly | dbee/core/call_archive.go:268-334 | every run of the pipe restores all rows in front of the first missing or damaged file if and only if that file is missing, or no row stands in front of the damaged one |
| Archive.DamageLosesRow | dbee/core/call_archive.go:305-334 | two files of which the second is damaged: in some run the restored call lacks the last row of the first, without an error |
| Archive.StoredCall.constructor | dbee/core/call.go:87-124 | a restored call whose archive is gone is not archived any more |
| Archive.RoundTrip | dbee/core/call_archive.go:109-150 | live rows, any writer order and any interleaving of the reading pipe: the restored call's pages are the pages of the live rows, Rows(0, -1) all of them |
| Archive.ArchiveAndRestore | dbee/core/call.go:344-374 | the same through the objects, for any finished run of the reading pipe: archive, restore, GetResult, Rows(0, -1) |
| RowPipe.MoveKeeps | dbee/core/builders/next.go:83-154 | every step of producer and consumer keeps consumed, held, queued and unsent rows together equal to the rows of the source |
| RowPipe.ConsumerGetsPrefix | dbee/core/call_archive.go:244-349 | the consumer always has a prefix in order; when told there is no more it has all, unless the source failed |
| RowPipe.ChannelHoldsTen | dbee/core/builders/next.go:83-154 | at most ten rows ever wait in the channel |
| RowPipe.Drain | dbee/core/result.go:58-73 | takes the steps of a run; what the consumer was given is a prefix of the rows in front of the failure |
| RowPipe.AllRowsArrive | dbee/core/builders/next.go:83-154 | a source that does not fail is delivered whole |
| RowPipe.ErrorNeverSeen | dbee/core/call_archive.go:305-334 | a consumer that calls Next only after HasNext never sees the producer's error |
| RowPipe.FailureDropsRows | dbee/core/call_archive.go:305-334 | for every failing source with a good row there is a run that ends one row short |
| RowPipe.DeliveredWholeExactly | dbee/core/call_archive.go:305-334 | every run delivers all good rows if and only if the source does not fail, or fails before its first row |
| RowPipe.PipeAdvances | dbee/core/builders/next.go:83-154 | until the consumer is told there is no more, some step makes progress |
| SessionGate.GateIsExact | dbee/adapters/oracle_driver.go:398-463 | in every run of concurrent statements, with any number of closers racing for a stream, the mutex is held exactly when one statement runs or one stream has open rows; nobody unlocks twice; everybody locks and unlocks once; open rows keep all others out |
| SessionGate.LockStep | dbee/adapters/oracle_driver.go:398-463 | a step takes the free mutex, keeps it, or gives it back exactly when its client stops holding it |
| SessionGate.ConnectionStep | dbee/adapters/oracle_driver.go:317-338 | the pinned connection changes only while the gate is held |
| SessionGate.ConnectionStaysPinned | dbee/adapters/oracle_driver.go:317-338 | in every run exactly as many connections have been opened as were dropped by a failing session or a close, and the one in use |
| GateStreams.StreamsAreQueries | dbee/adapters/oracle_driver.go:398-463 | in every run a statement has a stream if and only if it is a query that was executed without failing, so nothing else keeps the gate beyond its return |
| SessionGate.SomebodyMoves | dbee/adapters/oracle_driver.go:398-463 | unless everybody is through, a client that is not can take a step; only a stream with open rows can keep the gate shut |
| GateProgress.StepDescends | dbee/adapters/oracle_driver.go:398-463 | every step of a client that is not through uses up part of a finite rank |
| GateProgress.EveryGateRunEnds | dbee/adapters/oracle_driver.go:398-463 | such steps, the closing of open streams included, number at most eight for each client; when none is left, everybody is through and has locked and unlocked once, and the gate is free |
| SessionGate.Driver.QueryWithBinds | dbee/adapters/oracle_driver.go:398-463 | every exit leaves the gate free, except that of a query stream, which carries the unlock as its second callback; a connection opened for it stays pinned unless the session fails |
| SessionGate.Driver.GetSessionConnLocked | dbee/adapters/oracle_driver.go:319-329 | returns the pinned connection and opens one only when there is none |
| SessionGate.Driver.Close | dbee/adapters/oracle_driver.go:1317-1325 | the connection is dropped under the gate and the gate is free again |
| SessionGate.ResultStream.Close | dbee/core/builders/result.go:46-58 | the callbacks run once, in order; the gate is given back if the stream still owed it |
| SessionGate.ResultStream.Next | dbee/core/builders/result.go:37-43 | the end or a failure closes the stream |
| SessionGate.ResultStream.AddCallback | dbee/core/builders/result.go:21-23 | callbacks are kept in order of registration |
| WalletQuery.EscapeRoundTrip | dbee/adapters/oracle_wallet.go:152-211 | unescaping an escaped byte string gives it back, and the escaped form holds neither `&` nor `=` |
| WalletQuery.FindWalletQueryParam | dbee/adapters/oracle_wallet.go:152-185 | the loop returns the first wallet parameter, and fails on a bad escape or on conflicting values |
| WalletQuery.FindsExactly | dbee/adapters/oracle_wallet.go:152-185 | the search succeeds if and only if everything can be unescaped and all wallet segments give one value; it then has the first key with that value, and its error tells which of the two failed |
| WalletQuery.KeyAndValue | dbee/adapters/oracle_wallet.go:152-185 | the first `=` of a segment parts key and value; without one the value is empty |
| WalletQuery.WalletKeyIs | dbee/adapters/oracle_wallet.go:152-185 | a key is about the wallet in any letter case |
| ByteTables.EscapesSpelled | dbee/adapters/oracle_wallet.go:187-211 | what is written for each byte, spelled out |
| ByteTables.UnescapesExactly | dbee/adapters/oracle_wallet.go:152-185 | a text is refused if and only if some `%` is not followed by two hexadecimal digits |
| ByteTables.EscapesReadAlike | dbee/adapters/oracle_wallet.go:152-185 | escapes with capital and with small digits read alike |
| WalletQuery.RewriteWalletRawQuery | dbee/adapters/oracle_wallet.go:187-211 | the loop replaces the first wallet segment, drops the later ones and adds one when there is none |
| WalletQuery.WalletRoundTrip | dbee/adapters/oracle_wallet.go:152-211 | on the rewritten query the search returns the key with exactly the new path; one wallet segment remains and the others keep text and order |
| WalletQuery.FoundKeyIsWallet | dbee/adapters/oracle_wallet.go:152-185 | a found key is a wallet key, and one is found exactly when there is a wallet segment |
| WalletCache.MoveKeeps | dbee/adapters/oracle_wallet.go:276-374 | every step of resolvers and clears, crashes included, keeps the invariant of the cache directory |
| WalletCache.OneHolderPerPrefix | dbee/adapters/oracle_wallet.go:324-374 | in every run at most one process holds a hash prefix |
| WalletCache.FinalChangesUnderLock | dbee/adapters/oracle_wallet.go:443-497 | in every run a final directory changes only in a step of the process that holds its lock |
| WalletCache.LiveTempStays | dbee/adapters/oracle_wallet.go:65-115 | in every run no clear and no other process touches the temporary directory of a live extraction |
| WalletCache.LiveTempIsThere | dbee/adapters/oracle_wallet.go:443-497 | in every run an extraction that goes on finds its temporary directory |
| WalletCache.ResolvedDirectoryIsComplete | dbee/adapters/oracle_wallet.go:276-322 | in every run, when a successful resolve gives up its lock, the directory has its own hash marker and all required files |
| CacheProgress.StepDescends | dbee/adapters/oracle_wallet.go:276-374 | every step, crashes included, uses up part of a finite rank, although a clear lists directories that are still being added |
| CacheProgress.SomebodyMoves | dbee/adapters/oracle_wallet.go:324-374 | while nobody has crashed, an unfinished resolve or clear means that some process can take a step |
| CacheProgress.EveryCacheRunEnds | dbee/adapters/oracle_wallet.go:276-374 | every run has bounded length, and a run without a crash that cannot go on has every resolve answered and every clear done |
| WalletStore.Store.TryAcquire | dbee/adapters/oracle_wallet.go:362-374 | the lock directory is made exactly when it is not there |
| WalletStore.Store.Extract | dbee/adapters/oracle_wallet.go:443-497 | a success publishes a complete directory under its own marker; a failure leaves no temporary directory and no new final one |
| WalletStore.Store.Resolve | dbee/adapters/oracle_wallet.go:276-322 | a valid marker is a hit, anything else is extracted anew; the lock is given back on every exit and other wallets stay |
| WalletStore.Store.Clear | dbee/adapters/oracle_wallet.go:65-115 | removes the final directories whose lock is free, and the temporary ones when no lock is held |
| WalletSolo.SoloResolve | dbee/adapters/oracle_wallet.go:276-322 | the steps of a resolver that is alone add up to `Store.Resolve`: hit, extraction or failure at any point, with the lock given back and no temporary directory left |
| WalletSolo.SoloClear | dbee/adapters/oracle_wallet.go:65-115 | the steps of a clear that is alone and succeeds add up to `Store.Clear`, in whatever order it visits the entries |
| GlobPattern.SqlGlobMatches | dbee/adapters/schema_filter.go:45-60 | the pattern loop writes the anchored expression, quoting included, and the value is matched against what that text reads as |
| GlobPattern.BodyIsRead | dbee/adapters/schema_filter.go:45-60 | the text of the expression reads back as one dot, starred dot or character for each character of the pattern |
| GlobPattern.GlobIsLikeInLine | dbee/adapters/schema_filter.go:45-60 | the client's matcher is LIKE with wildcards that stop at new lines, for all patterns and values |
| GlobPattern.GlobIsLike | dbee/adapters/schema_filter.go:45-60 | for values without new lines it is LIKE, whatever the pattern |
| GlobPattern.GlobIsLikeExactly | dbee/adapters/schema_filter.go:45-60 | over all patterns it is LIKE if and only if the value has no new line |
| GlobPattern.NewlineTellsThemApart | dbee/adapters/schema_filter.go:45-60 | a value with a new line on which they differ |
| GlobPattern.PlainGlobIsEquality | dbee/adapters/schema_filter.go:102-104 | a pattern without wildcards matches only itself, so `=` may stand for LIKE |
| SchemaFilter.SchemaAllowedByOptions | dbee/adapters/schema_filter.go:63-87 | the loops decide what the filter means, folding included |
| SchemaFilter.SchemaPredicate | dbee/adapters/schema_filter.go:106-143 | the text spells the condition of the filter with placeholders numbered from the start index, and the arguments are its patterns in that order |
| SqlCondition.WordsText | dbee/adapters/schema_filter.go:106-143 | the joined parts of the condition spell the list of SQL words that is evaluated |
| SqlCondition.WordsMean | dbee/adapters/schema_filter.go:106-143 | read with SQL's precedence, the words say: one of the included tests, if there are any, and none of the excluded ones |
| SchemaFilter.ServerAgreesWithClient | dbee/adapters/schema_filter.go:106-143 | for every fold: when the patterns are folded and the fold leaves the schema alone, evaluating the condition's words with LIKE and `=` keeps a schema without new lines exactly when the client does, wherever the condition's arguments stand |
| SchemaFilter.TextAgreesWithClient | dbee/adapters/schema_filter.go:106-143 | the same for the text that is sent, in every dialect |
| SchemaFilter.AgreementIsExact | dbee/adapters/schema_filter.go:30-143 | over all filters with folded patterns, server and client agree about a schema if and only if it has no new line and the fold leaves it alone |
| SchemaFilter.FoldTellsThemApart | dbee/adapters/schema_filter.go:30-87 | patterns that are not folded, on which the two differ, for either fold |
| SqlCondition.TestsSpelled | dbee/adapters/schema_filter.go:89-143 | the tests as each dialect spells them: `= $n`, `LIKE :n`, `LIKE @pn`, `= ?` |
| SqlText.SqlReadsBack | dbee/adapters/schema_filter.go:89-143 | the text of a condition whose placeholders count through reads back as its words, in every dialect |
| SchemaFilter.StructureArms | dbee/adapters/oracle_driver.go:1123-1133 | chained calls: the conditions and the joint argument list |
| SchemaFilter.ArmsAgree | dbee/adapters/oracle_driver.go:1123-1133 | every arm refers to its own arguments, numbered through in the order of the text, and keeps what the client keeps, read from its words or from its text |
| RedisCommand.ParseRedisCmd | dbee/adapters/redis_driver.go:158-232 | the loop computes the tokenizer function, unmatched quotes with their byte positions included |
| RedisCommand.ParsedHasNoBackslash | dbee/adapters/redis_driver.go:158-232 | no parsed word holds a backslash |
| RedisCommand.PrintedParses | dbee/adapters/redis_driver.go:158-232 | words printed bare, in either kind of quote, or bare up to a quote, each in its own style, come back from the parser if and only if no word holds a backslash, none has a space outside its quotes, and the last is not empty |
| RedisCommand.SpacesMakeEmptyWords | dbee/adapters/redis_driver.go:211-215 | n spaces between two words make n - 1 empty words |
| RedisCommand.BackslashVanishes | dbee/adapters/redis_driver.go:205-209 | in front of anything but a quote or a space outside quotes, a backslash changes nothing but positions |
| RedisCommand.BackslashOutlastsSpaces | dbee/adapters/redis_driver.go:205-218 | a backslash in front of spaces still makes the quote behind them literal |
| RedisCommand.OpenQuoteIsReported | dbee/adapters/redis_driver.go:221-224 | a quote that is never closed is reported with its byte position |
| RedisCommand.ClosingQuoteIsReported | dbee/adapters/redis_driver.go:183-197 | a closing quote followed by anything but a space is reported with its byte position |
| RedisCommand.BytesAreUtf8 | dbee/adapters/redis_driver.go:180-183 | the positions count the bytes of UTF-8 |

## Left out

- Reserved words: the list of words is a parameter, with the two facts that are used (`NoPrefixP`, `NoSentinelWord`).
- Value coercion, error classification, formatting of error texts and timestamps: library parsing with claims about single branches only.
- Error messages: an error carries the kind and the names involved, not the wording.
- Folding and trimming beyond ASCII, and text that is not valid UTF-8.
- `stripOracleCursorMarkersOnly`, `parseCursorParams` and the other helpers around the plan: they reuse the same scans.
- NamesRestored.ColonsReversed: covers queries without markers; `ColonsGiveStripped` covers the others, where the best that can come back is the query without its markers.
- RewriteExact.MeaningKeptExactly: says nothing of marks that remain in the rewritten text behind a marker; `RewriteReadsBack` counts those too.
- RewritePlan.Complete: cursor parameters may repeat when the same marked name occurs twice, as in the source.
- Wall-clock time: time taken, the five-second and five-minute timeouts of readers, lock waiting times and stale-lock takeover. The theorems are about runs without them.
- CallMachine: the executor function, the row source and the archive succeed or fail by choice; row contents are in `ResultCache` and `Archive`. A panic in the executor is not modelled. A restored call starts with the done flag set, where UnmarshalJSON (call.go:87-124) only closes the channel; no result turns on the flag of a restored call.
- ResultCache.PageIsFinal: assumes one SetIter and no Wipe; `FillOnce` says when a live result is filled twice.
- Header and metadata of a result, and its formatters: copied as they are.
- Files, gob, JSON, SHA-256, zip contents and permissions: a file is its rows, a directory its marker and whether the required files are there.
- RowPipe.AllRowsArrive: excludes the five-second timeout, as said above.
- SessionGate: the drivers behind a connection, the context given to a statement, DBMS_OUTPUT and cursor rows; a statement is one step with three outcomes. Bind validation fails before the gate is taken.
- WalletCache: directory operations, the listing of a clear included, are atomic, a failed removal leaves a directory whole, and names of temporary directories are not reused. The modification time of the source is a choice: a valid marker may still count as outdated. Entries that are neither locks, temporary nor hash-named directories.
- WalletQuery: the rest of URL parsing.
- SchemaFilter: collations, and columns that are not plain lower-case names. The server compares exactly; a server that ignores case is not modelled.
- LexerReference.ScannerMeetsReference: when both scans fail they may report the same error although a comment was opened; nothing is said about that case.
- NextSingle, NextSlice, NextNil and the grouping of cursor rows: easy members.
- The list of schemas found by a query, other adapters, handlers, the event bus, message packing, output buffers and the plugin's user interface.
