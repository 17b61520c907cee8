# Verified models of the scripts

A Dafny 4.11 project that models six pieces of this repository's Python tooling and
proves what they are for.

1. **The q context converter** (`flatten_contexts.py`): a lexer, a bracket and lambda
   scanner, a name binder, a call-level fixed point, and two source-to-source
   rewrites. 4.0 writes every nested `\d` context at the root; 5.0 moves root blocks
   back into their context and shortens their names. A name use denotes a local, a
   builtin, a column or one absolute global; both rewrites are proved against that
   meaning, together with idempotence and the 4.0 → 5.0 → 4.0 round trip.
2. **The shard scheduler** (`pytest_shards.py`, `full_suite.py`): greedy scheduling,
   heaviest first, with its bound against any other split.
3. **The attestation rule** (`check_kdbx_attestation.py`, `attest_kdbx.py`): a protocol
   over commits, trees and merges, with its safety over every run.
4. **The PeachQ cache** (`peachq.py`): any number of processes sharing one cache
   directory, a lock, publication by rename, and crashes at every point.
5. **Graph and fixed-point code** (`split_frontend.py`, `check_module_deps.py`): helper
   placement, two depth-first cycle finders, the dependency gate, and the split that
   moves routes without reordering them.
6. **The contract surface** (`contract_surface.py`): a writer, a reader and a diff.

## How the files fit together

| files | what they hold |
|---|---|
| `Chars`, `QWords`, `Options`, `Sequences` | character classes and Python's string operations, q's reserved words, optional values, lists without repeats |
| `Lexer`, `LexerProofs`, `LexLoop`, `LexGrammar` | tokens as a function, what makes a cut valid, the source's loops computing the function, and what a token is, said of the text alone |
| `Scanner`, `ScannerProofs`, `StatementClass`, `Renaming` | one statement's uses, lookups and lambdas; what the scan mirrors; the scan as an object with a stack; renaming globals leaves it alone |
| `Phrases`, `StatementSpec`, `Lookups`, `ParsedSays` | the same said of tokens and brackets, with no stack and no order of scanning: qSQL phrases, roles, lambdas, operands, and that the scan records just that |
| `Converter`, `ConverterClass`, `Levels` | contexts, collection, binding, both rewrites; the same as an object that overwrites an array of texts; `propagate` |
| `Layout`, `Flatten`, `FlattenLexing`, `Meaning`, `Idempotence` | the 4.0 output token by token, how it lexes, what it means, and flattening it again |
| `StatementStarts`, `FlattenSays`, `NestableBlocks`, `NestingSays`, `CollectSays`, `ProjectSays` | statements and their contexts, binding, refusals, blocks that move, short names and collection, said by what names denote and what runs as a file loads; whole projects by these |
| `Nesting`, `NestLexing`, `RunContexts`, `NestedFile`, `Moving`, `MovedStatements`, `NestMeaning` | the 5.0 output, how it lexes, where its statements run, which files 5.0 accepts, what moves, what the output means |
| `RoundTrip`, `Returning`, `Projects` | a moved statement flattened back, exactly which files come back, whole projects |
| `Evaluation`, `RefusedReturn`, `AmendedGlobals`, `BrokenLexing`, `BareCloser` | how a small file converts, and concrete files outside the conditions of the converter's theorems |
| `Scheduling`, `Shards`, `ShardSays` | schedules and their bounds; modules, names and the loops; what a module weighs and the order modules are taken in |
| `Trailers`, `AttestRun`, `Attestation` | the recorded line, one attesting run, the protocol |
| `TrailerGrammar`, `CoverageLane`, `MergeRule` | which lines attest what, said of their text; what the coverage lane ran and what is recorded; exactly which heads are accepted |
| `Cache`, `CacheRaces`, `CacheLock`, `CacheRun` | the protocol of many processes and its invariant; what interleavings keep exactly when requests agree; what the lock keeps whatever they ask for; one process over the directory's own fields |
| `Graphs`, `ModuleDeps`, `Placement`, `Routes` | cycle finders, the gate, `_settle`, chunks and install order |
| `Surfaces`, `SurfaceRows`, `SurfaceDiff`, `IndexSays` | the files and their round trip; any rows read, cell by cell; the diff; which of two under one name is compared |

Code that computes by expressions is a function with lemmas about it. Code that
updates state is a class or a method with loops, proved equal to the function that
specifies it, or directly against what it promises. Each such function has besides
a reference it is proved to meet in both directions, which does not call it: tokens
are described by the text, a statement's parse by its tokens and brackets, both
rewrites by what names denote and by reachable lookups, an attestation by the line's
text, an accepted head by trees, lines and scopes.

## Conditions that the theorems carry

Where the source does not keep a promise on every input, the code is modelled as it
is, the theorem carries the exact condition, and a concrete input outside it goes
through the passes that fail.

- **4.0 output lexes back into the same tokens** exactly when every context a name was
  qualified with is one whole name (`FlatRelexIff`). `\d .a.b"` is accepted by the
  source and is not one: the file it heads is written so that it no longer lexes
  (`OddContextBreaksLexing`).
- **5.0 output lexes back into the same tokens** exactly when every shortened leaf is a
  name of its own and does not stand right after the operator `.` (`NestRelexIff`);
  files with `.a.b.1x` and `.a.b.f..a.b.x` are written to other tokens
  (`LeafBecomesNumber`, `ShortenedNamesMerge`).
- **Nested statements keep their context** exactly when no block that moved is left open
  where they stand (`NestContexts`): no line since the block's head names another
  context. Lines that name contexts close every block for good
  (`NamingClosersStrandNone`); a bare `\d` closes nothing.
- **Nested statements keep their meaning**: one with no block open around it always; a
  moved one exactly when it amends no global by a relative name; one left inside a block
  it did not move with exactly when it denotes no global by a relative name
  (`NestingPreservesMeaning`). A qSQL phrase inside a lambda lets a moved amend through
  (`AmendSlipsThrough`), although `_unmovable` is documented to hold such a block back;
  after a bare closing line an assignment goes to another global
  (`BareCloserStrands`).
- **The 4.0 → 5.0 → 4.0 round trip of a file** holds exactly when every statement comes
  back (`Returning.FileReturns`). When nothing is left inside a block that it did not
  move with, that is exactly when every moved block opens with the line `\d .` and amends
  no relative name but its own locals, reserved words excepted (`ClosedFileReturns`); no
  collection at all brings back a file that is not so (`OnlyReturnableReturns`). Each way
  to fail has its file: `AmendSlipsThrough`, `ReservedMovesThenRefused`,
  `GlobalAmendOfLocalRefused`, `BareCloserStrands`.
- **The round trip of a project**, collected afresh from the nested files, needs the same
  of every file (`NestingThenFlatteningIsIdentity`), for flat files whose nested form
  lexes back and whose lambda parameters are relative. It is enough when, besides,
  nothing is left inside a block and no block defines a qSQL word. q takes no file with
  such a parameter or definition.
- **A file is left alone by 4.0** exactly when it is flat (`KeptIffFlat`), so
  flattening twice is flattening once exactly when the first output lexes and is flat
  (`FlatteningAgainChangesNothing`), as it is when the contexts are whole names.
- **Attestation** sees a changed path exactly when white space does not break it up
  in the diff's output (`SeenExactlyWhenPlain`, `SpacedPathIsMissed`).
- **The cache**, whatever runs ask for: one run at a time inside an entry's lock, no build
  directory touched by a run that is not its own (`LiveBuildsAreOwn`,
  `SweepSparesLiveBuilds`), and nothing published but whole builds, where nothing was
  (`EntryChanges`, `NothingHalfPublished`).
- **What the cache returned and published stays** exactly when the requests that share an
  entry's name ask for the same build (`ReturnedIsWhole`, `PublishedOnce`,
  `ValidEntryStaysForGood`, `BuildsStayWhole`). The name leaves out the repository and the
  make target (`NameStandsForOneBuild`), and runs that differ there discard each other's
  entries, starting from an empty directory (`OthersEntryIsDiscarded`).
- **`_settle`** settles when the uses have no cycle; with a cycle it can swing for ever
  though a settled placement exists (`RingNeverSettles`).

## Model

| member | source | states |
|---|---|---|
| LexerProofs.CutIffValid | scripts/portable/flatten_contexts.py:157-257 | a list of pieces is what the lexer cuts a text into if and only if the pieces spell the text and each is cut where the lexer's rules end it |
| LexerProofs.LexIsLossless | scripts/portable/flatten_contexts.py:157-257 | the tokens are nonempty, spell the input, and carry the line and column their text starts at |
| LexerProofs.OpenIsPrefix | scripts/portable/flatten_contexts.py:157-257 | when lexing fails, what was cut is a proper prefix of the input and a string quote comes next |
| LexerProofs.RelexIff | scripts/portable/flatten_contexts.py:1063-1069 | rewriting names and `\d` lines of a lexed text gives a text that lexes into exactly the rewritten tokens if and only if each new name is one whole name and none that starts with a letter follows an operator dot |
| LexGrammar.LexedIff | scripts/portable/flatten_contexts.py:157-257 | a text lexes into a list of pieces if and only if the pieces spell it and each is a token of its kind by the grammar of the text alone: how lines, runs, numbers, strings and block comments begin and end |
| LexGrammar.StringsAreWhole | scripts/portable/flatten_contexts.py:222-228 | a string token opens with a quote, ends with one that an even run of backslashes precedes, and holds no such quote between |
| LexGrammar.UnclosedIff | scripts/portable/flatten_contexts.py:222-228 | lexing fails if and only if some string that opens after whole tokens has no such quote after it |
| LexLoop.Lex | scripts/portable/flatten_contexts.py:157-257 | the lexer's nested loops end on every input and give the tokens, or the position of the string that never closes, that the specification gives |
| LexLoop.ScanNumber | scripts/portable/flatten_contexts.py:157-257 | the number loop stops where a number ends, signed exponents taken whole |
| LexLoop.ScanBlock | scripts/portable/flatten_contexts.py:157-257 | the block-comment loop stops after the line holding only a backslash, or at the end |
| Scanner.MatchAll | scripts/portable/flatten_contexts.py:379-396 | when no bracket is refused, every opener has its matching closer and the two maps invert each other |
| StatementClass.BracketMatches | scripts/portable/flatten_contexts.py:379-396 | the loop over one stack pairs the brackets as specified, or refuses |
| StatementClass.Analyse | scripts/portable/flatten_contexts.py:345-372 | the scan over a mutable frame stack records the uses, lookups, lambdas and definition that the specification names, or refuses |
| StatementClass.Analysis.Name | scripts/portable/flatten_contexts.py:552-578 | one name's step changes the scan's fields to the specified next state |
| StatementClass.Analysis.Operator | scripts/portable/flatten_contexts.py:580-625 | one operator's step, brackets and lambda braces included, changes the fields to the specified next state |
| StatementClass.Analysis.WalkAll | scripts/portable/flatten_contexts.py:537-551 | the walk's loop ends in the state the specification's walk ends in |
| ScannerProofs.MatchedIsNested | scripts/portable/flatten_contexts.py:379-396 | accepted brackets are well nested: of any two pairs, they are apart or one lies inside the other, and what opens last closes first |
| ScannerProofs.WalkMirrors | scripts/portable/flatten_contexts.py:537-625 | at the start of every round of the walk the frame stack mirrors the brackets open there, a lambda's parameter list excepted, and holds a frame to pop at every closer |
| ScannerProofs.UsesAreInnermost | scripts/portable/flatten_contexts.py:537-625 | the walk ends with the top frame alone, and each use lies strictly between the braces of the lambda recorded for it, which is the innermost such lambda, or in none |
| ParsedSays.MatchedIff | scripts/portable/flatten_contexts.py:379-396 | no bracket is refused if and only if the brackets can be paired up, each with one of its kind, any two pairs apart or nested |
| Lookups.LevelSaid | scripts/portable/flatten_contexts.py:456-535 | a name is recorded as a relative lookup, or as a computed one, exactly when the symbol, string or operand beside it makes it one; an operand runs to the end of its expression, or is the one noun before |
| ParsedSays.ParseSays | scripts/portable/flatten_contexts.py:345-625 | a statement is refused if and only if its brackets do not pair up or it uses a dotted name that is not absolute; otherwise its uses are the names used, in order, each with the role, call and phrase that its tokens give it, its lambdas are its braces with their parameters and locals, and its lookups are those there |
| ParsedSays.ColumnUses | scripts/portable/flatten_contexts.py:499-505 | a use is in a column phrase if and only if some bracket level around it is in one, no further out than the innermost lambda's body: a bracket opened in a phrase keeps its uses there, a lambda's brace ends it |
| ParsedSays.LocalsSay | scripts/portable/flatten_contexts.py:300-303 | a name is local to a lambda if and only if its parameter list holds it, the lambda assigns it, or it has no list and the name is `x`, `y` or `z` |
| ParsedSays.InlineIff | scripts/portable/flatten_contexts.py:290-298 | code runs as its statement runs if and only if every lambda around it is applied where it is written |
| StatementStarts.StatementsSay | scripts/portable/flatten_contexts.py:684-701 | each word in the first column begins a statement, it runs to the next, and it runs in the context of the last switch above it, the root when there is none |
| StatementStarts.SwitchesIff | scripts/portable/flatten_contexts.py:664-670 | the context read off a system line is the text between `\d` with white space and what white space ends the line |
| StatementStarts.CodeSays | scripts/portable/flatten_contexts.py:333-334 | a statement's code is its words, in order, without spaces, line ends and comments |
| Renaming.ParseSame | scripts/portable/flatten_contexts.py:345-625 | renaming names that make no local and are no words of q leaves every use, lookup, lambda and definition of a statement as it was |
| Levels.Propagate | scripts/portable/flatten_contexts.py:758-769 | the rounds end, cycles included, with every function at the highest own level among the functions its calls reach |
| Levels.ClosedIsSettled | scripts/portable/flatten_contexts.py:758-769 | any levels no lower than a function's own and its callees', and none above what is reached, are those levels: the order of the rounds does not matter |
| Levels.LoadTimeSafety | scripts/portable/flatten_contexts.py:1013-1042 | a statement that runs at load time and is not refused makes no lookup itself and calls nothing whose chain of calls reaches one |
| CollectSays.KnownSays | scripts/portable/flatten_contexts.py:715-769 | a word is known in a context if and only if some statement of some file gives it its value; a recorded function is what the last definition of its name says, its level the greatest lookup that recorded calls reach |
| Projects.AcceptedProjectLoadsSafely | scripts/portable/flatten_contexts.py:742-769 | in a project accepted without computed names no load-time statement of a nested context reaches a run-time lookup, inline lambdas included |
| Layout.RelexKeepsLayout | scripts/portable/flatten_contexts.py:1063-1069 | a rewriting that keeps boundaries lexes back with the same kinds, order and lines, and the rewritten texts |
| Layout.LayoutKeepsStatements | scripts/portable/flatten_contexts.py:684-701 | files with one layout split into the same statements |
| Flatten.FlatOutput | scripts/portable/flatten_contexts.py:773-805 | the 4.0 pass writes at each token the qualified name, the root line or the old text, and refuses exactly the files that hold a refused statement |
| FlattenSays.BindingIff | scripts/portable/flatten_contexts.py:1046-1111 | a use is refused if and only if it assigns a reserved word, or a local by `::`, or may be a column or a global the context defines; it is qualified if and only if it is not refused and denotes a global of the context |
| FlattenSays.HidesIff | scripts/portable/flatten_contexts.py:971-987 | a string is taken for a hidden switch if and only if, its backslashes undone, it is `d` and a nested context between white space, a backslash before it or not |
| FlattenSays.EscapesHalved | scripts/portable/flatten_contexts.py:976 | undoing escapes halves each run of backslashes, rounding up, and changes nothing else |
| FlattenSays.FlattenIff | scripts/portable/flatten_contexts.py:773-805 | 4.0 refuses a file if and only if a statement switches to a relative context, runs a system command or hides a switch where it may not, or in a nested context does not parse, reaches a lookup as it loads or uses a name whose meaning cannot be told; each token is written as its statement says |
| ProjectSays.ProjectFlattens | scripts/portable/flatten_contexts.py:715-807 | the same of each file of a project, with what all its files define and reach |
| FlattenLexing.QualifiedIsName | scripts/portable/flatten_contexts.py:677-681 | a relative name qualified with a context is one name if and only if the context is |
| FlattenLexing.FlatRelexIff | scripts/portable/flatten_contexts.py:1063-1069 | the 4.0 output lexes back into its own tokens if and only if every context a name was qualified with is one whole name |
| Meaning.FlatUseMeaning | scripts/portable/flatten_contexts.py:1046-1111 | a use denotes at the root what it denoted in its context if and only if, being a qSQL name nobody defines, it is a column |
| Meaning.FlatteningPreservesMeaning | scripts/portable/flatten_contexts.py:1046-1111 | in an accepted file the statements, their contexts flattened, parse alike and every use denotes the same local, builtin, column or absolute global |
| Idempotence.FlatFileKept | scripts/portable/flatten_contexts.py:773-805 | a flat file is accepted for 4.0 and left as it is, whatever the inputs define |
| Idempotence.KeptIffFlat | scripts/portable/flatten_contexts.py:773-805 | 4.0 accepts a file and writes it as it was if and only if it has no nested context and no hidden switch |
| Idempotence.FlatteningAgainChangesNothing | scripts/portable/flatten_contexts.py:773-805 | converting the 4.0 output again, whatever is known, is accepted and changes nothing if and only if the output lexes and is flat, as it is when each context that qualified a name is one whole name |
| Nesting.NestOutput | scripts/portable/flatten_contexts.py:809-938 | the 5.0 pass changes only the head lines of blocks that move and, in their statements, names that shorten |
| NestableBlocks.HomeExactly | scripts/portable/flatten_contexts.py:829-921 | a root block moves into a context if and only if it parses, gives no global of the root its value and globals of no nested context but that one theirs, names nothing that would denote something else there, and neither makes nor reaches a lookup as it loads |
| NestableBlocks.BlocksMove | scripts/portable/flatten_contexts.py:809-827 | a statement moves if and only if it stands in such a block, between a `\d .` line and the next `\d` line with only code between |
| NestableBlocks.ShortExactly | scripts/portable/flatten_contexts.py:923-938 | a name is shortened if and only if it stands directly under the context and the bare word, used there and in no column phrase, denotes the same |
| NestingSays.NestingIff | scripts/portable/flatten_contexts.py:809-938 | each token is written as its block says: the head line of a block that moves names its context, names in it are bare where that denotes the same, everything else is as it was |
| ProjectSays.ProjectNests | scripts/portable/flatten_contexts.py:715-938 | the same of each file of a project; a file is refused if and only if it does not lex or switches to a relative context |
| NestedFile.NestConverts | scripts/portable/flatten_contexts.py:773-938 | 5.0 refuses exactly the files that switch to a relative context, and writes the nested text of every other |
| NestLexing.NestRelexIff | scripts/portable/flatten_contexts.py:829-938 | the 5.0 output lexes back into its own tokens if and only if every shortened leaf is a name of its own and follows no operator dot |
| RunContexts.NestContexts | scripts/portable/flatten_contexts.py:693-701 | a statement keeps the context it ran in if and only if no block that moved is left open where it stands; else it runs in that block's new context, as every moved statement does |
| RunContexts.NamingClosersStrandNone | scripts/portable/flatten_contexts.py:664-701 | where each moved block is closed by a line that names a context, nothing is left inside that did not move |
| Moving.UseRestored | scripts/portable/flatten_contexts.py:923-938 | flattening a moved use gives the root's name back, unrefused, if and only if the use amends no relative name but a plain local; then it is qualified exactly when it was shortened |
| RoundTrip.StatementRestored | scripts/portable/flatten_contexts.py:886-938 | every use of a moved statement comes back if and only if the statement amends no relative name but plain locals |
| Moving.UseMeaningKept | scripts/portable/flatten_contexts.py:886-938 | a moved use keeps what it denotes if and only if it does not amend a relative name that is no local |
| Moving.UseCollected | scripts/portable/flatten_contexts.py:715-756 | a moved use defines and calls the same absolute names as at the root |
| MovedStatements.NestParse | scripts/portable/flatten_contexts.py:829-884 | every statement parses alike after nesting, and exactly alike where nothing moved |
| NestMeaning.MovedMeaning | scripts/portable/flatten_contexts.py:829-938 | a statement of a block that moves keeps its meaning if and only if it amends no global by a relative name |
| NestMeaning.NestingPreservesMeaning | scripts/portable/flatten_contexts.py:809-938 | an accepted 5.0 conversion writes a text that lexes into the same statements, each in its old context if and only if no moved block is open there, and then with its meaning; a moved one keeps its meaning if and only if it amends no global by a relative name, one left inside if and only if it denotes none by a relative name |
| Returning.FileReturns | scripts/portable/flatten_contexts.py:1046-1111 | flattening the nested form of a flat file is accepted and gives the file back if and only if each of its statements returns |
| Returning.ClosedFileReturns | scripts/portable/flatten_contexts.py:1046-1111 | when nothing is left inside a block it did not move with, it gives the file back if and only if every moved block opens with `\d .` and amends no relative name but plain locals |
| Returning.OnlyReturnableReturns | scripts/portable/flatten_contexts.py:1046-1111 | a file that comes back, whatever the flattening run knows, is one whose moved blocks open with `\d .` and amend no relative name but plain locals |
| RoundTrip.FileCollectsSame | scripts/portable/flatten_contexts.py:715-740 | the nested file adds to the collection exactly what the flat file adds |
| Projects.NestingThenFlatteningIsIdentity | scripts/portable/flatten_contexts.py:829-938 | every file of a flat project nests; flattening the results with what the results define gives the project only if every moved block opens with `\d .` and amends no relative name but plain locals, and then does where nothing is left inside a block and no block defines a qSQL word, the results defining what the project defines |
| ConverterClass.Run.CollectFile | scripts/portable/flatten_contexts.py:715-740 | collecting a file updates what is defined and recorded as specified, and a file that does not lex adds nothing |
| ConverterClass.Run.Settle | scripts/portable/flatten_contexts.py:758-769 | the recorded functions are replaced by the settled ones |
| ConverterClass.Run.BindAll | scripts/portable/flatten_contexts.py:1046-1111 | binding overwrites the array's texts, and refuses, as specified for all uses in turn |
| ConverterClass.Run.NestBlockInto | scripts/portable/flatten_contexts.py:829-884 | a block is shortened and its head line set in place, or left alone |
| ConverterClass.Run.ConvertFile | scripts/portable/flatten_contexts.py:773-807 | converting one file in place gives the specified outcome: rejected, or the joined texts |
| BrokenLexing.OddContextBreaksLexing | scripts/portable/flatten_contexts.py:664-681 | the file `\d .a.b"` / `x:1` lexes and 4.0 accepts it, and what is written no longer lexes |
| BrokenLexing.LeafBecomesNumber | scripts/portable/flatten_contexts.py:923-938 | 5.0 writes a file that defines `.a.b.1x` so that the definition lexes as a number |
| BrokenLexing.ShortenedNamesMerge | scripts/portable/flatten_contexts.py:923-938 | 5.0 writes `.a.b.f..a.b.x`, three tokens of the file, as the one name `f.x` |
| BrokenLexing.ShortenedNamesMergeAlone | scripts/portable/flatten_contexts.py:715-938 | the same when the file is the whole project and what it defines is all that is known |
| BareCloser.BareCloserStrands | scripts/portable/flatten_contexts.py:664-938 | 5.0 nests the block of `\d .` / `.a.b.x:1` / `\d` / `y:2`, where `y:2` then runs in `.a.b` and means another global; 4.0, whatever it knows, writes `.a.b.y:2` instead of the file |
| RefusedReturn.ReservedMovesThenRefused | scripts/portable/flatten_contexts.py:886-897 | the file that defines `.a.b.f:{value:1}` is left alone by 4.0 and nested by 5.0, and 4.0 then refuses it whatever is known |
| RefusedReturn.GlobalAmendOfLocalRefused | scripts/portable/flatten_contexts.py:886-938 | the same for `.a.b.f:{x::1}` |
| AmendedGlobals.AmendSlipsThrough | scripts/portable/flatten_contexts.py:886-938 | 5.0 nests `.a.b.f:{select n+:1 from .a.b.t}`, its statement means something else there, and 4.0 does not give the file back |
| AmendedGlobals.AmendSlipsThroughAlone | scripts/portable/flatten_contexts.py:715-938 | the same when the file is the whole project and what it defines is all that is known |
| Scheduling.Least | scripts/dev/pytest_shards.py:59 | the machine chosen has the smallest load, and every lower-numbered one has more |
| Scheduling.GapBound | scripts/dev/pytest_shards.py:57-61 | no two loads differ by more than the heaviest job, in any order |
| Scheduling.TwiceBound | scripts/dev/pytest_shards.py:57-61 | greedy in any order stays within 2 - 1/m of any schedule |
| Scheduling.LastJobFits | scripts/dev/pytest_shards.py:57-61 | when every job is over a third of the limit and every machine is busy, the last job still fits, by counting two credits on each machine |
| Scheduling.HeavyJobsFit | scripts/dev/pytest_shards.py:57-61 | for jobs over a third of what some schedule needs, heaviest first needs no more |
| Scheduling.LargestFirstBound | scripts/dev/pytest_shards.py:57-61 | heaviest first stays within 4/3 - 1/(3m) of any schedule |
| Scheduling.BoundIsMet | scripts/dev/pytest_shards.py:57-61 | five jobs on two machines for which the bound is exact |
| Shards.MedianIsMiddle | scripts/dev/pytest_shards.py:54-55 | at least half the recorded weights are no more than the default, and at least half no less |
| ShardSays.DefaultSays | scripts/dev/pytest_shards.py:54-55 | a module without a record weighs 1 when none of the modules has one, else the middle of their recorded weights in order, the mean of the middle two of an even number |
| ShardSays.SumSays | scripts/dev/pytest_shards.py:61 | a shard weighs its modules' recorded weights and the default for each of the others |
| ShardSays.OrderSays | scripts/dev/pytest_shards.py:58 | each module is taken once, the heavier first, those of one weight by name |
| ShardSays.ShardsByName | scripts/dev/pytest_shards.py:62 | each shard lists its modules by name |
| Shards.SplitCoversOnce | scripts/dev/pytest_shards.py:48-62 | every module is in exactly one shard, once, and nothing else is, whatever the record says |
| Shards.SplitNearBest | scripts/dev/pytest_shards.py:48-62 | for any nonnegative weights and any other split of the same modules, no shard weighs more than 4/3 - 1/(3n), or 2 - 1/n, times the other's heaviest |
| Shards.SplitIsEven | scripts/dev/pytest_shards.py:48-62 | no two shards differ by more than the heaviest module |
| Shards.SplitIgnoresListing | scripts/portable/full_suite.py:196-206 | for one default weight the split depends on which modules there are, not on how they are listed |
| Shards.LeastLoaded | scripts/dev/pytest_shards.py:59 | the loop finds the least load, the lowest index on a tie |
| Shards.Spread | scripts/dev/pytest_shards.py:56-62 | the loop that appends to shards and adds to loads gives the specified split |
| Shards.AssignModules | scripts/dev/pytest_shards.py:48-62 | with the median as default, the modules are split as specified, each once |
| Shards.AssignFiles | scripts/portable/full_suite.py:196-206 | with 1.0 as default, the files are split as specified, each once |
| Trailers.TrailerRoundTrip | scripts/gates/check_kdbx_attestation.py:177-205 | reading a recorded line for its tree gives back its hooks and what each scoped hook ran |
| Trailers.TrailerNamesItsTree | scripts/gates/check_kdbx_attestation.py:177-205 | a recorded line attests nothing about another tree |
| TrailerGrammar.ParseIff | scripts/gates/check_kdbx_attestation.py:177-205 | a line attests something of a tree if and only if, stripped, it is the prefix, the tree, and nothing more or a list of hooks and fields; it then attests those hooks, and of each scoped one what its last field says |
| Trailers.ReadTrailer | scripts/gates/check_kdbx_attestation.py:177-205 | the loop over a line's fields reads it as specified, and refuses what is not one |
| AttestRun.OrderKeepsHooks | scripts/dev/attest_kdbx.py:228-232 | the run order drops and repeats no hook, keeps the others in their order, and puts q-tests after everything else |
| AttestRun.VerdictIs | scripts/dev/attest_kdbx.py:243-261 | the q suite passed if and only if both outcome files are there, some test ran and no failure is listed; otherwise exactly the lines listed are named |
| AttestRun.AttestTree | scripts/dev/attest_kdbx.py:345-421 | a line is recorded if and only if the tree was clean before and after, a hook was needed, q is KDB-X, and every hook passed, the verdicts read from what the coverage run wrote |
| CoverageLane.GoesOnIff | scripts/dev/attest_kdbx.py:391-412 | a run goes past a hook if and only if it passed and, for coverage, its file says `subset` or `all` with any white space around, and its suite passed where q-tests' verdict is read from it |
| CoverageLane.RecordedAsRun | scripts/dev/attest_kdbx.py:420-432 | the recorded line reads back as what each hook really ran: coverage as everything if and only if the lane ran everything, or everything was selected |
| CoverageLane.PassedAsRun | scripts/dev/attest_kdbx.py:208-214 | an attestation adds to what passed exactly the runs that took place, coverage with what its lane ran |
| AttestRun.LineSaysWhatRan | scripts/dev/attest_kdbx.py:420-432 | the recorded line, read back, names exactly the hooks that ran and what each ran |
| Attestation.SeenExactlyWhenPlain | scripts/gates/check_kdbx_attestation.py:171-174 | a changed path is seen through every scope if and only if it is not empty and holds no white space |
| Attestation.NotNeededAgrees | scripts/gates/check_kdbx_attestation.py:138-164 | where a hook is not needed, both sides of the change hold the same at every path its scope takes |
| Attestation.FoundPassed | scripts/gates/check_kdbx_attestation.py:214-236 | what is found attested for a commit's tree did pass on it |
| Attestation.Attestations | scripts/gates/check_kdbx_attestation.py:214-231 | the loop down the log finds the trailers of the head's tree as specified |
| MergeRule.AcceptsIff | scripts/gates/check_kdbx_attestation.py:330-386 | a head is accepted if and only if its change touches no scope, or each hook it touches is vouched for by a line of its tree, for everything or for the subset selected, and the tip is behind it or touches no scope since the merge base |
| MergeRule.PlainHeadAccepted | scripts/gates/check_kdbx_attestation.py:330-386 | where no path holds white space: accepted if and only if head and merge base agree on every scope, or each hook whose scope they differ in is vouched for and the tip is behind the head or agrees with the merge base on every scope |
| Attestation.AcceptedPassed | scripts/gates/check_kdbx_attestation.py:341-385 | an accepted head passed each hook its change needs, on everything or on the subset selected for the change |
| Attestation.MergesAttestedPaths | scripts/gates/check_kdbx_attestation.py:330-385 | an accepted change merges into a tree that reads, in each needed hook's scope, as the attested head does, even behind the base |
| Attestation.RecordedIsTrue | scripts/dev/attest_kdbx.py:345-421 | what an attesting run records is true of the tree it names and of no other |
| Attestation.StepKeepsValid | scripts/dev/attest_kdbx.py:345-421 | every step keeps all trailers in the history true |
| Attestation.TipStaysVouched | scripts/gates/check_kdbx_attestation.py:330-385 | over every run of commits, attestations and accepted merges, each hook has passed on some tree that agrees with the tip on the hook's whole scope |
| Attestation.SpacedPathIsMissed | scripts/gates/check_kdbx_attestation.py:171-174 | a change to a path with a space is accepted although a scope takes the path and nothing was attested |
| CacheLock.StepKeepsHeld | scripts/peachq.py:365-454 | every step of every process, and every crash, whatever they ask for, keeps each process's place inside its lock and what it knows there, and touches nothing of another entry |
| CacheRaces.ReturnedIsWhole | scripts/peachq.py:392-417 | in every interleaving a returned path names an entry with the requested manifest whose binary says it is PeachQ, if and only if requests with one entry name are one request |
| CacheLock.EntryChanges | scripts/peachq.py:392-454 | in every interleaving, whatever is asked for, a step leaves an entry as it is, or a process that found it not valid takes from it, or a whole build is put where nothing was; no crash or failed build leaves a trace |
| CacheLock.PublishTakesPlace | scripts/peachq.py:420-454 | in every interleaving, whatever is asked for, a process that comes to publish does, nothing being in its way, and the entry records what was asked for and whether it was pinned |
| CacheLock.NothingHalfPublished | scripts/peachq.py:420-454 | in every interleaving, whatever is asked for, each entry is one that was there at first or one whole build of something asked for, from the commit asked for, or what is left of it while it is discarded |
| CacheRaces.BuildsStayWhole | scripts/peachq.py:398-406 | no published build is found half discarded, if and only if requests with one entry name are one request |
| CacheRaces.PublishedOnce | scripts/peachq.py:398-401 | however many processes race, an entry is published at most once, if and only if requests with one entry name are one request |
| CacheRaces.ValidEntryStaysForGood | scripts/peachq.py:398-406 | a usable entry is never discarded, changed or published again, if and only if requests with one entry name are one request |
| CacheLock.OneRunInside | scripts/peachq.py:398-401 | in every interleaving, whatever is asked for, at most one process is inside the lock of an entry |
| CacheLock.LiveBuildsAreOwn | scripts/peachq.py:398-454 | in every interleaving, whatever is asked for, no step of another process, cleanup and crash included, removes or changes a build directory at work |
| CacheLock.SweepSparesLiveBuilds | scripts/peachq.py:404-406 | in every interleaving, whatever is asked for, a build directory that is swept belongs to no process still at work |
| Cache.NameStandsForOneBuild | scripts/peachq.py:179-193 | two requests with one entry name ask for one build if and only if they agree on repository and make target |
| CacheRaces.OthersEntryIsDiscarded | scripts/peachq.py:340-348 | for any two requests that share an entry name, a run from the empty directory returns the one's entry and then starts removing it, and another publishes the entry twice |
| CacheRun.Directory.Usable | scripts/peachq.py:340-348 | the check says whether the entry is valid, and is three steps of the protocol |
| CacheRun.Directory.SweepStale | scripts/peachq.py:404-406 | exactly the build directories of this entry go |
| CacheRun.Directory.BuildAndPublish | scripts/peachq.py:420-454 | the entry appears, whole, if and only if the right commit was fetched, built and identified; no build directory stays |
| CacheRun.Directory.Resolve | scripts/peachq.py:365-417 | one process alone returns a valid entry or leaves other entries and build directories alone, every statement being a step of the protocol |
| Graphs.OrderedIsAcyclic | scripts/gates/check_module_deps.py:245-269 | where an order puts every edge's end before its start, no walk closes |
| Graphs.AcyclicIsOrdered | scripts/gates/check_module_deps.py:245-269 | no walk closes if and only if some order puts every edge's end before its start |
| Graphs.PathSearch.Visit | scripts/gates/check_module_deps.py:252-262 | a visit finds a closed walk along real edges, or finishes the node and keeps the path and the order |
| Graphs.Cycle | scripts/gates/check_module_deps.py:245-269 | the result is a closed walk, and is empty if and only if the graph is acyclic, with a topological order to show it |
| Graphs.StackSearch.Visit | scripts/dev/split_frontend.py:532-543 | the same over one stack that each call pushes and pops |
| Graphs.CycleOf | scripts/dev/split_frontend.py:527-548 | the result is a closed walk, and is None if and only if the graph is acyclic |
| ModuleDeps.LoopIn | scripts/gates/check_module_deps.py:296-298 | one way round along the given edges is returned, and nothing exactly when there is none |
| ModuleDeps.CleanWhenNothingWrong | scripts/gates/check_module_deps.py:272-299 | the edges equal those allowed, are acyclic, unrefused and keep the foundation closed if and only if nothing can be said against them |
| ModuleDeps.Problems | scripts/gates/check_module_deps.py:272-299 | the gate reports everything wrong and nothing else, one cycle standing for all, and is silent if and only if the tree is clean |
| ModuleDeps.FoundationIsClosed | scripts/gates/check_module_deps.py:104-106 | in a clean tree no path of dependencies leaves the foundation |
| Placement.OneRound | scripts/dev/split_frontend.py:682-698 | one round's loop places the symbols as specified, and reports a change if and only if the placement it started from was not settled |
| Placement.SettleSymbols | scripts/dev/split_frontend.py:673-700 | the loop returns the first settled placement within the rounds allowed, and refuses if and only if there is none among them |
| Placement.ReturnedIsSettled | scripts/dev/split_frontend.py:676-698 | what is returned puts every symbol where the consumer rule puts it, and fixed ones where they were fixed |
| Placement.ReturnedSays | scripts/dev/split_frontend.py:673-700 | whatever the areas are called, what is returned has each fixed symbol where it was fixed and each other in `common` when a user is there or two are in different places, with its users when they are in one, and in `app` when there are none |
| Placement.AcyclicSettles | scripts/dev/split_frontend.py:682-700 | when the symbols not fixed use one another in no cycle, a settled placement comes within the rounds allowed |
| Placement.AcyclicHasOnePlacement | scripts/dev/split_frontend.py:673-700 | then there is only one settled placement, and it is the one returned |
| Placement.RingNeverSettles | scripts/dev/split_frontend.py:682-700 | three symbols that use each other for which no round is settled, though a settled placement exists |
| Routes.ChunksOf | scripts/dev/split_frontend.py:481-490 | the chunks spell exactly the lines they cover, each holding its statement, and fail if and only if statements overlap |
| Routes.InstallOrder | scripts/dev/split_frontend.py:769-779 | the order is accepted if and only if no area comes back, and installing the groups in it installs every moved statement once, in the order declared |
| Surfaces.ListReads | scripts/generate/contract_surface.py:215-220 | a list comes back from its cell if and only if no item holds a space and it is not one empty item |
| Surfaces.EntryReads | scripts/generate/contract_surface.py:319-335 | a function's row gives it back if and only if its blank cells are told apart by its rank |
| Surfaces.FunctionsRoundTrip | scripts/generate/contract_surface.py:223-243 | the functions come back if and only if no namespace is empty, each is in order, and each entry is well formed |
| Surfaces.TablesRoundTrip | scripts/generate/contract_surface.py:245-262 | the tables come back if and only if none is empty |
| Surfaces.ProcessesRoundTrip | scripts/generate/contract_surface.py:264-279 | the processes come back if and only if they are in order and their lists fit their cells |
| Surfaces.SurfaceRoundTrip | scripts/generate/contract_surface.py:223-368 | a surface is written and read back unchanged if and only if it is well formed and sorted |
| Surfaces.SortKeeps | scripts/generate/contract_surface.py:229 | sorting keeps every item, and those under one name in the order they came |
| SurfaceRows.WrittenInOrder | scripts/generate/contract_surface.py:223-286 | functions are written by namespace and name, processes and variables by name |
| SurfaceRows.RowsSay | scripts/generate/contract_surface.py:325-336 | any function rows are read if and only if each rank is blank or a number, and each namespace then holds its rows' entries in their order |
| SurfaceRows.ColumnsSay | scripts/generate/contract_surface.py:338-342 | any column rows give each table named the columns and types of its rows in their order |
| SurfaceRows.ProcessesSay | scripts/generate/contract_surface.py:344-353 | process rows are read as these processes if and only if each row's cells say so |
| SurfaceRows.TransportsSay | scripts/generate/contract_surface.py:356-358 | each transport row is read as it stands, the default one where its cell is `1` |
| Surfaces.ReadFunctionsFile | scripts/generate/contract_surface.py:325-336 | the loop over rows builds the functions as specified, or fails on a bad number |
| Surfaces.ReadTablesFile | scripts/generate/contract_surface.py:338-342 | the loop over rows collects each table's columns and types as specified |
| Surfaces.WriteFunctionsFile | scripts/generate/contract_surface.py:227-243 | the loops over namespaces and entries write the specified rows |
| IndexSays.FnIndexSays | scripts/generate/contract_surface.py:381-387 | under one full name the last function is the one compared |
| IndexSays.IndexBySays | scripts/generate/contract_surface.py:444-472 | of several processes or transports under one name the last is the one compared |
| SurfaceDiff.Compare | scripts/generate/contract_surface.py:444-472 | a name is listed if and only if one side alone has it or the two differ |
| SurfaceDiff.DiffSurfaces | scripts/generate/contract_surface.py:390-484 | every difference is reported and nothing else; between clear surfaces the report is empty if and only if the contracts are equal |
| SurfaceDiff.NothingDiffersWhenSame | scripts/generate/contract_surface.py:381-484 | for well-formed surfaces that name each thing once, nothing differs if and only if functions, tables, processes and variables are equal and the transports are the same |

## Left out

- The converter's report: findings, decisions, notes and wording. Only whether a file is refused and what is written are modelled.
- Choosing inputs, running q over the output, publishing a staging directory and the command line of the converter.
- q's evaluation: a name's meaning is what it denotes, and a lookup's is the level the scanner gives it.
- Python's Unicode tables: digits, letters and spaces beyond ASCII are arbitrary sets, so every result holds for any tables.
- Token indices: the scanner's model works on positions among code tokens, each carrying its index in the file.
- Levels.LoadTimeSafety: speaks of the calls the scanner records; a call it cannot see, such as one through a value, is not a recorded call.
- Meaning.FlatteningPreservesMeaning: takes the set of qSQL names that are columns as given, since no input says what a table's columns are.
- Projects.NestingThenFlatteningIsIdentity: speaks of flat projects, since only those have a nested form that could be flattened back to them, and of files whose nested form lexes back. Where something is left inside a block, or a block defines a qSQL word, only what the round trip needs is stated for a project; `Returning.FileReturns` is exact for each such file.
- Shards.SplitNearBest: weights are real numbers, so rounding of floats is not part of it.
- Reading `--shard I/N`, recording durations and merging records. A shard count of at least one is what that reader guarantees.
- Shards.SplitIgnoresListing: the median default counts a module as often as it is listed, so the statement is for one default weight.
- Git: renames are taken as a removal and an addition, a change has one merge base, quoting of unusual paths is not modelled, and a path both sides changed may merge into anything.
- Attestation.TipStaysVouched: hook scopes and the hook list do not change, no override label is used, and a line someone types by hand is taken to be copied from a real run.
- How the suites of a subset are selected: selection is any function of the hook, the merge base's tree and the head's tree.
- Whether git then takes the recording commit; a run that git refuses records nothing.
- The hooks themselves, their environment and their timing: a hook passes or does not.
- Reading the pin, platforms, prerequisites and the commit override of the cache; the log file; how fetching and building work.
- CacheRaces.ReturnedIsWhole: an entry's manifest, its executability and its answer are read truthfully, and nothing outside the protocol changes the directory.
- Build directories of one entry whose name extends another's: they are told apart by the entry they are for.
- ModuleDeps.Problems: edges, groups and duplicate definitions are given; problems are listed in the order the edges are given.
- Python's syntax trees, imports, the TypeScript parser, formatting and patches of the frontend split: statements, areas and users are given.
- SurfaceRows.RowsSay: a number is digits with or without a minus sign; the other spellings that Python's `int` takes are not modelled.
- Surfaces.SurfaceRoundTrip: files are rows of cells, so the csv module's quoting is not part of it, and numbers are read in the spelling they are written in.
- IndexSays.FnIndexSays: namespaces are taken in order of name, the order in which a written surface lists them; of two that give one full name, which takes a dot in a function's name, the code takes the one its own surface lists later.
- SurfaceDiff.DiffSurfaces: the wording and grouping of the report; a table whose columns and types do not pair up is reported like any other.
- Exporting a surface from q, the pipeline registry and the environment page.
