# Verified model of arkhe's retrieval engine, message splitter and concurrent protocols

The project models, in Dafny, the parts of the repository where an error is easy to make and hard to see, and proves what
they promise.

* **The Obsidian retrieval engine** (`rlm/obsidian_rag`). Markdown is cut into chunks (`Parser`), notes are cached and read
  back (`Models`, `VaultCache`, `VaultRefresh`), chunks get vectors (`Vectors`), a lexical index answers queries (`BM25`,
  `ScoreLaws`), a hypergraph of shared tags, folders and links is built (`Building`, `BuiltGraph`, `GraphLaws`, `HyperGraph`,
  `GraphIndex`) and activation spreads over it (`Spreading`, `SpreadLaws`); `Index`, `Retriever` and `RetrievalLaws` put the
  pieces together.
* **The message splitter** (`rlm/gateway/chunker.py`). Fenced code is replaced by placeholders (`Fences`, `Placeholders`),
  the text is cut on four levels (`Splitting`, `Levels`), and the code is put back (`Confusion`, `Restoring`, `Chunker`).
  `VerbatimCode` says when code arrives as it was written, `Fusion` when the words do, and `ChunkerCases` has messages for
  which they do not.
* **Concurrent protocols**, as state machines over the sections that run under a lock: the LLM request broker of a sandbox
  (`Broker`, `BrokerProtocol`), the life cycle of the daemon (`Daemon`, `DaemonProtocol`) and background compaction of a
  chat session (`Session`, `SessionProtocol`).
* **The rate limiter** of the Telegram gateway (`RateLimit`).

`Text`, `Packing`, `Sums`, `Sorting` and `Wrappers` hold what several of these use: the Python string operations and the view
of a text without its white space, filling chunks in order with as much as fits, sums over dictionaries of scores, and
Python's `sorted`.

What a method computes is a function here; what that function means is stated apart from it, in terms of its inputs alone:
see `Packing`, `Levels` and the modules whose names end in `Laws`.

Code that updates variables in loops or fields of objects is a method or a class here, proved against functions that say what
is computed; properties are lemmas about those functions. Where other threads can interfere, each uninterruptible piece of
code is one step of a state machine, and the results hold for every reachable state. Numbers that Python keeps as floats are
exact reals. `lower`, `log`, the tokeniser, the hash, embedders, the cosine and the parser of a whole note (for the cache)
are function parameters; what is assumed of them stands in the `requires` clauses. Iteration over a Python dictionary or set
whose order does not matter picks elements in any order.

Every induction is written out, and every lemma says `{:induction false}`: the hypothesis that Dafny 4.11 adds by itself assumes
that functions are defined on arguments of any type, which for some functions here is a contradiction.

## What the proofs found

The model follows the code. Where the code does less than its comments or documentation say, there is a lemma with a
concrete case and, where it makes sense, the exact condition under which the promise holds.

* `smart_chunk` says it never cuts fenced code. It counts a placeholder where the code will be, so a chunk that fits may not
  fit once the code is back; it is then split by words, and code with a line break in it is cut, even if the block alone
  would fit (`ChunkerCases.FittingCodeIsCut`). `VerbatimCode.BlockVerbatimExactlyWhen` says exactly which of these blocks
  survive.
* Worse, the code can be lost. The last resort, which cuts words longer than the limit, can cut a placeholder
  (`ChunkerCases.CodeCanBeLost`); and text between two placeholders can look like a third, without any NUL in the message
  (`ChunkerCases.PlaceholderConfused`). `Chunker.SmartChunk` has the exact condition for the whole of it,
  `Confusion.RestoresExactlyWhen` the one for the second.
* Separators are dropped when parts are grouped, so the last word of one line and the first of the next can become one word
  (`Fusion.LinesFuse`); `Fusion.WordsSurviveExactlyWhen` counts them, and `Fusion.SmartWordsExactlyWhen` says for which
  messages the words survive. Text is kept only up to white space.
* The session passes `preserve_last_n=0` to its compactor. In Python `x[:-0]` is empty, so the compactor finds nothing to
  summarise and returns the messages unchanged: `Session.SessionNeverCompacts`. No turn is ever compacted with this setting;
  `Session.SummaryExactlyWhen` says which settings work. The protocol below it is modelled for settings that do.
* The comment on pruning the session's turns says the slice is thread-safe. It is read and then stored; a turn that is appended
  between the two is lost (`SessionProtocol.PruneLosesTurn`). A reset while a compaction runs is not noticed by it
  (`SessionProtocol.ResetDuringCompaction`). `SessionProtocol.TurnsConserved` says exactly which steps do harm.
* A `stop` of the daemon that waits does not notice that another `stop` has finished and the daemon was started again; it then
  stops the new daemon (`DaemonProtocol.StaleStopper`, `DaemonProtocol.StopsReadyDaemon`).
* The rate limiter reads the clock before it takes its lock. Calls that overtake each other there break the bound
  (`RateLimit.OutOfOrderBreaksBound`); `RateLimit.LagBound` says what is left of it.
* The broker's poller gives up on a request after a time-out although it may still arrive
  (`BrokerProtocol.HandledTwiceNoneLost`); the bound on double handling therefore counts answers that had not arrived yet, not
  only answers that were lost.
* A cached note is trusted when its modification time matches: an edit that keeps the time, or another `max_chunk_chars`, is not
  noticed (`VaultRefresh.SameTimeIsStale`, `VaultRefresh.OtherLimitIsStale`). `VaultRefresh.QuietRefreshExactlyWhen` has the exact
  condition.

## Model

| member | source | states |
|---|---|---|
| Chunker.SmartChunk | rlm/gateway/chunker.py:39-101 | the list is never empty and every chunk has at most `max_chars` characters when `max_chars >= 1`; fence-free text survives up to white space on all four levels; every text without NULs survives up to white space if and only if no forced cut falls inside a placeholder and no placeholder is confused; the chunks of a long text are made from a split of the protected text that fits |
| Chunker.SmartKeeps | rlm/gateway/chunker.py:39-101 | the same of the function `Smart` that the method computes: at least one chunk, each within the bound, and nothing but white space lost exactly under that condition |
| Chunker.OrdinaryClear | rlm/gateway/chunker.py:61-68 | a text whose letters never spell the placeholder name is never confused when no placeholder is cut, so for it the cuts alone decide |
| VerbatimCode.BlockVerbatimExactlyWhen | rlm/gateway/chunker.py:39-101 | in every long text without NULs, a fenced block with a line break (or any white space but single blanks) is sent verbatim if and only if some chunk of the split that has it in it, once restored, still fits the limit |
| VerbatimCode.VerbatimExactlyWhen | rlm/gateway/chunker.py:93-99 | the final pass leaves such code verbatim if and only if it is in a restored chunk that fits: whatever is split again by words has no white space left but single blanks |
| Chunker.BlockVerbatim | rlm/gateway/chunker.py:59-101 | when no placeholder is cut or confused, each fenced block has its placeholder in a chunk of the split, and each chunk that has it contains the block, verbatim, once restored, and is sent as it is if it then fits |
| Chunker.SplitTextKeeps | rlm/gateway/chunker.py:71-80 | whichever of the four levels is used (by `SplitProtected`), only white space is lost, every chunk fits, and the placeholders are all whole if and only if the forced cuts of long words avoid them |
| Chunker.RestoreAll | rlm/gateway/chunker.py:83-89 | the restored list: every block put back in order of number, stripped, blank chunks dropped |
| Chunker.FitAll | rlm/gateway/chunker.py:93-99 | the final pass keeps the text up to white space, bounds every chunk, keeps every chunk that fitted and changes nothing if all did |
| Chunker.RestoreClean | rlm/gateway/chunker.py:83-89 | chunks in which every placeholder is whole and none is confused restore to the whole text up to white space, with each fenced block verbatim in one of them |
| Chunker.RestoreBroken | rlm/gateway/chunker.py:83-89 | one placeholder that is cut or confused and the restored chunks are not the text |
| Chunker.RestoreFenceFree | rlm/gateway/chunker.py:59-89 | without fenced code, protecting and restoring changes nothing but white space |
| ChunkerCases.CodeCanBeLost | rlm/gateway/chunker.py:158-162 | a ten-character fenced block at `max_chars` 5: the placeholder itself is cut and the code is lost |
| ChunkerCases.FittingCodeIsCut | rlm/gateway/chunker.py:93-99 | a fenced block of 15 characters at `max_chars` 20: no placeholder is cut or confused and no text is lost, and still the block is not sent verbatim |
| ChunkerCases.OneChunkCutsCode | rlm/gateway/chunker.py:93-99 | so it is with every long ordinary message that is one chunk as long as its code is away: each block with a line break is cut |
| ChunkerCases.PlaceholderConfused | rlm/gateway/chunker.py:86-88 | a text without any NUL that spells the name and number of a block between two others loses code although nothing is cut |
| Confusion.RestoresExactlyWhen | rlm/gateway/chunker.py:83-86 | putting the blocks back one after the other gives every placeholder its own code if and only if no placeholder is followed by the name and a smaller number, as plain text, and then by a placeholder that is still there; otherwise a NUL is left over |
| Confusion.RestoreFills | rlm/gateway/chunker.py:85-86 | as long as none of the blocks put back so far is confused, replacing on characters is the same as filling the tokens, each with its own code |
| Fusion.SmartWordsExactlyWhen | rlm/gateway/chunker.py:39-101 | for every long text without fenced code the words of the chunks are the words of the text if and only if, at the level that is used, no two words are joined, or, at the last level, no word is longer than a chunk |
| Fusion.WordsSurviveExactlyWhen | rlm/gateway/chunker.py:113-138 | the words of the chunks are those of the text less one for each fusion, so they survive a split if and only if no part is joined to a buffer with no white space between two words |
| Fusion.ByWordsExactlyWhen | rlm/gateway/chunker.py:141-169 | the last level keeps the words if and only if none is longer than a chunk |
| Fusion.LinesFuse | rlm/gateway/chunker.py:130-133 | two short lines become one word |
| Fences.NextTicksFirst | rlm/gateway/chunker.py:68 | a fenced block ends at the first closing back-ticks |
| Fences.NextFence | rlm/gateway/chunker.py:63-68 | three back-ticks and the next three that do not overlap them make the next block, and the text before it stays as it is |
| Fences.NoFenceLeft | rlm/gateway/chunker.py:68 | where no such pair is left there is no further block, and the text stays |
| Fences.ShieldFills | rlm/gateway/chunker.py:59-68 | filling the placeholders of the protected text with the blocks gives the original text back |
| Fences.ShieldNumbers | rlm/gateway/chunker.py:63-68 | the protected text has exactly one placeholder for each block, numbered in the order of the blocks |
| Fences.ShieldBlocks | rlm/gateway/chunker.py:63-68 | each block has its placeholder in the protected text, and there are no others |
| Fences.ShieldApart | rlm/gateway/chunker.py:61 | if the erased text does not contain the placeholder name, no placeholder is followed by it |
| Placeholders.RestoreParity | rlm/gateway/chunker.py:86-88 | replacement never repairs a cut placeholder: the number of NULs stays odd |
| Placeholders.RenderInjective | rlm/gateway/chunker.py:61 | a protected text can be read in only one way as characters and placeholders |
| Placeholders.Cut | rlm/gateway/chunker.py:159-161 | a cut anywhere leaves two whole texts or an odd number of NULs on its left, and never splits a placeholder just before white space |
| Splitting.SplitByPattern | rlm/gateway/chunker.py:104-138 | `None` exactly when there is one part, only white space, or a part over the limit; otherwise the parts, neighbours grouped while they fit |
| Splitting.PatternKeeps | rlm/gateway/chunker.py:104-138 | a level that is used loses only white space, every chunk fits, no placeholder is cut, and no word could have been cut |
| Splitting.GroupsKeep | rlm/gateway/chunker.py:117-138 | grouping parts that fit keeps them up to white space, and the bound, and every placeholder; there is no chunk exactly when there is no text |
| Splitting.ByWordsKeeps | rlm/gateway/chunker.py:141-169 | the last level: non-empty, bounded, loses only white space, and cuts a placeholder if and only if a long word has one across a cut |
| Splitting.WordsGrouped | rlm/gateway/chunker.py:146-167 | the chunks of the word loop, white space aside, are the words in order; they fit, and a placeholder in them is cut if and only if a forced cut does it |
| Levels.WordsPacked | rlm/gateway/chunker.py:146-167 | the chunks of the word loop are the words in order with blanks between, and a chunk, a blank and the first word of the next chunk are longer than the limit; only a word longer than the limit is cut |
| Levels.NeighboursFull | rlm/gateway/chunker.py:141-169 | of two neighbouring chunks of any text, the first, a blank and the first word of the second exceed the limit, unless one of the two is a piece of a word that had to be cut |
| Levels.FewestChunks | rlm/gateway/chunker.py:146-167 | no other way of putting the words into chunks in order makes fewer |
| Levels.GroupsPacked | rlm/gateway/chunker.py:117-136 | the groups are the parts in order, and a group and the first part of the next one exceed the limit together |
| Levels.FewestGroups | rlm/gateway/chunker.py:117-136 | no other division of the parts into groups that fit has fewer |
| Levels.PartStays | rlm/gateway/chunker.py:70-80 | in a message without fenced code, what lies between two headings stays together in one chunk if all such sections fit; failing that a paragraph, if all paragraphs fit; failing that a line |
| Levels.SmartFewest | rlm/gateway/chunker.py:39-101 | a long message without fenced code for which only the last level will do is sent in as few chunks as its words can be |
| Levels.HeadingsApart | rlm/gateway/chunker.py:71 | a text is split at each line break before one to three `#` and white space, and only the line break is dropped |
| Levels.NoHeadings | rlm/gateway/chunker.py:71 | without one it stays whole |
| Levels.ParagraphsApart | rlm/gateway/chunker.py:74 | it is split at each run of two line breaks or more |
| Levels.LinesApart | rlm/gateway/chunker.py:77 | it is split at each line break |
| Packing.PackedFewest | rlm/gateway/chunker.py:128-164 | filling in order as long as it fits needs no more chunks than any other division |
| Packing.PackedUnique | rlm/gateway/chunker.py:128-164 | there is only one such packing, so the rule decides every chunk |
| Packing.HardPiecesFit | rlm/gateway/chunker.py:158-162 | the pieces of a long word joined are the word, each is within the bound, and there are at least two |
| Packing.HardPiecesFull | rlm/gateway/chunker.py:158-162 | all pieces but the last have exactly the length of the bound |
| Splitting.HardPiecesJudged | rlm/gateway/chunker.py:158-162 | they are all whole if and only if the cuts fall outside placeholders, and otherwise one is broken for good |
| Splitting.PiecesErase | rlm/gateway/chunker.py:113 | splitting at a markdown separator loses only white space |
| Splitting.PiecesWhole | rlm/gateway/chunker.py:113 | splitting at a separator cuts no placeholder |
| Splitting.WordsFitParts | rlm/gateway/chunker.py:120-126 | when the parts fit the limit so do all words, so no forced cut can follow |
| Parser.ChunkBody | rlm/obsidian_rag/parser.py:152-173 | chunks in order are non-empty, stripped, at most `max_chunk_chars` long, carry ids `path#i`, and each non-blank character of the body appears once, in order, in a chunk that starts at the line of its own section; section by section the chunks are the stripped pieces of that section, with its heading and line |
| Parser.ParagraphInChunk | rlm/obsidian_rag/parser.py:126-173 | a paragraph that fits lies whole, but for white space around it, in a chunk that carries the heading and line of its section |
| Parser.IterSections | rlm/obsidian_rag/parser.py:98-123 | the scan yields exactly the sections between headings outside fenced code, blank ones dropped |
| Parser.SectionsExactly | rlm/obsidian_rag/parser.py:98-123 | a section is yielded if and only if it is the lines from the start or a heading outside fenced code up to the next such heading or the end, joined and stripped, and not blank, with its first line and the heading in force there |
| Parser.HeadingAtExactly | rlm/obsidian_rag/parser.py:107-117 | a line is such a heading if and only if an even number of fences comes before it and it is one to six `#` and then white space |
| Parser.SplitLong | rlm/obsidian_rag/parser.py:126-149 | the loop over the paragraphs computes exactly the pieces that the next rows speak of |
| Parser.SplitKeeps | rlm/obsidian_rag/parser.py:126-149 | the pieces have at most `max_chars` characters and lose only white space |
| Parser.SplitPacked | rlm/obsidian_rag/parser.py:126-149 | the pieces of a long text are its non-blank paragraphs in order, as many to a piece as fit: a piece, two line breaks and the first paragraph of the next exceed the limit; only a paragraph longer than the limit is cut, into slices of exactly the limit and a rest |
| Parser.ParagraphWhole | rlm/obsidian_rag/parser.py:132-146 | a paragraph that fits is never cut: it lies whole in one piece |
| Parser.ParagraphsJoin | rlm/obsidian_rag/parser.py:132 | the paragraphs joined by two line breaks are the text, and none has two line breaks in it |
| Parser.LinesJoin | rlm/obsidian_rag/parser.py:103 | the lines joined by line breaks are the text, and none has one in it |
| Parser.HeadingLine | rlm/obsidian_rag/parser.py:113-117 | a heading is one to six `#` and white space, and its text is the rest of the line, stripped |
| Parser.FenceLine | rlm/obsidian_rag/parser.py:109-112 | three back-ticks or tildes after white space are a fence |
| Parser.FenceShape | rlm/obsidian_rag/parser.py:109-112 | and nothing else is |
| Parser.InFenceOdd | rlm/obsidian_rag/parser.py:107-113 | a line lies in fenced code exactly when an odd number of fences comes before it |
| Parser.SectionsAnchored | rlm/obsidian_rag/parser.py:98-123 | every section carries the heading in force at its first line |
| Parser.SectionsOrdered | rlm/obsidian_rag/parser.py:98-123 | sections come in order of their lines |
| Parser.SectionsErase | rlm/obsidian_rag/parser.py:98-123 | the sections together hold the whole body up to white space |
| Parser.HeadingInForceIsLast | rlm/obsidian_rag/parser.py:113-120 | the heading in force is the last heading outside fenced code at or before the line |
| Parser.NoHeadingInForce | rlm/obsidian_rag/parser.py:100-120 | before the first heading the heading in force is empty |
| Parser.GoodChunksPlaced | rlm/obsidian_rag/parser.py:159-171 | chunks of a body know their index and path, which is what the cache relies on |
| Models.NoteRoundTrip | rlm/obsidian_rag/models.py:67-108 | `from_dict(to_dict(n))` is `n` if and only if every chunk carries its own path and position |
| Models.NoteReadBack | rlm/obsidian_rag/models.py:83-108 | reading back restores every stored field and rebuilds path and index of each chunk |
| Models.ChunkIdInjective | rlm/obsidian_rag/models.py:24 | equal chunk ids have equal path and number, even when paths contain `#` and digits |
| Text.DecimalValue | rlm/obsidian_rag/models.py:24 | the number in an id is written in decimal without needless zeros |
| Models.ApproxTokensIs | rlm/obsidian_rag/models.py:15-17 | four characters a token, rounded down, at least one |
| Models.ChunkIdsDistinct | rlm/obsidian_rag/index.py:64 | over notes with distinct paths all chunk ids are distinct |
| Models.ByIdKeepsAll | rlm/obsidian_rag/index.py:64 | the dictionary by chunk id then drops no chunk |
| BM25.BM25Index.Build | rlm/obsidian_rag/bm25.py:31-51 | the fields afterwards are the postings, lengths, average and idf of exactly this collection |
| BM25.BM25Index.Search | rlm/obsidian_rag/bm25.py:53-70 | the hits are the first `top_k` of a ranking of the naive scores, which are defined without any index |
| BM25.BM25Index.ScoreTerms | rlm/obsidian_rag/bm25.py:58-68 | accumulating over postings gives every document its naive score, in whatever order the query terms come |
| BM25.PostingsExact | rlm/obsidian_rag/bm25.py:35-44 | postings of a term list every document that contains it once, in increasing order, with its exact count, and the document frequency is their number |
| BM25.FrequenciesTotal | rlm/obsidian_rag/bm25.py:38-44 | all posting frequencies together are the sum of the document lengths |
| BM25.IdfArgumentAboveOne | rlm/obsidian_rag/bm25.py:51 | the argument of every logarithm exceeds 1 |
| BM25.ScorePositive | rlm/obsidian_rag/bm25.py:58-68 | every document that shares a term with the query has a positive score |
| BM25.TopHitsBest | rlm/obsidian_rag/bm25.py:69-70 | no omitted document scores higher than a returned one |
| Sorting.HeadIs | rlm/obsidian_rag/bm25.py:69 | a slice `[:k]` is the first `k` elements, or all, or for a negative `k` all but the last `-k` |
| ScoreLaws.IdfIs | rlm/obsidian_rag/bm25.py:51 | the argument of the logarithm is `(n + 1) / (d + 0.5)` for `n` documents of which `d` hold the term |
| ScoreLaws.RarerCountsMore | rlm/obsidian_rag/bm25.py:51 | the rarer a term the larger it is |
| ScoreLaws.WeightIs | rlm/obsidian_rag/bm25.py:65-68 | the weight of a term times `freq + k1 * (1 - b + b * dl / avgdl)` is its idf times `freq * (k1 + 1)` |
| ScoreLaws.WeightGrows | rlm/obsidian_rag/bm25.py:65-68 | a term weighs more the oftener it occurs and the shorter the document, strictly so under the usual parameters |
| ScoreLaws.WeightBounded | rlm/obsidian_rag/bm25.py:65-68 | it never weighs more than `k1 + 1` times its idf |
| ScoreLaws.AverageWeighsIdf | rlm/obsidian_rag/bm25.py:65-68 | once in a document of average length it weighs exactly its idf |
| ScoreLaws.BetterMatch | rlm/obsidian_rag/bm25.py:58-68 | a document that is no longer and holds every query term at least as often scores at least as high |
| ScoreLaws.RarerTermWins | rlm/obsidian_rag/bm25.py:51-68 | of two documents of one length that differ in one query term of equal frequency, the one with the rarer term scores higher |
| GraphIndex.Graph.constructor | rlm/obsidian_rag/hypergraph.py:113-118 | the node index lists, for each note, its edges in order, once for each membership |
| GraphIndex.Graph.NeighborsOf | rlm/obsidian_rag/hypergraph.py:124-134 | the loop computes the pointwise sum of the shares of all incident edges |
| GraphIndex.Graph.Expand | rlm/obsidian_rag/hypergraph.py:136-168 | the frontiers form a run (seeds first, each next one the strongest part of what the last pushes out) and the result is the sum of the pushes; stopping early changes nothing |
| GraphIndex.Graph.Hop | rlm/obsidian_rag/hypergraph.py:156-161 | one pass over a frontier adds what it pushes out, whatever the order of the pass |
| GraphIndex.Graph.Truncate | rlm/obsidian_rag/hypergraph.py:165-167 | the kept entries are the strongest `max_neighbors`, with their values |
| HyperGraph.NeighborsAre | rlm/obsidian_rag/hypergraph.py:124-134 | a note is a neighbour exactly when it shares an edge; its weight is given in closed form over the edges |
| HyperGraph.NeighborsSymmetric | rlm/obsidian_rag/hypergraph.py:124-134 | neighbour weights are symmetric |
| HyperGraph.FlowConserved | rlm/obsidian_rag/hypergraph.py:124-134 | with distinct members, neighbour weights of a note sum to the weight of its edges that hold another note |
| SpreadLaws.SharedEdgeAdds | rlm/obsidian_rag/hypergraph.py:128-133 | each edge that holds two notes adds its weight, divided by the number of its other members, to the weight between them |
| Spreading.NoSeedActivated | rlm/obsidian_rag/hypergraph.py:157-158 | no seed is ever activated |
| Spreading.RunKeys | rlm/obsidian_rag/hypergraph.py:151-168 | truncation only ever activates notes that the full spreading activates |
| Spreading.RunExact | rlm/obsidian_rag/hypergraph.py:165-167 | when no frontier exceeds the limit, the result is the full spreading |
| Spreading.RunBelow | rlm/obsidian_rag/hypergraph.py:165-167 | truncation never increases any activation |
| Spreading.RunBound | rlm/obsidian_rag/hypergraph.py:136-168 | total activation is at most the geometric sum of the seed total at rate decay times the largest weighted degree, whatever is cut off |
| Spreading.ActivationReaches | rlm/obsidian_rag/hypergraph.py:151-168 | full spreading activates exactly the notes within `hops` steps of a seed through notes that are not seeds |
| SpreadLaws.HopValue | rlm/obsidian_rag/hypergraph.py:154-161 | one hop gives a note that is no seed exactly `decay` times the sum over its neighbours in the frontier of their activation times the weight between the two |
| SpreadLaws.HopConserves | rlm/obsidian_rag/hypergraph.py:154-161 | if no neighbour is a seed, all that arrives in one hop is what the notes of the frontier gave away |
| SpreadLaws.GivenAwayIs | rlm/obsidian_rag/hypergraph.py:159 | what a note gives away is its activation times its weighted degree times `decay` |
| SpreadLaws.OneSourceHop | rlm/obsidian_rag/hypergraph.py:155-160 | from a single note each neighbour that is no seed gets its activation times the weight between the two times `decay` |
| SpreadLaws.GeometricSumIs | rlm/obsidian_rag/hypergraph.py:151-168 | the geometric sum of the bound in closed form |
| Building.BuildResolver | rlm/obsidian_rag/hypergraph.py:31-45 | a name resolves exactly when some note answers to it, and then to the least path among those |
| Sorting.StrLeExactly | rlm/obsidian_rag/hypergraph.py:39 | a path comes before another if it is a prefix of it or has the smaller character where they first differ |
| Building.Build | rlm/obsidian_rag/hypergraph.py:48-107 | the edges are those of the shared tags, then the folders, then the links that the resolver of exactly these notes gives |
| BuiltGraph.TagsDistinct | rlm/obsidian_rag/parser.py:75-85 | the tags of a note are the non-empty tags found, each once, in order |
| BuiltGraph.TagEdgeJoins | rlm/obsidian_rag/hypergraph.py:54-71 | a tag edge joins exactly the notes with its tag, sorted, each once, at weight 0.6 |
| BuiltGraph.TagHasEdge | rlm/obsidian_rag/hypergraph.py:54-71 | a tag has an edge if and only if it is no stop tag and two notes carry it |
| BuiltGraph.OneEdgePerTag | rlm/obsidian_rag/hypergraph.py:60-71 | no tag has two edges |
| BuiltGraph.FolderExactly | rlm/obsidian_rag/models.py:57-60 | the folder of a path is `f` exactly when the path is `f`, a slash and a name without one, or `f` is empty and the path has no slash |
| BuiltGraph.FolderEdgeJoins | rlm/obsidian_rag/hypergraph.py:73-87 | a folder edge joins at weight 0.3 exactly the notes whose paths are one folder, a slash and a name, or, for the root, those without a slash |
| BuiltGraph.FolderHasEdge | rlm/obsidian_rag/hypergraph.py:73-87 | every folder with two such notes has its edge |
| BuiltGraph.LinkEdgesAre | rlm/obsidian_rag/hypergraph.py:89-105 | the link edges are exactly those of the notes whose links resolve to other notes |
| BuiltGraph.LinkEdgeJoins | rlm/obsidian_rag/hypergraph.py:89-105 | the link edge of a note joins it with all other notes its links resolve to, at weight 1 |
| BuiltGraph.LinkHasEdge | rlm/obsidian_rag/hypergraph.py:89-105 | every note that links to another note has its edge |
| BuiltGraph.BuiltSound | rlm/obsidian_rag/hypergraph.py:48-107 | every edge of what `build_hypergraph` makes of notes with distinct paths and distinct tags has at least two distinct members, all of them notes, and a positive weight |
| BuiltGraph.BuiltFlow | rlm/obsidian_rag/hypergraph.py:48-134 | in such a graph the neighbour weights of a note sum to the weight of all its edges |
| BuiltGraph.LeastIsNote | rlm/obsidian_rag/hypergraph.py:31-45 | what a name resolves to is a note |
| BuiltGraph.GraphDegree | rlm/obsidian_rag/hypergraph.py:124-134 | in it no path has a weighted degree above that of the heaviest note |
| GraphLaws.NamesOfFile | rlm/obsidian_rag/hypergraph.py:39-44 | the note `folder/name.md` answers to `folder/name`, `name` and its title, in lower case, and to nothing else |
| GraphLaws.NamesInRoot | rlm/obsidian_rag/hypergraph.py:39-44 | the note `name.md` answers to `name` and its title |
| GraphLaws.FolderMates | rlm/obsidian_rag/hypergraph.py:73-87 | two notes of one folder are joined with all others of that folder at 0.3 in whatever graph is built |
| GraphLaws.TagMates | rlm/obsidian_rag/hypergraph.py:54-71 | two notes with one tag are joined with all others that carry it at 0.6, unless its lower case is one of the six stop tags |
| GraphLaws.LinkMates | rlm/obsidian_rag/hypergraph.py:89-105 | a note is joined at 1 with exactly the notes its links mean: for each link the first note by path that answers to its lower case, other than the note itself |
| GraphLaws.EveryEdgeExplained | rlm/obsidian_rag/hypergraph.py:48-107 | there are no other edges |
| GraphLaws.NeighborsExactlyWhen | rlm/obsidian_rag/hypergraph.py:48-134 | two notes are neighbours in the graph built from the notes if and only if a folder, a tag or the links of a note bring them together |
| VaultCache.Choose | rlm/obsidian_rag/index.py:118-125 | the loop keeps the cached notes whose time matches and reads the other files, in order |
| VaultCache.ReadAgainExactly | rlm/obsidian_rag/index.py:120-125 | a file is read again if and only if the cache has no note of it or its time has moved by a microsecond or more |
| VaultCache.KeptExactly | rlm/obsidian_rag/index.py:120-123 | a cached note is kept if and only if its file is there with a time less than a microsecond away |
| VaultCache.NothingCached | rlm/obsidian_rag/index.py:114-125 | without a cache every file is read, in order |
| VaultCache.LoadsAllOrNothing | rlm/obsidian_rag/index.py:221-232 | another version of the cache, or one note in it without a required key, and nothing is loaded; otherwise all of it |
| VaultCache.FreshTimeIs | rlm/obsidian_rag/index.py:122 | a fresh time is one that differs from all earlier times of the path by a microsecond or more |
| VaultCache.SaveLoad | rlm/obsidian_rag/index.py:221-232 | what is saved is loaded again |
| VaultCache.StepKeeps | rlm/obsidian_rag/index.py:106-134 | every step of a refresh and every change of the disk keeps the invariant: a note in hand or in the cache whose time is that of the file is the parse of the file |
| VaultCache.WorkerReadKeeps | rlm/obsidian_rag/reader.py:48-57 | an edit between the time a worker looks and the time it reads does no harm |
| VaultRefresh.QuietRefreshExactlyWhen | rlm/obsidian_rag/index.py:91-134 | in every run, whatever edits and limits came before, a refresh during which nothing changes holds the parse of the current disk if and only if each note it found in the cache with the time of its file is the parse of that file |
| VaultRefresh.QuietRefreshIsFullRead | rlm/obsidian_rag/index.py:91-134 | after any run of edits with fresh times, deletions and refreshes with one limit, a refresh during which nothing changes holds, path by path, the parse of the current disk, each file once |
| VaultRefresh.BusyRefreshIsSound | rlm/obsidian_rag/index.py:127-134 | even when files change meanwhile, a note whose time is that of its file is its parse |
| VaultRefresh.NothingReadAgain | rlm/obsidian_rag/index.py:118-125 | with a full read in the cache no file is read again |
| VaultRefresh.NoChunkDropped | rlm/obsidian_rag/index.py:64 | after every refresh of every run each chunk is found under its own id |
| VaultRefresh.SameTimeIsStale | rlm/obsidian_rag/index.py:122 | an edit that keeps the modification time leaves the old text in a quiet refresh |
| VaultRefresh.OtherLimitIsStale | rlm/obsidian_rag/index.py:118-127 | a refresh with another `max_chunk_chars` keeps chunks cut to the old limit |
| Vectors.VectorIndex.EnsureVectors | rlm/obsidian_rag/index.py:165-201 | the vectors come from the cache completed by one embedding for each live hash that was missing; the file is rewritten only then |
| Vectors.RightExactlyWhen | rlm/obsidian_rag/index.py:172-200 | every live chunk gets a vector, and all are those of their own text if and only if no hash is shared by texts with different vectors |
| Vectors.EveryCallIsRight | rlm/obsidian_rag/index.py:165-201 | whatever vault states, embedders, losses and damage came before, each call gives exactly the live chunks the vectors of their texts, for a hash that separates |
| Vectors.NamesKeptApart | rlm/obsidian_rag/index.py:45-46 | after a call for one embedder the cache holds for any other what it held before, or nothing if the two share a file that was rewritten; never the wrong vectors |
| Vectors.SafeNameIs | rlm/obsidian_rag/index.py:45-46 | letters, digits, `_`, `.` and `-` of an embedder's name stay, every other character becomes `_` |
| Index.VaultIndex.constructor | rlm/obsidian_rag/index.py:77-88 | the index of a list of notes holds the lexical index of all its chunks and the hypergraph of its notes, which is sound if the notes are well-formed |
| Index.BuiltIsParsed | rlm/obsidian_rag/index.py:91-134 | in every run, whatever happens on the disk and in the cache, the notes a refresh ends with have distinct paths, chunks that know their place and id, and no tag twice: they are what the index and `Retrieve` ask for |
| Index.ParsedHomed | rlm/obsidian_rag/index.py:63-64 | every indexed chunk is a chunk of the indexed note it names |
| Retriever.SemanticHitsRight | rlm/obsidian_rag/retriever.py:31-44 | with the vectors `ensure_vectors` promises, every semantic hit carries the similarity of the query and the text of its own chunk, and a similar chunk that is left out is no more similar than any of a full list of hits |
| Retriever.Retrieve | rlm/obsidian_rag/retriever.py:53-162 | the call is its four stages: lexical hits, semantic hits, spreading from their notes, and a pack assembled from the ranking of the combined scores, with the first picks of each note that fit |
| RetrievalLaws.MatchingNoteShown | rlm/obsidian_rag/retriever.py:53-162 | from query to pack, for `chunks_per_note` at least 1: a note with a chunk that shares a token with the query is in the pack, unless the pool of hits is full or the pack is full of notes that score no less |
| RetrievalLaws.MatchingNoteFound | rlm/obsidian_rag/retriever.py:76-90 | such a note has a positive lexical signal, unless the pool of hits is full |
| RetrievalLaws.FoundNoteMatches | rlm/obsidian_rag/retriever.py:76-90 | only such notes have a lexical signal |
| RetrievalLaws.ScoreIs | rlm/obsidian_rag/retriever.py:114-123 | the score of every note of the pack is the sum of its lexical, semantic and graph signals, each times its own weight |
| RetrievalLaws.OneSignalScore | rlm/obsidian_rag/retriever.py:117-121 | a note that one signal alone has found scores that signal times its weight |
| RetrievalLaws.StrongerLexical | rlm/obsidian_rag/retriever.py:117-121 | a lexical signal that is stronger by `x` raises the score of its note by the lexical weight times `x`, and no other score |
| RetrievalLaws.StrongerSemantic | rlm/obsidian_rag/retriever.py:117-121 | so it is with the semantic signal and its weight |
| RetrievalLaws.StrongerGraph | rlm/obsidian_rag/retriever.py:117-121 | and with the graph signal and its weight |
| RetrievalLaws.SeedsAre | rlm/obsidian_rag/retriever.py:109-111 | every note with a lexical or a semantic signal is a seed, with the better of the two |
| RetrievalLaws.OneHopSignal | rlm/obsidian_rag/retriever.py:109-112 | with one hop, the graph signal of a note that is no seed is half the sum over the seeds next to it of their scores times the weight between the two |
| RetrievalLaws.GraphExact | rlm/obsidian_rag/retriever.py:112 | as long as no hop activates more than 64 notes, the graph signal is the full spreading at decay one half |
| RetrievalLaws.HitsOfAre | rlm/obsidian_rag/retriever.py:81-88 | the hits filed under a note are those on its chunks |
| RetrievalLaws.ShowsWhatFits | rlm/obsidian_rag/retriever.py:138-145 | a note shows everything picked for it, or the next chunk would have gone over the budget |
| Retriever.ShowsBest | rlm/obsidian_rag/retriever.py:133-141 | each note of the pack shows its best-scoring chunks, best first, each with its best score, or its opening if nothing in it was found |
| Retriever.Aggregate | rlm/obsidian_rag/retriever.py:82-88 | each note gets the best score of its chunks, and its hits are filed in order |
| Retriever.PeaksAre | rlm/obsidian_rag/retriever.py:87 | the score of a note is an upper bound of its hits and one of them, or 0 |
| Retriever.NormalizedRange | rlm/obsidian_rag/retriever.py:46-50 | normalised scores lie between 0 and 1, and the best positive one is 1 |
| RetrievalLaws.NormalizedShares | rlm/obsidian_rag/retriever.py:46-50 | a normalised score times the best score is the score |
| RetrievalLaws.NormalizedInOrder | rlm/obsidian_rag/retriever.py:46-50 | normalised scores stand to each other as the scores do |
| Retriever.PackIsFair | rlm/obsidian_rag/retriever.py:125-162 | at most `top_notes` different notes, best first, each with 1 to `chunks_per_note` distinct chunks of its own |
| Retriever.PackInBudget | rlm/obsidian_rag/retriever.py:127-147 | all chunk characters together stay below `max_chars` plus the longest chunk |
| Retriever.SplitterBound | rlm/obsidian_rag/parser.py:152-173 | with the bound of `chunk_body`, that is `max_chars + max_chunk_chars` |
| Retriever.GraphScoreAlone | rlm/obsidian_rag/retriever.py:109-123 | a note with a graph score has no lexical and no semantic score, and scores its graph signal times the graph weight |
| Retriever.LeftOut | rlm/obsidian_rag/retriever.py:128-162 | a candidate is left out only if it has nothing to show, or the pack is full of notes that score no less |
| Retriever.GraphBounded | rlm/obsidian_rag/retriever.py:112 | all graph scores together are bounded by the geometric sum over the hops |
| Retriever.VaultGraphBounded | rlm/obsidian_rag/retriever.py:112 | for an index with the sound graph that its constructor gives to well-formed notes, and any query: the bound holds at rate one half of the largest weight of any note's edges |
| Retriever.SignalRange | rlm/obsidian_rag/retriever.py:82-105 | lexical and semantic signals lie between 0 and 1 |
| Retriever.PicksOwn | rlm/obsidian_rag/retriever.py:184-206 | the picked chunks are distinct chunks of the note, as many as the limit lets through |
| Broker.BrokerServer.Enqueue | rlm/environments/modal_repl.py:60-65 | from then on the poller is handed the call with its own request until it is answered, the call itself would time out, and every other call keeps its request and response |
| Broker.BrokerServer.TakeOut | rlm/environments/modal_repl.py:70-76 | removes the call and returns its response, or a time-out |
| Broker.BrokerServer.GetPending | rlm/environments/modal_repl.py:79-88 | lists exactly the unanswered calls, each once |
| Broker.BrokerServer.Respond | rlm/environments/modal_repl.py:90-102 | if the call is still there it will return this response and is not listed again, and all other calls stay as they were; otherwise nothing changes |
| BrokerProtocol.StepKeeps | rlm/environments/modal_repl.py:54-102 | every step of the broker, the network and the poller keeps the invariant |
| BrokerProtocol.AnswersAreOwn | rlm/environments/modal_repl.py:54-77 | in every interleaving a returned answer was computed from the own request, and a call times out exactly when no answer reached it |
| BrokerProtocol.PendingAreOpen | rlm/environments/modal_repl.py:60-71 | the pending dictionary holds exactly the calls that have not returned |
| BrokerProtocol.LateAnswerIgnored | rlm/environments/modal_repl.py:97-102 | in every reachable state, an answer that arrives after its call returned changes nothing for any call |
| BrokerProtocol.HandledOncePlusAbandoned | rlm/environments/modal_repl.py:362-392 | a call is handled at most once more than the poller gave up on an answer that had not arrived |
| BrokerProtocol.HandledExactly | rlm/environments/modal_repl.py:362-392 | a call is handled once for an answer that arrived in time, at most one, once for each answer the poller gave up on, and once for the one it is busy with |
| BrokerProtocol.HandledTwice | rlm/environments/modal_repl.py:381-390 | the bound is met by a run in which one answer is lost |
| BrokerProtocol.HandledTwiceNoneLost | rlm/environments/modal_repl.py:381-390 | it is met by a run in which no answer is lost and the first is still on its way |
| Daemon.RecursionDaemon.BeginStop | rlm/daemon/recursion_daemon.py:177-194 | stops at once when nothing is in flight, otherwise starts to drain |
| Daemon.RecursionDaemon.DispatchSync | rlm/daemon/recursion_daemon.py:606-715 | admitted or refused by the flags; the count in flight is restored on every path; a received event is counted in one route, and in `dispatched` only if it succeeded |
| DaemonProtocol.StepKeeps | rlm/daemon/recursion_daemon.py:165-218 | every locked section keeps the invariant |
| DaemonProtocol.RunKeeps | rlm/daemon/recursion_daemon.py:165-218 | over every run: in flight is the number of admitted calls not yet left, ready means running and not draining, received is the sum of the route counters and of dispatched, failed and in progress |
| DaemonProtocol.CountersAre | rlm/daemon/recursion_daemon.py:606-715 | over every run: each route counter is the number of calls received on that route, `dispatched` the number of those dispatched, and in flight the number that entered less the number that left |
| DaemonProtocol.ClampNeverBites | rlm/daemon/recursion_daemon.py:1070-1073 | the clamp at zero never changes the count |
| DaemonProtocol.DrainOnlyShrinks | rlm/daemon/recursion_daemon.py:1062-1068 | nobody is admitted while the daemon drains |
| DaemonProtocol.CleanStop | rlm/daemon/recursion_daemon.py:190-195 | with nothing in flight no admitted call is left behind |
| DaemonProtocol.StopsReadyDaemon | rlm/daemon/recursion_daemon.py:190-203 | a waiting stopper would end a ready daemon if and only if every waiting stopper began before the last start |
| DaemonProtocol.StaleStopper | rlm/daemon/recursion_daemon.py:190-203 | it happens: two overlapping stops, a time-out, a restart, and the second stop ends the restarted daemon |
| Session.SplitMessages | rlm/core/engine/compaction.py:203-229 | system messages apart, the rest cut where the Python slices cut it |
| Session.SplitKeepsAll | rlm/core/engine/compaction.py:221-227 | no message is lost between the part to summarise and the part to keep |
| Session.SetApart | rlm/core/engine/compaction.py:212-219 | a message goes to the system messages exactly when it is one and they are to be kept, and to the others otherwise, in order |
| Session.MessagesAre | rlm/session.py:1070-1073 | each turn is a message of the user and then one of the assistant |
| Session.SummaryOfFirst | rlm/core/engine/compaction.py:161-192 | the summary of a batch is that of all its messages but the last `preserve_last_n` |
| Session.SummaryExactlyWhen | rlm/session.py:1068-1099 | a batch gets a summary if and only if it has `min_messages` messages, more than `max_history_tokens` tokens, and the preserve setting lets at least two messages through |
| Session.SessionNeverCompacts | rlm/session.py:238-244 | with the setting the session passes, no batch ever gets a summary |
| Session.ColdBeforeHot | rlm/session.py:1040-1048 | candidates and hot window together are the live turns, for every size of the window |
| Session.RLMSession.Append | rlm/session.py:351-353 | the history grows by the turn, and stays the compacted turns followed by the live ones, with the counts that say so |
| Session.RLMSession.Candidates | rlm/session.py:1038-1048 | a batch is due if and only if the hot window is large enough and two turns lie before it, and it is all of the live turns before the hot window |
| Session.RLMSession.Prune | rlm/session.py:1101-1115 | a batch from the front passes from the live turns to the compacted ones; the history, compacted turns followed by live ones, does not change |
| SessionProtocol.StepKeeps | rlm/session.py:1040-1115 | every step keeps the invariant; harm is done by exactly three kinds of steps, and a reset makes it good |
| SessionProtocol.TurnsConserved | rlm/session.py:1101-1115 | between compactions, in every run: history is compacted turns followed by live ones if and only if no step since the last reset did harm, that is, no turn came between read and store or between a reset and the read after it, no batch from before a reset was counted, no reset left a slice to be stored |
| SessionProtocol.HarmedMeans | rlm/session.py:1101-1115 | a run is harmed if and only if one of its steps did harm and no reset came after it |
| SessionProtocol.AtomicPruneConserves | rlm/session.py:1115 | if read and store follow each other and resets wait for the compaction, history is always compacted turns followed by live ones, and the counts add up |
| SessionProtocol.HotTurnsStay | rlm/session.py:1040-1056 | in every run in which no reset hit the compaction, the hot window at the time of scheduling is in front after the prune, and none of it is among the compacted turns unless a step did harm |
| SessionProtocol.PruneLosesTurn | rlm/session.py:1112-1115 | a run in which a turn is neither compacted nor live |
| SessionProtocol.ResetDuringCompaction | rlm/session.py:395-397 | a run in which a reset during a compaction takes a turn of the new conversation |
| SessionProtocol.ResetWithoutHarm | rlm/session.py:1068-1099 | a run in which such a reset does no harm, because there is no summary |
| RateLimit.RateLimiter.Allow | rlm/gateway/telegram_gateway.py:162-173 | the queues are a function of all calls so far, the answer is that of the specification, and other chats keep their queues |
| RateLimit.AcceptsExactlyWhen | rlm/gateway/telegram_gateway.py:162-173 | if the times of a chat do not go back, accepted if and only if fewer than `max` accepted calls of the chat lie in the closed window that ends now, whatever the other chats do |
| RateLimit.LagBound | rlm/gateway/telegram_gateway.py:153-173 | if each call of a chat is at most `d` behind its earlier ones, no closed interval of the window length less `d` holds more than `max` accepted calls of it |
| RateLimit.WindowBound | rlm/gateway/telegram_gateway.py:153-173 | if the times of a chat do not go back, no closed interval of the window length does |
| RateLimit.WithinCounts | rlm/gateway/telegram_gateway.py:165-171 | what these bounds count is the number of accepted times in the closed interval |
| RateLimit.ChatsApart | rlm/gateway/telegram_gateway.py:165 | calls of one chat decide as if they were the only ones |
| RateLimit.OutOfOrderBreaksBound | rlm/gateway/telegram_gateway.py:163-164 | for every window, lag `d` and `e` with `0 < e <= d <= window`, four calls that get the lock out of order put three accepted ones in an interval longer by `e` than `LagBound` allows, with `max` 2 |

## Left out

- Retrieve: the reasons given for a note, the rendered markdown, the statistics and the time stamps are not part of the pack here.
- Search: which of several documents with equal scores comes first is left open, because the order of a Python set decides it.
- ChunkBody: start lines count from the start of the body, as the code does; the documentation of `Chunk.start_line` says the
  original file, and front matter is not part of this model.
- SplitLong: requires a limit of at least 1. With 0 the original raises an error for long paragraphs, and with a negative limit it
  drops text.
- GetNat: a value of the wrong type in a cached note reads as the default here; Python would keep it and fail later.
- EnsureVectors: requires an embedder that returns one vector for each text, computed from that text alone.
- QuietRefreshIsFullRead: reading the content of one file is one step, so a read torn by a write is not modelled, and only one
  refresh runs at a time, because two would share the name of the temporary file.
- Build: the order in which edges with equal keys are listed follows the order of first use; edge ids of folders are not proved
  distinct, since a folder named `/` would share the id of the root.
- SmartChunk: its condition for losing nothing is for texts without NULs, in which a NUL can only come from a placeholder; for
  texts with NULs it says what it says of all texts (the bound, the split, fence-free text).
- BlockVerbatimExactlyWhen: says nothing about code whose only white space is single blanks, which may survive being split by
  words, nor about texts with NULs.
- LagBound: a sufficient condition only; `OutOfOrderBreaksBound` shows that the interval it allows cannot be longer.
- NeighborsOf: sums of reals are exact; floating-point rounding is not modelled.
- BeginStop: waiting on the condition variable is split into the part before and the part after the wait; time-outs may happen at any moment.
- Prune: the class method runs without interference; the two-step prune with interference is in `SessionProtocol`.
- Front matter, wiki links, titles and inline tags are regular expressions over text; only the deduplication of tags is modelled.
- Walking the vault, excluded folders, process pools and the choice of the number of workers: a pool is a set of tasks whose
  steps interleave freely.
- `BM25Index.to_dict`, `HyperGraph.to_dict` and the statistics of the index: plain copies of fields.
- Latency samples, attached channels, task routing and event emission of the daemon: they do not touch the flags or counters.
- Handling of requests by kind inside the poller: an answer is any value the handler may compute for the request.
- The Daytona and Prime copies of the broker: the same protocol.
- Gateways, servers, clients, the REPL, checkpoints and the command line: input and output over libraries that are not modelled.
