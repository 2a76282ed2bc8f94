# Verified models of four Electronero components

A Dafny model of the parts of the repository whose behaviour is hardest to see
from reading the code, with proofs about every input and every run.

* **Blackball** (`RingOffsets`, `RingClosure`, `TightFamilies`, `BlackballScan`,
  `BlackballSpends`, `BlackballScanFacts`, `BlackballSecondPass`, `Blackball`, `BlackballForks`,
  `BlackballComplete`, `BlackballOrder`): the tool that finds outputs known to be
  spent. It scans the inputs of one or more blockchain databases into rings, an
  index and a set of spent outputs, and then repeats the rule "all members of a
  ring but one are spent, so the last one is" until nothing new is found.
  * *One database.* The result is the least set closed under the rule, whatever
    the order of transactions and of hash sets, and every consistent history
    spends all of it. It does not always hold everything that all histories
    spend. That set is the union of the tight families, those with as many rings
    as members, and the tool finds all of it exactly when the rings are peelable:
    between any two nested tight families with different members, some ring has
    all members but one in the smaller one.
  * *Several databases.* The scan is always right, but the second pass is not: a
    key image resolved by comparing two rings can make it mark a decoy. A run
    without an inference from a resolved key image is sound, and the first such
    inference is exactly the first that does not mark the spend of its key image.
    A result is sound exactly when all inferences from rings whose own spend was
    known happen to hit another true spend. The pass is modelled with the order in
    which it walks its hash sets, and two orders can end differently. A result
    contains all others that justified inferences can reach exactly when it is
    settled: looking again at the rings of all marked outputs shows nothing. All
    agree when the marked members of those rings lead to them, which is enough
    but not necessary.
* **Block store** (`BlockTables`, `BlockOps`, `BlockStore`, `BlockRoundTrip`,
  `BlockResidue`, `BlockChain`, `BlockRemoval`, `BlockBalance`, `UndoStack`,
  `BlockRuns`, `BlockInvariant`, `BlockAcceptance`, `BlockLog`, `BlockIntegrity`,
  `BlockThrows`): adding and popping blocks over the tables of the LMDB database,
  row by row. Popping restores every table exactly when all inputs are of a
  supported kind and the outputs are looked for where they were filed, as they
  always are when a generating input is the only one of its transaction, and that
  of version 2 at most. Over every run in which each block met that condition, pops remove
  the most recent transaction first, and the tables are those that the surviving
  blocks build on their own: without gaps, with exactly the chain's blocks,
  transactions, outputs and key images. That description leaves nothing open: two
  stores that meet it for one chain are equal. A call that throws is told by the
  step that throws: its error, and what it leaves when a write batch is active.
* **Translation header** (`CxxLexer`, `EmbeddedData`, `HeaderReader`,
  `TranslationHeader`): the generator that prints files as C++ string literals. A
  reader with a grammar of its own reads the header back to the same files,
  exactly when none of them is empty and no name needs escaping. It lexes literals
  in the sense of sections 2.14.3 and 2.14.5 of ISO/IEC 14882:2011, resolves
  `&identifier` by the whole identifier among the variables declared, gives the
  fields of a row to the struct's members in their order, and matches the names of
  the include guard.
* **Output usage** (`OutputUsage`, `UsageFacts`, `UsagePlaces`): the tool that counts
  how often outputs are used in rings. What it records of an output is told by the
  places in the list of transactions where such outputs are created and where it
  stands in a ring. References are conserved, the order of transactions does not
  matter, and the off-by-one in the keys of created outputs is delimited.

`Lists`, `Permutations`, `Places`, `SharedTypes` and `TxInputs` hold what several of
them share. The loops of the originals are methods with loops, each proved equal
to a specification function; the block store is a class whose methods change its
tables row by row. The theorems are about those functions, and say what they yield
in terms of positions in the input.

Hashes, key images, public keys and commitments are opaque values that are only
compared. A key, hash or commitment that the original computes is part of the
input, so that no property of hashing is assumed. A C++ exception is an error
value. Hash sets and hash maps are walked in an arbitrary order.

Where code and intention differ, the model follows the code:

* the fork branch of the blackball scan appends absolute indices to relative
  offsets, so that the stored ring is not the intersection that its log message
  speaks of;
* the adding side stores outputs under amount 0 in version-2 transactions with
  any generating input, the removing side looks there in transactions of version
  2 or more whose only input is generating;
* the rollback for an unsupported input also removes key images that the call
  did not add;
* the usage tool numbers created outputs from 1, the database from 0.

## Model

| member | source | states |
|---|---|---|
| RingOffsets.RelativeOutputOffsetsToAbsolute | src/cryptonote_basic/cryptonote_format_utils.cpp:997-1003 | the loop computes prefix sums modulo 2^64 |
| RingOffsets.AbsoluteOutputOffsetsToRelative | src/cryptonote_basic/cryptonote_format_utils.cpp:1005-1015 | sorting and the backward loop give the neighbour differences of the sorted ring |
| RingOffsets.SubtractNeighbours | src/cryptonote_basic/cryptonote_format_utils.cpp:1011-1012 | the in-place loop from the end yields all differences, none computed from an already changed neighbour |
| RingOffsets.AbsoluteIsSum | src/cryptonote_basic/cryptonote_format_utils.cpp:997-1003 | each absolute index is the sum of the offsets up to it, modulo 2^64 |
| RingOffsets.RelativeThenAbsolute | src/cryptonote_basic/cryptonote_format_utils.cpp:997-1015 | for every ring, converting to relative offsets and back gives the sorted ring |
| RingOffsets.AbsoluteThenRelative | src/cryptonote_basic/cryptonote_format_utils.cpp:997-1015 | converting to absolute indices and back is the identity exactly when the offsets' sum fits in 64 bits |
| RingClosure.MarkKeepsSupport | src/blockchain_utilities/blockchain_blackball.cpp:411-419 | marking the last unknown member of a ring extends the injection from marked outputs to key images: that ring was not used before |
| RingClosure.SupportedIsSpent | src/blockchain_utilities/blockchain_blackball.cpp:390-422 | a set with such an injection is spent in every injective assignment of key images to members of their rings |
| RingClosure.SupportedSize | src/blockchain_utilities/blockchain_blackball.cpp:396-420 | such a set is no larger than the number of key images |
| TightFamilies.CertainIff | src/blockchain_utilities/blockchain_blackball.cpp:411-419 | if there is a consistent history, an output is spent in all of them exactly when it lies in a family of rings with as many members as rings |
| BlackballScan.ScanTxIn | src/blockchain_utilities/blockchain_blackball.cpp:331-384 | one input updates rings, index and both spent sets as specified, in all five branches |
| BlackballScan.CommonOutputs | src/blockchain_utilities/blockchain_blackball.cpp:356-361 | the loop collects the positions of the first ring whose value occurs in the second |
| BlackballScan.MergeRings | src/blockchain_utilities/blockchain_blackball.cpp:377-380 | what is stored is the relative form of the fork's relative offsets followed by the common absolute indices |
| BlackballScan.ScanDatabases | src/blockchain_utilities/blockchain_blackball.cpp:318-388 | the nested loops are the left fold of one step per input over the inputs that ScanSeesAll lists |
| BlackballSpends.ScanSeesAll | src/blockchain_utilities/blockchain_blackball.cpp:318-335 | the inputs that are folded are exactly those at the places (database, transaction, input) that hold a key input, of amount 0 if only RingCT is wanted; each once, in loop order, and those of the first database alone as coming from it |
| BlackballScanFacts.PlainInput | src/blockchain_utilities/blockchain_blackball.cpp:332-345 | an input with one ring member marks it and stores its ring, whatever was stored before; any other with a new or the same ring only stores it; the index gets exactly the ring members of inputs of the first database |
| BlackballScanFacts.ComparedInput | src/blockchain_utilities/blockchain_blackball.cpp:346-373 | another ring with no common member replaces the stored one and marks nothing; with one common position that output is marked, and the new ring is stored |
| BlackballScanFacts.MergedInput | src/blockchain_utilities/blockchain_blackball.cpp:374-384 | with more common positions nothing is marked, and what is stored is, in ascending order, the new ring's relative offsets with the members at the common positions |
| BlackballScanFacts.SingleScan | src/blockchain_utilities/blockchain_blackball.cpp:332-345 | one database with unique key images: all rings stored, the index lists exactly the rings that contain an output, exactly the one-member rings are marked |
| BlackballScanFacts.ScanKeepsTruth | src/blockchain_utilities/blockchain_blackball.cpp:336-384 | any number of databases: every stored ring keeps the true spend of its key image, also through the merge, and every output marked by the scan is a true spend |
| BlackballScanFacts.ScanMarksSoleOrResolved | src/blockchain_utilities/blockchain_blackball.cpp:338-373 | any databases, any history: a key image whose true spend the scan marked was resolved by comparing rings or is stored with a ring of that one output; the spend of every resolved key image is marked |
| BlackballSecondPass.CountKnown | src/blockchain_utilities/blockchain_blackball.cpp:401-410 | the loop counts the known positions and remembers an unknown one if there is any |
| BlackballSecondPass.Examine | src/blockchain_utilities/blockchain_blackball.cpp:400-411 | a ring shows an output exactly when one position is unknown and all others are known; the initial 0 and an empty ring never yield one |
| BlackballSecondPass.HandleOutput | src/blockchain_utilities/blockchain_blackball.cpp:398-420 | the loop is the examination of all key images listed for the output, each once, in the order in which it met them |
| BlackballSecondPass.HandleWork | src/blockchain_utilities/blockchain_blackball.cpp:392-421 | one turn is the handling of all outputs that the turn before found, each once, in the order in which it met them |
| BlackballSecondPass.SecondPass | src/blockchain_utilities/blockchain_blackball.cpp:390-422 | for any rings and index the pass ends, and is the execution in the order in which it met the members of its hash sets |
| BlackballSecondPass.TurnKeepsWaiting | src/blockchain_utilities/blockchain_blackball.cpp:392-421 | in any order of a turn, every inference owed after it has a member among the outputs just found, and the turn finds nothing or marks something new |
| BlackballSecondPass.ExecutionIsRun | src/blockchain_utilities/blockchain_blackball.cpp:390-422 | in any order, what an execution marks is a run of justified inferences, and at its end no ring to which an output led when all positions but one were known has its last position left unmarked |
| BlackballSecondPass.AllIndexedIsMarked | src/blockchain_utilities/blockchain_blackball.cpp:396-420 | a finished pass has marked the last unknown member of every ring to which all its other members lead, whichever of them was marked last |
| BlackballSecondPass.RunLength | src/blockchain_utilities/blockchain_blackball.cpp:390-422 | every run marks a new output at each inference and is bounded by the finite universe of outputs |
| Blackball.RunKeepsSupport | src/blockchain_utilities/blockchain_blackball.cpp:396-420 | at every step of every run there is an injection from the marked outputs into key images, each to a ring inside the marked set |
| Blackball.InferenceIsTrueIff | src/blockchain_utilities/blockchain_blackball.cpp:411-419 | any databases: an inference marks the true spend of its key image exactly when that spend was not marked before |
| Blackball.RunIsSoundIff | src/blockchain_utilities/blockchain_blackball.cpp:390-422 | a run marks only true spends exactly when each inference from a ring whose own spend was marked before hits the spend of another key image |
| Blackball.AvoidingRunIsTrue | src/blockchain_utilities/blockchain_blackball.cpp:390-422 | along a run that avoids resolved key images every mark is a true spend, for every history |
| Blackball.FirstUnbacked | src/blockchain_utilities/blockchain_blackball.cpp:411-419 | after a run that avoids resolved key images, the next inference marks the spend of its key image exactly when that key image is not resolved |
| Blackball.ResultIsExact | src/blockchain_utilities/blockchain_blackball.cpp:332-345 | one database: the result is the least closed set, no larger than the number of key images, and spent in every consistent history |
| Blackball.ResultIsSound | src/blockchain_utilities/blockchain_blackball.cpp:318-422 | any databases: an execution without an inference from a key image that the scan resolved marks only what every consistent history spends |
| Blackball.ResultIsSoundIff | src/blockchain_utilities/blockchain_blackball.cpp:318-422 | any databases: the result is sound exactly when that holds of its run in every consistent history |
| Blackball.FindSpent | src/blockchain_utilities/blockchain_blackball.cpp:311-422 | the whole tool is an execution on the scanned state of the inputs that ScanSeesAll lists; its result is exact for one database, and sound for any databases if its run avoids resolved key images |
| Blackball.OrderIndependent | src/blockchain_utilities/blockchain_blackball.cpp:318-422 | one database: any two executions on permuted transactions give the same set |
| BlackballForks.ForkSoundIff | src/blockchain_utilities/blockchain_blackball.cpp:366-384 | two rings of a key image with one common output: every execution is sound exactly when the fork's ring has not just one position beside it |
| BlackballForks.ForkExample | src/blockchain_utilities/blockchain_blackball.cpp:366-384 | rings {1, 2} and {1, 3}: output 3 is marked wrongly in every execution |
| BlackballForks.LaterDecoyExample | src/blockchain_utilities/blockchain_blackball.cpp:366-419 | rings {1, 2} and {1, 3, 4} of one key image and a ring {3} of another: output 4 is marked wrongly in every execution |
| BlackballComplete.ResultIsCompleteIff | src/blockchain_utilities/blockchain_blackball.cpp:332-422 | one database with a consistent history: every execution finds all outputs that every history spends exactly when the rings are peelable |
| BlackballComplete.CompleteIffTight | src/blockchain_utilities/blockchain_blackball.cpp:332-422 | a set holds all outputs that every history spends exactly when it holds the members of every tight family |
| BlackballComplete.IncompleteExample | src/blockchain_utilities/blockchain_blackball.cpp:411-419 | rings {1, 2}, {1, 2}, {1, 2, 3}: all three outputs are spent in every history, and every execution finds none |
| BlackballOrder.ResultsAgree | src/blockchain_utilities/blockchain_blackball.cpp:392-421 | any databases: if, for one result, every ring to which a marked output leads is indexed under its marked members, all results are equal |
| BlackballOrder.LargestIffSettled | src/blockchain_utilities/blockchain_blackball.cpp:390-422 | any databases: a result contains every result of justified inferences exactly when looking again at the rings of all its outputs shows nothing |
| BlackballOrder.SingleIsIndexed | src/blockchain_utilities/blockchain_blackball.cpp:332-388 | one database with unique key images is indexed that way for every result |
| BlackballOrder.OrderMatters | src/blockchain_utilities/blockchain_blackball.cpp:377-421 | four key images of which one is seen in two rings, none resolved: the execution that handles output 3 before output 10 finds output 13, the one that handles it after misses it |
| BlockStore.BlockchainDB.AddKeyImage | src/blockchain_db/lmdb/db_lmdb.cpp:1006-1021 | a key image is added, or refused as spent |
| BlockStore.BlockchainDB.AddOutputRows | src/blockchain_db/lmdb/db_lmdb.cpp:857-921 | the row of output_txs is written before that of output_amounts, so that it stays when the second is refused |
| BlockStore.BlockchainDB.RemoveOutputRows | src/blockchain_db/lmdb/db_lmdb.cpp:968-1004 | both rows of an output are deleted, or the output is not found |
| BlockStore.BlockchainDB.AddTransactionRows | src/blockchain_db/lmdb/db_lmdb.cpp:767-809 | the index row is written before the transaction, so that it stays when the second is refused |
| BlockStore.BlockchainDB.RemoveOutputsOf | src/blockchain_db/lmdb/db_lmdb.cpp:946-966 | the reverse loop removes the outputs under amount 0 or their own, and leaves those before the first that throws |
| BlockStore.BlockchainDB.RemoveTransactionRows | src/blockchain_db/lmdb/db_lmdb.cpp:813-855 | the transaction is deleted first, then its outputs, their index list and its index row |
| BlockStore.BlockchainDB.AddBlockRows | src/blockchain_db/lmdb/db_lmdb.cpp:665-726 | the rows of a block that is new and a child of the top block, or the error |
| BlockStore.BlockchainDB.RemoveBlockRows | src/blockchain_db/lmdb/db_lmdb.cpp:728-765 | the rows of the top block are deleted, or the error |
| BlockStore.BlockchainDB.AddInputsOf | src/blockchain_db/blockchain_db.cpp:139-162 | the input loop adds key images until the end, an unsupported input or an error, and leaves those already added |
| BlockStore.BlockchainDB.RemoveKeyImages | src/blockchain_db/blockchain_db.cpp:153-159 | all key images of the transaction are removed, added or not |
| BlockStore.BlockchainDB.AddOutputsOf | src/blockchain_db/blockchain_db.cpp:166-187 | the output loop files each output under its amount, or 0 with a computed commitment, and collects the indices; what the rows then hold is in RowsOfChain |
| BlockStore.BlockchainDB.AddTransaction | src/blockchain_db/blockchain_db.cpp:124-189 | the new tables, or the error and what was written before it, of adding a transaction |
| BlockStore.BlockchainDB.RemoveTransaction | src/blockchain_db/blockchain_db.cpp:265-279 | the new tables, or the error and what was deleted before it, of removing one |
| BlockStore.BlockchainDB.AddTransactions | src/blockchain_db/blockchain_db.cpp:215-222 | the loop adds the transactions in order under the block's hashes |
| BlockStore.BlockchainDB.AddBlockIn | src/blockchain_db/blockchain_db.cpp:191-239 | miner transaction, transactions and block row, or the first error and what was written before it |
| BlockStore.BlockchainDB.PopTransactions | src/blockchain_db/blockchain_db.cpp:252-256 | the reverse loop fetches and removes, last transaction first; the caller's list gets all that were fetched, also on a throw |
| BlockStore.BlockchainDB.PopBlockIn | src/blockchain_db/blockchain_db.cpp:246-258 | the popped block, its transactions in reverse and the new tables, or the error with the transactions fetched before it |
| BlockStore.BlockchainDB.AddBlockAtomically | src/blockchain_db/lmdb/db_lmdb.cpp:2923-2955 | an addition that throws changes nothing, unless a write batch is active, when exactly what was written before the throw stays |
| BlockStore.BlockchainDB.PopBlockAtomically | src/blockchain_db/lmdb/db_lmdb.cpp:2957-2976 | a pop that throws changes nothing, unless a write batch is active, when exactly what was deleted before the throw is gone |
| BlockResidue.BatchThrowRestoresIff | src/blockchain_db/lmdb/db_lmdb.cpp:2896-2955 | an addition that throws in a batch leaves the tables as they were exactly when the numbers of hashes and transactions differ or the first write of the miner transaction, one with supported inputs, is refused |
| BlockResidue.TxResidueIs | src/blockchain_db/blockchain_db.cpp:139-189 | what a refused transaction leaves on a store without gaps: the key images before the first that is spent; or all of them, if its hash is known; or also the transaction, its index row and the outputs before the first unfit one |
| BlockResidue.RemovedResidueIs | src/blockchain_db/lmdb/db_lmdb.cpp:946-1004 | a removal that throws does so at an output that is not where it is looked for, or has no row in output_txs; those after it are removed, the others untouched |
| BlockThrows.RefusedOutputLeaves | src/blockchain_db/lmdb/db_lmdb.cpp:857-921 | a refused output leaves a row of output_txs exactly when the outputs of its amount are the obstacle, the row that it would get if none were filed |
| BlockThrows.RefusedIndicesLeave | src/blockchain_db/lmdb/db_lmdb.cpp:923-944 | a transaction that only the rows of tx_outputs keep from being added leaves all its rows but the one there |
| BlockThrows.RefusedTxLeaves | src/blockchain_db/blockchain_db.cpp:191-239 | if the first k transactions of a block are added and the next is refused, the block is refused with that error and leaves those k and what that one leaves |
| BlockThrows.RefusedRowLeaves | src/blockchain_db/blockchain_db.cpp:191-239 | a block with a wrong number of transactions leaves nothing; one whose own rows are refused leaves all its transactions |
| BlockThrows.RefusedRemovalLeaves | src/blockchain_db/lmdb/db_lmdb.cpp:813-855 | when a removal throws, with which error, and that the key images and the transaction are gone then while its index row and index list stay |
| BlockThrows.RefusedPopLeaves | src/blockchain_db/blockchain_db.cpp:252-256 | if the transactions from k on are removed and the one before throws, the loop throws that error, leaves what that removal leaves, and has fetched those, and that one if it is there |
| BlockThrows.PopBlockErrors | src/blockchain_db/blockchain_db.cpp:246-258 | an empty store or one without the top block's hash refuses a pop and stays; otherwise block rows, transactions and miner transaction go in this order, up to the first that throws |
| BlockRoundTrip.AddInputsSupported | src/blockchain_db/blockchain_db.cpp:139-149 | with supported inputs the loop succeeds exactly when the key images are distinct and unspent, and adds exactly these |
| BlockRoundTrip.UnsupportedRollback | src/blockchain_db/blockchain_db.cpp:139-162 | with an unsupported input at any position the call changes no table but the spent keys, and these are unchanged exactly when no key image from that position on was spent before |
| BlockIntegrity.RollbackExample | src/blockchain_db/blockchain_db.cpp:150-161 | such a call can un-spend a key image of another transaction |
| BlockRoundTrip.AddThenRemoveOutput | src/blockchain_db/lmdb/db_lmdb.cpp:857-1004 | removing the output just added restores both output tables |
| BlockRoundTrip.AddThenRemoveTx | src/blockchain_db/blockchain_db.cpp:174-187 | for every store, adding a transaction and removing it restores every table exactly when both sides file its outputs under the same amounts |
| BlockIntegrity.DisagreementExample | src/blockchain_db/lmdb/db_lmdb.cpp:960-965 | a version-2 transaction with a generating and a key input that cannot be undone |
| BlockIntegrity.DisagreementsCancel | src/blockchain_db/lmdb/db_lmdb.cpp:946-966 | two opposite disagreements cancel: both transactions together are undone though the second on its own is not |
| BlockRuns.AddedIsLifo | src/blockchain_db/blockchain_db.cpp:252-257 | whatever outputs there are besides: as long as the removals of added transactions find what they look for, they take them in reverse order, each with the highest id present, and the ids count down by one |
| BlockBalance.PopRestoresIff | src/blockchain_db/blockchain_db.cpp:191-258 | for every store and every block, popping the added block restores every table and returns the block and its transactions reversed exactly when all its inputs are of a supported kind and the slots in which the removal looks for its outputs are those in which the addition files them |
| UndoStack.RunIsReplay | src/blockchain_db/blockchain_db.cpp:191-258 | a store whose pop undoes each push that was good where it happened holds, after any run, what the surviving elements build alone |
| BlockRuns.BlockRunIsReplay | src/blockchain_db/blockchain_db.cpp:191-258 | every run of additions and pops, refused calls included, in which each accepted block met the condition of PopRestoresIff leaves exactly the tables that the surviving blocks build |
| BlockRuns.AgreeingIsUndoable | src/blockchain_db/blockchain_db.cpp:191-258 | these include all runs of blocks with supported inputs and outputs filed alike by both sides |
| BlockRuns.OrdinaryTxIsUndone | src/blockchain_db/lmdb/db_lmdb.cpp:946-966 | for every store: a transaction without generating input, or with that as only input and of version 2 at most, is undone by its removal in every table |
| BlockRuns.OrdinaryBlockIsUndone | src/blockchain_db/blockchain_db.cpp:191-258 | for every store: popping an added block of such transactions restores every table and returns the block and its transactions, last one first |
| BlockRuns.PopsAreLifo | src/blockchain_db/blockchain_db.cpp:246-258 | over every such run a pop succeeds exactly when a block survives; it removes one transaction per hash and then the miner transaction, with ids going down by one from the highest in the store, each the highest present at its removal |
| BlockRuns.AddManyPopMany | src/blockchain_db/blockchain_db.cpp:246-258 | n additions and n pops restore the store, return the blocks last to first, and the collected transactions reversed are those added |
| BlockInvariant.AddOutputsDense | src/blockchain_db/lmdb/db_lmdb.cpp:857-921 | on gap-free tables the outputs are accepted exactly when storable; old rows stay, each new output has its row, nothing else appears |
| BlockAcceptance.AddTxsAccepts | src/blockchain_db/blockchain_db.cpp:139-189 | a list of transactions is accepted exactly when its key images and hashes are new and distinct and its outputs storable |
| BlockAcceptance.AddBlockAccepts | src/blockchain_db/blockchain_db.cpp:191-239 | a block is accepted exactly when, in addition, it has as many hashes as transactions and is a new child of the top block |
| BlockAcceptance.AddBlockErrors | src/blockchain_db/blockchain_db.cpp:191-239 | the error of a refused block: for the numbers, for the first transaction that is not acceptable after those before it and why, or for a known block, an unknown parent or a parent not on top |
| BlockIntegrity.LogsLinked | src/blockchain_db/blockchain_db.cpp:164-188 | outputs of stored transactions, filed outputs and rows of output_txs are in one-to-one correspondence |
| BlockLog.AddBlockLogs | src/blockchain_db/blockchain_db.cpp:191-239 | adding a block appends its transactions to the log of the store: ids are positions in the log, output ids positions among all outputs, and the index of an output is the number of earlier ones of its amount |
| BlockIntegrity.ReplayHolds | src/blockchain_db/blockchain_db.cpp:191-239 | a built store holds the chain's blocks, each the child of the one below; exactly the chain's transactions and outputs in order, with the ids and indices that follow from it, and the unlock times, heights, keys and commitments; and as spent keys exactly the chain's key images, none twice |
| BlockIntegrity.HoldsDetermines | src/blockchain_db/blockchain_db.cpp:191-239 | two stores that hold the same chain in this sense are equal in every table |
| BlockIntegrity.RunHolds | src/blockchain_db/blockchain_db.cpp:191-279 | the same after every such run of additions and pops |
| BlockIntegrity.OrdinaryRunHolds | src/blockchain_db/blockchain_db.cpp:191-279 | the same after every run of blocks of ordinary transactions, without a condition on where outputs are filed |
| BlockIntegrity.RowsOfChain | src/blockchain_db/blockchain_db.cpp:166-188 | the row of every output of the chain: its id, key, unlock time and height; under amount 0 with the commitment of its true amount if it is in a version-2 transaction with a generating input; otherwise under its amount, with the commitment in the signatures if that is 0 |
| BlockIntegrity.RunBuckets | src/blockchain_db/blockchain_db.cpp:166-188 | after every run each amount's outputs are numbered 0 to n-1, each transaction has one index per output, and every version-2 coinbase output is the one filed under amount 0 at its recorded index |
| CxxLexer.LexHexByte | translations/generate_translations_header.c:62 | a printed byte is read back alone although hex escapes take the longest run of digits |
| CxxLexer.LexDecimal | translations/generate_translations_header.c:64 | a printed number is read back |
| EmbeddedData.PrintData | translations/generate_translations_header.c:55-64 | the byte loop prints exactly the specified text and counts the bytes |
| EmbeddedData.ReadPrintedData | translations/generate_translations_header.c:54-64 | the printed bytes lex as adjacent literals exactly when there are any; each literal holds 16 bytes, of which only the last may hold fewer, and they concatenate to the file |
| TranslationHeader.NameReadsBackIff | translations/generate_translations_header.c:53 | a printed name is read back exactly when it holds no quote, backslash or line break |
| TranslationHeader.PrintFiles | translations/generate_translations_header.c:49-67 | the file loop prints all declarations in order, or stops exactly when a file cannot be opened |
| TranslationHeader.PrintRows | translations/generate_translations_header.c:74-77 | the row loop prints one row per file and the sentinel |
| TranslationHeader.Generate | translations/generate_translations_header.c:37-86 | the program prints the header of all its files, or stops exactly when one cannot be opened; what the header means to a compiler is HeaderReadsBackIff |
| TranslationHeader.HeaderReadsBackIff | translations/generate_translations_header.c:45-81 | for any list of files, a reader that knows only the grammar gets from the header the table of all names and contents, field by member name, each from the variable that the row names, exactly when no name holds a quote, backslash or line break and no file is empty; an empty file alone keeps it from compiling |
| TranslationHeader.FindEmbeddedFile | translations/generate_translations_header.c:25-35 | the emitted loop stops at the first row with the name or at the sentinel, never past it |
| TranslationHeader.LookupFindsFirst | translations/generate_translations_header.c:25-35 | on the compiled table a name is found exactly when a file has it, with the bytes of the first such file |
| OutputUsage.ScanOutputs | src/blockchain_utilities/blockchain_usage.cpp:211-219 | the output loop enters each considered output under the incremented counter and keeps earlier references |
| OutputUsage.ScanRing | src/blockchain_utilities/blockchain_usage.cpp:229-234 | the ring loop appends one reference per member |
| OutputUsage.ScanTransactions | src/blockchain_utilities/blockchain_usage.cpp:205-237 | the scan is the left fold of all creations and references; UsageByPlaces says what it records |
| OutputUsage.FoldDescribes | src/blockchain_utilities/blockchain_usage.cpp:211-235 | the entered outputs are 1 to n of each amount with n outputs and all that are referred to; each holds exactly its references in order |
| UsageFacts.Histogram | src/blockchain_utilities/blockchain_usage.cpp:239-245 | each entry is the number of outputs used that often; the sum of entries is the number of outputs, the weighted sum the number of references |
| UsageFacts.MeasureUsage | src/blockchain_utilities/blockchain_usage.cpp:205-245 | the weighted sum equals the number of ring positions of the key inputs, of amount 0 if only RingCT is wanted |
| UsageFacts.UsageOrderIndependent | src/blockchain_utilities/blockchain_usage.cpp:205-245 | permuting the transactions changes neither the outputs entered, nor their references up to order, nor the histogram |
| UsagePlaces.UsageByPlaces | src/blockchain_utilities/blockchain_usage.cpp:205-237 | for every transaction list: an output is recorded exactly when its number is 1 to the number of places where its amount is created, or it stands in a ring; its references are those of the places (transaction, input, position) where it stands, each once and in order, with position, ring size and height; its height and coinbase flag are those of the transaction that creates the output of that number, else of the first place where it stands |
| UsageFacts.KeysAreRealIff | src/blockchain_utilities/blockchain_usage.cpp:215-216 | the entered outputs are those that exist or are referred to exactly when, for each amount, output 0 and the number past the last are referred to |
| UsagePlaces.OffByOneExample | src/blockchain_utilities/blockchain_usage.cpp:215-216 | one coinbase output is entered as output 1, and output 0 is missing |
| UsageFacts.InfoComesFromSource | src/blockchain_utilities/blockchain_usage.cpp:216-218 | an output carries the coinbase flag and height of its creation, or of the first reference if it was never created |

## Left out

- Database enumeration, blob parsing, command lines, directories, logging, `ringdb.blackball` and `get_output_key`: foreign calls and output; the model takes the transactions as input and the marked set as result.
- Rings of 2^32 members or more: the scan models the 32-bit ring size, the theorems about it assume smaller rings, which no block can exceed.
- Counters of the usage tool as 64-bit numbers: they are natural numbers here, since no chain holds 2^64 outputs.
- The percentages printed by the usage tool: display only.
- The hard-fork object, timing counters, `num_calls` and the returned height: popping does not undo the first, and the others carry no hard property.
- The Berkeley DB subclass: the tables are those of the LMDB subclass.
- RingCT signatures: the commitment of an output is part of the output, so that a list of masks shorter than the outputs cannot occur.
- A missing or short list of output indices at removal: an error here, while the original reads past the end; RunHolds shows that no run leaves one.
- BlockRuns.BlockRunIsReplay: says nothing of runs with a block that a pop would not undo at the store it met; PopRestoresIff says which these are.
- BlackballForks.ForkSoundIff: for an input of two spends of one key image, with a condition on their rings; ResultIsSoundIff and FirstUnbacked are the general results.
- BlackballOrder.ResultsAgree: a sufficient condition; executions can also agree on a state where marked members of a ring do not lead to it, since each output is handled only once.
- TranslationHeader.LookupFindsFirst: for names that need no escaping; with others the compiled table is not that of the files, by HeaderReadsBackIff.
- TranslationHeader.HeaderReadsBackIff: of a header with a name that needs escaping it says that the table is not the wanted one, not what the rest of the text compiles to.
- Trigraphs in file names, and files of 2^31 bytes or more, whose count overflows a C `int`.
- The text of the emitted lookup function is a parameter of the header; its meaning is the method FindEmbeddedFile.
- The rest of the repository: wallet, daemon, protocol, cryptography, RPC clients and mobile application.
