# Verified model of the DaoTi runtime cores

This project models the self-contained algorithmic cores of the DaoTi
repository and proves what they are for. Each core is a specification (pure
functions over values) with lemmas about every input or every run; where the
source updates state in place, a class or a loop does the same here and is
proved equal to the specification.

| file | core | main results |
|---|---|---|
| `PerceptronRule.dfy`, `Baseline.dfy` | the mapper's hashed-bag encoder and multi-class perceptron (`m1.rs`) | Novikoff's bound k*g^2 <= 72, guaranteed perfect fit - also without a separability hypothesis when no field is hashed into a label slot -, conservation of column sums |
| `Network.dfy` | the bilateral ladder network (`network.rs`) | outputs inside (-1, 1), distances grow by at most (La*Ld)^t; with La*Ld < 1 every run settles, and towards at most one resonant signal |
| `Config.dfy`, `ConfigRoundTrip.dfy` | printer and line parser of the configuration file (`config.rs`) | parse(print(c)) = c exactly for configurations of the parser's shape whose drive names survive lower- and upper-casing; normalising is idempotent for ASCII text, and for any text after one extra pass |
| `EventLog.dfy` | JSON-lines history read backwards in 8192-byte blocks (`eventlog.rs`) | what the reader returns for every file; with increasing numbers, equal to the newest events if and only if none of those is cut by a block boundary; with any numbers, the newest events sorted |
| `EventStream.dfy` | the incremental SSE reader (`daemon.js`) and the frames it receives (`http.rs`) | independence of chunking; every stream of frames decodes to its events at any moment of the transfer |
| `Machine.dfy`, `Executor.dfy` | handles, shared pipes, pages and break heap (`executor.rs`) | conservation of pipe bytes under aliasing, no handle reuse, disjoint pages, heap balance, for every run |
| `Decision.dfy` | rule/network decision pipeline, its gate and the early-stopping run (`agent.rs`, `gate.rs`, `telemetry.rs`, `state.rs`) | the network only ever fills misses; exact accounting of the early stop |
| `MachO.dfy` | load-command scan (`macho_runtime.rs`) | exactly when the scan succeeds and what it returns: a chain of offsets with no segment lost; scanning an encoded image gives its segments back |
| `Sampler.dfy` | category-balanced batches (`train_perception_v2.py`) | no index twice, balanced batches, exact pointers, and a lower bound on the epoch's length, for every choice of permutations |
| `EventBus.dfy` | concurrent sequence stamping (`eventbus.rs`) | counters balance under every interleaving; over any run, exactly when deliveries are complete, in order, and continuous |
| `LinearAlgebra.dfy`, `Text.dfy`, `Common.dfy` | sums of products over reals; trimming, lines, decimals, string order | Cauchy-Schwarz, decimal and line round trips |

Run `dafny verify dfyconfig.toml` for the whole project.

Parameters stand for what the source takes from elsewhere: `tanh` (bounded and
1-Lipschitz), the text form of floats (an inverse pair), the letter case mappings
of Unicode (with the laws in `Config.GoodCase`), the JSON codec (no
proper part of an encoded event decodes; decoding includes trimming and the
lossy reading of invalid UTF-8), the rule table and injection check, the codec
and network seen from the pipeline, answers of the operating system for
ordinary files, and random permutations.

## Where the code differs from its description

- `eventlog.rs` describes `history` as reading back until the limit is reached.
  An event whose text crosses a multiple of 8192 bytes counted from the end of
  the file decodes in neither block and is skipped. `EventLog.LongEventIsLost`
  gives the smallest family of inputs and `EventLog.HistoryIsExact` the exact
  condition. A boundary right before the line feed does no harm.
- `eventbus.rs` says the sequence seen by a subscriber is continuous. Stamping
  and sending are separate steps, so a later stamp can be delivered first
  (`EventBus.OvertakingIsPossible`), and a send is dropped when there is no receiver
  (the comments say: when the channel is full).
  Between two quiet moments the sequence is continuous exactly when every send
  finds a receiver and takes the smallest stamp waiting
  (`EventBus.ContinuousExactly`, `EventBus.StampIsLost`), for instance with one
  publisher and a subscriber that stays (`EventBus.OneToOneIsContinuous`).
- `eventlog.rs` sorts what it has read by number. Numbers start at 0 with every
  daemon and the file is continued, so after a restart an older event can come out
  as the newer one: `EventLog.RestartReorders`; `EventLog.HistoryInAnyOrder` says
  exactly when not.
- `macho_runtime.rs` reports unusable files as errors. A segment with a vmsize of
  2^63 or more passes every test and then aborts the program, because no buffer of
  that size can be allocated: `MachO.HugeSegmentAborts`. The outcome
  `CapacityOverflow` stands for it.
- In `executor.rs` the `closed` field of a writing end is never set, and the
  answer that a writer's peer is no reading end is never given
  (`Machine.WriteSucceedsExactly`). Closing one copy of a writing end stops the
  pipe for all of them, and a pipe whose original reading handle is closed
  accepts no more writes even while a copy of that handle is open
  (`Machine.OneCloseStopsAll`, `Machine.OrphanedWriters`).
- `config.rs` describes its printer as aligned with its parser. It does not print
  the two log directories, always parses into a configuration with drives C and D,
  and reads an empty webhook as none; `ConfigRoundTrip.Shaped` collects these
  conditions.
- `config.rs` lowers drive names when printing and raises them when parsing, with
  the case mappings of Unicode, and these do not undo each other: a drive named by
  the Kelvin sign U+212A comes back as K (`ConfigRoundTrip.KelvinDriveMoves`), and
  U+0130 comes back as two characters. Printing and parsing is the identity, and
  normalising a text is idempotent, exactly when every drive name survives lowering
  and raising (`ConfigRoundTrip.RoundTripExactly`,
  `ConfigRoundTrip.IdempotentExactly`).

## Model

| member | source | states |
|---|---|---|
| Baseline.EncodeSample | crates/daoti-core/src/m1.rs:220-240 | the in-place encoder, with its FNV-1a inner loop, fills exactly the vector Encode describes |
| Baseline.EncodedSlots | crates/daoti-core/src/m1.rs:220-240 | every slot of the vector is the sum of the signed marks of the five fields hashed into it, in their order, and the mark of the label |
| Baseline.FnvSteps | crates/daoti-core/src/m1.rs:229-233 | the hash starts from the basis and the field's number; each further byte is one xor and one wrapping multiplication |
| Baseline.FnvOfLetterA | crates/daoti-core/src/m1.rs:219-233 | the hash of the letter a is the published FNV-1a value |
| Baseline.EncodedNorm | crates/daoti-core/src/m1.rs:220-240 | every encoded sample has L1 mass at most 6 and squared norm at most 36, wherever the hashes fall |
| Baseline.TrainTestSplit | crates/daoti-core/src/m1.rs:206-217 | the loop yields every fifth sample, from the first, as test part and the others as training part, in order |
| Baseline.SplitKeepsAll | crates/daoti-core/src/m1.rs:206-217 | the two parts together hold every sample exactly as often as the input does |
| PerceptronRule.Predicted | crates/daoti-core/src/m1.rs:274-279 | the predicted class is the last of the largest scores, or 0 without classes |
| PerceptronRule.UpdateProgress | crates/daoti-core/src/m1.rs:280-284 | one update raises the inner product with any separator by rate*g and the squared weight norm by at most 2*r2*rate^2 |
| PerceptronRule.MistakeBound | crates/daoti-core/src/m1.rs:269-288 | from zero weights, over any number of epochs and any positive rate, the number k of updates satisfies k*g^2 <= 2*r2*u2, r2 and u2 bounding the squared norms of samples and separator |
| PerceptronRule.QuietForever | crates/daoti-core/src/m1.rs:269-288 | after an epoch without an update no later epoch changes the weights |
| PerceptronRule.GuaranteedFit | crates/daoti-core/src/m1.rs:269-288 | with epochs*g^2 > 2*r2*u2 on separable data some epoch is quiet, all training samples are predicted right, and later epochs change nothing |
| PerceptronRule.ColumnsSumToZero | crates/daoti-core/src/m1.rs:269-288 | throughout training every weight column sums to zero |
| Baseline.BaselineMistakeBound | crates/daoti-core/src/m1.rs:269-288 | the bound for encoded samples and a separator of norm 1: k*g^2 <= 72 |
| Baseline.PerfectAccuracy | crates/daoti-core/src/m1.rs:290-316 | evaluation reports accuracy 1 exactly when the set is non-empty and every sample is predicted right |
| Baseline.AccuracyIsShare | crates/daoti-core/src/m1.rs:298-315 | accuracy is the number of samples predicted right over the number of samples |
| Baseline.LossOfOneMore | crates/daoti-core/src/m1.rs:298-313 | a further sample adds the mean of its squared scores to the summed loss |
| Baseline.BilateralFits | crates/daoti-core/src/m1.rs:368-390 | end-to-end training on a separable training part with epochs*g^2 > 72 (for a separator of norm 1) reports accuracy 1, and more epochs give the same weights |
| Baseline.LabelIsEncoded | crates/daoti-core/src/m1.rs:220-240 | unless a field is hashed into a label slot, the first components of an encoded sample are the indicator of its own label |
| Baseline.UnaliasedFits | crates/daoti-core/src/m1.rs:220-240 | on any training part without such aliases, whatever the labels, training makes at most 72 updates per class and more epochs than that end in accuracy 1 |
| Baseline.TrainBilateral | crates/daoti-core/src/m1.rs:368-390 | fails exactly on zero or one sample; otherwise reports the metrics of the trained weights on both parts |
| Baseline.TinyBaseline.constructor | crates/daoti-core/src/m1.rs:262-267 | a new model has zero weights for every class |
| Baseline.TinyBaseline.Scores | crates/daoti-core/src/m1.rs:273 | the scores are the inner products of the weight rows with the sample |
| Baseline.TinyBaseline.ScaledAdd | crates/daoti-core/src/m1.rs:282-283 | adds a multiple of the update to one row in place and leaves every other row |
| Baseline.TinyBaseline.Learn | crates/daoti-core/src/m1.rs:272-285 | one sample changes the weights in place exactly as the perceptron rule says |
| Baseline.TinyBaseline.Train | crates/daoti-core/src/m1.rs:269-288 | the nested loops leave the weights the rule prescribes after that many epochs and return their metrics |
| Baseline.TinyBaseline.Evaluate | crates/daoti-core/src/m1.rs:290-316 | the loop computes loss and accuracy of the current weights without changing them |
| LinearAlgebra.CauchySchwarz | crates/daoti-core/src/m1.rs:269-288 | the squared inner product of two matrices is at most the product of their squared Frobenius norms |
| Network.New | crates/daoti-core/src/bilateral/network.rs:25-60 | construction succeeds exactly for a non-zero dimension shared by both square matrices and the bias, and keeps what it is given |
| Network.Forward | crates/daoti-core/src/bilateral/network.rs:72-101 | the loop rejects a wrong input length and otherwise computes t_iter rounds up and down |
| Network.RoundIsUpAndDown | crates/daoti-core/src/bilateral/network.rs:86-94 | a round is the ascent map, bias and squashing, followed by the descent map, bias and squashing |
| Network.Bounded | crates/daoti-core/src/bilateral/network.rs:72-101 | after at least one round every output is strictly inside (-1, 1) |
| Network.Stability | crates/daoti-core/src/bilateral/network.rs:72-101 | the max-norm distance of two outputs is at most (La*Ld)^t times that of the inputs, La and Ld the largest absolute row sums |
| Network.StaysNear | crates/daoti-core/src/bilateral/network.rs:72-101 | with gain La*Ld < 1 no run gets further from its input than its first step over 1 - gain |
| Network.Convergence | crates/daoti-core/src/bilateral/network.rs:72-101 | with gain < 1, after s rounds a run moves no further than gain^s times its first step over 1 - gain |
| Network.Settles | crates/daoti-core/src/bilateral/network.rs:72-101 | with gain < 1, for every positive distance there is a round after which the signal stays that close to itself |
| Network.Resonance | crates/daoti-core/src/bilateral/network.rs:72-101 | any run approaches a resonant signal at the rate (La*Ld)^t |
| Network.ResonanceIsUnique | crates/daoti-core/src/bilateral/network.rs:72-101 | with La*Ld < 1 there is at most one resonant signal |
| Config.ToTomlString | crates/daoti-common/src/config.rs:210-281 | the pushes, section by section and drives in alphabetical order, produce exactly the printed text the round trip is about |
| Config.SortedKeys | crates/daoti-common/src/config.rs:274-276 | the drives come out strictly ascending and complete |
| Config.SortedIsUnique | crates/daoti-common/src/config.rs:274-276 | only one order is sorted, so the output is deterministic |
| Config.TomlParse | crates/daoti-common/src/config.rs:449-507 | the line loop computes the parse function, whose results the round trip describes |
| Config.WhiteCharacters | crates/daoti-common/src/config.rs:452-458 | what trimming strips: exactly the 25 White_Space characters |
| ConfigRoundTrip.ParseIsShaped | crates/daoti-common/src/config.rs:449-507 | for every text, the parsed configuration has clean fields, default directories, drives C and D, and drive names that fit on a line |
| ConfigRoundTrip.NameIsRead | crates/daoti-common/src/config.rs:214-278 | each printed key name selects the field it was printed for, a drive the one named by raising its lowered name |
| ConfigRoundTrip.AssignLineIsRead | crates/daoti-common/src/config.rs:452-503 | a printed line sets its key, a drive under its refolded name, to the printed value, whatever the value contains |
| ConfigRoundTrip.OtherLinesAreSkipped | crates/daoti-common/src/config.rs:451-456 | blank lines, comments, section heads, lines without an equals sign and lines naming no key change nothing |
| ConfigRoundTrip.NamesAreExact | crates/daoti-common/src/config.rs:459-500 | a name selects a fixed key only in that key's own spelling, and a drive exactly behind its prefix |
| ConfigRoundTrip.DefaultText | crates/daoti-common/src/config.rs:213-280 | the defaults are printed section by section, with drives C and D |
| ConfigRoundTrip.DefaultGeneral | crates/daoti-common/src/config.rs:213-232 | the lines of the first section for the defaults |
| ConfigRoundTrip.DefaultLog | crates/daoti-common/src/config.rs:233-247 | the lines of the log section for the defaults |
| ConfigRoundTrip.DefaultNotify | crates/daoti-common/src/config.rs:248-262 | the lines of the notification and remote node sections for the defaults |
| ConfigRoundTrip.DefaultModel | crates/daoti-common/src/config.rs:263-273 | the lines of the network section for the defaults |
| ConfigRoundTrip.DefaultDriveLines | crates/daoti-common/src/config.rs:122-124 | the two drive lines for the defaults |
| ConfigRoundTrip.SetOther | crates/daoti-common/src/config.rs:459-502 | a key changes no field but its own |
| ConfigRoundTrip.UnreadableIsDefault | crates/daoti-common/src/config.rs:462-492 | an unreadable number, float, flag or rotation becomes the default configuration's value |
| ConfigRoundTrip.NormalRoundTrip | crates/daoti-common/src/config.rs:210-281 | printing a configuration of the parser's shape with settled drive names, drives in any order, and parsing gives it back |
| ConfigRoundTrip.RoundTripExactly | crates/daoti-common/src/config.rs:210-281 | parse(print(c)) = c if and only if c has the parser's shape and every drive name survives lowering and raising |
| ConfigRoundTrip.OnlyDriveNamesMove | crates/daoti-common/src/config.rs:210-281 | for every configuration of the parser's shape, printing and parsing changes nothing but drives |
| ConfigRoundTrip.RefoldedNamesReturn | crates/daoti-common/src/config.rs:274-278 | the drive names that come back are exactly the lowered and raised ones |
| ConfigRoundTrip.IdempotentExactly | crates/daoti-common/src/config.rs:449-507 | for every text t, parse(print(parse(t))) = parse(t) if and only if every drive name of parse(t) survives lowering and raising |
| ConfigRoundTrip.AsciiIsIdempotent | crates/daoti-common/src/config.rs:449-507 | for every ASCII text t, parse(print(parse(t))) = parse(t) |
| ConfigRoundTrip.SecondPassSettles | crates/daoti-common/src/config.rs:449-507 | for every text, what has been parsed, printed and parsed once is no longer changed by printing and parsing |
| ConfigRoundTrip.KelvinDriveMoves | crates/daoti-common/src/config.rs:495-498 | a line naming a drive by the Kelvin sign gives another drive, K, on the second parse |
| ConfigRoundTrip.GoodEnvExists | crates/daoti-common/src/config.rs:210-281 | the properties asked of paths, float text and letter case can all be met at once |
| Text.NumberRoundTrip | crates/daoti-common/src/config.rs:462-489 | a printed number below the field's width is read back |
| Text.NumberReadExactly | crates/daoti-common/src/config.rs:462-489 | leading zeros and one plus sign are read over; a number too large for its field is unreadable |
| Text.NotANumber | crates/daoti-common/src/config.rs:462-489 | empty text, a lone plus sign and anything with another character are unreadable |
| Text.LinesOfUnlines | crates/daoti-common/src/config.rs:451 | cutting a text written line by line gives the lines back |
| Text.FirstLine | crates/daoti-common/src/config.rs:451 | lines end at line feeds, with or without one carriage return in front |
| Text.LeqMeans | crates/daoti-common/src/config.rs:274-276 | the order of the drives: prefixes first, else by the first differing character |
| EventLog.EventLog.Append | crates/daoti-daemon/src/eventlog.rs:38-46 | appends one encoded line, so the file is always the concatenation of all events appended |
| EventLog.LineAppended | crates/daoti-daemon/src/eventlog.rs:38-46 | the file grows by the encoding and a line feed behind all earlier lines |
| EventLog.EventLog.History | crates/daoti-daemon/src/eventlog.rs:55-112 | the block loop with its early exits, sort and truncation terminates and returns the specified list for the appended events |
| EventLog.NewestMembers | crates/daoti-daemon/src/eventlog.rs:98-102 | the events asked for are exactly those logged with a number below the anchor, all without one |
| EventLog.NewestCounts | crates/daoti-daemon/src/eventlog.rs:98-103 | each of them as often as it was logged |
| EventLog.NewestIsReversed | crates/daoti-daemon/src/eventlog.rs:87 | without an anchor, the last logged first |
| EventLog.HistoryIsBelow | crates/daoti-daemon/src/eventlog.rs:55-112 | whatever the file holds, the answer has at most the asked number of events, in descending order, all below the anchor |
| EventLog.ScanFindsWhole | crates/daoti-daemon/src/eventlog.rs:77-106 | reading any file block by block keeps exactly the eligible events whose text no block boundary cuts, newest first |
| EventLog.HistoryOfContent | crates/daoti-daemon/src/eventlog.rs:55-112 | the result for any file, in any order of sequence numbers |
| EventLog.HistoryIsExact | crates/daoti-daemon/src/eventlog.rs:55-112 | with increasing numbers, history equals the newest limit events below the anchor if and only if none of those is cut |
| EventLog.HistoryInAnyOrder | crates/daoti-daemon/src/eventlog.rs:55-112 | for numbers in any order, when none of the newest limit events is cut they are returned sorted by number, and newest first if and only if their numbers descend that way |
| EventLog.RestartReorders | crates/daoti-daemon/src/eventlog.rs:109 | an event logged before a restart is returned before a later one with a smaller number |
| EventLog.ShortHistoryIsExact | crates/daoti-daemon/src/eventlog.rs:55-112 | nothing is lost from a file of at most 8192 bytes |
| EventLog.LongEventIsLost | crates/daoti-daemon/src/eventlog.rs:77-104 | a lone event of 8192 bytes or more is never returned |
| EventLog.SortedDescending | crates/daoti-daemon/src/eventlog.rs:109 | the final sort orders by number and keeps every event |
| EventStream.SplitContinues | daoti-ui-web/src/lib/daemon.js:213-216 | splitting a longer input continues from the unfinished last part only |
| EventStream.ReadLoop | daoti-ui-web/src/lib/daemon.js:206-234 | for every cut into chunks, the callbacks and the leftover buffer are those of one split of the whole stream |
| EventStream.StreamIsDecoded | daoti-ui-web/src/lib/daemon.js:208-233 | after any frames and any unfinished part of the next, in any chunks, exactly the frames' events have been dispatched in order and the part is buffered |
| EventStream.SplitFrames | crates/daoti-daemon/src/http.rs:266-289 | the frames sent, data and keep-alive comments, are cut apart as they were written |
| EventStream.DispatchFrame | daoti-ui-web/src/lib/daemon.js:217-232 | a data frame leads to the callback for its payload, a comment or unreadable payload to none |
| EventStream.DataOfFirst | daoti-ui-web/src/lib/daemon.js:218-223 | the payload is what follows `data:` on the first line of a block that starts with it |
| EventStream.DataOfNone | daoti-ui-web/src/lib/daemon.js:218-221 | a block without such a line has none |
| EventStream.BlankCharacters | daoti-ui-web/src/lib/daemon.js:223 | what the payload is trimmed of |
| EventStream.OneCallbackEach | daoti-ui-web/src/lib/daemon.js:217-232 | there are as many callbacks as readable data frames |
| EventStream.CallbackOfFrame | daoti-ui-web/src/lib/daemon.js:222-229 | each readable frame leads to one callback in its turn, the lag callback for a lag notice and the event callback otherwise |
| Machine.RunKeepsInv | crates/daoti-daemon/src/executor.rs:227-247 | every reachable state has handles below the counter, balanced pipes, sound pages and a heap of the right length |
| Machine.HandlesAreNotReused | crates/daoti-daemon/src/executor.rs:228-232 | a handle that is gone never comes back in any run |
| Machine.PipeConservation | crates/daoti-daemon/src/executor.rs:278-427 | in every run with copies and closes, the bytes of successful writes to a pipe are those of successful reads followed by the buffer, in order |
| Machine.PipeLedger | crates/daoti-daemon/src/executor.rs:299-316 | between any two states of a run a pipe's history only grows and what was delivered is a prefix of what was accepted |
| Machine.ClosedIsForever | crates/daoti-daemon/src/executor.rs:299-308 | once closed, a pipe's buffer and history never change again |
| Machine.WriteSucceedsExactly | crates/daoti-daemon/src/executor.rs:333-386 | in every reachable state a pipe write succeeds exactly when the original reading handle is open and the pipe not closed; it then appends all its bytes and reports their number, otherwise it changes nothing; the peer is never another kind of handle |
| Machine.ReadSucceedsExactly | crates/daoti-daemon/src/executor.rs:299-328 | in every reachable state a pipe read through any copy succeeds exactly when the pipe is not closed; it then delivers the oldest bytes, as many as asked for or all, and reports their number |
| Machine.ReadCatchesUp | crates/daoti-daemon/src/executor.rs:309-315 | after a read that asks for enough, everything written has been delivered |
| Machine.PipeDelivers | crates/daoti-daemon/src/executor.rs:719-778 | what is written to the second handle of a new pipe is what a copy of the first one reads |
| Machine.CopyIsTheSame | crates/daoti-daemon/src/executor.rs:745-778 | a copy is a new handle for the same resource, and nothing else changes |
| Machine.CloseForgets | crates/daoti-daemon/src/executor.rs:393-427 | closing removes the one handle and marks a pipe only for a writing end whose original reading handle is open |
| Machine.OpenedFile | crates/daoti-daemon/src/executor.rs:228-247 | an opened file gets the next handle and nothing else changes |
| Machine.RefusalsChangeNothing | crates/daoti-daemon/src/executor.rs:277-427 | an operation not answered with success changes nothing |
| Machine.AnswersByHandle | crates/daoti-daemon/src/executor.rs:277-391 | files answer what the system answers, the wrong end of a pipe refuses with code 9 |
| Machine.AnswersWithoutHandle | crates/daoti-daemon/src/executor.rs:277-401 | an unknown handle is an error, and code 9 for closing |
| Machine.AnswersWithoutNumber | crates/daoti-daemon/src/executor.rs:277-293 | arguments that are no numbers are errors |
| Machine.FirstAnswers | crates/daoti-daemon/src/executor.rs:200-232 | a new executor numbers handles from 0 and hands out addresses from its two bases |
| Machine.OrphanedWriters | crates/daoti-daemon/src/executor.rs:357-360 | after the original reading handle is closed every later write to the pipe is an error |
| Machine.OneCloseStopsAll | crates/daoti-daemon/src/executor.rs:402-427 | closing any copy of a writing end freezes the pipe for every handle, unless the original reading handle is gone already |
| Machine.PagesAreDisjoint | crates/daoti-daemon/src/executor.rs:834-872 | in every reachable state live pages are aligned, non-empty, disjoint, below the cursor and as long as their data |
| Machine.NoRangeTwice | crates/daoti-daemon/src/executor.rs:834-859 | a range given out at any moment of a run stays on record to its end, freed or not, and the next allocation lies behind it |
| Machine.PageLivesOnce | crates/daoti-daemon/src/executor.rs:834-872 | an allocated page is readable and zero, freeing removes exactly it, freeing it again fails |
| Machine.RoundUpIsLeast | crates/daoti-daemon/src/executor.rs:842-843 | the rounded size is the least page multiple covering the request |
| Machine.BreakIsTheSum | crates/daoti-daemon/src/executor.rs:875-907 | in every run the break is the base plus the accepted deltas and the heap holds that many bytes |
| Machine.HeapKeepsBytes | crates/daoti-daemon/src/executor.rs:875-907 | moving the break keeps the bytes below it, new ones are zero, and below the base nothing happens |
| Machine.GrowThenShrink | crates/daoti-daemon/src/executor.rs:1052-1069 | growing by n and shrinking by n restores the state; shrinking below the base changes nothing |
| Executor.WindowsFileExecutor.constructor | crates/daoti-daemon/src/executor.rs:195-209 | a new executor stands for the initial machine state |
| Executor.WindowsFileExecutor.ExecCreateFile | crates/daoti-daemon/src/executor.rs:260-274 | takes the next handle for an opened file, nothing otherwise |
| Executor.WindowsFileExecutor.ExecReadFile | crates/daoti-daemon/src/executor.rs:277-328 | drains the shared buffer through any copy of the reading end, with all refusals |
| Executor.WindowsFileExecutor.ExecWriteFile | crates/daoti-daemon/src/executor.rs:331-399 | appends to the buffer found through the peer handle, with all refusals; two branches are proved dead |
| Executor.WindowsFileExecutor.ExecCloseHandle | crates/daoti-daemon/src/executor.rs:402-427 | removes the handle and sets the shared flag when it was a writing end with its peer open |
| Executor.WindowsFileExecutor.ExecCreatePipe | crates/daoti-daemon/src/executor.rs:719-744 | takes two handles and one fresh pipe object |
| Executor.WindowsFileExecutor.ExecDuplicateHandle | crates/daoti-daemon/src/executor.rs:747-778 | the copy shares the pipe object of the original |
| Executor.WindowsFileExecutor.ExecVirtualAlloc | crates/daoti-daemon/src/executor.rs:834-859 | refuses size 0, otherwise takes a zeroed rounded-up page at the cursor |
| Executor.WindowsFileExecutor.ExecVirtualFree | crates/daoti-daemon/src/executor.rs:862-872 | removes a page by its start address, or fails |
| Executor.WindowsFileExecutor.ExecBrk | crates/daoti-daemon/src/executor.rs:875-907 | grows or shrinks the heap and its data together |
| Executor.RunEvents | crates/daoti-daemon/src/executor.rs:54-125 | the loop leaves the machine after all mapped operations, records each answer, counts every event once and aborts on a mapping error |
| Decision.NetworkOnlyFillsMisses | crates/daoti-core/src/agent.rs:1112-1167 | per event, the network keeps rule hits and errors, and derives only where the rules miss, behind a ready gate, at or above the threshold, outside the blocklist |
| Decision.NetworkOnlyImproves | crates/daoti-core/src/agent.rs:1112-1167 | over any events the ledger is that of the rules alone and misses are never more; with a closed gate the runs are identical |
| Decision.DerivesExactly | crates/daoti-core/src/agent.rs:1140-1167 | without a rule the network's answer is taken exactly when the four gate conditions hold, encoding, network and decoding give it, it is confident enough and not blocked |
| Decision.VerdictsExactly | crates/daoti-core/src/agent.rs:1112-1138 | what decides a hit, an error and a miss |
| Decision.BlockedExactly | crates/daoti-core/src/bilateral/gate.rs:22-33 | exactly the ten listed operations are blocked, in any ASCII letter case |
| Decision.OneDerivationSaves | crates/daoti-core/src/agent.rs:1112-1138 | one event on which the network is heard makes the misses strictly fewer than with the rules alone |
| Decision.LedgerFollowsHits | crates/daoti-core/src/agent.rs:1112-1127 | the ledger of a run starts empty and is advanced by the hits, in order |
| Decision.OpenInLedger | crates/daoti-core/src/agent.rs:1229-1234 | an opened path is recorded under the next number |
| Decision.CloseInLedger | crates/daoti-core/src/agent.rs:1235-1243 | a closed number is gone, and no other operation touches the table |
| Decision.MapsInLedger | crates/daoti-core/src/agent.rs:1244-1259 | an allocation replaces what its address held, a release removes it, other addresses stay |
| Decision.PlaceInLedger | crates/daoti-core/src/agent.rs:1260-1269 | directory and break change with their own operation only |
| Decision.OperationsInOrder | crates/daoti-core/src/agent.rs:1330-1340 | the operations reported are those of the events not missed, in their order |
| Decision.StopsAtTheFifth | crates/daoti-core/src/agent.rs:1330-1340 | an early stop comes with the fifth miss |
| Decision.MissesAreCardinality | crates/daoti-core/src/agent.rs:1132-1133 | misses are counted one by one |
| Decision.Bookkeeping | crates/daoti-core/src/agent.rs:1112-1138 | miss counter, numbered telemetry records and hits + misses agree with the events in every error-free run |
| Decision.AddressesAreDistinct | crates/daoti-core/src/interceptor/state.rs:106-119 | in every run each mapped address is listed once |
| Decision.NetworkStopsNoEarlier | crates/daoti-core/src/agent.rs:1327-1345 | with the network the early-stopping run goes at least as far and falls back only if the rules alone would |
| Decision.DecisionPipeline.UniqueSyscalls | crates/daoti-core/src/interceptor/telemetry.rs:136-146 | collecting, sorting and de-duplicating gives the numbers of the missed events, ascending, each once |
| Decision.DecisionPipeline.Step | crates/daoti-core/src/agent.rs:1112-1138 | the method's updates of ledger, telemetry and counter are those of the event's verdict; an error changes nothing |
| Decision.RunB1 | crates/daoti-core/src/agent.rs:1321-1370 | without errors the run consumes the shortest prefix with five misses or everything, returns the operations of the non-missed events in order and the numbers of the missed ones without repetition, and falls back exactly at five misses |
| MachO.ScanImage | crates/daoti-core/src/macho_runtime.rs:84-141 | the loop computes the scan function, aborts included, on every byte string without reading outside it |
| MachO.ScanReads | crates/daoti-core/src/macho_runtime.rs:84-141 | a successful scan has followed a chain of as many commands as the header announces, at strictly increasing offsets inside the declared area; it returns one region per segment command in order - file slice, zeros up to vmsize, address, protection - and the entry of the last LC_MAIN |
| MachO.ScanSucceedsExactly | crates/daoti-core/src/macho_runtime.rs:84-141 | the scan succeeds if and only if the header is that of an x86-64 executable and announces such a chain with readable segments below 2^63 bytes and an LC_MAIN |
| MachO.ScanFollowsChain | crates/daoti-core/src/macho_runtime.rs:103-140 | the same for any number of commands passed so far |
| MachO.ScanOfImage | scripts/build-macho-console-fixture.py:99-121 | scanning the encoding of any well-formed commands gives back their segments and the last entry offset, or aborts exactly when a region has 2^63 bytes or more |
| MachO.SegmentIsLoaded | crates/daoti-core/src/macho_runtime.rs:113-135 | every segment of an image that loads comes back in its place, with address, size, file bytes, zeros, and read, write and execute from the three low protection bits |
| MachO.LastEntry | crates/daoti-core/src/macho_runtime.rs:136 | the last LC_MAIN gives the entry offset |
| MachO.HeaderFormat | scripts/build-macho-console-fixture.py:99-121 | the bytes of the header's magic, processor and file type |
| MachO.CommandFormat | scripts/build-macho-console-fixture.py:99-121 | the bytes of the two command identifiers |
| MachO.HeaderErrors | crates/daoti-core/src/macho_runtime.rs:84-100 | which error an unusable header gives |
| MachO.CommandErrors | crates/daoti-core/src/macho_runtime.rs:104-111 | which error a truncated or ill-sized command gives |
| MachO.SegmentErrors | crates/daoti-core/src/macho_runtime.rs:119-128 | which error an unusable segment gives |
| MachO.FirstErrorDecides | crates/daoti-core/src/macho_runtime.rs:103-140 | the first command in error decides the answer |
| MachO.HugeSegmentAborts | crates/daoti-core/src/macho_runtime.rs:113-128 | a file of 128 bytes with one segment of 2^63 bytes aborts the scan |
| MachO.LE64IsRead | crates/daoti-core/src/macho_runtime.rs:34-39 | little-endian fields are read back anywhere in an image |
| Sampler.EpochBatches | daoti/train_perception_v2.py:237-267 | for all labels and permutations: no index twice, balanced labelled batches of distinct categories, pointers equal to the share times the batches that chose the category; an early stop only when too few categories are left, and then at least (13 - batch_cats)*n shares have been drawn when every pool holds n |
| Sampler.DrawBatch | daoti/train_perception_v2.py:258-264 | one batch takes the next share of each chosen category and advances exactly their pointers |
| Sampler.DrawKeepsUsed | daoti/train_perception_v2.py:260-264 | drawing a share never repeats an index drawn before |
| Sampler.IndicesOf | daoti/train_perception_v2.py:233-235 | a category's pool holds exactly the indices with that label, each once |
| Sampler.CountIsCardinality | daoti/train_perception_v2.py:233-235 | the pool sizes are the numbers of indices with each label |
| Sampler.LabelBlocks | daoti/train_perception_v2.py:258-264 | the labels of a batch come in blocks, one per category in its order |
| EventBus.RunKeepsInv | crates/daoti-daemon/src/eventbus.rs:47-60 | under every interleaving stamps are distinct and consecutive, nothing is delivered twice, and sent + dropped + in flight is the sequence counter |
| EventBus.IdleMetrics | crates/daoti-daemon/src/eventbus.rs:63-68 | whenever no publication is in progress, sent + dropped is the number published and the channel took exactly the sent ones |
| EventBus.ReceiverComesAndGoes | crates/daoti-daemon/src/eventbus.rs:70-73 | a receiver that comes and goes leaves the bus as it was |
| EventBus.OvertakingIsPossible | crates/daoti-daemon/src/eventbus.rs:47-60 | two publishers can deliver stamp 1 before stamp 0 |
| EventBus.OrderKeptExactly | crates/daoti-daemon/src/eventbus.rs:47-60 | over any run, deliveries stay in stamp order throughout if and only if each one takes the smallest stamp waiting at that moment |
| EventBus.DropsExactly | crates/daoti-daemon/src/eventbus.rs:50-58 | between two quiet moments the drop counter is unchanged if and only if every send found a receiver |
| EventBus.StampIsLost | crates/daoti-daemon/src/eventbus.rs:47-60 | a publication without a receiver draws a stamp that nobody sees |
| EventBus.NothingIsMissingExactly | crates/daoti-daemon/src/eventbus.rs:47-60 | between two quiet moments the stamps delivered are a permutation of those drawn if and only if every send found a receiver |
| EventBus.ContinuousExactly | crates/daoti-daemon/src/eventbus.rs:70-73 | between two quiet moments the delivered sequence is exactly the consecutive stamps if and only if every send found a receiver and took the smallest stamp waiting |
| EventBus.OneToOneIsContinuous | crates/daoti-daemon/src/eventbus.rs:70-73 | with a single publisher and a subscriber that stays, the delivered sequence is the consecutive stamps |

## Left out

- Floating point: reals stand for f64, so rounding, NaN and infinity checks, and the sign of zero in comparisons are not modelled.
- Network.New: does not reject NaN and infinite weights, because reals have none.
- Network.Forward: does not reject NaN and infinite inputs and outputs, because reals have none.
- Network: that a resonant signal exists for gain < 1 is not stated; `Network.Settles` gives convergence without naming a limit.
- Baseline.TrainBilateral: does not return the exported weights, which lay the trained matrix, an identity, a zero bias and the operation names out for storage.
- Machine integers: handle numbers and addresses are unbounded; `Machine.Fits` states where the source's 32-bit handles and signed 64-bit answers would overflow and where a buffer of 2^63 bytes or more would abort the program, and the executor's methods require it. Sequence counters of the bus do not wrap. Sizes are those of a 64-bit target.
- Memory: allocations below 2^63 bytes always succeed; exhausted memory is not modelled.
- Letter case: the case mappings of Unicode are parameters with the laws in `Config.GoodCase`, and their tables are not part of this model.
- Mach-O after the scan: the second parse for the entry point, memory registration and execution are not part of this model.
- Executor: file contents and positions, directories, device control, console handlers, process ids and the texts of messages. The answer of the operating system to a file read or write is an input.
- Executor.WindowsFileExecutor.ExecReadFile: lock poisoning is not modelled, because no modelled code panics while holding a lock.
- Decision: shadow suggestions, controlled guidance and user feedback records are left out; they would only add easy members.
- Decision.RunB1: the second execution path is reduced to two answers, whether it is ready and whether it works; what it returns is not modelled.
- EventStream: decoding of bytes to text, the health probe, back-off delays and reconnecting; the server library's framing is taken as one line `name: value` and a blank line.
- EventLog: failing file operations, which the source answers with an empty list, and the writer's lock.
- EventBus: the ring buffer behind the channel; a send fails only when there is no receiver.
- Baseline: the extraction of samples from source files and the dispatch decision.
- Sampler: tensors and the random generator; any permutation may be drawn.
