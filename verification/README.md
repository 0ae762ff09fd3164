# zfl: a verified model

zfl trains a small neural network on several clients and averages the results on a server. This
project models its four hard parts in Dafny and proves what they are for. Floats are mathematical
reals. `exp` is any positive function, increasing where order matters; where the loss is concerned,
one with exp(x + y) = exp(x) exp(y) and 1 + x <= exp(x), and `ln` its inverse.

**Training** (`Network`, `Gradient`, `Descent`, `Smooth`, `Logarithm`, `Tangents`, `Loss`,
`Improvement`, `Matrices`, `Training`, `Arena`, `Learning`, `Batches`, `Accuracy`, `Reported`,
`Shuffle`). The kernels of nn.h update matrices in place. `NnBackprop` is proved to leave exactly the
recurrences of `Network.Backprop`, and those are proved to be the gradient of the mean cross entropy:
along every line through the network the loss has a slope at 0, and it is the inner product of gradient
and direction (`Loss.BackpropIsDerivative`). That holds for every architecture and sample matrix in
which no hidden unit's logit is 0, where the leaky ReLU has no slope, and every label is one-hot; for
another label the seed of the backward pass is not the slope (`Loss.SeedIsSlope`). Without
`NN_BACKPROP_TRADITIONAL`, as server and clients are built, the factor `s` is 2 and layer l is off by
exactly a power of 2; every small enough learning rate lowers the loss all the same, unless the gradient
is zero (`Improvement.LearningDescends`). `dactf` applies the derivative of the leaky ReLU at the softmax
output too; that slope is 1 because softmax outputs are positive.

**The round protocol** (`FedAvg`, `Rounds`, `Delivery`, `Handler`). One round thread, one handler thread a
reply, and the clients are a step system: each critical section is a step, and any interleaving is a
run. Assumed of the clients: a reply for a round comes only from a client that was sent that round's
request, at most once for it, and with a model of the right shape; at least one client a round.
Whatever the interleaving, the server then computes synchronous federated averaging: no reply is
dropped or counted for another round, all requests of a round carry one model, and histories stay
aligned. Every participant is sent its request unless three tries fail, and once all have been sent,
the round can always be completed. The model sent is read outside the mutex that guards its update, while the request is
built; it cannot change meanwhile, because the round cannot be over before that request's answer is
counted (`Rounds.Unfinished`). A client's training is an arbitrary function of client, round and
received model, so that the rounding on the wire is included.

**The wire** (`Json`, `Scanner`, `Parser`, `Grammar`, `Numbers`, `Reading`, `Accepted`, `Decimal`,
`Wire`, `Printing`, `Payloads`). The scanner of cson.h runs over a cursor and links tokens on the heap;
`Parser.Cson` is proved to follow the functions of `Scanner`, to build a forest, and to leave a tree
that `free_tokens` frees once a token. Every text of RFC 8259, sections 2 to 7, with any spacing, is
read to its end into the tokens of its value; the texts accepted are exactly the looser ones that
`Accepted` spells out. Printing a network, scanning the text, walking the keys and reading the weights
gives back every printed number rounded to six decimals, from client to server (`Payloads.Deliver`) and
from server to client (`Payloads.Broadcast`).

**Requests** (`Http`). Which request lines get through `recv_required_req` however the stream is cut.

Where the code does not do what it seems meant to do, the code is modelled, and the exact condition
is proved:

- `weights_to_string` prints `w.elements[j]` for the biases (common.h:66, 68), that is, row 0 of the
  weights. A network survives the way if and only if its numbers have at most six decimals and each
  layer's biases repeat the first row of its weights (`Wire.NetworkArrives`; `Wire.BiasesLost` gives,
  for every architecture, a network that does not survive). With the biases printed, six decimals
  suffice.
- `scan_object` chains the keys on the object's own `next`, which `scan_array` overwrites when
  another element follows. A tree determines its value if and only if no object, empty or not, stands
  before the last element of an array (`Json.TreeDetermines`): `[{}, null]` and `[{"a": null}, null]`
  have one tree (`Json.TreeShared`). No payload has such an object.
- `recv_required_req` gives up after 256 bytes, counted after a read, so that a line of more than 156
  bytes can be lost (`Http.AlwaysGetsThrough`).
- `scan_number` also accepts leading zeros and an exponent before the fraction (`Numbers.NumberIs`),
  commas between elements and members are optional, and one may follow the last; numbers that touch
  are read as one (`Accepted.AcceptsLoose`).
- `nn_cross_entropy` adds the logarithms of all outputs, not of those the labels name (nn.h:389-392). What
  it reports is smallest exactly for a network that gives every class the same share, whatever the
  labels (`Reported.ReportFloor`); it is not the loss that training lowers.
- `find_first_match` compares the pattern with what lies behind the buffer; that changes the result
  exactly when a match reaches into it (`Http.Overhang`).

## Model

| member | source | states |
|---|---|---|
| Network.PositiveTotal | nn.h:360-365 | the sum that softmax divides by is positive for every row, so the division is safe |
| Matrices.MatDot | nn.h:212-226 | the three nested accumulation loops leave the matrix product |
| Matrices.MatSum | nn.h:245-253 | the destination holds the entrywise sum |
| Network.ReluIs | nn.h:157-157 | the leaky ReLU is the larger of its argument and a hundredth of it, 0 at 0, and passes on between a hundredth and the whole of every rise |
| Matrices.MatRelu | nn.h:157-157 | every entry is replaced by its leaky ReLU, the larger of the old entry and a hundredth of it |
| Matrices.MatFill | nn.h:275-281 | every entry holds the value |
| Network.PeakIs | nn.h:351-359 | the running maximum, which starts at 0, is the one number that is not negative, not below any entry, and 0 or an entry |
| Training.FindPeak | nn.h:351-359 | the loop finds the largest of 0 and the entries of the row |
| Training.SoftmaxRow | nn.h:349-370 | the three in-place loops turn the logits into their softmax |
| Training.Forward | nn.h:343-374 | after the layer loop every activation row holds the forward pass of the input; a hidden activation is the larger of its logit and a hundredth of it |
| Training.BackLayer | nn.h:462-479 | the loops over units and previous activations add the layer's terms to gradient and blame |
| Training.BackSample | nn.h:462-480 | the backward loops over the layers add one sample's gradient to what was there |
| Training.NnAlloc | nn.h:291-313 | arrays of the shapes of the architecture, all different; that the arena gives that is stated by the next rows |
| Arena.WordsHold | nn.h:597-602 | the bytes asked for are rounded up to whole words, to no more than needed |
| Arena.Region.Alloc | nn.h:595-609 | the next words of the region, or nothing when they do not fit |
| Arena.NnAlloc | nn.h:291-313 | succeeds exactly when the rounded-up sizes of all requests fit, and then lays them out one after another |
| Arena.BlocksApart | nn.h:595-609 | no block reaches into a later one |
| Arena.ShapesAre | nn.h:303-308 | the matrices laid out have the shapes of the arrays |
| Arena.EntryInBounds | nn.h:291-313 | every number of a network lies within the words taken |
| Arena.EntriesApart | nn.h:291-313 | no two numbers of a network overlap, whatever the architecture |
| Arena.TempSuffices | zflclient/src/train.h:34-35 | 500 * 1024 bytes hold the gradient of the network 784, 16, 10, with words of eight or four bytes |
| Training.NnBackprop | nn.h:419-484 | the returned arrays hold the gradient summed over all samples, and the network is unchanged |
| Gradient.TransposeAdjoint | nn.h:478-478 | passing blame down through the weights is the transpose of passing a tangent up |
| Gradient.OuterAdjoint | nn.h:477-477 | the outer product stored for the weights pairs with a perturbation as the logits do |
| Gradient.BlameTelescopes | nn.h:462-480 | what blame and tangent pair to above a layer is what they pair to below it plus the layer's own share |
| Gradient.PassAdjoint | nn.h:462-480 | for one sample, gradient times direction is blame times tangent at every depth |
| Gradient.OutputSlopeIsOne | nn.h:184-189 | the slope used at the softmax output is 1 |
| Gradient.SampleAdjoint | nn.h:434-480 | for one sample, gradient times direction is output seed times propagated tangent |
| Gradient.BackpropIsAdjoint | nn.h:419-484 | with s = 1, gradient times direction is the sum over the samples of output seed times propagated tangent, for all networks, samples and directions |
| Descent.BackpropScaling | nn.h:456-480 | with factor s, layer l of L is s to the power L - l times the gradient with s = 1 |
| Descent.StepDescends | nn.h:513-525 | the step taken makes an obtuse angle with the gradient in both variants, unless the gradient is zero |
| Tangents.ReluSlope | nn.h:179-189 | away from 0 the slope recovered from the value is that of the leaky ReLU, and at 0 its slope to the right |
| Tangents.TangentsAreSlopes | nn.h:343-374 | along a line of networks every hidden activation has, up to a quadratic error, the slope that its tangent says |
| Tangents.OutputLogitsSlope | nn.h:343-374 | and so have the output logits |
| Loss.LnSoftmax | nn.h:349-370 | the logarithm of an output is its logit less that of the sum of all exponentials; subtracting the peak does not matter |
| Loss.RowLossHasSlope | nn.h:434-480 | whatever the label, how one sample's cross entropy moves with the network |
| Loss.SeedIsSlope | nn.h:443-446 | the seed is the slope of the mean cross entropy in the logits exactly when the label is one-hot |
| Loss.BackpropIsDerivative | nn.h:419-484 | with s = 1, the loss has exactly one slope along each line through the network, and it is gradient times direction |
| Improvement.LearningDescends | nn.h:513-525 | in both variants every small enough rate lowers the loss exactly when the gradient is not zero, and none changes it when it is |
| Reported.CrossEntropy | nn.h:376-395 | the loops add the logarithms of all outputs |
| Reported.ReportFloor | nn.h:389-392 | the number reported is smallest exactly when every class gets the same share, whatever the labels |
| Learning.NnLearn | nn.h:513-525 | every weight and bias moves by rate times its gradient, none is touched twice |
| Learning.TrainBatch | zflclient/src/train.h:31-36 | one batch leaves the network learned from that slice's gradient |
| Learning.MatSlice | nn.h:540-547 | the rows shown are those from `from` on |
| Learning.TrainEpoch | zflclient/src/train.h:29-47 | an epoch takes slices in ascending order; each row below the last full batch is in exactly one of them, the rows that are left over in none, and each step starts from the network the one before it left |
| Learning.Train | zflclient/src/train.h:23-51 | so does each of the epochs, starting where the one before it stopped; the samples are unchanged |
| Learning.BatchOf | zflclient/src/train.h:24-35 | the batch that has row r is the one of number r / size, if r is below the last full batch |
| Learning.BatchDescends | zflclient/src/train.h:31-36 | one batch lowers the loss on its own rows for every small enough rate, exactly when their gradient is not zero |
| Batches.Batch.Process | nn.h:546-580 | one call takes the next rows, at most a batch, and finishes when none are left |
| Batches.FinishesLast | nn.h:546-580 | the calls finish exactly at the last of ceil(rows / batch) batches, with the mean of their costs, and then start over |
| Batches.EachRowOnce | nn.h:546-580 | every row is in the batch of exactly one of those calls, and no batch is empty |
| Accuracy.SoftmaxIsDistribution | nn.h:349-370 | outputs are positive and sum to 1 |
| Accuracy.SoftmaxKeepsOrder | nn.h:349-370 | outputs are ordered as the logits are |
| Accuracy.FirstMaxIs | common.h:236-243 | the index is that of the first largest entry, in both directions |
| Accuracy.ArgMax | common.h:236-243 | the loop whose maximum starts at 0 finds the first largest of positive outputs |
| Accuracy.IsHit | common.h:244-251 | compares with the first entry of the one-hot part that is 1 |
| Accuracy.RightIs | common.h:236-251 | comparing the first 1 of the label with the index found counts a row exactly when the first class that the label marks has a logit above all earlier ones and not below any later one |
| Accuracy.Accuracy | common.h:223-255 | the number of those rows divided by the number of all: 1 exactly when every row is one, 0 exactly when none is |
| Shuffle.OneToOne | nn.h:527-538 | different draws give different orders |
| Shuffle.Onto | nn.h:527-538 | every order comes from some draws |
| Shuffle.Bijection | nn.h:527-538 | the orders that can come out are exactly the permutations, each from one sequence of draws |
| Shuffle.AnyOrder | nn.h:527-538 | calls of `rand` can bring about exactly the permutations of the rows |
| Shuffle.ShuffleRows | nn.h:527-538 | the in-place swaps compute that order and keep the multiset of rows |
| FedAvg.TotalRemove | common.h:171-188 | the sum of the replies does not depend on the order in which they are taken |
| FedAvg.MeanBetween | zflserver/src/main.c:309-320 | no entry of the mean leaves the range of the replies |
| Rounds.RunKeeps | zflserver/src/main.c:258-345 | the invariant of the protocol holds after every run, whatever the interleaving |
| Rounds.StillOpen | zflserver/src/main.c:276-302 | a reply that has not been counted belongs to the current round, which is still open |
| Rounds.AddedToItsRound | zflserver/src/main.c:276-302 | a reply that passed the check meets its own open round, nobody averaging |
| Rounds.NoStaleReply | zflserver/src/main.c:258-302 | in every run no reply is skipped, and each that passed the check is added once, to its own round |
| Rounds.AverageIsMean | zflserver/src/main.c:309-322 | what is divided out at the end of a round is the mean over all its participants |
| Rounds.RunIsFedAvg | zflserver/src/main.c:295-340 | in every run the model is that of the completed rounds and the buffer the sum of the replies added so far |
| Rounds.OrderDoesNotMatter | zflserver/src/main.c:295-340 | runs with the same participants end with the same model and scores |
| Rounds.Unfinished | zflserver/src/main.c:523-565 | while a participant has not been sent its request nothing can change the model being sent |
| Delivery.EveryoneServed | zflserver/src/main.c:523-562 | in every run: a participant whose turn is over was sent its request, after at most three tries, or exactly three tries failed; the one whose turn it is has had fewer; nobody else has been tried or sent anything |
| Delivery.RoundOpens | zflserver/src/main.c:446-565 | from the top of the loop: when just as many clients are ready as a round takes, a round is opened, and with every try delivered the thread is back at the top with the model sent to all of them and to nobody else; any other number opens none |
| Delivery.NoRoundOpens | zflserver/src/main.c:448-468 | while a round is open the thread goes back to its top; after the last round it ends, and no round is opened any more |
| Delivery.RoundCompletes | zflserver/src/main.c:258-345 | an open round whose requests were delivered can be completed from wherever it stands, with the model averaged, logged and the round closed |
| Delivery.AnswersEnd | zflserver/src/main.c:258-345 | however clients and handlers go on, an open round takes them at most four steps a participant and three more |
| Rounds.ConsistentBroadcast | zflserver/src/main.c:495-565 | all requests of a round carry one model, the mean of the round before |
| Rounds.HistoriesAligned | zflserver/src/main.c:331-339 | in every reachable state the histories have one entry a completed round: how long it took, the scores of its model, and the statistics of its participants, each once |
| Rounds.SlotExists | zflserver/src/main.c:89-97 | the one slot that can be added is always enough, so that the index is in bounds |
| Rounds.NeverStuck | zflserver/src/main.c:258-345 | in an open round whose requests were delivered some client or handler can take a step |
| Rounds.TurnedAway | zflserver/src/main.c:267-283 | in whatever state, a reply for another round, or one that meets the averaging, leaves the server as it is |
| Rounds.AnsweringTwice | zflserver/src/main.c:285-302 | a reply delivered twice closes a round of two with one client's model, hence the assumption |
| Rounds.SlotUpdated | zflserver/src/main.c:89-97 | one entry is added at the end of the round's statistics, in a new slot if there is none, and no other slot changes |
| Handler.Server.UpdateStats | zflserver/src/main.c:89-97 | the same, in place |
| Handler.Server.AddParams | common.h:159-194 | the buffer is overwritten or added to, entry by entry |
| Handler.Server.Accumulate | zflserver/src/main.c:285-302 | a reply is added and counted, and the flag says whether it was the last |
| Handler.Server.Average | zflserver/src/main.c:309-322 | buffer and model become the sums divided by the participants |
| Handler.Server.HandleResults | zflserver/src/main.c:258-345 | the whole handler from any state of the round, when nothing comes between its sections |
| Json.ReadBack | cson.h:301-378 | a reader that takes an object without keys for an empty one gets the value back without the overwritten members |
| Json.ReadBackExact | cson.h:316-316 | that reader gets the value itself exactly when nothing was overwritten |
| Json.SameTree | cson.h:301-378 | two values have one tree exactly when they differ only in what is overwritten |
| Json.TreeDetermines | cson.h:316-316 | no other value has the same tree, if and only if no object stands before the last element of an array |
| Json.TreeShared | cson.h:316-316 | two arrays, one with an empty object and one without, that have one tree |
| Parser.Cson.Advance | cson.h:98-103 | the cursor moves by one and never past the end |
| Parser.Cson.ScanDigits | cson.h:159-193 | the inner loop ends where the number does, and its hand-kept length is that of the text stored |
| Parser.Cson.ScanNumber | cson.h:140-200 | follows the scanning function, and stores exactly the bytes read |
| Parser.Cson.ScanString | cson.h:230-278 | follows the scanning function, and stores the text between the quotes |
| Parser.Cson.ScanSpecial | cson.h:280-297 | accepts the word and nothing else |
| Parser.LinkElement | cson.h:313-318 | the new element ends the array's chain, and what followed the last one is dropped |
| Parser.LinkKey | cson.h:366-368 | the new key ends the object's chain, with its value below it |
| Parser.Cson.ScanArray | cson.h:301-331 | the tree built is linked, without sharing, fresh, and holds the scanned tokens |
| Parser.Cson.ScanObject | cson.h:333-378 | the same for objects |
| Parser.Cson.ScanToken | cson.h:380-403 | the same for every value; the cursor never moves back, and moves on in success |
| Parser.Cson.ParseJson | cson.h:422-438 | null exactly when there is no value, otherwise the forest of its tokens |
| Parser.FreeTokens | cson.h:446-456 | exactly the tokens of the tree are freed, each while it is allocated, and none is read after |
| Grammar.CharsAre | cson.h:202-219 | white space, digits and escapes are the characters that sections 2, 6 and 7 of RFC 8259 name |
| Grammar.StringIs | cson.h:230-278 | a string is read exactly when one stands there |
| Grammar.NumberAt | cson.h:140-200 | every number of RFC 8259 is read whole, when what follows cannot continue it |
| Numbers.NumberIs | cson.h:140-200 | the scanner reads up to a place exactly when a text of the stated language stands there |
| Reading.ScanRendered | cson.h:380-403 | every document is scanned to its end wherever it stands, into the tokens of its value |
| Reading.ReadsText | cson.h:422-438 | the same for a whole text with anything after it |
| Reading.ReadsValue | cson.h:301-438 | scanning, and that same reader of the tree, give back the value exactly when nothing was overwritten |
| Accepted.GapIs | cson.h:323-326 | what is skipped after an element is space, or space with one comma in it |
| Accepted.KeyIs | cson.h:345-355 | a member starts with a string, space and a colon |
| Accepted.AcceptsLoose | cson.h:301-403 | a place is read as certain tokens up to an end if and only if a loose text with that value stands there, in which no number runs into the next |
| Accepted.NoComma | cson.h:323-326 | `[1 2]` is read as two numbers |
| Accepted.LastComma | cson.h:323-326 | `[1,]` is read as one number |
| Accepted.TouchingNumbers | cson.h:140-200 | two numbers with nothing between them are read as one |
| Decimal.NumeralIs | common.h:50-52 | the numeral of a number: each digit by its place, and no leading zero |
| Decimal.IntShown | zflclient/src/main.c:135-138 | %d, %ld and %zu print a sign for negative numbers only, and the numeral |
| Decimal.NearestIs | common.h:50-52 | %f rounds to the nearest millionth, and to the even one of two |
| Decimal.RealShown | common.h:50-52 | %f prints a sign for whatever is below zero, the whole part, a point and six digits |
| Decimal.ReadPrintedInt | common.h:125-147 | %zu, %ld and %d read back by atol are the number printed |
| Decimal.ReadPrintedReal | common.h:50-52 | %f read back by strtof is the nearest multiple of a millionth |
| Decimal.RoundedExact | common.h:50-52 | it is off by at most half a millionth, and exact for six decimals only |
| Wire.LayersReadBack | common.h:159-194 | every printed number is read at its own place of weights and biases |
| Wire.PrintedSurvives | common.h:63-70 | which networks survive being printed as the code prints them |
| Wire.NetworkSurvives | common.h:159-194 | which would survive with the biases printed |
| Wire.AsSignedIs | zflclient/src/main.c:146-149 | the number printed for a counter is the one that a 32-bit `int` with its bits holds: in range, and the counter itself below 2^31 |
| Wire.CounterKept | common.h:136-149 | of whatever number stands in the text the nearest of 64 bits is taken, and its lowest 32 bits are kept |
| Wire.StartDecides | common.h:121-151 | how its name starts decides which key it is; other keys change nothing |
| Wire.StatStartDecides | common.h:136-149 | the same for the keys of the statistics |
| Wire.StatsReadBack | common.h:136-149 | 32-bit counters survive being printed as signed and read as unsigned |
| Wire.ReplyReadBack | common.h:105-157 | the keys of a reply give back round, time, statistics and the chain of the weights; round 0 is refused |
| Wire.ReplyArrives | zflclient/src/main.c:135-151 | from the text of a reply to the numbers, for all layer sizes |
| Wire.RequestArrives | zflserver/src/main.c:536-540 | the same for the request that opens a round |
| Wire.NetworkArrives | common.h:41-79 | the whole way gives the network back if and only if the stated condition holds, as written and as intended |
| Wire.BiasesLost | common.h:63-70 | for every architecture, a network with six decimals whose biases do not arrive |
| Printing.WeightsToString | common.h:41-79 | the loops append exactly the text of the document, first weight row in place of the biases |
| Printing.ReplyShows | zflclient/src/main.c:135-151 | the text of a reply spelled out, every counter as the 32-bit `int` with its bits |
| Printing.ReplyPayload | zflclient/src/main.c:135-151 | the text built is that of the reply |
| Printing.RequestPayload | zflserver/src/main.c:534-540 | the text built is that of the request |
| Payloads.WalkKeys | common.h:113-155 | walking the keys on the heap follows the reading of their tokens |
| Payloads.DeserializeTrainingData | common.h:105-157 | parses and walks: round, statistics, and a pointer to the chain of the weights |
| Payloads.ParseWeights | common.h:159-194 | each buffer gains the numbers at its own places, or holds just them |
| Payloads.InsertWeights | common.h:196-210 | the network becomes the layers in the buffers, which do not change |
| Payloads.ReplyKeysOk | common.h:113-155 | following the pointers through any reply meets no null |
| Payloads.Deliver | zflclient/src/main.c:131-187 | a reply printed, parsed, added to the buffers and freed: they gain the printed network rounded to six decimals |
| Payloads.RequestKeysOk | common.h:113-155 | nor does following them through any request |
| Payloads.InitModel | zflclient/src/main.c:80-108 | the network becomes what the weights say, by way of buffers of its own |
| Payloads.Broadcast | zflserver/src/main.c:534-540 | a request printed, parsed and copied into a client's network: it becomes the printed network rounded to six decimals |
| Http.FindFirstMatch | http.h:66-77 | the first place of the pattern, at most `size` bytes on and before any NUL, or none |
| Http.FirstUpToIs | http.h:66-77 | that place spelled out, in both directions |
| Http.Overhang | http.h:66-77 | what lies behind the buffer does not matter exactly when no match reaches into it |
| Http.Connection.ParseRequired | http.h:88-118 | follows the parsing function |
| Http.ParsesLine | http.h:88-118 | every request line at the start of a buffer is parsed, whatever follows |
| Http.OnlyLines | http.h:88-118 | nothing else is |
| Http.Connection.RecvRequired | http.h:224-240 | the receiving loop follows its specification on every sequence of reads |
| Http.OnlyLinesGetThrough | http.h:224-240 | whatever gets through is a request line at the start of the stream, and what is returned its length, method and URL; a stream that ends before its line is refused |
| Http.GetsThrough | http.h:224-240 | a way of cutting the stream lets the line through exactly when the piece that completes it ends before byte 256 |
| Http.AlwaysGetsThrough | http.h:224-240 | every way does if and only if the line has at most 156 bytes or the stream fewer than 256 |

## Left out

- Rounding, overflow and special values of floats: numbers are reals. `strtof` is modelled for a sign, digits and a fraction, which is all that is printed.
- Sockets, threads, files, the user interface, `fork` and the network emulation: only critical sections, deliveries and cuts of a stream remain.
- Liveness: a client that never answers, or whose request fails three times, holds its round open for ever. `Delivery.RoundCompletes` says that a round can be completed, not that clients and threads go on.
- Clients that answer twice, or payloads that do not parse: the server follows null pointers on some of them.
- A request is one step of the round thread, although its text is built over many reads of the model; `Rounds.Unfinished` shows that none of them can see a change.
- The clock: the times at which rounds open and close are arguments of the steps.
- Handler.Server.HandleResults: nothing comes between its sections; interleavings are the subject of `Rounds`.
- Training.NnAlloc: arrays are allocated one by one rather than in a region; `Arena` shows that the region keeps them apart.
- Payloads.InitModel: builds with `RANDOM_NN`, where a client starts from random weights, are left out, and `init_nn` finds the network allocated.
- Arena.NnAlloc: a null region, where each request goes to `malloc`, is not modelled, nor what a failed allocation leaves behind; the source aborts there.
- Learning.MatSlice: copies the rows that the original shows through a pointer; the samples are never written meanwhile.
- Matrices are two-dimensional arrays rather than flat storage, except in `Printing.PrintBiases`, where the flat index matters.
- Improvement.LearningDescends: says that small enough rates lower the loss, not that 0.1 (zflclient/src/train.h:26) is one.
- Loss.BackpropIsDerivative: networks with a hidden logit of exactly 0 are left out; the loss need not have a slope there.
- Batches.Batch.Process: the training between two calls is an argument, the cost of each batch; a data set without rows, where the source divides by zero, is left out.
- `nn_finite_diff`, `nn_cost`, other activations than leaky ReLU and softmax, and row views: unused by server and clients, or easy.
- What `train` prints every tenth epoch; `Accuracy.Accuracy` and `Reported.CrossEntropy` say what such numbers are.
- `write_stats`, `log_append`, `pretty_print`, and the growth of `StringBuilder` and dynamic arrays: sequences with append.
- Http.FindFirstMatch: the receive buffer has no terminator (sb.h:49-58); `Http.Connection` takes nothing to lie behind its `size` bytes, so that `Http.Overhang` applies.
- `parse_optional`, `parse_query_param` and `recv_content`: not modelled. The method and URL left behind by a failed parse are not constrained.
- Memory that a failed scan, or an overwritten object, leaves allocated: only what is reachable from the result is described.
- Word sizes: `long` and `size_t` have 64 bits, as on the server, and counters 32.
- Positions above the range of `int` in `scan_number`, and JSON texts that contain NUL.
