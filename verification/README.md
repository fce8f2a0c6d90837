# The replica layer of the Pancake proxy, proved in Dafny

The Pancake proxy hides which keys its clients use.  It stores every key under several encrypted
labels (replicas), pads them with dummy labels to exactly 2n labels for n keys, and turns the
clients' gets and puts into accesses that touch every label equally often.  A put is written to one
replica at once; the other replicas learn of it when they are next touched.

This project models that layer and proves three things about it, and their exact limits:

* **It is a key-value map.**  Over every interleaving of clients with one consumer, every promise
  is answered once and in push order (`EndToEnd.PromisesInOrder`), and, as long as the executed batches
  are hazard-free for the keys that clients use, with what one plain map answers
  (`EndToEnd.Linearizable`); from `init` on it is enough that no batch contains a replica of these keys
  twice (`Startup.ServedFromInit`).  Both go on over any number of redistributions of the same keys
  (`Lifetime.AlwaysInOrder`, `Lifetime.AlwaysLinearizable`), the second provided that every new replica of
  the clients' keys is in transition or pending in a cached vector.  All of this is stated for an
  arbitrary set of keys: other keys, such as the dummy once it has been given other keys' labels, may hold
  anything.  Hazard-freedom is a condition on bit vectors and replica numbers that can be read off before
  the call, and it is exact: for fixed vectors the accesses to a set of keys are answered like a map for
  every choice of stored and cached values with which these keys' replicas agree, if and only if the batch
  is hazard-free for them (`Hazards.HazardFreeExactly`).  So is the condition on redistributions
  (`Carryover.CarriedOverExactly`).
* **It is uniform.**  In every state that creation at any alpha >= 1/n, redistributions over the same
  keys and batches leave, and in which the fake weights are non-negative, a slot of a security batch
  touches each of the 2n labels with probability exactly 1/(2n) if and only if the dummy has not been
  looked up in `key_to_frequency_` since that map was last replaced and, while a key is in transition,
  real draws find a client operation (`PlanSmoothing.ProxyIsSmooth`).  Under the same condition in every
  slot, each sequence of labels that a batch of B slots can touch has probability exactly (1/(2n))^B
  (`JointMass.BatchIsSmooth`); at alpha = 1/n that holds in every state of every run, redistributions
  over the same keys included (`Lifetime.AlwaysSmooth`).  The masses are those of what the code does: a
  slot, filled as `create_security_batch` fills it from the weights that the proxy has built, and accessed with the
  replica that `execute_batch` draws, touches each replica with exactly that mass
  (`SlotDraws.SlotTouchIs`, `SlotDraws.SlotsTouchUniformly`); and of a batch the servers see no more than that
  the label of each access is read and then written (`Proxy.PancakeProxy.ExecuteBatch`).  These theorems take
  the dummy's count to be the current one.  With the count of creation, which the code keeps drawing with,
  such a slot is uniform if and only if that count is still right, up to one degenerate case with a single
  dummy, and labels that the dummies have gained are never touched (`Dummies.StaleCountIsUniform`,
  `Dummies.GainedIsUntouched`).  A batch keeps such a state whenever it stays inside the cached vectors (`Plans.BatchKeepsSound`); when that
  is guaranteed is again exact (`Draws.DrawsStayExactly`, `Draws.BatchesAfterwards`), and so is when the
  weights are non-negative (`Weights.TransitionWeighs`, `Weights.WeightsExactly`).
* **It never loses a label.**  After creation and any number of redistributions over the same keys,
  the directory is a bijection from the replicas, dummies included, onto the labels 0..2n-1
  (`Redistribution.EveryPlanIsSmooth`), as long as no two of the replicas that exist share a name - which
  is also necessary (`Directory.FiledExactly`) and always so for keys of one length or up to ten replicas
  per key.  A redistribution to any other key set, also after such redistributions, passes its assertions
  exactly under the conditions of `Redistribution.Passes`, and then keeps every label filed once under the
  same condition on the names (`Proxy.PancakeProxy.UpdateDistribution`); over any sequence of key sets a
  replica that exists all the time keeps its label (`Redistribution.EveryMoveKeepsLabels`).

## How the files fit together

| file | what it models |
|---|---|
| Naming.dfy | replica names `key + to_string(i)`, labels as text |
| Sums.dfy | finite sums, used by the probability and counting proofs |
| Smoothing.dfy | replica counts, dummies, fake weights, alpha and delta |
| SlotMass.dfy | the probability that one slot touches one label |
| Directory.dfy | `replica_to_label_`, and the moves of a redistribution |
| SwapOrder.dfy | which new replica gets which of the labels that are given up |
| UpdateCache.dfy | `update_cache`, both as the cache of pending writes and as the record of missing replicas |
| Storage.dfy | the sharded stores behind `rocksdb` and `redis` |
| Refinement.dfy | `execute_batch` against a plain map; convergence |
| Hazards.dfy | the exact conditions on a batch: staying inside the cached vectors, and being answered like a map |
| Plans.dfy | counts, directory, p_max and distribution together, through creation and batches |
| Redistribution.dfy | `update_distribution`: its loop, its assertions, the plan afterwards |
| Weights.dfy | when the fake weights after a redistribution are non-negative |
| Carryover.dfy | when real keys' replicas stay coherent across a redistribution |
| PlanSmoothing.dfy | the smoothing theorem for such a plan |
| SlotDraws.dfy | the same from the operation of a slot and the draws of its access |
| JointMass.dfy | the same for all slots of a batch together |
| Dummies.dfy | what drawing dummies with the count of creation costs |
| Draws.dfy | how often each replica is drawn, and when draws stay inside the cached vectors |
| Instances.dfy | one redistribution of two keys, from creation on, with its consequences |
| Proxy.dfy | the object `pancake_proxy`, field by field and loop by loop |
| OpQueue.dfy | `queue<T>`, sequentially and step by step under interleaving |
| Batching.dfy | security batches, the consumer loop, promises |
| EndToEnd.dfy | whole runs of clients and one consumer |
| Lifetime.dfy | such runs with redistributions in between |
| Clients.dfy | `get_batch` as a client sees it |
| TraceLoader.dfy | the loader that turns a trace into a distribution |
| Startup.dfy | `main`: the loader's result meets every precondition of the proxy |
| Codec.dfy | the generated struct codec over an abstract token stream |
| Shuffle.dfy | the in-place shuffle of `path_oram_util.h` |
| Wrappers.dfy | `Option`, and `Result` for exceptions and failed assertions |

State lives in classes with the source's fields (`PancakeProxy`, `Cache`, `RocksDb`, `Redis`,
`Queue`, `SequenceId`, `AsyncResponseArgs`); each method's contract ties the new state to a function
of the old one, and the lemmas are about those functions.

## Assumptions, and where the code differs from its intent

The model follows the code.  Where the code and its evident purpose part, the lemma named here gives
the exact condition under which the purpose is met.

* Probabilities are exact reals; draws of the coin, of the distributions and of `rand()` are
  parameters, and the smoothing theorems give them their exact masses.  Draws for different slots are
  independent, and the keys of the client operations that slots take are distributed like the real
  distribution.
* Encryption is the identity on plaintexts.  Stored values are non-empty; an empty value means get.
* Replicas of two keys share a name exactly if one key is the other followed by the digits of a positive
  number m, it has a replica, and the other has more than 10*m (`Naming.NameCollision`).  The code does not check
  this; the model asks for it where a directory is to be a bijection, and shows that it is necessary.
  Keys of one length, as `key_size_` intends, never collide (`Directory.EqualLengthsApart`), nor do keys
  with up to ten replicas each (`Directory.TenReplicasApart`).
* A label that moves is assigned from an `int` to a `std::string` and parsed back; that never gives
  the label back (`Naming.OneByteTextLosesLabel`).  The model carries labels as numbers.
* `key_to_frequency_` and the `frequency` argument are `int`.  With anything but the probability
  itself the initialised replicas of a key in transition are not uniform
  (`SlotMass.PassedFrequencyExact`); the model passes the probability.
* The proxy is modelled for every alpha >= 1/n.  While some key is in transition the recomputed fake
  weights are non-negative whatever alpha is (`Weights.TransitionWeighs`).  With nothing in transition
  before, they are non-negative after every redistribution over the same keys exactly if alpha is 1/n,
  which is what `main` computes, or there is one key (`Weights.WeightsExactly`); `Weights.BecomesNegative`
  builds the failing redistribution and `Weights.NegativeWeight` is an instance.
* `p_max_` has no value before the first redistribution; the model starts it at alpha.
* `operator[]` adds an entry for the dummy to `key_to_frequency_` when a batch reads it, and the size
  of that map feeds the coin.  The model does the same; `SlotMass.DummyTouchExact` and
  `PlanSmoothing.ProxyIsSmooth` say what it costs.
* A key sampled because the queue was empty is accessed as not real; for a key in transition that is
  uniform only if it never happens (`SlotMass.BusyExact`).
* The dummy's entry of `key_to_number_of_replicas_` is not updated by a redistribution; the model
  uses `dummy_keys_` as the dummy's count.  Draws with the count of creation all find a dummy's label
  exactly if the dummies have not become fewer (`Redistribution.StaleDummyCount`), and are uniform exactly
  if they are as many as before, or all names drawn lead to the label of a single dummy
  (`Dummies.StaleCountIsUniform`).
* `edit_bit_vector_size` inserts a vector of zeros for a key without an entry, so the first growth of
  a key marks none of its new replicas as missing (`UpdateCache.GrowthMarksNewReplicas`).  Across a
  redistribution the replicas of any real keys stay coherent, whatever is stored and cached, exactly if
  every new replica of theirs is in transition already or pending in a cached vector
  (`Carryover.CarriedOverExactly`); keys that do not grow are never affected.
* A redistribution does not resize cached vectors.  Batches are guaranteed to stay inside them exactly
  if no cached key has more replicas than its vector has bits (`Draws.DrawsStayExactly`); right after a
  redistribution, exactly if no cached key has grown (`Draws.BatchesAfterwards`).
  `Instances.GrownKeyOverruns` and `Instances.GrownKeyStale` follow two equally likely keys from creation
  at alpha = 1/2 to the probabilities 3/4 and 1/4: a batch can then index past the first key's vector,
  and its new replica may hold another key's text.
* The assertion on the vector sizes in `recompute_fake_distribution` fails exactly if a key in
  transition shrinks (`Redistribution.SizesExactly`); the one on the swap lists exactly if the new keys
  and the dummy did not hold 2n labels before (`Redistribution.SwapExactly`), so there are never more keys
  than at creation, and from the original keys as many only if they stay (`Redistribution.NoKeyIsAdded`).
* Responses are read once per batch: a put and a get of the same replica in one batch answer the get
  with the old value (`Refinement.SameLabelTwiceReadsStale`).  A fake access to a missing replica of
  an uncached key makes that replica's old text the key's cached value
  (`Refinement.MissingReplicaPoisons`).
* The loop of `redis::get_batch` reads only the first half of the replies, so it returns one value
  per key exactly if the keys live on at most one client (`Storage.HalfIsAllExactly`).  The loop of
  `redis::put_batch` has the same bound, so an error of a client in the unread half is not reported
  (`Storage.Redis.PutBatch`).  A null reply is taken to end the call when it is read as a string.
* A put to a key that is not registered is not refused by the code; the model requires registered
  keys where the code would divide by zero.

## Model

| member | source | states |
|---|---|---|
| Naming.NameCollision | proxy/src/pancake_proxy.cpp:43-45 | among the first r and r' replicas of two different keys a name is shared iff one key is the other followed by the digits of a positive number m, it has a replica, and the other has more than 10*m |
| Naming.NameInjective | proxy/src/pancake_proxy.cpp:236 | unless that is so, a name determines key and replica number |
| Naming.DecimalInjective | proxy/src/pancake_proxy.cpp:44-46 | different labels have different storage keys |
| Naming.DecimalParse | proxy/src/pancake_proxy.cpp:151 | printing a parsed number gives the text back, for every text that printing can produce |
| Naming.ParseDecimal | proxy/src/pancake_proxy.cpp:151 | parsing a printed number gives the number back |
| Naming.OneByteTextLosesLabel | proxy/src/pancake_proxy.cpp:136-151 | a label sent through `std::string = int` and `stoi` never comes back |
| Naming.OneByteTextExactly | proxy/src/pancake_proxy.cpp:136-151 | it comes back as a number iff its low byte is the code of a digit, and then as that digit |
| Smoothing.CountCovers | proxy/src/pancake_proxy.cpp:70 | the replica count is the least r with pi <= r*alpha |
| Smoothing.ReplicaBudget | proxy/src/pancake_proxy.cpp:66-80 | for every positive distribution and alpha >= 1/n: n <= real replicas < 2n, so between 1 and n dummies |
| Smoothing.RecomputedWeightsSound | proxy/src/pancake_proxy.cpp:110-122 | for every p_max >= alpha >= 1/n the recomputed weights are non-negative and sum to 2*n*p_max - 1 >= 1 |
| Smoothing.MainParameters | server/src/proxy_server.cpp:183-184 | alpha and delta of `main` meet the hypotheses: alpha*n = 1 and delta = 1/(2*n*alpha) = 1/2 |
| Smoothing.CreateFakeWeightsSound | proxy/src/pancake_proxy.cpp:66-90 | the fake weights at creation are non-negative, sum to exactly 1, and are what recomputing at p_max = alpha normalises to |
| SlotMass.PInitialisedIsProbability | proxy/src/update_cache.cpp:101-104 | `p_initialized` is a probability, and 1 only if nothing is missing |
| SlotMass.KeyTouchUniform | proxy/src/update_cache.cpp:97-115 | every replica, initialised, missing or of a settled key, gets mass exactly 1/(2n) per slot |
| SlotMass.DummyTouchExact | proxy/src/pancake_proxy.cpp:193-195 | a dummy label gets 1/(2n) under the coin 1/(2*p_max*n) and under no other coin |
| SlotMass.PassedFrequencyExact | proxy/src/update_cache.cpp:97-108 | an initialised replica of a key in transition is uniform iff the frequency passed is the key's probability |
| SlotMass.BusyExact | proxy/src/pancake_proxy.cpp:201-212 | it is uniform iff real draws always find a client operation |
| SlotMass.LabelMassIsTouch | proxy/src/pancake_proxy.cpp:233-238 | under a one-to-one placement a label's mass is that of the one replica it belongs to |
| SlotMass.SmoothingTheorem | proxy/src/pancake_proxy.cpp:193-222 | all 2n labels have mass 1/(2n) iff the coin is right and, with a key in transition, the queue is never empty at a real draw |
| Directory.TenReplicasApart | proxy/src/pancake_proxy.cpp:43-45 | up to ten replicas per key never share a name, whatever the keys |
| Directory.EqualLengthsApart | proxy/src/pancake_proxy.h:66 | keys of one common length never share a name, whatever the counts |
| Directory.FiledExactly | proxy/src/pancake_proxy.cpp:39-56 | a directory over these names holds as many labels as there are replicas iff no two replicas share a name |
| Directory.LabelledExtendsBijection | proxy/src/pancake_proxy.cpp:39-56 | inserting the replicas of a new key extends the bijection by exactly those |
| Directory.PrepareBalances | proxy/src/pancake_proxy.cpp:125-143 | one call keeps the labels partitioned into filed and free, the directory at the replicas that stay, the requests at those that are new, each once, and moves the surplus by the key's growth |
| Directory.PrepareAllBalances | proxy/src/pancake_proxy.cpp:167-182 | over any list of keys, requests minus free labels is the growth of their total count |
| Directory.AssignBalances | proxy/src/pancake_proxy.cpp:145-154 | if the new counts share no name, serving the requests keeps the partition and files exactly the requested names |
| Directory.Releasable | proxy/src/pancake_proxy.cpp:135-141 | the assertion in the release loop holds: what a shrinking key gives up is filed |
| Directory.Survives | proxy/src/pancake_proxy.cpp:134-142 | a replica that exists before and after is never released |
| Directory.RedistributedKeepsLabels | proxy/src/pancake_proxy.cpp:156-191 | for any keys, if the lists match, the directory is a bijection onto the same labels iff no two of the new replicas share a name, and then survivors keep theirs |
| Directory.RedistributedIsBijection | proxy/src/pancake_proxy.cpp:156-191 | same keys, same total: the two lists match, the result is a bijection onto the same labels, survivors keep theirs |
| Directory.SwapAssertExact | proxy/src/pancake_proxy.cpp:186 | for any change of the key set the assertion passes iff the new total plus what vanished keys held is the old total |
| SwapOrder.AllListed | proxy/src/pancake_proxy.cpp:128-141 | what each key gives up and asks for stands in the two lists at its place: keys in the order of the new distribution, the dummy last, replicas by rising number |
| SwapOrder.FiledInOrder | proxy/src/pancake_proxy.cpp:145-154 | the j-th replica asked for gets the label that was the j-th to be given up |
| UpdateCache.HammingIsPending | proxy/src/update_cache.cpp:61-68 | the weight is the number of pending replicas |
| UpdateCache.HammingClear | proxy/src/update_cache.cpp:19-24 | clearing a set bit lowers the weight by one, clearing another changes nothing |
| UpdateCache.CheckForUpdateEffect | proxy/src/update_cache.cpp:15-30 | the check takes one replica off the pending set, returns the value iff it was pending, erases the entry iff none is left, touches no other key |
| UpdateCache.EditsKeepStepped | proxy/src/update_cache.cpp:32-45 | under every sequence of resizings the vectors stay zeros followed by ones with a leading zero |
| UpdateCache.SteppedShape | proxy/src/update_cache.cpp:61-77 | that shape is leading zeros + weight = length |
| UpdateCache.GrowthMarksNewReplicas | proxy/src/update_cache.cpp:32-45 | growing a key marks its new replicas iff the key already has an entry |
| UpdateCache.HandoffEffect | proxy/src/update_cache.cpp:79-95 | the handoff adds exactly the missing replicas to the pending ones, whichever arm runs, and changes no other key |
| UpdateCache.Cache.FromPairs | proxy/src/update_cache.cpp:9-13 | an entry for the key of every pair and for no other, with one cleared bit per replica |
| UpdateCache.Cache.HammingWeight | proxy/src/update_cache.cpp:61-68 | the counting loop computes the weight |
| UpdateCache.Cache.NumLeadingZeros | proxy/src/update_cache.cpp:70-77 | the loop finds the first set bit, or the length |
| UpdateCache.Cache.CheckUpdate | proxy/src/update_cache.cpp:15-30 | the in-place check does what the effect lemma describes |
| UpdateCache.Cache.EditSize | proxy/src/update_cache.cpp:32-45 | the in-place resize: old bits kept, new ones set, the value kept; a first entry has no bit set; no other key changes |
| UpdateCache.Cache.Populate | proxy/src/update_cache.cpp:47-49 | every replica of the key becomes pending with the new value; true iff the key was absent |
| UpdateCache.Cache.Mirror | proxy/src/update_cache.cpp:79-87 | both arms of the handoff on the cache, bit by bit: set from the first missing replica on, the cached value kept; or inserted as it is |
| UpdateCache.Cache.CheckMissing | proxy/src/update_cache.cpp:89-95 | the handoff over both objects |
| UpdateCache.Cache.Sample | proxy/src/update_cache.cpp:97-115 | the draw of a replica; a real access only gets an initialised one |
| UpdateCache.SampleReplica | proxy/src/update_cache.cpp:97-115 | the replica exists, and is initialised if the access is real |
| Storage.PutAllRefines | libstorage/src/rocksdb.cpp:33-55 | a store routed by hash mod client count behaves as one map under batches of puts |
| Storage.LastPairWins | libstorage/src/rocksdb.cpp:49-55 | of several pairs with one key the last wins |
| Storage.PutsAtHome | libstorage/src/rocksdb.cpp:33-55 | after a batch of puts each client has changed only at keys whose hash modulo the number of clients selects it, and holds the last value of each of them |
| Storage.ReadAfterPuts | libstorage/src/rocksdb.cpp:41-55 | a read after a batch of puts gives the key's last value |
| Storage.OthersReadAsBefore | libstorage/src/rocksdb.cpp:41-55 | every other key reads as before |
| Storage.BucketedEqualsSequential | libstorage/src/redis.cpp:88-107 | for any hash, client count and bucket order the bucketed batch equals putting the pairs one by one |
| Storage.HalfIsAllExactly | libstorage/src/redis.cpp:50-86 | reading half of the replies gives one element per key iff at most one client was asked |
| Storage.PositionalExactly | libstorage/src/redis.cpp:50-86 | the replies read are those of the keys, in order, null for a key that is not stored, iff at most one client was asked |
| Storage.RocksDb.PutOne | libstorage/src/rocksdb.cpp:33-39 | one put: client `hash(key) % clients` gets the pair, every other is unchanged; a status other than ok is thrown and nothing is put |
| Storage.RocksDb.GetOne | libstorage/src/rocksdb.cpp:24-31 | what client `hash(key) % clients` holds under the key, or the exception |
| Storage.RocksDb.PutBatch | libstorage/src/rocksdb.cpp:49-55 | puts the pairs in order up to the first that is refused, which ends the call: each client then holds the last values of the keys whose hash selects it, and is otherwise unchanged; the servers see one write per pair |
| Storage.RocksDb.GetBatch | libstorage/src/rocksdb.cpp:41-47 | all values in the order of the keys, each from the client that its hash selects, or the exception iff some key is absent there; the servers see one read per key |
| Storage.Redis.Group | libstorage/src/redis.cpp:92-98 | the loop builds each client's pairs in batch order |
| Storage.Redis.PutBatch | libstorage/src/redis.cpp:88-117 | in any iteration order, each client that accepts holds the last values of the keys whose hash selects it, everything else is unchanged, and exactly the clients with such a key are asked; an error is thrown iff it is in the half of the replies that is read |
| Storage.Redis.Await | libstorage/src/redis.cpp:111-117 | the reply loop throws iff one of the first half of the replies, rounded up, is an error |
| Storage.Redis.ReadReplies | libstorage/src/redis.cpp:71-84 | the loop with the shrinking bound pops the first half, rounded up |
| Storage.Redis.GetBatch | libstorage/src/redis.cpp:50-86 | the values of that half, client by client in iteration order, or the exception iff one of them is null; positional iff at most one client was asked |
| Refinement.StepKeepsCoherence | proxy/src/pancake_proxy.cpp:241-255 | if an access to a key of the set answers with the current value, every replica of every key of the set stays coherent with cache, missing record and storage; accesses to other keys never matter |
| Refinement.StepExact | proxy/src/pancake_proxy.cpp:239-254 | for one access in a given state: right answer and coherence iff it is safe or the text fetched for it is the current one; the value-free condition for a batch is Hazards.HazardFreeExactly |
| Refinement.LoopHolds | proxy/src/pancake_proxy.cpp:239-256 | the loop invariant for any set of keys: their texts are the map's answers, their replicas coherent as if the texts so far were written, untouched labels still as fetched; other keys may hold anything |
| Refinement.BatchRefines | proxy/src/pancake_proxy.cpp:224-257 | one batch that is hazard-free for a set of keys and stays inside the vectors, read once and written once, answers the accesses to these keys like the map |
| Refinement.RunRefines | proxy/src/pancake_proxy.cpp:224-257 | any run of batches hazard-free for a set of keys answers every access to them like one plain map in the same order, whatever the other keys hold |
| Refinement.ClientsSeeTheMap | proxy/src/pancake_proxy.cpp:244-253 | fake, dummy and sampled accesses never change a key, so clients see the map of their own operations |
| Refinement.ClientsAnswered | proxy/src/pancake_proxy.cpp:250-253 | if clients use keys of the set only, what their promises receive is what the map of their own operations answers |
| Refinement.DistinctLabelsSuffice | proxy/src/pancake_proxy.cpp:239-254 | while no replica of these keys is missing, batches that repeat none of their replicas are hazard-free for them |
| Refinement.ClientReplicaNotMissing | proxy/src/update_cache.cpp:105-106 | client accesses never meet a missing replica |
| Refinement.PendingAfterRun | proxy/src/pancake_proxy.cpp:241-256 | without puts to a key, in transition or not: its first access hands over exactly what was missing, every access takes its own replica off, nothing else changes |
| Refinement.Converged | proxy/src/update_cache.cpp:15-30 | once every replica has been touched - for a key in transition, after its first access - the key has left the cache and all its labels store its value |
| Refinement.SameLabelTwiceReadsStale | proxy/src/pancake_proxy.cpp:239-254 | put and get of one replica in one batch: the get returns the old value |
| Refinement.MissingReplicaPoisons | proxy/src/pancake_proxy.cpp:247-249 | a fake access to a missing replica makes its old text the cached value |
| Hazards.BatchKeepsWide | proxy/src/update_cache.cpp:15-30 | if cached vectors are as long as the counts, every batch stays inside them and leaves them so |
| Hazards.PastTheEnd | proxy/src/update_cache.cpp:19 | a get of a replica beyond its key's cached vector indexes past the end |
| Hazards.BoundsExactly | proxy/src/update_cache.cpp:19-82 | no batch can index past a cached vector iff no key has more replicas than its cached vector has bits |
| Hazards.HazardsAlike | proxy/src/pancake_proxy.cpp:239-254 | whether a batch is hazard-free depends on the vectors alone, not on any stored or cached value |
| Hazards.LastUnsafeShows | proxy/src/pancake_proxy.cpp:239-254 | an unsafe access after safe ones: values with the same vectors for which it is answered wrongly |
| Hazards.HazardFreeExactly | proxy/src/pancake_proxy.cpp:224-257 | for fixed vectors and any set of keys, the accesses to them are answered like a map for every choice of values with which their replicas agree iff the batch is hazard-free for them |
| Plans.StartWeightsSound | proxy/src/pancake_proxy.cpp:65-90 | the weights that creation builds are non-negative and sum to 1 |
| Plans.StartWeightsExactly | proxy/src/pancake_proxy.cpp:65-90 | whatever delta is, each weight times 1/delta - 1 is r*alpha - pi, or the number of dummies times alpha; the weights are non-negative iff that factor is positive |
| Plans.BuildKey | proxy/src/pancake_proxy.cpp:67-78 | creating one more key keeps the directory a bijection and every label's stored value |
| Plans.StartIsValid | proxy/src/pancake_proxy.cpp:58-91 | for every alpha >= 1/n what creation leaves is smooth, fully stored and coherent with one value per key iff no two replicas share a name; its weights are non-negative and cached vectors fit in any case |
| Plans.ReweightedSound | proxy/src/pancake_proxy.cpp:110-122 | in every smooth plan the recomputed weights sum to 2*n*p_max - 1 >= 1 |
| Weights.TransitionWeighs | proxy/src/pancake_proxy.cpp:98-113 | with a key in transition p_max exceeds alpha, so all weights are non-negative whatever alpha is |
| Weights.WeightsExactly | proxy/src/pancake_proxy.cpp:93-122 | with nothing in transition before, the weights are non-negative after every redistribution over the same keys iff alpha is 1/n or there is one key |
| Weights.BecomesNegative | proxy/src/pancake_proxy.cpp:93-122 | for a larger alpha, a redistribution that leaves a negative weight |
| Weights.NegativeWeight | proxy/src/pancake_proxy.cpp:113 | two keys, alpha 3/4, p_max 1/2 and probability 7/10 give the weight -1/5 |
| Plans.LookedKeeps | proxy/src/pancake_proxy.cpp:235 | reading frequencies changes none of them, and adds an entry for exactly the keys read |
| Plans.RegisteredDrawable | proxy/src/pancake_proxy.cpp:233-236 | in every sound state a replica can be drawn for every key and for the dummy |
| Plans.BatchKeepsSound | proxy/src/pancake_proxy.cpp:224-257 | a batch leaves plan, missing record and storage sound, whatever the sizes of the cached vectors |
| Plans.BatchSeenByClients | proxy/src/pancake_proxy.cpp:250-253 | the promises of a batch that is hazard-free for the clients' keys receive the answers of the map of client operations |
| Redistribution.TurnReleases | proxy/src/pancake_proxy.cpp:135-141 | in every turn, for any new key set, what the key gives up is filed: the assertion in the release loop holds |
| Redistribution.SizesExactly | proxy/src/pancake_proxy.cpp:101-105 | the assertion on the vector sizes passes iff no key in transition shrinks |
| Redistribution.SwapExactly | proxy/src/pancake_proxy.cpp:186 | the assertion on the two lists passes iff the new keys and the dummy held 2n labels before |
| Redistribution.AssertionsExactly | proxy/src/pancake_proxy.cpp:156-187 | for any new key set: after the loop both later assertions pass iff no key in transition shrank and the labels match |
| Redistribution.NoKeyIsAdded | proxy/src/pancake_proxy.cpp:186 | if the last assertion passes there are never more keys than at creation, also after other key sets, and from the original keys as many only if they are the same |
| Redistribution.SameKeysPass | proxy/src/pancake_proxy.cpp:179-186 | for the same keys the first and the last assertion always pass |
| Redistribution.FiledAgain | proxy/src/pancake_proxy.cpp:145-154 | for any new key set, if the lists match the directory is a bijection onto the same labels iff no two replicas share a name; survivors then keep theirs |
| Redistribution.GrownTransition | proxy/src/pancake_proxy.cpp:131-132 | every key in transition again has a proper vector of its new size and a probability that p_max dominates |
| Redistribution.RedistributedPlan | proxy/src/pancake_proxy.cpp:156-191 | a redistribution over the same keys takes a smooth plan to a smooth plan iff no two of the new replicas share a name, and survivors then keep their labels |
| Redistribution.EveryPlanIsSmooth | proxy/src/pancake_proxy.cpp:156-191 | after any number of them, while no two replicas share a name, the directory is a bijection onto the same 2n labels |
| Redistribution.MoveKeepsLabels | proxy/src/pancake_proxy.cpp:156-191 | from any directory in order, whatever key sets came before, to any new key set: the directory is in order again iff no two replicas share a name, and survivors then keep their labels |
| Redistribution.MovedInOrder | proxy/src/pancake_proxy.cpp:145-191 | after a redistribution to any key set the j-th replica asked for has the label that was the j-th to be given up, the dummy coming last |
| Redistribution.EveryMoveKeepsLabels | proxy/src/pancake_proxy.cpp:156-191 | over any sequence of key sets, while no two replicas share a name, the same labels stay filed once each, and a replica that exists all the time keeps its label |
| Redistribution.StoredUnderNewNames | proxy/src/pancake_proxy.cpp:145-154 | after a redistribution every replica's label is a stored one |
| Redistribution.NextIsSound | proxy/src/pancake_proxy.cpp:183-187 | if the assertions pass, everything that holds between two operations holds again iff no two replicas share a name |
| Redistribution.LeftFrequencies | proxy/src/pancake_proxy.cpp:98-109 | the frequency map then has entries for the keys that had one, are new, or are in transition; entries of other keys stay, or are 0 |
| Redistribution.StaleDummyCount | proxy/src/pancake_proxy.cpp:233-236 | draws with the dummy count of creation all find a dummy's label iff the dummies have not become fewer |
| Carryover.CarriedOverExactly | proxy/src/pancake_proxy.cpp:125-154 | any real keys stay coherent for every choice of values with which they were iff each of their new replicas belongs to a key in transition already or is pending in a cached vector |
| Carryover.ForeignLabel | proxy/src/pancake_proxy.cpp:145-154 | the label that a new replica gets held the text of another key |
| Instances.GrownKeyOverruns | proxy/src/pancake_proxy.cpp:156-191 | two keys from creation through one redistribution that passes its assertions: a batch can index past the first key's cached vector |
| Instances.GrownKeyStale | proxy/src/pancake_proxy.cpp:125-154 | there the new replica is not waited for, so its key need not be coherent |
| PlanSmoothing.AllZerosDrawsLikeNone | proxy/src/update_cache.cpp:97-115 | a vector of zeros draws like no vector |
| PlanSmoothing.PlacedOneToOne | proxy/src/pancake_proxy.cpp:236 | the directory places keys and dummies one-to-one on the 2n labels |
| PlanSmoothing.FrequencyEntries | proxy/src/pancake_proxy.cpp:194 | the size that feeds the coin is n, plus one iff the dummy has an entry |
| PlanSmoothing.CoinExact | proxy/src/pancake_proxy.cpp:194 | only the size n gives the right coin |
| PlanSmoothing.ProxyIsSmooth | proxy/src/pancake_proxy.cpp:193-222 | in every state of the proxy with non-negative fake weights all 2n labels are uniform iff the dummy has no frequency entry and, in transition, real draws find client operations |
| PlanSmoothing.FakeMassIsDrawn | proxy/src/pancake_proxy.cpp:113-122 | the fake branch of that theorem is the normalised distribution the proxy has built |
| PlanSmoothing.StartFakeMassIsDrawn | proxy/src/pancake_proxy.cpp:65-90 | at creation it is the distribution that the creation loop has built, whose weights already sum to 1 |
| SlotDraws.DrawnAlone | proxy/src/pancake_proxy.cpp:233-238 | each access of a batch depends on its own operation, flag and draws only |
| SlotDraws.DrawnShare | proxy/src/update_cache.cpp:97-115 | in every state, for every key and the dummy, flag and replica: the part of all draws with which an access of a batch has that replica is its share in the smoothing theorem |
| SlotDraws.SlotTouchIs | proxy/src/pancake_proxy.cpp:193-238 | the probability that a slot, filled and accessed as the code does it, touches a replica is the mass of the smoothing theorem |
| SlotDraws.SlotsTouchUniformly | proxy/src/pancake_proxy.cpp:193-238 | so it is 1/(2n) for every replica iff the dummy has no frequency entry and, in transition, real draws find client operations |
| SlotDraws.NewWeightsDrawn | proxy/src/pancake_proxy.cpp:110-122 | the weights that a redistribution builds, normalised, are the fake masses used there |
| SlotDraws.StartWeightsDrawn | proxy/src/pancake_proxy.cpp:65-90 | so are those that creation builds |
| JointMass.BatchIsSmooth | proxy/src/pancake_proxy.cpp:193-238 | in every such state all label sequences of a batch of B slots have probability (1/(2n))^B iff the dummy has no frequency entry and, in transition, real draws find client operations in every slot |
| JointMass.SequencesMakeSlots | proxy/src/pancake_proxy.cpp:193-238 | uniform sequences determine every single slot |
| Dummies.StaleCountIsUniform | proxy/src/pancake_proxy.cpp:233-236 | with the dummy count of creation the 2n labels are uniform iff it is still the number of dummies, or all names drawn lead to the label of a single dummy |
| Dummies.GainedIsUntouched | proxy/src/pancake_proxy.cpp:233-236 | labels that the dummies have gained since creation have probability 0 |
| Dummies.DrawnEqually | proxy/src/update_cache.cpp:111-113 | drawing with the count of creation gives each of that many replicas the same part of the values of `rand()` |
| Draws.EvenShare | proxy/src/update_cache.cpp:111-113 | for a key not in transition the share used by the smoothing theorem is the fraction of `rand()` values that draw the replica |
| Draws.TransitionShare | proxy/src/update_cache.cpp:97-115 | for a key in transition it is that fraction, averaged over the uniform draw of `prob` |
| Draws.DrawsStayExactly | proxy/src/update_cache.cpp:15-30 | in every sound state: no request can make a batch index past a cached vector iff no key has more replicas than its cached vector has bits |
| Draws.BatchesAfterwards | proxy/src/pancake_proxy.cpp:156-191 | after a redistribution from cached vectors of the old sizes: iff no cached key has grown |
| Proxy.FakeDistribution | proxy/src/pancake_proxy.cpp:65-90 | the loop builds the fake weights of creation, for every alpha >= 1/n |
| Proxy.NewFakeDistribution | proxy/src/pancake_proxy.cpp:111-122 | the loop builds the recomputed weights |
| Proxy.PancakeProxy.InsertReplicas | proxy/src/pancake_proxy.cpp:39-56 | labels in order; exactly these labels are written, with one value, in chunks of 50 and a last one of what is left |
| Proxy.PancakeProxy.CreateRealReplicas | proxy/src/pancake_proxy.cpp:67-78 | the loop over the keys: counts, frequencies, directory and storage agree |
| Proxy.PancakeProxy.CountDummies | proxy/src/pancake_proxy.cpp:79-80 | for every alpha >= 1/n the dummies are the labels left up to 2n, at least one |
| Proxy.PancakeProxy.CreateReplicas | proxy/src/pancake_proxy.cpp:58-91 | from every positive distribution and alpha >= 1/n, on a store that may hold data: 2n labels, weights and a cache with one cleared bit per replica, no dummy entry; a valid proxy in which clients find one value per key iff no two of the planned replicas share a name |
| Proxy.PancakeProxy.PrepareForSwapping | proxy/src/pancake_proxy.cpp:125-143 | the three arms on the lists, the directory and the missing record |
| Proxy.PancakeProxy.PerformSwapping | proxy/src/pancake_proxy.cpp:145-154 | the requests take the free labels in order |
| Proxy.PancakeProxy.LargestMissing | proxy/src/pancake_proxy.cpp:98-110 | fails iff a size differs; otherwise the maximum of 1/n and the new probabilities of keys in transition, in any table order, with the entries that `operator[]` inserts |
| Proxy.PancakeProxy.RecomputeFakeDistribution | proxy/src/pancake_proxy.cpp:93-123 | p_max and the weights that fit it |
| Proxy.PancakeProxy.MoveKey | proxy/src/pancake_proxy.cpp:167-178 | one turn on lists, directory, counts, frequencies and missing record, for a key of any new key set; the new count is positive |
| Proxy.PancakeProxy.MoveKeys | proxy/src/pancake_proxy.cpp:162-178 | the loop: the release assertion holds in every turn |
| Proxy.PancakeProxy.MoveDummies | proxy/src/pancake_proxy.cpp:179-182 | the dummy comes last and takes the labels that are left |
| Proxy.PancakeProxy.PrepareSwaps | proxy/src/pancake_proxy.cpp:162-182 | loop and dummy; stops iff the new replicas number 2n or more |
| Proxy.PancakeProxy.ValidIsReady | proxy/src/pancake_proxy.cpp:156-191 | whatever holds between two operations suffices for a redistribution |
| Proxy.PancakeProxy.UpdateDistribution | proxy/src/pancake_proxy.cpp:156-191 | for any new key set, also after other key sets: passes its assertions iff `Passes` holds; then counts, p_max, weights, frequencies; ready for a further redistribution, with a bijection onto the same labels, iff no two replicas share a name, and survivors then keep their labels; for the same keys the plan is the one that follows, everything holds again under that condition, and the dummy has no frequency entry |
| Proxy.PancakeProxy.IsTrueDistribution | proxy/src/pancake_proxy.cpp:193-195 | the coin of the current p_max and frequency map |
| Proxy.PancakeProxy.DrawReplicas | proxy/src/pancake_proxy.cpp:229-238 | all replicas are drawn before any handoff, each with the share of SlotDraws.DrawnShare; labels follow the directory; frequency entries appear |
| Proxy.PancakeProxy.Serve | proxy/src/pancake_proxy.cpp:241-254 | one turn of the second loop on both caches, inside the vectors it finds |
| Proxy.PancakeProxy.ServeAll | proxy/src/pancake_proxy.cpp:240-255 | the second loop, and what each true promise receives |
| Proxy.PancakeProxy.ExecuteBatch | proxy/src/pancake_proxy.cpp:224-257 | a whole batch that stays inside the cached vectors: new caches, storage and promises are those of the refinement proof, the proxy stays valid, and the servers see the labels read and then written, whatever the accesses are |
| Proxy.PancakeProxy.constructor | proxy/src/pancake_proxy.cpp:7-24 | an empty proxy with the start weights, on any store |
| Proxy.Init | proxy/src/pancake_proxy.cpp:7-24 | `init` leaves the start weights and vectors that fit, and a valid, coherent proxy iff no two of the planned replicas share a name |
| OpQueue.Queue.Push | proxy/src/queue.h:45-59 | appends one item |
| OpQueue.Queue.Pop | proxy/src/queue.h:24-33 | waits while the queue is empty, then removes the oldest item of what was queued and what arrived |
| OpQueue.Queue.Size | proxy/src/queue.h:61-63 | the number of items, between critical sections |
| OpQueue.StepKeepsLockStep | proxy/src/queue.h:24-59 | every micro-step of any pusher or the popper keeps the lock-step invariant |
| OpQueue.QueueIsSafe | proxy/src/queue.h:24-63 | at every micro-step the queue holds the items pushed and not yet popped, in push order; counter <= length, equal when the lock is free; and a popper that saw a non-zero size never waits |
| Batching.SlotConserves | proxy/src/pancake_proxy.cpp:200-221 | a slot moves at most the front of the queue into the batch, among pushes of clients; flags and promises stay paired |
| Batching.SlotsConserve | proxy/src/pancake_proxy.cpp:197-222 | the same for a whole security batch, whose length is the number of slots |
| Batching.SlotAppends | proxy/src/pancake_proxy.cpp:200-221 | a slot appends the front of the queue, flagged true, iff the coin says real and something is queued; a get of the real distribution's key iff nothing is; a get of the fake distribution's key iff the coin says fake; only the first takes an item and its promise |
| Batching.SlotsAppend | proxy/src/pancake_proxy.cpp:197-222 | in a whole security batch slot i is true iff the coin says real and more has arrived than earlier slots took; it then holds the next item in the order of arrival |
| Batching.CreateSecurityBatch | proxy/src/pancake_proxy.cpp:197-222 | the loop on the queue object: its slots are those slots |
| Batching.ServePass | proxy/src/pancake_proxy.cpp:406-413 | one pass creates as many security batches as the queue length it read, slot by slot from the tape of draws, whatever arrives meanwhile; the counters agree again |
| Batching.CollectBatch | proxy/src/pancake_proxy.cpp:398-414 | for any arrivals, before a reading or between slots: counters agree at every loop head, the batch length is the batch size times the sum of the lengths read, nothing is lost or reordered, and slot i is filled from the i-th draws |
| EndToEnd.StepAccounts | proxy/src/pancake_proxy.cpp:401-416 | every push, slot and execution, with hazards or not, keeps: executed + in batch + queued = pushed, in order, and answered promises are those of the executed operations |
| EndToEnd.FillIsSlot | proxy/src/pancake_proxy.cpp:200-221 | a fill event of a run fills the slot with the operation and flag of Batching.SlotAppends |
| EndToEnd.StepKeepsInv | proxy/src/pancake_proxy.cpp:401-416 | steps that are hazard-free for the clients' keys also keep: answers as expected, these keys coherent |
| EndToEnd.TrueOpsOfTaken | proxy/src/pancake_proxy.cpp:241-253 | the j-th true operation of a batch belongs to the j-th promise |
| EndToEnd.PromisesInOrder | proxy/src/pancake_proxy.cpp:197-257 | in every state of every run each executed operation's promise has been answered once, in push order, and every other operation that clients have pushed is in the batch or queued |
| EndToEnd.Linearizable | proxy/src/pancake_proxy.cpp:197-257 | in every state of every run of batches that are hazard-free for the clients' keys the answers are what a plain map answers, whatever other keys hold at the start |
| EndToEnd.PlainRuns | proxy/src/pancake_proxy.cpp:197-257 | from a world in which no replica of the clients' keys is missing, every run whose batches repeat none of them is hazard-free and linearizable, with no condition on bounds or storage |
| Lifetime.UpdateIsRedistribution | proxy/src/pancake_proxy.cpp:156-191 | what `update_distribution` leaves for the same keys is what the redistribution turn of a life leaves |
| Lifetime.TurnKeepsOrder | proxy/src/pancake_proxy.cpp:156-257 | with hazards or without, every event and every redistribution over the same keys keeps: plan smooth, keys in transition proper, every label stored, promises accounted for |
| Lifetime.AlwaysInOrder | proxy/src/pancake_proxy.cpp:156-257 | over any number of redistributions each executed operation's promise has been answered once, in push order |
| Lifetime.TurnGoesOn | proxy/src/pancake_proxy.cpp:156-257 | an event under the current plan that is hazard-free for the clients' keys, or a redistribution whose new replicas of these keys are waited for, keeps: the same, answers as expected, the clients' keys coherent |
| Lifetime.AlwaysLinearizable | proxy/src/pancake_proxy.cpp:156-257 | over any number of such redistributions, in every state the answers are what a plain map answers |
| Lifetime.AlwaysSmooth | proxy/src/pancake_proxy.cpp:156-238 | in every state of every life at alpha = 1/n, with hazards or without, the label sequences of the next batch are uniform iff the dummy has no frequency entry and, in transition, real draws find client operations |
| Clients.GetFuture | proxy/src/pancake_proxy.cpp:362-373 | queues one get, or throws for an unregistered key and queues nothing |
| Clients.PushGets | proxy/src/pancake_proxy.cpp:313-318 | among pushes of other clients: one promise per key, the gets in order at the places recorded; an unregistered key ends the call with the gets before it queued |
| Clients.GetBatchIsPositional | proxy/src/pancake_proxy.cpp:313-323 | the i-th result belongs to the i-th key, however other clients interleave |
| TraceLoader.ParseWritten | server/src/proxy_server.cpp:38-45 | a written line is split into the operation's key and value |
| TraceLoader.ParseBare | server/src/proxy_server.cpp:38-45 | a line without a space is all key |
| TraceLoader.ReadAllBatched | server/src/proxy_server.cpp:46-61 | batches hold gets or puts only, at most the batch size, and flatten to file order |
| TraceLoader.FlushedBatches | server/src/proxy_server.cpp:73-81 | with the last two batches flushed, flattening the get batches and the put batches recovers gets and puts in file order |
| TraceLoader.ReadAllCloses | server/src/proxy_server.cpp:46-61 | every batch is closed by the line that fills it, and holds, with the earlier ones of its kind, exactly the operations of that kind up to this line; batches stand in the order of these lines |
| TraceLoader.FullButLast | server/src/proxy_server.cpp:46-81 | of two batches of one kind the first is full; with a batch size below 1 there is at most one of each kind |
| TraceLoader.ReadAllCounts | server/src/proxy_server.cpp:64-71 | the map holds each key's number of occurrences |
| TraceLoader.ReadLines | server/src/proxy_server.cpp:37-72 | the loop, which fails iff some key reads PUT or GET |
| TraceLoader.CountsDescribe | server/src/proxy_server.cpp:82-89 | distinct keys, positive frequencies, sum exactly 1 |
| TraceLoader.Load | server/src/proxy_server.cpp:20-91 | the loader on every file, empty ones included: full batches in the order of the lines that fill them, then at most one batch of gets and one of puts, and the relative frequencies |
| Startup.TraceIsUsable | server/src/proxy_server.cpp:179-191 | a loaded trace meets every precondition of the proxy iff none of its keys is the dummy and no two of the replicas that its frequencies lead to share a name |
| Startup.FewReplicasAreUsable | server/src/proxy_server.cpp:179-191 | that is so if no key needs more than ten replicas and there are at most ten dummies |
| Startup.StartIsProper | proxy/src/pancake_proxy.cpp:65-90 | at the rates of `main` the weights of creation are non-negative, sum to 1, and each is its key's r*alpha - pi, or the dummies', over 2*n*alpha - 1 |
| Startup.Start | server/src/proxy_server.cpp:178-191 | from a trace, on a store that may hold data, to a proxy with alpha = 1/n, delta = 1/2, fake weights that are the smoothing masses with sum 1, and cached vectors that fit, valid and coherent iff no two of the replicas share a name; or the loader's failure |
| Startup.ServedFromInit | proxy/src/pancake_proxy.cpp:197-257 | from what `init` leaves, every run whose batches repeat no replica of the keys that clients use answers like a map that starts with the value drawn for each key |
| Startup.ServedForLife | proxy/src/pancake_proxy.cpp:156-257 | so does every run with redistributions in which batches are hazard-free for the clients' keys and their new replicas are waited for |
| Codec.SkipsValue | service/src/proxy_types.cpp:87-89 | a value of any kind, however nested, is skipped exactly |
| Codec.IdsReadExactly | service/src/proxy_types.cpp:39-103 | any well-formed struct value is accepted iff it has an i64 field for each id; what follows is untouched |
| Codec.IdsAcceptExactly | service/src/proxy_types.cpp:39-103 | of all token streams exactly those are accepted that start with a well-formed struct value with an i64 field for each id |
| Codec.LastFieldWins | service/src/proxy_types.cpp:55-92 | of repeated fields the last counts |
| Codec.IdsRoundTrip | service/src/proxy_types.cpp:39-125 | reading what was written gives the same ids and leaves what follows |
| Codec.IdsReadInAnyOrder | service/src/proxy_types.cpp:55-101 | the same with permuted, repeated, unknown and wrong-kind fields |
| Codec.IdsTokens | service/src/proxy_types.cpp:105-125 | the writer's tokens are those of the struct value |
| Codec.SequenceId.Read | service/src/proxy_types.cpp:39-103 | the loop over fields with its flags |
| Codec.SequenceId.Write | service/src/proxy_types.cpp:105-125 | the tokens, spelled out, in order |
| Codec.ArgsReadExactly | service/src/thrift_response_service.cpp:16-83 | any well-formed struct value is accepted iff every nested id is complete and every result list holds strings |
| Codec.ArgsRoundTrip | service/src/thrift_response_service.cpp:16-113 | reading what was written gives the same arguments and leaves what follows |
| Codec.ArgsTokens | service/src/thrift_response_service.cpp:85-113 | the writer's tokens are those of the struct value |
| Codec.ArgsAre | service/src/thrift_response_service.cpp:85-113 | those tokens spelled out |
| Codec.AsyncResponseArgs.ReadResult | service/src/thrift_response_service.cpp:54-67 | the list of strings |
| Codec.AsyncResponseArgs.Read | service/src/thrift_response_service.cpp:16-83 | the loop over fields, with the nested struct read in place |
| Codec.AsyncResponseArgs.Write | service/src/thrift_response_service.cpp:85-113 | the tokens, in order |
| Shuffle.PermuteInPlace | proxy/src/path_oram_util.h:38-46 | the loop leaves at each position the element that its draws bring there, and keeps the elements |
| Shuffle.FinalPositions | proxy/src/path_oram_util.h:38-46 | position k ends up with the element that stood at the position drawn for it when its turn came, traced back through the earlier turns |
| Shuffle.DrawsAreDetermined | proxy/src/path_oram_util.h:38-46 | different draws give different arrangements |
| Shuffle.Unbiased | proxy/src/path_oram_util.h:38-46 | draw sequences and arrangements correspond one to one |

## Left out

- Startup.Start: for non-empty traces that do not contain the dummy key; the code checks neither, and an empty trace leaves alpha without a finite value.
- Directories in which two replicas share a name: the code overwrites one label; only that some label is then lost is shown (Directory.FiledExactly).
- EndToEnd.Linearizable: for runs whose batches are hazard-free for the clients' keys; without that, Hazards.HazardFreeExactly gives values that are answered wrongly, and EndToEnd.PromisesInOrder is what remains.
- EndToEnd.StepKeepsInv: for the same runs.
- Lifetime.AlwaysLinearizable: for redistributions over the same keys whose new replicas are waited for; without that, Carryover.CarriedOverExactly gives values with which a key is no longer coherent.
- Proxy.PancakeProxy.ExecuteBatch: for batches that stay inside the cached vectors; what the code does past their end is undefined.
- Proxy.PancakeProxy.UpdateDistribution: for a changed key set nothing is promised of batches afterwards; the vanished keys keep labels and counts.
- Reads of the dummy across a redistribution: its replicas then hold different texts, which no client reads; the refinement results leave the dummy out once it has gained a label.
- JointMass.BatchIsSmooth: for slots that are independent given the probabilities that the queue holds an operation; how clients fill the queue is not modelled.
- Several consumer threads on the same labels, the flush path and the responder thread: the code establishes no clean guarantee there.
- put_future's missing registration check: clients are required to use registered keys.
- distribution_changed always returns false, so the thread that would call `update_distribution` never does; the redistribution is modelled as a call the environment may make.
- The quality of the random sources, floating-point rounding, and the widths of 32- and 64-bit integers: draws are parameters, masses exact, integers unbounded.
- Encryption, network clients, servers, the concurrent hash map's locking and command-line parsing: each cache method is one atomic step, and the proxy's own requests to storage succeed.
- Shuffle.PermuteInPlace: for at least one element; for none the code's loop bound wraps around.
- The second overload of `pop`, `size_in_bytes`, the distribution accessors and the client id map: unused or easy.
- Nested-struct recursion limits and protocol versions of Thrift: the token stream is abstract.
