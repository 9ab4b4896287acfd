# The workload engine, verified

This project models the workload engine of the benchmark and proves what it is for.
`dafny verify dfyconfig.toml` checks the whole project.

| file | what it models |
|---|---|
| `Fnv.dfy` | the 64-bit FNV-1a hash of key numbers |
| `SevenOctetRuns.dfy`, `FirstRepeat.dfy` | which key numbers that hash tells apart, exactly |
| `KeyName.dfy` | how a key number becomes the key of a record |
| `Zipfian.dfy` | the Zipfian generator with its cached zeta sum and eta |
| `Generators.dfy` | the atomic counter, the uniform, the scrambled Zipfian and the skewed-latest generators |
| `Discrete.dfy` | the weighted chooser and the operation mix |
| `Workload.dfy` | `CoreWorkload`: set-up of the choosers, sequence keys, transaction keys |
| `Store.dfy` | the `SplitLsmDB` adapter over a map, and the values the workload writes |
| `LoadRun.dfy` | the load and run phases of T clients as a state machine |
| `LoadTheorems.dfy`, `RunTheorems.dfy` | what every schedule of those phases keeps and ends with |
| `RestartTheorems.dfy` | a run phase in a process of its own |
| `RealFacts.dfy`, `Words.dfy`, `Wrappers.dfy` | facts about reals, 64-bit words, options |
| `ClientLoop.dfy` | one client thread as imperative code, tied to the steps of the machine |
| `Properties.dfy`, `CommandLine.dfy` | property files and the command line |
| `HashString.dfy`, `ShortTexts.dfy` | hashed string keys, and which texts their hash tells apart |
| `StringTable.dfy` | the hash table that owns such keys |
| `ScanTable.dfy` | the scannable table under its reader/writer lock, as a state machine |

How things are represented:

- Doubles are exact reals. The operations that depend on theta (1 / i^theta, 0.5^theta, x^(1 - theta)
  and y^alpha) are functions in a record, `Zipfian.Arithmetic`; `Zipfian.Exact` lists what exact
  arithmetic guarantees of them for theta below 1, and `Zipfian.ThetaZeroIsExact` shows that theta = 0
  meets it. The theorems about the cache need nothing of the record, not even that its addition is
  associative.
- A random draw is a parameter u in [0, 1). Theorems hold for every u.
- `uint64_t` is `Words.Word`; wrap-around is written out.
- The storage engine is a map. A call that throws inside it has no effect and is reported as an error;
  which calls throw is a parameter.
- A step of the load/run machine is one atomic action of one client: the choice of an operation (for an
  insert, with the fetch_add), one draw of the rejection loop, which may be thrown away, or one call to
  the store. A step of the scan table is one of: call, copy of the key, taking the lock, the lookup with
  its effect, erasing, return; and between its calls a thread may do anything to memory the table does
  not own and no call in progress uses.
- Memory is a map from the addresses of live blocks to the C strings in them. `malloc` returns any
  address that is not in use, one freed before included; freeing what is not live is a failed
  precondition.

Where the code and its documentation differ, the model follows the code:

- `insert_key_sequence_` is set once and never advanced, so keys inserted in the run phase are never
  requested (`workloads.md` says that keys come from all those inserted so far).
- The Zipfian distribution draws the hashes of its ranks, so with spare keys some records are never
  requested. It can be that none is: with one record and six operations, half of them inserts, no draw
  ever ends the rejection loop (`workloads.md` says that keys come from all those inserted).
- A run phase in a process of its own restarts the key counter at `insertstart` and overwrites records.
- A load stores T * (N / T) records; N mod T are left out.
- The first two branches of the Zipfian draw ignore the base, so Zipfian field and scan lengths can be 0.
- A Zipfian generator created with two items yields base + num, one past the end, once it has grown.
- An update of a missing key creates it and a delete of one succeeds (`workloads.md` expects errors).
- Only the first field of a record is stored, and it answers every field name.
- A `-P` file that cannot be opened ends the program: `Load` throws `utils::Exception` and the handler
  catches `const string &`.

## Model

| member | source | states |
|---|---|---|
| `Fnv.FNVHash64` | core/utils.h:22-33 | The loop computes the FNV-1a fold of the eight octets of its argument, least significant first. |
| `Fnv.XorOctet` | core/utils.h:29 | Folding an octet into a 64-bit state changes the low octet only. |
| `Fnv.RoundIsBijection` | core/utils.h:29-30 | For a fixed octet, one iteration is a bijection of the 64-bit states, with an explicit inverse. |
| `Fnv.NoSmallRelation` | core/utils.h:20-30 | 1 and the first five powers of the prime have no nontrivial relation modulo 2^64 with coefficients as small as octet differences. |
| `Fnv.SixOctets` | core/utils.h:25-31 | Two runs of six iterations from one state end in one state only if their octets are the same. |
| `Fnv.WindowOfSixOctets` | core/utils.h:22-33 | Over the whole 64-bit range, numbers that differ only inside six consecutive octets hash alike iff they are equal. |
| `Fnv.OneOctet` | core/utils.h:22-33 | Numbers that differ in exactly one octet have different hashes, over the whole range. |
| `Fnv.HashOfOctet` | core/utils.h:22-33 | The hash of a number below 256 is the offset basis, exclusive-or the number, times the eighth power of the prime modulo 2^64. |
| `Fnv.SevenHashes` | core/utils.h:22-35 | None of the numbers 0 to 6 hashes to a multiple of 7. |
| `SevenOctetRuns.SmallRelation` | core/utils.h:20-30 | What two runs of seven iterations that meet add to the difference of their states is a combination of six reduced relations between 1 and the first six powers of the prime, with coefficients of size at most 2, 2, 1, 1, 1, 1. |
| `SevenOctetRuns.ChainedRelation` | core/utils.h:25-31 | Of those combinations only four nontrivial ones agree with how the low octets of the states run. |
| `SevenOctetRuns.SevenOctets` | core/utils.h:25-31 | Two runs of seven iterations from one state end in one state only if their octets are the same or they are in one of those four relations. |
| `FirstRepeat.SevenOctetsOneHighBit` | core/utils.h:25-31 | Runs of seven iterations from any state are injective in octets of which the seventh has a given highest bit. |
| `FirstRepeat.WindowOfSevenOctets` | core/utils.h:22-33 | Over the whole 64-bit range, numbers that differ only inside seven consecutive octets, and there not in the highest bit, hash alike iff they are equal. |
| `FirstRepeat.ZerosRun` | core/utils.h:25-31 | A run whose third to sixth octets are 0 and whose second is at most 9 is in such a relation only if it begins as the octets of 2^55 + 2343 do. |
| `FirstRepeat.HashIsInjective` | core/utils.h:22-35 | All numbers below 2^55 + 2343 have different hashes. |
| `FirstRepeat.HashRepeats` | core/utils.h:22-35 | 2^55 + 2343 has the hash of the smaller number 29848425904251338. |
| `FirstRepeat.HashesApart` | core/utils.h:22-35 | The numbers below count have different hashes iff count <= 2^55 + 2343. |
| `FirstRepeat.PowersApart` | core/utils.h:22-35 | The numbers below 2^k have different hashes iff k <= 55. |
| `KeyName.NameReadsBack` | core/core_workload.h:218-229 | Dropping the prefix of a name and reading the decimal gives back the number behind it: the key number in ordered mode, its hash in hashed mode. |
| `KeyName.NameForm` | core/core_workload.h:218-229 | In both modes a name is "user" followed by decimal digits only, and for a number of d digits it has 4 + max(d, zeropadding) characters. |
| `KeyName.NamesAreDistinct` | core/core_workload.h:218-229 | Different key numbers have different names for every padding, for all 64-bit numbers in ordered mode and all below 2^55 + 2343 in hashed mode. |
| `KeyName.HashedNamesCollide` | core/core_workload.h:219-221 | In hashed mode 2^55 + 2343 has the name of a smaller number, for every padding. |
| `KeyName.NamesApart` | core/core_workload.h:218-229 | The names of the numbers below count are distinct iff count is at most 2^64 in ordered mode, 2^55 + 2343 in hashed mode. |
| `KeyName.PaddedOrder` | core/core_workload.h:224-228 | Ordered names of numbers that fit the width compare as the numbers do. |
| `KeyName.OrderBreaks` | core/core_workload.h:224-228 | The first number wider than the padding sorts before the number below it. |
| `KeyName.NamesSortNumerically` | core/core_workload.h:218-229 | The string order of the ordered names below count is the numeric order iff count <= 10^max(1, zeropadding). |
| `Zipfian.ThetaZeroIsExact` | core/zipfian_generator.h:58-75 | The hypotheses about the powers can be met: theta = 0 meets them. |
| `Zipfian.ZetaFrom` | core/zipfian_generator.h:69-76 | The loop computes the left fold, for any addition, over the list of the weights of items last + 1 to cur, each once. |
| `Zipfian.ZetaIsFold` | core/zipfian_generator.h:69-76 | The sum is the left fold over that list. |
| `Zipfian.ZetaIsSum` | core/zipfian_generator.h:69-76 | With exact addition the sum over n items exceeds that over n - 1 by the weight of item n. |
| `Zipfian.ZipfianGenerator.constructor` | core/zipfian_generator.h:25-36 | A new generator is coherent: it has the minimum as its base, its cached sum and eta are those of its item count, and it has made one draw. |
| `Zipfian.ZipfianGenerator.RaiseZeta` | core/zipfian_generator.h:52-56 | The cached sum is continued from the old count to the new one. |
| `Zipfian.ZipfianGenerator.Next` | core/zipfian_generator.h:92-113 | A call keeps coherence, raises the cache for the count asked for, and returns and remembers the value of the draw; RaiseZeta's assertion holds where it is called. |
| `Zipfian.ZetaSplits` | core/zipfian_generator.h:69-76 | Continuing a sum is computing it in one go, whatever addition does. |
| `Zipfian.RaisedIsCoherent` | core/zipfian_generator.h:96-99 | Raising keeps the cached sum equal to the sum from scratch and eta equal to the eta of that sum. |
| `Zipfian.CacheAgrees` | core/zipfian_generator.h:96-99 | After any requests, growing or shrinking, the cached sum is exactly the sum from scratch for the largest count so far. |
| `Zipfian.LargestIsMaximum` | core/zipfian_generator.h:96-99 | That count is an upper bound of all requests and one of them. |
| `Zipfian.ZetaPastTwo` | core/zipfian_generator.h:58-61 | The sum over all items exceeds the sum over two iff there are more than two. |
| `Zipfian.TailArgumentBounds` | core/zipfian_generator.h:58-61 | In the third branch the argument of the power lies in [(2 / num_items)^(1 - theta), 1). |
| `Zipfian.TailBand` | core/zipfian_generator.h:112 | With three items or more the third branch yields a value in [base + floor(2 num / num_items), base + num - 1], and at least base + 2 if num >= num_items. |
| `Zipfian.TwoItems` | core/zipfian_generator.h:101-112 | With two items and no growth eta has no value and the third branch is unreachable for every draw. |
| `Zipfian.TwoItemsGrown` | core/zipfian_generator.h:58-61 | With two items and growth eta is 0 and the third branch yields base + num. |
| `Zipfian.TailStaysBelow` | core/zipfian_generator.h:112 | The third branch stays below base + num iff the generator was created with three items or more. |
| `Zipfian.Bands` | core/zipfian_generator.h:101-112 | With W the sum of the weights of all items, the draw is 0 on [0, w(1)/W), 1 on the next interval of length w(2)/W, and in the tail band after that. |
| `Zipfian.TailThreshold` | core/zipfian_generator.h:58-61 | After that a draw is base + j or more iff (1 - u)(1 - (2/num_items)^(1-theta)) <= (1 - (j/num)^(1-theta))(1 - (w(1) + w(2))/W): the whole distribution of the third branch. |
| `Zipfian.TailGrows` | core/zipfian_generator.h:112 | The third branch is nondecreasing in the draw. |
| `Zipfian.TailStart` | core/zipfian_generator.h:108-112 | The least value of the band is attained. |
| `Zipfian.TailAt` | core/zipfian_generator.h:112 | Every share of the range from 2 / num_items up to 1 is what some draw of the third branch scales. |
| `Zipfian.EveryItemIsDrawn` | core/zipfian_generator.h:92-113 | Asked for as many items as it has, a generator with base 0 draws every one of them. |
| `Zipfian.DrawIsMonotone` | core/zipfian_generator.h:101-112 | The draw is nondecreasing in u iff the least value of the third branch is not 0. |
| `Zipfian.DrawsAreDefined` | core/zipfian_generator.h:101-112 | Every draw has a value unless a generator created with two items has grown and base + num is 2^64. |
| `Zipfian.DrawOfTwo` | core/zipfian_generator.h:101-112 | What every draw of a generator created with two items yields, grown or not. |
| `Zipfian.DrawIsInRange` | core/zipfian_generator.h:101-112 | For every generator and num >= 2: all draws lie in [base, base + num) iff base is 0 and the generator was created with three items or more or has not grown past two. |
| `Generators.CounterGenerator.Next` | core/counter_generator.h:22 | Returns the counter and advances it by one modulo 2^64. |
| `Generators.UniformOf` | core/uniform_generator.h:35-38 | A uniform draw lies between the bounds, both included. |
| `Generators.UniformReachesAll` | core/uniform_generator.h:23 | Every number between the bounds is drawn by some u. |
| `Generators.UniformShare` | core/uniform_generator.h:23 | Each of the n numbers is drawn on an interval of length 1/n. |
| `Generators.ScrambleInRange` | core/scrambled_zipfian_generator.h:42-44 | A scrambled value lies in [base, base + num_items). |
| `Generators.ScrambledZipfianGenerator.Next` | core/scrambled_zipfian_generator.h:46-48 | The inner generator makes a draw over its own item count and the result is its scrambled value. |
| `Generators.SkewedLatestGenerator.constructor` | core/skewed_latest_generator.h:23-26 | The inner generator has as many items as the newest key number. |
| `Generators.SkewedLatestGenerator.Next` | core/skewed_latest_generator.h:36-39 | The inner generator is raised to the newest key number and the result is that number minus the draw. |
| `Generators.LatestInRange` | core/skewed_latest_generator.h:36-39 | The subtraction never underflows; the result is 0 iff a generator created with two items has grown and draws from the third branch. |
| `Generators.LatestHistory` | core/skewed_latest_generator.h:36-39 | Created with three items or more, every draw over any counter history lies in [1, newest]. |
| `Generators.LatestOfTwo` | core/skewed_latest_generator.h:36-39 | With two items the same holds while the counter has not moved. |
| `Discrete.DiscreteGenerator.AddValue` | core/discrete_generator.h:38-45 | Appends the entry, whatever its weight, and keeps the sum equal to the total weight. |
| `Discrete.DiscreteGenerator.Next` | core/discrete_generator.h:47-62 | The loop returns the choice of the draw and remembers it; the failing assertion is the result None. |
| `Discrete.PickFrom` | core/discrete_generator.h:53-58 | From entry i on, the loop stops at the entry whose cumulative share contains the draw. |
| `Discrete.PickInvertsShares` | core/discrete_generator.h:47-62 | For positive weights and u in [0, 1) the loop always stops, and at entry i iff prefix(i)/sum <= u < prefix(i+1)/sum. |
| `Discrete.InitChooser` | core/core_workload.cc:125-142 | Init fills the chooser with the entries of positive proportion, in its order. |
| `Discrete.EntriesAre` | core/core_workload.cc:125-142 | The table has exactly the operations of positive proportion, each once, with its own proportion. |
| `Discrete.OrderIsComplete` | core/core_workload.cc:125-142 | Init considers every operation once. |
| `Discrete.ChosenOperation` | core/core_workload.cc:125-142 | The chosen operation has a positive proportion; the assertion after the loop fails iff no operation has one. |
| `Discrete.OperationShare` | core/discrete_generator.h:53-58 | An operation is chosen exactly on its share of the draws, whose length is its proportion of the total. |
| `Discrete.OperationOfDraw` | core/core_workload.cc:125-142 | The operation of every draw, in the proportions of the mix: the draws fall to read, update, delete, insert, scan and read-modify-write in this order. |
| `Workload.MakeKeyChooser` | core/core_workload.cc:144-164 | The chooser of each distribution, for the record count and, for the Zipfian one, the spare keys; number by number what it requests (see `DrawnRecords`). |
| `Workload.DrawnKeyRange` | core/core_workload.cc:144-164 | Every draw of a chooser that Init has set up yields a number that is requestable (see `DrawnKeys`) and leaves the chooser as it is. |
| `Workload.RequestableIsDrawn` | core/core_workload.cc:144-164 | Every requestable number is drawn by some u. |
| `Workload.DrawnKeys` | core/core_workload.cc:144-164 | A chooser draws exactly the requestable numbers. |
| `Workload.DrawnRecords` | core/core_workload.cc:144-164 | With records: a uniform chooser draws k iff k < recordcount, a latest one iff 1 <= k < recordcount, and a Zipfian one iff k is the hash modulo n of a rank below n = recordcount + spare keys. |
| `Workload.KeyOfDraw` | core/core_workload.cc:144-164 | The number of every draw: floor(u * recordcount), the last record less the Zipfian rank, or the hash of the Zipfian rank modulo n. |
| `Workload.SpareKeys` | core/core_workload.cc:155-156 | The spare keys are the integer part of 2 * operationcount * insertproportion. |
| `Workload.SupportedCounts` | core/zipfian_generator.h:25-36 | The counts the assertions admit, in numbers. |
| `Workload.SetUpIsStationary` | core/core_workload.cc:144 | A chooser set up for the records always yields a key and stays as it is, because the insert sequence never advances. |
| `Workload.CoreWorkload.constructor` | core/core_workload.cc:101-164 | For every record count the generators' assertions admit, 0 included, Init establishes the invariant of the workload, the counter at insertstart, the table of operations, and a chooser that requests the records as `DrawnRecords` says, with the integer part of 2 * operationcount * insertproportion as spare keys. |
| `Workload.CoreWorkload.NextSequenceKey` | core/core_workload.h:205-208 | Names the counter's number and advances the counter. |
| `Workload.CoreWorkload.NextTransactionKey` | core/core_workload.h:210-216 | The rejection loop returns the name of the first draw within the records and has used the draws up to it. |
| `Workload.CoreWorkload.NextOperation` | core/core_workload.h:164 | Returns the choice of the draw and keeps the table. |
| `Workload.TransactionKey` | core/core_workload.h:210-216 | The key number returned is at most the last sequence number, so below the record count if there are records, and is the first draw in range; all draws before it were beyond. |
| `Workload.LoopCanEnd` | core/core_workload.h:210-216 | Some draws end the rejection loop iff the chooser is not the Zipfian one or one of its ranks hashes within the records. |
| `Workload.FirstDrawIsAccepted` | core/core_workload.h:210-216 | Every draw ends the loop at once iff the chooser is not the Zipfian one or all of its ranks hash within the records. |
| `Workload.NoSpareKeys` | core/core_workload.h:210-216 | So the loop ends at its first draw for uniform, for latest, and for Zipfian without spare keys or without records. |
| `Workload.SpareKeysStarve` | core/core_workload.cc:155-157 | With one record, six operations and insert proportion 0.5 no draws end the loop. |
| `Workload.StarvingConfiguration` | core/core_workload.cc:155-157 | Init accepts that configuration. |
| `Store.SplitLsmDB.Read` | db/splitlsm_db.cc:76-88 | No data for a failed call, a missing key and an empty value; else the stored value under the field names asked for. |
| `Store.SplitLsmDB.Update` | db/splitlsm_db.cc:109-118 | Stores the serialized values, or changes nothing when the engine fails. |
| `Store.SplitLsmDB.Insert` | db/splitlsm_db.cc:120-123 | Does what Update does. |
| `Store.SplitLsmDB.Delete` | db/splitlsm_db.cc:125-133 | Removes the key, present or not, or changes nothing when the engine fails. |
| `Store.PopulateResult` | db/splitlsm_db.cc:140-150 | Appends the value under each field name asked for, or under field0. |
| `Store.ReadAfterWrite` | db/splitlsm_db.cc:135-150 | A written record reads back as its first field's value, and as no data iff that is empty or there is no field; other keys are untouched. Asked for names, it answers each of them, in order, with that value. |
| `Store.BuildValues` | core/core_workload.cc:196-203 | One value per field, named and as long as its draw; the record serializes to something iff its first field is not empty. |
| `Store.ZipfianLengthCanBeZero` | core/core_workload.cc:188-189 | Exactly the draws below 1/zeta make an empty field, although the generator starts at 1. |
| `LoadRun.StepDecreases` | ycsbc.cc:29-105 | Every step of every client makes a measure smaller, except a draw the rejection loop throws away, which changes nothing. |
| `LoadRun.ScheduleIsBounded` | ycsbc.cc:29-105 | The measure bounds the number of steps of every schedule, thrown away draws not counted. |
| `LoadRun.NeverStuck` | ycsbc.cc:68-105 | No step but thrown away draws is possible iff the run phase is over, or no number that the chooser draws is accepted and every client is done or in the rejection loop. |
| `LoadRun.HangsForEver` | core/core_workload.h:210-216 | If no number that the chooser draws is accepted, a run with a client in the loop does not end. |
| `LoadRun.RunCanEnd` | ycsbc.cc:86-105 | In every reachable state of a run phase it can still end iff the chooser can draw a number the loop accepts, or the mix has only inserts, or there are fewer operations than clients. |
| `LoadRun.RunBalances` | ycsbc.cc:29-43 | Along every schedule: the operations each client took up and has left add up to its share, and those reported, those that missed and those under way add up to those taken up. |
| `LoadRun.FinishedRun` | ycsbc.cc:85-99 | In every finished run phase each of T clients took up operationcount / T operations, operationcount mod T are left undone, and the reported sum is the rest less those that missed: failed calls and reads without a value. |
| `LoadRun.AcceptableKeys` | core/core_workload.h:210-216 | A number that the chooser draws is accepted iff it is not the Zipfian one or one of its ranks hashes within the records. |
| `LoadRun.ConfigOfView` | core/core_workload.cc:144-164 | Every chooser that Init sets up gives a configuration whose numbers are exactly those it draws. |
| `LoadRun.StarvedRun` | core/core_workload.cc:155-157 | With one record, six operations, half of them inserts and half updates, there is a schedule after which the run phase cannot end. |
| `LoadRun.StarvedBenchmark` | ycsbc.cc:68-93 | There is such a benchmark, with one client and theta 0: a schedule from an empty store, load included, after which the run phase cannot end. |
| `LoadTheorems.FetchKeepsLoadInv` | core/counter_generator.h:22 | Taking a number keeps: numbers handed out are exactly [start, counter), held by one client each, and handed out plus remaining is T * (N / T). |
| `LoadTheorems.PutKeepsLoadInv` | core/client.h:41-46 | A put, failed or not, keeps it. |
| `LoadTheorems.PendingIsNotStored` | core/client.h:41-46 | A number still to be put is stored by no client. |
| `LoadTheorems.PutStores` | db/splitlsm_db.cc:109-123 | A successful put adds the name of its number to the keys, exactly one key where names are distinct, and one to the sum of oks. |
| `LoadTheorems.LoadStep` | ycsbc.cc:29-43 | Every step of a load keeps the counter invariant and: the keys of the store are the names of the numbers stored, where names are distinct as many as the sum of oks. |
| `LoadTheorems.LoadRuns` | ycsbc.cc:68-83 | So does every schedule, and without failures no number is lost. |
| `LoadTheorems.LoadState` | ycsbc.cc:68-83 | In every state of every load from an empty store: numbers handed out are [start, counter), one client each; handed out and remaining add up; where names are distinct the sum to be reported is the number of keys, even if puts failed. |
| `LoadTheorems.FinishedLoad` | ycsbc.cc:68-83 | A finished load has handed out T * (N / T) numbers, N / T to each client, exactly N mod T are missing, and without failures the keys are the names of the numbers handed out. |
| `LoadTheorems.ReportedRecordsExist` | ycsbc.cc:68-83 | A finished load without failures that starts at 29848425904251338 or below, as by default it does, leaves as many keys as it reports iff its key numbers stay within the bound of `KeyName.NamesApart`. |
| `LoadTheorems.SchedulesAgree` | ycsbc.cc:68-83 | Any two finished loads without failures leave the same keys. |
| `LoadTheorems.AllRecordsLoaded` | ycsbc.cc:68-83 | All keys a transaction can ask for are loaded iff insertstart is 0 and the threads divide the record count. |
| `RunTheorems.LookupSeesLastWrite` | db/splitlsm_db.cc:76-88 | A lookup in a store that holds what the last writes left reports no data iff the last write to its key was a delete or an empty value, or there was none. |
| `RunTheorems.LookupsAreExact` | db/splitlsm_db.cc:76-133 | In every interleaving from any state whose log tells what its store holds, whatever calls fail and whatever values are written, each answered lookup reports no data iff the last write to its key before it was a delete or an empty value, or there was none. |
| `RunTheorems.LookupsOfBenchmark` | core/client.h:41-149 | The same for every schedule of load and run from an empty store. |
| `RunTheorems.RunStep` | core/client.h:48-149 | Every step of the run phase keeps: every record has been written, all lookups and deletes name records, all writes name numbers below the counter. |
| `RunTheorems.RunStarts` | ycsbc.cc:85-93 | A complete load establishes that. |
| `RunTheorems.NoDataMeansDeleted` | core/client.h:48-149 | After a complete load, if no empty value is written, in every interleaving and whatever calls fail: an answered lookup reports no data iff the last write to its key before it was a delete. |
| `RunTheorems.EverythingReported` | ycsbc.cc:85-99 | After a complete load, every finished run phase without deletes, failures and empty values reports operationcount - operationcount mod T operations. |
| `RunTheorems.KeysStayInRange` | core/client.h:125-149 | In every schedule of load and run from an empty store, whatever calls fail, every key is the name of a number the rejection loop accepts or of one the counter has passed. |
| `RunTheorems.InsertedKeysAreNotRequested` | core/core_workload.cc:144 | Keys inserted in the run phase are never read or deleted. |
| `RunTheorems.LoadCanComplete` | ycsbc.cc:68-83 | Every load has a schedule that completes it. |
| `RestartTheorems.SeparateRunAddsNoKey` | core/core_workload.cc:123 | A run phase in a new process, over a store loaded from number 0, adds no key in any schedule iff the mix has no inserts or insertstart + T * (operationcount / T) <= recordcount. |
| `ClientLoop.StepsPerform` | core/client.h:41-149 | The steps of an operation, thrown away draws included, add up to the operation done in one go, or leave the client in the rejection loop. |
| `ClientLoop.TakenIsLoopRun` | core/core_workload.h:210-216 | The numbers a client draws for an operation are steps of the machine's rejection loop. |
| `ClientLoop.Client.DoInsert` | core/client.h:41-46 | Puts the next sequence key with the values; true iff the put succeeded. |
| `ClientLoop.Client.Transact` | core/client.h:76-149 | Each transaction changes the store and reports success as specified for its operation: a read succeeds iff it finds a value, an update or read-modify-write stores the values, a delete drops the key, a scan changes nothing. |
| `ClientLoop.Client.DoTransaction` | core/client.h:48-74 | Performs the operation of the draw, on the first key number drawn that is accepted; with draws that do not end the rejection loop it has done nothing yet. |
| `ClientLoop.DelegateClient` | ycsbc.cc:29-43 | A client's loop is a schedule of the steps of what it takes up and ends with the machine's counter, store and sum, all operations performed or the client in the rejection loop. |
| `Properties.TrimTrims` | core/utils.h:71-75 | Trim returns text without space at its ends, never longer, and leaves exactly such text alone. |
| `Properties.TrimIsMiddle` | core/utils.h:71-75 | Every text is what Trim returns between two runs of the six space characters, and that has none of them at its ends. |
| `Properties.TrimFinds` | core/utils.h:71-75 | Trim finds the text between any two such runs. |
| `Properties.GetLine` | core/properties.h:57-59 | Reading a line takes the first line of the rest of the text. |
| `Properties.PropertySet.Load` | core/properties.h:54-66 | Loading applies the settings of the lines in order; it throws iff the file is not open and then changes nothing; every property then reads as its last line says or as before. |
| `Properties.LinesOfConcat` | core/properties.h:57-59 | The lines of two texts joined by a newline are those of one and then of the other. |
| `Properties.LoadIsCompositional` | core/properties.h:54-66 | Loading two texts joined by a newline is loading one and then the other. |
| `Properties.LastSettingWins` | core/properties.h:49-52 | A property has the value of its last setting, or the one it had before. |
| `Properties.ValueAfterLoad` | core/properties.h:32-66 | Reading a property after a file is loaded gives the value of the last line that sets it, or what was read before. |
| `Properties.PropertySet.SetProperty` | core/properties.h:49-52 | Reading the property then gives the value, with any default; every other reads as before. |
| `Properties.SettingReadsBack` | core/properties.h:60-63 | A line key=value is read as that key and value iff both are trimmed, the key has no '=' and does not begin with '#'. |
| `Properties.SpacedSetting` | core/properties.h:60-63 | A line with any spaces around its key and value is read as that key and value iff the key has no '=' and the line does not begin with '#'. |
| `Properties.SpacedLineLoads` | core/properties.h:54-66 | Loaded, such a line sets that property and no other. |
| `Properties.PrintedSettingsLoad` | core/properties.h:54-66 | Printed settings load as themselves. |
| `Properties.PrintedMapLoads` | core/properties.h:54-66 | Any listing of a map, printed, loads as the map. |
| `Properties.PrintableMapRoundTrips` | core/properties.h:54-66 | Every map of printable entries can be written as a file that loads as the map. |
| `CommandLine.ReadWritten` | ycsbc.cc:113-164 | An option, written out before any other arguments, is read as itself. |
| `CommandLine.ArgumentsDetermineOptions` | ycsbc.cc:112-169 | Arguments are read as some options iff they are the writing of those options and each is well formed. |
| `CommandLine.ParseCommandLine` | ycsbc.cc:108-177 | The loop accepts what is read as at least one option, with their effects on the properties in order, the last file name and the two flags; otherwise it exits, or throws for a file it cannot open. |
| `CommandLine.AcceptedCommandLines` | ycsbc.cc:108-177 | A command line is accepted iff it is the writing of some well-formed options, at least one. |
| `CommandLine.LastOptionWins` | ycsbc.cc:108-177 | A property has the value of the last option that sets it, -p, -P and the others alike. |
| `CommandLine.OneMoreArgument` | ycsbc.cc:112-169 | One more option after accepted arguments, by its name: -threads sets threadcount, -db sets dbname, -p its key, -P loads its file and is the file reported, -load and -run set their flags, and nothing else changes. |
| `CommandLine.FilesInOrder` | ycsbc.cc:129-144 | Two files in a row act as one file of both texts. |
| `CommandLine.FileIsItsSettings` | ycsbc.cc:129-164 | A file of printed settings acts as those settings given by -p. |
| `HashString.SDBMHash` | lib/string.h:52-59 | The loop computes the 64-bit SDBM hash, with octets above 127 sign-extended. |
| `HashString.StepIsInjective` | lib/string.h:55-57 | For a fixed octet, an iteration maps different states to different states. |
| `ShortTexts.NoSmallRelation` | lib/string.h:55-57 | 1 and the first six powers of 65599 have no nontrivial relation modulo 2^64 with coefficients as small as differences of octets. |
| `ShortTexts.ShortTextsDiffer` | lib/string.h:52-59 | Texts of at most seven octets, of one length or not, hash alike iff they are equal. |
| `ShortTexts.WindowOfSeven` | lib/string.h:52-59 | Texts that differ only inside seven consecutive octets hash alike iff they are equal. |
| `ShortTexts.EightCollide` | lib/string.h:52-59 | Two different texts of eight octets have one hash. |
| `ShortTexts.TwinsCollide` | lib/string.h:52-59 | Those two hash alike whatever precedes and follows them. |
| `ShortTexts.TextsApart` | lib/string.h:52-59 | The texts of at most n octets have different hashes iff n <= 7. |
| `ShortTexts.WindowsApart` | lib/string.h:52-59 | In any surroundings, texts that differ only inside n consecutive octets have different hashes iff n <= 7. |
| `HashString.SameIsSameText` | lib/string.h:84-87 | Comparing hashes before texts never changes the answer. |
| `StringTable.FindAgrees` | lib/stl_hashtable.h:55 | A lookup finds an element iff the map has the text, and then the one with the map's value. |
| `StringTable.InsertAgrees` | lib/stl_hashtable.h:60-65 | Insert adds the text unless it is there; its copy ends up in the table or leaked. |
| `StringTable.UpdateAgrees` | lib/stl_hashtable.h:67-74 | Update changes the value of a text that is there and nothing else. |
| `StringTable.RemoveAgrees` | lib/stl_hashtable.h:76-84 | Remove drops the text and frees the one block of its key, which was live. |
| `StringTable.OutsideAgrees` | lib/stl_hashtable.h:53-84 | Nothing the rest of the program does to memory the table does not own changes the map. |
| `StringTable.CallAgrees` | lib/stl_hashtable.h:53-84 | Each call keeps every stored key live, distinct and described by its hash and length, and answers and acts as on a plain map. |
| `StringTable.RunAgrees` | lib/stl_hashtable.h:53-84 | Every run answers as a plain map on the texts of its keys and ends with that map's contents. |
| `StringTable.OwnedCount` | lib/stl_hashtable.h:44-45 | The blocks owned, all live, number the elements plus the leaked copies. |
| `StringTable.RunLeaks` | lib/stl_hashtable.h:63-64 | Over a run the leaked copies grow by exactly the inserts of a text that was there. |
| `StringTable.LiveBlocks` | lib/stl_hashtable.h:53-84 | From an empty table, live key blocks = table size + duplicate inserts. |
| `StringTable.Heap.Allocate` | lib/string.h:61-70 | Copying a key takes an address not in use and stores the text there. |
| `StringTable.Heap.Free` | lib/mem_alloc.h:16-17 | Frees a block, which has to be live. |
| `StringTable.StlHashtable.Get` | lib/stl_hashtable.h:53-58 | Returns the map's value, or NULL. |
| `StringTable.StlHashtable.Insert` | lib/stl_hashtable.h:60-65 | Refuses NULL and a text that is there, else adds it; the state is the specified one. |
| `StringTable.StlHashtable.Update` | lib/stl_hashtable.h:67-74 | Changes the map as specified and returns the old value, or NULL. |
| `StringTable.StlHashtable.Remove` | lib/stl_hashtable.h:76-84 | Changes the map as specified, frees a live block, and returns the old value, or NULL. |
| `ScanTable.FreedAlone` | lib/tbb_scan_hashtable.h:75-81 | While a freed key is still in the table the Remove that freed it holds the lock alone. |
| `ScanTable.WritersAreAlone` | lib/tbb_scan_hashtable.h:59-75 | In every interleaving an Update or Remove that is inside is inside alone. |
| `ScanTable.LockStep` | lib/tbb_scan_hashtable.h:46-75 | Every step keeps the lock's discipline. |
| `ScanTable.StepIsSafe` | lib/tbb_scan_hashtable.h:44-83 | A call that is about to compare keys finds the keys of all elements live. |
| `ScanTable.CopyStep` | lib/tbb_scan_hashtable.h:55 | The copy Insert makes outside the lock changes nothing the table stands for. |
| `ScanTable.OutsideKeepsMem` | lib/tbb_scan_hashtable.h:44-83 | What threads do to other memory between their calls changes nothing the table stands for. |
| `ScanTable.InsertActs` | lib/tbb_scan_hashtable.h:56-57 | Inside, Insert links its copy or leaves it leaked, and acts and answers as on a plain map. |
| `ScanTable.RemoveActs` | lib/tbb_scan_hashtable.h:76-81 | Once Remove has freed a key, the table without that element is already what the map holds. |
| `ScanTable.Acts` | lib/tbb_scan_hashtable.h:44-83 | Every call acts and answers as on a plain map and touches no block of a caller or of another Insert. |
| `ScanTable.EffectOfCall` | lib/tbb_scan_hashtable.h:44-83 | The effect and the answer of each call on the map, call by call. |
| `ScanTable.MemStep` | lib/tbb_scan_hashtable.h:44-83 | Every step keeps memory sound, also when malloc hands out the freed block before the element is erased. |
| `ScanTable.OrderStep` | lib/tbb_scan_hashtable.h:44-83 | Every step keeps: the effects so far are a run of a plain map, which the table stands for. |
| `ScanTable.TimesStep` | lib/tbb_scan_hashtable.h:44-83 | Every step keeps: the effect of a call lies between its call and its return. |
| `ScanTable.PlacesStep` | lib/tbb_scan_hashtable.h:44-83 | Every step keeps: no effect belongs to two calls. |
| `ScanTable.CountStep` | lib/tbb_scan_hashtable.h:44-83 | Every step keeps: every effect belongs to a call. |
| `ScanTable.RunsAreSound` | lib/tbb_scan_hashtable.h:44-83 | Every schedule keeps all of these. |
| `ScanTable.StepsShorten` | lib/tbb_scan_hashtable.h:44-83 | A step of a call brings it closer to its return and delays no other call. |
| `ScanTable.SomeCallGoesOn` | lib/tbb_scan_hashtable.h:46-75 | While calls are in progress, one of them has an enabled step. |
| `ScanTable.CallsCanReturn` | lib/tbb_scan_hashtable.h:44-83 | From every reachable state all calls in progress can return. |
| `ScanTable.NoFreedKeyIsCompared` | lib/tbb_scan_hashtable.h:44-83 | In every interleaving from an empty table no call compares with a freed key, and a key is freed only while no other call is inside. |
| `ScanTable.HistoriesAreSequential` | lib/tbb_scan_hashtable.h:44-83 | In every interleaving the finished calls have a sequential map order that respects real time and explains every answer; when no call is in progress it is all of them, and the table holds that map's contents. |

## Left out

- The RocksDB and lsm-tree engines, their options and paths: the code is not in the repository; an engine is an atomic map.
- `db/unifiedlsm_db.cc`: its adapter repeats `db/splitlsm_db.cc`.
- The result of `Scan`: it is the engine's; only its key and its success or failure are steps.
- Rounding of doubles, the random engines, and statistical claims: draws are parameters and arithmetic is exact.
- theta of 1 or more: the powers then do not have the properties of `Zipfian.Exact`.
- Unknown distribution names, numbers that do not parse, record counts the generators' assertions reject (those for which a Zipfian or latest chooser would have fewer than 2 or too many items), and `StrToBool`: exceptions and aborts before any operation.
- Discrete.DiscreteGenerator.Next: weights whose total is 0, for which the quotients of doubles are infinite or not numbers; Init adds positive weights only.
- Negative record and operation counts, for which the clients perform nothing; and spare key counts beyond the range of `int`.
- A benchmark without records: it loads nothing, and as the last sequence number is then 2^64 - 1 every number drawn is accepted. The choosers, the rejection loop, the lookups and the keys of the store are stated for it too; the theorems about a complete load (`RunTheorems.RunFits`) are about one with records.
- Negative `insertstart`, and a key counter that reaches 2^64. Key numbers of 2^55 + 2343 and more in hashed mode are part of the load theorems; `LoadTheorems.AllRecordsLoaded` and the run theorems with `RunTheorems.RunFits` are about smaller ones.
- The conversion of name lengths to `int` for names or paddings near 2^31 characters.
- The field chooser, `BuildUpdate` and scan lengths: a client writes any values and asks for any fields.
- The interleaving of the generators' own locks: a draw is one step of the client that makes it.
- With which probability the rejection loop ends where it can (`Workload.LoopCanEnd`): draws are not random here.
- Timing, throughput and usage output.
- A stream that fails after it has been opened, in `Properties::Load`.
- `Entries` and `Size` of the hash tables, and the internals of `std::unordered_map` and TBB's map: the elements are a sequence in some order and an insertion is atomic.
- `lib/tbb_rand_hashtable.h` and `lib/lock_stl_hashtable.h`.
- NULL as the key of the scan table's Insert: it returns before touching anything. It is modelled in `StringTable`.
- Callers of the scan table whose key strings are freed or changed during the call, or are the table's own.
- Fairness of the scan table's lock: some call can always go on, but which one does is not decided.
- Zipfian.ThetaZeroIsExact: shows that the hypotheses are consistent; that they hold of the real powers for other theta is not proved, as powers with real exponents are not part of this model.
- Generators.UniformOf: the map from draws to integers is one possible distribution; only its range and reach matter.
