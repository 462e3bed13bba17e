# A verified model of Security-Guard

Security-Guard learns what the requests, responses and connections of a deployed service look
like and reports what deviates. This project models six parts of it in Dafny and proves what they
promise.

- **Learning** (`pkg/apis/guard/v1alpha1`). Samples become profiles, profiles go into piles, piles
  are merged, a config learns a pile and then decides on profiles. `Limit`, `FlagSlice`, `Scanner`
  and `SimpleVal` cover values, `KeyVal` keyed values with their seven-slot table and the shared
  rule for evicted keys, `KeyValRuns` the same over many calls, `Structured` the kinds of JSON
  values, `IpSet` address blocks. The central results say that what was learned is accepted, with
  the exact condition where this can fail, and that no more is accepted than was shown
  (`KeyValBounds`, `StructuredBounds`). `StringLaws` tells profiles and rules from the characters of
  a string.
- **The stream duplicator** (`pkg/iodup`). `Iodup` is a machine with one step for each channel,
  copy and buffer operation; every interleaving is a run. `IodupObjects` takes the same steps on
  buffers that are overwritten in place.
- **The select loop** (`pkg/dselect`): `DSelect`.
- **Sync and persistence** (`pkg/guard-gate/client.go`, `cmd/guard-service`): `GateSync` has gates,
  a network that loses and delays requests and replies, and the service; `Services` has the record,
  the tick and the shutdown flush.
- **The /proc/net parser** (`pod.go`): `ProcNet`.
- **Alerts** (`v1alpha1.go`): `Decisions` has the canonical string, `Alerts` the gate's list.

Code that changes state is modelled twice: once as functions on values, about which the lemmas
speak, and once as classes, arrays and loops whose methods are proved to compute these functions
(`KeyValConfig.dfy`, `StructuredConfig.dfy`, `IpSetObjects.dfy`, `IodupObjects.dfy`,
`ServicesObjects.dfy`, `GateClient.dfy` and the classes in `SimpleVal.dfy`, `DSelect.dfy` and
`Alerts.dfy`). Iteration over a Go map is a loop that picks any remaining key; results hold for
every order. `uint32` and `uint8` arithmetic is written out (`Bits.dfy`), as is the 64-bit sum of
the select loop.

`dafny verify dfyconfig.toml` checks everything.

## Where the code departs from its description

- An empty key name marks a free slot of the table, so a key-value config may drop the value of an
  empty key (`KeyVal.EmptyKeyCounterexample`). `KeyVal.EmptyKeyDropped` gives the exact condition on
  the config and the pile under which it is dropped in every map order, `KeyVal.LearnSoundWithRoom`
  the exact condition for soundness while there are free slots, and `KeyVal.LearnSoundInAnyOrder` a
  sufficient one in general.
- For the same reason an admitted empty key may come on top of the seven known keys
  (`KeyValRuns.EighthKey`). A visit exceeds the cap exactly under the condition of
  `KeyValRuns.CapKept`; over runs eight is the most, and without the empty key seven
  (`KeyValRuns.KnownKeys`, `KeyValRuns.SevenKeys`).
- A key that was evicted and is admitted again starts a new rule, so a sample learned under it before
  may be rejected (`KeyValRuns.RelearnedKeyForgets`). `KeyValRuns.VisitKeepsExactly` says exactly
  which visit takes an approval away, `KeyValRuns.LearnKeepsExactly` which call, and
  `KeyValRuns.RunKeeps` what keeps it over a run.
- Merging an empty structured pile into one with a kind makes it "multi"
  (`Structured.EmptyMergeIsNotNeutral`).
- `Learn` of an address set widens blocks through struct copies: the address of the copy is lost,
  only the shared mask changes. This is harmless, as `IpSet.LearnTight` shows.
- A sample added while the gate waits for the reply to its sync is cleared with the pile
  (`GateSync.AddDuringSyncIsLost`), although the comment says that only delivered piles are cleared.
- The log line of the shutdown flush speaks of all changed records; one that learned earlier and was
  not persisted since is skipped (`Services.FlushSkipsLearnedRecord`). `learnAndPersistGuardian`
  returns whether it wanted to persist; `Services.PersistsExactly` says when it does.
- The comment on unicode flags speaks of 64 bits in a word; the code uses 32.
- The sample accounting of a call holds exactly unless the number of samples, pending and received
  samples add up to 2^32 (`Services.CallAccountsExactly`). No gate sends that many; a pile of 2^32-1
  samples makes the number of samples fall below its cap (`Services.SamplesWrap`).
- Two alerts with different decisions may share a string: a comma in the name of an unknown key reads
  like the one between two reasons (`Alerts.CommasJoinReasons`), and the result is not part of the string
  (`Alerts.TagsCollide`). `Decisions.StringTellsApart` and `Decisions.StringIsExact` say when the
  string does tell decisions apart.
- The repository's README describes a spacing of syncs that the gate does not implement; the model
  allows a sync at any time.

## Model

| member | source | states |
|---|---|---|
| Limit.ClosedForm | pkg/apis/guard/v1alpha1/limit.go:32-48 | the encoding loop yields 16k+r exactly for the counters in step r of batch k, 16(2^k-1)+r*2^k up to the next step |
| Limit.EncodeMonotone | pkg/apis/guard/v1alpha1/limit.go:28-48 | larger counters never get smaller codes |
| Limit.EncodeStrictAt255 | pkg/apis/guard/v1alpha1/limit.go:28-48 | the code reaches 255 exactly from 1015792 on |
| Limit.Profile | pkg/apis/guard/v1alpha1/limit.go:32-48 | the loop, with the cap: for every code below 255 the exact interval of counters it stands for, and 255 exactly from 1015792 on |
| Limit.Learn | pkg/apis/guard/v1alpha1/limit.go:102-118 | the learned limit is the maximum of the old limit and the pile, and is one of them |
| Limit.LearnedAppend | pkg/apis/guard/v1alpha1/limit.go:73-75 | learning an appended pile is learning both piles, in either order |
| FlagSlice.MergeFlagSlices | pkg/apis/guard/v1alpha1/flagSlice.go:22-32 | the in-place OR loop computes the element-wise join, padded to the longer slice |
| FlagSlice.MergedIsJoin | pkg/apis/guard/v1alpha1/flagSlice.go:22-32 | the result approves exactly what every common upper bound of the two slices must approve: it is their least upper bound |
| FlagSlice.MergedAssoc | pkg/apis/guard/v1alpha1/flagSlice.go:22-32 | merging is associative |
| FlagSlice.MergedComm | pkg/apis/guard/v1alpha1/flagSlice.go:22-32 | merging is commutative |
| FlagSlice.Decide | pkg/apis/guard/v1alpha1/flagSlice.go:83-96 | no element is reported exactly when every bit of the profile is a bit of the config, missing elements counting as zero |
| FlagSlice.Score | pkg/apis/guard/v1alpha1/flagSlice.go:110-121 | clearing lowest bits counts the set bits of all words, in a counter of 32 bits |
| FlagSlice.CountMonotone | pkg/apis/guard/v1alpha1/flagSlice.go:110-121 | more flags never count less |
| FlagSlice.WithinIsBitwise | pkg/apis/guard/v1alpha1/flagSlice.go:83-96 | approval is inclusion bit by bit, word by word: every flag set in the profile is set in the same place of the config |
| FlagSlice.MergedIsBitwise | pkg/apis/guard/v1alpha1/flagSlice.go:22-35 | a flag is set after merging exactly if it was set in one of the two slices |
| FlagSlice.CountAdds | pkg/apis/guard/v1alpha1/flagSlice.go:110-121 | counts add up over concatenation, and a single word counts its set bits |
| FlagSlice.OneMoreFlag | pkg/apis/guard/v1alpha1/asciiFlags.go:143-152 | setting one flag that was not set counts one more |
| Bits.Kernighan | pkg/apis/guard/v1alpha1/asciiFlags.go:143-152 | the loop that clears the lowest bit runs once for each set bit, at most 32 times |
| Bits.SubsetIsBitwise | pkg/apis/guard/v1alpha1/asciiFlags.go:123-129 | the test with AND-NOT is bit-by-bit inclusion |
| Scanner.ProfileString | pkg/apis/guard/v1alpha1/simpleVal.go:128-216 | the one-pass scan returns the profile described without a scan: encoded numbers of positions of each class and of run starts, one flag bit for each slot that occurs, one bit for each block of 128 codes that occurs |
| Scanner.ScanMeaning | pkg/apis/guard/v1alpha1/simpleVal.go:139-204 | the fold over the characters counts positions and maximal runs, and collects the flag and block sets, for every string |
| Scanner.ClassesPartition | pkg/apis/guard/v1alpha1/simpleVal.go:143-193 | the six class counters add up to the number of characters |
| Scanner.FlagBit | pkg/apis/guard/v1alpha1/simpleVal.go:145-176 | a flag bit is set exactly when its character occurs; hex exactly for 0x or 0X; comments exactly for /*, */ or -- |
| Scanner.BlockBit | pkg/apis/guard/v1alpha1/simpleVal.go:178-193 | a unicode bit is set exactly when some character lies in that block of 128 codes |
| StringLaws.SlotOfSymbol | pkg/apis/guard/v1alpha1/simpleVal.go:34-92 | each of the 32 special characters has the flag of its place in a written-out list of 28, a closing bracket that of the opening one; only the four pairs of brackets share a flag |
| StringLaws.SymbolFlag | pkg/apis/guard/v1alpha1/simpleVal.go:145-176 | in any string, flag f below 28 is set exactly if the symbol in place f of that list, or the bracket that closes it, occurs |
| StringLaws.PairFlags | pkg/apis/guard/v1alpha1/simpleVal.go:149-176 | flag 31 is set exactly if 0x or 0X stands somewhere, flag 30 exactly for /*, */ or --, and flags 28 and 29 never |
| StringLaws.UnicodeFlag | pkg/apis/guard/v1alpha1/simpleVal.go:178-193 | bit b of word e is set exactly if a character has a code from 128(32e+b+1) up to 128 codes on |
| StringLaws.CountIs | pkg/apis/guard/v1alpha1/simpleVal.go:143-193 | each class counter counts the characters of a range of codes, given in numbers |
| StringLaws.RunsAre | pkg/apis/guard/v1alpha1/simpleVal.go:200-203 | the sequence counter counts the changes of that range from one character to the next, and the first character |
| Scanner.AsciiMapMeaning | pkg/apis/guard/v1alpha1/simpleVal.go:75-92 | the 128-entry table holds the class of every ASCII character and the slot of every special one |
| Scanner.ScanAscii | pkg/apis/guard/v1alpha1/simpleVal.go:145-176 | one ASCII character: its class, and the flags it sets together with the previous character |
| Scanner.ScanUnicode | pkg/apis/guard/v1alpha1/simpleVal.go:178-193 | one other character: the bit of its block, in a slice grown when needed |
| SimpleVal.LeqIsInclusion | pkg/apis/guard/v1alpha1/simpleVal.go:312-324 | a config is below another exactly when everything it approves the other approves |
| SimpleVal.FusedIsJoin | pkg/apis/guard/v1alpha1/simpleVal.go:358-368 | Fuse is the least upper bound |
| SimpleVal.LearnIsLeast | pkg/apis/guard/v1alpha1/simpleVal.go:296-306 | Learn yields the least config above the old one that approves every sample that went into the pile by any mix of Add and Merge |
| SimpleVal.LearnMerged | pkg/apis/guard/v1alpha1/simpleVal.go:253-263 | learning a merged pile equals learning the two piles one after the other, in either order |
| SimpleVal.ScoreMonotone | pkg/apis/guard/v1alpha1/simpleVal.go:339-356 | a more permissive config never scores lower, as long as the 32-bit sum has room |
| SimpleVal.LearnedScoreMonotone | pkg/apis/guard/v1alpha1/simpleVal.go:339-356 | among configs learned from strings by any mix of Learn and Fuse the 32-bit score is exact and monotone, without a proviso |
| SimpleVal.ConfigWords | pkg/apis/guard/v1alpha1/simpleVal.go:296-306 | such configs never hold more than 272 words of unicode flags |
| SimpleVal.ScoreExact | pkg/apis/guard/v1alpha1/simpleVal.go:339-356 | the 32-bit sum is the exact sum for every slice of up to 2^20 words; the scanner makes at most 272 |
| SimpleVal.ScannedBlocks | pkg/apis/guard/v1alpha1/simpleVal.go:178-193 | no string yields more than 272 words of unicode flags |
| SimpleVal.ScoreWraps | pkg/apis/guard/v1alpha1/simpleVal.go:339-356 | wrapping at every addition and at the multiplication by four equals wrapping once at the end |
| StringLaws.AcceptsString | pkg/apis/guard/v1alpha1/simpleVal.go:312-324 | a rule approves a string exactly if none of the seven encoded counts exceeds its limit, and every ASCII and unicode flag the string raises is a flag of the rule |
| StringLaws.CounterWeights | pkg/apis/guard/v1alpha1/simpleVal.go:339-356 | with equal flags scores differ as the counters do: digits, letters, spaces and unicodes weigh one, special and non-readable characters and sequences four |
| StringLaws.FlagWeights | pkg/apis/guard/v1alpha1/simpleVal.go:339-356 | one more ASCII or unicode flag adds four to the score |
| SimpleVal.SimpleValConfig.Learn | pkg/apis/guard/v1alpha1/simpleVal.go:296-306 | the fields become those of the learned config; the cached score is left as it was |
| SimpleVal.SimpleValConfig.Fuse | pkg/apis/guard/v1alpha1/simpleVal.go:358-368 | the fields become those of the join |
| SimpleVal.SimpleValConfig.Decide | pkg/apis/guard/v1alpha1/simpleVal.go:312-324 | no rule is reported exactly when the profile is approved |
| SimpleVal.SimpleValConfig.GetScore | pkg/apis/guard/v1alpha1/simpleVal.go:339-356 | the score is computed once and then returned from the cache, even after the config has changed |
| KeyVal.LearnSoundExactly | pkg/apis/guard/v1alpha1/keyval.go:198-249 | for the order in which the keys were visited: a recorded profile is accepted if and only if it has no empty key, or that key was not dropped when its turn came, or the rules for other keys then cover its value |
| KeyVal.EmptyKeyDropped | pkg/apis/guard/v1alpha1/keyval.go:211-247 | the empty key is dropped in every order if and only if it is not known and its score is not above the lowest slot before the call |
| KeyVal.EmptyKeyKept | pkg/apis/guard/v1alpha1/keyval.go:211-247 | in no order is it dropped when it is known, or scores above the slot that visits to the other keys of a pile of at most seven can bring to the lowest place |
| KeyValRuns.EmptyKeyDroppedSomewhere | pkg/apis/guard/v1alpha1/keyval.go:211-247 | when no key of the pile is known, some order drops the empty key if and only if it does not score above the seventh largest of the slots and the scores of the other keys |
| KeyValRuns.LowestSlot | pkg/apis/guard/v1alpha1/keyval.go:211-247 | then learning the other keys leaves exactly that score in the lowest slot, whatever the order |
| KeyVal.LearnSoundInAnyOrder | pkg/apis/guard/v1alpha1/keyval.go:198-249 | under a condition on the config and the pile before the call, every recorded profile is accepted in every order |
| KeyVal.LearnSoundWithRoom | pkg/apis/guard/v1alpha1/keyval.go:198-249 | with a free slot for every new key and scores above zero for the named ones, a recorded profile is accepted if and only if it has no empty key, or that key is known, scores above the lowest slot, or is covered before the call |
| KeyVal.OthersGrow | pkg/apis/guard/v1alpha1/keyval.go:251-270 | the rules for other keys only ever grow |
| KeyVal.LearnSound | pkg/apis/guard/v1alpha1/keyval.go:198-249 | after one Learn, in any map order, every recorded profile without the empty key is accepted, also under keys evicted during that Learn |
| KeyValBounds.ProfileBound | pkg/apis/guard/v1alpha1/keyval.go:159-249 | over any run of Learn calls, of piles built by any mix of Add and Merge: if a profile is approved, every rule that accepts the names of all keys shown accepts the names of its keys, and every rule that accepts all values shown accepts its values |
| KeyValBounds.OtherNamesBound | pkg/apis/guard/v1alpha1/keyval.go:251-270 | an unknown key is approved only if every rule that accepts the names of all keys shown accepts its name |
| KeyValBounds.ValuesBound | pkg/apis/guard/v1alpha1/keyval.go:159-187 | a value is approved under any key, known or not, only if every rule that accepts all values shown accepts it |
| KeyValBounds.KnownKeyBound | pkg/apis/guard/v1alpha1/keyval.go:211-247 | a value is approved under a known key only if every rule that accepts the values shown under that very key accepts it |
| KeyValBounds.KnownKeysShown | pkg/apis/guard/v1alpha1/keyval.go:211-247 | a key is known only if it was shown |
| KeyValRuns.VisitKeepsExactly | pkg/apis/guard/v1alpha1/keyval.go:211-247 | a visit keeps an approval if and only if it is to another key, or the key is known, or does not score above the lowest slot, or its samples alone cover the value |
| KeyValRuns.LearnKeepsExactly | pkg/apis/guard/v1alpha1/keyval.go:198-249 | a call keeps an approval if and only if the pile lacks the key, or the visit to it keeps the approval, or the call evicts the key again |
| KeyValRuns.LearnKeepsInAnyOrder | pkg/apis/guard/v1alpha1/keyval.go:198-249 | under a condition on the config and the pile before the call no order takes an approval away: the pile lacks the key, or its samples alone cover the value or score low, or its slot is too high to be lost |
| KeyValRuns.RunKeeps | pkg/apis/guard/v1alpha1/keyval.go:198-249 | over a run, an approval lasts as long as every later call meets that condition |
| KeyValRuns.RelearnedKeyForgets | pkg/apis/guard/v1alpha1/keyval.go:218-246 | three calls after which a sample of the first is rejected: its key was evicted by seven better ones and admitted again with another value |
| KeyVal.LearnKeyAccepts | pkg/apis/guard/v1alpha1/keyval.go:211-247 | a value just put in the pile under a key is accepted after the visit to that key if and only if the key was not dropped or the rules for other keys covered the value before the visit |
| KeyVal.EmptyKeyCounterexample | pkg/apis/guard/v1alpha1/keyval.go:222-238 | a fresh config that learns one empty value under the empty key keeps rejecting it |
| KeyVal.LearnedSamplesAccepted | pkg/apis/guard/v1alpha1/keyval.go:101-138 | any mix of Add and Merge, then Learn in any order: every sample is accepted, one with the empty key when the condition of LearnSoundInAnyOrder holds |
| KeyVal.TableIsTopSeven | pkg/apis/guard/v1alpha1/keyval.go:198-249 | over any run of Learn calls from the empty config the table is sorted and holds the seven largest of seven zeros and every score offered; its keys are distinct and are exactly the known keys, at most seven without the empty name |
| KeyValRuns.KnownKeys | pkg/apis/guard/v1alpha1/keyval.go:198-249 | over any run at most eight keys are known, and eight if and only if the empty key is one of them and no slot is free |
| KeyValRuns.CapKept | pkg/apis/guard/v1alpha1/keyval.go:211-247 | a visit keeps the cap of seven if and only if the key is known, or scores low, or there is a key to evict, or fewer than seven keys are known |
| KeyValRuns.SevenKeys | pkg/apis/guard/v1alpha1/keyval.go:203-205 | over any run of piles without the empty key at most seven keys are known |
| KeyValRuns.EighthKey | pkg/apis/guard/v1alpha1/keyval.go:225-238 | a value under the empty key, then seven keys with a longer one: eight keys are known |
| KeyValRuns.Fill | pkg/apis/guard/v1alpha1/keyval.go:211-247 | as many new keys of one score as there are lower slots evict exactly the keys of these slots |
| KeyVal.LearnKeyKeepsTable | pkg/apis/guard/v1alpha1/keyval.go:211-247 | every visit keeps the table sorted, without a key twice, and its keys known |
| KeyVal.SetScoreOk | pkg/apis/guard/v1alpha1/keyval.go:282-291 | shifting the lower slots down and writing one slot keeps the table sorted and free of duplicate keys |
| KeyVal.FindScoreIndex | pkg/apis/guard/v1alpha1/keyval.go:272-280 | every slot up to the index scores less, the next one does not |
| KeyVal.PrepareEstablishesTable | pkg/apis/guard/v1alpha1/keyval.go:293-312 | preparing a loaded config whose table is blank, in any map order, establishes the slot-table invariant and leaves the rules alone |
| KeyValRuns.PrepareRestores | pkg/apis/guard/v1alpha1/keyval.go:293-312 | for at most seven named rules that score, the prepared table holds exactly the known keys, in any map order |
| KeyValConfigs.AddToPile | pkg/apis/guard/v1alpha1/keyval.go:101-113 | the loop over a profile, in any map order, adds each value under its key and keeps the others |
| KeyValConfigs.MergeIntoPile | pkg/apis/guard/v1alpha1/keyval.go:124-138 | the loop over another pile, in any map order, merges key by key |
| KeyValConfigs.MergeIntoNil | pkg/apis/guard/v1alpha1/keyval.go:128-131 | taking over the other pile, as the code does for a nil one, is what the loop would compute |
| KeyValConfigs.KeyValConfig.Learn | pkg/apis/guard/v1alpha1/keyval.go:198-249 | the loop over the pile computes the state LearnOver for the order visited, for which LearnSound and RunKeeps bound what is approved from below and KeyValBounds.ProfileBound from above |
| KeyValConfigs.KeyValConfig.LearnNew | pkg/apis/guard/v1alpha1/keyval.go:218-246 | an unknown key: its rule and score, the slot it gets, and what is evicted |
| KeyValConfigs.KeyValConfig.LearnKnown | pkg/apis/guard/v1alpha1/keyval.go:212-216 | a known key learns in place; nothing else changes |
| KeyValConfigs.KeyValConfig.AddSvcToOtherVals | pkg/apis/guard/v1alpha1/keyval.go:251-258 | the first evicted rule becomes the shared one, later ones are fused into it |
| KeyValConfigs.KeyValConfig.AddKeyToOtherKeynames | pkg/apis/guard/v1alpha1/keyval.go:261-270 | the rule for other names becomes WithKeyname, with which OthersGrow keeps the names approved so far and KeyValBounds.OtherNamesBound adds no more than those of the keys shown |
| KeyValConfigs.KeyValConfig.FindIndex | pkg/apis/guard/v1alpha1/keyval.go:272-280 | the loop returns the specified index |
| KeyValConfigs.KeyValConfig.SetSlot | pkg/apis/guard/v1alpha1/keyval.go:282-291 | the in-place shift equals the specified table |
| KeyValConfigs.KeyValConfig.Prepare | pkg/apis/guard/v1alpha1/keyval.go:293-312 | the loop over the loaded rules computes the specified table for the order visited |
| KeyValConfigs.KeyValConfig.Decide | pkg/apis/guard/v1alpha1/keyval.go:159-187 | no problem is reported exactly when every key is accepted by its own rule or by the rules for other keys |
| Structured.LearnedSamplesAccepted | pkg/apis/guard/v1alpha1/structuredProfiler.go:251-271 | any mix of Add and Merge of profiles with a kind, then Learn: every sample is accepted, one with the empty key when the condition of KeyVal.LearnSoundInAnyOrder holds |
| Structured.MultiAbsorbs | pkg/apis/guard/v1alpha1/structuredProfiler.go:138-173 | "multi" is absorbing in Add, Merge and Learn, and a config of that kind accepts everything |
| StructuredBounds.ApprovesAllExactly | pkg/apis/guard/v1alpha1/structuredProfiler.go:222-271 | over any run of Learn calls on a new config, for piles built by any mix of Add and Merge: every profile is approved if and only if two samples differ in kind, or one is multi, or a pile without samples was merged into or learned after one with some |
| StructuredBounds.KindBound | pkg/apis/guard/v1alpha1/structuredProfiler.go:225-230 | otherwise a profile is approved only if its kind is the one kind of all samples, and before any sample only the empty kind |
| StructuredBounds.ItemsBound | pkg/apis/guard/v1alpha1/structuredProfiler.go:231-241 | and every item of an approved array, or the value of an approved scalar, is accepted by every rule that accepts all items shown |
| StructuredBounds.FieldsBound | pkg/apis/guard/v1alpha1/structuredProfiler.go:222-271 | and the keys of an approved object have names and values that every rule for the names and for the values shown accepts |
| StructuredBounds.KnownFieldsBound | pkg/apis/guard/v1alpha1/structuredProfiler.go:222-271 | and its known keys have values that every rule for the values shown under that very key accepts |
| StructuredBounds.KindOfPile | pkg/apis/guard/v1alpha1/structuredProfiler.go:138-207 | a pile is multi if and only if its samples are mixed or an empty pile was merged into one with samples, and empty if and only if it has none; otherwise it has the kind of all its samples |
| Structured.MergedKind | pkg/apis/guard/v1alpha1/structuredProfiler.go:186-207 | kinds meet in "multi" exactly when they differ and the left one is not empty |
| Structured.EmptyMergeIsNotNeutral | pkg/apis/guard/v1alpha1/structuredProfiler.go:186-207 | merging an empty pile into a pile of numbers turns it into "multi"; the other way round keeps the kind |
| StructuredObjects.StructuredPile.Add | pkg/apis/guard/v1alpha1/structuredProfiler.go:138-173 | the fields become those of the specified pile |
| StructuredObjects.StructuredPile.Merge | pkg/apis/guard/v1alpha1/structuredProfiler.go:186-207 | the fields become those of the specified merge |
| StructuredObjects.StructuredConfig.Learn | pkg/apis/guard/v1alpha1/structuredProfiler.go:251-271 | the fields become those of the specified config, for the order in which keys were visited |
| StructuredObjects.StructuredConfig.Decide | pkg/apis/guard/v1alpha1/structuredProfiler.go:222-244 | no problem is reported exactly when the profile is accepted in the sense of Accepts, which LearnedSamplesAccepted bounds from below and StructuredBounds.KindBound, ItemsBound and FieldsBound from above |
| IpSet.LearnTight | pkg/apis/guard/v1alpha1/ipSet.go:236-253 | starting empty with addresses of one length: one block for each class C subnet where an address was learned, whose mask is the longest prefix shared by the addresses learned there |
| IpSet.AcceptsExactly | pkg/apis/guard/v1alpha1/ipSet.go:166-253 | after learning addresses of one length an address of that length is accepted if and only if it lies in the subnet of a learned one and its last byte shares the longest prefix of all that were learned there, told by division by powers of two |
| IpSet.OneAddress | pkg/apis/guard/v1alpha1/ipSet.go:204-253 | after learning one address exactly that address is accepted, in both its notations: four bytes, or the same after the twelve bytes 0,0,0,0,0,0,0,0,0,0,255,255 |
| IpSet.NotationIrrelevant | pkg/apis/guard/v1alpha1/ipSet.go:204-224 | no set of blocks tells the two notations of an address apart |
| IpSet.ListedOnce | pkg/apis/guard/v1alpha1/ipSet.go:90-136 | an empty pile that gets two addresses lists one exactly if they are equal or the two notations of one address |
| IpSet.LearnSound | pkg/apis/guard/v1alpha1/ipSet.go:236-253 | every learned address is contained and no accepted address is lost, for any mix of address lengths |
| IpSet.LearnedSamplesAccepted | pkg/apis/guard/v1alpha1/ipSet.go:90-136 | any mix of Add and Merge, then Learn: Decide reports nothing for the samples, nor for what was accepted before, also when a sample was listed under its other notation |
| IpSet.LearnedAppend | pkg/apis/guard/v1alpha1/ipSet.go:236-253 | a sequence of Learn calls is one Learn of all the addresses |
| IpSet.InflateMeaning | pkg/apis/guard/v1alpha1/ipSet.go:165-195 | a block of the same length takes an address exactly when they share the class C subnet; it then keeps its address and has the fewest host bits that still cover both |
| IpSet.ContainsMeaning | pkg/apis/guard/v1alpha1/ipSet.go:166-168 | comparing under the mask bytes is: same subnet, and equal above the host bits of the last byte, for the forms that OneAddress and NotationIrrelevant pin to the written-out prefix |
| IpSet.AgreeAbove | pkg/apis/guard/v1alpha1/ipSet.go:189-191 | the highest bit of the exclusive or marks from where two bytes agree |
| IpSet.AndMasks | pkg/apis/guard/v1alpha1/ipSet.go:191-193 | combining two mask bytes leaves the larger number of host bits |
| IpSet.DecideMeaning | pkg/apis/guard/v1alpha1/ipSet.go:204-224 | nothing is reported exactly when every address is exempt or in a block |
| IpSet.ReportsAdd | pkg/apis/guard/v1alpha1/ipSet.go:204-224 | reports add up over the addresses, one for each that is neither exempt nor in a block |
| IpSet.ListedMeaning | pkg/apis/guard/v1alpha1/ipSet.go:90-136 | adding to a pile keeps the list as a prefix, adds exactly the new names and lists no name twice |
| IpSetObjects.IpSetPile.Add | pkg/apis/guard/v1alpha1/ipSet.go:90-107 | list and name map stay in step; the list is the specified one |
| IpSetObjects.IpSetPile.Merge | pkg/apis/guard/v1alpha1/ipSet.go:119-136 | the same for merging another pile |
| IpSetObjects.InflateBy | pkg/apis/guard/v1alpha1/ipSet.go:165-195 | the shared mask bytes become those of the specified block, or stay as they were |
| IpSetObjects.IpSetConfig.Learn | pkg/apis/guard/v1alpha1/ipSet.go:236-253 | although InflateBy works on struct copies whose address is lost, the blocks become the specified ones, with masks in arrays of their own |
| IpSetObjects.IpSetConfig.Decide | pkg/apis/guard/v1alpha1/ipSet.go:204-224 | the loop counts the addresses that are neither exempt nor in a block, in the sense of Decide, whose verdict NotationIrrelevant and AcceptsExactly tie to the bytes |
| ProcNet.TableRoundTrip | pkg/apis/guard/v1alpha1/pod.go:41-107 | reading a header, rows and a tail gives exactly the remote addresses of interest that the rows spell, in order; rows with a malformed or short address are skipped |
| ProcNet.RowRoundTrip | pkg/apis/guard/v1alpha1/pod.go:66-97 | a row whose field is a port of five characters and the kernel's hexadecimal address gives back that address |
| ProcNet.FoundIsSpelled | pkg/apis/guard/v1alpha1/pod.go:41-107 | on any bytes, for one round of the loop: an address found is of interest and is spelled out in the input just before a colon where the rest begins |
| ProcNet.NextIsSpelled | pkg/apis/guard/v1alpha1/pod.go:41-107 | the same for what nextRemoteIp returns |
| ProcNet.Next | pkg/apis/guard/v1alpha1/pod.go:41-107 | on any bytes: what is left after an address is a strict suffix of the data |
| ProcNet.NextRemoteIp | pkg/apis/guard/v1alpha1/pod.go:41-107 | the NextLine loop, with every slice in bounds, terminates with the specified address and rest |
| ProcNet.IpNetFromProc | pkg/apis/guard/v1alpha1/pod.go:110-132 | the outer loop terminates with the addresses yielded, each name listed once, in order of first appearance; an unreadable file gives none |
| ProcNet.FindByte | pkg/apis/guard/v1alpha1/pod.go:31-38 | the first position of the byte, or -1 when it does not occur |
| ProcNet.FindUnique | pkg/apis/guard/v1alpha1/pod.go:31-38 | the search stops exactly at the end of a part that lacks the byte |
| ProcNet.ParseAddress | pkg/apis/guard/v1alpha1/pod.go:75-97 | 8 or 32 hexadecimal digits give the address they spell; anything else gives none |
| ProcNet.ValueOfEight | pkg/apis/guard/v1alpha1/pod.go:77-92 | the little-endian bytes of the parsed number are the digit pairs in reverse |
| ProcNet.DigitsExactly | pkg/apis/guard/v1alpha1/pod.go:77-92 | the digits accepted are the sixteen of lower and of upper case, with their values |
| ProcNet.SpellsUnique | pkg/apis/guard/v1alpha1/pod.go:75-94 | a text spells at most one address |
| Decisions.CanonicalString | pkg/apis/guard/v1alpha1/v1alpha1.go:141-176 | trees that differ only in the order of reasons, at any depth, have the same string |
| Decisions.SortedUnique | pkg/apis/guard/v1alpha1/v1alpha1.go:150-151 | two sorted arrangements of the same strings are equal, so any sorting method gives the same string |
| Decisions.LeqMeaning | pkg/apis/guard/v1alpha1/v1alpha1.go:150-151 | one string comes before another exactly if it is its beginning or has the smaller character where they first differ |
| Decisions.SpillIs | pkg/apis/guard/v1alpha1/v1alpha1.go:141-165 | for any sorted arrangement of the tags and of the reasons: the string is a bracket, each tag with a colon and the string of its child, then each reason, all followed by a comma, and a bracket |
| Decisions.EmptyString | pkg/apis/guard/v1alpha1/v1alpha1.go:167-176 | the string is empty exactly if the result is not positive, and otherwise starts with the level |
| Decisions.StringTellsApart | pkg/apis/guard/v1alpha1/v1alpha1.go:141-176 | when no tag, reason or level contains a bracket or a comma, two trees have the same string if and only if they differ at most in the order of reasons and in results, and alerts the same string if and only if their levels agree as well |
| Decisions.SpillApart | pkg/apis/guard/v1alpha1/v1alpha1.go:141-165 | such a string can be read back: it determines its tree and where it ends in a longer text |
| Decisions.StringIsExact | pkg/apis/guard/v1alpha1/v1alpha1.go:167-176 | if moreover each result counts the reasons of its tree, equal strings mean trees equal up to the order of reasons |
| Alerts.DecideAllCounted | pkg/apis/guard/v1alpha1/v1alpha1.go:76-106 | results do so when every reason weighs one and no two parts that found problems share a tag |
| Alerts.HoldsProblems | pkg/apis/guard/v1alpha1/v1alpha1.go:76-106 | a decision holds the texts of all reasons in the order reported, and under each tag what was last found there |
| Alerts.CommasJoinReasons | pkg/apis/guard/v1alpha1/keyval.go:175 | the report on one unknown key whose name holds a comma has the string of the report on two unknown keys, with result 1 instead of 2 |
| Alerts.TagsCollide | pkg/apis/guard/v1alpha1/v1alpha1.go:90-106 | a part that reports twice under one tag doubles the result but not the string |
| Alerts.ResultIsSum | pkg/apis/guard/v1alpha1/v1alpha1.go:76-106 | the result is the sum over all reported problems, also when tags collide; the decision is nil exactly when none was reported |
| Alerts.SortedSpillOut | pkg/apis/guard/v1alpha1/v1alpha1.go:141-165 | the builder receives the canonical string; the tree is left as it was up to the order of its reasons |
| Alerts.WriteSortedString | pkg/apis/guard/v1alpha1/v1alpha1.go:167-176 | a tree with a positive result gives its tag and canonical string, any other the empty string |
| Alerts.GateAlerts.Append | pkg/apis/guard/v1alpha1/v1alpha1.go:57-74 | a known string is counted once more, a new one is appended with count one |
| Alerts.GateAlerts.AddAlert | pkg/guard-gate/client.go:228-237 | keeps: distinct strings, at most 1000 alerts, each counting exactly how often its string was raised since the last good sync; a new string is dropped exactly when the list is full |
| Alerts.AccountsStep | pkg/apis/guard/v1alpha1/v1alpha1.go:57-74 | the accounting survives any update that counts a known string or appends a new one |
| Alerts.NoneDropped | pkg/guard-gate/client.go:228-237 | as long as fewer than 1000 alerts are listed every string raised is, and the counts add up to all that were raised; never are more listed |
| Alerts.GateAlerts.Synced | pkg/guard-gate/client.go:217-218 | the list is cleared by a good reply and kept otherwise |
| Iodup.StreamFidelity | pkg/iodup/iodup.go:131-178 | for any parameters, source and interleaving: what a reader received is a prefix of the source, and all of it at EOF |
| Iodup.Fidelity | pkg/iodup/iodup.go:218-236 | the same in every state that satisfies the invariant |
| Iodup.CopyAmount | pkg/iodup/iodup.go:218-236 | in every state with the invariant a read of m bytes hands out exactly the smaller of m and what the slice holds, and these are the next bytes of the source; other readers see no change |
| Iodup.StepInv | pkg/iodup/iodup.go:131-236 | every step of the producer or of a reader keeps the invariant |
| Iodup.RingExclusive | pkg/iodup/iodup.go:131-154 | while the producer may write to the input buffer no channel and no reader holds it; queued, held and input buffers of an output are distinct and at most numBufs |
| Iodup.SlicesAreStable | pkg/iodup/iodup.go:186-236 | no step changes bytes that wait in a channel or that a reader holds |
| Iodup.SequentialDrain | pkg/iodup/iodup.go:131-178 | reader 0 can be driven to EOF while the others read nothing if and only if the source delivers at most numBufs-2 non-empty chunks |
| Iodup.Drain | pkg/iodup/iodup.go:131-178 | the run that does it |
| Iodup.EofNeedsRoom | pkg/iodup/iodup.go:136 | at EOF of reader 0 every chunk waits in the channel of the idle reader |
| Iodup.SomeStep | pkg/iodup/iodup.go:131-236 | while some reader is not at EOF, a step other than a read that copies nothing is enabled |
| Iodup.StepFalls | pkg/iodup/iodup.go:131-236 | every such step lowers a measure, so no run goes on forever without reads that copy nothing |
| Iodup.EveryoneFinishes | pkg/iodup/iodup.go:131-236 | from every state that any interleaving reaches, all readers can go on to EOF and receive the whole source, for any number of chunks |
| Iodup.NewIoDups | pkg/iodup/iodup.go:61-102 | up to three parameters, used as given where they are admissible; otherwise two outputs, 128 buffers and one byte, and by default 128 buffers of 8192 bytes; more parameters panic |
| IodupObjects.Iodup.ReadFromSrc | pkg/iodup/iodup.go:200-216 | the producer's read on buffers overwritten in place is the machine's step |
| IodupObjects.Iodup.Forward | pkg/iodup/iodup.go:186-199 | handing the slice to one output is the machine's step |
| IodupObjects.Iodup.AdvanceBuffer | pkg/iodup/iodup.go:153-154 | moving to the next buffer of the ring is the machine's step |
| IodupObjects.Iodup.CloseChannel | pkg/iodup/iodup.go:170-172 | closing one channel is the machine's step |
| IodupObjects.Iodup.Read | pkg/iodup/iodup.go:218-236 | a Read of a reader is at most one receive and one copy of the machine, or EOF |
| IodupObjects.NewIoDup | pkg/iodup/iodup.go:108-140 | new buffers and outputs form the machine's initial state |
| DSelect.CompletedOnce | pkg/dselect/dselect.go:57-114 | in every reachable state case i+3 belongs to service i, and a service was completed exactly once if it left the list or the loop returned, else never |
| DSelect.StepInv | pkg/dselect/dselect.go:79-113 | every case of the select keeps the invariant |
| DSelect.NoTickAfterCompletion | pkg/dselect/dselect.go:95-111 | no tick follows a completion of the same service |
| DSelect.TicksApart | pkg/dselect/dselect.go:101-104 | in the log of a service, a tick is later than the 64-bit sum of the one before and the period |
| DSelect.TickSpacingExactly | pkg/dselect/dselect.go:95-105 | in any run, a tick comes more than tickSecs after the one before if and only if that sum fits 64 bits |
| DSelect.TickSpacing | pkg/dselect/dselect.go:95-105 | in any run with a clock between 0 and 2^62 seconds, every tick comes more than tickSecs after the one before, whatever the period |
| DSelect.RunReceived | pkg/dselect/dselect.go:57-114 | ticks carry times that the ticker gave, services the periods they were added with |
| DSelect.OverflowLosesSpacing | pkg/dselect/dselect.go:101 | the bound on the clock is sharp: from 2^62 seconds on, with such a period, a service would be ticked in two consecutive seconds |
| DSelect.TickedExactlyIfDue | pkg/dselect/dselect.go:99-105 | within a tick, a listed service is called exactly if it is due; TicksWhenDue says the same over runs, by the log alone |
| DSelect.TicksWhenDue | pkg/dselect/dselect.go:95-105 | after any run, a tick of the loop calls a service exactly once if it was not completed and the time is beyond its last tick in the log plus its period, and not at all otherwise; it calls nothing else |
| DSelect.WaitsFor | pkg/dselect/dselect.go:63-94 | after any run the loop waits for the end of exactly the services that were added and not completed |
| DSelect.CompletesTheChosen | pkg/dselect/dselect.go:108-113 | when the end of a service is chosen that service is completed, and nothing else is called |
| DSelect.CompletesTheRest | pkg/dselect/dselect.go:81-86 | when main is done each service not yet completed is completed once, and no other |
| DSelect.Selector.Round | pkg/dselect/dselect.go:79-113 | one round on the two parallel slices is the machine's step, for which TicksWhenDue, CompletesTheChosen and CompletesTheRest say what is called |
| Services.SampleAccounting | cmd/guard-service/services.go:251-306 | over any run of merges and ticks, for piles of fewer than 2^32-1001000 samples: learned plus pending is everything merged, NumSamples is the capped total, the pile is empty or below 1000 and at most a tenth of NumSamples |
| Services.CallAccountsExactly | cmd/guard-service/services.go:251-306 | the accounting survives a call if and only if number of samples, pending and received samples add up to less than 2^32 |
| Services.SamplesWrap | cmd/guard-service/services.go:288-291 | a pile of 2^32-1 samples, for which the pile counter has room, makes NumSamples fall from 1000000 to 999999 |
| Services.MergeAccountsExactly | cmd/guard-service/services.go:251-256 | learned plus pending remains everything merged if and only if the 32-bit pile counter does not wrap |
| Services.GatePilesDoNotWrap | cmd/guard-service/services.go:254 | piles of up to 2000 samples, as gates send them, never wrap it |
| Services.TickProgress | cmd/guard-service/services.go:125-161 | a tick gets through at least eleven records or all there are, and through at most a hundred |
| Services.TickStopsAtEleven | cmd/guard-service/services.go:125-161 | at most eleven of the records processed reported that they should be persisted, and it is eleven when the tick stops before a hundred and before the end |
| Services.ShutdownFlush | cmd/guard-service/main.go:327-334 | the flush ends within ceil(n/11) ticks whatever is deleted meanwhile; each record was processed once; those not deleted have an empty pile and were persisted exactly when the pile was not empty |
| Services.FlushSkipsLearnedRecord | cmd/guard-service/services.go:104-117 | a record that learned earlier and was not persisted since is not persisted by the flush |
| Services.PersistsExactly | cmd/guard-service/services.go:280-305 | persisting starts if and only if the flag is returned and the call learned a pile or an earlier one did since the last persist |
| Services.PersistSpacing | cmd/guard-service/services.go:280-305 | over any run of syncs and ticks with increasing clocks, two persists of a record are more than 300 seconds apart |
| Services.PersistsFollowLearns | cmd/guard-service/services.go:280-305 | over any such run of a new record there are at most as many persists as learnings |
| Services.PersistsWhenDue | cmd/guard-service/services.go:264-306 | over any such run a call persists exactly if a pile was learned since the last persist, this call included, and that persist was more than 300 seconds ago or this is the first call; told by the counters and clocks alone |
| Services.LearnsExactly | cmd/guard-service/services.go:264-300 | a pile is learned, and emptied, exactly if it is not empty and nothing was learned yet, or it holds 1000 samples, or more than a tenth of those seen, or 30 seconds have passed |
| ServicesObjects.Services.LearnAndPersistGuardian | cmd/guard-service/services.go:264-306 | the record's fields and the returned wish to persist are those of LearnAndPersist, for which PersistSpacing, PersistsFollowLearns and PersistsWhenDue say over runs when it persists |
| ServicesObjects.Services.MergeAndLearnAndPersistGuardian | cmd/guard-service/services.go:251-259 | the record's fields after a sync are the specified ones |
| ServicesObjects.Services.FlushTickerRecords | cmd/guard-service/services.go:104-117 | the list holds every cached record once, each marked |
| ServicesObjects.Services.CreateRecords | cmd/guard-service/services.go:85-102 | the list is made anew, every cached record once, only and always when five minutes have passed |
| ServicesObjects.Services.TickQueue | cmd/guard-service/services.go:125-161 | a tick processes a prefix of the list, skips deleted records, and removes that prefix |
| ServicesObjects.Services.PersistAll | cmd/guard-service/main.go:327-334 | the loop empties the list within ceil(n/11) ticks and leaves every record flushed or deleted |
| GateSync.DeliveryExactly | pkg/guard-gate/client.go:138-226 | with lost and delayed requests and replies and any number of overlapping syncs, an accepted sample is at its gate or merged if and only if no reply cleared it unmerged or a delayed request has brought it since; no pile exceeds 2000; learned plus pending is everything merged |
| GateSync.DeliveredExactly | pkg/guard-gate/client.go:138-226 | over any run, no accepted sample is lost if and only if every sample that a reply clears is merged by the end |
| GateSync.AtLeastOnce | pkg/guard-gate/client.go:138-226 | at-least-once delivery, when a gate adds no sample while a sync of its own is under way; syncs may overlap |
| GateSync.KeptExactly | pkg/guard-gate/client.go:239-249 | a gate keeps a sample, with the next number, exactly while its pile holds fewer than 2000 |
| GateSync.AddDuringSyncIsLost | pkg/guard-gate/client.go:155-223 | a sample added while a sync is under way is cleared and never delivered |
| GateSync.StepInv | cmd/guard-service/main.go:269-299 | every step of a gate, the network or the service keeps the invariant; the service merges before it replies |
| GateClients.GateClient.AddToPile | pkg/guard-gate/client.go:239-249 | the machine's step; a full pile drops the sample |
| GateClients.GateClient.SyncWithService | pkg/guard-gate/client.go:138-226 | a run of two or three steps of the machine; pile and alerts are cleared exactly on a good reply and nothing in the pile is lost |
| GateClients.GateClient.SignalCompromised | pkg/guard-gate/client.go:131-136 | only the first call syncs |

## Left out

- Kubernetes clients, watchers, the webhook, certificates, HTTP, JSON encoding and logging: library
  calls and wiring. Persisting a guardian is a counter, the HTTP call a step that may get lost.
- Decisions as data in the learning part: there the result of Decide is the number of problems
  reported, and nil is zero. How reasons and children form a decision is in `Alerts`, on values
  rather than shared heap objects; of the wording of reasons only that on unknown keys is modelled.
- Strings are sequences of code points: invalid UTF-8 and the hashing of long keys are not modelled.
- Nil entries of maps are taken as absent keys, and absent counters as zero.
- The struct aggregates (requests, responses, sessions, headers, media types, envelopes, pods),
  counts and sets: they repeat the same results field by field.
- Flattening of JSON by reflection, profiles of the empty kind, and kinds that the code does not
  name.
- KeyVal.LearnSound: covers one Learn; what later calls take away is in `KeyValRuns`.
- KeyValBounds.KnownKeyBound: the rules for the other keys are part of the statement, any that accept
  what was shown under them.
- KeyVal.PrepareEstablishesTable: one Prepare of a loaded config; a second one is not modelled,
  because it does not reset the table.
- KeyVal.TableIsTopSeven: counts the known keys without the empty name; KnownKeys counts them all.
- Structured.LearnedSamplesAccepted: profiles with a kind only, because adding one of the empty kind
  depends on the order.
- IpSet.AcceptsExactly: one address length, like LearnTight.
- IpSet.LearnTight: one address length; a mapped address of sixteen bytes that a four-byte block
  contains gets no block of its own. Addresses have four or sixteen bytes. Go's `net.IPNet.Contains`,
  `net.CIDRMask` and the canonical form of mapped addresses are modelled from their documentation;
  the textual name of an address is that form. `Include` and `lastIP` are not used by learning.
- Which addresses are unspecified, loopback or private: one predicate that is a parameter of
  `IpSet.Decide` and of the parser.
- ProcNet.TableRoundTrip: rows may hold any text without a newline after the third colon; a row that
  lacks a colon runs into the next one, as in the code, and is covered only by the results about
  arbitrary bytes.
- Iodup.StreamFidelity: one lifetime of a duplicator. A stashed one is reused before slow readers
  are done, which is not modelled. A panic of the source counts as its end, and its second close of
  the channels, which recovers, is not modelled.
- ServicesObjects.Services.PersistAll: the clock is past the first five minutes of 1970, so that a
  record reset to the epoch is due. Persisting itself may fail in the background; it is counted when
  it is started.
- Sharing between piles: a nil pile that takes over the map of another one shares it from then on;
  the model copies it. The interface asks callers not to use the other pile after a merge
  (`pkg/apis/guard/v1alpha1/v1alpha1.go:186`).
- Reading of the wall clock: readings are parameters and strictly increase. Each access to a record,
  a pile or the list of alerts is one step; races within a step are not modelled.
- GateClients.GateClient.SyncWithService: no sample and no other sync of this gate comes during the
  call; in `GateSync` both may.
- Services.SampleAccounting: excludes piles of 2^32-1001000 samples or more. Gates send at most 2000;
  for one call CallAccountsExactly covers every size. A guardian replaced by the watch is not
  modelled.
- KeyVal.LearnSoundExactly: speaks of the order that the map happened to have. EmptyKeyDropped and
  EmptyKeyDroppedSomewhere say what holds in every and in some order; when other keys of the pile are
  known, and may be evicted before their turn, only EmptyKeyKept is there for the second.
- KeyValRuns.LearnKeepsInAnyOrder: one way. LearnKeepsExactly is exact for the order of the visits.
- Decisions.StringTellsApart: texts with brackets or commas are excluded, since CommasJoinReasons
  shows that such strings can be read in more than one way.
- The token cache, the query parsing and the pod checks of `cmd/guard-service/main.go`, the policy of
  `pkg/guard-gate/state.go` and the session life cycle.
