# A verified model of Open vSwitch's packet classification and forwarding core

This is a Dafny model of the parts of Open vSwitch 2.3.90 that decide what happens to a packet,
with proofs of what they promise. `dafny verify dfyconfig.toml` checks all of it.

* **The flow classifier** (`lib/classifier.c`): tuple-space search over subtables with staged hash
  indices, prefix tries, metadata partitions and conjunctive matches. `Trie`, `PrefixWords`,
  `Flows`, `Subtables`, `SubtableChanges`, `ClassifierState`, `Classifier` hold its data structures
  and operations; `Selection` says what a lookup selects in terms of chains, `Lookup` has the code
  that finds it and the wildcards, and `Matching` proves what the selection means in terms of
  rules. `WildcardLimits` shows where the wildcards go wrong, `ConjunctionLimits` where conjunctions
  are missed, and `TrieDepth` where removals do.
* **The concurrent cuckoo hash** (`lib/cmap.c`): `CuckooTable` and `CuckooChanges` are the table as
  a value, `CuckooSearch` the breadth-first search, `CuckooImpl` and `CuckooMap` the operations in
  place. `CuckooImpl` keeps the history of all states between writes to memory (`CuckooHistory`),
  and `CuckooReader` interleaves a reader with such a history.
* **BFD sessions** (`lib/bfd.c`): `Bfd` is the state of a session and what events make of it,
  `BfdRules` what they all keep and promise, `BfdSession` the object with its operations in place,
  and `BfdNetwork` two sessions on a network that loses, duplicates and reorders packets.
* **The kernel's flow table and actions** (`datapath/flow_table.c`, `datapath/actions.c`):
  `FlowKeys`, `FlowInstances`, `MaskArrays`, `FlowTable`; `ActionSpec` says what actions mean,
  `ActionLaws` what that comes to for whole lists of them, and `Actions` executes them as the kernel
  does.
* **The Internet checksum** (`lib/csum.c`): `Csum`.

Hash functions, the random choices, memory that runs out, the clock and the network are arbitrary
functions or parameters, so the results hold for all of them.

Where a promise does not hold of the code, the code is modelled as it is, with an input that shows
it and the condition under which it does hold:

* The wildcards of a classifier lookup can be too wide when a stage hash collides
  (`WildcardLimits.CollisionExists`), or when a mask has bits behind the ports
  (`WildcardLimits.PortsExact`, an exact condition).
* A complete conjunction that has a rule can be missed when, for one of its clauses, every matching
  rule lists it behind a complete conjunction that has no rule (`ConjunctionLimits.MissedConjunction`).
  It is missed in no other case (`Matching.SelectMeaning`), and in particular not if rules are in one
  conjunction each, or conjunctions do not overlap (`Matching.SelectExact`). Whether it is missed then
  depends on the order of the subtables; `ConjunctionLimits.SelectMisses` is about any order.
* A conjunction of 64 clauses is found to match as soon as one of its clauses does, if 64 rules of the
  priority that are parts of conjunctions match (`ConjunctionLimits.EarlyMatch`), and only then without
  being complete (`Matching.SelectMeaning`).
* Removing a 128-bit prefix from a trie writes beyond the array of edges if and only if every shorter
  length ends at a node (`TrieDepths.RemovalFits`, `TrieDepths.DeepTrie`).
* The assertion on the load of a cuckoo hash holds for every expansion but the one from 2^29
  buckets (`CuckooMaps.ExpandExact`).
* A BFD session that is not Up advertises a rate below one second during a poll sequence for such a
  rate, and for very slow rates that wrap around in 32 bits (`BfdNetworks.SlowUnlessUp`, an exact
  condition).
* A packet is lost when a recirculation is the last action, the key is invalid and its update fails;
  none is lost if and only if every invalid key that modifications lead to can be updated
  (`ActionSpecs.LossExact`).
* An incremental checksum differs from a recomputed one when all data has become zero, and only then
  (`Checksums.IncrementalIsExact`).

## Model

| member | source | states |
|---|---|---|
| `Tries.InsertPrefix` | openvswitch-2.3.90/lib/classifier.c:2143-2187 | inserting a prefix keeps the trie well formed and adds exactly one occurrence of that prefix to the multiset it stands for, and of no other, through splitting of nodes and branches of several nodes |
| `Tries.Branch` | openvswitch-2.3.90/lib/classifier.c:1906-1931 | a new branch stores its prefix, as often as asked, and nothing else, in nodes of at most 32 bits |
| `Tries.RemovePrefix` | openvswitch-2.3.90/lib/classifier.c:2200-2270 | removing a stored prefix takes away exactly one occurrence; a prefix that is not stored is reported and changes nothing; and how far the walk gets in the array of edges |
| `Tries.Prune` | openvswitch-2.3.90/lib/classifier.c:2226-2263 | removing or combining the nodes that have become useless, upward from an edge, restores the shape of the trie and changes no count |
| `Tries.NullIffEmpty` | openvswitch-2.3.90/lib/classifier.c:1556-1557 | a well-formed trie is null exactly when it stores no prefix |
| `TrieDepths.RemovalFits` | openvswitch-2.3.90/lib/classifier.c:2203-2209 | for prefixes of at most 128 bits, the walk of a removal stays within its array of 128 edges if and only if the prefix is not one of 128 bits of which every shorter length, 0 included, ends at a node; so for all fields of fewer bits it does |
| `TrieDepths.DepthBound` | openvswitch-2.3.90/lib/classifier.c:2203-2209 | a walk uses at most one edge more than the prefix has bits, and exactly so many if every shorter length ends at a node |
| `TrieDepths.DeepTrie` | openvswitch-2.3.90/lib/classifier.c:2200-2213 | a trie made by 129 insertions of prefixes of at most 128 bits, from which the removal of the longest one goes one edge beyond the array |
| `Tries.LookupValue` | openvswitch-2.3.90/lib/classifier.c:2035-2066 | the marked lengths are exactly those of the stored prefixes of the value; every value that shares the returned number of bits has the same ones, no marked length is beyond that number, and all bits but the last of them lead toward a stored prefix |
| `PrefixWords.RawPrefix` | openvswitch-2.3.90/lib/classifier.c:1834-1848 | the word that is put together from one or two words of the array begins with the wanted bits of the whole value |
| `PrefixWords.TriePrefix` | openvswitch-2.3.90/lib/classifier.c:1855-1866 | exactly the wanted bits, at most 32, and zeros after them |
| `PrefixWords.EqualLeadingBits` | openvswitch-2.3.90/lib/classifier.c:1870-1887 | exclusive-or and counting leading zeros give the number of leading bits that a node and the rest of a prefix have in common |
| `PrefixWords.BitAt` | openvswitch-2.3.90/lib/classifier.c:1891-1895 | the byte-wise access gives the bit at that offset of the value |
| `PrefixWords.BranchHolds` | openvswitch-2.3.90/lib/classifier.c:1908-1917 | the word of a new node is its bits and zeros after them |
| `PrefixWords.SplitHolds` | openvswitch-2.3.90/lib/classifier.c:2163-2165 | shifting the word of a node that is split leaves the word of the bits that remain |
| `PrefixWords.CombinedHolds` | openvswitch-2.3.90/lib/classifier.c:2249-2251 | joining the words of a node and its only child gives the word of the bits of both |
| `PrefixWords.BranchBit` | openvswitch-2.3.90/lib/classifier.c:1899-1903 | the bit that selects a branch is read from the word of a node |
| `Flows.MatchesFlowWc` | openvswitch-2.3.90/lib/classifier.c:1685-1714 | compares under the mask, in full; after a mismatch the wildcards gain all words before it, and one bit that differs, and nothing else |
| `Flows.MaskedIffAgree` | openvswitch-2.3.90/lib/classifier.c:1643-1661 | a flow has the masked key of a rule exactly when they agree on the mask |
| `Flows.HashRange` | openvswitch-2.3.90/lib/classifier-private.h:172-193 | hashing a stage from the basis of the previous one gives the hash of all masked words up to the end of the stage |
| `Flows.BasisAgree` | openvswitch-2.3.90/lib/classifier-private.h:264-283 | flows that agree on the masked words up to a stage have the same hash for it, for any hash function |
| `Flows.PrefixLen` | openvswitch-2.3.90/lib/classifier.c:2089-2115 | the length of the prefix that a mask is on a field, and 0 if it is not a prefix mask |
| `Subtables.TrieLookup` | openvswitch-2.3.90/lib/classifier.c:2068-2084 | the prefix lengths that a trie has for a flow, and how many bits of it decide that; nothing is excluded if the prerequisite of the field does not hold |
| `Subtables.CheckTries` | openvswitch-2.3.90/lib/classifier.c:1577-1633 | a subtable is skipped only if some trie shows that none of its rules match, whatever flow has the bits that are then in the wildcards |
| `Subtables.FindMatch` | openvswitch-2.3.90/lib/classifier.c:1663-1677 | going through the nodes with the hash of the flow finds the chain that the flow matches, collisions or not |
| `Subtables.FindMatchFinal` | openvswitch-2.3.90/lib/classifier.c:1786-1811 | finds the chain that the flow matches; after a miss in a mask with ports, the ports trie gives the wildcards, which settle the outcome if the mask has nothing behind the ports |
| `Subtables.CheckSingle` | openvswitch-2.3.90/lib/classifier.c:1765-1777 | when one node is left in a stage, comparing with it decides the match, and settles the wildcards if no stage hash collides |
| `Subtables.FindMatchWc` | openvswitch-2.3.90/lib/classifier.c:1726-1812 | stage by stage, finds the chain that the flow matches, for any hash function; without colliding stage hashes and with nothing behind the ports, every flow that agrees on the wildcards (and on metadata and Ethernet type) has the same match; the wildcards gain only bits that the mask matches on, none behind a stage that no rule has the flow's hash in, and when a trie shows the miss only bits of its prefix and of the stages before |
| `Subtables.SingleMismatch` | openvswitch-2.3.90/lib/classifier.c:1765-1777 | a mismatch with the single node of a stage is settled by the words before it and one bit |
| `Subtables.PortsMiss` | openvswitch-2.3.90/lib/classifier.c:1789-1807 | after a miss, flows that share the bits before the ports and the ports bits that the ports trie asks for miss as well |
| `WildcardLimits.PortsExact` | openvswitch-2.3.90/lib/classifier.c:1789-1807 | for a mask with ports, the wildcards that the search gives when it has gone through all stages and the ports trie explains the miss are good in every subtable that can be searched and for every flow, if and only if the mask has no bits behind the ports |
| `WildcardLimits.BehindPorts` | openvswitch-2.3.90/lib/classifier.c:1789-1807 | a flow that differs from a rule of the subtable in one bit behind the ports gets wildcards that are wrong |
| `WildcardLimits.PortsUnsettled` | openvswitch-2.3.90/lib/classifier.c:1726-1812 | for every mask that has bits behind its ports, and any segments and hash function: two rules, entered into a new subtable, and a search in it whose wildcards are wrong |
| `WildcardLimits.CollisionUnsettles` | openvswitch-2.3.90/lib/classifier.c:1765-1777 | when the single node that a stage leaves has the stage hash of the flow, but differs from it in one bit of the stage, the wildcards of the comparison are wrong as soon as another rule agrees with the flow on that bit and on the words before it |
| `WildcardLimits.CollisionExists` | openvswitch-2.3.90/lib/classifier.c:1765-1777 | a subtable made by insertions, a hash function and a flow for which that happens, and the search that gives such wildcards |
| `SubtableChanges.AddHead` | openvswitch-2.3.90/lib/classifier.c:592-638 | a new chain is entered into all stage indices, the rules and the ports trie, which then hold exactly all chains under their hashes |
| `SubtableChanges.DropHead` | openvswitch-2.3.90/lib/classifier.c:806-826 | the last rule of a chain leaves all stage indices, the rules and the ports trie, and nothing else does |
| `SubtableChanges.ChangeIndices` | openvswitch-2.3.90/lib/classifier.c:628-638 | all stage indices gain, or lose, exactly one chain under its hash |
| `SubtableChanges.InsertInChain` | openvswitch-2.3.90/lib/classifier.c:639-694 | the chain stays ordered by priority without duplicates; a rule of the same priority is displaced, and otherwise none is lost |
| `SubtableChanges.WithoutRuleOk` | openvswitch-2.3.90/lib/classifier.c:775-804 | removing a rule from its chain keeps the order and all other rules |
| `SubtableChanges.AddPriorityOk` | openvswitch-2.3.90/lib/classifier.c:700-716 | after an insertion the subtable's maximum priority and the number of heads that have it are exact |
| `SubtableChanges.DropPriority` | openvswitch-2.3.90/lib/classifier.c:842-859 | after a removal they are exact again, counted anew when the last head of the maximum is gone |
| `SubtableChanges.FindMax` | openvswitch-2.3.90/lib/classifier.c:845-857 | the highest priority among the heads of the chains, and how many of them have it |
| `SubtableChanges.SetUpStages` | openvswitch-2.3.90/lib/classifier.c:1494-1521 | every stage that gets an index adds bits of the mask to those of the previous one, and bits remain behind the last one; every segment that divides the bits of the mask has such a stage |
| `SubtableChanges.NewSubtable` | openvswitch-2.3.90/lib/classifier.c:1478-1544 | a new subtable is empty, indexed, and has the prefix lengths of its mask for all tries and for the ports |
| `ClassifierState.CountInAll` | openvswitch-2.3.90/lib/classifier.c:593-601 | every trie of the classifier that the mask has a prefix for gains one occurrence of the rule's prefix, so the tries count the chains exactly |
| `ClassifierState.CountOutAll` | openvswitch-2.3.90/lib/classifier.c:815-819 | and loses it again when the chain goes |
| `ClassifierState.AllSearchable` | openvswitch-2.3.90/lib/classifier.c:1577-1633 | in a classifier whose tries count all chains, every prefix that a subtable asks for is in its trie |
| `ClassifierState.SkippedHasNoMatch` | openvswitch-2.3.90/lib/classifier.c:1009-1047 | a subtable that is skipped because of its tag has no match for the flow |
| `ClassifierState.JoinOk` | openvswitch-2.3.90/lib/classifier.c:615-624 | after a rule with exact metadata is added, the partitions count the chains per metadata and mask exactly |
| `ClassifierState.LeaveOk` | openvswitch-2.3.90/lib/classifier.c:828-837 | and after one is removed |
| `ClassifierState.PlaceOk` | openvswitch-2.3.90/lib/pvector.c:116-197 | setting a subtable's priority keeps the vector sorted by descending priority with one entry for every subtable |
| `ClassifierState.WithoutOk` | openvswitch-2.3.90/lib/pvector.c:149-165 | removing a subtable keeps it so |
| `Classifiers.Classifier.constructor` | openvswitch-2.3.90/lib/classifier.c:307-326 | a new classifier has no rules and is valid |
| `Classifiers.Classifier.Replace` | openvswitch-2.3.90/lib/classifier.c:561-726 | exactly one rule is added, and the identical one, if there was one, is returned and gone; everything that lookups rely on (chain order, indices, tries, ports tries, partitions, vector, maxima, rule count) is kept |
| `Classifiers.Classifier.ReplaceInChain` | openvswitch-2.3.90/lib/classifier.c:639-716 | the same for a rule whose flows some rule has already |
| `Classifiers.Classifier.ReplaceNew` | openvswitch-2.3.90/lib/classifier.c:592-638 | the same for a rule with new flows, in an old or in a new subtable |
| `Classifiers.Classifier.Remove` | openvswitch-2.3.90/lib/classifier.c:751-876 | removes exactly that rule, or reports that it was not there |
| `Classifiers.Classifier.RemoveFromChain` | openvswitch-2.3.90/lib/classifier.c:775-804 | the same when other rules have the same flows |
| `Classifiers.Classifier.RemoveLast` | openvswitch-2.3.90/lib/classifier.c:806-860 | the same for the last rule of its chain, and perhaps the last chain of its subtable |
| `Classifiers.TakeChain` | openvswitch-2.3.90/lib/classifier.c:1547-1566 | when the last rule of a subtable goes, its ports trie is null, as asserted |
| `Classifiers.FindEqual` | openvswitch-2.3.90/lib/classifier.c:1814-1826 | finds out whether some rule of the subtable has the same flows |
| `Classifiers.Classifier.Lookup` | openvswitch-2.3.90/lib/classifier.c:1226-1244 | after any run of replace and remove, and for any hash function: without conjunctions, a matching rule of the highest priority, or none exactly if no rule matches; with them, what Matching.SelectMeaning and Matching.SelectExact state; and wildcards that gain only bits that some subtable matches on, and are good when no stage hash collides, for the flow and for it with the ids that its soft matches list, if any, and nothing is behind the ports |
| `Lookups.ScanSubtables` | openvswitch-2.3.90/lib/classifier.c:1037-1085 | the main loop finds what a scan of all subtables finds, although it stops at the first one that cannot improve the result and skips partitions, and so it does for every flow that agrees on the wildcards, which gain only bits that some subtable matches on |
| `Lookups.FindConjunctiveMatch` | openvswitch-2.3.90/lib/classifier.c:920-957 | records the clauses of a rule and reports the first conjunction that they complete |
| `Lookups.PurgeSoft` | openvswitch-2.3.90/lib/classifier.c:1105-1136 | drops exactly the soft matches that the best certain match beats, and keeps all others as often as they were there |
| `Lookups.TopPriority` | openvswitch-2.3.90/lib/classifier.c:1138-1152 | the highest priority among the soft matches, and how many have it |
| `Lookups.NextLower` | openvswitch-2.3.90/lib/classifier.c:1190-1219 | the next-lower rule takes the place of each soft match of the decided priority, or competes as a certain match |
| `Lookups.MatchLevel` | openvswitch-2.3.90/lib/classifier.c:1154-1188 | decides one priority of soft matches, and its wildcards decide it for all flows that agree on them |
| `Lookups.MatchSoft` | openvswitch-2.3.90/lib/classifier.c:1101-1225 | the loop over the priorities ends, and finds what its specification finds |
| `Lookups.Lookup` | openvswitch-2.3.90/lib/classifier.c:982-1226 | the lookup with wildcards finds what its specification selects, and, when the wildcards are good, the same for every flow that agrees on them, on metadata and on the Ethernet type; they gain only bits that some subtable matches on |
| `Selection.DescendShrinks` | openvswitch-2.3.90/lib/classifier.c:1190-1219 | the rules remaining in the soft matches become fewer in every round |
| `Matching.BestMatch` | openvswitch-2.3.90/lib/classifier.c:982-1095 | without conjunctions, what is selected is a matching rule of the highest priority, and nothing is selected exactly if no rule matches |
| `Matching.LevelMeaning` | openvswitch-2.3.90/lib/classifier.c:1154-1188 | given 1 to 64 clauses, always the same number for an id, and at most one clause of an id per rule: a conjunction is reported only if all its clauses match at that one priority, or it has 64 clauses and 64 matching rules of the priority are parts of conjunctions; if none is reported, then every one of which this is so has no rule, or one of its clauses (of 64 clauses all) stands, in each matching rule of the priority that supplies it, behind another one of which it is so and that has no rule |
| `Matching.RecordSound` | openvswitch-2.3.90/lib/classifier.c:920-957 | clauses are recorded only if a matching rule of that priority supplies them, and a conjunction is reported only if it is complete, or has 64 clauses and there are as many soft matches |
| `Matching.EnoughMatches` | openvswitch-2.3.90/lib/classifier.c:928-938 | a conjunction with more clauses than there are soft matches of the priority cannot be complete |
| `Matching.PartsCounted` | openvswitch-2.3.90/lib/classifier.c:1138-1152 | the soft matches of a priority are as many as its matching rules that are parts of conjunctions |
| `Matching.SelectMeaning` | openvswitch-2.3.90/lib/classifier.c:982-1226 | with conjunctions that are well formed in the same sense: the result is a best certain match, or the rule of a conjunction that is complete, or of 64 clauses as above, of a higher priority than any certain match; above it, every such conjunction has no rule, or a clause that stands only behind ones without a rule |
| `Matching.SelectExact` | openvswitch-2.3.90/lib/classifier.c:950-954 | if every matching rule is in one conjunction at most, or every conjunction that matching rules are in has a rule, or conjunctions of one priority do not overlap, as documented, then nothing is missed: above the result, complete conjunctions have no rule |
| `ConjunctionLimits.LevelMisses` | openvswitch-2.3.90/lib/classifier.c:950-954 | for a given order of the soft matches: a level finds nothing if for every conjunction that is taken for complete and has a rule there is a clause such that each soft match that supplies it lists, in front, an entry that completes a conjunction without a rule, the other clauses of which come from earlier soft matches and stand behind no such conjunction |
| `ConjunctionLimits.SelectMisses` | openvswitch-2.3.90/lib/classifier.c:982-1226 | if all of them are hidden so in every order, the lookup finds a best certain match, or nothing |
| `ConjunctionLimits.HiddenConjunction` | openvswitch-2.3.90/lib/classifier.c:950-954 | in every classifier of three rules, two of them the parts of conjunctions 'first' and 'second' of two clauses each, and one the rule of 'second': the lookup of a flow that matches both parts finds nothing, although 'second' is complete and has a rule |
| `ConjunctionLimits.MissedConjunction` | openvswitch-2.3.90/lib/classifier.c:1226-1244 | such a classifier, built with insertions, and the lookup that finds nothing in it |
| `ConjunctionLimits.LargeAtOnce` | openvswitch-2.3.90/lib/classifier.c:948-954 | an entry of a conjunction of 64 clauses is reported when it is reached, as soon as there are 64 soft matches |
| `ConjunctionLimits.EarlyConjunction` | openvswitch-2.3.90/lib/classifier.c:948-954 | in every classifier in which 64 rules of one priority supply the same clause of a conjunction of 64 clauses, a flow that matches them is found to match the conjunction |
| `ConjunctionLimits.EarlyMatch` | openvswitch-2.3.90/lib/classifier.c:1226-1244 | such a classifier, built with insertions, and the lookup that finds the conjunction's rule in it |
| `Matching.ConjIdMeaning` | openvswitch-2.3.90/lib/classifier.c:1171-1176 | the rule of a conjunction is a best one of those rules that are neither a part of a conjunction nor behind one, and that agree with the flow in every bit that they match on, where the 32 bits of the conjunction id are the conjunction's id and all others the flow's |
| `Flows.ConjIdBits` | openvswitch-2.3.90/lib/classifier.c:1171-1176 | setting the id of a conjunction in a flow changes the 32 bits of that field and no others |
| `Flows.StageHashExact` | openvswitch-2.3.90/lib/classifier-private.h:173-208 | what is hashed for a stage is the bits of the mask below its end, all of them and no others: with hash functions that never collide, two flows have the same hash exactly if they agree on those bits |
| `ClassifierState.OutsideIsSkipped` | openvswitch-2.3.90/lib/classifier.c:1031-1050 | a subtable that matches all 64 bits of the metadata is skipped if its tag shares no bit with those of the subtables that have rules with the flow's metadata, or, if there are none, is not the arbitrary tag |
| `CuckooTables.OtherHashIsSymmetric` | openvswitch-2.3.90/lib/cmap.c:185-193 | the other hash has the two 16-bit halves of the hash exchanged, and the other hash of the other hash is the hash itself |
| `CuckooTables.BucketHalves` | openvswitch-2.3.90/lib/cmap.c:74-80 | with up to 2^16 buckets, the first bucket of a hash comes from the low half of the rehashed hash, and the second one from the high half |
| `CuckooTables.FindMeaning` | openvswitch-2.3.90/lib/cmap.c:313-322 | every used slot is found under its hash, unused slots with the same hash notwithstanding |
| `CuckooTables.FoundInSlot` | openvswitch-2.3.90/lib/cmap.c:360-370 | what is found is the chain of a used slot with exactly that hash in one of its two buckets |
| `CuckooChanges.ChainChange` | openvswitch-2.3.90/lib/cmap.c:532-582 | changing or beginning a chain in the slot of its hash keeps every hash in one chain in one bucket, and changes what is found for no other hash |
| `CuckooChanges.Overwrite` | openvswitch-2.3.90/lib/cmap.c:516-527 | writing an entry into a slot that is unused, or whose entry is in its other bucket too, keeps all entries findable and changes no other hash |
| `CuckooChanges.MoveEntry` | openvswitch-2.3.90/lib/cmap.c:713-727 | copying an entry to its other bucket changes nothing that is found, and frees its slot |
| `CuckooChanges.PlaceNew` | openvswitch-2.3.90/lib/cmap.c:729-731 | the new entry in a free slot adds exactly that hash |
| `CuckooSearch.FindPath` | openvswitch-2.3.90/lib/cmap.c:628-747 | although no visited set is kept and both queue and depth are limited: a path that the search finds is a shortest one and leads through full buckets, all different, to one with an unused slot; and it finds one whenever some bucket within 4 hops has an unused slot |
| `CuckooSearch.AllSearched` | openvswitch-2.3.90/lib/cmap.c:665-744 | at any point of the search, all buckets are full that can be reached with one hop more than the paths that it is done with |
| `CuckooSearch.NotYetFull` | openvswitch-2.3.90/lib/cmap.c:735-742 | the queue cannot become full before all paths of at most 3 hops are in it |
| `CuckooSearch.TrailDistinct` | openvswitch-2.3.90/lib/cmap.c:665-744 | the buckets of a path in the queue are all different, if no earlier entry ends in the same bucket |
| `CuckooSearch.ParentEndsFirst` | openvswitch-2.3.90/lib/cmap.c:665-744 | if no earlier entry of the queue ends where an entry does, then none ends where its parent does: otherwise a shorter path would have been queued before |
| `CuckooSearch.CurrentEndsFirst` | openvswitch-2.3.90/lib/cmap.c:665-744 | no earlier entry ends in the bucket that the search succeeds from |
| `CuckooSearch.FindEmptySlot` | openvswitch-2.3.90/lib/cmap.c:503-514 | the first unused slot, or none if the bucket is full |
| `CuckooHistory.SetBucketStates` | openvswitch-2.3.90/lib/cmap.c:516-527 | each of the four writes to a bucket leaves a state in which, but for the bucket with the odd counter, all entries can be found |
| `CuckooImpls.Impl.constructor` | openvswitch-2.3.90/lib/cmap.c:222-238 | an empty table |
| `CuckooImpls.Impl.SetBucket` | openvswitch-2.3.90/lib/cmap.c:516-527 | writes counter, node, hash and counter, in this order, into a history of states that are all good for readers, and all but the last of which stand for the table as it was |
| `CuckooImpls.Impl.SetChain` | openvswitch-2.3.90/lib/cmap.c:572-576 | a single write without the counter, with the same promise |
| `CuckooImpls.Impl.InsertDup` | openvswitch-2.3.90/lib/cmap.c:532-582 | puts the new nodes ahead of the chain of the same hash, or begins one in a slot left over from it, or reports that the bucket has no slot with the hash |
| `CuckooImpls.Impl.InsertBucket` | openvswitch-2.3.90/lib/cmap.c:586-599 | uses the first unused slot, or reports that the bucket is full |
| `CuckooImpls.Impl.InsertBfs` | openvswitch-2.3.90/lib/cmap.c:628-747 | after each of its writes every hash is mapped to the same chain as before, until the last write adds the new node; or nothing has changed, and no bucket within 4 hops has an unused slot |
| `CuckooImpls.DisplaceStep` | openvswitch-2.3.90/lib/cmap.c:713-727 | after each backward move all chains are found as before, and no bucket nearer to the start has changed |
| `CuckooImpls.DisplaceEnd` | openvswitch-2.3.90/lib/cmap.c:729-731 | after the last write the table has gained exactly the new entry |
| `CuckooImpls.Impl.TryInsert` | openvswitch-2.3.90/lib/cmap.c:753-766 | the nodes are put ahead of the chain of their hash and nothing else changes, or the table is as it was; it fails only if no bucket within 4 hops has an unused slot; a hash lives in one chain in one bucket; at every moment all hashes are mapped as before, or all as after |
| `CuckooImpls.Impl.ReplaceIn` | openvswitch-2.3.90/lib/cmap.c:792-823 | one node of the chain is replaced or removed in a single step, if the chain is in that bucket |
| `CuckooMaps.TryRehash` | openvswitch-2.3.90/lib/cmap.c:858-877 | if all chains find a place then the new table maps every hash to the same nodes, and as many of them |
| `CuckooMaps.ExpandExact` | openvswitch-2.3.90/lib/cmap.c:210-214 | twice the buckets have room for more elements, which the assertion in the rehashing asks for, for all sizes below 2^29 buckets and not for that one, where the limit overflows 32 bits |
| `CuckooMaps.LoadLimits` | openvswitch-2.3.90/lib/cmap.c:155-220 | for all sizes up to 2^29 buckets, the limits are 85% of the slots, give or take two nodes, and 20% of them less one node |
| `CuckooMaps.ShrinkFits` | openvswitch-2.3.90/lib/cmap.c:216-220 | a map with fewer elements than the minimum has more than one bucket, and fits into half of them |
| `CuckooMaps.Cmap.constructor` | openvswitch-2.3.90/lib/cmap.c:241-245 | an empty map |
| `CuckooMaps.Cmap.Rehash` | openvswitch-2.3.90/lib/cmap.c:879-898 | maps every hash to the same nodes as before; the assertion on the number of elements is the precondition, which all callers meet |
| `CuckooMaps.Cmap.Insert` | openvswitch-2.3.90/lib/cmap.c:774-790 | the node is put ahead of those with its hash, no other hash is affected, and the count is that of all nodes; the buckets are doubled exactly when the map was too full, and otherwise it fails only if no bucket within 4 hops of the hash has an unused slot |
| `CuckooMaps.Cmap.Replace` | openvswitch-2.3.90/lib/cmap.c:835-856 | the node is replaced, or removed, in the chain of its hash, which the assertion in the code says is there; the count stays exact through shrinking |
| `CuckooMaps.Cmap.Shrink` | openvswitch-2.3.90/lib/cmap.c:848-854 | half the buckets for a map that has become too empty, with the same nodes |
| `CuckooReaders.Linearizable` | openvswitch-2.3.90/lib/cmap.c:324-349 | a lookup that runs between the writes of a writer, one memory access at a time and in any interleaving, returns what the table held for the hash at some moment during the lookup |
| `CuckooReaders.NeverMissed` | openvswitch-2.3.90/lib/cmap.c:324-349 | so a hash that stays in the map is never reported missing |
| `CuckooReaders.QuietLookup` | openvswitch-2.3.90/lib/cmap.c:324-349 | a lookup during which neither bucket of the hash is written has ended after 17 reads, and returns what the table holds for the hash |
| `CuckooReaders.FirstReadOnce` | openvswitch-2.3.90/lib/cmap.c:324-349 | writes to the second bucket alone never make a lookup read the first one again |
| `CuckooMaps.ReadersSeeTheTable` | openvswitch-2.3.90/lib/cmap.c:324-349 | the same for any table and everything that has been done to it |
| `CuckooReaders.HistorySized` | openvswitch-2.3.90/lib/cmap.c:324-349 | all states of a good history have the size of the table |
| `CuckooReaders.ReadHeld` | openvswitch-2.3.90/lib/cmap.c:313-349 | a read of a bucket between two equal, even readings of its counter gives what the bucket held at a moment in between |
| `CuckooReaders.HeldNeither` | openvswitch-2.3.90/lib/cmap.c:331-346 | if neither bucket held the hash, and the first one was not changed meanwhile, then the table did not hold it at some moment |
| `BfdObjects.Bfd.constructor` | openvswitch-2.3.90/lib/bfd.c:368-434 | a new session keeps the invariants of a session, is Down, knows nothing of its peer, neither polls nor answers a poll, and uses the configured rates |
| `BfdRules.TransitionRule` | openvswitch-2.3.90/lib/bfd.c:847-879 | the transitions on an accepted packet are those of the state machine of section 6.2 of RFC 5880; a session that goes Down forgets its peer and its decay, and its diagnostic says why; otherwise nothing but the state, and with the forwarding path down the diagnostic, changes; the invariants of a session are kept |
| `BfdRules.PollRule` | openvswitch-2.3.90/lib/bfd.c:962-973 | a poll sequence begins exactly above Down, when none is under way and none is to be answered; it is for the configured or decayed rates, and its first packet is due at once; otherwise nothing changes |
| `BfdObjects.Bfd.ScheduleTx` | openvswitch-2.3.90/lib/bfd.c:975-1006 | the next packet is due after at least three quarters and at most the whole of the largest of the rate in use, the rate that the remote system asks for and, if the session is not Up, one second; for each percentage of jitter, after what remains of that, rounded up |
| `BfdObjects.Bfd.Configure` | openvswitch-2.3.90/lib/bfd.c:396-493 | every field of the session: the configured rates, which are in use at once unless the session is Up and that is slower to send, or faster to receive, or a poll sequence is under way; the rate of decay, which any change ends; the forwarding path and its diagnostic; a poll sequence exactly if something has changed and one can begin; and nothing else; so a session that is Up does not come to send more slowly or to expect packets sooner |
| `BfdObjects.Bfd.Run` | openvswitch-2.3.90/lib/bfd.c:550-578 | every field of the session: above Down, when the detection time has passed, it is Down, has forgotten its peer, and is not in decay; otherwise it keeps its state and rates, and only decay begins or ends; a poll sequence begins exactly if rates are configured that are not in use, or decay has begun or ended, and one can begin; and nothing else |
| `BfdObjects.Bfd.PutPacket` | openvswitch-2.3.90/lib/bfd.c:590-670 | the packet byte by byte as section 4.1 of RFC 5880 lays it out, with the rates of the poll sequence or else those in use, in microseconds, and no less than a second for sending if the session is not Up; it never has both Poll and Final, as asserted; it passes the checks of exactly those sessions that it is meant for; the Final is sent once; the next packet is due in time |
| `BfdObjects.Bfd.ProcessPacket` | openvswitch-2.3.90/lib/bfd.c:706-890 | a packet that fails the checks of section 6.8.6 of RFC 5880 changes nothing; for any other one, every field of the session: the state that section 6.2 says and its diagnostic, what is known of the peer, a poll sequence that a Final ends, whose rates are then in use and otherwise stay, a Poll to be answered, the detection time, and the next packet, which is rescheduled exactly if the remote system asks for another rate; the invariants are kept |
| `BfdObjects.Bfd.Learn` | openvswitch-2.3.90/lib/bfd.c:809-845 | before the state changes: rates change only when a Final ends a poll sequence, a Poll ends it without and is to be answered, the detection time is three times the slower of the two rates, and the invariants are kept |
| `BfdRules.CreatedOk` | openvswitch-2.3.90/lib/bfd.c:368-434 | configuring a new session establishes the invariants, with every field as configured or as it is initially |
| `BfdRules.ConfigureRule` | openvswitch-2.3.90/lib/bfd.c:396-493 | configuring a session keeps them, and does what BfdObjects.Bfd.Configure promises |
| `BfdRules.RunRule` | openvswitch-2.3.90/lib/bfd.c:550-578 | the passing of time keeps them, and does what BfdObjects.Bfd.Run promises |
| `BfdRules.ReceiveRule` | openvswitch-2.3.90/lib/bfd.c:706-890 | an accepted packet keeps them, and does what BfdObjects.Bfd.ProcessPacket promises |
| `BfdRules.AcceptedIff` | openvswitch-2.3.90/lib/bfd.c:643-807 | a session's packet passes the checks of another one if and only if the sender knows that one as its peer, or none |
| `BfdRules.RoundTrip` | openvswitch-2.3.90/lib/bfd.c:643-661 | who a packet is from, its state and its diagnostic are read as they were sent; its rates, which are those in use or of the poll sequence, are, if and only if they fit into 32 bits as microseconds |
| `BfdRules.PacketFormat` | openvswitch-2.3.90/lib/bfd.c:640-670 | the packet in the layout of section 4.1 of RFC 5880, with numbers instead of the constants of the code; without a poll sequence and when Up, the rates are 1000 times those in use, modulo 2^32 |
| `BfdRules.ChecksMeaning` | openvswitch-2.3.90/lib/bfd.c:730-807 | the checks of section 6.8.6 of RFC 5880 on that layout, bit by bit |
| `BfdRules.Handshake` | openvswitch-2.3.90/lib/bfd.c:847-879 | three packets bring up two sessions that are Down, unless one takes the other for a third one |
| `BfdNetworks.TwoPartySafety` | openvswitch-2.3.90/lib/bfd.c:706-890 | with loss, duplication, reordering and restarts, in every run: an end is Up only if its peer has accepted a packet that it sent with its present discriminator; above Down it knows the peer's; it is never administratively down; Poll and Final are never both set |
| `BfdNetworks.RunOk` | openvswitch-2.3.90/lib/bfd.c:590-890 | the invariants of both ends, the packets they sent and those they accepted, in every world of every run |
| `BfdNetworks.EndStep` | openvswitch-2.3.90/lib/bfd.c:706-890 | every event keeps them at the end where it happens |
| `BfdRules.PacketFlags` | openvswitch-2.3.90/lib/bfd.c:643-644 | the state and the flags that a packet is sent with are those that are read from it |
| `BfdNetworks.AcceptedForUs` | openvswitch-2.3.90/lib/bfd.c:793-807 | an accepted packet from a session above Down names this session |
| `BfdNetworks.RateDiscipline` | openvswitch-2.3.90/lib/bfd.c:396-434 | in every run: while a session stays Up, a rate becomes slower to send or faster to receive only when an accepted Final ends a poll sequence, and then both rates are those that the sequence began with, which stay fixed as long as it lasts |
| `BfdNetworks.PollAdvertises` | openvswitch-2.3.90/lib/bfd.c:652-661 | during a poll sequence every packet has the Poll flag, and its rates are what the remote system reads from it, if and only if they fit into 32 bits as microseconds |
| `BfdNetworks.SlowUnlessUp` | openvswitch-2.3.90/lib/bfd.c:652-661 | a packet of a session that is not Up advertises at least one second, as section 6.8.3 of RFC 5880 asks, if and only if the rate of the poll sequence, or without one the rate in use, is not within a second after a multiple of 2^32 microseconds, 0 included |
| `BfdNetworks.SlowUnlessPolling` | openvswitch-2.3.90/lib/bfd.c:652-661 | for rates that fit into 32 bits: if and only if it is not in a poll sequence for a faster rate |
| `BfdNetworks.FastInInit` | openvswitch-2.3.90/lib/bfd.c:652-661 | a run in which a session that is reconfigured in state Init advertises 200 ms |
| `BfdNetworks.FastByTruncation` | openvswitch-2.3.90/lib/bfd.c:660-661 | a run in which a session in state Down, configured for 4294968 ms, advertises 704 microseconds |
| `FlowKeys.MaskKey` | openvswitch-2.3.90/datapath/flow_table.c:65-81 | in the range of the mask, exactly the bits that both the key and the mask have are left, and no words outside are written |
| `FlowKeys.CompareKeys` | openvswitch-2.3.90/datapath/flow_table.c:514-527 | collecting all differences finds out exactly whether the words are the same |
| `FlowKeys.EqualMasksAgree` | openvswitch-2.3.90/datapath/flow_table.c:838-847 | masks are equal if and only if they have the same range and give all keys the same masked value |
| `FlowKeys.AndBits` | openvswitch-2.3.90/datapath/flow_table.c:65-81 | masking a word keeps exactly the bits that both words have |
| `FlowKeys.MaskedIffBits` | openvswitch-2.3.90/datapath/flow_table.c:65-81 | a key is masked word by word exactly if it is so bit by bit |
| `FlowKeys.MatchByBits` | openvswitch-2.3.90/datapath/flow_table.c:529-534 | a key matches a masked one if and only if it has the same value in every 1-bit of the mask in its range |
| `FlowTables.MatchesBits` | openvswitch-2.3.90/datapath/flow_table.c:547-567 | a flow of the table matches exactly the keys that have its value in every 1-bit of its mask |
| `FlowTables.OnlyMaskBitsMatter` | openvswitch-2.3.90/datapath/flow_table.c:572-609 | keys that differ only where no mask has a 1-bit get the same results |
| `FlowTables.HashExact` | openvswitch-2.3.90/datapath/flow_table.c:491-503 | what is hashed of a key is the words in the mask's range, all of them and no others: with a hash function that never collides, keys have the same hash exactly if those words are the same |
| `FlowInstances.SharedBucket` | openvswitch-2.3.90/datapath/flow_table.c:394-399 | hashes share a bucket if and only if they are spread to values that differ by a multiple of the number of buckets |
| `FlowTables.MaskedLookup` | openvswitch-2.3.90/datapath/flow_table.c:547-567 | a flow with the mask that matches the key, or none exactly if there is none, for any hash functions |
| `FlowTables.SearchList` | openvswitch-2.3.90/datapath/flow_table.c:557-565 | a flow of the list with the mask, the hash and the masked key, or none if there is none |
| `FlowTables.FlowLookup` | openvswitch-2.3.90/datapath/flow_table.c:572-609 | whatever index it begins with, finds a flow that matches, or none exactly if none matches; a new index is that of the flow's mask |
| `FlowTables.OnlyResult` | openvswitch-2.3.90/datapath/flow_table.c:572-609 | when flows do not overlap, all such lookups find the same |
| `FlowTables.FlowTable.LookupStats` | openvswitch-2.3.90/datapath/flow_table.c:618-673 | whatever the mask cache contains, finds a flow that matches, or none exactly if none matches; without a packet hash the cache is left alone; otherwise exactly the entry that the cache has for the hash is changed, and then it leads to the mask of a flow that was found, or is not for the hash |
| `FlowTables.FlowTable.FindEntry` | openvswitch-2.3.90/datapath/flow_table.c:643-665 | the first of the four entries that has the hash, or else the first of those with the smallest hash |
| `FlowTables.EntriesAreBytes` | openvswitch-2.3.90/datapath/flow_table.c:643-665 | the four entries are numbered by the four bytes of the hash |
| `FlowInstances.AddHead` | openvswitch-2.3.90/datapath/flow_table.c:401-408 | putting a flow into its bucket adds exactly that flow |
| `FlowInstances.Unlink` | openvswitch-2.3.90/datapath/flow_table.c:808-816 | taking a flow out of its list leaves all others where they are |
| `FlowTables.CopyFlows` | openvswitch-2.3.90/datapath/flow_table.c:419-446 | the new instance holds exactly the same flows, each in its bucket; in none of the states on the way does the link set of the old instance differ |
| `FlowTables.CopyIsolated` | openvswitch-2.3.90/datapath/flow_table.c:419-446 | so in each of these states the old instance holds the same flows in the same lists |
| `MaskArrays.CopySlots` | openvswitch-2.3.90/datapath/flow_table.c:252-263 | copying the array keeps all masks in order, without gaps |
| `MaskArrays.Reallocated` | openvswitch-2.3.90/datapath/flow_table.c:242-268 | and so the new array holds exactly the same masks |
| `MaskArrays.RoomLeft` | openvswitch-2.3.90/datapath/flow_table.c:900-909 | an array with fewer masks than slots has a free one for the pending insertion |
| `MaskArrays.CountedMore` | openvswitch-2.3.90/datapath/flow_table.c:868-918 | adding a flow keeps every reference count equal to the number of flows that use the mask |
| `MaskArrays.CountedLess` | openvswitch-2.3.90/datapath/flow_table.c:782-805 | removing one does too, and the last one takes the mask with it |
| `FlowTables.FlowTable.constructor` | openvswitch-2.3.90/datapath/flow_table.c:270-307 | an empty table |
| `FlowTables.FlowTable.ReallocSlots` | openvswitch-2.3.90/datapath/flow_table.c:242-268 | growing or shrinking loses no mask, or fails without memory and changes nothing |
| `FlowTables.FlowTable.FindMask` | openvswitch-2.3.90/datapath/flow_table.c:849-865 | an equal mask, or none if there is none |
| `FlowTables.FlowTable.AddMask` | openvswitch-2.3.90/datapath/flow_table.c:900-909 | the new mask is put into a free slot, and counted |
| `FlowTables.FlowTable.InsertMask` | openvswitch-2.3.90/datapath/flow_table.c:868-918 | the flow shares an equal mask, or a new one is stored; masks stay distinct and exactly counted; it fails exactly without memory |
| `FlowTables.FlowTable.DeleteMask` | openvswitch-2.3.90/datapath/flow_table.c:764-779 | exactly that mask is removed |
| `FlowTables.FlowTable.RemoveMask` | openvswitch-2.3.90/datapath/flow_table.c:782-805 | the count goes down, and with the last flow the mask goes and the array shrinks if it has become sparse |
| `FlowTables.FlowTable.Insert` | openvswitch-2.3.90/datapath/flow_table.c:921-980 | adds exactly that flow, through expansion and rehashing, or fails without memory and changes nothing; masks stay distinct, stored once, and counted |
| `FlowTables.FlowTable.Remove` | openvswitch-2.3.90/datapath/flow_table.c:808-825 | removes exactly that flow, and its mask with the last flow that uses it |
| `FlowTables.FlowTable.Link` | openvswitch-2.3.90/datapath/flow_table.c:926-929 | the flow is added to the bucket of its hash, and to the count |
| `FlowTables.FlowTable.Unhook` | openvswitch-2.3.90/datapath/flow_table.c:808-819 | the flow is taken out of its list and the count, and the other flows stay |
| `FlowTables.FlowTable.Rehash` | openvswitch-2.3.90/datapath/flow_table.c:448-460 | the table holds the same flows in a new instance of the wanted size, with the other link set, and leaves the old one alone; or stays as it is without memory |
| `ActionSpecs.Run` | openvswitch-2.3.90/datapath/actions.c:758-845 | for every datapath, executing a list of actions ends, keeps the nesting level, leaves all entries of the FIFO as they are, and adds at most as many as there is room for |
| `ActionSpecs.Drain` | openvswitch-2.3.90/datapath/actions.c:847-871 | executing the deferred actions ends with an empty FIFO, after at most 9 of them |
| `ActionSpecs.TopLevel` | openvswitch-2.3.90/datapath/actions.c:874-904 | after a packet, the FIFO is empty and reset, the nesting level is back, and at most 9 deferred actions have been executed |
| `ActionSpecs.Nested` | openvswitch-2.3.90/datapath/actions.c:874-904 | nesting is limited to 4 levels, beyond which packets are dropped |
| `ActionSpecs.Defer` | openvswitch-2.3.90/datapath/actions.c:88-113 | an entry is added behind the others if fewer than 9 are there, and otherwise dropped, with the others as they were |
| `ActionLaws.RunAppend` | openvswitch-2.3.90/datapath/actions.c:758-845 | executing one list and then another is executing the two as one, on the packet and key as the first one leaves them, unless it fails |
| `ActionLaws.ListMeaning` | openvswitch-2.3.90/datapath/actions.c:758-845 | without failures, packets that come back and a full FIFO, exactly one event for each output to a port that exists and each upcall, and one queued entry for each recirculation and each sample that is chosen, in list order, with the packet and the key as modified by the actions before |
| `ActionLaws.FailureStops` | openvswitch-2.3.90/datapath/actions.c:758-845 | a modification that fails, a key that cannot be updated, or the failed upcall of a sample is the last thing that happens |
| `ActionLaws.OutputMeaning` | openvswitch-2.3.90/datapath/actions.c:540-548 | the packet is sent, and what comes back is executed before the next action, in order and one level deeper: a miss without a flow, dropped at the fourth level, and otherwise what its flow's actions show |
| `ActionLaws.LoopIsBroken` | openvswitch-2.3.90/datapath/actions.c:874-904 | a packet that always comes back and is always sent again is sent exactly four times, and then dropped |
| `ActionLaws.DrainMeaning` | openvswitch-2.3.90/datapath/actions.c:847-871 | the deferred actions are executed in the order in which they were queued: nested actions of a sample, those of the flow that a recirculated packet has, or a miss |
| `ActionLaws.PacketMeaning` | openvswitch-2.3.90/datapath/actions.c:874-904 | a packet: what its actions show, then what the actions that they deferred show, in order, and an empty FIFO |
| `ActionExecution.Cpu.DoExecuteActions` | openvswitch-2.3.90/datapath/actions.c:758-845 | with output delayed until the next action, exactly the same happens as with a clone for every output; the packet is sent, freed, consumed, queued, or lost by a failed key update, exactly once |
| `ActionExecution.Cpu.DoOutput` | openvswitch-2.3.90/datapath/actions.c:540-548 | the packet is sent, with everything that follows from packets that come back, or freed |
| `ActionExecution.Cpu.ExecuteRecirc` | openvswitch-2.3.90/datapath/actions.c:715-755 | the packet, or a clone if more actions follow, is queued or freed; a failed key update changes nothing |
| `ActionExecution.Cpu.ExecuteSample` | openvswitch-2.3.90/datapath/actions.c:596-646 | by a random choice of its own, a clone is queued or freed, or the packet goes to user space, the failure of which is reported |
| `ActionExecution.Cpu.AddDeferred` | openvswitch-2.3.90/datapath/actions.c:97-113 | no entry of the FIFO is overwritten, in particular not the one being executed |
| `ActionExecution.Cpu.ProcessDeferred` | openvswitch-2.3.90/datapath/actions.c:847-871 | executes every deferred action once, and leaves an empty FIFO |
| `ActionExecution.Cpu.ExecuteActions` | openvswitch-2.3.90/datapath/actions.c:874-904 | the whole of the above for a packet: nothing is alive afterward that was not before, and the packet is not either; if every invalid key that modifications lead to can be updated then no packet is lost, and otherwise the count of those that a failed update for a last action has lost is exact |
| `ActionSpecs.LossExact` | openvswitch-2.3.90/datapath/actions.c:813-822 | no packet with a valid key is ever lost, from any idle state and with any actions, if and only if every invalid key that modifications of a packet with a valid key lead to can be updated |
| `ActionSpecs.RecircLoses` | openvswitch-2.3.90/datapath/actions.c:813-822 | modifications of a packet with a valid key that leave one that cannot be updated, and then a recirculation, lose the packet |
| `ActionSpecs.RunLosesNone` | openvswitch-2.3.90/datapath/actions.c:758-845 | if every such key can be updated, no packet is lost by a list of actions, nor by packets that come back, and only such packets and keys are queued |
| `Checksums.CsumFinish` | openvswitch-2.3.90/lib/csum.c:79-86 | adding the carries until none are left gives the complement of the number in [1, 65535] that is congruent to the sum, or of zero |
| `Checksums.CsumContinue` | openvswitch-2.3.90/lib/csum.c:58-70 | the sum of all words, and of the last byte, in 32 bits |
| `Checksums.Csum` | openvswitch-2.3.90/lib/csum.c:29-33 | the checksum of the data, as long as the sum fits 32 bits |
| `Checksums.RecalcCsum16` | openvswitch-2.3.90/lib/csum.c:92-103 | replaces one word |
| `Checksums.RecalcCsum32` | openvswitch-2.3.90/lib/csum.c:108-113 | replaces two words |
| `Checksums.RecalcCsum48` | openvswitch-2.3.90/lib/csum.c:118-133 | replaces three words |
| `Checksums.RecalcCsum128` | openvswitch-2.3.90/lib/csum.c:138-150 | replaces eight words |
| `Checksums.IncrementalIsExact` | openvswitch-2.3.90/lib/csum.c:88-150 | after any sequence of recalculations, the checksum is the one computed from scratch if and only if some data is not zero, when it is 0 instead of 0xffff; it is congruent in any case |
| `Checksums.WordsMeaning` | openvswitch-2.3.90/lib/csum.c:58-70 | the words that are summed are the pairs of bytes of the data, the first one of a pair the low byte, and a last odd byte counts as if a zero followed |
| `Checksums.FieldIsEdit` | openvswitch-2.3.90/lib/csum.c:88-150 | replacing an even number of bytes at an even offset replaces exactly their words |
| `Checksums.Field32IsExact` | openvswitch-2.3.90/lib/csum.c:108-113 | after four bytes of the data have changed, the recalculated checksum is that of the new data, unless all of it is zero |
| `Checksums.Field128IsExact` | openvswitch-2.3.90/lib/csum.c:138-150 | the same for sixteen bytes |
| `Checksums.HalvesAreWords` | openvswitch-2.3.90/lib/csum.c:108-113 | the two halves of a 32-bit field are the words of its four bytes |
| `Checksums.ChecksummedIsZero` | openvswitch-2.3.90/lib/csum.c:72-86 | data with its own checksum in a word that was zero has checksum zero |
| `Checksums.ChangeShows` | openvswitch-2.3.90/lib/csum.c:72-86 | then any change of one word makes the checksum different from zero, unless it exchanges 0 and 65535 in data that is not all zero |

## Left out

* Tries, chains and subtables are values that operations return anew, and a walk down a trie keeps
  the path above it: updating nodes in place, sharing them and freeing them are not captured. The
  same holds for the links of kernel flows, which are maps from flows to their successors.
* Concurrent readers of the classifier, deferred publication of the subtable vector, and the order of
  subtables of equal priority.
* Compressed flows and masks (miniflow): they are bit sequences of the full length.
* `classifier_set_prefix_fields()` on a classifier that has rules, lookups without wildcards,
  overlap checks, and cursors.
* The per-bit counters of the tag tracker: a partition keeps a multiset of its subtables instead.
* The claim in `lib/classifier.h` that generated masks never overlap: it is not so, because the bit
  that shows a mismatch depends on the packet.
* `cmap_find_protected()`, which derives the second bucket from the hash without rehashing it;
  `cmap_find_batch()`; cursors; concurrent walks along a chain.
* Buckets of the cuckoo hash have 5 slots, as on 64-bit hosts; on 32-bit hosts they have 7.
* C11 memory orders and RCU grace periods: memory is sequentially consistent, and postponed frees do
  nothing.
* Termination of the retry loops of `cmap_rehash()` and `cmap_insert()`: they take a finite supply of
  random numbers and report when it is used up.
* BFD: forwarding flags, statistics, logging, addresses, and the decision of `bfd_try_decay()`, which
  is a parameter. The detection time follows the code, which uses the local multiplier.
* Kernel flow table: unique flow identifiers, flushing, statistics, dumping, and readers of an
  instance that is two rehashes old, whose link set is being reused.
* Kernel actions: memory for clones that runs out, what the actions do to packets and keys, and what
  a queued list of nested actions is executed as, which are parameters.
* Checksums on big-endian hosts.
- Subtables.FindMatchWc: the wildcards are shown to be good under the conditions that stage hashes do not collide and that nothing is behind the ports; the first condition is sufficient and, by WildcardLimits.CollisionExists, cannot be dropped, but not every collision makes them wrong.
- Classifiers.Classifier.Lookup: the same conditions on the wildcards.
- CuckooReaders.NeverMissed: the same bound on counter increments as for CuckooReaders.Linearizable.
- CuckooMaps.ReadersSeeTheTable: the same bound on counter increments as for CuckooReaders.Linearizable.
- CuckooReaders.Linearizable: a reader's counter readings are 32 bits wide, and the lookup must see fewer than 2^32 counter increments of either bucket of its hash.
- ActionExecution.Cpu.DoExecuteActions: clones succeed.
- Matching.SelectMeaning: conjunctions have 1 to 64 clauses, always the same number for an id, and a rule has at most one clause of an id; the first is checked when they are configured, the others are left to the user.
- ConjunctionLimits.LevelMisses: whether a shadowed conjunction is missed depends on the order of the soft matches, which the subtables' priorities and earlier deletions decide; so the condition speaks of that order, and is sufficient only.
- Flows.MatchesFlowWc: any bit in which the first different word differs may show the mismatch; the code takes the rightmost one, which depends on the byte order of the host.
