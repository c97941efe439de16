# Redis 6.2.3: models and proofs of its control logic

This project models the parts of the vendored Redis 6.2.3 sources whose correctness is hardest to see, and proves what they
are for. Six cores are modelled:

- **Cluster control plane** (`cluster.c`): epochs, votes, failover elections, configuration-epoch collisions, slot ownership.
  A node's handlers are functions on its state; a run is any interleaving of handlers, packets delayed, reordered or lost,
  and administrator commands. The slot table with its bitmaps and counters is a class over arrays.
- **Append-only file** (`aof.c`): the log printer and loader, flushing under partial writes, and the protocol by which a
  forked child and its parent rewrite the log.
- **Access control lists** (`acl.c`): the rule language, the greedy description of a user as rules, and ACL files.
- **Bit operations** (`bitops.c`): popcount, bit search, BITOP, and fields of 1 to 64 bits at any offset.
- **Blocked clients** (`blocked.c`): the two-way index between clients and keys, and the loop that serves them.
- **Lists and background jobs** (`adlist.c`, `bio.c`): a doubly linked list in the heap, and the queue shared with a worker.

All paths below are relative to the root of the source tree. The project is self-contained; `dfyconfig.toml` lists its files.

## Main results

**Elections.** With one fixed set of slot-serving masters known to all, and elections that start with a vote count of zero, no
two replicas ever win the same epoch (`Election.ElectionSafety`). The count is zeroed when an attempt is scheduled and not when
it starts, so the hypothesis is needed: `ElectionCounterexample.TwoReplicasWinOneEpoch` is a run of eighteen steps in which two
replicas win epoch 2 with three masters that never change. All nodes read one clock, and each master waits twice the node
timeout before it votes about the same master again. In that run no acknowledgement is in flight when a candidate
reschedules, so that is not enough: a vote request still in flight produces one later. `ElectionHypotheses.DrainedIsClean` shows
that no request and no acknowledgement in flight is enough, and `ElectionHypotheses.CountIsGenuineIff` that a running attempt counts
its own voters exactly when it started from zero.

**Collisions.** When only collision steps move configuration epochs, a master makes at most as many of them as there are
greater names, so n masters make at most n(n-1)/2 in any run, which is below 2^n - 1 - n, and the greatest name never moves.

**Slots.** An observer that hears every claimant in any order ends with every slot bound to its highest epoch. Table and bitmaps
agree after every operation, and the assertion in `clusterDelSlot` holds. Printed ranges rebuild the table.

**AOF.** A log cut anywhere after its first byte is loaded up to its last whole command. Nothing is lost or repeated by a flush
that does not exit, or by a rewrite. Times to live are logged so that a later replay sets the same time of expiry.

**ACL.** Every user that rules can reach is rebuilt by its own description, and the check that panics on a mismatch of bitmaps
never fires. Two limits are proved to be exact. A description does not carry the flag for all commands: a user with every bit
but without the flag gets it back, which changes verdicts on commands beyond the bitmap and on no others
(`AclFile.SameVerdicts`; `AclRoundTrip.DescriptionAllowsMore` gives the user). A saved line restores the user if and only if no
allowed subcommand has a space or a line feed in it or a tab or carriage return at its end (`AclFile.SaveLoad`;
`AclRoundTrip.SpaceIsNotRestored` gives the user): subcommands are not validated when they are allowed. `AclRoundTrip.SaveUser`
puts the whole way together. A file of many users gives all of them back under the same condition on each
(`AclUsers.FileRoundTrip`), and the assertion in its loader never fails (`AclUsers.RulesApply`).

**Bits.** Word-at-a-time code equals bit-at-a-time definitions for every length and alignment. INCRBY wraps, saturates or fails
as documented for every type and offset. SET on a signed field with OVERFLOW SAT does not always: for values so small that
the difference to the greatest number overflows 64 bits, it stores the greatest number instead of the least.
`Bitfield.SaturatesWrongWay` gives the value, and `Bitfield.SaturatesIff` says exactly when it happens. The difference is a signed
overflow, which C leaves undefined; the model takes it to wrap around.

**Blocked clients.** A client is listed once under a key exactly when it waits for it, and counters agree; the serving loops
never touch a released list; the outer loop ends; and when it does, no client waits for a list, sorted set or stream that could
serve it, and over all lists no element was lost or made up, through any chain of pops and moves
(`BlockedServer.Scheduler.HandleBlockedOnKeys`), also with streams whose newest entries were deleted. One kind of key is
excepted: overwriting a key does not signal it. `BlockedServer.ClientLeftBehind` is a run that ends with a client blocked beside
a list, and `BlockedServer.Scheduler.SetAndServe` says exactly when setting a key leaves a client behind. Clients are served in
the order in which they blocked, over whole histories (`BlockedServer.Scheduler.ServedInTurn`), unless clients of two types have
waited for the key together: `BlockedOrder.MixedTypesSwap` shows two swapped, and `BlockedData.ListKeepsOthersIff` and
`BlockedOrder.ZsetKeepsOthersIff` say exactly when a pass does that.

**Lists and jobs.** List operations act as sequence operations. Over all interleavings, jobs run once each, in order, a reader
that sees no pending job knows that all have run, and no wake-up is lost. A queued job runs after at most five steps of the
worker for each job up to it (`Background.JobRunsAfter`), and until then some thread can always go on (`Background.NeverStuck`).

## Notes on the code

- An UPDATE packet about the receiver itself sets the receiver's own configuration epoch; the code does not exclude it and
  neither does the model.
- Where `reset` is applied before a description, the flag to sanitize payloads stays set, which a newly created user has not.
- XGROUP SETID may set a group back without signalling the key. The model treats it like overwriting the key.
- A value to SET in an unsigned field is taken as an unsigned 64-bit number, so that a negative one saturates to the greatest.

## Model

| member | source | states |
|---|---|---|
| ClusterNode.UpdateSlotsConfigWith | redis-6.2.3/src/cluster.c:1634-1740 | a claim moves exactly the slots that are unassigned or owned at a lower epoch and not being imported; epochs and the cluster size stay as they are, and the view stays sound |
| ClusterNode.TurnsReplicaIff | redis-6.2.3/src/cluster.c:1708-1727 | a claim turns the receiver into a replica of the sender exactly when its master lost a slot to the sender and has none left, and replicas may migrate or the sender claims nothing but slots it took from that master; otherwise the receiver stays what it is |
| ClusterNode.SwitchRole | redis-6.2.3/src/cluster.c:2007-2045 | a sender that changes role keeps its epoch; a master turned replica owns no slot any more, no other slot changes, and it follows the master it names |
| ClusterNode.ApplyConfigSlots | redis-6.2.3/src/cluster.c:2007-2072 | after a heartbeat of a master each slot it claims is its own where that was free or held at a lower epoch and not being imported, whether or not the packet was found to differ; one that announces itself as a replica has none, and no other slot changes |
| ClusterNode.ReceiveUpdateApplies | redis-6.2.3/src/cluster.c:2205-2226 | an UPDATE is news exactly when both nodes are known and the epoch is higher: the node is then a master at that epoch with the slots it can take, unless it is the receiver itself; otherwise nothing changes |
| Epochs.PingBumpIsFresh | redis-6.2.3/src/cluster.c:2007-2125 | a heartbeat changes the receiver's own epoch only to one above all epochs it knew and knows |
| ClusterNode.ReplaceMaster | redis-6.2.3/src/cluster.c:3095-3125 | a promoted replica is a master that owns the slots of its old one besides its own; no other slot and no epoch changes |
| Cluster.LocalKeepsNodeOk | redis-6.2.3/src/cluster.c:1057-1118 | every handler keeps the view sound and the current epoch above all others it holds, and never lowers it |
| Cluster.ReceiveKeepsNodeOk | redis-6.2.3/src/cluster.c:1828-2226 | the same for every packet, whatever its kind |
| Cluster.FailoverKeepsNodeOk | redis-6.2.3/src/cluster.c:3133-3300 | the same for the failover timer of a replica |
| Cluster.SentOk | redis-6.2.3/src/cluster.c:2433-2505 | no epoch in a packet exceeds its sender's current epoch |
| Cluster.RunInv | redis-6.2.3/src/cluster.c:1751-2226 | every state of every run has sound nodes and sound packets in flight |
| Cluster.CurrentEpochNeverDecreases | redis-6.2.3/src/cluster.c:1828-1839 | over any run a node's current epoch never decreases |
| Epochs.EpochInvariant | redis-6.2.3/src/cluster.c:1828-1839 | in every reachable state a node's current epoch bounds its last vote and every configuration epoch it knows, and packets in flight obey the same bound |
| Epochs.UnilateralBumpIsFresh | redis-6.2.3/src/cluster.c:1101-1181 | a collision, BUMPEPOCH or TAKEOVER that changes the own configuration epoch takes one strictly above all epochs known before and after |
| Epochs.BumpLeavesMax | redis-6.2.3/src/cluster.c:1101-1118 | BUMPEPOCH leaves the node with a non-zero epoch that nothing it knows exceeds, and changes it exactly when that was not so |
| Election.StepKeepsBook | redis-6.2.3/src/cluster.c:2174-2186 | every step keeps the books on votes: one vote per master and epoch, acknowledgements only for votes given, and counts made of them |
| Election.WinIsBacked | redis-6.2.3/src/cluster.c:3269-3298 | a replica that wins has votes of its epoch from a majority of the fixed masters |
| Election.VotesLast | redis-6.2.3/src/cluster.c:2893-2994 | a vote once given for an epoch is never given to another replica for that epoch |
| Election.ElectionSafety | redis-6.2.3/src/cluster.c:3133-3300 | no two different replicas win the same epoch in any run with one fixed set of masters whose elections start with a count of zero |
| ElectionHypotheses.DrainedIsClean | redis-6.2.3/src/cluster.c:3205-3275 | if neither a request nor an acknowledgement of a candidate is in flight when it reschedules, its elections start with a count of zero |
| ElectionHypotheses.CountIsGenuineIff | redis-6.2.3/src/cluster.c:3205-3275 | the count of a running attempt is the number of its own voters if and only if the attempt started with a count of zero |
| ElectionCounterexample.TwoReplicasWinOneEpoch | redis-6.2.3/src/cluster.c:2893-3298 | without clean starts safety fails: a run in which two replicas win one epoch with three masters that never change, although no acknowledgement is in flight whenever a replica reschedules; all nodes read one clock that never goes back, and masters wait twice the node timeout between votes about one master |
| ElectionWitness.AReplicaWins | redis-6.2.3/src/cluster.c:3133-3300 | the hypotheses of safety can be met: a run with three fixed masters, one clock and clean starts in which a replica wins |
| Collision.BumpsOfBound | redis-6.2.3/src/cluster.c:1166-1181 | when only collisions move epochs a master moves at most as often as there are greater names; the greatest never moves |
| Collision.CollisionsTerminate | redis-6.2.3/src/cluster.c:1166-1181 | n masters make at most n(n-1)/2 collision steps in any run, and so at most 2^n - 1 - n |
| Collision.UpToDateMastersDiffer | redis-6.2.3/src/cluster.c:2118-2125 | once every master has heard the present epoch of every greater one, all their epochs differ |
| Convergence.ReceiveLearns | redis-6.2.3/src/cluster.c:1634-1704 | every packet of a claimant, of any kind, keeps what an observer has learned and adds the claim it is heard with |
| Convergence.SlotsConverge | redis-6.2.3/src/cluster.c:1634-1704 | an observer with an unassigned table that hears each claimant at least once, in any order and with any repetition, binds every slot to its highest-epoch claimant |
| Convergence.StrongestIsUnique | redis-6.2.3/src/cluster.c:1690-1704 | with distinct epochs the owner of each slot is determined, so two observers end with the same table |
| SlotTable.OneBit | redis-6.2.3/src/cluster.c:3806-3828 | setting or clearing one bit of a bitmap changes that bit and no other |
| SlotTable.Node.SetSlotBit | redis-6.2.3/src/cluster.c:3844-3866 | the bit is set, the old value returned, and the counter is still the number of bits |
| SlotTable.Node.ClearSlotBit | redis-6.2.3/src/cluster.c:3869-3874 | the bit is cleared, the old value returned, and the counter is still the number of bits |
| SlotTable.Table.AddNode | redis-6.2.3/src/cluster.c:975-981 | a new node joins a table in which slots and bitmaps agree |
| SlotTable.Table.AddSlot | redis-6.2.3/src/cluster.c:3885-3890 | a free slot is taken, an owned one refused; slots and bitmaps still agree |
| SlotTable.Table.DelSlot | redis-6.2.3/src/cluster.c:3895-3902 | an owned slot is freed; the assertion that its owner had the bit holds |
| SlotTable.Table.DelNodeSlots | redis-6.2.3/src/cluster.c:3906-3916 | all slots of a node and no others are freed, and their number returned |
| SlotTable.Table.TakeSlots | redis-6.2.3/src/cluster.c:3095-3111 | all slots of one node and no others move to another |
| SlotTable.Table.RebindSlots | redis-6.2.3/src/cluster.c:1651-1704 | the slot loop moves exactly the claimed slots that are owned at a lower epoch or not at all and not imported, and counts claimed and lost ones |
| SlotTable.Table.ApplyClaims | redis-6.2.3/src/cluster.c:1634-1704 | the loop over arrays leaves the owners the function on values computes, with the counts it compares |
| SlotTable.Table.DelNode | redis-6.2.3/src/cluster.c:994-1021 | after a node is deleted no slot, import or migration names it, and nothing else changed |
| SlotTable.Table.BitmapsDisjoint | redis-6.2.3/src/cluster.c:3844-3916 | in every valid table no slot is in two bitmaps |
| SlotRanges.ScanNode | redis-6.2.3/src/cluster.c:4207-4226 | the scan of one bitmap gives the maximal ranges of a node in order |
| SlotRanges.ScanTable | redis-6.2.3/src/cluster.c:4249-4278 | the one-pass generator gives every node not filtered out its maximal ranges in order |
| SlotRanges.RangesAreUnique | redis-6.2.3/src/cluster.c:4207-4278 | maximal ranges are determined by the table, so both generators print the same |
| SlotRanges.LoadNode | redis-6.2.3/src/cluster.c:278-291 | loading ranges adds exactly their slots to a node where they are free |
| SlotRanges.RangesRoundTrip | redis-6.2.3/src/cluster.c:278-291 | loading the ranges of all nodes, in any order of lines, rebuilds the slot table; filtered nodes' slots stay free |
| SlotText.ShowReads | redis-6.2.3/src/cluster.c:278-283 | a range printed as one number or two with a dash is read back as the same range |
| Decimal.PrintParse | redis-6.2.3/src/aof.c:550-573 | a printed number is read back, whatever follows that is not a digit |
| AofLog.CatCommand | redis-6.2.3/src/aof.c:550-573 | the printer appends the encoding of a command |
| AofLog.NextCommand | redis-6.2.3/src/aof.c:805-903 | the parse loop reads from a position what the reading function reads from the rest of the file |
| AofLog.LoadFile | redis-6.2.3/src/aof.c:805-957 | the loader over file positions gives the outcome of the function on the file |
| AofRecovery.ArgWhole | redis-6.2.3/src/aof.c:850-885 | an encoded argument of any bytes is read back, whatever follows |
| AofRecovery.CommandCut | redis-6.2.3/src/aof.c:805-903 | a command cut anywhere reads as a premature end and as nothing else |
| AofRecovery.CrashRecovery | redis-6.2.3/src/aof.c:805-957 | a log cut anywhere after its first byte is loaded up to its last whole command and truncated where that ends |
| AofRecovery.WholeCount | redis-6.2.3/src/aof.c:805-957 | for every cut there is such a number of whole commands |
| AofRecovery.LogRoundTrip | redis-6.2.3/src/aof.c:550-573 | a whole log of any commands is loaded as these commands |
| AofFlush.FlushConserves | redis-6.2.3/src/aof.c:358-515 | whatever write, ftruncate and fsync do, file and buffer are still the stream fed and the recorded size is the file's |
| AofFlush.RunConserves | redis-6.2.3/src/aof.c:358-515 | the same over any sequence of feeds and flushes that does not exit |
| AofFlush.ExitMeansAlways | redis-6.2.3/src/aof.c:410-500 | a flush exits if and only if the policy is always and a write or an fsync fails |
| AofFlush.Aof.Write | redis-6.2.3/src/aof.c:320-337 | the retry loop appends the prefix whose length it returns; a failure before the first byte appends nothing |
| AofFlush.Aof.FlushFile | redis-6.2.3/src/aof.c:358-515 | the code over fields does what the function on values does |
| AofCommands.TranslationKeepsEffect | redis-6.2.3/src/aof.c:575-660 | EXPIRE, PEXPIRE, EXPIREAT and SET with a time to live are logged with an absolute time, and whenever that is replayed the key, the value and the time of expiry are those of the command when it was executed; no other command changes |
| AofRewrite.FeedIsFaithful | redis-6.2.3/src/aof.c:611-677 | a command fed after a change of database is preceded by a SELECT, so that replay runs each, as translated, in its own database |
| AofRewrite.StepKeepsInv | redis-6.2.3/src/aof.c:1437-1970 | every step of the parent, the child and the pipes keeps the bytes in order and the stop handshake consistent |
| AofRewrite.NothingLostOnTheWay | redis-6.2.3/src/aof.c:95-194 | at every step what the child has read, what is in the pipe and what the parent holds is exactly what was logged since the fork |
| AofRewrite.RewriteLosesNothing | redis-6.2.3/src/aof.c:1849-1970 | the installed file with the buffer is the snapshot followed by everything logged since the fork, and replays every command in its own database |
| AofRewrite.RewriteReloads | redis-6.2.3/src/aof.c:1849-1970 | loading that file runs the snapshot's commands and then every command executed since the fork, as translated |
| AofBlocks.RewriteBuffer.Append | redis-6.2.3/src/aof.c:125-170 | bytes appended to the block list follow what it held |
| AofBlocks.RewriteBuffer.SendDiff | redis-6.2.3/src/aof.c:95-121 | what is sent and what is left are what the list held, in order |
| AofBlocks.RewriteBuffer.WriteTo | redis-6.2.3/src/aof.c:174-194 | the file gets a prefix of the list, and all of it when no write falls short |
| AclInvariant.RuleKeepsOk | redis-6.2.3/src/acl.c:825-1014 | every rule that succeeds keeps flags exclusive, lists free of duplicates, ids without a command equal to the bit of future commands, and subcommands only where the command is denied |
| AclInvariant.ReachableOk | redis-6.2.3/src/acl.c:825-1014 | so does every user reached from a new one by rules |
| AclFile.TextReachableOk | redis-6.2.3/src/acl.c:825-1014 | so does every user reached by operations given as text |
| AclDescribe.CountCategory | redis-6.2.3/src/acl.c:435-455 | counts the commands of a category allowed and denied by a bitmap |
| AclDescribe.BestCategory | redis-6.2.3/src/acl.c:511-539 | picks a category not applied yet with more commands in common than against, with fewest differences and then most in common |
| AclDescribe.DescribeCategories | redis-6.2.3/src/acl.c:464-555 | ends, and its rules rebuild the bitmap of the fake user from any user at all |
| AclDescribe.DescribeCommands | redis-6.2.3/src/acl.c:464-603 | its rules start with +@all or -@all, and rebuild bitmap and subcommands from any user at all; the final comparison of bitmaps always succeeds |
| AclUserRules.DescribeUser | redis-6.2.3/src/acl.c:611-670 | its rules turn any blank user into the one described, but for the flag for all commands |
| AclUserRules.FreshOrReset | redis-6.2.3/src/acl.c:611-670 | applied to a new user they give the user back; after a reset the flag to sanitize payloads is also set |
| AclText.ShowParses | redis-6.2.3/src/acl.c:825-1014 | every rule a description prints is read back as itself |
| AclText.LineRoundTrip | redis-6.2.3/src/acl.c:1544-1598 | pieces joined to a line come back as they were if and only if each is free of spaces, line feeds and trimmed ends |
| AclFile.SaveLoad | redis-6.2.3/src/acl.c:1502-1675 | a saved line restores the user if and only if every allowed subcommand is clean |
| AclUsers.RulesApply | redis-6.2.3/src/acl.c:1565-1610 | rules that the fake user accepts are accepted by the user they are meant for, new or reset, so the assertion in the loader of files never fails |
| AclUsers.LoadedFileIsClean | redis-6.2.3/src/acl.c:1502-1645 | a file that is loaded gives no user a subcommand that could not be saved |
| AclUsers.FileRoundTrip | redis-6.2.3/src/acl.c:1502-1675 | a file with a line for each of any users is loaded as all of these users, together with the default user if it is not among them, if and only if every subcommand allowed to any of them is clean |
| AclUsers.EachUserComesBack | redis-6.2.3/src/acl.c:1502-1675 | each user of a saved file with clean users is what it was, but for the flag for all commands, which follows the bits, and for the default user the flag to sanitize payloads, which a reset sets |
| AclUsers.SaveFile | redis-6.2.3/src/acl.c:1654-1675 | describes the users one after the other; loading the text gives all of them back if and only if all are clean |
| AclFile.CheckCommand | redis-6.2.3/src/acl.c:1179-1211 | the loop over subcommands allows a command exactly when the flag, the bit or a subcommand does |
| AclFile.SameVerdicts | redis-6.2.3/src/acl.c:1179-1211 | a described user has the same verdicts on a command if and only if its id is in the bitmap or the flag for all commands matched the bits |
| AclRoundTrip.SaveUser | redis-6.2.3/src/acl.c:611-670 | for all operations that succeed, the line saved for the user restores it if and only if every allowed subcommand is clean, and then a command gets the same verdict if and only if it has a bit or the flag for all commands matched the bits |
| AclRoundTrip.DescriptionAllowsMore | redis-6.2.3/src/acl.c:464-603 | on every server a user made by +@all, -command, +command may not run a command beyond the bitmap, as a module may register later, which its description allows |
| AclRoundTrip.SpaceIsNotRestored | redis-6.2.3/src/acl.c:945-983 | on every server a user with an allowed subcommand that has a space in it is not restored by its saved line |
| AclAccount.Account.SetCategoryBits | redis-6.2.3/src/acl.c:414-430 | the loop over the command table sets the bits of a category as the function on values does |
| AclAccount.Account.AddSubcommand | redis-6.2.3/src/acl.c:712-738 | a subcommand is appended unless it is there in any case of letters |
| AclAccount.Account.Set | redis-6.2.3/src/acl.c:825-1014 | the user updated in place is the one the function on values gives, and a rule that fails changes nothing |
| AclAccount.Account.SetText | redis-6.2.3/src/acl.c:825-1014 | the same for an operation given as text |
| Bits.BitwiseBit | redis-6.2.3/src/bitops.c:209-263 | each bit of a bitwise operation is the operation on the bits |
| Popcount.SpreadCounts | redis-6.2.3/src/bitops.c:52-86 | the three masking steps on a 32-bit word leave in each byte the number of its ones |
| Popcount.GatherLanes | redis-6.2.3/src/bitops.c:79-86 | the multiplication adds four lanes of at most 56 up in the top byte without overflow |
| Popcount.TableCounts | redis-6.2.3/src/bitops.c:44-44 | the table of 256 entries has the number of ones of each byte |
| Popcount.RedisPopcount | redis-6.2.3/src/bitops.c:40-92 | the number of ones of the string, for every length and alignment |
| Bitpos.SkipAll | redis-6.2.3/src/bitops.c:118-142 | bytes and words skipped hold no bit of the value, and where the search stops one is near or the end is |
| Bitpos.LoadNext | redis-6.2.3/src/bitops.c:144-159 | the word loaded is the next eight bytes, zero-padded, most significant first |
| Bitpos.RedisBitpos | redis-6.2.3/src/bitops.c:101-186 | the least position of the bit in the zero-padded string, or -1 exactly when ones are sought and there are none; the panic is unreachable |
| Bitop.WordIsBytes | redis-6.2.3/src/bitops.c:664-731 | an operation on words is the operation on each of their bytes |
| Bitop.Lengths | redis-6.2.3/src/bitops.c:629-656 | the greatest and the least length, a missing key counting as empty |
| Bitop.FastPath | redis-6.2.3/src/bitops.c:664-731 | the blocks of four words give the fold over all sources at each byte they cover |
| Bitop.ByteOf | redis-6.2.3/src/bitops.c:733-757 | the loop with early exit gives the fold over all zero-padded sources |
| Bitop.BitopCommand | redis-6.2.3/src/bitops.c:593-758 | the result has the greatest length and at each byte the fold of the operation over zero-padded sources; NOT with several sources is refused |
| Bitfield.GetUnsigned | redis-6.2.3/src/bitops.c:229-241 | the bits of the field as a number, the first most significant |
| Bitfield.GetSigned | redis-6.2.3/src/bitops.c:243-263 | the same as two's complement |
| Bitfield.SetUnsigned | redis-6.2.3/src/bitops.c:209-222 | the field has the low bits of the value and no other bit of the string changes |
| Bitfield.NumOfBits | redis-6.2.3/src/bitops.c:209-241 | a field whose bits are those of a value reads as the value modulo 2^bits |
| Bitfield.UnsignedIncr | redis-6.2.3/src/bitops.c:288-323 | an increment of an unsigned field overflows exactly when out of range, wraps modulo 2^bits and saturates to the nearer limit |
| Bitfield.UnsignedSet | redis-6.2.3/src/bitops.c:288-323 | the same for a value to set |
| Bitfield.SignedIncr | redis-6.2.3/src/bitops.c:325-377 | the same for an increment of a signed field of 1 to 64 bits |
| Bitfield.SignedSet | redis-6.2.3/src/bitops.c:325-377 | the same for a signed value to set, except where the difference to the greatest number overflows |
| Bitfield.SaturatesIff | redis-6.2.3/src/bitops.c:325-352 | saturation of a signed value to set is right if and only if that difference does not overflow |
| Bitfield.SaturatesWrongWay | redis-6.2.3/src/bitops.c:325-352 | the least 64-bit number set in an i8 field saturates to 127 instead of -128 |
| BitfieldCommand.Change | redis-6.2.3/src/bitops.c:1043-1114 | SET and INCRBY leave the fitted value in the field, change no other bit, reply the old or the new value, or leave all as it is and reply null under FAIL |
| BitfieldCommand.GetField | redis-6.2.3/src/bitops.c:1116-1147 | GET through the window of nine bytes reads the field of the zero-padded string |
| BitfieldCommand.Execute | redis-6.2.3/src/bitops.c:1039-1149 | the operations run one after the other on the string padded up to the last bit to be written |
| BitfieldCommand.WrapFits | redis-6.2.3/src/bitops.c:311-322 | under WRAP the value stored is always the one equal modulo 2^bits |
| BitfieldCommand.IncrementClamps | redis-6.2.3/src/bitops.c:325-352 | an increment under SAT is always clamped |
| BlockedIndex.JoinIndex | redis-6.2.3/src/blocked.c:640-667 | adding a client to the list of one more key keeps the index: listed once under a key exactly when waiting for it |
| BlockedIndex.LeaveIndex | redis-6.2.3/src/blocked.c:673-693 | so does taking it out, and the list is there to take it from |
| BlockedIndex.CountsDel | redis-6.2.3/src/blocked.c:199-203 | counters still equal the numbers of blocked clients when one leaves |
| BlockedServer.Scheduler.BlockClient | redis-6.2.3/src/blocked.c:89-101 | one more blocked client of any type, counted, with the index kept |
| BlockedServer.Scheduler.BlockForReplicas | redis-6.2.3/src/replication.c:3207-3213 | a client of WAIT is first in the list of those that wait for acknowledgements |
| BlockedServer.Scheduler.BlockForKeys | redis-6.2.3/src/blocked.c:626-669 | the client is last in the list of each key it names, once, and nothing else changes |
| BlockedServer.Scheduler.UnblockClient | redis-6.2.3/src/blocked.c:174-208 | the client leaves every list, others stay in order in the same lists, and the counters agree |
| BlockedServer.Scheduler.SignalKeyAsReady | redis-6.2.3/src/blocked.c:726-762 | the key is queued once exactly when someone waits for it and someone is blocked for its type; if not, nobody it could serve waits |
| BlockedServer.Scheduler.AddKey | redis-6.2.3/src/db.c:192-199 | a new key leaves no client behind that it could serve |
| BlockedServer.Scheduler.PauseClient | redis-6.2.3/src/server.c:4225-4226 | a paused client is last in the list of paused ones |
| BlockedServer.Scheduler.UpdateKey | redis-6.2.3/src/t_list.c:241-244 | a list that grows or shrinks in place needs no signal: whoever it could serve has it queued already |
| BlockedServer.Scheduler.UpdateStream | redis-6.2.3/src/t_stream.c:1834-1836 | a stream that grows or loses a group leaves no client behind that is due |
| BlockedServer.Scheduler.TrimStream | redis-6.2.3/src/t_stream.c:3172-3256 | a stream that loses entries, newest ones too, needs no signal: whoever it could serve has it queued already |
| BlockedServer.Scheduler.OverwriteKey | redis-6.2.3/src/db.c:224-245 | an overwritten key is not signalled: it is lost to clients exactly when it is not queued anyway and a client listed under it waits for the new value |
| BlockedServer.Scheduler.SetAndServe | redis-6.2.3/src/db.c:258-264 | from any state between commands, setting a key and serving clients leaves a client behind if and only if the key was there and a client listed under it waits for the new value |
| BlockedServer.ClientLeftBehind | redis-6.2.3/src/sort.c:572-573 | BLPOP on a missing key, a string stored there, and a list stored over it end with the client blocked beside a list that could serve it |
| BlockedServer.Scheduler.ServeListClient | redis-6.2.3/src/t_list.c:851-902 | the element goes to the client or to the list it asked for, which is signalled when it is new; the wrong type is refused and nothing changes |
| BlockedServer.Scheduler.ListPass | redis-6.2.3/src/blocked.c:262-311 | the loop never looks at a released list; every client it serves finds an element, and it stops exactly at the first that could be served and finds none |
| BlockedServer.Scheduler.ServeList | redis-6.2.3/src/blocked.c:262-319 | clients of the type are served in order from the first up to that stop, others move to the tail; the lists and what clients are given are those of serving these clients one by one; a key that is left could serve nobody who waits; the log of turns grows by exactly these clients |
| BlockedServer.Scheduler.ServeZset | redis-6.2.3/src/blocked.c:324-368 | the same for sorted sets, with exactly as many clients served as there are members or clients; each takes the member at the end it asks for, and the log of turns grows by exactly these clients |
| BlockedServer.Scheduler.TakeElement | redis-6.2.3/src/blocked.c:283-306 | the element is popped where the client says and handed over, or put back so that the data is as before |
| BlockedData.ServeConserves | redis-6.2.3/src/t_list.c:851-902 | an element taken for a client leaves the lists once; one moved or refused stays in them, whichever lists and ends |
| BlockedData.ServingConserves | redis-6.2.3/src/blocked.c:262-311 | over all clients served from one list, through any BLMOVE, every element occurs as often among those taken and those still in the lists as before |
| BlockedData.CoverExists | redis-6.2.3/src/blocked.c:544-597 | there are always distinct keys that hold all lists and all targets, over which elements can be counted |
| BlockedData.ListKeepsOthersIff | redis-6.2.3/src/blocked.c:271-281 | clients of another type keep their order in a pass over a list if and only if all of them wait before the client at which it must stop, or all after |
| BlockedData.PopsInOrder | redis-6.2.3/src/blocked.c:262-311 | clients of BLPOP get the elements from the head in the order in which they are served, and the rest stays in order |
| BlockedServer.Scheduler.StreamClient | redis-6.2.3/src/blocked.c:385-468 | a client of a stream leaves exactly when its group is gone or an ID beyond the last seen is there; then its group reads on, otherwise a client of a group waits from the ID its group has read |
| BlockedServer.Scheduler.ServeStream | redis-6.2.3/src/blocked.c:373-472 | the list is walked while clients leave it; stream, remaining clients and those served, in order, are what looking at each client once gives; nobody who is due is left |
| BlockedStreams.ServedIffDue | redis-6.2.3/src/blocked.c:396-415 | a client is served exactly when it is due in the stream that the clients before it left |
| BlockedStreams.PlainServedIffDue | redis-6.2.3/src/blocked.c:396-415 | one without a group is served exactly when it is due at the start |
| BlockedStreams.GroupsReadOn | redis-6.2.3/src/blocked.c:396-460 | no group is dropped and none reads back or beyond the end |
| BlockedStreams.WalkServesAll | redis-6.2.3/src/blocked.c:385-468 | after the walk no client that waits for the stream is due |
| BlockedServer.Scheduler.HandleBlockedOnKeys | redis-6.2.3/src/blocked.c:544-597 | the loop ends, through any chain of BLMOVE; then no client waits for a list, sorted set or stream that could serve it, but for keys lost by overwriting; and over all lists every element occurs as often as before, with those taken |
| BlockedServer.Scheduler.ServedInTurn | redis-6.2.3/src/blocked.c:544-597 | between any operations, whoever was ever served from a list or sorted set under a key that has seen clients of one type only blocked before everyone who waits for that key now |
| BlockedOrder.ServedAreFirst | redis-6.2.3/src/blocked.c:262-366 | clients of the served type keep their order: those served are the first, those left are the rest |
| BlockedOrder.ZsetKeepsOthersIff | redis-6.2.3/src/blocked.c:331-342 | clients of another type keep their order in a pass over a sorted set if and only if all of them wait before the client at which its members run out, or all after |
| BlockedOrder.MixedTypesSwap | redis-6.2.3/src/blocked.c:331-342 | a pass over a sorted set with one member swaps two clients blocked for a list |
| BlockedState.InOrderPass | redis-6.2.3/src/blocked.c:262-366 | a list that never saw clients of two types stays in the order of blocking, and those served blocked before those left |
| BlockedState.FairJoined | redis-6.2.3/src/blocked.c:626-669 | a client that blocks is last in the order of blocking |
| LinkedList.List.AddHead | redis-6.2.3/src/adlist.c:89-107 | acts as a prepend; pointers, ends and length stay consistent |
| LinkedList.List.AddTail | redis-6.2.3/src/adlist.c:115-133 | acts as an append; pointers, ends and length stay consistent |
| LinkedList.List.InsertNode | redis-6.2.3/src/adlist.c:135-162 | acts as an insertion before or after a position |
| LinkedList.List.DelNode | redis-6.2.3/src/adlist.c:168-181 | acts as the removal of a position, touching only the neighbours |
| LinkedList.List.RotateTailToHead | redis-6.2.3/src/adlist.c:331-343 | the last element becomes the first |
| LinkedList.List.RotateHeadToTail | redis-6.2.3/src/adlist.c:346-358 | the first element becomes the last |
| LinkedList.List.Join | redis-6.2.3/src/adlist.c:362-378 | acts as concatenation and leaves the other list empty |
| LinkedList.List.Empty | redis-6.2.3/src/adlist.c:57-72 | leaves no element |
| LinkedList.List.Index | redis-6.2.3/src/adlist.c:316-328 | the node at a position counted from either end, or null beyond |
| LinkedList.List.SearchKey | redis-6.2.3/src/adlist.c:291-309 | the first node that matches, or null exactly when none does |
| LinkedList.List.Dup | redis-6.2.3/src/adlist.c:251-280 | a new list of copies in order, or null exactly when a value cannot be copied |
| LinkedList.List.Sweep | redis-6.2.3/src/adlist.c:230-241 | an iteration from the head that removes the current node visits each original element once in order and leaves the others |
| LinkedList.List.SweepBack | redis-6.2.3/src/adlist.c:230-241 | the same from the tail, in the reverse order |
| Background.StepKeepsInv | redis-6.2.3/src/bio.c:129-250 | every step keeps mutual exclusion, the count, the order, and the node the worker holds at the head of the queue |
| Background.JobsRunOnceInOrder | redis-6.2.3/src/bio.c:204-250 | in every state of every interleaving jobs have run once each in order of submission, and with the lock free the counter is the length of the queue |
| Background.NothingPending | redis-6.2.3/src/bio.c:259-265 | a reader that sees no pending job knows that every job submitted has run |
| Background.NoLostWakeup | redis-6.2.3/src/bio.c:129-136 | with a job queued and nobody in the critical section a waiting worker has been woken |
| Background.JobRunsAfter | redis-6.2.3/src/bio.c:150-250 | in every run a queued job has run exactly when the worker has made a number of steps of its own that is known when one starts to count, at most five for each job up to it, however the steps of submitters and readers come in between |
| Background.NeverStuck | redis-6.2.3/src/bio.c:129-250 | while a submitted job has not run, the submitter in the critical section can go on, or else the worker can, having been signalled if it sleeps |

## Left out

- The Django application at the root of the tree, and the rest of Redis: thin handlers, option tables, event loop and network code.
- Epochs are unbounded numbers; the 64-bit counter of `cluster.c` could only wrap after 2^64 elections.
- Restarts, hard resets and edits of `nodes.conf` are not steps of a cluster run: they deliberately break the monotony of epochs.
- Gossip, failure reports, pub/sub, module messages and handshakes; known nodes are always in one of the two roles, and a replica knows its master.
- Failure detection is not computed: which masters a node takes to have failed, and whether a link is up, are inputs of a step. Clocks are inputs too.
- Keys in slots that are lost while they still hold data are not modelled.
- AOF: MULTI, an RDB preamble, and the objects a child writes; the snapshot is any byte string. Times are unbounded numbers.
- AOF: the child's last read of the pipe is taken to come up short only when the pipe is empty.
- AofRecovery.CrashRecovery: for commands of at least one argument whose count and lengths print in the digits the loader's line buffer holds, and names the loader knows; sizes beyond a C long are not modelled.
- ACL: SHA-256 is any function to valid hashes; passwords in clear are never stored. Command ids are below the reserved bit, names are unique and free of spaces.
- ACL: the bitmap is an array of booleans; the packing in 64-bit words is not modelled. The ACL log, authentication, key and channel checks and the killing of clients are left out.
- AclFile.SameVerdicts: a command whose id is beyond the bitmap has no subcommands in the model.
- ACL: a NUL is an ordinary character in rules and files; the C code compares and reads strings up to the first one.
- AclUsers.SaveFile: writing through a temporary file and its errors are not modelled.
- Popcount.TableCounts: the table is written as rows, five distinct ones, in place of 256 entries.
- Bitpos and popcount load words in one byte order of the machine; counting and comparison do not depend on it.
- BITCOUNT, BITPOS, SETBIT and GETBIT argument handling, and parsing of BITFIELD arguments; limits on string length.
- Blocked clients: modules, timeouts, MULTI and scripts; expiry of keys; replies and propagation. A key carries its database.
- BlockedServer.Scheduler.ServeStream: stream contents and consumer groups are reduced to the last ID, the last ID still there and the ID each group has read.
- LinkedList: values cannot be changed in a node; memory allocation never fails, and freeing is not modelled.
- Background: one job type with its worker; what jobs do, and thread creation and cancellation.
