# Verified models of the Android emulator's cores

Dafny models of the parts of this emulator whose correctness is hard to see from the code: the
translation-block engine, the block ciphers, the callback-driven lists and byte streams, the
block layer, and a few automata and arithmetic routines. Each module models one source file or
one job of it. Code that updates state is modelled by classes and methods with loops, proved
against specification functions; the laws are lemmas about those functions and invariants that
every method keeps.

`dafny verify dfyconfig.toml` checks the whole project.

| job | modules |
|---|---|
| block chaining, lookup, instruction budget, the CPU loop | TbChain, TbUnchain, TbHash, TbLookup, TbViews, TbTables, TbIcount, CpuLog, CpuEffects, CpuLoop |
| AES and CBC | AesField, AesCipher, AesCore, AesKeys, AesCbc |
| DES | DesBits, Des, DesKeys, DesLaws |
| AIO handlers | Aio |
| character pipes over circular buffers | CBuffer, CharPipe |
| rate-limited output file | BufferedFile |
| block devices, commit, scatter-gather transfers | BlockIo, BlockCommit, Dma |
| JSON lexer and streamer | JsonLexer, JsonStrings, JsonStreamer |
| data cache simulator, 128-bit products | Dcache, HostUtils |
| shared types and facts | Common, Words |

## How the outside world enters

Callbacks, backends, drivers, the allocator, generated code, interrupt lines and mapping
results are parameters, quantified over in every contract: a function from the number of the
call to its answer, a sequence of changes, or a value chosen freely. Objects that the source
links by pointers are numbered; a tagged pointer is a number and a tag. Words are bit-vectors
in the ciphers and the hash functions and bounded integers with explicit wrap-around in
HostUtils and TbIcount; DES works on the low 32 bits of the source's `unsigned long`. The
counters of the other modules are unbounded.

## What the proofs turned up

For each, the member that states the condition, and one that runs into it.

- A block that invalidates itself while it runs can be patched afterwards: `tb_find_slow`
  starts by clearing the flag that would prevent it (cpu-exec.c:131). `CpuLoop.Loop.Begin` gives
  the condition on the state before the iteration, `CpuLog.DeadPatchExactly` on the record of a
  run, and `CpuLoop.DeadBlockPatched` a run; the chaining invariant of TbChain survives it.
- Unchaining does not stop code whose path went through a block that was invalidated since it
  was entered. Such a block keeps its native jumps, and blocks that only it led to are not found
  from the block that was entered. `TbUnchain.Stop` says exactly which slots go to their exits
  and which still jump; `TbUnchain.PathReturns`: the code comes back when no block of its path
  was invalidated. Runs: `TbUnchain.DeadJumpStays`, and `TbUnchain.LoopRunsOn`, in which a valid
  block goes on jumping to itself.
- A one-use block (cpu-exec.c:98-121) that invalidates itself is invalidated a second time after
  its run, and `tb_remove` then walks off the end of the chain: exactly then, by
  `TbTables.BlockTables.NoCache`; a run in `TbTables.SelfInvalidating`.
- A one-use block that leaves by a fault is never removed. Unless it invalidated itself it stays
  in front of the block it stood in for, and then the jump cache no longer agrees with a full
  walk exactly when it holds the key (`TbViews.OneUseLeft`; a run in `TbTables.LeftBehind`). A
  flush of the cache restores the agreement.
- A put on the buffered file whose flush fails can still send the new data, ahead of the
  pending data, and report success (buffered_file.c:126-157). `BufferedFile.File.Put` states
  when, `BufferedFile.Overtaken` shows a run.
- After decrypting a length that is not a multiple of 16, `AES_cbc_encrypt` leaves the
  deciphered last block as the chaining value, not the ciphertext block (`AesCbc.FinalIvs`;
  `AesCbc.IvsDiffer` for one byte).
- The JSON lexer does not take `0e1` as one number (`JsonLexer.ZeroExpRefused`,
  `JsonLexer.ZeroExpSplits`). It refuses escaped backslashes and slashes although the comment on
  the table lists them (`JsonStrings.RfcStringLexeme`, `JsonStrings.EscapedBackslashRun`), and
  takes strings that section 2.5 of RFC 4627 does not know: raw control characters, single
  quotes and `\'` (`JsonStrings.StringConforms`, `JsonStrings.ControlCharacterTaken`). It reports
  a bad first character of a lexeme one character late (`JsonLexer.LateError`,
  `JsonLexer.RefusedWhere`, `JsonLexer.LateErrorExample`), and cannot be used again after a flush
  (`JsonLexer.FlushIsFinal`).
- Byte access to a device whose length is not a multiple of 512 cannot reach the tail
  (`BlockIo.TailOutOfReach`; `BlockIo.ShortTail` for 700 bytes).
- A transfer whose batches are not whole sectors writes later batches too early
  (`Dma.SectorIsPlace`; `Dma.Misplaced` for a batch of 100 bytes).
- A scatter-gather transfer with an empty entry behind the first never completes, unless a
  request fails first (`Dma.Transfer.Run`, `Dma.Transfer.KeepTrying`, `Dma.StalledTransfer`).
- With one-byte lines an empty data cache hits on address 0xffffffff (`Dcache.PhantomHit`,
  `Dcache.LineIsValid`).

## Model

| member | source | states |
|---|---|---|
| TbChain.JumpTables.Link | exec.c:1228-1262 | A new block has both slots open, jumping to their own exits, and an empty list; all other lists are kept |
| TbChain.JumpTables.AddJump | exec-all.h:321-333 | Index 0 or 1 patches an open slot and adds it to the target's list; a patched slot and index 2 change nothing; the list invariant is kept even when the patched block was invalidated |
| TbChain.JumpTables.Walk | exec-all.h:147-152 | Following the tagged links from a block visits exactly the slots patched to it, each once, and stops at its own tag-2 link |
| TbChain.PatchOk | exec-all.h:321-333 | Patching keeps: each list holds exactly its slots, each slot is in at most one list, and a patched slot's native target is its owner's code |
| TbChain.UnlinkOk | exec.c:747-773 | Cutting a slot out of its circle leaves every other list as it was |
| TbChain.JumpTables.JmpRemove | exec.c:747-773 | The search round the circle ends at the link that names the slot, and exactly that slot leaves its list |
| TbChain.JumpTables.OpenAll | exec.c:821-834 | Every slot that jumps to the block is reset and leaves the list |
| TbChain.JumpTables.Invalidate | exec.c:782-834 | Afterwards the block jumps nowhere in the lists and nothing jumps to it; all other patches are kept; exactly the native jumps of other blocks into it are reset, its own stay as they were |
| TbChain.JumpTables.InvalidateAll | exec.c:782-834 | Any run of invalidations: what is still patched, and that a native jump is reset exactly when its target was invalidated while its own block was not yet |
| TbChain.JumpTables.ResetRecursive | exec.c:1338-1342 | For any block, also one that was invalidated: the recursion ends; only slots of blocks that patched slots lead to are opened, and a block reached through an opened slot has no patched slot left; the native jump of an opened slot is reset, and every other native jump stays |
| TbChain.JumpTables.ResetSlot | exec.c:1299-1336 | The same for one slot, found from the head of its list, native jumps included |
| TbChain.UnchainedPath | exec.c:1299-1342 | After unchaining, no block that patched slots led to from the start, as the patches stood when the unchaining began, has a patched slot |
| TbChain.UnchainedExactly | exec.c:1299-1342 | Exactly the slots of the blocks that direct jumps lead to from the start are opened |
| TbChain.PathStaysLive | exec-all.h:321-333 | Native code that starts in a valid block and follows patched slots stays in valid blocks |
| TbChain.JumpTables.Free | exec.c:1215-1224 | The newest block leaves the array with its two slots; every list is kept |
| TbUnchain.ResetExactly | exec.c:1299-1342 | After unchaining from any block, a slot goes to its exit exactly when it did before or was patched in a block that patched slots lead to |
| TbUnchain.LeadsAfter | exec.c:1299-1342 | After any invalidations the patches lead exactly as far as paths of blocks that were not invalidated |
| TbUnchain.Stop | exec.c:1561-1579 | For code entered at any block and any blocks invalidated since: every slot of every block that was valid at entry goes to its exit or still to its target, and exactly which; the patches that are left are exactly those the unchaining does not get to |
| TbUnchain.PathSlots | exec.c:1561-1579 | For every path the code may have taken: which slots of its blocks go to their exits |
| TbUnchain.PathReturns | exec.c:1561-1579 | The code comes back from every block of its path when none of them was invalidated |
| TbUnchain.DeadJumpStays | exec.c:782-834 | A run in which an invalidated block still jumps straight into its old target after the unchaining |
| TbUnchain.LoopRunsOn | exec.c:1561-1579 | A run in which code goes on from an invalidated block into a valid one that jumps to itself, and the unchaining resets nothing |
| TbHash.HashWindow | exec-all.h:173-186 | All addresses of a page hash into the 64 slots that start at the page's own hash |
| TbHash.LastByte | exec.c:930-933 | A block of at most a page ends on its first page or the next one, also when addresses wrap |
| TbLookup.WalkWithout | cpu-exec.c:140-162 | A key that does not find the removed block finds after the removal what it found before, or nothing as before |
| TbLookup.GeneratedMatches | exec.c:901-940 | A generated block matches its own key under the mapping it was generated with, on one page or two |
| TbLookup.OnePageKnown | exec.c:930-935 | The second page field is the no-page mark exactly when the last byte of the block is on its first page, whatever the mapping |
| TbLookup.AddFinds | exec.c:1228-1242 | After filing a block its key finds it, and every other key finds what it found before |
| TbLookup.RemapInvisible | exec.c:1763-1776 | An address that hashes outside the two flushed windows reads neither of its pages through the remapped page |
| TbLookup.CacheAfterRemap | exec.c:1763-1776 | After a page is remapped and two windows are cleared, every remaining cache entry is still what a full walk finds |
| TbTables.WalkChain | cpu-exec.c:140-162 | The pointer walk returns the first match of the chain, or none |
| TbTables.BlockTables.FindSlow | cpu-exec.c:123-168 | Returns what a full walk finds, or makes the block when nothing matches, after the flush of a full array or the invalidations that happen while it is made; clears the flag first; enters the block in its cache slot; every other key whose block was not invalidated finds what it did |
| TbTables.BlockTables.FindFast | cpu-exec.c:170-188 | The result is a filed block with the key; it comes from the cache exactly when the cache holds the key. While the cache agrees with full walks it is the block a full walk returns, a key is translated exactly if a full walk finds nothing, so no key is translated twice while nothing is flushed, invalidated or remapped, and the agreement is kept |
| TbTables.BlockTables.GenCode | exec.c:901-940 | For any key: a full array is flushed and the flag set; the new block is what its key finds, whatever it found before; every other key whose block was not invalidated finds what it did; the cache still agrees when the key found nothing |
| TbTables.BlockTables.Invalidate | exec.c:782-815 | Exactly one block is no longer filed or cached; keys that did not find it find what they did; agreement is kept |
| TbTables.BlockTables.Flush | exec.c:638-672 | No key finds anything |
| TbTables.BlockTables.FlushAll | exec.c:1780-1808 | Under any new mapping the emptied cache agrees with full walks, also when it did not before |
| TbTables.BlockTables.FlushPage | exec.c:1763-1776 | Clearing two windows is enough when one page is remapped |
| TbTables.BlockTables.NoCache | cpu-exec.c:98-121 | For any flush and any blocks the run invalidates: the last invalidation finds its block exactly when the run did not invalidate it, and then the tables are what the run's invalidations make of the old ones; otherwise tb_remove walks off the chain; after a fault the block stays, filed unless it invalidated itself; and exactly when the cache still agrees with full walks |
| TbTables.BlockTables.Remove | exec.c:715-728 | For any block of the array: it is found exactly when it is filed, and then exactly it leaves its chain and its cache slot |
| TbTables.SelfInvalidating | cpu-exec.c:112-120 | A run in which the last invalidation does not find its block |
| TbTables.LeftBehind | cpu-exec.c:109-120 | A run after which the cache holds one block for a key and a full walk finds another |
| TbViews.KilledDup | exec.c:715-728 | Invalidating a filed block and filing a new one commute, on links, chains and cache |
| TbViews.KilledNew | exec.c:782-815 | Invalidating the newest block undoes its filing |
| TbViews.ShadowedExactly | exec.c:1228-1242 | Filing a second block for a key keeps the cache in agreement exactly when the cache does not hold the key |
| TbViews.OneUseLeft | cpu-exec.c:98-121 | After a one-use block that was not removed, the cache agrees with full walks exactly when the block invalidated itself or the cache does not hold the key by a block that is still valid; unless it invalidated itself the block is what its key finds |
| TbViews.KilledAllAgrees | exec.c:782-815 | Any run of invalidations keeps the cache in agreement with full walks |
| TbViews.KilledAllFinds | exec.c:782-815 | After any run of invalidations the keys that found none of the blocks find what they did |
| TbViews.KilledAllCache | exec.c:809-815 | After any run of invalidations exactly the invalidated blocks have left the cache |
| TbViews.SpareAgrees | exec.c:715-728 | A block that is in no chain changes nothing that is found |
| TbIcount.BudgetReaches | vl-android.c:4324-4326 | The rounded-up budget reaches the deadline and stops within one instruction of it |
| TbIcount.Counter.Block | gen-icount.h:6-32 | The check passes exactly when no interrupt is flagged and enough is left, and then the sum drops by the block's count |
| TbIcount.Counter.FaultingBlock | translate-all.c:187-214 | A block that faults after j instructions is charged exactly j |
| TbIcount.Counter.IoRecompile | exec.c:3644-3688 | The replacement block ends with the faulting instruction and is never too long |
| TbIcount.Counter.Refill | cpu-exec.c:637-646 | The sum is kept and the low half filled as far as it goes |
| TbIcount.Counter.NoCache | cpu-exec.c:98-121 | The length clamp never fires; uninterrupted and without a fault the remaining instructions run exactly; after a fault exactly the instructions before it are charged |
| TbIcount.Counter.Expired | cpu-exec.c:630-656 | Refill and continue, or spend the rest of the budget and leave; nothing goes negative |
| TbIcount.Counter.CpuExec | cpu-exec.c:331-657 | Over a whole run, with faults in ordinary and in one-use blocks and any sequence of blocks, executed instructions and what is left add up to the budget; a run that ends by expiry without an interrupt executed exactly its budget |
| TbIcount.Counter.QemuCpuExec | vl-android.c:4309-4356 | The instruction clock advances by the instructions executed, and unused budget is folded back |
| TbIcount.Counter.Charge | vl-android.c:4318-4333 | What is left is the new budget, and the clock goes on |
| TbIcount.Counter.Settle | vl-android.c:4346-4353 | Nothing is left, and the count is what was executed |
| CpuLog.LogPatch | cpu-exec.c:598-609 | A justified patch keeps the record of the run justified |
| CpuLoop.Loop.Interrupts | cpu-exec.c:332-525 | Which requests are serviced, in which order, and which stay; whenever something is serviced there is no block left to patch |
| CpuLoop.Loop.Find | cpu-exec.c:582-592 | The lookup on both tables at once: the block is live and has the key; it is what a full walk finds while the cache agrees; it is slow exactly when the cache does not hold the key; both tables hold the same blocks afterwards; a lookup that leaves the flag clear has invalidated and flushed nothing |
| CpuLoop.Loop.PatchLast | cpu-exec.c:598-609 | A slot is patched exactly when the last block left by exit 0 or 1, the flag is clear and the target is on one page |
| CpuLoop.Loop.Begin | cpu-exec.c:331-616 | Every patch of every run is justified: its block ran last and left by that exit, nothing was serviced since, the flag was clear after the lookup, the target is on one page. A block that is no longer valid is patched exactly when, before the iteration, nothing is to be serviced, the block that ran last is dead and left by exit 0 or 1, the cache does not hold the key, and the lookup finds a block on one page or makes one without a flush or an invalidation |
| CpuLoop.Loop.Unlink | exec.c:1561-1579 | The block that was entered is unchained, once; its slots and those patched slots lead to are open, and their native jumps reset |
| CpuLoop.Loop.CpuExit | exec.c:1617-1621 | A signal at any time leaves the loop in order and keeps it from entering code |
| CpuLoop.Loop.Apply | exec.c:1580-1610 | Each thing that can happen while code runs has its exact effect on both tables, the mapping, the flag, the requests and the counter, and keeps the cache in agreement with full walks |
| CpuLoop.Loop.RunCode | gen-icount.h:6-32 | For any path and anything that happens in its blocks: the blocks run in order until the path ends or a block does not fit the budget, and the state is that of what happened until then |
| CpuLoop.Loop.Execute | cpu-exec.c:618-656 | The block that left is recorded with its exit; invalidations during the run set the flag; a block that does not fit the budget makes the loop refill it, hand the rest to a one-use block, or leave with nothing left unless interrupted; the clock counts what was executed |
| CpuLoop.Loop.Expired | cpu-exec.c:630-656 | Refill, one-use block or exit, decided by the counter; nothing is executed or lost |
| CpuLoop.Loop.Spend | cpu-exec.c:98-121 | The one-use block on the tables and the counter together: uninterrupted and without a fault it spends the budget exactly; the run is lost exactly when the block invalidated itself and came back; exactly when the cache still agrees with full walks |
| CpuLoop.Loop.RunOnce | cpu-exec.c:98-121 | The one-use block on the lookup tables and the jump tables: what is left is the old tables without the blocks its run invalidated; both hold the same blocks afterwards |
| CpuLog.DeadPatchExactly | cpu-exec.c:582-609 | In every run, an invalidated block is patched exactly if a slow lookup leaves the flag clear and finds a target on one page, right after a block left by exit 0 or 1 no longer valid |
| CpuLoop.DeadBlockPatched | cpu-exec.c:131-131 | A run in which an invalidated block is patched |
| AesField.InvMixMix | aes.c:46-58 | The inverse column mix undoes the column mix |
| AesField.TableColumn | aes.c:46-58 | Four table lookups and a key word are the mixed, substituted column plus the key, for every S-box |
| AesField.InvTableColumn | aes.c:46-58 | The same for the inverse tables |
| AesCipher.InvCipherCipher | aes.c:1076-1261 | The inverse cipher of FIPS-197 undoes its cipher for every schedule and block |
| AesCipher.EquivalentInverse | aes.c:844-877 | The equivalent inverse cipher of section 5.3.5 of FIPS-197, under the transformed schedule, is the inverse cipher |
| AesCore.EncRoundRefines | aes.c:981-1036 | A table round is a round of FIPS-197 |
| AesCore.DecRoundRefines | aes.c:1172-1227 | A table decryption round is a round of the equivalent inverse cipher |
| AesCore.EncryptWords | aes.c:885-1068 | The loop of two rounds a pass computes the FIPS-197 cipher of the schedule in the key object |
| AesCore.DecryptWords | aes.c:1076-1256 | The same for the equivalent inverse cipher |
| AesCore.Encrypt | aes.c:885-1068 | The output block is the FIPS-197 ciphertext, and nothing else is written |
| AesCore.Decrypt | aes.c:1076-1261 | The output block is the equivalent inverse cipher's result |
| AesKeys.Expand128 | aes.c:756-773 | The unrolled loop writes the FIPS-197 key expansion for 128 bits |
| AesKeys.Expand192 | aes.c:776-795 | The same for 192 bits |
| AesKeys.Expand256 | aes.c:798-825 | The same for 256 bits |
| AesKeys.SetEncryptKey | aes.c:731-827 | Error codes for a null key and for bad sizes; otherwise the FIPS-197 schedule |
| AesKeys.ReverseRounds | aes.c:846-852 | The in-place swaps reverse the order of the round keys |
| AesKeys.TransformRounds | aes.c:854-876 | Every inner round key is replaced by its inverse column mix |
| AesKeys.SetDecryptKey | aes.c:832-879 | The result is the decryption schedule of section 5.3.5 of FIPS-197 for the same user key |
| AesKeys.RoundTrip | aes.c:731-1261 | For every key of 128, 192 or 256 bits and every block, decryption under its decryption schedule undoes encryption |
| AesKeys.EncryptThenDecrypt | aes.c:731-1261 | The same for the code's own sequence of calls |
| AesCbc.DecEnc | aes.c:1265-1314 | For every length, decrypting the block-rounded ciphertext with the plaintext's length gives the plaintext |
| AesCbc.DecEncRounded | aes.c:1284-1291 | Decrypting the rounded length gives the plaintext and zero padding |
| AesCbc.FinalIvs | aes.c:1276-1312 | On whole blocks both directions leave the same chaining value; on a short tail exactly how they differ |
| AesCbc.IvsDiffer | aes.c:1284-1312 | A pair of inverse block functions and a one-byte plaintext whose final chaining values differ |
| AesCbc.EncSplit | aes.c:1265-1314 | Encrypting in two calls split at a block boundary is encrypting once |
| AesCbc.DecSplit | aes.c:1265-1314 | The same for decryption |
| AesCbc.KeysInvert | aes.c:731-879 | Schedules from one user key make inverse block functions |
| AesCbc.CbcEncrypt | aes.c:1274-1292 | The loop computes the mode, in place or not, writes nothing else and leaves the chaining value |
| AesCbc.CbcDecrypt | aes.c:1293-1313 | The same for decryption |
| AesCbc.EncryptThenDecrypt | aes.c:1265-1314 | Both directions on one buffer in place bring back what was there, for every length |
| Des.ClosingInvertsOpening | d3des.c:329-393 | The closing swaps undo the opening ones with the halves exchanged |
| Des.FeistelCancels | d3des.c:354-374 | Half-rounds under the reversed keys cancel, for arbitrary SP boxes |
| Des.DesInverse | d3des.c:322-394 | The block function under the reversed schedule is the inverse of the block function |
| DesKeys.TotalRotation | d3des.c:78-90 | The code's total rotations give the registers that FIPS 46-3 builds by single shifts |
| DesKeys.PackRound | d3des.c:92-98 | The packing loop gathers the bits that the second choice of FIPS 46-3 selects |
| DesKeys.KeyRegister.SetKey | d3des.c:67-100 | The register holds the cooked schedule of the key, reversed pair by pair for decryption |
| DesKeys.KeyRegister.CookKey | d3des.c:102-140 | Each raw pair is cooked into its place |
| DesKeys.KeyRegister.DesFunc | d3des.c:322-394 | Eight passes of two half-rounds compute the block function of the loaded keys |
| DesKeys.KeyRegister.DesBytes | d3des.c:142-176 | The same on bytes, in place or not |
| DesKeys.DecipherInverts | d3des.c:67-176 | For every key and block, deciphering undoes enciphering |
| DesKeys.EncryptThenDecrypt | d3des.c:67-176 | The same for the code's own sequence of calls |
| DesLaws.ParityIgnored | d3des.c:67-100 | Keys that differ only in the top bits of their bytes have the same schedule |
| DesLaws.Complementation | d3des.c:322-394 | Complementing key and block complements the result, for arbitrary SP boxes |
| Aio.Handlers.Find | aio.c:41-52 | The search finds the live node of a descriptor exactly when one is registered |
| Aio.Handlers.SetFdHandler | aio.c:54-96 | The live nodes go on to be the map from descriptor to latest handler; during a walk no node is freed and exactly the unregistered node is marked |
| Aio.UnlinkLinked | qemu-queue.h:125-130 | Removing a node keeps both directions of the list |
| Aio.RefinesRewrite | aio.c:64-91 | Changing or marking a live node changes the meaning of its descriptor only |
| Aio.Handlers.Serve | aio.c:175-184 | Each callback is called on the latest handler of a node that is still live, after a fresh look |
| Aio.Handlers.Advance | aio.c:186-192 | The walk steps to the next node of the list and frees exactly a marked node |
| Aio.Handlers.Dispatch | aio.c:166-196 | Whatever the callbacks register or unregister, the walk stops at every node it started with, once each and in order, never at a freed one; a node is called exactly when it was live at the start, no earlier callback unregistered it and its descriptor is ready; the handlers end up as all changes in order leave them |
| CBuffer.WriteThenRead | cbuffer.c:80-149 | What is written after the bytes held is read after them |
| CBuffer.Buffer.Write | cbuffer.c:80-114 | As many bytes as fit are held last, in order, around the end of the array |
| CBuffer.Buffer.Read | cbuffer.c:116-149 | The oldest bytes come out in order and the rest stays |
| CBuffer.Buffer.ReadPeek | cbuffer.c:151-164 | The span shown is the oldest bytes, and it is empty only when the buffer is |
| CBuffer.Buffer.ReadStep | cbuffer.c:167-180 | Exactly the oldest bytes go |
| CBuffer.Buffer.WritePeek | cbuffer.c:51-67 | The span starts behind the last byte held, fits, and is empty only when the buffer is full |
| CBuffer.Buffer.WriteStep | cbuffer.c:69-77 | The bytes stored there are held last |
| CharPipe.TakeOk | charpipe.c:45-50 | Taking a buffer off one list leaves every buffer in one list or just taken |
| CharPipe.AppendOk | charpipe.c:146-150 | Chaining a buffer behind the last one keeps every list |
| CharPipe.Pipes.Alloc | charpipe.c:45-61 | The free list is used first; no chain changes; the buffer is empty |
| CharPipe.Pipes.Free | charpipe.c:63-68 | The buffer is on the free list and nowhere else |
| CharPipe.Pipes.WriteDirect | charpipe.c:106-126 | Bytes go straight to the peer only while nothing is buffered |
| CharPipe.Pipes.Write | charpipe.c:95-152 | Every byte is taken; bytes that left followed by bytes buffered are all bytes written, in order |
| CharPipe.Pipes.Poll | charpipe.c:155-200 | It ends, sends the oldest waiting bytes, and sends all of them when it is not throttled or its peer always has room; other pipes are untouched |
| CharPipe.Pipes.BufferWrite | charpipe.c:293-342 | The same law for a character buffer, whatever its endpoint answers |
| CharPipe.Pipes.BufferPoll | charpipe.c:345-383 | It ends, sends the oldest waiting bytes, and all of them to an endpoint that takes everything |
| CharPipe.Pipes.Close | charpipe.c:80-92 | Every buffer of the chain goes back to the free list; what was written is what had been delivered followed by what is dropped now; other pipes are untouched |
| CharPipe.Conservation | charpipe.c:80-200 | In every reachable state the bytes written are the bytes delivered, then the bytes dropped by a close, then the bytes waiting; nothing is dropped while a pipe is open |
| BufferedFile.File.Append | buffered_file.c:49-71 | The copy always fits |
| BufferedFile.File.Flush | buffered_file.c:73-108 | The front of the buffer that the backend takes goes, in order; it stops short only frozen or failed |
| BufferedFile.File.Put | buffered_file.c:110-160 | While there is no error, bytes accepted followed by bytes pending are all bytes put; errors stay; new data overtakes pending data exactly when the flush failed and the backend took some of the new data |
| BufferedFile.File.RateTick | buffered_file.c:221-239 | The buffer is flushed and the transfer count cleared, but nothing happens while frozen or after an error; the invariant is kept |
| BufferedFile.File.SetRateLimit | buffered_file.c:201-212 | The limit of a tenth of a second, unless there was an error |
| BufferedFile.File.Close | buffered_file.c:162-183 | For a backend that is eventually ready it ends, without an error if the backend never fails, and then everything put was accepted in order |
| BufferedFile.Overtaken | buffered_file.c:126-157 | A run in which a put reports success after overtaking pending data |
| BlockIo.FitsWholeSectors | block.c:557-583 | On a device of whole sectors a byte request succeeds exactly when it lies on the device |
| BlockIo.TailOutOfReach | block.c:557-583 | On any device a request fits exactly when it ends in the whole sectors of the device |
| BlockIo.ShortTail | block.c:557-583 | A device of 700 bytes: the last 188 cannot be read, the first 512 can |
| BlockIo.Device.Read | block.c:586-597 | Success exactly for whole sectors on an inserted device whose driver works |
| BlockIo.Device.Write | block.c:605-617 | The same for writing; a failure touches only the sectors of the request |
| BlockIo.Device.PRead | block.c:619-661 | Success exactly when the sectors of the range lie on the device and the driver works, and then the bytes asked for |
| BlockIo.Device.PWrite | block.c:663-709 | The same, and then exactly those bytes are replaced; a failure touches nothing outside the sectors of the range |
| BlockIo.Device.WriteThenRead | block.c:619-709 | What was written is what is read back |
| BlockCommit.DropKeepsView | block.c:551-552 | Once the overlay is committed, dropping any of its sectors changes nothing the guest reads |
| BlockCommit.DropNeedsCommit | block.c:551-552 | Dropping a sector that was not committed shows, unless the image under it reads the same |
| BlockCommit.CoveredWrite | block.c:541-543 | Whatever a write leaves in a backing sector, the guest does not see it under an overlay sector |
| BlockCommit.Image.CommitRun | block.c:536-545 | Copying a run of allocated sectors keeps the guest's view at every step, also when a write fails and leaves garbage |
| BlockCommit.Image.Commit | block.c:515-555 | However it ends the guest reads what it read before; on success the backing image holds the view and the overlay is empty; it fails exactly when the driver fails or the backing image cannot take a sector; the error codes |
| Dma.MapBatch | dma-helpers.c:100-112 | The pieces mapped are the next bytes of the list, in order, and the place moves past exactly them |
| Dma.SectorIsPlace | dma-helpers.c:89-89 | A batch goes to the sector its place in the stream calls for exactly when all batches before it were whole sectors |
| Dma.Transfer.MapAndSubmit | dma-helpers.c:100-131 | Something is submitted or the machine waits for memory, with nothing lost |
| Dma.Transfer.Callback | dma-helpers.c:82-131 | Bytes submitted followed by bytes remaining are the whole list; the completion callback fires exactly when the list is done or the request failed, and never twice |
| Dma.Transfer.Run | dma-helpers.c:54-131 | A whole run, when memory can be mapped from some call on: it ends; it ends with exactly one callback, with the last result, exactly when no entry is empty or the last completed request failed; otherwise it stands at an empty entry |
| Dma.Transfer.KeepTrying | dma-helpers.c:54-117 | At an empty entry any number of retries submits nothing and calls nothing back |
| Dma.StalledTransfer | dma-helpers.c:100-117 | A run of a list with an empty second entry: the first entry completes, and no number of retries brings the callback |
| Dma.Misplaced | dma-helpers.c:89-89 | A run whose first batch is 100 bytes and whose second goes to the sector of the first |
| Dma.Transfer.Reschedule | dma-helpers.c:54-61 | A retry after a mapping failure continues where the list stood |
| Dma.Complete | dma-helpers.c:82-131 | A transfer that reports success submitted every byte once and in order |
| Dma.SgList.Add | dma-helpers.c:21-32 | The entry fits, and the size counts the bytes of the list |
| JsonLexer.NothingLost | json-lexer.c:282-335 | Lexemes, skipped whitespace and the pending token spell out exactly the characters taken |
| JsonLexer.FeedConcat | json-lexer.c:321-335 | Feeding in two pieces is feeding at once, up to the first refusal |
| JsonLexer.ErrorIsFinal | json-lexer.c:292-308 | After an error nothing more is taken or emitted |
| JsonLexer.LateError | json-lexer.c:282-335 | A run of any input ends without refusal in the error state exactly when its last character ends the pending lexeme and starts none |
| JsonLexer.RefusedWhere | json-lexer.c:282-335 | A refused run is refused at a character that cannot continue the pending token, or right after a character that ended a lexeme and starts none |
| JsonLexer.LateErrorExample | json-lexer.c:301-306 | The input 1$ is taken without an error, and the next character is refused whatever it is |
| JsonLexer.FlushIsFinal | json-lexer.c:337-340 | After a flush the lexer is in the error state |
| JsonLexer.LexemesAccepted | json-lexer.c:70-319 | Every lexeme of every run is a text the table accepts for its kind |
| JsonLexer.NumberLexemes | json-lexer.c:149-195 | The texts accepted as integers and floats are exactly the numbers of section 2.4 of RFC 4627, without and with fraction or exponent, except a zero with a bare exponent |
| JsonLexer.ZeroExpRefused | json-lexer.c:149-154 | A zero with a bare exponent is not one lexeme |
| JsonLexer.ZeroExpSplits | json-lexer.c:149-154 | A run: 0e1 and a blank are three lexemes |
| JsonStrings.StringLexemes | json-lexer.c:71-147 | A text is a string lexeme exactly when it is a quote, a body and the same quote, the body made of plain characters and the escapes of the table |
| JsonStrings.RfcStringLexeme | json-lexer.c:71-115 | A string of section 2.5 of RFC 4627 is one lexeme exactly when it escapes no backslash and no slash |
| JsonStrings.StringConforms | json-lexer.c:71-147 | A string lexeme is a string of section 2.5 of RFC 4627 exactly when its quotes are double and it has no raw control character and no escaped single quote |
| JsonStrings.EscapedBackslashRun | json-lexer.c:96-105 | A run: the string of one escaped backslash is refused at its second backslash |
| JsonStrings.ControlCharacterTaken | json-lexer.c:106-115 | A string lexeme that RFC 4627 does not allow |
| JsonLexer.Scanner.FeedOne | json-lexer.c:282-319 | One step of the automaton, with the line and column of the input |
| JsonLexer.Scanner.FeedAll | json-lexer.c:321-335 | The loop is a run of the automaton, whatever was fed before |
| JsonStreamer.CutCovers | json-streamer.c:52-59 | The messages and the pending tokens are the token stream, and no message is empty |
| JsonStreamer.MessageEnds | json-streamer.c:26-59 | Messages end exactly after the fronts of the stream whose braces and brackets balance |
| JsonStreamer.Streamer.ProcessToken | json-streamer.c:21-60 | The counts are the net counts of all tokens, and the messages are the stream cut at balance |
| JsonStreamer.Streamer.FeedAll | json-streamer.c:73-77 | Every token the lexer emits is processed, whatever the split into feeds |
| Dcache.Log2Roundup | dcache.c:55-64 | The least exponent whose power of two reaches the number |
| Dcache.Init | dcache.c:66-119 | Sizes are rounded up to powers of two, and the cache has room for what was asked; the policy and the penalties are those asked for; the table is blank and the counters are zero |
| Dcache.OneRowIsEnough | dcache.c:185-189 | Searching a line's row is searching the whole cache |
| Dcache.OnceOnly | dcache.c:262-262 | No line is resident twice |
| Dcache.RowIsLastMisses | dcache.c:235-241 | A round-robin row holds exactly its last misses, as many as it has ways |
| Dcache.WayStep | dcache.c:242-257 | Under the other policy the way after k misses is (k + k/13) mod ways |
| Dcache.LineIsValid | dcache.c:93-94 | A line number equals the mark of an unused way only for one-byte lines and the last address |
| Dcache.PhantomHit | dcache.c:188-190 | An empty cache hits on exactly that line |
| Dcache.Cache.Load | dcache.c:181-263 | A hit changes nothing but a counter; a miss puts the line in its row, and the policy's invariant and the simulated time are kept |
| Dcache.Cache.Store | dcache.c:267-326 | Stores bring no line in |
| Dcache.Cache.Swp | dcache.c:330-334 | The store of a swap always hits |
| HostUtils.Add128 | host-utils.c:34-41 | Addition modulo 2^128 |
| HostUtils.Neg128 | host-utils.c:43-48 | Negation modulo 2^128 |
| HostUtils.Mul64 | host-utils.c:50-74 | The exact product of two 64-bit words |
| HostUtils.Mulu64 | host-utils.c:77-84 | high * 2^64 + low is the exact product |
| HostUtils.Muls64 | host-utils.c:87-104 | The exact two's-complement product, also for the minimum value |

## Left out

- Host and target variants of cpu-exec.c: only the branches of the ARM build are modelled.
- Faults in the code fetch of a lookup leave by a long jump before anything is filed and are not modelled in TbTables.
- Page lists and dirty tracking of exec.c: which stores invalidate which blocks is an input.
- CpuLoop.Loop.Spend: the one-use block does not change the code mapping.
- CpuLoop.Loop.RunCode: takes any path of the patches at entry, also one that a reset jump would have cut short.
- Interrupts raised from another thread, and the lock of cpu_unlink_tb.
- TbIcount.Counter.CpuExec: lists the faults of the run, which is finite, because a guest that faults forever on its first instruction never leaves the loop.
- The contents of the AES S-box and of the DES SP boxes: the laws hold for any.
- Triple DES and key copying of d3des.c.
- `qemu_aio_flush` and the descriptor sets of `qemu_aio_wait`: which descriptors are ready is an input.
- Aio.Handlers.Dispatch: callbacks do not start another walk, because the lock is a single flag.
- CharPipe.Pipes.Poll: claims order and conservation, not flow control, because the throttle consults the wrong half.
- Opening a closed pipe again (charpipe.c:231-254).
- CharPipe.Pipes.Write: a peer's read callback does not write to the same half.
- BufferedFile.File.Close: the timer and the release of the object are not modelled.
- Devices that grow, and 64-bit overflow of sector arithmetic, in BlockIo.
- BlockCommit.Image.Commit: works on sectors as units, and takes runs of allocated sectors from the driver as given.
- Dma.Transfer.Run: rejected submissions and cancelling, and the release of the control block when the first batch maps nothing, are outside the transfer.
- NUL characters inside JSON input, which the token strings cannot hold.
- Address tracing and its compression in dcache.c.
- Overflow of `int` in `log2_roundup` and of the statistics counters.
- Display, console, disassembler, snapshot, networking and Bluetooth code.
